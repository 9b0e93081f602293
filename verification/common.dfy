/**
 * Shared types and constants of the offload solver: block hashes, cost
 * sites, the control word handed to the simulator and the site letters
 * printed in decision files.
 */
module Common {

  /** Unsigned 64-bit values (`uint64_t`). */
  type u64 = x: int | 0 <= x < 0x1_0000_0000_0000_0000

  /** The decision codes carried by offload annotations. */
  const PIMPROF_DECISION_CPU: u64 := 0
  const PIMPROF_DECISION_PIM: u64 := 1

  const GLOBAL_BBLID: int := 0
  const MAIN_BBLID: int := 1

  /** A block hash: the two 64-bit halves of a MurmurHash3 digest (`std::pair<uint64_t, uint64_t>`). */
  datatype UUID = UUID(hi: u64, lo: u64)

  const GLOBAL_BBLHASH: UUID := UUID(0, 0)

  /** `std::pair` ordering: by the first half, then by the second. */
  predicate UuidLess(a: UUID, b: UUID)
  {
    a.hi < b.hi || (a.hi == b.hi && a.lo < b.lo)
  }

  lemma UuidLessTotal(a: UUID, b: UUID)
    ensures a == b || UuidLess(a, b) || UuidLess(b, a)
    ensures !(UuidLess(a, b) && UuidLess(b, a))
  {
  }

  /** The hash the unordered maps use: the XOR of the two halves. */
  function UuidHash(key: UUID): bv64
  {
    Xor64(Bits64(key.hi), Bits64(key.lo))
  }

  function Bits64(x: u64): bv64
  {
    x as bv64
  }

  function Xor64(a: bv64, b: bv64): bv64
  {
    a ^ b
  }

  lemma Xor64Facts(a: bv64, b: bv64)
    ensures Xor64(a, b) == Xor64(b, a)
    ensures Xor64(a, a) == 0
  {
  }

  /** Swapping the halves does not change the hash. */
  lemma UuidHashSymmetric(hi: u64, lo: u64)
    ensures UuidHash(UUID(hi, lo)) == UuidHash(UUID(lo, hi))
    ensures UuidHash(UUID(hi, hi)) == 0
  {
    Xor64Facts(Bits64(hi), Bits64(lo));
  }

  /** Where a block runs, plus the enumerators that are not sites. */
  datatype CostSite = CPU | PIM | MaxCostSite | NotPIM | All | Default | Invalid

  /** The numeric value of each enumerator. */
  function SiteValue(site: CostSite): (v: nat)
    ensures site == Default ==> v == 0x0fffffff
    ensures site == Invalid ==> v == 0x3fffffff
    ensures site != Default && site != Invalid ==> v < 5
  {
    match site
    case CPU => 0
    case PIM => 1
    case MaxCostSite => 2
    case NotPIM => 3
    case All => 4
    case Default => 0x0fffffff
    case Invalid => 0x3fffffff
  }

  /** The site letters, one per enumerator in declaration order. */
  const CostSiteString: seq<string> := ["C", "P", "M", "N", "A", "D", "I"]

  /**
   * The lookup as written: the table is indexed with the enumerator's
   * numeric value, which for DEFAULT and INVALID lies far past its seven
   * entries; `None` stands for that out-of-bounds read.
   */
  function CostSiteStringAt(site: CostSite): (r: Option<string>)
    ensures r.Some? <==> SiteValue(site) < |CostSiteString|
    ensures r.Some? ==> r.value == CostSiteString[SiteValue(site)]
  {
    var v := SiteValue(site);
    if v < |CostSiteString| then Some(CostSiteString[v]) else None
  }

  /** The lookup as the table intends it: by declaration order. */
  function GetCostSiteString(site: CostSite): (r: string)
    ensures |r| == 1
    ensures site == CPU ==> r == "C"
    ensures site == PIM ==> r == "P"
    ensures site == Invalid ==> r == "I"
  {
    match site
    case CPU => "C"
    case PIM => "P"
    case MaxCostSite => "M"
    case NotPIM => "N"
    case All => "A"
    case Default => "D"
    case Invalid => "I"
  }

  /** Distinct sites get distinct letters, so the letter identifies the site. */
  lemma CostSiteStringInjective(a: CostSite, b: CostSite)
    requires GetCostSiteString(a) == GetCostSiteString(b)
    ensures a == b
  {
  }

  /** The two lookups agree wherever the as-written one stays in bounds, and it fails exactly for DEFAULT and INVALID. */
  lemma CostSiteStringAtOutOfBounds(site: CostSite)
    ensures CostSiteStringAt(site).None? <==> site == Default || site == Invalid
    ensures CostSiteStringAt(site).Some? ==> CostSiteStringAt(site).value == GetCostSiteString(site)
  {
  }

  datatype Option<T> = None | Some(value: T)

  // The control word: |  isomp  |  optype  |, bit 64 .. 32 .. 0.

  function GetControlValue(optype: bv64, isomp: bv64): bv64
  {
    (isomp << 32) | optype
  }

  function GetIsOpenMP(controlvalue: bv64): (r: bv64)
    ensures r < 1 << 32
  {
    controlvalue >> 32
  }

  function GetOpType(controlvalue: bv64): (r: bv64)
    ensures r < 1 << 32
  {
    ((1 as bv64 << 32) - 1) & controlvalue
  }

  /** The op type survives packing whatever the OpenMP flag is. */
  lemma OpTypeRoundTrip(optype: bv64, isomp: bv64)
    requires optype < 0x1_0000_0000
    ensures GetOpType(GetControlValue(optype, isomp)) == optype
  {
  }

  /** The OpenMP flag survives packing when both halves fit in 32 bits. */
  lemma IsOpenMPRoundTrip(optype: bv64, isomp: bv64)
    requires optype < 0x1_0000_0000 && isomp < 0x1_0000_0000
    ensures GetIsOpenMP(GetControlValue(optype, isomp)) == isomp
  {
  }

  /** Unpacking then packing gives back any control word. */
  lemma ControlValueSplit(cv: bv64)
    ensures GetIsOpenMP(cv) < 0x1_0000_0000 && GetOpType(cv) < 0x1_0000_0000
    ensures GetControlValue(GetOpType(cv), GetIsOpenMP(cv)) == cv
  {
  }
}
