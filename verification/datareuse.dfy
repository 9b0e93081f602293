/**
 * Data-reuse bookkeeping: the block-to-block switch counter, reuse
 * segments (a sorted set of block ids with a head and an occurrence
 * count) and the trie that accumulates segments so that equal segments
 * share one leaf.
 *
 * Block ids are `int`. The trie's nodes live in an arena: a node pointer
 * is an index into `nodes`, and a node is always allocated after its
 * parent, so a parent index is smaller than its children's.
 */
module DataReuse {
  import opened Common

  // ---------------------------------------------------------------------
  // Sorted sequences (the ordered std::set / std::map key order)
  // ---------------------------------------------------------------------

  predicate StrictlySorted(s: seq<int>)
  {
    forall i, j | 0 <= i < j < |s| :: s[i] < s[j]
  }

  function Elems(s: seq<int>): set<int>
  {
    set x | x in s
  }

  /** Inserts x into a strictly increasing sequence, unless it is already there. */
  function InsertSorted(s: seq<int>, x: int): (r: seq<int>)
    requires StrictlySorted(s)
    ensures StrictlySorted(r)
    ensures forall y :: y in r <==> y in s || y == x
    ensures Elems(r) == Elems(s) + {x}
    ensures x in s ==> r == s
  {
    if s == [] then [x]
    else if x < s[0] then [x] + s
    else if x == s[0] then s
    else
      var rest := InsertSorted(s[1..], x);
      PrependSorted(s, x, rest);
      var r := [s[0]] + rest;
      MembersElems(r, s, x);
      r
  }

  lemma MembersElems(r: seq<int>, s: seq<int>, x: int)
    requires forall y :: y in r <==> y in s || y == x
    ensures Elems(r) == Elems(s) + {x}
  {
    forall y ensures y in Elems(r) <==> y in Elems(s) + {x} {
      assert y in Elems(r) <==> y in r;
      assert y in Elems(s) <==> y in s;
    }
  }

  /** The head of a sorted sequence stays below the insertion into its tail. */
  lemma PrependSorted(s: seq<int>, x: int, rest: seq<int>)
    requires StrictlySorted(s) && s != [] && s[0] < x
    requires StrictlySorted(rest) && forall y :: y in rest <==> y in s[1..] || y == x
    ensures StrictlySorted([s[0]] + rest)
    ensures forall y :: y in [s[0]] + rest <==> y in s || y == x
    ensures x in s[1..] ==> rest == s[1..] ==> [s[0]] + rest == s
  {
    forall k | 0 <= k < |rest| ensures s[0] < rest[k] {
      assert rest[k] in rest;
    }
    assert s == [s[0]] + s[1..];
  }

  lemma HeadInElems(s: seq<int>)
    requires s != []
    ensures s[0] in Elems(s)
  {
  }

  /** Two strictly increasing sequences with the same elements are equal. */
  lemma {:induction false} SortedUnique(a: seq<int>, b: seq<int>)
    requires StrictlySorted(a) && StrictlySorted(b) && Elems(a) == Elems(b)
    ensures a == b
  {
    if a == [] || b == [] {
      if a != [] {
        HeadInElems(a);
      } else if b != [] {
        HeadInElems(b);
      }
    } else {
      assert a[0] == b[0] by {
        assert a[0] in Elems(b) && b[0] in Elems(a);
      }
      assert Elems(a[1..]) == Elems(a) - {a[0]};
      assert Elems(b[1..]) == Elems(b) - {b[0]};
      SortedUnique(a[1..], b[1..]);
      assert a == [a[0]] + a[1..];
    }
  }

  // ---------------------------------------------------------------------
  // BBLSwitchCount: a dense element <-> index map and a growable matrix
  // ---------------------------------------------------------------------

  function Sum(s: seq<int>): int
  {
    if s == [] then 0 else s[0] + Sum(s[1..])
  }

  function Zeros(n: nat): (r: seq<int>)
    ensures |r| == n && forall k | 0 <= k < n :: r[k] == 0
  {
    if n == 0 then [] else [0] + Zeros(n - 1)
  }

  lemma {:induction false} SumZeros(s: seq<int>, n: nat)
    ensures Sum(s + Zeros(n)) == Sum(s)
  {
    if s == [] {
      assert s + Zeros(n) == Zeros(n);
      if n > 0 {
        assert Zeros(n)[1..] == Zeros(n - 1);
        SumZeros([], n - 1);
        assert [] + Zeros(n - 1) == Zeros(n - 1);
      }
    } else {
      assert (s + Zeros(n))[1..] == s[1..] + Zeros(n);
      SumZeros(s[1..], n);
    }
  }

  lemma {:induction false} SumAddAt(s: seq<int>, j: nat, c: int)
    requires j < |s|
    ensures Sum(s[j := s[j] + c]) == Sum(s) + c
  {
    if j == 0 {
      assert s[j := s[j] + c][1..] == s[1..];
    } else {
      assert s[j := s[j] + c][1..] == s[1..][j - 1 := s[j] + c];
      SumAddAt(s[1..], j - 1, c);
    }
  }

  /** Pads a row with zeros up to length n (resize(n, 0) when it is shorter). */
  function Grow(s: seq<int>, n: nat): (r: seq<int>)
    ensures |r| == if |s| < n then n else |s|
    ensures r[..|s|] == s
    ensures forall k | |s| <= k < |r| :: r[k] == 0
    ensures Sum(r) == Sum(s)
  {
    if |s| < n then SumZeros(s, n - |s|); s + Zeros(n - |s|) else s
  }

  class BBLSwitchCount {
    var elem2idx: map<int, nat>
    var idx2elem: seq<int>
    var totalCount: seq<int>
    var count: seq<seq<int>>

    /**
     * The two directions of the element <-> index map agree, the matrix
     * has at most one row and column per element, and each row total is
     * the sum of that row.
     */
    ghost predicate Valid()
      reads this
    {
      (forall e | e in elem2idx :: elem2idx[e] < |idx2elem| && idx2elem[elem2idx[e]] == e) &&
      (forall i | 0 <= i < |idx2elem| :: idx2elem[i] in elem2idx && elem2idx[idx2elem[i]] == i) &&
      |totalCount| == |count| <= |idx2elem| &&
      (forall i | 0 <= i < |count| :: |count[i]| <= |idx2elem| && totalCount[i] == Sum(count[i]))
    }

    /** The count from index i to index j; cells outside the stored matrix read as 0. */
    function Cell(i: nat, j: nat): int
      reads this
    {
      CellOf(count, i, j)
    }

    /** The row total of index i; rows not stored yet read as 0. */
    function Total(i: nat): int
      reads this
    {
      TotalOf(totalCount, i)
    }

    constructor ()
      ensures Valid() && elem2idx == map[] && idx2elem == [] && count == [] && totalCount == []
    {
      elem2idx, idx2elem, totalCount, count := map[], [], [], [];
    }

    /** Gives e the next free index, unless it already has one. */
    method CreateElem(e: int)
      requires Valid()
      modifies this
      ensures Valid()
      ensures e in old(elem2idx) ==> elem2idx == old(elem2idx) && idx2elem == old(idx2elem)
      ensures e !in old(elem2idx) ==>
        idx2elem == old(idx2elem) + [e] && elem2idx == old(elem2idx)[e := |old(idx2elem)|]
      ensures elem2idx.Keys == old(elem2idx.Keys) + {e}
      ensures count == old(count) && totalCount == old(totalCount)
    {
      if e !in elem2idx {
        idx2elem := idx2elem + [e];
        elem2idx := elem2idx[e := |idx2elem| - 1];
      }
    }

    /** The index of a created element (asserted present). */
    function GetIdx(e: int): (r: nat)
      reads this
      requires Valid() && e in elem2idx
      ensures r < |idx2elem| && idx2elem[r] == e
    {
      elem2idx[e]
    }

    /** The element at a valid index (asserted in range). */
    function GetElem(idx: nat): (r: int)
      reads this
      requires Valid() && idx < |idx2elem|
      ensures r in elem2idx && elem2idx[r] == idx
    {
      idx2elem[idx]
    }

    /** Adds c to the count from `from` to `to` and to the row total of `from`. */
    method Insert(from: int, to: int, c: int)
      requires Valid()
      modifies this
      ensures Valid()
      ensures from in elem2idx && to in elem2idx
      ensures elem2idx.Keys == old(elem2idx.Keys) + {from, to}
      ensures forall e | e in old(elem2idx) :: elem2idx[e] == old(elem2idx)[e]
      ensures forall i: nat, j: nat ::
        Cell(i, j) == old(Cell(i, j)) + (if i == elem2idx[from] && j == elem2idx[to] then c else 0)
      ensures forall i: nat :: Total(i) == old(Total(i)) + (if i == elem2idx[from] then c else 0)
    {
      CreateElem(from);
      CreateElem(to);
      var fromidx := GetIdx(from);
      var toidx := GetIdx(to);
      Bump(fromidx, toidx, c);
    }

    /** `_count[fromidx][toidx] += c` and `_total_count[fromidx] += c`, growing both as needed. */
    method Bump(fromidx: nat, toidx: nat, c: int)
      requires Valid() && fromidx < |idx2elem| && toidx < |idx2elem|
      modifies this
      ensures Valid() && elem2idx == old(elem2idx) && idx2elem == old(idx2elem)
      ensures forall i: nat, j: nat ::
        Cell(i, j) == old(Cell(i, j)) + (if i == fromidx && j == toidx then c else 0)
      ensures forall i: nat :: Total(i) == old(Total(i)) + (if i == fromidx then c else 0)
    {
      ghost var m0, t0 := count, totalCount;
      count := BumpCell(count, fromidx, toidx, c);
      totalCount := BumpTotal(totalCount, fromidx, c);
      BumpKeepsRows(m0, t0, count, totalCount, fromidx, toidx, c, |idx2elem|);
    }
  }

  /** After BumpCell and BumpTotal, rows stay within n columns and each total is its row's sum. */
  lemma BumpKeepsRows(m0: seq<seq<int>>, t0: seq<int>, m: seq<seq<int>>, t: seq<int>, i: nat, j: nat, c: int, n: nat)
    requires |t0| == |m0| && i < n && j < n
    requires forall k | 0 <= k < |m0| :: |m0[k]| <= n && t0[k] == Sum(m0[k])
    requires m == BumpCell(m0, i, j, c) && t == BumpTotal(t0, i, c)
    ensures |t| == |m| && forall k | 0 <= k < |m| :: |m[k]| <= n && t[k] == Sum(m[k])
  {
  }

  /** Cell (i, j) of a count matrix; cells outside it read as 0. */
  function CellOf(m: seq<seq<int>>, i: nat, j: nat): int
  {
    if i < |m| && j < |m[i]| then m[i][j] else 0
  }

  /** Entry i of a total vector; entries beyond it read as 0. */
  function TotalOf(t: seq<int>, i: nat): int
  {
    if i < |t| then t[i] else 0
  }

  /**
   * _count[i][j] += c after growing the matrix to i + 1 rows and row i to
   * j + 1 columns: exactly cell (i, j) changes, by c, and row sums follow.
   */
  function BumpCell(m: seq<seq<int>>, i: nat, j: nat, c: int): (r: seq<seq<int>>)
    ensures |r| == if |m| <= i then i + 1 else |m|
    ensures forall k | 0 <= k < |r| ::
      |r[k]| <= (if k < |m| then |m[k]| else 0) + (if k == i then j + 1 else 0)
    ensures forall k | 0 <= k < |r| ::
      Sum(r[k]) == (if k < |m| then Sum(m[k]) else 0) + (if k == i then c else 0)
    ensures forall a: nat, b: nat :: CellOf(r, a, b) == CellOf(m, a, b) + (if a == i && b == j then c else 0)
  {
    var rows := if |m| <= i then m + seq(i + 1 - |m|, _ => []) else m;
    assert forall k | |m| <= k < |rows| :: rows[k] == [];
    var row := Grow(rows[i], j + 1);
    SumAddAt(row, j, c);
    var r := rows[i := row[j := row[j] + c]];
    forall a: nat, b: nat ensures CellOf(r, a, b) == CellOf(m, a, b) + (if a == i && b == j then c else 0) {
      if a == i && b < |rows[i]| {
        assert row[..|rows[i]|] == rows[i];
        assert row[b] == rows[i][b];
      }
    }
    r
  }

  /** _total_count[i] += c after growing the vector to i + 1 entries. */
  function BumpTotal(t: seq<int>, i: nat, c: int): (r: seq<int>)
    ensures |r| == if |t| <= i then i + 1 else |t|
    ensures forall k | 0 <= k < |r| :: r[k] == (if k < |t| then t[k] else 0) + (if k == i then c else 0)
    ensures forall a: nat :: TotalOf(r, a) == TotalOf(t, a) + (if a == i then c else 0)
  {
    var g := Grow(t, i + 1);
    assert forall k | 0 <= k < |t| :: g[k] == t[k] by {
      forall k | 0 <= k < |t| ensures g[k] == t[k] {
        assert g[..|t|][k] == t[k];
      }
    }
    g[i := g[i] + c]
  }

  /** createElem is idempotent: a second call with the same element changes nothing. */
  method CreateElemIdempotent(s: BBLSwitchCount, e: int)
    requires s.Valid()
    modifies s
    ensures s.Valid() && e in s.elem2idx
    ensures s.idx2elem == old(s.idx2elem) + (if e in old(s.elem2idx) then [] else [e])
  {
    s.CreateElem(e);
    ghost var once := s.idx2elem;
    s.CreateElem(e);
    assert s.idx2elem == once;
  }

  /** getElem(getIdx(e)) == e and getIdx(getElem(i)) == i. */
  lemma IndexRoundTrip(s: BBLSwitchCount, e: int, i: nat)
    requires s.Valid()
    ensures e in s.elem2idx ==> s.GetElem(s.GetIdx(e)) == e
    ensures i < |s.idx2elem| ==> s.GetIdx(s.GetElem(i)) == i
  {
  }

  // ---------------------------------------------------------------------
  // DataReuseSegment
  // ---------------------------------------------------------------------

  /**
   * A reuse segment. `head` is None until the first insertion into an
   * empty set sets it (the constructor leaves it uninitialised); `elems`
   * is the std::set, kept strictly increasing.
   */
  datatype Segment = Segment(head: Option<int>, elems: seq<int>, count: nat)

  predicate SegValid(seg: Segment)
  {
    StrictlySorted(seg.elems)
  }

  /** A new segment: empty set, count 1. */
  function NewSegment(): (r: Segment)
    ensures SegValid(r) && r.elems == [] && r.count == 1
  {
    Segment(None, [], 1)
  }

  /** Inserts elem; the head is set only when the set was empty. */
  function SegInsert(seg: Segment, elem: int): (r: Segment)
    requires SegValid(seg)
    ensures SegValid(r)
    ensures Elems(r.elems) == Elems(seg.elems) + {elem}
    ensures r.head == if seg.elems == [] then Some(elem) else seg.head
    ensures r.count == seg.count
  {
    Segment(if seg.elems == [] then Some(elem) else seg.head, InsertSorted(seg.elems, elem), seg.count)
  }

  /** Inserts every element of other; head and count are untouched. */
  function SegUnion(seg: Segment, other: seq<int>): (r: Segment)
    requires SegValid(seg)
    ensures SegValid(r)
    ensures Elems(r.elems) == Elems(seg.elems) + Elems(other)
    ensures r.head == seg.head && r.count == seg.count
    decreases |other|
  {
    if other == [] then seg
    else
      var r := SegUnion(seg.(elems := InsertSorted(seg.elems, other[0])), other[1..]);
      assert Elems(other) == {other[0]} + Elems(other[1..]);
      r
  }

  /** The elements of this set that are not in the other one, in ascending order. */
  function SegDiff(seg: Segment, other: Segment): (r: seq<int>)
    requires SegValid(seg)
    ensures StrictlySorted(r)
    ensures forall x :: x in r <==> x in seg.elems && x !in other.elems
    decreases |seg.elems|
  {
    if seg.elems == [] then []
    else
      var rest := SegDiff(seg.(elems := seg.elems[1..]), other);
      if seg.elems[0] in other.elems then rest
      else
        SortedHeadBelow(seg.elems, rest);
        [seg.elems[0]] + rest
  }

  lemma SortedHeadBelow(s: seq<int>, rest: seq<int>)
    requires StrictlySorted(s) && s != [] && forall x | x in rest :: x in s[1..]
    ensures forall k | 0 <= k < |rest| :: s[0] < rest[k]
  {
    forall k | 0 <= k < |rest| ensures s[0] < rest[k] {
      assert rest[k] in rest;
    }
  }

  /** Empties the set and resets the count to 1; the head is kept. */
  function SegClear(seg: Segment): (r: Segment)
    ensures SegValid(r) && r.elems == [] && r.count == 1 && r.head == seg.head
  {
    seg.(elems := [], count := 1)
  }

  // ---------------------------------------------------------------------
  // The reuse trie
  // ---------------------------------------------------------------------

  /** One entry of a node's child map: key and the child's arena index. */
  datatype Child = Child(key: int, node: nat)

  /**
   * A trie node. `cur` is the key it hangs under (unused for a root);
   * `parent` is None for a root; `children` is sorted by key.
   */
  datatype TrieNode = TrieNode(isLeaf: bool, children: seq<Child>, cur: int, parent: Option<nat>, count: nat)

  const EmptyNode: TrieNode := TrieNode(false, [], 0, None, 0)

  predicate KeysSorted(ch: seq<Child>)
  {
    forall i, j | 0 <= i < j < |ch| :: ch[i].key < ch[j].key
  }

  /** The child stored under key, if any. */
  function Lookup(ch: seq<Child>, key: int): (r: Option<nat>)
    ensures r.Some? ==> Child(key, r.value) in ch
    ensures r.None? ==> forall c | c in ch :: c.key != key
  {
    if ch == [] then None
    else if ch[0].key == key then Some(ch[0].node)
    else Lookup(ch[1..], key)
  }

  /** Adds a child under a key that is not present yet, keeping key order. */
  function InsertChild(ch: seq<Child>, c: Child): (r: seq<Child>)
    requires KeysSorted(ch) && forall d | d in ch :: d.key != c.key
    ensures KeysSorted(r)
    ensures forall d :: d in r <==> d in ch || d == c
  {
    if ch == [] then [c]
    else if c.key < ch[0].key then [c] + ch
    else
      var rest := InsertChild(ch[1..], c);
      assert forall k | 0 <= k < |rest| :: ch[0].key < rest[k].key by {
        forall k | 0 <= k < |rest| ensures ch[0].key < rest[k].key {
          assert rest[k] in rest;
        }
      }
      [ch[0]] + rest
  }

  /** Node i is consistent: its parent comes first, and every child points back at it with its key. */
  ghost predicate NodeOk(nodes: seq<TrieNode>, i: nat)
    requires i < |nodes|
  {
    var n := nodes[i];
    (n.parent.Some? ==> n.parent.value < i) &&
    KeysSorted(n.children) &&
    forall c | c in n.children ::
      i < c.node < |nodes| && nodes[c.node].parent == Some(i) && nodes[c.node].cur == c.key
  }

  ghost predicate WellFormed(nodes: seq<TrieNode>)
  {
    forall i | 0 <= i < |nodes| :: NodeOk(nodes, i)
  }

  /** The keys on the path from node i up to (not including) its root. */
  ghost function PathSet(nodes: seq<TrieNode>, i: nat): set<int>
    requires WellFormed(nodes) && i < |nodes|
    decreases i
  {
    assert NodeOk(nodes, i);
    if nodes[i].parent.None? then {} else {nodes[i].cur} + PathSet(nodes, nodes[i].parent.value)
  }

  /** The new arena keeps every old node's position in the tree, and a leaf stays a leaf. */
  ghost predicate Grows(before: seq<TrieNode>, after: seq<TrieNode>)
  {
    |before| <= |after| &&
    forall i | 0 <= i < |before| ::
      after[i].parent == before[i].parent && after[i].cur == before[i].cur &&
      (before[i].isLeaf ==> after[i].isLeaf)
  }

  lemma {:induction false} GrowsKeepsPath(before: seq<TrieNode>, after: seq<TrieNode>, i: nat)
    requires WellFormed(before) && WellFormed(after) && Grows(before, after) && i < |before|
    ensures PathSet(after, i) == PathSet(before, i)
    decreases i
  {
    assert NodeOk(before, i);
    if before[i].parent.Some? {
      GrowsKeepsPath(before, after, before[i].parent.value);
    }
  }

  /** Every child link of the old arena is still present in the new one. */
  ghost predicate ChildrenKept(before: seq<TrieNode>, after: seq<TrieNode>)
  {
    |before| <= |after| &&
    forall i, c | 0 <= i < |before| && c in before[i].children :: c in after[i].children
  }

  /**
   * The node reached from n by following the keys one child link at a
   * time, or None when some link is missing; this is what the loop of
   * UpdateTrie finds before it creates anything.
   */
  ghost function Walk(nodes: seq<TrieNode>, n: nat, keys: seq<int>): (r: Option<nat>)
    requires WellFormed(nodes) && n < |nodes|
    ensures r.Some? ==> r.value < |nodes|
    decreases |keys|
  {
    if keys == [] then Some(n)
    else
      match Walk(nodes, n, keys[..|keys| - 1])
      case None => None
      case Some(p) =>
        var r := Lookup(nodes[p].children, keys[|keys| - 1]);
        assert NodeOk(nodes, p);
        r
  }

  /** Walk extends by one key through the child map of the node it reached. */
  lemma WalkSnoc(nodes: seq<TrieNode>, n: nat, keys: seq<int>, k: int)
    requires WellFormed(nodes) && n < |nodes|
    ensures Walk(nodes, n, keys + [k]) ==
      match Walk(nodes, n, keys)
      case None => None
      case Some(p) => Lookup(nodes[p].children, k)
  {
    assert (keys + [k])[..|keys|] == keys;
  }

  /** A walk that succeeds keeps reaching the same node once links are only added. */
  lemma {:induction false} WalkKept(before: seq<TrieNode>, after: seq<TrieNode>, n: nat, keys: seq<int>)
    requires WellFormed(before) && WellFormed(after) && ChildrenKept(before, after) && n < |before|
    requires Walk(before, n, keys).Some?
    ensures Walk(after, n, keys) == Walk(before, n, keys)
    decreases |keys|
  {
    if keys != [] {
      var init := keys[..|keys| - 1];
      WalkKept(before, after, n, init);
      var p := Walk(before, n, init).value;
      var c := Lookup(before[p].children, keys[|keys| - 1]).value;
      assert NodeOk(after, p);
      LookupFinds(after[p].children, Child(keys[|keys| - 1], c));
    }
  }

  /**
   * Walking keys from root in `now` ends at c; the walk in `orig` ends at c
   * too when c already existed there, and fails when c is new.
   */
  ghost predicate Reached(orig: seq<TrieNode>, now: seq<TrieNode>, root: nat, keys: seq<int>, c: nat)
    requires WellFormed(orig) && WellFormed(now) && root < |orig| <= |now|
  {
    ChildrenKept(orig, now) && Walk(now, root, keys) == Some(c) &&
    (Walk(orig, root, keys).Some? <==> c < |orig|) &&
    (Walk(orig, root, keys).Some? ==> Walk(orig, root, keys) == Some(c))
  }

  /**
   * One step of the path loop seen through Walk: if the step from c under
   * k reused an existing child, the old arena's walk reached it too; if it
   * created one, the old arena's walk stops short.
   */
  lemma WalkStep(orig: seq<TrieNode>, before: seq<TrieNode>, after: seq<TrieNode>, root: nat, keys: seq<int>, k: int, c: nat, next: nat)
    requires WellFormed(orig) && WellFormed(before) && WellFormed(after) && root < |orig| && c < |before|
    requires ChildrenKept(orig, before) && ChildrenKept(before, after) && |before| <= |after|
    requires Reached(orig, before, root, keys, c) && Lookup(after[c].children, k) == Some(next)
    requires c < |orig| ==> before == orig
    requires c >= |orig| ==> before[c].children == []
    requires Lookup(before[c].children, k).Some? ==> next == Lookup(before[c].children, k).value && after == before
    requires Lookup(before[c].children, k).None? ==> next == |before|
    ensures Reached(orig, after, root, keys + [k], next)
  {
    WalkKept(before, after, root, keys);
    WalkSnoc(after, root, keys, k);
    WalkSnoc(orig, root, keys, k);
  }

  /** Allocates a child of p under key and links it in. */
  function AddChild(nodes: seq<TrieNode>, p: nat, key: int): (r: seq<TrieNode>)
    requires WellFormed(nodes) && p < |nodes| && Lookup(nodes[p].children, key).None?
    ensures WellFormed(r) && Grows(nodes, r) && |r| == |nodes| + 1
    ensures r[|nodes|] == TrieNode(false, [], key, Some(p), 0)
    ensures Lookup(r[p].children, key) == Some(|nodes|)
    ensures forall i | 0 <= i < |nodes| :: r[i].count == nodes[i].count && r[i].isLeaf == nodes[i].isLeaf
    ensures ChildrenKept(nodes, r)
  {
    var n := |nodes|;
    assert NodeOk(nodes, p);
    var ch := InsertChild(nodes[p].children, Child(key, n));
    var r := nodes[p := nodes[p].(children := ch)] + [TrieNode(false, [], key, Some(p), 0)];
    AddChildWellFormed(nodes, p, key, ch, r);
    LookupFinds(ch, Child(key, n));
    r
  }

  /** Linking a fresh node under p keeps every node's parent and key facts. */
  lemma AddChildWellFormed(nodes: seq<TrieNode>, p: nat, key: int, ch: seq<Child>, r: seq<TrieNode>)
    requires WellFormed(nodes) && p < |nodes| && KeysSorted(ch)
    requires forall d :: d in ch <==> d in nodes[p].children || d == Child(key, |nodes|)
    requires r == nodes[p := nodes[p].(children := ch)] + [TrieNode(false, [], key, Some(p), 0)]
    ensures WellFormed(r) && ChildrenKept(nodes, r)
  {
    var n := |nodes|;
    forall i | 0 <= i < |r| ensures NodeOk(r, i) {
      if i < n {
        assert NodeOk(nodes, i);
        forall c | c in r[i].children ensures i < c.node < |r| && r[c.node].parent == Some(i) && r[c.node].cur == c.key {
          if c != Child(key, n) {
            assert c in nodes[i].children;
          }
        }
      }
    }
  }

  lemma {:induction false} LookupFinds(ch: seq<Child>, c: Child)
    requires KeysSorted(ch) && c in ch
    ensures Lookup(ch, c.key) == Some(c.node)
  {
    if ch[0] != c {
      assert ch[0].key != c.key by {
        var k :| 0 <= k < |ch| && ch[k] == c;
        assert k > 0;
      }
      LookupFinds(ch[1..], c);
    }
  }

  /** Sets the leaf flag of node i and adds cnt to its count; the tree shape is untouched. */
  function MarkLeaf(nodes: seq<TrieNode>, i: nat, cnt: nat): (r: seq<TrieNode>)
    requires WellFormed(nodes) && i < |nodes|
    ensures WellFormed(r) && Grows(nodes, r) && |r| == |nodes|
    ensures r[i].isLeaf && r[i].cur == nodes[i].cur && r[i].count == nodes[i].count + cnt
    ensures forall j | 0 <= j < |nodes| && j != i :: r[j] == nodes[j]
    ensures ChildrenKept(nodes, r)
  {
    var r := nodes[i := nodes[i].(isLeaf := true, count := nodes[i].count + cnt)];
    forall j | 0 <= j < |r| ensures NodeOk(r, j) {
      assert NodeOk(nodes, j);
    }
    r
  }

  /** The path set of a fresh child is its parent's plus its key. */
  lemma ChildPath(nodes: seq<TrieNode>, p: nat, c: nat)
    requires WellFormed(nodes) && p < |nodes| && c < |nodes| && Child(nodes[c].cur, c) in nodes[p].children
    ensures PathSet(nodes, c) == {nodes[c].cur} + PathSet(nodes, p)
  {
    assert NodeOk(nodes, p);
  }

  /** A segment as kept in a tag map: sorted, and with a head once it has elements. */
  predicate SegOk(seg: Segment)
  {
    SegValid(seg) && (seg.elems != [] ==> seg.head.Some?)
  }

  /** The segment of a tag, or a fresh one when the tag has none (the map's operator[] and the find-or-create pattern). */
  function SegmentOf(m: map<nat, Segment>, tag: nat): (r: Segment)
    ensures (tag in m ==> SegOk(m[tag])) ==> SegOk(r)
    ensures tag !in m ==> r.elems == [] && r.head.None? && r.count == 1
  {
    if tag in m then m[tag] else NewSegment()
  }

  /** The trie holds a leaf for the segment with these elements and this head. */
  ghost predicate TrieHolds(nodes: seq<TrieNode>, elems: set<int>, head: int)
  {
    WellFormed(nodes) &&
    exists leaf | 0 <= leaf < |nodes| ::
      nodes[leaf].isLeaf && nodes[leaf].cur == head && PathSet(nodes, leaf) == elems + {head}
  }

  /** A leaf the trie holds stays held while the trie only grows. */
  lemma TrieHoldsKept(before: seq<TrieNode>, after: seq<TrieNode>, elems: set<int>, head: int)
    requires TrieHolds(before, elems, head) && WellFormed(after) && Grows(before, after)
    ensures TrieHolds(after, elems, head)
  {
    var leaf :| 0 <= leaf < |before| && before[leaf].isLeaf && before[leaf].cur == head &&
      PathSet(before, leaf) == elems + {head};
    GrowsKeepsPath(before, after, leaf);
  }

  class DataReuse {
    var nodes: seq<TrieNode>
    var leaves: seq<nat>

    /** Node 0 is the root of the main trie; every recorded leaf is a leaf node. */
    ghost predicate Valid()
      reads this
    {
      WellFormed(nodes) && |nodes| > 0 && nodes[0].parent.None? &&
      forall k | 0 <= k < |leaves| :: leaves[k] < |nodes| && nodes[leaves[k]].isLeaf
    }

    constructor ()
      ensures Valid() && nodes == [EmptyNode] && leaves == []
    {
      nodes := [EmptyNode];
      leaves := [];
    }

    /**
     * Inserts the sorted set of seg as a path below root and hangs a leaf
     * keyed by the head under its last node; the leaf accumulates the
     * segment's count. Segments of size 0 or 1 are ignored. `leaf` is the
     * node that received the count (the source does not return it).
     */
    method UpdateTrie(root: nat, seg: Segment) returns (leaf: nat)
      requires Valid() && root < |nodes| && SegValid(seg)
      requires |seg.elems| > 1 ==> seg.head.Some?
      modifies this
      ensures Valid() && Grows(old(nodes), nodes)
      ensures |seg.elems| <= 1 ==> nodes == old(nodes) && leaves == old(leaves)
      ensures |seg.elems| > 1 ==>
        leaf < |nodes| && nodes[leaf].isLeaf && Some(nodes[leaf].cur) == seg.head &&
        nodes[leaf].count == (if leaf < |old(nodes)| then old(nodes[leaf].count) else 0) + seg.count &&
        leaves == old(leaves) + (if leaf < |old(nodes)| then [] else [leaf]) &&
        PathSet(nodes, leaf) == Elems(seg.elems) + {seg.head.value} + PathSet(old(nodes), root) &&
        forall i | 0 <= i < |old(nodes)| && i != leaf :: nodes[i].count == old(nodes[i].count)
      ensures |seg.elems| > 1 ==>
        ChildrenKept(old(nodes), nodes) && Walk(nodes, root, seg.elems + [seg.head.value]) == Some(leaf)
      ensures |seg.elems| > 1 ==>
        (Walk(old(nodes), root, seg.elems + [seg.head.value]).Some? <==> leaf < |old(nodes)|)
      ensures |seg.elems| > 1 && Walk(old(nodes), root, seg.elems + [seg.head.value]).Some? ==>
        leaf == Walk(old(nodes), root, seg.elems + [seg.head.value]).value && leaves == old(leaves)
    {
      leaf := 0;
      if |seg.elems| <= 1 {
        return;
      }
      var curNode := InsertPath(root, seg.elems);
      ghost var path := nodes;
      leaf := HangLeaf(curNode, seg.head.value, seg.count);
      WalkKept(path, nodes, root, seg.elems);
      WalkSnoc(nodes, root, seg.elems, seg.head.value);
      WalkSnoc(old(nodes), root, seg.elems, seg.head.value);
    }

    /** The loop of UpdateTrie: walks down from root along elems, creating missing children. */
    method InsertPath(root: nat, elems: seq<int>) returns (curNode: nat)
      requires Valid() && root < |nodes|
      modifies this
      ensures Valid() && Grows(old(nodes), nodes) && leaves == old(leaves) && curNode < |nodes|
      ensures forall j | 0 <= j < |old(nodes)| :: nodes[j].count == old(nodes[j].count)
      ensures forall j | |old(nodes)| <= j < |nodes| :: nodes[j].count == 0
      ensures PathSet(nodes, curNode) == Elems(elems) + PathSet(old(nodes), root)
      ensures curNode < |old(nodes)| ==> nodes == old(nodes)
      ensures curNode >= |old(nodes)| ==> nodes[curNode].children == []
      ensures ChildrenKept(old(nodes), nodes) && Walk(nodes, root, elems) == Some(curNode)
      ensures Walk(old(nodes), root, elems).Some? <==> curNode < |old(nodes)|
      ensures Walk(old(nodes), root, elems).Some? ==> Walk(old(nodes), root, elems) == Some(curNode)
    {
      curNode := root;
      var i := 0;
      while i < |elems|
        invariant 0 <= i <= |elems| && curNode < |nodes|
        invariant Valid() && Grows(old(nodes), nodes) && leaves == old(leaves)
        invariant forall j | 0 <= j < |old(nodes)| :: nodes[j].count == old(nodes[j].count)
        invariant PathSet(nodes, curNode) == Elems(elems[..i]) + PathSet(old(nodes), root)
        invariant curNode < |old(nodes)| ==> nodes == old(nodes)
        invariant curNode >= |old(nodes)| ==> nodes[curNode].children == []
        invariant forall j | |old(nodes)| <= j < |nodes| :: nodes[j].count == 0
        invariant Reached(old(nodes), nodes, root, elems[..i], curNode)
      {
        ghost var before := nodes;
        ghost var prev := curNode;
        GrowsKeepsPath(old(nodes), before, root);
        curNode := Descend(curNode, elems[i]);
        GrowsKeepsPath(old(nodes), nodes, root);
        WalkStep(old(nodes), before, nodes, root, elems[..i], elems[i], prev, curNode);
        assert elems[..i + 1] == elems[..i] + [elems[i]];
        i := i + 1;
      }
      assert elems[..i] == elems;
    }

    /** One step of that loop: the child of curNode keyed by cur, created when missing. */
    method Descend(curNode: nat, cur: int) returns (next: nat)
      requires Valid() && curNode < |nodes|
      modifies this
      ensures Valid() && Grows(old(nodes), nodes) && leaves == old(leaves) && next < |nodes|
      ensures forall j | 0 <= j < |old(nodes)| :: nodes[j].count == old(nodes[j].count)
      ensures forall j | |old(nodes)| <= j < |nodes| :: nodes[j].count == 0
      ensures PathSet(nodes, next) == {cur} + PathSet(old(nodes), curNode)
      ensures next < |old(nodes)| ==> nodes == old(nodes)
      ensures next >= |old(nodes)| ==> nodes[next].children == []
      ensures old(nodes[curNode].children) == [] ==> next >= |old(nodes)|
      ensures ChildrenKept(old(nodes), nodes) && Lookup(nodes[curNode].children, cur) == Some(next)
      ensures Lookup(old(nodes[curNode].children), cur).Some? ==>
        next == Lookup(old(nodes[curNode].children), cur).value && nodes == old(nodes)
      ensures Lookup(old(nodes[curNode].children), cur).None? ==> next == |old(nodes)|
    {
      var temp := Lookup(nodes[curNode].children, cur);
      ghost var before := nodes;
      if temp.None? {
        nodes := AddChild(nodes, curNode, cur);
        GrowsKeepsPath(before, nodes, curNode);
        temp := Some(|nodes| - 1);
      }
      assert NodeOk(nodes, curNode);
      ChildPath(nodes, curNode, temp.value);
      next := temp.value;
    }

    /**
     * The tail of UpdateTrie: finds or creates the child of curNode keyed
     * by head (a new one is appended to the leaves), marks it as a leaf
     * and adds cnt to its count.
     */
    method HangLeaf(curNode: nat, head: int, cnt: nat) returns (leaf: nat)
      requires Valid() && curNode < |nodes|
      modifies this
      ensures Valid() && Grows(old(nodes), nodes)
      ensures leaf < |nodes| && nodes[leaf].isLeaf && nodes[leaf].cur == head
      ensures nodes[leaf].count == (if leaf < |old(nodes)| then old(nodes[leaf].count) else 0) + cnt
      ensures leaves == old(leaves) + (if leaf < |old(nodes)| then [] else [leaf])
      ensures old(nodes[curNode].children) == [] ==> leaf >= |old(nodes)|
      ensures PathSet(nodes, leaf) == {head} + PathSet(old(nodes), curNode)
      ensures forall i | 0 <= i < |old(nodes)| && i != leaf :: nodes[i].count == old(nodes[i].count)
      ensures ChildrenKept(old(nodes), nodes) && Lookup(nodes[curNode].children, head) == Some(leaf)
      ensures Lookup(old(nodes[curNode].children), head).Some? ==>
        leaf == Lookup(old(nodes[curNode].children), head).value && leaves == old(leaves)
      ensures Lookup(old(nodes[curNode].children), head).None? ==> leaf == |old(nodes)|
    {
      var temp := Lookup(nodes[curNode].children, head);
      assert temp.Some? ==> temp.value < |nodes| by {
        if temp.Some? {
          assert NodeOk(nodes, curNode);
          assert Child(head, temp.value) in nodes[curNode].children;
        }
      }
      if temp.None? {
        nodes := AddChild(nodes, curNode, head);
        GrowsKeepsPath(old(nodes), nodes, curNode);
        temp := Some(|nodes| - 1);
        leaves := leaves + [|nodes| - 1];
      }
      assert NodeOk(nodes, curNode);
      ChildPath(nodes, curNode, temp.value);
      leaf := temp.value;
      ghost var linked := nodes;
      nodes := MarkLeaf(nodes, leaf, cnt);
      GrowsKeepsPath(linked, nodes, leaf);
      GrowsKeepsPath(old(nodes), nodes, curNode);
    }

    /**
     * Reads a segment back from a leaf: the head and count come from the
     * leaf, and every key from the leaf up to (not including) its root is
     * inserted into seg.
     */
    method ExportSegment(seg: Segment, leaf: nat) returns (out: Segment)
      requires Valid() && SegValid(seg) && leaf < |nodes| && nodes[leaf].isLeaf
      ensures SegValid(out)
      ensures out.head == Some(nodes[leaf].cur) && out.count == nodes[leaf].count
      ensures Elems(out.elems) == Elems(seg.elems) + PathSet(nodes, leaf)
    {
      out := seg.(head := Some(nodes[leaf].cur), count := nodes[leaf].count);
      var temp: nat := leaf;
      assert NodeOk(nodes, leaf);
      while nodes[temp].parent.Some?
        invariant temp < |nodes| && SegValid(out)
        invariant out.head == Some(nodes[leaf].cur) && out.count == nodes[leaf].count
        invariant temp != leaf ==> out.elems != []
        invariant Elems(out.elems) + PathSet(nodes, temp) == Elems(seg.elems) + PathSet(nodes, leaf)
        decreases temp
      {
        assert NodeOk(nodes, temp);
        out := SegInsert(out, nodes[temp].cur);
        temp := nodes[temp].parent.value;
      }
    }

    /** Orders the recorded leaves by count, largest first. */
    method SortLeaves()
      requires Valid()
      modifies this
      ensures Valid() && nodes == old(nodes)
      ensures multiset(leaves) == multiset(old(leaves))
      ensures forall i, j | 0 <= i < j < |leaves| :: nodes[leaves[i]].count >= nodes[leaves[j]].count
    {
      var sorted: seq<nat> := [];
      var k := 0;
      while k < |leaves|
        invariant 0 <= k <= |leaves|
        invariant multiset(sorted) == multiset(leaves[..k])
        invariant CountDescending(nodes, sorted)
        invariant forall y | y in sorted :: y < |nodes|
      {
        sorted := InsertByCount(nodes, sorted, leaves[k]);
        assert leaves[..k + 1] == leaves[..k] + [leaves[k]];
        k := k + 1;
      }
      assert leaves[..k] == leaves;
      forall x | x in sorted ensures x < |nodes| && nodes[x].isLeaf {
        assert x in multiset(leaves);
      }
      leaves := sorted;
    }
  }

  /** Leaf a comes no later than leaf b in a list ordered by decreasing count. */
  predicate Outranks(nodes: seq<TrieNode>, a: nat, b: nat)
  {
    a < |nodes| && b < |nodes| && nodes[a].count >= nodes[b].count
  }

  predicate CountDescending(nodes: seq<TrieNode>, s: seq<nat>)
  {
    forall i, j | 0 <= i < j < |s| :: Outranks(nodes, s[i], s[j])
  }

  /** Inserts leaf x into a list ordered by decreasing count. */
  function InsertByCount(nodes: seq<TrieNode>, s: seq<nat>, x: nat): (r: seq<nat>)
    requires CountDescending(nodes, s) && x < |nodes| && forall y | y in s :: y < |nodes|
    ensures CountDescending(nodes, r)
    ensures multiset(r) == multiset(s) + multiset{x}
    ensures forall y | y in r :: y < |nodes|
  {
    if s == [] then [x]
    else if (assert s[0] in s; nodes[s[0]].count <= nodes[x].count) then
      PrependDescending(nodes, x, s);
      [x] + s
    else
      DescendingTail(nodes, s, s[1..]);
      var rest := InsertByCount(nodes, s[1..], x);
      assert s == [s[0]] + s[1..];
      HeadStaysOnTop(nodes, s, x, rest);
      PrependDescending(nodes, s[0], rest);
      [s[0]] + rest
  }

  /** The tail of a descending list is descending and holds only leaves of the list. */
  lemma DescendingTail(nodes: seq<TrieNode>, s: seq<nat>, t: seq<nat>)
    requires CountDescending(nodes, s) && s != [] && forall y | y in s :: y < |nodes|
    requires t == s[1..]
    ensures CountDescending(nodes, t) && forall y | y in t :: y < |nodes|
  {
    forall i, j | 0 <= i < j < |t| ensures Outranks(nodes, t[i], t[j]) {
      assert t[i] == s[i + 1] && t[j] == s[j + 1];
    }
    forall y | y in t ensures y < |nodes| {
      assert y in s;
    }
  }

  /** The head of a descending list outranks both its tail and a newcomer with a smaller count. */
  lemma HeadStaysOnTop(nodes: seq<TrieNode>, s: seq<nat>, x: nat, rest: seq<nat>)
    requires CountDescending(nodes, s) && s != [] && x < |nodes| && s[0] < |nodes|
    requires nodes[s[0]].count > nodes[x].count
    requires multiset(rest) == multiset(s[1..]) + multiset{x} && forall y | y in rest :: y < |nodes|
    ensures forall y | y in rest :: nodes[s[0]].count >= nodes[y].count
  {
    forall y | y in rest ensures nodes[s[0]].count >= nodes[y].count {
      assert y in multiset(rest);
      if y != x {
        assert y in multiset(s[1..]);
        var j :| 0 <= j < |s[1..]| && s[1..][j] == y;
        assert s[j + 1] == y;
      }
    }
  }

  lemma PrependDescending(nodes: seq<TrieNode>, x: nat, s: seq<nat>)
    requires CountDescending(nodes, s) && x < |nodes| && forall y | y in s :: y < |nodes| && nodes[y].count <= nodes[x].count
    ensures CountDescending(nodes, [x] + s)
  {
    var r := [x] + s;
    forall i, j | 0 <= i < j < |r| ensures Outranks(nodes, r[i], r[j]) {
      assert r[j] == s[j - 1] && s[j - 1] in s;
      if i > 0 {
        assert r[i] == s[i - 1];
      }
    }
  }

  /**
   * Round trip: after UpdateTrie on the main root, exporting the leaf it
   * touched into a fresh segment gives back the set and head (when the
   * head is in the set), with the count that leaf has accumulated: its
   * earlier count when the segment's path already existed, plus this one.
   */
  method UpdateThenExport(t: DataReuse, seg: Segment) returns (leaf: nat, out: Segment)
    requires t.Valid() && SegValid(seg) && |seg.elems| > 1
    requires seg.head.Some? && seg.head.value in seg.elems
    modifies t
    ensures t.Valid() && leaf < |t.nodes| && t.nodes[leaf].isLeaf
    ensures Walk(t.nodes, 0, seg.elems + [seg.head.value]) == Some(leaf)
    ensures out.elems == seg.elems && out.head == seg.head
    ensures out.count == t.nodes[leaf].count
    ensures out.count == (if leaf < |old(t.nodes)| then old(t.nodes[leaf].count) else 0) + seg.count
  {
    leaf := t.UpdateTrie(0, seg);
    out := t.ExportSegment(NewSegment(), leaf);
    SortedUnique(out.elems, seg.elems);
  }

  /**
   * Recording the same segment twice lands on one leaf: the second call
   * finds the leaf the first one reached, adds the count again and
   * records nothing new, so the leaf holds twice the segment's count on
   * top of what it held before.
   */
  method UpdateTwice(t: DataReuse, root: nat, seg: Segment) returns (a: nat, b: nat)
    requires t.Valid() && root < |t.nodes| && SegValid(seg) && |seg.elems| > 1 && seg.head.Some?
    modifies t
    ensures t.Valid() && a == b && a < |t.nodes| && t.nodes[a].isLeaf
    ensures t.nodes[a].count == (if a < |old(t.nodes)| then old(t.nodes[a].count) else 0) + 2 * seg.count
    ensures t.leaves == old(t.leaves) + (if a < |old(t.nodes)| then [] else [a])
  {
    a := t.UpdateTrie(root, seg);
    b := t.UpdateTrie(root, seg);
  }
}
