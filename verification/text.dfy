/**
 * The text handling the report readers share: splitting a line into
 * whitespace-separated tokens (`std::stringstream >>` and Python's
 * `str.split()`), substring search (`std::string::find`) and reading
 * decimal and hexadecimal numerals. A field is read from exactly one
 * token.
 */
module Text {
  import opened Common

  /** The ASCII whitespace characters (`isspace` in the C locale). */
  predicate IsSpace(c: char)
  {
    c == ' ' || c == '\t' || c == '\n' || c == '\r' || c == '\U{0B}' || c == '\U{0C}'
  }

  /** A non-empty run of non-space characters. */
  predicate IsWord(w: string)
  {
    w != [] && forall c | c in w :: !IsSpace(c)
  }

  /** The length of the word that starts s. */
  function WordLength(s: string): (n: nat)
    requires s != [] && !IsSpace(s[0])
    ensures 0 < n <= |s| && IsWord(s[..n])
    ensures n == |s| || IsSpace(s[n])
    decreases |s|
  {
    if |s| == 1 || IsSpace(s[1]) then 1
    else
      var n := 1 + WordLength(s[1..]);
      assert s[..n] == [s[0]] + s[1..][..n - 1];
      n
  }

  /** The words of s, left to right, with every run of whitespace as a separator. */
  function Tokens(s: string): (r: seq<string>)
    ensures forall k | 0 <= k < |r| :: IsWord(r[k])
    decreases |s|
  {
    if s == [] then []
    else if IsSpace(s[0]) then Tokens(s[1..])
    else
      var n := WordLength(s);
      [s[..n]] + Tokens(s[n..])
  }

  /** The words joined by single spaces. */
  function Join(ws: seq<string>): string
  {
    if ws == [] then ""
    else if |ws| == 1 then ws[0]
    else ws[0] + " " + Join(ws[1..])
  }

  lemma WordThenRest(w: string, rest: string)
    requires IsWord(w)
    ensures rest == [] || IsSpace(rest[0]) ==> Tokens(w + rest) == [w] + Tokens(rest)
  {
    var s := w + rest;
    if rest == [] || IsSpace(rest[0]) {
      assert s[0] == w[0] && !IsSpace(s[0]);
      WordLengthOf(w, rest);
      assert s[..|w|] == w && s[|w|..] == rest;
    }
  }

  lemma {:induction false} WordLengthOf(w: string, rest: string)
    requires IsWord(w) && (rest == [] || IsSpace(rest[0]))
    ensures WordLength(w + rest) == |w|
    decreases |w|
  {
    var s := w + rest;
    assert s[0] == w[0];
    if |w| == 1 {
      assert |s| == 1 || s[1] == rest[0];
    } else {
      assert s[1] == w[1] && w[1] in w;
      assert s[1..] == w[1..] + rest;
      assert w[1] in w;
      WordLengthOf(w[1..], rest);
    }
  }

  /** Splitting words joined by spaces gives the words back. */
  lemma {:induction false} TokensJoin(ws: seq<string>)
    requires forall k | 0 <= k < |ws| :: IsWord(ws[k])
    ensures Tokens(Join(ws)) == ws
    decreases |ws|
  {
    if ws == [] {
    } else if |ws| == 1 {
      WordThenRest(ws[0], "");
      assert ws[0] + "" == ws[0];
    } else {
      var rest := " " + Join(ws[1..]);
      assert Join(ws) == ws[0] + rest;
      WordThenRest(ws[0], rest);
      assert rest[1..] == Join(ws[1..]);
      TokensJoin(ws[1..]);
    }
  }

  /** pat occurs in s starting at position i. */
  predicate OccursAt(s: string, pat: string, i: int)
  {
    0 <= i <= |s| - |pat| && s[i..i + |pat|] == pat
  }

  /** `line.find(pat) != npos`: pat occurs somewhere in s. */
  function Contains(s: string, pat: string): (r: bool)
    ensures r <==> exists i :: OccursAt(s, pat, i)
    decreases |s|
  {
    if |s| < |pat| then false
    else if s[..|pat|] == pat then assert OccursAt(s, pat, 0); true
    else
      var r := Contains(s[1..], pat);
      ContainsShift(s, pat);
      r
  }

  lemma ContainsShift(s: string, pat: string)
    requires |s| >= |pat| && s[..|pat|] != pat
    ensures (exists i :: OccursAt(s, pat, i)) <==> (exists i :: OccursAt(s[1..], pat, i))
  {
    if exists i :: OccursAt(s, pat, i) {
      var i :| OccursAt(s, pat, i);
      assert i > 0;
      assert OccursAt(s[1..], pat, i - 1);
    }
    if exists i :: OccursAt(s[1..], pat, i) {
      var i :| OccursAt(s[1..], pat, i);
      assert s[i + 1..i + 1 + |pat|] == s[1..][i..i + |pat|];
      assert OccursAt(s, pat, i + 1);
    }
  }

  // ---------------------------------------------------------------------
  // Numerals
  // ---------------------------------------------------------------------

  /** The value of a decimal or hexadecimal digit (either case), or -1. */
  function DigitOf(c: char): (d: int)
    ensures -1 <= d < 16
  {
    if '0' <= c <= '9' then c as int - '0' as int
    else if 'a' <= c <= 'f' then c as int - 'a' as int + 10
    else if 'A' <= c <= 'F' then c as int - 'A' as int + 10
    else -1
  }

  /** A non-empty string of digits of the base. */
  predicate IsNumeral(s: string, base: nat)
  {
    s != [] && forall k | 0 <= k < |s| :: 0 <= DigitOf(s[k]) < base
  }

  /** The value of a numeral, most significant digit first. */
  function NumeralValue(s: string, base: nat): nat
    requires forall k | 0 <= k < |s| :: 0 <= DigitOf(s[k]) < base
  {
    if s == [] then 0
    else NumeralValue(s[..|s| - 1], base) * base + DigitOf(s[|s| - 1])
  }

  /** The lower-case digit of value d. */
  function DigitChar(d: nat): (c: char)
    requires d < 16
    ensures DigitOf(c) == d
  {
    if d < 10 then ('0' as int + d) as char else ('a' as int + d - 10) as char
  }

  /** The shortest numeral of n in the base, lower-case digits. */
  function Show(n: nat, base: nat): (s: string)
    requires base == 10 || base == 16
    ensures IsNumeral(s, base)
    decreases n
  {
    if n < base then [DigitChar(n)]
    else
      var s := Show(n / base, base) + [DigitChar(n % base)];
      assert forall k | 0 <= k < |s| - 1 :: s[k] == Show(n / base, base)[k];
      s
  }

  /** Reading a shown numeral gives the number back. */
  lemma {:induction false} ShowValue(n: nat, base: nat)
    requires base == 10 || base == 16
    ensures NumeralValue(Show(n, base), base) == n
    decreases n
  {
    if n >= base {
      var s := Show(n, base);
      assert s[..|s| - 1] == Show(n / base, base);
      ShowValue(n / base, base);
      if base == 10 {
        assert (n / 10) * 10 + n % 10 == n;
      } else {
        assert (n / 16) * 16 + n % 16 == n;
      }
    }
  }

  /**
   * A decimal integer token (`>>` into a signed field, Python's `int`):
   * an optional sign followed by digits.
   */
  function ParseDec(tok: string): (r: Option<int>)
    ensures r.Some? ==> tok != []
    ensures r.Some? && r.value < 0 ==> tok[0] == '-'
  {
    if tok == [] then None
    else if tok[0] == '-' || tok[0] == '+' then
      var digits := tok[1..];
      if IsNumeral(digits, 10) then
        var v: int := NumeralValue(digits, 10);
        Some(if tok[0] == '-' then -v else v)
      else None
    else if IsNumeral(tok, 10) then Some(NumeralValue(tok, 10))
    else None
  }

  /** A decimal token read into an unsigned field: digits only. */
  function ParseNat(tok: string): (r: Option<nat>)
    ensures r.Some? <==> IsNumeral(tok, 10)
  {
    if IsNumeral(tok, 10) then Some(NumeralValue(tok, 10)) else None
  }

  /**
   * A hexadecimal token read into a `uint64_t` (`>> std::hex`): hex
   * digits, optionally after a `0x` or `0X` prefix, whose value fits in
   * 64 bits.
   */
  function ParseHex64(tok: string): (r: Option<u64>)
    ensures r.Some? ==> tok != []
  {
    var digits := if |tok| > 2 && tok[0] == '0' && (tok[1] == 'x' || tok[1] == 'X') then tok[2..] else tok;
    if IsNumeral(digits, 16) && NumeralValue(digits, 16) < 0x1_0000_0000_0000_0000 then
      Some(NumeralValue(digits, 16))
    else None
  }

  /** A shown numeral is one word. */
  lemma ShowIsWord(n: nat, base: nat)
    requires base == 10 || base == 16
    ensures IsWord(Show(n, base))
  {
    var s := Show(n, base);
    forall c | c in s ensures !IsSpace(c) {
      var k :| 0 <= k < |s| && s[k] == c;
      assert 0 <= DigitOf(s[k]);
    }
  }

  /** Decimal round trip, for both signs. */
  lemma ParseDecShow(n: nat)
    ensures ParseDec(Show(n, 10)) == Some(n)
    ensures ParseDec("-" + Show(n, 10)) == Some(-(n as int))
    ensures ParseNat(Show(n, 10)) == Some(n)
  {
    ShowValue(n, 10);
    var s := Show(n, 10);
    assert s[0] != '-' && s[0] != '+' by {
      assert 0 <= DigitOf(s[0]) < 10;
    }
    assert ("-" + s)[1..] == s;
  }

  /** Hexadecimal round trip for every 64-bit value. */
  lemma ParseHexShow(n: u64)
    ensures ParseHex64(Show(n, 16)) == Some(n)
  {
    ShowValue(n, 16);
    var s := Show(n, 16);
    if |s| > 2 && s[0] == '0' {
      assert s[1] != 'x' && s[1] != 'X' by {
        assert 0 <= DigitOf(s[1]) < 16;
      }
    }
  }

  // ---------------------------------------------------------------------
  // Decimal reals (`>>` into a `double`, Python's `float`)
  // ---------------------------------------------------------------------

  function Pow10(n: nat): (r: nat)
    ensures r >= 1
  {
    if n == 0 then 1 else 10 * Pow10(n - 1)
  }

  /** 10 to the power k, for any integer k. */
  function Scale(k: int): (r: real)
    ensures r > 0.0
  {
    if k >= 0 then Pow10(k) as real else 1.0 / (Pow10(-k) as real)
  }

  /** The position of the first character of s in cs, or |s|. */
  function IndexOfAny(s: string, cs: set<char>): (i: nat)
    ensures i <= |s| && (i < |s| ==> s[i] in cs)
    ensures forall k | 0 <= k < i :: s[k] !in cs
  {
    if s == [] then 0
    else if s[0] in cs then 0
    else 1 + IndexOfAny(s[1..], cs)
  }

  predicate DigitsOrEmpty(s: string)
  {
    s == [] || IsNumeral(s, 10)
  }

  /** Digits, a point and digits: the value of the mantissa, times 10 to the exponent. */
  function ParseMantissa(mant: string, exp: int): (r: Option<real>)
  {
    var dot := IndexOfAny(mant, {'.'});
    var ip := mant[..dot];
    var fp := if dot < |mant| then mant[dot + 1..] else [];
    if DigitsOrEmpty(ip) && DigitsOrEmpty(fp) && (ip != [] || fp != []) then
      var digits := NumeralValue(ip, 10) * Pow10(|fp|) + NumeralValue(fp, 10);
      Some((digits as real) * Scale(exp - |fp|))
    else None
  }

  /** A mantissa with an optional exponent (`e` or `E`, then a signed decimal). */
  function ParseUnsignedReal(body: string): (r: Option<real>)
  {
    var e := IndexOfAny(body, {'e', 'E'});
    var exp := if e < |body| then ParseDec(body[e + 1..]) else Some(0);
    if exp.Some? then ParseMantissa(body[..e], exp.value) else None
  }

  /**
   * A token read into a `double`: an optional sign, digits with at most
   * one decimal point (at least one digit), and an optional exponent.
   */
  function ParseReal(tok: string): (r: Option<real>)
  {
    if tok != [] && (tok[0] == '-' || tok[0] == '+') then
      match ParseUnsignedReal(tok[1..])
      case Some(v) => Some(if tok[0] == '-' then -v else v)
      case None => None
    else ParseUnsignedReal(tok)
  }

  /** A shown decimal numeral contains no sign, point or exponent letter. */
  lemma ShowPlain(n: nat)
    ensures IndexOfAny(Show(n, 10), {'e', 'E'}) == |Show(n, 10)|
    ensures IndexOfAny(Show(n, 10), {'.'}) == |Show(n, 10)|
    ensures Show(n, 10)[0] != '-' && Show(n, 10)[0] != '+'
  {
    var s := Show(n, 10);
    NoneOf(s, {'e', 'E'});
    NoneOf(s, {'.'});
    assert 0 <= DigitOf(s[0]) < 10;
  }

  lemma {:induction false} NoneOf(s: string, cs: set<char>)
    requires IsNumeral(s, 10) || s == []
    requires forall c | c in cs :: !(0 <= DigitOf(c) < 10)
    ensures IndexOfAny(s, cs) == |s|
    decreases |s|
  {
    if s != [] {
      assert 0 <= DigitOf(s[0]) < 10;
      assert s[0] !in cs;
      assert forall k | 0 <= k < |s[1..]| :: s[1..][k] == s[k + 1];
      NoneOf(s[1..], cs);
    }
  }

  /** A plain decimal numeral reads as its value. */
  lemma ParseRealDigits(s: string)
    requires IsNumeral(s, 10)
    requires IndexOfAny(s, {'e', 'E'}) == |s| && IndexOfAny(s, {'.'}) == |s|
    ensures ParseUnsignedReal(s) == Some(NumeralValue(s, 10) as real)
  {
    assert s[..|s|] == s;
    assert ParseMantissa(s, 0) == Some(NumeralValue(s, 10) as real);
  }

  /** A decimal integer, of either sign, reads back as that number. */
  lemma ParseRealShow(n: nat)
    ensures ParseReal(Show(n, 10)) == Some(n as real)
    ensures ParseReal("-" + Show(n, 10)) == Some(-(n as real))
  {
    ShowPlain(n);
    ShowValue(n, 10);
    ParseRealDigits(Show(n, 10));
    assert ("-" + Show(n, 10))[1..] == Show(n, 10);
  }
}
