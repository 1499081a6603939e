/**
 * The few pieces of Go's `strings` and `strconv` packages that the modelled code calls:
 * `strings.Index`, `strings.IndexByte`, `strings.Contains`, `strings.Replace(s, old, "", 1)`,
 * `strings.TrimRight`/`TrimLeft` with a one-character cutset, and decimal `strconv.ParseInt`/`Itoa`.
 */
module Strings {
  import opened Wrappers

  /** `pat` occurs in `s` starting at index `i`. */
  predicate OccursAt(s: string, pat: string, i: nat) {
    i + |pat| <= |s| && s[i..i + |pat|] == pat
  }

  /** `strings.Index(s, pat)`: the first index where `pat` occurs, or -1. */
  function IndexOf(s: string, pat: string): (r: int)
    ensures -1 <= r <= |s|
    ensures r >= 0 ==> OccursAt(s, pat, r) && forall j: nat :: j < r ==> !OccursAt(s, pat, j)
    ensures r < 0 <==> forall j: nat :: !OccursAt(s, pat, j)
  {
    IndexFrom(s, pat, 0)
  }

  function IndexFrom(s: string, pat: string, i: nat): (r: int)
    requires i <= |s|
    decreases |s| - i
    ensures r == -1 || i <= r <= |s|
    ensures r >= 0 ==> OccursAt(s, pat, r) && forall j: nat :: i <= j < r ==> !OccursAt(s, pat, j)
    ensures r < 0 ==> forall j: nat :: i <= j ==> !OccursAt(s, pat, j)
  {
    if i + |pat| > |s| then -1
    else if OccursAt(s, pat, i) then i
    else if i == |s| then -1
    else IndexFrom(s, pat, i + 1)
  }

  /** `strings.Contains(s, pat)`. */
  predicate Contains(s: string, pat: string) {
    IndexOf(s, pat) >= 0
  }

  /** `strings.IndexByte(s, c)`: the first index of `c`, or -1. */
  function IndexByte(s: string, c: char): (r: int)
    ensures -1 <= r < |s|
    ensures r < 0 <==> c !in s
    ensures r >= 0 ==> s[r] == c && forall j :: 0 <= j < r ==> s[j] != c
  {
    if s == [] then -1
    else if s[0] == c then 0
    else
      var k := IndexByte(s[1..], c);
      if k < 0 then -1 else k + 1
  }

  /** `strings.Index` with a one-character pattern finds what `strings.IndexByte` finds. */
  lemma {:induction false} IndexOfOneChar(s: string, c: char)
    ensures IndexOf(s, [c]) == IndexByte(s, c)
  {
    forall j: nat ensures OccursAt(s, [c], j) <==> j < |s| && s[j] == c {
      if j < |s| {
        assert s[j..j + 1] == [s[j]];
      }
    }
  }

  /** `strings.Replace(s, pat, "", 1)`: drops the first occurrence of `pat`, if any. */
  function RemoveFirst(s: string, pat: string): (r: string)
    ensures !Contains(s, pat) ==> r == s
    ensures Contains(s, pat) ==> |r| == |s| - |pat|
    ensures Contains(s, pat) ==>
      exists k: nat :: OccursAt(s, pat, k) && (forall j: nat :: j < k ==> !OccursAt(s, pat, j)) &&
        r == s[..k] + s[k + |pat|..]
  {
    var k := IndexOf(s, pat);
    if k < 0 then s else s[..k] + s[k + |pat|..]
  }

  lemma {:induction false} RemoveFirstOfPrefixed(pat: string, d: string)
    ensures RemoveFirst(pat + d, pat) == d
  {
    assert OccursAt(pat + d, pat, 0);
    assert (pat + d)[|pat|..] == d;
  }

  /** `strings.TrimRight(s, string(c))`: removes every trailing `c`. */
  function TrimRight(s: string, c: char): (r: string)
    ensures r <= s
    ensures r == [] || r[|r| - 1] != c
    ensures forall k :: |r| <= k < |s| ==> s[k] == c
  {
    if s != [] && s[|s| - 1] == c then TrimRight(s[..|s| - 1], c) else s
  }

  /** `strings.TrimLeft(s, string(c))`: removes every leading `c`. */
  function TrimLeft(s: string, c: char): (r: string)
    ensures |r| <= |s| && r == s[|s| - |r|..]
    ensures r == [] || r[0] != c
    ensures forall k :: 0 <= k < |s| - |r| ==> s[k] == c
  {
    if s != [] && s[0] == c then TrimLeft(s[1..], c) else s
  }

  // ----- decimal numbers -----

  predicate IsDigit(c: char) { '0' <= c <= '9' }

  predicate AllDigits(s: string) { forall k :: 0 <= k < |s| ==> IsDigit(s[k]) }

  function DigitValue(c: char): nat requires IsDigit(c) { c as int - '0' as int }

  function DigitChar(d: nat): (c: char)
    requires d < 10
    ensures IsDigit(c) && DigitValue(c) == d
  {
    ('0' as int + d) as char
  }

  /** The value of a string of decimal digits, most significant first. */
  function DigitsValue(s: string): nat
    requires AllDigits(s)
  {
    if s == [] then 0 else DigitsValue(s[..|s| - 1]) * 10 + DigitValue(s[|s| - 1])
  }

  /** `strconv.Itoa` on a natural number: decimal digits with no leading zero. */
  function Decimal(n: nat): (r: string)
    ensures r != [] && AllDigits(r)
    ensures |r| > 1 ==> r[0] != '0'
  {
    if n < 10 then [DigitChar(n)] else Decimal(n / 10) + [DigitChar(n % 10)]
  }

  lemma {:induction false} DecimalValue(n: nat)
    ensures DigitsValue(Decimal(n)) == n
  {
    if n >= 10 {
      DecimalValue(n / 10);
      var s := Decimal(n);
      assert s[..|s| - 1] == Decimal(n / 10);
    }
  }

  /**
   * `strconv.ParseInt(s, 10, bitSize)` with `cutoff` = 2^(bitSize-1): an optional sign, then
   * at least one decimal digit and nothing else; the value must lie in [-cutoff, cutoff).
   */
  function ParseSigned(s: string, cutoff: nat): (r: Option<int>)
    requires cutoff > 0
    ensures r.Some? ==> -(cutoff as int) <= r.value < cutoff
  {
    if s == [] then None
    else
      var neg := s[0] == '-';
      var body := if s[0] == '+' || s[0] == '-' then s[1..] else s;
      if body == [] || !AllDigits(body) then None
      else
        var u := DigitsValue(body);
        if !neg && u >= cutoff then None
        else if neg && u > cutoff then None
        else Some(if neg then -(u as int) else u as int)
  }

  const Int32Cutoff: nat := 0x8000_0000
  const Int64Cutoff: nat := 0x8000_0000_0000_0000

  /** `strconv.ParseInt(s, 10, 32)`. */
  function ParseInt32(s: string): Option<int> { ParseSigned(s, Int32Cutoff) }

  /** `strconv.Atoi(s)` for a 64-bit `int`. */
  function Atoi(s: string): Option<int> { ParseSigned(s, Int64Cutoff) }

  /** Parsing undoes formatting for every value in range. */
  lemma {:induction false} ParseDecimal(n: nat, cutoff: nat)
    requires n < cutoff
    ensures ParseSigned(Decimal(n), cutoff) == Some(n)
  {
    DecimalValue(n);
  }

  /** A non-digit anywhere after the first character is refused. */
  lemma {:induction false} ParseRejectsNonDigit(s: string, k: nat, cutoff: nat)
    requires 0 < k < |s| && !IsDigit(s[k]) && cutoff > 0
    ensures ParseSigned(s, cutoff) == None
  {
    var body := if s[0] == '+' || s[0] == '-' then s[1..] else s;
    if s[0] == '+' || s[0] == '-' {
      assert body[k - 1] == s[k];
    } else {
      assert body[k] == s[k];
    }
  }
}
