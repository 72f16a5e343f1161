/**
 * The few Python string operations the reconciliation engine relies on:
 * `str.strip()`, `str(int)`, `int(str)`, `str.startswith` and `", ".join`.
 */
module PyText {
  import opened Wrappers

  /** `c.isspace()`: the characters `str.strip()` with no argument removes. */
  predicate IsSpace(c: char) {
    c == ' ' || ('\t' <= c <= '\r') || ('\U{1c}' <= c <= '\U{1f}')
    || c == '\U{85}' || c == '\U{a0}' || c == '\U{1680}' || ('\U{2000}' <= c <= '\U{200a}')
    || c == '\U{2028}' || c == '\U{2029}' || c == '\U{202f}' || c == '\U{205f}' || c == '\U{3000}'
  }

  /** Where the whitespace that starts at position `i` of `s` ends. */
  function SpanEnd(s: string, i: nat): (j: nat)
    requires i <= |s|
    ensures i <= j <= |s|
    ensures forall k :: i <= k < j ==> IsSpace(s[k])
    ensures j == |s| || !IsSpace(s[j])
    decreases |s| - i
  {
    if i < |s| && IsSpace(s[i]) then SpanEnd(s, i + 1) else i
  }

  /** Where the whitespace that ends at position `j` of `s` starts, looking no further back than `lo`. */
  function SpanStart(s: string, lo: nat, j: nat): (i: nat)
    requires lo <= j <= |s|
    ensures lo <= i <= j
    ensures forall k :: i <= k < j ==> IsSpace(s[k])
    ensures i == lo || !IsSpace(s[i - 1])
    decreases j
  {
    if j > lo && IsSpace(s[j - 1]) then SpanStart(s, lo, j - 1) else j
  }

  /** `s.strip()`: the slice of `s` between its leading and its trailing whitespace. */
  function Strip(s: string): (r: string)
    ensures var i := SpanEnd(s, 0);
      && (forall k :: 0 <= k < i ==> IsSpace(s[k]))
      && i + |r| <= |s| && r == s[i..i + |r|]
      && (forall k :: i + |r| <= k < |s| ==> IsSpace(s[k]))
      && (r == [] || (!IsSpace(r[0]) && !IsSpace(r[|r| - 1])))
  {
    var i := SpanEnd(s, 0);
    s[i..SpanStart(s, i, |s|)]
  }

  predicate IsDigit(c: char) { '0' <= c <= '9' }

  function DigitChar(d: nat): (c: char)
    requires d < 10
    ensures IsDigit(c)
  {
    ('0' as int + d) as char
  }

  function DigitValue(c: char): (d: nat)
    requires IsDigit(c)
    ensures d < 10 && DigitChar(d) == c
  {
    c as int - '0' as int
  }

  /** `str(n)` for a non-negative integer: its decimal digits, most significant first. */
  function ShowNat(n: nat): (r: string)
    ensures |r| > 0 && forall k :: 0 <= k < |r| ==> IsDigit(r[k])
  {
    if n < 10 then [DigitChar(n)] else ShowNat(n / 10) + [DigitChar(n % 10)]
  }

  /** `str(i)` for any integer. */
  function ShowInt(i: int): string {
    if i < 0 then "-" + ShowNat(-i) else ShowNat(i)
  }

  /** Decimal digits with single underscores between digits, as `int()` accepts them. */
  predicate DigitGroups(t: string) {
    && |t| > 0 && IsDigit(t[0]) && IsDigit(t[|t| - 1])
    && forall k :: 0 <= k < |t| ==>
         IsDigit(t[k]) || (t[k] == '_' && 0 < k < |t| - 1 && IsDigit(t[k - 1]) && IsDigit(t[k + 1]))
  }

  /** The number the digits of `t` spell, underscores skipped. */
  function DigitsValue(t: string): nat {
    if t == [] then 0
    else if IsDigit(t[|t| - 1]) then DigitsValue(t[..|t| - 1]) * 10 + DigitValue(t[|t| - 1])
    else DigitsValue(t[..|t| - 1])
  }

  /**
   * `int(s)` in base 10: surrounding whitespace, an optional sign, then digit groups.
   * None stands for the ValueError Python raises.
   */
  function PyInt(s: string): Option<int> {
    var t := Strip(s);
    if |t| > 0 && (t[0] == '+' || t[0] == '-') then
      var v: int := DigitsValue(t[1..]);
      if DigitGroups(t[1..]) then Some(if t[0] == '-' then -v else v) else None
    else if DigitGroups(t) then Some(DigitsValue(t))
    else None
  }

  lemma {:induction false} ShowNatValue(n: nat)
    ensures DigitsValue(ShowNat(n)) == n
  {
    var r := ShowNat(n);
    if n >= 10 {
      ShowNatValue(n / 10);
      assert r[..|r| - 1] == ShowNat(n / 10);
    }
  }

  /** `int(str(i)) == i`: the integer parser inverts decimal rendering. */
  lemma PyIntShowInt(i: int)
    ensures PyInt(ShowInt(i)) == Some(i)
  {
    if i < 0 {
      var n: nat := -i;
      assert ShowInt(i) == "-" + ShowNat(n);
      PyIntNegative(n);
    } else {
      assert ShowInt(i) == ShowNat(i);
      PyIntNatural(i);
    }
  }

  lemma PyIntNatural(n: nat)
    ensures PyInt(ShowNat(n)) == Some(n)
  {
    var d := ShowNat(n);
    assert IsDigit(d[0]) && IsDigit(d[|d| - 1]);
    NoEdgeSpaceStrip(d);
    ShowNatValue(n);
    assert DigitGroups(d);
  }

  lemma PyIntNegative(n: nat)
    requires n > 0
    ensures PyInt("-" + ShowNat(n)) == Some(-(n as int))
  {
    var d := ShowNat(n);
    var s := "-" + d;
    assert IsDigit(s[|s| - 1]);
    NoEdgeSpaceStrip(s);
    assert s[1..] == d;
    ShowNatValue(n);
    assert DigitGroups(d);
  }

  lemma NoEdgeSpaceStrip(s: string)
    requires |s| > 0 && !IsSpace(s[0]) && !IsSpace(s[|s| - 1])
    ensures Strip(s) == s
  {
    assert SpanEnd(s, 0) == 0;
    assert SpanStart(s, 0, |s|) == |s|;
  }

  /** `sep.join(parts)`. */
  function Join(parts: seq<string>, sep: string): string {
    if |parts| == 0 then ""
    else if |parts| == 1 then parts[0]
    else parts[0] + sep + Join(parts[1..], sep)
  }

  /** `s.startswith(p)`. */
  predicate StartsWith(s: string, p: string) {
    |p| <= |s| && s[..|p|] == p
  }

  /** `s[6:]`: Python slicing clamps an index past the end to the end. */
  function DropPrefix(s: string, n: nat): (r: string)
    ensures |s| >= n ==> s == s[..n] + r
    ensures |s| < n ==> r == ""
  {
    if |s| >= n then s[n..] else ""
  }
}
