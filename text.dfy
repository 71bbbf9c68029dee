/** The string operations the review tool relies on: Python's `str()` of an
    integer, `str.strip()` with its whitespace class, `" ".join(...)`, and
    the search for a separator. Strings are sequences of Unicode code points. */
module Text {
  import opened Values

  // ---- decimal digits ----

  predicate IsDigit(c: char) {
    '0' <= c <= '9'
  }

  function DigitChar(d: nat): (c: char)
    requires d < 10
    ensures IsDigit(c) && c as int - '0' as int == d
  {
    (d + '0' as int) as char
  }

  /** `str(n)` for `n >= 0`: the decimal digits, most significant first,
      without leading zeros. */
  function NatToString(n: nat): (s: string)
    ensures |s| >= 1
    ensures forall i :: 0 <= i < |s| ==> IsDigit(s[i])
    ensures |s| > 1 ==> s[0] != '0'
    decreases n
  {
    if n < 10 then [DigitChar(n)] else NatToString(n / 10) + [DigitChar(n % 10)]
  }

  /** `str(i)`: a minus sign in front of the digits of a negative number. */
  function IntToString(i: int): (s: string)
    ensures |s| >= 1
    ensures i >= 0 <==> IsDigit(s[0])
    ensures i < 0 <==> s[0] == '-'
    ensures forall k :: 1 <= k < |s| ==> IsDigit(s[k])
  {
    if i < 0 then "-" + NatToString(-i) else NatToString(i)
  }

  function DigitValue(c: char): (d: nat)
    requires IsDigit(c)
    ensures d < 10 && DigitChar(d) == c
  {
    c as int - '0' as int
  }

  function DigitsValue(s: string): nat
    requires forall i :: 0 <= i < |s| ==> IsDigit(s[i])
    decreases |s|
  {
    if s == [] then 0
    else DigitsValue(s[..|s| - 1]) * 10 + DigitValue(s[|s| - 1])
  }

  /** Reading a non-negative decimal number back: `None` unless `s` is a
      non-empty run of digits. */
  function ParseNat(s: string): (r: Option<nat>)
    ensures r.Some? <==> s != [] && forall i :: 0 <= i < |s| ==> IsDigit(s[i])
  {
    if s != [] && forall i :: 0 <= i < |s| ==> IsDigit(s[i]) then Some(DigitsValue(s)) else None
  }

  /** `ParseNat` undoes `NatToString`. */
  lemma {:induction false} ParseNatToString(n: nat)
    ensures ParseNat(NatToString(n)) == Some(n)
    decreases n
  {
    var s := NatToString(n);
    if n >= 10 {
      ParseNatToString(n / 10);
      var front := NatToString(n / 10);
      assert s[..|s| - 1] == front;
      assert DigitsValue(s) == DigitsValue(front) * 10 + n % 10;
    }
  }

  /** Different numbers print differently. */
  lemma NatToStringInjective(m: nat, n: nat)
    requires NatToString(m) == NatToString(n)
    ensures m == n
  {
    ParseNatToString(m);
    ParseNatToString(n);
  }

  lemma IntToStringInjective(i: int, j: int)
    requires IntToString(i) == IntToString(j)
    ensures i == j
  {
    if i < 0 && j < 0 {
      assert IntToString(i)[1..] == NatToString(-i);
      assert IntToString(j)[1..] == NatToString(-j);
      NatToStringInjective(-i, -j);
    } else if i >= 0 && j >= 0 {
      NatToStringInjective(i, j);
    }
  }

  // ---- whitespace and strip ----

  /** The characters Python's `str.isspace()` accepts, which is the set
      `str.strip()` without arguments removes: the ASCII controls
      tab..carriage return, the information separators 0x1C..0x1F, the
      space, and the Unicode separators. */
  predicate IsSpace(c: char) {
    || c == ' ' || ('\t' <= c <= '\r') || ('\U{1c}' <= c <= '\U{1f}')
    || c == '\U{85}' || c == '\U{a0}' || c == '\U{1680}'
    || ('\U{2000}' <= c <= '\U{200a}')
    || c == '\U{2028}' || c == '\U{2029}' || c == '\U{202f}' || c == '\U{205f}' || c == '\U{3000}'
  }

  predicate AllSpace(s: string) {
    forall i :: 0 <= i < |s| ==> IsSpace(s[i])
  }

  /** The first position at or after `i` that does not hold whitespace, or
      `|s|`. */
  function SkipSpace(s: string, i: nat): (k: nat)
    requires i <= |s|
    ensures i <= k <= |s|
    ensures forall j :: i <= j < k ==> IsSpace(s[j])
    ensures k < |s| ==> !IsSpace(s[k])
    decreases |s| - i
  {
    if i < |s| && IsSpace(s[i]) then SkipSpace(s, i + 1) else i
  }

  /** The end of `s[lo..hi]` once its trailing whitespace is dropped. */
  function SkipSpaceBack(s: string, lo: nat, hi: nat): (k: nat)
    requires lo <= hi <= |s|
    ensures lo <= k <= hi
    ensures forall j :: k <= j < hi ==> IsSpace(s[j])
    ensures k > lo ==> !IsSpace(s[k - 1])
    decreases hi
  {
    if hi > lo && IsSpace(s[hi - 1]) then SkipSpaceBack(s, lo, hi - 1) else hi
  }

  /** The length of the whitespace prefix `strip` removes. */
  function LeadingSpace(s: string): nat {
    SkipSpace(s, 0)
  }

  /** `s.strip()`: the middle of `s` between a whitespace prefix and a
      whitespace suffix, beginning and ending with a non-whitespace
      character unless it is empty. */
  function Strip(s: string): (r: string)
    ensures var a := LeadingSpace(s);
      && a + |r| <= |s| && r == s[a..a + |r|]
      && AllSpace(s[..a]) && AllSpace(s[a + |r|..])
    ensures r != [] ==> !IsSpace(r[0]) && !IsSpace(r[|r| - 1])
  {
    var a := SkipSpace(s, 0);
    var b := SkipSpaceBack(s, a, |s|);
    assert forall j :: 0 <= j < a ==> s[..a][j] == s[j];
    assert forall j :: 0 <= j < |s| - b ==> s[b..][j] == s[b + j];
    s[a..b]
  }

  /** Stripping is exact: nothing is left of an all-whitespace string, and
      something is left of any other. */
  lemma StripEmpty(s: string)
    ensures Strip(s) == [] <==> AllSpace(s)
  {
    var r := Strip(s);
    var a := LeadingSpace(s);
    if r == [] {
      forall i | 0 <= i < |s| ensures IsSpace(s[i]) {
        assert a == |s| && s[..a][i] == s[i];
      }
    } else {
      assert s[a] == r[0];
    }
  }

  /** Stripping twice is stripping once. */
  lemma StripIdempotent(s: string)
    ensures Strip(Strip(s)) == Strip(s)
  {
    var r := Strip(s);
    if r != [] {
      assert SkipSpace(r, 0) == 0;
      assert SkipSpaceBack(r, 0, |r|) == |r|;
      assert r[0..|r|] == r;
    }
  }

  // ---- join ----

  /** `sep.join(parts)`. */
  function Join(parts: seq<string>, sep: string): (r: string)
    ensures parts == [] ==> r == []
    ensures |parts| == 1 ==> r == parts[0]
    decreases |parts|
  {
    if parts == [] then []
    else if |parts| == 1 then parts[0]
    else parts[0] + sep + Join(parts[1..], sep)
  }

  /** Words joined with single spaces are blank exactly when every word is
      blank. */
  lemma {:induction false} JoinSpacesBlank(parts: seq<string>)
    ensures AllSpace(Join(parts, " ")) <==> forall k :: 0 <= k < |parts| ==> AllSpace(parts[k])
    decreases |parts|
  {
    if |parts| > 1 {
      JoinSpacesBlank(parts[1..]);
      var head := parts[0];
      var tail := Join(parts[1..], " ");
      var j := head + " " + tail;
      assert Join(parts, " ") == j;
      assert AllSpace(j) <==> AllSpace(head) && AllSpace(tail) by {
        if AllSpace(head) && AllSpace(tail) {
          forall i | 0 <= i < |j| ensures IsSpace(j[i]) {
            if i < |head| { assert j[i] == head[i]; }
            else if i == |head| { assert j[i] == ' '; }
            else { assert j[i] == tail[i - |head| - 1]; }
          }
        }
        if AllSpace(j) {
          forall i | 0 <= i < |head| ensures IsSpace(head[i]) { assert j[i] == head[i]; }
          forall i | 0 <= i < |tail| ensures IsSpace(tail[i]) { assert j[i + |head| + 1] == tail[i]; }
        }
      }
      assert forall k :: 1 <= k < |parts| ==> parts[k] == parts[1..][k - 1];
    }
  }

  // ---- separators ----

  /** The position of the first `c` in `s`, or `|s|` when there is none. */
  function FirstIndexOf(s: string, c: char): (k: nat)
    ensures k <= |s|
    ensures forall i :: 0 <= i < k ==> s[i] != c
    ensures k < |s| ==> s[k] == c
    decreases |s|
  {
    if s == [] then 0 else if s[0] == c then 0 else 1 + FirstIndexOf(s[1..], c)
  }

  /** In `a + [c] + b` with no `c` in `a`, the first `c` is the one after `a`. */
  lemma FirstIndexAfter(a: string, c: char, b: string)
    requires forall i :: 0 <= i < |a| ==> a[i] != c
    ensures FirstIndexOf(a + [c] + b, c) == |a|
  {
    var s := a + [c] + b;
    assert s[|a|] == c;
    assert forall i :: 0 <= i < |a| ==> s[i] == a[i];
  }
}
