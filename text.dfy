/** The text operations the prompt and the responses are built with: Python's `str(int)`,
    `sep.join(parts)` and `str.strip()`. */
module Text {

  function Digit(d: nat): (c: char)
    requires d < 10
    ensures '0' <= c <= '9'
  {
    "0123456789"[d]
  }

  function DigitValue(c: char): int {
    c as int - '0' as int
  }

  /** `str(n)` for a natural number: its decimal digits, without leading zero. */
  function NatText(n: nat): (s: string)
    ensures |s| > 0
    ensures forall i :: 0 <= i < |s| ==> '0' <= s[i] <= '9'
    ensures |s| > 1 ==> s[0] != '0'
    decreases n
  {
    if n < 10 then [Digit(n)] else NatText(n / 10) + [Digit(n % 10)]
  }

  /** Reading a string of decimal digits back as a number. */
  function ParseNat(s: string): int
    decreases |s|
  {
    if s == [] then 0 else ParseNat(s[..|s| - 1]) * 10 + DigitValue(s[|s| - 1])
  }

  /** The decimal text of a number reads back as that number. */
  lemma {:induction false} NatTextRoundTrip(n: nat)
    ensures ParseNat(NatText(n)) == n
    decreases n
  {
    var s := NatText(n);
    if n < 10 {
      assert s[..0] == [];
    } else {
      NatTextRoundTrip(n / 10);
      assert s[..|s| - 1] == NatText(n / 10);
      assert DigitValue(s[|s| - 1]) == n % 10;
    }
  }

  /** `str(i)` for an integer: a minus sign before the digits of a negative number. */
  function IntText(i: int): (s: string)
    ensures i >= 0 ==> s == NatText(i)
    ensures i < 0 ==> s == "-" + NatText(-i)
  {
    if i < 0 then "-" + NatText(-i) else NatText(i)
  }

  /** `sep.join(parts)`. */
  function Join(sep: string, parts: seq<string>): (r: string)
    ensures |parts| == 1 ==> r == parts[0]
    decreases |parts|
  {
    if parts == [] then ""
    else if |parts| == 1 then parts[0]
    else Join(sep, parts[..|parts| - 1]) + sep + parts[|parts| - 1]
  }

  /** Joining one more part puts the separator and the part at the end. */
  lemma JoinSnoc(sep: string, parts: seq<string>, p: string)
    ensures Join(sep, parts + [p]) == if parts == [] then p else Join(sep, parts) + sep + p
  {
    assert (parts + [p])[..|parts|] == parts;
  }

  /** `Join` with a separator that no part contains: the joined text has exactly
      `|parts| - 1` separators, so splitting it recovers the parts. */
  function Split(sep: char, s: string): (parts: seq<string>)
    ensures |parts| > 0
    ensures forall i, k :: 0 <= i < |parts| && 0 <= k < |parts[i]| ==> parts[i][k] != sep
    decreases |s|
  {
    if s == [] then [""]
    else
      var init := Split(sep, s[..|s| - 1]);
      var c := s[|s| - 1];
      if c == sep then init + [""]
      else init[..|init| - 1] + [init[|init| - 1] + [c]]
  }

  lemma SplitAppend(sep: char, s: string, c: char)
    ensures c == sep ==> Split(sep, s + [c]) == Split(sep, s) + [""]
    ensures c != sep ==>
      var init := Split(sep, s);
      Split(sep, s + [c]) == init[..|init| - 1] + [init[|init| - 1] + [c]]
  {
    assert (s + [c])[..|s|] == s;
  }

  /** Splitting text without the separator gives it back as a single part. */
  lemma {:induction false} SplitNoSep(sep: char, s: string)
    requires forall k :: 0 <= k < |s| ==> s[k] != sep
    ensures Split(sep, s) == [s]
    decreases |s|
  {
    if s != [] {
      var init := s[..|s| - 1];
      assert s == init + [s[|s| - 1]];
      SplitNoSep(sep, init);
      SplitAppend(sep, init, s[|s| - 1]);
    }
  }

  /** Splitting `a + b` where `b` has no separator extends the last part of `a`. */
  lemma {:induction false} SplitConcatNoSep(sep: char, a: string, b: string)
    requires forall k :: 0 <= k < |b| ==> b[k] != sep
    ensures var pa := Split(sep, a);
      Split(sep, a + b) == pa[..|pa| - 1] + [pa[|pa| - 1] + b]
    decreases |b|
  {
    var pa := Split(sep, a);
    if b == [] {
      assert a + b == a;
      assert pa[|pa| - 1] + b == pa[|pa| - 1];
      assert pa[..|pa| - 1] + [pa[|pa| - 1]] == pa;
    } else {
      var b', c := b[..|b| - 1], b[|b| - 1];
      assert a + b == (a + b') + [c];
      assert b == b' + [c];
      SplitConcatNoSep(sep, a, b');
      SplitAppend(sep, a + b', c);
      var pb := Split(sep, a + b');
      assert pb[..|pb| - 1] == pa[..|pa| - 1];
      assert pb[|pb| - 1] == pa[|pa| - 1] + b';
      assert pa[|pa| - 1] + b == (pa[|pa| - 1] + b') + [c];
    }
  }

  /** Splitting undoes joining, when no part contains the separator. */
  lemma {:induction false} SplitJoin(sep: char, parts: seq<string>)
    requires |parts| > 0
    requires forall i, k :: 0 <= i < |parts| && 0 <= k < |parts[i]| ==> parts[i][k] != sep
    ensures Split(sep, Join([sep], parts)) == parts
    decreases |parts|
  {
    if |parts| == 1 {
      SplitNoSep(sep, parts[0]);
    } else {
      var init, p := parts[..|parts| - 1], parts[|parts| - 1];
      assert parts == init + [p];
      SplitJoin(sep, init);
      var j := Join([sep], init);
      SplitAppend(sep, j, sep);
      SplitConcatNoSep(sep, j + [sep], p);
      assert Join([sep], parts) == (j + [sep]) + p;
      var q := Split(sep, j + [sep]);
      assert q == init + [""];
      assert q[..|q| - 1] == init && q[|q| - 1] + p == p;
      assert init + [p] == parts;
    }
  }

  /** Python's `str.isspace()` for one character: the characters `str.strip()` removes. */
  predicate IsSpace(c: char) {
    var n := c as int;
    || 9 <= n <= 13 || 28 <= n <= 32 || n == 0x85 || n == 0xA0 || n == 0x1680
    || 0x2000 <= n <= 0x200A || n == 0x2028 || n == 0x2029 || n == 0x202F || n == 0x205F
    || n == 0x3000
  }

  function StripLeft(s: string): (r: string)
    ensures |r| <= |s| && r == s[|s| - |r|..]
    ensures forall k :: 0 <= k < |s| - |r| ==> IsSpace(s[k])
    ensures |r| > 0 ==> !IsSpace(r[0])
    decreases |s|
  {
    if s != [] && IsSpace(s[0]) then StripLeft(s[1..]) else s
  }

  function StripRight(s: string): (r: string)
    ensures |r| <= |s| && r == s[..|r|]
    ensures forall k :: |r| <= k < |s| ==> IsSpace(s[k])
    ensures |r| > 0 ==> !IsSpace(r[|r| - 1])
    decreases |s|
  {
    if s != [] && IsSpace(s[|s| - 1]) then StripRight(s[..|s| - 1]) else s
  }

  /** `r` is what is left of `s` at offset `i` once whitespace is cut from both ends. */
  predicate StrippedAt(s: string, i: nat, r: string) {
    && i + |r| <= |s| && r == s[i..i + |r|]
    && (forall k :: 0 <= k < i ==> IsSpace(s[k]))
    && (forall k :: i + |r| <= k < |s| ==> IsSpace(s[k]))
    && (|r| > 0 ==> !IsSpace(r[0]) && !IsSpace(r[|r| - 1]))
  }

  /** `s.strip()`: the slice of `s` left once the leading and trailing whitespace is removed. */
  function Strip(s: string): (r: string)
    ensures exists i: nat :: StrippedAt(s, i, r)
  {
    StripBothEnds(s);
    StripRight(StripLeft(s))
  }

  lemma StripBothEnds(s: string)
    ensures StrippedAt(s, |s| - |StripLeft(s)|, StripRight(StripLeft(s)))
  {
    var l := StripLeft(s);
    StrippedFromEnds(s, l, StripRight(l), |s| - |l|);
  }

  /** Cutting the leading whitespace of `s` to get `l`, then the trailing whitespace of `l` to
      get `r`, leaves `r` stripped at the offset of `l`. */
  lemma StrippedFromEnds(s: string, l: string, r: string, i: nat)
    requires i + |l| == |s| && l == s[i..]
    requires forall k :: 0 <= k < i ==> IsSpace(s[k])
    requires |l| > 0 ==> !IsSpace(l[0])
    requires |r| <= |l| && r == l[..|r|]
    requires forall k :: |r| <= k < |l| ==> IsSpace(l[k])
    requires |r| > 0 ==> !IsSpace(r[|r| - 1])
    ensures StrippedAt(s, i, r)
  {
    assert r == s[i..i + |r|];
    TrailingSpaces(s, l, r, i);
    if |r| > 0 {
      assert r[0] == l[0];
    }
  }

  lemma TrailingSpaces(s: string, l: string, r: string, i: nat)
    requires i + |l| == |s| && l == s[i..]
    requires |r| <= |l| && forall k :: |r| <= k < |l| ==> IsSpace(l[k])
    ensures forall k :: i + |r| <= k < |s| ==> IsSpace(s[k])
  {
    forall k | i + |r| <= k < |s| ensures IsSpace(s[k]) {
      assert s[k] == l[k - i];
    }
  }

  /** Stripping twice is stripping once. */
  lemma StripIdempotent(s: string)
    ensures Strip(Strip(s)) == Strip(s)
  {
    var r := Strip(s);
    var i: nat :| StrippedAt(s, i, r);
    if r != [] {
      assert StripLeft(r) == r;
      assert StripRight(r) == r;
    }
  }
}
