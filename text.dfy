/** The few Python `str` operations the core relies on: `strip`, `in`,
    `split(sep)[k]`, `replace(old, "")`. */
module Text {
  import opened Wrappers

  /** The characters Python's `str.isspace` accepts, which `str.strip()` removes. */
  predicate IsSpace(c: char)
  {
    || c == ' ' || '\t' <= c <= '\r' || '\U{1c}' <= c <= '\U{1f}'
    || c == '\U{85}' || c == '\U{a0}' || c == '\U{1680}'
    || '\U{2000}' <= c <= '\U{200a}' || c == '\U{2028}' || c == '\U{2029}'
    || c == '\U{202f}' || c == '\U{205f}' || c == '\U{3000}'
  }

  function StripLeft(s: string): (r: string)
    ensures |r| <= |s| && r == s[|s| - |r|..]
    ensures forall i :: 0 <= i < |s| - |r| ==> IsSpace(s[i])
    ensures r == [] || !IsSpace(r[0])
  {
    if |s| > 0 && IsSpace(s[0]) then StripLeft(s[1..]) else s
  }

  function StripRight(s: string): (r: string)
    ensures |r| <= |s| && r == s[..|r|]
    ensures forall i :: |r| <= i < |s| ==> IsSpace(s[i])
    ensures r == [] || !IsSpace(r[|r| - 1])
  {
    if |s| > 0 && IsSpace(s[|s| - 1]) then StripRight(s[..|s| - 1]) else s
  }

  /** `s.strip()`: the slice left after removing surrounding whitespace. */
  function Strip(s: string): string
  {
    StripRight(StripLeft(s))
  }

  /** Index of the first character `strip` keeps. */
  function StripStart(s: string): nat
  {
    |s| - |StripLeft(s)|
  }

  /** `strip` removes exactly the surrounding whitespace: what is left is the
      slice starting at StripStart(s), everything cut off is whitespace, and
      the slice neither starts nor ends with whitespace. */
  lemma StripSpec(s: string)
    ensures var r, i := Strip(s), StripStart(s);
      && i + |r| <= |s| && r == s[i..i + |r|]
      && (forall k :: 0 <= k < i ==> IsSpace(s[k]))
      && (forall k :: i + |r| <= k < |s| ==> IsSpace(s[k]))
      && (r == [] || (!IsSpace(r[0]) && !IsSpace(r[|r| - 1])))
  {
    var l := StripLeft(s);
    var r := StripRight(l);
    var i := |s| - |l|;
    StripTail(s, l, r, i);
    if r != [] {
      assert r[0] == l[0];
    }
  }

  /** The slice of a slice, and what lies behind it, in positions of `s`. */
  lemma StripTail(s: string, l: string, r: string, i: nat)
    requires i <= |s| && l == s[i..]
    requires |r| <= |l| && r == l[..|r|]
    requires forall k :: |r| <= k < |l| ==> IsSpace(l[k])
    ensures i + |r| <= |s| && r == s[i..i + |r|]
    ensures forall k :: i + |r| <= k < |s| ==> IsSpace(s[k])
  {
    forall k | i + |r| <= k < |s| ensures IsSpace(s[k]) {
      assert s[k] == l[k - i];
    }
  }

  /** A string with no whitespace is left as it is. */
  lemma StripNoSpace(s: string)
    requires forall i :: 0 <= i < |s| ==> !IsSpace(s[i])
    ensures Strip(s) == s
  {
  }

  predicate OccursAt(s: string, pat: string, i: nat)
  {
    i + |pat| <= |s| && s[i..i + |pat|] == pat
  }

  function IndexFrom(s: string, pat: string, from: nat): (r: Option<nat>)
    requires from <= |s|
    ensures r.Some? ==> from <= r.value && OccursAt(s, pat, r.value)
    ensures r.Some? ==> forall j :: from <= j < r.value ==> !OccursAt(s, pat, j)
    ensures r.None? ==> forall j :: from <= j <= |s| ==> !OccursAt(s, pat, j)
    decreases |s| - from
  {
    if OccursAt(s, pat, from) then Some(from)
    else if from == |s| then None
    else IndexFrom(s, pat, from + 1)
  }

  /** Position of the first occurrence of `pat` in `s`, as `s.find(pat)`. */
  function IndexOf(s: string, pat: string): (r: Option<nat>)
    ensures r.Some? ==> OccursAt(s, pat, r.value) && forall j :: 0 <= j < r.value ==> !OccursAt(s, pat, j)
    ensures r.None? ==> forall j :: 0 <= j <= |s| ==> !OccursAt(s, pat, j)
  {
    IndexFrom(s, pat, 0)
  }

  /** `pat in s`. */
  predicate Contains(s: string, pat: string)
  {
    IndexOf(s, pat).Some?
  }

  /** `s.split(sep)[0]`: the text before the first `sep`, or all of `s`. */
  function Before(s: string, sep: string): (r: string)
    ensures !Contains(s, sep) ==> r == s
    ensures Contains(s, sep) ==> r == s[..IndexOf(s, sep).value]
  {
    match IndexOf(s, sep)
    case None => s
    case Some(i) => s[..i]
  }

  /** `s.split(sep)[1]`: the text between the first and second `sep`; None is
      Python's IndexError when `sep` does not occur. */
  function SecondPiece(s: string, sep: string): (r: Option<string>)
    ensures r.Some? <==> Contains(s, sep)
  {
    match IndexOf(s, sep)
    case None => None
    case Some(i) => Some(Before(s[i + |sep|..], sep))
  }

  /** An occurrence of a longer pattern contains an occurrence of its tail. */
  lemma ContainsTail(s: string, pat: string, k: nat)
    requires Contains(s, pat) && k <= |pat|
    ensures Contains(s, pat[k..])
  {
    var i := IndexOf(s, pat).value;
    assert s[i + k..i + k + |pat[k..]|] == pat[k..];
    assert OccursAt(s, pat[k..], i + k);
  }

  /** `s.replace(pat, "")`: every non-overlapping occurrence of `pat`, scanning
      from the left, removed. */
  function RemoveAll(s: string, pat: string): string
    requires |pat| > 0
  {
    if |s| < |pat| then s
    else if s[..|pat|] == pat then RemoveAll(s[|pat|..], pat)
    else [s[0]] + RemoveAll(s[1..], pat)
  }

  /** `s.replace(c, "")` for a single character. */
  function RemoveChar(s: string, c: char): (r: string)
    ensures forall i :: 0 <= i < |r| ==> r[i] != c
    ensures forall i :: 0 <= i < |s| && s[i] != c ==> s[i] in r
    ensures forall x :: x in r ==> x in s
    ensures forall x :: multiset(r)[x] == if x == c then 0 else multiset(s)[x]
  {
    if s == [] then []
    else
      assert s == [s[0]] + s[1..];
      (if s[0] == c then [] else [s[0]]) + RemoveChar(s[1..], c)
  }

  /** Removal works piece by piece, so the kept characters stay in their
      original order: with the multiplicities above, `replace(c, '')` is the
      subsequence of `s` made of every character other than `c`. */
  lemma {:induction false} RemoveCharConcat(a: string, b: string, c: char)
    ensures RemoveChar(a + b, c) == RemoveChar(a, c) + RemoveChar(b, c)
  {
    if a == [] {
      assert a + b == b;
    } else {
      assert (a + b)[1..] == a[1..] + b;
      RemoveCharConcat(a[1..], b, c);
    }
  }
}
