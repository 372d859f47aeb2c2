/** Text helpers after Python's `str` methods. */
module Text {

  /** White space as `str.strip` sees it. */
  predicate IsSpace(c: char) {
    || '\t' <= c <= '\r' || '\U{1C}' <= c <= ' ' || c == '\U{85}' || c == '\U{A0}' || c == '\U{1680}'
    || '\U{2000}' <= c <= '\U{200A}' || c == '\U{2028}' || c == '\U{2029}' || c == '\U{202F}'
    || c == '\U{205F}' || c == '\U{3000}'
  }

  function DropWhile(p: char -> bool, s: string): string {
    if s != "" && p(s[0]) then DropWhile(p, s[1..]) else s
  }

  function DropWhileRight(p: char -> bool, s: string): string {
    if s != "" && p(s[|s| - 1]) then DropWhileRight(p, s[..|s| - 1]) else s
  }

  function Strip(s: string): string {
    DropWhileRight(IsSpace, DropWhile(IsSpace, s))
  }

  /** Index of the first character satisfying `p`, or the length. */
  function Find(p: char -> bool, s: string): (i: nat)
    ensures i <= |s|
  {
    if s == "" || p(s[0]) then 0 else 1 + Find(p, s[1..])
  }

  /** `str.split` on a one-character separator. */
  function SplitOn(p: char -> bool, s: string): (parts: seq<string>)
    ensures |parts| >= 1
    decreases |s|
  {
    var i := Find(p, s);
    if i == |s| then [s] else [s[..i]] + SplitOn(p, s[i + 1..])
  }

  lemma {:induction false} FindIs(p: char -> bool, s: string, i: nat)
    requires i <= |s|
    requires forall k :: 0 <= k < i ==> !p(s[k])
    requires i < |s| ==> p(s[i])
    ensures Find(p, s) == i
  {
    if i > 0 {
      FindIs(p, s[1..], i - 1);
    }
  }

  lemma {:induction false} FindFacts(p: char -> bool, s: string)
    ensures forall k :: 0 <= k < Find(p, s) ==> !p(s[k])
    ensures Find(p, s) < |s| ==> p(s[Find(p, s)])
  {
    if s != "" && !p(s[0]) {
      FindFacts(p, s[1..]);
      forall k | 0 <= k < Find(p, s) ensures !p(s[k]) {
        if k > 0 { assert s[k] == s[1..][k - 1]; }
      }
    }
  }

  lemma {:induction false} DropWhileSuffix(p: char -> bool, s: string)
    ensures var r := DropWhile(p, s);
            |r| <= |s| && (r != "" ==> !p(r[0]) && r[|r| - 1] == s[|s| - 1])
  {
    if s != "" && p(s[0]) {
      DropWhileSuffix(p, s[1..]);
    }
  }

  lemma {:induction false} DropWhileRightPrefix(p: char -> bool, s: string)
    ensures var r := DropWhileRight(p, s);
            |r| <= |s| && (r != "" ==> !p(r[|r| - 1]) && r[0] == s[0])
  {
    if s != "" && p(s[|s| - 1]) {
      DropWhileRightPrefix(p, s[..|s| - 1]);
    }
  }

  /** Stripped text starts and ends with a visible character. */
  lemma StripEnds(s: string)
    ensures var r := Strip(s); r != "" ==> !IsSpace(r[0]) && !IsSpace(r[|r| - 1])
  {
    DropWhileSuffix(IsSpace, s);
    DropWhileRightPrefix(IsSpace, DropWhile(IsSpace, s));
  }

  lemma StripId(s: string)
    requires s != "" && !IsSpace(s[0]) && !IsSpace(s[|s| - 1])
    ensures Strip(s) == s
  {
  }

  lemma StripIdempotent(s: string)
    ensures Strip(Strip(s)) == Strip(s)
  {
    var t := Strip(s);
    StripEnds(s);
    if t != "" { StripId(t); }
  }

  /** Text with exactly one separator splits in two. */
  lemma {:induction false} SplitInTwo(p: char -> bool, a: string, c: char, b: string)
    requires p(c)
    requires forall i :: 0 <= i < |a| ==> !p(a[i])
    requires forall i :: 0 <= i < |b| ==> !p(b[i])
    ensures SplitOn(p, a + [c] + b) == [a, b]
  {
    var s := a + [c] + b;
    FindIs(p, s, |a|);
    FindIs(p, b, |b|);
    assert s[..|a|] == a && s[|a| + 1..] == b;
  }
}
