/**
 Which texts the two URL functions of the origin migration take, and what they
 make of them (scripts/migrate_cdn_origins.py).
 */
module MediaKeys {
  import opened Common
  import opened Text
  import opened MediaUrl

  // ---------------------------------------------------------------- taking apart

  /** A key nothing has to be trimmed, deleted, cut off or decoded of. */
  ghost predicate PlainPath(unquote: string -> string, key: string) {
    && key != "" && Strip(key) == key && key[0] != '/'
    && (forall i :: 0 <= i < |key| ==> !IsUnsafe(key[i]) && !EndsPath(key[i]))
    && unquote("/" + key) == "/" + key
  }

  lemma {:induction false} PlainPathStays(unquote: string -> string, key: string)
    requires PlainPath(unquote, key)
    ensures DropWhile(IsSlash, Strip(key)) == key && !IsSpace(key[|key| - 1])
    ensures DropWhile(IsSlash, unquote(JoinedPath(key))) == key
  {
    StripEnds(key);
    RemoveUnsafeNone(key);
    FindIs(EndsPath, key, |key|);
    assert key[..|key|] == key && JoinedPath(key) == "/" + key;
    assert ("/" + key)[1..] == key;
  }

  /** A URL on a bare origin has everything behind the slash as its key, directories included. */
  lemma {:induction false} KeyIsWholePath(unquote: string -> string, o: string, key: string)
    requires BareOrigin(o) && PlainPath(unquote, key)
    ensures Parse(unquote, o + "/" + key) == Some(Components(o + "/" + key, o, key))
    ensures Strip(o + "/" + key) == o + "/" + key
  {
    PlainPathStays(unquote, key);
    ParseJoined(unquote, o, key);
  }

  /**
   A text of a scheme, an authority and more is accepted exactly when the scheme is
   http or https in any case, the authority has a host and no credentials, and
   decoding leaves a key; the origin is then in lower case.
   */
  lemma {:induction false} ParseExactly(unquote: string -> string, scheme: string, n: string, key: string)
    requires SchemeText(scheme) && ('[' in n) == (']' in n)
    requires forall i :: 0 <= i < |n| ==> !EndsAuthority(n[i]) && n[i] > ' '
    requires Strip(scheme + "://" + n + ("/" + key)) == scheme + "://" + n + ("/" + key)
    ensures var c := scheme + "://" + n + ("/" + key);
            var k := DropWhile(IsSlash, unquote(JoinedPath(key)));
            Parse(unquote, c) ==
            if (Lower(scheme) == "http" || Lower(scheme) == "https") && '@' !in n && n != "" && n[0] != ':' && k != ""
            then Some(Components(c, Lower(scheme) + "://" + Lower(n), k))
            else None
  {
    SplitJoined(scheme, n, key);
    HostStands(n);
  }

  lemma HostStands(n: string)
    ensures Find(IsColon, n) > 0 <==> n != "" && n[0] != ':'
  {
    if n != "" && n[0] != ':' {
      FindIsPositive(n);
    }
  }

  lemma {:induction false} RemoveUnsafeAround(a: string, c: char, b: string)
    ensures RemoveUnsafe(a + [c] + b) == RemoveUnsafe(a) + (if IsUnsafe(c) then "" else [c]) + RemoveUnsafe(b)
  {
    RemoveUnsafeAppend(a + [c], b);
    RemoveUnsafeAppend(a, [c]);
    assert [c][1..] == "";
  }

  /** Tabs and line ends are deleted from a key wherever they stand. */
  lemma {:induction false} LineEndsAreDeleted(a: string, c: char, b: string)
    requires c in ['\t', '\r', '\n']
    ensures JoinedPath(a + [c] + b) == JoinedPath(a + b)
  {
    RemoveUnsafeAround(a, c, b);
    RemoveUnsafeAppend(a, b);
    assert RemoveUnsafe(a) + "" == RemoveUnsafe(a);
  }

  /** A `?` or `#` ends a key. */
  lemma {:induction false} KeyEndsThere(a: string, c: char, b: string)
    requires c in ['?', '#']
    ensures JoinedPath(a + [c] + b) == JoinedPath(a)
  {
    RemoveUnsafeAround(a, c, b);
    var x, y := RemoveUnsafe(a), RemoveUnsafe(b);
    CutBefore(x, c, y);
  }

  lemma {:induction false} CutBefore(x: string, c: char, y: string)
    requires EndsPath(c)
    ensures var s := x + [c] + y; s[..Find(EndsPath, s)] == x[..Find(EndsPath, x)]
  {
    var s, e := x + [c] + y, Find(EndsPath, x);
    FindFacts(EndsPath, x);
    forall i | 0 <= i < |x| ensures s[i] == x[i] {
    }
    FindIs(EndsPath, s, e);
  }

  // ---------------------------------------------------------------- joining

  /** "://" stands at `i`. */
  predicate MarkAt(s: string, i: nat) {
    i + 2 < |s| && s[i] == ':' && s[i + 1] == '/' && s[i + 2] == '/'
  }

  lemma {:induction false} NoMarks(s: string)
    ensures SchemeMarks(s) == 0 <==> forall i: nat :: !MarkAt(s, i)
  {
    if |s| >= 3 {
      var t := s[1..];
      NoMarks(t);
      assert s[..3] == [s[0], s[1], s[2]];
      assert MarkAt(s, 0) <==> s[..3] == "://";
      forall i: nat ensures MarkAt(t, i) <==> MarkAt(s, i + 1) {
      }
      if i: nat :| MarkAt(s, i) {
        assert i > 0 ==> MarkAt(t, i - 1);
      }
    }
  }

  lemma SlashesAddNoMark(t: string)
    ensures SchemeMarks("//" + t) == SchemeMarks(t)
  {
    assert ("//" + t)[1..] == "/" + t && ("/" + t)[1..] == t;
    if |t| >= 1 {
      assert ("//" + t)[..3][0] == '/';
    }
    if |t| >= 2 {
      assert ("/" + t)[..3][0] == '/';
    }
  }

  lemma {:induction false} OneMark(a: string, t: string)
    requires forall i :: 0 <= i < |a| ==> a[i] != ':'
    ensures SchemeMarks(a + "://" + t) == 1 + SchemeMarks(t)
  {
    var s := a + "://" + t;
    if a == "" {
      assert s[..3] == "://" && s[1..] == "//" + t;
      SlashesAddNoMark(t);
    } else {
      OneMark(a[1..], t);
      assert s[1..] == a[1..] + "://" + t;
      assert s[..3][0] == a[0];
    }
  }

  /** Neither an authority nor the slash behind it adds a mark. */
  lemma {:induction false} AuthorityAddsNoMark(n: string, k: string)
    requires k != "" && k[0] != '/' && forall i :: 0 <= i < |n| ==> n[i] != '/'
    ensures SchemeMarks(n + "/" + k) == SchemeMarks(k)
  {
    var s := n + "/" + k;
    if n == "" {
      assert s[1..] == k;
      assert |s| >= 3 ==> s[..3][0] == '/';
    } else {
      AuthorityAddsNoMark(n[1..], k);
      assert s[1..] == n[1..] + "/" + k;
      assert |s| >= 3;
      assert s[..3][1] == (if |n| > 1 then n[1] else '/');
      assert |n| == 1 ==> s[..3][2] == k[0];
    }
  }

  lemma AuthorityOfOrigin(o: string) returns (scheme: string, n: string)
    requires BareOrigin(o)
    ensures o == scheme + "://" + n
    ensures forall i :: 0 <= i < |scheme| ==> scheme[i] != ':'
    ensures forall i :: 0 <= i < |n| ==> n[i] != '/'
  {
    scheme, n := OriginParts(o);
    forall i | 0 <= i < |n| ensures n[i] != '/' {
      assert !EndsAuthority(n[i]);
    }
  }

  lemma MarksOfJoined(o: string, k: string)
    requires BareOrigin(o) && k != "" && k[0] != '/'
    ensures SchemeMarks(o + "/" + k) == 1 + SchemeMarks(k)
  {
    var scheme, n := AuthorityOfOrigin(o);
    AuthorityAddsNoMark(n, k);
    OneMark(scheme, n + "/" + k);
    assert o + "/" + k == scheme + "://" + (n + "/" + k);
  }

  lemma PrefixMark(k: string, scheme: string)
    requires scheme in ["http://", "https://"] && scheme <= Lower(k)
    ensures exists i: nat :: MarkAt(k, i)
  {
    var low, i := Lower(k), |scheme| - 3;
    forall j | i <= j < i + 3 ensures k[j] == scheme[j] {
      assert low[j] == scheme[j] && low[j] == LowerChar(k[j]);
    }
    assert MarkAt(k, i);
  }

  lemma {:induction false} FrontIsSlice(p: char -> bool, s: string) returns (a: nat)
    ensures a <= |s| && DropWhile(p, s) == s[a..]
  {
    if s != "" && p(s[0]) {
      a := FrontIsSlice(p, s[1..]);
      a := a + 1;
    } else {
      a := 0;
    }
  }

  lemma {:induction false} BackIsSlice(p: char -> bool, s: string) returns (b: nat)
    ensures b <= |s| && DropWhileRight(p, s) == s[..b]
  {
    if s != "" && p(s[|s| - 1]) {
      b := BackIsSlice(p, s[..|s| - 1]);
    } else {
      b := |s|;
    }
  }

  /** A text that looks like a URL of its own has a mark. */
  lemma AbsoluteHasMark(k: string)
    requires LooksAbsolute(k)
    ensures exists i: nat :: MarkAt(k, i)
  {
    var t := Strip(k);
    PrefixMark(t, if "http://" <= Lower(t) then "http://" else "https://");
    var i: nat :| MarkAt(t, i);
    var a := FrontIsSlice(IsSpace, k);
    var b := BackIsSlice(IsSpace, k[a..]);
    assert MarkAt(k, a + i);
  }

  lemma AuthorityOnly(scheme: string, n: string)
    requires forall i :: 0 <= i < |n| ==> !EndsAuthority(n[i])
    requires ('[' in n) == (']' in n)
    ensures SplitAfterScheme(scheme, "//" + n) == Some(SplitUrl(scheme, n, "", "", ""))
  {
    var rest := "//" + n;
    AuthorityOf(n, "");
    assert rest[..2] == "//" && rest[2..] == n && n + "" == n;
    assert n[|n|..] == "";
  }

  lemma CleanStays(o: string)
    requires o != "" && forall i :: 0 <= i < |o| ==> o[i] > ' '
    ensures RemoveUnsafe(DropWhile(IsControlOrSpace, o)) == o
  {
    RemoveUnsafeNone(o);
  }

  lemma SplitVisible(scheme: string, rest: string, o: string)
    requires SchemeText(scheme) && o == scheme + ":" + rest
    requires forall i :: 0 <= i < |o| ==> o[i] > ' '
    ensures UrlSplit(o) == SplitAfterScheme(Lower(scheme), rest)
  {
    CleanStays(o);
    SchemeOf(scheme, rest);
  }

  lemma BareSplit(scheme: string, n: string)
    requires SchemeText(scheme) && Lower(scheme) == scheme
    requires forall i :: 0 <= i < |n| ==> !EndsAuthority(n[i]) && n[i] > ' '
    requires ('[' in n) == (']' in n)
    ensures UrlSplit(scheme + "://" + n) == Some(SplitUrl(scheme, n, "", "", ""))
  {
    var o, rest := scheme + "://" + n, "//" + n;
    SchemeIsVisible(scheme, n);
    assert o == scheme + ":" + rest;
    SplitVisible(scheme, rest, o);
    AuthorityOnly(scheme, n);
  }

  lemma BareIsBare(o: string)
    requires BareOrigin(o)
    ensures IsBareUrl(o)
  {
    var scheme, n := OriginParts(o);
    HttpIsScheme(scheme);
    BareSplit(scheme, n);
    FindIsPositive(n);
  }

  lemma HttpIsAbsolute(s: string, scheme: string)
    requires Strip(s) == s && scheme in ["http://", "https://"] && scheme <= s
    ensures LooksAbsolute(s)
  {
    var low := Lower(s);
    forall i | 0 <= i < |scheme| ensures low[i] == scheme[i] {
      assert s[i] == scheme[i];
    }
    assert scheme <= low;
  }

  lemma JoinedIsAbsolute(o: string, k: string)
    requires BareOrigin(o) && k != "" && !IsSpace(k[|k| - 1])
    ensures LooksAbsolute(o + "/" + k)
  {
    OriginTrimmed(o);
    JoinTrimmed(o, k);
    HttpIsAbsolute(o + "/" + k, if "http://" <= o then "http://" else "https://");
  }

  // ---------------------------------------------------------------- path segments

  /** `s[i..j]` stands between two separators, or a separator and an end. */
  predicate SegmentAt(p: char -> bool, s: string, i: nat, j: nat) {
    && i <= j <= |s| && (i == 0 || p(s[i - 1])) && (j == |s| || p(s[j]))
    && forall m :: i <= m < j ==> !p(s[m])
  }

  /** A segment behind a separator is one of the text behind it. */
  lemma {:induction false} SegmentBehind(p: char -> bool, s: string, f: nat, i: nat, j: nat)
    requires f < |s| && p(s[f])
    ensures var t := s[f + 1..];
            && (SegmentAt(p, t, i, j) <==> SegmentAt(p, s, f + 1 + i, f + 1 + j))
            && (SegmentAt(p, t, i, j) ==> t[i..j] == s[f + 1 + i..f + 1 + j])
  {
    var t, n := s[f + 1..], f + 1;
    assert forall m :: 0 <= m < |t| ==> t[m] == s[n + m];
    if SegmentAt(p, t, i, j) {
      forall m | n + i <= m < n + j ensures !p(s[m]) { assert t[m - n] == s[m]; }
      assert i > 0 ==> t[i - 1] == s[n + i - 1];
    }
    if SegmentAt(p, s, n + i, n + j) {
      forall m | i <= m < j ensures !p(t[m]) { assert t[m] == s[n + m]; }
      assert i > 0 ==> t[i - 1] == s[n + i - 1];
    }
  }

  lemma {:induction false} SegmentIsPart(p: char -> bool, s: string, i: nat, j: nat)
    requires SegmentAt(p, s, i, j)
    ensures s[i..j] in SplitOn(p, s)
    decreases |s|
  {
    var f := Find(p, s);
    FindFacts(p, s);
    if i == 0 {
      FindIs(p, s, j);
      assert SplitOn(p, s)[0] == s[..f];
    } else {
      assert f <= i - 1;
      SegmentBehind(p, s, f, i - f - 1, j - f - 1);
      SegmentIsPart(p, s[f + 1..], i - f - 1, j - f - 1);
    }
  }

  /** `part` stands at `i`, between separators or ends. */
  ghost predicate PartAt(p: char -> bool, s: string, i: nat, part: string) {
    SegmentAt(p, s, i, i + |part|) && s[i..i + |part|] == part
  }

  lemma {:induction false} FirstPart(p: char -> bool, s: string)
    ensures PartAt(p, s, 0, SplitOn(p, s)[0])
  {
    FindFacts(p, s);
  }

  lemma {:induction false} PartBehind(p: char -> bool, s: string, m: nat)
    requires 0 < m < |SplitOn(p, s)|
    ensures var f := Find(p, s);
            f < |s| && p(s[f]) && m - 1 < |SplitOn(p, s[f + 1..])| && SplitOn(p, s)[m] == SplitOn(p, s[f + 1..])[m - 1]
  {
    FindFacts(p, s);
  }

  lemma {:induction false} PartLifts(p: char -> bool, s: string, f: nat, t: string, i: nat, part: string)
    requires f < |s| && p(s[f]) && t == s[f + 1..] && PartAt(p, t, i, part)
    ensures PartAt(p, s, f + 1 + i, part)
  {
    SegmentBehind(p, s, f, i, i + |part|);
  }

  lemma {:induction false} PartIsSegment(p: char -> bool, s: string, m: nat)
    requires m < |SplitOn(p, s)|
    ensures exists i: nat :: PartAt(p, s, i, SplitOn(p, s)[m])
    decreases |s|
  {
    var part := SplitOn(p, s)[m];
    if m == 0 {
      FirstPart(p, s);
    } else {
      PartBehind(p, s, m);
      var f := Find(p, s);
      var t := s[f + 1..];
      PartIsSegment(p, t, m - 1);
      var i: nat :| PartAt(p, t, i, part);
      PartLifts(p, s, f, t, i, part);
    }
  }

  /** No segment between slashes or backslashes is empty, a dot or two dots. */
  ghost predicate NoTraversal(key: string) {
    forall i: nat, j: nat :: SegmentAt(IsKeySeparator, key, i, j) ==> key[i..j] != "" && key[i..j] != "." && key[i..j] != ".."
  }

  lemma {:induction false} SafeExactlyWhen(key: string)
    ensures SafeKey(key) <==> NoTraversal(key)
    ensures forall c :: IsKeySeparator(c) <==> c == '/' || c == '\\'
  {
    if SafeKey(key) {
      forall i: nat, j: nat | SegmentAt(IsKeySeparator, key, i, j) ensures key[i..j] !in ["", ".", ".."] {
        SegmentIsPart(IsKeySeparator, key, i, j);
      }
    }
    if NoTraversal(key) {
      forall part | part in SplitOn(IsKeySeparator, key) ensures part !in ["", ".", ".."] {
        var m :| 0 <= m < |SplitOn(IsKeySeparator, key)| && SplitOn(IsKeySeparator, key)[m] == part;
        PartIsSegment(IsKeySeparator, key, m);
        var i: nat :| PartAt(IsKeySeparator, key, i, part);
      }
    }
  }

  /**
   Joining a configured origin and a key gives the two with a slash between them
   exactly when the key, without white space and slashes in front, is not empty,
   holds no second "://", and has no segment that is empty, a dot or two dots.
   */
  lemma {:induction false} BuildExactly(o: string, objectKey: string)
    requires BareOrigin(o)
    ensures var k := DropWhile(IsSlash, Strip(objectKey));
            Build(o, objectKey) ==
            if k != "" && (forall i: nat :: !MarkAt(k, i)) && NoTraversal(k) then Some(o + "/" + k) else None
  {
    var k := DropWhile(IsSlash, Strip(objectKey));
    OriginTrimmed(o);
    BareIsBare(o);
    KeyTrimmed(objectKey);
    if k != "" {
      DropWhileSuffix(IsSlash, Strip(objectKey));
      KeyPasses(o, k);
    }
  }

  lemma {:induction false} KeyPasses(o: string, k: string)
    requires BareOrigin(o) && k != "" && k[0] != '/' && !IsSpace(k[|k| - 1])
    ensures LooksAbsolute(o + "/" + k)
    ensures !LooksAbsolute(k) && SafeKey(k) && SchemeMarks(o + "/" + k) == 1
            <==> (forall i: nat :: !MarkAt(k, i)) && NoTraversal(k)
  {
    SafeExactlyWhen(k);
    NoMarks(k);
    MarksOfJoined(o, k);
    JoinedIsAbsolute(o, k);
    if LooksAbsolute(k) {
      AbsoluteHasMark(k);
    }
  }

  // ---------------------------------------------------------------- origins that are refused

  lemma {:induction false} TailIs(path: string, q: string, f: string)
    requires forall c :: c in path ==> !EndsPath(c)
    requires '#' !in q
    ensures SplitTailParts(path + "?" + q + "#" + f) == (path, q, f)
  {
    var front := path + "?" + q;
    var s := front + "#" + f;
    forall i | 0 <= i < |front| ensures !IsHash(s[i]) {
      assert s[i] == front[i];
      assert i < |path| ==> front[i] == path[i] && front[i] in path;
      assert i > |path| ==> front[i] == q[i - |path| - 1] && front[i] in q;
    }
    FindIs(IsHash, s, |front|);
    assert s[..|front|] == front && s[|front| + 1..] == f;
    forall i | 0 <= i < |path| ensures !IsQuestion(front[i]) {
      assert front[i] == path[i] && front[i] in path;
    }
    FindIs(IsQuestion, front, |path|);
    assert front[..|path|] == path && front[|path| + 1..] == q;
  }

  lemma AfterAuthority(scheme: string, n: string, tail: string)
    requires ('[' in n) == (']' in n) && forall i :: 0 <= i < |n| ==> !EndsAuthority(n[i])
    requires tail != "" && EndsAuthority(tail[0])
    ensures var (path, q, f) := SplitTailParts(tail);
            SplitAfterScheme(scheme, "//" + (n + tail)) == Some(SplitUrl(scheme, n, path, q, f))
  {
    var rest := "//" + (n + tail);
    assert rest[..2] == "//" && rest[2..] == n + tail;
    FindIs(EndsAuthority, n + tail, |n|);
    assert (n + tail)[..|n|] == n && (n + tail)[|n|..] == tail;
  }

  lemma {:induction false} BuildNeedsBare(o: string, u: SplitUrl, objectKey: string)
    requires DropWhileRight(IsSlash, Strip(o)) == o && UrlSplit(o) == Some(u) && Build(o, objectKey).Some?
    ensures CleanAuthority(u) && (u.path == "" || u.path == "/") && u.query == "" && u.fragment == ""
  {
  }

  /** Nothing is built on an origin with credentials, another scheme, a path, a query or a fragment. */
  lemma {:induction false} OriginIsRefused(scheme: string, n: string, path: string, q: string, f: string, o: string, objectKey: string)
    requires SchemeText(scheme) && ('[' in n) == (']' in n) && forall i :: 0 <= i < |n| ==> !EndsAuthority(n[i])
    requires path == "" || path[0] == '/'
    requires (forall c :: c in path ==> !EndsPath(c)) && '#' !in q
    requires o == scheme + ":" + ("//" + (n + (path + "?" + q + "#" + f)))
    requires DropWhileRight(IsSlash, Strip(o)) == o && forall i :: 0 <= i < |o| ==> o[i] > ' '
    requires Build(o, objectKey).Some?
    ensures (Lower(scheme) == "http" || Lower(scheme) == "https") && '@' !in n && n != "" && n[0] != ':'
    ensures (path == "" || path == "/") && q == "" && f == ""
  {
    TailIs(path, q, f);
    SplitVisible(scheme, "//" + (n + (path + "?" + q + "#" + f)), o);
    AfterAuthority(Lower(scheme), n, path + "?" + q + "#" + f);
    BuildNeedsBare(o, SplitUrl(Lower(scheme), n, path, q, f), objectKey);
    HostStands(n);
  }
}
