/**
 Stored media URLs: how the migration script takes one apart into an origin and
 an object key, and how it puts the two together again
 (scripts/migrate_cdn_origins.py). Percent-decoding is a parameter (`unquote`).
 */
module MediaUrl {
  import opened Common
  import opened Text

  datatype Components = Components(url: string, origin: string, objectKey: string)

  datatype SplitUrl = SplitUrl(scheme: string, netloc: string, path: string, query: string, fragment: string)

  // ---------------------------------------------------------------- characters

  predicate IsControlOrSpace(c: char) { c <= ' ' }

  predicate IsSlash(c: char) { c == '/' }

  predicate IsColon(c: char) { c == ':' }

  predicate IsHash(c: char) { c == '#' }

  predicate IsQuestion(c: char) { c == '?' }

  /** A character that ends the authority part of a URL. */
  predicate EndsAuthority(c: char) { c == '/' || c == '?' || c == '#' }

  /** A character that ends the path part of a URL. */
  predicate EndsPath(c: char) { c == '?' || c == '#' }

  predicate IsAlpha(c: char) { 'a' <= c <= 'z' || 'A' <= c <= 'Z' }

  predicate IsSchemeChar(c: char) {
    IsAlpha(c) || '0' <= c <= '9' || c == '+' || c == '-' || c == '.'
  }

  function LowerChar(c: char): char {
    if 'A' <= c <= 'Z' then (c as int + 32) as char else c
  }

  // ---------------------------------------------------------------- string helpers

  function Lower(s: string): (r: string)
    ensures |r| == |s|
  {
    seq(|s|, i requires 0 <= i < |s| => LowerChar(s[i]))
  }

  /** `urlsplit` deletes tabs and line ends wherever they stand. */
  function RemoveUnsafe(s: string): string {
    if s == "" then ""
    else if IsUnsafe(s[0]) then RemoveUnsafe(s[1..])
    else [s[0]] + RemoveUnsafe(s[1..])
  }

  predicate IsUnsafe(c: char) { c == '\t' || c == '\r' || c == '\n' }

  /** Number of occurrences of "://". */
  function SchemeMarks(s: string): nat {
    if |s| < 3 then 0 else (if s[..3] == "://" then 1 else 0) + SchemeMarks(s[1..])
  }

  // ---------------------------------------------------------------- splitting

  function SplitScheme(s: string): (string, string) {
    var i := Find(IsColon, s);
    if 0 < i < |s| && IsAlpha(s[0]) && forall k :: 0 <= k < i ==> IsSchemeChar(s[k]) then
      (Lower(s[..i]), s[i + 1..])
    else
      ("", s)
  }

  function SplitTailParts(s: string): (string, string, string) {
    var h := Find(IsHash, s);
    var fragment := if h < |s| then s[h + 1..] else "";
    var rest := s[..h];
    var q := Find(IsQuestion, rest);
    (rest[..q], if q < |rest| then rest[q + 1..] else "", fragment)
  }

  /** Python's `urlsplit`; None where it raises ValueError for mismatched brackets. */
  function UrlSplit(text: string): Option<SplitUrl> {
    var clean := RemoveUnsafe(DropWhile(IsControlOrSpace, text));
    var (scheme, rest) := SplitScheme(clean);
    SplitAfterScheme(scheme, rest)
  }

  function SplitAfterScheme(scheme: string, rest: string): Option<SplitUrl> {
    if |rest| >= 2 && rest[..2] == "//" then
      var n := Find(EndsAuthority, rest[2..]);
      var netloc := rest[2..][..n];
      if ('[' in netloc) != (']' in netloc) then None
      else
        var (path, query, fragment) := SplitTailParts(rest[2..][n..]);
        Some(SplitUrl(scheme, netloc, path, query, fragment))
    else
      var (path, query, fragment) := SplitTailParts(rest);
      Some(SplitUrl(scheme, "", path, query, fragment))
  }

  /** An http(s) URL with a host and without credentials. */
  predicate CleanAuthority(u: SplitUrl) {
    u.scheme in ["http", "https"] && '@' !in u.netloc && Find(IsColon, u.netloc) > 0
  }

  /** `parse_media_components`. */
  function Parse(unquote: string -> string, value: string): Option<Components> {
    var text := Strip(value);
    match UrlSplit(text)
    case None => None
    case Some(u) => FromSplit(unquote, text, u)
  }

  function FromSplit(unquote: string -> string, text: string, u: SplitUrl): Option<Components> {
    if !CleanAuthority(u) then None
    else
      var key := DropWhile(IsSlash, unquote(u.path));
      if key == "" then None
      else Some(Components(text, u.scheme + "://" + Lower(u.netloc), key))
  }

  // ---------------------------------------------------------------- building

  predicate LooksAbsolute(s: string) {
    var low := Lower(Strip(s));
    "http://" <= low || "https://" <= low
  }

  predicate IsKeySeparator(c: char) { c == '/' || c == '\\' }

  predicate SafeKey(key: string) {
    forall part :: part in SplitOn(IsKeySeparator, key) ==> part !in ["", ".", ".."]
  }

  /** `build_canonical_url`. */
  function Build(chosenOrigin: string, objectKey: string): Option<string> {
    var origin := DropWhileRight(IsSlash, Strip(chosenOrigin));
    var key := DropWhile(IsSlash, Strip(objectKey));
    if !IsBareUrl(origin) || key == "" || LooksAbsolute(key) || !SafeKey(key) then None
    else
      var candidate := origin + "/" + key;
      if SchemeMarks(candidate) != 1 || !LooksAbsolute(candidate) then None else Some(candidate)
  }

  predicate IsBareUrl(origin: string) {
    match UrlSplit(origin)
    case None => false
    case Some(u) => CleanAuthority(u) && u.path in ["", "/"] && u.query == "" && u.fragment == ""
  }

  // ---------------------------------------------------------------- configured origins

  /** A bare lower-case http(s) authority: what the per-project allowlist holds. */
  predicate BareAuthority(n: string) {
    && n != "" && n[0] != ':' && Lower(n) == n && (('[' in n) == (']' in n))
    && forall c :: c in n ==> !IsSpace(c) && c > ' ' && !EndsAuthority(c) && c != '@'
  }

  predicate BareOrigin(o: string) {
    || ("http://" <= o && BareAuthority(o[7..]))
    || ("https://" <= o && BareAuthority(o[8..]))
  }

  /** The path, as `urlsplit` sees it, of a URL made from an origin and this key. */
  function JoinedPath(key: string): string {
    var k := RemoveUnsafe(key);
    "/" + k[..Find(EndsPath, k)]
  }

  /** A key that is still there after the URL built from it has been taken apart. */
  predicate KeySurvives(unquote: string -> string, objectKey: string) {
    DropWhile(IsSlash, unquote(JoinedPath(DropWhile(IsSlash, Strip(objectKey))))) != ""
  }

  // ---------------------------------------------------------------- lemmas

  lemma {:induction false} RemoveUnsafeNone(s: string)
    requires forall i :: 0 <= i < |s| ==> !IsUnsafe(s[i])
    ensures RemoveUnsafe(s) == s
  {
    if s != "" {
      RemoveUnsafeNone(s[1..]);
    }
  }

  lemma {:induction false} RemoveUnsafeAppend(a: string, b: string)
    ensures RemoveUnsafe(a + b) == RemoveUnsafe(a) + RemoveUnsafe(b)
  {
    if a == "" {
      assert a + b == b;
    } else {
      RemoveUnsafeAppend(a[1..], b);
      assert (a + b)[0] == a[0] && (a + b)[1..] == a[1..] + b;
      var x, y := RemoveUnsafe(a[1..]), RemoveUnsafe(b);
      assert [a[0]] + (x + y) == ([a[0]] + x) + y;
    }
  }

  /** Cutting off the fragment, then the query, leaves the text before the first of both marks. */
  lemma TailPath(s: string)
    ensures SplitTailParts(s).0 == s[..Find(EndsPath, s)]
  {
    var e := Find(EndsPath, s);
    var h := Find(IsHash, s);
    FindFacts(EndsPath, s);
    FindFacts(IsHash, s);
    assert e <= h;
    var rest := s[..h];
    FindIs(IsQuestion, rest, e);
    assert rest[..e] == s[..e];
  }

  predicate SchemeText(s: string) {
    s != "" && IsAlpha(s[0]) && forall i :: 0 <= i < |s| ==> IsSchemeChar(s[i])
  }

  lemma SchemeOf(scheme: string, rest: string)
    requires SchemeText(scheme)
    ensures SplitScheme(scheme + ":" + rest) == (Lower(scheme), rest)
  {
    var s := scheme + ":" + rest;
    forall i | 0 <= i < |scheme| ensures !IsColon(s[i]) && IsSchemeChar(s[i]) {
      assert s[i] == scheme[i];
    }
    FindIs(IsColon, s, |scheme|);
    assert s[..|scheme|] == scheme;
    assert s[|scheme| + 1..] == rest;
  }

  lemma AuthorityOf(n: string, t: string)
    requires forall i :: 0 <= i < |n| ==> !EndsAuthority(n[i])
    requires t == "" || t[0] == '/'
    ensures Find(EndsAuthority, n + t) == |n|
    ensures (n + t)[..|n|] == n && (n + t)[|n|..] == t
  {
    FindIs(EndsAuthority, n + t, |n|);
  }

  lemma CleanOf(o: string, tail: string)
    requires o != "" && forall i :: 0 <= i < |o| ==> o[i] > ' '
    ensures RemoveUnsafe(DropWhile(IsControlOrSpace, o + tail)) == o + RemoveUnsafe(tail)
  {
    assert (o + tail)[0] == o[0];
    assert DropWhile(IsControlOrSpace, o + tail) == o + tail;
    RemoveUnsafeAppend(o, tail);
    forall i | 0 <= i < |o| ensures !IsUnsafe(o[i]) {}
    RemoveUnsafeNone(o);
  }

  lemma RemoveUnsafeSlash(key: string)
    ensures RemoveUnsafe("/" + key) == "/" + RemoveUnsafe(key)
  {
    assert ("/" + key)[1..] == key;
  }

  lemma SplitRest(scheme: string, n: string, k: string)
    requires forall i :: 0 <= i < |n| ==> !EndsAuthority(n[i])
    requires ('[' in n) == (']' in n)
    ensures var u := SplitAfterScheme(scheme, "//" + (n + ("/" + k)));
            u.Some? && u.value.scheme == scheme && u.value.netloc == n
            && u.value.path == "/" + k[..Find(EndsPath, k)]
  {
    var t := "/" + k;
    var rest := "//" + (n + t);
    assert rest[..2] == "//" && rest[2..] == n + t;
    AuthorityOf(n, t);
    TailPath(t);
    PathAfterSlash(k);
  }

  /** Splitting "scheme://authority/key". */
  lemma SplitJoined(scheme: string, n: string, key: string)
    requires SchemeText(scheme)
    requires forall i :: 0 <= i < |n| ==> !EndsAuthority(n[i]) && n[i] > ' '
    requires ('[' in n) == (']' in n)
    ensures var u := UrlSplit(scheme + "://" + n + ("/" + key));
            u.Some? && u.value.scheme == Lower(scheme) && u.value.netloc == n && u.value.path == JoinedPath(key)
  {
    var o := scheme + "://" + n;
    SchemeIsVisible(scheme, n);
    CleanOf(o, "/" + key);
    RemoveUnsafeSlash(key);
    var rest := "//" + (n + ("/" + RemoveUnsafe(key)));
    assert o + ("/" + RemoveUnsafe(key)) == scheme + ":" + rest;
    SchemeOf(scheme, rest);
    SplitRest(Lower(scheme), n, RemoveUnsafe(key));
  }

  lemma SchemeIsVisible(scheme: string, n: string)
    requires SchemeText(scheme) && forall i :: 0 <= i < |n| ==> n[i] > ' '
    ensures forall i :: 0 <= i < |scheme + "://" + n| ==> (scheme + "://" + n)[i] > ' '
  {
    var o := scheme + "://" + n;
    forall i | 0 <= i < |o| ensures o[i] > ' ' {
      if i < |scheme| {
        assert IsSchemeChar(scheme[i]) && o[i] == scheme[i];
      }
    }
  }

  lemma PathAfterSlash(k: string)
    ensures ("/" + k)[..Find(EndsPath, "/" + k)] == "/" + k[..Find(EndsPath, k)]
  {
    var e := Find(EndsPath, k);
    assert ("/" + k)[1..] == k;
    assert Find(EndsPath, "/" + k) == e + 1;
  }

  lemma FindIsPositive(n: string)
    requires n != "" && n[0] != ':'
    ensures Find(IsColon, n) > 0
  {
    assert !IsColon(n[0]);
    FindFacts(IsColon, n);
    if Find(IsColon, n) == 0 { assert false; }
  }

  lemma OriginParts(o: string) returns (scheme: string, n: string)
    requires BareOrigin(o)
    ensures scheme == "http" || scheme == "https"
    ensures o == scheme + "://" + n
    ensures forall i :: 0 <= i < |n| ==> !EndsAuthority(n[i]) && n[i] > ' ' && n[i] != '@' && !IsSpace(n[i])
    ensures n != "" && n[0] != ':' && Lower(n) == n && (('[' in n) == (']' in n))
  {
    if "http://" <= o && BareAuthority(o[7..]) {
      scheme, n := "http", o[7..];
      assert o == o[..7] + n;
    } else {
      scheme, n := "https", o[8..];
      assert o == o[..8] + n;
    }
    assert BareAuthority(n);
    forall i | 0 <= i < |n|
      ensures !EndsAuthority(n[i]) && n[i] > ' ' && n[i] != '@' && !IsSpace(n[i])
    {
      assert n[i] in n;
    }
  }

  /** A configured origin has nothing to trim at either end. */
  lemma OriginTrimmed(o: string)
    requires BareOrigin(o)
    ensures Strip(o) == o && DropWhileRight(IsSlash, o) == o
    ensures o != "" && !IsSpace(o[0])
  {
    var scheme, n := OriginParts(o);
    assert o[|o| - 1] == n[|n| - 1];
    StripId(o);
  }

  /** The text `Build` returns for a configured origin. */
  lemma BuildShape(o: string, objectKey: string)
    requires Strip(o) == o && DropWhileRight(IsSlash, o) == o
    requires Build(o, objectKey).Some?
    ensures var key := DropWhile(IsSlash, Strip(objectKey));
            key != "" && Build(o, objectKey).value == o + "/" + key
  {
  }

  /** What is left of a key after trimming does not end in white space. */
  lemma KeyTrimmed(objectKey: string)
    ensures var key := DropWhile(IsSlash, Strip(objectKey));
            key != "" ==> !IsSpace(key[|key| - 1])
  {
    StripEnds(objectKey);
    DropWhileSuffix(IsSlash, Strip(objectKey));
  }

  lemma HttpIsScheme(scheme: string)
    requires scheme == "http" || scheme == "https"
    ensures SchemeText(scheme) && Lower(scheme) == scheme
  {
  }

  /** Taking apart an origin, a slash and a key. */
  lemma SplitOriginAndKey(o: string, key: string)
    requires BareOrigin(o)
    ensures var u := UrlSplit(o + "/" + key);
            && u.Some? && CleanAuthority(u.value)
            && u.value.scheme + "://" + Lower(u.value.netloc) == o
            && u.value.path == JoinedPath(key)
  {
    var scheme, n := OriginParts(o);
    HttpIsScheme(scheme);
    SplitJoined(scheme, n, key);
    assert o + "/" + key == scheme + "://" + n + ("/" + key);
    FindIsPositive(n);
  }

  lemma ParseSplit(unquote: string -> string, c: string, u: SplitUrl)
    requires Strip(c) == c && UrlSplit(c) == Some(u) && CleanAuthority(u)
    ensures Parse(unquote, c).Some? <==> DropWhile(IsSlash, unquote(u.path)) != ""
    ensures Parse(unquote, c).Some? ==>
      Parse(unquote, c).value
      == Components(c, u.scheme + "://" + Lower(u.netloc), DropWhile(IsSlash, unquote(u.path)))
  {
  }

  lemma JoinTrimmed(o: string, key: string)
    requires o != "" && !IsSpace(o[0]) && key != "" && !IsSpace(key[|key| - 1])
    ensures Strip(o + "/" + key) == o + "/" + key
  {
    var c := o + "/" + key;
    assert c[0] == o[0] && c[|c| - 1] == key[|key| - 1];
    StripId(c);
  }

  lemma ParseJoined(unquote: string -> string, o: string, key: string)
    requires BareOrigin(o)
    requires key != "" && !IsSpace(key[|key| - 1])
    ensures var c := o + "/" + key;
            && Strip(c) == c
            && (Parse(unquote, c).Some? <==> DropWhile(IsSlash, unquote(JoinedPath(key))) != "")
            && (Parse(unquote, c).Some? ==>
                  Parse(unquote, c).value == Components(c, o, DropWhile(IsSlash, unquote(JoinedPath(key)))))
  {
    OriginTrimmed(o);
    JoinTrimmed(o, key);
    SplitOriginAndKey(o, key);
    ParseSplit(unquote, o + "/" + key, UrlSplit(o + "/" + key).value);
  }

  /**
   What `Build` makes of a configured origin is taken apart again into the same
   text and the same origin, exactly when the key survives.
   */
  lemma ParseOfBuild(unquote: string -> string, o: string, objectKey: string, c: string)
    requires BareOrigin(o)
    requires Build(o, objectKey) == Some(c)
    ensures Strip(c) == c
    ensures Parse(unquote, c).Some? <==> KeySurvives(unquote, objectKey)
    ensures Parse(unquote, c).Some? ==>
              Parse(unquote, c).value
              == Components(c, o, DropWhile(IsSlash, unquote(JoinedPath(DropWhile(IsSlash, Strip(objectKey))))))
  {
    OriginTrimmed(o);
    BuildShape(o, objectKey);
    KeyTrimmed(objectKey);
    ParseJoined(unquote, o, DropWhile(IsSlash, Strip(objectKey)));
  }
}
