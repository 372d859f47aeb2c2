/**
 Fact placeholders (ingest/placeholder.py): the printer of tokens, the scanner
 that reads them back, and what hydration makes of an annotated chunk. The
 scanner is the token pattern's only possible match at a position: every part of
 the pattern ends at a character the part itself excludes.
 */
module Placeholder {
  import opened Common
  import opened Text

  const OPENING: char := '\U{27E6}'
  const CLOSING: char := '\U{27E7}'

  /** What opens a token, and what a forged opening becomes. */
  const START: string := [OPENING] + "FACT:"
  const FORGED: string := "\U{27EA}FACT:"
  const FORGED_CLOSING: char := '\U{27EB}'

  /** The text a missing or expired fact is replaced with. */
  const NO_VALUE: string := "[kh\U{F4}ng c\U{F3} d\U{1EEF} li\U{1EC7}u hi\U{1EC7}u l\U{1EF1}c]"

  datatype FactRef = FactRef(factKey: string, subject: string, policy: Option<string>)

  // ---------------------------------------------------------------- printer

  predicate NotWord(c: char) {
    !('a' <= c <= 'z' || 'A' <= c <= 'Z' || '0' <= c <= '9' || c == '_' || c == '.' || c == '-')
  }

  predicate EndsSubject(c: char) { c == '#' || c == CLOSING }

  predicate IsWord(s: string) {
    s != "" && forall i :: 0 <= i < |s| ==> !NotWord(s[i])
  }

  predicate IsSubject(s: string) {
    s != "" && forall i :: 0 <= i < |s| ==> !EndsSubject(s[i])
  }

  predicate WellFormed(r: FactRef) {
    IsWord(r.factKey) && IsSubject(r.subject) && (r.policy.None? || IsWord(r.policy.value))
  }

  /** What follows the subject: the policy, unless absent or empty, and the closing bracket. */
  function Tail(policy: Option<string>): string {
    (if policy.Some? && policy.value != "" then "#" + policy.value else "") + [CLOSING]
  }

  /** `FactRef.token` */
  function Token(r: FactRef): string {
    START + (r.factKey + ("@" + (r.subject + Tail(r.policy))))
  }

  /** `str.replace` for a nonempty pattern. */
  function Replace(s: string, pattern: string, replacement: string): string
    requires pattern != ""
  {
    if s == "" then ""
    else if pattern <= s then replacement + Replace(s[|pattern|..], pattern, replacement)
    else [s[0]] + Replace(s[1..], pattern, replacement)
  }

  /** `sanitize_forged_tokens` */
  function Sanitize(text: string): string {
    Replace(Replace(text, START, FORGED), [CLOSING], [FORGED_CLOSING])
  }

  function Tokens(refs: seq<FactRef>): string {
    if refs == [] then "" else Token(refs[0]) + Tokens(refs[1..])
  }

  /** `replace_fact_with_placeholder` */
  function Annotate(text: string, refs: seq<FactRef>): string {
    if Tokens(refs) != "" then Tokens(refs) + ("\n" + text) else text
  }

  // ---------------------------------------------------------------- scanner

  /** What a part of the pattern read at the start of a text, and the text left over. */
  datatype Parsed<T> = NoMatch | Parsed(value: T, rest: string)

  /** An optional policy and the closing bracket. */
  function ReadTail(s: string): (m: Parsed<Option<string>>)
    ensures m.Parsed? ==> |m.rest| < |s|
  {
    if s == "" then NoMatch
    else if s[0] == CLOSING then Parsed(Option.None, s[1..])
    else if s[0] != '#' then NoMatch
    else
      var p := s[1..];
      var k := Find(NotWord, p);
      if 0 < k < |p| && p[k] == CLOSING then Parsed(Some(p[..k]), p[k + 1..]) else NoMatch
  }

  /** A subject, then the tail. */
  function ReadSubject(s: string): (m: Parsed<(string, Option<string>)>)
    ensures m.Parsed? ==> |m.rest| < |s|
  {
    var j := Find(EndsSubject, s);
    if j == 0 then NoMatch
    else match ReadTail(s[j..])
      case NoMatch => NoMatch
      case Parsed(policy, rest) => Parsed((s[..j], policy), rest)
  }

  /** A fact key, an at sign, then the subject. */
  function ReadKey(s: string): (m: Parsed<FactRef>)
    ensures m.Parsed? ==> |m.rest| < |s|
  {
    var i := Find(NotWord, s);
    if i == 0 || i == |s| || s[i] != '@' then NoMatch
    else match ReadSubject(s[i + 1..])
      case NoMatch => NoMatch
      case Parsed((subject, policy), rest) => Parsed(FactRef(s[..i], subject, policy), rest)
  }

  /** The token a text starts with. */
  function Match(s: string): (m: Parsed<FactRef>)
    ensures m.Parsed? ==> |m.rest| < |s|
  {
    if START <= s then ReadKey(s[|START|..]) else NoMatch
  }

  /** The maximal run before a stop character is the only one. */
  lemma {:induction false} RunIs(p: char -> bool, run: string, rest: string)
    requires forall k :: 0 <= k < |run| ==> !p(run[k])
    requires rest != "" ==> p(rest[0])
    ensures Find(p, run + rest) == |run|
    ensures (run + rest)[..|run|] == run && (run + rest)[|run|..] == rest
  {
    FindIs(p, run + rest, |run|);
  }

  lemma {:induction false} RunFound(p: char -> bool, s: string)
    ensures var j := Find(p, s);
            s == s[..j] + s[j..] && (forall k :: 0 <= k < j ==> !p(s[..j][k])) && (j < |s| ==> p(s[j..][0]))
  {
    FindFacts(p, s);
  }

  lemma {:induction false} TailReads(policy: Option<string>, rest: string)
    requires policy.None? || IsWord(policy.value)
    ensures ReadTail(Tail(policy) + rest) == Parsed(policy, rest)
  {
    var s := Tail(policy) + rest;
    match policy
    case None =>
      assert s[1..] == rest;
    case Some(p) =>
      var q := [CLOSING] + rest;
      assert s[1..] == p + q;
      RunIs(NotWord, p, q);
      assert (p + q)[|p|] == CLOSING;
      assert (p + q)[|p| + 1..] == rest;
  }

  lemma {:induction false} TailFinds(s: string)
    requires ReadTail(s).Parsed?
    ensures var Parsed(policy, rest) := ReadTail(s);
            (policy.None? || IsWord(policy.value)) && s == Tail(policy) + rest
  {
    if s[0] == '#' {
      RunFound(NotWord, s[1..]);
    }
  }

  lemma {:induction false} SubjectReads(subject: string, policy: Option<string>, rest: string)
    requires IsSubject(subject) && (policy.None? || IsWord(policy.value))
    ensures ReadSubject(subject + (Tail(policy) + rest)) == Parsed((subject, policy), rest)
  {
    var t := Tail(policy) + rest;
    assert t[0] == Tail(policy)[0];
    RunIs(EndsSubject, subject, t);
    TailReads(policy, rest);
  }

  lemma {:induction false} SubjectFinds(s: string)
    requires ReadSubject(s).Parsed?
    ensures var Parsed((subject, policy), rest) := ReadSubject(s);
            && IsSubject(subject) && (policy.None? || IsWord(policy.value))
            && s == subject + (Tail(policy) + rest)
  {
    RunFound(EndsSubject, s);
    TailFinds(s[Find(EndsSubject, s)..]);
  }

  lemma {:induction false} KeyReads(r: FactRef, rest: string)
    requires WellFormed(r)
    ensures ReadKey(r.factKey + ("@" + (r.subject + (Tail(r.policy) + rest)))) == Parsed(r, rest)
  {
    var t := r.subject + (Tail(r.policy) + rest);
    var u := "@" + t;
    RunIs(NotWord, r.factKey, u);
    assert (r.factKey + u)[|r.factKey|] == '@';
    assert (r.factKey + u)[|r.factKey| + 1..] == t;
    SubjectReads(r.subject, r.policy, rest);
  }

  lemma {:induction false} KeyFinds(s: string)
    requires ReadKey(s).Parsed?
    ensures var Parsed(r, rest) := ReadKey(s);
            WellFormed(r) && s == r.factKey + ("@" + (r.subject + (Tail(r.policy) + rest)))
  {
    var i := Find(NotWord, s);
    RunFound(NotWord, s);
    assert s[i..] == "@" + s[i + 1..];
    SubjectFinds(s[i + 1..]);
  }

  lemma {:induction false} TokenAppend(r: FactRef, rest: string)
    ensures Token(r) + rest == START + (r.factKey + ("@" + (r.subject + (Tail(r.policy) + rest))))
  {
    var k, u, t := r.factKey, r.subject, Tail(r.policy);
    Regroup(u, t, rest);
    Regroup("@", u + t, rest);
    Regroup(k, "@" + (u + t), rest);
    Regroup(START, k + ("@" + (u + t)), rest);
  }

  lemma {:induction false} Regroup<T>(a: seq<T>, b: seq<T>, c: seq<T>)
    ensures (a + b) + c == a + (b + c)
  {
  }

  lemma {:induction false} DropFront<T>(a: seq<T>, b: seq<T>)
    ensures (a + b)[|a|..] == b && a <= a + b
  {
  }

  /** A printed token is read back, and nothing more. */
  lemma {:induction false} MatchReads(r: FactRef, rest: string)
    requires WellFormed(r)
    ensures Match(Token(r) + rest) == Parsed(r, rest)
  {
    TokenAppend(r, rest);
    DropFront(START, r.factKey + ("@" + (r.subject + (Tail(r.policy) + rest))));
    KeyReads(r, rest);
  }

  /** What is read was printed: the text starts with the token of a well-formed reference. */
  lemma {:induction false} MatchFinds(s: string)
    requires Match(s).Parsed?
    ensures var Parsed(r, rest) := Match(s); WellFormed(r) && s == Token(r) + rest
  {
    var Parsed(r, rest) := Match(s);
    KeyFinds(s[|START|..]);
    TokenAppend(r, rest);
    assert s == START + s[|START|..];
  }

  // ---------------------------------------------------------------- whole texts

  datatype Piece = Lit(c: char) | Tok(ref: FactRef)

  /** `finditer`: leftmost matches, each search resuming where the last match ended. */
  function Scan(s: string): seq<Piece>
    decreases |s|
  {
    if s == "" then []
    else match Match(s)
      case NoMatch => [Lit(s[0])] + Scan(s[1..])
      case Parsed(r, rest) => [Tok(r)] + Scan(rest)
  }

  function Refs(pieces: seq<Piece>): seq<FactRef> {
    if pieces == [] then []
    else (if pieces[0].Tok? then [pieces[0].ref] else []) + Refs(pieces[1..])
  }

  /** `extract_placeholders` */
  function Extract(text: string): seq<FactRef> { Refs(Scan(text)) }

  function Hydrated(resolver: FactRef -> Option<string>, r: FactRef): string {
    match resolver(r)
    case None => NO_VALUE
    case Some(v) => v
  }

  function Substitute(resolver: FactRef -> Option<string>, pieces: seq<Piece>): string {
    if pieces == [] then ""
    else (match pieces[0] case Lit(c) => [c] case Tok(r) => Hydrated(resolver, r))
         + Substitute(resolver, pieces[1..])
  }

  /** `resolve_placeholders` */
  function Resolve(text: string, resolver: FactRef -> Option<string>): string {
    Substitute(resolver, Scan(text))
  }

  /** Text with no token in it: no position opens one. */
  ghost predicate OpensNothing(s: string) {
    forall k :: 0 <= k <= |s| ==> !(START <= s[k..])
  }

  function Lits(s: string): seq<Piece> {
    seq(|s|, i requires 0 <= i < |s| => Lit(s[i]))
  }

  lemma {:induction false} ScanNothing(s: string)
    requires OpensNothing(s)
    ensures Scan(s) == Lits(s)
  {
    if s != "" {
      assert s[0..] == s;
      forall k | 0 <= k <= |s[1..]| ensures !(START <= s[1..][k..]) {
        assert s[1..][k..] == s[k + 1..];
      }
      ScanNothing(s[1..]);
      assert Lits(s) == [Lit(s[0])] + Lits(s[1..]);
    }
  }

  lemma {:induction false} ScanToken(r: FactRef, rest: string)
    requires WellFormed(r)
    ensures Scan(Token(r) + rest) == [Tok(r)] + Scan(rest)
  {
    MatchReads(r, rest);
  }

  function Toks(refs: seq<FactRef>): seq<Piece> {
    seq(|refs|, i requires 0 <= i < |refs| => Tok(refs[i]))
  }

  lemma {:induction false} ToksCons(refs: seq<FactRef>, more: seq<Piece>)
    requires refs != []
    ensures [Tok(refs[0])] + (Toks(refs[1..]) + more) == Toks(refs) + more
  {
  }

  lemma {:induction false} ScanTokens(refs: seq<FactRef>, rest: string)
    requires forall i :: 0 <= i < |refs| ==> WellFormed(refs[i])
    ensures Scan(Tokens(refs) + rest) == Toks(refs) + Scan(rest)
  {
    if refs == [] {
      assert "" + rest == rest;
    } else {
      var t, u := Token(refs[0]), Tokens(refs[1..]);
      Regroup(t, u, rest);
      ScanToken(refs[0], u + rest);
      ScanTokens(refs[1..], rest);
      ToksCons(refs, Scan(rest));
    }
  }

  // ---------------------------------------------------------------- sanitized text

  /** A replacement by text of the same length, none of whose characters begins the pattern. */
  lemma {:induction false} ReplaceAt(s: string, pattern: string, replacement: string, k: nat)
    requires pattern != "" && |replacement| == |pattern|
    requires forall i :: 0 < i < |pattern| ==> pattern[i] != pattern[0] && replacement[i] == pattern[i]
    ensures |Replace(s, pattern, replacement)| == |s|
    ensures k < |s| ==>
              Replace(s, pattern, replacement)[k] == if pattern <= s[k..] then replacement[0] else s[k]
    decreases |s|
  {
    if s == "" {
    } else if pattern <= s {
      var n := |pattern|;
      ReplaceAt(s[n..], pattern, replacement, if k < n then 0 else k - n);
      if k < n {
        if k == 0 {
          assert s[0..] == s;
        } else if k < |s| {
          assert s[k] == pattern[k];
          assert s[k..][0] == s[k];
        }
      } else if k < |s| {
        assert s[n..][k - n..] == s[k..];
      }
    } else {
      ReplaceAt(s[1..], pattern, replacement, if k == 0 then 0 else k - 1);
      if k == 0 {
        assert s[0..] == s;
      } else if k < |s| {
        assert s[1..][k - 1..] == s[k..];
      }
    }
  }

  lemma {:induction false} SanitizeAt(text: string, k: nat)
    ensures |Sanitize(text)| == |text|
    ensures k < |text| ==>
              Sanitize(text)[k] ==
              if START <= text[k..] then '\U{27EA}' else if text[k] == CLOSING then FORGED_CLOSING else text[k]
  {
    var mid := Replace(text, START, FORGED);
    ReplaceAt(text, START, FORGED, k);
    ReplaceAt(mid, [CLOSING], [FORGED_CLOSING], k);
    if k < |text| {
      assert [CLOSING] <= mid[k..] <==> mid[k] == CLOSING by {
        assert mid[k..][0] == mid[k];
        if mid[k] == CLOSING { assert mid[k..][..1] == [CLOSING]; }
      }
    }
  }

  /** Sanitized text neither opens nor closes a token, whatever the source held. */
  lemma {:induction false} SanitizedIsInert(text: string)
    ensures OpensNothing(Sanitize(text))
    ensures CLOSING !in Sanitize(text)
  {
    var s := Sanitize(text);
    SanitizeAt(text, 0);
    forall k | 0 <= k <= |s| ensures !(START <= s[k..]) {
      if START <= s[k..] {
        SanitizedOpening(text, k);
      }
    }
    forall k | 0 <= k < |s| ensures s[k] != CLOSING {
      SanitizeAt(text, k);
    }
  }

  lemma {:induction false} OpensAt(text: string, k: nat)
    requires k + |START| <= |text|
    requires forall i :: 0 <= i < |START| ==> text[k + i] == START[i]
    ensures START <= text[k..]
  {
  }

  lemma {:induction false} SanitizedOpening(text: string, k: nat)
    requires k <= |Sanitize(text)|
    ensures !(START <= Sanitize(text)[k..])
  {
    var s := Sanitize(text);
    SanitizeAt(text, k);
    if START <= s[k..] {
      assert s[k] == s[k..][0] == OPENING;
      forall i | 0 <= i < |START| ensures text[k + i] == START[i] {
        SanitizeAt(text, k + i);
        assert s[k + i] == s[k..][i] == START[i];
      }
      OpensAt(text, k);
    }
  }

  // ---------------------------------------------------------------- round trip

  ghost predicate AllWellFormed(refs: seq<FactRef>) {
    forall i :: 0 <= i < |refs| ==> WellFormed(refs[i])
  }

  lemma {:induction false} RefsOfToks(refs: seq<FactRef>, s: string)
    ensures Refs(Toks(refs) + Lits(s)) == refs
  {
    if refs != [] {
      RefsOfToks(refs[1..], s);
      assert (Toks(refs) + Lits(s))[1..] == Toks(refs[1..]) + Lits(s);
    } else if s != "" {
      RefsOfToks([], s[1..]);
      assert (Toks([]) + Lits(s))[1..] == Toks([]) + Lits(s[1..]);
    }
  }

  /** Whatever a text holds, what is read from it is well formed. */
  lemma {:induction false} ExtractedAreWellFormed(text: string)
    ensures AllWellFormed(Extract(text))
    decreases |text|
  {
    if text != "" {
      match Match(text)
      case NoMatch =>
        ExtractedAreWellFormed(text[1..]);
      case Parsed(r, rest) =>
        MatchFinds(text);
        ExtractedAreWellFormed(rest);
    }
  }

  /** The pieces of an annotated chunk: its tokens, then characters. */
  lemma {:induction false} ScanAnnotated(text: string, refs: seq<FactRef>)
    requires AllWellFormed(refs)
    ensures Scan(Annotate(Sanitize(text), refs))
            == Toks(refs) + Lits(if refs == [] then Sanitize(text) else "\n" + Sanitize(text))
  {
    var body := Sanitize(text);
    SanitizedIsInert(text);
    if refs == [] {
      ScanNothing(body);
      assert Toks(refs) + Lits(body) == Lits(body);
    } else {
      var rest := "\n" + body;
      forall k | 0 <= k <= |rest| ensures !(START <= rest[k..]) {
        if k > 0 { assert rest[k..] == body[k - 1..]; } else { assert rest[0..][0] == '\n'; }
      }
      ScanTokens(refs, rest);
      ScanNothing(rest);
      assert Tokens(refs) != "";
    }
  }

  /**
   The references read from an annotated, sanitized chunk are the ones it was
   annotated with exactly when each of them is well formed.
   */
  lemma {:induction false} ExtractUndoesAnnotate(text: string, refs: seq<FactRef>)
    ensures Extract(Annotate(Sanitize(text), refs)) == refs <==> AllWellFormed(refs)
  {
    ExtractedAreWellFormed(Annotate(Sanitize(text), refs));
    if AllWellFormed(refs) {
      ScanAnnotated(text, refs);
      RefsOfToks(refs, if refs == [] then Sanitize(text) else "\n" + Sanitize(text));
    }
  }

  function Values(resolver: FactRef -> Option<string>, refs: seq<FactRef>): string {
    if refs == [] then "" else Hydrated(resolver, refs[0]) + Values(resolver, refs[1..])
  }

  lemma {:induction false} SubstituteToksLits(resolver: FactRef -> Option<string>, refs: seq<FactRef>, s: string)
    ensures Substitute(resolver, Toks(refs) + Lits(s)) == Values(resolver, refs) + s
  {
    var all := Toks(refs) + Lits(s);
    if refs != [] {
      SubstituteToksLits(resolver, refs[1..], s);
      assert all[1..] == Toks(refs[1..]) + Lits(s);
      var h, v := Hydrated(resolver, refs[0]), Values(resolver, refs[1..]);
      assert h + (v + s) == (h + v) + s;
    } else if s != "" {
      SubstituteToksLits(resolver, [], s[1..]);
      assert all[1..] == Toks([]) + Lits(s[1..]);
      assert [s[0]] + s[1..] == s;
    }
  }

  /** Hydration puts each reference's value in its token's place and leaves the sanitized text alone. */
  lemma {:induction false} ResolveAnnotated(text: string, refs: seq<FactRef>, resolver: FactRef -> Option<string>)
    requires AllWellFormed(refs)
    ensures Resolve(Annotate(Sanitize(text), refs), resolver)
            == Values(resolver, refs) + (if refs == [] then Sanitize(text) else "\n" + Sanitize(text))
  {
    ScanAnnotated(text, refs);
    SubstituteToksLits(resolver, refs, if refs == [] then Sanitize(text) else "\n" + Sanitize(text));
  }

  function Print(pieces: seq<Piece>): string {
    if pieces == [] then ""
    else (match pieces[0] case Lit(c) => [c] case Tok(r) => Token(r)) + Print(pieces[1..])
  }

  /** Scanning cuts any text at all into tokens and characters without losing one. */
  lemma {:induction false} ScanLosesNothing(text: string)
    ensures Print(Scan(text)) == text
    decreases |text|
  {
    if text != "" {
      match Match(text)
      case NoMatch =>
        ScanLosesNothing(text[1..]);
        assert [text[0]] + text[1..] == text;
      case Parsed(r, rest) =>
        MatchFinds(text);
        ScanLosesNothing(rest);
    }
  }

  // ---------------------------------------------------------------- a token, letter by letter

  /** Keys and policies are made of ASCII letters, digits, `_`, `.` and `-`; subjects of anything but `#` and the closing bracket. */
  lemma WellFormedExactlyWhen(r: FactRef)
    ensures WellFormed(r) <==>
            && IsText(r.factKey) && r.subject != "" && (r.policy.Some? ==> IsText(r.policy.value))
            && forall i :: 0 <= i < |r.subject| ==> r.subject[i] != '#' && r.subject[i] != '\U{27E7}'
  {
    TextIsWord(r.factKey);
    if r.policy.Some? {
      TextIsWord(r.policy.value);
    }
  }

  predicate IsText(s: string) {
    s != "" && forall i :: 0 <= i < |s| ==> IsTextChar(s[i])
  }

  predicate IsTextChar(c: char) {
    'a' <= c <= 'z' || 'A' <= c <= 'Z' || '0' <= c <= '9' || c == '_' || c == '.' || c == '-'
  }

  lemma TextIsWord(s: string)
    ensures IsText(s) <==> IsWord(s)
  {
    assert forall c :: IsTextChar(c) <==> !NotWord(c);
  }

  /** The format of a token, with a policy and without. */
  lemma TokenIs(factKey: string, subject: string, policy: string)
    requires policy != ""
    ensures Token(FactRef(factKey, subject, Some(policy)))
            == "\U{27E6}FACT:" + factKey + "@" + subject + "#" + policy + "\U{27E7}"
    ensures Token(FactRef(factKey, subject, None)) == "\U{27E6}FACT:" + factKey + "@" + subject + "\U{27E7}"
  {
    assert START == "\U{27E6}FACT:";
    assert Token(FactRef(factKey, subject, None)) == START + factKey + "@" + subject + [CLOSING];
    assert Token(FactRef(factKey, subject, Some(policy))) == START + factKey + "@" + subject + "#" + policy + [CLOSING];
  }
}
