/**
 What the line packer works on and what its sections are
 (ingest/camellia_docs.py), said without the functions that compute them.
 */
module SplitMeaning {
  import opened Common
  import opened Text
  import opened SplitTail

  // ---------------------------------------------------------------- which lines a text has

  /** One line break: CR LF, or one of the ten characters that end a line. */
  predicate IsBreak(sep: string) {
    || sep == "\r\n"
    || (|sep| == 1 && sep[0] in ['\n', '\U{B}', '\U{C}', '\r', '\U{1C}', '\U{1D}', '\U{1E}', '\U{85}', '\U{2028}', '\U{2029}'])
  }

  predicate HasBreak(s: string) {
    exists i :: 0 <= i < |s| && IsBreak([s[i]])
  }

  lemma {:induction false} BreaksAre(c: char)
    ensures IsLineBreak(c) <==> IsBreak([c])
  {
  }

  lemma {:induction false} FirstBreak(line: string, c: char, rest: string)
    requires !HasBreak(line) && IsBreak([c])
    ensures Find(IsLineBreak, line + [c] + rest) == |line|
    ensures Find(IsLineBreak, line) == |line|
  {
    var s := line + [c] + rest;
    BreaksAre(c);
    forall i | 0 <= i < |line| ensures !IsLineBreak(line[i]) && s[i] == line[i] {
      BreaksAre(line[i]);
    }
    FindIs(IsLineBreak, s, |line|);
    FindIs(IsLineBreak, line, |line|);
  }

  /**
   The lines of a text: what stands before its first break, then the lines of what
   stands behind it. CR LF is one break; a text without one is a single line, unless
   it is empty.
   */
  lemma {:induction false} LinesAre(line: string, sep: string, rest: string)
    requires !HasBreak(line) && IsBreak(sep)
    requires sep == "\r" ==> rest == "" || rest[0] != '\n'
    ensures SplitLines(line + sep + rest) == [line] + SplitLines(rest)
    ensures SplitLines(line) == if line == "" then [] else [line]
  {
    var s := line + sep + rest;
    FirstBreak(line, sep[0], sep[1..] + rest);
    assert s == line + [sep[0]] + (sep[1..] + rest);
    assert s[..|line|] == line && s[|line| + |sep|..] == rest;
    assert s[|line|] == sep[0];
    if sep == "\r\n" {
      assert s[|line| + 1] == '\n';
    } else if sep == "\r" && rest != "" {
      assert s[|line| + 1] == rest[0];
    }
  }

  // ---------------------------------------------------------------- sections

  /**
   A body of white space gives no section, and one within the cap just itself,
   stripped. Any other gives the pieces of its lines, in order, stripped: no line
   with text is left out.
   */
  lemma {:induction false} SectionsAre(title: Option<string>, body: string, cap: int)
    ensures var text, sections := Strip(body), SectionsOf(title, body, cap);
            && (text == "" ==> sections == [])
            && (text != "" && |text| <= cap ==> sections == [Section(text, title)])
            && (|text| > cap && text != "" ==>
                  exists groups: seq<seq<string>> ::
                    && Visible(Flatten(groups)) == Visible(SplitLines(text))
                    && |sections| == |groups|
                    && forall i :: 0 <= i < |groups| ==> sections[i] == Section(Strip(Join(groups[i])), title))
  {
    var text := Strip(body);
    if text != "" && |text| > cap {
      var groups := Groups(SplitLines(text), cap);
      GroupsKeepLines(SplitLines(text), cap);
      assert |SectionsOf(title, body, cap)| == |groups|;
    }
  }

  /** Each body's sections follow those of the bodies before it. */
  lemma {:induction false} OneMoreBody(pairs: seq<(Option<string>, string)>, title: Option<string>, body: string, cap: int)
    ensures AllSections([], cap) == []
    ensures AllSections(pairs + [(title, body)], cap) == AllSections(pairs, cap) + SectionsOf(title, body, cap)
  {
    var all := pairs + [(title, body)];
    assert all[..|all| - 1] == pairs && all[|all| - 1] == (title, body);
  }
}
