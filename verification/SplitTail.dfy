/**
 The greedy line packer of the corpus builders (ingest/camellia_docs.py, and the
 same code in ingest/soleil_docs.py): it keeps every line, respects the cap
 wherever a line does, and uses as few pieces as any packing can.
 */
module SplitTail {
  import opened Common
  import opened Text

  // ---------------------------------------------------------------- lines and text

  predicate IsLineBreak(c: char) {
    || '\n' <= c <= '\r' || '\U{1C}' <= c <= '\U{1E}' || c == '\U{85}' || c == '\U{2028}' || c == '\U{2029}'
  }

  /** `str.splitlines`: no empty last line, and CR LF is one break. */
  function SplitLines(s: string): seq<string>
    decreases |s|
  {
    var i := Find(IsLineBreak, s);
    if s == "" then []
    else if i == |s| then [s]
    else [s[..i]] + SplitLines(s[i + (if s[i] == '\r' && i + 1 < |s| && s[i + 1] == '\n' then 2 else 1)..])
  }

  /** Lines joined by newlines. */
  function Join(lines: seq<string>): string {
    if lines == [] then ""
    else if |lines| == 1 then lines[0]
    else Join(lines[..|lines| - 1]) + "\n" + lines[|lines| - 1]
  }

  // ---------------------------------------------------------------- the packing

  /** Finished groups of lines and the group being filled. */
  datatype Packing = Packing(groups: seq<seq<string>>, cur: seq<string>)

  function AddLine(p: Packing, line: string, cap: int): Packing {
    var buf := Join(p.cur);
    if buf != "" && |buf| + |line| + 1 > cap then Packing(p.groups + [p.cur], [line])
    else if buf != "" then p.(cur := p.cur + [line])
    else p.(cur := [line])
  }

  function Pack(lines: seq<string>, cap: int): Packing {
    if lines == [] then Packing([], [])
    else AddLine(Pack(lines[..|lines| - 1], cap), lines[|lines| - 1], cap)
  }

  function Groups(lines: seq<string>, cap: int): seq<seq<string>> {
    var p := Pack(lines, cap);
    if Join(p.cur) != "" then p.groups + [p.cur] else p.groups
  }

  function JoinAll(groups: seq<seq<string>>): (r: seq<string>)
    ensures |r| == |groups|
    ensures forall i :: 0 <= i < |r| ==> r[i] == Join(groups[i])
  {
    seq(|groups|, i requires 0 <= i < |groups| => Join(groups[i]))
  }

  /** `_split_tail` */
  method SplitTail(text: string, cap: int) returns (chunks: seq<string>)
    ensures chunks == JoinAll(Groups(SplitLines(text), cap))
  {
    var lines := SplitLines(text);
    chunks := [];
    var buf := "";
    ghost var p := Packing([], []);
    for i := 0 to |lines|
      invariant p == Pack(lines[..i], cap)
      invariant chunks == JoinAll(p.groups) && buf == Join(p.cur)
    {
      var line := lines[i];
      assert lines[..i + 1][..i] == lines[..i];
      JoinAppend(p.cur, line);
      if buf != "" && |buf| + |line| + 1 > cap {
        chunks := chunks + [buf];
        buf := line;
      } else {
        buf := if buf != "" then buf + "\n" + line else line;
      }
      p := AddLine(p, line, cap);
    }
    assert lines[..|lines|] == lines;
    if buf != "" {
      chunks := chunks + [buf];
    }
  }

  lemma {:induction false} JoinAppend(lines: seq<string>, line: string)
    ensures lines != [] ==> Join(lines + [line]) == Join(lines) + "\n" + line
    ensures Join([line]) == line
  {
    assert (lines + [line])[..|lines|] == lines;
  }

  // ---------------------------------------------------------------- nothing is lost

  predicate NonEmptyLines(lines: seq<string>) {
    forall i :: 0 <= i < |lines| ==> lines[i] != ""
  }

  function Visible(lines: seq<string>): seq<string> {
    if lines == [] then []
    else Visible(lines[..|lines| - 1]) + (if lines[|lines| - 1] != "" then [lines[|lines| - 1]] else [])
  }

  lemma {:induction false} VisibleAppend(a: seq<string>, b: seq<string>)
    ensures Visible(a + b) == Visible(a) + Visible(b)
  {
    if b == [] {
      assert a + b == a;
    } else {
      var n := |b| - 1;
      VisibleAppend(a, b[..n]);
      assert (a + b)[..|a| + n] == a + b[..n] && (a + b)[|a| + n] == b[n];
      var x, y, z := Visible(a), Visible(b[..n]), if b[n] != "" then [b[n]] else [];
      assert (x + y) + z == x + (y + z);
    }
  }

  lemma {:induction false} FlattenSnoc<T>(a: seq<seq<T>>, g: seq<T>)
    ensures Flatten(a + [g]) == Flatten(a) + g
  {
    FlattenAppend(a, [g]);
    assert [g][1..] == [];
    assert Flatten([g]) == g + Flatten([]) == g;
  }

  /** The group being filled joins to nothing only when it holds at most one empty line. */
  lemma {:induction false} EmptyJoin(lines: seq<string>)
    requires Join(lines) == ""
    ensures lines == [] || lines == [""]
  {
  }

  /** All lines a packing holds. */
  function Held(p: Packing): seq<string> {
    Flatten(p.groups) + p.cur
  }

  /** A line added to a buffer with text in it is simply added. */
  lemma {:induction false} AddToBuffer(p: Packing, line: string, cap: int)
    requires Join(p.cur) != ""
    ensures Held(AddLine(p, line, cap)) == Held(p) + [line]
  {
    var f := Flatten(p.groups);
    FlattenSnoc(p.groups, p.cur);
    assert f + (p.cur + [line]) == Held(p) + [line];
  }

  /** A line added to an empty buffer replaces what was in it: nothing, or one empty line. */
  lemma {:induction false} AddToNothing(p: Packing, line: string, cap: int)
    requires Join(p.cur) == ""
    ensures Held(AddLine(p, line, cap)) == Flatten(p.groups) + [line]
    ensures Held(p) == Flatten(p.groups) || Held(p) == Flatten(p.groups) + [""]
    ensures NonEmptyLines(Held(p)) ==> Held(p) == Flatten(p.groups)
  {
    var f := Flatten(p.groups);
    EmptyJoin(p.cur);
    if p.cur == [] {
      assert f + [] == f;
    } else {
      assert Held(p)[|f|] == "";
    }
  }

  lemma {:induction false} AddLineKeeps(p: Packing, line: string, cap: int)
    ensures Visible(Held(AddLine(p, line, cap))) == Visible(Held(p)) + Visible([line])
    ensures NonEmptyLines(Held(p)) ==> Held(AddLine(p, line, cap)) == Held(p) + [line]
  {
    var f := Flatten(p.groups);
    VisibleAppend(Held(p), [line]);
    if Join(p.cur) != "" {
      AddToBuffer(p, line, cap);
    } else {
      AddToNothing(p, line, cap);
      VisibleAppend(f, [""]);
      VisibleAppend(f, [line]);
      assert [""][..0] == [] && Visible([""]) == [];
    }
  }

  lemma {:induction false} PackSnoc(lines: seq<string>, cap: int)
    requires lines != []
    ensures Pack(lines, cap) == AddLine(Pack(lines[..|lines| - 1], cap), lines[|lines| - 1], cap)
  {
  }

  lemma {:induction false} VisibleSnoc(lines: seq<string>)
    requires lines != []
    ensures Visible(lines) == Visible(lines[..|lines| - 1]) + Visible([lines[|lines| - 1]])
  {
    assert [lines[|lines| - 1]][..0] == [];
  }

  /** Groups hold the non-empty lines of the text, in order. */
  lemma {:induction false} PackKeepsVisible(lines: seq<string>, cap: int)
    ensures Visible(Held(Pack(lines, cap))) == Visible(lines)
  {
    if lines != [] {
      PackKeepsVisible(lines[..|lines| - 1], cap);
      AddLineKeeps(Pack(lines[..|lines| - 1], cap), lines[|lines| - 1], cap);
      VisibleSnoc(lines);
    }
  }

  lemma {:induction false} HeldSnoc(p: Packing, q: Packing, lines: seq<string>, cap: int)
    requires lines != [] && NonEmptyLines(lines) && Held(p) == lines[..|lines| - 1]
    requires q == AddLine(p, lines[|lines| - 1], cap)
    ensures Held(q) == lines
  {
    AddLineKeeps(p, lines[|lines| - 1], cap);
    FrontAndLast(lines);
  }

  lemma {:induction false} FrontAndLast<T>(s: seq<T>)
    requires s != []
    ensures s == s[..|s| - 1] + [s[|s| - 1]]
  {
  }

  /** Without empty lines they hold all lines. */
  lemma {:induction false} PackKeepsLines(lines: seq<string>, cap: int)
    requires NonEmptyLines(lines)
    ensures Held(Pack(lines, cap)) == lines
  {
    if lines != [] {
      var p := Pack(lines[..|lines| - 1], cap);
      PackKeepsLines(lines[..|lines| - 1], cap);
      PackSnoc(lines, cap);
      HeldSnoc(p, Pack(lines, cap), lines, cap);
    }
  }

  lemma {:induction false} GroupsHold(lines: seq<string>, cap: int)
    ensures var p := Pack(lines, cap);
            && (Join(p.cur) != "" ==> Flatten(Groups(lines, cap)) == Held(p))
            && (Join(p.cur) == "" ==> Held(p) == Flatten(Groups(lines, cap)) + p.cur && (p.cur == [] || p.cur == [""]))
  {
    var p := Pack(lines, cap);
    FlattenSnoc(p.groups, p.cur);
    if Join(p.cur) == "" {
      EmptyJoin(p.cur);
    }
  }

  lemma {:induction false} GroupsKeepLines(lines: seq<string>, cap: int)
    ensures Visible(Flatten(Groups(lines, cap))) == Visible(lines)
    ensures NonEmptyLines(lines) ==> Flatten(Groups(lines, cap)) == lines
  {
    var p := Pack(lines, cap);
    GroupsHold(lines, cap);
    PackKeepsVisible(lines, cap);
    VisibleAppend(Flatten(Groups(lines, cap)), p.cur);
    assert [""][..0] == [] && Visible([""]) == [];
    if NonEmptyLines(lines) {
      PackKeepsLines(lines, cap);
      if p.cur != [] {
        CurIsVisible(p, lines);
      } else {
        assert Flatten(p.groups) + [] == Flatten(p.groups);
      }
    }
  }

  // ---------------------------------------------------------------- within the cap

  ghost predicate FitsOrSingle(g: seq<string>, cap: int) {
    |Join(g)| <= cap || |g| <= 1
  }

  /** No piece is empty, and one over the cap is a single line. */
  lemma {:induction false} PiecesFit(lines: seq<string>, cap: int)
    ensures var p := Pack(lines, cap);
            && (forall g :: g in p.groups ==> g != [] && Join(g) != "" && FitsOrSingle(g, cap))
            && FitsOrSingle(p.cur, cap) && (lines != [] ==> p.cur != [])
  {
    if lines != [] {
      var n := |lines| - 1;
      PiecesFit(lines[..n], cap);
      JoinAppend(Pack(lines[..n], cap).cur, lines[n]);
    }
  }

  lemma {:induction false} GroupLinesAreLines(lines: seq<string>, cap: int)
    ensures var p := Pack(lines, cap);
            && (forall g, l :: g in p.groups && l in g ==> l in lines)
            && (forall l :: l in p.cur ==> l in lines)
  {
    if lines != [] {
      var n := |lines| - 1;
      GroupLinesAreLines(lines[..n], cap);
      assert forall l :: l in lines <==> l in lines[..n] || l == lines[n];
    }
  }

  /** A piece over the cap is one of the lines. */
  lemma {:induction false} PieceOverCapIsLine(lines: seq<string>, cap: int, i: nat)
    requires i < |Groups(lines, cap)|
    ensures var piece := Join(Groups(lines, cap)[i]);
            piece != "" && (|piece| <= cap || piece in lines)
  {
    PiecesFit(lines, cap);
    GroupLinesAreLines(lines, cap);
    var p, g := Pack(lines, cap), Groups(lines, cap)[i];
    assert g in p.groups || g == p.cur;
    if |g| == 1 {
      assert g[0] in g;
    }
  }

  /** Every line fits, so every piece does. */
  lemma {:induction false} PiecesWithinCap(lines: seq<string>, cap: int, i: nat)
    requires forall l :: l in lines ==> |l| <= cap
    requires i < |Groups(lines, cap)|
    ensures 0 < |Join(Groups(lines, cap)[i])| <= cap
  {
    PieceOverCapIsLine(lines, cap, i);
  }

  // ---------------------------------------------------------------- rejoining

  lemma {:induction false} JoinConcat(a: seq<string>, b: seq<string>)
    requires a != [] && b != []
    ensures Join(a + b) == Join(a) + "\n" + Join(b)
  {
    var n := |b| - 1;
    assert (a + b)[..|a| + n] == a + b[..n] && (a + b)[|a| + n] == b[n];
    if n == 0 {
      assert a + b[..0] == a;
    } else {
      JoinConcat(a, b[..n]);
      var x, y, z := Join(a), Join(b[..n]), b[n];
      assert ((x + "\n") + y) + "\n" + z == (x + "\n") + (y + "\n" + z);
    }
  }

  lemma {:induction false} JoinOfGroups(groups: seq<seq<string>>)
    requires forall g :: g in groups ==> g != []
    ensures Join(JoinAll(groups)) == Join(Flatten(groups))
  {
    if groups != [] {
      var n := |groups| - 1;
      var front, last := groups[..n], groups[n];
      assert forall g :: g in front ==> g in groups;
      assert last in groups;
      JoinOfGroups(front);
      FlattenSnoc(front, last);
      assert groups == front + [last];
      assert JoinAll(groups) == JoinAll(front) + [Join(last)];
      JoinAppend(JoinAll(front), Join(last));
      if n == 0 {
        assert JoinAll(front) + [Join(last)] == [Join(last)];
        assert Flatten(front) + last == last;
      } else {
        assert groups[0] in groups && front[0] == groups[0];
        assert Flatten(front) == front[0] + Flatten(front[1..]);
        JoinConcat(Flatten(front), last);
      }
    }
  }

  /** Text whose only line breaks are newlines, and which does not end in one. */
  predicate NewlineText(s: string) {
    && (forall i :: 0 <= i < |s| && IsLineBreak(s[i]) ==> s[i] == '\n')
    && (s != "" ==> s[|s| - 1] != '\n')
  }

  lemma {:induction false} JoinLinesOfText(s: string)
    requires NewlineText(s)
    ensures Join(SplitLines(s)) == s
    ensures s != "" ==> SplitLines(s) != []
    decreases |s|
  {
    var i := Find(IsLineBreak, s);
    FindFacts(IsLineBreak, s);
    if s != "" && i < |s| {
      var rest := s[i + 1..];
      JoinLinesOfText(rest);
      assert s[i] == '\n';
      assert rest != "";
      JoinConcat([s[..i]], SplitLines(rest));
      assert s == s[..i] + "\n" + rest;
    }
  }

  // ---------------------------------------------------------------- rejoining, exactly

  /** An empty line stays only in a buffer that holds text and has room for one more line break. */
  predicate StaysAt(lines: seq<string>, cap: int, i: nat)
    requires i < |lines|
  {
    var buf := Join(Pack(lines[..i], cap).cur);
    lines[i] == "" ==> buf != "" && |buf| + 1 <= cap
  }

  predicate NoLineLost(lines: seq<string>, cap: int) {
    forall i :: 0 <= i < |lines| ==> StaysAt(lines, cap, i)
  }

  /** Number of lines that cannot be lost any more. */
  function Secured(p: Packing): nat {
    |Flatten(p.groups)| + (if Join(p.cur) == "" then 0 else |p.cur|)
  }

  /** One more line secures at most one more; an empty line that does not stay, none. */
  lemma {:induction false} AddSecures(p: Packing, line: string, cap: int)
    ensures Secured(AddLine(p, line, cap)) <= Secured(p) + 1
    ensures line == "" && !(Join(p.cur) != "" && |Join(p.cur)| + 1 <= cap) ==> Secured(AddLine(p, line, cap)) <= Secured(p)
  {
    FlattenSnoc(p.groups, p.cur);
    JoinAppend(p.cur, line);
  }

  lemma {:induction false} StaysInFront(lines: seq<string>, cap: int, i: nat)
    requires i < |lines| - 1
    ensures StaysAt(lines[..|lines| - 1], cap, i) <==> StaysAt(lines, cap, i)
  {
    assert lines[..|lines| - 1][..i] == lines[..i];
  }

  lemma {:induction false} LostInFront(lines: seq<string>, cap: int)
    requires lines != []
    ensures NoLineLost(lines, cap) <==> NoLineLost(lines[..|lines| - 1], cap) && StaysAt(lines, cap, |lines| - 1)
  {
    var front := lines[..|lines| - 1];
    forall i | 0 <= i < |front| ensures StaysAt(front, cap, i) <==> StaysAt(lines, cap, i) {
      StaysInFront(lines, cap, i);
    }
    if NoLineLost(front, cap) && StaysAt(lines, cap, |lines| - 1) {
      forall i | 0 <= i < |lines| ensures StaysAt(lines, cap, i) {
        if i < |front| { assert StaysAt(front, cap, i); }
      }
    }
    if NoLineLost(lines, cap) {
      forall i | 0 <= i < |front| ensures StaysAt(front, cap, i) {
        assert StaysAt(lines, cap, i);
      }
    }
  }

  /** A lost line stays lost. */
  lemma {:induction false} LostIsLost(lines: seq<string>, cap: int)
    ensures Secured(Pack(lines, cap)) <= |lines|
    ensures !NoLineLost(lines, cap) ==> Secured(Pack(lines, cap)) < |lines|
  {
    if lines != [] {
      LostIsLost(lines[..|lines| - 1], cap);
      LostInFront(lines, cap);
      AddSecures(Pack(lines[..|lines| - 1], cap), lines[|lines| - 1], cap);
    }
  }

  lemma {:induction false} AddHolds(p: Packing, lines: seq<string>, cap: int)
    requires lines != [] && Held(p) == lines[..|lines| - 1] && (lines[..|lines| - 1] != [] ==> Join(p.cur) != "")
    requires lines[|lines| - 1] == "" ==> Join(p.cur) != "" && |Join(p.cur)| + 1 <= cap
    ensures Held(AddLine(p, lines[|lines| - 1], cap)) == lines
    ensures Join(AddLine(p, lines[|lines| - 1], cap).cur) != ""
  {
    var line := lines[|lines| - 1];
    FrontAndLast(lines);
    JoinAppend(p.cur, line);
    if Join(p.cur) != "" {
      AddToBuffer(p, line, cap);
    } else {
      AddToNothing(p, line, cap);
    }
  }

  /** Without a lost line the groups hold every line. */
  lemma {:induction false} NothingLost(lines: seq<string>, cap: int)
    requires NoLineLost(lines, cap)
    ensures Held(Pack(lines, cap)) == lines
    ensures lines != [] ==> Join(Pack(lines, cap).cur) != ""
  {
    if lines != [] {
      LostInFront(lines, cap);
      NothingLost(lines[..|lines| - 1], cap);
      AddHolds(Pack(lines[..|lines| - 1], cap), lines, cap);
    }
  }

  /** Characters of all lines. */
  function Chars(lines: seq<string>): nat {
    if lines == [] then 0 else Chars(lines[..|lines| - 1]) + |lines[|lines| - 1]|
  }

  lemma {:induction false} CharsOfVisible(lines: seq<string>)
    ensures Chars(Visible(lines)) == Chars(lines)
  {
    if lines != [] {
      CharsOfVisible(lines[..|lines| - 1]);
      var v := Visible(lines[..|lines| - 1]);
      assert (v + [lines[|lines| - 1]])[..|v|] == v && v + [] == v;
    }
  }

  lemma {:induction false} JoinLength(lines: seq<string>)
    ensures |Join(lines)| == Chars(lines) + (if lines == [] then 0 else |lines| - 1)
  {
    if |lines| > 1 {
      JoinLength(lines[..|lines| - 1]);
    } else if |lines| == 1 {
      assert lines[..0] == [];
    }
  }

  predicate OneLine(s: string) {
    forall i :: 0 <= i < |s| ==> !IsLineBreak(s[i])
  }

  lemma {:induction false} LinesAreLines(s: string)
    ensures forall l :: l in SplitLines(s) ==> OneLine(l)
    decreases |s|
  {
    var i := Find(IsLineBreak, s);
    FindFacts(IsLineBreak, s);
    if s != "" && i < |s| {
      LinesAreLines(s[i + (if s[i] == '\r' && i + 1 < |s| && s[i + 1] == '\n' then 2 else 1)..]);
    }
  }

  lemma {:induction false} JoinBreaks(lines: seq<string>, k: nat)
    requires (forall l :: l in lines ==> OneLine(l)) && k < |Join(lines)|
    ensures IsLineBreak(Join(lines)[k]) ==> Join(lines)[k] == '\n'
  {
    if |lines| == 1 {
      assert lines[0] in lines;
    } else {
      var n := |lines| - 1;
      assert lines[n] in lines;
      assert forall l :: l in lines[..n] ==> l in lines;
      var j := Join(lines[..n]);
      if k < |j| {
        JoinBreaks(lines[..n], k);
        assert Join(lines)[k] == j[k];
      } else if k > |j| {
        assert Join(lines)[k] == lines[n][k - |j| - 1];
      }
    }
  }

  /** A text ending in a newline is one longer than its lines joined. */
  lemma {:induction false} TrailingNewline(s: string)
    requires forall i :: 0 <= i < |s| && IsLineBreak(s[i]) ==> s[i] == '\n'
    requires s != "" && s[|s| - 1] == '\n'
    ensures |s| == |Join(SplitLines(s))| + 1 && SplitLines(s) != []
    decreases |s|
  {
    var i := Find(IsLineBreak, s);
    FindFacts(IsLineBreak, s);
    assert IsLineBreak('\n');
    assert i < |s|;
    var rest := s[i + 1..];
    assert s[i] == '\n';
    if rest == "" {
      assert SplitLines(s) == [s[..i]];
    } else {
      TrailingNewline(rest);
      JoinConcat([s[..i]], SplitLines(rest));
    }
  }

  lemma {:induction false} PiecesJoinKept(lines: seq<string>, cap: int)
    ensures Join(JoinAll(Groups(lines, cap))) == Join(Flatten(Groups(lines, cap)))
  {
    PiecesFit(lines, cap);
    JoinOfGroups(Groups(lines, cap));
  }

  lemma {:induction false} KeptLines(lines: seq<string>, cap: int)
    ensures |Flatten(Groups(lines, cap))| == Secured(Pack(lines, cap)) <= |lines|
    ensures Chars(Flatten(Groups(lines, cap))) == Chars(lines)
    ensures NoLineLost(lines, cap) ==> Flatten(Groups(lines, cap)) == lines
    ensures !NoLineLost(lines, cap) ==> |Flatten(Groups(lines, cap))| < |lines|
  {
    var p := Pack(lines, cap);
    FlattenSnoc(p.groups, p.cur);
    LostIsLost(lines, cap);
    GroupsKeepLines(lines, cap);
    CharsOfVisible(lines);
    CharsOfVisible(Flatten(Groups(lines, cap)));
    if NoLineLost(lines, cap) {
      NothingLost(lines, cap);
    }
  }

  lemma {:induction false} KeptLinesAreLines(lines: seq<string>, cap: int)
    requires forall l :: l in lines ==> OneLine(l)
    ensures forall l :: l in Flatten(Groups(lines, cap)) ==> OneLine(l)
  {
    GroupLinesAreLines(lines, cap);
    var p := Pack(lines, cap);
    var gs := Groups(lines, cap);
    forall g | g in gs ensures forall l :: l in g ==> l in lines {
      assert g in p.groups || g == p.cur;
    }
    FlattenFrom(gs, lines);
  }

  lemma {:induction false} FlattenFrom<T>(parts: seq<seq<T>>, all: seq<T>)
    requires forall g, l :: g in parts && l in g ==> l in all
    ensures forall l :: l in Flatten(parts) ==> l in all
  {
    if parts != [] {
      assert parts[0] in parts;
      assert forall g :: g in parts[1..] ==> g in parts;
      FlattenFrom(parts[1..], all);
    }
  }

  /** Joined lines of a text never make a text with another line break, or one that ends in a newline. */
  lemma {:induction false} OtherTextsDoNotRejoin(text: string, kept: seq<string>)
    requires !NewlineText(text)
    requires forall l :: l in kept ==> OneLine(l)
    requires Chars(kept) == Chars(SplitLines(text)) && |kept| <= |SplitLines(text)|
    ensures Join(kept) != text
  {
    if Join(kept) == text {
      forall i | 0 <= i < |text| ensures IsLineBreak(text[i]) ==> text[i] == '\n' {
        JoinBreaks(kept, i);
      }
      TrailingNewline(text);
      JoinLength(kept);
      JoinLength(SplitLines(text));
    }
  }

  /**
   The pieces rejoined with newlines are the text again exactly when newlines are
   its only line breaks, it does not end in one, and no empty line meets an empty
   or a full buffer.
   */
  lemma {:induction false} PiecesRejoin(text: string, cap: int)
    ensures Join(JoinAll(Groups(SplitLines(text), cap))) == text
            <==> NewlineText(text) && NoLineLost(SplitLines(text), cap)
  {
    var lines := SplitLines(text);
    var kept := Flatten(Groups(lines, cap));
    PiecesJoinKept(lines, cap);
    KeptLines(lines, cap);
    if NewlineText(text) {
      JoinLinesOfText(text);
      JoinLength(kept);
      JoinLength(lines);
    } else {
      LinesAreLines(text);
      KeptLinesAreLines(lines, cap);
      OtherTextsDoNotRejoin(text, kept);
    }
  }

  // ---------------------------------------------------------------- optimality

  /** A packing of the lines into contiguous nonempty runs, each within the cap. */
  ghost predicate IsPacking(q: seq<seq<string>>, lines: seq<string>, cap: int) {
    && Flatten(q) == lines
    && forall g :: g in q ==> g != [] && |Join(g)| <= cap
  }

  lemma {:induction false} LongerTailIsLonger(a: seq<string>, b: seq<string>)
    requires |a| <= |b| && a == b[|b| - |a|..] && a != []
    ensures |Join(a)| <= |Join(b)|
  {
    if |a| < |b| {
      var front := b[..|b| - |a|];
      assert b == front + a;
      JoinConcat(front, a);
    }
  }

  /** Taking the last line off a packing. */
  lemma {:induction false} ShrinkPacking(q: seq<seq<string>>, lines: seq<string>, cap: int) returns (r: seq<seq<string>>)
    requires IsPacking(q, lines, cap) && lines != []
    ensures q != [] && q[|q| - 1] != []
    ensures IsPacking(r, lines[..|lines| - 1], cap)
    ensures var last := q[|q| - 1];
            if |last| == 1 then |r| == |q| - 1 else |r| == |q| && r[|r| - 1] == last[..|last| - 1]
  {
    var n := |q| - 1;
    if q == [] { assert false; }
    var front, last := q[..n], q[n];
    assert q == front + [last];
    FlattenSnoc(front, last);
    assert forall g :: g in front ==> g in q;
    assert last in q;
    assert lines == Flatten(front) + last;
    if |last| == 1 {
      r := front;
      assert lines[..|lines| - 1] == Flatten(front);
    } else {
      var short := last[..|last| - 1];
      r := front + [short];
      FlattenSnoc(front, short);
      assert last == short + [last[|last| - 1]];
      JoinAppend(short, last[|last| - 1]);
      assert lines[..|lines| - 1] == Flatten(front) + short;
    }
  }

  /** The last run of a packing is a tail of the lines. */
  lemma {:induction false} LastRunIsTail(q: seq<seq<string>>, lines: seq<string>, cap: int)
    requires IsPacking(q, lines, cap) && q != []
    ensures var last := q[|q| - 1];
            last != [] && |last| <= |lines| && last == lines[|lines| - |last|..] && |Join(last)| <= cap
  {
    var n := |q| - 1;
    assert q == q[..n] + [q[n]];
    FlattenSnoc(q[..n], q[n]);
    assert q[n] in q;
  }

  /** `p` has fewer groups than `q`, or as many and a last one no longer. */
  ghost predicate Ahead(p: Packing, q: seq<seq<string>>) {
    p.cur != [] && q != []
    && (|p.groups| + 1 < |q| || (|p.groups| + 1 == |q| && |p.cur| <= |q[|q| - 1]|))
  }

  /** Where the other packing puts the line into its last run, greedy with as long a tail can do so too. */
  lemma {:induction false} GreedyExtends(p: Packing, q: seq<seq<string>>, lines: seq<string>, cap: int)
    requires lines != [] && IsPacking(q, lines, cap) && q != []
    requires p.cur != [] && |p.cur| < |q[|q| - 1]|
    requires |p.cur| < |lines| && p.cur == lines[|lines| - 1 - |p.cur|..|lines| - 1]
    ensures |Join(p.cur)| + |lines[|lines| - 1]| + 1 <= cap
  {
    var line, last := lines[|lines| - 1], q[|q| - 1];
    LastRunIsTail(q, lines, cap);
    var a := p.cur + [line];
    assert a == lines[|lines| - |a|..];
    assert a == last[|last| - |a|..];
    LongerTailIsLonger(a, last);
    JoinAppend(p.cur, line);
  }

  /** One more line: if greedy was ahead of the shrunk packing, it is ahead of the whole one. */
  lemma {:induction false} AddKeepsAhead(p: Packing, r: seq<seq<string>>, q: seq<seq<string>>, line: string, cap: int)
    requires Ahead(p, r) && q != [] && q[|q| - 1] != []
    requires var last := q[|q| - 1];
             if |last| == 1 then |r| == |q| - 1 else |r| == |q| && r[|r| - 1] == last[..|last| - 1]
    requires |q[|q| - 1]| > 1 && |p.groups| + 1 == |r| ==> |Join(p.cur)| + |line| + 1 <= cap
    requires Join(p.cur) != ""
    ensures Ahead(AddLine(p, line, cap), q)
  {
  }

  /** Greedy stays ahead: never more groups, and with as many, the last one is no longer. */
  lemma {:induction false} GreedyStaysAhead(q: seq<seq<string>>, lines: seq<string>, cap: int)
    requires NonEmptyLines(lines) && lines != [] && IsPacking(q, lines, cap)
    ensures Ahead(Pack(lines, cap), q)
    decreases |lines|
  {
    var n := |lines| - 1;
    var front, line := lines[..n], lines[n];
    var r := ShrinkPacking(q, lines, cap);
    if front == [] {
      PackOne(lines, cap);
    } else {
      GreedyStaysAhead(r, front, cap);
      var p := Pack(front, cap);
      PackKeepsLines(front, cap);
      CurIsTail(p, front);
      CurIsVisible(p, front);
      if |q[|q| - 1]| > 1 && |p.groups| + 1 == |r| {
        GreedyExtends(p, q, lines, cap);
      }
      AddKeepsAhead(p, r, q, line, cap);
    }
  }

  lemma {:induction false} CurIsVisible(p: Packing, lines: seq<string>)
    requires NonEmptyLines(lines) && Held(p) == lines && p.cur != []
    ensures Join(p.cur) != ""
  {
    assert p.cur[0] == lines[|Flatten(p.groups)|];
    if Join(p.cur) == "" {
      EmptyJoin(p.cur);
    }
  }

  lemma {:induction false} PackOne(lines: seq<string>, cap: int)
    requires |lines| == 1
    ensures Pack(lines, cap) == Packing([], lines)
  {
    assert lines[..0] == [];
  }

  lemma {:induction false} CurIsTail(p: Packing, lines: seq<string>)
    requires Held(p) == lines
    ensures |p.cur| <= |lines| && p.cur == lines[|lines| - |p.cur|..]
  {
  }

  /** No packing of non-empty lines into runs within the cap uses fewer pieces. */
  lemma {:induction false} GreedyIsOptimal(q: seq<seq<string>>, lines: seq<string>, cap: int)
    requires NonEmptyLines(lines) && IsPacking(q, lines, cap)
    ensures |Groups(lines, cap)| <= |q|
  {
    if lines != [] {
      GreedyStaysAhead(q, lines, cap);
    } else {
      assert Pack(lines, cap) == Packing([], []);
    }
  }

  /** And when every line fits, greedy's own groups are such a packing. */
  lemma {:induction false} GreedyIsAPacking(lines: seq<string>, cap: int)
    requires NonEmptyLines(lines) && forall l :: l in lines ==> |l| <= cap
    ensures IsPacking(Groups(lines, cap), lines, cap)
  {
    GroupsKeepLines(lines, cap);
    PiecesFit(lines, cap);
    var gs := Groups(lines, cap);
    forall g | g in gs ensures g != [] && |Join(g)| <= cap {
      var i :| 0 <= i < |gs| && gs[i] == g;
      PiecesWithinCap(lines, cap, i);
    }
  }

  // ---------------------------------------------------------------- sections

  datatype Section = Section(text: string, title: Option<string>)

  function StripAll(chunks: seq<string>, title: Option<string>): seq<Section> {
    seq(|chunks|, i requires 0 <= i < |chunks| => Section(Strip(chunks[i]), title))
  }

  /** What one (title, body) pair becomes. */
  function SectionsOf(title: Option<string>, body: string, cap: int): seq<Section> {
    var text := Strip(body);
    if text == "" then []
    else if |text| <= cap then [Section(text, title)]
    else StripAll(JoinAll(Groups(SplitLines(text), cap)), title)
  }

  function AllSections(pairs: seq<(Option<string>, string)>, cap: int): seq<Section> {
    if pairs == [] then []
    else AllSections(pairs[..|pairs| - 1], cap) + SectionsOf(pairs[|pairs| - 1].0, pairs[|pairs| - 1].1, cap)
  }

  /** `_sections` */
  method Sections(pairs: seq<(Option<string>, string)>, cap: int) returns (out: seq<Section>)
    ensures out == AllSections(pairs, cap)
  {
    out := [];
    for i := 0 to |pairs|
      invariant out == AllSections(pairs[..i], cap)
    {
      assert pairs[..i + 1][..i] == pairs[..i];
      var (title, body) := pairs[i];
      var text := Strip(body);
      if text == "" {
        continue;
      }
      if |text| <= cap {
        out := out + [Section(text, title)];
        continue;
      }
      var pieces := SplitTail(text, cap);
      out := out + StripAll(pieces, title);
    }
    assert pairs[..|pairs|] == pairs;
  }

  lemma {:induction false} StripShortens(s: string)
    ensures |Strip(s)| <= |s|
  {
    DropWhileSuffix(IsSpace, s);
    DropWhileRightPrefix(IsSpace, DropWhile(IsSpace, s));
  }

  /** A section over the cap is the stripped form of a single line of its body. */
  lemma {:induction false} SectionsWithinCap(title: Option<string>, body: string, cap: int, i: nat)
    requires i < |SectionsOf(title, body, cap)|
    ensures var s := SectionsOf(title, body, cap)[i];
            s.title == title && (|s.text| <= cap || exists l :: l in SplitLines(Strip(body)) && s.text == Strip(l))
  {
    var text := Strip(body);
    if |text| > cap {
      var lines := SplitLines(text);
      PieceOverCapIsLine(lines, cap, i);
      StripShortens(Join(Groups(lines, cap)[i]));
    }
  }
}
