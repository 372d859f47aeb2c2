/**
 The rollback script of the origin migration: what its SQL text says, and exactly
 when it gives the table back.
 */
module CdnRollback {
  import opened Common
  import opened CdnMigration
  import opened CdnFixpoint

  // ---------------------------------------------------------------- the exported script

  const SET_URL := "UPDATE images SET url_cdn = "
  const WHERE_ID := " WHERE image_id = "
  const QUOTE := '\''

  /** A fixed text, then `'...'` around another, as it is. */
  function Quoted(fixed: string, s: string): string {
    fixed + ([QUOTE] + s + [QUOTE])
  }

  /** The line written for a rewrite; nothing in it is escaped. */
  function StatementText(p: RowPlan): string {
    Quoted(SET_URL, p.oldUrl) + (Quoted(WHERE_ID, p.imageId) + ";")
  }

  /** The lines of the first `k` plans. */
  function Script(plans: seq<RowPlan>, k: nat): seq<string>
    requires k <= |plans|
  {
    if k == 0 then []
    else Script(plans, k - 1) + if plans[k - 1].decision == Rewrite then [StatementText(plans[k - 1])] else []
  }

  /** `rollback_export`, the SQL file. */
  method RollbackExport(plans: seq<RowPlan>) returns (lines: seq<string>)
    ensures lines == ["BEGIN;"] + Script(plans, |plans|) + ["COMMIT;"]
  {
    lines := ["BEGIN;"];
    for k := 0 to |plans|
      invariant lines == ["BEGIN;"] + Script(plans, k)
    {
      if plans[k].decision == Rewrite {
        lines := lines + [StatementText(plans[k])];
      }
    }
    lines := lines + ["COMMIT;"];
  }

  /** The line, letter by letter. */
  lemma StatementIs(p: RowPlan)
    ensures StatementText(p)
            == "UPDATE images SET url_cdn = '" + p.oldUrl + "' WHERE image_id = '" + p.imageId + "';"
  {
    assert SET_URL + [QUOTE] == "UPDATE images SET url_cdn = '";
    assert [QUOTE] + WHERE_ID + [QUOTE] == "' WHERE image_id = '";
    assert [QUOTE] + ";" == "';";
  }

  // ---------------------------------------------------------------- reading it back

  /** The rest of a string literal, in which two quotes stand for one: its value and what follows. */
  function ReadRest(s: string): Option<(string, string)> {
    if s == "" then None
    else if s[0] != QUOTE then
      match ReadRest(s[1..])
      case None => None
      case Some(r) => Some(([s[0]] + r.0, r.1))
    else if |s| >= 2 && s[1] == QUOTE then
      match ReadRest(s[2..])
      case None => None
      case Some(r) => Some(([QUOTE] + r.0, r.1))
    else Some(("", s[1..]))
  }

  function ReadLiteral(s: string): Option<(string, string)> {
    if s != "" && s[0] == QUOTE then ReadRest(s[1..]) else None
  }

  /** A fixed text and then a literal. */
  function ReadAfter(fixed: string, s: string): Option<(string, string)> {
    if fixed <= s then ReadLiteral(s[|fixed|..]) else None
  }

  /** An update of one row by its id: the URL and the id; anything else is an error. */
  function ReadStatement(s: string): Option<(string, string)> {
    match ReadAfter(SET_URL, s)
    case None => None
    case Some(url) =>
      match ReadAfter(WHERE_ID, url.1)
      case None => None
      case Some(id) => if id.1 == ";" then Some((url.0, id.0)) else None
  }

  /** The statements of one transaction, one after the other. */
  function RunScript(rows: seq<Row>, script: seq<string>): Result<seq<Row>, DbError> {
    if script == [] then Ok(rows)
    else
      var n := |script| - 1;
      match RunScript(rows, script[..n])
      case Err(e) => Err(e)
      case Ok(t) =>
        match ReadStatement(script[n])
        case None => Err(SyntaxError)
        case Some(u) => SetUrl(t, u.1, None, u.0)
  }

  function Rollback(rows: seq<Row>, plans: seq<RowPlan>): Result<seq<Row>, DbError> {
    RunScript(rows, Script(plans, |plans|))
  }

  /** No quote in a URL or an id that a statement carries. */
  predicate Quotable(plans: seq<RowPlan>) {
    forall i :: 0 <= i < |plans| && plans[i].decision == Rewrite ==> !HasQuote(plans[i])
  }

  predicate HasQuote(p: RowPlan) {
    QUOTE in p.oldUrl || QUOTE in p.imageId
  }

  // ---------------------------------------------------------------- without quotes

  lemma {:induction false} ReadPlain(a: string, rest: string)
    requires QUOTE !in a && (rest == "" || rest[0] != QUOTE)
    ensures ReadRest(a + [QUOTE] + rest) == Some((a, rest))
  {
    var s := a + [QUOTE] + rest;
    if a == "" {
      assert s[1..] == rest;
    } else {
      ReadPlain(a[1..], rest);
      assert a[0] in a && s[1..] == a[1..] + [QUOTE] + rest;
      assert [a[0]] + a[1..] == a;
    }
  }

  lemma ReadAfterPlain(fixed: string, a: string, rest: string)
    requires QUOTE !in a && (rest == "" || rest[0] != QUOTE)
    ensures ReadAfter(fixed, Quoted(fixed, a) + rest) == Some((a, rest))
  {
    var s := Quoted(fixed, a) + rest;
    ReadPlain(a, rest);
    assert s[|fixed|..][1..] == a + [QUOTE] + rest;
    assert s[|fixed|..][0] == QUOTE;
    assert fixed <= s;
  }

  lemma ReadsAsMeant(p: RowPlan)
    requires !HasQuote(p)
    ensures ReadStatement(StatementText(p)) == Some((p.oldUrl, p.imageId))
  {
    ReadAfterPlain(SET_URL, p.oldUrl, Quoted(WHERE_ID, p.imageId) + ";");
    ReadAfterPlain(WHERE_ID, p.imageId, ";");
  }

  lemma ScriptStep(plans: seq<RowPlan>, k: nat)
    requires k < |plans| && plans[k].decision == Rewrite
    ensures var s := Script(plans, k + 1);
            s != [] && s[..|s| - 1] == Script(plans, k) && s[|s| - 1] == StatementText(plans[k])
  {
  }

  /** Without quotes the script does what the plans say: each id gets its old URL back. */
  lemma {:induction false} ScriptMeans(rows: seq<Row>, plans: seq<RowPlan>, k: nat)
    requires WellPlanned(plans) && Quotable(plans) && k <= |plans|
    ensures RunScript(rows, Script(plans, k)) == After(rows, plans, false, k)
  {
    if k > 0 {
      ScriptMeans(rows, plans, k - 1);
      var p := plans[k - 1];
      if p.decision == Rewrite {
        ScriptStep(plans, k - 1);
        ReadsAsMeant(p);
      } else {
        assert Script(plans, k) == Script(plans, k - 1);
      }
    }
  }

  // ---------------------------------------------------------------- with quotes

  function Quotes(s: string): nat {
    if s == "" then 0 else (if s[0] == QUOTE then 1 else 0) + Quotes(s[1..])
  }

  lemma {:induction false} QuotesAppend(a: string, b: string)
    ensures Quotes(a + b) == Quotes(a) + Quotes(b)
  {
    if a == "" {
      assert a + b == b;
    } else {
      QuotesAppend(a[1..], b);
      assert (a + b)[1..] == a[1..] + b;
    }
  }

  lemma {:induction false} QuotesNone(s: string)
    ensures Quotes(s) == 0 <==> QUOTE !in s
  {
    if s != "" {
      QuotesNone(s[1..]);
      assert s == [s[0]] + s[1..];
    }
  }

  /** What a literal is made of: its value, one more character for every quote in it, and the closing quote. */
  lemma {:induction false} LiteralCounts(s: string)
    requires ReadRest(s).Some?
    ensures var (v, rest) := ReadRest(s).value;
            && |s| == |v| + Quotes(v) + 1 + |rest|
            && Quotes(s) == 2 * Quotes(v) + 1 + Quotes(rest)
  {
    if s[0] != QUOTE {
      LiteralCounts(s[1..]);
      var v := ReadRest(s[1..]).value.0;
      assert ([s[0]] + v)[1..] == v;
    } else if |s| >= 2 && s[1] == QUOTE {
      LiteralCounts(s[2..]);
      var v := ReadRest(s[2..]).value.0;
      assert ([QUOTE] + v)[1..] == v;
      assert s[1..][1..] == s[2..];
    }
  }

  lemma AfterCounts(fixed: string, s: string)
    requires QUOTE !in fixed && ReadAfter(fixed, s).Some?
    ensures var (v, rest) := ReadAfter(fixed, s).value;
            && |s| == |fixed| + 2 + |v| + Quotes(v) + |rest|
            && Quotes(s) == 2 + 2 * Quotes(v) + Quotes(rest)
  {
    QuotesNone(fixed);
    var t := s[|fixed|..];
    assert s == fixed + t;
    QuotesAppend(fixed, t);
    LiteralCounts(t[1..]);
  }

  function Weight(p: RowPlan): nat {
    |p.oldUrl| + |p.imageId|
  }

  lemma QuotedCounts(fixed: string, s: string)
    requires QUOTE !in fixed
    ensures |Quoted(fixed, s)| == |fixed| + |s| + 2 && Quotes(Quoted(fixed, s)) == Quotes(s) + 2
  {
    QuotesNone(fixed);
    QuotesAppend([QUOTE], s);
    QuotesAppend([QUOTE] + s, [QUOTE]);
    QuotesAppend(fixed, [QUOTE] + s + [QUOTE]);
  }

  lemma FixedTexts()
    ensures QUOTE !in SET_URL && QUOTE !in WHERE_ID && Quotes(";") == 0
  {
    QuotesNone(";");
  }

  lemma TextCounts(p: RowPlan)
    ensures |StatementText(p)| == |SET_URL| + |WHERE_ID| + 5 + Weight(p)
    ensures Quotes(StatementText(p)) == 4 + Quotes(p.oldUrl) + Quotes(p.imageId)
  {
    FixedTexts();
    QuotedCounts(SET_URL, p.oldUrl);
    QuotedCounts(WHERE_ID, p.imageId);
    QuotesAppend(Quoted(WHERE_ID, p.imageId), ";");
    QuotesAppend(Quoted(SET_URL, p.oldUrl), Quoted(WHERE_ID, p.imageId) + ";");
  }

  /** A statement that can be read names a URL and an id shorter by half of its quotes. */
  lemma ReadShortens(p: RowPlan)
    requires ReadStatement(StatementText(p)).Some?
    ensures var (url, id) := ReadStatement(StatementText(p)).value;
            && |url| + |id| + Quotes(url) + Quotes(id) == Weight(p)
            && 2 * (Quotes(url) + Quotes(id)) == Quotes(p.oldUrl) + Quotes(p.imageId)
  {
    TextCounts(p);
    FixedTexts();
    AfterCounts(SET_URL, StatementText(p));
    AfterCounts(WHERE_ID, ReadAfter(SET_URL, StatementText(p)).value.1);
  }

  /** Statement `m` of the script writes this URL to the row of this id. */
  predicate WritesTo(plans: seq<RowPlan>, m: nat, row: Row) {
    && m < |plans| && plans[m].decision == Rewrite
    && ReadStatement(StatementText(plans[m])) == Some((row.urlCdn, row.imageId))
  }

  /** A row whose URL the script has changed holds what some statement wrote to it. */
  lemma {:induction false} ChangedByStatement(rows: seq<Row>, plans: seq<RowPlan>, k: nat, i: nat)
    requires k <= |plans| && i < |rows| && RunScript(rows, Script(plans, k)).Ok?
    ensures var t := RunScript(rows, Script(plans, k)).value;
            && |t| == |rows| && t[i].imageId == rows[i].imageId
            && (t[i] == rows[i] || exists m: nat :: WritesTo(plans, m, t[i]))
  {
    if k > 0 {
      var p := plans[k - 1];
      if p.decision == Rewrite {
        ScriptStep(plans, k - 1);
        ChangedByStatement(rows, plans, k - 1, i);
        var t := RunScript(rows, Script(plans, k)).value;
        if t[i] != RunScript(rows, Script(plans, k - 1)).value[i] {
          assert WritesTo(plans, k - 1, t[i]);
        }
      } else {
        assert Script(plans, k) == Script(plans, k - 1);
        ChangedByStatement(rows, plans, k - 1, i);
      }
    }
  }

  function MaxWeight(plans: seq<RowPlan>): nat {
    if plans == [] then 0
    else
      var n := |plans| - 1;
      var m := MaxWeight(plans[..n]);
      if Weight(plans[n]) > m then Weight(plans[n]) else m
  }

  lemma {:induction false} MaxWeightIs(plans: seq<RowPlan>, i: nat)
    requires i < |plans|
    ensures Weight(plans[i]) <= MaxWeight(plans)
  {
    if i < |plans| - 1 {
      MaxWeightIs(plans[..|plans| - 1], i);
      assert plans[..|plans| - 1][i] == plans[i];
    }
  }

  lemma ReadIsLighter(p: RowPlan, q: RowPlan)
    requires HasQuote(q) && ReadStatement(StatementText(p)) == Some((q.oldUrl, q.imageId))
    ensures HasQuote(p) && Weight(p) > Weight(q)
  {
    ReadShortens(p);
    QuotesNone(q.oldUrl);
    QuotesNone(q.imageId);
    QuotesNone(p.oldUrl);
    QuotesNone(p.imageId);
  }

  /**
   To give a moved row its URL with a quote back, some statement must read as that
   URL, and as reading shortens, that statement is for a longer URL with quotes,
   which needs one longer still.
   */
  lemma {:induction false} QuotedIsNotRestored(rows: seq<Row>, plans: seq<RowPlan>, i: nat)
    requires Aligned(rows, plans) && Unpadded(rows, plans)
    requires i < |plans| && plans[i].decision == Rewrite && HasQuote(plans[i])
    ensures Rollback(Moved(rows, plans, |plans|), plans) != Ok(rows)
    decreases MaxWeight(plans) - Weight(plans[i])
  {
    var moved := Moved(rows, plans, |plans|);
    if Rollback(moved, plans) == Ok(rows) {
      ChangedByStatement(moved, plans, |plans|, i);
      assert moved[i] == MovedRow(rows, plans, |plans|, i);
      var m: nat :| WritesTo(plans, m, rows[i]);
      ReadIsLighter(plans[m], plans[i]);
      MaxWeightIs(plans, m);
      QuotedIsNotRestored(rows, plans, m);
    }
  }

  // ---------------------------------------------------------------- undoing

  /** Row `i` after the first `k` rollback statements. */
  function RestoredRow(rows: seq<Row>, plans: seq<RowPlan>, k: nat, i: nat): Row
    requires |plans| == |rows| && i < |rows|
  {
    if plans[i].newUrl.None? then rows[i]
    else if i < k then rows[i].(urlCdn := plans[i].oldUrl)
    else MovedRow(rows, plans, |rows|, i)
  }

  function Restored(rows: seq<Row>, plans: seq<RowPlan>, k: nat): seq<Row>
    requires |plans| == |rows|
  {
    seq(|rows|, i requires 0 <= i < |rows| => RestoredRow(rows, plans, k, i))
  }

  /** Some row was moved onto a URL that an earlier rewrite had just vacated. */
  predicate ReusesUrl(plans: seq<RowPlan>) {
    exists i, j :: 0 <= i < j < |plans| && plans[i].newUrl.Some? && plans[j].newUrl == Some(plans[i].oldUrl)
  }

  lemma {:induction false} RollbackSteps(rows: seq<Row>, plans: seq<RowPlan>, k: nat)
    requires Aligned(rows, plans) && WellPlanned(plans) && DistinctIds(rows) && k <= |plans|
    requires After(Moved(rows, plans, |plans|), plans, false, k).Ok?
    ensures After(Moved(rows, plans, |plans|), plans, false, k).value == Restored(rows, plans, k)
  {
    var moved := Moved(rows, plans, |plans|);
    if k > 0 {
      RollbackSteps(rows, plans, k - 1);
      var t := Restored(rows, plans, k - 1);
      forall i | 0 <= i < |rows| ensures Hits(t[i], plans[k - 1], false) <==> i == k - 1 {
        assert t[i].imageId == rows[i].imageId;
        assert plans[k - 1].imageId == rows[k - 1].imageId;
      }
    } else {
      assert moved == Restored(rows, plans, 0);
    }
  }

  lemma {:induction false} RollbackSucceeds(rows: seq<Row>, plans: seq<RowPlan>, k: nat)
    requires Aligned(rows, plans) && WellPlanned(plans) && DistinctIds(rows) && DistinctUrls(rows) && k <= |plans|
    requires forall i :: 0 <= i < |plans| && plans[i].newUrl.Some? ==> rows[i].urlCdn == plans[i].oldUrl
    requires !ReusesUrl(plans)
    ensures After(Moved(rows, plans, |plans|), plans, false, k).Ok?
  {
    if k > 0 {
      RollbackSucceeds(rows, plans, k - 1);
      RollbackSteps(rows, plans, k - 1);
      var t := Restored(rows, plans, k - 1);
      if plans[k - 1].newUrl.Some? {
        forall j | 0 <= j < |t| && !Hits(t[j], plans[k - 1], false) ensures t[j].urlCdn != plans[k - 1].oldUrl {
          assert t[j] == RestoredRow(rows, plans, k - 1, j);
          assert j != k - 1;
        }
      }
    }
  }

  /** A reused URL makes the first of the two rollback updates collide with the second row. */
  lemma {:induction false} RollbackCollides(rows: seq<Row>, plans: seq<RowPlan>, i: nat, j: nat)
    requires Aligned(rows, plans) && WellPlanned(plans) && DistinctIds(rows)
    requires i < j < |plans| && plans[i].newUrl.Some? && plans[j].newUrl == Some(plans[i].oldUrl)
    requires rows[j].urlCdn == plans[j].oldUrl
    ensures After(Moved(rows, plans, |plans|), plans, false, |plans|).Err?
  {
    var moved := Moved(rows, plans, |plans|);
    if After(moved, plans, false, i).Ok? {
      RollbackSteps(rows, plans, i);
      var t := Restored(rows, plans, i);
      assert t[i] == RestoredRow(rows, plans, i, i);
      assert t[j] == RestoredRow(rows, plans, i, j);
      assert Hits(t[i], plans[i], false) && !Hits(t[j], plans[i], false) by {
        assert plans[i].imageId == rows[i].imageId && rows[i].imageId != rows[j].imageId;
      }
      assert t[j].urlCdn == Target(plans[i], false);
      AfterErr(moved, plans, false, i + 1);
    } else {
      AfterErr(moved, plans, false, i);
    }
  }

  /** With no quotes and no padding it is the order of the updates that decides. */
  lemma {:induction false} PlainRollback(rows: seq<Row>, plans: seq<RowPlan>)
    requires Aligned(rows, plans) && WellPlanned(plans) && DistinctIds(rows) && DistinctUrls(rows)
    requires Quotable(plans)
    ensures Rollback(Moved(rows, plans, |plans|), plans) == Ok(rows) <==> Unpadded(rows, plans) && !ReusesUrl(plans)
  {
    var moved := Moved(rows, plans, |plans|);
    ScriptMeans(moved, plans, |plans|);
    var back := Rollback(moved, plans);
    if back.Ok? {
      RollbackSteps(rows, plans, |plans|);
      if back.value == rows {
        forall i | 0 <= i < |plans| && plans[i].newUrl.Some? ensures rows[i].urlCdn == plans[i].oldUrl {
          assert back.value[i] == RestoredRow(rows, plans, |plans|, i);
        }
        if i, j :| 0 <= i < j < |plans| && plans[i].newUrl.Some? && plans[j].newUrl == Some(plans[i].oldUrl) {
          RollbackCollides(rows, plans, i, j);
        }
      }
    }
    if !ReusesUrl(plans) && Unpadded(rows, plans) {
      RollbackSucceeds(rows, plans, |plans|);
      assert Restored(rows, plans, |plans|) == rows;
    }
  }

  /**
   With no edit in between, running the exported script gives back the table
   exactly when no statement carries a quote (nothing is escaped), no rewritten
   URL was stored with white space around it (the plan holds the trimmed text),
   and no row was moved onto a URL that an earlier rewrite had vacated (the
   statements run in plan order, so the UNIQUE constraint then stops the script).
   Padding and quotes together are `PaddingMayHideQuotes`.
   */
  lemma {:induction false} RollbackUndoesApply(rows: seq<Row>, plans: seq<RowPlan>)
    requires Aligned(rows, plans) && WellPlanned(plans) && DistinctIds(rows) && DistinctUrls(rows)
    requires After(rows, plans, true, |plans|).Ok?
    requires Quotable(plans) || Unpadded(rows, plans)
    ensures Rollback(Committed(rows, plans, true), plans) == Ok(rows) <==>
            Quotable(plans) && Unpadded(rows, plans) && !ReusesUrl(plans)
  {
    AfterIsMoved(rows, plans, |plans|);
    if Quotable(plans) {
      PlainRollback(rows, plans);
    } else {
      var i :| 0 <= i < |plans| && plans[i].decision == Rewrite && HasQuote(plans[i]);
      QuotedIsNotRestored(rows, plans, i);
    }
  }
}
