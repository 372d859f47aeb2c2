/**
 The paged leads list (api/application/services/crm_lead_query.py) over the
 keyset SELECT of api/infrastructure/adapters/postgres_leads.py. A creation time
 is a number of microseconds; ISO dates and UTF-8 are parameters.
 */
module LeadsPaging {
  import opened Common
  import opened Filtering
  import Base64Url
  import Decimal

  datatype Lead = Lead(id: int, createdAt: int, sales: Option<int>)

  /** ISO dates (with a final Z already spelled out as +00:00) and UTF-8; None where they raise. */
  datatype Codec = Codec(
    iso: int -> string,
    fromIso: string -> Option<int>,
    utf8: string -> seq<Base64Url.byte>,
    fromUtf8: seq<Base64Url.byte> -> Option<string>)

  // ---------------------------------------------------------------- cursors

  predicate IsBar(c: char) { c == '|' }

  /** Position of the last bar. */
  function LastBar(s: string): Option<nat> {
    if s == "" then None
    else if IsBar(s[|s| - 1]) then Some(|s| - 1)
    else LastBar(s[..|s| - 1])
  }

  lemma {:induction false} LastBarBound(s: string)
    ensures LastBar(s).Some? ==> LastBar(s).value < |s|
  {
    if s != "" && !IsBar(s[|s| - 1]) {
      LastBarBound(s[..|s| - 1]);
    }
  }

  function Payload(codec: Codec, createdAt: int, id: int): string {
    codec.iso(createdAt) + "|" + Decimal.Show(id)
  }

  /** `encode_leads_cursor`: the padding stays. */
  function EncodeCursor(codec: Codec, createdAt: int, id: int): string {
    Base64Url.Encode(codec.utf8(Payload(codec, createdAt, id)))
  }

  /** What the text in front of the last bar is parsed as. */
  function NormalizeZ(s: string): string {
    if s != "" && s[|s| - 1] == 'Z' then s[..|s| - 1] + "+00:00" else s
  }

  /** `decode_leads_cursor`; None where it raises ValueError. */
  function DecodeCursor(codec: Codec, cursor: string): Option<(int, int)> {
    match Base64Url.Decode(cursor)
    case None => None
    case Some(b) =>
      match codec.fromUtf8(b)
      case None => None
      case Some(raw) =>
        match LastBar(raw)
        case None => None
        case Some(i) =>
          LastBarBound(raw);
          match codec.fromIso(NormalizeZ(raw[..i]))
          case None => None
          case Some(createdAt) =>
            match Decimal.Read(raw[i + 1..])
            case None => None
            case Some(id) => Some((createdAt, id))
  }

  /** Dates and text of this lead survive printing and parsing. */
  ghost predicate RoundTrips(codec: Codec, createdAt: int, id: int) {
    && codec.fromIso(NormalizeZ(codec.iso(createdAt))) == Some(createdAt)
    && codec.fromUtf8(codec.utf8(Payload(codec, createdAt, id))) == Some(Payload(codec, createdAt, id))
    && codec.utf8(Payload(codec, createdAt, id)) != []
  }

  lemma {:induction false} LastBarIs(a: string, b: string)
    requires forall i :: 0 <= i < |b| ==> !IsBar(b[i])
    ensures LastBar(a + "|" + b) == Some(|a|)
  {
    var s := a + "|" + b;
    if b == "" {
      assert s == a + "|";
    } else {
      assert s[..|s| - 1] == a + "|" + b[..|b| - 1];
      LastBarIs(a, b[..|b| - 1]);
    }
  }

  /** Decoding undoes encoding, and an encoded cursor is never the empty one. */
  lemma {:induction false} DecodeUndoesEncode(codec: Codec, createdAt: int, id: int)
    requires RoundTrips(codec, createdAt, id)
    ensures EncodeCursor(codec, createdAt, id) != ""
    ensures DecodeCursor(codec, EncodeCursor(codec, createdAt, id)) == Some((createdAt, id))
  {
    var raw := Payload(codec, createdAt, id);
    Base64Url.DecodeUndoesEncode(codec.utf8(raw));
    Decimal.ShowHolds(id, '|');
    LastBarIs(codec.iso(createdAt), Decimal.Show(id));
    Decimal.ReadUndoesShow(id);
    assert raw[..|codec.iso(createdAt)|] == codec.iso(createdAt);
    assert raw[|codec.iso(createdAt)| + 1..] == Decimal.Show(id);
  }

  /**
   How any text with a bar is read: a date in front of its last bar, a final Z of it
   meaning UTC, and an id behind; refused if either cannot be read.
   */
  lemma {:induction false} DecodeIs(codec: Codec, date: string, id: string)
    requires forall i :: 0 <= i < |id| ==> id[i] != '|'
    requires codec.fromUtf8(codec.utf8(date + "|" + id)) == Some(date + "|" + id)
    ensures var spelled := if date != "" && date[|date| - 1] == 'Z' then date[..|date| - 1] + "+00:00" else date;
            var at, n := codec.fromIso(spelled), Decimal.Read(id);
            DecodeCursor(codec, Base64Url.Encode(codec.utf8(date + "|" + id)))
            == if at.Some? && n.Some? then Some((at.value, n.value)) else None
  {
    var raw := date + "|" + id;
    Base64Url.DecodeUndoesEncode(codec.utf8(raw));
    LastBarIs(date, id);
    assert raw[..|date|] == date && raw[|date| + 1..] == id;
  }

  /** The two codec functions as the paging uses them. */
  datatype Cursors = Cursors(encode: (int, int) -> string, decode: string -> Option<(int, int)>)

  function CursorsOf(codec: Codec): Cursors {
    Cursors((createdAt, id) => EncodeCursor(codec, createdAt, id), cursor => DecodeCursor(codec, cursor))
  }

  /** A lead's position survives being written as a cursor and read back. */
  ghost predicate Works(cursors: Cursors, createdAt: int, id: int) {
    var c := cursors.encode(createdAt, id);
    c != "" && cursors.decode(c) == Some((createdAt, id))
  }

  lemma {:induction false} CodecWorks(codec: Codec, createdAt: int, id: int)
    requires RoundTrips(codec, createdAt, id)
    ensures Works(CursorsOf(codec), createdAt, id)
  {
    DecodeUndoesEncode(codec, createdAt, id);
  }

  // ---------------------------------------------------------------- the repository

  predicate Newer(a: Lead, createdAt: int, id: int) {
    a.createdAt > createdAt || (a.createdAt == createdAt && a.id > id)
  }

  /** `(created_at, id) < (c, i)` */
  predicate Older(a: Lead, createdAt: int, id: int) {
    a.createdAt < createdAt || (a.createdAt == createdAt && a.id < id)
  }

  /** The leads table in the order of the query; ids are unique, so the order is strict. */
  ghost predicate NewestFirst(table: seq<Lead>) {
    forall i, j :: 0 <= i < j < |table| ==> Newer(table[i], table[j].createdAt, table[j].id)
  }

  function Take(rows: seq<Lead>, limit: nat): seq<Lead> {
    if |rows| <= limit then rows else rows[..limit]
  }

  function InScope(scope: Option<int>, matches: Lead -> bool): Lead -> bool {
    (l: Lead) => (scope.Some? ==> l.sales == scope) && matches(l)
  }

  function AfterCursor(scope: Option<int>, matches: Lead -> bool, cursor: Option<(int, int)>): Lead -> bool {
    (l: Lead) => InScope(scope, matches)(l) && (cursor.Some? ==> Older(l, cursor.value.0, cursor.value.1))
  }

  /** `search_crm_leads`; `matches` is the project, status and re-engagement filter. */
  function Search(table: seq<Lead>, scope: Option<int>, matches: Lead -> bool, cursor: Option<(int, int)>, limit: nat): seq<Lead> {
    Take(Filter(AfterCursor(scope, matches, cursor), table), limit)
  }

  // ---------------------------------------------------------------- one page

  datatype Principal = Principal(isSales: bool, salesId: Option<int>)

  datatype PageQuery = PageQuery(matches: Lead -> bool, cursor: Option<string>, limit: nat)

  /** `CrmLeadsPageQuery.__init__`: whatever limit is asked for, 1 to 100 is used. */
  function MakeQuery(matches: Lead -> bool, cursor: Option<string>, limit: int): (q: PageQuery)
    ensures 1 <= q.limit <= 100 && (1 <= limit <= 100 ==> q.limit == limit)
    ensures (limit < 1 ==> q.limit == 1) && (limit > 100 ==> q.limit == 100)
    ensures q.matches == matches && q.cursor == cursor
  {
    var atLeastOne := if limit > 1 then limit else 1;
    PageQuery(matches, cursor, if atLeastOne < 100 then atLeastOne else 100)
  }

  datatype Page = Page(rows: seq<Lead>, hasMore: bool, nextCursor: Option<string>)

  datatype CursorError = InvalidCursor

  /** The position a query starts after; an absent or empty cursor means the start. */
  function StartOf(cursors: Cursors, cursor: Option<string>): Result<Option<(int, int)>, CursorError> {
    if cursor.None? || cursor.value == "" then Ok(Option.None)
    else match cursors.decode(cursor.value)
      case None => Err(InvalidCursor)
      case Some(at) => Ok(Some(at))
  }

  function PageOf(cursors: Cursors, rows: seq<Lead>, limit: nat): Page {
    var hasMore := |rows| > limit;
    var page := Take(rows, limit);
    Page(page, hasMore,
         if hasMore && page != [] then Some(cursors.encode(page[|page| - 1].createdAt, page[|page| - 1].id)) else None)
  }

  /** `query_crm_leads_page` */
  function QueryPage(cursors: Cursors, table: seq<Lead>, who: Principal, q: PageQuery): Result<Page, CursorError> {
    if who.isSales && who.salesId.None? then Ok(Page([], false, None))
    else match StartOf(cursors, q.cursor)
      case Err(e) => Err(e)
      case Ok(start) =>
        Ok(PageOf(cursors, Search(table, if who.isSales then who.salesId else None, q.matches, start, q.limit + 1), q.limit))
  }

  /** Everything the principal may see of what the filter matches, in order. */
  function Visible(table: seq<Lead>, who: Principal, matches: Lead -> bool): seq<Lead> {
    if who.isSales && who.salesId.None? then []
    else Filter(InScope(if who.isSales then who.salesId else None, matches), table)
  }

  // ---------------------------------------------------------------- the keyset step

  lemma {:induction false} FilterKeepsOrder(p: Lead -> bool, table: seq<Lead>)
    requires NewestFirst(table)
    ensures NewestFirst(Filter(p, table))
  {
    if table != [] {
      var front, last := table[..|table| - 1], table[|table| - 1];
      FilterKeepsOrder(p, front);
      var f := Filter(p, front);
      forall n | 0 <= n < |f| ensures Newer(f[n], last.createdAt, last.id) {
        FilterIn(p, front, n);
        var i :| 0 <= i < |front| && front[i] == f[n];
        assert table[i] == f[n];
      }
    }
  }

  /** The rows strictly after a row of an ordered list are those behind it. */
  lemma {:induction false} OlderIsTheRest(rows: seq<Lead>, k: nat, older: Lead -> bool)
    requires NewestFirst(rows) && 1 <= k <= |rows|
    requires forall l :: older(l) <==> Older(l, rows[k - 1].createdAt, rows[k - 1].id)
    ensures Filter(older, rows) == rows[k..]
  {
    var front, back := rows[..k], rows[k..];
    assert rows == front + back;
    FilterAppend(older, front, back);
    forall n | 0 <= n < |front| ensures !older(front[n]) {
      assert n < k - 1 ==> Newer(rows[n], rows[k - 1].createdAt, rows[k - 1].id);
    }
    FilterNone(older, front);
    forall n | 0 <= n < |back| ensures older(back[n]) {
      assert Newer(rows[k - 1], rows[k + n].createdAt, rows[k + n].id);
    }
    FilterAll(older, back);
  }

  lemma {:induction false} FilterBoth<T>(p: T -> bool, q: T -> bool, both: T -> bool, s: seq<T>)
    requires forall n :: 0 <= n < |s| ==> (both(s[n]) <==> p(s[n]) && q(s[n]))
    ensures Filter(both, s) == Filter(q, Filter(p, s))
  {
    if s != [] {
      var front, last := s[..|s| - 1], s[|s| - 1];
      FilterBoth(p, q, both, front);
      FilterAppend(q, Filter(p, front), if p(last) then [last] else []);
      assert [last][..0] == [];
    }
  }

  /** Continuing after the k-th visible row yields the rows behind it. */
  lemma {:induction false} SearchContinues(
    table: seq<Lead>, scope: Option<int>, matches: Lead -> bool, rows: seq<Lead>, k: nat, limit: nat)
    requires NewestFirst(table) && rows == Filter(InScope(scope, matches), table) && 1 <= k <= |rows|
    ensures Search(table, scope, matches, Some((rows[k - 1].createdAt, rows[k - 1].id)), limit) == Take(rows[k..], limit)
  {
    var at := (rows[k - 1].createdAt, rows[k - 1].id);
    var older := (l: Lead) => Older(l, at.0, at.1);
    FilterBoth(InScope(scope, matches), older, AfterCursor(scope, matches, Some(at)), table);
    FilterKeepsOrder(InScope(scope, matches), table);
    OlderIsTheRest(rows, k, older);
  }

  lemma {:induction false} SearchStarts(table: seq<Lead>, scope: Option<int>, matches: Lead -> bool, limit: nat)
    ensures Search(table, scope, matches, None, limit) == Take(Filter(InScope(scope, matches), table), limit)
  {
    FilterBoth(InScope(scope, matches), (l: Lead) => true, AfterCursor(scope, matches, None), table);
    FilterAll((l: Lead) => true, Filter(InScope(scope, matches), table));
  }

  // ---------------------------------------------------------------- following the cursor

  /** A listing whose pages are fetched by cursor. */
  type Listing = Option<string> -> Result<Page, CursorError>

  function ListingOf(cursors: Cursors, table: seq<Lead>, who: Principal, q: PageQuery): Listing {
    cursor => QueryPage(cursors, table, who, q.(cursor := cursor))
  }

  /** A client's run: `n` requests at most, each with the cursor the page before gave, stopping where there is none. */
  function Follow(listing: Listing, cursor: Option<string>, n: nat): seq<Result<Page, CursorError>>
    decreases n
  {
    if n == 0 then []
    else
      var page := listing(cursor);
      if page.Ok? && page.value.nextCursor.Some?
      then [page] + Follow(listing, page.value.nextCursor, n - 1)
      else [page]
  }

  /** The pages a list of rows is cut into. */
  function Cut(cursors: Cursors, rows: seq<Lead>, limit: nat): seq<Result<Page, CursorError>>
    requires limit >= 1
    decreases |rows|
  {
    if |rows| <= limit then [Ok(PageOf(cursors, rows, limit))]
    else [Ok(PageOf(cursors, Take(rows, limit + 1), limit))] + Cut(cursors, rows[limit..], limit)
  }

  /** The cursor that stands behind the first `k` rows. */
  function Behind(cursors: Cursors, rows: seq<Lead>, k: nat): Option<string>
    requires k <= |rows|
  {
    if k == 0 then None else Some(cursors.encode(rows[k - 1].createdAt, rows[k - 1].id))
  }

  ghost predicate AllWork(cursors: Cursors, rows: seq<Lead>) {
    forall i :: 0 <= i < |rows| ==> Works(cursors, rows[i].createdAt, rows[i].id)
  }

  /** Asked with the cursor behind the first `k` rows, the listing answers with a page of the rows after them. */
  ghost predicate Serves(cursors: Cursors, listing: Listing, rows: seq<Lead>, limit: nat, k: nat)
    requires k <= |rows|
  {
    listing(Behind(cursors, rows, k)) == Ok(PageOf(cursors, Take(rows[k..], limit + 1), limit))
  }

  lemma {:induction false} PageBehind(cursors: Cursors, table: seq<Lead>, who: Principal, q: PageQuery, rows: seq<Lead>, k: nat)
    requires NewestFirst(table) && rows == Visible(table, who, q.matches) && AllWork(cursors, rows) && k <= |rows|
    ensures Serves(cursors, ListingOf(cursors, table, who, q), rows, q.limit, k)
  {
    var scope := if who.isSales then who.salesId else None;
    if who.isSales && who.salesId.None? {
    } else if k == 0 {
      SearchStarts(table, scope, q.matches, q.limit + 1);
      assert rows[0..] == rows;
    } else {
      assert Works(cursors, rows[k - 1].createdAt, rows[k - 1].id);
      SearchContinues(table, scope, q.matches, rows, k, q.limit + 1);
    }
  }

  lemma {:induction false} CutMore(cursors: Cursors, rows: seq<Lead>, limit: nat)
    requires limit >= 1 && |rows| > limit
    ensures Cut(cursors, rows, limit) == [Ok(PageOf(cursors, Take(rows, limit + 1), limit))] + Cut(cursors, rows[limit..], limit)
    ensures PageOf(cursors, Take(rows, limit + 1), limit).rows == rows[..limit]
    ensures PageOf(cursors, Take(rows, limit + 1), limit).nextCursor == Behind(cursors, rows, limit)
  {
  }

  lemma {:induction false} FollowMore(listing: Listing, cursor: Option<string>, n: nat, page: Page, next: Option<string>)
    requires n > 0 && listing(cursor) == Ok(page) && page.nextCursor == next && next.Some?
    ensures Follow(listing, cursor, n) == [Ok(page)] + Follow(listing, next, n - 1)
  {
  }

  lemma {:induction false} FollowLast(listing: Listing, cursor: Option<string>, n: nat, page: Page)
    requires n > 0 && listing(cursor) == Ok(page) && page.nextCursor.None?
    ensures Follow(listing, cursor, n) == [Ok(page)]
  {
  }

  lemma {:induction false} LastPage(cursors: Cursors, rows: seq<Lead>, limit: nat)
    requires |rows| <= limit
    ensures PageOf(cursors, Take(rows, limit + 1), limit) == PageOf(cursors, rows, limit) == Page(rows, false, None)
  {
  }

  /** From this cursor on the listing serves these rows, page by page. */
  ghost predicate ServesFrom(cursors: Cursors, listing: Listing, cursor: Option<string>, rest: seq<Lead>, limit: nat)
    requires limit >= 1
    decreases |rest|
  {
    && listing(cursor) == Ok(PageOf(cursors, Take(rest, limit + 1), limit))
    && (|rest| > limit ==> ServesFrom(cursors, listing, Behind(cursors, rest, limit), rest[limit..], limit))
  }

  lemma {:induction false} ServesBehind(cursors: Cursors, listing: Listing, rows: seq<Lead>, limit: nat, k: nat)
    requires limit >= 1 && k <= |rows|
    requires forall i: nat :: i <= |rows| ==> Serves(cursors, listing, rows, limit, i)
    ensures ServesFrom(cursors, listing, Behind(cursors, rows, k), rows[k..], limit)
    decreases |rows| - k
  {
    assert Serves(cursors, listing, rows, limit, k);
    if |rows| - k > limit {
      ServesBehind(cursors, listing, rows, limit, k + limit);
      assert rows[k..][limit..] == rows[k + limit..];
      assert Behind(cursors, rows[k..], limit) == Behind(cursors, rows, k + limit);
    }
  }

  /** The client receives the pages the rows are cut into, and asks no further. */
  lemma {:induction false} FollowIsCut(cursors: Cursors, listing: Listing, cursor: Option<string>, rest: seq<Lead>, limit: nat, n: nat)
    requires limit >= 1 && ServesFrom(cursors, listing, cursor, rest, limit)
    requires n >= |Cut(cursors, rest, limit)|
    ensures Follow(listing, cursor, n) == Cut(cursors, rest, limit)
    decreases |rest|
  {
    if |rest| > limit {
      var next := Behind(cursors, rest, limit);
      CutMore(cursors, rest, limit);
      FollowIsCut(cursors, listing, next, rest[limit..], limit, n - 1);
      FollowMore(listing, cursor, n, PageOf(cursors, Take(rest, limit + 1), limit), next);
    } else {
      LastPage(cursors, rest, limit);
      FollowLast(listing, cursor, n, PageOf(cursors, rest, limit));
    }
  }

  /** Stopping after fewer requests leaves the first of those pages. */
  lemma {:induction false} FollowIsPrefix(listing: Listing, cursor: Option<string>, m: nat, n: nat)
    requires m <= |Follow(listing, cursor, n)|
    ensures Follow(listing, cursor, m) == Follow(listing, cursor, n)[..m]
    decreases m
  {
    if m > 0 {
      var page := listing(cursor);
      if page.Ok? && page.value.nextCursor.Some? {
        FollowIsPrefix(listing, page.value.nextCursor, m - 1, n - 1);
      }
    }
  }

  // ---------------------------------------------------------------- what the pages hold

  function RowsOf(pages: seq<Result<Page, CursorError>>): seq<Lead> {
    if pages == [] then []
    else (match pages[0] case Ok(p) => p.rows case Err(_) => []) + RowsOf(pages[1..])
  }

  lemma {:induction false} RowsOfCons(page: Result<Page, CursorError>, pages: seq<Result<Page, CursorError>>)
    requires page.Ok?
    ensures RowsOf([page] + pages) == page.value.rows + RowsOf(pages)
  {
  }

  /** How many groups of `d` hold `n`. */
  function CeilDiv(n: nat, d: nat): nat
    requires d >= 1
  {
    if n == 0 then 0 else if n <= d then 1 else 1 + CeilDiv(n - d, d)
  }

  /** That is the least count whose groups hold them all. */
  lemma {:induction false} CeilDivIsLeast(n: nat, d: nat)
    requires d >= 1
    ensures CeilDiv(n, d) * d >= n
    ensures n > 0 ==> (CeilDiv(n, d) - 1) * d < n
  {
    if n > d {
      var c := CeilDiv(n - d, d);
      CeilDivIsLeast(n - d, d);
      assert (1 + c) * d == d + c * d;
      assert c * d == d + (c - 1) * d;
    }
  }

  /** Even an empty list takes one page. */
  function PageCount(n: nat, limit: nat): nat
    requires limit >= 1
  {
    if n == 0 then 1 else CeilDiv(n, limit)
  }

  lemma {:induction false} CutHoldsAll(cursors: Cursors, rows: seq<Lead>, limit: nat)
    requires limit >= 1
    ensures RowsOf(Cut(cursors, rows, limit)) == rows
    ensures |Cut(cursors, rows, limit)| == PageCount(|rows|, limit)
    decreases |rows|
  {
    if |rows| <= limit {
      RowsOfCons(Ok(PageOf(cursors, rows, limit)), []);
    } else {
      CutHoldsAll(cursors, rows[limit..], limit);
      CutMore(cursors, rows, limit);
      RowsOfCons(Ok(PageOf(cursors, Take(rows, limit + 1), limit)), Cut(cursors, rows[limit..], limit));
      assert rows == rows[..limit] + rows[limit..];
    }
  }

  /**
   Following the cursor from the start visits every visible row exactly once, in
   order, in max(1, ceil(rows / limit)) pages, and then stops by itself.
   */
  lemma {:induction false} FollowingVisitsAllOnce(
    cursors: Cursors, table: seq<Lead>, who: Principal, matches: Lead -> bool, asked: int, rows: seq<Lead>, n: nat)
    requires NewestFirst(table) && rows == Visible(table, who, matches) && AllWork(cursors, rows)
    ensures var q := MakeQuery(matches, None, asked);
            var pages := Follow(ListingOf(cursors, table, who, q), None, n);
            var all := PageCount(|rows|, q.limit);
            && |pages| == (if n < all then n else all)
            && (forall m :: 0 <= m < |pages| ==> pages[m].Ok?)
            && (n >= all ==> RowsOf(pages) == rows)
  {
    var q := MakeQuery(matches, None, asked);
    var listing := ListingOf(cursors, table, who, q);
    var all := PageCount(|rows|, q.limit);
    forall k: nat | k <= |rows|
      ensures Serves(cursors, listing, rows, q.limit, k)
    {
      PageBehind(cursors, table, who, q, rows, k);
    }
    CutFollowed(cursors, listing, rows, q.limit, n);
  }

  lemma {:induction false} CutFollowed(cursors: Cursors, listing: Listing, rows: seq<Lead>, limit: nat, n: nat)
    requires limit >= 1
    requires forall i: nat :: i <= |rows| ==> Serves(cursors, listing, rows, limit, i)
    ensures var pages := Follow(listing, None, n);
            var all := PageCount(|rows|, limit);
            && |pages| == (if n < all then n else all)
            && (forall m :: 0 <= m < |pages| ==> pages[m].Ok?)
            && (n >= all ==> RowsOf(pages) == rows)
  {
    var all := PageCount(|rows|, limit);
    assert rows[0..] == rows;
    CutHoldsAll(cursors, rows, limit);
    CutHasNoErrors(cursors, rows, limit);
    ServesBehind(cursors, listing, rows, limit, 0);
    FollowIsCut(cursors, listing, None, rows, limit, if n < all then all else n);
    if n < all {
      FollowIsPrefix(listing, None, n, all);
    }
  }

  /** Page `m` holds the rows from `m * limit` on, as many as fit, and says whether there are more. */
  ghost predicate IsPage(page: Result<Page, CursorError>, rows: seq<Lead>, limit: nat, m: nat) {
    var start, end := m * limit, m * limit + limit;
    && page.Ok? && start <= |rows|
    && page.value.rows == rows[start..if end < |rows| then end else |rows|]
    && (page.value.hasMore <==> end < |rows|)
    && (page.value.nextCursor.Some? <==> page.value.hasMore)
  }

  lemma {:induction false} CutAt(cursors: Cursors, rows: seq<Lead>, limit: nat, m: nat)
    requires limit >= 1 && m < |Cut(cursors, rows, limit)|
    ensures IsPage(Cut(cursors, rows, limit)[m], rows, limit, m)
    decreases |rows|
  {
    if |rows| <= limit {
      assert m == 0;
    } else {
      CutMore(cursors, rows, limit);
      if m == 0 {
        assert Cut(cursors, rows, limit)[0] == Ok(PageOf(cursors, Take(rows, limit + 1), limit));
      } else {
        CutAt(cursors, rows[limit..], limit, m - 1);
        PageBehindFirst(Cut(cursors, rows, limit)[m], rows, limit, m - 1);
      }
    }
  }

  lemma {:induction false} PageBehindFirst(page: Result<Page, CursorError>, rows: seq<Lead>, limit: nat, m: nat)
    requires |rows| > limit >= 1 && IsPage(page, rows[limit..], limit, m)
    ensures IsPage(page, rows, limit, m + 1)
  {
    assert (m + 1) * limit == m * limit + limit;
    var rest, start := rows[limit..], m * limit;
    var end := if start + limit < |rest| then start + limit else |rest|;
    assert rest[start..end] == rows[limit + start..limit + end];
  }

  /** Every page that is followed is full, except the last, and says exactly whether there are more. */
  lemma {:induction false} PagesAreFull(
    cursors: Cursors, table: seq<Lead>, who: Principal, matches: Lead -> bool, asked: int, rows: seq<Lead>, n: nat, m: nat)
    requires NewestFirst(table) && rows == Visible(table, who, matches) && AllWork(cursors, rows)
    requires m < |Follow(ListingOf(cursors, table, who, MakeQuery(matches, None, asked)), None, n)|
    ensures var q := MakeQuery(matches, None, asked);
            IsPage(Follow(ListingOf(cursors, table, who, q), None, n)[m], rows, q.limit, m)
  {
    var q := MakeQuery(matches, None, asked);
    var listing := ListingOf(cursors, table, who, q);
    var pages := Cut(cursors, rows, q.limit);
    forall k: nat | k <= |rows| ensures Serves(cursors, listing, rows, q.limit, k) {
      PageBehind(cursors, table, who, q, rows, k);
    }
    assert rows[0..] == rows;
    ServesBehind(cursors, listing, rows, q.limit, 0);
    var most := if n < |pages| then |pages| else n;
    FollowIsCut(cursors, listing, None, rows, q.limit, most);
    FollowNoLonger(listing, None, n);
    if n < |pages| {
      FollowIsPrefix(listing, None, n, most);
    }
    CutAt(cursors, rows, q.limit, m);
  }

  lemma {:induction false} FollowNoLonger(listing: Listing, cursor: Option<string>, n: nat)
    ensures |Follow(listing, cursor, n)| <= n
    decreases n
  {
    if n > 0 && listing(cursor).Ok? && listing(cursor).value.nextCursor.Some? {
      FollowNoLonger(listing, listing(cursor).value.nextCursor, n - 1);
    }
  }

  /** What a principal may see: what the filter matches, and a sales person only of it what is assigned to them. */
  lemma {:induction false} VisibleExactlyWhen(table: seq<Lead>, who: Principal, matches: Lead -> bool, l: Lead)
    ensures l in Visible(table, who, matches) <==>
            l in table && matches(l) && (who.isSales ==> who.salesId.Some? && l.sales == who.salesId)
  {
    var scope := if who.isSales then who.salesId else None;
    if !(who.isSales && who.salesId.None?) {
      FilterExactly(InScope(scope, matches), table, l);
    }
  }

  lemma {:induction false} FilterExactly<T>(p: T -> bool, s: seq<T>, x: T)
    ensures x in Filter(p, s) <==> x in s && p(x)
  {
    if s != [] {
      FilterExactly(p, s[..|s| - 1], x);
      assert s == s[..|s| - 1] + [s[|s| - 1]];
    }
  }

  /** A cursor that cannot be read is refused; none, or an empty one, starts at the top. */
  lemma {:induction false} CursorsAreRead(cursors: Cursors, table: seq<Lead>, who: Principal, q: PageQuery)
    requires !(who.isSales && who.salesId.None?)
    ensures QueryPage(cursors, table, who, q).Err? <==>
            q.cursor.Some? && q.cursor.value != "" && cursors.decode(q.cursor.value).None?
    ensures q.cursor == Some("") ==> QueryPage(cursors, table, who, q) == QueryPage(cursors, table, who, q.(cursor := None))
  {
  }

  lemma {:induction false} CutHasNoErrors(cursors: Cursors, rows: seq<Lead>, limit: nat)
    requires limit >= 1
    ensures forall m :: 0 <= m < |Cut(cursors, rows, limit)| ==> Cut(cursors, rows, limit)[m].Ok?
    decreases |rows|
  {
    if |rows| > limit {
      CutHasNoErrors(cursors, rows[limit..], limit);
    }
  }

  /** No page, whatever cursor it is asked with, shows a sales principal another's lead. */
  lemma {:induction false} SalesSeesOnlyOwn(cursors: Cursors, table: seq<Lead>, who: Principal, q: PageQuery, n: nat)
    requires who.isSales && QueryPage(cursors, table, who, q).Ok?
    requires n < |QueryPage(cursors, table, who, q).value.rows|
    ensures QueryPage(cursors, table, who, q).value.rows[n].sales == who.salesId && who.salesId.Some?
  {
    if who.salesId.Some? {
      var start := StartOf(cursors, q.cursor).value;
      var p := AfterCursor(who.salesId, q.matches, start);
      assert QueryPage(cursors, table, who, q).value.rows[n] == Filter(p, table)[n];
      FilterIn(p, table, n);
      assert InScope(who.salesId, q.matches)(Filter(p, table)[n]);
    }
  }

  /** So it is with the cursors of the source, for leads whose dates and text survive printing. */
  lemma {:induction false} CodecVisitsAllOnce(
    codec: Codec, table: seq<Lead>, who: Principal, matches: Lead -> bool, asked: int, rows: seq<Lead>)
    requires NewestFirst(table) && rows == Visible(table, who, matches)
    requires forall i :: 0 <= i < |rows| ==> RoundTrips(codec, rows[i].createdAt, rows[i].id)
    ensures var q := MakeQuery(matches, None, asked);
            var all := PageCount(|rows|, q.limit);
            var pages := Follow(ListingOf(CursorsOf(codec), table, who, q), None, all);
            |pages| == all && RowsOf(pages) == rows
  {
    forall i | 0 <= i < |rows| ensures Works(CursorsOf(codec), rows[i].createdAt, rows[i].id) {
      CodecWorks(codec, rows[i].createdAt, rows[i].id);
    }
    FollowingVisitsAllOnce(CursorsOf(codec), table, who, matches, asked, rows, PageCount(|rows|, MakeQuery(matches, None, asked).limit));
  }
}
