/** The activity feed: filters, newest-first order and the two-key cursor. */
module ActivityListing {
  import opened Wrappers
  import opened Paging

  datatype Row = Row(id: int, ts: int, source: string, actorId: string, status: int, text: string)

  /** Empty strings and non-positive numbers mean "no filter". */
  datatype Filter = Filter(source: string, actorId: string, sinceMs: int, untilMs: int,
                           statusMin: int, statusMax: int, search: string, limit: int,
                           cursor: int, cursorId: int)

  /** The ordering tuple of a row. */
  datatype Stamp = Stamp(ts: int, id: int)

  function StampOf(r: Row): Stamp { Stamp(r.ts, r.id) }

  /** `ORDER BY ts DESC, id DESC`. */
  predicate Newer(a: Stamp, b: Stamp) { a.ts > b.ts || (a.ts == b.ts && a.id > b.id) }

  lemma NewerIsStrict()
    ensures StrictOrder(Newer)
  {
  }

  function ClampLimit(limit: int): nat {
    if limit <= 0 then 200 else if limit > 1000 then 1000 else limit
  }

  predicate Selected(f: Filter, like: (string, string) -> bool, r: Row) {
    && (f.source != "" ==> r.source == f.source)
    && (f.actorId != "" ==> r.actorId == f.actorId)
    && (f.sinceMs > 0 ==> r.ts >= f.sinceMs)
    && (f.untilMs > 0 ==> r.ts < f.untilMs)
    && (f.statusMax > 0 ==> r.status <= f.statusMax)
    && (f.statusMin > 0 ==> r.status >= f.statusMin)
    && (f.search != "" ==> like(r.text, f.search))
  }

  predicate BeyondCursor(f: Filter, s: Stamp) {
    f.cursor > 0 ==>
      if f.cursorId > 0 then s.ts < f.cursor || (s.ts == f.cursor && s.id < f.cursorId) else s.ts < f.cursor
  }

  ghost predicate AllHold(conds: seq<Row -> bool>, r: Row) {
    forall i :: 0 <= i < |conds| ==> conds[i](r)
  }

  lemma AllHoldAppend(conds: seq<Row -> bool>, c: Row -> bool, r: Row)
    ensures AllHold(conds + [c], r) <==> AllHold(conds, r) && c(r)
  {
    if AllHold(conds + [c], r) {
      forall i | 0 <= i < |conds| ensures conds[i](r) {
        assert (conds + [c])[i](r);
      }
      assert (conds + [c])[|conds|](r);
    }
  }

  /** Appends one condition when its filter is set. */
  method AddWhen(conds: seq<Row -> bool>, present: bool, c: Row -> bool) returns (more: seq<Row -> bool>)
    ensures forall r :: AllHold(more, r) <==> AllHold(conds, r) && (present ==> c(r))
  {
    more := conds;
    if present {
      more := conds + [c];
      forall r ensures AllHold(more, r) <==> AllHold(conds, r) && c(r) {
        AllHoldAppend(conds, c, r);
      }
    }
  }

  predicate WhoAndWhen(f: Filter, r: Row) {
    && (f.source != "" ==> r.source == f.source)
    && (f.actorId != "" ==> r.actorId == f.actorId)
    && (f.sinceMs > 0 ==> r.ts >= f.sinceMs)
    && (f.untilMs > 0 ==> r.ts < f.untilMs)
  }

  method FirstConditions(f: Filter) returns (conds: seq<Row -> bool>)
    ensures forall r :: AllHold(conds, r) <==> WhoAndWhen(f, r)
  {
    conds := AddWhen([], f.source != "", (r: Row) => r.source == f.source);
    conds := AddWhen(conds, f.actorId != "", (r: Row) => r.actorId == f.actorId);
    conds := AddWhen(conds, f.sinceMs > 0, (r: Row) => r.ts >= f.sinceMs);
    conds := AddWhen(conds, f.untilMs > 0, (r: Row) => r.ts < f.untilMs);
  }

  /** The WHERE clause of a listing, assembled condition by condition. */
  method Conditions(f: Filter, like: (string, string) -> bool) returns (conds: seq<Row -> bool>)
    ensures forall r :: AllHold(conds, r) <==> Selected(f, like, r) && BeyondCursor(f, StampOf(r))
  {
    conds := FirstConditions(f);
    conds := AddWhen(conds, f.statusMax > 0, (r: Row) => r.status <= f.statusMax);
    conds := AddWhen(conds, f.statusMin > 0, (r: Row) => r.status >= f.statusMin);
    conds := AddWhen(conds, f.search != "", (r: Row) => like(r.text, f.search));
    conds := AddWhen(conds, f.cursor > 0 && f.cursorId > 0,
                     (r: Row) => r.ts < f.cursor || (r.ts == f.cursor && r.id < f.cursorId));
    conds := AddWhen(conds, f.cursor > 0 && f.cursorId <= 0, (r: Row) => r.ts < f.cursor);
  }

  /** The stamps a filter selects from a table, before the cursor. */
  ghost function Selection(f: Filter, like: (string, string) -> bool, table: set<Row>): set<Stamp> {
    set r | r in table && Selected(f, like, r) :: StampOf(r)
  }

  /** The first page beyond the filter's cursor, as ordering tuples. */
  ghost function Fetch(stamps: set<Stamp>, f: Filter): seq<Stamp> {
    NewerIsStrict();
    Take(Sorted((set s | s in stamps && BeyondCursor(f, s)), Newer), ClampLimit(f.limit))
  }

  function Stamps(rows: seq<Row>): (s: seq<Stamp>)
    ensures |s| == |rows|
  {
    seq(|rows|, i requires 0 <= i < |rows| => StampOf(rows[i]))
  }

  /** A full page offers its last row as the next cursor; a short one offers none. */
  function NextCursor(page: seq<Stamp>, limit: nat): Stamp {
    if page != [] && |page| == limit then page[|page| - 1] else Stamp(0, 0)
  }

  /** The row id is the table's primary key. */
  ghost predicate KeyedById(table: set<Row>) {
    forall r, s :: r in table && s in table && r.id == s.id ==> r == s
  }

  /** What the database promises for `WHERE conds ORDER BY ts DESC, id DESC LIMIT limit`. */
  ghost predicate Answers(table: set<Row>, conds: seq<Row -> bool>, limit: nat, rows: seq<Row>) {
    && |rows| <= limit
    && (forall i, j :: 0 <= i < j < |rows| ==> Newer(StampOf(rows[i]), StampOf(rows[j])))
    && (forall r :: r in rows ==> r in table && AllHold(conds, r))
    && (forall r, s :: r in table && AllHold(conds, r) && r !in rows && s in rows ==> Newer(StampOf(s), StampOf(r)))
    && (forall r :: r in table && AllHold(conds, r) && r !in rows ==> |rows| == limit)
  }

  /** The answer to the assembled conditions is the page of the filter. */
  lemma AnswerIsFetch(f: Filter, like: (string, string) -> bool, table: set<Row>, conds: seq<Row -> bool>,
                      rows: seq<Row>)
    requires KeyedById(table) && Answers(table, conds, ClampLimit(f.limit), rows)
    requires forall r :: AllHold(conds, r) <==> Selected(f, like, r) && BeyondCursor(f, StampOf(r))
    ensures Stamps(rows) == Fetch(Selection(f, like, table), f)
  {
    var asked := set s | s in Selection(f, like, table) && BeyondCursor(f, s);
    var page, limit := Stamps(rows), ClampLimit(f.limit);
    forall s ensures s in page <==> exists r :: r in rows && StampOf(r) == s {
      if s in page {
        var i :| 0 <= i < |page| && page[i] == s;
        assert StampOf(rows[i]) == s && rows[i] in rows;
      }
      if r :| r in rows && StampOf(r) == s {
        var i :| 0 <= i < |rows| && rows[i] == r;
        assert page[i] == s;
      }
    }
    forall s | s in asked && s !in page ensures |page| == limit && forall y :: y in page ==> Newer(y, s) {
      var r :| r in table && Selected(f, like, r) && StampOf(r) == s;
      assert AllHold(conds, r) && r !in rows;
    }
    forall s | s in page ensures s in asked {
      var r :| r in rows && StampOf(r) == s;
      assert AllHold(conds, r);
    }
    NewerIsStrict();
    FirstInOrderIsTake(asked, page, limit, Newer);
  }

  // ---------------------------------------------------------------- a page, filter by filter

  /** What a caller asks for: who, when, with what status and text. */
  predicate AskedFor(f: Filter, like: (string, string) -> bool, r: Row) {
    && f.source in {"", r.source} && f.actorId in {"", r.actorId}
    && (f.sinceMs <= 0 || f.sinceMs <= r.ts) && (f.untilMs <= 0 || r.ts < f.untilMs)
    && (f.statusMin <= 0 || f.statusMin <= r.status) && (f.statusMax <= 0 || r.status <= f.statusMax)
    && (f.search == "" || like(r.text, f.search))
  }

  /** And behind which row: without an id, behind all rows of that time. */
  predicate Behind(f: Filter, r: Row) {
    f.cursor <= 0 || r.ts < f.cursor || (r.ts == f.cursor && 0 < f.cursorId && r.id < f.cursorId)
  }

  function PageSize(limit: int): nat { if 1 <= limit <= 1000 then limit else if limit <= 0 then 200 else 1000 }

  predicate NewestFirst(rows: seq<Row>) {
    forall i, j :: 0 <= i < j < |rows| ==>
      rows[i].ts > rows[j].ts || (rows[i].ts == rows[j].ts && rows[i].id > rows[j].id)
  }

  /** The newest rows behind the cursor that pass the filters, up to the limit. */
  ghost predicate NewestAskedFor(f: Filter, like: (string, string) -> bool, table: set<Row>, rows: seq<Row>) {
    && NewestFirst(rows) && |rows| <= PageSize(f.limit)
    && (forall r :: r in rows ==> r in table && AskedFor(f, like, r) && Behind(f, r))
    && (forall r, s :: r in table && AskedFor(f, like, r) && Behind(f, r) && r !in rows && s in rows ==>
          r.ts < s.ts || (r.ts == s.ts && r.id < s.id))
    && (forall r :: r in table && AskedFor(f, like, r) && Behind(f, r) && r !in rows ==> |rows| == PageSize(f.limit))
  }

  lemma AnswerIsNewest(f: Filter, like: (string, string) -> bool, table: set<Row>, conds: seq<Row -> bool>,
                       rows: seq<Row>)
    requires Answers(table, conds, ClampLimit(f.limit), rows)
    requires forall r :: AllHold(conds, r) <==> Selected(f, like, r) && BeyondCursor(f, StampOf(r))
    ensures NewestAskedFor(f, like, table, rows)
  {
    forall r ensures AllHold(conds, r) <==> AskedFor(f, like, r) && Behind(f, r) {
    }
    forall i, j | 0 <= i < j < |rows|
      ensures rows[i].ts > rows[j].ts || (rows[i].ts == rows[j].ts && rows[i].id > rows[j].id)
    {
      assert Newer(StampOf(rows[i]), StampOf(rows[j]));
    }
    forall r, s | r in table && AllHold(conds, r) && r !in rows && s in rows
      ensures r.ts < s.ts || (r.ts == s.ts && r.id < s.id)
    {
      assert Newer(StampOf(s), StampOf(r));
    }
  }

  /** Assembles the conditions, asks the database, and offers the last row of a full page as the next cursor. */
  method ListActivity(f: Filter, like: (string, string) -> bool, ghost table: set<Row>,
                      query: (seq<Row -> bool>, nat) -> seq<Row>)
    returns (rows: seq<Row>, nextTs: int, nextId: int)
    requires KeyedById(table)
    requires forall conds, limit :: Answers(table, conds, limit, query(conds, limit))
    ensures Stamps(rows) == Fetch(Selection(f, like, table), f)
    ensures NewestAskedFor(f, like, table, rows)
    ensures Stamp(nextTs, nextId) == NextCursor(Stamps(rows), ClampLimit(f.limit))
    ensures if |rows| == PageSize(f.limit) then nextTs == rows[|rows| - 1].ts && nextId == rows[|rows| - 1].id
            else nextTs == nextId == 0
  {
    var limit := ClampLimit(f.limit);
    var conds := Conditions(f, like);
    rows := query(conds, limit);
    AnswerIsFetch(f, like, table, conds, rows);
    AnswerIsNewest(f, like, table, conds, rows);
    nextTs, nextId := 0, 0;
    if |rows| == limit {
      nextTs, nextId := rows[|rows| - 1].ts, rows[|rows| - 1].id;
    }
  }

  // ---------------------------------------------------------------- following the cursor

  /** What the two cursor fields stand for. */
  function CursorOf(f: Filter): Option<Stamp> {
    if f.cursor > 0 then Some(Stamp(f.cursor, f.cursorId)) else None
  }

  ghost function Positive(s: Stamp): bool { s.ts > 0 && s.id > 0 }

  /** All stamps a client collects by passing the two returned cursor fields back each time. */
  ghost function Followed(snapshots: seq<set<Stamp>>, f: Filter): seq<Stamp>
    decreases |snapshots|
  {
    if snapshots == [] then [] else
    var page := Fetch(snapshots[0], f);
    var next := NextCursor(page, ClampLimit(f.limit));
    if next == Stamp(0, 0) then page
    else page + Followed(snapshots[1..], f.(cursor := next.ts, cursorId := next.id))
  }

  /** With positive timestamps and ids the two fields are an exact cursor. */
  lemma FetchIsPage(stamps: set<Stamp>, f: Filter)
    requires f.cursor > 0 ==> f.cursorId > 0
    requires StrictOrder(Newer)
    ensures Fetch(stamps, f) == PageAt(stamps, CursorOf(f), ClampLimit(f.limit), Newer)
  {
    assert (set s | s in stamps && BeyondCursor(f, s)) == Beyond(stamps, CursorOf(f), Newer);
  }

  lemma {:induction false} FollowedIsCollected(snapshots: seq<set<Stamp>>, f: Filter)
    requires f.cursor > 0 ==> f.cursorId > 0
    requires forall i, s :: 0 <= i < |snapshots| && s in snapshots[i] ==> Positive(s)
    requires StrictOrder(Newer)
    ensures Followed(snapshots, f) == Collected(snapshots, CursorOf(f), ClampLimit(f.limit), Newer, false)
    decreases |snapshots|
  {
    if snapshots != [] {
      FetchIsPage(snapshots[0], f);
      var page := Fetch(snapshots[0], f);
      if |page| == ClampLimit(f.limit) {
        FullPageResumes(snapshots[0], f);
        var last := page[|page| - 1];
        FollowedIsCollected(snapshots[1..], f.(cursor := last.ts, cursorId := last.id));
      }
    }
  }

  lemma FullPageResumes(stamps: set<Stamp>, f: Filter)
    requires f.cursor > 0 ==> f.cursorId > 0
    requires StrictOrder(Newer) && forall s :: s in stamps ==> Positive(s)
    requires |Fetch(stamps, f)| == ClampLimit(f.limit)
    ensures var next := NextCursor(Fetch(stamps, f), ClampLimit(f.limit));
            Positive(next) && next == Fetch(stamps, f)[|Fetch(stamps, f)| - 1]
    ensures More(stamps, CursorOf(f), ClampLimit(f.limit), Newer, false)
  {
    FetchIsPage(stamps, f);
    PageIsBeyond(stamps, CursorOf(f), ClampLimit(f.limit), Newer);
    var page := Fetch(stamps, f);
    assert page[|page| - 1] in page;
  }

  /** The stamps a client collects that asks again with the cursor it was given last, while the table may change. */
  ghost function FollowedOn(tables: seq<set<Row>>, f: Filter, like: (string, string) -> bool): seq<Stamp>
    decreases |tables|
  {
    if tables == [] then [] else
    var page := Fetch(Selection(f, like, tables[0]), f);
    var next := NextCursor(page, ClampLimit(f.limit));
    if next == Stamp(0, 0) then page
    else page + FollowedOn(tables[1..], f.(cursor := next.ts, cursorId := next.id), like)
  }

  ghost function Selections(tables: seq<set<Row>>, f: Filter, like: (string, string) -> bool): (s: seq<set<Stamp>>)
    ensures |s| == |tables| && forall i :: 0 <= i < |tables| ==> s[i] == Selection(f, like, tables[i])
  {
    seq(|tables|, i requires 0 <= i < |tables| => Selection(f, like, tables[i]))
  }

  /** The cursor fields do not take part in the selection, so every page of a listing is cut from the same one. */
  lemma SelectionIgnoresCursor(f: Filter, like: (string, string) -> bool, table: set<Row>, ts: int, id: int)
    ensures Selection(f.(cursor := ts, cursorId := id), like, table) == Selection(f, like, table)
  {
    var g := f.(cursor := ts, cursorId := id);
    assert forall r :: Selected(g, like, r) <==> Selected(f, like, r);
    forall s ensures s in Selection(g, like, table) <==> s in Selection(f, like, table) {
    }
  }

  /** So the pages of a client's requests are those of one selection per table. */
  lemma {:induction false} RequestsShareSelection(tables: seq<set<Row>>, f: Filter, like: (string, string) -> bool,
                                                  ts: int, id: int)
    ensures FollowedOn(tables, f.(cursor := ts, cursorId := id), like)
            == Followed(Selections(tables, f, like), f.(cursor := ts, cursorId := id))
    decreases |tables|
  {
    if tables != [] {
      var g := f.(cursor := ts, cursorId := id);
      SelectionIgnoresCursor(f, like, tables[0], ts, id);
      assert Selections(tables, f, like)[1..] == Selections(tables[1..], f, like);
      var next := NextCursor(Fetch(Selection(g, like, tables[0]), g), ClampLimit(g.limit));
      if next != Stamp(0, 0) {
        RequestsShareSelection(tables[1..], f, like, next.ts, next.id);
        assert g.(cursor := next.ts, cursorId := next.id) == f.(cursor := next.ts, cursorId := next.id);
      }
    }
  }

  /** On an unchanging table the pages together are the filter's whole selection, newest first, each row once. */
  lemma StaticFeedIsComplete(f: Filter, like: (string, string) -> bool, table: set<Row>, tables: seq<set<Row>>)
    requires f.cursor <= 0 && |tables| > |Selection(f, like, table)|
    requires forall i :: 0 <= i < |tables| ==> tables[i] == table
    requires forall r :: r in table ==> r.ts > 0 && r.id > 0
    ensures FollowedOn(tables, f, like) == SortedStamps(Selection(f, like, table))
  {
    var stamps := Selection(f, like, table);
    NewerIsStrict();
    RequestsShareSelection(tables, f, like, f.cursor, f.cursorId);
    FollowedIsCollected(Selections(tables, f, like), f);
    StaticPagesAreTheTable(stamps, Selections(tables, f, like), ClampLimit(f.limit), Newer, false);
  }

  ghost function SortedStamps(stamps: set<Stamp>): seq<Stamp> {
    NewerIsStrict();
    Sorted(stamps, Newer)
  }

  /** A row that stays in the table while a client follows the cursors to the end is on one of the pages. */
  lemma FeedNeverSkips(f: Filter, like: (string, string) -> bool, tables: seq<set<Row>>, r: Row)
    requires f.cursor <= 0 && Selected(f, like, r) && StrictOrder(Newer)
    requires forall i, s :: 0 <= i < |tables| && s in tables[i] ==> s.ts > 0 && s.id > 0
    requires forall i :: 0 <= i < |tables| ==> r in tables[i]
    requires Completes(Selections(tables, f, like), None, ClampLimit(f.limit), Newer, false)
    ensures StampOf(r) in FollowedOn(tables, f, like)
  {
    var selections := Selections(tables, f, like);
    RequestsShareSelection(tables, f, like, f.cursor, f.cursorId);
    FollowedIsCollected(selections, f);
    forall i | 0 <= i < |selections| ensures StampOf(r) in selections[i] {
      assert r in tables[i];
    }
    NeverSkips(selections, None, ClampLimit(f.limit), Newer, false, StampOf(r));
  }

  /** A cursor without its id resumes past the whole millisecond: exactly the ties are lost. */
  lemma TimeOnlyCursorSkipsTies(f: Filter, last: Stamp, s: Stamp)
    requires last.ts > 0 && Newer(last, s)
    ensures !BeyondCursor(f.(cursor := last.ts, cursorId := 0), s) <==> s.ts == last.ts
  {
  }

  /** A page that ends on a row without a positive timestamp cannot be resumed: the next one restarts. */
  lemma UnstampedRowRestarts(f: Filter, last: Stamp)
    ensures (forall x :: BeyondCursor(f.(cursor := last.ts, cursorId := last.id), x)) <==> last.ts <= 0
  {
    if last.ts > 0 {
      assert !BeyondCursor(f.(cursor := last.ts, cursorId := last.id), Stamp(last.ts + 1, 0));
    }
  }
}
