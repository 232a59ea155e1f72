/** The execution listing and its bounded fast path for successful rows. */
module ExecutionListing {
  import opened Wrappers

  datatype Execution = Execution(id: string, functionId: string, status: string, startedAt: int, text: string)

  datatype Params = Params(functionId: string, status: string, since: Option<int>, until: Option<int>,
                           search: string, limit: int, offset: nat)

  predicate Selected(p: Params, like: (string, string) -> bool, e: Execution) {
    && (p.functionId != "" ==> e.functionId == p.functionId)
    && (p.status != "" ==> e.status == p.status)
    && (p.since.Some? ==> e.startedAt >= p.since.value)
    && (p.until.Some? ==> e.startedAt < p.until.value)
    && (p.search != "" ==> like(e.text, p.search))
  }

  predicate Succeeded(e: Execution) { e.status == "success" }

  function OfFunction(id: string): Execution -> bool { (e: Execution) => e.functionId == id }

  function Chosen(p: Params, like: (string, string) -> bool): Execution -> bool {
    (e: Execution) => Selected(p, like, e)
  }

  function Where(rows: seq<Execution>, keep: Execution -> bool): seq<Execution> {
    if rows == [] then [] else
    var init, e := Where(rows[..|rows| - 1], keep), rows[|rows| - 1];
    if keep(e) then init + [e] else init
  }

  function Take(rows: seq<Execution>, n: nat): seq<Execution> { if |rows| <= n then rows else rows[..n] }

  function Drop(rows: seq<Execution>, n: nat): seq<Execution> { if |rows| <= n then [] else rows[n..] }

  function ClampLimit(limit: int): nat { if limit <= 0 then 50 else if limit > 1000 then 1000 else limit }

  /** The exact query: filter, then `ORDER BY started_at DESC LIMIT ? OFFSET ?`. */
  function Exact(p: Params, like: (string, string) -> bool, newestFirst: seq<Execution>): seq<Execution> {
    Take(Drop(Where(newestFirst, Chosen(p, like)), p.offset), ClampLimit(p.limit))
  }

  /** When the window of recent rows may be scanned instead. */
  predicate FastPath(p: Params) {
    p.status == "success" && p.offset == 0 && p.since.None? && p.until.None? && p.search == ""
  }

  lemma {:induction false} WhereAgrees(rows: seq<Execution>, a: Execution -> bool, b: Execution -> bool)
    requires forall e :: e in rows ==> a(e) == b(e)
    ensures Where(rows, a) == Where(rows, b)
  {
    if rows != [] {
      WhereAgrees(rows[..|rows| - 1], a, b);
    }
  }

  lemma {:induction false} WhereConcat(a: seq<Execution>, b: seq<Execution>, keep: Execution -> bool)
    ensures Where(a + b, keep) == Where(a, keep) + Where(b, keep)
  {
    if b == [] {
      assert a + b == a;
    } else {
      WhereConcat(a, b[..|b| - 1], keep);
      assert (a + b)[..|a + b| - 1] == a + b[..|b| - 1];
    }
  }

  lemma {:induction false} WhereTwice(rows: seq<Execution>, a: Execution -> bool, b: Execution -> bool,
                                      both: Execution -> bool)
    requires forall e :: both(e) == (a(e) && b(e))
    ensures Where(Where(rows, a), b) == Where(rows, both)
  {
    if rows != [] {
      var n := |rows| - 1;
      WhereTwice(rows[..n], a, b, both);
      assert (Where(rows[..n], a) + [rows[n]])[..|Where(rows[..n], a)|] == Where(rows[..n], a);
    }
  }

  /** Scans at most `probe` recent rows for successes; `complete` says whether the answer is final. */
  method ScanRecent(recentRows: seq<Execution>, probe: nat, limit: nat) returns (recent: seq<Execution>, complete: bool)
    requires limit > 0 && probe > 0
    ensures complete ==> recent == Take(Where(recentRows, Succeeded), limit)
    ensures !complete ==> |recentRows| >= probe && |Where(Take(recentRows, probe), Succeeded)| < limit
  {
    var window := Take(recentRows, probe);
    var scanned := 0;
    recent := [];
    while scanned < |window| && |recent| < limit
      invariant 0 <= scanned <= |window| && |recent| <= limit
      invariant recent == Where(window[..scanned], Succeeded)
    {
      var exec := window[scanned];
      assert window[..scanned + 1][..scanned] == window[..scanned];
      scanned := scanned + 1;
      if Succeeded(exec) {
        recent := recent + [exec];
      }
    }
    assert recentRows == recentRows[..scanned] + recentRows[scanned..];
    WhereConcat(recentRows[..scanned], recentRows[scanned..], Succeeded);
    assert window[..scanned] == recentRows[..scanned];
    complete := |recent| == limit || scanned < probe;
    if !complete {
      assert window[..scanned] == window;
    } else if |recent| < limit {
      assert recentRows[scanned..] == [];
    }
  }

  /**
   The listing, in up to three statements between which rows may come and go: each sees the table in the index's
   order, newest first, as it is then. Whether the fast path answers or falls back, the page is that of the exact
   query on the table its statement saw; on an unchanging table that is one and the same.
   */
  method ListExecutions(p: Params, like: (string, string) -> bool, counted: seq<Execution>, probed: seq<Execution>,
                        queried: seq<Execution>)
    returns (page: seq<Execution>, total: nat, ghost fast: bool)
    ensures total == |Where(counted, Chosen(p, like))|
    ensures page == Exact(p, like, if fast then probed else queried)
    ensures FastPath(p) && !fast ==> |Where(Take(Probed(p, probed), ClampLimit(p.limit) * 4), Succeeded)| < ClampLimit(p.limit)
    ensures fast ==> FastPath(p)
  {
    var limit := ClampLimit(p.limit);
    total := |Where(counted, Chosen(p, like))|;
    fast := false;
    if FastPath(p) {
      var recent, complete := ScanRecent(Probed(p, probed), limit * 4, limit);
      if complete {
        FastPathSelects(p, like, probed);
        return recent, total, true;
      }
    }
    page := Take(Drop(Where(queried, Chosen(p, like)), p.offset), limit);
  }

  /** The rows the probe reads from, by the function's index or by the one of start times. */
  function Probed(p: Params, newestFirst: seq<Execution>): seq<Execution> {
    if p.functionId != "" then Where(newestFirst, OfFunction(p.functionId)) else newestFirst
  }

  lemma FastPathSelects(p: Params, like: (string, string) -> bool, newestFirst: seq<Execution>)
    requires FastPath(p)
    ensures Where(Probed(p, newestFirst), Succeeded) == Where(newestFirst, Chosen(p, like))
  {
    if p.functionId != "" {
      WhereTwice(newestFirst, OfFunction(p.functionId), Succeeded, Chosen(p, like));
    } else {
      WhereAgrees(newestFirst, Succeeded, Chosen(p, like));
    }
  }

  // ---------------------------------------------------------------- what the pages are

  /** What a caller asks for, filter by filter. */
  predicate AskedFor(p: Params, like: (string, string) -> bool, e: Execution) {
    && p.functionId in {"", e.functionId} && p.status in {"", e.status}
    && (p.since == None || p.since.value <= e.startedAt) && (p.until == None || e.startedAt < p.until.value)
    && (p.search == "" || like(e.text, p.search))
  }

  /** `picked` are the rows at these places, in the table's order, and no other row qualifies. */
  ghost predicate Picks(rows: seq<Execution>, keep: Execution -> bool, picked: seq<Execution>, places: seq<nat>) {
    && |places| == |picked|
    && (forall k :: 0 <= k < |places| ==> places[k] < |rows| && rows[places[k]] == picked[k] && keep(picked[k]))
    && (forall k, l :: 0 <= k < l < |places| ==> places[k] < places[l])
    && (forall i :: 0 <= i < |rows| && keep(rows[i]) ==> i in places)
  }

  lemma PicksNext(rows: seq<Execution>, keep: Execution -> bool, picked: seq<Execution>, places: seq<nat>)
    requires rows != [] && Picks(rows[..|rows| - 1], keep, picked, places)
    ensures keep(rows[|rows| - 1]) ==> Picks(rows, keep, picked + [rows[|rows| - 1]], places + [|rows| - 1])
    ensures !keep(rows[|rows| - 1]) ==> Picks(rows, keep, picked, places)
  {
    forall i | 0 <= i < |rows| - 1 && keep(rows[i]) ensures i in places {
      assert rows[..|rows| - 1][i] == rows[i];
    }
  }

  lemma {:induction false} WherePicks(rows: seq<Execution>, keep: Execution -> bool) returns (places: seq<nat>)
    ensures Picks(rows, keep, Where(rows, keep), places)
  {
    if rows == [] {
      places := [];
    } else {
      var before := WherePicks(rows[..|rows| - 1], keep);
      PicksNext(rows, keep, Where(rows[..|rows| - 1], keep), before);
      places := if keep(rows[|rows| - 1]) then before + [|rows| - 1] else before;
    }
  }

  /** The offset of page `n`. */
  function Start(n: nat, limit: nat): nat { if n == 0 then 0 else Start(n - 1, limit) + limit }

  /** The pages at offsets 0, `limit`, `2 * limit` and so on, one after the other. */
  function Pages(p: Params, like: (string, string) -> bool, newestFirst: seq<Execution>, n: nat): seq<Execution>
    requires p.limit >= 0
  {
    if n == 0 then []
    else Pages(p, like, newestFirst, n - 1) + Exact(p.(offset := Start(n - 1, p.limit)), like, newestFirst)
  }

  lemma SameSelection(p: Params, like: (string, string) -> bool, rows: seq<Execution>, offset: nat)
    ensures Where(rows, Chosen(p.(offset := offset), like)) == Where(rows, Chosen(p, like))
  {
    WhereAgrees(rows, Chosen(p.(offset := offset), like), Chosen(p, like));
  }

  lemma PageAt(p: Params, like: (string, string) -> bool, rows: seq<Execution>, offset: nat)
    requires 1 <= p.limit <= 1000
    ensures Exact(p.(offset := offset), like, rows) == Take(Drop(Where(rows, Chosen(p, like)), offset), p.limit)
  {
    SameSelection(p, like, rows, offset);
  }

  lemma {:induction false} PagesAre(p: Params, like: (string, string) -> bool, rows: seq<Execution>, n: nat)
    requires 1 <= p.limit <= 1000
    ensures Pages(p, like, rows, n) == Take(Where(rows, Chosen(p, like)), Start(n, p.limit))
  {
    if n > 0 {
      PagesAre(p, like, rows, n - 1);
      PageAt(p, like, rows, Start(n - 1, p.limit));
      TakeThenDrop(Where(rows, Chosen(p, like)), Start(n - 1, p.limit), p.limit);
    }
  }

  lemma TakeThenDrop(rows: seq<Execution>, m: nat, n: nat)
    ensures Take(rows, m) + Take(Drop(rows, m), n) == Take(rows, m + n)
  {
  }

  /**
   On an unchanging table the pages a caller gets by advancing the offset by the limit are all the rows that pass the
   filters, each once and newest first, and every page but the last is full.
   */
  lemma PagesTile(p: Params, like: (string, string) -> bool, newestFirst: seq<Execution>, n: nat)
    returns (places: seq<nat>)
    requires 1 <= p.limit <= 1000 && Start(n, p.limit) >= |newestFirst|
    ensures Picks(newestFirst, e => AskedFor(p, like, e), Pages(p, like, newestFirst, n), places)
    ensures forall k: nat :: Start(k, p.limit) + p.limit <= |places| ==>
              |Exact(p.(offset := Start(k, p.limit)), like, newestFirst)| == p.limit
  {
    PagesAre(p, like, newestFirst, n);
    WhereAgrees(newestFirst, Chosen(p, like), e => AskedFor(p, like, e));
    places := WherePicks(newestFirst, e => AskedFor(p, like, e));
    WhereShrinks(newestFirst, Chosen(p, like));
    forall k: nat | Start(k, p.limit) + p.limit <= |places|
      ensures |Exact(p.(offset := Start(k, p.limit)), like, newestFirst)| == p.limit
    {
      SameSelection(p, like, newestFirst, Start(k, p.limit));
    }
  }

  lemma {:induction false} WhereShrinks(rows: seq<Execution>, keep: Execution -> bool)
    ensures |Where(rows, keep)| <= |rows|
  {
    if rows != [] {
      WhereShrinks(rows[..|rows| - 1], keep);
    }
  }

  /** Without a usable limit a page has up to 50 rows, and never more than 1000. */
  lemma PageSizes(p: Params, like: (string, string) -> bool, newestFirst: seq<Execution>)
    ensures p.limit <= 0 ==> Exact(p, like, newestFirst) == Exact(p.(limit := 50), like, newestFirst)
    ensures p.limit > 1000 ==> Exact(p, like, newestFirst) == Exact(p.(limit := 1000), like, newestFirst)
  {
    WhereAgrees(newestFirst, Chosen(p, like), Chosen(p.(limit := 50), like));
    WhereAgrees(newestFirst, Chosen(p, like), Chosen(p.(limit := 1000), like));
  }
}
