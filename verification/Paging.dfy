/**
 Cursor paging over a table that may change between requests. Every request reads one snapshot,
 takes the first rows beyond the cursor in a fixed strict order, and passes the last one on.
 */
module Paging {
  import opened Wrappers

  ghost predicate StrictOrder<T(!new)>(lt: (T, T) -> bool) {
    && (forall x :: !lt(x, x))
    && (forall x, y :: lt(x, y) || x == y || lt(y, x))
    && (forall x, y, z :: lt(x, y) && lt(y, z) ==> lt(x, z))
  }

  ghost predicate Ascending<T>(s: seq<T>, lt: (T, T) -> bool) {
    forall i, j :: 0 <= i < j < |s| ==> lt(s[i], s[j])
  }

  lemma {:induction false} MinimumExists<T(!new)>(s: set<T>, lt: (T, T) -> bool) returns (m: T)
    requires StrictOrder(lt) && s != {}
    ensures m in s && forall x :: x in s ==> x == m || lt(m, x)
    decreases |s|
  {
    m :| m in s;
    if s != {m} {
      var rest := s - {m};
      var least := MinimumExists(rest, lt);
      if lt(least, m) {
        m := least;
      }
    }
  }

  /** The rows of `s` in order. */
  ghost function Sorted<T(!new)>(s: set<T>, lt: (T, T) -> bool): (r: seq<T>)
    requires StrictOrder(lt)
    ensures |r| == |s|
    decreases |s|
  {
    if s == {} then [] else
      assert exists m :: m in s && forall x :: x in s ==> x == m || lt(m, x) by {
        var m := MinimumExists(s, lt);
      }
      var m :| m in s && forall x :: x in s ==> x == m || lt(m, x);
      [m] + Sorted(s - {m}, lt)
  }

  lemma {:induction false} SortedIs<T(!new)>(s: set<T>, lt: (T, T) -> bool)
    requires StrictOrder(lt)
    ensures Ascending(Sorted(s, lt), lt)
    ensures forall x :: x in Sorted(s, lt) <==> x in s
    decreases |s|
  {
    if s != {} {
      var m, rest := Sorted(s, lt)[0], Sorted(s, lt)[1..];
      assert rest == Sorted(s - {m}, lt);
      SortedIs(s - {m}, lt);
      forall x | x in rest ensures lt(m, x) {
      }
      assert Sorted(s, lt) == [m] + rest;
    }
  }

  /** There is only one way to put a set of rows in order. */
  lemma {:induction false} SortedUnique<T(!new)>(a: seq<T>, b: seq<T>, lt: (T, T) -> bool)
    requires StrictOrder(lt) && Ascending(a, lt) && Ascending(b, lt)
    requires forall x :: x in a <==> x in b
    ensures a == b
    decreases |a|
  {
    assert b != [] ==> b[0] in b;
    if a != [] {
      assert a[0] in b && b != [];
      assert b[0] in a;
      assert a[0] == b[0];
      forall x ensures x in a[1..] <==> x in b[1..] {
        if x in a[1..] {
          assert x in b && lt(a[0], x);
        }
        if x in b[1..] {
          assert x in a && lt(b[0], x);
        }
      }
      SortedUnique(a[1..], b[1..], lt);
      assert a == [a[0]] + a[1..] && b == [b[0]] + b[1..];
    }
  }

  /** The rows of a snapshot beyond a cursor; no cursor means from the start. */
  ghost function Beyond<T>(s: set<T>, after: Option<T>, lt: (T, T) -> bool): set<T> {
    set x | x in s && (after.Some? ==> lt(after.value, x))
  }

  ghost function Take<T>(s: seq<T>, n: nat): seq<T> {
    if |s| <= n then s else s[..n]
  }

  /** One request: `ORDER BY ... LIMIT limit` over the rows beyond the cursor. */
  ghost function PageAt<T(!new)>(s: set<T>, after: Option<T>, limit: nat, lt: (T, T) -> bool): seq<T>
    requires StrictOrder(lt)
  {
    Take(Sorted(Beyond(s, after, lt), lt), limit)
  }

  /**
   Whether a client is told to ask again. A probing listing reads one row more than it returns;
   the other kind offers a cursor whenever the page is full.
   */
  ghost predicate More<T>(s: set<T>, after: Option<T>, limit: nat, lt: (T, T) -> bool, probe: bool) {
    if probe then |Beyond(s, after, lt)| > limit else |Beyond(s, after, lt)| >= limit
  }

  /** What a query with ORDER BY and LIMIT promises: the first rows in order, and the others only if it is full. */
  ghost predicate FirstInOrder<T(!new)>(s: set<T>, page: seq<T>, limit: nat, lt: (T, T) -> bool) {
    && Ascending(page, lt) && |page| <= limit && (forall x :: x in page ==> x in s)
    && (forall x, y :: x in s && x !in page && y in page ==> lt(y, x))
    && (forall x :: x in s && x !in page ==> |page| == limit)
  }

  /** There is only one such page. */
  lemma FirstInOrderIsTake<T(!new)>(s: set<T>, page: seq<T>, limit: nat, lt: (T, T) -> bool)
    requires StrictOrder(lt) && FirstInOrder(s, page, limit, lt)
    ensures page == Take(Sorted(s, lt), limit)
  {
    var rest := set x | x in s && x !in page;
    SortedIs(s, lt);
    SortedIs(rest, lt);
    if page == [] {
      if x :| x in s {
        assert limit == 0;
      }
    } else {
      AscendingConcat(page, Sorted(rest, lt), lt);
      SortedUnique(page + Sorted(rest, lt), Sorted(s, lt), lt);
      if |page| < limit {
        assert rest == {};
      }
    }
  }

  /** Reading one row more than a page tells both what the page is and whether there are more. */
  lemma ProbeDecides<T(!new)>(s: set<T>, after: Option<T>, limit: nat, lt: (T, T) -> bool)
    requires StrictOrder(lt)
    ensures PageAt(s, after, limit, lt) == Take(PageAt(s, after, limit + 1, lt), limit)
    ensures More(s, after, limit, lt, true) <==> |PageAt(s, after, limit + 1, lt)| > limit
  {
  }

  /** All rows a client collects, one snapshot per request. */
  ghost function Collected<T(!new)>(snapshots: seq<set<T>>, after: Option<T>, limit: nat,
                                    lt: (T, T) -> bool, probe: bool): seq<T>
    requires StrictOrder(lt) && limit > 0
    decreases |snapshots|
  {
    if snapshots == [] then [] else
    var page := PageAt(snapshots[0], after, limit, lt);
    if !More(snapshots[0], after, limit, lt, probe) then page
    else page + Collected(snapshots[1..], Some(page[|page| - 1]), limit, lt, probe)
  }

  /** Whether the client was told to stop within these requests. */
  ghost predicate Completes<T(!new)>(snapshots: seq<set<T>>, after: Option<T>, limit: nat,
                                     lt: (T, T) -> bool, probe: bool)
    requires StrictOrder(lt) && limit > 0
    decreases |snapshots|
  {
    snapshots != [] &&
    (More(snapshots[0], after, limit, lt, probe) ==>
       var page := PageAt(snapshots[0], after, limit, lt);
       Completes(snapshots[1..], Some(page[|page| - 1]), limit, lt, probe))
  }

  /** A page's last row separates the rows already returned from those beyond the next cursor. */
  lemma PageSplits<T(!new)>(s: set<T>, after: Option<T>, limit: nat, lt: (T, T) -> bool, x: T)
    requires StrictOrder(lt) && limit > 0 && |Beyond(s, after, lt)| >= limit
    ensures var page := PageAt(s, after, limit, lt);
            && |page| == limit
            && (x in page <==> x in Beyond(s, after, lt) && !lt(page[limit - 1], x))
  {
    var all := Sorted(Beyond(s, after, lt), lt);
    SortedIs(Beyond(s, after, lt), lt);
    var page := PageAt(s, after, limit, lt);
    assert page == all[..limit] && page[limit - 1] == all[limit - 1];
    if x in all {
      var i :| 0 <= i < |all| && all[i] == x;
      if i < limit {
        assert x == page[i];
      } else {
        assert lt(all[limit - 1], all[i]);
      }
    }
  }

  lemma PageIsBeyond<T(!new)>(s: set<T>, after: Option<T>, limit: nat, lt: (T, T) -> bool)
    requires StrictOrder(lt) && limit > 0
    ensures Ascending(PageAt(s, after, limit, lt), lt)
    ensures forall x :: x in PageAt(s, after, limit, lt) ==> x in Beyond(s, after, lt)
  {
    var all := Sorted(Beyond(s, after, lt), lt);
    SortedIs(Beyond(s, after, lt), lt);
    forall x | x in PageAt(s, after, limit, lt) ensures x in Beyond(s, after, lt) {
      assert x in all;
    }
  }

  lemma {:induction false} CollectedIsBeyond<T(!new)>(snapshots: seq<set<T>>, after: Option<T>, limit: nat,
                                                      lt: (T, T) -> bool, probe: bool, x: T)
    requires StrictOrder(lt) && limit > 0 && after.Some?
    requires x in Collected(snapshots, after, limit, lt, probe)
    ensures lt(after.value, x)
    decreases |snapshots|
  {
    PageIsBeyond(snapshots[0], after, limit, lt);
    var page := PageAt(snapshots[0], after, limit, lt);
    if x !in page {
      var last := page[|page| - 1];
      assert last in page;
      CollectedIsBeyond(snapshots[1..], Some(last), limit, lt, probe, x);
    }
  }

  /**
   However the table changes between requests, a client sees rows in strictly ascending order,
   so never one twice ...
   */
  lemma {:induction false} NeverRepeats<T(!new)>(snapshots: seq<set<T>>, after: Option<T>, limit: nat,
                                                 lt: (T, T) -> bool, probe: bool)
    requires StrictOrder(lt) && limit > 0
    ensures Ascending(Collected(snapshots, after, limit, lt, probe), lt)
    decreases |snapshots|
  {
    if snapshots != [] {
      PageIsBeyond(snapshots[0], after, limit, lt);
      if More(snapshots[0], after, limit, lt, probe) {
        var page := PageAt(snapshots[0], after, limit, lt);
        var last := page[|page| - 1];
        var rest := Collected(snapshots[1..], Some(last), limit, lt, probe);
        NeverRepeats(snapshots[1..], Some(last), limit, lt, probe);
        forall x | x in rest ensures lt(last, x) {
          CollectedIsBeyond(snapshots[1..], Some(last), limit, lt, probe, x);
        }
        AscendingConcat(page, rest, lt);
      }
    }
  }

  lemma PageIsWithin<T(!new)>(s: set<T>, after: Option<T>, limit: nat, lt: (T, T) -> bool, x: T)
    requires StrictOrder(lt) && limit > 0 && x in PageAt(s, after, limit, lt)
    ensures x in s
  {
    PageIsBeyond(s, after, limit, lt);
  }

  /** ... and only rows that some snapshot held. */
  lemma {:induction false} NeverInvents<T(!new)>(snapshots: seq<set<T>>, after: Option<T>, limit: nat,
                                                 lt: (T, T) -> bool, probe: bool, x: T)
    requires StrictOrder(lt) && limit > 0 && x in Collected(snapshots, after, limit, lt, probe)
    ensures exists i :: 0 <= i < |snapshots| && x in snapshots[i]
    decreases |snapshots|
  {
    var page := PageAt(snapshots[0], after, limit, lt);
    if x in page {
      PageIsWithin(snapshots[0], after, limit, lt, x);
    } else {
      NeverInvents(snapshots[1..], Some(page[|page| - 1]), limit, lt, probe, x);
      var i :| 0 <= i < |snapshots[1..]| && x in snapshots[1..][i];
      assert x in snapshots[i + 1];
    }
  }

  lemma AscendingConcat<T(!new)>(a: seq<T>, b: seq<T>, lt: (T, T) -> bool)
    requires StrictOrder(lt) && Ascending(a, lt) && Ascending(b, lt) && a != []
    requires forall x :: x in b ==> lt(a[|a| - 1], x)
    ensures Ascending(a + b, lt)
  {
    forall i, j | 0 <= i < j < |a + b| ensures lt((a + b)[i], (a + b)[j]) {
      if i < |a| <= j {
        assert (a + b)[j] in b;
        assert i == |a| - 1 || lt(a[i], a[|a| - 1]);
      }
    }
  }

  /** A row beyond the cursor is on the page or, if there is another page, beyond the next cursor. */
  lemma PageOrBeyond<T(!new)>(s: set<T>, after: Option<T>, limit: nat, lt: (T, T) -> bool, probe: bool, x: T)
    requires StrictOrder(lt) && limit > 0 && x in s && (after.Some? ==> lt(after.value, x))
    ensures var page := PageAt(s, after, limit, lt);
            if More(s, after, limit, lt, probe) then page != [] && (x in page || lt(page[|page| - 1], x)) else x in page
  {
    assert x in Beyond(s, after, lt);
    if More(s, after, limit, lt, probe) {
      PageSplits(s, after, limit, lt, x);
    } else {
      SortedIs(Beyond(s, after, lt), lt);
      assert PageAt(s, after, limit, lt) == Sorted(Beyond(s, after, lt), lt);
    }
  }

  ghost predicate AllHold<T>(snapshots: seq<set<T>>, x: T)
    decreases |snapshots|
  {
    snapshots == [] || (x in snapshots[0] && AllHold(snapshots[1..], x))
  }

  lemma {:induction false} HeldThroughout<T>(snapshots: seq<set<T>>, x: T)
    requires forall i :: 0 <= i < |snapshots| ==> x in snapshots[i]
    ensures AllHold(snapshots, x)
    decreases |snapshots|
  {
    if snapshots != [] {
      HeldThroughout(snapshots[1..], x);
    }
  }

  /** A row present throughout a completed listing is returned, whatever else came and went. */
  lemma NeverSkips<T(!new)>(snapshots: seq<set<T>>, after: Option<T>, limit: nat, lt: (T, T) -> bool, probe: bool, x: T)
    requires StrictOrder(lt) && limit > 0 && Completes(snapshots, after, limit, lt, probe)
    requires forall i :: 0 <= i < |snapshots| ==> x in snapshots[i]
    requires after.Some? ==> lt(after.value, x)
    ensures x in Collected(snapshots, after, limit, lt, probe)
  {
    HeldThroughout(snapshots, x);
    CollectsHeld(snapshots, after, limit, lt, probe, x);
  }

  lemma {:induction false} CollectsHeld<T(!new)>(snapshots: seq<set<T>>, after: Option<T>, limit: nat,
                                                 lt: (T, T) -> bool, probe: bool, x: T)
    requires StrictOrder(lt) && limit > 0 && Completes(snapshots, after, limit, lt, probe)
    requires AllHold(snapshots, x)
    requires after.Some? ==> lt(after.value, x)
    ensures x in Collected(snapshots, after, limit, lt, probe)
    decreases |snapshots|
  {
    PageOrBeyond(snapshots[0], after, limit, lt, probe, x);
    var page := PageAt(snapshots[0], after, limit, lt);
    if More(snapshots[0], after, limit, lt, probe) && x !in page {
      CollectsHeld(snapshots[1..], Some(page[|page| - 1]), limit, lt, probe, x);
    }
  }

  lemma BeyondShrinks<T(!new)>(s: set<T>, after: Option<T>, limit: nat, lt: (T, T) -> bool)
    requires StrictOrder(lt) && limit > 0 && |Beyond(s, after, lt)| >= limit
    ensures var page := PageAt(s, after, limit, lt);
            page != [] && |Beyond(s, Some(page[|page| - 1]), lt)| < |Beyond(s, after, lt)|
  {
    PageIsBeyond(s, after, limit, lt);
    var page := PageAt(s, after, limit, lt);
    var last := page[|page| - 1];
    assert last in page;
    var now, next := Beyond(s, after, lt), Beyond(s, Some(last), lt);
    assert last in now && last !in next;
    assert next <= now;
    Smaller(next, now);
  }

  lemma MoreShrinks<T(!new)>(s: set<T>, after: Option<T>, limit: nat, lt: (T, T) -> bool, probe: bool)
    requires StrictOrder(lt) && limit > 0 && More(s, after, limit, lt, probe)
    ensures var page := PageAt(s, after, limit, lt);
            page != [] && |Beyond(s, Some(page[|page| - 1]), lt)| < |Beyond(s, after, lt)|
  {
    BeyondShrinks(s, after, limit, lt);
  }

  ghost predicate AllAre<T>(snapshots: seq<set<T>>, s: set<T>)
    decreases |snapshots|
  {
    snapshots == [] || (snapshots[0] == s && AllAre(snapshots[1..], s))
  }

  lemma {:induction false} SameThroughout<T>(snapshots: seq<set<T>>, s: set<T>)
    requires forall i :: 0 <= i < |snapshots| ==> snapshots[i] == s
    ensures AllAre(snapshots, s)
    decreases |snapshots|
  {
    if snapshots != [] {
      SameThroughout(snapshots[1..], s);
    }
  }

  /** On a table that does not change, following the cursors terminates ... */
  lemma StaticCompletes<T(!new)>(s: set<T>, snapshots: seq<set<T>>, after: Option<T>, limit: nat, lt: (T, T) -> bool,
                          probe: bool)
    requires StrictOrder(lt) && limit > 0 && |snapshots| > |Beyond(s, after, lt)|
    requires forall i :: 0 <= i < |snapshots| ==> snapshots[i] == s
    ensures Completes(snapshots, after, limit, lt, probe)
  {
    SameThroughout(snapshots, s);
    StaticEnds(s, snapshots, after, limit, lt, probe);
  }

  lemma {:induction false} StaticEnds<T(!new)>(s: set<T>, snapshots: seq<set<T>>, after: Option<T>,
                                               limit: nat, lt: (T, T) -> bool, probe: bool)
    requires StrictOrder(lt) && limit > 0 && |snapshots| > |Beyond(s, after, lt)|
    requires AllAre(snapshots, s)
    ensures Completes(snapshots, after, limit, lt, probe)
    decreases |snapshots|
  {
    var page := PageAt(s, after, limit, lt);
    if More(s, after, limit, lt, probe) {
      MoreShrinks(s, after, limit, lt, probe);
      StaticEnds(s, snapshots[1..], Some(page[|page| - 1]), limit, lt, probe);
    }
  }

  lemma Smaller<T>(a: set<T>, b: set<T>)
    requires a < b
    ensures |a| < |b|
  {
    var x :| x in b && x !in a;
    assert a <= b - {x};
    assert |b - {x}| == |b| - 1;
    Monotone(a, b - {x});
  }

  lemma {:induction false} Monotone<T>(a: set<T>, b: set<T>)
    requires a <= b
    ensures |a| <= |b|
  {
    assert b == a + (b - a);
  }

  /** ... and the pages together are exactly the table in order. */
  lemma StaticPagesAreTheTable<T(!new)>(s: set<T>, snapshots: seq<set<T>>, limit: nat,
                                        lt: (T, T) -> bool, probe: bool)
    requires StrictOrder(lt) && limit > 0 && |snapshots| > |s|
    requires forall i :: 0 <= i < |snapshots| ==> snapshots[i] == s
    ensures Completes(snapshots, None, limit, lt, probe)
    ensures Collected(snapshots, None, limit, lt, probe) == Sorted(s, lt)
  {
    assert Beyond(s, None, lt) == s;
    StaticCompletes(s, snapshots, None, limit, lt, probe);
    NeverRepeats(snapshots, None, limit, lt, probe);
    SortedIs(s, lt);
    forall x ensures x in Collected(snapshots, None, limit, lt, probe) <==> x in Sorted(s, lt) {
      StaticHolds(s, snapshots, limit, lt, probe, x);
    }
    SortedUnique(Collected(snapshots, None, limit, lt, probe), Sorted(s, lt), lt);
  }

  lemma StaticHolds<T(!new)>(s: set<T>, snapshots: seq<set<T>>, limit: nat, lt: (T, T) -> bool, probe: bool, x: T)
    requires StrictOrder(lt) && limit > 0 && Completes(snapshots, None, limit, lt, probe)
    requires forall i :: 0 <= i < |snapshots| ==> snapshots[i] == s
    ensures x in Collected(snapshots, None, limit, lt, probe) <==> x in s
  {
    if x in s {
      NeverSkips(snapshots, None, limit, lt, probe, x);
    }
    if x in Collected(snapshots, None, limit, lt, probe) {
      NeverInvents(snapshots, None, limit, lt, probe, x);
    }
  }
}
