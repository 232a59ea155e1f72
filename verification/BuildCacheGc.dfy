/** Bounding the per-function dependency caches: age, size cap with least-recently-used eviction, low disk. */
module BuildCacheGc {

  type Fn = string

  /** A cache directory as listed; its write time is stamped at the start of every build. */
  datatype Cache = Cache(fn: Fn, mtime: int, bytes: nat)

  /** What one pass meets: the function locks that are held, the removals that fail, and when it is cancelled. */
  datatype Round = Round(locked: set<Fn>, stuck: set<Fn>, stopAt: nat)

  /** Fifteen minutes and a day, in seconds; a mebibyte. */
  const GRACE: int := 900
  const DAY: int := 86400
  const MEBIBYTE: nat := 1048576

  predicate Evictable(e: Cache, r: Round) { e.fn !in r.locked && e.fn !in r.stuck }

  /** Stamped so recently that a build may be writing it. */
  predicate Young(e: Cache, now: int) { e.mtime > now - GRACE }

  predicate Movable(e: Cache, now: int, r: Round) { !Young(e, now) && Evictable(e, r) }

  /** The function is gone, or no build has used the cache for too long. */
  predicate Expired(e: Cache, live: set<Fn>, maxAgeDays: int, now: int) {
    e.fn !in live || (maxAgeDays > 0 && e.mtime < now - maxAgeDays * DAY)
  }

  /** Each listed cache is on disk, and listed once. */
  predicate Listed(entries: seq<Cache>, present: set<Fn>) {
    && (forall i :: 0 <= i < |entries| ==> entries[i].fn in present)
    && (forall i, j :: 0 <= i < j < |entries| ==> entries[i].fn != entries[j].fn)
  }

  predicate OldestFirst(es: seq<Cache>) {
    forall i, j :: 0 <= i < j < |es| ==> es[i].mtime <= es[j].mtime
  }

  /** The bytes of the listed caches that are still there. */
  function Bytes(es: seq<Cache>, present: set<Fn>): nat {
    if es == [] then 0
    else
      var e := es[|es| - 1];
      Bytes(es[..|es| - 1], present) + if e.fn in present then e.bytes else 0
  }

  lemma {:induction false} BytesWithout(es: seq<Cache>, present: set<Fn>, f: Fn)
    requires forall i :: 0 <= i < |es| ==> es[i].fn != f
    ensures Bytes(es, present - {f}) == Bytes(es, present)
  {
    if es != [] {
      BytesWithout(es[..|es| - 1], present, f);
    }
  }

  /** Removing a cache lowers the total by its size. */
  lemma {:induction false} BytesDrop(es: seq<Cache>, present: set<Fn>, i: nat)
    requires i < |es| && es[i].fn in present
    requires forall j, k :: 0 <= j < k < |es| ==> es[j].fn != es[k].fn
    ensures Bytes(es, present - {es[i].fn}) == Bytes(es, present) - es[i].bytes
  {
    if i == |es| - 1 {
      BytesWithout(es[..i], present, es[i].fn);
    } else {
      BytesDrop(es[..|es| - 1], present, i);
    }
  }

  lemma {:induction false} BytesSplit(a: seq<Cache>, b: seq<Cache>, present: set<Fn>)
    ensures Bytes(a + b, present) == Bytes(a, present) + Bytes(b, present)
  {
    if b == [] {
      assert a + b == a;
    } else {
      BytesSplit(a, b[..|b| - 1], present);
      assert (a + b)[..|a + b| - 1] == a + b[..|b| - 1];
    }
  }

  /** Taking one occurrence out of a list. */
  lemma WithoutOne(s: seq<Cache>, k: nat)
    requires k < |s|
    ensures multiset(s) == multiset(s[..k] + s[k + 1..]) + multiset{s[k]}
  {
    assert s == s[..k] + [s[k]] + s[k + 1..];
  }

  /** The total does not depend on the order. */
  lemma {:induction false} BytesPermuted(a: seq<Cache>, b: seq<Cache>, present: set<Fn>)
    requires multiset(a) == multiset(b)
    ensures Bytes(a, present) == Bytes(b, present)
  {
    if a == [] {
      assert |multiset(b)| == 0;
    } else {
      var n := |a| - 1;
      assert a[n] in multiset(b);
      var k :| 0 <= k < |b| && b[k] == a[n];
      PermutedRest(a, b, k);
      BytesPermuted(a[..n], b[..k] + b[k + 1..], present);
      BytesAround(b, k, present);
    }
  }

  /** Permutations that lose one common element stay permutations. */
  lemma PermutedRest(a: seq<Cache>, b: seq<Cache>, k: nat)
    requires multiset(a) == multiset(b) && a != [] && k < |b| && b[k] == a[|a| - 1]
    ensures multiset(a[..|a| - 1]) == multiset(b[..k] + b[k + 1..])
  {
    WithoutOne(a, |a| - 1);
    WithoutOne(b, k);
    assert a[..|a| - 1] + a[|a|..] == a[..|a| - 1];
    OneLess(multiset(a[..|a| - 1]), multiset(b[..k] + b[k + 1..]), b[k]);
  }

  lemma OneLess(a: multiset<Cache>, b: multiset<Cache>, e: Cache)
    requires a + multiset{e} == b + multiset{e}
    ensures a == b
  {
    assert a == a + multiset{e} - multiset{e};
    assert b == b + multiset{e} - multiset{e};
  }

  lemma BytesAround(b: seq<Cache>, k: nat, present: set<Fn>)
    requires k < |b|
    ensures Bytes(b, present) ==
            Bytes(b[..k] + b[k + 1..], present) + if b[k].fn in present then b[k].bytes else 0
  {
    BytesSplit(b[..k], b[k + 1..], present);
    BytesSplit(b[..k] + [b[k]], b[k + 1..], present);
    assert b == b[..k] + [b[k]] + b[k + 1..];
    assert (b[..k] + [b[k]])[..k] == b[..k];
  }

  /** The listed caches that are still there, in order. */
  function Remaining(es: seq<Cache>, present: set<Fn>): seq<Cache> {
    if es == [] then []
    else
      var init, e := Remaining(es[..|es| - 1], present), es[|es| - 1];
      if e.fn in present then init + [e] else init
  }

  lemma {:induction false} RemainingMembers(es: seq<Cache>, present: set<Fn>)
    ensures forall e :: e in Remaining(es, present) <==> e in es && e.fn in present
  {
    if es != [] {
      var init, last := es[..|es| - 1], es[|es| - 1];
      RemainingMembers(init, present);
      assert es == init + [last];
    }
  }

  lemma {:induction false} RemainingIsListed(es: seq<Cache>, present: set<Fn>)
    requires forall i, j :: 0 <= i < j < |es| ==> es[i].fn != es[j].fn
    ensures Listed(Remaining(es, present), present)
  {
    if es != [] {
      var n := |es| - 1;
      RemainingIsListed(es[..n], present);
      RemainingMembers(es[..n], present);
      var init := Remaining(es[..n], present);
      forall i | 0 <= i < |init| ensures init[i].fn != es[n].fn {
        assert init[i] in es[..n];
      }
    }
  }

  lemma RemainingIs(es: seq<Cache>, present: set<Fn>)
    requires forall i, j :: 0 <= i < j < |es| ==> es[i].fn != es[j].fn
    ensures forall e :: e in Remaining(es, present) <==> e in es && e.fn in present
    ensures Listed(Remaining(es, present), present)
    ensures Bytes(Remaining(es, present), present) == Bytes(es, present)
  {
    RemainingMembers(es, present);
    RemainingIsListed(es, present);
    RemainingShrinks(es, present, present);
  }

  lemma BytesAppend(es: seq<Cache>, e: Cache, present: set<Fn>)
    ensures Bytes(es + [e], present) == Bytes(es, present) + if e.fn in present then e.bytes else 0
  {
    assert (es + [e])[..|es|] == es;
  }

  /** Of what remains of a listing, fewer may remain later: the bytes are those of the listing itself. */
  lemma {:induction false} RemainingShrinks(es: seq<Cache>, more: set<Fn>, less: set<Fn>)
    requires less <= more
    ensures Bytes(Remaining(es, more), less) == Bytes(es, less)
  {
    if es != [] {
      var n := |es| - 1;
      RemainingShrinks(es[..n], more, less);
      BytesAppend(Remaining(es[..n], more), es[n], less);
    }
  }

  lemma {:induction false} RemainingWithout(es: seq<Cache>, present: set<Fn>, f: Fn)
    requires forall i :: 0 <= i < |es| ==> es[i].fn != f
    ensures Remaining(es, present - {f}) == Remaining(es, present)
  {
    if es != [] {
      RemainingWithout(es[..|es| - 1], present, f);
    }
  }

  lemma InsertedInOrder(r: seq<Cache>, e: Cache, k: nat)
    requires OldestFirst(r) && k <= |r|
    requires k < |r| ==> e.mtime <= r[k].mtime
    requires k > 0 ==> r[k - 1].mtime <= e.mtime
    ensures OldestFirst(r[..k] + [e] + r[k..])
  {
    var s := r[..k] + [e] + r[k..];
    forall i, j | 0 <= i < j < |s| ensures s[i].mtime <= s[j].mtime {
      assert i < k ==> s[i] == r[i];
      assert i > k ==> s[i] == r[i - 1];
      assert j < k ==> s[j] == r[j];
      assert j > k ==> s[j] == r[j - 1];
    }
  }

  lemma InsertedMembers(r: seq<Cache>, e: Cache, k: nat)
    requires k <= |r|
    ensures multiset(r[..k] + [e] + r[k..]) == multiset(r) + multiset{e}
  {
    assert r == r[..k] + r[k..];
  }

  /** Puts a cache before those written later than it. */
  method InsertByAge(r: seq<Cache>, e: Cache) returns (r': seq<Cache>)
    requires OldestFirst(r)
    ensures multiset(r') == multiset(r) + multiset{e} && OldestFirst(r')
  {
    var k := |r|;
    while k > 0 && r[k - 1].mtime > e.mtime
      invariant 0 <= k <= |r| && (k < |r| ==> e.mtime <= r[k].mtime)
    {
      k := k - 1;
    }
    InsertedInOrder(r, e, k);
    InsertedMembers(r, e, k);
    r' := r[..k] + [e] + r[k..];
  }

  /** Sorts by write time; entries written at the same time come in any order. */
  method SortByAge(es: seq<Cache>) returns (r: seq<Cache>)
    ensures multiset(r) == multiset(es) && OldestFirst(r)
  {
    r := [];
    var i := 0;
    while i < |es|
      invariant 0 <= i <= |es| && multiset(r) == multiset(es[..i]) && OldestFirst(r)
    {
      assert es[..i + 1] == es[..i] + [es[i]];
      r := InsertByAge(r, es[i]);
      i := i + 1;
    }
    assert es[..i] == es;
  }

  lemma {:induction false} ListedOnce(es: seq<Cache>, x: Cache)
    requires forall i, j :: 0 <= i < j < |es| ==> es[i].fn != es[j].fn
    ensures multiset(es)[x] <= 1
  {
    if es != [] {
      var n := |es| - 1;
      ListedOnce(es[..n], x);
      assert es == es[..n] + [es[n]];
      if es[n] == x {
        assert x !in es[..n];
      }
    }
  }

  lemma CountedTwice(r: seq<Cache>, i: nat, j: nat)
    requires i < j < |r| && r[i] == r[j]
    ensures multiset(r)[r[i]] >= 2
  {
    assert r == r[..j] + [r[j]] + r[j + 1..];
    assert r[i] in r[..j];
  }

  /** A permutation of distinct caches lists the same ones, each once. */
  lemma PermutedListing(es: seq<Cache>, r: seq<Cache>, present: set<Fn>)
    requires Listed(es, present) && multiset(r) == multiset(es)
    ensures Listed(r, present)
    ensures forall e :: e in r <==> e in es
  {
    forall e ensures e in r <==> e in es {
      assert e in r <==> e in multiset(r);
      assert e in es <==> e in multiset(es);
    }
    forall i | 0 <= i < |r| ensures r[i].fn in present {
      assert r[i] in es;
    }
    forall i, j | 0 <= i < j < |r| ensures r[i].fn != r[j].fn {
      if r[i] == r[j] {
        CountedTwice(r, i, j);
        ListedOnce(es, r[i]);
      } else {
        assert r[i] in es && r[j] in es;
      }
    }
  }

  // ---------------------------------------------------------------- the age pass

  /** What the age pass drops: expired caches that are not young and can be removed. */
  datatype AgeRule = AgeRule(live: set<Fn>, maxAgeDays: int, now: int, round: Round) {
    predicate Drops(e: Cache) { Expired(e, live, maxAgeDays, now) && Movable(e, now, round) }
  }

  function Dropped(es: seq<Cache>, rule: AgeRule): seq<Cache> {
    if es == [] then []
    else
      var init, e := Dropped(es[..|es| - 1], rule), es[|es| - 1];
      if rule.Drops(e) then init + [e] else init
  }

  function Kept(es: seq<Cache>, rule: AgeRule): seq<Cache> {
    if es == [] then []
    else
      var init, e := Kept(es[..|es| - 1], rule), es[|es| - 1];
      if rule.Drops(e) then init else init + [e]
  }

  function Names(es: seq<Cache>): set<Fn> { set e | e in es :: e.fn }

  function Size(es: seq<Cache>): nat {
    if es == [] then 0 else Size(es[..|es| - 1]) + es[|es| - 1].bytes
  }

  lemma {:induction false} DroppedIs(es: seq<Cache>, rule: AgeRule)
    ensures forall e :: e in Dropped(es, rule) <==> e in es && rule.Drops(e)
  {
    if es != [] {
      DroppedIs(es[..|es| - 1], rule);
      assert es == es[..|es| - 1] + [es[|es| - 1]];
    }
  }

  /** The age pass splits the listing: what it keeps is what is still there, and the bytes add up. */
  lemma {:induction false} KeptIsRemaining(es: seq<Cache>, rule: AgeRule, present: set<Fn>)
    requires Listed(es, present)
    ensures Kept(es, rule) == Remaining(es, present - Names(Dropped(es, rule)))
    ensures Bytes(es, present - Names(Dropped(es, rule))) + Size(Dropped(es, rule)) == Bytes(es, present)
  {
    if es != [] {
      var n := |es| - 1;
      KeptIsRemaining(es[..n], rule, present);
      var before := present - Names(Dropped(es[..n], rule));
      DroppedIs(es[..n], rule);
      if rule.Drops(es[n]) {
        NamesGrow(Dropped(es[..n], rule), es[n]);
        assert present - Names(Dropped(es, rule)) == before - {es[n].fn};
        RemainingWithout(es[..n], before, es[n].fn);
        BytesWithout(es[..n], before, es[n].fn);
      } else {
        assert es[n].fn in before;
      }
    }
  }

  lemma NamesGrow(es: seq<Cache>, e: Cache)
    ensures Names(es + [e]) == Names(es) + {e.fn}
  {
    forall f | f in Names(es) + {e.fn} ensures f in Names(es + [e]) {
      if f == e.fn {
        assert e in es + [e];
      } else {
        var x :| x in es && x.fn == f;
        assert x in es + [e];
      }
    }
  }

  // ---------------------------------------------------------------- the size pass

  /** The size pass: bytes in use before it, the cap, the time and what the pass meets. */
  datatype CapRule = CapRule(inUse: nat, cap: nat, now: int, round: Round) {
    predicate Moves(e: Cache) { Movable(e, now, round) }
  }

  /** What the size pass evicts of the first `n` caches: each movable one met while the total exceeds the cap. */
  function Evicted(es: seq<Cache>, n: nat, rule: CapRule): seq<Cache>
    requires n <= |es|
  {
    if n == 0 then []
    else
      var before := Evicted(es, n - 1, rule);
      if rule.inUse - Size(before) > rule.cap && rule.Moves(es[n - 1]) then before + [es[n - 1]] else before
  }

  lemma {:induction false} EvictedAreMovable(es: seq<Cache>, n: nat, rule: CapRule)
    requires n <= |es|
    ensures forall e :: e in Evicted(es, n, rule) ==> e in es[..n] && rule.Moves(e)
  {
    if n > 0 {
      EvictedAreMovable(es, n - 1, rule);
      assert es[..n] == es[..n - 1] + [es[n - 1]];
    }
  }

  lemma SizeAppend(es: seq<Cache>, e: Cache)
    ensures Size(es + [e]) == Size(es) + e.bytes
  {
    assert (es + [e])[..|es|] == es;
  }

  /** Once the total fits, nothing more is evicted. */
  lemma {:induction false} NoneEvictedWithinCap(es: seq<Cache>, rule: CapRule, i: nat, n: nat)
    requires i <= n <= |es| && rule.inUse - Size(Evicted(es, i, rule)) <= rule.cap
    ensures Evicted(es, n, rule) == Evicted(es, i, rule)
  {
    if i < n {
      NoneEvictedWithinCap(es, rule, i, n - 1);
    }
  }

  /** The last eviction was needed: with that cache the total would exceed the cap. */
  lemma {:induction false} LastEvictionNeeded(es: seq<Cache>, n: nat, rule: CapRule)
    requires n <= |es| && Evicted(es, n, rule) != []
    ensures var gone := Evicted(es, n, rule);
            rule.inUse - Size(gone) + gone[|gone| - 1].bytes > rule.cap
  {
    var before := Evicted(es, n - 1, rule);
    if rule.inUse - Size(before) > rule.cap && rule.Moves(es[n - 1]) {
      SizeAppend(before, es[n - 1]);
    } else {
      LastEvictionNeeded(es, n - 1, rule);
    }
  }

  /** A movable cache that stays was met with the total already within the cap, so none after it goes. */
  lemma StaysOnlyWithinCap(es: seq<Cache>, n: nat, rule: CapRule, i: nat)
    requires i < n <= |es| && rule.Moves(es[i]) && es[i] !in Evicted(es, i + 1, rule)
    ensures rule.inUse - Size(Evicted(es, n, rule)) <= rule.cap
    ensures Evicted(es, n, rule) == Evicted(es, i, rule)
  {
    assert Evicted(es, i + 1, rule) == Evicted(es, i, rule);
    NoneEvictedWithinCap(es, rule, i, n);
  }

  /** What was evicted stays evicted. */
  lemma {:induction false} EvictedGrows(es: seq<Cache>, rule: CapRule, i: nat, n: nat, e: Cache)
    requires i <= n <= |es| && e in Evicted(es, i, rule)
    ensures e in Evicted(es, n, rule)
  {
    if i < n {
      EvictedGrows(es, rule, i, n - 1, e);
    }
  }

  lemma StayedThroughout(es: seq<Cache>, n: nat, rule: CapRule, i: nat)
    requires i < n <= |es| && rule.Moves(es[i]) && es[i] !in Evicted(es, n, rule)
    ensures rule.inUse - Size(Evicted(es, n, rule)) <= rule.cap
    ensures Evicted(es, n, rule) == Evicted(es, i, rule)
  {
    if es[i] in Evicted(es, i + 1, rule) {
      EvictedGrows(es, rule, i + 1, n, es[i]);
    }
    StaysOnlyWithinCap(es, n, rule, i);
  }

  /** Least recently used first: no cache is evicted while an older movable one stays. */
  lemma OldestGoFirst(es: seq<Cache>, n: nat, rule: CapRule, i: nat, goes: Cache)
    requires n <= |es| && OldestFirst(es) && i < n && goes in Evicted(es, n, rule)
    requires es[i].mtime < goes.mtime && rule.Moves(es[i])
    ensures es[i] in Evicted(es, n, rule)
  {
    if es[i] !in Evicted(es, n, rule) {
      StayedThroughout(es, n, rule, i);
      EvictedAreMovable(es, i, rule);
      assert false;
    }
  }

  /** An uncancelled pass ends within the cap, or with nothing left that could be evicted. */
  lemma WithinCapOrNothingMovable(es: seq<Cache>, rule: CapRule)
    ensures rule.inUse - Size(Evicted(es, |es|, rule)) <= rule.cap
            || forall e :: e in es && rule.Moves(e) ==> e in Evicted(es, |es|, rule)
  {
    forall e | e in es && rule.Moves(e) && rule.inUse - Size(Evicted(es, |es|, rule)) > rule.cap
      ensures e in Evicted(es, |es|, rule)
    {
      var i :| 0 <= i < |es| && es[i] == e;
      if e !in Evicted(es, |es|, rule) {
        StayedThroughout(es, |es|, rule, i);
      }
    }
  }

  /** A cache that was not met yet was not evicted. */
  lemma NotMetNotEvicted(es: seq<Cache>, rule: CapRule, present: set<Fn>, n: nat, i: nat)
    requires Listed(es, present) && n <= i < |es|
    ensures es[i].fn !in Names(Evicted(es, n, rule))
  {
    EvictedAreMovable(es, n, rule);
    forall e | e in Evicted(es, n, rule) ensures e.fn != es[i].fn {
      assert e in es[..n];
    }
  }

  lemma WithoutNames(present: set<Fn>, gone: seq<Cache>, e: Cache)
    ensures present - Names(gone + [e]) == present - Names(gone) - {e.fn}
  {
    NamesGrow(gone, e);
  }

  /** What meeting one more cache while over the cap does to what is there and to the totals. */
  lemma EvictedNext(es: seq<Cache>, rule: CapRule, present: set<Fn>, i: nat)
    requires i < |es| && rule.inUse - Size(Evicted(es, i, rule)) > rule.cap
    ensures var before, gone := Evicted(es, i, rule), Evicted(es, i + 1, rule);
            if rule.Moves(es[i]) then
              && present - Names(gone) == present - Names(before) - {es[i].fn}
              && |gone| == |before| + 1 && Size(gone) == Size(before) + es[i].bytes
            else gone == before
  {
    WithoutNames(present, Evicted(es, i, rule), es[i]);
    SizeAppend(Evicted(es, i, rule), es[i]);
  }

  /** The bytes still in use are those of the caches that are left. */
  lemma {:induction false} InUseIsRemaining(es: seq<Cache>, rule: CapRule, present: set<Fn>, n: nat)
    requires Listed(es, present) && n <= |es|
    ensures Bytes(es, present - Names(Evicted(es, n, rule))) == Bytes(es, present) - Size(Evicted(es, n, rule))
  {
    if n == 0 {
      assert present - Names([]) == present;
    } else {
      var before := Evicted(es, n - 1, rule);
      InUseIsRemaining(es, rule, present, n - 1);
      if Evicted(es, n, rule) != before {
        NotMetNotEvicted(es, rule, present, n - 1, n - 1);
        BytesDrop(es, present - Names(before), n - 1);
        WithoutNames(present, before, es[n - 1]);
        SizeAppend(before, es[n - 1]);
      }
    }
  }

  // ---------------------------------------------------------------- both passes

  /** A cache went in the size pass. */
  predicate SizeEvicted(e: Cache, after: set<Fn>, age: AgeRule) { e.fn !in after && !age.Drops(e) }

  /** A cache of an existing function that was used within the last `days`, if there is such a limit, stays. */
  predicate FreshStay(entries: seq<Cache>, after: set<Fn>, live: set<Fn>, days: int, now: int) {
    forall e :: e in entries && e.fn in live && (days <= 0 || e.mtime >= now - days * 86400) ==> e.fn in after
  }

  /** One unused for longer, or of no function, goes if it is idle for a quarter of an hour, unlocked and removable. */
  predicate StaleGo(entries: seq<Cache>, after: set<Fn>, live: set<Fn>, days: int, now: int, r: Round) {
    forall e :: e in entries && (e.fn !in live || (days > 0 && e.mtime < now - days * 86400)) ==>
      e.mtime <= now - 15 * 60 && e.fn !in r.locked && e.fn !in r.stuck ==> e.fn !in after
  }

  /** What goes was idle for a quarter of an hour, and unlocked and removable in one of the passes. */
  predicate OnlyIdleGo(entries: seq<Cache>, after: set<Fn>, now: int, r1: Round, r2: Round) {
    forall e :: e in entries && e.fn !in after ==>
      e.mtime <= now - 15 * 60 && (e.fn !in r1.locked + r1.stuck || e.fn !in r2.locked + r2.stuck)
  }

  /** What both passes promise by their rules, told by times, locks and the existing functions. */
  lemma AgedByTimes(entries: seq<Cache>, after: set<Fn>, age: AgeRule, r2: Round)
    requires OnlyIdleGone(entries, after, age, r2)
    ensures OnlyIdleGo(entries, after, age.now, age.round, r2)
    ensures (forall e :: e in entries && e.fn !in after ==> age.Drops(e)) ==>
              FreshStay(entries, after, age.live, age.maxAgeDays, age.now)
    ensures (forall e :: e in entries && age.Drops(e) ==> e.fn !in after) ==>
              StaleGo(entries, after, age.live, age.maxAgeDays, age.now, age.round)
  {
  }

  /** Of the caches of existing functions, none goes for its age while an older one stays that could have gone. */
  lemma OlderGoesFirst(entries: seq<Cache>, after: set<Fn>, live: set<Fn>, days: int, now: int, r: Round,
                       older: Cache, goes: Cache)
    requires FreshStay(entries, after, live, days, now) && StaleGo(entries, after, live, days, now, r)
    requires older in entries && goes in entries && older.fn in live && goes.fn in live
    requires older.mtime <= goes.mtime && goes.fn !in after
    requires older.mtime <= now - 15 * 60 && older.fn !in r.locked && older.fn !in r.stuck
    ensures older.fn !in after
  {
  }

  /** Only idle caches go, and none whose function's lock is held by a build. */
  predicate OnlyIdleGone(entries: seq<Cache>, after: set<Fn>, age: AgeRule, r: Round) {
    forall e :: e in entries && e.fn !in after ==> age.Drops(e) || Movable(e, age.now, r)
  }

  /** No cache is evicted for size while an older one stays that could have been evicted. */
  predicate LeastRecentlyUsedFirst(entries: seq<Cache>, after: set<Fn>, age: AgeRule, r: Round) {
    forall stays, goes :: stays in entries && goes in entries && stays.mtime < goes.mtime ==>
      stays.fn in after && SizeEvicted(goes, after, age) ==> !Movable(stays, age.now, r)
  }

  /** If any cache was evicted for size, one of them was still needed to get within the cap. */
  ghost predicate NoNeedlessEviction(entries: seq<Cache>, after: set<Fn>, age: AgeRule, cap: int) {
    (exists e :: e in entries && SizeEvicted(e, after, age)) ==>
      exists e :: e in entries && SizeEvicted(e, after, age) && Bytes(entries, after) + e.bytes > cap
  }

  predicate WithinCapOrStuck(entries: seq<Cache>, after: set<Fn>, now: int, r: Round, cap: int) {
    Bytes(entries, after) <= cap || forall e :: e in entries && e.fn in after ==> !Movable(e, now, r)
  }

  /** The caches the sweep sorts, and what its size pass leaves of them. */
  datatype Sweep = Sweep(entries: seq<Cache>, before: set<Fn>, age: AgeRule, sorted: seq<Cache>, size: CapRule,
                         n: nat) {

    predicate Valid() {
      && Listed(entries, before) && multiset(sorted) == multiset(Kept(entries, age)) && OldestFirst(sorted)
      && size.now == age.now && n == (if size.round.stopAt < |sorted| then size.round.stopAt else |sorted|)
      && size.inUse == Bytes(entries, Aged())
    }

    function Aged(): set<Fn> { before - Names(Dropped(entries, age)) }

    function Gone(): seq<Cache>
      requires Valid()
    {
      Evicted(sorted, n, size)
    }

    function After(): set<Fn>
      requires Valid()
    {
      Aged() - Names(Gone())
    }
  }

  lemma KeptIsAged(w: Sweep)
    requires w.Valid()
    ensures Kept(w.entries, w.age) == Remaining(w.entries, w.Aged()) && Listed(Kept(w.entries, w.age), w.Aged())
    ensures forall e :: e in Kept(w.entries, w.age) <==> e in w.entries && !w.age.Drops(e)
  {
    KeptIsRemaining(w.entries, w.age, w.before);
    RemainingIs(w.entries, w.Aged());
    AgedOnly(w.entries, w.age, w.before);
  }

  lemma SortedIsAged(w: Sweep)
    requires w.Valid()
    ensures Listed(w.sorted, w.Aged())
    ensures forall e :: e in w.sorted <==> e in w.entries && !w.age.Drops(e)
  {
    KeptIsAged(w);
    PermutedListing(Kept(w.entries, w.age), w.sorted, w.Aged());
  }

  lemma SortedBytes(w: Sweep, left: set<Fn>)
    requires w.Valid() && left <= w.Aged()
    ensures Bytes(w.sorted, left) == Bytes(w.entries, left)
  {
    KeptIsAged(w);
    BytesPermuted(Kept(w.entries, w.age), w.sorted, left);
    RemainingShrinks(w.entries, w.Aged(), left);
  }

  /** A cache is gone after the sweep exactly if the age pass or the size pass took it. */
  lemma GoneIs(w: Sweep, e: Cache)
    requires w.Valid() && e in w.entries
    ensures e.fn !in w.After() <==> w.age.Drops(e) || e in w.Gone()
    ensures e in w.Gone() ==> !w.age.Drops(e) && Movable(e, w.age.now, w.size.round)
  {
    SortedIsAged(w);
    DroppedIs(w.entries, w.age);
    EvictedAreMovable(w.sorted, w.n, w.size);
    if e.fn in Names(w.Gone()) {
      var x :| x in w.Gone() && x.fn == e.fn;
      assert x in w.sorted;
      assert x in w.entries;
    }
  }

  lemma SweepEvictsOldestFirst(w: Sweep, stays: Cache, goes: Cache)
    requires w.Valid() && stays in w.entries && goes in w.entries && stays.fn in w.After()
    requires SizeEvicted(goes, w.After(), w.age) && stays.mtime < goes.mtime
    ensures !Movable(stays, w.age.now, w.size.round)
  {
    GoneIs(w, stays);
    GoneIs(w, goes);
    SortedIsAged(w);
    EvictedAreMovable(w.sorted, w.n, w.size);
    var i :| 0 <= i < |w.sorted| && w.sorted[i] == stays;
    var j :| 0 <= j < w.n && w.sorted[j] == goes;
    assert i < j;
    if Movable(stays, w.age.now, w.size.round) {
      OldestGoFirst(w.sorted, w.n, w.size, i, goes);
    }
  }

  /** What the two passes guarantee together. */
  lemma SweepKeepsItsBounds(w: Sweep)
    requires w.Valid()
    ensures OnlyIdleGone(w.entries, w.After(), w.age, w.size.round)
    ensures LeastRecentlyUsedFirst(w.entries, w.After(), w.age, w.size.round)
    ensures NoNeedlessEviction(w.entries, w.After(), w.age, w.size.cap)
    ensures Bytes(w.entries, w.After()) == w.size.inUse - Size(w.Gone())
    ensures |w.entries| <= w.size.round.stopAt ==>
              WithinCapOrStuck(w.entries, w.After(), w.age.now, w.size.round, w.size.cap)
  {
    SortedIsAged(w);
    forall e | e in w.entries && e.fn !in w.After() ensures w.age.Drops(e) || Movable(e, w.age.now, w.size.round) {
      GoneIs(w, e);
    }
    forall stays, goes | stays in w.entries && goes in w.entries && stays.fn in w.After()
      && SizeEvicted(goes, w.After(), w.age) && stays.mtime < goes.mtime
      ensures !Movable(stays, w.age.now, w.size.round)
    {
      SweepEvictsOldestFirst(w, stays, goes);
    }
    SweepTotals(w);
  }

  lemma SweepTotals(w: Sweep)
    requires w.Valid()
    ensures NoNeedlessEviction(w.entries, w.After(), w.age, w.size.cap)
    ensures Bytes(w.entries, w.After()) == w.size.inUse - Size(w.Gone())
    ensures |w.entries| <= w.size.round.stopAt ==>
              WithinCapOrStuck(w.entries, w.After(), w.age.now, w.size.round, w.size.cap)
  {
    LeftInUse(w);
    EvictionNeeded(w);
    if |w.entries| <= w.size.round.stopAt {
      EndsWithinCapOrStuck(w);
    }
  }

  lemma LeftInUse(w: Sweep)
    requires w.Valid()
    ensures Bytes(w.entries, w.After()) == w.size.inUse - Size(w.Gone())
  {
    SortedIsAged(w);
    SortedBytes(w, w.Aged());
    SortedBytes(w, w.After());
    InUseIsRemaining(w.sorted, w.size, w.Aged(), w.n);
  }

  lemma EvictionNeeded(w: Sweep)
    requires w.Valid()
    ensures NoNeedlessEviction(w.entries, w.After(), w.age, w.size.cap)
  {
    LeftInUse(w);
    if w.Gone() != [] {
      LastEvictionNeeded(w.sorted, w.n, w.size);
      var last := w.Gone()[|w.Gone()| - 1];
      GoneWasListed(w, last);
      GoneIs(w, last);
    }
    forall e | e in w.entries && SizeEvicted(e, w.After(), w.age) ensures w.Gone() != [] {
      GoneIs(w, e);
    }
  }

  lemma ExpiredAreGone(w: Sweep)
    requires w.Valid()
    ensures forall e :: e in w.entries && w.age.Drops(e) ==> e.fn !in w.After()
  {
    forall e | e in w.entries && w.age.Drops(e) ensures e.fn !in w.After() {
      GoneIs(w, e);
    }
  }

  lemma GoneWasListed(w: Sweep, e: Cache)
    requires w.Valid() && e in w.Gone()
    ensures e in w.entries
  {
    SortedIsAged(w);
    EvictedAreMovable(w.sorted, w.n, w.size);
    assert e in w.sorted;
  }

  lemma EndsWithinCapOrStuck(w: Sweep)
    requires w.Valid() && |w.entries| <= w.size.round.stopAt
    ensures WithinCapOrStuck(w.entries, w.After(), w.age.now, w.size.round, w.size.cap)
  {
    LeftInUse(w);
    SortedIsAged(w);
    KeptIsShorter(w.entries, w.age);
    assert |multiset(w.sorted)| == |multiset(Kept(w.entries, w.age))|;
    WithinCapOrNothingMovable(w.sorted, w.size);
    forall e | e in w.entries && e.fn in w.After() && Bytes(w.entries, w.After()) > w.size.cap
      ensures !Movable(e, w.age.now, w.size.round)
    {
      GoneIs(w, e);
    }
  }

  lemma {:induction false} KeptIsShorter(es: seq<Cache>, age: AgeRule)
    ensures |Kept(es, age)| <= |es|
  {
    if es != [] {
      KeptIsShorter(es[..|es| - 1], age);
    }
  }

  /** The age pass takes exactly what its rule drops. */
  lemma AgedOnly(entries: seq<Cache>, age: AgeRule, before: set<Fn>)
    requires Listed(entries, before)
    ensures forall e :: e in entries ==> (e.fn !in before - Names(Dropped(entries, age)) <==> age.Drops(e))
  {
    DroppedIs(entries, age);
    forall e | e in entries && e.fn in Names(Dropped(entries, age)) ensures age.Drops(e) {
      var x :| x in Dropped(entries, age) && x.fn == e.fn;
    }
  }

  /** A cancelled age pass took only what its rule drops. */
  lemma CutShort(entries: seq<Cache>, age: AgeRule, before: set<Fn>)
    requires Listed(entries, before) && age.round.stopAt < |entries|
    ensures var gone := Dropped(entries[..age.round.stopAt], age);
            && (forall e :: e in entries && e.fn in Names(gone) ==> age.Drops(e))
            && Bytes(entries, before - Names(gone)) + Size(gone) == Bytes(entries, before)
  {
    var n := age.round.stopAt;
    var gone := Dropped(entries[..n], age);
    DroppedIs(entries[..n], age);
    forall e | e in entries && e.fn in Names(gone) ensures age.Drops(e) {
      var x :| x in gone && x.fn == e.fn;
      assert x in entries;
    }
    CutShortBytes(entries, age, before, n);
  }

  lemma CutShortBytes(entries: seq<Cache>, age: AgeRule, before: set<Fn>, n: nat)
    requires Listed(entries, before) && n <= |entries|
    ensures var gone := Dropped(entries[..n], age);
            Bytes(entries, before - Names(gone)) + Size(gone) == Bytes(entries, before)
  {
    var gone := Dropped(entries[..n], age);
    KeptIsRemaining(entries[..n], age, before);
    NotVisitedNotDropped(entries, age, before, n);
    NotVisitedStays(entries, before, gone, n);
    assert entries == entries[..n] + entries[n..];
    BytesSplit(entries[..n], entries[n..], before);
    BytesSplit(entries[..n], entries[n..], before - Names(gone));
  }

  lemma NotVisitedStays(entries: seq<Cache>, before: set<Fn>, gone: seq<Cache>, n: nat)
    requires n <= |entries| && forall i :: 0 <= i < |entries[n..]| ==> entries[n..][i].fn !in Names(gone)
    ensures Bytes(entries[n..], before - Names(gone)) == Bytes(entries[n..], before)
  {
    SameBytes(entries[n..], before, before - Names(gone));
  }

  lemma NotVisitedNotDropped(entries: seq<Cache>, age: AgeRule, before: set<Fn>, n: nat)
    requires Listed(entries, before) && n <= |entries|
    ensures forall i :: 0 <= i < |entries[n..]| ==> entries[n..][i].fn !in Names(Dropped(entries[..n], age))
  {
    DroppedIs(entries[..n], age);
    forall i | 0 <= i < |entries[n..]| ensures entries[n..][i].fn !in Names(Dropped(entries[..n], age)) {
      forall x | x in Dropped(entries[..n], age) ensures x.fn != entries[n + i].fn {
        assert x in entries[..n];
      }
    }
  }

  lemma {:induction false} SameBytes(es: seq<Cache>, a: set<Fn>, b: set<Fn>)
    requires forall i :: 0 <= i < |es| ==> (es[i].fn in a <==> es[i].fn in b)
    ensures Bytes(es, a) == Bytes(es, b)
  {
    if es != [] {
      SameBytes(es[..|es| - 1], a, b);
    }
  }

  class CacheRoot {
    /** The functions that have a cache directory. */
    var present: set<Fn>

    /** Removes a cache unless a build holds its function's lock or the removal fails. */
    method EvictBuildCache(e: Cache, r: Round) returns (ok: bool)
      modifies this
      ensures ok == Evictable(e, r)
      ensures present == if ok then old(present) - {e.fn} else old(present)
    {
      if e.fn in r.locked {
        return false;
      }
      if e.fn in r.stuck {
        return false;
      }
      present := present - {e.fn};
      return true;
    }

    /** Passes over a cache so young that a build may be writing it. */
    method EvictIfIdle(e: Cache, now: int, r: Round) returns (ok: bool)
      modifies this
      ensures ok == Movable(e, now, r)
      ensures present == if ok then old(present) - {e.fn} else old(present)
    {
      if Young(e, now) {
        return false;
      }
      ok := EvictBuildCache(e, r);
    }

    /** The age pass, up to a cancellation. */
    method DropExpired(entries: seq<Cache>, rule: AgeRule)
      returns (kept: seq<Cache>, evicted: nat, freed: nat, complete: bool)
      modifies this
      ensures complete == (|entries| <= rule.round.stopAt)
      ensures var n := if complete then |entries| else rule.round.stopAt;
              var gone := Dropped(entries[..n], rule);
              && kept == Kept(entries[..n], rule)
              && present == old(present) - Names(gone)
              && evicted == |gone| && freed == Size(gone)
    {
      kept, evicted, freed := [], 0, 0;
      var i := 0;
      while i < |entries|
        invariant 0 <= i <= |entries| && i <= rule.round.stopAt
        invariant kept == Kept(entries[..i], rule)
        invariant present == old(present) - Names(Dropped(entries[..i], rule))
        invariant evicted == |Dropped(entries[..i], rule)| && freed == Size(Dropped(entries[..i], rule))
      {
        if i == rule.round.stopAt {
          complete := false;
          return;
        }
        var e := entries[i];
        assert entries[..i + 1][..i] == entries[..i];
        NamesGrow(Dropped(entries[..i], rule), e);
        var gone := false;
        if Expired(e, rule.live, rule.maxAgeDays, rule.now) && !Young(e, rule.now) {
          gone := EvictBuildCache(e, rule.round);
        }
        if gone {
          evicted, freed := evicted + 1, freed + e.bytes;
        } else {
          kept := kept + [e];
        }
        i := i + 1;
      }
      assert entries[..i] == entries;
      complete := true;
    }

    method TotalBytes(es: seq<Cache>) returns (total: nat)
      requires Listed(es, present)
      ensures total == Bytes(es, present)
    {
      total := 0;
      var k := 0;
      while k < |es|
        invariant 0 <= k <= |es| && total == Bytes(es[..k], present)
      {
        assert es[..k + 1][..k] == es[..k];
        total, k := total + es[k].bytes, k + 1;
      }
      assert es[..k] == es;
    }

    /** Evicts the oldest caches first until the total fits, passing over those in use or stuck. */
    method EvictToCap(es: seq<Cache>, cap: nat, now: int, r: Round) returns (total: int, evicted: nat, freed: nat)
      requires Listed(es, present)
      modifies this
      ensures var rule := CapRule(Bytes(es, old(present)), cap, now, r);
              var gone := Evicted(es, if r.stopAt < |es| then r.stopAt else |es|, rule);
              && present == old(present) - Names(gone)
              && total == Bytes(es, present) && evicted == |gone| && freed == Size(gone)
    {
      total := TotalBytes(es);
      ghost var rule := CapRule(total, cap, now, r);
      ghost var stop := if r.stopAt < |es| then r.stopAt else |es|;
      evicted, freed := 0, 0;
      var i := 0;
      while i < |es|
        invariant 0 <= i <= stop
        invariant present == old(present) - Names(Evicted(es, i, rule))
        invariant total == rule.inUse - freed
        invariant evicted == |Evicted(es, i, rule)| && freed == Size(Evicted(es, i, rule))
      {
        if i == r.stopAt {
          break;
        }
        if total <= cap {
          NoneEvictedWithinCap(es, rule, i, stop);
          break;
        }
        EvictedNext(es, rule, old(present), i);
        var ok := EvictIfIdle(es[i], now, r);
        if ok {
          total, evicted, freed := total - es[i].bytes, evicted + 1, freed + es[i].bytes;
        }
        i := i + 1;
      }
      InUseIsRemaining(es, rule, old(present), stop);
    }

    /** The whole sweep: drop what expired, then bring the total under the cap, oldest first. */
    method SweepBuildCaches(entries: seq<Cache>, live: set<Fn>, maxAgeDays: int, maxMB: int, now: int, r1: Round,
                            r2: Round)
      returns (evicted: nat, freed: nat)
      requires Listed(entries, present)
      modifies this
      ensures present <= old(present)
      ensures freed == Bytes(entries, old(present)) - Bytes(entries, present)
      ensures maxMB <= 0 ==> FreshStay(entries, present, live, maxAgeDays, now)
      ensures |entries| <= r1.stopAt ==> StaleGo(entries, present, live, maxAgeDays, now, r1)
      ensures OnlyIdleGo(entries, present, now, r1, r2)
      ensures var age := AgeRule(live, maxAgeDays, now, r1);
              && OnlyIdleGone(entries, present, age, r2)
              && LeastRecentlyUsedFirst(entries, present, age, r2)
              && (maxMB > 0 ==> NoNeedlessEviction(entries, present, age, maxMB * 1048576))
              && (maxMB <= 0 ==> forall e :: e in entries && e.fn !in present ==> age.Drops(e))
              && (|entries| <= r1.stopAt ==> forall e :: e in entries && age.Drops(e) ==> e.fn !in present)
              && (|entries| <= r1.stopAt && |entries| <= r2.stopAt && maxMB > 0 ==>
                    WithinCapOrStuck(entries, present, now, r2, maxMB * 1048576))
    {
      var age := AgeRule(live, maxAgeDays, now, r1);
      var kept, evictedForAge, freedForAge, complete := DropExpired(entries, age);
      evicted, freed := evictedForAge, freedForAge;
      if !complete {
        CutShort(entries, age, old(present));
        AgedByTimes(entries, present, age, r2);
        return;
      }
      assert entries[..|entries|] == entries;
      AgedOnly(entries, age, old(present));
      KeptIsRemaining(entries, age, old(present));
      DroppedIs(entries, age);
      if maxMB > 0 {
        var sorted := SortByAge(kept);
        ghost var rule := CapRule(Bytes(entries, present), maxMB * MEBIBYTE, now, r2);
        ghost var w := Sweep(entries, old(present), age, sorted, rule, if r2.stopAt < |sorted| then r2.stopAt else |sorted|);
        SortedIsAged(w);
        SortedBytes(w, w.Aged());
        var total, evictedForSize, freedForSize := EvictToCap(sorted, maxMB * MEBIBYTE, now, r2);
        evicted, freed := evicted + evictedForSize, freed + freedForSize;
        SweepKeepsItsBounds(w);
        ExpiredAreGone(w);
      }
      AgedByTimes(entries, present, age, r2);
    }

    /** When the disk runs low: removes every cache that is not young and whose lock is free. */
    method EvictIdleBuildCaches(entries: seq<Cache>, now: int, r: Round) returns (freed: nat)
      requires Listed(entries, present)
      modifies this
      ensures present <= old(present)
      ensures forall e :: e in entries ==> (e.fn !in present <==> Movable(e, now, r))
      ensures freed == Bytes(entries, old(present)) - Bytes(entries, present)
    {
      ghost var rule := AgeRule({}, 0, now, r);
      freed := 0;
      var i := 0;
      while i < |entries|
        invariant 0 <= i <= |entries|
        invariant present == old(present) - Names(Dropped(entries[..i], rule))
        invariant freed == Size(Dropped(entries[..i], rule))
      {
        var e := entries[i];
        assert entries[..i + 1][..i] == entries[..i];
        NamesGrow(Dropped(entries[..i], rule), e);
        var ok := EvictIfIdle(e, now, r);
        if ok {
          freed := freed + e.bytes;
        }
        i := i + 1;
      }
      assert entries[..i] == entries;
      KeptIsRemaining(entries, rule, old(present));
      AgedOnly(entries, rule, old(present));
    }
  }
}
