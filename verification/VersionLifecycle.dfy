/**
 The version directories of one function and its `current` link, through builds, activations, rollbacks,
 crashes and pruning.
 */
module VersionLifecycle {
  import opened Wrappers

  /** A version directory: its readiness marker, whether its files are all there and final, and its write time. */
  datatype Version = Version(ready: bool, whole: bool, mtime: int)

  type Dirs = map<string, Version>

  // ---------------------------------------------------------------- names

  predicate HexDigit(c: char) { '0' <= c <= '9' || 'a' <= c <= 'f' }

  /** A SHA-256 digest in lower-case hexadecimal. */
  predicate BareHash(s: string) { |s| == 64 && forall i :: 0 <= i < |s| ==> HexDigit(s[i]) }

  predicate ScratchAt(s: string, i: nat) { i + 5 <= |s| && s[i..i + 5] == ".tmp." }

  predicate IsScratch(s: string) { exists i :: 0 <= i < |s| && ScratchAt(s, i) }

  function ScratchName(hash: string, suffix: string): string { hash + ".tmp." + suffix }

  lemma IsScratchIff(s: string)
    ensures IsScratch(s) <==> exists hash, suffix :: s == ScratchName(hash, suffix)
  {
    if IsScratch(s) {
      var i :| 0 <= i < |s| && ScratchAt(s, i);
      assert s == ScratchName(s[..i], s[i + 5..]);
    }
    if hash, suffix :| s == ScratchName(hash, suffix) {
      assert ScratchAt(s, |hash|);
    }
  }

  /** A scratch directory's name is recognised as one and never passes for a published version. */
  lemma ScratchIsApart(hash: string, suffix: string)
    requires BareHash(hash)
    ensures IsScratch(ScratchName(hash, suffix)) && !BareHash(ScratchName(hash, suffix)) && !IsScratch(hash)
  {
    var s := ScratchName(hash, suffix);
    assert s[64..69] == ".tmp.";
    assert ScratchAt(s, 64);
    forall i | 0 <= i < |hash| ensures !ScratchAt(hash, i) {
      if i + 5 <= |hash| {
        assert hash[i..i + 5][0] == hash[i];
      }
    }
  }

  /** The digits of a digest. */
  const HEX: string := "0123456789abcdef"

  lemma HexDigitIff(c: char)
    ensures HexDigit(c) <==> c in HEX
  {
    if HexDigit(c) {
      var i := if c <= '9' then c as int - '0' as int else c as int - 'a' as int + 10;
      assert HEX[i] == c;
    }
  }

  method IsHexHash(s: string) returns (ok: bool)
    ensures ok == BareHash(s)
    ensures ok <==> |s| == 64 && forall i :: 0 <= i < |s| ==> s[i] in "0123456789abcdef"
  {
    if |s| != 64 {
      return false;
    }
    var i := 0;
    while i < |s|
      invariant 0 <= i <= |s| && forall k :: 0 <= k < i ==> HexDigit(s[k]) && s[k] in HEX
    {
      HexDigitIff(s[i]);
      if !('0' <= s[i] <= '9' || 'a' <= s[i] <= 'f') {
        assert !HexDigit(s[i]);
        return false;
      }
      i := i + 1;
    }
    return true;
  }

  // ---------------------------------------------------------------- pruning

  /** Only published versions are considered: scratch and half-built directories are left alone. */
  predicate Candidate(dirs: Dirs, name: string) { name in dirs && !IsScratch(name) && dirs[name].ready }

  predicate NoRepeats(names: seq<string>) { forall i, j :: 0 <= i < j < |names| ==> names[i] != names[j] }

  predicate NewestFirst(dirs: Dirs, names: seq<string>)
    requires forall n :: n in names ==> n in dirs
  {
    forall i, j :: 0 <= i < j < |names| ==> dirs[names[i]].mtime >= dirs[names[j]].mtime
  }

  /** One of the orders the sort may give: every candidate once, newest first. */
  predicate PruneOrder(dirs: Dirs, order: seq<string>) {
    && (forall n :: n in order ==> Candidate(dirs, n))
    && (forall n :: n in dirs && Candidate(dirs, n) ==> n in order)
    && NoRepeats(order) && NewestFirst(dirs, order)
  }

  predicate Spared(name: string, active: Option<string>, stuck: set<string>) { Some(name) == active || name in stuck }

  /** The versions beyond the newest `keep` go, except the active one and those whose removal fails. */
  function Pruned(dirs: Dirs, order: seq<string>, keep: nat, active: Option<string>, stuck: set<string>): Dirs {
    map n | n in dirs && (n !in order[if keep < |order| then keep else |order|..] || Spared(n, active, stuck)) :: dirs[n]
  }

  /**
   What is left after pruning: everything that is no candidate, the active version, the newest `keep`
   candidates; and each candidate that went is no newer than every one of those.
   */
  lemma PruneKeepsNewest(dirs: Dirs, order: seq<string>, keep: nat, active: Option<string>, stuck: set<string>)
    requires PruneOrder(dirs, order)
    ensures var left := Pruned(dirs, order, keep, active, stuck);
            && (forall n :: n in left ==> n in dirs && left[n] == dirs[n])
            && (forall n :: n in dirs && (IsScratch(n) || !dirs[n].ready) ==> n in left)
            && (active.Some? && active.value in dirs ==> active.value in left)
            && (forall i :: 0 <= i < |order| && i < keep ==> order[i] in left)
            && (forall n, i :: n in dirs && n !in left && 0 <= i < |order| && i < keep ==>
                  dirs[n].mtime <= dirs[order[i]].mtime)
            && (forall i :: keep <= i < |order| && order[i] in left ==> Spared(order[i], active, stuck))
  {
    var m := if keep < |order| then keep else |order|;
    forall i | 0 <= i < |order| ensures order[i] in order[m..] <==> m <= i {
      if m <= i {
        assert order[m..][i - m] == order[i];
      }
    }
    forall n, i | n in dirs && n in order[m..] && 0 <= i < m
      ensures order[i] in dirs && dirs[n].mtime <= dirs[order[i]].mtime
    {
      assert order[i] in order;
    }
    forall i | 0 <= i < |order| ensures order[i] in dirs {
      assert order[i] in order;
    }
  }

  /** With no failing removal at most one version beyond `keep` stays, the active one. */
  lemma PruneBound(dirs: Dirs, order: seq<string>, keep: nat, active: Option<string>, i: nat, j: nat)
    requires PruneOrder(dirs, order) && keep <= i < |order| && keep <= j < |order|
    requires order[i] in Pruned(dirs, order, keep, active, {}) && order[j] in Pruned(dirs, order, keep, active, {})
    ensures i == j && active == Some(order[i])
  {
    assert order[i] in order[keep..] && order[j] in order[keep..];
  }

  /** Where a build can fail: while installing, at the marker, in the hook that runs after it, or while publishing. */
  datatype BuildFault = NoFault | AtInstall | AtMarker | AtHook | AtClear | AtPublish

  class VersionStore {
    var dirs: Dirs
    var current: Option<string>

    /**
     Builds a version in a scratch directory and publishes it by rename, unless it is published already.
     A failed build leaves no scratch directory, and at most the unready remains of that very version are gone.
     */
    method Build(hash: string, suffix: string, fault: BuildFault, mtime: int) returns (cached: Result<bool>)
      requires BareHash(hash) && ScratchName(hash, suffix) !in dirs
      modifies this`dirs
      ensures hash in old(dirs) && old(dirs)[hash].ready ==> cached == Ok(true) && dirs == old(dirs)
      ensures !(hash in old(dirs) && old(dirs)[hash].ready) ==>
                (fault.NoFault? ==> cached == Ok(false) && dirs == old(dirs)[hash := Version(true, true, mtime)])
                && (!fault.NoFault? ==> cached.Err? && dirs == if fault.AtPublish? then old(dirs) - {hash} else old(dirs))
    {
      if hash in dirs && dirs[hash].ready {
        return Ok(true);
      }
      var scratch := ScratchName(hash, suffix);
      ScratchIsApart(hash, suffix);
      dirs := dirs[scratch := Version(false, false, mtime)];
      if fault.AtInstall? || fault.AtMarker? {
        dirs := dirs - {scratch};
        return Err("install");
      }
      dirs := dirs[scratch := dirs[scratch].(ready := true)];
      if fault.AtHook? {
        dirs := dirs - {scratch};
        return Err("build");
      }
      dirs := dirs[scratch := dirs[scratch].(whole := true)];
      if fault.AtClear? {
        dirs := dirs - {scratch};
        return Err("clear stale version dir");
      }
      dirs := dirs - {hash};
      if fault.AtPublish? {
        dirs := dirs - {scratch};
        return Err("publish version dir");
      }
      dirs := (dirs - {scratch})[hash := dirs[scratch]];
      return Ok(false);
    }

    /** Points `current` at a version; anything but a digest is refused. */
    method ActivateVersion(codeHash: string, renameFails: bool) returns (done: Result<bool>)
      modifies this`current
      ensures done.Ok? <==> BareHash(codeHash) && !renameFails
      ensures current == if done.Ok? then Some(codeHash) else old(current)
    {
      var hex := IsHexHash(codeHash);
      if !hex {
        return Err("activate: invalid code hash");
      }
      if renameFails {
        return Err("activate: atomic rename");
      }
      current := Some(codeHash);
      return Ok(true);
    }

    /** The published versions among the listed names. */
    method Candidates(entries: seq<string>) returns (cands: seq<string>)
      requires NoRepeats(entries) && forall n :: n in entries ==> n in dirs
      ensures NoRepeats(cands) && forall n :: n in cands <==> n in entries && Candidate(dirs, n)
    {
      cands := [];
      var i := 0;
      while i < |entries|
        invariant 0 <= i <= |entries| && NoRepeats(cands)
        invariant forall n :: n in cands <==> n in entries[..i] && Candidate(dirs, n)
      {
        assert entries[..i + 1] == entries[..i] + [entries[i]];
        if !IsScratch(entries[i]) && dirs[entries[i]].ready {
          assert entries[i] !in entries[..i];
          cands := cands + [entries[i]];
        }
        i := i + 1;
      }
      assert entries[..i] == entries;
    }

    /** Sorts the names by write time, newest first; versions written at once come in any order. */
    method SortNewestFirst(names: seq<string>) returns (sorted: seq<string>)
      requires NoRepeats(names) && forall n :: n in names ==> n in dirs
      ensures forall n :: n in sorted <==> n in names
      ensures NoRepeats(sorted) && NewestFirst(dirs, sorted)
    {
      sorted := [];
      var i := 0;
      while i < |names|
        invariant 0 <= i <= |names|
        invariant forall n :: n in sorted <==> n in names[..i]
        invariant NoRepeats(sorted) && NewestFirst(dirs, sorted)
      {
        assert names[..i + 1] == names[..i] + [names[i]];
        assert names[i] !in names[..i];
        sorted := InsertNewestFirst(sorted, names[i]);
        i := i + 1;
      }
      assert names[..i] == names;
    }

    method InsertNewestFirst(sorted: seq<string>, name: string) returns (r: seq<string>)
      requires NoRepeats(sorted) && name !in sorted && name in dirs && forall n :: n in sorted ==> n in dirs
      requires NewestFirst(dirs, sorted)
      ensures forall n :: n in r <==> n in sorted || n == name
      ensures NoRepeats(r) && NewestFirst(dirs, r)
    {
      var k := |sorted|;
      while k > 0 && dirs[sorted[k - 1]].mtime < dirs[name].mtime
        invariant 0 <= k <= |sorted|
        invariant k < |sorted| ==> dirs[sorted[k]].mtime < dirs[name].mtime
      {
        k := k - 1;
      }
      r := sorted[..k] + [name] + sorted[k..];
      InsertedNewestFirst(dirs, sorted, name, k);
    }

    /** Removes the versions past the first `keep` of the order, sparing the active one and those stuck. */
    method RemoveBeyond(order: seq<string>, keep: nat, active: Option<string>, stuck: set<string>) returns (pruned: nat)
      requires PruneOrder(dirs, order)
      modifies this`dirs
      ensures dirs == Pruned(old(dirs), order, keep, active, stuck)
      ensures pruned + |dirs| == |old(dirs)|
    {
      ghost var was := dirs;
      ghost var m := if keep < |order| then keep else |order|;
      pruned := 0;
      var i := 0;
      while i < |order|
        invariant 0 <= i <= |order|
        invariant dirs == Left(was, order, m, i, active, stuck)
        invariant pruned + |dirs| == |was|
      {
        LeftStep(was, order, m, i, active, stuck);
        if i >= keep && Some(order[i]) != active && order[i] !in stuck {
          OneFewer(dirs, order[i]);
          dirs := dirs - {order[i]};
          pruned := pruned + 1;
        }
        i := i + 1;
      }
      LeftIsPruned(was, order, keep, active, stuck);
    }

    /** Removes all but the newest `keep` versions and the active one. */
    method PruneFunction(entries: seq<string>, keep: nat, stuck: set<string>) returns (pruned: nat, order: seq<string>)
      requires NoRepeats(entries) && (forall n :: n in entries <==> n in dirs)
      modifies this`dirs
      ensures PruneOrder(old(dirs), order)
      ensures dirs == Pruned(old(dirs), order, keep, current, stuck)
      ensures pruned + |dirs| == |old(dirs)|
    {
      var cands := Candidates(entries);
      order := SortNewestFirst(cands);
      if |cands| <= keep {
        SameNames(cands, order);
        assert order[if keep < |order| then keep else |order|..] == [];
        return 0, order;
      }
      pruned := RemoveBeyond(order, keep, current, stuck);
    }
  }

  lemma OneFewer(dirs: Dirs, name: string)
    requires name in dirs
    ensures |dirs - {name}| == |dirs| - 1
  {
    assert (dirs - {name}).Keys == dirs.Keys - {name};
    assert |(dirs - {name}).Keys| == |dirs - {name}| && |dirs.Keys| == |dirs|;
  }

  lemma InsertedNewestFirst(dirs: Dirs, sorted: seq<string>, name: string, k: nat)
    requires NoRepeats(sorted) && name !in sorted && name in dirs && forall n :: n in sorted ==> n in dirs
    requires NewestFirst(dirs, sorted) && k <= |sorted|
    requires k < |sorted| ==> dirs[sorted[k]].mtime < dirs[name].mtime
    requires k > 0 ==> dirs[sorted[k - 1]].mtime >= dirs[name].mtime
    ensures var r := sorted[..k] + [name] + sorted[k..];
            (forall n :: n in r <==> n in sorted || n == name) && NoRepeats(r) && NewestFirst(dirs, r)
  {
    var r := sorted[..k] + [name] + sorted[k..];
    InsertedNames(sorted, name, k);
    forall i, j | 0 <= i < j < |r| ensures dirs[r[i]].mtime >= dirs[r[j]].mtime {
      InsertedAt(sorted, name, k, i);
      InsertedAt(sorted, name, k, j);
    }
    forall i, j | 0 <= i < j < |r| ensures r[i] != r[j] {
      InsertedAt(sorted, name, k, i);
      InsertedAt(sorted, name, k, j);
    }
  }

  lemma InsertedAt(sorted: seq<string>, name: string, k: nat, i: nat)
    requires k <= |sorted| && i <= |sorted|
    ensures (sorted[..k] + [name] + sorted[k..])[i] ==
            if i < k then sorted[i] else if i == k then name else sorted[i - 1]
  {
  }

  lemma InsertedNames(sorted: seq<string>, name: string, k: nat)
    requires k <= |sorted|
    ensures forall n :: n in sorted[..k] + [name] + sorted[k..] <==> n in sorted || n == name
  {
    assert sorted == sorted[..k] + sorted[k..];
  }

  lemma SameNames(a: seq<string>, b: seq<string>)
    requires NoRepeats(a) && NoRepeats(b) && forall n :: n in a <==> n in b
    ensures |a| == |b|
  {
    NamesCounted(a);
    NamesCounted(b);
    assert (set n | n in a) == (set n | n in b);
  }

  lemma {:induction false} NamesCounted(a: seq<string>)
    requires NoRepeats(a)
    ensures |set n | n in a| == |a|
  {
    if a != [] {
      var init, x := a[..|a| - 1], a[|a| - 1];
      NamesCounted(init);
      assert a == init + [x];
      assert x !in init;
      assert (set n | n in a) == (set n | n in init) + {x};
    }
  }

  /** The directories once the sorted versions before `i` were visited. */
  function Left(dirs: Dirs, order: seq<string>, m: nat, i: nat, active: Option<string>, stuck: set<string>): Dirs
    requires i <= |order|
  {
    map n | n in dirs && (Spared(n, active, stuck) || forall k :: m <= k < i ==> order[k] != n) :: dirs[n]
  }

  lemma LeftStep(dirs: Dirs, order: seq<string>, m: nat, i: nat, active: Option<string>, stuck: set<string>)
    requires i < |order| && NoRepeats(order) && forall n :: n in order ==> n in dirs
    ensures var before := Left(dirs, order, m, i, active, stuck);
            && order[i] in before
            && Left(dirs, order, m, i + 1, active, stuck)
               == if m <= i && !Spared(order[i], active, stuck) then before - {order[i]} else before
  {
    var before := Left(dirs, order, m, i, active, stuck);
    var after := Left(dirs, order, m, i + 1, active, stuck);
    assert order[i] in order;
    forall n | n in dirs ensures n in after <==> n in before && !(m <= i && n == order[i] && !Spared(n, active, stuck)) {
      if n in before && !(m <= i && n == order[i]) && !Spared(n, active, stuck) {
        assert forall k :: m <= k < i ==> order[k] != n;
      }
    }
  }

  lemma LeftIsPruned(dirs: Dirs, order: seq<string>, keep: nat, active: Option<string>, stuck: set<string>)
    ensures Left(dirs, order, if keep < |order| then keep else |order|, |order|, active, stuck)
            == Pruned(dirs, order, keep, active, stuck)
  {
    var m := if keep < |order| then keep else |order|;
    forall n ensures n in order[m..] <==> exists k :: m <= k < |order| && order[k] == n {
      if n in order[m..] {
        var k :| 0 <= k < |order[m..]| && order[m..][k] == n;
        assert order[m + k] == n;
      }
    }
  }
}
