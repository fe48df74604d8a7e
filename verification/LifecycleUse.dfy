/** How long an engine stays after it was last used, and when the sweep takes it. */
module LifecycleUse {
  import opened Wrappers
  import opened Lifecycle

  /** Nothing of the torrent is read, leased or selected. */
  ghost predicate Unplayed(s: State, h: Hash) {
    && (h in s.streams ==> s.streams[h] == 0)
    && (forall f: nat :: (h, f) in s.fileStreams ==> s.fileStreams[(h, f)] == 0)
    && (forall f: nat :: (h, f) in s.leases ==> s.leases[(h, f)].expiresAt <= s.now)
    && h !in s.selections
  }

  /** A torrent with files that nobody plays and nobody reads. */
  ghost predicate Rests(s: State, h: Hash) {
    h in s.engines && s.engines[h].readers == 0 && s.engines[h].fileCount > 0 && Unplayed(s, h)
  }

  lemma UnplayedIff(s: State, h: Hash)
    ensures Active(s, h) <==> !Unplayed(s, h)
    ensures MayPause(s, h) <==> Rests(s, h)
  {
    if FileActive(s, h) {
      var k :| k in s.fileStreams && k.0 == h && s.fileStreams[k] > 0;
      assert (h, k.1) == k;
    }
    if PlaybackActive(s, h) {
      var k :| k in s.leases && k.0 == h && LeaseIsActive(s.leases[k], s.now);
      assert (h, k.1) == k;
    }
    if !Unplayed(s, h) && !FileActive(s, h) && Count(s.streams, h) == 0 && h !in s.selections {
      var f: nat :| (h, f) in s.leases && s.leases[(h, f)].expiresAt > s.now;
      assert LeaseIsActive(s.leases[(h, f)], s.now);
    }
  }

  /** The step is a call about the torrent, adds it, or is a pause task that meets it at rest with seeding off. */
  ghost predicate Uses(s: State, step: Step, h: Hash) {
    match step
    case StartStream(g, _, _, _) => g == h
    case EndStream(g, _) => g == h
    case Select(g, _, _) => g == h
    case Refresh(g, _, _, _) => g == h
    case RefreshKnown(g, _, _, _) => g == h
    case EndPlayback(g, _) => g == h
    case Add(g, _) => g == h
    case RunPause(id, _) => id in s.pauses && s.pauses[id].hash == h && !s.seeding && Rests(s, h)
    case _ => false
  }

  /** The sweep may take the torrent: unused for more than five minutes, at rest and not the active one. */
  ghost predicate Forgotten(s: State, h: Hash) {
    && h in s.engines && s.now - s.engines[h].lastAccessed > 300 && s.engines[h].readers == 0
    && Unplayed(s, h) && forall f: nat :: s.activeFile != Some((h, f))
  }

  lemma SweepTakesForgotten(s: State, h: Hash)
    requires h in s.engines
    ensures h !in RemoveInactive(s).engines <==> Forgotten(s, h)
    ensures h in RemoveInactive(s).engines ==> RemoveInactive(s).engines[h] == s.engines[h]
  {
    UnplayedIff(s, h);
    if s.activeFile.Some? && s.activeFile.value.0 == h {
      assert s.activeFile == Some((h, s.activeFile.value.1));
    }
  }

  /* ---- One step ---- */

  /** Of all engines only that of `g` may have been used, and it is as old as now. */
  ghost predicate UsesOnly(s: State, t: State, g: Hash, h: Hash) {
    && t.now == s.now
    && (h in t.engines <==> h in s.engines)
    && (h in s.engines ==> t.engines[h].lastAccessed == if g == h then s.now else s.engines[h].lastAccessed)
  }

  /** The engine is where it was, used no later. */
  ghost predicate SameUse(s: State, t: State, h: Hash) {
    && t.now == s.now
    && (h in t.engines <==> h in s.engines)
    && (h in s.engines ==> t.engines[h].lastAccessed == s.engines[h].lastAccessed)
  }

  lemma SelectFileUses(s: State, g: Hash, n: nat, e: Engine, h: Hash)
    requires g in s.engines && e.lastAccessed == s.now
    ensures UsesOnly(s, SelectFile(s, g, n, e), g, h)
  {
  }

  lemma ActivationUses(s: State, g: Hash, n: nat, keep: bool, ok1: bool, ok2: bool, h: Hash)
    ensures UsesOnly(s, ActivateFile(s, g, n, keep, ok1, ok2), g, h)
  {
    if Multifile(s, g) {
      SelectFileUses(s, g, n, Resumed(Resumed(s.engines[g].(lastAccessed := s.now), ok1), ok2), h);
    }
  }

  lemma SelectionUses(s: State, g: Hash, n: nat, ok: bool, h: Hash)
    ensures UsesOnly(s, ActivateMultifile(s, g, n, ok), g, h)
  {
    if Multifile(s, g) {
      SelectFileUses(s, g, n, Resumed(s.engines[g].(lastAccessed := s.now), ok), h);
    }
  }

  lemma RefreshUses(s: State, g: Hash, n: nat, ok1: bool, ok2: bool, h: Hash)
    ensures UsesOnly(s, RefreshHls(s, g, n, ok1, ok2), g, h)
  {
    var s1 := s.(leases := s.leases[(g, n) := Lease(s.now, s.now + HLS_PLAYBACK_LEASE_TTL)]);
    if g in s.engines {
      ActivationUses(s1, g, n, true, ok1, ok2, h);
      assert RefreshHls(s, g, n, ok1, ok2) == ActivateFile(s1, g, n, true, ok1, ok2);
    } else {
      assert RefreshHls(s, g, n, ok1, ok2) == s1;
    }
  }

  lemma PollUses(s: State, g: Hash, n: nat, ok1: bool, ok2: bool, h: Hash)
    ensures UsesOnly(s, RefreshExisting(s, g, n, ok1, ok2), g, h)
  {
    if (g, n) in s.leases && LeaseIsActive(s.leases[(g, n)], s.now) {
      RefreshUses(s, g, n, ok1, ok2, h);
    }
  }

  lemma EndingsUse(s: State, g: Hash, n: nat, h: Hash)
    ensures UsesOnly(s, StreamEnd(s, g, n), g, h) && UsesOnly(s, EndHls(s, g, n), g, h)
  {
  }

  lemma ReleaseSameUse(s: State, g: Hash, n: nat, fallback: nat, h: Hash)
    ensures SameUse(s, ReleaseFile(s, g, n, fallback), h)
  {
  }

  lemma CleanupSameUse(s: State, id: nat, h: Hash)
    requires id in s.cleanups
    ensures SameUse(s, FireCleanup(s, id), h)
  {
    var c := s.cleanups[id];
    if !CleanupSkips(s, c) {
      ReleaseSameUse(s.(cleanups := s.cleanups - {id}), c.hash, c.file, c.generation.GetOr(0), h);
    }
  }

  lemma {:induction false} ExpireKeysSameUse(s: State, order: seq<Key>, h: Hash)
    ensures SameUse(s, ExpireKeys(s, order), h)
    decreases |order|
  {
    if order != [] {
      ReleaseSameUse(s, order[0].0, order[0].1, 0, h);
      ExpireKeysSameUse(ExpireKey(s, order[0]), order[1..], h);
    }
  }

  lemma {:induction false} PauseAllSameUse(s: State, order: seq<Hash>, refusing: set<Hash>, h: Hash)
    ensures SameUse(s, PauseAll(s, order, refusing), h)
    decreases |order|
  {
    if order != [] {
      PauseAllSameUse(PauseIfIdle(s, order[0], order[0] !in refusing), order[1..], refusing, h);
    }
  }

  lemma PauseTaskUses(s: State, id: nat, ok: bool, h: Hash)
    requires id in s.pauses
    ensures var t := FirePause(s, id, ok);
      if Uses(s, RunPause(id, ok), h) then UsesOnly(s, t, h, h) else SameUse(s, t, h)
  {
    UnplayedIff(s, s.pauses[id].hash);
  }

  lemma EngineStepsUse(s: State, g: Hash, n: nat, h: Hash)
    ensures SameUse(s, SetReaders(s, g, n), h) && SameUse(s, ResolveMetadata(s, g, n), h)
  {
  }

  lemma AddUses(s: State, g: Hash, n: nat, h: Hash)
    ensures var t := AddEngine(s, g, n);
      (g != h ==> SameUse(s, t, h)) && (g == h ==> h in t.engines && t.engines[h].lastAccessed == s.now)
  {
  }

  ghost predicate UseAfter(s: State, step: Step, t: State, h: Hash) {
    && t.now >= s.now
    && (h in t.engines && Uses(s, step, h) ==> t.engines[h].lastAccessed == s.now)
    && (h in t.engines && !Uses(s, step, h) ==>
          h in s.engines && t.engines[h].lastAccessed == s.engines[h].lastAccessed)
    && (h in s.engines && h !in t.engines ==> step == Remove(h) || (step.SweepInactive? && Forgotten(s, h)))
  }

  /** A use is remembered with its time, any other step leaves the time alone, and only removals take engines. */
  lemma StepUse(s: State, step: Step, h: Hash)
    requires Enabled(s, step)
    ensures UseAfter(s, step, Next(s, step), h)
  {
    match step
    case StartStream(g, n, ok1, ok2) => ActivationUses(s, g, n, false, ok1, ok2, h);
    case EndStream(g, n) => EndingsUse(s, g, n, h);
    case Select(g, n, ok) => SelectionUses(s, g, n, ok, h);
    case Refresh(g, n, ok1, ok2) => RefreshUses(s, g, n, ok1, ok2, h);
    case RefreshKnown(g, n, ok1, ok2) => PollUses(s, g, n, ok1, ok2, h);
    case EndPlayback(g, n) => EndingsUse(s, g, n, h);
    case RunCleanup(id) => CleanupSameUse(s, id, h);
    case RunPause(id, ok) => PauseTaskUses(s, id, ok, h);
    case SweepExpired(keys) => ExpireKeysSameUse(s.(leases := s.leases - ExpiredLeases(s)), keys, h);
    case SweepInactive =>
      if h in s.engines {
        SweepTakesForgotten(s, h);
      }
    case SweepIdle(hashes, refusing) => PauseAllSameUse(s, hashes, refusing, h);
    case Readers(g, n) => EngineStepsUse(s, g, n, h);
    case Add(g, n) => AddUses(s, g, n, h);
    case Resolve(g, n) => EngineStepsUse(s, g, n, h);
    case _ =>
  }

  /* ---- Over runs ---- */

  lemma {:induction false} TimeOnlyGrows(states: seq<State>, steps: seq<Step>, i: nat, n: nat)
    requires Run(states, steps) && i <= n <= |steps|
    ensures states[i].now <= states[n].now
  {
    if i < n {
      TimeOnlyGrows(states, steps, i, n - 1);
      StepUse(states[n - 1], steps[n - 1], "");
    }
  }

  /** No use of an engine is younger than its mark, nor is the run. */
  lemma {:induction false} UsesAreOlder(states: seq<State>, steps: seq<Step>, n: nat, i: nat, h: Hash)
    requires Run(states, steps) && n <= |steps| && h in states[n].engines
    requires i == 0 || (i <= n && Uses(states[i - 1], steps[i - 1], h))
    ensures states[if i == 0 then 0 else i - 1].now <= states[n].engines[h].lastAccessed
  {
    if n > 0 {
      var m := n - 1;
      StepUse(states[m], steps[m], h);
      if Uses(states[m], steps[m], h) {
        TimeOnlyGrows(states, steps, if i == 0 then 0 else i - 1, m);
      } else {
        UsesAreOlder(states, steps, m, i, h);
      }
    }
  }

  ghost predicate UsedAt(states: seq<State>, steps: seq<Step>, i: int, h: Hash, time: nat)
    requires 0 <= i < |steps| < |states|
  {
    Uses(states[i], steps[i], h) && states[i].now == time
  }

  /** The mark of an engine is the time of some use of it, or the start of the run. */
  lemma {:induction false} MarkIsAUse(states: seq<State>, steps: seq<Step>, n: nat, h: Hash)
    requires Run(states, steps) && n <= |steps| && h in states[n].engines
    ensures var last := states[n].engines[h].lastAccessed;
      last == states[0].now || exists i :: 0 <= i < n && UsedAt(states, steps, i, h, last)
  {
    if n > 0 {
      var m := n - 1;
      StepUse(states[m], steps[m], h);
      if Uses(states[m], steps[m], h) {
        assert UsedAt(states, steps, m, h, states[n].engines[h].lastAccessed);
      } else {
        MarkIsAUse(states, steps, m, h);
      }
    }
  }

  /**
    A torrent that a step uses, and that is there afterwards, stays for at least five minutes
    whatever else happens, unless it is removed by hand.
  */
  lemma {:induction false} StaysAfterUse(states: seq<State>, steps: seq<Step>, i: nat, n: nat, h: Hash)
    requires Run(states, steps) && i < n <= |steps|
    requires Uses(states[i], steps[i], h) && h in states[i + 1].engines
    requires forall m :: i < m < n ==> steps[m] != Remove(h)
    requires states[n].now - states[i].now <= 300
    ensures h in states[n].engines
  {
    if n > i + 1 {
      var m := n - 1;
      TimeOnlyGrows(states, steps, i, m);
      StepUse(states[m], steps[m], h);
      StaysAfterUse(states, steps, i, m, h);
      UsesAreOlder(states, steps, m, i + 1, h);
    }
  }

  /**
    The sweep takes a torrent exactly if every use of it and the start of the program are more
    than five minutes ago, nobody reads or plays it, and none of its files is the active one.
  */
  lemma SweepTakesIff(states: seq<State>, steps: seq<Step>, n: nat, h: Hash)
    requires Run(states, steps) && n < |steps| && steps[n].SweepInactive? && h in states[n].engines
    ensures h !in states[n + 1].engines <==>
            && (forall i :: 0 <= i < n && Uses(states[i], steps[i], h) ==> states[n].now - states[i].now > 300)
            && states[n].now - states[0].now > 300
            && states[n].engines[h].readers == 0 && Unplayed(states[n], h)
            && forall f: nat :: states[n].activeFile != Some((h, f))
  {
    var last := states[n].engines[h].lastAccessed;
    SweepTakesForgotten(states[n], h);
    MarkIsAUse(states, steps, n, h);
    UsesAreOlder(states, steps, n, 0, h);
    forall i | 0 <= i < n && Uses(states[i], steps[i], h)
      ensures states[i].now <= last
    {
      UsesAreOlder(states, steps, n, i + 1, h);
    }
    if i :| 0 <= i < n && UsedAt(states, steps, i, h, last) {
      assert Uses(states[i], steps[i], h);
    }
  }
}
