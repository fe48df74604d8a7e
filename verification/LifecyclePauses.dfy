/** When exactly the idle policy holds a torrent paused. */
module LifecyclePauses {
  import opened Lifecycle
  import opened LifecycleIdle
  import opened LifecycleRelease

  /** The step pauses the torrent: a task or the sweep meets it idle with seeding off, and is not refused. */
  ghost predicate Pauses(s: State, step: Step, h: Hash) {
    match step
    case RunPause(id, ok) => id in s.pauses && s.pauses[id].hash == h && ok && !s.seeding && MayPause(s, h)
    case SweepIdle(_, refusing) => h !in refusing && !s.seeding && MayPause(s, h)
    case _ => false
  }

  /** The step ends a pause: the torrent is resumed after seeding was turned on, or it is removed. */
  ghost predicate Unpauses(s: State, step: Step, h: Hash) {
    match step
    case RunResume(refusing) => h !in refusing
    case Remove(g) => g == h
    case SweepInactive => h in s.engines && Removable(s, h)
    case _ => false
  }

  /** The torrent's engine is there just as before, and so is its idle flag. */
  predicate SameFlag(s: State, t: State, h: Hash) {
    IsIdle(t, h) <==> IsIdle(s, h)
  }

  /** Of all torrents only that of the call may change, and it is not paused. */
  ghost predicate Wakes(s: State, t: State, g: Hash, h: Hash) {
    (g != h ==> SameFlag(s, t, h)) && (IsIdle(t, h) ==> IsIdle(s, h))
  }

  lemma SelectFileWakes(s: State, g: Hash, n: nat, e: Engine, h: Hash)
    requires g in s.engines && (e.idlePaused ==> s.engines[g].idlePaused)
    ensures Wakes(s, SelectFile(s, g, n, e), g, h)
  {
    assert SelectFile(s, g, n, e).engines.Keys == s.engines.Keys;
  }

  lemma SingleWakes(s: State, g: Hash, n: nat, keep: bool, ok: bool, h: Hash)
    ensures Wakes(s, ActivateSingle(s, g, n, keep, ok), g, h)
  {
  }

  lemma ActivationWakesOnly(s: State, g: Hash, n: nat, keep: bool, ok1: bool, ok2: bool, h: Hash)
    ensures Wakes(s, ActivateFile(s, g, n, keep, ok1, ok2), g, h)
  {
    if Multifile(s, g) {
      var e := Resumed(Resumed(s.engines[g].(lastAccessed := s.now), ok1), ok2);
      SelectFileWakes(s, g, n, e, h);
      assert ActivateFile(s, g, n, keep, ok1, ok2) == SelectFile(s, g, n, e);
    } else {
      SingleWakes(s, g, n, keep, ok1, h);
      assert ActivateFile(s, g, n, keep, ok1, ok2) == ActivateSingle(s, g, n, keep, ok1);
    }
  }

  lemma SelectionWakesOnly(s: State, g: Hash, n: nat, ok: bool, h: Hash)
    ensures Wakes(s, ActivateMultifile(s, g, n, ok), g, h)
  {
    if Multifile(s, g) {
      SelectFileWakes(s, g, n, Resumed(s.engines[g].(lastAccessed := s.now), ok), h);
    }
  }

  lemma RefreshWakesOnly(s: State, g: Hash, n: nat, ok1: bool, ok2: bool, h: Hash)
    ensures Wakes(s, RefreshHls(s, g, n, ok1, ok2), g, h)
  {
    var s1 := s.(leases := s.leases[(g, n) := Lease(s.now, s.now + HLS_PLAYBACK_LEASE_TTL)]);
    if g in s.engines {
      ActivationWakesOnly(s1, g, n, true, ok1, ok2, h);
      assert RefreshHls(s, g, n, ok1, ok2) == ActivateFile(s1, g, n, true, ok1, ok2);
    } else {
      assert RefreshHls(s, g, n, ok1, ok2) == s1;
    }
  }

  lemma PollWakesOnly(s: State, g: Hash, n: nat, ok1: bool, ok2: bool, h: Hash)
    ensures Wakes(s, RefreshExisting(s, g, n, ok1, ok2), g, h)
  {
    if (g, n) in s.leases && LeaseIsActive(s.leases[(g, n)], s.now) {
      RefreshWakesOnly(s, g, n, ok1, ok2, h);
    }
  }

  lemma ReleaseSameFlag(s: State, g: Hash, n: nat, fallback: nat, h: Hash)
    ensures SameFlag(s, ReleaseFile(s, g, n, fallback), h)
  {
  }

  lemma CleanupSameFlag(s: State, id: nat, h: Hash)
    requires id in s.cleanups
    ensures SameFlag(s, FireCleanup(s, id), h)
  {
    var c := s.cleanups[id];
    if !CleanupSkips(s, c) {
      ReleaseSameFlag(s.(cleanups := s.cleanups - {id}), c.hash, c.file, c.generation.GetOr(0), h);
    }
  }

  lemma {:induction false} ExpireKeysSameFlag(s: State, order: seq<Key>, h: Hash)
    ensures SameFlag(s, ExpireKeys(s, order), h)
    decreases |order|
  {
    if order != [] {
      ReleaseSameFlag(s, order[0].0, order[0].1, 0, h);
      ExpireKeysSameFlag(ExpireKey(s, order[0]), order[1..], h);
    }
  }

  lemma EndingsSameFlag(s: State, g: Hash, n: nat, h: Hash)
    ensures SameFlag(s, StreamEnd(s, g, n), h) && SameFlag(s, EndHls(s, g, n), h)
  {
  }

  lemma EngineStepsSameFlag(s: State, g: Hash, n: nat, h: Hash)
    ensures SameFlag(s, SetReaders(s, g, n), h) && SameFlag(s, AddEngine(s, g, n), h)
    ensures SameFlag(s, ResolveMetadata(s, g, n), h)
  {
  }

  lemma PauseTaskFlagIff(s: State, id: nat, ok: bool, h: Hash)
    requires id in s.pauses
    ensures IsIdle(FirePause(s, id, ok), h) <==> IsIdle(s, h) || Pauses(s, RunPause(id, ok), h)
  {
  }

  lemma SweepFlagIff(s: State, order: seq<Hash>, refusing: set<Hash>, h: Hash)
    requires Enabled(s, SweepIdle(order, refusing))
    ensures IsIdle(SweepPauses(s, order, refusing), h) <==> IsIdle(s, h) || Pauses(s, SweepIdle(order, refusing), h)
  {
    SweepPausesIdle(s, order, refusing);
  }

  /** A step that is no call about the torrent leaves it paused exactly if it pauses it, or finds and leaves it so. */
  lemma StepPausedIff(s: State, step: Step, h: Hash)
    requires Enabled(s, step) && !Calls(step, h)
    ensures IsIdle(Next(s, step), h) <==> Pauses(s, step, h) || (IsIdle(s, h) && !Unpauses(s, step, h))
  {
    match step
    case StartStream(g, n, ok1, ok2) => ActivationWakesOnly(s, g, n, false, ok1, ok2, h);
    case Select(g, n, ok) => SelectionWakesOnly(s, g, n, ok, h);
    case Refresh(g, n, ok1, ok2) => RefreshWakesOnly(s, g, n, ok1, ok2, h);
    case RefreshKnown(g, n, ok1, ok2) => PollWakesOnly(s, g, n, ok1, ok2, h);
    case EndStream(g, n) => EndingsSameFlag(s, g, n, h);
    case EndPlayback(g, n) => EndingsSameFlag(s, g, n, h);
    case RunCleanup(id) => CleanupSameFlag(s, id, h);
    case SweepExpired(keys) => ExpireKeysSameFlag(s.(leases := s.leases - ExpiredLeases(s)), keys, h);
    case SweepIdle(order, refusing) => SweepFlagIff(s, order, refusing, h);
    case RunPause(id, ok) => PauseTaskFlagIff(s, id, ok, h);
    case Readers(g, n) => EngineStepsSameFlag(s, g, n, h);
    case Add(g, n) => EngineStepsSameFlag(s, g, n, h);
    case Resolve(g, n) => EngineStepsSameFlag(s, g, n, h);
    case _ =>
  }

  /** A call about a torrent never pauses it. */
  lemma CallNeverPauses(s: State, step: Step, h: Hash)
    requires Enabled(s, step) && Calls(step, h)
    ensures IsIdle(Next(s, step), h) ==> IsIdle(s, h)
  {
    match step
    case StartStream(g, n, ok1, ok2) => ActivationWakesOnly(s, g, n, false, ok1, ok2, h);
    case Select(g, n, ok) => SelectionWakesOnly(s, g, n, ok, h);
    case Refresh(g, n, ok1, ok2) => RefreshWakesOnly(s, g, n, ok1, ok2, h);
    case RefreshKnown(g, n, ok1, ok2) => PollWakesOnly(s, g, n, ok1, ok2, h);
    case EndStream(g, n) => EndingsSameFlag(s, g, n, h);
    case EndPlayback(g, n) => EndingsSameFlag(s, g, n, h);
  }

  /** A torrent that a step leaves paused was paused before, or the step pauses it. */
  lemma StepPausesOnly(s: State, step: Step, h: Hash)
    requires Enabled(s, step)
    ensures IsIdle(Next(s, step), h) ==> IsIdle(s, h) || Pauses(s, step, h)
    ensures Pauses(s, step, h) ==> IsIdle(Next(s, step), h)
  {
    if Calls(step, h) {
      CallNeverPauses(s, step, h);
    } else {
      StepPausedIff(s, step, h);
    }
  }

  ghost predicate NoWake(states: seq<State>, steps: seq<Step>, from: int, k: int, h: Hash)
    requires 0 <= from && k <= |steps| < |states|
  {
    forall n :: from <= n < k ==> !Unpauses(states[n], steps[n], h)
  }

  /** A pause at `j` that nothing has ended by `k`. */
  ghost predicate PausedSince(states: seq<State>, steps: seq<Step>, j: int, k: int, h: Hash)
    requires 0 <= j < k <= |steps| < |states|
  {
    Pauses(states[j], steps[j], h) && NoWake(states, steps, j + 1, k, h)
  }

  ghost predicate PausedBetween(states: seq<State>, steps: seq<Step>, i: int, k: int, h: Hash)
    requires 0 <= i <= k <= |steps| < |states|
  {
    exists j :: i <= j < k && PausedSince(states, steps, j, k, h)
  }

  lemma NoWakeOnward(states: seq<State>, steps: seq<Step>, from: int, m: int, h: Hash)
    requires 0 <= from <= m < |steps| < |states|
    ensures NoWake(states, steps, from, m + 1, h) <==>
            NoWake(states, steps, from, m, h) && !Unpauses(states[m], steps[m], h)
  {
  }

  /** One step more: a pause lasts, unless it is ended, or the step is one itself. */
  lemma PausedBetweenOnward(states: seq<State>, steps: seq<Step>, i: int, m: int, h: Hash)
    requires 0 <= i <= m < |steps| < |states|
    ensures PausedBetween(states, steps, i, m + 1, h) <==>
            || Pauses(states[m], steps[m], h)
            || (PausedBetween(states, steps, i, m, h) && !Unpauses(states[m], steps[m], h))
  {
    var k := m + 1;
    forall j | i <= j < m
      ensures PausedSince(states, steps, j, k, h) <==>
              PausedSince(states, steps, j, m, h) && !Unpauses(states[m], steps[m], h)
    {
      NoWakeOnward(states, steps, j + 1, m, h);
    }
    if PausedBetween(states, steps, i, m, h) && !Unpauses(states[m], steps[m], h) {
      var j :| i <= j < m && PausedSince(states, steps, j, m, h);
      assert PausedSince(states, steps, j, k, h);
    }
    if PausedBetween(states, steps, i, k, h) && !Pauses(states[m], steps[m], h) {
      var j :| i <= j < k && PausedSince(states, steps, j, k, h);
      assert PausedSince(states, steps, j, m, h);
    }
    assert PausedSince(states, steps, m, k, h) <==> Pauses(states[m], steps[m], h);
  }

  /**
    In any stretch of a run without calls about a torrent, the policy holds it paused at the end
    exactly if it did so at the start, or a pause task or sweep met it idle with seeding off and
    was not refused, and neither a resume nor a removal has come since.
  */
  lemma {:induction false} PausedIff(states: seq<State>, steps: seq<Step>, i: nat, k: nat, h: Hash)
    requires LeftAlone(states, steps, i, k, h)
    ensures IsIdle(states[k], h) <==>
            || (IsIdle(states[i], h) && NoWake(states, steps, i, k, h))
            || PausedBetween(states, steps, i, k, h)
  {
    if i < k {
      var m := k - 1;
      PausedIff(states, steps, i, m, h);
      StepPausedIff(states[m], steps[m], h);
      NoWakeOnward(states, steps, i, m, h);
      PausedBetweenOnward(states, steps, i, m, h);
    }
  }

  /* ---- Seeding turned on ---- */

  lemma {:induction false} ExpireKeysSeeding(s: State, order: seq<Key>)
    ensures ExpireKeys(s, order).seeding == s.seeding && ExpireKeys(s, order).resumes == s.resumes
    decreases |order|
  {
    if order != [] {
      ExpireKeysSeeding(ExpireKey(s, order[0]), order[1..]);
    }
  }

  ghost predicate SameSeeding(s: State, t: State) {
    t.seeding == s.seeding && t.resumes == s.resumes
  }

  lemma ActivationSeeding(s: State, h: Hash, f: nat, keep: bool, ok1: bool, ok2: bool)
    ensures SameSeeding(s, ActivateFile(s, h, f, keep, ok1, ok2))
  {
  }

  lemma RefreshSeeding(s: State, h: Hash, f: nat, ok1: bool, ok2: bool)
    ensures SameSeeding(s, RefreshHls(s, h, f, ok1, ok2))
  {
    var s1 := s.(leases := s.leases[(h, f) := Lease(s.now, s.now + HLS_PLAYBACK_LEASE_TTL)]);
    ActivationSeeding(s1, h, f, true, ok1, ok2);
    assert RefreshHls(s, h, f, ok1, ok2) in {s1, ActivateFile(s1, h, f, true, ok1, ok2)};
  }

  lemma PollSeeding(s: State, h: Hash, f: nat, ok1: bool, ok2: bool)
    ensures SameSeeding(s, RefreshExisting(s, h, f, ok1, ok2))
  {
    RefreshSeeding(s, h, f, ok1, ok2);
  }

  lemma CleanupSeeding(s: State, id: nat)
    requires id in s.cleanups
    ensures SameSeeding(s, FireCleanup(s, id))
  {
  }

  predicate SeedingAfter(s: State, step: Step, t: State) {
    && t.seeding == (if step.Seed? then step.enabled else s.seeding)
    && t.resumes == (if step == Seed(true) then s.resumes + 1
                     else if step.RunResume? then s.resumes - 1 else s.resumes)
  }

  /** Only a call changes the setting; turned on, it leaves a resume task behind. */
  lemma StepSeeding(s: State, step: Step)
    requires Enabled(s, step)
    ensures SeedingAfter(s, step, Next(s, step))
  {
    match step
    case StartStream(h, f, ok1, ok2) => ActivationSeeding(s, h, f, false, ok1, ok2);
    case Refresh(h, f, ok1, ok2) => RefreshSeeding(s, h, f, ok1, ok2);
    case RefreshKnown(h, f, ok1, ok2) => PollSeeding(s, h, f, ok1, ok2);
    case RunCleanup(id) => CleanupSeeding(s, id);
    case SweepExpired(keys) => ExpireKeysSeeding(s.(leases := s.leases - ExpiredLeases(s)), keys);
    case SweepIdle(order, refusing) => PauseAllPausesEach(s, order, refusing);
    case _ =>
  }

  /** After seeding is turned on, a resume task waits until it runs. */
  lemma {:induction false} ResumeWaits(states: seq<State>, steps: seq<Step>, i: nat, n: nat)
    requires Run(states, steps) && i < n <= |steps| && steps[i] == Seed(true)
    requires forall m :: i < m < n ==> !steps[m].RunResume?
    ensures states[n].resumes > 0
  {
    StepSeeding(states[n - 1], steps[n - 1]);
    if i + 1 < n {
      ResumeWaits(states, steps, i, n - 1);
    }
  }

  lemma {:induction false} SeedingStays(states: seq<State>, steps: seq<Step>, i: nat, n: nat)
    requires Run(states, steps) && i < n <= |steps| && steps[i] == Seed(true)
    requires forall m :: i < m < n ==> steps[m] != Seed(false)
    ensures states[n].seeding
  {
    StepSeeding(states[n - 1], steps[n - 1]);
    if i + 1 < n {
      SeedingStays(states, steps, i, n - 1);
    }
  }

  /**
    Once seeding is on and its resume task has run, a torrent that did not refuse is awake, and
    stays so, whatever else happens, for as long as seeding is on.
  */
  lemma {:induction false} SeedingWakes(states: seq<State>, steps: seq<Step>, i: nat, j: nat, n: nat, h: Hash)
    requires Run(states, steps) && i < j < n <= |steps| && steps[i] == Seed(true)
    requires steps[j].RunResume? && h !in steps[j].refusing
    requires forall m :: i < m < n ==> steps[m] != Seed(false)
    ensures !IsIdle(states[n], h)
  {
    var m := n - 1;
    SeedingStays(states, steps, i, m);
    if j == m {
      StepPausedIff(states[m], steps[m], h);
    } else {
      SeedingWakes(states, steps, i, j, m, h);
      StepPausesOnly(states[m], steps[m], h);
    }
  }
}
