/** Delayed tasks: a late cleanup is harmless, and a torrent nobody plays comes to rest. */
module LifecycleTasks {
  import opened Wrappers
  import opened Lifecycle
  import opened LifecycleProofs
  import opened LifecycleTheorems

  /* ---- Generations over a run ---- */

  /** Every selection a step leaves behind is an old one or carries a generation just issued. */
  ghost predicate SelectionsKeptOrFresh(s: State, t: State) {
    && t.generation >= s.generation
    && forall h :: h in t.selections ==>
         (h in s.selections && t.selections[h] == s.selections[h]) || t.selections[h].generation > s.generation
  }

  lemma ExpireKeysOnlyDrops(s: State, order: seq<Key>)
    ensures SelectionsKeptOrFresh(s, ExpireKeys(s, order))
    decreases |order|
  {
    if order != [] {
      ExpireKeysOnlyDrops(ExpireKey(s, order[0]), order[1..]);
    }
  }

  lemma SelectSelections(s: State, h: Hash, f: nat, ok: bool)
    ensures SelectionsKeptOrFresh(s, ActivateMultifile(s, h, f, ok))
  {
  }

  lemma ActivationSelections(s: State, h: Hash, f: nat, keep: bool, ok1: bool, ok2: bool)
    ensures SelectionsKeptOrFresh(s, ActivateFile(s, h, f, keep, ok1, ok2))
  {
    if Multifile(s, h) {
      SelectFileSelections(s, h, f, Resumed(Resumed(s.engines[h].(lastAccessed := s.now), ok1), ok2));
    }
  }

  lemma SelectFileSelections(s: State, h: Hash, f: nat, e: Engine)
    ensures SelectionsKeptOrFresh(s, SelectFile(s, h, f, e))
  {
  }

  lemma RefreshSelections(s: State, h: Hash, f: nat, ok1: bool, ok2: bool)
    ensures SelectionsKeptOrFresh(s, RefreshHls(s, h, f, ok1, ok2))
  {
    var s1 := s.(leases := s.leases[(h, f) := Lease(s.now, s.now + HLS_PLAYBACK_LEASE_TTL)]);
    ActivationSelections(s1, h, f, true, ok1, ok2);
    assert RefreshHls(s, h, f, ok1, ok2) in {s1, ActivateFile(s1, h, f, true, ok1, ok2)};
  }

  lemma StepSelections(s: State, step: Step)
    requires Enabled(s, step)
    ensures SelectionsKeptOrFresh(s, Next(s, step))
  {
    match step
    case StartStream(h, f, ok1, ok2) => ActivationSelections(s, h, f, false, ok1, ok2);
    case Select(h, f, ok) => SelectSelections(s, h, f, ok);
    case Refresh(h, f, ok1, ok2) => RefreshSelections(s, h, f, ok1, ok2);
    case RefreshKnown(h, f, ok1, ok2) => RefreshSelections(s, h, f, ok1, ok2);
    case SweepExpired(keys) => ExpireKeysOnlyDrops(s.(leases := s.leases - ExpiredLeases(s)), keys);
    case _ => QuietSelections(s, step);
  }

  lemma CleanupSelections(s: State, id: nat)
    requires id in s.cleanups
    ensures SelectionsKeptOrFresh(s, FireCleanup(s, id))
  {
  }

  lemma QuietSelections(s: State, step: Step)
    requires Enabled(s, step)
    requires !step.StartStream? && !step.Select? && !step.Refresh? && !step.RefreshKnown? && !step.SweepExpired?
    ensures SelectionsKeptOrFresh(s, Next(s, step))
  {
    match step
    case SweepIdle(hashes, refusing) => PauseAllTables(s, hashes, refusing);
    case RunCleanup(id) => CleanupSelections(s, id);
    case _ =>
  }

  /** A pending task keeps its number and its content until it runs; numbers are not reused. */
  ghost predicate TasksKept(s: State, t: State) {
    && t.spawned >= s.spawned
    && (forall id :: id in s.cleanups ==> id < s.spawned)
    && (forall id :: id in t.cleanups && id < s.spawned ==> id in s.cleanups && t.cleanups[id] == s.cleanups[id])
  }

  lemma ExpireKeysTasks(s: State, order: seq<Key>)
    ensures ExpireKeys(s, order).spawned == s.spawned && ExpireKeys(s, order).cleanups == s.cleanups
    decreases |order|
  {
    if order != [] {
      ExpireKeysTasks(ExpireKey(s, order[0]), order[1..]);
    }
  }

  ghost predicate SameTasks(s: State, t: State) {
    t.spawned == s.spawned && t.cleanups == s.cleanups
  }

  lemma ActivateFileTasks(s: State, h: Hash, f: nat, keep: bool, ok1: bool, ok2: bool)
    ensures SameTasks(s, ActivateFile(s, h, f, keep, ok1, ok2))
  {
  }

  lemma StartTasks(s: State, h: Hash, f: nat, ok1: bool, ok2: bool)
    ensures SameTasks(s, StreamStart(s, h, f, ok1, ok2))
  {
    ActivateFileTasks(s, h, f, false, ok1, ok2);
  }

  lemma RefreshTasks(s: State, h: Hash, f: nat, ok1: bool, ok2: bool)
    ensures SameTasks(s, RefreshHls(s, h, f, ok1, ok2))
  {
    var s1 := s.(leases := s.leases[(h, f) := Lease(s.now, s.now + HLS_PLAYBACK_LEASE_TTL)]);
    ActivateFileTasks(s1, h, f, true, ok1, ok2);
  }

  lemma PollTasks(s: State, h: Hash, f: nat, ok1: bool, ok2: bool)
    ensures SameTasks(s, RefreshExisting(s, h, f, ok1, ok2))
  {
    RefreshTasks(s, h, f, ok1, ok2);
  }

  lemma CleanupTasks(s: State, id: nat)
    requires id in s.cleanups
    ensures var t := FireCleanup(s, id); t.spawned == s.spawned && t.cleanups == s.cleanups - {id}
  {
    var c := s.cleanups[id];
    ReleaseTasks(s.(cleanups := s.cleanups - {id}), c.hash, c.file, c.generation.GetOr(0));
  }

  lemma ReleaseTasks(s: State, h: Hash, f: nat, generation: nat)
    ensures SameTasks(s, ReleaseFile(s, h, f, generation))
  {
  }

  lemma EndingTasks(s: State, h: Hash, f: nat)
    requires forall id :: id in s.cleanups ==> id < s.spawned
    ensures TasksKept(s, StreamEnd(s, h, f)) && TasksKept(s, EndHls(s, h, f))
  {
  }

  lemma StepTasks(s: State, step: Step)
    requires (forall id :: id in s.cleanups ==> id < s.spawned) && Enabled(s, step)
    ensures TasksKept(s, Next(s, step))
  {
    match step
    case StartStream(h, f, ok1, ok2) => StartTasks(s, h, f, ok1, ok2);
    case Refresh(h, f, ok1, ok2) => RefreshTasks(s, h, f, ok1, ok2);
    case RefreshKnown(h, f, ok1, ok2) => PollTasks(s, h, f, ok1, ok2);
    case EndStream(h, f) => EndingTasks(s, h, f);
    case EndPlayback(h, f) => EndingTasks(s, h, f);
    case RunCleanup(id) => CleanupTasks(s, id);
    case SweepExpired(keys) => ExpireKeysTasks(s.(leases := s.leases - ExpiredLeases(s)), keys);
    case SweepIdle(hashes, refusing) => PauseAllTables(s, hashes, refusing);
    case _ =>
  }

  /** Consecutive states whose selections and tasks only move the way steps move them. */
  ghost predicate Chain(states: seq<State>) {
    forall i :: 0 <= i < |states| - 1 ==>
      SelectionsKeptOrFresh(states[i], states[i + 1]) && TasksKept(states[i], states[i + 1])
  }

  lemma RunIsChain(states: seq<State>, steps: seq<Step>)
    requires Run(states, steps) && NoSelectedRemoved(states, steps)
    ensures Chain(states)
  {
    forall i | 0 <= i < |steps|
      ensures SelectionsKeptOrFresh(states[i], states[i + 1]) && TasksKept(states[i], states[i + 1])
    {
      RunKeeps(states, steps, i);
      StepSelections(states[i], steps[i]);
      StepTasks(states[i], steps[i]);
    }
  }

  lemma {:induction false} ChainGrows(states: seq<State>, i: nat, k: nat)
    requires Chain(states) && i <= k < |states|
    ensures states[i].spawned <= states[k].spawned && states[i].generation <= states[k].generation
  {
    if i < k {
      assert SelectionsKeptOrFresh(states[k - 1], states[k]) && TasksKept(states[k - 1], states[k]);
      ChainGrows(states, i, k - 1);
    }
  }

  /** A selection alive at `k` was made after `j` if the torrent was selected anew at `j`. */
  lemma {:induction false} SelectionsAreRecent(states: seq<State>, j: nat, k: nat, h: Hash)
    requires Chain(states) && j < k < |states|
    requires states[j + 1].generation > states[j].generation
    requires h in states[j + 1].selections && states[j + 1].selections[h].generation > states[j].generation
    ensures h in states[k].selections ==> states[k].selections[h].generation > states[j].generation
  {
    if k > j + 1 {
      assert SelectionsKeptOrFresh(states[k - 1], states[k]);
      SelectionsAreRecent(states, j, k - 1, h);
      ChainGrows(states, j, k - 1);
    }
  }

  lemma {:induction false} TaskUnchanged(states: seq<State>, i: nat, k: nat, id: nat)
    requires Chain(states) && i <= k < |states|
    requires id in states[i].cleanups && id in states[k].cleanups
    ensures states[k].cleanups[id] == states[i].cleanups[id]
  {
    if i < k {
      assert TasksKept(states[i], states[i + 1]);
      ChainGrows(states, i, k - 1);
      assert TasksKept(states[k - 1], states[k]);
      TaskUnchanged(states, i, k - 1, id);
    }
  }

  /** The call at `j` selects a file of `h` anew. */
  ghost predicate SelectedAnew(states: seq<State>, j: nat, h: Hash)
    requires j + 1 < |states|
  {
    && states[j + 1].generation > states[j].generation
    && h in states[j + 1].selections && states[j + 1].selections[h].generation > states[j].generation
  }

  /**
    A cleanup already pending at `i`, over any interleaving, leaves a torrent that was
    selected anew at some later `j` alone when it finally runs at `k`, even if the same file
    was selected: the selection stays, and so does the plan the backend works to.
  */
  lemma LateCleanupIsHarmless(states: seq<State>, steps: seq<Step>, i: nat, j: nat, k: nat, id: nat, h: Hash)
    requires Run(states, steps) && NoSelectedRemoved(states, steps) && i <= j < k < |steps|
    requires id in states[i].cleanups && states[i].cleanups[id].hash == h && steps[k] == RunCleanup(id)
    requires SelectedAnew(states, j, h)
    ensures Unharmed(states[k], states[k + 1], h)
  {
    RunIsChain(states, steps);
    TaskUnchanged(states, i, k, id);
    SelectionsAreRecent(states, j, k, h);
    ChainGrows(states, i, j);
    RunKeeps(states, steps, i);
    RunKeeps(states, steps, k);
    StaleCleanupIsHarmless(states[k], id);
  }

  /** No selection is cleared, and for a selected torrent the backend's plan and the active file stay. */
  ghost predicate Unharmed(s: State, t: State, h: Hash) {
    && t.selections == s.selections
    && (h in s.selections ==>
          h in s.engines && h in t.engines && t.engines[h] == s.engines[h] && t.activeFile == s.activeFile)
  }

  lemma StaleCleanupIsHarmless(s: State, id: nat)
    requires id in s.cleanups && Inv(s)
    requires var c := s.cleanups[id];
      c.hash in s.selections ==> c.generation != Some(s.selections[c.hash].generation)
    ensures Unharmed(s, FireCleanup(s, id), s.cleanups[id].hash)
  {
    var c := s.cleanups[id];
    assert TorrentInv(s, c.hash);
    if !CleanupSkips(s, c) {
      StaleReleaseIsHarmless(s.(cleanups := s.cleanups - {id}), c.hash, c.file, c.generation.GetOr(0));
    }
  }

  /** Releasing a file that is not the selected one tells the backend what it knows already. */
  lemma StaleReleaseIsHarmless(s: State, h: Hash, f: nat, fallback: nat)
    requires h in s.selections ==> SelectionInv(s, h, s.selections[h]) && s.selections[h].file != f
    ensures Unharmed(s, ReleaseFile(s, h, f, fallback), h)
  {
  }

  /* ---- Coming to rest ---- */

  /** The last stream of a torrent with nothing else going on. */
  predicate LastStream(s: State, h: Hash, f: nat) {
    && h in s.engines && HasMetadata(s.engines[h]) && s.engines[h].readers == 0
    && Count(s.streams, h) == 1
    && Count(s.fileStreams, (h, f)) == 1
    && (forall k :: k in s.fileStreams && k.0 == h ==> k.1 == f)
    && (forall k :: k in s.leases ==> k.0 != h)
    && (h in s.selections ==> s.selections[h].file == f)
  }

  lemma EndOfLastStream(s: State, h: Hash, f: nat)
    requires LastStream(s, h, f)
    ensures var t := StreamEnd(s, h, f);
      && s.spawned in t.cleanups && t.cleanups[s.spawned] == EndCleanup(s, h, f)
      && s.spawned in t.pauses && t.pauses[s.spawned] == EndPause(s, h)
      && h !in t.streams && (forall k :: k in t.fileStreams ==> k.0 != h) && t.leases == s.leases
      && t.selections == s.selections && t.seeding == s.seeding && t.now == s.now
      && h in t.engines && t.engines[h] == s.engines[h].(lastAccessed := s.now)
  {
  }

  lemma CleanupAtRest(s: State, id: nat)
    requires id in s.cleanups && s.cleanups[id].hash in s.engines
    requires var c := s.cleanups[id];
      && (forall k :: k in s.fileStreams ==> k.0 != c.hash) && (forall k :: k in s.leases ==> k.0 != c.hash)
      && (c.hash in s.selections ==>
           s.selections[c.hash].file == c.file && c.generation == Some(s.selections[c.hash].generation))
    ensures var c, t := s.cleanups[id], FireCleanup(s, id);
      && c.hash !in t.selections && c.hash in t.engines
      && t.engines[c.hash] == Released(s.engines[c.hash], c.file, None, c.generation.GetOr(0))
      && t.streams == s.streams && t.fileStreams == s.fileStreams && t.leases == s.leases
      && t.pauses == s.pauses && t.seeding == s.seeding && t.now == s.now
  {
  }

  lemma PauseAtRest(s: State, id: nat)
    requires id in s.pauses && !s.seeding
    requires var h := s.pauses[id].hash;
      && h in s.engines && s.engines[h].readers == 0 && HasMetadata(s.engines[h])
      && h !in s.streams && h !in s.selections
      && (forall k :: k in s.fileStreams ==> k.0 != h) && (forall k :: k in s.leases ==> k.0 != h)
    ensures var h, t := s.pauses[id].hash, FirePause(s, id, true);
      && h in t.engines && t.engines[h].idlePaused
      && t.engines[h].plan == s.engines[h].plan && t.engines[h].kept == s.engines[h].kept
      && t.engines[h].fileCount == s.engines[h].fileCount
      && t.selections == s.selections
  {
    assert !Active(s, s.pauses[id].hash);
  }

  /** Paused by the policy, unselected, and no file wanted by the backend. */
  ghost predicate AtRest(s: State, h: Hash, f: nat) {
    && h !in s.selections && h in s.engines && s.engines[h].idlePaused
    && (if s.engines[h].fileCount > 1
        then s.engines[h].plan.Some? && s.engines[h].plan.value.activeFile == None
        else f !in s.engines[h].kept)
  }

  /**
    With seeding off, when the last stream of a torrent ends and nothing else happens, its
    cleanup and its pause both become due and run, and bring the torrent to rest.
  */
  lemma LastStreamEndBringsRest(s: State, h: Hash, f: nat)
    requires !s.seeding && LastStream(s, h, f)
    ensures
      var s1, id := Later(StreamEnd(s, h, f), 5), s.spawned;
      && id in s1.cleanups && s1.cleanups[id].due <= s1.now
      && var s2 := Later(FireCleanup(s1, id), 10);
      && id in s2.pauses && s2.pauses[id].due <= s2.now
      && AtRest(FirePause(s2, id, true), h, f)
  {
    EndOfLastStream(s, h, f);
    var s1 := Later(StreamEnd(s, h, f), 5);
    CleanupAtRest(s1, s.spawned);
    PauseAtRest(Later(FireCleanup(s1, s.spawned), 10), s.spawned);
  }

  /** The last lease of a torrent with nothing else going on. */
  predicate LastLease(s: State, h: Hash, f: nat) {
    && h in s.engines && HasMetadata(s.engines[h]) && s.engines[h].readers == 0
    && h !in s.streams && (forall k :: k in s.fileStreams ==> k.0 != h)
    && (h, f) in s.leases && (forall k :: k in s.leases && k.0 == h ==> k.1 == f)
    && (h in s.selections ==> s.selections[h].file == f)
  }

  lemma EndOfLastLease(s: State, h: Hash, f: nat)
    requires LastLease(s, h, f)
    ensures var t := EndHls(s, h, f);
      && s.spawned in t.cleanups && t.cleanups[s.spawned] == EndCleanup(s, h, f)
      && s.spawned in t.pauses && t.pauses[s.spawned] == EndPause(s, h)
      && h !in t.streams && (forall k :: k in t.fileStreams ==> k.0 != h) && (forall k :: k in t.leases ==> k.0 != h)
      && t.selections == s.selections && t.seeding == s.seeding && t.now == s.now
      && h in t.engines && t.engines[h] == s.engines[h].(lastAccessed := s.now)
  {
  }

  /**
    With seeding off, when playback of the last leased file of a torrent is ended and nothing
    else happens, its cleanup and its pause both become due and run, and bring the torrent to rest.
  */
  lemma LastLeaseEndBringsRest(s: State, h: Hash, f: nat)
    requires !s.seeding && LastLease(s, h, f)
    ensures
      var s1, id := Later(EndHls(s, h, f), 5), s.spawned;
      && id in s1.cleanups && s1.cleanups[id].due <= s1.now
      && var s2 := Later(FireCleanup(s1, id), 10);
      && id in s2.pauses && s2.pauses[id].due <= s2.now
      && AtRest(FirePause(s2, id, true), h, f)
  {
    EndOfLastLease(s, h, f);
    var s1 := Later(EndHls(s, h, f), 5);
    CleanupAtRest(s1, s.spawned);
    PauseAtRest(Later(FireCleanup(s1, s.spawned), 10), s.spawned);
  }
}
