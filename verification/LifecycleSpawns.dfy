/** Which tasks are waiting: exactly those a call has left behind and that have not run. */
module LifecycleSpawns {
  import opened Wrappers
  import opened Lifecycle

  /** The call ends playback of a file: its last stream ends, or its lease is given up. */
  predicate EndsFile(s: State, step: Step) {
    match step
    case EndStream(h, f) => !((h, f) in s.fileStreams && s.fileStreams[(h, f)] >= 2)
    case EndPlayback(h, f) => (h, f) in s.leases
    case _ => false
  }

  /** The call may end playback of a torrent: its last stream ends too, or a lease is given up. */
  predicate EndsTorrent(s: State, step: Step) {
    match step
    case EndStream(h, f) => EndsFile(s, step) && !(h in s.streams && s.streams[h] >= 2)
    case EndPlayback(h, f) => (h, f) in s.leases
    case _ => false
  }

  /** The generation under which the file is selected. */
  function GenerationOf(s: State, h: Hash, f: nat): Option<nat> {
    if h in s.selections && s.selections[h].file == f then Some(s.selections[h].generation) else None
  }

  predicate SpawnsCleanup(s: State, step: Step, id: nat) {
    EndsFile(s, step) && id == s.spawned
  }

  predicate SpawnsPause(s: State, step: Step, id: nat) {
    EndsTorrent(s, step) && id == s.spawned
  }

  /* ---- One step ---- */

  ghost predicate SamePending(s: State, t: State) {
    t.cleanups == s.cleanups && t.pauses == s.pauses
  }

  lemma ActivationPending(s: State, h: Hash, f: nat, keep: bool, ok1: bool, ok2: bool)
    ensures SamePending(s, ActivateFile(s, h, f, keep, ok1, ok2))
  {
  }

  lemma SelectionPending(s: State, h: Hash, f: nat, ok: bool)
    ensures SamePending(s, ActivateMultifile(s, h, f, ok))
  {
  }

  lemma StartPending(s: State, h: Hash, f: nat, ok1: bool, ok2: bool)
    ensures SamePending(s, StreamStart(s, h, f, ok1, ok2))
  {
    ActivationPending(s, h, f, false, ok1, ok2);
  }

  lemma RefreshPending(s: State, h: Hash, f: nat, ok1: bool, ok2: bool)
    ensures SamePending(s, RefreshHls(s, h, f, ok1, ok2))
  {
    var s1 := s.(leases := s.leases[(h, f) := Lease(s.now, s.now + HLS_PLAYBACK_LEASE_TTL)]);
    ActivationPending(s1, h, f, true, ok1, ok2);
  }

  lemma PollPending(s: State, h: Hash, f: nat, ok1: bool, ok2: bool)
    ensures SamePending(s, RefreshExisting(s, h, f, ok1, ok2))
  {
    RefreshPending(s, h, f, ok1, ok2);
  }

  lemma ReleasePending(s: State, h: Hash, f: nat, fallback: nat)
    ensures SamePending(s, ReleaseFile(s, h, f, fallback))
  {
  }

  lemma CleanupPending(s: State, id: nat)
    requires id in s.cleanups
    ensures var t := FireCleanup(s, id); t.cleanups == s.cleanups - {id} && t.pauses == s.pauses
  {
    var c := s.cleanups[id];
    ReleasePending(s.(cleanups := s.cleanups - {id}), c.hash, c.file, c.generation.GetOr(0));
  }

  lemma {:induction false} ExpireKeysPending(s: State, order: seq<Key>)
    ensures SamePending(s, ExpireKeys(s, order))
    decreases |order|
  {
    if order != [] {
      ReleasePending(s, order[0].0, order[0].1, 0);
      ExpireKeysPending(ExpireKey(s, order[0]), order[1..]);
    }
  }

  lemma {:induction false} PauseAllPending(s: State, order: seq<Hash>, refusing: set<Hash>)
    ensures SamePending(s, PauseAll(s, order, refusing))
    decreases |order|
  {
    if order != [] {
      PauseAllPending(PauseIfIdle(s, order[0], order[0] !in refusing), order[1..], refusing);
    }
  }

  /** The tasks a call leaves behind. */
  ghost predicate Spawned(s: State, step: Step, t: State) {
    && t.cleanups == (if EndsFile(s, step)
         then s.cleanups[s.spawned := Cleanup(step.hash, step.file, GenerationOf(s, step.hash, step.file), s.now + 5)]
         else s.cleanups)
    && t.pauses == (if EndsTorrent(s, step) then s.pauses[s.spawned := Pause(step.hash, s.now + 15)] else s.pauses)
  }

  lemma StreamEndSpawns(s: State, h: Hash, f: nat)
    ensures Spawned(s, EndStream(h, f), StreamEnd(s, h, f))
  {
  }

  lemma LeaseEndSpawns(s: State, h: Hash, f: nat)
    ensures Spawned(s, EndPlayback(h, f), EndHls(s, h, f))
  {
  }

  /** A step leaves its tasks behind, or runs one, or leaves the tasks alone. */
  lemma StepTasksIff(s: State, step: Step)
    requires Enabled(s, step)
    ensures var t := Next(s, step);
      match step
      case RunCleanup(id) => t.cleanups == s.cleanups - {id} && t.pauses == s.pauses
      case RunPause(id, _) => t.cleanups == s.cleanups && t.pauses == s.pauses - {id}
      case _ => Spawned(s, step, t)
  {
    match step
    case StartStream(h, f, ok1, ok2) => StartPending(s, h, f, ok1, ok2);
    case EndStream(h, f) => StreamEndSpawns(s, h, f);
    case Select(h, f, ok) => SelectionPending(s, h, f, ok);
    case Refresh(h, f, ok1, ok2) => RefreshPending(s, h, f, ok1, ok2);
    case RefreshKnown(h, f, ok1, ok2) => PollPending(s, h, f, ok1, ok2);
    case EndPlayback(h, f) => LeaseEndSpawns(s, h, f);
    case RunCleanup(id) => CleanupPending(s, id);
    case SweepExpired(keys) => ExpireKeysPending(s.(leases := s.leases - ExpiredLeases(s)), keys);
    case SweepIdle(hashes, refusing) => PauseAllPending(s, hashes, refusing);
    case _ =>
  }

  /* ---- Over runs ---- */

  /** The cleanup was left behind at `j` and has not run since. */
  ghost predicate CleanupWaits(states: seq<State>, steps: seq<Step>, j: int, n: int, id: nat)
    requires 0 <= j < n <= |steps| < |states|
  {
    SpawnsCleanup(states[j], steps[j], id) && forall m :: j < m < n ==> steps[m] != RunCleanup(id)
  }

  ghost predicate PauseWaits(states: seq<State>, steps: seq<Step>, j: int, n: int, id: nat)
    requires 0 <= j < n <= |steps| < |states|
  {
    && SpawnsPause(states[j], steps[j], id)
    && forall m :: j < m < n ==> !(steps[m].RunPause? && steps[m].task == id)
  }

  /** What the call at `j` asks a cleanup to do, five seconds later. */
  function CleanupOf(s: State, step: Step): Cleanup
    requires EndsFile(s, step)
  {
    Cleanup(step.hash, step.file, GenerationOf(s, step.hash, step.file), s.now + 5)
  }

  lemma {:induction false} CleanupHasOrigin(states: seq<State>, steps: seq<Step>, n: nat, id: nat)
    requires Run(states, steps) && n <= |steps| && id in states[n].cleanups
    ensures exists j :: 0 <= j < n && CleanupWaits(states, steps, j, n, id) &&
                        states[n].cleanups[id] == CleanupOf(states[j], steps[j])
  {
    var m := n - 1;
    StepTasksIff(states[m], steps[m]);
    if SpawnsCleanup(states[m], steps[m], id) {
      assert CleanupWaits(states, steps, m, n, id);
    } else {
      CleanupHasOrigin(states, steps, m, id);
      var j :| 0 <= j < m && CleanupWaits(states, steps, j, m, id) &&
               states[m].cleanups[id] == CleanupOf(states[j], steps[j]);
      assert CleanupWaits(states, steps, j, n, id);
    }
  }

  lemma {:induction false} CleanupLasts(states: seq<State>, steps: seq<Step>, j: nat, n: nat, id: nat)
    requires Run(states, steps) && j < n <= |steps| && CleanupWaits(states, steps, j, n, id)
    ensures id in states[n].cleanups
  {
    var m := n - 1;
    StepTasksIff(states[m], steps[m]);
    if j < m {
      assert CleanupWaits(states, steps, j, m, id);
      CleanupLasts(states, steps, j, m, id);
    }
  }

  /** A cleanup waits exactly from the call that ended playback of a file until it runs. */
  lemma CleanupWaitsIff(states: seq<State>, steps: seq<Step>, n: nat, id: nat)
    requires Run(states, steps) && n <= |steps|
    ensures id in states[n].cleanups <==> exists j :: 0 <= j < n && CleanupWaits(states, steps, j, n, id)
  {
    if id in states[n].cleanups {
      CleanupHasOrigin(states, steps, n, id);
    }
    forall j | 0 <= j < n && CleanupWaits(states, steps, j, n, id)
      ensures id in states[n].cleanups
    {
      CleanupLasts(states, steps, j, n, id);
    }
  }

  lemma {:induction false} PauseHasOrigin(states: seq<State>, steps: seq<Step>, n: nat, id: nat)
    requires Run(states, steps) && n <= |steps| && id in states[n].pauses
    ensures exists j :: 0 <= j < n && PauseWaits(states, steps, j, n, id) &&
                        states[n].pauses[id] == Pause(steps[j].hash, states[j].now + 15)
  {
    var m := n - 1;
    StepTasksIff(states[m], steps[m]);
    if SpawnsPause(states[m], steps[m], id) {
      assert PauseWaits(states, steps, m, n, id);
    } else {
      PauseHasOrigin(states, steps, m, id);
      var j :| 0 <= j < m && PauseWaits(states, steps, j, m, id) &&
               states[m].pauses[id] == Pause(steps[j].hash, states[j].now + 15);
      assert PauseWaits(states, steps, j, n, id);
    }
  }

  lemma {:induction false} PauseLasts(states: seq<State>, steps: seq<Step>, j: nat, n: nat, id: nat)
    requires Run(states, steps) && j < n <= |steps| && PauseWaits(states, steps, j, n, id)
    ensures id in states[n].pauses
  {
    var m := n - 1;
    StepTasksIff(states[m], steps[m]);
    if j < m {
      assert PauseWaits(states, steps, j, m, id);
      PauseLasts(states, steps, j, m, id);
    }
  }

  /** A pause waits exactly from the call that ended playback of a torrent until it runs. */
  lemma PauseWaitsIff(states: seq<State>, steps: seq<Step>, n: nat, id: nat)
    requires Run(states, steps) && n <= |steps|
    ensures id in states[n].pauses <==> exists j :: 0 <= j < n && PauseWaits(states, steps, j, n, id)
  {
    if id in states[n].pauses {
      PauseHasOrigin(states, steps, n, id);
    }
    forall j | 0 <= j < n && PauseWaits(states, steps, j, n, id)
      ensures id in states[n].pauses
    {
      PauseLasts(states, steps, j, n, id);
    }
  }
}
