/** The properties of whole runs of the playback lifecycle. */
module LifecycleTheorems {
  import opened Wrappers
  import opened Lifecycle
  import opened LifecycleProofs

  /* ---- One wanted file ---- */

  /** Runs in which no torrent is removed by hand while one of its files is selected. */
  ghost predicate NoSelectedRemoved(states: seq<State>, steps: seq<Step>)
    requires |states| == |steps| + 1
  {
    forall i :: 0 <= i < |steps| && steps[i].Remove? ==> steps[i].hash !in states[i].selections
  }

  lemma {:induction false} RunKeeps(states: seq<State>, steps: seq<Step>, n: nat)
    requires Run(states, steps) && NoSelectedRemoved(states, steps) && n <= |steps|
    ensures Inv(states[n])
  {
    if n > 0 {
      RunKeeps(states, steps, n - 1);
      StepKeeps(states[n - 1], steps[n - 1]);
    }
  }

  /**
    In every reachable state the backend's last plan for a torrent names exactly the
    selected file, or no file, and everything recorded as playing belongs to it.
  */
  lemma OneWantedFile(states: seq<State>, steps: seq<Step>, n: nat, h: Hash)
    requires Run(states, steps) && NoSelectedRemoved(states, steps) && n <= |steps|
    ensures var s := states[n];
      if h in s.selections then
        var sel := s.selections[h];
        && h in s.engines && s.engines[h].plan == Some(Plan(Some(sel.file), sel.generation))
        && (forall f :: (h, f) in s.leases || (h, f) in s.fileStreams ==> f == sel.file)
        && (forall f :: s.activeFile == Some((h, f)) ==> f == sel.file)
      else
        h in s.engines ==>
          s.engines[h].plan == None || s.engines[h].plan.value.activeFile == None
  {
    RunKeeps(states, steps, n);
    assert TorrentInv(states[n], h);
  }

  /** Removing a torrent by hand keeps the invariant exactly when none of its files is selected. */
  lemma RemovalKeepsIffUnselected(s: State, h: Hash)
    requires Inv(s)
    ensures Inv(RemoveEngine(s, h)) <==> h !in s.selections
  {
    if h in s.selections {
      assert !TorrentInv(RemoveEngine(s, h), h);
    } else {
      StepKeeps(s, Remove(h));
    }
  }

  /* ---- No selection leaks ---- */

  ghost predicate Wanted(s: State, h: Hash, f: nat) {
    (h, f) in s.fileStreams || (h, f) in s.leases
  }

  ghost predicate CleanupPending(s: State, h: Hash, f: nat, g: nat) {
    exists i :: i in s.cleanups && s.cleanups[i].hash == h && s.cleanups[i].file == f &&
                s.cleanups[i].generation == Some(g)
  }

  /** What keeps a selection alive: a stream, a lease, or a cleanup that will end it. */
  ghost predicate Held(s: State, h: Hash, sel: Selection) {
    Wanted(s, h, sel.file) || CleanupPending(s, h, sel.file, sel.generation)
  }

  ghost predicate NoLeak(s: State) {
    forall h :: h in s.selections ==> Held(s, h, s.selections[h])
  }

  /**
    The two calls that can strand a selection: a progress poll that finds the lease
    expired and drops it, and a direct selection of a file nobody is playing.
  */
  ghost predicate Strands(s: State, step: Step) {
    match step
    case RefreshKnown(h, f, _, _) =>
      && (h, f) in s.leases && !LeaseIsActive(s.leases[(h, f)], s.now)
      && h in s.selections && s.selections[h].file == f
      && (h, f) !in s.fileStreams && !CleanupPending(s, h, f, s.selections[h].generation)
    case Select(h, f, _) =>
      h in s.engines && s.engines[h].fileCount > 1 && !Wanted(s, h, f)
    case _ => false
  }

  /** The selections of `t` are those of `s`, and what held them still does. */
  ghost predicate StillHeld(s: State, t: State) {
    forall h :: h in t.selections ==>
      h in s.selections && t.selections[h] == s.selections[h] &&
      (Held(s, h, s.selections[h]) ==> Held(t, h, s.selections[h]))
  }

  lemma ReleaseFileHolds(s: State, hash: Hash, file: nat, fallback: nat)
    ensures StillHeld(s, ReleaseFile(s, hash, file, fallback))
  {
  }

  lemma {:induction false} ExpireKeysHold(s: State, order: seq<Key>)
    ensures StillHeld(s, ExpireKeys(s, order))
    ensures forall h :: h in ExpireKeys(s, order).selections ==>
      forall k :: k in order && k.0 == h && k.1 == s.selections[h].file ==> Count(s.fileStreams, k) > 0
    decreases |order|
  {
    if order != [] {
      ReleaseFileHolds(s, order[0].0, order[0].1, 0);
      ExpireKeysHold(ExpireKey(s, order[0]), order[1..]);
    }
  }

  lemma PauseAllTables(s: State, order: seq<Hash>, refusing: set<Hash>)
    ensures var t := PauseAll(s, order, refusing);
      t.selections == s.selections && t.fileStreams == s.fileStreams && t.leases == s.leases &&
      t.cleanups == s.cleanups && t.spawned == s.spawned && t.streams == s.streams && t.generation == s.generation &&
      t.now == s.now && t.engines.Keys == s.engines.Keys
    decreases |order|
  {
    if order != [] {
      PauseAllTables(PauseIfIdle(s, order[0], order[0] !in refusing), order[1..], refusing);
    }
  }

  lemma SweepLeasesHolds(s: State, keys: seq<Key>)
    requires Inv(s) && NoLeak(s) && Enabled(s, SweepExpired(keys))
    ensures NoLeak(SweepLeases(s, keys))
  {
    var s1 := s.(leases := s.leases - ExpiredLeases(s));
    ExpireKeysHold(s1, keys);
    var t := SweepLeases(s, keys);
    forall h | h in t.selections
      ensures Held(t, h, t.selections[h])
    {
      var k := (h, s.selections[h].file);
      assert Held(s, h, s.selections[h]);
      assert k in ExpiredLeases(s) ==> k in keys;
      assert Held(s1, h, s.selections[h]);
    }
  }

  /**
    Everything that held a selection in `s` still does in `t`, except perhaps what was
    recorded under `k`; if `k` is the selected file it must be held anew.
  */
  lemma HeldExceptKey(s: State, t: State, k: Key)
    requires NoLeak(s)
    requires forall h :: h in t.selections && h != k.0 ==> h in s.selections && t.selections[h] == s.selections[h]
    requires forall h, f: nat :: Wanted(s, h, f) && (h, f) != k ==> Wanted(t, h, f)
    requires forall i :: i in s.cleanups && (s.cleanups[i].hash, s.cleanups[i].file) != k ==>
               i in t.cleanups && t.cleanups[i] == s.cleanups[i]
    requires k.0 in t.selections ==>
               if t.selections[k.0].file == k.1 then Held(t, k.0, t.selections[k.0])
               else k.0 in s.selections && t.selections[k.0] == s.selections[k.0]
    ensures NoLeak(t)
  {
    forall h | h in t.selections
      ensures Held(t, h, t.selections[h])
    {
      if h != k.0 || t.selections[h].file != k.1 {
        var sel := s.selections[h];
        assert Held(s, h, sel);
        if !Wanted(s, h, sel.file) {
          var i :| i in s.cleanups && s.cleanups[i].hash == h && s.cleanups[i].file == sel.file &&
                   s.cleanups[i].generation == Some(sel.generation);
          assert i in t.cleanups && t.cleanups[i] == s.cleanups[i];
        }
      }
    }
  }

  lemma TaskDroppedHolds(s: State, id: nat)
    requires NoLeak(s) && id in s.cleanups
    requires var c := s.cleanups[id];
      c.hash in s.selections && s.selections[c.hash].file == c.file ==>
        Wanted(s, c.hash, c.file) || c.generation != Some(s.selections[c.hash].generation)
    ensures NoLeak(s.(cleanups := s.cleanups - {id}))
  {
    var c := s.cleanups[id];
    var k := (c.hash, c.file);
    var t := s.(cleanups := s.cleanups - {id});
    if k.0 in t.selections && t.selections[k.0].file == k.1 {
      var sel := s.selections[k.0];
      assert Held(s, k.0, sel);
      if !Wanted(s, k.0, k.1) {
        var i :| i in s.cleanups && s.cleanups[i].hash == k.0 && s.cleanups[i].file == k.1 &&
                 s.cleanups[i].generation == Some(sel.generation);
        assert i in t.cleanups && t.cleanups[i] == s.cleanups[i];
      }
    }
    HeldExceptKey(s, t, k);
  }

  lemma CleanupHolds(s: State, id: nat)
    requires NoLeak(s) && id in s.cleanups
    ensures NoLeak(FireCleanup(s, id))
  {
    var c := s.cleanups[id];
    if FireCleanup(s, id) == s.(cleanups := s.cleanups - {id}) {
      TaskDroppedHolds(s, id);
    } else {
      ReleaseFileHolds(s, c.hash, c.file, c.generation.GetOr(0));
      TaskDroppedHolds(ReleaseFile(s, c.hash, c.file, c.generation.GetOr(0)), id);
    }
  }

  lemma EndHlsHolds(s: State, hash: Hash, file: nat)
    requires Inv(s) && NoLeak(s)
    ensures NoLeak(EndHls(s, hash, file))
  {
    var t := EndHls(s, hash, file);
    if hash in s.selections && s.selections[hash].file == file {
      assert Held(s, hash, s.selections[hash]);
      if (hash, file) in s.leases {
        assert t.cleanups[s.spawned] == EndCleanup(s, hash, file);
      }
    }
    HeldExceptKey(s, t, (hash, file));
  }

  lemma StreamEndHolds(s: State, hash: Hash, file: nat)
    requires Inv(s) && NoLeak(s)
    ensures NoLeak(StreamEnd(s, hash, file))
  {
    var t := StreamEnd(s, hash, file);
    if hash in s.selections && s.selections[hash].file == file {
      if (hash, file) !in t.fileStreams {
        assert t.cleanups[s.spawned] == EndCleanup(s, hash, file);
      }
    }
    HeldExceptKey(s, t, (hash, file));
  }

  lemma SelectFileHolds(s: State, hash: Hash, file: nat, e: Engine)
    requires forall h :: h in s.selections && h != hash ==> Held(s, h, s.selections[h])
    ensures var t := SelectFile(s, hash, file, e);
      && (forall h :: h in t.selections && h != hash ==> Held(t, h, t.selections[h]))
      && (Wanted(s, hash, file) <==> Wanted(t, hash, file))
  {
    var t := SelectFile(s, hash, file, e);
    forall h | h in t.selections && h != hash
      ensures Held(t, h, t.selections[h])
    {
      assert Held(s, h, s.selections[h]);
    }
  }

  lemma ActivationHolds(s: State, hash: Hash, file: nat, keep: bool, ok1: bool, ok2: bool)
    requires forall h :: h in s.selections && h != hash ==> Held(s, h, s.selections[h])
    requires hash in s.selections ==> hash in s.engines && s.engines[hash].fileCount > 1
    ensures var t := ActivateFile(s, hash, file, keep, ok1, ok2);
      && (forall h :: h in t.selections && h != hash ==> Held(t, h, t.selections[h]))
      && (hash in t.selections ==> t.selections[hash].file == file)
      && (Wanted(s, hash, file) ==> Wanted(t, hash, file))
  {
    var t := ActivateFile(s, hash, file, keep, ok1, ok2);
    if hash in s.engines && s.engines[hash].fileCount > 1 {
      SelectFileHolds(s, hash, file, Resumed(Resumed(s.engines[hash].(lastAccessed := s.now), ok1), ok2));
    } else {
      SingleActivationHolds(s, hash, file, keep, ok1);
      assert t == ActivateSingle(s, hash, file, keep, ok1);
    }
  }

  lemma SingleActivationHolds(s: State, hash: Hash, file: nat, keep: bool, ok: bool)
    requires NoLeak(s)
    ensures var t := ActivateSingle(s, hash, file, keep, ok);
      NoLeak(t) && t.selections == s.selections && (Wanted(s, hash, file) ==> Wanted(t, hash, file))
  {
    StillHeldFromTables(s, ActivateSingle(s, hash, file, keep, ok));
  }

  lemma StartHolds(s: State, hash: Hash, file: nat, ok1: bool, ok2: bool)
    requires Inv(s) && NoLeak(s)
    ensures NoLeak(StreamStart(s, hash, file, ok1, ok2))
  {
    assert TorrentInv(s, hash);
    ActivationHolds(s, hash, file, false, ok1, ok2);
    var s1 := ActivateFile(s, hash, file, false, ok1, ok2);
    CountedStreamHolds(s1, hash, file, s1.streams[hash := Count(s1.streams, hash) + 1],
                       Count(s1.fileStreams, (hash, file)) + 1);
  }

  lemma CountedStreamHolds(s: State, hash: Hash, file: nat, streams: map<Hash, nat>, n: nat)
    requires forall h :: h in s.selections && h != hash ==> Held(s, h, s.selections[h])
    requires hash in s.selections ==> s.selections[hash].file == file
    ensures NoLeak(s.(streams := streams, fileStreams := s.fileStreams[(hash, file) := n]))
  {
    var t := s.(streams := streams, fileStreams := s.fileStreams[(hash, file) := n]);
    assert Wanted(t, hash, file);
    forall h | h in t.selections && h != hash
      ensures Held(t, h, t.selections[h])
    {
      assert Held(s, h, s.selections[h]);
    }
  }

  lemma LeaseInsertHolds(s: State, k: Key, lease: Lease)
    requires NoLeak(s)
    ensures var t := s.(leases := s.leases[k := lease]); NoLeak(t) && Wanted(t, k.0, k.1)
  {
    var t := s.(leases := s.leases[k := lease]);
    assert k in t.leases;
    HeldExceptKey(s, t, k);
  }

  /** Activating a file that is already wanted leaves every selection held. */
  lemma WantedActivationHolds(s: State, hash: Hash, file: nat, ok1: bool, ok2: bool)
    requires NoLeak(s) && Wanted(s, hash, file)
    requires hash in s.selections ==> hash in s.engines && s.engines[hash].fileCount > 1
    ensures NoLeak(ActivateFile(s, hash, file, true, ok1, ok2))
  {
    ActivationHolds(s, hash, file, true, ok1, ok2);
  }

  lemma RefreshHolds(s: State, hash: Hash, file: nat, ok1: bool, ok2: bool)
    requires NoLeak(s)
    requires hash in s.selections ==> hash in s.engines && s.engines[hash].fileCount > 1
    ensures NoLeak(RefreshHls(s, hash, file, ok1, ok2))
  {
    var lease := Lease(s.now, s.now + HLS_PLAYBACK_LEASE_TTL);
    var s1 := s.(leases := s.leases[(hash, file) := lease]);
    LeaseInsertHolds(s, (hash, file), lease);
    if hash in s.engines {
      WantedActivationHolds(s1, hash, file, ok1, ok2);
      assert RefreshHls(s, hash, file, ok1, ok2) == ActivateFile(s1, hash, file, true, ok1, ok2);
    } else {
      assert RefreshHls(s, hash, file, ok1, ok2) == s1;
    }
  }

  lemma ExpiredPollHoldsIff(s: State, hash: Hash, file: nat, ok1: bool, ok2: bool)
    requires NoLeak(s)
    requires (hash, file) in s.leases && !LeaseIsActive(s.leases[(hash, file)], s.now)
    ensures NoLeak(RefreshExisting(s, hash, file, ok1, ok2)) <==> !Strands(s, RefreshKnown(hash, file, ok1, ok2))
  {
    var t := RefreshExisting(s, hash, file, ok1, ok2);
    if Strands(s, RefreshKnown(hash, file, ok1, ok2)) {
      assert !Held(t, hash, t.selections[hash]);
    } else {
      HeldExceptKey(s, t, (hash, file));
    }
  }

  lemma PollHoldsIff(s: State, hash: Hash, file: nat, ok1: bool, ok2: bool)
    requires Inv(s) && NoLeak(s)
    ensures NoLeak(RefreshExisting(s, hash, file, ok1, ok2)) <==> !Strands(s, RefreshKnown(hash, file, ok1, ok2))
  {
    var k := (hash, file);
    if k in s.leases && LeaseIsActive(s.leases[k], s.now) {
      assert TorrentInv(s, hash);
      RefreshHolds(s, hash, file, ok1, ok2);
    } else if k in s.leases {
      ExpiredPollHoldsIff(s, hash, file, ok1, ok2);
    } else {
      StillHeldFromTables(s, RefreshExisting(s, hash, file, ok1, ok2));
    }
  }

  lemma SelectWantedHolds(s: State, hash: Hash, file: nat, ok: bool)
    requires NoLeak(s) && hash in s.engines && s.engines[hash].fileCount > 1 && Wanted(s, hash, file)
    ensures NoLeak(ActivateMultifile(s, hash, file, ok))
  {
    var t := ActivateMultifile(s, hash, file, ok);
    assert Wanted(t, hash, file);
    forall h | h in t.selections && h != hash
      ensures Held(t, h, t.selections[h])
    {
      assert Held(s, h, s.selections[h]);
    }
  }

  lemma SelectUnwantedLeaks(s: State, hash: Hash, file: nat, ok: bool)
    requires Inv(s) && hash in s.engines && s.engines[hash].fileCount > 1 && !Wanted(s, hash, file)
    ensures !NoLeak(ActivateMultifile(s, hash, file, ok))
  {
    var t := ActivateMultifile(s, hash, file, ok);
    assert !CleanupPending(t, hash, file, s.generation + 1);
    assert !Held(t, hash, t.selections[hash]);
  }

  lemma SelectHoldsIff(s: State, hash: Hash, file: nat, ok: bool)
    requires Inv(s) && NoLeak(s)
    ensures NoLeak(Next(s, Select(hash, file, ok))) <==> !Strands(s, Select(hash, file, ok))
  {
    if hash !in s.engines || s.engines[hash].fileCount <= 1 {
      StillHeldFromTables(s, ActivateMultifile(s, hash, file, ok));
    } else if Wanted(s, hash, file) {
      SelectWantedHolds(s, hash, file, ok);
    } else {
      SelectUnwantedLeaks(s, hash, file, ok);
    }
  }

  lemma TaskHolds(s: State, step: Step)
    requires NoLeak(s) && Enabled(s, step)
    requires step.RunPause? || step.SweepIdle? || step.SweepInactive? || step.Seed? || step.RunResume?
    ensures NoLeak(Next(s, step))
  {
    if step.SweepIdle? {
      PauseAllTables(s, step.hashes, step.refusing);
    }
    StillHeldFromTables(s, Next(s, step));
  }

  /** A step keeps every selection held exactly when it is not one of the two stranding calls. */
  lemma StepHoldsIff(s: State, step: Step)
    requires Inv(s) && NoLeak(s) && Enabled(s, step)
    ensures NoLeak(Next(s, step)) <==> !Strands(s, step)
  {
    match step
    case StartStream(h, f, ok1, ok2) => StartHolds(s, h, f, ok1, ok2);
    case EndStream(h, f) => StreamEndHolds(s, h, f);
    case Select(h, f, ok) => SelectHoldsIff(s, h, f, ok);
    case Refresh(h, f, ok1, ok2) =>
      assert TorrentInv(s, h);
      RefreshHolds(s, h, f, ok1, ok2);
    case RefreshKnown(h, f, ok1, ok2) => PollHoldsIff(s, h, f, ok1, ok2);
    case EndPlayback(h, f) => EndHlsHolds(s, h, f);
    case RunCleanup(id) => CleanupHolds(s, id);
    case SweepExpired(keys) => SweepLeasesHolds(s, keys);
    case _ => OtherStepHolds(s, step);
  }

  lemma OtherStepHolds(s: State, step: Step)
    requires NoLeak(s) && Enabled(s, step)
    requires step.RunPause? || step.SweepIdle? || step.SweepInactive? || step.Seed? || step.RunResume?
          || step.Readers? || step.Add? || step.Resolve? || step.Remove? || step.Tick?
    ensures NoLeak(Next(s, step))
  {
    match step
    case Readers(h, n) => StillHeldFromTables(s, SetReaders(s, h, n));
    case Add(h, n) => StillHeldFromTables(s, AddEngine(s, h, n));
    case Resolve(h, n) => StillHeldFromTables(s, ResolveMetadata(s, h, n));
    case Remove(h) => StillHeldFromTables(s, RemoveEngine(s, h));
    case Tick(d) => StillHeldFromTables(s, Later(s, d));
    case _ => TaskHolds(s, step);
  }

  lemma StillHeldFromTables(s: State, t: State)
    requires NoLeak(s)
    requires t.selections == s.selections && t.fileStreams == s.fileStreams
    requires t.leases == s.leases && t.cleanups == s.cleanups
    ensures NoLeak(t)
  {
    forall h | h in t.selections
      ensures Held(t, h, t.selections[h])
    {
      assert Held(s, h, s.selections[h]);
    }
  }

  /** In a run without stranding calls every selection stays held. */
  lemma {:induction false} NoSelectionLeaks(states: seq<State>, steps: seq<Step>, n: nat)
    requires Run(states, steps) && NoSelectedRemoved(states, steps) && n <= |steps|
    requires forall i :: 0 <= i < n ==> !Strands(states[i], steps[i])
    ensures NoLeak(states[n])
  {
    if n > 0 {
      NoSelectionLeaks(states, steps, n - 1);
      RunKeeps(states, steps, n - 1);
      StepHoldsIff(states[n - 1], steps[n - 1]);
    }
  }

  /** The leak is real: one refresh, the lease's lifetime, one progress poll. */
  lemma ProgressPollLeaks(s: State, hash: Hash)
    requires Inv(s) && NoLeak(s) && hash in s.engines && s.engines[hash].fileCount > 1
    requires forall k :: k in s.fileStreams ==> k.0 != hash
    ensures var s1 := Next(s, Refresh(hash, 1, true, true));
      var s2 := Next(s1, Tick(HLS_PLAYBACK_LEASE_TTL));
      var s3 := Next(s2, RefreshKnown(hash, 1, true, true));
      NoLeak(s2) && !NoLeak(s3)
  {
    var s1 := Next(s, Refresh(hash, 1, true, true));
    var s2 := Next(s1, Tick(HLS_PLAYBACK_LEASE_TTL));
    StepHoldsIff(s, Refresh(hash, 1, true, true));
    StepKeeps(s, Refresh(hash, 1, true, true));
    StepHoldsIff(s1, Tick(HLS_PLAYBACK_LEASE_TTL));
    StepKeeps(s1, Tick(HLS_PLAYBACK_LEASE_TTL));
    FreshGenerationUnscheduled(s, hash, 1);
    assert Strands(s2, RefreshKnown(hash, 1, true, true));
    StepHoldsIff(s2, RefreshKnown(hash, 1, true, true));
  }

  lemma FreshGenerationUnscheduled(s: State, hash: Hash, f: nat)
    requires Inv(s) && hash in s.engines && s.engines[hash].fileCount > 1
    requires forall k :: k in s.fileStreams ==> k.0 != hash
    ensures var t := RefreshHls(s, hash, f, true, true);
      && hash in t.selections && t.selections[hash].file == f && t.now == s.now
      && !CleanupPending(t, hash, f, t.selections[hash].generation)
      && (hash, f) !in t.fileStreams
      && (hash, f) in t.leases && t.leases[(hash, f)].expiresAt == s.now + HLS_PLAYBACK_LEASE_TTL
  {
  }
}
