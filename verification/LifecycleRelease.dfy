/** How a selection ends: by its lease or its cleanup; and what is left when neither is there. */
module LifecycleRelease {
  import opened Wrappers
  import opened Lifecycle
  import opened LifecycleProofs
  import opened LifecycleTheorems
  import opened LifecycleTasks

  /* ---- A selection that nothing holds ---- */

  ghost predicate Stranded(s: State, h: Hash) {
    h in s.selections && !Held(s, h, s.selections[h])
  }

  ghost predicate StrandedStill(s: State, t: State, h: Hash)
    requires h in s.selections
  {
    Stranded(t, h) && t.selections[h] == s.selections[h]
  }

  /** The calls that still reach it: a new activation of the torrent, the end of a stream of the file. */
  predicate Reaches(step: Step, h: Hash, f: nat) {
    match step
    case StartStream(g, _, _, _) => g == h
    case Select(g, _, _) => g == h
    case Refresh(g, _, _, _) => g == h
    case EndStream(g, e) => g == h && e == f
    case _ => false
  }

  /** Nothing is recorded for the file of a selection that was not recorded before. */
  ghost predicate NothingNew(s: State, t: State, h: Hash)
    requires h in s.selections
  {
    var sel := s.selections[h];
    && h in t.selections && t.selections[h] == sel
    && (Wanted(t, h, sel.file) ==> Wanted(s, h, sel.file))
    && (CleanupPending(t, h, sel.file, sel.generation) ==> CleanupPending(s, h, sel.file, sel.generation))
  }

  lemma {:induction false} ExpireKeysSpare(s: State, order: seq<Key>, h: Hash)
    requires h in s.selections && (h, s.selections[h].file) !in order
    ensures var t := ExpireKeys(s, order);
      && h in t.selections && t.selections[h] == s.selections[h]
      && t.fileStreams == s.fileStreams && t.leases == s.leases && t.cleanups == s.cleanups
    decreases |order|
  {
    if order != [] {
      ReleaseTables(s, order[0].0, order[0].1, 0);
      ExpireKeysSpare(ExpireKey(s, order[0]), order[1..], h);
    }
  }

  lemma SweepBringsNothingNew(s: State, keys: seq<Key>, h: Hash)
    requires Enabled(s, SweepExpired(keys)) && Stranded(s, h)
    ensures NothingNew(s, SweepLeases(s, keys), h)
  {
    var k := (h, s.selections[h].file);
    assert k in keys <==> k in ExpiredLeases(s);
    ExpireKeysSpare(s.(leases := s.leases - ExpiredLeases(s)), keys, h);
  }

  lemma CleanupBringsNothingNew(s: State, id: nat, h: Hash)
    requires id in s.cleanups && Stranded(s, h)
    ensures NothingNew(s, FireCleanup(s, id), h)
  {
    var sel := s.selections[h];
    assert !CleanupPending(s, h, sel.file, sel.generation);
    CleanupTables(s, id);
    CleanupTasks(s, id);
    CleanupClearsIff(s, id, h);
  }

  lemma EndingsBringNothingNew(s: State, g: Hash, f: nat, h: Hash)
    requires Stranded(s, h)
    ensures NothingNew(s, EndHls(s, g, f), h)
    ensures (g, f) != (h, s.selections[h].file) ==> NothingNew(s, StreamEnd(s, g, f), h)
  {
  }

  /** A torrent's selection and one of its files have the same entries in every table. */
  ghost predicate SameEntries(s: State, t: State, h: Hash, f: nat) {
    var k := (h, f);
    && t.now == s.now
    && (h in t.selections <==> h in s.selections)
    && (h in s.selections ==> t.selections[h] == s.selections[h])
    && (k in t.fileStreams <==> k in s.fileStreams)
    && (k in t.leases <==> k in s.leases)
    && (k in s.leases ==> t.leases[k] == s.leases[k])
    && t.cleanups == s.cleanups
  }

  lemma SelectFileSpares(s: State, g: Hash, n: nat, e: Engine, h: Hash, f: nat)
    requires g != h
    ensures SameEntries(s, SelectFile(s, g, n, e), h, f)
  {
  }

  lemma ActivationSpares(s: State, g: Hash, n: nat, keep: bool, ok1: bool, ok2: bool, h: Hash, f: nat)
    requires g != h
    ensures SameEntries(s, ActivateFile(s, g, n, keep, ok1, ok2), h, f)
  {
    if Multifile(s, g) {
      SelectFileSpares(s, g, n, Resumed(Resumed(s.engines[g].(lastAccessed := s.now), ok1), ok2), h, f);
    }
  }

  lemma SelectionSpares(s: State, g: Hash, n: nat, ok: bool, h: Hash, f: nat)
    requires g != h
    ensures SameEntries(s, ActivateMultifile(s, g, n, ok), h, f)
  {
    if Multifile(s, g) {
      SelectFileSpares(s, g, n, Resumed(s.engines[g].(lastAccessed := s.now), ok), h, f);
    }
  }

  lemma StartSpares(s: State, g: Hash, n: nat, ok1: bool, ok2: bool, h: Hash, f: nat)
    requires g != h
    ensures SameEntries(s, StreamStart(s, g, n, ok1, ok2), h, f)
  {
    ActivationSpares(s, g, n, false, ok1, ok2, h, f);
  }

  lemma RefreshSpares(s: State, g: Hash, n: nat, ok1: bool, ok2: bool, h: Hash, f: nat)
    requires g != h
    ensures SameEntries(s, RefreshHls(s, g, n, ok1, ok2), h, f)
  {
    var lease := Lease(s.now, s.now + HLS_PLAYBACK_LEASE_TTL);
    var s1 := s.(leases := s.leases[(g, n) := lease]);
    LeaseSpares(s, (g, n), lease, h, f);
    if g in s.engines {
      ActivationSpares(s1, g, n, true, ok1, ok2, h, f);
      SparesTwice(s, s1, ActivateFile(s1, g, n, true, ok1, ok2), h, f);
      assert RefreshHls(s, g, n, ok1, ok2) == ActivateFile(s1, g, n, true, ok1, ok2);
    } else {
      assert RefreshHls(s, g, n, ok1, ok2) == s1;
    }
  }

  lemma LeaseSpares(s: State, k: Key, lease: Lease, h: Hash, f: nat)
    requires k != (h, f)
    ensures SameEntries(s, s.(leases := s.leases[k := lease]), h, f)
  {
  }

  lemma SparesTwice(s: State, t: State, u: State, h: Hash, f: nat)
    requires SameEntries(s, t, h, f) && SameEntries(t, u, h, f)
    ensures SameEntries(s, u, h, f)
  {
  }

  lemma SameEntriesNothingNew(s: State, t: State, h: Hash)
    requires h in s.selections && SameEntries(s, t, h, s.selections[h].file)
    ensures NothingNew(s, t, h)
  {
  }

  lemma PollBringsNothingNew(s: State, g: Hash, f: nat, ok1: bool, ok2: bool, h: Hash)
    requires Inv(s) && Stranded(s, h)
    ensures NothingNew(s, RefreshExisting(s, g, f, ok1, ok2), h)
  {
    assert TorrentInv(s, h);
    if (g, f) in s.leases && LeaseIsActive(s.leases[(g, f)], s.now) {
      RefreshSpares(s, g, f, ok1, ok2, h, s.selections[h].file);
      SameEntriesNothingNew(s, RefreshHls(s, g, f, ok1, ok2), h);
    }
  }

  lemma ActivationReaches(s: State, step: Step, h: Hash)
    requires Inv(s) && Stranded(s, h) && Reaches(step, h, s.selections[h].file) && !step.EndStream?
    ensures !StrandedStill(s, Next(s, step), h)
  {
    assert TorrentInv(s, h);
    assert Next(s, step).selections[h].generation == s.generation + 1;
  }

  lemma StreamEndReaches(s: State, h: Hash)
    requires Inv(s) && Stranded(s, h)
    ensures !StrandedStill(s, StreamEnd(s, h, s.selections[h].file), h)
  {
    var sel := s.selections[h];
    var t := StreamEnd(s, h, sel.file);
    assert s.spawned in t.cleanups && t.cleanups[s.spawned].generation == Some(sel.generation);
    assert CleanupPending(t, h, sel.file, sel.generation);
  }

  /** Steps that are no call and touch neither leases nor selections. */
  predicate Background(step: Step) {
    || step.RunPause? || step.SweepInactive? || step.SweepIdle? || step.Seed? || step.RunResume?
    || step.Tick? || step.Readers? || step.Add? || step.Resolve? || step.Remove?
  }

  /** Time does not go back, and the tables of playback stay. */
  ghost predicate SameTables(s: State, t: State) {
    && t.now >= s.now && t.selections == s.selections && t.fileStreams == s.fileStreams
    && t.leases == s.leases && t.cleanups == s.cleanups
  }

  lemma EngineStepsKeepTables(s: State, h: Hash, n: nat)
    ensures SameTables(s, SetReaders(s, h, n)) && SameTables(s, AddEngine(s, h, n))
    ensures SameTables(s, ResolveMetadata(s, h, n)) && SameTables(s, RemoveEngine(s, h))
  {
  }

  lemma BackgroundTables(s: State, step: Step)
    requires Enabled(s, step) && Background(step)
    ensures SameTables(s, Next(s, step))
  {
    match step
    case SweepIdle(hashes, refusing) => PauseAllTables(s, hashes, refusing);
    case Readers(h, n) => EngineStepsKeepTables(s, h, n);
    case Add(h, n) => EngineStepsKeepTables(s, h, n);
    case Resolve(h, n) => EngineStepsKeepTables(s, h, n);
    case Remove(h) => EngineStepsKeepTables(s, h, 0);
    case RunPause(id, ok) => assert SameTables(s, FirePause(s, id, ok));
    case RunResume(refusing) => assert SameTables(s, ResumeAfterSeeding(s, refusing));
    case SweepInactive => assert SameTables(s, RemoveInactive(s));
    case Seed(enabled) => assert SameTables(s, SetSeeding(s, enabled));
    case Tick(d) => assert SameTables(s, Later(s, d));
  }

  /**
    A stranded selection stays as it is through every step, sweeps and tasks included, except
    exactly a new activation of its torrent and the end of a stream of its file.
  */
  lemma StrandedStaysIff(s: State, step: Step, h: Hash)
    requires Inv(s) && Enabled(s, step) && Stranded(s, h)
    ensures StrandedStill(s, Next(s, step), h) <==> !Reaches(step, h, s.selections[h].file)
  {
    if Reaches(step, h, s.selections[h].file) {
      if step.EndStream? {
        StreamEndReaches(s, h);
      } else {
        ActivationReaches(s, step, h);
      }
    } else {
      OtherStepsBringNothingNew(s, step, h);
    }
  }

  lemma OtherStepsBringNothingNew(s: State, step: Step, h: Hash)
    requires Inv(s) && Enabled(s, step) && Stranded(s, h) && !Reaches(step, h, s.selections[h].file)
    ensures NothingNew(s, Next(s, step), h)
  {
    match step
    case StartStream(g, f, ok1, ok2) =>
      StartSpares(s, g, f, ok1, ok2, h, s.selections[h].file);
      SameEntriesNothingNew(s, Next(s, step), h);
    case Refresh(g, f, ok1, ok2) =>
      RefreshSpares(s, g, f, ok1, ok2, h, s.selections[h].file);
      SameEntriesNothingNew(s, Next(s, step), h);
    case Select(g, f, ok) =>
      SelectionSpares(s, g, f, ok, h, s.selections[h].file);
      SameEntriesNothingNew(s, Next(s, step), h);
    case RefreshKnown(g, f, ok1, ok2) => PollBringsNothingNew(s, g, f, ok1, ok2, h);
    case EndStream(g, f) => EndingsBringNothingNew(s, g, f, h);
    case EndPlayback(g, f) => EndingsBringNothingNew(s, g, f, h);
    case RunCleanup(id) => CleanupBringsNothingNew(s, id, h);
    case SweepExpired(keys) => SweepBringsNothingNew(s, keys, h);
    case _ => BackgroundTables(s, step);
  }

  /** Over a run, a stranded selection stays until a call reaches it: no task and no sweep ever clears it. */
  lemma {:induction false} StrandedUntilReached(states: seq<State>, steps: seq<Step>, i: nat, k: nat, h: Hash)
    requires Run(states, steps) && NoSelectedRemoved(states, steps) && i <= k <= |steps| && Stranded(states[i], h)
    requires forall n :: i <= n < k ==> !Reaches(steps[n], h, states[i].selections[h].file)
    ensures StrandedStill(states[i], states[k], h)
  {
    if i < k {
      var s, t, step := states[k - 1], states[k], steps[k - 1];
      StrandedUntilReached(states, steps, i, k - 1, h);
      RunKeeps(states, steps, k - 1);
      assert Enabled(s, step) && t == Next(s, step);
      StrandedStaysIff(s, step, h);
    }
  }

  /* ---- What holds a selection also ends it ---- */

  /** The last stream of a selected file hands its selection over to a cleanup of its generation. */
  lemma LastStreamHandsOver(s: State, h: Hash)
    requires h in s.selections && Count(s.fileStreams, (h, s.selections[h].file)) <= 1
    ensures var sel := s.selections[h];
      var t := StreamEnd(s, h, sel.file);
      && (h, sel.file) !in t.fileStreams && h in t.selections && t.selections[h] == sel
      && s.spawned in t.cleanups
      && t.cleanups[s.spawned] == Cleanup(h, sel.file, Some(sel.generation), s.now + FILE_CLEANUP_DELAY)
  {
  }

  lemma {:induction false} ExpireKeysClear(s: State, order: seq<Key>, h: Hash)
    requires h in s.selections ==>
               (h, s.selections[h].file) in order && Count(s.fileStreams, (h, s.selections[h].file)) == 0
    ensures h !in ExpireKeys(s, order).selections
    decreases |order|
  {
    if order != [] {
      ExpireKeysClear(ExpireKey(s, order[0]), order[1..], h);
    }
  }

  lemma {:induction false} ExpireKeysKeepPlaying(s: State, order: seq<Key>, h: Hash)
    requires h in s.selections && Count(s.fileStreams, (h, s.selections[h].file)) > 0
    ensures h in ExpireKeys(s, order).selections && ExpireKeys(s, order).selections[h] == s.selections[h]
    decreases |order|
  {
    if order != [] {
      ExpireKeysKeepPlaying(ExpireKey(s, order[0]), order[1..], h);
    }
  }

  /** The lease of the selected file has expired and no stream reads the file. */
  predicate LeaseRanOut(s: State, h: Hash)
    requires h in s.selections
  {
    var k := (h, s.selections[h].file);
    k in s.leases && !LeaseIsActive(s.leases[k], s.now) && Count(s.fileStreams, k) == 0
  }

  /** The sweep clears a selection exactly when its lease has run out and no stream reads the file. */
  lemma SweepClearsIff(s: State, keys: seq<Key>, h: Hash)
    requires Enabled(s, SweepExpired(keys)) && h in s.selections
    ensures h !in SweepLeases(s, keys).selections <==> LeaseRanOut(s, h)
    ensures h in SweepLeases(s, keys).selections ==> SweepLeases(s, keys).selections[h] == s.selections[h]
  {
    var k := (h, s.selections[h].file);
    var s1 := s.(leases := s.leases - ExpiredLeases(s));
    assert k in keys <==> k in ExpiredLeases(s);
    if LeaseRanOut(s, h) {
      ExpireKeysClear(s1, keys, h);
    } else if k in ExpiredLeases(s) {
      ExpireKeysKeepPlaying(s1, keys, h);
    } else {
      ExpireKeysSpare(s1, keys, h);
    }
  }

  /**
    A cleanup that runs clears a selection exactly when it is for that file and generation and
    neither a stream nor an active lease wants the file.
  */
  lemma CleanupClearsIff(s: State, id: nat, h: Hash)
    requires id in s.cleanups && h in s.selections
    ensures var sel, c := s.selections[h], s.cleanups[id];
      var k := (h, sel.file);
      h !in FireCleanup(s, id).selections <==>
        && c.hash == h && c.file == sel.file && c.generation == Some(sel.generation)
        && Count(s.fileStreams, k) == 0 && !(k in s.leases && LeaseIsActive(s.leases[k], s.now))
    ensures h in FireCleanup(s, id).selections ==> FireCleanup(s, id).selections[h] == s.selections[h]
  {
  }

  /* ---- Left to itself ---- */

  /** The step is a call about the torrent. */
  predicate Calls(step: Step, h: Hash) {
    match step
    case StartStream(g, _, _, _) => g == h
    case EndStream(g, _) => g == h
    case Select(g, _, _) => g == h
    case Refresh(g, _, _, _) => g == h
    case RefreshKnown(g, _, _, _) => g == h
    case EndPlayback(g, _) => g == h
    case _ => false
  }

  /** Nothing about a file comes up anew; its lease goes only together with the selection. */
  ghost predicate Fades(s: State, t: State, h: Hash, f: nat) {
    var k := (h, f);
    && t.now >= s.now
    && (h in t.selections ==> h in s.selections && t.selections[h] == s.selections[h])
    && (k in t.fileStreams ==> k in s.fileStreams)
    && (k in t.leases ==> k in s.leases && t.leases[k] == s.leases[k])
    && (k in s.leases && k !in s.fileStreams && h in t.selections ==> k in t.leases)
    && (forall id :: id in t.cleanups && t.cleanups[id].hash == h ==>
          id in s.cleanups && t.cleanups[id] == s.cleanups[id])
  }

  lemma SameEntriesFade(s: State, t: State, h: Hash, f: nat)
    requires SameEntries(s, t, h, f)
    ensures Fades(s, t, h, f)
  {
  }

  lemma EndingsFade(s: State, g: Hash, n: nat, h: Hash, f: nat)
    requires g != h
    ensures Fades(s, StreamEnd(s, g, n), h, f) && Fades(s, EndHls(s, g, n), h, f)
  {
  }

  lemma PollFades(s: State, g: Hash, n: nat, ok1: bool, ok2: bool, h: Hash, f: nat)
    requires g != h
    ensures Fades(s, RefreshExisting(s, g, n, ok1, ok2), h, f)
  {
    if (g, n) in s.leases && LeaseIsActive(s.leases[(g, n)], s.now) {
      RefreshSpares(s, g, n, ok1, ok2, h, f);
      SameEntriesFade(s, RefreshHls(s, g, n, ok1, ok2), h, f);
    }
  }

  lemma {:induction false} ExpireKeysTables(s: State, order: seq<Key>)
    ensures var t := ExpireKeys(s, order);
      && t.now == s.now && t.fileStreams == s.fileStreams && t.leases == s.leases && t.cleanups == s.cleanups
      && forall h :: h in t.selections ==> h in s.selections && t.selections[h] == s.selections[h]
    decreases |order|
  {
    if order != [] {
      ReleaseTables(s, order[0].0, order[0].1, 0);
      ExpireKeysTables(ExpireKey(s, order[0]), order[1..]);
    }
  }

  lemma SweepFades(s: State, keys: seq<Key>, h: Hash, f: nat)
    requires Enabled(s, SweepExpired(keys)) && (h in s.selections ==> s.selections[h].file == f)
    requires forall k :: k in s.fileStreams ==> s.fileStreams[k] > 0
    ensures Fades(s, SweepLeases(s, keys), h, f)
  {
    ExpireKeysTables(s.(leases := s.leases - ExpiredLeases(s)), keys);
    if h in s.selections {
      SweepClearsIff(s, keys, h);
    }
  }

  lemma CleanupFades(s: State, id: nat, h: Hash, f: nat)
    requires id in s.cleanups
    ensures Fades(s, FireCleanup(s, id), h, f)
  {
    CleanupTasks(s, id);
    CleanupTables(s, id);
  }

  lemma CleanupTables(s: State, id: nat)
    requires id in s.cleanups
    ensures var t := FireCleanup(s, id);
      && t.now == s.now && t.fileStreams == s.fileStreams && t.leases == s.leases
      && forall h :: h in t.selections ==> h in s.selections && t.selections[h] == s.selections[h]
  {
    var c := s.cleanups[id];
    if !CleanupSkips(s, c) {
      ReleaseTables(s.(cleanups := s.cleanups - {id}), c.hash, c.file, c.generation.GetOr(0));
    }
  }

  lemma ReleaseTables(s: State, hash: Hash, file: nat, fallback: nat)
    ensures var t := ReleaseFile(s, hash, file, fallback);
      && t.now == s.now && t.fileStreams == s.fileStreams && t.leases == s.leases && t.cleanups == s.cleanups
      && forall h :: h in t.selections ==> h in s.selections && t.selections[h] == s.selections[h]
  {
  }

  lemma CallFreeStepFades(s: State, step: Step, h: Hash, f: nat)
    requires Inv(s) && Enabled(s, step) && !Calls(step, h) && (h in s.selections ==> s.selections[h].file == f)
    ensures Fades(s, Next(s, step), h, f)
  {
    match step
    case StartStream(g, n, ok1, ok2) =>
      StartSpares(s, g, n, ok1, ok2, h, f);
      SameEntriesFade(s, Next(s, step), h, f);
    case Refresh(g, n, ok1, ok2) =>
      RefreshSpares(s, g, n, ok1, ok2, h, f);
      SameEntriesFade(s, Next(s, step), h, f);
    case Select(g, n, ok) =>
      SelectionSpares(s, g, n, ok, h, f);
      SameEntriesFade(s, Next(s, step), h, f);
    case RefreshKnown(g, n, ok1, ok2) => PollFades(s, g, n, ok1, ok2, h, f);
    case EndStream(g, n) => EndingsFade(s, g, n, h, f);
    case EndPlayback(g, n) => EndingsFade(s, g, n, h, f);
    case RunCleanup(id) => CleanupFades(s, id, h, f);
    case SweepExpired(keys) => SweepFades(s, keys, h, f);
    case _ => BackgroundTables(s, step);
  }

  /** The run from `i` to `k` has no call about the torrent. */
  ghost predicate LeftAlone(states: seq<State>, steps: seq<Step>, i: nat, k: nat, h: Hash) {
    && Run(states, steps) && NoSelectedRemoved(states, steps) && i <= k <= |steps|
    && forall n :: i <= n < k ==> !Calls(steps[n], h)
  }

  lemma {:induction false} LeftAloneFades(states: seq<State>, steps: seq<Step>, i: nat, k: nat, h: Hash, f: nat)
    requires LeftAlone(states, steps, i, k, h) && (h in states[i].selections ==> states[i].selections[h].file == f)
    ensures Fades(states[i], states[k], h, f)
  {
    if i < k {
      LeftAloneFades(states, steps, i, k - 1, h, f);
      RunKeeps(states, steps, k - 1);
      CallFreeStepFades(states[k - 1], steps[k - 1], h, f);
    }
  }

  /** The step is the end of a selection as it stood in `s`: its lease is swept, or its cleanup runs. */
  ghost predicate Ends(s: State, t: State, step: Step, h: Hash)
    requires h in s.selections
  {
    var sel := s.selections[h];
    var k := (h, sel.file);
    match step
    case SweepExpired(_) => k in s.leases && s.leases[k].expiresAt <= t.now
    case RunCleanup(id) =>
      && id in s.cleanups && s.cleanups[id].hash == h && s.cleanups[id].file == sel.file
      && s.cleanups[id].generation == Some(sel.generation)
      && (k in s.leases ==> s.leases[k].expiresAt <= t.now)
    case _ => false
  }

  /** One step without a call clears a selection no stream reads exactly when it is its end. */
  lemma StepEndsIff(s: State, step: Step, h: Hash)
    requires Inv(s) && Enabled(s, step) && !Calls(step, h)
    requires h in s.selections && (h, s.selections[h].file) !in s.fileStreams
    ensures h !in Next(s, step).selections <==> Ends(s, s, step, h)
  {
    match step
    case SweepExpired(keys) => SweepClearsIff(s, keys, h);
    case RunCleanup(id) => CleanupClearsIff(s, id, h);
    case _ => OnlyTheseClear(s, step, h);
  }

  lemma OnlyTheseClear(s: State, step: Step, h: Hash)
    requires Enabled(s, step) && !Calls(step, h) && h in s.selections
    requires !step.SweepExpired? && !step.RunCleanup?
    ensures h in Next(s, step).selections
  {
    match step
    case StartStream(g, n, ok1, ok2) => StartSpares(s, g, n, ok1, ok2, h, 0);
    case Refresh(g, n, ok1, ok2) => RefreshSpares(s, g, n, ok1, ok2, h, 0);
    case Select(g, n, ok) => SelectionSpares(s, g, n, ok, h, 0);
    case RefreshKnown(g, n, ok1, ok2) => RefreshSpares(s, g, n, ok1, ok2, h, 0);
    case SweepIdle(hashes, refusing) => PauseAllTables(s, hashes, refusing);
    case _ =>
  }

  /** At `j` the end of the selection as it stands there is its end as it stood at `i`. */
  lemma SameEnd(states: seq<State>, steps: seq<Step>, i: nat, j: nat, h: Hash)
    requires LeftAlone(states, steps, i, j, h) && j < |steps| && Enabled(states[j], steps[j])
    requires h in states[i].selections && h in states[j].selections
    requires (h, states[i].selections[h].file) !in states[i].fileStreams
    ensures states[j].selections[h] == states[i].selections[h]
    ensures Ends(states[j], states[j], steps[j], h) <==> Ends(states[i], states[j], steps[j], h)
  {
    LeftAloneFades(states, steps, i, j, h, states[i].selections[h].file);
    if steps[j].RunCleanup? && steps[j].task in states[i].cleanups {
      RunIsChain(states, steps);
      TaskUnchanged(states, i, j, steps[j].task);
    }
  }

  /**
    In a stretch of a run without calls about a torrent, a selection that no stream reads is
    cleared exactly when a sweep comes at or after the expiry of its lease, or a cleanup of its
    file and generation runs while no lease is active.
  */
  lemma {:induction false} SelectionEndsIff(states: seq<State>, steps: seq<Step>, i: nat, k: nat, h: Hash)
    requires LeftAlone(states, steps, i, k, h) && h in states[i].selections
    requires (h, states[i].selections[h].file) !in states[i].fileStreams
    ensures h !in states[k].selections <==>
            exists j :: i <= j < k && Ends(states[i], states[j], steps[j], h)
  {
    if i < k {
      var j := k - 1;
      SelectionEndsIff(states, steps, i, j, h);
      RunKeeps(states, steps, j);
      LeftAloneFades(states, steps, i, j, h, states[i].selections[h].file);
      if h in states[j].selections {
        SameEnd(states, steps, i, j, h);
        StepEndsIff(states[j], steps[j], h);
      } else {
        CallFreeStepFades(states[j], steps[j], h, states[i].selections[h].file);
      }
    }
  }
}
