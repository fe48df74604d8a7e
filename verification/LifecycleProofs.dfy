/** What every run of the playback lifecycle keeps. */
module LifecycleProofs {
  import opened Wrappers
  import opened Lifecycle

  /* ---- The one-wanted-file invariant ---- */

  /**
    One torrent's tables agree.  The plan the backend last received names exactly the
    selected file, or no file when nothing is selected; the leases, stream counters and
    the active file of a selected torrent are all the selected file's; and the idle flag
    of its engine is the backend's paused bit.
  */
  ghost predicate TorrentInv(s: State, h: Hash) {
    && (h in s.selections ==> SelectionInv(s, h, s.selections[h]))
    && (h in s.engines ==> s.engines[h].idlePaused == s.engines[h].paused)
    && (h in s.engines && h !in s.selections && s.engines[h].plan.Some? ==>
          s.engines[h].plan.value.activeFile == None)
  }

  ghost predicate SelectionInv(s: State, h: Hash, sel: Selection) {
    && h in s.engines && s.engines[h].fileCount > 1
    && s.engines[h].plan == Some(Plan(Some(sel.file), sel.generation))
    && 0 < sel.generation <= s.generation
    && (forall f :: (h, f) in s.leases ==> f == sel.file)
    && (forall f :: (h, f) in s.fileStreams ==> f == sel.file)
    && (s.activeFile.Some? && s.activeFile.value.0 == h ==> s.activeFile.value.1 == sel.file)
  }

  /** Counters are stored only while positive; generations in use were issued. */
  ghost predicate TablesInv(s: State) {
    && (forall h :: h in s.streams ==> s.streams[h] > 0)
    && (forall k :: k in s.fileStreams ==> s.fileStreams[k] > 0)
    && (forall i :: i in s.cleanups ==> i < s.spawned)
    && (forall i :: i in s.cleanups && s.cleanups[i].generation.Some? ==>
          s.cleanups[i].generation.value <= s.generation)
  }

  ghost predicate Inv(s: State) {
    TablesInv(s) && forall h :: TorrentInv(s, h)
  }

  /** `t` differs from `s` only in what it says about one torrent. */
  ghost predicate OnlyTorrent(s: State, t: State, hash: Hash) {
    && t.generation >= s.generation
    && (t.activeFile == s.activeFile || t.activeFile == None || t.activeFile.value.0 == hash)
    && (forall h :: h != hash ==> SameTorrent(s, t, h))
  }

  ghost predicate SameTorrent(s: State, t: State, h: Hash) {
    && (h in t.engines <==> h in s.engines) && (h in s.engines ==> t.engines[h] == s.engines[h])
    && (h in t.selections <==> h in s.selections)
    && (h in s.selections ==> t.selections[h] == s.selections[h])
    && (forall f :: (h, f) in t.leases ==> (h, f) in s.leases)
    && (forall f :: (h, f) in t.fileStreams ==> (h, f) in s.fileStreams)
  }

  lemma OthersKeep(s: State, t: State, hash: Hash)
    requires forall h :: h != hash ==> TorrentInv(s, h)
    requires OnlyTorrent(s, t, hash)
    ensures forall h :: h != hash ==> TorrentInv(t, h)
  {
    forall h | h != hash
      ensures TorrentInv(t, h)
    {
      assert TorrentInv(s, h) && SameTorrent(s, t, h);
    }
  }

  lemma InvFromOne(s: State, t: State, hash: Hash)
    requires Inv(s) && OnlyTorrent(s, t, hash)
    requires TablesInv(t) && TorrentInv(t, hash)
    ensures Inv(t)
  {
    OthersKeep(s, t, hash);
  }

  /* ---- Small updates ---- */

  lemma EngineKeeps(s: State, hash: Hash, e: Engine)
    requires Inv(s) && hash in s.engines
    requires e.fileCount == s.engines[hash].fileCount && e.plan == s.engines[hash].plan
    requires e.idlePaused == e.paused
    ensures Inv(WithEngine(s, hash, e))
  {
    assert TorrentInv(s, hash);
    assert TorrentInv(WithEngine(s, hash, e), hash);
    InvFromOne(s, WithEngine(s, hash, e), hash);
  }

  lemma TouchKeeps(s: State, hash: Hash)
    requires Inv(s)
    ensures Inv(Touch(s, hash))
  {
    if hash in s.engines {
      assert TorrentInv(s, hash);
      EngineKeeps(s, hash, s.engines[hash].(lastAccessed := s.now));
    }
  }

  /** Dropping leases and counters, and rescheduling tasks, cannot break a torrent. */
  lemma TablesShrinkKeeps(s: State, t: State)
    requires Inv(s) && TablesInv(t)
    requires t.engines == s.engines && t.selections == s.selections
    requires t.generation == s.generation && t.activeFile == s.activeFile
    requires forall k :: k in t.leases ==> k in s.leases
    requires forall k :: k in t.fileStreams ==> k in s.fileStreams
    ensures Inv(t)
  {
    forall h
      ensures TorrentInv(t, h)
    {
      assert TorrentInv(s, h);
    }
  }

  /* ---- Activation ---- */

  /** Selecting a file of a multi-file torrent settles that torrent whatever it was before. */
  lemma SelectFileSettles(s: State, hash: Hash, file: nat, e: Engine)
    requires TablesInv(s) && (forall h :: h != hash ==> TorrentInv(s, h))
    requires hash in s.engines && e.fileCount > 1 && e.idlePaused == e.paused
    ensures Inv(SelectFile(s, hash, file, e))
  {
    var t := SelectFile(s, hash, file, e);
    assert TorrentInv(t, hash);
    assert OnlyTorrent(s, t, hash);
    OthersKeep(s, t, hash);
  }

  lemma ActivateMultifileKeeps(s: State, hash: Hash, file: nat, ok: bool)
    requires Inv(s)
    ensures Inv(ActivateMultifile(s, hash, file, ok))
  {
    assert TorrentInv(s, hash);
    if hash in s.engines && s.engines[hash].fileCount > 1 {
      SelectFileSettles(s, hash, file, Resumed(s.engines[hash].(lastAccessed := s.now), ok));
    } else {
      TouchKeeps(s, hash);
    }
  }

  /** Activation may start from tables that already hold the new lease. */
  lemma ActivateFileSettles(s: State, hash: Hash, file: nat, keep: bool, ok1: bool, ok2: bool)
    requires TablesInv(s) && (forall h :: h != hash ==> TorrentInv(s, h))
    requires hash in s.engines ==> s.engines[hash].idlePaused == s.engines[hash].paused
    requires (hash in s.engines && s.engines[hash].fileCount > 1) || (hash !in s.selections && TorrentInv(s, hash))
    ensures var t := ActivateFile(s, hash, file, keep, ok1, ok2);
      Inv(t) && (hash in t.selections ==> t.selections[hash].file == file)
  {
    var t := ActivateFile(s, hash, file, keep, ok1, ok2);
    if hash in s.engines && s.engines[hash].fileCount > 1 {
      SelectFileSettles(s, hash, file, Resumed(Resumed(s.engines[hash].(lastAccessed := s.now), ok1), ok2));
    } else {
      assert TorrentInv(t, hash);
      InvFromOne(s, t, hash);
    }
  }

  lemma CountersKeep(s: State, hash: Hash, file: nat)
    requires Inv(s)
    requires hash in s.selections ==> s.selections[hash].file == file
    ensures Inv(s.(streams := s.streams[hash := Count(s.streams, hash) + 1],
                   fileStreams := s.fileStreams[(hash, file) := Count(s.fileStreams, (hash, file)) + 1]))
  {
    var t := s.(streams := s.streams[hash := Count(s.streams, hash) + 1],
                fileStreams := s.fileStreams[(hash, file) := Count(s.fileStreams, (hash, file)) + 1]);
    assert TorrentInv(s, hash);
    assert TorrentInv(t, hash);
    InvFromOne(s, t, hash);
  }

  lemma StreamStartKeeps(s: State, hash: Hash, file: nat, ok1: bool, ok2: bool)
    requires Inv(s)
    ensures Inv(StreamStart(s, hash, file, ok1, ok2))
  {
    assert TorrentInv(s, hash);
    ActivateFileSettles(s, hash, file, false, ok1, ok2);
    CountersKeep(ActivateFile(s, hash, file, false, ok1, ok2), hash, file);
  }

  lemma LeaseInsertKeepsOthers(s: State, k: Key, lease: Lease)
    requires Inv(s)
    ensures var t := s.(leases := s.leases[k := lease]);
      && TablesInv(t) && (forall h :: h != k.0 ==> TorrentInv(t, h))
      && (k.0 !in s.selections ==> TorrentInv(t, k.0))
  {
    assert TorrentInv(s, k.0);
    var t := s.(leases := s.leases[k := lease]);
    assert OnlyTorrent(s, t, k.0);
    OthersKeep(s, t, k.0);
  }

  lemma RefreshHlsKeeps(s: State, hash: Hash, file: nat, ok1: bool, ok2: bool)
    requires Inv(s)
    ensures Inv(RefreshHls(s, hash, file, ok1, ok2))
  {
    assert TorrentInv(s, hash);
    var lease := Lease(s.now, s.now + HLS_PLAYBACK_LEASE_TTL);
    LeaseInsertKeepsOthers(s, (hash, file), lease);
    if hash in s.engines {
      ActivateFileSettles(s.(leases := s.leases[(hash, file) := lease]), hash, file, true, ok1, ok2);
    }
  }

  lemma RefreshExistingKeeps(s: State, hash: Hash, file: nat, ok1: bool, ok2: bool)
    requires Inv(s)
    ensures Inv(RefreshExisting(s, hash, file, ok1, ok2))
  {
    RefreshHlsKeeps(s, hash, file, ok1, ok2);
    var s1 := s.(leases := s.leases - {(hash, file)});
    TablesShrinkKeeps(s, s1);
    TouchKeeps(s1, hash);
  }

  /* ---- Ending, delayed tasks, sweep ---- */

  lemma EndHlsKeeps(s: State, hash: Hash, file: nat)
    requires Inv(s)
    ensures Inv(EndHls(s, hash, file))
  {
    assert TorrentInv(s, hash);
    TouchKeeps(s, hash);
    TablesShrinkKeeps(Touch(s, hash), EndHls(s, hash, file));
  }

  lemma StreamEndKeeps(s: State, hash: Hash, file: nat)
    requires Inv(s)
    ensures Inv(StreamEnd(s, hash, file))
  {
    assert TorrentInv(s, hash);
    TouchKeeps(s, hash);
    TablesShrinkKeeps(Touch(s, hash), StreamEnd(s, hash, file));
  }

  lemma ReleaseFileKeeps(s: State, hash: Hash, file: nat, fallback: nat)
    requires Inv(s)
    ensures Inv(ReleaseFile(s, hash, file, fallback))
  {
    var t := ReleaseFile(s, hash, file, fallback);
    assert TorrentInv(s, hash);
    assert OnlyTorrent(s, t, hash) && TorrentInv(t, hash);
    InvFromOne(s, t, hash);
  }

  lemma FireCleanupKeeps(s: State, id: nat)
    requires Inv(s) && id in s.cleanups
    ensures Inv(FireCleanup(s, id))
  {
    var c := s.cleanups[id];
    var s1 := s.(cleanups := s.cleanups - {id});
    TablesShrinkKeeps(s, s1);
    ReleaseFileKeeps(s1, c.hash, c.file, c.generation.GetOr(0));
  }

  lemma FirePauseKeeps(s: State, id: nat, ok: bool)
    requires Inv(s) && id in s.pauses
    ensures Inv(FirePause(s, id, ok))
  {
    var hash := s.pauses[id].hash;
    var s1 := s.(pauses := s.pauses - {id});
    TablesShrinkKeeps(s, s1);
    assert TorrentInv(s, hash);
    if hash in s.engines {
      EngineKeeps(s1, hash, IdlePaused(s.engines[hash].(lastAccessed := s.now), ok));
    }
  }

  lemma ExpireKeysKeeps(s: State, order: seq<Key>)
    requires Inv(s)
    ensures Inv(ExpireKeys(s, order))
    decreases |order|
  {
    if order != [] {
      ReleaseFileKeeps(s, order[0].0, order[0].1, 0);
      ExpireKeysKeeps(ExpireKey(s, order[0]), order[1..]);
    }
  }

  lemma PauseAllKeeps(s: State, order: seq<Hash>, refusing: set<Hash>)
    requires Inv(s)
    ensures Inv(PauseAll(s, order, refusing))
    decreases |order|
  {
    if order != [] {
      var h, ok := order[0], order[0] !in refusing;
      assert TorrentInv(s, h);
      if h in s.engines {
        EngineKeeps(s, h, IdlePaused(s.engines[h], ok));
      }
      PauseAllKeeps(PauseIfIdle(s, h, ok), order[1..], refusing);
    }
  }

  /** Steps that treat every torrent alike. */
  lemma UniformStepKeeps(s: State, step: Step)
    requires Inv(s) && Enabled(s, step)
    requires step.SweepInactive? || step.Seed? || step.RunResume? || step.Tick?
    ensures Inv(Next(s, step))
  {
    var t := Next(s, step);
    forall h
      ensures TorrentInv(t, h)
    {
      assert TorrentInv(s, h);
    }
  }

  lemma ReadersKeeps(s: State, hash: Hash, n: nat)
    requires Inv(s)
    ensures Inv(SetReaders(s, hash, n))
  {
    assert TorrentInv(s, hash);
    if hash in s.engines {
      EngineKeeps(s, hash, s.engines[hash].(readers := n));
    }
  }

  lemma AddKeeps(s: State, hash: Hash, n: nat)
    requires Inv(s)
    ensures Inv(AddEngine(s, hash, n))
  {
    assert TorrentInv(s, hash);
    if hash in s.engines {
      TouchKeeps(s, hash);
    } else {
      assert TorrentInv(AddEngine(s, hash, n), hash);
      InvFromOne(s, AddEngine(s, hash, n), hash);
    }
  }

  lemma ResolveKeeps(s: State, hash: Hash, n: nat)
    requires Inv(s)
    ensures Inv(ResolveMetadata(s, hash, n))
  {
    if hash in s.engines && !HasMetadata(s.engines[hash]) {
      assert TorrentInv(s, hash);
      assert hash !in s.selections;
      var t := WithEngine(s, hash, s.engines[hash].(fileCount := n));
      assert TorrentInv(t, hash);
      InvFromOne(s, t, hash);
    }
  }

  lemma RemoveKeeps(s: State, hash: Hash)
    requires Inv(s) && hash !in s.selections
    ensures Inv(RemoveEngine(s, hash))
  {
    assert TorrentInv(s, hash);
    assert TorrentInv(RemoveEngine(s, hash), hash);
    InvFromOne(s, RemoveEngine(s, hash), hash);
  }

  lemma ExpiredDroppedKeeps(s: State)
    requires Inv(s)
    ensures Inv(s.(leases := s.leases - ExpiredLeases(s)))
  {
    var t := s.(leases := s.leases - ExpiredLeases(s));
    forall h
      ensures TorrentInv(t, h)
    {
      assert TorrentInv(s, h);
    }
  }

  lemma StepKeeps(s: State, step: Step)
    requires Inv(s) && Enabled(s, step)
    requires step.Remove? ==> step.hash !in s.selections
    ensures Inv(Next(s, step))
  {
    match step
    case StartStream(h, f, ok1, ok2) => StreamStartKeeps(s, h, f, ok1, ok2);
    case EndStream(h, f) => StreamEndKeeps(s, h, f);
    case Select(h, f, ok) => ActivateMultifileKeeps(s, h, f, ok);
    case Refresh(h, f, ok1, ok2) => RefreshHlsKeeps(s, h, f, ok1, ok2);
    case RefreshKnown(h, f, ok1, ok2) => RefreshExistingKeeps(s, h, f, ok1, ok2);
    case EndPlayback(h, f) => EndHlsKeeps(s, h, f);
    case RunCleanup(id) => FireCleanupKeeps(s, id);
    case RunPause(id, ok) => FirePauseKeeps(s, id, ok);
    case SweepExpired(keys) =>
      ExpiredDroppedKeeps(s);
      ExpireKeysKeeps(s.(leases := s.leases - ExpiredLeases(s)), keys);
    case SweepIdle(hashes, refusing) => PauseAllKeeps(s, hashes, refusing);
    case SweepInactive => UniformStepKeeps(s, step);
    case Seed(enabled) => UniformStepKeeps(s, step);
    case RunResume(refusing) => UniformStepKeeps(s, step);
    case Tick(d) => UniformStepKeeps(s, step);
    case Readers(h, n) => ReadersKeeps(s, h, n);
    case Add(h, n) => AddKeeps(s, h, n);
    case Resolve(h, n) => ResolveKeeps(s, h, n);
    case Remove(h) => RemoveKeeps(s, h);
  }
}
