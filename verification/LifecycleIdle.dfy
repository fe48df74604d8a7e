/** The idle policy never holds a torrent that is being played, as long as resumes succeed. */
module LifecycleIdle {
  import opened Lifecycle

  /** A torrent the idle policy has paused has no stream, no live lease and no selection. */
  ghost predicate IdleOk(s: State, h: Hash) {
    h in s.engines && s.engines[h].idlePaused ==> !Active(s, h)
  }

  ghost predicate IdleSafe(s: State) {
    forall h :: IdleOk(s, h)
  }

  /** The call wakes a paused torrent and every resume it tries is refused. */
  predicate ResumeRefused(s: State, step: Step) {
    match step
    case StartStream(h, _, ok1, ok2) => IsIdle(s, h) && !ok1 && !(s.engines[h].fileCount > 1 && ok2)
    case Refresh(h, _, ok1, ok2) => IsIdle(s, h) && !ok1 && !(s.engines[h].fileCount > 1 && ok2)
    case Select(h, _, ok2) => IsIdle(s, h) && s.engines[h].fileCount > 1 && !ok2
    case _ => false
  }

  predicate IsIdle(s: State, h: Hash) {
    h in s.engines && s.engines[h].idlePaused
  }

  /* ---- The pause pass of the sweep ---- */

  /** Pausing one torrent does not make another one busy or idle. */
  lemma PauseLeavesOthers(s: State, g: Hash, ok: bool, h: Hash)
    ensures var t := PauseIfIdle(s, g, ok);
      && (h in t.engines <==> h in s.engines)
      && (MayPause(t, h) <==> MayPause(s, h))
      && (h != g && h in s.engines ==> t.engines[h] == s.engines[h])
      && t == s.(engines := t.engines)
  {
    assert Active(PauseIfIdle(s, g, ok), h) <==> Active(s, h);
  }

  /** The pass pauses each idle torrent it visits, whatever the order and however often it comes. */
  lemma {:induction false} PauseAllPausesEach(s: State, order: seq<Hash>, refusing: set<Hash>)
    ensures var t := PauseAll(s, order, refusing);
      && t == s.(engines := t.engines) && t.engines.Keys == s.engines.Keys
      && forall h :: h in s.engines ==>
           t.engines[h] == if h in order && MayPause(s, h) then IdlePaused(s.engines[h], h !in refusing)
                           else s.engines[h]
    decreases |order|
  {
    if order != [] {
      var g, ok := order[0], order[0] !in refusing;
      var s1 := PauseIfIdle(s, g, ok);
      PauseAllPausesEach(s1, order[1..], refusing);
      forall h | h in s.engines
        ensures PauseAll(s, order, refusing).engines[h] ==
                if h in order && MayPause(s, h) then IdlePaused(s.engines[h], h !in refusing) else s.engines[h]
      {
        PauseLeavesOthers(s, g, ok, h);
        assert h in order <==> h == g || h in order[1..];
      }
      PauseLeavesOthers(s, g, ok, g);
    }
  }

  lemma SweepPausesIdle(s: State, order: seq<Hash>, refusing: set<Hash>)
    requires (set h | h in order) == s.engines.Keys
    ensures PauseAll(s, order, refusing) == PausedIdle(s, refusing)
  {
    PauseAllPausesEach(s, order, refusing);
    forall h | h in s.engines
      ensures h in order
    {
      assert h in set g | g in order;
    }
  }

  /* ---- Activity ---- */

  /** Nothing about `h` became busier, and no idle pause of it appeared. */
  ghost predicate Calmer(s: State, t: State, h: Hash) {
    && (IsIdle(t, h) ==> IsIdle(s, h))
    && (Active(t, h) ==> Active(s, h))
  }

  lemma CalmerIsSafe(s: State, t: State)
    requires IdleSafe(s) && forall h :: Calmer(s, t, h)
    ensures IdleSafe(t)
  {
    forall h
      ensures IdleOk(t, h)
    {
      assert IdleOk(s, h) && Calmer(s, t, h);
    }
  }

  /** Smaller tables and a later clock mean less activity. */
  lemma FewerTablesCalmer(s: State, t: State, h: Hash)
    requires IsIdle(t, h) ==> IsIdle(s, h)
    requires t.now >= s.now
    requires Count(t.streams, h) > 0 ==> Count(s.streams, h) > 0
    requires h in t.selections ==> h in s.selections
    requires forall f: nat :: (h, f) in t.leases ==> (h, f) in s.leases && t.leases[(h, f)] == s.leases[(h, f)]
    requires forall f: nat :: (h, f) in t.fileStreams ==>
               (h, f) in s.fileStreams && t.fileStreams[(h, f)] <= s.fileStreams[(h, f)]
    ensures Calmer(s, t, h)
  {
    if PlaybackActive(t, h) {
      var k :| k in t.leases && k.0 == h && LeaseIsActive(t.leases[k], t.now);
      assert (h, k.1) == k;
    }
    if FileActive(t, h) {
      var k :| k in t.fileStreams && k.0 == h && t.fileStreams[k] > 0;
      assert (h, k.1) == k;
    }
  }

  lemma SelectFileCalmer(s: State, hash: Hash, file: nat, e: Engine, h: Hash)
    requires h != hash
    ensures Calmer(s, SelectFile(s, hash, file, e), h)
  {
    FewerTablesCalmer(s, SelectFile(s, hash, file, e), h);
  }

  /** An activation makes no other torrent busier. */
  lemma ActivationCalmer(s: State, hash: Hash, file: nat, keep: bool, ok1: bool, ok2: bool, h: Hash)
    requires h != hash
    ensures Calmer(s, ActivateFile(s, hash, file, keep, ok1, ok2), h)
  {
    if hash in s.engines && s.engines[hash].fileCount > 1 {
      SelectFileCalmer(s, hash, file, Resumed(Resumed(s.engines[hash].(lastAccessed := s.now), ok1), ok2), h);
    } else {
      FewerTablesCalmer(s, ActivateFile(s, hash, file, keep, ok1, ok2), h);
    }
  }

  /** An activation wakes its torrent exactly when one of its resumes succeeds. */
  lemma ActivationWakes(s: State, hash: Hash, file: nat, keep: bool, ok1: bool, ok2: bool)
    ensures IsIdle(ActivateFile(s, hash, file, keep, ok1, ok2), hash) <==>
              IsIdle(s, hash) && !ok1 && !(s.engines[hash].fileCount > 1 && ok2)
  {
    if Multifile(s, hash) {
    } else if hash in s.engines {
    }
  }

  lemma ActivationKeepsLease(s: State, hash: Hash, file: nat, keep: bool, ok1: bool, ok2: bool)
    requires (hash, file) in s.leases && LeaseIsActive(s.leases[(hash, file)], s.now)
    ensures PlaybackActive(ActivateFile(s, hash, file, keep, ok1, ok2), hash)
  {
    var t := ActivateFile(s, hash, file, keep, ok1, ok2);
    if Multifile(s, hash) {
      assert (hash, file) in OnlyFile(s.leases, hash, file);
    }
    assert (hash, file) in t.leases && t.leases[(hash, file)] == s.leases[(hash, file)] && t.now == s.now;
  }

  lemma StartIffResumed(s: State, hash: Hash, file: nat, ok1: bool, ok2: bool)
    requires IdleSafe(s)
    ensures IdleSafe(StreamStart(s, hash, file, ok1, ok2)) <==> !ResumeRefused(s, StartStream(hash, file, ok1, ok2))
  {
    var s1 := ActivateFile(s, hash, file, false, ok1, ok2);
    var t := StreamStart(s, hash, file, ok1, ok2);
    ActivationWakes(s, hash, file, false, ok1, ok2);
    assert Count(t.streams, hash) > 0;
    forall h | h != hash
      ensures IdleOk(t, h)
    {
      ActivationCalmer(s, hash, file, false, ok1, ok2, h);
      assert IdleOk(s, h);
      FewerTablesCalmer(s1, t, h);
    }
    assert IdleOk(t, hash) <==> !IsIdle(t, hash);
  }

  /** With a live lease recorded, the activation that follows is safe exactly when it wakes. */
  lemma LeasedActivationIff(s: State, hash: Hash, file: nat, ok1: bool, ok2: bool)
    requires (forall h :: h != hash ==> IdleOk(s, h)) && hash in s.engines
    requires (hash, file) in s.leases && LeaseIsActive(s.leases[(hash, file)], s.now)
    ensures IdleSafe(ActivateFile(s, hash, file, true, ok1, ok2)) <==>
              !ResumeRefused(s, Refresh(hash, file, ok1, ok2))
  {
    var t := ActivateFile(s, hash, file, true, ok1, ok2);
    ActivationWakes(s, hash, file, true, ok1, ok2);
    forall h | h != hash
      ensures IdleOk(t, h)
    {
      ActivationCalmer(s, hash, file, true, ok1, ok2, h);
      assert IdleOk(s, h);
    }
    ActivationKeepsLease(s, hash, file, true, ok1, ok2);
    assert IdleOk(t, hash) <==> !IsIdle(t, hash);
  }

  lemma LeaseSafeForOthers(s: State, k: Key, lease: Lease)
    requires IdleSafe(s)
    ensures var t := s.(leases := s.leases[k := lease]); forall h :: h != k.0 ==> IdleOk(t, h)
  {
    var s1 := s.(leases := s.leases[k := lease]);
    forall h | h != k.0
      ensures IdleOk(s1, h)
    {
      FewerTablesCalmer(s, s1, h);
      assert IdleOk(s, h);
    }
  }

  lemma RefreshIffResumed(s: State, hash: Hash, file: nat, ok1: bool, ok2: bool)
    requires IdleSafe(s)
    ensures IdleSafe(RefreshHls(s, hash, file, ok1, ok2)) <==> !ResumeRefused(s, Refresh(hash, file, ok1, ok2))
  {
    var k := (hash, file);
    var s1 := s.(leases := s.leases[k := Lease(s.now, s.now + HLS_PLAYBACK_LEASE_TTL)]);
    LeaseSafeForOthers(s, k, Lease(s.now, s.now + HLS_PLAYBACK_LEASE_TTL));
    if hash in s.engines {
      LeasedActivationIff(s1, hash, file, ok1, ok2);
      assert RefreshHls(s, hash, file, ok1, ok2) == ActivateFile(s1, hash, file, true, ok1, ok2);
    } else {
      assert RefreshHls(s, hash, file, ok1, ok2) == s1;
    }
  }

  lemma SelectIffResumed(s: State, hash: Hash, file: nat, ok: bool)
    requires IdleSafe(s)
    ensures IdleSafe(ActivateMultifile(s, hash, file, ok)) <==> !ResumeRefused(s, Select(hash, file, ok))
  {
    var t := ActivateMultifile(s, hash, file, ok);
    if Multifile(s, hash) {
      forall h | h != hash
        ensures IdleOk(t, h)
      {
        SelectFileCalmer(s, hash, file, Resumed(s.engines[hash].(lastAccessed := s.now), ok), h);
        assert IdleOk(s, h);
      }
      assert hash in t.selections;
      assert IdleOk(t, hash) <==> !IsIdle(t, hash);
    } else {
      SameTablesSafe(s, t);
    }
  }

  /** A poll that renews a lease finds its torrent awake already. */
  lemma PollSafe(s: State, hash: Hash, file: nat, ok1: bool, ok2: bool)
    requires IdleSafe(s)
    ensures IdleSafe(RefreshExisting(s, hash, file, ok1, ok2))
  {
    assert IdleOk(s, hash);
    RefreshIffResumed(s, hash, file, ok1, ok2);
    var t := Touch(s.(leases := s.leases - {(hash, file)}), hash);
    forall h
      ensures Calmer(s, t, h)
    {
      FewerTablesCalmer(s, t, h);
    }
    CalmerIsSafe(s, t);
  }

  lemma StreamEndSafe(s: State, hash: Hash, file: nat)
    requires IdleSafe(s)
    ensures IdleSafe(StreamEnd(s, hash, file))
  {
    var t := StreamEnd(s, hash, file);
    forall h
      ensures Calmer(s, t, h)
    {
      FewerTablesCalmer(s, t, h);
    }
    CalmerIsSafe(s, t);
  }

  lemma EndHlsSafe(s: State, hash: Hash, file: nat)
    requires IdleSafe(s)
    ensures IdleSafe(EndHls(s, hash, file))
  {
    var t := EndHls(s, hash, file);
    forall h
      ensures Calmer(s, t, h)
    {
      FewerTablesCalmer(s, t, h);
    }
    CalmerIsSafe(s, t);
  }

  /** No new activity and no new idle pause: the tables only stay or shrink with time. */
  lemma SameTablesSafe(s: State, t: State)
    requires IdleSafe(s)
    requires forall h :: IsIdle(t, h) ==> IsIdle(s, h)
    requires t.now >= s.now && t.streams == s.streams && t.fileStreams == s.fileStreams
    requires t.leases == s.leases && t.selections == s.selections
    ensures IdleSafe(t)
  {
    forall h
      ensures Calmer(s, t, h)
    {
      FewerTablesCalmer(s, t, h);
    }
    CalmerIsSafe(s, t);
  }

  lemma ReleaseFileSafe(s: State, hash: Hash, file: nat, fallback: nat)
    requires IdleSafe(s)
    ensures IdleSafe(ReleaseFile(s, hash, file, fallback))
  {
    var t := ReleaseFile(s, hash, file, fallback);
    forall h
      ensures Calmer(s, t, h)
    {
      FewerTablesCalmer(s, t, h);
    }
    CalmerIsSafe(s, t);
  }

  lemma CleanupSafe(s: State, id: nat)
    requires IdleSafe(s) && id in s.cleanups
    ensures IdleSafe(FireCleanup(s, id))
  {
    var c := s.cleanups[id];
    var s1 := s.(cleanups := s.cleanups - {id});
    SameTablesSafe(s, s1);
    ReleaseFileSafe(s1, c.hash, c.file, c.generation.GetOr(0));
  }

  lemma ExpireKeysSafe(s: State, order: seq<Key>)
    requires IdleSafe(s)
    ensures IdleSafe(ExpireKeys(s, order))
    decreases |order|
  {
    if order != [] {
      ReleaseFileSafe(s, order[0].0, order[0].1, 0);
      ExpireKeysSafe(ExpireKey(s, order[0]), order[1..]);
    }
  }

  lemma SweepLeasesSafe(s: State, order: seq<Key>)
    requires IdleSafe(s)
    ensures IdleSafe(SweepLeases(s, order))
  {
    var s1 := s.(leases := s.leases - ExpiredLeases(s));
    forall h
      ensures Calmer(s, s1, h)
    {
      FewerTablesCalmer(s, s1, h);
    }
    CalmerIsSafe(s, s1);
    ExpireKeysSafe(s1, order);
  }

  /** The policy pauses only torrents that show no activity. */
  lemma IdlePauseSafe(s: State, hash: Hash, e: Engine)
    requires IdleSafe(s) && hash in s.engines
    requires e.idlePaused && !s.engines[hash].idlePaused ==> !Active(s, hash)
    ensures IdleSafe(WithEngine(s, hash, e))
  {
    var t := WithEngine(s, hash, e);
    forall h
      ensures IdleOk(t, h)
    {
      assert IdleOk(s, h);
      assert Active(t, h) <==> Active(s, h);
    }
  }

  lemma PauseSafe(s: State, id: nat, ok: bool)
    requires IdleSafe(s) && id in s.pauses
    ensures IdleSafe(FirePause(s, id, ok))
  {
    var hash := s.pauses[id].hash;
    var s1 := s.(pauses := s.pauses - {id});
    SameTablesSafe(s, s1);
    assert Active(s1, hash) <==> Active(s, hash);
    if hash in s.engines && !Active(s, hash) {
      IdlePauseSafe(s1, hash, IdlePaused(s.engines[hash].(lastAccessed := s.now), ok));
    }
  }

  lemma PauseAllSafe(s: State, order: seq<Hash>, refusing: set<Hash>)
    requires IdleSafe(s)
    ensures IdleSafe(PauseAll(s, order, refusing))
    decreases |order|
  {
    if order != [] {
      var h, ok := order[0], order[0] !in refusing;
      if h in s.engines && !Active(s, h) {
        IdlePauseSafe(s, h, IdlePaused(s.engines[h], ok));
      }
      PauseAllSafe(PauseIfIdle(s, h, ok), order[1..], refusing);
    }
  }

  lemma EnginesSafe(s: State, engines: map<Hash, Engine>)
    requires IdleSafe(s)
    requires forall h :: h in engines && engines[h].idlePaused ==> IsIdle(s, h)
    ensures IdleSafe(s.(engines := engines))
  {
    SameTablesSafe(s, s.(engines := engines));
  }

  lemma ReadersSafe(s: State, hash: Hash, n: nat)
    requires IdleSafe(s)
    ensures IdleSafe(SetReaders(s, hash, n))
  {
    EnginesSafe(s, SetReaders(s, hash, n).engines);
  }

  lemma AddSafe(s: State, hash: Hash, n: nat)
    requires IdleSafe(s)
    ensures IdleSafe(AddEngine(s, hash, n))
  {
    EnginesSafe(s, AddEngine(s, hash, n).engines);
  }

  lemma ResolveSafe(s: State, hash: Hash, n: nat)
    requires IdleSafe(s)
    ensures IdleSafe(ResolveMetadata(s, hash, n))
  {
    EnginesSafe(s, ResolveMetadata(s, hash, n).engines);
  }

  lemma RemovalsSafe(s: State, hash: Hash)
    requires IdleSafe(s)
    ensures IdleSafe(RemoveEngine(s, hash)) && IdleSafe(RemoveInactive(s))
  {
    EnginesSafe(s, RemoveEngine(s, hash).engines);
    EnginesSafe(s, RemoveInactive(s).engines);
  }

  /** One step keeps the policy off active torrents exactly when it is no refused wake-up. */
  lemma StepSafeIffResumed(s: State, step: Step)
    requires IdleSafe(s) && Enabled(s, step)
    ensures IdleSafe(Next(s, step)) <==> !ResumeRefused(s, step)
  {
    match step
    case StartStream(h, f, ok1, ok2) => StartIffResumed(s, h, f, ok1, ok2);
    case Select(h, f, ok) => SelectIffResumed(s, h, f, ok);
    case Refresh(h, f, ok1, ok2) => RefreshIffResumed(s, h, f, ok1, ok2);
    case RefreshKnown(h, f, ok1, ok2) => PollSafe(s, h, f, ok1, ok2);
    case RunCleanup(id) => CleanupSafe(s, id);
    case RunPause(id, ok) => PauseSafe(s, id, ok);
    case SweepExpired(keys) => SweepLeasesSafe(s, keys);
    case SweepIdle(hashes, refusing) => PauseAllSafe(s, hashes, refusing);
    case EndStream(h, f) => StreamEndSafe(s, h, f);
    case EndPlayback(h, f) => EndHlsSafe(s, h, f);
    case Readers(h, n) => ReadersSafe(s, h, n);
    case Add(h, n) => AddSafe(s, h, n);
    case Resolve(h, n) => ResolveSafe(s, h, n);
    case Remove(h) => RemovalsSafe(s, h);
    case SweepInactive => RemovalsSafe(s, "");
    case Seed(b) => SameTablesSafe(s, SetSeeding(s, b));
    case RunResume(refusing) => SameTablesSafe(s, ResumeAfterSeeding(s, refusing));
    case Tick(d) => SameTablesSafe(s, Later(s, d));
  }

  /**
    In every reachable state, if no wake-up was refused, a torrent the idle policy holds
    paused has no live stream, no active lease and no selection.
  */
  lemma {:induction false} IdleNeverHoldsActive(states: seq<State>, steps: seq<Step>, n: nat)
    requires Run(states, steps) && n <= |steps|
    requires forall i :: 0 <= i < n ==> !ResumeRefused(states[i], steps[i])
    ensures IdleSafe(states[n])
  {
    if n > 0 {
      IdleNeverHoldsActive(states, steps, n - 1);
      StepSafeIffResumed(states[n - 1], steps[n - 1]);
    }
  }
}
