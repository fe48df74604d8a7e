/**
  The engine object of enginefs/src/lib.rs: its tables are fields, its calls and the bodies
  of its detached tasks are methods that update them in place.  Every method is proved to
  do to the tables exactly what the step it implements does in `Lifecycle`, where the runs
  of those steps are studied.

  The outcome of a backend call that may fail is a parameter of the method that makes it.
*/
module EngineFs {
  import opened Wrappers
  import opened Lifecycle
  import opened LifecycleIdle

  /** An activation marks its engine as used; having marked it before makes no difference. */
  lemma TouchThenActivate(s: State, hash: Hash, file: nat, keep: bool, ok1: bool, ok2: bool)
    ensures ActivateFile(Touch(s, hash), hash, file, keep, ok1, ok2) == ActivateFile(s, hash, file, keep, ok1, ok2)
  {
    var t := Touch(s, hash);
    if hash in s.engines {
      var e := Resumed(s.engines[hash].(lastAccessed := s.now), ok1);
      var planned := Reconciled(Resumed(e, ok2), Some(Selection(file, s.generation + 1, s.now)), 0);
      assert t.engines[hash := planned] == s.engines[hash := planned];
      assert t.engines[hash := Kept(e, keep, file)] == s.engines[hash := Kept(e, keep, file)];
    }
  }

  lemma TouchThenRefresh(s: State, hash: Hash, file: nat, ok1: bool, ok2: bool)
    requires hash in s.engines
    ensures var lease := Lease(s.now, s.now + HLS_PLAYBACK_LEASE_TTL);
      var t := Touch(s, hash).(leases := s.leases[(hash, file) := lease]);
      ActivateFile(t, hash, file, true, ok1, ok2) == RefreshHls(s, hash, file, ok1, ok2)
  {
    TouchThenActivate(s.(leases := s.leases[(hash, file) := Lease(s.now, s.now + HLS_PLAYBACK_LEASE_TTL)]),
                      hash, file, true, ok1, ok2);
  }

  /** Activation of a multi-file torrent: the engine is resumed, then the file is selected. */
  lemma ActivateThenSelect(s: State, hash: Hash, file: nat, keep: bool, ok1: bool, ok2: bool)
    requires Multifile(s, hash)
    ensures var e := Resumed(s.engines[hash].(lastAccessed := s.now), ok1);
      var s1 := s.(engines := s.engines[hash := e], activeFile := Some((hash, file)));
      ActivateMultifile(s1, hash, file, ok2) == ActivateFile(s, hash, file, keep, ok1, ok2)
  {
    var e := Resumed(s.engines[hash].(lastAccessed := s.now), ok1);
    var planned := Reconciled(Resumed(e, ok2), Some(Selection(file, s.generation + 1, s.now)), 0);
    assert s.engines[hash := e][hash := planned] == s.engines[hash := planned];
  }

  class EngineFS {
    var now: nat
    var engines: map<Hash, Engine>
    var activeStreams: map<Hash, nat>
    var activeFileStreams: map<Key, nat>
    var activeFile: Option<Key>
    var activePlaybackLeases: map<Key, Lease>
    var activeMultifileFiles: map<Hash, Selection>
    var priorityGeneration: nat
    var seedingEnabled: bool
    var spawned: nat
    var cleanups: map<nat, Cleanup>
    var pauses: map<nat, Pause>
    var resumes: nat

    ghost function View(): State
      reads this
    {
      State(now, engines, activeStreams, activeFileStreams, activeFile, activePlaybackLeases,
            activeMultifileFiles, priorityGeneration, seedingEnabled, spawned, cleanups, pauses, resumes)
    }

    constructor (restored: map<Hash, nat>, now: nat)
      ensures Initial(View()) && engines.Keys == restored.Keys
      ensures forall h :: h in restored ==> engines[h] == NewEngine(restored[h], now)
    {
      this.now := now;
      engines := map h | h in restored :: NewEngine(restored[h], now);
      activeStreams, activeFileStreams, activeFile := map[], map[], None;
      activePlaybackLeases, activeMultifileFiles := map[], map[];
      priorityGeneration, seedingEnabled := 0, true;
      spawned, cleanups, pauses, resumes := 0, map[], map[], 0;
    }

    method ActivateMultifileFile(hash: Hash, file: nat, resumeOk: bool)
      modifies this`engines, this`priorityGeneration, this`activeMultifileFiles, this`activePlaybackLeases
      modifies this`activeFileStreams, this`activeFile
      ensures View() == ActivateMultifile(old(View()), hash, file, resumeOk)
    {
      if hash !in engines || engines[hash].fileCount <= 1 {
        engines := Touched(engines, hash, now);
        return;
      }
      var e := engines[hash].(lastAccessed := now);
      priorityGeneration := priorityGeneration + 1;
      var generation := priorityGeneration;
      activeMultifileFiles := activeMultifileFiles[hash := Selection(file, generation, now)];
      activePlaybackLeases := OnlyFile(activePlaybackLeases, hash, file);
      activeFileStreams := OnlyFile(activeFileStreams, hash, file);
      activeFile := Some((hash, file));
      if resumeOk {
        e := e.(paused := false);
        e := e.(idlePaused := false);
      }
      assert e == Resumed(old(engines)[hash].(lastAccessed := now), resumeOk);
      engines := engines[hash := e.(plan := Some(Plan(Some(file), generation)))];
    }

    /** Wakes the engine and, if the torrent has no other files, keeps the file downloading. */
    method WakeEngine(hash: Hash, file: nat, keepFileDownloading: bool, resumeOk: bool) returns (isMultifile: bool)
      modifies this`engines
      ensures isMultifile <==> hash in old(engines) && old(engines)[hash].fileCount > 1
      ensures hash !in old(engines) ==> engines == old(engines)
      ensures hash in old(engines) ==>
                var e := Resumed(old(engines)[hash].(lastAccessed := now), resumeOk);
                engines == old(engines)[hash := if isMultifile then e else Kept(e, keepFileDownloading, file)]
    {
      isMultifile := false;
      engines := Touched(engines, hash, now);
      if hash in engines {
        var e := engines[hash];
        isMultifile := e.fileCount > 1;
        if resumeOk {
          e := e.(paused := false, idlePaused := false);
        }
        if keepFileDownloading && !isMultifile {
          e := e.(kept := e.kept + {file});
        }
        engines := engines[hash := e];
      }
    }

    method ActivateFileForPlayback(hash: Hash, file: nat, keepFileDownloading: bool, resumeOk: bool, resumeOk2: bool)
      modifies this`engines, this`priorityGeneration, this`activeMultifileFiles, this`activePlaybackLeases
      modifies this`activeFileStreams, this`activeFile
      ensures View() == ActivateFile(old(View()), hash, file, keepFileDownloading, resumeOk, resumeOk2)
    {
      ghost var before := View();
      var isMultifile := WakeEngine(hash, file, keepFileDownloading, resumeOk);
      activeFile := Some((hash, file));
      if isMultifile {
        ActivateThenSelect(before, hash, file, keepFileDownloading, resumeOk, resumeOk2);
        ActivateMultifileFile(hash, file, resumeOk2);
      }
    }

    method OnStreamStart(hash: Hash, file: nat, resumeOk: bool, resumeOk2: bool)
      modifies this
      ensures View() == StreamStart(old(View()), hash, file, resumeOk, resumeOk2)
    {
      ActivateFileForPlayback(hash, file, false, resumeOk, resumeOk2);
      activeStreams := activeStreams[hash := Count(activeStreams, hash) + 1];
      activeFileStreams := activeFileStreams[(hash, file) := Count(activeFileStreams, (hash, file)) + 1];
    }

    method ActivateMultifileFileForPlayback(hash: Hash, file: nat, resumeOk: bool)
      modifies this
      ensures View() == ActivateMultifile(old(View()), hash, file, resumeOk)
    {
      engines := Touched(engines, hash, now);
      ActivateMultifileFile(hash, file, resumeOk);
    }

    method RefreshHlsPlayback(hash: Hash, file: nat, resumeOk: bool, resumeOk2: bool)
      modifies this
      ensures View() == RefreshHls(old(View()), hash, file, resumeOk, resumeOk2)
    {
      if hash in engines {
        TouchThenRefresh(View(), hash, file, resumeOk, resumeOk2);
      }
      engines := Touched(engines, hash, now);
      activePlaybackLeases := activePlaybackLeases[(hash, file) := Lease(now, now + HLS_PLAYBACK_LEASE_TTL)];
      if hash in engines {
        ActivateFileForPlayback(hash, file, true, resumeOk, resumeOk2);
      }
    }

    /** A progress poll; tells whether it found an active lease to renew. */
    method RefreshExistingHlsPlayback(hash: Hash, file: nat, resumeOk: bool, resumeOk2: bool)
      returns (refreshed: bool)
      modifies this
      ensures View() == RefreshExisting(old(View()), hash, file, resumeOk, resumeOk2)
      ensures refreshed <==> old((hash, file) in activePlaybackLeases &&
                                 LeaseIsActive(activePlaybackLeases[(hash, file)], now))
    {
      var k := (hash, file);
      if hash in engines {
        TouchThenRefresh(View(), hash, file, resumeOk, resumeOk2);
      }
      engines := Touched(engines, hash, now);
      refreshed := false;
      if k in activePlaybackLeases {
        if LeaseIsActive(activePlaybackLeases[k], now) {
          activePlaybackLeases := activePlaybackLeases[k := Lease(now, now + HLS_PLAYBACK_LEASE_TTL)];
          refreshed := true;
        } else {
          activePlaybackLeases := activePlaybackLeases - {k};
        }
      } else {
        assert activePlaybackLeases - {k} == activePlaybackLeases;
      }
      if refreshed && hash in engines {
        ActivateFileForPlayback(hash, file, true, resumeOk, resumeOk2);
      }
    }

    method EndHlsPlayback(hash: Hash, file: nat)
      modifies this
      ensures View() == EndHls(old(View()), hash, file)
    {
      var removed := (hash, file) in activePlaybackLeases;
      activePlaybackLeases := activePlaybackLeases - {(hash, file)};
      engines := Touched(engines, hash, now);
      if removed {
        cleanups := cleanups[spawned := CleanupFor(activeMultifileFiles, now, hash, file)];
        pauses := pauses[spawned := Pause(hash, now + INACTIVE_TORRENT_PAUSE_GRACE)];
      }
      assert cleanups == SpawnedIf(removed, old(cleanups), spawned, EndCleanup(old(View()), hash, file));
      assert pauses == SpawnedIf(removed, old(pauses), spawned, EndPause(old(View()), hash));
      spawned := spawned + 1;
    }

    /** Takes a stream off both counters; a counter that reaches zero is dropped. */
    method DropStream(hash: Hash, file: nat) returns (hashStreamsRemaining: nat, fileStreamsRemaining: nat)
      modifies this`activeStreams, this`activeFileStreams
      ensures activeStreams == Decremented(old(activeStreams), hash)
      ensures activeFileStreams == Decremented(old(activeFileStreams), (hash, file))
      ensures hashStreamsRemaining == 0 <==> hash !in activeStreams
      ensures fileStreamsRemaining == 0 <==> (hash, file) !in activeFileStreams
    {
      hashStreamsRemaining := if Count(activeStreams, hash) > 0 then activeStreams[hash] - 1 else 0;
      if hashStreamsRemaining == 0 {
        activeStreams := activeStreams - {hash};
      } else {
        activeStreams := activeStreams[hash := hashStreamsRemaining];
      }
      var k := (hash, file);
      fileStreamsRemaining := if Count(activeFileStreams, k) > 0 then activeFileStreams[k] - 1 else 0;
      if fileStreamsRemaining == 0 {
        activeFileStreams := activeFileStreams - {k};
      } else {
        activeFileStreams := activeFileStreams[k := fileStreamsRemaining];
      }
    }

    method OnStreamEnd(hash: Hash, file: nat)
      modifies this
      ensures View() == StreamEnd(old(View()), hash, file)
    {
      var hashStreamsRemaining, fileStreamsRemaining := DropStream(hash, file);
      engines := Touched(engines, hash, now);
      if hashStreamsRemaining == 0 && fileStreamsRemaining == 0 {
        pauses := pauses[spawned := Pause(hash, now + INACTIVE_TORRENT_PAUSE_GRACE)];
      }
      if fileStreamsRemaining == 0 {
        cleanups := cleanups[spawned := CleanupFor(activeMultifileFiles, now, hash, file)];
      }
      ghost var fileDone := (hash, file) !in activeFileStreams;
      assert cleanups == SpawnedIf(fileDone, old(cleanups), spawned, EndCleanup(old(View()), hash, file));
      assert pauses == SpawnedIf(fileDone && hash !in activeStreams, old(pauses), spawned, EndPause(old(View()), hash));
      spawned := spawned + 1;
    }

    /** The tail shared by the delayed cleanup and the lease expiry. */
    method ReleaseUnusedFile(hash: Hash, file: nat, fallback: nat)
      modifies this
      ensures View() == ReleaseFile(old(View()), hash, file, fallback)
    {
      var activeSelection := None;
      if hash in activeMultifileFiles {
        if activeMultifileFiles[hash].file == file {
          activeMultifileFiles := activeMultifileFiles - {hash};
        } else {
          activeSelection := Some(activeMultifileFiles[hash]);
        }
      }
      if activeFile == Some((hash, file)) {
        activeFile := if activeSelection.Some? then Some((hash, activeSelection.value.file)) else None;
      }
      if hash in engines {
        var e := engines[hash];
        if e.fileCount > 1 {
          var plan := if activeSelection.Some?
            then Plan(Some(activeSelection.value.file), activeSelection.value.generation)
            else Plan(None, fallback);
          engines := engines[hash := e.(plan := Some(plan))];
        } else {
          engines := engines[hash := e.(kept := e.kept - {file})];
        }
      }
    }

    /** The body of a detached file cleanup, once its delay is over. */
    method RunFileCleanup(id: nat)
      requires id in cleanups && cleanups[id].due <= now
      modifies this
      ensures View() == FireCleanup(old(View()), id)
    {
      var c := cleanups[id];
      cleanups := cleanups - {id};
      var k := (c.hash, c.file);
      if Count(activeFileStreams, k) > 0 {
        return;
      }
      if k in activePlaybackLeases && LeaseIsActive(activePlaybackLeases[k], now) {
        return;
      }
      if c.hash in activeMultifileFiles {
        var selection := activeMultifileFiles[c.hash];
        if selection.file == c.file && c.generation != Some(selection.generation) {
          return;
        }
      }
      ReleaseUnusedFile(c.hash, c.file, c.generation.GetOr(0));
    }

    /** The idle policy on one engine that shows no activity. */
    method PauseIdle(hash: Hash, pauseOk: bool)
      requires hash in engines
      modifies this`engines
      ensures engines == old(engines)[hash := IdlePaused(old(engines)[hash], pauseOk)]
    {
      var e := engines[hash];
      if e.idlePaused {
        return;
      }
      engines := engines[hash := e.(idlePaused := true)];
      if pauseOk {
        engines := engines[hash := engines[hash].(paused := true)];
      } else {
        engines := engines[hash := engines[hash].(idlePaused := false)];
      }
    }

    /** No stream, no lease in force and no selection of the torrent. */
    method ShowsNoActivity(hash: Hash) returns (idle: bool)
      ensures idle <==> !Active(View(), hash)
    {
      var hashActive := Count(activeStreams, hash) > 0;
      var fileActive := exists k :: k in activeFileStreams && k.0 == hash && activeFileStreams[k] > 0;
      var playbackActive := exists k :: k in activePlaybackLeases && k.0 == hash &&
                                        LeaseIsActive(activePlaybackLeases[k], now);
      var multifileActive := hash in activeMultifileFiles;
      return !(hashActive || fileActive || playbackActive || multifileActive);
    }

    /** The body of a detached idle pause, once its grace period is over. */
    method RunTorrentPause(id: nat, pauseOk: bool)
      requires id in pauses && pauses[id].due <= now
      modifies this
      ensures View() == FirePause(old(View()), id, pauseOk)
    {
      var hash := pauses[id].hash;
      pauses := pauses - {id};
      if seedingEnabled {
        return;
      }
      var idle := ShowsNoActivity(hash);
      assert Active(View(), hash) <==> Active(old(View()), hash);
      if !idle || hash !in engines {
        return;
      }
      if engines[hash].readers > 0 || !HasMetadata(engines[hash]) {
        return;
      }
      engines := engines[hash := engines[hash].(lastAccessed := now)];
      PauseIdle(hash, pauseOk);
    }

    /** The expiry pass of the sweep; `order` is the order the table yielded the leases in. */
    method SweepExpiredLeases() returns (ghost order: seq<Key>)
      modifies this
      ensures Enabled(old(View()), SweepExpired(order))
      ensures View() == SweepLeases(old(View()), order)
    {
      var pending := set k | k in activePlaybackLeases && !LeaseIsActive(activePlaybackLeases[k], now);
      ghost var all := pending;
      var expired := [];
      while pending != {}
        invariant pending <= all
        invariant forall k :: k in expired <==> k in all && k !in pending
        decreases pending
      {
        var k :| k in pending;
        expired := expired + [k];
        pending := pending - {k};
      }
      order := expired;
      activePlaybackLeases := activePlaybackLeases - set k | k in expired;
      assert View() == old(View()).(leases := old(activePlaybackLeases) - ExpiredLeases(old(View())));
      ghost var dropped := View();
      var i := 0;
      while i < |expired|
        invariant 0 <= i <= |expired|
        invariant ExpireKeys(View(), expired[i..]) == ExpireKeys(dropped, expired)
      {
        var k := expired[i];
        assert expired[i..][0] == k && expired[i..][1..] == expired[i + 1..];
        if Count(activeFileStreams, k) == 0 {
          ReleaseUnusedFile(k.0, k.1, 0);
        }
        i := i + 1;
      }
    }

    /** The removal pass of the sweep. */
    method SweepInactiveEngines()
      modifies this
      ensures View() == RemoveInactive(old(View()))
    {
      var toRemove := {};
      var rest := engines.Keys;
      while rest != {}
        invariant rest <= engines.Keys
        invariant toRemove == set h | h in engines.Keys - rest && Removable(View(), h)
        invariant View() == old(View())
        decreases rest
      {
        var h :| h in rest;
        rest := rest - {h};
        if now - engines[h].lastAccessed > INACTIVE_TORRENT_REMOVE_TIMEOUT && engines[h].readers == 0 {
          var idle := ShowsNoActivity(h);
          if idle && !(activeFile.Some? && activeFile.value.0 == h) {
            toRemove := toRemove + {h};
          }
        }
      }
      engines := engines - toRemove;
    }

    /** The pause pass of the sweep; `order` is the order the registry yielded the engines in. */
    method SweepIdleEngines(refusing: set<Hash>) returns (ghost order: seq<Hash>)
      modifies this
      ensures Enabled(old(View()), SweepIdle(order, refusing))
      ensures View() == SweepPauses(old(View()), order, refusing)
      ensures View() == if old(seedingEnabled) then old(View()) else PausedIdle(old(View()), refusing)
    {
      var rest, hashes := engines.Keys, [];
      ghost var all := rest;
      while rest != {}
        invariant rest <= all
        invariant forall h :: h in hashes <==> h in all && h !in rest
        decreases rest
      {
        var h :| h in rest;
        hashes := hashes + [h];
        rest := rest - {h};
      }
      order := hashes;
      if seedingEnabled {
        return;
      }
      var i := 0;
      while i < |hashes|
        invariant 0 <= i <= |hashes|
        invariant PauseAll(View(), hashes[i..], refusing) == PauseAll(old(View()), hashes, refusing)
      {
        var h := hashes[i];
        assert hashes[i..][0] == h && hashes[i..][1..] == hashes[i + 1..];
        var idle := ShowsNoActivity(h);
        if h in engines && idle && engines[h].readers == 0 && HasMetadata(engines[h]) {
          PauseIdle(h, h !in refusing);
        }
        i := i + 1;
      }
      SweepPausesIdle(old(View()), hashes, refusing);
    }

    method SetSeedingEnabled(enabled: bool)
      modifies this
      ensures View() == SetSeeding(old(View()), enabled)
    {
      seedingEnabled := enabled;
      if enabled {
        resumes := resumes + 1;
      }
    }

    /** The detached task that resumes the torrents the idle policy had paused. */
    method RunResumeAll(refusing: set<Hash>)
      requires resumes > 0
      modifies this
      ensures View() == ResumeAfterSeeding(old(View()), refusing)
    {
      resumes := resumes - 1;
      var resumed := engines;
      var rest := engines.Keys;
      while rest != {}
        invariant rest <= engines.Keys == resumed.Keys
        invariant forall h :: h in resumed ==>
          resumed[h] == if h !in rest && engines[h].idlePaused then Resumed(engines[h], h !in refusing) else engines[h]
        decreases rest
      {
        var h :| h in rest;
        rest := rest - {h};
        var e := engines[h];
        if e.idlePaused {
          e := e.(idlePaused := false);
          if h !in refusing {
            e := e.(paused := false);
          } else {
            e := e.(idlePaused := true);
          }
          resumed := resumed[h := e];
        }
      }
      engines := resumed;
    }
  }
}
