/** The active file, the selections and the kept files: how each comes about and exactly how long it lasts. */
module LifecycleFiles {
  import opened Wrappers
  import opened Lifecycle
  import opened LifecycleProofs
  import opened LifecycleTheorems
  import opened LifecycleRelease
  import opened LifecycleLeases

  /* ---- Releases and activations ---- */

  /** The step lets go of a file nobody plays: its expired lease is swept, or a cleanup runs that is not outdated. */
  ghost predicate Releases(s: State, step: Step, k: Key) {
    match step
    case SweepExpired(_) => k in s.leases && !InForce(s, k) && !Streamed(s, k)
    case RunCleanup(id) =>
      && id in s.cleanups && (s.cleanups[id].hash, s.cleanups[id].file) == k
      && !InForce(s, k) && !Streamed(s, k)
      && (k.0 in s.selections && s.selections[k.0].file == k.1 ==>
            s.cleanups[id].generation == Some(s.selections[k.0].generation))
    case _ => false
  }

  /** The step activates a file. */
  predicate Plays(s: State, step: Step, k: Key) {
    match step
    case StartStream(h, f, _, _) => (h, f) == k
    case Select(h, f, _) => (h, f) == k && Several(s, h)
    case Refresh(h, f, _, _) => (h, f) == k && h in s.engines
    case RefreshKnown(h, f, _, _) => (h, f) == k && h in s.engines && InForce(s, k)
    case _ => false
  }

  predicate PlaysNothing(s: State, step: Step) {
    match step
    case StartStream(_, _, _, _) => false
    case Select(h, _, _) => !Several(s, h)
    case Refresh(h, _, _, _) => h !in s.engines
    case RefreshKnown(h, f, _, _) => h !in s.engines || !InForce(s, (h, f))
    case _ => true
  }

  /* ---- The active file ---- */

  /** The active file of a selected torrent is the selected one. */
  predicate ActiveIsSelected(s: State) {
    s.activeFile.Some? && s.activeFile.value.0 in s.selections ==>
      s.selections[s.activeFile.value.0].file == s.activeFile.value.1
  }

  lemma ReleaseActive(s: State, k: Key, fallback: nat)
    requires ActiveIsSelected(s)
    ensures var t := ReleaseFile(s, k.0, k.1, fallback);
      && t.activeFile == (if s.activeFile == Some(k) then None else s.activeFile)
      && ActiveIsSelected(t) && t.fileStreams == s.fileStreams
  {
  }

  lemma {:induction false} ExpireKeysActive(s: State, order: seq<Key>)
    requires ActiveIsSelected(s)
    ensures ExpireKeys(s, order).activeFile ==
            if s.activeFile.Some? && s.activeFile.value in order && !Streamed(s, s.activeFile.value) then None
            else s.activeFile
    decreases |order|
  {
    if order != [] {
      ReleaseActive(s, order[0], 0);
      ExpireKeysActive(ExpireKey(s, order[0]), order[1..]);
    }
  }

  lemma SweepActive(s: State, keys: seq<Key>)
    requires ActiveIsSelected(s) && Enabled(s, SweepExpired(keys))
    ensures SweepLeases(s, keys).activeFile ==
            if s.activeFile.Some? && Releases(s, SweepExpired(keys), s.activeFile.value) then None else s.activeFile
  {
    ExpireKeysActive(s.(leases := s.leases - ExpiredLeases(s)), keys);
    if s.activeFile.Some? {
      var k := s.activeFile.value;
      assert k in keys <==> k in ExpiredLeases(s);
    }
  }

  lemma CleanupReleasesIff(s: State, id: nat, k: Key)
    requires id in s.cleanups
    ensures Releases(s, RunCleanup(id), k) <==>
            (s.cleanups[id].hash, s.cleanups[id].file) == k && !CleanupSkips(s, s.cleanups[id])
  {
  }

  lemma CleanupActive(s: State, id: nat)
    requires ActiveIsSelected(s) && id in s.cleanups
    ensures FireCleanup(s, id).activeFile ==
            if s.activeFile.Some? && Releases(s, RunCleanup(id), s.activeFile.value) then None else s.activeFile
  {
    var c := s.cleanups[id];
    if s.activeFile.Some? {
      CleanupReleasesIff(s, id, s.activeFile.value);
    }
    if !CleanupSkips(s, c) {
      ReleaseActive(s.(cleanups := s.cleanups - {id}), (c.hash, c.file), c.generation.GetOr(0));
    }
  }

  lemma {:induction false} PauseAllActive(s: State, order: seq<Hash>, refusing: set<Hash>)
    ensures PauseAll(s, order, refusing).activeFile == s.activeFile
    decreases |order|
  {
    if order != [] {
      PauseAllActive(PauseIfIdle(s, order[0], order[0] !in refusing), order[1..], refusing);
    }
  }

  lemma ActivationActive(s: State, h: Hash, f: nat, keep: bool, ok1: bool, ok2: bool)
    ensures ActivateFile(s, h, f, keep, ok1, ok2).activeFile == Some((h, f))
  {
  }

  lemma RefreshActive(s: State, h: Hash, f: nat, ok1: bool, ok2: bool)
    ensures RefreshHls(s, h, f, ok1, ok2).activeFile == if h in s.engines then Some((h, f)) else s.activeFile
  {
    var s1 := s.(leases := s.leases[(h, f) := Lease(s.now, s.now + HLS_PLAYBACK_LEASE_TTL)]);
    ActivationActive(s1, h, f, true, ok1, ok2);
  }

  /** A step makes the file active that it plays; otherwise the active file stays until it is let go. */
  lemma StepActive(s: State, step: Step)
    requires Inv(s) && Enabled(s, step)
    ensures var t := Next(s, step);
      && (forall k :: Plays(s, step, k) ==> t.activeFile == Some(k))
      && (PlaysNothing(s, step) ==>
            t.activeFile ==
            if s.activeFile.Some? && Releases(s, step, s.activeFile.value) then None else s.activeFile)
  {
    if s.activeFile.Some? {
      assert TorrentInv(s, s.activeFile.value.0);
    }
    match step
    case StartStream(h, f, ok1, ok2) => ActivationActive(s, h, f, false, ok1, ok2);
    case Refresh(h, f, ok1, ok2) => RefreshActive(s, h, f, ok1, ok2);
    case RefreshKnown(h, f, ok1, ok2) => RefreshActive(s, h, f, ok1, ok2);
    case RunCleanup(id) => CleanupActive(s, id);
    case SweepExpired(keys) => SweepActive(s, keys);
    case SweepIdle(hashes, refusing) => PauseAllActive(s, hashes, refusing);
    case _ =>
  }

  lemma PlaysSomethingOrNothing(s: State, step: Step)
    ensures PlaysNothing(s, step) <==> forall k :: !Plays(s, step, k)
  {
    if !PlaysNothing(s, step) {
      assert Plays(s, step, (step.hash, step.file));
    }
  }

  /** The file was activated at `j`; since then nothing has been activated and nothing has let go of it. */
  ghost predicate PlayedSince(states: seq<State>, steps: seq<Step>, j: int, n: int, k: Key)
    requires 0 <= j < n <= |steps| < |states|
  {
    && Plays(states[j], steps[j], k)
    && forall m :: j < m < n ==> PlaysNothing(states[m], steps[m]) && !Releases(states[m], steps[m], k)
  }

  ghost predicate Played(states: seq<State>, steps: seq<Step>, n: int, k: Key)
    requires 0 <= n <= |steps| < |states|
  {
    exists j :: 0 <= j < n && PlayedSince(states, steps, j, n, k)
  }

  lemma PlayedOnward(states: seq<State>, steps: seq<Step>, m: nat, k: Key)
    requires m < |steps| < |states|
    ensures var s, step := states[m], steps[m];
      Played(states, steps, m + 1, k) <==>
      Plays(s, step, k) || (Played(states, steps, m, k) && PlaysNothing(s, step) && !Releases(s, step, k))
  {
    var n := m + 1;
    forall j | 0 <= j < m
      ensures PlayedSince(states, steps, j, n, k) <==>
              PlayedSince(states, steps, j, m, k) && PlaysNothing(states[m], steps[m])
              && !Releases(states[m], steps[m], k)
    {
    }
    assert PlayedSince(states, steps, m, n, k) <==> Plays(states[m], steps[m], k);
    if Played(states, steps, m, k) && PlaysNothing(states[m], steps[m]) && !Releases(states[m], steps[m], k) {
      var j :| 0 <= j < m && PlayedSince(states, steps, j, m, k);
      assert PlayedSince(states, steps, j, n, k);
    }
  }

  /** Over every run the active file is the one activated last, exactly until something lets go of it. */
  lemma {:induction false} ActiveFileIff(states: seq<State>, steps: seq<Step>, n: nat, k: Key)
    requires Run(states, steps) && NoSelectedRemoved(states, steps) && n <= |steps|
    ensures states[n].activeFile == Some(k) <==> Played(states, steps, n, k)
  {
    if n > 0 {
      var m := n - 1;
      RunKeeps(states, steps, m);
      StepActive(states[m], steps[m]);
      PlaysSomethingOrNothing(states[m], steps[m]);
      ActiveFileIff(states, steps, m, k);
      PlayedOnward(states, steps, m, k);
    }
  }

  /* ---- Selections ---- */

  /** The step selects a file of a torrent with several. */
  predicate Selects(s: State, step: Step, h: Hash) {
    Several(s, h) &&
    match step
    case StartStream(g, _, _, _) => g == h
    case Select(g, _, _) => g == h
    case Refresh(g, _, _, _) => g == h
    case RefreshKnown(g, f, _, _) => g == h && InForce(s, (g, f))
    case _ => false
  }

  predicate SameSelection(s: State, t: State, h: Hash) {
    (h in t.selections <==> h in s.selections) && (h in s.selections ==> t.selections[h] == s.selections[h])
  }

  /** The file is selected under a new generation; or nothing changes about the torrent. */
  predicate SelectedNow(s: State, t: State, g: Hash, f: nat, h: Hash) {
    if g == h && Several(s, h) then h in t.selections && t.selections[h] == Selection(f, s.generation + 1, s.now)
    else SameSelection(s, t, h)
  }

  lemma SelectFileSelects(s: State, g: Hash, f: nat, e: Engine, h: Hash)
    requires Several(s, g)
    ensures SelectedNow(s, SelectFile(s, g, f, e), g, f, h)
  {
  }

  lemma ActivationSelects(s: State, g: Hash, f: nat, keep: bool, ok1: bool, ok2: bool, h: Hash)
    ensures SelectedNow(s, ActivateFile(s, g, f, keep, ok1, ok2), g, f, h)
  {
    if Multifile(s, g) {
      SelectFileSelects(s, g, f, Resumed(Resumed(s.engines[g].(lastAccessed := s.now), ok1), ok2), h);
    }
  }

  lemma SelectionSelects(s: State, g: Hash, f: nat, ok: bool, h: Hash)
    ensures SelectedNow(s, ActivateMultifile(s, g, f, ok), g, f, h)
  {
    if Multifile(s, g) {
      SelectFileSelects(s, g, f, Resumed(s.engines[g].(lastAccessed := s.now), ok), h);
    }
  }

  lemma RefreshSelects(s: State, g: Hash, f: nat, ok1: bool, ok2: bool, h: Hash)
    ensures SelectedNow(s, RefreshHls(s, g, f, ok1, ok2), g, f, h)
  {
    var s1 := s.(leases := s.leases[(g, f) := Lease(s.now, s.now + HLS_PLAYBACK_LEASE_TTL)]);
    if g in s.engines {
      ActivationSelects(s1, g, f, true, ok1, ok2, h);
      assert RefreshHls(s, g, f, ok1, ok2) == ActivateFile(s1, g, f, true, ok1, ok2);
    } else {
      assert RefreshHls(s, g, f, ok1, ok2) == s1;
    }
  }

  lemma SweepSelection(s: State, keys: seq<Key>, h: Hash)
    requires Enabled(s, SweepExpired(keys))
    ensures h in SweepLeases(s, keys).selections <==>
              h in s.selections && !Releases(s, SweepExpired(keys), (h, s.selections[h].file))
    ensures h in SweepLeases(s, keys).selections ==> SweepLeases(s, keys).selections[h] == s.selections[h]
  {
    ExpireKeysTables(s.(leases := s.leases - ExpiredLeases(s)), keys);
    if h in s.selections {
      SweepClearsIff(s, keys, h);
    }
  }

  lemma CleanupSelection(s: State, id: nat, h: Hash)
    requires id in s.cleanups
    ensures h in FireCleanup(s, id).selections <==>
              h in s.selections && !Releases(s, RunCleanup(id), (h, s.selections[h].file))
    ensures h in FireCleanup(s, id).selections ==> FireCleanup(s, id).selections[h] == s.selections[h]
  {
    CleanupTables(s, id);
    if h in s.selections {
      CleanupClearsIff(s, id, h);
    }
  }

  ghost predicate SelectionAfter(s: State, step: Step, t: State, h: Hash) {
    if Selects(s, step, h) then
      h in t.selections && t.selections[h] == Selection(step.file, s.generation + 1, s.now)
    else
      && (h in t.selections <==> h in s.selections && !Releases(s, step, (h, s.selections[h].file)))
      && (h in t.selections ==> t.selections[h] == s.selections[h])
  }

  lemma PollSelects(s: State, g: Hash, f: nat, ok1: bool, ok2: bool, h: Hash)
    ensures SelectionAfter(s, RefreshKnown(g, f, ok1, ok2), RefreshExisting(s, g, f, ok1, ok2), h)
  {
    if InForce(s, (g, f)) {
      RefreshSelects(s, g, f, ok1, ok2, h);
    }
  }

  /** A step selects the file it is about; otherwise a selection stays until its file is let go. */
  lemma StepSelection(s: State, step: Step, h: Hash)
    requires Enabled(s, step)
    ensures SelectionAfter(s, step, Next(s, step), h)
  {
    match step
    case StartStream(g, f, ok1, ok2) => ActivationSelects(s, g, f, false, ok1, ok2, h);
    case Select(g, f, ok) => SelectionSelects(s, g, f, ok, h);
    case Refresh(g, f, ok1, ok2) => RefreshSelects(s, g, f, ok1, ok2, h);
    case RefreshKnown(g, f, ok1, ok2) => PollSelects(s, g, f, ok1, ok2, h);
    case RunCleanup(id) => CleanupSelection(s, id, h);
    case SweepExpired(keys) => SweepSelection(s, keys, h);
    case _ => OtherStepsSelection(s, step);
  }

  lemma OtherStepsSelection(s: State, step: Step)
    requires Enabled(s, step)
    requires step.EndStream? || step.EndPlayback? || Background(step)
    ensures Next(s, step).selections == s.selections
  {
    if Background(step) {
      BackgroundTables(s, step);
    }
  }

  /** The file was selected at `j`; since then no file of its torrent has been, and nothing has let go of it. */
  ghost predicate SelectedSince(states: seq<State>, steps: seq<Step>, j: int, n: int, k: Key)
    requires 0 <= j < n <= |steps| < |states|
  {
    && Selects(states[j], steps[j], k.0) && steps[j].file == k.1
    && forall m :: j < m < n ==> !Selects(states[m], steps[m], k.0) && !Releases(states[m], steps[m], k)
  }

  lemma SelectedOnward(states: seq<State>, steps: seq<Step>, j: int, m: int, k: Key)
    requires 0 <= j < m < |steps| < |states|
    ensures SelectedSince(states, steps, j, m + 1, k) <==>
            && SelectedSince(states, steps, j, m, k)
            && !Selects(states[m], steps[m], k.0) && !Releases(states[m], steps[m], k)
  {
  }

  /** What is selected was selected by a step under the generation and at the time it then got. */
  lemma {:induction false} SelectionHasOrigin(states: seq<State>, steps: seq<Step>, n: nat, h: Hash)
    requires Run(states, steps) && n <= |steps| && h in states[n].selections
    ensures exists j :: 0 <= j < n && SelectedSince(states, steps, j, n, (h, states[n].selections[h].file))
  {
    var m, k := n - 1, (h, states[n].selections[h].file);
    StepSelection(states[m], steps[m], h);
    if Selects(states[m], steps[m], h) {
      assert SelectedSince(states, steps, m, n, k);
    } else {
      SelectionHasOrigin(states, steps, m, h);
      var j :| 0 <= j < m && SelectedSince(states, steps, j, m, k);
      SelectedOnward(states, steps, j, m, k);
      assert SelectedSince(states, steps, j, n, k);
    }
  }

  lemma {:induction false} SelectionLasts(states: seq<State>, steps: seq<Step>, j: nat, n: nat, k: Key)
    requires Run(states, steps) && j < n <= |steps| && SelectedSince(states, steps, j, n, k)
    ensures k.0 in states[n].selections
    ensures states[n].selections[k.0] == Selection(k.1, states[j].generation + 1, states[j].now)
  {
    var m := n - 1;
    StepSelection(states[m], steps[m], k.0);
    if j < m {
      SelectedOnward(states, steps, j, m, k);
      SelectionLasts(states, steps, j, m, k);
    }
  }

  /** Over every run a file is selected exactly if it was the last of its torrent to be, and was not let go since. */
  lemma SelectedIff(states: seq<State>, steps: seq<Step>, n: nat, k: Key)
    requires Run(states, steps) && n <= |steps|
    ensures k.0 in states[n].selections && states[n].selections[k.0].file == k.1 <==>
            exists j :: 0 <= j < n && SelectedSince(states, steps, j, n, k)
  {
    if k.0 in states[n].selections && states[n].selections[k.0].file == k.1 {
      SelectionHasOrigin(states, steps, n, k.0);
    }
    forall j | 0 <= j < n && SelectedSince(states, steps, j, n, k)
      ensures k.0 in states[n].selections && states[n].selections[k.0].file == k.1
    {
      SelectionLasts(states, steps, j, n, k);
    }
  }

  /* ---- Files kept downloading ---- */

  /** The step keeps the file of a torrent that has no other. */
  predicate KeepsFile(s: State, step: Step, k: Key) {
    k.0 in s.engines && !Several(s, k.0) && Renews(s, step, k)
  }

  ghost predicate LetsGo(s: State, step: Step, k: Key) {
    !Several(s, k.0) && Releases(s, step, k)
  }

  predicate IsKept(s: State, k: Key) {
    k.0 in s.engines && k.1 in s.engines[k.0].kept
  }

  /** Of the files of an engine that was there and still is, the kept ones are the same. */
  predicate SameKept(s: State, t: State, k: Key) {
    k.0 in t.engines ==> (IsKept(t, k) <==> IsKept(s, k))
  }

  lemma SelectFileKept(s: State, h: Hash, f: nat, e: Engine, k: Key)
    requires h in s.engines && e.kept == s.engines[h].kept
    ensures SameKept(s, SelectFile(s, h, f, e), k)
  {
  }

  lemma SingleKept(s: State, h: Hash, f: nat, keep: bool, ok: bool, k: Key)
    ensures var t := ActivateSingle(s, h, f, keep, ok);
      if keep && (h, f) == k && h in s.engines then IsKept(t, k) else SameKept(s, t, k)
  {
  }

  lemma ActivationKept(s: State, h: Hash, f: nat, keep: bool, ok1: bool, ok2: bool, k: Key)
    ensures var t := ActivateFile(s, h, f, keep, ok1, ok2);
      if keep && (h, f) == k && h in s.engines && !Several(s, h) then IsKept(t, k) else SameKept(s, t, k)
  {
    if Multifile(s, h) {
      SelectFileKept(s, h, f, Resumed(Resumed(s.engines[h].(lastAccessed := s.now), ok1), ok2), k);
    } else {
      SingleKept(s, h, f, keep, ok1, k);
      assert ActivateFile(s, h, f, keep, ok1, ok2) == ActivateSingle(s, h, f, keep, ok1);
    }
  }

  lemma SelectionKept(s: State, h: Hash, f: nat, ok: bool, k: Key)
    ensures SameKept(s, ActivateMultifile(s, h, f, ok), k)
  {
    if Multifile(s, h) {
      SelectFileKept(s, h, f, Resumed(s.engines[h].(lastAccessed := s.now), ok), k);
    }
  }

  lemma RefreshKept(s: State, h: Hash, f: nat, ok1: bool, ok2: bool, k: Key)
    ensures var t := RefreshHls(s, h, f, ok1, ok2);
      if (h, f) == k && h in s.engines && !Several(s, h) then IsKept(t, k) else SameKept(s, t, k)
  {
    var s1 := s.(leases := s.leases[(h, f) := Lease(s.now, s.now + HLS_PLAYBACK_LEASE_TTL)]);
    if h in s.engines {
      ActivationKept(s1, h, f, true, ok1, ok2, k);
      assert RefreshHls(s, h, f, ok1, ok2) == ActivateFile(s1, h, f, true, ok1, ok2);
    } else {
      assert RefreshHls(s, h, f, ok1, ok2) == s1;
    }
  }

  lemma ReleaseKept(s: State, g: Key, fallback: nat, k: Key)
    ensures var t := ReleaseFile(s, g.0, g.1, fallback);
      && (IsKept(t, k) <==> IsKept(s, k) && !(g == k && !Several(s, k.0)))
      && t.fileStreams == s.fileStreams && (Several(t, k.0) <==> Several(s, k.0))
      && t.engines.Keys == s.engines.Keys
  {
  }

  lemma {:induction false} ExpireKeysKept(s: State, order: seq<Key>, k: Key)
    ensures IsKept(ExpireKeys(s, order), k) <==>
            IsKept(s, k) && !(k in order && !Streamed(s, k) && !Several(s, k.0))
    decreases |order|
  {
    if order != [] {
      ReleaseKept(s, order[0], 0, k);
      ExpireKeysKept(ExpireKey(s, order[0]), order[1..], k);
    }
  }

  lemma SweepKept(s: State, keys: seq<Key>, k: Key)
    requires Enabled(s, SweepExpired(keys))
    ensures IsKept(SweepLeases(s, keys), k) <==> IsKept(s, k) && !LetsGo(s, SweepExpired(keys), k)
  {
    ExpireKeysKept(s.(leases := s.leases - ExpiredLeases(s)), keys, k);
    assert k in keys <==> k in ExpiredLeases(s);
  }

  lemma CleanupKept(s: State, id: nat, k: Key)
    requires id in s.cleanups
    ensures IsKept(FireCleanup(s, id), k) <==> IsKept(s, k) && !LetsGo(s, RunCleanup(id), k)
  {
    var c := s.cleanups[id];
    CleanupReleasesIff(s, id, k);
    if !CleanupSkips(s, c) {
      ReleaseKept(s.(cleanups := s.cleanups - {id}), (c.hash, c.file), c.generation.GetOr(0), k);
    }
  }

  lemma {:induction false} PauseAllKept(s: State, order: seq<Hash>, refusing: set<Hash>, k: Key)
    ensures IsKept(PauseAll(s, order, refusing), k) <==> IsKept(s, k)
    decreases |order|
  {
    if order != [] {
      PauseAllKept(PauseIfIdle(s, order[0], order[0] !in refusing), order[1..], refusing, k);
    }
  }

  lemma OtherStepsKept(s: State, step: Step, k: Key)
    requires Enabled(s, step)
    requires step.EndStream? || step.EndPlayback? || step.RunPause? || step.SweepInactive? || step.Seed?
          || step.RunResume? || step.Readers? || step.Add? || step.Resolve? || step.Remove? || step.Tick?
    ensures SameKept(s, Next(s, step), k)
  {
  }

  /** A file is kept if the step asks for it, or it was and is not let go. */
  ghost predicate KeptAfter(s: State, step: Step, t: State, k: Key) {
    k.0 in t.engines ==> (IsKept(t, k) <==> KeepsFile(s, step, k) || (IsKept(s, k) && !LetsGo(s, step, k)))
  }

  lemma PollKept(s: State, h: Hash, f: nat, ok1: bool, ok2: bool, k: Key)
    ensures KeptAfter(s, RefreshKnown(h, f, ok1, ok2), RefreshExisting(s, h, f, ok1, ok2), k)
  {
    if InForce(s, (h, f)) {
      RefreshKept(s, h, f, ok1, ok2, k);
    }
  }

  lemma StepKept(s: State, step: Step, k: Key)
    requires Enabled(s, step)
    ensures KeptAfter(s, step, Next(s, step), k)
  {
    match step
    case StartStream(h, f, ok1, ok2) => ActivationKept(s, h, f, false, ok1, ok2, k);
    case Select(h, f, ok) => SelectionKept(s, h, f, ok, k);
    case Refresh(h, f, ok1, ok2) => RefreshKept(s, h, f, ok1, ok2, k);
    case RefreshKnown(h, f, ok1, ok2) => PollKept(s, h, f, ok1, ok2, k);
    case RunCleanup(id) => CleanupKept(s, id, k);
    case SweepExpired(keys) => SweepKept(s, keys, k);
    case SweepIdle(hashes, refusing) => PauseAllKept(s, hashes, refusing, k);
    case _ => OtherStepsKept(s, step, k);
  }

  /** The file was asked for at `j`; since then its engine has been there and nothing has let go of it. */
  ghost predicate KeptSince(states: seq<State>, steps: seq<Step>, j: int, n: int, k: Key)
    requires 0 <= j < n <= |steps| < |states|
  {
    && KeepsFile(states[j], steps[j], k)
    && forall m :: j < m < n ==> k.0 in states[m].engines && !LetsGo(states[m], steps[m], k)
  }

  lemma KeptOnward(states: seq<State>, steps: seq<Step>, j: int, m: int, k: Key)
    requires 0 <= j < m < |steps| < |states|
    ensures KeptSince(states, steps, j, m + 1, k) <==>
            KeptSince(states, steps, j, m, k) && k.0 in states[m].engines && !LetsGo(states[m], steps[m], k)
  {
  }

  lemma {:induction false} KeptHasOrigin(states: seq<State>, steps: seq<Step>, n: nat, k: Key)
    requires Run(states, steps) && n <= |steps| && IsKept(states[n], k)
    ensures exists j :: 0 <= j < n && KeptSince(states, steps, j, n, k)
  {
    var m := n - 1;
    StepKept(states[m], steps[m], k);
    if KeepsFile(states[m], steps[m], k) {
      assert KeptSince(states, steps, m, n, k);
    } else {
      KeptHasOrigin(states, steps, m, k);
      var j :| 0 <= j < m && KeptSince(states, steps, j, m, k);
      KeptOnward(states, steps, j, m, k);
      assert KeptSince(states, steps, j, n, k);
    }
  }

  lemma {:induction false} KeptLasts(states: seq<State>, steps: seq<Step>, j: nat, n: nat, k: Key)
    requires Run(states, steps) && j < n <= |steps| && KeptSince(states, steps, j, n, k) && k.0 in states[n].engines
    ensures IsKept(states[n], k)
  {
    var m := n - 1;
    StepKept(states[m], steps[m], k);
    if j < m {
      KeptOnward(states, steps, j, m, k);
      KeptLasts(states, steps, j, m, k);
    }
  }

  /**
    Over every run the backend is asked to keep the file of a single-file torrent exactly if a
    refresh asked for it, and since then nothing has let go of it nor removed its engine.
  */
  lemma KeptIff(states: seq<State>, steps: seq<Step>, n: nat, k: Key)
    requires Run(states, steps) && n <= |steps| && k.0 in states[n].engines
    ensures IsKept(states[n], k) <==> exists j :: 0 <= j < n && KeptSince(states, steps, j, n, k)
  {
    if IsKept(states[n], k) {
      KeptHasOrigin(states, steps, n, k);
    }
    forall j | 0 <= j < n && KeptSince(states, steps, j, n, k)
      ensures IsKept(states[n], k)
    {
      KeptLasts(states, steps, j, n, k);
    }
  }

  /* ---- What the backend is told when a selection ends ---- */

  lemma {:induction false} ExpireKeysPlan(s: State, order: seq<Key>, k: Key)
    requires Several(s, k.0) && !Streamed(s, k) && (forall g :: g in order && g.0 == k.0 ==> g == k)
    requires k.0 in s.selections ==> s.selections[k.0].file == k.1
    ensures k.0 in ExpireKeys(s, order).engines
    ensures ExpireKeys(s, order).engines[k.0].plan ==
            if k in order then Some(Plan(None, 0)) else s.engines[k.0].plan
    decreases |order|
  {
    if order != [] {
      ReleasePlan(s, order[0], k);
      ExpireKeysPlan(ExpireKey(s, order[0]), order[1..], k);
    }
  }

  lemma ReleasePlan(s: State, g: Key, k: Key)
    requires Several(s, k.0) && (g.0 == k.0 ==> g == k) && !Streamed(s, k)
    requires k.0 in s.selections ==> s.selections[k.0].file == k.1
    ensures var t := ExpireKey(s, g);
      && Several(t, k.0) && t.fileStreams == s.fileStreams
      && (k.0 in t.selections ==> k.0 in s.selections && t.selections[k.0] == s.selections[k.0])
      && t.engines[k.0].plan == if g == k then Some(Plan(None, 0)) else s.engines[k.0].plan
  {
  }

  /** When a selection ends the backend is told that no file is wanted, under the generation that ended. */
  lemma EndedSelectionIsTold(s: State, step: Step, h: Hash)
    requires Inv(s) && Enabled(s, step) && h in s.selections && Releases(s, step, (h, s.selections[h].file))
    ensures var t := Next(s, step);
      && h !in t.selections && h in t.engines
      && t.engines[h].plan == Some(Plan(None, if step.RunCleanup? then s.selections[h].generation else 0))
  {
    assert TorrentInv(s, h);
    StepSelection(s, step, h);
    if step.SweepExpired? {
      var k := (h, s.selections[h].file);
      assert k in step.keys by {
        assert k in ExpiredLeases(s);
      }
      forall g | g in step.keys && g.0 == h
        ensures g == k
      {
        assert g in ExpiredLeases(s) && (h, g.1) == g;
      }
      ExpireKeysPlan(s.(leases := s.leases - ExpiredLeases(s)), step.keys, k);
    }
  }
}
