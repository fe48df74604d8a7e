/**
  The playback lifecycle of enginefs/src/lib.rs as a transition system.

  A state holds every table the engine keeps behind its locks, the engines with the
  backend effects the lifecycle depends on, and the detached tasks that still have to
  run.  Each public call, each task and each action of the periodic sweep is one
  function from states to states; `Next` collects them and `Run` strings them together.

  Torrents are handled by a backend that leaves playback to this layer.  Every backend
  call that can fail and whose failure is observed carries its outcome as a parameter.
*/
module Lifecycle {
  import opened Wrappers

  /** An info hash, already in lower case. */
  type Hash = string
  type Key = (Hash, nat)

  const INACTIVE_TORRENT_REMOVE_TIMEOUT: nat := 300
  const INACTIVE_TORRENT_PAUSE_GRACE: nat := 15
  const HLS_PLAYBACK_LEASE_TTL: nat := 300
  const FILE_CLEANUP_DELAY: nat := 5

  datatype Lease = Lease(lastSeen: nat, expiresAt: nat)

  datatype Selection = Selection(file: nat, generation: nat, lastSeen: nat)

  /** The part of a priority plan the lifecycle decides. */
  datatype Plan = Plan(activeFile: Option<nat>, generation: nat)

  /**
    An engine together with what its backend handle was last told.  `paused` is the
    backend's paused bit, `plan` the last priority plan sent, `kept` the files a
    single-file torrent was asked to keep downloading.
  */
  datatype Engine = Engine(
    fileCount: nat,
    lastAccessed: nat,
    readers: nat,
    idlePaused: bool,
    paused: bool,
    plan: Option<Plan>,
    kept: set<nat>)

  /** A detached file cleanup with the generation it captured when it was scheduled. */
  datatype Cleanup = Cleanup(hash: Hash, file: nat, generation: Option<nat>, due: nat)

  /** A detached idle pause. */
  datatype Pause = Pause(hash: Hash, due: nat)

  /**
    The tables, the engines and the tasks.  Detached tasks are kept under the number of the
    call that spawned them; `spawned` is the next such number.
  */
  datatype State = State(
    now: nat,
    engines: map<Hash, Engine>,
    streams: map<Hash, nat>,
    fileStreams: map<Key, nat>,
    activeFile: Option<Key>,
    leases: map<Key, Lease>,
    selections: map<Hash, Selection>,
    generation: nat,
    seeding: bool,
    spawned: nat,
    cleanups: map<nat, Cleanup>,
    pauses: map<nat, Pause>,
    resumes: nat)

  /* ---- Reading the tables ---- */

  predicate LeaseIsActive(lease: Lease, now: nat) {
    lease.expiresAt > now
  }

  function Count<K(==)>(m: map<K, nat>, k: K): nat {
    if k in m then m[k] else 0
  }

  predicate FileActive(s: State, hash: Hash) {
    exists k :: k in s.fileStreams && k.0 == hash && s.fileStreams[k] > 0
  }

  predicate PlaybackActive(s: State, hash: Hash) {
    exists k :: k in s.leases && k.0 == hash && LeaseIsActive(s.leases[k], s.now)
  }

  /** What the idle policy calls activity on a torrent, open readers aside. */
  predicate Active(s: State, hash: Hash) {
    || Count(s.streams, hash) > 0
    || FileActive(s, hash)
    || PlaybackActive(s, hash)
    || hash in s.selections
  }

  /** A magnet has no files until its info dictionary has been fetched. */
  predicate HasMetadata(e: Engine) {
    e.fileCount > 0
  }

  function NewEngine(fileCount: nat, now: nat): Engine {
    Engine(fileCount, now, 0, false, false, None, {})
  }

  /* ---- Small updates ---- */

  function Touched(engines: map<Hash, Engine>, hash: Hash, now: nat): map<Hash, Engine> {
    if hash in engines then engines[hash := engines[hash].(lastAccessed := now)] else engines
  }

  function Touch(s: State, hash: Hash): State {
    s.(engines := Touched(s.engines, hash, s.now))
  }

  function WithEngine(s: State, hash: Hash, e: Engine): State {
    s.(engines := s.engines[hash := e])
  }

  function Resumed(e: Engine, ok: bool): Engine {
    if ok then e.(paused := false, idlePaused := false) else e
  }

  /** The idle flag is raised first and taken back when the backend refuses to pause. */
  function IdlePaused(e: Engine, ok: bool): Engine {
    if !e.idlePaused && ok then e.(paused := true, idlePaused := true) else e
  }

  /** The entries of other torrents and of this file. */
  function OnlyFile<T>(m: map<Key, T>, hash: Hash, file: nat): map<Key, T> {
    map k | k in m && (k.0 != hash || k.1 == file) :: m[k]
  }

  function Decremented<K(==)>(m: map<K, nat>, k: K): map<K, nat> {
    if Count(m, k) <= 1 then m - {k} else m[k := m[k] - 1]
  }

  /** `reconcile_multifile_engine` for an engine with several files. */
  function Reconciled(e: Engine, selection: Option<Selection>, fallback: nat): Engine {
    match selection
    case Some(sel) => e.(plan := Some(Plan(Some(sel.file), sel.generation)))
    case None => e.(plan := Some(Plan(None, fallback)))
  }

  /* ---- Activation ---- */

  predicate Multifile(s: State, hash: Hash) {
    hash in s.engines && s.engines[hash].fileCount > 1
  }

  /** Makes `file` the one wanted file of a torrent whose resumed engine is `e`. */
  function SelectFile(s: State, hash: Hash, file: nat, e: Engine): State {
    var sel := Selection(file, s.generation + 1, s.now);
    s.(engines := s.engines[hash := Reconciled(e, Some(sel), 0)],
       selections := s.selections[hash := sel],
       generation := s.generation + 1,
       leases := OnlyFile(s.leases, hash, file),
       fileStreams := OnlyFile(s.fileStreams, hash, file),
       activeFile := Some((hash, file)))
  }

  function ActivateMultifile(s: State, hash: Hash, file: nat, ok: bool): State {
    if Multifile(s, hash) then SelectFile(s, hash, file, Resumed(s.engines[hash].(lastAccessed := s.now), ok))
    else Touch(s, hash)
  }

  /** Activation of a file, when its torrent turns out to have no other files. */
  function ActivateSingle(s: State, hash: Hash, file: nat, keep: bool, ok: bool): State {
    s.(engines := if hash in s.engines
                  then s.engines[hash := Kept(Resumed(s.engines[hash].(lastAccessed := s.now), ok), keep, file)]
                  else s.engines,
       activeFile := Some((hash, file)))
  }

  function Kept(e: Engine, keep: bool, file: nat): Engine {
    if keep then e.(kept := e.kept + {file}) else e
  }

  function ActivateFile(s: State, hash: Hash, file: nat, keep: bool, ok1: bool, ok2: bool): State {
    if Multifile(s, hash)
    then SelectFile(s, hash, file, Resumed(Resumed(s.engines[hash].(lastAccessed := s.now), ok1), ok2))
    else ActivateSingle(s, hash, file, keep, ok1)
  }

  function StreamStart(s: State, hash: Hash, file: nat, ok1: bool, ok2: bool): State {
    var s1 := ActivateFile(s, hash, file, false, ok1, ok2);
    s1.(streams := s1.streams[hash := Count(s1.streams, hash) + 1],
        fileStreams := s1.fileStreams[(hash, file) := Count(s1.fileStreams, (hash, file)) + 1])
  }

  function RefreshHls(s: State, hash: Hash, file: nat, ok1: bool, ok2: bool): State {
    var s1 := s.(leases := s.leases[(hash, file) := Lease(s.now, s.now + HLS_PLAYBACK_LEASE_TTL)]);
    if hash in s1.engines then ActivateFile(s1, hash, file, true, ok1, ok2) else s1
  }

  /** A progress poll renews a lease that is still active; an expired one is dropped. */
  function RefreshExisting(s: State, hash: Hash, file: nat, ok1: bool, ok2: bool): State {
    var k := (hash, file);
    if k in s.leases && LeaseIsActive(s.leases[k], s.now) then RefreshHls(s, hash, file, ok1, ok2)
    else Touch(s.(leases := s.leases - {k}), hash)
  }

  /* ---- Ending playback ---- */

  /** A cleanup of `file`, capturing the generation of its selection if it has one. */
  function CleanupFor(selections: map<Hash, Selection>, now: nat, hash: Hash, file: nat): Cleanup {
    var generation := if hash in selections && selections[hash].file == file
                      then Some(selections[hash].generation) else None;
    Cleanup(hash, file, generation, now + FILE_CLEANUP_DELAY)
  }

  /** The cleanup that the end of a lease or of the last stream of a file schedules. */
  function EndCleanup(s: State, hash: Hash, file: nat): Cleanup {
    CleanupFor(s.selections, s.now, hash, file)
  }

  /** A detached task joins those that wait to run. */
  function SpawnedIf<T>(spawn: bool, tasks: map<nat, T>, id: nat, task: T): map<nat, T> {
    if spawn then tasks[id := task] else tasks
  }

  function EndPause(s: State, hash: Hash): Pause {
    Pause(hash, s.now + INACTIVE_TORRENT_PAUSE_GRACE)
  }

  function EndHls(s: State, hash: Hash, file: nat): State {
    var k := (hash, file);
    s.(leases := s.leases - {k},
       engines := Touched(s.engines, hash, s.now),
       spawned := s.spawned + 1,
       cleanups := SpawnedIf(k in s.leases, s.cleanups, s.spawned, EndCleanup(s, hash, file)),
       pauses := SpawnedIf(k in s.leases, s.pauses, s.spawned, EndPause(s, hash)))
  }

  function StreamEnd(s: State, hash: Hash, file: nat): State {
    var streams := Decremented(s.streams, hash);
    var fileStreams := Decremented(s.fileStreams, (hash, file));
    var fileDone := (hash, file) !in fileStreams;
    s.(streams := streams,
       fileStreams := fileStreams,
       engines := Touched(s.engines, hash, s.now),
       spawned := s.spawned + 1,
       pauses := SpawnedIf(fileDone && hash !in streams, s.pauses, s.spawned, EndPause(s, hash)),
       cleanups := SpawnedIf(fileDone, s.cleanups, s.spawned, EndCleanup(s, hash, file)))
  }

  /* ---- Delayed tasks ---- */

  /** The file stops being the active one; the surviving selection takes its place. */
  function Deactivated(activeFile: Option<Key>, hash: Hash, file: nat,
                       selection: Option<Selection>): Option<Key>
  {
    if activeFile == Some((hash, file))
    then (match selection case Some(sel) => Some((hash, sel.file)) case None => None)
    else activeFile
  }

  /** Reconcile a multi-file torrent, clear the file of a single-file one. */
  function Released(e: Engine, file: nat, selection: Option<Selection>, fallback: nat): Engine {
    if e.fileCount > 1 then Reconciled(e, selection, fallback)
    else e.(kept := e.kept - {file})
  }

  /**
    What both the delayed cleanup and the lease expiry do with a file nobody uses any
    more, once they have settled which selection survives.
  */
  function ReleaseFile(s: State, hash: Hash, file: nat, fallback: nat): State {
    var drop := hash in s.selections && s.selections[hash].file == file;
    var selections := if drop then s.selections - {hash} else s.selections;
    var survivor := if hash in selections then Some(selections[hash]) else None;
    s.(selections := selections,
       activeFile := Deactivated(s.activeFile, hash, file, survivor),
       engines := if hash in s.engines
                  then s.engines[hash := Released(s.engines[hash], file, survivor, fallback)]
                  else s.engines)
  }

  /** Something plays the file again, or a newer selection of it has taken over. */
  predicate CleanupSkips(s: State, c: Cleanup) {
    var k := (c.hash, c.file);
    || Count(s.fileStreams, k) > 0
    || (k in s.leases && LeaseIsActive(s.leases[k], s.now))
    || (c.hash in s.selections && s.selections[c.hash].file == c.file
        && c.generation != Some(s.selections[c.hash].generation))
  }

  function FireCleanup(s: State, id: nat): State
    requires id in s.cleanups
  {
    var c := s.cleanups[id];
    var s1 := s.(cleanups := s.cleanups - {id});
    if CleanupSkips(s, c) then s1 else ReleaseFile(s1, c.hash, c.file, c.generation.GetOr(0))
  }

  /** The torrent is idle in the eyes of the policy: known, unused, and with metadata. */
  predicate MayPause(s: State, hash: Hash) {
    !Active(s, hash) && hash in s.engines && s.engines[hash].readers == 0 && HasMetadata(s.engines[hash])
  }

  function FirePause(s: State, id: nat, ok: bool): State
    requires id in s.pauses
  {
    var hash := s.pauses[id].hash;
    s.(pauses := s.pauses - {id},
       engines := if !s.seeding && MayPause(s, hash)
                  then s.engines[hash := IdlePaused(s.engines[hash].(lastAccessed := s.now), ok)]
                  else s.engines)
  }

  /* ---- The periodic sweep ---- */

  function ExpiredLeases(s: State): set<Key> {
    set k | k in s.leases && !LeaseIsActive(s.leases[k], s.now)
  }

  function ExpireKey(s: State, k: Key): State {
    if Count(s.fileStreams, k) > 0 then s else ReleaseFile(s, k.0, k.1, 0)
  }

  function ExpireKeys(s: State, order: seq<Key>): State
    decreases |order|
  {
    if order == [] then s else ExpireKeys(ExpireKey(s, order[0]), order[1..])
  }

  /** All expired leases are dropped first; their files are then released one by one. */
  function SweepLeases(s: State, order: seq<Key>): State {
    ExpireKeys(s.(leases := s.leases - ExpiredLeases(s)), order)
  }

  predicate Removable(s: State, hash: Hash)
    requires hash in s.engines
  {
    && s.now - s.engines[hash].lastAccessed > INACTIVE_TORRENT_REMOVE_TIMEOUT
    && s.engines[hash].readers == 0
    && !Active(s, hash)
    && !(s.activeFile.Some? && s.activeFile.value.0 == hash)
  }

  function RemoveInactive(s: State): State {
    s.(engines := map h | h in s.engines && !Removable(s, h) :: s.engines[h])
  }

  function PauseIfIdle(s: State, hash: Hash, ok: bool): State {
    s.(engines := if MayPause(s, hash) then s.engines[hash := IdlePaused(s.engines[hash], ok)] else s.engines)
  }

  /** The pause pass of the sweep visits the engines in any order. */
  function PauseAll(s: State, order: seq<Hash>, refusing: set<Hash>): State
    decreases |order|
  {
    if order == [] then s
    else PauseAll(PauseIfIdle(s, order[0], order[0] !in refusing), order[1..], refusing)
  }

  function SweepPauses(s: State, order: seq<Hash>, refusing: set<Hash>): State {
    if s.seeding then s else PauseAll(s, order, refusing)
  }

  /* ---- Seeding, readers, registry, time ---- */

  /** Every idle torrent is paused, except those whose backend refuses. */
  function PausedIdle(s: State, refusing: set<Hash>): State {
    s.(engines := map h | h in s.engines ::
         if MayPause(s, h) then IdlePaused(s.engines[h], h !in refusing) else s.engines[h])
  }

  function SetSeeding(s: State, enabled: bool): State {
    s.(seeding := enabled, resumes := if enabled then s.resumes + 1 else s.resumes)
  }

  function ResumeAfterSeeding(s: State, refusing: set<Hash>): State {
    s.(resumes := if s.resumes > 0 then s.resumes - 1 else 0,
       engines := map h | h in s.engines ::
         if s.engines[h].idlePaused then Resumed(s.engines[h], h !in refusing) else s.engines[h])
  }

  function SetReaders(s: State, hash: Hash, readers: nat): State {
    s.(engines := if hash in s.engines then s.engines[hash := s.engines[hash].(readers := readers)] else s.engines)
  }

  function AddEngine(s: State, hash: Hash, fileCount: nat): State {
    s.(engines := if hash in s.engines then Touched(s.engines, hash, s.now)
                  else s.engines[hash := NewEngine(fileCount, s.now)])
  }

  function ResolveMetadata(s: State, hash: Hash, fileCount: nat): State {
    s.(engines := if hash in s.engines && !HasMetadata(s.engines[hash])
                  then s.engines[hash := s.engines[hash].(fileCount := fileCount)]
                  else s.engines)
  }

  function Later(s: State, seconds: nat): State {
    s.(now := s.now + seconds)
  }

  function RemoveEngine(s: State, hash: Hash): State {
    s.(engines := s.engines - {hash})
  }

  /* ---- Steps and runs ---- */

  datatype Step =
    | StartStream(hash: Hash, file: nat, ok1: bool, ok2: bool)
    | EndStream(hash: Hash, file: nat)
    | Select(hash: Hash, file: nat, ok2: bool)
    | Refresh(hash: Hash, file: nat, ok1: bool, ok2: bool)
    | RefreshKnown(hash: Hash, file: nat, ok1: bool, ok2: bool)
    | EndPlayback(hash: Hash, file: nat)
    | RunCleanup(task: nat)
    | RunPause(task: nat, ok: bool)
    | SweepExpired(keys: seq<Key>)
    | SweepInactive
    | SweepIdle(hashes: seq<Hash>, refusing: set<Hash>)
    | Seed(enabled: bool)
    | RunResume(refusing: set<Hash>)
    | Readers(hash: Hash, readers: nat)
    | Add(hash: Hash, fileCount: nat)
    | Resolve(hash: Hash, fileCount: nat)
    | Remove(hash: Hash)
    | Tick(seconds: nat)

  predicate Enabled(s: State, step: Step) {
    match step
    case RunCleanup(id) => id in s.cleanups && s.cleanups[id].due <= s.now
    case RunPause(id, _) => id in s.pauses && s.pauses[id].due <= s.now
    case SweepExpired(keys) => (set k | k in keys) == ExpiredLeases(s)
    case SweepIdle(hashes, _) => (set h | h in hashes) == s.engines.Keys
    case RunResume(_) => s.resumes > 0
    case _ => true
  }

  function Next(s: State, step: Step): State
    requires Enabled(s, step)
  {
    match step
    case StartStream(h, f, ok1, ok2) => StreamStart(s, h, f, ok1, ok2)
    case EndStream(h, f) => StreamEnd(s, h, f)
    case Select(h, f, ok) => ActivateMultifile(s, h, f, ok)
    case Refresh(h, f, ok1, ok2) => RefreshHls(s, h, f, ok1, ok2)
    case RefreshKnown(h, f, ok1, ok2) => RefreshExisting(s, h, f, ok1, ok2)
    case EndPlayback(h, f) => EndHls(s, h, f)
    case RunCleanup(id) => FireCleanup(s, id)
    case RunPause(id, ok) => FirePause(s, id, ok)
    case SweepExpired(keys) => SweepLeases(s, keys)
    case SweepInactive => RemoveInactive(s)
    case SweepIdle(hashes, refusing) => SweepPauses(s, hashes, refusing)
    case Seed(enabled) => SetSeeding(s, enabled)
    case RunResume(refusing) => ResumeAfterSeeding(s, refusing)
    case Readers(h, n) => SetReaders(s, h, n)
    case Add(h, n) => AddEngine(s, h, n)
    case Resolve(h, n) => ResolveMetadata(s, h, n)
    case Remove(h) => RemoveEngine(s, h)
    case Tick(d) => Later(s, d)
  }

  /** A freshly built engine: restored handles, empty tables, seeding on. */
  predicate Initial(s: State) {
    && s.streams == map[] && s.fileStreams == map[] && s.leases == map[] && s.selections == map[]
    && s.activeFile == None && s.generation == 0 && s.seeding && s.resumes == 0
    && s.spawned == 0 && s.cleanups == map[] && s.pauses == map[]
    && forall h :: h in s.engines ==> s.engines[h] == NewEngine(s.engines[h].fileCount, s.now)
  }

  /** `states` and `steps` are a run: each state follows from the one before. */
  ghost predicate Run(states: seq<State>, steps: seq<Step>) {
    && |states| == |steps| + 1
    && Initial(states[0])
    && forall i :: 0 <= i < |steps| ==>
         Enabled(states[i], steps[i]) && states[i + 1] == Next(states[i], steps[i])
  }
}
