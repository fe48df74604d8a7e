/**
  A stream start cut at its waits.

  `on_stream_start` activates the file, then waits for the lock of the torrent's counter, then
  for that of the file's counter.  Here the three parts are separate moves, and any other step
  can come between them.
*/
module StartRace {
  import opened Lifecycle
  import opened LifecycleIdle
  import opened LifecyclePauses

  /** A start that has activated its file; `counted` once the torrent's counter has risen. */
  datatype Pending = Pending(hash: Hash, file: nat, counted: bool)

  datatype System = System(state: State, starts: map<nat, Pending>)

  datatype Move =
    | Whole(step: Step)
    | Activate(id: nat, hash: Hash, file: nat, ok1: bool, ok2: bool)
    | CountTorrent(id: nat)
    | CountFile(id: nat)

  predicate Possible(x: System, m: Move) {
    match m
    case Whole(step) => !step.StartStream? && Enabled(x.state, step)
    case Activate(id, _, _, _, _) => id !in x.starts
    case CountTorrent(id) => id in x.starts && !x.starts[id].counted
    case CountFile(id) => id in x.starts && x.starts[id].counted
  }

  function OneMoreStream(s: State, h: Hash): State {
    s.(streams := s.streams[h := Count(s.streams, h) + 1])
  }

  function OneMoreOfFile(s: State, k: Key): State {
    s.(fileStreams := s.fileStreams[k := Count(s.fileStreams, k) + 1])
  }

  function Apply(x: System, m: Move): System
    requires Possible(x, m)
  {
    match m
    case Whole(step) => x.(state := Next(x.state, step))
    case Activate(id, h, f, ok1, ok2) =>
      System(ActivateFile(x.state, h, f, false, ok1, ok2), x.starts[id := Pending(h, f, false)])
    case CountTorrent(id) =>
      System(OneMoreStream(x.state, x.starts[id].hash), x.starts[id := x.starts[id].(counted := true)])
    case CountFile(id) =>
      System(OneMoreOfFile(x.state, (x.starts[id].hash, x.starts[id].file)), x.starts - {id})
  }

  /** With nothing in between, the three parts are the stream start as one step. */
  lemma PartsMakeAStart(x: System, id: nat, h: Hash, f: nat, ok1: bool, ok2: bool)
    requires id !in x.starts
    ensures Possible(x, Activate(id, h, f, ok1, ok2))
    ensures var y := Apply(x, Activate(id, h, f, ok1, ok2));
      && Possible(y, CountTorrent(id)) && Possible(Apply(y, CountTorrent(id)), CountFile(id))
      && Apply(Apply(y, CountTorrent(id)), CountFile(id)) == System(StreamStart(x.state, h, f, ok1, ok2), x.starts)
  {
    var s1 := ActivateFile(x.state, h, f, false, ok1, ok2);
    assert OneMoreOfFile(OneMoreStream(s1, h), (h, f)) == StreamStart(x.state, h, f, ok1, ok2);
    var pending := x.starts[id := Pending(h, f, false)];
    assert pending[id := Pending(h, f, true)] - {id} == x.starts;
  }

  /* ---- One move ---- */

  /** A wake-up is refused: by a whole call, or by an activation that leaves a selection behind. */
  predicate WakeRefused(x: System, m: Move) {
    match m
    case Whole(step) => ResumeRefused(x.state, step)
    case Activate(_, h, _, ok1, ok2) => Multifile(x.state, h) && IsIdle(x.state, h) && !ok1 && !ok2
    case CountTorrent(_) => false
    case CountFile(_) => false
  }

  /** A stream is counted of a torrent that the policy has paused. */
  predicate CountsPaused(x: System, m: Move) {
    match m
    case Whole(_) => false
    case Activate(_, _, _, _, _) => false
    case CountTorrent(id) => id in x.starts && IsIdle(x.state, x.starts[id].hash)
    case CountFile(id) => id in x.starts && IsIdle(x.state, x.starts[id].hash)
  }

  lemma ActivationSafeIff(s: State, h: Hash, f: nat, ok1: bool, ok2: bool)
    requires IdleSafe(s)
    ensures IdleSafe(ActivateFile(s, h, f, false, ok1, ok2)) <==>
              !(Multifile(s, h) && IsIdle(s, h) && !ok1 && !ok2)
  {
    var t := ActivateFile(s, h, f, false, ok1, ok2);
    forall g | g != h
      ensures IdleOk(t, g)
    {
      ActivationCalmer(s, h, f, false, ok1, ok2, g);
      assert IdleOk(s, g);
    }
    if Multifile(s, h) {
      ActivationWakes(s, h, f, false, ok1, ok2);
      assert h in t.selections;
      assert IdleOk(t, h) <==> !IsIdle(t, h);
    } else {
      SingleStaysSafe(s, h, f, ok1);
      assert t == ActivateSingle(s, h, f, false, ok1);
    }
  }

  lemma SingleStaysSafe(s: State, h: Hash, f: nat, ok: bool)
    requires IdleSafe(s)
    ensures IdleOk(ActivateSingle(s, h, f, false, ok), h)
  {
    SingleWakes(s, h, f, false, ok, h);
    assert IdleOk(s, h);
    assert Active(ActivateSingle(s, h, f, false, ok), h) <==> Active(s, h);
  }

  lemma CountSafeIff(s: State, h: Hash)
    requires IdleSafe(s)
    ensures IdleSafe(OneMoreStream(s, h)) <==> !IsIdle(s, h)
  {
    var t := OneMoreStream(s, h);
    forall g | g != h
      ensures IdleOk(t, g)
    {
      assert IdleOk(s, g) && (Active(t, g) <==> Active(s, g));
    }
    assert Count(t.streams, h) > 0 && Active(t, h);
    assert IdleOk(t, h) <==> !IsIdle(t, h);
  }

  lemma CountFileSafeIff(s: State, k: Key)
    requires IdleSafe(s)
    ensures IdleSafe(OneMoreOfFile(s, k)) <==> !IsIdle(s, k.0)
  {
    var t := OneMoreOfFile(s, k);
    forall g | g != k.0
      ensures IdleOk(t, g)
    {
      assert IdleOk(s, g);
      if FileActive(t, g) {
        var j :| j in t.fileStreams && j.0 == g && t.fileStreams[j] > 0;
        assert j in s.fileStreams;
      }
      assert Active(t, g) ==> Active(s, g);
    }
    assert k in t.fileStreams && t.fileStreams[k] > 0;
    assert Active(t, k.0);
    assert IdleOk(t, k.0) <==> !IsIdle(t, k.0);
  }

  /** A move keeps the policy off active torrents exactly if it is neither of the two. */
  lemma MoveSafeIff(x: System, m: Move)
    requires IdleSafe(x.state) && Possible(x, m)
    ensures IdleSafe(Apply(x, m).state) <==> !WakeRefused(x, m) && !CountsPaused(x, m)
  {
    match m
    case Whole(step) => StepSafeIffResumed(x.state, step);
    case Activate(_, h, f, ok1, ok2) => ActivationSafeIff(x.state, h, f, ok1, ok2);
    case CountTorrent(id) => CountSafeIff(x.state, x.starts[id].hash);
    case CountFile(id) => CountFileSafeIff(x.state, (x.starts[id].hash, x.starts[id].file));
  }

  /* ---- Runs ---- */

  ghost predicate Moves(xs: seq<System>, ms: seq<Move>) {
    && |xs| == |ms| + 1
    && IdleSafe(xs[0].state)
    && forall i :: 0 <= i < |ms| ==> Possible(xs[i], ms[i]) && xs[i + 1] == Apply(xs[i], ms[i])
  }

  /**
    Over every run of moves the policy holds no active torrent, if no wake-up is refused and no
    stream is counted of a torrent it has paused.
  */
  lemma {:induction false} SafeWhileAwake(xs: seq<System>, ms: seq<Move>, n: nat)
    requires Moves(xs, ms) && n <= |ms|
    requires forall i :: 0 <= i < n ==> !WakeRefused(xs[i], ms[i]) && !CountsPaused(xs[i], ms[i])
    ensures IdleSafe(xs[n].state)
  {
    if n > 0 {
      SafeWhileAwake(xs, ms, n - 1);
      MoveSafeIff(xs[n - 1], ms[n - 1]);
    }
  }

  /** The move is a pause task or a sweep that pauses the torrent. */
  ghost predicate PausesIn(x: System, m: Move, h: Hash) {
    m.Whole? && Pauses(x.state, m.step, h)
  }

  lemma MovePausesIff(x: System, m: Move, h: Hash)
    requires Possible(x, m)
    ensures IsIdle(Apply(x, m).state, h) ==> IsIdle(x.state, h) || PausesIn(x, m, h)
    ensures PausesIn(x, m, h) ==> IsIdle(Apply(x, m).state, h)
  {
    match m
    case Whole(step) => StepPausesOnly(x.state, step, h);
    case Activate(_, g, f, ok1, ok2) => ActivationWakesOnly(x.state, g, f, false, ok1, ok2, h);
    case _ =>
  }

  /** A torrent that was awake at `i` is paused at `k` exactly if a pause came between and has lasted since. */
  lemma {:induction false} PausedMeanwhileIff(xs: seq<System>, ms: seq<Move>, i: nat, k: nat, h: Hash)
    requires Moves(xs, ms) && i <= k <= |ms| && !IsIdle(xs[i].state, h)
    ensures IsIdle(xs[k].state, h) <==>
            exists j :: i <= j < k && PausesIn(xs[j], ms[j], h) && forall n :: j < n <= k ==> IsIdle(xs[n].state, h)
  {
    if i < k && IsIdle(xs[k].state, h) {
      MovePausesIff(xs[k - 1], ms[k - 1], h);
      if !PausesIn(xs[k - 1], ms[k - 1], h) {
        PausedMeanwhileIff(xs, ms, i, k - 1, h);
      }
    }
  }

  /** The torrent cannot be paused: it shows activity, is read, is still a bare magnet, or seeding is on. */
  ghost predicate Protected(s: State, h: Hash) {
    s.seeding || !MayPause(s, h)
  }

  /**
    A torrent that is protected from its activation on, such as one of several files while its
    selection stands or one with another stream or lease, is awake when its stream is counted.
  */
  lemma ProtectedIsCountedAwake(xs: seq<System>, ms: seq<Move>, i: nat, k: nat, h: Hash)
    requires Moves(xs, ms) && i <= k <= |ms| && !IsIdle(xs[i].state, h)
    requires forall j :: i <= j < k ==> Protected(xs[j].state, h)
    ensures !IsIdle(xs[k].state, h)
  {
    PausedMeanwhileIff(xs, ms, i, k, h);
  }

  lemma SelectionProtects(s: State, h: Hash)
    requires h in s.selections
    ensures Protected(s, h)
  {
  }

  /**
    A torrent of one file is protected by nothing: a pause that comes between activation and
    count holds it while it is being read, with every resume granted.
  */
  lemma SingleFileIsPausedInBetween(x: System, id: nat, task: nat, h: Hash)
    requires IdleSafe(x.state) && id !in x.starts && !x.state.seeding
    requires h in x.state.engines && x.state.engines[h].fileCount == 1 && x.state.engines[h].readers == 0
    requires !Active(x.state, h)
    requires task in x.state.pauses && x.state.pauses[task].hash == h && x.state.pauses[task].due <= x.state.now
    ensures Possible(x, Activate(id, h, 0, true, true))
    ensures var y := Apply(x, Activate(id, h, 0, true, true));
      && Possible(y, Whole(RunPause(task, true)))
      && var z := Apply(y, Whole(RunPause(task, true)));
      && Possible(z, CountTorrent(id)) && !WakeRefused(x, Activate(id, h, 0, true, true))
      && !IdleSafe(Apply(z, CountTorrent(id)).state)
  {
    var y := Apply(x, Activate(id, h, 0, true, true));
    assert Active(y.state, h) <==> Active(x.state, h);
    var z := Apply(y, Whole(RunPause(task, true)));
    ActivationSafeIff(x.state, h, 0, true, true);
    StepSafeIffResumed(y.state, RunPause(task, true));
    CountSafeIff(z.state, h);
  }
}
