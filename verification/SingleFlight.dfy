/**
  One probe per file at a time (`get_probe_result` in enginefs/src/engine.rs; `get_opensub_hash`
  follows the same protocol).  Callers share a once-cell through a table of probes in flight;
  a caller can be cancelled wherever it waits, also in the middle of the probe it runs.
*/
module SingleFlight {
  import opened Wrappers

  type Value = string
  datatype Result = Ok(value: Value) | Err(error: string)

  /** A once-cell: nobody is at it, a caller fills it, or it is filled for good. */
  datatype Status = Empty | Running(caller: nat) | Ready(result: Result)

  datatype Cell = Cell(file: nat, status: Status)

  /** What the callers share. A cell is known by the number of its allocation. */
  datatype Shared = Shared(
    cells: map<nat, Cell>,
    next: nat,
    inflight: map<nat, nat>,
    cache: map<nat, Value>)

  /** How far a caller has come. */
  datatype Stage =
    | Missed
    | Holding(cell: nat)
    | Initialising(cell: nat)
    | Answered(cell: nat, result: Result)
    | Leaving(result: Result)
    | Returned(result: Result)
    | Cancelled

  datatype Caller = Caller(file: nat, stage: Stage)

  /** `probes` remembers which results probes of which files have had. */
  datatype State = State(shared: Shared, callers: map<nat, Caller>, probes: set<(nat, Result)>)

  /* ---- The sections under a lock ---- */

  /** A cached value counts only when it is acceptable. */
  function Cached(sh: Shared, file: nat, accepts: Value -> bool): Option<Value> {
    if file in sh.cache && accepts(sh.cache[file]) then Some(sh.cache[file]) else None
  }

  /** The cell in flight for a file, a new one if there is none. */
  function Join(sh: Shared, file: nat): (Shared, nat) {
    if file in sh.inflight then (sh, sh.inflight[file])
    else
      (sh.(cells := sh.cells[sh.next := Cell(file, Empty)],
           next := sh.next + 1,
           inflight := sh.inflight[file := sh.next]),
       sh.next)
  }

  /** Takes the file's entry out, if it still is the caller's own cell. */
  function Leave(sh: Shared, file: nat, cell: nat): Shared {
    if file in sh.inflight && sh.inflight[file] == cell then sh.(inflight := sh.inflight - {file}) else sh
  }

  function Keep(sh: Shared, file: nat, result: Result, accepts: Value -> bool): Shared {
    if result.Ok? && accepts(result.value) then sh.(cache := sh.cache[file := result.value]) else sh
  }

  function SetCell(sh: Shared, cell: nat, status: Status): Shared
    requires cell in sh.cells
  {
    sh.(cells := sh.cells[cell := sh.cells[cell].(status := status)])
  }

  /* ---- The steps of callers ---- */

  datatype Step =
    | Call(id: nat, file: nat)
    | Enter(id: nat)
    | Begin(id: nat)
    | Complete(id: nat, result: Result)
    | Observe(id: nat)
    | Exit(id: nat)
    | Store(id: nat)
    | Cancel(id: nat)

  function Initial(): State {
    State(Shared(map[], 0, map[], map[]), map[], {})
  }

  predicate Enabled(s: State, step: Step) {
    if step.Call? then step.id !in s.callers
    else
      step.id in s.callers &&
      var stage := s.callers[step.id].stage;
      match step
      case Call(_, _) => true
      case Enter(_) => stage.Missed?
      case Begin(_) => stage.Holding? && stage.cell in s.shared.cells && s.shared.cells[stage.cell].status.Empty?
      case Complete(_, _) => stage.Initialising? && stage.cell in s.shared.cells
      case Observe(_) => stage.Holding? && stage.cell in s.shared.cells && s.shared.cells[stage.cell].status.Ready?
      case Exit(_) => stage.Answered?
      case Store(_) => stage.Leaving?
      case Cancel(_) =>
        !stage.Returned? && !stage.Cancelled? && (stage.Initialising? ==> stage.cell in s.shared.cells)
  }

  function At(s: State, id: nat, stage: Stage): map<nat, Caller>
    requires id in s.callers
  {
    s.callers[id := s.callers[id].(stage := stage)]
  }

  function Next(s: State, step: Step, accepts: Value -> bool): State
    requires Enabled(s, step)
  {
    match step
    case Call(id, file) =>
      var hit := Cached(s.shared, file, accepts);
      s.(callers := s.callers[id := Caller(file, if hit.Some? then Returned(Ok(hit.value)) else Missed)])
    case Enter(id) =>
      var (shared, cell) := Join(s.shared, s.callers[id].file);
      s.(shared := shared, callers := At(s, id, Holding(cell)))
    case Begin(id) =>
      var cell := s.callers[id].stage.cell;
      s.(shared := SetCell(s.shared, cell, Running(id)), callers := At(s, id, Initialising(cell)))
    case Complete(id, result) =>
      var cell := s.callers[id].stage.cell;
      State(SetCell(s.shared, cell, Ready(result)), At(s, id, Answered(cell, result)),
            s.probes + {(s.callers[id].file, result)})
    case Observe(id) =>
      var cell := s.callers[id].stage.cell;
      s.(callers := At(s, id, Answered(cell, s.shared.cells[cell].status.result)))
    case Exit(id) =>
      var stage := s.callers[id].stage;
      s.(shared := Leave(s.shared, s.callers[id].file, stage.cell), callers := At(s, id, Leaving(stage.result)))
    case Store(id) =>
      var result := s.callers[id].stage.result;
      s.(shared := Keep(s.shared, s.callers[id].file, result, accepts), callers := At(s, id, Returned(result)))
    case Cancel(id) =>
      var stage := s.callers[id].stage;
      s.(shared := if stage.Initialising? then SetCell(s.shared, stage.cell, Empty) else s.shared,
         callers := At(s, id, Cancelled))
  }

  /** The step, if it is enabled; one that is not does not happen. */
  function Attempt(s: State, step: Step, accepts: Value -> bool): State {
    if Enabled(s, step) then Next(s, step, accepts) else s
  }

  function Run(s: State, steps: seq<Step>, accepts: Value -> bool): State
    decreases steps
  {
    if steps == [] then s else Run(Attempt(s, steps[0], accepts), steps[1..], accepts)
  }

  /** A whole call that nobody interrupts, whose probe, if it runs one, comes to `outcome`. */
  function WholeCall(s: State, id: nat, file: nat, outcome: Result, accepts: Value -> bool): State {
    var s1 := Attempt(s, Call(id, file), accepts);
    var s2 := Attempt(s1, Enter(id), accepts);
    var s3 := Attempt(s2, Begin(id), accepts);
    var s4 := Attempt(s3, Complete(id, outcome), accepts);
    var s5 := Attempt(s4, Observe(id), accepts);
    var s6 := Attempt(s5, Exit(id), accepts);
    Attempt(s6, Store(id), accepts)
  }
}

module SingleFlightProofs {
  import opened SingleFlight

  /** The table names cells of its files, and cells are numbered from below. */
  predicate GoodTable(sh: Shared) {
    && (forall k :: k in sh.cells ==> k < sh.next)
    && forall f :: f in sh.inflight ==> sh.inflight[f] in sh.cells && sh.cells[sh.inflight[f]].file == f
  }

  /** Only a filled cell is ever out of the table. */
  predicate UnfilledIsInflight(sh: Shared) {
    forall k :: k in sh.cells && !sh.cells[k].status.Ready? ==>
                  sh.cells[k].file in sh.inflight && sh.inflight[sh.cells[k].file] == k
  }

  /** A caller's cell is of its own file, and what it was answered is what the cell holds. */
  predicate GoodCaller(s: State, id: nat)
    requires id in s.callers
  {
    var c := s.callers[id];
    && (c.stage.Holding? || c.stage.Initialising? || c.stage.Answered? ==>
          c.stage.cell in s.shared.cells && s.shared.cells[c.stage.cell].file == c.file)
    && (c.stage.Initialising? ==> s.shared.cells[c.stage.cell].status == Running(id))
    && (c.stage.Answered? ==> s.shared.cells[c.stage.cell].status == Ready(c.stage.result))
    && (c.stage.Leaving? || c.stage.Returned? ==> (c.file, c.stage.result) in s.probes)
  }

  predicate GoodCell(s: State, k: nat)
    requires k in s.shared.cells
  {
    var cell := s.shared.cells[k];
    && (cell.status.Running? ==>
          cell.status.caller in s.callers && s.callers[cell.status.caller].stage == Initialising(k))
    && (cell.status.Ready? ==> (cell.file, cell.status.result) in s.probes)
  }

  predicate GoodCache(s: State, accepts: Value -> bool) {
    forall f :: f in s.shared.cache ==> accepts(s.shared.cache[f]) && (f, Ok(s.shared.cache[f])) in s.probes
  }

  predicate Inv(s: State, accepts: Value -> bool) {
    && GoodTable(s.shared)
    && UnfilledIsInflight(s.shared)
    && (forall id :: id in s.callers ==> GoodCaller(s, id))
    && (forall k :: k in s.shared.cells ==> GoodCell(s, k))
    && GoodCache(s, accepts)
  }

  lemma TableKept(s: State, step: Step, accepts: Value -> bool)
    requires Inv(s, accepts) && Enabled(s, step)
    ensures GoodTable(Next(s, step, accepts).shared) && UnfilledIsInflight(Next(s, step, accepts).shared)
  {
    assert step.id in s.callers ==> GoodCaller(s, step.id);
  }

  lemma CallersKept(s: State, step: Step, accepts: Value -> bool)
    requires Inv(s, accepts) && Enabled(s, step)
    ensures forall id :: id in Next(s, step, accepts).callers ==> GoodCaller(Next(s, step, accepts), id)
  {
    assert step.id in s.callers ==> GoodCaller(s, step.id);
    forall id | id in Next(s, step, accepts).callers
      ensures GoodCaller(Next(s, step, accepts), id)
    {
      assert id in s.callers ==> GoodCaller(s, id);
    }
  }

  lemma CellsKept(s: State, step: Step, accepts: Value -> bool)
    requires Inv(s, accepts) && Enabled(s, step)
    ensures forall k :: k in Next(s, step, accepts).shared.cells ==> GoodCell(Next(s, step, accepts), k)
  {
    assert step.id in s.callers ==> GoodCaller(s, step.id);
    forall k | k in Next(s, step, accepts).shared.cells
      ensures GoodCell(Next(s, step, accepts), k)
    {
      assert k in s.shared.cells ==> GoodCell(s, k);
    }
  }

  lemma InvStep(s: State, step: Step, accepts: Value -> bool)
    requires Inv(s, accepts) && Enabled(s, step)
    ensures Inv(Next(s, step, accepts), accepts)
  {
    TableKept(s, step, accepts);
    CallersKept(s, step, accepts);
    CellsKept(s, step, accepts);
    assert step.id in s.callers ==> GoodCaller(s, step.id);
  }

  lemma {:induction false} InvRun(s: State, steps: seq<Step>, accepts: Value -> bool)
    requires Inv(s, accepts)
    ensures Inv(Run(s, steps, accepts), accepts)
    decreases steps
  {
    if steps != [] {
      if Enabled(s, steps[0]) {
        InvStep(s, steps[0], accepts);
      }
      InvRun(Attempt(s, steps[0], accepts), steps[1..], accepts);
    }
  }

  /* ---- Over every run ---- */

  predicate Probing(s: State, id: nat, file: nat) {
    id in s.callers && s.callers[id].file == file && s.callers[id].stage.Initialising?
  }

  /** In every interleaving, with callers cancelled anywhere, at most one probe of a file runs. */
  lemma OneProbePerFile(steps: seq<Step>, accepts: Value -> bool, id: nat, other: nat, file: nat)
    requires Probing(Run(Initial(), steps, accepts), id, file)
    requires Probing(Run(Initial(), steps, accepts), other, file)
    ensures id == other
  {
    InvRun(Initial(), steps, accepts);
    var s := Run(Initial(), steps, accepts);
    assert GoodCaller(s, id) && GoodCaller(s, other);
  }

  /**
    While a probe of a file runs or is still to be run, its cell stays in the table, so a caller
    that comes later joins it; what a leaving caller takes out is a cell whose probe is over.
  */
  lemma JoinsTheRunningProbe(steps: seq<Step>, accepts: Value -> bool, id: nat, file: nat)
    requires Probing(Run(Initial(), steps, accepts), id, file)
    ensures var s := Run(Initial(), steps, accepts);
            Join(s.shared, file) == (s.shared, s.callers[id].stage.cell)
  {
    InvRun(Initial(), steps, accepts);
    assert GoodCaller(Run(Initial(), steps, accepts), id);
  }

  /** A caller that leaves late takes no cell out of the table but its own, which is filled. */
  lemma LeavesOnlyItsOwnCell(steps: seq<Step>, accepts: Value -> bool, id: nat)
    requires Enabled(Run(Initial(), steps, accepts), Exit(id))
    ensures var s := Run(Initial(), steps, accepts);
            var after := Next(s, Exit(id), accepts);
            && (forall f :: f in s.shared.inflight &&
                              !(f in after.shared.inflight && after.shared.inflight[f] == s.shared.inflight[f]) ==>
                              f == s.callers[id].file && s.shared.inflight[f] == s.callers[id].stage.cell
                              && s.shared.inflight[f] in s.shared.cells
                              && s.shared.cells[s.shared.inflight[f]].status.Ready?)
            && forall f :: f in after.shared.inflight ==> f in s.shared.inflight
  {
    InvRun(Initial(), steps, accepts);
    assert GoodCaller(Run(Initial(), steps, accepts), id);
  }

  /** The cache holds only acceptable values, each the result of a probe of its file. */
  lemma CacheIsAcceptable(steps: seq<Step>, accepts: Value -> bool, file: nat)
    requires file in Run(Initial(), steps, accepts).shared.cache
    ensures var s := Run(Initial(), steps, accepts);
            accepts(s.shared.cache[file]) && (file, Ok(s.shared.cache[file])) in s.probes
  {
    InvRun(Initial(), steps, accepts);
  }

  /** What a caller returns is what some probe of its own file came to. */
  lemma AnswersComeFromProbes(steps: seq<Step>, accepts: Value -> bool, id: nat)
    requires var s := Run(Initial(), steps, accepts); id in s.callers && s.callers[id].stage.Returned?
    ensures var s := Run(Initial(), steps, accepts);
            (s.callers[id].file, s.callers[id].stage.result) in s.probes
  {
    InvRun(Initial(), steps, accepts);
    assert GoodCaller(Run(Initial(), steps, accepts), id);
  }

  /**
    Two callers that wait at a cell whose probe is not over wait at the same one, and callers
    answered from one cell have the same answer.
  */
  lemma WaitersShareTheAnswer(steps: seq<Step>, accepts: Value -> bool, id: nat, other: nat)
    requires var s := Run(Initial(), steps, accepts);
             && id in s.callers && other in s.callers && s.callers[id].file == s.callers[other].file
             && (s.callers[id].stage.Answered? || s.callers[id].stage.Holding?)
             && (s.callers[other].stage.Answered? || s.callers[other].stage.Holding?)
    ensures var s := Run(Initial(), steps, accepts);
            var a, b := s.callers[id].stage, s.callers[other].stage;
            && (a.Answered? && b.Answered? && a.cell == b.cell ==> a.result == b.result)
            && a.cell in s.shared.cells && b.cell in s.shared.cells
            && (!s.shared.cells[a.cell].status.Ready? && !s.shared.cells[b.cell].status.Ready? ==> a.cell == b.cell)
  {
    InvRun(Initial(), steps, accepts);
    var s := Run(Initial(), steps, accepts);
    assert GoodCaller(s, id) && GoodCaller(s, other);
  }

  lemma RunOne(s: State, step: Step, rest: seq<Step>, accepts: Value -> bool)
    ensures Run(s, [step] + rest, accepts) == Run(Attempt(s, step, accepts), rest, accepts)
  {
    assert ([step] + rest)[1..] == rest;
  }

  /** A whole call is a run of its seven steps, so all that holds of runs holds of it. */
  lemma WholeCallIsARun(s: State, id: nat, file: nat, outcome: Result, accepts: Value -> bool)
    ensures WholeCall(s, id, file, outcome, accepts) ==
            Run(s, [Call(id, file)] + ([Enter(id)] + ([Begin(id)] + ([Complete(id, outcome)] +
                   ([Observe(id)] + ([Exit(id)] + ([Store(id)] + [])))))), accepts)
  {
    var after6: seq<Step> := [Store(id)] + [];
    var after5 := [Exit(id)] + after6;
    var after4 := [Observe(id)] + after5;
    var after3 := [Complete(id, outcome)] + after4;
    var after2 := [Begin(id)] + after3;
    var s1 := Attempt(s, Call(id, file), accepts);
    var s2 := Attempt(s1, Enter(id), accepts);
    var s3 := Attempt(s2, Begin(id), accepts);
    var s4 := Attempt(s3, Complete(id, outcome), accepts);
    var s5 := Attempt(s4, Observe(id), accepts);
    RunOne(s, Call(id, file), [Enter(id)] + after2, accepts);
    RunOne(s1, Enter(id), after2, accepts);
    RunOne(s2, Begin(id), after3, accepts);
    RunOne(s3, Complete(id, outcome), after4, accepts);
    RunOne(s4, Observe(id), after5, accepts);
    RunOne(s5, Exit(id), after6, accepts);
    RunOne(Attempt(s5, Exit(id), accepts), Store(id), [], accepts);
  }

  /** What a once-cell holds after a caller has been at it alone, and the table with it. */
  function Filled(sh: Shared, cell: nat, outcome: Result): (Shared, Result)
    requires cell in sh.cells
  {
    match sh.cells[cell].status
    case Ready(result) => (sh, result)
    case Empty => (SetCell(sh, cell, Ready(outcome)), outcome)
    case Running(_) => (sh, outcome)
  }

  lemma JoinGivesACell(sh: Shared, file: nat)
    requires GoodTable(sh)
    ensures var (joined, cell) := Join(sh, file);
            cell in joined.cells && joined.inflight[file := cell] == joined.inflight
    ensures file in sh.inflight ==> Join(sh, file) == (sh, sh.inflight[file])
    ensures file !in sh.inflight ==> Join(sh, file).0.cells[Join(sh, file).1] == Cell(file, Empty)
  {
  }

  lemma HoldingToAnswered(s: State, id: nat, cell: nat, outcome: Result, accepts: Value -> bool)
    requires id in s.callers && s.callers[id].stage == Holding(cell) && cell in s.shared.cells
    requires !s.shared.cells[cell].status.Running?
    ensures var s3 := Attempt(s, Begin(id), accepts);
            var t := Attempt(Attempt(s3, Complete(id, outcome), accepts), Observe(id), accepts);
            var (shared, result) := Filled(s.shared, cell, outcome);
            t.shared == shared && t.callers == At(s, id, Answered(cell, result))
  {
  }

  lemma AnsweredToReturned(s: State, id: nat, cell: nat, result: Result, accepts: Value -> bool)
    requires id in s.callers && s.callers[id].stage == Answered(cell, result)
    ensures var t := Attempt(Attempt(s, Exit(id), accepts), Store(id), accepts);
            var file := s.callers[id].file;
            t.shared == Keep(Leave(s.shared, file, cell), file, result, accepts)
            && t.callers == At(s, id, Returned(result))
  {
  }

  /** The steps of a whole call, when it misses the cache, are the sections one after the other. */
  lemma WholeCallAfterMiss(s: State, id: nat, file: nat, outcome: Result, accepts: Value -> bool)
    requires GoodTable(s.shared) && id !in s.callers && Cached(s.shared, file, accepts).None?
    requires file in s.shared.inflight ==> !s.shared.cells[s.shared.inflight[file]].status.Running?
    ensures Join(s.shared, file).1 in Join(s.shared, file).0.cells
    ensures var t := WholeCall(s, id, file, outcome, accepts);
            var (joined, cell) := Join(s.shared, file);
            var (filled, result) := Filled(joined, cell, outcome);
            && t.shared == Keep(Leave(filled, file, cell), file, result, accepts)
            && id in t.callers && t.callers[id] == Caller(file, Returned(result))
  {
    var (joined, cell) := Join(s.shared, file);
    var (filled, result) := Filled(joined, cell, outcome);
    JoinGivesACell(s.shared, file);
    var s2 := Attempt(Attempt(s, Call(id, file), accepts), Enter(id), accepts);
    assert s2.shared == joined && s2.callers[id] == Caller(file, Holding(cell));
    HoldingToAnswered(s2, id, cell, outcome, accepts);
    var s5 := Attempt(Attempt(Attempt(s2, Begin(id), accepts), Complete(id, outcome), accepts), Observe(id), accepts);
    AnsweredToReturned(s5, id, cell, result, accepts);
  }

  /** A whole call that finds an acceptable value in the cache changes nothing. */
  lemma WholeCallAfterHit(s: State, id: nat, file: nat, outcome: Result, accepts: Value -> bool)
    requires id !in s.callers && Cached(s.shared, file, accepts).Some?
    ensures var t := WholeCall(s, id, file, outcome, accepts);
            && t.shared == s.shared
            && id in t.callers && t.callers[id] == Caller(file, Returned(Ok(Cached(s.shared, file, accepts).value)))
  {
  }

  /**
    A whole call returns an acceptable cached value if there is one, else what the cell in flight
    holds, else the outcome of its own probe; after a miss nothing of the file is in flight, and
    what was returned is cached, exactly if it is acceptable.
  */
  lemma WholeCallReturns(s: State, id: nat, file: nat, outcome: Result, accepts: Value -> bool)
    requires GoodTable(s.shared) && id !in s.callers
    requires file in s.shared.inflight ==> !s.shared.cells[s.shared.inflight[file]].status.Running?
    ensures var t := WholeCall(s, id, file, outcome, accepts);
            && id in t.callers
            && (if file in s.shared.cache && accepts(s.shared.cache[file]) then
                  t.callers[id].stage == Returned(Ok(s.shared.cache[file])) && t.shared == s.shared
                else
                  var result :=
                    if file in s.shared.inflight && s.shared.cells[s.shared.inflight[file]].status.Ready?
                    then s.shared.cells[s.shared.inflight[file]].status.result else outcome;
                  && t.callers[id].stage == Returned(result)
                  && file !in t.shared.inflight
                  && t.shared.cache == if result.Ok? && accepts(result.value)
                                       then s.shared.cache[file := result.value] else s.shared.cache)
  {
    if Cached(s.shared, file, accepts).Some? {
      WholeCallAfterHit(s, id, file, outcome, accepts);
    } else {
      WholeCallAfterMiss(s, id, file, outcome, accepts);
      JoinGivesACell(s.shared, file);
    }
  }

  /* ---- What the cache is for ---- */

  /** The file of every caller that has returned an acceptable value is cached. */
  predicate Stored(s: State, accepts: Value -> bool) {
    forall id :: id in s.callers && s.callers[id].stage.Returned? ==>
      var r := s.callers[id].stage.result;
      r.Ok? && accepts(r.value) ==> s.callers[id].file in s.shared.cache
  }

  lemma StoredStep(s: State, step: Step, accepts: Value -> bool)
    requires Stored(s, accepts) && Enabled(s, step)
    ensures Stored(Next(s, step, accepts), accepts)
    ensures s.shared.cache.Keys <= Next(s, step, accepts).shared.cache.Keys
  {
    var t := Next(s, step, accepts);
    forall id | id in t.callers && t.callers[id].stage.Returned?
      ensures var r := t.callers[id].stage.result; r.Ok? && accepts(r.value) ==> t.callers[id].file in t.shared.cache
    {
      if id != step.id {
        assert id in s.callers && s.callers[id].stage.Returned?;
      }
    }
  }

  lemma {:induction false} StoredRun(s: State, steps: seq<Step>, accepts: Value -> bool)
    requires Stored(s, accepts)
    ensures Stored(Run(s, steps, accepts), accepts)
    decreases steps
  {
    if steps != [] {
      if Enabled(s, steps[0]) {
        StoredStep(s, steps[0], accepts);
      }
      StoredRun(Attempt(s, steps[0], accepts), steps[1..], accepts);
    }
  }

  /**
    In every interleaving, once a caller has returned an acceptable value its file is cached, so
    every later call for the file returns at once, with an acceptable value, and probes nothing.
  */
  lemma AcceptedIsCached(steps: seq<Step>, accepts: Value -> bool, id: nat, later: nat)
    requires var s := Run(Initial(), steps, accepts);
             && id in s.callers && s.callers[id].stage.Returned? && later !in s.callers
             && s.callers[id].stage.result.Ok? && accepts(s.callers[id].stage.result.value)
    ensures var s := Run(Initial(), steps, accepts);
            var file := s.callers[id].file;
            && file in s.shared.cache && accepts(s.shared.cache[file])
            && Enabled(s, Call(later, file))
            && Next(s, Call(later, file), accepts) ==
               s.(callers := s.callers[later := Caller(file, Returned(Ok(s.shared.cache[file])))])
  {
    StoredRun(Initial(), steps, accepts);
    InvRun(Initial(), steps, accepts);
  }

  /**
    In every interleaving a caller that waits at a cell can go on: it can begin the probe, or
    read the result, or the caller that runs the probe can complete it.
  */
  lemma NobodyIsStuck(steps: seq<Step>, accepts: Value -> bool, id: nat, outcome: Result)
    requires var s := Run(Initial(), steps, accepts); id in s.callers && s.callers[id].stage.Holding?
    ensures var s := Run(Initial(), steps, accepts);
            s.callers[id].stage.cell in s.shared.cells &&
            match s.shared.cells[s.callers[id].stage.cell].status
            case Empty => Enabled(s, Begin(id))
            case Ready(_) => Enabled(s, Observe(id))
            case Running(other) => Enabled(s, Complete(other, outcome)) && Enabled(s, Cancel(other))
  {
    InvRun(Initial(), steps, accepts);
    var s := Run(Initial(), steps, accepts);
    assert GoodCaller(s, id);
    assert GoodCell(s, s.callers[id].stage.cell);
  }
}
