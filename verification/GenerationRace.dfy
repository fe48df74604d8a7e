/**
  Selection generations when the counter and the table are updated apart.

  `activate_multifile_file` takes a generation from an atomic counter and writes the
  selection under a lock a moment later, so two activations can write in the opposite order
  of their generations.  Here the two halves are separate steps, and a cleanup still never
  clears a selection written after the cleanup was scheduled.
*/
module GenerationRace {
  import opened Wrappers

  type Hash = string

  datatype Ticket = Ticket(hash: Hash, file: nat, generation: nat)

  datatype Task = Task(hash: Hash, file: nat, generation: Option<nat>)

  /** `written` remembers every generation that ever reached the table. */
  datatype State = State(
    counter: nat,
    tickets: map<nat, Ticket>,
    selections: map<Hash, Ticket>,
    tasks: map<nat, Task>,
    written: set<nat>)

  datatype Step =
    | Reserve(id: nat, hash: Hash, file: nat)
    | Write(id: nat)
    | Schedule(id: nat, hash: Hash, file: nat)
    | Cleanup(id: nat)

  function Initial(): State {
    State(0, map[], map[], map[], {})
  }

  predicate Enabled(s: State, step: Step) {
    match step
    case Reserve(id, _, _) => id !in s.tickets
    case Write(id) => id in s.tickets
    case Schedule(id, _, _) => id !in s.tasks
    case Cleanup(id) => id in s.tasks
  }

  function Captured(s: State, hash: Hash, file: nat): Option<nat> {
    if hash in s.selections && s.selections[hash].file == file
    then Some(s.selections[hash].generation) else None
  }

  function Next(s: State, step: Step): State
    requires Enabled(s, step)
  {
    match step
    case Reserve(id, hash, file) =>
      s.(counter := s.counter + 1, tickets := s.tickets[id := Ticket(hash, file, s.counter + 1)])
    case Write(id) =>
      var t := s.tickets[id];
      s.(tickets := s.tickets - {id}, selections := s.selections[t.hash := t], written := s.written + {t.generation})
    case Schedule(id, hash, file) =>
      s.(tasks := s.tasks[id := Task(hash, file, Captured(s, hash, file))])
    case Cleanup(id) =>
      var task := s.tasks[id];
      var hit := task.hash in s.selections && s.selections[task.hash].file == task.file
                 && task.generation == Some(s.selections[task.hash].generation);
      s.(tasks := s.tasks - {id}, selections := if hit then s.selections - {task.hash} else s.selections)
  }

  ghost predicate Run(states: seq<State>, steps: seq<Step>) {
    && |states| == |steps| + 1 && states[0] == Initial()
    && forall i :: 0 <= i < |steps| ==> Enabled(states[i], steps[i]) && states[i + 1] == Next(states[i], steps[i])
  }

  /** A generation is held by one ticket, or has been written; no captured one is still held. */
  ghost predicate Inv(s: State) {
    && (forall g :: g in s.written ==> g <= s.counter)
    && (forall i :: i in s.tickets ==> s.tickets[i].generation <= s.counter && s.tickets[i].generation !in s.written)
    && (forall i, j :: i in s.tickets && j in s.tickets && i != j ==>
          s.tickets[i].generation != s.tickets[j].generation)
    && (forall h :: h in s.selections ==> s.selections[h].generation in s.written)
    && (forall i :: i in s.tasks && s.tasks[i].generation.Some? ==> s.tasks[i].generation.value in s.written)
  }

  lemma {:induction false} RunKeeps(states: seq<State>, steps: seq<Step>, n: nat)
    requires Run(states, steps) && n <= |steps|
    ensures Inv(states[n])
  {
    if n > 0 {
      RunKeeps(states, steps, n - 1);
      assert states[n] == Next(states[n - 1], steps[n - 1]);
    }
  }

  /** The selection of `h`, if any, was not yet written when `past` was all that had been. */
  ghost predicate WrittenSince(s: State, past: set<nat>, h: Hash) {
    past <= s.written && (h in s.selections ==> s.selections[h].generation !in past)
  }

  lemma {:induction false} WrittenGrows(states: seq<State>, steps: seq<Step>, i: nat, k: nat)
    requires Run(states, steps) && i <= k <= |steps|
    ensures states[i].written <= states[k].written
  {
    if i < k {
      WrittenGrows(states, steps, i, k - 1);
      assert states[k] == Next(states[k - 1], steps[k - 1]);
    }
  }

  lemma {:induction false} StaysWrittenSince(states: seq<State>, steps: seq<Step>, i: nat, j: nat, k: nat, h: Hash)
    requires Run(states, steps) && i <= j < k <= |steps|
    requires steps[j].Write? && states[j].tickets[steps[j].id].hash == h
    ensures WrittenSince(states[k], states[i].written, h)
  {
    RunKeeps(states, steps, k - 1);
    assert states[k] == Next(states[k - 1], steps[k - 1]);
    if k == j + 1 {
      WrittenGrows(states, steps, i, j);
    } else {
      StaysWrittenSince(states, steps, i, j, k - 1, h);
    }
  }

  /** The captured generation of a task that waits from `i` to `k` was written by `i`. */
  ghost predicate Waits(states: seq<State>, i: nat, k: nat, id: nat)
    requires i <= k < |states| && id in states[i].tasks
  {
    forall n :: i <= n <= k ==> id in states[n].tasks && states[n].tasks[id] == states[i].tasks[id]
  }

  /**
    Whatever the interleaving of counter and table, a cleanup that waits from `i` to `k`
    clears nothing of a torrent whose selection was written at some `j` in between.
  */
  lemma CleanupSparesLaterWrites(states: seq<State>, steps: seq<Step>, i: nat, j: nat, k: nat, id: nat)
    requires Run(states, steps) && i <= j < k < |steps|
    requires id in states[i].tasks && Waits(states, i, k, id) && steps[k] == Cleanup(id)
    requires steps[j].Write? && steps[j].id in states[j].tickets
    requires states[j].tickets[steps[j].id].hash == states[i].tasks[id].hash
    ensures states[k + 1].selections == states[k].selections
  {
    StaysWrittenSince(states, steps, i, j, k, states[i].tasks[id].hash);
    RunKeeps(states, steps, i);
    assert states[k].tasks[id] == states[i].tasks[id];
  }

  /** The order of generations alone would not do: the table can go back to an older one. */
  lemma GenerationsMayGoBackwards(h: Hash)
    ensures exists states: seq<State>, steps: seq<Step>, n: nat ::
              (&& Run(states, steps) && n < |steps|
               && h in states[n].selections && h in states[n + 1].selections
               && states[n + 1].selections[h].generation < states[n].selections[h].generation)
  {
    var steps := [Reserve(0, h, 1), Reserve(1, h, 2), Write(1), Write(0)];
    var s0 := Initial();
    var s1 := Next(s0, steps[0]);
    var s2 := Next(s1, steps[1]);
    var s3 := Next(s2, steps[2]);
    var s4 := Next(s3, steps[3]);
    var states := [s0, s1, s2, s3, s4];
    assert Run(states, steps);
    assert states[3].selections[h].generation == 2 && states[4].selections[h].generation == 1;
  }
}
