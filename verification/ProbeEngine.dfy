/** The tables of an engine that callers of a probe go through, each section under its lock. */
module ProbeEngine {
  import opened Wrappers
  import opened SingleFlight
  import opened SingleFlightProofs

  class Engine {
    var probeCache: map<nat, Value>
    var probeInflight: map<nat, nat>
    var cells: map<nat, Cell>
    var nextCell: nat

    constructor ()
      ensures View() == Initial().shared
    {
      probeCache, probeInflight, cells, nextCell := map[], map[], map[], 0;
    }

    function View(): Shared
      reads this
    {
      Shared(cells, nextCell, probeInflight, probeCache)
    }

    /** A new, empty cell. */
    method NewCell(file: nat) returns (cell: nat)
      modifies this`cells, this`nextCell
      ensures cell == old(nextCell) && nextCell == cell + 1
      ensures cells == old(cells)[cell := Cell(file, Empty)]
    {
      cell := nextCell;
      cells := cells[cell := Cell(file, Empty)];
      nextCell := nextCell + 1;
    }

    method CachedProbe(file: nat, accepts: Value -> bool) returns (r: Option<Value>)
      ensures r == Cached(View(), file, accepts)
    {
      if file in probeCache {
        var value := probeCache[file];
        if accepts(value) {
          return Some(value);
        }
      }
      return None;
    }

    method JoinProbe(file: nat) returns (cell: nat)
      modifies this
      ensures (View(), cell) == Join(old(View()), file)
    {
      if file !in probeInflight {
        var newCell := NewCell(file);
        probeInflight := probeInflight[file := newCell];
      }
      cell := probeInflight[file];
    }

    method LeaveProbe(file: nat, cell: nat)
      modifies this
      ensures View() == Leave(old(View()), file, cell)
    {
      if file in probeInflight && probeInflight[file] == cell {
        probeInflight := probeInflight - {file};
      }
    }

    method StoreProbe(file: nat, result: Result, accepts: Value -> bool)
      modifies this
      ensures View() == Keep(old(View()), file, result, accepts)
    {
      if result.Ok? && accepts(result.value) {
        probeCache := probeCache[file := result.value];
      }
    }

    /** Fills an empty cell with the outcome of a probe; a filled one keeps its result. */
    method GetOrInit(cell: nat, outcome: Result) returns (r: Result)
      requires cell in cells && !cells[cell].status.Running?
      modifies this`cells
      ensures (View(), r) == Filled(old(View()), cell, outcome)
    {
      if cells[cell].status.Ready? {
        return cells[cell].status.result;
      }
      cells := cells[cell := cells[cell].(status := Ready(outcome))];
      return outcome;
    }

    /** A call that nobody interrupts: the sections in their order are the steps of a caller. */
    method GetProbeResult(file: nat, outcome: Result, accepts: Value -> bool) returns (r: Result)
      requires GoodTable(View())
      requires file in probeInflight ==> !cells[probeInflight[file]].status.Running?
      modifies this
      ensures var t := WholeCall(State(old(View()), map[], {}), 0, file, outcome, accepts);
              t.shared == View() && 0 in t.callers && t.callers[0] == Caller(file, Returned(r))
      ensures if file in old(probeCache) && accepts(old(probeCache)[file])
              then r == Ok(old(probeCache)[file]) && probeCache == old(probeCache)
              else probeCache == if r.Ok? && accepts(r.value) then old(probeCache)[file := r.value]
                                 else old(probeCache)
    {
      ghost var before := State(View(), map[], {});
      WholeCallReturns(before, 0, file, outcome, accepts);
      var hit := CachedProbe(file, accepts);
      if hit.Some? {
        WholeCallAfterHit(before, 0, file, outcome, accepts);
        return Ok(hit.value);
      }
      WholeCallAfterMiss(before, 0, file, outcome, accepts);
      JoinGivesACell(View(), file);
      var cell := JoinProbe(file);
      r := GetOrInit(cell, outcome);
      LeaveProbe(file, cell);
      StoreProbe(file, r, accepts);
    }
  }
}
