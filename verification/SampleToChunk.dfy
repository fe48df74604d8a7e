/**
  The chunk of a media sample, as enginefs/src/backend/metadata.rs finds it in a sample-to-chunk
  table (section 8.7.4 of ISO/IEC 14496-12).
*/
module SampleToChunk {
  import opened Machine

  /** From chunk `firstChunk` on, each chunk holds `samples` samples. */
  datatype Run = Run(firstChunk: U32, samples: U32)

  const WORD: nat := 0x1_0000_0000

  /** The chunk; or the search has gone through all chunk numbers of 32 bits and starts over. */
  datatype Outcome = Found(chunk: nat) | PastAllChunks

  /** A table as the standard lays it out: it starts at chunk 1 and its first chunks increase. */
  predicate InOrder(table: seq<Run>) {
    && table != [] && table[0].firstChunk == 1
    && forall i, j :: 0 <= i < j < |table| ==> table[i].firstChunk < table[j].firstChunk
  }

  /* ---- What the table means ---- */

  /** The run in force at a chunk: from each chunk to the next the table is followed by one run at most. */
  function RunAt(table: seq<Run>, chunk: nat): (i: nat)
    requires table != []
    ensures i < |table|
  {
    if chunk == 0 then 0
    else
      var i := RunAt(table, chunk - 1);
      if i + 1 < |table| && table[i + 1].firstChunk <= chunk then i + 1 else i
  }

  function SamplesIn(table: seq<Run>, chunk: nat): nat
    requires table != []
  {
    table[RunAt(table, chunk)].samples
  }

  /** The number of samples in the chunks 1 to `chunk`. */
  function SamplesThrough(table: seq<Run>, chunk: nat): nat
    requires table != []
  {
    if chunk == 0 then 0 else SamplesThrough(table, chunk - 1) + SamplesIn(table, chunk)
  }

  /** Sample `n`, counted from 1, lies in the chunk. */
  predicate Contains(table: seq<Run>, chunk: nat, n: nat)
    requires table != []
  {
    1 <= chunk && SamplesThrough(table, chunk - 1) < n <= SamplesThrough(table, chunk)
  }

  /** The number of the first sample behind the chunks before this one, in 32 bits. */
  function SampleAt(table: seq<Run>, chunk: nat): (r: U32)
    requires table != [] && chunk >= 1
  {
    (SamplesThrough(table, chunk - 1) + 1) % WORD
  }

  /** The search stops at a chunk that starts at the sample or behind it, or before one that starts behind it. */
  predicate Stops(table: seq<Run>, chunk: nat, n: nat)
    requires table != []
  {
    chunk >= 1 && (n <= SampleAt(table, chunk) || n < SampleAt(table, chunk + 1))
  }

  predicate StopsFirst(table: seq<Run>, chunk: nat, n: nat)
    requires table != []
  {
    Stops(table, chunk, n) && forall c: nat :: c < chunk ==> !Stops(table, c, n)
  }

  lemma {:induction false} RunInForce(table: seq<Run>, chunk: nat)
    requires InOrder(table) && chunk >= 1
    ensures table[RunAt(table, chunk)].firstChunk <= chunk
    ensures RunAt(table, chunk) + 1 < |table| ==> chunk < table[RunAt(table, chunk) + 1].firstChunk
  {
    if chunk > 1 {
      RunInForce(table, chunk - 1);
    } else {
      assert RunAt(table, 0) == 0;
    }
  }

  /** In a table in order the run in force is the last one that starts at the chunk or before it. */
  lemma RunOfChunk(table: seq<Run>, chunk: nat, i: nat)
    requires InOrder(table) && chunk >= 1 && i < |table| && table[i].firstChunk <= chunk
    requires i + 1 < |table| ==> chunk < table[i + 1].firstChunk
    ensures SamplesIn(table, chunk) == table[i].samples
  {
    RunInForce(table, chunk);
    OneRunInForce(table, chunk, i, RunAt(table, chunk));
  }

  lemma OneRunInForce(table: seq<Run>, chunk: nat, i: nat, j: nat)
    requires InOrder(table) && i < |table| && j < |table|
    requires table[i].firstChunk <= chunk && (i + 1 < |table| ==> chunk < table[i + 1].firstChunk)
    requires table[j].firstChunk <= chunk && (j + 1 < |table| ==> chunk < table[j + 1].firstChunk)
    ensures i == j
  {
  }

  /* ---- The search ---- */

  lemma NextSample(table: seq<Run>, chunk: nat)
    requires table != [] && chunk >= 1
    ensures SampleAt(table, chunk + 1) == (SampleAt(table, chunk) + SamplesIn(table, chunk)) % WORD
  {
    var t := SamplesThrough(table, chunk - 1) + 1;
    assert SamplesThrough(table, chunk) + 1 == t + SamplesIn(table, chunk);
    AddThenWrap(t, SamplesIn(table, chunk));
  }

  lemma AddThenWrap(a: nat, b: nat)
    ensures (a + b) % WORD == (a % WORD + b) % WORD
  {
  }

  /**
    An empty table gives the number of the sample itself. For any other table, in order or not,
    the search gives the first chunk at which it stops, if the chunk numbers of 32 bits reach it.
    Sums wrap as in a release build. A chunk that holds the sample is the answer exactly if the
    sample does not come right behind an empty chunk, and is the first of its chunk or the
    samples up to the chunk's last leave room in the word.
  */
  method Search(n: U32, table: seq<Run>) returns (r: Outcome)
    ensures table == [] ==> r == Found(n)
    ensures table != [] ==> forall c: nat :: r == Found(c) <==> c <= U32_MAX && StopsFirst(table, c, n)
    ensures table != [] ==> forall c: nat :: Contains(table, c, n) ==>
              (r == Found(c) <==> c <= U32_MAX && Reached(table, c, n) && Recognised(table, c, n))
  {
    if |table| == 0 {
      return Found(n);
    }
    FoundIff(table, n);
    var chunk: U32, sample: U32 := 1, 1;
    var samplesPerChunk := table[0].samples;
    var idx := 0;
    assert RunAt(table, 0) == 0 && SampleAt(table, 1) == 1;
    while sample < n
      invariant 1 <= chunk && idx == RunAt(table, chunk - 1) && samplesPerChunk == table[idx].samples
      invariant sample == SampleAt(table, chunk)
      invariant forall c: nat :: c < chunk ==> !Stops(table, c, n)
      decreases U32_MAX - chunk
    {
      if idx + 1 < |table| && chunk >= table[idx + 1].firstChunk {
        idx := idx + 1;
        samplesPerChunk := table[idx].samples;
      }
      NextSample(table, chunk);
      if (sample + samplesPerChunk) % WORD > n {
        break;
      }
      if chunk == U32_MAX {
        return PastAllChunks;
      }
      sample := (sample + samplesPerChunk) % WORD;
      chunk := chunk + 1;
    }
    assert Stops(table, chunk, n);
    assert StopsFirst(table, chunk, n);
    OnlyOneFirst(table, n);
    return Found(chunk);
  }

  lemma OnlyOneFirst(table: seq<Run>, n: nat)
    requires table != []
    ensures forall c: nat, d: nat :: StopsFirst(table, c, n) && StopsFirst(table, d, n) ==> c == d
  {
    forall c: nat, d: nat | StopsFirst(table, c, n) && StopsFirst(table, d, n)
      ensures c == d
    {
      assert !(c < d) && !(d < c);
    }
  }

  /* ---- When the chunk of a sample is found ---- */

  /** The search comes to the chunk: it has not stopped at an empty one right before the sample. */
  predicate Reached(table: seq<Run>, chunk: nat, n: nat)
    requires table != []
  {
    chunk <= 1 || SamplesIn(table, chunk - 1) > 0 || n > SamplesThrough(table, chunk - 1) + 1
  }

  /** The search stops at the chunk of its sample: it starts there, or the sum does not wrap. */
  predicate Recognised(table: seq<Run>, chunk: nat, n: nat)
    requires table != [] && chunk >= 1
  {
    n == SamplesThrough(table, chunk - 1) + 1 || SamplesThrough(table, chunk) < U32_MAX
  }

  lemma {:induction false} ThroughGrows(table: seq<Run>, c: nat, d: nat)
    requires table != [] && c <= d
    ensures SamplesThrough(table, c) <= SamplesThrough(table, d)
    decreases d
  {
    if c < d {
      ThroughGrows(table, c, d - 1);
    }
  }

  /** Before the chunk of the sample nothing wraps, and the search stops only right before the sample. */
  lemma StopsEarlyIff(table: seq<Run>, c: nat, d: nat, n: U32)
    requires table != [] && Contains(table, c, n) && 1 <= d < c
    ensures Stops(table, d, n) <==> SamplesThrough(table, d - 1) + 1 == n
    ensures Stops(table, d, n) ==> SamplesIn(table, c - 1) == 0 && n == SamplesThrough(table, c - 1) + 1
  {
    ThroughGrows(table, d - 1, d);
    ThroughGrows(table, d, c - 1);
    if d < c - 1 {
      ThroughGrows(table, d, c - 2);
    }
    NoWrap(SamplesThrough(table, d - 1) + 1);
    NoWrap(SamplesThrough(table, d) + 1);
  }

  lemma NoWrap(x: nat)
    requires x <= U32_MAX
    ensures x % WORD == x
  {
  }

  lemma StopsHereIff(table: seq<Run>, c: nat, n: U32)
    requires table != [] && Contains(table, c, n)
    ensures Stops(table, c, n) <==> Recognised(table, c, n)
  {
    NextSample(table, c);
    NoWrap(SamplesThrough(table, c - 1) + 1);
    if SamplesThrough(table, c) < U32_MAX {
      NoWrap(SamplesThrough(table, c) + 1);
    } else {
      var sum := SampleAt(table, c) + SamplesIn(table, c);
      assert sum == SamplesThrough(table, c) + 1;
      assert sum % WORD == sum - WORD;
    }
  }

  /** The chunk that holds the sample is the first to stop at exactly if it is reached and recognised. */
  lemma FoundIff(table: seq<Run>, n: U32)
    requires table != []
    ensures forall c: nat :: Contains(table, c, n) ==>
              (StopsFirst(table, c, n) <==> Reached(table, c, n) && Recognised(table, c, n))
  {
    forall c: nat | Contains(table, c, n)
      ensures StopsFirst(table, c, n) <==> Reached(table, c, n) && Recognised(table, c, n)
    {
      StopsHereIff(table, c, n);
      forall d: nat | 1 <= d < c
        ensures Reached(table, c, n) ==> !Stops(table, d, n)
      {
        StopsEarlyIff(table, c, d, n);
      }
      if !Reached(table, c, n) {
        StopsEarlyIff(table, c, c - 1, n);
      }
    }
  }

  /* ---- Tables without empty runs ---- */

  predicate NoEmptyRun(table: seq<Run>) {
    forall i :: 0 <= i < |table| ==> table[i].samples > 0
  }

  lemma NoEmptyChunk(table: seq<Run>, chunk: nat)
    requires table != [] && NoEmptyRun(table)
    ensures SamplesIn(table, chunk) > 0
  {
  }

  /** Without empty runs every sample lies in a chunk, and its number is no larger than the sample's. */
  lemma {:induction false} EverySampleHasAChunk(table: seq<Run>, n: nat) returns (chunk: nat)
    requires table != [] && NoEmptyRun(table) && n >= 1
    ensures Contains(table, chunk, n) && chunk <= n
  {
    if n == 1 {
      NoEmptyChunk(table, 1);
      assert SamplesThrough(table, 0) == 0;
      chunk := 1;
    } else {
      var before := EverySampleHasAChunk(table, n - 1);
      if n <= SamplesThrough(table, before) {
        chunk := before;
      } else {
        NoEmptyChunk(table, before + 1);
        chunk := before + 1;
      }
    }
  }

  /**
    Without empty runs the search finds the chunk c with "samples before c < n <= samples through
    c", which there is for every n, unless the sample is not the first of its chunk and the
    chunk's last sample is numbered 2^32 - 1 or more.
  */
  lemma FoundWithoutEmptyRuns(table: seq<Run>, n: U32) returns (chunk: nat)
    requires table != [] && NoEmptyRun(table) && n >= 1
    ensures Contains(table, chunk, n) && chunk <= U32_MAX
    ensures StopsFirst(table, chunk, n) <==> Recognised(table, chunk, n)
  {
    chunk := EverySampleHasAChunk(table, n);
    FoundIff(table, n);
    NoEmptyChunk(table, chunk - 1);
  }

  /* ---- Two tables that mislead the search ---- */

  /** The second sample comes right behind an empty chunk, and that chunk is found for it. */
  lemma EmptyChunkIsFound()
    ensures var table := [Run(1, 1), Run(2, 0), Run(3, 1)];
            InOrder(table) && Contains(table, 3, 2) && !Reached(table, 3, 2) && StopsFirst(table, 2, 2)
  {
    var table := [Run(1, 1), Run(2, 0), Run(3, 1)];
    RunOfChunk(table, 1, 0);
    RunOfChunk(table, 2, 1);
    RunOfChunk(table, 3, 2);
    assert SamplesThrough(table, 0) == 0;
    assert SamplesThrough(table, 1) == 1 && SamplesThrough(table, 2) == 1 && SamplesThrough(table, 3) == 2;
  }

  /** In a chunk of 2^32 - 1 samples the sum wraps at the second sample, and the chunk is passed by. */
  lemma LongChunkIsMissed()
    ensures var table := [Run(1, U32_MAX)];
            InOrder(table) && Contains(table, 1, 2) && !Recognised(table, 1, 2) && !Stops(table, 1, 2)
  {
    var table := [Run(1, U32_MAX)];
    RunOfChunk(table, 1, 0);
    assert SamplesThrough(table, 0) == 0;
    StopsHereIff(table, 1, 2);
  }
}
