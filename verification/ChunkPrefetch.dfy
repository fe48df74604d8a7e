/** Which background fills a read starts, and that a reader finds its next chunks in the cache. */
module ChunkPrefetch {
  import opened Wrappers
  import opened Machine
  import opened ChunkCache
  import opened ChunkCacheProofs

  /** The stream is about to begin a chunk or a fetch. */
  predicate Begins(s: Stream) {
    s.position < s.length && (s.position % CHUNK == 0 || s.pending.None?)
  }

  /** One of the two chunks behind the one the stream stands in, if it begins before the stated end. */
  predicate ComesNext(s: Stream, key: Key) {
    && key.0 == s.file
    && (key.1 == s.position / CHUNK + 1 || key.1 == s.position / CHUNK + 2)
    && key.1 * CHUNK < s.length
  }

  lemma RoundFills(files: seq<seq<Byte>>, shared: Shared, s: Stream, capacity: nat, event: Event, key: Key)
    requires SoundStream(s) && s.position < s.length
    ensures var p := Round(files, shared, s, capacity, event);
            && (key in p.shared.tasks <==>
                  key in shared.tasks || (Begins(s) && ComesNext(s, key) && key !in shared.chunks))
            && (key in shared.chunks ==> key in p.shared.chunks)
            && (ComesNext(s, key) ==> (key in p.shared.chunks <==> key in shared.chunks))
            && (p.reply == Spinning ==> p.stream == s.(pending := None))
  {
    var chunk := s.position / CHUNK;
    assert s.pending.GetOr(chunk) == chunk;
    assert (chunk + 2) * CHUNK < s.length ==> (chunk + 1) * CHUNK < s.length;
  }

  /**
    A read that begins a chunk or a fetch starts fills for exactly those of the next two chunks
    inside the stated length that are not cached, however often it goes round.
  */
  lemma {:induction false} PrefetchIff(files: seq<seq<Byte>>, shared: Shared, s: Stream, capacity: nat,
                                       events: seq<Event>, key: Key)
    requires SoundStream(s) && Begins(s) && events != []
    ensures key in Poll(files, shared, s, capacity, events).shared.tasks <==>
            key in shared.tasks || (ComesNext(s, key) && key !in shared.chunks)
    decreases |events|
  {
    var p := Round(files, shared, s, capacity, events[0]);
    RoundFills(files, shared, s, capacity, events[0], key);
    if p.reply == Spinning && |events| > 1 {
      PrefetchIff(files, p.shared, p.stream, capacity, events[1..], key);
      assert ComesNext(p.stream, key) <==> ComesNext(s, key);
    }
  }

  /** A read that goes on with a fetch inside a chunk starts no fill, unless that comes to nothing and it goes round. */
  lemma OtherReadsStartNoFill(files: seq<seq<Byte>>, shared: Shared, s: Stream, capacity: nat, events: seq<Event>)
    requires SoundStream(s) && !Begins(s)
    requires |events| <= 1 || events[0] != Done || s.position < |FileOf(files, s.file)|
    requires Addressable(files) && SoundCache(files, shared.chunks)
    ensures Poll(files, shared, s, capacity, events).shared.tasks == shared.tasks
  {
    if s.position < s.length && events != [] {
      RoundRefines(files, shared, s, capacity, events[0]);
      forall key
        ensures key in Round(files, shared, s, capacity, events[0]).shared.tasks <==> key in shared.tasks
      {
        RoundFills(files, shared, s, capacity, events[0], key);
      }
    }
  }

  /** The chunk is cached, or a fill for it has been started. */
  predicate Coming(shared: Shared, key: Key) {
    key in shared.chunks || key in shared.tasks
  }

  lemma {:induction false} PollKeepsChunks(files: seq<seq<Byte>>, shared: Shared, s: Stream, capacity: nat,
                                           events: seq<Event>, key: Key)
    requires key in shared.chunks
    ensures key in Poll(files, shared, s, capacity, events).shared.chunks
    decreases |events|
  {
    if s.position < s.length && events != [] {
      var p := Round(files, shared, s, capacity, events[0]);
      if p.reply == Spinning {
        PollKeepsChunks(files, p.shared, p.stream, capacity, events[1..], key);
      }
    }
  }

  lemma {:induction false} PollKeepsFills(files: seq<seq<Byte>>, shared: Shared, s: Stream, capacity: nat,
                                          events: seq<Event>, key: Key)
    requires key in shared.tasks
    ensures key in Poll(files, shared, s, capacity, events).shared.tasks
    decreases |events|
  {
    if s.position < s.length && events != [] {
      var p := Round(files, shared, s, capacity, events[0]);
      if p.reply == Spinning {
        PollKeepsFills(files, p.shared, p.stream, capacity, events[1..], key);
      }
    }
  }

  /** After such a read each of the next two chunks inside the stated length is cached or coming. */
  lemma NextChunksAreComing(files: seq<seq<Byte>>, shared: Shared, s: Stream, capacity: nat, events: seq<Event>,
                            key: Key)
    requires SoundStream(s) && Begins(s) && events != [] && ComesNext(s, key)
    ensures Coming(Poll(files, shared, s, capacity, events).shared, key)
  {
    if key in shared.chunks {
      PollKeepsChunks(files, shared, s, capacity, events, key);
    } else {
      PrefetchIff(files, shared, s, capacity, events, key);
    }
  }

  /** The script loses neither the chunk nor its fill. */
  predicate Spares(script: seq<Command>, key: Key) {
    Evict(key) !in script && FailFill(key) !in script
  }

  lemma StepComes(files: seq<seq<Byte>>, sys: System, cmd: Command, key: Key)
    requires Coming(sys.shared, key) && cmd != Evict(key) && cmd != FailFill(key)
    ensures Coming(Step(files, sys, cmd).shared, key)
    ensures key in sys.shared.chunks || cmd == FinishFill(key) ==> key in Step(files, sys, cmd).shared.chunks
  {
    if cmd.Read? && cmd.id in sys.streams {
      if key in sys.shared.chunks {
        PollKeepsChunks(files, sys.shared, sys.streams[cmd.id], cmd.capacity, cmd.events, key);
      } else {
        PollKeepsFills(files, sys.shared, sys.streams[cmd.id], cmd.capacity, cmd.events, key);
      }
    }
  }

  lemma {:induction false} FillsArrive(files: seq<seq<Byte>>, sys: System, script: seq<Command>, key: Key)
    requires Coming(sys.shared, key) && Spares(script, key)
    ensures key in sys.shared.chunks || FinishFill(key) in script ==> key in Final(files, sys, script).shared.chunks
    decreases script
  {
    if script != [] {
      StepComes(files, sys, script[0], key);
      FillsArrive(files, Step(files, sys, script[0]), script[1..], key);
    }
  }

  /**
    A stream begins a chunk, and then anything happens among streams, fills and evictions: once
    the fill of a next chunk is finished, unless the chunk was lost meanwhile, it is in the cache
    with the bytes of the file, so a reader that gets there waits for nothing.
  */
  lemma NextChunkIsCached(files: seq<seq<Byte>>, sys: System, id: nat, capacity: nat, events: seq<Event>,
                          script: seq<Command>, key: Key)
    requires Addressable(files) && Sound(files, sys) && id in sys.streams && events != []
    requires Begins(sys.streams[id]) && ComesNext(sys.streams[id], key)
    requires Spares(script, key) && FinishFill(key) in script
    ensures var last := Final(files, Step(files, sys, Read(id, capacity, events)), script);
            && key in last.shared.chunks
            && last.shared.chunks[key] == ChunkOf(FileOf(files, key.0), key.1)
  {
    var next := Step(files, sys, Read(id, capacity, events));
    NextChunksAreComing(files, sys.shared, sys.streams[id], capacity, events, key);
    FillsArrive(files, next, script, key);
    StepRefines(files, sys, Read(id, capacity, events));
    RunRefines(files, next, script);
  }

  /** A chunk that a read was answered from is cached with the bytes of the file. */
  lemma {:induction false} ReadChunkIsCached(files: seq<seq<Byte>>, shared: Shared, s: Stream, capacity: nat,
                                             events: seq<Event>)
    requires Addressable(files) && SoundCache(files, shared.chunks) && SoundStream(s) && s.position < s.length
    requires Poll(files, shared, s, capacity, events).reply.Bytes?
    ensures var key, chunks := (s.file, s.position / CHUNK), Poll(files, shared, s, capacity, events).shared.chunks;
            key in chunks && chunks[key] == ChunkOf(FileOf(files, s.file), s.position / CHUNK)
    decreases |events|
  {
    var p := Round(files, shared, s, capacity, events[0]);
    RoundRefines(files, shared, s, capacity, events[0]);
    if p.reply == Spinning {
      ReadChunkIsCached(files, p.shared, p.stream, capacity, events[1..]);
    }
  }
}
