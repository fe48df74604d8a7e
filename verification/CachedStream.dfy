/** The stream object and the cache it shares with other streams and with background fills. */
module CachedStreams {
  import opened Wrappers
  import opened Machine
  import opened ChunkCache

  class DataCache {
    var chunks: map<Key, seq<Byte>>
    var tasks: set<Key>

    constructor ()
      ensures View() == Shared(map[], {})
    {
      chunks, tasks := map[], {};
    }

    function View(): Shared
      reads this
    {
      Shared(chunks, tasks)
    }

    /** The cached value of a key; when there is none, what the file holds is read and cached. */
    method GetWith(files: seq<seq<Byte>>, key: Key) returns (data: seq<Byte>)
      modifies this`chunks
      ensures data == Lookup(files, old(chunks), key) && chunks == old(chunks)[key := data]
    {
      if key in chunks {
        data := chunks[key];
      } else {
        data := ChunkOf(FileOf(files, key.0), key.1);
        chunks := chunks[key := data];
      }
    }

    /** A background fill comes to its end. */
    method Finish(files: seq<seq<Byte>>, key: Key)
      requires key in tasks
      modifies this
      ensures View() == Shared(old(chunks)[key := Lookup(files, old(chunks), key)], old(tasks) - {key})
    {
      var _ := GetWith(files, key);
      tasks := tasks - {key};
    }
  }

  class CachedStream {
    const cache: DataCache
    const fileIndex: nat
    const fileLength: U64
    var position: U64
    var currentFuture: Option<nat>

    constructor (cache: DataCache, fileIndex: nat, fileLength: U64)
      ensures this.cache == cache && View() == Stream(fileIndex, fileLength, 0, None)
    {
      this.cache, this.fileIndex, this.fileLength := cache, fileIndex, fileLength;
      position, currentFuture := 0, None;
    }

    function View(): Stream
      reads this
    {
      Stream(fileIndex, fileLength, position, currentFuture)
    }

    method Prefetch(chunkIndex: nat)
      modifies cache`tasks
      ensures cache.tasks == old(cache.tasks) + Ahead(View(), cache.chunks, chunkIndex)
    {
      for i := 1 to 3
        invariant i == 1 ==> cache.tasks == old(cache.tasks)
        invariant i == 2 ==> (chunkIndex + 1) * CHUNK < fileLength
        invariant i == 2 ==>
                    cache.tasks ==
                    old(cache.tasks) +
                    if (fileIndex, chunkIndex + 1) in cache.chunks then {} else {(fileIndex, chunkIndex + 1)}
        invariant i == 3 ==> cache.tasks == old(cache.tasks) + Ahead(View(), cache.chunks, chunkIndex)
      {
        var next := chunkIndex + i;
        if next * CHUNK >= fileLength {
          break;
        }
        if (fileIndex, next) in cache.chunks {
          continue;
        }
        cache.tasks := cache.tasks + {(fileIndex, next)};
      }
    }

    method StartSeek(from: SeekFrom)
      modifies this`position, this`currentFuture
      ensures View() == Seek(old(View()), from)
    {
      match from {
        case Start(offset) => position := offset;
        case Current(diff) => position := WrapU64(position + diff);
        case End(diff) => position := WrapU64(fileLength + diff);
      }
      currentFuture := None;
    }

    /** Hands over the part of the chunk that starts at the position. */
    method CopyOut(data: seq<Byte>, capacity: nat) returns (reply: Reply)
      requires currentFuture.None?
      modifies this`position
      ensures (View(), reply) == Deliver(old(View()), data, capacity)
    {
      var chunkStart := position / CHUNK * CHUNK;
      var chunkOffset := position - chunkStart;
      if chunkOffset >= |data| {
        return Spinning;
      }
      var available := |data| - chunkOffset;
      var toRead := if available <= capacity then available else capacity;
      position := WrapU64(position + toRead);
      return Bytes(data[chunkOffset..chunkOffset + toRead]);
    }

    /** The fetch in progress is polled and answers with `event`. */
    method PollFuture(files: seq<seq<Byte>>, capacity: nat, event: Event) returns (reply: Reply)
      requires currentFuture.Some?
      requires position % CHUNK == 0 ==> Ahead(View(), cache.chunks, position / CHUNK) <= cache.tasks
      modifies this`position, this`currentFuture, cache`chunks
      ensures Polled(cache.View(), View(), reply) == Round(files, old(cache.View()), old(View()), capacity, event)
    {
      assert position % CHUNK == 0 ==> cache.tasks + Ahead(View(), cache.chunks, position / CHUNK) == cache.tasks;
      match event {
        case NotReady =>
          return Pending;
        case Broken =>
          currentFuture := None;
          return Error;
        case Done =>
          var data := cache.GetWith(files, (fileIndex, currentFuture.value));
          currentFuture := None;
          reply := CopyOut(data, capacity);
      }
    }

    /** A poll for at most `capacity` bytes; `events` are the answers of its fetches, one after the other. */
    method PollRead(files: seq<seq<Byte>>, capacity: nat, events: seq<Event>) returns (reply: Reply)
      modifies this`position, this`currentFuture, cache
      ensures Polled(cache.View(), View(), reply) == Poll(files, old(cache.View()), old(View()), capacity, events)
    {
      var i := 0;
      assert events[0..] == events;
      while true
        invariant 0 <= i <= |events| && position == old(position)
        invariant Poll(files, cache.View(), View(), capacity, events[i..]) ==
                  Poll(files, old(cache.View()), old(View()), capacity, events)
        decreases |events| - i, if currentFuture.None? then 1 else 0
      {
        if position >= fileLength {
          return Bytes([]);
        }
        if i == |events| {
          return Spinning;
        }
        ghost var shared, s := cache.View(), View();
        if position % CHUNK == 0 {
          Prefetch(position / CHUNK);
          PrefetchMakesNoDifference(files, shared, s, capacity, events[i..]);
        }
        if currentFuture.Some? {
          reply := PollFuture(files, capacity, events[i]);
          if reply != Spinning {
            return;
          }
          assert events[i..][1..] == events[i + 1..];
          i := i + 1;
        } else {
          shared := cache.View();
          Prefetch(position / CHUNK);
          currentFuture := Some(position / CHUNK);
          StartingMakesNoDifference(files, shared, s, capacity, events[i..]);
        }
      }
    }
  }

  /** At the start of a chunk a round would start the same background fills again. */
  lemma PrefetchMakesNoDifference(files: seq<seq<Byte>>, shared: Shared, s: Stream, capacity: nat, events: seq<Event>)
    requires s.position < s.length && events != [] && s.position % CHUNK == 0
    ensures var more := shared.(tasks := shared.tasks + Ahead(s, shared.chunks, s.position / CHUNK));
            Poll(files, more, s, capacity, events) == Poll(files, shared, s, capacity, events)
  {
    var ahead := Ahead(s, shared.chunks, s.position / CHUNK);
    assert shared.tasks + ahead + ahead == shared.tasks + ahead;
    var more := shared.(tasks := shared.tasks + ahead);
    assert Round(files, more, s, capacity, events[0]) == Round(files, shared, s, capacity, events[0]);
  }

  /** A fetch started for the chunk of the position is the one a round would start. */
  lemma StartingMakesNoDifference(files: seq<seq<Byte>>, shared: Shared, s: Stream, capacity: nat, events: seq<Event>)
    requires s.position < s.length && events != [] && s.pending.None?
    ensures var chunk := s.position / CHUNK;
            var more := shared.(tasks := shared.tasks + Ahead(s, shared.chunks, chunk));
            Poll(files, more, s.(pending := Some(chunk)), capacity, events) ==
            Poll(files, shared, s, capacity, events)
  {
    var chunk := s.position / CHUNK;
    var ahead := Ahead(s, shared.chunks, chunk);
    assert shared.tasks + ahead + ahead == shared.tasks + ahead;
    var more := shared.(tasks := shared.tasks + ahead);
    assert Round(files, more, s.(pending := Some(chunk)), capacity, events[0]) ==
           Round(files, shared, s, capacity, events[0]);
  }
}
