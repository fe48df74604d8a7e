/**
  Reading a file through a shared cache of chunks (enginefs/src/cache.rs): several streams, the
  cache they share, its background fills, and eviction at any moment.
*/
module ChunkCache {
  import opened Wrappers
  import opened Machine

  const CHUNK: nat := 512 * 1024

  /** A file number and a chunk number. */
  type Key = (nat, nat)

  /** An open stream; `pending` is the chunk a fetch in progress was started for. */
  datatype Stream = Stream(file: nat, length: U64, position: U64, pending: Option<nat>)

  /** The cached chunks, and the background fills that have been started. */
  datatype Shared = Shared(chunks: map<Key, seq<Byte>>, tasks: set<Key>)

  datatype SeekFrom = Start(offset: U64) | Current(diff: I64) | End(diff: I64)

  /** How the fetch in progress answers when it is polled. */
  datatype Event = NotReady | Broken | Done

  /** `Spinning` is no answer yet: the fetches that were answered gave chunks that are too short. */
  datatype Reply = Pending | Error | Bytes(data: seq<Byte>) | Spinning | NoReply

  datatype Polled = Polled(shared: Shared, stream: Stream, reply: Reply)

  /** What a fetch of a chunk reads from the file itself. */
  function ChunkOf(file: seq<Byte>, chunk: nat): seq<Byte> {
    file[Min(chunk * CHUNK, |file|)..Min(chunk * CHUNK + CHUNK, |file|)]
  }

  function FileOf(files: seq<seq<Byte>>, i: nat): seq<Byte> {
    if i < |files| then files[i] else []
  }

  /** The background fills started for the two chunks behind a chunk. */
  function Ahead(s: Stream, chunks: map<Key, seq<Byte>>, chunk: nat): set<Key> {
    if (chunk + 1) * CHUNK >= s.length then {}
    else
      (if (s.file, chunk + 1) in chunks then {} else {(s.file, chunk + 1)}) +
      (if (chunk + 2) * CHUNK >= s.length || (s.file, chunk + 2) in chunks then {} else {(s.file, chunk + 2)})
  }

  /** The value of a key: what is cached, or else what the file holds. */
  function Lookup(files: seq<seq<Byte>>, chunks: map<Key, seq<Byte>>, key: Key): seq<Byte> {
    if key in chunks then chunks[key] else ChunkOf(FileOf(files, key.0), key.1)
  }

  /** The copy out of a chunk that has arrived. */
  function Deliver(s: Stream, data: seq<Byte>, capacity: nat): (Stream, Reply) {
    var offset := s.position - s.position / CHUNK * CHUNK;
    if offset >= |data| then (s.(pending := None), Spinning)
    else
      var n := Min(|data| - offset, capacity);
      (s.(position := WrapU64(s.position + n), pending := None), Bytes(data[offset..offset + n]))
  }

  /** One round of a poll before the stated end: the fetch in progress, or a new one, is polled. */
  function Round(files: seq<seq<Byte>>, shared: Shared, s: Stream, capacity: nat, event: Event): Polled {
    var chunk := s.position / CHUNK;
    var starts := s.position % CHUNK == 0 || s.pending.None?;
    var tasks := if starts then shared.tasks + Ahead(s, shared.chunks, chunk) else shared.tasks;
    var key := (s.file, s.pending.GetOr(chunk));
    match event
    case NotReady => Polled(Shared(shared.chunks, tasks), s.(pending := Some(key.1)), Pending)
    case Broken => Polled(Shared(shared.chunks, tasks), s.(pending := None), Error)
    case Done =>
      var data := Lookup(files, shared.chunks, key);
      var (after, reply) := Deliver(s, data, capacity);
      Polled(Shared(shared.chunks[key := data], tasks), after, reply)
  }

  /** A poll: it goes round, one answer of a fetch each time, until a round has a reply. */
  function Poll(files: seq<seq<Byte>>, shared: Shared, s: Stream, capacity: nat, events: seq<Event>): Polled
    decreases |events|
  {
    if s.position >= s.length then Polled(shared, s, Bytes([]))
    else if events == [] then Polled(shared, s, Spinning)
    else
      var p := Round(files, shared, s, capacity, events[0]);
      if p.reply == Spinning then Poll(files, p.shared, p.stream, capacity, events[1..]) else p
  }

  function Seek(s: Stream, from: SeekFrom): Stream {
    var target :=
      match from
      case Start(offset) => offset
      case Current(diff) => WrapU64(s.position + diff)
      case End(diff) => WrapU64(s.length + diff);
    s.(position := target, pending := None)
  }

  /* ---- A system of streams ---- */

  datatype System = System(shared: Shared, streams: map<nat, Stream>)

  datatype Command =
    | Open(id: nat, file: nat, length: U64)
    | SeekTo(id: nat, from: SeekFrom)
    | Read(id: nat, capacity: nat, events: seq<Event>)
    | FinishFill(key: Key)
    | FailFill(key: Key)
    | Evict(key: Key)

  function Step(files: seq<seq<Byte>>, sys: System, cmd: Command): System {
    match cmd
    case Open(id, file, length) => sys.(streams := sys.streams[id := Stream(file, length, 0, None)])
    case SeekTo(id, from) =>
      if id !in sys.streams then sys else sys.(streams := sys.streams[id := Seek(sys.streams[id], from)])
    case Read(id, capacity, events) =>
      if id !in sys.streams then sys
      else
        var p := Poll(files, sys.shared, sys.streams[id], capacity, events);
        System(p.shared, sys.streams[id := p.stream])
    case FinishFill(key) =>
      if key !in sys.shared.tasks then sys
      else
        var data := Lookup(files, sys.shared.chunks, key);
        sys.(shared := Shared(sys.shared.chunks[key := data], sys.shared.tasks - {key}))
    case FailFill(key) => sys.(shared := sys.shared.(tasks := sys.shared.tasks - {key}))
    case Evict(key) => sys.(shared := sys.shared.(chunks := sys.shared.chunks - {key}))
  }

  function ReplyTo(files: seq<seq<Byte>>, sys: System, cmd: Command): Reply {
    if cmd.Read? && cmd.id in sys.streams then
      Poll(files, sys.shared, sys.streams[cmd.id], cmd.capacity, cmd.events).reply
    else NoReply
  }

  function Final(files: seq<seq<Byte>>, sys: System, script: seq<Command>): System
    decreases script
  {
    if script == [] then sys else Final(files, Step(files, sys, script[0]), script[1..])
  }

  function Replies(files: seq<seq<Byte>>, sys: System, script: seq<Command>): seq<Reply>
    decreases script
  {
    if script == [] then []
    else [ReplyTo(files, sys, script[0])] + Replies(files, Step(files, sys, script[0]), script[1..])
  }
}

/** The same streams over the plain file, with no cache at all, and that nobody can tell. */
module ChunkCacheProofs {
  import opened Wrappers
  import opened Sequences
  import opened Machine
  import opened ChunkCache

  /* ---- The plain file ---- */

  /** A place in a file. */
  datatype Cursor = Cursor(file: nat, length: U64, position: U64)

  /** Reading takes what fits, up to the end of the chunk and of the file. */
  function Count(file: seq<Byte>, position: nat, capacity: nat): (n: nat)
    requires position < |file|
    ensures position + n <= |file| && n <= capacity && (capacity > 0 ==> n > 0)
  {
    Min(Min(capacity, (position / CHUNK + 1) * CHUNK - position), |file| - position)
  }

  function PlainRead(files: seq<seq<Byte>>, c: Cursor, capacity: nat, events: seq<Event>): (Cursor, Reply) {
    var file := FileOf(files, c.file);
    if c.position >= c.length then (c, Bytes([]))
    else if events == [] then (c, Spinning)
    else if events[0] == NotReady then (c, Pending)
    else if events[0] == Broken then (c, Error)
    else if c.position >= |file| then PlainRead(files, c, capacity, events[1..])
    else
      var n := Count(file, c.position, capacity);
      (c.(position := WrapU64(c.position + n)), Bytes(file[c.position..c.position + n]))
  }

  function PlainStep(files: seq<seq<Byte>>, cursors: map<nat, Cursor>, cmd: Command): map<nat, Cursor> {
    match cmd
    case Open(id, file, length) => cursors[id := Cursor(file, length, 0)]
    case SeekTo(id, from) =>
      if id !in cursors then cursors
      else
        var c := cursors[id];
        cursors[id := c.(position :=
          match from
          case Start(offset) => offset
          case Current(diff) => WrapU64(c.position + diff)
          case End(diff) => WrapU64(c.length + diff))]
    case Read(id, capacity, events) =>
      if id !in cursors then cursors else cursors[id := PlainRead(files, cursors[id], capacity, events).0]
    case FinishFill(_) => cursors
    case FailFill(_) => cursors
    case Evict(_) => cursors
  }

  function PlainReplyTo(files: seq<seq<Byte>>, cursors: map<nat, Cursor>, cmd: Command): Reply {
    if cmd.Read? && cmd.id in cursors then PlainRead(files, cursors[cmd.id], cmd.capacity, cmd.events).1 else NoReply
  }

  function PlainFinal(files: seq<seq<Byte>>, cursors: map<nat, Cursor>, script: seq<Command>): map<nat, Cursor>
    decreases script
  {
    if script == [] then cursors else PlainFinal(files, PlainStep(files, cursors, script[0]), script[1..])
  }

  function PlainReplies(files: seq<seq<Byte>>, cursors: map<nat, Cursor>, script: seq<Command>): seq<Reply>
    decreases script
  {
    if script == [] then []
    else
      [PlainReplyTo(files, cursors, script[0])] +
      PlainReplies(files, PlainStep(files, cursors, script[0]), script[1..])
  }

  /* ---- The invariant ---- */

  /** Every cached chunk is that chunk of its file. */
  predicate SoundCache(files: seq<seq<Byte>>, chunks: map<Key, seq<Byte>>) {
    forall key :: key in chunks ==> chunks[key] == ChunkOf(FileOf(files, key.0), key.1)
  }

  /** A fetch in progress is for the chunk the stream stands in. */
  predicate SoundStream(s: Stream) {
    s.pending.Some? ==> s.pending.value == s.position / CHUNK
  }

  predicate Sound(files: seq<seq<Byte>>, sys: System) {
    && SoundCache(files, sys.shared.chunks)
    && forall id :: id in sys.streams ==> SoundStream(sys.streams[id])
  }

  function CursorOf(s: Stream): Cursor {
    Cursor(s.file, s.length, s.position)
  }

  function Cursors(sys: System): map<nat, Cursor> {
    map id | id in sys.streams :: CursorOf(sys.streams[id])
  }

  /* ---- Refinement ---- */

  /** Files are no longer than a word can say. */
  predicate Addressable(files: seq<seq<Byte>>) {
    forall i :: 0 <= i < |files| ==> |files[i]| <= U64_MAX
  }

  /** The part of a chunk that starts at a position, as a part of the file. */
  lemma ChunkPart(file: seq<Byte>, position: nat, capacity: nat)
    requires position < |file|
    ensures var data := ChunkOf(file, position / CHUNK);
            var offset := position - position / CHUNK * CHUNK;
            var n := Count(file, position, capacity);
            && 0 <= offset < |data| && n == Min(|data| - offset, capacity)
            && data[offset..offset + n] == file[position..position + n]
  {
    var lo := position / CHUNK * CHUNK;
    SliceOfSlice(file, lo, Min(lo + CHUNK, |file|), position - lo, Count(file, position, capacity));
  }

  lemma NoChunkPart(file: seq<Byte>, position: nat)
    requires position >= |file|
    ensures position - position / CHUNK * CHUNK >= |ChunkOf(file, position / CHUNK)|
  {
  }

  lemma ChunkDelivers(file: seq<Byte>, s: Stream, capacity: nat)
    requires |file| <= U64_MAX
    ensures var (after, reply) := Deliver(s, ChunkOf(file, s.position / CHUNK), capacity);
            if s.position >= |file| then reply == Spinning && after == s.(pending := None)
            else
              var n := Count(file, s.position, capacity);
              reply == Bytes(file[s.position..s.position + n])
              && after == s.(position := s.position + n, pending := None)
  {
    if s.position < |file| {
      ChunkPart(file, s.position, capacity);
    } else {
      NoChunkPart(file, s.position);
    }
  }

  /** What one round does: it answers as the fetch does, gives bytes of the file, or leaves the stream in place. */
  lemma RoundRefines(files: seq<seq<Byte>>, shared: Shared, s: Stream, capacity: nat, event: Event)
    requires Addressable(files) && SoundCache(files, shared.chunks) && SoundStream(s)
    ensures var p := Round(files, shared, s, capacity, event);
            var file := FileOf(files, s.file);
            && SoundCache(files, p.shared.chunks) && SoundStream(p.stream)
            && (event == NotReady ==> p.reply == Pending && CursorOf(p.stream) == CursorOf(s))
            && (event == Broken ==> p.reply == Error && CursorOf(p.stream) == CursorOf(s))
            && (event == Done && s.position >= |file| ==> p.reply == Spinning && CursorOf(p.stream) == CursorOf(s))
            && (event == Done && s.position < |file| ==>
                  var n := Count(file, s.position, capacity);
                  && p.reply == Bytes(file[s.position..s.position + n])
                  && CursorOf(p.stream) == CursorOf(s).(position := s.position + n))
  {
    var chunk := s.position / CHUNK;
    assert s.pending.GetOr(chunk) == chunk;
    assert Lookup(files, shared.chunks, (s.file, chunk)) == ChunkOf(FileOf(files, s.file), chunk);
    ChunkDelivers(FileOf(files, s.file), s, capacity);
  }

  lemma {:induction false} PollRefines(files: seq<seq<Byte>>, shared: Shared, s: Stream, capacity: nat,
                                       events: seq<Event>)
    requires Addressable(files) && SoundCache(files, shared.chunks) && SoundStream(s)
    ensures var p := Poll(files, shared, s, capacity, events);
            && SoundCache(files, p.shared.chunks) && SoundStream(p.stream)
            && (CursorOf(p.stream), p.reply) == PlainRead(files, CursorOf(s), capacity, events)
    decreases |events|
  {
    if s.position < s.length && events != [] {
      var p := Round(files, shared, s, capacity, events[0]);
      RoundRefines(files, shared, s, capacity, events[0]);
      if p.reply == Spinning {
        PollRefines(files, p.shared, p.stream, capacity, events[1..]);
      }
    }
  }

  lemma StepRefines(files: seq<seq<Byte>>, sys: System, cmd: Command)
    requires Addressable(files) && Sound(files, sys)
    ensures Sound(files, Step(files, sys, cmd))
    ensures ReplyTo(files, sys, cmd) == PlainReplyTo(files, Cursors(sys), cmd)
    ensures Cursors(Step(files, sys, cmd)) == PlainStep(files, Cursors(sys), cmd)
  {
    if cmd.Read? && cmd.id in sys.streams {
      PollRefines(files, sys.shared, sys.streams[cmd.id], cmd.capacity, cmd.events);
    }
  }

  /**
    Over every run of streams that open, seek and read, with fills completing or failing and
    chunks being evicted at any moment, every reply is the one the plain file would give, and the
    cache holds nothing but chunks of the files.
  */
  lemma {:induction false} RunRefines(files: seq<seq<Byte>>, sys: System, script: seq<Command>)
    requires Addressable(files) && Sound(files, sys)
    ensures Replies(files, sys, script) == PlainReplies(files, Cursors(sys), script)
    ensures Sound(files, Final(files, sys, script))
    ensures Cursors(Final(files, sys, script)) == PlainFinal(files, Cursors(sys), script)
    decreases script
  {
    if script != [] {
      StepRefines(files, sys, script[0]);
      RunRefines(files, Step(files, sys, script[0]), script[1..]);
    }
  }

  /* ---- Reading in sequence ---- */

  /** The bytes a stream is given by one reply. */
  function GivenBy(id: nat, cmd: Command, reply: Reply): seq<Byte> {
    if cmd.Read? && cmd.id == id && reply.Bytes? then reply.data else []
  }

  /** The bytes a stream is given over a run. */
  function Given(id: nat, script: seq<Command>, replies: seq<Reply>): seq<Byte>
    requires |script| == |replies|
  {
    if script == [] then [] else GivenBy(id, script[0], replies[0]) + Given(id, script[1..], replies[1..])
  }

  predicate Moves(cmd: Command, id: nat) {
    (cmd.Open? || cmd.SeekTo?) && cmd.id == id
  }

  /** The stream is neither moved nor opened again. */
  predicate OnlyReads(id: nat, script: seq<Command>) {
    forall i :: 0 <= i < |script| ==> !Moves(script[i], id)
  }

  lemma {:induction false} PlainReadMoves(files: seq<seq<Byte>>, c: Cursor, capacity: nat, events: seq<Event>)
    requires Addressable(files) && c.position <= |FileOf(files, c.file)|
    ensures var (to, reply) := PlainRead(files, c, capacity, events);
            var file := FileOf(files, c.file);
            && to == c.(position := to.position) && c.position <= to.position <= |file|
            && (if reply.Bytes? then reply.data else []) == file[c.position..to.position]
    decreases |events|
  {
    if c.position < c.length && events != [] && events[0] == Done && c.position >= |FileOf(files, c.file)| {
      PlainReadMoves(files, c, capacity, events[1..]);
    }
  }

  lemma PlainReadsOnce(files: seq<seq<Byte>>, cursors: map<nat, Cursor>, id: nat, cmd: Command)
    requires Addressable(files) && id in cursors && !Moves(cmd, id)
    requires cursors[id].position <= |FileOf(files, cursors[id].file)|
    ensures id in PlainStep(files, cursors, cmd)
    ensures var from, to := cursors[id], PlainStep(files, cursors, cmd)[id];
            && to == from.(position := to.position)
            && from.position <= to.position <= |FileOf(files, from.file)|
            && GivenBy(id, cmd, PlainReplyTo(files, cursors, cmd)) ==
               FileOf(files, from.file)[from.position..to.position]
  {
    if cmd.Read? && cmd.id == id {
      PlainReadMoves(files, cursors[id], cmd.capacity, cmd.events);
    }
  }

  lemma {:induction false} PlainReadsInOrder(files: seq<seq<Byte>>, cursors: map<nat, Cursor>, id: nat,
                                             script: seq<Command>)
    requires Addressable(files) && id in cursors && OnlyReads(id, script)
    requires cursors[id].position <= |FileOf(files, cursors[id].file)|
    ensures |PlainReplies(files, cursors, script)| == |script|
    ensures id in PlainFinal(files, cursors, script)
    ensures var from, to := cursors[id], PlainFinal(files, cursors, script)[id];
            && to == from.(position := to.position)
            && from.position <= to.position <= |FileOf(files, from.file)|
            && Given(id, script, PlainReplies(files, cursors, script)) ==
               FileOf(files, from.file)[from.position..to.position]
    decreases script
  {
    if script != [] {
      var next := PlainStep(files, cursors, script[0]);
      PlainReadsOnce(files, cursors, id, script[0]);
      PlainReadsInOrder(files, next, id, script[1..]);
      Adjacent(FileOf(files, cursors[id].file), cursors[id].position, next[id].position,
               PlainFinal(files, cursors, script)[id].position);
      FirstGiven(id, script, PlainReplyTo(files, cursors, script[0]), PlainReplies(files, next, script[1..]));
    }
  }

  lemma FirstGiven(id: nat, script: seq<Command>, reply: Reply, replies: seq<Reply>)
    requires |script| == |replies| + 1
    ensures Given(id, script, [reply] + replies) == GivenBy(id, script[0], reply) + Given(id, script[1..], replies)
  {
    assert ([reply] + replies)[1..] == replies;
  }

  /**
    Whatever other streams, fills and evictions do, the bytes one stream is given between two
    seeks are the bytes of its file from where it stood to where it stands.
  */
  lemma ReadsReassembleTheFile(files: seq<seq<Byte>>, sys: System, id: nat, script: seq<Command>)
    requires Addressable(files) && Sound(files, sys) && id in sys.streams && OnlyReads(id, script)
    requires sys.streams[id].position <= |FileOf(files, sys.streams[id].file)|
    ensures |Replies(files, sys, script)| == |script| && id in Final(files, sys, script).streams
    ensures var from, to := sys.streams[id], Final(files, sys, script).streams[id];
            && from.position <= to.position <= |FileOf(files, from.file)|
            && Given(id, script, Replies(files, sys, script)) == FileOf(files, from.file)[from.position..to.position]
  {
    RunRefines(files, sys, script);
    PlainReadsInOrder(files, Cursors(sys), id, script);
    var last := Final(files, sys, script);
    assert id in Cursors(last) && Cursors(last)[id] == CursorOf(last.streams[id]);
  }

  /* ---- Behind the real end ---- */

  predicate AllDone(events: seq<Event>) {
    forall i :: 0 <= i < |events| ==> events[i] == Done
  }

  lemma {:induction false} PlainSpinsOn(files: seq<seq<Byte>>, c: Cursor, capacity: nat, dones: seq<Event>,
                                        events: seq<Event>)
    requires c.position < c.length && |FileOf(files, c.file)| <= c.position && AllDone(dones)
    ensures PlainRead(files, c, capacity, dones + events) == PlainRead(files, c, capacity, events)
  {
    if dones == [] {
      assert dones + events == events;
    } else {
      assert (dones + events)[1..] == dones[1..] + events;
      PlainSpinsOn(files, c, capacity, dones[1..], events);
    }
  }

  /**
    A read with room whose fetches all succeed, however many there are, makes progress at the
    first of them; or, exactly if the stream stands before the stated end at or behind the real
    one, it never replies and never moves.
  */
  lemma SpinsIffFileIsShorter(files: seq<seq<Byte>>, shared: Shared, s: Stream, capacity: nat, events: seq<Event>)
    requires Addressable(files) && SoundCache(files, shared.chunks) && SoundStream(s)
    requires s.position < s.length && capacity > 0 && events != [] && AllDone(events)
    ensures var p := Poll(files, shared, s, capacity, events);
            && (p.reply == Spinning <==> |FileOf(files, s.file)| <= s.position)
            && (p.reply == Spinning <==> p.stream.position == s.position)
            && (p.reply != Spinning <==> p.reply.Bytes? && |p.reply.data| > 0)
  {
    PollRefines(files, shared, s, capacity, events);
    if |FileOf(files, s.file)| <= s.position {
      PlainSpinsOn(files, CursorOf(s), capacity, events, []);
      assert events + [] == events;
    }
  }

  /** There the first answer that is not a chunk, a wait or a failure, is what the poll replies. */
  lemma SpinsUntilAnotherAnswer(files: seq<seq<Byte>>, shared: Shared, s: Stream, capacity: nat, dones: seq<Event>,
                                event: Event, later: seq<Event>)
    requires Addressable(files) && SoundCache(files, shared.chunks) && SoundStream(s)
    requires s.position < s.length && |FileOf(files, s.file)| <= s.position && AllDone(dones) && event != Done
    ensures Poll(files, shared, s, capacity, dones + ([event] + later)).reply ==
            if event == NotReady then Pending else Error
  {
    PollRefines(files, shared, s, capacity, dones + ([event] + later));
    PlainSpinsOn(files, CursorOf(s), capacity, dones, [event] + later);
  }
}
