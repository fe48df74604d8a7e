/**
  Keeping a finished file on disk (enginefs/src/disk_cache.rs): the file is put together from
  the pieces in memory and written only if the cache stays within its limit.
*/
module DiskCache {
  import opened Wrappers
  import opened Sequences
  import opened Machine

  /** A directory of the cache, one per torrent, and a name in it. */
  type Path = (string, string)

  type Disk = map<Path, seq<Byte>>

  /** A file of a torrent and the pieces it spans. */
  datatype File = File(hash: string, name: string, size: U64, offset: U64, pieceLength: U64, first: I32, last: I32)

  /** What goes wrong with the disk; a torn write leaves the first bytes. */
  datatype Fault = NoFault | NoDirectory | NoOpen | Torn(bytes: nat)

  /** Where a piece starts. */
  function Start(length: nat, piece: nat): nat {
    if piece == 0 then 0 else Start(length, piece - 1) + length
  }

  lemma {:induction false} StartIsProduct(length: nat, piece: nat)
    ensures Start(length, piece) == piece * length
  {
    if piece > 0 {
      StartIsProduct(length, piece - 1);
    }
  }

  /** The bytes at the start of a piece that belong to earlier files; the product keeps 64 bits. */
  function Skip(f: File, piece: int): nat {
    var start := WrapU64(piece * f.pieceLength);
    if start < f.offset then f.offset - start else 0
  }

  /** What a piece adds to a file of which `have` bytes are there. */
  function Part(f: File, piece: int, data: seq<Byte>, have: nat): (r: seq<Byte>)
    requires have <= f.size
    ensures have + |r| <= f.size
  {
    var skip := Skip(f, piece);
    if |data| <= skip then [] else data[skip..skip + Min(|data| - skip, f.size - have)]
  }

  /** The bytes gathered from the pieces before `k`, if all of those are there. */
  function Gathered(f: File, pieces: map<int, seq<Byte>>, k: int): (r: Option<seq<Byte>>)
    ensures r.Some? ==> |r.value| <= f.size
    decreases k - f.first
  {
    if k <= f.first then Some([])
    else
      var have := Gathered(f, pieces, k - 1);
      if have.None? || (k - 1) !in pieces then None
      else Some(have.value + Part(f, k - 1, pieces[k - 1], |have.value|))
  }

  /** The total size of the files, in whatever order they are counted. */
  ghost function Usage(disk: Disk): nat {
    if disk == map[] then 0
    else
      var p :| p in disk;
      |disk[p]| + Usage(disk - {p})
  }

  /** What the write does to the disk. */
  function Written(disk: Disk, path: Path, data: seq<Byte>, fault: Fault): Disk {
    match fault
    case NoFault => disk[path := data]
    case Torn(n) => disk[path := data[..Min(n, |data|)]]
    case NoDirectory => disk
    case NoOpen => disk
  }

  /** All files but one are as they were. */
  ghost predicate Untouched(before: Disk, after: Disk, path: Path) {
    forall p :: p != path ==> (p in after <==> p in before) && (p in before ==> after[p] == before[p])
  }

  class DiskCacheManager {
    var disk: Disk
    const maxCacheBytes: U64

    constructor (maxCacheBytes: U64, disk: Disk)
      ensures this.maxCacheBytes == maxCacheBytes && this.disk == disk
    {
      this.maxCacheBytes, this.disk := maxCacheBytes, disk;
    }

    method CalculateUsage() returns (total: nat)
      ensures total == Usage(disk)
    {
      total := 0;
      var rest := disk;
      while rest != map[]
        invariant total + Usage(rest) == Usage(disk)
        decreases |rest|
      {
        var p :| p in rest;
        UsageWithout(rest, p);
        total := total + |rest[p]|;
        rest := rest - {p};
      }
    }

    /** The bytes of the file put together, or nothing when a piece is missing. */
    method Reassemble(f: File, pieces: map<int, seq<Byte>>) returns (r: Option<seq<Byte>>)
      ensures r == Gathered(f, pieces, f.last + 1)
    {
      var data: seq<Byte> := [];
      var k: int := f.first;
      while k <= f.last
        invariant f.first <= k && |data| <= f.size
        invariant k <= f.last + 1 || k == f.first
        invariant Gathered(f, pieces, k) == Some(data)
        decreases f.last - k
      {
        if k !in pieces {
          MissingPiece(f, pieces, k, f.last + 1);
          return None;
        }
        var piece := pieces[k];
        var start := WrapU64(k * f.pieceLength);
        var skip := if start < f.offset then f.offset - start else 0;
        var remaining := f.size - |data|;
        var available := if |piece| <= skip then 0 else |piece| - skip;
        var usable := if available <= remaining then available else remaining;
        GatheredNext(f, pieces, k, data);
        assert Part(f, k, piece, |data|) == if usable > 0 then piece[skip..skip + usable] else [];
        if usable > 0 {
          data := data + piece[skip..skip + usable];
        }
        k := k + 1;
      }
      return Some(data);
    }

    /**
      The file is on disk afterwards exactly if the limit allows it, every piece gives its part,
      and the disk does not fail; otherwise at most a torn write has been left.
    */
    method MaybePersistFile(f: File, pieces: map<int, seq<Byte>>, fault: Fault) returns (r: Option<Path>)
      modifies this
      ensures var data := Gathered(f, pieces, f.last + 1);
              var allowed := 0 < maxCacheBytes && old(Usage(disk)) + f.size <= maxCacheBytes;
              var complete := data.Some? && |data.value| == f.size;
              && disk == (if allowed && complete
                          then Written(old(disk), (f.hash, f.name), data.value, fault) else old(disk))
              && r == (if allowed && complete && fault.NoFault? then Some((f.hash, f.name)) else None)
      // What it returns is there, byte for byte, and no other file is touched.
      ensures r.Some? ==> r.value in disk && Gathered(f, pieces, f.last + 1) == Some(disk[r.value])
      ensures Untouched(old(disk), disk, (f.hash, f.name))
      ensures old(Usage(disk)) <= maxCacheBytes ==> Usage(disk) <= maxCacheBytes
    {
      if maxCacheBytes == 0 {
        return None;
      }
      if f.size > maxCacheBytes {
        return None;
      }
      var usage := CalculateUsage();
      if usage + f.size > maxCacheBytes {
        return None;
      }
      if fault.NoDirectory? {
        return None;
      }
      var data := Reassemble(f, pieces);
      if data.None? || |data.value| != f.size {
        return None;
      }
      WrittenUsage(disk, (f.hash, f.name), data.value, fault);
      disk := Written(disk, (f.hash, f.name), data.value, fault);
      return if fault.NoFault? then Some((f.hash, f.name)) else None;
    }
  }

  lemma GatheredNext(f: File, pieces: map<int, seq<Byte>>, k: int, data: seq<Byte>)
    requires f.first <= k && Gathered(f, pieces, k) == Some(data) && k in pieces
    ensures Gathered(f, pieces, k + 1) == Some(data + Part(f, k, pieces[k], |data|))
    ensures data + [] == data
  {
  }

  lemma {:induction false} MissingPiece(f: File, pieces: map<int, seq<Byte>>, k: int, end: int)
    requires f.first <= k < end && k !in pieces
    ensures Gathered(f, pieces, end).None?
    decreases end - k
  {
    if k < end - 1 {
      MissingPiece(f, pieces, k, end - 1);
    }
  }

  /* ---- Usage ---- */

  lemma {:induction false} UsageWithout(disk: Disk, p: Path)
    requires p in disk
    ensures Usage(disk) == |disk[p]| + Usage(disk - {p})
    decreases |disk|
  {
    var q :| q in disk && Usage(disk) == |disk[q]| + Usage(disk - {q});
    if q != p {
      UsageWithout(disk - {q}, p);
      UsageWithout(disk - {p}, q);
      assert disk - {q} - {p} == disk - {p} - {q};
    }
  }

  lemma UsageOfWrite(disk: Disk, p: Path, data: seq<Byte>)
    ensures Usage(disk[p := data]) == Usage(disk - {p}) + |data|
    ensures Usage(disk[p := data]) <= Usage(disk) + |data|
  {
    UsageWithout(disk[p := data], p);
    assert disk[p := data] - {p} == disk - {p};
    if p in disk {
      UsageWithout(disk, p);
    } else {
      assert disk - {p} == disk;
    }
  }

  lemma WrittenUsage(disk: Disk, p: Path, data: seq<Byte>, fault: Fault)
    ensures Usage(Written(disk, p, data, fault)) <= Usage(disk) + |data|
  {
    UsageOfWrite(disk, p, data);
    if fault.Torn? {
      UsageOfWrite(disk, p, data[..Min(fault.bytes, |data|)]);
    }
  }

  /* ---- The gathered bytes are the file ---- */

  /** Piece `i` of a torrent. */
  function PieceOf(torrent: seq<Byte>, length: nat, i: nat): seq<Byte> {
    torrent[Min(Start(length, i), |torrent|)..Min(Start(length, i) + length, |torrent|)]
  }

  /** The first and last piece as the native code finds them, dividing towards zero. */
  predicate NativeRange(f: File) {
    && f.pieceLength > 0
    && f.first == f.offset / f.pieceLength
    && f.last == if f.offset + f.size == 0 then -(1 / f.pieceLength) else (f.offset + f.size - 1) / f.pieceLength
  }

  /** The range in terms of where its pieces start. */
  predicate Spans(f: File) {
    && f.pieceLength > 0
    && f.first >= 0
    && Start(f.pieceLength, f.first) <= f.offset < Start(f.pieceLength, f.first) + f.pieceLength
    && (f.size == 0 ==> f.last <= f.first)
    && (f.size > 0 ==> f.first <= f.last
                       && Start(f.pieceLength, f.last) < f.offset + f.size
                       && f.offset + f.size <= Start(f.pieceLength, f.last) + f.pieceLength)
  }

  lemma Quotient(n: nat, length: nat)
    requires length > 0
    ensures Start(length, n / length) <= n < Start(length, n / length) + length
  {
    StartIsProduct(length, n / length);
  }

  lemma {:induction false} StartsInOrder(length: nat, i: nat, j: nat)
    requires i <= j
    ensures Start(length, i) <= Start(length, j)
    ensures i < j ==> Start(length, i) + length <= Start(length, j)
    decreases j
  {
    if i < j {
      StartsInOrder(length, i, j - 1);
    }
  }

  lemma QuotientsInOrder(m: nat, n: nat, length: nat)
    requires length > 0 && m <= n
    ensures m / length <= n / length
  {
    Quotient(m, length);
    Quotient(n, length);
    if n / length < m / length {
      StartsInOrder(length, n / length, m / length);
    }
  }

  lemma NativeSpans(f: File)
    requires NativeRange(f)
    ensures Spans(f)
  {
    Quotient(f.offset, f.pieceLength);
    if f.size > 0 {
      QuotientsInOrder(f.offset, f.offset + f.size - 1, f.pieceLength);
      Quotient(f.offset + f.size - 1, f.pieceLength);
    } else if f.offset > 0 {
      QuotientsInOrder(f.offset - 1, f.offset, f.pieceLength);
    } else {
      NoQuotient(f.pieceLength);
    }
  }

  lemma NoQuotient(length: nat)
    requires length > 0
    ensures 0 / length == 0 && 1 / length >= 0
  {
  }

  predicate FromTorrent(f: File, pieces: map<int, seq<Byte>>, torrent: seq<Byte>) {
    && f.pieceLength > 0 && f.first >= 0
    && f.offset + f.size <= |torrent| <= U64_MAX
    && forall i: nat :: i in pieces ==> pieces[i] == PieceOf(torrent, f.pieceLength, i)
  }

  predicate AllThere(f: File, pieces: map<int, seq<Byte>>) {
    forall i: nat :: f.first <= i <= f.last ==> i in pieces
  }

  /** Where the file is cut when the pieces before `k` have been taken. */
  function CutAt(f: File, k: nat): (r: nat)
    ensures f.offset <= r <= f.offset + f.size
  {
    Clamp(Start(f.pieceLength, k), f.offset, f.offset + f.size)
  }

  /** Where piece `k` lies when it is in the range. */
  lemma PieceBounds(f: File, k: nat)
    requires Spans(f) && f.first <= k <= f.last
    ensures Start(f.pieceLength, k) <= f.offset + f.size
    ensures f.offset < Start(f.pieceLength, k) + f.pieceLength
    ensures Start(f.pieceLength, k + 1) == Start(f.pieceLength, k) + f.pieceLength
  {
    StartsInOrder(f.pieceLength, f.first, k);
    StartsInOrder(f.pieceLength, k, f.last);
  }

  lemma NextPartAt(f: File, torrent: seq<Byte>, k: nat, start: nat)
    requires start == Start(f.pieceLength, k) && start <= f.offset + f.size <= |torrent| <= U64_MAX
    requires f.offset < start + f.pieceLength
    ensures var from := Max(start, f.offset);
            var to := Min(start + f.pieceLength, f.offset + f.size);
            && from <= to
            && Part(f, k, torrent[start..Min(start + f.pieceLength, |torrent|)], from - f.offset) == torrent[from..to]
  {
    StartIsProduct(f.pieceLength, k);
    var end := Min(start + f.pieceLength, |torrent|);
    var skip := Skip(f, k);
    if end - start > skip {
      SliceOfSlice(torrent, start, end, skip, Min(end - start - skip, f.offset + f.size - Max(start, f.offset)));
    }
  }

  /** A piece of the range adds exactly the stretch of the file that lies in it. */
  lemma NextPart(f: File, torrent: seq<Byte>, k: nat)
    requires Spans(f) && f.offset + f.size <= |torrent| <= U64_MAX && f.first <= k <= f.last
    ensures CutAt(f, k) <= CutAt(f, k + 1)
    ensures Part(f, k, PieceOf(torrent, f.pieceLength, k), CutAt(f, k) - f.offset) ==
            torrent[CutAt(f, k)..CutAt(f, k + 1)]
  {
    var start := Start(f.pieceLength, k);
    PieceBounds(f, k);
    assert CutAt(f, k) == Max(start, f.offset);
    assert CutAt(f, k + 1) == Min(start + f.pieceLength, f.offset + f.size);
    assert PieceOf(torrent, f.pieceLength, k) == torrent[start..Min(start + f.pieceLength, |torrent|)];
    NextPartAt(f, torrent, k, start);
  }

  predicate PieceFits(f: File, pieces: map<int, seq<Byte>>, torrent: seq<Byte>, i: nat) {
    i in pieces && pieces[i] == PieceOf(torrent, f.pieceLength, i)
  }

  lemma {:induction false} GatheredIsCut(f: File, pieces: map<int, seq<Byte>>, torrent: seq<Byte>, k: nat)
    requires Spans(f) && f.offset + f.size <= |torrent| <= U64_MAX && f.first <= k <= f.last + 1
    requires forall i: nat :: f.first <= i < k ==> PieceFits(f, pieces, torrent, i)
    ensures Gathered(f, pieces, k) == Some(torrent[f.offset..CutAt(f, k)])
  {
    if k == f.first {
      NothingYet(f, torrent);
    } else {
      GatheredIsCut(f, pieces, torrent, k - 1);
      assert PieceFits(f, pieces, torrent, k - 1);
      GatheredGrows(f, pieces, torrent, k - 1);
    }
  }

  lemma NothingYet(f: File, torrent: seq<Byte>)
    requires Spans(f) && f.offset + f.size <= |torrent|
    ensures torrent[f.offset..CutAt(f, f.first)] == []
  {
  }

  lemma GatheredGrows(f: File, pieces: map<int, seq<Byte>>, torrent: seq<Byte>, k: nat)
    requires Spans(f) && f.offset + f.size <= |torrent| <= U64_MAX && f.first <= k <= f.last
    requires k in pieces && pieces[k] == PieceOf(torrent, f.pieceLength, k)
    requires Gathered(f, pieces, k) == Some(torrent[f.offset..CutAt(f, k)])
    ensures Gathered(f, pieces, k + 1) == Some(torrent[f.offset..CutAt(f, k + 1)])
  {
    NextPart(f, torrent, k);
    Adjacent(torrent, f.offset, CutAt(f, k), CutAt(f, k + 1));
  }

  /**
    With the native range and pieces of one torrent, the gathered bytes are the file's own slice
    of the torrent, and there is a result exactly when every piece of the range is there.
  */
  lemma GathersTheSliceIff(f: File, pieces: map<int, seq<Byte>>, torrent: seq<Byte>)
    requires NativeRange(f) && FromTorrent(f, pieces, torrent)
    ensures Gathered(f, pieces, f.last + 1) ==
            if AllThere(f, pieces) then Some(torrent[f.offset..f.offset + f.size]) else None
  {
    NativeSpans(f);
    GathersTheSpan(f, pieces, torrent);
  }

  lemma EndOfSpan(f: File)
    requires Spans(f) && f.first <= f.last
    ensures CutAt(f, f.last + 1) == f.offset + f.size
  {
    assert Start(f.pieceLength, f.last + 1) == Start(f.pieceLength, f.last) + f.pieceLength;
  }

  lemma FullSpan(f: File, pieces: map<int, seq<Byte>>, torrent: seq<Byte>)
    requires Spans(f) && FromTorrent(f, pieces, torrent) && f.first <= f.last && AllThere(f, pieces)
    ensures Gathered(f, pieces, f.last + 1) == Some(torrent[f.offset..f.offset + f.size])
  {
    EndOfSpan(f);
    forall i: nat | f.first <= i <= f.last
      ensures PieceFits(f, pieces, torrent, i)
    {
    }
    GatheredIsCut(f, pieces, torrent, f.last + 1);
  }

  lemma GathersTheSpan(f: File, pieces: map<int, seq<Byte>>, torrent: seq<Byte>)
    requires Spans(f) && FromTorrent(f, pieces, torrent)
    ensures AllThere(f, pieces) ==>
              Gathered(f, pieces, f.last + 1) == Some(torrent[f.offset..f.offset + f.size])
    ensures !AllThere(f, pieces) ==> Gathered(f, pieces, f.last + 1).None?
  {
    if f.last < f.first {
      assert torrent[f.offset..f.offset] == [];
    } else if AllThere(f, pieces) {
      FullSpan(f, pieces, torrent);
    } else {
      var i: nat :| f.first <= i <= f.last && i !in pieces;
      MissingPiece(f, pieces, i, f.last + 1);
    }
  }
}

/** What the cache has done after any sequence of attempts. */
module DiskCacheRuns {
  import opened Machine
  import opened DiskCache

  datatype Attempt = Attempt(file: File, pieces: map<int, seq<Byte>>, torrent: seq<Byte>, fault: Fault)

  /** Pieces are those of the torrent the file is in. */
  predicate Good(a: Attempt) {
    NativeRange(a.file) && FromTorrent(a.file, a.pieces, a.torrent)
  }

  /** The file as the torrent has it. */
  function Slice(a: Attempt): seq<Byte>
    requires Good(a)
  {
    a.torrent[a.file.offset..a.file.offset + a.file.size]
  }

  /** What a write of the file leaves: all of it, or its beginning when the write is torn. */
  function LeftBy(a: Attempt): seq<Byte>
    requires Good(a)
  {
    if a.fault.Torn? then Slice(a)[..Min(a.fault.bytes, |Slice(a)|)] else Slice(a)
  }

  predicate Left(a: Attempt, path: Path, data: seq<Byte>) {
    Good(a) && path == (a.file.hash, a.file.name) && data == LeftBy(a)
  }

  /** A file on disk is one that was there before, or what the write of some attempt left. */
  ghost predicate Accounted(before: Disk, after: Disk, attempts: seq<Attempt>) {
    forall p :: p in after ==>
      || (p in before && after[p] == before[p])
      || exists i :: 0 <= i < |attempts| && Left(attempts[i], p, after[p])
  }

  function PathOf(a: Attempt): Path {
    (a.file.hash, a.file.name)
  }

  /** The file an attempt reports as kept is on disk, until another attempt is made for it. */
  ghost predicate KeptFiles(after: Disk, attempts: seq<Attempt>, kept: seq<bool>)
    requires |kept| == |attempts|
  {
    forall i :: 0 <= i < |attempts| && kept[i] && Good(attempts[i])
                && (forall j :: i < j < |attempts| ==> PathOf(attempts[j]) != PathOf(attempts[i])) ==>
      PathOf(attempts[i]) in after && after[PathOf(attempts[i])] == Slice(attempts[i])
  }

  lemma OneMoreKept(before: Disk, after: Disk, attempts: seq<Attempt>, kept: seq<bool>, a: Attempt, ok: bool)
    requires |kept| == |attempts| && KeptFiles(before, attempts, kept) && Good(a) && Untouched(before, after, PathOf(a))
    requires ok ==> PathOf(a) in after && after[PathOf(a)] == Slice(a)
    ensures KeptFiles(after, attempts + [a], kept + [ok])
  {
    var longer := attempts + [a];
    forall i | 0 <= i < |longer| && (kept + [ok])[i] && Good(longer[i])
               && (forall j :: i < j < |longer| ==> PathOf(longer[j]) != PathOf(longer[i]))
      ensures PathOf(longer[i]) in after && after[PathOf(longer[i])] == Slice(longer[i])
    {
      if i < |attempts| {
        assert longer[i] == attempts[i] && longer[|attempts|] == a;
        forall j | i < j < |attempts|
          ensures PathOf(attempts[j]) != PathOf(attempts[i])
        {
          assert longer[j] == attempts[j];
        }
      }
    }
  }

  /** One attempt leaves the disk as it was or adds what the write left: the slice, if the file is reported as kept. */
  method PersistOne(manager: DiskCacheManager, a: Attempt) returns (ok: bool)
    requires Good(a)
    modifies manager
    ensures old(Usage(manager.disk)) <= manager.maxCacheBytes ==> Usage(manager.disk) <= manager.maxCacheBytes
    ensures manager.disk == old(manager.disk) || manager.disk == old(manager.disk)[PathOf(a) := LeftBy(a)]
    ensures Untouched(old(manager.disk), manager.disk, PathOf(a))
    ensures ok ==> PathOf(a) in manager.disk && manager.disk[PathOf(a)] == Slice(a)
  {
    WriteOf(a, manager.disk);
    GathersTheSliceIff(a.file, a.pieces, a.torrent);
    var path := manager.MaybePersistFile(a.file, a.pieces, a.fault);
    return path.Some?;
  }

  /**
    Any number of attempts one after the other: usage stays within the limit, every file that
    was written is the exact slice of its torrent, or the beginning of it if its write was torn,
    and a file reported as kept is there.
  */
  method PersistAll(manager: DiskCacheManager, attempts: seq<Attempt>) returns (kept: seq<bool>)
    requires forall i :: 0 <= i < |attempts| ==> Good(attempts[i])
    modifies manager
    ensures old(Usage(manager.disk)) <= manager.maxCacheBytes ==> Usage(manager.disk) <= manager.maxCacheBytes
    ensures Accounted(old(manager.disk), manager.disk, attempts)
    ensures |kept| == |attempts| && KeptFiles(manager.disk, attempts, kept)
  {
    kept := [];
    ghost var seen: seq<Attempt> := [];
    for i := 0 to |attempts|
      invariant seen == attempts[..i] && |kept| == |seen|
      invariant old(Usage(manager.disk)) <= manager.maxCacheBytes ==> Usage(manager.disk) <= manager.maxCacheBytes
      invariant Progress(old(manager.disk), manager.disk, seen, kept)
    {
      ghost var before := manager.disk;
      var ok := PersistOne(manager, attempts[i]);
      OneMore(old(manager.disk), before, manager.disk, seen, attempts[i]);
      OneMoreKept(before, manager.disk, seen, kept, attempts[i], ok);
      kept, seen := kept + [ok], seen + [attempts[i]];
    }
    assert attempts[..|attempts|] == attempts;
  }

  ghost predicate Progress(first: Disk, now: Disk, seen: seq<Attempt>, kept: seq<bool>)
    requires |kept| == |seen|
  {
    Accounted(first, now, seen) && KeptFiles(now, seen, kept)
  }

  /** A write of gathered bytes leaves the slice, its beginning, or the disk as it was. */
  lemma WriteOf(a: Attempt, disk: Disk)
    requires Good(a)
    ensures var data := Gathered(a.file, a.pieces, a.file.last + 1);
            var path := (a.file.hash, a.file.name);
            data.Some? ==>
              Written(disk, path, data.value, a.fault) == disk
              || Written(disk, path, data.value, a.fault) == disk[path := LeftBy(a)]
  {
    GathersTheSliceIff(a.file, a.pieces, a.torrent);
  }

  lemma OneMore(first: Disk, before: Disk, after: Disk, attempts: seq<Attempt>, a: Attempt)
    requires Accounted(first, before, attempts) && Good(a)
    requires after == before || after == before[(a.file.hash, a.file.name) := LeftBy(a)]
    ensures Accounted(first, after, attempts + [a])
  {
    var longer := attempts + [a];
    forall p | p in after && !(p in first && after[p] == first[p])
      ensures exists i :: 0 <= i < |longer| && Left(longer[i], p, after[p])
    {
      if p in before && after[p] == before[p] {
        var i :| 0 <= i < |attempts| && Left(attempts[i], p, before[p]);
        assert longer[i] == attempts[i];
      } else {
        assert Left(longer[|attempts|], p, after[p]);
      }
    }
  }
}
