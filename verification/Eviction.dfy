/**
  The periodic clean-up of the download directories (server/src/cache_cleaner.rs): old files go,
  and while the rest is over the limit the files changed longest ago go, as far as they fit in it.
*/
module Eviction {
  import opened Wrappers

  /** A path by its components. */
  type Path = seq<string>

  const METADATA: string := ".metadata"

  /** Thirty days in nanoseconds, the unit of all times here. */
  const MONTH: int := 30 * 24 * 60 * 60 * 1_000_000_000

  /** A file met on the walk; what the file system does not tell is missing. */
  datatype Entry = Entry(path: Path, size: Option<nat>, modified: Option<int>)

  predicate Considered(e: Entry) {
    METADATA !in e.path && e.size.Some?
  }

  /** The path is protected itself or lies below a protected one. */
  predicate IsProtected(path: Path, protectedPaths: set<Path>) {
    exists p :: p in protectedPaths && p <= path
  }

  predicate Expired(e: Entry, now: int) {
    e.modified.Some? && now - e.modified.value > MONTH
  }

  /** A file that may be deleted for its size. */
  predicate Candidate(e: Entry, protectedPaths: set<Path>, now: int) {
    Considered(e) && !IsProtected(e.path, protectedPaths) && !Expired(e, now)
  }

  function TimeOf(e: Entry): int {
    e.modified.GetOr(0)
  }

  function SizeOf(e: Entry): nat {
    e.size.GetOr(0)
  }

  /** No file is listed twice. */
  predicate DistinctPaths(entries: seq<Entry>) {
    forall i, j :: 0 <= i < j < |entries| ==> entries[i].path != entries[j].path
  }

  /** A file that is listed twice, by nested directories, is listed with the same size and time. */
  predicate Consistent(entries: seq<Entry>) {
    forall e, d :: e in entries && d in entries && e.path == d.path ==> e == d
  }

  predicate Among(entries: seq<Entry>, path: Path) {
    exists e :: e in entries && e.path == path
  }

  /** The size of the considered files that are present, each file once. */
  function OnDisk(entries: seq<Entry>, present: set<Path>): nat {
    if entries == [] then 0
    else
      var init, last := entries[..|entries| - 1], entries[|entries| - 1];
      OnDisk(init, present) +
      if Considered(last) && last.path in present && !Among(init, last.path) then SizeOf(last) else 0
  }

  /** What the further listings of files that are listed more than once add up to. */
  function Repeats(entries: seq<Entry>, present: set<Path>): nat {
    if entries == [] then 0
    else
      var init, last := entries[..|entries| - 1], entries[|entries| - 1];
      Repeats(init, present) +
      if Considered(last) && last.path in present && Among(init, last.path) then SizeOf(last) else 0
  }

  function Sizes(entries: seq<Entry>): nat {
    if entries == [] then 0 else Sizes(entries[..|entries| - 1]) + SizeOf(entries[|entries| - 1])
  }

  lemma {:induction false} Unlisted(entries: seq<Entry>, present: set<Path>, path: Path)
    requires forall i :: 0 <= i < |entries| ==> entries[i].path != path
    ensures OnDisk(entries, present - {path}) == OnDisk(entries, present)
    ensures Repeats(entries, present - {path}) == Repeats(entries, present)
  {
    if entries != [] {
      Unlisted(entries[..|entries| - 1], present, path);
    }
  }

  lemma OneMoreListed(entries: seq<Entry>, e: Entry, present: set<Path>)
    ensures OnDisk(entries + [e], present) + Repeats(entries + [e], present) ==
            OnDisk(entries, present) + Repeats(entries, present) +
            if Considered(e) && e.path in present then SizeOf(e) else 0
  {
    assert (entries + [e])[..|entries|] == entries;
  }

  /** Deleting a file takes its size off what is on disk, once. */
  lemma {:induction false} OnDiskAfterDelete(entries: seq<Entry>, present: set<Path>, e: Entry)
    requires Consistent(entries) && e in entries && Considered(e) && e.path in present
    ensures OnDisk(entries, present) == OnDisk(entries, present - {e.path}) + SizeOf(e)
  {
    var init, last := entries[..|entries| - 1], entries[|entries| - 1];
    assert Consistent(init);
    if e in init {
      OnDiskAfterDelete(init, present, e);
    } else {
      forall i | 0 <= i < |init|
        ensures init[i].path != e.path
      {
        assert init[i] in init && init[i] in entries;
      }
      Unlisted(init, present, e.path);
    }
  }

  lemma {:induction false} NoRepeatsIff(entries: seq<Entry>, present: set<Path>)
    ensures Repeats(entries, present) == 0 <==> !CountedTwice(entries, present)
  {
    if entries != [] {
      var init, last := entries[..|entries| - 1], entries[|entries| - 1];
      NoRepeatsIff(init, present);
      if CountedTwice(init, present) {
        var i, j :| Twice(init, i, j, present);
        assert Twice(entries, i, j, present);
      }
      if Among(init, last.path) {
        var i :| 0 <= i < |init| && init[i].path == last.path;
        if Considered(last) && last.path in present && SizeOf(last) > 0 {
          assert Twice(entries, i, |entries| - 1, present);
        }
      }
      forall i: nat, j: nat | Twice(entries, i, j, present)
        ensures Repeats(entries, present) > 0
      {
        if j < |init| {
          assert Twice(init, i, j, present);
        } else {
          assert init[i] in init;
        }
      }
    }
  }

  /** The listing at `j` counts a file with a size again that the listing at `i` has counted. */
  predicate Twice(entries: seq<Entry>, i: nat, j: nat, present: set<Path>) {
    && i < j < |entries| && entries[i].path == entries[j].path && entries[j].path in present
    && Considered(entries[j]) && SizeOf(entries[j]) > 0
  }

  ghost predicate CountedTwice(entries: seq<Entry>, present: set<Path>) {
    exists i: nat, j: nat :: Twice(entries, i, j, present)
  }

  /* ---- The stable sort by time ---- */

  predicate OldestFirst(entries: seq<Entry>) {
    forall i, j :: 0 <= i < j < |entries| ==> TimeOf(entries[i]) <= TimeOf(entries[j])
  }

  /** Behind all entries that are not newer. */
  function Insert(e: Entry, sorted: seq<Entry>): (r: seq<Entry>)
    requires OldestFirst(sorted)
    ensures OldestFirst(r) && forall x :: x in r <==> x == e || x in sorted
  {
    if sorted == [] then [e]
    else
      var last := sorted[|sorted| - 1];
      if TimeOf(last) <= TimeOf(e) then sorted + [e]
      else
        var rest := Insert(e, sorted[..|sorted| - 1]);
        assert forall x :: x in rest ==> TimeOf(x) <= TimeOf(last);
        rest + [last]
  }

  function SortedByTime(entries: seq<Entry>): (r: seq<Entry>)
    ensures OldestFirst(r) && forall x :: x in r <==> x in entries
  {
    if entries == [] then [] else Insert(entries[|entries| - 1], SortedByTime(entries[..|entries| - 1]))
  }

  /* ---- The clean-up ---- */

  /** An expired file that could be deleted. */
  predicate Gone(e: Entry, protectedPaths: set<Path>, now: int, stuck: set<Path>) {
    Considered(e) && !IsProtected(e.path, protectedPaths) && Expired(e, now) && e.path !in stuck
  }

  /** The path is that of an expired file that could be deleted. */
  predicate GoneAmong(entries: seq<Entry>, path: Path, protectedPaths: set<Path>, now: int, stuck: set<Path>) {
    exists e :: e in entries && e.path == path && Gone(e, protectedPaths, now, stuck)
  }

  /** Of the files seen, the candidates still there are listed, and exactly those that had to go are gone. */
  ghost predicate Walked(seen: seq<Entry>, files: seq<Entry>, first: set<Path>, present: set<Path>,
                         protectedPaths: set<Path>, now: int, stuck: set<Path>)
  {
    && (forall e :: e in files <==> e in seen && Candidate(e, protectedPaths, now) && e.path in present)
    && (forall p :: p in present <==> p in first && !GoneAmong(seen, p, protectedPaths, now, stuck))
  }

  lemma WalkedOn(seen: seq<Entry>, e: Entry, files: seq<Entry>, first: set<Path>, present: set<Path>,
                 protectedPaths: set<Path>, now: int, stuck: set<Path>)
    requires Walked(seen, files, first, present, protectedPaths, now, stuck)
    requires e.path !in present || (!Candidate(e, protectedPaths, now) && !Gone(e, protectedPaths, now, stuck))
    ensures Walked(seen + [e], files, first, present, protectedPaths, now, stuck)
  {
  }

  lemma WalkedListing(seen: seq<Entry>, e: Entry, files: seq<Entry>, first: set<Path>, present: set<Path>,
                      protectedPaths: set<Path>, now: int, stuck: set<Path>)
    requires Walked(seen, files, first, present, protectedPaths, now, stuck)
    requires e.path in present && Candidate(e, protectedPaths, now)
    ensures Walked(seen + [e], files + [e], first, present, protectedPaths, now, stuck)
  {
  }

  lemma WalkedDeleting(seen: seq<Entry>, e: Entry, files: seq<Entry>, first: set<Path>, present: set<Path>,
                       protectedPaths: set<Path>, now: int, stuck: set<Path>)
    requires Walked(seen, files, first, present, protectedPaths, now, stuck)
    requires Consistent(seen + [e]) && e.path in present && Gone(e, protectedPaths, now, stuck)
    ensures Walked(seen + [e], files, first, present - {e.path}, protectedPaths, now, stuck)
    ensures forall j :: 0 <= j < |seen| ==> seen[j].path != e.path
  {
    forall j | 0 <= j < |seen|
      ensures seen[j].path != e.path
    {
      assert seen[j] in seen + [e] && e in seen + [e];
    }
  }

  /** The files of the start that the walk leaves. */
  ghost function Left(entries: seq<Entry>, first: set<Path>, protectedPaths: set<Path>, now: int,
                      stuck: set<Path>): set<Path>
  {
    set p | p in first && !GoneAmong(entries, p, protectedPaths, now, stuck)
  }

  class Disk {
    var present: set<Path>
    const stuck: set<Path>

    /** A file that is still there though it could have been evicted. */
    predicate Spared(e: Entry, limit: nat)
      reads this
    {
      e.path in present && SizeOf(e) <= limit && e.path !in stuck
    }

    /** Deletes a file, unless it is gone already or the file system refuses. */
    method Remove(path: Path) returns (ok: bool)
      modifies this
      ensures ok <==> path in old(present) && path !in stuck
      ensures present == if ok then old(present) - {path} else old(present)
    {
      ok := path in present && path !in stuck;
      if ok {
        present := present - {path};
      }
    }

    /** The walk: of the files it meets, expired ones go, the rest is counted, the candidates are listed. */
    method Scan(entries: seq<Entry>, protectedPaths: set<Path>, now: int) returns (total: nat, files: seq<Entry>)
      requires Consistent(entries)
      modifies this
      ensures total == OnDisk(entries, present) + Repeats(entries, present)
      ensures Walked(entries, files, old(present), present, protectedPaths, now, stuck)
    {
      total, files := 0, [];
      for i := 0 to |entries|
        invariant total == OnDisk(entries[..i], present) + Repeats(entries[..i], present)
        invariant Walked(entries[..i], files, old(present), present, protectedPaths, now, stuck)
      {
        var e := entries[i];
        ghost var seen, before := entries[..i], present;
        assert entries[..i + 1] == seen + [e];
        OneMoreListed(seen, e, present);
        if e.path in present && Considered(e) {
          if IsProtected(e.path, protectedPaths) {
            WalkedOn(seen, e, files, old(present), present, protectedPaths, now, stuck);
            total := total + e.size.value;
          } else if Expired(e, now) {
            var ok := Remove(e.path);
            if ok {
              WalkedDeleting(seen, e, files, old(present), before, protectedPaths, now, stuck);
              Unlisted(seen, before, e.path);
              OneMoreListed(seen, e, present);
            } else {
              WalkedOn(seen, e, files, old(present), present, protectedPaths, now, stuck);
              total := total + e.size.value;
            }
          } else {
            WalkedListing(seen, e, files, old(present), present, protectedPaths, now, stuck);
            total := total + e.size.value;
            files := files + [e];
          }
        } else {
          WalkedOn(seen, e, files, old(present), present, protectedPaths, now, stuck);
        }
      }
      assert entries[..|entries|] == entries;
    }

    /** The eviction: in the given order, until the total is within the limit. */
    method EvictOldest(entries: seq<Entry>, files: seq<Entry>, total0: nat, limit: nat)
      returns (total: nat, evicted: seq<Entry>)
      requires Consistent(entries) && OldestFirst(files) && total0 >= OnDisk(entries, present)
      requires forall e :: e in files ==> e in entries && Considered(e)
      modifies this
      ensures total - OnDisk(entries, present) == total0 - OnDisk(entries, old(present))
      ensures Evicts(files, evicted, old(present), present, stuck, limit)
      ensures EachNeeded(evicted, total, limit)
      ensures total <= limit || Settled(files, present, stuck, limit)
      ensures forall e, d :: e in files && Spared(e, limit) && d in evicted ==> TimeOf(d) <= TimeOf(e)
    {
      total, evicted := total0, [];
      var i := 0;
      while i < |files| && total > limit
        invariant 0 <= i <= |files|
        invariant total - OnDisk(entries, present) == total0 - OnDisk(entries, old(present))
        invariant Evicts(files[..i], evicted, old(present), present, stuck, limit)
        invariant EachNeeded(evicted, total, limit)
        invariant Settled(files[..i], present, stuck, limit)
      {
        var e := files[i];
        ghost var seen, before := files[..i], present;
        assert files[..i + 1] == seen + [e];
        EvictsOn(seen, e, evicted, old(present), present, stuck, limit);
        OldestAtFront(files, i + 1);
        if SizeOf(e) <= limit {
          var ok := Remove(e.path);
          if ok {
            EvictsOneMore(seen, e, evicted, old(present), before, stuck, limit);
            OnDiskAfterDelete(entries, before, e);
            NeededOneMore(evicted, e, total - SizeOf(e), limit);
            total := total - SizeOf(e);
            evicted := evicted + [e];
          }
        }
        SettledOn(seen, e, before, present, stuck, limit);
        i := i + 1;
      }
      assert files[..|files|] == files;
      EvictsMore(files, i, evicted, old(present), present, stuck, limit);
      SparedAreNewer(files, i, evicted, old(present), present, stuck, limit);
    }

    method CleanCache(entries: seq<Entry>, protectedPaths: set<Path>, now: int, limit: nat)
      returns (total: nat, evicted: seq<Entry>)
      requires Consistent(entries)
      modifies this
      // What is tracked is what is on disk, exactly if the walk left no file with a size that is listed twice.
      ensures var left := Left(entries, old(present), protectedPaths, now, stuck);
              total == OnDisk(entries, present) + Repeats(entries, left)
      ensures var left := Left(entries, old(present), protectedPaths, now, stuck);
              total == OnDisk(entries, present) <==> !CountedTwice(entries, left)
      // What goes: the expired files and the evicted ones, as far as they can be deleted.
      ensures forall p :: p in present <==>
                p in old(present) && !GoneAmong(entries, p, protectedPaths, now, stuck) && !Among(evicted, p)
      ensures forall e :: e in evicted ==>
                e in entries && Candidate(e, protectedPaths, now) && SizeOf(e) <= limit && e.path !in stuck
      ensures limit == 0 ==> evicted == []
      // The result is within the limit, or what survives is protected, too large or stuck.
      ensures 0 < limit < total ==> forall e :: e in entries && Considered(e) && e.path in present ==>
                IsProtected(e.path, protectedPaths) || SizeOf(e) > limit || e.path in stuck
      // Oldest first, each file once, and none once within the limit.
      ensures OldestFirst(evicted) && DistinctPaths(evicted) && EachNeeded(evicted, total, limit)
      ensures forall e, d :: e in entries && Candidate(e, protectedPaths, now) && Spared(e, limit) && d in evicted ==>
                TimeOf(d) <= TimeOf(e)
      // Nothing is evicted without need.
      ensures var left := Left(entries, old(present), protectedPaths, now, stuck);
              limit == 0 || OnDisk(entries, left) + Repeats(entries, left) <= limit ==> evicted == []
      // What may never go, what has to go, and what alone may.
      ensures forall p :: p in old(present) && Sacred(p, protectedPaths) ==> p in present
      ensures forall e :: e in entries && TooOld(e, now) && !Sacred(e.path, protectedPaths) && e.path !in stuck ==>
                e.path !in present
      ensures forall p :: p in old(present) && p !in present ==>
                p !in stuck && (exists e :: e in entries && e.path == p && (TooOld(e, now) || e in evicted))
    {
      ghost var first := present;
      var files;
      total, files := Scan(entries, protectedPaths, now);
      assert present == Left(entries, old(present), protectedPaths, now, stuck);
      NoRepeatsIff(entries, present);
      evicted := [];
      if limit > 0 && total > limit {
        total, evicted := EvictOldest(entries, SortedByTime(files), total, limit);
      }
      WhatGoes(entries, evicted, first, present, protectedPaths, now, stuck);
    }
  }

  /** A path with metadata, a protected path or one below it. */
  ghost predicate Sacred(path: Path, protectedPaths: set<Path>) {
    ".metadata" in path || exists p :: p in protectedPaths && p <= path
  }

  /** A file of known size and time, changed more than thirty days ago. */
  predicate TooOld(e: Entry, now: int) {
    e.size.Some? && e.modified.Some? && now - e.modified.value > 2_592_000_000_000_000
  }

  lemma WhatGoes(entries: seq<Entry>, evicted: seq<Entry>, first: set<Path>, present: set<Path>,
                 protectedPaths: set<Path>, now: int, stuck: set<Path>)
    requires forall p :: p in present <==>
               p in first && !GoneAmong(entries, p, protectedPaths, now, stuck) && !Among(evicted, p)
    requires forall e :: e in evicted ==> e in entries && Candidate(e, protectedPaths, now) && e.path !in stuck
    ensures forall p :: p in first && Sacred(p, protectedPaths) ==> p in present
    ensures forall e :: e in entries && TooOld(e, now) && !Sacred(e.path, protectedPaths) && e.path !in stuck ==>
              e.path !in present
    ensures forall p :: p in first && p !in present ==>
              p !in stuck && (exists e :: e in entries && e.path == p && (TooOld(e, now) || e in evicted))
  {
    forall e | e in entries && TooOld(e, now) && !Sacred(e.path, protectedPaths) && e.path !in stuck
      ensures e.path !in present
    {
      assert Gone(e, protectedPaths, now, stuck);
    }
  }

  /* ---- Files of one time keep their order ---- */

  function AtTime(entries: seq<Entry>, t: int): seq<Entry> {
    if entries == [] then []
    else
      var last := entries[|entries| - 1];
      AtTime(entries[..|entries| - 1], t) + if TimeOf(last) == t then [last] else []
  }

  lemma AtTimeOfLonger(entries: seq<Entry>, e: Entry, t: int)
    ensures AtTime(entries + [e], t) == AtTime(entries, t) + if TimeOf(e) == t then [e] else []
  {
    assert (entries + [e])[..|entries|] == entries;
  }

  lemma {:induction false} InsertIsStable(e: Entry, sorted: seq<Entry>, t: int)
    requires OldestFirst(sorted)
    ensures AtTime(Insert(e, sorted), t) == AtTime(sorted, t) + if TimeOf(e) == t then [e] else []
  {
    if sorted == [] {
      AtTimeOfLonger([], e, t);
      assert [] + [e] == [e];
    } else {
      var init, last := sorted[..|sorted| - 1], sorted[|sorted| - 1];
      assert sorted == init + [last];
      if TimeOf(last) <= TimeOf(e) {
        AtTimeOfLonger(sorted, e, t);
      } else {
        InsertIsStable(e, init, t);
        AtTimeOfLonger(Insert(e, init), last, t);
        AtTimeOfLonger(init, last, t);
      }
    }
  }

  /** The sort keeps all files, and those of one time in the order in which they were met. */
  lemma {:induction false} SortIsStable(entries: seq<Entry>, t: int)
    ensures AtTime(SortedByTime(entries), t) == AtTime(entries, t)
  {
    if entries != [] {
      SortIsStable(entries[..|entries| - 1], t);
      InsertIsStable(entries[|entries| - 1], SortedByTime(entries[..|entries| - 1]), t);
    }
  }

  /**
    A file listed twice beside another is on disk once and counted twice: of 10 and 6 bytes, 26
    are counted where 16 are.
  */
  lemma TwiceListedIsTwiceCounted(e: Entry, f: Entry)
    requires Considered(e) && Considered(f) && e.path != f.path && SizeOf(e) > 0
    ensures var entries, present := [e, e, f], {e.path, f.path};
            && Consistent(entries) && CountedTwice(entries, present)
            && OnDisk(entries, present) == SizeOf(e) + SizeOf(f) && Repeats(entries, present) == SizeOf(e)
  {
    var present := {e.path, f.path};
    var two := [e] + [e];
    ListedAlone(e, present);
    assert e in [e] && Among([e], e.path);
    ListedBehind([e], e, present);
    NotAmong(two, e, f.path);
    ListedBehind(two, f, present);
    assert [e, e, f] == two + [f];
    assert Twice([e, e, f], 0, 1, present);
  }

  lemma NotAmong(entries: seq<Entry>, e: Entry, path: Path)
    requires path != e.path && forall x :: x in entries ==> x == e
    ensures !Among(entries, path)
  {
  }

  lemma ListedAlone(e: Entry, present: set<Path>)
    requires Considered(e) && e.path in present
    ensures OnDisk([e], present) == SizeOf(e) && Repeats([e], present) == 0
  {
    assert !Among([], e.path);
    ListedBehind([], e, present);
    assert [] + [e] == [e];
  }

  lemma ListedBehind(entries: seq<Entry>, e: Entry, present: set<Path>)
    ensures OnDisk(entries + [e], present) ==
            OnDisk(entries, present) +
            if Considered(e) && e.path in present && !Among(entries, e.path) then SizeOf(e) else 0
    ensures Repeats(entries + [e], present) ==
            Repeats(entries, present) +
            if Considered(e) && e.path in present && Among(entries, e.path) then SizeOf(e) else 0
  {
    assert (entries + [e])[..|entries|] == entries;
  }

  /** Some of the files are evicted, oldest first and each once, and nothing else is gone. */
  ghost predicate Evicts(files: seq<Entry>, evicted: seq<Entry>, first: set<Path>, present: set<Path>, stuck: set<Path>,
                         limit: nat)
  {
    && (forall p :: p in present <==> p in first && !Among(evicted, p))
    && (forall e :: e in evicted ==> e in files && SizeOf(e) <= limit && e.path !in stuck)
    && OldestFirst(evicted) && DistinctPaths(evicted)
  }

  lemma EvictsOn(seen: seq<Entry>, e: Entry, evicted: seq<Entry>, first: set<Path>, present: set<Path>,
                 stuck: set<Path>, limit: nat)
    requires Evicts(seen, evicted, first, present, stuck, limit)
    ensures Evicts(seen + [e], evicted, first, present, stuck, limit)
  {
  }

  lemma EvictsMore(files: seq<Entry>, i: nat, evicted: seq<Entry>, first: set<Path>, present: set<Path>,
                   stuck: set<Path>, limit: nat)
    requires i <= |files| && Evicts(files[..i], evicted, first, present, stuck, limit)
    ensures Evicts(files, evicted, first, present, stuck, limit)
  {
  }

  lemma EvictsOneMore(seen: seq<Entry>, e: Entry, evicted: seq<Entry>, first: set<Path>, present: set<Path>,
                      stuck: set<Path>, limit: nat)
    requires Evicts(seen, evicted, first, present, stuck, limit) && OldestFirst(seen + [e])
    requires e.path in present && e.path !in stuck && SizeOf(e) <= limit
    ensures Evicts(seen + [e], evicted + [e], first, present - {e.path}, stuck, limit)
  {
    forall i | 0 <= i < |evicted|
      ensures TimeOf(evicted[i]) <= TimeOf(e) && evicted[i].path != e.path
    {
      assert evicted[i] in evicted && evicted[i] in seen;
      var k :| 0 <= k < |seen| && seen[k] == evicted[i];
      assert (seen + [e])[k] == seen[k] && (seen + [e])[|seen|] == e;
    }
  }

  /** What is left of the files is too large or cannot be deleted. */
  predicate Settled(files: seq<Entry>, present: set<Path>, stuck: set<Path>, limit: nat) {
    forall e :: e in files && e.path in present ==> SizeOf(e) > limit || e.path in stuck
  }

  lemma SettledOn(seen: seq<Entry>, e: Entry, before: set<Path>, present: set<Path>, stuck: set<Path>, limit: nat)
    requires Settled(seen, before, stuck, limit) && present <= before
    requires e.path in present ==> SizeOf(e) > limit || e.path in stuck
    ensures Settled(seen + [e], present, stuck, limit)
  {
  }

  lemma OldestAtFront(files: seq<Entry>, i: nat)
    requires OldestFirst(files) && i <= |files|
    ensures OldestFirst(files[..i])
  {
  }

  /** What could have been evicted and was not is at least as new as all that was. */
  lemma SparedAreNewer(files: seq<Entry>, i: nat, evicted: seq<Entry>, first: set<Path>, present: set<Path>,
                       stuck: set<Path>, limit: nat)
    requires OldestFirst(files) && i <= |files| && Settled(files[..i], present, stuck, limit)
    requires Evicts(files[..i], evicted, first, present, stuck, limit)
    ensures forall e, d :: e in files && e.path in present && SizeOf(e) <= limit && e.path !in stuck && d in evicted ==>
              TimeOf(d) <= TimeOf(e)
  {
    forall e, d | e in files && e.path in present && SizeOf(e) <= limit && e.path !in stuck && d in evicted
      ensures TimeOf(d) <= TimeOf(e)
    {
      assert e !in files[..i] && d in files[..i] && files == files[..i] + files[i..];
      assert e in files[i..];
      var j :| 0 <= j < |files| - i && files[i..][j] == e;
      var k :| 0 <= k < i && files[..i][k] == d;
      assert TimeOf(files[k]) <= TimeOf(files[i + j]);
    }
  }

  /** Before each deletion the total was over the limit. */
  predicate EachNeeded(evicted: seq<Entry>, total: nat, limit: nat) {
    forall k :: 0 <= k < |evicted| ==> total + Sizes(evicted[k..]) > limit
  }

  lemma NeededOneMore(evicted: seq<Entry>, e: Entry, total: nat, limit: nat)
    requires EachNeeded(evicted, total + SizeOf(e), limit) && total + SizeOf(e) > limit
    ensures EachNeeded(evicted + [e], total, limit)
  {
    var more := evicted + [e];
    forall k | 0 <= k < |more|
      ensures total + Sizes(more[k..]) > limit
    {
      assert more[k..] == evicted[k..] + [e];
      assert (evicted[k..] + [e])[..|evicted[k..]|] == evicted[k..];
    }
  }
}
