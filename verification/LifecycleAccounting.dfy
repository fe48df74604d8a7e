/** Stream counters against the streams that are really live. */
module LifecycleAccounting {
  import opened Lifecycle
  import opened LifecycleTheorems
  import opened LifecycleLeases

  /** The live streams, each under the number of the step that started it. */
  type Live = map<nat, Key>

  function LiveAfter(live: Live, step: Step, id: nat, ended: nat): Live {
    match step
    case StartStream(h, f, _, _) => live[id := (h, f)]
    case EndStream(_, _) => live - {ended}
    case _ => live
  }

  /**
    `lives` follows the run: the stream that step `i` starts gets the number `i`, and a
    step that ends a stream ends a live one of its file, whose number is `ends[i]`.
  */
  ghost predicate Matched(steps: seq<Step>, lives: seq<Live>, ends: seq<nat>) {
    && |lives| == |steps| + 1 && |ends| == |steps|
    && lives[0] == map[]
    && forall i :: 0 <= i < |steps| ==>
         && lives[i + 1] == LiveAfter(lives[i], steps[i], i, ends[i])
         && (steps[i].EndStream? ==>
               ends[i] in lives[i] && lives[i][ends[i]] == (steps[i].hash, steps[i].file))
  }

  ghost function OfTorrent(live: Live, h: Hash): set<nat> {
    set i | i in live && live[i].0 == h
  }

  ghost function OfFile(live: Live, k: Key): set<nat> {
    set i | i in live && live[i] == k
  }

  /** The torrent counters are exact, the file counters never exceed the truth. */
  ghost predicate Accounted(s: State, live: Live) {
    && (forall h :: Count(s.streams, h) == |OfTorrent(live, h)|)
    && (forall k :: Count(s.fileStreams, k) <= |OfFile(live, k)|)
  }

  lemma {:induction false} LiveNumbersAreOld(steps: seq<Step>, lives: seq<Live>, ends: seq<nat>, n: nat)
    requires Matched(steps, lives, ends) && n <= |steps|
    ensures forall i :: i in lives[n] ==> i < n
  {
    if n > 0 {
      LiveNumbersAreOld(steps, lives, ends, n - 1);
      assert lives[n] == LiveAfter(lives[n - 1], steps[n - 1], n - 1, ends[n - 1]);
    }
  }

  /** An activation only ever drops file counters. */
  lemma ActivationCounters(s: State, h: Hash, f: nat, keep: bool, ok1: bool, ok2: bool, k: Key)
    ensures var t := ActivateFile(s, h, f, keep, ok1, ok2);
      t.streams == s.streams && Count(t.fileStreams, k) <= Count(s.fileStreams, k)
  {
    if Multifile(s, h) {
      assert Count(OnlyFile(s.fileStreams, h, f), k) <= Count(s.fileStreams, k);
    }
  }

  lemma StartCounters(s: State, h: Hash, f: nat, ok1: bool, ok2: bool, k: Key)
    ensures var t := StreamStart(s, h, f, ok1, ok2);
      && t.streams == s.streams[h := Count(s.streams, h) + 1]
      && Count(t.fileStreams, k) <= Count(s.fileStreams, k) + if k == (h, f) then 1 else 0
  {
    ActivationCounters(s, h, f, false, ok1, ok2, k);
  }

  lemma OneMoreOfTorrent(live: Live, id: nat, k: Key, h: Hash)
    requires id !in live
    ensures |OfTorrent(live[id := k], h)| == |OfTorrent(live, h)| + if h == k.0 then 1 else 0
  {
    assert OfTorrent(live[id := k], h) == if h == k.0 then OfTorrent(live, h) + {id} else OfTorrent(live, h);
  }

  lemma OneMoreOfFile(live: Live, id: nat, k: Key, k': Key)
    requires id !in live
    ensures |OfFile(live[id := k], k')| == |OfFile(live, k')| + if k' == k then 1 else 0
  {
    assert OfFile(live[id := k], k') == if k' == k then OfFile(live, k') + {id} else OfFile(live, k');
  }

  lemma OneMoreAccounted(s: State, t: State, live: Live, id: nat, h: Hash, f: nat)
    requires Accounted(s, live) && id !in live
    requires t.streams == s.streams[h := Count(s.streams, h) + 1]
    requires forall k :: Count(t.fileStreams, k) <= Count(s.fileStreams, k) + if k == (h, f) then 1 else 0
    ensures Accounted(t, live[id := (h, f)])
  {
    forall h'
      ensures Count(t.streams, h') == |OfTorrent(live[id := (h, f)], h')|
    {
      OneMoreOfTorrent(live, id, (h, f), h');
    }
    forall k
      ensures Count(t.fileStreams, k) <= |OfFile(live[id := (h, f)], k)|
    {
      OneMoreOfFile(live, id, (h, f), k);
    }
  }

  lemma StartAccounted(s: State, live: Live, id: nat, h: Hash, f: nat, ok1: bool, ok2: bool)
    requires Accounted(s, live) && id !in live
    ensures Accounted(StreamStart(s, h, f, ok1, ok2), live[id := (h, f)])
  {
    forall k {
      StartCounters(s, h, f, ok1, ok2, k);
    }
    OneMoreAccounted(s, StreamStart(s, h, f, ok1, ok2), live, id, h, f);
  }

  lemma EndAccounted(s: State, live: Live, ended: nat, h: Hash, f: nat)
    requires Accounted(s, live) && ended in live && live[ended] == (h, f)
    ensures Accounted(StreamEnd(s, h, f), live - {ended})
  {
    var t := StreamEnd(s, h, f);
    var live' := live - {ended};
    forall h'
      ensures Count(t.streams, h') == |OfTorrent(live', h')|
    {
      assert OfTorrent(live', h') == OfTorrent(live, h') - {ended};
      assert ended in OfTorrent(live, h);
    }
    forall k
      ensures Count(t.fileStreams, k) <= |OfFile(live', k)|
    {
      assert OfFile(live', k) == OfFile(live, k) - {ended};
      assert ended in OfFile(live, (h, f));
    }
  }

  lemma ExpireKeysCounters(s: State, order: seq<Key>)
    ensures ExpireKeys(s, order).streams == s.streams && ExpireKeys(s, order).fileStreams == s.fileStreams
    decreases |order|
  {
    if order != [] {
      ExpireKeysCounters(ExpireKey(s, order[0]), order[1..]);
    }
  }

  lemma RefreshCounters(s: State, h: Hash, f: nat, ok1: bool, ok2: bool, k: Key)
    ensures var t := RefreshHls(s, h, f, ok1, ok2);
      t.streams == s.streams && Count(t.fileStreams, k) <= Count(s.fileStreams, k)
  {
    var s1 := s.(leases := s.leases[(h, f) := Lease(s.now, s.now + HLS_PLAYBACK_LEASE_TTL)]);
    ActivationCounters(s1, h, f, true, ok1, ok2, k);
  }

  lemma SelectCounters(s: State, h: Hash, f: nat, ok: bool, k: Key)
    ensures var t := ActivateMultifile(s, h, f, ok);
      t.streams == s.streams && Count(t.fileStreams, k) <= Count(s.fileStreams, k)
  {
    assert Count(OnlyFile(s.fileStreams, h, f), k) <= Count(s.fileStreams, k);
  }

  lemma CleanupCounters(s: State, id: nat)
    requires id in s.cleanups
    ensures FireCleanup(s, id).streams == s.streams && FireCleanup(s, id).fileStreams == s.fileStreams
  {
  }

  /** No other step adds to a counter, and none touches the torrent counters. */
  lemma OtherStepCounters(s: State, step: Step, k: Key)
    requires Enabled(s, step) && !step.StartStream? && !step.EndStream?
    ensures Next(s, step).streams == s.streams
    ensures Count(Next(s, step).fileStreams, k) <= Count(s.fileStreams, k)
  {
    match step
    case Select(h, f, ok) => SelectCounters(s, h, f, ok, k);
    case Refresh(h, f, ok1, ok2) => RefreshCounters(s, h, f, ok1, ok2, k);
    case RefreshKnown(h, f, ok1, ok2) => RefreshCounters(s, h, f, ok1, ok2, k);
    case SweepExpired(keys) => ExpireKeysCounters(s.(leases := s.leases - ExpiredLeases(s)), keys);
    case SweepIdle(hashes, refusing) => PauseAllTables(s, hashes, refusing);
    case RunCleanup(id) => CleanupCounters(s, id);
    case _ =>
  }

  /**
    Over every run whose stream ends match live streams, the torrent counter is the number
    of live streams of the torrent, and a file counter is at most that of its file: an
    activation may have dropped the counter of a sibling that is still being read.
  */
  lemma {:induction false} CountersTrackStreams(states: seq<State>, steps: seq<Step>, lives: seq<Live>,
                                                ends: seq<nat>, n: nat)
    requires Run(states, steps) && Matched(steps, lives, ends) && n <= |steps|
    ensures Accounted(states[n], lives[n])
  {
    if n == 0 {
      assert forall h :: OfTorrent(lives[0], h) == {};
    } else {
      CountersTrackStreams(states, steps, lives, ends, n - 1);
      LiveNumbersAreOld(steps, lives, ends, n - 1);
      var s, step := states[n - 1], steps[n - 1];
      match step
      case StartStream(h, f, ok1, ok2) => StartAccounted(s, lives[n - 1], n - 1, h, f, ok1, ok2);
      case EndStream(h, f) => EndAccounted(s, lives[n - 1], ends[n - 1], h, f);
      case _ =>
        forall k
          ensures Count(states[n].fileStreams, k) <= |OfFile(lives[n], k)|
        {
          OtherStepCounters(s, step, k);
        }
        OtherStepCounters(s, step, ("", 0));
    }
  }

  /* ---- Counters of files ---- */

  lemma SelectFileCounter(s: State, h: Hash, f: nat, e: Engine, k: Key)
    requires h == k.0 ==> f == k.1
    ensures Count(SelectFile(s, h, f, e).fileStreams, k) == Count(s.fileStreams, k)
  {
  }

  lemma ActivationCounter(s: State, h: Hash, f: nat, keep: bool, ok1: bool, ok2: bool, k: Key)
    requires !Supersedes(s, h, f, k)
    ensures Count(ActivateFile(s, h, f, keep, ok1, ok2).fileStreams, k) == Count(s.fileStreams, k)
  {
    if Multifile(s, h) {
      SelectFileCounter(s, h, f, Resumed(Resumed(s.engines[h].(lastAccessed := s.now), ok1), ok2), k);
    }
  }

  lemma SelectionCounter(s: State, h: Hash, f: nat, ok: bool, k: Key)
    requires !Supersedes(s, h, f, k)
    ensures Count(ActivateMultifile(s, h, f, ok).fileStreams, k) == Count(s.fileStreams, k)
  {
    if Multifile(s, h) {
      SelectFileCounter(s, h, f, Resumed(s.engines[h].(lastAccessed := s.now), ok), k);
    }
  }

  lemma RefreshCounter(s: State, h: Hash, f: nat, ok1: bool, ok2: bool, k: Key)
    requires !Supersedes(s, h, f, k)
    ensures Count(RefreshHls(s, h, f, ok1, ok2).fileStreams, k) == Count(s.fileStreams, k)
  {
    var s1 := s.(leases := s.leases[(h, f) := Lease(s.now, s.now + HLS_PLAYBACK_LEASE_TTL)]);
    ActivationCounter(s1, h, f, true, ok1, ok2, k);
  }

  lemma EndCounter(s: State, h: Hash, f: nat, k: Key)
    ensures var before := Count(s.fileStreams, k);
      Count(StreamEnd(s, h, f).fileStreams, k) == if (h, f) == k && before > 0 then before - 1 else before
  {
  }

  /** A counter goes up with a start of a stream of its file and down with an end, but not below zero. */
  function CountAfter(step: Step, k: Key, before: nat): nat {
    match step
    case StartStream(h, f, _, _) => if (h, f) == k then before + 1 else before
    case EndStream(h, f) => if (h, f) == k && before > 0 then before - 1 else before
    case _ => before
  }

  lemma StartCounter(s: State, h: Hash, f: nat, ok1: bool, ok2: bool, k: Key)
    requires !Supersedes(s, h, f, k)
    ensures var before := Count(s.fileStreams, k);
      Count(StreamStart(s, h, f, ok1, ok2).fileStreams, k) == if (h, f) == k then before + 1 else before
  {
    ActivationCounter(s, h, f, false, ok1, ok2, k);
  }

  lemma PollCounter(s: State, h: Hash, f: nat, ok1: bool, ok2: bool, k: Key)
    requires InForce(s, (h, f)) ==> !Supersedes(s, h, f, k)
    ensures Count(RefreshExisting(s, h, f, ok1, ok2).fileStreams, k) == Count(s.fileStreams, k)
  {
    if InForce(s, (h, f)) {
      RefreshCounter(s, h, f, ok1, ok2, k);
    }
  }

  /** Without an activation of a sibling, only starts and ends of streams of the file change its counter. */
  lemma StepFileCounter(s: State, step: Step, k: Key)
    requires Enabled(s, step) && !Displaces(s, step, k)
    ensures Count(Next(s, step).fileStreams, k) == CountAfter(step, k, Count(s.fileStreams, k))
  {
    match step
    case StartStream(h, f, ok1, ok2) => StartCounter(s, h, f, ok1, ok2, k);
    case Select(h, f, ok) => SelectionCounter(s, h, f, ok, k);
    case Refresh(h, f, ok1, ok2) => RefreshCounter(s, h, f, ok1, ok2, k);
    case RefreshKnown(h, f, ok1, ok2) => PollCounter(s, h, f, ok1, ok2, k);
    case EndStream(h, f) => EndCounter(s, h, f, k);
    case _ => OtherStepFileCounters(s, step);
  }

  lemma OtherStepFileCounters(s: State, step: Step)
    requires Enabled(s, step)
    requires !step.StartStream? && !step.Select? && !step.Refresh? && !step.RefreshKnown? && !step.EndStream?
    ensures Next(s, step).fileStreams == s.fileStreams
  {
    match step
    case SweepExpired(keys) => ExpireKeysCounters(s.(leases := s.leases - ExpiredLeases(s)), keys);
    case SweepIdle(hashes, refusing) => PauseAllTables(s, hashes, refusing);
    case RunCleanup(id) => CleanupCounters(s, id);
    case _ =>
  }

  lemma FileCountStep(live: Live, step: Step, id: nat, ended: nat, k: Key)
    requires id !in live
    requires step.EndStream? ==> ended in live && live[ended] == (step.hash, step.file)
    ensures |OfFile(LiveAfter(live, step, id, ended), k)| == CountAfter(step, k, |OfFile(live, k)|)
  {
    match step
    case StartStream(h, f, _, _) => OneMoreOfFile(live, id, (h, f), k);
    case EndStream(h, f) =>
      assert OfFile(live - {ended}, k) == OfFile(live, k) - {ended};
      assert ended in OfFile(live, (h, f));
    case _ =>
  }

  /** As long as no sibling of a file is activated, its counter is the number of its live streams. */
  lemma {:induction false} FileCounterIsExact(states: seq<State>, steps: seq<Step>, lives: seq<Live>,
                                              ends: seq<nat>, n: nat, k: Key)
    requires Run(states, steps) && Matched(steps, lives, ends) && n <= |steps|
    requires forall i :: 0 <= i < n ==> !Displaces(states[i], steps[i], k)
    ensures Count(states[n].fileStreams, k) == |OfFile(lives[n], k)|
  {
    if n == 0 {
      assert OfFile(lives[0], k) == {};
    } else {
      var m := n - 1;
      FileCounterIsExact(states, steps, lives, ends, m, k);
      LiveNumbersAreOld(steps, lives, ends, m);
      StepFileCounter(states[m], steps[m], k);
      FileCountStep(lives[m], steps[m], m, ends[m], k);
    }
  }
}
