/** How a lease comes about and exactly how long it is in force. */
module LifecycleLeases {
  import opened Lifecycle
  import opened LifecycleRelease
  import opened LifecycleUse

  predicate Several(s: State, h: Hash) {
    h in s.engines && s.engines[h].fileCount > 1
  }

  predicate InForce(s: State, k: Key) {
    k in s.leases && s.leases[k].expiresAt > s.now
  }

  predicate Streamed(s: State, k: Key) {
    k in s.fileStreams && s.fileStreams[k] > 0
  }

  /* ---- Leases ---- */

  /** The step writes the lease of the file: a refresh, or a poll that finds it in force. */
  predicate Renews(s: State, step: Step, k: Key) {
    match step
    case Refresh(h, f, _, _) => (h, f) == k
    case RefreshKnown(h, f, _, _) => (h, f) == k && InForce(s, k)
    case _ => false
  }

  /** Another file of the same torrent is activated. */
  predicate Supersedes(s: State, h: Hash, f: nat, k: Key) {
    h == k.0 && f != k.1 && Several(s, h)
  }

  /** The step activates a sibling of the file. */
  predicate Displaces(s: State, step: Step, k: Key) {
    match step
    case StartStream(h, f, _, _) => Supersedes(s, h, f, k)
    case Select(h, f, _) => Supersedes(s, h, f, k)
    case Refresh(h, f, _, _) => Supersedes(s, h, f, k)
    case RefreshKnown(h, f, _, _) => InForce(s, (h, f)) && Supersedes(s, h, f, k)
    case _ => false
  }

  /** The step ends the lease before its time. */
  predicate EndsLease(s: State, step: Step, k: Key) {
    Displaces(s, step, k) || (step.EndPlayback? && (step.hash, step.file) == k)
  }

  predicate SameLease(s: State, t: State, k: Key) {
    (k in t.leases <==> k in s.leases) && (k in s.leases ==> t.leases[k] == s.leases[k])
  }

  lemma SelectFileLease(s: State, h: Hash, f: nat, e: Engine, k: Key)
    ensures var t := SelectFile(s, h, f, e);
      if h == k.0 && f != k.1 then k !in t.leases else SameLease(s, t, k)
  {
  }

  lemma ActivationLease(s: State, h: Hash, f: nat, keep: bool, ok1: bool, ok2: bool, k: Key)
    ensures var t := ActivateFile(s, h, f, keep, ok1, ok2);
      if Supersedes(s, h, f, k) then k !in t.leases else SameLease(s, t, k)
  {
    if Multifile(s, h) {
      SelectFileLease(s, h, f, Resumed(Resumed(s.engines[h].(lastAccessed := s.now), ok1), ok2), k);
    }
  }

  lemma SelectionLease(s: State, h: Hash, f: nat, ok: bool, k: Key)
    ensures var t := ActivateMultifile(s, h, f, ok);
      if Supersedes(s, h, f, k) then k !in t.leases else SameLease(s, t, k)
  {
    if Multifile(s, h) {
      SelectFileLease(s, h, f, Resumed(s.engines[h].(lastAccessed := s.now), ok), k);
    }
  }

  /** A refresh writes the lease of its file, and supersedes those of sibling files. */
  ghost predicate RefreshedLease(s: State, t: State, h: Hash, f: nat, k: Key) {
    if (h, f) == k then k in t.leases && t.leases[k] == Lease(s.now, s.now + 300)
    else if Supersedes(s, h, f, k) then k !in t.leases
    else SameLease(s, t, k)
  }

  lemma RefreshLease(s: State, h: Hash, f: nat, ok1: bool, ok2: bool, k: Key)
    ensures RefreshedLease(s, RefreshHls(s, h, f, ok1, ok2), h, f, k)
  {
    var s1 := s.(leases := s.leases[(h, f) := Lease(s.now, s.now + HLS_PLAYBACK_LEASE_TTL)]);
    if h in s.engines {
      ActivationLease(s1, h, f, true, ok1, ok2, k);
      assert RefreshHls(s, h, f, ok1, ok2) == ActivateFile(s1, h, f, true, ok1, ok2);
    } else {
      assert RefreshHls(s, h, f, ok1, ok2) == s1;
    }
  }

  /** What becomes of a lease that a step neither renews nor ends: it stays, or goes because it has expired. */
  ghost predicate LeaseLasts(s: State, t: State, k: Key) {
    && (k in t.leases ==> k in s.leases && t.leases[k] == s.leases[k])
    && (InForce(s, k) ==> k in t.leases)
  }

  lemma PollLease(s: State, h: Hash, f: nat, ok1: bool, ok2: bool, k: Key)
    ensures var t := RefreshExisting(s, h, f, ok1, ok2);
      if InForce(s, (h, f)) then RefreshedLease(s, t, h, f, k) else LeaseLasts(s, t, k)
  {
    if InForce(s, (h, f)) {
      RefreshLease(s, h, f, ok1, ok2, k);
    }
  }

  lemma EndingsLease(s: State, h: Hash, f: nat, k: Key)
    ensures SameLease(s, StreamEnd(s, h, f), k)
    ensures if (h, f) == k then k !in EndHls(s, h, f).leases else SameLease(s, EndHls(s, h, f), k)
  {
  }

  lemma SweepLease(s: State, keys: seq<Key>, k: Key)
    ensures LeaseLasts(s, SweepLeases(s, keys), k)
  {
    ExpireKeysTables(s.(leases := s.leases - ExpiredLeases(s)), keys);
  }

  lemma StepLease(s: State, step: Step, k: Key)
    requires Enabled(s, step)
    ensures var t := Next(s, step);
      if Renews(s, step, k) then k in t.leases && t.leases[k] == Lease(s.now, s.now + 300)
      else if EndsLease(s, step, k) then k !in t.leases
      else LeaseLasts(s, t, k)
  {
    match step
    case StartStream(h, f, ok1, ok2) => ActivationLease(s, h, f, false, ok1, ok2, k);
    case EndStream(h, f) => EndingsLease(s, h, f, k);
    case Select(h, f, ok) => SelectionLease(s, h, f, ok, k);
    case Refresh(h, f, ok1, ok2) => RefreshLease(s, h, f, ok1, ok2, k);
    case RefreshKnown(h, f, ok1, ok2) => PollLease(s, h, f, ok1, ok2, k);
    case EndPlayback(h, f) => EndingsLease(s, h, f, k);
    case RunCleanup(id) => CleanupTables(s, id);
    case SweepExpired(keys) => SweepLease(s, keys, k);
    case _ => BackgroundTables(s, step);
  }

  /** The lease was written at `j`, and nothing has ended it since. */
  ghost predicate LeasedSince(states: seq<State>, steps: seq<Step>, j: int, n: int, k: Key)
    requires 0 <= j < n <= |steps| < |states|
  {
    Renews(states[j], steps[j], k) && forall m :: j < m < n ==> !EndsLease(states[m], steps[m], k)
  }

  /** Every lease in the table was written by a refresh or poll, for the five minutes that followed. */
  lemma {:induction false} LeaseHasOrigin(states: seq<State>, steps: seq<Step>, n: nat, k: Key)
    requires Run(states, steps) && n <= |steps| && k in states[n].leases
    ensures exists j :: 0 <= j < n && LeasedSince(states, steps, j, n, k) &&
                        states[n].leases[k] == Lease(states[j].now, states[j].now + 300)
  {
    var m := n - 1;
    StepLease(states[m], steps[m], k);
    if Renews(states[m], steps[m], k) {
      assert LeasedSince(states, steps, m, n, k);
    } else {
      LeaseHasOrigin(states, steps, m, k);
      var j :| 0 <= j < m && LeasedSince(states, steps, j, m, k) &&
               states[m].leases[k] == Lease(states[j].now, states[j].now + 300);
      assert LeasedSince(states, steps, j, n, k);
    }
  }

  lemma {:induction false} RenewedLeaseLasts(states: seq<State>, steps: seq<Step>, j: nat, n: nat, k: Key)
    requires Run(states, steps) && j < n <= |steps| && LeasedSince(states, steps, j, n, k)
    requires states[n].now < states[j].now + 300
    ensures k in states[n].leases && states[n].leases[k].expiresAt >= states[j].now + 300
  {
    var m := n - 1;
    StepLease(states[m], steps[m], k);
    TimeOnlyGrows(states, steps, j, m);
    TimeOnlyGrows(states, steps, m, n);
    if j < m {
      assert LeasedSince(states, steps, j, m, k);
      RenewedLeaseLasts(states, steps, j, m, k);
    }
  }

  /**
    A lease is in force exactly for the five minutes after the last refresh of its file, or the
    last poll that found it in force, unless playback was ended or a sibling file activated.
  */
  lemma LeaseInForceIff(states: seq<State>, steps: seq<Step>, n: nat, k: Key)
    requires Run(states, steps) && n <= |steps|
    ensures InForce(states[n], k) <==>
            exists j :: 0 <= j < n && LeasedSince(states, steps, j, n, k) && states[n].now < states[j].now + 300
  {
    if InForce(states[n], k) {
      LeaseHasOrigin(states, steps, n, k);
    }
    forall j | 0 <= j < n && LeasedSince(states, steps, j, n, k) && states[n].now < states[j].now + 300
      ensures InForce(states[n], k)
    {
      RenewedLeaseLasts(states, steps, j, n, k);
    }
  }
}
