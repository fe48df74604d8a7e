/** What the plans of the scheduler mean for a player: how soon each piece is due, and how far ahead is planned. */
module PrioritiesPlans {
  import opened Wrappers
  import opened Machine
  import opened Priorities
  import opened PrioritiesProofs

  const MIB: nat := 1024 * 1024

  /* ---- Deadlines ---- */

  predicate KnownRate(ctx: PriorityContext, rate: nat) {
    rate > 0 && (ctx.bitrate == Some(rate) || ctx.downloadRate == rate)
  }

  predicate NoRateKnown(ctx: PriorityContext) {
    ctx.downloadRate == 0 && (ctx.bitrate.None? || ctx.bitrate == Some(0))
  }

  /** A rate the deadlines have to keep pace with: every known one, or 1 MiB/s when none is known. */
  predicate Pacing(ctx: PriorityContext, rate: nat) {
    KnownRate(ctx, rate) || (NoRateKnown(ctx) && rate == MIB)
  }

  /** A thousand times the length of a piece, as far as a word of 64 bits can say. */
  function Work(ctx: PriorityContext): nat {
    Min(1000 * ctx.pieceLength, U64_MAX)
  }

  /**
    So many milliseconds from piece to piece: enough for a piece at every rate to keep pace with, up
    to half a minute, and no more than that takes at the slowest, down to half a second.
  */
  ghost predicate KeepsPace(ctx: PriorityContext, d: nat) {
    && 500 <= d <= 30_000
    && (forall rate: nat :: Pacing(ctx, rate) ==> d * rate >= Work(ctx) || d == 30_000)
    && (d == 500 || exists rate: nat :: Pacing(ctx, rate) && (d - 1) * rate < Work(ctx))
  }

  predicate ForPlayer(intent: PlaybackIntent) {
    !intent.ContainerMetadata? && !intent.InternalProbe? && !intent.Background?
  }

  /** How long the pieces of the plan wait in any case, the one at `k` among them. */
  function Wait(intent: PlaybackIntent, k: nat, hot: int): nat {
    if intent.Background? then 30_000
    else if intent.InternalProbe? then 10_000
    else if ForPlayer(intent) && k >= hot then 10_000
    else 0
  }

  lemma RoundedUp(a: nat, b: nat)
    requires b > 0
    ensures var q := DivCeil(a, b); q * b >= a && (q > 0 ==> (q - 1) * b < a)
  {
    var q := a / b;
    assert q * b + a % b == a;
    assert (q + 1) * b == q * b + b && (q - 1) * b == q * b - b;
  }

  lemma TimesMore(d: nat, e: nat, rate: nat, faster: nat)
    requires d <= e && rate <= faster
    ensures d * rate <= e * faster
  {
    assert d * rate <= e * rate;
    assert e * rate <= e * faster;
  }

  /** The step for one rate, rounded up and clamped, is as long as needed and no longer. */
  lemma ClampedStep(work: nat, rate: nat)
    requires rate > 0
    ensures var d := Clamp(DivCeil(work, rate), 500, 30_000);
      (d * rate >= work || d == 30_000) && (d == 500 || (d - 1) * rate < work)
  {
    RoundedUp(work, rate);
    var q, d := DivCeil(work, rate), Clamp(DivCeil(work, rate), 500, 30_000);
    if d >= q {
      TimesMore(q, d, rate, rate);
    }
    if d <= q && d > 500 {
      TimesMore(d - 1, q - 1, rate, rate);
    }
  }

  /** The slowest of the rates to keep pace with. */
  lemma SlowestRate(ctx: PriorityContext) returns (rate: nat)
    ensures rate > 0 && Pacing(ctx, rate) && forall other: nat :: Pacing(ctx, other) ==> rate <= other
    ensures DeadlineStep(ctx.pieceLength, ctx.bitrate, ctx.downloadRate) ==
            Clamp(DivCeil(Work(ctx), rate), 500, 30_000)
  {
    var b := ctx.bitrate.GetOr(0);
    rate := if b > 0 && ctx.downloadRate > 0 then Min(b, ctx.downloadRate)
            else if b > 0 then b
            else if ctx.downloadRate > 0 then ctx.downloadRate
            else MIB;
    assert SatMulU64(ctx.pieceLength, 1_000) == Work(ctx);
  }

  lemma StepKeepsPace(ctx: PriorityContext)
    ensures KeepsPace(ctx, DeadlineStep(ctx.pieceLength, ctx.bitrate, ctx.downloadRate))
  {
    var d: nat := DeadlineStep(ctx.pieceLength, ctx.bitrate, ctx.downloadRate);
    var slowest := SlowestRate(ctx);
    ClampedStep(Work(ctx), slowest);
    forall rate: nat | Pacing(ctx, rate) && d != 30_000
      ensures d * rate >= Work(ctx)
    {
      TimesMore(d, d, slowest, rate);
    }
  }

  /**
    The deadlines of every decision: from one piece to the next there is the same time, just
    long enough to keep pace with the slower of playback and download, and what is not urgent
    waits ten or thirty seconds on top of that.
  */
  lemma DeadlinesKeepPace(ctx: PriorityContext, r: Outcome) returns (d: nat)
    requires ValidContext(ctx) && Decides(ctx, r) && r.Decided?
    ensures KeepsPace(ctx, d)
    ensures forall k :: 0 <= k < |r.decision.assignments| ==>
              r.decision.assignments[k].deadline == k * d + Wait(ctx.intent, k, r.decision.hot)
  {
    d := DeadlineStep(ctx.pieceLength, ctx.bitrate, ctx.downloadRate);
    StepKeepsPace(ctx);
  }

  /** Pieces in one band follow each other at that pace. */
  lemma NeighboursKeepPace(ctx: PriorityContext, r: Outcome, k: nat)
    requires ValidContext(ctx) && Decides(ctx, r) && r.Decided? && k + 1 < |r.decision.assignments|
    requires r.decision.assignments[k].band == r.decision.assignments[k + 1].band
    ensures r.decision.assignments[k + 1].deadline > r.decision.assignments[k].deadline
    ensures KeepsPace(ctx, r.decision.assignments[k + 1].deadline - r.decision.assignments[k].deadline)
  {
    var d := DeadlinesKeepPace(ctx, r);
    assert (k + 1) * d == k * d + d;
  }

  /* ---- Bands ---- */

  /** The band and the priority of the piece at `k` of a plan. */
  function Urgency(intent: PlaybackIntent, k: nat, immediate: int, hot: int): (PriorityBand, int) {
    if intent.ContainerMetadata? then (Metadata, 7)
    else if !ForPlayer(intent) then (Idle, 1)
    else if k < immediate then (Immediate, 7)
    else if k < hot then (Hot, 7)
    else (Warm, 2)
  }

  /** The first pieces are as urgent as the decision says, and no other. */
  lemma BandsFollowWindows(ctx: PriorityContext, r: Outcome, k: nat)
    requires ValidContext(ctx) && Decides(ctx, r) && r.Decided? && k < |r.decision.assignments|
    ensures var a := r.decision.assignments[k];
      (a.band, a.piecePriority) == Urgency(ctx.intent, k, r.decision.immediate, r.decision.hot)
  {
  }

  /* ---- How far ahead ---- */

  /** The cache and the rest of the file hold two hundred pieces or more, as far as a word can say. */
  predicate Roomy(ctx: PriorityContext) {
    && ctx.pieceLength > 0 && ctx.memoryPressure.Normal?
    && 200 <= ctx.cacheSize / ctx.pieceLength <= I32_MAX
    && 200 <= ctx.lastPiece - ctx.currentPiece < I32_MAX
  }

  /** Playback has begun: the first byte is out, or the player reads on in sequence. */
  predicate Playing(ctx: PriorityContext) {
    || ctx.intent.DirectSequential? || ctx.intent.HlsSequential?
    || (ctx.firstByteSent && (IsInitial(ctx.intent) || IsSeek(ctx.intent)))
  }

  /** A seek that has waited three times or more. */
  predicate Blocked(ctx: PriorityContext) {
    IsSeek(ctx.intent) && ctx.consecutiveWaits >= 3
  }

  lemma NextMultiple(p: int, q: int, b: nat)
    requires p < q
    ensures p * b + b <= q * b
  {
    assert (q - (p + 1)) * b >= 0;
    assert (q - (p + 1)) * b == q * b - p * b - b;
  }

  lemma QuotientAtLeast(a: nat, b: nat, q: nat)
    requires b > 0 && q * b <= a
    ensures a / b >= q
  {
    var p, m := a / b, a % b;
    assert a == p * b + m;
    if p < q {
      NextMultiple(p, q, b);
    }
  }

  lemma Quotient(a: nat, b: nat, q: nat, r: nat)
    requires r < b && a == q * b + r
    ensures a / b == q
  {
    QuotientAtLeast(a, b, q);
    var p, m := a / b, a % b;
    assert a == p * b + m;
    if q < p {
      NextMultiple(q, p, b);
    }
  }

  lemma MoreIsMore(a: nat, b: nat, c: nat)
    requires a <= b && c > 0
    ensures a / c <= b / c
  {
    assert a == a / c * c + a % c;
    QuotientAtLeast(b, c, a / c);
  }

  lemma EnoughPieces(pieces: nat, pieceLength: U64, maxBytes: U64)
    requires pieceLength > 0 && 0 < pieces <= 96 && pieces * pieceLength <= maxBytes <= MAX_WARM_WINDOW_BYTES
    ensures PiecesForBytes(maxBytes, pieceLength) >= pieces
  {
    QuotientAtLeast(SatAddU64(maxBytes, pieceLength - 1), pieceLength, pieces);
    assert maxBytes > 0;
  }

  /** What lets through as many as there are hot pieces at most lets through all that count. */
  lemma ByteCapLeaves(pieces: I32, pieceLength: U64, maxBytes: U64)
    requires 0 < pieceLength <= MIB && pieces > 0
    requires Min(pieces, 96) * MIB <= maxBytes <= MAX_WARM_WINDOW_BYTES
    ensures Min(CapPiecesByBytes(pieces, pieceLength, maxBytes), 96) == Min(pieces, 96)
  {
    var n: nat := Min(pieces, 96);
    assert n * pieceLength <= n * MIB;
    EnoughPieces(n, pieceLength, maxBytes);
  }

  /** With room, and pieces of a megabyte at most, playback is given the hot window it asks for. */
  lemma RoomyWindows(ctx: PriorityContext)
    requires Roomy(ctx) && ctx.pieceLength <= MIB && !IsStartup(ctx) && WantedHot(ctx) > 0
    requires Playing(ctx) || Min(WantedHot(ctx), 96) * MIB <= HotByteCap(ctx)
    ensures HotWindow(ctx) == Min(WantedHot(ctx), 96)
  {
    ByteCapLeaves(WantedHot(ctx), ctx.pieceLength, HotByteCap(ctx));
  }

  lemma RoomyWarm(ctx: PriorityContext)
    requires Roomy(ctx) && ctx.pieceLength <= MIB && 0 <= HotWindow(ctx) <= 96
    ensures WarmWindow(ctx) == if Playing(ctx) then 32 else 0
  {
    if Playing(ctx) {
      ByteCapLeaves(32, ctx.pieceLength, MAX_WARM_WINDOW_BYTES);
    }
  }

  /** With room, what each other intent is given: urgent pieces, hot pieces, warm pieces. */
  lemma FixedWindows(ctx: PriorityContext)
    requires Roomy(ctx) && ctx.pieceLength <= MIB && !IsStartup(ctx) && !Playing(ctx)
    ensures (ImmediateWindow(ctx), HotWindow(ctx), WarmWindow(ctx)) ==
            match ctx.intent
            case DirectSeek | HlsSeek => (1, 1, 0)
            case DownloadFull => (2, 16, 0)
            case DownloadRange => (1, 4, 0)
            case ContainerMetadata => (1, 2, 0)
            case InternalProbe => (0, 2, 0)
            case _ => (0, 4, 0)
  {
    RoomyWindows(ctx);
    RoomyWarm(ctx);
  }

  /** Pieces for ten seconds of playback. */
  predicate CoversTenSeconds(ctx: PriorityContext, pieces: int) {
    ctx.bitrate.Some? ==> (pieces + 1) * ctx.pieceLength > Min(10 * ctx.bitrate.value, U64_MAX)
  }

  lemma TenSecondsAreCovered(ctx: PriorityContext, pieces: int)
    requires ctx.pieceLength > 0 && pieces >= 1 && pieces >= TenSeconds(ctx)
    requires ctx.bitrate.Some? ==> Min(10 * ctx.bitrate.value, U64_MAX) / ctx.pieceLength <= I32_MAX
    ensures CoversTenSeconds(ctx, pieces)
  {
    if ctx.bitrate.Some? && ctx.bitrate.value > 0 {
      var bytes := SatMulU64(ctx.bitrate.value, 10);
      assert bytes == Min(10 * ctx.bitrate.value, U64_MAX);
      assert pieces >= bytes / ctx.pieceLength;
      JustBelow(bytes, ctx.pieceLength, pieces);
    } else {
      assert (pieces + 1) * ctx.pieceLength > 0;
    }
  }

  lemma JustBelow(a: nat, b: nat, q: int)
    requires b > 0 && q >= a / b
    ensures (q + 1) * b > a
  {
    assert a == a / b * b + a % b;
    assert (q + 1) * b >= (a / b + 1) * b == a / b * b + b;
  }

  /**
    With room, three peers or more and a known bitrate, a player that is not blocked has ten
    seconds ahead in the hot window, or all of its 96 pieces, and at least 24, 32, 48 or 96
    pieces when the download is slower than, as fast as, 1.5 times or three times as fast as
    the playback.
  */
  lemma PlaybackIsCovered(ctx: PriorityContext)
    requires Roomy(ctx) && ctx.pieceLength <= MIB && Playing(ctx) && !Blocked(ctx) && !IsHls(ctx.intent)
    requires ctx.peers >= 3 && ctx.bitrate.Some? && ctx.bitrate.value > 0
    requires Min(10 * ctx.bitrate.value, U64_MAX) / ctx.pieceLength <= I32_MAX
    ensures var hot, b := HotWindow(ctx), ctx.bitrate.value;
      var least := if ctx.downloadRate >= 3 * b then 96
                   else if 2 * ctx.downloadRate >= 3 * b then 48
                   else if ctx.downloadRate >= b then 32 else 24;
      && least <= hot <= 96 && (hot == 96 || CoversTenSeconds(ctx, hot))
      && (hot > least ==> hot * ctx.pieceLength <= 10 * b)
  {
    RoomyWindows(ctx);
    TenSecondsAreCovered(ctx, DynamicHotWindow(ctx));
    var bytes := SatMulU64(ctx.bitrate.value, 10);
    QuotientFits(bytes, ctx.pieceLength);
    if TenSeconds(ctx) > 24 {
      MulMonotone(HotWindow(ctx), Max(bytes / ctx.pieceLength, HotWindow(ctx)), ctx.pieceLength);
    }
  }

  /** Without a bitrate the download rate alone decides; a seek has 24 pieces at least. */
  lemma RateDecides(ctx: PriorityContext)
    requires Roomy(ctx) && ctx.pieceLength <= MIB && Playing(ctx) && !Blocked(ctx) && !IsHls(ctx.intent)
    requires ctx.peers >= 3 && (ctx.bitrate.None? || ctx.bitrate.value == 0)
    ensures HotWindow(ctx) ==
            if ctx.downloadRate > 10 * MIB then 96
            else if ctx.downloadRate > 5 * MIB then 48
            else if ctx.downloadRate > MIB || IsSeek(ctx.intent) then 24
            else 16
  {
    RoomyWindows(ctx);
  }

  /** With fewer than three peers a player that is not blocked is given 24 pieces at most. */
  lemma FewPeersCap(ctx: PriorityContext, peers: U64)
    requires Roomy(ctx) && ctx.pieceLength <= MIB && Playing(ctx) && !Blocked(ctx) && ctx.peers >= 3 > peers
    requires TenSeconds(ctx) < 0x4000_0000
    ensures HotWindow(ctx.(peers := peers)) == Min(HotWindow(ctx), 24)
  {
    RoomyWindows(ctx);
    RoomyWindows(ctx.(peers := peers));
  }

  function Direct(intent: PlaybackIntent): PlaybackIntent {
    match intent
    case HlsInitial => DirectInitial
    case HlsSeek => DirectSeek
    case HlsSequential => DirectSequential
    case _ => intent
  }

  /** HLS playback that is not blocked is given what direct playback is given, up to 48 pieces. */
  lemma HlsCap(ctx: PriorityContext)
    requires Roomy(ctx) && ctx.pieceLength <= MIB && Playing(ctx) && !Blocked(ctx) && IsHls(ctx.intent)
    ensures HotWindow(ctx) == Min(HotWindow(ctx.(intent := Direct(ctx.intent))), 48)
  {
    var direct := ctx.(intent := Direct(ctx.intent));
    assert DynamicHotWindow(direct) == DynamicHotWindow(ctx);
    RoomyWindows(ctx);
    RoomyWindows(direct);
  }

  /** A blocked seek is given twice the window of a direct seek that is not, up to 96 pieces. */
  lemma BlockedDoubles(ctx: PriorityContext)
    requires Roomy(ctx) && ctx.pieceLength <= MIB && Playing(ctx) && Blocked(ctx) && !DoublingWraps(ctx)
    ensures HotWindow(ctx) == Min(2 * HotWindow(ctx.(intent := DirectSeek, consecutiveWaits := 0)), 96)
    ensures ImmediateWindow(ctx) == Min(24, HotWindow(ctx))
  {
    var unblocked := ctx.(intent := DirectSeek, consecutiveWaits := 0);
    assert DynamicHotWindow(unblocked) == DynamicHotWindow(ctx);
    RoomyWindows(ctx);
    RoomyWindows(unblocked);
  }

  /** A seek that plays and is not blocked has twelve urgent pieces, any other player two. */
  lemma PlayersImmediate(ctx: PriorityContext)
    requires Roomy(ctx) && ctx.pieceLength <= MIB && Playing(ctx) && !Blocked(ctx)
    ensures ImmediateWindow(ctx) == if IsSeek(ctx.intent) then 12 else 2
  {
    RoomyWindows(ctx);
  }

  /* ---- Before the first byte ---- */

  /** A file of up to 64 MiB of unknown bitrate. */
  predicate SmallFile(ctx: PriorityContext) {
    ctx.bitrate.None? && ctx.fileSize <= 64 * MIB
  }

  /** How many pieces hold so many bytes: enough, and one less is not. */
  predicate JustHolds(pieces: int, bytes: nat, pieceLength: nat) {
    pieces * pieceLength >= bytes && (pieces > 1 ==> (pieces - 1) * pieceLength < bytes)
  }

  /** So many bytes in pieces, rounded up. */
  function Ceiling(bytes: U64, pieceLength: U64): nat
    requires pieceLength > 0
  {
    SatAddU64(bytes, pieceLength - 1) / pieceLength
  }

  lemma CeilingJustHolds(bytes: U64, pieceLength: U64)
    requires pieceLength > 0 && 0 < bytes <= 4 * MIB
    ensures JustHolds(Ceiling(bytes, pieceLength), bytes, pieceLength)
    ensures 1 <= Ceiling(bytes, pieceLength) <= bytes
    ensures bytes <= pieceLength ==> Ceiling(bytes, pieceLength) == 1
  {
    var n := Ceiling(bytes, pieceLength);
    if bytes <= pieceLength {
      Quotient(SatAddU64(bytes, pieceLength - 1), pieceLength, 1, SatAddU64(bytes, pieceLength - 1) - pieceLength);
    } else {
      var sum := bytes + pieceLength - 1;
      assert sum == n * pieceLength + sum % pieceLength;
      assert (n - 1) * pieceLength == n * pieceLength - pieceLength;
      MoreIsMore(pieceLength, sum, pieceLength);
      Quotient(pieceLength, pieceLength, 1, 0);
      if n > bytes {
        TimesMore(bytes + 1, n, pieceLength, pieceLength);
        assert (bytes + 1) * pieceLength == bytes * pieceLength + pieceLength;
        TimesMore(bytes, bytes, 1, pieceLength);
      }
    }
  }

  lemma WholePiece(pieceLength: U64)
    requires pieceLength > 0
    ensures Ceiling(pieceLength, pieceLength) == 1
  {
    var sum := SatAddU64(pieceLength, pieceLength - 1);
    Quotient(sum, pieceLength, 1, sum - pieceLength);
  }

  lemma CeilingGrows(a: U64, b: U64, pieceLength: U64)
    requires pieceLength > 0 && a <= b
    ensures Ceiling(a, pieceLength) <= Ceiling(b, pieceLength)
  {
    MoreIsMore(SatAddU64(a, pieceLength - 1), SatAddU64(b, pieceLength - 1), pieceLength);
  }

  /** What the startup window has to hold. */
  function StartupBytes(ctx: PriorityContext): nat {
    if SmallFile(ctx) then Min(ctx.fileSize, 4 * MIB) else 4 * MIB
  }

  function MostStartup(ctx: PriorityContext): nat {
    if SmallFile(ctx) then 32 else 4
  }

  lemma LargeStartup(ctx: PriorityContext)
    requires ctx.pieceLength > 0 && IsStartup(ctx) && !SmallFile(ctx) && ctx.memoryPressure.Normal?
    ensures CappedHot(ctx) == Min(Ceiling(4 * MIB, ctx.pieceLength), 4)
    ensures StartupPieces(ctx) <= 4
  {
    CeilingJustHolds(4 * MIB, ctx.pieceLength);
    WholePiece(ctx.pieceLength);
  }

  lemma SmallStartup(ctx: PriorityContext)
    requires ctx.pieceLength > 0 && IsStartup(ctx) && SmallFile(ctx) && ctx.memoryPressure.Normal?
    ensures CappedHot(ctx) == Max(1, Min(Ceiling(StartupBytes(ctx), ctx.pieceLength), 32))
    ensures StartupPieces(ctx) == CappedHot(ctx)
  {
    var bytes := StartupBytes(ctx);
    CeilingJustHolds(4 * MIB, ctx.pieceLength);
    WholePiece(ctx.pieceLength);
    CeilingGrows(bytes, 4 * MIB, ctx.pieceLength);
    if bytes > 0 {
      CeilingJustHolds(bytes, ctx.pieceLength);
    } else {
      Quotient(ctx.pieceLength - 1, ctx.pieceLength, 0, ctx.pieceLength - 1);
    }
  }

  lemma StartupIsCapped(ctx: PriorityContext)
    requires Roomy(ctx) && IsStartup(ctx)
    ensures HotWindow(ctx) == Max(1, Min(Ceiling(StartupBytes(ctx), ctx.pieceLength), MostStartup(ctx)))
    ensures ImmediateWindow(ctx) == Min(HotWindow(ctx), 4) && WarmWindow(ctx) == 0
  {
    if SmallFile(ctx) {
      SmallStartup(ctx);
    } else {
      LargeStartup(ctx);
      CeilingJustHolds(4 * MIB, ctx.pieceLength);
    }
  }

  /**
    Before the first byte, with room, the hot window just holds the first four megabytes in up to
    four pieces; or all of a small file of unknown bitrate, up to four megabytes of it, in up to
    32 pieces. No more than four of them are urgent and nothing is warm.
  */
  lemma StartupWindow(ctx: PriorityContext)
    requires Roomy(ctx) && IsStartup(ctx)
    ensures var hot, bytes := HotWindow(ctx), StartupBytes(ctx);
      && 1 <= hot <= MostStartup(ctx) && (hot == MostStartup(ctx) || hot * ctx.pieceLength >= bytes)
      && (hot > 1 ==> (hot - 1) * ctx.pieceLength < bytes)
      && ImmediateWindow(ctx) == Min(hot, 4) && WarmWindow(ctx) == 0
  {
    var bytes := StartupBytes(ctx);
    StartupIsCapped(ctx);
    if bytes > 0 {
      CeilingJustHolds(bytes, ctx.pieceLength);
      FewerHoldLess(HotWindow(ctx), Ceiling(bytes, ctx.pieceLength), bytes, ctx.pieceLength);
    }
  }

  lemma FewerHoldLess(pieces: nat, enough: nat, bytes: nat, pieceLength: nat)
    requires 1 <= pieces <= enough && JustHolds(enough, bytes, pieceLength)
    ensures pieces > 1 ==> (pieces - 1) * pieceLength < bytes
  {
    if pieces > 1 {
      TimesMore(pieces - 1, enough - 1, pieceLength, pieceLength);
    }
  }

  /* ---- Without room ---- */

  /** High memory pressure leaves 24 hot pieces at most, 16 for HLS, and no warm ones. */
  lemma PressureLeaves(ctx: PriorityContext)
    requires ctx.pieceLength > 0 && ctx.memoryPressure.Normal?
    ensures var high := ctx.(memoryPressure := High);
      && HotWindow(high) == Min(HotWindow(ctx), if IsHls(ctx.intent) then 16 else 24)
      && WarmWindow(high) <= 0
  {
    PressureWantsSame(ctx, High);
    CapOfMin(WantedHot(ctx), PressureCap(ctx.(memoryPressure := High)), ctx.pieceLength, HotByteCap(ctx));
    var most := if IsHls(ctx.intent) then 16 else 24;
    assert CappedHot(ctx.(memoryPressure := High)) ==
           CapPiecesByBytes(Min(WantedHot(ctx), most), ctx.pieceLength, HotByteCap(ctx));
  }

  lemma CapOfMin(pieces: I32, most: I32, pieceLength: U64, maxBytes: U64)
    requires most > 0 && maxBytes > 0
    ensures CapPiecesByBytes(Min(pieces, most), pieceLength, maxBytes) ==
            Min(CapPiecesByBytes(pieces, pieceLength, maxBytes), most)
  {
  }

  /** The bytes an intent may have urgent at once. */
  function HotBytes(intent: PlaybackIntent, firstByteSent: bool): nat {
    match intent
    case DirectInitial | HlsInitial => if firstByteSent then 128 * MIB else 4 * MIB
    case DirectSeek | HlsSeek | DirectSequential | HlsSequential => 128 * MIB
    case DownloadFull => 256 * MIB
    case DownloadRange => 32 * MIB
    case ContainerMetadata | InternalProbe | Background => 16 * MIB
  }

  /** The hot window is no larger than its bytes, but for a part of one piece, the cache and the file allow. */
  lemma HotWindowFits(ctx: PriorityContext)
    requires ctx.pieceLength > 0 && ctx.firstPiece <= ctx.currentPiece <= ctx.lastPiece && HotWindow(ctx) >= 1
    ensures (HotWindow(ctx) - 1) * ctx.pieceLength < HotBytes(ctx.intent, ctx.firstByteSent)
    ensures HotWindow(ctx) <= 96 && ctx.currentPiece + HotWindow(ctx) - 1 <= ctx.lastPiece
  {
    HotFitsBytes(ctx);
  }

  /** Nothing more could be urgent: what was asked for is given, or one of the limits is reached. */
  lemma HotWindowIsFull(ctx: PriorityContext)
    requires ctx.pieceLength > 0 && ctx.firstPiece <= ctx.currentPiece <= ctx.lastPiece && Exact(ctx)
    requires ctx.cacheSize / ctx.pieceLength <= I32_MAX
    ensures var hot := HotWindow(ctx);
      || hot == WantedHot(ctx) || hot == 96
      || (ctx.memoryPressure.High? && hot == if IsHls(ctx.intent) then 16 else 24)
      || (ctx.cacheSize > 0 && (hot + 1) * ctx.pieceLength > ctx.cacheSize)
      || ctx.currentPiece + hot - 1 == ctx.lastPiece
      || hot * ctx.pieceLength >= HotBytes(ctx.intent, ctx.firstByteSent)
  {
    var hot, bytes := HotWindow(ctx), HotBytes(ctx.intent, ctx.firstByteSent);
    WantedHotPositive(ctx);
    HoldsTheBytes(bytes, ctx.pieceLength);
    if ctx.cacheSize > 0 {
      JustBelow(ctx.cacheSize, ctx.pieceLength, Max(ctx.cacheSize / ctx.pieceLength, 1));
    }
  }

  lemma HoldsTheBytes(bytes: U64, pieceLength: U64)
    requires pieceLength > 0 && 0 < bytes <= 256 * MIB
    ensures PiecesForBytes(bytes, pieceLength) * pieceLength >= bytes
    ensures PiecesForBytes(bytes, pieceLength) >= 1
  {
    if bytes <= pieceLength {
      var sum := SatAddU64(bytes, pieceLength - 1);
      Quotient(sum, pieceLength, 1, sum - pieceLength);
    } else {
      var sum := bytes + pieceLength - 1;
      assert sum == sum / pieceLength * pieceLength + sum % pieceLength;
      MoreIsMore(sum, 2 * bytes, pieceLength);
      MoreIsMore(pieceLength, sum, pieceLength);
      Quotient(pieceLength, pieceLength, 1, 0);
      AtMostItself(2 * bytes, pieceLength);
    }
  }

  lemma AtMostItself(a: nat, b: nat)
    requires b > 0
    ensures a / b <= a
  {
    TimesMore(a / b, a / b, 1, b);
    assert a == a / b * b + a % b;
  }

  /** With no cache to speak of, a player is given 96 pieces in all, the hot ones first. */
  lemma WithoutCache(ctx: PriorityContext)
    requires ctx.cacheSize == 0 && 0 < ctx.pieceLength <= MIB && ctx.memoryPressure.Normal?
    requires 200 <= ctx.lastPiece - ctx.currentPiece < I32_MAX && Playing(ctx) && !DoublingWraps(ctx)
    ensures HotWindow(ctx) == Min(WantedHot(ctx), 96) && TotalWindow(ctx) == Min(HotWindow(ctx) + 32, 96)
  {
    WantedHotPositive(ctx);
    ByteCapLeaves(WantedHot(ctx), ctx.pieceLength, HotByteCap(ctx));
    ByteCapLeaves(32, ctx.pieceLength, MAX_WARM_WINDOW_BYTES);
  }
}
