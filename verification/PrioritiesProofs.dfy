/** What the windows of the scheduler promise. */
module PrioritiesProofs {
  import opened Machine
  import opened Priorities

  /* ---- Bytes ---- */

  /** A cap in bytes holds for all pieces of a window but the last. */
  lemma CappedWindowFits(pieces: I32, pieceLength: U64, maxBytes: U64)
    requires pieceLength > 0 && maxBytes <= MAX_WARM_WINDOW_BYTES
    ensures var n := CapPiecesByBytes(pieces, pieceLength, maxBytes);
      n > 0 ==> (n - 1) * pieceLength < maxBytes
  {
    var n := CapPiecesByBytes(pieces, pieceLength, maxBytes);
    if n > 1 {
      var sum := SatAddU64(maxBytes, pieceLength - 1);
      var quotient := sum / pieceLength;
      QuotientFits(sum, pieceLength);
      assert n <= quotient;
      assert (n - 1) * pieceLength <= (quotient - 1) * pieceLength by {
        MulMonotone(n - 1, quotient - 1, pieceLength);
      }
    }
  }

  lemma QuotientFits(a: nat, b: nat)
    requires b > 0
    ensures (a / b) * b <= a && (a / b - 1) * b == (a / b) * b - b
  {
  }

  lemma MulMonotone(a: int, b: int, c: nat)
    requires a <= b
    ensures a * c <= b * c
  {
  }

  /* ---- Window shape ---- */

  /** Doubling a blocked seek's window leaves 32 bits: ten seconds fill 2^30 pieces or more. */
  predicate DoublingWraps(ctx: PriorityContext)
    requires ctx.pieceLength > 0
  {
    IsBlockedSeek(ctx) && ctx.peers >= 3 && TenSeconds(ctx) >= 0x4000_0000
  }

  /**
    No 32-bit number the scheduler computes on the way leaves its range harmfully: the rest of
    the file fits, doubling does not wrap, and the count of cached pieces is positive after its
    cast, be it the true count or not.
  */
  predicate Exact(ctx: PriorityContext)
    requires ctx.pieceLength > 0
  {
    && ctx.lastPiece - ctx.currentPiece < I32_MAX
    && CachePieces(ctx) > 0
    && !DoublingWraps(ctx)
  }

  /** Bands run Immediate, Hot, Warm, or are one band throughout. */
  function Rank(band: PriorityBand): nat {
    match band
    case Immediate => 0
    case Hot => 1
    case Warm => 2
    case Metadata => 3
    case Idle => 4
  }

  ghost predicate Ordered(list: seq<Assignment>) {
    forall j, k :: 0 <= j < k < |list| ==>
      && Rank(list[j].band) <= Rank(list[k].band)
      && list[j].piecePriority >= list[k].piecePriority
      && list[j].deadline < list[k].deadline
  }

  /** The decision plans consecutive pieces from the current one, urgent ones first. */
  ghost predicate Shape(ctx: PriorityContext, d: Decision)
    requires ctx.pieceLength > 0
  {
    && |d.assignments| == d.targetWindow == d.hot + d.warm
    && 0 <= d.immediate <= d.hot && 1 <= d.hot && 0 <= d.warm
    && (forall k :: 0 <= k < |d.assignments| ==> d.assignments[k].pieceIdx == ctx.currentPiece + k <= ctx.lastPiece)
    && Ordered(d.assignments)
    && (forall k :: 0 <= k < |d.assignments| ==> (d.assignments[k].band == Warm <==> k >= d.hot))
    && (ctx.cacheSize > 0 ==> d.targetWindow * ctx.pieceLength <= Max(ctx.cacheSize, ctx.pieceLength))
    && (ctx.cacheSize == 0 ==> d.targetWindow <= 96)
    && (d.hot - 1) * ctx.pieceLength < HotByteCap(ctx)
    && (d.warm > 0 ==> (d.warm - 1) * ctx.pieceLength < WarmByteCap(ctx.intent))
  }

  lemma WantedHotPositive(ctx: PriorityContext)
    requires ctx.pieceLength > 0
    ensures !DoublingWraps(ctx) ==> WantedHot(ctx) >= 1
    ensures DoublingWraps(ctx) ==> WantedHot(ctx) < 0
  {
  }

  /** There is an urgent window, in step with the cache and the file, exactly without wrapping. */
  lemma HotWindowPositiveIff(ctx: PriorityContext)
    requires ctx.pieceLength > 0 && ctx.firstPiece <= ctx.currentPiece <= ctx.lastPiece
    ensures HotWindow(ctx) >= 1 <==> Exact(ctx)
    ensures Exact(ctx) ==>
      && WarmWindow(ctx) >= 0 && RemainingPieces(ctx) == ctx.lastPiece - ctx.currentPiece + 1
      && HotWindow(ctx) + WarmWindow(ctx) <= CachePieces(ctx)
      && HotWindow(ctx) + WarmWindow(ctx) <= RemainingPieces(ctx)
  {
    WantedHotPositive(ctx);
  }

  /** Assignments of a list that follows windows are ordered. */
  lemma FollowingIsOrdered(ctx: PriorityContext, list: seq<Assignment>, immediate: int, hot: int)
    requires ctx.pieceLength > 0 && FollowsWindows(ctx, list, immediate, hot) && immediate <= hot
    ensures Ordered(list)
  {
    forall j, k | 0 <= j < k < |list|
      ensures && Rank(list[j].band) <= Rank(list[k].band)
              && list[j].piecePriority >= list[k].piecePriority
              && list[j].deadline < list[k].deadline
    {
      var step: int := DeadlineStep(ctx.pieceLength, ctx.bitrate, ctx.downloadRate);
      LaterIsLonger(j, k, step);
    }
  }

  lemma LaterIsLonger(j: int, k: int, step: int)
    requires j < k && step > 0
    ensures j * step < k * step
  {
  }

  lemma CacheHolds(ctx: PriorityContext, pieces: int)
    requires ctx.pieceLength > 0 && ctx.cacheSize > 0 && 0 <= pieces <= CachePieces(ctx)
    ensures pieces * ctx.pieceLength <= Max(ctx.cacheSize, ctx.pieceLength)
  {
    var exact := Max(ctx.cacheSize / ctx.pieceLength, 1);
    assert pieces <= exact;
    MulMonotone(pieces, exact, ctx.pieceLength);
    QuotientFits(ctx.cacheSize, ctx.pieceLength);
  }

  /**
    For every context with the current piece inside the file, the scheduler's answer has the
    promised shape exactly when none of its 32-bit numbers leaves its range.
  */
  lemma WindowShapeIff(ctx: PriorityContext, r: Outcome)
    requires ctx.pieceLength > 0 && ctx.firstPiece <= ctx.currentPiece <= ctx.lastPiece
    requires Decides(ctx, r)
    ensures r.Decided? && Shape(ctx, r.decision) <==> Exact(ctx)
  {
    HotWindowPositiveIff(ctx);
    if Exact(ctx) {
      var d := r.decision;
      FollowingIsOrdered(ctx, d.assignments, d.immediate, d.hot);
      if ctx.cacheSize > 0 {
        CacheHolds(ctx, d.targetWindow);
      }
      HotFitsBytes(ctx);
      WarmFitsBytes(ctx);
    }
  }

  lemma HotFitsBytes(ctx: PriorityContext)
    requires ctx.pieceLength > 0 && HotWindow(ctx) >= 1
    ensures (HotWindow(ctx) - 1) * ctx.pieceLength < HotByteCap(ctx)
  {
    var wanted := Min(WantedHot(ctx), PressureCap(ctx));
    CappedWindowFits(wanted, ctx.pieceLength, HotByteCap(ctx));
    MulMonotone(HotWindow(ctx) - 1, CapPiecesByBytes(wanted, ctx.pieceLength, HotByteCap(ctx)) - 1, ctx.pieceLength);
  }

  lemma WarmFitsBytes(ctx: PriorityContext)
    requires ctx.pieceLength > 0
    ensures WarmWindow(ctx) > 0 ==> (WarmWindow(ctx) - 1) * ctx.pieceLength < WarmByteCap(ctx.intent)
  {
    if WarmWindow(ctx) > 0 {
      CappedWindowFits(WantedWarm(ctx), ctx.pieceLength, WarmByteCap(ctx.intent));
      MulMonotone(WarmWindow(ctx) - 1, CapPiecesByBytes(WantedWarm(ctx), ctx.pieceLength, WarmByteCap(ctx.intent)) - 1,
                  ctx.pieceLength);
    }
  }

  /** The count of pieces a cache of a known size holds, read as a signed number, is negative. */
  predicate CacheCountWraps(ctx: PriorityContext)
    requires ctx.pieceLength > 0
  {
    ctx.cacheSize > 0 && ctx.cacheSize / ctx.pieceLength % 0x1_0000_0000 > I32_MAX
  }

  /** The current piece lies two or more behind the last one, or the rest of the file fills the word. */
  predicate RestIsNegative(ctx: PriorityContext) {
    ctx.currentPiece > ctx.lastPiece + 1 || ctx.lastPiece - ctx.currentPiece >= I32_MAX
  }

  /**
    A context that is not rejected makes the scheduler abort exactly when the count of cached
    pieces wraps or the count of remaining pieces is negative.
  */
  lemma AbortsIff(ctx: PriorityContext, r: Outcome)
    requires ValidContext(ctx) && Decides(ctx, r)
    ensures r == CapacityOverflow <==> CacheCountWraps(ctx) || RestIsNegative(ctx)
  {
    CappedAreNat(ctx);
    NegativeWindow(ctx);
    CacheNegativeIff(ctx);
  }

  /** The whole window is negative exactly when one of the two counts is. */
  lemma NegativeWindow(ctx: PriorityContext)
    requires ctx.pieceLength > 0 && CappedHot(ctx) >= 0 && CappedWarm(ctx) >= 0
    ensures HotWindow(ctx) + WarmWindow(ctx) < 0 <==> CachePieces(ctx) < 0 || RemainingPieces(ctx) < 0
  {
  }

  lemma CacheNegativeIff(ctx: PriorityContext)
    requires ctx.pieceLength > 0
    ensures CachePieces(ctx) < 0 <==> CacheCountWraps(ctx)
  {
  }

  /** A cache of 2^31 pieces is read as a negative number, and the scheduler aborts. */
  lemma HugeCacheAborts(ctx: PriorityContext, r: Outcome)
    requires ctx.pieceLength == 16384 && ctx.cacheSize == 0x8000_0000 * 16384
    requires ctx.firstPiece <= ctx.currentPiece <= ctx.lastPiece && Decides(ctx, r)
    ensures r == CapacityOverflow
  {
    assert ctx.cacheSize / ctx.pieceLength == 0x8000_0000;
    AbortsIff(ctx, r);
  }

  /* ---- Monotonicity ---- */

  function TotalWindow(ctx: PriorityContext): int
    requires ctx.pieceLength > 0
  {
    HotWindow(ctx) + WarmWindow(ctx)
  }

  /** More wanted ahead never leaves less in all: the warm window gives way piece for piece. */
  lemma LimitsMonotone(a: I32, b: I32, warm: I32, cache: I32, remaining: I32)
    requires Min(a, MAX_HOT_PIECES) <= Min(b, MAX_HOT_PIECES) && 0 <= a && 0 <= b && 0 <= warm
    ensures var hotA, hotB := LimitHot(a, cache, remaining), LimitHot(b, cache, remaining);
      && hotA <= hotB
      && hotA + LimitWarm(warm, cache, remaining, hotA) <= hotB + LimitWarm(warm, cache, remaining, hotB)
  {
  }

  lemma CapMonotone(a: I32, b: I32, pieceLength: U64, maxBytes: U64)
    requires Min(a, MAX_HOT_PIECES) <= Min(b, MAX_HOT_PIECES)
    ensures Min(CapPiecesByBytes(a, pieceLength, maxBytes), MAX_HOT_PIECES) <=
            Min(CapPiecesByBytes(b, pieceLength, maxBytes), MAX_HOT_PIECES)
    ensures a <= b ==> CapPiecesByBytes(a, pieceLength, maxBytes) <= CapPiecesByBytes(b, pieceLength, maxBytes)
  {
  }

  /** Two contexts with the same cache and the same rest of the file. */
  lemma CappedMonotone(a: PriorityContext, b: PriorityContext)
    requires a.pieceLength > 0 && b.pieceLength > 0
    requires CachePieces(a) == CachePieces(b) && RemainingPieces(a) == RemainingPieces(b)
    requires Min(CappedHot(a), MAX_HOT_PIECES) <= Min(CappedHot(b), MAX_HOT_PIECES)
    requires 0 <= CappedHot(a) && 0 <= CappedHot(b) && 0 <= CappedWarm(a) <= CappedWarm(b)
    ensures HotWindow(a) <= HotWindow(b) && TotalWindow(a) <= TotalWindow(b)
  {
    LimitsMonotone(CappedHot(a), CappedHot(b), CappedWarm(a), CachePieces(a), RemainingPieces(a));
  }

  lemma CappedAreNat(ctx: PriorityContext)
    requires ctx.pieceLength > 0
    ensures CappedHot(ctx) >= 0 && CappedWarm(ctx) >= 0
  {
  }

  /** Contexts that only differ in how much hot window they want: more wanted, more given. */
  lemma WiderWantIsWider(a: PriorityContext, b: PriorityContext)
    requires a.pieceLength > 0
    requires b == a.(downloadRate := b.downloadRate, consecutiveWaits := b.consecutiveWaits)
    requires Min(WantedHot(b), MAX_HOT_PIECES) >= Min(WantedHot(a), MAX_HOT_PIECES)
    ensures HotWindow(b) >= HotWindow(a) && TotalWindow(b) >= TotalWindow(a)
  {
    CapMonotone(Min(WantedHot(a), PressureCap(a)), Min(WantedHot(b), PressureCap(b)), a.pieceLength, HotByteCap(a));
    CappedAreNat(a);
    CappedAreNat(b);
    assert CappedWarm(a) == CappedWarm(b);
    CappedMonotone(a, b);
  }

  /** The startup window looks at neither the rate, nor the waits, nor memory pressure. */
  lemma StartupIgnores(ctx: PriorityContext, rate: U64, waits: U32, pressure: MemoryPressure)
    requires ctx.pieceLength > 0
    ensures StartupPieces(ctx.(downloadRate := rate, consecutiveWaits := waits, memoryPressure := pressure)) ==
            StartupPieces(ctx)
  {
  }

  lemma FasterWantsMore(ctx: PriorityContext, rate: U64)
    requires ctx.pieceLength > 0 && rate >= ctx.downloadRate
    ensures var faster := ctx.(downloadRate := rate);
      Min(WantedHot(faster), MAX_HOT_PIECES) >= Min(WantedHot(ctx), MAX_HOT_PIECES)
  {
    var faster := ctx.(downloadRate := rate);
    StartupIgnores(ctx, rate, ctx.consecutiveWaits, ctx.memoryPressure);
    assert RateWindow(faster) >= RateWindow(ctx);
    assert DynamicHotWindow(faster) >= DynamicHotWindow(ctx);
  }

  /** A faster download never narrows the hot window nor the whole window. */
  lemma FasterNeverShrinks(ctx: PriorityContext, rate: U64)
    requires ctx.pieceLength > 0 && rate >= ctx.downloadRate
    ensures var faster := ctx.(downloadRate := rate);
      HotWindow(faster) >= HotWindow(ctx) && TotalWindow(faster) >= TotalWindow(ctx)
  {
    FasterWantsMore(ctx, rate);
    WiderWantIsWider(ctx, ctx.(downloadRate := rate));
  }

  lemma BlockedWantsMore(ctx: PriorityContext, waits: U32)
    requires ctx.pieceLength > 0 && ctx.consecutiveWaits < 3 <= waits
    requires !DoublingWraps(ctx.(consecutiveWaits := waits))
    ensures Min(WantedHot(ctx.(consecutiveWaits := waits)), MAX_HOT_PIECES) >= Min(WantedHot(ctx), MAX_HOT_PIECES)
  {
    StartupIgnores(ctx, ctx.downloadRate, waits, ctx.memoryPressure);
    assert DynamicHotWindow(ctx.(consecutiveWaits := waits)) == DynamicHotWindow(ctx);
  }

  /**
    Three or more consecutive waits never narrow the windows, exactly when doubling the
    window stays within 32 bits.
  */
  lemma WaitingNeverShrinksIff(ctx: PriorityContext, waits: U32)
    requires ctx.pieceLength > 0 && ctx.firstPiece <= ctx.currentPiece <= ctx.lastPiece
    requires Exact(ctx) && ctx.consecutiveWaits < 3 <= waits
    ensures var blocked := ctx.(consecutiveWaits := waits);
      HotWindow(blocked) >= HotWindow(ctx) && TotalWindow(blocked) >= TotalWindow(ctx) <==> !DoublingWraps(blocked)
  {
    var blocked := ctx.(consecutiveWaits := waits);
    if DoublingWraps(blocked) {
      HotWindowPositiveIff(ctx);
      HotWindowPositiveIff(blocked);
    } else {
      BlockedWantsMore(ctx, waits);
      WiderWantIsWider(ctx, blocked);
    }
  }

  lemma PressureWantsSame(ctx: PriorityContext, pressure: MemoryPressure)
    requires ctx.pieceLength > 0
    ensures WantedHot(ctx.(memoryPressure := pressure)) == WantedHot(ctx)
  {
    StartupIgnores(ctx, ctx.downloadRate, ctx.consecutiveWaits, pressure);
    assert DynamicHotWindow(ctx.(memoryPressure := pressure)) == DynamicHotWindow(ctx);
  }

  /** High memory pressure never widens the windows. */
  lemma PressureNeverGrows(ctx: PriorityContext)
    requires ctx.pieceLength > 0 && ctx.memoryPressure.Normal?
    ensures var high := ctx.(memoryPressure := High);
      HotWindow(high) <= HotWindow(ctx) && TotalWindow(high) <= TotalWindow(ctx)
  {
    var high := ctx.(memoryPressure := High);
    PressureWantsSame(ctx, High);
    CapMonotone(Min(WantedHot(high), PressureCap(high)), Min(WantedHot(ctx), PressureCap(ctx)),
                ctx.pieceLength, HotByteCap(ctx));
    CappedAreNat(high);
    CappedAreNat(ctx);
    CappedMonotone(high, ctx);
  }
}
