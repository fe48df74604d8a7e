/**
  The piece-priority scheduler of enginefs/src/backend/priorities.rs.

  `HotWindow` and `WarmWindow` state each window as one minimum over everything that may
  limit it; `Decide` is the scheduler itself, which narrows its windows step by step and
  then pushes one assignment after another.  Integers have the original's widths: casts
  truncate, the doubling and the successor wrap as in a release build, and a negative
  window makes the allocation of the assignment list fail.
*/
module Priorities {
  import opened Wrappers
  import opened Machine

  const MIN_STARTUP_BYTES: U64 := 4 * 1024 * 1024
  const MAX_STARTUP_WINDOW_BYTES: U64 := 4 * 1024 * 1024
  const MAX_SEEK_HOT_WINDOW_BYTES: U64 := 128 * 1024 * 1024
  const MAX_WARM_WINDOW_BYTES: U64 := 256 * 1024 * 1024
  const MAX_CONTAINER_METADATA_WINDOW_BYTES: U64 := 16 * 1024 * 1024
  const MAX_DOWNLOAD_RANGE_WINDOW_BYTES: U64 := 32 * 1024 * 1024
  const SMALL_FILE_BYTES: U64 := 64 * 1024 * 1024
  const MAX_STARTUP_PIECES: I32 := 4
  const MAX_SMALL_FILE_STARTUP_PIECES: I32 := 32
  const MIN_STARTUP_PIECES: I32 := 2
  const MIN_SEEK_HOT_PIECES: I32 := 24
  const SEEK_IMMEDIATE_PIECES: I32 := 12
  const MAX_HOT_PIECES: I32 := 96
  const MAX_WARM_PIECES: I32 := 192
  const MIN_PIECE_DEADLINE_STEP_MS: U64 := 500
  const MAX_PIECE_DEADLINE_STEP_MS: U64 := 30_000

  datatype PlaybackIntent =
    | DirectInitial | DirectSeek | DirectSequential
    | HlsInitial | HlsSeek | HlsSequential
    | DownloadFull | DownloadRange
    | ContainerMetadata | InternalProbe | Background

  predicate IsHls(intent: PlaybackIntent) {
    intent.HlsInitial? || intent.HlsSeek? || intent.HlsSequential?
  }

  predicate IsInitial(intent: PlaybackIntent) {
    intent.DirectInitial? || intent.HlsInitial?
  }

  predicate IsSeek(intent: PlaybackIntent) {
    intent.DirectSeek? || intent.HlsSeek?
  }

  datatype MemoryPressure = Normal | High

  datatype PriorityBand = Immediate | Hot | Warm | Metadata | Idle

  datatype PriorityContext = PriorityContext(
    intent: PlaybackIntent,
    currentPiece: I32,
    firstPiece: I32,
    lastPiece: I32,
    pieceLength: U64,
    fileSize: U64,
    bitrate: Option<U64>,
    downloadRate: U64,
    peers: U64,
    cacheSize: U64,
    memoryPressure: MemoryPressure,
    consecutiveWaits: U32,
    firstByteSent: bool)

  datatype Assignment = Assignment(pieceIdx: I32, piecePriority: I32, deadline: I32, band: PriorityBand)

  datatype Decision = Decision(
    assignments: seq<Assignment>,
    targetWindow: I32,
    immediate: I32,
    hot: I32,
    warm: I32)

  /** The scheduler decides, or reserves a list of negative length and aborts. */
  datatype Outcome = Decided(decision: Decision) | CapacityOverflow

  /* ---- Pieces and bytes ---- */

  function PiecesForBytes(bytes: U64, pieceLength: U64): I32 {
    if bytes == 0 || pieceLength == 0 then 0
    else Clamp(SatAddU64(bytes, pieceLength - 1) / pieceLength, 1, I32_MAX)
  }

  function CapPiecesByBytes(pieces: I32, pieceLength: U64, maxBytes: U64): I32 {
    if pieces <= 0 || maxBytes == 0 then 0 else Min(pieces, Max(PiecesForBytes(maxBytes, pieceLength), 1))
  }

  function HotByteCap(ctx: PriorityContext): U64 {
    match ctx.intent
    case DirectInitial | HlsInitial => if ctx.firstByteSent then MAX_SEEK_HOT_WINDOW_BYTES else MAX_STARTUP_WINDOW_BYTES
    case DirectSeek | HlsSeek | DirectSequential | HlsSequential => MAX_SEEK_HOT_WINDOW_BYTES
    case DownloadFull => MAX_WARM_WINDOW_BYTES
    case DownloadRange => MAX_DOWNLOAD_RANGE_WINDOW_BYTES
    case ContainerMetadata | InternalProbe | Background => MAX_CONTAINER_METADATA_WINDOW_BYTES
  }

  function WarmByteCap(intent: PlaybackIntent): U64 {
    match intent
    case DirectInitial | DirectSeek | DirectSequential | HlsInitial | HlsSeek | HlsSequential | DownloadFull =>
      MAX_WARM_WINDOW_BYTES
    case DownloadRange | ContainerMetadata | InternalProbe | Background => 0
  }

  /* ---- The unlimited windows ---- */

  /** The window by download rate alone; the rate is compared with the bitrate without rounding. */
  function RateWindow(ctx: PriorityContext): I32 {
    if ctx.bitrate.Some? && ctx.bitrate.value > 0 then
      var bitrate := ctx.bitrate.value;
      if ctx.downloadRate >= 3 * bitrate then 96
      else if 2 * ctx.downloadRate >= 3 * bitrate then 48
      else if ctx.downloadRate >= bitrate then 32
      else MIN_SEEK_HOT_PIECES
    else if ctx.downloadRate > 10 * 1024 * 1024 then 96
    else if ctx.downloadRate > 5 * 1024 * 1024 then 48
    else if ctx.downloadRate > 1024 * 1024 then MIN_SEEK_HOT_PIECES
    else 16
  }

  /** Ten seconds of playback in pieces, as the truncating cast leaves it. */
  function TenSeconds(ctx: PriorityContext): I32
    requires ctx.pieceLength > 0
  {
    if ctx.bitrate.Some? && ctx.bitrate.value > 0
    then WrapI32(Max(SatMulU64(ctx.bitrate.value, 10) / ctx.pieceLength, 1))
    else I32_MIN
  }

  function DynamicHotWindow(ctx: PriorityContext): I32
    requires ctx.pieceLength > 0
  {
    var hot := Max(RateWindow(ctx), TenSeconds(ctx));
    if ctx.peers < 3 then Min(hot, MIN_SEEK_HOT_PIECES) else hot
  }

  function StartupPieces(ctx: PriorityContext): I32
    requires ctx.pieceLength > 0
  {
    var wanted := match ctx.bitrate
      case Some(bitrate) => Max(SatMulU64(bitrate, 10), MIN_STARTUP_BYTES)
      case None => if 0 < ctx.fileSize <= SMALL_FILE_BYTES then Min(ctx.fileSize, MAX_STARTUP_WINDOW_BYTES)
                   else MIN_STARTUP_BYTES;
    var target: U64 := Min(Max(wanted, ctx.pieceLength), Max(MAX_STARTUP_WINDOW_BYTES, ctx.pieceLength));
    var pieces := WrapI32(SatAddU64(target, ctx.pieceLength - 1) / ctx.pieceLength);
    var most := if ctx.bitrate.None? && ctx.fileSize <= SMALL_FILE_BYTES
      then Clamp(PiecesForBytes(Min(ctx.fileSize, MAX_STARTUP_WINDOW_BYTES), ctx.pieceLength), 1,
                 MAX_SMALL_FILE_STARTUP_PIECES)
      else MAX_STARTUP_PIECES;
    Clamp(pieces, Max(Min(MIN_STARTUP_PIECES, most), 1), most)
  }

  predicate IsStartup(ctx: PriorityContext) {
    IsInitial(ctx.intent) && !ctx.firstByteSent
  }

  predicate IsBlockedSeek(ctx: PriorityContext) {
    IsSeek(ctx.intent) && ctx.firstByteSent && ctx.consecutiveWaits >= 3
  }

  /** The window of a seek whose first byte is out. */
  function SeekWindow(ctx: PriorityContext): I32
    requires ctx.pieceLength > 0
  {
    var hot := Max(DynamicHotWindow(ctx), MIN_SEEK_HOT_PIECES);
    if ctx.consecutiveWaits >= 3 then Min(WrapI32(hot * 2), MAX_HOT_PIECES)
    else if IsHls(ctx.intent) then Min(hot, 48)
    else hot
  }

  /** The hot window the intent asks for, before anything limits it. */
  function WantedHot(ctx: PriorityContext): I32
    requires ctx.pieceLength > 0
  {
    if IsStartup(ctx) then StartupPieces(ctx)
    else if IsSeek(ctx.intent) then (if ctx.firstByteSent then SeekWindow(ctx) else 1)
    else if ctx.intent.DownloadFull? then 16
    else if ctx.intent.DownloadRange? || ctx.intent.Background? then 4
    else if ctx.intent.ContainerMetadata? || ctx.intent.InternalProbe? then 2
    else if IsHls(ctx.intent) then Min(DynamicHotWindow(ctx), 48)
    else DynamicHotWindow(ctx)
  }

  function WantedImmediate(ctx: PriorityContext): I32
    requires ctx.pieceLength > 0
  {
    if IsStartup(ctx) then Min(StartupPieces(ctx), MAX_STARTUP_PIECES)
    else if IsBlockedSeek(ctx) then Min(SEEK_IMMEDIATE_PIECES * 2, WantedHot(ctx))
    else if IsSeek(ctx.intent) then (if ctx.firstByteSent then SEEK_IMMEDIATE_PIECES else 1)
    else if ctx.intent.InternalProbe? || ctx.intent.Background? then 0
    else if ctx.intent.DownloadRange? || ctx.intent.ContainerMetadata? then 1
    else 2
  }

  function WantedWarm(ctx: PriorityContext): I32 {
    if ctx.intent.DirectSequential? || ctx.intent.HlsSequential? then 32
    else if (IsInitial(ctx.intent) || IsSeek(ctx.intent)) && ctx.firstByteSent then 32
    else 0
  }

  /* ---- The limits ---- */

  function CachePieces(ctx: PriorityContext): I32
    requires ctx.pieceLength > 0
  {
    if ctx.cacheSize > 0 then WrapI32(Max(ctx.cacheSize / ctx.pieceLength, 1)) else MAX_HOT_PIECES
  }

  function RemainingPieces(ctx: PriorityContext): I32 {
    WrapI32(SatSubI32(ctx.lastPiece, ctx.currentPiece) + 1)
  }

  /** What memory pressure leaves of a hot window. */
  function PressureCap(ctx: PriorityContext): I32 {
    if ctx.memoryPressure.Normal? then I32_MAX else if IsHls(ctx.intent) then 16 else MIN_SEEK_HOT_PIECES
  }

  /** The smallest of a wish, the largest hot window, the cache and what is left of the file. */
  function LimitHot(wanted: I32, cache: I32, remaining: I32): I32 {
    Min(Min(wanted, MAX_HOT_PIECES), Min(cache, remaining))
  }

  /** What cache and file leave for the warm window behind a hot one. */
  function LimitWarm(wanted: I32, cache: I32, remaining: I32, hot: I32): I32 {
    Min(wanted, Min(SatSubI32(cache, hot), SatSubI32(remaining, hot)))
  }

  /** The hot window once memory pressure and the byte cap have had their say. */
  function CappedHot(ctx: PriorityContext): I32
    requires ctx.pieceLength > 0
  {
    CapPiecesByBytes(Min(WantedHot(ctx), PressureCap(ctx)), ctx.pieceLength, HotByteCap(ctx))
  }

  function CappedWarm(ctx: PriorityContext): I32 {
    if ctx.memoryPressure.High? then 0
    else CapPiecesByBytes(WantedWarm(ctx), ctx.pieceLength, WarmByteCap(ctx.intent))
  }

  function HotWindow(ctx: PriorityContext): I32
    requires ctx.pieceLength > 0
  {
    LimitHot(CappedHot(ctx), CachePieces(ctx), RemainingPieces(ctx))
  }

  function WarmWindow(ctx: PriorityContext): I32
    requires ctx.pieceLength > 0
  {
    LimitWarm(CappedWarm(ctx), CachePieces(ctx), RemainingPieces(ctx), HotWindow(ctx))
  }

  function ImmediateWindow(ctx: PriorityContext): I32
    requires ctx.pieceLength > 0
  {
    Max(Min(WantedImmediate(ctx), HotWindow(ctx)), 0)
  }

  predicate ValidContext(ctx: PriorityContext) {
    ctx.pieceLength != 0 && ctx.currentPiece >= ctx.firstPiece && ctx.lastPiece >= ctx.firstPiece
  }

  /* ---- Deadlines and assignments ---- */

  function DivCeil(a: nat, b: nat): nat
    requires b > 0
  {
    if a % b == 0 then a / b else a / b + 1
  }

  /** The time a piece takes at the slower of the playback and the download rate. */
  function DeadlineStep(pieceLength: U64, bitrate: Option<U64>, downloadRate: U64): (step: I32)
    ensures 500 <= step <= 30_000
  {
    var playing := if bitrate.Some? && bitrate.value > 0 then bitrate else None;
    var rate: U64 := match playing
      case Some(b) => if downloadRate > 0 then Min(b, downloadRate) else b
      case None => if downloadRate > 0 then downloadRate else 1024 * 1024;
    Clamp(DivCeil(SatMulU64(pieceLength, 1_000), rate), MIN_PIECE_DEADLINE_STEP_MS, MAX_PIECE_DEADLINE_STEP_MS)
  }

  function BandAt(intent: PlaybackIntent, distance: int, immediate: int, hot: int): PriorityBand {
    match intent
    case ContainerMetadata => Metadata
    case InternalProbe | Background => Idle
    case _ => if distance < immediate then Immediate else if distance < hot then Hot else Warm
  }

  function PriorityOf(band: PriorityBand): I32 {
    match band
    case Immediate | Hot | Metadata => 7
    case Warm => 2
    case Idle => 1
  }

  function DelayOf(intent: PlaybackIntent, band: PriorityBand): int {
    match band
    case Immediate | Hot | Metadata => 0
    case Warm => 10_000
    case Idle => if intent.InternalProbe? then 10_000 else 30_000
  }

  function DeadlineAt(ctx: PriorityContext, distance: int, band: PriorityBand): int {
    var step: int := DeadlineStep(ctx.pieceLength, ctx.bitrate, ctx.downloadRate);
    DelayOf(ctx.intent, band) + distance * step
  }

  function AssignmentFor(ctx: PriorityContext, distance: I32, immediate: I32, hot: I32): (r: (PriorityBand, I32, I32))
    requires 0 <= distance < 1000
  {
    var step := DeadlineStep(ctx.pieceLength, ctx.bitrate, ctx.downloadRate);
    DistanceFits(distance, step);
    match ctx.intent
    case ContainerMetadata => (Metadata, 7, distance * step)
    case InternalProbe => (Idle, 1, 10_000 + distance * step)
    case Background => (Idle, 1, 30_000 + distance * step)
    case _ =>
      if distance < immediate then (Immediate, 7, distance * step)
      else if distance < hot then (Hot, 7, distance * step)
      else (Warm, 2, 10_000 + distance * step)
  }

  /** The three parts of an assignment agree with the band its distance falls in. */
  lemma AssignmentForBand(ctx: PriorityContext, distance: I32, immediate: I32, hot: I32)
    requires 0 <= distance < 1000
    ensures var band := BandAt(ctx.intent, distance, immediate, hot);
      AssignmentFor(ctx, distance, immediate, hot) == (band, PriorityOf(band), DeadlineAt(ctx, distance, band))
  {
  }

  lemma DistanceFits(distance: int, step: int)
    requires 0 <= distance < 1000 && 0 <= step <= 30_000
    ensures 0 <= distance * step <= 30_000_000
  {
  }

  /* ---- The scheduler ---- */

  /** A list that follows the windows of a context, piece by piece from the current one. */
  ghost predicate FollowsWindows(ctx: PriorityContext, list: seq<Assignment>, immediate: int, hot: int) {
    forall k :: 0 <= k < |list| ==>
      var band := BandAt(ctx.intent, k, immediate, hot);
      && list[k].pieceIdx == ctx.currentPiece + k
      && list[k].band == band
      && list[k].piecePriority == PriorityOf(band)
      && list[k].deadline == DeadlineAt(ctx, k, band)
  }

  lemma OneMoreFollows(ctx: PriorityContext, list: seq<Assignment>, immediate: I32, hot: I32)
    requires FollowsWindows(ctx, list, immediate, hot) && |list| < 1000
    requires ctx.currentPiece + |list| <= ctx.lastPiece
    ensures var (band, piecePriority, deadline) := AssignmentFor(ctx, |list|, immediate, hot);
      FollowsWindows(ctx, list + [Assignment(ctx.currentPiece + |list|, piecePriority, deadline, band)], immediate, hot)
  {
    AssignmentForBand(ctx, |list|, immediate, hot);
  }

  /** The list never leaves the file, and its length fits whatever the context. */
  lemma WindowBounds(ctx: PriorityContext)
    requires ctx.pieceLength > 0
    ensures HotWindow(ctx) <= MAX_HOT_PIECES && WarmWindow(ctx) <= 32
    ensures I32_MIN <= HotWindow(ctx) + WarmWindow(ctx) <= Max(RemainingPieces(ctx), -1)
  {
  }

  /** Clamping and narrowing in sequence amounts to the one minimum of the definition. */
  lemma NarrowingIsOneMinimum(hot: I32, warm: I32, cache: I32, remaining: I32)
    requires 0 <= hot && 0 <= warm <= MAX_WARM_PIECES
    ensures Min(Min(Clamp(hot, 0, MAX_HOT_PIECES), cache), remaining) == LimitHot(hot, cache, remaining)
    ensures var h := LimitHot(hot, cache, remaining);
      Min(Min(Clamp(warm, 0, MAX_WARM_PIECES), SatSubI32(cache, h)), SatSubI32(remaining, h)) ==
        LimitWarm(warm, cache, remaining, h)
  {
  }

  /** The windows, narrowed step by step. */
  method ChooseWindows(ctx: PriorityContext) returns (immediate: I32, hot: I32, warm: I32)
    requires ctx.pieceLength > 0
    ensures hot == HotWindow(ctx) && warm == WarmWindow(ctx) && immediate == ImmediateWindow(ctx)
  {
    var maxCachePieces := CachePieces(ctx);
    var remainingPieces := RemainingPieces(ctx);

    immediate, hot, warm := WantedWindows(ctx);
    if ctx.memoryPressure.High? {
      hot := Min(hot, if IsHls(ctx.intent) then 16 else MIN_SEEK_HOT_PIECES);
      warm := 0;
    }
    if ctx.intent.Background? || ctx.intent.InternalProbe? {
      warm := 0;
    }
    assert hot == Min(WantedHot(ctx), PressureCap(ctx));
    assert warm == if ctx.memoryPressure.High? then 0 else WantedWarm(ctx);
    hot := CapPiecesByBytes(hot, ctx.pieceLength, HotByteCap(ctx));
    warm := CapPiecesByBytes(warm, ctx.pieceLength, WarmByteCap(ctx.intent));
    assert hot == CappedHot(ctx) && warm == CappedWarm(ctx);
    NarrowingIsOneMinimum(hot, warm, maxCachePieces, remainingPieces);
    hot := Min(Min(Clamp(hot, 0, MAX_HOT_PIECES), maxCachePieces), remainingPieces);
    assert hot == HotWindow(ctx);
    warm := Min(Min(Clamp(warm, 0, MAX_WARM_PIECES), SatSubI32(maxCachePieces, hot)), SatSubI32(remainingPieces, hot));
    assert warm == WarmWindow(ctx);
    immediate := Max(Min(immediate, hot), 0);
  }

  /** What the intent asks for. */
  method WantedWindows(ctx: PriorityContext) returns (immediate: I32, hot: I32, warm: I32)
    requires ctx.pieceLength > 0
    ensures hot == WantedHot(ctx) && warm == WantedWarm(ctx)
    ensures Max(Min(immediate, HotWindow(ctx)), 0) == ImmediateWindow(ctx)
  {
    immediate, hot, warm := 0, 0, 0;
    if IsStartup(ctx) {
      var pieces := StartupPieces(ctx);
      immediate, hot := Min(pieces, MAX_STARTUP_PIECES), pieces;
    } else if IsSeek(ctx.intent) && !ctx.firstByteSent {
      immediate, hot := 1, 1;
    } else if IsSeek(ctx.intent) {
      hot := Max(DynamicHotWindow(ctx), MIN_SEEK_HOT_PIECES);
      immediate := SEEK_IMMEDIATE_PIECES;
      if ctx.consecutiveWaits >= 3 {
        hot := Min(WrapI32(hot * 2), MAX_HOT_PIECES);
        immediate := Min(immediate * 2, hot);
      }
      if IsHls(ctx.intent) && ctx.consecutiveWaits < 3 {
        hot := Min(hot, 48);
      }
      warm := 32;
    } else if ctx.intent.DownloadFull? {
      immediate, hot := 2, 16;
    } else if ctx.intent.DownloadRange? {
      immediate, hot := 1, 4;
    } else if ctx.intent.ContainerMetadata? {
      immediate, hot := 1, 2;
    } else if ctx.intent.InternalProbe? {
      hot := 2;
    } else if ctx.intent.Background? {
      hot := 4;
    } else {
      hot := DynamicHotWindow(ctx);
      if IsHls(ctx.intent) {
        hot := Min(hot, 48);
      }
      immediate, warm := 2, 32;
    }
  }

  /** One assignment after the other, from the current piece to the end of the window or of the file. */
  method AssignWindow(ctx: PriorityContext, immediate: I32, hot: I32, targetWindow: I32)
    returns (assignments: seq<Assignment>)
    requires 0 <= targetWindow <= 1000
    ensures FollowsWindows(ctx, assignments, immediate, hot)
    ensures |assignments| == Max(0, Min(targetWindow, ctx.lastPiece - ctx.currentPiece + 1))
  {
    assignments := [];
    var distance := 0;
    while distance < targetWindow
      invariant 0 <= distance <= targetWindow && |assignments| == distance
      invariant distance == 0 || ctx.currentPiece + distance - 1 <= ctx.lastPiece
      invariant FollowsWindows(ctx, assignments, immediate, hot)
    {
      var pieceIdx := ctx.currentPiece + distance;
      if pieceIdx > ctx.lastPiece {
        break;
      }
      var (band, piecePriority, deadline) := AssignmentFor(ctx, distance, immediate, hot);
      OneMoreFollows(ctx, assignments, immediate, hot);
      assignments := assignments + [Assignment(pieceIdx, piecePriority, deadline, band)];
      distance := distance + 1;
    }
  }

  method Decide(ctx: PriorityContext) returns (r: Outcome)
    ensures !ValidContext(ctx) ==> r == Decided(Decision([], 0, 0, 0, 0))
    ensures ValidContext(ctx) ==> Decides(ctx, r)
  {
    if ctx.pieceLength == 0 || ctx.currentPiece < ctx.firstPiece || ctx.lastPiece < ctx.firstPiece {
      return Decided(Decision([], 0, 0, 0, 0));
    }
    var immediate, hot, warm := ChooseWindows(ctx);
    WindowBounds(ctx);
    var targetWindow := hot + warm;
    if targetWindow < 0 {
      return CapacityOverflow;
    }
    var assignments := AssignWindow(ctx, immediate, hot, targetWindow);
    return Decided(Decision(assignments, targetWindow, immediate, hot, warm));
  }

  /** What the scheduler answers for a context it does not reject. */
  ghost predicate Decides(ctx: PriorityContext, r: Outcome)
    requires ctx.pieceLength > 0
  {
    if HotWindow(ctx) + WarmWindow(ctx) < 0 then r == CapacityOverflow
    else
      && r.Decided?
      && r.decision.hot == HotWindow(ctx) && r.decision.warm == WarmWindow(ctx)
      && r.decision.immediate == ImmediateWindow(ctx)
      && r.decision.targetWindow == HotWindow(ctx) + WarmWindow(ctx)
      && |r.decision.assignments| == Max(0, Min(r.decision.targetWindow, ctx.lastPiece - ctx.currentPiece + 1))
      && FollowsWindows(ctx, r.decision.assignments, r.decision.immediate, r.decision.hot)
  }
}
