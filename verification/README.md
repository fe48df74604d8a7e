# A streaming engine, modelled and proved

This project models the parts of a torrent streaming server whose correctness is hardest to see
from the code, and proves what they promise. `dafny verify dfyconfig.toml` checks all of it.

**Playback lifecycle** (`Lifecycle*.dfy`, `EngineFs.dfy`, `GenerationRace.dfy`, `StartRace.dfy`). The engine
counts streams per torrent and per file, keeps HLS leases that expire, selects one wanted file
per multi-file torrent under a numbered generation, pauses idle torrents, and leaves detached
tasks behind (file cleanups, idle pauses, a periodic sweep, a resume after seeding is turned
on) that race with new requests. `Lifecycle` is a transition system with one step per call,
task and sweep action; `EngineFs` is the object itself, whose methods update its tables in
place and are each proved to take exactly the step they implement. The theorems hold over all runs;
for each table they say what puts an entry there and exactly how long it stays.

**Piece priorities** (`Priorities.dfy`, `PrioritiesProofs.dfy`, `PrioritiesPlans.dfy`). The scheduler narrows its
windows step by step in 32-bit arithmetic; each window is specified as one minimum over all
its limits, and the list of assignments is proved to have the intended shape exactly when no
number on the way leaves its word harmfully. What a plan means is stated in bytes, rates and
milliseconds.

**Parsers.** Bencode and the raw info dictionary of a torrent file (`Bencode*.dfy`,
`Numerals.dfy`, `Bep3.dfy`, `InfoHash*.dfy`), EBML variable-size integers and the SeekHead
(`Ebml.dfy`, `SeekHead.dfy`, `SeekHeadGaps.dfy`), the MP4 sample-to-chunk table
(`SampleToChunk.dfy`), and WebVTT (`Subtitles*.dfy`). Each is proved against what
the format means: a grammar, an encoder, the partial sums of a table, or a printer.

**Data paths.** Reads through a shared chunk cache against the plain file (`ChunkCache.dfy`,
`CachedStream.dfy`, `ChunkPrefetch.dfy`), one probe per file under every interleaving (`SingleFlight.dfy`,
`ProbeEngine.dfy`), reassembly of a file from pieces (`DiskCache.dfy`), and eviction by age and
size (`Eviction.dfy`).

`Wrappers.dfy`, `Machine.dfy`, `Decimal.dfy` and `Sequences.dfy` hold optional values, machine
integers, decimal numerals and facts about slices.

## Where the code does not do what one would expect

Each of these is stated as an exact condition, with the case that fails.

- A progress poll that finds its lease expired drops the lease but leaves the selection
  (lib.rs:1010-1013). Selecting a file directly while nobody plays it does the same, and no
  other step strands a selection (`StepHoldsIff`). No task and no sweep clears a stranded
  selection; what still reaches it is a new activation of its torrent or the end of a stream of
  its file, and nothing else (`StrandedStaysIff`, `StrandedUntilReached`).
- A refused resume leaves an active torrent marked as paused by the policy; nothing else does
  (`StepSafeIffResumed`).
- A stream start activates its file and counts the stream later. A pause that comes in between
  holds a torrent of one file while it is read, although every resume succeeds; a torrent of several
  files is protected while its selection stands (`MoveSafeIff`, `PausedMeanwhileIff`,
  `ProtectedIsCountedAwake`, `SingleFileIsPausedInBetween`).
- Removing a torrent by hand while one of its files is selected breaks the tie between the
  selection and the backend's plan (`RemovalKeepsIffUnselected`).
- The scheduler's casts to 32 bits wrap for a cache of 2^31 pieces, for ten seconds of 2^30
  pieces, and for a file of 2^31 remaining pieces (`WindowShapeIff`, `HugeCacheAborts`). It also
  aborts when the current piece lies two or more behind the last one, which it does not reject
  (`PrioritiesProofs.AbortsIff`).
- A byte string whose length cannot be added to its own position aborts the bencode parser,
  wherever it stands in well-formed lists and dictionaries, and nothing else does
  (`BencodeAborts.AbortsIff`).
- The search for "4:info" takes the first occurrence anywhere in the file, so a comment can be
  hashed in place of the info dictionary (`ExtractsInfoIff`, `CommentIsHashedInstead`).
- A sample right behind an empty chunk of the sample-to-chunk table is given an empty chunk, and a
  sample whose chunk ends at sample 2^32 - 1 or later is missed unless it is the chunk's first; every
  other sample is given the chunk that holds it, if that chunk's number has 32 bits (`FoundIff`,
  `Search`, `EmptyChunkIsFound`, `LongChunkIsMissed`).
- A stream whose stated length exceeds its file goes round at the real end for as long as its
  fetches succeed (`SpinsIffFileIsShorter`), until one waits or fails (`SpinsUntilAnotherAnswer`).
- Cues of a hundred hours or more are printed but not read back, and styles and blank lines do
  not survive (`RoundTripIff`). Converting printed text once more then drops the long cues
  (`ConvertingAgainChangesNothingIff`). Digits of other scripts are taken for digits of a time and
  count as zero (`OtherDigitsCountAsZero`).
- The clean-up tracks what is on disk unless the walk leaves a file with a size that two nested
  directories list; such a file is counted twice (`CleanCache`, `TwiceListedIsTwiceCounted`). The
  server as it is started hands over one directory (server/src/state.rs:69-76,
  cache_cleaner.rs:110-115) and lists nothing twice.
- The test at priorities.rs:630-633 expects priority 4 for the first hot piece; the code at line
  531 gives it 7, as the repository's README.md:25 says, and the model follows the code.

## Modelling decisions

Public calls, tasks and sweep actions are atomic, except in `GenerationRace`, where taking a
generation and storing it are separate steps, and in `StartRace`, where a stream start is cut into
its activation and its two counts. The backend leaves playback to this layer; a
backend call whose failure is observed carries its outcome as a parameter. Clocks are numbers that
do not decrease. The ratio of two rates is compared by cross-multiplication. A digest is a
parameter. The outcome of polling a fetch, of a delete and of a write is a parameter as well.
Sums that leave a machine word are an outcome of their own in the bencode parser, where the
code aborts; in the scheduler, the sample-to-chunk search, seeks and the start of a piece they
wrap as in a release build.

## Model

| member | source | states |
|---|---|---|
| EngineFs.EngineFS.constructor | enginefs/src/lib.rs:180-226 | A new engine is an initial state: restored torrents, empty tables, seeding on |
| EngineFs.EngineFS.OnStreamStart | enginefs/src/lib.rs:703-735 | A stream start changes the tables exactly as its step: activation first, then both counters |
| EngineFs.EngineFS.ActivateFileForPlayback | enginefs/src/lib.rs:738-796 | Activation resumes a torrent the policy paused and hands over to the selector or to the single-file path, as the step does |
| EngineFs.EngineFS.ActivateMultifileFileForPlayback | enginefs/src/lib.rs:798-815 | A direct selection is the selection step and nothing else |
| EngineFs.EngineFS.ActivateMultifileFile | enginefs/src/lib.rs:817-887 | Selecting a file issues the next generation, drops sibling leases and counters, and sends the plan |
| EngineFs.EngineFS.RefreshHlsPlayback | enginefs/src/lib.rs:927-982 | A refresh writes the lease and activates its file |
| EngineFs.EngineFS.RefreshExistingHlsPlayback | enginefs/src/lib.rs:984-1046 | A progress poll never creates a lease: it refreshes an active one, drops an expired one, ignores a missing one |
| EngineFs.EngineFS.EndHlsPlayback | enginefs/src/lib.rs:1048-1086 | Ending playback removes the lease and spawns a cleanup and a pause only if there was one |
| EngineFs.EngineFS.DropStream | enginefs/src/lib.rs:1091-1120 | Both counters go down by one, vanish at zero, and are reported |
| EngineFs.EngineFS.OnStreamEnd | enginefs/src/lib.rs:1088-1138 | The end of a stream spawns a cleanup when the file has no stream left and a pause when the torrent has none either |
| EngineFs.EngineFS.RunFileCleanup | enginefs/src/lib.rs:1284-1409 | A delayed cleanup does exactly its step: skip on activity or a newer generation, else release the file |
| EngineFs.EngineFS.ReleaseUnusedFile | enginefs/src/lib.rs:1317-1391 | Releasing a file clears its selection and active mark and tells the backend what is wanted now |
| EngineFs.EngineFS.RunTorrentPause | enginefs/src/lib.rs:1173-1246 | A delayed pause marks and pauses an idle torrent, and takes the mark back if the backend refuses |
| EngineFs.EngineFS.SweepExpiredLeases | enginefs/src/lib.rs:238-344 | The sweep drops exactly the expired leases and releases their files one by one, in some order |
| EngineFs.EngineFS.SweepInactiveEngines | enginefs/src/lib.rs:346-463 | The sweep removes exactly the engines its step removes, which `SweepTakesIff` says in terms of the run |
| EngineFs.EngineFS.SweepIdleEngines | enginefs/src/lib.rs:465-528 | With seeding off the sweep pauses exactly the idle torrents with metadata, each as its backend allows, in whatever order it visits them; with seeding on it changes nothing |
| EngineFs.EngineFS.SetSeedingEnabled | enginefs/src/lib.rs:1503-1513 | Turning seeding on leaves one resume task behind |
| EngineFs.EngineFS.RunResumeAll | enginefs/src/lib.rs:1513-1530 | The resume task wakes every torrent the policy paused, except those that refuse |
| LifecycleProofs.StepKeeps | enginefs/src/lib.rs:817-923 | Every step keeps the invariant that ties selections, leases, counters and the backend's plan together |
| LifecycleTheorems.RunKeeps | enginefs/src/lib.rs:817-923 | The invariant holds in every reachable state |
| LifecycleTheorems.OneWantedFile | enginefs/src/lib.rs:817-923 | In every reachable state the backend's last plan names exactly the selected file, or none, and all leases and counters of the torrent are that file's |
| LifecycleTheorems.RemovalKeepsIffUnselected | enginefs/src/lib.rs:588-591 | Removal by hand keeps the invariant if and only if no file of the torrent is selected |
| LifecycleTheorems.StepHoldsIff | enginefs/src/lib.rs:984-1046 | A step leaves every selection held by a counter, a lease or a cleanup of its own generation if and only if it is not one of two stranding calls |
| LifecycleTheorems.NoSelectionLeaks | enginefs/src/lib.rs:249-286 | Over every run without stranding calls, every selected file has a counter, a lease, or a pending cleanup of exactly its generation |
| LifecycleTheorems.ProgressPollLeaks | enginefs/src/lib.rs:1010-1013 | A refresh, the life of its lease and one poll leave a selection that no counter, lease or cleanup holds |
| LifecycleRelease.StrandedStaysIff | enginefs/src/lib.rs:984-1046 | A selection that nothing holds stays as it is through a step if and only if the step is not an activation of its torrent nor the end of a stream of its file |
| LifecycleRelease.StrandedUntilReached | enginefs/src/lib.rs:227-344 | Over every run such a selection stays until one of those calls comes: no task and no sweep clears it |
| LifecycleRelease.SweepClearsIff | enginefs/src/lib.rs:238-344 | The sweep clears a selection if and only if its lease has expired and no stream reads the file |
| LifecycleRelease.CleanupClearsIff | enginefs/src/lib.rs:1284-1345 | A cleanup clears a selection if and only if it is for that file and generation and neither a stream nor an active lease wants the file |
| LifecycleRelease.SelectionEndsIff | enginefs/src/lib.rs:238-344 | In any stretch of a run without calls about a torrent, a selection no stream reads is cleared if and only if a sweep comes after its lease expired or a cleanup of its generation runs with no lease in force |
| LifecycleRelease.LastStreamHandsOver | enginefs/src/lib.rs:1088-1138 | The last stream of a selected file leaves the selection to a cleanup of its own generation, due five seconds later |
| LifecycleTasks.LateCleanupIsHarmless | enginefs/src/lib.rs:1276-1345 | Over every run a cleanup clears no selection of a torrent selected anew after the cleanup was scheduled, even for the same file, and while the torrent is selected it leaves its plan and the active file alone |
| LifecycleTasks.StaleCleanupIsHarmless | enginefs/src/lib.rs:1316-1347 | A cleanup whose generation is not the selection's clears nothing, and while the torrent is selected it leaves its plan and the active file alone |
| LifecycleTasks.LastStreamEndBringsRest | enginefs/src/lib.rs:1088-1409 | With seeding off, when the last stream of a torrent without leases ends and no call follows, its two tasks, the cleanup first, leave the torrent paused, unselected and with no file wanted |
| LifecycleTasks.LastLeaseEndBringsRest | enginefs/src/lib.rs:1048-1086 | With seeding off, when playback of the last leased file of a torrent is ended and no call follows, its two tasks, the cleanup first, leave the torrent paused, unselected and with no file wanted |
| LifecyclePauses.StepPausedIff | enginefs/src/lib.rs:1173-1246 | A step that is no call about a torrent leaves it paused if and only if it is a pause task or sweep that meets it idle with seeding off and is not refused, or it was paused and the step neither resumes nor removes it |
| LifecyclePauses.PausedIff | enginefs/src/lib.rs:1173-1246 | In any stretch of a run without calls about a torrent, on every schedule of tasks and sweeps, it is paused at the end if and only if it was at the start, or such a pause came, and no resume or removal since |
| LifecyclePauses.ResumeWaits | enginefs/src/lib.rs:1503-1513 | After seeding is turned on a resume task waits until it runs |
| LifecyclePauses.SeedingWakes | enginefs/src/lib.rs:1503-1530 | Once seeding is on and its resume task has run, a torrent that did not refuse is awake at every later state until seeding is turned off |
| LifecycleIdle.StepSafeIffResumed | enginefs/src/lib.rs:738-771 | A step keeps the idle policy off active torrents if and only if no wake-up was refused |
| LifecycleIdle.PauseAllPausesEach | enginefs/src/lib.rs:465-528 | A pass over torrents in any order pauses exactly those visited that are idle, each by itself |
| LifecycleIdle.SweepPausesIdle | enginefs/src/lib.rs:465-528 | A pass over all torrents gives one state, whatever the order |
| LifecycleIdle.IdleNeverHoldsActive | enginefs/src/lib.rs:1173-1246 | In every state reachable by whole calls, if resumes succeed, a torrent paused by the policy has no live stream, no active lease and no selection |
| StartRace.PartsMakeAStart | enginefs/src/lib.rs:703-735 | The activation and the two counts of a stream start, with nothing in between, are the start as one step |
| StartRace.MoveSafeIff | enginefs/src/lib.rs:703-735 | With the start cut at its waits, a move keeps the idle policy off active torrents if and only if it is no refused wake-up and counts no stream of a torrent that is paused |
| StartRace.SafeWhileAwake | enginefs/src/lib.rs:703-735 | Over every run without such moves the policy holds no active torrent |
| StartRace.PausedMeanwhileIff | enginefs/src/lib.rs:703-735 | A torrent awake after its activation is paused at the count if and only if a pause task or sweep paused it in between and the pause lasted |
| StartRace.ProtectedIsCountedAwake | enginefs/src/lib.rs:1173-1246 | A torrent that stays active, read or without metadata from its activation on is awake when its stream is counted |
| StartRace.SelectionProtects | enginefs/src/lib.rs:465-528 | A selection protects its torrent from every pause |
| StartRace.SingleFileIsPausedInBetween | enginefs/src/lib.rs:703-735 | A torrent of one file is held paused while a stream of it is counted, with every resume granted, when its pause task comes between activation and count |
| LifecycleAccounting.CountersTrackStreams | enginefs/src/lib.rs:1088-1120 | Over every run with matched ends the torrent counter equals its live streams and each file counter is at most its file's |
| LifecycleAccounting.FileCounterIsExact | enginefs/src/lib.rs:1088-1120 | As long as no sibling of a file is activated, its counter is the number of its live streams |
| LifecycleUse.UnplayedIff | enginefs/src/lib.rs:472-508 | A torrent counts as active if and only if it has a stream counter above zero, a lease in force or a selection |
| LifecycleUse.StaysAfterUse | enginefs/src/lib.rs:346-358 | Over every run a torrent stays for at least 300 seconds after it is added, started, ended, selected, refreshed or polled, unless it is removed by hand |
| LifecycleUse.SweepTakesIff | enginefs/src/lib.rs:346-463 | The sweep takes a torrent if and only if every use of it and the start of the program are more than 300 seconds ago, no reader has it open, nothing of it is streamed, leased or selected, and none of its files is the active one |
| LifecycleLeases.LeaseInForceIff | enginefs/src/lib.rs:927-1046 | Over every run a lease is in force exactly for the 300 seconds after the last refresh of its file, or the last poll that found it in force, unless playback was ended or a sibling file activated |
| LifecycleLeases.LeaseHasOrigin | enginefs/src/lib.rs:927-1046 | Every lease in the table carries the time of the refresh or poll that wrote it last |
| LifecycleFiles.ActiveFileIff | enginefs/src/lib.rs:774-796 | Over every run the active file is the one activated last, exactly until its expired lease is swept or a cleanup that is not outdated runs for it while nobody plays it |
| LifecycleFiles.SelectedIff | enginefs/src/lib.rs:817-887 | Over every run a file is selected if and only if it was the last of its torrent to be selected and has not been let go that way since |
| LifecycleFiles.SelectionLasts | enginefs/src/lib.rs:832-847 | A selection carries the generation issued and the time of the step that made it |
| LifecycleFiles.KeptIff | enginefs/src/lib.rs:772-790 | Over every run the file of a single-file torrent is kept downloading if and only if a refresh or successful poll asked for it, and since then it has not been let go nor its engine removed |
| LifecycleFiles.EndedSelectionIsTold | enginefs/src/lib.rs:1347-1375 | When a selection ends the backend is told that no file is wanted, under the generation of the selection for a cleanup and 0 for the sweep |
| LifecycleSpawns.CleanupHasOrigin | enginefs/src/lib.rs:1251-1290 | Every cleanup that waits was left by the call that ended the last stream or the lease of its file, with the generation selected then, for five seconds later |
| LifecycleSpawns.CleanupWaitsIff | enginefs/src/lib.rs:1048-1138 | Over every run a cleanup waits exactly from such a call until it runs |
| LifecycleSpawns.PauseHasOrigin | enginefs/src/lib.rs:1153-1172 | Every pause that waits was left by the call that ended the last stream or a lease of its torrent, for fifteen seconds later |
| LifecycleSpawns.PauseWaitsIff | enginefs/src/lib.rs:1048-1138 | Over every run a pause waits exactly from such a call until it runs |
| GenerationRace.CleanupSparesLaterWrites | enginefs/src/lib.rs:832-847 | With generation and table updated apart, a cleanup clears no selection written while it waited |
| GenerationRace.GenerationsMayGoBackwards | enginefs/src/lib.rs:832-847 | The table can go back to an older generation, so equality and not order is what the cleanup needs |
| Priorities.Decide | enginefs/src/backend/priorities.rs:250-415 | The assignments are the pieces from the current one, in order, each with the band, priority and deadline of its distance (see `DeadlinesKeepPace`), as many as the minima of all limits allow |
| Priorities.ChooseWindows | enginefs/src/backend/priorities.rs:356-389 | Narrowing step by step gives the same windows as one minimum over every limit |
| Priorities.WantedWindows | enginefs/src/backend/priorities.rs:290-354 | What each intent asks for before any limit |
| PrioritiesPlans.DeadlinesKeepPace | enginefs/src/backend/priorities.rs:158-179 | In every decision the time from piece to piece is the same: as long as a piece takes at every known rate of playback and download (at 1 MiB/s if none is known), rounded up, or 30 s, and no longer than that at one of them, or 500 ms; the work of a piece saturates at 2^64 - 1; warm and background pieces wait 10 or 30 s more |
| PrioritiesPlans.NeighboursKeepPace | enginefs/src/backend/priorities.rs:507-539 | Neighbouring pieces of one band are due one after the other at that pace |
| PrioritiesPlans.BandsFollowWindows | enginefs/src/backend/priorities.rs:519-539 | Exactly the first `immediate` pieces are immediate, those up to `hot` hot, the rest warm, with priorities 7, 7 and 2; metadata 7 and background 1 throughout |
| PrioritiesPlans.FixedWindows | enginefs/src/backend/priorities.rs:290-354 | With room in cache and file, what each intent that does not play is given |
| PrioritiesPlans.PlaybackIsCovered | enginefs/src/backend/priorities.rs:474-505 | With room, three peers and a known bitrate, the hot window holds ten seconds of playback or 96 pieces, is no larger than that or the least for the download's speed, and at least 24, 32, 48 or 96 pieces by that speed |
| PrioritiesPlans.RateDecides | enginefs/src/backend/priorities.rs:484-492 | Without a bitrate the hot window is the one of the download rate's range |
| PrioritiesPlans.FewPeersCap | enginefs/src/backend/priorities.rs:500-502 | With fewer than three peers the same player is given up to 24 of its pieces |
| PrioritiesPlans.HlsCap | enginefs/src/backend/priorities.rs:316-325 | HLS is given what direct playback is given, up to 48 pieces |
| PrioritiesPlans.BlockedDoubles | enginefs/src/backend/priorities.rs:334-350 | A seek blocked three times is given twice the window of a direct one that is not, up to 96 pieces, of which up to 24 are immediate |
| PrioritiesPlans.PlayersImmediate | enginefs/src/backend/priorities.rs:316-350 | A seek has twelve immediate pieces, other players two |
| PrioritiesPlans.StartupWindow | enginefs/src/backend/priorities.rs:290-315 | Before the first byte the hot window just holds 4 MiB in up to four pieces, or a small file of unknown bitrate up to 4 MiB of it in up to 32; up to four pieces are immediate, none warm |
| PrioritiesPlans.PressureLeaves | enginefs/src/backend/priorities.rs:356-364 | High memory pressure leaves exactly the smaller of the hot window and 24 pieces, 16 for HLS, and nothing warm |
| PrioritiesPlans.HotWindowFits | enginefs/src/backend/priorities.rs:419-457 | The hot window is within the bytes of its intent but for a part of one piece, within 96 pieces and within the file |
| PrioritiesPlans.HotWindowIsFull | enginefs/src/backend/priorities.rs:377-391 | No more could be hot: what was asked for is given, or the pieces, the pressure, the cache, the file or the bytes are at their limit |
| PrioritiesPlans.WithoutCache | enginefs/src/backend/priorities.rs:265-269 | With no cache size a player is given 96 pieces in all, hot ones first |
| PrioritiesProofs.WindowShapeIff | enginefs/src/backend/priorities.rs:250-415 | The answer has the promised shape (inside the file and the cache, bands in order, priorities never rising, deadlines rising, current piece included) if and only if no 32-bit number leaves its range harmfully: the rest of the file fits, doubling does not wrap, and the wrapped count of cached pieces is positive |
| PrioritiesProofs.AbortsIff | enginefs/src/backend/priorities.rs:251-392 | Every context that is not rejected makes the scheduler abort if and only if the cast count of cached pieces is negative, the current piece lies two or more behind the last, or 2^31 pieces or more remain |
| PrioritiesProofs.HugeCacheAborts | enginefs/src/backend/priorities.rs:265-392 | A cache of 2^31 pieces makes the scheduler abort |
| PrioritiesProofs.FasterNeverShrinks | enginefs/src/backend/priorities.rs:474-505 | A faster download never narrows the hot or the whole window, through every cap |
| PrioritiesProofs.WaitingNeverShrinksIff | enginefs/src/backend/priorities.rs:337-350 | Three or more waits never narrow the windows if and only if doubling does not wrap |
| PrioritiesProofs.PressureNeverGrows | enginefs/src/backend/priorities.rs:356-391 | High memory pressure never widens the windows |
| PrioritiesProofs.CappedWindowFits | enginefs/src/backend/priorities.rs:419-437 | A window capped by bytes exceeds the bytes by less than one piece |
| Bencode.ParseBencode | server/src/local_addon/torrent.rs:131-184 | The recursive parser computes the parse of the bytes, errors and overflow included |
| Bencode.ParseList | server/src/local_addon/torrent.rs:142-154 | The loop over a list computes the parse of the list |
| Bencode.ParseDict | server/src/local_addon/torrent.rs:155-171 | The loop over a dictionary computes its parse; a later entry replaces an earlier one of its key |
| BencodeProofs.AcceptsExactlyTheGrammar | server/src/local_addon/torrent.rs:131-184 | The parser reads a value from the first n bytes if and only if those bytes are a well-formed text that means the value |
| BencodeProofs.TextOfGrammarIsRead | server/src/local_addon/torrent.rs:131-184 | A well-formed text followed by anything is read as its meaning, to its last byte |
| BencodeProofs.SelfDelimiting | server/src/local_addon/torrent.rs:131-184 | A parse depends on the bytes it consumes and on nothing behind them |
| BencodeAborts.AbortsIff | server/src/local_addon/torrent.rs:172-184 | The parser aborts if and only if the bytes start with well-formed parts of lists and dictionaries up to a length that leaves the word when added to its position |
| Numerals.SignedIff | server/src/local_addon/torrent.rs:136-141 | A number is read if and only if it is a sign or none and digits, zeros in front allowed, with a value of 64 bits |
| Numerals.UnsignedIff | server/src/local_addon/torrent.rs:172-176 | A length is read if and only if it is a plus or none and digits with a value of 64 bits |
| Bep3.RoundTrip | server/src/local_addon/torrent.rs:131-184 | For every value, the sorted and minimal BEP 3 encoding followed by anything parses to that value and its exact length |
| Bep3.PrefixFree | server/src/local_addon/torrent.rs:131-184 | No encoding is the beginning of another value's encoding |
| InfoHash.ExtractsInfoIff | server/src/local_addon/torrent.rs:282-290 | The bytes cut out are the encoded info value where it stands if and only if "4:info" occurs nowhere before its key |
| InfoHash.HashesTheInfoDictionary | server/src/local_addon/torrent.rs:59-72 | A torrent file without an earlier "4:info" is accepted with the digest of its encoded info dictionary |
| InfoHashProofs.AcceptedIff | server/src/local_addon/torrent.rs:59-72 | A file is accepted if and only if it starts with a well-formed dictionary whose last "info" entry is a dictionary and the first "4:info" anywhere is followed by a well-formed text, whose digest it gets |
| InfoHashProofs.TruncatedIsNotAccepted | server/src/local_addon/torrent.rs:59-72 | A torrent file cut short anywhere is not accepted |
| InfoHash.CommentIsHashedInstead | server/src/local_addon/torrent.rs:282-290 | A comment that reads "4:info" is hashed in place of the info dictionary |
| Ebml.ParseVint | enginefs/src/backend/metadata.rs:238-256 | The masked and shifted bytes are the big-endian number less the marker's worth, 128 to the width |
| Ebml.ParseElementHeader | enginefs/src/backend/metadata.rs:221-236 | The size an element announces and the length of its header |
| Ebml.ReadU32 | enginefs/src/backend/metadata.rs:298-302 | The shifts keep the big-endian number modulo 2^32 |
| Ebml.ReadU64 | enginefs/src/backend/metadata.rs:315-319 | The shifts keep the big-endian number modulo 2^64 |
| Ebml.ParseSeekElement | enginefs/src/backend/metadata.rs:284-336 | The scan of a Seek entry computes what its fields say, for any bytes |
| Ebml.ParseSeekHead | enginefs/src/backend/metadata.rs:258-282 | The scan of a SeekHead computes the first entry's answer, for any bytes |
| SeekHead.VintIff | enginefs/src/backend/metadata.rs:238-256 | A value and width are read if and only if the data begin with the bytes that encode the value in that width, for all widths 1 to 8 |
| SeekHead.SeekHeadIsRead | enginefs/src/backend/metadata.rs:258-336 | For every list of Seek entries the search gives the position of the first one about the Cues, and nothing exactly when there is none |
| SeekHeadGaps.SeekHeadWithGapsIsRead | enginefs/src/backend/metadata.rs:258-336 | The same with any other elements before, among, inside and behind the entries whose bytes show no identifier of an entry or field |
| SeekHeadGaps.CutEntryIsRead | enginefs/src/backend/metadata.rs:269-276 | An entry that the payload ends in the middle of is read as far as it is there |
| SeekHeadGaps.CutFieldSaysNothing | enginefs/src/backend/metadata.rs:289-324 | A field that its entry ends in the middle of says nothing |
| SeekHead.StandardEntry | enginefs/src/backend/metadata.rs:284-336 | A standard entry, fields in either order, says exactly the identifier and position it spells |
| SampleToChunk.Search | enginefs/src/backend/metadata.rs:751-776 | For any table that is not empty, in order or not, the first chunk at which the search stops, with sums that wrap; a chunk that holds the sample is the answer if and only if the sample is not right behind an empty chunk and is the chunk's first or the chunk ends before sample 2^32 - 1; an empty table gives the sample's own number |
| SampleToChunk.RunOfChunk | enginefs/src/backend/metadata.rs:761-766 | In a table in order the run in force at a chunk is the last one that starts at or before it |
| SampleToChunk.FoundIff | enginefs/src/backend/metadata.rs:751-776 | For every table and sample the search stops first at the chunk c with samples before c < n <= samples through c, if and only if c is the first chunk, or c - 1 is not empty, or n is not the first of c, and n is the first of c or c ends before sample 2^32 - 1 |
| SampleToChunk.EverySampleHasAChunk | enginefs/src/backend/metadata.rs:751-776 | Without empty runs every sample lies in a chunk, whose number is at most the sample's |
| SampleToChunk.FoundWithoutEmptyRuns | enginefs/src/backend/metadata.rs:751-776 | Without empty runs the chunk that holds the sample is found, except for a later sample of a chunk whose last sample is 2^32 - 1 or more |
| SampleToChunk.EmptyChunkIsFound | enginefs/src/backend/metadata.rs:751-776 | A table for which an empty chunk is found in place of the one that holds the sample |
| SampleToChunk.LongChunkIsMissed | enginefs/src/backend/metadata.rs:768-773 | A table of one chunk of 2^32 - 1 samples, at which the search does not stop for the second sample |
| CachedStreams.CachedStream.Prefetch | enginefs/src/cache.rs:47-87 | The fills started are those of the specification, which `PrefetchIff` says for whole reads |
| ChunkPrefetch.PrefetchIff | enginefs/src/cache.rs:47-87 | A read that begins a chunk or a fetch starts fills for exactly the uncached ones of the next two chunks inside the stated length, however often it goes round |
| ChunkPrefetch.OtherReadsStartNoFill | enginefs/src/cache.rs:108-160 | A read that goes on with a fetch inside a chunk starts none |
| ChunkPrefetch.NextChunkIsCached | enginefs/src/cache.rs:47-87 | Whatever else happens, once the fill of a next chunk has finished, and nobody evicted it, a reader finds it cached with the bytes of its file |
| ChunkPrefetch.ReadChunkIsCached | enginefs/src/cache.rs:162-184 | The chunk a read was answered from is cached |
| CachedStreams.CachedStream.StartSeek | enginefs/src/cache.rs:91-100 | A seek moves the position modulo 2^64 and forgets the fetch in progress |
| CachedStreams.CachedStream.PollRead | enginefs/src/cache.rs:108-196 | One poll, fetching again behind a chunk that is too short, changes stream, cache and fills exactly as the specification of a poll, whatever its fetches answer |
| CachedStreams.CachedStream.PollFuture | enginefs/src/cache.rs:126-152 | One answer of the fetch in progress, pending, failed or done, has exactly the effect of a round of a poll |
| CachedStreams.CachedStream.CopyOut | enginefs/src/cache.rs:131-146 | What is copied out of a chunk that has arrived, and how far the position moves |
| CachedStreams.DataCache.GetWith | enginefs/src/cache.rs:162-184 | A key's cached value, or the file's chunk, which is then cached |
| CachedStreams.DataCache.Finish | enginefs/src/cache.rs:60-84 | A background fill that ends leaves its chunk cached, the one already there if there is one |
| ChunkCacheProofs.RunRefines | enginefs/src/cache.rs:47-196 | Over every run of many streams, fills and evictions, every reply is the one the plain file would give, and every cached chunk is that chunk of its file |
| ChunkCacheProofs.StepRefines | enginefs/src/cache.rs:47-196 | One step of the cached system matches one step over the plain file |
| ChunkCacheProofs.ReadsReassembleTheFile | enginefs/src/cache.rs:108-196 | The bytes one stream is given between seeks are its file from where it stood to where it stands |
| ChunkCacheProofs.SpinsIffFileIsShorter | enginefs/src/cache.rs:137-145 | A read with room before the stated end, whose fetches succeed, however many, makes progress; if and only if the stream stands at or behind the file's real end, it neither replies nor moves |
| ChunkCacheProofs.SpinsUntilAnotherAnswer | enginefs/src/cache.rs:137-150 | Behind the real end the first fetch that waits or fails gives the reply, after any number that succeed |
| SingleFlightProofs.OneProbePerFile | enginefs/src/engine.rs:89-112 | In every interleaving, callers cancelled anywhere, at most one probe per file runs |
| SingleFlightProofs.JoinsTheRunningProbe | enginefs/src/engine.rs:89-103 | Whoever comes while a probe runs joins that probe's cell |
| SingleFlightProofs.LeavesOnlyItsOwnCell | enginefs/src/engine.rs:104-112 | A leaving caller takes no cell out of the table but its own, which is filled |
| SingleFlightProofs.CacheIsAcceptable | enginefs/src/engine.rs:115-118 | The cache holds only acceptable values, each the result of a probe of its file |
| SingleFlightProofs.AcceptedIsCached | enginefs/src/engine.rs:71-118 | In every interleaving, once a caller has returned an acceptable value, every later call for its file returns at once with an acceptable cached value |
| SingleFlightProofs.NobodyIsStuck | enginefs/src/engine.rs:96-103 | In every interleaving a waiting caller can begin the probe, read its result, or wait for a caller that can complete or give up |
| SingleFlightProofs.AnswersComeFromProbes | enginefs/src/engine.rs:66-120 | What a caller returns is what some probe of its own file came to |
| SingleFlightProofs.WaitersShareTheAnswer | enginefs/src/engine.rs:96-103 | Callers answered from one cell have one answer, and unfinished cells of a file are one cell |
| ProbeEngine.Engine.CachedProbe | enginefs/src/engine.rs:71-87 | A cached result counts only if it is acceptable |
| ProbeEngine.Engine.JoinProbe | enginefs/src/engine.rs:89-95 | The file's cell in flight, or a new one put in the table |
| ProbeEngine.Engine.LeaveProbe | enginefs/src/engine.rs:104-112 | The entry goes only if it still is the caller's cell |
| ProbeEngine.Engine.StoreProbe | enginefs/src/engine.rs:115-118 | An acceptable result is cached, another is not |
| ProbeEngine.Engine.GetProbeResult | enginefs/src/engine.rs:66-120 | A call that nobody interrupts is the run of a caller's seven steps and returns what that caller returns; an acceptable cached value is returned as it is, and otherwise the result is cached exactly if it is acceptable |
| SingleFlightProofs.WholeCallReturns | enginefs/src/engine.rs:66-120 | Such a call returns an acceptable cached value if there is one and changes nothing, else what the cell in flight holds, else its own probe's outcome; after a miss nothing of the file is in flight and the result is cached exactly if it is acceptable |
| SingleFlightProofs.WholeCallIsARun | enginefs/src/engine.rs:66-120 | A whole call is a run of its steps, so all that holds of runs holds of it |
| Subtitles.ToVtt | enginefs/src/subtitles.rs:68-89 | The loop prints the header and every numbered cue |
| Subtitles.ParseVtt | enginefs/src/subtitles.rs:207-257 | The loop keeps, block by block, the cues the blocks hold, whatever the line ends |
| SubtitlesProofs.PrintedIsDetected | enginefs/src/subtitles.rs:93-98 | Whatever is printed is recognised as WebVTT |
| SubtitlesProofs.PrintedIsReadBack | enginefs/src/subtitles.rs:207-257 | For cues whose styled texts are trimmed and have no blank line or carriage return, reading gives exactly the cues below a hundred hours, empty texts and arrows included |
| SubtitlesRoundTrip.RoundTripIff | enginefs/src/subtitles.rs:56-89 | Any list of cues comes back unchanged if and only if all are unstyled, their texts trimmed and without blank lines and carriage returns, and their times below a hundred hours |
| SubtitlesRoundTrip.ReadCuesAreReadable | enginefs/src/subtitles.rs:207-257 | Whatever text is read, every cue it gives is unstyled and its text trimmed and without blank lines and carriage returns |
| SubtitlesReading.LineEndsMakeNoDifference | enginefs/src/subtitles.rs:214-214 | Any document reads the same with line feeds, with carriage returns and line feeds, and with carriage returns |
| SubtitlesReading.PrintedWithOtherLineEnds | enginefs/src/subtitles.rs:207-257 | A printed document whose line ends were changed gives the same cues |
| SubtitlesReading.SettingsAreIgnored | enginefs/src/subtitles.rs:210-213 | Any white space around the two times and anything behind them leave the times read as they are |
| SubtitlesReading.CueOfLines | enginefs/src/subtitles.rs:216-254 | A block is the cue of its first line with an arrow, whatever stands before it, with the lines behind as its text, and no cue if that line holds no two times |
| SubtitlesReading.OtherDigitsCountAsZero | enginefs/src/subtitles.rs:260-267 | Digits of another script are taken for digits of a time and count as zero |
| SubtitlesReading.SrtIsDetected | enginefs/src/subtitles.rs:100-110 | What begins with a number, a line end and a time with a comma and mentions no script is recognised as SubRip |
| SubtitlesReading.PrintedBlockShows | enginefs/src/subtitles.rs:71-87 | The k-th printed block shows the numeral of k, the two times and the styled text of the k-th cue |
| SubtitlesReading.StyleWraps | enginefs/src/subtitles.rs:371-394 | Bold stands inside italic inside underline inside the colour, which loses its leading hashes |
| SubtitlesProofs.CueLineIff | enginefs/src/subtitles.rs:210-248 | The line of the times matches if and only if both are below a hundred hours, and gives both back |
| SubtitlesProofs.TimeIsRead | enginefs/src/subtitles.rs:260-267 | A printed time below a hundred hours is read back to the millisecond |
| SubtitlesProofs.LongTimeIsRefused | enginefs/src/subtitles.rs:361-368 | A printed time of a hundred hours or more does not match |
| SubtitlesProofs.ConvertingAgainChangesNothingIff | enginefs/src/subtitles.rs:396-398 | Converting what was printed once more gives the same text, also for styled cues, if and only if all times are below a hundred hours |
| DiskCache.DiskCacheManager.MaybePersistFile | enginefs/src/disk_cache.rs:55-156 | The file is written if and only if limit, pieces and disk allow it, is then on disk byte for byte, no other file is touched, and usage within the limit stays within it |
| DiskCache.DiskCacheManager.Reassemble | enginefs/src/disk_cache.rs:100-132 | The loop gathers what each piece adds, or nothing when one is missing |
| DiskCache.DiskCacheManager.CalculateUsage | enginefs/src/disk_cache.rs:159-182 | Files counted in any order add up to the usage |
| DiskCache.GathersTheSliceIff | enginefs/src/disk_cache.rs:100-140 | With the native range the gathered bytes are the torrent's slice at the file's offset, if and only if every piece of the range is there |
| DiskCache.NativeSpans | bindings/libtorrent-sys/cpp/wrapper.cpp:963-970 | The native first and last piece are the ones in which the file's first and last byte lie |
| DiskCacheRuns.PersistAll | enginefs/src/disk_cache.rs:55-156 | Over any sequence of attempts usage stays within the limit, every file written is the exact slice of its torrent, or its beginning if the write was torn, and a file reported as kept is on disk until the next attempt for it |
| Eviction.Disk.Scan | server/src/cache_cleaner.rs:149-224 | Of the files the walk meets, exactly the expired unprotected ones it can delete are gone, the rest is counted, what is on disk once and further listings on top, and the candidates are collected |
| Eviction.Disk.EvictOldest | server/src/cache_cleaner.rs:234-266 | Each deletion was needed and takes its size off the total and off the disk alike, each file goes once and oldest first among what fits, and what remains is within the limit, too large or undeletable |
| Eviction.Disk.CleanCache | server/src/cache_cleaner.rs:105-275 | Under any failing deletes the tracked size is the size on disk, each file once, if and only if the walk leaves no file with a size that is listed twice; metadata and protected files survive, unprotected ones older than thirty days go, others go only for need, and the result is within the limit unless what survives is protected, too large or undeletable |
| Eviction.SortIsStable | server/src/cache_cleaner.rs:233-234 | The sort keeps all files, those of one time in the order they were met |
| Eviction.TwiceListedIsTwiceCounted | server/src/cache_cleaner.rs:149-224 | Two listings of one file beside another file count its size twice where the disk holds it once |

## Left out

- EngineFs.EngineFS.RunFileCleanup: the failure of clearing a file in the backend is only logged by the code and has no effect in the model.
- Lifecycle: backends that manage playback themselves, trackers, snapshots, logging, `focus_torrent` and `pause_all_torrents`; the hot file, source and reason of a plan.
- Lifecycle: engines are values in a table, so an engine still held by a task after its removal is not modelled; generations are unbounded.
- LifecycleTheorems.OneWantedFile: runs in which a torrent is removed by hand while selected are excluded; `RemovalKeepsIffUnselected` says why.
- LifecycleTasks.LastStreamEndBringsRest: one schedule, with the pause after the cleanup; every schedule is covered by `PausedIff` for the pause and `SelectionEndsIff` for the selection.
- LifecycleIdle.IdleNeverHoldsActive: calls are atomic; `StartRace` cuts the stream start, while activations, pauses and the other calls stay whole.
- Priorities: the disk-backed windows, the container metadata region and the compatibility wrapper `calculate_priorities`, which are lookups.
- InfoHash.HashesTheInfoDictionary: the rounds of SHA-1 (the digest is a parameter), the names and the file list of a torrent.
- Bep3.RoundTrip: inputs longer than 2^64 - 1 bytes, which no machine word can address.
- SeekHead.SeekHeadIsRead: payloads with other elements, which `SeekHeadGaps` covers unless their bytes happen to show an identifier; the code then takes it for one.
- LifecycleUse.SweepTakesIff: any lookup of an engine counts as a use in the code; in the model that is an `Add` of a torrent that is there.
- SampleToChunk.Search: a search that comes past chunk number 2^32 - 1 ends here; the release build starts over at chunk 0, and may loop for ever.
- SampleToChunk: the reading of the table from its atom; the keyframe search and the Cues parsing, which are pattern searches.
- CachedStreams.CachedStream.PollRead: wake-ups, and a chunk number times the chunk size beyond 2^64; a seek wraps as in a release build.
- ProbeEngine.Engine.GetProbeResult: a call that waits for another caller's probe; interleaved calls are the runs of `SingleFlight`.
- SingleFlight: the bypass of the hash for backends without lifecycle; the time limit of the hash is one of the errors a run can end with.
- Subtitles: SRT and ASS are not read; decimal digits are those of Unicode 16.
- DiskCache: file names with a directory in them.
- Eviction.Disk.CleanCache: files that change while the clean-up runs (a file listed twice is listed alike), and the removal of directories left empty.
- HTTP routes, archives, casting, the user interfaces, the native bindings and the remaining small modules are not part of this model.
