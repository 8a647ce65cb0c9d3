# Heartbeat tracker: model and proofs

hbtd keeps one record per component in a key/value store. A heartbeat refreshes
its record; a periodic check compares every record's age with two limits, warns
or removes it, and emits an event for each change. A reporter collapses the
events to the latest per component and sends them to the Hardware State Manager
(HSM) in up to four bulk PATCHes per round, each of which may fail.

This project models both machines and proves what holds of them together.

| file | content |
|---|---|
| `Basics.dfy` | events, HSM views, integer bounds |
| `Numerals.dfy` | the numerals that are printed and parsed |
| `Positional.dfy` | what numerals mean: digits, positions, bases, underscores |
| `Heartbeats.dfy` | one record: heartbeat, check, query; the event automaton |
| `SweepPhases.dfy` | the phases of a check against one step per key |
| `Collapser.dfy` | the eight sequence maps against one map of latest events |
| `Reporting.dfy` | the reporter's rounds, HSM, and runs of both |
| `Entries.dfy` | which components are keys of the persistent maps, over runs |
| `MixedRounds.dfy` | rounds with mixed outcomes: two witnesses of lost events |
| `System.dfy` | tracker and reporter interleaved |
| `Overlap.dfy` | what becomes of a heartbeat that lands inside a running check |
| `EarlyDeath.dfy` | when a heartbeat protects its sender from being declared dead too early |
| `Timing.dfy` | time bounds, with checks that are one step |
| `Reporter.dfy`, `Tracker.dfy` | the operations on the maps and the store, as classes |
| `Params.dfy` | run-time parameters: parsing, merging, printing |
| `ParamTexts.dfy` | what an update does, by what its texts say |

## Where the code and its documentation differ

- A comment in `send_sm_req` (cmd/hbtd/track.go:465-468) and
  TheoryOfOperation.md say that a change whose PATCH failed is kept and the last
  one finally reaches HSM. Clearing goes by key, so a success in one category
  also wipes a failed event of a component that merely has an entry, even a zero
  one, in that category's map. `MixedRounds.WarningIsLost` and
  `MixedRounds.DeathIsLost` give the runs; `Collapser.KeepsUnsentIffClean` says
  exactly which rounds keep everything, `Collapser.QueuedSurvivesIffSpared` exactly
  which keep what is queued for one component.
- The documentation has a component declared dead once errtime has passed without
  a heartbeat. A check goes by the records that it read at its start and stores
  what it judged, so a heartbeat that arrives in between can be ignored
  (`Overlap.FalseDeathInTheSameCheck`) or forgotten
  (`Overlap.FalseDeathWhenOverlapping`), and its sender declared dead too early.
  `EarlyDeath.NeverDiesEarlyIffHarmless` is the exact condition, for any
  interleaving: no run declares the sender dead less than errtime after the
  heartbeat if and only if the check running at that time, if any, holds no older
  record of it, neither still to judge (unless a gap check already marked that
  record and the gap is still being made up for) nor about to be stored.
- TheoryOfOperation.md lists `Kv_url`, `Nosm` and `Telemetry_host` as read-only at
  run time, like `Port`. The code refuses only `Port`
  (`Params.PatchRefusesOnlyThePort`): a PATCH can set the other three to any legal
  value (`Params.ReadOnlyCanChange`), and leaves them alone if and only if it omits
  them or repeats their values (`Params.ReadOnlyStayIff`).

## Assumptions

- One instance of the daemon: sequence numbers and maps are per process.
- `hb_update_notify` is one step, although it counts outside the lock, and the
  sequence number does not wrap.
- `updateHB` is one step on its key. Single reads, deletes and stores of the
  key/value store succeed. A failing read is not harmless: `updateHB`
  (cmd/hbtd/track.go:819-828) then treats the key as new, overwrites whatever
  record there is and emits a start, so the events need not form a path.
- A stored text either decodes to a complete record with one of the three
  warning flags, or does not decode at all.
- The clock is read as seconds since 1970, not negative. The time bounds assume
  that it does not run backwards; nothing else does.
- Go's `strconv` is modelled from its documentation; `strings.ToLower` on ASCII
  letters, which are all that the accepted words contain.
- Runs start from any state in which HSM and the store agree; what a stopped
  process still had queued is lost with it.
- Which events reach HSM is judged by the State and Flag of each PATCH.

## Model

| member | source | states |
|---|---|---|
| Numerals.HexTimeRoundTrip | cmd/hbtd/track.go:844 | a receive time written in hexadecimal is read back as itself, for every time below 2^63 |
| Numerals.ItoaRoundTrip | cmd/hbtd/hbtd.go:296-307 | parsing with base 0 accepts a printed integer exactly when it is within the bound, and then as itself |
| Numerals.PrefixedRoundTrip | cmd/hbtd/hbtd.go:597 | a numeric field may announce base 16, 8 or 2 and is read in that base |
| Numerals.ParseIntBounds | cmd/hbtd/track.go:695 | whatever text is stored, the time read from it fits 64 signed bits |
| Positional.FormatIsCanonical | cmd/hbtd/track.go:844 | a printed number is written in lower-case digits of its base, without a leading zero, and is worth the number by the positions of its digits |
| Positional.CanonicalIsUnique | cmd/hbtd/track.go:844 | there is only one such text |
| Positional.ItoaIsDecimal | cmd/hbtd/hbtd.go:296-307 | Itoa prints that text in base 10, after a minus sign if the number is negative |
| Positional.ParseIntMeans | cmd/hbtd/track.go:695 | with an explicit base, exactly the rows of digits after an optional sign that are worth 64 signed bits are accepted, as what they are worth; larger ones are clipped |
| Positional.GarbageReadsAsZero | cmd/hbtd/track.go:695 | a text with a character that is no digit reads as 0, unless the digits before it are too many |
| Positional.NothingOrTooMuch | cmd/hbtd/track.go:695 | an empty text or a lone sign reads as 0, and too many digits are clipped whatever follows them |
| Positional.DecimalRoundTrip | cmd/hbtd/hbtd.go:276 | every 64-bit integer is printed and read back in base 10 |
| Positional.NotDecimal | cmd/hbtd/hbtd.go:276-280 | in base 10 anything but decimal digits after the sign, or nothing, is refused |
| Positional.ParseUintMeansNumeral | cmd/hbtd/hbtd.go:597 | a numeric field accepts exactly the unsigned integer literals below the bound (prefixes, leading zero for octal, placed underscores), each as what it is worth |
| Positional.NumeralCharacters | cmd/hbtd/hbtd.go:597 | so no sign, blank or unit of time is accepted |
| Heartbeats.StampIsHexadecimal | cmd/hbtd/track.go:844 | a receive time is stored as its hexadecimal numeral |
| Heartbeats.ReceiveTimeIsHexadecimal | cmd/hbtd/track.go:695 | a stored text is read in base 16, with an optional sign, and clipped to 64 signed bits |
| Heartbeats.ElapsedWraps | cmd/hbtd/track.go:696 | the difference is the real one up to a multiple of 2^64 |
| Heartbeats.CheckDecides | cmd/hbtd/track.go:698-746 | which event a check emits of a record, exactly, by its age, its flag and whether a gap is made up for, and what it leaves below errtime |
| Heartbeats.OverdueIsRefreshed | cmd/hbtd/track.go:699-714 | what a check after a gap leaves of an overdue record |
| Heartbeats.GapMattersIffOverdue | cmd/hbtd/track.go:698-746 | a check after a gap differs from one without exactly at overdue records |
| Heartbeats.BeatDecides | cmd/hbtd/track.go:824-881 | which event a heartbeat emits, and every field of the record it leaves |
| Heartbeats.StampIsRead | cmd/hbtd/track.go:695-696 | the elapsed time that is compared is the real one |
| Heartbeats.RangeIsXnames | cmd/hbtd/track.go:656 | which keys the check covers |
| Heartbeats.CheckMovesPhase | cmd/hbtd/track.go:698-746 | a check moves a component along the event automaton by the event it emits, or not at all |
| Heartbeats.BeatMovesPhase | cmd/hbtd/track.go:824-881 | so does a heartbeat |
| Heartbeats.QueryAfterSweep | cmd/hbtd/track.go:1252-1262 | right after a check, stale or not, the query is true exactly for the components that still have a record |
| Heartbeats.QueryReplies | cmd/hbtd/track.go:1229-1263 | the query fails exactly for an undecodable text and is true exactly for records younger than errtime |
| Heartbeats.QueryForetellsDeath | cmd/hbtd/track.go:1252-1262 | before a check that follows no gap, the query denies a record exactly when the check will remove it |
| SweepPhases.PhasesAreSweep | cmd/hbtd/track.go:664-781 | judging with deferred deletes and stores equals one independent step per key |
| SweepPhases.EventsArePerKey | cmd/hbtd/track.go:664-759 | the events of a check are exactly those of the per-key steps, each once |
| SweepPhases.NcompIsWhatIsLeft | cmd/hbtd/track.go:671-726 | the count ends as the number of records left in the range |
| SweepPhases.SweepKeepsKeys | cmd/hbtd/track.go:753-755 | records stay stored under their own component |
| Collapser.TopIsMaximum | cmd/hbtd/track.go:395-413 | numbers of different categories differ, so the strict maximum exists whenever something is queued |
| Collapser.PendingIsHighest | cmd/hbtd/track.go:395-413 | the pending number of a component is the highest of all eight, and names that event of the log |
| Collapser.NotifyIsUpsert | cmd/hbtd/track.go:530-566 | an event sets one entry of the map of latest events and leaves the rest |
| Collapser.AbsorbKeepsLatest | cmd/hbtd/track.go:250-310 | absorbing the global maps changes nothing in the map of latest events |
| Collapser.AbsorbKeys | cmd/hbtd/track.go:250-310 | absorbing makes a component a key of a persistent map only if it has a nonzero number there: zeros are not taken over |
| Collapser.ClearIsExact | cmd/hbtd/track.go:470-487 | after a round all four numbers of a component are zero or all unchanged; zero exactly when it was a key of an acknowledged category |
| Collapser.ClearKeys | cmd/hbtd/track.go:470-487 | which keys a round leaves: a touched component is in every map but the one cleared last, others stay where they were |
| Collapser.FinishIsExact | cmd/hbtd/track.go:470-487 | what that does to the map of latest events, newer events included |
| Collapser.KeepsUnsentIffClean | cmd/hbtd/track.go:465-487 | a round keeps every unsent event if and only if no failed component is a key of an acknowledged category |
| Collapser.QueuedSurvivesIffSpared | cmd/hbtd/track.go:465-487 | for one component, what is queued survives the round, or was acknowledged, if and only if the round spares it |
| Collapser.UniformRoundsAreClean | cmd/hbtd/track.go:465-487 | rounds that succeed or fail as a whole are of that kind |
| Collapser.FullRoundEmpties | cmd/hbtd/track.go:470-487 | a fully acknowledged round leaves nothing queued in the persistent maps |
| Reporting.OverlayStep | cmd/hbtd/track.go:353-489 | only an event changes what HSM shows or will be told of a component, unless a round wipes that component |
| Reporting.FailureKeepsLatest | cmd/hbtd/track.go:415-420 | a round with HSM not ready sends nothing, and like one that fails altogether keeps every component's latest event |
| Reporting.LandingsCommute | cmd/hbtd/track.go:425-444 | the parallel PATCHes give HSM the same view in any order |
| Reporting.AcknowledgedIsSettled | cmd/hbtd/track.go:446-487 | once the PATCH that carried a component is acknowledged and nothing happened to it since, HSM is exact for it and nothing is queued, whatever became of the other PATCHes |
| Reporting.RoundOpensIff | cmd/hbtd/track.go:415-450 | a turn sends PATCHes exactly if HSM is ready and something is queued |
| Reporting.RoundReportsAll | cmd/hbtd/track.go:395-444 | a finished round reported every queued component, by its highest number, in a PATCH that was sent |
| Reporting.RunKeepsInv | cmd/hbtd/track.go:353-489 | the numbering, freshness and report invariants hold in every run, for any outcomes |
| Reporting.OverlayIsLastEvent | cmd/hbtd/track.go:353-576 | over runs whose rounds spare a component, HSM overlaid with the queue shows its last event |
| Reporting.ReportsNeverGoBack | cmd/hbtd/track.go:395-413 | reported numbers never decrease, acknowledged ones strictly increase, and each report was the latest event when its round absorbed |
| Entries.EntryStep | cmd/hbtd/track.go:250-322 | exactly what each step does to the keys of the persistent maps and to the global numbers |
| Entries.EntryOverRun | cmd/hbtd/track.go:250-322 | over runs whose acknowledgements do not touch a component, it enters a map by an event of that kind and in no other way |
| Entries.LeftBehindIff | cmd/hbtd/track.go:470-487 | a round leaves an entry of a component in an acknowledged category exactly if a later clearing put it back |
| Entries.AcknowledgedIsNotWiped | cmd/hbtd/track.go:250-487 | otherwise, with no new event of that kind and no acknowledgement that touches it since, that category's next acknowledgement wipes nothing of it |
| MixedRounds.WarningIsLost | cmd/hbtd/track.go:471-474 | the run in which a failed warning is wiped by another component's acknowledged start |
| MixedRounds.DeathIsLost | cmd/hbtd/track.go:316-321 | the run in which a zero entry makes a death disappear and HSM keeps Ready/OK |
| MixedRounds.UnqueuedIsNeverSent | cmd/hbtd/track.go:353-489 | what is not queued is never sent, until the component's next event |
| System.StepMoves | cmd/hbtd/track.go:656-882 | every step, anywhere inside a check, moves each component along the automaton |
| System.StepKeepsCoupled | cmd/hbtd/track.go:353-882 | for each component, every step that does not wipe it keeps HSM overlaid with the queue in agreement with its record |
| System.RunKeepsCoupled | cmd/hbtd/track.go:353-882 | so does every interleaved run whose rounds spare the component, whatever they do to others |
| System.FreshStartIsCoupled | cmd/hbtd/track.go:163-169 | a daemon started with an empty store and an HSM that knows nothing is such a start for every component |
| System.UniformRunsSpareAll | cmd/hbtd/track.go:470-487 | runs whose rounds succeed or fail as a whole spare every component |
| System.RecordsFitOutsideChecks | cmd/hbtd/track.go:656-781 | between checks the agreement is with the stored record itself |
| System.HsmFitsOnceAcknowledged | cmd/hbtd/track.go:446-487 | once its PATCH is acknowledged and nothing new happened to the component, HSM itself agrees with the store |
| System.JudgeDecides | cmd/hbtd/track.go:664-759 | a judgement, by the record of the snapshot, decides what the check leaves of its component |
| System.EventsFormAPath | cmd/hbtd/track.go:698-746 | each component's events form a path of the automaton ending in the phase of its record, for any clocks and limits |
| System.LogIsWhatWasEmitted | cmd/hbtd/track.go:530-566 | the log is exactly what the run emitted, and a gap once over stays over |
| System.UninterruptedCheckIsSweep | cmd/hbtd/track.go:656-800 | the small steps of an undisturbed check add up to the atomic check, its events included |
| Overlap.CheckEndsInEffective | cmd/hbtd/track.go:764-781 | what a check leaves of a component it has judged, whatever heartbeats of others come meanwhile |
| Overlap.HeartbeatKeptOrForgotten | cmd/hbtd/track.go:764-781 | a heartbeat that arrives after its component was judged stands exactly if nothing is outstanding for it; else it is deleted or replaced by the judged record |
| Overlap.HeartbeatBeforeVerdict | cmd/hbtd/track.go:656-781 | one that arrives after the snapshot and before the judgement stands, is replaced or is deleted as the verdict on the snapshot's record says |
| Overlap.FalseDeathWhenOverlapping | cmd/hbtd/track.go:698-781 | the run in which a heartbeat inside a check is forgotten and its sender declared dead by the next check, too early |
| Overlap.FalseDeathInTheSameCheck | cmd/hbtd/track.go:656-726 | the run in which a heartbeat inside a check is ignored and its sender declared dead in the very second of the heartbeat |
| EarlyDeath.HarmlessBeatProtects | cmd/hbtd/track.go:656-781 | in any interleaving, a heartbeat that finds no older record of its sender in a running check protects it from death for errtime, and from warnings for warntime once no gap is made up for |
| EarlyDeath.OutsideItsCheckIsHarmless | cmd/hbtd/track.go:656-781 | so does any heartbeat whose sender the running check has neither to judge nor to apply |
| EarlyDeath.NeverDiesEarlyIffHarmless | cmd/hbtd/track.go:656-781 | and only such heartbeats do: otherwise some run declares the sender dead less than errtime after the heartbeat |
| Timing.StampsNeverGoBack | cmd/hbtd/track.go:709 | a stored receive time never moves back |
| Timing.NoFalseAlarm | cmd/hbtd/track.go:698-736 | where each check is one step, death means no heartbeat for errtime, a warning none for warntime |
| Timing.GapGivesGrace | cmd/hbtd/track.go:699-714 | the first check after a gap removes nothing and gives overdue records errtime from their refresh |
| Timing.NoRestartWithoutHeartbeat | cmd/hbtd/track.go:727-746 | between a warning and a restart there is a heartbeat |
| Timing.DiesWhenDue | cmd/hbtd/track.go:715-726 | the first check at or after h + errtime declares a silent component dead and removes it |
| Timing.DetectionBound | cmd/hbtd/track.go:698-769 | with checks at most an interval apart, that is before h + errtime + interval |
| Timing.WarnedByAnEvent | cmd/hbtd/track.go:698-746 | a component stands warned exactly if the last event about it is a warning, or there is none and it stood warned at the start |
| Timing.WarningIsReported | cmd/hbtd/track.go:727-736 | a check between the limits, after a gap or not, warns of a silent component exactly if it does not stand warned, and leaves it warned |
| Timing.DeathIsAnnounced | cmd/hbtd/track.go:727-736 | if the interval fits between the limits, a component that is declared dead stands warned, and the last event before its death is that warning |
| Timing.AnnouncedDeathHappens | cmd/hbtd/track.go:715-736 | a run to which the bounds apply, ending in a warning and a death |
| Timing.RecoveryIsReported | cmd/hbtd/track.go:737-746 | a timely check after a heartbeat, after a gap or not, reports recovery exactly of warned components, whichever flag they had |
| Timing.LastReportStands | cmd/hbtd/track.go:844-846 | the record carries what its last heartbeat said, however many checks follow |
| Reporters.Reporter.HbUpdateNotify | cmd/hbtd/track.go:530-570 | the queue afterwards |
| Reporters.Reporter.GroomPre | cmd/hbtd/track.go:250-310 | the queue afterwards, and that exactly the components with something queued are named |
| Reporters.ZeroOthers | cmd/hbtd/track.go:316-322 | the other three maps are zero at every key of the first |
| Reporters.Reporter.Collapse | cmd/hbtd/track.go:395-413 | each list holds, once each, exactly the components its category wins |
| Reporters.Reporter.ClearAcknowledged | cmd/hbtd/track.go:469-488 | the queue afterwards |
| Reporters.Reporter.SendRound | cmd/hbtd/track.go:378-488 | a whole round, with events noticed between its critical sections: lists, acknowledged categories and queue, also when HSM is not ready |
| Trackers.Tracker.UpdateHB | cmd/hbtd/track.go:815-882 | the store and the queue after a heartbeat, during a check or not, and the error reply for an undecodable text |
| Trackers.Tracker.BeginCheck | cmd/hbtd/track.go:656 | reading the range is the first step of a check |
| Trackers.Tracker.JudgeTurn | cmd/hbtd/track.go:664-759 | a turn of the judging loop, with the record variable that all turns share, is a judging step of the interleaved machine from whatever state heartbeats have left |
| Trackers.Tracker.DeleteTurn | cmd/hbtd/track.go:764-769 | so is each delete |
| Trackers.Tracker.StoreTurn | cmd/hbtd/track.go:776-781 | and each store |
| Trackers.Tracker.FinishCheck | cmd/hbtd/track.go:795-800 | the end of a check ends the gap and keeps the count |
| Trackers.Tracker.HbChecker | cmd/hbtd/track.go:600-806 | the turns of a check into which no heartbeat comes add up to the atomic sweep of the store, with or without the lock |
| Trackers.Tracker.IsHeartbeating | cmd/hbtd/track.go:1229-1263 | the reply |
| Params.TelemetryHostIsTriple | cmd/hbtd/hbtd.go:267-283 | a telemetry host is accepted exactly when it is three colon-free texts, the middle one a decimal number of 64 bits, and is split into these |
| Params.PortIsDecimal | cmd/hbtd/hbtd.go:276 | a printed port is read as itself |
| Params.OtherPortsAreBad | cmd/hbtd/hbtd.go:276-280 | a port with anything but decimal digits after its sign is refused as such |
| Params.WrongShapeIff | cmd/hbtd/hbtd.go:270-275 | a text that is not three parts is refused as such |
| ParamTexts.ParseBoolMeans | cmd/hbtd/hbtd.go:607-631 | a switch is off by four words, on by four others, in any mixture of cases, and by nothing else |
| ParamTexts.UpdateMeans | cmd/hbtd/hbtd.go:596-725 | for every field: whether it is named as bad, and the value it sets, by what its text says |
| ParamTexts.TimeExamples | cmd/hbtd/hbtd.go:655-664 | "010" sets errtime to 8; "30s", "12h", "3 0" and "+3" are refused |
| Params.PrintedIsDecimal | cmd/hbtd/hbtd.go:293-307 | every number of the printed record is its decimal numeral, every text itself |
| Params.RoundTripIffWellFormed | cmd/hbtd/hbtd.go:293-307 | the printed record is accepted back if and only if the parameters are well formed, and as a PATCH only without a port |
| Params.PrintedRecordIsCopied | cmd/hbtd/hbtd.go:596-725 | what another instance makes of a printed record |
| Params.RoundTripKeeps | cmd/hbtd/hbtd.go:596-725 | the printing instance itself changes nothing |
| Params.MergedStaysWellFormed | cmd/hbtd/hbtd.go:596-725 | updates keep the parameters well formed |
| Params.UnsuppliedStays | cmd/hbtd/hbtd.go:596-725 | what is not supplied keeps its value; port and clear_on_gap always do |
| Params.PatchRefusesOnlyThePort | cmd/hbtd/hbtd.go:681-690 | of an otherwise acceptable record a PATCH refuses the port and nothing else |
| Params.ReadOnlyCanChange | cmd/hbtd/hbtd.go:607-679 | a PATCH that supplies only the store URL, only nosm or only the telemetry host is accepted and sets it |
| Params.ReadOnlyStayIff | cmd/hbtd/hbtd.go:607-679 | an accepted PATCH leaves those three alone if and only if it omits them or repeats their values |
| Params.MergesCompose | cmd/hbtd/hbtd.go:596-725 | two accepted updates in a row are the one in which the later fields replace the earlier |
| Params.MergeTwiceIsOnce | cmd/hbtd/hbtd.go:596-725 | so the same accepted update twice is the update once |
| Params.Settings.GenCurParamJson | cmd/hbtd/hbtd.go:293-317 | the printed record, whose texts Params.PrintedIsDecimal determines |
| Params.Settings.ParseParmJson | cmd/hbtd/hbtd.go:555-726 | all of the record or nothing of it, as ParamTexts.UpdateMeans says; the bad fields are named; the port never changes |

## Left out

- HTTP handlers, JSON decoding and problem replies: I/O. A heartbeat is (key, timestamp, status, time), a parameter update a record of texts or a decoding failure.
- The etcd client, the distributed lock and the life keys: the store is a map, the lock a given outcome, and a monitoring gap a given initial flag.
- The memory-backed store of hms-hmetcd includes the last key of a range; the model follows etcd, which does not.
- Failing single reads, deletes and stores, and the window between reading and storing in `updateHB`.
- Records that decode but lack fields, which would show fields of the record judged before.
- Wrap-around of the 64-bit sequence number, and the branch for an unknown state code in `hb_update_notify`.
- Several instances: each would number its own events.
- The PATCH transport: each PATCH has a given outcome, acknowledged or failed, where a failed one may have reached HSM in part.
- The telemetry bus, logging, timers, environment and command line.
- Trackers.Tracker.HbChecker: one check without heartbeats meanwhile. With heartbeats in between, the turns it is made of (JudgeTurn, DeleteTurn, StoreTurn) are the steps of module System, whose runs have heartbeats at any point.
- Timing.NoFalseAlarm: for checks that are one step; EarlyDeath.NeverDiesEarlyIffHarmless has the exact condition for checks into which heartbeats come.
- Timing.DeathIsAnnounced: a zero warntime is not covered, since a check in the second of the heartbeat may then come before it.
