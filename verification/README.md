# What the logs, caches, locks and parsers of Mercury keep

This project models the parts of the network-control application that must stay honest under
interleaving, failure and broken input, and proves what they keep.

- **Alert history** (`AlertLog`, `AlertGate`, `AlertReader`, `AlertEpisodes`, `AlertHistoryPage`,
  `AlertExpiry`, `AlertRetention`). Writers append transitions under one lock; a key is kept once. A
  resolve is flagged by the reader and by the detections, and a flagged one is kept only after a
  recorded state it can end; the backfill of Grafana's annotations flags none. The gate and the later
  fold into episodes are proved together: whatever order batches and late rows arrive in, and whichever
  calls fail part way, every stored resolve of writers that flag closes exactly one episode, and of any
  writers at all exactly when resolves and states alternate in the log. The retention move, whose read
  and put are outside the lock, is a state machine of any number of processes beside the recorder, and
  over its runs it is proved which served resolves still close an episode.
- **Times as text** (`Calendar`). `iso` and `epoch` on the real calendar: the text order is the time
  order (sections 5.1 and 5.6 of RFC 3339), and reading undoes writing.
- **Alert rule log** (`RuleLog`, `RuleReader`). Replaying the log gives the definitions last read.
- **Needs-attention record** (`AttentionRecord`). What is kept is exactly the end of the whole history,
  and every life ever begun is open, kept or counted as dropped.
- **SSH sessions** (`SessionSlots`, `SessionTable`, `SessionLocks`). Slots across processes with crashes
  and double closes; three levels of locks and a reaper that takes two of them out of order by tries.
- **Telnet** (`Telnet`). An incremental client over any chunks, against one decoding of the whole
  stream, as in the "TELNET COMMAND STRUCTURE" section of RFC 854 and the bracket of RFC 855.
- **Gaps, coverage and a shared cache** (`Gaps`, `Acknowledgements`, `Incidents`, `SharedCache`).
  Single-pass scans equal their transitive-closure definition; a cache never serves a value begun too early.
- **Key file, drill receipt, BGP summary** (`KeyFile`, `DrillReceipt`, `BgpSummary`, over `Texts`).
  A creation race, and two round trips over the printed text itself.

`Sorting` holds the stable sort and its laws. Objects the source updates in place are classes
(`AlertLog.Store`, `AlertReader.Reader`, `RuleLog.Log`, `RuleReader.Reader`, `SessionTable.Table`,
`Telnet.Client`), and loops are methods, each proved against a function or a declarative predicate;
protocols of several processes or threads are state machines over their steps.

SHA digests are taken as injective, so an identity, a key or an episode id is the value digested. An
alert row's time is its whole seconds before year 10000 (`AlertLog.Second`): `Calendar.IsoOrderIff`
proves that comparing the texts compares the seconds exactly up to there.

## What turned out otherwise than the documentation has it

- Both readers' memos outlive a call of `record` that failed part way: if the value then goes back to
  the remembered one, it is skipped although the store no longer says it. `AlertReader.StaleRun` and
  `RuleReader.StaleRun` are such runs; `AlertGate.NeedlessIffSettled` and `RuleLog.AddsNothingIffKnown`
  say exactly when a skip is right, and the contracts of both readers' `AfterRead` carry it.
- The backfill hands its resolves over without the flag, so the gate lets every one in: one whose state
  was never recorded is kept and closes nothing (`AlertEpisodes.BackfillCanStrayAResolve`).
  `AlertGate.EveryRunAlternatesIff` and `AlertEpisodes.EveryResolveClosesOneIff` give the exact conditions
  over every run of any writers, row by row and at the end.
- Retention can move the start of an episode and leave its resolve: that resolve then closes nothing.
  `AlertRetention.ExpiryCanStrandAResolve` is a run that does it, `AlertRetention.ServedResolvesThatClose`
  the exact condition over every run. `AlertRetention.MoveStrandsNoneIff` tells it before a
  move. Of an instance whose rows all name the same networks, and whose resolves were kept on the gate's
  terms, only the first served row can be such a resolve (`AlertRetention.OnlyTheFirstIsStranded`); where
  they name different ones, a later one can (`AlertRetention.ExpiryCanStrandALaterResolve`).
- Two archive objects of one network with the same first time, last time and count share a name, and
  the second put replaces the first. `AlertExpiry.AnObjectCanBeOverwritten` is an input,
  `AlertExpiry.ArchiveHoldsEveryPutIff` and `AlertExpiry.ArchiveHoldsReturnedPutsIff` the exact conditions.
- Two episodes of an instance can share an id: their starts make one id exactly when they are the same
  second or neither is read back, before 2000 or from year 10000 on (`AlertEpisodes.OneIdIff`;
  `AlertEpisodes.IdsCanBeShared` gives starts at both ends).
- `iso` writes seconds from year 10000 on that `epoch` does not read, the first of which sorts before 1970
  (`Calendar.EpochUndoesIso`, `Calendar.IsoOrderIff`); a zone west of UTC is enough to get there
  (`Calendar.LastHourIsLost`).
- A burst of requests with no change announced is one computation only while that one is quick: the
  cached value is stamped before it is computed, so a computation that takes SHARED_SECONDS is too old
  when it is stored. `SharedCache.ASlowOneIsComputedAgain` is a run that shows it,
  `SharedCache.ComputesAgainOnlyWhenDue` and `SharedCache.ServedFromCacheIff` say when a page is computed,
  and `SharedCache.AQuickOneServesTheNext` shows the burst that is one computation.

## Model

| member | source | states |
|---|---|---|
| `AlertLog.Latest` | modules/alert_history.py:408-419 | an instance's latest mark is the greatest of its recorded rows' in (time, normal) order, and there is none exactly when it has no row |
| `AlertLog.ReadState` | modules/alert_history.py:408-421 | the first pass collects exactly the keys held and each instance's latest mark |
| `AlertLog.Store.Record` | modules/alert_history.py:393-441 | the log becomes the old one with the sorted batch taken up to the failure; held is how many transitions were recorded when their turn came, and added, held and refused add up to the rows judged; an unreadable store adds nothing |
| `AlertLog.TakeIs` | modules/alert_history.py:422-435 | a row is kept unless its instance, state and second are recorded already, or it is flagged and the last row of its instance, by second and a resolve after the state it ends, is no state that began by then |
| `AlertLog.InOrderIs` | modules/alert_history.py:422 | a batch is taken by second, of one second the states before the resolves |
| `AlertLog.TiesAsTheyCame` | modules/alert_history.py:422 | and rows of one second and kind as they came |
| `AlertGate.NothingNewIffSettled` | modules/alert_history.py:422-431 | taking rows in order changes nothing exactly when each is held or refused already |
| `AlertGate.NeedlessIffSettled` | modules/alert_history.py:478-483 | leaving a batch unrecorded loses nothing exactly when each of its rows is held or would be refused |
| `AlertGate.RetryFinishes` | modules/alert_history.py:404-440 | a batch recorded in part and then again leaves what recording it once would have |
| `AlertGate.RecordTwice` | modules/alert_history.py:404-440 | recording a fresh copy of a batch adds nothing, the resolves refused the first time included |
| `AlertGate.SkipIsExact` | modules/alert_history.py:478-487 | a skip on remembered keys loses nothing exactly when every row without the flag is kept already |
| `AlertGate.SameValueSkips` | modules/alert_history.py:478-487 | a value with the same keys and flags as the one just recorded is rightly skipped |
| `AlertGate.FlagFollowsWordIff` | modules/alert_history.py:250-279 | a row the reader hands over is flagged exactly when the word kept of its state begins with "normal", except for a state that begins with white space before it |
| `AlertGate.RecordingSettles` | modules/alert_history.py:482-487 | after a call that judged all of a value, every key of it is kept, or is a resolve's that would be refused |
| `AlertGate.SkipLosesNothing` | modules/alert_history.py:478-483 | so a later value of those keys has nothing in it to record |
| `AlertGate.ResolveKeepsAlternating` | modules/alert_history.py:426-431 | a resolve the gate admits keeps every two resolves of an instance apart by a state, and every one after a state |
| `AlertGate.StateKeepsAlternating` | modules/alert_history.py:422-435 | a state arriving at any time, late ones included, keeps that |
| `AlertGate.EveryRunAlternates` | modules/alert_history.py:422-435 | over every run of batches that flag their resolves, as the reader and the detections do and the backfill does not, in any order and failing anywhere, resolves alternate with states and no key is kept twice |
| `AlertGate.ResolveAlternatesIffFits` | modules/alert_history.py:426-435 | a resolve kept whatever its flag, as the backfill's are, leaves resolves and states alternating exactly when there is a state before it and one between it and each other resolve of its instance |
| `AlertGate.EveryRunAlternatesIff` | modules/alert_history.py:393-441 | over every run of any writers, the backfill among them, the log alternates after every row exactly when each resolve that was kept fitted at its turn |
| `AlertReader.Reader.AfterRead` | modules/alert_history.py:472-488 | a value is skipped exactly when its keys are the remembered ones; after a call that judged all of a value a skip leaves the store as recording would, and after one that failed part way exactly when every row is held or refused; what is not skipped is recorded, and remembered only when all of it was judged |
| `AlertReader.OtherStoresRemembered` | modules/alert_history.py:472-488 | recording one configuration, whole or in part, never spoils what is remembered of another |
| `AlertReader.StaleAfterAFailedCall` | modules/alert_history.py:478-487 | three values from 2000 on, the first and third of the same keys: the first records nothing, one row of the second is kept, and recording the third would then add its resolve |
| `AlertReader.StaleRun` | modules/alert_history.py:472-488 | those three calls on the reader itself: the third is skipped, and the store is not what recording it leaves |
| `AlertEpisodes.ResolvesCloseIff` | modules/alert_history.py:625-656 | the stored resolves of an instance are exactly those that close episodes, in order, if and only if none of them is first or follows another resolve |
| `AlertEpisodes.ServedIff` | modules/alert_history.py:379-390 | a row is served exactly when it is in the log and no marker names its instance, state and second |
| `AlertEpisodes.SoundHasNoStray` | modules/alert_history.py:625-656 | where resolves alternate with states, no resolve is first or follows another in the order the fold takes them |
| `AlertEpisodes.EveryResolveClosesOne` | modules/alert_history.py:422-435 | from the empty store, after any deliveries that flag their resolves, as the reader and the detections do and the backfill does not, in any order, each stored resolve closes exactly one episode |
| `AlertEpisodes.AlternatesIffNoneStray` | modules/alert_history.py:625-656 | over any rows, resolves alternate with states exactly when no instance has a resolve that is first or follows another in its order |
| `AlertEpisodes.EveryResolveClosesOneIff` | modules/alert_history.py:393-441 | after any deliveries of any writers, flagged or not, every stored resolve closes exactly one episode if and only if resolves alternate with states in the log |
| `AlertEpisodes.BackfillCanStrayAResolve` | modules/alert_history.py:340-351 | an annotation that an alert went back to normal, the first row of its instance, is kept and served and closes nothing |
| `AlertEpisodes.WhichResolvesClose` | modules/alert_history.py:630-656 | over any rows of distinct keys, the resolves that close an episode are exactly those with a state of the instance between them and the resolve before, each once and in order; of two of one second the one recorded first is before |
| `AlertEpisodes.EpisodesInTimeOrder` | modules/alert_history.py:621-668 | every served state is in exactly one episode, in order; none of an episode's states is before its start or after its resolve; each episode begins strictly after the one before it was resolved; only the last may be open |
| `AlertEpisodes.IdsDiffer` | modules/alert_history.py:195-197 | two episodes of an instance's rows share an id exactly when the later one began before 2000 |
| `AlertEpisodes.OneIdIff` | modules/alert_history.py:663 | over all seconds, two starts make one id exactly when they are the same or `epoch` reads neither back |
| `AlertEpisodes.IdsCanBeShared` | modules/alert_history.py:663 | two starts before 2000, and two in year 10000, that make one id |
| `AlertEpisodes.OrderOfRowsIsNoMatter` | modules/alert_history.py:621-656 | the start and resolve times of an instance's episodes do not depend on the order of the rows |
| `AlertHistoryPage.Fold` | modules/alert_history.py:630-656 | the loop over one instance's sorted rows gives the recursive fold's episodes |
| `AlertHistoryPage.Group` | modules/alert_history.py:625-627 | the dictionary holds each instance's rows, in their order, once |
| `AlertHistoryPage.Episodes` | modules/alert_history.py:621-668 | the page's list is sorted newest first and, for each instance, is exactly its served rows' episodes turned round, nothing left out or added; an instance has an episode going on exactly when the reader holds it and the last of its served rows is a state, and then it is the newest and the only one |
| `AlertHistoryPage.OngoingIff` | modules/alert_history.py:655-657 | going on is an open episode of an instance the reader holds: from the served rows, the one whose last row in time, resolves after states, is a state |
| `AlertExpiry.Longest` | modules/alert_history.py:551-552 | a row's retention is the longest of its networks' |
| `AlertExpiry.StepKeepsInv` | modules/alert_history.py:544-584 | each step of any process keeps: keys distinct, every plan's rows in the log, every marker written after a put of exactly its keys |
| `AlertExpiry.NothingIsLost` | modules/alert_history.py:379-390 | in every interleaving and crash, a transition once appended is served, or named by a marker and held by a put that returned |
| `AlertExpiry.StopsOnlyAfterItsPut` | modules/alert_history.py:570-584 | a row stops being served only by a marker, after a put holding it returned |
| `AlertExpiry.NeverRecordedAgain` | modules/alert_history.py:408-425 | a transition, moved or not, is never recorded a second time |
| `AlertExpiry.ArchiveHoldsEveryPutIff` | modules/alert_history.py:564-575 | the archive holds whole all that ever reached it exactly when no two puts that reached it and differ, returned or raised, shared a name; and then it holds every put that returned |
| `AlertExpiry.ArchiveHoldsReturnedPutsIff` | modules/alert_history.py:564-575 | the archive holds whole every put that returned exactly when the last put to reach each one's name, returned or raised, held the same rows |
| `AlertExpiry.NothingIsLostWhereNamesDiffer` | modules/alert_history.py:564-584 | where no two differing puts shared a name, a row ever recorded is served or in an archive object at the end of every run |
| `AlertExpiry.AnObjectCanBeOverwritten` | modules/alert_history.py:564-571 | a run of two processes after which a moved row is in no archive object |
| `AlertRetention.ServedResolvesThatClose` | modules/alert_history.py:379-390 | over every run of recorders, flagged or not, and expiring processes, the resolves that close an episode are exactly those with a served state of the instance between them and the served resolve before |
| `AlertRetention.RunKeepsSound` | modules/alert_history.py:422-435 | in every such run whose sources flag their resolves, the backfill not among them, the log keeps its resolves apart by states and its keys distinct after every row |
| `AlertRetention.RunSoundIffFitting` | modules/alert_history.py:393-441 | in a run of any sources it does exactly when each resolve that was kept fitted at its turn |
| `AlertRetention.MoveStrandsNoneIff` | modules/alert_history.py:544-556 | before a move: it leaves each served resolve closing an episode exactly when each one not due keeps a state not due between it and the resolve before |
| `AlertRetention.DueIff` | modules/alert_history.py:549-554 | due is a row of a readable second further back than each of its networks keeps rows: what its setting says, ninety days where that is absent or zero, one at least; a row of no network is the unnamed one's |
| `AlertRetention.PlannedIff` | modules/alert_history.py:549-555 | a move takes of a network exactly the served rows that are due and name it first |
| `AlertRetention.MovesOnlyWhatWasDue` | modules/alert_history.py:544-584 | over every run, a row stops being served only once a process began a move when the row was due |
| `AlertRetention.EarlierIsDueToo` | modules/alert_history.py:551-554 | of rows naming the same networks, what is due takes everything earlier from 2000 on along |
| `AlertRetention.StepKeepsTogether` | modules/alert_history.py:544-584 | of such an instance no state is moved, or about to be, without every resolve before it, in steps that keep a resolve of it, flagged or not, only where the gate would |
| `AlertRetention.OnlyTheFirstIsStranded` | modules/alert_history.py:544-584 | over every run that keeps resolves of such an instance only where the gate would, as every run of flagging sources does, at any clocks and settings, only its first served row can be a resolve that closes nothing |
| `AlertRetention.FlaggedIsInTurn` | modules/alert_history.py:422-435 | every run whose sources flag their resolves is one that keeps resolves only where the gate would |
| `AlertRetention.ExpiryCanStrandAResolve` | modules/alert_history.py:544-584 | a run after which an instance's one served row is a resolve that closes nothing |
| `AlertRetention.ExpiryCanStrandALaterResolve` | modules/alert_history.py:551-554 | a run over rows of two networks after which the third served row is one |
| `Calendar.TimegmUndoesGmtime` | modules/alert_history.py:149-153 | reading the calendar fields of a second gives the second back |
| `Calendar.GmtimeIsGregorian` | modules/alert_history.py:149-153 | the fields of any second are a date of the Gregorian calendar, its month ends and leap years written out, the day a closed formula numbers, and the time of day the second falls on |
| `Calendar.TimegmIsDayNumber` | modules/alert_history.py:138 | reading any date from year 1 on gives the day that formula numbers, and its time of day |
| `Calendar.IsoOrder` | modules/alert_history.py:149-153 | up to year 9999, comparing the texts compares the times, and equal texts are equal times |
| `Calendar.IsoOrderIff` | modules/alert_history.py:746-748 | the text order is the time order of all seconds below a bound exactly when the bound is not past year 9999 |
| `Calendar.IsoSpells` | modules/alert_history.py:149-153 | what is written of a second before year 10000 is its date and time of day in full, in digits, and Z |
| `Calendar.EpochReadsEveryForm` | modules/alert_history.py:131-146 | for every date and time of day the pattern and the calendar accept, any fraction, any zone in either spelling and blanks around read as the second of the date less the zone, or as none before 2000 |
| `Calendar.EpochReadsIff` | modules/alert_history.py:131-146 | a text reads as a second exactly when it is a date of the Gregorian calendar and a time of day, leap seconds included, with any fraction, zone and blanks around, of that very second, which is from 2000 on; every other text reads as none |
| `Calendar.ZeroTimeIsNone` | modules/alert_history.py:131-146 | Go's zero time, the first second of year 1, reads as none |
| `Calendar.EpochUndoesIso` | modules/alert_history.py:131-153 | reading what is written gives the second back exactly from 2000 to the end of 9999, and none for every other second |
| `Calendar.KeptTextReadsBackIff` | modules/alert_history.py:250-279 | the text kept of a time that was read reads back as the same second exactly when that second is before year 10000 |
| `Calendar.LastHourIsLost` | modules/alert_history.py:142-146 | the last second of 9999 in a zone an hour west is read, and the text kept of it is not |
| `RuleLog.Replay` | modules/alert_rule_changes.py:406-413 | the loop gives each rule's newest row of a store |
| `RuleLog.Changes` | modules/alert_rule_changes.py:416-452 | the two loops give the verdict of every rule listed, then of every rule listed no more |
| `RuleLog.Log.Record` | modules/alert_rule_changes.py:473-495 | the log becomes the old one and the read's rows up to the failure; an unreadable log adds nothing |
| `RuleLog.VerdictsHonest` | modules/alert_rule_changes.py:416-452 | every row a read adds follows from the row held of its rule, from-values included |
| `RuleLog.WholeReadIsKnown` | modules/alert_rule_changes.py:406-452 | a whole read leaves a log that replays to exactly its definitions, whatever failed reads left before |
| `RuleLog.AddsNothingIffKnown` | modules/alert_rule_changes.py:416-452 | a read adds no row exactly when its definitions are what the log says |
| `RuleLog.LastReadIsKnown` | modules/alert_rule_changes.py:473-495 | over every run, whatever other configurations are read after, replaying gives the last whole read's definitions |
| `RuleLog.SameReadAddsNothing` | modules/alert_rule_changes.py:500-530 | so reading the same definitions again adds no row |
| `RuleLog.EveryRuleLives` | modules/alert_rule_changes.py:416-452 | each rule's rows are (baseline or added) changed* (removed added changed*)*, removed at the end or not, each leaving the state the row before came to |
| `RuleLog.FirstRowsAreBaselines` | modules/alert_rule_changes.py:422-435 | over every run, a row that comes from no state is a baseline exactly when the log held no row of its configuration before the read that wrote it, and an addition exactly when it held one; no other row is a baseline |
| `RuleReader.Reader.AfterRead` | modules/alert_rule_changes.py:504-537 | partial values are not judged; a read is skipped exactly when its definitions are the remembered ones; at a skip the log says them exactly when recording them would add no row, and after a whole call it does; what is not skipped is recorded up to the failure, and remembered only when all of it was; other configurations never move |
| `RuleReader.FailedReadMovesIffKept` | modules/alert_rule_changes.py:484-494 | a failed read changes what the log says exactly when it kept a row |
| `RuleReader.StaleAfterAFailedRead` | modules/alert_rule_changes.py:473-495 | definitions read whole, then others cut after one row: the log no longer says the first ones |
| `RuleReader.StaleRun` | modules/alert_rule_changes.py:521-530 | those reads and the first definitions again, on the reader itself: the third is skipped, and the log does not say what was read |
| `AttentionRecord.Present` | modules/attention_record.py:98-109 | the loops collect the page's rows and the rows folded into them |
| `AttentionRecord.PresentIds` | modules/attention_record.py:98-109 | present are exactly the ids of rows and of rows folded into them |
| `AttentionRecord.OwnRowWins` | modules/attention_record.py:102-108 | a row of the page's own wins over a folded one, wherever either stands |
| `AttentionRecord.FoldedRowIs` | modules/attention_record.py:102-108 | a row that is only ever folded is the first of its id, and has no time of its own to clear by |
| `AttentionRecord.Apply` | modules/attention_record.py:124-169 | one sighting leaves open what the page shows and, as they are, the lives it does not show that nobody hid and of which some source of that name was not read; it closes exactly the others, each once, as hidden when its id is listed, by time when its second has come, and resolved otherwise; it opens exactly the new ones, and keeps and drops by both limits |
| `AttentionRecord.LastOfLast` | modules/attention_record.py:158-164 | keeping the last of what was kept keeps the last of all there was |
| `AttentionRecord.KeepsTheLastOfAll` | modules/attention_record.py:158-164 | over every run with a clock that never goes back, of the whole history in its order a cleared life is kept exactly when it cleared within thirty days and is of the last five thousand, and the rest is counted |
| `AttentionRecord.SightingConserves` | modules/attention_record.py:124-169 | one sighting moves lives and loses none |
| `AttentionRecord.EveryLifeIsAccountedFor` | modules/attention_record.py:124-169 | over every run, open, cleared and dropped add up to the lives ever begun |
| `AttentionRecord.LifeIsItsSightings` | modules/attention_record.py:116-142 | over every run, an open life was begun by the sighting since which its id has been open, and says when that was and of which source, how often and when last it was shown since, and what it is and when it clears as the last row that said so has it |
| `SessionTable.Table.TakeSlot` | modules/connection.py:408-441 | lost slots are released, then the least slot nobody holds is locked, or none is free |
| `SessionTable.Table.Claim` | modules/connection.py:473-501 | granted exactly when fewer than the budget are counted and some slot is free, and then the least; a refusal changes nothing |
| `SessionTable.Table.Drop` | modules/connection.py:444-452 | the session is uncounted and exactly its slot freed; a second drop changes nothing |
| `SessionSlots.ClaimKeepsInv` | modules/connection.py:417-423 | a claim never finds a lost slot to release, and keeps the invariant |
| `SessionSlots.StepKeepsInv` | modules/connection.py:408-501 | each step of any process keeps sessions and locks one to one |
| `SessionSlots.NeverMoreThanTheBudget` | modules/connection.py:473-501 | over every interleaving, crash and double close, all processes together never count more sessions than the greatest budget used |
| `SessionSlots.ALineStaysFree` | modules/connection.py:380-383 | so a device with any line keeps one for a person, and one with none is not opened |
| `SessionSlots.AllButOneCanBeUsed` | modules/connection.py:380-383 | and for every number of lines there is a run that holds all but one of them at once |
| `SessionSlots.NoLineIsForgotten` | modules/connection.py:935-942 | a session that holds a line stays counted until it is closed or its process dies |
| `SessionSlots.AClosedOneGoesBack` | modules/connection.py:444-501 | a session closed and dropped gives its line and slot back, and a claim at the budget begins nothing |
| `SessionSlots.LocksAreSessions` | modules/connection.py:935-942 | every lock held is some counted session's slot and every session holds one: nothing leaks |
| `SessionLocks.WaitsGoUp` | modules/connection.py:1106-1149 | every blocking acquire goes up the order pool lock, send lock, `_sessions_mu` |
| `SessionLocks.SomeoneIsNotBlocked` | modules/connection.py:265-275 | among any threads in any state, one waits for none of the others |
| `SessionLocks.NeverDeadlocked` | modules/connection.py:971-1011 | in every state with a thread at work, some thread at work can move |
| `SessionLocks.MoveKeepsInv` | modules/connection.py:984-1011 | each move keeps locks exclusive and what the reaper has closed out of every pool |
| `SessionLocks.ReapedIsNeverHandedOut` | modules/connection.py:994-1005 | over every run, a session the reaper closed is never the pool's again |
| `SessionLocks.NoCallWhileReaping` | modules/connection.py:985-1010 | from the moment the reaper has a device's session in hand until it lets it go, no other thread holds that device's send lock, so none is inside a call to it, waits inside one, or judges, replaces or closes its pooled session |
| `SessionLocks.WaitGives` | modules/connection.py:265-275 | where a wait ends, exactly the lock waited for is held besides those held before |
| `SessionLocks.PoolsChangeUnderTheirLock` | modules/connection.py:1106-1149 | no move of any thread changes a pool whose lock the thread does not hold |
| `SessionLocks.ACloseGoesThrough` | modules/connection.py:1139-1149 | alone, a close takes the session out of its pool, closes it holding the send lock exactly when it goes through the wrapper, and comes to its end |
| `SessionLocks.AReapGoesThrough` | modules/connection.py:971-1011 | alone, the reaper takes an idle session out of its pool and closes it |
| `Telnet.DecodeUndoesSend` | telnetlib.py:164-190 | decoding undoes sending for every list of data, options, commands and subnegotiations; nothing of a command leaks into data |
| `Telnet.DecodeUndoesDoubling` | telnetlib.py:164-190 | decoding undoes the doubling of 255 |
| `Telnet.DecodedSoFarIsAPrefix` | telnetlib.py:164-190 | bytes handed out early begin the decoding of the whole stream |
| `Telnet.Client.FillRawq` | telnetlib.py:204-212 | one chunk joins the raw queue; the end is said exactly when none is left |
| `Telnet.Client.RawqGetchar` | telnetlib.py:192-202 | the next byte of the stream is taken, whatever the chunks, or the end is reached |
| `Telnet.Client.ProcessRawq` | telnetlib.py:164-190 | the raw queue is emptied, and handed out plus queued stays the decoding of the bytes taken; a command the end cuts leaves nothing |
| `Telnet.Client.ReadUntil` | telnetlib.py:76-104 | what is returned ends at the first occurrence, or is all there was and holds none; it gives up only at the end of the stream or after exactly as many fills as the deadline allows, and never waits for what is there already |
| `Telnet.Client.ReadAll` | telnetlib.py:106-115 | all handed out by any reads together is the decoding of the whole stream |
| `Telnet.Client.ReadSome` | telnetlib.py:117-127 | something is returned unless the end was reached, all handed out is the decoding of what was received, and where there is something already nothing is waited for |
| `Acknowledgements.Scan` | modules/acknowledgements.py:69-87 | the pass returns the least event not covered by the closure of small steps, or none when all are |
| `Acknowledgements.Covers` | modules/acknowledgements.py:55-87 | the answer is the declarative one, an acknowledgement without a readable time included |
| `Acknowledgements.OrderAndRepeatsAreNoMatter` | modules/acknowledgements.py:71 | the answer depends only on which events there are |
| `Acknowledgements.LaterEventsChangeNothing` | modules/acknowledgements.py:77-85 | later events never change a reported first uncovered event |
| `Acknowledgements.QuietPeriodCoversToItsEnd` | modules/acknowledgements.py:72-77 | a planned quiet period covers exactly the events up to its end |
| `Acknowledgements.AckCoversItsCycle` | modules/acknowledgements.py:69-87 | without one an acknowledgement covers exactly the events up to its time and those that follow one of them by steps under a quarter of an hour |
| `Gaps.NotJoinedAcross` | modules/acknowledgements.py:77-85 | no walk of small steps crosses a gap |
| `Incidents.GroupTimed` | modules/attention.py:2131-2139 | the pass cuts the sorted instances, losing none, where and only where the next onset is past the gap |
| `Incidents.GroupsAreComponents` | modules/attention.py:2128-2140 | two timed instances are in one group exactly when small steps lead from one onset to the other |
| `Incidents.Incidents` | modules/attention.py:2128-2140 | the answer is a partition into the connected components, each untimed instance alone; laid end to end it is the timed instances by onset, equal ones as they came, and then the others as they came |
| `SharedCache.EveryAnswerIsOwed` | modules/attention.py:6907-6927 | over every schedule, an answer is its network's, begun after every change announced before its request read the generation, and a cached one began less than ten seconds before |
| `SharedCache.OneComputation` | modules/attention.py:6920-6926 | at most one thread is past the lock |
| `SharedCache.ComputesAgainOnlyWhenDue` | modules/attention.py:6920-6927 | over every schedule, a network's page is computed again after a stored computation of it only if a change was announced since, or SHARED_SECONDS had passed since its stamp |
| `SharedCache.ServedFromCacheIff` | modules/attention.py:6922-6925 | over every schedule, a request is served without computing exactly when a computation of its network and generation, stamped less than SHARED_SECONDS ago, was stored |
| `SharedCache.ASlowOneIsComputedAgain` | modules/attention.py:6923-6927 | a run of two requests with no change announced in which the page is computed twice, because the first computation took SHARED_SECONDS |
| `SharedCache.ARaisedOneIsComputedAgain` | modules/attention.py:6923-6927 | a run with no change and no time gone by in which the page is computed twice, because the first computation raised |
| `SharedCache.AChangeIsComputedAgain` | modules/attention.py:6921-6927 | a run with no time gone by in which it is computed twice, because a change was announced while it was |
| `SharedCache.AQuickOneServesTheNext` | modules/attention.py:6920-6927 | a run in which two requests are one computation, for any time under SHARED_SECONDS that it takes |
| `KeyFile.AllReturnTheSame` | modules/config.py:157-196 | over every interleaving and crash, all calls that return give the same bytes, an existing key's if there was one |
| `KeyFile.KeyNeverChanges` | modules/config.py:186-191 | once linked, the key's file and bytes stand |
| `KeyFile.ReturnedIsWhole` | modules/config.py:180-196 | what is returned is some process's whole key, never part of one |
| `KeyFile.RefusedLeavesNothing` | modules/config.py:171-178 | over every run beside any other processes, one that is refused looked, was refused and did no more |
| `KeyFile.AllRefusedLeavesNothing` | modules/config.py:171-178 | where no process got further than a refusal, there is no key and no temporary file |
| `KeyFile.LooksDecides` | modules/config.py:170-178 | a process that looks where there is a key never makes one and is never refused, whatever the others do; one that finds none may be refused or make one |
| `KeyFile.AnExistingKeyIsOnlyRead` | modules/config.py:170-196 | where there is a key from the start no run makes any other file |
| `KeyFile.NoTempOutlivesItsMaker` | modules/config.py:180-193 | while no process dies, a temporary name is there only while its maker is at work on it |
| `KeyFile.NobodyIsInTheWay` | modules/config.py:170-196 | whatever the others have done, a process can go through alone: with the key that is there, or with its own, leaving no temporary name |
| `KeyFile.ADeathHarmsNobody` | modules/config.py:180-196 | also after any other died, in the middle of its key or anywhere else |
| `DrillReceipt.UnquoteUndoesQuote` | modules/breakglass.py:584-587 | percent-decoding undoes percent-encoding for all bytes (section 2.1 of RFC 3986) |
| `DrillReceipt.EscapeReads` | modules/breakglass.py:607 | an escape of any byte, its digits in either case, reads as that byte (section 2.1 of RFC 3986) |
| `DrillReceipt.Fill` | modules/breakglass.py:604-607 | the loop fills the dictionary, a later word for a key taking the place of an earlier |
| `DrillReceipt.Parse` | modules/breakglass.py:595-614 | the whole reader, each refusal included, is the function the round trip is about |
| `DrillReceipt.FoundAre` | modules/breakglass.py:604-607 | among any other words, in any order, a key is found exactly when its word is there, with its value |
| `DrillReceipt.EveryPasteReads` | modules/breakglass.py:595-614 | however the words are ordered, spaced, repeated or mixed with others, the line reads as its report if all six are there, and is refused naming exactly the missing ones if not |
| `DrillReceipt.ReadUndoesPrint` | modules/breakglass.py:579-614 | all six fields come back, for every list name and creation text, and none for a fingerprint there is none of |
| `DrillReceipt.WordsAre` | modules/breakglass.py:579-592 | the line is the prefix and the six words in their order, each spelled out |
| `DrillReceipt.FoundIs` | modules/breakglass.py:603-607 | of any words at all, a key is found when one gives it, and as the last of them does |
| `DrillReceipt.ParsedIff` | modules/breakglass.py:608-614 | a line is accepted exactly when each key is given, the hash is sixty-four digits of lower-case hexadecimal and the count is digits; and lacks exactly the keys not given |
| `BgpSummary.CountIsDigits` | modules/bgp_summary.py:73 | the state reads as a prefix count exactly when it is digits and commas with a digit among them |
| `BgpSummary.EntryReads` | modules/bgp_summary.py:64-75 | the columns of any printed neighbour are a row, and every field of the peer read from them is that neighbour's |
| `BgpSummary.NamesFamilyIff` | modules/bgp_summary.py:47-50 | a line names a family exactly when it begins, after any blanks, with the words and something follows |
| `BgpSummary.HeadsTableIff` | modules/bgp_summary.py:51-53 | a line heads a table exactly when it begins with Neighbor, a gap and V with no letter, digit or underscore joined to it |
| `BgpSummary.Parse` | modules/bgp_summary.py:45-76 | the loop over the lines is the function the round trip is about |
| `BgpSummary.RowReads` | modules/bgp_summary.py:56-75 | a row, on one line or wrapped, adds its neighbour once inside a table and leaves nothing pending: the printed address, AS number, time and state, established exactly when it ends in a prefix count |
| `BgpSummary.ParseUndoesPrint` | modules/bgp_summary.py:42-76 | exactly the printed neighbours, in order, each with its address, AS number, time, state and family, established exactly when a prefix count was printed, whatever stands between the tables |
| `BgpSummary.WrappingIsNoMatter` | modules/bgp_summary.py:59-63 | wrapping rows or not makes no difference |
| `BgpSummary.QuietIff` | modules/bgp_summary.py:42-66 | of every line whose first word begins no heading: it is no row and no part of one unless that word is an address that stands alone or is followed by the version and eight more words |
| `BgpSummary.ACountIsNoPeer` | modules/bgp_summary.py:26-31 | a line whose first word has neither a dot nor a colon, and begins no heading, is no peer, whatever follows |

## Left out

- Flask routes, page building, wording, redaction and the records database: a store is the sequence of rows it serves, and an append either keeps a row or raises.
- Redaction is taken to leave keys, identities, times, kinds, versions and hashes as they are.
- Alert rows: labels, networks' names beyond retention, devices, values and `recorded_at`; an episode's `fired_at`, `outcome`, sources and durations; `kind_read`.
- `AlertReader.Reader.AfterRead`: promises about the memo are for one process's reader as the store's only writer; with others writing between, only what `AlertGate` says of a log holds. Its values are flagged by the word of the state, as the reader's are; a state beginning with white space, of which Grafana names none, is where `AlertGate.FlagFollowsWordIff` draws the line.
- `AlertGate.EveryRunAlternates`: the backfill, whose rows carry no flag; `AlertGate.EveryRunAlternatesIff` is about every writer.
- `AlertRetention.OnlyTheFirstIsStranded`: runs in which a resolve is kept that the gate would refuse, as a backfill's late one may be; of those `AlertRetention.ServedResolvesThatClose` says which resolves close.
- The walk through Grafana's pages of annotations, and how an annotation's labels are read; an annotation is its instance, states and second.
- `AlertEpisodes.EpisodesInTimeOrder`: rows timed from year 10000 on, which `AlertLog.Second` excludes, since their texts no longer sort by time.
- `RuleReader.Reader.AfterRead`: likewise for the rule log.
- `AlertExpiry.StepKeepsInv`: the clock, retention settings and network names are inputs of the step that begins a move; a put that raises is a step that stores its object or does not.
- `AttentionRecord.Apply`: masking, levels and devices; the order in which closing ids are listed is arbitrary.
- `AttentionRecord.KeepsTheLastOfAll`: needs a clock that never goes back and is past its first second, which the retention cut by time needs too.
- `sight`: that a quiet reader has nothing pending does not hold, since its loop test and its release are separate steps.
- `RuleLog.Changes`: summaries, facets, who and when of a rule row; its rules are taken in any order, of which sorting is one.
- `SessionSlots.NeverMoreThanTheBudget`: a closed session is taken to free its device's line when its close returns or raises; the two-try login is any number of steps between claim and drop; the line count cache is the budget a claim uses.
- `SessionTable.Table.Claim`: file descriptors, lock file contents and owners' names.
- `SessionLocks.NeverDeadlocked`: re-entering a send lock a thread holds already is no step; the small lock around the table of send locks is taken and released within one.
- `Telnet.Client.ReadUntil`: the deadline is how many more fills the caller waits for; a `recv` that raises, as the socket's own timeout does, loses the bytes decoded in that call and is no step here; `expect`, `read_eager` and the writing side.
- `KeyFile.AllReturnTheSame`: permissions, `fsync`, directories and a temporary name that cannot be removed; one node is one file, never reused.
- `SharedCache.EveryAnswerIsOwed`: the deep copy handed to each caller is the value itself; the clock never goes back, which the source's own clock may.
- `Calendar.EpochReadsEveryForm`: digits and white space outside ASCII, which Python also accepts.
- `DrillReceipt.EveryPasteReads`: texts are the bytes of their UTF-8 form, so how Python replaces bytes that are no UTF-8 is left out, and so are digits and white space outside ASCII.
- `BgpSummary.ParseUndoesPrint`: splitting the output into lines, and `local_as`; digits and white space outside ASCII.
- `Acknowledgements.Covers`: who acknowledged and why, and how the times are read from text; times are real numbers.
- `modules/approval_queue.py`, `modules/arrival_watch.py`, `modules/change_windows.py` and `modules/config_read.py`: smaller machines of the kinds modelled here.
- Liveness (that a waiting thread is served at last) is not stated; only that some thread can always move.
