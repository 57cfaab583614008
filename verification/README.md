# Verified model of the T4 observation campaign

This Dafny project models the observation campaign of the crypto agent and its
evidence chain, and proves what the campaign relies on.  The C# bridge writes a
signed, hash-linked journal of session and control events; the Python verifier
re-checks that journal page by page, searches it for the controlled scenarios,
and triggers controls; a scheduler records every frozen slot of every scope; a
quality query and an acceptance gate judge the campaign; a supervisor drives the
schedule and keeps two chained journals of its own; an outbox delivers alerts;
bounded buffers and a contract catalogue feed the reader.  All of these are
append-only, resumable and crash-prone, and the theorems are about whole runs:
any order of boots, appends, thread steps, calls, kills and torn writes.

`dafny verify dfyconfig.toml` checks everything.

## How it is built

| file | what it models |
|---|---|
| `EvidenceModel.dfy`, `EventSemantics.dfy` | the signed event, the abstract cryptography and codecs, and the rules both languages apply to one event |
| `JournalFraming.dfy`, `EvidenceJournal.dfy`, `JournalRecovery.dfy` | newline framing, the journal object, and its crash histories |
| `BridgeReader.dfy`, `TraceSafety.dfy`, `OfficialReader.dfy`, `AtomicHandlers.dfy` | the reader's handlers as interleaved steps, token safety, the reader object, and handlers run without interruption |
| `PageVerifier.dfy`, `JournalPaging.dfy`, `EvidenceChain.dfy` | page verification, paging a growing journal, and the bridge as the verifier's server |
| `ScenarioFragment.dfy`, `ScenarioCollection.dfy`, `ScenarioCompleteness.dfy`, `RestartCompleteness.dfy`, `ControlLoss.dfy`, `ControlOnce.dfy` | the evidence search, the polling loop, what the search finds in a bridge's journal and what a dead process loses, and the at-most-once trigger |
| `SlotSchedule.dfy`, `CampaignSupervisor.dfy`, `GapQuery.dfy`, `QualityGate.dfy` | the slot ledger, the supervisor's due test, the gap query and the gate |
| `SupervisorJournal.dfy`, `SupervisorHistory.dfy` | the supervisor's chained journals, recovery and histories |
| `AlertOutbox.dfy`, `SnapshotBuffer.dfy`, `ContractCatalog.dfy` | delivery attempts, point-in-time buffers, contract rolls |

What the source updates in place is a class whose methods are proved against
functions of the old state; what those functions guarantee is then proved as
lemmas about all runs.  SHA-256, ECDSA and JSON are the function fields of
`Crypto` and `Codec`, whose `Sound()` lists everything assumed about them: JSON
values round trip, carry no raw line break, a proper prefix of a JSON object is
not one, and signatures of the right key verify.  The hash is nowhere assumed to
be injective: where that matters a theorem says "or there is a collision".

Clocks, random ids, signatures' nonces, network outcomes and thread schedules
are parameters or nondeterministic steps.  Database transactions under advisory
locks are single steps that leave nothing behind when they fail.  Integers are
unbounded; sequence numbers, counters and times stay far below the source's
64-bit ranges.  Rates, delays and multipliers are reals.

## Where the code does not do what it seems to promise

Each of these is proved, with the exact condition under which the promise holds.

- The client refuses an event page of more than 2,000,000 bytes, but asks for
  pages by number of events.  An honest bridge is paged exactly when every page
  asked for stays below that limit (`JournalPaging.CollectJournal`).  A limit of n
  events is safe when n times the largest event, commas and envelope included,
  stays below it (`SmallPagesFit`): for the default of 512 that is some 3,900
  bytes an event.  `start_controlled` always asks for 1,000, so a journal whose
  first thousand events take 2,000 bytes each can never again be resumed or
  triggered (`ControlOnce.StartRefusedForEver`), and a collection that meets such
  a page ends instead of polling again (`ScenarioCollection.CollectControlled`).
  Where the response encodes an event as the file does, the refused pages can be
  read off the file (`JournalPaging.PageBytesOfFile`), and limits of up to 30
  events are always safe (`EvidenceChain.ThirtyRecordsFit`).
- A direct caller of `Append` can store events that the next load of the same
  journal refuses: an all-zero request id, or an explicit campaign when none is
  configured (`EvidenceJournal.AppendedButNotReloadable`); no caller inside the
  bridge passes either.  An event reloads exactly when it is neither
  (`AppendedIsReloadable`), and a journal exactly when all its events do
  (`JournalRecovery.CrashRecovery`).
- A reconnect control applied between two sessions can never be found in the
  journal if the loop then connects at once, because no disconnect follows it.
  It is found exactly when there was a session to abort or one failed meanwhile
  (`ScenarioCompleteness.ReconnectEvidenceExact`; a run that loses it is
  `ReconnectLostExample`).
- A controlled restart is found exactly when the process announced its end after
  the control and the very next process became ready
  (`RestartCompleteness.RestartEvidenceExact`; the ordinary run, whose live session
  is cancelled and only clears its caches, is `OrdinaryRestartFound`).  If that
  process dies before, it is lost however well the third one does
  (`RestartLostExample`); if the first was killed or already stopping, it is lost
  unless the same request is made again (`ControlLoss.RestartLostWithoutStop`).
- Any control that is applied and still pending when its process ends has no
  evidence in any later journal unless the same request is made again
  (`ControlLoss.PendingControlLost`): pending controls live in memory only.
- `load_progress` raises for a scope whose latest row is `missed`, because such a
  row has no finish time.  That happens exactly when the last slot of the schedule
  was missed, and then for ever, so `_tick`
  (src/crypto_agent/campaign_supervisor.py:782-791) never reaches finalization
  (`CampaignSupervisor.ProgressReadable`, `ProgressUnreadableExample`).
- docs/CAMPAIGN_SUPERVISOR_RUNBOOK.md:103-104 says that an incomplete last record
  is discarded and the committed prefix stays valid.  The code turns a torn first
  record into a complete line and rejects it for ever
  (`SupervisorJournal.RecoveryExact`, `TornFirstRecordStays`).  The recovery also
  empties the file before it writes the prefix back: committed lines survive
  exactly if every crash inside such a rewrite comes after their bytes
  (`SupervisorHistory.CommittedLinesSurvive`), and a run that loses its only line,
  or the whole journal, is `RewriteCrashLoses`.  The bridge's journal truncates in
  place and drops a torn first record (`JournalRecovery.TornFirstRecordIsDropped`).
- An accepted catalogue reports only rolls that the verifier admits exactly when
  every successor names a market other than its predecessor's
  (`ContractCatalog.CatalogueFeedsReader`).  One that mixes legacy and officially
  addressable contracts can fail this (`MixedCatalogueCanRepeatMarket`), one that is
  officially addressable throughout cannot (`AddressableNeighboursDiffer`), and
  t4-bridge/BridgeOptions.cs:308-312 starts an official session with no other, so
  the failing catalogue never reaches the official reader.
- In `run_cycle`, the branch that returns missed slots because the next slot has
  not begun (src/crypto_agent/observation.py:1081-1092) cannot be reached; the
  model asserts this where the source branches.
- An event hash does not cover the ECDSA signature.  Equal heads pin two accepted
  journals in every field but the signatures, and the journals are identical
  exactly when their signatures are (`PageVerifier.HeadDeterminesHistory`).  Any
  event can be given another valid signature without changing acceptance or head
  (`SignaturesAreFree`), so two nonces give two journals with one head
  (`OneHeadTwoJournals`).

## Model

| member | source | states |
|---|---|---|
| `JournalFraming.LinesOfFrames` | t4-bridge/ObservationEvidence.cs:619-622 | cutting a file of newline-framed records into lines gives back exactly those records |
| `JournalFraming.LinesOfCarriageReturns` | t4-bridge/ObservationEvidence.cs:619-622 | CR LF and a lone CR end one line as well |
| `JournalFraming.CommittedOfTorn` | t4-bridge/ObservationEvidence.cs:591-605 | whatever is torn behind the last newline, the committed length ends where the complete records end |
| `EvidenceJournal.ObservationEventJournal.constructor` | t4-bridge/ObservationEvidence.cs:261-273 | a new journal object starts empty, unlinked, on the given file |
| `EvidenceJournal.ObservationEventJournal.DropTornTail` | t4-bridge/ObservationEvidence.cs:586-617 | truncates the file to its last newline unless file or tail is too large, and reports which |
| `EvidenceJournal.TailCheckMeans` | t4-bridge/ObservationEvidence.cs:586-617 | a file is too large above 64 MiB, its tail invalid exactly if its last 65,537 bytes hold no newline; otherwise exactly what is behind the last newline goes |
| `EvidenceJournal.ObservationEventJournal.Load` | t4-bridge/ObservationEvidence.cs:572-653 | the load loop accepts exactly the chains whose every line continues the previous one, and leaves events, number and head of that chain |
| `EvidenceJournal.ObservationEventJournal.Start` | t4-bridge/ObservationEvidence.cs:274-294 | loading and then recording the boot: the file gains exactly the start event's frame behind the committed lines |
| `EvidenceJournal.ObservationEventJournal.Append` | t4-bridge/ObservationEvidence.cs:304-414 | the outcome of every guard in order; success adds one linked event to list and file whose body is field by field the call's, whose signed bytes decode to its claims and whose signature verifies; failure changes nothing |
| `EvidenceJournal.ObservationEventJournal.RecordCampaignCheckpoint` | t4-bridge/ObservationEvidence.cs:444-479 | a checkpoint with arbitrarily stale counters is never refused for moving backwards; it records the inherited counters, or leaves everything unchanged |
| `EvidenceJournal.InheritedCounters` | t4-bridge/ObservationEvidence.cs:459-469 | the counters a checkpoint signs are at least the sampled ones and at least those of the head of the same boot |
| `EvidenceJournal.ObservationEventJournal.Read` | t4-bridge/ObservationEvidence.cs:416-442 | serves the first `limit` events after a sequence number, for limits 1 to 1000 only |
| `EvidenceJournal.AppendedIsReloadable` | t4-bridge/ObservationEvidence.cs:326-330 | an appended event passes the next load exactly when it names the configured campaign and no all-zero request id |
| `EvidenceJournal.AppendedButNotReloadable` | t4-bridge/ObservationEvidence.cs:655-667 | an all-zero request id, or a campaign where none is configured, is appended and refused by the next load |
| `EvidenceJournal.LoadedPromises` | t4-bridge/ObservationEvidence.cs:655-741 | whatever the file held, every event a load yields has its place in the chain, a valid signature over its own claims, the configured campaign and environment, and counters that do not fall within its boot |
| `EvidenceJournal.LoadedTexts` | t4-bridge/ObservationEvidence.cs:655-741 | no text in it is too long for its field, untrimmed or unprintable |
| `EvidenceModel.SafeTextIsTrimmed` | t4-bridge/FuturesContracts.cs:201-204 | identifiers are accepted exactly if they are not empty, not too long, printable and unchanged by trimming |
| `EvidenceModel.SafeCodeIsText` | t4-bridge/ObservationEvidence.cs:777-784 | a code is such a text of at most 64 characters without a space |
| `EvidenceJournal.CheckedLinesAreAccepted` | t4-bridge/ObservationEvidence.cs:619-650 | whatever lines a file holds, a load that succeeds yields a chain in which every event continues and verifies |
| `EvidenceJournal.CheckedLinesAreDecoded` | t4-bridge/ObservationEvidence.cs:622-646 | it yields exactly one event per line, the line's own |
| `JournalRecovery.RecoveryExact` | t4-bridge/ObservationEvidence.cs:586-653 | in any state a history can leave, the tail check never fires and a load returns exactly the committed events, or refuses exactly if one of them is not reloadable |
| `JournalRecovery.CrashRecovery` | t4-bridge/ObservationEvidence.cs:572-653 | over every history of boots, appends, kills and writes cut after any byte, a boot's own first write included, a restart keeps exactly the newline-committed records |
| `JournalRecovery.TornFirstRecordIsDropped` | t4-bridge/ObservationEvidence.cs:586-617 | a first record cut inside leaves a journal that loads as empty |
| `JournalRecovery.RestartContinues` | t4-bridge/ObservationEvidence.cs:281-286 | the event a restart writes continues sequence number and hash link of the committed chain |
| `JournalRecovery.CommittedOnlyGrows` | t4-bridge/ObservationEvidence.cs:743-765 | no later step removes or changes a committed event |
| `JournalRecovery.AppendsWhatLoads` | t4-bridge/ObservationEvidence.cs:304-414 | on a journal that loads, a call for the configured campaign is appended exactly if the file with its record would load again: append and load share every limit and check |
| `JournalRecovery.StepsMean` | t4-bridge/ObservationEvidence.cs:743-765 | each step of a history, told by the bytes in the file and the process that is up |
| `JournalRecovery.FreshBootsAreContiguous` | t4-bridge/ObservationEvidence.cs:266-266 | with fresh boot ids the events of each boot form one block of the journal |
| `JournalRecovery.BootCountersNeverFall` | t4-bridge/ObservationEvidence.cs:338-345 | across crashes and restarts, of any two events of one boot the later has counters at least as large |
| `BridgeReader.StepOk` | t4-bridge/OfficialT4MarketDataReader.cs:267-374 | every step of any thread keeps the reader's state well formed and appends at most one event, which the verifier admits |
| `BridgeReader.ReachableTraceOk` | src/crypto_agent/observation_scenarios.py:1536-1645 | every journal of any interleaving over any number of boots meets the verifier's event semantics and the counter rule, event by event |
| `TraceSafety.EveryPrefixOrdered` | t4-bridge/OfficialT4MarketDataReader.cs:287-373 | on every prefix of every run's journal and for every control: consumed <= applied <= requested, per request id and scope |
| `TraceSafety.PendingIsExclusive` | t4-bridge/OfficialT4MarketDataReader.cs:289-294 | at most one of fault, reconnect and restart is pending, and a fault leaves only towards a read of its own scope or a restart |
| `TraceSafety.MarksExactly` | src/crypto_agent/observation_scenarios.py:1779-1786 | an event with an action counts for one control and one step, and no other |
| `TraceSafety.CountIsCardinality` | src/crypto_agent/observation_scenarios.py:1779-1786 | the counts of the safety theorem are numbers of such events |
| `TraceSafety.AbortedUntilEnd` | t4-bridge/OfficialT4MarketDataReader.cs:305-325 | once a control aborted its session, nothing connects, authenticates or fills a cache until the session was cleaned up, under every interleaving |
| `TraceSafety.ExitAfterStop` | t4-bridge/OfficialT4MarketDataReader.cs:376-380 | in every run, a session loop that has ended belongs to a process whose stop stands in the journal |
| `OfficialReader.OfficialT4MarketDataReader.constructor` | t4-bridge/ObservationEvidence.cs:282-286 | a process starts idle on the journal it finds and records its start |
| `OfficialReader.OfficialT4MarketDataReader.TakeEffect` | t4-bridge/OfficialT4MarketDataReader.cs:305-362 | per action: pending token, caches, readiness, socket and the cache event change together |
| `OfficialReader.OfficialT4MarketDataReader.ApplyControl` | t4-bridge/OfficialT4MarketDataReader.cs:267-374 | refused without a trace, exactly when disabled, outside the campaign, unknown or while another is pending; otherwise its three steps of the state machine |
| `OfficialReader.OfficialT4MarketDataReader.ConsumeScenarioFault` | t4-bridge/OfficialT4MarketDataReader.cs:1295-1329 | only a read of the fault's scope takes it, once, and records its consumption |
| `OfficialReader.OfficialT4MarketDataReader.RecordReadyTransition` | t4-bridge/OfficialT4MarketDataReader.cs:1228-1259 | a session that was ready records nothing; otherwise ready is recorded with the pending reconnect, which is cleared |
| `OfficialReader.OfficialT4MarketDataReader.RecordStoppingEvent` | t4-bridge/OfficialT4MarketDataReader.cs:1383-1407 | the stop is recorded once per process, with the pending restart if any |
| `OfficialReader.OfficialT4MarketDataReader.BeginSession` | t4-bridge/OfficialT4MarketDataReader.cs:429-443 | a session begins with the next generation and a connecting event |
| `OfficialReader.OfficialT4MarketDataReader.EndSession` | t4-bridge/OfficialT4MarketDataReader.cs:396-423 | a failing session records disconnect and cache clearing under its old counters, then counts a reconnect |
| `OfficialReader.OfficialT4MarketDataReader.ExitSession` | t4-bridge/OfficialT4MarketDataReader.cs:392-418 | a cancelled session records one cache clearing, no disconnect and no reconnect, and ends the loop |
| `OfficialReader.OfficialT4MarketDataReader.RecordDataFailure` | t4-bridge/OfficialT4MarketDataReader.cs:1331-1351 | a data failure ends readiness and is recorded once per generation, kind and scope |
| `OfficialReader.OfficialT4MarketDataReader.RecordRollEvidence` | t4-bridge/OfficialT4MarketDataReader.cs:1353-1373 | a market change is recorded once per product and pair of markets |
| `OfficialReader.ApplySteps` | t4-bridge/OfficialT4MarketDataReader.cs:295-372 | a control run without interruption leaves request, effect and receipt, in this order, and exactly one pending token |
| `OfficialReader.ApplyLeaves` | t4-bridge/OfficialT4MarketDataReader.cs:295-372 | every field of session, pending tokens and journal after a control that is let through |
| `OfficialReader.OfficialT4MarketDataReader.RefuseControl` | t4-bridge/OfficialT4MarketDataReader.cs:267-294 | lets a control through exactly if it is one of the five, enabled, of the configured campaign, with real ids and a scope of 240, 1440 or 10080 minutes, while nothing is pending |
| `OfficialReader.OfficialT4MarketDataReader.RecordAuthenticated` | t4-bridge/OfficialT4MarketDataReader.cs:450-455 | a login that succeeded is recorded under the session's counters |
| `OfficialReader.OfficialT4MarketDataReader.FinishSubscribing` | t4-bridge/OfficialT4MarketDataReader.cs:456-458 | the session is connected and not ready |
| `OfficialReader.OfficialT4MarketDataReader.RecordHistoryRateLimit` | t4-bridge/OfficialT4MarketDataReader.cs:696-710 | a rate-limited history request clears the caches, ends readiness and is recorded with its scope |
| `OfficialReader.OfficialT4MarketDataReader.SetUnavailable` | t4-bridge/OfficialT4MarketDataReader.cs:1279-1292 | readiness ends without an event |
| `OfficialReader.OfficialT4MarketDataReader.RejectOutbound` | t4-bridge/OfficialT4MarketDataReader.cs:994-1005 | a message that is not market data is recorded |
| `AtomicHandlers.SingleSteps` | t4-bridge/OfficialT4MarketDataReader.cs:429-480 | every step outside the control gate and outside a session's end is a handler of its own |
| `AtomicHandlers.RefreshExactly` | t4-bridge/OfficialT4MarketDataReader.cs:1228-1259 | a refresh records readiness exactly for a connected session with filled caches that was not ready |
| `EventSemantics.AdmittedForms` | src/crypto_agent/observation_scenarios.py:1536-1645 | the semantic checks admit exactly four forms: plain observation, checkpoint, roll, and event of a control with its own action and types |
| `PageVerifier.VerifyPage` | src/crypto_agent/observation_scenarios.py:776-837 | accepts exactly the pages of the pinned key and a real environment, of at most 4,096 events behind a positive cursor, whose events are each valid, consecutive and linked; returns the page's events unchanged |
| `PageVerifier.SplitPass` | src/crypto_agent/observation_scenarios.py:812-828 | one pass over two pages accepts exactly when each passes from the cursor where the other ends |
| `PageVerifier.AcceptedSequences` | src/crypto_agent/observation_scenarios.py:812-828 | every event of an accepted page is valid, of the page's environment, numbered consecutively and linked to its predecessor |
| `PageVerifier.AcceptedIsAuthentic` | src/crypto_agent/observation_scenarios.py:839-897 | if no signature is forged, whatever server answers: an accepted journal is a prefix of the bridge's own in every signed field, or exhibits a SHA-256 collision |
| `PageVerifier.AcceptedPromises` | src/crypto_agent/observation_scenarios.py:839-897 | every accepted event claims a read-only bridge without order routes, of the page's environment, with a payload its hash covers and a body of one of the four admitted forms |
| `PageVerifier.StepsPass` | src/crypto_agent/observation_scenarios.py:812-828 | a journal whose every event continues the ones before it is accepted |
| `PageVerifier.PagewiseIsOnePass` | src/crypto_agent/observation_scenarios.py:812-828 | however a journal is cut into pages, page-by-page verification accepts exactly when one pass does |
| `PageVerifier.HeadDeterminesHistory` | src/crypto_agent/observation_scenarios.py:862-897 | two accepted journals with the same head number and hash agree in every field of every event but the signatures, or exhibit a SHA-256 collision; without one they are identical exactly when the signatures agree |
| `PageVerifier.SignaturesAreFree` | src/crypto_agent/observation_scenarios.py:839-897 | replacing an event's signature by any other valid one keeps the journal accepted and its head the same |
| `PageVerifier.OneHeadTwoJournals` | t4-bridge/ObservationEvidence.cs:379-381 | where two nonces sign an event's hash differently there are two accepted journals with one head |
| `PageVerifier.BridgeJournalPasses` | t4-bridge/ObservationEvidence.cs:655-741 | every journal the bridge would load again, with conforming bodies, passes the Python verifier |
| `JournalPaging.HonestPagePasses` | t4-bridge/ObservationEvidence.cs:427-441 | a page cut anywhere out of an accepted journal passes from the cursor before it |
| `JournalPaging.FetchPage` | src/crypto_agent/observation_scenarios.py:1137-1148 | one call keeps the stored chain verified; an honest bridge's page is refused exactly when its body exceeds 2,000,000 bytes, and a short one completes the journal |
| `JournalPaging.CollectJournal` | src/crypto_agent/observation_scenarios.py:1119-1164 | only a verified chain of this campaign is stored; with an honest bridge that keeps growing it is never hit for any limit 1..1000, and the result is the journal at the last call exactly when every page asked for was small enough, with the checkpoint found if it was there |
| `JournalPaging.MaximumPagesMean` | src/crypto_agent/observation_scenarios.py:1119-1136 | the loop makes room for 100,000 events and one page beyond the one that is not full: 102 calls for pages of 1,000 |
| `JournalPaging.CheckpointFound` | src/crypto_agent/observation_scenarios.py:1757-1772 | in an accepted journal a receipt is found exactly if the event at its number has its hash and is a checkpoint of its campaign and request |
| `JournalPaging.OwnCheckpointFound` | t4-bridge/Program.cs:139-152 | the receipt returned for a recorded checkpoint matches that event of every later journal and no other |
| `JournalPaging.SmallPagesFit` | src/crypto_agent/observation_scenarios.py:1090-1104 | a limit that keeps limit times the largest event below the response limit is never refused |
| `JournalPaging.ThousandEventsRefused` | src/crypto_agent/observation_scenarios.py:1100-1104 | a page of 1,000 events of at least 2,000 bytes is refused |
| `JournalPaging.RefusalIsForEver` | src/crypto_agent/observation_scenarios.py:1100-1104 | a request refused for its size is refused for every longer journal |
| `JournalPaging.PageBytesOfFile` | t4-bridge/ObservationEvidence.cs:743-765 | a page's bytes are those its events take in the journal file, plus the envelope |
| `EvidenceChain.ThirtyRecordsFit` | t4-bridge/ObservationEvidence.cs:745-749 | no page of at most 30 records of the bridge is refused for its size |
| `EvidenceChain.SealedTraceAccepted` | t4-bridge/ObservationEvidence.cs:619-653 | the signed form of a well-formed trace is accepted by the bridge's own next load |
| `EvidenceChain.ReachableJournalVerifies` | src/crypto_agent/observation_scenarios.py:839-897 | the journal of every run of a live bridge passes the verifier in one pass |
| `EvidenceChain.BridgeIsHonest` | src/crypto_agent/evidence_verifier.py:625-683 | a live bridge that runs on while it is paged is a server whose pages are all accepted but for their size |
| `EvidenceChain.CheckpointIsRecorded` | t4-bridge/ObservationEvidence.cs:444-479 | the state machine's checkpoint is the body the journal records, with the counters inherited from its head |
| `ScenarioFragment.FirstMeans` | src/crypto_agent/observation_scenarios.py:1787-1797 | the index search returns the first matching event, and none only if there is none |
| `ScenarioFragment.FragmentIsEvidence` | src/crypto_agent/observation_scenarios.py:1775-1916 | a fragment runs from the run's own request over its own receipt to the event that proves the scenario, with the session or boot events the scenario demands in between |
| `ScenarioFragment.FragmentIsOwn` | src/crypto_agent/observation_scenarios.py:1775-1916 | request, receipt, stop and last event of a fragment carry the run's own campaign, scenario, request, scope and action, the receipt its number and hash; after a restart the last event is another boot's |
| `ScenarioFragment.FragmentShows` | src/crypto_agent/observation_scenarios.py:1818-1897 | a reconnect shows its own cleared cache before the receipt, then disconnect, clearing, connecting and authenticating; a restart shows start, connecting and authenticating of the boot that became ready |
| `ScenarioFragment.FragmentStable` | src/crypto_agent/observation_scenarios.py:1775-1916 | once the search succeeds, events appended later never change the fragment |
| `ScenarioFragment.Deduplicate` | src/crypto_agent/observation_scenarios.py:1348-1355 | the submitted references are the same set without repetition |
| `ScenarioFragment.SubmissionStable` | src/crypto_agent/observation_scenarios.py:1343-1371 | a longer journal yields the same submitted references |
| `ScenarioFragment.SubmissionIsEvidence` | src/crypto_agent/observation_scenarios.py:1343-1371 | a submission names the receipt first, then exactly the events from the request to the proving one, in journal order and none twice |
| `ScenarioCollection.AcceptedHashesDiffer` | src/crypto_agent/observation_scenarios.py:1314-1316 | in an accepted journal two events share a hash only through a collision, so the hash-keyed buffer loses nothing |
| `ScenarioCollection.PutMeans` | src/crypto_agent/observation_scenarios.py:1314-1316 | a new hash goes last in the buffer, a known one keeps its place and takes the new event |
| `ScenarioCollection.SortedIsFixed` | src/crypto_agent/observation_scenarios.py:1337-1342 | sorting a journal prefix by sequence number leaves it unchanged |
| `ScenarioCollection.Poll` | src/crypto_agent/observation_scenarios.py:1319-1342 | a poll of an honest bridge grows the buffer to a longer journal prefix, already in sequence order, or is refused because the page is too large |
| `ScenarioCollection.CollectControlled` | src/crypto_agent/observation_scenarios.py:1297-1386 | whatever the timing and chunking of polls, a submission names the receipt and then exactly the events of the fragment of the whole journal, in order; a timeout after reading far enough proves the fragment was absent; the only other failure is a poll whose page was too large |
| `ScenarioCompleteness.SealedCarries` | t4-bridge/ObservationEvidence.cs:346-382 | the signed journal carries the handlers' bodies, numbered from 1 |
| `ScenarioCompleteness.FaultEvidenceExact` | src/crypto_agent/observation_scenarios.py:1898-1916 | an applied data fault is found, in every later journal, exactly from the first read of its scope on |
| `ScenarioCompleteness.ReconnectEvidenceExact` | src/crypto_agent/observation_scenarios.py:1818-1846 | an applied reconnect that reached readiness is found, for ever, exactly if there was a session to abort or one failed meanwhile |
| `ScenarioCompleteness.ReconnectLostExample` | src/crypto_agent/observation_scenarios.py:1818-1846 | a reconnect applied to a process whose first session then comes up is never found |
| `RestartCompleteness.RestartReduces` | src/crypto_agent/observation_scenarios.py:1847-1897 | after an applied restart and an orderly stop, finding it depends only on the first readiness of the next boot |
| `RestartCompleteness.RestartEvidenceExact` | src/crypto_agent/observation_scenarios.py:1847-1897 | an applied restart is found, in this and every longer journal, exactly when the process stopped in an orderly way and the next boot became ready; without such a stop only a later stop under the same request could be found |
| `RestartCompleteness.OrdinaryStop` | t4-bridge/OfficialT4MarketDataReader.cs:376-418 | stopping a live session adds the stop with its restart, one cleared cache and the next start to the journal |
| `RestartCompleteness.OrdinaryRestartFound` | src/crypto_agent/observation_scenarios.py:1847-1897 | the ordinary restart of a live session is found once the next process has come up |
| `RestartCompleteness.RestartLostExample` | src/crypto_agent/observation_scenarios.py:1873-1884 | the next boot dies before it is ready, a third becomes ready, and nothing is ever found |
| `TraceSafety.NoneConsumedAfterReboot` | t4-bridge/OfficialT4MarketDataReader.cs:287-373 | over every interleaving of every later boot, a control not consumed before its process ended is never consumed unless asked for again |
| `ControlLoss.PendingControlLost` | src/crypto_agent/observation_scenarios.py:1775-1916 | a control of any kind that was pending when its process ended is proved by no later journal without a second request |
| `ControlLoss.RestartLostWithoutStop` | src/crypto_agent/observation_scenarios.py:1847-1872 | so is a restart whose process was killed before it announced its end, or was already stopping |
| `ControlOnce.AtMostOneReceipt` | src/crypto_agent/observation_scenarios.py:1208-1277 | over every order of journal fetch, decision on what was fetched, trigger, lost message and bridge restart, a request has at most one receipt, so a collision is never reported |
| `ControlOnce.NoPreflightNoTrigger` | src/crypto_agent/observation_scenarios.py:1237-1245 | a run in which no preflight passes leaves no receipt of anything |
| `ControlOnce.CallDecides` | src/crypto_agent/observation_scenarios.py:1213-1245 | a call goes on to trigger exactly if it found no receipt and the preflight passed |
| `ControlOnce.TriggerLeavesReceipt` | src/crypto_agent/observation_scenarios.py:1246-1277 | a trigger that arrives at a free bridge leaves exactly one receipt more, a lost one none |
| `ControlOnce.ReceiptsAreEvents` | src/crypto_agent/observation_scenarios.py:1217-1236 | receipts are counted field by field: type, action, step, scenario, campaign, request and scope |
| `ControlOnce.ControlReceiptFromJournal` | src/crypto_agent/evidence_verifier.py:584-623 | missing, found or reused exactly for none, one or more receipts |
| `ControlOnce.StartControlled` | src/crypto_agent/observation_scenarios.py:1187-1245 | exactly one receipt in the journal: resume from that event; none: trigger, or ask for the preflight, as it passed or not; more: reused; the journal is the whole one at the last call, and there is none exactly when a page of 1,000 events was too large |
| `ControlOnce.SignedReceipts` | src/crypto_agent/observation_scenarios.py:1226-1236 | the fetched, signed journal holds exactly the receipts of the bridge's trace |
| `ControlOnce.StartRefusedForEver` | src/crypto_agent/observation_scenarios.py:1212-1212 | once its first thousand events take 2,000 bytes each, the first page of `start_controlled` is refused in every longer journal |
| `SlotSchedule.LoopStops` | src/crypto_agent/observation.py:1043-1079 | the closed form min(K+1, max(n, ceil((T-S)/I)-1)) is where the loop stops: all slots before it are inside the campaign and expired, it itself is outside or still open |
| `SlotSchedule.SkipExpired` | src/crypto_agent/observation.py:1037-1079 | the loop ends at the closed form, having appended one missed row per slot before it |
| `SlotSchedule.CallKeepsLedger` | src/crypto_agent/observation.py:1037-1183 | every call keeps the ledger contiguous, hash-linked and on schedule, with missed slots expired and attempts started inside their slot |
| `SlotSchedule.RunsKeepLedger` | src/crypto_agent/observation.py:949-1190 | the same over all runs; recorded rows are never lost or changed |
| `SlotSchedule.NoExpiredSlotIsLeft` | src/crypto_agent/observation.py:1043-1095 | a recorded call leaves no expired slot unrecorded, records none before it began, and every expired one it records as missed |
| `SlotSchedule.OpenSlotIsRecorded` | src/crypto_agent/observation.py:1096-1183 | with a slot open the call succeeds exactly before the report, with a clock that did not go back and valid links of a success; it records every earlier slot as missed and then what the execution did, a failure with its code |
| `SlotSchedule.NoSlotIsAttempted` | src/crypto_agent/observation.py:1043-1095 | schedule complete exactly if the next slot lies outside the campaign, not due exactly if it has not begun, only missed rows once the last slot is over |
| `SlotSchedule.TakenIffGuarded` | db/migrations/0017_t4_observation_campaign.sql:808-917 | the call takes an attempt exactly when the database trigger accepts its row |
| `SlotSchedule.GuardExact` | db/migrations/0017_t4_observation_campaign.sql:808-917 | the database trigger and row checks accept exactly the rows that may follow in such a ledger, an attempt only within its transaction and five minutes, a success only with valid links, nothing after the report |
| `SlotSchedule.InsertsPassGuard` | db/migrations/0017_t4_observation_campaign.sql:808-917 | no row a call inserts trips the trigger |
| `SlotSchedule.CycleLedger.constructor` | src/crypto_agent/observation.py:1018-1036 | an empty ledger on a frozen schedule |
| `SlotSchedule.CycleLedger.RunCycle` | src/crypto_agent/observation.py:949-1190 | the imperative loop and its branches record what the call's specification says and report its counts; for an open slot it succeeds exactly before the report, with a clock that did not go back and valid links, and its row carries start, finish, evidence or code of the execution |
| `CampaignSupervisor.LoadedDue` | src/crypto_agent/campaign_supervisor.py:57-65 | loaded progress is the ledger's position: number, next slot and last finish time; due on it means that the slot after the last row has begun inside the campaign and no report exists |
| `CampaignSupervisor.DueIffRecords` | src/crypto_agent/campaign_supervisor.py:57-65 | a scope is due exactly when `run_cycle` at that time has rows to record |
| `CampaignSupervisor.DueAfterCall` | src/crypto_agent/observation.py:1043-1095 | after a recorded call it is due again at the same instant exactly if that instant is the end of the slot just executed and another slot follows |
| `CampaignSupervisor.ProgressReadable` | src/crypto_agent/campaign_supervisor.py:514-540 | progress is unreadable exactly when the last slot of the schedule was recorded as missed, and then stays so |
| `CampaignSupervisor.ProgressUnreadableExample` | src/crypto_agent/campaign_supervisor.py:528-532 | a one-slot campaign called too late reaches that state |
| `GapQuery.GroupIsBlock` | src/crypto_agent/observation.py:649-657 | the rows of one running-sum group are one block of consecutive slots |
| `GapQuery.GroupingIsLongestRun` | src/crypto_agent/observation.py:649-657 | the largest group is exactly the longest run of unexplained slots |
| `QualityGate.JoinExact` | src/crypto_agent/observation.py:623-648 | joining slots and rows on the expected time gives row i for slot i, or nothing beyond the ledger |
| `QualityGate.SlotCountMeans` | src/crypto_agent/observation.py:623-634 | the series holds exactly the slots expected by the cutoff |
| `QualityGate.RowsAreCounted` | src/crypto_agent/observation.py:797-802 | the counts of a scope are its numbers of attempted, succeeded and missed rows among the slots up to the cutoff |
| `QualityGate.GapIsLongestPause` | src/crypto_agent/observation.py:649-657 | the gap of a scope is its longest stretch of consecutive slots without an attempt |
| `QualityGate.SlotsAreConserved` | src/crypto_agent/observation.py:797-828 | attempted + missed + absent = expected = scopes times slots |
| `QualityGate.CountsAreCardinalities` | src/crypto_agent/observation.py:797-802 | the filtered counts are the numbers of slots that were attempted, succeeded, were missed or are absent |
| `QualityGate.CoverageIsExact` | src/crypto_agent/observation.py:814-816 | the coverage count is the number of scopes with a success |
| `QualityGate.GapIsReached` | src/crypto_agent/observation.py:817-821 | the reported gap is the gap of some scope |
| `QualityGate.ReportedGapExact` | src/crypto_agent/observation.py:817-821 | the reported gap is the longest such stretch of any scope |
| `QualityGate.GateExact` | src/crypto_agent/observation.py:289-400 | the gate passes exactly when all acceptance conditions hold, stated as cross-multiplied inequalities |
| `QualityGate.VerdictExact` | src/crypto_agent/observation.py:379-388 | failed exactly on observed evidence against the campaign, as cross-multiplied inequalities; passed exactly on acceptable evidence; otherwise not observed |
| `QualityGate.PassMeansAttempts` | src/crypto_agent/observation.py:308-350 | a passed gate implies that in every scope any floor(multiplier)+1 consecutive slots up to the cutoff contain an attempted cycle |
| `SupervisorJournal.SupervisorStateStore.DropTornTail` | src/crypto_agent/campaign_supervisor.py:661-668 | the rewrite keeps everything before the last newline, or adds a newline when there is none |
| `SupervisorJournal.SupervisorStateStore.Recover` | src/crypto_agent/campaign_supervisor.py:656-715 | recovery accepts exactly the files whose every line names kind and campaign, carries the hash of its own fields and points to the line before it; it returns the last line's hash and the last snapshot date |
| `SupervisorJournal.SupervisorStateStore.Append` | src/crypto_agent/campaign_supervisor.py:630-650 | one line is added that decodes to a record of this entry pointing to the old head, under the hash of its own fields, which becomes the head |
| `SupervisorJournal.ChainedIsLinked` | src/crypto_agent/campaign_supervisor.py:1094-1105 | the chains of the history theorems are exactly the sequences whose first record points nowhere and every other one to its predecessor's hash |
| `SupervisorJournal.RecoveryExact` | src/crypto_agent/campaign_supervisor.py:660-679 | with a committed line, or nothing torn, the tail goes and the chain stands; a torn first record is rejected unless only its newline is missing |
| `SupervisorJournal.TornFirstRecordStays` | src/crypto_agent/campaign_supervisor.py:661-668 | a first record torn before its end is rejected by every later start |
| `SupervisorHistory.SupervisorRecovery` | src/crypto_agent/campaign_supervisor.py:656-715 | over every history of starts, appends, kills and crashes inside an append or a start's rewrite: while the file holds a whole line, the next start recovers exactly the chain of its whole lines |
| `SupervisorHistory.StartsMean` | src/crypto_agent/campaign_supervisor.py:656-715 | a start, a start that dies inside its rewrite and a kill, told by the bytes in the file and whether the service is up |
| `SupervisorHistory.AppendsMean` | src/crypto_agent/campaign_supervisor.py:630-650 | an append, whole or torn: one line for this entry behind the head, a snapshot once per date |
| `SupervisorHistory.RewriteCrashExact` | src/crypto_agent/campaign_supervisor.py:664-668 | a crash `kept` bytes into the rewrite keeps the first m lines exactly if it came after their bytes |
| `SupervisorHistory.CommittedLinesSurvive` | src/crypto_agent/campaign_supervisor.py:656-668 | committed lines stand for the rest of a history exactly if every rewrite crash came after their bytes |
| `SupervisorHistory.RewriteCrashLoses` | src/crypto_agent/campaign_supervisor.py:664-668 | a run of five steps in which the only committed line is lost, and, unless the crash came before the first byte, the journal is refused for ever |
| `SupervisorHistory.SnapshotDatesIncrease` | src/crypto_agent/campaign_supervisor.py:816-827 | with a database clock that never goes back, the daily snapshots that stand in the file carry strictly increasing dates, across crashes and restarts |
| `AlertOutbox.RetryDelaysNeverDecrease` | src/crypto_agent/monitoring.py:1834-1846 | whatever the jitter digests, delays never decrease and stay within the maximum |
| `AlertOutbox.RetryDelayExact` | src/crypto_agent/monitoring.py:1834-1846 | the delay starts at the base, doubles up to the maximum, and gets up to a quarter or five seconds of jitter |
| `AlertOutbox.SelectDueDelivery` | src/crypto_agent/monitoring.py:1197-1222 | the first due delivery by availability, then id, or none exactly if none is due |
| `AlertOutbox.DueExactly` | src/crypto_agent/monitoring.py:1205-1218 | a new delivery is due exactly from its start, a failed one from the retry time of its last attempt, an ended one never |
| `AlertOutbox.NextMayAppend` | src/crypto_agent/monitoring.py:393-471 | any attempt of a call, with any write outcome, may follow the stored ones |
| `AlertOutbox.AppendKeepsOk` | src/crypto_agent/monitoring.py:1224-1268 | attempts stay contiguous, hash-linked, bounded and end at a terminal one |
| `AlertOutbox.KeptAsAppended` | src/crypto_agent/monitoring.py:1224-1268 | what is kept of each stored attempt is exactly what was asked of it when it was appended |
| `AlertOutbox.ExpiryIsTerminal` | src/crypto_agent/monitoring.py:394-404 | a call at or after expiry makes a selected delivery terminal |
| `AlertOutbox.StoredRowsRevalidate` | src/crypto_agent/monitoring.py:1431-1483 | every stored row passes the checks of the next read, as a due one whenever it is selected |
| `AlertOutbox.GuardExact` | db/migrations/0016_operational_alert_outbox.sql:129-232 | the database trigger and row checks accept exactly these attempts, and also an expiry without an error code |
| `AlertOutbox.MonitoringRepository.DeliverOne` | src/crypto_agent/monitoring.py:372-475 | at most the selected row changes, by exactly one attempt that the database accepts: delivered exactly if the write succeeded in time, failed exactly if it did not, late exactly if it came back after expiry, retried exactly while attempts, time and expiry leave room; idle exactly with nothing due or 0.05 s before expiry |
| `AlertOutbox.AttemptsCountVisits` | src/crypto_agent/monitoring.py:372-475 | there are exactly as many attempts as visits that found the delivery due, outside the 0.05 s before expiry, with a clock that did not go back |
| `AlertOutbox.DeliveredExactly` | src/crypto_agent/monitoring.py:423-470 | over every run an alert counts as delivered exactly if one of its visits wrote it in time |
| `AlertOutbox.DeliveriesEnd` | src/crypto_agent/monitoring.py:393-471 | whatever the writes do, a delivery has ended after that many such visits as attempts are allowed, and after any visit from its expiry on |
| `AlertOutbox.EndedStays` | src/crypto_agent/monitoring.py:1205-1218 | no later visit changes a delivery that has ended |
| `AlertOutbox.RunsStayBounded` | src/crypto_agent/monitoring.py:1205-1218 | over every run at most the configured attempts, none after a terminal one, none changed |
| `SnapshotBuffer.SortByIngestion` | t4-bridge/OfficialT4MarketDataReader.cs:1553-1553 | some sorted permutation of the items |
| `SnapshotBuffer.TrimKeepsNewest` | t4-bridge/OfficialT4MarketDataReader.cs:1552-1557 | after sorting and trimming nothing evicted is newer than anything kept |
| `SnapshotBuffer.PointInTimeBuffer.Add` | t4-bridge/OfficialT4MarketDataReader.cs:1548-1559 | an addition keeps that invariant over everything ever added |
| `SnapshotBuffer.PointInTimeBuffer.Before` | t4-bridge/OfficialT4MarketDataReader.cs:1561-1567 | what is returned is the newest item not after the time among everything ever added; nothing is returned only if no retained item qualifies |
| `ContractCatalog.Create` | t4-bridge/FuturesContracts.cs:49-108 | accepts exactly the catalogues with valid contracts, distinct identities and expiries, stable products and rising rolls |
| `ContractCatalog.AcceptedIsConsistent` | t4-bridge/FuturesContracts.cs:49-108 | accepted exactly if all contracts are valid, no two share a market or an expiry of one symbol, later expiries roll later and a fully addressable symbol keeps one product: no grouping or sorting is left in the statement |
| `ContractCatalog.ContractPromises` | t4-bridge/FuturesContracts.cs:158-196 | an accepted contract rolls between an hour and thirty days before it expires, has trimmed identifiers and is not its own basis |
| `ContractCatalog.Resolve` | t4-bridge/FuturesContracts.cs:110-155 | of the symbol's contracts that have not rolled the first to expire, with the market of the last one that rolled exactly within 24 hours of its roll; none exactly if all have rolled |
| `ContractCatalog.FrontIsMonotone` | t4-bridge/FuturesContracts.cs:125-134 | the front contract is unique and never moves back |
| `ContractCatalog.OrderDoesNotMatter` | t4-bridge/FuturesContracts.cs:78-85 | the series does not depend on the order of the input |
| `ContractCatalog.CatalogueFeedsReader` | t4-bridge/FuturesContracts.cs:87-98 | an accepted catalogue only reports market changes that the verifier admits, exactly when every successor names a market other than its predecessor's |
| `ContractCatalog.AddressableNeighboursDiffer` | t4-bridge/FuturesContracts.cs:57-98 | in an officially addressable catalogue they always do |
| `ContractCatalog.ResolutionReportsRolls` | t4-bridge/FuturesContracts.cs:143-154 | every change a resolution reports is one of those |
| `ContractCatalog.MixedCatalogueCanRepeatMarket` | t4-bridge/FuturesContracts.cs:148-152 | a mixed catalogue can report a roll from a market to itself |

## Left out

- WebSocket, HTTP, FastAPI, subprocess, systemd, CLI and dashboard code: transport and hosting; network outcomes are parameters.
- JSON, base64, DER, SPKI and ECDSA internals, key files and file locks: abstract functions; a valid signature has 64 to 80 bytes, as the bridge's own load demands.
- Event times and their text format, page metadata constants: they do not influence sequence, chain or search.
- The lengths of events and envelope in a response: parameters; the page's JSON is taken to be its envelope, its events and the commas between them.
- In-process recovery after a failed journal write: the failed write leaves its bytes and the next append would follow them; a torn write ends the boot here.
- Reader appends that the journal refuses under races: counters are read before the journal's lock, so each append of the state machine is taken as successful.
- The rate-limit timer and the freshness tests behind readiness: filled and fresh caches are one flag, which any step of the market data can drop without an event.
- ScenarioCompleteness.ReconnectEvidenceExact: handlers are not interrupted; with interleaved threads a health refresh past its connected check can consume a reconnect without one, and the search's event types reject it.
- ControlLoss.PendingControlLost: the handlers of the process that ends are not interrupted either; those of every later one are.
- ScenarioCollection.CollectControlled: time is a number of polls; the recovery callback, the stored submission and the database's own verdict are not modelled.
- ControlOnce.AtMostOneReceipt: a trigger that takes effect after its caller gave up, or another client of the control endpoint, is outside the model.
- SlotSchedule.CycleLedger.RunCycle: batch and research links of a success are one opaque number and the trigger's verdict on them one flag, and the finalization lock is the flag that a report exists.
- AlertOutbox.StoredRowsRevalidate: the key formats, the frozen policy columns and the recomputed payload and envelope hashes of a stored row are not modelled; they do not change after the insert.
- EvidenceJournal.ObservationEventJournal.Append: the file lives in memory and is written in one piece; torn writes are steps of `JournalRecovery`.
- Passive scenarios, replay attestation, trial storage and the SQL functions that re-derive verdicts: stored procedures, not loops or protocols of this code.
- Supervisor service restarts, command retries, status files and missed-cycle messages: bounded loops over external commands and files, whose effects lie outside this repository.
- Alert payload validation, run analysis, order books, regime and risk rules, narrator: field conjunctions or floating point.
- Percentile latency and safety counters are inputs of the gate; the queries behind them are sums over one table.
