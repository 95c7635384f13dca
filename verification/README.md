# Verification of the SIH-NTD streaming core

Dafny models of the stateful parts of the network threat detection pipeline, with proofs about whole runs.

| Area | Files | Source |
|---|---|---|
| Threat fusion: state machine, reference without forgetting, run theorems, overflow | `Fusion`, `FusionHistory`, `FusionProofs`, `FusionRuns`, `FusionFacts`, `FusionIncidents`, `FusionOverflow`, `FusionOrder`, `FusionExpiry` | `sih_ntd/fusion.py` |
| Tables; accounting of results, with evictions, restarts and several workers | `Reports`, `Store`, `Accounting`, `Restarts`, `Crews` | `sih_ntd/fusion.py`, `sih_ntd/store.py` |
| The batch pipeline | `Pipeline` | `sih_ntd/pipeline.py` |
| Consumer group, stream client, worker loop, interleaved protocol | `Stream`, `Client`, `Outcomes`, `Protocol`, `Fleets`, `ClientSteps`, `Redelivery`, `Backlog`, `Clock`, `ClockLimits`, `Drain` | `sih_ntd/streaming.py`, `sih_ntd/pipeline.py` |
| Sliding windows, LRU map, per-entity bundles, routing of events to entities | `Windows`, `Lru`, `LruOrder`, `Features`, `Counters`, `Routing` | `sih_ntd/windows.py`, `sih_ntd/features/engine.py` |
| Baselines | `Baselines` | `sih_ntd/baselines.py` |
| Model registry | `Registry`, `RegistryStack` | `sih_ntd/ml/registry.py` |
| Normalizer memory | `Ingest` | `sih_ntd/ingest.py` |

Each component the source updates in place is a class whose methods are proved against a function on plain
values; the theorems about runs, interleavings and histories are lemmas about those functions. Timestamps,
confidences and measurements are `real`; names and ids are numbers or tuples, so a digest counts as injective.

## How the parts fit

*Fusion.* `FusionHistory` says what the outcome of a result ought to be as a function of everything fused
before it, with nothing pruned, expired or evicted. `FusionRuns.RunIsVerdicts` proves that the machine, which
throws state away at every step, gives exactly those outcomes over every run in time order in which no map
overflows; `FusionRuns.FewNeverFill` gives a condition on the input under which none does, and
`FusionOverflow.ShowsIffRoomy` that a step which evicts something leaves a state that no longer shows the history.
`FusionRuns.RunIsDeserved` restates the run theorem without any state at all. A step is `expire` at the event's
time followed by `ingest` of results carrying that time, as the pipeline does it.

*Accounting.* It does not depend on evictions or on time order. `Reports` proves that every run reports 1, 2, 3
and so on for each chain and that the last counts add up to the accepted results; `Accounting.RunAddsUpIff`,
`Restarts.SessionsAddUpIff` and `Crews.CrewAddsUpIff` say exactly when the counts in the alert table do: for one run,
for a sequence of restarts, and for several workers writing at once, each restarted at will.

*Streams.* `Protocol` interleaves any number of workers at the granularity of the commands they send, with a
crash possible between any two. `Fleets` adds what each worker knows, which a crash loses, and the alert tables all of
them write: `Fleets.NothingIsLost` follows every published entry down to the rows some worker decided for it, and
`Fleets.FleetAddsUpIff` accounts for all rows. `ClientSteps.TurnLeads` proves that the loop as the code runs it is a
path of that protocol, and `ClientSteps.TurnApplies` that the path leaves the fusion state and tables the loop's
contract promises, so the invariants carry over. There is no clock in it: which pending entries are idle for long
enough to be claimed is arbitrary, and a worker may pause for as long as it likes between two commands. `Clock` and
`ClockLimits` add the time of each entry's last delivery.

## Findings

Places where the code does not do what its documentation or a reader would expect; the model follows the code.

- Redelivery limit. The documentation (`docs/ARCHITECTURE.md:135`, `sih_ntd/streaming.py:13-15`) says an entry
  delivered more than `max_deliveries` times is parked. The check (XPENDING) and the claim (XAUTOCLAIM) are two
  commands, so each of W workers can check before the limit is passed and claim after it. While scans meet no
  more than 64 pending entries, the exact bound is `max_deliveries + W`; `max_deliveries + 1` holds iff there is
  one worker (`Redelivery.ExactBound`). Runs whose scans meet at most P pending entries have a delivery limit iff
  P <= 64 (`Backlog.LimitIffScanFits`): with 65 pending, one worker can take the 65th from any number of
  deliveries to one more (`Backlog.AnyNumber`). That unboundedness relies on there being no clock, as any pending
  entry may then be the only idle one. With the idle time in the model, a limit that holds for every backlog exists
  iff there is one worker, and then `max_deliveries + 1` will do (`ClockLimits.LimitIffAlone`). Two workers that scan
  at the same moment see the same 64 poison entries, so parking those lets each of them claim 64 others: a backlog
  keeps half its size for one delivery more (`ClockLimits.Sweep`), and any number of deliveries is reached from a large
  enough one (`ClockLimits.AnyNumber`). A claim is taken to pass over any number of entries that are not yet due; Redis
  looks at no more than ten times the count asked for.
- Correlation window and idle time. Corroboration is independent of pruning iff
  `correlation_window_seconds <= incident_idle_seconds` (`FusionFacts.TransparentIff`). The defaults satisfy it;
  the configuration does not enforce it.
- Ingesting without expiring. The outcome of the next result does not depend on `expire`
  (`FusionExpiry.NextVerdictUnexpired`). But the new alert's entry is put with `touch`, which keeps a stale entry of
  the same key; from then on every result of that key is raised again (`FusionExpiry.StaleIsRaisedAgain`). The maps go
  on knowing the history iff no alert is opened over a stale entry (`FusionExpiry.KnowsIff`), which `expire` before
  every `ingest`, as the pipeline does it, rules out.
- Counts across a restart or an eviction. The insert ignores an alert whose id already has a row, and the next
  touch overwrites that row's count. So the table's duplicate counts never exceed the accepted results, and equal
  them iff no alert raised meets a row already under its id (`Accounting.RunAddsUpIff` for one run on any table,
  `Restarts.SessionsAddUpIff` for any sequence of restarts). A worker restarted within a dedup window is the
  commonest failing case (`Restarts.RestartLosesCount`).
- Rollback. Promoting again the version at place i of the stack of superseded champions closes a cycle: from then
  on rollback goes round the versions from place i up, `|stack| - i` of them, is never refused and never reaches
  anything older (`RegistryStack.RepromotionForever`, `RegistryStack.RepromotionPeriod`). For the version directly
  below the champion the cycle is a swap of two. Demoting the champion by hand breaks the stack reading too: an
  operation keeps it iff it neither promotes a version on the stack below its top nor demotes the champion, or names an
  unknown version (`RegistryStack.MoveTracksIff`). Over any run, other operations in between included, rollback is
  refused iff there is no champion or the champion was never promoted over another (`RegistryStack.RefusedIff`).
- Sample ring. Overwriting starts at slot 1, so the first value outlives the next R - 1 until the count reaches
  twice the size (`Baselines.RingContents`), although the comment promises recent samples. A full ring holds the
  last R values iff 2R have been seen or the first value happens to equal the one it displaces
  (`Baselines.RecentIff`).
- Dedup memory. With a capacity under four a quarter rounds to nothing and the memory is unbounded
  (`Ingest.BoundedIffFour`). The constant used in the code is far above that.

## Model

| member | source | states |
|---|---|---|
| `Fusion.ThreatFusion.FuseResult` | sih_ntd/fusion.py:154-239 | Fusing one result in place leaves exactly the state, and returns exactly the outcome, of the step function the run theorems are about. |
| `Fusion.ThreatFusion.Judge` | sih_ntd/fusion.py:182-239 | The confidence gate, suppression by key and the new alert: dedup map, subject record and outcome are those of the decision function. |
| `Fusion.ThreatFusion.Ingest` | sih_ntd/fusion.py:144-152 | The batch loop skips shadow results and fuses the rest in order; state and outcomes are those of the recursive form. |
| `Fusion.ThreatFusion.Expire` | sih_ntd/fusion.py:288-301 | Both maps are rebuilt with exactly the entries that have not gone quiet, in order, eviction counts restarted. |
| `FusionHistory.ExpireShows` | sih_ntd/fusion.py:288-301 | `expire` is transparent: maps that show a whole history at one time show the same history at any later time after expiring. |
| `FusionHistory.RefreshedIsHistory` | sih_ntd/fusion.py:157-162 | The pruned and possibly reset subject record, or a fresh one if the subject was dropped, is the record the unabridged history calls for. |
| `FusionProofs.DecideIsVerdict` | sih_ntd/fusion.py:182-239 | With the map showing the open chains, the decision on a result is the verdict of the whole history, and the map again shows the chains. |
| `FusionProofs.FuseShows` | sih_ntd/fusion.py:154-239 | One fused result: outcome equals the history verdict, and the state keeps showing the history, provided no map overflows. |
| `FusionRuns.RunIsVerdicts` | sih_ntd/pipeline.py:119-121 | Main theorem: over every run of expire-then-ingest steps in time order that never fills a map, the outcomes are the verdicts of the whole history and the state is exactly what a later result can still use. |
| `FusionRuns.RunIsDeserved` | sih_ntd/fusion.py:154-286 | The same run theorem without any state and on the fields of the results. Dropped iff the whole-window confidence is below the minimum; touch iff an earlier confident result of the same detector, class and entity lies within the dedup window, and then it names the latest alert of those three and counts the confident results since; alert otherwise, with id (detector, class, entity, time in windows), confidence, severity and contributing detectors, and an incident iff two classes are in the window, with those classes, the alert last and a worst result in view as primary. |
| `FusionRuns.FewNeverFill` | sih_ntd/fusion.py:136-138 | A run with no more distinct keys and subjects than the maps have capacity never evicts, so the run theorems apply to it. |
| `FusionRuns.ShadowsAreInvisible` | sih_ntd/fusion.py:147-150 | Deleting all shadow results changes neither outcomes nor state, with or without evictions. |
| `FusionOverflow.NextVerdict` | sih_ntd/fusion.py:154-239 | A state that shows the history gives the verdict of the history even on the step that overflows a map. |
| `FusionOverflow.ShowsIffRoomy` | sih_ntd/windows.py:198-209 | One fused result keeps the state showing the history iff it pushes nothing out of either map. |
| `FusionOverflow.EvictedIsRaisedAgain` | sih_ntd/fusion.py:182-198 | After a result that overflows the dedup map, an accepted result of the same step is raised where the history would count it iff it has the evicted key. |
| `FusionOverflow.EvictedIsRaisedLater` | sih_ntd/fusion.py:182-198 | The same at any later step, after expiring: raised where the history would count it iff it has the evicted key and that key's chain is still open. |
| `FusionOrder.OldestAlertIsLost` | sih_ntd/fusion.py:291-295 | Over every run of expiring and fusing: an overflow of the dedup map loses exactly the held key whose alert was raised longest ago. |
| `FusionOrder.OldestSubjectIsLost` | sih_ntd/fusion.py:296-301 | And an overflow of the subject map exactly the held subject a result was fused about longest ago. |
| `FusionExpiry.KnowsLater` | sih_ntd/fusion.py:288-301 | Maps that show a history at one time hold at least its open chains and active subjects at every later time, without expiring. |
| `FusionExpiry.NextVerdictUnexpired` | sih_ntd/fusion.py:154-239 | Maps that hold at least the open chains and active subjects, stale ones or not, give the verdict of the whole history on the next result: pruning, reset and the window check make up for not expiring. |
| `FusionExpiry.KnowsIff` | sih_ntd/fusion.py:223-228 | Without overflow, the maps go on knowing the history iff the result did not open an alert over a stale entry of its key. |
| `FusionExpiry.StaleIsRaisedAgain` | sih_ntd/fusion.py:223-228 | After one that did, the next accepted result of that key is raised again where the history counts it. |
| `Reports.RunReportsInSequence` | sih_ntd/fusion.py:184-211 | Over every run, evictions and disorder included, each chain reports 1, 2, 3 and so on: a touch names an alert already reported and reports one more than the last report of it. |
| `Reports.LastCountsAddUp` | sih_ntd/fusion.py:184-197 | In any stream that reports in sequence, the last reported counts, summed over the chains, are the number of accepted results. |
| `Reports.RunAddsUp` | sih_ntd/fusion.py:144-152 | Result accounting over every run, evictions included: the last counts of all chains add up to the results not dropped. |
| `FusionFacts.CorroboratorsAreWhole` | sih_ntd/fusion.py:164-170 | When the correlation window is no longer than the idle time, the corroborating detectors are those of the subject's whole history inside the window, whatever was pruned or expired. |
| `FusionFacts.LongWindowForgets` | sih_ntd/fusion.py:288-301 | Counterexample family: with a longer window, a corroborating result exactly one window old has been lost. |
| `FusionFacts.TransparentIff` | sih_ntd/fusion.py:157-170 | Forgetting never changes corroboration, for all histories, if and only if correlation window <= idle time. The configuration does not enforce this. |
| `FusionFacts.KeysAgreeIff` | sih_ntd/fusion.py:182 | Two results have one dedup key iff they agree in detector, class and entity. |
| `FusionFacts.IdsAgreeIff` | sih_ntd/fusion.py:241-246 | And one alert id iff they also fall in the same dedup window since time zero. |
| `FusionFacts.OpensIff` | sih_ntd/fusion.py:182-198 | An accepted result opens an alert iff no earlier accepted result of its detector, class and entity lies within the dedup window. |
| `FusionFacts.TouchCounts` | sih_ntd/fusion.py:184-197 | A touch names the latest alert of its key and counts the accepted results since that alert, inclusive. |
| `FusionFacts.AlertIdsDiffer` | sih_ntd/fusion.py:241-246 | Within an eviction-free run no two alerts share an id: alerts of one key are more than a window apart, hence in different buckets. |
| `Accounting.RaisedOnce` | sih_ntd/fusion.py:241-246 | The same on a run's own outcomes: an ordered run that overflows no map raises no id twice. |
| `FusionFacts.ConfidenceBounded` | sih_ntd/fusion.py:172-177 | The documented combination formula is bounded by the maximum, monotonic in corroborators, and never lowers a confidence. |
| `FusionFacts.ConfidenceAlone` | sih_ntd/fusion.py:172-175 | Without corroboration a result keeps its confidence, capped. |
| `FusionFacts.ConfidenceSteps` | sih_ntd/fusion.py:172-175 | Each corroborating detector more adds exactly the bonus, up to the maximum. |
| `FusionFacts.SeverityRank` | sih_ntd/fusion.py:63-87 | Severity on the ladder is the higher of hint and class floor, one step up with two or more corroborators, capped. |
| `FusionIncidents.SameRunSameIncident` | sih_ntd/fusion.py:248-286 | Two incidents of a subject with no idle gap between them have one id and a strictly growing alert count. |
| `FusionIncidents.NewRunNewIncident` | sih_ntd/fusion.py:159-162 | Two incidents of a subject with an idle gap between them have different ids, given that fresh ids are distinct. |
| `FusionIncidents.IncidentListsRun` | sih_ntd/fusion.py:232-284 | An incident lists the last 512 alerts opened since the idle gap, the triggering one last, counts them all, and spans at least two classes, the trigger's included. |
| `FusionIncidents.IncidentBegins` | sih_ntd/fusion.py:268-270 | An incident's first-seen time is that of the first result after the idle gap. |
| `FusionIncidents.PrimaryIsWorst` | sih_ntd/fusion.py:258-261 | The primary class is that of the first result maximal in (severity hint, confidence). |
| `Store.Database.InsertEvents` | sih_ntd/store.py:213-241 | INSERT OR IGNORE by event id; returns how many keys were new. |
| `Store.Database.InsertDetectorResults` | sih_ntd/store.py:259-277 | Results are appended in order. |
| `Store.Database.InsertAlerts` | sih_ntd/store.py:279-309 | INSERT OR IGNORE by alert id, with one CREATED audit row per row actually inserted. |
| `Store.Database.TouchAlert` | sih_ntd/store.py:311-321 | UPDATE of the three counters by id and a DEDUPED audit row; nothing else changes. |
| `Store.Database.UpsertIncidents` | sih_ntd/store.py:335-352 | INSERT OR REPLACE by incident id. |
| `Store.FirstEventWins` | sih_ntd/store.py:213-241 | An event row keeps the event first inserted under its id. |
| `Store.CreatedExact` | sih_ntd/store.py:302-307 | The CREATED rows carry the time and id of exactly the alerts inserted, in order. |
| `Store.LastTouchWins` | sih_ntd/store.py:311-321 | After the touches a row has the time and counts of the last touch that names it, and its first alert. |
| `Store.FirstAlertWins` | sih_ntd/store.py:284-301 | A row keeps the first alert inserted under its id. |
| `Store.LastIncidentWins` | sih_ntd/store.py:349-351 | An incident row is the last report of that incident. |
| `Store.ExactlyOnce` | sih_ntd/store.py:233-241 | However events are split, repeated, reordered or cut short, once each has been delivered the table equals that of a single delivery, given content-derived ids. |
| `Store.ChunksAddUp` | sih_ntd/store.py:233-241 | Writing chunk by chunk gives the table of writing everything at once. |
| `Accounting.RunAddsUpIff` | sih_ntd/store.py:279-321 | Conservation, exactly: on any table with positive counts and over any run, evictions and disorder included, the counts grow by at most the accepted results, and by exactly that many iff no alert raised meets a row already under its id. |
| `Accounting.AuditAddsUpIff` | sih_ntd/store.py:279-321 | The audit trail grows by at most the accepted results, and by exactly that many under the same condition. |
| `Accounting.RecordedOneByOne` | sih_ntd/pipeline.py:222-243 | Applying outcomes alerts-first, step by step, leaves the alert table of recording every emission of the run one by one. |
| `Accounting.TableAddsUp` | sih_ntd/pipeline.py:222-243 | After an eviction-free ordered run from empty tables, alert rows are exactly the alerts raised, duplicate counts and audit rows each add up to the number of accepted results, and each key's latest row counts its chain. |
| `Accounting.ApplyOneMore` | sih_ntd/pipeline.py:225-240 | Applying an outcome alerts-first equals recording its emissions one by one, when no touch precedes its alert; an id may be raised again. |
| `Restarts.RowsPerKey` | sih_ntd/fusion.py:241-246 | Across any restarts, evictions, redeliveries and disorder, a key's rows with alert times in [a, b] number at most floor(b/w) - floor(a/w) + 1. |
| `Restarts.SessionsAddUpIff` | sih_ntd/store.py:279-321 | Conservation across any sequence of restarts: the table never counts more than was accepted, and counts exactly that iff no session raised an alert that met a row already under its id. |
| `Restarts.SessionSetsCount` | sih_ntd/store.py:311-316 | The failing family: a session that sees one result over and over leaves its own count in the row, whatever count it found. |
| `Restarts.RestartLosesCount` | sih_ntd/store.py:311-316 | Concrete loss: a restarted worker's touches overwrite the larger count of the session before. |
| `Crews.NextSound` | sih_ntd/pipeline.py:222-243 | Every step and restart of any of several workers on one alert table keeps: each row and each open entry falls short of its due by one for every ignored insert of its id, and is exact if there was none. |
| `Crews.CrewAddsUpIff` | sih_ntd/store.py:279-321 | Conservation with several workers at once, each with its own fusion state and restarted at will: the table never counts more than all of them accepted, and counts exactly that iff no raised alert met a row already under its id. |
| `Pipeline.PipelineRunner.ProcessTick` | sih_ntd/pipeline.py:106-122 | Expire at the event time, then ingest: the step of the run theorems. |
| `Pipeline.PipelineRunner.ApplyOutcome` | sih_ntd/pipeline.py:222-243 | Alerts, then touches one by one, then incidents reach the tables when persisting; nothing does otherwise. |
| `Pipeline.PipelineRunner.Persist` | sih_ntd/pipeline.py:245-256 | Empty buffers are skipped; events and results reach their tables. |
| `Pipeline.PipelineRunner.HandleOne` | sih_ntd/pipeline.py:187-204 | One event: fused, outcome applied, buffered, and both buffers flushed at 500 events. |
| `Pipeline.PipelineRunner.HandleAll` | sih_ntd/pipeline.py:187-204 | Over the loop, what is stored plus what is buffered is exactly the input so far, in order. |
| `Pipeline.PipelineRunner.CloseWindows` | sih_ntd/pipeline.py:206-214 | The final flush fuses its steps and adds their results to the buffer. |
| `Pipeline.PipelineRunner.HandleEvents` | sih_ntd/pipeline.py:175-220 | A batch of any length persists exactly its events and detector results, in order, and leaves fusion and outcome tables as one uninterrupted sequence of steps would. |
| `Pipeline.DriveIsRecorded` | sih_ntd/pipeline.py:119-121 | From a new worker, the steps driven by a batch are the run whose table is proved to add up. |
| `Client.StreamClient.DeadLetter` | sih_ntd/streaming.py:221-241 | An entry is copied to the DLQ and acknowledged. |
| `Client.StreamClient.Decode` | sih_ntd/streaming.py:150-163 | Entries without a JSON payload are dead-lettered and the others kept in order. |
| `Client.StreamClient.Read` | sih_ntd/streaming.py:122-148 | Delivers the next entries, at most a batch, and decodes them. |
| `Client.StreamClient.Reclaim` | sih_ntd/streaming.py:165-205 | Parks every scanned entry over the delivery limit, then claims up to 64 idle entries and decodes them. |
| `Client.StreamClient.FindPoison` | sih_ntd/streaming.py:188-192 | Exactly the scanned entries delivered more often than the limit. |
| `Client.StreamClient.Ack` | sih_ntd/streaming.py:207-218 | Acknowledges a batch; an empty list is a no-op. |
| `Client.Worker.ProcessBatch` | sih_ntd/pipeline.py:282-300 | Invalid events are dead-lettered; the valid ones are run through fusion in time order, every outcome applied, events and results stored, and only then acknowledged. |
| `Client.Worker.RunOnce` | sih_ntd/pipeline.py:271-300 | One turn of the loop: a new batch, or else a reclaimed one, worked through completely, in the group, in fusion and in all tables. |
| `Outcomes.AckedIsApplied` | sih_ntd/pipeline.py:282-300 | At least once for alerts: every valid entry of a batch has a step of its own, made of its event and its detector results, and whatever alert, incident or touch that step decided is in the tables when the entry is acknowledged. |
| `Client.ByEpochSorts` | sih_ntd/pipeline.py:296-298 | The batch order is the same entries, and of two events in it the earlier one's epoch is no later. |
| `Client.ByEpochIsStable` | sih_ntd/pipeline.py:296-298 | Events of one epoch keep the order they came in. |
| `Outcomes.WorkInOrder` | sih_ntd/pipeline.py:296-300 | So what a turn feeds to fusion is a run in time order, the hypothesis of the run theorems, whenever results carry their event's time. |
| `ClientSteps.TurnLeads` | sih_ntd/pipeline.py:271-300 | A whole turn of the worker loop is a path of the interleaved protocol with its fusion states and alert tables, whatever states the other workers are in. |
| `ClientSteps.TurnApplies` | sih_ntd/pipeline.py:282-300 | That path leaves the worker's fusion state and the alert, audit and incident tables that the loop's contract promises. |
| `ClientSteps.TurnKeeps` | sih_ntd/pipeline.py:271-300 | So a turn preserves the protocol invariant: everything acknowledged is stored with its outcome applied, or in the DLQ. |
| `ClientSteps.BatchDone` | sih_ntd/pipeline.py:282-300 | No entry of the batch is pending after the turn. |
| `Drain.LoneWorkerDrains` | sih_ntd/pipeline.py:271-300 | From an unread stream, any sequence of as many turns as entries leaves everything acknowledged, the events table exactly one insertion of each published event, every valid entry applied, and whatever was decided for it in the tables. |
| `Protocol.StepKeeps` | sih_ntd/streaming.py:150-241 | Every step of every worker (read, scan, park, claim, decode, validate, fuse one event, persist a chunk, acknowledge, crash) preserves: acknowledged implies stored with its outcome applied, or in the DLQ. |
| `Protocol.NothingIsLost` | sih_ntd/pipeline.py:262-263 | At least once: in every interleaving with crashes anywhere, each published entry is undelivered, pending, in the DLQ, or stored and fused by some worker. |
| `Fleets.NothingIsLost` | sih_ntd/pipeline.py:262-263 | At least once, down to the tables: each published entry is undelivered, pending, in the DLQ, or its event is stored and whatever alert, incident or touch some worker decided when fusing it is written. |
| `Fleets.FleetAddsUpIff` | sih_ntd/store.py:279-321 | Over every interleaving, redeliveries and crashes included: the alert table never counts more than the workers accepted, and counts exactly that iff no raised alert met a row already under its id. |
| `Protocol.RunOnlyPublished` | sih_ntd/store.py:233-241 | Every row of the events table is a published event under its own id. |
| `Protocol.ExactlyOnceEffect` | sih_ntd/pipeline.py:262-300 | When nothing is undelivered or pending and no valid event was parked, the events table equals that of one delivery of the log, for every interleaving. |
| `Redelivery.DeliveriesBounded` | sih_ntd/streaming.py:165-205 | In runs whose scans meet no more than 64 pending entries, none is delivered more than max_deliveries + W times by W workers, and the deliveries of a run total at most that per published entry. |
| `Redelivery.BoundAttained` | sih_ntd/streaming.py:179-202 | All W workers scan an entry at its limit, then each claims it: max_deliveries + W deliveries are reachable. |
| `Redelivery.ExactBound` | sih_ntd/streaming.py:165-205 | In such runs a number bounds the deliveries iff it is at least max_deliveries + W; the documented max_deliveries + 1 is a bound iff there is one worker. |
| `Backlog.AnyNumber` | sih_ntd/streaming.py:179-202 | With 65 entries pending and no clock, a single worker can reach any number of deliveries of the 65th. |
| `Backlog.LimitIffScanFits` | sih_ntd/streaming.py:165-205 | The exact condition: runs whose scans meet at most P pending entries have a delivery limit iff P <= 64. |
| `Clock.LoneWorkerLimit` | sih_ntd/streaming.py:179-204 | One worker that can claim only what has been idle for the configured time never delivers an entry more than max_deliveries + 1 times, whatever the backlog and however often it crashes. |
| `ClockLimits.Sweep` | sih_ntd/streaming.py:179-204 | Two workers take a backlog of 2k + 1 scans' worth, all delivered t times, to one of k + 1 scans' worth delivered t + 1 times. |
| `ClockLimits.AnyNumber` | sih_ntd/streaming.py:179-204 | So two or more workers that honour the idle time can reach any number of deliveries of one entry, given enough backlog. |
| `ClockLimits.LimitIffAlone` | sih_ntd/streaming.py:165-205 | With the idle time honoured, a delivery limit for every backlog exists iff there is one worker. |
| `Windows.SlidingWindow.Add` | sih_ntd/windows.py:44-48 | Appends the entry; total stays the sum of the entries. |
| `Windows.SlidingWindow.Expire` | sih_ntd/windows.py:50-56 | Pops exactly the entries the loop can reach; total stays the sum. |
| `Windows.SlidingWindow.Mean` | sih_ntd/windows.py:67-69 | Zero for an empty window; for non-negative values the mean times the count is the sum. |
| `Windows.PopIsFilter` | sih_ntd/windows.py:50-54 | Popping from the front equals filtering by the cutoff iff no live entry hides an expired one behind it. |
| `Windows.ClampIsInert` | sih_ntd/windows.py:62-65 | With non-negative values the clamp at zero never changes the total. |
| `Windows.UniqueTracker.Add` | sih_ntd/windows.py:102-104 | Appends the key; counts stay the exact multiset of the entries. |
| `Windows.UniqueTracker.Expire` | sih_ntd/windows.py:106-116 | Pops expired keys; counts stay exact, with no zero entries. |
| `Windows.UniqueTracker.Cardinality` | sih_ntd/windows.py:118-120 | The number of distinct keys among the entries held. |
| `Windows.CardinalityIsDistinct` | sih_ntd/windows.py:118-120 | The size of the counts map is the number of distinct live keys. |
| `Windows.DequeIsFilteredHistory` | sih_ntd/windows.py:44-56 | Over any run whose clock never goes back, the deque is the whole history filtered by the last cutoff. |
| `LruMaps.LruStateMap.Touch` | sih_ntd/windows.py:198-209 | Look up or insert, move to the end, evict the oldest when over capacity: state and value are those of the pure form. |
| `LruMaps.LruExact` | sih_ntd/windows.py:184-209 | After any touches the map holds, in order, exactly the capacity most recently touched keys, and evictions + size = misses. |
| `LruMaps.Residency` | sih_ntd/windows.py:184-209 | A key last touched at i is held iff fewer than capacity distinct keys were touched since. |
| `LruMaps.ThreeTouchesStay` | sih_ntd/features/engine.py:337-341 | Host, destination and pair states fetched for one event are all still held when capacity >= 3. |
| `LruMaps.Rebuild` | sih_ntd/fusion.py:291-295 | Copying the live entries into a new map gives the retained map, valid. |
| `LruOrder.RetainOrder` | sih_ntd/fusion.py:291-295 | Of two live entries, one stands before the other in the rebuilt map iff it did before. |
| `LruOrder.OpsExact` | sih_ntd/windows.py:184-209 | Over any run of touches, overwritten values and rebuilds, the keys stand by the time of their last touch. |
| `LruOrder.OldestOverflows` | sih_ntd/windows.py:203-208 | And what overflows is the held key touched longest ago, and nothing else. |
| `Features.WindowBundle.Observe` | sih_ntd/features/engine.py:111-149 | One flow is added to all 22 counters and trackers it contributes to: the bundle goes on describing exactly the flows in (now - size, now] of the whole history, the new one included. |
| `Features.WindowBundle.Expire` | sih_ntd/features/engine.py:151-155 | Expiring at a later time, the bundle describes the window of the same history at that time. |
| `Features.WindowBundle.Features` | sih_ntd/features/engine.py:157-209 | The nine capped ratios, computed from the counters, are those of the event window. |
| `Features.EntityState.Observe` | sih_ntd/features/engine.py:233-246 | Each bundle expires at the event's time and then counts it, so every window size describes the same history at the same time; byte samples are the last 64. |
| `Features.EntityState.Expire` | sih_ntd/features/engine.py:151-155 | Ageing without an event keeps every window size on the same history. |
| `Counters.FlowCounts` | sih_ntd/features/engine.py:111-149 | The flow, TCP, UDP, ICMP and duration counters count the flows of the window with that protocol or a duration. |
| `Counters.SynCounts` | sih_ntd/features/engine.py:111-149 | The SYN-only counter counts TCP flows short of established, or with a SYN flag and no packet back. |
| `Counters.FailedCounts` | sih_ntd/features/engine.py:111-149 | The failed counter counts attempts in a failed state or with nothing back. |
| `Counters.DnsCounts` | sih_ntd/features/engine.py:111-149 | The DNS counters count queries, TXT-like queries, NXDOMAIN answers and answers with bytes. |
| `Counters.TrafficSums` | sih_ntd/features/engine.py:111-149 | The packet and byte totals are sums over the flows of the window. |
| `Counters.OtherSums` | sih_ntd/features/engine.py:111-149 | So are the durations and DNS answer bytes. |
| `Counters.Labels` | sih_ntd/features/engine.py:111-149 | The trackers hold exactly the addresses, ports, services, fingerprints and names the flows carry. |
| `Routing.FeatureEngine.Process` | sih_ntd/features/engine.py:324-341 | One event: host, destination and pair are looked up in turn, and each that is still held observes it. |
| `Routing.RoutedHistory` | sih_ntd/features/engine.py:324-341 | Over every stream, the state of an entity still held is the stream since its last creation, filtered to that entity. |
| `Routing.RoutedByAddress` | sih_ntd/features/engine.py:333-341 | By address: a host's state is the events it sent, a destination's those it received, a pair's those from the one to the other. |
| `Routing.WholeHistoryIff` | sih_ntd/features/engine.py:302-306 | It is the whole stream filtered to the entity iff no event about it came before its last creation, that is, iff it has not been evicted since its first event. |
| `Features.CountersAgree` | sih_ntd/features/engine.py:111-149 | Over one window: SYN-only <= TCP, TCP + UDP + ICMP <= flows, failed and distinct counts <= flows, and DNS sub-counts <= DNS queries. |
| `Features.CapNeverBinds` | sih_ntd/features/engine.py:175-206 | The cap of 1.0 never changes an emitted ratio, and the protocol shares add to at most one. |
| `Features.RatioCases` | sih_ntd/features/stats.py:124-129 | A ratio is the quotient up to the cap; over nothing it is the cap if there was something to count, and zero if not. |
| `Features.SmallerWindowCountsLess` | sih_ntd/features/engine.py:157-209 | Each count at a smaller window size is at most the count at a larger one. |
| `Features.SmallerWindowTracksLess` | sih_ntd/features/engine.py:157-209 | Each distinct count at a smaller window size is at most the one at a larger size. |
| `Baselines.Baseline.Update` | sih_ntd/baselines.py:49-71 | The in-place update extends the series: moments stay those of the whole series and the slots those of the ring. |
| `Baselines.Baseline.UpdateMoments` | sih_ntd/baselines.py:57-64 | Seeding and the incremental mean and variance step. |
| `Baselines.Baseline.UpdateSamples` | sih_ntd/baselines.py:66-71 | Append until full, then overwrite at count % 256. |
| `Baselines.Baseline.Observe` | sih_ntd/baselines.py:148-175 | The deviation reported compares the value with the batch statistics of the earlier values only, then folds it in. |
| `Baselines.EwmaIsBatch` | sih_ntd/baselines.py:57-64 | The incremental mean is the weighted batch mean, and the incremental variance exactly the weighted variance about it. |
| `Baselines.WeightsSumToOne` | sih_ntd/baselines.py:57-64 | The weights (1-a)^(n-1), then a(1-a)^(n-i), sum to one. |
| `Baselines.EwmaBounds` | sih_ntd/baselines.py:57-64 | For values in [lo, hi]: lo <= mean <= hi and 0 <= variance <= (hi - mean)(mean - lo). |
| `Baselines.RingSlots` | sih_ntd/baselines.py:65-71 | Which observation each slot of a full ring holds. |
| `Baselines.RingContents` | sih_ntd/baselines.py:65-71 | All values until full; then the first value and the last R - 1 until 2R; from then on exactly the last R. |
| `Baselines.RecentIff` | sih_ntd/baselines.py:65-71 | A full ring holds exactly the last R values iff at least 2R have been seen or the first value equals the R-th last. |
| `Registry.ModelRegistry.Register` | sih_ntd/ml/registry.py:113-145 | A new version becomes a CANDIDATE with its first log record; a known one is refused with no change. |
| `Registry.RegisterExact` | sih_ntd/ml/registry.py:113-145 | The new version is a candidate at the head of the list, with one log row from no status to candidate; every other status stays. |
| `Registry.RegisterRefused` | sih_ntd/ml/registry.py:113-145 | Registering is refused, with no change, iff the version is known. |
| `Registry.ModelRegistry.FindByStatus` | sih_ntd/ml/registry.py:165-185 | The first listed version of a status, or none. |
| `Registry.ByStatusFirst` | sih_ntd/ml/registry.py:165-185 | Of the versions with the status it is the one listed first, that is, registered last. |
| `Registry.ModelRegistry.SetStatus` | sih_ntd/ml/registry.py:259-294 | Status and log change as specified; promotion retires and names the incumbent; an unknown version is refused with no change. |
| `Registry.SetStatusExact` | sih_ntd/ml/registry.py:259-294 | The version gets the status asked for, a displaced champion is retired, every other status stays, and the log gets exactly the rows that say so, from the old status to the new. |
| `Registry.ModelRegistry.FindTarget` | sih_ntd/ml/registry.py:301-309 | The reverse scan of the log finds the latest recorded predecessor of the champion. |
| `Registry.ModelRegistry.Rollback` | sih_ntd/ml/registry.py:296-319 | Refused with no change without a champion or a recorded predecessor; otherwise champion retired and predecessor promoted. |
| `Registry.RollbackExact` | sih_ntd/ml/registry.py:296-319 | The champion is retired, its recorded predecessor promoted, every other status stays, and the log gets a row for each. |
| `Registry.StatusIsLastAsked` | sih_ntd/ml/registry.py:244-319 | Over any run, a version has the status last asked for it, by name, by being displaced, or by rollback. |
| `Registry.NeverAskedIsUnknown` | sih_ntd/ml/registry.py:113-145 | And a version nothing was asked for is unknown. |
| `Registry.EveryRunIsValid` | sih_ntd/ml/registry.py:244-319 | Over every run of registrations, status changes and rollbacks: at most one champion, records that chain, a log whose fold is the status map, registered predecessors, and a log that only grows. |
| `Registry.RollbackKeeps` | sih_ntd/ml/registry.py:296-319 | Rollback keeps the invariant, never strands the detector without a champion, and a refusal changes nothing. |
| `RegistryStack.RollbackIsStackPop` | sih_ntd/ml/registry.py:296-319 | Under the promotion discipline, over every run the champion is the top of the push/pop stack and rollback pops it. |
| `RegistryStack.PromotionFaithfulIff` | sih_ntd/ml/registry.py:263-294 | A promotion keeps rollback faithful to the stack iff the version is not already on it. |
| `RegistryStack.MoveTracksIff` | sih_ntd/ml/registry.py:244-319 | The exact discipline for every operation: rollback stays a stack pop iff the operation neither promotes a superseded champion nor demotes the champion by hand, or names an unknown version. |
| `RegistryStack.RefusedIff` | sih_ntd/ml/registry.py:296-319 | Over any run of registrations, status changes and rollbacks, rollback is refused iff there is no champion or the champion was never promoted over another. |
| `RegistryStack.NeverRefusedAgain` | sih_ntd/ml/registry.py:296-319 | Once a version has been promoted over another, rollback from it is never refused, whatever happens in between. |
| `RegistryStack.RollbackFollows` | sih_ntd/ml/registry.py:296-319 | Rollback changes no version's recorded predecessor: it only follows them. |
| `RegistryStack.RepromotionCycles` | sih_ntd/ml/registry.py:263-309 | Promoting the version at place i of the stack again makes the log lead round the versions from place i up. |
| `RegistryStack.CycleForever` | sih_ntd/ml/registry.py:296-319 | On such a cycle rollback goes round for ever, is never refused and reaches nothing else. |
| `RegistryStack.RepromotionForever` | sih_ntd/ml/registry.py:296-319 | So after promoting any superseded champion again, each rollback in a row succeeds and yields the next version down the cycle, never anything older than place i. |
| `RegistryStack.RepromotionPeriod` | sih_ntd/ml/registry.py:296-319 | The cycle's period is the number of champions from place i up. |
| `RegistryStack.RepromotionEntangles` | sih_ntd/ml/registry.py:302-309 | The shortest cycle: promoting the version directly below the champion again makes the two name each other. |
| `RegistryStack.EntangledForever` | sih_ntd/ml/registry.py:302-309 | From then on every rollback swaps the two and is never refused. |
| `RegistryStack.PingPongExample` | sih_ntd/ml/registry.py:296-319 | The shortest such history, from an empty registry. |
| `Ingest.Normalizer.IsDuplicate` | sih_ntd/ingest.py:160-168 | A duplicate iff the id is among the last `Held` ids let through; otherwise remembered, the oldest quarter dropped on overflow. |
| `Ingest.Normalizer.NormalizeMany` | sih_ntd/ingest.py:145-158 | Yields exactly the parsed records that are not duplicates, in order; the rejects are counted exactly, and rejects, duplicates and yields add up to the input. |
| `Ingest.MemoryIs` | sih_ntd/ingest.py:160-168 | After n fresh ids the memory is exactly the last n of them up to the capacity C, and from then on the last C + 1 - C/4 + (n - C - 1) mod C/4. |
| `Ingest.DuplicateIff` | sih_ntd/ingest.py:160-168 | An id is a duplicate iff it is among those. |
| `Ingest.ForgottenIff` | sih_ntd/ingest.py:164-167 | An id last let through at place p is a duplicate iff no more than that many ids have been let through from it on. |
| `Ingest.MemoryIsSuffix` | sih_ntd/ingest.py:160-168 | The memory is always a suffix of the fresh ids, at most C long and at least min(n, C + 1 - C/4). |
| `Ingest.BoundedIffFour` | sih_ntd/ingest.py:164-167 | The memory stays within its capacity on every input iff the capacity is at least four. |
| `Ingest.YieldsAreFresh` | sih_ntd/ingest.py:155-158 | Every yield of a batch was outside the memory of the yields before it. |
| `Ingest.RepeatsAreFar` | sih_ntd/ingest.py:160-168 | Two yields of one id are separated by at least C + 1 - C/4 other yields. |
| `Ingest.DropsWereYielded` | sih_ntd/ingest.py:155-157 | An event is dropped only if its id was yielded before. |

## Left out

- FusionRuns.RunIsVerdicts: stated for runs that never overflow a map. With evictions a chain is cut short and a repeat of an evicted key is raised again (`FusionOverflow.EvictedIsRaisedAgain`), so the history verdict is not what comes out. The accounting theorems of `Reports`, `Accounting.RunAddsUpIff` and `Restarts`, and `FusionRuns.ShadowsAreInvisible`, hold with evictions too.
- FusionRuns.RunIsDeserved: the same runs, and a correlation window no longer than the idle time, which is the exact condition for the stateless account of corroboration (`FusionFacts.TransparentIff`).
- Accounting.TableAddsUp: the same runs, from empty tables; `Accounting.RunAddsUpIff` and `Accounting.AuditAddsUpIff` have neither restriction.
- Runs out of time order. The theorems on verdicts and incidents need events in time order, and two things the worker does leave it: the flush of open windows after an idle spell (`sih_ntd/pipeline.py:164`, `sih_ntd/features/engine.py:523`) runs a step at each entity's own last-seen time, and a reclaimed batch is older than what was already fused. The accounting theorems of `Reports`, `Accounting.RunAddsUpIff`, `Restarts`, `Crews` and `Fleets` need no order, only that results carry the time of their step.
- Rounding: floating-point values are `real`.
- Fusion.ThreatFusion.FuseResult: the records inside the two maps are values that are written back, where the original updates shared objects in place; aliasing of those records is not modelled.
- Pipeline.PipelineRunner.ApplyOutcome: the list of alerts kept in memory, metric counters and publishing alerts to a stream are not modelled.
- Pipeline.PipelineRunner.Persist: feature vectors are not buffered or stored.
- Pipeline.PipelineRunner.HandleOne: feature vectors, latency and metric counters are not modelled.
- Pipeline.PipelineRunner.HandleAll: feature vectors, latency and metric counters are not modelled.
- Pipeline.PipelineRunner.CloseWindows: the closing feature vectors are not modelled, and the steps of the closing flush are an input.
- Pipeline.PipelineRunner.HandleEvents: as the four above.
- Client.Worker.ProcessBatch: the detector results of each event are an input, as the detectors and feature state are not part of the worker model; the rejection counter is left out.
- Client.Worker.RunOnce: the flush of open windows after an idle spell and the loop's exit conditions are left out.
- Protocol.NothingIsLost: "fused" is a set of entry ids there; `Fleets.NothingIsLost` ties it to rows of the tables.
- Redelivery.DeliveriesBounded: assumes that scans meet at most 64 pending entries; `Backlog.LimitIffScanFits` shows that this is exactly when there is a limit.
- Clock.LoneWorkerLimit: one worker, as for more there is no limit (`ClockLimits.LimitIffAlone`); how a limit for several workers depends on the size of the backlog is not stated. Claims take due entries from the lowest id up, as XAUTOCLAIM from `0-0` does.
- Crews.CrewAddsUpIff: the outcome of one event is written as a whole; two workers' statements within one outcome are not interleaved.
- Features.WindowBundle.Observe: the 22 windows of a bundle are values in a map, updated one by one, and not `SlidingWindow` and `UniqueTracker` objects; the two classes are proved separately against the same functions.
- Features.WindowBundle.Features: rates, totals, means, entropies, concentrations and coverage are not part of the ratios modelled.
- Routing.FeatureEngine.Process: a state is its history of events, and not an `EntityState` object; emission of vectors is left out.
- Features.EntityState.Observe: interval statistics, duration samples, recent flow ids and capture references are not modelled.
- Baselines.Baseline.Observe: z-scores and percentiles as numbers, and the store keyed by entity and metric, are not modelled; a deviation carries the statistics they are computed from.
- Streams other than the normalized one.
- Redis mechanics: reconnects, NOGROUP recovery, failed commands, consumer names, MAXLEN trimming and `delete_stream`.
- SQL text, columns not used by a property, transactions that fail, retention pruning and all query methods.
- Detector bodies, `subject_of`, evidence, lineage and summary text: a result's subject is an input.
- Emit throttling in `FeatureEngine.process`, protocol vectors and direction tagging.
- Registry file layout, artefact hashing and loading, component-name validation, actors and reasons, and crashes between two writes; versions are listed newest first.
- Field mapping and validation of raw records in the normalizer: a record is rejected or has its id.
- The HTTP API, WebSocket, CLI, metrics, logging, replay, training and frontend.
