# ShadowTrust backend: a verified model

ShadowTrust turns what honeypots record into detections, incidents, sessions,
graphs and timelines. This project models the parts of its backend that are
state machines over an unbounded event log, and proves what they promise on
every input and over every run. `dafny verify dfyconfig.toml` checks it all.

| files | what they model |
|---|---|
| `Model`, `SequenceMatch`, `Rules`, `RuleReports` | normalized events, detection rules, the ordered-step matcher, dedupe keys, what a rule reports |
| `Iocs`, `Scoring`, `Correlation` | indicator counting, incident severity and risk, folding evidence into incidents |
| `Engine`, `EngineCycle` | one detection cycle: as a function of the tables, and as the class that updates them in place and commits or rolls back |
| `EngineReplay`, `EngineLater`, `EngineThreshold` | re-processing the same events, at the same clock time and later |
| `EngineReports`, `EngineEvidence`, `EngineLinks`, `EngineFolding` | what a cycle reads, reports, links and folds into incidents, in terms of the log and the rules alone |
| `Analyst`, `EngineEdits` | what analysts may do to incidents through the API, and what each edit does |
| `EngineSafety`, `EngineRuns` | what each step keeps, and safety over whole runs of ingests, cycles and edits |
| `EngineCursor`, `EngineConsume` | what the cursor consumes and loses, in one cycle and over a run |
| `EngineWitness` | runs on which a promise fails |
| `Sessions`, `SessionEngine` | the one-pass segmentation by gaps, and the batch job that refines it |
| `EventBus`, `Wakeup` | the drop-oldest fan-out, the wake-up protocol of the detection loop |
| `Graph`, `GraphPaths`, `GraphMeaning`, `GraphProfiler` | the behaviour graph, its connectivity and chains, its edges and captions in terms of the events, the object that builds it |
| `Classifier`, `RateLimit`, `LiveStream` | pruned sliding windows, the hourly credential limit, the reconnect machine |
| `Timestamps`, `Timeline` | printed timestamps and their order, the incident timeline |
| `Framing`, `Timeframe` | the antivirus stream, the timeframe parser and printer |
| `Text`, `Collections` | strings, filtering, stable sorting |

Tables are sequences whose positions are the ids; a committed cycle is one
step, because a failed one commits nothing. Each operation that changes state
in place is a method proved equal to a function of the old state; the theorems
are about those functions. Rule conditions are arbitrary predicates on events,
the findings of the IOC regular expressions an arbitrary list per event,
signature hits an arbitrary set per log line. Clock readings, malware reports
on disk, stored tokens and fetch results are parameters.

## What the environment must guarantee

- Times are naive UTC and the process runs in UTC. One clock reading serves a
  cycle.
- Every cycle may load other rules (`run_cycle` calls `load_rules` each time),
  but in one load rule ids are distinct and contain no colon, and an id keeps its
  severity and timeframe from load to load (`Drawn`).
- Ingest times may be anything: `RunSound`, `RunSafe` and `RunAccountedIff` assume
  nothing about them. Only consumption in order (`RunInOrder`) needs them to
  increase strictly.
- Analysts may edit, create and link as the API allows, at any time: `RunSound`
  holds regardless. That the intervals of a source's incidents stay ordered and
  that severities cover detections (`RunSafe`) needs a clock that does not go back
  and edits that keep it so; `BenignIff` says exactly which do.
- Nobody runs the administrator's data reset during a run: it empties the log and
  these tables and keeps the cursor.
- Event ids are unique where a replay or the timeline is concerned.
- Each source's raw events arrive in time order, and nothing else writes
  `attacker_sessions`.
- Credential requests are served one at a time; a row is stamped no more than
  `slack` before the check that allowed it.

Each theorem lists only the guarantees it needs.

## What turned out not to hold

- Re-processing creates nothing new, as the header of `detection_engine.py`
  says (lines 18-19), at the clock time of the cycle (`ReplayCreatesNothing`).
  Later it may: a rewound cycle of a sequence rule inserts a second detection
  (`RewoundCycleDetects`), and a rewound cycle links an event to a second incident
  (`RewoundCycleLinks`). `CreatesNothingIff` says exactly when a cycle creates
  no detection, incident, event link or indicator link. With threshold rules
  only, no later replay creates a detection (`ThresholdReplayCreatesNoDetection`)
  unless the window query reached its limit of 8000 rows (`LimitHidesDetection`).
- Events can be lost to the cursor, for two reasons: the 3000-row edge splits a
  run of equal ingest times (`EdgeTieLosesAnEvent`), or a commit is stamped with a
  time the cursor has already reached (`LateArrivalLost`). Over every run
  nothing is lost if and only if neither happens (`RunAccountedIff`).
- Keys are injective only up to rule ids with colons, which the loader accepts
  (`KeysCollideIff`).
- An incident's severity can fall (`SeverityFalls`), exactly when it outranks
  the event risk of the update, every detection linked before and every one added
  (`UpdateLowersIff`); it never falls below that of a linked detection
  (`CorrelateScores`).
- Incident intervals of one source may touch at an end point (`IncidentsTouch`),
  exactly when a closed incident of the source was last seen at this very instant
  and none is live (`TouchIff`); they never overlap beyond that.
- A closed hour holds at most the limit of credential operations when stamps are
  exact (`EveryHourLimited`); when the column truncates them, only every interval
  shorter by that much does (`EveryIntervalLimited`, `TruncationOvershoots`).
- Two sources share a session id exactly when one is named like the other with a
  hyphen appended and the sessions start at opposite seconds around the epoch
  (`SessionIdsEqualIff`).
- The classifier's comment says the most severe attack is reported; the code
  reports the last one added (`UnderstatedIff` gives the exact combinations).
- A printed duration parses back only if it is whole and non-negative
  (`RoundTripIff`): a negative one parses as ten minutes.

## Model

| member | source | states |
|---|---|---|
| SequenceMatch.MatchSequence | backend/app/services/detection_engine.py:217-233 | the matching loop returns exactly the events at the positions a left-to-right scan of the written-out requirements takes, or nothing |
| SequenceMatch.MatchStep | backend/app/services/detection_engine.py:223-232 | one step of the loop: it fails only when no completion exists, and otherwise the rest of the scan continues from where it stopped |
| SequenceMatch.MatchIff | backend/app/services/detection_engine.py:217-233 | soundness and completeness: a rule matches exactly when its steps ask for at least one event and strictly increasing positions exist that meet every step its number of times |
| SequenceMatch.MatchesIff | backend/app/services/detection_engine.py:217-233 | in terms of the steps as written: a rule matches exactly when some events, left in time order, are those of its steps one after another, as many for each step as it asks for and each meeting all its conditions |
| SequenceMatch.MatchEarliest | backend/app/services/detection_engine.py:217-233 | the matched events are pointwise at or before those of every other choice |
| SequenceMatch.ScanEarliest | backend/app/services/detection_engine.py:223-232 | in positions: the scan succeeds whenever any choice does and is pointwise the earliest |
| SequenceMatch.MatchMonotone | backend/app/services/detection_engine.py:217-233 | any event list that contains a matching one as a subsequence also matches, in whatever order the events come |
| Rules.EvaluateRule | backend/app/services/detection_engine.py:166-214 | the candidates are, group by group in order of first appearance, what grouping, the time window, the new-event test and the matcher yield |
| Rules.EvaluateGroup | backend/app/services/detection_engine.py:182-213 | one group: sort, cut at the horizon, require an event newer than the cursor, match, describe |
| Rules.GroupEvents | backend/app/services/detection_engine.py:173-177 | every group holds exactly its events, in window order; events without a key are in none |
| Rules.EvaluateSound | backend/app/services/detection_engine.py:166-214 | every candidate holds events of its own group and window, in time order, that meet its rule: for a sequence they are those of the steps one after another, for a threshold each meets every condition and there are enough; it spans from its first to its last event, names the first user any of them has, its key names the bucket of the last, and a rule reports a group at most once |
| Rules.EvaluateIff | backend/app/services/detection_engine.py:166-214 | and completeness: a group is reported exactly when its recent events include one newer than the cursor and satisfy the matcher (enough hits, or some increasing choice that meets the steps) |
| RuleReports.ReportedIff | backend/app/services/detection_engine.py:166-214 | counted over the window itself: a group is reported exactly when it has a recent event ingested after the cursor and enough recent events that meet every condition, or some that are the steps' |
| RuleReports.ThresholdReportsAll | backend/app/services/detection_engine.py:194-196 | a threshold rule reports every event that hits, not just as many as it asks for |
| RuleReports.BucketIs | backend/app/services/detection_engine.py:161-163 | a bucket is a stretch of the timeframe in whole seconds, at least a minute, counted from the epoch, and the key spells rule, group and bucket |
| Reporting.BatchMeans | backend/app/services/detection_engine.py:487-494 | the batch holds events ingested after the cursor, or in the last hour when there is none, oldest first, and what is left out beyond 3000 is no older |
| Reporting.WindowMeans | backend/app/services/detection_engine.py:505-514 | the window holds the events of the batch's sources of the last two hours, earliest first, and what is left out beyond 8000 is no earlier |
| Reporting.CycleReports | backend/app/services/detection_engine.py:519-570 | a committed cycle records every group one of its rules is called for; every new row tells rule, severity, confidence, technique, source, user and span of events of the window that meet a rule, under a key not used before; an old row is at most moved to the last event of a candidate of its key |
| Rules.KeyInjective | backend/app/services/detection_engine.py:161-163 | with colon-free rule ids the key string determines rule, group and bucket, whatever colons the group contains |
| Rules.KeysCollideIff | backend/app/services/detection_engine.py:208 | two different rule ids can produce one key exactly when one, followed by a colon, begins the other |
| Rules.ThresholdLaterSameKey | backend/app/services/detection_engine.py:166-214 | a threshold rule evaluated later over the same events reports nothing under a key it had not reported before |
| Later.SequenceLaterNewKey | backend/app/services/detection_engine.py:166-233 | a sequence rule does: 55 seconds later the same four events yield a key of the next bucket |
| Witness.RewoundCycleDetects | backend/app/services/detection_engine.py:476-604 | so a committed cycle of one sequence rule inserts one detection, and 55 seconds later, the cursor put back, another for the same events |
| Witness.RewoundCycleLinks | backend/app/services/detection_engine.py:363-373 | after two alarms, the first incident closed between them, a rewound cycle links the first alarm to the second incident |
| Iocs.TallyPending | backend/app/services/detection_engine.py:123-135 | the pending dictionary holds, for each indicator of the batch in order of appearance, its number of mentions and latest time |
| Iocs.UpsertIocs | backend/app/services/detection_engine.py:120-157 | the two loops turn the table into its upserted form |
| Iocs.CountIsNaive | backend/app/services/detection_engine.py:125-135 | the tally of an indicator is the number of events whose extraction contains it, and the latest of their times |
| Iocs.ExtractedIff | backend/app/services/detection_engine.py:81-118 | an indicator of an event is its source address unless a placeholder or loopback, its destination unless a placeholder, its user name cut at 120 characters, or what the scanners found; each once |
| Iocs.UpsertedExact | backend/app/services/detection_engine.py:120-157 | a table exact for the events consumed so far is exact for them and one more batch: one row per indicator, each the naive count |
| Iocs.ExactRow | backend/app/services/detection_engine.py:143-156 | an exact row's hit count is the number of consumed events that mention it and its last-seen time is their maximum |
| Iocs.ExactCovers | backend/app/services/detection_engine.py:137-156 | every indicator of a consumed event has a row |
| Scoring.SeverityCovers | backend/app/services/detection_engine.py:237-244 | an incident is at least as severe as every detection linked to it |
| Scoring.SeverityDropsIff | backend/app/services/detection_engine.py:237-244 | of the score alone: it is lower with more detections exactly when the earlier event risk outranked every detection and the new event risk |
| Witness.UpdateLowersIff | backend/app/services/detection_engine.py:354-404 | correlating a source lowers the severity of the incident it finds exactly when that is above LOW and outranks the event risk, every detection linked before and every one added |
| Witness.SeverityFalls | backend/app/services/detection_engine.py:354-404 | and it happens on an orderly run from an empty database: a high-risk event opens a CRITICAL incident, the next cycle adds a LOW detection of a harmless event of the same source, and the incident is LOW |
| Scoring.RiskBounds | backend/app/services/detection_engine.py:247-272 | the rounded risk score lies between 18 and 100 |
| Scoring.RiskMonotone | backend/app/services/detection_engine.py:247-272 | it never falls when detections, techniques, event risk, session events or the malware flag grow; the rows below say by exactly how much it rises |
| Scoring.BaseScore | backend/app/services/detection_engine.py:247-258 | without detections, techniques, events or samples it is 18 |
| Scoring.DetectionAddsSix | backend/app/services/detection_engine.py:251 | one more detection that is no severer adds exactly 6 to the printed score up to the fourth and nothing beyond, until 100 |
| Scoring.RankAddsEighteen | backend/app/services/detection_engine.py:250 | each rank of the severest detection is worth exactly 18, until 100 |
| Scoring.TechniqueAddsFive | backend/app/services/detection_engine.py:252 | a technique not seen before adds exactly 5 up to the fourth, until 100 |
| Scoring.MalwareAddsTwenty | backend/app/services/detection_engine.py:255 | a linked sample adds exactly 20, until 100 |
| Scoring.EventsAdd | backend/app/services/detection_engine.py:253-257 | event risk adds 0.15 a point up to 15 and session events 0.2 each up to 10, capped at 100 and then rounded to the nearest tenth |
| Scoring.RoundsToNearest | backend/app/services/detection_engine.py:272 | rounding is to the nearest tenth or hundredth, ties to the even one |
| Scoring.SeverityIff | backend/app/services/detection_engine.py:237-244 | exactly when an incident is CRITICAL, HIGH, MEDIUM or LOW, in terms of its detections and the event risk |
| Scoring.HighRiskIff | backend/app/services/detection_engine.py:607-610 | an event is high-risk exactly when its severity is HIGH or CRITICAL, and no event's risk lies between 55 and 80 |
| Scoring.ConfidenceIs | backend/app/services/detection_engine.py:397-401 | the confidence is the greatest of the detections', 0.05 more for each further one, at most 0.99, to the nearest hundredth; 0.35 without any |
| Correlation.SelectChosen | backend/app/services/detection_engine.py:307-315 | the incident correlated into is the open one of the source, active within six hours, seen last |
| Correlation.LinkEvents | backend/app/services/detection_engine.py:363-373 | the event links added are those of evidence not linked before the call |
| Correlation.LinkIocs | backend/app/services/detection_engine.py:375-382 | the indicator links added are those whose value was not linked before the call |
| Correlation.CorrelateSettles | backend/app/services/detection_engine.py:303-404 | afterwards the incident holds every user, sensor, event and indicator offered, and its score is that of all its detections |
| Folding.TargetMeans | backend/app/services/detection_engine.py:307-315 | evidence joins the incident seen last among those of the source that are NEW, TRIAGING, INVESTIGATING or CONTAINED and were seen within six hours; a new one opens exactly when there are none |
| Folding.InputMeans | backend/app/services/detection_engine.py:574-592 | what a source offers: its new detections, the indicators its events of the batch mention, their greatest risk, the number of its stored events when the batch has any, and whether a mentioned hash was analysed |
| Folding.CorrelateMeans | backend/app/services/detection_engine.py:303-404 | the incident gains exactly the users, sensors, techniques and reasons offered, exactly the rows offered are assigned to it, and it is scored from all its detections; other incidents stay |
| Folding.IndicatorsLinked | backend/app/services/detection_engine.py:375-382 | every indicator offered is linked by value, and new links are only of those and of values it did not have |
| Linking.CycleLinks | backend/app/services/detection_engine.py:566-592 | a committed cycle links every event a new detection with a source matched to that source's incident, which lists the event's user and sensor, and every high-risk event of the batch likewise; every new link is one of those, was not there before, is there once, and carries the reason of the last new detection that matched the event or else its own high risk |
| Linking.IpOfMeans | backend/app/services/detection_engine.py:552-567 | a detection is correlated under the source of the first event it matched, or under its group when that has none |
| Correlation.SettledIsFixed | backend/app/services/detection_engine.py:303-404 | correlating a settled source with no new detections is the identity |
| Cursor.CursorLosesNothingIff | backend/app/services/detection_engine.py:484-498 | over a fixed log in ingest order: the cursor strictly advances, the batch is the head of the pending events, and none is skipped exactly when the 3000-row edge does not split a run of equal ingest times |
| Cursor.ArrivalsKeptIff | backend/app/services/detection_engine.py:489-494 | later commits are all still pending exactly when each is stamped strictly after the cursor |
| Cursor.EdgeTieLosesAnEvent | backend/app/services/detection_engine.py:489-494 | 3001 events stamped alike: one is never read |
| Witness.LateArrivalLost | backend/app/services/detection_engine.py:484-498 | ingest times never decrease and no batch is full, yet an event committed with the cursor's own time is never read |
| Consumption.RunAccountedIff | backend/app/services/detection_engine.py:484-604 | over every run, with any ingest times: the log after the start is, as a multiset, what was consumed plus what is still pending if and only if no cycle's edge split equal ingest times and every later commit was stamped after the cursor it met |
| Consumption.StepAccounts | backend/app/services/detection_engine.py:484-604 | one step: a step of neither kind keeps the account, one of either kind loses at least one event for good |
| Consumption.BatchLeaves | backend/app/services/detection_engine.py:489-494 | behind a batch exactly the events stamped after its last stay pending, in any log |
| Consumption.RunInOrder | backend/app/services/detection_engine.py:484-604 | when ingest times strictly increase, every run consumes the log after its start once, in order and without a gap |
| Replay.ReplayCreatesNothing | backend/app/services/detection_engine.py:476-604 | at the clock time of the cycle, re-running a committed cycle with the cursor put back commits and changes nothing but indicator rows: no detection, incident, event link or indicator link is added and none changes in any field |
| Replay.CycleSettles | backend/app/services/detection_engine.py:534-604 | after a committed cycle every candidate's key is present and current and every high-risk source is settled |
| Replay.RaiseNothing | backend/app/services/detection_engine.py:534-570 | candidates whose keys are present and not newer leave the detections as they are |
| Replay.OffersNoMore | backend/app/services/detection_engine.py:579-592 | a replay offers each source no evidence, indicator or score input beyond the first run |
| Later.CreatesNothingIff | backend/app/services/detection_engine.py:524-604 | at any clock time, a cycle adds no row to any of the four tables of detections, incidents, event links and indicator links exactly when every candidate's key is present and every source with a high-risk event has an open incident, active within six hours, already linked to each such event and to each indicator of the source's events in the batch |
| ThresholdReplay.ThresholdReplayCreatesNoDetection | backend/app/services/detection_engine.py:476-604 | with threshold rules only, a rewound cycle at any later time inserts no detection, if the window query of the first run stayed within 8000 rows |
| ThresholdReplay.LimitHidesDetection | backend/app/services/detection_engine.py:501-512 | without that condition it may, on a log with unique ids, strictly increasing ingest times and nothing ingested before it happened: 8000 old events keep a hit from the first run, and an hour later the same batch yields a detection |
| Safety.CorrelateKeepsOrder | backend/app/services/detection_engine.py:303-411 | intervals of one source's incidents stay ordered; a later one starts only when each earlier is closed or quiet for six hours; a superseded one is not touched |
| Witness.TouchIff | backend/app/services/detection_engine.py:303-345 | a new incident begins at the instant an earlier one of its source ends exactly when a closed incident of the source was last seen at this instant and none is live |
| Witness.IncidentsTouch | backend/app/services/detection_engine.py:303-345 | and it happens on an orderly run from an empty database |
| Safety.CorrelateScores | backend/app/services/detection_engine.py:354-404 | after every update, whatever the tables held before, the incident is at least as severe as every detection linked to it, and its score lies between 18 and 100 |
| Safety.CorrelateKeepsLinks | backend/app/services/detection_engine.py:354-404 | every linked detection stays with an incident of its own source that is at least as severe |
| Safety.CorrelateAllLinks | backend/app/services/detection_engine.py:579-592 | over all sources of a cycle, linked detections stay with incidents of their own source, and every new detection of those sources ends up linked |
| Safety.CorrelateAllKeeps | backend/app/services/detection_engine.py:579-592 | and intervals stay ordered and severities covering |
| Safety.RaiseKeeps | backend/app/services/detection_engine.py:534-570 | rows keep the bucket their key names, move only forward in time, and keys stay distinct |
| Safety.OneRowPerTriple | backend/app/services/detection_engine.py:208 | at most one detection per rule, group and bucket |
| Safety.CycleAlwaysCommits | backend/app/services/detection_engine.py:534-572 | with distinct colon-free rule ids the unique key never rejects a cycle |
| Runs.CycleKeepsSound | backend/app/services/detection_engine.py:476-604 | from whatever incidents it finds, a committed cycle keeps detections named, distinct and linked to their source, removes no detection or incident and moves no detection back |
| Runs.CycleKeeps | backend/app/services/detection_engine.py:476-604 | from ordered incidents it leaves them ordered and covering, and changes no superseded one |
| Runs.TickExact | backend/app/services/detection_engine.py:484-604 | a cycle adds its batch to the consumed events and keeps the indicator counts exact for them |
| Runs.RunSound | backend/app/services/detection_engine.py:476-604 | over every run of ingests, cycles with changing rule files, a clock that may jump and any edits: exact indicator counts, one detection per rule, group and bucket, every detection with a source linked to an incident of it, no detection or incident removed and no detection moved back |
| Runs.RunSafe | backend/app/services/detection_engine.py:476-604 | over every orderly run moreover: ordered incidents, severities covering, intervals that only grow, and an incident that another of its source has followed is at the end as it was in every field, unless an analyst edited that very incident |
| Runs.FreshIsSafe | backend/app/services/detection_engine.py:484-487 | an empty database is a safe start |
| Analyst.EditKeeps | backend/app/api/v1/endpoints/incidents.py:307-543 | no edit through the API touches detections, indicators or cursor, removes an incident or an event link, or changes the source an incident is correlated by |
| Analyst.WidenKeeps | backend/app/api/v1/endpoints/incidents.py:83-148 | linking events by hand only widens the interval and adds users and sensors |
| Edits.FieldsSet | backend/app/api/v1/endpoints/incidents.py:322-364 | a status, severity or technique edit sets that field of that row and no other |
| Edits.LinkMeans | backend/app/api/v1/endpoints/incidents.py:95-147 | every stored event asked for is linked afterwards; each new link is of one, was not there before and carries the analyst's reason; the incident's interval, users and sensors take it in |
| Edits.AskedMeans | backend/app/api/v1/endpoints/incidents.py:95 | the ids looked at are those asked for, each once and none empty, all of them unless 500 are reached |
| Edits.IndicatorEdits | backend/app/api/v1/endpoints/incidents.py:417-458 | adding links a value once; removing takes exactly the first link of the value |
| Edits.CreateMeans | backend/app/api/v1/endpoints/incidents.py:511-543 | a new open row with the source, severity, techniques, reason and indicators of the request, linked to the stored events asked for |
| Analyst.BenignIff | backend/app/api/v1/endpoints/incidents.py:307-543 | an edit keeps the incidents of each source in order and their severities covering exactly when the one row it leaves fits between the others of its source and no detection linked to it is more severe |
| Analyst.StatusIff | backend/app/api/v1/endpoints/incidents.py:322-348 | a status change does so unless it opens an incident that another of its source followed within six hours; a severity change, unless a linked detection is more severe |
| Analyst.CreateIff | backend/app/api/v1/endpoints/incidents.py:498-543 | creating an incident without events does so exactly when every open one of its source has been quiet for more than six hours |
| Analyst.LinkIff | backend/app/api/v1/endpoints/incidents.py:83-148 | linking events by hand does so exactly when each event newly linked falls after every earlier and before every later incident of the source, six hours away where the earlier of the two is open |
| Analyst.InsideIsBenign | backend/app/api/v1/endpoints/incidents.py:83-148 | so linking events from inside the interval always does |
| Detector.CollectCandidates | backend/app/services/detection_engine.py:520-522 | the candidates of all rules, in rule order |
| Detector.OfferMatched | backend/app/services/detection_engine.py:568-570 | matched events enter the evidence keyed by event id: each of them is there with the given reason, replacing an earlier one, the rest stays, and no id is there twice |
| Offering.MatchesOffered | backend/app/services/detection_engine.py:566-570 | a source's evidence holds exactly the events its new detections matched, each once, with the reason of the last of them |
| Detector.OfferHighRisk | backend/app/services/detection_engine.py:585-587 | high-risk events not offered yet are added |
| Detector.DetectionEngine.AssignRows | backend/app/services/detection_engine.py:356-357 | exactly the given detections get the incident's id |
| Detector.DetectionEngine.CorrelateSource | backend/app/services/detection_engine.py:294-411 | the tables after correlating one source in place |
| Detector.DetectionEngine.RaiseCandidates | backend/app/services/detection_engine.py:531-570 | present keys are refreshed, others inserted; rows and evidence are filed under their source |
| Detector.DetectionEngine.CorrelateSources | backend/app/services/detection_engine.py:574-594 | every source is correlated once, in turn |
| Detector.DetectionEngine.RunCycle | backend/app/services/detection_engine.py:476-604 | the whole cycle in place: its result is the specified cycle, or the old tables when the transaction is rolled back; every event a new detection matched is shown by its incident; the summary counts the events read, the detections inserted and the incidents correlated |
| Sessions.OfflineShaped | backend/app/services/session_engine.py:66-89 | the offline pass yields sessions more than thirty minutes apart, each with the number of its events and the band of their highest score |
| Sessions.OfflineCuts | backend/app/services/session_engine.py:68-70 | it cuts exactly at events with none in the thirty minutes before them, and covers every event |
| Sessions.OfflineDescribes | backend/app/services/session_engine.py:18-28 | every session row says: source and start second as its id, the number of its events, CRITICAL, HIGH, MEDIUM or LOW exactly as its highest score reaches 80, 50, 20 or none, and it is more than thirty minutes from the next |
| Sessions.SameSession | backend/app/services/session_engine.py:30-93 | the session of an event depends only on the times of its source's events |
| Sessions.FloorBand | backend/app/services/session_engine.py:85-88 | folding scores through the stored band loses nothing: the result is the band of the maximum |
| Sessions.SessionIdsEqualIff | backend/app/services/session_engine.py:71 | two ids are equal exactly when source and start second are, or one source is the other with a hyphen appended and the seconds are opposite around the epoch |
| Sessions.IdsDistinct | backend/app/services/session_engine.py:71 | sessions of one source have different ids |
| SessionService.AllIdsDistinct | backend/app/services/session_engine.py:71 | no two sessions of the table share an id, unless there are times before the epoch and a source named like another with a hyphen appended |
| SessionService.MapOneKeeps | backend/app/services/session_engine.py:66-89 | mapping one event keeps every source's sessions equal to the offline pass over its mapped events |
| SessionService.SessionEngine.MapOne | backend/app/services/session_engine.py:67-89 | one event put into the open session or a new one |
| SessionService.SessionEngine.MapSource | backend/app/services/session_engine.py:49-89 | one source's rows, resuming its latest session if recent |
| SessionService.SessionEngine.GroupByIp | backend/app/services/session_engine.py:44-46 | the batch split by source |
| SessionService.SessionEngine.ProcessUnmapped | backend/app/services/session_engine.py:31-91 | after any batch the tables still equal the offline pass, and exactly the batch is newly mapped |
| SessionService.BatchingIndependent | backend/app/services/session_engine.py:31-93 | however the same events were batched, every event ends with the same session id |
| SessionService.SessionsIndependent | backend/app/services/session_engine.py:31-93 | and the session tables hold the same rows, with the same ends, event counts and levels |
| Sessions.SameSummary | backend/app/services/session_engine.py:66-89 | the offline pass over the same events makes the same sessions, in whatever order simultaneous ones come |
| EventBusModel.PublishBalances | backend/app/services/event_bus.py:66-76 | a full queue drops exactly its oldest message |
| EventBusModel.AccountMeaning | backend/app/services/event_bus.py:54-78 | a queue is the last messages offered, what was received is a subsequence in publish order, and offered = received + queued + dropped |
| EventBusModel.KeptIsSelection | backend/app/services/event_bus.py:54-78 | the received messages are a selection in order |
| EventBusModel.TotalDropsUpdate | backend/app/services/event_bus.py:69-71 | the drop counter moves by exactly one subscriber's new drops |
| EventBusModel.EventBus.Publish | backend/app/services/event_bus.py:54-78 | a subscriber that named no channels, or this one among others, has the message, at the cost of its oldest when it held 256; no other queue changes; what each subscriber has been offered is its share of the log; and the drop counter stays the sum over all subscribers ever opened |
| EventBusModel.OfferedIsShare | backend/app/services/event_bus.py:63-67 | at every moment of every run a subscriber without channels has been offered everything published since it opened, one with channels exactly the messages of that part on one of them, in order |
| EventBusModel.EventBus.PublishMany | backend/app/services/event_bus.py:80-83 | a batch is published in order |
| EventBusModel.EventBus.Open | backend/app/services/event_bus.py:85-93 | a new empty queue |
| EventBusModel.EventBus.Close | backend/app/services/event_bus.py:95-96 | the queue gets no more messages |
| EventBusModel.EventBus.Take | backend/app/services/event_bus.py:98-106 | a consumer receives the oldest message queued |
| Wakeup.NoLostWakeup | backend/app/main.py:117-149 | in every interleaving, once a commit has been signalled a cycle that started after it begins within three moves of the loop |
| Wakeup.NeverNeedsTick | backend/app/main.py:143-149 | until then the loop can move without another commit and without the fallback tick |
| Wakeup.WakeupFromStart | backend/app/main.py:44-45 | the same for every run of the program |
| Wakeup.BurstIsOneCycle | backend/app/main.py:145-149 | whatever is committed and signalled during a debounce is covered by the one cycle that follows, which starts with a clear flag |
| Wakeup.DetectionLoop.EndWait | backend/app/main.py:143-148 | the wait ends by the flag into the debounce, or by the timeout into clear and run |
| Wakeup.DetectionLoop.EndDebounce | backend/app/main.py:146-149 | after the debounce the flag is cleared and the next cycle starts without a switch in between |
| BehaviourGraph.GraphRealizesLinks | backend/app/ai_engine/gnn_profiler.py:36-205 | for every event list: ids are 1..n in creation order, the lookup is a bijection, the nodes are the root and those the events name, the edges are exactly those the events ask for, none repeated and none a loop |
| BehaviourGraph.JoinKeeps | backend/app/ai_engine/gnn_profiler.py:36-53 | adding one edge with its ends keeps all that |
| BehaviourGraph.StepKeyInjective | backend/app/ai_engine/gnn_profiler.py:180 | a chain node's name determines session and step |
| GraphPaths.GraphConnected | backend/app/ai_engine/gnn_profiler.py:55-205 | every node is joined to the root by an undirected path |
| GraphPaths.SessionChain | backend/app/ai_engine/gnn_profiler.py:178-186 | a session's commands form one chain in event order: the i-th node carries number i and the i-th command, one edge enters it and at most one leaves it, to the next |
| GraphMeaning.EdgesIff | backend/app/ai_engine/gnn_profiler.py:55-186 | an edge runs between two named nodes exactly when some event asks for it: a sensor event for its address, port, command and file, a sandbox event for its session, destination or next step |
| GraphMeaning.NodesCaptioned | backend/app/ai_engine/gnn_profiler.py:36-41 | the caption of every node, cut at 25 characters, is what its name stands for: service, address, session, destination, command, file |
| GraphMeaning.DestinationMeans | backend/app/ai_engine/gnn_profiler.py:162-165 | a connection attempt names its destination after the word, and without one its own address and port |
| GraphMeaning.StepCaptionMeans | backend/app/ai_engine/gnn_profiler.py:178-180 | a chain node is captioned with its number and the first word of its command |
| GraphPaths.Handshake | backend/app/ai_engine/gnn_profiler.py:212-215 | degrees sum to twice the number of edges |
| GraphPaths.GraphDegrees | backend/app/ai_engine/gnn_profiler.py:212-215 | in every built graph; and no node but a lone root has degree zero |
| GraphProfiler.TemporalGNNProfiler.constructor | backend/app/ai_engine/gnn_profiler.py:18-33 | the events are a stable sort of the input by time |
| GraphProfiler.TemporalGNNProfiler.AddNode | backend/app/ai_engine/gnn_profiler.py:36-41 | the node of that name, created if new |
| GraphProfiler.TemporalGNNProfiler.AddEdge | backend/app/ai_engine/gnn_profiler.py:43-53 | no loop and no duplicate is added |
| GraphProfiler.TemporalGNNProfiler.IngestShellEvent | backend/app/ai_engine/gnn_profiler.py:151-186 | a sandbox event adds exactly its links and advances its session's chain |
| GraphProfiler.TemporalGNNProfiler.IngestSensorEvent | backend/app/ai_engine/gnn_profiler.py:71-118 | a sensor event adds exactly its links |
| GraphProfiler.TemporalGNNProfiler.ConstructTemporalGraph | backend/app/ai_engine/gnn_profiler.py:55-149 | the whole construction yields the graph of the sorted events |
| GraphProfiler.TemporalGNNProfiler.NodeDegrees | backend/app/ai_engine/gnn_profiler.py:212-216 | the degree of every node, and the largest |
| Classifier.RunVerdictIsFullVerdict | backend/ai_engine/classifier.py:27-68 | on every run with a monotone clock the behavioural verdict from the pruned history is the one from the full history |
| Classifier.VerdictAnswers | backend/ai_engine/classifier.py:37-68 | the verdict on the full record, counted over the calls themselves: exactly when it is DDOS, NMAP_SCAN, BRUTE_FORCE or none |
| Classifier.HistoryIsPruned | backend/ai_engine/classifier.py:27-35 | a source's history is always its full record seen through the window of its last clean-up |
| Classifier.PruningInvisible | backend/ai_engine/classifier.py:37-68 | all three windows give the same answer on the pruned and the full record, at any time no earlier than the clean-up |
| Classifier.UnderstatedIff | backend/ai_engine/classifier.py:107-109 | exactly which combinations make the report name a less severe attack than one it detected |
| Classifier.MatchSignatures | backend/ai_engine/classifier.py:79-87 | the signatures that hit, in order, and the severity of the last |
| Classifier.AIEngine.CleanupHistory | backend/ai_engine/classifier.py:27-35 | records a minute old are gone, an empty history is deleted |
| Classifier.AIEngine.DetectBehavioral | backend/ai_engine/classifier.py:37-68 | the verdict of the three windows, first match first, and so the answer the calls of the source ask for |
| Classifier.AIEngine.Observe | backend/ai_engine/classifier.py:90-98 | the stateful half: the verdict is that of the full history |
| Classifier.AIEngine.AnalyzeLog | backend/ai_engine/classifier.py:70-123 | the report in full, over all calls ever made: DDOS for more than 20 in five seconds, else NMAP_SCAN for six ports in ten seconds, else BRUTE_FORCE for more than five failed logins in a minute, else the last signature that hit, each with its own severity, else NORMAL |
| RateLimit.EveryIntervalLimited | backend/app/services/credential_service.py:97-113 | over every serial run whose rows are stamped at most a slack before their check, every closed interval one slack shorter than an hour holds at most the limit of completed issue and resend operations of one admin |
| RateLimit.EveryHourLimited | backend/app/services/credential_service.py:97-113 | with exact stamps so does every closed hour, wherever it starts |
| RateLimit.TruncationOvershoots | backend/app/services/credential_service.py:97-113 | with stamps cut to whole seconds it does not: two operations under a limit of one |
| RateLimit.ServeKeepsLimit | backend/app/services/credential_service.py:332-340 | one request keeps that |
| RateLimit.RefusedIffBusy | backend/app/services/credential_service.py:332-340 | through the endpoints a check refuses exactly when the limit was completed in the hour before it |
| RateLimit.RefusedIff | backend/app/services/credential_service.py:97-113 | whatever the log holds, a check refuses exactly when it has at least the limit of rows of the admin from the last hour, issues, password resets and resends, refusals included |
| RateLimit.BurstCompletes | backend/app/services/credential_service.py:332-340 | of a burst exactly as many complete as the limit allows |
| RateLimit.CredentialService.RateLimitCheck | backend/app/services/credential_service.py:97-113 | the count of the admin's rows of the last hour against the limit |
| RateLimit.CredentialService.IssueCredentials | backend/app/services/credential_service.py:312-469 | a refusal, an invalid input and a success, and the row each leaves |
| RateLimit.CredentialService.ResendCredentials | backend/app/services/credential_service.py:507-571 | the same for a resend |
| LiveStream.RunKeeps | frontend/js/live.js:38-86 | in every interleaving: one open stream at most, one pending timer at most, never idle again, live only with an open stream, delays min(1000*2^n, 15000) |
| LiveStream.RunFromStart | frontend/js/live.js:13-86 | the same from page load, in counts |
| LiveStream.StepKeeps | frontend/js/live.js:38-86 | each event of the page, timer, fetch or stream keeps it |
| LiveStream.DelayDoubles | frontend/js/live.js:38-43 | doubling under the cap is the closed form of the delay |
| LiveStream.ErrorClosesItsStream | frontend/js/live.js:82-85 | the handler closes the stream that failed, and one retry is pending |
| LiveStream.LiveClient.ScheduleReconnect | frontend/js/live.js:38-43 | the old timer is cleared, one new timer is pending, the delay doubles up to the cap |
| LiveStream.LiveClient.BeginConnect | frontend/js/live.js:45-51 | nothing while fetching or streaming, signed out without a token, else a fetch |
| LiveStream.LiveClient.EndConnect | frontend/js/live.js:52-71 | the three answers to the ticket request |
| LiveStream.LiveClient.OnReady | frontend/js/live.js:72-76 | the delay resets |
| LiveStream.LiveClient.OnError | frontend/js/live.js:82-85 | close and retry |
| Timestamps.IsoOrder | backend/app/services/timeline_builder.py:28-33 | printed timestamps, with or without a fraction, compare as strings exactly like the instants they name |
| Timestamps.EarlierIsBefore | backend/app/services/timeline_builder.py:28-33 | comparing datetimes field by field compares the instants, leap years and month lengths included |
| Timestamps.DaysInClosedForm | backend/app/services/timeline_builder.py:28-33 | the days before a year are 365 a year and one for each leap year of the Gregorian calendar |
| Timestamps.IsoFields | backend/app/services/timeline_builder.py:28-33 | the printed fields stand at fixed places in decimal, with a fraction of six digits exactly when there are microseconds |
| Timeline.TimelineChronological | backend/app/services/timeline_builder.py:180 | the built timeline is in time order although the sort compares strings |
| Timeline.TimelineContents | backend/app/services/timeline_builder.py:67-115 | no reference twice; an entry for every existing linked event, for unlinked events of the window only, and for every detection |
| Timeline.LinkedEventEntry | backend/app/services/timeline_builder.py:60-81 | a stored event with a link has exactly one entry, at its own time, with the reason of its last link or "linked to incident" |
| Timeline.UnlinkedEventEntry | backend/app/services/timeline_builder.py:82-103 | an event without a link has exactly one entry when it is in the window and none otherwise |
| Timeline.WindowIs | backend/app/services/timeline_builder.py:64-93 | the window holds events of the incident's sources from five minutes before to five after it, all up to 400, else the earliest 400 |
| Timeline.DetectionHasEntry | backend/app/services/timeline_builder.py:105-115 | a detection has exactly one entry, at its last event or else its creation, with its own reason or "rule … fired" |
| Timeline.CollectLinked | backend/app/services/timeline_builder.py:67-81 | the linked rows as entries, and the set of their ids |
| Timeline.CollectOther | backend/app/services/timeline_builder.py:82-103 | the rows around the incident that were not seen |
| Timeline.CollectDetections | backend/app/services/timeline_builder.py:105-115 | the detections as entries |
| Timeline.BuildTimeline | backend/app/services/timeline_builder.py:53-181 | the whole builder yields the sorted timeline of linked events, surrounding events, detections and the entries found elsewhere |
| Timeline.OthersDoNotDisturb | backend/app/services/timeline_builder.py:117-181 | whatever the malware reports and searches add, the other entries are those of the timeline without them, in the same order |
| Framing.Send | backend/app/services/av_scanner.py:37-51 | the loop terminates, sends the command, the frames of the first 64 MiB and the terminator, and reports an error exactly for longer files |
| Framing.RoundTrip | backend/app/services/av_scanner.py:40-51 | decoding the frames of any data gives the data back, whatever follows |
| Framing.NoEarlyEnd | backend/app/services/av_scanner.py:51 | no proper prefix of the stream decodes |
| Framing.ScannerSees | backend/app/services/av_scanner.py:39-51 | the scanner decodes the file exactly if it is at most 64 MiB, else exactly its first 64 MiB |
| Framing.LengthFaithful | backend/app/services/av_scanner.py:50 | the four big-endian bytes give the length back |
| Framing.WireStarts | backend/app/services/av_scanner.py:37-51 | the wire begins with zINSTREAM and a zero, and the first frame carries as much of the file as fits into 64 KiB |
| Timeframe.RoundTripIff | backend/app/services/detection_rules.py:59-66 | parsing the printed form gives a duration back exactly when it is a whole, non-negative number of seconds |
| Timeframe.LargestUnit | backend/app/services/detection_rules.py:166-171 | the printed unit divides the seconds and is the largest that does |
| Timeframe.HumanInjective | backend/app/services/detection_rules.py:166-171 | durations that print alike agree in whole seconds |
| Timeframe.ParseWritten | backend/app/services/detection_rules.py:59-66 | digits, optional space and a unit letter of either case, with space around, are understood as written |
| Timeframe.ParseElse | backend/app/services/detection_rules.py:59-66 | anything not written so is ten minutes |

## Left out

- Iocs.UpsertIocs: the row keeps indicator, hit count and last-seen time; `first_seen`, the stored event ids with their cap of 200 and the sensor context are not modelled, and the returned per-source map is recomputed where it is used.
- Detector.DetectionEngine.RunCycle: does not model `_update_sessions`, which writes `attacker_sessions` in the same transaction.
- Timeline.BuildTimeline: which malware reports and searches yield entries is not modelled; their entries are a parameter, and their timestamps come from elsewhere.
- One clock reading serves a whole detection cycle, and one serves each request step; the code reads the clock again in each rule and each correlation.
- Event timestamps that are missing in the detection and session engines, where the code substitutes the current time.
- Every writer of `attacker_sessions` besides the session job.
- The regular expressions of the IOC extractor, the classifier and the rule conditions; only which events they select matters to the proofs.
- Incident keys, titles, activity rows, risk breakdowns and evidence attachments.
- Database collation: strings compare exactly; column lengths, DATETIME precision and overflow of `timedelta` and `int`.
- The order in which a Python set of sources is walked: the model takes order of first appearance.
- Floating-point rounding: scores are exact reals, rounded to even as `round` does.
- Validation, titles, assignees, notes and audit rows of the incident API; the list of source addresses an incident shows beside the one it is correlated by; a request that fails half-way.
- The data reset (`backend/app/services/data_admin.py:54-60`): no run of the model contains one.
- Asynchronous cancellation of a publish, and the iterator `subscribe`.
- Node colours, shapes, sizes, MITRE sets, terminal logs and the networkx measures of the behaviour graph; JSON parsing of payloads; white space and digits beyond ASCII.
- Tokens, notifications and audit rows of the credential service, and concurrent requests, under which the check and the row it guards are not atomic.
- Listeners, payload parsing and status events of the live connection.
- The reply of the scanner, connection failures, and files that change while they are read.
- Docker, cloud, mail and messaging calls, the collector and normalizer, and all other user-interface code.
