/** Runs that show where a promise stops holding: reachable states in which two
    incidents touch, and in which the same events processed again add rows. */
module Witness {
  import opened Collections
  import opened Model
  import opened Rules
  import opened Iocs
  import opened Scoring
  import opened Correlation
  import opened Engine
  import opened Replay
  import opened Cursor
  import opened Safety
  import opened Analyst
  import opened Runs
  import opened Consumption
  import opened Later
  import opened ThresholdReplay

  // ── A cycle without rules over one source's high-risk events ─────────────

  ghost predicate AllAlarms(batch: seq<Event>, ip: string) {
    forall k | 0 <= k < |batch| :: batch[k].sourceIp == ip && EventRisk(batch[k]) >= 80.0
  }

  lemma DedupNothing()
    ensures HighRiskIps([]) == [] && Dedup<string>([]) == []
  {
  }

  lemma {:induction false} AlarmSources(batch: seq<Event>, ip: string)
    requires batch != [] && AllAlarms(batch, ip)
    ensures Dedup(HighRiskIps(batch)) == [ip]
  {
    hide EventRisk, Dedup;
    var rest := batch[..|batch| - 1];
    assert HighRiskIps(batch) == HighRiskIps(rest) + [ip];
    DedupSnoc(HighRiskIps(rest), ip);
    if rest == [] {
      DedupNothing();
    } else {
      AlarmSources(rest, ip);
    }
  }

  lemma NoRules(t: Tables, log: seq<Event>, now: int, batch: seq<Event>)
    requires batch == NextBatch(log, CursorOf(t, now))
    ensures PlanOf(t, log, [], now) == Plan(batch, [], [])
  {
    hide NextBatch, WindowOf, KeysOf;
  }

  lemma NothingRaised(t: Tables, batch: seq<Event>)
    ensures Raised(t, Plan(batch, [], [])) == t.(iocs := Upserted(t.iocs, batch))
  {
    hide Upserted, KeysOf;
  }

  lemma CorrelatesOne(t: Tables, now: int, r: Reading, base: nat, novel: seq<Candidate>, ip: string)
    requires Ready(t, base, novel) && RowsExist(t, InputFor(r, base, novel, ip))
    ensures CorrelateAll(t, now, r, base, novel, [ip]) == Correlate(t, now, ip, InputFor(r, base, novel, ip))
  {
    hide InputFor, Correlate;
    assert [ip][..0] == [];
    assert CorrelateAll(t, now, r, base, novel, []) == t;
  }

  lemma OneSource(ip: string)
    requires ip != ""
    ensures Filter([ip], NonEmpty()) == [ip]
  {
    assert [ip][..0] == [];
  }

  lemma OnlySource(batch: seq<Event>, ip: string)
    requires batch != [] && AllAlarms(batch, ip) && ip != ""
    ensures Sources([], batch) == [ip]
  {
    hide EventRisk, Filter;
    AlarmSources(batch, ip);
    assert IpsOf([]) + HighRiskIps(batch) == HighRiskIps(batch);
    OneSource(ip);
  }

  /** Without rules a cycle over such a batch is one correlation. */
  lemma AlarmCycle(t: Tables, log: seq<Event>, now: int, reports: set<string>, batch: seq<Event>, ip: string,
                   t0: Tables, a: Input)
    requires batch == NextBatch(log, CursorOf(t, now)) && batch != [] && AllAlarms(batch, ip) && ip != ""
    requires t0 == t.(iocs := Upserted(t.iocs, batch))
    requires a == InputFor(Reading(log, batch, reports), |t.detections|, [], ip)
    ensures RowsExist(t0, a)
    ensures Cycle(t, log, [], now, reports) == Some(Correlate(t0, now, ip, a).(cursor := Some(LatestIngest(batch))))
  {
    hide EventRisk, InputFor, Correlate, CorrelateAll, Upserted, NextBatch, LatestIngest, PlanOf, Raised, Filter, KeysOf,
      Cycle, Sources;
    NoRules(t, log, now, batch);
    NothingRaised(t, batch);
    OnlySource(batch, ip);
    CycleAlwaysCommits(t, log, [], now, reports);
    var p, t', u := CycleParts(t, log, [], now, reports, Cycle(t, log, [], now, reports).value);
    InputRows(Reading(log, batch, reports), |t.detections|, [], ip, t0);
    CorrelatesOne(t0, now, Reading(log, batch, reports), |t.detections|, [], ip);
  }

  // ── When two incidents touch ─────────────────────────────────────────────

  /** A new incident begins at the instant an earlier one of its source ends
      exactly when a closed incident of the source was seen at this very instant
      and none is live. */
  lemma TouchIff(t: Tables, now: int, ip: string, a: Input)
    requires RowsExist(t, a) && !Skips(a)
    ensures var n := |t.incidents|; var incs := Correlate(t, now, ip, a).incidents;
      (|incs| > n && exists j :: 0 <= j < n && t.incidents[j].source == ip && t.incidents[j].lastSeen == incs[n].firstSeen)
      <==>
      && (exists j :: 0 <= j < n && t.incidents[j].source == ip && !IsOpen(t.incidents[j].status)
                      && t.incidents[j].lastSeen == now)
      && (forall j | 0 <= j < n :: !Live(t.incidents[j], ip, now))
  {
    hide Merged, UsersOf, SensorsOf, TechniquesOf, ReasonsOf, IncidentSeverity, IncidentConfidence, IncidentRisk,
      NewEventLinks, NewIocLinks, Filter, Assign, At;
    SelectChosen(t.incidents, ip, now);
  }

  // ── Small logs ───────────────────────────────────────────────────────────

  /** A high-risk event of source "x". */
  function Alarm(id: string, at: int): Event {
    Event(id, at, at, "x", "", "", "", "HIGH", [], map[])
  }

  /** An empty database with the cursor at 0. */
  const EMPTY_WORLD := World(Tables(Some(0), [], [], [], [], []), [], 0, Some(0), [])

  lemma PendingOne(e: Event, cursor: int)
    ensures Pending([e], cursor) == if e.ingestedAt > cursor then [e] else []
    ensures NextBatch([e], cursor) == Pending([e], cursor)
  {
    assert [e][..0] == [];
    BatchIsHead([e], cursor);
  }

  lemma PendingTwo(e: Event, f: Event, cursor: int)
    requires e.ingestedAt <= f.ingestedAt
    ensures Pending([e, f], cursor) == Pending([e], cursor) + Pending([f], cursor)
    ensures NextBatch([e, f], cursor) == Pending([e, f], cursor)
  {
    hide Filter, NextBatch;
    FilterConcat([e], [f], After(cursor));
    assert [e] + [f] == [e, f];
    PendingOne(e, cursor);
    PendingOne(f, cursor);
    BatchIsHead([e, f], cursor);
    assert |Pending([e, f], cursor)| <= 2;
  }

  /** What alarms offer: themselves, and enough risk not to be skipped. */
  lemma AlarmInput(log: seq<Event>, batch: seq<Event>, base: nat, a: Input)
    requires a == InputFor(Reading(log, batch, {}), base, [], "x") && batch != [] && AllAlarms(batch, "x")
    ensures !Skips(a) && a.maxRisk >= 80.0
    ensures forall k | 0 <= k < |a.evidence| :: a.evidence[k].event in batch
    ensures forall e | e in batch :: Offered(a.evidence, e.id)
  {
    hide EventRisk, AddHighRisk, Dedup, AllIocs, MalwareLinked, MaxRisk;
    FilterAll(batch, FromSource("x"));
    hide Filter;
    assert EvidenceFor([], "x") == [];
    EvidenceIs(batch, AddHighRisk([], batch));
    MaxRiskBounds(batch, batch[0]);
  }

  /** A cycle over one alarm. */
  lemma OneAlarm(t: Tables, log: seq<Event>, now: int, e: Event, t0: Tables, a: Input)
    requires NextBatch(log, CursorOf(t, now)) == [e] && e.sourceIp == "x" && e.severity == "HIGH"
    requires t0 == t.(iocs := Upserted(t.iocs, [e]))
    requires a == InputFor(Reading(log, [e], {}), |t.detections|, [], "x")
    ensures RowsExist(t0, a) && !Skips(a) && a.maxRisk >= 80.0
    ensures Cycle(t, log, [], now, {}) == Some(Correlate(t0, now, "x", a).(cursor := Some(e.ingestedAt)))
    ensures forall k | 0 <= k < |a.evidence| :: a.evidence[k].event == e
  {
    hide NextBatch, Upserted, Correlate, InputFor, Cycle;
    assert EventRisk(e) == 80.0;
    AlarmCycle(t, log, now, {}, [e], "x", t0, a);
    AlarmInput(log, [e], |t.detections|, a);
  }

  lemma {:induction false} NewLinkIds(links: seq<EventLink>, i: nat, ev: seq<Evidence>, id: string)
    requires forall k | 0 <= k < |ev| :: ev[k].event.id == id
    ensures forall k | 0 <= k < |NewEventLinks(links, i, ev)| :: NewEventLinks(links, i, ev)[k] == EventLink(i, id, NewEventLinks(links, i, ev)[k].reason)
  {
    hide EventLinked;
    if ev == [] {
    } else {
      NewLinkIds(links, i, ev[..|ev| - 1], id);
    }
  }

  // ── Two incidents that touch ─────────────────────────────────────────────

  /** What a cycle over one alarm does when its source has no live incident. */
  lemma OpensOne(t: Tables, now: int, e: Event, t0: Tables, a: Input, t': Tables)
    requires t0 == t.(iocs := Upserted(t.iocs, [e])) && RowsExist(t0, a) && !Skips(a) && a.maxRisk >= 80.0
    requires Select(t.incidents, "x", now) == None
    requires forall k | 0 <= k < |a.evidence| :: a.evidence[k].event == e
    requires t' == Correlate(t0, now, "x", a).(cursor := Some(e.ingestedAt))
    ensures var n := |t.incidents|;
      && |t'.incidents| == n + 1 && t'.incidents[..n] == t.incidents
      && t'.incidents[n].source == "x" && t'.incidents[n].status == NEW && t'.incidents[n].severity == CRITICAL
      && t'.incidents[n].firstSeen == now == t'.incidents[n].lastSeen
    ensures |t'.detections| == |t.detections| && t'.cursor == Some(e.ingestedAt)
    ensures t'.eventLinks == t.eventLinks + NewEventLinks(t.eventLinks, |t.incidents|, a.evidence)
  {
    hide Upserted, NewEventLinks, NewIocLinks, Filter, Scored;
    var i, inc := TargetRow(t0, now, "x", a);
  }

  /** A tick over one alarm whose source has no live incident: a new incident,
      linked to that alarm only. */
  lemma AlarmTick(w: World, now: int, e: Event) returns (t: Tables)
    requires w.tables.cursor.Some? && w.start.Some? && NextBatch(w.log, w.tables.cursor.value) == [e]
    requires e.sourceIp == "x" && e.severity == "HIGH" && Select(w.tables.incidents, "x", now) == None
    ensures Act(w, Tick(now, {}, [])) == World(t, w.log, now, w.start, w.consumed + [e])
    ensures var n := |w.tables.incidents|;
      && |t.incidents| == n + 1 && t.incidents[..n] == w.tables.incidents
      && t.incidents[n].source == "x" && t.incidents[n].status == NEW && t.incidents[n].severity == CRITICAL
      && t.incidents[n].firstSeen == now == t.incidents[n].lastSeen
    ensures t.cursor == Some(e.ingestedAt) && |t.detections| == |w.tables.detections| && w.tables.eventLinks <= t.eventLinks
    ensures forall k | |w.tables.eventLinks| <= k < |t.eventLinks| ::
      t.eventLinks[k].incident == |w.tables.incidents| && t.eventLinks[k].eventId == e.id
  {
    hide Cycle, Correlate, NextBatch, Upserted, InputFor, Filter, NewEventLinks, Select;
    var t0 := w.tables.(iocs := Upserted(w.tables.iocs, [e]));
    var a := InputFor(Reading(w.log, [e], {}), |w.tables.detections|, [], "x");
    OneAlarm(w.tables, w.log, now, e, t0, a);
    t := Cycle(w.tables, w.log, [], now, {}).value;
    OpensOne(w.tables, now, e, t0, a, t);
    NewLinkIds(w.tables.eventLinks, |w.tables.incidents|, a.evidence, e.id);
  }

  /** The first alarm, its incident closed at once, the second alarm: two cycles
      at the same clock reading. */
  function TouchRun(): seq<Action> {
    [Ingest([Alarm("1", 1)]), Tick(100, {}, []), Handle(100, SetStatus(0, RESOLVED)), Ingest([Alarm("2", 2)]), Tick(100, {}, [])]
  }

  lemma NoneLive(incs: seq<Incident>, now: int)
    requires forall k | 0 <= k < |incs| :: !IsOpen(incs[k].status)
    ensures Select(incs, "x", now) == None
  {
  }

  lemma FiveSteps(w: World, actions: seq<Action>)
    requires |actions| == 5
    ensures Run(w, actions) == Act(Act(Act(Act(Act(w, actions[0]), actions[1]), actions[2]), actions[3]), actions[4])
  {
    hide Act;
    var w1 := Act(w, actions[0]);
    var w2 := Act(w1, actions[1]);
    var w3 := Act(w2, actions[2]);
    var w4 := Act(w3, actions[3]);
    assert Run(w4, actions[4..]) == Act(w4, actions[4]);
    assert actions[3..][1..] == actions[4..] && actions[2..][1..] == actions[3..] && actions[1..][1..] == actions[2..];
    assert Run(w3, actions[3..]) == Run(w4, actions[4..]);
    assert Run(w2, actions[2..]) == Run(w3, actions[3..]);
    assert Run(w1, actions[1..]) == Run(w2, actions[2..]);
  }

  lemma OrderlyFive(w: World, actions: seq<Action>)
    requires |actions| == 5
    requires var w1 := Act(w, actions[0]); var w2 := Act(w1, actions[1]); var w3 := Act(w2, actions[2]);
      var w4 := Act(w3, actions[3]);
      Orderly(w, actions[0]) && Orderly(w1, actions[1]) && Orderly(w2, actions[2]) && Orderly(w3, actions[3])
      && Orderly(w4, actions[4])
    ensures OrderlyRun(w, actions)
  {
    hide Act, Orderly;
    var w1 := Act(w, actions[0]);
    var w2 := Act(w1, actions[1]);
    var w3 := Act(w2, actions[2]);
    var w4 := Act(w3, actions[3]);
    assert OrderlyRun(w4, actions[4..]);
    assert actions[3..][1..] == actions[4..] && actions[2..][1..] == actions[3..] && actions[1..][1..] == actions[2..];
    assert OrderlyRun(w3, actions[3..]);
    assert OrderlyRun(w2, actions[2..]);
    assert OrderlyRun(w1, actions[1..]);
  }

  /** Closing the one incident the first cycle opened is benign. */
  lemma ClosingIsBenign(w1: World, w2: World)
    requires w1 == Act(EMPTY_WORLD, Ingest([Alarm("1", 1)])) && w2 == Act(w1, Tick(100, {}, []))
    requires |w2.tables.incidents| == 1
    ensures Benign(w2.tables, w2.log, 100, SetStatus(0, RESOLVED))
  {
    hide Cycle, Benign, TablesSound, IncidentsOrdered, LinksCovered, LinksOwned, Exact;
    FreshIsSafe(EMPTY_WORLD, []);
    StepSafe(EMPTY_WORLD, Ingest([Alarm("1", 1)]), []);
    StepSafe(w1, Tick(100, {}, []), []);
    SoundIsOwned(w2.tables, []);
    StatusIff(w2.tables, w2.log, 100, 0, RESOLVED, LOW);
  }

  /** Where that run ends. */
  lemma TouchCycles() returns (t: Tables)
    ensures Run(EMPTY_WORLD, TouchRun())
      == World(t, [Alarm("1", 1), Alarm("2", 2)], 100, Some(0), [Alarm("1", 1), Alarm("2", 2)])
    ensures OrderlyRun(EMPTY_WORLD, TouchRun())
    ensures |t.incidents| == 2
    ensures t.incidents[0].source == "x" && t.incidents[0].lastSeen == 100 && t.incidents[0].status == RESOLVED
    ensures t.incidents[1].source == "x" && t.incidents[1].firstSeen == 100 == t.incidents[1].lastSeen
    ensures t.incidents[1].status == NEW && t.cursor == Some(2)
    ensures !EventLinked(t.eventLinks, 1, "1")
  {
    hide Cycle, NextBatch, Filter, Select, Run, OrderlyRun, Benign, EventRisk;
    var e, f := Alarm("1", 1), Alarm("2", 2);
    var w0 := EMPTY_WORLD;
    var w1 := Act(w0, Ingest([e]));
    assert w1.log == [e];
    PendingOne(e, 0);
    NoneLive(w1.tables.incidents, 100);
    var t1 := AlarmTick(w1, 100, e);
    var w2 := Act(w1, Tick(100, {}, []));
    assert w2 == World(t1, [e], 100, Some(0), [e]);
    var t1' := Apply(t1, [e], 100, SetStatus(0, RESOLVED));
    assert t1'.incidents == [t1.incidents[0].(status := RESOLVED)];
    var w3 := World(t1', [e], 100, Some(0), [e]);
    var w4 := World(t1', [e, f], 100, Some(0), [e]);
    assert Act(w2, Handle(100, SetStatus(0, RESOLVED))) == w3;
    assert [e] + [f] == [e, f] && Act(w3, Ingest([f])) == w4;
    PendingTwo(e, f, 1);
    PendingOne(e, 1);
    PendingOne(f, 1);
    NoneLive(t1'.incidents, 100);
    t := AlarmTick(w4, 100, f);
    ClosingIsBenign(w1, w2);
    assert t.incidents[0] == t.incidents[..1][0];
    FiveSteps(w0, TouchRun());
    OrderlyFive(w0, TouchRun());
  }

  /** Intervals can touch: on an orderly run from an empty database the second
      incident of a source begins at the very instant the first ends. */
  lemma IncidentsTouch()
    ensures OrderlyRun(EMPTY_WORLD, TouchRun())
    ensures var incs := Run(EMPTY_WORLD, TouchRun()).tables.incidents;
      |incs| == 2 && incs[0].source == incs[1].source && incs[0].lastSeen == incs[1].firstSeen
  {
    hide Run, TouchRun;
    var t2 := TouchCycles();
  }

  lemma SecondLive(incs: seq<Incident>)
    requires |incs| == 2 && incs[0].status == RESOLVED
    requires incs[1].source == "x" && incs[1].status == NEW && incs[1].lastSeen == 100
    ensures Select(incs, "x", 100) == Some(1)
  {
    assert Select(incs[..1][..0], "x", 100) == None;
    assert Select(incs[..1], "x", 100) == None;
  }

  lemma NotLinkedYet(t: Tables, a: Input, i: nat)
    requires Offered(a.evidence, "1") && !EventLinked(t.eventLinks, i, "1")
    ensures NewEventLinks(t.eventLinks, i, a.evidence) != []
  {
    hide EventLinked, NewEventLinks;
    NoNewEventLinksIff(t.eventLinks, i, a.evidence);
  }

  lemma LinksAdded(t: Tables, now: int, ip: string, a: Input, i: nat)
    requires RowsExist(t, a) && !Skips(a) && Select(t.incidents, ip, now) == Some(i)
    requires NewEventLinks(t.eventLinks, i, a.evidence) != []
    ensures var t' := Correlate(t, now, ip, a);
      |t'.incidents| == |t.incidents| && |t'.detections| == |t.detections| && |t'.eventLinks| > |t.eventLinks|
  {
    hide Scored, Merged, NewEventLinks, NewIocLinks, Filter, At;
  }

  /** Re-processing can link an event to a second incident: after that run, with
      the cursor put back to where it started, the same two events are read again
      and the first, whose incident was closed, is linked to the other one. */
  lemma RewoundCycleLinks()
    ensures var w := Run(EMPTY_WORLD, TouchRun()); var again := Cycle(w.tables.(cursor := Some(0)), w.log, [], 100, {});
      && again.Some?
      && |again.value.incidents| == |w.tables.incidents| && |again.value.detections| == |w.tables.detections|
      && |again.value.eventLinks| > |w.tables.eventLinks|
  {
    hide Run, TouchRun, Cycle, Correlate, NextBatch, Upserted, InputFor, Filter, EventLinked, Offered;
    var t2 := TouchCycles();
    var e, f := Alarm("1", 1), Alarm("2", 2);
    var back := t2.(cursor := Some(0));
    PendingTwo(e, f, 0);
    PendingOne(e, 0);
    PendingOne(f, 0);
    var batch := [e, f];
    assert NextBatch([e, f], 0) == batch;
    assert EventRisk(e) == 80.0 && EventRisk(f) == 80.0;
    var a := InputFor(Reading([e, f], batch, {}), |back.detections|, [], "x");
    var v := back.(iocs := Upserted(back.iocs, batch));
    AlarmCycle(back, [e, f], 100, {}, batch, "x", v, a);
    AlarmInput([e, f], batch, |back.detections|, a);
    SecondLive(back.incidents);
    NotLinkedYet(v, a, 1);
    LinksAdded(v, 100, "x", a, 1);
  }

  // ── A commit stamped with the cursor's own time ──────────────────────────

  function LateRun(): seq<Action> {
    [Ingest([Alarm("1", 7)]), Tick(100, {}, []), Ingest([Alarm("2", 7)]), Tick(200, {}, []), Tick(300, {}, [])]
  }

  /** Ingest times never decrease and no batch is ever full, yet the second event
      is never read: it was committed with the time the cursor already had. */
  lemma LateArrivalLost()
    ensures var w := Run(EMPTY_WORLD, LateRun());
      && w.log == [Alarm("1", 7), Alarm("2", 7)] && w.consumed == [Alarm("1", 7)] && w.tables.cursor == Some(7)
      && Pending(w.log, 7) == [] && !Accounted(w)
  {
    hide Cycle, NextBatch, Filter, Select, Run, EventRisk, Benign, Apply;
    var e, f := Alarm("1", 7), Alarm("2", 7);
    var w0 := EMPTY_WORLD;
    var w1 := Act(w0, Ingest([e]));
    assert w1.log == [e];
    PendingOne(e, 0);
    NoneLive(w1.tables.incidents, 100);
    var t1 := AlarmTick(w1, 100, e);
    var w2 := Act(w1, Tick(100, {}, []));
    assert w2 == World(t1, [e], 100, Some(0), [e]);
    var w3 := World(t1, [e, f], 100, Some(0), [e]);
    assert [e] + [f] == [e, f] && Act(w2, Ingest([f])) == w3;
    PendingTwo(e, f, 7);
    PendingOne(e, 7);
    PendingOne(f, 7);
    EmptyCycle(t1, [e, f], [], 200, {});
    EmptyCycle(t1, [e, f], [], 300, {});
    assert [e] + NextBatch([e, f], 7) == [e];
    assert Act(w3, Tick(200, {}, [])) == w3.(clock := 200);
    assert Act(w3.(clock := 200), Tick(300, {}, [])) == w3.(clock := 300);
    PendingTwo(e, f, 0);
    PendingOne(f, 0);
    FiveSteps(w0, LateRun());
    assert |multiset([e, f])| == 2;
  }

  // ── A severity that falls ────────────────────────────────────────────────

  lemma {:induction false} TopRankBelow(ds: seq<Detection>, r: int)
    requires r >= 1
    ensures TopRank(ds) < r <==> forall d | d in ds :: Rank(d.severity) < r
  {
    if ds == [] {
    } else {
      TopRankBelow(ds[..|ds| - 1], r);
      assert ds == ds[..|ds| - 1] + [ds[|ds| - 1]];
    }
  }

  lemma LowerIff(ds: seq<Detection>, linked: seq<Detection>, r: int, i: nat)
    requires forall d :: d in linked <==> d in ds && d.incident == Some(i)
    ensures (forall d | d in linked :: Rank(d.severity) < r)
      <==> forall k | 0 <= k < |ds| && ds[k].incident == Some(i) :: Rank(ds[k].severity) < r
  {
    if forall d | d in linked :: Rank(d.severity) < r {
      forall k | 0 <= k < |ds| && ds[k].incident == Some(i)
        ensures Rank(ds[k].severity) < r
      {
        assert ds[k] in linked;
      }
    }
  }

  lemma AssignedRows(t: Tables, now: int, ip: string, a: Input, i: nat)
    requires RowsExist(t, a) && !Skips(a) && Select(t.incidents, ip, now) == Some(i)
    ensures var ds := Correlate(t, now, ip, a).detections;
      && |ds| == |t.detections|
      && forall k | 0 <= k < |ds| ::
        && ds[k].severity == t.detections[k].severity
        && (ds[k].incident == Some(i) <==> t.detections[k].incident == Some(i) || k in a.rows)
  {
    hide Scored, Merged, NewEventLinks, NewIocLinks, Filter, At;
  }

  /** An update lowers the severity of the incident it finds exactly when that
      severity is above LOW and outranks the new events of the cycle, every
      detection linked before and every detection added. */
  lemma UpdateLowersIff(t: Tables, now: int, ip: string, a: Input, i: nat)
    requires RowsExist(t, a) && !Skips(a) && Select(t.incidents, ip, now) == Some(i)
    ensures var r := Rank(t.incidents[i].severity);
      Rank(Correlate(t, now, ip, a).incidents[i].severity) < r <==>
      && r > 1 && RiskRank(a.maxRisk) < r
      && forall k | 0 <= k < |t.detections| && (t.detections[k].incident == Some(i) || k in a.rows) ::
           Rank(t.detections[k].severity) < r
  {
    hide Correlate, Filter, IncidentConfidence, IncidentRisk, TopRank;
    var j, inc := TargetRow(t, now, ip, a);
    var ds := Correlate(t, now, ip, a).detections;
    var linked := Filter(ds, LinkedTo(i));
    AssignedRows(t, now, ip, a, i);
    TopRankBelow(linked, Rank(t.incidents[i].severity));
    forall d
      ensures d in linked <==> d in ds && d.incident == Some(i)
    {
      FilterIn(ds, LinkedTo(i), d);
    }
    LowerIff(ds, linked, Rank(t.incidents[i].severity), i);
  }

  /** A harmless event of source "x". */
  function Note(id: string, at: int): Event {
    Event(id, at, at, "x", "", "", "", "INFO", [], map[])
  }

  function IsInfo(): Condition {
    (e: Event) => e.severity == "INFO"
  }

  /** A LOW rule that fires on one harmless event. */
  function InfoRule(): Rule {
    Rule("info", LOW, 0.5, None, SourceIp, HOUR, Threshold(1, [IsInfo()]))
  }

  function AlarmThenNote(): seq<Event> {
    [Alarm("1", 1), Note("2", 2)]
  }

  lemma NoteWindow()
    ensures WindowOf(AlarmThenNote(), [Note("2", 2)], 200) == AlarmThenNote()
    ensures GroupNames(InfoRule(), AlarmThenNote()) == ["x"]
    ensures Filter(AlarmThenNote(), InGroup(InfoRule(), "x")) == AlarmThenNote()
    ensures RecentOf(InfoRule(), AlarmThenNote(), 200) == AlarmThenNote()
  {
    var evs, batch := AlarmThenNote(), [Note("2", 2)];
    assert batch[0].sourceIp == "x" && InTimeOrder(evs);
    FilterAll(evs, InWindow(batch, 200 - MAX_LOOKBACK));
    FilterAll(evs, InGroup(InfoRule(), "x"));
    FilterAll(evs, NotBefore(200 - HOUR));
    assert evs[..1][..0] == [];
    assert GroupNames(InfoRule(), evs[..1]) == ["x"];
  }

  lemma NoteDemanded()
    ensures HasNew(AlarmThenNote(), 1) && Demands(InfoRule().matcher, AlarmThenNote())
  {
    var evs, p := AlarmThenNote(), Meets([IsInfo()]);
    assert evs[1].ingestedAt == 2;
    assert [IsInfo()][0](evs[1]) && p(evs[1]);
    FilterIn(evs, p, evs[1]);
  }

  /** The rule reports source "x", and nothing else. */
  lemma NoteCandidate() returns (c: Candidate)
    ensures CandidatesOf([InfoRule()], WindowOf(AlarmThenNote(), [Note("2", 2)], 200), 1, 200) == [c]
    ensures IpOf(c) == "x" && RowOf(c).severity == LOW
  {
    NoteWindow();
    hide CandidateFor, GroupNames, RecentOf, HasNew, Demands, Filter, Key, WindowOf, Sound;
    var rule, evs := InfoRule(), AlarmThenNote();
    var found := CandidateFor(rule, "x", evs, 1, 200);
    NoteDemanded();
    CandidateIff(rule, "x", evs, 1, 200);
    CandidateSound(rule, "x", evs, 1, 200, found);
    c := found.value;
    assert ["x"][..0] == [] && Collect(rule, [], evs, 1, 200) == [];
    assert [rule][..0] == [] && CandidatesOf([], evs, 1, 200) == [];
    assert Evaluate(rule, evs, 1, 200) == [c];
  }

  lemma OnlyLive(incs: seq<Incident>)
    requires |incs| == 1 && incs[0].source == "x" && incs[0].status == NEW && incs[0].lastSeen == 100
    ensures Select(incs, "x", 200) == Some(0)
  {
    assert incs[..0] == [] && Select([], "x", 200) == None;
  }

  lemma NoteSources(c: Candidate)
    requires IpOf(c) == "x"
    ensures Sources([c], [Note("2", 2)]) == ["x"]
  {
    var batch := [Note("2", 2)];
    assert batch[..0] == [] && EventRisk(batch[0]) == 10.0;
    assert HighRiskIps(batch) == [];
    assert IpsOf([c]) == ["x"] && ["x"] + HighRiskIps(batch) == ["x"] && ["x"][..0] == [];
    DedupNothing();
    OneSource("x");
  }

  lemma NoteInput(c: Candidate, r: Reading, a: Input)
    requires IpOf(c) == "x" && r.batch == [Note("2", 2)] && a == InputFor(r, 0, [c], "x")
    ensures a.rows == [0] && a.maxRisk == 10.0
  {
    hide EvidenceFor, AddHighRisk, AllIocs, MalwareLinked, Dedup;
    FilterAll(r.batch, FromSource("x"));
    hide Filter;
    assert [c][..0] == [] && RowsFor(0, [], "x") == [];
    assert r.batch[..0] == [] && EventRisk(r.batch[0]) == 10.0;
    assert MaxRisk(r.batch) == 10.0;
  }

  /** Joined by that one LOW row, the incident is LOW. */
  lemma JoinedByLow(t0: Tables, a: Input, t': Tables)
    requires |t0.incidents| == 1 && |t0.detections| == 1 && t0.detections[0].severity == LOW
    requires Select(t0.incidents, "x", 200) == Some(0)
    requires a.rows == [0] && a.maxRisk == 10.0 && t' == Correlate(t0, 200, "x", a)
    ensures |t'.incidents| == 1 && t'.incidents[0].severity == LOW
  {
    hide Correlate, Filter, TopRank, Select;
    var j, after := TargetRow(t0, 200, "x", a);
    AssignedRows(t0, 200, "x", a, 0);
    var linked := Filter(t'.detections, LinkedTo(0));
    TopRankBelow(linked, 2);
    forall d | d in linked
      ensures Rank(d.severity) < 2
    {
      FilterIn(t'.detections, LinkedTo(0), d);
    }
  }

  lemma InfoRuleNamed()
    ensures WellNamed([InfoRule()]) && Drawn([InfoRule()], [InfoRule()])
  {
    assert SameRecord([InfoRule()][0], [InfoRule()][0]);
  }

  lemma OneNovel(ds: seq<Detection>, c: Candidate, novel: seq<Candidate>)
    requires novel == Filter([c], Unseen(KeysOf(ds))) && forall k | 0 <= k < |ds| :: ds[k].key != c.key
    ensures novel == [c]
  {
    FilterAll([c], Unseen(KeysOf(ds)));
  }

  /** The second cycle: the note raises one LOW detection, which joins the
      incident the alarm opened. */
  lemma NoteCycle(t: Tables) returns (t': Tables)
    requires t.cursor == Some(1) && t.detections == [] && |t.incidents| == 1
    requires t.incidents[0].source == "x" && t.incidents[0].status == NEW && t.incidents[0].lastSeen == 100
    ensures Cycle(t, AlarmThenNote(), [InfoRule()], 200, {}) == Some(t')
    ensures |t'.incidents| == 1 && t'.incidents[0].severity == LOW
  {
    hide Cycle, PlanOf, Raise, CorrelateAll, Sources, Upserted, LatestIngest, Filter, KeysOf, RowOf, NextBatch, WindowOf,
      CandidatesOf, InputFor, Correlate, InfoRule, IpOf, Select;
    var log, rules, note := AlarmThenNote(), [InfoRule()], Note("2", 2);
    PendingTwo(Alarm("1", 1), note, 1);
    PendingOne(Alarm("1", 1), 1);
    PendingOne(note, 1);
    assert [] + [note] == [note];
    var c := NoteCandidate();
    InfoRuleNamed();
    CycleAlwaysCommits(t, log, rules, 200, {});
    var p, t0, u := CycleParts(t, log, rules, 200, {}, Cycle(t, log, rules, 200, {}).value);
    PlanIs(t, log, rules, 200);
    OneNovel(t.detections, c, p.novel);
    RaiseShape(t.detections, KeysOf(t.detections), p.candidates, p.novel, t0.detections);
    assert t0.detections[0 + 0] == RowOf(p.novel[0]);
    var r := Reading(log, p.batch, {});
    NoteSources(c);
    var a := InputFor(r, 0, [c], "x");
    InputRows(r, 0, [c], "x", t0);
    CorrelatesOne(t0, 200, r, 0, [c], "x");
    NoteInput(c, r, a);
    OnlyLive(t0.incidents);
    JoinedByLow(t0, a, u);
    t' := u.(cursor := Some(LatestIngest(p.batch)));
  }

  lemma TwoSteps(w: World, actions: seq<Action>)
    requires |actions| == 2
    ensures Run(w, actions) == Act(Act(w, actions[0]), actions[1])
  {
    hide Act;
    var w1 := Act(w, actions[0]);
    assert actions[1..][1..] == [];
    assert Run(w1, actions[1..]) == Act(w1, actions[1]);
  }

  lemma {:induction false} RunConcat(w: World, a: seq<Action>, b: seq<Action>)
    ensures Run(w, a + b) == Run(Run(w, a), b)
    decreases |a|
  {
    hide Act;
    if a == [] {
      assert a + b == b;
    } else {
      assert (a + b)[1..] == a[1..] + b;
      RunConcat(Act(w, a[0]), a[1..], b);
    }
  }

  lemma OrderlyWithoutEdits(w: World, actions: seq<Action>)
    requires |actions| == 4
    requires actions[0].Ingest? && actions[1].Tick? && actions[2].Ingest? && actions[3].Tick?
    requires w.clock <= actions[1].now <= actions[3].now
    ensures OrderlyRun(w, actions)
  {
    hide Cycle;
    var w1 := Act(w, actions[0]);
    var w2 := Act(w1, actions[1]);
    var w3 := Act(w2, actions[2]);
    assert actions[2..][1..] == actions[3..] && actions[1..][1..] == actions[2..];
    assert OrderlyRun(w3, actions[3..]);
    assert OrderlyRun(w2, actions[2..]);
    assert OrderlyRun(w1, actions[1..]);
  }

  function OpenRun(): seq<Action> {
    [Ingest([Alarm("1", 1)]), Tick(100, {}, [])]
  }

  function FallRun(): seq<Action> {
    [Ingest([Note("2", 2)]), Tick(200, {}, [InfoRule()])]
  }

  lemma NothingLoaded()
    ensures Drawn([], [InfoRule()])
  {
  }

  /** And it happens, on an orderly run from an empty database: a high-risk event
      opens a CRITICAL incident; the next cycle adds a LOW detection of a harmless
      event of the same source, and the incident is LOW. */
  lemma SeverityFalls()
    ensures OrderlyRun(EMPTY_WORLD, OpenRun() + FallRun()) && RulesDrawn(OpenRun() + FallRun(), [InfoRule()])
    ensures var before := Run(EMPTY_WORLD, OpenRun()).tables.incidents;
      var after := Run(EMPTY_WORLD, OpenRun() + FallRun()).tables.incidents;
      |before| == 1 == |after| && before[0].severity == CRITICAL && after[0].severity == LOW
  {
    hide Cycle, NextBatch, Filter, Select, Run, OrderlyRun, EventRisk, Apply, Benign, InfoRule, Drawn;
    var e, f := Alarm("1", 1), Note("2", 2);
    var w0 := EMPTY_WORLD;
    var w1 := Act(w0, Ingest([e]));
    assert w1.log == [e];
    PendingOne(e, 0);
    NoneLive(w1.tables.incidents, 100);
    var t1 := AlarmTick(w1, 100, e);
    var w2 := World(t1, [e], 100, Some(0), [e]);
    TwoSteps(w0, OpenRun());
    RunConcat(w0, OpenRun(), FallRun());
    TwoSteps(w2, FallRun());
    assert [e] + [f] == AlarmThenNote();
    var t2 := NoteCycle(t1);
    OrderlyWithoutEdits(w0, OpenRun() + FallRun());
    InfoRuleNamed();
    NothingLoaded();
  }

  // ── A sequence rule that inserts a second row for the same events ────────

  const PROBED := "10.0.0.9"

  lemma ProbesPending()
    ensures Pending(Probes(), 0) == Probes() && NextBatch(Probes(), 0) == Probes()
  {
    var evs := Probes();
    FilterAll(evs, After(0));
    hide Filter;
    BatchIsHead(evs, 0);
  }

  lemma ProbesFacts()
    ensures |Probes()| == 4 && InTimeOrder(Probes())
    ensures forall k | 0 <= k < 4 :: Probes()[k].sourceIp == PROBED && Probes()[k].timestamp >= 0
  {
  }

  lemma ProbesWindow(now: int)
    requires 0 <= now <= 2 * HOUR
    ensures NextBatch(Probes(), 0) == Probes() && WindowOf(Probes(), Probes(), now) == Probes()
  {
    ProbesPending();
    ProbesFacts();
    hide Filter, NextBatch, Probes, TimeSorted, InTimeOrder;
    var evs := Probes();
    forall k | 0 <= k < |evs|
      ensures InWindow(evs, now - MAX_LOOKBACK)(evs[k])
    {
      assert evs[k].sourceIp == PROBED && evs[k].timestamp >= now - MAX_LOOKBACK;
    }
    FilterAll(evs, InWindow(evs, now - MAX_LOOKBACK));
  }

  lemma ProbesGroup()
    ensures GroupNames(PairRule(), Probes()) == [PROBED]
    ensures Filter(Probes(), InGroup(PairRule(), PROBED)) == Probes()
  {
    hide Filter;
    var evs, rule := Probes(), PairRule();
    FilterAll(evs, InGroup(rule, PROBED));
    assert evs[..3][..2] == evs[..2] && evs[..2][..1] == evs[..1] && evs[..1][..0] == [];
    assert GroupNames(rule, evs[..1]) == [PROBED];
    assert GroupNames(rule, evs[..2]) == [PROBED];
    assert GroupNames(rule, evs[..3]) == [PROBED];
  }

  lemma PairEvaluates(now: int)
    ensures Evaluate(PairRule(), Probes(), 0, now) == ListOf(CandidateFor(PairRule(), PROBED, Probes(), 0, now))
  {
    hide CandidateFor, PairRule, Probes, GroupNames, Filter, InGroup;
    ProbesGroup();
    assert [PROBED][..0] == [];
    assert Collect(PairRule(), [], Probes(), 0, now) == [];
  }

  lemma PairPlan(t: Tables, now: int)
    requires t.cursor == Some(0) && 0 <= now <= 2 * HOUR
    ensures var p := PlanOf(t, Probes(), [PairRule()], now);
      p.batch == Probes() && p.candidates == ListOf(CandidateFor(PairRule(), PROBED, Probes(), 0, now))
  {
    hide CandidateFor, PairRule, Probes, NextBatch, WindowOf, Evaluate, Filter, KeysOf;
    ProbesWindow(now);
    PairEvaluates(now);
    var rules := [PairRule()];
    assert rules[..0] == [];
    assert CandidatesOf([], Probes(), 0, now) == [];
  }

  lemma SomeProbes()
    ensures Probes() != [] && NextBatch(Probes(), 0) == Probes()
  {
    ProbesWindow(0);
  }

  /** A cycle of the one rule over the probes inserts a row for a new key. */
  lemma PairCycle(t: Tables, now: int, c: Candidate) returns (t': Tables)
    requires t.cursor == Some(0) && 0 <= now <= 2 * HOUR
    requires CandidateFor(PairRule(), PROBED, Probes(), 0, now) == Some(c)
    requires forall k | 0 <= k < |t.detections| :: t.detections[k].key != c.key
    ensures Cycle(t, Probes(), [PairRule()], now, {}) == Some(t')
    ensures |t'.detections| == |t.detections| + 1 && t'.detections[|t.detections|].key == c.key
  {
    hide CandidateFor, Probes, Cycle, PlanOf, Raise, CorrelateAll, Sources, Upserted, LatestIngest, Filter, KeysOf, RowOf;
    PairPlan(t, now);
    CycleAlwaysCommits(t, Probes(), [PairRule()], now, {});
    SomeProbes();
    var p, t0, u := CycleParts(t, Probes(), [PairRule()], now, {}, Cycle(t, Probes(), [PairRule()], now, {}).value);
    OneNovel(t.detections, c, p.novel);
    RaiseShape(t.detections, KeysOf(t.detections), p.candidates, p.novel, t0.detections);
    RowKey(c);
    assert t0.detections[|t.detections| + 0] == RowOf(p.novel[0]);
    CorrelateAllKeys(t0, now, Reading(Probes(), p.batch, {}), |t.detections|, p.novel, Sources(p.novel, p.batch), u);
    t' := u.(cursor := Some(LatestIngest(p.batch)));
  }

  /** The promise fails at a later clock: a committed cycle of one sequence rule
      inserts one row; 55 seconds later, the cursor put back, the same rule on the
      same four events inserts another. */
  lemma RewoundCycleDetects() returns (t1: Tables, t2: Tables)
    ensures Cycle(EMPTY_WORLD.tables, Probes(), [PairRule()], 650 * SECOND, {}) == Some(t1)
    ensures Cycle(t1.(cursor := Some(0)), Probes(), [PairRule()], 705 * SECOND, {}) == Some(t2)
    ensures |t1.detections| == 1 && |t2.detections| == 2
  {
    hide CandidateFor, Probes, Cycle, PairRule;
    SequenceLaterNewKey();
    var c := CandidateFor(PairRule(), PROBED, Probes(), 0, 650 * SECOND).value;
    var d := CandidateFor(PairRule(), PROBED, Probes(), 0, 705 * SECOND).value;
    t1 := PairCycle(EMPTY_WORLD.tables, 650 * SECOND, c);
    t2 := PairCycle(t1.(cursor := Some(0)), 705 * SECOND, d);
  }
}
