/** Re-processing later with threshold rules only: no new detection. */
module ThresholdReplay {
  import opened Collections
  import opened Model
  import opened Rules
  import opened Iocs
  import opened Scoring
  import opened Correlation
  import opened Engine
  import opened Replay
  import opened Safety
  import opened Cursor
  import opened Runs
  import Text

  ghost predicate OnlyThresholds(rules: seq<Rule>) {
    forall k | 0 <= k < |rules| :: rules[k].matcher.Threshold?
  }

  /** The window query does not reach its row limit. */
  ghost predicate WholeWindow(log: seq<Event>, batch: seq<Event>, now: int) {
    |Filter(log, InWindow(batch, now - MAX_LOOKBACK))| <= WINDOW_LIMIT
  }

  // ── The later window is the end of the earlier one ───────────────────────

  lemma WindowLater(log: seq<Event>, batch: seq<Event>, now: int, later: int, w1: seq<Event>, w2: seq<Event>)
    requires now <= later && WholeWindow(log, batch, now)
    requires w1 == WindowOf(log, batch, now) && w2 == WindowOf(log, batch, later)
    ensures InTimeOrder(w1) && w2 == Filter(w1, NotBefore(later - MAX_LOOKBACK))
  {
    hide Filter, Sort;
    var p, q := InWindow(batch, now - MAX_LOOKBACK), InWindow(batch, later - MAX_LOOKBACK);
    var from := NotBefore(later - MAX_LOOKBACK);
    FilterBoth(log, p, from, q);
    assert TotalPreorder(ByTimestamp);
    SortFilter(Filter(log, p), ByTimestamp, from);
  }

  lemma FilterSwap(xs: seq<Event>, p: Event -> bool, q: Event -> bool)
    ensures Filter(Filter(xs, p), q) == Filter(Filter(xs, q), p)
  {
    hide Filter;
    FilterBoth(xs, p, q, (e: Event) => p(e) && q(e));
    FilterBoth(xs, q, p, (e: Event) => p(e) && q(e));
  }

  /** In each group the later evaluation sees the last part of the recent events. */
  lemma GroupLater(rule: Rule, g: string, w1: seq<Event>, w2: seq<Event>, now: int, later: int,
                   ms1: seq<Event>, ms2: seq<Event>)
    requires now <= later && InTimeOrder(w1) && w2 == Filter(w1, NotBefore(later - MAX_LOOKBACK))
    requires ms1 == Filter(w1, InGroup(rule, g)) && ms2 == Filter(w2, InGroup(rule, g))
    ensures var a, b := RecentOf(rule, ms1, now), RecentOf(rule, ms2, later);
      InTimeOrder(a) && |b| <= |a| && a[|a| - |b|..] == b
  {
    hide Filter, TimeSorted, InTimeOrder, InGroup;
    var edge := later - MAX_LOOKBACK;
    var h1, h2 := now - rule.timeframe, later - rule.timeframe;
    FilterSwap(w1, NotBefore(edge), InGroup(rule, g));
    assert ms2 == Filter(ms1, NotBefore(edge));
    FilterInOrder(w1, InGroup(rule, g));
    FilterInOrder(ms1, NotBefore(edge));
    assert TimeSorted(ms1) == ms1 && TimeSorted(ms2) == ms2;
    FilterBoth(ms1, NotBefore(edge), NotBefore(h2), NotBefore(Max(edge, h2)));
    LaterIsSuffix(ms1, h1, Max(edge, h2), RecentOf(rule, ms1, now), RecentOf(rule, ms2, later));
    FilterInOrder(ms1, NotBefore(h1));
  }

  // ── So every later candidate has an earlier one of the same key ──────────

  /** The candidate of a group, in a window. */
  function Finding(rule: Rule, g: string, window: seq<Event>, since: int, now: int): Option<Candidate> {
    CandidateFor(rule, g, Filter(window, InGroup(rule, g)), since, now)
  }

  lemma FindingGroup(rule: Rule, g: string, window: seq<Event>, since: int, now: int)
    ensures var c := Finding(rule, g, window, since, now); c.Some? ==> c.value.group == g
  {
    hide CandidateFor, Filter, ReportsGroup;
    CandidateGroup(rule, g, Filter(window, InGroup(rule, g)), since, now, Finding(rule, g, window, since, now));
  }

  /** What is collected are exactly the findings of the groups. */
  lemma {:induction false} CollectedFrom(rule: Rule, names: seq<string>, window: seq<Event>, since: int, now: int, c: Candidate)
    ensures c in Collect(rule, names, window, since, now) <==>
      c.group in names && Finding(rule, c.group, window, since, now) == Some(c)
  {
    hide Filter, InGroup, CandidateFor;
    if names == [] {
    } else {
      var rest, g := names[..|names| - 1], names[|names| - 1];
      CollectedFrom(rule, rest, window, since, now, c);
      assert names == rest + [g];
      FindingGroup(rule, g, window, since, now);
    }
  }

  lemma NoNews(since: int)
    ensures !HasNew([], since)
  {
  }

  lemma FiringGroup(rule: Rule, g: string, ms: seq<Event>, since: int, now: int)
    requires CandidateFor(rule, g, ms, since, now).Some?
    ensures ms != []
  {
    hide HasNew;
    CandidateIff(rule, g, ms, since, now);
    if ms == [] {
      NothingRecent(rule, now);
      NoNews(since);
    }
  }

  lemma EvaluateLater(rule: Rule, w1: seq<Event>, w2: seq<Event>, since: int, now: int, later: int, c: Candidate)
    requires rule.matcher.Threshold? && now <= later
    requires InTimeOrder(w1) && w2 == Filter(w1, NotBefore(later - MAX_LOOKBACK))
    requires c in Evaluate(rule, w2, since, later)
    ensures exists d :: d in Evaluate(rule, w1, since, now) && d.key == c.key
  {
    hide Filter, InGroup, CandidateFor, Collect, GroupNames, RecentOf, InTimeOrder;
    var g := c.group;
    var ms1, ms2 := Filter(w1, InGroup(rule, g)), Filter(w2, InGroup(rule, g));
    CollectedFrom(rule, GroupNames(rule, w2), w2, since, later, c);
    GroupLater(rule, g, w1, w2, now, later, ms1, ms2);
    ThresholdSuffixSameKey(rule, g, ms1, ms2, since, now, later);
    GroupNamesCover(rule, w1, g);
    FiringGroup(rule, g, ms1, since, now);
    var d := CandidateFor(rule, g, ms1, since, now).value;
    FindingGroup(rule, g, w1, since, now);
    CollectedFrom(rule, GroupNames(rule, w1), w1, since, now, d);
    assert d in Evaluate(rule, w1, since, now);
  }

  lemma {:induction false} CandidatesLater(rules: seq<Rule>, w1: seq<Event>, w2: seq<Event>, since: int, now: int, later: int,
                                           c: Candidate)
    requires OnlyThresholds(rules) && now <= later
    requires InTimeOrder(w1) && w2 == Filter(w1, NotBefore(later - MAX_LOOKBACK))
    requires c in CandidatesOf(rules, w2, since, later)
    ensures exists d :: d in CandidatesOf(rules, w1, since, now) && d.key == c.key
  {
    hide Filter, Evaluate, InTimeOrder;
    var rest, rule := rules[..|rules| - 1], rules[|rules| - 1];
    if c in CandidatesOf(rest, w2, since, later) {
      CandidatesLater(rest, w1, w2, since, now, later, c);
    } else {
      EvaluateLater(rule, w1, w2, since, now, later, c);
    }
  }

  // ── The cycle ────────────────────────────────────────────────────────────

  lemma KeyRecorded(ds: seq<Detection>, cs: seq<Candidate>, novel: seq<Candidate>, r: seq<Detection>, after: seq<Detection>,
                    c: Candidate)
    requires RaisedAs(ds, novel, r) && SameButIncident(r, after) && c in cs && novel == Filter(cs, Unseen(KeysOf(ds)))
    ensures c.key in KeysOf(after)
  {
    hide RowOf, Filter;
    FilterIn(cs, Unseen(KeysOf(ds)), c);
    if c.key in KeysOf(ds) {
      var k :| 0 <= k < |ds| && ds[k].key == c.key;
      assert after[k].key == r[k].key == c.key;
    } else {
      var k :| 0 <= k < |novel| && novel[k] == c;
      RowKey(c);
      assert r[|ds| + k] == RowOf(novel[k]);
      assert after[|ds| + k].key == c.key;
    }
  }

  /** After a cycle every candidate's key is in the detection table. */
  lemma CandidatesRecorded(t: Tables, log: seq<Event>, rules: seq<Rule>, now: int, reports: set<string>, t1: Tables)
    requires Cycle(t, log, rules, now, reports) == Some(t1) && NextBatch(log, CursorOf(t, now)) != []
    ensures forall c | c in PlanOf(t, log, rules, now).candidates :: c.key in KeysOf(t1.detections)
  {
    hide PlanOf, KeysOf, Upserted, CorrelateAll, Sources, LatestIngest, NextBatch, Cycle, Filter, Raise, RowOf;
    var p, t0, u := CycleParts(t, log, rules, now, reports, t1);
    RaiseShape(t.detections, KeysOf(t.detections), p.candidates, p.novel, t0.detections);
    CorrelateAllKeys(t0, now, Reading(log, p.batch, reports), |t.detections|, p.novel, Sources(p.novel, p.batch), u);
    forall c | c in p.candidates
      ensures c.key in KeysOf(t1.detections)
    {
      KeyRecorded(t.detections, p.candidates, p.novel, t0.detections, u.detections, c);
    }
  }

  lemma PlanIs(t: Tables, log: seq<Event>, rules: seq<Rule>, now: int)
    ensures var batch := NextBatch(log, CursorOf(t, now)); var p := PlanOf(t, log, rules, now);
      p.batch == batch && p.candidates == CandidatesOf(rules, WindowOf(log, batch, now), CursorOf(t, now), now)
  {
    hide NextBatch, WindowOf, CandidatesOf, KeysOf, Filter;
  }

  lemma NothingUnseen(cs: seq<Candidate>, keys: set<string>)
    requires forall c | c in cs :: c.key in keys
    ensures Filter(cs, Unseen(keys)) == []
  {
    FilterNone(cs, Unseen(keys));
  }

  /** With threshold rules only, over the same log, re-running a committed cycle
      at any later time creates no detection, as long as the window query of the
      first run did not reach its limit of 8000 rows. */
  lemma ThresholdReplayCreatesNoDetection(t: Tables, log: seq<Event>, rules: seq<Rule>, now: int, reports: set<string>,
                                          t1: Tables, later: int, reports2: set<string>, t2: Tables)
    requires Cycle(t, log, rules, now, reports) == Some(t1)
    requires OnlyThresholds(rules) && now <= later && WholeWindow(log, NextBatch(log, CursorOf(t, now)), now)
    requires Cycle(t1.(cursor := Some(CursorOf(t, now))), log, rules, later, reports2) == Some(t2)
    ensures |t2.detections| == |t1.detections|
  {
    hide PlanOf, KeysOf, Upserted, CorrelateAll, Sources, LatestIngest, NextBatch, Cycle, Filter, Raise, OnlyThresholds,
      WholeWindow, CandidatesOf, WindowOf, InTimeOrder;
    var since := CursorOf(t, now);
    var back := t1.(cursor := Some(since));
    var batch := NextBatch(log, since);
    if batch == [] {
      EmptyCycle(back, log, rules, later, reports2);
    } else {
      CandidatesRecorded(t, log, rules, now, reports, t1);
      var p, t0, u := CycleParts(back, log, rules, later, reports2, t2);
      var w1, w2 := WindowOf(log, batch, now), WindowOf(log, batch, later);
      PlanIs(t, log, rules, now);
      PlanIs(back, log, rules, later);
      WindowLater(log, batch, now, later, w1, w2);
      forall c | c in p.candidates
        ensures c.key in KeysOf(t1.detections)
      {
        CandidatesLater(rules, w1, w2, since, now, later, c);
      }
      NothingUnseen(p.candidates, KeysOf(t1.detections));
      CorrelateAllKeys(t0, later, Reading(log, p.batch, reports2), |t1.detections|, p.novel, Sources(p.novel, p.batch), u);
      RaiseLength(t1.detections, KeysOf(t1.detections), p.candidates);
    }
  }

  // ── Why the row limit matters ────────────────────────────────────────────

  function Filler(i: nat): Event {
    Event("f" + Text.Decimal(i), 0, HOUR + 1 + i, "x", "", "", "", "INFO", [], map[])
  }

  function Hit(): Event {
    Event("h", HOUR, HOUR + 1 + WINDOW_LIMIT, "x", "", "hit", "", "INFO", [], map[])
  }

  function Fillers(): seq<Event> {
    seq(WINDOW_LIMIT, i requires 0 <= i < WINDOW_LIMIT => Filler(i))
  }

  /** Eight thousand events of time 0 and one an hour later, ingested one after
      another behind them. */
  function CrowdedLog(): seq<Event> {
    Fillers() + [Hit()]
  }

  ghost predicate IsFiller(e: Event) {
    e.timestamp == 0 && e.sourceIp == "x" && e.username == ""
  }

  function IsHit(): Condition {
    (e: Event) => e.username == "hit"
  }

  function HitRule(): Rule {
    Rule("hit", LOW, 0.5, None, SourceIp, 2 * HOUR, Threshold(1, [IsHit()]))
  }

  lemma FillerIds(i: nat, j: nat)
    requires i != j
    ensures Filler(i).id != Filler(j).id && Filler(i).id != Hit().id
  {
    Text.ValueOfDecimal(i);
    Text.ValueOfDecimal(j);
    assert Filler(i).id[1..] == Text.Decimal(i) && Filler(j).id[1..] == Text.Decimal(j);
    assert Filler(i).id[0] == 'f' && Hit().id[0] == 'h';
  }

  /** It is a log the database can hold: ids are unique, ingest times strictly
      increase, and nothing is ingested before it happened. */
  lemma CrowdedIsProper()
    ensures UniqueIds(CrowdedLog()) && IngestIncreasing(CrowdedLog())
    ensures forall k | 0 <= k < |CrowdedLog()| :: CrowdedLog()[k].timestamp <= CrowdedLog()[k].ingestedAt <= 2 * HOUR
  {
    var log := CrowdedLog();
    forall i, j | 0 <= i < j < |log|
      ensures log[i].id != log[j].id
    {
      FillerIds(i, j);
    }
  }

  lemma CrowdedBatch()
    ensures var b := NextBatch(CrowdedLog(), 0); |b| == BATCH_LIMIT && forall k | 0 <= k < |b| :: b[k] == Filler(k)
  {
    hide Filter, Sort;
    var log := CrowdedLog();
    FilterAll(log, After(0));
    assert Sorted(log, ByIngest);
    SortOfSorted(log, ByIngest);
  }

  /** The window holds the fillers only, up to the limit. */
  lemma CrowdedWindow(batch: seq<Event>)
    requires batch == NextBatch(CrowdedLog(), 0)
    ensures var w := WindowOf(CrowdedLog(), batch, 2 * HOUR); forall k | 0 <= k < |w| :: IsFiller(w[k])
  {
    CrowdedBatch();
    hide Filter, NextBatch;
    var log := CrowdedLog();
    assert batch[0].sourceIp == "x";
    FilterAll(log, InWindow(batch, 0));
    assert InTimeOrder(log);
    assert TimeSorted(log) == log;
    assert log[..WINDOW_LIMIT] == Fillers();
  }

  /** An hour later only the hit is left. */
  lemma LaterWindow(batch: seq<Event>)
    requires batch == NextBatch(CrowdedLog(), 0)
    ensures WindowOf(CrowdedLog(), batch, 3 * HOUR) == [Hit()]
  {
    CrowdedBatch();
    hide NextBatch;
    var p := InWindow(batch, HOUR);
    assert batch[0].sourceIp == "x" && p(Hit());
    FilterConcat(Fillers(), [Hit()], p);
    FilterNone(Fillers(), p);
    assert [Hit()][..0] == [] && Filter([Hit()], p) == [Hit()];
    assert InTimeOrder([Hit()]);
  }

  lemma FillersMiss(es: seq<Event>)
    requires forall k | 0 <= k < |es| :: IsFiller(es[k])
    ensures Filter(es, Meets([IsHit()])) == []
  {
    forall k | 0 <= k < |es|
      ensures !Meets([IsHit()])(es[k])
    {
      assert ![IsHit()][0](es[k]);
    }
    FilterNone(es, Meets([IsHit()]));
  }

  lemma NoHit(w: seq<Event>, now: int)
    requires forall k | 0 <= k < |w| :: IsFiller(w[k])
    ensures Evaluate(HitRule(), w, 0, now) == []
  {
    hide CandidateFor, GroupNames, RecentOf, HasNew, Filter, Evaluate;
    var cs := Evaluate(HitRule(), w, 0, now);
    forall g
      ensures !ReportsGroup(cs, g)
    {
      var members := Filter(w, InGroup(HitRule(), g));
      var recent := RecentOf(HitRule(), members, now);
      RecentFacts(HitRule(), members, now);
      forall k | 0 <= k < |recent|
        ensures IsFiller(recent[k])
      {
        FilterIn(w, InGroup(HitRule(), g), recent[k]);
      }
      FillersMiss(recent);
      EvaluateIff(HitRule(), w, 0, now, g, cs);
    }
    assert cs != [] ==> ReportsGroup(cs, cs[0].group);
  }

  lemma HitDemanded()
    ensures HasNew([Hit()], 0) && Demands(HitRule().matcher, [Hit()])
  {
    FilterAll([Hit()], Meets([IsHit()]));
    assert Hit().ingestedAt > 0 && [Hit()][0] == Hit();
  }

  lemma NothingReported()
    ensures !ReportsGroup([], "x")
  {
  }

  lemma OneHit()
    ensures Evaluate(HitRule(), [Hit()], 0, 3 * HOUR) != []
  {
    hide CandidateFor, Evaluate, Filter, HasNew, Demands, ReportsGroup;
    var cs := Evaluate(HitRule(), [Hit()], 0, 3 * HOUR);
    EvaluateIff(HitRule(), [Hit()], 0, 3 * HOUR, "x", cs);
    FilterAll([Hit()], InGroup(HitRule(), "x"));
    FilterAll([Hit()], NotBefore(HOUR));
    assert InTimeOrder([Hit()]) && TimeSorted([Hit()]) == [Hit()];
    HitDemanded();
    assert ReportsGroup(cs, "x");
    NothingReported();
  }

  lemma HitRuleNamed()
    ensures WellNamed([HitRule()])
  {
  }

  lemma AllUnseen(cs: seq<Candidate>, ds: seq<Detection>)
    requires ds == []
    ensures Filter(cs, Unseen(KeysOf(ds))) == cs
  {
    FilterAll(cs, Unseen(KeysOf(ds)));
  }

  /** Without that condition the promise fails for threshold rules too: the limit
      keeps the newest event from the first run, and an hour later, the oldest
      having left the window, the same batch yields a detection. */
  lemma LimitHidesDetection(t: Tables) returns (t1: Tables, t2: Tables)
    requires t == Tables(Some(0), [], [], [], [], [])
    ensures UniqueIds(CrowdedLog()) && IngestIncreasing(CrowdedLog())
    ensures forall k | 0 <= k < |CrowdedLog()| :: CrowdedLog()[k].timestamp <= CrowdedLog()[k].ingestedAt <= 2 * HOUR
    ensures Cycle(t, CrowdedLog(), [HitRule()], 2 * HOUR, {}) == Some(t1) && t1.detections == []
    ensures Cycle(t1.(cursor := Some(0)), CrowdedLog(), [HitRule()], 3 * HOUR, {}) == Some(t2) && t2.detections != []
  {
    hide PlanOf, KeysOf, Upserted, CorrelateAll, Sources, LatestIngest, NextBatch, Cycle, Filter, Raise, WindowOf, Evaluate, HitRule;
    var log, rules := CrowdedLog(), [HitRule()];
    var batch := NextBatch(log, 0);
    CrowdedIsProper();
    CrowdedBatch();
    CrowdedWindow(batch);
    LaterWindow(batch);
    NoHit(WindowOf(log, batch, 2 * HOUR), 2 * HOUR);
    OneHit();
    assert rules[..0] == [] && CandidatesOf([], WindowOf(log, batch, 2 * HOUR), 0, 2 * HOUR) == [];
    assert CandidatesOf([], [Hit()], 0, 3 * HOUR) == [];
    HitRuleNamed();
    CycleAlwaysCommits(t, log, rules, 2 * HOUR, {});
    t1 := Cycle(t, log, rules, 2 * HOUR, {}).value;
    var p, t0, u := CycleParts(t, log, rules, 2 * HOUR, {}, t1);
    PlanIs(t, log, rules, 2 * HOUR);
    NothingUnseen([], KeysOf(t.detections));
    CorrelateAllKeys(t0, 2 * HOUR, Reading(log, p.batch, {}), 0, p.novel, Sources(p.novel, p.batch), u);
    var back := t1.(cursor := Some(0));
    CycleAlwaysCommits(back, log, rules, 3 * HOUR, {});
    t2 := Cycle(back, log, rules, 3 * HOUR, {}).value;
    var q, t0', u' := CycleParts(back, log, rules, 3 * HOUR, {}, t2);
    PlanIs(back, log, rules, 3 * HOUR);
    AllUnseen(q.candidates, back.detections);
    CorrelateAllKeys(t0', 3 * HOUR, Reading(log, q.batch, {}), 0, q.novel, Sources(q.novel, q.batch), u');
  }
}
