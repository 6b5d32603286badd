/** What a cycle reads and what it reports, in terms of the log and the rules. */
module Reporting {
  import opened Collections
  import opened Model
  import opened Rules
  import opened RuleReports
  import opened Iocs
  import opened Scoring
  import opened Correlation
  import opened Engine
  import opened Replay
  import opened Safety
  import opened Runs

  // ── What it reads ────────────────────────────────────────────────────────

  /** What is left out comes after what is taken. */
  lemma TakenFirst(all: seq<Event>, taken: seq<Event>, limit: nat)
    requires taken == Take(all, limit)
    ensures |taken| <= limit && (forall e | e in taken :: e in all)
    ensures forall e | e in all && e !in taken ::
      |taken| == limit && forall i | 0 <= i < limit :: exists k :: i < k < |all| && all[i] == taken[i] && all[k] == e
  {
    forall e | e in all && e !in taken
      ensures |taken| == limit && forall i | 0 <= i < limit :: exists k :: i < k < |all| && all[i] == taken[i] && all[k] == e
    {
      var k :| 0 <= k < |all| && all[k] == e;
      assert forall i | 0 <= i < |taken| :: all[i] == taken[i] && taken[i] in taken;
      assert |all| > limit;
    }
  }

  /** The batch holds events ingested after the cursor, or within the last hour
      when there is none, oldest first; at most 3000, and of those left out none
      was ingested before one of the batch. */
  lemma BatchMeans(t: Tables, log: seq<Event>, now: int, batch: seq<Event>)
    requires batch == NextBatch(log, CursorOf(t, now))
    ensures |batch| <= 3000
    ensures forall e | e in batch ::
      e in log && e.ingestedAt > match t.cursor { case Some(c) => c case None => now - 3_600_000_000 }
    ensures forall i, j | 0 <= i < j < |batch| :: batch[i].ingestedAt <= batch[j].ingestedAt
    ensures forall e | e in log && e !in batch && e.ingestedAt > (match t.cursor case Some(c) => c case None => now - 3_600_000_000) ::
      |batch| == 3000 && forall b | b in batch :: b.ingestedAt <= e.ingestedAt
  {
    hide Filter, Sort;
    var since := CursorOf(t, now);
    var all := Sort(Filter(log, After(since)), ByIngest);
    IngestOrderTotal();
    SortCorrect(Filter(log, After(since)), ByIngest);
    forall e: Event
      ensures e in all <==> e in log && e.ingestedAt > since
    {
      FilterIn(log, After(since), e);
      SortIn(Filter(log, After(since)), ByIngest, e);
    }
    TakenFirst(all, batch, 3000);
    assert forall i, j | 0 <= i < j < |all| :: ByIngest(all[i], all[j]);
  }

  /** In reach of the rules: of a source in the batch, within the last two hours. */
  ghost predicate InReach(batch: seq<Event>, now: int, e: Event) {
    && e.sourceIp != "" && e.timestamp >= now - 7_200_000_000
    && exists b :: b in batch && b.sourceIp == e.sourceIp
  }

  lemma InReachIff(batch: seq<Event>, now: int, e: Event)
    ensures InWindow(batch, now - MAX_LOOKBACK)(e) <==> InReach(batch, now, e)
  {
    if InReach(batch, now, e) {
      var b :| b in batch && b.sourceIp == e.sourceIp;
      var i :| 0 <= i < |batch| && batch[i] == b;
    }
  }

  /** The window holds the events in reach, earliest first; at most 8000, and of
      those left out none is earlier than one of the window. */
  lemma WindowMeans(log: seq<Event>, batch: seq<Event>, now: int, window: seq<Event>)
    requires window == WindowOf(log, batch, now)
    ensures |window| <= 8000 && InTimeOrder(window)
    ensures forall e | e in window :: e in log && InReach(batch, now, e)
    ensures forall e | e in log && InReach(batch, now, e) && e !in window ::
      |window| == 8000 && forall w | w in window :: w.timestamp <= e.timestamp
  {
    hide Filter, Sort, InReach, InWindow;
    var p := InWindow(batch, now - MAX_LOOKBACK);
    var all := TimeSorted(Filter(log, p));
    forall e: Event
      ensures e in all <==> e in log && InReach(batch, now, e)
    {
      InReachIff(batch, now, e);
      FilterIn(log, p, e);
      TimeSortedIn(Filter(log, p), e);
    }
    TakenFirst(all, window, 8000);
  }

  // ── What it reports ──────────────────────────────────────────────────────

  lemma {:induction false} CandidatesIff(rules: seq<Rule>, window: seq<Event>, since: int, now: int, c: Candidate)
    ensures c in CandidatesOf(rules, window, since, now) <==>
      exists k :: 0 <= k < |rules| && c in Evaluate(rules[k], window, since, now)
  {
    hide Evaluate;
    if rules == [] {
    } else {
      var rest, rule := rules[..|rules| - 1], rules[|rules| - 1];
      CandidatesIff(rest, window, since, now, c);
      if c in CandidatesOf(rest, window, since, now) {
        var k :| 0 <= k < |rest| && c in Evaluate(rest[k], window, since, now);
        assert c in Evaluate(rules[k], window, since, now);
      }
      forall k | 0 <= k < |rules| && c in Evaluate(rules[k], window, since, now)
        ensures c in CandidatesOf(rules, window, since, now)
      {
        assert k < |rest| ==> rest[k] == rules[k];
      }
    }
  }

  /** A row says this of candidate `c` of one of the rules. */
  ghost predicate Reports(d: Detection, c: Candidate, rules: seq<Rule>) {
    && (exists k :: 0 <= k < |rules| && c.rule == rules[k])
    && c.matched != []
    && d.ruleId == c.rule.id && d.severity == c.rule.severity
    && d.confidence == c.rule.confidence && d.technique == c.rule.technique
    && d.key == Key(c.rule.id, c.group, Bucket(c.matched[|c.matched| - 1].timestamp, c.rule.timeframe))
    && d.reason == RuleFired(c.rule.id, c.group, |c.matched|)
    && d.sourceIp == c.matched[0].sourceIp && NamesUser(d.username, c.matched)
    && d.firstAt == c.matched[0].timestamp && d.lastAt == c.matched[|c.matched| - 1].timestamp
  }

  lemma RowReports(c: Candidate, window: seq<Event>, now: int, rules: seq<Rule>, d: Detection)
    requires Sound(c, window, now) && (exists k :: 0 <= k < |rules| && c.rule == rules[k])
    requires d == RowOf(c).(incident := d.incident)
    ensures Reports(d, c, rules)
  {
    hide Key, Bucket, NamesUser, MeetRule;
  }

  /** The row reports what one of the rules found, under a key not used before. */
  ghost predicate NewRow(before: seq<Detection>, d: Detection, window: seq<Event>, now: int, rules: seq<Rule>) {
    d.key !in KeysOf(before) && exists c :: Sound(c, window, now) && Reports(d, c, rules)
  }

  /** Some row names the candidate and is at least as recent. */
  ghost predicate Recorded(ds: seq<Detection>, c: Candidate) {
    exists k :: 0 <= k < |ds| && ds[k].key == c.key && ds[k].lastAt >= c.lastAt
  }

  /** An old row is as it was, or moved to the last event of a candidate of its
      key, and is behind no such candidate. */
  ghost predicate Refreshed(d: Detection, d': Detection, cs: seq<Candidate>) {
    && d' == d.(lastAt := d'.lastAt, incident := d'.incident) && d'.lastAt >= d.lastAt
    && (d'.lastAt == d.lastAt || exists c :: c in cs && c.key == d.key && c.lastAt == d'.lastAt)
    && forall c | c in cs && c.key == d.key :: c.lastAt <= d'.lastAt
  }

  lemma RefreshedSnoc(d: Detection, mid: Detection, d': Detection, cs: seq<Candidate>, c: Candidate)
    requires Refreshed(d, mid, cs) && mid.incident == d.incident
    requires d' == if mid.key == c.key && mid.lastAt < c.lastAt then mid.(lastAt := c.lastAt) else mid
    ensures Refreshed(d, d', cs + [c])
  {
    assert c in cs + [c];
    forall x | x in cs
      ensures x in cs + [c]
    {
    }
  }

  lemma NothingRefreshed(d: Detection)
    ensures Refreshed(d, d, [])
  {
  }

  lemma KeyStays(d: Detection, d': Detection, cs: seq<Candidate>)
    requires Refreshed(d, d', cs)
    ensures d'.key == d.key
  {
  }

  lemma {:induction false} RaiseRefreshes(ds: seq<Detection>, keys: set<string>, cs: seq<Candidate>, r: seq<Detection>)
    requires r == Raise(ds, keys, cs) && forall k | 0 <= k < |ds| :: ds[k].key in keys
    ensures |ds| <= |r| && forall k | 0 <= k < |ds| :: Refreshed(ds[k], r[k], cs) && r[k].incident == ds[k].incident
  {
    hide Refreshed, RowOf;
    if cs == [] {
      forall k | 0 <= k < |ds|
        ensures Refreshed(ds[k], r[k], cs)
      {
        NothingRefreshed(ds[k]);
      }
    } else {
      var rest, c := cs[..|cs| - 1], cs[|cs| - 1];
      var mid := Raise(ds, keys, rest);
      RaiseRefreshes(ds, keys, rest, mid);
      assert cs == rest + [c];
      forall k | 0 <= k < |ds|
        ensures Refreshed(ds[k], r[k], cs) && r[k].incident == ds[k].incident
      {
        KeyStays(ds[k], mid[k], rest);
        RefreshedSnoc(ds[k], mid[k], r[k], rest, c);
      }
    }
  }

  lemma Relinked(d: Detection, mid: Detection, d': Detection, cs: seq<Candidate>)
    requires Refreshed(d, mid, cs) && d' == mid.(incident := d'.incident)
    ensures Refreshed(d, d', cs)
  {
  }

  /** The candidates of a cycle are sound, each of one of its rules. */
  lemma CandidatesOfRules(rules: seq<Rule>, window: seq<Event>, since: int, now: int, cs: seq<Candidate>, c: Candidate)
    requires cs == CandidatesOf(rules, window, since, now) && c in cs
    ensures Sound(c, window, now) && exists k :: 0 <= k < |rules| && c.rule == rules[k]
  {
    hide Evaluate, Sound;
    CandidatesIff(rules, window, since, now, c);
    var k :| 0 <= k < |rules| && c in Evaluate(rules[k], window, since, now);
    EvaluateSound(rules[k], window, since, now, Evaluate(rules[k], window, since, now));
  }

  lemma PlanWindow(t: Tables, log: seq<Event>, rules: seq<Rule>, now: int, window: seq<Event>)
    requires window == WindowOf(log, NextBatch(log, CursorOf(t, now)), now)
    ensures PlanOf(t, log, rules, now).candidates == CandidatesOf(rules, window, CursorOf(t, now), now)
  {
    hide NextBatch, WindowOf, CandidatesOf, KeysOf, Filter;
  }

  lemma CalledCandidate(rules: seq<Rule>, k: nat, g: string, window: seq<Event>, since: int, now: int, cs: seq<Candidate>)
    returns (c: Candidate)
    requires k < |rules| && Called(rules[k], g, window, since, now) && cs == CandidatesOf(rules, window, since, now)
    ensures c in cs && c.rule == rules[k] && c.group == g && Sound(c, window, now)
  {
    hide Evaluate, Sound, Called;
    var found := Evaluate(rules[k], window, since, now);
    ReportedIff(rules[k], window, since, now, g, found);
    EvaluateSound(rules[k], window, since, now, found);
    c :| c in found && c.group == g;
    CandidatesIff(rules, window, since, now, c);
  }

  lemma CandidateRecorded(ds: seq<Detection>, cs: seq<Candidate>, c: Candidate)
    requires NothingToRefresh(ds, cs) && c in cs
    ensures Recorded(ds, c)
  {
    hide KeysOf;
    var i :| 0 <= i < |cs| && cs[i] == c;
    KeyRow(ds, c.key);
    assert cs[i].key in KeysOf(ds);
    var k :| 0 <= k < |ds| && ds[k].key == c.key;
  }

  /** What a committed cycle reports. Each group one of the rules is called for is
      recorded under its rule and bucket; every new row reports events of the
      window that meet one of the rules; old rows only move forward. */
  lemma CycleReports(t: Tables, log: seq<Event>, rules: seq<Rule>, now: int, reports: set<string>, window: seq<Event>, t1: Tables)
    requires Cycle(t, log, rules, now, reports) == Some(t1) && NextBatch(log, CursorOf(t, now)) != []
    requires window == WindowOf(log, NextBatch(log, CursorOf(t, now)), now)
    ensures |t.detections| <= |t1.detections|
    ensures forall k, g | 0 <= k < |rules| && Called(rules[k], g, window, CursorOf(t, now), now) ::
      exists c: Candidate :: c.rule == rules[k] && c.group == g && Sound(c, window, now) && Recorded(t1.detections, c)
    ensures forall k | |t.detections| <= k < |t1.detections| :: NewRow(t.detections, t1.detections[k], window, now, rules)
    ensures forall k | 0 <= k < |t.detections| ::
      Refreshed(t.detections[k], t1.detections[k], CandidatesOf(rules, window, CursorOf(t, now), now))
  {
    hide PlanOf, Upserted, CorrelateAll, Sources, LatestIngest, NextBatch, Cycle, Raise, Filter, WindowOf, CandidatesOf,
      KeysOf, RowOf, Refreshed, Sound, Called, Evaluate, Recorded, Reports;
    var since := CursorOf(t, now);
    var p, t0, u := CycleParts(t, log, rules, now, reports, t1);
    PlanWindow(t, log, rules, now, window);
    var cs, base := p.candidates, |t.detections|;
    CorrelateAllKeys(t0, now, Reading(log, p.batch, reports), base, p.novel, Sources(p.novel, p.batch), u);
    RaiseShape(t.detections, KeysOf(t.detections), cs, p.novel, t0.detections);
    RaisedOnce(t.detections, cs, p.novel, t0.detections, u.detections);
    forall k, g | 0 <= k < |rules| && Called(rules[k], g, window, since, now)
      ensures exists c: Candidate :: c.rule == rules[k] && c.group == g && Sound(c, window, now) && Recorded(t1.detections, c)
    {
      var c := CalledCandidate(rules, k, g, window, since, now, cs);
      CandidateRecorded(u.detections, cs, c);
    }
    forall k | base <= k < |t1.detections|
      ensures NewRow(t.detections, t1.detections[k], window, now, rules)
    {
      var c := p.novel[k - base];
      assert t0.detections[base + (k - base)] == RowOf(c);
      FilterIn(cs, Unseen(KeysOf(t.detections)), c);
      CandidatesOfRules(rules, window, since, now, cs, c);
      RowReports(c, window, now, rules, t1.detections[k]);
      RowKey(c);
    }
    KeysIn(t.detections);
    RaiseRefreshes(t.detections, KeysOf(t.detections), cs, t0.detections);
    forall k | 0 <= k < base
      ensures Refreshed(t.detections[k], t1.detections[k], cs)
    {
      Relinked(t.detections[k], t0.detections[k], t1.detections[k], cs);
    }
  }
}
