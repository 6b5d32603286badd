/** What rule evaluation reports, in terms of the window and the rule as written. */
module RuleReports {
  import opened Collections
  import opened Model
  import opened SequenceMatch
  import opened Rules
  import Text

  /** Of the group, and recent enough for the rule. */
  ghost function IsEligible(rule: Rule, g: string, now: int): Event -> bool {
    (e: Event) => GroupKey(rule, e) == Some(g) && e.timestamp >= now - rule.timeframe
  }

  ghost function Eligible(rule: Rule, g: string, window: seq<Event>, now: int): seq<Event> {
    Filter(window, IsEligible(rule, g, now))
  }

  /** The matcher works on exactly those, in time order. */
  lemma RecentIs(rule: Rule, g: string, window: seq<Event>, now: int)
    ensures RecentOf(rule, Filter(window, InGroup(rule, g)), now) == TimeSorted(Eligible(rule, g, window, now))
  {
    hide Filter, Sort;
    var horizon := now - rule.timeframe;
    var p := IsEligible(rule, g, now);
    FilterBoth(window, InGroup(rule, g), NotBefore(horizon), p);
    assert TotalPreorder(ByTimestamp);
    SortFilter(Filter(window, InGroup(rule, g)), ByTimestamp, NotBefore(horizon));
  }

  /** The places in the window whose event is eligible and meets every condition. */
  ghost function Hits(rule: Rule, g: string, window: seq<Event>, now: int, conditions: seq<Condition>): set<nat> {
    set i: nat | i < |window| && GroupKey(rule, window[i]) == Some(g) && window[i].timestamp >= now - rule.timeframe
      && forall j | 0 <= j < |conditions| :: conditions[j](window[i])
  }

  /** What it takes for a group to be reported: an eligible event ingested after
      the cursor, and enough hits, or some eligible events that are the steps'. */
  ghost predicate Called(rule: Rule, g: string, window: seq<Event>, since: int, now: int) {
    && (exists e :: e in Eligible(rule, g, window, now) && e.ingestedAt > since)
    && match rule.matcher
       case Threshold(count, conditions) =>
         |Hits(rule, g, window, now, conditions)| >= 1 && |Hits(rule, g, window, now, conditions)| >= count
       case Sequence(steps) =>
         exists hits :: InSteps(steps, hits) && hits != [] && Subsequence(hits, TimeSorted(Eligible(rule, g, window, now)))
  }

  ghost function IsHit(rule: Rule, g: string, now: int, conditions: seq<Condition>): Event -> bool {
    (e: Event) => IsEligible(rule, g, now)(e) && Meets(conditions)(e)
  }

  lemma HitsAre(rule: Rule, g: string, window: seq<Event>, now: int, conditions: seq<Condition>)
    ensures Positions(window, IsHit(rule, g, now, conditions)) == Hits(rule, g, window, now, conditions)
  {
    hide GroupKey;
    var p := IsHit(rule, g, now, conditions);
    forall i | 0 <= i < |window|
      ensures p(window[i]) <==> i in Hits(rule, g, window, now, conditions)
    {
      assert p(window[i]) == (IsEligible(rule, g, now)(window[i]) && Meets(conditions)(window[i]));
    }
  }

  lemma HitsCount(rule: Rule, g: string, window: seq<Event>, now: int, conditions: seq<Condition>)
    ensures |Filter(TimeSorted(Eligible(rule, g, window, now)), Meets(conditions))| == |Hits(rule, g, window, now, conditions)|
  {
    hide Filter, Sort, Hits, Meets, IsEligible, GroupKey;
    var eligible := Eligible(rule, g, window, now);
    assert TotalPreorder(ByTimestamp);
    SortFilter(eligible, ByTimestamp, Meets(conditions));
    SortCorrect(Filter(eligible, Meets(conditions)), ByTimestamp);
    assert |Filter(TimeSorted(eligible), Meets(conditions))| == |Filter(eligible, Meets(conditions))|;
    var p := IsHit(rule, g, now, conditions);
    assert forall i | 0 <= i < |window| :: p(window[i]) <==> IsEligible(rule, g, now)(window[i]) && Meets(conditions)(window[i]);
    FilterBoth(window, IsEligible(rule, g, now), Meets(conditions), IsHit(rule, g, now, conditions));
    FilterPositions(window, IsHit(rule, g, now, conditions));
    HitsAre(rule, g, window, now, conditions);
  }

  lemma NewsIff(events: seq<Event>, since: int)
    ensures HasNew(TimeSorted(events), since) <==> exists e :: e in events && e.ingestedAt > since
  {
    var sorted := TimeSorted(events);
    if HasNew(sorted, since) {
      var i :| 0 <= i < |sorted| && sorted[i].ingestedAt > since;
      TimeSortedIn(events, sorted[i]);
    }
    if exists e :: e in events && e.ingestedAt > since {
      var e :| e in events && e.ingestedAt > since;
      TimeSortedIn(events, e);
      var i :| 0 <= i < |sorted| && sorted[i] == e;
    }
  }

  lemma SequenceDemands(steps: seq<Step>, recent: seq<Event>)
    ensures Demands(Sequence(steps), recent) <==>
      exists hits :: InSteps(steps, hits) && hits != [] && Subsequence(hits, TimeSorted(recent))
  {
    MatchIff(steps, recent);
    MatchesIff(steps, recent);
  }

  /** A rule reports a group exactly when it is called for. */
  lemma ReportedIff(rule: Rule, window: seq<Event>, since: int, now: int, g: string, cs: seq<Candidate>)
    requires cs == Evaluate(rule, window, since, now)
    ensures (exists c :: c in cs && c.group == g) <==> Called(rule, g, window, since, now)
  {
    hide Evaluate, Filter, HasNew, Matchable, TimeSorted, InSteps;
    var recent := TimeSorted(Eligible(rule, g, window, now));
    EvaluateIff(rule, window, since, now, g, cs);
    RecentIs(rule, g, window, now);
    NewsIff(Eligible(rule, g, window, now), since);
    match rule.matcher {
      case Threshold(count, conditions) => HitsCount(rule, g, window, now, conditions);
      case Sequence(steps) => SequenceDemands(steps, recent);
    }
    if ReportsGroup(cs, g) {
      var i :| 0 <= i < |cs| && cs[i].group == g;
      assert cs[i] in cs;
    }
    if exists c :: c in cs && c.group == g {
      var c :| c in cs && c.group == g;
      var i :| 0 <= i < |cs| && cs[i] == c;
    }
  }

  lemma {:induction false} CollectedThreshold(rule: Rule, names: seq<string>, window: seq<Event>, since: int, now: int, c: Candidate)
    requires c in Collect(rule, names, window, since, now) && rule.matcher.Threshold?
    ensures c.matched == TimeSorted(Filter(TimeSorted(Eligible(rule, c.group, window, now)), Meets(rule.matcher.conditions)))
  {
    hide Filter, InGroup, TimeSorted, RecentOf, HasNew, FirstUsername, Key, Bucket;
    var rest, g := names[..|names| - 1], names[|names| - 1];
    var found := CandidateFor(rule, g, Filter(window, InGroup(rule, g)), since, now);
    if c in Collect(rule, rest, window, since, now) {
      CollectedThreshold(rule, rest, window, since, now, c);
    } else {
      assert found == Some(c);
      RecentIs(rule, g, window, now);
    }
  }

  /** A threshold rule reports all of its hits, not just as many as it asks for. */
  lemma ThresholdReportsAll(rule: Rule, window: seq<Event>, since: int, now: int, c: Candidate)
    requires c in Evaluate(rule, window, since, now) && rule.matcher.Threshold?
    ensures |c.matched| == |Hits(rule, c.group, window, now, rule.matcher.conditions)|
    ensures forall i | i in Hits(rule, c.group, window, now, rule.matcher.conditions) :: window[i] in c.matched
  {
    hide Filter, TimeSorted, GroupNames, GroupKey;
    var conditions := rule.matcher.conditions;
    CollectedThreshold(rule, GroupNames(rule, window), window, since, now, c);
    HitsCount(rule, c.group, window, now, conditions);
    var eligible := Eligible(rule, c.group, window, now);
    forall i | i in Hits(rule, c.group, window, now, conditions)
      ensures window[i] in c.matched
    {
      var e := window[i];
      FilterIn(window, IsEligible(rule, c.group, now), e);
      TimeSortedIn(eligible, e);
      FilterIn(TimeSorted(eligible), Meets(conditions), e);
      TimeSortedIn(Filter(TimeSorted(eligible), Meets(conditions)), e);
    }
  }

  // ── Buckets ──────────────────────────────────────────────────────────────

  /** Whole seconds of an instant, towards zero. */
  lemma WholeSecondsIs(micros: int)
    ensures micros >= 0 ==> 1_000_000 * WholeSeconds(micros) <= micros < 1_000_000 * (WholeSeconds(micros) + 1)
    ensures micros <= 0 ==> 1_000_000 * (WholeSeconds(micros) - 1) < micros <= 1_000_000 * WholeSeconds(micros)
  {
  }

  /** A bucket is a stretch of whole seconds as long as the rule's timeframe, or
      a minute when that is shorter, counted from the epoch; keys name it. */
  lemma BucketIs(rule: Rule, g: string, at: int)
    ensures var b, width := Bucket(at, rule.timeframe), if rule.timeframe >= 61_000_000 then rule.timeframe / 1_000_000 else 60;
      && b * width <= WholeSeconds(at) < (b + 1) * width
      && Key(rule.id, g, b) == rule.id + ":" + g + ":" + Text.Signed(b)
  {
    hide WholeSeconds;
    var width := if rule.timeframe >= 61_000_000 then rule.timeframe / 1_000_000 else 60;
    assert BucketWidth(rule.timeframe) == width;
    var s := WholeSeconds(at);
    assert s == s / width * width + s % width;
  }
}
