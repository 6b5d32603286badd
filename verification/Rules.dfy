/** Rule evaluation: grouping, time windows, and the dedupe key that names a
    detection by rule, group and time bucket. */
module Rules {
  import opened Collections
  import opened Model
  import opened SequenceMatch
  import Text

  // ── Dedupe keys ──────────────────────────────────────────────────────────

  function BucketWidth(timeframe: nat): (w: int)
    ensures w >= 60
  {
    if timeframe / SECOND >= 60 then timeframe / SECOND else 60
  }

  /** Floor division, as in Python. */
  function Bucket(ts: int, timeframe: nat): int {
    WholeSeconds(ts) / BucketWidth(timeframe)
  }

  function Key(ruleId: string, group: string, bucket: int): string {
    ruleId + ":" + group + ":" + Text.Signed(bucket)
  }

  lemma KeySplit(r1: string, g1: string, b1: int, r2: string, g2: string, b2: int)
    requires Key(r1, g1, b1) == Key(r2, g2, b2)
    ensures b1 == b2 && r1 + ":" + g1 == r2 + ":" + g2
  {
    Text.SignedHasNo(b1, ':');
    Text.SignedHasNo(b2, ':');
    Text.SplitLast(r1 + ":" + g1, Text.Signed(b1), r2 + ":" + g2, Text.Signed(b2), ':');
    Text.SignedInjective(b1, b2);
  }

  /** With colon-free rule ids a key determines rule, group and bucket, whatever
      colons the group itself contains. */
  lemma KeyInjective(r1: string, g1: string, b1: int, r2: string, g2: string, b2: int)
    requires ':' !in r1 && ':' !in r2
    requires Key(r1, g1, b1) == Key(r2, g2, b2)
    ensures r1 == r2 && g1 == g2 && b1 == b2
  {
    KeySplit(r1, g1, b1, r2, g2, b2);
    Text.SplitFirst(r1, g1, r2, g2, ':');
  }

  /** `a` followed by a colon begins `b`. */
  predicate ColonPrefix(a: string, b: string) {
    |a| < |b| && b[..|a|] == a && b[|a|] == ':'
  }

  ghost predicate KeysCollide(r1: string, r2: string) {
    exists g1, b1, g2, b2 :: Key(r1, g1, b1) == Key(r2, g2, b2)
  }

  lemma CollisionOf(r1: string, r2: string)
    requires ColonPrefix(r1, r2)
    ensures KeysCollide(r1, r2)
  {
    var rest := r2[|r1| + 1..];
    var g1 := rest + ":";
    assert r2 == r1 + ":" + rest;
    assert r1 + ":" + g1 + ":" + Text.Signed(0) == r2 + ":" + "" + ":" + Text.Signed(0);
    assert Key(r1, g1, 0) == Key(r2, "", 0);
  }

  /** Exactly when two different rule ids can produce the same key. The loader
      accepts any id, so this is what a rule directory has to avoid. */
  lemma KeysCollideIff(r1: string, r2: string)
    requires r1 != r2
    ensures KeysCollide(r1, r2) <==> ColonPrefix(r1, r2) || ColonPrefix(r2, r1)
  {
    if ColonPrefix(r1, r2) {
      CollisionOf(r1, r2);
    }
    if ColonPrefix(r2, r1) {
      CollisionOf(r2, r1);
      var g1, b1, g2, b2 :| Key(r2, g1, b1) == Key(r1, g2, b2);
      assert Key(r1, g2, b2) == Key(r2, g1, b1);
    }
    forall g1, b1, g2, b2 | Key(r1, g1, b1) == Key(r2, g2, b2)
      ensures ColonPrefix(r1, r2) || ColonPrefix(r2, r1)
    {
      KeySplit(r1, g1, b1, r2, g2, b2);
      var s := r1 + ":" + g1;
      assert s[..|r1|] == r1 && s[|r1|] == ':';
      assert s[..|r2|] == (r2 + ":" + g2)[..|r2|] == r2 && s[|r2|] == (r2 + ":" + g2)[|r2|] == ':';
      if |r1| < |r2| {
        assert r2[..|r1|] == s[..|r2|][..|r1|] == r1;
      } else if |r2| < |r1| {
        assert r1[..|r2|] == s[..|r1|][..|r2|] == r2;
      }
    }
  }

  // ── Candidates ───────────────────────────────────────────────────────────

  datatype Candidate = Candidate(
    rule: Rule,
    group: string,
    matched: seq<Event>,
    key: string,
    firstAt: int,
    lastAt: int,
    username: string,
    reason: Reason)

  function InGroup(rule: Rule, g: string): Event -> bool {
    (e: Event) => GroupKey(rule, e) == Some(g)
  }

  function NotBefore(horizon: int): Event -> bool {
    (e: Event) => e.timestamp >= horizon
  }

  predicate HasNew(events: seq<Event>, since: int) {
    exists i | 0 <= i < |events| :: events[i].ingestedAt > since
  }

  /** The group names met in a window, in order of first appearance. */
  function GroupNames(rule: Rule, window: seq<Event>): seq<string> {
    if window == [] then []
    else
      var names := GroupNames(rule, window[..|window| - 1]);
      match GroupKey(rule, window[|window| - 1])
      case None => names
      case Some(g) => if g in names then names else names + [g]
  }

  function FirstUsername(events: seq<Event>): string {
    if events == [] then ""
    else if events[0].username != "" then events[0].username
    else FirstUsername(events[1..])
  }

  function RecentOf(rule: Rule, members: seq<Event>, now: int): seq<Event> {
    Filter(TimeSorted(members), NotBefore(now - rule.timeframe))
  }

  function MatchedBy(rule: Rule, recent: seq<Event>): seq<Event> {
    match rule.matcher
    case Sequence(steps) => Matched(steps, recent)
    case Threshold(count, conditions) =>
      var hits := Filter(recent, Meets(conditions));
      if |hits| >= count then hits else []
  }

  function CandidateOf(rule: Rule, g: string, hits: seq<Event>): Candidate
    requires hits != []
  {
    var last := hits[|hits| - 1].timestamp;
    Candidate(rule, g, hits, Key(rule.id, g, Bucket(last, rule.timeframe)), hits[0].timestamp, last,
              FirstUsername(hits), RuleFired(rule.id, g, |hits|))
  }

  /** The candidate one group yields, if any. */
  function CandidateFor(rule: Rule, g: string, members: seq<Event>, since: int, now: int): Option<Candidate> {
    var recent := RecentOf(rule, members, now);
    if !HasNew(recent, since) then None
    else
      var hits := TimeSorted(MatchedBy(rule, recent));
      if hits == [] then None else Some(CandidateOf(rule, g, hits))
  }

  function ListOf<T>(o: Option<T>): seq<T> {
    match o
    case None => []
    case Some(x) => [x]
  }

  function Collect(rule: Rule, names: seq<string>, window: seq<Event>, since: int, now: int): seq<Candidate> {
    if names == [] then []
    else
      var g := names[|names| - 1];
      Collect(rule, names[..|names| - 1], window, since, now)
      + ListOf(CandidateFor(rule, g, Filter(window, InGroup(rule, g)), since, now))
  }

  function Evaluate(rule: Rule, window: seq<Event>, since: int, now: int): seq<Candidate> {
    Collect(rule, GroupNames(rule, window), window, since, now)
  }

  /** The groups of a window: the names in order and the members of each. */
  ghost predicate Grouped(rule: Rule, window: seq<Event>, names: seq<string>, groups: map<string, seq<Event>>) {
    && names == GroupNames(rule, window)
    && (forall g :: g in groups <==> g in names)
    && (forall g | g in names :: groups[g] == Filter(window, InGroup(rule, g)))
    && (forall g | g !in names :: Filter(window, InGroup(rule, g)) == [])
  }

  lemma GroupedSnoc(rule: Rule, window: seq<Event>, e: Event, g: string)
    ensures Filter(window + [e], InGroup(rule, g))
      == Filter(window, InGroup(rule, g)) + if GroupKey(rule, e) == Some(g) then [e] else []
  {
    assert (window + [e])[..|window|] == window;
  }

  lemma GroupNamesSnoc(rule: Rule, window: seq<Event>, e: Event)
    ensures GroupNames(rule, window + [e]) ==
      match GroupKey(rule, e)
      case None => GroupNames(rule, window)
      case Some(g) => if g in GroupNames(rule, window) then GroupNames(rule, window) else GroupNames(rule, window) + [g]
  {
    assert (window + [e])[..|window|] == window;
  }

  lemma NothingGrouped(rule: Rule)
    ensures Grouped(rule, [], [], map[])
  {
  }

  /** One more event joins its group, or opens it. */
  lemma GroupedStep(rule: Rule, seen: seq<Event>, e: Event, names: seq<string>, groups: map<string, seq<Event>>)
    requires Grouped(rule, seen, names, groups)
    ensures match GroupKey(rule, e)
      case None => Grouped(rule, seen + [e], names, groups)
      case Some(g) =>
        Grouped(rule, seen + [e], if g in groups then names else names + [g],
                groups[g := (if g in groups then groups[g] else []) + [e]])
  {
    hide Filter, GroupNames, GroupKey, InGroup;
    GroupNamesSnoc(rule, seen, e);
    forall g {
      GroupedSnoc(rule, seen, e, g);
    }
  }

  method GroupEvents(rule: Rule, window: seq<Event>) returns (names: seq<string>, groups: map<string, seq<Event>>)
    ensures Grouped(rule, window, names, groups)
  {
    hide Grouped, GroupKey;
    names, groups := [], map[];
    assert window[..0] == [];
    NothingGrouped(rule);
    for i := 0 to |window|
      invariant Grouped(rule, window[..i], names, groups)
    {
      ghost var seen := window[..i];
      var e := window[i];
      assert window[..i + 1] == seen + [e];
      GroupedStep(rule, seen, e, names, groups);
      var key := GroupKey(rule, e);
      if key.Some? {
        var g := key.value;
        if g in groups {
          groups := groups[g := groups[g] + [e]];
        } else {
          names := names + [g];
          assert [] + [e] == [e];
          groups := groups[g := [e]];
        }
      }
    }
    assert window[..|window|] == window;
  }

  method EvaluateGroup(rule: Rule, g: string, members: seq<Event>, since: int, now: int)
    returns (c: Option<Candidate>)
    ensures c == CandidateFor(rule, g, members, since, now)
  {
    hide Filter, TimeSorted, Matched, HasNew, Meets, CandidateOf, NotBefore;
    var horizon := now - rule.timeframe;
    var recent := Filter(TimeSorted(members), NotBefore(horizon));
    if !HasNew(recent, since) {
      return None;
    }
    var matched: seq<Event>;
    match rule.matcher {
      case Sequence(steps) =>
        matched := MatchSequence(steps, recent);
      case Threshold(count, conditions) =>
        var hits := Filter(recent, Meets(conditions));
        matched := if |hits| >= count then hits else [];
    }
    matched := TimeSorted(matched);
    c := if matched == [] then None else Some(CandidateOf(rule, g, matched));
  }

  method EvaluateRule(rule: Rule, window: seq<Event>, since: int, now: int) returns (results: seq<Candidate>)
    ensures results == Evaluate(rule, window, since, now)
  {
    hide Filter, CandidateFor, GroupNames, InGroup, GroupKey, ListOf;
    var names, groups := GroupEvents(rule, window);
    results := [];
    for i := 0 to |names|
      invariant results == Collect(rule, names[..i], window, since, now)
    {
      assert names[..i + 1][..i] == names[..i];
      var c := EvaluateGroup(rule, names[i], groups[names[i]], since, now);
      results := results + ListOf(c);
    }
    assert names[..|names|] == names;
  }

  // ── What a candidate is ──────────────────────────────────────────────────

  /** Events that meet a rule: all its conditions and enough of them, or its
      steps one after another. */
  ghost predicate MeetRule(matcher: Matcher, hits: seq<Event>) {
    match matcher
    case Threshold(count, conditions) =>
      |hits| >= count && forall i, j | 0 <= i < |hits| && 0 <= j < |conditions| :: conditions[j](hits[i])
    case Sequence(steps) => InSteps(steps, hits)
  }

  /** The first user name that any of the events has, or none. */
  ghost predicate NamesUser(name: string, events: seq<Event>) {
    if name == "" then forall i | 0 <= i < |events| :: events[i].username == ""
    else exists k :: 0 <= k < |events| && events[k].username == name && forall i | 0 <= i < k :: events[i].username == ""
  }

  lemma {:induction false} FirstUserNamed(events: seq<Event>)
    ensures NamesUser(FirstUsername(events), events)
  {
    if events == [] {
    } else if events[0].username != "" {
      assert events[0].username == FirstUsername(events);
    } else {
      FirstUserNamed(events[1..]);
      var name := FirstUsername(events);
      if name != "" {
        var k :| 0 <= k < |events[1..]| && events[1..][k].username == name
                 && forall i | 0 <= i < k :: events[1..][i].username == "";
        assert events[k + 1].username == name;
        assert forall i | 1 <= i < k + 1 :: events[i] == events[1..][i - 1];
      } else {
        assert forall i | 1 <= i < |events| :: events[i] == events[1..][i - 1];
      }
    }
  }

  /** A candidate's events are of its group, recent, in time order, and meet its
      rule; it spans from its first to its last event; its key names the bucket
      of the last one. */
  ghost predicate Sound(c: Candidate, window: seq<Event>, now: int) {
    && c.matched != []
    && (forall i | 0 <= i < |c.matched| ::
          && c.matched[i] in window
          && GroupKey(c.rule, c.matched[i]) == Some(c.group)
          && now - c.rule.timeframe <= c.matched[i].timestamp
          && c.firstAt <= c.matched[i].timestamp <= c.lastAt)
    && c.firstAt == c.matched[0].timestamp && c.lastAt == c.matched[|c.matched| - 1].timestamp
    && NamesUser(c.username, c.matched)
    && c.key == Key(c.rule.id, c.group, Bucket(c.lastAt, c.rule.timeframe))
    && c.reason == RuleFired(c.rule.id, c.group, |c.matched|)
    && InTimeOrder(c.matched) && MeetRule(c.rule.matcher, c.matched)
  }

  lemma {:induction false} FilterInOrder(xs: seq<Event>, p: Event -> bool)
    requires InTimeOrder(xs)
    ensures InTimeOrder(Filter(xs, p))
  {
    if xs == [] {
    } else {
      var rest := xs[..|xs| - 1];
      FilterInOrder(rest, p);
      forall i | 0 <= i < |Filter(rest, p)|
        ensures Filter(rest, p)[i].timestamp <= xs[|xs| - 1].timestamp
      {
        FilterIn(rest, p, Filter(rest, p)[i]);
        var k :| 0 <= k < |rest| && rest[k] == Filter(rest, p)[i];
      }
    }
  }

  lemma HitsSound(rule: Rule, recent: seq<Event>)
    ensures var hits := MatchedBy(rule, recent);
      && (InTimeOrder(recent) ==> InTimeOrder(hits))
      && (forall i | 0 <= i < |hits| :: hits[i] in recent)
      && (hits != [] ==> MeetRule(rule.matcher, hits))
  {
    match rule.matcher {
      case Sequence(steps) =>
        MatchedFacts(steps, recent);
        ScanSound(Requirements(steps), TimeSorted(recent), 0);
        InStepsIff(steps, MatchedBy(rule, recent));
      case Threshold(count, conditions) =>
        if InTimeOrder(recent) {
          FilterInOrder(recent, Meets(conditions));
        }
        var hits := Filter(recent, Meets(conditions));
        forall i | 0 <= i < |hits|
          ensures hits[i] in recent && Meets(conditions)(hits[i])
        {
          FilterIn(recent, Meets(conditions), hits[i]);
        }
    }
  }

  lemma RecentFacts(rule: Rule, members: seq<Event>, now: int)
    ensures var recent := RecentOf(rule, members, now);
      && InTimeOrder(recent)
      && forall i | 0 <= i < |recent| :: recent[i] in members && now - rule.timeframe <= recent[i].timestamp
  {
    var evs := TimeSorted(members);
    var recent := RecentOf(rule, members, now);
    FilterInOrder(evs, NotBefore(now - rule.timeframe));
    forall i | 0 <= i < |recent|
      ensures recent[i] in members && now - rule.timeframe <= recent[i].timestamp
    {
      FilterIn(evs, NotBefore(now - rule.timeframe), recent[i]);
      TimeSortedIn(members, recent[i]);
    }
  }

  lemma CandidateSound(rule: Rule, g: string, window: seq<Event>, since: int, now: int, c: Option<Candidate>)
    requires c == CandidateFor(rule, g, Filter(window, InGroup(rule, g)), since, now)
    ensures c.Some? ==> c.value.rule == rule && c.value.group == g && Sound(c.value, window, now)
  {
    hide RecentOf, MatchedBy, Filter, TimeSorted, MeetRule, Bucket, Key, FirstUsername, NamesUser;
    var members := Filter(window, InGroup(rule, g));
    var recent := RecentOf(rule, members, now);
    RecentFacts(rule, members, now);
    HitsSound(rule, recent);
    var hits := MatchedBy(rule, recent);
    FirstUserNamed(hits);
    forall i | 0 <= i < |hits|
      ensures hits[i] in window && GroupKey(rule, hits[i]) == Some(g)
      ensures now - rule.timeframe <= hits[i].timestamp
    {
      var k :| 0 <= k < |recent| && recent[k] == hits[i];
      FilterIn(window, InGroup(rule, g), hits[i]);
    }
  }

  lemma {:induction false} GroupNamesDistinct(rule: Rule, window: seq<Event>)
    ensures Distinct(GroupNames(rule, window))
  {
    if window == [] {
    } else {
      GroupNamesDistinct(rule, window[..|window| - 1]);
    }
  }

  lemma {:induction false} CollectSound(rule: Rule, names: seq<string>, window: seq<Event>, since: int, now: int,
                                        cs: seq<Candidate>)
    requires Distinct(names)
    requires cs == Collect(rule, names, window, since, now)
    ensures forall i | 0 <= i < |cs| :: cs[i].rule == rule && cs[i].group in names && Sound(cs[i], window, now)
    ensures forall i, j | 0 <= i < j < |cs| :: cs[i].group != cs[j].group
  {
    hide CandidateFor, Sound;
    if names == [] {
    } else {
      var g, rest := names[|names| - 1], names[..|names| - 1];
      CollectSound(rule, rest, window, since, now, Collect(rule, rest, window, since, now));
      CandidateSound(rule, g, window, since, now,
                     CandidateFor(rule, g, Filter(window, InGroup(rule, g)), since, now));
    }
  }

  /** Every candidate is sound, and one rule reports each group at most once. */
  lemma EvaluateSound(rule: Rule, window: seq<Event>, since: int, now: int, cs: seq<Candidate>)
    requires cs == Evaluate(rule, window, since, now)
    ensures forall i | 0 <= i < |cs| :: cs[i].rule == rule && Sound(cs[i], window, now)
    ensures forall i, j | 0 <= i < j < |cs| :: cs[i].group != cs[j].group
  {
    hide CandidateFor, Sound, GroupNames;
    GroupNamesDistinct(rule, window);
    CollectSound(rule, GroupNames(rule, window), window, since, now, cs);
  }

  /** What a rule asks of the recent events of a group, whatever the matcher does. */
  ghost predicate Demands(matcher: Matcher, recent: seq<Event>) {
    match matcher
    case Threshold(count, conditions) =>
      var hits := Filter(recent, Meets(conditions));
      hits != [] && |hits| >= count
    case Sequence(steps) => Requirements(steps) != [] && Matchable(steps, recent)
  }

  lemma MatchedByIff(rule: Rule, recent: seq<Event>)
    ensures MatchedBy(rule, recent) != [] <==> Demands(rule.matcher, recent)
  {
    match rule.matcher {
      case Sequence(steps) => MatchIff(steps, recent);
      case Threshold(_, _) =>
    }
  }

  lemma CandidateIff(rule: Rule, g: string, members: seq<Event>, since: int, now: int)
    ensures var recent := RecentOf(rule, members, now);
      CandidateFor(rule, g, members, since, now).Some? <==> HasNew(recent, since) && Demands(rule.matcher, recent)
  {
    hide RecentOf, MatchedBy, Demands, HasNew;
    MatchedByIff(rule, RecentOf(rule, members, now));
  }

  lemma {:induction false} GroupNamesCover(rule: Rule, window: seq<Event>, g: string)
    ensures g in GroupNames(rule, window) <==> Filter(window, InGroup(rule, g)) != []
  {
    if window == [] {
    } else {
      GroupNamesCover(rule, window[..|window| - 1], g);
    }
  }

  ghost predicate ReportsGroup(cs: seq<Candidate>, g: string) {
    exists i :: 0 <= i < |cs| && cs[i].group == g
  }

  lemma ReportsConcat(a: seq<Candidate>, b: seq<Candidate>, g: string)
    ensures ReportsGroup(a + b, g) <==> ReportsGroup(a, g) || ReportsGroup(b, g)
  {
    if ReportsGroup(a, g) {
      var i :| 0 <= i < |a| && a[i].group == g;
      assert (a + b)[i].group == g;
    }
    if ReportsGroup(b, g) {
      var i :| 0 <= i < |b| && b[i].group == g;
      assert (a + b)[|a| + i].group == g;
    }
  }

  lemma CandidateGroup(rule: Rule, g: string, members: seq<Event>, since: int, now: int, c: Option<Candidate>)
    requires c == CandidateFor(rule, g, members, since, now)
    ensures c.Some? ==> c.value.group == g
    ensures forall other :: ReportsGroup(ListOf(c), other) <==> c.Some? && other == g
  {
    hide RecentOf, MatchedBy, HasNew, TimeSorted;
    if c.Some? {
      assert ListOf(c)[0].group == g;
    }
  }

  lemma ReportsNothing(g: string)
    ensures !ReportsGroup([], g)
  {
  }

  lemma {:induction false} CollectIff(rule: Rule, names: seq<string>, window: seq<Event>, since: int, now: int, g: string,
                                      cs: seq<Candidate>)
    requires cs == Collect(rule, names, window, since, now)
    ensures ReportsGroup(cs, g) <==>
      g in names && CandidateFor(rule, g, Filter(window, InGroup(rule, g)), since, now).Some?
  {
    hide Filter, InGroup, CandidateFor, ReportsGroup, ListOf;
    if names == [] {
      assert !ReportsGroup([], g) by {
        ReportsNothing(g);
      }
    } else {
      var rest, last := names[..|names| - 1], names[|names| - 1];
      var before := Collect(rule, rest, window, since, now);
      var c := CandidateFor(rule, last, Filter(window, InGroup(rule, last)), since, now);
      CollectIff(rule, rest, window, since, now, g, before);
      CandidateGroup(rule, last, Filter(window, InGroup(rule, last)), since, now, c);
      ReportsConcat(before, ListOf(c), g);
      assert names == rest + [last];
    }
  }

  lemma NothingRecent(rule: Rule, now: int)
    ensures RecentOf(rule, [], now) == []
  {
  }

  /** Evaluation is complete: a group is reported exactly when its recent events
      include a new one and meet what the rule demands. */
  lemma EvaluateIff(rule: Rule, window: seq<Event>, since: int, now: int, g: string, cs: seq<Candidate>)
    requires cs == Evaluate(rule, window, since, now)
    ensures var recent := RecentOf(rule, Filter(window, InGroup(rule, g)), now);
      ReportsGroup(cs, g) <==> HasNew(recent, since) && Demands(rule.matcher, recent)
  {
    hide Demands, CandidateFor, GroupNames, InGroup;
    var members := Filter(window, InGroup(rule, g));
    GroupNamesCover(rule, window, g);
    CollectIff(rule, GroupNames(rule, window), window, since, now, g, cs);
    CandidateIff(rule, g, members, since, now);
    NothingRecent(rule, now);
  }

  // ── Evaluating the same events again, later ──────────────────────────────

  lemma LastIsLatest(evs: seq<Event>)
    requires InTimeOrder(evs) && evs != []
    ensures InTimeOrder(evs[..|evs| - 1])
    ensures forall i | 0 <= i < |evs| :: evs[i].timestamp <= evs[|evs| - 1].timestamp
  {
  }

  /** Cutting a time-ordered list at a later horizon leaves a suffix. */
  lemma {:induction false} LaterIsSuffix(evs: seq<Event>, h1: int, h2: int, a: seq<Event>, b: seq<Event>)
    requires InTimeOrder(evs) && h1 <= h2
    requires a == Filter(evs, NotBefore(h1)) && b == Filter(evs, NotBefore(h2))
    ensures |b| <= |a| && a[|a| - |b|..] == b
  {
    hide InTimeOrder;
    if evs == [] {
    } else {
      var rest, e := evs[..|evs| - 1], evs[|evs| - 1];
      LastIsLatest(evs);
      var a', b' := Filter(rest, NotBefore(h1)), Filter(rest, NotBefore(h2));
      LaterIsSuffix(rest, h1, h2, a', b');
      if e.timestamp >= h2 {
        assert b == b' + [e] && a == a' + [e];
        assert (a' + [e])[|a'| - |b'|..] == a'[|a'| - |b'|..] + [e];
      } else {
        FilterNone(evs, NotBefore(h2));
      }
    }
  }

  /** A threshold rule that fires on the last part of a group's recent events
      fires on all of them, under the same key. */
  lemma ThresholdSuffixSameKey(rule: Rule, g: string, ms1: seq<Event>, ms2: seq<Event>, since: int, now1: int, now2: int)
    requires rule.matcher.Threshold?
    requires var a, b := RecentOf(rule, ms1, now1), RecentOf(rule, ms2, now2);
      InTimeOrder(a) && |b| <= |a| && a[|a| - |b|..] == b
    requires CandidateFor(rule, g, ms2, since, now2).Some?
    ensures CandidateFor(rule, g, ms1, since, now1).Some?
    ensures CandidateFor(rule, g, ms1, since, now1).value.key == CandidateFor(rule, g, ms2, since, now2).value.key
  {
    hide TimeSorted, Filter, FirstUsername, Bucket, Key, RecentOf;
    var p := Meets(rule.matcher.conditions);
    var a, b := RecentOf(rule, ms1, now1), RecentOf(rule, ms2, now2);
    assert a == a[..|a| - |b|] + b;
    assert InTimeOrder(b) by {
      assert forall i | 0 <= i < |b| :: b[i] == a[|a| - |b| + i];
    }
    FilterConcat(a[..|a| - |b|], b, p);
    FilterInOrder(a, p);
    FilterInOrder(b, p);
    var i :| 0 <= i < |b| && b[i].ingestedAt > since;
    assert a[|a| - |b| + i].ingestedAt > since;
  }

  /** A threshold rule re-evaluated over the same events at a later time never
      names a new bucket: whatever it reports then, it reported under the same
      key before. */
  lemma ThresholdLaterSameKey(rule: Rule, g: string, members: seq<Event>, since: int, now1: int, now2: int)
    requires rule.matcher.Threshold? && now1 <= now2
    requires CandidateFor(rule, g, members, since, now2).Some?
    ensures CandidateFor(rule, g, members, since, now1).Some?
    ensures CandidateFor(rule, g, members, since, now1).value.key
         == CandidateFor(rule, g, members, since, now2).value.key
  {
    hide CandidateFor, TimeSorted, Filter;
    var evs := TimeSorted(members);
    LaterIsSuffix(evs, now1 - rule.timeframe, now2 - rule.timeframe,
                  RecentOf(rule, members, now1), RecentOf(rule, members, now2));
    FilterInOrder(evs, NotBefore(now1 - rule.timeframe));
    ThresholdSuffixSameKey(rule, g, members, members, since, now1, now2);
  }
}
