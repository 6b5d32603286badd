/** Re-processing at a later time: exactly when a cycle creates nothing, and why
    the promise of the header needs the clock of the original cycle. */
module Later {
  import opened Collections
  import opened Model
  import opened SequenceMatch
  import opened Rules
  import opened Iocs
  import opened Scoring
  import opened Correlation
  import opened Engine
  import opened Replay
  import opened Runs

  // ── Links already there ──────────────────────────────────────────────────

  lemma {:induction false} NoNewEventLinksIff(links: seq<EventLink>, i: nat, ev: seq<Evidence>)
    ensures NewEventLinks(links, i, ev) == [] <==> forall k | 0 <= k < |ev| :: EventLinked(links, i, ev[k].event.id)
  {
    hide EventLinked;
    if ev == [] {
    } else {
      var rest, e := ev[..|ev| - 1], ev[|ev| - 1];
      NoNewEventLinksIff(links, i, rest);
      assert ev == rest + [e];
    }
  }

  lemma {:induction false} NoNewIocLinksIff(links: seq<IocLink>, i: nat, ps: seq<Ioc>)
    ensures NewIocLinks(links, i, ps) == [] <==> forall k | 0 <= k < |ps| :: ValueLinked(links, i, ps[k].value)
  {
    hide ValueLinked;
    if ps == [] {
    } else {
      var rest, p := ps[..|ps| - 1], ps[|ps| - 1];
      NoNewIocLinksIff(links, i, rest);
      assert ps == rest + [p];
    }
  }

  lemma {:induction false} NewLinksTo(links: seq<EventLink>, iocLinks: seq<IocLink>, i: nat, ev: seq<Evidence>, ps: seq<Ioc>)
    ensures forall k | 0 <= k < |NewEventLinks(links, i, ev)| :: NewEventLinks(links, i, ev)[k].incident == i
    ensures forall k | 0 <= k < |NewIocLinks(iocLinks, i, ps)| :: NewIocLinks(iocLinks, i, ps)[k].incident == i
    decreases |ev| + |ps|
  {
    hide EventLinked, ValueLinked;
    if ev == [] {
    } else {
      NewLinksTo(links, iocLinks, i, ev[..|ev| - 1], ps);
    }
    if ps == [] {
    } else {
      NewLinksTo(links, iocLinks, i, ev, ps[..|ps| - 1]);
    }
  }

  /** Links to other incidents do not matter. */
  lemma LinksElsewhere(links: seq<EventLink>, more: seq<EventLink>, iocLinks: seq<IocLink>, moreIocs: seq<IocLink>, i: nat)
    requires forall k | 0 <= k < |more| :: more[k].incident != i
    requires forall k | 0 <= k < |moreIocs| :: moreIocs[k].incident != i
    ensures forall id :: EventLinked(links + more, i, id) <==> EventLinked(links, i, id)
    ensures forall v :: ValueLinked(iocLinks + moreIocs, i, v) <==> ValueLinked(iocLinks, i, v)
  {
    forall id | EventLinked(links, i, id)
      ensures EventLinked(links + more, i, id)
    {
      var k :| 0 <= k < |links| && links[k].incident == i && links[k].eventId == id;
      assert (links + more)[k] == links[k];
    }
    forall v | ValueLinked(iocLinks, i, v)
      ensures ValueLinked(iocLinks + moreIocs, i, v)
    {
      var k :| 0 <= k < |iocLinks| && iocLinks[k].incident == i && iocLinks[k].ioc.value == v;
      assert (iocLinks + moreIocs)[k] == iocLinks[k];
    }
  }

  // ── Correlating one source ───────────────────────────────────────────────

  /** The source has a live incident that already holds every link offered. */
  ghost predicate Holds(t: Tables, now: int, ip: string, a: Input) {
    match Select(t.incidents, ip, now)
    case None => false
    case Some(i) =>
      && (forall k | 0 <= k < |a.evidence| :: EventLinked(t.eventLinks, i, a.evidence[k].event.id))
      && (forall k | 0 <= k < |a.iocs| :: ValueLinked(t.iocLinks, i, a.iocs[k].value))
  }

  /** No incident and no link is removed, so equal sums mean equal tables. */
  ghost function Size(t: Tables): nat {
    |t.incidents| + |t.eventLinks| + |t.iocLinks|
  }

  ghost predicate NoFewer(t: Tables, t': Tables) {
    |t.incidents| <= |t'.incidents| && |t.eventLinks| <= |t'.eventLinks| && |t.iocLinks| <= |t'.iocLinks|
  }

  lemma GrowsIff(t: Tables, now: int, ip: string, a: Input)
    requires RowsExist(t, a) && !Skips(a)
    ensures NoFewer(t, Correlate(t, now, ip, a))
    ensures Size(Correlate(t, now, ip, a)) == Size(t) <==> Holds(t, now, ip, a)
  {
    hide Scored, Created, Merged, NewEventLinks, NewIocLinks, EventLinked, ValueLinked, Filter, Assign, At;
    NoNewEventLinksIff(t.eventLinks, Target(t, now, ip), a.evidence);
    NoNewIocLinksIff(t.iocLinks, Target(t, now, ip), a.iocs);
  }

  /** Correlating another source does not change which incident is selected. */
  lemma OtherSelects(t: Tables, now: int, other: string, a: Input, ip: string)
    requires other != ip && RowsExist(t, a)
    ensures Select(Correlate(t, now, other, a).incidents, ip, now) == Select(t.incidents, ip, now)
  {
    hide IncidentSeverity, IncidentConfidence, IncidentRisk, MergeTechniques, TechniquesOf, UsersOf, SensorsOf, ReasonsOf,
      NewEventLinks, NewIocLinks, Filter, Assign, At;
    SelectChosen(t.incidents, ip, now);
    ChosenUnique(Correlate(t, now, other, a).incidents, ip, now, Select(t.incidents, ip, now));
  }

  lemma TargetOwner(t: Tables, now: int, other: string, ip: string)
    requires other != ip
    ensures Select(t.incidents, ip, now) != Some(Target(t, now, other))
  {
  }

  lemma OtherHolds(t: Tables, now: int, other: string, a: Input, ip: string, b: Input)
    requires other != ip && RowsExist(t, a)
    ensures Holds(Correlate(t, now, other, a), now, ip, b) <==> Holds(t, now, ip, b)
  {
    hide Scored, Receiving, NewEventLinks, NewIocLinks, EventLinked, ValueLinked, Filter, Assign, At, Live;
    OtherSelects(t, now, other, a, ip);
    var i := Target(t, now, other);
    TargetOwner(t, now, other, ip);
    NewLinksTo(t.eventLinks, t.iocLinks, i, a.evidence, a.iocs);
    if Select(t.incidents, ip, now).Some? {
      LinksElsewhere(t.eventLinks, NewEventLinks(t.eventLinks, i, a.evidence),
                     t.iocLinks, NewIocLinks(t.iocLinks, i, a.iocs), Select(t.incidents, ip, now).value);
    }
  }

  lemma {:induction false} AllGrowIff(t: Tables, now: int, r: Reading, base: nat, ips: seq<string>, t': Tables)
    requires Ready(t, base, []) && t' == CorrelateAll(t, now, r, base, [], ips)
    requires Distinct(ips) && forall k | 0 <= k < |ips| :: !Skips(InputFor(r, base, [], ips[k]))
    ensures NoFewer(t, t')
    ensures Size(t') == Size(t) <==> forall k | 0 <= k < |ips| :: Holds(t, now, ips[k], InputFor(r, base, [], ips[k]))
    ensures forall ip | ip !in ips ::
      Holds(t', now, ip, InputFor(r, base, [], ip)) <==> Holds(t, now, ip, InputFor(r, base, [], ip))
  {
    hide InputFor, Correlate, Skips, Holds;
    if ips == [] {
    } else {
      var rest, ip := ips[..|ips| - 1], ips[|ips| - 1];
      var u := CorrelateAll(t, now, r, base, [], rest);
      assert ips == rest + [ip] && ip !in rest;
      AllGrowIff(t, now, r, base, rest, u);
      var a := InputFor(r, base, [], ip);
      InputRows(r, base, [], ip, u);
      assert !Skips(a);
      GrowsIff(u, now, ip, a);
      forall other | other !in ips
        ensures Holds(t', now, other, InputFor(r, base, [], other)) <==> Holds(t, now, other, InputFor(r, base, [], other))
      {
        OtherHolds(u, now, ip, a, other, InputFor(r, base, [], other));
      }
    }
  }

  // ── In terms of the batch ────────────────────────────────────────────────

  /** The source's live incident is linked to each of its high-risk events of the
      batch and to each indicator its events of the batch mention. */
  ghost predicate AllLinked(t: Tables, now: int, batch: seq<Event>, ip: string) {
    match Select(t.incidents, ip, now)
    case None => false
    case Some(i) =>
      && (forall e | e in batch && e.sourceIp == ip && EventRisk(e) >= 80.0 :: EventLinked(t.eventLinks, i, e.id))
      && (forall e, p | e in batch && e.sourceIp == ip && p in ExtractIocs(e) :: ValueLinked(t.iocLinks, i, p.value))
  }

  lemma {:induction false} AllIocsIn(es: seq<Event>, p: Ioc)
    ensures p in AllIocs(es) <==> exists e :: e in es && p in ExtractIocs(e)
  {
    hide ExtractIocs;
    if es == [] {
    } else {
      var rest, e := es[..|es| - 1], es[|es| - 1];
      AllIocsIn(rest, p);
      assert es == rest + [e];
    }
  }

  lemma EvidenceIs(mine: seq<Event>, ev: seq<Evidence>)
    requires ev == AddHighRisk([], mine)
    ensures forall e | e in mine && EventRisk(e) >= 80.0 :: Offered(ev, e.id)
    ensures forall k | 0 <= k < |ev| :: ev[k].event in mine && EventRisk(ev[k].event) >= 80.0
  {
    hide EventRisk, AddHighRisk;
    HighRiskOffered([], mine, mine, ev);
  }

  lemma LinksOffered(t: Tables, now: int, batch: seq<Event>, mine: seq<Event>, ip: string, ev: seq<Evidence>, ps: seq<Ioc>, a: Input)
    requires a.evidence == ev && a.iocs == ps
    requires forall e :: e in mine <==> e in batch && e.sourceIp == ip
    requires forall e | e in mine && EventRisk(e) >= 80.0 :: Offered(ev, e.id)
    requires forall k | 0 <= k < |ev| :: ev[k].event in mine && EventRisk(ev[k].event) >= 80.0
    requires forall p :: p in ps <==> exists e :: e in mine && p in ExtractIocs(e)
    ensures Holds(t, now, ip, a) <==> AllLinked(t, now, batch, ip)
  {
    hide EventRisk, ExtractIocs, EventLinked, ValueLinked, Select;
    var s := Select(t.incidents, ip, now);
    if s.Some? {
      if Holds(t, now, ip, a) {
        forall e | e in batch && e.sourceIp == ip && EventRisk(e) >= 80.0
          ensures EventLinked(t.eventLinks, s.value, e.id)
        {
          assert Offered(ev, e.id);
        }
        forall e, p | e in batch && e.sourceIp == ip && p in ExtractIocs(e)
          ensures ValueLinked(t.iocLinks, s.value, p.value)
        {
          assert p in ps;
        }
      }
      if AllLinked(t, now, batch, ip) {
        forall k | 0 <= k < |ps|
          ensures ValueLinked(t.iocLinks, s.value, ps[k].value)
        {
          assert ps[k] in ps;
        }
      }
    }
  }

  lemma HoldsIff(t: Tables, now: int, r: Reading, base: nat, ip: string)
    ensures Holds(t, now, ip, InputFor(r, base, [], ip)) <==> AllLinked(t, now, r.batch, ip)
  {
    hide EventRisk, AddHighRisk, Filter, Dedup, AllIocs, MalwareLinked, MaxRisk, ExtractIocs, EventLinked, ValueLinked, Select;
    var mine := Filter(r.batch, FromSource(ip));
    var ev := AddHighRisk([], mine);
    assert EvidenceFor([], ip) == [];
    EvidenceIs(mine, ev);
    forall e: Event
      ensures e in mine <==> e in r.batch && e.sourceIp == ip
    {
      FilterIn(r.batch, FromSource(ip), e);
    }
    forall p: Ioc
      ensures p in Dedup(AllIocs(mine)) <==> exists e :: e in mine && p in ExtractIocs(e)
    {
      AllIocsIn(mine, p);
    }
    LinksOffered(t, now, r.batch, mine, ip, ev, Dedup(AllIocs(mine)), InputFor(r, base, [], ip));
  }

  lemma UnseenIff(ds: seq<Detection>, cs: seq<Candidate>)
    ensures Filter(cs, Unseen(KeysOf(ds))) == [] <==> forall i | 0 <= i < |cs| :: cs[i].key in KeysOf(ds)
  {
    if forall i | 0 <= i < |cs| :: cs[i].key in KeysOf(ds) {
      FilterNone(cs, Unseen(KeysOf(ds)));
    } else {
      var i :| 0 <= i < |cs| && cs[i].key !in KeysOf(ds);
      FilterIn(cs, Unseen(KeysOf(ds)), cs[i]);
    }
  }

  /** Nothing was created: no detection, incident, event link or indicator link. */
  ghost predicate NothingCreated(t: Tables, t1: Tables) {
    && |t1.detections| == |t.detections| && |t1.incidents| == |t.incidents|
    && |t1.eventLinks| == |t.eventLinks| && |t1.iocLinks| == |t.iocLinks|
  }

  lemma SameLinks(t: Tables, t0: Tables, now: int, batch: seq<Event>, ip: string)
    requires t0.incidents == t.incidents && t0.eventLinks == t.eventLinks && t0.iocLinks == t.iocLinks
    ensures AllLinked(t0, now, batch, ip) <==> AllLinked(t, now, batch, ip)
  {
  }

  /** A cycle over a non-empty batch, at any clock time, creates nothing exactly
      when every candidate's key is already present and every source with a
      high-risk event has an open incident, active within six hours, that is
      already linked to each such event and to each indicator of the source's
      events in the batch. */
  lemma CreatesNothingIff(t: Tables, log: seq<Event>, rules: seq<Rule>, now: int, reports: set<string>, t1: Tables)
    requires Cycle(t, log, rules, now, reports) == Some(t1) && NextBatch(log, CursorOf(t, now)) != []
    ensures var p := PlanOf(t, log, rules, now);
      NothingCreated(t, t1) <==>
      && (forall i | 0 <= i < |p.candidates| :: p.candidates[i].key in KeysOf(t.detections))
      && (forall ip | ip in Sources([], p.batch) :: AllLinked(t, now, p.batch, ip))
  {
    hide PlanOf, KeysOf, Upserted, CorrelateAll, Sources, LatestIngest, NextBatch, Cycle, Raise, InputFor, Skips, Filter, Holds,
      AllLinked;
    var p, t0, u := CycleParts(t, log, rules, now, reports, t1);
    UnseenIff(t.detections, p.candidates);
    if p.novel == [] {
      var r := Reading(log, p.batch, reports);
      var ips := Sources([], p.batch);
      SourcesDistinct([], p.batch);
      forall k | 0 <= k < |ips|
        ensures !Skips(InputFor(r, |t.detections|, [], ips[k]))
      {
        ReplaySource(r, |t.detections|, [], ips[k]);
      }
      AllGrowIff(t0, now, r, |t.detections|, ips, u);
      forall ip
        ensures Holds(t0, now, ip, InputFor(r, |t.detections|, [], ip)) <==> AllLinked(t, now, p.batch, ip)
      {
        HoldsIff(t0, now, r, |t.detections|, ip);
        SameLinks(t, t0, now, p.batch, ip);
      }
    }
  }

  // ── A sequence rule that fires twice on the same events ──────────────────

  function Probe(id: string, kind: string, at: int): Event {
    Event(id, at, at + SECOND, "10.0.0.9", "", kind, "", "INFO", [], map[])
  }

  function OfKind(kind: string): Condition {
    (e: Event) => e.username == kind
  }

  /** "a, then b" within ten minutes. */
  function PairRule(): Rule {
    Rule("pair", HIGH, 0.8, None, SourceIp, 600 * SECOND,
         Sequence([Step([OfKind("a")], 1), Step([OfKind("b")], 1)]))
  }

  function Probes(): seq<Event> {
    [Probe("1", "a", 100 * SECOND), Probe("2", "b", 101 * SECOND),
     Probe("3", "a", 590 * SECOND), Probe("4", "b", 601 * SECOND)]
  }

  lemma TwoRequirements()
    ensures PairRule().matcher.Sequence?
    ensures Requirements(PairRule().matcher.steps) == [Meets([OfKind("a")]), Meets([OfKind("b")])]
  {
    var steps := PairRule().matcher.steps;
    var a, b := Meets([OfKind("a")]), Meets([OfKind("b")]);
    assert steps[1..] == [steps[1]] && steps[1..][1..] == [];
    assert Requirements([]) == [];
    assert Repeat(a, 0) == [] && Repeat(b, 0) == [];
    assert Repeat(a, 1) == [a] && Repeat(b, 1) == [b];
    assert Requirements(steps[1..]) == [b] + [];
  }

  lemma PairMatch(events: seq<Event>)
    requires |events| >= 2 && InTimeOrder(events)
    requires events[0].username == "a" && events[1].username == "b"
    ensures TimeSorted(MatchedBy(PairRule(), events)) == [events[0], events[1]]
  {
    TwoRequirements();
    var req := Requirements(PairRule().matcher.steps);
    assert OfKind("a")(events[0]) && OfKind("b")(events[1]);
    assert Meets([OfKind("a")])(events[0]) && Meets([OfKind("b")])(events[1]);
    var tail := req[1..];
    assert tail == [req[1]] && tail[1..] == [];
    assert tail[0](events[1]) && req[0](events[0]);
    assert Scan(tail[1..], events, 2) == Some([]);
    assert Scan(tail, events, 1) == Some([1] + []);
    assert [1] + [] == [1] && [0] + [1] == [0, 1];
    assert Scan(req, events, 0) == Some([0, 1]);
    assert MatchedBy(PairRule(), events) == [events[0], events[1]];
  }

  lemma KeptFrom(evs: seq<Event>, n: nat, horizon: int)
    requires n <= |evs|
    requires forall k | 0 <= k < n :: evs[k].timestamp < horizon
    requires forall k | n <= k < |evs| :: evs[k].timestamp >= horizon
    ensures Filter(evs, NotBefore(horizon)) == evs[n..]
  {
    assert evs == evs[..n] + evs[n..];
    FilterConcat(evs[..n], evs[n..], NotBefore(horizon));
    FilterNone(evs[..n], NotBefore(horizon));
    FilterAll(evs[n..], NotBefore(horizon));
  }

  lemma BucketsApart()
    ensures Bucket(101 * SECOND, 600 * SECOND) == 0 && Bucket(601 * SECOND, 600 * SECOND) == 1
  {
  }

  lemma FindingOf(evs: seq<Event>, recent: seq<Event>, now: int)
    requires RecentOf(PairRule(), evs, now) == recent && |recent| >= 2 && recent[0].ingestedAt > 0
    requires TimeSorted(MatchedBy(PairRule(), recent)) == [recent[0], recent[1]]
    ensures var c := CandidateFor(PairRule(), "10.0.0.9", evs, 0, now);
      c.Some? && c.value.key == Key("pair", "10.0.0.9", Bucket(recent[1].timestamp, 600 * SECOND))
  {
    hide TimeSorted, Filter, MatchedBy, Key, FirstUsername, NotBefore, Bucket, RecentOf;
  }

  /** The recent events of an ordered list are its end from position `n`. */
  lemma RecentFrom(evs: seq<Event>, n: nat, now: int)
    requires InTimeOrder(evs) && n <= |evs|
    requires forall k | 0 <= k < n :: evs[k].timestamp < now - 600 * SECOND
    requires forall k | n <= k < |evs| :: evs[k].timestamp >= now - 600 * SECOND
    ensures RecentOf(PairRule(), evs, now) == evs[n..]
  {
    hide TimeSorted, Filter;
    KeptFrom(evs, n, now - 600 * SECOND);
  }

  /** The first evaluation finds the first pair. */
  lemma FirstFinding()
    ensures var c := CandidateFor(PairRule(), "10.0.0.9", Probes(), 0, 650 * SECOND);
      c.Some? && c.value.key == Key("pair", "10.0.0.9", Bucket(101 * SECOND, 600 * SECOND))
  {
    hide TimeSorted, Filter, MatchedBy, Key, Bucket, RecentOf, CandidateFor, PairRule;
    var evs := Probes();
    RecentFrom(evs, 0, 650 * SECOND);
    assert evs[0..] == evs;
    PairMatch(evs);
    FindingOf(evs, evs, 650 * SECOND);
  }

  /** The later one finds the second pair: the first has left the window. */
  lemma LaterFinding()
    ensures var c := CandidateFor(PairRule(), "10.0.0.9", Probes(), 0, 705 * SECOND);
      c.Some? && c.value.key == Key("pair", "10.0.0.9", Bucket(601 * SECOND, 600 * SECOND))
  {
    hide TimeSorted, Filter, MatchedBy, Key, Bucket, RecentOf, CandidateFor, PairRule;
    var evs := Probes();
    RecentFrom(evs, 2, 705 * SECOND);
    assert evs[2..] == [evs[2], evs[3]];
    PairMatch(evs[2..]);
    FindingOf(evs, evs[2..], 705 * SECOND);
  }

  /** Evaluated 55 seconds later over the very same events, a sequence rule
      reports under a key it did not report before: the first pair has left the
      window and the scan finds the second, in the next bucket. */
  lemma SequenceLaterNewKey()
    ensures var first := CandidateFor(PairRule(), "10.0.0.9", Probes(), 0, 650 * SECOND);
      var later := CandidateFor(PairRule(), "10.0.0.9", Probes(), 0, 705 * SECOND);
      first.Some? && later.Some? && first.value.key != later.value.key
  {
    hide TimeSorted, Filter, MatchedBy, Key, FirstUsername, NotBefore, RecentOf, Probes, Bucket;
    FirstFinding();
    LaterFinding();
    assert Bucket(101 * SECOND, 600 * SECOND) == 0 && Bucket(601 * SECOND, 600 * SECOND) == 1 by {
      BucketsApart();
    }
    if Key("pair", "10.0.0.9", 0) == Key("pair", "10.0.0.9", 1) {
      KeyInjective("pair", "10.0.0.9", 0, "pair", "10.0.0.9", 1);
    }
  }
}
