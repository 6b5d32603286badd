/** What a cycle links to its incidents, in terms of the events its new
    detections matched and of the high-risk events of its batch. */
module Linking {
  import opened Collections
  import opened Model
  import opened Rules
  import opened Iocs
  import opened Scoring
  import opened Correlation
  import opened Engine
  import opened Replay
  import opened Safety
  import opened Runs
  import opened Offering

  // ── Correlating one source ───────────────────────────────────────────────

  /** Incident `i` of the source holds the detections and evidence offered. */
  ghost predicate Holder(t: Tables, ip: string, rows: seq<nat>, ev: seq<Evidence>, i: nat) {
    && i < |t.incidents| && t.incidents[i].source == ip
    && (forall k | 0 <= k < |rows| :: rows[k] < |t.detections| && t.detections[rows[k]].incident == Some(i))
    && (forall k | 0 <= k < |ev| ::
          && EventLinked(t.eventLinks, i, ev[k].event.id)
          && (ev[k].event.username != "" ==> ev[k].event.username in t.incidents[i].users)
          && (ev[k].event.sensor != "" ==> ev[k].event.sensor in t.incidents[i].sensors))
  }

  /** The links from position `n` on are of evidence to incident `i`, not linked
      to it before, each once. */
  ghost predicate LinksFrom(links: seq<EventLink>, before: seq<EventLink>, i: nat, ev: seq<Evidence>) {
    && before <= links
    && (forall n | |before| <= n < |links| ::
          && links[n].incident == i && !EventLinked(before, i, links[n].eventId)
          && exists k :: 0 <= k < |ev| && links[n] == EventLink(i, ev[k].event.id, ev[k].reason))
    && (forall m, n | |before| <= m < n < |links| :: links[m].eventId != links[n].eventId)
  }

  lemma {:induction false} NewLinksFrom(links: seq<EventLink>, i: nat, ev: seq<Evidence>)
    requires DistinctIds(ev)
    ensures LinksFrom(links + NewEventLinks(links, i, ev), links, i, ev)
  {
    hide EventLinked;
    if ev == [] {
    } else {
      var rest, x := ev[..|ev| - 1], ev[|ev| - 1];
      NewLinksFrom(links, i, rest);
      var before, all := links + NewEventLinks(links, i, rest), links + NewEventLinks(links, i, ev);
      assert before <= all;
      forall n | |links| <= n < |all|
        ensures all[n].incident == i && !EventLinked(links, i, all[n].eventId)
        ensures exists k :: 0 <= k < |ev| && all[n] == EventLink(i, ev[k].event.id, ev[k].reason)
      {
        if n < |before| {
          var k :| 0 <= k < |rest| && before[n] == EventLink(i, rest[k].event.id, rest[k].reason);
          assert all[n] == before[n] && ev[k] == rest[k];
        } else {
          assert all[n] == EventLink(i, x.event.id, x.reason);
        }
      }
      forall m, n | |links| <= m < n < |all|
        ensures all[m].eventId != all[n].eventId
      {
        if n >= |before| {
          var k :| 0 <= k < |rest| && before[m] == EventLink(i, rest[k].event.id, rest[k].reason);
          assert ev[k] == rest[k];
        } else {
          assert all[m] == before[m] && all[n] == before[n];
        }
      }
    }
  }

  /** Other incidents are left alone. */
  ghost predicate OthersStay(t: Tables, t': Tables, i: nat) {
    && |t.incidents| <= |t'.incidents| && SameButIncident(t.detections, t'.detections)
    && forall j | 0 <= j < |t.incidents| && j != i :: t'.incidents[j] == t.incidents[j]
  }

  lemma PeopleKept(t: Tables, now: int, ip: string, a: Input)
    requires RowsExist(t, a) && !Skips(a)
    ensures var inc := Correlate(t, now, ip, a).incidents[Target(t, now, ip)];
      UsersOf(a.evidence) <= inc.users && SensorsOf(a.evidence) <= inc.sensors
  {
    hide UsersOf, SensorsOf, IncidentSeverity, IncidentConfidence, IncidentRisk, MergeTechniques, TechniquesOf, ReasonsOf,
      NewEventLinks, NewIocLinks, Filter, Assign, At;
  }

  lemma PeopleNamed(ev: seq<Evidence>, k: nat)
    requires k < |ev|
    ensures ev[k].event.username != "" ==> ev[k].event.username in UsersOf(ev)
    ensures ev[k].event.sensor != "" ==> ev[k].event.sensor in SensorsOf(ev)
  {
  }

  lemma CorrelateRows(t: Tables, now: int, ip: string, a: Input, t': Tables)
    requires RowsExist(t, a) && !Skips(a) && t' == Correlate(t, now, ip, a)
    ensures forall k | 0 <= k < |a.rows| ::
      a.rows[k] < |t'.detections| && t'.detections[a.rows[k]].incident == Some(Target(t, now, ip))
    ensures t'.eventLinks == t.eventLinks + NewEventLinks(t.eventLinks, Target(t, now, ip), a.evidence)
  {
    hide Receiving, Scored, NewEventLinks, NewIocLinks, Filter, At, Target;
  }

  lemma TargetSource(t: Tables, now: int, ip: string)
    ensures Target(t, now, ip) < |t.incidents| ==> t.incidents[Target(t, now, ip)].source == ip
  {
  }

  lemma CorrelateOthers(t: Tables, now: int, ip: string, a: Input, t': Tables)
    requires RowsExist(t, a) && !Skips(a) && t' == Correlate(t, now, ip, a)
    ensures OthersStay(t, t', Target(t, now, ip))
  {
    hide Correlate, Target, SameButIncident;
    CorrelateLinks(t, now, ip, a);
    var i, inc := TargetRow(t, now, ip, a);
  }

  lemma CorrelateHolds(t: Tables, now: int, ip: string, a: Input, t': Tables)
    requires RowsExist(t, a) && !Skips(a) && t' == Correlate(t, now, ip, a) && DistinctIds(a.evidence)
    ensures Holder(t', ip, a.rows, a.evidence, Target(t, now, ip))
    ensures LinksFrom(t'.eventLinks, t.eventLinks, Target(t, now, ip), a.evidence)
    ensures OthersStay(t, t', Target(t, now, ip))
    ensures Target(t, now, ip) < |t.incidents| ==> t.incidents[Target(t, now, ip)].source == ip
  {
    hide UsersOf, SensorsOf, Correlate, NewEventLinks, EventLinked, LinksFrom, Target, DistinctIds, OthersStay, RowsExist, Skips;
    var i, inc := TargetRow(t, now, ip, a);
    TargetSource(t, now, ip);
    PeopleKept(t, now, ip, a);
    CorrelateRows(t, now, ip, a, t');
    CorrelateOthers(t, now, ip, a, t');
    NewLinksFrom(t.eventLinks, i, a.evidence);
    forall k | 0 <= k < |a.evidence|
      ensures EventLinked(t'.eventLinks, i, a.evidence[k].event.id)
      ensures a.evidence[k].event.username != "" ==> a.evidence[k].event.username in UsersOf(a.evidence)
      ensures a.evidence[k].event.sensor != "" ==> a.evidence[k].event.sensor in SensorsOf(a.evidence)
    {
      LinksEvents(t.eventLinks, i, a.evidence, k);
      PeopleNamed(a.evidence, k);
    }
  }

  lemma LinkedStays(links: seq<EventLink>, more: seq<EventLink>, i: nat, id: string)
    requires EventLinked(links, i, id) && links <= more
    ensures EventLinked(more, i, id)
  {
    var k :| 0 <= k < |links| && links[k].incident == i && links[k].eventId == id;
    assert more[k] == links[k];
  }

  lemma SameLength(ds: seq<Detection>, es: seq<Detection>)
    requires SameButIncident(ds, es)
    ensures |ds| == |es|
  {
  }

  /** Correlating another source leaves the holder as it is. */
  lemma HolderStays(t: Tables, t': Tables, ip: string, rows: seq<nat>, ev: seq<Evidence>, i: nat, other: nat, added: seq<nat>)
    requires Holder(t, ip, rows, ev, i) && OthersStay(t, t', other) && other != i && t.eventLinks <= t'.eventLinks
    requires forall k | 0 <= k < |t.detections| && k !in added :: t'.detections[k] == t.detections[k]
    requires forall k | 0 <= k < |rows| :: rows[k] !in added
    ensures Holder(t', ip, rows, ev, i)
  {
    hide EventLinked, SameButIncident;
    SameLength(t.detections, t'.detections);
    forall k | 0 <= k < |ev|
      ensures EventLinked(t'.eventLinks, i, ev[k].event.id)
    {
      LinkedStays(t.eventLinks, t'.eventLinks, i, ev[k].event.id);
    }
  }

  // ── All the sources of a cycle ───────────────────────────────────────────

  ghost predicate Keeps(t: Tables, r: Reading, base: nat, novel: seq<Candidate>, ip: string, i: nat) {
    Holder(t, ip, RowsFor(base, novel, ip), InputFor(r, base, novel, ip).evidence, i)
  }

  ghost predicate OfEvidence(l: EventLink, ev: seq<Evidence>) {
    exists k :: 0 <= k < |ev| && l.eventId == ev[k].event.id && l.reason == ev[k].reason
  }

  /** A link a cycle adds: of some source's evidence, to that source's incident,
      which did not have it. */
  ghost predicate Added(l: EventLink, before: seq<EventLink>, r: Reading, base: nat, novel: seq<Candidate>,
                        at: map<string, nat>)
  {
    && !EventLinked(before, l.incident, l.eventId)
    && exists ip :: ip in at && l.incident == at[ip] && OfEvidence(l, InputFor(r, base, novel, ip).evidence)
  }

  /** What holds after some of the sources have been correlated: `at` tells each
      one's incident. */
  ghost predicate AllKept(t: Tables, t': Tables, r: Reading, base: nat, novel: seq<Candidate>, ips: seq<string>,
                          at: map<string, nat>)
  {
    && (forall ip :: ip in at <==> ip in ips)
    && (forall ip | ip in at :: Keeps(t', r, base, novel, ip, at[ip]))
    && t.eventLinks <= t'.eventLinks
    && (forall n | |t.eventLinks| <= n < |t'.eventLinks| :: Added(t'.eventLinks[n], t.eventLinks, r, base, novel, at))
    && (forall m, n | |t.eventLinks| <= m < n < |t'.eventLinks| ::
          t'.eventLinks[m].incident != t'.eventLinks[n].incident || t'.eventLinks[m].eventId != t'.eventLinks[n].eventId)
  }

  lemma AddedMore(l: EventLink, before: seq<EventLink>, r: Reading, base: nat, novel: seq<Candidate>, at: map<string, nat>,
                  ip: string, i: nat)
    requires Added(l, before, r, base, novel, at) && ip !in at
    ensures Added(l, before, r, base, novel, at[ip := i])
  {
    hide OfEvidence, EventLinked;
    var other :| other in at && l.incident == at[other] && OfEvidence(l, InputFor(r, base, novel, other).evidence);
    assert other in at[ip := i];
  }

  /** The links of the last source. */
  lemma LastAdded(before: seq<EventLink>, mid: seq<EventLink>, links: seq<EventLink>, r: Reading, base: nat,
                  novel: seq<Candidate>, at: map<string, nat>, ip: string, n: nat)
    requires ip in at && before <= mid && LinksFrom(links, mid, at[ip], InputFor(r, base, novel, ip).evidence)
    requires |mid| <= n < |links|
    ensures Added(links[n], before, r, base, novel, at)
  {
    hide InputFor;
    var i, ev := at[ip], InputFor(r, base, novel, ip).evidence;
    if EventLinked(before, i, links[n].eventId) {
      LinkedStays(before, mid, i, links[n].eventId);
    }
    assert OfEvidence(links[n], ev);
  }

  /** A link already there is linked. */
  lemma LinkListed(links: seq<EventLink>, n: nat)
    requires n < |links|
    ensures EventLinked(links, links[n].incident, links[n].eventId)
  {
  }

  lemma NewLinksDiffer(mid: seq<EventLink>, links: seq<EventLink>, from: nat, i: nat, ev: seq<Evidence>)
    requires from <= |mid| && LinksFrom(links, mid, i, ev)
    requires forall m, n | from <= m < n < |mid| :: mid[m].incident != mid[n].incident || mid[m].eventId != mid[n].eventId
    ensures forall m, n | from <= m < n < |links| ::
      links[m].incident != links[n].incident || links[m].eventId != links[n].eventId
  {
    hide EventLinked;
    forall m, n | from <= m < n < |links|
      ensures links[m].incident != links[n].incident || links[m].eventId != links[n].eventId
    {
      if m < |mid| {
        assert links[m] == mid[m];
        LinkListed(mid, m);
        assert n < |mid| ==> links[n] == mid[n];
      }
    }
  }

  lemma SourceOfHolder(t: Tables, r: Reading, base: nat, novel: seq<Candidate>, ip: string, i: nat)
    requires Keeps(t, r, base, novel, ip, i)
    ensures i < |t.incidents| && t.incidents[i].source == ip
  {
    hide InputFor, RowsFor;
  }

  lemma RowsApart(base: nat, novel: seq<Candidate>, ip: string, other: string)
    requires ip != other
    ensures forall k | 0 <= k < |RowsFor(base, novel, ip)| :: RowsFor(base, novel, ip)[k] !in RowsFor(base, novel, other)
  {
    hide IpOf, RowsFor;
    RowsInRange(base, novel, ip, RowsFor(base, novel, ip));
    RowsInRange(base, novel, other, RowsFor(base, novel, other));
  }

  /** Every holder survives the next source's correlation. */
  lemma HoldersStay(u: Tables, t': Tables, r: Reading, base: nat, novel: seq<Candidate>, at: map<string, nat>, ip: string, i: nat)
    requires Ready(u, base, novel) && ip !in at && OthersStay(u, t', i) && u.eventLinks <= t'.eventLinks
    requires i < |u.incidents| ==> u.incidents[i].source == ip
    requires forall k | 0 <= k < |u.detections| && k !in RowsFor(base, novel, ip) :: t'.detections[k] == u.detections[k]
    requires forall other | other in at :: Keeps(u, r, base, novel, other, at[other])
    ensures forall other | other in at :: Keeps(t', r, base, novel, other, at[other])
  {
    hide InputFor, IpOf, RowsFor;
    forall other | other in at
      ensures Keeps(t', r, base, novel, other, at[other])
    {
      RowsApart(base, novel, other, ip);
      SourceOfHolder(u, r, base, novel, other, at[other]);
      HolderStays(u, t', other, RowsFor(base, novel, other), InputFor(r, base, novel, other).evidence, at[other], i,
                  RowsFor(base, novel, ip));
    }
  }

  lemma KeptNone(t: Tables, r: Reading, base: nat, novel: seq<Candidate>)
    ensures AllKept(t, t, r, base, novel, [], map[])
  {
  }

  lemma KeptMore(t: Tables, u: Tables, t': Tables, r: Reading, base: nat, novel: seq<Candidate>, rest: seq<string>,
                 ip: string, i: nat, at: map<string, nat>)
    requires AllKept(t, u, r, base, novel, rest, at) && ip !in rest && Ready(u, base, novel)
    requires Keeps(t', r, base, novel, ip, i) && OthersStay(u, t', i)
    requires LinksFrom(t'.eventLinks, u.eventLinks, i, InputFor(r, base, novel, ip).evidence)
    requires i < |u.incidents| ==> u.incidents[i].source == ip
    requires forall k | 0 <= k < |u.detections| && k !in RowsFor(base, novel, ip) :: t'.detections[k] == u.detections[k]
    ensures AllKept(t, t', r, base, novel, rest + [ip], at[ip := i])
  {
    hide InputFor, Keeps, OthersStay, RowsFor, Added;
    var at' := at[ip := i];
    assert u.eventLinks <= t'.eventLinks;
    HoldersStay(u, t', r, base, novel, at, ip, i);
    NewLinksDiffer(u.eventLinks, t'.eventLinks, |t.eventLinks|, i, InputFor(r, base, novel, ip).evidence);
    forall n | |t.eventLinks| <= n < |t'.eventLinks|
      ensures Added(t'.eventLinks[n], t.eventLinks, r, base, novel, at')
    {
      if n < |u.eventLinks| {
        assert t'.eventLinks[n] == u.eventLinks[n];
        AddedMore(u.eventLinks[n], t.eventLinks, r, base, novel, at, ip, i);
      } else {
        LastAdded(t.eventLinks, u.eventLinks, t'.eventLinks, r, base, novel, at', ip, n);
      }
    }
  }

  lemma HolderKeeps(t: Tables, r: Reading, base: nat, novel: seq<Candidate>, ip: string, a: Input, i: nat)
    requires a == InputFor(r, base, novel, ip) && Holder(t, ip, a.rows, a.evidence, i) && a.rows == RowsFor(base, novel, ip)
    ensures Keeps(t, r, base, novel, ip, i)
  {
    hide InputFor, RowsFor;
  }

  lemma {:induction false} AllLinkedTo(t: Tables, now: int, r: Reading, base: nat, novel: seq<Candidate>, ips: seq<string>,
                                       t': Tables) returns (at: map<string, nat>)
    requires Ready(t, base, novel) && t' == CorrelateAll(t, now, r, base, novel, ips)
    requires Distinct(ips) && forall k | 0 <= k < |ips| :: !Skips(InputFor(r, base, novel, ips[k]))
    ensures AllKept(t, t', r, base, novel, ips, at)
  {
    hide InputFor, Correlate, AllKept, Skips, Keeps, RowsFor, LinksFrom, OthersStay;
    if ips == [] {
      at := map[];
      KeptNone(t, r, base, novel);
    } else {
      var rest, ip := ips[..|ips| - 1], ips[|ips| - 1];
      var u := CorrelateAll(t, now, r, base, novel, rest);
      at := AllLinkedTo(t, now, r, base, novel, rest, u);
      var a := InputFor(r, base, novel, ip);
      InputRows(r, base, novel, ip, u);
      InputRowsOf(r, base, novel, ip);
      InputEvidence(r, base, novel, ip);
      assert !Skips(a) && ips == rest + [ip] && ip !in rest;
      CorrelateHolds(u, now, ip, a, t');
      CorrelateLinks(u, now, ip, a);
      var i := Target(u, now, ip);
      assert Keeps(t', r, base, novel, ip, i) by {
        HolderKeeps(t', r, base, novel, ip, a, i);
      }
      KeptMore(t, u, t', r, base, novel, rest, ip, i, at);
      at := at[ip := i];
    }
  }

  // ── The cycle ────────────────────────────────────────────────────────────

  /** A source is correlated when a new detection is of it or the batch has a
      high-risk event of it. */
  ghost predicate IsSource(novel: seq<Candidate>, batch: seq<Event>, ip: string) {
    && ip != ""
    && ((exists m :: 0 <= m < |novel| && IpOf(novel[m]) == ip)
        || exists e :: e in batch && e.sourceIp == ip && EventRisk(e) >= 80.0)
  }

  lemma {:induction false} HighRiskIpsIff(batch: seq<Event>, ip: string)
    ensures ip in HighRiskIps(batch) <==> exists e :: e in batch && e.sourceIp == ip && EventRisk(e) >= 80.0
  {
    hide EventRisk;
    if batch == [] {
    } else {
      var rest, e := batch[..|batch| - 1], batch[|batch| - 1];
      HighRiskIpsIff(rest, ip);
      assert batch == rest + [e] && e in batch;
    }
  }

  lemma SourcesIff(novel: seq<Candidate>, batch: seq<Event>, ip: string)
    ensures ip in Sources(novel, batch) <==> IsSource(novel, batch, ip)
  {
    hide EventRisk, IpOf;
    FilterIn(Dedup(IpsOf(novel) + HighRiskIps(batch)), NonEmpty(), ip);
    HighRiskIpsIff(batch, ip);
    if ip in IpsOf(novel) {
      var m :| 0 <= m < |novel| && IpsOf(novel)[m] == ip;
      assert IpOf(novel[m]) == ip;
    }
    forall m | 0 <= m < |novel| && IpOf(novel[m]) == ip
      ensures ip in IpsOf(novel)
    {
      assert IpsOf(novel)[m] == ip;
    }
  }

  /** The source of a detection: the source of the first event it matched, or the
      name of its group when that event has none. */
  lemma IpOfMeans(c: Candidate, window: seq<Event>, now: int)
    requires Sound(c, window, now)
    ensures IpOf(c) == if c.matched[0].sourceIp != "" then c.matched[0].sourceIp else c.group
  {
    hide Key, Bucket, NamesUser, MeetRule;
  }

  /** Event `e` is linked to the incident, which lists its user and sensor. */
  ghost predicate Shown(t: Tables, i: nat, e: Event) {
    && i < |t.incidents| && EventLinked(t.eventLinks, i, e.id)
    && (e.username != "" ==> e.username in t.incidents[i].users)
    && (e.sensor != "" ==> e.sensor in t.incidents[i].sensors)
  }

  /** Why a link is there: the reason of the last new detection of the source
      that matched the event, or its own high risk when none did. */
  ghost predicate Explained(l: EventLink, novel: seq<Candidate>, batch: seq<Event>, ip: string) {
    || (exists m: nat :: m < |novel| && LastMatch(novel, ip, l.eventId, m) && l.reason == novel[m].reason)
    || (&& Unmatched(novel, ip, l.eventId)
        && exists e :: e in batch && e.id == l.eventId && e.sourceIp == ip && EventRisk(e) >= 80.0
                       && l.reason == HighRisk(EventRisk(e), e.sensor))
  }

  lemma OffersShown(t: Tables, ip: string, rows: seq<nat>, novel: seq<Candidate>, batch: seq<Event>, log: seq<Event>,
                    ev: seq<Evidence>, i: nat, e: Event)
    requires Holder(t, ip, rows, ev, i) && Complete(novel, batch, ip, ev) && Offered(ev, e.id)
    requires UniqueIds(log) && e in log
    requires forall m, e | 0 <= m < |novel| && e in novel[m].matched :: e in log
    requires forall e | e in batch :: e in log
    ensures Shown(t, i, e)
  {
    hide EventLinked, EventRisk, LastMatch, Unmatched, IpOf;
    var k :| 0 <= k < |ev| && ev[k].event.id == e.id;
    assert Grounded(novel, batch, ip, ev[k]);
    assert ev[k].event in log;
    SameId(log, ev[k].event, e);
  }

  lemma LinkExplained(l: EventLink, novel: seq<Candidate>, batch: seq<Event>, ip: string, ev: seq<Evidence>)
    requires Complete(novel, batch, ip, ev) && OfEvidence(l, ev)
    ensures Explained(l, novel, batch, ip)
  {
    hide EventRisk, LastMatch, Unmatched, IpOf;
    var k :| 0 <= k < |ev| && l.eventId == ev[k].event.id && l.reason == ev[k].reason;
    assert Grounded(novel, batch, ip, ev[k]);
    if FromMatch(novel, ip, ev[k]) {
      var m: nat :| m < |novel| && LastMatch(novel, ip, ev[k].event.id, m) && ev[k].reason == novel[m].reason
                    && ev[k].event in novel[m].matched;
      assert LastMatch(novel, ip, l.eventId, m);
    }
  }

  lemma RaisedLinks(t: Tables, p: Plan)
    ensures Raised(t, p).eventLinks == t.eventLinks
  {
    hide Raise, Upserted, KeysOf;
  }

  lemma NovelIsSource(novel: seq<Candidate>, batch: seq<Event>, k: nat)
    requires k < |novel| && IpOf(novel[k]) != ""
    ensures IsSource(novel, batch, IpOf(novel[k]))
  {
    hide IpOf, EventRisk;
  }

  lemma EventIsSource(novel: seq<Candidate>, batch: seq<Event>, e: Event)
    requires e in batch && e.sourceIp != "" && EventRisk(e) >= 80.0
    ensures IsSource(novel, batch, e.sourceIp)
  {
    hide IpOf, EventRisk;
  }

  lemma RowHeld(t: Tables, ip: string, rows: seq<nat>, ev: seq<Evidence>, i: nat, row: nat)
    requires Holder(t, ip, rows, ev, i) && row in rows
    ensures row < |t.detections| && t.detections[row].incident == Some(i)
  {
    hide EventLinked;
  }

  lemma MatchOffered(novel: seq<Candidate>, batch: seq<Event>, ip: string, ev: seq<Evidence>, k: nat, e: Event)
    requires Complete(novel, batch, ip, ev) && k < |novel| && IpOf(novel[k]) == ip && e in novel[k].matched
    ensures Offered(ev, e.id)
  {
    hide IpOf, Offered, EventRisk;
  }

  lemma SameShown(t: Tables, t1: Tables, i: nat, e: Event)
    requires Shown(t, i, e) && t1.incidents == t.incidents && t1.eventLinks == t.eventLinks
    ensures Shown(t1, i, e)
  {
  }

  lemma DetectionShown(u: Tables, log: seq<Event>, r: Reading, base: nat, novel: seq<Candidate>, k: nat, i: nat, t1: Tables)
    requires k < |novel| && Keeps(u, r, base, novel, IpOf(novel[k]), i) && UniqueIds(log)
    requires t1.detections == u.detections && t1.incidents == u.incidents && t1.eventLinks == u.eventLinks
    requires forall i, k | 0 <= i < |novel| && 0 <= k < |novel[i].matched| :: novel[i].matched[k] in log
    requires forall k | 0 <= k < |r.batch| :: r.batch[k] in log
    ensures base + k < |t1.detections| && t1.detections[base + k].incident == Some(i)
    ensures forall e | e in novel[k].matched :: Shown(t1, i, e)
  {
    hide IpOf, RowsFor, InputFor, Holder, Complete, Offered;
    var ip := IpOf(novel[k]);
    var ev := InputFor(r, base, novel, ip).evidence;
    RowsCover(base, novel, k);
    RowHeld(u, ip, RowsFor(base, novel, ip), ev, i, base + k);
    InputEvidence(r, base, novel, ip);
    forall e | e in novel[k].matched
      ensures Shown(t1, i, e)
    {
      MatchOffered(novel, r.batch, ip, ev, k, e);
      OffersShown(u, ip, RowsFor(base, novel, ip), novel, r.batch, log, ev, i, e);
      SameShown(u, t1, i, e);
    }
  }

  lemma AlarmShown(u: Tables, log: seq<Event>, r: Reading, base: nat, novel: seq<Candidate>, e: Event, i: nat, t1: Tables)
    requires e in r.batch && EventRisk(e) >= 80.0 && Keeps(u, r, base, novel, e.sourceIp, i) && UniqueIds(log)
    requires t1.incidents == u.incidents && t1.eventLinks == u.eventLinks
    requires forall i, k | 0 <= i < |novel| && 0 <= k < |novel[i].matched| :: novel[i].matched[k] in log
    requires forall k | 0 <= k < |r.batch| :: r.batch[k] in log
    ensures Shown(t1, i, e)
  {
    hide RowsFor, InputFor, Holder, Offered, EventRisk, IpOf;
    var ev := InputFor(r, base, novel, e.sourceIp).evidence;
    InputEvidence(r, base, novel, e.sourceIp);
    assert Offered(ev, e.id);
    hide Complete;
    OffersShown(u, e.sourceIp, RowsFor(base, novel, e.sourceIp), novel, r.batch, log, ev, i, e);
    SameShown(u, t1, i, e);
  }

  /** A new link: to the incident of a source, not there before, and explained. */
  ghost predicate Justified(l: EventLink, before: seq<EventLink>, novel: seq<Candidate>, batch: seq<Event>,
                            at: map<string, nat>)
  {
    && !EventLinked(before, l.incident, l.eventId)
    && exists ip :: ip in at && l.incident == at[ip] && Explained(l, novel, batch, ip)
  }

  lemma AddedExplained(l: EventLink, before: seq<EventLink>, r: Reading, base: nat, novel: seq<Candidate>, at: map<string, nat>)
    requires Added(l, before, r, base, novel, at)
    ensures Justified(l, before, novel, r.batch, at)
  {
    hide InputFor, EventLinked, OfEvidence, Explained, Complete;
    var ip :| ip in at && l.incident == at[ip] && OfEvidence(l, InputFor(r, base, novel, ip).evidence);
    InputEvidence(r, base, novel, ip);
    LinkExplained(l, novel, r.batch, ip, InputFor(r, base, novel, ip).evidence);
  }

  /** What a committed cycle links. `at` names the incident of each source it
      correlates. Every new detection with a source belongs to that source's
      incident, and every event it matched is linked to it, its user and sensor
      listed; so is every high-risk event of the batch. Every new link is one of
      those, was not there before, is there once, and says why. */
  lemma CycleLinks(t: Tables, log: seq<Event>, rules: seq<Rule>, now: int, reports: set<string>, p: Plan, t1: Tables)
    returns (at: map<string, nat>)
    requires Cycle(t, log, rules, now, reports) == Some(t1) && NextBatch(log, CursorOf(t, now)) != []
    requires p == PlanOf(t, log, rules, now) && UniqueIds(log)
    ensures forall ip :: ip in at <==> IsSource(p.novel, p.batch, ip)
    ensures forall ip | ip in at :: at[ip] < |t1.incidents| && t1.incidents[at[ip]].source == ip
    ensures |t1.detections| == |t.detections| + |p.novel|
    ensures forall k | 0 <= k < |p.novel| && IpOf(p.novel[k]) != "" ::
      && IpOf(p.novel[k]) in at && t1.detections[|t.detections| + k].incident == Some(at[IpOf(p.novel[k])])
      && forall e | e in p.novel[k].matched :: Shown(t1, at[IpOf(p.novel[k])], e)
    ensures forall e | e in p.batch && e.sourceIp != "" && EventRisk(e) >= 80.0 ::
      e.sourceIp in at && Shown(t1, at[e.sourceIp], e)
    ensures t.eventLinks <= t1.eventLinks
    ensures forall n | |t.eventLinks| <= n < |t1.eventLinks| :: Justified(t1.eventLinks[n], t.eventLinks, p.novel, p.batch, at)
    ensures forall m, n | |t.eventLinks| <= m < n < |t1.eventLinks| ::
      t1.eventLinks[m].incident != t1.eventLinks[n].incident || t1.eventLinks[m].eventId != t1.eventLinks[n].eventId
  {
    hide PlanOf, KeysOf, Upserted, CorrelateAll, Sources, LatestIngest, NextBatch, Cycle, Raise, InputFor, Skips, Filter,
      Raised, IsSource, EventRisk, IpOf, RowsFor, Shown, Justified, EventLinked, Keeps, Added;
    var p', t0, u := CycleParts(t, log, rules, now, reports, t1);
    var r, base, ips := Reading(log, p.batch, reports), |t.detections|, Sources(p.novel, p.batch);
    SourcesDistinct(p.novel, p.batch);
    forall k | 0 <= k < |ips|
      ensures !Skips(InputFor(r, base, p.novel, ips[k]))
    {
      SourceHasInput(r, base, p.novel, ips[k]);
    }
    at := AllLinkedTo(t0, now, r, base, p.novel, ips, u);
    forall ip
      ensures ip in at <==> IsSource(p.novel, p.batch, ip)
    {
      SourcesIff(p.novel, p.batch, ip);
    }
    NovelFromLog(t, log, rules, now, p);
    assert t0.eventLinks == t.eventLinks by {
      RaisedLinks(t, p);
    }
    forall ip | ip in at
      ensures at[ip] < |t1.incidents| && t1.incidents[at[ip]].source == ip
    {
      SourceOfHolder(u, r, base, p.novel, ip, at[ip]);
    }
    forall k | 0 <= k < |p.novel| && IpOf(p.novel[k]) != ""
      ensures IpOf(p.novel[k]) in at && t1.detections[base + k].incident == Some(at[IpOf(p.novel[k])])
      ensures forall e | e in p.novel[k].matched :: Shown(t1, at[IpOf(p.novel[k])], e)
    {
      NovelIsSource(p.novel, p.batch, k);
      DetectionShown(u, log, r, base, p.novel, k, at[IpOf(p.novel[k])], t1);
    }
    forall e | e in p.batch && e.sourceIp != "" && EventRisk(e) >= 80.0
      ensures e.sourceIp in at && Shown(t1, at[e.sourceIp], e)
    {
      EventIsSource(p.novel, p.batch, e);
      AlarmShown(u, log, r, base, p.novel, e, at[e.sourceIp], t1);
    }
    forall n | |t.eventLinks| <= n < |t1.eventLinks|
      ensures Justified(t1.eventLinks[n], t.eventLinks, p.novel, p.batch, at)
    {
      AddedExplained(t1.eventLinks[n], t.eventLinks, r, base, p.novel, at);
    }
  }

  ghost predicate MatchShown(t1: Tables, row: nat, c: Candidate) {
    && row < |t1.detections| && t1.detections[row].incident.Some?
    && forall e | e in c.matched :: Shown(t1, t1.detections[row].incident.value, e)
  }

  /** Every event a new detection matched is shown by that detection's incident. */
  ghost predicate MatchesShown(t: Tables, t1: Tables, novel: seq<Candidate>) {
    |t1.detections| == |t.detections| + |novel| &&
    forall k | 0 <= k < |novel| && IpOf(novel[k]) != "" :: MatchShown(t1, |t.detections| + k, novel[k])
  }

  lemma CycleShows(t: Tables, log: seq<Event>, rules: seq<Rule>, now: int, reports: set<string>, p: Plan, t1: Tables)
    requires Cycle(t, log, rules, now, reports) == Some(t1) && p == PlanOf(t, log, rules, now) && p.batch != []
    requires UniqueIds(log)
    ensures MatchesShown(t, t1, p.novel)
  {
    hide Cycle, PlanOf, Shown, Justified, IsSource, IpOf, EventRisk, EventLinked, NextBatch;
    BatchOf(t, log, rules, now, p);
    var at := CycleLinks(t, log, rules, now, reports, p, t1);
  }
}
