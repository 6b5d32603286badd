/** What a source contributes to a cycle and what its incident then holds, in
    terms of the log, the batch and the new detections. */
module Folding {
  import opened Collections
  import opened Model
  import opened Rules
  import opened Iocs
  import opened Scoring
  import opened Correlation
  import opened Engine
  import opened Replay
  import opened Safety
  import opened Later

  // ── The input of one source ──────────────────────────────────────────────

  ghost predicate OfBatch(batch: seq<Event>, ip: string, e: Event) {
    e in batch && e.sourceIp == ip
  }

  /** The greatest event risk among the source's events of the batch, or 0. */
  ghost predicate IsMaxRisk(batch: seq<Event>, ip: string, risk: real) {
    && (forall e | OfBatch(batch, ip, e) :: EventRisk(e) <= risk)
    && if exists e :: OfBatch(batch, ip, e) then exists e :: OfBatch(batch, ip, e) && EventRisk(e) == risk else risk == 0.0
  }

  /** An indicator that an event of the source in the batch mentions. */
  ghost predicate Mentioned(batch: seq<Event>, ip: string, p: Ioc) {
    exists e :: OfBatch(batch, ip, e) && p in ExtractIocs(e)
  }

  lemma SessionsCounted(log: seq<Event>, ip: string)
    ensures |Filter(log, FromSource(ip))| == |set i: nat | i < |log| && log[i].sourceIp == ip|
  {
    FilterPositions(log, FromSource(ip));
    assert Positions(log, FromSource(ip)) == set i: nat | i < |log| && log[i].sourceIp == ip;
  }

  lemma MalwareIff(ps: seq<Ioc>, reports: set<string>)
    ensures MalwareLinked(ps, reports) <==> exists p :: p in ps && p.kind in {"sha256", "md5", "sha1"} && p.value in reports
  {
    if exists p :: p in ps && p.kind in {"sha256", "md5", "sha1"} && p.value in reports {
      var p :| p in ps && p.kind in {"sha256", "md5", "sha1"} && p.value in reports;
      var k :| 0 <= k < |ps| && ps[k] == p;
      assert IsHash(ps[k].kind);
    }
    if MalwareLinked(ps, reports) {
      var k :| 0 <= k < |ps| && IsHash(ps[k].kind) && ps[k].value in reports;
      assert ps[k] in ps;
    }
  }

  lemma MineAre(batch: seq<Event>, ip: string, mine: seq<Event>)
    requires mine == Filter(batch, FromSource(ip))
    ensures forall e :: e in mine <==> OfBatch(batch, ip, e)
    ensures mine == [] <==> !exists e :: OfBatch(batch, ip, e)
  {
    forall e: Event
      ensures e in mine <==> OfBatch(batch, ip, e)
    {
      FilterIn(batch, FromSource(ip), e);
    }
    if mine != [] {
      assert OfBatch(batch, ip, mine[0]);
    }
  }

  /** What is offered for a source: the new detections of it, the indicators its
      events of the batch mention, their greatest risk, how many events of it were
      ever stored when it has any in the batch, and whether one of those
      indicators is the hash of an analysed sample. */
  lemma InputMeans(r: Reading, base: nat, novel: seq<Candidate>, ip: string, a: Input)
    requires a == InputFor(r, base, novel, ip) && ip != ""
    ensures forall row: nat :: row in a.rows <==> base <= row < base + |novel| && IpOf(novel[row - base]) == ip
    ensures Distinct(a.iocs) && forall p :: p in a.iocs <==> Mentioned(r.batch, ip, p)
    ensures IsMaxRisk(r.batch, ip, a.maxRisk)
    ensures a.sessions == if exists e :: OfBatch(r.batch, ip, e) then |set i: nat | i < |r.log| && r.log[i].sourceIp == ip| else 0
    ensures a.malware <==>
      exists p :: Mentioned(r.batch, ip, p) && p.kind in {"sha256", "md5", "sha1"} && p.value in r.reports
  {
    hide EvidenceFor, AddHighRisk, AllIocs, MalwareLinked, MaxRisk, Filter, Dedup, RowsFor, IpOf, EventRisk, ExtractIocs, OfBatch;
    var mine := Filter(r.batch, FromSource(ip));
    MineAre(r.batch, ip, mine);
    SessionsCounted(r.log, ip);
    MaxRiskIs(mine);
    MalwareIff(Dedup(AllIocs(mine)), r.reports);
    forall p: Ioc
      ensures p in Dedup(AllIocs(mine)) <==> Mentioned(r.batch, ip, p)
    {
      AllIocsIn(mine, p);
    }
    InputRowsOf(r, base, novel, ip);
    RowsInRange(base, novel, ip, a.rows);
    forall row: nat | base <= row < base + |novel| && IpOf(novel[row - base]) == ip
      ensures row in a.rows
    {
      RowsCover(base, novel, row - base);
    }
  }

  // ── The incident afterwards ──────────────────────────────────────────────

  /** The incidents a source's evidence may still join. */
  ghost predicate Joinable(inc: Incident, ip: string, now: int) {
    && inc.source == ip && inc.status in {NEW, TRIAGING, INVESTIGATING, CONTAINED}
    && inc.lastSeen >= now - 21_600_000_000
  }

  /** The incident joined is the one seen last of those; there is a new one
      exactly when there are none. */
  lemma TargetMeans(t: Tables, now: int, ip: string)
    ensures var i := Target(t, now, ip);
      if i < |t.incidents|
      then Joinable(t.incidents[i], ip, now)
        && forall j | 0 <= j < |t.incidents| && Joinable(t.incidents[j], ip, now) :: t.incidents[j].lastSeen <= t.incidents[i].lastSeen
      else forall j | 0 <= j < |t.incidents| :: !Joinable(t.incidents[j], ip, now)
  {
    SelectChosen(t.incidents, ip, now);
    forall j | 0 <= j < |t.incidents|
      ensures Joinable(t.incidents[j], ip, now) <==> Live(t.incidents[j], ip, now)
    {
    }
  }

  lemma {:induction false} TechniquesIff(ds: seq<Detection>, x: string)
    ensures x in TechniquesOf(ds) <==> exists k :: 0 <= k < |ds| && ds[k].technique == Some(x)
  {
    if ds == [] {
    } else {
      var rest, d := ds[..|ds| - 1], ds[|ds| - 1];
      TechniquesIff(rest, x);
      assert TechniquesOf(ds) == TechniquesOf(rest) + match d.technique { case None => [] case Some(y) => [y] };
      if exists k :: 0 <= k < |rest| && rest[k].technique == Some(x) {
        var k :| 0 <= k < |rest| && rest[k].technique == Some(x);
        assert ds[k].technique == Some(x);
      }
      if d.technique == Some(x) {
        assert ds[|ds| - 1].technique == Some(x);
      }
    }
  }

  /** Merging keeps what is there, in place, and adds each further one once. */
  lemma {:induction false} MergedIff(have: seq<string>, more: seq<string>, all: seq<string>)
    requires all == MergeTechniques(have, more)
    ensures have <= all && (forall x :: x in all <==> x in have || x in more)
    ensures Distinct(have) ==> Distinct(all)
  {
    if more == [] {
    } else {
      var rest, last := more[..|more| - 1], more[|more| - 1];
      MergedIff(have, rest, MergeTechniques(have, rest));
      assert more == rest + [last];
    }
  }

  /** Everything in the row but its scores. */
  ghost predicate Gains(t: Tables, now: int, ip: string, a: Input, inc: Incident)
    requires RowsExist(t, a)
  {
    var i := Target(t, now, ip);
    var was := if i < |t.incidents| then t.incidents[i] else Incident(ip, NEW, now, now, {}, {}, [], {}, LOW, 0.5, 0.0);
    && inc.source == ip && inc.status == was.status && inc.firstSeen == was.firstSeen && inc.lastSeen == now
    && (forall u :: u in inc.users <==>
          u in was.users || (u != "" && exists k :: 0 <= k < |a.evidence| && a.evidence[k].event.username == u))
    && (forall s :: s in inc.sensors <==>
          s in was.sensors || (s != "" && exists k :: 0 <= k < |a.evidence| && a.evidence[k].event.sensor == s))
    && (forall x :: x in inc.techniques <==>
          x in was.techniques || exists k :: 0 <= k < |a.rows| && t.detections[a.rows[k]].technique == Some(x))
    && (forall x :: x in inc.reasons <==>
          x in was.reasons || exists k :: 0 <= k < |a.rows| && t.detections[a.rows[k]].reason == x)
    && was.techniques <= inc.techniques
  }

  lemma PeopleIff(ev: seq<Evidence>)
    ensures forall u :: u in UsersOf(ev) <==> u != "" && exists k :: 0 <= k < |ev| && ev[k].event.username == u
    ensures forall s :: s in SensorsOf(ev) <==> s != "" && exists k :: 0 <= k < |ev| && ev[k].event.sensor == s
  {
  }

  lemma AddedIff(t: Tables, a: Input, added: seq<Detection>)
    requires RowsExist(t, a) && added == At(t.detections, a.rows)
    ensures forall x :: x in ReasonsOf(added) <==> exists k :: 0 <= k < |a.rows| && t.detections[a.rows[k]].reason == x
    ensures forall x :: x in TechniquesOf(added) <==> exists k :: 0 <= k < |a.rows| && t.detections[a.rows[k]].technique == Some(x)
  {
    hide TechniquesOf;
    forall x
      ensures x in TechniquesOf(added) <==> exists k :: 0 <= k < |a.rows| && t.detections[a.rows[k]].technique == Some(x)
    {
      TechniquesIff(added, x);
      forall k | 0 <= k < |a.rows|
        ensures added[k] == t.detections[a.rows[k]]
      {
      }
    }
    forall k | 0 <= k < |a.rows|
      ensures added[k] == t.detections[a.rows[k]]
    {
    }
  }

  lemma ReceivingMeans(t: Tables, now: int, ip: string, a: Input, inc: Incident)
    requires RowsExist(t, a) && inc == Receiving(t, now, ip, At(t.detections, a.rows), a.evidence)
    ensures Gains(t, now, ip, a, inc)
  {
    hide UsersOf, SensorsOf, TechniquesOf, ReasonsOf, At, MergeTechniques, Select;
    var added := At(t.detections, a.rows);
    PeopleIff(a.evidence);
    AddedIff(t, a, added);
    var i := Target(t, now, ip);
    if i < |t.incidents| {
      MergedIff(t.incidents[i].techniques, TechniquesOf(added), inc.techniques);
    }
  }

  lemma ScoresAside(t: Tables, now: int, ip: string, a: Input, inc: Incident, scored: Incident)
    requires RowsExist(t, a) && Gains(t, now, ip, a, inc)
    requires scored == inc.(severity := scored.severity, confidence := scored.confidence, risk := scored.risk)
    ensures Gains(t, now, ip, a, scored)
  {
  }

  /** The whole effect of correlating one source: its incident gains the users,
      sensors, techniques and reasons offered and nothing else; exactly the rows
      offered are assigned to it; and it is scored from all its detections. */
  lemma CorrelateMeans(t: Tables, now: int, ip: string, a: Input, t': Tables)
    requires RowsExist(t, a) && !Skips(a) && t' == Correlate(t, now, ip, a)
    ensures var i := Target(t, now, ip);
      && i < |t'.incidents| && Gains(t, now, ip, a, t'.incidents[i])
      && (forall j | 0 <= j < |t.incidents| && j != i :: t'.incidents[j] == t.incidents[j])
      && |t'.incidents| == (if i < |t.incidents| then |t.incidents| else |t.incidents| + 1)
      && |t'.detections| == |t.detections|
      && (forall k | 0 <= k < |t.detections| ::
            t'.detections[k] == if k in a.rows then t.detections[k].(incident := Some(i)) else t.detections[k])
    ensures var i := Target(t, now, ip);
      var inc, linked := t'.incidents[i], Filter(t'.detections, LinkedTo(i));
      && (forall d :: d in linked <==> d in t'.detections && d.incident == Some(i))
      && inc.severity == IncidentSeverity(linked, a.maxRisk)
      && inc.confidence == IncidentConfidence(linked)
      && inc.risk == IncidentRisk(linked, inc.techniques, a.maxRisk, a.sessions, a.malware)
  {
    hide Receiving, IncidentSeverity, IncidentConfidence, IncidentRisk, NewEventLinks, NewIocLinks, Filter, At, Gains, Target;
    var i := Target(t, now, ip);
    var before := Receiving(t, now, ip, At(t.detections, a.rows), a.evidence);
    ReceivingMeans(t, now, ip, a, before);
    ScoresAside(t, now, ip, a, before, t'.incidents[i]);
    forall d
      ensures d in Filter(t'.detections, LinkedTo(i)) <==> d in t'.detections && d.incident == Some(i)
    {
      FilterIn(t'.detections, LinkedTo(i), d);
    }
  }

  ghost predicate NewIndicator(l: IocLink, before: seq<IocLink>, i: nat, ps: seq<Ioc>) {
    l.incident == i && l.ioc in ps && !ValueLinked(before, i, l.ioc.value)
  }

  lemma {:induction false} NewIndicators(links: seq<IocLink>, i: nat, ps: seq<Ioc>)
    ensures forall n | 0 <= n < |NewIocLinks(links, i, ps)| :: NewIndicator(NewIocLinks(links, i, ps)[n], links, i, ps)
  {
    hide ValueLinked;
    if ps == [] {
    } else {
      NewIndicators(links, i, ps[..|ps| - 1]);
      assert ps == ps[..|ps| - 1] + [ps[|ps| - 1]];
    }
  }

  /** And every indicator offered is linked to it by value; the new links are of
      those, to it, and of values it did not have. */
  lemma IndicatorsLinked(t: Tables, now: int, ip: string, a: Input, t': Tables)
    requires RowsExist(t, a) && !Skips(a) && t' == Correlate(t, now, ip, a)
    ensures var i := Target(t, now, ip);
      && t.iocLinks <= t'.iocLinks
      && (forall k | 0 <= k < |a.iocs| :: ValueLinked(t'.iocLinks, i, a.iocs[k].value))
      && (forall n | |t.iocLinks| <= n < |t'.iocLinks| :: NewIndicator(t'.iocLinks[n], t.iocLinks, i, a.iocs))
  {
    hide Receiving, Scored, NewEventLinks, NewIocLinks, Filter, At, Target, ValueLinked;
    var i := Target(t, now, ip);
    NewIndicators(t.iocLinks, i, a.iocs);
    forall k | 0 <= k < |a.iocs|
      ensures ValueLinked(t'.iocLinks, i, a.iocs[k].value)
    {
      LinksIocs(t.iocLinks, i, a.iocs, k);
    }
  }
}
