/** The engine as the program runs it: tables updated in place inside one
    transaction, committed or rolled back at the end of the cycle. */
module Detector {
  import opened Collections
  import opened Model
  import opened Rules
  import opened Iocs
  import opened Scoring
  import opened Correlation
  import opened Engine
  import opened Replay
  import opened Safety
  import opened Offering
  import opened Linking

  /** The returned summary. */
  datatype Summary = Summary(newEvents: nat, detections: nat, incidents: nat)

  function Get<T>(m: map<string, seq<T>>, ip: string): seq<T> {
    if ip in m then m[ip] else []
  }

  /** The dictionaries built while raising detections, for every source. */
  ghost predicate BySource(rows: map<string, seq<nat>>, evidence: map<string, seq<Evidence>>, base: nat, novel: seq<Candidate>) {
    forall ip :: Get(rows, ip) == RowsFor(base, novel, ip) && Get(evidence, ip) == EvidenceFor(novel, ip)
  }

  lemma SourceSnoc(base: nat, novel: seq<Candidate>, c: Candidate, ip: string)
    ensures RowsFor(base, novel + [c], ip) == RowsFor(base, novel, ip) + if IpOf(c) == ip then [base + |novel|] else []
    ensures EvidenceFor(novel + [c], ip)
      == if IpOf(c) == ip then Offer(EvidenceFor(novel, ip), c.matched, c.reason) else EvidenceFor(novel, ip)
  {
    hide IpOf, Offer;
    assert (novel + [c])[..|novel|] == novel && (novel + [c])[|novel|] == c;
  }

  lemma BySourceStep(rows: map<string, seq<nat>>, evidence: map<string, seq<Evidence>>, base: nat,
                     novel: seq<Candidate>, c: Candidate)
    requires BySource(rows, evidence, base, novel)
    ensures BySource(rows[IpOf(c) := Get(rows, IpOf(c)) + [base + |novel|]],
                     evidence[IpOf(c) := Offer(Get(evidence, IpOf(c)), c.matched, c.reason)], base, novel + [c])
  {
    hide IpOf, Offer, RowsFor, EvidenceFor;
    forall ip
      ensures RowsFor(base, novel + [c], ip) == Get(rows, ip) + if IpOf(c) == ip then [base + |novel|] else []
      ensures EvidenceFor(novel + [c], ip)
        == if IpOf(c) == ip then Offer(Get(evidence, ip), c.matched, c.reason) else Get(evidence, ip)
    {
      SourceSnoc(base, novel, c, ip);
    }
  }

  lemma RaiseSnoc(ds: seq<Detection>, keys: set<string>, cs: seq<Candidate>, n: nat)
    requires n < |cs|
    ensures Raise(ds, keys, cs[..n + 1]) ==
      if cs[n].key in keys then RefreshOne(Raise(ds, keys, cs[..n]), cs[n]) else Raise(ds, keys, cs[..n]) + [RowOf(cs[n])]
    ensures Filter(cs[..n + 1], Unseen(keys)) == Filter(cs[..n], Unseen(keys)) + if cs[n].key in keys then [] else [cs[n]]
  {
    hide RefreshOne, RowOf;
    assert cs[..n + 1][..n] == cs[..n];
  }

  method OfferMatched(slot: seq<Evidence>, es: seq<Event>, r: Reason) returns (slot': seq<Evidence>)
    ensures slot' == Offer(slot, es, r)
    ensures DistinctIds(slot) ==> DistinctIds(slot') && OfferedAs(slot, es, r, slot')
  {
    hide DistinctIds, OfferedAs;
    slot' := slot;
    for i := 0 to |es|
      invariant slot' == Offer(slot, es[..i], r)
    {
      assert es[..i + 1][..i] == es[..i];
      slot' := if Offered(slot', es[i].id) then Replace(slot', es[i], r) else slot' + [Evidence(es[i], r)];
    }
    assert es[..|es|] == es;
    if DistinctIds(slot) {
      OfferIs(slot, es, r, slot');
    }
  }

  method OfferHighRisk(slot: seq<Evidence>, es: seq<Event>) returns (slot': seq<Evidence>)
    ensures slot' == AddHighRisk(slot, es)
  {
    slot' := slot;
    for i := 0 to |es|
      invariant slot' == AddHighRisk(slot, es[..i])
    {
      assert es[..i + 1][..i] == es[..i];
      if EventRisk(es[i]) >= 80.0 && !Offered(slot', es[i].id) {
        slot' := slot' + [Evidence(es[i], HighRisk(EventRisk(es[i]), es[i].sensor))];
      }
    }
    assert es[..|es|] == es;
  }

  method CollectCandidates(rules: seq<Rule>, window: seq<Event>, since: int, now: int) returns (cs: seq<Candidate>)
    ensures cs == CandidatesOf(rules, window, since, now)
  {
    hide Evaluate;
    cs := [];
    for i := 0 to |rules|
      invariant cs == CandidatesOf(rules[..i], window, since, now)
    {
      assert rules[..i + 1][..i] == rules[..i];
      var found := EvaluateRule(rules[i], window, since, now);
      cs := cs + found;
    }
    assert rules[..|rules|] == rules;
  }

  lemma RaiseStart(ds: seq<Detection>, keys: set<string>, rows: map<string, seq<nat>>, evidence: map<string, seq<Evidence>>,
                   base: nat)
    requires rows == map[] && evidence == map[]
    ensures forall cs: seq<Candidate> | cs == [] ::
      Raise(ds, keys, cs) == ds && Filter(cs, Unseen(keys)) == [] && BySource(rows, evidence, base, Filter(cs, Unseen(keys)))
    ensures IpsOf([]) == []
  {
  }

  lemma InputIs(r: Reading, base: nat, novel: seq<Candidate>, ip: string, a: Input)
    requires a == (var mine := Filter(r.batch, FromSource(ip)); var iocs := Dedup(AllIocs(mine));
                   Input(RowsFor(base, novel, ip), AddHighRisk(EvidenceFor(novel, ip), mine), iocs, MaxRisk(mine),
                         if mine == [] || ip == "" then 0 else |Filter(r.log, FromSource(ip))|,
                         MalwareLinked(iocs, r.reports)))
    ensures a == InputFor(r, base, novel, ip)
  {
    hide Filter, MaxRisk, MalwareLinked, AllIocs, Dedup, AddHighRisk, RowsFor, EvidenceFor;
  }

  class DetectionEngine {
    var cursor: Option<int>
    var iocs: seq<IocRow>
    var detections: seq<Detection>
    var incidents: seq<Incident>
    var eventLinks: seq<EventLink>
    var iocLinks: seq<IocLink>

    constructor ()
      ensures Snapshot() == Tables(None, [], [], [], [], [])
    {
      cursor, iocs, detections, incidents, eventLinks, iocLinks := None, [], [], [], [], [];
    }

    function Snapshot(): Tables
      reads this
    {
      Tables(cursor, iocs, detections, incidents, eventLinks, iocLinks)
    }

    method RollBack(t: Tables)
      modifies this
      ensures Snapshot() == t
    {
      cursor, iocs, detections, incidents, eventLinks, iocLinks :=
        t.cursor, t.iocs, t.detections, t.incidents, t.eventLinks, t.iocLinks;
    }

    /** `d.incident_id = incident.id` for each new detection. */
    method AssignRows(rows: seq<nat>, i: nat)
      requires forall k | 0 <= k < |rows| :: rows[k] < |detections|
      modifies this`detections
      ensures detections == Assign(old(detections), rows, i)
    {
      assert detections == Assign(old(detections), [], i);
      for k := 0 to |rows|
        invariant |detections| == |old(detections)|
        invariant detections == Assign(old(detections), rows[..k], i)
      {
        assert forall n :: n in rows[..k + 1] <==> n in rows[..k] || n == rows[k];
        detections := detections[rows[k] := detections[rows[k]].(incident := Some(i))];
      }
      assert rows[..|rows|] == rows;
    }

    /** `_correlate` for one source: whether an incident took its input. */
    method CorrelateSource(now: int, ip: string, a: Input) returns (taken: bool)
      requires RowsExist(Snapshot(), a)
      modifies this
      ensures Snapshot() == Correlate(old(Snapshot()), now, ip, a)
      ensures taken == !Skips(a)
    {
      hide IncidentSeverity, IncidentConfidence, IncidentRisk, MergeTechniques, TechniquesOf, UsersOf, SensorsOf, ReasonsOf,
        NewEventLinks, NewIocLinks, Filter, Assign, At, Select;
      if a.rows == [] && a.maxRisk < 80.0 {
        return false;
      }
      var added := At(detections, a.rows);
      var found := Select(incidents, ip, now);
      var i: nat;
      match found {
        case None =>
          i := |incidents|;
          incidents := incidents + [Created(ip, now, added, a.evidence)];
        case Some(j) =>
          i := j;
          incidents := incidents[i := Merged(incidents[i], now, added, a.evidence)];
      }
      AssignRows(a.rows, i);
      eventLinks := LinkEvents(eventLinks, i, a.evidence);
      iocLinks := LinkIocs(iocLinks, i, a.iocs);
      var linked := Filter(detections, LinkedTo(i));
      incidents := incidents[i := Scored(incidents[i], linked, a.maxRisk, a.sessions, a.malware)];
      taken := true;
    }

    /** Refresh the detections whose key exists, insert the others, and note
        rows and evidence by source. */
    method RaiseCandidates(cs: seq<Candidate>, keys: set<string>)
      returns (rows: map<string, seq<nat>>, evidence: map<string, seq<Evidence>>, ips: seq<string>)
      modifies this`detections
      ensures detections == Raise(old(detections), keys, cs)
      ensures BySource(rows, evidence, |old(detections)|, Filter(cs, Unseen(keys)))
      ensures ips == IpsOf(Filter(cs, Unseen(keys)))
    {
      hide Raise, RefreshOne, Filter, IpOf, BySource;
      var base := |detections|;
      rows, evidence, ips := map[], map[], [];
      RaiseStart(detections, keys, rows, evidence, base);
      for n := 0 to |cs|
        invariant detections == Raise(old(detections), keys, cs[..n])
        invariant |detections| == base + |Filter(cs[..n], Unseen(keys))|
        invariant BySource(rows, evidence, base, Filter(cs[..n], Unseen(keys)))
        invariant ips == IpsOf(Filter(cs[..n], Unseen(keys)))
      {
        var c := cs[n];
        RaiseSnoc(old(detections), keys, cs, n);
        RaiseLength(old(detections), keys, cs[..n + 1]);
        ghost var novel := Filter(cs[..n], Unseen(keys));
        assert novel + [] == novel;
        if c.key in keys {
          detections := RefreshOne(detections, c);
        } else {
          BySourceStep(rows, evidence, base, novel, c);
          var ip := IpOf(c);
          var slot := OfferMatched(Get(evidence, ip), c.matched, c.reason);
          rows, evidence := rows[ip := Get(rows, ip) + [|detections|]], evidence[ip := slot];
          assert BySource(rows, evidence, base, novel + [c]);
          detections := detections + [RowOf(c)];
          ips := ips + [ip];
        }
      }
      assert cs[..|cs|] == cs;
    }

    method CorrelateSources(now: int, r: Reading, ips: seq<string>, base: nat, ghost novel: seq<Candidate>,
                            rows: map<string, seq<nat>>, evidence: map<string, seq<Evidence>>)
      returns (taken: nat)
      requires Ready(Snapshot(), base, novel) && BySource(rows, evidence, base, novel)
      requires forall k | 0 <= k < |ips| :: ips[k] in Sources(novel, r.batch)
      modifies this
      ensures taken == |ips|
      ensures Snapshot() == CorrelateAll(old(Snapshot()), now, r, base, novel, ips)
    {
      hide Correlate, Filter, MaxRisk, MalwareLinked, AllIocs, Dedup, AddHighRisk, RowsFor, EvidenceFor, InputFor;
      ghost var start := Snapshot();
      taken := 0;
      for k := 0 to |ips|
        invariant taken == k
        invariant Ready(Snapshot(), base, novel)
        invariant Snapshot() == CorrelateAll(start, now, r, base, novel, ips[..k])
      {
        var ip := ips[k];
        assert ips[..k + 1][..k] == ips[..k];
        var mine := Filter(r.batch, FromSource(ip));
        var iocs := Dedup(AllIocs(mine));
        var offered := OfferHighRisk(Get(evidence, ip), mine);
        var sessions := if mine == [] || ip == "" then 0 else |Filter(r.log, FromSource(ip))|;
        var a := Input(Get(rows, ip), offered, iocs, MaxRisk(mine), sessions, MalwareLinked(iocs, r.reports));
        InputIs(r, base, novel, ip, a);
        InputRows(r, base, novel, ip, Snapshot());
        ghost var t := Snapshot();
        SourceHasInput(r, base, novel, ip);
        var given := CorrelateSource(now, ip, a);
        taken := taken + if given then 1 else 0;
        assert Snapshot() == CorrelateIp(t, now, r, base, novel, ip);
      }
      assert ips[..|ips|] == ips;
    }

    /** `run_cycle`: None when the transaction was rolled back, else how many
        events were read, detections added and sources correlated. */
    method RunCycle(log: seq<Event>, rules: seq<Rule>, now: int, reports: set<string>) returns (summary: Option<Summary>)
      modifies this
      ensures summary.Some? == Cycle(old(Snapshot()), log, rules, now, reports).Some?
      ensures Snapshot() == if summary.Some? then Cycle(old(Snapshot()), log, rules, now, reports).value else old(Snapshot())
      ensures summary.Some? ==>
        var p := PlanOf(old(Snapshot()), log, rules, now);
        && summary.value.newEvents == |p.batch|
        && summary.value.detections == |detections| - |old(Snapshot()).detections|
        && summary.value.incidents == if p.batch == [] then 0 else |Sources(p.novel, p.batch)|
      ensures summary.Some? && UniqueIds(log) && PlanOf(old(Snapshot()), log, rules, now).batch != [] ==>
        MatchesShown(old(Snapshot()), Snapshot(), PlanOf(old(Snapshot()), log, rules, now).novel)
    {
      hide MatchesShown, UniqueIds, CandidatesOf, WindowOf, NextBatch, Raise, Upserted, CorrelateAll, LatestIngest, Filter, BySource, KeysOf, IpsOf, HighRiskIps;
      var before := Snapshot();
      var since := CursorOf(before, now);
      var batch := NextBatch(log, since);
      if batch == [] {
        return Some(Summary(0, 0, 0));
      }
      var window := WindowOf(log, batch, now);
      iocs := UpsertIocs(iocs, batch);
      var cs := CollectCandidates(rules, window, since, now);
      var keys := KeysOf(detections);
      var rows, evidence, ips := RaiseCandidates(cs, keys);
      var novel := Filter(cs, Unseen(keys));
      if !DistinctKeys(novel) {
        RollBack(before);
        return None;
      }
      RaiseLength(before.detections, keys, cs);
      var r := Reading(log, batch, reports);
      var sources := Filter(Dedup(ips + HighRiskIps(batch)), NonEmpty());
      var taken := CorrelateSources(now, r, sources, |before.detections|, novel, rows, evidence);
      cursor := Some(LatestIngest(batch));
      if UniqueIds(log) {
        CycleShows(before, log, rules, now, reports, PlanOf(before, log, rules, now), Snapshot());
      }
      summary := Some(Summary(|batch|, |novel|, taken));
    }
  }
}
