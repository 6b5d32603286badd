/** Re-running a committed cycle over the same events creates nothing new. */
module Replay {
  import opened Collections
  import opened Model
  import opened Rules
  import opened Iocs
  import opened Scoring
  import opened Correlation
  import opened Engine

  // ── Where the events of a cycle come from ────────────────────────────────

  lemma IngestOrderTotal()
    ensures TotalPreorder(ByIngest)
  {
  }

  lemma BatchInLog(log: seq<Event>, cursor: int, e: Event)
    requires e in NextBatch(log, cursor)
    ensures e in log && e.ingestedAt > cursor
  {
    IngestOrderTotal();
    SortIn(Filter(log, After(cursor)), ByIngest, e);
    FilterIn(log, After(cursor), e);
  }

  lemma WindowInLog(log: seq<Event>, batch: seq<Event>, now: int, e: Event)
    requires e in WindowOf(log, batch, now)
    ensures e in log
  {
    var p := InWindow(batch, now - MAX_LOOKBACK);
    TimeSortedIn(Filter(log, p), e);
    FilterIn(log, p, e);
  }

  /** Candidates are sound for the window they were computed from. */
  ghost predicate AllSound(cs: seq<Candidate>, window: seq<Event>, now: int) {
    forall i | 0 <= i < |cs| :: Sound(cs[i], window, now)
  }

  lemma {:induction false} CandidatesSound(rules: seq<Rule>, window: seq<Event>, since: int, now: int, cs: seq<Candidate>)
    requires cs == CandidatesOf(rules, window, since, now)
    ensures AllSound(cs, window, now)
  {
    hide Sound, Evaluate;
    if rules == [] {
    } else {
      var rest, rule := rules[..|rules| - 1], rules[|rules| - 1];
      CandidatesSound(rest, window, since, now, CandidatesOf(rest, window, since, now));
      EvaluateSound(rule, window, since, now, Evaluate(rule, window, since, now));
    }
  }

  // ── Raising again ────────────────────────────────────────────────────────

  /** The rows after `Raise`: old rows keep everything but a later
      `last_event_at`; the new candidates follow in order. */
  ghost predicate RaisedAs(ds: seq<Detection>, novel: seq<Candidate>, r: seq<Detection>) {
    && |r| == |ds| + |novel|
    && (forall k | 0 <= k < |ds| :: r[k].lastAt >= ds[k].lastAt && r[k] == ds[k].(lastAt := r[k].lastAt))
    && (forall k | 0 <= k < |novel| :: r[|ds| + k] == RowOf(novel[k]))
  }

  lemma RowKey(c: Candidate)
    ensures RowOf(c).key == c.key && RowOf(c).lastAt == c.lastAt && RowOf(c).incident == None
  {
  }

  lemma {:induction false} RaiseShape(ds: seq<Detection>, keys: set<string>, cs: seq<Candidate>,
                                      novel: seq<Candidate>, r: seq<Detection>)
    requires novel == Filter(cs, Unseen(keys)) && r == Raise(ds, keys, cs)
    ensures RaisedAs(ds, novel, r)
    ensures forall k | 0 <= k < |novel| :: novel[k].key !in keys
    ensures forall i, k | 0 <= i < |cs| && 0 <= k < |ds| && cs[i].key in keys && cs[i].key == ds[k].key ::
      cs[i].lastAt <= r[k].lastAt
  {
    hide RowOf;
    if cs == [] {
    } else {
      var rest, c := cs[..|cs| - 1], cs[|cs| - 1];
      var novel', r' := Filter(rest, Unseen(keys)), Raise(ds, keys, rest);
      RaiseShape(ds, keys, rest, novel', r');
      if c.key in keys {
        forall k | 0 <= k < |novel'|
          ensures r[|ds| + k] == RowOf(novel'[k])
        {
          RowKey(novel'[k]);
        }
      }
    }
  }

  /** Two detection tables that differ at most in the incident links. */
  ghost predicate SameButIncident(ds: seq<Detection>, es: seq<Detection>) {
    |ds| == |es| && forall k | 0 <= k < |ds| :: es[k] == ds[k].(incident := es[k].incident)
  }

  ghost predicate NothingToRefresh(ds: seq<Detection>, cs: seq<Candidate>) {
    forall i | 0 <= i < |cs| ::
      && cs[i].key in KeysOf(ds)
      && forall k | 0 <= k < |ds| && ds[k].key == cs[i].key :: cs[i].lastAt <= ds[k].lastAt
  }

  lemma {:induction false} RaiseNothing(ds: seq<Detection>, cs: seq<Candidate>)
    requires NothingToRefresh(ds, cs)
    ensures Raise(ds, KeysOf(ds), cs) == ds
  {
    if cs == [] {
    } else {
      RaiseNothing(ds, cs[..|cs| - 1]);
      assert RefreshOne(ds, cs[|cs| - 1]) == ds;
    }
  }

  lemma KeysIn(ds: seq<Detection>)
    ensures forall k | 0 <= k < |ds| :: ds[k].key in KeysOf(ds)
  {
  }

  lemma KeyRow(ds: seq<Detection>, key: string)
    ensures key in KeysOf(ds) <==> exists k :: 0 <= k < |ds| && ds[k].key == key
  {
  }

  lemma RaisedOnce(ds: seq<Detection>, cs: seq<Candidate>, novel: seq<Candidate>, r: seq<Detection>, after: seq<Detection>)
    requires novel == Filter(cs, Unseen(KeysOf(ds))) && r == Raise(ds, KeysOf(ds), cs)
    requires DistinctKeys(novel) && SameButIncident(r, after)
    ensures NothingToRefresh(after, cs)
  {
    hide Raise, Filter, RowOf, KeysOf;
    forall k | 0 <= k < |novel|
      ensures RowOf(novel[k]).key == novel[k].key && RowOf(novel[k]).lastAt == novel[k].lastAt
    {
      RowKey(novel[k]);
    }
    var keys := KeysOf(ds);
    RaiseShape(ds, keys, cs, novel, r);
    KeysIn(ds);
    KeysIn(after);
    assert forall k | 0 <= k < |ds| :: after[k].key == ds[k].key;
    assert forall k | |ds| <= k < |after| :: after[k].key == novel[k - |ds|].key;
    forall i | 0 <= i < |cs|
      ensures cs[i].key in KeysOf(after)
      ensures forall k | 0 <= k < |after| && after[k].key == cs[i].key :: cs[i].lastAt <= after[k].lastAt
    {
      var c := cs[i];
      KeyRow(ds, c.key);
      if c.key in keys {
        var k0 :| 0 <= k0 < |ds| && ds[k0].key == c.key;
        assert after[k0].key == c.key;
      } else {
        FilterIn(cs, Unseen(keys), c);
        var j :| 0 <= j < |novel| && novel[j] == c;
        assert after[|ds| + j].key == c.key;
        forall k | 0 <= k < |after| && after[k].key == c.key
          ensures c.lastAt <= after[k].lastAt
        {
          assert k >= |ds| && novel[k - |ds|].key == c.key;
          assert k - |ds| == j;
        }
      }
    }
  }

  // ── Correlating again ────────────────────────────────────────────────────

  lemma {:induction false} FilterPointwise<T>(xs: seq<T>, ys: seq<T>, p: T -> bool)
    requires |xs| == |ys|
    requires forall k | 0 <= k < |xs| :: xs[k] == ys[k] || (!p(xs[k]) && !p(ys[k]))
    ensures Filter(xs, p) == Filter(ys, p)
  {
    if xs == [] {
    } else {
      FilterPointwise(xs[..|xs| - 1], ys[..|ys| - 1], p);
    }
  }

  ghost predicate Unlinked(t: Tables, rows: seq<nat>) {
    forall k | 0 <= k < |rows| :: rows[k] < |t.detections| && t.detections[rows[k]].incident == None
  }

  /** Correlating one source leaves every other source's incident settled. */
  lemma OtherStaysSettled(t: Tables, now: int, other: string, a: Input, ip: string, b: Input, i: nat)
    requires other != ip && RowsExist(t, a) && Unlinked(t, a.rows)
    requires Settled(t, now, ip, b, i)
    ensures Settled(Correlate(t, now, other, a), now, ip, b, i)
  {
    hide IncidentSeverity, IncidentConfidence, IncidentRisk, MergeTechniques, TechniquesOf, UsersOf, SensorsOf, ReasonsOf;
    if !Skips(a) {
      var t' := Correlate(t, now, other, a);
      FilterPointwise(t.detections, t'.detections, LinkedTo(i));
      forall id | EventLinked(t.eventLinks, i, id)
        ensures EventLinked(t'.eventLinks, i, id)
      {
        var k :| 0 <= k < |t.eventLinks| && t.eventLinks[k].incident == i && t.eventLinks[k].eventId == id;
        assert t'.eventLinks[k] == t.eventLinks[k];
      }
      forall v | ValueLinked(t.iocLinks, i, v)
        ensures ValueLinked(t'.iocLinks, i, v)
      {
        var k :| 0 <= k < |t.iocLinks| && t.iocLinks[k].incident == i && t.iocLinks[k].ioc.value == v;
        assert t'.iocLinks[k] == t.iocLinks[k];
      }
    }
  }

  lemma CorrelateLinks(t: Tables, now: int, ip: string, a: Input)
    requires RowsExist(t, a)
    ensures var t' := Correlate(t, now, ip, a);
      && SameButIncident(t.detections, t'.detections)
      && forall k | 0 <= k < |t.detections| && k !in a.rows :: t'.detections[k] == t.detections[k]
  {
    hide Receiving, Scored, NewEventLinks, NewIocLinks, Select, Filter;
  }

  /** Correlation changes only the incident links of detections. */
  lemma {:induction false} CorrelateAllKeys(t: Tables, now: int, r: Reading, base: nat, novel: seq<Candidate>,
                                            ips: seq<string>, t': Tables)
    requires Ready(t, base, novel) && t' == CorrelateAll(t, now, r, base, novel, ips)
    ensures SameButIncident(t.detections, t'.detections)
  {
    hide InputFor, Correlate;
    if ips == [] {
    } else {
      var rest, ip := ips[..|ips| - 1], ips[|ips| - 1];
      var u := CorrelateAll(t, now, r, base, novel, rest);
      CorrelateAllKeys(t, now, r, base, novel, rest, u);
      InputRows(r, base, novel, ip, u);
      CorrelateLinks(u, now, ip, InputFor(r, base, novel, ip));
    }
  }

  /** What a replay offers for a source. */
  function Again(r: Reading, ip: string): Input {
    InputFor(r, 0, [], ip)
  }

  ghost predicate SettledFor(t: Tables, now: int, r: Reading, ip: string) {
    exists i :: Settled(t, now, ip, Again(r, ip), i)
  }

  ghost predicate Replayable(r: Reading, base: nat, novel: seq<Candidate>, ips: seq<string>) {
    forall k | 0 <= k < |ips| ::
      NoMoreThan(Again(r, ips[k]), InputFor(r, base, novel, ips[k]))
  }

  /** The rows of a source not yet correlated are unlinked, and correlating it
      links no others. */
  lemma RowsUnlinked(u: Tables, now: int, base: nat, novel: seq<Candidate>, rest: seq<string>, ip: string, a: Input)
    requires Ready(u, base, novel) && a.rows == RowsFor(base, novel, ip) && ip !in rest && RowsExist(u, a)
    requires forall k | base <= k < |u.detections| && IpOf(novel[k - base]) !in rest :: u.detections[k].incident == None
    ensures Unlinked(u, a.rows)
    ensures var t' := Correlate(u, now, ip, a);
      && SameButIncident(u.detections, t'.detections)
      && forall k | base <= k < |u.detections| && IpOf(novel[k - base]) !in rest + [ip] :: t'.detections[k].incident == None
  {
    hide Correlate, IpOf, RowsFor;
    RowsInRange(base, novel, ip, a.rows);
    CorrelateLinks(u, now, ip, a);
  }

  /** Correlating the last source settles it and leaves the others settled. */
  lemma OneMoreSettled(u: Tables, now: int, r: Reading, base: nat, novel: seq<Candidate>, ips: seq<string>, a: Input)
    requires ips != [] && a == InputFor(r, base, novel, ips[|ips| - 1])
    requires RowsExist(u, a) && Unlinked(u, a.rows) && ClockOk(u, now)
    requires Distinct(ips) && Replayable(r, base, novel, ips)
    requires forall k | 0 <= k < |ips| - 1 && !Skips(InputFor(r, base, novel, ips[k])) :: SettledFor(u, now, r, ips[k])
    ensures forall k | 0 <= k < |ips| && !Skips(InputFor(r, base, novel, ips[k])) ::
      SettledFor(Correlate(u, now, ips[|ips| - 1], a), now, r, ips[k])
  {
    hide InputFor, Correlate, Settled, NoMoreThan, Skips, Again, ClockOk, Unlinked, RowsExist;
    var n := |ips| - 1;
    forall k | 0 <= k <= n && !Skips(InputFor(r, base, novel, ips[k]))
      ensures SettledFor(Correlate(u, now, ips[n], a), now, r, ips[k])
    {
      if k < n {
        var i :| Settled(u, now, ips[k], Again(r, ips[k]), i);
        OtherStaysSettled(u, now, ips[n], a, ips[k], Again(r, ips[k]), i);
      } else {
        CorrelateSettles(u, now, ips[n], a, Again(r, ips[n]));
      }
    }
  }

  lemma InputRowsOf(r: Reading, base: nat, novel: seq<Candidate>, ip: string)
    ensures InputFor(r, base, novel, ip).rows == RowsFor(base, novel, ip)
  {
    hide EvidenceFor, AddHighRisk, AllIocs, MalwareLinked, MaxRisk, Filter, Dedup, RowsFor;
  }

  lemma StepClock(t: Tables, now: int, ip: string, a: Input)
    requires RowsExist(t, a) && ClockOk(t, now)
    ensures ClockOk(Correlate(t, now, ip, a), now)
  {
    if !Skips(a) {
      CorrelateChosen(t, now, ip, a);
    }
  }

  lemma {:induction false} AllSettled(t: Tables, now: int, r: Reading, base: nat, novel: seq<Candidate>, ips: seq<string>,
                                      t': Tables)
    requires Ready(t, base, novel) && t' == CorrelateAll(t, now, r, base, novel, ips)
    requires Distinct(ips) && ClockOk(t, now) && Replayable(r, base, novel, ips)
    requires forall k | base <= k < |t.detections| :: t.detections[k].incident == None
    ensures ClockOk(t', now) && SameButIncident(t.detections, t'.detections)
    ensures forall k | base <= k < |t.detections| && IpOf(novel[k - base]) !in ips :: t'.detections[k].incident == None
    ensures forall k | 0 <= k < |ips| && !Skips(InputFor(r, base, novel, ips[k])) :: SettledFor(t', now, r, ips[k])
  {
    hide InputFor, Correlate, IpOf, SettledFor, NoMoreThan, Skips, Again, RowsFor, ClockOk, Unlinked, RowsExist;
    if ips == [] {
    } else {
      var rest, ip := ips[..|ips| - 1], ips[|ips| - 1];
      var u := CorrelateAll(t, now, r, base, novel, rest);
      AllSettled(t, now, r, base, novel, rest, u);
      var a := InputFor(r, base, novel, ip);
      InputRows(r, base, novel, ip, u);
      InputRowsOf(r, base, novel, ip);
      assert ips == rest + [ip] && ip !in rest;
      RowsUnlinked(u, now, base, novel, rest, ip, a);
      StepClock(u, now, ip, a);
      OneMoreSettled(u, now, r, base, novel, ips, a);
    }
  }

  lemma AgainIs(r: Reading, base: nat, ip: string)
    ensures InputFor(r, base, [], ip) == Again(r, ip) && Again(r, ip).rows == []
  {
  }

  lemma {:induction false} CorrelateAllFixed(t: Tables, now: int, r: Reading, base: nat, ips: seq<string>)
    requires |t.detections| == base
    requires forall k | 0 <= k < |ips| :: SettledFor(t, now, r, ips[k])
    ensures CorrelateAll(t, now, r, base, [], ips) == t
  {
    hide Correlate, Settled;
    if ips == [] {
    } else {
      CorrelateAllFixed(t, now, r, base, ips[..|ips| - 1]);
      var ip := ips[|ips| - 1];
      var i :| Settled(t, now, ip, Again(r, ip), i);
      AgainIs(r, base, ip);
      SettledIsFixed(t, now, ip, Again(r, ip), i);
    }
  }

  // ── The replay offers no more ────────────────────────────────────────────

  ghost predicate FromLog(ev: seq<Evidence>, log: seq<Event>) {
    forall k | 0 <= k < |ev| :: ev[k].event in log
  }

  ghost predicate UniqueIds(log: seq<Event>) {
    forall i, j | 0 <= i < j < |log| :: log[i].id != log[j].id
  }

  lemma SameId(log: seq<Event>, a: Event, b: Event)
    requires UniqueIds(log) && a in log && b in log && a.id == b.id
    ensures a == b
  {
    var i :| 0 <= i < |log| && log[i] == a;
    var j :| 0 <= j < |log| && log[j] == b;
    assert i == j;
  }

  lemma {:induction false} OfferFromLog(ev: seq<Evidence>, es: seq<Event>, r: Reason, log: seq<Event>)
    requires FromLog(ev, log) && forall k | 0 <= k < |es| :: es[k] in log
    ensures FromLog(Offer(ev, es, r), log)
  {
    if es == [] {
    } else {
      OfferFromLog(ev, es[..|es| - 1], r, log);
    }
  }

  lemma {:induction false} EvidenceFromLog(novel: seq<Candidate>, ip: string, log: seq<Event>)
    requires forall i, k | 0 <= i < |novel| && 0 <= k < |novel[i].matched| :: novel[i].matched[k] in log
    ensures FromLog(EvidenceFor(novel, ip), log)
  {
    hide IpOf;
    if novel == [] {
    } else {
      EvidenceFromLog(novel[..|novel| - 1], ip, log);
      var c := novel[|novel| - 1];
      OfferFromLog(EvidenceFor(novel[..|novel| - 1], ip), c.matched, c.reason, log);
    }
  }

  /** High-risk events are all offered, and nothing else is added. */
  lemma {:induction false} HighRiskOffered(ev: seq<Evidence>, es: seq<Event>, log: seq<Event>, r: seq<Evidence>)
    requires r == AddHighRisk(ev, es)
    requires FromLog(ev, log) && forall k | 0 <= k < |es| :: es[k] in log
    ensures FromLog(r, log)
    ensures forall k | 0 <= k < |es| && EventRisk(es[k]) >= 80.0 :: Offered(r, es[k].id)
    ensures ev == [] ==> forall k | 0 <= k < |r| :: EventRisk(r[k].event) >= 80.0 && r[k].event in es
  {
    hide EventRisk;
    if es == [] {
    } else {
      var rest, e := es[..|es| - 1], es[|es| - 1];
      var r' := AddHighRisk(ev, rest);
      HighRiskOffered(ev, rest, log, r');
      assert forall id | Offered(r', id) :: Offered(r, id) by {
        forall id | Offered(r', id)
          ensures Offered(r, id)
        {
          var k :| 0 <= k < |r'| && r'[k].event.id == id;
          assert r[k] == r'[k];
        }
      }
      if EventRisk(e) >= 80.0 && !Offered(r', e.id) {
        assert r[|r'|].event.id == e.id;
      }
      assert es == rest + [e];
    }
  }

  /** A replay differs only in its rows and in offering high-risk events alone. */
  lemma AgainOffers(r: Reading, base: nat, novel: seq<Candidate>, ip: string)
    ensures var mine := Filter(r.batch, FromSource(ip));
      && Again(r, ip).evidence == AddHighRisk([], mine)
      && InputFor(r, base, novel, ip).evidence == AddHighRisk(EvidenceFor(novel, ip), mine)
    ensures var a, b := InputFor(r, base, novel, ip), Again(r, ip);
      b.rows == [] && b.iocs == a.iocs && b.maxRisk == a.maxRisk && b.sessions == a.sessions && b.malware == a.malware
  {
    hide Filter, Dedup, AllIocs, MalwareLinked, MaxRisk, AddHighRisk;
    assert EvidenceFor([], ip) == [];
  }

  lemma OffersNoMore(r: Reading, base: nat, novel: seq<Candidate>, ip: string)
    requires UniqueIds(r.log)
    requires forall k | 0 <= k < |r.batch| :: r.batch[k] in r.log
    requires forall i, k | 0 <= i < |novel| && 0 <= k < |novel[i].matched| :: novel[i].matched[k] in r.log
    ensures NoMoreThan(Again(r, ip), InputFor(r, base, novel, ip))
  {
    hide Filter, Dedup, AllIocs, MalwareLinked, MaxRisk, EventRisk, EvidenceFor, InputFor, Again, AddHighRisk;
    var mine := Filter(r.batch, FromSource(ip));
    forall k | 0 <= k < |mine|
      ensures mine[k] in r.log
    {
      FilterIn(r.batch, FromSource(ip), mine[k]);
    }
    var a, b := AddHighRisk(EvidenceFor(novel, ip), mine), AddHighRisk([], mine);
    EvidenceFromLog(novel, ip, r.log);
    HighRiskOffered(EvidenceFor(novel, ip), mine, r.log, a);
    HighRiskOffered([], mine, r.log, b);
    AgainOffers(r, base, novel, ip);
    var was, again := InputFor(r, base, novel, ip), Again(r, ip);
    forall k | 0 <= k < |again.evidence|
      ensures HasEvent(was.evidence, again.evidence[k].event)
    {
      var n :| 0 <= n < |mine| && mine[n] == b[k].event;
      assert Offered(a, mine[n].id);
      var j :| 0 <= j < |a| && a[j].event.id == b[k].event.id;
      SameId(r.log, a[j].event, b[k].event);
      assert was.evidence[j].event == again.evidence[k].event;
    }
  }

  // ── The sources of the replay were correlated before ─────────────────────

  lemma {:induction false} HighRiskHasEvent(batch: seq<Event>, ip: string)
    requires ip in HighRiskIps(batch)
    ensures exists k :: 0 <= k < |batch| && batch[k].sourceIp == ip && EventRisk(batch[k]) >= 80.0
  {
    var rest, e := batch[..|batch| - 1], batch[|batch| - 1];
    if ip in HighRiskIps(rest) {
      HighRiskHasEvent(rest, ip);
      var k :| 0 <= k < |rest| && rest[k].sourceIp == ip && EventRisk(rest[k]) >= 80.0;
      assert batch[k] == rest[k];
    } else {
      assert batch[|batch| - 1].sourceIp == ip;
    }
  }

  lemma {:induction false} MaxRiskBounds(es: seq<Event>, e: Event)
    requires e in es
    ensures MaxRisk(es) >= EventRisk(e)
  {
    if e == es[|es| - 1] {
    } else {
      MaxRiskBounds(es[..|es| - 1], e);
    }
  }

  lemma ReplaySource(r: Reading, base: nat, novel: seq<Candidate>, ip: string)
    requires ip in Sources([], r.batch)
    ensures ip in Sources(novel, r.batch)
    ensures !Skips(InputFor(r, base, novel, ip))
  {
    hide EvidenceFor, AddHighRisk, AllIocs, MalwareLinked, RowsFor;
    FilterIn(Dedup(IpsOf([]) + HighRiskIps(r.batch)), NonEmpty(), ip);
    FilterIn(Dedup(IpsOf(novel) + HighRiskIps(r.batch)), NonEmpty(), ip);
    HighRiskHasEvent(r.batch, ip);
    var k :| 0 <= k < |r.batch| && r.batch[k].sourceIp == ip && EventRisk(r.batch[k]) >= 80.0;
    FilterIn(r.batch, FromSource(ip), r.batch[k]);
    MaxRiskBounds(Filter(r.batch, FromSource(ip)), r.batch[k]);
  }

  lemma {:induction false} FilterStaysDistinct<T>(xs: seq<T>, p: T -> bool)
    requires Distinct(xs)
    ensures Distinct(Filter(xs, p))
  {
    if xs == [] {
    } else {
      FilterStaysDistinct(xs[..|xs| - 1], p);
      FilterIn(xs[..|xs| - 1], p, xs[|xs| - 1]);
    }
  }

  // ── The theorem ──────────────────────────────────────────────────────────

  lemma NovelFromLog(t: Tables, log: seq<Event>, rules: seq<Rule>, now: int, p: Plan)
    requires p == PlanOf(t, log, rules, now)
    ensures forall i, k | 0 <= i < |p.novel| && 0 <= k < |p.novel[i].matched| :: p.novel[i].matched[k] in log
    ensures forall k | 0 <= k < |p.batch| :: p.batch[k] in log
  {
    hide NextBatch, WindowOf, CandidatesOf, KeysOf;
    var since := CursorOf(t, now);
    var window := WindowOf(log, p.batch, now);
    CandidatesSound(rules, window, since, now, p.candidates);
    forall i, k | 0 <= i < |p.novel| && 0 <= k < |p.novel[i].matched|
      ensures p.novel[i].matched[k] in log
    {
      FilterIn(p.candidates, Unseen(KeysOf(t.detections)), p.novel[i]);
      var j :| 0 <= j < |p.candidates| && p.candidates[j] == p.novel[i];
      assert Sound(p.candidates[j], window, now);
      WindowInLog(log, p.batch, now, p.novel[i].matched[k]);
    }
    forall k | 0 <= k < |p.batch|
      ensures p.batch[k] in log
    {
      BatchInLog(log, since, p.batch[k]);
    }
  }

  lemma NovelOf(t: Tables, log: seq<Event>, rules: seq<Rule>, now: int, p: Plan)
    requires p == PlanOf(t, log, rules, now)
    ensures p.novel == Filter(p.candidates, Unseen(KeysOf(t.detections)))
  {
    hide NextBatch, WindowOf, CandidatesOf, KeysOf, Filter;
  }

  lemma SourcesDistinct(novel: seq<Candidate>, batch: seq<Event>)
    ensures Distinct(Sources(novel, batch))
  {
    FilterStaysDistinct(Dedup(IpsOf(novel) + HighRiskIps(batch)), NonEmpty());
  }

  lemma SettledFrame(t: Tables, u: Tables, now: int, ip: string, a: Input, i: nat)
    requires Settled(t, now, ip, a, i)
    requires u.detections == t.detections && u.incidents == t.incidents
    requires u.eventLinks == t.eventLinks && u.iocLinks == t.iocLinks
    ensures Settled(u, now, ip, a, i)
  {
  }

  /** After a committed cycle everything it read is settled. */
  lemma CycleSettles(t: Tables, log: seq<Event>, rules: seq<Rule>, now: int, reports: set<string>, p: Plan, t1: Tables)
    requires p == PlanOf(t, log, rules, now) && p.batch != []
    requires Cycle(t, log, rules, now, reports) == Some(t1)
    requires UniqueIds(log) && ClockOk(t, now)
    ensures NothingToRefresh(t1.detections, p.candidates)
    ensures forall ip | ip in Sources([], p.batch) :: SettledFor(t1, now, Reading(log, p.batch, reports), ip)
  {
    hide PlanOf, Raise, KeysOf, Upserted, CorrelateAll, Sources, InputFor, Settled, NoMoreThan, NothingToRefresh, Filter, Again,
      LatestIngest, IpOf, RowOf, Skips;
    var r := Reading(log, p.batch, reports);
    var base := |t.detections|;
    NovelOf(t, log, rules, now, p);
    RaiseLength(t.detections, KeysOf(t.detections), p.candidates);
    var t0 := Raised(t, p);
    RaiseShape(t.detections, KeysOf(t.detections), p.candidates, p.novel, t0.detections);
    forall k | base <= k < |t0.detections|
      ensures t0.detections[k].incident == None
    {
      assert t0.detections[base + (k - base)] == RowOf(p.novel[k - base]);
      RowKey(p.novel[k - base]);
    }
    NovelFromLog(t, log, rules, now, p);
    var ips := Sources(p.novel, p.batch);
    SourcesDistinct(p.novel, p.batch);
    forall k | 0 <= k < |ips|
      ensures NoMoreThan(Again(r, ips[k]), InputFor(r, base, p.novel, ips[k]))
    {
      OffersNoMore(r, base, p.novel, ips[k]);
    }
    var u := CorrelateAll(t0, now, r, base, p.novel, ips);
    AllSettled(t0, now, r, base, p.novel, ips, u);
    RaisedOnce(t.detections, p.candidates, p.novel, t0.detections, u.detections);
    assert t1 == u.(cursor := t1.cursor);
    forall ip | ip in Sources([], p.batch)
      ensures SettledFor(t1, now, r, ip)
    {
      ReplaySource(r, base, p.novel, ip);
      var k :| 0 <= k < |ips| && ips[k] == ip;
      var i :| Settled(u, now, ip, Again(r, ip), i);
      SettledFrame(u, t1, now, ip, Again(r, ip), i);
    }
  }

  lemma SamePlan(t: Tables, t1: Tables, log: seq<Event>, rules: seq<Rule>, now: int, p: Plan, q: Plan)
    requires p == PlanOf(t, log, rules, now) && q == PlanOf(t1, log, rules, now) && t1.cursor == t.cursor
    ensures q.batch == p.batch && q.candidates == p.candidates
    ensures q.novel == Filter(p.candidates, Unseen(KeysOf(t1.detections)))
  {
    hide NextBatch, WindowOf, CandidatesOf, KeysOf, Filter;
  }

  lemma BatchOf(t: Tables, log: seq<Event>, rules: seq<Rule>, now: int, p: Plan)
    requires p == PlanOf(t, log, rules, now)
    ensures p.batch == NextBatch(log, CursorOf(t, now))
  {
    hide NextBatch, WindowOf, CandidatesOf, KeysOf, Filter;
  }

  lemma NothingNovel(ds: seq<Detection>, cs: seq<Candidate>)
    requires NothingToRefresh(ds, cs)
    ensures Filter(cs, Unseen(KeysOf(ds))) == []
  {
    FilterNone(cs, Unseen(KeysOf(ds)));
  }

  /** The header's promise, at the clock time of the cycle: re-processing the
      same events with the same rules creates nothing new. With the cursor put
      back, a committed cycle run again commits, and every table is as before
      except the indicator hit counts: no detection, incident, event link or IOC
      link is added, and no incident or detection changes in any field. */
  lemma ReplayCreatesNothing(t: Tables, log: seq<Event>, rules: seq<Rule>, now: int, reports: set<string>, t1: Tables)
    requires Cycle(t, log, rules, now, reports) == Some(t1)
    requires UniqueIds(log) && ClockOk(t, now)
    ensures var batch := NextBatch(log, CursorOf(t, now));
      Cycle(t1.(cursor := t.cursor), log, rules, now, reports)
        == Some(if batch == [] then t1 else t1.(iocs := Upserted(t1.iocs, batch)))
  {
    hide PlanOf, Raise, KeysOf, Upserted, CorrelateAll, Sources, NothingToRefresh, Filter, LatestIngest, NextBatch;
    var back := t1.(cursor := t.cursor);
    var p, q := PlanOf(t, log, rules, now), PlanOf(back, log, rules, now);
    SamePlan(t, back, log, rules, now, p, q);
    BatchOf(t, log, rules, now, p);
    if p.batch != [] {
      CycleSettles(t, log, rules, now, reports, p, t1);
      NothingNovel(t1.detections, p.candidates);
      RaiseNothing(t1.detections, p.candidates);
      var r := Reading(log, p.batch, reports);
      var t0 := Raised(back, q);
      var ips := Sources([], p.batch);
      forall k | 0 <= k < |ips|
        ensures SettledFor(t0, now, r, ips[k])
      {
        assert ips[k] in Sources([], p.batch);
        var i :| Settled(t1, now, ips[k], Again(r, ips[k]), i);
        SettledFrame(t1, t0, now, ips[k], Again(r, ips[k]), i);
      }
      CorrelateAllFixed(t0, now, r, |t1.detections|, ips);
    }
  }
}
