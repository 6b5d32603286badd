/** What every run of the engine keeps: ordered incident intervals, severities
    that cover their detections, one detection per rule, group and bucket, exact
    indicator counts, and each event consumed once. */
module Safety {
  import opened Collections
  import opened Model
  import opened Rules
  import opened Iocs
  import opened Scoring
  import opened Correlation
  import opened Engine
  import opened Replay
  import opened Cursor

  // ── Incidents ────────────────────────────────────────────────────────────

  /** An incident spans an interval up to the clock and has a score within
      bounds, or none yet when an analyst created it. */
  ghost predicate Spans(inc: Incident, now: int) {
    inc.firstSeen <= inc.lastSeen <= now && (inc.risk == 0.0 || 18.0 <= inc.risk <= 100.0)
  }

  /** When the later incident begins the earlier has ended, and is closed or has
      been quiet for more than six hours. */
  ghost predicate Follows(inc: Incident, later: Incident) {
    inc.lastSeen <= later.firstSeen && (IsOpen(inc.status) ==> inc.lastSeen < later.firstSeen - INCIDENT_WINDOW)
  }

  /** The incidents of one source follow one another. */
  ghost predicate IncidentsOrdered(incs: seq<Incident>, now: int) {
    && (forall i | 0 <= i < |incs| :: Spans(incs[i], now))
    && (forall i, j | 0 <= i < j < |incs| && incs[i].source == incs[j].source :: Follows(incs[i], incs[j]))
  }

  ghost predicate Superseded(incs: seq<Incident>, i: nat) {
    i < |incs| && exists j :: i < j < |incs| && incs[j].source == incs[i].source
  }

  /** The same row but for what an analyst may edit. */
  ghost predicate EditedOnly(inc: Incident, inc': Incident) {
    && inc' == inc.(firstSeen := inc'.firstSeen, lastSeen := inc'.lastSeen, status := inc'.status, severity := inc'.severity,
                    techniques := inc'.techniques, users := inc'.users, sensors := inc'.sensors)
    && inc'.firstSeen <= inc.firstSeen && inc.lastSeen <= inc'.lastSeen
  }

  /** How the incident table may change: rows are only added, a row keeps its
      source, its interval only grows, and of a superseded row only analysts
      change anything. */
  ghost predicate IncidentsEvolve(incs: seq<Incident>, incs': seq<Incident>) {
    && |incs| <= |incs'|
    && (forall i | 0 <= i < |incs| ::
          && incs'[i].source == incs[i].source
          && incs'[i].firstSeen <= incs[i].firstSeen
          && incs'[i].lastSeen >= incs[i].lastSeen
          && (Superseded(incs, i) ==> EditedOnly(incs[i], incs'[i])))
  }

  /** What the engine itself does: a row keeps its start, and a superseded one is
      not changed at all. */
  ghost predicate EngineEvolves(incs: seq<Incident>, incs': seq<Incident>) {
    && IncidentsEvolve(incs, incs')
    && (forall i | 0 <= i < |incs| :: incs'[i].firstSeen == incs[i].firstSeen)
    && (forall i: nat | Superseded(incs, i) :: incs'[i] == incs[i])
  }

  lemma SupersededStays(incs: seq<Incident>, incs': seq<Incident>, i: nat)
    requires IncidentsEvolve(incs, incs') && Superseded(incs, i)
    ensures Superseded(incs', i)
  {
    var j :| i < j < |incs| && incs[j].source == incs[i].source;
    assert incs'[j].source == incs'[i].source;
  }

  lemma EvolveTransitive(a: seq<Incident>, b: seq<Incident>, c: seq<Incident>)
    requires IncidentsEvolve(a, b) && IncidentsEvolve(b, c)
    ensures IncidentsEvolve(a, c)
  {
    forall i: nat | Superseded(a, i)
      ensures Superseded(b, i)
    {
      SupersededStays(a, b, i);
    }
  }

  lemma NoneRemoved(incs: seq<Incident>, incs': seq<Incident>)
    requires IncidentsEvolve(incs, incs')
    ensures |incs| <= |incs'| && forall i: nat | Superseded(incs, i) :: i < |incs|
  {
  }

  lemma EngineTransitive(a: seq<Incident>, b: seq<Incident>, c: seq<Incident>)
    requires EngineEvolves(a, b) && EngineEvolves(b, c)
    ensures EngineEvolves(a, c)
  {
    hide IncidentsEvolve, Superseded;
    EvolveTransitive(a, b, c);
    NoneRemoved(a, b);
    NoneRemoved(b, c);
    forall i: nat | Superseded(a, i)
      ensures c[i] == a[i]
    {
      SupersededStays(a, b, i);
    }
  }

  /** One row is appended or updated: the update keeps source, start and status,
      and ends now; a superseded row is not the one updated. */
  lemma OneRowEvolves(incs: seq<Incident>, i: nat, inc: Incident, incs': seq<Incident>)
    requires i <= |incs| && incs' == if i == |incs| then incs + [inc] else incs[i := inc]
    requires i < |incs| ==>
      && inc.source == incs[i].source && inc.firstSeen == incs[i].firstSeen && inc.lastSeen >= incs[i].lastSeen
      && !Superseded(incs, i)
    ensures EngineEvolves(incs, incs')
  {
  }

  /** The new or updated row keeps the intervals ordered. */
  lemma OneRowOrdered(incs: seq<Incident>, now: int, ip: string, i: nat, inc: Incident, incs': seq<Incident>)
    requires IncidentsOrdered(incs, now) && Chosen(incs, ip, now, if i < |incs| then Some(i) else None)
    requires i <= |incs| && incs' == if i == |incs| then incs + [inc] else incs[i := inc]
    requires inc.source == ip && inc.lastSeen == now && 18.0 <= inc.risk <= 100.0
    requires if i < |incs| then inc.firstSeen == incs[i].firstSeen && inc.status == incs[i].status else inc.firstSeen == now
    ensures IncidentsOrdered(incs', now)
    ensures i < |incs| ==> !Superseded(incs, i)
  {
  }

  /** The row a correlation appends or updates. */
  lemma TargetRow(t: Tables, now: int, ip: string, a: Input) returns (i: nat, inc: Incident)
    requires RowsExist(t, a) && !Skips(a)
    ensures var t' := Correlate(t, now, ip, a);
      && i == Target(t, now, ip) && i < |t'.incidents| && inc == t'.incidents[i]
      && t'.incidents == (if i == |t.incidents| then t.incidents + [inc] else t.incidents[i := inc])
      && inc.source == ip && inc.lastSeen == now
      && (if i < |t.incidents| then inc.firstSeen == t.incidents[i].firstSeen && inc.status == t.incidents[i].status
          else inc.firstSeen == now && inc.status == NEW)
      && inc.severity == IncidentSeverity(Filter(t'.detections, LinkedTo(i)), a.maxRisk)
      && (a.maxRisk >= 0.0 ==> 18.0 <= inc.risk <= 100.0)
  {
    hide IncidentSeverity, IncidentConfidence, IncidentRisk, MergeTechniques, TechniquesOf, UsersOf, SensorsOf, ReasonsOf,
      NewEventLinks, NewIocLinks, Filter, Assign, At;
    i := Target(t, now, ip);
    inc := Correlate(t, now, ip, a).incidents[i];
    if a.maxRisk >= 0.0 {
      var before := Receiving(t, now, ip, At(t.detections, a.rows), a.evidence);
      RiskBounds(Filter(Assign(t.detections, a.rows, i), LinkedTo(i)), before.techniques, a.maxRisk, a.sessions, a.malware);
    }
  }

  lemma SkipsAll(t: Tables, now: int, ip: string, a: Input)
    requires RowsExist(t, a) && Skips(a)
    ensures Correlate(t, now, ip, a) == t
  {
  }

  lemma EndsByNow(incs: seq<Incident>, now: int, i: nat)
    requires IncidentsOrdered(incs, now)
    ensures i < |incs| ==> incs[i].lastSeen <= now
  {
  }

  lemma EvolveReflexive(incs: seq<Incident>)
    ensures IncidentsEvolve(incs, incs) && EngineEvolves(incs, incs)
  {
  }

  /** What correlating a source does to the incident table, whatever it scores. */
  lemma CorrelateKeepsOrder(t: Tables, now: int, ip: string, a: Input, t': Tables)
    requires RowsExist(t, a) && t' == Correlate(t, now, ip, a)
    requires IncidentsOrdered(t.incidents, now) && a.maxRisk >= 0.0
    ensures IncidentsOrdered(t'.incidents, now) && EngineEvolves(t.incidents, t'.incidents)
  {
    hide Correlate, IncidentsOrdered, EngineEvolves, Superseded, Select, Skips, IncidentSeverity, Filter;
    if Skips(a) {
      SkipsAll(t, now, ip, a);
      EvolveReflexive(t.incidents);
    } else {
      var i, inc := TargetRow(t, now, ip, a);
      SelectChosen(t.incidents, ip, now);
      assert i < |t.incidents| ==> inc.lastSeen >= t.incidents[i].lastSeen by {
        EndsByNow(t.incidents, now, i);
      }
      OneRowOrdered(t.incidents, now, ip, i, inc, t'.incidents);
      OneRowEvolves(t.incidents, i, inc, t'.incidents);
    }
  }

  // ── Links between detections and incidents ───────────────────────────────

  /** The source a detection row belongs to. */
  function OwnerOf(d: Detection): string {
    if d.sourceIp != "" then d.sourceIp
    else match d.reason
      case RuleFired(_, group, _) => group
      case HighRisk(_, _) => ""
      case Manual(_) => ""
  }

  /** A linked detection belongs to an incident of its own source. */
  ghost predicate LinksOwned(t: Tables) {
    forall k | 0 <= k < |t.detections| && t.detections[k].incident.Some? ::
      var i := t.detections[k].incident.value;
      i < |t.incidents| && t.incidents[i].source == OwnerOf(t.detections[k])
  }

  /** And the incident is at least as severe. */
  ghost predicate LinksCovered(t: Tables)
    requires LinksOwned(t)
  {
    forall k | 0 <= k < |t.detections| && t.detections[k].incident.Some? ::
      Rank(t.detections[k].severity) <= Rank(t.incidents[t.detections[k].incident.value].severity)
  }

  /** After every update, whatever the tables held before, the incident is at
      least as severe as every detection ever linked to it and its score is
      within bounds. */
  lemma CorrelateScores(t: Tables, now: int, ip: string, a: Input)
    requires RowsExist(t, a) && !Skips(a)
    ensures var t' := Correlate(t, now, ip, a); var i := Target(t, now, ip);
      && i < |t'.incidents|
      && (forall k | 0 <= k < |t'.detections| && t'.detections[k].incident == Some(i) ::
            Rank(t'.detections[k].severity) <= Rank(t'.incidents[i].severity))
      && (a.maxRisk >= 0.0 ==> 18.0 <= t'.incidents[i].risk <= 100.0)
  {
    hide Correlate, Filter, IncidentSeverity, Skips, Target;
    var i, inc := TargetRow(t, now, ip, a);
    var ds := Correlate(t, now, ip, a).detections;
    var linked := Filter(ds, LinkedTo(i));
    forall k | 0 <= k < |ds| && ds[k].incident == Some(i)
      ensures Rank(ds[k].severity) <= Rank(inc.severity)
    {
      FilterIn(ds, LinkedTo(i), ds[k]);
      SeverityCovers(linked, a.maxRisk, ds[k]);
    }
  }

  lemma CorrelateKeepsOwned(t: Tables, now: int, ip: string, a: Input, t': Tables)
    requires RowsExist(t, a) && t' == Correlate(t, now, ip, a) && LinksOwned(t)
    requires forall k | 0 <= k < |a.rows| :: OwnerOf(t.detections[a.rows[k]]) == ip
    ensures LinksOwned(t')
    ensures forall k | 0 <= k < |a.rows| :: t'.detections[a.rows[k]].incident.Some?
    ensures |t.incidents| <= |t'.incidents|
    ensures forall i | 0 <= i < |t.incidents| :: t'.incidents[i].source == t.incidents[i].source
  {
    hide IncidentSeverity, IncidentConfidence, IncidentRisk, MergeTechniques, TechniquesOf, UsersOf, SensorsOf, ReasonsOf,
      NewEventLinks, NewIocLinks, Filter, At;
  }

  lemma CorrelateKeepsLinks(t: Tables, now: int, ip: string, a: Input, t': Tables)
    requires RowsExist(t, a) && t' == Correlate(t, now, ip, a) && LinksOwned(t) && LinksCovered(t)
    requires forall k | 0 <= k < |a.rows| :: OwnerOf(t.detections[a.rows[k]]) == ip
    ensures LinksOwned(t') && LinksCovered(t')
  {
    CorrelateKeepsOwned(t, now, ip, a, t');
    hide IncidentSeverity, IncidentConfidence, IncidentRisk, MergeTechniques, TechniquesOf, UsersOf, SensorsOf, ReasonsOf,
      NewEventLinks, NewIocLinks, Filter, At, LinksOwned;
    if !Skips(a) {
      CorrelateScores(t, now, ip, a);
    }
  }

  lemma {:induction false} RowsCover(base: nat, novel: seq<Candidate>, k: nat)
    requires k < |novel|
    ensures base + k in RowsFor(base, novel, IpOf(novel[k]))
  {
    hide IpOf;
    if k == |novel| - 1 {
    } else {
      RowsCover(base, novel[..|novel| - 1], k);
    }
  }

  ghost predicate OwnedBy(ds: seq<Detection>, base: nat, novel: seq<Candidate>) {
    |ds| == base + |novel| && forall k | 0 <= k < |novel| :: OwnerOf(ds[base + k]) == IpOf(novel[k])
  }

  lemma SameOwner(ds: seq<Detection>, es: seq<Detection>, k: nat)
    requires SameButIncident(ds, es) && k < |ds|
    ensures OwnerOf(es[k]) == OwnerOf(ds[k])
  {
  }

  /** The rows offered for a source belong to it. */
  lemma RowsOwned(t: Tables, u: Tables, base: nat, novel: seq<Candidate>, ip: string, a: Input)
    requires OwnedBy(t.detections, base, novel) && SameButIncident(t.detections, u.detections)
    requires a.rows == RowsFor(base, novel, ip)
    ensures RowsExist(u, a)
    ensures forall k | 0 <= k < |a.rows| :: OwnerOf(u.detections[a.rows[k]]) == ip
  {
    hide IpOf, RowsFor, OwnerOf;
    RowsInRange(base, novel, ip, a.rows);
    forall k | 0 <= k < |a.rows|
      ensures OwnerOf(u.detections[a.rows[k]]) == ip
    {
      SameOwner(t.detections, u.detections, a.rows[k]);
      assert OwnerOf(t.detections[base + (a.rows[k] - base)]) == IpOf(novel[a.rows[k] - base]);
    }
  }

  lemma StaysLinked(t: Tables, now: int, ip: string, a: Input, k: nat)
    requires RowsExist(t, a) && k < |t.detections|
    ensures t.detections[k].incident.Some? ==> Correlate(t, now, ip, a).detections[k].incident.Some?
  {
    hide Receiving, Scored, NewEventLinks, NewIocLinks, Select, Filter;
  }

  /** After one more source its new detections are linked as well. */
  lemma NextLinked(u: Tables, now: int, base: nat, novel: seq<Candidate>, rest: seq<string>, ip: string, a: Input)
    requires Ready(u, base, novel) && RowsExist(u, a) && a.rows == RowsFor(base, novel, ip)
    requires forall k | 0 <= k < |novel| && IpOf(novel[k]) in rest :: u.detections[base + k].incident.Some?
    requires forall k | 0 <= k < |a.rows| :: Correlate(u, now, ip, a).detections[a.rows[k]].incident.Some?
    ensures forall k | 0 <= k < |novel| && IpOf(novel[k]) in rest + [ip] ::
      Correlate(u, now, ip, a).detections[base + k].incident.Some?
  {
    hide Correlate, IpOf, RowsFor;
    CorrelateFrame(u, now, ip, a);
    forall k | 0 <= k < |novel| && IpOf(novel[k]) in rest + [ip]
      ensures Correlate(u, now, ip, a).detections[base + k].incident.Some?
    {
      if IpOf(novel[k]) == ip {
        RowsCover(base, novel, k);
      }
      StaysLinked(u, now, ip, a, base + k);
    }
  }

  /** Correlating the sources one after another keeps detections with incidents
      of their own source, and leaves no new detection of those sources unlinked. */
  lemma {:induction false} CorrelateAllLinks(t: Tables, now: int, r: Reading, base: nat, novel: seq<Candidate>,
                                             ips: seq<string>, t': Tables)
    requires Ready(t, base, novel) && t' == CorrelateAll(t, now, r, base, novel, ips)
    requires LinksOwned(t) && OwnedBy(t.detections, base, novel)
    ensures LinksOwned(t') && SameButIncident(t.detections, t'.detections)
    ensures |t.incidents| <= |t'.incidents|
    ensures forall i | 0 <= i < |t.incidents| :: t'.incidents[i].source == t.incidents[i].source
    ensures forall k | 0 <= k < |t.detections| && t.detections[k].incident.Some? :: t'.detections[k].incident.Some?
    ensures forall k | 0 <= k < base :: t'.detections[k].incident == t.detections[k].incident
    ensures forall k | 0 <= k < |novel| && IpOf(novel[k]) in ips :: t'.detections[base + k].incident.Some?
  {
    hide InputFor, Correlate, IpOf, LinksOwned, RowsFor, OwnerOf, RowsExist;
    if ips == [] {
    } else {
      var rest, ip := ips[..|ips| - 1], ips[|ips| - 1];
      var u := CorrelateAll(t, now, r, base, novel, rest);
      CorrelateAllLinks(t, now, r, base, novel, rest, u);
      var a := InputFor(r, base, novel, ip);
      InputRows(r, base, novel, ip, u);
      InputRowsOf(r, base, novel, ip);
      RowsInRange(base, novel, ip, a.rows);
      RowsOwned(t, u, base, novel, ip, a);
      CorrelateKeepsOwned(u, now, ip, a, t');
      CorrelateLinks(u, now, ip, a);
      assert ips == rest + [ip];
      NextLinked(u, now, base, novel, rest, ip, a);
      forall k: nat | k < |t.detections| && t.detections[k].incident.Some?
        ensures t'.detections[k].incident.Some?
      {
        StaysLinked(u, now, ip, a, k);
      }
    }
  }

  lemma InputRisk(r: Reading, base: nat, novel: seq<Candidate>, ip: string)
    ensures InputFor(r, base, novel, ip).maxRisk >= 0.0
  {
    hide EvidenceFor, AddHighRisk, AllIocs, MalwareLinked, Filter, Dedup, RowsFor;
  }

  /** And it keeps the intervals ordered and the severities covering. */
  lemma {:induction false} CorrelateAllKeeps(t: Tables, now: int, r: Reading, base: nat, novel: seq<Candidate>,
                                             ips: seq<string>, t': Tables)
    requires Ready(t, base, novel) && t' == CorrelateAll(t, now, r, base, novel, ips)
    requires LinksOwned(t) && OwnedBy(t.detections, base, novel)
    requires IncidentsOrdered(t.incidents, now) && LinksCovered(t)
    ensures LinksOwned(t')
    ensures IncidentsOrdered(t'.incidents, now) && LinksCovered(t') && EngineEvolves(t.incidents, t'.incidents)
  {
    hide InputFor, Correlate, IncidentsOrdered, LinksOwned, LinksCovered, EngineEvolves, RowsFor, OwnerOf, RowsExist, OwnedBy;
    if ips == [] {
      EvolveReflexive(t.incidents);
    } else {
      var rest, ip := ips[..|ips| - 1], ips[|ips| - 1];
      var u := CorrelateAll(t, now, r, base, novel, rest);
      CorrelateAllKeeps(t, now, r, base, novel, rest, u);
      CorrelateAllLinks(t, now, r, base, novel, rest, u);
      var a := InputFor(r, base, novel, ip);
      InputRowsOf(r, base, novel, ip);
      RowsOwned(t, u, base, novel, ip, a);
      InputRisk(r, base, novel, ip);
      CorrelateKeepsOrder(u, now, ip, a, t');
      EngineTransitive(t.incidents, u.incidents, t'.incidents);
      CorrelateKeepsLinks(u, now, ip, a, t');
    }
  }

  // ── Detections ───────────────────────────────────────────────────────────

  /** Rule ids are distinct and free of colons. */
  ghost predicate WellNamed(rules: seq<Rule>) {
    && (forall i | 0 <= i < |rules| :: ':' !in rules[i].id)
    && (forall i, j | 0 <= i < j < |rules| :: rules[i].id != rules[j].id)
  }

  /** Rules that agree in what a detection row records of them. */
  ghost predicate SameRecord(a: Rule, b: Rule) {
    a.id == b.id && a.severity == b.severity && a.timeframe == b.timeframe
  }

  /** Rules loaded for one cycle: well named, each a version of a rule of the
      catalogue. Files may come and go and change between cycles, but a rule id
      keeps its severity and timeframe. */
  ghost predicate Drawn(rules: seq<Rule>, catalogue: seq<Rule>) {
    WellNamed(rules) && forall i | 0 <= i < |rules| :: exists j :: 0 <= j < |catalogue| && SameRecord(rules[i], catalogue[j])
  }

  /** A row's key names its rule, its group, and the bucket its last event is in. */
  ghost predicate Named(d: Detection, rule: Rule) {
    && d.ruleId == rule.id && d.severity == rule.severity
    && d.reason.RuleFired? && d.reason.ruleId == rule.id
    && d.key == Key(rule.id, d.reason.group, Bucket(d.lastAt, rule.timeframe))
  }

  ghost predicate DetectionsNamed(ds: seq<Detection>, rules: seq<Rule>) {
    && (forall k | 0 <= k < |ds| :: exists i :: 0 <= i < |rules| && Named(ds[k], rules[i]))
    && (forall j, k | 0 <= j < k < |ds| :: ds[j].key != ds[k].key)
  }

  /** At most one row per rule, group and bucket. */
  lemma OneRowPerTriple(ds: seq<Detection>, rules: seq<Rule>, j: nat, k: nat, rule: Rule)
    requires DetectionsNamed(ds, rules) && j < |ds| && k < |ds|
    requires Named(ds[j], rule) && Named(ds[k], rule)
    requires ds[j].reason.group == ds[k].reason.group
    requires Bucket(ds[j].lastAt, rule.timeframe) == Bucket(ds[k].lastAt, rule.timeframe)
    ensures j == k
  {
    assert ds[j].key == ds[k].key;
  }

  ghost predicate Offers(c: Candidate, rules: seq<Rule>) {
    && (exists i :: 0 <= i < |rules| && SameRecord(rules[i], c.rule))
    && c.key == Key(c.rule.id, c.group, Bucket(c.lastAt, c.rule.timeframe))
    && c.reason.RuleFired? && c.reason.ruleId == c.rule.id && c.reason.group == c.group
  }

  lemma DifferentKey(c: Candidate, d: Candidate, rules: seq<Rule>)
    requires WellNamed(rules) && Offers(c, rules) && Offers(d, rules)
    requires c.rule.id != d.rule.id || c.group != d.group
    ensures c.key != d.key
  {
    hide Key, Bucket;
    if c.key == d.key {
      KeyInjective(c.rule.id, c.group, Bucket(c.lastAt, c.rule.timeframe),
                   d.rule.id, d.group, Bucket(d.lastAt, d.rule.timeframe));
    }
  }

  lemma SoundOffers(c: Candidate, window: seq<Event>, now: int, rules: seq<Rule>, k: nat)
    requires Sound(c, window, now) && k < |rules| && c.rule == rules[k]
    ensures Offers(c, rules)
  {
    hide Key, Bucket, MeetRule, NamesUser;
    assert SameRecord(rules[k], c.rule);
  }

  /** The candidates of one more rule have keys of their own. */
  lemma KeysApart(before: seq<Candidate>, mine: seq<Candidate>, all: seq<Rule>, n: nat)
    requires WellNamed(all) && 0 < n <= |all| && DistinctKeys(before)
    requires forall i | 0 <= i < |before| :: Offers(before[i], all) && exists j :: 0 <= j < n - 1 && all[j] == before[i].rule
    requires forall i | 0 <= i < |mine| :: Offers(mine[i], all) && mine[i].rule == all[n - 1]
    requires forall i, j | 0 <= i < j < |mine| :: mine[i].group != mine[j].group
    ensures DistinctKeys(before + mine)
  {
    hide Offers;
    var cs := before + mine;
    forall i, j | 0 <= i < j < |cs|
      ensures cs[i].key != cs[j].key
    {
      if j >= |before| {
        assert cs[j] == mine[j - |before|];
        if i >= |before| {
          assert cs[i] == mine[i - |before|];
        } else {
          assert cs[i] == before[i];
        }
        DifferentKey(cs[i], cs[j], all);
      }
    }
  }

  lemma {:induction false} CandidatesOffer(all: seq<Rule>, n: nat, window: seq<Event>, since: int, now: int, cs: seq<Candidate>)
    requires n <= |all| && cs == CandidatesOf(all[..n], window, since, now)
    requires WellNamed(all)
    ensures forall i | 0 <= i < |cs| :: Offers(cs[i], all) && exists j :: 0 <= j < n && all[j] == cs[i].rule
    ensures DistinctKeys(cs)
  {
    hide Key, Bucket, Evaluate;
    if n == 0 {
    } else {
      assert all[..n][..n - 1] == all[..n - 1];
      var rule := all[n - 1];
      var before, mine := CandidatesOf(all[..n - 1], window, since, now), Evaluate(rule, window, since, now);
      CandidatesOffer(all, n - 1, window, since, now, before);
      EvaluateSound(rule, window, since, now, mine);
      assert cs == before + mine;
      hide Sound;
      forall i | 0 <= i < |mine|
        ensures Offers(mine[i], all)
      {
        SoundOffers(mine[i], window, now, all, n - 1);
      }
      hide Offers;
      assert forall i | 0 <= i < |before| :: cs[i] == before[i];
      assert forall i | 0 <= i < |mine| :: cs[|before| + i] == mine[i];
      KeysApart(before, mine, all, n);
    }
  }

  lemma OffersFrom(c: Candidate, rules: seq<Rule>, catalogue: seq<Rule>)
    requires Offers(c, rules) && Drawn(rules, catalogue)
    ensures Offers(c, catalogue)
  {
    hide Key, Bucket;
    var i :| 0 <= i < |rules| && SameRecord(rules[i], c.rule);
    var j :| 0 <= j < |catalogue| && SameRecord(rules[i], catalogue[j]);
    assert SameRecord(catalogue[j], c.rule);
  }

  lemma {:induction false} FilterDistinctKeys(cs: seq<Candidate>, p: Candidate -> bool)
    requires DistinctKeys(cs)
    ensures DistinctKeys(Filter(cs, p))
  {
    if cs == [] {
    } else {
      var rest, c := cs[..|cs| - 1], cs[|cs| - 1];
      FilterDistinctKeys(rest, p);
      forall k | 0 <= k < |Filter(rest, p)|
        ensures Filter(rest, p)[k].key != c.key
      {
        FilterIn(rest, p, Filter(rest, p)[k]);
      }
    }
  }

  /** With well-named rules no cycle is ever rejected by the unique index. */
  lemma CycleAlwaysCommits(t: Tables, log: seq<Event>, rules: seq<Rule>, now: int, reports: set<string>)
    requires WellNamed(rules)
    ensures Cycle(t, log, rules, now, reports).Some?
  {
    hide NextBatch, WindowOf, CandidatesOf, KeysOf, Filter, CorrelateAll, Sources, Raise, Upserted, LatestIngest;
    var since := CursorOf(t, now);
    var window := WindowOf(log, NextBatch(log, since), now);
    assert rules[..|rules|] == rules;
    CandidatesOffer(rules, |rules|, window, since, now, CandidatesOf(rules, window, since, now));
    FilterDistinctKeys(CandidatesOf(rules, window, since, now), Unseen(KeysOf(t.detections)));
  }

  lemma RefreshNamed(d: Detection, rule: Rule, c: Candidate, rules: seq<Rule>)
    requires WellNamed(rules) && rule in rules && Named(d, rule)
    requires Offers(c, rules) && c.key == d.key
    ensures Named(d.(lastAt := c.lastAt), rule)
  {
    hide Key, Bucket;
    var i :| 0 <= i < |rules| && SameRecord(rules[i], c.rule);
    var j :| 0 <= j < |rules| && rules[j] == rule;
    KeyInjective(rule.id, d.reason.group, Bucket(d.lastAt, rule.timeframe),
                 c.rule.id, c.group, Bucket(c.lastAt, c.rule.timeframe));
    assert i == j;
  }

  ghost predicate AllNamed(ds: seq<Detection>, rules: seq<Rule>) {
    forall k | 0 <= k < |ds| :: exists i :: 0 <= i < |rules| && Named(ds[k], rules[i])
  }

  lemma RowNamed(c: Candidate, rules: seq<Rule>)
    requires Offers(c, rules)
    ensures exists i :: 0 <= i < |rules| && Named(RowOf(c), rules[i])
    ensures OwnerOf(RowOf(c)) == IpOf(c)
  {
    hide Key, Bucket;
    var i :| 0 <= i < |rules| && SameRecord(rules[i], c.rule);
    assert Named(RowOf(c), rules[i]);
  }

  lemma {:induction false} RaiseNamed(ds: seq<Detection>, keys: set<string>, cs: seq<Candidate>, rules: seq<Rule>,
                                      r: seq<Detection>)
    requires WellNamed(rules) && AllNamed(ds, rules) && r == Raise(ds, keys, cs)
    requires forall i | 0 <= i < |cs| :: Offers(cs[i], rules)
    ensures AllNamed(r, rules)
  {
    hide Named, Offers, RowOf;
    if cs == [] {
    } else {
      var rest, c := cs[..|cs| - 1], cs[|cs| - 1];
      var r' := Raise(ds, keys, rest);
      RaiseNamed(ds, keys, rest, rules, r');
      RowNamed(c, rules);
      forall k | 0 <= k < |r'|
        ensures exists i :: 0 <= i < |rules| && Named(r[k], rules[i])
      {
        var i :| 0 <= i < |rules| && Named(r'[k], rules[i]);
        if r[k] != r'[k] {
          RefreshNamed(r'[k], rules[i], c, rules);
        }
        assert Named(r[k], rules[i]);
      }
    }
  }

  lemma KeysStayDistinct(ds: seq<Detection>, novel: seq<Candidate>, r: seq<Detection>)
    requires RaisedAs(ds, novel, r) && DistinctKeys(novel)
    requires forall j, k | 0 <= j < k < |ds| :: ds[j].key != ds[k].key
    requires forall k | 0 <= k < |novel| :: novel[k].key !in KeysOf(ds)
    ensures forall j, k | 0 <= j < k < |r| :: r[j].key != r[k].key
  {
    hide RowOf;
    forall k | 0 <= k < |novel|
      ensures r[|ds| + k].key == novel[k].key
    {
      RowKey(novel[k]);
    }
    forall j, k | 0 <= j < k < |r|
      ensures r[j].key != r[k].key
    {
      if k >= |ds| {
        assert r[k].key == r[|ds| + (k - |ds|)].key == novel[k - |ds|].key;
        if j < |ds| {
          assert r[j].key == ds[j].key && ds[j].key in KeysOf(ds);
        } else {
          assert r[j].key == r[|ds| + (j - |ds|)].key == novel[j - |ds|].key;
        }
      }
    }
  }

  /** Old rows keep their key and link and never move back in time; after the
      refreshes and inserts keys are still unique and still name their buckets. */
  lemma RaiseKeeps(ds: seq<Detection>, cs: seq<Candidate>, novel: seq<Candidate>, rules: seq<Rule>, r: seq<Detection>)
    requires WellNamed(rules) && DetectionsNamed(ds, rules)
    requires novel == Filter(cs, Unseen(KeysOf(ds))) && r == Raise(ds, KeysOf(ds), cs)
    requires DistinctKeys(novel) && forall i | 0 <= i < |cs| :: Offers(cs[i], rules)
    ensures DetectionsNamed(r, rules) && RaisedAs(ds, novel, r) && OwnedBy(r, |ds|, novel)
  {
    hide Named, Offers, RowOf, KeysOf, Raise, Filter, OwnerOf, IpOf;
    RaiseNamed(ds, KeysOf(ds), cs, rules, r);
    RaiseShape(ds, KeysOf(ds), cs, novel, r);
    KeysStayDistinct(ds, novel, r);
    forall k | 0 <= k < |novel|
      ensures OwnerOf(r[|ds| + k]) == IpOf(novel[k])
    {
      FilterIn(cs, Unseen(KeysOf(ds)), novel[k]);
      RowNamed(novel[k], rules);
    }
  }

  /** Every source a cycle correlates has something to correlate. */
  lemma SourceHasInput(r: Reading, base: nat, novel: seq<Candidate>, ip: string)
    requires ip in Sources(novel, r.batch)
    ensures !Skips(InputFor(r, base, novel, ip))
  {
    hide EvidenceFor, AddHighRisk, AllIocs, MalwareLinked, MaxRisk, Dedup, IpOf, InputFor, RowsFor, EventRisk, Filter;
    FilterIn(Dedup(IpsOf(novel) + HighRiskIps(r.batch)), NonEmpty(), ip);
    InputRowsOf(r, base, novel, ip);
    if ip in HighRiskIps(r.batch) {
      FilterIn(Dedup(IpsOf([]) + HighRiskIps(r.batch)), NonEmpty(), ip);
      ReplaySource(r, base, novel, ip);
    } else {
      var k :| 0 <= k < |novel| && IpsOf(novel)[k] == ip;
      RowsCover(base, novel, k);
    }
  }
}
