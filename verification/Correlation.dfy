/** Folding detections and high-risk events of one source into its incident. */
module Correlation {
  import opened Collections
  import opened Model
  import opened Iocs
  import opened Scoring

  const INCIDENT_WINDOW := 6 * HOUR

  datatype Status = NEW | TRIAGING | INVESTIGATING | CONTAINED | RESOLVED | FALSE_POSITIVE

  predicate IsOpen(s: Status) {
    s != RESOLVED && s != FALSE_POSITIVE
  }

  /** A row of `incidents`; its id is its position in the table. */
  datatype Incident = Incident(
    source: string,
    status: Status,
    firstSeen: int,
    lastSeen: int,
    users: set<string>,
    sensors: set<string>,
    techniques: seq<string>,
    reasons: set<Reason>,
    severity: Severity,
    confidence: real,
    risk: real)

  datatype EventLink = EventLink(incident: nat, eventId: string, reason: Reason)

  datatype IocLink = IocLink(incident: nat, ioc: Ioc)

  /** The tables one detection cycle reads and writes. */
  datatype Tables = Tables(
    cursor: Option<int>,
    iocs: seq<IocRow>,
    detections: seq<Detection>,
    incidents: seq<Incident>,
    eventLinks: seq<EventLink>,
    iocLinks: seq<IocLink>)

  /** An event offered as evidence, and why. */
  datatype Evidence = Evidence(event: Event, reason: Reason)

  // ── Choosing the incident ────────────────────────────────────────────────

  /** Open, of this source, and active within the last six hours. */
  predicate Live(inc: Incident, ip: string, now: int) {
    inc.source == ip && IsOpen(inc.status) && inc.lastSeen >= now - INCIDENT_WINDOW
  }

  /** The live incident seen last (the earliest row among equals). */
  function Select(incs: seq<Incident>, ip: string, now: int): (r: Option<nat>)
    ensures r.Some? ==> r.value < |incs| && Live(incs[r.value], ip, now)
  {
    if incs == [] then None
    else
      var n := |incs| - 1;
      match Select(incs[..n], ip, now)
      case None => if Live(incs[n], ip, now) then Some(n) else None
      case Some(i) => if Live(incs[n], ip, now) && incs[n].lastSeen > incs[i].lastSeen then Some(n) else Some(i)
  }

  ghost predicate Chosen(incs: seq<Incident>, ip: string, now: int, r: Option<nat>) {
    match r
    case None => forall j | 0 <= j < |incs| :: !Live(incs[j], ip, now)
    case Some(i) =>
      && i < |incs| && Live(incs[i], ip, now)
      && (forall j | 0 <= j < |incs| && Live(incs[j], ip, now) :: incs[j].lastSeen <= incs[i].lastSeen)
      && (forall j | 0 <= j < i && Live(incs[j], ip, now) :: incs[j].lastSeen < incs[i].lastSeen)
  }

  lemma {:induction false} SelectChosen(incs: seq<Incident>, ip: string, now: int)
    ensures Chosen(incs, ip, now, Select(incs, ip, now))
  {
    if incs == [] {
    } else {
      SelectChosen(incs[..|incs| - 1], ip, now);
    }
  }

  lemma ChosenUnique(incs: seq<Incident>, ip: string, now: int, r: Option<nat>)
    requires Chosen(incs, ip, now, r)
    ensures Select(incs, ip, now) == r
  {
    SelectChosen(incs, ip, now);
    var s := Select(incs, ip, now);
    if r.Some? && s.Some? {
      assert r.value <= s.value && s.value <= r.value;
    }
  }

  function Target(t: Tables, now: int, ip: string): (i: nat)
    ensures i <= |t.incidents|
  {
    match Select(t.incidents, ip, now)
    case None => |t.incidents|
    case Some(i) => i
  }

  // ── Updating it ──────────────────────────────────────────────────────────

  function TechniquesOf(ds: seq<Detection>): seq<string> {
    if ds == [] then []
    else
      TechniquesOf(ds[..|ds| - 1]) +
      match ds[|ds| - 1].technique { case None => [] case Some(x) => [x] }
  }

  /** `_merge_techniques`: add the ids not yet present. */
  function MergeTechniques(have: seq<string>, more: seq<string>): seq<string> {
    if more == [] then have
    else
      var m := MergeTechniques(have, more[..|more| - 1]);
      if more[|more| - 1] in m then m else m + [more[|more| - 1]]
  }

  function ReasonsOf(ds: seq<Detection>): set<Reason> {
    set i | 0 <= i < |ds| :: ds[i].reason
  }

  function UsersOf(ev: seq<Evidence>): set<string> {
    set i | 0 <= i < |ev| && ev[i].event.username != "" :: ev[i].event.username
  }

  function SensorsOf(ev: seq<Evidence>): set<string> {
    set i | 0 <= i < |ev| && ev[i].event.sensor != "" :: ev[i].event.sensor
  }

  function At(ds: seq<Detection>, idx: seq<nat>): seq<Detection>
    requires forall k | 0 <= k < |idx| :: idx[k] < |ds|
  {
    seq(|idx|, k requires 0 <= k < |idx| => ds[idx[k]])
  }

  function Merged(inc: Incident, now: int, added: seq<Detection>, ev: seq<Evidence>): Incident {
    inc.(lastSeen := now,
         users := inc.users + UsersOf(ev),
         sensors := inc.sensors + SensorsOf(ev),
         techniques := MergeTechniques(inc.techniques, TechniquesOf(added)),
         reasons := inc.reasons + ReasonsOf(added))
  }

  function Created(ip: string, now: int, added: seq<Detection>, ev: seq<Evidence>): Incident {
    Incident(ip, NEW, now, now, UsersOf(ev), SensorsOf(ev), TechniquesOf(added), ReasonsOf(added), LOW, 0.5, 0.0)
  }

  /** The incident that receives the evidence, before it is scored. */
  function Receiving(t: Tables, now: int, ip: string, added: seq<Detection>, ev: seq<Evidence>): Incident {
    match Select(t.incidents, ip, now)
    case None => Created(ip, now, added, ev)
    case Some(i) => Merged(t.incidents[i], now, added, ev)
  }

  function LinkedTo(i: nat): Detection -> bool {
    (d: Detection) => d.incident == Some(i)
  }

  /** Rows `idx` assigned to incident `i`. */
  function Assign(ds: seq<Detection>, idx: seq<nat>, i: nat): seq<Detection> {
    seq(|ds|, k requires 0 <= k < |ds| => if k in idx then ds[k].(incident := Some(i)) else ds[k])
  }

  predicate EventLinked(links: seq<EventLink>, i: nat, id: string) {
    exists k | 0 <= k < |links| :: links[k].incident == i && links[k].eventId == id
  }

  function NewEventLinks(links: seq<EventLink>, i: nat, ev: seq<Evidence>): seq<EventLink> {
    if ev == [] then []
    else
      var e := ev[|ev| - 1];
      NewEventLinks(links, i, ev[..|ev| - 1])
      + if EventLinked(links, i, e.event.id) then [] else [EventLink(i, e.event.id, e.reason)]
  }

  predicate ValueLinked(links: seq<IocLink>, i: nat, value: string) {
    exists k | 0 <= k < |links| :: links[k].incident == i && links[k].ioc.value == value
  }

  function NewIocLinks(links: seq<IocLink>, i: nat, ps: seq<Ioc>): seq<IocLink> {
    if ps == [] then []
    else
      var p := ps[|ps| - 1];
      NewIocLinks(links, i, ps[..|ps| - 1]) + if ValueLinked(links, i, p.value) then [] else [IocLink(i, p)]
  }

  predicate IsHash(kind: string) {
    kind == "sha256" || kind == "md5" || kind == "sha1"
  }

  /** Some hash indicator has a stored analysis report. */
  predicate MalwareLinked(ps: seq<Ioc>, reports: set<string>) {
    exists k | 0 <= k < |ps| :: IsHash(ps[k].kind) && ps[k].value in reports
  }

  function Scored(inc: Incident, linked: seq<Detection>, maxRisk: real, sessions: nat, malware: bool): Incident {
    inc.(severity := IncidentSeverity(linked, maxRisk),
         confidence := IncidentConfidence(linked),
         risk := IncidentRisk(linked, inc.techniques, maxRisk, sessions, malware))
  }

  /** What one source contributes to a cycle: its new detection rows, its
      evidence, its indicators, the highest risk of its new events, its event
      count, and whether a malware report is linked. */
  datatype Input = Input(
    rows: seq<nat>,
    evidence: seq<Evidence>,
    iocs: seq<Ioc>,
    maxRisk: real,
    sessions: nat,
    malware: bool)

  predicate Skips(a: Input) {
    a.rows == [] && a.maxRisk < 80.0
  }

  ghost predicate RowsExist(t: Tables, a: Input) {
    forall k | 0 <= k < |a.rows| :: a.rows[k] < |t.detections|
  }

  /** The tables after `_correlate` for one source. */
  function Correlate(t: Tables, now: int, ip: string, a: Input): Tables
    requires RowsExist(t, a)
  {
    if Skips(a) then t
    else
      var i := Target(t, now, ip);
      var inc := Receiving(t, now, ip, At(t.detections, a.rows), a.evidence);
      var ds := Assign(t.detections, a.rows, i);
      var scored := Scored(inc, Filter(ds, LinkedTo(i)), a.maxRisk, a.sessions, a.malware);
      t.(detections := ds,
         incidents := if i == |t.incidents| then t.incidents + [scored] else t.incidents[i := scored],
         eventLinks := t.eventLinks + NewEventLinks(t.eventLinks, i, a.evidence),
         iocLinks := t.iocLinks + NewIocLinks(t.iocLinks, i, a.iocs))
  }

  /** Read-only part of `_correlate`: links to add for one incident. */
  method LinkEvents(links: seq<EventLink>, i: nat, ev: seq<Evidence>) returns (all: seq<EventLink>)
    ensures all == links + NewEventLinks(links, i, ev)
  {
    all := links;
    for k := 0 to |ev|
      invariant all == links + NewEventLinks(links, i, ev[..k])
    {
      assert ev[..k + 1][..k] == ev[..k];
      if !EventLinked(links, i, ev[k].event.id) {
        all := all + [EventLink(i, ev[k].event.id, ev[k].reason)];
      }
    }
    assert ev[..|ev|] == ev;
  }

  method LinkIocs(links: seq<IocLink>, i: nat, ps: seq<Ioc>) returns (all: seq<IocLink>)
    ensures all == links + NewIocLinks(links, i, ps)
  {
    all := links;
    for k := 0 to |ps|
      invariant all == links + NewIocLinks(links, i, ps[..k])
    {
      assert ps[..k + 1][..k] == ps[..k];
      if !ValueLinked(links, i, ps[k].value) {
        all := all + [IocLink(i, ps[k])];
      }
    }
    assert ps[..|ps|] == ps;
  }

  // ── Correlating again changes nothing ────────────────────────────────────

  /** Incident `i` of source `ip` already holds everything in `a`, was touched
      at `now`, and its score is up to date. */
  ghost predicate Settled(t: Tables, now: int, ip: string, a: Input, i: nat) {
    && Chosen(t.incidents, ip, now, Some(i))
    && (var inc := t.incidents[i];
        && inc.lastSeen == now
        && UsersOf(a.evidence) <= inc.users
        && SensorsOf(a.evidence) <= inc.sensors
        && Scored(inc, Filter(t.detections, LinkedTo(i)), a.maxRisk, a.sessions, a.malware) == inc)
    && (forall k | 0 <= k < |a.evidence| :: EventLinked(t.eventLinks, i, a.evidence[k].event.id))
    && (forall k | 0 <= k < |a.iocs| :: ValueLinked(t.iocLinks, i, a.iocs[k].value))
  }

  lemma {:induction false} NoNewEventLinks(links: seq<EventLink>, i: nat, ev: seq<Evidence>)
    requires forall k | 0 <= k < |ev| :: EventLinked(links, i, ev[k].event.id)
    ensures NewEventLinks(links, i, ev) == []
  {
    if ev == [] {
    } else {
      NoNewEventLinks(links, i, ev[..|ev| - 1]);
    }
  }

  lemma {:induction false} NoNewIocLinks(links: seq<IocLink>, i: nat, ps: seq<Ioc>)
    requires forall k | 0 <= k < |ps| :: ValueLinked(links, i, ps[k].value)
    ensures NewIocLinks(links, i, ps) == []
  {
    if ps == [] {
    } else {
      NoNewIocLinks(links, i, ps[..|ps| - 1]);
    }
  }

  /** With no new detections, correlating a settled source is the identity. */
  lemma SettledIsFixed(t: Tables, now: int, ip: string, a: Input, i: nat)
    requires Settled(t, now, ip, a, i) && a.rows == []
    ensures Correlate(t, now, ip, a) == t
  {
    hide Filter, Scored, Chosen, NewEventLinks, NewIocLinks, UsersOf, SensorsOf, EventLinked, ValueLinked;
    ChosenUnique(t.incidents, ip, now, Some(i));
    var inc := t.incidents[i];
    assert At(t.detections, []) == [];
    assert Merged(inc, now, [], a.evidence) == inc;
    assert Assign(t.detections, [], i) == t.detections;
    NoNewEventLinks(t.eventLinks, i, a.evidence);
    NoNewIocLinks(t.iocLinks, i, a.iocs);
  }

  lemma {:induction false} LinksEvents(links: seq<EventLink>, i: nat, ev: seq<Evidence>, k: nat)
    requires k < |ev|
    ensures EventLinked(links + NewEventLinks(links, i, ev), i, ev[k].event.id)
  {
    var rest, e := ev[..|ev| - 1], ev[|ev| - 1];
    var more := NewEventLinks(links, i, rest);
    var all := links + NewEventLinks(links, i, ev);
    assert all[..|links + more|] == links + more;
    if k < |ev| - 1 {
      LinksEvents(links, i, rest, k);
      var j :| 0 <= j < |links + more| && (links + more)[j].incident == i && (links + more)[j].eventId == ev[k].event.id;
      assert all[j].incident == i && all[j].eventId == ev[k].event.id;
    } else if EventLinked(links, i, e.event.id) {
      var j :| 0 <= j < |links| && links[j].incident == i && links[j].eventId == e.event.id;
      assert all[j].incident == i && all[j].eventId == e.event.id;
    } else {
      assert all[|all| - 1] == EventLink(i, e.event.id, e.reason);
    }
  }

  lemma {:induction false} LinksIocs(links: seq<IocLink>, i: nat, ps: seq<Ioc>, k: nat)
    requires k < |ps|
    ensures ValueLinked(links + NewIocLinks(links, i, ps), i, ps[k].value)
  {
    var rest, p := ps[..|ps| - 1], ps[|ps| - 1];
    var more := NewIocLinks(links, i, rest);
    var all := links + NewIocLinks(links, i, ps);
    assert all[..|links + more|] == links + more;
    if k < |ps| - 1 {
      LinksIocs(links, i, rest, k);
      var j :| 0 <= j < |links + more| && (links + more)[j].incident == i && (links + more)[j].ioc.value == ps[k].value;
      assert all[j].incident == i && all[j].ioc.value == ps[k].value;
    } else if ValueLinked(links, i, p.value) {
      var j :| 0 <= j < |links| && links[j].incident == i && links[j].ioc.value == p.value;
      assert all[j].incident == i && all[j].ioc.value == p.value;
    } else {
      assert all[|all| - 1] == IocLink(i, p);
    }
  }

  ghost predicate HasEvent(ev: seq<Evidence>, e: Event) {
    exists j :: 0 <= j < |ev| && ev[j].event == e
  }

  /** Every event of `b` is among those of `a`. */
  ghost predicate OffersAll(a: seq<Evidence>, b: seq<Evidence>) {
    forall k | 0 <= k < |b| :: HasEvent(a, b[k].event)
  }

  /** What a replay offers for a source is no more than what it offered before. */
  ghost predicate NoMoreThan(b: Input, a: Input) {
    && b.rows == []
    && OffersAll(a.evidence, b.evidence)
    && b.iocs == a.iocs && b.maxRisk == a.maxRisk && b.sessions == a.sessions && b.malware == a.malware
  }

  ghost predicate ClockOk(t: Tables, now: int) {
    forall j | 0 <= j < |t.incidents| :: t.incidents[j].lastSeen <= now
  }

  lemma EvidenceLinked(links: seq<EventLink>, i: nat, a: seq<Evidence>, b: seq<Evidence>)
    requires OffersAll(a, b)
    ensures forall k | 0 <= k < |b| :: EventLinked(links + NewEventLinks(links, i, a), i, b[k].event.id)
  {
    hide EventLinked, NewEventLinks;
    forall k | 0 <= k < |b|
      ensures EventLinked(links + NewEventLinks(links, i, a), i, b[k].event.id)
    {
      assert HasEvent(a, b[k].event);
      var j :| 0 <= j < |a| && a[j].event == b[k].event;
      LinksEvents(links, i, a, j);
    }
  }

  lemma UsersCovered(b: seq<Evidence>, a: seq<Evidence>)
    requires OffersAll(a, b)
    ensures UsersOf(b) <= UsersOf(a) && SensorsOf(b) <= SensorsOf(a)
  {
    forall u | u in UsersOf(b)
      ensures u in UsersOf(a)
    {
      var k :| 0 <= k < |b| && b[k].event.username != "" && b[k].event.username == u;
      assert HasEvent(a, b[k].event);
    }
    forall s | s in SensorsOf(b)
      ensures s in SensorsOf(a)
    {
      var k :| 0 <= k < |b| && b[k].event.sensor != "" && b[k].event.sensor == s;
      assert HasEvent(a, b[k].event);
    }
  }

  lemma CorrelateChosen(t: Tables, now: int, ip: string, a: Input)
    requires RowsExist(t, a) && !Skips(a) && ClockOk(t, now)
    ensures var t' := Correlate(t, now, ip, a);
      Chosen(t'.incidents, ip, now, Some(Target(t, now, ip))) && ClockOk(t', now)
  {
    hide IncidentSeverity, IncidentConfidence, IncidentRisk, MergeTechniques, TechniquesOf, UsersOf, SensorsOf, ReasonsOf;
    SelectChosen(t.incidents, ip, now);
  }

  /** The incident a source is correlated into is settled afterwards. */
  lemma CorrelateSettles(t: Tables, now: int, ip: string, a: Input, b: Input)
    requires RowsExist(t, a) && !Skips(a) && NoMoreThan(b, a) && ClockOk(t, now)
    ensures Settled(Correlate(t, now, ip, a), now, ip, b, Target(t, now, ip))
  {
    hide IncidentSeverity, IncidentConfidence, IncidentRisk, MergeTechniques, TechniquesOf, NewEventLinks, NewIocLinks,
      EventLinked, ValueLinked, UsersOf, SensorsOf, ReasonsOf, OffersAll;
    var i := Target(t, now, ip);
    var t' := Correlate(t, now, ip, a);
    SelectChosen(t.incidents, ip, now);
    assert t'.incidents[i].lastSeen == now;
    CorrelateChosen(t, now, ip, a);
    EvidenceLinked(t.eventLinks, i, a.evidence, b.evidence);
    forall k | 0 <= k < |b.iocs|
      ensures ValueLinked(t'.iocLinks, i, b.iocs[k].value)
    {
      LinksIocs(t.iocLinks, i, a.iocs, k);
    }
    UsersCovered(b.evidence, a.evidence);
  }
}
