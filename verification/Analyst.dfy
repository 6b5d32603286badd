/** What analysts may do to incidents through the API, beside the engine. */
module Analyst {
  import opened Collections
  import opened Model
  import opened Iocs
  import opened Scoring
  import opened Correlation
  import opened Safety

  const MAX_LINK_EVENTS := 500

  datatype Edit =
    | SetStatus(incident: nat, status: Status)
    | SetSeverity(incident: nat, severity: Severity)
    | SetTechniques(incident: nat, techniques: seq<string>)
    | LinkByHand(incident: nat, eventIds: seq<string>, text: string)
    | AddIoc(incident: nat, ioc: Ioc)
    | RemoveIoc(incident: nat, value: string)
    | Create(source: string, severity: Severity, eventIds: seq<string>, techniques: seq<string>, iocs: seq<Ioc>,
             text: string)

  // ── Linking events by hand ───────────────────────────────────────────────

  function NonEmptyId(): string -> bool {
    (id: string) => id != ""
  }

  /** The ids asked for, each once, empty ones skipped, at most 500. */
  function AskedIds(ids: seq<string>): seq<string> {
    var asked := Filter(Dedup(ids), NonEmptyId());
    if |asked| <= MAX_LINK_EVENTS then asked else asked[..MAX_LINK_EVENTS]
  }

  function LogEvent(log: seq<Event>, id: string): Option<Event> {
    if log == [] then None
    else if log[|log| - 1].id == id then Some(log[|log| - 1])
    else LogEvent(log[..|log| - 1], id)
  }

  /** The events asked for that exist and are not linked to the incident yet. */
  function NewlyLinked(log: seq<Event>, links: seq<EventLink>, i: nat, ids: seq<string>): seq<Event> {
    if ids == [] then []
    else
      var id := ids[|ids| - 1];
      NewlyLinked(log, links, i, ids[..|ids| - 1])
      + match LogEvent(log, id)
        case None => []
        case Some(e) => if EventLinked(links, i, id) then [] else [e]
  }

  function Widen(inc: Incident, e: Event): Incident {
    inc.(firstSeen := if e.timestamp < inc.firstSeen then e.timestamp else inc.firstSeen,
         lastSeen := if e.timestamp > inc.lastSeen then e.timestamp else inc.lastSeen,
         users := if e.username != "" then inc.users + {e.username} else inc.users,
         sensors := if e.sensor != "" then inc.sensors + {e.sensor} else inc.sensors)
  }

  /** Linked events widen the interval and the lists of users and sensors. */
  function WidenAll(inc: Incident, es: seq<Event>): Incident {
    if es == [] then inc else Widen(WidenAll(inc, es[..|es| - 1]), es[|es| - 1])
  }

  function LinksFor(i: nat, es: seq<Event>, text: string): seq<EventLink> {
    seq(|es|, k requires 0 <= k < |es| => EventLink(i, es[k].id, Manual(text)))
  }

  function LinkTo(t: Tables, log: seq<Event>, i: nat, ids: seq<string>, text: string): Tables
    requires i < |t.incidents|
  {
    var es := NewlyLinked(log, t.eventLinks, i, AskedIds(ids));
    t.(incidents := t.incidents[i := WidenAll(t.incidents[i], es)],
       eventLinks := t.eventLinks + LinksFor(i, es, text))
  }

  // ── Edits ────────────────────────────────────────────────────────────────

  function IocLinksFor(i: nat, ps: seq<Ioc>): seq<IocLink> {
    seq(|ps|, k requires 0 <= k < |ps| => IocLink(i, ps[k]))
  }

  /** Without the first link of the incident to this value. */
  function WithoutFirst(links: seq<IocLink>, i: nat, value: string): seq<IocLink> {
    if links == [] then []
    else if links[0].incident == i && links[0].ioc.value == value then links[1..]
    else [links[0]] + WithoutFirst(links[1..], i, value)
  }

  /** An edit of a row that does not exist is rejected. */
  function Apply(t: Tables, log: seq<Event>, now: int, e: Edit): Tables {
    if !e.Create? && e.incident >= |t.incidents| then t
    else
      match e
      case SetStatus(i, status) => t.(incidents := t.incidents[i := t.incidents[i].(status := status)])
      case SetSeverity(i, severity) => t.(incidents := t.incidents[i := t.incidents[i].(severity := severity)])
      case SetTechniques(i, techniques) => t.(incidents := t.incidents[i := t.incidents[i].(techniques := techniques)])
      case LinkByHand(i, ids, text) => LinkTo(t, log, i, ids, text)
      case AddIoc(i, p) =>
        if ValueLinked(t.iocLinks, i, p.value) then t else t.(iocLinks := t.iocLinks + [IocLink(i, p)])
      case RemoveIoc(i, value) => t.(iocLinks := WithoutFirst(t.iocLinks, i, value))
      case Create(source, severity, ids, techniques, iocs, text) =>
        var inc := Incident(source, NEW, now, now, {}, {}, techniques, {Manual(text)}, severity, 0.5, 0.0);
        var n := |t.incidents|;
        var t' := LinkTo(t.(incidents := t.incidents + [inc]), log, n, ids, "added by analyst on creation");
        t'.(iocLinks := t'.iocLinks + IocLinksFor(n, iocs))
  }

  // ── What every edit keeps ────────────────────────────────────────────────

  lemma {:induction false} WidenKeeps(inc: Incident, es: seq<Event>)
    ensures var w := WidenAll(inc, es);
      && w.source == inc.source && w.status == inc.status && w.severity == inc.severity
      && w.risk == inc.risk && w.confidence == inc.confidence && w.techniques == inc.techniques && w.reasons == inc.reasons
      && w.firstSeen <= inc.firstSeen && inc.lastSeen <= w.lastSeen
  {
    if es == [] {
    } else {
      WidenKeeps(inc, es[..|es| - 1]);
    }
  }

  /** Whatever analysts do, the engine's other tables stay as they are, no
      incident is removed, and each keeps the source it is correlated by. */
  lemma EditKeeps(t: Tables, log: seq<Event>, now: int, e: Edit)
    ensures var t' := Apply(t, log, now, e);
      && t'.cursor == t.cursor && t'.iocs == t.iocs && t'.detections == t.detections
      && |t.incidents| <= |t'.incidents|
      && (forall i | 0 <= i < |t.incidents| :: t'.incidents[i].source == t.incidents[i].source)
      && t.eventLinks <= t'.eventLinks
  {
    hide NewlyLinked, WidenAll, LinksFor, Filter, ValueLinked, IocLinksFor;
    match e {
      case LinkByHand(i, ids, _) =>
        if i < |t.incidents| {
          WidenKeeps(t.incidents[i], NewlyLinked(log, t.eventLinks, i, AskedIds(ids)));
        }
      case Create(source, severity, ids, techniques, _, text) =>
        var inc := Incident(source, NEW, now, now, {}, {}, techniques, {Manual(text)}, severity, 0.5, 0.0);
        WidenKeeps(inc, NewlyLinked(log, t.eventLinks, |t.incidents|, AskedIds(ids)));
      case _ =>
    }
  }

  /** The row an edit is about. */
  function EditedAt(t: Tables, e: Edit): nat {
    if e.Create? then |t.incidents| else e.incident
  }

  /** At most that row changes or is added, and only in what analysts may edit. */
  lemma EditedRow(t: Tables, log: seq<Event>, now: int, e: Edit)
    ensures var t' := Apply(t, log, now, e); var i := EditedAt(t, e);
      && t'.detections == t.detections
      && (i >= |t'.incidents| ==> t' == t)
      && (i < |t'.incidents| ==>
            && i <= |t.incidents|
            && t'.incidents == (if i == |t.incidents| then t.incidents + [t'.incidents[i]] else t.incidents[i := t'.incidents[i]])
            && (i < |t.incidents| ==> EditedOnly(t.incidents[i], t'.incidents[i])))
  {
    hide NewlyLinked, WidenAll, LinksFor, Filter, ValueLinked, IocLinksFor, AskedIds;
    if e.LinkByHand? && e.incident < |t.incidents| {
      WidenKeeps(t.incidents[e.incident], NewlyLinked(log, t.eventLinks, e.incident, AskedIds(e.eventIds)));
    }
  }

  /** Edits change the incident table only in the ways named there. */
  lemma EditEvolves(t: Tables, log: seq<Event>, now: int, e: Edit)
    ensures IncidentsEvolve(t.incidents, Apply(t, log, now, e).incidents)
  {
    hide Apply, EditedAt, Superseded;
    EditedRow(t, log, now, e);
  }

  // ── Exactly which edits keep the order of incidents ──────────────────────

  /** The row fits between the other incidents of its source. */
  ghost predicate Fits(incs: seq<Incident>, now: int, i: nat, inc: Incident) {
    && Spans(inc, now)
    && (forall j | 0 <= j < |incs| && incs[j].source == inc.source ::
          (j < i ==> Follows(incs[j], inc)) && (i < j ==> Follows(inc, incs[j])))
  }

  /** No detection linked to the row is more severe. */
  ghost predicate Covers(ds: seq<Detection>, i: nat, severity: Severity) {
    forall k | 0 <= k < |ds| && ds[k].incident == Some(i) :: Rank(ds[k].severity) <= Rank(severity)
  }

  /** The edited row still fits, and still covers its detections. */
  ghost predicate Benign(t: Tables, log: seq<Event>, now: int, e: Edit) {
    var incs, i := Apply(t, log, now, e).incidents, EditedAt(t, e);
    i < |incs| ==> Fits(t.incidents, now, i, incs[i]) && Covers(t.detections, i, incs[i].severity)
  }

  lemma FitsIff(incs: seq<Incident>, now: int, i: nat, inc: Incident, incs': seq<Incident>)
    requires IncidentsOrdered(incs, now) && i <= |incs|
    requires incs' == if i == |incs| then incs + [inc] else incs[i := inc]
    requires i < |incs| ==> inc.source == incs[i].source
    ensures IncidentsOrdered(incs', now) <==> Fits(incs, now, i, inc)
  {
    hide Spans, Follows;
    assert incs'[i] == inc;
    if IncidentsOrdered(incs', now) {
      forall j | 0 <= j < |incs| && incs[j].source == inc.source
        ensures (j < i ==> Follows(incs[j], inc)) && (i < j ==> Follows(inc, incs[j]))
      {
        assert j != i ==> incs'[j] == incs[j];
      }
    }
  }

  lemma CoversIff(t: Tables, i: nat, inc: Incident, t': Tables)
    requires LinksOwned(t) && LinksCovered(t) && i <= |t.incidents| && t'.detections == t.detections
    requires t'.incidents == if i == |t.incidents| then t.incidents + [inc] else t.incidents[i := inc]
    requires i < |t.incidents| ==> inc.source == t.incidents[i].source
    ensures LinksOwned(t')
    ensures LinksCovered(t') <==> Covers(t.detections, i, inc.severity)
  {
  }

  /** An edit keeps the incidents of each source in order and their severities
      covering if and only if the row it leaves fits between the others of its
      source and none of its detections is more severe. */
  lemma BenignIff(t: Tables, log: seq<Event>, now: int, e: Edit)
    requires LinksOwned(t) && LinksCovered(t) && IncidentsOrdered(t.incidents, now)
    ensures var t' := Apply(t, log, now, e);
      LinksOwned(t') && (IncidentsOrdered(t'.incidents, now) && LinksCovered(t') <==> Benign(t, log, now, e))
  {
    hide Apply, EditedAt, LinksOwned, LinksCovered, IncidentsOrdered, Fits, Covers;
    var t', i := Apply(t, log, now, e), EditedAt(t, e);
    EditedRow(t, log, now, e);
    if i < |t'.incidents| {
      FitsIff(t.incidents, now, i, t'.incidents[i], t'.incidents);
      CoversIff(t, i, t'.incidents[i], t');
    }
  }

  // ── In terms of the request ──────────────────────────────────────────────

  /** A status change is benign unless it opens an incident that another of its
      source followed within six hours; a change of severity, unless a linked
      detection is more severe. */
  lemma StatusIff(t: Tables, log: seq<Event>, now: int, i: nat, status: Status, severity: Severity)
    requires LinksOwned(t) && LinksCovered(t) && IncidentsOrdered(t.incidents, now) && i < |t.incidents|
    ensures Benign(t, log, now, SetStatus(i, status)) <==>
      (IsOpen(status) ==> forall j | i < j < |t.incidents| && t.incidents[j].source == t.incidents[i].source ::
        t.incidents[i].lastSeen < t.incidents[j].firstSeen - INCIDENT_WINDOW)
    ensures Benign(t, log, now, SetSeverity(i, severity)) <==> Covers(t.detections, i, severity)
  {
  }

  /** Creating an incident without events is benign exactly when every earlier
      one of its source is closed or has been quiet for more than six hours. */
  lemma CreateIff(t: Tables, log: seq<Event>, now: int, source: string, severity: Severity, techniques: seq<string>,
                  iocs: seq<Ioc>, text: string)
    requires LinksOwned(t) && IncidentsOrdered(t.incidents, now)
    ensures Benign(t, log, now, Create(source, severity, [], techniques, iocs, text)) <==>
      forall j | 0 <= j < |t.incidents| && t.incidents[j].source == source && IsOpen(t.incidents[j].status) ::
        t.incidents[j].lastSeen < now - INCIDENT_WINDOW
  {
  }

  /** The widened interval reaches exactly as far as the events. */
  lemma {:induction false} WidenReaches(inc: Incident, es: seq<Event>)
    ensures var w := WidenAll(inc, es);
      && (forall e | e in es :: w.firstSeen <= e.timestamp <= w.lastSeen)
      && (w.firstSeen == inc.firstSeen || exists e :: e in es && e.timestamp == w.firstSeen)
      && (w.lastSeen == inc.lastSeen || exists e :: e in es && e.timestamp == w.lastSeen)
  {
    if es == [] {
    } else {
      var rest, last := es[..|es| - 1], es[|es| - 1];
      assert es == rest + [last] && last in es;
      WidenReaches(inc, rest);
    }
  }

  lemma {:induction false} NewlyLinkedFrom(log: seq<Event>, links: seq<EventLink>, i: nat, ids: seq<string>)
    ensures forall e | e in NewlyLinked(log, links, i, ids) :: exists id :: id in ids && LogEvent(log, id) == Some(e)
  {
    hide LogEvent, EventLinked;
    if ids == [] {
    } else {
      assert ids == ids[..|ids| - 1] + [ids[|ids| - 1]];
      var rest, last := ids[..|ids| - 1], ids[|ids| - 1];
      NewlyLinkedFrom(log, links, i, rest);
      forall e | e in NewlyLinked(log, links, i, ids)
        ensures exists id :: id in ids && LogEvent(log, id) == Some(e)
      {
        if e in NewlyLinked(log, links, i, rest) {
          var id :| id in rest && LogEvent(log, id) == Some(e);
          assert id in ids;
        } else {
          assert last in ids && LogEvent(log, last) == Some(e);
        }
      }
    }
  }

  lemma AskedFrom(ids: seq<string>)
    ensures forall id | id in AskedIds(ids) :: id in ids
  {
    forall id {
      FilterIn(Dedup(ids), NonEmptyId(), id);
    }
  }

  /** An instant after every earlier incident of the source and before every
      later one, with the six hours between where the earlier of the two is open. */
  ghost predicate Clear(incs: seq<Incident>, now: int, i: nat, at: int)
    requires i < |incs|
  {
    && at <= now
    && (forall j | 0 <= j < i && incs[j].source == incs[i].source ::
          incs[j].lastSeen <= at && (IsOpen(incs[j].status) ==> incs[j].lastSeen < at - INCIDENT_WINDOW))
    && (forall j | i < j < |incs| && incs[j].source == incs[i].source ::
          at <= incs[j].firstSeen && (IsOpen(incs[i].status) ==> at < incs[j].firstSeen - INCIDENT_WINDOW))
  }

  lemma InsideIsClear(incs: seq<Incident>, now: int, i: nat, at: int)
    requires IncidentsOrdered(incs, now) && i < |incs| && incs[i].firstSeen <= at <= incs[i].lastSeen
    ensures Clear(incs, now, i, at)
  {
    assert Spans(incs[i], now);
    forall j | 0 <= j < i && incs[j].source == incs[i].source
      ensures Follows(incs[j], incs[i])
    {
    }
    forall j | i < j < |incs| && incs[j].source == incs[i].source
      ensures Follows(incs[i], incs[j])
    {
    }
  }

  /** A widened row fits exactly when both its ends are clear. */
  lemma WidenedFitsIff(incs: seq<Incident>, now: int, i: nat, inc: Incident)
    requires IncidentsOrdered(incs, now) && i < |incs|
    requires inc.source == incs[i].source && inc.status == incs[i].status && inc.risk == incs[i].risk
    requires inc.firstSeen <= incs[i].firstSeen && incs[i].lastSeen <= inc.lastSeen
    ensures Fits(incs, now, i, inc) <==> Clear(incs, now, i, inc.firstSeen) && Clear(incs, now, i, inc.lastSeen)
  {
    assert Spans(incs[i], now);
    if Fits(incs, now, i, inc) {
      forall j | 0 <= j < |incs| && incs[j].source == inc.source
        ensures j < i ==> Follows(incs[j], inc)
        ensures i < j ==> Follows(inc, incs[j])
      {
      }
    }
  }

  lemma WidenedCovers(t: Tables, i: nat, inc: Incident)
    requires LinksOwned(t) && LinksCovered(t) && i < |t.incidents| && inc.severity == t.incidents[i].severity
    ensures Covers(t.detections, i, inc.severity)
  {
    hide OwnerOf;
  }

  lemma EndsInOrder(incs: seq<Incident>, now: int, i: nat)
    requires IncidentsOrdered(incs, now) && i < |incs|
    ensures incs[i].firstSeen <= incs[i].lastSeen
  {
    assert Spans(incs[i], now);
  }

  lemma ClearIsConvex(incs: seq<Incident>, now: int, i: nat, a: int, b: int, c: int)
    requires i < |incs| && a <= b <= c && Clear(incs, now, i, a) && Clear(incs, now, i, c)
    ensures Clear(incs, now, i, b)
  {
  }

  lemma ClearBetween(incs: seq<Incident>, now: int, i: nat, inc: Incident, es: seq<Event>, w: Incident)
    requires IncidentsOrdered(incs, now) && i < |incs| && inc == incs[i] && w == WidenAll(inc, es)
    ensures Clear(incs, now, i, w.firstSeen) && Clear(incs, now, i, w.lastSeen) <==>
      forall e | e in es :: Clear(incs, now, i, e.timestamp)
  {
    hide WidenAll, IncidentsOrdered, Clear;
    WidenReaches(inc, es);
    assert inc.firstSeen <= inc.lastSeen by {
      EndsInOrder(incs, now, i);
    }
    InsideIsClear(incs, now, i, inc.firstSeen);
    InsideIsClear(incs, now, i, inc.lastSeen);
    if Clear(incs, now, i, w.firstSeen) && Clear(incs, now, i, w.lastSeen) {
      forall e | e in es
        ensures Clear(incs, now, i, e.timestamp)
      {
        ClearIsConvex(incs, now, i, w.firstSeen, e.timestamp, w.lastSeen);
      }
    }
  }

  /** Linking events by hand keeps order exactly when each event newly linked
      falls clear of the other incidents of the source. */
  lemma LinkIff(t: Tables, log: seq<Event>, now: int, i: nat, ids: seq<string>, text: string)
    requires LinksOwned(t) && LinksCovered(t) && IncidentsOrdered(t.incidents, now) && i < |t.incidents|
    ensures Benign(t, log, now, LinkByHand(i, ids, text)) <==>
      forall e | e in NewlyLinked(log, t.eventLinks, i, AskedIds(ids)) :: Clear(t.incidents, now, i, e.timestamp)
  {
    hide LinksOwned, LinksCovered, NewlyLinked, WidenAll, AskedIds, IncidentsOrdered, Fits, Clear, Covers, LinksFor;
    var inc, es := t.incidents[i], NewlyLinked(log, t.eventLinks, i, AskedIds(ids));
    WidenKeeps(inc, es);
    var w := WidenAll(inc, es);
    WidenedCovers(t, i, w);
    WidenedFitsIff(t.incidents, now, i, w);
    ClearBetween(t.incidents, now, i, inc, es, w);
  }

  /** In particular linking events from inside the incident's interval. */
  lemma InsideIsBenign(t: Tables, log: seq<Event>, now: int, i: nat, ids: seq<string>, text: string)
    requires LinksOwned(t) && LinksCovered(t) && IncidentsOrdered(t.incidents, now) && i < |t.incidents|
    requires forall id | id in ids && LogEvent(log, id).Some? ::
      t.incidents[i].firstSeen <= LogEvent(log, id).value.timestamp <= t.incidents[i].lastSeen
    ensures Benign(t, log, now, LinkByHand(i, ids, text))
  {
    hide NewlyLinked, AskedIds, LinksOwned, LinksCovered, IncidentsOrdered, Clear, Benign;
    var es := NewlyLinked(log, t.eventLinks, i, AskedIds(ids));
    NewlyLinkedFrom(log, t.eventLinks, i, AskedIds(ids));
    AskedFrom(ids);
    LinkIff(t, log, now, i, ids, text);
    forall e | e in es
      ensures Clear(t.incidents, now, i, e.timestamp)
    {
      InsideIsClear(t.incidents, now, i, e.timestamp);
    }
  }
}
