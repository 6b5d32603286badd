/** What each edit of an analyst does, in terms of the request. */
module Edits {
  import opened Collections
  import opened Model
  import opened Iocs
  import opened Scoring
  import opened Correlation
  import opened Safety
  import opened Linking
  import opened Analyst

  /** The fields set are the ones asked for, on that row, and no others. */
  lemma FieldsSet(t: Tables, log: seq<Event>, now: int, i: nat, status: Status, severity: Severity, techniques: seq<string>)
    requires i < |t.incidents|
    ensures Apply(t, log, now, SetStatus(i, status)).incidents[i].status == status
    ensures Apply(t, log, now, SetSeverity(i, severity)).incidents[i].severity == severity
    ensures Apply(t, log, now, SetTechniques(i, techniques)).incidents[i].techniques == techniques
    ensures forall e | e in {SetStatus(i, status), SetSeverity(i, severity), SetTechniques(i, techniques)} ::
      var t' := Apply(t, log, now, e);
      && t' == t.(incidents := t'.incidents) && |t'.incidents| == |t.incidents|
      && (forall j | 0 <= j < |t.incidents| && j != i :: t'.incidents[j] == t.incidents[j])
      && t'.incidents[i] == t.incidents[i].(status := t'.incidents[i].status, severity := t'.incidents[i].severity,
                                            techniques := t'.incidents[i].techniques)
  {
  }

  /** A request for a row that does not exist changes nothing. */
  lemma MissingRow(t: Tables, log: seq<Event>, now: int, e: Edit)
    requires !e.Create? && e.incident >= |t.incidents|
    ensures Apply(t, log, now, e) == t
  {
  }

  // ── Linking events ───────────────────────────────────────────────────────

  lemma {:induction false} DistinctFilter(xs: seq<string>, p: string -> bool)
    requires Distinct(xs)
    ensures Distinct(Filter(xs, p))
  {
    if xs == [] {
    } else {
      DistinctFilter(xs[..|xs| - 1], p);
      FilterIn(xs[..|xs| - 1], p, xs[|xs| - 1]);
    }
  }

  /** The ids looked at: each once, none empty, all of those asked for unless 500
      are reached. */
  lemma AskedMeans(ids: seq<string>)
    ensures Distinct(AskedIds(ids)) && |AskedIds(ids)| <= 500
    ensures forall id | id in AskedIds(ids) :: id in ids && id != ""
    ensures forall id | id in ids && id != "" && id !in AskedIds(ids) :: |AskedIds(ids)| == 500
  {
    hide Filter;
    var all := Filter(Dedup(ids), NonEmptyId());
    DistinctFilter(Dedup(ids), NonEmptyId());
    forall id: string
      ensures id in all <==> id in ids && id != ""
    {
      FilterIn(Dedup(ids), NonEmptyId(), id);
    }
    if |all| > 500 {
      assert forall k | 0 <= k < 500 :: all[..500][k] == all[k];
    }
  }

  lemma {:induction false} LogEventMeans(log: seq<Event>, id: string)
    ensures match LogEvent(log, id)
      case Some(e) => e in log && e.id == id
      case None => forall e | e in log :: e.id != id
  {
    if log == [] {
    } else {
      LogEventMeans(log[..|log| - 1], id);
      assert log == log[..|log| - 1] + [log[|log| - 1]];
    }
  }

  /** The events newly linked: stored, asked for, not linked yet; and all such. */
  lemma {:induction false} NewlyMeans(log: seq<Event>, links: seq<EventLink>, i: nat, ids: seq<string>, es: seq<Event>)
    requires es == NewlyLinked(log, links, i, ids) && Distinct(ids)
    ensures forall k | 0 <= k < |es| :: es[k] in log && es[k].id in ids && !EventLinked(links, i, es[k].id)
    ensures forall j, k | 0 <= j < k < |es| :: es[j].id != es[k].id
    ensures forall id | id in ids && (exists e :: e in log && e.id == id) && !EventLinked(links, i, id) ::
      exists k :: 0 <= k < |es| && es[k].id == id
  {
    hide EventLinked, LogEvent;
    if ids == [] {
    } else {
      var rest, last := ids[..|ids| - 1], ids[|ids| - 1];
      var before := NewlyLinked(log, links, i, rest);
      assert ids == rest + [last] && last !in rest;
      NewlyMeans(log, links, i, rest, before);
      LogEventMeans(log, last);
      forall id | id in ids && (exists e :: e in log && e.id == id) && !EventLinked(links, i, id)
        ensures exists k :: 0 <= k < |es| && es[k].id == id
      {
        if id == last {
          assert es[|before|].id == id;
        } else {
          var k :| 0 <= k < |before| && before[k].id == id;
          assert es[k].id == id;
        }
      }
    }
  }

  /** The incident covers the event in time and lists its user and sensor. */
  ghost predicate TakesIn(inc: Incident, e: Event) {
    && inc.firstSeen <= e.timestamp <= inc.lastSeen
    && (e.username != "" ==> e.username in inc.users) && (e.sensor != "" ==> e.sensor in inc.sensors)
  }

  lemma {:induction false} WidenTakesIn(inc: Incident, es: seq<Event>)
    ensures forall k | 0 <= k < |es| :: TakesIn(WidenAll(inc, es), es[k])
  {
    if es == [] {
    } else {
      var rest := es[..|es| - 1];
      WidenTakesIn(inc, rest);
      assert forall k | 0 <= k < |rest| :: es[k] == rest[k];
    }
  }

  ghost predicate IsStored(log: seq<Event>, id: string) {
    exists e :: e in log && e.id == id
  }

  /** A link made by hand: of a stored event asked for, not there before, with the
      analyst's reason; the incident takes the event in. */
  ghost predicate HandLink(l: EventLink, before: seq<EventLink>, i: nat, text: string, asked: seq<string>, log: seq<Event>,
                           inc: Incident)
  {
    && l.incident == i && l.reason == Manual(text) && l.eventId in asked && !EventLinked(before, i, l.eventId)
    && exists e :: e in log && e.id == l.eventId && TakesIn(inc, e)
  }

  lemma HandLinks(before: seq<EventLink>, links: seq<EventLink>, i: nat, text: string, asked: seq<string>, log: seq<Event>,
                  inc: Incident, es: seq<Event>)
    requires links == before + LinksFor(i, es, text)
    requires forall k | 0 <= k < |es| :: es[k] in log && es[k].id in asked && !EventLinked(before, i, es[k].id)
    requires forall k | 0 <= k < |es| :: TakesIn(inc, es[k])
    ensures forall n | |before| <= n < |links| :: HandLink(links[n], before, i, text, asked, log, inc)
  {
    hide EventLinked, TakesIn;
    forall n | |before| <= n < |links|
      ensures HandLink(links[n], before, i, text, asked, log, inc)
    {
      var e := es[n - |before|];
      assert links[n] == EventLink(i, e.id, Manual(text));
    }
  }

  lemma AllHandLinked(before: seq<EventLink>, links: seq<EventLink>, i: nat, text: string, es: seq<Event>, id: string)
    requires links == before + LinksFor(i, es, text)
    requires EventLinked(before, i, id) || exists k :: 0 <= k < |es| && es[k].id == id
    ensures EventLinked(links, i, id)
  {
    if EventLinked(before, i, id) {
      LinkedStays(before, links, i, id);
    } else {
      var k :| 0 <= k < |es| && es[k].id == id;
      assert links[|before| + k].eventId == id;
    }
  }

  lemma LinkParts(t: Tables, log: seq<Event>, now: int, i: nat, ids: seq<string>, text: string, t': Tables, es: seq<Event>)
    requires i < |t.incidents| && t' == Apply(t, log, now, LinkByHand(i, ids, text))
    requires es == NewlyLinked(log, t.eventLinks, i, AskedIds(ids))
    ensures t'.eventLinks == t.eventLinks + LinksFor(i, es, text)
    ensures i < |t'.incidents| && t'.incidents[i] == WidenAll(t.incidents[i], es)
  {
    hide NewlyLinked, WidenAll, AskedIds, LinksFor;
  }

  /** Linking by hand: every stored event asked for is linked afterwards; each new
      link is of one of them, was not there before and carries the analyst's
      reason; and the incident's interval, users and sensors take them in. */
  lemma LinkMeans(t: Tables, log: seq<Event>, now: int, i: nat, ids: seq<string>, text: string, t': Tables)
    requires i < |t.incidents| && t' == Apply(t, log, now, LinkByHand(i, ids, text))
    ensures t.eventLinks <= t'.eventLinks && i < |t'.incidents|
    ensures forall id | id in AskedIds(ids) && IsStored(log, id) :: EventLinked(t'.eventLinks, i, id)
    ensures forall n | |t.eventLinks| <= n < |t'.eventLinks| ::
      HandLink(t'.eventLinks[n], t.eventLinks, i, text, AskedIds(ids), log, t'.incidents[i])
  {
    hide NewlyLinked, WidenAll, AskedIds, EventLinked, Apply, LinksFor, TakesIn, HandLink;
    var es := NewlyLinked(log, t.eventLinks, i, AskedIds(ids));
    AskedMeans(ids);
    NewlyMeans(log, t.eventLinks, i, AskedIds(ids), es);
    LinkParts(t, log, now, i, ids, text, t', es);
    WidenTakesIn(t.incidents[i], es);
    HandLinks(t.eventLinks, t'.eventLinks, i, text, AskedIds(ids), log, t'.incidents[i], es);
    forall id | id in AskedIds(ids) && IsStored(log, id)
      ensures EventLinked(t'.eventLinks, i, id)
    {
      AllHandLinked(t.eventLinks, t'.eventLinks, i, text, es, id);
    }
  }

  // ── Indicators ───────────────────────────────────────────────────────────

  /** The link `l` between `a` and `b` is the first of the value, and is gone. */
  ghost predicate GoneFrom(links: seq<IocLink>, left: seq<IocLink>, i: nat, value: string, a: seq<IocLink>, l: IocLink,
                           b: seq<IocLink>)
  {
    && links == a + [l] + b && left == a + b && l.incident == i && l.ioc.value == value
    && forall j | 0 <= j < |a| :: !(a[j].incident == i && a[j].ioc.value == value)
  }

  ghost predicate FirstGone(links: seq<IocLink>, left: seq<IocLink>, i: nat, value: string) {
    exists a, l, b :: GoneFrom(links, left, i, value, a, l, b)
  }

  lemma GoneCons(l: IocLink, rest: seq<IocLink>, left: seq<IocLink>, i: nat, value: string)
    requires FirstGone(rest, left, i, value) && !(l.incident == i && l.ioc.value == value)
    ensures FirstGone([l] + rest, [l] + left, i, value)
  {
    var a, x, b :| GoneFrom(rest, left, i, value, a, x, b);
    assert [l] + rest == ([l] + a) + [x] + b && [l] + left == ([l] + a) + b;
    assert GoneFrom([l] + rest, [l] + left, i, value, [l] + a, x, b);
  }

  lemma ValueCons(l: IocLink, rest: seq<IocLink>, i: nat, value: string)
    ensures ValueLinked([l] + rest, i, value) <==> (l.incident == i && l.ioc.value == value) || ValueLinked(rest, i, value)
  {
    var links := [l] + rest;
    if l.incident == i && l.ioc.value == value {
      assert links[0].ioc.value == value;
    }
    if ValueLinked(rest, i, value) {
      var k :| 0 <= k < |rest| && rest[k].incident == i && rest[k].ioc.value == value;
      assert links[k + 1].ioc.value == value;
    }
  }

  lemma GoneHead(links: seq<IocLink>, i: nat, value: string)
    requires links != [] && links[0].incident == i && links[0].ioc.value == value
    ensures FirstGone(links, links[1..], i, value)
  {
    assert GoneFrom(links, links[1..], i, value, [], links[0], links[1..]);
  }

  lemma {:induction false} RemovedFirst(links: seq<IocLink>, i: nat, value: string)
    ensures if ValueLinked(links, i, value) then FirstGone(links, WithoutFirst(links, i, value), i, value)
            else WithoutFirst(links, i, value) == links
  {
    hide FirstGone;
    if links == [] {
    } else {
      hide ValueLinked;
      assert links == [links[0]] + links[1..];
      ValueCons(links[0], links[1..], i, value);
      if links[0].incident == i && links[0].ioc.value == value {
        GoneHead(links, i, value);
      } else {
        RemovedFirst(links[1..], i, value);
        if ValueLinked(links[1..], i, value) {
          GoneCons(links[0], links[1..], WithoutFirst(links[1..], i, value), i, value);
        }
      }
    }
  }

  /** Adding an indicator: afterwards its value is linked, once more only if it
      was not. Removing one: exactly one link goes, the first of the value. */
  lemma IndicatorEdits(t: Tables, log: seq<Event>, now: int, i: nat, p: Ioc, value: string)
    requires i < |t.incidents|
    ensures var t' := Apply(t, log, now, AddIoc(i, p));
      && t' == t.(iocLinks := t'.iocLinks) && ValueLinked(t'.iocLinks, i, p.value)
      && t'.iocLinks == t.iocLinks + if ValueLinked(t.iocLinks, i, p.value) then [] else [IocLink(i, p)]
    ensures var t' := Apply(t, log, now, RemoveIoc(i, value));
      && t' == t.(iocLinks := t'.iocLinks)
      && if ValueLinked(t.iocLinks, i, value) then FirstGone(t.iocLinks, t'.iocLinks, i, value) else t'.iocLinks == t.iocLinks
  {
    RemovedFirst(t.iocLinks, i, value);
    hide WithoutFirst;
    if !ValueLinked(t.iocLinks, i, p.value) {
      assert (t.iocLinks + [IocLink(i, p)])[|t.iocLinks|].ioc.value == p.value;
    }
  }

  // ── Creating an incident ─────────────────────────────────────────────────

  /** A new row, open, of the source, severity and techniques given, begun and
      last seen now or as far as the events linked reach, with its indicators. */
  lemma CreateMeans(t: Tables, log: seq<Event>, now: int, source: string, severity: Severity, ids: seq<string>,
                    techniques: seq<string>, iocs: seq<Ioc>, text: string, t': Tables)
    requires t' == Apply(t, log, now, Create(source, severity, ids, techniques, iocs, text))
    ensures var n := |t.incidents|;
      && |t'.incidents| == n + 1 && t'.incidents[..n] == t.incidents
      && t'.incidents[n].source == source && t'.incidents[n].status == NEW && t'.incidents[n].severity == severity
      && t'.incidents[n].techniques == techniques && t'.incidents[n].reasons == {Manual(text)}
      && t'.incidents[n].confidence == 0.5 && t'.incidents[n].firstSeen <= now <= t'.incidents[n].lastSeen
      && |t'.iocLinks| == |t.iocLinks| + |iocs| && t'.iocLinks[..|t.iocLinks|] == t.iocLinks
      && (forall k | 0 <= k < |iocs| :: t'.iocLinks[|t.iocLinks| + k] == IocLink(n, iocs[k]))
      && (forall id | id in AskedIds(ids) && IsStored(log, id) :: EventLinked(t'.eventLinks, n, id))
  {
    hide NewlyLinked, WidenAll, AskedIds, EventLinked;
    var n := |t.incidents|;
    var inc := Incident(source, NEW, now, now, {}, {}, techniques, {Manual(text)}, severity, 0.5, 0.0);
    var u := t.(incidents := t.incidents + [inc]);
    var es := NewlyLinked(log, t.eventLinks, n, AskedIds(ids));
    WidenKeeps(inc, es);
    LinkMeans(u, log, now, n, ids, "added by analyst on creation",
              Apply(u, log, now, LinkByHand(n, ids, "added by analyst on creation")));
    assert t'.eventLinks == Apply(u, log, now, LinkByHand(n, ids, "added by analyst on creation")).eventLinks;
  }
}
