/** The chronological timeline of one incident: its linked events, the same
    sources' events around it, its detections. */
module Timeline {
  import opened Collections
  import opened Timestamps
  import Text

  datatype EventRow = EventRow(id: string, time: Option<Stamp>, ip: Option<string>)
  datatype LinkRow = LinkRow(eventId: string, reason: string)
  datatype DetectionRow = DetectionRow(id: nat, ruleId: string, lastEvent: Option<Stamp>, created: Option<Stamp>, reason: string)
  datatype IncidentRow = IncidentRow(ips: seq<string>, key: string, first: Option<Stamp>, last: Option<Stamp>)

  datatype Ref = EventRef(eventId: string) | DetectionRef(detectionId: nat) | OtherRef(text: string)

  /** A timestamp from the database, or text another system wrote. */
  datatype When = Missing | At(stamp: Stamp) | Written(text: string)

  /** The fields of an entry the properties speak of. */
  datatype Entry = Entry(time: When, ref: Ref, reason: string)

  /** The rows of the incident, in whatever order the database returns them. */
  datatype Input = Input(incident: IncidentRow, links: seq<LinkRow>, events: seq<EventRow>, detections: seq<DetectionRow>)

  /** Primary keys are unique and stored times are times. */
  ghost predicate WellStored(d: Input) {
    && (forall i, j | 0 <= i < j < |d.events| :: d.events[i].id != d.events[j].id)
    && (forall i, j | 0 <= i < j < |d.detections| :: d.detections[i].id != d.detections[j].id)
    && (forall e | e in d.events && e.time.Some? :: Valid(e.time.value))
    && (forall e | e in d.detections && e.lastEvent.Some? :: Valid(e.lastEvent.value))
    && (forall e | e in d.detections && e.created.Some? :: Valid(e.created.value))
  }

  const MARGIN := 5 * 60 * 1_000_000
  const WINDOW_LIMIT := 400

  /** `reason_by_id`: the last link of an event gives its reason. */
  function LinkReason(links: seq<LinkRow>, id: string): string {
    if links == [] then ""
    else if links[|links| - 1].eventId == id then links[|links| - 1].reason
    else LinkReason(links[..|links| - 1], id)
  }

  predicate Linked(links: seq<LinkRow>, id: string) {
    exists i :: 0 <= i < |links| && links[i].eventId == id
  }

  function Sources(i: IncidentRow): seq<string> {
    if i.ips != [] then i.ips else if i.key != "" then [i.key] else []
  }

  /** Within five minutes of the incident and from one of its sources. */
  predicate Around(i: IncidentRow, e: EventRow) {
    && i.first.Some? && i.last.Some? && e.time.Some? && e.ip.Some? && e.ip.value in Sources(i)
    && Instant(i.first.value) - MARGIN <= Instant(e.time.value) <= Instant(i.last.value) + MARGIN
  }

  function IsAround(d: Input): EventRow -> bool { (e: EventRow) => Around(d.incident, e) }
  function IsLinked(d: Input): EventRow -> bool { (e: EventRow) => Linked(d.links, e.id) }
  function IsOther(d: Input): EventRow -> bool { (e: EventRow) => !Linked(d.links, e.id) }

  /** A missing time sorts before all others. */
  function InstantOf(t: Option<Stamp>): int {
    if t == None then -1 else Instant(t.value)
  }

  function EarlierRow(a: EventRow, b: EventRow): bool {
    InstantOf(a.time) <= InstantOf(b.time)
  }

  function Window(d: Input): seq<EventRow> {
    var rows := Sort(Filter(d.events, IsAround(d)), EarlierRow);
    if |rows| <= WINDOW_LIMIT then rows else rows[..WINDOW_LIMIT]
  }

  function LinkedRows(d: Input): seq<EventRow> {
    Filter(d.events, IsLinked(d))
  }

  function OtherRows(d: Input): seq<EventRow> {
    Filter(Window(d), IsOther(d))
  }

  function Stored(t: Option<Stamp>): When {
    match t
    case None => Missing
    case Some(stamp) => At(stamp)
  }

  function LinkedEntry(d: Input, e: EventRow): Entry {
    var reason := LinkReason(d.links, e.id);
    Entry(Stored(e.time), EventRef(e.id), if reason == "" then "linked to incident" else reason)
  }

  function OtherEntry(e: EventRow): Entry {
    Entry(Stored(e.time), EventRef(e.id),
          "same source IP " + (if e.ip == None then "None" else e.ip.value) + " within the incident window")
  }

  function DetectionEntry(r: DetectionRow): Entry {
    Entry(Stored(if r.lastEvent.Some? then r.lastEvent else r.created), DetectionRef(r.id),
          if r.reason == "" then "rule " + r.ruleId + " fired" else r.reason)
  }

  function LinkedEntries(d: Input, rows: seq<EventRow>): seq<Entry> {
    seq(|rows|, i requires 0 <= i < |rows| => LinkedEntry(d, rows[i]))
  }

  function OtherEntries(rows: seq<EventRow>): seq<Entry> {
    seq(|rows|, i requires 0 <= i < |rows| => OtherEntry(rows[i]))
  }

  function DetectionEntries(rows: seq<DetectionRow>): seq<Entry> {
    seq(|rows|, i requires 0 <= i < |rows| => DetectionEntry(rows[i]))
  }

  function Gathered(d: Input): seq<Entry> {
    LinkedEntries(d, LinkedRows(d)) + OtherEntries(OtherRows(d)) + DetectionEntries(d.detections)
  }

  function Printed(t: When): string {
    match t
    case Missing => ""
    case At(stamp) => Iso(stamp)
    case Written(text) => text
  }

  /** The sort key is the printed timestamp. */
  function NotAfter(a: Entry, b: Entry): bool {
    !Text.Before(Printed(b.time), Printed(a.time))
  }

  function Built(d: Input): seq<Entry> {
    Sort(Gathered(d), NotAfter)
  }

  /** The malware reports and searches that add entries of their own: their
      timestamps are whatever text they carry. */
  ghost predicate FromElsewhere(others: seq<Entry>) {
    forall e | e in others :: e.ref.OtherRef? && !e.time.At?
  }

  function BuiltWith(d: Input, others: seq<Entry>): seq<Entry> {
    Sort(Gathered(d) + others, NotAfter)
  }

  function IsOwn(): Entry -> bool { (e: Entry) => !e.ref.OtherRef? }
  function IsForeign(): Entry -> bool { (e: Entry) => e.ref.OtherRef? }

  // ── Order ────────────────────────────────────────────────────────────────

  lemma NotAfterTotal()
    ensures TotalPreorder(NotAfter)
  {
    forall a: Entry, b: Entry
      ensures NotAfter(a, b) || NotAfter(b, a)
    {
      Text.BeforeTotal(Printed(a.time), Printed(b.time));
    }
    forall a: Entry, b: Entry, c: Entry | NotAfter(a, b) && NotAfter(b, c)
      ensures NotAfter(a, c)
    {
      Text.NotBeforeTransitive(Printed(a.time), Printed(b.time), Printed(c.time));
    }
  }

  /** The instant of an entry; a missing time comes before all others. */
  function Moment(e: Entry): int {
    if e.time.At? then Instant(e.time.stamp) else -1
  }

  /** Comparing printed timestamps compares the instants. */
  lemma NotAfterIsChronological(a: Entry, b: Entry)
    requires !a.time.Written? && (a.time.At? ==> Valid(a.time.stamp))
    requires !b.time.Written? && (b.time.At? ==> Valid(b.time.stamp))
    ensures NotAfter(a, b) <==> Moment(a) <= Moment(b)
  {
    hide Instant, Valid;
    if a.time.At? && b.time.At? {
      hide Iso;
      IsoOrder(b.time.stamp, a.time.stamp);
    } else if a.time.At? {
      assert Iso(a.time.stamp) != "";
    }
  }

  ghost predicate Stamped(es: seq<Entry>) {
    forall e | e in es :: !e.time.Written? && (e.time.At? ==> Valid(e.time.stamp))
  }

  lemma RowsOf(d: Input)
    ensures forall e | e in LinkedRows(d) :: e in d.events && Linked(d.links, e.id)
    ensures forall e | e in OtherRows(d) :: e in d.events && e in Window(d) && Around(d.incident, e) && !Linked(d.links, e.id)
    ensures forall e | e in d.events && Linked(d.links, e.id) :: e in LinkedRows(d)
    ensures forall e | e in Window(d) :: e in d.events && (!Linked(d.links, e.id) ==> e in OtherRows(d))
  {
    hide Around, Linked, Instant, Filter;
    forall e: EventRow
      ensures e in LinkedRows(d) <==> e in d.events && Linked(d.links, e.id)
    {
      FilterIn(d.events, IsLinked(d), e);
    }
    forall e: EventRow
      ensures e in Window(d) ==> e in d.events && Around(d.incident, e)
      ensures e in OtherRows(d) <==> e in Window(d) && !Linked(d.links, e.id)
    {
      FilterIn(d.events, IsAround(d), e);
      FilterIn(Window(d), IsOther(d), e);
      assert TotalPreorder(EarlierRow);
      SortIn(Filter(d.events, IsAround(d)), EarlierRow, e);
    }
  }

  lemma GatheredStamped(d: Input)
    requires WellStored(d)
    ensures Stamped(Gathered(d))
  {
    hide Valid, Window, LinkReason, Linked, Around, LinkedRows, OtherRows;
    RowsOf(d);
  }

  /** The timeline is in time order: entries without a time first, then by
      instant, although the sort only ever compares strings. */
  lemma TimelineChronological(d: Input)
    requires WellStored(d)
    ensures forall i, j | 0 <= i < j < |Built(d)| :: Moment(Built(d)[i]) <= Moment(Built(d)[j])
  {
    hide Gathered, Valid, Instant, NotAfter, WellStored;
    NotAfterTotal();
    SortCorrect(Gathered(d), NotAfter);
    GatheredStamped(d);
    forall i, j | 0 <= i < j < |Built(d)|
      ensures Moment(Built(d)[i]) <= Moment(Built(d)[j])
    {
      var a, b := Built(d)[i], Built(d)[j];
      assert a in multiset(Built(d)) && b in multiset(Built(d));
      assert a in multiset(Gathered(d)) && b in multiset(Gathered(d));
      NotAfterIsChronological(a, b);
    }
  }

  lemma OwnRefs(d: Input, e: Entry)
    requires e in Gathered(d)
    ensures !e.ref.OtherRef?
  {
    hide LinkedRows, OtherRows;
  }

  /** Entries from elsewhere, whatever their timestamps say, do not disturb the
      order or the contents of the others, and none of them is lost. */
  lemma OthersDoNotDisturb(d: Input, others: seq<Entry>)
    requires FromElsewhere(others)
    ensures Filter(BuiltWith(d, others), IsOwn()) == Built(d)
    ensures Filter(BuiltWith(d, others), IsForeign()) == Sort(others, NotAfter)
  {
    hide Filter, Sort, NotAfter, LinkedEntry, OtherEntry, DetectionEntry, LinkedRows, OtherRows;
    NotAfterTotal();
    var own := Gathered(d);
    forall i | 0 <= i < |own|
      ensures IsOwn()(own[i])
    {
      OwnRefs(d, own[i]);
    }
    assert forall i | 0 <= i < |others| :: others[i] in others;
    SortFilter(own + others, NotAfter, IsOwn());
    SortFilter(own + others, NotAfter, IsForeign());
    FilterConcat(own, others, IsOwn());
    FilterConcat(own, others, IsForeign());
    FilterAll(own, IsOwn());
    FilterNone(others, IsOwn());
    FilterNone(own, IsForeign());
    FilterAll(others, IsForeign());
    assert own + [] == own && [] + others == others;
  }

  // ── Contents ─────────────────────────────────────────────────────────────

  function RefOf(t: Entry): Ref { t.ref }
  function IdOf(e: EventRow): string { e.id }

  lemma WindowUnique(d: Input)
    requires DistinctBy(d.events, IdOf)
    ensures DistinctBy(LinkedRows(d), IdOf) && DistinctBy(OtherRows(d), IdOf)
    ensures DistinctBy(Window(d), IdOf)
  {
    hide Around, Linked, Instant, Filter;
    FilterDistinct(d.events, IsLinked(d), IdOf);
    var rows := Filter(d.events, IsAround(d));
    FilterDistinct(d.events, IsAround(d), IdOf);
    assert TotalPreorder(EarlierRow);
    SortCorrect(rows, EarlierRow);
    PermutedDistinct(rows, Sort(rows, EarlierRow), IdOf);
    assert DistinctBy(Window(d), IdOf);
    FilterDistinct(Window(d), IsOther(d), IdOf);
  }

  lemma GatheredNoRepeat(d: Input)
    requires WellStored(d)
    ensures DistinctBy(Gathered(d), RefOf)
  {
    hide Valid, Window, LinkReason, Linked, Around, LinkedRows, OtherRows;
    RowsOf(d);
    WindowUnique(d);
  }

  lemma GatheredContents(d: Input)
    ensures forall e | e in d.events && Linked(d.links, e.id) :: LinkedEntry(d, e) in Gathered(d)
    ensures forall e | e in Window(d) && !Linked(d.links, e.id) :: OtherEntry(e) in Gathered(d)
    ensures forall r | r in d.detections :: DetectionEntry(r) in Gathered(d)
    ensures forall t | t in Gathered(d) ::
      || (exists e :: e in d.events && Linked(d.links, e.id) && t == LinkedEntry(d, e))
      || (exists e :: e in Window(d) && Around(d.incident, e) && !Linked(d.links, e.id) && t == OtherEntry(e))
      || (exists r :: r in d.detections && t == DetectionEntry(r))
  {
    hide Linked, Around, LinkedEntry, OtherEntry, DetectionEntry, Window, LinkedRows, OtherRows;
    RowsOf(d);
    var linked, other := LinkedRows(d), OtherRows(d);
    var a, b, c := LinkedEntries(d, linked), OtherEntries(other), DetectionEntries(d.detections);
    assert Gathered(d) == a + b + c;
    forall i | 0 <= i < |linked|
      ensures LinkedEntry(d, linked[i]) in a + b + c
    {
      assert a[i] == (a + b + c)[i];
    }
    forall i | 0 <= i < |other|
      ensures OtherEntry(other[i]) in a + b + c
    {
      assert b[i] == (a + b + c)[|a| + i];
    }
    forall i | 0 <= i < |d.detections|
      ensures DetectionEntry(d.detections[i]) in a + b + c
    {
      assert c[i] == (a + b + c)[|a| + |b| + i];
    }
  }

  /** What the timeline holds: no reference twice; every existing linked event,
      with its link's reason; an unlinked event only if it is from a source of
      the incident and inside the window; every detection. */
  lemma TimelineContents(d: Input)
    requires WellStored(d)
    ensures DistinctBy(Built(d), RefOf)
    ensures forall e | e in d.events && Linked(d.links, e.id) :: LinkedEntry(d, e) in Built(d)
    ensures forall e | e in Window(d) && !Linked(d.links, e.id) :: OtherEntry(e) in Built(d)
    ensures forall r | r in d.detections :: DetectionEntry(r) in Built(d)
    ensures forall t | t in Built(d) ::
      || (exists e :: e in d.events && Linked(d.links, e.id) && t == LinkedEntry(d, e))
      || (exists e :: e in Window(d) && Around(d.incident, e) && !Linked(d.links, e.id) && t == OtherEntry(e))
      || (exists r :: r in d.detections && t == DetectionEntry(r))
  {
    hide Valid, Instant, NotAfter, WellStored, Linked, Around, LinkedEntry, OtherEntry, DetectionEntry, Window,
         LinkedRows, OtherRows;
    NotAfterTotal();
    SortCorrect(Gathered(d), NotAfter);
    GatheredNoRepeat(d);
    PermutedDistinct(Gathered(d), Built(d), RefOf);
    GatheredContents(d);
    forall t: Entry {
      SortIn(Gathered(d), NotAfter, t);
    }
  }

  // ── Entry by entry, in terms of the rows alone ───────────────────────────

  /** `t` is in the timeline, and nothing else there has its reference. */
  ghost predicate OnlyEntry(entries: seq<Entry>, t: Entry) {
    exists i :: 0 <= i < |entries| && entries[i] == t
      && forall j | 0 <= j < |entries| && j != i :: entries[j].ref != t.ref
  }

  /** The entry of an event or detection: its reference, a database time or none. */
  ghost predicate TimedBy(t: Entry, time: Option<Stamp>) {
    match time
    case None => t.time == Missing
    case Some(stamp) => t.time == At(stamp)
  }

  ghost predicate HasEntry(d: Input, ref: Ref, time: Option<Stamp>, reason: string) {
    exists t :: OnlyEntry(Built(d), t) && t.ref == ref && TimedBy(t, time) && t.reason == reason
  }

  /** Link `k` is the last one of the event. */
  ghost predicate LastLink(links: seq<LinkRow>, id: string, k: nat) {
    k < |links| && links[k].eventId == id && forall j | k < j < |links| :: links[j].eventId != id
  }

  lemma {:induction false} LinkReasonIs(links: seq<LinkRow>, id: string, k: nat)
    requires LastLink(links, id, k)
    ensures LinkReason(links, id) == links[k].reason
  {
    if k == |links| - 1 {
    } else {
      LinkReasonIs(links[..|links| - 1], id, k);
    }
  }

  lemma InBuiltOnce(entries: seq<Entry>, t: Entry)
    requires DistinctBy(entries, RefOf) && t in entries
    ensures OnlyEntry(entries, t)
  {
    var i :| 0 <= i < |entries| && entries[i] == t;
    forall j | 0 <= j < |entries| && j != i
      ensures entries[j].ref != t.ref
    {
      assert RefOf(entries[if i < j then i else j]) != RefOf(entries[if i < j then j else i]);
    }
  }

  /** A stored event with a link has exactly one entry; its reason is that of its
      last link, or a standing phrase when that is empty. */
  lemma LinkedEventEntry(d: Input, e: EventRow, k: nat)
    requires WellStored(d) && e in d.events && LastLink(d.links, e.id, k)
    ensures HasEntry(d, EventRef(e.id), e.time, if d.links[k].reason != "" then d.links[k].reason else "linked to incident")
  {
    hide Built, WellStored, LinkReason;
    TimelineContents(d);
    LinkReasonIs(d.links, e.id, k);
    assert Linked(d.links, e.id);
    InBuiltOnce(Built(d), LinkedEntry(d, e));
  }

  /** A detection has exactly one entry, timed by its last event when it has one
      and else by its creation, with its own reason when it has one. */
  lemma DetectionHasEntry(d: Input, r: DetectionRow)
    requires WellStored(d) && r in d.detections
    ensures HasEntry(d, DetectionRef(r.id), match r.lastEvent case Some(_) => r.lastEvent case None => r.created,
                     if r.reason != "" then r.reason else "rule " + r.ruleId + " fired")
  {
    hide Built, WellStored;
    TimelineContents(d);
    InBuiltOnce(Built(d), DetectionEntry(r));
  }

  /** From a source of the incident, from five minutes before it to five after. */
  ghost predicate Nearby(d: Input, e: EventRow) {
    var i := d.incident;
    && e.ip.Some? && (e.ip.value in i.ips || (i.ips == [] && i.key != "" && e.ip.value == i.key))
    && i.first.Some? && i.last.Some? && e.time.Some?
    && Instant(i.first.value) - 300_000_000 <= Instant(e.time.value) <= Instant(i.last.value) + 300_000_000
  }

  lemma NearbyIff(d: Input, e: EventRow)
    ensures Around(d.incident, e) <==> Nearby(d, e)
  {
    hide Instant;
  }

  ghost predicate NoLater(w: EventRow, e: EventRow) {
    w.time.Some? && e.time.Some? && Instant(w.time.value) <= Instant(e.time.value)
  }

  lemma NearbyTimed(d: Input)
    ensures forall e: EventRow | Nearby(d, e) :: e.time.Some?
  {
    hide Instant;
  }

  /** What is left out of the first 400 rows is no earlier than any of them. */
  lemma FirstRows(rows: seq<EventRow>, e: EventRow)
    requires Sorted(rows, EarlierRow) && e in rows && forall r | r in rows :: r.time.Some?
    requires |rows| > 400 ==> e !in rows[..400]
    ensures |rows| > 400 ==> forall w | w in rows[..400] :: NoLater(w, e)
  {
    hide Instant;
    if |rows| > 400 {
      var k :| 0 <= k < |rows| && rows[k] == e;
      assert forall j | 0 <= j < 400 :: rows[..400][j] == rows[j] && rows[j] in rows;
      assert k >= 400;
      forall w | w in rows[..400]
        ensures NoLater(w, e)
      {
        var j :| 0 <= j < 400 && rows[..400][j] == w;
        assert EarlierRow(rows[j], rows[k]);
      }
    }
  }

  /** The window holds events nearby, at most 400 of them, none of those left
      out earlier than one of those listed; up to 400 it holds them all. */
  lemma WindowIs(d: Input)
    ensures |Window(d)| <= 400 && forall e | e in Window(d) :: e in d.events && Nearby(d, e)
    ensures forall e | e in d.events && Nearby(d, e) && e !in Window(d) ::
      |Window(d)| == 400 && forall w | w in Window(d) :: NoLater(w, e)
  {
    hide Instant, Around, Nearby, Filter, Sort;
    var near := Filter(d.events, IsAround(d));
    var rows := Sort(near, EarlierRow);
    assert TotalPreorder(EarlierRow);
    SortCorrect(near, EarlierRow);
    forall e: EventRow
      ensures e in rows <==> e in d.events && Nearby(d, e)
    {
      NearbyIff(d, e);
      FilterIn(d.events, IsAround(d), e);
      SortIn(near, EarlierRow, e);
    }
    NearbyTimed(d);
    hide IsAround, NoLater;
    forall e | e in d.events && Nearby(d, e) && e !in Window(d)
      ensures |Window(d)| == 400 && forall w | w in Window(d) :: NoLater(w, e)
    {
      FirstRows(rows, e);
    }
  }

  lemma SameRow(d: Input, e: EventRow)
    requires WellStored(d) && e in d.events
    ensures forall other | other in d.events && other.id == e.id :: other == e
  {
    hide Valid;
    var i :| 0 <= i < |d.events| && d.events[i] == e;
  }

  /** An event without a link has exactly one entry when it is in that window,
      saying whose source it shares, and none otherwise. */
  lemma UnlinkedEventEntry(d: Input, e: EventRow)
    requires WellStored(d) && e in d.events && forall k | 0 <= k < |d.links| :: d.links[k].eventId != e.id
    ensures e in Window(d) ==>
      e.ip.Some? && HasEntry(d, EventRef(e.id), e.time, "same source IP " + e.ip.value + " within the incident window")
    ensures e !in Window(d) ==> forall t | t in Built(d) :: t.ref != EventRef(e.id)
  {
    hide Built, WellStored, Window, Around;
    TimelineContents(d);
    assert !Linked(d.links, e.id);
    if e in Window(d) {
      WindowIs(d);
      InBuiltOnce(Built(d), OtherEntry(e));
    } else {
      RowsOf(d);
      forall t | t in Built(d)
        ensures t.ref != EventRef(e.id)
      {
        if t.ref == EventRef(e.id) {
          SameRow(d, e);
        }
      }
    }
  }

  // ── The builder ──────────────────────────────────────────────────────────

  method CollectLinked(d: Input) returns (entries: seq<Entry>, seen: set<string>)
    ensures entries == LinkedEntries(d, LinkedRows(d))
    ensures forall id :: id in seen <==> exists e :: e in LinkedRows(d) && e.id == id
  {
    hide LinkedEntry;
    entries, seen := [], {};
    var rows := LinkedRows(d);
    for i := 0 to |rows|
      invariant entries == LinkedEntries(d, rows[..i])
      invariant forall id :: id in seen <==> exists e :: e in rows[..i] && e.id == id
    {
      assert rows[..i + 1] == rows[..i] + [rows[i]];
      seen := seen + {rows[i].id};
      entries := entries + [LinkedEntry(d, rows[i])];
    }
    assert rows[..|rows|] == rows;
  }

  lemma NoRows(d: Input)
    ensures Window(d)[..0] == [] && Filter([], IsOther(d)) == []
  {
  }

  /** Rows around the incident, each unless its event is in `seen` already. */
  method CollectOther(d: Input, linked: set<string>) returns (entries: seq<Entry>)
    requires DistinctBy(Window(d), IdOf)
    requires forall e | e in Window(d) :: e.id in linked <==> Linked(d.links, e.id)
    ensures entries == OtherEntries(OtherRows(d))
  {
    hide Linked, Window, OtherEntry, Filter;
    entries := [];
    var seen, rows := linked, Window(d);
    NoRows(d);
    for i := 0 to |rows|
      invariant entries == OtherEntries(Filter(rows[..i], IsOther(d)))
      invariant forall k | i <= k < |rows| :: rows[k].id in seen <==> Linked(d.links, rows[k].id)
    {
      FilterSnoc(rows, i, IsOther(d));
      assert forall k | i < k < |rows| :: IdOf(rows[k]) != IdOf(rows[i]);
      var e := rows[i];
      if e.id !in seen {
        seen := seen + {e.id};
        entries := entries + [OtherEntry(e)];
      }
    }
    assert rows[..|rows|] == rows;
  }

  method CollectDetections(d: Input) returns (entries: seq<Entry>)
    ensures entries == DetectionEntries(d.detections)
  {
    hide DetectionEntry;
    entries := [];
    for i := 0 to |d.detections|
      invariant entries == DetectionEntries(d.detections[..i])
    {
      entries := entries + [DetectionEntry(d.detections[i])];
    }
    assert d.detections[..|d.detections|] == d.detections;
  }

  lemma SeenIsLinked(d: Input, seen: set<string>)
    requires WellStored(d)
    requires forall id :: id in seen <==> exists e :: e in LinkedRows(d) && e.id == id
    ensures forall e | e in Window(d) :: e.id in seen <==> Linked(d.links, e.id)
    ensures DistinctBy(Window(d), IdOf)
  {
    hide Window, LinkedRows, OtherRows, Linked, Around;
    RowsOf(d);
    WindowUnique(d);
  }

  /** `build_timeline` on the rows: linked events, then unseen ones around the
      incident, then detections, then what other systems add, sorted at the end. */
  method BuildTimeline(d: Input, others: seq<Entry>) returns (entries: seq<Entry>)
    requires WellStored(d)
    ensures entries == BuiltWith(d, others)
  {
    hide Window, LinkedRows, OtherRows, LinkedEntries, OtherEntries, DetectionEntries, Linked, Around;
    RowsOf(d);
    var linked, seen := CollectLinked(d);
    SeenIsLinked(d, seen);
    var other := CollectOther(d, seen);
    var detections := CollectDetections(d);
    entries := Sort(linked + other + detections + others, NotAfter);
  }
}
