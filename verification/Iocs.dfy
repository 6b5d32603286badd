/** IOC extraction and the observation table: one row per (type, value), a hit
    count and the time last seen. */
module Iocs {
  import opened Collections
  import opened Model

  // ── Extraction ───────────────────────────────────────────────────────────

  function When<T>(c: bool, x: T): seq<T> {
    if c then [x] else []
  }

  function RawIocs(e: Event): seq<Ioc> {
    var src := e.sourceIp;
    var dst := e.destinationIp;
    var user := if |e.username| <= 120 then e.username else e.username[..120];
    When(src != "" && src != "0.0.0.0" && src != "127.0.0.1" && src != "::1", Ioc("ip", src))
    + When(dst != "" && dst != "0.0.0.0" && dst != "127.0.0.1", Ioc("ip", dst))
    + When(e.username != "", Ioc("username", user))
    + e.scanned
  }

  /** `extract_iocs`: every indicator once, in order of first appearance. */
  function ExtractIocs(e: Event): seq<Ioc> {
    Dedup(RawIocs(e))
  }

  /** An address that stands for no remote host. */
  ghost predicate Placeholder(address: string) {
    address in {"", "0.0.0.0", "127.0.0.1"}
  }

  ghost predicate SourceIndicator(e: Event, p: Ioc) {
    p.kind == "ip" && p.value == e.sourceIp && !Placeholder(p.value) && p.value != "::1"
  }

  ghost predicate DestinationIndicator(e: Event, p: Ioc) {
    p.kind == "ip" && p.value == e.destinationIp && !Placeholder(p.value)
  }

  /** The user name, or its first 120 characters. */
  ghost predicate UserIndicator(e: Event, p: Ioc) {
    && p.kind == "username" && e.username != "" && p.value <= e.username
    && |p.value| == if |e.username| < 120 then |e.username| else 120
  }

  lemma InWhen<T>(c: bool, x: T, y: T)
    ensures y in When(c, x) <==> c && y == x
  {
  }

  lemma UserIs(e: Event, p: Ioc)
    ensures e.username != "" && p == Ioc("username", if |e.username| <= 120 then e.username else e.username[..120])
      <==> UserIndicator(e, p)
  {
  }

  /** What counts as an indicator of an event: its two addresses unless they are
      placeholders (as a source, not the IPv6 loopback either), its user name cut
      at 120 characters, and what the scanners found; each once. */
  lemma ExtractedIff(e: Event, p: Ioc)
    ensures Distinct(ExtractIocs(e))
    ensures p in ExtractIocs(e) <==>
      SourceIndicator(e, p) || DestinationIndicator(e, p) || UserIndicator(e, p) || p in e.scanned
  {
    hide When, UserIndicator;
    var src, dst := e.sourceIp, e.destinationIp;
    var user := if |e.username| <= 120 then e.username else e.username[..120];
    var a := When(src != "" && src != "0.0.0.0" && src != "127.0.0.1" && src != "::1", Ioc("ip", src));
    var b := When(dst != "" && dst != "0.0.0.0" && dst != "127.0.0.1", Ioc("ip", dst));
    var c := When(e.username != "", Ioc("username", user));
    assert RawIocs(e) == a + b + c + e.scanned;
    InWhen(src != "" && src != "0.0.0.0" && src != "127.0.0.1" && src != "::1", Ioc("ip", src), p);
    InWhen(dst != "" && dst != "0.0.0.0" && dst != "127.0.0.1", Ioc("ip", dst), p);
    InWhen(e.username != "", Ioc("username", user), p);
    UserIs(e, p);
    assert p in a <==> SourceIndicator(e, p);
    assert p in b <==> DestinationIndicator(e, p);
    hide SourceIndicator, DestinationIndicator;
  }

  function Mentioning(p: Ioc): Event -> bool {
    (e: Event) => p in ExtractIocs(e)
  }

  // ── Mentions: every indicator of every event, with the event's time ──────

  datatype Mention = Mention(ioc: Ioc, at: int)

  function EventMentions(e: Event): seq<Mention> {
    var ps := ExtractIocs(e);
    seq(|ps|, i requires 0 <= i < |ps| => Mention(ps[i], e.timestamp))
  }

  function Mentions(events: seq<Event>): seq<Mention> {
    if events == [] then []
    else Mentions(events[..|events| - 1]) + EventMentions(events[|events| - 1])
  }

  /** How often and how recently one indicator was mentioned. */
  datatype Tally = Tally(hits: nat, last: int)

  function Merge(a: Option<Tally>, b: Option<Tally>): Option<Tally> {
    match (a, b)
    case (None, _) => b
    case (_, None) => a
    case (Some(x), Some(y)) => Some(Tally(x.hits + y.hits, Max(x.last, y.last)))
  }

  function Count(ms: seq<Mention>, p: Ioc): Option<Tally> {
    if ms == [] then None
    else
      var m := ms[|ms| - 1];
      Merge(Count(ms[..|ms| - 1], p), if m.ioc == p then Some(Tally(1, m.at)) else None)
  }

  lemma {:induction false} CountConcat(a: seq<Mention>, b: seq<Mention>, p: Ioc)
    ensures Count(a + b, p) == Merge(Count(a, p), Count(b, p))
  {
    if b == [] {
      assert a + b == a;
    } else {
      CountConcat(a, b[..|b| - 1], p);
      assert (a + b)[..|a + b| - 1] == a + b[..|b| - 1];
    }
  }

  lemma {:induction false} MentionsConcat(a: seq<Event>, b: seq<Event>)
    ensures Mentions(a + b) == Mentions(a) + Mentions(b)
  {
    hide EventMentions;
    if b == [] {
      assert a + b == a;
    } else {
      MentionsConcat(a, b[..|b| - 1]);
      assert (a + b)[..|a + b| - 1] == a + b[..|b| - 1];
    }
  }

  lemma {:induction false} CountOne(ps: seq<Ioc>, ms: seq<Mention>, at: int, p: Ioc)
    requires Distinct(ps) && |ms| == |ps|
    requires forall i | 0 <= i < |ps| :: ms[i] == Mention(ps[i], at)
    ensures Count(ms, p) == if p in ps then Some(Tally(1, at)) else None
  {
    if ps == [] {
    } else {
      var rest := ps[..|ps| - 1];
      CountOne(rest, ms[..|ms| - 1], at, p);
      assert ps == rest + [ps[|ps| - 1]];
    }
  }

  /** Because extraction lists an indicator once, an event counts once. */
  lemma EventCountsOnce(e: Event, p: Ioc)
    ensures Count(EventMentions(e), p) == if Mentioning(p)(e) then Some(Tally(1, e.timestamp)) else None
  {
    CountOne(ExtractIocs(e), EventMentions(e), e.timestamp, p);
  }

  lemma CountNil(p: Ioc)
    ensures Count([], p) == None
  {
  }

  function LatestOf(events: seq<Event>): int
    requires events != []
  {
    if |events| == 1 then events[0].timestamp
    else Max(LatestOf(events[..|events| - 1]), events[|events| - 1].timestamp)
  }

  lemma LatestSnoc(es: seq<Event>, e: Event)
    ensures LatestOf(es + [e]) == if es == [] then e.timestamp else Max(LatestOf(es), e.timestamp)
  {
    assert (es + [e])[..|es|] == es;
  }

  /** The tally of an indicator is the plain count of the events that mention
      it, with the latest of their timestamps. */
  lemma {:induction false} CountIsNaive(events: seq<Event>, p: Ioc)
    ensures var es := Filter(events, Mentioning(p));
      Count(Mentions(events), p) == if es == [] then None else Some(Tally(|es|, LatestOf(es)))
  {
    hide EventMentions, Mentioning, Count;
    if events == [] {
      CountNil(p);
    } else {
      var rest, e := events[..|events| - 1], events[|events| - 1];
      CountIsNaive(rest, p);
      EventCountsOnce(e, p);
      CountConcat(Mentions(rest), EventMentions(e), p);
      var es := Filter(rest, Mentioning(p));
      assert Filter(events, Mentioning(p)) == es + if Mentioning(p)(e) then [e] else [];
      LatestSnoc(es, e);
      assert Mentions(events) == Mentions(rest) + EventMentions(e);
      if Mentioning(p)(e) {
        assert Filter(events, Mentioning(p)) == es + [e];
        assert Count(Mentions(events), p) == Merge(Count(Mentions(rest), p), Some(Tally(1, e.timestamp)));
      } else {
        assert Filter(events, Mentioning(p)) == es;
        assert Count(Mentions(events), p) == Merge(Count(Mentions(rest), p), None);
      }
    }
  }

  // ── The table ────────────────────────────────────────────────────────────

  datatype IocRow = IocRow(ioc: Ioc, hits: nat, lastSeen: int)

  /** The first row for an indicator: `select ... first()`. */
  function Find(rows: seq<IocRow>, p: Ioc): Option<nat> {
    if rows == [] then None
    else match Find(rows[..|rows| - 1], p)
      case Some(i) => Some(i)
      case None => if rows[|rows| - 1].ioc == p then Some(|rows| - 1) else None
  }

  lemma {:induction false} FindCorrect(rows: seq<IocRow>, p: Ioc)
    ensures match Find(rows, p)
      case Some(i) => i < |rows| && rows[i].ioc == p
      case None => forall i | 0 <= i < |rows| :: rows[i].ioc != p
  {
    if rows == [] {
    } else {
      FindCorrect(rows[..|rows| - 1], p);
    }
  }

  ghost predicate OneRowEach(rows: seq<IocRow>) {
    forall i, j | 0 <= i < j < |rows| :: rows[i].ioc != rows[j].ioc
  }

  /** The tally a table holds for an indicator. */
  function Held(rows: seq<IocRow>, p: Ioc): Option<Tally> {
    FindCorrect(rows, p);
    match Find(rows, p)
    case None => None
    case Some(i) => Some(Tally(rows[i].hits, rows[i].lastSeen))
  }

  lemma HeldAt(rows: seq<IocRow>, i: nat)
    requires OneRowEach(rows) && i < |rows|
    ensures Held(rows, rows[i].ioc) == Some(Tally(rows[i].hits, rows[i].lastSeen))
  {
    FindCorrect(rows, rows[i].ioc);
  }

  function UpsertOne(rows: seq<IocRow>, p: Ioc, t: Tally): seq<IocRow> {
    FindCorrect(rows, p);
    match Find(rows, p)
    case Some(i) => rows[i := rows[i].(hits := rows[i].hits + t.hits, lastSeen := Max(rows[i].lastSeen, t.last))]
    case None => rows + [IocRow(p, t.hits, t.last)]
  }

  lemma UpsertOneHeld(rows: seq<IocRow>, p: Ioc, t: Tally, q: Ioc)
    requires OneRowEach(rows)
    ensures OneRowEach(UpsertOne(rows, p, t))
    ensures Held(UpsertOne(rows, p, t), q) == if p == q then Merge(Held(rows, p), Some(t)) else Held(rows, q)
  {
    var rows' := UpsertOne(rows, p, t);
    FindCorrect(rows, p);
    FindCorrect(rows, q);
    match Find(rows, q) {
      case Some(j) =>
        HeldAt(rows', j);
      case None =>
        FindCorrect(rows', q);
        if p == q {
          HeldAt(rows', |rows|);
        }
    }
  }

  function IocsOf(ms: seq<Mention>): seq<Ioc> {
    seq(|ms|, i requires 0 <= i < |ms| => ms[i].ioc)
  }

  lemma {:induction false} CountSome(ms: seq<Mention>, p: Ioc)
    ensures Count(ms, p).Some? <==> p in IocsOf(ms)
  {
    if ms == [] {
    } else {
      CountSome(ms[..|ms| - 1], p);
      assert IocsOf(ms) == IocsOf(ms[..|ms| - 1]) + [ms[|ms| - 1].ioc];
    }
  }

  function UpsertEach(rows: seq<IocRow>, ps: seq<Ioc>, ms: seq<Mention>): seq<IocRow>
    requires forall i | 0 <= i < |ps| :: Count(ms, ps[i]).Some?
  {
    if ps == [] then rows
    else
      var p := ps[|ps| - 1];
      UpsertOne(UpsertEach(rows, ps[..|ps| - 1], ms), p, Count(ms, p).value)
  }

  function PendingIocs(ms: seq<Mention>): (ps: seq<Ioc>)
    ensures forall i | 0 <= i < |ps| :: Count(ms, ps[i]).Some?
  {
    var ps := Dedup(IocsOf(ms));
    assert forall i | 0 <= i < |ps| :: Count(ms, ps[i]).Some? by {
      forall i | 0 <= i < |ps|
        ensures Count(ms, ps[i]).Some?
      {
        CountSome(ms, ps[i]);
      }
    }
    ps
  }

  /** The table after `_upsert_iocs` on one batch. */
  function Upserted(rows: seq<IocRow>, batch: seq<Event>): seq<IocRow> {
    UpsertEach(rows, PendingIocs(Mentions(batch)), Mentions(batch))
  }

  lemma {:induction false} UpsertEachHeld(rows: seq<IocRow>, ps: seq<Ioc>, ms: seq<Mention>, q: Ioc)
    requires OneRowEach(rows) && Distinct(ps)
    requires forall i | 0 <= i < |ps| :: Count(ms, ps[i]).Some?
    ensures OneRowEach(UpsertEach(rows, ps, ms))
    ensures Held(UpsertEach(rows, ps, ms), q)
         == if q in ps then Merge(Held(rows, q), Count(ms, q)) else Held(rows, q)
  {
    hide UpsertOne, Held, Count;
    if ps == [] {
    } else {
      var rest, p := ps[..|ps| - 1], ps[|ps| - 1];
      UpsertEachHeld(rows, rest, ms, q);
      UpsertOneHeld(UpsertEach(rows, rest, ms), p, Count(ms, p).value, q);
      assert ps == rest + [p];
    }
  }

  /** The table is exact for the events consumed so far: one row per indicator,
      and each row is the naive count. */
  ghost predicate Exact(rows: seq<IocRow>, consumed: seq<Event>) {
    && OneRowEach(rows)
    && forall p :: Held(rows, p) == Count(Mentions(consumed), p)
  }

  lemma UpsertedExact(rows: seq<IocRow>, consumed: seq<Event>, batch: seq<Event>)
    requires Exact(rows, consumed)
    ensures Exact(Upserted(rows, batch), consumed + batch)
  {
    hide Held, Count, Mentions, UpsertEach;
    var ms := Mentions(batch);
    MentionsConcat(consumed, batch);
    assert OneRowEach(Upserted(rows, batch)) by {
      UpsertEachHeld(rows, PendingIocs(ms), ms, Ioc("", ""));
    }
    forall p
      ensures Held(Upserted(rows, batch), p) == Count(Mentions(consumed + batch), p)
    {
      UpsertEachHeld(rows, PendingIocs(ms), ms, p);
      CountSome(ms, p);
      CountConcat(Mentions(consumed), ms, p);
    }
  }

  /** What an exact row says, in terms of the consumed events alone. */
  lemma ExactRow(rows: seq<IocRow>, consumed: seq<Event>, i: nat)
    requires Exact(rows, consumed) && i < |rows|
    ensures var es := Filter(consumed, Mentioning(rows[i].ioc));
      es != [] && rows[i].hits == |es| && rows[i].lastSeen == LatestOf(es)
  {
    HeldAt(rows, i);
    CountIsNaive(consumed, rows[i].ioc);
  }

  /** Every indicator of a consumed event has its row. */
  lemma ExactCovers(rows: seq<IocRow>, consumed: seq<Event>, e: Event, p: Ioc)
    requires Exact(rows, consumed) && e in consumed && p in ExtractIocs(e)
    ensures exists i :: 0 <= i < |rows| && rows[i].ioc == p
  {
    CountIsNaive(consumed, p);
    FilterIn(consumed, Mentioning(p), e);
    assert Held(rows, p).Some?;
    FindCorrect(rows, p);
  }

  // ── The two loops of the upsert ──────────────────────────────────────────

  lemma PendingSnoc(ms: seq<Mention>, m: Mention)
    ensures PendingIocs(ms + [m]) == if m.ioc in PendingIocs(ms) then PendingIocs(ms) else PendingIocs(ms) + [m.ioc]
    ensures forall p :: Count(ms + [m], p) == Merge(Count(ms, p), if m.ioc == p then Some(Tally(1, m.at)) else None)
  {
    assert IocsOf(ms + [m]) == IocsOf(ms) + [m.ioc];
    DedupSnoc(IocsOf(ms), m.ioc);
    assert (ms + [m])[..|ms|] == ms;
  }

  ghost predicate Tallied(order: seq<Ioc>, slots: map<Ioc, Tally>, ms: seq<Mention>) {
    && order == PendingIocs(ms)
    && (forall p :: p in slots <==> Count(ms, p).Some?)
    && (forall p | p in slots :: Some(slots[p]) == Count(ms, p))
  }

  lemma TalliedNil()
    ensures Tallied([], map[], Mentions([]))
  {
    assert IocsOf([]) == [];
  }

  lemma TalliedSlot(order: seq<Ioc>, slots: map<Ioc, Tally>, ms: seq<Mention>, p: Ioc)
    requires Tallied(order, slots, ms)
    ensures p in slots <==> p in PendingIocs(ms)
    ensures p in slots ==> Some(slots[p]) == Count(ms, p)
  {
    CountSome(ms, p);
  }

  lemma TalliedStep(order: seq<Ioc>, slots: map<Ioc, Tally>, ms: seq<Mention>, m: Mention)
    requires Tallied(order, slots, ms)
    ensures if m.ioc in slots
            then Tallied(order, slots[m.ioc := Tally(slots[m.ioc].hits + 1, Max(slots[m.ioc].last, m.at))], ms + [m])
            else Tallied(order + [m.ioc], slots[m.ioc := Tally(1, m.at)], ms + [m])
  {
    hide PendingIocs, Count;
    PendingSnoc(ms, m);
    TalliedSlot(order, slots, ms, m.ioc);
  }

  method TallyPending(batch: seq<Event>) returns (order: seq<Ioc>, slots: map<Ioc, Tally>)
    ensures Tallied(order, slots, Mentions(batch))
  {
    hide Count, PendingIocs, Tallied, ExtractIocs;
    order, slots := [], map[];
    TalliedNil();
    for i := 0 to |batch|
      invariant Tallied(order, slots, Mentions(batch[..i]))
    {
      var e := batch[i];
      ghost var before := Mentions(batch[..i]);
      ghost var now := EventMentions(e);
      var iocs := ExtractIocs(e);
      assert batch[..i + 1][..i] == batch[..i];
      assert before + now[..0] == before;
      for j := 0 to |iocs|
        invariant Tallied(order, slots, before + now[..j])
      {
        var p := iocs[j];
        TalliedStep(order, slots, before + now[..j], now[j]);
        assert before + now[..j + 1] == before + now[..j] + [now[j]];
        if p in slots {
          slots := slots[p := Tally(slots[p].hits + 1, Max(slots[p].last, e.timestamp))];
        } else {
          order := order + [p];
          slots := slots[p := Tally(1, e.timestamp)];
        }
      }
      assert now[..|iocs|] == now;
    }
    assert batch[..|batch|] == batch;
  }

  lemma UpsertEachNil(rows: seq<IocRow>, ms: seq<Mention>)
    ensures UpsertEach(rows, [], ms) == rows
  {
  }

  lemma UpsertEachSnoc(rows: seq<IocRow>, ps: seq<Ioc>, i: nat, ms: seq<Mention>)
    requires i < |ps|
    requires forall i | 0 <= i < |ps| :: Count(ms, ps[i]).Some?
    ensures UpsertEach(rows, ps[..i + 1], ms) == UpsertOne(UpsertEach(rows, ps[..i], ms), ps[i], Count(ms, ps[i]).value)
  {
    assert ps[..i + 1][..i] == ps[..i];
  }

  method UpsertIocs(table: seq<IocRow>, batch: seq<Event>) returns (rows: seq<IocRow>)
    ensures rows == Upserted(table, batch)
  {
    hide Count, PendingIocs, UpsertEach, UpsertOne, Mentions;
    var order, slots := TallyPending(batch);
    ghost var ms := Mentions(batch);
    assert order == PendingIocs(ms);
    hide Tallied;
    rows := table;
    UpsertEachNil(table, ms);
    for i := 0 to |order|
      invariant rows == UpsertEach(table, order[..i], ms)
    {
      UpsertEachSnoc(table, order, i, ms);
      TalliedSlot(order, slots, ms, order[i]);
      rows := UpsertOne(rows, order[i], slots[order[i]]);
    }
    assert order[..|order|] == order;
  }
}
