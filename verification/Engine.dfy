/** One detection cycle: consume the next batch of events, evaluate every rule,
    raise the detections whose key is new, correlate each source, move the
    cursor, commit. */
module Engine {
  import opened Collections
  import opened Model
  import opened Rules
  import opened Iocs
  import opened Scoring
  import opened Correlation

  const BATCH_LIMIT := 3000
  const WINDOW_LIMIT := 8000
  const MAX_LOOKBACK := 2 * HOUR

  function Take<T>(xs: seq<T>, n: nat): seq<T> {
    if |xs| <= n then xs else xs[..n]
  }

  // ── Reading the log ──────────────────────────────────────────────────────

  function CursorOf(t: Tables, now: int): int {
    match t.cursor
    case None => now - HOUR
    case Some(c) => c
  }

  function After(cursor: int): Event -> bool {
    (e: Event) => e.ingestedAt > cursor
  }

  /** `ingested_at > cursor`, oldest first, at most 3000 rows. */
  function NextBatch(log: seq<Event>, cursor: int): seq<Event> {
    Take(Sort(Filter(log, After(cursor)), ByIngest), BATCH_LIMIT)
  }

  function LatestIngest(batch: seq<Event>): int
    requires batch != []
  {
    if |batch| == 1 then batch[0].ingestedAt
    else Max(LatestIngest(batch[..|batch| - 1]), batch[|batch| - 1].ingestedAt)
  }

  function FromSource(ip: string): Event -> bool {
    (e: Event) => e.sourceIp == ip
  }

  function InWindow(batch: seq<Event>, lookback: int): Event -> bool {
    (e: Event) =>
      e.sourceIp != "" && e.timestamp >= lookback && exists i | 0 <= i < |batch| :: batch[i].sourceIp == e.sourceIp
  }

  /** The events the rules look at: recent ones of the sources in the batch. */
  function WindowOf(log: seq<Event>, batch: seq<Event>, now: int): seq<Event> {
    Take(TimeSorted(Filter(log, InWindow(batch, now - MAX_LOOKBACK))), WINDOW_LIMIT)
  }

  function CandidatesOf(rules: seq<Rule>, window: seq<Event>, since: int, now: int): seq<Candidate> {
    if rules == [] then []
    else CandidatesOf(rules[..|rules| - 1], window, since, now) + Evaluate(rules[|rules| - 1], window, since, now)
  }

  // ── Raising detections ───────────────────────────────────────────────────

  function KeysOf(ds: seq<Detection>): set<string> {
    set i | 0 <= i < |ds| :: ds[i].key
  }

  function Unseen(keys: set<string>): Candidate -> bool {
    (c: Candidate) => c.key !in keys
  }

  /** A candidate whose key exists only moves `last_event_at` forward. */
  function RefreshOne(ds: seq<Detection>, c: Candidate): seq<Detection> {
    seq(|ds|, k requires 0 <= k < |ds| =>
      if ds[k].key == c.key && ds[k].lastAt < c.lastAt then ds[k].(lastAt := c.lastAt) else ds[k])
  }

  function SourceOf(c: Candidate): string {
    if c.rule.groupBy.SourceIp? then c.group
    else if c.matched == [] then "" else c.matched[0].sourceIp
  }

  /** The source a new detection is correlated under. */
  function IpOf(c: Candidate): string {
    if SourceOf(c) != "" then SourceOf(c) else c.group
  }

  function RowOf(c: Candidate): Detection {
    Detection(c.key, c.rule.id, c.rule.severity, c.rule.confidence, c.rule.technique, c.reason,
              SourceOf(c), c.username, c.firstAt, c.lastAt, None)
  }

  /** The table after the candidates are refreshed or inserted, in order;
      `keys` are the keys present before the cycle. */
  function Raise(ds: seq<Detection>, keys: set<string>, cs: seq<Candidate>): seq<Detection> {
    if cs == [] then ds
    else
      var c := cs[|cs| - 1];
      var before := Raise(ds, keys, cs[..|cs| - 1]);
      if c.key in keys then RefreshOne(before, c) else before + [RowOf(c)]
  }

  /** The new detections of one source, as rows of the table. */
  function RowsFor(base: nat, novel: seq<Candidate>, ip: string): seq<nat> {
    if novel == [] then []
    else
      RowsFor(base, novel[..|novel| - 1], ip)
      + if IpOf(novel[|novel| - 1]) == ip then [base + |novel| - 1] else []
  }

  predicate Offered(ev: seq<Evidence>, id: string) {
    exists k | 0 <= k < |ev| :: ev[k].event.id == id
  }

  function Replace(ev: seq<Evidence>, e: Event, r: Reason): seq<Evidence> {
    seq(|ev|, k requires 0 <= k < |ev| => if ev[k].event.id == e.id then Evidence(e, r) else ev[k])
  }

  /** `slot[event_id] = (event, reason)` for each matched event. */
  function Offer(ev: seq<Evidence>, es: seq<Event>, r: Reason): seq<Evidence> {
    if es == [] then ev
    else
      var before := Offer(ev, es[..|es| - 1], r);
      var e := es[|es| - 1];
      if Offered(before, e.id) then Replace(before, e, r) else before + [Evidence(e, r)]
  }

  function EvidenceFor(novel: seq<Candidate>, ip: string): seq<Evidence> {
    if novel == [] then []
    else
      var c := novel[|novel| - 1];
      var before := EvidenceFor(novel[..|novel| - 1], ip);
      if IpOf(c) == ip then Offer(before, c.matched, c.reason) else before
  }

  function AddHighRisk(ev: seq<Evidence>, es: seq<Event>): seq<Evidence> {
    if es == [] then ev
    else
      var before := AddHighRisk(ev, es[..|es| - 1]);
      var e := es[|es| - 1];
      if EventRisk(e) >= 80.0 && !Offered(before, e.id)
      then before + [Evidence(e, HighRisk(EventRisk(e), e.sensor))] else before
  }

  function AllIocs(es: seq<Event>): seq<Ioc> {
    if es == [] then [] else AllIocs(es[..|es| - 1]) + ExtractIocs(es[|es| - 1])
  }

  /** The committed log a cycle reads, its batch, the malware reports on disk. */
  datatype Reading = Reading(log: seq<Event>, batch: seq<Event>, reports: set<string>)

  function InputFor(r: Reading, base: nat, novel: seq<Candidate>, ip: string): Input {
    var mine := Filter(r.batch, FromSource(ip));
    var iocs := Dedup(AllIocs(mine));
    Input(RowsFor(base, novel, ip),
          AddHighRisk(EvidenceFor(novel, ip), mine),
          iocs,
          MaxRisk(mine),
          if mine == [] || ip == "" then 0 else |Filter(r.log, FromSource(ip))|,
          MalwareLinked(iocs, r.reports))
  }

  function IpsOf(cs: seq<Candidate>): seq<string> {
    seq(|cs|, i requires 0 <= i < |cs| => IpOf(cs[i]))
  }

  function HighRiskIps(batch: seq<Event>): seq<string> {
    if batch == [] then []
    else
      HighRiskIps(batch[..|batch| - 1])
      + if EventRisk(batch[|batch| - 1]) >= 80.0 then [batch[|batch| - 1].sourceIp] else []
  }

  function NonEmpty(): string -> bool {
    (s: string) => s != ""
  }

  /** The sources to correlate: those with new detections, then those with
      high-risk events, each once. */
  function Sources(novel: seq<Candidate>, batch: seq<Event>): seq<string> {
    Filter(Dedup(IpsOf(novel) + HighRiskIps(batch)), NonEmpty())
  }

  ghost predicate Ready(t: Tables, base: nat, novel: seq<Candidate>) {
    |t.detections| == base + |novel|
  }

  lemma {:induction false} RowsInRange(base: nat, novel: seq<Candidate>, ip: string, rows: seq<nat>)
    requires rows == RowsFor(base, novel, ip)
    ensures forall k | 0 <= k < |rows| ::
        base <= rows[k] < base + |novel| && IpOf(novel[rows[k] - base]) == ip
  {
    hide IpOf;
    if novel == [] {
    } else {
      var rest := novel[..|novel| - 1];
      RowsInRange(base, rest, ip, RowsFor(base, rest, ip));
    }
  }

  lemma InputRows(r: Reading, base: nat, novel: seq<Candidate>, ip: string, t: Tables)
    requires Ready(t, base, novel)
    ensures RowsExist(t, InputFor(r, base, novel, ip))
  {
    hide EvidenceFor, AddHighRisk, AllIocs, MalwareLinked, MaxRisk, Filter, Dedup, RowsFor;
    RowsInRange(base, novel, ip, RowsFor(base, novel, ip));
  }

  lemma CorrelateFrame(t: Tables, now: int, ip: string, a: Input)
    requires RowsExist(t, a)
    ensures var t' := Correlate(t, now, ip, a);
      |t'.detections| == |t.detections| && t'.cursor == t.cursor && t'.iocs == t.iocs
  {
    hide Receiving, Scored, NewEventLinks, NewIocLinks, Select;
  }

  function CorrelateIp(t: Tables, now: int, r: Reading, base: nat, novel: seq<Candidate>, ip: string): (t': Tables)
    requires Ready(t, base, novel)
    ensures Ready(t', base, novel) && t'.cursor == t.cursor && t'.iocs == t.iocs
  {
    hide InputFor, Correlate;
    InputRows(r, base, novel, ip, t);
    CorrelateFrame(t, now, ip, InputFor(r, base, novel, ip));
    Correlate(t, now, ip, InputFor(r, base, novel, ip))
  }

  function CorrelateAll(t: Tables, now: int, r: Reading, base: nat, novel: seq<Candidate>, ips: seq<string>): (t': Tables)
    requires Ready(t, base, novel)
    ensures Ready(t', base, novel) && t'.cursor == t.cursor && t'.iocs == t.iocs
  {
    if ips == [] then t
    else
      CorrelateIp(CorrelateAll(t, now, r, base, novel, ips[..|ips| - 1]), now, r, base, novel, ips[|ips| - 1])
  }

  // ── The cycle ────────────────────────────────────────────────────────────

  predicate DistinctKeys(cs: seq<Candidate>) {
    forall i, j | 0 <= i < j < |cs| :: cs[i].key != cs[j].key
  }

  lemma {:induction false} RaiseLength(ds: seq<Detection>, keys: set<string>, cs: seq<Candidate>)
    ensures |Raise(ds, keys, cs)| == |ds| + |Filter(cs, Unseen(keys))|
  {
    if cs == [] {
    } else {
      RaiseLength(ds, keys, cs[..|cs| - 1]);
    }
  }

  /** What a cycle has worked out before it correlates. */
  datatype Plan = Plan(batch: seq<Event>, candidates: seq<Candidate>, novel: seq<Candidate>)

  function PlanOf(t: Tables, log: seq<Event>, rules: seq<Rule>, now: int): Plan {
    var since := CursorOf(t, now);
    var batch := NextBatch(log, since);
    var cs := CandidatesOf(rules, WindowOf(log, batch, now), since, now);
    Plan(batch, cs, Filter(cs, Unseen(KeysOf(t.detections))))
  }

  /** The tables just before correlation: indicators counted, detections raised. */
  function Raised(t: Tables, p: Plan): Tables {
    t.(iocs := Upserted(t.iocs, p.batch), detections := Raise(t.detections, KeysOf(t.detections), p.candidates))
  }

  /** A committed cycle, or None when two new detections share a key: the unique
      index rejects the second and the whole transaction is rolled back. */
  function Cycle(t: Tables, log: seq<Event>, rules: seq<Rule>, now: int, reports: set<string>): Option<Tables> {
    var p := PlanOf(t, log, rules, now);
    if p.batch == [] then Some(t)
    else if !DistinctKeys(p.novel) then None
    else
      RaiseLength(t.detections, KeysOf(t.detections), p.candidates);
      var t' := CorrelateAll(Raised(t, p), now, Reading(log, p.batch, reports), |t.detections|, p.novel,
                             Sources(p.novel, p.batch));
      Some(t'.(cursor := Some(LatestIngest(p.batch))))
  }
}
