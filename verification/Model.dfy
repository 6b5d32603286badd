/** Normalized events and detection rules. Instants are microseconds since the
    Unix epoch (naive UTC); an absent text column is the empty string, which the
    services treat like NULL. */
module Model {
  import opened Collections

  const SECOND := 1_000_000
  const MINUTE := 60 * SECOND
  const HOUR := 60 * MINUTE

  function Max(a: int, b: int): int {
    if a >= b then a else b
  }

  /** `int(x)` of a fractional number of seconds: towards zero. */
  function WholeSeconds(micros: int): int {
    if micros >= 0 then micros / SECOND else -((-micros) / SECOND)
  }

  /** One indicator of compromise: its type and its value. */
  datatype Ioc = Ioc(kind: string, value: string)

  /** A row of `normalized_events`. `scanned` holds what the regular expressions
      of the IOC extractor find in the row, in order; `fields` holds the columns
      and metadata keys that only rule conditions read. */
  datatype Event = Event(
    id: string,
    timestamp: int,
    ingestedAt: int,
    sourceIp: string,
    destinationIp: string,
    username: string,
    sensor: string,
    severity: string,
    scanned: seq<Ioc>,
    fields: map<string, string>)

  type Condition = Event -> bool

  /** `all(c.matches(...) for c in conditions)` as one predicate on events. */
  function Meets(conditions: seq<Condition>): Condition {
    (e: Event) => forall i | 0 <= i < |conditions| :: conditions[i](e)
  }

  datatype Step = Step(conditions: seq<Condition>, minCount: int)

  datatype Matcher =
    | Threshold(count: int, conditions: seq<Condition>)
    | Sequence(steps: seq<Step>)

  datatype GroupBy = SourceIp | Field(read: Event -> Option<string>)

  datatype Severity = LOW | MEDIUM | HIGH | CRITICAL

  function Rank(s: Severity): (r: int)
    ensures 1 <= r <= 4
  {
    match s
    case LOW => 1
    case MEDIUM => 2
    case HIGH => 3
    case CRITICAL => 4
  }

  /** The severity with the given rank. */
  function OfRank(r: int): (s: Severity)
    requires 1 <= r <= 4
    ensures Rank(s) == r
  {
    if r == 1 then LOW else if r == 2 then MEDIUM else if r == 3 then HIGH else CRITICAL
  }

  datatype Rule = Rule(
    id: string,
    severity: Severity,
    confidence: real,
    technique: Option<string>,
    groupBy: GroupBy,
    timeframe: nat,
    matcher: Matcher)

  function GroupKey(rule: Rule, e: Event): Option<string> {
    match rule.groupBy
    case SourceIp => Some(e.sourceIp)
    case Field(read) => read(e)
  }

  predicate ByTimestamp(a: Event, b: Event) {
    a.timestamp <= b.timestamp
  }

  ghost predicate InTimeOrder(events: seq<Event>) {
    forall i, j | 0 <= i < j < |events| :: events[i].timestamp <= events[j].timestamp
  }

  /** `sorted(events, key=timestamp)`: a stable permutation in time order. */
  function TimeSorted(events: seq<Event>): (r: seq<Event>)
    ensures InTimeOrder(r) && |r| == |events|
    ensures InTimeOrder(events) ==> r == events
  {
    var r := Sort(events, ByTimestamp);
    SortCorrect(events, ByTimestamp);
    assert forall i, j | 0 <= i < j < |r| :: ByTimestamp(r[i], r[j]);
    assert InTimeOrder(events) ==> r == events by {
      if InTimeOrder(events) {
        SortOfSorted(events, ByTimestamp);
      }
    }
    r
  }

  lemma TimeSortedIn(events: seq<Event>, e: Event)
    ensures e in TimeSorted(events) <==> e in events
  {
    SortIn(events, ByTimestamp, e);
  }

  predicate ByIngest(a: Event, b: Event) {
    a.ingestedAt <= b.ingestedAt
  }

  /** Why an event belongs to an incident. */
  datatype Reason =
    | RuleFired(ruleId: string, group: string, matched: nat)
    | HighRisk(score: real, sensor: string)
    | Manual(text: string)
}
