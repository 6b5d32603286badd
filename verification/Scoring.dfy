/** Incident severity and risk score. Scores are exact reals; rounding is to the
    nearest tenth (or hundredth), ties to even, as Python's `round`. */
module Scoring {
  import opened Collections
  import opened Model

  /** A row of `detections`; its id is its position in the table. */
  datatype Detection = Detection(
    key: string,
    ruleId: string,
    severity: Severity,
    confidence: real,
    technique: Option<string>,
    reason: Reason,
    sourceIp: string,
    username: string,
    firstAt: int,
    lastAt: int,
    incident: Option<nat>)

  /** SEVERITY_RISK_SCORE with the default for unknown severities. */
  function SeverityRisk(severity: string): (r: real)
    ensures 0.0 <= r <= 100.0
  {
    if severity == "CRITICAL" then 95.0
    else if severity == "HIGH" then 80.0
    else if severity == "MEDIUM" then 50.0
    else if severity == "LOW" then 25.0
    else 10.0
  }

  function EventRisk(e: Event): real {
    SeverityRisk(e.severity)
  }

  function MaxRisk(events: seq<Event>): (r: real)
    ensures 0.0 <= r <= 100.0
  {
    if events == [] then 0.0
    else
      var rest := MaxRisk(events[..|events| - 1]);
      var last := EventRisk(events[|events| - 1]);
      if rest >= last then rest else last
  }

  function MinReal(a: real, b: real): real {
    if a <= b then a else b
  }

  /** The highest severity rank of a list, 0 when it is empty. */
  function TopRank(ds: seq<Detection>): (r: int)
    ensures 0 <= r <= 4 && (ds != [] ==> r >= 1)
  {
    if ds == [] then 0
    else Max(TopRank(ds[..|ds| - 1]), Rank(ds[|ds| - 1].severity))
  }

  lemma {:induction false} TopRankBounds(ds: seq<Detection>, d: Detection)
    requires d in ds
    ensures Rank(d.severity) <= TopRank(ds)
  {
    if d == ds[|ds| - 1] {
    } else {
      TopRankBounds(ds[..|ds| - 1], d);
    }
  }

  lemma {:induction false} TopRankOfSubset(ds: seq<Detection>, es: seq<Detection>)
    requires forall i | 0 <= i < |ds| :: ds[i] in es
    ensures TopRank(ds) <= TopRank(es)
  {
    if ds == [] {
    } else {
      TopRankOfSubset(ds[..|ds| - 1], es);
      TopRankBounds(es, ds[|ds| - 1]);
    }
  }

  /** The rank the events alone ask for. */
  function RiskRank(maxRisk: real): int {
    if maxRisk >= 80.0 then 4 else if maxRisk >= 55.0 then 3 else 0
  }

  function IncidentSeverity(ds: seq<Detection>, maxRisk: real): Severity {
    OfRank(Max(1, Max(TopRank(ds), RiskRank(maxRisk))))
  }

  /** An incident is at least as severe as each of its detections. */
  lemma SeverityCovers(ds: seq<Detection>, maxRisk: real, d: Detection)
    requires d in ds
    ensures Rank(IncidentSeverity(ds, maxRisk)) >= Rank(d.severity)
  {
    TopRankBounds(ds, d);
  }

  /** Severity is recomputed from this cycle's events, not kept: adding
      detections lowers it exactly when the earlier events outrank every linked
      detection and this cycle's events. */
  lemma SeverityDropsIff(ds: seq<Detection>, more: seq<Detection>, risk0: real, risk1: real)
    ensures Rank(IncidentSeverity(ds + more, risk1)) < Rank(IncidentSeverity(ds, risk0)) <==>
      RiskRank(risk0) > Max(1, TopRank(ds + more)) && RiskRank(risk0) > RiskRank(risk1)
  {
    TopRankOfSubset(ds, ds + more);
  }

  // ── Risk score ───────────────────────────────────────────────────────────

  /** Nearest integer, ties to even. */
  function RoundEven(x: real): int {
    var f := x.Floor;
    var frac := x - f as real;
    if frac < 0.5 then f
    else if frac > 0.5 then f + 1
    else if f % 2 == 0 then f else f + 1
  }

  function Round1(x: real): real {
    RoundEven(x * 10.0) as real / 10.0
  }

  function Round2(x: real): real {
    RoundEven(x * 100.0) as real / 100.0
  }

  lemma RoundEvenMonotone(x: real, y: real)
    requires x <= y
    ensures RoundEven(x) <= RoundEven(y)
  {
    assert x.Floor <= y.Floor;
  }

  lemma Round1Monotone(x: real, y: real)
    requires x <= y
    ensures Round1(x) <= Round1(y)
  {
    RoundEvenMonotone(x * 10.0, y * 10.0);
  }

  /** Distinct technique ids. */
  function IdSet(techniques: seq<string>): set<string> {
    set i | 0 <= i < |techniques| :: techniques[i]
  }

  /** The score before rounding. */
  function RawRisk(ds: seq<Detection>, techniques: seq<string>, maxRisk: real, sessions: nat, malware: bool): real {
    var severity := Max(1, TopRank(ds)) * 18;
    var count := if |ds| * 6 <= 24 then |ds| * 6 else 24;
    var unique := |IdSet(techniques)|;
    var technique := if unique * 5 <= 20 then unique * 5 else 20;
    var event := MinReal(maxRisk * 0.15, 15.0);
    var session := MinReal(sessions as real * 0.2, 10.0);
    var hash := if malware then 20 else 0;
    MinReal(100.0, (severity + count + technique + hash) as real + event + session)
  }

  function IncidentRisk(ds: seq<Detection>, techniques: seq<string>, maxRisk: real, sessions: nat, malware: bool): real {
    Round1(RawRisk(ds, techniques, maxRisk, sessions, malware))
  }

  lemma SubsetCard(a: set<string>, b: set<string>)
    requires a <= b
    ensures |a| <= |b|
  {
    assert b == a + (b - a);
  }

  /** More detections, more techniques, a higher event risk, more session events
      or a newly linked sample never lower the printed score. */
  lemma RiskMonotone(ds: seq<Detection>, ts: seq<string>, r: real, n: nat, m: bool,
                     ds': seq<Detection>, ts': seq<string>, r': real, n': nat, m': bool)
    requires |ds| <= |ds'| && forall i | 0 <= i < |ds| :: ds[i] in ds'
    requires IdSet(ts) <= IdSet(ts')
    requires r <= r' && n <= n' && (m ==> m')
    ensures IncidentRisk(ds, ts, r, n, m) <= IncidentRisk(ds', ts', r', n', m')
  {
    TopRankOfSubset(ds, ds');
    SubsetCard(IdSet(ts), IdSet(ts'));
    Round1Monotone(RawRisk(ds, ts, r, n, m), RawRisk(ds', ts', r', n', m'));
  }

  /** The printed score always lies between 18 and 100. */
  lemma RiskBounds(ds: seq<Detection>, ts: seq<string>, r: real, n: nat, m: bool)
    requires r >= 0.0
    ensures 18.0 <= IncidentRisk(ds, ts, r, n, m) <= 100.0
  {
    var raw := RawRisk(ds, ts, r, n, m);
    assert 18.0 <= raw <= 100.0;
    Round1Monotone(18.0, raw);
    Round1Monotone(raw, 100.0);
    assert Round1(18.0) == 18.0 && Round1(100.0) == 100.0;
  }

  // ── What each part of the score is worth ─────────────────────────────────

  /** `r` is the rank of the severest of the detections, 1 when there are none. */
  ghost predicate TopIs(ds: seq<Detection>, r: int) {
    1 <= r && (forall d | d in ds :: Rank(d.severity) <= r) && (r == 1 || exists d :: d in ds && Rank(d.severity) == r)
  }

  lemma {:induction false} TopRankAttained(ds: seq<Detection>)
    ensures ds != [] ==> exists d :: d in ds && Rank(d.severity) == TopRank(ds)
  {
    if ds == [] {
    } else {
      var rest, last := ds[..|ds| - 1], ds[|ds| - 1];
      assert ds == rest + [last] && last in ds;
      TopRankAttained(rest);
      if rest != [] && TopRank(rest) > Rank(last.severity) {
        var d :| d in rest && Rank(d.severity) == TopRank(rest);
        assert d in ds && Rank(d.severity) == TopRank(ds);
      } else {
        assert TopRank([]) == 0;
        assert Rank(last.severity) == TopRank(ds);
      }
    }
  }

  lemma TopIsTop(ds: seq<Detection>, r: int)
    requires TopIs(ds, r)
    ensures Max(1, TopRank(ds)) == r
  {
    TopRankAttained(ds);
    forall d | d in ds
      ensures Rank(d.severity) <= TopRank(ds)
    {
      TopRankBounds(ds, d);
    }
  }

  lemma FloorShift(x: real, n: int)
    ensures (x + n as real).Floor == x.Floor + n
  {
  }

  lemma RoundEvenShift(x: real, n: int)
    requires n % 2 == 0
    ensures RoundEven(x + n as real) == RoundEven(x) + n
  {
    FloorShift(x, n);
    assert x + n as real - (x.Floor + n) as real == x - x.Floor as real;
  }

  lemma Tenfold(x: real, n: int)
    ensures (x + n as real) * 10.0 == x * 10.0 + (10 * n) as real
  {
    assert (10 * n) as real == 10.0 * n as real;
  }

  lemma Tenths(k: int, n: int)
    ensures (k + 10 * n) as real / 10.0 == k as real / 10.0 + n as real
  {
    assert (k + 10 * n) as real == k as real + 10.0 * n as real;
  }

  lemma EvenTens(n: int)
    ensures 10 * n % 2 == 0
  {
    assert 10 * n == 2 * (5 * n);
  }

  /** Whole points move the printed score by themselves. */
  lemma RoundShift(x: real, n: int)
    ensures Round1(x + n as real) == Round1(x) + n as real
  {
    var y, k := x * 10.0, RoundEven(x * 10.0);
    Tenfold(x, n);
    EvenTens(n);
    RoundEvenShift(y, 10 * n);
    hide RoundEven;
    assert RoundEven((x + n as real) * 10.0) == k + 10 * n;
    assert Round1(x + n as real) == (k + 10 * n) as real / 10.0;
    assert Round1(x) == k as real / 10.0;
    hide Round1;
    Tenths(k, n);
  }

  /** Points added to an uncapped sum show in full, up to a hundred. */
  lemma PointsShow(x: real, n: nat)
    ensures Round1(MinReal(100.0, x + n as real)) == MinReal(100.0, Round1(MinReal(100.0, x)) + n as real)
  {
    RoundShift(100.0 - 100.0, 100);
    assert Round1(100.0) == 100.0;
    if x >= 100.0 {
    } else if x + n as real <= 100.0 {
      RoundShift(x, n);
      Round1Monotone(x + n as real, 100.0);
    } else {
      RoundShift(x, n);
      Round1Monotone(100.0, x + n as real);
    }
  }

  /** With nothing but the lowest severity the score is 18. */
  lemma BaseScore()
    ensures IncidentRisk([], [], 0.0, 0, false) == 18.0
  {
    assert IdSet([]) == {};
    RoundShift(0.0, 18);
    assert Round1(0.0) == 0.0;
  }

  /** The points before the cap at 100. */
  ghost function Uncapped(ds: seq<Detection>, ts: seq<string>, r: real, n: nat, m: bool): real {
    (Max(1, TopRank(ds)) * 18 + (if |ds| * 6 <= 24 then |ds| * 6 else 24)
     + (if |IdSet(ts)| * 5 <= 20 then |IdSet(ts)| * 5 else 20) + if m then 20 else 0) as real
    + MinReal(r * 0.15, 15.0) + MinReal(n as real * 0.2, 10.0)
  }

  lemma ShownIs(ds: seq<Detection>, ts: seq<string>, r: real, n: nat, m: bool)
    ensures IncidentRisk(ds, ts, r, n, m) == Round1(MinReal(100.0, Uncapped(ds, ts, r, n, m)))
  {
  }

  /** One more detection that is no severer adds exactly 6 points up to the
      fourth and nothing beyond, until 100 is reached. */
  lemma DetectionAddsSix(ds: seq<Detection>, d: Detection, ts: seq<string>, r: real, n: nat, m: bool)
    requires Rank(d.severity) == 1 || exists e :: e in ds && Rank(d.severity) <= Rank(e.severity)
    ensures IncidentRisk(ds + [d], ts, r, n, m)
      == MinReal(100.0, IncidentRisk(ds, ts, r, n, m) + if |ds| < 4 then 6.0 else 0.0)
  {
    assert (ds + [d])[..|ds|] == ds;
    forall e | e in ds
      ensures Rank(e.severity) <= TopRank(ds)
    {
      TopRankBounds(ds, e);
    }
    var x := Uncapped(ds, ts, r, n, m);
    PointsShow(x, if |ds| < 4 then 6 else 0);
    assert Uncapped(ds + [d], ts, r, n, m) == x + if |ds| < 4 then 6.0 else 0.0;
    ShownIs(ds, ts, r, n, m);
    ShownIs(ds + [d], ts, r, n, m);
  }

  /** Each rank of the severest detection is worth 18 points. */
  lemma RankAddsEighteen(ds: seq<Detection>, es: seq<Detection>, low: int, high: int, ts: seq<string>, r: real, n: nat, m: bool)
    requires |es| == |ds| && TopIs(ds, low) && TopIs(es, high) && low <= high
    ensures IncidentRisk(es, ts, r, n, m)
      == MinReal(100.0, IncidentRisk(ds, ts, r, n, m) + (18 * (high - low)) as real)
  {
    TopIsTop(ds, low);
    TopIsTop(es, high);
    var x := Uncapped(ds, ts, r, n, m);
    PointsShow(x, 18 * (high - low));
    assert Uncapped(es, ts, r, n, m) == x + (18 * (high - low)) as real;
    ShownIs(ds, ts, r, n, m);
    ShownIs(es, ts, r, n, m);
  }

  /** A technique not seen before adds 5 points up to the fourth. */
  lemma TechniqueAddsFive(ds: seq<Detection>, ts: seq<string>, more: seq<string>, id: string, r: real, n: nat, m: bool)
    requires id !in ts && forall x :: x in more <==> x in ts || x == id
    ensures IncidentRisk(ds, more, r, n, m)
      == MinReal(100.0, IncidentRisk(ds, ts, r, n, m) + if |set x | x in ts| < 4 then 5.0 else 0.0)
  {
    assert IdSet(ts) == set x | x in ts;
    assert IdSet(more) == IdSet(ts) + {id};
    var x := Uncapped(ds, ts, r, n, m);
    PointsShow(x, if |IdSet(ts)| < 4 then 5 else 0);
    assert Uncapped(ds, more, r, n, m) == x + if |IdSet(ts)| < 4 then 5.0 else 0.0;
    ShownIs(ds, ts, r, n, m);
    ShownIs(ds, more, r, n, m);
  }

  /** A linked sample adds 20 points. */
  lemma MalwareAddsTwenty(ds: seq<Detection>, ts: seq<string>, r: real, n: nat)
    ensures IncidentRisk(ds, ts, r, n, true) == MinReal(100.0, IncidentRisk(ds, ts, r, n, false) + 20.0)
  {
    var x := Uncapped(ds, ts, r, n, false);
    PointsShow(x, 20);
    assert Uncapped(ds, ts, r, n, true) == x + 20.0;
    ShownIs(ds, ts, r, n, false);
    ShownIs(ds, ts, r, n, true);
  }

  /** Without events the score is a whole number. */
  lemma WholeScore(ds: seq<Detection>, ts: seq<string>, m: bool)
    ensures IncidentRisk(ds, ts, 0.0, 0, m) == MinReal(100.0, Uncapped(ds, ts, 0.0, 0, m))
  {
    var k := Max(1, TopRank(ds)) * 18 + (if |ds| * 6 <= 24 then |ds| * 6 else 24)
      + (if |IdSet(ts)| * 5 <= 20 then |IdSet(ts)| * 5 else 20) + if m then 20 else 0;
    assert Uncapped(ds, ts, 0.0, 0, m) == k as real;
    RoundShift(0.0, k);
    RoundShift(0.0, 100);
    assert Round1(0.0) == 0.0 && 0.0 + k as real == k as real;
    ShownIs(ds, ts, 0.0, 0, m);
  }

  /** Event risk adds 0.15 a point, up to 15, and session events 0.2 each, up to
      10; the sum is capped at 100 and printed to the nearest tenth. */
  lemma EventsAdd(ds: seq<Detection>, ts: seq<string>, r: real, n: nat, m: bool)
    requires r >= 0.0
    ensures IncidentRisk(ds, ts, r, n, m) == Round1(MinReal(100.0, IncidentRisk(ds, ts, 0.0, 0, m)
      + (if r <= 100.0 then r * 0.15 else 15.0) + (if n <= 50 then n as real * 0.2 else 10.0)))
  {
    var whole := Uncapped(ds, ts, 0.0, 0, m);
    ShownIs(ds, ts, 0.0, 0, m);
    ShownIs(ds, ts, r, n, m);
    WholeScore(ds, ts, m);
    var extra := (if r <= 100.0 then r * 0.15 else 15.0) + (if n <= 50 then n as real * 0.2 else 10.0);
    assert Uncapped(ds, ts, r, n, m) == whole + extra;
    RoundShift(0.0, 100);
    assert Round1(0.0) == 0.0 && Round1(100.0) == 100.0;
  }

  ghost predicate NearestWhole(x: real, k: int) {
    -0.5 <= x - k as real <= 0.5 && ((x - k as real == 0.5 || x - k as real == -0.5) ==> k % 2 == 0)
  }

  lemma RoundEvenNearest(x: real)
    ensures NearestWhole(x, RoundEven(x))
  {
    assert x.Floor as real <= x < (x.Floor + 1) as real;
  }

  /** `Round1` is the nearest tenth, an even number of tenths when two are equally
      near; `Round2` likewise the nearest hundredth. */
  lemma RoundsToNearest(x: real) returns (tenths: int, hundredths: int)
    ensures Round1(x) == tenths as real / 10.0 && NearestWhole(x * 10.0, tenths)
    ensures Round2(x) == hundredths as real / 100.0 && NearestWhole(x * 100.0, hundredths)
  {
    hide RoundEven, NearestWhole;
    tenths, hundredths := RoundEven(x * 10.0), RoundEven(x * 100.0);
    RoundEvenNearest(x * 10.0);
    RoundEvenNearest(x * 100.0);
  }

  // ── Severity and confidence, rank by rank ────────────────────────────────

  /** The severity of an incident, exactly. */
  lemma SeverityIff(ds: seq<Detection>, maxRisk: real)
    ensures var s := IncidentSeverity(ds, maxRisk);
      var critical := maxRisk >= 80.0 || exists d :: d in ds && d.severity == CRITICAL;
      var high := maxRisk >= 55.0 || exists d :: d in ds && d.severity == HIGH;
      var medium := exists d :: d in ds && d.severity == MEDIUM;
      && (s == CRITICAL <==> critical)
      && (s == HIGH <==> !critical && high)
      && (s == MEDIUM <==> !critical && !high && medium)
      && (s == LOW <==> !critical && !high && !medium)
  {
    TopRankAttained(ds);
    forall d | d in ds
      ensures Rank(d.severity) <= TopRank(ds)
    {
      TopRankBounds(ds, d);
    }
    if ds != [] {
      var d :| d in ds && Rank(d.severity) == TopRank(ds);
    }
  }

  /** An event counts as high-risk exactly when its severity is HIGH or CRITICAL;
      no event's risk falls into the band from 55 to 80. */
  lemma HighRiskIff(e: Event)
    ensures EventRisk(e) >= 80.0 <==> e.severity == "HIGH" || e.severity == "CRITICAL"
    ensures EventRisk(e) < 55.0 || EventRisk(e) >= 80.0
    ensures e.severity == "CRITICAL" ==> EventRisk(e) == 95.0
    ensures e.severity == "HIGH" ==> EventRisk(e) == 80.0
    ensures e.severity == "MEDIUM" ==> EventRisk(e) == 50.0
    ensures e.severity == "LOW" ==> EventRisk(e) == 25.0
    ensures e.severity !in {"LOW", "MEDIUM", "HIGH", "CRITICAL"} ==> EventRisk(e) == 10.0
  {
  }

  lemma RiskPositive(e: Event)
    ensures EventRisk(e) > 0.0
  {
  }

  lemma {:induction false} MaxRiskIs(es: seq<Event>)
    ensures es == [] ==> MaxRisk(es) == 0.0
    ensures forall e | e in es :: EventRisk(e) <= MaxRisk(es)
    ensures es != [] ==> exists e :: e in es && EventRisk(e) == MaxRisk(es)
  {
    hide EventRisk;
    if es == [] {
    } else {
      var rest, last := es[..|es| - 1], es[|es| - 1];
      assert es == rest + [last] && last in es;
      MaxRiskIs(rest);
      RiskPositive(last);
    }
  }

  /** `c` is the greatest confidence among the detections. */
  ghost predicate Surest(ds: seq<Detection>, c: real) {
    (forall d | d in ds :: d.confidence <= c) && exists d :: d in ds && d.confidence == c
  }

  function MaxConfidence(ds: seq<Detection>): real {
    if ds == [] then 0.4
    else if |ds| == 1 then ds[0].confidence
    else
      var rest := MaxConfidence(ds[..|ds| - 1]);
      var last := ds[|ds| - 1].confidence;
      if rest >= last then rest else last
  }

  function IncidentConfidence(ds: seq<Detection>): real {
    Round2(MinReal(0.99, MaxConfidence(ds) + 0.05 * (|ds| - 1) as real))
  }

  lemma {:induction false} MaxConfidenceIs(ds: seq<Detection>)
    requires ds != []
    ensures Surest(ds, MaxConfidence(ds))
  {
    var rest, last := ds[..|ds| - 1], ds[|ds| - 1];
    assert ds == rest + [last] && last in ds;
    if rest == [] {
      assert ds[0] == last;
    } else {
      MaxConfidenceIs(rest);
    }
  }

  function AtMost(limit: real, x: real): real {
    if x <= limit then x else limit
  }

  /** The printed confidence: the greatest of the detections', 0.05 more for each
      further one, at most 0.99; without any it is 0.35. */
  lemma ConfidenceIs(ds: seq<Detection>, c: real)
    ensures Surest(ds, c) ==> IncidentConfidence(ds) == Round2(AtMost(0.99, c + 0.05 * (|ds| - 1) as real))
    ensures ds == [] ==> IncidentConfidence(ds) == 0.35
  {
    if ds == [] {
      assert MaxConfidence(ds) + 0.05 * (|ds| - 1) as real == 0.35;
      assert (0.35 * 100.0) == 35.0 && RoundEven(35.0) == 35;
    } else {
      MaxConfidenceIs(ds);
    }
  }
}
