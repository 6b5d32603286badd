/** The log classifier: signature hits, plus three sliding windows over a
    per-source history that is pruned to the last minute. */
module Classifier {
  import opened Collections
  import opened Model

  /** Regular expressions are not interpreted: a payload is known by the
      signatures it matches. */
  datatype Attack =
    | SqlInjection | Xss | PathTraversal | CommandInjection | SshBruteForce
    | Ddos | NmapScan | BruteForce

  const SIGNATURES: seq<Attack> := [SqlInjection, Xss, PathTraversal, CommandInjection, SshBruteForce]

  const PORT_SCAN_THRESHOLD := 5
  const PORT_SCAN_WINDOW := 10 * SECOND
  const DDOS_THRESHOLD := 20
  const DDOS_WINDOW := 5 * SECOND
  const BRUTE_FORCE_THRESHOLD := 5
  const BRUTE_FORCE_WINDOW := 60 * SECOND

  /** `port` 0 stands for no port, which the port scan test ignores as well. */
  datatype Record = Record(time: int, port: int, hits: set<Attack>)

  function Within(now: int, window: int): Record -> bool {
    (r: Record) => now - r.time < window
  }

  function FailedWithin(now: int, window: int): Record -> bool {
    (r: Record) => now - r.time < window && SshBruteForce in r.hits
  }

  function Ports(rs: seq<Record>): set<int> {
    set r | r in rs && r.port != 0 :: r.port
  }

  /** The behavioural verdict on a history, first match wins. */
  function Verdict(history: seq<Record>, now: int): Option<Attack> {
    if |Filter(history, Within(now, DDOS_WINDOW))| > DDOS_THRESHOLD then Some(Ddos)
    else if |Ports(Filter(history, Within(now, PORT_SCAN_WINDOW)))| > PORT_SCAN_THRESHOLD then Some(NmapScan)
    else if |Filter(history, FailedWithin(now, BRUTE_FORCE_WINDOW))| > BRUTE_FORCE_THRESHOLD then Some(BruteForce)
    else None
  }

  // ── Runs ─────────────────────────────────────────────────────────────────

  /** One `analyze_log` call with its three clock readings. An empty `ip` means
      none was given. */
  datatype Call = Call(ip: string, port: int, hits: set<Attack>, appended: int, cleaned: int, judged: int)

  /** The clock never goes back, within a call or from one to the next. */
  ghost predicate Monotone(calls: seq<Call>) {
    && (forall i | 0 <= i < |calls| :: calls[i].appended <= calls[i].cleaned <= calls[i].judged)
    && (forall i, j | 0 <= i < j < |calls| :: calls[i].judged <= calls[j].appended)
  }

  function RecordFor(c: Call): Record {
    Record(c.appended, c.port, c.hits)
  }

  type History = map<string, seq<Record>>

  function Get(h: History, ip: string): seq<Record> {
    if ip in h then h[ip] else []
  }

  /** Append, then drop what is a minute old; an empty history is deleted. */
  function Update(h: History, c: Call): History {
    if c.ip == "" then h
    else
      var kept := Filter(Get(h, c.ip) + [RecordFor(c)], Within(c.cleaned, BRUTE_FORCE_WINDOW));
      if kept == [] then h - {c.ip} else h[c.ip := kept]
  }

  function HistoryAfter(calls: seq<Call>): History {
    if calls == [] then map[] else Update(HistoryAfter(calls[..|calls| - 1]), calls[|calls| - 1])
  }

  /** Every record of a source, never pruned. */
  function RecordsOf(calls: seq<Call>, ip: string): seq<Record> {
    if calls == [] || ip == "" then []
    else
      var c := calls[|calls| - 1];
      RecordsOf(calls[..|calls| - 1], ip) + if c.ip == ip then [RecordFor(c)] else []
  }

  /** The pruned history is the full one seen through the window of the source's
      last clean-up. */
  ghost predicate PrunedAt(h: seq<Record>, full: seq<Record>, cleaned: int) {
    h == Filter(full, Within(cleaned, BRUTE_FORCE_WINDOW))
  }

  lemma PruneMore(h: seq<Record>, full: seq<Record>, r: Record, before: int, now: int)
    requires PrunedAt(h, full, before) && before <= now
    ensures PrunedAt(Filter(h + [r], Within(now, BRUTE_FORCE_WINDOW)), full + [r], now)
  {
    var p, q := Within(before, BRUTE_FORCE_WINDOW), Within(now, BRUTE_FORCE_WINDOW);
    FilterConcat(h, [r], q);
    FilterConcat(full, [r], q);
    FilterTwice(full, p, q);
  }

  /** When the history of `ip` was last cleaned up. */
  function LastCleaned(calls: seq<Call>, ip: string): (r: Option<int>)
    ensures r.Some? ==> exists i :: 0 <= i < |calls| && calls[i].cleaned == r.value
  {
    if calls == [] then None
    else
      var n := |calls| - 1;
      if calls[n].ip == ip != "" then Some(calls[n].cleaned)
      else
        var r := LastCleaned(calls[..n], ip);
        assert r.Some? ==> exists i :: 0 <= i < n && calls[..n][i].cleaned == r.value == calls[i].cleaned;
        r
  }

  lemma PruneFirst(r: Record, now: int)
    ensures PrunedAt(Filter([] + [r], Within(now, BRUTE_FORCE_WINDOW)), [] + [r], now)
  {
  }

  lemma UpdateKeeps(h: History, c: Call)
    requires c.ip != ""
    ensures Get(Update(h, c), c.ip) == Filter(Get(h, c.ip) + [RecordFor(c)], Within(c.cleaned, BRUTE_FORCE_WINDOW))
  {
  }

  lemma UpdateOthers(h: History, c: Call, ip: string)
    requires ip != c.ip || ip == ""
    ensures Get(Update(h, c), ip) == Get(h, ip)
  {
  }

  lemma {:induction false} HistoryIsPruned(calls: seq<Call>, ip: string)
    requires Monotone(calls)
    ensures match LastCleaned(calls, ip)
      case None => RecordsOf(calls, ip) == [] && Get(HistoryAfter(calls), ip) == []
      case Some(t) => PrunedAt(Get(HistoryAfter(calls), ip), RecordsOf(calls, ip), t)
  {
    hide PrunedAt, Within;
    if calls == [] {
    } else {
      var n := |calls| - 1;
      var c := calls[n];
      HistoryIsPruned(calls[..n], ip);
      var h, full := HistoryAfter(calls[..n]), RecordsOf(calls[..n], ip);
      if c.ip == ip != "" {
        match LastCleaned(calls[..n], ip) {
          case None => PruneFirst(RecordFor(c), c.cleaned);
          case Some(t) =>
            assert t <= c.cleaned;
            PruneMore(Get(h, ip), full, RecordFor(c), t, c.cleaned);
        }
        UpdateKeeps(h, c);
      } else {
        UpdateOthers(h, c, ip);
        assert full + [] == full;
      }
    }
  }

  /** A record inside a shorter window at a later time survived the pruning. */
  lemma WindowSurvives(h: seq<Record>, full: seq<Record>, cleaned: int, p: Record -> bool)
    requires PrunedAt(h, full, cleaned)
    requires forall r :: p(r) ==> Within(cleaned, BRUTE_FORCE_WINDOW)(r)
    ensures Filter(h, p) == Filter(full, p)
  {
    FilterTwice(full, Within(cleaned, BRUTE_FORCE_WINDOW), p);
  }

  /** Pruning never changes a verdict given no earlier than the pruning. */
  lemma PruningInvisible(h: seq<Record>, full: seq<Record>, cleaned: int, now: int)
    requires PrunedAt(h, full, cleaned) && cleaned <= now
    ensures Verdict(h, now) == Verdict(full, now)
  {
    WindowSurvives(h, full, cleaned, Within(now, DDOS_WINDOW));
    WindowSurvives(h, full, cleaned, Within(now, PORT_SCAN_WINDOW));
    WindowSurvives(h, full, cleaned, FailedWithin(now, BRUTE_FORCE_WINDOW));
  }

  /** On any run with a monotone clock, the verdict of the last call is the one
      the full, never-pruned history gives. */
  lemma {:induction false} RunVerdictIsFullVerdict(calls: seq<Call>)
    requires Monotone(calls) && calls != [] && calls[|calls| - 1].ip != ""
    ensures var c := calls[|calls| - 1];
      Verdict(Get(HistoryAfter(calls), c.ip), c.judged) == Verdict(RecordsOf(calls, c.ip), c.judged)
  {
    hide Verdict, HistoryAfter, RecordsOf;
    var c := calls[|calls| - 1];
    HistoryIsPruned(calls, c.ip);
    PruningInvisible(Get(HistoryAfter(calls), c.ip), RecordsOf(calls, c.ip), c.cleaned, c.judged);
  }

  // ── What the verdict says, over the calls themselves ─────────────────────

  /** The calls of a source that were noted less than `age` before `now`. */
  ghost function CallsSince(calls: seq<Call>, ip: string, now: int, age: int): set<nat> {
    set i: nat | i < |calls| && calls[i].ip == ip && now - calls[i].appended < age
  }

  /** More than 20 calls in the last five seconds. */
  ghost predicate Floods(calls: seq<Call>, ip: string, now: int) {
    |CallsSince(calls, ip, now, 5_000_000)| > 20
  }

  /** At least six different ports, other than none, in the last ten seconds. */
  ghost predicate Scans(calls: seq<Call>, ip: string, now: int) {
    |set i: nat | i in CallsSince(calls, ip, now, 10_000_000) && calls[i].port != 0 :: calls[i].port| >= 6
  }

  /** More than five failed logins in the last minute. */
  ghost predicate Guesses(calls: seq<Call>, ip: string, now: int) {
    |set i: nat | i in CallsSince(calls, ip, now, 60_000_000) && SshBruteForce in calls[i].hits| > 5
  }

  /** The answer the calls of a source ask for, the first that applies. */
  ghost predicate Answers(v: Option<Attack>, calls: seq<Call>, ip: string, now: int) {
    && (v == Some(Ddos) <==> Floods(calls, ip, now))
    && (v == Some(NmapScan) <==> !Floods(calls, ip, now) && Scans(calls, ip, now))
    && (v == Some(BruteForce) <==> !Floods(calls, ip, now) && !Scans(calls, ip, now) && Guesses(calls, ip, now))
    && (v == None <==> !Floods(calls, ip, now) && !Scans(calls, ip, now) && !Guesses(calls, ip, now))
  }

  /** The calls of a source whose record satisfies `p`. */
  ghost function CallsWith(calls: seq<Call>, ip: string, p: Record -> bool): set<nat> {
    set i: nat | i < |calls| && calls[i].ip == ip && p(Record(calls[i].appended, calls[i].port, calls[i].hits))
  }

  lemma CallsSnoc(calls: seq<Call>, c: Call, ip: string, p: Record -> bool)
    ensures CallsWith(calls + [c], ip, p) ==
      CallsWith(calls, ip, p) + if c.ip == ip && p(Record(c.appended, c.port, c.hits)) then {|calls|} else {}
  {
  }

  lemma RecordsSnoc(calls: seq<Call>, c: Call, ip: string, p: Record -> bool)
    requires ip != ""
    ensures |Filter(RecordsOf(calls + [c], ip), p)| == |Filter(RecordsOf(calls, ip), p)|
      + if c.ip == ip && p(Record(c.appended, c.port, c.hits)) then 1 else 0
  {
    assert (calls + [c])[..|calls|] == calls;
    var rs := RecordsOf(calls, ip);
    assert RecordsOf(calls + [c], ip) == rs + if c.ip == ip then [RecordFor(c)] else [];
    if c.ip == ip {
      assert (rs + [RecordFor(c)])[..|rs|] == rs;
    } else {
      assert rs + [] == rs;
    }
  }

  /** Counting records is counting calls. */
  lemma {:induction false} RecordsCount(calls: seq<Call>, ip: string, p: Record -> bool)
    requires ip != ""
    ensures |Filter(RecordsOf(calls, ip), p)| == |CallsWith(calls, ip, p)|
  {
    if calls == [] {
    } else {
      var n := |calls| - 1;
      assert calls == calls[..n] + [calls[n]];
      RecordsCount(calls[..n], ip, p);
      RecordsSnoc(calls[..n], calls[n], ip, p);
      CallsSnoc(calls[..n], calls[n], ip, p);
    }
  }

  lemma {:induction false} RecordIn(calls: seq<Call>, ip: string, r: Record)
    requires ip != ""
    ensures r in RecordsOf(calls, ip) <==>
      exists i :: 0 <= i < |calls| && calls[i].ip == ip && r == Record(calls[i].appended, calls[i].port, calls[i].hits)
  {
    if calls == [] {
    } else {
      var n := |calls| - 1;
      RecordIn(calls[..n], ip, r);
      assert calls == calls[..n] + [calls[n]];
    }
  }

  lemma PortsSeen(calls: seq<Call>, ip: string, now: int)
    requires ip != ""
    ensures Ports(Filter(RecordsOf(calls, ip), Within(now, 10_000_000)))
      == set i: nat | i in CallsSince(calls, ip, now, 10_000_000) && calls[i].port != 0 :: calls[i].port
  {
    var kept := Filter(RecordsOf(calls, ip), Within(now, 10_000_000));
    var seen := set i: nat | i in CallsSince(calls, ip, now, 10_000_000) && calls[i].port != 0 :: calls[i].port;
    forall p
      ensures p in Ports(kept) <==> p in seen
    {
      if p in Ports(kept) {
        var r :| r in kept && r.port != 0 && r.port == p;
        FilterIn(RecordsOf(calls, ip), Within(now, 10_000_000), r);
        RecordIn(calls, ip, r);
        var i: nat :| i < |calls| && calls[i].ip == ip && r == Record(calls[i].appended, calls[i].port, calls[i].hits);
        assert i in CallsSince(calls, ip, now, 10_000_000);
      }
      if p in seen {
        var i: nat :| i in CallsSince(calls, ip, now, 10_000_000) && calls[i].port != 0 && calls[i].port == p;
        var r := Record(calls[i].appended, calls[i].port, calls[i].hits);
        RecordIn(calls, ip, r);
        FilterIn(RecordsOf(calls, ip), Within(now, 10_000_000), r);
      }
    }
  }

  lemma FloodIff(calls: seq<Call>, ip: string, now: int)
    requires ip != ""
    ensures |Filter(RecordsOf(calls, ip), Within(now, DDOS_WINDOW))| > DDOS_THRESHOLD <==> Floods(calls, ip, now)
  {
    RecordsCount(calls, ip, Within(now, DDOS_WINDOW));
    hide Filter, RecordsOf;
    assert CallsSince(calls, ip, now, 5_000_000) == CallsWith(calls, ip, Within(now, DDOS_WINDOW));
  }

  lemma GuessIff(calls: seq<Call>, ip: string, now: int)
    requires ip != ""
    ensures |Filter(RecordsOf(calls, ip), FailedWithin(now, BRUTE_FORCE_WINDOW))| > BRUTE_FORCE_THRESHOLD
      <==> Guesses(calls, ip, now)
  {
    RecordsCount(calls, ip, FailedWithin(now, BRUTE_FORCE_WINDOW));
    hide Filter, RecordsOf;
    assert (set i: nat | i in CallsSince(calls, ip, now, 60_000_000) && SshBruteForce in calls[i].hits)
      == CallsWith(calls, ip, FailedWithin(now, BRUTE_FORCE_WINDOW));
  }

  /** The verdict on the full record is the answer the calls ask for. */
  lemma VerdictAnswers(calls: seq<Call>, ip: string, now: int)
    requires ip != ""
    ensures Answers(Verdict(RecordsOf(calls, ip), now), calls, ip, now)
  {
    hide Filter, RecordsOf, Ports, CallsSince, Floods, Guesses;
    FloodIff(calls, ip, now);
    PortsSeen(calls, ip, now);
    GuessIff(calls, ip, now);
  }

  // ── The report ───────────────────────────────────────────────────────────

  datatype Grade = Info | Low | Medium | High | Critical

  function GradeRank(g: Grade): nat {
    match g case Info => 0 case Low => 1 case Medium => 2 case High => 3 case Critical => 4
  }

  function GradeOf(a: Attack): Grade {
    match a
    case SqlInjection => Critical
    case CommandInjection => Critical
    case Xss => High
    case SshBruteForce => High
    case PathTraversal => Medium
    case Ddos => Critical
    case NmapScan => High
    case BruteForce => High
  }

  /** None stands for NORMAL. */
  datatype Report = Report(attack: Option<Attack>, grade: Grade)

  function Hitting(hits: set<Attack>): Attack -> bool {
    (a: Attack) => a in hits
  }

  /** Everything detected, in the order it is added. */
  function Detected(hits: set<Attack>, behaviour: Option<Attack>): seq<Attack> {
    Filter(SIGNATURES, Hitting(hits)) + if behaviour == None then [] else [behaviour.value]
  }

  /** The last one added names the report and sets its grade. */
  ghost predicate Reports(r: Report, detected: seq<Attack>) {
    if detected == [] then r == Report(None, Info)
    else r == Report(Some(detected[|detected| - 1]), GradeOf(detected[|detected| - 1]))
  }

  /** A worse attack than the one reported was detected. */
  ghost predicate Understated(r: Report, detected: seq<Attack>) {
    exists a :: a in detected && GradeRank(GradeOf(a)) > GradeRank(r.grade)
  }

  predicate InDetected(a: Attack, hits: set<Attack>, behaviour: Option<Attack>) {
    (a in hits && a in {SqlInjection, Xss, PathTraversal, CommandInjection, SshBruteForce}) || behaviour == Some(a)
  }

  lemma InHits(a: Attack, hits: set<Attack>)
    ensures a in Filter(SIGNATURES, Hitting(hits)) <==>
      a in hits && a in {SqlInjection, Xss, PathTraversal, CommandInjection, SshBruteForce}
  {
    FilterIn(SIGNATURES, Hitting(hits), a);
    assert SIGNATURES[0] == SqlInjection && SIGNATURES[1] == Xss && SIGNATURES[2] == PathTraversal;
    assert SIGNATURES[3] == CommandInjection && SIGNATURES[4] == SshBruteForce;
  }

  function Only(a: Attack, hits: set<Attack>): seq<Attack> {
    if a in hits then [a] else []
  }

  lemma SignatureHits(hits: set<Attack>)
    ensures Filter(SIGNATURES, Hitting(hits)) ==
      Only(SqlInjection, hits) + Only(Xss, hits) + Only(PathTraversal, hits) + Only(CommandInjection, hits)
        + Only(SshBruteForce, hits)
  {
    var p := Hitting(hits);
    assert SIGNATURES[..5] == SIGNATURES && SIGNATURES[..0] == [];
    assert Filter([], p) == [];
    hide Filter;
    FilterSnoc(SIGNATURES, 0, p);
    assert Filter(SIGNATURES[..1], p) == Only(SqlInjection, hits);
    FilterSnoc(SIGNATURES, 1, p);
    assert Filter(SIGNATURES[..2], p) == Only(SqlInjection, hits) + Only(Xss, hits);
    FilterSnoc(SIGNATURES, 2, p);
    FilterSnoc(SIGNATURES, 3, p);
    FilterSnoc(SIGNATURES, 4, p);
  }

  /** The last signature that hit. */
  lemma LastSignature(hits: set<Attack>)
    ensures var f := Filter(SIGNATURES, Hitting(hits));
      if SshBruteForce in hits then f != [] && f[|f| - 1] == SshBruteForce
      else if CommandInjection in hits then f != [] && f[|f| - 1] == CommandInjection
      else if PathTraversal in hits then f != [] && f[|f| - 1] == PathTraversal
      else if Xss in hits then f != [] && f[|f| - 1] == Xss
      else if SqlInjection in hits then f != [] && f[|f| - 1] == SqlInjection
      else f == []
  {
    SignatureHits(hits);
    hide Filter;
  }

  /** The report names the last attack added, not the most severe one: exactly
      these combinations hide a more severe attack. */
  lemma UnderstatedIff(r: Report, hits: set<Attack>, behaviour: Option<Attack>)
    requires behaviour in {None, Some(Ddos), Some(NmapScan), Some(BruteForce)}
    requires Reports(r, Detected(hits, behaviour))
    ensures Understated(r, Detected(hits, behaviour)) <==>
      var critical := SqlInjection in hits || CommandInjection in hits;
      if behaviour == Some(Ddos) then false
      else if behaviour != None || SshBruteForce in hits then critical
      else if CommandInjection in hits then false
      else if PathTraversal in hits then SqlInjection in hits || Xss in hits
      else Xss in hits && SqlInjection in hits
  {
    LastSignature(hits);
    hide Filter;
    var d := Detected(hits, behaviour);
    if behaviour != None {
      assert d[|d| - 1] == behaviour.value;
    }
    forall a: Attack
      ensures a in d <==> InDetected(a, hits, behaviour)
    {
      InHits(a, hits);
    }
    assert SqlInjection in d <==> InDetected(SqlInjection, hits, behaviour);
    assert CommandInjection in d <==> InDetected(CommandInjection, hits, behaviour);
    assert Xss in d <==> InDetected(Xss, hits, behaviour);
  }

  /** The report in full: the behaviour the calls show outranks every signature,
      and of the signatures the last one listed names the report. */
  ghost predicate Tells(r: Report, calls: seq<Call>, ip: string, hits: set<Attack>, now: int) {
    r == if ip != "" && Floods(calls, ip, now) then Report(Some(Ddos), Critical)
         else if ip != "" && Scans(calls, ip, now) then Report(Some(NmapScan), High)
         else if ip != "" && Guesses(calls, ip, now) then Report(Some(BruteForce), High)
         else if SshBruteForce in hits then Report(Some(SshBruteForce), High)
         else if CommandInjection in hits then Report(Some(CommandInjection), Critical)
         else if PathTraversal in hits then Report(Some(PathTraversal), Medium)
         else if Xss in hits then Report(Some(Xss), High)
         else if SqlInjection in hits then Report(Some(SqlInjection), Critical)
         else Report(None, Info)
  }

  lemma ReportTells(r: Report, calls: seq<Call>, ip: string, hits: set<Attack>, now: int)
    requires Reports(r, Detected(hits, if ip == "" then None else Verdict(RecordsOf(calls, ip), now)))
    ensures Tells(r, calls, ip, hits, now)
  {
    hide Filter, RecordsOf, Verdict, Floods, Scans, Guesses;
    LastSignature(hits);
    if ip != "" {
      VerdictAnswers(calls, ip, now);
      var v := Verdict(RecordsOf(calls, ip), now);
      assert v != None ==> Detected(hits, v)[|Detected(hits, v)| - 1] == v.value;
    }
    assert Filter(SIGNATURES, Hitting(hits)) + [] == Filter(SIGNATURES, Hitting(hits));
  }

  /** The signature half of `analyze_log`. */
  method MatchSignatures(hits: set<Attack>) returns (detected: seq<Attack>, grade: Grade)
    ensures detected == Filter(SIGNATURES, Hitting(hits))
    ensures grade == if detected == [] then Low else GradeOf(detected[|detected| - 1])
  {
    detected, grade := [], Low;
    for i := 0 to |SIGNATURES|
      invariant detected == Filter(SIGNATURES[..i], Hitting(hits))
      invariant grade == if detected == [] then Low else GradeOf(detected[|detected| - 1])
    {
      FilterSnoc(SIGNATURES, i, Hitting(hits));
      var a := SIGNATURES[i];
      if a in hits {
        detected := detected + [a];
        if a == SqlInjection || a == CommandInjection {
          grade := Critical;
        } else if a == Xss || a == SshBruteForce {
          grade := High;
        } else {
          grade := Medium;
        }
      }
    }
    assert SIGNATURES[..|SIGNATURES|] == SIGNATURES;
  }

  lemma UpdateTwice(h: History, ip: string, a: seq<Record>, b: seq<Record>)
    ensures h[ip := a][ip := b] == h[ip := b] && h[ip := a] - {ip} == h - {ip}
  {
  }

  lemma VerdictKinds(history: seq<Record>, now: int)
    ensures Verdict(history, now) in {None, Some(Ddos), Some(NmapScan), Some(BruteForce)}
  {
  }

  class AIEngine {
    var history: History
    ghost var calls: seq<Call>

    ghost predicate Valid()
      reads this
    {
      Monotone(calls) && history == HistoryAfter(calls)
    }

    constructor ()
      ensures Valid() && calls == []
    {
      history, calls := map[], [];
    }

    method CleanupHistory(ip: string, now: int)
      requires ip in history
      modifies this`history
      ensures var kept := Filter(old(history)[ip], Within(now, BRUTE_FORCE_WINDOW));
        history == if kept == [] then old(history) - {ip} else old(history)[ip := kept]
    {
      history := history[ip := Filter(history[ip], Within(now, BRUTE_FORCE_WINDOW))];
      if history[ip] == [] {
        history := history - {ip};
      }
    }

    method DetectBehavioral(ip: string, now: int) returns (r: Option<Attack>)
      ensures r == Verdict(Get(history, ip), now)
      ensures Valid() && calls != [] && calls[|calls| - 1].ip == ip != "" && calls[|calls| - 1].judged == now ==>
        Answers(r, calls, ip, now)
    {
      hide Answers, Monotone;
      if Valid() && calls != [] && calls[|calls| - 1].ip == ip != "" && calls[|calls| - 1].judged == now {
        RunVerdictIsFullVerdict(calls);
        VerdictAnswers(calls, ip, now);
      }
      if ip !in history {
        return None;
      }
      var events := history[ip];
      if events == [] {
        return None;
      }
      if |Filter(events, Within(now, DDOS_WINDOW))| > DDOS_THRESHOLD {
        return Some(Ddos);
      }
      if |Ports(Filter(events, Within(now, PORT_SCAN_WINDOW)))| > PORT_SCAN_THRESHOLD {
        return Some(NmapScan);
      }
      if |Filter(events, FailedWithin(now, BRUTE_FORCE_WINDOW))| > BRUTE_FORCE_THRESHOLD {
        return Some(BruteForce);
      }
      return None;
    }

    /** The stateful half of `analyze_log`: note the record, clean up, judge. */
    method Observe(ghost call: Call, ip: string, port: int, hits: set<Attack>, appended: int, cleaned: int, judged: int)
      returns (behaviour: Option<Attack>)
      requires Valid() && call == Call(ip, port, hits, appended, cleaned, judged) && Monotone(calls + [call])
      requires ip != ""
      modifies this
      ensures Valid() && calls == old(calls) + [call]
      ensures behaviour == Verdict(RecordsOf(calls, ip), judged)
      ensures Answers(behaviour, calls, ip, judged)
    {
      hide Verdict, Monotone, RecordsOf, Filter, Get, Answers;
      assert (calls + [call])[..|calls|] == calls;
      calls := calls + [call];
      var noted := Get(history, ip) + [Record(appended, port, hits)];
      history := history[ip := noted];
      CleanupHistory(ip, cleaned);
      UpdateTwice(old(history), ip, noted, Filter(noted, Within(cleaned, BRUTE_FORCE_WINDOW)));
      RunVerdictIsFullVerdict(calls);
      behaviour := DetectBehavioral(ip, judged);
    }

    /** The report on a log line is the one its signatures and the source's full
        history call for, although only the last minute is kept. */
    method AnalyzeLog(ghost call: Call, ip: string, port: int, hits: set<Attack>, appended: int, cleaned: int, judged: int)
      returns (r: Report)
      requires Valid() && call == Call(ip, port, hits, appended, cleaned, judged) && Monotone(calls + [call])
      modifies this
      ensures Valid() && calls == old(calls) + [call]
      ensures Tells(r, calls, ip, hits, judged)
      ensures Reports(r, Detected(hits, if ip == "" then None else Verdict(RecordsOf(calls, ip), judged)))
    {
      hide Verdict, Monotone, RecordsOf, Filter, Answers, Tells;
      var detected, grade := MatchSignatures(hits);
      if ip != "" {
        var behaviour := Observe(call, ip, port, hits, appended, cleaned, judged);
        VerdictKinds(RecordsOf(calls, ip), judged);
        if behaviour != None {
          detected := detected + [behaviour.value];
          if behaviour.value == Ddos {
            grade := Critical;
          } else if behaviour.value == NmapScan || behaviour.value == BruteForce {
            grade := High;
          }
        }
      } else {
        assert (calls + [call])[..|calls|] == calls;
        calls := calls + [call];
      }
      if detected == [] {
        r := Report(None, Info);
      } else {
        r := Report(Some(detected[|detected| - 1]), grade);
      }
      ReportTells(r, calls, ip, hits, judged);
    }
  }
}
