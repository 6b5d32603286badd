/** The hourly limit on credential operations, enforced by counting the admin
    activity log before each operation. */
module RateLimit {
  import opened Collections
  import opened Model

  const ISSUE := "ISSUE_CREDENTIALS"
  const RESET := "RESET_PASSWORD"
  const RESEND := "RESEND_CREDENTIALS"
  const SUCCESS := "SUCCESS"
  const RATE_LIMITED := "RATE_LIMITED"

  datatype Row = Row(admin: string, action: string, result: string, time: int)

  /** The rows a check at `now` counts, whatever their result. */
  function Recent(admin: string, now: int): Row -> bool {
    (r: Row) => r.admin == admin && r.time >= now - HOUR && r.action in {ISSUE, RESET, RESEND}
  }

  predicate Allowed(limit: int, log: seq<Row>, admin: string, now: int) {
    |Filter(log, Recent(admin, now))| < limit
  }

  /** One request. `checked` and `written` are the clock when the limit is
      checked and when the row gets its default timestamp. A refused issue adds
      a row that lasts only if the caller commits (`kept`); the endpoint does
      not. `Other` is any row written elsewhere. */
  datatype Request =
    | Issue(admin: string, valid: bool, kept: bool, checked: int, written: int)
    | Resend(admin: string, found: bool, checked: int, written: int)
    | Other(row: Row)

  function Serve(limit: int, log: seq<Row>, q: Request): seq<Row> {
    match q
    case Issue(admin, valid, kept, checked, written) =>
      if !Allowed(limit, log, admin, checked) then
        if kept then log + [Row(admin, ISSUE, RATE_LIMITED, written)] else log
      else if valid then log + [Row(admin, ISSUE, SUCCESS, written)]
      else log
    case Resend(admin, found, checked, written) =>
      if found && Allowed(limit, log, admin, checked) then log + [Row(admin, RESEND, SUCCESS, written)] else log
    case Other(row) => log + [row]
  }

  function ServeAll(limit: int, qs: seq<Request>): seq<Row> {
    if qs == [] then [] else Serve(limit, ServeAll(limit, qs[..|qs| - 1]), qs[|qs| - 1])
  }

  predicate Completed(r: Row) {
    r.result == SUCCESS && r.action in {ISSUE, RESEND}
  }

  /** A row is stamped at most `slack` before the check that allowed it: 0 when
      the clock does not go back within a request and stamps are exact, less than
      a second when the column keeps whole seconds. Completed issue and resend
      rows are written by this service alone. */
  predicate Proper(q: Request, slack: nat) {
    match q
    case Issue(_, _, _, checked, written) => checked - slack <= written
    case Resend(_, _, checked, written) => checked - slack <= written
    case Other(row) => !Completed(row)
  }

  /** The admin's completed operations in a closed interval. */
  function DoneIn(admin: string, start: int, length: int): Row -> bool {
    (r: Row) => r.admin == admin && Completed(r) && start <= r.time <= start + length
  }

  lemma {:induction false} FilterWeaker(rs: seq<Row>, p: Row -> bool, q: Row -> bool)
    requires forall r | r in rs && p(r) :: q(r)
    ensures |Filter(rs, p)| <= |Filter(rs, q)|
  {
    if rs == [] {
    } else {
      assert rs == rs[..|rs| - 1] + [rs[|rs| - 1]];
      FilterWeaker(rs[..|rs| - 1], p, q);
    }
  }

  /** The step: an operation completed inside the interval was checked against
      every earlier one of that interval. */
  lemma ServeKeepsLimit(limit: int, log: seq<Row>, q: Request, slack: nat, admin: string, start: int)
    requires Proper(q, slack)
    requires |Filter(log, DoneIn(admin, start, HOUR - slack))| <= if limit > 0 then limit else 0
    ensures |Filter(Serve(limit, log, q), DoneIn(admin, start, HOUR - slack))| <= if limit > 0 then limit else 0
  {
    var p := DoneIn(admin, start, HOUR - slack);
    var after := Serve(limit, log, q);
    if after != log {
      var row := after[|log|];
      FilterConcat(log, [row], p);
      assert after == log + [row];
      if p(row) {
        var recent := Recent(admin, q.checked);
        FilterWeaker(log, p, recent);
      }
    }
  }

  /** Over any run, every closed interval one slack shorter than an hour holds at
      most `limit` completed issue and resend operations of one admin. */
  lemma {:induction false} EveryIntervalLimited(limit: int, qs: seq<Request>, slack: nat, admin: string, start: int)
    requires forall i | 0 <= i < |qs| :: Proper(qs[i], slack)
    ensures |Filter(ServeAll(limit, qs), DoneIn(admin, start, HOUR - slack))| <= if limit > 0 then limit else 0
  {
    if qs == [] {
    } else {
      EveryIntervalLimited(limit, qs[..|qs| - 1], slack, admin, start);
      ServeKeepsLimit(limit, ServeAll(limit, qs[..|qs| - 1]), qs[|qs| - 1], slack, admin, start);
    }
  }

  /** With exact stamps every closed hour holds at most `limit` of them, wherever
      the hour starts. */
  lemma EveryHourLimited(limit: int, qs: seq<Request>, admin: string, start: int)
    requires forall i | 0 <= i < |qs| :: Proper(qs[i], 0)
    ensures |Filter(ServeAll(limit, qs), DoneIn(admin, start, HOUR))| <= if limit > 0 then limit else 0
  {
    EveryIntervalLimited(limit, qs, 0, admin, start);
  }

  /** Whole-second stamps really cost that second: with a limit of one, two
      operations fit into one closed hour. */
  lemma TruncationOvershoots(admin: string)
    ensures var half := SECOND / 2;
      var qs := [Issue(admin, true, false, half, 0), Issue(admin, true, false, HOUR + half, HOUR)];
      && (forall i | 0 <= i < |qs| :: Proper(qs[i], half))
      && |Filter(ServeAll(1, qs), DoneIn(admin, 0, HOUR))| == 2
  {
    var half := SECOND / 2;
    var q1, q2 := Issue(admin, true, false, half, 0), Issue(admin, true, false, HOUR + half, HOUR);
    var r1, r2 := Row(admin, ISSUE, SUCCESS, 0), Row(admin, ISSUE, SUCCESS, HOUR);
    assert [q1, q2][..1] == [q1] && [q1][..0] == [];
    assert ServeAll(1, []) == [] && Filter([], Recent(admin, half)) == [];
    assert ServeAll(1, [q1]) == [] + [r1];
    assert [r1][..0] == [] && Filter([r1], Recent(admin, HOUR + half)) == [];
    assert ServeAll(1, [q1, q2]) == [r1] + [r2];
    FilterAll([r1, r2], DoneIn(admin, 0, HOUR));
  }

  // ── What the check counts, and that nothing else is in the way ───────────

  /** Whatever the log holds, the check refuses exactly when it has at least
      `limit` rows of the admin from the last hour, refusals and password resets
      included, of the three kinds of credential operation. */
  lemma RefusedIff(limit: int, log: seq<Row>, admin: string, now: int)
    ensures !Allowed(limit, log, admin, now) <==>
      |set i: nat | i < |log| && log[i].admin == admin && now - 3_600_000_000 <= log[i].time
        && log[i].action in {"ISSUE_CREDENTIALS", "RESET_PASSWORD", "RESEND_CREDENTIALS"}| >= limit
  {
    FilterPositions(log, Recent(admin, now));
    assert Positions(log, Recent(admin, now)) == set i: nat | i < |log| && log[i].admin == admin
      && now - 3_600_000_000 <= log[i].time && log[i].action in {"ISSUE_CREDENTIALS", "RESET_PASSWORD", "RESEND_CREDENTIALS"};
  }

  /** `n` valid requests of one admin at one instant. */
  function Burst(admin: string, n: nat, at: int): seq<Request> {
    seq(n, i => Issue(admin, true, false, at, at))
  }

  /** `n` completed requests of it. */
  function Completions(admin: string, n: nat, at: int): seq<Row> {
    seq(n, i => Row(admin, "ISSUE_CREDENTIALS", "SUCCESS", at))
  }

  lemma AllRecent(admin: string, n: nat, at: int)
    ensures |Filter(Completions(admin, n, at), Recent(admin, at))| == n
  {
    FilterAll(Completions(admin, n, at), Recent(admin, at));
  }

  /** The limit is reached, not just kept: of a burst exactly as many complete as
      the limit allows, each leaving its row. */
  lemma {:induction false} BurstCompletes(limit: nat, admin: string, n: nat, at: int)
    ensures ServeAll(limit, Burst(admin, n, at)) == Completions(admin, if n <= limit then n else limit, at)
  {
    hide Filter;
    if n == 0 {
    } else {
      BurstCompletes(limit, admin, n - 1, at);
      var qs := Burst(admin, n, at);
      assert qs[..|qs| - 1] == Burst(admin, n - 1, at);
      var done := if n - 1 <= limit then n - 1 else limit;
      AllRecent(admin, done, at);
      assert Completions(admin, done, at) + [Row(admin, "ISSUE_CREDENTIALS", "SUCCESS", at)] == Completions(admin, done + 1, at);
    }
  }

  // ── When an operation is refused ─────────────────────────────────────────

  /** Requests as the endpoints make them: a refusal leaves no row, and rows
      written elsewhere are of other kinds. */
  predicate ThroughEndpoint(q: Request) {
    match q
    case Issue(_, _, kept, _, _) => !kept
    case Resend(_, _, _, _) => true
    case Other(row) => row.action !in {ISSUE, RESET, RESEND}
  }

  function DoneSince(admin: string, start: int): Row -> bool {
    (r: Row) => r.admin == admin && Completed(r) && start <= r.time
  }

  lemma {:induction false} CountedAreCompleted(limit: int, qs: seq<Request>)
    requires forall i | 0 <= i < |qs| :: ThroughEndpoint(qs[i])
    ensures forall r | r in ServeAll(limit, qs) && r.action in {ISSUE, RESET, RESEND} :: Completed(r)
  {
    if qs == [] {
    } else {
      CountedAreCompleted(limit, qs[..|qs| - 1]);
    }
  }

  /** Through the endpoints the check refuses exactly when `limit` operations
      were completed in the hour before: refusals and failures cost nothing. */
  lemma {:induction false} RefusedIffBusy(limit: int, qs: seq<Request>, admin: string, now: int)
    requires forall i | 0 <= i < |qs| :: ThroughEndpoint(qs[i])
    ensures !Allowed(limit, ServeAll(limit, qs), admin, now)
      <==> |Filter(ServeAll(limit, qs), DoneSince(admin, now - HOUR))| >= limit
  {
    CountedAreCompleted(limit, qs);
    FilterSame(ServeAll(limit, qs), Recent(admin, now), DoneSince(admin, now - HOUR));
  }

  class CredentialService {
    const limit: int
    var log: seq<Row>

    constructor (limit: int)
      ensures log == [] && this.limit == limit
    {
      this.limit := limit;
      log := [];
    }

    method RateLimitCheck(admin: string, now: int) returns (allowed: bool)
      ensures allowed == Allowed(limit, log, admin, now)
    {
      var recent := Filter(log, Recent(admin, now));
      allowed := |recent| < limit;
    }

    method IssueCredentials(admin: string, valid: bool, kept: bool, checked: int, written: int) returns (success: bool)
      modifies this`log
      ensures log == Serve(limit, old(log), Issue(admin, valid, kept, checked, written))
      ensures success == (Allowed(limit, old(log), admin, checked) && valid)
      ensures success ==> log == old(log) + [Row(admin, "ISSUE_CREDENTIALS", "SUCCESS", written)]
      ensures !Allowed(limit, old(log), admin, checked) ==>
        log == old(log) + if kept then [Row(admin, "ISSUE_CREDENTIALS", "RATE_LIMITED", written)] else []
      ensures Allowed(limit, old(log), admin, checked) && !valid ==> log == old(log)
    {
      hide Allowed;
      var allowed := RateLimitCheck(admin, checked);
      if !allowed {
        if kept {
          log := log + [Row(admin, ISSUE, RATE_LIMITED, written)];
        }
        return false;
      }
      if !valid {
        return false;
      }
      log := log + [Row(admin, ISSUE, SUCCESS, written)];
      success := true;
    }

    method ResendCredentials(admin: string, found: bool, checked: int, written: int) returns (success: bool)
      modifies this`log
      ensures log == Serve(limit, old(log), Resend(admin, found, checked, written))
      ensures success == (found && Allowed(limit, old(log), admin, checked))
      ensures log == old(log) + if success then [Row(admin, "RESEND_CREDENTIALS", "SUCCESS", written)] else []
    {
      hide Allowed;
      if !found {
        return false;
      }
      var allowed := RateLimitCheck(admin, checked);
      if !allowed {
        return false;
      }
      log := log + [Row(admin, RESEND, SUCCESS, written)];
      success := true;
    }
  }
}
