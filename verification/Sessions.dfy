/** Gap-based sessions, built batch by batch, against a single offline pass. */
module Sessions {
  import opened Collections
  import opened Model
  import Text

  const GAP := 30 * MINUTE
  const BATCH_ROWS := 1000

  function Band(score: real): Severity {
    if score >= 80.0 then CRITICAL else if score >= 50.0 then HIGH else if score >= 20.0 then MEDIUM else LOW
  }

  /** The lowest score the engine assumes for a stored level. */
  function Floor(level: Severity): real {
    match level
    case LOW => 0.0
    case MEDIUM => 20.0
    case HIGH => 50.0
    case CRITICAL => 80.0
  }

  /** What a raw event says; the engine never changes it. */
  datatype Observation = Observation(ip: string, at: int, score: real)

  /** A row of `raw_events`. */
  datatype RawEvent = RawEvent(obs: Observation, session: Option<string>)

  /** A row of `attacker_sessions`. */
  datatype Session = Session(id: string, ip: string, first: int, last: int, level: Severity, total: nat)

  function SessionId(ip: string, start: int): string {
    ip + "-" + Text.Signed(WholeSeconds(start))
  }

  function MaxReal(a: real, b: real): real {
    if a >= b then a else b
  }

  function Opened(o: Observation): Session {
    Session(SessionId(o.ip, o.at), o.ip, o.at, o.at, Band(o.score), 0)
  }

  function Touched(s: Session, o: Observation): Session {
    s.(last := o.at, total := s.total + 1, level := Band(MaxReal(o.score, Floor(s.level))))
  }

  // ── The offline pass over one source ─────────────────────────────────────

  ghost predicate InOrder(os: seq<Observation>) {
    forall i, j | 0 <= i < j < |os| :: os[i].at <= os[j].at
  }

  ghost predicate OneSource(os: seq<Observation>, ip: string) {
    forall i | 0 <= i < |os| :: os[i].ip == ip
  }

  /** One more event: into the last session, or into a new one after a gap. */
  function Extended(ss: seq<Session>, o: Observation): seq<Session> {
    if ss != [] && o.at - ss[|ss| - 1].last <= GAP
    then ss[|ss| - 1 := Touched(ss[|ss| - 1], o)]
    else ss + [Touched(Opened(o), o)]
  }

  /** Cut exactly where the gap to the previous event exceeds thirty minutes. */
  function Offline(os: seq<Observation>): seq<Session> {
    if os == [] then [] else Extended(Offline(os[..|os| - 1]), os[|os| - 1])
  }

  function InSpan(s: Session): Observation -> bool {
    (o: Observation) => s.first <= o.at <= s.last
  }

  function Members(os: seq<Observation>, s: Session): seq<Observation> {
    Filter(os, InSpan(s))
  }

  function TopScore(os: seq<Observation>): real {
    if os == [] then 0.0 else MaxReal(TopScore(os[..|os| - 1]), os[|os| - 1].score)
  }

  /** The sessions of a source are separated by more than the gap; each counts
      its events and carries the band of their highest score. */
  ghost predicate Separated(ss: seq<Session>) {
    && (forall j | 0 <= j < |ss| :: ss[j].first <= ss[j].last)
    && (forall j, k | 0 <= j < k < |ss| :: ss[k].first - ss[j].last > GAP)
  }

  ghost predicate Summarizes(os: seq<Observation>, s: Session, ip: string) {
    var ms := Members(os, s);
    && s.ip == ip && s.id == SessionId(ip, s.first)
    && ms != [] && s.total == |ms| && s.level == Band(TopScore(ms))
  }

  lemma FloorBand(x: real, y: real)
    requires x >= 0.0
    ensures Band(MaxReal(y, Floor(Band(x)))) == Band(MaxReal(x, y))
  {
  }

  lemma {:induction false} TopScoreNonNegative(os: seq<Observation>)
    ensures TopScore(os) >= 0.0
  {
    if os == [] {
    } else {
      TopScoreNonNegative(os[..|os| - 1]);
    }
  }

  lemma TopScoreSnoc(os: seq<Observation>, o: Observation)
    ensures TopScore(os + [o]) == MaxReal(TopScore(os), o.score) && TopScore(os) >= 0.0
    ensures Band(MaxReal(o.score, Floor(Band(TopScore(os))))) == Band(TopScore(os + [o]))
  {
    assert (os + [o])[..|os|] == os;
    TopScoreNonNegative(os);
    FloorBand(TopScore(os), o.score);
  }

  /** The shape of an offline pass. */
  ghost predicate Shaped(os: seq<Observation>, ip: string, ss: seq<Session>) {
    && Separated(ss)
    && (os == [] <==> ss == [])
    && (os != [] ==> ss[|ss| - 1].last == os[|os| - 1].at)
    && (forall j | 0 <= j < |ss| :: Summarizes(os, ss[j], ip))
  }

  lemma MembersSnoc(os: seq<Observation>, o: Observation, s: Session)
    ensures Members(os + [o], s) == Members(os, s) + if s.first <= o.at <= s.last then [o] else []
  {
    assert (os + [o])[..|os|] == os;
  }

  lemma StretchMembers(os: seq<Observation>, s: Session, s': Session)
    requires s'.first == s.first && forall i | 0 <= i < |os| :: os[i].at <= s.last <= s'.last
    ensures Members(os, s') == Members(os, s)
  {
    FilterSame(os, InSpan(s'), InSpan(s));
  }

  lemma {:induction false} OfflineSeparated(os: seq<Observation>, ss: seq<Session>)
    requires InOrder(os) && ss == Offline(os)
    ensures Separated(ss) && (os == [] <==> ss == [])
    ensures os != [] ==> ss[|ss| - 1].last == os[|os| - 1].at
  {
    hide SessionId, Band;
    if os == [] {
    } else {
      OfflineSeparated(os[..|os| - 1], Offline(os[..|os| - 1]));
    }
  }

  /** An event after a session's span leaves the session as it is. */
  lemma MemberBefore(rest: seq<Observation>, o: Observation, s: Session, ip: string)
    requires Summarizes(rest, s, ip) && s.last < o.at
    ensures Summarizes(rest + [o], s, ip)
  {
    hide SessionId, Band, Members;
    MembersSnoc(rest, o, s);
    assert Members(rest, s) + [] == Members(rest, s);
  }

  /** An event close enough after the last session joins it. */
  lemma MemberNext(rest: seq<Observation>, o: Observation, s: Session, ip: string)
    requires Summarizes(rest, s, ip) && s.first <= s.last <= o.at
    requires forall i | 0 <= i < |rest| :: rest[i].at <= s.last
    ensures Summarizes(rest + [o], Touched(s, o), ip)
  {
    hide SessionId, Band, Members;
    MembersSnoc(rest, o, Touched(s, o));
    StretchMembers(rest, s, Touched(s, o));
    TopScoreSnoc(Members(rest, s), o);
  }

  lemma BandTwice(x: real)
    ensures Band(MaxReal(x, Floor(Band(x)))) == Band(x) == Band(MaxReal(0.0, x))
  {
  }

  lemma FirstMember(rest: seq<Observation>, o: Observation, s: Session, ip: string)
    requires o.ip == ip && s == Touched(Opened(o), o)
    requires forall i | 0 <= i < |rest| :: rest[i].at < o.at
    ensures Summarizes(rest + [o], s, ip)
  {
    FilterNone(rest, InSpan(s));
    MembersSnoc(rest, o, s);
    assert Members(rest + [o], s) == [o];
    assert [o][..0] == [];
    FloorBand(0.0, o.score);
    TopScoreSnoc([], o);
    BandTwice(o.score);
  }

  /** Every session after one more event is an earlier one, the last one
      continued, or a new one. */
  lemma StepSummarizes(rest: seq<Observation>, ip: string, before: seq<Session>, o: Observation, ss: seq<Session>, j: nat)
    requires Shaped(rest, ip, before) && o.ip == ip && j < |ss|
    requires forall i | 0 <= i < |rest| :: rest[i].at <= o.at && rest[i].at <= rest[|rest| - 1].at
    requires ss == Extended(before, o)
    ensures Summarizes(rest + [o], ss[j], ip)
  {
    hide Summarizes, SessionId, Band, Touched, Opened;
    var n := |before| - 1;
    if j > n {
      FirstMember(rest, o, ss[j], ip);
    } else if j < n || |ss| > |before| {
      assert before[j].last < o.at;
      MemberBefore(rest, o, before[j], ip);
    } else {
      MemberNext(rest, o, before[n], ip);
    }
  }

  lemma {:induction false} OfflineShaped(os: seq<Observation>, ip: string, ss: seq<Session>)
    requires InOrder(os) && OneSource(os, ip) && ss == Offline(os)
    ensures Shaped(os, ip, ss)
  {
    hide Summarizes, SessionId, Band;
    OfflineSeparated(os, ss);
    if os == [] {
    } else {
      var rest, o := os[..|os| - 1], os[|os| - 1];
      var before := Offline(rest);
      assert ss == Extended(before, o) && os == rest + [o];
      hide Offline, Extended, Separated;
      assert forall i | 0 <= i < |rest| :: rest[i] == os[i] && rest[i].at <= o.at;
      OfflineShaped(rest, ip, before);
      forall j | 0 <= j < |ss|
        ensures Summarizes(os, ss[j], ip)
      {
        StepSummarizes(rest, ip, before, o, ss, j);
      }
    }
  }

  // ── Which session an event belongs to ────────────────────────────────────

  ghost predicate Seen(os: seq<Observation>, t: int) {
    exists i :: 0 <= i < |os| && os[i].at == t
  }

  /** An event happened at `t` and none in the thirty minutes before it. */
  ghost predicate IsStart(os: seq<Observation>, t: int) {
    Seen(os, t) && forall i | 0 <= i < |os| && os[i].at < t :: t - os[i].at > GAP
  }

  /** A session begins at a start and holds no other; every event is in one. */
  ghost predicate CutAtStarts(os: seq<Observation>, ss: seq<Session>) {
    && (forall j | 0 <= j < |ss| :: IsStart(os, ss[j].first))
    && (forall j, t | 0 <= j < |ss| && ss[j].first < t <= ss[j].last :: !IsStart(os, t))
    && (forall k | 0 <= k < |os| :: exists j :: 0 <= j < |ss| && InSpan(ss[j])(os[k]))
  }

  lemma StartSnoc(rest: seq<Observation>, o: Observation, t: int)
    requires rest != [] && InOrder(rest + [o])
    ensures t <= rest[|rest| - 1].at ==> (IsStart(rest + [o], t) <==> IsStart(rest, t))
    ensures t > rest[|rest| - 1].at ==> (IsStart(rest + [o], t) <==> t == o.at && t - rest[|rest| - 1].at > GAP)
  {
    var os := rest + [o];
    var last := rest[|rest| - 1];
    assert os[|rest|] == o && os[|rest| - 1] == last;
    assert forall i | 0 <= i < |rest| :: os[i] == rest[i] && os[i].at <= last.at;
    assert last.at <= o.at;
    if Seen(os, t) {
      var i :| 0 <= i < |os| && os[i].at == t;
      assert t <= last.at ==> Seen(rest, t) by {
        assert i < |rest| || rest[|rest| - 1].at == t || t > last.at;
      }
    }
    if Seen(rest, t) {
      var i :| 0 <= i < |rest| && rest[i].at == t;
      assert os[i].at == t;
    }
  }

  /** How the starts change when one event follows `rest`. */
  ghost predicate StartsAfter(rest: seq<Observation>, o: Observation, os: seq<Observation>, last: int) {
    && (forall t | t <= last :: IsStart(os, t) <==> IsStart(rest, t))
    && (forall t | t > last :: IsStart(os, t) <==> t == o.at && t - last > GAP)
  }

  lemma StartsSnoc(rest: seq<Observation>, o: Observation)
    requires rest != [] && InOrder(rest + [o])
    ensures StartsAfter(rest, o, rest + [o], rest[|rest| - 1].at)
  {
    hide IsStart;
    forall t
      ensures t <= rest[|rest| - 1].at ==> (IsStart(rest + [o], t) <==> IsStart(rest, t))
      ensures t > rest[|rest| - 1].at ==> (IsStart(rest + [o], t) <==> t == o.at && t - rest[|rest| - 1].at > GAP)
    {
      StartSnoc(rest, o, t);
    }
  }

  lemma CoverStep(rest: seq<Observation>, before: seq<Session>, o: Observation, os: seq<Observation>, ss: seq<Session>)
    requires os == rest + [o] && |before| <= |ss| && ss != []
    requires forall j | 0 <= j < |before| :: ss[j].first == before[j].first && before[j].last <= ss[j].last
    requires InSpan(ss[|ss| - 1])(o)
    requires forall k | 0 <= k < |rest| :: exists j :: 0 <= j < |before| && InSpan(before[j])(rest[k])
    ensures forall k | 0 <= k < |os| :: exists j :: 0 <= j < |ss| && InSpan(ss[j])(os[k])
  {
    forall k | 0 <= k < |os|
      ensures exists j :: 0 <= j < |ss| && InSpan(ss[j])(os[k])
    {
      if k < |rest| {
        assert rest[k] == os[k];
        var j :| 0 <= j < |before| && InSpan(before[j])(rest[k]);
        assert InSpan(ss[j])(os[k]);
      } else {
        assert InSpan(ss[|ss| - 1])(os[k]);
      }
    }
  }

  lemma CutsStep(rest: seq<Observation>, before: seq<Session>, o: Observation, os: seq<Observation>, ss: seq<Session>)
    requires CutAtStarts(rest, before) && before != [] && Separated(before)
    requires os == rest + [o] && StartsAfter(rest, o, os, before[|before| - 1].last)
    requires before[|before| - 1].last <= o.at
    requires ss == Extended(before, o)
    ensures CutAtStarts(os, ss)
  {
    hide SessionId, Band, IsStart;
    var n := |before| - 1;
    assert forall j | 0 <= j < n :: ss[j] == before[j] && before[j].last <= before[n].last;
    assert ss[n].first == before[n].first <= before[n].last <= ss[n].last;
    CoverStep(rest, before, o, os, ss);
    forall j, t | 0 <= j < |ss| && ss[j].first < t <= ss[j].last
      ensures !IsStart(os, t)
    {
      if t <= before[n].last {
        assert before[j].first < t <= before[j].last || j == n + 1 || t > before[j].last;
      }
    }
  }

  lemma NothingToCut(os: seq<Observation>, ss: seq<Session>)
    requires os == [] && ss == []
    ensures CutAtStarts(os, ss)
  {
  }

  lemma OneStart(o: Observation, os: seq<Observation>)
    requires os == [o]
    ensures IsStart(os, o.at)
  {
    assert os[0].at == o.at;
  }

  lemma OneCut(o: Observation, os: seq<Observation>, ss: seq<Session>)
    requires os == [o] && ss == [Touched(Opened(o), o)]
    ensures CutAtStarts(os, ss)
  {
    OneStart(o, os);
    assert InSpan(ss[0])(os[0]);
  }

  lemma {:induction false} OfflineCuts(os: seq<Observation>, ip: string, ss: seq<Session>)
    requires InOrder(os) && OneSource(os, ip) && ss == Offline(os)
    ensures CutAtStarts(os, ss)
  {
    hide IsStart, Summarizes, CutAtStarts;
    if os == [] {
      NothingToCut(os, ss);
    } else if |os| == 1 {
      assert Offline(os[..0]) == [];
      assert ss == [Touched(Opened(os[0]), os[0])];
      OneCut(os[0], os, ss);
    } else {
      var rest, o := os[..|os| - 1], os[|os| - 1];
      var before := Offline(rest);
      assert ss == Extended(before, o) && os == rest + [o];
      hide Offline, Extended, InSpan;
      OfflineCuts(rest, ip, before);
      OfflineSeparated(rest, before);
      StartsSnoc(rest, o);
      CutsStep(rest, before, o, os, ss);
    }
  }

  lemma StartsFromTimes(a: seq<Observation>, b: seq<Observation>, t: int)
    requires forall u :: Seen(a, u) <==> Seen(b, u)
    requires IsStart(a, t)
    ensures IsStart(b, t)
  {
    forall i | 0 <= i < |b| && b[i].at < t
      ensures t - b[i].at > GAP
    {
      assert Seen(b, b[i].at);
      var n :| 0 <= n < |a| && a[n].at == b[i].at;
    }
  }

  /** Batching and the order of simultaneous events do not matter: whatever
      time-ordered lists the same event times come in, an event gets the same
      session. */
  lemma SameSession(a: seq<Observation>, b: seq<Observation>, ip: string,
                    sa: seq<Session>, sb: seq<Session>, j: nat, k: nat, o: Observation)
    requires InOrder(a) && OneSource(a, ip) && InOrder(b) && OneSource(b, ip)
    requires forall u :: Seen(a, u) <==> Seen(b, u)
    requires sa == Offline(a) && j < |sa| && InSpan(sa[j])(o)
    requires sb == Offline(b) && k < |sb| && InSpan(sb[k])(o)
    ensures sa[j].first == sb[k].first && sa[j].id == sb[k].id
  {
    hide Offline, IsStart, SessionId, Members;
    OfflineShaped(a, ip, sa);
    OfflineShaped(b, ip, sb);
    OfflineCuts(a, ip, sa);
    OfflineCuts(b, ip, sb);
    if IsStart(a, sa[j].first) {
      StartsFromTimes(a, b, sa[j].first);
    }
    if IsStart(b, sb[k].first) {
      StartsFromTimes(b, a, sb[k].first);
    }
    assert Summarizes(a, sa[j], ip) && Summarizes(b, sb[k], ip);
  }

  /** A session ends at one of its events. */
  lemma {:induction false} EndsSeen(os: seq<Observation>, ss: seq<Session>)
    requires ss == Offline(os)
    ensures forall j | 0 <= j < |ss| :: Seen(os, ss[j].last)
  {
    hide SessionId, Band;
    if os == [] {
    } else {
      var rest, o := os[..|os| - 1], os[|os| - 1];
      var before := Offline(rest);
      EndsSeen(rest, before);
      forall j | 0 <= j < |ss|
        ensures Seen(os, ss[j].last)
      {
        if j < |before| && ss[j] == before[j] {
          var i :| 0 <= i < |rest| && rest[i].at == ss[j].last;
          assert os[i].at == ss[j].last;
        } else {
          assert os[|os| - 1].at == ss[j].last;
        }
      }
    }
  }

  /** An event after the end of a session is in a later one, which starts there. */
  lemma LaterStart(os: seq<Observation>, ss: seq<Session>, j: nat, n: nat) returns (t: int)
    requires CutAtStarts(os, ss) && Separated(ss) && j < |ss| && n < |os| && os[n].at > ss[j].last
    ensures IsStart(os, t) && ss[j].last < t <= os[n].at
  {
    hide IsStart;
    var m :| 0 <= m < |ss| && InSpan(ss[m])(os[n]);
    assert m > j;
    t := ss[m].first;
    assert ss[m].first - ss[j].last > GAP;
  }

  /** If one of two sessions with the same start ended earlier, the other would
      hold a further start. */
  lemma EndsNoEarlier(a: seq<Observation>, b: seq<Observation>, sa: seq<Session>, sb: seq<Session>, j: nat, k: nat)
    requires forall u :: Seen(a, u) <==> Seen(b, u)
    requires CutAtStarts(a, sa) && Separated(sa) && j < |sa|
    requires CutAtStarts(b, sb) && k < |sb| && Seen(b, sb[k].last)
    requires sa[j].first == sb[k].first
    ensures sb[k].last <= sa[j].last
  {
    hide IsStart;
    var n :| 0 <= n < |a| && a[n].at == sb[k].last;
    assert sa[j].first <= sa[j].last;
    if a[n].at > sa[j].last {
      var t := LaterStart(a, sa, j, n);
      StartsFromTimes(a, b, t);
    }
  }

  lemma {:induction false} TopScoreIs(os: seq<Observation>)
    ensures TopScore(os) >= 0.0 && forall o | o in os :: o.score <= TopScore(os)
    ensures TopScore(os) == 0.0 || exists o :: o in os && o.score == TopScore(os)
  {
    if os == [] {
    } else {
      var rest, last := os[..|os| - 1], os[|os| - 1];
      TopScoreIs(rest);
      assert os == rest + [last] && last in os;
    }
  }

  lemma TopScorePermuted(a: seq<Observation>, b: seq<Observation>)
    requires multiset(a) == multiset(b)
    ensures TopScore(a) == TopScore(b)
  {
    TopScoreIs(a);
    TopScoreIs(b);
    assert forall o :: o in a <==> o in multiset(a);
    assert forall o :: o in b <==> o in multiset(b);
  }

  lemma SameMembers(a: seq<Observation>, b: seq<Observation>, ip: string, s: Session, t: Session)
    requires multiset(a) == multiset(b) && s.first == t.first && s.last == t.last
    requires Summarizes(a, s, ip) && Summarizes(b, t, ip)
    ensures s == t
  {
    hide Filter, Band, SessionId, TopScore;
    FilterSame(a, InSpan(s), InSpan(t));
    FilterPermuted(a, b, InSpan(t));
    TopScorePermuted(Members(a, s), Members(b, t));
    assert |multiset(Members(a, s))| == |multiset(Members(b, t))|;
  }

  lemma SeenPermuted(a: seq<Observation>, b: seq<Observation>, u: int)
    requires multiset(a) == multiset(b) && Seen(a, u)
    ensures Seen(b, u)
  {
    var i :| 0 <= i < |a| && a[i].at == u;
    assert a[i] in multiset(b);
    var k :| 0 <= k < |b| && b[k] == a[i];
  }

  lemma SomeMember(os: seq<Observation>, ip: string, s: Session) returns (o: Observation)
    requires Summarizes(os, s, ip)
    ensures o in os && InSpan(s)(o)
  {
    o := Members(os, s)[0];
    FilterIn(os, InSpan(s), o);
  }

  /** Of the same events in whatever order simultaneous ones come, the offline
      pass makes the same sessions, end, count and band included. */
  lemma SameSummary(a: seq<Observation>, b: seq<Observation>, ip: string, sa: seq<Session>, sb: seq<Session>, j: nat)
    returns (k: nat)
    requires InOrder(a) && OneSource(a, ip) && InOrder(b) && OneSource(b, ip) && multiset(a) == multiset(b)
    requires sa == Offline(a) && j < |sa| && sb == Offline(b)
    ensures k < |sb| && sb[k] == sa[j]
  {
    hide IsStart, SessionId, TopScore, Band, Separated;
    forall u
      ensures Seen(a, u) <==> Seen(b, u)
    {
      if Seen(a, u) {
        SeenPermuted(a, b, u);
      }
      if Seen(b, u) {
        SeenPermuted(b, a, u);
      }
    }
    OfflineShaped(a, ip, sa);
    OfflineShaped(b, ip, sb);
    OfflineCuts(a, ip, sa);
    OfflineCuts(b, ip, sb);
    EndsSeen(a, sa);
    EndsSeen(b, sb);
    hide Offline, Seen;
    var o := SomeMember(a, ip, sa[j]);
    assert o in multiset(b);
    var n :| 0 <= n < |b| && b[n] == o;
    k :| 0 <= k < |sb| && InSpan(sb[k])(b[n]);
    SameSession(a, b, ip, sa, sb, j, k, o);
    EndsNoEarlier(a, b, sa, sb, j, k);
    EndsNoEarlier(b, a, sb, sa, k, j);
    SameMembers(a, b, ip, sa[j], sb[k]);
  }

  // ── A session row, field by field ────────────────────────────────────────

  /** The observation is in the session and scored at least so high. */
  ghost predicate Scored(os: seq<Observation>, s: Session, score: real) {
    exists o :: o in os && s.first <= o.at <= s.last && o.score >= score
  }

  /** What the fields of a session say of the observations. */
  ghost predicate Describes(os: seq<Observation>, ip: string, s: Session) {
    && s.ip == ip && s.id == ip + "-" + Text.Signed(WholeSeconds(s.first))
    && s.total == |set i: nat | i < |os| && s.first <= os[i].at <= s.last| && s.total > 0
    && (s.level == CRITICAL <==> Scored(os, s, 80.0))
    && (s.level == HIGH <==> !Scored(os, s, 80.0) && Scored(os, s, 50.0))
    && (s.level == MEDIUM <==> !Scored(os, s, 50.0) && Scored(os, s, 20.0))
    && (s.level == LOW <==> !Scored(os, s, 20.0))
  }

  lemma SummaryDescribes(os: seq<Observation>, ip: string, s: Session)
    requires Summarizes(os, s, ip)
    ensures Describes(os, ip, s)
  {
    hide Filter;
    var ms := Members(os, s);
    FilterPositions(os, InSpan(s));
    assert Positions(os, InSpan(s)) == set i: nat | i < |os| && s.first <= os[i].at <= s.last;
    TopScoreIs(ms);
    forall score | score > 0.0
      ensures Scored(os, s, score) <==> TopScore(ms) >= score
    {
      forall o: Observation
        ensures o in ms <==> o in os && s.first <= o.at <= s.last
      {
        FilterIn(os, InSpan(s), o);
      }
    }
    assert Scored(os, s, 80.0) <==> TopScore(ms) >= 80.0;
    assert Scored(os, s, 50.0) <==> TopScore(ms) >= 50.0;
    assert Scored(os, s, 20.0) <==> TopScore(ms) >= 20.0;
  }

  /** Every session the offline pass makes is described by its row, more than
      thirty minutes from the next, and starts and ends at an observation. */
  lemma OfflineDescribes(os: seq<Observation>, ip: string, ss: seq<Session>)
    requires InOrder(os) && OneSource(os, ip) && ss == Offline(os)
    ensures forall j | 0 <= j < |ss| :: Describes(os, ip, ss[j]) && Seen(os, ss[j].first) && Seen(os, ss[j].last)
    ensures forall j, k | 0 <= j < k < |ss| :: ss[k].first - ss[j].last > 1_800_000_000
  {
    hide Summarizes, Describes, Seen, Offline;
    OfflineShaped(os, ip, ss);
    OfflineCuts(os, ip, ss);
    EndsSeen(os, ss);
    forall j | 0 <= j < |ss|
      ensures Describes(os, ip, ss[j])
    {
      SummaryDescribes(os, ip, ss[j]);
    }
  }

  // ── Session ids ──────────────────────────────────────────────────────────

  /** The last hyphen of an id stands before the digits. */
  lemma IdParts(ip: string, t: int)
    ensures var a := WholeSeconds(t);
      SessionId(ip, t) == ip + (if a < 0 then "-" else "") + ['-'] + Text.Decimal(Text.Magnitude(a))
    ensures '-' !in Text.Decimal(Text.Magnitude(WholeSeconds(t)))
  {
    var d := Text.Decimal(Text.Magnitude(WholeSeconds(t)));
    assert forall i | 0 <= i < |d| :: Text.IsDigit(d[i]);
    assert "-" == ['-'];
  }

  lemma SameSuffix(x: string, y: string)
    ensures x + "-" == y + "-" <==> x == y
  {
    assert (x + "-")[..|x + "-"| - 1] == x && (y + "-")[..|y + "-"| - 1] == y;
  }

  /** Exactly when two ids are the same: for the same source and start second, or
      for a source named like another with a hyphen added, when one starts as many
      seconds after the epoch as the other before it. */
  lemma SessionIdsEqualIff(ip1: string, t1: int, ip2: string, t2: int)
    ensures var a, b := WholeSeconds(t1), WholeSeconds(t2);
      SessionId(ip1, t1) == SessionId(ip2, t2) <==>
      || (ip1 == ip2 && a == b)
      || (a > 0 && b == -a && ip1 == ip2 + "-")
      || (b > 0 && a == -b && ip2 == ip1 + "-")
  {
    hide SessionId;
    var a, b := WholeSeconds(t1), WholeSeconds(t2);
    var x, y := ip1 + (if a < 0 then "-" else ""), ip2 + (if b < 0 then "-" else "");
    var d, e := Text.Decimal(Text.Magnitude(a)), Text.Decimal(Text.Magnitude(b));
    IdParts(ip1, t1);
    IdParts(ip2, t2);
    Text.ValueOfDecimal(Text.Magnitude(a));
    Text.ValueOfDecimal(Text.Magnitude(b));
    if SessionId(ip1, t1) == SessionId(ip2, t2) {
      Text.SplitLast(x, d, y, e, '-');
    }
    SameSuffix(ip1, ip2);
    assert ip1 + "" == ip1 && ip2 + "" == ip2;
    assert (x == y) == (if (a < 0) == (b < 0) then ip1 == ip2 else if a < 0 then ip1 + "-" == ip2 else ip1 == ip2 + "-");
  }

  /** Two sessions of one source never share an id. */
  lemma IdsDistinct(os: seq<Observation>, ip: string, j: nat, k: nat)
    requires InOrder(os) && OneSource(os, ip) && j < k < |Offline(os)|
    ensures Offline(os)[j].id != Offline(os)[k].id
  {
    var ss := Offline(os);
    OfflineShaped(os, ip, ss);
    assert Summarizes(os, ss[j], ip) && Summarizes(os, ss[k], ip);
    var a, b := WholeSeconds(ss[j].first), WholeSeconds(ss[k].first);
    assert ss[k].first - ss[j].first > GAP;
    assert a < b;
    assert |ip + "-"| == |ip| + 1;
    if ss[j].id == ss[k].id {
      SessionIdsEqualIff(ip, ss[j].first, ip, ss[k].first);
    }
  }
}
