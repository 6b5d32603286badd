/** The session engine's batch job over the event and session tables. */
module SessionService {
  import opened Collections
  import opened Model
  import opened Sessions

  function OfIp(ip: string): Session -> bool {
    (s: Session) => s.ip == ip
  }

  ghost predicate InRange(table: seq<RawEvent>, done: seq<nat>) {
    forall n | 0 <= n < |done| :: done[n] < |table|
  }

  /** The observations of one source, in the order they were mapped. */
  ghost function MappedOf(table: seq<RawEvent>, done: seq<nat>, ip: string): seq<Observation>
    requires InRange(table, done)
  {
    if done == [] then []
    else
      var o := table[done[|done| - 1]].obs;
      MappedOf(table, done[..|done| - 1], ip) + if o.ip == ip then [o] else []
  }

  /** The event carries the id of a session of its source that spans it. */
  ghost predicate Placed(e: RawEvent, sessions: seq<Session>) {
    && e.session.Some?
    && exists j :: 0 <= j < |sessions| && sessions[j].ip == e.obs.ip && sessions[j].id == e.session.value
                   && InSpan(sessions[j])(e.obs)
  }

  /** For every source the session table is exactly the offline pass over its
      mapped events, and every mapped event is placed in its session. */
  ghost predicate Consistent(table: seq<RawEvent>, sessions: seq<Session>, done: seq<nat>) {
    && InRange(table, done) && Distinct(done)
    && (forall i | 0 <= i < |table| :: table[i].session.Some? <==> i in done)
    && (forall n | 0 <= n < |done| :: Placed(table[done[n]], sessions))
    && (forall ip :: InOrder(MappedOf(table, done, ip))
                     && Filter(sessions, OfIp(ip)) == Offline(MappedOf(table, done, ip)))
  }

  /** No event is left behind the mapped events of its source. */
  ghost predicate Timely(table: seq<RawEvent>) {
    forall i, j | 0 <= i < |table| && 0 <= j < |table| && table[i].obs.ip == table[j].obs.ip
                  && table[i].session.None? && table[j].session.Some? ::
      table[j].obs.at <= table[i].obs.at
  }

  /** The first session with the greatest `last_seen` for a source. */
  function Latest(sessions: seq<Session>, ip: string): (r: Option<nat>)
    ensures r.Some? ==> r.value < |sessions| && sessions[r.value].ip == ip
  {
    if sessions == [] then None
    else
      var n := |sessions| - 1;
      match Latest(sessions[..n], ip)
      case None => if sessions[n].ip == ip then Some(n) else None
      case Some(i) => if sessions[n].ip == ip && sessions[n].last > sessions[i].last then Some(n) else Some(i)
  }

  ghost predicate IsLast(sessions: seq<Session>, ip: string, c: nat) {
    c < |sessions| && sessions[c].ip == ip && forall k | c < k < |sessions| :: sessions[k].ip != ip
  }

  lemma {:induction false} LatestIsLast(sessions: seq<Session>, ip: string, mine: seq<Session>)
    requires mine == Filter(sessions, OfIp(ip)) && Separated(mine)
    ensures match Latest(sessions, ip)
      case None => mine == []
      case Some(c) => IsLast(sessions, ip, c) && mine != [] && mine[|mine| - 1] == sessions[c]
  {
    if sessions == [] {
    } else {
      var rest, s := sessions[..|sessions| - 1], sessions[|sessions| - 1];
      var mine' := Filter(rest, OfIp(ip));
      assert mine == mine' + if s.ip == ip then [s] else [];
      assert forall k | 0 <= k < |mine'| :: mine[k] == mine'[k];
      LatestIsLast(rest, ip, mine');
      if s.ip == ip && mine' != [] {
        assert mine[|mine'|].first - mine[|mine'| - 1].last > GAP;
      }
    }
  }

  /** Replacing the last session of a source replaces the last of its list and
      no other source's. */
  lemma {:induction false} ReplaceLast(sessions: seq<Session>, ip: string, c: nat, s: Session, mine: seq<Session>)
    requires IsLast(sessions, ip, c) && s.ip == ip && mine == Filter(sessions, OfIp(ip))
    ensures mine != [] && mine[|mine| - 1] == sessions[c]
    ensures Filter(sessions[c := s], OfIp(ip)) == mine[|mine| - 1 := s]
  {
    var n := |sessions| - 1;
    if c < n {
      ReplaceLast(sessions[..n], ip, c, s, Filter(sessions[..n], OfIp(ip)));
      assert sessions[c := s][..n] == sessions[..n][c := s];
    } else {
      assert sessions[c := s][..n] == sessions[..n];
    }
  }

  lemma {:induction false} ReplaceOther(sessions: seq<Session>, other: string, c: nat, s: Session)
    requires c < |sessions| && sessions[c].ip != other && s.ip != other
    ensures Filter(sessions[c := s], OfIp(other)) == Filter(sessions, OfIp(other))
  {
    var n := |sessions| - 1;
    if c < n {
      ReplaceOther(sessions[..n], other, c, s);
      assert sessions[c := s][..n] == sessions[..n][c := s];
    } else {
      assert sessions[c := s][..n] == sessions[..n];
    }
  }

  lemma {:induction false} MappedFrame(table: seq<RawEvent>, table': seq<RawEvent>, done: seq<nat>, ip: string)
    requires InRange(table, done) && |table| == |table'|
    requires forall i | 0 <= i < |table| :: table'[i].obs == table[i].obs
    ensures MappedOf(table', done, ip) == MappedOf(table, done, ip)
  {
    if done == [] {
    } else {
      MappedFrame(table, table', done[..|done| - 1], ip);
    }
  }

  lemma {:induction false} MappedIn(table: seq<RawEvent>, done: seq<nat>, ip: string)
    requires InRange(table, done)
    ensures OneSource(MappedOf(table, done, ip), ip)
    ensures forall k | 0 <= k < |MappedOf(table, done, ip)| ::
      exists i :: i in done && table[i].obs == MappedOf(table, done, ip)[k]
  {
    if done == [] {
    } else {
      var rest := done[..|done| - 1];
      MappedIn(table, rest, ip);
      assert done == rest + [done[|done| - 1]];
      var os := MappedOf(table, done, ip);
      forall k | 0 <= k < |os|
        ensures exists i :: i in done && table[i].obs == os[k]
      {
        if k < |MappedOf(table, rest, ip)| {
          var i :| i in rest && table[i].obs == os[k];
          assert i in done;
        } else {
          assert done[|done| - 1] in done;
        }
      }
    }
  }

  /** The sessions after one event, given the session the engine holds open. */
  function After(sessions: seq<Session>, cur: Option<nat>, o: Observation): (seq<Session>, nat)
    requires cur.Some? ==> cur.value < |sessions|
  {
    if cur == None || o.at - sessions[cur.value].last > GAP
    then (sessions + [Touched(Opened(o), o)], |sessions|)
    else (sessions[cur.value := Touched(sessions[cur.value], o)], cur.value)
  }

  /** The engine's open session is the source's last one, unless it has just
      found that none is recent enough. */
  ghost predicate Holds(sessions: seq<Session>, cur: Option<nat>, o: Observation) {
    match cur
    case Some(c) => IsLast(sessions, o.ip, c)
    case None =>
      var mine := Filter(sessions, OfIp(o.ip));
      mine == [] || o.at - mine[|mine| - 1].last > GAP
  }

  lemma FilterAppend(sessions: seq<Session>, s: Session, ip: string)
    ensures Filter(sessions + [s], OfIp(ip)) == Filter(sessions, OfIp(ip)) + if s.ip == ip then [s] else []
  {
    assert (sessions + [s])[..|sessions|] == sessions;
  }

  lemma AfterSource(sessions: seq<Session>, cur: Option<nat>, o: Observation, os: seq<Observation>)
    requires cur.Some? ==> cur.value < |sessions|
    requires Holds(sessions, cur, o)
    requires Filter(sessions, OfIp(o.ip)) == Offline(os)
    ensures var (ss, c) := After(sessions, cur, o);
      IsLast(ss, o.ip, c) && Filter(ss, OfIp(o.ip)) == Offline(os + [o])
  {
    hide SessionId, Band;
    assert (os + [o])[..|os|] == os;
    var mine := Filter(sessions, OfIp(o.ip));
    if cur.Some? {
      ReplaceLast(sessions, o.ip, cur.value, Touched(sessions[cur.value], o), mine);
    }
    FilterAppend(sessions, Touched(Opened(o), o), o.ip);
  }

  lemma AfterOthers(sessions: seq<Session>, cur: Option<nat>, o: Observation, other: string)
    requires cur.Some? ==> cur.value < |sessions|
    requires Holds(sessions, cur, o) && other != o.ip
    ensures Filter(After(sessions, cur, o).0, OfIp(other)) == Filter(sessions, OfIp(other))
  {
    hide SessionId, Band;
    if cur.Some? {
      ReplaceOther(sessions, other, cur.value, Touched(sessions[cur.value], o));
    }
    FilterAppend(sessions, Touched(Opened(o), o), other);
  }

  lemma StillPlaced(e: RawEvent, sessions: seq<Session>, cur: Option<nat>, o: Observation)
    requires cur.Some? ==> cur.value < |sessions| && sessions[cur.value].last <= o.at
    requires Placed(e, sessions)
    ensures Placed(e, After(sessions, cur, o).0)
  {
    hide SessionId, Band;
    var j :| 0 <= j < |sessions| && sessions[j].ip == e.obs.ip && sessions[j].id == e.session.value
             && InSpan(sessions[j])(e.obs);
    var ss := After(sessions, cur, o).0;
    assert ss[j].ip == e.obs.ip && ss[j].id == e.session.value && InSpan(ss[j])(e.obs);
  }

  lemma MappedBefore(table: seq<RawEvent>, sessions: seq<Session>, done: seq<nat>, i: nat)
    requires Consistent(table, sessions, done) && Timely(table)
    requires i < |table| && table[i].session == None
    ensures InOrder(MappedOf(table, done, table[i].obs.ip) + [table[i].obs])
  {
    hide Placed, Offline, Filter;
    var o := table[i].obs;
    var os := MappedOf(table, done, o.ip);
    MappedIn(table, done, o.ip);
    forall k | 0 <= k < |os|
      ensures os[k].at <= o.at
    {
      var n :| n in done && table[n].obs == os[k];
      assert table[n].session.Some?;
    }
  }

  lemma LastBefore(table: seq<RawEvent>, sessions: seq<Session>, done: seq<nat>, i: nat, cur: Option<nat>)
    requires Consistent(table, sessions, done) && Timely(table)
    requires i < |table| && table[i].session == None
    requires cur.Some? ==> cur.value < |sessions|
    requires Holds(sessions, cur, table[i].obs)
    ensures cur.Some? ==> sessions[cur.value].first <= sessions[cur.value].last <= table[i].obs.at
  {
    hide Placed, Offline, Filter, MappedOf, Summarizes;
    if cur.Some? {
      var o := table[i].obs;
      var os := MappedOf(table, done, o.ip);
      MappedBefore(table, sessions, done, i);
      MappedIn(table, done, o.ip);
      OfflineShaped(os, o.ip, Offline(os));
      ReplaceLast(sessions, o.ip, cur.value, sessions[cur.value], Filter(sessions, OfIp(o.ip)));
      assert (os + [o])[|os|] == o && (os + [o])[|os| - 1] == os[|os| - 1];
    }
  }

  lemma JustPlaced(e: RawEvent, sessions: seq<Session>, cur: Option<nat>, ss: seq<Session>, c: nat)
    requires cur.Some? ==> cur.value < |sessions| && sessions[cur.value].last <= e.obs.at
    requires Holds(sessions, cur, e.obs)
    requires (ss, c) == After(sessions, cur, e.obs)
    requires c < |ss| && e.session == Some(ss[c].id)
    requires cur.Some? ==> sessions[cur.value].first <= e.obs.at
    ensures Placed(e, ss)
  {
    hide SessionId, Band;
    assert InSpan(ss[c])(e.obs);
  }

  /** Mapping one event in time order keeps the tables consistent. */
  lemma MapOneKeeps(table: seq<RawEvent>, sessions: seq<Session>, done: seq<nat>, i: nat, cur: Option<nat>,
                    table': seq<RawEvent>, ss: seq<Session>, c: nat)
    requires Consistent(table, sessions, done) && Timely(table)
    requires i < |table| && table[i].session == None
    requires cur.Some? ==> cur.value < |sessions|
    requires Holds(sessions, cur, table[i].obs)
    requires (ss, c) == After(sessions, cur, table[i].obs)
    requires c < |ss| && table' == table[i := table[i].(session := Some(ss[c].id))]
    ensures Consistent(table', ss, done + [i]) && IsLast(ss, table[i].obs.ip, c)
  {
    hide Placed, Offline, Filter, Holds, After;
    var o := table[i].obs;
    var done' := done + [i];
    assert done'[..|done|] == done;
    MappedBefore(table, sessions, done, i);
    AfterSource(sessions, cur, o, MappedOf(table, done, o.ip));
    forall ip
      ensures InOrder(MappedOf(table', done', ip)) && Filter(ss, OfIp(ip)) == Offline(MappedOf(table', done', ip))
    {
      MappedFrame(table, table', done, ip);
      if ip == o.ip {
        assert MappedOf(table', done', ip) == MappedOf(table, done, ip) + [o];
      } else {
        AfterOthers(sessions, cur, o, ip);
        var os := MappedOf(table, done, ip);
        assert MappedOf(table', done', ip) == os + [] == os;
      }
    }
    LastBefore(table, sessions, done, i, cur);
    forall n | 0 <= n < |done'|
      ensures Placed(table'[done'[n]], ss)
    {
      if n < |done| {
        assert done[n] != i;
        StillPlaced(table[done[n]], sessions, cur, o);
      } else {
        JustPlaced(table'[i], sessions, cur, ss, c);
      }
    }
    assert forall k :: k in done' <==> k in done || k == i;
  }

  // ── The batch the database returns ───────────────────────────────────────

  ghost predicate NotAfter(a: Observation, b: Observation, collation: string -> int) {
    collation(a.ip) < collation(b.ip) || (collation(a.ip) == collation(b.ip) && a.at <= b.at)
  }

  /** An answer to `where session_id is null order by attacker_ip, timestamp
      limit 1000`; `collation` ranks sources as the database sorts them. */
  ghost predicate IsBatch(table: seq<RawEvent>, batch: seq<nat>, collation: string -> int) {
    && |batch| <= BATCH_ROWS && Distinct(batch)
    && (forall n | 0 <= n < |batch| :: batch[n] < |table| && table[batch[n]].session == None)
    && (forall m, n | 0 <= m < n < |batch| :: NotAfter(table[batch[m]].obs, table[batch[n]].obs, collation))
    && (forall i | 0 <= i < |table| && table[i].session == None && i !in batch ::
          |batch| == BATCH_ROWS && forall n | 0 <= n < |batch| :: NotAfter(table[batch[n]].obs, table[i].obs, collation))
  }

  function AtIp(table: seq<RawEvent>, ip: string): nat -> bool {
    (i: nat) => i < |table| && table[i].obs.ip == ip
  }

  /** The rows of one source, in the order they will be mapped: time order, and
      no unmapped row of the source is earlier than any of them. */
  ghost predicate Due(table: seq<RawEvent>, ip: string, rows: seq<nat>) {
    && Distinct(rows)
    && (forall n | 0 <= n < |rows| ::
          rows[n] < |table| && table[rows[n]].session == None && table[rows[n]].obs.ip == ip)
    && (forall m, n | 0 <= m < n < |rows| :: table[rows[m]].obs.at <= table[rows[n]].obs.at)
    && (forall n, i | 0 <= n < |rows| && 0 <= i < |table| && table[i].session == None && table[i].obs.ip == ip && i !in rows ::
          table[rows[n]].obs.at <= table[i].obs.at)
  }

  ghost predicate SameFacts(table: seq<RawEvent>, table': seq<RawEvent>) {
    |table| == |table'| && forall i | 0 <= i < |table| :: table'[i].obs == table[i].obs
  }

  /** Rows in order, followed by one that comes after all of them. */
  lemma OneMoreRow(table: seq<RawEvent>, rows: seq<nat>, i: nat)
    requires i < |table| && Distinct(rows) && forall n | 0 <= n < |rows| :: rows[n] < |table|
    requires forall m, n | 0 <= m < n < |rows| :: table[rows[m]].obs.at <= table[rows[n]].obs.at
    requires forall m | 0 <= m < |rows| :: rows[m] != i && table[rows[m]].obs.at <= table[i].obs.at
    ensures Distinct(rows + [i])
    ensures forall m, n | 0 <= m < n < |rows + [i]| :: table[(rows + [i])[m]].obs.at <= table[(rows + [i])[n]].obs.at
  {
  }

  lemma RestDistinct(batch: seq<nat>)
    requires batch != [] && Distinct(batch)
    ensures Distinct(batch[..|batch| - 1])
    ensures forall k | 0 <= k < |batch| - 1 :: batch[k] != batch[|batch| - 1]
  {
  }

  /** One more row of the batch joins the rows of its source at the end. */
  lemma GroupGrows(table: seq<RawEvent>, rest: seq<nat>, i: nat, ip: string, rows: seq<nat>, more: seq<nat>)
    requires i < |table| && forall n | 0 <= n < |rest| :: rest[n] < |table|
    requires forall k | 0 <= k < |rest| :: rest[k] != i
    requires forall k | 0 <= k < |rest| && table[rest[k]].obs.ip == table[i].obs.ip ::
      table[rest[k]].obs.at <= table[i].obs.at
    requires Distinct(rows) && more == rows + if table[i].obs.ip == ip then [i] else []
    requires forall n | 0 <= n < |rows| :: rows[n] in rest && table[rows[n]].obs.ip == ip
    requires forall m, n | 0 <= m < n < |rows| :: table[rows[m]].obs.at <= table[rows[n]].obs.at
    ensures Distinct(more) && forall n | 0 <= n < |more| :: more[n] in rest + [i] && table[more[n]].obs.ip == ip
    ensures forall m, n | 0 <= m < n < |more| :: table[more[m]].obs.at <= table[more[n]].obs.at
  {
    hide Distinct;
    forall n | 0 <= n < |more|
      ensures more[n] in rest + [i] && table[more[n]].obs.ip == ip
    {
      assert n < |rows| ==> more[n] == rows[n];
      assert n >= |rows| ==> more[n] == i;
    }
    if table[i].obs.ip == ip {
      forall m | 0 <= m < |rows|
        ensures rows[m] != i && table[rows[m]].obs.at <= table[i].obs.at
      {
        var k :| 0 <= k < |rest| && rest[k] == rows[m];
      }
      OneMoreRow(table, rows, i);
    } else {
      assert more == rows;
    }
  }

  lemma {:induction false} GroupInOrder(table: seq<RawEvent>, batch: seq<nat>, ip: string, collation: string -> int,
                                        rows: seq<nat>)
    requires forall n | 0 <= n < |batch| :: batch[n] < |table|
    requires Distinct(batch) && rows == Filter(batch, AtIp(table, ip))
    requires forall m, n | 0 <= m < n < |batch| :: NotAfter(table[batch[m]].obs, table[batch[n]].obs, collation)
    ensures Distinct(rows)
    ensures forall n | 0 <= n < |rows| :: rows[n] in batch && table[rows[n]].obs.ip == ip
    ensures forall m, n | 0 <= m < n < |rows| :: table[rows[m]].obs.at <= table[rows[n]].obs.at
  {
    if batch == [] {
    } else {
      var rest, i := batch[..|batch| - 1], batch[|batch| - 1];
      var rows' := Filter(rest, AtIp(table, ip));
      assert rows == rows' + if AtIp(table, ip)(i) then [i] else [];
      hide Filter, Distinct;
      assert batch == rest + [i];
      assert forall k | 0 <= k < |rest| :: NotAfter(table[batch[k]].obs, table[batch[|rest|]].obs, collation);
      RestDistinct(batch);
      GroupInOrder(table, rest, ip, collation, rows');
      GroupGrows(table, rest, i, ip, rows', rows);
    }
  }

  lemma GroupIsDue(table: seq<RawEvent>, batch: seq<nat>, ip: string, collation: string -> int)
    requires IsBatch(table, batch, collation)
    ensures Due(table, ip, Filter(batch, AtIp(table, ip)))
  {
    var rows := Filter(batch, AtIp(table, ip));
    GroupInOrder(table, batch, ip, collation, rows);
    forall n: nat, i: nat | n < |rows| && i < |table| && table[i].session == None && table[i].obs.ip == ip && i !in rows
      ensures table[rows[n]].obs.at <= table[i].obs.at
    {
      FilterIn(batch, AtIp(table, ip), i);
      var k :| 0 <= k < |batch| && batch[k] == rows[n];
      assert NotAfter(table[batch[k]].obs, table[i].obs, collation);
    }
  }

  /** Mapping rows of one source leaves the rows of another due. */
  lemma StaysDue(table: seq<RawEvent>, table': seq<RawEvent>, ip: string, rows: seq<nat>)
    requires Due(table, ip, rows) && SameFacts(table, table')
    requires forall i | 0 <= i < |table| && table[i].obs.ip == ip :: table'[i] == table[i]
    ensures Due(table', ip, rows)
  {
  }

  ghost predicate GroupedBy(table: seq<RawEvent>, batch: seq<nat>, ips: seq<string>, groups: map<string, seq<nat>>) {
    && Distinct(ips)
    && (forall ip :: ip in ips <==> ip in groups)
    && (forall ip | ip in ips :: groups[ip] == Filter(batch, AtIp(table, ip)) && groups[ip] != [])
    && (forall ip | ip !in ips :: Filter(batch, AtIp(table, ip)) == [])
  }

  lemma NothingGrouped(table: seq<RawEvent>)
    ensures GroupedBy(table, [], [], map[])
  {
  }

  lemma AtIpSnoc(table: seq<RawEvent>, batch: seq<nat>, i: nat, ip: string)
    requires i < |table|
    ensures Filter(batch + [i], AtIp(table, ip)) ==
      if table[i].obs.ip == ip then Filter(batch, AtIp(table, ip)) + [i] else Filter(batch, AtIp(table, ip))
  {
    assert (batch + [i])[..|batch|] == batch;
  }

  lemma GroupedStep(table: seq<RawEvent>, batch: seq<nat>, ips: seq<string>, groups: map<string, seq<nat>>, i: nat)
    requires GroupedBy(table, batch, ips, groups) && i < |table|
    ensures var ip := table[i].obs.ip;
      if ip in groups then GroupedBy(table, batch + [i], ips, groups[ip := groups[ip] + [i]])
      else GroupedBy(table, batch + [i], ips + [ip], groups[ip := [i]])
  {
    hide Filter;
    forall ip
      ensures Filter(batch + [i], AtIp(table, ip)) ==
        if table[i].obs.ip == ip then Filter(batch, AtIp(table, ip)) + [i] else Filter(batch, AtIp(table, ip))
    {
      AtIpSnoc(table, batch, i, ip);
    }
  }

  lemma {:induction false} MappedPrefix(table: seq<RawEvent>, table': seq<RawEvent>, done: seq<nat>, ip: string)
    requires InRange(table, done) && |table| <= |table'|
    requires forall i | 0 <= i < |table| :: table'[i] == table[i]
    ensures MappedOf(table', done, ip) == MappedOf(table, done, ip)
  {
    if done == [] {
    } else {
      MappedPrefix(table, table', done[..|done| - 1], ip);
    }
  }

  /** The session found by `order by last_seen desc limit 1` is the source's last. */
  lemma LatestHolds(table: seq<RawEvent>, sessions: seq<Session>, done: seq<nat>, ip: string)
    requires Consistent(table, sessions, done)
    ensures var mine := Filter(sessions, OfIp(ip));
      match Latest(sessions, ip)
      case None => mine == []
      case Some(c) => IsLast(sessions, ip, c) && mine != [] && mine[|mine| - 1] == sessions[c]
  {
    hide Placed, Offline, Filter, Latest;
    var os := MappedOf(table, done, ip);
    MappedIn(table, done, ip);
    OfflineShaped(os, ip, Offline(os));
    LatestIsLast(sessions, ip, Filter(sessions, OfIp(ip)));
  }

  lemma AfterIndex(sessions: seq<Session>, cur: Option<nat>, o: Observation)
    requires cur.Some? ==> cur.value < |sessions|
    ensures After(sessions, cur, o).1 < |After(sessions, cur, o).0|
  {
  }

  lemma DueFirst(table: seq<RawEvent>, ip: string, rows: seq<nat>)
    requires Due(table, ip, rows) && rows != []
    ensures rows[0] < |table| && table[rows[0]].session == None && table[rows[0]].obs.ip == ip
  {
  }

  lemma DueRest(table: seq<RawEvent>, table': seq<RawEvent>, ip: string, rows: seq<nat>)
    requires Due(table, ip, rows) && rows != [] && SameFacts(table, table')
    requires table'[rows[0]].session.Some?
    requires forall i | 0 <= i < |table| && i != rows[0] :: table'[i] == table[i]
    ensures Due(table', ip, rows[1..])
  {
    var rest := rows[1..];
    assert rows == [rows[0]] + rest;
    forall n: nat | n < |rest|
      ensures rest[n] == rows[n + 1] && rest[n] != rows[0]
    {
    }
    forall n: nat, i: nat | n < |rest| && i < |table| && table'[i].session == None && table[i].obs.ip == ip && i !in rest
      ensures table[rest[n]].obs.at <= table[i].obs.at
    {
      assert i != rows[0] && i !in rows;
      assert rest[n] == rows[n + 1];
    }
  }

  /** Mapping the earliest due row leaves no event behind. */
  lemma TimelyStep(table: seq<RawEvent>, table': seq<RawEvent>, ip: string, rows: seq<nat>)
    requires Due(table, ip, rows) && rows != [] && SameFacts(table, table') && Timely(table)
    requires table'[rows[0]].session.Some?
    requires forall i | 0 <= i < |table| && i != rows[0] :: table'[i] == table[i]
    ensures Timely(table')
  {
    var b := rows[0];
    forall i | 0 <= i < |table| && table[i].session == None && table[i].obs.ip == ip && i != b
      ensures table[b].obs.at <= table[i].obs.at
    {
      if i in rows {
        var n :| 0 <= n < |rows| && rows[n] == i;
        assert table[rows[0]].obs.at <= table[rows[n]].obs.at;
      }
    }
  }

  class SessionEngine {
    var events: seq<RawEvent>
    var sessions: seq<Session>
    ghost var done: seq<nat>
    const collation: string -> int

    constructor (collation: string -> int)
      ensures Valid() && events == [] && sessions == [] && this.collation == collation
    {
      this.collation := collation;
      events, sessions, done := [], [], [];
    }

    ghost predicate Valid()
      reads this
    {
      Consistent(events, sessions, done) && Timely(events)
    }

    /** A new raw event arrives; each source's events arrive in time order. */
    method Arrive(o: Observation)
      requires Valid()
      requires forall i | 0 <= i < |events| && events[i].obs.ip == o.ip :: events[i].obs.at <= o.at
      modifies this`events
      ensures Valid() && events == old(events) + [RawEvent(o, None)]
    {
      ghost var before := events;
      events := events + [RawEvent(o, None)];
      forall ip
        ensures MappedOf(events, done, ip) == MappedOf(before, done, ip)
      {
        MappedPrefix(before, events, done, ip);
      }
      assert forall n | 0 <= n < |done| :: events[done[n]] == before[done[n]];
    }

    /** Put one event into the open session, or into a new one after a gap. */
    method MapOne(i: nat, cur: Option<nat>, ghost ip: string, ghost rows: seq<nat>) returns (c: nat)
      requires Valid() && Due(events, ip, rows) && rows != [] && rows[0] == i
      requires cur.Some? ==> cur.value < |sessions|
      requires Holds(sessions, cur, events[i].obs)
      modifies this
      ensures Valid() && done == old(done) + [i] && Due(events, ip, rows[1..])
      ensures |events| == |old(events)| && events[i].obs == old(events)[i].obs && events[i].session.Some?
      ensures forall k | 0 <= k < |events| && k != i :: events[k] == old(events)[k]
      ensures IsLast(sessions, ip, c)
    {
      hide Consistent, Timely, Holds, Due;
      ghost var before := events;
      DueFirst(events, ip, rows);
      var o := events[i].obs;
      var (ss, n) := After(sessions, cur, o);
      AfterIndex(sessions, cur, o);
      c := n;
      events := events[i := events[i].(session := Some(ss[c].id))];
      MapOneKeeps(before, sessions, done, i, cur, events, ss, c);
      sessions := ss;
      done := done + [i];
      DueRest(before, events, ip, rows);
      TimelyStep(before, events, ip, rows);
    }

    /** Map the due rows of one source, resuming its latest session if recent. */
    method MapSource(ip: string, rows: seq<nat>)
      requires Valid() && rows != [] && Due(events, ip, rows)
      modifies this
      ensures Valid() && done == old(done) + rows && SameFacts(old(events), events)
      ensures forall i | 0 <= i < |events| && i !in rows :: events[i] == old(events)[i]
      ensures forall i | 0 <= i < |events| && i in rows :: events[i].session.Some?
    {
      hide Consistent, Timely, Due, Filter;
      DueFirst(events, ip, rows);
      var cur: Option<nat> := Latest(sessions, ip);
      LatestHolds(events, sessions, done, ip);
      if cur.Some? && events[rows[0]].obs.at - sessions[cur.value].last > GAP {
        cur := None;
      }
      assert done + rows[..0] == done && rows[0..] == rows;
      for n := 0 to |rows|
        invariant Valid() && SameFacts(old(events), events)
        invariant done == old(done) + rows[..n]
        invariant Due(events, ip, rows[n..])
        invariant cur.Some? ==> IsLast(sessions, ip, cur.value)
        invariant if n == 0 then Holds(sessions, cur, events[rows[0]].obs) else cur.Some?
        invariant forall i | 0 <= i < |events| && i !in rows[..n] :: events[i] == old(events)[i]
        invariant forall i | 0 <= i < |events| && i in rows[..n] :: events[i].session.Some?
      {
        DueFirst(events, ip, rows[n..]);
        assert rows[n..][0] == rows[n] && rows[n..][1..] == rows[n + 1..];
        assert rows[..n + 1] == rows[..n] + [rows[n]];
        assert old(done) + rows[..n + 1] == old(done) + rows[..n] + [rows[n]];
        var c := MapOne(rows[n], cur, ip, rows[n..]);
        cur := Some(c);
      }
      assert rows[..|rows|] == rows;
    }

    /** `by_ip`: the batch split by source, in order of first appearance. */
    method GroupByIp(batch: seq<nat>) returns (ips: seq<string>, groups: map<string, seq<nat>>)
      requires forall n | 0 <= n < |batch| :: batch[n] < |events|
      ensures Distinct(ips)
      ensures forall ip | ip in ips :: ip in groups && groups[ip] == Filter(batch, AtIp(events, ip)) && groups[ip] != []
      ensures forall n | 0 <= n < |batch| :: events[batch[n]].obs.ip in ips
    {
      hide Filter;
      ips, groups := [], map[];
      assert batch[..0] == [];
      NothingGrouped(events);
      for n := 0 to |batch|
        invariant GroupedBy(events, batch[..n], ips, groups)
        invariant forall m | 0 <= m < n :: events[batch[m]].obs.ip in ips
      {
        var ip := events[batch[n]].obs.ip;
        GroupedStep(events, batch[..n], ips, groups, batch[n]);
        assert batch[..n + 1] == batch[..n] + [batch[n]];
        if ip in groups {
          groups := groups[ip := groups[ip] + [batch[n]]];
        } else {
          ips := ips + [ip];
          groups := groups[ip := [batch[n]]];
        }
      }
      assert batch[..|batch|] == batch;
    }

    /** One run of the job over the batch the query returned. */
    method ProcessUnmapped(batch: seq<nat>)
      requires Valid() && IsBatch(events, batch, collation)
      modifies this
      ensures Valid() && SameFacts(old(events), events)
      ensures forall i | 0 <= i < |events| && i !in batch :: events[i] == old(events)[i]
      ensures forall i | 0 <= i < |events| && i in batch :: events[i].session.Some?
    {
      hide Placed, Offline, MappedOf, Consistent, Timely;
      var ips, groups := GroupByIp(batch);
      ghost var before := events;
      for k := 0 to |ips|
        invariant Valid() && SameFacts(before, events)
        invariant forall i | 0 <= i < |events| && before[i].obs.ip !in ips[..k] :: events[i] == before[i]
        invariant forall i | 0 <= i < |events| && i !in batch :: events[i] == before[i]
        invariant forall i | 0 <= i < |events| && i in batch && before[i].obs.ip in ips[..k] :: events[i].session.Some?
      {
        var ip := ips[k];
        assert ip in ips && ip !in ips[..k];
        assert ips[..k + 1] == ips[..k] + [ip];
        GroupIsDue(before, batch, ip, collation);
        StaysDue(before, events, ip, groups[ip]);
        MapSource(ip, groups[ip]);
        forall i: nat
          ensures i in groups[ip] <==> i in batch && i < |before| && before[i].obs.ip == ip
        {
          FilterIn(batch, AtIp(before, ip), i);
        }
      }
    }
  }

  // ── The result does not depend on the batches ────────────────────────────

  lemma {:induction false} MappedCovers(table: seq<RawEvent>, done: seq<nat>, ip: string, i: nat)
    requires InRange(table, done) && i in done && table[i].obs.ip == ip
    ensures Seen(MappedOf(table, done, ip), table[i].obs.at)
  {
    var rest := done[..|done| - 1];
    var os := MappedOf(table, done, ip);
    if i == done[|done| - 1] {
      assert os[|os| - 1].at == table[i].obs.at;
    } else {
      assert i in rest by {
        var n :| 0 <= n < |done| && done[n] == i;
        assert rest[n] == i;
      }
      MappedCovers(table, rest, ip, i);
      var k :| 0 <= k < |MappedOf(table, rest, ip)| && MappedOf(table, rest, ip)[k].at == table[i].obs.at;
      assert os[k].at == table[i].obs.at;
    }
  }

  ghost predicate AllMapped(table: seq<RawEvent>) {
    forall i | 0 <= i < |table| :: table[i].session.Some?
  }

  lemma SeenOnce(t1: seq<RawEvent>, s1: seq<Session>, d1: seq<nat>, t2: seq<RawEvent>, s2: seq<Session>, d2: seq<nat>,
                 ip: string, u: int)
    requires Consistent(t1, s1, d1) && Consistent(t2, s2, d2)
    requires SameFacts(t1, t2) && AllMapped(t1) && AllMapped(t2)
    requires Seen(MappedOf(t1, d1, ip), u)
    ensures Seen(MappedOf(t2, d2, ip), u)
  {
    hide Placed, Offline, Filter;
    var os := MappedOf(t1, d1, ip);
    var k :| 0 <= k < |os| && os[k].at == u;
    MappedIn(t1, d1, ip);
    var i :| i in d1 && t1[i].obs == os[k];
    assert t2[i].obs == t1[i].obs && t2[i].session.Some?;
    MappedCovers(t2, d2, ip, i);
  }

  lemma SessionIn(table: seq<RawEvent>, sessions: seq<Session>, done: seq<nat>, i: nat) returns (j: nat)
    requires Consistent(table, sessions, done) && i < |table| && table[i].session.Some?
    ensures var ss := Offline(MappedOf(table, done, table[i].obs.ip));
      j < |ss| && InSpan(ss[j])(table[i].obs) && table[i].session == Some(ss[j].id)
  {
    hide Offline, Filter;
    var ip := table[i].obs.ip;
    var n :| 0 <= n < |done| && done[n] == i;
    assert Placed(table[done[n]], sessions);
    var k :| 0 <= k < |sessions| && sessions[k].ip == ip && sessions[k].id == table[i].session.value
             && InSpan(sessions[k])(table[i].obs);
    FilterIn(sessions, OfIp(ip), sessions[k]);
    var ss := Filter(sessions, OfIp(ip));
    j :| 0 <= j < |ss| && ss[j] == sessions[k];
  }

  /** However the same events were batched, once all are mapped every event has
      the same session id. */
  lemma BatchingIndependent(t1: seq<RawEvent>, s1: seq<Session>, d1: seq<nat>,
                            t2: seq<RawEvent>, s2: seq<Session>, d2: seq<nat>, i: nat)
    requires Consistent(t1, s1, d1) && Consistent(t2, s2, d2)
    requires SameFacts(t1, t2) && AllMapped(t1) && AllMapped(t2) && i < |t1|
    ensures t1[i].session == t2[i].session
  {
    hide Placed, Offline, Filter;
    var ip := t1[i].obs.ip;
    var a, b := MappedOf(t1, d1, ip), MappedOf(t2, d2, ip);
    forall u
      ensures Seen(a, u) <==> Seen(b, u)
    {
      if Seen(a, u) {
        SeenOnce(t1, s1, d1, t2, s2, d2, ip, u);
      }
      if Seen(b, u) {
        SeenOnce(t2, s2, d2, t1, s1, d1, ip, u);
      }
    }
    MappedIn(t1, d1, ip);
    MappedIn(t2, d2, ip);
    var j := SessionIn(t1, s1, d1, i);
    var k := SessionIn(t2, s2, d2, i);
    assert t2[i].obs == t1[i].obs;
    SameSession(a, b, ip, Offline(a), Offline(b), j, k, t1[i].obs);
  }

  lemma {:induction false} MappedConcat(table: seq<RawEvent>, a: seq<nat>, b: seq<nat>, ip: string)
    requires InRange(table, a) && InRange(table, b)
    ensures InRange(table, a + b) && MappedOf(table, a + b, ip) == MappedOf(table, a, ip) + MappedOf(table, b, ip)
  {
    if b == [] {
      assert a + b == a;
    } else {
      assert (a + b)[..|a + b| - 1] == a + b[..|b| - 1];
      MappedConcat(table, a, b[..|b| - 1], ip);
    }
  }

  lemma MappedWithout(table: seq<RawEvent>, a: seq<nat>, i: nat, b: seq<nat>, ip: string)
    requires InRange(table, a + [i] + b)
    ensures InRange(table, a + b) && InRange(table, [i])
    ensures multiset(MappedOf(table, a + [i] + b, ip))
      == multiset(MappedOf(table, a + b, ip)) + multiset(MappedOf(table, [i], ip))
  {
    hide MappedOf;
    assert InRange(table, a) && InRange(table, b) && InRange(table, [i]) by {
      assert forall n | 0 <= n < |a| :: (a + [i] + b)[n] == a[n];
      assert forall n | 0 <= n < |b| :: (a + [i] + b)[|a| + 1 + n] == b[n];
      assert (a + [i] + b)[|a|] == i;
    }
    MappedConcat(table, a, [i], ip);
    MappedConcat(table, a + [i], b, ip);
    MappedConcat(table, a, b, ip);
  }

  lemma TakeOut(b: seq<nat>, i: nat) returns (b1: seq<nat>, b2: seq<nat>)
    requires i in multiset(b)
    ensures b == b1 + [i] + b2 && multiset(b) == multiset(b1 + b2) + multiset{i}
  {
    var n :| 0 <= n < |b| && b[n] == i;
    b1, b2 := b[..n], b[n + 1..];
    assert b == b1 + [i] + b2;
  }

  lemma LastOut(a: seq<nat>)
    requires a != []
    ensures a == a[..|a| - 1] + [a[|a| - 1]] + [] && a[..|a| - 1] + [] == a[..|a| - 1]
    ensures multiset(a) == multiset(a[..|a| - 1]) + multiset{a[|a| - 1]}
  {
    assert a == a[..|a| - 1] + [a[|a| - 1]];
  }

  lemma {:induction false} MappedPermuted(table: seq<RawEvent>, a: seq<nat>, b: seq<nat>, ip: string)
    requires InRange(table, a) && InRange(table, b) && multiset(a) == multiset(b)
    ensures multiset(MappedOf(table, a, ip)) == multiset(MappedOf(table, b, ip))
  {
    hide MappedOf;
    if a == [] {
      assert b == [] by {
        assert |multiset(b)| == 0;
      }
    } else {
      var rest, i := a[..|a| - 1], a[|a| - 1];
      LastOut(a);
      var b1, b2 := TakeOut(b, i);
      assert multiset(rest) == multiset(b1 + b2) by {
        assert multiset(rest) == multiset(a) - multiset{i};
        assert multiset(b1 + b2) == multiset(b) - multiset{i};
      }
      MappedWithout(table, rest, i, [], ip);
      MappedWithout(table, b1, i, b2, ip);
      MappedPermuted(table, rest, b1 + b2, ip);
    }
  }

  lemma {:induction false} DistinctCount(xs: seq<nat>, x: nat)
    requires Distinct(xs)
    ensures multiset(xs)[x] == if x in xs then 1 else 0
  {
    if xs == [] {
    } else {
      assert xs == xs[..|xs| - 1] + [xs[|xs| - 1]];
      DistinctCount(xs[..|xs| - 1], x);
    }
  }

  /** Once all events are mapped both times, each source's mapped events are the
      same, up to the order of simultaneous ones. */
  lemma MappedAlike(t1: seq<RawEvent>, s1: seq<Session>, d1: seq<nat>, t2: seq<RawEvent>, s2: seq<Session>, d2: seq<nat>,
                    ip: string)
    requires Consistent(t1, s1, d1) && Consistent(t2, s2, d2)
    requires SameFacts(t1, t2) && AllMapped(t1) && AllMapped(t2)
    ensures multiset(MappedOf(t1, d1, ip)) == multiset(MappedOf(t2, d2, ip))
  {
    hide Placed, Offline, Filter, MappedOf;
    forall x: nat
      ensures multiset(d1)[x] == multiset(d2)[x]
    {
      DistinctCount(d1, x);
      DistinctCount(d2, x);
      assert x in d1 <==> x < |t1|;
      assert x in d2 <==> x < |t2|;
    }
    assert multiset(d1) == multiset(d2);
    MappedPermuted(t1, d1, d2, ip);
    MappedFrame(t1, t2, d2, ip);
  }

  lemma SessionKept(t1: seq<RawEvent>, s1: seq<Session>, d1: seq<nat>, t2: seq<RawEvent>, s2: seq<Session>, d2: seq<nat>,
                    s: Session)
    requires Consistent(t1, s1, d1) && Consistent(t2, s2, d2)
    requires SameFacts(t1, t2) && AllMapped(t1) && AllMapped(t2) && s in s1
    ensures s in s2
  {
    hide Placed, Offline, Filter;
    var ip := s.ip;
    var a, b := MappedOf(t1, d1, ip), MappedOf(t2, d2, ip);
    MappedAlike(t1, s1, d1, t2, s2, d2, ip);
    MappedIn(t1, d1, ip);
    MappedIn(t2, d2, ip);
    FilterIn(s1, OfIp(ip), s);
    var sa, sb := Filter(s1, OfIp(ip)), Filter(s2, OfIp(ip));
    var j :| 0 <= j < |sa| && sa[j] == s;
    var k := SameSummary(a, b, ip, sa, sb, j);
    FilterIn(s2, OfIp(ip), s);
  }

  /** And the session tables hold the same rows, with the same ends, counts and
      levels. */
  lemma SessionsIndependent(t1: seq<RawEvent>, s1: seq<Session>, d1: seq<nat>,
                            t2: seq<RawEvent>, s2: seq<Session>, d2: seq<nat>)
    requires Consistent(t1, s1, d1) && Consistent(t2, s2, d2)
    requires SameFacts(t1, t2) && AllMapped(t1) && AllMapped(t2)
    ensures forall s :: s in s1 <==> s in s2
  {
    hide Consistent;
    forall s | s in s1
      ensures s in s2
    {
      SessionKept(t1, s1, d1, t2, s2, d2, s);
    }
    forall s | s in s2
      ensures s in s1
    {
      SessionKept(t2, s2, d2, t1, s1, d1, s);
    }
  }

  // ── Session ids ──────────────────────────────────────────────────────────

  function IdOf(s: Session): string { s.id }

  lemma {:induction false} FilterTellsApart(ss: seq<Session>, p: Session -> bool, j: nat, k: nat)
    requires j < k < |ss| && p(ss[j]) && p(ss[k]) && DistinctBy(Filter(ss, p), IdOf)
    ensures ss[j].id != ss[k].id
  {
    var n := |ss| - 1;
    var rest := Filter(ss[..n], p);
    if k == n {
      FilterIn(ss[..n], p, ss[j]);
      assert ss[..n][j] == ss[j];
      var i :| 0 <= i < |rest| && rest[i] == ss[j];
      assert Filter(ss, p)[i] == ss[j] && Filter(ss, p)[|rest|] == ss[k];
      assert IdOf(Filter(ss, p)[i]) != IdOf(Filter(ss, p)[|rest|]);
    } else {
      assert DistinctBy(rest, IdOf) by {
        assert forall i | 0 <= i < |rest| :: Filter(ss, p)[i] == rest[i];
      }
      FilterTellsApart(ss[..n], p, j, k);
    }
  }

  lemma NamedByStart(os: seq<Observation>, ip: string, ss: seq<Session>, k: nat) returns (n: nat)
    requires Shaped(os, ip, ss) && CutAtStarts(os, ss) && k < |ss| && OneSource(os, ip)
    ensures ss[k].id == SessionId(ip, ss[k].first) && ss[k].ip == ip
    ensures n < |os| && os[n].at == ss[k].first && os[n].ip == ip
  {
    hide SessionId;
    assert Summarizes(os, ss[k], ip) && IsStart(os, ss[k].first);
    n :| n < |os| && os[n].at == ss[k].first;
  }

  /** A session starts at one of its source's events and its id says so. */
  lemma SessionNamed(table: seq<RawEvent>, sessions: seq<Session>, done: seq<nat>, j: nat) returns (i: nat)
    requires Consistent(table, sessions, done) && j < |sessions|
    ensures sessions[j].id == SessionId(sessions[j].ip, sessions[j].first)
    ensures i < |table| && table[i].obs.ip == sessions[j].ip && table[i].obs.at == sessions[j].first
    ensures DistinctBy(Filter(sessions, OfIp(sessions[j].ip)), IdOf)
  {
    hide Placed, Offline, Filter, SessionId, Summarizes, IsStart;
    var ip := sessions[j].ip;
    var os := MappedOf(table, done, ip);
    var ss := Filter(sessions, OfIp(ip));
    MappedIn(table, done, ip);
    OfflineShaped(os, ip, ss);
    OfflineCuts(os, ip, ss);
    FilterIn(sessions, OfIp(ip), sessions[j]);
    var k :| 0 <= k < |ss| && ss[k] == sessions[j];
    var n := NamedByStart(os, ip, ss, k);
    i :| i in done && table[i].obs == os[n];
    forall m, n | 0 <= m < n < |ss|
      ensures IdOf(ss[m]) != IdOf(ss[n])
    {
      IdsDistinct(os, ip, m, n);
    }
  }

  /** No two sessions of the whole table share an id, if events are stamped after
      the epoch or no source is named like another with a hyphen added. */
  lemma AllIdsDistinct(table: seq<RawEvent>, sessions: seq<Session>, done: seq<nat>, j: nat, k: nat)
    requires Consistent(table, sessions, done) && j < k < |sessions|
    requires (forall i | 0 <= i < |table| :: table[i].obs.at >= 0)
      || (forall m, n | 0 <= m < |table| && 0 <= n < |table| :: table[m].obs.ip != table[n].obs.ip + "-")
    ensures sessions[j].id != sessions[k].id
  {
    hide Consistent, SessionId, Filter;
    var m := SessionNamed(table, sessions, done, j);
    var n := SessionNamed(table, sessions, done, k);
    if sessions[j].ip == sessions[k].ip {
      FilterTellsApart(sessions, OfIp(sessions[j].ip), j, k);
    } else {
      SessionIdsEqualIff(sessions[j].ip, sessions[j].first, sessions[k].ip, sessions[k].first);
    }
  }
}
