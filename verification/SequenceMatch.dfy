/** The one-pass matcher for ordered-step rules, and what it finds. */
module SequenceMatch {
  import opened Collections
  import opened Model

  function Repeat(c: Condition, n: int): seq<Condition> {
    if n <= 0 then [] else [c] + Repeat(c, n - 1)
  }

  /** The steps written out as one list of requirements, each to be met by an
      event of its own: every step's conditions, `minCount` times. */
  function Requirements(steps: seq<Step>): seq<Condition> {
    if steps == [] then []
    else Repeat(Meets(steps[0].conditions), steps[0].minCount) + Requirements(steps[1..])
  }

  /** `ps` are strictly increasing positions, none before `from`, whose events
      meet the requirements one by one. */
  ghost predicate Fulfils(req: seq<Condition>, events: seq<Event>, from: nat, ps: seq<nat>) {
    && |ps| == |req|
    && (forall i | 0 <= i < |ps| :: from <= ps[i] < |events| && req[i](events[ps[i]]))
    && (forall i, j | 0 <= i < j < |ps| :: ps[i] < ps[j])
  }

  /** The positions a left-to-right scan takes. */
  function Scan(req: seq<Condition>, events: seq<Event>, from: nat): Option<seq<nat>>
    requires from <= |events|
    decreases |events| - from
  {
    if req == [] then Some([])
    else if from == |events| then None
    else if req[0](events[from]) then
      match Scan(req[1..], events, from + 1)
      case None => None
      case Some(ps) => Some([from] + ps)
    else Scan(req, events, from + 1)
  }

  function Pick(events: seq<Event>, ps: seq<nat>): seq<Event>
    requires forall i | 0 <= i < |ps| :: ps[i] < |events|
  {
    seq(|ps|, i requires 0 <= i < |ps| => events[ps[i]])
  }

  lemma {:induction false} ScanSound(req: seq<Condition>, events: seq<Event>, from: nat)
    requires from <= |events|
    ensures var r := Scan(req, events, from); r.Some? ==> Fulfils(req, events, from, r.value)
    decreases |events| - from
  {
    if req == [] || from == |events| {
    } else if req[0](events[from]) {
      ScanSound(req[1..], events, from + 1);
    } else {
      ScanSound(req, events, from + 1);
    }
  }

  /** The scan succeeds whenever anything does, and position by position it is
      never later than any other choice. */
  lemma {:induction false} ScanEarliest(req: seq<Condition>, events: seq<Event>, from: nat, qs: seq<nat>)
    requires from <= |events|
    requires Fulfils(req, events, from, qs)
    ensures var r := Scan(req, events, from);
      r.Some? && |r.value| == |qs| && forall i | 0 <= i < |qs| :: r.value[i] <= qs[i]
    decreases |events| - from
  {
    if req == [] {
    } else {
      assert from <= qs[0];
      if req[0](events[from]) {
        forall i | 0 <= i < |qs[1..]|
          ensures from + 1 <= qs[1..][i] < |events| && req[1..][i](events[qs[1..][i]])
        {
          assert qs[0] < qs[i + 1];
        }
        ScanEarliest(req[1..], events, from + 1, qs[1..]);
        var r := Scan(req, events, from).value;
        forall i | 0 <= i < |qs|
          ensures r[i] <= qs[i]
        {
          if i > 0 {
            assert r[i] == Scan(req[1..], events, from + 1).value[i - 1] <= qs[1..][i - 1];
          }
        }
      } else {
        assert qs[0] != from;
        forall i | 0 <= i < |qs|
          ensures from + 1 <= qs[i] && req[i](events[qs[i]])
        {
          assert i == 0 || qs[0] < qs[i];
        }
        ScanEarliest(req, events, from + 1, qs);
      }
    }
  }

  function Found(events: seq<Event>, r: Option<seq<nat>>): seq<Event>
    requires r.Some? ==> forall i | 0 <= i < |r.value| :: r.value[i] < |events|
  {
    match r
    case None => []
    case Some(ps) => Pick(events, ps)
  }

  /** What `_match_sequence` returns. */
  function Matched(steps: seq<Step>, events: seq<Event>): seq<Event> {
    var evs := TimeSorted(events);
    ScanSound(Requirements(steps), evs, 0);
    Found(evs, Scan(Requirements(steps), evs, 0))
  }

  /** `head` positions taken so far, then what the rest of the scan takes. */
  ghost function Continue(head: seq<nat>, rest: Option<seq<nat>>): Option<seq<nat>> {
    match rest
    case None => None
    case Some(ps) => Some(head + ps)
  }

  /** Loop invariant of the matcher: `used` are the events at the positions
      `taken`, and scanning from `idx` for `todo` completes the answer `all`. */
  ghost predicate Progress(all: Option<seq<nat>>, events: seq<Event>, idx: nat, taken: seq<nat>,
                           used: seq<Event>, todo: seq<Condition>)
  {
    && idx <= |events|
    && (forall i | 0 <= i < |taken| :: taken[i] < |events|)
    && used == Pick(events, taken)
    && all == Continue(taken, Scan(todo, events, idx))
  }

  lemma Advance(all: Option<seq<nat>>, events: seq<Event>, idx: nat, taken: seq<nat>,
                used: seq<Event>, todo: seq<Condition>)
    requires Progress(all, events, idx, taken, used, todo)
    requires idx < |events| && todo != []
    ensures if todo[0](events[idx])
            then Progress(all, events, idx + 1, taken + [idx], used + [events[idx]], todo[1..])
            else Progress(all, events, idx + 1, taken, used, todo)
  {
    if todo[0](events[idx]) {
      var rest := Scan(todo[1..], events, idx + 1);
      assert rest.Some? ==> taken + ([idx] + rest.value) == taken + [idx] + rest.value;
    }
  }

  /** One step: read on from `start` until `minCount` events meet its conditions
      or the events run out. */
  method MatchStep(cond: Condition, minCount: int, events: seq<Event>, start: nat, used: seq<Event>,
                   ghost all: Option<seq<nat>>, ghost taken: seq<nat>, ghost later: seq<Condition>)
    returns (hits: seq<Event>, idx: nat, ghost taken': seq<nat>)
    requires Progress(all, events, start, taken, used, Repeat(cond, minCount) + later)
    ensures |hits| < minCount ==> all == None
    ensures |hits| >= minCount ==> Progress(all, events, idx, taken', used + hits, later)
  {
    idx, hits, taken' := start, [], taken;
    assert used + hits == used;
    while idx < |events| && |hits| < minCount
      invariant hits == [] || |hits| <= minCount
      invariant Progress(all, events, idx, taken', used + hits, Repeat(cond, minCount - |hits|) + later)
    {
      var e := events[idx];
      ghost var todo := Repeat(cond, minCount - |hits|) + later;
      Advance(all, events, idx, taken', used + hits, todo);
      assert todo[1..] == Repeat(cond, minCount - |hits| - 1) + later;
      if cond(e) {
        assert used + hits + [e] == used + (hits + [e]);
        hits, taken' := hits + [e], taken' + [idx];
      }
      idx := idx + 1;
    }
    if |hits| >= minCount {
      assert Repeat(cond, minCount - |hits|) + later == later;
    }
  }

  method MatchSequence(steps: seq<Step>, events: seq<Event>) returns (used: seq<Event>)
    ensures used == Matched(steps, events)
  {
    var evs := TimeSorted(events);
    ScanSound(Requirements(steps), evs, 0);
    ghost var all := Scan(Requirements(steps), evs, 0);
    ghost var taken: seq<nat> := [];
    var idx: nat := 0;
    used := [];
    assert steps[0..] == steps;
    assert all.Some? ==> taken + all.value == all.value;
    for s := 0 to |steps|
      invariant Progress(all, evs, idx, taken, used, Requirements(steps[s..]))
    {
      assert steps[s..][1..] == steps[s + 1..];
      var hits;
      hits, idx, taken := MatchStep(Meets(steps[s].conditions), steps[s].minCount, evs, idx, used,
                                    all, taken, Requirements(steps[s + 1..]));
      if |hits| < steps[s].minCount {
        return [];
      }
      used := used + hits;
    }
    assert steps[|steps|..] == [];
    assert taken + [] == taken;
  }

  /** Some choice of strictly increasing positions meets all steps. */
  ghost predicate Matchable(steps: seq<Step>, events: seq<Event>) {
    exists ps :: Fulfils(Requirements(steps), TimeSorted(events), 0, ps)
  }

  /** A rule matches exactly when its steps ask for at least one event and the
      events offer a choice that meets them all. */
  lemma MatchIff(steps: seq<Step>, events: seq<Event>)
    ensures Matched(steps, events) != [] <==> Requirements(steps) != [] && Matchable(steps, events)
  {
    var req, evs := Requirements(steps), TimeSorted(events);
    ScanSound(req, evs, 0);
    var r := Scan(req, evs, 0);
    if r.Some? {
      assert Fulfils(req, evs, 0, r.value);
      assert |Matched(steps, events)| == |r.value| == |req|;
      assert Matched(steps, events) != [] <==> req != [];
    } else {
      assert Matched(steps, events) == [];
      forall ps | Fulfils(req, evs, 0, ps)
        ensures false
      {
        ScanEarliest(req, evs, 0, ps);
      }
    }
  }

  // ── The same, in terms of the steps as they are written ──────────────────

  ghost function AtLeastNone(n: int): nat {
    if n > 0 then n else 0
  }

  /** The events are those of the steps one after another: as many for each step
      as it asks for, each meeting all of its conditions. */
  ghost predicate InSteps(steps: seq<Step>, hits: seq<Event>)
    decreases |steps|
  {
    if steps == [] then hits == []
    else
      var n := AtLeastNone(steps[0].minCount);
      && n <= |hits|
      && (forall i, j | 0 <= i < n && 0 <= j < |steps[0].conditions| :: steps[0].conditions[j](hits[i]))
      && InSteps(steps[1..], hits[n..])
  }

  lemma {:induction false} RepeatIs(c: Condition, n: int)
    ensures |Repeat(c, n)| == AtLeastNone(n) && forall i | 0 <= i < |Repeat(c, n)| :: Repeat(c, n)[i] == c
    decreases AtLeastNone(n)
  {
    if n <= 0 {
    } else {
      RepeatIs(c, n - 1);
    }
  }

  lemma StepsSplit(c: Condition, minCount: int, rest: seq<Condition>, hits: seq<Event>)
    requires AtLeastNone(minCount) <= |hits|
    ensures var n := AtLeastNone(minCount); var all := Repeat(c, minCount) + rest;
      (|hits| == |all| && forall i | 0 <= i < |hits| :: all[i](hits[i])) <==>
      (forall i | 0 <= i < n :: c(hits[i])) && |hits[n..]| == |rest| && forall i | 0 <= i < |hits[n..]| :: rest[i](hits[n..][i])
  {
    var n := AtLeastNone(minCount);
    var all := Repeat(c, minCount) + rest;
    RepeatIs(c, minCount);
    if |hits| == |all| && forall i | 0 <= i < |hits| :: all[i](hits[i]) {
      forall i | 0 <= i < n
        ensures c(hits[i])
      {
        assert all[i](hits[i]);
      }
      forall i | 0 <= i < |rest|
        ensures rest[i](hits[n..][i])
      {
        assert all[n + i](hits[n + i]);
      }
    }
  }

  lemma {:induction false} InStepsIff(steps: seq<Step>, hits: seq<Event>)
    ensures InSteps(steps, hits) <==>
      |hits| == |Requirements(steps)| && forall i | 0 <= i < |hits| :: Requirements(steps)[i](hits[i])
    decreases |steps|
  {
    if steps == [] {
    } else {
      var n, c := AtLeastNone(steps[0].minCount), Meets(steps[0].conditions);
      var rest := Requirements(steps[1..]);
      RepeatIs(c, steps[0].minCount);
      assert Requirements(steps) == Repeat(c, steps[0].minCount) + rest;
      if n <= |hits| {
        InStepsIff(steps[1..], hits[n..]);
        StepsSplit(c, steps[0].minCount, rest, hits);
      }
    }
  }

  /** A rule matches exactly when some events, left in time order, are those of
      its steps one after another. */
  lemma MatchesIff(steps: seq<Step>, events: seq<Event>)
    ensures Matched(steps, events) != [] <==>
      exists hits :: InSteps(steps, hits) && hits != [] && Subsequence(hits, TimeSorted(events))
  {
    var req, evs := Requirements(steps), TimeSorted(events);
    MatchIff(steps, events);
    if Matched(steps, events) != [] {
      var ps :| Fulfils(req, evs, 0, ps);
      var hits := Pick(evs, ps);
      assert IsSelection(hits, evs, ps);
      InStepsIff(steps, hits);
    }
    forall hits | InSteps(steps, hits) && hits != [] && Subsequence(hits, evs)
      ensures req != [] && Matchable(steps, events)
    {
      InStepsIff(steps, hits);
      var at :| IsSelection(hits, evs, at);
      assert Fulfils(req, evs, 0, at);
    }
  }

  /** The matched events are the earliest: the i-th is at or before the i-th of
      every other choice, in position and so in time. */
  lemma MatchEarliest(steps: seq<Step>, events: seq<Event>, qs: seq<nat>)
    requires Fulfils(Requirements(steps), TimeSorted(events), 0, qs)
    ensures var m := Matched(steps, events); var evs := TimeSorted(events);
      && |m| == |qs|
      && forall i | 0 <= i < |qs| :: m[i].timestamp <= evs[qs[i]].timestamp
  {
    var evs := TimeSorted(events);
    ScanSound(Requirements(steps), evs, 0);
    ScanEarliest(Requirements(steps), evs, 0, qs);
    var ps := Scan(Requirements(steps), evs, 0).value;
    forall i | 0 <= i < |qs|
      ensures Pick(evs, ps)[i].timestamp <= evs[qs[i]].timestamp
    {
      assert ps[i] <= qs[i];
    }
  }

  /** More events never lose a match: whatever list a matching list can be
      obtained from by leaving events out also matches, in whatever order the
      events are given. */
  lemma MatchMonotone(steps: seq<Step>, sub: seq<Event>, events: seq<Event>)
    requires Subsequence(sub, events)
    requires Matched(steps, sub) != []
    ensures Matched(steps, events) != []
  {
    var a, b := TimeSorted(sub), TimeSorted(events);
    var at :| IsSelection(sub, events, at);
    SelectionIsSub(sub, events, at);
    SubSort(sub, events, ByTimestamp);
    var keep := SubIsSelection(a, b);
    MatchIff(steps, sub);
    var ps :| Fulfils(Requirements(steps), a, 0, ps);
    var qs := seq(|ps|, i requires 0 <= i < |ps| => keep[ps[i]]);
    assert Fulfils(Requirements(steps), b, 0, qs);
    MatchIff(steps, events);
  }

  /** Matched events are in time order, all taken from the given events. */
  lemma MatchedFacts(steps: seq<Step>, events: seq<Event>)
    ensures InTimeOrder(Matched(steps, events))
    ensures forall i | 0 <= i < |Matched(steps, events)| :: Matched(steps, events)[i] in events
  {
    var evs := TimeSorted(events);
    ScanSound(Requirements(steps), evs, 0);
    var m := Matched(steps, events);
    forall i | 0 <= i < |m|
      ensures m[i] in events
    {
      TimeSortedIn(events, m[i]);
    }
  }
}
