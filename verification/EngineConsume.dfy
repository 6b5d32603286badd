/** What a run of cycles consumes of the log: exactly when nothing is lost, and
    in which order. */
module Consumption {
  import opened Collections
  import opened Model
  import opened Correlation
  import opened Engine
  import opened Safety
  import opened Cursor
  import opened Runs
  import opened Analyst

  // ── Accounting, whatever the ingest times ────────────────────────────────

  /** The cursor has moved only forward since it was at `start`. */
  ghost predicate Begun(w: World) {
    match w.start
    case None => w.consumed == [] && w.tables.cursor == None
    case Some(c0) => w.tables.cursor.Some? && c0 <= w.tables.cursor.value
  }

  /** Every event of the log stamped after `start` is either consumed or still
      ahead of the cursor, and each once. */
  ghost predicate Accounted(w: World) {
    match w.start
    case None => true
    case Some(c0) =>
      w.tables.cursor.Some?
      && multiset(Pending(w.log, c0)) == multiset(w.consumed) + multiset(Pending(w.log, w.tables.cursor.value))
  }

  /** How many events are neither. */
  ghost function Lost(w: World): int
    requires Begun(w)
  {
    match w.start
    case None => 0
    case Some(c0) => |Pending(w.log, c0)| - |w.consumed| - |Pending(w.log, w.tables.cursor.value)|
  }

  /** A cycle whose batch edge falls between different ingest times; a commit
      stamped after the cursor (or before the start, which is out of reach). */
  ghost predicate Clean(w: World, a: Action) {
    match a
    case Handle(_, _) => true
    case Tick(now, _, _) => !TieAtEdge(Sort(Pending(w.log, CursorOf(w.tables, now)), ByIngest))
    case Ingest(events) =>
      w.start.Some? && w.tables.cursor.Some? ==>
        forall k | 0 <= k < |events| :: events[k].ingestedAt > w.tables.cursor.value || events[k].ingestedAt <= w.start.value
  }

  ghost predicate CleanRun(w: World, actions: seq<Action>)
    decreases |actions|
  {
    actions != [] ==> Clean(w, actions[0]) && CleanRun(Act(w, actions[0]), actions[1..])
  }

  lemma AccountedLosesNone(w: World)
    requires Begun(w) && Accounted(w)
    ensures Lost(w) == 0
  {
    if w.start.Some? {
      var p, c, q := Pending(w.log, w.start.value), w.consumed, Pending(w.log, w.tables.cursor.value);
      assert |multiset(p)| == |multiset(c)| + |multiset(q)|;
    }
  }

  lemma {:induction false} LatestOfSorted(batch: seq<Event>)
    requires batch != [] && Sorted(batch, ByIngest)
    ensures LatestIngest(batch) == batch[|batch| - 1].ingestedAt
  {
    if |batch| == 1 {
    } else {
      assert ByIngest(batch[|batch| - 2], batch[|batch| - 1]);
      LatestOfSorted(batch[..|batch| - 1]);
    }
  }

  lemma BatchFirst(log: seq<Event>, since: int, sorted: seq<Event>, batch: seq<Event>, next: int)
    requires sorted == Sort(Pending(log, since), ByIngest)
    requires batch == NextBatch(log, since) && batch != [] && next == LatestIngest(batch)
    ensures next > since && |batch| <= |sorted| && batch == sorted[..|batch|] && next == sorted[|batch| - 1].ingestedAt
    ensures multiset(Pending(log, since)) == multiset(sorted) && Sorted(sorted, ByIngest)
  {
    hide Filter, Sort;
    assert TotalPreorder(ByIngest);
    SortCorrect(Pending(log, since), ByIngest);
    LatestOfSorted(batch);
    SortIn(Pending(log, since), ByIngest, batch[|batch| - 1]);
    FilterIn(log, After(since), batch[|batch| - 1]);
  }

  /** In an ordered list nothing up to position `n` is after that position. */
  lemma FilterRest(sorted: seq<Event>, n: nat, next: int)
    requires Sorted(sorted, ByIngest) && 0 < n <= |sorted| && next == sorted[n - 1].ingestedAt
    ensures Filter(sorted, After(next)) == Filter(sorted[n..], After(next))
  {
    hide Filter;
    var batch := sorted[..n];
    assert sorted == batch + sorted[n..];
    FilterConcat(batch, sorted[n..], After(next));
    forall k | 0 <= k < n
      ensures !After(next)(batch[k])
    {
      if k < n - 1 {
        assert ByIngest(sorted[k], sorted[n - 1]);
      }
    }
    FilterNone(batch, After(next));
    assert [] + Filter(sorted[n..], After(next)) == Filter(sorted[n..], After(next));
  }

  /** What one batch leaves pending: of the events behind it in ingest order
      exactly those stamped later than its last. */
  lemma BatchLeaves(log: seq<Event>, since: int, sorted: seq<Event>, batch: seq<Event>, next: int)
    requires sorted == Sort(Pending(log, since), ByIngest)
    requires batch == NextBatch(log, since) && batch != [] && next == LatestIngest(batch)
    ensures next > since && |batch| <= |sorted| && batch == sorted[..|batch|] && next == sorted[|batch| - 1].ingestedAt
    ensures multiset(Pending(log, since)) == multiset(sorted) && Sorted(sorted, ByIngest)
    ensures multiset(Pending(log, next)) == multiset(Filter(sorted[|batch|..], After(next)))
  {
    hide Filter, Sort, NextBatch, LatestIngest, Sorted;
    BatchFirst(log, since, sorted, batch, next);
    FilterTwice(log, After(since), After(next));
    FilterPermuted(Pending(log, since), sorted, After(next));
    FilterRest(sorted, |batch|, next);
  }

  /** Nothing is skipped exactly when the edge does not split equal times. */
  lemma EdgeIff(sorted: seq<Event>, batch: seq<Event>, next: int)
    requires Sorted(sorted, ByIngest) && |batch| <= |sorted| && batch == sorted[..|batch|]
    requires batch == Take(sorted, BATCH_LIMIT) && batch != [] && next == batch[|batch| - 1].ingestedAt
    ensures |Filter(sorted[|batch|..], After(next))| <= |sorted| - |batch|
    ensures TieAtEdge(sorted) ==> |Filter(sorted[|batch|..], After(next))| < |sorted| - |batch|
    ensures !TieAtEdge(sorted) ==> Filter(sorted[|batch|..], After(next)) == sorted[|batch|..]
  {
    var n := |batch|;
    var rest := sorted[n..];
    if TieAtEdge(sorted) {
      assert rest[0] == sorted[n];
      FilterLess(rest, After(next), 0);
    } else {
      forall k | 0 <= k < |rest|
        ensures After(next)(rest[k])
      {
        assert ByIngest(sorted[n - 1], sorted[n]);
        if k > 0 {
          assert ByIngest(sorted[n], sorted[n + k]);
        }
      }
      FilterAll(rest, After(next));
    }
  }

  lemma HeadOf(log: seq<Event>, since: int, sorted: seq<Event>, batch: seq<Event>)
    requires batch == NextBatch(log, since) && sorted == Sort(Pending(log, since), ByIngest)
    ensures batch == Take(sorted, BATCH_LIMIT)
  {
  }

  /** Moving a batch from pending to consumed. */
  lemma TickAccounts(w: World, since: int, batch: seq<Event>, w': World)
    requires Begun(w) && since == (if w.tables.cursor.Some? then w.tables.cursor.value else since)
    requires batch == NextBatch(w.log, since) && batch != []
    requires w'.log == w.log && w'.consumed == w.consumed + batch && w'.tables.cursor == Some(LatestIngest(batch))
    requires w'.start == if w.start == None then Some(since) else w.start
    ensures Begun(w') && Lost(w') >= Lost(w)
    ensures if TieAtEdge(Sort(Pending(w.log, since), ByIngest)) then Lost(w') > Lost(w) else Accounted(w) ==> Accounted(w')
  {
    hide Filter, NextBatch, LatestIngest, TieAtEdge;
    var next := LatestIngest(batch);
    var sorted := Sort(Pending(w.log, since), ByIngest);
    BatchLeaves(w.log, since, sorted, batch, next);
    HeadOf(w.log, since, sorted, batch);
    EdgeIff(sorted, batch, next);
    var left := Filter(sorted[|batch|..], After(next));
    assert |multiset(Pending(w.log, next))| == |multiset(left)|;
    assert |multiset(Pending(w.log, since))| == |multiset(sorted)|;
    assert sorted == batch + sorted[|batch|..];
  }

  /** What new commits add to both sides of the account. */
  lemma CommitsAdd(log: seq<Event>, events: seq<Event>, c0: int, c: int)
    requires c0 <= c
    ensures Pending(log + events, c0) == Pending(log, c0) + Filter(events, After(c0))
    ensures Pending(log + events, c) == Pending(log, c) + Filter(events, After(c))
    ensures |Filter(events, After(c))| <= |Filter(events, After(c0))|
    ensures (forall k | 0 <= k < |events| :: events[k].ingestedAt > c || events[k].ingestedAt <= c0) ==>
      Filter(events, After(c0)) == Filter(events, After(c))
    ensures !(forall k | 0 <= k < |events| :: events[k].ingestedAt > c || events[k].ingestedAt <= c0) ==>
      |Filter(events, After(c))| < |Filter(events, After(c0))|
  {
    hide Filter;
    FilterConcat(log, events, After(c0));
    FilterConcat(log, events, After(c));
    FilterTwice(events, After(c0), After(c));
    var reached := Filter(events, After(c0));
    if forall k | 0 <= k < |events| :: events[k].ingestedAt > c || events[k].ingestedAt <= c0 {
      FilterSame(events, After(c0), After(c));
    } else {
      var k :| 0 <= k < |events| && c0 < events[k].ingestedAt <= c;
      FilterIn(events, After(c0), events[k]);
      var i :| 0 <= i < |reached| && reached[i] == events[k];
      FilterLess(reached, After(c), i);
    }
  }

  /** New commits: each is pending, or out of reach, or lost. */
  lemma IngestAccounts(w: World, events: seq<Event>)
    requires Begun(w)
    ensures var w' := w.(log := w.log + events);
      && Begun(w') && Lost(w') >= Lost(w)
      && if Clean(w, Ingest(events)) then Accounted(w) ==> Accounted(w') else Lost(w') > Lost(w)
  {
    hide Pending, Filter;
    if w.start.Some? {
      CommitsAdd(w.log, events, w.start.value, w.tables.cursor.value);
    }
  }

  lemma NothingPending(log: seq<Event>, since: int)
    requires NextBatch(log, since) == []
    ensures !TieAtEdge(Sort(Pending(log, since), ByIngest))
  {
  }

  lemma EditLeavesCursor(w: World, now: int, edit: Edit)
    ensures Act(w, Handle(now, edit)).tables.cursor == w.tables.cursor
  {
    EditKeeps(w.tables, w.log, now, edit);
  }

  lemma StepAccounts(w: World, a: Action, catalogue: seq<Rule>)
    requires Begun(w) && (a.Tick? ==> Drawn(a.rules, catalogue))
    ensures Begun(Act(w, a)) && Lost(Act(w, a)) >= Lost(w)
    ensures if Clean(w, a) then Accounted(w) ==> Accounted(Act(w, a)) else Lost(Act(w, a)) > Lost(w)
  {
    hide Filter, NextBatch, LatestIngest, TieAtEdge, Cycle, Drawn;
    match a {
      case Ingest(events) =>
        IngestAccounts(w, events);
      case Handle(now, edit) =>
        EditLeavesCursor(w, now, edit);
      case Tick(now, reports, rules) =>
        CommitsWhenDrawn(w.tables, w.log, rules, catalogue, now, reports);
        var since := CursorOf(w.tables, now);
        var batch := NextBatch(w.log, since);
        if batch == [] {
          EmptyCycle(w.tables, w.log, rules, now, reports);
          assert w.consumed + batch == w.consumed;
          NothingPending(w.log, since);
        } else {
          var p, t0, u := CycleParts(w.tables, w.log, rules, now, reports, Cycle(w.tables, w.log, rules, now, reports).value);
          TickAccounts(w, since, batch, Act(w, a));
        }
    }
  }

  lemma {:induction false} LossStays(w: World, actions: seq<Action>, catalogue: seq<Rule>)
    requires Begun(w) && RulesDrawn(actions, catalogue)
    ensures Begun(Run(w, actions)) && Lost(Run(w, actions)) >= Lost(w)
    decreases |actions|
  {
    hide Act, Begun, Lost, Drawn;
    if actions == [] {
    } else {
      StepAccounts(w, actions[0], catalogue);
      LossStays(Act(w, actions[0]), actions[1..], catalogue);
    }
  }

  /** Over every run, with any ingest times whatever: consumed and pending are
      together the whole log after the start if and only if no cycle's batch edge
      fell between equal ingest times and every later commit was stamped after
      the cursor it met. A lost event stays lost. */
  lemma {:induction false} RunAccountedIff(w: World, actions: seq<Action>, catalogue: seq<Rule>)
    requires Begun(w) && Accounted(w) && RulesDrawn(actions, catalogue)
    ensures Accounted(Run(w, actions)) <==> CleanRun(w, actions)
    decreases |actions|
  {
    hide Act, Begun, Lost, Drawn, Accounted, Clean;
    if actions == [] {
    } else {
      var u := Act(w, actions[0]);
      AccountedLosesNone(w);
      StepAccounts(w, actions[0], catalogue);
      if Clean(w, actions[0]) {
        RunAccountedIff(u, actions[1..], catalogue);
      } else {
        LossStays(u, actions[1..], catalogue);
        if Accounted(Run(w, actions)) {
          AccountedLosesNone(Run(w, actions));
        }
      }
    }
  }

  // ── In order, when ingest times strictly increase ────────────────────────

  /** Some committed event carries this ingest time. */
  ghost predicate Stamped(log: seq<Event>, at: int) {
    exists k :: 0 <= k < |log| && log[k].ingestedAt == at
  }

  /** The consumed events are exactly the log after `start` up to the cursor, in
      log order, and the rest is what the cursor still has ahead of it. */
  ghost predicate ConsumedInOrder(w: World) {
    && IngestIncreasing(w.log)
    && match w.start
       case None => w.consumed == [] && w.tables.cursor == None
       case Some(c0) =>
         && w.tables.cursor.Some?
         && Pending(w.log, c0) == w.consumed + Pending(w.log, w.tables.cursor.value)
         && c0 <= w.tables.cursor.value
         && ((w.consumed == [] && w.tables.cursor.value == c0) || Stamped(w.log, w.tables.cursor.value))
  }

  lemma NoTies(log: seq<Event>, cursor: int)
    requires IngestIncreasing(log)
    ensures !TieAtEdge(Pending(log, cursor)) && IngestOrdered(log)
  {
    var n := PendingIsTail(log, cursor);
  }

  lemma LatestInLog(log: seq<Event>, cursor: int, batch: seq<Event>)
    requires IngestOrdered(log) && batch == NextBatch(log, cursor) && batch != []
    ensures Stamped(log, LatestIngest(batch))
  {
    BatchIsHead(log, cursor);
    var n := PendingIsTail(log, cursor);
    LatestIsLast(batch);
    assert batch[|batch| - 1] == log[n + |batch| - 1];
  }

  lemma TickInOrder(w: World, since: int, batch: seq<Event>, next: int, w': World)
    requires ConsumedInOrder(w) && since == (if w.tables.cursor.Some? then w.tables.cursor.value else since)
    requires batch == NextBatch(w.log, since) && batch != [] && next == LatestIngest(batch)
    requires w'.log == w.log && w'.consumed == w.consumed + batch && w'.tables.cursor == Some(next)
    requires w'.start == if w.start == None then Some(since) else w.start
    ensures ConsumedInOrder(w')
  {
    hide NextBatch, Filter, LatestIngest;
    NoTies(w.log, since);
    CursorLosesNothingIff(w.log, since, batch, next);
    var pending := Pending(w.log, since);
    assert pending == batch + Pending(w.log, next);
    assert w.consumed + pending == w.consumed + batch + Pending(w.log, next);
    LatestInLog(w.log, since, batch);
  }

  lemma IngestInOrder(w: World, events: seq<Event>)
    requires ConsumedInOrder(w) && IngestIncreasing(w.log + events)
    ensures ConsumedInOrder(w.(log := w.log + events))
  {
    hide Filter;
    if w.start.Some? {
      var c0, c := w.start.value, w.tables.cursor.value;
      FilterConcat(w.log, events, After(c0));
      FilterConcat(w.log, events, After(c));
      if !(w.consumed == [] && c == c0) {
        var k :| 0 <= k < |w.log| && w.log[k].ingestedAt == c;
        forall j | 0 <= j < |events|
          ensures events[j].ingestedAt > c
        {
          assert (w.log + events)[k] == w.log[k] && (w.log + events)[|w.log| + j] == events[j];
        }
        FilterSame(events, After(c0), After(c));
        assert (w.log + events)[k].ingestedAt == c;
      }
      assert Pending(w.log, c0) + Filter(events, After(c)) == w.consumed + (Pending(w.log, c) + Filter(events, After(c)));
    }
  }

  lemma ActInOrder(w: World, a: Action, catalogue: seq<Rule>)
    requires ConsumedInOrder(w) && (a.Tick? ==> Drawn(a.rules, catalogue)) && IngestIncreasing(Act(w, a).log)
    ensures ConsumedInOrder(Act(w, a))
  {
    hide Filter, NextBatch, LatestIngest, TieAtEdge, Cycle, Drawn, IngestIncreasing;
    match a {
      case Ingest(events) =>
        IngestInOrder(w, events);
      case Handle(now, edit) =>
        EditLeavesCursor(w, now, edit);
      case Tick(now, reports, rules) =>
        CommitsWhenDrawn(w.tables, w.log, rules, catalogue, now, reports);
        var since := CursorOf(w.tables, now);
        var batch := NextBatch(w.log, since);
        if batch == [] {
          EmptyCycle(w.tables, w.log, rules, now, reports);
          assert w.consumed + batch == w.consumed;
        } else {
          var p, t0, u := CycleParts(w.tables, w.log, rules, now, reports, Cycle(w.tables, w.log, rules, now, reports).value);
          TickInOrder(w, since, batch, LatestIngest(batch), Act(w, a));
        }
    }
  }

  lemma IncreasingPrefix(log: seq<Event>, longer: seq<Event>)
    requires log <= longer && IngestIncreasing(longer)
    ensures IngestIncreasing(log)
  {
  }

  lemma {:induction false} LogGrows(w: World, actions: seq<Action>)
    ensures w.log <= Run(w, actions).log
    decreases |actions|
  {
    hide Cycle, Apply, NextBatch;
    if actions == [] {
    } else {
      LogGrows(Act(w, actions[0]), actions[1..]);
    }
  }

  /** When ingest times strictly increase in commit order, every run consumes the
      log after its start once, in order and without a gap. */
  lemma {:induction false} RunInOrder(w: World, actions: seq<Action>, catalogue: seq<Rule>)
    requires ConsumedInOrder(w) && RulesDrawn(actions, catalogue) && IngestIncreasing(Run(w, actions).log)
    ensures ConsumedInOrder(Run(w, actions))
    decreases |actions|
  {
    hide Act, ConsumedInOrder, Drawn, IngestIncreasing;
    if actions == [] {
    } else {
      var u := Act(w, actions[0]);
      LogGrows(u, actions[1..]);
      IncreasingPrefix(u.log, Run(u, actions[1..]).log);
      ActInOrder(w, actions[0], catalogue);
      RunInOrder(u, actions[1..], catalogue);
    }
  }
}
