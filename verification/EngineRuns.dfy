/** Whole runs: ingestion, detection cycles and analysts' edits in any order. */
module Runs {
  import opened Collections
  import opened Model
  import opened Rules
  import opened Iocs
  import opened Scoring
  import opened Correlation
  import opened Engine
  import opened Replay
  import opened Safety
  import opened Analyst

  /** Every detection with a source is linked to an incident. */
  ghost predicate NoOrphans(t: Tables) {
    forall k | 0 <= k < |t.detections| && OwnerOf(t.detections[k]) != "" :: t.detections[k].incident.Some?
  }

  /** What holds whatever analysts do and whatever the clock shows. */
  ghost predicate TablesSound(t: Tables, catalogue: seq<Rule>) {
    LinksOwned(t) && DetectionsNamed(t.detections, catalogue) && NoOrphans(t)
  }

  ghost predicate TablesSafe(t: Tables, catalogue: seq<Rule>, now: int) {
    TablesSound(t, catalogue) && IncidentsOrdered(t.incidents, now) && LinksCovered(t)
  }

  /** Detection rows are only added; a row changes at most by a later
      `last_event_at`. */
  ghost predicate DetectionsEvolve(ds: seq<Detection>, ds': seq<Detection>) {
    && |ds| <= |ds'|
    && forall k | 0 <= k < |ds| :: ds'[k].lastAt >= ds[k].lastAt && ds'[k] == ds[k].(lastAt := ds'[k].lastAt)
  }

  /** Incidents are never removed and keep the source they are correlated by. */
  ghost predicate SourcesStay(incs: seq<Incident>, incs': seq<Incident>) {
    |incs| <= |incs'| && forall i | 0 <= i < |incs| :: incs'[i].source == incs[i].source
  }

  // ── One cycle ────────────────────────────────────────────────────────────

  lemma SourcesCover(novel: seq<Candidate>, batch: seq<Event>, k: nat)
    requires k < |novel| && IpOf(novel[k]) != ""
    ensures IpOf(novel[k]) in Sources(novel, batch)
  {
    hide IpOf;
    assert IpsOf(novel)[k] == IpOf(novel[k]);
    FilterIn(Dedup(IpsOf(novel) + HighRiskIps(batch)), NonEmpty(), IpOf(novel[k]));
  }

  lemma PlanOffers(t: Tables, log: seq<Event>, rules: seq<Rule>, catalogue: seq<Rule>, now: int, p: Plan)
    requires p == PlanOf(t, log, rules, now) && Drawn(rules, catalogue)
    ensures forall i | 0 <= i < |p.candidates| :: Offers(p.candidates[i], catalogue)
  {
    hide NextBatch, WindowOf, CandidatesOf, KeysOf, Filter, Offers;
    assert rules[..|rules|] == rules;
    CandidatesOffer(rules, |rules|, WindowOf(log, p.batch, now), CursorOf(t, now), now, p.candidates);
    forall i | 0 <= i < |p.candidates|
      ensures Offers(p.candidates[i], catalogue)
    {
      OffersFrom(p.candidates[i], rules, catalogue);
    }
  }

  /** The parts of a committed, non-empty cycle. */
  lemma CycleParts(t: Tables, log: seq<Event>, rules: seq<Rule>, now: int, reports: set<string>, t1: Tables)
    returns (p: Plan, t0: Tables, u: Tables)
    requires Cycle(t, log, rules, now, reports) == Some(t1) && NextBatch(log, CursorOf(t, now)) != []
    ensures p == PlanOf(t, log, rules, now) && p.batch == NextBatch(log, CursorOf(t, now)) && DistinctKeys(p.novel)
    ensures p.novel == Filter(p.candidates, Unseen(KeysOf(t.detections)))
    ensures t0 == Raised(t, p) && Ready(t0, |t.detections|, p.novel)
    ensures u == CorrelateAll(t0, now, Reading(log, p.batch, reports), |t.detections|, p.novel, Sources(p.novel, p.batch))
    ensures t1 == u.(cursor := Some(LatestIngest(p.batch))) && t1.iocs == Upserted(t.iocs, p.batch)
  {
    hide PlanOf, Raise, KeysOf, Upserted, CorrelateAll, Sources, Filter, LatestIngest, NextBatch;
    p := PlanOf(t, log, rules, now);
    BatchOf(t, log, rules, now, p);
    NovelOf(t, log, rules, now, p);
    RaiseLength(t.detections, KeysOf(t.detections), p.candidates);
    t0 := Raised(t, p);
    u := CorrelateAll(t0, now, Reading(log, p.batch, reports), |t.detections|, p.novel, Sources(p.novel, p.batch));
  }

  lemma EmptyCycle(t: Tables, log: seq<Event>, rules: seq<Rule>, now: int, reports: set<string>)
    requires NextBatch(log, CursorOf(t, now)) == []
    ensures Cycle(t, log, rules, now, reports) == Some(t)
  {
    hide WindowOf, CandidatesOf, KeysOf, Filter, CorrelateAll, Sources, Raise, Upserted;
  }

  lemma OldOwner(ds: seq<Detection>, r: seq<Detection>, novel: seq<Candidate>, k: nat)
    requires RaisedAs(ds, novel, r) && k < |ds|
    ensures OwnerOf(r[k]) == OwnerOf(ds[k]) && r[k].incident == ds[k].incident && r[k].severity == ds[k].severity
  {
    hide RowOf;
    assert r[k] == ds[k].(lastAt := r[k].lastAt);
  }

  lemma RaisedStaysLinked(t: Tables, t0: Tables, novel: seq<Candidate>)
    requires LinksOwned(t) && RaisedAs(t.detections, novel, t0.detections) && t0.incidents == t.incidents
    ensures LinksOwned(t0) && (LinksCovered(t) ==> LinksCovered(t0))
  {
    hide OwnerOf, RowOf;
    var base := |t.detections|;
    forall k: nat | base <= k < |t0.detections|
      ensures t0.detections[k].incident == None
    {
      assert t0.detections[base + (k - base)] == RowOf(novel[k - base]);
      RowKey(novel[k - base]);
    }
    forall k: nat | k < base
      ensures OwnerOf(t0.detections[k]) == OwnerOf(t.detections[k])
      ensures t0.detections[k].incident == t.detections[k].incident && t0.detections[k].severity == t.detections[k].severity
    {
      OldOwner(t.detections, t0.detections, novel, k);
    }
  }

  lemma RelinkKeepsNames(ds: seq<Detection>, es: seq<Detection>, rules: seq<Rule>)
    requires SameButIncident(ds, es) && DetectionsNamed(ds, rules)
    ensures DetectionsNamed(es, rules)
  {
    hide Key, Bucket;
    forall k | 0 <= k < |es|
      ensures exists i :: 0 <= i < |rules| && Named(es[k], rules[i])
    {
      var d := ds[k];
      var i :| 0 <= i < |rules| && Named(d, rules[i]);
      assert Named(es[k], rules[i]);
    }
    assert forall k | 0 <= k < |es| :: es[k].key == ds[k].key;
  }

  lemma SameLinksFrame(u: Tables, t1: Tables)
    requires t1.detections == u.detections && t1.incidents == u.incidents
    ensures LinksOwned(u) <==> LinksOwned(t1)
    ensures LinksOwned(u) ==> (LinksCovered(u) <==> LinksCovered(t1))
    ensures NoOrphans(u) <==> NoOrphans(t1)
  {
  }

  /** The tables just before correlation, and what has become of the detections. */
  lemma CycleRaises(t: Tables, log: seq<Event>, rules: seq<Rule>, catalogue: seq<Rule>, now: int, p: Plan, t0: Tables)
    requires p == PlanOf(t, log, rules, now) && t0 == Raised(t, p) && DistinctKeys(p.novel)
    requires p.novel == Filter(p.candidates, Unseen(KeysOf(t.detections)))
    requires WellNamed(catalogue) && Drawn(rules, catalogue) && TablesSound(t, catalogue)
    ensures DetectionsNamed(t0.detections, catalogue) && RaisedAs(t.detections, p.novel, t0.detections)
    ensures OwnedBy(t0.detections, |t.detections|, p.novel)
    ensures LinksOwned(t0) && (LinksCovered(t) ==> LinksCovered(t0)) && t0.incidents == t.incidents
  {
    hide PlanOf, Raise, KeysOf, Upserted, Filter, Offers, LinksOwned, LinksCovered, OwnedBy, DetectionsNamed, NoOrphans;
    PlanOffers(t, log, rules, catalogue, now, p);
    RaiseKeeps(t.detections, p.candidates, p.novel, catalogue, t0.detections);
    RaisedStaysLinked(t, t0, p.novel);
  }

  lemma NothingOrphaned(t: Tables, t0: Tables, u: Tables, novel: seq<Candidate>, batch: seq<Event>)
    requires NoOrphans(t) && RaisedAs(t.detections, novel, t0.detections) && SameButIncident(t0.detections, u.detections)
    requires OwnedBy(t0.detections, |t.detections|, novel)
    requires forall k | 0 <= k < |t.detections| :: u.detections[k].incident == t0.detections[k].incident
    requires forall k | 0 <= k < |novel| && IpOf(novel[k]) in Sources(novel, batch) ::
      u.detections[|t.detections| + k].incident.Some?
    ensures NoOrphans(u) && DetectionsEvolve(t.detections, u.detections)
  {
    hide IpOf, OwnerOf, RowOf, Sources;
    var base := |t.detections|;
    forall k: nat | k < |u.detections| && OwnerOf(u.detections[k]) != ""
      ensures u.detections[k].incident.Some?
    {
      SameOwner(t0.detections, u.detections, k);
      if k >= base {
        assert OwnerOf(t0.detections[base + (k - base)]) == IpOf(novel[k - base]);
        SourcesCover(novel, batch, k - base);
      } else {
        OldOwner(t.detections, t0.detections, novel, k);
      }
    }
  }

  /** One committed cycle keeps the tables sound, from whatever incidents it
      finds: rows of the detection table are only added or moved forward. */
  lemma CycleKeepsSound(t: Tables, log: seq<Event>, rules: seq<Rule>, catalogue: seq<Rule>, now: int, reports: set<string>,
                        t1: Tables)
    requires Cycle(t, log, rules, now, reports) == Some(t1)
    requires WellNamed(catalogue) && Drawn(rules, catalogue) && TablesSound(t, catalogue)
    ensures TablesSound(t1, catalogue) && DetectionsEvolve(t.detections, t1.detections)
    ensures SourcesStay(t.incidents, t1.incidents)
  {
    hide PlanOf, Raised, KeysOf, Upserted, CorrelateAll, Sources, Filter, LatestIngest, NextBatch, IpOf, OwnerOf,
      LinksOwned, Cycle, Drawn, DetectionsNamed;
    if NextBatch(log, CursorOf(t, now)) == [] {
      EmptyCycle(t, log, rules, now, reports);
    } else {
      var p, t0, u := CycleParts(t, log, rules, now, reports, t1);
      var base := |t.detections|;
      CycleRaises(t, log, rules, catalogue, now, p, t0);
      CorrelateAllLinks(t0, now, Reading(log, p.batch, reports), base, p.novel, Sources(p.novel, p.batch), u);
      RelinkKeepsNames(t0.detections, u.detections, catalogue);
      NothingOrphaned(t, t0, u, p.novel, p.batch);
      SameLinksFrame(u, t1);
    }
  }

  /** From ordered incidents a cycle leaves them ordered and covering, and does
      not change a superseded one at all. */
  lemma CycleKeeps(t: Tables, log: seq<Event>, rules: seq<Rule>, catalogue: seq<Rule>, now: int, reports: set<string>,
                   t1: Tables)
    requires Cycle(t, log, rules, now, reports) == Some(t1)
    requires WellNamed(catalogue) && Drawn(rules, catalogue) && TablesSafe(t, catalogue, now)
    ensures TablesSafe(t1, catalogue, now) && EngineEvolves(t.incidents, t1.incidents)
  {
    hide PlanOf, Raised, KeysOf, Upserted, CorrelateAll, Sources, Filter, LatestIngest, NextBatch, LinksOwned, LinksCovered,
      IncidentsOrdered, EngineEvolves, Cycle, Drawn, TablesSound, OwnedBy;
    CycleKeepsSound(t, log, rules, catalogue, now, reports, t1);
    if NextBatch(log, CursorOf(t, now)) == [] {
      EmptyCycle(t, log, rules, now, reports);
      EvolveReflexive(t.incidents);
    } else {
      var p, t0, u := CycleParts(t, log, rules, now, reports, t1);
      CycleRaises(t, log, rules, catalogue, now, p, t0);
      CorrelateAllKeeps(t0, now, Reading(log, p.batch, reports), |t.detections|, p.novel, Sources(p.novel, p.batch), u);
      SameLinksFrame(u, t1);
    }
  }

  // ── Worlds and steps ─────────────────────────────────────────────────────

  /** The database, the event log, the clock, and what has been consumed since
      the cursor `start`. */
  datatype World = World(
    tables: Tables,
    log: seq<Event>,
    clock: int,
    start: Option<int>,
    consumed: seq<Event>)

  /** A tick runs a cycle with the rules loaded for it. */
  datatype Action =
    | Ingest(events: seq<Event>)
    | Tick(now: int, reports: set<string>, rules: seq<Rule>)
    | Handle(now: int, edit: Edit)

  function Act(w: World, a: Action): World {
    match a
    case Ingest(events) => w.(log := w.log + events)
    case Handle(now, edit) => w.(tables := Apply(w.tables, w.log, now, edit), clock := now)
    case Tick(now, reports, rules) =>
      match Cycle(w.tables, w.log, rules, now, reports)
      case None => w.(clock := now)
      case Some(t) =>
        var since := CursorOf(w.tables, now);
        var batch := NextBatch(w.log, since);
        World(t, w.log, now, if batch != [] && w.start == None then Some(since) else w.start, w.consumed + batch)
  }

  function Run(w: World, actions: seq<Action>): World
    decreases |actions|
  {
    if actions == [] then w else Run(Act(w, actions[0]), actions[1..])
  }

  /** Every cycle's rules are drawn from one catalogue. */
  ghost predicate RulesDrawn(actions: seq<Action>, catalogue: seq<Rule>) {
    forall k | 0 <= k < |actions| && actions[k].Tick? :: Drawn(actions[k].rules, catalogue)
  }

  /** The clock does not go back, and edits are of the kinds that keep order. */
  ghost predicate Orderly(w: World, a: Action) {
    match a
    case Ingest(_) => true
    case Tick(now, _, _) => w.clock <= now
    case Handle(now, edit) => w.clock <= now && Benign(w.tables, w.log, now, edit)
  }

  ghost predicate OrderlyRun(w: World, actions: seq<Action>)
    decreases |actions|
  {
    actions != [] ==> Orderly(w, actions[0]) && OrderlyRun(Act(w, actions[0]), actions[1..])
  }

  // ── What every run keeps ─────────────────────────────────────────────────

  ghost predicate WorldSound(w: World, catalogue: seq<Rule>) {
    TablesSound(w.tables, catalogue) && Exact(w.tables.iocs, w.consumed)
  }

  /** From one world to a later one, nothing is lost. */
  ghost predicate Continues(w: World, w': World) {
    && w.log <= w'.log && w.consumed <= w'.consumed
    && DetectionsEvolve(w.tables.detections, w'.tables.detections)
    && SourcesStay(w.tables.incidents, w'.tables.incidents)
  }

  lemma TickExact(w: World, now: int, reports: set<string>, rules: seq<Rule>)
    requires Exact(w.tables.iocs, w.consumed) && Cycle(w.tables, w.log, rules, now, reports).Some?
    ensures var w' := Act(w, Tick(now, reports, rules)); Exact(w'.tables.iocs, w'.consumed)
  {
    hide Cycle, NextBatch, Exact, Filter, LatestIngest, PlanOf, Raised, CorrelateAll, KeysOf, Sources, Upserted, DistinctKeys;
    var t1 := Cycle(w.tables, w.log, rules, now, reports).value;
    var batch := NextBatch(w.log, CursorOf(w.tables, now));
    if batch == [] {
      EmptyCycle(w.tables, w.log, rules, now, reports);
      assert w.consumed + batch == w.consumed;
    } else {
      var p, t0, u := CycleParts(w.tables, w.log, rules, now, reports, t1);
      UpsertedExact(w.tables.iocs, w.consumed, batch);
    }
  }

  lemma EditSound(t: Tables, log: seq<Event>, now: int, edit: Edit, catalogue: seq<Rule>)
    requires TablesSound(t, catalogue)
    ensures TablesSound(Apply(t, log, now, edit), catalogue)
    ensures SourcesStay(t.incidents, Apply(t, log, now, edit).incidents)
  {
    hide Apply, OwnerOf, DetectionsNamed;
    EditKeeps(t, log, now, edit);
  }

  lemma DetectionsReflexive(ds: seq<Detection>)
    ensures DetectionsEvolve(ds, ds)
  {
  }

  lemma CommitsWhenDrawn(t: Tables, log: seq<Event>, rules: seq<Rule>, catalogue: seq<Rule>, now: int, reports: set<string>)
    requires Drawn(rules, catalogue)
    ensures Cycle(t, log, rules, now, reports).Some?
  {
    hide Cycle;
    CycleAlwaysCommits(t, log, rules, now, reports);
  }

  lemma StepSound(w: World, a: Action, catalogue: seq<Rule>)
    requires WellNamed(catalogue) && WorldSound(w, catalogue) && (a.Tick? ==> Drawn(a.rules, catalogue))
    ensures WorldSound(Act(w, a), catalogue) && Continues(w, Act(w, a))
  {
    hide Cycle, Exact, TablesSound, DetectionsEvolve, NextBatch, Apply, Drawn, WellNamed;
    DetectionsReflexive(w.tables.detections);
    match a {
      case Ingest(_) =>
      case Handle(now, edit) =>
        EditSound(w.tables, w.log, now, edit, catalogue);
        EditKeeps(w.tables, w.log, now, edit);
      case Tick(now, reports, rules) =>
        CommitsWhenDrawn(w.tables, w.log, rules, catalogue, now, reports);
        var t1 := Cycle(w.tables, w.log, rules, now, reports).value;
        CycleKeepsSound(w.tables, w.log, rules, catalogue, now, reports, t1);
        TickExact(w, now, reports, rules);
    }
  }

  lemma ContinuesTransitive(a: World, b: World, c: World)
    requires Continues(a, b) && Continues(b, c)
    ensures Continues(a, c)
  {
  }

  lemma ContinuesReflexive(w: World)
    ensures Continues(w, w)
  {
  }

  /** Soundness of every run, with rule files changing between cycles, a clock
      that may jump, and analysts doing whatever the API lets them: every
      indicator count is exact; there is at most one detection per rule, group
      and bucket; every detection with a source is linked to an incident of that
      source; no detection is removed or moved back. */
  lemma {:induction false} RunSound(w: World, actions: seq<Action>, catalogue: seq<Rule>)
    requires WellNamed(catalogue) && WorldSound(w, catalogue) && RulesDrawn(actions, catalogue)
    ensures WorldSound(Run(w, actions), catalogue) && Continues(w, Run(w, actions))
    decreases |actions|
  {
    hide Act, WorldSound, Continues, WellNamed, Drawn;
    if actions == [] {
      ContinuesReflexive(w);
    } else {
      var u := Act(w, actions[0]);
      StepSound(w, actions[0], catalogue);
      RunSound(u, actions[1..], catalogue);
      ContinuesTransitive(w, u, Run(u, actions[1..]));
    }
  }

  // ── What orderly runs keep ───────────────────────────────────────────────

  ghost predicate WorldSafe(w: World, catalogue: seq<Rule>) {
    TablesSafe(w.tables, catalogue, w.clock) && Exact(w.tables.iocs, w.consumed)
  }

  lemma ClockForward(t: Tables, catalogue: seq<Rule>, now: int, later: int)
    requires TablesSafe(t, catalogue, now) && now <= later
    ensures TablesSafe(t, catalogue, later)
  {
    hide DetectionsNamed, LinksOwned, LinksCovered;
  }

  lemma SoundIsOwned(t: Tables, catalogue: seq<Rule>)
    requires TablesSound(t, catalogue)
    ensures LinksOwned(t)
  {
  }

  lemma StepSafe(w: World, a: Action, catalogue: seq<Rule>)
    requires WellNamed(catalogue) && WorldSafe(w, catalogue) && (a.Tick? ==> Drawn(a.rules, catalogue)) && Orderly(w, a)
    ensures WorldSafe(Act(w, a), catalogue) && IncidentsEvolve(w.tables.incidents, Act(w, a).tables.incidents)
    ensures a.Tick? ==> EngineEvolves(w.tables.incidents, Act(w, a).tables.incidents)
  {
    hide Cycle, Exact, TablesSound, IncidentsOrdered, LinksOwned, LinksCovered, IncidentsEvolve, NextBatch, Apply, Drawn,
      WellNamed, Benign;
    StepSound(w, a, catalogue);
    EvolveReflexive(w.tables.incidents);
    match a {
      case Ingest(_) =>
      case Handle(now, edit) =>
        SoundIsOwned(w.tables, catalogue);
        ClockForward(w.tables, catalogue, w.clock, now);
        BenignIff(w.tables, w.log, now, edit);
        EditEvolves(w.tables, w.log, now, edit);
      case Tick(now, reports, rules) =>
        CommitsWhenDrawn(w.tables, w.log, rules, catalogue, now, reports);
        ClockForward(w.tables, catalogue, w.clock, now);
        CycleKeeps(w.tables, w.log, rules, catalogue, now, reports, Cycle(w.tables, w.log, rules, now, reports).value);
    }
  }

  /** An analyst's edit of incident `i`. */
  ghost predicate Edits(a: Action, i: nat) {
    a.Handle? && !a.edit.Create? && a.edit.incident == i
  }

  ghost predicate NeverEdited(actions: seq<Action>, i: nat) {
    forall k | 0 <= k < |actions| :: !Edits(actions[k], i)
  }

  /** A superseded incident that no analyst edits is as it was, in every field. */
  ghost predicate LeavesSuperseded(incs: seq<Incident>, actions: seq<Action>, incs': seq<Incident>) {
    |incs| <= |incs'| && forall i: nat | Superseded(incs, i) && NeverEdited(actions, i) :: incs'[i] == incs[i]
  }

  lemma EditElsewhere(t: Tables, log: seq<Event>, now: int, e: Edit, i: nat)
    requires i < |t.incidents| && (e.Create? || e.incident != i)
    ensures i < |Apply(t, log, now, e).incidents| && Apply(t, log, now, e).incidents[i] == t.incidents[i]
  {
    hide Apply;
    EditedRow(t, log, now, e);
  }

  lemma StepLeaves(w: World, a: Action, catalogue: seq<Rule>, i: nat)
    requires WellNamed(catalogue) && WorldSafe(w, catalogue) && (a.Tick? ==> Drawn(a.rules, catalogue)) && Orderly(w, a)
    requires Superseded(w.tables.incidents, i) && !Edits(a, i)
    ensures i < |Act(w, a).tables.incidents| && Act(w, a).tables.incidents[i] == w.tables.incidents[i]
    ensures Superseded(Act(w, a).tables.incidents, i)
  {
    hide WorldSafe, IncidentsEvolve, Drawn, WellNamed, Benign, Cycle, Apply;
    StepSafe(w, a, catalogue);
    SupersededStays(w.tables.incidents, Act(w, a).tables.incidents, i);
    if a.Handle? {
      EditElsewhere(w.tables, w.log, a.now, a.edit, i);
    }
  }

  lemma NothingDone(incs: seq<Incident>)
    ensures LeavesSuperseded(incs, [], incs)
  {
  }

  lemma RunLeaves(incs: seq<Incident>, mid: seq<Incident>, a: Action, rest: seq<Action>, actions: seq<Action>,
                  incs': seq<Incident>)
    requires actions == [a] + rest && IncidentsEvolve(incs, mid) && LeavesSuperseded(mid, rest, incs')
    requires forall i: nat | Superseded(incs, i) && !Edits(a, i) ::
      i < |mid| && mid[i] == incs[i] && Superseded(mid, i)
    ensures LeavesSuperseded(incs, actions, incs')
  {
    hide Superseded, Edits;
    NoneRemoved(incs, mid);
    forall i: nat | Superseded(incs, i) && NeverEdited(actions, i)
      ensures incs'[i] == incs[i]
    {
      assert !Edits(actions[0], i);
      assert forall k | 0 <= k < |rest| :: rest[k] == actions[k + 1];
    }
  }

  /** Safety of every orderly run: moreover the intervals of one source's
      incidents follow one another, each later one starts only when every earlier
      is closed or has been quiet for six hours, an incident that has been
      followed by another of its source is never changed again but by an
      analyst's edit of that very incident, and every incident is at least as
      severe as its detections. */
  lemma {:induction false} RunSafe(w: World, actions: seq<Action>, catalogue: seq<Rule>)
    requires WellNamed(catalogue) && WorldSafe(w, catalogue) && RulesDrawn(actions, catalogue) && OrderlyRun(w, actions)
    ensures var w' := Run(w, actions);
      && WorldSafe(w', catalogue) && IncidentsEvolve(w.tables.incidents, w'.tables.incidents)
      && LeavesSuperseded(w.tables.incidents, actions, w'.tables.incidents)
    decreases |actions|
  {
    hide Act, WorldSafe, IncidentsEvolve, Orderly, WellNamed, Drawn, LeavesSuperseded, Superseded, Edits;
    if actions == [] {
      EvolveReflexive(w.tables.incidents);
      NothingDone(w.tables.incidents);
    } else {
      var a, rest := actions[0], actions[1..];
      var u := Act(w, a);
      StepSafe(w, a, catalogue);
      RunSafe(u, rest, catalogue);
      var w' := Run(u, rest);
      EvolveTransitive(w.tables.incidents, u.tables.incidents, w'.tables.incidents);
      NoneRemoved(w.tables.incidents, u.tables.incidents);
      forall i: nat | Superseded(w.tables.incidents, i) && !Edits(a, i)
        ensures i < |u.tables.incidents| && u.tables.incidents[i] == w.tables.incidents[i]
        ensures Superseded(u.tables.incidents, i)
      {
        StepLeaves(w, a, catalogue, i);
      }
      RunLeaves(w.tables.incidents, u.tables.incidents, a, rest, actions, w'.tables.incidents);
    }
  }

  lemma NothingHeld(rows: seq<IocRow>, consumed: seq<Event>)
    requires rows == [] && consumed == []
    ensures Exact(rows, consumed)
  {
    hide IocsOf;
    forall p
      ensures Held(rows, p) == Count(Mentions(consumed), p)
    {
      CountNil(p);
    }
  }

  /** An empty database is safe, whatever log it starts from. */
  lemma FreshIsSafe(w: World, catalogue: seq<Rule>)
    requires w.tables == Tables(w.start, [], [], [], [], []) && w.consumed == []
    ensures WorldSafe(w, catalogue) && WorldSound(w, catalogue)
  {
    hide Exact;
    NothingHeld(w.tables.iocs, w.consumed);
  }
}
