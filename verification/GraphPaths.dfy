/** What the shape of the behaviour graph means: everything hangs together at
    the root, each sandbox session is one numbered chain, degrees add up. */
module GraphPaths {
  import opened Collections
  import opened B = BehaviourGraph
  import Text

  // ── Connectivity ─────────────────────────────────────────────────────────

  ghost predicate Adjacent(edges: seq<Edge>, a: nat, b: nat) {
    exists r :: Edge(a, b, r) in edges || Edge(b, a, r) in edges
  }

  ghost predicate IsPath(edges: seq<Edge>, path: seq<nat>) {
    path != [] && forall i | 0 < i < |path| :: Adjacent(edges, path[i - 1], path[i])
  }

  /** An undirected path leads from `id` to the root. */
  ghost predicate Joined(edges: seq<Edge>, id: nat) {
    exists path :: IsPath(edges, path) && path[0] == id && path[|path| - 1] == 1
  }

  ghost predicate Connected(g: Graph) {
    forall k | k in g.lookup :: Joined(g.edges, g.lookup[k])
  }

  lemma RootJoined(edges: seq<Edge>)
    ensures Joined(edges, 1)
  {
    assert IsPath(edges, [1]);
  }

  lemma JoinedStep(edges: seq<Edge>, a: nat, b: nat)
    requires Joined(edges, b) && Adjacent(edges, a, b)
    ensures Joined(edges, a)
  {
    hide Adjacent;
    var path :| IsPath(edges, path) && path[0] == b && path[|path| - 1] == 1;
    var longer := [a] + path;
    forall i | 0 < i < |longer|
      ensures Adjacent(edges, longer[i - 1], longer[i])
    {
      if i > 1 {
        assert longer[i - 1] == path[i - 2] && longer[i] == path[i - 1];
      }
    }
    assert IsPath(edges, longer);
  }

  lemma JoinedGrow(edges: seq<Edge>, more: seq<Edge>, id: nat)
    requires Joined(edges, id) && edges <= more
    ensures Joined(more, id)
  {
    var path :| IsPath(edges, path) && path[0] == id && path[|path| - 1] == 1;
    forall i | 0 < i < |path|
      ensures Adjacent(more, path[i - 1], path[i])
    {
      assert Adjacent(edges, path[i - 1], path[i]);
    }
    assert IsPath(more, path);
  }

  /** A link of the graph passes connection on, in either direction. */
  lemma LinkJoins(g: Graph, ls: seq<Link>, l: Link)
    requires Realizes(g, ls) && l in ls
    ensures Joined(g.edges, g.lookup[l.source]) <==> Joined(g.edges, g.lookup[l.target])
  {
    hide Numbered, Joined, Distinct;
    var a, b := g.lookup[l.source], g.lookup[l.target];
    assert EdgeFor(g, l) == Edge(a, b, l.relation) && EdgeFor(g, l) in g.edges;
    assert Adjacent(g.edges, a, b) && Adjacent(g.edges, b, a);
    if Joined(g.edges, a) {
      JoinedStep(g.edges, b, a);
    }
    if Joined(g.edges, b) {
      JoinedStep(g.edges, a, b);
    }
  }

  lemma {:induction false} JoinAllConcat(g: Graph, ls: seq<Link>, ms: seq<Link>)
    ensures JoinAll(g, ls + ms) == JoinAll(JoinAll(g, ls), ms)
  {
    hide Join;
    if ms == [] {
      assert ls + ms == ls;
    } else {
      JoinAllConcat(g, ls, ms[..|ms| - 1]);
      assert (ls + ms)[..|ls + ms| - 1] == ls + ms[..|ms| - 1];
    }
  }

  lemma GraphSnoc(es: seq<Event>, e: Event)
    ensures GraphOf(es + [e]) == JoinAll(GraphOf(es), EventLinks(es, e))
    ensures Extends(GraphOf(es + [e]), GraphOf(es))
    ensures LinksOf(es + [e]) == LinksOf(es) + EventLinks(es, e)
  {
    assert (es + [e])[..|es|] == es;
    JoinAllConcat(EMPTY, LinksOf(es), EventLinks(es, e));
    JoinAllExtends(GraphOf(es), EventLinks(es, e));
  }

  /** A sensor event's links hang on its service, which hangs on the root. */
  lemma SensorTies(e: Event) returns (hub: Link, ip: Link)
    requires !IsShell(e)
    ensures hub in SensorLinks(e) && ip in SensorLinks(e)
    ensures hub.target == ROOT && ip.target == hub.source
    ensures forall l | l in SensorLinks(e) :: l.source == ip.source || l.source == hub.source
  {
    hide Take, Text.FirstWord, Text.Signed, ServiceName;
    ip, hub := SensorLinks(e)[0], SensorLinks(e)[1];
  }

  /** A shell event's links hang on its session's node or on an earlier step. */
  lemma ShellTies(e: Event, n: nat) returns (hub: Link)
    requires IsShell(e)
    ensures hub in ShellLinks(e, n) && hub.target == ROOT
    ensures forall l | l in ShellLinks(e, n) :: l.source == hub.source || (n > 0 && l.source == StepKey(Session(e), n))
  {
    hide Take, Destination, Command, IsConnect, ShortCommand, StepKey, ShellKey;
    hub := ShellLinks(e, n)[0];
  }

  lemma NewNodesJoined(g: Graph, h: Graph, ls: seq<Link>, added: seq<Link>)
    requires Realizes(g, ls) && Realizes(h, ls + added) && Extends(h, g) && Connected(g)
    requires forall l | l in added ::
      && l.source in h.lookup && Joined(h.edges, h.lookup[l.source])
      && l.target in h.lookup && Joined(h.edges, h.lookup[l.target])
    ensures Connected(h)
  {
    hide Numbered, Joined, EdgesAre;
    RootJoined(h.edges);
    forall k | k in h.lookup
      ensures Joined(h.edges, h.lookup[k])
    {
      if k in g.lookup {
        JoinedGrow(g.edges, h.edges, g.lookup[k]);
      } else if k != ROOT {
        var l :| l in ls + added && (l.source == k || l.target == k);
        assert l !in ls;
      }
    }
  }

  /** Where the link into step `i` (counted from 0) starts. */
  function ChainSource(s: string, i: nat): string {
    if i == 0 then ShellKey(s) else StepKey(s, i)
  }

  lemma StepTarget(e: Event, i: nat)
    ensures StepLink(e, i).target == StepKey(Session(e), i + 1)
    ensures StepLink(e, i).source == ChainSource(Session(e), i)
    ensures StepLink(e, i).targetCaption == StepCaption(i + 1, e)
    ensures StepLink(e, i).relation == if i == 0 then "runs" else "then"
  {
  }

  lemma StepsSnoc(es: seq<Event>, e: Event, s: string)
    ensures StepsOf(es + [e], s) == StepsOf(es, s) + if IsStep(e, s) then [e] else []
  {
    assert (es + [e])[..|es|] == es;
  }

  lemma StepEventLinks(es: seq<Event>, e: Event, s: string)
    requires IsStep(e, s)
    ensures Session(e) == s
    ensures EventLinks(es, e) ==
      [Link(ShellKey(s), ShellCaption(s), ROOT, "", "sandbox_on"), StepLink(e, |StepsOf(es, s)|)]
  {
    hide StepLink, Take, Command, IsConnect, Destination, StepsOf;
  }

  lemma NonEmptySteps(es: seq<Event>, s: string)
    ensures StepsOf(es, s) != [] ==> es != []
  {
  }

  /** Every step of a session has its link. */
  lemma {:induction false} StepPresent(es: seq<Event>, s: string, i: nat)
    requires i < |StepsOf(es, s)|
    ensures Session(StepsOf(es, s)[i]) == s
    ensures StepLink(StepsOf(es, s)[i], i) in LinksOf(es)
  {
    hide IsStep, StepLink, GraphOf, Extends, EventLinks, StepsOf;
    NonEmptySteps(es, s);
    var n := |es| - 1;
    var before, e := es[..n], es[n];
    assert es == before + [e];
    StepsSnoc(before, e, s);
    GraphSnoc(before, e);
    if i < |StepsOf(before, s)| {
      StepPresent(before, s, i);
    } else {
      StepEventLinks(before, e, s);
      assert EventLinks(before, e)[1] == StepLink(e, i);
    }
  }

  /** Each event's nodes are tied, through its own links, to the root or to a
      node that was there before. */
  lemma EventConnects(es: seq<Event>, e: Event, g: Graph, h: Graph, ls: seq<Link>, added: seq<Link>)
    requires g == GraphOf(es) && ls == LinksOf(es) && added == EventLinks(es, e)
    requires Realizes(g, ls) && Realizes(h, ls + added) && Extends(h, g) && Connected(g)
    ensures Connected(h)
  {
    hide Numbered, Joined, EdgesAre, GraphOf, LinksOf, StepsOf, SensorLinks, ShellLinks, StepKey, IsStep;
    RootJoined(h.edges);
    assert forall l | l in added :: l in ls + added;
    var hub, ip: Link;
    var n := |StepsOf(es, Session(e))|;
    if IsShell(e) {
      hub := ShellTies(e, n);
      ip := hub;
      if n > 0 {
        StepPresent(es, Session(e), n - 1);
        StepTarget(StepsOf(es, Session(e))[n - 1], n - 1);
        JoinedGrow(g.edges, h.edges, g.lookup[StepKey(Session(e), n)]);
      }
    } else {
      hub, ip := SensorTies(e);
      LinkJoins(h, ls + added, ip);
    }
    LinkJoins(h, ls + added, hub);
    forall l | l in added
      ensures Joined(h.edges, h.lookup[l.source]) && Joined(h.edges, h.lookup[l.target])
    {
      LinkJoins(h, ls + added, l);
    }
    NewNodesJoined(g, h, ls, added);
  }

  lemma OnlyRootConnected()
    ensures Connected(GraphOf([]))
  {
    RootJoined(EMPTY.edges);
    assert LinksOf([]) == [] && GraphOf([]) == EMPTY;
  }

  lemma EveryNodeJoined(g: Graph, ls: seq<Link>)
    requires Realizes(g, ls) && Connected(g)
    ensures forall id: nat | 1 <= id <= |g.nodes| :: Joined(g.edges, id)
  {
    hide Joined, EdgesAre, NodesAre;
    forall id: nat | 1 <= id <= |g.nodes|
      ensures Joined(g.edges, id)
    {
      assert Held(g.lookup, id);
    }
  }

  /** For every event list, every node is joined to the root. */
  lemma {:induction false} GraphConnected(es: seq<Event>)
    ensures Connected(GraphOf(es))
    ensures forall id: nat | 1 <= id <= |GraphOf(es).nodes| :: Joined(GraphOf(es).edges, id)
  {
    hide Joined, Extends, EventLinks, Realizes, Join, Connected;
    GraphRealizesLinks(es);
    if es == [] {
      OnlyRootConnected();
    } else {
      var n := |es| - 1;
      assert es == es[..n] + [es[n]];
      GraphConnected(es[..n]);
      GraphRealizesLinks(es[..n]);
      GraphSnoc(es[..n], es[n]);
      EventConnects(es[..n], es[n], GraphOf(es[..n]), GraphOf(es), LinksOf(es[..n]), EventLinks(es[..n], es[n]));
    }
    EveryNodeJoined(GraphOf(es), LinksOf(es));
  }

  // ── Session chains ───────────────────────────────────────────────────────

  ghost predicate IsChainLink(es: seq<Event>, l: Link, s: string, i: nat) {
    i < |StepsOf(es, s)| && l == StepLink(StepsOf(es, s)[i], i)
  }

  /** Only steps of sessions have links that touch a chain node. */
  lemma {:induction false} ChainLinksOnly(es: seq<Event>, l: Link) returns (s: string, i: nat)
    requires l in LinksOf(es) && (LikeStep(l.source) || LikeStep(l.target))
    ensures IsChainLink(es, l, s, i)
  {
    hide IsStep, StepLink;
    var n := |es| - 1;
    var before, e := es[..n], es[n];
    assert es == before + [e];
    GraphSnoc(before, e);
    if l in LinksOf(before) {
      s, i := ChainLinksOnly(before, l);
      StepsSnoc(before, e, s);
    } else {
      EventLinksProper(before, e);
      s, i := Session(e), |StepsOf(before, Session(e))|;
      StepsSnoc(before, e, s);
    }
  }

  function Caption(g: Graph, key: string): string
    requires key in g.lookup && 1 <= g.lookup[key] <= |g.nodes|
  {
    g.nodes[g.lookup[key] - 1].caption
  }

  lemma NewTarget(g: Graph, l: Link)
    requires Numbered(g) && l.target !in g.lookup && l.source != l.target
    ensures l.target in Join(g, l).lookup && 1 <= Join(g, l).lookup[l.target] <= |Join(g, l).nodes|
    ensures Caption(Join(g, l), l.target) == Take(l.targetCaption, CAPTION_WIDTH)
  {
  }

  lemma StepIsNew(es: seq<Event>, s: string, g: Graph)
    requires g == GraphOf(es)
    ensures StepKey(s, |StepsOf(es, s)| + 1) !in g.lookup
  {
    hide Numbered, EdgesAre, GraphOf, LinksOf;
    GraphRealizesLinks(es);
    var key := StepKey(s, |StepsOf(es, s)| + 1);
    if key in g.lookup {
      assert LikeStep(key) && !LikeStep(ROOT);
      var l :| l in LinksOf(es) && (l.source == key || l.target == key);
      var t, i := ChainLinksOnly(es, l);
      StepPresent(es, t, i);
      assert !LikeStep(ShellKey(t));
      StepKeyInjective(s, |StepsOf(es, s)| + 1, t, if l.target == key then i + 1 else i);
      assert false;
    }
  }

  lemma JoinTwo(g: Graph, a: Link, b: Link)
    ensures JoinAll(g, [a, b]) == Join(Join(g, a), b)
  {
    hide Join;
    assert [a, b][..1] == [a] && [a][..0] == [];
    assert JoinAll(g, [a]) == Join(g, a);
  }

  lemma StepJoins(f: Graph, s: string, e: Event, i: nat, ls: seq<Link>)
    requires Numbered(f) && StepKey(s, i + 1) !in f.lookup && Session(e) == s
    requires ls == [Link(ShellKey(s), ShellCaption(s), ROOT, "", "sandbox_on"), StepLink(e, i)]
    ensures var g := JoinAll(f, ls);
      && StepKey(s, i + 1) in g.lookup && 1 <= g.lookup[StepKey(s, i + 1)] <= |g.nodes|
      && Caption(g, StepKey(s, i + 1)) == Take(StepCaption(i + 1, e), CAPTION_WIDTH)
  {
    hide Take, Numbered, Join, StepLink, StepCaption, ShellCaption;
    var key := StepKey(s, i + 1);
    assert LikeStep(key) && !LikeStep(ROOT) && !LikeStep(ShellKey(s));
    StepTarget(e, i);
    JoinTwo(f, ls[0], ls[1]);
    JoinNumbered(f, ls[0]);
    if i > 0 && StepKey(s, i) == key {
      StepKeyInjective(s, i, s, i + 1);
    }
    NewTarget(Join(f, ls[0]), ls[1]);
  }

  /** The n-th command of a session gets the n-th numbered node. */
  lemma {:induction false} StepCaptions(es: seq<Event>, s: string, i: nat, g: Graph)
    requires g == GraphOf(es) && i < |StepsOf(es, s)|
    ensures StepKey(s, i + 1) in g.lookup && 1 <= g.lookup[StepKey(s, i + 1)] <= |g.nodes|
    ensures Caption(g, StepKey(s, i + 1)) == Take(StepCaption(i + 1, StepsOf(es, s)[i]), CAPTION_WIDTH)
  {
    hide IsStep, Take, StepCaption, StepKey, GraphOf, StepsOf, EventLinks, Numbered, EdgesAre, NodesAre;
    NonEmptySteps(es, s);
    var n := |es| - 1;
    var before, e := es[..n], es[n];
    assert es == before + [e];
    StepsSnoc(before, e, s);
    GraphSnoc(before, e);
    var f := GraphOf(before);
    if i < |StepsOf(before, s)| {
      StepCaptions(before, s, i, f);
    } else {
      GraphRealizesLinks(before);
      StepIsNew(before, s, f);
      StepEventLinks(before, e, s);
      StepJoins(f, s, e, i, EventLinks(before, e));
    }
  }

  lemma ChainTarget(es: seq<Event>, l: Link, s: string, n: nat)
    requires l in LinksOf(es) && l.target == StepKey(s, n) && n > 0
    ensures IsChainLink(es, l, s, n - 1)
  {
    hide LinksOf, StepsOf, ShortCommand;
    assert LikeStep(StepKey(s, n));
    var t, j := ChainLinksOnly(es, l);
    StepPresent(es, t, j);
    StepKeyInjective(s, n, t, j + 1);
  }

  lemma ChainEnters(es: seq<Event>, s: string, i: nat, g: Graph)
    requires Realizes(g, LinksOf(es)) && i < |StepsOf(es, s)| && StepKey(s, i + 1) in g.lookup
    ensures ChainSource(s, i) in g.lookup
    ensures forall e :: e in g.edges && e.target == g.lookup[StepKey(s, i + 1)] <==>
      e == Edge(g.lookup[ChainSource(s, i)], g.lookup[StepKey(s, i + 1)], if i == 0 then "runs" else "then")
  {
    hide LinksOf, StepsOf, StepCaption, StepKey, ChainSource, StepLink, IsStep, Distinct;
    StepPresent(es, s, i);
    StepTarget(StepsOf(es, s)[i], i);
    var own := StepLink(StepsOf(es, s)[i], i);
    assert EdgeFor(g, own) in g.edges;
    forall e | e in g.edges && e.target == g.lookup[StepKey(s, i + 1)]
      ensures e == EdgeFor(g, own)
    {
      var l :| l in LinksOf(es) && e == EdgeFor(g, l);
      ChainTarget(es, l, s, i + 1);
    }
  }

  lemma ChainOrigin(es: seq<Event>, l: Link, s: string, n: nat)
    requires l in LinksOf(es) && l.source == StepKey(s, n) && n > 0
    ensures IsChainLink(es, l, s, n) && l.target == StepKey(s, n + 1) && l.relation == "then"
  {
    hide LinksOf, StepsOf, ShortCommand;
    assert LikeStep(StepKey(s, n));
    var t, j := ChainLinksOnly(es, l);
    StepPresent(es, t, j);
    assert !LikeStep(ShellKey(t));
    StepKeyInjective(s, n, t, j);
  }

  lemma ChainLeaves(es: seq<Event>, s: string, n: nat, g: Graph, e: Edge)
    requires Realizes(g, LinksOf(es)) && n > 0 && StepKey(s, n) in g.lookup
    requires e in g.edges && e.source == g.lookup[StepKey(s, n)]
    ensures n < |StepsOf(es, s)| && StepKey(s, n + 1) in g.lookup
    ensures e == Edge(g.lookup[StepKey(s, n)], g.lookup[StepKey(s, n + 1)], "then")
  {
    hide LinksOf, StepsOf, StepCaption, StepKey, StepLink, IsStep, Distinct;
    var l :| l in LinksOf(es) && e == EdgeFor(g, l);
    ChainOrigin(es, l, s, n);
  }

  /** For every event list and session, the session's commands form one chain in
      event order: the i-th node carries number i and the i-th command, exactly
      one edge enters it, from the shell node or the step before, and the only
      edge that leaves it goes to the next step. */
  lemma SessionChain(es: seq<Event>, s: string, i: nat, g: Graph)
    requires g == GraphOf(es) && i < |StepsOf(es, s)|
    ensures StepKey(s, i + 1) in g.lookup && 1 <= g.lookup[StepKey(s, i + 1)] <= |g.nodes|
    ensures ChainSource(s, i) in g.lookup
    ensures Caption(g, StepKey(s, i + 1)) == Take(StepCaption(i + 1, StepsOf(es, s)[i]), CAPTION_WIDTH)
    ensures forall e :: e in g.edges && e.target == g.lookup[StepKey(s, i + 1)] <==>
      e == Edge(g.lookup[ChainSource(s, i)], g.lookup[StepKey(s, i + 1)], if i == 0 then "runs" else "then")
    ensures forall e | e in g.edges && e.source == g.lookup[StepKey(s, i + 1)] ::
      && i + 1 < |StepsOf(es, s)| && StepKey(s, i + 2) in g.lookup
      && e == Edge(g.lookup[StepKey(s, i + 1)], g.lookup[StepKey(s, i + 2)], "then")
  {
    hide GraphOf, LinksOf, StepsOf, Take, StepCaption, StepKey, ChainSource, Realizes, StepLink;
    StepCaptions(es, s, i, g);
    GraphRealizesLinks(es);
    ChainEnters(es, s, i, g);
    forall e | e in g.edges && e.source == g.lookup[StepKey(s, i + 1)]
      ensures i + 1 < |StepsOf(es, s)| && StepKey(s, i + 2) in g.lookup
      ensures e == Edge(g.lookup[StepKey(s, i + 1)], g.lookup[StepKey(s, i + 2)], "then")
    {
      ChainLeaves(es, s, i + 1, g, e);
    }
  }

  // ── Degrees ──────────────────────────────────────────────────────────────

  /** How many edge ends are at `id`. */
  function Degree(edges: seq<Edge>, id: nat): nat {
    if edges == [] then 0
    else
      var e := edges[|edges| - 1];
      Degree(edges[..|edges| - 1], id) + (if e.source == id then 1 else 0) + (if e.target == id then 1 else 0)
  }

  function DegreeSum(edges: seq<Edge>, n: nat): nat {
    if n == 0 then 0 else DegreeSum(edges, n - 1) + Degree(edges, n)
  }

  lemma {:induction false} DegreeSumStep(edges: seq<Edge>, n: nat)
    requires edges != []
    ensures var e := edges[|edges| - 1];
      DegreeSum(edges, n) == DegreeSum(edges[..|edges| - 1], n)
        + (if 1 <= e.source <= n then 1 else 0) + (if 1 <= e.target <= n then 1 else 0)
  {
    if n == 0 {
    } else {
      DegreeSumStep(edges, n - 1);
    }
  }

  lemma {:induction false} NoDegrees(n: nat)
    ensures DegreeSum([], n) == 0
  {
    if n == 0 {
    } else {
      NoDegrees(n - 1);
    }
  }

  lemma {:induction false} Handshake(edges: seq<Edge>, n: nat)
    requires forall e | e in edges :: 1 <= e.source <= n && 1 <= e.target <= n
    ensures DegreeSum(edges, n) == 2 * |edges|
  {
    if edges == [] {
      NoDegrees(n);
    } else {
      DegreeSumStep(edges, n);
      Handshake(edges[..|edges| - 1], n);
    }
  }

  lemma {:induction false} Touched(edges: seq<Edge>, e: Edge, id: nat)
    requires e in edges && (e.source == id || e.target == id)
    ensures Degree(edges, id) > 0
  {
    var n := |edges| - 1;
    if e == edges[n] {
    } else {
      assert e in edges[..n];
      Touched(edges[..n], e, id);
    }
  }

  lemma JoinedTouched(edges: seq<Edge>, id: nat)
    requires Joined(edges, id) && id != 1
    ensures Degree(edges, id) > 0
  {
    hide Degree;
    var path :| IsPath(edges, path) && path[0] == id && path[|path| - 1] == 1;
    assert Adjacent(edges, path[0], path[1]);
    var r :| Edge(id, path[1], r) in edges || Edge(path[1], id, r) in edges;
    Touched(edges, if Edge(id, path[1], r) in edges then Edge(id, path[1], r) else Edge(path[1], id, r), id);
  }

  /** The degrees of the graph's nodes sum to twice its edges, and with more
      than one node none of them is zero. */
  lemma GraphDegrees(es: seq<Event>, g: Graph)
    requires g == GraphOf(es)
    ensures DegreeSum(g.edges, |g.nodes|) == 2 * |g.edges|
    ensures forall id: nat | 1 < id <= |g.nodes| :: Degree(g.edges, id) > 0
  {
    hide GraphOf, LinksOf, Degree, Joined, Realizes, Connected, DegreeSum;
    GraphRealizesLinks(es);
    Handshake(g.edges, |g.nodes|);
    GraphConnected(es);
    forall id: nat | 1 < id <= |g.nodes|
      ensures Degree(g.edges, id) > 0
    {
      JoinedTouched(g.edges, id);
    }
  }
}
