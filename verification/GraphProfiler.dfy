/** The profiler object that builds the behaviour graph event by event. */
module GraphProfiler {
  import opened Collections
  import opened B = BehaviourGraph
  import opened GraphPaths
  import Text

  /** The last node of a session's chain and its number. */
  datatype Last = Last(node: nat, n: nat)

  /** What the profiler remembers of each session after the events `before`. */
  ghost predicate Remembers(last: map<string, Last>, before: seq<Event>, lookup: map<string, nat>) {
    && (forall s :: s in last <==> StepsOf(before, s) != [])
    && (forall s | s in last ::
          && last[s].n == |StepsOf(before, s)|
          && StepKey(s, last[s].n) in lookup && last[s].node == lookup[StepKey(s, last[s].n)])
  }

  lemma RemembersMore(last: map<string, Last>, before: seq<Event>, e: Event, g: Graph, h: Graph)
    requires Remembers(last, before, g.lookup) && Extends(h, g)
    requires forall s :: !IsStep(e, s)
    ensures Remembers(last, before + [e], h.lookup)
  {
    hide IsStep, StepsOf, StepKey;
    forall s {
      StepsSnoc(before, e, s);
    }
  }

  lemma OnlyItsSession(e: Event)
    ensures forall s :: IsStep(e, s) ==> s == Session(e)
  {
  }

  lemma RemembersStep(last: map<string, Last>, before: seq<Event>, e: Event, g: Graph, h: Graph)
    requires Remembers(last, before, g.lookup) && Extends(h, g) && IsStep(e, Session(e))
    requires StepKey(Session(e), |StepsOf(before, Session(e))| + 1) in h.lookup
    ensures var n := |StepsOf(before, Session(e))| + 1;
      Remembers(last[Session(e) := Last(h.lookup[StepKey(Session(e), n)], n)], before + [e], h.lookup)
  {
    hide StepsOf, StepKey, IsStep;
    OnlyItsSession(e);
    forall s {
      StepsSnoc(before, e, s);
    }
  }

  /** Where node `i` of a numbered graph is listed. */
  lemma NumberedIds(g: Graph, i: nat)
    requires Numbered(g) && i < |g.nodes|
    ensures g.nodes[i].id == i + 1
  {
  }

  lemma DegreeSnoc(edges: seq<Edge>, i: nat, id: nat)
    requires i < |edges|
    ensures Degree(edges[..i + 1], id)
      == Degree(edges[..i], id) + (if edges[i].source == id then 1 else 0) + (if edges[i].target == id then 1 else 0)
  {
    assert edges[..i + 1][..i] == edges[..i];
  }

  lemma NoEdges()
    ensures forall id: nat :: Degree([], id) == 0
  {
  }

  lemma Nothing()
    ensures GraphOf([]) == EMPTY && Remembers(map[], [], EMPTY.lookup)
  {
    assert LinksOf([]) == [];
    assert forall s :: StepsOf([], s) == [];
  }

  lemma RootStays(g: Graph, h: Graph)
    requires Extends(h, g) && ROOT in g.lookup
    ensures ROOT in h.lookup && h.lookup[ROOT] == g.lookup[ROOT]
  {
  }

  lemma NotAShell(e: Event)
    requires !IsShell(e)
    ensures forall s :: !IsStep(e, s)
  {
  }

  lemma NotAStep(e: Event)
    requires IsConnect(e) || Command(e) == ""
    ensures forall s :: !IsStep(e, s)
  {
  }

  lemma JoinOne(g: Graph, l: Link)
    ensures JoinAll(g, [l]) == Join(g, l)
  {
    hide Join;
    assert [l][..0] == [];
  }

  lemma JoinNoneOrOne(g: Graph, ls: seq<Link>)
    requires |ls| <= 1
    ensures JoinAll(g, ls) == if ls == [] then g else Join(g, ls[0])
  {
    if ls != [] {
      assert ls == [ls[0]];
      JoinOne(g, ls[0]);
    }
  }

  /** A link joined as the profiler does it: find or add both ends, then the edge. */
  lemma JoinDirect(g: Graph, l: Link)
    ensures var h := B.AddNode(B.AddNode(g, l.source, l.sourceCaption), l.target, l.targetCaption);
      Join(g, l) == B.AddEdge(h, h.lookup[l.source], h.lookup[l.target], l.relation)
  {
  }

  /** A link from a node that exists only needs its target. */
  lemma JoinFromOld(g: Graph, l: Link)
    requires l.source in g.lookup
    ensures var h := B.AddNode(g, l.target, l.targetCaption);
      && l.source in h.lookup
      && Join(g, l) == B.AddEdge(h, h.lookup[l.source], h.lookup[l.target], l.relation)
  {
  }

  lemma JoinRoot(g: Graph, l: Link)
    requires l.target in g.lookup
    ensures var h := B.AddNode(g, l.source, l.sourceCaption);
      && l.target in h.lookup
      && Join(g, l) == B.AddEdge(h, h.lookup[l.source], h.lookup[l.target], l.relation)
  {
  }

  /** The remembered end of a session's chain is the source of its next link. */
  lemma Recalls(last: map<string, Last>, before: seq<Event>, g: Graph, m: Graph, s: string)
    requires Remembers(last, before, g.lookup) && Extends(m, g)
    ensures (if s in last then last[s].n else 0) == |StepsOf(before, s)|
    ensures s in last <==> |StepsOf(before, s)| > 0
    ensures s in last ==> ChainSource(s, last[s].n) in m.lookup && last[s].node == m.lookup[ChainSource(s, last[s].n)]
    ensures s !in last ==> ChainSource(s, 0) == ShellKey(s)
  {
    hide StepsOf, StepKey;
  }

  class TemporalGNNProfiler {
    var events: seq<Event>
    var nodes: seq<Node>
    var edges: seq<Edge>
    var nodeLookup: map<string, nat>
    var shellPrev: map<string, Last>

    ghost function View(): Graph
      reads this
    {
      Graph(nodes, edges, nodeLookup)
    }

    constructor (input: seq<Event>)
      ensures events == Sort(input, ByTime) && multiset(events) == multiset(input) && Sorted(events, ByTime)
      ensures View() == Graph([], [], map[]) && shellPrev == map[]
    {
      SortCorrect(input, ByTime);
      events := Sort(input, ByTime);
      nodes, edges, nodeLookup, shellPrev := [], [], map[], map[];
    }

    method AddNode(key: string, caption: string) returns (id: nat)
      modifies this`nodes, this`nodeLookup
      ensures View() == B.AddNode(old(View()), key, caption)
      ensures key in nodeLookup && id == nodeLookup[key]
    {
      if key !in nodeLookup {
        var next := |nodes| + 1;
        nodeLookup := nodeLookup[key := next];
        nodes := nodes + [Node(next, Take(caption, CAPTION_WIDTH))];
      }
      id := nodeLookup[key];
    }

    method AddEdge(source: nat, target: nat, relation: string)
      modifies this`edges
      ensures View() == B.AddEdge(old(View()), source, target, relation)
    {
      if source == target {
        return;
      }
      for i := 0 to |edges|
        invariant edges == old(edges)
        invariant Edge(source, target, relation) !in edges[..i]
      {
        if edges[i].source == source && edges[i].target == target && edges[i].relation == relation {
          return;
        }
        assert edges[..i + 1] == edges[..i] + [edges[i]];
      }
      assert edges[..|edges|] == edges;
      edges := edges + [Edge(source, target, relation)];
    }

    /** A sandbox event: its session's node, then a destination or the next
        command of the chain. `before` are the events ingested already. */
    method IngestShellEvent(e: Event, root: nat, ghost before: seq<Event>)
      requires IsShell(e) && ROOT in nodeLookup && root == nodeLookup[ROOT]
      requires Remembers(shellPrev, before, nodeLookup)
      modifies this`nodes, this`edges, this`nodeLookup, this`shellPrev
      ensures View() == JoinAll(old(View()), EventLinks(before, e))
      ensures Remembers(shellPrev, before + [e], nodeLookup)
    {
      hide Remembers, Join, Take, Destination, IsConnect, Command, ShortCommand, StepsOf, StepLink, Extends, StepKey;
      ghost var g := View();
      ghost var ls := EventLinks(before, e);
      JoinAllExtends(g, ls);
      var s := Session(e);
      ghost var n := |StepsOf(before, s)|;
      var shell := AddNode(ShellKey(s), ShellCaption(s));
      AddEdge(shell, root, "sandbox_on");
      ghost var m := View();
      assert m == Join(g, ls[0]) by {
        JoinRoot(g, ls[0]);
      }
      JoinExtends(g, ls[0]);
      if IsConnect(e) {
        var dst := AddNode(DestinationKey(e), Destination(e));
        AddEdge(shell, dst, "connects");
        assert View() == Join(m, ls[1]) by {
          assert ls[1] == Link(ShellKey(s), ShellCaption(s), DestinationKey(e), Destination(e), "connects");
          JoinFromOld(m, ls[1]);
        }
        assert ls == [ls[0], ls[1]];
        JoinTwo(g, ls[0], ls[1]);
        NotAStep(e);
        RemembersMore(shellPrev, before, e, g, View());
        return;
      }
      if Command(e) == "" {
        assert ls == [ls[0]];
        JoinOne(g, ls[0]);
        NotAStep(e);
        RemembersMore(shellPrev, before, e, g, View());
        return;
      }
      StepTarget(e, n);
      assert ls == [ls[0], StepLink(e, n)];
      JoinTwo(g, ls[0], ls[1]);
      Recalls(shellPrev, before, g, m, s);
      var step := (if s in shellPrev then shellPrev[s].n else 0) + 1;
      var node := AddNode(StepKey(s, step), StepCaption(step, e));
      if s in shellPrev {
        AddEdge(shellPrev[s].node, node, "then");
      } else {
        AddEdge(shell, node, "runs");
      }
      assert View() == Join(m, StepLink(e, n)) by {
        JoinFromOld(m, StepLink(e, n));
      }
      RemembersStep(shellPrev, before, e, g, View());
      shellPrev := shellPrev[s := Last(node, step)];
    }

    /** A sensor event: its source and service, then its command and file. */
    method IngestSensorEvent(e: Event, root: nat, ghost before: seq<Event>)
      requires !IsShell(e) && ROOT in nodeLookup && root == nodeLookup[ROOT]
      modifies this`nodes, this`edges, this`nodeLookup
      ensures View() == JoinAll(old(View()), EventLinks(before, e))
    {
      hide Join, Take, Text.FirstWord, ServiceName, JoinAll;
      ghost var g := View();
      var service := ServiceName(Port(e));
      var ip := AddNode(IpKey(e), Ip(e));
      var svc := AddNode(PortKey(e), service);
      ghost var named := View();
      AddEdge(ip, svc, "targets");
      ghost var first := Link(IpKey(e), Ip(e), PortKey(e), service, "targets");
      assert View() == Join(g, first) by {
        JoinDirect(g, first);
      }
      ghost var g1 := View();
      JoinExtends(g, first);
      ghost var second := Link(PortKey(e), service, ROOT, "", "hosted_by");
      AddEdge(svc, root, "hosted_by");
      assert View() == Join(g1, second) by {
        JoinFromOld(g1, second);
      }
      ghost var g2 := View();
      JoinTwo(g, first, second);
      JoinExtends(g1, second);
      ghost var third := [Link(PortKey(e), service, CommandKey(e), "CMD: " + Take(Text.FirstWord(Commands(e)), 10), "spawns")];
      ghost var fourth := [Link(IpKey(e), Ip(e), FileKey(e), "Payload: " + Take(e.files, 10), "drops")];
      var commands := Commands(e);
      if commands != "" {
        var short := Take(Text.FirstWord(commands), 10);
        var cmd := AddNode("CMD_" + short, "CMD: " + short);
        AddEdge(svc, cmd, "spawns");
        assert View() == Join(g2, third[0]) by {
          JoinFromOld(g2, third[0]);
        }
        JoinExtends(g2, third[0]);
      } else {
        third := [];
      }
      ghost var g3 := View();
      JoinNoneOrOne(g2, third);
      if e.files != "" {
        var file := AddNode("FILE_" + Take(e.files, 10), "Payload: " + Take(e.files, 10));
        AddEdge(ip, file, "drops");
        assert View() == Join(g3, fourth[0]) by {
          JoinFromOld(g3, fourth[0]);
        }
      } else {
        fourth := [];
      }
      JoinNoneOrOne(g3, fourth);
      JoinAllConcat(g, [first, second], third);
      JoinAllConcat(g, [first, second] + third, fourth);
      assert EventLinks(before, e) == [first, second] + third + fourth;
    }

    /** The whole graph: the root, then every event in time order. */
    method ConstructTemporalGraph()
      requires View() == Graph([], [], map[]) && shellPrev == map[]
      modifies this
      ensures events == old(events) && View() == GraphOf(events)
    {
      hide GraphOf, EventLinks, Remembers, IsShell;
      var root := AddNode(ROOT, "Honeynet Core");
      Nothing();
      for i := 0 to |events|
        invariant events == old(events) && ROOT in nodeLookup && root == nodeLookup[ROOT]
        invariant View() == GraphOf(events[..i])
        invariant Remembers(shellPrev, events[..i], nodeLookup)
      {
        var e := events[i];
        ghost var before := events[..i];
        assert events[..i + 1] == before + [e];
        GraphSnoc(before, e);
        RootStays(View(), GraphOf(before + [e]));
        if IsShell(e) {
          IngestShellEvent(e, root, before);
        } else {
          ghost var g := View();
          IngestSensorEvent(e, root, before);
          NotAShell(e);
          RemembersMore(shellPrev, before, e, g, View());
        }
      }
      assert events[..|events|] == events;
    }

    /** The degree of every node, and the largest. */
    method NodeDegrees() returns (degrees: map<nat, nat>, top: nat)
      requires Numbered(View())
      requires forall e | e in edges :: 1 <= e.source <= |nodes| && 1 <= e.target <= |nodes|
      ensures forall id :: id in degrees <==> 1 <= id <= |nodes|
      ensures forall id | id in degrees :: degrees[id] == Degree(edges, id) <= top
      ensures if nodes == [] then top == 0 else exists id :: id in degrees && degrees[id] == top
    {
      hide Numbered, Degree;
      degrees := map[];
      for i := 0 to |nodes|
        invariant forall id :: id in degrees <==> 1 <= id <= i
        invariant forall id | id in degrees :: degrees[id] == 0
      {
        NumberedIds(View(), i);
        degrees := degrees[nodes[i].id := 0];
      }
      NoEdges();
      assert edges[..0] == [];
      for i := 0 to |edges|
        invariant forall id :: id in degrees <==> 1 <= id <= |nodes|
        invariant forall id | id in degrees :: degrees[id] == Degree(edges[..i], id)
      {
        var e := edges[i];
        forall id: nat {
          DegreeSnoc(edges, i, id);
        }
        degrees := degrees[e.source := degrees[e.source] + 1];
        degrees := degrees[e.target := degrees[e.target] + 1];
      }
      assert edges[..|edges|] == edges;
      top := 0;
      for i := 0 to |nodes|
        invariant forall id | 1 <= id <= i :: degrees[id] <= top
        invariant if i == 0 then top == 0 else exists id :: id in degrees && degrees[id] == top
      {
        if i == 0 || degrees[i + 1] > top {
          top := degrees[i + 1];
        }
      }
    }
  }
}
