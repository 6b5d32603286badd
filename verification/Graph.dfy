/** The behaviour graph of a list of events: sources, services, commands, files
    and sandbox sessions, numbered in order of first appearance. */
module BehaviourGraph {
  import opened Collections
  import Text

  /** `time` 0 stands for a missing timestamp, which sorts first. Absent text
      fields are empty; `input` is the "input" entry of the JSON payload. */
  datatype Event = Event(
    time: nat,
    ip: Option<string>,
    port: Option<int>,
    honeypot: string,
    protocol: string,
    session: string,
    eventType: string,
    commands: string,
    input: string,
    files: string)

  datatype Node = Node(id: nat, caption: string)
  datatype Edge = Edge(source: nat, target: nat, relation: string)
  datatype Graph = Graph(nodes: seq<Node>, edges: seq<Edge>, lookup: map<string, nat>)

  const ROOT := "SYSTEM_ROOT"
  const CAPTION_WIDTH := 25

  function Take(s: string, n: nat): string {
    if |s| <= n then s else s[..n]
  }

  /** The number of the node named `key`, created if it is new. */
  function AddNode(g: Graph, key: string, caption: string): (r: Graph)
    ensures key in r.lookup
  {
    if key in g.lookup then g
    else Graph(g.nodes + [Node(|g.nodes| + 1, Take(caption, CAPTION_WIDTH))], g.edges, g.lookup[key := |g.nodes| + 1])
  }

  function AddEdge(g: Graph, source: nat, target: nat, relation: string): Graph {
    if source == target || Edge(source, target, relation) in g.edges then g
    else g.(edges := g.edges + [Edge(source, target, relation)])
  }

  // ── What each event asks for ─────────────────────────────────────────────

  /** An edge between two named nodes, with the captions the nodes get if new. */
  datatype Link = Link(source: string, sourceCaption: string, target: string, targetCaption: string, relation: string)

  function Join(g: Graph, l: Link): Graph {
    var h := AddNode(AddNode(g, l.source, l.sourceCaption), l.target, l.targetCaption);
    AddEdge(h, h.lookup[l.source], h.lookup[l.target], l.relation)
  }

  function JoinAll(g: Graph, ls: seq<Link>): Graph {
    if ls == [] then g else Join(JoinAll(g, ls[..|ls| - 1]), ls[|ls| - 1])
  }

  function Ip(e: Event): string {
    if e.ip == None || e.ip.value == "" then "Unknown IP" else e.ip.value
  }

  function Port(e: Event): int {
    if e.port == None then 0 else e.port.value
  }

  function ServiceName(port: int): string {
    if port == 22 then "SSH Service"
    else if port == 21 then "FTP Service"
    else if port == 80 then "HTTP Service"
    else if port == 445 then "SMB Service"
    else "Port " + Text.Signed(port)
  }

  function Commands(e: Event): string {
    if e.commands != "" then e.commands else e.input
  }

  predicate IsShell(e: Event) {
    e.honeypot == "AnalysisShell" || e.protocol == "shell"
  }

  function Session(e: Event): string {
    if e.session == "" then "adhoc" else e.session
  }

  function Command(e: Event): string {
    Text.Strip(e.commands)
  }

  predicate IsConnect(e: Event) {
    e.eventType == "shell.connection.attempt" || Text.StartsWith(Command(e), "connect")
  }

  /** The event adds a command to the chain of session `s`. */
  predicate IsStep(e: Event, s: string) {
    IsShell(e) && !IsConnect(e) && Command(e) != "" && Session(e) == s
  }

  function Destination(e: Event): string {
    var named := Text.Strip(Text.Remove(Text.Remove(Command(e), "connect (external)"), "connect"));
    if named != "" then named
    else (if e.ip == None then "None" else e.ip.value) + ":" + (if e.port == None then "None" else Text.Signed(e.port.value))
  }

  function ShortCommand(e: Event): string {
    var word := Take(Text.FirstWord(Command(e)), 14);
    if word != "" then word else Take(Command(e), 14)
  }

  function ShellKey(s: string): string { "SHELL_" + s }
  function StepKey(s: string, n: nat): string { "SCMD_" + s + "_" + Text.Decimal(n) }
  function IpKey(e: Event): string { "IP_" + Ip(e) }
  function PortKey(e: Event): string { "PORT_" + Text.Signed(Port(e)) }
  function CommandKey(e: Event): string { "CMD_" + Take(Text.FirstWord(Commands(e)), 10) }
  function FileKey(e: Event): string { "FILE_" + Take(e.files, 10) }
  function DestinationKey(e: Event): string { "DST_" + Destination(e) }
  function ShellCaption(s: string): string { "SHELL " + Take(s, 8) }
  function StepCaption(n: nat, e: Event): string { Text.Decimal(n) + ". " + ShortCommand(e) }

  /** The commands of session `s` among `es`, in order. */
  function StepsOf(es: seq<Event>, s: string): seq<Event> {
    Filter(es, (e: Event) => IsStep(e, s))
  }

  function SensorLinks(e: Event): seq<Link> {
    var service := ServiceName(Port(e));
    [Link(IpKey(e), Ip(e), PortKey(e), service, "targets"), Link(PortKey(e), service, ROOT, "", "hosted_by")]
    + (if Commands(e) == "" then []
       else [Link(PortKey(e), service, CommandKey(e), "CMD: " + Take(Text.FirstWord(Commands(e)), 10), "spawns")])
    + (if e.files == "" then []
       else [Link(IpKey(e), Ip(e), FileKey(e), "Payload: " + Take(e.files, 10), "drops")])
  }

  /** The chain link of the next command when `n` commands came before. */
  function StepLink(e: Event, n: nat): Link {
    var s := Session(e);
    if n == 0 then Link(ShellKey(s), ShellCaption(s), StepKey(s, 1), StepCaption(1, e), "runs")
    else Link(StepKey(s, n), "", StepKey(s, n + 1), StepCaption(n + 1, e), "then")
  }

  function ShellLinks(e: Event, n: nat): seq<Link> {
    var s := Session(e);
    [Link(ShellKey(s), ShellCaption(s), ROOT, "", "sandbox_on")]
    + if IsConnect(e) then [Link(ShellKey(s), ShellCaption(s), DestinationKey(e), Destination(e), "connects")]
      else if Command(e) == "" then []
      else [StepLink(e, n)]
  }

  /** The links of event `e` after the events `before`. */
  function EventLinks(before: seq<Event>, e: Event): seq<Link> {
    if IsShell(e) then ShellLinks(e, |StepsOf(before, Session(e))|) else SensorLinks(e)
  }

  function LinksOf(es: seq<Event>): seq<Link> {
    if es == [] then [] else LinksOf(es[..|es| - 1]) + EventLinks(es[..|es| - 1], es[|es| - 1])
  }

  const EMPTY := AddNode(Graph([], [], map[]), ROOT, "Honeynet Core")

  /** The graph of events already in time order. */
  function GraphOf(es: seq<Event>): Graph {
    JoinAll(EMPTY, LinksOf(es))
  }

  function ByTime(a: Event, b: Event): bool {
    a.time <= b.time
  }

  // ── Well-formedness ──────────────────────────────────────────────────────

  ghost predicate Named(ls: seq<Link>, key: string) {
    exists l :: l in ls && (l.source == key || l.target == key)
  }

  ghost predicate Held(lookup: map<string, nat>, id: nat) {
    exists k :: k in lookup && lookup[k] == id
  }

  /** Node ids are 1..n in creation order and the lookup is a bijection. */
  ghost predicate Numbered(g: Graph) {
    && (forall i | 0 <= i < |g.nodes| :: g.nodes[i].id == i + 1)
    && (forall k | k in g.lookup :: 1 <= g.lookup[k] <= |g.nodes|)
    && (forall j, k | j in g.lookup && k in g.lookup && g.lookup[j] == g.lookup[k] :: j == k)
    && (forall id: nat | 1 <= id <= |g.nodes| :: Held(g.lookup, id))
  }

  function EdgeFor(g: Graph, l: Link): Edge
    requires l.source in g.lookup && l.target in g.lookup
  {
    Edge(g.lookup[l.source], g.lookup[l.target], l.relation)
  }

  /** The nodes are the root and those named by the links. */
  ghost predicate NodesAre(g: Graph, ls: seq<Link>) {
    && ROOT in g.lookup && g.lookup[ROOT] == 1
    && (forall k | k in g.lookup :: k == ROOT || Named(ls, k))
    && (forall l | l in ls :: l.source in g.lookup && l.target in g.lookup)
  }

  /** The edges are exactly the links, each once. */
  ghost predicate EdgesAre(g: Graph, ls: seq<Link>)
    requires NodesAre(g, ls)
  {
    && Distinct(g.edges)
    && (forall l | l in ls :: EdgeFor(g, l) in g.edges)
    && (forall e | e in g.edges :: exists l :: l in ls && e == EdgeFor(g, l))
  }

  ghost predicate Proper(ls: seq<Link>) {
    forall l | l in ls :: l.source != l.target
  }

  ghost predicate Realizes(g: Graph, ls: seq<Link>) {
    Numbered(g) && NodesAre(g, ls) && EdgesAre(g, ls)
  }

  lemma NodeKeepsNumbered(g: Graph, key: string, caption: string)
    requires Numbered(g)
    ensures Numbered(AddNode(g, key, caption))
  {
    var h := AddNode(g, key, caption);
    if key !in g.lookup {
      forall id: nat | 1 <= id <= |h.nodes|
        ensures Held(h.lookup, id)
      {
        if id <= |g.nodes| {
          assert Held(g.lookup, id);
          var k :| k in g.lookup && g.lookup[k] == id;
          assert k in h.lookup && h.lookup[k] == id;
        } else {
          assert h.lookup[key] == id;
        }
      }
    }
  }

  /** Adding nodes and edges never renumbers, relabels or removes anything. */
  ghost predicate Extends(h: Graph, g: Graph) {
    && g.nodes <= h.nodes && g.edges <= h.edges
    && (forall k | k in g.lookup :: k in h.lookup && h.lookup[k] == g.lookup[k])
  }

  lemma JoinExtends(g: Graph, l: Link)
    ensures Extends(Join(g, l), g)
  {
  }

  lemma {:induction false} JoinAllExtends(g: Graph, ls: seq<Link>)
    ensures Extends(JoinAll(g, ls), g)
  {
    if ls == [] {
    } else {
      hide Join;
      JoinAllExtends(g, ls[..|ls| - 1]);
      JoinExtends(JoinAll(g, ls[..|ls| - 1]), ls[|ls| - 1]);
    }
  }

  lemma EdgeKeepsNumbered(g: Graph, source: nat, target: nat, relation: string)
    requires Numbered(g)
    ensures Numbered(AddEdge(g, source, target, relation))
  {
  }

  lemma JoinNumbered(g: Graph, l: Link)
    requires Numbered(g)
    ensures Numbered(Join(g, l))
    ensures Join(g, l).lookup.Keys == g.lookup.Keys + {l.source, l.target}
  {
    var f := AddNode(g, l.source, l.sourceCaption);
    var h := AddNode(f, l.target, l.targetCaption);
    hide Numbered, Take;
    NodeKeepsNumbered(g, l.source, l.sourceCaption);
    NodeKeepsNumbered(f, l.target, l.targetCaption);
    EdgeKeepsNumbered(h, h.lookup[l.source], h.lookup[l.target], l.relation);
  }

  lemma JoinNames(g: Graph, ls: seq<Link>, l: Link)
    requires Numbered(g) && NodesAre(g, ls)
    ensures Numbered(Join(g, l)) && NodesAre(Join(g, l), ls + [l])
  {
    hide Numbered, Join, Take;
    JoinNumbered(g, l);
    JoinExtends(g, l);
    var h := Join(g, l);
    forall k | k in h.lookup
      ensures k == ROOT || Named(ls + [l], k)
    {
      if k in g.lookup && k != ROOT {
        var m :| m in ls && (m.source == k || m.target == k);
        assert m in ls + [l];
      } else {
        assert l in ls + [l];
      }
    }
  }

  /** Ends with different names are different nodes, so the edge is there. */
  lemma JoinEdge(g: Graph, l: Link)
    requires Numbered(g) && l.source != l.target
    ensures var h := Join(g, l);
      && l.source in h.lookup && l.target in h.lookup
      && h.edges == if EdgeFor(h, l) in g.edges then g.edges else g.edges + [EdgeFor(h, l)]
  {
    hide Take;
  }

  lemma JoinKeeps(g: Graph, ls: seq<Link>, l: Link)
    requires Realizes(g, ls) && l.source != l.target
    ensures Realizes(Join(g, l), ls + [l])
  {
    hide Join, Numbered, Take, Named;
    var h := Join(g, l);
    JoinNames(g, ls, l);
    JoinExtends(g, l);
    JoinEdge(g, l);
    forall m | m in ls + [l]
      ensures EdgeFor(h, m) in h.edges
    {
      if m in ls {
        assert EdgeFor(h, m) == EdgeFor(g, m) && EdgeFor(g, m) in g.edges;
      }
    }
    forall e | e in h.edges
      ensures exists m :: m in ls + [l] && e == EdgeFor(h, m)
    {
      if e in g.edges {
        var m :| m in ls && e == EdgeFor(g, m);
        assert m in ls + [l] && e == EdgeFor(h, m);
      } else {
        assert l in ls + [l];
      }
    }
  }

  lemma {:induction false} JoinAllKeeps(ls: seq<Link>)
    requires Proper(ls)
    ensures Realizes(JoinAll(EMPTY, ls), ls)
  {
    if ls == [] {
      assert EMPTY.lookup[ROOT] == 1;
    } else {
      var n := |ls| - 1;
      assert ls == ls[..n] + [ls[n]];
      JoinAllKeeps(ls[..n]);
      JoinKeeps(JoinAll(EMPTY, ls[..n]), ls[..n], ls[n]);
    }
  }

  // ── Names ────────────────────────────────────────────────────────────────

  lemma StepKeyInjective(s: string, i: nat, t: string, j: nat)
    requires StepKey(s, i) == StepKey(t, j)
    ensures s == t && i == j
  {
    var a, b := "SCMD_" + s, "SCMD_" + t;
    assert forall k | 0 <= k < |Text.Decimal(i)| :: Text.IsDigit(Text.Decimal(i)[k]);
    assert forall k | 0 <= k < |Text.Decimal(j)| :: Text.IsDigit(Text.Decimal(j)[k]);
    assert StepKey(s, i) == a + ['_'] + Text.Decimal(i) && StepKey(t, j) == b + ['_'] + Text.Decimal(j);
    Text.SplitLast(a, Text.Decimal(i), b, Text.Decimal(j), '_');
    assert s == a[5..] && t == b[5..];
    Text.ValueOfDecimal(i);
    Text.ValueOfDecimal(j);
  }

  /** Only chain nodes have names beginning SC. */
  predicate LikeStep(key: string) {
    |key| >= 2 && key[0] == 'S' && key[1] == 'C'
  }

  lemma SensorLinksProper(e: Event)
    ensures Proper(SensorLinks(e)) && forall l | l in SensorLinks(e) :: !LikeStep(l.source) && !LikeStep(l.target)
  {
    hide Take, Text.FirstWord, Text.Signed, ServiceName, Ip, Commands;
    assert !LikeStep(ROOT) && IpKey(e)[0] == 'I' && PortKey(e)[0] == 'P' && CommandKey(e)[0] == 'C' && FileKey(e)[0] == 'F';
    hide IpKey, PortKey, CommandKey, FileKey;
  }

  lemma StepLinkProper(e: Event, n: nat)
    ensures StepLink(e, n).source != StepLink(e, n).target && LikeStep(StepLink(e, n).target)
  {
    var s := Session(e);
    assert ShellKey(s)[1] == 'H' && LikeStep(StepKey(s, n + 1));
    if StepKey(s, n) == StepKey(s, n + 1) {
      StepKeyInjective(s, n, s, n + 1);
    }
  }

  lemma ShellLinksProper(e: Event, n: nat)
    ensures Proper(ShellLinks(e, n))
    ensures forall l | l in ShellLinks(e, n) && (LikeStep(l.source) || LikeStep(l.target)) ::
      !IsConnect(e) && Command(e) != "" && l == StepLink(e, n)
  {
    var s := Session(e);
    assert !LikeStep(ROOT) && !LikeStep(ShellKey(s)) && ShellKey(s)[1] == 'H' && ROOT[1] == 'Y';
    assert DestinationKey(e)[0] == 'D' && ShellKey(s)[0] == 'S';
    hide Take, Destination, Command, IsConnect, StepLink, ShellKey, DestinationKey, ShellCaption;
    StepLinkProper(e, n);
  }

  lemma EventLinksProper(before: seq<Event>, e: Event)
    ensures Proper(EventLinks(before, e))
    ensures forall l | l in EventLinks(before, e) && (LikeStep(l.source) || LikeStep(l.target)) ::
      IsStep(e, Session(e)) && l == StepLink(e, |StepsOf(before, Session(e))|)
  {
    hide SensorLinks, ShellLinks, IsConnect, Command, StepsOf, StepLink, LikeStep, Proper;
    SensorLinksProper(e);
    ShellLinksProper(e, |StepsOf(before, Session(e))|);
  }

  lemma {:induction false} LinksProper(es: seq<Event>)
    ensures Proper(LinksOf(es))
  {
    if es == [] {
    } else {
      LinksProper(es[..|es| - 1]);
      EventLinksProper(es[..|es| - 1], es[|es| - 1]);
    }
  }

  /** For every event list the graph is well formed: ids are exactly 1..n, the
      lookup is a bijection, the nodes are the root and those the events name,
      and the edges are exactly the links the events ask for, none repeated and
      none a loop. */
  lemma GraphRealizesLinks(es: seq<Event>)
    ensures Realizes(GraphOf(es), LinksOf(es))
    ensures forall e | e in GraphOf(es).edges ::
      && 1 <= e.source <= |GraphOf(es).nodes| && 1 <= e.target <= |GraphOf(es).nodes|
      && e.source != e.target
  {
    LinksProper(es);
    JoinAllKeeps(LinksOf(es));
    var g := GraphOf(es);
    forall e | e in g.edges
      ensures 1 <= e.source <= |g.nodes| && 1 <= e.target <= |g.nodes| && e.source != e.target
    {
      var l :| l in LinksOf(es) && e == EdgeFor(g, l);
    }
  }
}
