/** The edges and captions of the behaviour graph, in terms of the events alone. */
module GraphMeaning {
  import opened Collections
  import opened B = BehaviourGraph
  import opened GraphPaths
  import Text
  import Timeframe

  function FirstChars(s: string, n: nat): string {
    if |s| < n then s else s[..n]
  }

  /** `word` is the text before the first space. */
  ghost predicate IsFirstWord(text: string, word: string) {
    word <= text && ' ' !in word && (word == text || text[|word|] == ' ')
  }

  lemma {:induction false} FirstWordIs(text: string)
    ensures IsFirstWord(text, Text.FirstWord(text))
  {
    if text == [] || text[0] == ' ' {
    } else {
      FirstWordIs(text[1..]);
      assert text == [text[0]] + text[1..];
    }
  }

  lemma FirstWordUnique(text: string, word: string)
    requires IsFirstWord(text, word)
    ensures word == Text.FirstWord(text)
  {
    FirstWordIs(text);
    var w := Text.FirstWord(text);
    assert forall i | 0 <= i < |word| :: word[i] == text[i] && word[i] != ' ';
    assert forall i | 0 <= i < |w| :: w[i] == text[i] && w[i] != ' ';
    assert |word| == |w|;
  }

  // ── Edges ────────────────────────────────────────────────────────────────

  ghost predicate FromSandbox(e: Event) {
    e.honeypot == "AnalysisShell" || e.protocol == "shell"
  }

  ghost function SessionName(e: Event): string {
    if e.session != "" then e.session else "adhoc"
  }

  ghost predicate Connects(e: Event) {
    e.eventType == "shell.connection.attempt" || "connect" <= Text.Strip(e.commands)
  }

  /** A command of session `s`: not empty, and no connection attempt. */
  ghost predicate IsCommand(e: Event, s: string) {
    FromSandbox(e) && SessionName(e) == s && !Connects(e) && Text.Strip(e.commands) != ""
  }

  ghost function AddressNode(e: Event): string {
    "IP_" + match e.ip { case None => "Unknown IP" case Some(a) => if a == "" then "Unknown IP" else a }
  }

  ghost function PortNode(e: Event): string {
    "PORT_" + Text.Signed(match e.port { case None => 0 case Some(p) => p })
  }

  ghost function TextRun(e: Event): string {
    if e.commands == "" then e.input else e.commands
  }

  /** The edges a sensor event asks for, between named nodes. */
  ghost predicate SensorEdge(e: Event, a: string, b: string, relation: string) {
    !FromSandbox(e) &&
    match relation
    case "targets" => a == AddressNode(e) && b == PortNode(e)
    case "hosted_by" => a == PortNode(e) && b == "SYSTEM_ROOT"
    case "spawns" => TextRun(e) != "" && a == PortNode(e)
      && exists word :: IsFirstWord(TextRun(e), word) && b == "CMD_" + FirstChars(word, 10)
    case "drops" => e.files != "" && a == AddressNode(e) && b == "FILE_" + FirstChars(e.files, 10)
    case _ => false
  }

  /** The edges a sandbox event asks for, the `n` commands of its session before. */
  ghost predicate ShellEdge(e: Event, n: nat, a: string, b: string, relation: string) {
    var s := SessionName(e);
    FromSandbox(e) &&
    match relation
    case "sandbox_on" => a == "SHELL_" + s && b == "SYSTEM_ROOT"
    case "connects" => Connects(e) && a == "SHELL_" + s && b == "DST_" + Destination(e)
    case "runs" => IsCommand(e, s) && n == 0 && a == "SHELL_" + s && b == "SCMD_" + s + "_1"
    case "then" => IsCommand(e, s) && n > 0
      && a == "SCMD_" + s + "_" + Text.Decimal(n) && b == "SCMD_" + s + "_" + Text.Decimal(n + 1)
    case _ => false
  }

  /** How many of the first `k` events are commands of session `s`. */
  ghost function CommandsBefore(es: seq<Event>, k: nat, s: string): nat {
    |set i: nat | i < k && i < |es| && IsCommand(es[i], s)|
  }

  /** The edge the k-th event asks for. */
  ghost predicate AskedFor(es: seq<Event>, k: nat, a: string, b: string, relation: string)
    requires k < |es|
  {
    SensorEdge(es[k], a, b, relation) || ShellEdge(es[k], CommandsBefore(es, k, SessionName(es[k])), a, b, relation)
  }

  ghost predicate HasEdge(g: Graph, a: string, b: string, relation: string) {
    a in g.lookup && b in g.lookup && Edge(g.lookup[a], g.lookup[b], relation) in g.edges
  }

  lemma KindIs(e: Event, s: string)
    ensures IsShell(e) <==> FromSandbox(e)
    ensures Session(e) == SessionName(e)
    ensures IsConnect(e) <==> Connects(e)
    ensures IsStep(e, s) <==> IsCommand(e, s)
  {
  }

  lemma StepsCount(es: seq<Event>, k: nat, s: string)
    requires k <= |es|
    ensures |StepsOf(es[..k], s)| == CommandsBefore(es, k, s)
  {
    var p := (e: Event) => IsStep(e, s);
    FilterPositions(es[..k], p);
    forall i: nat | i < k
      ensures p(es[i]) <==> IsCommand(es[i], s)
    {
      KindIs(es[i], s);
    }
    assert Positions(es[..k], p) == set i: nat | i < k && i < |es| && IsCommand(es[i], s);
    assert Filter(es[..k], p) == StepsOf(es[..k], s);
  }

  lemma SensorLinksListed(e: Event, a: string, b: string, relation: string)
    ensures (exists l :: l in SensorLinks(e) && l.source == a && l.target == b && l.relation == relation) <==>
      || (a == IpKey(e) && b == PortKey(e) && relation == "targets")
      || (a == PortKey(e) && b == ROOT && relation == "hosted_by")
      || (Commands(e) != "" && a == PortKey(e) && b == CommandKey(e) && relation == "spawns")
      || (e.files != "" && a == IpKey(e) && b == FileKey(e) && relation == "drops")
  {
    hide Text.FirstWord, Text.Signed, ServiceName, IpKey, PortKey, CommandKey, FileKey, Commands, Take;
    var ls := SensorLinks(e);
    assert ls[0] in ls && ls[1] in ls;
    if Commands(e) != "" {
      assert ls[2].relation == "spawns" && ls[2] in ls;
    }
    if e.files != "" {
      assert ls[|ls| - 1].relation == "drops" && ls[|ls| - 1] in ls;
    }
  }

  lemma SensorLinksAre(e: Event, a: string, b: string, relation: string)
    requires !IsShell(e)
    ensures (exists l :: l in SensorLinks(e) && l.source == a && l.target == b && l.relation == relation)
      <==> SensorEdge(e, a, b, relation)
  {
    KindIs(e, "");
    FirstWordIs(Commands(e));
    assert IpKey(e) == AddressNode(e) && PortKey(e) == PortNode(e) && Commands(e) == TextRun(e);
    assert FileKey(e) == "FILE_" + FirstChars(e.files, 10);
    assert CommandKey(e) == "CMD_" + FirstChars(Text.FirstWord(TextRun(e)), 10);
    assert forall word :: IsFirstWord(TextRun(e), word) ==> word == Text.FirstWord(TextRun(e)) by {
      forall word | IsFirstWord(TextRun(e), word) {
        FirstWordUnique(TextRun(e), word);
      }
    }
    hide Text.FirstWord, Text.Signed, ServiceName, IpKey, PortKey, CommandKey, FileKey, IsFirstWord, Commands, TextRun, AddressNode,
      PortNode, IsShell, FromSandbox;
    SensorLinksListed(e, a, b, relation);
  }

  lemma ShellLinksAre(e: Event, n: nat, a: string, b: string, relation: string)
    requires IsShell(e)
    ensures (exists l :: l in ShellLinks(e, n) && l.source == a && l.target == b && l.relation == relation)
      <==> ShellEdge(e, n, a, b, relation)
  {
    KindIs(e, Session(e));
    var s := Session(e);
    var ls := ShellLinks(e, n);
    assert ShellKey(s) == "SHELL_" + s && DestinationKey(e) == "DST_" + Destination(e);
    assert StepKey(s, 1) == "SCMD_" + s + "_" + Text.Decimal(1) && Text.Decimal(1) == "1";
    assert StepKey(s, n) == "SCMD_" + s + "_" + Text.Decimal(n) && StepKey(s, n + 1) == "SCMD_" + s + "_" + Text.Decimal(n + 1);
    StepTarget(e, n);
    hide Text.Decimal, Destination, ShellKey, DestinationKey, StepKey, StepLink, Take, ShellCaption, IsConnect, Connects, IsShell,
      FromSandbox;
    assert ls[0] in ls;
    if |ls| > 1 {
      assert ls[1] in ls;
    }
  }

  lemma OneKind(e: Event, n: nat, a: string, b: string, relation: string)
    ensures SensorEdge(e, a, b, relation) ==> !FromSandbox(e)
    ensures ShellEdge(e, n, a, b, relation) ==> FromSandbox(e)
  {
  }

  lemma EventLinksAre(es: seq<Event>, k: nat, a: string, b: string, relation: string)
    requires k < |es|
    ensures (exists l :: l in EventLinks(es[..k], es[k]) && l.source == a && l.target == b && l.relation == relation)
      <==> AskedFor(es, k, a, b, relation)
  {
    hide SensorLinks, ShellLinks, SensorEdge, ShellEdge, StepsOf, CommandsBefore, IsShell, FromSandbox;
    var e := es[k];
    KindIs(e, "");
    OneKind(e, CommandsBefore(es, k, SessionName(e)), a, b, relation);
    if IsShell(e) {
      StepsCount(es, k, Session(e));
      ShellLinksAre(e, CommandsBefore(es, k, SessionName(e)), a, b, relation);
    } else {
      SensorLinksAre(e, a, b, relation);
    }
  }

  lemma {:induction false} LinksIff(es: seq<Event>, l: Link)
    ensures l in LinksOf(es) <==> exists k :: 0 <= k < |es| && l in EventLinks(es[..k], es[k])
  {
    hide EventLinks;
    if es == [] {
    } else {
      var n := |es| - 1;
      var before := es[..n];
      LinksIff(before, l);
      assert LinksOf(es) == LinksOf(before) + EventLinks(before, es[n]);
      assert forall k | 0 <= k < n :: before[..k] == es[..k] && before[k] == es[k];
      if l in LinksOf(before) {
        var k :| 0 <= k < |before| && l in EventLinks(before[..k], before[k]);
        assert l in EventLinks(es[..k], es[k]);
      }
    }
  }

  lemma SameName(g: Graph, a: string, b: string)
    requires Numbered(g) && a in g.lookup && b in g.lookup && g.lookup[a] == g.lookup[b]
    ensures a == b
  {
  }

  /** The graph has an edge between two named nodes exactly when some event asks
      for it. */
  lemma EdgesIff(es: seq<Event>, a: string, b: string, relation: string)
    ensures HasEdge(GraphOf(es), a, b, relation) <==> exists k :: 0 <= k < |es| && AskedFor(es, k, a, b, relation)
  {
    hide EventLinks, LinksOf, GraphOf, AskedFor, Numbered, Distinct;
    GraphRealizesLinks(es);
    var g := GraphOf(es);
    if HasEdge(g, a, b, relation) {
      var l :| l in LinksOf(es) && Edge(g.lookup[a], g.lookup[b], relation) == EdgeFor(g, l);
      SameName(g, a, l.source);
      SameName(g, b, l.target);
      LinksIff(es, l);
      var k :| 0 <= k < |es| && l in EventLinks(es[..k], es[k]);
      EventLinksAre(es, k, a, b, relation);
      assert AskedFor(es, k, a, b, relation);
    }
    if exists k :: 0 <= k < |es| && AskedFor(es, k, a, b, relation) {
      var k :| 0 <= k < |es| && AskedFor(es, k, a, b, relation);
      EventLinksAre(es, k, a, b, relation);
      var l :| l in EventLinks(es[..k], es[k]) && l.source == a && l.target == b && l.relation == relation;
      LinksIff(es, l);
      assert EdgeFor(g, l) in g.edges;
    }
  }

  // ── Destinations ─────────────────────────────────────────────────────────

  ghost predicate Occurs(word: string, text: string) {
    exists a, b :: text == a + word + b
  }

  lemma StartOccurs(word: string, text: string)
    ensures word <= text ==> Occurs(word, text)
  {
    if word <= text {
      assert text == "" + word + text[|word|..];
    }
  }

  lemma OccursLonger(word: string, c: char, rest: string)
    ensures Occurs(word, rest) ==> Occurs(word, [c] + rest)
    ensures word != "" && c != word[0] && Occurs(word, [c] + rest) ==> Occurs(word, rest)
  {
    if Occurs(word, rest) {
      var a, b :| rest == a + word + b;
      assert [c] + rest == ([c] + a) + word + b;
    }
    if word != "" && c != word[0] && Occurs(word, [c] + rest) {
      var a, b :| [c] + rest == a + word + b;
      var all := a + word + b;
      assert all[0] == c && all[|a|] == word[0];
      assert a != "" && rest == all[1..] == a[1..] + word + b;
    }
  }

  lemma {:induction false} RemoveAbsent(text: string, word: string)
    requires word != "" && !Occurs(word, text)
    ensures Text.Remove(text, word) == text
  {
    hide Occurs;
    StartOccurs(word, text);
    if |text| < |word| {
    } else {
      assert text == [text[0]] + text[1..];
      OccursLonger(word, text[0], text[1..]);
      RemoveAbsent(text[1..], word);
    }
  }

  lemma RemoveFront(word: string, rest: string)
    requires word != "" && !Occurs(word, rest)
    ensures Text.Remove(word + rest, word) == rest
  {
    RemoveAbsent(rest, word);
    assert (word + rest)[|word|..] == rest;
  }

  lemma NothingToStrip()
    ensures Text.Strip("") == ""
  {
  }

  ghost function AddressAndPort(e: Event): string {
    (match e.ip case None => "None" case Some(a) => a) + ":" + match e.port case None => "None" case Some(p) => Text.Signed(p)
  }

  /** A connection attempt names its destination after the word; without a name it
      is the event's own address and port. */
  lemma DestinationMeans(e: Event, host: string)
    requires host != "" && !Text.IsSpace(host[0]) && !Text.IsSpace(host[|host| - 1])
    requires !Occurs("connect", host) && !Occurs("connect (external)", "connect " + host)
    ensures Text.Strip(e.commands) == "connect " + host ==> Destination(e) == host
    ensures Text.Strip(e.commands) == "connect" ==> Destination(e) == AddressAndPort(e)
  {
    hide Text.Remove, Text.Strip, Text.Signed;
    if Text.Strip(e.commands) == "connect " + host {
      RemoveAbsent("connect " + host, "connect (external)");
      assert "connect " + host == "connect" + (" " + host);
      OccursLonger("connect", ' ', host);
      RemoveFront("connect", " " + host);
      Timeframe.StripAround(" ", host, "");
      assert " " + host + "" == " " + host;
    }
    if Text.Strip(e.commands) == "connect" {
      RemoveAbsent("connect", "connect (external)");
      RemoveFront("connect", "");
      assert "connect" + "" == "connect";
      NothingToStrip();
    }
  }

  // ── Commands ─────────────────────────────────────────────────────────────

  lemma {:induction false} StripLeftStarts(s: string)
    ensures Text.StripLeft(s) != "" ==> !Text.IsSpace(Text.StripLeft(s)[0])
  {
    if s == [] || !Text.IsSpace(s[0]) {
    } else {
      StripLeftStarts(s[1..]);
    }
  }

  lemma {:induction false} StripRightKeeps(s: string)
    ensures Text.StripRight(s) <= s
  {
    if s == [] || !Text.IsSpace(s[|s| - 1]) {
    } else {
      StripRightKeeps(s[..|s| - 1]);
    }
  }

  /** A chain node is captioned with its number and the first word of its
      command, cut at 14 characters. */
  lemma StepCaptionMeans(e: Event, n: nat) returns (word: string)
    requires Text.Strip(e.commands) != ""
    ensures IsFirstWord(Text.Strip(e.commands), word) && word != ""
    ensures StepCaption(n, e) == Text.Decimal(n) + ". " + FirstChars(word, 14)
  {
    var command := Text.Strip(e.commands);
    StripLeftStarts(e.commands);
    StripRightKeeps(Text.StripLeft(e.commands));
    assert command[0] == Text.StripLeft(e.commands)[0];
    word := Text.FirstWord(command);
    FirstWordIs(command);
    assert command[0] != ' ' && word != "";
  }

  // ── Captions ─────────────────────────────────────────────────────────────

  ghost function ServiceOn(port: int): string {
    match port
    case 21 => "FTP Service"
    case 22 => "SSH Service"
    case 80 => "HTTP Service"
    case 445 => "SMB Service"
    case _ => "Port " + Text.Signed(port)
  }

  /** The caption says what the name does. */
  ghost predicate Fits(key: string, caption: string) {
    && (forall p: int :: key == "PORT_" + Text.Signed(p) ==> caption == ServiceOn(p))
    && (|key| >= 3 && key[..3] == "IP_" ==> caption == key[3..])
    && (|key| >= 6 && key[..6] == "SHELL_" ==> caption == "SHELL " + FirstChars(key[6..], 8))
    && (|key| >= 4 && key[..4] == "DST_" ==> caption == key[4..])
    && (|key| >= 4 && key[..4] == "CMD_" ==> caption == "CMD: " + key[4..])
    && (|key| >= 5 && key[..5] == "FILE_" ==> caption == "Payload: " + key[5..])
  }

  /** The first letters of a name tell what it cannot be. */
  lemma Heads(key: string)
    requires |key| >= 2
    ensures key[0] != 'I' ==> |key| < 3 || key[..3] != "IP_"
    ensures key[1] != 'H' ==> |key| < 6 || key[..6] != "SHELL_"
    ensures key[0] != 'D' ==> |key| < 4 || key[..4] != "DST_"
    ensures key[0] != 'C' ==> |key| < 4 || key[..4] != "CMD_"
    ensures key[0] != 'F' ==> |key| < 5 || key[..5] != "FILE_"
    ensures key[0] != 'P' ==> forall p: int :: key != "PORT_" + Text.Signed(p)
  {
    assert |key| >= 3 ==> key[..3][0] == key[0];
    assert |key| >= 6 ==> key[..6][1] == key[1];
    assert |key| >= 4 ==> key[..4][0] == key[0];
    assert |key| >= 5 ==> key[..5][0] == key[0];
    forall p: int
      ensures ("PORT_" + Text.Signed(p))[0] == 'P'
    {
    }
  }

  /** No service, address, session, destination, command or file. */
  lemma OtherFits(key: string, caption: string)
    requires key == ROOT || LikeStep(key)
    ensures Fits(key, caption)
  {
    assert |key| >= 2 && key[0] == 'S' && key[1] != 'H';
    Heads(key);
  }

  lemma PortsDiffer(p: int, q: int)
    requires "PORT_" + Text.Signed(p) == "PORT_" + Text.Signed(q)
    ensures p == q
  {
    assert ("PORT_" + Text.Signed(p))[5..] == Text.Signed(p) && ("PORT_" + Text.Signed(q))[5..] == Text.Signed(q);
    Text.SignedInjective(p, q);
  }

  lemma ServiceNamed(port: int)
    ensures ServiceName(port) == ServiceOn(port)
  {
    hide Text.Signed;
  }

  lemma PortFits(p: int)
    ensures Fits("PORT_" + Text.Signed(p), ServiceName(p))
  {
    hide ServiceName, ServiceOn;
    var key := "PORT_" + Text.Signed(p);
    ServiceNamed(p);
    forall q: int | key == "PORT_" + Text.Signed(q)
      ensures q == p
    {
      PortsDiffer(p, q);
    }
    hide Text.Signed;
    assert key[0] == 'P' && key[1] == 'O';
    Heads(key);
  }

  lemma OthersFit(x: string)
    ensures Fits("IP_" + x, x) && Fits("DST_" + x, x) && Fits("CMD_" + x, "CMD: " + x) && Fits("FILE_" + x, "Payload: " + x)
    ensures Fits("SHELL_" + x, "SHELL " + Take(x, 8))
  {
    hide Text.Signed, ServiceOn;
    assert ("IP_" + x)[3..] == x && ("DST_" + x)[4..] == x && ("CMD_" + x)[4..] == x && ("FILE_" + x)[5..] == x;
    assert ("SHELL_" + x)[6..] == x;
    assert ("IP_" + x)[0] == 'I' && ("IP_" + x)[1] == 'P' && ("DST_" + x)[0] == 'D' && ("DST_" + x)[1] == 'S';
    assert ("CMD_" + x)[0] == 'C' && ("CMD_" + x)[1] == 'M' && ("FILE_" + x)[0] == 'F' && ("FILE_" + x)[1] == 'I';
    assert ("SHELL_" + x)[0] == 'S' && ("SHELL_" + x)[1] == 'H';
    Heads("IP_" + x);
    Heads("DST_" + x);
    Heads("CMD_" + x);
    Heads("FILE_" + x);
    Heads("SHELL_" + x);
  }

  ghost predicate LinkFits(l: Link) {
    Fits(l.source, l.sourceCaption) && Fits(l.target, l.targetCaption)
  }

  lemma SensorLinksFit(e: Event)
    ensures forall l | l in SensorLinks(e) :: LinkFits(l)
  {
    hide Fits, Take, Text.FirstWord, Text.Signed, ServiceName, Ip, Commands;
    OthersFit(Ip(e));
    OthersFit(Take(Text.FirstWord(Commands(e)), 10));
    OthersFit(Take(e.files, 10));
    PortFits(Port(e));
    OtherFits(ROOT, "");
  }

  lemma StepLinkFits(e: Event, n: nat)
    ensures LinkFits(StepLink(e, n))
  {
    hide Fits, Take;
    var s := Session(e);
    OthersFit(s);
    assert LikeStep(StepKey(s, n)) && LikeStep(StepKey(s, n + 1));
    OtherFits(StepKey(s, n), "");
    OtherFits(StepKey(s, n + 1), StepCaption(n + 1, e));
  }

  lemma ShellLinksFit(e: Event, n: nat)
    ensures forall l | l in ShellLinks(e, n) :: LinkFits(l)
  {
    hide Fits, Take, Destination, StepLink, IsConnect, Command;
    OthersFit(Session(e));
    OthersFit(Destination(e));
    OtherFits(ROOT, "");
    StepLinkFits(e, n);
  }

  ghost predicate Captioned(g: Graph) {
    forall k | k in g.lookup ::
      1 <= g.lookup[k] <= |g.nodes| && exists c :: Fits(k, c) && g.nodes[g.lookup[k] - 1].caption == FirstChars(c, 25)
  }

  lemma AddCaptioned(g: Graph, key: string, caption: string)
    requires Captioned(g) && Fits(key, caption)
    ensures Captioned(B.AddNode(g, key, caption))
  {
    hide Fits;
    var h := B.AddNode(g, key, caption);
    forall k | k in h.lookup
      ensures 1 <= h.lookup[k] <= |h.nodes| && exists c :: Fits(k, c) && h.nodes[h.lookup[k] - 1].caption == FirstChars(c, 25)
    {
      if k in g.lookup {
        var c :| Fits(k, c) && g.nodes[g.lookup[k] - 1].caption == FirstChars(c, 25);
        assert h.lookup[k] == g.lookup[k] && h.nodes[h.lookup[k] - 1] == g.nodes[g.lookup[k] - 1];
      } else {
        assert h.nodes[h.lookup[k] - 1].caption == FirstChars(caption, 25);
      }
    }
  }

  lemma EdgesAside(g: Graph, h: Graph)
    requires Captioned(g) && h.nodes == g.nodes && h.lookup == g.lookup
    ensures Captioned(h)
  {
    hide Fits;
  }

  lemma {:induction false} JoinAllCaptioned(g: Graph, ls: seq<Link>)
    requires Captioned(g) && forall l | l in ls :: LinkFits(l)
    ensures Captioned(JoinAll(g, ls))
  {
    hide Captioned, Fits;
    if ls == [] {
    } else {
      var rest, l := ls[..|ls| - 1], ls[|ls| - 1];
      assert ls == rest + [l] && l in ls;
      JoinAllCaptioned(g, rest);
      var f := JoinAll(g, rest);
      AddCaptioned(f, l.source, l.sourceCaption);
      AddCaptioned(B.AddNode(f, l.source, l.sourceCaption), l.target, l.targetCaption);
      EdgesAside(B.AddNode(B.AddNode(f, l.source, l.sourceCaption), l.target, l.targetCaption), Join(f, l));
    }
  }

  lemma {:induction false} AllFit(es: seq<Event>)
    ensures forall l | l in LinksOf(es) :: LinkFits(l)
  {
    hide LinkFits, SensorLinks, ShellLinks, StepsOf;
    if es == [] {
    } else {
      var before, e := es[..|es| - 1], es[|es| - 1];
      AllFit(before);
      SensorLinksFit(e);
      ShellLinksFit(e, |StepsOf(before, Session(e))|);
    }
  }

  /** The caption of every node, cut at 25 characters, is what its name stands
      for: the service of a port, an address, a session, a destination, a command,
      a file. */
  lemma NodesCaptioned(es: seq<Event>)
    ensures Captioned(GraphOf(es))
  {
    hide Fits, LinksOf;
    OtherFits(ROOT, "Honeynet Core");
    AllFit(es);
    assert Captioned(EMPTY) by {
      AddCaptioned(Graph([], [], map[]), ROOT, "Honeynet Core");
    }
    JoinAllCaptioned(EMPTY, LinksOf(es));
  }
}
