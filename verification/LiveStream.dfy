/** The browser's single live connection: a reconnect machine driven by page
    calls, timers, fetch results and stream events in any order. */
module LiveStream {
  import opened Collections

  const FIRST_BACKOFF := 1000
  const MAX_BACKOFF := 15000

  datatype Status = Idle | Connecting | Live | Reconnecting | SignedOut

  /** The script's variables `source`, `status`, `backoff`, `retryTimer` and
      `connecting`, with the browser's side of them: the streams not closed and
      the timers still to fire, numbered in order of creation. A fetch is in
      flight exactly while `connecting` is set. `delays` are the retry delays
      scheduled since the last `ready`. */
  datatype State = State(
    source: Option<nat>,
    status: Status,
    backoff: nat,
    retryTimer: Option<nat>,
    connecting: bool,
    streams: nat,
    open: set<nat>,
    timers: nat,
    pending: set<nat>,
    delays: seq<nat>)

  const INITIAL := State(None, Idle, FIRST_BACKOFF, None, false, 0, {}, 0, {}, [])

  datatype Answer = Unauthorized | Failed | Ticket

  /** `bearer` says whether a token is stored when `connect` looks. */
  datatype Move =
    | Call(bearer: bool)
    | Fire(timer: nat, bearer: bool)
    | Answered(answer: Answer)
    | Ready(stream: nat)
    | Heartbeat(stream: nat)
    | Error(stream: nat)

  /** Closed streams send nothing and cleared timers do not fire. */
  predicate Enabled(s: State, m: Move) {
    match m
    case Call(_) => true
    case Fire(timer, _) => timer in s.pending
    case Answered(_) => s.connecting
    case Ready(stream) => stream in s.open
    case Heartbeat(stream) => stream in s.open
    case Error(stream) => stream in s.open
  }

  function Smaller(a: nat, b: nat): nat {
    if a <= b then a else b
  }

  function Schedule(s: State): State {
    s.(status := Reconnecting,
       pending := (s.pending - if s.retryTimer == None then {} else {s.retryTimer.value}) + {s.timers},
       retryTimer := Some(s.timers),
       timers := s.timers + 1,
       backoff := Smaller(s.backoff * 2, MAX_BACKOFF),
       delays := s.delays + [s.backoff])
  }

  predicate Busy(s: State) {
    s.connecting || (s.source != None && s.source.value in s.open)
  }

  function Connect(s: State, bearer: bool): State {
    if Busy(s) then s
    else if !bearer then s.(status := SignedOut)
    else s.(connecting := true, status := if s.status == Idle then Connecting else s.status)
  }

  function Next(s: State, m: Move): State {
    match m
    case Call(bearer) => Connect(s, bearer)
    case Fire(timer, bearer) => Connect(s.(pending := s.pending - {timer}), bearer)
    case Answered(Unauthorized) => s.(status := SignedOut, connecting := false)
    case Answered(Failed) => Schedule(s).(connecting := false)
    case Answered(Ticket) =>
      s.(connecting := false, source := Some(s.streams), open := s.open + {s.streams}, streams := s.streams + 1)
    case Ready(_) => s.(backoff := FIRST_BACKOFF, delays := [], status := Live)
    case Heartbeat(_) => s.(status := Live)
    // The handler closes whatever `source` holds now.
    case Error(_) => Schedule(if s.source == None then s else s.(open := s.open - {s.source.value}))
  }

  function Run(s: State, ms: seq<Move>): State
    decreases |ms|
  {
    if ms == [] then s else Run(Next(s, ms[0]), ms[1..])
  }

  ghost predicate Possible(s: State, ms: seq<Move>)
    decreases |ms|
  {
    ms != [] ==> Enabled(s, ms[0]) && Possible(Next(s, ms[0]), ms[1..])
  }

  // ── Safety and progress ──────────────────────────────────────────────────

  function Pow2(n: nat): nat {
    if n == 0 then 1 else 2 * Pow2(n - 1)
  }

  /** The n-th delay of a series of failures, from 0. */
  function Delay(n: nat): nat {
    Smaller(FIRST_BACKOFF * Pow2(n), MAX_BACKOFF)
  }

  /** Only the current stream can be open and only the current timer pending. */
  ghost predicate Single(s: State) {
    && (forall q: nat | q in s.open :: s.source == Some(q) && q < s.streams)
    && (forall q: nat | q in s.pending :: s.retryTimer == Some(q) && q < s.timers)
    && (s.connecting ==> s.open == {})
  }

  /** Once connected for the first time, the machine is signed out, fetching,
      streaming or has a retry pending; it never just stops. */
  ghost predicate Alive(s: State) {
    match s.status
    case Idle => s.open == {} && s.pending == {} && !s.connecting
    case Connecting => s.connecting || s.open != {} || s.pending != {}
    case Reconnecting => s.connecting || s.open != {} || s.pending != {}
    case Live => s.source != None && s.open == {s.source.value}
    case SignedOut => true
  }

  ghost predicate Backed(s: State) {
    && s.backoff == Delay(|s.delays|)
    && forall n | 0 <= n < |s.delays| :: s.delays[n] == Delay(n)
  }

  lemma DelayDoubles(n: nat)
    ensures Delay(n + 1) == Smaller(2 * Delay(n), MAX_BACKOFF)
  {
  }

  lemma ScheduleKeeps(s: State)
    requires Single(s) && Backed(s)
    ensures Backed(Schedule(s)) && Single(Schedule(s)) && Schedule(s).pending == {s.timers}
  {
    DelayDoubles(|s.delays|);
    hide Delay;
  }

  lemma BackedSame(s: State, t: State)
    requires Backed(s)
    ensures t.backoff == s.backoff && t.delays == s.delays ==> Backed(t)
    ensures t.backoff == FIRST_BACKOFF && t.delays == [] ==> Backed(t)
  {
  }

  lemma StepKeeps(s: State, m: Move)
    requires Enabled(s, m) && Single(s) && Alive(s) && Backed(s)
    ensures Single(Next(s, m)) && Alive(Next(s, m)) && Backed(Next(s, m)) && Next(s, m).status != Idle
  {
    hide Backed;
    match m {
      case Answered(Failed) =>
        ScheduleKeeps(s);
        BackedSame(Schedule(s), Next(s, m));
      case Error(_) =>
        var t := s.(open := s.open - {s.source.value});
        BackedSame(s, t);
        ScheduleKeeps(t);
      case _ =>
    }
    BackedSame(s, Next(s, m));
  }

  /** In every interleaving: at most one stream is open and it is `source`, at
      most one timer is pending, the machine never stops, a live status means an
      open stream, and the n-th delay since the last `ready` is
      min(1000 * 2^n, 15000) ms. */
  lemma {:induction false} RunKeeps(s: State, ms: seq<Move>)
    requires Possible(s, ms) && Single(s) && Alive(s) && Backed(s)
    ensures Single(Run(s, ms)) && Alive(Run(s, ms)) && Backed(Run(s, ms))
    ensures ms != [] ==> Run(s, ms).status != Idle
    decreases |ms|
  {
    if ms == [] {
    } else {
      StepKeeps(s, ms[0]);
      RunKeeps(Next(s, ms[0]), ms[1..]);
    }
  }

  lemma AtMostOne(xs: set<nat>, x: nat)
    requires forall q: nat | q in xs :: q == x
    ensures |xs| <= 1
  {
    assert xs == {} || xs == {x};
  }

  lemma RunFromStart(ms: seq<Move>)
    requires Possible(INITIAL, ms)
    ensures var s := Run(INITIAL, ms);
      && |s.open| <= 1 && |s.pending| <= 1
      && (ms != [] ==> s.status == SignedOut || s.connecting || s.open != {} || s.pending != {})
      && (s.status == Live ==> s.open != {})
      && forall n | 0 <= n < |s.delays| :: s.delays[n] == Smaller(1000 * Pow2(n), 15000)
  {
    hide Run, Possible;
    RunKeeps(INITIAL, ms);
    var s := Run(INITIAL, ms);
    AtMostOne(s.open, if s.source == None then 0 else s.source.value);
    AtMostOne(s.pending, if s.retryTimer == None then 0 else s.retryTimer.value);
  }

  /** An error is always the current stream's, so the handler that closes
      `source` closes the stream that failed, and a retry is the only thing
      left: no stream stays open beside it. */
  lemma ErrorClosesItsStream(s: State, stream: nat)
    requires Single(s) && stream in s.open
    ensures var t := Next(s, Error(stream)); stream !in t.open && t.open == {} && t.pending == {s.timers}
  {
  }

  // ── The script ───────────────────────────────────────────────────────────

  class LiveClient {
    var source: Option<nat>
    var status: Status
    var backoff: nat
    var retryTimer: Option<nat>
    var connecting: bool
    var streams: nat
    var open: set<nat>
    var timers: nat
    var pending: set<nat>
    ghost var delays: seq<nat>

    ghost function View(): State
      reads this
    {
      State(source, status, backoff, retryTimer, connecting, streams, open, timers, pending, delays)
    }

    constructor ()
      ensures View() == INITIAL
    {
      source, status, backoff, retryTimer, connecting := None, Idle, FIRST_BACKOFF, None, false;
      streams, open, timers, pending, delays := 0, {}, 0, {}, [];
    }

    method ClearTimeout()
      modifies this`pending
      ensures pending == old(pending) - if retryTimer == None then {} else {retryTimer.value}
    {
      if retryTimer != None {
        pending := pending - {retryTimer.value};
      }
    }

    method ScheduleReconnect()
      modifies this
      ensures View() == Schedule(old(View()))
      ensures status == Reconnecting && retryTimer == Some(old(timers)) && old(timers) in pending
      ensures backoff == if old(backoff) * 2 < 15000 then old(backoff) * 2 else 15000
      ensures old(retryTimer) != None && old(retryTimer) != Some(old(timers)) ==> old(retryTimer).value !in pending
      ensures source == old(source) && open == old(open) && connecting == old(connecting)
    {
      ClearTimeout();
      status := Reconnecting;
      retryTimer := Some(timers);
      pending := pending + {timers};
      timers := timers + 1;
      delays := delays + [backoff];
      backoff := Smaller(backoff * 2, MAX_BACKOFF);
    }

    /** `connect` up to its first await. */
    method BeginConnect(bearer: bool)
      modifies this
      ensures View() == Connect(old(View()), bearer)
      ensures old(connecting) || (old(source) != None && old(source).value in old(open)) ==> View() == old(View())
      ensures !old(connecting) && (old(source) == None || old(source).value !in old(open)) ==>
        if bearer then connecting && status == (if old(status) == Idle then Connecting else old(status))
        else status == SignedOut && !connecting
      ensures source == old(source) && open == old(open) && pending == old(pending) && backoff == old(backoff)
    {
      if connecting || (source != None && source.value in open) {
        return;
      }
      if !bearer {
        status := SignedOut;
        return;
      }
      connecting := true;
      if status == Idle {
        status := Connecting;
      }
    }

    method TimerFires(timer: nat, bearer: bool)
      requires timer in pending
      modifies this
      ensures View() == Next(old(View()), Fire(timer, bearer))
      ensures timer !in pending && (connecting || !bearer || (source != None && source.value in open))
    {
      pending := pending - {timer};
      BeginConnect(bearer);
    }

    /** `connect` after the ticket request has been answered. */
    method EndConnect(answer: Answer)
      requires connecting
      modifies this
      ensures View() == Next(old(View()), Answered(answer))
      ensures !connecting
      ensures answer == Unauthorized ==> status == SignedOut && open == old(open) && pending == old(pending)
      ensures answer == Failed ==> status == Reconnecting && open == old(open) && old(timers) in pending
      ensures answer == Ticket ==>
        source == Some(old(streams)) && open == old(open) + {old(streams)} && status == old(status) && pending == old(pending)
    {
      match answer {
        case Unauthorized =>
          status := SignedOut;
          connecting := false;
        case Failed =>
          ScheduleReconnect();
          connecting := false;
        case Ticket =>
          connecting := false;
          source := Some(streams);
          open := open + {streams};
          streams := streams + 1;
      }
    }

    method OnReady(ghost stream: nat)
      requires stream in open
      modifies this
      ensures View() == Next(old(View()), Ready(stream))
      ensures status == Live && backoff == 1000 && open == old(open) && pending == old(pending) && source == old(source)
    {
      backoff := FIRST_BACKOFF;
      delays := [];
      status := Live;
    }

    method OnHeartbeat(ghost stream: nat)
      requires stream in open
      modifies this
      ensures View() == Next(old(View()), Heartbeat(stream))
      ensures status == Live && backoff == old(backoff) && open == old(open) && pending == old(pending)
    {
      status := Live;
    }

    method OnError(ghost stream: nat)
      requires stream in open
      modifies this
      ensures View() == Next(old(View()), Error(stream))
      ensures status == Reconnecting && old(timers) in pending
      ensures open == old(open) - if old(source) == None then {} else {old(source).value}
    {
      if source != None {
        open := open - {source.value};
      }
      ScheduleReconnect();
    }
  }
}
