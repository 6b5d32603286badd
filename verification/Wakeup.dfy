/** The wake-up protocol between the collector and the detection loop, as a
    state machine over the points where the event loop can switch tasks. */
module Wakeup {

  /** Where the detection loop is: inside `run_cycle`, in `wait_for` on the
      flag, or in the debounce sleep after the flag was seen. */
  datatype Place = Running | Waiting | Debouncing

  /** `commits` counts batches of telemetry committed so far; `signalled` those
      whose listener has called `set`; `covered` those committed when the latest
      cycle started, which that cycle can read. */
  datatype State = State(place: Place, flag: bool, commits: nat, signalled: nat, covered: nat)

  /** The collector commits and later calls its listeners, which set the flag;
      other tasks, further commits among them, may run in between. */
  datatype Move =
    | Commit
    | Signal
    | EndCycle
    | Wake
    | Timeout
    | EndDebounce

  predicate LoopMove(m: Move) {
    m.EndCycle? || m.Wake? || m.Timeout? || m.EndDebounce?
  }

  predicate Enabled(s: State, m: Move) {
    match m
    case Commit => true
    case Signal => true
    case EndCycle => s.place == Running
    case Wake => s.place == Waiting && s.flag
    case Timeout => s.place == Waiting
    case EndDebounce => s.place == Debouncing
  }

  /** `clear()` and the start of the next `run_cycle`, with no switch between. */
  function ClearAndStart(s: State): State {
    s.(place := Running, flag := false, covered := s.commits)
  }

  function Next(s: State, m: Move): State {
    match m
    case Commit => s.(commits := s.commits + 1)
    case Signal => s.(flag := true, signalled := s.commits)
    case EndCycle => s.(place := Waiting)
    case Wake => s.(place := Debouncing)
    case Timeout => ClearAndStart(s)
    case EndDebounce => ClearAndStart(s)
  }

  /** The loop starts with a cycle and a clear flag. */
  const INITIAL := State(Running, false, 0, 0, 0)

  function Run(s: State, ms: seq<Move>): State
    decreases |ms|
  {
    if ms == [] then s else Run(Next(s, ms[0]), ms[1..])
  }

  ghost predicate Possible(s: State, ms: seq<Move>)
    decreases |ms|
  {
    ms != [] ==> Enabled(s, ms[0]) && Possible(Next(s, ms[0]), ms[1..])
  }

  /** A signalled commit not yet covered is remembered by the flag or by the
      debounce that has already seen it. */
  ghost predicate Remembered(s: State) {
    && s.covered <= s.commits && s.signalled <= s.commits
    && (s.covered < s.signalled ==> s.flag || s.place == Debouncing)
  }

  lemma StepRemembers(s: State, m: Move)
    requires Remembered(s) && Enabled(s, m)
    ensures Remembered(Next(s, m)) && s.covered <= Next(s, m).covered && s.signalled <= Next(s, m).signalled
  {
  }

  lemma {:induction false} RunRemembers(s: State, ms: seq<Move>)
    requires Remembered(s) && Possible(s, ms)
    ensures Remembered(Run(s, ms)) && s.covered <= Run(s, ms).covered
    decreases |ms|
  {
    if ms == [] {
    } else {
      StepRemembers(s, ms[0]);
      RunRemembers(Next(s, ms[0]), ms[1..]);
    }
  }

  function LoopMoves(ms: seq<Move>): nat {
    if ms == [] then 0 else (if LoopMove(ms[0]) then 1 else 0) + LoopMoves(ms[1..])
  }

  /** How many moves of its own the loop needs before the next cycle starts. */
  function Distance(s: State): nat {
    match s.place
    case Running => 3
    case Waiting => 2
    case Debouncing => 1
  }

  /** While a signalled commit is uncovered the loop always has a move of its
      own that needs neither a commit nor the fallback tick. */
  lemma NeverNeedsTick(s: State)
    requires Remembered(s) && s.covered < s.signalled
    ensures exists m :: LoopMove(m) && !m.Timeout? && Enabled(s, m)
  {
    match s.place {
      case Running => assert Enabled(s, EndCycle);
      case Waiting => assert Enabled(s, Wake);
      case Debouncing => assert Enabled(s, EndDebounce);
    }
  }

  /** No lost wake-up: in every interleaving, once commit `n` has been
      signalled, a cycle that started after it begins within three moves of the
      loop, whatever the collector does meanwhile. */
  lemma {:induction false} NoLostWakeup(s: State, ms: seq<Move>, n: nat)
    requires Remembered(s) && Possible(s, ms) && n <= s.signalled
    requires LoopMoves(ms) >= Distance(s)
    ensures Run(s, ms).covered >= n
    decreases |ms|
  {
    if n <= s.covered {
      RunRemembers(s, ms);
    } else {
      var t := Next(s, ms[0]);
      StepRemembers(s, ms[0]);
      if t.covered >= n {
        RunRemembers(t, ms[1..]);
      } else {
        NoLostWakeup(t, ms[1..], n);
      }
    }
  }

  /** From the start of the program: three loop moves after a commit has been
      signalled, a cycle that began after that commit has started. */
  lemma WakeupFromStart(before: seq<Move>, after: seq<Move>)
    requires Possible(INITIAL, before) && Possible(Run(INITIAL, before), after)
    requires LoopMoves(after) >= 3
    ensures Run(Run(INITIAL, before), after).covered >= Run(INITIAL, before).signalled
  {
    RunRemembers(INITIAL, before);
    NoLostWakeup(Run(INITIAL, before), after, Run(INITIAL, before).signalled);
  }

  function Commits(ms: seq<Move>): nat {
    if ms == [] then 0 else (if ms[0].Commit? then 1 else 0) + Commits(ms[1..])
  }

  lemma {:induction false} BurstWaits(s: State, burst: seq<Move>)
    requires forall m | m in burst :: !LoopMove(m)
    ensures Run(s, burst).place == s.place && Run(s, burst).commits == s.commits + Commits(burst)
    decreases |burst|
  {
    if burst == [] {
    } else {
      assert burst[0] in burst;
      BurstWaits(Next(s, burst[0]), burst[1..]);
    }
  }

  lemma {:induction false} RunConcat(s: State, xs: seq<Move>, ys: seq<Move>)
    ensures Run(s, xs + ys) == Run(Run(s, xs), ys)
    decreases |xs|
  {
    if xs == [] {
      assert xs + ys == ys;
    } else {
      RunConcat(Next(s, xs[0]), xs[1..], ys);
      assert (xs + ys)[0] == xs[0] && (xs + ys)[1..] == xs[1..] + ys;
    }
  }

  /** A burst is coalesced: whatever is committed and signalled during one
      debounce, a single cycle covers all of it and leaves the flag clear, so
      the loop next waits for a new signal or its tick. */
  lemma BurstIsOneCycle(s: State, burst: seq<Move>)
    requires Remembered(s) && s.place == Debouncing
    requires Possible(s, burst) && forall m | m in burst :: !LoopMove(m)
    ensures Enabled(Run(s, burst), EndDebounce)
    ensures var t := Run(s, burst + [EndDebounce]);
      t.place == Running && !t.flag && t.covered == t.commits == s.commits + Commits(burst)
  {
    BurstWaits(s, burst);
    RunConcat(s, burst, [EndDebounce]);
    assert [EndDebounce][1..] == [];
  }

  // ── The loop itself, one method per uninterrupted stretch of code ────────

  class DetectionLoop {
    var place: Place
    var flag: bool
    ghost var commits: nat
    ghost var signalled: nat
    ghost var covered: nat

    ghost function View(): State
      reads this
    {
      State(place, flag, commits, signalled, covered)
    }

    constructor ()
      ensures View() == INITIAL
    {
      place, flag, commits, signalled, covered := Running, false, 0, 0, 0;
    }

    /** The collector's transaction becomes durable. */
    method Commit()
      requires Enabled(View(), Move.Commit)
      modifies this
      ensures View() == Next(old(View()), Move.Commit)
      ensures commits == old(commits) + 1 && flag == old(flag) && place == old(place) && covered == old(covered)
    {
      commits := commits + 1;
    }

    /** The collector's listener: `detection_wakeup.set()`. */
    method Signal()
      requires Enabled(View(), Move.Signal)
      modifies this
      ensures View() == Next(old(View()), Move.Signal)
      ensures flag && signalled == commits == old(commits) && place == old(place) && covered == old(covered)
    {
      flag, signalled := true, commits;
    }

    /** `run_cycle` returned or raised; the loop waits on the flag. */
    method EndCycle()
      requires Enabled(View(), Move.EndCycle)
      modifies this
      ensures View() == Next(old(View()), Move.EndCycle)
      ensures place == Waiting && flag == old(flag) && covered == old(covered)
    {
      place := Waiting;
    }

    /** `wait_for` ends: by the flag, into the debounce, or by the timeout. */
    method EndWait(timedOut: bool)
      requires Enabled(View(), if timedOut then Timeout else Wake)
      modifies this
      ensures View() == Next(old(View()), if timedOut then Timeout else Wake)
      ensures timedOut ==> place == Running && !flag && covered == commits
      ensures !timedOut ==> place == Debouncing && flag == old(flag) && covered == old(covered)
    {
      if timedOut {
        flag := false;
        place, covered := Running, commits;
      } else {
        place := Debouncing;
      }
    }

    /** The debounce sleep ends; `clear()`, then the next cycle starts. */
    method EndDebounce()
      requires Enabled(View(), Move.EndDebounce)
      modifies this
      ensures View() == Next(old(View()), Move.EndDebounce)
      ensures place == Running && !flag && covered == commits == old(commits)
    {
      flag := false;
      place, covered := Running, commits;
    }
  }
}
