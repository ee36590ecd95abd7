/** The hold/release discipline around a version probe's process group in scripts/adoption_status.py, as a step
    system: a signal may arrive between any two steps. Entering and leaving a context manager is one step. */
module Interrupts {
  import opened Wrappers

  datatype Signal = SIGINT | SIGTERM | SIGHUP

  function Number(s: Signal): int {
    match s
    case SIGINT => 2
    case SIGTERM => 15
    case SIGHUP => 1
  }

  datatype Exception = KeyboardInterrupt | SystemExit(status: int) | OSError

  /** raise_interrupt */
  function Interruption(s: Signal): Exception {
    if s == SIGINT then KeyboardInterrupt else SystemExit(128 + Number(s))
  }

  // ---------------------------------------------------------------- HELD_INTERRUPTS

  datatype Flags = Flags(holding: bool, pending: Option<Signal>)

  function RaiseOf(pending: Option<Signal>): Option<Exception> {
    match pending
    case Some(s) => Some(Interruption(s))
    case None => None
  }

  /** interrupt_probe: what the handler stores and what it raises. */
  function Handle(f: Flags, s: Signal): (Flags, Option<Exception>) {
    if !f.holding then (f, Some(Interruption(s)))
    else (f.(pending := if f.pending.None? then Some(s) else f.pending), None)
  }

  /** held_interrupts on the way in: a hold inside another hold changes nothing. */
  function BeginHold(f: Flags): Flags {
    if f.holding then f else Flags(true, None)
  }

  function EndHold(f: Flags, nested: bool): (Flags, Option<Exception>) {
    if nested then (f, None) else (Flags(false, None), RaiseOf(f.pending))
  }

  /** interrupts_released on the way in: when something was held back, it is raised and the hold resumes at once. */
  function BeginRelease(f: Flags): (Flags, Option<Exception>)
    requires f.holding
  {
    if f.pending.Some? then (Flags(true, None), RaiseOf(f.pending)) else (Flags(false, None), None)
  }

  function EndRelease(f: Flags): Flags {
    f.(holding := true)
  }

  /** The module-level dictionary and the code that changes it. */
  class HeldInterrupts {
    var holding: bool
    var pending: Option<Signal>

    function Current(): Flags
      reads this
    {
      Flags(holding, pending)
    }

    constructor ()
      ensures Current() == Flags(false, None)
    {
      holding, pending := false, None;
    }

    method InterruptProbe(s: Signal) returns (raised: Option<Exception>)
      modifies this
      ensures (Current(), raised) == Handle(old(Current()), s)
    {
      if holding {
        if pending.None? {
          pending := Some(s);
        }
        return None;
      }
      return Some(Interruption(s));
    }

    method EnterHold() returns (nested: bool)
      modifies this
      ensures nested == old(holding) && Current() == BeginHold(old(Current()))
    {
      if holding {
        return true;
      }
      pending := None;
      holding := true;
      return false;
    }

    method LeaveHold(nested: bool) returns (raised: Option<Exception>)
      modifies this
      ensures (Current(), raised) == EndHold(old(Current()), nested)
    {
      if nested {
        return None;
      }
      holding := false;
      var s := pending;
      pending := None;
      raised := RaiseOf(s);
    }

    method EnterRelease() returns (raised: Option<Exception>)
      requires holding
      modifies this
      ensures (Current(), raised) == BeginRelease(old(Current()))
    {
      holding := false;
      var s := pending;
      pending := None;
      raised := RaiseOf(s);
      if raised.Some? {
        holding := true;
      }
    }

    method LeaveRelease()
      modifies this
      ensures Current() == EndRelease(old(Current()))
    {
      holding := true;
    }
  }

  // ---------------------------------------------------------------- run_version_probe, step by step

  /** The statement about to run. */
  datatype Point =
    | AtEntry | AtPopen | AtRelease | AtWait | AtTerm | AtGrace | AtLeaveRelease | AtKill | AtReap | AtLeaveHold | Over

  /** The answer of the world to a step that has more than one. */
  datatype Answer = Ok | Refused | TimedOut

  datatype Event = Arrives(s: Signal) | Advance(answer: Answer)

  /** held: the signals kept back since interruptions were last let through; early: those already being raised. */
  datatype State = State(
    at: Point, flags: Flags, entered: bool, nested: bool,
    created: bool, termed: bool, killed: bool, reaped: bool,
    raising: Option<Exception>, early: seq<Signal>, held: seq<Signal>)

  function Initial(flags: Flags): State {
    State(AtEntry, flags, false, false, false, false, false, false, None, [], [])
  }

  function StepSignal(st: State, s: Signal): State {
    var (flags, raised) := Handle(st.flags, s);
    match st.at
    case Over => st
    case AtEntry =>
      if raised.Some? then st.(raising := raised, early := [s], at := Over) else st.(flags := flags)
    case _ =>
      if raised.None? then st.(flags := flags, held := st.held + [s])
      else st.(flags := EndRelease(flags), raising := raised, early := st.early + st.held + [s], held := [],
               at := AtKill)
  }

  function StepStatement(st: State, answer: Answer): State {
    match st.at
    case AtEntry =>
      var nested := st.flags.holding;
      st.(flags := BeginHold(st.flags), entered := true, nested := nested, at := AtPopen,
          held := if nested && st.flags.pending.Some? then [st.flags.pending.value] else [])
    case AtPopen =>
      if answer == Refused then st.(raising := Some(OSError), at := AtLeaveHold)
      else st.(created := true, at := AtRelease)
    case AtRelease =>
      if !st.flags.holding then st
      else
        var (flags, raised) := BeginRelease(st.flags);
        st.(flags := flags, early := st.held, held := [], raising := raised,
            at := if raised.Some? then AtKill else AtWait)
    case AtWait => st.(at := if answer == TimedOut then AtTerm else AtLeaveRelease)
    case AtTerm => st.(termed := true, at := AtGrace)
    case AtGrace => st.(at := AtLeaveRelease)
    case AtLeaveRelease => st.(flags := EndRelease(st.flags), at := AtKill)
    case AtKill => st.(killed := true, at := AtReap)
    case AtReap => st.(reaped := true, at := AtLeaveHold)
    case AtLeaveHold =>
      var (flags, raised) := EndHold(st.flags, st.nested);
      st.(flags := flags, raising := if raised.Some? then raised else st.raising, at := Over)
    case Over => st
  }

  function Step(st: State, e: Event): State {
    match e
    case Arrives(s) => StepSignal(st, s)
    case Advance(answer) => StepStatement(st, answer)
  }

  /** The state after any sequence of steps and arrivals, from any state of HELD_INTERRUPTS. */
  function Run(flags: Flags, events: seq<Event>): State {
    if events == [] then Initial(flags) else Step(Run(flags, events[..|events| - 1]), events[|events| - 1])
  }

  // ---------------------------------------------------------------- the invariant

  /** Where interruptions are let through. */
  predicate Released(p: Point) {
    p == AtWait || p == AtTerm || p == AtGrace || p == AtLeaveRelease
  }

  predicate InsideHold(p: Point) {
    p != AtEntry && p != Over
  }

  function First(signals: seq<Signal>): Option<Signal> {
    if signals == [] then None else Some(signals[0])
  }

  /** What is on its way out besides the signals still held back. */
  predicate InFlight(st: State) {
    if st.created || st.early != [] then st.raising == RaiseOf(First(st.early))
    else st.raising == None || st.raising == Some(OSError)
  }

  predicate ProcessPhase(st: State) {
    match st.at
    case AtEntry | AtPopen => !st.created && !st.killed && !st.reaped
    case AtRelease | AtWait | AtTerm | AtGrace | AtLeaveRelease | AtKill => st.created && !st.killed && !st.reaped
    case AtReap => st.created && st.killed && !st.reaped
    case AtLeaveHold | Over => st.killed == st.reaped == st.created
  }

  predicate Invariant(st: State) {
    && ProcessPhase(st)
    && (InsideHold(st.at) ==> st.entered)
    && (st.at == AtEntry || (st.at == Over && !st.entered) ==> !st.entered && !st.nested && !st.created)
    && (InsideHold(st.at) ==> (st.flags.holding <==> !Released(st.at)))
    && (InsideHold(st.at) ==> st.flags.pending == First(st.held) && InFlight(st))
    && (Released(st.at) ==> st.held == [] && st.early == [])
    && (st.at == AtEntry || st.at == AtPopen || st.at == AtRelease ==> st.early == [] && st.raising == None)
    && (st.at == AtEntry ==> st.held == [])
    && (st.at == Over && !st.entered ==>
          |st.early| == 1 && st.raising == Some(Interruption(st.early[0])) && st.held == [])
    && (st.at == Over && st.entered && st.nested ==> st.flags.pending == First(st.held) && InFlight(st))
    && (st.at == Over && st.entered && !st.nested ==>
          if st.held != [] then st.raising == Some(Interruption(st.held[0])) else InFlight(st))
  }

  lemma SignalKeepsInvariant(st: State, s: Signal)
    requires Invariant(st)
    ensures Invariant(StepSignal(st, s))
  {
  }

  lemma StatementKeepsInvariant(st: State, answer: Answer)
    requires Invariant(st)
    ensures Invariant(StepStatement(st, answer))
  {
  }

  lemma {:induction false} RunKeepsInvariant(flags: Flags, events: seq<Event>)
    ensures Invariant(Run(flags, events))
  {
    if events != [] {
      var init, last := events[..|events| - 1], events[|events| - 1];
      RunKeepsInvariant(flags, init);
      match last
      case Arrives(s) => SignalKeepsInvariant(Run(flags, init), s);
      case Advance(answer) => StatementKeepsInvariant(Run(flags, init), answer);
    }
  }

  // ---------------------------------------------------------------- what it means

  /** However signals arrive, run_version_probe is left, by return or by raise, only once the group of a process it
      created has been killed and reaped. */
  lemma NoExitLeavesTheGroup(flags: Flags, events: seq<Event>)
    ensures Run(flags, events).at == Over && Run(flags, events).created ==>
              Run(flags, events).killed && Run(flags, events).reaped
  {
    RunKeepsInvariant(flags, events);
  }

  /** While the group is alive and nothing has been killed, control is at a point whose only exits lead to the kill. */
  lemma CreatedMeansKillAhead(flags: Flags, events: seq<Event>, e: Event)
    ensures var st := Run(flags, events);
      st.created && !st.killed ==> st.at != Over && Step(st, e).at != Over
                                   && (Step(st, e).killed ==> st.at == AtKill)
  {
    RunKeepsInvariant(flags, events);
  }

  /** Nothing is raised while holding: an arrival changes only what is held back. */
  lemma NothingRaisedWhileHolding(flags: Flags, events: seq<Event>, s: Signal)
    ensures var st := Run(flags, events);
      InsideHold(st.at) && !Released(st.at) ==>
        Step(st, Arrives(s)) == st.(flags := st.flags.(pending := First(st.held + [s])), held := st.held + [s])
  {
    RunKeepsInvariant(flags, events);
  }

  /** A hold that is not inside another ends by raising exactly when some signal arrived for it: the first one kept
      back since interruptions were last let through if there is one, else the first one that was let through. With
      no signal it returns, or reports that the process could not be created. The flags are clean afterwards. */
  lemma OutermostHoldAnswersEverySignal(flags: Flags, events: seq<Event>)
    ensures var st := Run(flags, events);
      st.at == Over && st.entered && !st.nested ==>
        && (st.early + st.held != [] ==>
              st.raising == Some(Interruption(if st.held != [] then st.held[0] else st.early[0])))
        && (st.early + st.held == [] ==>
              if st.created then st.raising == None else st.raising == None || st.raising == Some(OSError))
  {
    RunKeepsInvariant(flags, events);
  }

  /** A hold inside another raises only what was let through and leaves the rest pending for the outer hold. */
  lemma NestedHoldPassesSignalsOn(flags: Flags, events: seq<Event>)
    ensures var st := Run(flags, events);
      st.at == Over && st.nested ==>
        && st.flags.pending == First(st.held)
        && (st.early != [] ==> st.raising == Some(Interruption(st.early[0])))
  {
    RunKeepsInvariant(flags, events);
  }

  /** The signals that arrived from the step that starts the hold up to the step that ends it. */
  function ForThisHold(flags: Flags, events: seq<Event>): seq<Signal> {
    if events == [] then []
    else
      var init, last := events[..|events| - 1], events[|events| - 1];
      ForThisHold(flags, init) +
      (if last.Arrives? && InsideHold(Run(flags, init).at) then [last.s] else [])
  }

  lemma ArrivalIsKept(st: State, s: Signal)
    requires Invariant(st)
    ensures var t := StepSignal(st, s);
      && t.entered == st.entered && t.nested == st.nested
      && (InsideHold(st.at) ==> t.early + t.held == st.early + st.held + [s])
      && (st.at == Over ==> t == st)
      && (st.at == AtEntry && !st.flags.holding ==> t.at == Over)
  {
  }

  lemma StatementKeepsSignals(st: State, answer: Answer)
    requires Invariant(st)
    ensures var t := StepStatement(st, answer);
      && (st.entered ==> t.entered && t.nested == st.nested && t.early + t.held == st.early + st.held)
      && (!st.entered && t.entered && !st.flags.holding ==> t.early + t.held == [] && !t.nested)
      && (!st.entered && !t.entered ==> t == st)
  {
  }

  /** No signal that arrives inside the hold is lost: those being raised and those held back are, in order, exactly
      the arrivals of the hold. */
  lemma {:induction false} NoSignalIsLost(flags: Flags, events: seq<Event>)
    requires !flags.holding
    ensures Run(flags, events).entered ==>
              Run(flags, events).early + Run(flags, events).held == ForThisHold(flags, events)
    ensures !Run(flags, events).nested
    ensures !Run(flags, events).entered ==>
              ForThisHold(flags, events) == []
              && (Run(flags, events).at == AtEntry ==> Run(flags, events).flags == flags)
  {
    if events != [] {
      var init := events[..|events| - 1];
      NoSignalIsLost(flags, init);
      RunKeepsInvariant(flags, init);
      match events[|events| - 1]
      case Arrives(s) => ArrivalIsKept(Run(flags, init), s);
      case Advance(answer) => StatementKeepsSignals(Run(flags, init), answer);
    }
  }

  // ---------------------------------------------------------------- it always ends

  function Rank(p: Point): nat {
    match p
    case AtEntry => 10
    case AtPopen => 9
    case AtRelease => 8
    case AtWait => 7
    case AtTerm => 6
    case AtGrace => 5
    case AtLeaveRelease => 4
    case AtKill => 3
    case AtReap => 2
    case AtLeaveHold => 1
    case Over => 0
  }

  function Advances(events: seq<Event>): nat {
    if events == [] then 0
    else Advances(events[..|events| - 1]) + if events[|events| - 1].Advance? then 1 else 0
  }

  lemma StepGoesOn(st: State, e: Event)
    requires Invariant(st)
    ensures st.at == Over ==> Step(st, e).at == Over
    ensures Step(st, e).at == Over || Rank(Step(st, e).at) + (if e.Advance? then 1 else 0) <= Rank(st.at)
  {
  }

  /** Signals never push the probe back: after at most ten of its own steps it is over, whatever arrives meanwhile. */
  lemma {:induction false} SignalsCannotDelayTheEnd(flags: Flags, events: seq<Event>)
    ensures Rank(Run(flags, events).at) + Advances(events) <= 10 || Run(flags, events).at == Over
  {
    if events != [] {
      var init := events[..|events| - 1];
      SignalsCannotDelayTheEnd(flags, init);
      RunKeepsInvariant(flags, init);
      StepGoesOn(Run(flags, init), events[|events| - 1]);
    }
  }
}
