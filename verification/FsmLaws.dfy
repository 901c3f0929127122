/**
 The state machine as a table: for each state and event the state that follows, and what every field of the
 context holds then, with all times written out in ticks of a millisecond.
 */
module FsmLaws {

  import opened Fsm

  /** Occupied if somebody is in the box, else idle. */
  function Settled(occupied: bool): State {
    if occupied then Occupied else Idle
  }

  /** A cleaning begins in a clear box only; a full bin is a fault. */
  function AskedToClean(occupied: bool, binFull: bool, protect: bool): State {
    if occupied then Occupied else if binFull then Faulted else if protect then Idle else Cleaning
  }

  /** A reset ends a stop, unless the cause is still there. */
  function WhenReset(s: State, occupied: bool, binFull: bool, protect: bool): State {
    if protect || binFull then s else Settled(occupied)
  }

  /** The transition table, with the inputs as they are once the event has been noted. */
  function Goal(s: State, ev: Event, phase: Phase, occupied: bool, binFull: bool, protect: bool): State {
    match ev
    case StallOrTimeout => Faulted
    case ProtectTrigger => if s == Cleaning then SafeStop else s
    case OccupiedOn => if s == Cleaning then SafeStop else if s == SafeStop || s == Faulted then s else Occupied
    case OccupiedOff => if s == Occupied then LeaveConfirm else s
    case BinFull => if s == SafeStop then SafeStop else Faulted
    case CleanStart => if s == Idle || s == Occupied || s == CleanDelay then AskedToClean(occupied, binFull, protect) else s
    case DelayTimeout =>
      if s == CleanDelay then AskedToClean(occupied, binFull, protect)
      else if s == LeaveConfirm then (if binFull then Faulted else if protect then Settled(occupied) else if occupied then Occupied else CleanDelay)
      else s
    case Reset =>
      if s == Cleaning then Idle
      else if s == LeaveConfirm || s == CleanDelay || s == SafeStop || s == Faulted then WhenReset(s, occupied, binFull, protect)
      else s
    case ProtectRelease =>
      if s == SafeStop then (if binFull then Faulted else if occupied then Occupied else LeaveConfirm) else s
    case CleanDone => if s == Cleaning then Idle else s
    case Pos1Reached => if s == Cleaning && phase == ToPos1 then Idle else s
    case _ => s
  }

  /** The phase a cleaning goes on to: dump, return the sand, home. */
  function PhaseAfter(phase: Phase, ev: Event): Phase {
    if phase == ToPos2 && ev == Pos2Reached then ToPos3
    else if phase == ToPos3 && ev == Pos3Reached then ToPos1
    else phase
  }

  /** The context after an event, field by field. */
  function Outcome(c: Ctx, ev: Event, now: Tick): Ctx {
    var occupied := if ev == OccupiedOn then true else if ev == OccupiedOff then false else c.occupied;
    var binFull := c.binFull || ev == BinFull;
    var protect := if ev == ProtectTrigger then true else if ev == ProtectRelease then false else c.protect;
    var s := Goal(c.state, ev, c.phase, occupied, binFull, protect);
    var phase := if s != Cleaning then NoPhase else if c.state != Cleaning then ToPos2 else PhaseAfter(c.phase, ev);
    Ctx(s,
        if s == c.state then c.stateEnter else now,
        now,
        if s == Cleaning && c.state != Cleaning then now else c.cleanStarted,
        if s == Cleaning && phase != c.phase then now else c.phaseStarted,
        DeadlineOf(s, c.state, c.deadline, now),
        occupied, binFull, protect,
        s == Cleaning,
        phase,
        FaultOf(s, c.state, c.fault, ev),
        if phase == ToPos2 || phase == ToPos1 then Forward else if phase == ToPos3 then Backward else Stopped)
  }

  /** Two seconds to confirm that the box was left, five more before a cleaning; no deadline elsewhere. */
  function DeadlineOf(s: State, before: State, deadline: Tick, now: Tick): Tick {
    if s == before then deadline
    else if s == LeaveConfirm then (now + 2000) % 0x1_0000_0000
    else if s == CleanDelay then (now + 5000) % 0x1_0000_0000
    else 0
  }

  function FaultOf(s: State, before: State, fault: Fault, ev: Event): Fault {
    if s == SafeStop then ProtectFault
    else if s != Faulted then NoFault
    else if ev == StallOrTimeout then CleanTimeout
    else if before == Faulted then fault
    else BinFullFault
  }

  /** The times of the configuration, in ticks. */
  lemma Times()
    ensures FromMs(LEAVE_CONFIRM_MS) == 2000 && FromMs(CLEAN_DELAY_MS) == 5000 && FromMs(CLEAN_TOTAL_MS) == 20000
    ensures FromMs(PhaseTimeoutMs(ToPos2)) == 6000 && FromMs(PhaseTimeoutMs(ToPos3)) == 5000
    ensures FromMs(PhaseTimeoutMs(ToPos1)) == 6000 && FromMs(PhaseTimeoutMs(NoPhase)) == 0
  {
  }

  lemma LaterIs(now: Tick)
    ensures Later(now, LEAVE_CONFIRM_MS) == (now + 2000) % 0x1_0000_0000
    ensures Later(now, CLEAN_DELAY_MS) == (now + 5000) % 0x1_0000_0000
  {
    Times();
  }

  lemma IdleTable(c: Ctx, ev: Event, now: Tick)
    requires Shape(c) && c.state == Idle && ev != None && ev != ProtectTrigger && ev != StallOrTimeout
    ensures Dispatch(c, ev, now) == Outcome(c, ev, now)
  {
    LaterIs(now);
    hide Later;
  }

  lemma OccupiedTable(c: Ctx, ev: Event, now: Tick)
    requires Shape(c) && c.state == Occupied && ev != None && ev != ProtectTrigger && ev != StallOrTimeout
    ensures Dispatch(c, ev, now) == Outcome(c, ev, now)
  {
    LaterIs(now);
    hide Later;
  }

  lemma LeaveTable(c: Ctx, ev: Event, now: Tick)
    requires Shape(c) && c.state == LeaveConfirm && ev != None && ev != ProtectTrigger && ev != StallOrTimeout
    ensures Dispatch(c, ev, now) == Outcome(c, ev, now)
  {
    LaterIs(now);
    hide Later;
  }

  lemma DelayTable(c: Ctx, ev: Event, now: Tick)
    requires Shape(c) && c.state == CleanDelay && ev != None && ev != ProtectTrigger && ev != StallOrTimeout
    ensures Dispatch(c, ev, now) == Outcome(c, ev, now)
  {
    LaterIs(now);
    hide Later;
  }

  lemma CleaningTable(c: Ctx, ev: Event, now: Tick)
    requires Shape(c) && c.state == Cleaning && ev != None && ev != ProtectTrigger && ev != StallOrTimeout
    ensures Dispatch(c, ev, now) == Outcome(c, ev, now)
  {
    hide Dispatch, Outcome, Shape;
    if Stops(ev) {
      CleaningEnds(c, ev, now);
    } else {
      CleaningStays(c, ev, now);
    }
  }

  lemma CleaningEnds(c: Ctx, ev: Event, now: Tick)
    requires Shape(c) && c.state == Cleaning && ev != ProtectTrigger && ev != StallOrTimeout && Stops(ev)
    ensures Dispatch(c, ev, now) == Outcome(c, ev, now)
  {
    hide Later;
  }

  lemma CleaningStays(c: Ctx, ev: Event, now: Tick)
    requires Shape(c) && c.state == Cleaning && ev != None && !Stops(ev)
    ensures Dispatch(c, ev, now) == Outcome(c, ev, now)
  {
    hide Later;
  }

  lemma SafeStopTable(c: Ctx, ev: Event, now: Tick)
    requires Shape(c) && c.state == SafeStop && ev != None && ev != ProtectTrigger && ev != StallOrTimeout
    ensures Dispatch(c, ev, now) == Outcome(c, ev, now)
  {
    LaterIs(now);
    hide Later;
  }

  lemma FaultedTable(c: Ctx, ev: Event, now: Tick)
    requires Shape(c) && c.state == Faulted && ev != None && ev != ProtectTrigger && ev != StallOrTimeout
    ensures Dispatch(c, ev, now) == Outcome(c, ev, now)
  {
    LaterIs(now);
    hide Later;
  }

  lemma AlarmTable(c: Ctx, ev: Event, now: Tick)
    requires Shape(c) && (ev == ProtectTrigger || ev == StallOrTimeout)
    ensures Dispatch(c, ev, now) == Outcome(c, ev, now)
  {
    hide Later, React;
  }

  /** Every event in every state does what the table says, and an event that is none does nothing. */
  lemma DispatchTable(c: Ctx, ev: Event, now: Tick)
    requires Shape(c)
    ensures Dispatch(c, ev, now) == if ev == None then c else Outcome(c, ev, now)
  {
    if ev == ProtectTrigger || ev == StallOrTimeout {
      AlarmTable(c, ev, now);
    } else if ev != None {
      hide Dispatch, Outcome, Shape;
      match c.state {
        case Idle => IdleTable(c, ev, now);
        case Occupied => OccupiedTable(c, ev, now);
        case LeaveConfirm => LeaveTable(c, ev, now);
        case CleanDelay => DelayTable(c, ev, now);
        case Cleaning => CleaningTable(c, ev, now);
        case SafeStop => SafeStopTable(c, ev, now);
        case Faulted => FaultedTable(c, ev, now);
      }
    }
  }

  /** Ticks since an earlier reading of the clock, which wraps at 2^32. */
  function Since(now: Tick, earlier: Tick): nat {
    (now - earlier) % 0x1_0000_0000
  }

  /** A deadline other than 0 that lies less than 2^31 ticks back. */
  predicate Passed(now: Tick, deadline: Tick) {
    deadline != 0 && Since(now, deadline) < 0x8000_0000
  }

  /** A cleaning takes 20 seconds at most, its phases 6, 5 and 6. */
  predicate Overdue(c: Ctx, now: Tick) {
    Since(now, c.cleanStarted) >= 20000
    || (c.phase == ToPos2 && Since(now, c.phaseStarted) >= 6000)
    || (c.phase == ToPos3 && Since(now, c.phaseStarted) >= 5000)
    || (c.phase == ToPos1 && Since(now, c.phaseStarted) >= 6000)
  }

  /** What a tick does: the first of these that applies, or nothing. */
  function Ticked(c: Ctx, now: Tick): Ctx {
    if c.state == Cleaning && c.protect then Outcome(c, ProtectTrigger, now)
    else if c.state == SafeStop && !c.protect then Outcome(c, ProtectRelease, now)
    else if c.state == Faulted && c.fault == BinFullFault && !c.binFull then
      c.(state := Settled(c.occupied), stateEnter := now, lastEvent := now, deadline := 0, fault := NoFault)
    else if (c.state == LeaveConfirm || c.state == CleanDelay) && Passed(now, c.deadline) then Outcome(c, DelayTimeout, now)
    else if c.state == Cleaning && Overdue(c, now) then Outcome(c, StallOrTimeout, now)
    else c
  }

  /** When the events of a tick are due. */
  lemma DueTimes(c: Ctx, now: Tick)
    ensures DeadlineExpired(now, c.deadline) == Passed(now, c.deadline)
    ensures TotalTimeout(c, now) || PhaseTimeout(c, now) <==> Overdue(c, now)
  {
    Times();
    hide FromMs;
  }

  lemma TickTable(c: Ctx, now: Tick)
    requires Shape(c)
    ensures TickStep(c, now) == Ticked(c, now)
  {
    DueTimes(c, now);
    DispatchTable(c, ProtectTrigger, now);
    DispatchTable(c, ProtectRelease, now);
    DispatchTable(c, DelayTimeout, now);
    DispatchTable(c, StallOrTimeout, now);
    EmptiedBin(c, now);
    hide Dispatch, Outcome, Shape, DeadlineExpired, Passed, TotalTimeout, PhaseTimeout, Overdue, Recover;
  }

  /** A fault for a full bin ends as soon as the bin is not full any more. */
  lemma EmptiedBin(c: Ctx, now: Tick)
    requires Shape(c)
    ensures c.state == Faulted ==>
              Recover(c, Resolve(c), now)
              == c.(state := Settled(c.occupied), stateEnter := now, lastEvent := now, deadline := 0, fault := NoFault)
  {
  }
}
