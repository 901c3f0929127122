/**
 The litter-box state machine of app_logic/fsm.c.  The functions say what each C function does to
 the context as a value; the class `Machine` does it in place, field by field.
 One clock reading serves a whole dispatch.
 */
module Fsm {

  const TICKS: nat := 0x1_0000_0000

  /** rt_tick_t: a 32-bit counter that wraps. */
  type Tick = n: nat | n < TICKS

  /** Unsigned 32-bit difference. */
  function Elapsed(now: Tick, since: Tick): Tick {
    (now - since) % TICKS
  }

  /** The same difference read as a signed 32-bit value. */
  function SignedElapsed(now: Tick, since: Tick): int {
    if Elapsed(now, since) < TICKS / 2 then Elapsed(now, since) else Elapsed(now, since) - TICKS
  }

  /** rt_tick_from_millisecond for ms >= 0 and RT_TICK_PER_SECOND == 1000 */
  function FromMs(ms: nat): nat {
    1000 * (ms / 1000) + (1000 * (ms % 1000) + 999) / 1000
  }

  function Later(now: Tick, ms: nat): Tick {
    (now + FromMs(ms)) % TICKS
  }

  const LEAVE_CONFIRM_MS: nat := 2000
  const CLEAN_DELAY_MS: nat := 5000
  const TO_POS2_MS: nat := 6000
  const TO_POS3_MS: nat := 5000
  const TO_POS1_MS: nat := 6000
  const CLEAN_TOTAL_MS: nat := 20000

  datatype State = Idle | Occupied | LeaveConfirm | CleanDelay | Cleaning | SafeStop | Faulted
  datatype Event = None | OccupiedOn | OccupiedOff | DelayTimeout | CleanStart | CleanDone
                 | Pos1Reached | Pos2Reached | Pos3Reached | ProtectTrigger | ProtectRelease
                 | StallOrTimeout | BinFull | Reset
  datatype Fault = NoFault | BinFullFault | CleanTimeout | ProtectFault
  datatype Phase = NoPhase | ToPos2 | ToPos3 | ToPos1
  datatype Motor = Stopped | Forward | Backward

  /** litter_fsm_ctx_t with default timing, and what the motor pins were last told. */
  datatype Ctx = Ctx(state: State, stateEnter: Tick, lastEvent: Tick, cleanStarted: Tick, phaseStarted: Tick,
                     deadline: Tick, occupied: bool, binFull: bool, protect: bool, cleaningActive: bool,
                     phase: Phase, fault: Fault, motor: Motor)

  function Resolve(c: Ctx): State {
    if c.occupied then Occupied else Idle
  }

  function MotorFor(p: Phase): Motor {
    match p
    case NoPhase => Stopped
    case ToPos2 => Forward
    case ToPos3 => Backward
    case ToPos1 => Forward
  }

  function PhaseTimeoutMs(p: Phase): nat {
    match p
    case NoPhase => 0
    case ToPos2 => TO_POS2_MS
    case ToPos3 => TO_POS3_MS
    case ToPos1 => TO_POS1_MS
  }

  function StartPhase(c: Ctx, p: Phase, now: Tick): Ctx {
    c.(phase := p, phaseStarted := now, motor := MotorFor(p))
  }

  /** What fsm_enter_state does for every state but CLEANING once the entry is recorded. */
  function Rest(c: Ctx): Ctx {
    c.(phase := NoPhase, cleaningActive := false, motor := Stopped)
  }

  function Record(c: Ctx, next: State, now: Tick): Ctx {
    c.(state := next, stateEnter := now, lastEvent := now, deadline := 0)
  }

  /** The switch of fsm_enter_state. */
  function Arrive(c: Ctx, now: Tick): Ctx {
    match c.state
    case Idle => Rest(c).(fault := NoFault)
    case Occupied => Rest(c).(fault := NoFault)
    case LeaveConfirm => Rest(c).(fault := NoFault, deadline := Later(now, LEAVE_CONFIRM_MS))
    case CleanDelay => Rest(c).(fault := NoFault, deadline := Later(now, CLEAN_DELAY_MS))
    case Cleaning => StartPhase(c.(cleaningActive := true, fault := NoFault, cleanStarted := now), ToPos2, now)
    case SafeStop => Rest(c)
    case Faulted => Rest(c)
  }

  function EnterState(c: Ctx, next: State, now: Tick): Ctx {
    if c.state == next then c else Arrive(Record(c, next, now), now)
  }

  function EnterFault(c: Ctx, f: Fault, now: Tick): Ctx {
    var e := c.(fault := f);
    if c.state == Faulted then e.(motor := Stopped) else EnterState(e, Faulted, now)
  }

  function Recover(c: Ctx, next: State, now: Tick): Ctx {
    EnterState(c.(fault := NoFault), next, now)
  }

  function TryClean(c: Ctx, now: Tick): Ctx {
    if c.occupied then EnterState(c, Resolve(c), now)
    else if c.binFull then EnterFault(c, BinFullFault, now)
    else if c.protect then EnterState(c, Resolve(c), now)
    else EnterState(c, Cleaning, now)
  }

  function StopForProtect(c: Ctx, now: Tick): Ctx {
    EnterState(c.(fault := ProtectFault), SafeStop, now)
  }

  function RecoverFromSafeStop(c: Ctx, now: Tick): Ctx {
    if c.binFull then EnterFault(c, BinFullFault, now)
    else Recover(c, if c.occupied then Occupied else LeaveConfirm, now)
  }

  function ResetRecover(c: Ctx, now: Tick): Ctx {
    if c.protect || c.binFull then c else Recover(c, Resolve(c), now)
  }

  /** The first switch of litter_fsm_dispatch: what the event says about the inputs. */
  function Note(c: Ctx, ev: Event, now: Tick): Ctx {
    var d := c.(lastEvent := now);
    match ev
    case OccupiedOn => d.(occupied := true)
    case OccupiedOff => d.(occupied := false)
    case BinFull => d.(binFull := true)
    case ProtectTrigger => d.(protect := true)
    case ProtectRelease => d.(protect := false)
    case _ => d
  }

  /** The second switch of litter_fsm_dispatch, one function per state. */
  function ReactIdle(c: Ctx, ev: Event, now: Tick): Ctx {
    if ev == OccupiedOn then EnterState(c, Occupied, now)
    else if ev == CleanStart then TryClean(c, now)
    else if ev == BinFull then EnterFault(c, BinFullFault, now)
    else c
  }

  function ReactOccupied(c: Ctx, ev: Event, now: Tick): Ctx {
    if ev == OccupiedOff then EnterState(c, LeaveConfirm, now)
    else if ev == CleanStart then TryClean(c, now)
    else if ev == BinFull then EnterFault(c, BinFullFault, now)
    else c
  }

  function LeaveTimeout(c: Ctx, now: Tick): Ctx {
    if c.binFull then EnterFault(c, BinFullFault, now)
    else if c.protect then EnterState(c, Resolve(c), now)
    else if c.occupied then EnterState(c, Occupied, now)
    else EnterState(c, CleanDelay, now)
  }

  function ReactLeave(c: Ctx, ev: Event, now: Tick): Ctx {
    if ev == OccupiedOn then EnterState(c, Occupied, now)
    else if ev == DelayTimeout then LeaveTimeout(c, now)
    else if ev == Reset then ResetRecover(c, now)
    else if ev == BinFull then EnterFault(c, BinFullFault, now)
    else c
  }

  function ReactDelay(c: Ctx, ev: Event, now: Tick): Ctx {
    if ev == OccupiedOn then EnterState(c, Occupied, now)
    else if ev == DelayTimeout || ev == CleanStart then TryClean(c, now)
    else if ev == Reset then ResetRecover(c, now)
    else if ev == BinFull then EnterFault(c, BinFullFault, now)
    else c
  }

  function ReactCleaning(c: Ctx, ev: Event, now: Tick): Ctx {
    if ev == OccupiedOn || ev == ProtectTrigger then StopForProtect(c, now)
    else if ev == BinFull then EnterFault(c, BinFullFault, now)
    else if ev == Pos2Reached && c.phase == ToPos2 then StartPhase(c, ToPos3, now)
    else if ev == Pos3Reached && c.phase == ToPos3 then StartPhase(c, ToPos1, now)
    else if ev == Pos1Reached && c.phase == ToPos1 then FinishCleaning(c, now)
    else if ev == CleanDone || ev == Reset then EnterState(c, Idle, now)
    else c
  }

  function ReactSafeStop(c: Ctx, ev: Event, now: Tick): Ctx {
    if ev == ProtectRelease then RecoverFromSafeStop(c, now)
    else if ev == Reset then ResetRecover(c, now)
    else c
  }

  function React(c: Ctx, ev: Event, now: Tick): Ctx {
    match c.state
    case Idle => ReactIdle(c, ev, now)
    case Occupied => ReactOccupied(c, ev, now)
    case LeaveConfirm => ReactLeave(c, ev, now)
    case CleanDelay => ReactDelay(c, ev, now)
    case Cleaning => ReactCleaning(c, ev, now)
    case SafeStop => ReactSafeStop(c, ev, now)
    case Faulted => if ev == Reset then ResetRecover(c, now) else c
  }

  /** fsm_finish_cleaning: stop the motor, then dispatch EVT_CLEAN_DONE in CLEANING. */
  function FinishCleaning(c: Ctx, now: Tick): Ctx {
    EnterState(c.(motor := Stopped, lastEvent := now), Idle, now)
  }

  /** litter_fsm_dispatch */
  function Dispatch(c: Ctx, ev: Event, now: Tick): Ctx {
    if ev == None then c
    else
      var d := Note(c, ev, now);
      if ev == ProtectTrigger then (if d.state == Cleaning then StopForProtect(d, now) else d)
      else if ev == StallOrTimeout then EnterFault(d, CleanTimeout, now)
      else React(d, ev, now)
  }

  function DeadlineExpired(now: Tick, deadline: Tick): bool {
    deadline != 0 && SignedElapsed(now, deadline) >= 0
  }

  /** litter_fsm_tick */
  function TickStep(c: Ctx, now: Tick): Ctx {
    if c.state == Cleaning && c.protect then Dispatch(c, ProtectTrigger, now)
    else if c.state == SafeStop && !c.protect then Dispatch(c, ProtectRelease, now)
    else if c.state == Faulted && c.fault == BinFullFault && !c.binFull then Recover(c, Resolve(c), now)
    else
      match c.state
      case LeaveConfirm => if DeadlineExpired(now, c.deadline) then Dispatch(c, DelayTimeout, now) else c
      case CleanDelay => if DeadlineExpired(now, c.deadline) then Dispatch(c, DelayTimeout, now) else c
      case Cleaning => if TotalTimeout(c, now) || PhaseTimeout(c, now) then Dispatch(c, StallOrTimeout, now) else c
      case _ => c
  }

  predicate TotalTimeout(c: Ctx, now: Tick) {
    FromMs(CLEAN_TOTAL_MS) > 0 && Elapsed(now, c.cleanStarted) >= FromMs(CLEAN_TOTAL_MS)
  }

  predicate PhaseTimeout(c: Ctx, now: Tick) {
    FromMs(PhaseTimeoutMs(c.phase)) > 0 && Elapsed(now, c.phaseStarted) >= FromMs(PhaseTimeoutMs(c.phase))
  }

  /** litter_fsm_init */
  function Initial(now: Tick): Ctx {
    Ctx(Idle, now, 0, 0, 0, 0, false, false, false, false, NoPhase, NoFault, Stopped)
  }

  // ---------------------------------------------------------------- what no event can break

  predicate FaultFits(c: Ctx) {
    match c.state
    case SafeStop => c.fault == ProtectFault
    case Faulted => c.fault == BinFullFault || c.fault == CleanTimeout
    case _ => c.fault == NoFault
  }

  /** The motor turns exactly in CLEANING, in the direction of the phase, and the fault code fits the state. */
  predicate Shape(c: Ctx) {
    c.motor == MotorFor(c.phase)
    && (c.motor != Stopped <==> c.state == Cleaning)
    && (c.phase != NoPhase <==> c.state == Cleaning)
    && (c.cleaningActive <==> c.state == Cleaning)
    && FaultFits(c)
  }

  /** Nobody is in the box, the bin has room and no protection is on. */
  predicate Clear(c: Ctx) {
    !c.occupied && !c.binFull && !c.protect
  }

  /** The events that leave the motor standing, whatever it was doing. */
  predicate Stops(ev: Event) {
    ev == OccupiedOn || ev == ProtectTrigger || ev == BinFull || ev == StallOrTimeout || ev == Reset || ev == CleanDone
  }

  /** Where, and on what event, a cleaning may begin. */
  predicate MayBegin(s: State, ev: Event) {
    match s
    case Idle => ev == CleanStart
    case Occupied => ev == CleanStart
    case CleanDelay => ev == CleanStart || ev == DelayTimeout
    case _ => false
  }

  /** The report that ends a phase. */
  function Awaited(p: Phase): Event {
    match p
    case NoPhase => None
    case ToPos2 => Pos2Reached
    case ToPos3 => Pos3Reached
    case ToPos1 => Pos1Reached
  }

  function NextPhase(p: Phase): Phase {
    match p
    case ToPos2 => ToPos3
    case ToPos3 => ToPos1
    case _ => NoPhase
  }

  /** How an event may change a cleaning: it begins one, takes it to the next phase, ends it, or leaves it alone. */
  predicate CleaningMoves(c: Ctx, d: Ctx, ev: Event, now: Tick) {
    (c.state != Cleaning ==>
       (d.state == Cleaning <==> MayBegin(c.state, ev) && Clear(c))
       && (d.state == Cleaning ==> d.phase == ToPos2 && d.phaseStarted == d.cleanStarted == now))
    && (c.state == Cleaning ==>
          (d.state == Cleaning <==> !Stops(ev) && (c.phase != ToPos1 || ev != Pos1Reached))
          && (d.state == Cleaning ==>
                d.cleanStarted == c.cleanStarted
                && (if ev == Awaited(c.phase) && ev != None then d.phase == NextPhase(c.phase) && d.phaseStarted == now
                    else d.phase == c.phase && d.phaseStarted == c.phaseStarted)))
  }

  predicate Obeys(c: Ctx, d: Ctx, ev: Event, now: Tick) {
    Shape(d) && (Stops(ev) ==> d.motor == Stopped) && CleaningMoves(c, d, ev, now)
  }

  lemma RestingObeys(c: Ctx, ev: Event, now: Tick)
    requires Shape(c) && (c.state == Idle || c.state == Occupied) && ev != None && ev != ProtectTrigger && ev != StallOrTimeout
    ensures Obeys(c, React(Note(c, ev, now), ev, now), ev, now)
  {
    hide Later;
  }

  lemma WaitingObeys(c: Ctx, ev: Event, now: Tick)
    requires Shape(c) && (c.state == LeaveConfirm || c.state == CleanDelay) && ev != None && ev != ProtectTrigger && ev != StallOrTimeout
    ensures Obeys(c, React(Note(c, ev, now), ev, now), ev, now)
  {
    hide Later;
  }

  lemma CleaningStops(c: Ctx, ev: Event, now: Tick)
    requires Shape(c) && c.state == Cleaning && ev != None && ev != ProtectTrigger && ev != StallOrTimeout
    requires Stops(ev) || ev == Pos1Reached
    ensures Obeys(c, React(Note(c, ev, now), ev, now), ev, now)
  {
    hide Later;
  }

  lemma CleaningGoesOn(c: Ctx, ev: Event, now: Tick)
    requires Shape(c) && c.state == Cleaning && ev != None && ev != ProtectTrigger && ev != StallOrTimeout
    requires !Stops(ev) && ev != Pos1Reached
    ensures Obeys(c, React(Note(c, ev, now), ev, now), ev, now)
  {
    hide Later;
  }

  lemma StoppedObeys(c: Ctx, ev: Event, now: Tick)
    requires Shape(c) && (c.state == SafeStop || c.state == Faulted) && ev != None && ev != ProtectTrigger && ev != StallOrTimeout
    ensures Obeys(c, React(Note(c, ev, now), ev, now), ev, now)
  {
    hide Later;
  }

  lemma AlarmObeys(c: Ctx, ev: Event, now: Tick)
    requires Shape(c) && (ev == None || ev == ProtectTrigger || ev == StallOrTimeout)
    ensures Obeys(c, Dispatch(c, ev, now), ev, now)
  {
    hide Later, React;
  }

  /**
   Every event keeps motor, phase and fault code in step with the state.  A cleaning begins exactly on a request
   or after the delay, in a clear box, and every other event does to it just what its phase allows.
   */
  lemma DispatchObeys(c: Ctx, ev: Event, now: Tick)
    requires Shape(c)
    ensures Obeys(c, Dispatch(c, ev, now), ev, now)
  {
    hide React, Note, Obeys, Shape;
    if ev == None || ev == ProtectTrigger || ev == StallOrTimeout {
      AlarmObeys(c, ev, now);
    } else {
      match c.state {
        case Idle => RestingObeys(c, ev, now);
        case Occupied => RestingObeys(c, ev, now);
        case LeaveConfirm => WaitingObeys(c, ev, now);
        case CleanDelay => WaitingObeys(c, ev, now);
        case Cleaning => if Stops(ev) || ev == Pos1Reached { CleaningStops(c, ev, now); } else { CleaningGoesOn(c, ev, now); }
        case SafeStop => StoppedObeys(c, ev, now);
        case Faulted => StoppedObeys(c, ev, now);
      }
    }
  }

  /** Is it time, and for what?  The event that a tick comes to. */
  function Due(c: Ctx, now: Tick): Event {
    if c.state == Cleaning && c.protect then ProtectTrigger
    else if c.state == SafeStop && !c.protect then ProtectRelease
    else if (c.state == LeaveConfirm || c.state == CleanDelay) && DeadlineExpired(now, c.deadline) then DelayTimeout
    else if c.state == Cleaning && (TotalTimeout(c, now) || PhaseTimeout(c, now)) then StallOrTimeout
    else None
  }

  /** A tick does what the event does that is due, or recovers from a full bin that was emptied. */
  lemma TickObeys(c: Ctx, now: Tick)
    requires Shape(c)
    ensures Obeys(c, TickStep(c, now), Due(c, now), now)
  {
    DispatchObeys(c, Due(c, now), now);
    hide Later, React, DeadlineExpired, TotalTimeout, PhaseTimeout;
  }

  // ---------------------------------------------------------------- the context in place

  class Machine {
    var state: State
    var stateEnter: Tick
    var lastEvent: Tick
    var cleanStarted: Tick
    var phaseStarted: Tick
    var deadline: Tick
    var occupied: bool
    var binFull: bool
    var protect: bool
    var cleaningActive: bool
    var phase: Phase
    var fault: Fault
    var motor: Motor

    function Value(): Ctx
      reads this
    {
      Ctx(state, stateEnter, lastEvent, cleanStarted, phaseStarted, deadline, occupied, binFull, protect,
          cleaningActive, phase, fault, motor)
    }

    constructor (now: Tick)
      ensures Value() == Initial(now) && Shape(Value())
    {
      state, stateEnter, lastEvent, cleanStarted, phaseStarted, deadline := Idle, now, 0, 0, 0, 0;
      occupied, binFull, protect, cleaningActive := false, false, false, false;
      phase, fault, motor := NoPhase, NoFault, Stopped;
    }

    /** litter_fsm_sync_inputs */
    method DoSync(occupiedNow: bool, binFullNow: bool, protectNow: bool)
      modifies this
      ensures Value() == old(Value()).(occupied := occupiedNow, binFull := binFullNow, protect := protectNow)
    {
      occupied := occupiedNow;
      binFull := binFullNow;
      protect := protectNow;
    }

    method DoStartPhase(p: Phase, now: Tick)
      modifies this
      ensures Value() == StartPhase(old(Value()), p, now)
    {
      phase := p;
      phaseStarted := now;
      match p {
        case ToPos2 => motor := Forward;
        case ToPos3 => motor := Backward;
        case ToPos1 => motor := Forward;
        case NoPhase => motor := Stopped;
      }
    }

    method DoRest()
      modifies this
      ensures Value() == Rest(old(Value()))
    {
      phase := NoPhase;
      cleaningActive := false;
      motor := Stopped;
    }

    method DoCalm()
      modifies this
      ensures Value() == Rest(old(Value())).(fault := NoFault)
    {
      DoRest();
      fault := NoFault;
    }

    method DoArrive(now: Tick)
      modifies this
      ensures Value() == Arrive(old(Value()), now)
    {
      hide Later, Rest, StartPhase;
      match state {
        case Idle => DoCalm();
        case Occupied => DoCalm();
        case LeaveConfirm =>
          DoCalm();
          deadline := Later(now, LEAVE_CONFIRM_MS);
        case CleanDelay =>
          DoCalm();
          deadline := Later(now, CLEAN_DELAY_MS);
        case Cleaning => DoBegin(now);
        case SafeStop => DoRest();
        case Faulted => DoRest();
      }
    }

    method DoBegin(now: Tick)
      modifies this
      ensures Value() == StartPhase(old(Value()).(cleaningActive := true, fault := NoFault, cleanStarted := now),
                                    ToPos2, now)
    {
      hide StartPhase;
      cleaningActive := true;
      fault := NoFault;
      cleanStarted := now;
      DoStartPhase(ToPos2, now);
    }

    method DoEnterState(next: State, now: Tick)
      modifies this
      ensures Value() == EnterState(old(Value()), next, now)
    {
      hide Arrive;
      if state == next {
        return;
      }
      state := next;
      stateEnter := now;
      lastEvent := now;
      deadline := 0;
      DoArrive(now);
    }

    method DoEnterFault(f: Fault, now: Tick)
      modifies this
      ensures Value() == EnterFault(old(Value()), f, now)
    {
      fault := f;
      if state == Faulted {
        motor := Stopped;
        return;
      }
      DoEnterState(Faulted, now);
    }

    method DoRecover(next: State, now: Tick)
      modifies this
      ensures Value() == Recover(old(Value()), next, now)
    {
      fault := NoFault;
      DoEnterState(next, now);
    }

    method DoTryClean(now: Tick)
      modifies this
      ensures Value() == TryClean(old(Value()), now)
    {
      if occupied {
        DoEnterState(Resolve(Value()), now);
      } else if binFull {
        DoEnterFault(BinFullFault, now);
      } else if protect {
        DoEnterState(Resolve(Value()), now);
      } else {
        DoEnterState(Cleaning, now);
      }
    }

    method DoStopForProtect(now: Tick)
      modifies this
      ensures Value() == StopForProtect(old(Value()), now)
    {
      fault := ProtectFault;
      DoEnterState(SafeStop, now);
    }

    method DoRecoverFromSafeStop(now: Tick)
      modifies this
      ensures Value() == RecoverFromSafeStop(old(Value()), now)
    {
      if binFull {
        DoEnterFault(BinFullFault, now);
        return;
      }
      DoRecover(if occupied then Occupied else LeaveConfirm, now);
    }

    method DoResetRecover(now: Tick)
      modifies this
      ensures Value() == ResetRecover(old(Value()), now)
    {
      if protect {
        return;
      }
      if binFull {
        return;
      }
      DoRecover(Resolve(Value()), now);
    }

    method DoReactIdle(ev: Event, now: Tick)
      modifies this
      ensures Value() == ReactIdle(old(Value()), ev, now)
    {
      hide EnterState, TryClean, EnterFault;
      if ev == OccupiedOn {
        DoEnterState(Occupied, now);
      } else if ev == CleanStart {
        DoTryClean(now);
      } else if ev == BinFull {
        DoEnterFault(BinFullFault, now);
      }
    }

    method DoReactOccupied(ev: Event, now: Tick)
      modifies this
      ensures Value() == ReactOccupied(old(Value()), ev, now)
    {
      hide EnterState, TryClean, EnterFault;
      if ev == OccupiedOff {
        DoEnterState(LeaveConfirm, now);
      } else if ev == CleanStart {
        DoTryClean(now);
      } else if ev == BinFull {
        DoEnterFault(BinFullFault, now);
      }
    }

    method DoLeaveTimeout(now: Tick)
      modifies this
      ensures Value() == LeaveTimeout(old(Value()), now)
    {
      hide EnterState, EnterFault, Resolve;
      if binFull {
        DoEnterFault(BinFullFault, now);
      } else if protect {
        DoEnterState(Resolve(Value()), now);
      } else if occupied {
        DoEnterState(Occupied, now);
      } else {
        DoEnterState(CleanDelay, now);
      }
    }

    method DoReactLeave(ev: Event, now: Tick)
      modifies this
      ensures Value() == ReactLeave(old(Value()), ev, now)
    {
      hide EnterState, LeaveTimeout, ResetRecover, EnterFault;
      if ev == OccupiedOn {
        DoEnterState(Occupied, now);
      } else if ev == DelayTimeout {
        DoLeaveTimeout(now);
      } else if ev == Reset {
        DoResetRecover(now);
      } else if ev == BinFull {
        DoEnterFault(BinFullFault, now);
      }
    }

    method DoReactDelay(ev: Event, now: Tick)
      modifies this
      ensures Value() == ReactDelay(old(Value()), ev, now)
    {
      hide EnterState, TryClean, ResetRecover, EnterFault;
      if ev == OccupiedOn {
        DoEnterState(Occupied, now);
      } else if ev == DelayTimeout || ev == CleanStart {
        DoTryClean(now);
      } else if ev == Reset {
        DoResetRecover(now);
      } else if ev == BinFull {
        DoEnterFault(BinFullFault, now);
      }
    }

    /** The nested dispatch of CleanDone, which finds the machine in CLEANING, is written out. */
    method DoReactCleaning(ev: Event, now: Tick)
      modifies this
      ensures Value() == ReactCleaning(old(Value()), ev, now)
    {
      hide EnterState, StopForProtect, EnterFault, StartPhase;
      if ev == OccupiedOn || ev == ProtectTrigger {
        DoStopForProtect(now);
      } else if ev == BinFull {
        DoEnterFault(BinFullFault, now);
      } else if ev == Pos2Reached && phase == ToPos2 {
        DoStartPhase(ToPos3, now);
      } else if ev == Pos3Reached && phase == ToPos3 {
        DoStartPhase(ToPos1, now);
      } else if ev == Pos1Reached && phase == ToPos1 {
        motor := Stopped;
        lastEvent := now;
        DoEnterState(Idle, now);
      } else if ev == CleanDone || ev == Reset {
        DoEnterState(Idle, now);
      }
    }

    method DoReactSafeStop(ev: Event, now: Tick)
      modifies this
      ensures Value() == ReactSafeStop(old(Value()), ev, now)
    {
      hide RecoverFromSafeStop, ResetRecover;
      if ev == ProtectRelease {
        DoRecoverFromSafeStop(now);
      } else if ev == Reset {
        DoResetRecover(now);
      }
    }

    method DoReact(ev: Event, now: Tick)
      modifies this
      ensures Value() == React(old(Value()), ev, now)
    {
      hide ReactIdle, ReactOccupied, ReactLeave, ReactDelay, ReactCleaning, ReactSafeStop, ResetRecover;
      match state {
        case Idle => DoReactIdle(ev, now);
        case Occupied => DoReactOccupied(ev, now);
        case LeaveConfirm => DoReactLeave(ev, now);
        case CleanDelay => DoReactDelay(ev, now);
        case Cleaning => DoReactCleaning(ev, now);
        case SafeStop => DoReactSafeStop(ev, now);
        case Faulted =>
          if ev == Reset {
            DoResetRecover(now);
          }
      }
    }

    method DoNote(ev: Event, now: Tick)
      modifies this
      ensures Value() == Note(old(Value()), ev, now)
    {
      lastEvent := now;
      match ev {
        case OccupiedOn => occupied := true;
        case OccupiedOff => occupied := false;
        case BinFull => binFull := true;
        case ProtectTrigger => protect := true;
        case ProtectRelease => protect := false;
        case _ =>
      }
    }

    /** litter_fsm_dispatch */
    method DoDispatch(ev: Event, now: Tick)
      modifies this
      ensures Value() == Dispatch(old(Value()), ev, now)
      ensures old(Shape(Value())) ==> Obeys(old(Value()), Value(), ev, now)
    {
      hide Shape, Obeys;
      if Shape(Value()) {
        DispatchObeys(Value(), ev, now);
      }
      hide React, EnterFault, StopForProtect, Note;
      if ev == None {
        return;
      }
      DoNote(ev, now);
      if ev == ProtectTrigger {
        if state == Cleaning {
          DoStopForProtect(now);
        }
      } else if ev == StallOrTimeout {
        DoEnterFault(CleanTimeout, now);
      } else {
        DoReact(ev, now);
      }
    }

    /** litter_fsm_tick */
    method DoTick(now: Tick)
      modifies this
      ensures Value() == TickStep(old(Value()), now)
      ensures old(Shape(Value())) ==> Obeys(old(Value()), Value(), Due(old(Value()), now), now)
    {
      hide Shape, Obeys, Due;
      if Shape(Value()) {
        TickObeys(Value(), now);
      }
      hide Dispatch, Recover, DeadlineExpired, TotalTimeout, PhaseTimeout, Resolve;
      if state == Cleaning && protect {
        DoDispatch(ProtectTrigger, now);
        return;
      }
      if state == SafeStop && !protect {
        DoDispatch(ProtectRelease, now);
        return;
      }
      if state == Faulted && fault == BinFullFault && !binFull {
        DoRecover(Resolve(Value()), now);
        return;
      }
      match state {
        case LeaveConfirm =>
          if DeadlineExpired(now, deadline) {
            DoDispatch(DelayTimeout, now);
          }
        case CleanDelay =>
          if DeadlineExpired(now, deadline) {
            DoDispatch(DelayTimeout, now);
          }
        case Cleaning =>
          if TotalTimeout(Value(), now) {
            DoDispatch(StallOrTimeout, now);
          } else if PhaseTimeout(Value(), now) {
            DoDispatch(StallOrTimeout, now);
          }
        case _ =>
      }
    }
  }
}
