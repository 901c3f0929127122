/**
 What every pass of the control loop keeps, whatever the sensors say and whatever is requested:
 the interlocks of the machine, and how a pass may move it from one state to another.
 */
module LogicSafety {

  import opened Fsm
  import opened Logic

  /** The states in which nobody may be in the box. */
  predicate Quiet(s: State) {
    s == Idle || s == LeaveConfirm || s == CleanDelay || s == Cleaning
  }

  /** The interlocks, against what this pass sampled. */
  predicate Interlocked(c: Ctx, occupied: bool, binFull: bool) {
    Shape(c) && c.occupied == occupied && c.binFull == binFull
    && (c.state != SafeStop && c.state != Faulted ==> !binFull)
    && (c.state == Occupied ==> occupied)
    && (Quiet(c.state) ==> !occupied)
    && (c.protect ==> occupied)
    && (c.state == SafeStop && occupied ==> c.protect)
  }

  /** The interlocks as they stand between two passes. */
  predicate Safe(w: World) {
    Interlocked(w.ctx, w.prevOccupied, w.prevBinFull)
    && (w.ctx.state == SafeStop ==> w.prevOccupied)
    && (w.ctx.state == Faulted && w.ctx.fault == BinFullFault ==> w.prevBinFull)
  }

  // ---------------------------------------------------------------- the stages of a pass

  /** Everything but the inputs and the time of the last event. */
  predicate SameCourse(c: Ctx, d: Ctx) {
    d.state == c.state && d.deadline == c.deadline && d.cleanStarted == c.cleanStarted
    && d.phaseStarted == c.phaseStarted && d.phase == c.phase && d.motor == c.motor
    && d.cleaningActive == c.cleaningActive && d.fault == c.fault
  }

  predicate AfterBin(w: World, c: Ctx, inp: Input) {
    Shape(c) && c.occupied == inp.occupied && c.binFull == inp.binFull
    && c.protect == ProtectNow(inp.occupied, w.ctx.state)
    && (c.state != SafeStop && c.state != Faulted ==> !inp.binFull)
    && (c.state == Faulted || SameCourse(w.ctx, c))
  }

  lemma BinStageKeeps(w: World, inp: Input, now: Tick)
    requires Safe(w)
    ensures AfterBin(w, BinStage(w, inp, now), inp)
  {
    var c := Synced(w.ctx, inp);
    if inp.binFull && !w.prevBinFull {
      var d := Note(c, BinFull, now);
      assert Dispatch(c, BinFull, now) == React(d, BinFull, now);
      assert w.ctx.state != Faulted && w.ctx.state != SafeStop ==> React(d, BinFull, now) == EnterFault(d, BinFullFault, now);
      assert w.ctx.state == Faulted || w.ctx.state == SafeStop ==> React(d, BinFull, now) == d;
    }
  }

  /** How far a pass may have moved the machine before the hall sensors are looked at. */
  predicate Moved(c: Ctx, d: Ctx, asked: bool, now: Tick) {
    (d.state == Cleaning ==>
       (c.state == Cleaning && SameCourse(c, d))
       || ((c.state == Idle || c.state == CleanDelay) && asked && JustStarted(d, now)))
    && (d.state == LeaveConfirm ==>
          (c.state == LeaveConfirm && SameCourse(c, d))
          || (c.state == Occupied && d.deadline == Later(now, LEAVE_CONFIRM_MS)))
    && (d.state == CleanDelay ==> c.state == CleanDelay && SameCourse(c, d))
    && (d.state == SafeStop ==> c.state == Cleaning || c.state == SafeStop)
  }

  predicate JustStarted(d: Ctx, now: Tick) {
    d.phase == ToPos2 && d.cleanStarted == now && d.phaseStarted == now
  }

  lemma OccupancyStageKeeps(w: World, c: Ctx, inp: Input, now: Tick)
    requires Safe(w) && AfterBin(w, c, inp) && c.state != Faulted
    ensures var d := OccupancyStage(c, inp.occupied, w.prevOccupied, now);
            Interlocked(d, inp.occupied, inp.binFull) && Moved(w.ctx, d, false, now) && d.state != Faulted
            && (d.state == Idle ==> w.ctx.state == Idle)
  {
    hide Later;
    if inp.occupied != w.prevOccupied && !inp.occupied {
      var d := Note(c, OccupiedOff, now);
      assert Dispatch(c, OccupiedOff, now) == React(d, OccupiedOff, now);
      assert React(d, OccupiedOff, now) == if c.state == Occupied then EnterState(d, LeaveConfirm, now) else d;
    } else if inp.occupied != w.prevOccupied && c.state != Cleaning {
      var d := Note(c, OccupiedOn, now);
      assert Dispatch(c, OccupiedOn, now) == React(d, OccupiedOn, now) == EnterState(d, Occupied, now);
    }
  }

  lemma CleanStageKeeps(c: Ctx, occupied: bool, binFull: bool, asked: bool, now: Tick)
    requires Interlocked(c, occupied, binFull) && c.state != Faulted
    ensures var d := CleanStage(c, asked, now);
            Interlocked(d, occupied, binFull)
            && (SameCourse(c, d)
                || (asked && (c.state == Idle || c.state == CleanDelay) && d.state == Cleaning && JustStarted(d, now)))
  {
    hide Later;
    if asked {
      var d := Note(c, CleanStart, now);
      assert Dispatch(c, CleanStart, now) == React(d, CleanStart, now);
      if c.state == Idle || c.state == CleanDelay {
        assert React(d, CleanStart, now) == TryClean(d, now) == EnterState(d, Cleaning, now);
      } else {
        assert React(d, CleanStart, now) == d;
      }
    }
  }

  lemma ResetStageKeeps(c: Ctx, occupied: bool, binFull: bool, asked: bool, now: Tick)
    requires Interlocked(c, occupied, binFull)
    ensures var d := ResetStage(c, asked, now);
            Interlocked(d, occupied, binFull)
            && (SameCourse(c, d) || (asked && (d.state == Idle || d.state == Occupied)))
            && (asked && c.state == Cleaning ==> d.state == Idle)
  {
    hide Later;
    if asked {
      var d := Note(c, Reset, now);
      assert Dispatch(c, Reset, now) == React(d, Reset, now);
      if c.state == Idle || c.state == Occupied {
        assert React(d, Reset, now) == d;
      } else if c.state == Cleaning {
        assert React(d, Reset, now) == EnterState(d, Idle, now);
      } else {
        assert React(d, Reset, now) == ResetRecover(d, now);
      }
    }
  }

  lemma AtHallKeeps(w: World, inp: Input, now: Tick)
    requires Safe(w)
    ensures var d := AtHall(w, inp, now);
            Interlocked(d, inp.occupied, inp.binFull) && Moved(w.ctx, d, w.cleanAsked, now)
            && (w.resetAsked ==> d.state != Cleaning)
  {
    hide BinStage, OccupancyStage, CleanStage, ResetStage, FaultFits, Later;
    BinStageKeeps(w, inp, now);
    var c := BinStage(w, inp, now);
    var e := RequestStage(w, inp, now);
    if c.state != Faulted {
      OccupancyStageKeeps(w, c, inp, now);
      CleanStageKeeps(OccupancyStage(c, inp.occupied, w.prevOccupied, now), inp.occupied, inp.binFull, w.cleanAsked, now);
    }
    assert Interlocked(e, inp.occupied, inp.binFull) && Moved(w.ctx, e, w.cleanAsked, now);
    ResetStageKeeps(e, inp.occupied, inp.binFull, w.resetAsked, now);
  }

  /** Somebody waiting for the delay to pass is left alone by the requests, but for a reset. */
  lemma AtHallWaits(w: World, inp: Input, now: Tick)
    requires Safe(w) && !inp.occupied && !inp.binFull && !w.resetAsked
    requires w.ctx.state == LeaveConfirm || (w.ctx.state == CleanDelay && !w.cleanAsked)
    ensures SameCourse(w.ctx, AtHall(w, inp, now))
  {
    hide EnterState, TryClean, EnterFault, ResetRecover;
    var c := BinStage(w, inp, now);
    if w.cleanAsked {
      assert Dispatch(c, CleanStart, now) == React(Note(c, CleanStart, now), CleanStart, now);
    }
  }

  /** A hall report only advances the cleaning: to the next phase, or from the last phase to IDLE. */
  lemma HeardKeeps(h: Hall, c: Ctx, occupied: bool, binFull: bool, protect: bool, now: Tick)
    requires Interlocked(c, occupied, binFull)
    ensures var d := Heard(h, c, binFull, protect, now);
            Interlocked(d, occupied, binFull)
            && (!Reports(h, c, binFull, protect) ==> d == c)
            && (Reports(h, c, binFull, protect) ==>
                  c.state == Cleaning && h.stable == Target(c.phase)
                  && (c.phase == ToPos2 ==> Advanced(c, d, ToPos3, now))
                  && (c.phase == ToPos3 ==> Advanced(c, d, ToPos1, now))
                  && (c.phase == ToPos1 ==> d.state == Idle))
  {
    hide Later;
    if Reports(h, c, binFull, protect) {
      var ev := EventFor(h.stable);
      var d := Note(c, ev, now);
      assert Dispatch(c, ev, now) == React(d, ev, now) == ReactCleaning(d, ev, now);
      match c.phase {
        case ToPos2 => assert ReactCleaning(d, ev, now) == StartPhase(d, ToPos3, now);
        case ToPos3 => assert ReactCleaning(d, ev, now) == StartPhase(d, ToPos1, now);
        case ToPos1 => assert ReactCleaning(d, ev, now) == FinishCleaning(d, now);
      }
    }
  }

  predicate Advanced(c: Ctx, d: Ctx, p: Phase, now: Tick) {
    d.state == Cleaning && d.phase == p && d.phaseStarted == now && d.cleanStarted == c.cleanStarted
  }

  /** What the periodic check may do to a machine whose interlocks hold. */
  predicate Ticked(c: Ctx, d: Ctx, now: Tick) {
    (d.state == Cleaning ==>
       (d == c && !TotalTimeout(c, now) && !PhaseTimeout(c, now))
       || (c.state == CleanDelay && DeadlineExpired(now, c.deadline) && JustStarted(d, now)))
    && (d.state == LeaveConfirm ==>
          (d == c && !DeadlineExpired(now, c.deadline))
          || (c.state == SafeStop && d.deadline == Later(now, LEAVE_CONFIRM_MS)))
    && (d.state == CleanDelay ==>
          (d == c && !DeadlineExpired(now, c.deadline))
          || (c.state == LeaveConfirm && DeadlineExpired(now, c.deadline) && d.deadline == Later(now, CLEAN_DELAY_MS)))
    && (c.state == Cleaning ==> d == c || d.state == Faulted)
    && ((c.state == SafeStop && c.protect) || (c.state == Faulted && c.binFull) ==> d == c)
  }

  lemma TickKeepsWaiting(c: Ctx, occupied: bool, binFull: bool, now: Tick)
    requires Interlocked(c, occupied, binFull) && (c.state == LeaveConfirm || c.state == CleanDelay)
    ensures var d := TickStep(c, now);
            Interlocked(d, occupied, binFull) && Ticked(c, d, now) && d.state != SafeStop && d.state != Faulted
            && d.state == if !DeadlineExpired(now, c.deadline) then c.state
                          else if c.state == LeaveConfirm then CleanDelay else Cleaning
  {
    hide Later, DeadlineExpired;
    if DeadlineExpired(now, c.deadline) {
      var d := Note(c, DelayTimeout, now);
      assert TickStep(c, now) == Dispatch(c, DelayTimeout, now) == React(d, DelayTimeout, now);
      if c.state == LeaveConfirm {
        assert React(d, DelayTimeout, now) == EnterState(d, CleanDelay, now);
      } else {
        assert React(d, DelayTimeout, now) == TryClean(d, now) == EnterState(d, Cleaning, now);
      }
    }
  }

  lemma TickKeepsCleaning(c: Ctx, occupied: bool, binFull: bool, now: Tick)
    requires Interlocked(c, occupied, binFull) && c.state == Cleaning
    ensures var d := TickStep(c, now);
            Interlocked(d, occupied, binFull) && Ticked(c, d, now) && d.state != SafeStop
            && (d.state == Faulted ==> d.fault == CleanTimeout)
  {
    hide Later, TotalTimeout, PhaseTimeout;
    var d := Note(c, StallOrTimeout, now);
    assert Dispatch(c, StallOrTimeout, now) == EnterFault(d, CleanTimeout, now);
  }

  lemma TickKeepsStopped(c: Ctx, occupied: bool, binFull: bool, now: Tick)
    requires Interlocked(c, occupied, binFull) && c.state != LeaveConfirm && c.state != CleanDelay && c.state != Cleaning
    ensures var d := TickStep(c, now);
            Interlocked(d, occupied, binFull) && Ticked(c, d, now)
            && (d.state == SafeStop ==> occupied)
            && (d.state == Faulted && d.fault == BinFullFault ==> binFull)
  {
    hide Later;
    if c.state == SafeStop && !c.protect {
      var d := Note(c, ProtectRelease, now);
      assert TickStep(c, now) == Dispatch(c, ProtectRelease, now) == React(d, ProtectRelease, now) == RecoverFromSafeStop(d, now);
    }
  }

  lemma TickKeeps(c: Ctx, occupied: bool, binFull: bool, now: Tick)
    requires Interlocked(c, occupied, binFull)
    ensures var d := TickStep(c, now);
            Interlocked(d, occupied, binFull) && Ticked(c, d, now)
            && (d.state == SafeStop ==> occupied)
            && (d.state == Faulted && d.fault == BinFullFault ==> binFull)
  {
    hide Interlocked, Ticked, TickStep;
    match c.state {
      case LeaveConfirm => TickKeepsWaiting(c, occupied, binFull, now);
      case CleanDelay => TickKeepsWaiting(c, occupied, binFull, now);
      case Cleaning => TickKeepsCleaning(c, occupied, binFull, now);
      case _ => TickKeepsStopped(c, occupied, binFull, now);
    }
  }

  // ---------------------------------------------------------------- whole passes

  /** One pass of the loop keeps the interlocks, from any safe world and for any samples and requests. */
  lemma RunningKeepsSafe(w: World, inp: Input, now: Tick)
    requires Safe(w)
    ensures Safe(Running(w, inp, now))
  {
    hide AtHall, Heard, TickStep, Poll, Reported, Ticked, Moved, Reports;
    AtHallKeeps(w, inp, now);
    var c := AtHall(w, inp, now);
    var h := Poll(w.hall, inp.bits, now);
    var protect := ProtectNow(inp.occupied, w.ctx.state);
    HeardKeeps(h, c, inp.occupied, inp.binFull, protect, now);
    TickKeeps(Heard(h, c, inp.binFull, protect, now), inp.occupied, inp.binFull, now);
  }

  lemma StartedIsSafe(occupied: bool, binFull: bool, now: Tick)
    ensures Safe(Started(occupied, binFull, now))
  {
    var c := Initial(now).(occupied := occupied, binFull := binFull);
    assert Dispatch(c, OccupiedOn, now) == EnterState(Note(c, OccupiedOn, now), Occupied, now);
    var d := if occupied then Dispatch(c, OccupiedOn, now) else c;
    assert Dispatch(d, BinFull, now) == EnterFault(Note(d, BinFull, now), BinFullFault, now);
  }

  lemma InjectedKeepsSafe(w: World, now: Tick)
    requires Safe(w)
    ensures Safe(Injected(w, now))
  {
    var d := Note(w.ctx, StallOrTimeout, now);
    assert Dispatch(w.ctx, StallOrTimeout, now) == EnterFault(d, CleanTimeout, now);
  }
}
