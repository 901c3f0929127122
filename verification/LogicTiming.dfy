/**
 How long the machine waits and cleans, over whole runs whose passes are at most 1000 ticks apart,
 however often the 32-bit tick wraps around.
 */
module LogicTiming {

  import opened Fsm
  import opened Logic
  import opened LogicSafety
  import opened LogicRuns

  const MAX_GAP: nat := 1000

  /** The index of the action that last brought the machine into state s. */
  function Entered(b: Boot, run: seq<Action>, s: State): nat {
    if run == [] then 0
    else if After(b, run).ctx.state == s && After(b, Past(run)).ctx.state != s then |run| - 1
    else Entered(b, Past(run), s)
  }

  /** The index of the action that last changed the cleaning phase. */
  function PhaseBegun(b: Boot, run: seq<Action>): nat {
    if run == [] then 0
    else if After(b, run).ctx.phase != After(b, Past(run)).ctx.phase then |run| - 1
    else PhaseBegun(b, Past(run))
  }

  function When(run: seq<Action>, i: nat): nat {
    if i < |run| && run[i].Pass? then run[i].time else 0
  }

  /** The k-th action is a pass that lies in the past. */
  predicate Dated(b: Boot, run: seq<Action>, k: nat) {
    k < |run| && run[k].Pass? && run[k].time <= Clock(b, run)
  }

  /** Every pass from the k-th action on found the box empty. */
  predicate QuietFrom(run: seq<Action>, k: nat) {
    forall i :: k <= i < |run| && run[i].Pass? ==> !run[i].inp.occupied
  }

  /** The machine has been waiting since the k-th action, for less than ms unless the deadline is 0. */
  predicate WaitingSince(b: Boot, run: seq<Action>, k: nat, ms: nat) {
    var c := After(b, run).ctx;
    Dated(b, run, k) && c.deadline == Later(Tock(When(run, k)), ms)
    && (c.deadline != 0 ==> Clock(b, run) < When(run, k) + ms)
  }

  predicate LeaveTimeline(b: Boot, run: seq<Action>) {
    var k := Entered(b, run, LeaveConfirm);
    WaitingSince(b, run, k, LEAVE_CONFIRM_MS) && QuietFrom(run, k)
  }

  predicate DelayTimeline(b: Boot, run: seq<Action>) {
    var l, k := Entered(b, run, LeaveConfirm), Entered(b, run, CleanDelay);
    WaitingSince(b, run, k, CLEAN_DELAY_MS) && Dated(b, run, l) && QuietFrom(run, l)
    && When(run, l) + LEAVE_CONFIRM_MS <= When(run, k)
  }

  /** How late after the start of the cleaning a phase can begin. */
  function Lead(p: Phase, gap: nat): nat {
    match p
    case ToPos3 => TO_POS2_MS + gap
    case ToPos1 => TO_POS2_MS + TO_POS3_MS + 2 * gap
    case _ => 0
  }

  predicate CleaningTimeline(b: Boot, run: seq<Action>, gap: nat) {
    var c := After(b, run).ctx;
    var k, p := Entered(b, run, Cleaning), PhaseBegun(b, run);
    Dated(b, run, k) && Dated(b, run, p)
    && c.cleanStarted == Tock(When(run, k)) && c.phaseStarted == Tock(When(run, p))
    && When(run, k) <= When(run, p) <= When(run, k) + Lead(c.phase, gap)
    && Clock(b, run) < When(run, p) + PhaseTimeoutMs(c.phase)
  }

  predicate Timeline(b: Boot, run: seq<Action>, gap: nat) {
    var s := After(b, run).ctx.state;
    (s == LeaveConfirm ==> LeaveTimeline(b, run))
    && (s == CleanDelay ==> DelayTimeline(b, run))
    && (s == Cleaning ==> CleaningTimeline(b, run, gap))
  }

  // ---------------------------------------------------------------- one more pass

  lemma StepFacts(b: Boot, run: seq<Action>, gap: nat)
    requires run != [] && Last(run).Pass? && Timed(b, run, gap)
    ensures Safe(After(b, Past(run))) && Safe(After(b, run))
    ensures Clock(b, Past(run)) <= Clock(b, run) <= Clock(b, Past(run)) + gap
    ensures Clock(b, run) == Last(run).time == When(run, |run| - 1)
    ensures Stepped(After(b, Past(run)).ctx, After(b, run).ctx, After(b, Past(run)).cleanAsked, Tock(Clock(b, run)))
    ensures Quiet(After(b, run).ctx.state) ==> !Last(run).inp.occupied
  {
    hide Running, Safe, Stepped, Tock;
    AlwaysSafe(b, Past(run));
    AlwaysSafe(b, run);
    var w := After(b, Past(run));
    RunningSteps(w, Last(run).inp, Tock(Last(run).time));
    assert After(b, run).ctx.state == Running(w, Last(run).inp, Tock(Last(run).time)).ctx.state;
    QuietMeans(b, run);
  }

  lemma QuietMeans(b: Boot, run: seq<Action>)
    requires run != [] && Last(run).Pass? && Safe(After(b, run))
    ensures Quiet(After(b, run).ctx.state) ==> !Last(run).inp.occupied
  {
    hide AtTick, TickStep, AtHall, Poll, Reported, BinStage, Shape;
    assert After(b, run) == Running(After(b, Past(run)), Last(run).inp, Tock(Last(run).time));
  }

  lemma LeaveStep(b: Boot, run: seq<Action>, gap: nat)
    requires run != [] && Last(run).Pass? && Timed(b, run, gap) && gap <= MAX_GAP
    requires Timeline(b, Past(run), gap) && After(b, run).ctx.state == LeaveConfirm
    ensures LeaveTimeline(b, run)
  {
    hide After, Safe, Tock, Later, DeadlineExpired, Timed, DelayTimeline, CleaningTimeline;
    StepFacts(b, run, gap);
    var c, d := After(b, Past(run)).ctx, After(b, run).ctx;
    var k := Entered(b, run, LeaveConfirm);
    if c.state == LeaveConfirm {
      assert When(run, k) == When(Past(run), k);
      if d.deadline != 0 {
        ExpiresOnTime(Clock(b, run), When(run, k), LEAVE_CONFIRM_MS);
      }
    }
  }

  lemma DelayStep(b: Boot, run: seq<Action>, gap: nat)
    requires run != [] && Last(run).Pass? && Timed(b, run, gap) && gap <= MAX_GAP
    requires Timeline(b, Past(run), gap) && After(b, run).ctx.state == CleanDelay
    ensures DelayTimeline(b, run)
  {
    hide After, Safe, Tock, Later, DeadlineExpired, Timed, CleaningTimeline;
    StepFacts(b, run, gap);
    var c, d := After(b, Past(run)).ctx, After(b, run).ctx;
    var l, k := Entered(b, run, LeaveConfirm), Entered(b, run, CleanDelay);
    assert l == Entered(b, Past(run), LeaveConfirm);
    assert When(run, l) == When(Past(run), l);
    if c.state == CleanDelay {
      assert When(run, k) == When(Past(run), k);
      if d.deadline != 0 {
        ExpiresOnTime(Clock(b, run), When(run, k), CLEAN_DELAY_MS);
      }
    } else {
      ZeroNeverExpires(Tock(Clock(b, run)), c.deadline);
      ExpiresOnTime(Clock(b, run), When(run, l), LEAVE_CONFIRM_MS);
    }
  }

  lemma ZeroNeverExpires(now: Tick, deadline: Tick)
    ensures DeadlineExpired(now, deadline) ==> deadline != 0
  {
  }

  lemma PhaseTimeoutIs(c: Ctx, time: nat, since: nat)
    requires since <= time < since + TICKS && c.phaseStarted == Tock(since)
    ensures PhaseTimeout(c, Tock(time)) <==> PhaseTimeoutMs(c.phase) > 0 && time >= since + PhaseTimeoutMs(c.phase)
  {
    TicksPerMs(PhaseTimeoutMs(c.phase));
    ElapsedIs(time, since);
  }

  lemma CleaningStep(b: Boot, run: seq<Action>, gap: nat)
    requires run != [] && Last(run).Pass? && Timed(b, run, gap) && gap <= MAX_GAP
    requires Timeline(b, Past(run), gap) && After(b, run).ctx.state == Cleaning
    ensures CleaningTimeline(b, run, gap)
  {
    hide After, Tock, Later, DeadlineExpired, Timed, DelayTimeline, LeaveTimeline, PhaseTimeout;
    StepFacts(b, run, gap);
    var c, d := After(b, Past(run)).ctx, After(b, run).ctx;
    var k, p := Entered(b, run, Cleaning), PhaseBegun(b, run);
    if c.state == Cleaning {
      assert When(run, k) == When(Past(run), k);
      if d.phase == c.phase {
        assert When(run, p) == When(Past(run), p);
        PhaseTimeoutIs(c, Clock(b, run), When(run, p));
      }
    }
  }

  lemma InjectedFaults(w: World, now: Tick)
    ensures Injected(w, now).ctx == w.ctx || Injected(w, now).ctx.state == Faulted
  {
    if w.ctx.state == Cleaning {
      assert Dispatch(w.ctx, StallOrTimeout, now) == EnterFault(Note(w.ctx, StallOrTimeout, now), CleanTimeout, now);
    }
  }

  /** Requests and injected timeouts do not start or prolong anything. */
  lemma BetweenPasses(b: Boot, run: seq<Action>)
    requires run != [] && !Last(run).Pass?
    ensures var c, d := After(b, Past(run)).ctx, After(b, run).ctx;
            d == c || d.state == Faulted
    ensures Clock(b, run) == Clock(b, Past(run))
  {
    hide Running, Injected;
    if Last(run).Inject? {
      InjectedFaults(After(b, Past(run)), Last(run).now);
    }
  }

  lemma KeptBetween(b: Boot, run: seq<Action>, gap: nat)
    requires run != [] && !Last(run).Pass? && Timeline(b, Past(run), gap)
    ensures Timeline(b, run, gap)
  {
    hide After, Later, Tock;
    BetweenPasses(b, run);
    assert forall i :: 0 <= i < |run| - 1 ==> run[i] == Past(run)[i];
  }

  lemma {:induction false} AlwaysTimeline(b: Boot, run: seq<Action>, gap: nat)
    requires Timed(b, run, gap) && gap <= MAX_GAP
    ensures Timeline(b, run, gap)
  {
    hide LeaveTimeline, DelayTimeline, CleaningTimeline, Running, Injected, Clock;
    if run == [] {
      StartedRests(b);
    } else {
      AlwaysTimeline(b, Past(run), gap);
      if !Last(run).Pass? {
        KeptBetween(b, run, gap);
      } else {
        var s := After(b, run).ctx.state;
        if s == LeaveConfirm { LeaveStep(b, run, gap); }
        if s == CleanDelay { DelayStep(b, run, gap); }
        if s == Cleaning { CleaningStep(b, run, gap); }
      }
    }
  }

  lemma StartedRests(b: Boot)
    ensures var s := Started(b.occupied, b.binFull, Tock(b.time)).ctx.state;
            s == Idle || s == Occupied || s == Faulted
  {
    hide Later;
    var now := Tock(b.time);
    var c := Initial(now).(occupied := b.occupied, binFull := b.binFull);
    assert Dispatch(c, OccupiedOn, now) == EnterState(Note(c, OccupiedOn, now), Occupied, now);
    var d := if b.occupied then Dispatch(c, OccupiedOn, now) else c;
    assert Dispatch(d, BinFull, now) == EnterFault(Note(d, BinFull, now), BinFullFault, now);
  }

  // ---------------------------------------------------------------- what the timing promises

  /** What `Entered` says: the machine came into s with that action and has stayed there since. */
  lemma {:induction false} EnteredMeans(b: Boot, run: seq<Action>, s: State)
    requires After(b, run).ctx.state == s && After(b, []).ctx.state != s
    ensures var k := Entered(b, run, s);
            k < |run| && After(b, run[..k]).ctx.state != s
            && forall j :: k < j <= |run| ==> After(b, run[..j]).ctx.state == s
  {
    hide After;
    assert run[..|run|] == run;
    if After(b, Past(run)).ctx.state == s {
      var past := Past(run);
      EnteredMeans(b, past, s);
      assert forall j :: 0 <= j <= |past| ==> past[..j] == run[..j];
    }
  }

  /** A cleaning nobody asked for comes after 7000 ticks in which every pass found the box empty. */
  lemma QuietBeforeCleaning(b: Boot, run: seq<Action>, gap: nat)
    requires Timed(b, run, gap) && gap <= MAX_GAP && run != []
    requires After(b, run).ctx.state == Cleaning && After(b, Past(run)).ctx.state != Cleaning
    requires !After(b, Past(run)).cleanAsked
    ensures exists k :: 0 <= k < |run| && run[k].Pass?
                        && run[k].time + LEAVE_CONFIRM_MS + CLEAN_DELAY_MS <= Clock(b, run) && QuietFrom(run, k)
  {
    hide After, Later, Tock, DeadlineExpired, LeaveTimeline, CleaningTimeline, Safe;
    AlwaysTimeline(b, Past(run), gap);
    if !Last(run).Pass? {
      BetweenPasses(b, run);
    } else {
      StepFacts(b, run, gap);
      var l, k := Entered(b, Past(run), LeaveConfirm), Entered(b, Past(run), CleanDelay);
      ZeroNeverExpires(Tock(Clock(b, run)), After(b, Past(run)).ctx.deadline);
      ExpiresOnTime(Clock(b, run), When(Past(run), k), CLEAN_DELAY_MS);
      assert run[l].Pass? && QuietFrom(run, l);
    }
  }

  /** From the action that began a cleaning to the one after which it is still going on or has just ended. */
  lemma CleaningIsShort(b: Boot, run: seq<Action>, gap: nat)
    requires Timed(b, run, gap) && gap <= MAX_GAP && run != [] && After(b, Past(run)).ctx.state == Cleaning
    ensures Clock(b, run) < When(run, Entered(b, Past(run), Cleaning)) + TO_POS2_MS + TO_POS3_MS + TO_POS1_MS + 3 * gap
  {
    AlwaysTimeline(b, Past(run), gap);
    hide After;
  }

  /** The total timeout of 20000 ms never fires: some phase always times out first. */
  lemma TotalTimeoutNeverFires(b: Boot, run: seq<Action>, gap: nat)
    requires Timed(b, run, gap) && gap <= MAX_GAP && run != [] && Last(run).Pass?
    ensures var c := AtTick(After(b, Past(run)), Last(run).inp, Tock(Last(run).time));
            c.state == Cleaning ==> !TotalTimeout(c, Tock(Last(run).time))
  {
    hide After, AtTick, Safe, Tock, FromMs, Elapsed, LeaveTimeline, DelayTimeline;
    AlwaysTimeline(b, Past(run), gap);
    AlwaysSafe(b, Past(run));
    var w, time := After(b, Past(run)), Last(run).time;
    CleaningAtTick(w, Last(run).inp, Tock(time));
    TicksPerMs(CLEAN_TOTAL_MS);
    ElapsedIs(time, time);
    if w.ctx.state == Cleaning {
      var k := Entered(b, Past(run), Cleaning);
      CleaningIsShort(b, run, gap);
      assert When(run, k) == When(Past(run), k);
      ElapsedIs(time, When(run, k));
    }
  }

  lemma CleaningAtTick(w: World, inp: Input, now: Tick)
    requires Safe(w)
    ensures var c := AtTick(w, inp, now);
            c.state == Cleaning ==> c.cleanStarted == now || (w.ctx.state == Cleaning && c.cleanStarted == w.ctx.cleanStarted)
  {
    hide AtHall, Heard, Poll, Reports, Later;
    AtHallKeeps(w, inp, now);
    HeardKeeps(Poll(w.hall, inp.bits, now), AtHall(w, inp, now), inp.occupied, inp.binFull,
               ProtectNow(inp.occupied, w.ctx.state), now);
  }

  /**
   With nobody in the box, an empty bin and no request, a wait ends at the first pass not before its
   time, except that a wait whose deadline wraps to tick 0 never ends.
   */
  lemma WaitEndsOnTime(b: Boot, run: seq<Action>, gap: nat)
    requires Timed(b, run, gap) && gap <= MAX_GAP && run != [] && Last(run).Pass?
    requires !Last(run).inp.occupied && !Last(run).inp.binFull
    requires !After(b, Past(run)).resetAsked && !After(b, Past(run)).cleanAsked
    ensures var s := After(b, Past(run)).ctx.state;
            var due := When(run, Entered(b, Past(run), s)) + if s == LeaveConfirm then LEAVE_CONFIRM_MS else CLEAN_DELAY_MS;
            var ends := due <= Last(run).time && due % TICKS != 0;
            (s == LeaveConfirm ==> After(b, run).ctx.state == if ends then CleanDelay else LeaveConfirm)
            && (s == CleanDelay ==> After(b, run).ctx.state == if ends then Cleaning else CleanDelay)
  {
    hide After, Running, Safe, Later, DeadlineExpired, Tock, Entered, QuietFrom, CleaningTimeline;
    AlwaysTimeline(b, Past(run), gap);
    AlwaysSafe(b, Past(run));
    var w, time := After(b, Past(run)), Last(run).time;
    var s := w.ctx.state;
    if s == LeaveConfirm || s == CleanDelay {
      WaitStep(w, Last(run).inp, Tock(time));
      PassIs(b, run);
      var k := Entered(b, Past(run), s);
      var ms := if s == LeaveConfirm then LEAVE_CONFIRM_MS else CLEAN_DELAY_MS;
      assert WaitingSince(b, Past(run), k, ms);
      assert When(run, k) == When(Past(run), k);
      DueIs(w.ctx.deadline, When(run, k), ms);
      if w.ctx.deadline == 0 {
        ZeroNeverExpires(Tock(time), 0);
      } else {
        ExpiresOnTime(time, When(run, k), ms);
      }
    }
  }

  lemma PassIs(b: Boot, run: seq<Action>)
    requires run != [] && Last(run).Pass?
    ensures After(b, run) == Running(After(b, Past(run)), Last(run).inp, Tock(Last(run).time))
  {
    hide Running;
  }

  lemma DueIs(deadline: Tick, since: nat, ms: nat)
    requires deadline == Later(Tock(since), ms)
    ensures deadline == (since + ms) % TICKS
  {
    LaterIs(since, ms);
  }

  lemma WaitStep(w: World, inp: Input, now: Tick)
    requires Safe(w) && !inp.occupied && !inp.binFull && !w.resetAsked && !w.cleanAsked
    requires w.ctx.state == LeaveConfirm || w.ctx.state == CleanDelay
    ensures Running(w, inp, now).ctx.state
            == if !DeadlineExpired(now, w.ctx.deadline) then w.ctx.state
               else if w.ctx.state == LeaveConfirm then CleanDelay else Cleaning
  {
    hide AtHall, Heard, Poll, Reports, Reported, Later, TickStep, DeadlineExpired, BinStage;
    AtHallWaits(w, inp, now);
    AtHallKeeps(w, inp, now);
    HeardKeeps(Poll(w.hall, inp.bits, now), AtHall(w, inp, now), inp.occupied, inp.binFull,
               ProtectNow(inp.occupied, w.ctx.state), now);
    TickKeepsWaiting(AtTick(w, inp, now), inp.occupied, inp.binFull, now);
  }

  // ---------------------------------------------------------------- a wait that never ends

  /** Passes that find the box empty and the bin not full. */
  predicate QuietPasses(run: seq<Action>) {
    forall i :: 0 <= i < |run| ==> run[i].Pass? && !run[i].inp.occupied && !run[i].inp.binFull
  }

  predicate WaitsForever(w: World) {
    w.ctx.state == LeaveConfirm && w.ctx.deadline == 0 && !w.cleanAsked && !w.resetAsked
  }

  lemma LeavingStep(occupied: World, inp: Input, now: Tick)
    requires Safe(occupied) && occupied.ctx.state == Occupied && !inp.occupied && !inp.binFull
    requires !occupied.cleanAsked && !occupied.resetAsked
    ensures Running(occupied, inp, now).ctx.state == LeaveConfirm
    ensures Running(occupied, inp, now).ctx.deadline == Later(now, LEAVE_CONFIRM_MS)
  {
    hide Poll, Reported, Later, DeadlineExpired, Heard, TickStep;
    var c := AtHall(occupied, inp, now);
    assert c.state == LeaveConfirm && c.deadline == Later(now, LEAVE_CONFIRM_MS);
    AtHallKeeps(occupied, inp, now);
    HeardKeeps(Poll(occupied.hall, inp.bits, now), c, inp.occupied, inp.binFull,
               ProtectNow(inp.occupied, occupied.ctx.state), now);
    FreshDeadline(now);
    TickKeepsWaiting(AtTick(occupied, inp, now), inp.occupied, inp.binFull, now);
    RunningSteps(occupied, inp, now);
  }

  lemma StillWaits(w: World, inp: Input, now: Tick)
    requires Safe(w) && WaitsForever(w) && !inp.occupied && !inp.binFull
    ensures WaitsForever(Running(w, inp, now))
  {
    hide DeadlineExpired, AtTick, Poll, Reported, TickStep, BinStage;
    ZeroNeverExpires(now, 0);
    WaitStep(w, inp, now);
    RunningSteps(w, inp, now);
  }

  /**
   The excluded case of WaitEndsOnTime is reached: a cat that leaves 2000 ticks before the counter wraps leaves
   a deadline of 0 behind, and no number of quiet passes, however late, ends the wait.
   */
  lemma {:induction false} WrappedWaitNeverEnds(bits: Bits, more: seq<Action>)
    requires QuietPasses(more)
    ensures var b := Boot(TICKS - 2010, true, false);
            var leaving := Pass(TICKS - LEAVE_CONFIRM_MS, Input(false, false, bits));
            Timed(b, [leaving], 10) && WaitsForever(After(b, [leaving] + more))
  {
    hide Running, Safe, Started, Injected, WaitsForever;
    var b := Boot(TICKS - 2010, true, false);
    var leaving := Pass(TICKS - LEAVE_CONFIRM_MS, Input(false, false, bits));
    var run := [leaving] + more;
    if more == [] {
      assert run == [leaving] && Past(run) == [];
      FirstWait(bits);
    } else {
      WrappedWaitNeverEnds(bits, more[..|more| - 1]);
      assert Past(run) == [leaving] + more[..|more| - 1] && Last(run) == more[|more| - 1];
      AlwaysSafe(b, Past(run));
      StillWaits(After(b, Past(run)), Last(run).inp, Tock(Last(run).time));
      PassIs(b, run);
    }
  }

  lemma StartedOccupied(now: Tick)
    ensures var w := Started(true, false, now); w.ctx.state == Occupied && !w.cleanAsked && !w.resetAsked
  {
    hide Later;
  }

  lemma OnePass(b: Boot, a: Action, gap: nat)
    requires a.Pass? && b.time <= a.time <= b.time + gap
    ensures Timed(b, [a], gap)
    ensures After(b, [a]) == Running(Started(b.occupied, b.binFull, Tock(b.time)), a.inp, Tock(a.time))
  {
    hide Running, Started;
    assert Past([a]) == [];
    assert Timed(b, [], gap) && Clock(b, []) == b.time;
    PassIs(b, [a]);
  }

  lemma FirstWait(bits: Bits)
    ensures var b := Boot(TICKS - 2010, true, false);
            var leaving := Pass(TICKS - LEAVE_CONFIRM_MS, Input(false, false, bits));
            Timed(b, [leaving], 10) && WaitsForever(After(b, [leaving]))
  {
    hide Running, Started, Safe, Timed, After;
    var b := Boot(TICKS - 2010, true, false);
    var now, inp := TICKS - LEAVE_CONFIRM_MS, Input(false, false, bits);
    var w := Started(true, false, Tock(b.time));
    OnePass(b, Pass(now, inp), 10);
    StartedIsSafe(true, false, Tock(b.time));
    StartedOccupied(Tock(b.time));
    LeavingStep(w, inp, Tock(now));
    NoRequests(w, inp, Tock(now));
    LaterIs(now, LEAVE_CONFIRM_MS);
  }

  lemma NoRequests(w: World, inp: Input, now: Tick)
    requires !w.cleanAsked
    ensures !Running(w, inp, now).cleanAsked && !Running(w, inp, now).resetAsked
  {
    hide AtTick, Poll, Reported, TickStep, BinStage;
  }
}
