/** One pass of the controller as a chain of table steps, the sensors included, and what requests come to. */
module LogicLaws {

  import opened Fsm
  import opened FsmLaws
  import opened Logic

  // ---------------------------------------------------------------- hall sensors

  /** Exactly one sensor in its place names a position, none means on the way, and more cannot be. */
  lemma DecodeMeaning(p1: bool, p2: bool, p3: bool)
    ensures var bits := (if p1 then 1 else 0) + (if p2 then 2 else 0) + (if p3 then 4 else 0);
            && bits < 8
            && (Decode(bits) == Pos1 <==> p1 && !p2 && !p3)
            && (Decode(bits) == Pos2 <==> !p1 && p2 && !p3)
            && (Decode(bits) == Pos3 <==> !p1 && !p2 && p3)
            && (Decode(bits) == Transition <==> !p1 && !p2 && !p3)
            && (Decode(bits) == Invalid <==> (p1 && p2) || (p1 && p3) || (p2 && p3))
  {
  }

  /** At least n ticks have gone by, for n below 2^31, unless it is half the clock's range or more. */
  predicate Elapsed(now: Tick, earlier: Tick, n: nat) {
    n <= Since(now, earlier) < 0x8000_0000
  }

  /**
   A poll takes a sample every 10 ticks.  A position that differs from the one before is a new candidate; it becomes
   stable when it is still there at a sample at least 20 ticks later.
   */
  lemma PollMeaning(h: Hall, bits: Bits, now: Tick)
    ensures var r, p := Poll(h, bits, now), Decode(bits);
            if h.lastSample != 0 && !Elapsed(now, h.lastSample, 10) then r == h
            else
              r == h.(lastSample := now, bits := bits, raw := p,
                      candidate := p,
                      candidateStarted := if p == h.candidate then h.candidateStarted else now,
                      stable := if p == h.candidate && Elapsed(now, h.candidateStarted, 20) then p else h.stable)
  {
    assert FromMs(SAMPLE_PERIOD_MS) == 10 && FromMs(DEBOUNCE_MS) == 20;
    hide FromMs, Decode;
  }

  // ---------------------------------------------------------------- one pass

  /** Is the arrival at the target of the phase reported now?  It is once a phase, with nobody there and room in the bin. */
  predicate Arrives(c: Ctx, h: Hall, inp: Input, before: State) {
    c.state == Cleaning && !inp.binFull && !(inp.occupied && (before == Cleaning || before == SafeStop))
    && !(h.reportedPhase == c.phase && h.reportedPosition == h.stable)
    && ((c.phase == ToPos2 && h.stable == Pos2) || (c.phase == ToPos3 && h.stable == Pos3) || (c.phase == ToPos1 && h.stable == Pos1))
  }

  function ArrivalEvent(p: Phase): Event {
    if p == ToPos2 then Pos2Reached else if p == ToPos3 then Pos3Reached else Pos1Reached
  }

  /** The inputs of this pass, with the protection on if somebody is there while it cleans or is stopped. */
  function Sampled(c: Ctx, inp: Input): Ctx {
    c.(occupied := inp.occupied, binFull := inp.binFull, protect := inp.occupied && (c.state == Cleaning || c.state == SafeStop))
  }

  function When(cond: bool, c: Ctx, ev: Event, now: Tick): Ctx {
    if cond then Outcome(c, ev, now) else c
  }

  /** The context after a full bin, a change of occupancy, a clean request and a reset request were seen to. */
  function Asked(w: World, inp: Input, now: Tick): Ctx {
    var c0 := Sampled(w.ctx, inp);
    var c1 := When(inp.binFull && !w.prevBinFull, c0, BinFull, now);
    var change := if !inp.occupied then OccupiedOff else if c1.state == Cleaning then ProtectTrigger else OccupiedOn;
    var c2 := When(c1.state != Faulted && inp.occupied != w.prevOccupied, c1, change, now);
    var c3 := When(c1.state != Faulted && w.cleanAsked, c2, CleanStart, now);
    When(w.resetAsked, c3, Reset, now)
  }

  lemma WhenKeeps(cond: bool, c: Ctx, ev: Event, now: Tick)
    requires Shape(c) && ev != None
    ensures Shape(When(cond, c, ev, now)) && When(cond, c, ev, now) == if cond then Dispatch(c, ev, now) else c
  {
    DispatchObeys(c, ev, now);
    DispatchTable(c, ev, now);
    hide Dispatch, Outcome, Shape;
  }

  lemma SampledKeeps(c: Ctx, inp: Input)
    requires Shape(c)
    ensures Shape(Sampled(c, inp)) && Sampled(c, inp) == Synced(c, inp)
  {
  }

  lemma AskedIs(w: World, inp: Input, now: Tick)
    requires Shape(w.ctx)
    ensures AtHall(w, inp, now) == Asked(w, inp, now) && Shape(Asked(w, inp, now))
    ensures (BinStage(w, inp, now).state == Faulted) == (When(inp.binFull && !w.prevBinFull, Sampled(w.ctx, inp), BinFull, now).state == Faulted)
  {
    hide Dispatch, Outcome, Shape, Sampled, Synced;
    SampledKeeps(w.ctx, inp);
    var c0 := Sampled(w.ctx, inp);
    WhenKeeps(inp.binFull && !w.prevBinFull, c0, BinFull, now);
    var c1 := When(inp.binFull && !w.prevBinFull, c0, BinFull, now);
    var change := if !inp.occupied then OccupiedOff else if c1.state == Cleaning then ProtectTrigger else OccupiedOn;
    WhenKeeps(c1.state != Faulted && inp.occupied != w.prevOccupied, c1, change, now);
    var c2 := When(c1.state != Faulted && inp.occupied != w.prevOccupied, c1, change, now);
    WhenKeeps(c1.state != Faulted && w.cleanAsked, c2, CleanStart, now);
    WhenKeeps(w.resetAsked, When(c1.state != Faulted && w.cleanAsked, c2, CleanStart, now), Reset, now);
  }

  /** What the sensor remembers of its reports: nothing of them outside a cleaning. */
  function Remembered(c: Ctx, h: Hall, arrived: bool): Hall {
    if c.state != Cleaning then h.(reportedPhase := NoPhase)
    else if arrived then h.(reportedPhase := c.phase, reportedPosition := h.stable)
    else h
  }

  /**
   A whole pass: the inputs, a bin that has become full, a change of occupancy, a clean request, a reset request,
   the arrival at a target and the tick, in this order, each doing what the table says.  In a fault neither occupancy
   nor clean requests are looked at, and only such a request outlasts the pass.
   */
  lemma PassMeaning(w: World, inp: Input, now: Tick)
    requires Shape(w.ctx)
    ensures var c, h := Asked(w, inp, now), Poll(w.hall, inp.bits, now);
            var arrived := Arrives(c, h, inp, w.ctx.state);
            var faulted := When(inp.binFull && !w.prevBinFull, Sampled(w.ctx, inp), BinFull, now).state == Faulted;
            Running(w, inp, now)
            == World(Ticked(When(arrived, c, ArrivalEvent(c.phase), now), now), Remembered(c, h, arrived),
                     inp.occupied, inp.binFull, w.cleanAsked && faulted, false)
  {
    AskedIs(w, inp, now);
    var c, h := Asked(w, inp, now), Poll(w.hall, inp.bits, now);
    ArrivalIs(c, h, inp, w.ctx.state);
    var arrived := Arrives(c, h, inp, w.ctx.state);
    hide Arrives, Asked, AtHall, Poll, Dispatch, Outcome, Shape, Sampled, Reports, ArrivalEvent, BinStage;
    WhenKeeps(arrived, c, ArrivalEvent(c.phase), now);
    TickTable(When(arrived, c, ArrivalEvent(c.phase), now), now);
    hide Ticked, TickStep;
  }

  lemma ArrivalIs(c: Ctx, h: Hall, inp: Input, before: State)
    ensures ArrivalEvent(c.phase) != None
    ensures Reports(h, c, inp.binFull, ProtectNow(inp.occupied, before)) == Arrives(c, h, inp, before)
    ensures Arrives(c, h, inp, before) ==> EventFor(h.stable) == ArrivalEvent(c.phase)
  {
  }

  /** The start: the state that the first samples call for, with nothing asked and nothing known of the sensors. */
  lemma StartMeaning(occupied: bool, binFull: bool, now: Tick)
    ensures var w := Started(occupied, binFull, now);
            && w.ctx.state == (if binFull then Faulted else if occupied then Occupied else Idle)
            && (binFull ==> w.ctx.fault == BinFullFault) && (!binFull ==> w.ctx.fault == NoFault)
            && w.ctx.motor == Stopped && w.ctx.deadline == 0
            && w.ctx.occupied == occupied && w.ctx.binFull == binFull && !w.ctx.protect
            && w.prevOccupied == occupied && w.prevBinFull == binFull && !w.cleanAsked && !w.resetAsked
            && w.hall.stable == Unknown && w.hall.lastSample == 0
  {
  }

  // ---------------------------------------------------------------- what users see

  /** A request for a cleaning of a clear idle box is met in the same pass. */
  lemma CleanIsServed(w: World, inp: Input, now: Tick)
    requires Shape(w.ctx) && w.ctx.state == Idle && w.cleanAsked && !w.resetAsked
    requires !inp.occupied && !w.prevOccupied && !inp.binFull
    ensures var r := Running(w, inp, now);
            r.ctx.state == Cleaning && r.ctx.motor != Stopped && r.ctx.cleanStarted == now && !r.cleanAsked
  {
    PassMeaning(w, inp, now);
    CleanAsked(w, inp, now);
    hide Running, Poll, Asked, Arrives, Remembered;
    var c, h := Asked(w, inp, now), Poll(w.hall, inp.bits, now);
    if Arrives(c, h, inp, w.ctx.state) {
      FreshStaysOn(c, now);
    }
  }

  lemma CleanAsked(w: World, inp: Input, now: Tick)
    requires Shape(w.ctx) && w.ctx.state == Idle && w.cleanAsked && !w.resetAsked
    requires !inp.occupied && !w.prevOccupied && !inp.binFull
    ensures var c := Asked(w, inp, now);
            c.state == Cleaning && c.phase == ToPos2 && c.cleanStarted == c.phaseStarted == now && !c.protect && c.motor == Forward
  {
  }

  lemma FreshStaysOn(c: Ctx, now: Tick)
    requires c.state == Cleaning && c.phase == ToPos2 && c.cleanStarted == now && !c.protect
    ensures var r := Ticked(Outcome(c, Pos2Reached, now), now); r.state == Cleaning && r.motor == Backward && r.cleanStarted == now
  {
  }

  /** Somebody who comes near during a cleaning stops it in the same pass. */
  lemma EntryStops(w: World, inp: Input, now: Tick)
    requires Shape(w.ctx) && w.ctx.state == Cleaning && inp.occupied && !inp.binFull && !w.resetAsked
    ensures Running(w, inp, now).ctx.state == SafeStop && Running(w, inp, now).ctx.motor == Stopped
  {
    PassMeaning(w, inp, now);
    EntryAsked(w, inp, now);
    hide Running, Poll, Asked, Remembered;
  }

  lemma EntryAsked(w: World, inp: Input, now: Tick)
    requires Shape(w.ctx) && w.ctx.state == Cleaning && inp.occupied && !inp.binFull && !w.resetAsked
    ensures var c := Asked(w, inp, now);
            && (c.state == SafeStop || c.state == Cleaning) && c.protect && Shape(c)
            && !Arrives(c, Poll(w.hall, inp.bits, now), inp, w.ctx.state)
  {
    hide Poll;
  }

  /** A timeout fault stays through every pass without a reset request, and a reset ends it in a box with room. */
  lemma TimeoutStays(w: World, inp: Input, now: Tick)
    requires Shape(w.ctx) && w.ctx.state == Faulted && w.ctx.fault == CleanTimeout
    ensures var r := Running(w, inp, now).ctx;
            if !w.resetAsked || inp.binFull then r.state == Faulted && r.fault == CleanTimeout
            else r.state == (if inp.occupied then Occupied else Idle) && r.fault == NoFault
  {
    PassMeaning(w, inp, now);
    FaultAsked(w, inp, now);
    hide Running, Poll, Asked, Arrives, Outcome;
  }

  lemma FaultAsked(w: World, inp: Input, now: Tick)
    requires Shape(w.ctx) && w.ctx.state == Faulted && w.ctx.fault == CleanTimeout
    ensures var c := Asked(w, inp, now);
            && (!w.resetAsked || inp.binFull ==> c.state == Faulted && c.fault == CleanTimeout)
            && (w.resetAsked && !inp.binFull ==> c.state == (if inp.occupied then Occupied else Idle) && c.fault == NoFault)
            && !Arrives(c, Poll(w.hall, inp.bits, now), inp, w.ctx.state)
  {
    hide Poll;
  }

  /** Whoever leaves a stopped box lets it go on to the confirmation that it was left, two seconds long. */
  lemma ReleaseConfirms(w: World, inp: Input, now: Tick)
    requires Shape(w.ctx) && w.ctx.state == SafeStop && !inp.occupied && !inp.binFull && !w.resetAsked
    ensures var r := Running(w, inp, now).ctx;
            r.state == LeaveConfirm && r.deadline == (now + 2000) % 0x1_0000_0000 && r.motor == Stopped
  {
    PassMeaning(w, inp, now);
    ReleaseAsked(w, inp, now);
    hide Running, Poll, Asked, Remembered;
  }

  lemma ReleaseAsked(w: World, inp: Input, now: Tick)
    requires Shape(w.ctx) && w.ctx.state == SafeStop && !inp.occupied && !inp.binFull && !w.resetAsked
    ensures var c := Asked(w, inp, now);
            c.state == SafeStop && !c.protect && !c.binFull && !c.occupied && !Arrives(c, Poll(w.hall, inp.bits, now), inp, w.ctx.state)
  {
    hide Poll;
  }
}
