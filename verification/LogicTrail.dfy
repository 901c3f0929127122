/**
 What a cleaning consumed by the time it is done, and what it takes for a hall position to become stable.
 */
module LogicTrail {

  import opened Fsm
  import opened Logic
  import opened LogicSafety
  import opened LogicRuns
  import opened LogicTiming

  // ---------------------------------------------------------------- the trajectory of a cleaning

  /** The position, if any, that this pass reports to the machine. */
  function Consumed(w: World, a: Action): seq<Position> {
    if a.Pass? then
      var h, c := Poll(w.hall, a.inp.bits, Tock(a.time)), AtHall(w, a.inp, Tock(a.time));
      if Reports(h, c, a.inp.binFull, ProtectNow(a.inp.occupied, w.ctx.state)) then [h.stable] else []
    else []
  }

  /** All that the present cleaning, or the one that the last action ended, has consumed. */
  function Trail(b: Boot, run: seq<Action>): seq<Position> {
    if run == [] then []
    else (if After(b, Past(run)).ctx.state == Cleaning then Trail(b, Past(run)) else [])
         + Consumed(After(b, Past(run)), Last(run))
  }

  /** What is behind a machine that is now in phase p. */
  function Behind(p: Phase): seq<Position> {
    match p
    case ToPos3 => [Pos2]
    case ToPos1 => [Pos2, Pos3]
    case _ => []
  }

  /** How a pass extends the trail. */
  predicate Trailed(c: Ctx, d: Ctx, eaten: seq<Position>, reset: bool) {
    var before := if c.state == Cleaning then Behind(c.phase) else [];
    (d.state == Cleaning ==> before + eaten == Behind(d.phase))
    && (c.state == Cleaning && d.state == Idle && !reset ==> before + eaten == [Pos2, Pos3, Pos1])
  }

  lemma RunningTrails(w: World, a: Action)
    requires Safe(w) && a.Pass?
    ensures Trailed(w.ctx, Running(w, a.inp, Tock(a.time)).ctx, Consumed(w, a), w.resetAsked)
  {
    hide AtHall, Heard, TickStep, Poll, Reported, Reports, Later, DeadlineExpired, TotalTimeout, PhaseTimeout, Tock;
    var inp, now := a.inp, Tock(a.time);
    AtHallKeeps(w, inp, now);
    if w.ctx.state == Cleaning && !w.resetAsked {
      AtHallStaysCleaning(w, inp, now);
    }
    var c := AtHall(w, inp, now);
    var h := Poll(w.hall, inp.bits, now);
    HeardKeeps(h, c, inp.occupied, inp.binFull, ProtectNow(inp.occupied, w.ctx.state), now);
    TickKeeps(AtTick(w, inp, now), inp.occupied, inp.binFull, now);
  }

  /** Before the hall report, only a reset takes a cleaning machine to a state that is not stopped. */
  lemma AtHallStaysCleaning(w: World, inp: Input, now: Tick)
    requires Safe(w) && w.ctx.state == Cleaning && !w.resetAsked
    ensures var d := AtHall(w, inp, now);
            d.state == Cleaning || (d.state == Faulted && d.binFull) || (d.state == SafeStop && inp.occupied && d.protect)
  {
  }

  /** In every run, a cleaning in phase p has consumed exactly what comes before p. */
  lemma {:induction false} TrailBehind(b: Boot, run: seq<Action>)
    ensures After(b, run).ctx.state == Cleaning ==> Trail(b, run) == Behind(After(b, run).ctx.phase)
  {
    hide Running, Safe, Consumed;
    if run == [] {
      StartedRests(b);
    } else {
      TrailBehind(b, Past(run));
      if Last(run).Pass? {
        AlwaysSafe(b, Past(run));
        RunningTrails(After(b, Past(run)), Last(run));
        PassIs(b, run);
      } else {
        BetweenPasses(b, run);
        OnlyPassesConsume(After(b, Past(run)), Last(run));
      }
    }
  }

  lemma OnlyPassesConsume(w: World, a: Action)
    ensures !a.Pass? ==> Consumed(w, a) == []
  {
  }

  /** A cleaning that ends in IDLE without a reset request has consumed POS2, POS3 and POS1 in that order. */
  lemma DoneTrail(b: Boot, run: seq<Action>)
    requires run != [] && After(b, Past(run)).ctx.state == Cleaning && !After(b, Past(run)).resetAsked
    requires After(b, run).ctx.state == Idle
    ensures Last(run).Pass? && Trail(b, run) == [Pos2, Pos3, Pos1]
  {
    hide Running, Safe, Consumed;
    TrailBehind(b, Past(run));
    if Last(run).Pass? {
      AlwaysSafe(b, Past(run));
      RunningTrails(After(b, Past(run)), Last(run));
      PassIs(b, run);
    } else {
      BetweenPasses(b, run);
    }
  }

  // ---------------------------------------------------------------- the dedupe

  /** What the last report can have been, in each state. */
  predicate DedupeHarmless(c: Ctx, h: Hall) {
    match c.state
    case Cleaning =>
      (c.phase == ToPos2 ==> h.reportedPhase == NoPhase || h.reportedPhase == ToPos1)
      && (c.phase == ToPos3 ==> h.reportedPhase == ToPos2)
      && (c.phase == ToPos1 ==> h.reportedPhase == ToPos3)
    case Idle => h.reportedPhase == NoPhase || h.reportedPhase == ToPos1
    case LeaveConfirm => h.reportedPhase == NoPhase
    case CleanDelay => h.reportedPhase == NoPhase
    case _ => true
  }

  lemma RunningKeepsDedupe(w: World, inp: Input, now: Tick)
    requires Safe(w) && DedupeHarmless(w.ctx, w.hall)
    ensures var h, c := Poll(w.hall, inp.bits, now), AtHall(w, inp, now);
            Reports(h, c, inp.binFull, ProtectNow(inp.occupied, w.ctx.state))
            <==> c.state == Cleaning && h.stable == Target(c.phase)
    ensures DedupeHarmless(Running(w, inp, now).ctx, Running(w, inp, now).hall)
  {
    hide AtHall, Heard, TickStep, Poll, Later, DeadlineExpired, TotalTimeout, PhaseTimeout;
    AtHallKeeps(w, inp, now);
    var c := AtHall(w, inp, now);
    var h := Poll(w.hall, inp.bits, now);
    PollKeepsReport(w.hall, inp.bits, now);
    HeardKeeps(h, c, inp.occupied, inp.binFull, ProtectNow(inp.occupied, w.ctx.state), now);
    TickKeeps(AtTick(w, inp, now), inp.occupied, inp.binFull, now);
  }

  lemma PollKeepsReport(h: Hall, bits: Bits, now: Tick)
    ensures var g := Poll(h, bits, now);
            g.reportedPhase == h.reportedPhase && g.reportedPosition == h.reportedPosition
  {
  }

  lemma {:induction false} AlwaysDedupeHarmless(b: Boot, run: seq<Action>)
    ensures DedupeHarmless(After(b, run).ctx, After(b, run).hall)
  {
    hide Running, Safe;
    if run == [] {
      StartedRests(b);
    } else {
      AlwaysDedupeHarmless(b, Past(run));
      if Last(run).Pass? {
        AlwaysSafe(b, Past(run));
        RunningKeepsDedupe(After(b, Past(run)), Last(run).inp, Tock(Last(run).time));
        PassIs(b, run);
      } else {
        BetweenPasses(b, run);
        assert After(b, run).hall == After(b, Past(run)).hall;
      }
    }
  }

  /** The dedupe and the interlock guards never hold back a report: in every run, a pass reports exactly
      when the machine is cleaning and the stable position is the one it is heading for. */
  lemma ReportedExactlyOnTarget(b: Boot, run: seq<Action>, a: Action)
    requires a.Pass?
    ensures var w := After(b, run);
            var h, c := Poll(w.hall, a.inp.bits, Tock(a.time)), AtHall(w, a.inp, Tock(a.time));
            Consumed(w, a) == if c.state == Cleaning && h.stable == Target(c.phase) then [h.stable] else []
  {
    hide After, AtHall, Poll, Reports, Safe, Running, Target;
    AlwaysSafe(b, run);
    AlwaysDedupeHarmless(b, run);
    RunningKeepsDedupe(After(b, run), a.inp, Tock(a.time));
  }

  // ---------------------------------------------------------------- debounce

  /** Did the i-th action take a sample of the hall sensors? */
  predicate Sampled(b: Boot, run: seq<Action>, i: nat)
    requires i < |run|
  {
    run[i].Pass? && SampleDue(After(b, run[..i]).hall, Tock(run[i].time))
  }

  /** The index of the last sample. */
  function SampledAt(b: Boot, run: seq<Action>): nat {
    if run == [] then 0 else if Sampled(b, run, |run| - 1) then |run| - 1 else SampledAt(b, Past(run))
  }

  /** The index of the sample that brought in the present candidate. */
  function CandidateAt(b: Boot, run: seq<Action>): nat {
    if run == [] then 0
    else if After(b, run).hall.candidate != After(b, Past(run)).hall.candidate then |run| - 1
    else CandidateAt(b, Past(run))
  }

  /** Every sample from the k-th action on, which is one, decoded to p. */
  predicate SteadyFrom(b: Boot, run: seq<Action>, k: nat, p: Position) {
    k < |run| && Sampled(b, run, k)
    && forall i :: k <= i < |run| && Sampled(b, run, i) ==> Decode(run[i].inp.bits) == p
  }

  predicate SampleHistory(b: Boot, run: seq<Action>) {
    var h := After(b, run).hall;
    var s := SampledAt(b, run);
    if h.candidate == Unknown then h == FreshHall().(reportedPhase := h.reportedPhase, reportedPosition := h.reportedPosition)
    else s < |run| && Sampled(b, run, s) && h.lastSample == Tock(When(run, s))
         && When(run, s) <= Clock(b, run) && (h.lastSample == 0 ==> When(run, s) == Clock(b, run))
         && Clock(b, run) < When(run, s) + SAMPLE_PERIOD_MS
  }

  predicate CandidateHistory(b: Boot, run: seq<Action>) {
    var h := After(b, run).hall;
    var s, k := SampledAt(b, run), CandidateAt(b, run);
    h.candidate == Unknown
    || (SteadyFrom(b, run, k, h.candidate) && h.candidateStarted == Tock(When(run, k)) && When(run, k) <= When(run, s)
        && (h.stable != h.candidate ==> When(run, s) < When(run, k) + DEBOUNCE_MS))
  }

  /** The hall state of a pass is what the poll left, up to what the report records. */
  predicate SamePoll(h: Hall, g: Hall) {
    h.lastSample == g.lastSample && h.candidateStarted == g.candidateStarted && h.raw == g.raw
    && h.candidate == g.candidate && h.stable == g.stable && h.bits == g.bits
  }

  lemma PassPolls(b: Boot, run: seq<Action>)
    requires run != [] && Last(run).Pass?
    ensures SamePoll(After(b, run).hall, Poll(After(b, Past(run)).hall, Last(run).inp.bits, Tock(Last(run).time)))
  {
    hide AtTick, TickStep, AtHall, Poll, BinStage, Reports, Tock;
  }

  lemma OthersDoNotPoll(b: Boot, run: seq<Action>)
    requires run != [] && !Last(run).Pass?
    ensures After(b, run).hall == After(b, Past(run)).hall && !Sampled(b, run, |run| - 1)
  {
    hide Running, Dispatch;
  }

  /** The prefix of a run sees the same samples. */
  lemma SampledEarlier(b: Boot, run: seq<Action>, i: nat)
    requires run != [] && i < |run| - 1
    ensures Sampled(b, run, i) == Sampled(b, Past(run), i)
  {
    assert run[..i] == Past(run)[..i];
  }

  lemma SteadyLonger(b: Boot, run: seq<Action>, k: nat, p: Position)
    requires run != [] && SteadyFrom(b, Past(run), k, p)
    requires Sampled(b, run, |run| - 1) ==> Decode(Last(run).inp.bits) == p
    ensures SteadyFrom(b, run, k, p)
  {
    hide Sampled;
    forall i | 0 <= i < |run| - 1 ensures Sampled(b, run, i) == Sampled(b, Past(run), i) {
      SampledEarlier(b, run, i);
    }
  }

  lemma SignedIs(time: nat, since: nat)
    requires since <= time < since + TICKS / 2
    ensures SignedElapsed(Tock(time), Tock(since)) == time - since
  {
    ElapsedIs(time, since);
  }

  lemma SampleStep(b: Boot, run: seq<Action>, gap: nat)
    requires run != [] && Last(run).Pass? && Timed(b, run, gap) && gap <= MAX_GAP
    requires SampleHistory(b, Past(run))
    ensures SampleHistory(b, run)
    ensures Sampled(b, run, |run| - 1) ==> After(b, run).hall.candidate == Decode(Last(run).inp.bits)
    ensures !Sampled(b, run, |run| - 1) ==> SamePoll(After(b, run).hall, After(b, Past(run)).hall)
  {
    hide After, Tock, SignedElapsed;
    PassPolls(b, run);
    TicksPerMs(SAMPLE_PERIOD_MS);
    var h, s := After(b, Past(run)).hall, SampledAt(b, Past(run));
    if !Sampled(b, run, |run| - 1) && h.candidate != Unknown {
      SampledEarlier(b, run, s);
      assert When(run, s) == When(Past(run), s);
      SignedIs(Clock(b, run), When(run, s));
    }
  }

  lemma CandidateStep(b: Boot, run: seq<Action>, gap: nat)
    requires run != [] && Last(run).Pass? && Timed(b, run, gap) && gap <= MAX_GAP
    requires SampleHistory(b, Past(run)) && CandidateHistory(b, Past(run))
    ensures CandidateHistory(b, run)
    ensures var h, g, k := After(b, run).hall, After(b, Past(run)).hall, CandidateAt(b, run);
            Sampled(b, run, |run| - 1) ==>
              (h.stable == h.candidate <==> g.stable == h.candidate || When(run, k) + DEBOUNCE_MS <= Clock(b, run))
              && (h.stable == h.candidate || h.stable == g.stable)
  {
    hide After, Tock, SignedElapsed, SteadyFrom, SampleDue;
    PassPolls(b, run);
    SampleStep(b, run, gap);
    TicksPerMs(DEBOUNCE_MS);
    var h, g := After(b, run).hall, After(b, Past(run)).hall;
    var k := CandidateAt(b, run);
    if h.candidate == g.candidate && h.candidate != Unknown {
      SteadyLonger(b, run, k, h.candidate);
      assert When(run, k) == When(Past(run), k) by { SteadyIn(b, Past(run), k, h.candidate); }
      SameSample(b, run);
      if g.stable != g.candidate {
        SignedIs(Clock(b, run), When(run, k));
      }
    } else if h.candidate != g.candidate {
      SteadyNow(b, run, h.candidate);
    }
  }

  lemma SteadyIn(b: Boot, run: seq<Action>, k: nat, p: Position)
    requires SteadyFrom(b, run, k, p)
    ensures k < |run|
  {
  }

  lemma SteadyNow(b: Boot, run: seq<Action>, p: Position)
    requires run != [] && Sampled(b, run, |run| - 1) && Decode(Last(run).inp.bits) == p
    ensures SteadyFrom(b, run, |run| - 1, p)
  {
  }

  lemma SameSample(b: Boot, run: seq<Action>)
    requires run != []
    ensures SampledAt(b, run) == if Sampled(b, run, |run| - 1) then |run| - 1 else SampledAt(b, Past(run))
    ensures SampledAt(b, Past(run)) < |run| - 1
            ==> When(run, SampledAt(b, Past(run))) == When(Past(run), SampledAt(b, Past(run)))
  {
  }

  lemma {:induction false} AlwaysHistories(b: Boot, run: seq<Action>, gap: nat)
    requires Timed(b, run, gap) && gap <= MAX_GAP
    ensures SampleHistory(b, run) && CandidateHistory(b, run)
  {
    if run != [] {
      AlwaysHistories(b, Past(run), gap);
      if Last(run).Pass? {
        SampleStep(b, run, gap);
        CandidateStep(b, run, gap);
      } else {
        HistoriesBetween(b, run);
      }
    }
  }

  lemma HistoriesBetween(b: Boot, run: seq<Action>)
    requires run != [] && !Last(run).Pass? && SampleHistory(b, Past(run)) && CandidateHistory(b, Past(run))
    ensures SampleHistory(b, run) && CandidateHistory(b, run)
  {
    hide After, Tock;
    OthersDoNotPoll(b, run);
    var h := After(b, run).hall;
    var s, k := SampledAt(b, run), CandidateAt(b, run);
    if h.candidate != Unknown {
      SampledEarlier(b, run, s);
      SteadyLonger(b, run, k, h.candidate);
    }
  }

  /** A new stable position was decoded from every sample for at least the debounce time. */
  lemma StableWasSteady(b: Boot, run: seq<Action>, gap: nat)
    requires Timed(b, run, gap) && gap <= MAX_GAP && run != []
    requires After(b, run).hall.stable != After(b, Past(run)).hall.stable
    ensures exists k :: 0 <= k && SteadyFrom(b, run, k, After(b, run).hall.stable)
                        && When(run, k) + DEBOUNCE_MS <= Clock(b, run)
  {
    hide After, Tock;
    AlwaysHistories(b, Past(run), gap);
    if Last(run).Pass? {
      SampleStep(b, run, gap);
      CandidateStep(b, run, gap);
      var k := CandidateAt(b, run);
      assert SteadyFrom(b, run, k, After(b, run).hall.stable);
    } else {
      OthersDoNotPoll(b, run);
    }
  }
}
