/**
 Whole runs of the control loop: passes at known moments of real time, with requests and injected
 timeouts in between.  Real time is unbounded here; the program only sees it modulo 2^32.
 */
module LogicRuns {

  import opened Fsm
  import opened Logic
  import opened LogicSafety

  datatype Boot = Boot(time: nat, occupied: bool, binFull: bool)

  datatype Action = Pass(time: nat, inp: Input) | AskClean | AskReset | Inject(now: Tick)

  function Tock(time: nat): Tick {
    time % TICKS
  }

  function Do(w: World, a: Action): World {
    match a
    case Pass(time, inp) => Running(w, inp, Tock(time))
    case AskClean => w.(cleanAsked := true)
    case AskReset => w.(resetAsked := true)
    case Inject(now) => Injected(w, now)
  }

  function Past(run: seq<Action>): seq<Action>
    requires run != []
  {
    run[..|run| - 1]
  }

  function Last(run: seq<Action>): Action
    requires run != []
  {
    run[|run| - 1]
  }

  function After(b: Boot, run: seq<Action>): World {
    if run == [] then Started(b.occupied, b.binFull, Tock(b.time))
    else Do(After(b, Past(run)), Last(run))
  }

  /** The moment of the last pass, or of the start. */
  function Clock(b: Boot, run: seq<Action>): nat {
    if run == [] then b.time
    else if Last(run).Pass? then Last(run).time
    else Clock(b, Past(run))
  }

  /** Passes come in order and at most `gap` ticks apart. */
  predicate Timed(b: Boot, run: seq<Action>, gap: nat) {
    run == []
    || (Timed(b, Past(run), gap)
        && (Last(run).Pass? ==> Clock(b, Past(run)) <= Last(run).time <= Clock(b, Past(run)) + gap))
  }

  /** In every run, at every point between two actions, the interlocks hold. */
  lemma {:induction false} AlwaysSafe(b: Boot, run: seq<Action>)
    ensures Safe(After(b, run))
  {
    hide Running, Started, Injected, Interlocked;
    if run == [] {
      StartedIsSafe(b.occupied, b.binFull, Tock(b.time));
    } else {
      AlwaysSafe(b, Past(run));
      var w := After(b, Past(run));
      match Last(run) {
        case Pass(time, inp) => RunningKeepsSafe(w, inp, Tock(time));
        case AskClean =>
        case AskReset =>
        case Inject(now) => InjectedKeepsSafe(w, now);
      }
    }
  }

  // ---------------------------------------------------------------- ticks and real time

  lemma TicksPerMs(ms: nat)
    ensures FromMs(ms) == ms
  {
  }

  lemma ElapsedIs(time: nat, since: nat)
    requires since <= time < since + TICKS
    ensures Elapsed(Tock(time), Tock(since)) == time - since
  {
    var q, r := time / TICKS, since / TICKS;
    assert Tock(time) == time - q * TICKS && Tock(since) == since - r * TICKS;
    assert (Tock(time) - Tock(since)) == (time - since) - (q - r) * TICKS;
    ModShift(time - since, q - r);
  }

  lemma ModShift(x: nat, k: int)
    requires x < TICKS
    ensures (x - k * TICKS) % TICKS == x
  {
  }

  /** A deadline that is not 0 expires exactly when its real time has come. */
  lemma ExpiresOnTime(time: nat, since: nat, ms: nat)
    requires since <= time && time < since + TICKS / 2 && ms < TICKS / 2
    ensures DeadlineExpired(Tock(time), Later(Tock(since), ms))
       <==> Later(Tock(since), ms) != 0 && time >= since + ms
  {
    hide Tock, Elapsed, Later;
    LaterIs(since, ms);
    var due := since + ms;
    if time >= due {
      ElapsedIs(time, due);
    } else {
      ElapsedIs(time + TICKS, due);
      TockAgain(time);
    }
  }

  lemma TockAgain(time: nat)
    ensures Tock(time + TICKS) == Tock(time)
  {
    ModAddMultiple(time, -1);
  }

  lemma LaterIs(since: nat, ms: nat)
    ensures Later(Tock(since), ms) == Tock(since + ms)
  {
    TicksPerMs(ms);
    var q := since / TICKS;
    assert Tock(since) + ms == (since + ms) - q * TICKS;
    ModAddMultiple(since + ms, q);
  }

  lemma ModAddMultiple(x: int, k: int)
    ensures (x - k * TICKS) % TICKS == x % TICKS
  {
  }

  // ---------------------------------------------------------------- one pass from end to end

  /** How a pass may change the waiting states and the cleaning, seen from its two ends. */
  predicate Stepped(c: Ctx, d: Ctx, asked: bool, now: Tick) {
    (d.state == LeaveConfirm ==>
       if c.state == LeaveConfirm then d.deadline == c.deadline && !DeadlineExpired(now, c.deadline)
       else d.deadline == Later(now, LEAVE_CONFIRM_MS))
    && (d.state == CleanDelay ==>
          if c.state == CleanDelay then d.deadline == c.deadline && !DeadlineExpired(now, c.deadline)
          else c.state == LeaveConfirm && DeadlineExpired(now, c.deadline) && d.deadline == Later(now, CLEAN_DELAY_MS))
    && (d.state == Cleaning ==>
          if c.state == Cleaning then
            d.cleanStarted == c.cleanStarted
            && (if d.phase == c.phase then d.phaseStarted == c.phaseStarted && !PhaseTimeout(c, now)
                else c.phase != ToPos1 && d.phase == NextPhase(c.phase) && d.phaseStarted == now)
          else
            d.cleanStarted == now && d.phaseStarted == now && (d.phase == ToPos2 || d.phase == ToPos3)
            && ((asked && (c.state == Idle || c.state == CleanDelay))
                || (c.state == CleanDelay && DeadlineExpired(now, c.deadline))))
  }

  lemma FreshDeadline(now: Tick)
    ensures !DeadlineExpired(now, Later(now, LEAVE_CONFIRM_MS))
  {
    assert Tock(now) == now;
    ExpiresOnTime(now, now, LEAVE_CONFIRM_MS);
  }

  lemma RunningSteps(w: World, inp: Input, now: Tick)
    requires Safe(w)
    ensures Stepped(w.ctx, Running(w, inp, now).ctx, w.cleanAsked, now)
  {
    hide AtHall, Heard, TickStep, Poll, Reported, Reports, Later, DeadlineExpired, TotalTimeout;
    AtHallKeeps(w, inp, now);
    var c := AtHall(w, inp, now);
    var h := Poll(w.hall, inp.bits, now);
    var protect := ProtectNow(inp.occupied, w.ctx.state);
    HeardKeeps(h, c, inp.occupied, inp.binFull, protect, now);
    TickKeeps(Heard(h, c, inp.binFull, protect, now), inp.occupied, inp.binFull, now);
    FreshDeadline(now);
  }
}
