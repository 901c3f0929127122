/**
 The control loop of app_logic/logic.c around the state machine: the hall sensors with their sampling
 period and debounce, the requests queued by other threads, and one pass of Sensor_Logic_Running.
 What the pins and the scale say is sampled once a pass and is an input here, and so is the tick.
 */
module Logic {

  import opened Fsm

  const SAMPLE_PERIOD_MS: nat := 10
  const DEBOUNCE_MS: nat := 20

  datatype Position = Unknown | Transition | Pos1 | Pos2 | Pos3 | Invalid

  /** The three active-low pins as logic_hall_read_active_bits packs them. */
  type Bits = n: nat | n < 8

  function Decode(bits: Bits): Position {
    match bits
    case 0 => Transition
    case 1 => Pos1
    case 2 => Pos2
    case 4 => Pos3
    case _ => Invalid
  }

  function EventFor(p: Position): Event {
    match p
    case Pos1 => Pos1Reached
    case Pos2 => Pos2Reached
    case Pos3 => Pos3Reached
    case _ => None
  }

  function Target(p: Phase): Position {
    match p
    case NoPhase => Unknown
    case ToPos2 => Pos2
    case ToPos3 => Pos3
    case ToPos1 => Pos1
  }

  // ---------------------------------------------------------------- hall sensors

  datatype Hall = Hall(lastSample: Tick, candidateStarted: Tick, raw: Position, candidate: Position,
                       stable: Position, reportedPhase: Phase, reportedPosition: Position, bits: Bits)

  function FreshHall(): Hall {
    Hall(0, 0, Unknown, Unknown, Unknown, NoPhase, Unknown, 0)
  }

  /** Does this pass take a sample, or is the last one too recent? */
  predicate SampleDue(h: Hall, now: Tick) {
    h.lastSample == 0 || FromMs(SAMPLE_PERIOD_MS) <= 0
    || SignedElapsed(now, h.lastSample) >= FromMs(SAMPLE_PERIOD_MS)
  }

  predicate Settles(h: Hall, p: Position, now: Tick) {
    h.stable != p
    && (FromMs(DEBOUNCE_MS) == 0 || SignedElapsed(now, h.candidateStarted) >= FromMs(DEBOUNCE_MS))
  }

  /** logic_hall_poll; the position it hands back is the new `stable`. */
  function Poll(h: Hall, bits: Bits, now: Tick): Hall {
    if !SampleDue(h, now) then h
    else
      var p := Decode(bits);
      var g := h.(lastSample := now, bits := bits, raw := p);
      if h.candidate != p then g.(candidate := p, candidateStarted := now)
      else if Settles(h, p, now) then g.(stable := p)
      else g
  }

  /** The guards of logic_dispatch_hall_event_if_needed. */
  predicate Reports(h: Hall, c: Ctx, binFull: bool, protect: bool) {
    c.state == Cleaning && !binFull && !protect
    && Target(c.phase) != Unknown && h.stable == Target(c.phase)
    && EventFor(h.stable) != None
    && !(h.reportedPhase == c.phase && h.reportedPosition == h.stable)
  }

  function Reported(h: Hall, c: Ctx, binFull: bool, protect: bool): Hall {
    if c.state != Cleaning then h.(reportedPhase := NoPhase)
    else if Reports(h, c, binFull, protect) then h.(reportedPhase := c.phase, reportedPosition := h.stable)
    else h
  }

  class Sensor {
    var lastSample: Tick
    var candidateStarted: Tick
    var raw: Position
    var candidate: Position
    var stable: Position
    var reportedPhase: Phase
    var reportedPosition: Position
    var bits: Bits

    function Value(): Hall
      reads this
    {
      Hall(lastSample, candidateStarted, raw, candidate, stable, reportedPhase, reportedPosition, bits)
    }

    constructor ()
      ensures Value() == FreshHall()
    {
      lastSample, candidateStarted, bits := 0, 0, 0;
      raw, candidate, stable := Unknown, Unknown, Unknown;
      reportedPhase, reportedPosition := NoPhase, Unknown;
    }

    method DoPoll(active: Bits, now: Tick) returns (stablePosition: Position, changed: bool)
      modifies this
      ensures Value() == Poll(old(Value()), active, now)
      ensures stablePosition == stable && (changed <==> stable != old(stable))
    {
      hide FromMs, SignedElapsed, Decode;
      stablePosition := stable;
      changed := false;
      if lastSample != 0 && FromMs(SAMPLE_PERIOD_MS) > 0
         && SignedElapsed(now, lastSample) < FromMs(SAMPLE_PERIOD_MS) {
        return;
      }
      lastSample := now;
      bits := active;
      raw := Decode(active);
      if candidate != raw {
        candidate := raw;
        candidateStarted := now;
        return;
      }
      if stable != raw
         && (FromMs(DEBOUNCE_MS) == 0 || SignedElapsed(now, candidateStarted) >= FromMs(DEBOUNCE_MS)) {
        stable := raw;
        stablePosition := raw;
        changed := true;
      }
    }

    method DoReport(machine: Machine, position: Position, binFull: bool, protect: bool, now: Tick)
      requires position == stable
      modifies this, machine
      ensures Value() == Reported(old(Value()), old(machine.Value()), binFull, protect)
      ensures machine.Value() == Heard(old(Value()), old(machine.Value()), binFull, protect, now)
    {
      hide Dispatch;
      var phase := machine.phase;
      if machine.state != Cleaning {
        reportedPhase := NoPhase;
        return;
      }
      if binFull || protect {
        return;
      }
      var target := Target(phase);
      if target == Unknown || position != target {
        return;
      }
      var event := EventFor(position);
      if event == None || (reportedPhase == phase && reportedPosition == position) {
        return;
      }
      reportedPhase := phase;
      reportedPosition := position;
      machine.DoDispatch(event, now);
    }
  }

  /** What the machine makes of the hall report, if there is one. */
  function Heard(h: Hall, c: Ctx, binFull: bool, protect: bool, now: Tick): Ctx {
    if Reports(h, c, binFull, protect) then Dispatch(c, EventFor(h.stable), now) else c
  }

  // ---------------------------------------------------------------- one pass

  datatype Input = Input(occupied: bool, binFull: bool, bits: Bits)

  datatype World = World(ctx: Ctx, hall: Hall, prevOccupied: bool, prevBinFull: bool,
                         cleanAsked: bool, resetAsked: bool)

  /** logic_is_protect_active */
  predicate ProtectNow(occupied: bool, s: State) {
    occupied && (s == Cleaning || s == SafeStop)
  }

  function Synced(c: Ctx, inp: Input): Ctx {
    c.(occupied := inp.occupied, binFull := inp.binFull, protect := ProtectNow(inp.occupied, c.state))
  }

  function BinStage(w: World, inp: Input, now: Tick): Ctx {
    var c := Synced(w.ctx, inp);
    if inp.binFull && !w.prevBinFull then Dispatch(c, BinFull, now) else c
  }

  function OccupancyStage(c: Ctx, occupied: bool, before: bool, now: Tick): Ctx {
    if occupied == before then c
    else if !occupied then Dispatch(c, OccupiedOff, now)
    else if c.state == Cleaning then Dispatch(c, ProtectTrigger, now)
    else Dispatch(c, OccupiedOn, now)
  }

  function CleanStage(c: Ctx, asked: bool, now: Tick): Ctx {
    if asked then Dispatch(c, CleanStart, now) else c
  }

  function ResetStage(c: Ctx, asked: bool, now: Tick): Ctx {
    if asked then Dispatch(c, Reset, now) else c
  }

  function RequestStage(w: World, inp: Input, now: Tick): Ctx {
    var c := BinStage(w, inp, now);
    if c.state == Faulted then c
    else CleanStage(OccupancyStage(c, inp.occupied, w.prevOccupied, now), w.cleanAsked, now)
  }

  /** The context when the hall sensors are polled. */
  function AtHall(w: World, inp: Input, now: Tick): Ctx {
    ResetStage(RequestStage(w, inp, now), w.resetAsked, now)
  }

  /** The context when litter_fsm_tick is called. */
  function AtTick(w: World, inp: Input, now: Tick): Ctx {
    Heard(Poll(w.hall, inp.bits, now), AtHall(w, inp, now), inp.binFull, ProtectNow(inp.occupied, w.ctx.state), now)
  }

  /** Sensor_Logic_Running, after initialisation. */
  function Running(w: World, inp: Input, now: Tick): World {
    var protect := ProtectNow(inp.occupied, w.ctx.state);
    World(TickStep(AtTick(w, inp, now), now),
          Reported(Poll(w.hall, inp.bits, now), AtHall(w, inp, now), inp.binFull, protect),
          inp.occupied, inp.binFull,
          w.cleanAsked && BinStage(w, inp, now).state == Faulted, false)
  }

  /** Sensor_Logic_Init: two dispatches at most, on what the first samples say. */
  function Started(occupied: bool, binFull: bool, now: Tick): World {
    var c := Initial(now).(occupied := occupied, binFull := binFull);
    var d := if occupied then Dispatch(c, OccupiedOn, now) else c;
    var e := if binFull then Dispatch(d, BinFull, now) else d;
    World(e, FreshHall(), occupied, binFull, false, false)
  }

  /** The litter_timeout command. */
  function Injected(w: World, now: Tick): World {
    if w.ctx.state == Cleaning then w.(ctx := Dispatch(w.ctx, StallOrTimeout, now)) else w
  }

  class Controller {
    const machine: Machine
    const sensor: Sensor
    var prevOccupied: bool
    var prevBinFull: bool
    var cleanAsked: bool
    var resetAsked: bool

    function Value(): World
      reads this, machine, sensor
    {
      World(machine.Value(), sensor.Value(), prevOccupied, prevBinFull, cleanAsked, resetAsked)
    }

    constructor (occupied: bool, binFull: bool, now: Tick)
      ensures fresh(machine) && fresh(sensor)
      ensures Value() == Started(occupied, binFull, now)
    {
      hide Dispatch;
      machine := new Machine(now);
      sensor := new Sensor();
      prevOccupied := occupied;
      prevBinFull := binFull;
      cleanAsked := false;
      resetAsked := false;
      new;
      machine.DoSync(occupied, binFull, false);
      if occupied {
        machine.DoDispatch(OccupiedOn, now);
      }
      if binFull {
        machine.DoDispatch(BinFull, now);
      }
    }

    method RequestClean()
      modifies this
      ensures Value() == old(Value()).(cleanAsked := true)
    {
      cleanAsked := true;
    }

    method RequestReset()
      modifies this
      ensures Value() == old(Value()).(resetAsked := true)
    {
      resetAsked := true;
    }

    method InjectTimeout(now: Tick)
      modifies machine
      ensures Value() == Injected(old(Value()), now)
      ensures old(machine.state) != Cleaning ==> Value() == old(Value())
      ensures old(machine.state) == Cleaning ==>
                machine.state == Faulted && machine.fault == CleanTimeout && machine.motor == Stopped
                && machine.phase == NoPhase && machine.deadline == 0
    {
      if machine.state != Cleaning {
        return;
      }
      machine.DoDispatch(StallOrTimeout, now);
    }

    method DoOccupancy(occupied: bool, now: Tick)
      modifies machine
      ensures machine.Value() == OccupancyStage(old(machine.Value()), occupied, prevOccupied, now)
    {
      hide Dispatch;
      if occupied != prevOccupied {
        if occupied {
          if machine.state == Cleaning {
            machine.DoDispatch(ProtectTrigger, now);
          } else {
            machine.DoDispatch(OccupiedOn, now);
          }
        } else {
          machine.DoDispatch(OccupiedOff, now);
        }
      }
    }

    method DoBinFull(inp: Input, now: Tick) returns (protect: bool)
      modifies machine
      ensures machine.Value() == BinStage(old(Value()), inp, now)
      ensures protect == ProtectNow(inp.occupied, old(machine.state))
    {
      hide Dispatch, ProtectNow;
      protect := ProtectNow(inp.occupied, machine.state);
      machine.DoSync(inp.occupied, inp.binFull, protect);
      if inp.binFull && !prevBinFull {
        machine.DoDispatch(BinFull, now);
      }
    }

    method DoClean(now: Tick)
      modifies this`cleanAsked, machine
      ensures machine.Value() == CleanStage(old(machine.Value()), old(cleanAsked), now)
      ensures !cleanAsked
    {
      hide Dispatch;
      if cleanAsked {
        cleanAsked := false;
        machine.DoDispatch(CleanStart, now);
      }
    }

    method DoReset(now: Tick)
      modifies this`resetAsked, machine
      ensures machine.Value() == ResetStage(old(machine.Value()), old(resetAsked), now)
      ensures !resetAsked
    {
      hide Dispatch;
      if resetAsked {
        resetAsked := false;
        machine.DoDispatch(Reset, now);
      }
    }

    /** Sensor_Logic_Running up to the hall poll. */
    method DoRequests(inp: Input, now: Tick) returns (protect: bool)
      modifies this`cleanAsked, this`resetAsked, machine
      ensures machine.Value() == AtHall(old(Value()), inp, now)
      ensures protect == ProtectNow(inp.occupied, old(machine.state))
      ensures !resetAsked
      ensures cleanAsked == (old(cleanAsked) && BinStage(old(Value()), inp, now).state == Faulted)
    {
      hide BinStage, OccupancyStage, CleanStage, ResetStage, ProtectNow;
      protect := DoBinFull(inp, now);
      if machine.state != Faulted {
        DoOccupancy(inp.occupied, now);
        DoClean(now);
      }
      DoReset(now);
    }

    method Run(inp: Input, now: Tick)
      modifies this, machine, sensor
      ensures Value() == Running(old(Value()), inp, now)
    {
      hide AtHall, Poll, Reported, Heard, TickStep, BinStage;
      var protect := DoRequests(inp, now);
      var position, _ := sensor.DoPoll(inp.bits, now);
      sensor.DoReport(machine, position, inp.binFull, protect, now);
      machine.DoTick(now);
      prevOccupied := inp.occupied;
      prevBinFull := inp.binFull;
    }
  }
}
