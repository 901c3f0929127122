/**
 The mailbox of ipc.c: a ring of machine words that stands for a bounded queue open at both ends, with
 threads waiting on either side.
 */
module Mailbox {

  import opened WaitList
  import opened Wakeup

  const ENTRY_MAX: nat := 65535

  /** The mails, next to be received first, and the threads waiting to receive and to send. */
  datatype State = State(size: nat, mails: seq<int>, receivers: Side, senders: Side)

  datatype Reply = Okay | Full | TimedOut | Suspended

  function Start(size: nat): State {
    State(size, [], AWAKE, AWAKE)
  }

  predicate Sound(s: State) {
    |s.mails| <= s.size
    && Served(s.receivers, |s.mails|) && Served(s.senders, s.size - |s.mails|)
  }

  /** How a blocked thread goes on: it gives up or sleeps, at some place on the list. */
  datatype Patience = GiveUp | Wait(at: nat)

  function Blocked(side: Side, t: nat, p: Patience): Side {
    match p
    case GiveUp => Leave(side, t)
    case Wait(at) => if at <= |side.waiting| then Sleep(side, t, at) else side
  }

  function SendReply(s: State, p: Patience): Reply {
    if |s.mails| < s.size then Okay else if p.GiveUp? then Full else Suspended
  }

  /** rt_mb_send_wait, once more round its loop. */
  function Send(s: State, t: nat, mail: int, p: Patience): State {
    if |s.mails| < s.size
    then s.(mails := s.mails + [mail], senders := Leave(s.senders, t), receivers := WakeFirst(s.receivers))
    else s.(senders := Blocked(s.senders, t, p))
  }

  /** rt_mb_urgent */
  function Urgent(s: State, mail: int): State {
    if |s.mails| < s.size then s.(mails := [mail] + s.mails, receivers := WakeFirst(s.receivers)) else s
  }

  function ReceiveReply(s: State, p: Patience): Reply {
    if s.mails != [] then Okay else if p.GiveUp? then TimedOut else Suspended
  }

  /** rt_mb_recv, once more round its loop. */
  function Receive(s: State, t: nat, p: Patience): State {
    if s.mails != []
    then s.(mails := s.mails[1..], receivers := Leave(s.receivers, t), senders := WakeFirst(s.senders))
    else s.(receivers := Blocked(s.receivers, t, p))
  }

  function Reset(s: State): State {
    s.(mails := [], receivers := Dismiss(s.receivers), senders := Dismiss(s.senders))
  }

  // ---------------------------------------------------------------- whole runs

  datatype Step = SendStep(thread: nat, mail: int, patience: Patience) | UrgentStep(mail: int)
                | ReceiveStep(thread: nat, patience: Patience) | ResetStep
                | ReceiverTimeout(at: nat) | SenderTimeout(at: nat)

  function Do(s: State, a: Step): State {
    match a
    case SendStep(t, mail, p) => if t in s.senders.waiting then s else Send(s, t, mail, p)
    case UrgentStep(mail) => Urgent(s, mail)
    case ReceiveStep(t, p) => if t in s.receivers.waiting then s else Receive(s, t, p)
    case ResetStep => Reset(s)
    case ReceiverTimeout(i) => if i < |s.receivers.waiting| then s.(receivers := Expire(s.receivers, i)) else s
    case SenderTimeout(i) => if i < |s.senders.waiting| then s.(senders := Expire(s.senders, i)) else s
  }

  function After(size: nat, run: seq<Step>): State {
    if run == [] then Start(size) else Do(After(size, run[..|run| - 1]), run[|run| - 1])
  }

  lemma BlockedServed(side: Side, t: nat, p: Patience)
    requires Served(side, 0) && t !in side.waiting
    ensures Served(Blocked(side, t, p), 0)
  {
    match p {
      case GiveUp => GiveUpServed(side, t);
      case Wait(at) => if at <= |side.waiting| { SleepServed(side, t, at); }
    }
  }

  lemma DoSound(s: State, a: Step)
    requires Sound(s)
    ensures Sound(Do(s, a))
  {
    hide Served, Leave, WakeFirst, Blocked, Expire, Dismiss;
    match a {
      case SendStep(t, mail, p) =>
        if t !in s.senders.waiting {
          if |s.mails| < s.size {
            TakeServed(s.senders, t, s.size - |s.mails|);
            WakeServed(s.receivers, |s.mails|);
          } else {
            BlockedServed(s.senders, t, p);
          }
        }
      case UrgentStep(mail) =>
        if |s.mails| < s.size {
          UrgentServed(s.senders, s.size - |s.mails|);
          WakeServed(s.receivers, |s.mails|);
        }
      case ReceiveStep(t, p) =>
        if t !in s.receivers.waiting {
          if s.mails != [] {
            TakeServed(s.receivers, t, |s.mails|);
            WakeServed(s.senders, s.size - |s.mails|);
          } else {
            BlockedServed(s.receivers, t, p);
          }
        }
      case ResetStep =>
        ServedApart(s.receivers, |s.mails|);
        ServedApart(s.senders, s.size - |s.mails|);
        DismissServed(s.receivers, 0);
        DismissServed(s.senders, s.size);
      case ReceiverTimeout(i) =>
        if i < |s.receivers.waiting| { ExpireServed(s.receivers, i, |s.mails|); }
      case SenderTimeout(i) =>
        if i < |s.senders.waiting| { ExpireServed(s.senders, i, s.size - |s.mails|); }
    }
  }

  /** Thread t, for which there is nothing, goes on or sleeps as it is willing to. */
  predicate Turned(s: Side, r: Side, t: nat, p: Patience) {
    match p
    case GiveUp => WentOn(s, r, t)
    case Wait(at) => at <= |s.waiting| ==> FellAsleep(s, r, t, at)
  }

  /**
   What each call does and answers.  A mail is accepted if and only if there is room; it joins the end, or the
   front if urgent, and the first receiver is resumed.  A mail is received if and only if there is one; it is the
   first, and the first sender is resumed.  Who finds nothing gives up or sleeps.
   */
  lemma CallsMeaning(s: State, t: nat, mail: int, p: Patience)
    requires t !in s.senders.waiting && t !in s.receivers.waiting
    ensures var r, reply := Do(s, SendStep(t, mail, p)), SendReply(s, p);
            && (reply == Okay <==> |s.mails| < s.size) && (reply == Full <==> |s.mails| >= s.size && p.GiveUp?)
            && (reply == Okay ==> r == State(s.size, s.mails + [mail], r.receivers, r.senders)
                                  && FirstResumed(s.receivers, r.receivers) && WentOn(s.senders, r.senders, t))
            && (reply != Okay ==> r == s.(senders := r.senders) && Turned(s.senders, r.senders, t, p))
    ensures var r, reply := Do(s, UrgentStep(mail)), SendReply(s, GiveUp);
            && (reply == Okay ==> r == State(s.size, [mail] + s.mails, r.receivers, s.senders)
                                  && FirstResumed(s.receivers, r.receivers))
            && (reply != Okay ==> r == s)
    ensures var r, reply := Do(s, ReceiveStep(t, p)), ReceiveReply(s, p);
            && (reply == Okay <==> s.mails != []) && (reply == TimedOut <==> s.mails == [] && p.GiveUp?)
            && (reply == Okay ==> s.mails == [s.mails[0]] + r.mails && r.size == s.size
                                  && FirstResumed(s.senders, r.senders) && WentOn(s.receivers, r.receivers, t))
            && (reply != Okay ==> r == s.(receivers := r.receivers) && Turned(s.receivers, r.receivers, t, p))
  {
    WakesFirst(s.receivers);
    WakesFirst(s.senders);
    hide WakeFirst, FirstResumed;
    if s.mails != [] {
      assert s.mails == [s.mails[0]] + s.mails[1..];
    }
  }

  /** A reset drops all mails and leaves nobody asleep; a timeout takes one sleeper off its list. */
  lemma OthersMeaning(s: State, i: nat)
    ensures Do(s, ResetStep) == State(s.size, [], Side([], s.receivers.woken), Side([], s.senders.woken))
    ensures var r := Do(s, ReceiverTimeout(i));
            if i < |s.receivers.waiting| then r == s.(receivers := r.receivers) && LeftOut(s.receivers, r.receivers, i) else r == s
    ensures var r := Do(s, SenderTimeout(i));
            if i < |s.senders.waiting| then r == s.(senders := r.senders) && LeftOut(s.senders, r.senders, i) else r == s
  {
  }

  lemma ServedApart(side: Side, available: nat)
    requires Served(side, available)
    ensures Apart(side)
  {
  }

  /** An urgent mail takes a place that no resumed sender needs to have had. */
  lemma UrgentServed(side: Side, available: nat)
    requires Served(side, available) && available > 0
    ensures Served(side, available - 1)
  {
  }

  /** In every run, with any number of threads on both sides: the mailbox is never overfull, and with no
      resumed thread still to run nobody waits for a mail that is there or for room that is there. */
  lemma {:induction false} AlwaysSound(size: nat, run: seq<Step>)
    ensures Sound(After(size, run))
    ensures var s := After(size, run);
            (s.receivers.woken == {} ==> s.receivers.waiting == [] || s.mails == [])
            && (s.senders.woken == {} ==> s.senders.waiting == [] || |s.mails| == s.size)
  {
    if run != [] {
      AlwaysSound(size, run[..|run| - 1]);
      DoSound(After(size, run[..|run| - 1]), run[|run| - 1]);
    }
    SizeKept(size, run);
    var s := After(size, run);
    if s.receivers.woken == {} { NobodySleepsOnPlenty(s.receivers, |s.mails|); }
    if s.senders.woken == {} { NobodySleepsOnPlenty(s.senders, s.size - |s.mails|); }
  }

  lemma {:induction false} SizeKept(size: nat, run: seq<Step>)
    ensures After(size, run).size == size
  {
    if run != [] {
      SizeKept(size, run[..|run| - 1]);
    }
  }

  // ---------------------------------------------------------------- what becomes of the mails

  /** What a step takes out of the box for a receiver, puts in, and throws away. */
  function Got(s: State, a: Step): seq<int> {
    if a.ReceiveStep? && a.thread !in s.receivers.waiting && s.mails != [] then [s.mails[0]] else []
  }

  function Put(s: State, a: Step): seq<int> {
    match a
    case SendStep(t, mail, _) => if t !in s.senders.waiting && |s.mails| < s.size then [mail] else []
    case UrgentStep(mail) => if |s.mails| < s.size then [mail] else []
    case _ => []
  }

  function Lost(s: State, a: Step): seq<int> {
    if a.ResetStep? then s.mails else []
  }

  /** All mails received in a run, in the order in which they were received. */
  function Received(size: nat, run: seq<Step>): seq<int> {
    if run == [] then []
    else Received(size, run[..|run| - 1]) + Got(After(size, run[..|run| - 1]), run[|run| - 1])
  }

  /** All mails whose sending succeeded, in the order in which they were sent. */
  function Accepted(size: nat, run: seq<Step>): seq<int> {
    if run == [] then []
    else Accepted(size, run[..|run| - 1]) + Put(After(size, run[..|run| - 1]), run[|run| - 1])
  }

  function Dropped(size: nat, run: seq<Step>): seq<int> {
    if run == [] then []
    else Dropped(size, run[..|run| - 1]) + Lost(After(size, run[..|run| - 1]), run[|run| - 1])
  }

  lemma StepConserves(s: State, a: Step)
    ensures multiset(s.mails) + multiset(Put(s, a)) == multiset(Got(s, a)) + multiset(Do(s, a).mails) + multiset(Lost(s, a))
  {
    if a.UrgentStep? || a.ResetStep? {
      hide Leave, WakeFirst, Blocked, Expire, Dismiss;
      var none: seq<int> := [];
      assert multiset(none) == multiset{};
    } else {
      StepOrders(s, a);
      assert Lost(s, a) == [];
      hide Do, Put, Got, Lost;
      assert multiset(s.mails + Put(s, a)) == multiset(Got(s, a) + Do(s, a).mails);
    }
  }

  lemma StepOrders(s: State, a: Step)
    requires !a.UrgentStep? && !a.ResetStep?
    ensures s.mails + Put(s, a) == Got(s, a) + Do(s, a).mails
  {
    hide Leave, WakeFirst, Blocked, Expire, Dismiss;
    if Got(s, a) != [] {
      assert s.mails == [s.mails[0]] + s.mails[1..];
    }
  }

  /** In every run each mail that was sent has been received once, is still in the box, or was dropped by a reset. */
  lemma {:induction false} AlwaysConserved(size: nat, run: seq<Step>)
    ensures multiset(Accepted(size, run))
            == multiset(Received(size, run)) + multiset(After(size, run).mails) + multiset(Dropped(size, run))
  {
    hide Do, Put, Got, Lost;
    if run != [] {
      var past, a := run[..|run| - 1], run[|run| - 1];
      AlwaysConserved(size, past);
      var s := After(size, past);
      StepConserves(s, a);
      Balance(Accepted(size, past), Put(s, a), Received(size, past), Got(s, a), s.mails, After(size, run).mails,
              Dropped(size, past), Lost(s, a));
    }
  }

  lemma Balance(accepted: seq<int>, put: seq<int>, received: seq<int>, got: seq<int>,
                before: seq<int>, after: seq<int>, dropped: seq<int>, lost: seq<int>)
    requires multiset(accepted) == multiset(received) + multiset(before) + multiset(dropped)
    requires multiset(before) + multiset(put) == multiset(got) + multiset(after) + multiset(lost)
    ensures multiset(accepted + put) == multiset(received + got) + multiset(after) + multiset(dropped + lost)
  {
    assert multiset(accepted + put) == multiset(accepted) + multiset(put);
    assert multiset(received + got) == multiset(received) + multiset(got);
    assert multiset(dropped + lost) == multiset(dropped) + multiset(lost);
    assert multiset(accepted) + multiset(put) == multiset(received) + multiset(dropped) + (multiset(before) + multiset(put));
  }

  /** With neither urgent mails nor resets, mails are received in exactly the order in which they were sent. */
  lemma {:induction false} FirstInFirstOut(size: nat, run: seq<Step>)
    requires forall i :: 0 <= i < |run| ==> !run[i].UrgentStep? && !run[i].ResetStep?
    ensures Accepted(size, run) == Received(size, run) + After(size, run).mails
  {
    hide Do, Put, Got, Lost;
    if run != [] {
      var past, a := run[..|run| - 1], run[|run| - 1];
      FirstInFirstOut(size, past);
      StepOrders(After(size, past), a);
      Reassociate(Received(size, past), After(size, past).mails, Put(After(size, past), a),
                  Got(After(size, past), a), After(size, run).mails);
    }
  }

  lemma Reassociate(a: seq<int>, b: seq<int>, c: seq<int>, d: seq<int>, e: seq<int>)
    requires b + c == d + e
    ensures a + b + c == a + d + e
  {
    assert a + b + c == a + (b + c);
    assert a + d + e == a + (d + e);
  }

  lemma OnlyBehind(s: State, a: Step)
    requires !a.UrgentStep? && !a.ResetStep? && !a.ReceiveStep?
    ensures s.mails <= Do(s, a).mails
  {
  }

  /** However many mails are sent behind it, an urgent mail is the next to be received. */
  lemma {:induction false} UrgentIsNext(size: nat, run: seq<Step>, mail: int, more: seq<Step>)
    requires |After(size, run).mails| < size
    requires forall i :: 0 <= i < |more| ==> !more[i].UrgentStep? && !more[i].ResetStep? && !more[i].ReceiveStep?
    ensures [mail] + After(size, run).mails <= After(size, run + [UrgentStep(mail)] + more).mails
  {
    var all := run + [UrgentStep(mail)] + more;
    if more == [] {
      assert all[..|all| - 1] == run && all[|all| - 1] == UrgentStep(mail);
      SizeKept(size, run);
    } else {
      var fewer := more[..|more| - 1];
      assert all[..|all| - 1] == run + [UrgentStep(mail)] + fewer && all[|all| - 1] == more[|more| - 1];
      UrgentIsNext(size, run, mail, fewer);
      hide Do;
      OnlyBehind(After(size, run + [UrgentStep(mail)] + fewer), more[|more| - 1]);
    }
  }

  // ---------------------------------------------------------------- the ring in place

  /** The place of the i-th mail in a ring of n words read from `out`. */
  function Slot(out: nat, i: nat, n: nat): (k: nat)
    requires out < n && i <= n
    ensures k < n
  {
    if out + i < n then out + i else out + i - n
  }

  class Box {
    const pool: array<int>
    var inOffset: nat
    var outOffset: nat
    var entry: nat
    var receivers: Side
    var senders: Side
    ghost var mails: seq<int>

    ghost predicate Valid()
      reads this, pool
    {
      pool.Length <= ENTRY_MAX && entry == |mails| <= pool.Length
      && (if pool.Length == 0 then inOffset == outOffset == 0
          else Holds(pool[..], outOffset, mails) && inOffset == Slot(outOffset, entry, pool.Length))
    }

    ghost function Value(): State
      reads this, pool
    {
      State(pool.Length, mails, receivers, senders)
    }

    constructor (size: nat)
      requires size <= ENTRY_MAX
      ensures fresh(pool) && Valid() && Value() == Start(size)
    {
      pool := new int[size];
      inOffset, outOffset, entry := 0, 0, 0;
      receivers, senders, mails := AWAKE, AWAKE, [];
    }

    method DoSend(t: nat, mail: int, p: Patience) returns (reply: Reply)
      requires Valid() && t !in senders.waiting
      modifies this, pool
      ensures Valid() && Value() == Send(old(Value()), t, mail, p) && reply == SendReply(old(Value()), p)
    {
      hide Holds, Leave, WakeFirst, Blocked;
      if entry == pool.Length {
        senders := Blocked(senders, t, p);
        return if p.GiveUp? then Full else Suspended;
      }
      PutLast(pool[..], outOffset, mails, mail);
      pool[inOffset] := mail;
      inOffset := inOffset + 1;
      if inOffset >= pool.Length {
        inOffset := 0;
      }
      if entry < ENTRY_MAX {
        entry := entry + 1;
      } else {
        return Full;
      }
      senders := Leave(senders, t);
      mails := mails + [mail];
      receivers := WakeFirst(receivers);
      reply := Okay;
    }

    method DoUrgent(mail: int) returns (reply: Reply)
      requires Valid()
      modifies this, pool
      ensures Valid() && Value() == Urgent(old(Value()), mail) && reply == SendReply(old(Value()), GiveUp)
    {
      hide Holds, Leave, WakeFirst, Blocked;
      if entry == pool.Length {
        return Full;
      }
      PutFirst(pool[..], outOffset, mails, mail);
      if outOffset > 0 {
        outOffset := outOffset - 1;
      } else {
        outOffset := pool.Length - 1;
      }
      pool[outOffset] := mail;
      entry := entry + 1;
      mails := [mail] + mails;
      receivers := WakeFirst(receivers);
      reply := Okay;
    }

    method DoReceive(t: nat, p: Patience) returns (reply: Reply, mail: int)
      requires Valid() && t !in receivers.waiting
      modifies this
      ensures Valid() && Value() == Receive(old(Value()), t, p) && reply == ReceiveReply(old(Value()), p)
      ensures reply == Okay ==> old(mails) != [] && mail == old(mails[0])
    {
      hide Holds, Leave, WakeFirst, Blocked;
      mail := 0;
      if entry == 0 {
        receivers := Blocked(receivers, t, p);
        return if p.GiveUp? then TimedOut else Suspended, mail;
      }
      GetFirst(pool[..], outOffset, mails);
      mail := pool[outOffset];
      outOffset := outOffset + 1;
      if outOffset >= pool.Length {
        outOffset := 0;
      }
      if entry > 0 {
        entry := entry - 1;
      }
      receivers := Leave(receivers, t);
      mails := mails[1..];
      senders := WakeFirst(senders);
      reply := Okay;
    }

    method DoReset()
      requires Valid()
      modifies this
      ensures Valid() && Value() == Reset(old(Value()))
    {
      receivers := Dismiss(receivers);
      senders := Dismiss(senders);
      entry := 0;
      inOffset := 0;
      outOffset := 0;
      mails := [];
    }
  }

  predicate Stored(pool: seq<int>, out: nat, mails: seq<int>, i: nat)
    requires out < |pool| && i < |mails| <= |pool|
  {
    pool[Slot(out, i, |pool|)] == mails[i]
  }

  /** The ring holds the mails in order from `out` on. */
  ghost predicate Holds(pool: seq<int>, out: nat, mails: seq<int>) {
    out < |pool| && |mails| <= |pool| && forall i: nat :: i < |mails| ==> Stored(pool, out, mails, i)
  }

  function Next(out: nat, n: nat): nat {
    if out + 1 >= n then 0 else out + 1
  }

  function Previous(out: nat, n: nat): nat
    requires n > 0
  {
    if out > 0 then out - 1 else n - 1
  }

  lemma PutLast(pool: seq<int>, out: nat, mails: seq<int>, mail: int)
    requires Holds(pool, out, mails) && |mails| < |pool|
    ensures out < |pool| && Holds(pool[Slot(out, |mails|, |pool|) := mail], out, mails + [mail])
    ensures Slot(out, |mails| + 1, |pool|) == Next(Slot(out, |mails|, |pool|), |pool|)
  {
    var pool2, mails2 := pool[Slot(out, |mails|, |pool|) := mail], mails + [mail];
    forall i: nat | i < |mails2| ensures Stored(pool2, out, mails2, i) {
      if i < |mails| { assert Stored(pool, out, mails, i); }
    }
  }

  lemma PutFirst(pool: seq<int>, out: nat, mails: seq<int>, mail: int)
    requires Holds(pool, out, mails) && |mails| < |pool|
    ensures out < |pool| && Previous(out, |pool|) < |pool|
            && Holds(pool[Previous(out, |pool|) := mail], Previous(out, |pool|), [mail] + mails)
    ensures Slot(Previous(out, |pool|), |mails| + 1, |pool|) == Slot(out, |mails|, |pool|)
  {
    var out2 := Previous(out, |pool|);
    var pool2, mails2 := pool[out2 := mail], [mail] + mails;
    forall i: nat | i < |mails2| ensures Stored(pool2, out2, mails2, i) {
      if i > 0 { assert Stored(pool, out, mails, i - 1); }
    }
  }

  lemma GetFirst(pool: seq<int>, out: nat, mails: seq<int>)
    requires Holds(pool, out, mails) && mails != []
    ensures out < |pool| && pool[out] == mails[0] && Next(out, |pool|) < |pool|
    ensures Holds(pool, Next(out, |pool|), mails[1..])
    ensures |mails| <= |pool| && Slot(Next(out, |pool|), |mails| - 1, |pool|) == Slot(out, |mails|, |pool|)
  {
    assert Stored(pool, out, mails, 0);
    forall i: nat | i < |mails| - 1 ensures Stored(pool, Next(out, |pool|), mails[1..], i) {
      assert Stored(pool, out, mails, i + 1);
    }
  }
}
