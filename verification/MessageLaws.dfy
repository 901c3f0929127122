/** What each step of a message queue call does, and what that means for the messages of a whole run. */
module MessageLaws {

  import opened WaitList
  import opened Wakeup
  import B = Mailbox
  import opened MessageQueue
  import opened MessageRuns

  /** Thread t may begin a call: it is in the middle of none and does not sleep. */
  predicate Idle(s: System, t: nat) {
    t !in s.flights && t !in s.core.senders.waiting && t !in s.core.receivers.waiting
  }

  /** Thread t has taken the first free node for its message. */
  predicate Reserves(s: System, r: System, t: nat, message: Buffer, urgent: bool) {
    && s.core.free != [] && t in r.flights && r.flights == s.flights[t := Sending(s.core.free[0], message, urgent)]
    && s.core.free == [s.core.free[0]] + r.core.free
    && r.core == s.core.(free := r.core.free, senders := r.core.senders) && WentOn(s.core.senders, r.core.senders, t)
  }

  /**
   How a call begins.  A send gets the first free node, if there is one and the message fits in a node; a receive gets
   the first message, if there is one; and who finds none gives up or sleeps.
   */
  lemma BeginMeaning(s: System, t: nat, message: Buffer, p: B.Patience)
    requires Sound(s)
    ensures var r := Do(s, StartSend(t, message, p));
            if !Idle(s, t) || |message| > s.core.width then r == s
            else if s.core.free != [] then Reserves(s, r, t, message, false)
            else r == s.(core := s.core.(senders := r.core.senders)) && B.Turned(s.core.senders, r.core.senders, t, p)
    ensures var r := Do(s, StartUrgent(t, message));
            if Idle(s, t) && |message| <= s.core.width && s.core.free != [] then Reserves(s, r, t, message, true) else r == s
    ensures var r := Do(s, StartReceive(t, p));
            if !Idle(s, t) then r == s
            else if s.core.queue == [] then
              r == s.(core := s.core.(receivers := r.core.receivers)) && B.Turned(s.core.receivers, r.core.receivers, t, p)
            else
              && s.core.queue == [s.core.queue[0]] + r.core.queue && s.core.queue[0] < |s.core.data|
              && r.flights == s.flights[t := Receiving(s.core.queue[0], s.core.data[s.core.queue[0]])]
              && r.core == s.core.(queue := r.core.queue, receivers := r.core.receivers)
              && WentOn(s.core.receivers, r.core.receivers, t)
  {
    OffInRange(s);
    hide Partition, Served;
    if s.core.free != [] {
      assert s.core.free == [s.core.free[0]] + s.core.free[1..];
    }
    if s.core.queue != [] {
      assert s.core.queue == [s.core.queue[0]] + s.core.queue[1..];
    }
  }

  /** The copy changes the sender's own node and no other: its beginning is the message now. */
  lemma CopyMeaning(s: System, t: nat)
    requires Sound(s) && t in s.flights
    ensures var r, f := Do(s, Copy(t)), s.flights[t];
            match f
            case Sending(node, message, urgent) =>
              && node < |s.core.data| && |message| <= |s.core.data[node]|
              && r.flights == s.flights[t := Sent(node, message, urgent)]
              && r.core == s.core.(data := s.core.data[node := message + s.core.data[node][|message|..]])
            case Receiving(node, due) =>
              node < |s.core.data| && r == s.(flights := s.flights[t := Received(node, s.core.data[node], due)])
            case _ => r == s
  {
    assert Off(s.core, s.flights[t].node) && Kept(s.core, s.flights[t]);
    hide Partition, Served;
  }

  /**
   The last step links the sender's node at the end, or at the front if urgent, and resumes the first receiver; or
   it gives the receiver's node back and resumes the first sender.
   */
  lemma FinishMeaning(s: System, t: nat)
    requires Sound(s) && t in s.flights
    ensures var r, f := Do(s, Finish(t)), s.flights[t];
            match f
            case Sent(node, _, urgent) =>
              && r.flights == s.flights - {t} && FirstResumed(s.core.receivers, r.core.receivers)
              && r.core == s.core.(queue := if urgent then [node] + s.core.queue else s.core.queue + [node],
                                   receivers := r.core.receivers)
            case Received(node, _, _) =>
              && r.flights == s.flights - {t} && FirstResumed(s.core.senders, r.core.senders)
              && r.core == s.core.(free := [node] + s.core.free, senders := r.core.senders)
            case _ => r == s
  {
    WakesFirst(s.core.receivers);
    WakesFirst(s.core.senders);
    hide Partition, Served, WakeFirst, FirstResumed;
  }

  /** A reset frees the nodes of all messages that wait and leaves nobody asleep; a timeout takes one sleeper off. */
  lemma OtherMoves(s: System, i: nat)
    requires Sound(s)
    ensures var r := Do(s, ResetAll);
            && r.flights == s.flights && r.core.queue == [] && r.core.data == s.core.data && r.core.width == s.core.width
            && (forall n: nat :: n in r.core.free <==> n in s.core.free || n in s.core.queue)
            && r.core.receivers == Side([], s.core.receivers.woken) && r.core.senders == Side([], s.core.senders.woken)
    ensures var r := Do(s, ReceiverExpires(i));
            if i < |s.core.receivers.waiting|
            then r == s.(core := s.core.(receivers := r.core.receivers)) && LeftOut(s.core.receivers, r.core.receivers, i)
            else r == s
    ensures var r := Do(s, SenderExpires(i));
            if i < |s.core.senders.waiting|
            then r == s.(core := s.core.(senders := r.core.senders)) && LeftOut(s.core.senders, r.core.senders, i)
            else r == s
  {
    ReversedMembers(s.core.queue);
    hide Partition, Served, Reversed;
  }

  // ---------------------------------------------------------------- the messages of a run

  /** The message that a step puts into the queue, and the one that it takes out. */
  function PutIn(s: System, a: Move): seq<Buffer> {
    if a.Finish? && a.thread in s.flights && s.flights[a.thread].Sent? && s.flights[a.thread].node < |s.core.data|
    then [s.core.data[s.flights[a.thread].node]] else []
  }

  function TakenOut(s: System, a: Move): seq<Buffer> {
    if a.StartReceive? && Idle(s, a.thread) && s.core.queue != [] && s.core.queue[0] < |s.core.data|
    then [s.core.data[s.core.queue[0]]] else []
  }

  function AllIn(count: nat, width: nat, fill: Buffer, run: seq<Move>): seq<Buffer> {
    if run == [] then []
    else AllIn(count, width, fill, run[..|run| - 1]) + PutIn(After(count, width, fill, run[..|run| - 1]), run[|run| - 1])
  }

  function AllOut(count: nat, width: nat, fill: Buffer, run: seq<Move>): seq<Buffer> {
    if run == [] then []
    else AllOut(count, width, fill, run[..|run| - 1]) + TakenOut(After(count, width, fill, run[..|run| - 1]), run[|run| - 1])
  }

  predicate NeverUrgent(s: System) {
    forall t :: t in s.flights ==> (s.flights[t].Sent? || s.flights[t].Sending? ==> !s.flights[t].urgent)
  }

  lemma UrgentKept(s: System, a: Move)
    requires NeverUrgent(s) && !a.StartUrgent?
    ensures NeverUrgent(Do(s, a))
  {
  }

  lemma StepInOrder(s: System, a: Move)
    requires Sound(s) && NeverUrgent(s) && !a.StartUrgent? && !a.ResetAll?
    ensures InRange(s.core.queue, |s.core.data|) && InRange(Do(s, a).core.queue, |Do(s, a).core.data|)
    ensures Contents(s.core) + PutIn(s, a) == TakenOut(s, a) + Contents(Do(s, a).core)
  {
    OffInRange(s);
    DoKeeps(s, a);
    SoundParts(Do(s, a));
    OffInRange(Do(s, a));
    SoundParts(s);
    hide Sound, Do, InRange, Partition, Contents;
    DequeInOrder(s, Do(s, a), a);
  }

  lemma SoundParts(s: System)
    requires Sound(s)
    ensures Partition(s)
  {
  }

  /** A step that treats the messages as a deque, and nothing urgent among them, treats them as a queue. */
  lemma DequeInOrder(s: System, r: System, a: Move)
    requires InRange(s.core.queue, |s.core.data|) && InRange(r.core.queue, |r.core.data|) && AsDeque(s, r, a)
    requires NeverUrgent(s) && !a.StartUrgent? && !a.ResetAll?
    ensures Contents(s.core) + PutIn(s, a) == TakenOut(s, a) + Contents(r.core)
  {
    var q := Contents(s.core);
    if s.core.queue != [] {
      FirstContents(s.core);
      assert q == [q[0]] + q[1..];
    }
    hide Contents, InRange;
    if !a.Finish? && !a.StartReceive? {
      assert q + [] == q && [] + q == q;
    }
  }

  /**
   With neither urgent messages nor resets, the messages leave the queue in exactly the order in which their last
   step put them there, however the calls of any number of threads interleave.
   */
  lemma {:induction false} InOrder(count: nat, width: nat, fill: Buffer, run: seq<Move>)
    requires |fill| == width && forall i :: 0 <= i < |run| ==> !run[i].StartUrgent? && !run[i].ResetAll?
    ensures var s := After(count, width, fill, run);
            && InRange(s.core.queue, |s.core.data|) && NeverUrgent(s)
            && AllIn(count, width, fill, run) == AllOut(count, width, fill, run) + Contents(s.core)
  {
    AlwaysSound(count, width, fill, run);
    OffInRange(After(count, width, fill, run));
    if run != [] {
      var past, a := run[..|run| - 1], run[|run| - 1];
      InOrder(count, width, fill, past);
      AlwaysSound(count, width, fill, past);
      var s := After(count, width, fill, past);
      UrgentKept(s, a);
      StepInOrder(s, a);
      hide Do, PutIn, TakenOut, Contents, Sound, NeverUrgent;
      Regroup(AllOut(count, width, fill, past), Contents(s.core), PutIn(s, a), TakenOut(s, a), Contents(After(count, width, fill, run).core));
    }
  }

  lemma Regroup(a: seq<Buffer>, b: seq<Buffer>, c: seq<Buffer>, d: seq<Buffer>, e: seq<Buffer>)
    requires b + c == d + e
    ensures a + b + c == a + d + e
  {
    assert a + b + c == a + (b + c);
    assert a + d + e == a + (d + e);
  }
}
