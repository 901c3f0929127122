/**
 The message queue under any number of senders, urgent senders and receivers whose steps interleave, with
 resets and timeouts in between.
 */
module MessageRuns {

  import opened WaitList
  import opened Wakeup
  import opened Mailbox
  import opened MessageQueue

  /**
   A thread between the first and the last step of a call, with the node it holds.  `due` is what the node
   held when it was taken off the list; the program does not store it.
   */
  datatype Flight = Sending(node: nat, message: Buffer, urgent: bool)
                  | Sent(node: nat, message: Buffer, urgent: bool)
                  | Receiving(node: nat, due: Buffer)
                  | Received(node: nat, got: Buffer, due: Buffer)

  datatype System = System(core: Core, flights: map<nat, Flight>)

  datatype Move = StartSend(thread: nat, message: Buffer, patience: Patience)
                | StartUrgent(thread: nat, message: Buffer)
                | StartReceive(thread: nat, patience: Patience)
                | Copy(thread: nat)
                | Finish(thread: nat)
                | ResetAll
                | ReceiverExpires(at: nat)
                | SenderExpires(at: nat)

  /** May thread t begin a call, or look again after being resumed? */
  predicate Free(s: System, t: nat) {
    t !in s.flights && t !in s.core.senders.waiting && t !in s.core.receivers.waiting
  }

  function Begin(s: System, a: Move): System {
    var c := s.core;
    match a
    case StartSend(t, message, p) =>
      if !Free(s, t) || |message| > c.width then s
      else if c.free == [] then s.(core := BlockedSender(c, t, p))
      else System(Reserved(c, t), s.flights[t := Sending(c.free[0], message, false)])
    case StartUrgent(t, message) =>
      if !Free(s, t) || |message| > c.width || c.free == [] then s
      else System(Reserved(c, t), s.flights[t := Sending(c.free[0], message, true)])
    case StartReceive(t, p) =>
      if !Free(s, t) then s
      else if c.queue == [] then s.(core := BlockedReceiver(c, t, p))
      else if c.queue[0] < |c.data|
      then System(Popped(c, t), s.flights[t := Receiving(c.queue[0], c.data[c.queue[0]])])
      else s
    case _ => s
  }

  /** The middle step, with interrupts enabled: the copy into the node or out of it. */
  function Copied(s: System, t: nat): System {
    if t !in s.flights then s
    else
      match s.flights[t]
      case Sending(node, message, urgent) =>
        if node < |s.core.data| && |message| <= |s.core.data[node]|
        then System(Filled(s.core, node, message), s.flights[t := Sent(node, message, urgent)]) else s
      case Receiving(node, due) =>
        if node < |s.core.data| then s.(flights := s.flights[t := Received(node, s.core.data[node], due)]) else s
      case _ => s
  }

  function Finished(s: System, t: nat): System {
    if t !in s.flights then s
    else
      match s.flights[t]
      case Sent(node, _, urgent) => System(Posted(s.core, node, urgent), s.flights - {t})
      case Received(node, _, _) => System(GivenBack(s.core, node), s.flights - {t})
      case _ => s
  }

  function Do(s: System, a: Move): System {
    match a
    case Copy(t) => Copied(s, t)
    case Finish(t) => Finished(s, t)
    case ResetAll => s.(core := Emptied(s.core))
    case ReceiverExpires(i) =>
      if i < |s.core.receivers.waiting|
      then s.(core := s.core.(receivers := Expire(s.core.receivers, i))) else s
    case SenderExpires(i) =>
      if i < |s.core.senders.waiting|
      then s.(core := s.core.(senders := Expire(s.core.senders, i))) else s
    case _ => Begin(s, a)
  }

  // ---------------------------------------------------------------- who holds which node

  predicate InFlight(s: System, n: nat) {
    exists t :: t in s.flights && s.flights[t].node == n
  }

  /** Every node is on exactly one of the two lists or in the hands of exactly one thread. */
  ghost predicate Partition(s: System) {
    var c := s.core;
    Distinct(c.free) && Distinct(c.queue) && InRange(c.free, |c.data|) && InRange(c.queue, |c.data|)
    && Disjoint(c.free, c.queue)
    && (forall t :: t in s.flights ==> Off(c, s.flights[t].node))
    && (forall t, u :: t in s.flights && u in s.flights && t != u ==> s.flights[t].node != s.flights[u].node)
    && (forall n :: 0 <= n < |c.data| ==> n in c.free || n in c.queue || InFlight(s, n))
  }

  predicate Off(c: Core, n: nat) {
    n < |c.data| && n !in c.free && n !in c.queue
  }

  /** What each flight says about the contents of its node. */
  predicate Kept(c: Core, f: Flight)
    requires f.node < |c.data|
  {
    match f
    case Sending(_, message, _) => |message| <= c.width
    case Sent(node, message, _) => |message| <= c.width && message <= c.data[node]
    case Receiving(node, due) => c.data[node] == due
    case Received(node, got, due) => got == due
  }

  ghost predicate Sound(s: System) {
    Partition(s) && (forall n :: 0 <= n < |s.core.data| ==> |s.core.data[n]| == s.core.width)
    && (forall t :: t in s.flights ==> Kept(s.core, s.flights[t]))
    && Served(s.core.receivers, |s.core.queue|) && Served(s.core.senders, |s.core.free|)
  }

  /** The messages waiting in the queue, in the order in which they will be received. */
  function Contents(c: Core): seq<Buffer>
    requires InRange(c.queue, |c.data|)
  {
    seq(|c.queue|, i requires 0 <= i < |c.queue| => c.data[c.queue[i]])
  }

  // ---------------------------------------------------------------- every step keeps the queue sound

  /** A system that differs in its waiting threads only. */
  predicate SameNodes(s: System, r: System) {
    r.flights == s.flights && r.core.width == s.core.width && r.core.free == s.core.free
    && r.core.queue == s.core.queue && r.core.data == s.core.data
  }

  lemma SameNodesSound(s: System, r: System)
    requires Sound(s) && SameNodes(s, r)
    requires Served(r.core.receivers, |r.core.queue|) && Served(r.core.senders, |r.core.free|)
    ensures Sound(r)
  {
    hide Served, Distinct, InRange, Disjoint;
    assert forall n :: InFlight(s, n) ==> InFlight(r, n);
  }

  lemma TailApart(a: seq<nat>, b: seq<nat>)
    requires a != [] && Distinct(a) && Disjoint(a, b)
    ensures Distinct(a[1..]) && Disjoint(a[1..], b) && a[0] !in a[1..] && a[0] !in b
    ensures forall n :: n in a <==> n == a[0] || n in a[1..]
  {
    assert forall i :: 0 <= i < |a| - 1 ==> a[1..][i] == a[i + 1];
  }

  /** A node leaves a list for the hands of thread t. */
  lemma TakePartition(s: System, r: System, t: nat, f: Flight)
    requires Partition(s) && t !in s.flights && r.flights == s.flights[t := f] && r.core.data == s.core.data
    requires (s.core.free != [] && f.node == s.core.free[0] && r.core.free == s.core.free[1..] && r.core.queue == s.core.queue)
             || (s.core.queue != [] && f.node == s.core.queue[0] && r.core.queue == s.core.queue[1..] && r.core.free == s.core.free)
    ensures Partition(r)
  {
    if s.core.free != [] && f.node == s.core.free[0] {
      TailApart(s.core.free, s.core.queue);
    } else {
      assert Disjoint(s.core.queue, s.core.free);
      TailApart(s.core.queue, s.core.free);
    }
    hide Distinct, Disjoint;
    forall n | 0 <= n < |r.core.data| ensures n in r.core.free || n in r.core.queue || InFlight(r, n) {
      if InFlight(s, n) {
        var u :| u in s.flights && s.flights[u].node == n;
        assert u in r.flights && r.flights[u].node == n;
      }
      if n == f.node {
        assert t in r.flights && r.flights[t].node == n;
      }
    }
  }

  lemma JoinApart(a: seq<nat>, b: seq<nat>, n: nat)
    requires Distinct(a) && Disjoint(a, b) && n !in a && n !in b
    ensures Distinct([n] + a) && Disjoint([n] + a, b) && Distinct(a + [n]) && Disjoint(a + [n], b)
    ensures forall x :: x in [n] + a <==> x == n || x in a
    ensures forall x :: x in a + [n] <==> x == n || x in a
  {
    assert forall i :: 1 <= i < |a| + 1 ==> ([n] + a)[i] == a[i - 1];
  }

  /** Thread t puts its node on a list. */
  lemma GivePartition(s: System, r: System, t: nat)
    requires Partition(s) && t in s.flights && r.flights == s.flights - {t} && r.core.data == s.core.data
    requires var n := s.flights[t].node;
             (r.core.queue == s.core.queue && r.core.free == [n] + s.core.free)
             || (r.core.free == s.core.free && (r.core.queue == s.core.queue + [n] || r.core.queue == [n] + s.core.queue))
    ensures Partition(r)
  {
    var x := s.flights[t].node;
    assert Off(s.core, x);
    JoinApart(s.core.free, s.core.queue, x);
    assert Disjoint(s.core.queue, s.core.free);
    JoinApart(s.core.queue, s.core.free, x);
    assert Disjoint(r.core.free, r.core.queue);
    hide Distinct, Disjoint;
    forall n | 0 <= n < |r.core.data| ensures n in r.core.free || n in r.core.queue || InFlight(r, n) {
      if InFlight(s, n) && n != x {
        var u :| u in s.flights && s.flights[u].node == n;
        assert u in r.flights && r.flights[u].node == n;
      }
    }
  }

  /** A flight goes on with the same node. */
  lemma StayPartition(s: System, r: System, t: nat, f: Flight)
    requires Partition(s) && t in s.flights && r.flights == s.flights[t := f] && f.node == s.flights[t].node
    requires |r.core.data| == |s.core.data| && r.core.free == s.core.free && r.core.queue == s.core.queue
    ensures Partition(r)
  {
    hide Distinct, Disjoint;
    forall n | 0 <= n < |r.core.data| ensures n in r.core.free || n in r.core.queue || InFlight(r, n) {
      if InFlight(s, n) {
        var u :| u in s.flights && s.flights[u].node == n;
        assert u in r.flights && r.flights[u].node == n;
      }
    }
  }

  lemma {:induction false} ReversedMembers(q: seq<nat>)
    requires Distinct(q)
    ensures Distinct(Reversed(q)) && |Reversed(q)| == |q| && forall n :: n in Reversed(q) <==> n in q
  {
    if q != [] {
      TailApart(q, []);
      ReversedMembers(q[1..]);
    }
  }

  lemma ResetPartition(s: System)
    requires Partition(s)
    ensures Partition(System(Emptied(s.core), s.flights))
  {
    var r := System(Emptied(s.core), s.flights);
    ReversedMembers(s.core.queue);
    var a, b := Reversed(s.core.queue), s.core.free;
    assert Distinct(a + b) by {
      assert forall i :: 0 <= i < |a| ==> a[i] in s.core.queue;
    }
    assert forall n :: n in a + b <==> n in a || n in b;
    assert InRange(a + b, |s.core.data|) by {
      assert forall i :: 0 <= i < |a| ==> a[i] in s.core.queue;
    }
    hide Distinct, Disjoint;
    assert forall n :: InFlight(s, n) ==> InFlight(r, n);
  }

  // ---------------------------------------------------------------- what happens to the messages

  /** The queue as a list of messages, open at both ends. */
  predicate AsDeque(s: System, r: System, a: Move)
    requires InRange(s.core.queue, |s.core.data|) && InRange(r.core.queue, |r.core.data|)
  {
    var q, q2 := Contents(s.core), Contents(r.core);
    match a
    case Finish(t) =>
      if t in s.flights && s.flights[t].Sent? && s.flights[t].node < |s.core.data| then
        var m := s.core.data[s.flights[t].node];
        q2 == if s.flights[t].urgent then [m] + q else q + [m]
      else q2 == q
    case StartReceive(t, _) => if Free(s, t) && q != [] then q2 == q[1..] else q2 == q
    case ResetAll => q2 == []
    case _ => q2 == q
  }

  // ---------------------------------------------------------------- the steps one by one

  lemma BeginSendKeeps(s: System, t: nat, message: Buffer, p: Patience, urgent: bool)
    requires Sound(s)
    ensures var a := if urgent then StartUrgent(t, message) else StartSend(t, message, p);
            Sound(Begin(s, a)) && AsDeque(s, Begin(s, a), a)
  {
    hide Served, Distinct, InRange, Disjoint, Leave, Blocked;
    var a := if urgent then StartUrgent(t, message) else StartSend(t, message, p);
    var r := Begin(s, a);
    if Free(s, t) && |message| <= s.core.width {
      if s.core.free != [] {
        hide Partition;
        TakePartition(s, r, t, r.flights[t]);
        TakeServed(s.core.senders, t, |s.core.free|);
        OffInRange(s);
        OffInRange(r);
      } else if !urgent {
        BlockedServed(s.core.senders, t, p);
        SameNodesSound(s, r);
      }
    }
  }

  /** The bounds that follow from the partition. */
  lemma OffInRange(s: System)
    requires Partition(s)
    ensures InRange(s.core.queue, |s.core.data|) && InRange(s.core.free, |s.core.data|)
    ensures forall t :: t in s.flights ==> s.flights[t].node < |s.core.data|
  {
  }

  lemma BeginReceiveKeeps(s: System, t: nat, p: Patience)
    requires Sound(s)
    ensures var a := StartReceive(t, p); Sound(Begin(s, a)) && AsDeque(s, Begin(s, a), a)
    ensures Free(s, t) && s.core.queue != []
            ==> t in Begin(s, StartReceive(t, p)).flights
                && Begin(s, StartReceive(t, p)).flights[t] == Receiving(s.core.queue[0], Contents(s.core)[0])
  {
    hide Served, Distinct, Disjoint, Leave, Blocked;
    var r := Begin(s, StartReceive(t, p));
    if Free(s, t) {
      if s.core.queue != [] {
        OffInRange(s);
        FirstContents(s.core);
        hide Partition, InRange, Contents;
        TakePartition(s, r, t, r.flights[t]);
        TakeServed(s.core.receivers, t, |s.core.queue|);
        OffInRange(r);
      } else {
        BlockedServed(s.core.receivers, t, p);
        SameNodesSound(s, r);
      }
    }
  }

  lemma FirstContents(c: Core)
    requires InRange(c.queue, |c.data|) && c.queue != []
    ensures c.queue[0] < |c.data| && InRange(c.queue[1..], |c.data|)
    ensures |Contents(c)| == |c.queue| && Contents(c)[0] == c.data[c.queue[0]]
    ensures forall t :: Contents(Popped(c, t)) == Contents(c)[1..]
  {
  }

  lemma CopyKeeps(s: System, t: nat)
    requires Sound(s)
    ensures Sound(Copied(s, t)) && AsDeque(s, Copied(s, t), Copy(t))
  {
    hide Served, Distinct, InRange, Disjoint, Partition;
    OffInRange(s);
    var r := Copied(s, t);
    if r != s {
      StayPartition(s, r, t, r.flights[t]);
      if s.flights[t].Sending? {
        FillKeeps(s, t);
      }
    }
  }

  /** A copy into one node leaves all others alone, and so what their holders and the queue know of them. */
  lemma FillKeeps(s: System, t: nat)
    requires Sound(s) && t in s.flights && s.flights[t].Sending?
    ensures var c, f := s.core, s.flights[t];
            f.node < |c.data| && |f.message| <= |c.data[f.node]| && |c.data[f.node]| == c.width
            && InRange(c.queue, |c.data|)
            && Contents(Filled(c, f.node, f.message)) == Contents(c)
            && (forall u :: u in s.flights && u != t ==>
                  s.flights[u].node < |c.data| && Kept(Filled(c, f.node, f.message), s.flights[u]))
  {
    hide Served, Distinct, Disjoint;
    var c, f := s.core, s.flights[t];
    assert Off(c, f.node) && Kept(c, f);
    assert forall i :: 0 <= i < |c.queue| ==> c.queue[i] != f.node;
    forall u | u in s.flights && u != t ensures s.flights[u].node < |c.data| && Kept(Filled(c, f.node, f.message), s.flights[u]) {
      assert Off(c, s.flights[u].node) && Kept(c, s.flights[u]);
    }
  }

  lemma FinishKeeps(s: System, t: nat)
    requires Sound(s)
    ensures Sound(Finished(s, t)) && AsDeque(s, Finished(s, t), Finish(t))
  {
    hide Served, Distinct, InRange, Disjoint, WakeFirst, Partition, Contents;
    var r := Finished(s, t);
    OffInRange(s);
    if r != s {
      GivePartition(s, r, t);
      OffInRange(r);
      if s.flights[t].Sent? {
        WakeServed(s.core.receivers, |s.core.queue|);
        PostedContents(s.core, s.flights[t].node, s.flights[t].urgent);
      } else {
        WakeServed(s.core.senders, |s.core.free|);
        SameContents(s.core, r.core);
      }
    }
  }

  lemma PostedContents(c: Core, n: nat, urgent: bool)
    requires InRange(c.queue, |c.data|) && n < |c.data| && InRange(Posted(c, n, urgent).queue, |c.data|)
    ensures Contents(Posted(c, n, urgent)) == if urgent then [c.data[n]] + Contents(c) else Contents(c) + [c.data[n]]
  {
  }

  lemma SameContents(c: Core, d: Core)
    requires InRange(c.queue, |c.data|) && d.queue == c.queue && d.data == c.data
    ensures Contents(d) == Contents(c)
  {
  }

  lemma OthersKeep(s: System, a: Move)
    requires Sound(s) && (a.ResetAll? || a.ReceiverExpires? || a.SenderExpires?)
    ensures Sound(Do(s, a)) && AsDeque(s, Do(s, a), a)
  {
    hide Distinct, InRange, Disjoint, Expire, Dismiss, Served;
    OffInRange(s);
    match a {
      case ResetAll =>
        ResetPartition(s);
        hide Partition;
        OffInRange(Do(s, a));
        ServedApart(s.core.receivers, |s.core.queue|);
        ServedApart(s.core.senders, |s.core.free|);
        DismissServed(s.core.receivers, 0);
        DismissServed(s.core.senders, |Do(s, a).core.free|);
      case ReceiverExpires(i) =>
        if i < |s.core.receivers.waiting| {
          ExpireServed(s.core.receivers, i, |s.core.queue|);
          SameNodesSound(s, Do(s, a));
        }
      case SenderExpires(i) =>
        if i < |s.core.senders.waiting| {
          ExpireServed(s.core.senders, i, |s.core.free|);
          SameNodesSound(s, Do(s, a));
        }
    }
  }

  lemma DoKeeps(s: System, a: Move)
    requires Sound(s)
    ensures Sound(Do(s, a)) && AsDeque(s, Do(s, a), a)
  {
    hide Sound, AsDeque, Begin, Copied, Finished;
    match a {
      case StartSend(t, message, p) => BeginSendKeeps(s, t, message, p, false);
      case StartUrgent(t, message) => BeginSendKeeps(s, t, message, GiveUp, true);
      case StartReceive(t, p) => BeginReceiveKeeps(s, t, p);
      case Copy(t) => CopyKeeps(s, t);
      case Finish(t) => FinishKeeps(s, t);
      case _ => OthersKeep(s, a);
    }
  }

  // ---------------------------------------------------------------- whole runs

  function Start(count: nat, width: nat, fill: Buffer): System {
    System(Core(width, CountingDown(count), [], seq(count, _ => fill), AWAKE, AWAKE), map[])
  }

  function After(count: nat, width: nat, fill: Buffer, run: seq<Move>): System {
    if run == [] then Start(count, width, fill)
    else Do(After(count, width, fill, run[..|run| - 1]), run[|run| - 1])
  }

  lemma StartSound(count: nat, width: nat, fill: Buffer)
    requires |fill| == width
    ensures Sound(Start(count, width, fill))
  {
    var s := Start(count, width, fill);
    forall n | 0 <= n < count ensures n in s.core.free {
      assert s.core.free[count - 1 - n] == n;
    }
  }

  /** In every run: nodes are never shared or lost, what a receiver copies out is what was first in the queue
      when it came, what a sender links is what it wanted to send, and nobody sleeps in vain. */
  lemma {:induction false} AlwaysSound(count: nat, width: nat, fill: Buffer, run: seq<Move>)
    requires |fill| == width
    ensures Sound(After(count, width, fill, run))
  {
    hide Sound, Do, AsDeque;
    if run == [] {
      StartSound(count, width, fill);
    } else {
      AlwaysSound(count, width, fill, run[..|run| - 1]);
      DoKeeps(After(count, width, fill, run[..|run| - 1]), run[|run| - 1]);
    }
  }

  /** In every run, each step treats the waiting messages as a queue open at both ends. */
  lemma AlwaysDeque(count: nat, width: nat, fill: Buffer, run: seq<Move>, a: Move)
    requires |fill| == width
    ensures InRange(After(count, width, fill, run).core.queue, |After(count, width, fill, run).core.data|)
    ensures InRange(Do(After(count, width, fill, run), a).core.queue, |Do(After(count, width, fill, run), a).core.data|)
    ensures AsDeque(After(count, width, fill, run), Do(After(count, width, fill, run), a), a)
  {
    hide Do, AsDeque;
    AlwaysSound(count, width, fill, run);
    DoKeeps(After(count, width, fill, run), a);
  }

  /** What a receive returns was the first message of the queue at the moment the receiver took it. */
  lemma ReceivedWasFirst(count: nat, width: nat, fill: Buffer, run: seq<Move>, t: nat)
    requires |fill| == width && t in After(count, width, fill, run).flights
    ensures var f := After(count, width, fill, run).flights[t];
            (f.Received? ==> f.got == f.due)
            && (f.Sent? ==> f.node < |After(count, width, fill, run).core.data|
                            && f.message <= After(count, width, fill, run).core.data[f.node])
  {
    hide Served, Distinct, Disjoint, After;
    AlwaysSound(count, width, fill, run);
    var s := After(count, width, fill, run);
    assert Kept(s.core, s.flights[t]);
  }

  /** With no resumed thread still to run, no receiver sleeps beside a message and no sender beside a free node. */
  lemma NobodySleepsInVain(count: nat, width: nat, fill: Buffer, run: seq<Move>)
    requires |fill| == width
    ensures var c := After(count, width, fill, run).core;
            (c.receivers.woken == {} ==> c.receivers.waiting == [] || c.queue == [])
            && (c.senders.woken == {} ==> c.senders.waiting == [] || c.free == [])
  {
    AlwaysSound(count, width, fill, run);
  }
}
