/**
 The message queue of ipc.c: a pool of nodes, threaded into a free list and a list of messages.  Sending
 and receiving take a node off one list, copy with interrupts enabled, and put it on the other.
 */
module MessageQueue {

  import opened WaitList
  import opened Wakeup
  import opened Chains
  import opened Mailbox

  type Buffer = seq<int>

  /** The lists, the contents of every node, and the threads waiting on either side. */
  datatype Core = Core(width: nat, free: seq<nat>, queue: seq<nat>, data: seq<Buffer>,
                       receivers: Side, senders: Side)

  function CountingDown(n: nat): (s: seq<nat>)
    ensures |s| == n && forall i :: 0 <= i < n ==> s[i] == n - 1 - i
  {
    seq(n, i requires 0 <= i < n => n - 1 - i)
  }

  /** The first step of rt_mq_send_wait and rt_mq_urgent, when there is a free node. */
  function Reserved(c: Core, t: nat): Core
    requires c.free != []
  {
    c.(free := c.free[1..], senders := Leave(c.senders, t))
  }

  function BlockedSender(c: Core, t: nat, p: Patience): Core {
    c.(senders := Blocked(c.senders, t, p))
  }

  /** What a node holds after a message has been copied over its beginning. */
  function Overlay(held: Buffer, message: Buffer): Buffer
    requires |message| <= |held|
  {
    message + held[|message|..]
  }

  function Filled(c: Core, node: nat, message: Buffer): Core
    requires node < |c.data| && |message| <= |c.data[node]|
  {
    c.(data := c.data[node := Overlay(c.data[node], message)])
  }

  /** The last step of a send: at the back, or at the front if urgent. */
  function Posted(c: Core, node: nat, urgent: bool): Core {
    c.(queue := if urgent then [node] + c.queue else c.queue + [node], receivers := WakeFirst(c.receivers))
  }

  /** The first step of rt_mq_recv, when there is a message. */
  function Popped(c: Core, t: nat): Core
    requires c.queue != []
  {
    c.(queue := c.queue[1..], receivers := Leave(c.receivers, t))
  }

  function BlockedReceiver(c: Core, t: nat, p: Patience): Core {
    c.(receivers := Blocked(c.receivers, t, p))
  }

  /** The last step of a receive. */
  function GivenBack(c: Core, node: nat): Core {
    c.(free := [node] + c.free, senders := WakeFirst(c.senders))
  }

  function Reversed(q: seq<nat>): seq<nat> {
    if q == [] then [] else Reversed(q[1..]) + [q[0]]
  }

  /** rt_mq_control with RT_IPC_CMD_RESET */
  function Emptied(c: Core): Core {
    c.(free := Reversed(c.queue) + c.free, queue := [], receivers := Dismiss(c.receivers), senders := Dismiss(c.senders))
  }

  // ---------------------------------------------------------------- the queue in place

  class Queue {
    const next: array<int>
    const data: array<Buffer>
    const width: nat
    var head: int
    var tail: int
    var free: int
    var entry: nat
    var receivers: Side
    var senders: Side
    ghost var freeList: seq<nat>
    ghost var queue: seq<nat>

    ghost predicate Valid()
      reads this, next, data
    {
      next.Length == data.Length <= ENTRY_MAX
      && Chain(next[..], freeList) && free == Head(freeList, 0)
      && Chain(next[..], queue) && head == Head(queue, 0) && tail == Tail(queue) && entry == |queue|
      && Disjoint(freeList, queue)
      && forall n :: 0 <= n < data.Length ==> |data[n]| == width
    }

    ghost function Value(): Core
      reads this, next, data
    {
      Core(width, freeList, queue, data[..], receivers, senders)
    }

    /** Is the node on neither list, and so in the hands of some thread? */
    ghost predicate Private(node: nat)
      reads this
    {
      node < next.Length && node !in freeList && node !in queue
    }

    constructor (count: nat, size: nat, fill: Buffer)
      requires count <= ENTRY_MAX && |fill| == size
      ensures fresh(next) && fresh(data) && Valid()
      ensures Value() == Core(size, CountingDown(count), [], seq(count, _ => fill), AWAKE, AWAKE)
    {
      var links := new int[count];
      var buffers := new Buffer[count](_ => fill);
      next, data, width := links, buffers, size;
      head, tail, free, entry := NIL, NIL, NIL, 0;
      receivers, senders, freeList, queue := AWAKE, AWAKE, [], [];
      new;
      var temp := 0;
      while temp < count
        invariant temp <= count && freeList == CountingDown(temp) && free == Head(freeList, 0)
        invariant Chain(next[..], freeList)
        invariant head == tail == NIL && entry == 0 && receivers == senders == AWAKE && queue == []
        invariant forall n :: 0 <= n < count ==> data[n] == fill
      {
        ChainPush(next[..], freeList, temp);
        next[temp] := free;
        free := temp;
        freeList := [temp] + freeList;
        temp := temp + 1;
      }
    }

    /** The first step of a send; `wait` tells whether the caller may be put to sleep, and where. */
    method DoReserve(t: nat, p: Patience) returns (node: int, reply: Reply)
      requires Valid() && t !in senders.waiting
      modifies this
      ensures Valid() && node == Head(old(freeList), 0)
      ensures Value() == if node == NIL then BlockedSender(old(Value()), t, p) else Reserved(old(Value()), t)
      ensures node != NIL ==> Private(node)
      ensures reply == if node != NIL then Okay else if p.GiveUp? then Full else Suspended
    {
      hide Chain, Leave, Blocked;
      node := free;
      if node == NIL {
        senders := Blocked(senders, t, p);
        return node, if p.GiveUp? then Full else Suspended;
      }
      ChainTail(next[..], freeList);
      free := next[node];
      senders := Leave(senders, t);
      freeList := freeList[1..];
      reply := Okay;
    }

    /** The copy into a node, which only its holder touches; an urgent send leaves the link for later. */
    method DoFill(node: nat, message: Buffer, urgent: bool)
      requires Valid() && Private(node) && |message| <= width
      modifies next, data
      ensures Valid() && Value() == Filled(old(Value()), node, message) && (!urgent ==> next[node] == NIL)
      ensures forall n :: 0 <= n < next.Length && n != node ==> next[n] == old(next[n])
    {
      hide Chain;
      ChainFrame(next[..], freeList, node, NIL);
      ChainFrame(next[..], queue, node, NIL);
      if !urgent {
        next[node] := NIL;
      }
      data[node] := Overlay(data[node], message);
    }

    /** The last step of rt_mq_send_wait; its overflow return is not taken. */
    method DoLinkBack(node: nat) returns (reply: Reply)
      requires Valid() && Private(node) && next[node] == NIL
      modifies this, next
      ensures Valid() && Value() == Posted(old(Value()), node, false) && reply == Okay
      ensures forall n: nat :: old(Private(n)) && n != node ==> Private(n) && next[n] == old(next[n])
    {
      Missing(queue, next.Length, node);
      hide Chain, WakeFirst;
      if tail != NIL {
        ChainAppend(next[..], queue, node);
        ChainFrame(next[..], freeList, tail, node);
        next[tail] := node;
      } else {
        SingleChain(next[..], node);
      }
      tail := node;
      if head == NIL {
        head := node;
      }
      if entry < ENTRY_MAX {
        entry := entry + 1;
      } else {
        return Full;
      }
      queue := queue + [node];
      receivers := WakeFirst(receivers);
      reply := Okay;
    }

    /** The last step of rt_mq_urgent. */
    method DoLinkFront(node: nat) returns (reply: Reply)
      requires Valid() && Private(node)
      modifies this, next
      ensures Valid() && Value() == Posted(old(Value()), node, true) && reply == Okay
      ensures forall n: nat :: old(Private(n)) && n != node ==> Private(n) && next[n] == old(next[n])
    {
      Missing(queue, next.Length, node);
      hide Chain, WakeFirst;
      ChainPush(next[..], queue, node);
      ChainFrame(next[..], freeList, node, head);
      next[node] := head;
      head := node;
      if tail == NIL {
        tail := node;
      }
      if entry < ENTRY_MAX {
        entry := entry + 1;
      } else {
        return Full;
      }
      queue := [node] + queue;
      receivers := WakeFirst(receivers);
      reply := Okay;
    }

    /** The first step of rt_mq_recv. */
    method DoPop(t: nat, p: Patience) returns (node: int, reply: Reply)
      requires Valid() && t !in receivers.waiting
      modifies this
      ensures Valid() && node == Head(old(queue), 0)
      ensures Value() == if node == NIL then BlockedReceiver(old(Value()), t, p) else Popped(old(Value()), t)
      ensures node != NIL ==> Private(node)
      ensures reply == if node != NIL then Okay else if p.GiveUp? then TimedOut else Suspended
    {
      hide Chain, Leave, Blocked;
      if entry == 0 {
        receivers := Blocked(receivers, t, p);
        return NIL, if p.GiveUp? then TimedOut else Suspended;
      }
      node := head;
      ChainTail(next[..], queue);
      TailOfRest(queue);
      head := next[node];
      if tail == node {
        tail := NIL;
      }
      if entry > 0 {
        entry := entry - 1;
      }
      receivers := Leave(receivers, t);
      queue := queue[1..];
      reply := Okay;
    }

    /** The last step of rt_mq_recv. */
    method DoGiveBack(node: nat)
      requires Valid() && Private(node)
      modifies this, next
      ensures Valid() && Value() == GivenBack(old(Value()), node)
      ensures forall n: nat :: old(Private(n)) && n != node ==> Private(n) && next[n] == old(next[n])
    {
      hide Chain, WakeFirst;
      ChainPush(next[..], freeList, node);
      ChainFrame(next[..], queue, node, free);
      next[node] := free;
      free := node;
      freeList := [node] + freeList;
      senders := WakeFirst(senders);
    }

    /** One turn of the reset loop: the first message goes to the free list. */
    method DropFirst()
      requires Valid() && queue != []
      modifies this`head, this`tail, this`free, this`entry, this`freeList, this`queue, next
      ensures Valid() && freeList == [old(queue[0])] + old(freeList) && queue == old(queue[1..])
      ensures forall n: nat :: old(Private(n)) ==> Private(n) && next[n] == old(next[n])
    {
      hide Chain;
      var node := head;
      ChainTail(next[..], queue);
      TailOfRest(queue);
      head := next[node];
      if tail == node {
        tail := NIL;
      }
      ChainPush(next[..], freeList, node);
      ChainFrame(next[..], queue[1..], node, free);
      next[node] := free;
      free := node;
      freeList := [node] + freeList;
      queue := queue[1..];
      entry := entry - 1;
    }

    method DoExpireReceiver(at: nat)
      requires Valid() && at < |receivers.waiting|
      modifies this`receivers
      ensures Valid() && Value() == old(Value()).(receivers := Expire(old(receivers), at))
    {
      receivers := Expire(receivers, at);
    }

    method DoExpireSender(at: nat)
      requires Valid() && at < |senders.waiting|
      modifies this`senders
      ensures Valid() && Value() == old(Value()).(senders := Expire(old(senders), at))
    {
      senders := Expire(senders, at);
    }

    /** rt_mq_control with RT_IPC_CMD_RESET; the count is brought along in the loop. */
    method DoReset()
      requires Valid()
      modifies this, next
      ensures Valid() && Value() == Emptied(old(Value()))
      ensures forall n: nat :: old(Private(n)) ==> Private(n) && next[n] == old(next[n])
    {
      hide Chain;
      receivers := Dismiss(receivers);
      senders := Dismiss(senders);
      while head != NIL
        invariant Valid() && Reversed(queue) + freeList == Reversed(old(queue)) + old(freeList)
        invariant receivers == Dismiss(old(receivers)) && senders == Dismiss(old(senders))
        invariant data[..] == old(data[..])
        invariant forall n: nat :: old(Private(n)) ==> Private(n) && next[n] == old(next[n])
        decreases |queue|
      {
        ghost var q, f := queue, freeList;
        DropFirst();
        assert Reversed(q[1..]) + ([q[0]] + f) == Reversed(q) + f;
      }
      entry := 0;
    }
  }

  function Tail(queue: seq<nat>): int {
    if queue == [] then NIL else queue[|queue| - 1]
  }

  predicate Disjoint(a: seq<nat>, b: seq<nat>) {
    forall i, j :: 0 <= i < |a| && 0 <= j < |b| ==> a[i] != b[j]
  }

  lemma SingleChain(next: seq<int>, node: nat)
    requires node < |next| && next[node] == NIL
    ensures Chain(next, [node])
  {
  }

  lemma TailOfRest(queue: seq<nat>)
    requires queue != [] && Distinct(queue)
    ensures Tail(queue[1..]) == if Tail(queue) == queue[0] then NIL else Tail(queue)
  {
  }
}
