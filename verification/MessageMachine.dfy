/**
 The message queue in place under interleaved calls: whatever order the steps of any number of threads come
 in, the methods of `Queue` do what the steps of a run do.
 */
module MessageMachine {

  import opened WaitList
  import opened Wakeup
  import opened Chains
  import M = Mailbox
  import opened MessageQueue
  import opened MessageRuns

  /** The nodes that are about to be linked in at the back link to nothing yet. */
  ghost predicate Ends(next: seq<int>, flights: map<nat, Flight>) {
    forall t :: t in flights && flights[t].Sent? && !flights[t].urgent
                ==> flights[t].node < |next| && next[flights[t].node] == NIL
  }

  ghost predicate Runs(q: Queue, s: System)
    reads q, q.next, q.data
  {
    q.Valid() && q.Value() == s.core && Sound(s) && Ends(q.next[..], s.flights)
  }

  /** A flight's node is its alone. */
  lemma FlightNode(s: System, t: nat)
    requires Sound(s) && t in s.flights
    ensures Off(s.core, s.flights[t].node)
    ensures forall u :: u in s.flights && u != t ==> s.flights[u].node != s.flights[t].node && Off(s.core, s.flights[u].node)
    ensures forall n :: 0 <= n < |s.core.data| ==> |s.core.data[n]| == s.core.width
    ensures Kept(s.core, s.flights[t])
  {
  }

  lemma EndsKept(next: seq<int>, next2: seq<int>, flights: map<nat, Flight>, flights2: map<nat, Flight>)
    requires Ends(next, flights) && |next2| == |next|
    requires forall t :: t in flights2 && flights2[t].Sent? && !flights2[t].urgent ==>
               flights2[t].node < |next2|
               && (next2[flights2[t].node] == NIL
                   || (t in flights && flights[t] == flights2[t] && next2[flights2[t].node] == next[flights2[t].node]))
    ensures Ends(next2, flights2)
  {
  }

  method BeginSend(q: Queue, ghost s: System, flights: map<nat, Flight>, t: nat, message: Buffer, p: M.Patience, urgent: bool)
    returns (after: map<nat, Flight>)
    requires Runs(q, s) && flights == s.flights && (urgent ==> p == M.GiveUp)
    modifies q
    ensures var a := if urgent then StartUrgent(t, message) else StartSend(t, message, p);
            after == Begin(s, a).flights && q.Value() == Begin(s, a).core && q.Valid() && Ends(q.next[..], after)
  {
    after := flights;
    if t in flights || t in q.senders.waiting || t in q.receivers.waiting || |message| > q.width {
      return;
    }
    if urgent && q.free == NIL {
      return;
    }
    var node, _ := q.DoReserve(t, p);
    if node != NIL {
      after := flights[t := Sending(node, message, urgent)];
    }
  }

  method BeginReceive(q: Queue, ghost s: System, flights: map<nat, Flight>, t: nat, p: M.Patience)
    returns (after: map<nat, Flight>)
    requires Runs(q, s) && flights == s.flights
    modifies q
    ensures var r := Begin(s, StartReceive(t, p));
            after == r.flights && q.Value() == r.core && q.Valid() && Ends(q.next[..], after)
  {
    after := flights;
    if t in flights || t in q.senders.waiting || t in q.receivers.waiting {
      return;
    }
    var node, _ := q.DoPop(t, p);
    if node != NIL {
      after := flights[t := Receiving(node, q.data[node])];
    }
  }

  /** The middle step, which leaves every other thread's node as it was. */
  method MakeCopy(q: Queue, ghost s: System, flights: map<nat, Flight>, t: nat) returns (after: map<nat, Flight>)
    requires Runs(q, s) && flights == s.flights
    modifies q.next, q.data
    ensures var r := Copied(s, t);
            after == r.flights && q.Value() == r.core && q.Valid() && Ends(q.next[..], after)
  {
    after := flights;
    if t !in flights {
      return;
    }
    FlightNode(s, t);
    hide Sound;
    match flights[t] {
      case Sending(node, message, urgent) =>
        ghost var next := q.next[..];
        q.DoFill(node, message, urgent);
        after := flights[t := Sent(node, message, urgent)];
        EndsKept(next, q.next[..], flights, after);
      case Receiving(node, due) => after := flights[t := Received(node, q.data[node], due)];
      case _ =>
    }
  }

  /** The last step: the node goes on the list it was taken for, behind whatever has happened meanwhile. */
  method MakeEnd(q: Queue, ghost s: System, flights: map<nat, Flight>, t: nat) returns (after: map<nat, Flight>)
    requires Runs(q, s) && flights == s.flights
    modifies q, q.next
    ensures var r := Finished(s, t);
            after == r.flights && q.Value() == r.core && q.Valid() && Ends(q.next[..], after)
  {
    after := flights;
    if t !in flights {
      return;
    }
    FlightNode(s, t);
    hide Sound;
    ghost var next := q.next[..];
    match flights[t] {
      case Sent(node, _, urgent) =>
        if urgent {
          var _ := q.DoLinkFront(node);
        } else {
          var _ := q.DoLinkBack(node);
        }
        after := flights - {t};
      case Received(node, _, _) =>
        q.DoGiveBack(node);
        after := flights - {t};
      case _ =>
    }
    EndsKept(next, q.next[..], flights, after);
  }

  method Intervene(q: Queue, ghost s: System, flights: map<nat, Flight>, a: Move)
    requires Runs(q, s) && flights == s.flights && (a.ResetAll? || a.ReceiverExpires? || a.SenderExpires?)
    modifies q, q.next
    ensures q.Value() == Do(s, a).core && flights == Do(s, a).flights && q.Valid() && Ends(q.next[..], flights)
  {
    ghost var next := q.next[..];
    forall t | t in flights
      ensures q.Private(flights[t].node)
    {
      FlightNode(s, t);
    }
    hide Sound;
    match a {
      case ResetAll => q.DoReset();
      case ReceiverExpires(i) => if i < |q.receivers.waiting| { q.DoExpireReceiver(i); }
      case SenderExpires(i) => if i < |q.senders.waiting| { q.DoExpireSender(i); }
    }
    EndsKept(next, q.next[..], flights, flights);
  }

  /** Any step, in any state that the queue and the threads in the middle of a call can be in. */
  method Perform(q: Queue, ghost s: System, flights: map<nat, Flight>, a: Move) returns (after: map<nat, Flight>)
    requires Runs(q, s) && flights == s.flights
    modifies q, q.next, q.data
    ensures Runs(q, Do(s, a)) && after == Do(s, a).flights
  {
    DoKeeps(s, a);
    hide Sound, AsDeque, Begin, Copied, Finished;
    match a {
      case StartSend(t, message, p) => after := BeginSend(q, s, flights, t, message, p, false);
      case StartUrgent(t, message) => after := BeginSend(q, s, flights, t, message, M.GiveUp, true);
      case StartReceive(t, p) => after := BeginReceive(q, s, flights, t, p);
      case Copy(t) => after := MakeCopy(q, s, flights, t);
      case Finish(t) => after := MakeEnd(q, s, flights, t);
      case _ =>
        Intervene(q, s, flights, a);
        after := flights;
    }
  }

  /**
   The methods, called in the order of any run, can always be called, and take the queue in place through
   exactly the states of that run: what is proved of runs holds of the linked nodes.
   */
  method Execute(count: nat, width: nat, fill: Buffer, run: seq<Move>) returns (q: Queue, flights: map<nat, Flight>)
    requires count <= M.ENTRY_MAX && |fill| == width
    ensures Runs(q, After(count, width, fill, run)) && flights == After(count, width, fill, run).flights
  {
    hide Do, Sound;
    StartSound(count, width, fill);
    q := new Queue(count, width, fill);
    flights := map[];
    for i := 0 to |run|
      invariant fresh(q) && fresh(q.next) && fresh(q.data)
      invariant Runs(q, After(count, width, fill, run[..i])) && flights == After(count, width, fill, run[..i]).flights
    {
      flights := Perform(q, After(count, width, fill, run[..i]), flights, run[i]);
      assert run[..i + 1][..i] == run[..i];
    }
    assert run[..|run|] == run;
  }
}
