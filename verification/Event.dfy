/**
 The event object of ipc.c: 32 flags, and threads waiting for all or for any of some of them.  One send may
 wake several threads, and a thread it wakes may take flags away from those behind it.
 */
module Event {

  import opened WaitList

  datatype Info = Info(all: bool, some: bool, clear: bool)

  /** rt_event_recv asserts that one of the two is asked for. */
  predicate Proper(i: Info) {
    i.all || i.some
  }

  /** The flags, who waits, and what each thread's event_set and event_info hold. */
  datatype State = State(flags: Flags, waiters: seq<nat>, wanted: seq<Flags>, info: seq<Info>)

  datatype Reply = Okay | Failed | TimedOut | Invalid | Suspended

  /** A 32-bit set of flags, as the set of their numbers. */
  type Flags = set<nat>

  predicate Satisfied(flags: Flags, wanted: Flags, i: Info) {
    if i.all then wanted <= flags else i.some && wanted * flags != {}
  }

  predicate Sized(s: State) {
    |s.wanted| == |s.info| && InRange(s.waiters, |s.wanted|)
  }

  // ---------------------------------------------------------------- one send

  /** The walk of a send: the flags left, who stays, who has been woken, and which flags were taken away. */
  datatype Walk = Walk(flags: Flags, wanted: seq<Flags>, kept: seq<nat>, woken: seq<nat>, taken: Flags)

  function Visit(w: Walk, info: seq<Info>, t: nat): Walk
    requires t < |w.wanted| == |info|
  {
    if Satisfied(w.flags, w.wanted[t], info[t]) then
      var got := w.wanted[t] * w.flags;
      Walk(if info[t].clear then w.flags - got else w.flags, w.wanted[t := got], w.kept, w.woken + [t],
           if info[t].clear then w.taken + got else w.taken)
    else w.(kept := w.kept + [t])
  }

  function Visits(w: Walk, info: seq<Info>, q: seq<nat>): (r: Walk)
    requires |w.wanted| == |info| && InRange(q, |info|)
    ensures |r.wanted| == |w.wanted|
    decreases |q|
  {
    if q == [] then w else Visits(Visit(w, info, q[0]), info, q[1..])
  }

  function Sent(s: State, flags: Flags): Walk
    requires Sized(s)
  {
    Visits(Walk(s.flags + flags, s.wanted, [], [], {}), s.info, s.waiters)
  }

  /** rt_event_send */
  function Send(s: State, flags: Flags): State
    requires Sized(s)
  {
    if flags == {} then s
    else
      var w := Sent(s, flags);
      State(w.flags, w.kept, w.wanted, s.info)
  }

  // ---------------------------------------------------------------- the other steps

  function ReceiveReply(s: State, wanted: Flags, i: Info, wait: bool): Reply {
    if wanted == {} then Failed
    else if Satisfied(s.flags, wanted, i) then Okay
    else if !wait then TimedOut
    else Suspended
  }

  /** rt_event_recv up to where it returns or suspends the thread, at some place on the list. */
  function Receive(s: State, t: nat, wanted: Flags, i: Info, wait: bool, at: nat): State
    requires Sized(s) && t < |s.wanted| && at <= |s.waiters|
  {
    if wanted == {} then s
    else if Satisfied(s.flags, wanted, i) then
      s.(wanted := s.wanted[t := s.flags * wanted], info := s.info[t := i],
         flags := if i.clear then s.flags - wanted else s.flags)
    else if !wait then s
    else
      s.(wanted := s.wanted[t := wanted], info := s.info[t := i],
         waiters := s.waiters[..at] + [t] + s.waiters[at..])
  }

  function Expire(s: State, k: nat): State
    requires k < |s.waiters|
  {
    s.(waiters := Without(s.waiters, k))
  }

  function Reset(s: State): State {
    s.(waiters := [], flags := {})
  }

  // ---------------------------------------------------------------- nobody waits for what is there

  /** Fewer flags satisfy nobody who was not satisfied before. */
  lemma FewerFlags(flags: Flags, fewer: Flags, wanted: Flags, i: Info)
    requires fewer <= flags && !Satisfied(flags, wanted, i)
    ensures !Satisfied(fewer, wanted, i)
  {
    assert wanted * fewer <= wanted * flags;
  }

  predicate NoneReady(flags: Flags, q: seq<nat>, wanted: seq<Flags>, info: seq<Info>)
    requires |wanted| == |info| && InRange(q, |wanted|)
  {
    forall k :: 0 <= k < |q| ==> !Satisfied(flags, wanted[q[k]], info[q[k]])
  }

  predicate Sound(s: State) {
    Sized(s) && Distinct(s.waiters) && NoneReady(s.flags, s.waiters, s.wanted, s.info)
    && forall k :: 0 <= k < |s.waiters| ==> Proper(s.info[s.waiters[k]])
  }

  lemma VisitKeeps(w: Walk, info: seq<Info>, t: nat)
    requires t < |w.wanted| == |info| && t !in w.kept && InRange(w.kept, |info|) && NoneReady(w.flags, w.kept, w.wanted, info)
    ensures var v := Visit(w, info, t);
            InRange(v.kept, |info|) && NoneReady(v.flags, v.kept, v.wanted, info)
            && (v.kept == w.kept || v.kept == w.kept + [t])
  {
    hide Satisfied;
    var v := Visit(w, info, t);
    forall k | 0 <= k < |w.kept| ensures !Satisfied(v.flags, v.wanted[w.kept[k]], info[w.kept[k]]) {
      FewerFlags(w.flags, v.flags, w.wanted[w.kept[k]], info[w.kept[k]]);
    }
  }

  /** Whoever is still on the list after the walk is not satisfied by the flags that are left. */
  lemma {:induction false} VisitsKeep(w: Walk, info: seq<Info>, q: seq<nat>)
    requires |w.wanted| == |info| && InRange(w.kept, |info|) && InRange(q, |info|) && Distinct(w.kept + q)
    requires NoneReady(w.flags, w.kept, w.wanted, info)
    ensures var r := Visits(w, info, q);
            InRange(r.kept, |info|) && Distinct(r.kept) && NoneReady(r.flags, r.kept, r.wanted, info)
            && forall t :: t in r.kept ==> t in w.kept || t in q
    decreases |q|
  {
    if q == [] {
      assert w.kept + q == w.kept;
    } else {
      var t, rest := q[0], q[1..];
      assert (w.kept + q)[|w.kept|] == t;
      assert w.kept + q == w.kept + [t] + rest;
      SplitDistinct(w.kept, t, rest);
      VisitKeeps(w, info, t);
      VisitsKeep(Visit(w, info, t), info, rest);
    }
  }

  lemma SplitDistinct(kept: seq<nat>, t: nat, rest: seq<nat>)
    requires Distinct(kept + [t] + rest)
    ensures t !in kept && Distinct(kept + rest) && Distinct((kept + [t]) + rest)
  {
    var all, some := kept + [t] + rest, kept + rest;
    forall i, j | 0 <= i < j < |some| ensures some[i] != some[j] {
      assert some[i] == all[if i < |kept| then i else i + 1] && some[j] == all[if j < |kept| then j else j + 1];
    }
    assert forall i :: 0 <= i < |kept| ==> all[i] == kept[i] && all[i] != all[|kept|];
  }

  lemma SendSound(s: State, flags: Flags)
    requires Sound(s)
    ensures Sound(Send(s, flags))
  {
    hide Satisfied, Visits;
    var w := Walk(s.flags + flags, s.wanted, [], [], {});
    assert [] + s.waiters == s.waiters;
    VisitsKeep(w, s.info, s.waiters);
    var r := Send(s, flags);
    forall k | 0 <= k < |r.waiters| ensures Proper(r.info[r.waiters[k]]) {
      assert r.waiters[k] in s.waiters;
    }
  }

  lemma ReceiveSound(s: State, t: nat, wanted: Flags, i: Info, wait: bool, at: nat)
    requires Sound(s) && t < |s.wanted| && t !in s.waiters && at <= |s.waiters| && Proper(i)
    ensures Sound(Receive(s, t, wanted, i, wait, at))
  {
    hide Satisfied, Distinct;
    var r := Receive(s, t, wanted, i, wait, at);
    ReceiveOthers(s, t, wanted, i, wait, at);
    if r.waiters != s.waiters {
      SpliceDistinct(s.waiters, at, t);
      assert forall k :: 0 <= k < |r.waiters| ==>
        r.waiters[k] == if k < at then s.waiters[k] else if k == at then t else s.waiters[k - 1];
    }
  }

  /** The threads that are already waiting are no more satisfied than before. */
  lemma ReceiveOthers(s: State, t: nat, wanted: Flags, i: Info, wait: bool, at: nat)
    requires Sound(s) && t < |s.wanted| && t !in s.waiters && at <= |s.waiters| && Proper(i)
    ensures var r := Receive(s, t, wanted, i, wait, at);
            forall k :: 0 <= k < |s.waiters| ==>
              !Satisfied(r.flags, r.wanted[s.waiters[k]], r.info[s.waiters[k]]) && Proper(r.info[s.waiters[k]])
  {
    hide Satisfied, Distinct;
    var r := Receive(s, t, wanted, i, wait, at);
    forall k | 0 <= k < |s.waiters|
      ensures !Satisfied(r.flags, r.wanted[s.waiters[k]], r.info[s.waiters[k]]) && Proper(r.info[s.waiters[k]])
    {
      assert s.waiters[k] != t;
      FewerFlags(s.flags, r.flags, s.wanted[s.waiters[k]], s.info[s.waiters[k]]);
    }
  }

  lemma ExpireSound(s: State, k: nat)
    requires Sound(s) && k < |s.waiters|
    ensures Sound(Expire(s, k))
  {
    hide Satisfied;
    var q := Without(s.waiters, k);
    assert forall j :: 0 <= j < |q| ==> q[j] == s.waiters[if j < k then j else j + 1];
  }

  // ---------------------------------------------------------------- each flag is taken at most once

  /** No flag is both left and taken, and none of those that were there is lost. */
  predicate Shared(w: Walk, all: Flags) {
    w.flags !! w.taken && w.flags + w.taken == all
  }

  /** What has been handed to the threads that clear it. */
  predicate Exclusive(w: Walk, info: seq<Info>)
    requires |w.wanted| == |info|
  {
    InRange(w.woken, |info|)
    && (forall k :: 0 <= k < |w.woken| && info[w.woken[k]].clear ==> w.wanted[w.woken[k]] <= w.taken)
    && (forall j, k :: 0 <= j < k < |w.woken| && info[w.woken[j]].clear && info[w.woken[k]].clear ==>
          w.wanted[w.woken[j]] !! w.wanted[w.woken[k]])
    && (forall f :: f in w.taken ==> exists k :: 0 <= k < |w.woken| && HandedTo(w, info, k, f))
  }

  /** The k-th thread woken clears what it receives, and flag f is among it. */
  predicate HandedTo(w: Walk, info: seq<Info>, k: nat, f: nat)
    requires |w.wanted| == |info| && k < |w.woken| && w.woken[k] < |info|
  {
    info[w.woken[k]].clear && f in w.wanted[w.woken[k]]
  }

  lemma VisitShares(w: Walk, info: seq<Info>, t: nat, all: Flags)
    requires t < |w.wanted| == |info| && t !in w.woken && Shared(w, all) && Exclusive(w, info)
    ensures Shared(Visit(w, info, t), all) && Exclusive(Visit(w, info, t), info)
    ensures Visit(w, info, t).woken == w.woken || Visit(w, info, t).woken == w.woken + [t]
  {
    hide Satisfied;
    assert forall k :: 0 <= k < |w.woken| ==> w.woken[k] != t;
    var v := Visit(w, info, t);
    forall f | f in v.taken
      ensures exists k :: 0 <= k < |v.woken| && HandedTo(v, info, k, f)
    {
      if f in w.taken {
        var k :| 0 <= k < |w.woken| && HandedTo(w, info, k, f);
        assert HandedTo(v, info, k, f);
      } else {
        assert HandedTo(v, info, |w.woken|, f);
      }
    }
  }

  lemma {:induction false} VisitsShare(w: Walk, info: seq<Info>, q: seq<nat>, all: Flags)
    requires |w.wanted| == |info| && InRange(q, |info|) && Distinct(w.woken + q) && Shared(w, all) && Exclusive(w, info)
    ensures Shared(Visits(w, info, q), all) && Exclusive(Visits(w, info, q), info)
    decreases |q|
  {
    if q != [] {
      hide Shared, Exclusive, Visit;
      var t, rest := q[0], q[1..];
      assert w.woken + q == w.woken + [t] + rest;
      SplitDistinct(w.woken, t, rest);
      VisitShares(w, info, t, all);
      VisitsShare(Visit(w, info, t), info, rest, all);
    }
  }

  /** A flag that a send leaves or finds set is afterwards either still set or was handed to exactly one of the
      woken threads that clear what they receive. */
  lemma SendShares(s: State, flags: Flags)
    requires Sound(s)
    ensures Shared(Sent(s, flags), s.flags + flags) && Exclusive(Sent(s, flags), s.info)
  {
    var w := Walk(s.flags + flags, s.wanted, [], [], {});
    assert [] + s.waiters == s.waiters;
    hide Exclusive, NoneReady, Visits;
    VisitsShare(w, s.info, s.waiters, s.flags + flags);
  }

  // ---------------------------------------------------------------- whole runs

  datatype Step = SendStep(flags: Flags) | ReceiveStep(thread: nat, wanted: Flags, info: Info, wait: bool, at: nat)
                | ExpireStep(at: nat) | ResetStep

  function Do(s: State, a: Step): State
    requires Sized(s)
  {
    match a
    case SendStep(flags) => Send(s, flags)
    case ReceiveStep(t, wanted, i, wait, at) =>
      if t < |s.wanted| && t !in s.waiters && at <= |s.waiters| && Proper(i) then Receive(s, t, wanted, i, wait, at) else s
    case ExpireStep(k) => if k < |s.waiters| then Expire(s, k) else s
    case ResetStep => Reset(s)
  }

  lemma DoSound(s: State, a: Step)
    requires Sound(s)
    ensures Sound(Do(s, a))
  {
    hide Sound, Send, Receive, Expire;
    match a {
      case SendStep(flags) => SendSound(s, flags);
      case ReceiveStep(t, wanted, i, wait, at) =>
        if t < |s.wanted| && t !in s.waiters && at <= |s.waiters| && Proper(i) {
          ReceiveSound(s, t, wanted, i, wait, at);
        }
      case ExpireStep(k) => if k < |s.waiters| { ExpireSound(s, k); }
      case ResetStep => ResetSound(s);
    }
  }

  lemma ResetSound(s: State)
    requires Sound(s)
    ensures Sound(Reset(s))
  {
  }

  /** In every reachable state no waiting thread's condition holds, and each asked for all or for some flags. */
  function After(threads: nat, run: seq<Step>): (s: State)
    ensures Sound(s)
  {
    if run == [] then State({}, [], seq(threads, _ => {}), seq(threads, _ => Info(false, false, false)))
    else
      var s := After(threads, run[..|run| - 1]);
      DoSound(s, run[|run| - 1]);
      Do(s, run[|run| - 1])
  }

  lemma AllProper(s: State)
    requires Sound(s)
    ensures forall k :: 0 <= k < |s.waiters| ==> Proper(s.info[s.waiters[k]])
  {
  }

  // ---------------------------------------------------------------- the event in place

  class Object {
    var flags: Flags
    const links: Links
    const list: nat
    const eventSet: array<Flags>
    const eventInfo: array<Info>
    ghost var waiters: seq<nat>

    ghost predicate Shaped()
      reads this, links, links.next, links.prev, eventSet, eventInfo
    {
      links.next != links.prev && links.next.Length == links.prev.Length == list + 1
      && list == eventSet.Length == eventInfo.Length && links.Ring([list] + waiters) && Sized(Value())
    }

    ghost function Value(): State
      reads this, eventSet, eventInfo
    {
      State(flags, waiters, eventSet[..], eventInfo[..])
    }

    constructor (threads: nat)
      ensures Shaped() && Value() == After(threads, [])
      ensures fresh(links) && fresh(links.next) && fresh(links.prev) && fresh(eventSet) && fresh(eventInfo)
    {
      var ls := new Links(threads + 1);
      var es := new Flags[threads](_ => {});
      var infos := new Info[threads](_ => Info(false, false, false));
      links, list, eventSet, eventInfo, waiters, flags := ls, threads, es, infos, [], {};
      new;
      assert [list] + waiters == [list];
      assert eventSet[..] == seq(threads, _ => {});
      assert eventInfo[..] == seq(threads, _ => Info(false, false, false));
    }

    /** Is the thread's condition met?  A thread waiting for any flag is told at once which ones it got. */
    method Check(t: nat) returns (ok: bool)
      requires t < eventSet.Length == eventInfo.Length && Proper(eventInfo[t])
      modifies eventSet
      ensures ok == Satisfied(flags, old(eventSet[t]), eventInfo[t])
      ensures eventSet[..] == old(eventSet[..])[t := if ok then old(eventSet[t]) * flags else old(eventSet[t])]
    {
      ok := false;
      if eventInfo[t].all {
        if eventSet[t] <= flags {
          assert eventSet[t] * flags == eventSet[t];
          ok := true;
        }
      } else if eventInfo[t].some {
        if eventSet[t] * flags != {} {
          eventSet[t] := eventSet[t] * flags;
          ok := true;
        }
      }
    }

    /** Taking the k-th waiter off the list; rt_thread_resume. */
    method Resume(t: nat, ghost k: nat)
      requires Shaped() && k < |waiters| && waiters[k] == t
      modifies this`waiters, links.next, links.prev
      ensures Shaped() && waiters == Without(old(waiters), k)
    {
      hide Linked;
      ghost var ring := [list] + waiters;
      links.Remove(t, ring, k + 1);
      assert Without(ring, k + 1) == [list] + Without(waiters, k);
      waiters := Without(waiters, k);
      WithoutInRange(old(waiters), k, list);
    }

    /** The k-th waiter's time is up. */
    method DoExpire(t: nat, ghost k: nat)
      requires Shaped() && k < |waiters| && waiters[k] == t
      modifies this`waiters, links.next, links.prev
      ensures Shaped() && Value() == Expire(old(Value()), k)
    {
      Resume(t, k);
    }

    /** rt_event_control with RT_IPC_CMD_RESET: everybody is taken off the list, first to last. */
    method DoReset()
      requires Shaped()
      modifies this, links.next, links.prev
      ensures Shaped() && Value() == Reset(old(Value()))
    {
      hide Linked;
      var empty := links.IsEmpty(list, [list] + waiters);
      while !empty
        invariant Shaped() && flags == old(flags) && eventSet[..] == old(eventSet[..]) && eventInfo[..] == old(eventInfo[..])
        invariant empty <==> [list] + waiters == [list]
        decreases |waiters|
      {
        var t := Follow(list, 0);
        Resume(t, 0);
        empty := links.IsEmpty(list, [list] + waiters);
      }
      assert |[list] + waiters| == 1;
      flags := {};
    }

    /** The node behind a node of the list, the head standing for the end. */
    method Follow(node: nat, ghost k: nat) returns (n: nat)
      requires Shaped() && k <= |waiters| && ([list] + waiters)[k] == node
      ensures n == if k < |waiters| then waiters[k] else list
    {
      Around(links.next[..], links.prev[..], [list] + waiters, k);
      n := links.next[node];
    }

    /** One turn of the walk: thread t, behind those that stay, is woken or stays. */
    method DoVisit(t: nat, ghost w: Walk, ghost rest: seq<nat>)
      requires Shaped() && rest != [] && t == rest[0] && waiters == w.kept + rest
      requires t < list && flags == w.flags && eventSet[..] == w.wanted && Proper(eventInfo[t])
      modifies this`flags, this`waiters, links.next, links.prev, eventSet
      ensures Shaped() && flags == Visit(w, eventInfo[..], t).flags && eventSet[..] == Visit(w, eventInfo[..], t).wanted
      ensures waiters == Visit(w, eventInfo[..], t).kept + rest[1..]
    {
      hide Satisfied, Linked;
      var ok := Check(t);
      if ok {
        if eventInfo[t].clear {
          flags := flags - eventSet[t];
        }
        Resume(t, |w.kept|);
        assert Without(w.kept + rest, |w.kept|) == w.kept + rest[1..];
      } else {
        assert old(eventSet[..])[t := old(eventSet[t])] == old(eventSet[..]);
        assert w.kept + rest == w.kept + [t] + rest[1..];
      }
    }

    /** rt_event_send; its EINVAL return is not reached. */
    method DoSend(bits: Flags) returns (reply: Reply)
      requires Shaped() && Sound(Value())
      modifies this, links.next, links.prev, eventSet
      ensures Shaped() && Value() == Send(old(Value()), bits) && reply == if bits == {} then Failed else Okay
    {
      if bits == {} {
        return Failed;
      }
      AllProper(Value());
      hide Sound, OnWalk, Visits;
      flags := flags + bits;
      BeginWalk(Walk(flags, eventSet[..], [], [], {}));
      WalkList(Walk(flags, eventSet[..], [], [], {}));
      reply := Okay;
    }

    /** The walk along the list from its head to its end. */
    method WalkList(ghost start: Walk)
      requires Shaped() && OnWalk(start, waiters) && |start.wanted| == |eventInfo[..]| && InRange(waiters, |eventInfo[..]|)
      modifies this`flags, this`waiters, links.next, links.prev, eventSet
      ensures Shaped()
      ensures var w := Visits(start, eventInfo[..], old(waiters));
              waiters == w.kept && flags == w.flags && eventSet[..] == w.wanted
    {
      ghost var w, rest := start, waiters;
      var n := Follow(list, 0);
      hide OnWalk, Visits, Visit, Shaped;
      while n != list
        invariant OnWalk(w, rest) && n == if rest == [] then list else rest[0]
        invariant |w.wanted| == |eventInfo[..]| && InRange(rest, |eventInfo[..]|)
        invariant Visits(w, eventInfo[..], rest) == Visits(start, eventInfo[..], old(waiters))
        decreases |rest|
      {
        n := Turn(n, w, rest);
        VisitsTurn(w, eventInfo[..], rest);
        w := Visit(w, eventInfo[..], rest[0]);
        rest := rest[1..];
      }
      EndWalk(w, rest);
      VisitsEnd(w, eventInfo[..]);
    }

    /** The walk has come as far as w, with the threads in `rest` still to be visited. */
    ghost predicate OnWalk(w: Walk, rest: seq<nat>)
      reads this, links, links.next, links.prev, eventSet, eventInfo
    {
      Shaped() && waiters == w.kept + rest && flags == w.flags && eventSet[..] == w.wanted && InRange(rest, list)
      && forall k :: 0 <= k < |rest| ==> Proper(eventInfo[rest[k]])
    }

    lemma BeginWalk(w: Walk)
      requires Shaped() && w == Walk(flags, eventSet[..], [], [], {})
      requires forall k :: 0 <= k < |waiters| ==> Proper(eventInfo[waiters[k]])
      ensures OnWalk(w, waiters) && (waiters == [] || waiters[0] < list) && InRange(waiters, |eventInfo[..]|)
    {
      assert waiters == [] + waiters;
    }

    lemma EndWalk(w: Walk, rest: seq<nat>)
      requires OnWalk(w, rest) && (rest == [] || rest[0] == list)
      ensures Shaped() && rest == [] && waiters == w.kept && flags == w.flags && eventSet[..] == w.wanted
    {
    }

    method Turn(t: nat, ghost w: Walk, ghost rest: seq<nat>) returns (n: nat)
      requires OnWalk(w, rest) && rest != [] && t == rest[0]
      modifies this`flags, this`waiters, links.next, links.prev, eventSet
      ensures t < |w.wanted| == |eventInfo[..]|
      ensures OnWalk(Visit(w, eventInfo[..], t), rest[1..])
      ensures n == if rest[1..] == [] then list else rest[1..][0]
    {
      hide Visit, Linked;
      assert ([list] + waiters)[|w.kept| + 1] == t;
      n := Follow(t, |w.kept| + 1);
      assert |rest| > 1 ==> waiters[|w.kept| + 1] == rest[1];
      DoVisit(t, w, rest);
    }

    /** _ipc_list_suspend in either mode. */
    method Suspend(t: nat, byPriority: bool, priority: array<nat>)
      requires Shaped() && t < list == priority.Length && t !in waiters
      requires priority != links.next && priority != links.prev
      modifies this`waiters, links.next, links.prev
      ensures Shaped() && waiters == Spliced(old(waiters), t, Slot(byPriority, old(waiters), priority[..], t))
    {
      hide Linked, Queued, Place;
      if byPriority {
        links.QueueByPriority(list, t, priority, waiters);
        waiters := Queued(waiters, priority[..], t);
        QueuedIs(old(waiters), priority[..], t);
      } else {
        links.InsertBefore(list, t, [list] + waiters, 0);
        assert InsertedBefore([list] + waiters, 0, t) == [list] + (waiters + [t]);
        waiters := waiters + [t];
        assert waiters == Spliced(old(waiters), t, |old(waiters)|);
      }
    }

    /** rt_event_recv up to where it returns or has suspended the thread. */
    method DoReceive(t: nat, wanted: Flags, info: Info, wait: bool, byPriority: bool, priority: array<nat>)
      returns (reply: Reply, got: Flags)
      requires Shaped() && t < list == priority.Length && t !in waiters && Proper(info)
      requires priority != links.next && priority != links.prev
      modifies this, links.next, links.prev, eventSet, eventInfo
      ensures Shaped() && reply == ReceiveReply(old(Value()), wanted, info, wait)
      ensures Value() == Receive(old(Value()), t, wanted, info, wait, Slot(byPriority, old(waiters), priority[..], t))
      ensures reply == Okay ==> got == old(flags) * wanted && got != {}
    {
      hide Linked, Place;
      got := {};
      if wanted == {} {
        return Failed, got;
      }
      var status := false;
      if info.all {
        if flags * wanted == wanted {
          status := true;
        }
      } else if info.some {
        if flags * wanted != {} {
          status := true;
        }
      }
      WantedAll(flags, wanted);
      if status {
        got := flags * wanted;
        eventSet[t] := flags * wanted;
        eventInfo[t] := info;
        if info.clear {
          flags := flags - wanted;
        }
        reply := Okay;
      } else if !wait {
        reply := TimedOut;
      } else {
        eventSet[t] := wanted;
        eventInfo[t] := info;
        Suspend(t, byPriority, priority);
        reply := Suspended;
      }
    }
  }

  lemma VisitsTurn(w: Walk, info: seq<Info>, rest: seq<nat>)
    requires |w.wanted| == |info| && InRange(rest, |info|) && rest != []
    ensures rest[0] < |info| && |Visit(w, info, rest[0]).wanted| == |info| && InRange(rest[1..], |info|)
    ensures Visits(w, info, rest) == Visits(Visit(w, info, rest[0]), info, rest[1..])
  {
  }

  lemma VisitsEnd(w: Walk, info: seq<Info>)
    requires |w.wanted| == |info|
    ensures Visits(w, info, []) == w
  {
  }

  lemma WantedAll(flags: Flags, wanted: Flags)
    ensures flags * wanted == wanted <==> wanted <= flags
    ensures flags * wanted == wanted * flags
  {
    assert flags * wanted <= flags;
  }

  function Spliced(q: seq<nat>, t: nat, at: nat): seq<nat>
    requires at <= |q|
  {
    q[..at] + [t] + q[at..]
  }

  /** Where a thread goes on the list: behind everybody, or behind everybody as urgent. */
  function Slot(byPriority: bool, q: seq<nat>, priority: seq<nat>, t: nat): (i: nat)
    requires t < |priority| && InRange(q, |priority|)
    ensures i <= |q|
  {
    if byPriority then Place(q, priority, t) else |q|
  }

  lemma QueuedIs(q: seq<nat>, priority: seq<nat>, t: nat)
    requires t < |priority| && InRange(q, |priority|)
    ensures Queued(q, priority, t) == Spliced(q, t, Place(q, priority, t)) && InRange(Queued(q, priority, t), |priority|)
  {
  }
}
