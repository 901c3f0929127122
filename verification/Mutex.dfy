/**
 The mutex of ipc.c with its priority inheritance, for any number of threads that use this mutex only.
 Threads are numbers; each region with interrupts disabled is one step.
 */
module Mutex {

  import opened WaitList

  const HOLD_MAX: nat := 255
  const VALUE_MAX: nat := 65535
  const NO_PRIORITY: nat := 255

  datatype Err = Okay | TimedOut | Full | Failed

  datatype Owner = Nobody | Held(holder: nat)

  /** The mutex and what it uses of the threads: their current priority and their error field. */
  datatype State = State(value: nat, hold: nat, owner: Owner, original: nat, waiters: seq<nat>,
                         priority: seq<nat>, error: seq<Err>)

  /** What a call of rt_mutex_take comes to in its first step. */
  datatype Reply = Returned(err: Err) | Blocked

  function Start(priority: seq<nat>): State {
    State(1, 0, Nobody, NO_PRIORITY, [], priority, seq(|priority|, _ => Okay))
  }

  /** The bounds a state must have for the steps to make sense. */
  predicate Sized(s: State) {
    |s.error| == |s.priority| && InRange(s.waiters, |s.priority|)
    && (s.owner.Held? ==> s.owner.holder < |s.priority|)
  }

  /** The owner takes over the priority of a more urgent newcomer; rt_thread_control. */
  function Boosted(s: State, t: nat): State
    requires Sized(s) && t < |s.priority|
  {
    if s.owner.Held? && s.priority[t] < s.priority[s.owner.holder]
    then s.(priority := s.priority[s.owner.holder := s.priority[t]]) else s
  }

  function TakeReply(s: State, t: nat, wait: bool): Reply
    requires Sized(s) && t < |s.priority|
  {
    if s.owner == Held(t) then Returned(if s.hold < HOLD_MAX then Okay else Full)
    else if s.value > 0 then Returned(if s.hold < HOLD_MAX then Okay else Full)
    else if !wait then Returned(TimedOut)
    else Blocked
  }

  /** rt_mutex_take up to the point where the thread returns or is suspended. */
  function Take(s: State, t: nat, wait: bool): State
    requires Sized(s) && t < |s.priority|
  {
    var r := s.(error := s.error[t := Okay]);
    if s.owner == Held(t) then (if s.hold < HOLD_MAX then r.(hold := s.hold + 1) else r)
    else if s.value > 0 then
      var g := r.(value := s.value - 1, owner := Held(t), original := s.priority[t]);
      if s.hold < HOLD_MAX then g.(hold := s.hold + 1) else g
    else if !wait then r.(error := s.error[t := TimedOut])
    else
      var b := Boosted(r, t);
      b.(waiters := Queued(b.waiters, b.priority, t))
  }

  function ReleaseReply(s: State, t: nat): Err {
    if s.owner != Held(t) then Failed
    else if s.hold == 1 && s.waiters == [] && s.value >= VALUE_MAX then Full
    else Okay
  }

  /** rt_mutex_release */
  function Release(s: State, t: nat): State
    requires Sized(s) && t < |s.priority| && (s.owner == Held(t) ==> s.hold > 0)
  {
    if s.owner != Held(t) then s.(error := s.error[t := Failed])
    else if s.hold > 1 then s.(hold := s.hold - 1)
    else
      var r := s.(hold := 0, priority := s.priority[t := s.original]);
      if s.waiters != [] then
        var next := s.waiters[0];
        r.(owner := Held(next), original := r.priority[next], hold := 1, waiters := s.waiters[1..])
      else if s.value < VALUE_MAX then r.(value := s.value + 1, owner := Nobody, original := NO_PRIORITY)
      else r
  }

  /** The i-th waiter's timer fires; _thread_timeout. */
  function Expire(s: State, i: nat): State
    requires Sized(s) && i < |s.waiters|
  {
    s.(error := s.error[s.waiters[i] := TimedOut], waiters := Without(s.waiters, i))
  }

  // ---------------------------------------------------------------- the invariant

  predicate WaitersFit(s: State)
    requires Sized(s)
  {
    Distinct(s.waiters) && Sorted(s.waiters, s.priority)
    && (forall i :: 0 <= i < |s.waiters| ==> s.owner != Held(s.waiters[i]) && s.error[s.waiters[i]] == Okay)
  }

  /** `base` holds the priorities the threads were created with. */
  predicate OwnerFits(s: State, base: seq<nat>)
    requires Sized(s) && |base| == |s.priority|
  {
    match s.owner
    case Nobody => s.value == 1 && s.hold == 0 && s.waiters == []
    case Held(o) =>
      s.value == 0 && 1 <= s.hold <= HOLD_MAX && s.original == base[o] && s.priority[o] <= base[o]
      && (forall i :: 0 <= i < |s.waiters| ==> s.priority[o] <= s.priority[s.waiters[i]])
  }

  predicate Valid(s: State, base: seq<nat>) {
    Sized(s) && |base| == |s.priority| && WaitersFit(s) && OwnerFits(s, base)
    && (forall t :: 0 <= t < |base| && s.owner != Held(t) ==> s.priority[t] == base[t])
  }

  lemma StartValid(base: seq<nat>)
    ensures Valid(Start(base), base)
  {
  }

  lemma TakeKeeps(s: State, base: seq<nat>, t: nat, wait: bool)
    requires Valid(s, base) && t < |base| && t !in s.waiters
    ensures Valid(Take(s, t, wait), base)
    ensures TakeReply(s, t, wait) == Blocked <==> t in Take(s, t, wait).waiters
  {
    if TakeReply(s, t, wait) == Blocked {
      BlockKeeps(s, base, t);
    } else {
      hide Distinct, Sorted;
    }
  }

  lemma BlockKeeps(s: State, base: seq<nat>, t: nat)
    requires Valid(s, base) && t < |base| && t !in s.waiters && s.owner.Held? && s.owner != Held(t)
    ensures Valid(Take(s, t, true), base) && t in Take(s, t, true).waiters
  {
    hide Queued;
    var b := Boosted(s.(error := s.error[t := Okay]), t);
    var o := s.owner.holder;
    assert forall i :: 0 <= i < |s.waiters| ==> s.waiters[i] != o;
    SortedSame(s.waiters, s.priority, b.priority);
    hide Distinct, Sorted;
    QueuedFits(b.waiters, b.priority, t);
  }

  lemma ReleaseKeeps(s: State, base: seq<nat>, t: nat)
    requires Valid(s, base) && t < |base| && t !in s.waiters
    ensures Valid(Release(s, t), base)
  {
    if s.owner == Held(t) && s.hold == 1 && s.waiters != [] {
      HandOffKeeps(s, base, t);
    } else {
      hide Distinct, Sorted;
    }
  }

  lemma HandOffKeeps(s: State, base: seq<nat>, t: nat)
    requires Valid(s, base) && s.owner == Held(t) && s.hold == 1 && s.waiters != []
    ensures Valid(Release(s, t), base)
  {
    hide Distinct, Sorted;
    var priority := s.priority[t := s.original];
    SortedSame(s.waiters, s.priority, priority);
    TailFits(s.waiters, priority);
  }

  lemma ExpireKeeps(s: State, base: seq<nat>, i: nat)
    requires Valid(s, base) && i < |s.waiters|
    ensures Valid(Expire(s, i), base) && s.waiters[i] !in Expire(s, i).waiters
  {
    hide Distinct, Sorted, Without;
    WithoutFits(s.waiters, i, s.priority);
  }

  // ---------------------------------------------------------------- the mutex in place

  class Lock {
    var value: nat
    var hold: nat
    var owner: Owner
    var original: nat
    const links: Links
    const list: nat
    const priority: array<nat>
    const error: array<Err>
    ghost var waiters: seq<nat>

    /** The wait list hangs in the links, with the number after the last thread as its head. */
    ghost predicate Shaped()
      reads this, links, links.next, links.prev, priority, error
    {
      links.next != links.prev && links.next != priority && links.prev != priority
      && links.next.Length == links.prev.Length == list + 1 && list == priority.Length
      && links.Ring([list] + waiters) && Sized(Value())
    }

    ghost function Value(): State
      reads this, priority, error
    {
      State(value, hold, owner, original, waiters, priority[..], error[..])
    }

    constructor (base: seq<nat>)
      ensures Shaped() && Value() == Start(base)
      ensures fresh(links) && fresh(links.next) && fresh(links.prev) && fresh(priority) && fresh(error)
    {
      var count := |base|;
      value, hold, owner, original := 1, 0, Nobody, NO_PRIORITY;
      var ls := new Links(count + 1);
      var ps := new nat[count](i requires 0 <= i < count => base[i]);
      var es := new Err[count](_ => Okay);
      links, list, priority, error, waiters := ls, count, ps, es, [];
      new;
      assert [list] + waiters == [list];
      assert priority[..] == base;
      assert error[..] == seq(|base|, _ => Okay);
    }

    /** _ipc_list_suspend on the mutex's list. */
    method Suspend(t: nat)
      requires Shaped() && t < list && t !in waiters
      modifies this`waiters, links.next, links.prev
      ensures Shaped() && waiters == Queued(old(waiters), priority[..], t)
    {
      hide Linked;
      links.QueueByPriority(list, t, priority, waiters);
      waiters := Queued(waiters, priority[..], t);
      QueuedInRange(old(waiters), priority[..], t);
    }

    /** Taking the i-th waiter off the list, for whatever reason. */
    method Unlink(t: nat, ghost i: nat)
      requires Shaped() && i < |waiters| && waiters[i] == t
      modifies this`waiters, links.next, links.prev
      ensures Shaped() && waiters == Without(old(waiters), i)
    {
      hide Linked;
      ghost var ring := [list] + waiters;
      links.Remove(t, ring, i + 1);
      assert Without(ring, i + 1) == [list] + Without(waiters, i);
      waiters := Without(waiters, i);
      WithoutInRange(old(waiters), i, list);
    }

    method DoTake(t: nat, wait: bool) returns (reply: Reply)
      requires Shaped() && t < list && t !in waiters
      modifies this, links.next, links.prev, priority, error
      ensures Shaped() && Value() == Take(old(Value()), t, wait) && reply == TakeReply(old(Value()), t, wait)
    {
      hide Queued, Linked;
      error[t] := Okay;
      if owner == Held(t) {
        if hold < HOLD_MAX {
          hold := hold + 1;
        } else {
          return Returned(Full);
        }
      } else if value > 0 {
        value := value - 1;
        owner := Held(t);
        original := priority[t];
        if hold < HOLD_MAX {
          hold := hold + 1;
        } else {
          return Returned(Full);
        }
      } else if !wait {
        error[t] := TimedOut;
        return Returned(TimedOut);
      } else {
        if owner.Held? && priority[t] < priority[owner.holder] {
          priority[owner.holder] := priority[t];
        }
        Suspend(t);
        return Blocked;
      }
      reply := Returned(Okay);
    }

    method DoRelease(t: nat) returns (reply: Err)
      requires Shaped() && t < list && (owner == Held(t) ==> hold > 0)
      modifies this, links.next, links.prev, priority, error
      ensures Shaped() && Value() == Release(old(Value()), t) && reply == ReleaseReply(old(Value()), t)
    {
      hide Linked;
      if owner != Held(t) {
        error[t] := Failed;
        return Failed;
      }
      hold := hold - 1;
      if hold == 0 {
        if original != priority[t] {
          priority[t] := original;
        }
        var empty := links.IsEmpty(list, [list] + waiters);
        if !empty {
          DoHandOff();
        } else {
          if value < VALUE_MAX {
            value := value + 1;
          } else {
            return Full;
          }
          owner := Nobody;
          original := NO_PRIORITY;
        }
      }
      reply := Okay;
    }

    /** The first waiter becomes the owner; the hold count is 0 here. */
    method DoHandOff()
      requires Shaped() && waiters != [] && hold == 0
      modifies this, links.next, links.prev
      ensures Shaped() && Value() == old(Value().(owner := Held(waiters[0]), original := priority[waiters[0]],
                                                  hold := 1, waiters := waiters[1..]))
    {
      ghost var ring := [list] + waiters;
      Around(links.next[..], links.prev[..], ring, 0);
      hide Linked;
      var next := links.next[list];
      owner := Held(next);
      original := priority[next];
      hold := hold + 1;
      Unlink(next, 0);
    }

    method DoExpire(t: nat, ghost i: nat)
      requires Shaped() && i < |waiters| && waiters[i] == t
      modifies this`waiters, links.next, links.prev, error
      ensures Shaped() && Value() == Expire(old(Value()), i)
    {
      hide Linked;
      error[t] := TimedOut;
      Unlink(t, i);
    }
  }
}
