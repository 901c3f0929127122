/**
 The mutex over whole runs: every interleaving of takes, timeouts and releases of any number of threads.
 */
module MutexLaws {

  import opened WaitList
  import opened Mutex

  datatype Step = TakeStep(thread: nat, wait: bool) | ReleaseStep(thread: nat) | ExpireStep(at: nat)

  /** A thread that is suspended takes no steps of its own, and only a waiter's timer can fire. */
  predicate Enabled(s: State, a: Step) {
    match a
    case TakeStep(t, _) => t < |s.priority| && t !in s.waiters
    case ReleaseStep(t) => t < |s.priority| && t !in s.waiters
    case ExpireStep(i) => i < |s.waiters|
  }

  function Do(s: State, base: seq<nat>, a: Step): State
    requires Valid(s, base) && Enabled(s, a)
  {
    match a
    case TakeStep(t, wait) => Take(s, t, wait)
    case ReleaseStep(t) => Release(s, t)
    case ExpireStep(i) => Expire(s, i)
  }

  lemma DoKeeps(s: State, base: seq<nat>, a: Step)
    requires Valid(s, base) && Enabled(s, a)
    ensures Valid(Do(s, base, a), base)
  {
    hide Valid, Take, Release, Expire;
    match a {
      case TakeStep(t, wait) => assert t < |base| by { SameCount(s, base); } TakeKeeps(s, base, t, wait);
      case ReleaseStep(t) => assert t < |base| by { SameCount(s, base); } ReleaseKeeps(s, base, t);
      case ExpireStep(i) => ExpireKeeps(s, base, i);
    }
  }

  lemma SameCount(s: State, base: seq<nat>)
    requires Valid(s, base)
    ensures |s.priority| == |base|
  {
  }

  /** The state after a run from a fresh mutex; steps that are not enabled do not happen. */
  function After(base: seq<nat>, run: seq<Step>): (s: State)
    ensures Valid(s, base)
  {
    if run == [] then StartValid(base); Start(base)
    else
      var s := After(base, run[..|run| - 1]);
      var a := run[|run| - 1];
      if Enabled(s, a) then DoKeeps(s, base, a); Do(s, base, a) else s
  }

  /** In every reachable state the three ways of telling that the mutex is free agree, the waiters are
      sorted, and the owner is at least as urgent as each of them, also right after a hand-off. */
  lemma AlwaysInherited(base: seq<nat>, run: seq<Step>)
    ensures var s := After(base, run);
            Sized(s) && |base| == |s.priority|
            && (s.value == 1 <==> s.owner == Nobody) && (s.owner == Nobody <==> s.hold == 0)
            && Sorted(s.waiters, s.priority)
            && (s.owner.Held? ==> forall i :: 0 <= i < |s.waiters| ==> s.priority[s.owner.holder] <= s.priority[s.waiters[i]])
            && (forall t :: 0 <= t < |base| && s.owner != Held(t) ==> s.priority[t] == base[t])
  {
    hide Sorted, Distinct, Do;
  }

  /** The overflow returns of rt_mutex_release and of a first take cannot be reached; a take is refused
      as full exactly when the owner already holds the mutex 255 times. */
  lemma FullMeans(base: seq<nat>, run: seq<Step>, t: nat, wait: bool)
    requires t < |base| && t !in After(base, run).waiters
    ensures var s := After(base, run);
            ReleaseReply(s, t) != Full
            && (TakeReply(s, t, wait) == Returned(Full) <==> s.owner == Held(t) && s.hold == HOLD_MAX)
  {
    hide Sorted, Distinct, Do;
  }

  /** The last release gives the former owner its own priority back and hands the mutex to the first of the
      most urgent waiters, with no error recorded for it. */
  lemma LastRelease(base: seq<nat>, run: seq<Step>, t: nat)
    requires t < |base| && After(base, run).owner == Held(t) && After(base, run).hold == 1
    ensures var s := After(base, run);
            var r := Release(s, t);
            r.priority[t] == base[t]
            && (if s.waiters == [] then r.owner == Nobody
                else r.owner == Held(s.waiters[0]) && r.hold == 1 && r.error[s.waiters[0]] == Okay
                     && r.priority[s.waiters[0]] == base[s.waiters[0]])
  {
    hide Sorted, Do;
    var s := After(base, run);
    assert Enabled(s, ReleaseStep(t)) by { assert forall i :: 0 <= i < |s.waiters| ==> s.waiters[i] != t; }
    ReleaseKeeps(s, base, t);
  }

  /** A taken mutex is given back by releasing it as often as it was taken. */
  lemma TakeThenRelease(s: State, base: seq<nat>, t: nat, wait: bool)
    requires Valid(s, base) && t < |base| && t !in s.waiters && TakeReply(s, t, wait) == Returned(Okay)
    ensures Release(Take(s, t, wait), t) == s.(error := s.error[t := Okay], original := if s.owner == Nobody then NO_PRIORITY else s.original)
  {
    hide Sorted, Distinct;
    if s.owner == Nobody {
      assert s.priority[t := s.priority[t]] == s.priority;
    }
  }

  // ---------------------------------------------------------------- what each call does and answers

  /** t stands behind all that are as urgent as it and before all that are less so. */
  predicate Lines(q: seq<nat>, r: seq<nat>, base: seq<nat>, t: nat, i: nat)
    requires InRange(q, |base|) && t < |base| && i <= |q|
  {
    r == q[..i] + [t] + q[i..]
    && (forall k :: 0 <= k < i ==> base[q[k]] <= base[t]) && (forall k :: i <= k < |q| ==> base[q[k]] > base[t])
  }

  /**
   A take is granted to the owner, up to 255 holds, and to anybody while the mutex is free.  Anybody else gives up
   or waits in line, and lends the owner its priority if that is more urgent.
   */
  lemma TakeMeaning(s: State, base: seq<nat>, t: nat, wait: bool)
    requires Valid(s, base) && t < |base| && t !in s.waiters
    ensures var r, reply := Take(s, t, wait), TakeReply(s, t, wait);
            var clear := s.(error := s.error[t := Okay]);
            match s.owner
            case Nobody =>
              reply == Returned(Okay) && r == clear.(owner := Held(t), hold := 1, value := 0, original := base[t])
            case Held(o) =>
              if o == t then
                if s.hold < 255 then reply == Returned(Okay) && r == clear.(hold := s.hold + 1)
                else reply == Returned(Full) && r == clear
              else if !wait then reply == Returned(TimedOut) && r == s.(error := s.error[t := TimedOut])
              else
                && reply == Blocked
                && r == clear.(waiters := r.waiters,
                               priority := s.priority[o := if base[t] < s.priority[o] then base[t] else s.priority[o]])
                && exists i :: 0 <= i <= |s.waiters| && Lines(s.waiters, r.waiters, base, t, i)
  {
    hide Sorted, Distinct;
    if TakeReply(s, t, wait) == Blocked {
      WaitsInLine(s, base, t);
      assert s.priority[s.owner.holder := s.priority[s.owner.holder]] == s.priority;
    }
  }

  lemma WaitsInLine(s: State, base: seq<nat>, t: nat)
    requires Valid(s, base) && t < |base| && t !in s.waiters && s.owner.Held? && s.owner != Held(t)
    ensures exists i :: 0 <= i <= |s.waiters| && Lines(s.waiters, Take(s, t, true).waiters, base, t, i)
  {
    var b := Boosted(s.(error := s.error[t := Okay]), t);
    assert forall i :: 0 <= i < |s.waiters| ==> s.waiters[i] != s.owner.holder && b.priority[s.waiters[i]] == base[s.waiters[i]];
    assert b.priority[t] == base[t];
    SortedSame(s.waiters, s.priority, b.priority);
    var i := Place(s.waiters, b.priority, t);
    assert forall k :: i <= k < |s.waiters| ==> b.priority[s.waiters[k]] >= b.priority[s.waiters[i]];
    assert Lines(s.waiters, Take(s, t, true).waiters, base, t, i);
  }

  /** Only the owner's release counts: it gives one hold back, and the last one passes the mutex on or frees it. */
  lemma ReleaseMeaning(s: State, base: seq<nat>, t: nat)
    requires Valid(s, base) && t < |base| && t !in s.waiters
    ensures var r, reply := Release(s, t), ReleaseReply(s, t);
            if s.owner != Held(t) then reply == Failed && r == s.(error := s.error[t := Failed])
            else if s.hold > 1 then reply == Okay && r == s.(hold := s.hold - 1)
            else if s.waiters == [] then
              reply == Okay && r.owner == Nobody && r.hold == 0 && r.value == 1 && r.waiters == []
              && r.priority == s.priority[t := base[t]] && r.error == s.error
            else
              reply == Okay && r.owner == Held(s.waiters[0]) && r.hold == 1 && r.value == 0 && r.original == base[s.waiters[0]]
              && s.waiters == [s.waiters[0]] + r.waiters && r.priority == s.priority[t := base[t]] && r.error == s.error
  {
    hide Sorted, Distinct;
    if s.waiters != [] {
      assert s.waiters == [s.waiters[0]] + s.waiters[1..];
    }
  }

  /** A waiter whose time is up leaves the line with an error, and nothing else changes. */
  lemma ExpireMeaning(s: State, base: seq<nat>, i: nat)
    requires Valid(s, base) && i < |s.waiters|
    ensures Expire(s, i) == s.(waiters := s.waiters[..i] + s.waiters[i + 1..], error := s.error[s.waiters[i] := TimedOut])
  {
  }

  // ---------------------------------------------------------------- first come, first served

  /** The index of the step that last made thread t wait. */
  function Since(base: seq<nat>, run: seq<Step>, t: nat): nat {
    if run == [] then 0
    else
      var past := run[..|run| - 1];
      if t in After(base, run).waiters && t !in After(base, past).waiters then |run|
      else Since(base, past, t)
  }

  function Stamps(base: seq<nat>, run: seq<Step>): (w: seq<nat>)
    ensures |w| == |base| && forall t :: 0 <= t < |base| ==> w[t] == Since(base, run, t)
  {
    seq(|base|, t requires 0 <= t < |base| => Since(base, run, t))
  }

  /** Among equally urgent threads on q, the one that has waited longer is in front. */
  predicate Ordered(q: seq<nat>, base: seq<nat>, since: seq<nat>, now: nat) {
    |since| == |base| && InRange(q, |base|)
    && (forall i :: 0 <= i < |q| ==> since[q[i]] <= now)
    && (forall i, j :: 0 <= i < j < |q| && base[q[i]] == base[q[j]] ==> since[q[i]] < since[q[j]])
  }

  predicate Fair(base: seq<nat>, run: seq<Step>) {
    Ordered(After(base, run).waiters, base, Stamps(base, run), |run|)
  }

  /** What a step does to the wait list: one thread joins behind all its equals, one leaves, or nothing. */
  ghost predicate Requeued(q: seq<nat>, r: seq<nat>, base: seq<nat>)
    requires InRange(q, |base|)
  {
    r == q
    || (exists i :: 0 <= i < |q| && r == Without(q, i))
    || (exists i, t :: Joins(q, r, base, i, t))
  }

  predicate Joins(q: seq<nat>, r: seq<nat>, base: seq<nat>, i: nat, t: nat)
    requires InRange(q, |base|)
  {
    i <= |q| && t < |base| && t !in q && r == q[..i] + [t] + q[i..]
    && forall k :: 0 <= k < |q| && base[q[k]] == base[t] ==> k < i
  }

  lemma DoRequeues(s: State, base: seq<nat>, a: Step)
    requires Valid(s, base) && Enabled(s, a)
    ensures Requeued(s.waiters, Do(s, base, a).waiters, base)
  {
    var q, r := s.waiters, Do(s, base, a).waiters;
    match a {
      case TakeStep(t, wait) =>
        if TakeReply(s, t, wait) == Blocked {
          BlockJoins(s, base, t);
        }
      case ReleaseStep(t) =>
        if q != [] && r != q {
          assert r == Without(q, 0);
        }
      case ExpireStep(i) => assert r == Without(q, i);
    }
  }

  lemma BlockJoins(s: State, base: seq<nat>, t: nat)
    requires Valid(s, base) && t < |base| && t !in s.waiters && TakeReply(s, t, true) == Blocked
    ensures Requeued(s.waiters, Take(s, t, true).waiters, base)
  {
    var b := Boosted(s.(error := s.error[t := Okay]), t);
    assert forall i :: 0 <= i < |s.waiters| ==> b.priority[s.waiters[i]] == base[s.waiters[i]];
    assert b.priority[t] == base[t];
    SortedSame(s.waiters, s.priority, b.priority);
    hide Sorted, Distinct;
    QueuedSorted(b.waiters, b.priority, t);
    assert Joins(s.waiters, Take(s, t, true).waiters, base, Place(b.waiters, b.priority, t), t);
  }

  lemma {:induction false} AlwaysFair(base: seq<nat>, run: seq<Step>)
    ensures Fair(base, run)
  {
    hide Valid, Do, Enabled;
    if run != [] {
      var past, a := run[..|run| - 1], run[|run| - 1];
      var s := After(base, past);
      AlwaysFair(base, past);
      ValidDistinct(s, base);
      if Enabled(s, a) {
        DoRequeues(s, base, a);
      }
      FairStep(base, run);
    }
  }

  lemma ValidDistinct(s: State, base: seq<nat>)
    requires Valid(s, base)
    ensures InRange(s.waiters, |base|) && Distinct(s.waiters)
  {
  }

  lemma JoinOrdered(q: seq<nat>, r: seq<nat>, base: seq<nat>, i: nat, t: nat, since: seq<nat>, since2: seq<nat>, now: nat)
    requires Ordered(q, base, since, now) && Joins(q, r, base, i, t) && |since2| == |base|
    requires since2[t] == now + 1 && forall k :: 0 <= k < |q| ==> since2[q[k]] == since[q[k]]
    ensures Ordered(r, base, since2, now + 1)
  {
    assert forall k :: 0 <= k < |r| ==> r[k] == if k < i then q[k] else if k == i then t else q[k - 1];
    forall x, y | 0 <= x < y < |r| && base[r[x]] == base[r[y]] ensures since2[r[x]] < since2[r[y]] {
      if y == i {
        assert r[x] == q[x];
      } else {
        assert x != i by { assert y > i ==> r[y] == q[y - 1]; }
        var x0, y0 := if x < i then x else x - 1, if y < i then y else y - 1;
        assert r[x] == q[x0] && r[y] == q[y0] && x0 < y0;
      }
    }
  }

  lemma LeaveOrdered(q: seq<nat>, i: nat, base: seq<nat>, since: seq<nat>, since2: seq<nat>, now: nat)
    requires Ordered(q, base, since, now) && i < |q| && |since2| == |base|
    requires forall k :: 0 <= k < |q| && k != i ==> since2[q[k]] == since[q[k]]
    ensures Ordered(Without(q, i), base, since2, now + 1)
  {
    var r := Without(q, i);
    assert forall k :: 0 <= k < |r| ==> r[k] == q[if k < i then k else k + 1];
    forall x, y | 0 <= x < y < |r| && base[r[x]] == base[r[y]] ensures since2[r[x]] < since2[r[y]] {
      var x0, y0 := if x < i then x else x + 1, if y < i then y else y + 1;
      assert r[x] == q[x0] && r[y] == q[y0] && x0 < y0;
    }
  }

  lemma SinceIs(base: seq<nat>, run: seq<Step>, t: nat)
    requires run != [] && t in After(base, run).waiters
    ensures Since(base, run, t)
            == if t in After(base, run[..|run| - 1]).waiters then Since(base, run[..|run| - 1], t) else |run|
  {
  }

  lemma StampsKept(base: seq<nat>, run: seq<Step>)
    requires run != [] && InRange(After(base, run[..|run| - 1]).waiters, |base|)
    ensures var q, r := After(base, run[..|run| - 1]).waiters, After(base, run).waiters;
            forall k :: 0 <= k < |q| && q[k] in r ==> Stamps(base, run)[q[k]] == Stamps(base, run[..|run| - 1])[q[k]]
  {
    hide After, Since;
    var q, r := After(base, run[..|run| - 1]).waiters, After(base, run).waiters;
    forall k | 0 <= k < |q| && q[k] in r ensures Since(base, run, q[k]) == Since(base, run[..|run| - 1], q[k]) {
      SinceIs(base, run, q[k]);
    }
  }

  lemma JoinMembers(q: seq<nat>, r: seq<nat>, base: seq<nat>, i: nat, t: nat)
    requires InRange(q, |base|) && Joins(q, r, base, i, t)
    ensures t < |base| && t in r && t !in q && forall k :: 0 <= k < |q| ==> q[k] in r
  {
    assert r[i] == t;
    forall k | 0 <= k < |q| ensures q[k] in r {
      assert q[k] == r[if k < i then k else k + 1];
    }
  }

  lemma FairJoin(base: seq<nat>, run: seq<Step>, i: nat, t: nat)
    requires run != [] && Fair(base, run[..|run| - 1])
    requires InRange(After(base, run[..|run| - 1]).waiters, |base|)
    requires Joins(After(base, run[..|run| - 1]).waiters, After(base, run).waiters, base, i, t)
    ensures Fair(base, run)
  {
    hide After, Since, Ordered, Joins;
    var past := run[..|run| - 1];
    var q, r := After(base, past).waiters, After(base, run).waiters;
    StampsKept(base, run);
    JoinMembers(q, r, base, i, t);
    SinceIs(base, run, t);
    JoinOrdered(q, r, base, i, t, Stamps(base, past), Stamps(base, run), |past|);
  }

  lemma FairLeave(base: seq<nat>, run: seq<Step>, i: nat)
    requires run != [] && Fair(base, run[..|run| - 1])
    requires var q := After(base, run[..|run| - 1]).waiters;
             InRange(q, |base|) && i < |q| && After(base, run).waiters == Without(q, i)
    ensures Fair(base, run)
  {
    hide After, Since, Ordered;
    var past := run[..|run| - 1];
    var q, r := After(base, past).waiters, After(base, run).waiters;
    StampsKept(base, run);
    forall k | 0 <= k < |q| && k != i ensures q[k] in r {
      assert q[k] == r[if k < i then k else k - 1];
    }
    LeaveOrdered(q, i, base, Stamps(base, past), Stamps(base, run), |past|);
  }

  lemma FairStep(base: seq<nat>, run: seq<Step>)
    requires run != [] && Fair(base, run[..|run| - 1])
    requires var q := After(base, run[..|run| - 1]).waiters;
             InRange(q, |base|) && Distinct(q) && Requeued(q, After(base, run).waiters, base)
    ensures Fair(base, run)
  {
    hide After, Since, Ordered, Joins, Fair;
    var past := run[..|run| - 1];
    var q, r := After(base, past).waiters, After(base, run).waiters;
    if i, t :| Joins(q, r, base, i, t) {
      FairJoin(base, run, i, t);
    } else if r != q {
      var i :| 0 <= i < |q| && r == Without(q, i);
      FairLeave(base, run, i);
    } else {
      FairStay(base, run);
    }
  }

  lemma FairStay(base: seq<nat>, run: seq<Step>)
    requires run != [] && Fair(base, run[..|run| - 1])
    requires InRange(After(base, run[..|run| - 1]).waiters, |base|)
    requires After(base, run).waiters == After(base, run[..|run| - 1]).waiters
    ensures Fair(base, run)
  {
    hide After, Since, Ordered;
    var past := run[..|run| - 1];
    StampsKept(base, run);
    StayOrdered(After(base, past).waiters, base, Stamps(base, past), Stamps(base, run), |past|);
  }

  lemma StayOrdered(q: seq<nat>, base: seq<nat>, since: seq<nat>, since2: seq<nat>, now: nat)
    requires Ordered(q, base, since, now) && |since2| == |base|
    requires forall k :: 0 <= k < |q| ==> since2[q[k]] == since[q[k]]
    ensures Ordered(q, base, since2, now + 1)
  {
  }

  // ---------------------------------------------------------------- how far the owner is boosted

  /** The threads that have started waiting since the present owner got the mutex. */
  function Contenders(base: seq<nat>, run: seq<Step>): (c: seq<nat>)
    ensures InRange(c, |base|)
  {
    if run == [] then []
    else
      var past, a := run[..|run| - 1], run[|run| - 1];
      var s := After(base, past);
      if After(base, run).owner != s.owner then []
      else if a.TakeStep? && Enabled(s, a) && TakeReply(s, a.thread, a.wait) == Blocked
      then SameCount(s, base); Contenders(base, past) + [a.thread]
      else Contenders(base, past)
  }

  /** The most urgent of p and the priorities of the threads in c. */
  function Most(base: seq<nat>, p: nat, c: seq<nat>): nat
    requires InRange(c, |base|)
  {
    if c == [] then p
    else
      var m := Most(base, p, c[..|c| - 1]);
      if base[c[|c| - 1]] < m then base[c[|c| - 1]] else m
  }

  /** The owner's priority is exactly the most urgent of its own and those of all who have queued behind it,
      whether or not they are still there. */
  lemma {:induction false} BoostIs(base: seq<nat>, run: seq<Step>)
    ensures var s := After(base, run);
            s.owner.Held? ==> s.owner.holder < |base| <= |s.priority|
                              && s.priority[s.owner.holder] == Most(base, base[s.owner.holder], Contenders(base, run))
  {
    hide Sorted, Distinct, Fair;
    if run != [] {
      var past, a := run[..|run| - 1], run[|run| - 1];
      var s := After(base, past);
      BoostIs(base, past);
      if Enabled(s, a) {
        assert After(base, run) == Do(s, base, a);
        BoostStep(base, s, a, Contenders(base, past));
      }
    }
  }

  lemma BoostStep(base: seq<nat>, s: State, a: Step, c: seq<nat>)
    requires Valid(s, base) && Enabled(s, a) && InRange(c, |base|)
    requires s.owner.Held? ==> s.priority[s.owner.holder] == Most(base, base[s.owner.holder], c)
    ensures var r := Do(s, base, a);
            var c2 := if r.owner != s.owner then []
                      else if a.TakeStep? && TakeReply(s, a.thread, a.wait) == Blocked then c + [a.thread] else c;
            Sized(r) && InRange(c2, |base|) && |base| == |r.priority|
            && (r.owner.Held? ==> r.priority[r.owner.holder] == Most(base, base[r.owner.holder], c2))
  {
    hide Sorted, Distinct, Queued;
    DoKeeps(s, base, a);
    match a {
      case TakeStep(t, wait) =>
        if TakeReply(s, t, wait) == Blocked {
          BlockBoosts(base, s, t, c);
        }
      case ReleaseStep(t) =>
      case ExpireStep(i) =>
    }
  }

  lemma BlockBoosts(base: seq<nat>, s: State, t: nat, c: seq<nat>)
    requires Valid(s, base) && t < |base| && t !in s.waiters && TakeReply(s, t, true) == Blocked && InRange(c, |base|)
    requires s.priority[s.owner.holder] == Most(base, base[s.owner.holder], c)
    ensures var r := Take(s, t, true);
            r.owner == s.owner && |r.priority| == |base|
            && r.priority[s.owner.holder] == Most(base, base[s.owner.holder], c + [t])
  {
    hide Sorted, Distinct, Queued;
    assert (c + [t])[..|c|] == c;
  }

  /** A boost outlives the waiter it was for: thread 1, with priority 5, times out, and the owner, whose own
      priority is 9, still runs at 5 with nobody waiting. */
  lemma BoostOutlivesWaiter()
    ensures var s1 := Take(Start([9, 5]), 0, false);
            Sized(s1) && 1 < |s1.priority|
            && var s2 := Take(s1, 1, true);
               Sized(s2) && s2.waiters == [1]
               && var s3 := Expire(s2, 0);
                  s3.owner == Held(0) && s3.waiters == [] && s3.priority == [5, 5]
  {
    var s1 := Take(Start([9, 5]), 0, false);
    assert s1 == State(0, 1, Held(0), 9, [], [9, 5], [Okay, Okay]);
    assert Queued([], [5, 5], 1) == [1];
    assert Take(s1, 1, true) == State(0, 1, Held(0), 9, [1], [5, 5], [Okay, Okay]);
  }
}
