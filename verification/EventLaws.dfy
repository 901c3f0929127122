/** Whom a send wakes, with what, and what a receive does: the event object in terms of its flags alone. */
module EventLaws {

  import opened WaitList
  import opened Event

  /** What a thread waits for is there: everything it asked for, or something of it. */
  predicate Met(i: Info, wanted: Flags, there: Flags) {
    if i.all then forall f :: f in wanted ==> f in there else exists f :: f in wanted && f in there
  }

  /** The flags that the woken among the first k threads of q took away: what they got, if they clear. */
  function Cleared(q: seq<nat>, kept: seq<nat>, got: seq<Flags>, info: seq<Info>, k: nat): Flags
    requires k <= |q| && InRange(q, |got|) && |got| == |info|
    decreases k
  {
    if k == 0 then {}
    else (if q[0] !in kept && info[q[0]].clear then got[q[0]] else {}) + Cleared(q[1..], kept, got, info, k - 1)
  }

  /** The members of q that are also in kept, in their order. */
  function Staying(q: seq<nat>, kept: seq<nat>): seq<nat> {
    if q == [] then [] else (if q[0] in kept then [q[0]] else []) + Staying(q[1..], kept)
  }

  /** The k-th thread of q was woken exactly if its condition holds of what those before it left. */
  predicate Decided(q: seq<nat>, all: Flags, kept: seq<nat>, wanted: seq<Flags>, got: seq<Flags>, info: seq<Info>, k: nat)
    requires k < |q| && InRange(q, |got|) && |got| == |info| == |wanted|
  {
    var t, left := q[k], all - Cleared(q, kept, got, info, k);
    && (t !in kept <==> Met(info[t], wanted[t], left))
    && got[t] == if t in kept then wanted[t] else wanted[t] * left
  }

  lemma SatisfiedMeans(flags: Flags, wanted: Flags, i: Info)
    requires Proper(i)
    ensures Satisfied(flags, wanted, i) <==> Met(i, wanted, flags)
  {
    if f :| f in wanted && f in flags {
      assert f in wanted * flags;
    }
    if wanted * flags != {} {
      var f :| f in wanted * flags;
    }
  }

  /** A walk changes nothing of threads it does not visit. */
  lemma {:induction false} VisitsFrame(w: Walk, info: seq<Info>, q: seq<nat>, t: nat)
    requires |w.wanted| == |info| && InRange(q, |info|) && t < |info| && t !in q
    ensures var r := Visits(w, info, q); r.wanted[t] == w.wanted[t] && (t in r.kept <==> t in w.kept)
    decreases |q|
  {
    if q != [] {
      hide Satisfied;
      VisitsFrame(Visit(w, info, q[0]), info, q[1..], t);
    }
  }

  lemma TailDistinct(q: seq<nat>)
    requires q != [] && Distinct(q)
    ensures Distinct(q[1..]) && q[0] !in q[1..]
  {
    assert forall i :: 0 <= i < |q| - 1 ==> q[1..][i] == q[i + 1];
  }

  /** The walk along q from w to r: who is woken and gets what, which flags are left, and who stays. */
  predicate Walked(w: Walk, info: seq<Info>, q: seq<nat>, r: Walk)
    requires |w.wanted| == |r.wanted| == |info| && InRange(q, |info|)
  {
    && (forall k :: 0 <= k < |q| ==> Decided(q, w.flags, r.kept, w.wanted, r.wanted, info, k))
    && r.flags == w.flags - Cleared(q, r.kept, r.wanted, info, |q|)
    && r.kept == w.kept + Staying(q, r.kept)
  }

  /** The whole walk, thread by thread. */
  lemma {:induction false} VisitsMeaning(w: Walk, info: seq<Info>, q: seq<nat>)
    requires |w.wanted| == |info| && InRange(q, |info|) && Distinct(q) && forall t :: t in q ==> t !in w.kept
    requires forall k :: 0 <= k < |q| ==> Proper(info[q[k]])
    ensures Walked(w, info, q, Visits(w, info, q))
    decreases |q|
  {
    if q == [] {
      assert w.flags - {} == w.flags;
    } else {
      var t, rest := q[0], q[1..];
      var v := Visit(w, info, t);
      TailDistinct(q);
      SatisfiedMeans(w.flags, w.wanted[t], info[t]);
      assert forall k :: 0 <= k < |rest| ==> rest[k] == q[k + 1] && rest[k] in q;
      assert forall u :: u in v.kept <==> u in w.kept || (u == t && !Satisfied(w.flags, w.wanted[t], info[t]));
      VisitsMeaning(v, info, rest);
      VisitsFrame(v, info, rest, t);
      hide Walked, Satisfied, Met, Distinct;
      VisitStep(w, info, q, Visits(w, info, q));
    }
  }

  lemma ClearedFirst(q: seq<nat>, kept: seq<nat>, got: seq<Flags>, info: seq<Info>, k: nat, all: Flags, own: Flags)
    requires 0 < k <= |q| && InRange(q, |got|) && |got| == |info|
    requires own == if q[0] !in kept && info[q[0]].clear then got[q[0]] else {}
    ensures InRange(q[1..], |got|) && all - Cleared(q, kept, got, info, k) == all - own - Cleared(q[1..], kept, got, info, k - 1)
  {
    assert all - (own + Cleared(q[1..], kept, got, info, k - 1)) == all - own - Cleared(q[1..], kept, got, info, k - 1);
  }

  lemma VisitStep(w: Walk, info: seq<Info>, q: seq<nat>, r: Walk)
    requires |w.wanted| == |r.wanted| == |info| && InRange(q, |info|) && q != [] && q[0] !in q[1..] && q[0] !in w.kept
    requires Satisfied(w.flags, w.wanted[q[0]], info[q[0]]) <==> Met(info[q[0]], w.wanted[q[0]], w.flags)
    requires var v := Visit(w, info, q[0]);
             && InRange(q[1..], |info|) && r.wanted[q[0]] == v.wanted[q[0]] && (q[0] in r.kept <==> q[0] in v.kept)
             && |v.wanted| == |info| && Walked(v, info, q[1..], r)
    ensures Walked(w, info, q, r)
  {
    hide Met, Satisfied, Cleared, Decided, Staying;
    var t, rest, v := q[0], q[1..], Visit(w, info, q[0]);
    var own := if t !in r.kept && info[t].clear then r.wanted[t] else {};
    VisitFacts(w, info, t);
    FirstDecided(w, info, t, v, r, q);
    hide Visit;
    ClearedFirst(q, r.kept, r.wanted, info, |q|, w.flags, own);
    forall k | 0 < k < |q|
      ensures Decided(q, w.flags, r.kept, w.wanted, r.wanted, info, k)
    {
      assert q[k] == rest[k - 1] && rest[k - 1] in rest;
      assert Decided(rest, v.flags, r.kept, v.wanted, r.wanted, info, k - 1);
      LaterDecided(q, w.flags, r.kept, w.wanted, v.wanted, r.wanted, info, k, own);
    }
    StayingFirst(q, w, v, r);
  }

  lemma VisitFacts(w: Walk, info: seq<Info>, t: nat)
    requires t < |w.wanted| == |info| && t !in w.kept
    ensures var v := Visit(w, info, t);
            && (v.kept == w.kept || v.kept == w.kept + [t])
            && v.flags == w.flags - (if t !in v.kept && info[t].clear then v.wanted[t] else {})
            && forall u :: 0 <= u < |info| && u != t ==> v.wanted[u] == w.wanted[u]
  {
    hide Satisfied;
    assert w.flags - {} == w.flags;
  }

  lemma LaterDecided(q: seq<nat>, all: Flags, kept: seq<nat>, wanted: seq<Flags>, wanted2: seq<Flags>, got: seq<Flags>,
                     info: seq<Info>, k: nat, own: Flags)
    requires 0 < k < |q| && InRange(q, |got|) && InRange(q[1..], |got|) && |got| == |info| == |wanted| == |wanted2|
    requires own == if q[0] !in kept && info[q[0]].clear then got[q[0]] else {}
    requires Decided(q[1..], all - own, kept, wanted2, got, info, k - 1) && wanted2[q[k]] == wanted[q[k]]
    ensures Decided(q, all, kept, wanted, got, info, k)
  {
    hide Cleared, Met;
    ClearedFirst(q, kept, got, info, k, all, own);
  }

  lemma FirstDecided(w: Walk, info: seq<Info>, t: nat, v: Walk, r: Walk, q: seq<nat>)
    requires |w.wanted| == |r.wanted| == |info| && InRange(q, |info|) && q != [] && t == q[0] && v == Visit(w, info, t)
    requires Satisfied(w.flags, w.wanted[t], info[t]) <==> Met(info[t], w.wanted[t], w.flags)
    requires r.wanted[t] == v.wanted[t] && (t in r.kept <==> t in v.kept) && t !in w.kept
    ensures Decided(q, w.flags, r.kept, w.wanted, r.wanted, info, 0)
  {
    hide Met, Satisfied;
    assert w.flags - {} == w.flags;
  }

  lemma StayingFirst(q: seq<nat>, w: Walk, v: Walk, r: Walk)
    requires q != [] && (v.kept == w.kept || v.kept == w.kept + [q[0]]) && q[0] !in w.kept
    requires (q[0] in r.kept <==> q[0] in v.kept) && r.kept == v.kept + Staying(q[1..], r.kept)
    ensures r.kept == w.kept + Staying(q, r.kept)
  {
    var rest := Staying(q[1..], r.kept);
    if v.kept == w.kept + [q[0]] {
      assert v.kept[|w.kept|] == q[0];
    }
    if q[0] in r.kept {
      assert r.kept == w.kept + [q[0]] + rest;
      assert w.kept + [q[0]] + rest == w.kept + ([q[0]] + rest);
    } else {
      assert [] + rest == rest;
    }
  }

  /**
   Whom a send wakes.  Going along the list, a thread is woken if and only if what it waits for is among the
   flags that those woken before it left; it gets what it asked for of them.  Those that are not woken keep
   their order and all they asked for, and no flag goes to anybody but a woken thread that clears.
   */
  lemma SendMeaning(s: State, flags: Flags)
    requires Sound(s) && flags != {}
    ensures var r, all := Send(s, flags), s.flags + flags;
            && |r.wanted| == |s.wanted| && r.info == s.info && r.waiters == Staying(s.waiters, r.waiters)
            && (forall k :: 0 <= k < |s.waiters| ==> Decided(s.waiters, all, r.waiters, s.wanted, r.wanted, s.info, k))
            && r.flags == all - Cleared(s.waiters, r.waiters, r.wanted, s.info, |s.waiters|)
            && (forall t :: 0 <= t < |s.wanted| && t !in s.waiters ==> r.wanted[t] == s.wanted[t])
  {
    hide Visits, Satisfied, Met, NoneReady;
    var w := Walk(s.flags + flags, s.wanted, [], [], {});
    VisitsMeaning(w, s.info, s.waiters);
    forall t | 0 <= t < |s.wanted| && t !in s.waiters
      ensures Send(s, flags).wanted[t] == s.wanted[t]
    {
      VisitsFrame(w, s.info, s.waiters, t);
    }
  }

  /** A thread woken by a send had asked for flags that were all there, or for some that were. */
  lemma WokenGot(s: State, flags: Flags, t: nat)
    requires Sound(s) && flags != {} && t in s.waiters && t !in Send(s, flags).waiters && t < |s.wanted|
    ensures var r := Send(s, flags);
            && t < |r.wanted| && r.wanted[t] <= s.wanted[t] && r.wanted[t] <= s.flags + flags
            && (s.info[t].all ==> r.wanted[t] == s.wanted[t]) && (!s.info[t].all ==> r.wanted[t] != {})
  {
    SendMeaning(s, flags);
    var k :| 0 <= k < |s.waiters| && s.waiters[k] == t;
    hide Send, Sound, Cleared;
    var r, left := Send(s, flags), s.flags + flags - Cleared(s.waiters, Send(s, flags).waiters, Send(s, flags).wanted, s.info, k);
    assert Decided(s.waiters, s.flags + flags, r.waiters, s.wanted, r.wanted, s.info, k);
    assert Met(s.info[t], s.wanted[t], left);
    if !s.info[t].all {
      var f :| f in s.wanted[t] && f in left;
      assert f in s.wanted[t] * left;
    }
  }

  /**
   A receive is refused for no flags, succeeds at once if and only if what is asked for is there, and else gives
   up or waits at its place on the list.  Only a success that clears takes flags, and only those asked for.
   */
  lemma ReceiveMeaning(s: State, t: nat, wanted: Flags, i: Info, wait: bool, at: nat)
    requires Sound(s) && t < |s.wanted| && t !in s.waiters && at <= |s.waiters| && Proper(i)
    ensures var r, reply := Receive(s, t, wanted, i, wait, at), ReceiveReply(s, wanted, i, wait);
            && (reply == Failed <==> wanted == {})
            && (reply == Okay <==> wanted != {} && Met(i, wanted, s.flags))
            && (reply == TimedOut <==> wanted != {} && !Met(i, wanted, s.flags) && !wait)
            && (reply == Suspended <==> wanted != {} && !Met(i, wanted, s.flags) && wait)
            && (reply == Failed || reply == TimedOut ==> r == s)
            && (reply == Okay ==>
                  r == State(if i.clear then s.flags - wanted else s.flags, s.waiters,
                             s.wanted[t := s.flags * wanted], s.info[t := i]))
            && (reply == Suspended ==>
                  r == State(s.flags, s.waiters[..at] + [t] + s.waiters[at..], s.wanted[t := wanted], s.info[t := i]))
  {
    SatisfiedMeans(s.flags, wanted, i);
    hide Satisfied, Met;
  }

  /** A timeout takes one thread off the list, a reset all of them and all flags; an event begins with neither. */
  lemma OthersMeaning(s: State, k: nat, threads: nat)
    requires Sound(s)
    ensures k < |s.waiters| ==> Do(s, ExpireStep(k)) == s.(waiters := s.waiters[..k] + s.waiters[k + 1..])
    ensures Do(s, ResetStep) == s.(waiters := [], flags := {})
    ensures var b := After(threads, []);
            b.flags == {} && b.waiters == [] && |b.wanted| == threads
            && forall t :: 0 <= t < threads ==> b.wanted[t] == {} && b.info[t] == Info(false, false, false)
  {
  }

  /** A thread that waits goes behind everybody, or behind all that are as urgent as it and before the next that is less so. */
  lemma SlotMeaning(q: seq<nat>, priority: seq<nat>, t: nat)
    requires t < |priority| && InRange(q, |priority|)
    ensures Slot(false, q, priority, t) == |q|
    ensures var i := Slot(true, q, priority, t);
            (forall k :: 0 <= k < i ==> priority[q[k]] <= priority[t]) && (i < |q| ==> priority[t] < priority[q[i]])
  {
  }
}
