/**
 The single-processor scheduler: a ready queue for each of 32 priorities, a bitmap of the queues in use,
 and the thread that runs.  The bitmap is the set of the numbers of its bits.
 */
module Scheduler {

  import opened WaitList

  const PRIORITIES: nat := 32

  datatype Stat = Init | Ready | Suspend | Running | Close

  datatype State = State(queues: seq<seq<nat>>, group: set<nat>, current: nat, locks: nat,
                         priority: seq<nat>, stat: seq<Stat>, yielding: seq<bool>)

  predicate Sized(s: State) {
    |s.queues| == PRIORITIES && |s.stat| == |s.priority| == |s.yielding| && s.current < |s.priority|
    && forall t :: 0 <= t < |s.priority| ==> s.priority[t] < PRIORITIES
  }

  /** The lowest set bit from `from` on: __rt_ffs less one. */
  function Least(group: set<nat>, from: nat): (p: nat)
    requires from <= PRIORITIES
    ensures from <= p <= PRIORITIES && (p < PRIORITIES ==> p in group)
    ensures forall q :: from <= q < p ==> q !in group
    decreases PRIORITIES - from
  {
    if from == PRIORITIES || from in group then from else Least(group, from + 1)
  }

  // ---------------------------------------------------------------- the operations

  /** rt_schedule_insert_thread */
  function Insert(s: State, t: nat): State
    requires Sized(s) && t < |s.stat|
  {
    if t == s.current then s.(stat := s.stat[t := Running])
    else
      var p := s.priority[t];
      s.(stat := s.stat[t := Ready], queues := s.queues[p := s.queues[p] + [t]], group := s.group + {p})
  }

  function Dropped(q: seq<nat>, t: nat): seq<nat> {
    if q == [] then [] else if q[0] == t then q[1..] else [q[0]] + Dropped(q[1..], t)
  }

  /** rt_schedule_remove_thread, for a thread that may or may not be queued. */
  function Remove(s: State, t: nat): State
    requires Sized(s) && t < |s.stat|
  {
    var p := s.priority[t];
    var q := Dropped(s.queues[p], t);
    s.(queues := s.queues[p := q], group := if q == [] then s.group - {p} else s.group)
  }

  /** rt_thread_suspend of the running thread. */
  function Suspended(s: State): State
    requires Sized(s)
  {
    var r := Remove(s, s.current);
    r.(stat := r.stat[s.current := Suspend])
  }

  /** rt_thread_resume, or the end of a thread's waiting time. */
  function Resumed(s: State, t: nat): State
    requires Sized(s) && t < |s.stat|
  {
    if s.stat[t] != Suspend then s else Insert(s, t)
  }

  /** rt_thread_control with RT_THREAD_CTRL_CHANGE_PRIORITY */
  function Repriced(s: State, t: nat, p: nat): State
    requires Sized(s) && t < |s.stat| && p < PRIORITIES
  {
    if s.stat[t] == Ready then
      var r := Remove(s, t);
      Insert(r.(priority := r.priority[t := p]), t)
    else s.(priority := s.priority[t := p])
  }

  /** What rt_thread_yield and the end of a time slice record. */
  function Yielding(s: State): State
    requires Sized(s)
  {
    s.(yielding := s.yielding[s.current := true])
  }

  /** Does rt_schedule leave the running thread on? */
  predicate Stays(s: State, top: nat)
    requires Sized(s)
  {
    s.stat[s.current] == Running
    && (s.priority[s.current] < top || (s.priority[s.current] == top && !s.yielding[s.current]))
  }

  /** The new thread is taken off its queue and runs; the old one is queued if it can still run. */
  function Switched(s: State, to: nat): State
    requires Sized(s) && to < |s.stat|
  {
    var from := s.current;
    var a := s.(current := to);
    var b := if s.stat[from] == Running then Insert(a.(yielding := a.yielding[from := false]), from) else a;
    var c := Remove(b, to);
    c.(stat := c.stat[to := Running])
  }

  /** rt_schedule */
  function Schedule(s: State): State
    requires Sized(s)
  {
    if s.locks != 0 || s.group == {} then s
    else
      var top := Least(s.group, 0);
      if top == PRIORITIES || s.queues[top] == [] then s
      else if Stays(s, top) then
        var r := Remove(s.(yielding := s.yielding[s.current := false]), s.current);
        r.(stat := r.stat[s.current := Running])
      else if s.queues[top][0] < |s.stat| then Switched(s, s.queues[top][0])
      else s
  }

  // ---------------------------------------------------------------- the invariant

  /** Exactly the ready threads other than the running one are queued, each once and under its priority. */
  ghost predicate QueuesFit(s: State)
    requires Sized(s)
  {
    forall p :: 0 <= p < PRIORITIES ==> Distinct(s.queues[p]) && forall t :: t in s.queues[p] <==> Belongs(s, t, p)
  }

  predicate Belongs(s: State, t: nat, p: nat)
    requires Sized(s)
  {
    t < |s.stat| && s.stat[t] == Ready && s.priority[t] == p
  }

  ghost predicate GroupFits(s: State)
    requires Sized(s)
  {
    forall p: nat :: p in s.group <==> p < PRIORITIES && s.queues[p] != []
  }

  ghost predicate Valid(s: State) {
    Sized(s) && QueuesFit(s) && GroupFits(s)
    && s.stat[s.current] != Ready
    && forall t :: 0 <= t < |s.stat| && s.stat[t] == Running ==> t == s.current
  }

  lemma TailApart(q: seq<nat>)
    requires q != [] && Distinct(q)
    ensures Distinct(q[1..]) && forall x :: x in q[1..] <==> x in q && x != q[0]
  {
    assert forall i :: 0 <= i < |q| - 1 ==> q[1..][i] == q[i + 1];
  }

  lemma HeadApart(q: seq<nat>, t: nat)
    requires Distinct(q) && t !in q
    ensures Distinct([t] + q) && forall x :: x in [t] + q <==> x in q || x == t
  {
    assert forall i :: 1 <= i < |q| + 1 ==> ([t] + q)[i] == q[i - 1];
  }

  lemma {:induction false} DroppedIs(q: seq<nat>, t: nat)
    requires Distinct(q)
    ensures Distinct(Dropped(q, t)) && forall x :: x in Dropped(q, t) <==> x in q && x != t
  {
    if q != [] {
      TailApart(q);
      hide Distinct;
      if q[0] != t {
        DroppedIs(q[1..], t);
        HeadApart(Dropped(q[1..], t), q[0]);
      }
    }
  }

  lemma {:induction false} DroppedAbsent(q: seq<nat>, t: nat)
    requires t !in q
    ensures Dropped(q, t) == q
  {
    if q != [] {
      DroppedAbsent(q[1..], t);
    }
  }

  lemma AppendDistinct(q: seq<nat>, t: nat)
    requires Distinct(q) && t !in q
    ensures Distinct(q + [t]) && forall x :: x in q + [t] <==> x in q || x == t
  {
  }

  /** Everything but the thread t is in order: t, which is not queued, is to be queued. */
  ghost predicate OneLoose(s: State, t: nat) {
    Sized(s) && t < |s.stat| && GroupFits(s)
    && forall p :: 0 <= p < PRIORITIES ==>
         Distinct(s.queues[p]) && forall x :: x in s.queues[p] <==> Belongs(s, x, p) && x != t
  }

  lemma RemoveLoosens(s: State, t: nat)
    requires Sized(s) && QueuesFit(s) && GroupFits(s) && t < |s.stat|
    ensures OneLoose(Remove(s, t), t)
    ensures t !in s.queues[s.priority[t]] ==> Remove(s, t) == s
  {
    var p, r := s.priority[t], Remove(s, t);
    DroppedIs(s.queues[p], t);
    hide Distinct;
    assert forall x :: x in s.queues[p] <==> Belongs(s, x, p);
    if t !in s.queues[p] {
      DroppedAbsent(s.queues[p], t);
      assert s.queues[p := s.queues[p]] == s.queues;
      if s.queues[p] == [] {
        assert p !in s.group;
        assert s.group - {p} == s.group;
      }
    }
  }

  lemma InsertFits(s: State, t: nat)
    requires OneLoose(s, t) && t != s.current
    ensures Sized(Insert(s, t)) && QueuesFit(Insert(s, t)) && GroupFits(Insert(s, t))
  {
    AppendDistinct(s.queues[s.priority[t]], t);
    hide Distinct;
    var r := Insert(s, t);
    forall p | 0 <= p < PRIORITIES ensures forall x :: x in r.queues[p] <==> Belongs(r, x, p) {
      assert forall x :: x in s.queues[p] <==> Belongs(s, x, p) && x != t;
    }
  }

  /** A loose thread that is not ready is no loose end. */
  lemma LooseFits(s: State, t: nat)
    requires OneLoose(s, t) && s.stat[t] != Ready
    ensures QueuesFit(s) && GroupFits(s)
  {
    hide Distinct;
    forall p | 0 <= p < PRIORITIES ensures forall x :: x in s.queues[p] <==> Belongs(s, x, p) {
      assert forall x :: x in s.queues[p] <==> Belongs(s, x, p) && x != t;
    }
  }

  lemma LooseStat(s: State, t: nat, stat: Stat, p: nat)
    requires OneLoose(s, t) && p < PRIORITIES
    ensures OneLoose(s.(stat := s.stat[t := stat], priority := s.priority[t := p]), t)
  {
    hide Distinct;
    var r := s.(stat := s.stat[t := stat], priority := s.priority[t := p]);
    forall p | 0 <= p < PRIORITIES ensures forall x :: x in r.queues[p] <==> Belongs(r, x, p) && x != t {
      assert forall x :: x in s.queues[p] <==> Belongs(s, x, p) && x != t;
    }
  }

  lemma FitsLoose(s: State, t: nat)
    requires Sized(s) && QueuesFit(s) && GroupFits(s) && t < |s.stat| && s.stat[t] != Ready
    ensures OneLoose(s, t)
  {
    hide Distinct;
    forall p | 0 <= p < PRIORITIES ensures forall x :: x in s.queues[p] <==> Belongs(s, x, p) && x != t {
      assert forall x :: x in s.queues[p] <==> Belongs(s, x, p);
    }
  }

  // ---------------------------------------------------------------- each operation keeps it

  lemma SuspendedValid(s: State)
    requires Valid(s)
    ensures Valid(Suspended(s))
  {
    RemoveLoosens(s, s.current);
    var r := Remove(s, s.current);
    hide QueuesFit, GroupFits, OneLoose;
    LooseStat(r, s.current, Suspend, r.priority[s.current]);
    assert r.priority[s.current := r.priority[s.current]] == r.priority;
    assert Suspended(s) == r.(stat := r.stat[s.current := Suspend], priority := r.priority[s.current := r.priority[s.current]]);
    LooseFits(Suspended(s), s.current);
  }

  lemma InsertValid(s: State, t: nat)
    requires Valid(s) && t < |s.stat| && s.stat[t] != Ready
    ensures Valid(Insert(s, t))
  {
    FitsLoose(s, t);
    if t != s.current {
      InsertFits(s, t);
    } else {
      var r := Insert(s, t);
      hide QueuesFit, GroupFits, OneLoose;
      LooseStat(s, t, Running, s.priority[t]);
      assert s.priority[t := s.priority[t]] == s.priority;
      assert r == s.(stat := s.stat[t := Running], priority := s.priority[t := s.priority[t]]);
      LooseFits(r, t);
    }
  }

  lemma RepricedValid(s: State, t: nat, p: nat)
    requires Valid(s) && t < |s.stat| && p < PRIORITIES
    ensures Valid(Repriced(s, t, p))
  {
    hide QueuesFit, GroupFits, OneLoose;
    if s.stat[t] == Ready {
      RemoveLoosens(s, t);
      var r := Remove(s, t);
      LooseStat(r, t, Ready, p);
      assert r.stat[t := Ready] == r.stat;
      assert r.(priority := r.priority[t := p]) == r.(stat := r.stat[t := Ready], priority := r.priority[t := p]);
      InsertFits(r.(priority := r.priority[t := p]), t);
    } else {
      FitsLoose(s, t);
      LooseStat(s, t, s.stat[t], p);
      assert s.stat[t := s.stat[t]] == s.stat;
      assert Repriced(s, t, p) == s.(stat := s.stat[t := s.stat[t]], priority := s.priority[t := p]);
      LooseFits(Repriced(s, t, p), t);
    }
  }

  /** The most urgent ready priority, read off the bitmap. */
  lemma TopIs(s: State)
    requires Valid(s) && s.group != {}
    ensures var top := Least(s.group, 0);
            top < PRIORITIES && s.queues[top] != [] && Belongs(s, s.queues[top][0], top)
            && forall t :: 0 <= t < |s.stat| && s.stat[t] == Ready ==> top <= s.priority[t]
  {
    var top := Least(s.group, 0);
    var p :| p in s.group;
    assert p < PRIORITIES && s.queues[top][0] in s.queues[top];
    forall t | 0 <= t < |s.stat| && s.stat[t] == Ready ensures top <= s.priority[t] {
      assert Belongs(s, t, s.priority[t]);
      assert t in s.queues[s.priority[t]];
      assert s.priority[t] in s.group;
    }
  }

  lemma ReadyShows(s: State, t: nat)
    requires Valid(s) && t < |s.stat| && s.stat[t] == Ready
    ensures s.priority[t] in s.group && t in s.queues[s.priority[t]]
  {
    assert Belongs(s, t, s.priority[t]);
  }

  /** With an empty bitmap nobody is ready. */
  lemma NobodyReady(s: State, t: nat)
    requires Valid(s) && s.group == {} && t < |s.stat|
    ensures s.stat[t] != Ready
  {
    if s.stat[t] == Ready {
      ReadyShows(s, t);
    }
  }

  lemma YieldingValid(s: State, t: nat, b: bool)
    requires Valid(s) && t < |s.yielding|
    ensures Valid(s.(yielding := s.yielding[t := b]))
  {
    hide Distinct;
    var r := s.(yielding := s.yielding[t := b]);
    forall p | 0 <= p < PRIORITIES ensures forall x :: x in r.queues[p] <==> Belongs(r, x, p) {
      assert forall x :: x in s.queues[p] <==> Belongs(s, x, p);
    }
  }

  /** What the scheduler leaves: who runs, and that nobody who could run has stopped being able to. */
  predicate SameThreads(s: State, r: State)
    requires Sized(s)
  {
    |r.stat| == |s.stat| && r.priority == s.priority && r.locks == s.locks
    && (forall t :: 0 <= t < |s.stat| ==>
          ((r.stat[t] == Ready || r.stat[t] == Running) <==> (s.stat[t] == Ready || s.stat[t] == Running)))
    && (forall t :: 0 <= t < |s.stat| && s.stat[t] != Ready && s.stat[t] != Running ==> r.stat[t] == s.stat[t])
  }

  /** Switching: the old thread goes behind its equals, if it can still run, and the new one leaves its queue. */
  lemma SwitchedValid(s: State, to: nat)
    requires Valid(s) && to < |s.stat| && s.stat[to] == Ready
    ensures Valid(Switched(s, to)) && Switched(s, to).current == to && SameThreads(s, Switched(s, to))
    ensures Switched(s, to).stat[to] == Running
    ensures s.stat[s.current] == Running ==> Switched(s, to).stat[s.current] == Ready
  {
    var from := s.current;
    var a := s.(current := to, yielding := if s.stat[from] == Running then s.yielding[from := false] else s.yielding);
    hide Distinct;
    assert Sized(a) && QueuesFit(a) && GroupFits(a) by { CurrentFits(s, a); }
    FitsLoose(a, from);
    var b := if s.stat[from] == Running then Insert(a, from) else a;
    if s.stat[from] == Running {
      InsertFits(a, from);
    }
    RemoveLoosens(b, to);
    var c := Remove(b, to);
    hide QueuesFit, GroupFits, OneLoose;
    LooseStat(c, to, Running, c.priority[to]);
    assert c.priority[to := c.priority[to]] == c.priority;
    var r := c.(stat := c.stat[to := Running], priority := c.priority[to := c.priority[to]]);
    assert Switched(s, to) == r;
    LooseFits(r, to);
  }

  /** The queues do not depend on who runs or yields. */
  lemma CurrentFits(s: State, r: State)
    requires Sized(s) && Sized(r) && QueuesFit(s) && GroupFits(s)
    requires r.queues == s.queues && r.group == s.group && r.priority == s.priority && r.stat == s.stat
    ensures QueuesFit(r) && GroupFits(r)
  {
    hide Distinct;
    forall p | 0 <= p < PRIORITIES ensures forall x :: x in r.queues[p] <==> Belongs(r, x, p) {
      assert forall x :: x in s.queues[p] <==> Belongs(s, x, p);
    }
  }

  /**
   An unlocked schedule leaves a running thread at least as urgent as every ready one, unless nobody can
   run; it loses no thread that can run; and it changes the running thread only for one that should run.
   */
  lemma ScheduleMeaning(s: State)
    requires Valid(s)
    ensures Valid(Schedule(s)) && SameThreads(s, Schedule(s))
    ensures var r := Schedule(s);
            s.locks == 0 && (s.stat[s.current] == Running || exists t :: 0 <= t < |s.stat| && s.stat[t] == Ready) ==>
              r.stat[r.current] == Running
              && forall t :: 0 <= t < |s.stat| && r.stat[t] == Ready ==> r.priority[r.current] <= r.priority[t]
    ensures s.locks != 0 ==> Schedule(s) == s
  {
    if s.locks == 0 && s.group != {} {
      TopIs(s);
      var top := Least(s.group, 0);
      hide QueuesFit, GroupFits, Distinct;
      if Stays(s, top) {
        StaysValid(s);
      } else {
        SwitchedValid(s, s.queues[top][0]);
      }
    } else if s.locks == 0 {
      forall t | 0 <= t < |s.stat| ensures s.stat[t] != Ready {
        NobodyReady(s, t);
      }
    }
  }

  lemma StaysValid(s: State)
    requires Valid(s) && s.stat[s.current] == Running
    ensures var r := Remove(s.(yielding := s.yielding[s.current := false]), s.current);
            r == s.(yielding := s.yielding[s.current := false]) && r.stat[s.current := Running] == r.stat && Valid(r)
  {
    YieldingValid(s, s.current, false);
    var y := s.(yielding := s.yielding[s.current := false]);
    assert s.current !in y.queues[y.priority[y.current]] by {
      assert s.current in y.queues[y.priority[y.current]] <==> Belongs(y, s.current, y.priority[y.current]);
    }
    RemoveLoosens(y, s.current);
  }

  /** Every ready thread is less urgent than the running one, or as urgent while that one has not yielded. */
  predicate KeepsProcessor(s: State)
    requires Sized(s)
  {
    forall t :: 0 <= t < |s.stat| && s.stat[t] == Ready ==>
      s.priority[s.current] < s.priority[t] || (s.priority[s.current] == s.priority[t] && !s.yielding[s.current])
  }

  /** p is the most urgent priority with a ready thread. */
  predicate IsTop(s: State, p: nat)
    requires Sized(s)
  {
    p < PRIORITIES && s.queues[p] != [] && forall q :: 0 <= q < p ==> s.queues[q] == []
  }

  predicate SomeReady(s: State) {
    exists t :: 0 <= t < |s.stat| && s.stat[t] == Ready
  }

  /** The head of queue p runs instead of the thread that ran, which joins the end of its queue if it can go on. */
  predicate Switches(s: State, r: State, p: nat)
    requires Sized(s) && p < PRIORITIES && s.queues[p] != []
  {
    var from, to, goesOn := s.current, s.queues[p][0], s.stat[s.current] == Running;
    && |r.queues| == PRIORITIES && to < |s.stat| && from != to && r.current == to
    && r.stat == (if goesOn then s.stat[from := Ready] else s.stat)[to := Running]
    && (forall q :: 0 <= q < PRIORITIES ==>
          r.queues[q] == (if q == p then s.queues[q][1..] else s.queues[q])
                         + (if goesOn && q == s.priority[from] then [from] else []))
  }

  /**
   What an unlocked schedule does.  A thread that can go on keeps the processor if and only if every ready thread
   is less urgent, or equally urgent while it has not yielded, and then no queue, no bit and no state changes.
   Otherwise the head of the most urgent queue in use replaces it.  Its yield flag is cleared, unless nobody else
   is ready or the scheduler is locked, when nothing is done at all.
   */
  ghost predicate Scheduled(s: State, r: State)
    requires Sized(s)
  {
    && (s.locks != 0 || !SomeReady(s) ==> r == s)
    && (s.locks == 0 && SomeReady(s) ==>
          && (r.current == s.current <==> s.stat[s.current] == Running && KeepsProcessor(s))
          && r.yielding == if s.stat[s.current] == Running then s.yielding[s.current := false] else s.yielding)
    && (r.current == s.current ==> r.queues == s.queues && r.group == s.group && r.stat == s.stat)
    && (r.current != s.current ==> exists p: nat :: IsTop(s, p) && Switches(s, r, p))
    && r.priority == s.priority && r.locks == s.locks
  }

  lemma ScheduleDecides(s: State)
    requires Valid(s)
    ensures Scheduled(s, Schedule(s))
  {
    if s.locks != 0 {
    } else if s.group == {} {
      forall t | 0 <= t < |s.stat|
        ensures s.stat[t] != Ready
      {
        NobodyReady(s, t);
      }
    } else {
      TopIs(s);
      var top := Least(s.group, 0);
      assert s.queues[top][0] != s.current && IsTop(s, top);
      hide QueuesFit, GroupFits, Distinct, Least;
      if Stays(s, top) {
        assert KeepsProcessor(s);
        StaysDecides(s, top);
      } else {
        assert s.stat[s.current] == Running ==> !KeepsProcessor(s);
        SwitchIs(s, top);
      }
    }
  }

  /** A thread that keeps the processor is put back as it was, but for its yield flag. */
  lemma StaysDecides(s: State, top: nat)
    requires Valid(s) && s.group != {} && s.locks == 0 && top == Least(s.group, 0) && Stays(s, top)
    requires IsTop(s, top) && SomeReady(s) && KeepsProcessor(s)
    ensures Scheduled(s, Schedule(s))
  {
    hide QueuesFit, GroupFits, Distinct, Least, KeepsProcessor, SomeReady;
    StaysValid(s);
    assert s.stat[s.current := Running] == s.stat;
  }

  lemma SwitchIs(s: State, p: nat)
    requires Valid(s) && IsTop(s, p) && s.queues[p][0] < |s.stat| && s.stat[s.queues[p][0]] == Ready
    requires s.priority[s.queues[p][0]] == p
    ensures Switches(s, Switched(s, s.queues[p][0]), p)
    ensures Switched(s, s.queues[p][0]).yielding
            == if s.stat[s.current] == Running then s.yielding[s.current := false] else s.yielding
  {
    hide QueuesFit, GroupFits, Distinct;
    var from, to := s.current, s.queues[p][0];
    var q := s.queues[p] + [from];
    assert q[0] == to && q[1..] == s.queues[p][1..] + [from];
    var r := Switched(s, to);
    forall x | 0 <= x < PRIORITIES
      ensures r.queues[x] == (if x == p then s.queues[x][1..] else s.queues[x])
                             + (if s.stat[from] == Running && x == s.priority[from] then [from] else [])
    {
    }
  }

  /** A thread that becomes ready joins the end of its queue and marks its bit; nothing else changes. */
  predicate Joins(s: State, r: State, t: nat)
    requires Sized(s) && t < |s.stat|
  {
    var p := s.priority[t];
    r == s.(stat := s.stat[t := Ready], queues := s.queues[p := s.queues[p] + [t]], group := s.group + {p})
  }

  /** What waking, starting, suspending and changing a priority do, each in full. */
  lemma StepsMeaning(s: State, t: nat, p: nat)
    requires Valid(s) && t < |s.stat| && p < PRIORITIES
    ensures var r := Do(s, ResumeStep(t));
            if s.stat[t] != Suspend then r == s
            else if t == s.current then r == s.(stat := s.stat[t := Running])
            else Joins(s, r, t)
    ensures var r := Do(s, StartStep(t));
            if s.stat[t] != Init then r == s
            else if t == s.current then r == s.(stat := s.stat[t := Running])
            else Joins(s, r, t)
    ensures var r := Do(s, SuspendStep);
            r == if s.stat[s.current] == Running then s.(stat := s.stat[s.current := Suspend]) else s
    ensures s.stat[t] != Ready ==> Do(s, PriorityStep(t, p)) == s.(priority := s.priority[t := p])
    ensures s.stat[t] == Ready ==> Moves(s, Do(s, PriorityStep(t, p)), t, p)
    ensures Do(s, YieldStep) == s.(yielding := s.yielding[s.current := true])
    ensures Do(s, LockStep) == s.(locks := s.locks + 1)
    ensures Do(s, UnlockStep).locks == (if s.locks == 0 then 0 else s.locks - 1) && Do(s, UnlockStep).(locks := s.locks) == s
  {
    SuspendStays(s);
    RepriceMoves(s, t, p);
    hide QueuesFit, GroupFits, Schedule, Distinct, Moves;
  }

  lemma SuspendStays(s: State)
    requires Valid(s)
    ensures Suspended(s) == s.(stat := s.stat[s.current := Suspend])
  {
    NotQueued(s, s.current);
    RemoveLoosens(s, s.current);
  }

  /** A ready thread leaves its place and becomes the last of queue p. */
  ghost predicate Moves(s: State, r: State, t: nat, p: nat)
    requires Sized(s) && t < |s.stat| && p < PRIORITIES
  {
    var was := s.priority[t];
    && r == s.(priority := s.priority[t := p], queues := r.queues, group := r.group)
    && |r.queues| == PRIORITIES
    && (exists i :: 0 <= i < |s.queues[was]| && s.queues[was][i] == t
                    && r.queues == (var left := s.queues[was := s.queues[was][..i] + s.queues[was][i + 1..]];
                                    left[p := left[p] + [t]]))
  }

  lemma {:induction false} DroppedOut(q: seq<nat>, t: nat) returns (i: nat)
    requires t in q
    ensures i < |q| && q[i] == t && Dropped(q, t) == q[..i] + q[i + 1..]
  {
    if q[0] == t {
      i := 0;
    } else {
      i := DroppedOut(q[1..], t);
      i := i + 1;
    }
  }

  lemma RepriceMoves(s: State, t: nat, p: nat)
    requires Valid(s) && t < |s.stat| && p < PRIORITIES
    ensures s.stat[t] == Ready ==> Moves(s, Repriced(s, t, p), t, p)
  {
    if s.stat[t] == Ready {
      ReadyShows(s, t);
      var i := DroppedOut(s.queues[s.priority[t]], t);
      hide QueuesFit, GroupFits, Distinct, Dropped;
      assert s.stat[t := Ready] == s.stat;
    }
  }

  // ---------------------------------------------------------------- taking turns

  /** The running thread and, behind it, the queue of its equals. */
  function Ring(s: State): (ring: seq<nat>)
    requires Sized(s)
    ensures ring != []
  {
    [s.current] + s.queues[s.priority[s.current]]
  }

  /** An unlocked scheduler whose running thread is as urgent as any ready one. */
  ghost predicate AtTop(s: State) {
    Valid(s) && s.locks == 0 && s.stat[s.current] == Running
    && forall t :: 0 <= t < |s.stat| && s.stat[t] == Ready ==> s.priority[s.current] <= s.priority[t]
  }

  /** The running thread yields, or its time slice ends. */
  function Turn(s: State): State
    requires Sized(s)
  {
    Schedule(Yielding(s))
  }

  function Rotated(ring: seq<nat>, k: nat): seq<nat>
    requires k <= |ring|
  {
    ring[k..] + ring[..k]
  }

  /** A turn moves the ring of equals on by one. */
  lemma TurnRotates(s: State)
    requires AtTop(s)
    ensures AtTop(Turn(s)) && Turn(s).priority == s.priority
    ensures Turn(s).priority[Turn(s).current] == s.priority[s.current]
    ensures Ring(Turn(s)) == Rotated(Ring(s), 1)
  {
    var y := Yielding(s);
    YieldingValid(s, s.current, true);
    ScheduleMeaning(y);
    var p := s.priority[s.current];
    if s.queues[p] == [] {
      AloneStays(y);
    } else {
      PeersSwitch(y);
    }
  }

  lemma AloneStays(s: State)
    requires AtTop(s) && s.queues[s.priority[s.current]] == []
    ensures Schedule(s).current == s.current && Schedule(s).queues == s.queues && Schedule(s).stat[s.current] == Running
  {
    if s.group != {} {
      TopIs(s);
      var top := Least(s.group, 0);
      assert Belongs(s, s.queues[top][0], top);
      hide QueuesFit, GroupFits;
      assert Stays(s, top);
      StaysValid(s);
    }
  }

  lemma PeersSwitch(s: State)
    requires AtTop(s) && s.queues[s.priority[s.current]] != [] && s.yielding[s.current]
    ensures var q, r := s.queues[s.priority[s.current]], Schedule(s);
            r.current == q[0] && r.priority == s.priority && s.priority[q[0]] == s.priority[s.current]
            && r.queues[s.priority[s.current]] == q[1..] + [s.current]
  {
    var p := s.priority[s.current];
    var q := s.queues[p];
    assert q[0] in q && Belongs(s, q[0], p);
    assert p in s.group;
    TopIs(s);
    assert Least(s.group, 0) == p;
    assert !Stays(s, p);
    assert (q + [s.current])[0] == q[0] && (q + [s.current])[1..] == q[1..] + [s.current];
  }

  function Turns(s: State, k: nat): (r: State)
    requires AtTop(s)
    ensures AtTop(r)
  {
    if k == 0 then s else
      var r := Turns(s, k - 1);
      TurnRotates(r);
      Turn(r)
  }

  /** After k turns the ring has moved on k places, so each of n equals runs within any n turns. */
  lemma {:induction false} TurnsRotate(s: State, k: nat)
    requires AtTop(s)
    ensures Ring(Turns(s, k)) == Rotated(Ring(s), Spot(k, |Ring(s)|))
    ensures Turns(s, k).current == Ring(s)[Spot(k, |Ring(s)|)]
  {
    RingsRotate(s, k, Ring(s));
    HeadOfRing(Turns(s, k), Ring(s), Spot(k, |Ring(s)|));
  }

  lemma {:induction false} RingsRotate(s: State, k: nat, ring: seq<nat>)
    requires AtTop(s) && ring == Ring(s)
    ensures Ring(Turns(s, k)) == Rotated(ring, Spot(k, |ring|))
  {
    hide AtTop, Turns, Spot, Ring, Rotated;
    if k == 0 {
      TurnsNone(s);
      FirstSpot(|ring|);
      RotateNone(ring);
    } else {
      RingsRotate(s, k - 1, ring);
      RingTurns(s, k - 1);
      NextSpot(k - 1, |ring|);
      RotateOnce(ring, Spot(k - 1, |ring|));
    }
  }

  lemma TurnsNone(s: State)
    requires AtTop(s)
    ensures Turns(s, 0) == s
  {
  }

  lemma RingTurns(s: State, k: nat)
    requires AtTop(s)
    ensures Ring(Turns(s, k + 1)) == Rotated(Ring(Turns(s, k)), 1)
  {
    hide AtTop, Turn, Ring, Rotated;
    TurnRotates(Turns(s, k));
  }

  /** How far k steps take one round a ring of n places. */
  function Spot(k: nat, n: nat): (i: nat)
    requires n > 0
    ensures i < n
  {
    k % n
  }

  lemma FirstSpot(n: nat)
    requires n > 0
    ensures Spot(0, n) == 0
  {
  }

  lemma HeadOfRing(s: State, ring: seq<nat>, k: nat)
    requires AtTop(s) && k < |ring| && Ring(s) == Rotated(ring, k)
    ensures s.current == ring[k]
  {
    assert Ring(s)[0] == s.current;
  }

  lemma NextSpot(k: nat, n: nat)
    requires n > 0
    ensures Spot(k + 1, n) == if Spot(k, n) + 1 == n then 0 else Spot(k, n) + 1
  {
    var q := k / n;
    assert k + 1 == q * n + (k % n + 1);
    if k % n + 1 == n {
      ModIs(k + 1, q + 1, 0, n);
    } else {
      ModIs(k + 1, q, k % n + 1, n);
    }
  }

  lemma ModIs(x: nat, q: nat, r: nat, n: nat)
    requires n > 0 && r < n && x == q * n + r
    ensures x % n == r
  {
    var d := x / n - q;
    assert x == x / n * n + x % n;
    assert d * n == r - x % n;
    Multiple(d, n);
  }

  lemma Multiple(d: int, n: nat)
    ensures d >= 1 ==> d * n >= n
    ensures d <= -1 ==> d * n + n <= 0
  {
  }

  lemma RotateNone(ring: seq<nat>)
    ensures Rotated(ring, 0) == ring
  {
  }

  lemma RotateOnce(ring: seq<nat>, k: nat)
    requires k < |ring|
    ensures Rotated(Rotated(ring, k), 1) == Rotated(ring, if k + 1 == |ring| then 0 else k + 1)
  {
  }

  // ---------------------------------------------------------------- whole runs

  datatype Step = SuspendStep | ResumeStep(thread: nat) | StartStep(thread: nat) | PriorityStep(thread: nat, priority: nat)
                | YieldStep | ScheduleStep | LockStep | UnlockStep

  /** The steps of the kernel that touch the scheduler, as far as they are allowed in a state. */
  function Do(s: State, a: Step): State
    requires Sized(s)
  {
    match a
    case SuspendStep => if s.stat[s.current] == Running then Suspended(s) else s
    case ResumeStep(t) => if t < |s.stat| then Resumed(s, t) else s
    case StartStep(t) => if t < |s.stat| && s.stat[t] == Init then Insert(s, t) else s
    case PriorityStep(t, p) => if t < |s.stat| && p < PRIORITIES then Repriced(s, t, p) else s
    case YieldStep => Yielding(s)
    case ScheduleStep => Schedule(s)
    case LockStep => s.(locks := s.locks + 1)
    case UnlockStep => s.(locks := if s.locks > 0 then s.locks - 1 else 0)
  }

  lemma LocksValid(s: State, locks: nat)
    requires Valid(s)
    ensures Valid(s.(locks := locks))
  {
    CurrentFits(s, s.(locks := locks));
  }

  lemma DoValid(s: State, a: Step)
    requires Valid(s)
    ensures Valid(Do(s, a))
  {
    hide QueuesFit, GroupFits, Schedule, Suspended, Insert, Repriced;
    match a {
      case SuspendStep => if s.stat[s.current] == Running { SuspendedValid(s); }
      case ResumeStep(t) => if t < |s.stat| && s.stat[t] == Suspend { InsertValid(s, t); }
      case StartStep(t) => if t < |s.stat| && s.stat[t] == Init { InsertValid(s, t); }
      case PriorityStep(t, p) => if t < |s.stat| && p < PRIORITIES { RepricedValid(s, t, p); }
      case YieldStep => YieldingValid(s, s.current, true);
      case ScheduleStep => ScheduleMeaning(s);
      case LockStep => LocksValid(s, s.locks + 1);
      case UnlockStep => LocksValid(s, if s.locks > 0 then s.locks - 1 else 0);
    }
  }

  /** One thread runs and the others are not started yet. */
  function Start(priority: seq<nat>): State {
    State(seq(PRIORITIES, _ => []), {}, 0, 0, priority,
          seq(|priority|, t => if t == 0 then Running else Init), seq(|priority|, _ => false))
  }

  lemma StartMeaning(priority: seq<nat>)
    requires |priority| > 0
    ensures var s := Start(priority);
            && s.current == 0 && s.locks == 0 && s.group == {} && s.priority == priority && |s.queues| == PRIORITIES
            && (forall p :: 0 <= p < PRIORITIES ==> s.queues[p] == [])
            && |s.stat| == |s.yielding| == |priority| && s.stat[0] == Running
            && (forall t :: 0 < t < |priority| ==> s.stat[t] == Init) && (forall t :: 0 <= t < |priority| ==> !s.yielding[t])
  {
  }

  /** In every run each bit of the group tells whether its queue is empty, and no thread is queued twice or
      queued while it runs. */
  ghost function After(priority: seq<nat>, run: seq<Step>): (s: State)
    requires |priority| > 0 && InRange(priority, PRIORITIES)
    ensures Valid(s)
  {
    if run == [] then Start(priority)
    else
      var s := After(priority, run[..|run| - 1]);
      DoValid(s, run[|run| - 1]);
      Do(s, run[|run| - 1])
  }

  // ---------------------------------------------------------------- the ready queues as linked rings

  /** The head of ready queue p is the node behind those of the n threads. */
  ghost predicate QueueLinked(next: seq<nat>, prev: seq<nat>, n: nat, queues: seq<seq<nat>>, p: nat)
    requires p < |queues|
  {
    Linked(next, prev, [n + p] + queues[p])
  }

  /** A thread that is on no ready queue is linked to itself. */
  ghost predicate Alone(next: seq<nat>, prev: seq<nat>, priority: seq<nat>, queues: seq<seq<nat>>, t: nat)
    requires t < |priority| && priority[t] < |queues|
  {
    t in queues[priority[t]] || Linked(next, prev, [t])
  }

  /** All threads of the queue have priority p. */
  predicate Priced(priority: seq<nat>, q: seq<nat>, p: nat) {
    forall i :: 0 <= i < |q| ==> q[i] < |priority| && priority[q[i]] == p
  }

  predicate Placed(priority: seq<nat>, queues: seq<seq<nat>>) {
    |queues| == PRIORITIES && InRange(priority, PRIORITIES)
    && forall p: nat :: p < PRIORITIES ==> Priced(priority, queues[p], p)
  }

  lemma PlacedAt(priority: seq<nat>, queues: seq<seq<nat>>, p: nat)
    requires Placed(priority, queues) && p < PRIORITIES
    ensures forall t :: t in queues[p] ==> t < |priority| && priority[t] == p
  {
    assert Priced(priority, queues[p], p);
  }

  ghost predicate Threaded(next: seq<nat>, prev: seq<nat>, priority: seq<nat>, queues: seq<seq<nat>>) {
    |next| == |prev| == |priority| + PRIORITIES && Placed(priority, queues)
    && (forall p: nat :: p < PRIORITIES ==> QueueLinked(next, prev, |priority|, queues, p))
    && (forall t: nat :: t < |priority| ==> Alone(next, prev, priority, queues, t))
  }

  /** Relinking queue p, which thread t joins, leaves or stays off, disturbs no other queue and no other thread. */
  lemma Relinked(next: seq<nat>, prev: seq<nat>, next2: seq<nat>, prev2: seq<nat>,
                 priority: seq<nat>, queues: seq<seq<nat>>, t: nat, q: seq<nat>)
    requires Threaded(next, prev, priority, queues) && t < |priority| && |next2| == |next| && |prev2| == |prev|
    requires var p := priority[t];
             Linked(next2, prev2, [|priority| + p] + q)
             && (forall x: nat :: x < |next| && x != |priority| + p && x != t && x !in queues[p]
                                  ==> next2[x] == next[x] && prev2[x] == prev[x])
             && (forall x :: x in q ==> x in queues[p] || x == t) && (forall x :: x in queues[p] && x != t ==> x in q)
    requires t in q || Linked(next2, prev2, [t])
    ensures Threaded(next2, prev2, priority, queues[priority[t] := q])
  {
    hide Linked, Priced;
    var n, p, after := |priority|, priority[t], queues[priority[t] := q];
    PlacedAt(priority, queues, p);
    assert Priced(priority, q, p) by { JoinPriced(priority, queues[p], q, t, p); }
    forall r: nat | r < PRIORITIES ensures Priced(priority, after[r], r) && QueueLinked(next2, prev2, n, after, r) {
      if r != p {
        assert Priced(priority, queues[r], r) && QueueLinked(next, prev, n, queues, r);
        QueueKept(next, prev, next2, prev2, priority, queues, p, t, r);
      }
    }
    forall u: nat | u < n ensures Alone(next2, prev2, priority, after, u) {
      assert Alone(next, prev, priority, queues, u);
      if u != t && u !in queues[priority[u]] {
        assert u !in queues[p];
        RingKept(next, prev, [u], next2, prev2);
      }
    }
  }

  lemma JoinPriced(priority: seq<nat>, q: seq<nat>, r: seq<nat>, t: nat, p: nat)
    requires (forall x :: x in q ==> x < |priority| && priority[x] == p) && t < |priority| && priority[t] == p
    requires forall x :: x in r ==> x in q || x == t
    ensures Priced(priority, r, p)
  {
    assert forall i :: 0 <= i < |r| ==> r[i] in r;
  }

  lemma QueueKept(next: seq<nat>, prev: seq<nat>, next2: seq<nat>, prev2: seq<nat>,
                  priority: seq<nat>, queues: seq<seq<nat>>, p: nat, t: nat, r: nat)
    requires Placed(priority, queues) && t < |priority| && priority[t] == p < PRIORITIES && r < PRIORITIES && r != p
    requires |next| == |prev| == |priority| + PRIORITIES && |next2| == |next| && |prev2| == |prev|
    requires QueueLinked(next, prev, |priority|, queues, r)
    requires forall x: nat :: x < |next| && x != |priority| + p && x != t && x !in queues[p]
                              ==> next2[x] == next[x] && prev2[x] == prev[x]
    ensures QueueLinked(next2, prev2, |priority|, queues, r)
  {
    hide Linked, Priced;
    PlacedAt(priority, queues, r);
    PlacedAt(priority, queues, p);
    var ring := [|priority| + r] + queues[r];
    forall i | 0 <= i < |ring|
      ensures ring[i] < |next| && next2[ring[i]] == next[ring[i]] && prev2[ring[i]] == prev[ring[i]]
    {
      assert i > 0 ==> ring[i] in queues[r];
      assert ring[i] !in queues[p];
    }
    RingKept(next, prev, ring, next2, prev2);
  }

  /** The priority of a thread that is on no queue is free to change. */
  lemma PricedAnew(next: seq<nat>, prev: seq<nat>, priority: seq<nat>, queues: seq<seq<nat>>, t: nat, p: nat)
    requires Threaded(next, prev, priority, queues) && t < |priority| && t !in queues[priority[t]] && p < PRIORITIES
    ensures Threaded(next, prev, priority[t := p], queues) && t !in queues[p]
  {
    hide Linked, Priced;
    var again := priority[t := p];
    forall r: nat | r < PRIORITIES ensures t !in queues[r] {
      PlacedAt(priority, queues, r);
    }
    forall r: nat | r < PRIORITIES ensures Priced(again, queues[r], r) && QueueLinked(next, prev, |again|, queues, r) {
      assert Priced(priority, queues[r], r) && QueueLinked(next, prev, |priority|, queues, r);
      StillPriced(priority, queues[r], r, t, p);
    }
    forall u: nat | u < |again| ensures Alone(next, prev, again, queues, u) {
      assert Alone(next, prev, priority, queues, u);
    }
  }

  lemma StillPriced(priority: seq<nat>, q: seq<nat>, r: nat, t: nat, p: nat)
    requires Priced(priority, q, r) && t !in q && t < |priority|
    ensures Priced(priority[t := p], q, r)
  {
  }

  lemma {:induction false} DroppedAt(q: seq<nat>, t: nat, k: nat)
    requires Distinct(q) && k < |q| && q[k] == t
    ensures Dropped(q, t) == Without(q, k)
  {
    if k > 0 {
      TailApart(q);
      DroppedAt(q[1..], t, k - 1);
    }
  }

  /** Where a thread is on its queue, or that it is not there. */
  lemma Spotted(q: seq<nat>, t: nat) returns (k: nat)
    ensures k <= |q| && (k < |q| <==> t in q) && (k < |q| ==> q[k] == t)
  {
    if t in q {
      k :| 0 <= k < |q| && q[k] == t;
    } else {
      k := |q|;
    }
  }

  /** A thread's node is on the ring of its priority or on one of its own. */
  lemma AtThread(next: seq<nat>, prev: seq<nat>, priority: seq<nat>, queues: seq<seq<nat>>, t: nat)
    requires Threaded(next, prev, priority, queues) && t < |priority|
    ensures |queues| == PRIORITIES && priority[t] < PRIORITIES && |next| == |prev| == |priority| + PRIORITIES
    ensures Linked(next, prev, [|priority| + priority[t]] + queues[priority[t]])
    ensures t in queues[priority[t]] || Linked(next, prev, [t])
  {
    hide Linked;
    assert QueueLinked(next, prev, |priority|, queues, priority[t]) && Alone(next, prev, priority, queues, t);
  }

  lemma BehindHead(next: seq<nat>, prev: seq<nat>, priority: seq<nat>, queues: seq<seq<nat>>, p: nat)
    requires Threaded(next, prev, priority, queues) && p < PRIORITIES
    ensures |queues| == PRIORITIES && |next| == |priority| + PRIORITIES
    ensures queues[p] != [] ==> next[|priority| + p] == queues[p][0]
  {
    var ring := [|priority| + p] + queues[p];
    assert QueueLinked(next, prev, |priority|, queues, p);
    Around(next, prev, ring, 0);
    assert queues[p] != [] ==> ring[1] == queues[p][0];
  }

  /** Removing thread t's node from the ring that it is on takes t off its queue, if it is queued. */
  lemma TakenOff(next: seq<nat>, prev: seq<nat>, next2: seq<nat>, prev2: seq<nat>,
                 priority: seq<nat>, queues: seq<seq<nat>>, t: nat, k: nat)
    requires Threaded(next, prev, priority, queues) && t < |priority| && |next2| == |next| && |prev2| == |prev|
    requires var q := queues[priority[t]];
             k <= |q| && (k < |q| <==> t in q) && (k < |q| ==> q[k] == t)
    requires var head, q := |priority| + priority[t], queues[priority[t]];
             Linked(next2, prev2, [t]) && (k < |q| ==> Linked(next2, prev2, Without([head] + q, k + 1)))
             && forall x :: 0 <= x < |next| && x !in (if k < |q| then [head] + q else [t])
                            ==> next2[x] == next[x] && prev2[x] == prev[x]
    ensures var q := Dropped(queues[priority[t]], t);
            t !in q && Linked(next2, prev2, [|priority| + priority[t]] + q)
            && Threaded(next2, prev2, priority, queues[priority[t] := q])
  {
    hide Linked, Dropped, Threaded;
    AtThread(next, prev, priority, queues, t);
    var head, p, q := |priority| + priority[t], priority[t], queues[priority[t]];
    RingDistinct(next, prev, head, q);
    if k < |q| {
      DroppedAt(q, t, k);
      assert Without([head] + q, k + 1) == [head] + Without(q, k);
    } else {
      DroppedAbsent(q, t);
      ThreadsPlaced(next, prev, priority, queues);
      NotOnRing(priority, queues, p, t);
      RingKept(next, prev, [head] + q, next2, prev2);
    }
    DroppedIs(q, t);
    Relinked(next, prev, next2, prev2, priority, queues, t, Dropped(q, t));
  }

  lemma ThreadsPlaced(next: seq<nat>, prev: seq<nat>, priority: seq<nat>, queues: seq<seq<nat>>)
    requires Threaded(next, prev, priority, queues)
    ensures Placed(priority, queues) && |next| == |prev| == |priority| + PRIORITIES
  {
  }

  // ---------------------------------------------------------------- the scheduler in place

  /** The kernel's ready table.  Every ready queue is a ring through the threads' list nodes. */
  class Table {
    const links: Links
    const priority: array<nat>
    const stat: array<Stat>
    const yielding: array<bool>
    var group: set<nat>
    var current: nat
    var locks: nat
    ghost var queues: seq<seq<nat>>

    ghost function Value(): State
      reads this, priority, stat, yielding
    {
      State(queues, group, current, locks, priority[..], stat[..], yielding[..])
    }

    ghost predicate Shaped()
      reads this, links, links.next, links.prev, priority, stat, yielding
    {
      Sized(Value())
      && links.next != links.prev && priority != links.next && priority != links.prev
      && Threaded(links.next[..], links.prev[..], priority[..], queues)
    }

    constructor (priorities: seq<nat>)
      requires |priorities| > 0 && InRange(priorities, PRIORITIES)
      ensures fresh(links) && fresh(links.next) && fresh(links.prev) && fresh(priority) && fresh(stat) && fresh(yielding)
      ensures Shaped() && Value() == Start(priorities) && Valid(Value())
    {
      var n := |priorities|;
      var ls := new Links(n + PRIORITIES);
      var ps := new nat[n](i requires 0 <= i < n => priorities[i]);
      var ss := new Stat[n](i => if i == 0 then Running else Init);
      var ys := new bool[n](_ => false);
      links, priority, stat, yielding, group, current, locks := ls, ps, ss, ys, {}, 0, 0;
      queues := seq(PRIORITIES, _ => []);
      new;
      assert priority[..] == priorities;
      assert stat[..] == seq(n, t => if t == 0 then Running else Init) && yielding[..] == seq(n, _ => false);
      hide Threaded, Valid;
      forall x: nat | x < n + PRIORITIES ensures Linked(links.next[..], links.prev[..], [x]) {
        assert links.Ring([x]);
      }
      hide Linked;
      AllAlone(links.next[..], links.prev[..], priorities);
      StartValid(priorities);
    }

    /** rt_list_remove of a thread's node, on its ready queue or on none; is the queue of its priority empty then? */
    method Unlink(t: nat) returns (empty: bool)
      requires Shaped() && t < stat.Length
      modifies this`queues, links.next, links.prev
      ensures Shaped() && queues == old(queues)[priority[t] := Dropped(old(queues[priority[t]]), t)]
      ensures empty <==> queues[priority[t]] == []
      ensures t !in queues[priority[t]]
    {
      hide Linked, Dropped, Threaded;
      ghost var p, n, q := priority[t], stat.Length, queues[priority[t]];
      ghost var next, prev := links.next[..], links.prev[..];
      AtThread(next, prev, priority[..], queues, t);
      ghost var k := Spotted(q, t);
      ghost var ring := if k < |q| then [n + p] + q else [t];
      links.Remove(t, ring, if k < |q| then k + 1 else 0);
      TakenOff(next, prev, links.next[..], links.prev[..], priority[..], queues, t, k);
      queues := queues[p := Dropped(q, t)];
      empty := links.IsEmpty(stat.Length + priority[t], [n + p] + queues[p]);
    }

    method DoInsert(t: nat)
      requires Shaped() && t < stat.Length && t !in queues[priority[t]]
      modifies this`group, this`queues, links.next, links.prev, stat
      ensures Shaped() && Value() == Insert(old(Value()), t)
    {
      hide Linked;
      if t == current {
        stat[t] := Running;
        return;
      }
      stat[t] := Ready;
      var p := priority[t];
      ghost var n, q := stat.Length, queues[p];
      ghost var next, prev := links.next[..], links.prev[..];
      assert QueueLinked(next, prev, n, queues, p);
      links.InsertBefore(stat.Length + p, t, [n + p] + q, 0);
      assert InsertedBefore([n + p] + q, 0, t) == [n + p] + (q + [t]);
      Relinked(next, prev, links.next[..], links.prev[..], priority[..], queues, t, q + [t]);
      queues := queues[p := q + [t]];
      group := group + {p};
    }

    method DoRemove(t: nat)
      requires Shaped() && t < stat.Length
      modifies this`group, this`queues, links.next, links.prev
      ensures Shaped() && Value() == Remove(old(Value()), t) && t !in queues[priority[t]]
    {
      hide Threaded, Dropped;
      var empty := Unlink(t);
      if empty {
        group := group - {priority[t]};
      }
    }

    /** The running thread was on no queue, so nothing but its state changes. */
    method DoSuspend()
      requires Shaped() && Valid(Value()) && stat[current] == Running
      modifies this`group, this`queues, links.next, links.prev, stat
      ensures Shaped() && Valid(Value()) && Value() == Suspended(old(Value()))
      ensures queues == old(queues) && group == old(group) && stat[..] == old(stat[..])[current := Suspend]
    {
      SuspendedValid(Value());
      RemoveLoosens(Value(), current);
      NotQueued(Value(), current);
      hide Remove, Valid, Threaded;
      DoRemove(current);
      stat[current] := Suspend;
    }

    /** A suspended thread becomes the last of its queue, or runs on if it has not been switched away from yet. */
    method DoResume(t: nat)
      requires Shaped() && Valid(Value()) && t < stat.Length
      modifies this`group, this`queues, links.next, links.prev, stat
      ensures Shaped() && Valid(Value()) && Value() == Resumed(old(Value()), t)
      ensures old(stat[t]) != Suspend ==> Value() == old(Value())
      ensures old(stat[t]) == Suspend && t == current ==> stat[t] == Running && queues == old(queues)
      ensures old(stat[t]) == Suspend && t != current ==>
                stat[t] == Ready && priority[t] in group
                && queues[priority[t]] == old(queues[priority[t]]) + [t]
                && forall p :: 0 <= p < PRIORITIES && p != priority[t] ==> queues[p] == old(queues[p])
    {
      if stat[t] == Suspend {
        NotQueued(Value(), t);
        InsertValid(Value(), t);
        hide Valid, Threaded;
        DoInsert(t);
      }
    }

    /** A ready thread goes to the end of its new queue and leaves every other; all others keep their order. */
    method DoChangePriority(t: nat, p: nat)
      requires Shaped() && Valid(Value()) && t < stat.Length && p < PRIORITIES
      modifies this`group, this`queues, links.next, links.prev, stat, priority
      ensures Shaped() && Valid(Value()) && Value() == Repriced(old(Value()), t, p)
      ensures stat[..] == old(stat[..]) && priority[..] == old(priority[..])[t := p]
      ensures stat[t] == Ready ==> p in group && t in queues[p] && queues[p][|queues[p]| - 1] == t
      ensures stat[t] != Ready ==> queues == old(queues) && group == old(group)
      ensures forall q :: 0 <= q < PRIORITIES && q != p && q != old(priority[t]) ==> queues[q] == old(queues[q])
    {
      RepricedValid(Value(), t, p);
      if stat[t] == Ready {
        ReadyElsewhere(Value(), t);
        hide Valid, Threaded, Dropped;
        DoRemove(t);
        PricedAnew(links.next[..], links.prev[..], priority[..], queues, t, p);
        priority[t] := p;
        DoInsert(t);
        assert stat[..] == old(stat[..]);
      } else {
        NotQueued(Value(), t);
        hide Valid, Threaded;
        PricedAnew(links.next[..], links.prev[..], priority[..], queues, t, p);
        priority[t] := p;
      }
    }

    /** _scheduler_get_highest_priority_thread: the first node behind the head of the first queue in use. */
    method Highest() returns (to: nat, top: nat)
      requires Shaped() && Valid(Value()) && group != {}
      ensures top == Least(group, 0) < PRIORITIES && queues[top] != [] && to == queues[top][0] < stat.Length
      ensures stat[to] == Ready && to != current
      ensures forall t :: 0 <= t < stat.Length && stat[t] == Ready ==> top <= priority[t]
    {
      TopIs(Value());
      top := Least(group, 0);
      hide Valid, Threaded;
      BehindHead(links.next[..], links.prev[..], priority[..], queues, top);
      to := links.next[stat.Length + top];
    }

    method DoSwitch(to: nat)
      requires Shaped() && Valid(Value()) && to < stat.Length && stat[to] == Ready
      modifies this`group, this`current, this`queues, links.next, links.prev, stat, yielding
      ensures Shaped() && Value() == Switched(old(Value()), to)
    {
      NotQueued(Value(), current);
      hide Insert, Remove, QueuesFit, GroupFits, Threaded;
      var from := current;
      var need := stat[from] == Running;
      if need {
        yielding[from] := false;
      }
      current := to;
      if need {
        DoInsert(from);
      }
      DoRemove(to);
      stat[to] := Running;
    }

    /** rt_schedule */
    method DoSchedule()
      requires Shaped() && Valid(Value())
      modifies this`group, this`current, this`queues, links.next, links.prev, stat, yielding
      ensures Shaped() && Valid(Value()) && Value() == Schedule(old(Value()))
      ensures Scheduled(old(Value()), Value())
    {
      ScheduleMeaning(Value());
      ScheduleDecides(Value());
      hide Valid, Switched, Remove, QueuesFit, GroupFits, Threaded, Scheduled, SameThreads;
      if locks == 0 && group != {} {
        var to, top := Highest();
        ValidSized(Value());
        if stat[current] == Running
           && (priority[current] < top || (priority[current] == top && !yielding[current])) {
          yielding[current] := false;
          DoRemove(current);
          stat[current] := Running;
        } else {
          DoSwitch(to);
        }
      }
    }

    method DoYield()
      requires Shaped() && Valid(Value())
      modifies this`group, this`current, this`queues, links.next, links.prev, stat, yielding
      ensures Shaped() && Valid(Value()) && Value() == Turn(old(Value()))
    {
      YieldingValid(Value(), current, true);
      hide Valid, Schedule, Threaded;
      ValidSized(Value());
      yielding[current] := true;
      DoSchedule();
    }
  }

  lemma AllAlone(next: seq<nat>, prev: seq<nat>, priority: seq<nat>)
    requires |next| == |prev| == |priority| + PRIORITIES && InRange(priority, PRIORITIES)
    requires forall x: nat :: x < |next| ==> Linked(next, prev, [x])
    ensures Threaded(next, prev, priority, seq(PRIORITIES, _ => []))
  {
    hide Linked;
    var queues := seq(PRIORITIES, _ => []);
    forall p: nat | p < PRIORITIES ensures QueueLinked(next, prev, |priority|, queues, p) {
      assert [|priority| + p] + queues[p] == [|priority| + p];
    }
  }

  lemma StartValid(priority: seq<nat>)
    requires |priority| > 0 && InRange(priority, PRIORITIES)
    ensures Valid(Start(priority))
  {
  }

  lemma NotQueued(s: State, t: nat)
    requires Valid(s) && t < |s.stat| && s.stat[t] != Ready
    ensures forall p :: 0 <= p < PRIORITIES ==> t !in s.queues[p]
  {
    forall p | 0 <= p < PRIORITIES ensures t !in s.queues[p] {
      assert t in s.queues[p] <==> Belongs(s, t, p);
    }
  }

  lemma ReadyElsewhere(s: State, t: nat)
    requires Valid(s) && t < |s.stat| && s.stat[t] == Ready
    ensures t != s.current
  {
  }

  lemma NotOnRing(priority: seq<nat>, queues: seq<seq<nat>>, p: nat, t: nat)
    requires Placed(priority, queues) && p < PRIORITIES && t < |priority| && t !in queues[p]
    ensures var ring := [|priority| + p] + queues[p];
            forall i :: 0 <= i < |ring| ==> ring[i] < |priority| + PRIORITIES && ring[i] != t
  {
    assert Priced(priority, queues[p], p);
  }

  lemma RingDistinct(next: seq<nat>, prev: seq<nat>, head: nat, q: seq<nat>)
    requires Linked(next, prev, [head] + q)
    ensures Distinct(q)
  {
    var ring := [head] + q;
    assert forall i :: 0 <= i < |q| ==> q[i] == ring[i + 1];
  }

  lemma ValidSized(s: State)
    requires Valid(s)
    ensures Sized(s)
  {
  }
}
