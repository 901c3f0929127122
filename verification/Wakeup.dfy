/**
 The sleeping side of a blocking object: who is suspended on it and who has been resumed but has not run
 again yet.  A resumed thread checks once more and may find that a thread that never slept was faster.
 */
module Wakeup {

  import opened WaitList

  datatype Side = Side(waiting: seq<nat>, woken: set<nat>)

  const AWAKE := Side([], {})

  /** Nobody is on the list twice, or both asleep and resumed. */
  predicate Apart(s: Side) {
    Distinct(s.waiting) && forall i :: 0 <= i < |s.waiting| ==> s.waiting[i] !in s.woken
  }

  /** No wakeup is lost: whenever somebody sleeps, everything available has a resumed thread to come for it. */
  predicate Served(s: Side, available: nat) {
    Apart(s) && (s.waiting != [] ==> available <= |s.woken|)
  }

  predicate Involved(s: Side, t: nat) {
    t in s.waiting || t in s.woken
  }

  /** Thread t, running for the first time or resumed, finds nothing and is suspended somewhere on the list. */
  function Sleep(s: Side, t: nat, at: nat): Side
    requires at <= |s.waiting|
  {
    Side(s.waiting[..at] + [t] + s.waiting[at..], s.woken - {t})
  }

  /** The first thread on the list, if any, is resumed. */
  function WakeFirst(s: Side): Side {
    if s.waiting == [] then s else Side(s.waiting[1..], s.woken + {s.waiting[0]})
  }

  /** Thread t is done here, having been resumed or not. */
  function Leave(s: Side, t: nat): Side {
    s.(woken := s.woken - {t})
  }

  function Expire(s: Side, i: nat): Side
    requires i < |s.waiting|
  {
    s.(waiting := Without(s.waiting, i))
  }

  /** _ipc_list_resume_all: everybody asleep is resumed with an error and leaves. */
  function Dismiss(s: Side): Side {
    s.(waiting := [])
  }

  lemma SleepServed(s: Side, t: nat, at: nat)
    requires Served(s, 0) && t !in s.waiting && at <= |s.waiting|
    ensures Served(Sleep(s, t, at), 0)
  {
    SpliceDistinct(s.waiting, at, t);
    var q := Sleep(s, t, at).waiting;
    assert forall i :: 0 <= i < |q| ==> q[i] == t || q[i] in s.waiting;
  }

  /** One more becomes available and one more is on its way to it. */
  lemma WakeServed(s: Side, available: nat)
    requires Served(s, available)
    ensures Served(WakeFirst(s), available + 1)
  {
    if s.waiting != [] {
      var q := s.waiting[1..];
      assert forall i :: 0 <= i < |q| ==> q[i] == s.waiting[i + 1];
    }
  }

  /** Somebody, resumed or just passing, takes one. */
  lemma TakeServed(s: Side, t: nat, available: nat)
    requires Served(s, available) && available > 0
    ensures Served(Leave(s, t), available - 1)
  {
    if t !in s.woken {
      assert s.woken - {t} == s.woken;
    }
  }

  /** A resumed thread whose time is up leaves without finding anything. */
  lemma GiveUpServed(s: Side, t: nat)
    requires Served(s, 0)
    ensures Served(Leave(s, t), 0)
  {
  }

  lemma ExpireServed(s: Side, i: nat, available: nat)
    requires Served(s, available) && i < |s.waiting|
    ensures Served(Expire(s, i), available)
  {
    var q := Without(s.waiting, i);
    assert forall k :: 0 <= k < |q| ==> q[k] == s.waiting[if k < i then k else k + 1];
  }

  lemma DismissServed(s: Side, available: nat)
    requires Apart(s)
    ensures Served(Dismiss(s), available)
  {
  }

  /** Once every resumed thread has run, nobody sleeps while anything is available. */
  lemma NobodySleepsOnPlenty(s: Side, available: nat)
    requires Served(s, available) && s.woken == {}
    ensures s.waiting == [] || available == 0
  {
  }

  // ---------------------------------------------------------------- what becomes of the threads in one step

  /** The first thread on the list, if any, has been resumed and no other. */
  predicate FirstResumed(s: Side, r: Side) {
    if s.waiting == [] then r == s
    else s.waiting == [s.waiting[0]] + r.waiting && r.woken == s.woken + {s.waiting[0]}
  }

  /** Thread t has gone on, and nobody else's state has changed. */
  predicate WentOn(s: Side, r: Side, t: nat) {
    r.waiting == s.waiting && r.woken == s.woken - {t}
  }

  /** Thread t has been suspended between the first `at` threads and the others. */
  predicate FellAsleep(s: Side, r: Side, t: nat, at: nat) {
    at <= |s.waiting| && r.waiting == s.waiting[..at] + [t] + s.waiting[at..] && r.woken == s.woken - {t}
  }

  /** The i-th sleeper is gone, and nobody else's state has changed. */
  predicate LeftOut(s: Side, r: Side, i: nat) {
    i < |s.waiting| && r.waiting == s.waiting[..i] + s.waiting[i + 1..] && r.woken == s.woken
  }

  lemma WakesFirst(s: Side)
    ensures FirstResumed(s, WakeFirst(s))
  {
    if s.waiting != [] {
      assert s.waiting == [s.waiting[0]] + s.waiting[1..];
    }
  }
}
