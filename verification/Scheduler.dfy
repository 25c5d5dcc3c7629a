/** The choice of the next thread on a CPU at a timer tick. */
module Scheduler {
  import opened Common

  datatype Thread = Thread(tid: nat, cpu: nat, ready: bool)

  /** Ready threads that are pinned to the CPU. */
  function ReadySet(threads: seq<Thread>, cpu: nat): set<nat> {
    set i | 0 <= i < |threads| && threads[i].ready && threads[i].cpu == cpu :: threads[i].tid
  }

  predicate Runnable(t: Thread, cpu: nat) { t.ready && t.cpu == cpu }

  lemma ReadyIs(threads: seq<Thread>, cpu: nat)
    ensures forall i :: 0 <= i < |threads| && Runnable(threads[i], cpu) ==> threads[i].tid in ReadySet(threads, cpu)
    ensures forall x :: x in ReadySet(threads, cpu) ==>
      exists i :: 0 <= i < |threads| && Runnable(threads[i], cpu) && threads[i].tid == x
  {
    forall x | x in ReadySet(threads, cpu)
      ensures exists i :: 0 <= i < |threads| && Runnable(threads[i], cpu) && threads[i].tid == x
    {
      var i :| 0 <= i < |threads| && threads[i].ready && threads[i].cpu == cpu && threads[i].tid == x;
      assert Runnable(threads[i], cpu);
    }
  }

  ghost predicate IsMin(s: set<nat>, r: nat) { r in s && forall x :: x in s ==> r <= x }

  ghost function Above(s: set<nat>, cur: nat): set<nat> { set x | x in s && x > cur }

  /** Round robin: the lowest ready thread above the current one, or the lowest of all. */
  ghost predicate Chosen(ready: set<nat>, cur: nat, r: nat) {
    if Above(ready, cur) != {} then IsMin(Above(ready, cur), r)
    else if ready != {} then IsMin(ready, r)
    else r == 0
  }

  /** The minimum of the ready tids above `floor`, as `filter`, `map` and `min` give it. */
  method LowestReady(threads: seq<Thread>, cpu: nat, floor: int) returns (r: Option<nat>)
    ensures r.None? <==> forall x :: x in ReadySet(threads, cpu) ==> x <= floor
    ensures r.Some? ==> r.value in ReadySet(threads, cpu) && r.value > floor
    ensures r.Some? ==> forall x :: x in ReadySet(threads, cpu) && x > floor ==> r.value <= x
  {
    r := None;
    var i := 0;
    while i < |threads|
      invariant 0 <= i <= |threads|
      invariant r.Some? ==> r.value in ReadySet(threads, cpu) && r.value > floor
      invariant forall j :: 0 <= j < i && threads[j].ready && threads[j].cpu == cpu && threads[j].tid > floor ==>
        r.Some? && r.value <= threads[j].tid
    {
      var t := threads[i];
      if t.ready && t.cpu == cpu && t.tid > floor && (r.None? || t.tid < r.value) {
        r := Some(t.tid);
      }
      i := i + 1;
    }
  }

  method ScheduleNext(threads: seq<Thread>, cpu: nat, cur: nat) returns (r: nat)
    ensures Chosen(ReadySet(threads, cpu), cur, r)
    // the same in terms of the table
    ensures (forall i :: 0 <= i < |threads| ==> !Runnable(threads[i], cpu)) ==> r == 0
    ensures (exists i :: 0 <= i < |threads| && Runnable(threads[i], cpu)) ==>
      exists i :: 0 <= i < |threads| && Runnable(threads[i], cpu) && threads[i].tid == r
    ensures forall i :: 0 <= i < |threads| && Runnable(threads[i], cpu) ==>
      if threads[i].tid > cur then cur < r <= threads[i].tid else cur < r || r <= threads[i].tid
  {
    hide ReadySet;
    ReadyIs(threads, cpu);
    var ready := ReadySet(threads, cpu);
    var above := LowestReady(threads, cpu, cur);
    if above.Some? {
      assert above.value in Above(ready, cur);
      return above.value;
    }
    var any := LowestReady(threads, cpu, -1);
    if any.Some? {
      return any.value;
    }
    assert forall x :: x in ready ==> x <= -1;
    return 0;
  }

  // ---- bounded waiting ----

  /** Threads that come after `cur` and before `t` in the round. */
  ghost function Between(all: set<nat>, cur: nat, t: nat): set<nat> {
    set x | x in all && if cur < t then cur < x < t else x > cur || x < t
  }

  /** A decision that does not take `t` brings its turn nearer, whoever is ready. */
  lemma TurnComesNearer(all: set<nat>, ready: set<nat>, cur: nat, t: nat, r: nat)
    requires ready <= all && t in ready && Chosen(ready, cur, r) && r != t
    ensures r in Between(all, cur, t) && Between(all, r, t) <= Between(all, cur, t) - {r}
  {
    assert t > cur ==> t in Above(ready, cur);
    if Above(ready, cur) != {} {
      assert r in Above(ready, cur);
    }
  }

  /** The current thread at decision `k` is the one that the decision before took. */
  function CurrentAt(cur: nat, turn: seq<nat>, k: nat): nat
    requires k <= |turn|
  {
    if k == 0 then cur else turn[k - 1]
  }

  /** A run of timer decisions: `ready[k]` is the ready set at decision `k`, `turn[k]`
      the thread that it takes. */
  ghost predicate Decisions(all: set<nat>, cur: nat, ready: seq<set<nat>>, turn: seq<nat>) {
    && |ready| == |turn|
    && forall k :: 0 <= k < |turn| ==> ready[k] <= all && Chosen(ready[k], CurrentAt(cur, turn, k), turn[k])
  }

  lemma {:induction false} TurnWithin(all: set<nat>, cur: nat, ready: seq<set<nat>>, turn: seq<nat>, t: nat)
    requires Decisions(all, cur, ready, turn) && |turn| > |Between(all, cur, t)|
      && forall k :: 0 <= k < |ready| ==> t in ready[k]
    ensures exists k :: 0 <= k <= |Between(all, cur, t)| && turn[k] == t
    decreases |turn|
  {
    assert Chosen(ready[0], CurrentAt(cur, turn, 0), turn[0]);
    if turn[0] != t {
      var r, before := turn[0], Between(all, cur, t);
      TurnComesNearer(all, ready[0], cur, t, r);
      Smaller(Between(all, r, t), before, r);
      RestDecides(all, cur, ready, turn);
      TurnWithin(all, r, ready[1..], turn[1..], t);
      var k :| 0 <= k <= |Between(all, r, t)| && turn[1..][k] == t;
      assert turn[k + 1] == t;
    }
  }

  lemma RestDecides(all: set<nat>, cur: nat, ready: seq<set<nat>>, turn: seq<nat>)
    requires Decisions(all, cur, ready, turn) && turn != []
    ensures Decisions(all, turn[0], ready[1..], turn[1..])
  {
    forall k | 0 <= k < |turn[1..]|
      ensures ready[1..][k] <= all && Chosen(ready[1..][k], CurrentAt(turn[0], turn[1..], k), turn[1..][k])
    {
      assert ready[1..][k] == ready[k + 1] && turn[1..][k] == turn[k + 1];
      assert Chosen(ready[k + 1], CurrentAt(cur, turn, k + 1), turn[k + 1]);
    }
  }

  lemma Smaller(a: set<nat>, b: set<nat>, r: nat)
    requires r in b && a <= b - {r}
    ensures |a| < |b|
  {
    Subset(a, b - {r});
  }

  lemma {:induction false} Subset(a: set<nat>, b: set<nat>)
    requires a <= b
    ensures |a| <= |b|
  {
    if a != {} {
      var x :| x in a;
      Subset(a - {x}, b - {x});
    }
  }

  /** On a CPU with N threads, one that stays ready is taken within N decisions, however
      the others sleep and wake. */
  lemma BoundedWaiting(all: set<nat>, cur: nat, ready: seq<set<nat>>, turn: seq<nat>, t: nat)
    requires Decisions(all, cur, ready, turn) && t in all && |turn| >= |all|
      && forall k :: 0 <= k < |ready| ==> t in ready[k]
    ensures exists k :: 0 <= k < |all| && turn[k] == t
  {
    assert t !in Between(all, cur, t);
    Smaller(Between(all, cur, t), all, t);
    TurnWithin(all, cur, ready, turn, t);
  }
}
