/** The reentrant spinlock, one atomic operation at a time, on any number of CPUs.

    A CPU holds interrupts off from before `lock` until after `unlock`, so its own
    operations come in program order; those of different CPUs interleave freely. */
module SpinLock {
  import opened Common

  /** Where a CPU stands: the atomic operation that it executes next. */
  datatype Pc =
    | Run            // outside lock and unlock
    | LoadOwner      // lock: owner.load
    | LoadLocked     // lock: locked.load, the owner was this CPU
    | Increment      // lock: depth.fetch_add, the fast path
    | Spin           // lock: locked.compare_exchange
    | StoreOwner     // lock: owner.store(cpu)
    | StoreDepth     // lock: depth.store(1)
    | Decrement      // unlock: depth.fetch_sub
    | ClearOwner     // unlock: owner.store(MAX)
    | ClearLocked    // unlock: locked.store(false)

  /** `nest` counts the guards that a CPU holds: calls of `lock` that have returned
      without the matching `unlock` having returned. */
  datatype Cpu = Cpu(pc: Pc, nest: nat)
  datatype State = State(locked: bool, owner: Option<nat>, depth: nat, cpus: map<nat, Cpu>)

  /** What a CPU does: it calls, or executes its next atomic operation.  A weak
      compare-exchange may fail for no reason. */
  datatype Action = CallLock | CallUnlock | Operate(spurious: bool)

  /** The next state, or None when the CPU cannot do this now. */
  function Step(s: State, c: nat, a: Action): Option<State> {
    if c !in s.cpus then None else
      var me := s.cpus[c];
      match a
      case CallLock =>
        if me.pc.Run? then Some(s.(cpus := s.cpus[c := me.(pc := LoadOwner)])) else None
      case CallUnlock =>
        if me.pc.Run? && me.nest > 0 then Some(s.(cpus := s.cpus[c := me.(pc := Decrement)])) else None
      case Operate(spurious) => Operation(s, c, spurious)
  }

  function Operation(s: State, c: nat, spurious: bool): Option<State>
    requires c in s.cpus
  {
    var me := s.cpus[c];
    match me.pc
    case Run => None
    case LoadOwner =>
      Some(s.(cpus := s.cpus[c := me.(pc := if s.owner == Some(c) then LoadLocked else Spin)]))
    case LoadLocked =>
      Some(s.(cpus := s.cpus[c := me.(pc := if s.locked then Increment else Spin)]))
    case Increment =>
      Some(s.(depth := s.depth + 1, cpus := s.cpus[c := Cpu(Run, me.nest + 1)]))
    case Spin =>
      if s.locked || spurious then Some(s) else Some(s.(locked := true, cpus := s.cpus[c := me.(pc := StoreOwner)]))
    case StoreOwner =>
      Some(s.(owner := Some(c), cpus := s.cpus[c := me.(pc := StoreDepth)]))
    case StoreDepth =>
      Some(s.(depth := 1, cpus := s.cpus[c := Cpu(Run, me.nest + 1)]))
    case Decrement =>
      // fetch_sub on 0 would wrap around
      var depth := if s.depth == 0 then WORD_LIMIT - 1 else s.depth - 1;
      if s.depth == 1 then Some(s.(depth := depth, cpus := s.cpus[c := me.(pc := ClearOwner)]))
      else Some(s.(depth := depth, cpus := s.cpus[c := Cpu(Run, if me.nest > 0 then me.nest - 1 else 0)]))
    case ClearOwner =>
      Some(s.(owner := None, cpus := s.cpus[c := me.(pc := ClearLocked)]))
    case ClearLocked =>
      Some(s.(locked := false, cpus := s.cpus[c := Cpu(Run, if me.nest > 0 then me.nest - 1 else 0)]))
  }

  ghost predicate Initial(s: State) {
    !s.locked && s.owner == None && s.depth == 0 && forall c :: c in s.cpus ==> s.cpus[c] == Cpu(Run, 0)
  }

  // ---- the invariant ----

  /** The CPU has won the compare-exchange and not yet stored `false`. */
  ghost predicate Holds(s: State, c: nat) {
    c in s.cpus && (s.cpus[c].nest > 0 || s.cpus[c].pc.StoreOwner? || s.cpus[c].pc.StoreDepth?)
  }

  /** What `owner` and `depth` are while this CPU holds the lock. */
  ghost predicate HolderOk(s: State, c: nat)
    requires c in s.cpus
  {
    var me := s.cpus[c];
    match me.pc
    case StoreOwner => s.owner == None && me.nest == 0
    case StoreDepth => s.owner == Some(c) && me.nest == 0
    case ClearOwner => s.owner == Some(c) && s.depth == 0 && me.nest == 1
    case ClearLocked => s.owner == None && s.depth == 0 && me.nest == 1
    case Spin => false
    case _ => s.owner == Some(c) && s.depth == me.nest
  }

  /** A CPU that does not hold the lock is running, or on its way to spin. */
  ghost predicate WaiterOk(s: State, c: nat)
    requires c in s.cpus
  {
    s.cpus[c].pc.Run? || s.cpus[c].pc.LoadOwner? || s.cpus[c].pc.Spin?
  }

  ghost predicate Inv(s: State) {
    && (forall c :: c in s.cpus ==>
         if Holds(s, c) then s.locked && HolderOk(s, c) else WaiterOk(s, c) && s.owner != Some(c))
    && (forall c, d :: Holds(s, c) && Holds(s, d) ==> c == d)
    && ((forall c :: !Holds(s, c)) ==> !s.locked && s.owner == None && s.depth == 0)
  }

  lemma InitialInv(s: State)
    requires Initial(s)
    ensures Inv(s)
  {
  }

  /** Only the acting CPU's own record changes. */
  lemma OthersKeepHolding(s: State, c: nat, a: Action)
    requires Step(s, c, a).Some?
    ensures var s' := Step(s, c, a).value;
      s'.cpus.Keys == s.cpus.Keys
        && forall d :: d != c ==> (d in s.cpus ==> s'.cpus[d] == s.cpus[d]) && (Holds(s', d) <==>
        Holds(s, d))
  {
  }

  /** A step of a CPU that does not hold the lock. */
  lemma WaiterKeepsInv(s: State, c: nat, a: Action)
    requires Inv(s) && Step(s, c, a).Some? && !Holds(s, c)
    ensures Inv(Step(s, c, a).value)
  {
    OthersKeepHolding(s, c, a);
  }

  lemma HolderKeepsInv(s: State, c: nat, a: Action)
    requires Inv(s) && Step(s, c, a).Some? && Holds(s, c)
    ensures Inv(Step(s, c, a).value)
  {
    OthersKeepHolding(s, c, a);
    assert forall d :: d in s.cpus && d != c ==> WaiterOk(s, d);
  }

  lemma StepKeepsInv(s: State, c: nat, a: Action)
    requires Inv(s) && Step(s, c, a).Some?
    ensures Inv(Step(s, c, a).value)
  {
    if Holds(s, c) {
      HolderKeepsInv(s, c, a);
    } else {
      WaiterKeepsInv(s, c, a);
    }
  }

  // ---- whole runs ----

  datatype Event = Event(cpu: nat, action: Action)

  /** The state after a run, or None if some event was not possible. */
  function After(s: State, events: seq<Event>): Option<State> {
    if events == [] then Some(s) else
      var r := After(s, events[..|events| - 1]);
      if r.None? then None else Step(r.value, events[|events| - 1].cpu, events[|events| - 1].action)
  }

  lemma {:induction false} ReachableInv(s: State, events: seq<Event>)
    requires Initial(s) && After(s, events).Some?
    ensures Inv(After(s, events).value)
  {
    if events == [] {
      InitialInv(s);
    } else {
      var n := |events| - 1;
      ReachableInv(s, events[..n]);
      StepKeepsInv(After(s, events[..n]).value, events[n].cpu, events[n].action);
    }
  }

  /** In every state of every run: at most one CPU is inside, `depth` is its nesting,
      the fast path is taken by the holder only, `unlock` never takes `depth` below
      zero, and in the windows between the compare-exchange and the owner store and
      between the owner clear and the unlock nobody is on the fast path. */
  lemma Safety(s0: State, events: seq<Event>, c: nat, d: nat)
    requires Initial(s0) && After(s0, events).Some?
    requires c in After(s0, events).value.cpus && d in After(s0, events).value.cpus
    ensures var s := After(s0, events).value;
      var me, you := s.cpus[c], s.cpus[d];
      && (me.nest > 0 && you.nest > 0 ==> c == d)
      && (me.nest > 0 ==> s.locked)
      && (me.nest > 0 && me.pc.Run? ==> s.depth == me.nest && s.owner == Some(c))
      && (me.pc.LoadLocked? || me.pc.Increment? ==> me.nest > 0 && s.owner == Some(c) && s.depth == me.nest)
      && (me.pc.Decrement? ==> s.depth > 0 && s.depth == me.nest)
      && (me.pc.StoreOwner? || me.pc.ClearLocked? ==>
            s.owner == None && (d != c ==> you.nest == 0 && (you.pc.Run? || you.pc.LoadOwner? || you.pc.Spin?)))
  {
    ReachableInv(s0, events);
    var s := After(s0, events).value;
    assert Holds(s, c) || WaiterOk(s, c);
    assert Holds(s, d) || WaiterOk(s, d);
  }

  /** When every guard is gone the lock is as it was at first. */
  lemma QuietMeansFree(s0: State, events: seq<Event>)
    requires Initial(s0) && After(s0, events).Some?
    requires forall c :: c in After(s0, events).value.cpus ==> After(s0, events).value.cpus[c] == Cpu(Run, 0)
    ensures Initial(After(s0, events).value)
  {
    ReachableInv(s0, events);
    var s := After(s0, events).value;
    assert forall c :: !Holds(s, c);
  }

  // ---- what a call does when nobody is in the way ----

  function Operations(c: nat, n: nat): (r: seq<Event>)
    ensures |r| == n && forall k :: 0 <= k < n ==> r[k] == Event(c, Operate(false))
  {
    seq(n, _ => Event(c, Operate(false)))
  }

  lemma OneMore(s: State, events: seq<Event>, e: Event)
    requires After(s, events).Some?
    ensures After(s, events + [e]) == Step(After(s, events).value, e.cpu, e.action)
  {
    assert (events + [e])[..|events|] == events;
  }

  lemma NothingYet(s: State)
    ensures After(s, []) == Some(s)
  {
  }

  /** A call and the operations after it, one by one. */
  lemma {:induction false} CallThen(s: State, c: nat, call: Action, n: nat)
    requires Step(s, c, call).Some?
    ensures After(s, [Event(c, call)] + Operations(c, n)) ==
      Alone(Step(s, c, call).value, c, n)
  {
    hide Step;
    if n == 0 {
      NothingYet(s);
      OneMore(s, [], Event(c, call));
      assert [] + [Event(c, call)] == [Event(c, call)] + Operations(c, 0);
    } else {
      CallThen(s, c, call, n - 1);
      var run := [Event(c, call)] + Operations(c, n - 1);
      assert run + [Event(c, Operate(false))] == [Event(c, call)] + Operations(c, n);
      assert ([Event(c, call)] + Operations(c, n))[..|run|] == run;
    }
  }

  /** `n` operations of one CPU in a row. */
  ghost function Alone(s: State, c: nat, n: nat): Option<State> {
    if n == 0 then Some(s)
    else
      var r := Alone(s, c, n - 1);
      if r.None? then None else Step(r.value, c, Operate(false))
  }

  lemma Four(s: State, c: nat)
    ensures Alone(s, c, 1) == Step(s, c, Operate(false))
    ensures Alone(s, c, 2) == Then(Alone(s, c, 1), c) && Alone(s, c, 3) == Then(Alone(s, c, 2), c)
    ensures Alone(s, c, 4) == Then(Alone(s, c, 3), c)
  {
    assert Alone(s, c, 0) == Some(s);
  }

  function Then(r: Option<State>, c: nat): Option<State> {
    if r.None? then None else Step(r.value, c, Operate(false))
  }

  /** A free lock is taken: after four operations the CPU has the only guard. */
  lemma FreeLockIsTaken(s0: State, events: seq<Event>, c: nat)
    requires Initial(s0) && After(s0, events).Some?
    requires var s := After(s0, events).value; !s.locked && c in s.cpus && s.cpus[c].pc.Run?
    ensures var s := After(s0, events).value;
      After(s, [Event(c, CallLock)] + Operations(c, 4)) == Some(State(true, Some(c), 1, s.cpus[c := Cpu(Run, 1)]))
  {
    ReachableInv(s0, events);
    var s := After(s0, events).value;
    CallThen(s, c, CallLock, 4);
    var t := Step(s, c, CallLock).value;
    Four(t, c);
    assert !Holds(s, c);
    assert Alone(t, c, 4).value.cpus == s.cpus[c := Cpu(Run, 1)];
  }

  /** The CPU that has it takes it again in three operations. */
  lemma HolderTakesAgain(s0: State, events: seq<Event>, c: nat)
    requires Initial(s0) && After(s0, events).Some?
    requires var s := After(s0, events).value; c in s.cpus && s.cpus[c].pc.Run? && s.cpus[c].nest > 0
    ensures var s := After(s0, events).value;
      var n := s.cpus[c].nest + 1;
      After(s, [Event(c, CallLock)] + Operations(c, 3)) == Some(State(true, Some(c), n, s.cpus[c := Cpu(Run, n)]))
  {
    ReachableInv(s0, events);
    var s := After(s0, events).value;
    CallThen(s, c, CallLock, 3);
    var t := Step(s, c, CallLock).value;
    Four(t, c);
    assert Holds(s, c);
    assert Alone(t, c, 3).value.cpus == s.cpus[c := Cpu(Run, s.cpus[c].nest + 1)];
  }

  /** It gives one guard back in one operation, and the last one in three, which frees the
      lock. */
  lemma UnlockGivesBack(s0: State, events: seq<Event>, c: nat)
    requires Initial(s0) && After(s0, events).Some?
    requires var s := After(s0, events).value; c in s.cpus && s.cpus[c].pc.Run? && s.cpus[c].nest > 0
    ensures var s := After(s0, events).value;
      var n := s.cpus[c].nest;
      if n > 1
      then After(s, [Event(c, CallUnlock)] + Operations(c, 1)) ==
        Some(State(true, Some(c), n - 1, s.cpus[c := Cpu(Run, n - 1)]))
      else After(s, [Event(c, CallUnlock)] + Operations(c, 3)) == Some(State(false, None, 0, s.cpus[c := Cpu(Run, 0)]))
  {
    ReachableInv(s0, events);
    var s := After(s0, events).value;
    CallThen(s, c, CallUnlock, 1);
    CallThen(s, c, CallUnlock, 3);
    var t := Step(s, c, CallUnlock).value;
    Four(t, c);
    assert Holds(s, c);
    if s.cpus[c].nest > 1 {
      assert Alone(t, c, 1).value.cpus == s.cpus[c := Cpu(Run, s.cpus[c].nest - 1)];
    } else {
      assert Alone(t, c, 3).value.cpus == s.cpus[c := Cpu(Run, 0)];
    }
  }

  /** While another CPU has it, a CPU that wants it spins and changes nothing. */
  lemma OthersSpin(s0: State, events: seq<Event>, c: nat, d: nat, spurious: bool)
    requires Initial(s0) && After(s0, events).Some?
    requires var s := After(s0, events).value;
      c in s.cpus && d in s.cpus && c != d && s.cpus[c].pc.Spin? && s.cpus[d].nest > 0
    ensures Step(After(s0, events).value, c, Operate(spurious)) == After(s0, events)
  {
    ReachableInv(s0, events);
    assert Holds(After(s0, events).value, d);
  }

  // ---- the lock as a plain reentrant mutex ----

  /** How many guards every CPU holds. */
  function Guards(s: State): map<nat, nat> { map c | c in s.cpus :: s.cpus[c].nest }

  /** A plain mutex: a CPU takes a guard only while no other CPU has one, and gives
      back only what it has. */
  ghost predicate MutexStep(g: map<nat, nat>, g': map<nat, nat>, c: nat) {
    || g' == g
    || (c in g && g' == g[c := g[c] + 1] && forall d :: d in g && d != c ==> g[d] == 0)
    || (c in g && g[c] > 0 && g' == g[c := g[c] - 1])
  }

  lemma StepRefinesMutex(s: State, c: nat, a: Action)
    requires Inv(s) && Step(s, c, a).Some?
    ensures MutexStep(Guards(s), Guards(Step(s, c, a).value), c)
  {
    var s' := Step(s, c, a).value;
    OthersKeepHolding(s, c, a);
    forall d | d in s.cpus && d != c && Holds(s, c) ensures s.cpus[d].nest == 0 {
      assert !Holds(s, d);
    }
    var me, me' := s.cpus[c], s'.cpus[c];
    assert Guards(s') == Guards(s)[c := me'.nest];
    assert me'.nest == me.nest || (me'.nest == me.nest + 1 && Holds(s, c)) || (me.nest > 0 && me'.nest == me.nest - 1);
  }

  /** Every run of the lock is a run of the mutex. */
  lemma RunsRefineMutex(s0: State, events: seq<Event>, i: nat)
    requires Initial(s0) && i < |events| && After(s0, events[..i + 1]).Some?
    ensures After(s0, events[..i]).Some?
    ensures MutexStep(Guards(After(s0, events[..i]).value), Guards(After(s0, events[..i + 1]).value), events[i].cpu)
  {
    assert events[..i + 1][..i] == events[..i];
    ReachableInv(s0, events[..i]);
    StepRefinesMutex(After(s0, events[..i]).value, events[i].cpu, events[i].action);
  }
}
