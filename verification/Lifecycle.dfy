/** Threads and processes from spawn to exit, one lock section at a time.

    Every section of the thread lock is one step; sections of different CPUs interleave
    freely.  What a CPU does between two sections of one system call is kept in `pc`. */
module Lifecycle {
  import opened Common

  datatype Wait = NoWait | OnTid(tid: nat) | OnOther
  datatype Status = Ready | Running | Sleeping
  /** A thread is taken out of the table in the section that marks it exited, so the
      table holds live threads only. */
  datatype Thread = Thread(pid: nat, st: Status, wait: Wait, cpu: nat)
  datatype Proc = Proc(main: nat, threads: set<nat>, killPending: bool)

  datatype Pc =
    | Idle                  // in the scheduler
    | Picked(tid: nat)      // schedule_next has answered
    | Launching             // set_current_user_tid is done, set_running is not
    | User                  // running its current thread
    | Aiming                // a console read has set the wait target of the main thread
    | Blocking              // a system call has put a thread to sleep, not committed yet
    | Leaving               // SYS_THREAD_EXIT has seen other live threads
    | Tearing               // exit_current has seen no other live thread

  /** `tid` and `pid` are the CPU's CURRENT_USER_TID and CURRENT_USER_PID. */
  datatype Cpu = Cpu(pc: Pc, tid: Option<nat>, pid: Option<nat>)

  /** `torn` lists the teardowns of processes in order, `freed` the processes whose
      address space was freed. */
  datatype State = State(
    threads: map<nat, Thread>, procs: map<nat, Proc>, cpus: map<nat, Cpu>,
    nextTid: nat, nextPid: nat,
    torn: seq<nat>, freed: set<nat>)

  // ---- the sections ----

  datatype Step =
    | Create(cpu: nat)                  // a new process with its main thread on `cpu`
    | SetReady(tid: nat)                // kill_pid, timers: Ready, wait target kept
    | Kill(pid: nat)
    | Wake(tid: nat)                    // the wakeup functions: Ready, wait target cleared
    | Pick(c: nat, tid: nat)            // schedule_next
    | Drop(c: nat)                      // schedule_next has found none: set_current_user_tid(None)
    | Enter(c: nat)                     // set_current_user_tid
    | Launch(c: nat)                    // set_running
    | Preempt(c: nat)                   // the timer
    | Block(c: nat)                     // block_current: the calling thread, on anything but a thread
    | BlockMain(c: nat)                 // pipe read, channel: the main thread of the process
    | Aim(c: nat)                       // console read: set_wait_target of the main thread ...
    | Doze(c: nat)                      // ... and, in a section of its own, set_sleeping
    | Spawn(c: nat, cpu: nat)
    | Join(c: nat, target: nat)
    | Commit(c: nat)                    // syscall_block_fn
    | CheckExit(c: nat)                 // SYS_THREAD_EXIT: count the live threads
    | ThreadExit(c: nat)                // exit_current_thread
    | ExitCheck(c: nat)                 // exit_current, first section
    | Teardown(c: nat)                  // exit_current, second section

  function SetStatus(threads: map<nat, Thread>, t: nat, st: Status): map<nat, Thread> {
    if t in threads then threads[t := threads[t].(st := st)] else threads
  }

  function SetWait(threads: map<nat, Thread>, t: nat, w: Wait): map<nat, Thread> {
    if t in threads then threads[t := threads[t].(wait := w)] else threads
  }

  /** Both in one section. */
  function PutToSleep(threads: map<nat, Thread>, t: nat, w: Wait): map<nat, Thread> {
    SetStatus(SetWait(threads, t, w), t, Sleeping)
  }

  /** `remove_thread` of all that are `gone`, and `wakeup_thread_waiters` of `exited`. */
  function Removed(threads: map<nat, Thread>, gone: set<nat>, exited: nat): map<nat, Thread> {
    map t | t in threads && t !in gone ::
      var x := threads[t];
      if x.st.Sleeping? && x.wait == OnTid(exited) then x.(st := Ready, wait := NoWait) else x
  }

  /** `live_thread_count`. */
  function Live(s: State, pid: nat): set<nat> {
    if pid in s.procs then set t | t in s.procs[pid].threads && t in s.threads else {}
  }

  predicate At(s: State, c: nat, pc: Pc) {
    c in s.cpus && s.cpus[c].pc == pc && s.cpus[c].tid.Some? && s.cpus[c].pid.Some?
  }

  /** The main thread of the process that runs on `c`. */
  function MainOf(s: State, c: nat): nat
    requires c in s.cpus && s.cpus[c].pid.Some? && s.cpus[c].pid.value in s.procs
  {
    s.procs[s.cpus[c].pid.value].main
  }

  function WithCpu(s: State, c: nat, cpu: Cpu): State { s.(cpus := s.cpus[c := cpu]) }

  /** `exit_current_thread`. */
  function ExitThread(s: State, c: nat, t: nat, p: nat): State {
    var procs := if p in s.procs then s.procs[p := s.procs[p].(threads := s.procs[p].threads - {t})] else s.procs;
    s.(threads := Removed(s.threads, {t}, t), procs := procs, cpus := s.cpus[c := Cpu(Idle, None, None)])
  }

  /** The second section of `exit_current`: address space, process record, threads. */
  function TearDown(s: State, c: nat, t: nat, p: nat): State {
    var gone := {t} + if p in s.procs then s.procs[p].threads else {};
    s.(threads := Removed(s.threads, gone, t), procs := s.procs - {p}, cpus := s.cpus[c := Cpu(Idle, None, None)],
       torn := s.torn + [p],
       freed := if p in s.procs && s.procs[p].main in s.threads then s.freed + {p} else s.freed)
  }

  function Next(s: State, step: Step): Option<State> {
    match step
    case Create(a) =>
      Some(s.(threads := s.threads[s.nextTid := Thread(s.nextPid, Sleeping, NoWait, a)],
              procs := s.procs[s.nextPid := Proc(s.nextTid, {s.nextTid}, false)],
              nextTid := s.nextTid + 1, nextPid := s.nextPid + 1))
    case SetReady(t) => Some(s.(threads := SetStatus(s.threads, t, Ready)))
    case Kill(p) =>
      if p !in s.procs then None
      else
        Some(s.(procs := s.procs[p := s.procs[p].(killPending := true)],
                threads := SetStatus(s.threads, s.procs[p].main, Ready)))
    case Wake(t) =>
      if t in s.threads && s.threads[t].st.Sleeping?
      then Some(s.(threads := s.threads[t := s.threads[t].(st := Ready, wait := NoWait)]))
      else None
    case Pick(c, t) =>
      if c in s.cpus && s.cpus[c].pc.Idle? && t in s.threads && s.threads[t].st.Ready? && s.threads[t].cpu == c
      then Some(WithCpu(s, c, s.cpus[c].(pc := Picked(t)))) else None
    case Drop(c) => if c in s.cpus && s.cpus[c].pc.Idle? then Some(WithCpu(s, c, Cpu(Idle, None, None))) else None
    case Enter(c) =>
      if c in s.cpus && s.cpus[c].pc.Picked? then
        var t := s.cpus[c].pc.tid;
        Some(WithCpu(s, c, Cpu(Launching, Some(t), if t in s.threads then Some(s.threads[t].pid) else None)))
      else None
    case Launch(c) =>
      if At(s, c, Launching)
      then Some(WithCpu(s, c, s.cpus[c].(pc := User)).(threads := SetStatus(s.threads, s.cpus[c].tid.value, Running)))
      else None
    case Preempt(c) =>
      if At(s, c, User)
      then Some(WithCpu(s, c, s.cpus[c].(pc := Idle)).(threads := SetStatus(s.threads, s.cpus[c].tid.value, Ready)))
      else None
    case Block(c) =>
      if At(s, c, User)
      then
        var threads := PutToSleep(s.threads, s.cpus[c].tid.value, OnOther);
        Some(WithCpu(s, c, s.cpus[c].(pc := Blocking)).(threads := threads))
      else None
    case BlockMain(c) =>
      if At(s, c, User) && s.cpus[c].pid.value in s.procs
      then Some(WithCpu(s, c, s.cpus[c].(pc := Blocking)).(threads := PutToSleep(s.threads, MainOf(s, c), OnOther)))
      else None
    case Aim(c) =>
      if At(s, c, User) && s.cpus[c].pid.value in s.procs
      then Some(WithCpu(s, c, s.cpus[c].(pc := Aiming)).(threads := SetWait(s.threads, MainOf(s, c), OnOther)))
      else None
    case Doze(c) =>
      if At(s, c, Aiming) && s.cpus[c].pid.value in s.procs
      then Some(WithCpu(s, c, s.cpus[c].(pc := Blocking)).(threads := SetStatus(s.threads, MainOf(s, c), Sleeping)))
      else None
    case Spawn(c, a) =>
      if At(s, c, User) && s.cpus[c].pid.value in s.procs then
        var p := s.cpus[c].pid.value;
        Some(s.(threads := s.threads[s.nextTid := Thread(p, Ready, NoWait, a)],
                procs := s.procs[p := s.procs[p].(threads := s.procs[p].threads + {s.nextTid})],
                nextTid := s.nextTid + 1))
      else None
    case Join(c, x) =>
      if !At(s, c, User) then None
      else if x !in s.threads then Some(s)
      else
        var t := s.cpus[c].tid.value;
        Some(WithCpu(s, c, s.cpus[c].(pc := Blocking))
             .(threads := PutToSleep(s.threads, t, OnTid(x))))
    case Commit(c) => if At(s, c, Blocking) then Some(WithCpu(s, c, Cpu(Idle, None, None))) else None
    case CheckExit(c) =>
      if At(s, c, User) && |Live(s, s.cpus[c].pid.value)| > 1
      then Some(WithCpu(s, c, s.cpus[c].(pc := Leaving)))
      else None
    case ThreadExit(c) =>
      if At(s, c, Leaving) then
        Some(ExitThread(s, c, s.cpus[c].tid.value, s.cpus[c].pid.value))
      else None
    case ExitCheck(c) =>
      if !At(s, c, User) then None
      else
        var t, p := s.cpus[c].tid.value, s.cpus[c].pid.value;
        if |Live(s, p)| > 1 then
          var s' := ExitThread(s, c, t, p);
          Some(s'.(procs := if p in s'.procs then s'.procs[p := s'.procs[p].(killPending := true)] else s'.procs))
        else Some(WithCpu(s, c, s.cpus[c].(pc := Tearing)))
    case Teardown(c) =>
      if At(s, c, Tearing) then Some(TearDown(s, c, s.cpus[c].tid.value, s.cpus[c].pid.value)) else None
  }

  ghost predicate Initial(s: State) {
    && s.threads == map[] && s.procs == map[] && s.torn == [] && s.freed == {}
    && forall c :: c in s.cpus ==> s.cpus[c] == Cpu(Idle, None, None)
  }

  // ---- the invariant ----

  ghost predicate ThreadOk(s: State, t: nat)
    requires t in s.threads
  {
    var x := s.threads[t];
    t < s.nextTid && x.pid in s.procs && t in s.procs[x.pid].threads
  }

  ghost predicate ProcOk(s: State, p: nat)
    requires p in s.procs
  {
    && p < s.nextPid && p !in s.torn && s.procs[p].main < s.nextTid
    && (forall t :: t in s.procs[p].threads ==> t in s.threads && s.threads[t].pid == p)
    && (s.procs[p].main in s.threads ==> s.threads[s.procs[p].main].pid == p)
  }

  /** The current thread of a CPU is a live thread pinned to it. */
  ghost predicate CpuOk(s: State, c: nat)
    requires c in s.cpus
  {
    var x := s.cpus[c];
    && (x.tid.Some? ==>
         && x.tid.value in s.threads && s.threads[x.tid.value].cpu == c
         && x.pid == Some(s.threads[x.tid.value].pid))
    && (x.tid.None? ==> x.pid.None?)
    && (x.pc.Picked? ==> x.pc.tid in s.threads && s.threads[x.pc.tid].cpu == c)
    && (x.pc.Tearing? ==>
         && x.pid.Some? && x.pid.value in s.procs && x.tid.Some?
         && s.procs[x.pid.value].threads == {x.tid.value})
  }

  ghost predicate HistoryOk(s: State) {
    && (forall i :: 0 <= i < |s.torn| ==> s.torn[i] < s.nextPid)
    && (forall i, j :: 0 <= i < j < |s.torn| ==> s.torn[i] != s.torn[j])
    && (forall p :: p in s.freed ==> p in s.torn)
  }

  ghost predicate Inv(s: State) {
    && (forall t :: t in s.threads ==> ThreadOk(s, t))
    && (forall p :: p in s.procs ==> ProcOk(s, p))
    && (forall c :: c in s.cpus ==> CpuOk(s, c))
    && HistoryOk(s)
  }

  lemma InitialInv(s: State)
    requires Initial(s)
    ensures Inv(s)
  {
  }

  // ---- every step keeps the invariant ----

  /** Same threads on the same CPUs in the same processes. */
  ghost predicate Relabelled(a: map<nat, Thread>, b: map<nat, Thread>) {
    && a.Keys == b.Keys
    && (forall t :: t in a ==> a[t].pid == b[t].pid && a[t].cpu == b[t].cpu)
  }

  /** The kill flag does not matter to anything else. */
  ghost predicate SameProcs(a: map<nat, Proc>, b: map<nat, Proc>) {
    a.Keys == b.Keys && forall p :: p in a ==> a[p].main == b[p].main && a[p].threads == b[p].threads
  }

  /** Steps that change states of threads, flags of processes, or one CPU. */
  lemma RelabelKeepsInv(s: State, s': State)
    requires Inv(s) && Relabelled(s.threads, s'.threads) && SameProcs(s.procs, s'.procs)
    requires s'.nextTid == s.nextTid && s'.nextPid == s.nextPid && s'.torn == s.torn && s'.freed == s.freed
    requires forall c :: c in s'.cpus ==> CpuOk(s', c)
    ensures Inv(s')
  {
    assert forall t :: t in s.threads <==> t in s'.threads;
    forall t | t in s'.threads ensures ThreadOk(s', t) {
      assert ThreadOk(s, t);
    }
    forall p | p in s'.procs ensures ProcOk(s', p) {
      assert p in s.procs && ProcOk(s, p);
    }
  }

  lemma CpusStayOk(s: State, s': State)
    requires forall c :: c in s.cpus ==> CpuOk(s, c)
    requires Relabelled(s.threads, s'.threads) && SameProcs(s.procs, s'.procs) && s'.cpus == s.cpus
    ensures forall c :: c in s'.cpus ==> CpuOk(s', c)
  {
    assert forall t :: t in s.threads <==> t in s'.threads;
    forall c | c in s'.cpus ensures CpuOk(s', c) {
      assert CpuOk(s, c);
    }
  }

  /** Changes of state and of the kill flag. */
  lemma StatusStep(s: State, step: Step)
    requires Inv(s) && (step.SetReady? || step.Kill? || step.Wake?) && Next(s, step).Some?
    ensures Inv(Next(s, step).value)
  {
    hide ThreadOk, ProcOk, CpuOk, HistoryOk;
    var s' := Next(s, step).value;
    assert Relabelled(s.threads, s'.threads);
    CpusStayOk(s, s');
    RelabelKeepsInv(s, s');
  }

  /** Steps of one CPU that neither make nor end a thread. */
  predicate OfOneCpu(step: Step) {
    || step.Pick? || step.Drop? || step.Enter? || step.Launch? || step.Preempt?
    || step.Block? || step.BlockMain? || step.Aim? || step.Doze? || step.Join? || step.Commit? || step.CheckExit?
  }

  lemma CpuStep(s: State, step: Step)
    requires Inv(s) && Next(s, step).Some?
    requires OfOneCpu(step)
    ensures Inv(Next(s, step).value)
  {
    hide ThreadOk, ProcOk, HistoryOk, CpuOk;
    var s' := Next(s, step).value;
    assert Relabelled(s.threads, s'.threads);
    var c := step.c;
    OwnCpuOk(s, step);
    forall d | d in s'.cpus ensures CpuOk(s', d) {
      if d != c {
        OtherCpuOk(s, s', d);
      }
    }
    RelabelKeepsInv(s, s');
  }

  lemma OtherCpuOk(s: State, s': State, d: nat)
    requires d in s.cpus && d in s'.cpus && s'.cpus[d] == s.cpus[d] && CpuOk(s, d)
    requires Relabelled(s.threads, s'.threads) && SameProcs(s.procs, s'.procs)
    ensures CpuOk(s', d)
  {
    assert forall t :: t in s.threads <==> t in s'.threads;
  }

  lemma OwnCpuOk(s: State, step: Step)
    requires Inv(s) && Next(s, step).Some?
    requires OfOneCpu(step)
    ensures CpuOk(Next(s, step).value, step.c)
  {
    hide ThreadOk, ProcOk, HistoryOk;
    assert CpuOk(s, step.c);
  }

  lemma CreateStep(s: State, step: Step)
    requires Inv(s) && step.Create? && Next(s, step).Some?
    ensures Inv(Next(s, step).value)
  {
    var s' := Next(s, step).value;
    forall t | t in s'.threads ensures ThreadOk(s', t) {
      assert t != s.nextTid ==> ThreadOk(s, t);
    }
    forall p | p in s'.procs ensures ProcOk(s', p) {
      assert p in s.procs ==> ProcOk(s, p);
    }
    forall c | c in s'.cpus ensures CpuOk(s', c) {
      assert CpuOk(s, c);
    }
  }

  lemma SpawnCpuOk(s: State, step: Step, d: nat)
    requires Inv(s) && step.Spawn? && Next(s, step).Some? && d in s.cpus
    ensures CpuOk(Next(s, step).value, d)
  {
    CurrentThread(s, step.c, d);
    assert CpuOk(s, d);
  }

  lemma SpawnProcOk(s: State, step: Step, p: nat)
    requires Inv(s) && step.Spawn? && Next(s, step).Some? && p in s.procs
    ensures ProcOk(Next(s, step).value, p)
  {
    hide HistoryOk, CpuOk;
    CurrentThread(s, step.c, step.c);
    assert ProcOk(s, p);
    forall t | t in s.procs[p].threads ensures t < s.nextTid {
      assert ThreadOk(s, t);
    }
    var s' := Next(s, step).value;
    assert s.nextTid in s'.procs[s.cpus[step.c].pid.value].threads;
  }

  lemma SpawnStep(s: State, step: Step)
    requires Inv(s) && step.Spawn? && Next(s, step).Some?
    ensures Inv(Next(s, step).value)
  {
    hide HistoryOk, ProcOk, CpuOk;
    var s' := Next(s, step).value;
    forall t | t in s'.threads ensures ThreadOk(s', t) {
      assert t != s.nextTid ==> ThreadOk(s, t);
    }
    forall p | p in s'.procs ensures ProcOk(s', p) {
      SpawnProcOk(s, step, p);
    }
    forall c | c in s'.cpus ensures CpuOk(s', c) {
      SpawnCpuOk(s, step, c);
    }
    SameHistory(s, s');
  }

  lemma SameHistory(s: State, s': State)
    requires HistoryOk(s) && s'.torn == s.torn && s'.freed == s.freed
    requires s.nextPid <= s'.nextPid && s.procs.Keys <= s'.procs.Keys
    ensures HistoryOk(s')
  {
    assert forall p :: p in s.procs ==> p in s'.procs.Keys;
  }

  /** The threads that `live_thread_count` counts are all that the process has. */
  lemma AllAreLive(s: State, p: nat)
    requires Inv(s) && p in s.procs
    ensures Live(s, p) == s.procs[p].threads
  {
    assert ProcOk(s, p);
  }

  /** A current thread, its process, and that no other CPU has the thread. */
  lemma CurrentThread(s: State, c: nat, d: nat)
    requires Inv(s) && c in s.cpus && s.cpus[c].tid.Some?
    ensures var t := s.cpus[c].tid.value;
      && t in s.threads && s.cpus[c].pid == Some(s.threads[t].pid) && s.threads[t].pid in s.procs
      && t in s.procs[s.threads[t].pid].threads && s.threads[t].cpu == c
      && (d in s.cpus && d != c ==> s.cpus[d].tid != Some(t) && s.cpus[d].pc != Picked(t))
  {
    assert CpuOk(s, c) && ThreadOk(s, s.cpus[c].tid.value);
    if d in s.cpus {
      assert CpuOk(s, d);
    }
  }

  ghost predicate MayLeave(s: State, c: nat) {
    Inv(s) && c in s.cpus && s.cpus[c].tid.Some? && s.cpus[c].pid.Some? && !s.cpus[c].pc.Tearing?
  }

  /** The state after `exit_current_thread` by the current thread of `c`. */
  ghost function Left(s: State, c: nat): State
    requires MayLeave(s, c)
  {
    ExitThread(s, c, s.cpus[c].tid.value, s.cpus[c].pid.value)
  }

  lemma LeftThreadOk(s: State, c: nat, x: nat)
    requires MayLeave(s, c) && x in Left(s, c).threads
    ensures ThreadOk(Left(s, c), x)
  {
    hide ProcOk, HistoryOk, CpuOk;
    CurrentThread(s, c, c);
    assert ThreadOk(s, x);
  }

  lemma LeftProcOk(s: State, c: nat, q: nat)
    requires MayLeave(s, c) && q in Left(s, c).procs
    ensures ProcOk(Left(s, c), q)
  {
    hide ThreadOk, CpuOk;
    CurrentThread(s, c, c);
    assert ProcOk(s, q);
  }

  lemma LeftCpuOk(s: State, c: nat, d: nat)
    requires MayLeave(s, c) && d in s.cpus
    ensures CpuOk(Left(s, c), d)
  {
    hide ThreadOk, ProcOk, HistoryOk;
    CurrentThread(s, c, d);
    assert CpuOk(s, d);
  }

  lemma LeftKeepsInv(s: State, c: nat)
    requires MayLeave(s, c)
    ensures Inv(Left(s, c))
  {
    hide ThreadOk, ProcOk, CpuOk;
    CurrentThread(s, c, c);
    var s' := Left(s, c);
    forall x | x in s'.threads ensures ThreadOk(s', x) {
      LeftThreadOk(s, c, x);
    }
    forall q | q in s'.procs ensures ProcOk(s', q) {
      LeftProcOk(s, c, q);
    }
    forall d | d in s'.cpus ensures CpuOk(s', d) {
      LeftCpuOk(s, c, d);
    }
  }

  lemma ThreadExitStep(s: State, step: Step)
    requires Inv(s) && step.ThreadExit? && Next(s, step).Some?
    ensures Inv(Next(s, step).value)
  {
    hide ThreadOk, ProcOk, CpuOk, HistoryOk;
    CurrentThread(s, step.c, step.c);
    AllAreLive(s, s.cpus[step.c].pid.value);
    LeftKeepsInv(s, step.c);
    assert Next(s, step).value == Left(s, step.c);
  }

  lemma ExitCheckStep(s: State, step: Step)
    requires Inv(s) && step.ExitCheck? && Next(s, step).Some?
    ensures Inv(Next(s, step).value)
  {
    hide ThreadOk, ProcOk, HistoryOk;
    var c := step.c;
    var t, p := s.cpus[c].tid.value, s.cpus[c].pid.value;
    var s' := Next(s, step).value;
    CurrentThread(s, c, c);
    AllAreLive(s, p);
    if |Live(s, p)| > 1 {
      LeftKeepsInv(s, c);
      CpusStayOk(Left(s, c), s');
      RelabelKeepsInv(Left(s, c), s');
    } else {
      OnlyOne(s.procs[p].threads, t);
      forall d | d in s'.cpus ensures CpuOk(s', d) {
        assert CpuOk(s, d);
      }
      RelabelKeepsInv(s, s');
    }
  }

  lemma OnlyOne(a: set<nat>, t: nat)
    requires t in a && |a| <= 1
    ensures a == {t}
  {
    assert |a - {t}| == 0;
  }

  // ---- teardown ----

  /** When a CPU is about to tear a process down, its thread is the last one, the
      process is still there and was never torn down, and no other CPU is in it. */
  lemma TeardownIsSafe(s: State, c: nat, d: nat)
    requires Inv(s) && At(s, c, Tearing) && d in s.cpus
    ensures var t, p := s.cpus[c].tid.value, s.cpus[c].pid.value;
      && p in s.procs && s.procs[p].threads == {t} && p !in s.torn
      && (d != c ==> s.cpus[d].pid != Some(p))
      && (s.procs[p].main in s.threads <==> s.procs[p].main == t)
  {
    var t, p := s.cpus[c].tid.value, s.cpus[c].pid.value;
    assert CpuOk(s, c) && CpuOk(s, d) && ProcOk(s, p);
    CurrentThread(s, c, d);
    if s.cpus[d].tid.Some? {
      CurrentThread(s, d, c);
    }
    if s.procs[p].main in s.threads {
      assert ThreadOk(s, s.procs[p].main);
    }
  }

  lemma TornProcOk(s: State, c: nat, q: nat)
    requires Inv(s) && At(s, c, Tearing) && q in s.procs && Some(q) != s.cpus[c].pid
    ensures ProcOk(TearDown(s, c, s.cpus[c].tid.value, s.cpus[c].pid.value), q)
  {
    hide CpuOk, HistoryOk;
    TeardownIsSafe(s, c, c);
    assert ProcOk(s, q);
  }

  lemma TornThreadOk(s: State, c: nat, x: nat)
    requires Inv(s) && At(s, c, Tearing) && x in s.threads && Some(x) != s.cpus[c].tid
    ensures var s' := TearDown(s, c, s.cpus[c].tid.value, s.cpus[c].pid.value); x in s'.threads && ThreadOk(s', x)
  {
    hide ProcOk, CpuOk, HistoryOk;
    TeardownIsSafe(s, c, c);
    assert ThreadOk(s, x);
  }

  lemma TornCpuOk(s: State, c: nat, d: nat)
    requires Inv(s) && At(s, c, Tearing) && d in s.cpus
    ensures CpuOk(TearDown(s, c, s.cpus[c].tid.value, s.cpus[c].pid.value), d)
  {
    hide ThreadOk, ProcOk, HistoryOk;
    TeardownIsSafe(s, c, d);
    CurrentThread(s, c, d);
    assert CpuOk(s, d);
  }

  lemma TeardownStep(s: State, step: Step)
    requires Inv(s) && step.Teardown? && Next(s, step).Some?
    ensures Inv(Next(s, step).value)
  {
    hide ThreadOk, ProcOk, CpuOk;
    var s' := Next(s, step).value;
    var p := s.cpus[step.c].pid.value;
    TeardownIsSafe(s, step.c, step.c);
    assert p < s.nextPid by { ProcBelow(s, p); }
    forall x | x in s'.threads ensures ThreadOk(s', x) {
      TornThreadOk(s, step.c, x);
    }
    forall q | q in s'.procs ensures ProcOk(s', q) {
      TornProcOk(s, step.c, q);
    }
    forall d | d in s'.cpus ensures CpuOk(s', d) {
      TornCpuOk(s, step.c, d);
    }
  }

  lemma ProcBelow(s: State, p: nat)
    requires p in s.procs && ProcOk(s, p)
    ensures p < s.nextPid
  {
  }

  lemma StepKeepsInv(s: State, step: Step)
    requires Inv(s) && Next(s, step).Some?
    ensures Inv(Next(s, step).value)
  {
    hide Inv, Next;
    match step
    case Create(_) => CreateStep(s, step);
    case SetReady(_) => StatusStep(s, step);
    case Kill(_) => StatusStep(s, step);
    case Wake(_) => StatusStep(s, step);
    case Spawn(_, _) => SpawnStep(s, step);
    case ThreadExit(_) => ThreadExitStep(s, step);
    case ExitCheck(_) => ExitCheckStep(s, step);
    case Teardown(_) => TeardownStep(s, step);
    case Pick(_, _) => CpuStep(s, step);
    case Enter(_) => CpuStep(s, step);
    case Preempt(_) => CpuStep(s, step);
    case Join(_, _) => CpuStep(s, step);
    case Commit(_) => CpuStep(s, step);
    case CheckExit(_) => CpuStep(s, step);
    case Launch(_) => CpuStep(s, step);
    case Drop(_) => CpuStep(s, step);
    case Block(_) => CpuStep(s, step);
    case BlockMain(_) => CpuStep(s, step);
    case Aim(_) => CpuStep(s, step);
    case Doze(_) => CpuStep(s, step);
  }

  // ---- whole runs ----

  function After(s: State, run: seq<Step>): Option<State> {
    if run == [] then Some(s) else
      var r := After(s, run[..|run| - 1]);
      if r.None? then None else Next(r.value, run[|run| - 1])
  }

  lemma {:induction false} ReachableInv(s: State, run: seq<Step>)
    requires Initial(s) && After(s, run).Some?
    ensures Inv(After(s, run).value)
  {
    if run == [] {
      InitialInv(s);
    } else {
      ReachableInv(s, run[..|run| - 1]);
      StepKeepsInv(After(s, run[..|run| - 1]).value, run[|run| - 1]);
    }
  }

  lemma {:induction false} Prefix(s: State, run: seq<Step>, i: nat)
    requires After(s, run).Some? && i <= |run|
    ensures After(s, run[..i]).Some?
    ensures i < |run| ==> After(s, run[..i + 1]) == Next(After(s, run[..i]).value, run[i])
  {
    if i < |run| {
      assert run[..i + 1][..i] == run[..i];
      if i + 1 < |run| {
        Prefix(s, run[..|run| - 1], i);
        assert run[..|run| - 1][..i] == run[..i] && run[..|run| - 1][..i + 1] == run[..i + 1];
      } else {
        assert run[..i + 1] == run;
      }
    } else {
      assert run[..i] == run;
    }
  }

  // ---- sleeping on a thread ----

  ghost predicate Restful(threads: map<nat, Thread>, t: nat)
    requires t in threads
  {
    threads[t].st.Sleeping? && threads[t].wait.OnTid? ==> threads[t].wait.tid in threads
  }

  /** No thread sleeps on a thread that is gone. */
  ghost predicate SleepOk(threads: map<nat, Thread>) { forall t :: t in threads ==> Restful(threads, t) }

  /** The main thread still has the wait target of a join that a kill ended, and the
      thread it joined is gone. */
  ghost predicate StaleTarget(s: State, c: nat) {
    && At(s, c, Aiming) && s.cpus[c].pid.value in s.procs && MainOf(s, c) in s.threads
    && s.threads[MainOf(s, c)].wait.OnTid? && s.threads[MainOf(s, c)].wait.tid !in s.threads
  }

  lemma RemovedSleepOk(threads: map<nat, Thread>, t: nat)
    requires SleepOk(threads)
    ensures SleepOk(Removed(threads, {t}, t))
  {
    forall x | x in Removed(threads, {t}, t) ensures Restful(Removed(threads, {t}, t), x) {
      assert Restful(threads, x);
    }
  }

  lemma RelabelledSleepOk(a: map<nat, Thread>, b: map<nat, Thread>)
    requires SleepOk(a) && a.Keys <= b.Keys
    requires forall t :: t in b && b[t].st.Sleeping? && b[t].wait.OnTid? ==>
      (t in a && a[t].st.Sleeping? && a[t].wait == b[t].wait) || b[t].wait.tid in a
    ensures SleepOk(b)
  {
    forall t | t in b ensures Restful(b, t) {
      assert t in a ==> Restful(a, t);
      assert forall x :: x in a.Keys ==> x in b.Keys;
    }
  }

  /** The one section that can make a thread sleep on one that is gone is the second of
      a console read, and it does exactly on a stale target. */
  lemma SleepBreaksIff(s: State, step: Step)
    requires Inv(s) && SleepOk(s.threads) && Next(s, step).Some?
    ensures SleepOk(Next(s, step).value.threads) <==> !(step.Doze? && StaleTarget(s, step.c))
  {
    hide ThreadOk, ProcOk, CpuOk, HistoryOk, SleepOk, Restful, Removed;
    var s' := Next(s, step).value;
    if step.Doze? && StaleTarget(s, step.c) {
      var m := MainOf(s, step.c);
      assert !SleepOk(s'.threads) by { Stranded(s'.threads, m); }
    } else if step.Teardown? {
      TeardownIsSafe(s, step.c, step.c);
      var t := s.cpus[step.c].tid.value;
      assert {t} + {t} == {t};
      RemovedSleepOk(s.threads, t);
    } else if step.ThreadExit? || (step.ExitCheck? && |Live(s, s.cpus[step.c].pid.value)| > 1) {
      RemovedSleepOk(s.threads, s.cpus[step.c].tid.value);
    } else {
      RelabelledSleepOk(s.threads, s'.threads);
    }
  }

  lemma Stranded(threads: map<nat, Thread>, t: nat)
    requires t in threads && threads[t].st.Sleeping? && threads[t].wait.OnTid? && threads[t].wait.tid !in threads
    ensures !SleepOk(threads)
  {
    assert !Restful(threads, t);
  }

  ghost predicate DozesStale(s0: State, run: seq<Step>, i: nat)
    requires i < |run|
  {
    After(s0, run[..i]).Some? && run[i].Doze? && StaleTarget(After(s0, run[..i]).value, run[i].c)
  }

  ghost predicate SleptWell(s0: State, run: seq<Step>, i: nat)
    requires i <= |run|
  {
    After(s0, run[..i]).Some? && SleepOk(After(s0, run[..i]).value.threads)
  }

  /** A run never has a thread asleep on one that is gone exactly when no console read
      goes to sleep on a stale target. */
  lemma {:induction false} SleepersIff(s0: State, run: seq<Step>)
    requires Initial(s0) && After(s0, run).Some?
    ensures (forall i: nat :: i <= |run| ==> SleptWell(s0, run, i)) <==>
      (forall i: nat :: i < |run| ==> !DozesStale(s0, run, i))
  {
    hide Inv, SleepOk, StaleTarget, Next;
    if run == [] {
      NobodySleeps(s0);
      forall i: nat | i <= |run| ensures SleptWell(s0, run, i) {
        assert run[..i] == run;
      }
    } else {
      var n := |run| - 1;
      var front := run[..n];
      SleepersIff(s0, front);
      forall i: nat | i <= n
        ensures SleptWell(s0, run, i) == SleptWell(s0, front, i)
          && (i < n ==> DozesStale(s0, run, i) == DozesStale(s0, front, i))
      {
        assert front[..i] == run[..i];
      }
      assert run[..|run|] == run && front[..n] == front;
      ReachableInv(s0, front);
      var s := After(s0, front).value;
      assert SleptWell(s0, run, n) == SleepOk(s.threads);
      assert SleptWell(s0, run, n + 1) == SleepOk(After(s0, run).value.threads);
      assert DozesStale(s0, run, n) == (run[n].Doze? && StaleTarget(s, run[n].c));
      if SleepOk(s.threads) {
        SleepBreaksIff(s, run[n]);
      }
    }
  }

  lemma NobodySleeps(s: State)
    requires Initial(s)
    ensures SleepOk(s.threads)
  {
  }

  // ---- a thread comes back to its CPU ----

  /** The steps of a CPU that takes up thread `t`. */
  function TakeUp(c: nat, t: nat): seq<Step> { [Pick(c, t), Enter(c), Launch(c)] }

  lemma AfterThree(s: State, a: Step, b: Step, d: Step)
    requires Next(s, a).Some? && Next(Next(s, a).value, b).Some?
    ensures After(s, [a, b, d]) == Next(Next(Next(s, a).value, b).value, d)
  {
    hide Next;
    assert [a, b, d][..2] == [a, b] && [a, b][..1] == [a] && [a][..0] == [];
    assert After(s, [a]) == Next(s, a);
    assert After(s, [a, b]) == Next(Next(s, a).value, b);
  }

  lemma PickAndEnter(s: State, c: nat, t: nat)
    requires c in s.cpus && s.cpus[c].pc.Idle? && t in s.threads && s.threads[t].st.Ready? && s.threads[t].cpu == c
    ensures Next(s, Pick(c, t)) == Some(s.(cpus := s.cpus[c := s.cpus[c].(pc := Picked(t))]))
    ensures Next(Next(s, Pick(c, t)).value, Enter(c)) ==
      Some(s.(cpus := s.cpus[c := Cpu(Launching, Some(t), Some(s.threads[t].pid))]))
  {
    var s1 := Next(s, Pick(c, t)).value;
    var cpu := Cpu(Launching, Some(t), Some(s.threads[t].pid));
    assert s1.cpus[c := cpu] == s.cpus[c := cpu];
  }

  lemma LaunchIs(s: State, c: nat)
    requires At(s, c, Launching) && s.cpus[c].tid.value in s.threads
    ensures var t := s.cpus[c].tid.value;
      Next(s, Launch(c)) == Some(s.(
        threads := s.threads[t := s.threads[t].(st := Running)], cpus := s.cpus[c := s.cpus[c].(pc := User)]))
  {
  }

  /** An idle CPU that takes up a ready thread of its own runs it, and nothing else changes. */
  lemma TakenUp(s: State, c: nat, t: nat)
    requires c in s.cpus && s.cpus[c].pc.Idle? && t in s.threads && s.threads[t].st.Ready? && s.threads[t].cpu == c
    ensures After(s, TakeUp(c, t)) == Some(s.(
      threads := s.threads[t := Thread(s.threads[t].pid, Running, s.threads[t].wait, c)],
      cpus := s.cpus[c := Cpu(User, Some(t), Some(s.threads[t].pid))]))
  {
    hide After, Next;
    var cpu := Cpu(Launching, Some(t), Some(s.threads[t].pid));
    PickAndEnter(s, c, t);
    LaunchIs(s.(cpus := s.cpus[c := cpu]), c);
    AfterThree(s, Pick(c, t), Enter(c), Launch(c));
    assert s.cpus[c := cpu][c := cpu.(pc := User)] == s.cpus[c := cpu.(pc := User)];
  }

  /** A preempted thread that is taken up again: all is as before. */
  lemma PreemptedRunsAgain(s: State, c: nat)
    requires Inv(s) && At(s, c, User) && s.cpus[c].tid.value in s.threads
    requires s.threads[s.cpus[c].tid.value].st.Running?
    ensures Next(s, Preempt(c)).Some?
    ensures After(Next(s, Preempt(c)).value, TakeUp(c, s.cpus[c].tid.value)) == Some(s)
  {
    hide After, Inv, HistoryOk, ThreadOk, ProcOk;
    var t := s.cpus[c].tid.value;
    OwnThread(s, c);
    var s1 := Next(s, Preempt(c)).value;
    TakenUp(s1, c, t);
    assert s1.threads[t := s.threads[t]] == s.threads && s1.cpus[c := s.cpus[c]] == s.cpus;
  }

  lemma OwnThread(s: State, c: nat)
    requires Inv(s) && c in s.cpus && s.cpus[c].tid.Some?
    ensures var t := s.cpus[c].tid.value;
      t in s.threads && s.threads[t].cpu == c && s.cpus[c].pid == Some(s.threads[t].pid)
  {
    assert CpuOk(s, c);
  }

  lemma BlockCommitWake(s: State, c: nat)
    requires At(s, c, User) && s.cpus[c].tid.value in s.threads
    ensures var t := s.cpus[c].tid.value;
      After(s, [Block(c), Commit(c), Wake(t)]) == Some(s.(
        threads := s.threads[t := s.threads[t].(st := Ready, wait := NoWait)],
        cpus := s.cpus[c := Cpu(Idle, None, None)]))
  {
    hide After;
    var t := s.cpus[c].tid.value;
    var s1 := Next(s, Block(c)).value;
    var s2 := Next(s1, Commit(c)).value;
    AfterThree(s, Block(c), Commit(c), Wake(t));
    var s3 := Next(s2, Wake(t)).value;
    assert s3.threads == s.threads[t := s.threads[t].(st := Ready, wait := NoWait)];
    assert s3.cpus == s.cpus[c := Cpu(Idle, None, None)];
  }

  /** A thread that blocks, is woken and taken up again: all is as before, but that it waits
      for nothing. */
  lemma BlockedRunsAgain(s: State, c: nat)
    requires Inv(s) && At(s, c, User) && s.cpus[c].tid.value in s.threads
    requires s.threads[s.cpus[c].tid.value].st.Running?
    ensures var t := s.cpus[c].tid.value;
      var slept := After(s, [Block(c), Commit(c), Wake(t)]);
      slept.Some? && After(slept.value, TakeUp(c, t)) ==
        Some(s.(threads := s.threads[t := s.threads[t].(wait := NoWait)]))
  {
    hide After, Inv, Next;
    var t := s.cpus[c].tid.value;
    OwnThread(s, c);
    BlockCommitWake(s, c);
    var s3 := After(s, [Block(c), Commit(c), Wake(t)]).value;
    TakenUp(s3, c, t);
    assert s3.threads[t := s.threads[t].(wait := NoWait)] == s.threads[t := s.threads[t].(wait := NoWait)];
    assert s3.cpus[c := s.cpus[c]] == s.cpus;
  }

  /** A kill marks the process and makes its main thread ready; the mark stays for as long as
      the process does. */
  lemma KillMarks(s: State, p: nat)
    requires Inv(s) && p in s.procs
    ensures Next(s, Kill(p)).Some?
    ensures var s' := Next(s, Kill(p)).value;
      && s'.procs == s.procs[p := Proc(s.procs[p].main, s.procs[p].threads, true)]
      && s'.threads.Keys == s.threads.Keys
      && forall t :: t in s.threads ==>
           s'.threads[t] == if t == s.procs[p].main then s.threads[t].(st := Ready) else s.threads[t]
  {
  }

  lemma MarkStays(s: State, step: Step, p: nat)
    requires Inv(s) && Next(s, step).Some? && p in s.procs && s.procs[p].killPending
    ensures var s' := Next(s, step).value; p in s'.procs ==> s'.procs[p].killPending
  {
    hide HistoryOk, ThreadOk, CpuOk, Removed, Live;
    assert ProcOk(s, p);
  }

  // ---- who wakes when a thread leaves ----

  /** The step takes the current thread of its CPU out of the table. */
  ghost predicate Leaves(s: State, step: Step) {
    || (step.ThreadExit? && At(s, step.c, Leaving)) || (step.Teardown? && At(s, step.c, Tearing))
    || (step.ExitCheck? && At(s, step.c, User) && |Live(s, s.cpus[step.c].pid.value)| > 1)
  }

  /** Exactly that thread goes; whoever slept on it is ready and waits for nothing, and
      every other thread is as it was.  Its CPU has no current thread any more. */
  lemma JoinersWake(s: State, step: Step)
    requires Inv(s) && Leaves(s, step)
    ensures Next(s, step).Some?
    ensures var s', t := Next(s, step).value, s.cpus[step.c].tid.value;
      && s'.threads.Keys == s.threads.Keys - {t} && s'.cpus == s.cpus[step.c := Cpu(Idle, None, None)]
      && forall x :: x in s'.threads ==>
           if s.threads[x].st.Sleeping? && s.threads[x].wait == OnTid(t)
           then s'.threads[x] == Thread(s.threads[x].pid, Ready, NoWait, s.threads[x].cpu)
           else s'.threads[x] == s.threads[x]
  {
    hide HistoryOk, ThreadOk, ProcOk;
    assert CpuOk(s, step.c);
    if step.Teardown? {
      assert {s.cpus[step.c].tid.value} + s.procs[s.cpus[step.c].pid.value].threads == {s.cpus[step.c].tid.value};
    }
  }

  /** No other step of an exit changes a thread. */
  lemma ExitChecksOnly(s: State, step: Step)
    requires Next(s, step).Some? && (step.CheckExit? || step.ExitCheck?) && !Leaves(s, step)
    ensures Next(s, step).value.threads == s.threads && Next(s, step).value.procs == s.procs
  {
  }

  /** The records of the processes: the thread leaves that of its process, which is marked
      for the others to follow if it was the process that exits, and goes with the last. */
  lemma LeftProcess(s: State, step: Step)
    requires Inv(s) && Leaves(s, step)
    ensures Next(s, step).Some?
    ensures var s', t, p := Next(s, step).value, s.cpus[step.c].tid.value, s.cpus[step.c].pid.value;
      && p in s.procs
      && if step.Teardown? then s.procs[p].threads == {t} && s'.procs == s.procs - {p}
         else
           var kill := step.ExitCheck? || s.procs[p].killPending;
           s'.procs == s.procs[p := Proc(s.procs[p].main, s.procs[p].threads - {t}, kill)]
  {
    hide HistoryOk, ProcOk, Removed;
    assert CpuOk(s, step.c) && ThreadOk(s, s.cpus[step.c].tid.value);
  }

  /** Asleep, and nothing that it waits for. */
  ghost predicate Lost(s: State, t: nat) { t in s.threads && s.threads[t].st.Sleeping? && s.threads[t].wait.NoWait? }

  /** The second section of a console read, after a wake that came in between. */
  ghost predicate Drowses(s: State, step: Step, t: nat) {
    && step.Doze? && At(s, step.c, Aiming) && s.cpus[step.c].pid.value in s.procs && t == MainOf(s, step.c)
    && t in s.threads && s.threads[t].wait.NoWait?
  }

  /** A thread that is there is lost by that section only, and by it always. */
  lemma LostStepIff(s: State, step: Step, t: nat)
    requires Inv(s) && Next(s, step).Some? && !Lost(s, t) && t < s.nextTid
    ensures Lost(Next(s, step).value, t) <==> Drowses(s, step, t)
    ensures t < Next(s, step).value.nextTid
  {
    hide HistoryOk, ProcOk, CpuOk, Live;
    if Leaves(s, step) {
      JoinersWake(s, step);
    }
  }

  ghost predicate LostAt(s0: State, run: seq<Step>, j: nat, t: nat)
    requires j <= |run|
  {
    After(s0, run[..j]).Some? && Lost(After(s0, run[..j]).value, t)
  }

  ghost predicate DrowsesAt(s0: State, run: seq<Step>, j: nat, t: nat)
    requires j < |run|
  {
    After(s0, run[..j]).Some? && Drowses(After(s0, run[..j]).value, run[j], t)
  }

  /** Step `i` puts the current thread `t` of a CPU to sleep on a thread that is there. */
  ghost predicate JoinsAt(s0: State, run: seq<Step>, i: nat, t: nat)
    requires i < |run|
  {
    && After(s0, run[..i]).Some? && run[i].Join?
    && var s := After(s0, run[..i]).value;
    At(s, run[i].c, User) && s.cpus[run[i].c].tid == Some(t) && run[i].target in s.threads
  }

  lemma JoinedIsNotLost(s: State, c: nat, x: nat)
    requires Inv(s) && At(s, c, User) && x in s.threads
    ensures Next(s, Join(c, x)).Some?
    ensures var s', t := Next(s, Join(c, x)).value, s.cpus[c].tid.value;
      t in s'.threads && s'.threads[t].st.Sleeping? && s'.threads[t].wait == OnTid(x) && t < s'.nextTid
  {
    hide HistoryOk, ProcOk;
    assert CpuOk(s, c) && ThreadOk(s, s.cpus[c].tid.value);
  }

  /** A thread that has joined never sleeps on without a target, exactly while no console
      read of another thread puts it to sleep after a wake. */
  lemma {:induction false} JoinerIsLostIff(s0: State, run: seq<Step>, i: nat, t: nat)
    requires Initial(s0) && After(s0, run).Some? && i < |run| && JoinsAt(s0, run, i, t)
    ensures (forall j: nat :: i < j <= |run| ==> !LostAt(s0, run, j, t)) <==>
      (forall j: nat :: i < j < |run| ==> !DrowsesAt(s0, run, j, t))
    ensures t < After(s0, run).value.nextTid
  {
    hide Inv, Lost, Drowses, Next, JoinsAt;
    var n := |run| - 1;
    var front := run[..n];
    ReachableInv(s0, front);
    var s := After(s0, front).value;
    assert run[..|run|] == run && front[..n] == front;
    assert LostAt(s0, run, n + 1, t) == Lost(After(s0, run).value, t);
    if i == n {
      JoinStarts(s0, run, t);
    } else {
      JoinsBefore(s0, run, i, t);
      JoinerIsLostIff(s0, front, i, t);
      forall j: nat | j <= n
        ensures LostAt(s0, run, j, t) == LostAt(s0, front, j, t)
          && (j < n ==> DrowsesAt(s0, run, j, t) == DrowsesAt(s0, front, j, t))
      {
        assert front[..j] == run[..j];
      }
      assert LostAt(s0, run, n, t) == Lost(s, t) && DrowsesAt(s0, run, n, t) == Drowses(s, run[n], t);
      TidsGrow(s, run[n]);
      if !Lost(s, t) {
        LostStepIff(s, run[n], t);
      }
    }
  }

  lemma TidsGrow(s: State, step: Step)
    requires Next(s, step).Some?
    ensures s.nextTid <= Next(s, step).value.nextTid
  {
  }

  lemma JoinStarts(s0: State, run: seq<Step>, t: nat)
    requires Initial(s0) && After(s0, run).Some? && run != [] && JoinsAt(s0, run, |run| - 1, t)
    ensures !Lost(After(s0, run).value, t) && t < After(s0, run).value.nextTid
  {
    hide Inv;
    var front := run[..|run| - 1];
    ReachableInv(s0, front);
    JoinedIsNotLost(After(s0, front).value, run[|run| - 1].c, run[|run| - 1].target);
  }

  lemma JoinsBefore(s0: State, run: seq<Step>, i: nat, t: nat)
    requires i < |run| - 1 && JoinsAt(s0, run, i, t)
    ensures JoinsAt(s0, run[..|run| - 1], i, t)
  {
    assert run[..|run| - 1][..i] == run[..i];
  }

  /** The thread that reads the console is the main thread of its process. */
  ghost predicate ByMain(s: State, c: nat) {
    At(s, c, User) && s.cpus[c].pid.value in s.procs && s.cpus[c].tid.value == MainOf(s, c)
  }

  ghost predicate AimsByMain(s0: State, run: seq<Step>, i: nat)
    requires i < |run|
  {
    run[i].Aim? ==> After(s0, run[..i]).Some? && ByMain(After(s0, run[..i]).value, run[i].c)
  }

  ghost predicate MainReadsConsole(s0: State, run: seq<Step>) { forall i: nat :: i < |run| ==> AimsByMain(s0, run, i) }

  /** A CPU that has aimed runs the main thread, whose target is not a thread. */
  ghost predicate AimOk(s: State, c: nat)
    requires c in s.cpus
  {
    At(s, c, Aiming) ==>
      && s.cpus[c].pid.value in s.procs && s.cpus[c].tid.value == MainOf(s, c)
      && MainOf(s, c) in s.threads && !s.threads[MainOf(s, c)].wait.OnTid?
  }

  /** No other CPU touches the target of an aiming thread except to clear it or to set
      it to something that is not a thread. */
  lemma AimStaysOk(s: State, step: Step, c: nat)
    requires Inv(s) && Next(s, step).Some? && c in s.cpus && AimOk(s, c) && (step.Aim? ==> ByMain(s, step.c))
    ensures c in Next(s, step).value.cpus && AimOk(Next(s, step).value, c)
  {
    hide ThreadOk, HistoryOk, ProcOk, CpuOk;
    if s.cpus[c].tid.Some? {
      CurrentThread(s, c, c);
    }
    if step.Create? || step.Spawn? {
      AimStaysOkNew(s, step, c);
    } else if step.ThreadExit? || step.ExitCheck? || step.Teardown? {
      AimStaysOkExit(s, step, c);
    } else if OfOneCpu(step) && s.cpus[step.c].tid.Some? {
      CurrentThread(s, step.c, c);
    }
  }

  lemma AimStaysOkNew(s: State, step: Step, c: nat)
    requires Inv(s) && Next(s, step).Some? && c in s.cpus && AimOk(s, c) && (step.Create? || step.Spawn?)
    ensures c in Next(s, step).value.cpus && AimOk(Next(s, step).value, c)
  {
    hide ThreadOk, HistoryOk, ProcOk, CpuOk;
    if s.nextPid in s.procs {
      ProcBelow(s, s.nextPid);
    }
    if s.nextTid in s.threads {
      ThreadBelow(s, s.nextTid);
    }
  }

  lemma AimStaysOkExit(s: State, step: Step, c: nat)
    requires Inv(s) && Next(s, step).Some? && c in s.cpus && AimOk(s, c)
      && (step.ThreadExit? || step.ExitCheck? || step.Teardown?)
    ensures c in Next(s, step).value.cpus && AimOk(Next(s, step).value, c)
  {
    hide ThreadOk, HistoryOk, ProcOk, CpuOk;
    CurrentThread(s, step.c, c);
    if step.Teardown? {
      TeardownIsSafe(s, step.c, c);
    }
  }

  lemma ThreadBelow(s: State, t: nat)
    requires Inv(s) && t in s.threads
    ensures t < s.nextTid
  {
    assert ThreadOk(s, t);
  }

  lemma {:induction false} AimsReachable(s0: State, run: seq<Step>)
    requires Initial(s0) && After(s0, run).Some? && MainReadsConsole(s0, run)
    ensures forall c :: c in After(s0, run).value.cpus ==> AimOk(After(s0, run).value, c)
  {
    hide Inv, Next;
    if run != [] {
      var n := |run| - 1;
      FrontReads(s0, run);
      AimsReachable(s0, run[..n]);
      ReachableInv(s0, run[..n]);
      var s := After(s0, run[..n]).value;
      SameCpus(s, run[n]);
      assert AimsByMain(s0, run, n);
      forall c | c in After(s0, run).value.cpus ensures AimOk(After(s0, run).value, c) {
        AimStaysOk(s, run[n], c);
      }
    }
  }

  lemma FrontReads(s0: State, run: seq<Step>)
    requires run != [] && MainReadsConsole(s0, run)
    ensures MainReadsConsole(s0, run[..|run| - 1])
  {
    hide ByMain, After;
    var front := run[..|run| - 1];
    forall i: nat | i < |front| ensures AimsByMain(s0, front, i) {
      assert AimsByMain(s0, run, i) && front[..i] == run[..i];
    }
  }

  lemma SameCpus(s: State, step: Step)
    requires Next(s, step).Some?
    ensures Next(s, step).value.cpus.Keys == s.cpus.Keys
  {
  }

  /** While only main threads read the console, nobody sleeps on a thread that is gone. */
  lemma {:induction false} MainReadersSleepWell(s0: State, run: seq<Step>)
    requires Initial(s0) && After(s0, run).Some? && MainReadsConsole(s0, run)
    ensures SleepOk(After(s0, run).value.threads)
  {
    hide Inv, Next, SleepOk;
    if run == [] {
      NobodySleeps(s0);
    } else {
      var n := |run| - 1;
      FrontReads(s0, run);
      MainReadersSleepWell(s0, run[..n]);
      AimsReachable(s0, run[..n]);
      ReachableInv(s0, run[..n]);
      var s := After(s0, run[..n]).value;
      SleepBreaksIff(s, run[n]);
      assert forall c :: StaleTarget(s, c) ==> !AimOk(s, c);
    }
  }

  /** In every reachable state: two CPUs never have the same current thread; no process
      was torn down twice; a CPU that is about to tear a process down is alone in it,
      with its last thread; and, while no console read slept on a stale target, no
      thread sleeps on a thread that is gone. */
  lemma Safety(s0: State, run: seq<Step>, c: nat, d: nat, t: nat)
    requires Initial(s0) && After(s0, run).Some?
    ensures var s := After(s0, run).value;
      && (c in s.cpus && d in s.cpus && c != d && s.cpus[c].tid.Some? ==> s.cpus[c].tid != s.cpus[d].tid)
      && (forall i, j :: 0 <= i < j < |s.torn| ==> s.torn[i] != s.torn[j])
      && (At(s, c, Tearing) && d in s.cpus ==>
            var p := s.cpus[c].pid.value;
            p in s.procs && p !in s.torn && s.procs[p].threads == {s.cpus[c].tid.value}
              && (d != c ==> s.cpus[d].pid != Some(p)))
      && ((forall i: nat :: i < |run| ==> !DozesStale(s0, run, i)) ==>
            (t in s.threads && s.threads[t].st.Sleeping? && s.threads[t].wait.OnTid? ==>
              s.threads[t].wait.tid in s.threads))
  {
    hide DozesStale, ThreadOk, ProcOk, CpuOk;
    ReachableInv(s0, run);
    SleepersIff(s0, run);
    var s := After(s0, run).value;
    if c in s.cpus && d in s.cpus && s.cpus[c].tid.Some? {
      CurrentThread(s, c, d);
    }
    assert run[..|run|] == run;
    assert SleptWell(s0, run, |run|) && t in s.threads ==> Restful(s.threads, t);
    if At(s, c, Tearing) && d in s.cpus {
      TeardownIsSafe(s, c, d);
    }
  }

  /** A thread that no CPU has as its current one, as when its CPU went on with it after
      `Drop`, stays: its address space is there, and no step of any CPU removes either. */
  lemma ForgottenThreadStays(s0: State, run: seq<Step>, step: Step, t: nat)
    requires Initial(s0) && After(s0, run).Some? && Next(After(s0, run).value, step).Some?
    requires var s := After(s0, run).value;
      t in s.threads && forall c :: c in s.cpus ==> s.cpus[c].tid != Some(t)
    ensures var s, s' := After(s0, run).value, Next(After(s0, run).value, step).value;
      && t in s'.threads && s'.threads[t].pid == s.threads[t].pid
      && s.threads[t].pid !in s.freed && s.threads[t].pid !in s'.freed && s'.threads[t].pid in s'.procs
  {
    hide After, Live;
    ReachableInv(s0, run);
    var s := After(s0, run).value;
    var s' := Next(s, step).value;
    if step.Teardown? {
      assert CpuOk(s, step.c);
    }
    StepKeepsInv(s, step);
    LiveProcessIsThere(s, t);
    LiveProcessIsThere(s', t);
  }

  lemma LiveProcessIsThere(s: State, t: nat)
    requires Inv(s) && t in s.threads
    ensures s.threads[t].pid in s.procs && s.threads[t].pid !in s.freed
  {
    assert ThreadOk(s, t) && ProcOk(s, s.threads[t].pid);
  }

  /** A teardown frees the address space exactly when the main thread is the one that
      is left: `user_cr3` goes through the main thread's record. */
  lemma AddressSpaceFreedIff(s0: State, run: seq<Step>, c: nat)
    requires Initial(s0) && After(s0, run).Some? && At(After(s0, run).value, c, Tearing)
    ensures var s := After(s0, run).value;
      var p := s.cpus[c].pid.value;
      && p in s.procs && p !in s.freed && Next(s, Teardown(c)).Some?
      && (p in Next(s, Teardown(c)).value.freed <==> s.procs[p].main == s.cpus[c].tid.value)
  {
    ReachableInv(s0, run);
    TeardownIsSafe(After(s0, run).value, c, c);
  }

  // ---- records without threads ----

  /** SYS_THREAD_EXIT takes the last thread out of process `p`. */
  ghost predicate LeavesLast(s: State, step: Step, p: nat) {
    step.ThreadExit? && At(s, step.c, Leaving) && s.cpus[step.c].pid == Some(p)
      && Live(s, p) == {s.cpus[step.c].tid.value}
  }

  ghost predicate Orphan(s: State, p: nat) { p in s.procs && s.procs[p].threads == {} }

  /** One step leaves a process record behind without threads exactly when it is that. */
  lemma OrphanStepIff(s: State, step: Step, p: nat)
    requires Inv(s) && Next(s, step).Some? && !Orphan(s, p)
    ensures Orphan(Next(s, step).value, p) <==> LeavesLast(s, step, p)
  {
    hide ThreadOk, ProcOk, CpuOk, HistoryOk;
    if step.ThreadExit? || step.ExitCheck? {
      var t, q := s.cpus[step.c].tid.value, s.cpus[step.c].pid.value;
      CurrentThread(s, step.c, step.c);
      AllAreLive(s, q);
      assert s.procs[q].threads - {t} == {} <==> s.procs[q].threads == {t};
      assert s.procs[q].threads == {t} ==> |s.procs[q].threads| == 1;
    } else if step.Spawn? {
      assert Next(s, step).value.procs[s.cpus[step.c].pid.value].threads >= {s.nextTid};
    }
  }

  /** No step tears such a record down or gives it a thread. */
  lemma OrphanStays(s: State, step: Step, p: nat)
    requires Inv(s) && Next(s, step).Some? && Orphan(s, p)
    ensures Orphan(Next(s, step).value, p)
  {
    hide ThreadOk, ProcOk, CpuOk, HistoryOk;
    if step.ThreadExit? || step.ExitCheck? || step.Teardown? || step.Spawn? {
      CurrentThread(s, step.c, step.c);
    } else if step.Create? {
      assert p < s.nextPid by { ProcBelow(s, p); }
    }
  }

  ghost predicate LeftLastAt(s0: State, run: seq<Step>, i: nat, p: nat)
    requires i < |run|
  {
    After(s0, run[..i]).Some? && LeavesLast(After(s0, run[..i]).value, run[i], p)
  }

  /** After any run, a process record is without threads exactly when its last thread
      left by SYS_THREAD_EXIT. */
  lemma {:induction false} OrphanIff(s0: State, run: seq<Step>, p: nat)
    requires Initial(s0) && After(s0, run).Some?
    ensures Orphan(After(s0, run).value, p) <==> exists i: nat :: i < |run| && LeftLastAt(s0, run, i, p)
  {
    hide Inv, Next, Orphan, LeavesLast;
    if run == [] {
      assert !Orphan(s0, p) by { NoProcess(s0, p); }
    } else {
      var n := |run| - 1;
      var front := run[..n];
      OrphanIff(s0, front, p);
      ReachableInv(s0, front);
      var s := After(s0, front).value;
      forall i: nat | i < n ensures LeftLastAt(s0, run, i, p) == LeftLastAt(s0, front, i, p) {
        assert front[..i] == run[..i];
      }
      assert LeftLastAt(s0, run, n, p) == LeavesLast(s, run[n], p);
      if Orphan(s, p) {
        OrphanStays(s, run[n], p);
        var i: nat :| i < n && LeftLastAt(s0, front, i, p);
        assert LeftLastAt(s0, run, i, p);
      } else {
        OrphanStepIff(s, run[n], p);
      }
    }
  }

  lemma NoProcess(s: State, p: nat)
    requires Initial(s)
    ensures !Orphan(s, p)
  {
  }

  /** The count that let the thread go that way was above one: it had gone stale by the
      time the last thread left. */
  lemma {:induction false} CountWasAboveOne(s0: State, run: seq<Step>, c: nat) returns (i: nat)
    requires Initial(s0) && After(s0, run).Some? && At(After(s0, run).value, c, Leaving)
    ensures i < |run| && run[i] == CheckExit(c) && After(s0, run[..i]).Some?
    ensures var past, now := After(s0, run[..i]).value, After(s0, run).value;
      At(past, c, User) && past.cpus[c].tid == now.cpus[c].tid && past.cpus[c].pid == now.cpus[c].pid
        && |Live(past, now.cpus[c].pid.value)| > 1
  {
    hide Inv;
    if run != [] {
      var n := |run| - 1;
      if run[n] == CheckExit(c) {
        i := n;
      } else {
        i := CountWasAboveOne(s0, run[..n], c);
        assert run[..n][..i] == run[..i];
      }
    }
  }

  lemma Extend(s: State, run: seq<Step>, step: Step)
    requires After(s, run).Some?
    ensures After(s, run + [step]) == Next(After(s, run).value, step)
  {
    assert (run + [step])[..|run|] == run;
  }

  lemma StartOf(s: State)
    ensures After(s, []) == Some(s)
  {
  }

  /** A process whose main thread runs on CPU 0. */
  lemma OneThread() returns (s0: State, run: seq<Step>)
    ensures Initial(s0) && After(s0, run).Some?
    ensures After(s0, run).value == State(map[1 := Thread(1, Running, NoWait, 0)], map[1 := Proc(1, {1}, false)],
      map[0 := Cpu(User, Some(1), Some(1)), 1 := Cpu(Idle, None, None), 2 := Cpu(Idle, None, None)], 2, 2, [], {})
  {
    hide After;
    var idle := Cpu(Idle, None, None);
    s0 := State(map[], map[], map[0 := idle, 1 := idle, 2 := idle], 1, 1, [], {});
    StartOf(s0);
    Extend(s0, [], Create(0));
    run := [] + [Create(0)];
    Extend(s0, run, SetReady(1));
    run := run + [SetReady(1)];
    Extend(s0, run, Pick(0, 1));
    run := run + [Pick(0, 1)];
    Extend(s0, run, Enter(0));
    run := run + [Enter(0)];
    Extend(s0, run, Launch(0));
    run := run + [Launch(0)];
    var slept, ready, runs := Thread(1, Sleeping, NoWait, 0), Thread(1, Ready, NoWait, 0),
      Thread(1, Running, NoWait, 0);
    assert map[1 := slept][1 := ready][1 := runs] == map[1 := runs];
  }

  /** A thread that CPU 0 spawns for idle CPU `c` runs there. */
  lemma SpawnAndRun(s0: State, run: seq<Step>, c: nat) returns (run': seq<Step>)
    requires Initial(s0) && After(s0, run).Some?
    requires var s := After(s0, run).value;
      At(s, 0, User) && s.cpus[0].pid.value in s.procs && s.nextTid !in s.threads && c in s.cpus && c != 0
        && s.cpus[c].pc.Idle?
    ensures After(s0, run').Some?
    ensures var s, s' := After(s0, run).value, After(s0, run').value;
      var t, p := s.nextTid, s.cpus[0].pid.value;
      s' == s.(threads := s.threads[t := Thread(p, Running, NoWait, c)], nextTid := t + 1,
               cpus := s.cpus[c := Cpu(User, Some(t), Some(p))],
               procs := s.procs[p := s.procs[p].(threads := s.procs[p].threads + {t})])
  {
    hide After;
    var t := After(s0, run).value.nextTid;
    Extend(s0, run, Spawn(0, c));
    run' := run + [Spawn(0, c)];
    Extend(s0, run', Pick(c, t));
    run' := run' + [Pick(c, t)];
    Extend(s0, run', Enter(c));
    run' := run' + [Enter(c)];
    Extend(s0, run', Launch(c));
    run' := run' + [Launch(c)];
  }

  /** A second thread of the process runs on CPU 1. */
  lemma TwoThreads() returns (s0: State, run: seq<Step>)
    ensures Initial(s0) && After(s0, run).Some?
    ensures var s := After(s0, run).value;
      && s.cpus.Keys == {0, 1, 2} && s.cpus[0] == Cpu(User, Some(1), Some(1))
        && s.cpus[1] == Cpu(User, Some(2), Some(1)) && s.cpus[2].pc.Idle?
      && s.threads.Keys == {1, 2} && s.procs.Keys == {1} && s.procs[1].threads == {1, 2} && s.procs[1].main == 1
      && s.nextTid == 3 && s.freed == {} && s.torn == []
  {
    hide After;
    s0, run := OneThread();
    run := SpawnAndRun(s0, run, 1);
  }

  /** Both threads count two live threads in SYS_THREAD_EXIT, and both leave. */
  lemma OrphanCanHappen() returns (s0: State, run: seq<Step>)
    ensures Initial(s0) && After(s0, run).Some? && Orphan(After(s0, run).value, 1)
  {
    hide After;
    s0, run := TwoThreads();
    var s := After(s0, run).value;
    assert Live(s, 1) == {1, 2};
    Extend(s0, run, CheckExit(0));
    run := run + [CheckExit(0)];
    Extend(s0, run, CheckExit(1));
    run := run + [CheckExit(1)];
    Extend(s0, run, ThreadExit(0));
    run := run + [ThreadExit(0)];
    Extend(s0, run, ThreadExit(1));
    run := run + [ThreadExit(1)];
  }

  /** Thread 2 is between the two sections of a console read, and the main thread has
      joined thread 3 when a kill makes it ready. */
  lemma KilledInJoin() returns (s0: State, run: seq<Step>)
    ensures Initial(s0) && After(s0, run).Some?
    ensures var s := After(s0, run).value;
      && s.cpus.Keys == {0, 1, 2} && s.cpus[1] == Cpu(Aiming, Some(2), Some(1))
      && s.cpus[2] == Cpu(User, Some(3), Some(1))
      && s.threads.Keys == {1, 2, 3} && s.procs.Keys == {1} && s.procs[1].threads == {1, 2, 3} && s.procs[1].main == 1
      && s.threads[1].st.Ready? && s.threads[1].wait == OnTid(3)
  {
    hide After;
    s0, run := TwoThreads();
    run := SpawnAndRun(s0, run, 2);
    Extend(s0, run, Aim(1));
    run := run + [Aim(1)];
    Extend(s0, run, Join(0, 3));
    run := run + [Join(0, 3)];
    Extend(s0, run, Kill(1));
    run := run + [Kill(1)];
  }

  /** Then thread 3 leaves and thread 2 goes on: the main thread sleeps on a thread that
      is gone. */
  lemma JoinerCanBeStranded() returns (s0: State, run: seq<Step>)
    ensures Initial(s0) && After(s0, run).Some?
    ensures var s := After(s0, run).value;
      1 in s.threads && s.threads[1].st.Sleeping? && s.threads[1].wait == OnTid(3) && 3 !in s.threads
  {
    hide After;
    s0, run := KilledInJoin();
    assert Live(After(s0, run).value, 1) == {1, 2, 3};
    Extend(s0, run, CheckExit(2));
    run := run + [CheckExit(2)];
    Extend(s0, run, ThreadExit(2));
    run := run + [ThreadExit(2)];
    Extend(s0, run, Doze(1));
    run := run + [Doze(1)];
  }

  /** Without the kill: the main thread sleeps in its join, thread 2 is in its console read. */
  lemma AsleepInJoin() returns (s0: State, run: seq<Step>)
    ensures Initial(s0) && After(s0, run).Some? && run != [] && JoinsAt(s0, run, |run| - 1, 1)
    ensures var s := After(s0, run).value;
      && s.cpus.Keys == {0, 1, 2} && s.cpus[1] == Cpu(Aiming, Some(2), Some(1))
      && s.cpus[2] == Cpu(User, Some(3), Some(1))
      && s.threads.Keys == {1, 2, 3} && s.procs.Keys == {1} && s.procs[1].threads == {1, 2, 3} && s.procs[1].main == 1
      && s.threads[1].st.Sleeping? && s.threads[1].wait == OnTid(3)
  {
    hide After;
    s0, run := TwoThreads();
    run := SpawnAndRun(s0, run, 2);
    Extend(s0, run, Aim(1));
    run := run + [Aim(1)];
    var front := run;
    Extend(s0, run, Join(0, 3));
    run := run + [Join(0, 3)];
    assert run[..|run| - 1] == front;
  }

  /** Thread 3 leaves and wakes the main thread; then thread 2 goes on and puts it to sleep
      for nothing. */
  lemma JoinerCanBeLost() returns (s0: State, run: seq<Step>, i: nat)
    ensures Initial(s0) && After(s0, run).Some? && i < |run| && JoinsAt(s0, run, i, 1) && Lost(After(s0, run).value, 1)
  {
    hide After;
    s0, run := AsleepInJoin();
    var joined := run;
    i := |run| - 1;
    assert Live(After(s0, run).value, 1) == {1, 2, 3};
    Extend(s0, run, CheckExit(2));
    run := run + [CheckExit(2)];
    Extend(s0, run, ThreadExit(2));
    run := run + [ThreadExit(2)];
    Extend(s0, run, Doze(1));
    run := run + [Doze(1)];
    assert run[..i] == joined[..i] && run[i] == joined[i];
  }

  /** The main thread leaves first, and the address space of the process is lost. */
  lemma AddressSpaceCanLeak() returns (s0: State, run: seq<Step>)
    ensures Initial(s0) && After(s0, run).Some?
    ensures After(s0, run).value.torn == [1] && After(s0, run).value.freed == {}
  {
    hide After;
    s0, run := TwoThreads();
    var s := After(s0, run).value;
    assert Live(s, 1) == {1, 2};
    Extend(s0, run, ExitCheck(0));
    run := run + [ExitCheck(0)];
    assert Live(After(s0, run).value, 1) == {2};
    Extend(s0, run, ExitCheck(1));
    run := run + [ExitCheck(1)];
    Extend(s0, run, Teardown(1));
    run := run + [Teardown(1)];
  }
}
