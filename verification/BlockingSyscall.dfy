/** The threads of a process that block in system calls and are woken by other CPUs.

    A thread's registers go through four stack layouts and a context record on their
    way back.  The wake can come before or after the blocking CPU has committed the
    address of the saved frame.  A read from a pipe, a channel or the console puts the
    main thread of the process to sleep, whichever thread reads, while the frame is
    committed for the thread that does. */
module BlockingSyscall {
  import opened Common

  /** A machine word, as a number. */
  type Word = nat

  const USER_CODE: Word := 0x1b
  const USER_DATA: Word := 0x23

  /** Bit 9 of rflags: interrupts are on. */
  predicate InterruptsOn(f: Word) { f / 0x200 % 2 == 1 }

  /** `rflags | 0x200` */
  function TurnOn(f: Word): Word { if InterruptsOn(f) then f else f + 0x200 }

  datatype Regs = Regs(
    rax: Word, rbx: Word, rcx: Word, rdx: Word, rsi: Word, rdi: Word, rbp: Word,
    r8: Word, r9: Word, r10: Word, r11: Word, r12: Word, r13: Word, r14: Word, r15: Word,
    rip: Word, cs: Word, rflags: Word, rsp: Word, ss: Word)

  /** Registers of user mode: its selectors, and interrupts on. */
  predicate UserMode(r: Regs) { r.cs == USER_CODE && r.ss == USER_DATA && InterruptsOn(r.rflags) }

  /** The part of a thread record that is called `UserContext`. */
  datatype Context = Context(
    rax: Word, rbx: Word, rcx: Word, rdx: Word, rsi: Word, rdi: Word, rbp: Word,
    r8: Word, r9: Word, r10: Word, r11: Word, r12: Word, r13: Word, r14: Word, r15: Word,
    rip: Word, rflags: Word, rsp: Word)

  // ---- the stack layouts ----

  /** The frame of `int 0x80`, lowest address first: what was pushed last comes first. */
  datatype Frame = Frame(
    w0: Word, w1: Word, w2: Word, w3: Word, w4: Word, w5: Word, w6: Word, w7: Word, w8: Word, w9: Word,
    w10: Word, w11: Word, w12: Word, w13: Word, w14: Word, w15: Word, w16: Word, w17: Word, w18: Word)

  /** The CPU pushes ss, rsp, rflags, cs and rip, the stub rbp, rbx, rcx, rdx, rsi, rdi
      and r8 to r15.  rax is not kept. */
  function SyscallFrame(r: Regs): Frame {
    Frame(r.r15, r.r14, r.r13, r.r12, r.r11, r.r10, r.r9, r.r8, r.rdi, r.rsi, r.rdx, r.rcx, r.rbx, r.rbp,
          r.rip, r.cs, r.rflags, r.rsp, r.ss)
  }

  /** A frame of twenty words, lowest address first. */
  datatype Words = Words(
    w0: Word, w1: Word, w2: Word, w3: Word, w4: Word, w5: Word, w6: Word, w7: Word, w8: Word, w9: Word,
    w10: Word, w11: Word, w12: Word, w13: Word, w14: Word, w15: Word, w16: Word, w17: Word, w18: Word, w19: Word)

  /** The timer stub pushes rax, rcx, rdx, rsi, rdi, r8 to r11, rbx, rbp, r12 to r15. */
  function TimerFrame(r: Regs): Words {
    Words(r.r15, r.r14, r.r13, r.r12, r.rbp, r.rbx, r.r11, r.r10, r.r9, r.r8, r.rdi, r.rsi, r.rdx, r.rcx, r.rax,
          r.rip, r.cs, r.rflags, r.rsp, r.ss)
  }

  /** The pops of `enter_next_process` from a committed frame, and `iretq`. */
  function PopSyscallFrame(f: Frame, rax: Word): Regs {
    Regs(rax, f.w12, f.w11, f.w10, f.w9, f.w8, f.w13,
         f.w7, f.w6, f.w5, f.w4, f.w3, f.w2, f.w1, f.w0,
         f.w14, f.w15, f.w16, f.w17, f.w18)
  }

  /** `restore_ctx_from_blocking_frame`. */
  function FrameToContext(f: Frame, rax: Word): Context {
    Context(rax, f.w12, f.w11, f.w10, f.w9, f.w8, f.w13,
            f.w7, f.w6, f.w5, f.w4, f.w3, f.w2, f.w1, f.w0,
            f.w14, f.w16, f.w17)
  }

  /** `save_user_context`, which names the fields of an interrupt frame. */
  function TimerFrameToContext(f: Words): Context {
    Context(f.w14, f.w5, f.w13, f.w12, f.w11, f.w10, f.w4,
            f.w9, f.w8, f.w7, f.w6, f.w3, f.w2, f.w1, f.w0,
            f.w15, f.w17, f.w18)
  }

  /** `setup_user_frame_on_temp_stack`. */
  function ContextFrame(c: Context): Words {
    Words(c.rax, c.rcx, c.rdx, c.rsi, c.rdi, c.r8, c.r9, c.r10, c.r11, c.rbx, c.rbp, c.r12, c.r13, c.r14, c.r15,
          c.rip, USER_CODE, TurnOn(c.rflags), c.rsp, USER_DATA)
  }

  /** The pops that follow it: rax, rcx, rdx, rsi, rdi, r8 to r11, rbx, rbp, r12 to r15. */
  function PopContextFrame(f: Words): Regs {
    Regs(f.w0, f.w9, f.w1, f.w2, f.w3, f.w4, f.w10, f.w5, f.w6, f.w7, f.w8, f.w11, f.w12, f.w13, f.w14,
         f.w15, f.w16, f.w17, f.w18, f.w19)
  }

  /** `setup_user_frame_for_timer_on_temp_stack`. */
  function TimerContextFrame(c: Context): Words {
    Words(c.r15, c.r14, c.r13, c.r12, c.rbp, c.rbx, c.r11, c.r10, c.r9, c.r8, c.rdi, c.rsi, c.rdx, c.rcx, c.rax,
          c.rip, USER_CODE, TurnOn(c.rflags), c.rsp, USER_DATA)
  }

  /** `restore_user_frame`, into the frame of the interrupted thread. */
  function RestoredFrame(c: Context): Words {
    Words(c.r15, c.r14, c.r13, c.r12, c.rbp, c.rbx, c.r11, c.r10, c.r9, c.r8, c.rdi, c.rsi, c.rdx, c.rcx, c.rax,
          c.rip, USER_CODE, c.rflags, c.rsp, USER_DATA)
  }

  /** The pops at the end of the timer stub. */
  function PopTimerFrame(f: Words): Regs {
    Regs(f.w14, f.w5, f.w13, f.w12, f.w11, f.w10, f.w4, f.w9, f.w8, f.w7, f.w6, f.w3, f.w2, f.w1, f.w0,
         f.w15, f.w16, f.w17, f.w18, f.w19)
  }

  // ---- the layouts fit together ----

  /** The context that a thread in user mode with these registers has. */
  function ContextOf(r: Regs): Context {
    Context(r.rax, r.rbx, r.rcx, r.rdx, r.rsi, r.rdi, r.rbp, r.r8, r.r9, r.r10, r.r11, r.r12, r.r13, r.r14, r.r15,
        r.rip, r.rflags, r.rsp)
  }

  /** Popping the syscall frame gives the registers back, with the new rax; so does the
      context built from it. */
  lemma SyscallFrameFits(r: Regs, v: Word)
    ensures PopSyscallFrame(SyscallFrame(r), v) == r.(rax := v)
    ensures FrameToContext(SyscallFrame(r), v) == ContextOf(r.(rax := v))
  {
  }

  /** The context that the timer saves. */
  lemma TimerFrameFits(r: Regs)
    ensures TimerFrameToContext(TimerFrame(r)) == ContextOf(r)
  {
  }

  /** All three ways back from a context give the same registers. */
  lemma ContextFits(r: Regs)
    requires UserMode(r)
    ensures PopContextFrame(ContextFrame(ContextOf(r))) == r
    ensures PopTimerFrame(TimerContextFrame(ContextOf(r))) == r
    ensures PopTimerFrame(RestoredFrame(ContextOf(r))) == r
  {
  }

  // ---- the protocol ----

  datatype Status = Ready | Running | Sleeping
  datatype Wait = NoWait | OnPipe | OnOther
  datatype Pc =
    | User         // running in user mode
    | Kernel       // in a system call
    | Aiming       // in a console read that has set the wait target of the main thread
    | Blocked      // the system call has blocked, its frame is not committed yet
    | Parked       // off its CPU in a blocking call
    | Preempted    // off its CPU by the timer
    | Adrift       // back in user mode while its CPU has no current thread
    | Calling      // in a system call made while adrift
    | Lost         // off its CPU after it was adrift: nothing was saved

  /** How the sleep of a blocked thread ended.  `open` says that the thread could still
      take the value, `late` that its frame was committed, and `kept` is what it would
      have answered before.  A thread that blocked without being put to sleep itself is
      `Unmarked`. */
  datatype Wake =
    | Asleep | Unmarked
    | ByPipe(n: Word, open: bool, kept: Word) | ByOther(v: Word, late: bool, kept: Word) | BySignal | ByKill

  /** `regs` are the registers in user mode, or those at the last entry to the kernel;
      `saved` are those at the last preemption; `committed` says that `blocking_rsp` holds
      the address of `frame`; `picked` that the
      scheduler has chosen the thread; `foreign` that another thread put it to sleep since
      it last blocked. */
  datatype Thread = Thread(
    pc: Pc, regs: Regs, saved: Regs, frame: Frame, st: Status, wait: Wait, committed: bool, retval: Word, ctx: Context,
    picked: bool, foreign: bool, wake: Wake)

  /** The threads of one process. */
  datatype State = State(main: nat, threads: map<nat, Thread>)

  datatype Path = Scheduler | TimerInKernel | TimerInUser

  datatype Step =
    | Compute(t: nat, r: Regs)          // user code
    | Int80(t: nat) | Return(t: nat, v: Word) | Commit(t: nat) | Preempt(t: nat)
    | BlockSelf(t: nat)                 // block_current
    | BlockMain(t: nat, wait: Wait)     // pipe and channel: set_wait_target and set_sleeping of the process
    | Aim(t: nat) | Doze(t: nat)        // console: the same in two sections
    | Pick(t: nat) | Resume(t: nat, path: Path) | Slip(t: nat)
    | Call(t: nat) | Back(t: nat, v: Word) | Lose(t: nat)   // while adrift
    | Notify(t: nat, n: Word) | WakeWith(t: nat, v: Word) | Signal | Kill

  /** `restore_ctx_from_blocking_frame`: nothing happens before the commit. */
  function Restore(x: Thread, v: Word): Thread {
    if x.committed then x.(ctx := FrameToContext(x.frame, v), committed := false) else x
  }

  /** `apply_blocking_return_if_pending`. */
  function Apply(x: Thread): Thread {
    if x.committed then Restore(x, x.retval).(retval := 0) else x
  }

  /** The registers and the record of a thread that runs again. */
  function Resumed(x: Thread, path: Path): Thread {
    match path
    case Scheduler =>
      if x.committed then x.(pc := User, regs := PopSyscallFrame(x.frame, x.retval), retval := 0, committed := false)
      else x.(pc := User, regs := PopContextFrame(ContextFrame(x.ctx)))
    case TimerInKernel =>
      var y := Apply(x);
      y.(pc := User, regs := PopTimerFrame(TimerContextFrame(y.ctx)))
    case TimerInUser =>
      var y := Apply(x);
      y.(pc := User, regs := PopTimerFrame(RestoredFrame(y.ctx)))
  }

  /** What rax will be when a blocked thread runs again. */
  function Answer(x: Thread): Word { if x.committed || x.pc.Blocked? then x.retval else x.ctx.rax }

  /** The CPU of the thread has forgotten it. */
  predicate Drifted(pc: Pc) { pc.Adrift? || pc.Calling? || pc.Lost? }

  predicate Is(s: State, t: nat, pc: Pc) { t in s.threads && s.threads[t].pc == pc }

  function With(s: State, t: nat, x: Thread): State { s.(threads := s.threads[t := x]) }

  /** Thread `t` has blocked; it is marked only if it is the thread that was put to sleep. */
  function Stopped(s: State, t: nat, mark: nat): State
    requires t in s.threads
  {
    if t == mark then With(s, t, s.threads[t].(pc := Blocked, st := Sleeping, wake := Asleep, foreign := false))
    else With(s, t, s.threads[t].(pc := Blocked, wake := Unmarked))
  }

  /** The main thread is put to sleep by another one. */
  function Dazed(s: State, t: nat): State {
    if t == s.main || s.main !in s.threads then s
    else With(s, s.main, s.threads[s.main].(st := Sleeping, wake := Asleep, foreign := true))
  }

  function Aimed(s: State, t: nat, w: Wait): State {
    if t in s.threads then With(s, t, s.threads[t].(wait := w)) else s
  }

  /** In user mode while its CPU has no current thread. */
  predicate Strays(s: State, t: nat) { Is(s, t, Adrift) && !s.threads[t].picked }

  /** `Preempt` is the save of the timer and `Slip` its return to the interrupted code
      when the scheduler found no thread.  From then on the system calls of that code see
      no current thread: a call that blocks marks no thread and commits no frame, and a
      timer that finds another thread saves nothing; both are `Lose`. */
  function Next(s: State, step: Step): Option<State> {
    match step
    case Compute(t, r) =>
      if (Is(s, t, User) || Strays(s, t)) && UserMode(r) then Some(With(s, t, s.threads[t].(regs := r))) else None
    case Int80(t) =>
      if Is(s, t, User)
      then Some(With(s, t, s.threads[t].(pc := Kernel, frame := SyscallFrame(s.threads[t].regs))))
      else None
    case Return(t, v) =>
      if Is(s, t, Kernel)
      then Some(With(s, t, s.threads[t].(pc := User, regs := s.threads[t].regs.(rax := v))))
      else None
    case BlockSelf(t) => if Is(s, t, Kernel) then Some(Aimed(Stopped(s, t, t), t, OnOther)) else None
    case BlockMain(t, w) =>
      if Is(s, t, Kernel) && w != NoWait then Some(Stopped(Dazed(Aimed(s, s.main, w), t), t, s.main)) else None
    case Aim(t) =>
      if Is(s, t, Kernel) then Some(Aimed(With(s, t, s.threads[t].(pc := Aiming)), s.main, OnOther)) else None
    case Doze(t) => if Is(s, t, Aiming) then Some(Stopped(Dazed(s, t), t, s.main)) else None
    case Commit(t) =>
      if Is(s, t, Blocked) then Some(With(s, t, s.threads[t].(pc := Parked, committed := true))) else None
    case Preempt(t) =>
      if Is(s, t, User)
      then
        var x := s.threads[t];
        var ctx := TimerFrameToContext(TimerFrame(x.regs));
        Some(With(s, t, x.(pc := Preempted, st := Ready, saved := x.regs, ctx := ctx)))
      else None
    case Pick(t) =>
      if (Is(s, t, Parked) || Is(s, t, Preempted) || Is(s, t, Adrift) || Is(s, t, Lost)) && s.threads[t].st.Ready?
      then Some(With(s, t, s.threads[t].(picked := true))) else None
    case Resume(t, path) =>
      if t in s.threads && s.threads[t].picked
      then Some(With(s, t, Resumed(s.threads[t], path).(st := Running, picked := false)))
      else None
    case Slip(t) =>
      if Is(s, t, Preempted) && !s.threads[t].st.Ready? && !s.threads[t].picked
      then Some(With(s, t, s.threads[t].(pc := Adrift)))
      else None
    case Call(t) =>
      if Strays(s, t)
      then Some(With(s, t, s.threads[t].(pc := Calling, frame := SyscallFrame(s.threads[t].regs))))
      else None
    case Back(t, v) =>
      if Is(s, t, Calling)
      then Some(With(s, t, s.threads[t].(pc := Adrift, regs := s.threads[t].regs.(rax := v))))
      else None
    case Lose(t) =>
      if Is(s, t, Calling) || Strays(s, t) then Some(With(s, t, s.threads[t].(pc := Lost))) else None
    case Notify(t, n) =>
      if t in s.threads && s.threads[t].st.Sleeping? && s.threads[t].wait.OnPipe?
      then Some(With(s, t, Notified(s.threads[t], n)))
      else None
    case WakeWith(t, v) =>
      if t in s.threads && s.threads[t].st.Sleeping? && s.threads[t].wait.OnOther?
      then Some(With(s, t, WokenWith(s.threads[t], v)))
      else None
    case Signal =>
      if s.main in s.threads && s.threads[s.main].st.Sleeping?
      then Some(With(s, s.main, Apply(s.threads[s.main]).(st := Ready, wait := NoWait, wake := BySignal))) else None
    case Kill =>
      if s.main in s.threads then Some(With(s, s.main, Killed(s.threads[s.main]))) else None
  }

  /** `notify_pipe_readers` on one thread. */
  function Notified(x: Thread, n: Word): Thread {
    var wake := ByPipe(n, x.committed || x.pc.Blocked?, Answer(x));
    Restore(x.(retval := n), n).(st := Ready, wait := NoWait, wake := wake)
  }

  /** The other wake-ups that hand over a value. */
  function WokenWith(x: Thread, v: Word): Thread {
    Restore(x, v).(st := Ready, wait := NoWait, wake := ByOther(v, x.committed, Answer(x)))
  }

  /** `kill_pid`: ready, whatever the thread was doing; the wait target is kept. */
  function Killed(x: Thread): Thread {
    x.(st := Ready, wake := if x.wake.Asleep? then ByKill else x.wake)
  }

  /** Threads in user mode, or new ones with a context. */
  ghost predicate Initial(s: State) {
    forall t :: t in s.threads ==> var x := s.threads[t];
      && UserMode(x.regs) && !x.committed && !x.picked && !x.foreign && x.retval == 0
      && ((x.pc.User? && x.st.Running?)
           || (x.pc.Preempted? && x.st.Ready? && x.saved == x.regs && x.ctx == ContextOf(x.regs)))
  }

  // ---- the invariant ----

  ghost predicate WakeOk(x: Thread, isMain: bool) {
    match x.wake
    case Asleep => x.st.Sleeping?
    case Unmarked => !isMain && x.st.Running? && !x.picked
    case ByPipe(n, open, kept) => Answer(x) == (if open then n else kept) && (!x.foreign ==> open)
    case ByOther(v, late, kept) => Answer(x) == if late then v else kept
    case BySignal => true
    case ByKill => true
  }

  ghost predicate ThreadOk(x: Thread, isMain: bool) {
    && UserMode(x.regs)
    && (x.committed ==> x.pc.Parked?)
    && (x.pc.Kernel? || x.pc.Aiming? || x.pc.Blocked? || x.committed ==> x.frame == SyscallFrame(x.regs))
    && (x.pc.Parked? && !x.committed ==> x.ctx == ContextOf(x.regs.(rax := x.ctx.rax)))
    && (x.pc.Preempted? || Drifted(x.pc) ==> UserMode(x.saved) && x.ctx == ContextOf(x.saved))
    && (x.pc.Preempted? ==> x.saved == x.regs)
    && (x.picked ==> x.pc.Parked? || x.pc.Preempted? || x.pc.Adrift? || x.pc.Lost?)
    && (x.picked && !x.foreign ==> x.st.Ready?)
    && (x.pc.Blocked? || x.pc.Parked? ==> WakeOk(x, isMain))
    && (x.pc.Parked? && x.st.Sleeping? && !x.foreign ==> x.committed)
    && (x.pc.Preempted? && !x.foreign ==> x.st.Ready?)
    && (x.foreign || Drifted(x.pc) ==> isMain)
    && (!isMain && (x.pc.User? || x.pc.Kernel? || x.pc.Aiming?) ==> x.st.Running?)
  }

  ghost predicate Inv(s: State) { forall t :: t in s.threads ==> ThreadOk(s.threads[t], t == s.main) }

  /** The three ways to resume agree: a blocked thread has every register as it was, and
      rax is the answer; any other has the registers of its last preemption. */
  lemma ResumeRestores(x: Thread, path: Path, isMain: bool)
    requires ThreadOk(x, isMain) && x.picked
    ensures Resumed(x, path).regs == if x.pc.Parked? then x.regs.(rax := Answer(x)) else x.saved
  {
    var r := if x.pc.Parked? then x.regs.(rax := Answer(x)) else x.saved;
    SyscallFrameFits(x.regs, x.retval);
    ContextFits(r);
  }

  lemma ContextRax(r: Regs, v: Word)
    ensures ContextOf(r.(rax := v)).rax == v
  {
  }

  /** A wake from another CPU, before or after the commit. */
  lemma WakeKeepsOk(x: Thread, v: Word, isMain: bool)
    requires ThreadOk(x, isMain) && x.st.Sleeping?
    ensures ThreadOk(Notified(x, v), isMain) && ThreadOk(WokenWith(x, v), isMain)
    ensures ThreadOk(Apply(x).(st := Ready, wait := NoWait, wake := BySignal), isMain)
  {
    hide SyscallFrame, FrameToContext, ContextOf;
    SyscallFrameFits(x.regs, v);
    SyscallFrameFits(x.regs, x.retval);
    ContextRax(x.regs, v);
    ContextRax(x.regs, x.retval);
  }

  lemma KillKeepsOk(x: Thread)
    requires ThreadOk(x, true)
    ensures ThreadOk(Killed(x), true)
  {
    hide SyscallFrame, FrameToContext, ContextOf;
  }

  /** Steps of the thread's own CPU that do not block. */
  lemma OwnStepKeepsOk(s: State, step: Step)
    requires Inv(s) && Next(s, step).Some?
    requires step.Int80? || step.Return? || step.Commit? || step.Preempt? || step.Pick?
    ensures ThreadOk(Next(s, step).value.threads[step.t], step.t == s.main)
  {
    hide SyscallFrame, FrameToContext, ContextOf, TimerFrame, TimerFrameToContext, Stopped, Dazed, Aimed, Resumed;
    TimerFrameFits(s.threads[step.t].regs);
    ContextRax(s.threads[step.t].regs, s.threads[step.t].regs.rax);
  }

  /** Computing, and the steps of a thread that its CPU has forgotten. */
  lemma StrayStepKeepsOk(s: State, step: Step)
    requires Inv(s) && Next(s, step).Some?
    requires step.Compute? || step.Slip? || step.Call? || step.Back? || step.Lose?
    ensures ThreadOk(Next(s, step).value.threads[step.t], step.t == s.main)
  {
    hide SyscallFrame, ContextOf, WakeOk, Stopped, Dazed, Aimed, Resumed;
    assert ThreadOk(s.threads[step.t], step.t == s.main);
  }

  lemma ResumeKeepsOk(x: Thread, path: Path, isMain: bool)
    requires ThreadOk(x, isMain) && x.picked
    ensures ThreadOk(Resumed(x, path).(st := Running, picked := false), isMain)
  {
    hide SyscallFrame, FrameToContext, ContextOf, PopSyscallFrame, PopContextFrame, ContextFrame, PopTimerFrame,
      TimerContextFrame, RestoredFrame;
    ResumeRestores(x, path, isMain);
  }

  /** A thread that blocks by itself, or sets the target of the main thread. */
  lemma BlockSelfKeepsInv(s: State, step: Step)
    requires Inv(s) && Next(s, step).Some? && (step.BlockSelf? || step.Aim?)
    ensures Inv(Next(s, step).value)
  {
    hide SyscallFrame, ContextOf, Dazed, Resumed, Notified, WokenWith, Killed, Apply, TimerFrameToContext;
    var s' := Next(s, step).value;
    forall t | t in s'.threads ensures ThreadOk(s'.threads[t], t == s'.main) {
      assert ThreadOk(s.threads[t], t == s.main);
    }
  }

  /** The records of the caller and of the main thread after a blocking section. */
  lemma BlockMainKeepsInv(s: State, step: Step)
    requires Inv(s) && Next(s, step).Some? && (step.BlockMain? || step.Doze?)
    ensures Inv(Next(s, step).value)
  {
    hide SyscallFrame, ContextOf, Resumed, Notified, WokenWith, Killed, Apply, TimerFrameToContext;
    var s' := Next(s, step).value;
    forall t | t in s'.threads ensures ThreadOk(s'.threads[t], t == s'.main) {
      assert ThreadOk(s.threads[t], t == s.main);
    }
  }

  lemma StepKeepsInv(s: State, step: Step)
    requires Inv(s) && Next(s, step).Some?
    ensures Inv(Next(s, step).value)
  {
    hide ThreadOk, Resumed, Notified, WokenWith, Killed, Apply;
    match step
    case Resume(t, path) => ResumeKeepsOk(s.threads[t], path, t == s.main);
    case Notify(t, n) => WakeKeepsOk(s.threads[t], n, t == s.main);
    case WakeWith(t, v) => WakeKeepsOk(s.threads[t], v, t == s.main);
    case Signal => WakeKeepsOk(s.threads[s.main], 0, true);
    case Kill => KillKeepsOk(s.threads[s.main]);
    case BlockSelf(_) => BlockSelfKeepsInv(s, step);
    case BlockMain(_, _) => BlockMainKeepsInv(s, step);
    case Aim(_) => BlockSelfKeepsInv(s, step);
    case Doze(_) => BlockMainKeepsInv(s, step);
    case Compute(_, _) => StrayStepKeepsOk(s, step);
    case Slip(_) => StrayStepKeepsOk(s, step);
    case Call(_) => StrayStepKeepsOk(s, step);
    case Back(_, _) => StrayStepKeepsOk(s, step);
    case Lose(_) => StrayStepKeepsOk(s, step);
    case _ => OwnStepKeepsOk(s, step);
  }

  // ---- whole runs ----

  function After(s: State, run: seq<Step>): Option<State> {
    if run == [] then Some(s) else
      var r := After(s, run[..|run| - 1]);
      if r.None? then None else Next(r.value, run[|run| - 1])
  }

  lemma {:induction false} ReachableInv(s: State, run: seq<Step>)
    requires Initial(s) && After(s, run).Some?
    ensures Inv(After(s, run).value)
  {
    if run != [] {
      ReachableInv(s, run[..|run| - 1]);
      StepKeepsInv(After(s, run[..|run| - 1]).value, run[|run| - 1]);
    }
  }

  /** However a run interleaves computing, blocking, commit and wake, and whichever way a
      thread is resumed: unless its CPU had forgotten it, it has all registers as they
      were, except for rax when it had blocked. */
  lemma RegistersSurvive(s0: State, run: seq<Step>, t: nat, path: Path)
    requires Initial(s0) && After(s0, run).Some? && Next(After(s0, run).value, Resume(t, path)).Some?
    ensures var x := After(s0, run).value.threads[t];
      var y := Next(After(s0, run).value, Resume(t, path)).value.threads[t];
      && y.pc.User? && UserMode(y.regs)
      && (x.pc.Parked? ==> y.regs == x.regs.(rax := y.regs.rax))
      && (x.pc.Preempted? ==> y.regs == x.regs)
      && (!x.pc.Parked? ==> y.regs == x.saved)
  {
    hide PopSyscallFrame, PopContextFrame, ContextFrame, PopTimerFrame, TimerContextFrame, RestoredFrame, Resumed;
    ReachableInv(s0, run);
    var x := After(s0, run).value.threads[t];
    ResumeRestores(x, path, t == After(s0, run).value.main);
    ResumedRuns(x, path);
    StepKeepsInv(After(s0, run).value, Resume(t, path));
  }

  /** What `saved` is: where step `k` is the last `Preempt` of the thread in a run, the
      registers that the thread had there. */
  lemma {:induction false} SavedAtLastPreempt(s0: State, run: seq<Step>, t: nat, k: nat)
    requires After(s0, run).Some? && t in s0.threads
    requires k < |run| && run[k] == Preempt(t) && forall i :: k < i < |run| ==> run[i] != Preempt(t)
    ensures After(s0, run[..k]).Some? && t in After(s0, run[..k]).value.threads && t in After(s0, run).value.threads
    ensures After(s0, run).value.threads[t].saved == After(s0, run[..k]).value.threads[t].regs
  {
    hide Next;
    var front, step := run[..|run| - 1], run[|run| - 1];
    MainStays(s0, front);
    StepSaves(After(s0, front).value, step, t);
    if k < |front| {
      SavedAtLastPreempt(s0, front, t, k);
      assert front[..k] == run[..k];
    }
  }

  /** Only `Preempt` saves. */
  lemma StepSaves(s: State, step: Step, t: nat)
    requires Next(s, step).Some? && t in s.threads
    ensures t in Next(s, step).value.threads
    ensures Next(s, step).value.threads[t].saved == if step == Preempt(t) then s.threads[t].regs else s.threads[t].saved
  {
    hide SyscallFrame, FrameToContext, TimerFrame, TimerFrameToContext, ContextOf, PopSyscallFrame, PopContextFrame,
      ContextFrame, PopTimerFrame, TimerContextFrame, RestoredFrame;
  }

  /** Registers `r` are those of thread `x`; where it was in a system call rax may differ. */
  predicate GivenBack(x: Thread, r: Regs) {
    if x.pc.Parked? || x.pc.Lost? then r == x.regs.(rax := r.rax) else r == x.regs
  }

  /** In any run a resume gives the registers back exactly when the CPU of the thread had
      not forgotten it, or when they are still those of the last preemption. */
  lemma GivenBackIff(s0: State, run: seq<Step>, t: nat, path: Path)
    requires Initial(s0) && After(s0, run).Some? && Next(After(s0, run).value, Resume(t, path)).Some?
    ensures var x := After(s0, run).value.threads[t];
      var y := Next(After(s0, run).value, Resume(t, path)).value.threads[t];
      GivenBack(x, y.regs) <==> !Drifted(x.pc) || GivenBack(x, x.saved)
  {
    hide Next, After;
    var s := After(s0, run).value;
    ResumedWasPicked(s, t, path);
    ReachableInv(s0, run);
    assert ThreadOk(s.threads[t], t == s.main);
    RegistersSurvive(s0, run, t, path);
  }

  lemma ResumedWasPicked(s: State, t: nat, path: Path)
    requires Next(s, Resume(t, path)).Some?
    ensures t in s.threads && s.threads[t].picked
  {
  }

  lemma ResumedRuns(x: Thread, path: Path)
    ensures Resumed(x, path).pc.User?
  {
  }

  lemma {:induction false} MainStays(s: State, run: seq<Step>)
    requires After(s, run).Some?
    ensures After(s, run).value.main == s.main && After(s, run).value.threads.Keys == s.threads.Keys
  {
    if run != [] {
      MainStays(s, run[..|run| - 1]);
    }
  }

  /** A blocked thread that no other thread put to sleep again is resumed only after it
      was woken, and if a pipe woke it with `n` bytes then rax is `n`. */
  lemma PipeReaderResumes(s0: State, run: seq<Step>, t: nat, path: Path)
    requires Initial(s0) && After(s0, run).Some? && Next(After(s0, run).value, Resume(t, path)).Some?
    requires After(s0, run).value.threads[t].pc.Parked? && !After(s0, run).value.threads[t].foreign
    ensures var x := After(s0, run).value.threads[t];
      && !x.wake.Asleep? && !x.wake.Unmarked?
      && (x.wake.ByPipe? ==>
            Next(After(s0, run).value, Resume(t, path)).value.threads[t].regs == x.regs.(rax := x.wake.n))
  {
    hide PopSyscallFrame, PopContextFrame, ContextFrame, PopTimerFrame, TimerContextFrame, RestoredFrame, Resumed;
    ReachableInv(s0, run);
    ResumeRestores(After(s0, run).value.threads[t], path, t == After(s0, run).value.main);
  }

  /** In general the bytes of the last pipe wake are the answer exactly when the thread
      could still take them, or had that answer already. */
  lemma PipeWakeDeliversIff(s0: State, run: seq<Step>, t: nat, path: Path)
    requires Initial(s0) && After(s0, run).Some? && Next(After(s0, run).value, Resume(t, path)).Some?
    requires After(s0, run).value.threads[t].pc.Parked? && After(s0, run).value.threads[t].wake.ByPipe?
    ensures var w := After(s0, run).value.threads[t].wake;
      Next(After(s0, run).value, Resume(t, path)).value.threads[t].regs.rax == w.n <==> w.open || w.kept == w.n
  {
    hide PopSyscallFrame, PopContextFrame, ContextFrame, PopTimerFrame, TimerContextFrame, RestoredFrame, Resumed;
    ReachableInv(s0, run);
    ResumeRestores(After(s0, run).value.threads[t], path, t == After(s0, run).value.main);
  }

  /** A wake with a value that is not by a pipe delivers it exactly when it comes after
      the commit, or when that was the answer already. */
  lemma OtherWakeDeliversIff(s0: State, run: seq<Step>, t: nat, path: Path)
    requires Initial(s0) && After(s0, run).Some? && Next(After(s0, run).value, Resume(t, path)).Some?
    requires After(s0, run).value.threads[t].pc.Parked? && After(s0, run).value.threads[t].wake.ByOther?
    ensures var w := After(s0, run).value.threads[t].wake;
      Next(After(s0, run).value, Resume(t, path)).value.threads[t].regs.rax == w.v <==> w.late || w.kept == w.v
  {
    hide PopSyscallFrame, PopContextFrame, ContextFrame, PopTimerFrame, TimerContextFrame, RestoredFrame, Resumed;
    ReachableInv(s0, run);
    ResumeRestores(After(s0, run).value.threads[t], path, t == After(s0, run).value.main);
  }

  // ---- the value that a wake hands over ----

  /** A thread that is off its CPU in a blocking call and was made ready runs again. */
  lemma ReadyResumes(s: State, t: nat, path: Path)
    requires Inv(s) && Is(s, t, Parked) && s.threads[t].st.Ready?
    ensures var picked := Next(s, Pick(t));
      && picked.Some? && Next(picked.value, Resume(t, path)).Some?
      && Is(Next(picked.value, Resume(t, path)).value, t, User)
      && var y := Next(picked.value, Resume(t, path)).value.threads[t];
      y.regs == s.threads[t].regs.(rax := Answer(s.threads[t])) && y.st.Running?
  {
    hide SyscallFrame, FrameToContext, ContextOf, PopSyscallFrame, PopContextFrame, ContextFrame, PopTimerFrame,
      TimerContextFrame, RestoredFrame, Resumed, Notified, WokenWith, Killed, Apply, Stopped, Dazed, Aimed;
    assert ThreadOk(s.threads[t], t == s.main);
    var x := s.threads[t].(picked := true);
    assert ThreadOk(x, t == s.main);
    ResumeRestores(x, path, t == s.main);
    ResumedRuns(x, path);
  }

  lemma WokenParked(s: State, wake: Step)
    requires (wake.WakeWith? || wake.Notify?) && Is(s, wake.t, Parked) && Next(s, wake).Some?
    ensures var x, y := s.threads[wake.t], Next(s, wake).value.threads[wake.t];
      && Is(Next(s, wake).value, wake.t, Parked) && y.st.Ready? && y.regs == x.regs
      && Answer(y) == if !x.committed then x.ctx.rax else if wake.WakeWith? then wake.v else wake.n
  {
    hide SyscallFrame, ContextOf, Resumed, Apply, Killed, Stopped, Dazed, Aimed;
  }

  lemma WokenBlocked(s: State, wake: Step)
    requires (wake.WakeWith? || wake.Notify?) && Is(s, wake.t, Blocked) && Next(s, wake).Some?
    requires !s.threads[wake.t].committed
    ensures var t, s1 := wake.t, Next(s, wake).value;
      && Next(s1, Commit(t)).Some? && Is(Next(s1, Commit(t)).value, t, Parked)
      && var x, y := s.threads[t], Next(s1, Commit(t)).value.threads[t];
      y.st.Ready? && y.regs == x.regs && Answer(y) == if wake.Notify? then wake.n else x.retval
  {
    hide SyscallFrame, FrameToContext, ContextOf, Resumed, Apply, Killed, Stopped, Dazed, Aimed;
  }

  lemma InterruptedParked(s: State, wake: Step)
    requires (wake.Signal? || wake.Kill?) && Is(s, s.main, Parked) && s.threads[s.main].st.Sleeping?
    ensures Next(s, wake).Some? && Is(Next(s, wake).value, s.main, Parked)
    ensures var x, y := s.threads[s.main], Next(s, wake).value.threads[s.main];
      y.st.Ready? && y.regs == x.regs && Answer(y) == if x.committed then x.retval else x.ctx.rax
  {
    hide SyscallFrame, ContextOf, Resumed, Notified, WokenWith, Stopped, Dazed, Aimed;
  }

  lemma NotCommittedYet(s: State, t: nat)
    requires Inv(s) && Is(s, t, Blocked)
    ensures !s.threads[t].committed
  {
    assert ThreadOk(s.threads[t], t == s.main);
  }

  /** From any reachable state in which the thread sleeps off its CPU: after a wake with
      `v`, by a pipe or otherwise, it runs again with all registers of its call.  rax is `v`
      if its frame is committed, and the answer it had if not. */
  lemma WakeHandsOver(s0: State, run: seq<Step>, wake: Step, path: Path)
    requires Initial(s0) && After(s0, run).Some? && (wake.WakeWith? || wake.Notify?)
    requires Is(After(s0, run).value, wake.t, Parked) && Next(After(s0, run).value, wake).Some?
    ensures var s, t, v := After(s0, run).value, wake.t, if wake.WakeWith? then wake.v else wake.n;
      var done := After(s, [wake, Pick(t), Resume(t, path)]);
      && done.Some? && Is(done.value, t, User)
      && var rax := if s.threads[t].committed then v else s.threads[t].ctx.rax;
      done.value.threads[t].regs == s.threads[t].regs.(rax := rax)
  {
    hide After, Next, Inv, Initial;
    ReachableInv(s0, run);
    var s, t := After(s0, run).value, wake.t;
    WokenParked(s, wake);
    StepKeepsInv(s, wake);
    var s1 := Next(s, wake).value;
    ReadyResumes(s1, t, path);
    var s2 := Next(s1, Pick(t)).value;
    AfterThree(s, [wake, Pick(t), Resume(t, path)], s1, s2, Next(s2, Resume(t, path)).value);
  }

  /** If the wake comes before the commit: bytes of a pipe are the answer, and any other
      value is lost to what the last one had left. */
  lemma EarlyWakeHandsOver(s0: State, run: seq<Step>, wake: Step, path: Path)
    requires Initial(s0) && After(s0, run).Some? && (wake.WakeWith? || wake.Notify?)
    requires Is(After(s0, run).value, wake.t, Blocked) && Next(After(s0, run).value, wake).Some?
    ensures var s, t := After(s0, run).value, wake.t;
      var done := After(s, [wake, Commit(t), Pick(t), Resume(t, path)]);
      && done.Some? && Is(done.value, t, User)
      && var rax := if wake.Notify? then wake.n else s.threads[t].retval;
      done.value.threads[t].regs == s.threads[t].regs.(rax := rax)
  {
    hide After, Next, Inv, Initial;
    ReachableInv(s0, run);
    var s, t := After(s0, run).value, wake.t;
    NotCommittedYet(s, t);
    WokenBlocked(s, wake);
    StepKeepsInv(s, wake);
    var s1 := Next(s, wake).value;
    StepKeepsInv(s1, Commit(t));
    var s2 := Next(s1, Commit(t)).value;
    ReadyResumes(s2, t, path);
    var s3 := Next(s2, Pick(t)).value;
    AfterFour(s, [wake, Commit(t), Pick(t), Resume(t, path)], s1, s2, s3, Next(s3, Resume(t, path)).value);
  }

  /** A signal or a kill ends the sleep of the main thread: it runs again with the answer
      that it had. */
  lemma InterruptedResumes(s0: State, run: seq<Step>, wake: Step, path: Path)
    requires Initial(s0) && After(s0, run).Some? && (wake.Signal? || wake.Kill?)
    requires var s := After(s0, run).value; Is(s, s.main, Parked) && s.threads[s.main].st.Sleeping?
    ensures var s := After(s0, run).value;
      var done := After(s, [wake, Pick(s.main), Resume(s.main, path)]);
      && done.Some? && Is(done.value, s.main, User)
      && var x := s.threads[s.main];
      done.value.threads[s.main].regs == x.regs.(rax := if x.committed then x.retval else x.ctx.rax)
  {
    hide After, Next, Inv, Initial;
    ReachableInv(s0, run);
    var s := After(s0, run).value;
    var t := s.main;
    InterruptedParked(s, wake);
    StepKeepsInv(s, wake);
    var s1 := Next(s, wake).value;
    ReadyResumes(s1, t, path);
    var s2 := Next(s1, Pick(t)).value;
    AfterThree(s, [wake, Pick(t), Resume(t, path)], s1, s2, Next(s2, Resume(t, path)).value);
  }

  /** A call that does not block: all registers as they were, and rax is its answer. */
  lemma CallReturns(s: State, t: nat, v: Word)
    requires Is(s, t, User)
    ensures var done := After(s, [Int80(t), Return(t, v)]);
      && done.Some? && Is(done.value, t, User) && done.value.threads[t].regs == s.threads[t].regs.(rax := v)
      && done.value.threads.Keys == s.threads.Keys
      && forall u :: u in s.threads && u != t ==> done.value.threads[u] == s.threads[u]
  {
    hide After, SyscallFrame;
    var s1 := Next(s, Int80(t)).value;
    StartOf(s);
    Extend(s, [], Int80(t));
    Extend(s, [] + [Int80(t)], Return(t, v));
    assert [] + [Int80(t)] + [Return(t, v)] == [Int80(t), Return(t, v)];
  }

  lemma AfterFour(s: State, run: seq<Step>, s1: State, s2: State, s3: State, s4: State)
    requires |run| == 4 && Next(s, run[0]) == Some(s1) && Next(s1, run[1]) == Some(s2)
    requires Next(s2, run[2]) == Some(s3) && Next(s3, run[3]) == Some(s4)
    ensures After(s, run) == Some(s4)
  {
    hide Next;
    assert run[..3][..2] == run[..2] && run[..3][0] == run[0] && run[..3][1] == run[1];
    AfterThree(s, run[..3], s1, s2, s3);
  }

  // ---- readers that are not the main thread ----

  /** Blocked for good: its status is Running, so the scheduler never picks it and no
      wake-up looks at it. */
  ghost predicate Stuck(s: State, t: nat) {
    && t in s.threads && t != s.main && s.threads[t].st.Running? && !s.threads[t].picked
    && (s.threads[t].pc.Blocked? || s.threads[t].pc.Parked?)
  }

  lemma StuckStays(s: State, step: Step, t: nat)
    requires Stuck(s, t) && Next(s, step).Some?
    ensures Stuck(Next(s, step).value, t)
  {
    hide SyscallFrame, FrameToContext, TimerFrame, TimerFrameToContext, Resumed, Notified, WokenWith, Killed, Apply;
  }

  lemma {:induction false} StuckForGood(s: State, run: seq<Step>, t: nat)
    requires Stuck(s, t) && After(s, run).Some?
    ensures Stuck(After(s, run).value, t)
  {
    hide Next, Stuck;
    if run != [] {
      StuckForGood(s, run[..|run| - 1], t);
      StuckStays(After(s, run[..|run| - 1]).value, run[|run| - 1], t);
    }
  }

  lemma GetsStuck(s: State, step: Step)
    requires Inv(s) && (step.BlockMain? || step.Doze?) && step.t != s.main && Next(s, step).Some?
    ensures Stuck(Next(s, step).value, step.t)
  {
    hide SyscallFrame, ContextOf, WakeOk;
    assert ThreadOk(s.threads[step.t], false);
  }

  /** A thread that is not the main thread and blocks on a pipe, a channel or the console
      never runs again, whatever happens. */
  lemma WorkerNeverResumes(s0: State, run: seq<Step>, step: Step, more: seq<Step>, path: Path)
    requires Initial(s0) && After(s0, run).Some? && (step.BlockMain? || step.Doze?) && step.t != s0.main
    requires Next(After(s0, run).value, step).Some? && After(Next(After(s0, run).value, step).value, more).Some?
    ensures var s := After(Next(After(s0, run).value, step).value, more).value;
      && step.t in s.threads && !s.threads[step.t].pc.User?
      && Next(s, Pick(step.t)).None? && Next(s, Resume(step.t, path)).None?
  {
    hide SyscallFrame, FrameToContext, TimerFrame, TimerFrameToContext, Resumed, Notified, WokenWith, Killed, Apply,
      After, Inv, Stopped, Dazed, Aimed;
    ReachableInv(s0, run);
    MainStays(s0, run);
    var s := After(s0, run).value;
    GetsStuck(s, step);
    StuckForGood(Next(s, step).value, more, step.t);
  }

  /** A thread reads an empty pipe, and `n` bytes are handed over before or after its
      frame is committed. */
  function ReadAndServe(t: nat, main: nat, n: Word, early: bool): seq<Step> {
    if early then [BlockMain(t, OnPipe), Notify(main, n), Commit(t)]
    else [BlockMain(t, OnPipe), Commit(t), Notify(main, n)]
  }

  lemma AfterThree(s: State, run: seq<Step>, s1: State, s2: State, s3: State)
    requires |run| == 3 && Next(s, run[0]) == Some(s1) && Next(s1, run[1]) == Some(s2) && Next(s2, run[2]) == Some(s3)
    ensures After(s, run) == Some(s3)
  {
    hide Next;
    assert run[..2][..1] == run[..1] && run[..1][..0] == [];
    assert After(s, run[..1]) == Next(s, run[0]);
    assert After(s, run[..2]) == Next(s1, run[1]);
  }

  /** The record of a main thread that has read a pipe and was handed `n` bytes. */
  function Served(x: Thread, n: Word, early: bool): Thread {
    var b := x.(pc := Blocked, st := Sleeping, wake := Asleep, foreign := false, wait := OnPipe);
    if early then Notified(b, n).(pc := Parked, committed := true) else Notified(b.(pc := Parked, committed := true), n)
  }

  lemma MainServed(s: State, n: Word, early: bool)
    requires Is(s, s.main, Kernel) && !s.threads[s.main].committed
    ensures After(s, ReadAndServe(s.main, s.main, n, early)) ==
      Some(With(s, s.main, Served(s.threads[s.main], n, early)))
    ensures var y := Served(s.threads[s.main], n, early);
      y.pc.Parked? && y.st.Ready? && Answer(y) == n && y.regs == s.threads[s.main].regs
  {
    hide After, SyscallFrame, Stopped, Dazed, Aimed;
    var m, x, run := s.main, s.threads[s.main], ReadAndServe(s.main, s.main, n, early);
    MainReads(s);
    var b := x.(pc := Blocked, st := Sleeping, wake := Asleep, foreign := false, wait := OnPipe);
    var s1 := With(s, m, b);
    var s2 := Next(s1, run[1]).value;
    var s3 := Next(s2, run[2]).value;
    assert s3.threads == s.threads[m := Served(x, n, early)];
    AfterThree(s, run, s1, s2, s3);
  }

  lemma MainReads(s: State)
    requires Is(s, s.main, Kernel)
    ensures Next(s, BlockMain(s.main, OnPipe)) ==
      Some(With(s, s.main, s.threads[s.main].(pc := Blocked, st := Sleeping, wake := Asleep, foreign := false,
        wait := OnPipe)))
  {
    var s' := Next(s, BlockMain(s.main, OnPipe)).value;
    assert s'.threads == s.threads[s.main := s'.threads[s.main]];
  }

  /** What a pipe read by another thread does to the two records. */
  lemma WorkerReads(s: State, t: nat)
    requires Is(s, t, Kernel) && t != s.main && s.main in s.threads && s.threads[t].st.Running?
    ensures var s1 := Next(s, BlockMain(t, OnPipe));
      && s1.Some? && s1.value.main == s.main && s.main in s1.value.threads && Is(s1.value, t, Blocked)
        && s1.value.threads[t].st.Running?
      && s1.value.threads[s.main].st.Sleeping? && s1.value.threads[s.main].wait.OnPipe?
  {
  }

  /** The commit and the wake are about different records, so their order is no matter. */
  lemma WorkerServed(s: State, t: nat, n: Word, early: bool)
    requires Is(s, t, Kernel) && t != s.main && s.main in s.threads && s.threads[t].st.Running?
    ensures var done := After(s, ReadAndServe(t, s.main, n, early));
      done.Some? && t in done.value.threads && done.value.threads[t].st.Running?
  {
    hide After, SyscallFrame, Notified, Stopped, Dazed, Aimed;
    var run := ReadAndServe(t, s.main, n, early);
    WorkerReads(s, t);
    var s1 := Next(s, run[0]).value;
    var s2 := Next(s1, run[1]).value;
    var s3 := Next(s2, run[2]).value;
    AfterThree(s, run, s1, s2, s3);
  }

  /** A main thread that was served can be picked, and resumes with all registers and rax
      equal to `n`. */
  lemma ServedResumes(s: State, n: Word, early: bool, path: Path)
    requires Inv(s) && Is(s, s.main, Kernel)
    ensures var done := After(s, ReadAndServe(s.main, s.main, n, early));
      && done.Some? && Next(done.value, Pick(s.main)).Some?
      && var picked := Next(done.value, Pick(s.main)).value;
      && Next(picked, Resume(s.main, path)).Some?
      && Next(picked, Resume(s.main, path)).value.threads[s.main].regs == s.threads[s.main].regs.(rax := n)
  {
    hide After, SyscallFrame, FrameToContext, ContextOf, PopSyscallFrame, PopContextFrame, ContextFrame, PopTimerFrame,
      TimerContextFrame, RestoredFrame, Resumed, Served, ReadAndServe, Stopped, Dazed, Aimed, Notified, WokenWith,
      Killed, Apply, WakeOk;
    assert ThreadOk(s.threads[s.main], true);
    MainServed(s, n, early);
    ServedOk(s.threads[s.main], n, early);
    ResumeRestores(Served(s.threads[s.main], n, early).(picked := true), path, true);
  }

  lemma WorkerIsNotPicked(s: State, t: nat, n: Word, early: bool)
    requires Inv(s) && Is(s, t, Kernel) && t != s.main && s.main in s.threads
    ensures var done := After(s, ReadAndServe(t, s.main, n, early)); done.Some? && Next(done.value, Pick(t)).None?
  {
    hide After, SyscallFrame, ContextOf, ReadAndServe, Resumed, Stopped, Dazed, Aimed, Notified, WokenWith, Killed,
      Apply, WakeOk;
    assert ThreadOk(s.threads[t], false);
    WorkerServed(s, t, n, early);
  }

  /** From any reachable state: the reader can be picked afterwards, and then resumes with
      all registers and rax equal to `n`, exactly when it is the main thread. */
  lemma ReaderServedIff(s0: State, run: seq<Step>, t: nat, n: Word, early: bool, path: Path)
    requires Initial(s0) && After(s0, run).Some? && s0.main in s0.threads && Is(After(s0, run).value, t, Kernel)
    ensures var s := After(s0, run).value;
      var done := After(s, ReadAndServe(t, s0.main, n, early));
      && done.Some? && (Next(done.value, Pick(t)).Some? <==> t == s0.main)
      && (t == s0.main ==>
            var picked := Next(done.value, Pick(t)).value;
            && Next(picked, Resume(t, path)).Some?
            && Next(picked, Resume(t, path)).value.threads[t].regs == s.threads[t].regs.(rax := n))
  {
    hide After, ReadAndServe, Next, Inv, Initial;
    ReachableInv(s0, run);
    MainStays(s0, run);
    var s := After(s0, run).value;
    if t == s.main {
      ServedResumes(s, n, early, path);
    } else {
      WorkerIsNotPicked(s, t, n, early);
    }
  }

  lemma ServedOk(x: Thread, n: Word, early: bool)
    requires ThreadOk(x, true) && x.pc.Kernel?
    ensures ThreadOk(Served(x, n, early).(picked := true), true)
  {
    hide SyscallFrame, FrameToContext, ContextOf;
    SyscallFrameFits(x.regs, n);
    ContextRax(x.regs, n);
  }

  /** Only a main thread that another thread put to sleep loses its CPU's notice. */
  lemma SlipsOnlyIfForeign(s0: State, run: seq<Step>, t: nat)
    requires Initial(s0) && After(s0, run).Some? && Next(After(s0, run).value, Slip(t)).Some?
    ensures t == After(s0, run).value.main && After(s0, run).value.threads[t].foreign
  {
    ReachableInv(s0, run);
  }

  /** No thread was put to sleep by another one, and none is forgotten. */
  ghost predicate Undisturbed(s: State) {
    forall t :: t in s.threads ==> !s.threads[t].foreign && !Drifted(s.threads[t].pc)
  }

  /** Only the main thread waits on a pipe, a channel or the console in this step. */
  predicate OnlyMainWaits(step: Step, main: nat) { step.BlockMain? || step.Doze? ==> step.t == main }

  lemma StepUndisturbed(s: State, step: Step)
    requires Inv(s) && Undisturbed(s) && Next(s, step).Some? && OnlyMainWaits(step, s.main)
    ensures Undisturbed(Next(s, step).value)
  {
    hide SyscallFrame, FrameToContext, TimerFrame, TimerFrameToContext, ContextOf, PopSyscallFrame, PopContextFrame,
      ContextFrame, PopTimerFrame, TimerContextFrame, RestoredFrame, WakeOk;
    var s' := Next(s, step).value;
    forall t | t in s'.threads ensures !s'.threads[t].foreign && !Drifted(s'.threads[t].pc) {
      assert ThreadOk(s.threads[t], t == s.main);
    }
  }

  lemma {:induction false} RunUndisturbed(s0: State, run: seq<Step>)
    requires Initial(s0) && After(s0, run).Some? && forall i :: 0 <= i < |run| ==> OnlyMainWaits(run[i], s0.main)
    ensures Undisturbed(After(s0, run).value)
  {
    hide Next, OnlyMainWaits, Undisturbed;
    if run == [] {
      InitialUndisturbed(s0);
    } else {
      var front, last := run[..|run| - 1], run[|run| - 1];
      RunUndisturbed(s0, front);
      ReachableInv(s0, front);
      MainStays(s0, front);
      StepUndisturbed(After(s0, front).value, last);
    }
  }

  lemma InitialUndisturbed(s: State)
    requires Initial(s)
    ensures Undisturbed(s)
  {
  }

  /** So in a process where only the main thread waits on pipes, channels and the console,
      every resume of every thread gives its registers back. */
  lemma SurviveIfOnlyMainWaits(s0: State, run: seq<Step>, t: nat, path: Path)
    requires Initial(s0) && After(s0, run).Some? && Next(After(s0, run).value, Resume(t, path)).Some?
    requires forall i :: 0 <= i < |run| ==> OnlyMainWaits(run[i], s0.main)
    ensures GivenBack(After(s0, run).value.threads[t],
      Next(After(s0, run).value, Resume(t, path)).value.threads[t].regs)
  {
    hide After, OnlyMainWaits;
    RunUndisturbed(s0, run);
    GivenBackIff(s0, run, t, path);
  }

  // ---- runs that go wrong ----

  lemma Extend(s: State, run: seq<Step>, step: Step)
    requires After(s, run).Some?
    ensures After(s, run + [step]) == Next(After(s, run).value, step)
  {
    assert (run + [step])[..|run|] == run;
  }

  lemma StartOf(s: State)
    ensures After(s, []) == Some(s)
  {
  }

  /** The main thread of a process, in user mode. */
  ghost predicate MainRuns(s: State) { Is(s, s.main, User) }

  lemma ResumedUncommitted(x: Thread)
    requires !x.committed
    ensures Resumed(x, Scheduler).retval == x.retval
  {
  }

  /** A pipe wake after the commit leaves its count behind. */
  lemma CountStays(s0: State, n: Word) returns (run: seq<Step>)
    requires Initial(s0) && MainRuns(s0)
    ensures After(s0, run).Some?
    ensures var s := After(s0, run).value; s.main == s0.main && MainRuns(s) && s.threads[s.main].retval == n
  {
    hide After, SyscallFrame, FrameToContext, Resumed, ContextOf;
    var m := s0.main;
    StartOf(s0);
    Extend(s0, [], Int80(m));
    run := [] + [Int80(m)];
    assert !s0.threads[m].committed;
    var s := After(s0, run).value;
    MainServed(s, n, false);
    ExtendBy(s0, run, ReadAndServe(m, m, n, false));
    run := run + ReadAndServe(m, m, n, false);
    Extend(s0, run, Pick(m));
    run := run + [Pick(m)];
    ResumedUncommitted(After(s0, run).value.threads[m]);
    ResumedRuns(After(s0, run).value.threads[m], Scheduler);
    Extend(s0, run, Resume(m, Scheduler));
    run := run + [Resume(m, Scheduler)];
  }

  lemma {:induction false} ExtendBy(s: State, run: seq<Step>, more: seq<Step>)
    requires After(s, run).Some?
    ensures After(s, run + more) == After(After(s, run).value, more)
  {
    hide Next;
    if more == [] {
      assert run + more == run;
    } else {
      var front := more[..|more| - 1];
      ExtendBy(s, run, front);
      assert (run + more)[..|run + more| - 1] == run + front;
    }
  }

  /** A wake with value 0 before the commit of the next call. */
  lemma WokenEarly(s0: State) returns (run: seq<Step>)
    requires Initial(s0) && MainRuns(s0)
    ensures After(s0, run).Some? && Is(After(s0, run).value, s0.main, Parked)
    ensures var x := After(s0, run).value.threads[s0.main];
      x.st.Ready? && x.committed && x.retval == 5 && x.wake == ByOther(0, false, 5)
  {
    hide After, SyscallFrame, FrameToContext, Resumed, ThreadOk, Inv, Initial, Dazed, Notified, Killed, Apply,
      TimerFrameToContext;
    var m := s0.main;
    run := CountStays(s0, 5);
    ReachableInv(s0, run);
    UserFacts(After(s0, run).value, m);
    Extend(s0, run, Int80(m));
    run := run + [Int80(m)];
    Extend(s0, run, BlockSelf(m));
    run := run + [BlockSelf(m)];
    Extend(s0, run, WakeWith(m, 0));
    run := run + [WakeWith(m, 0)];
    Extend(s0, run, Commit(m));
    run := run + [Commit(m)];
  }

  /** So the value of an early wake can be lost: the next one answers with the count of
      the pipe. */
  lemma EarlyWakeCanAnswerWrong(s0: State) returns (run: seq<Step>)
    requires Initial(s0) && MainRuns(s0)
    ensures After(s0, run).Some? && Next(After(s0, run).value, Resume(s0.main, Scheduler)).Some?
    ensures After(s0, run).value.threads[s0.main].wake == ByOther(0, false, 5)
    ensures Next(After(s0, run).value, Resume(s0.main, Scheduler)).value.threads[s0.main].regs.rax == 5
  {
    hide After, SyscallFrame, FrameToContext, Resumed, ThreadOk, Inv, Initial, Stopped, Dazed, Aimed, Notified,
      WokenWith, Killed, Apply, TimerFrameToContext;
    var m := s0.main;
    run := WokenEarly(s0);
    Extend(s0, run, Pick(m));
    run := run + [Pick(m)];
    ReachableInv(s0, run);
    RaxIsAnswer(After(s0, run).value, m, Scheduler);
  }

  lemma UserFacts(s: State, t: nat)
    requires Inv(s) && Is(s, t, User)
    ensures !s.threads[t].committed && !s.threads[t].picked
  {
    assert ThreadOk(s.threads[t], t == s.main);
  }

  lemma RaxIsAnswer(s: State, t: nat, path: Path)
    requires Inv(s) && Is(s, t, Parked) && s.threads[t].picked
    ensures Resumed(s.threads[t], path).regs.rax == Answer(s.threads[t])
  {
    hide Resumed;
    assert ThreadOk(s.threads[t], t == s.main);
    ResumeRestores(s.threads[t], path, t == s.main);
  }

  /** The main thread sleeps in a call of its own, and another thread is in the kernel. */
  lemma MainSleeps(s0: State, t: nat) returns (run: seq<Step>)
    requires Initial(s0) && MainRuns(s0) && Is(s0, t, User) && t != s0.main
    ensures forall i :: 0 <= i < |run| ==> !run[i].BlockMain?
    ensures After(s0, run).Some? && After(s0, run).value.main == s0.main
    ensures var s := After(s0, run).value;
      Is(s, s0.main, Parked) && s.threads[s0.main].committed && Is(s, t, Kernel) && s.threads[t].st.Running?
        && !s.threads[t].picked
  {
    hide After, SyscallFrame;
    var m := s0.main;
    StartOf(s0);
    Extend(s0, [], Int80(m));
    run := [] + [Int80(m)];
    Extend(s0, run, BlockSelf(m));
    run := run + [BlockSelf(m)];
    Extend(s0, run, Commit(m));
    run := run + [Commit(m)];
    Extend(s0, run, Int80(t));
    run := run + [Int80(t)];
  }

  /** The main thread sleeps; another thread reads a pipe; the main thread is answered
      with the bytes of that read, and the reader is stuck. */
  lemma MainAnsweredForWorker(s0: State, t: nat) returns (run: seq<Step>)
    requires Initial(s0) && MainRuns(s0) && Is(s0, t, User) && t != s0.main
    ensures forall i :: 0 <= i < |run| && run[i].BlockMain? ==> run[i].t == t
    ensures After(s0, run).Some? && Stuck(After(s0, run).value, t) && MainRuns(After(s0, run).value)
    ensures After(s0, run).value.main == s0.main && After(s0, run).value.threads[s0.main].regs.rax == 5
  {
    hide After, SyscallFrame, FrameToContext, ContextOf, Resumed, Inv;
    var m := s0.main;
    run := MainSleeps(s0, t);
    Extend(s0, run, BlockMain(t, OnPipe));
    run := run + [BlockMain(t, OnPipe)];
    Extend(s0, run, Commit(t));
    run := run + [Commit(t)];
    Extend(s0, run, Notify(m, 5));
    run := run + [Notify(m, 5)];
    assert Answer(After(s0, run).value.threads[m]) == 5 by { ContextTakes(After(s0, run).value.threads[m].frame, 5); }
    Extend(s0, run, Pick(m));
    run := run + [Pick(m)];
    ReachableInv(s0, run);
    RaxIsAnswer(After(s0, run).value, m, Scheduler);
    ResumedRuns(After(s0, run).value.threads[m], Scheduler);
    Extend(s0, run, Resume(m, Scheduler));
    run := run + [Resume(m, Scheduler)];
  }

  /** The timer saves the main thread; before the scheduler looks, another thread reads a
      pipe and so puts it to sleep; its CPU has nothing to run and goes on with it. */
  lemma MainDrifts(s0: State, t: nat) returns (run: seq<Step>)
    requires Initial(s0) && MainRuns(s0) && Is(s0, t, User) && t != s0.main
    ensures After(s0, run).Some? && After(s0, run).value.main == s0.main
    ensures var s := After(s0, run).value;
      && Strays(s, s0.main) && s.threads[s0.main].st.Sleeping? && s.threads[s0.main].wait.OnPipe?
      && s.threads[s0.main].saved == s0.threads[s0.main].regs && !s.threads[s0.main].committed
  {
    hide After, SyscallFrame, TimerFrame, TimerFrameToContext, ContextOf;
    var m := s0.main;
    StartOf(s0);
    Extend(s0, [], Int80(t));
    run := [] + [Int80(t)];
    Extend(s0, run, Preempt(m));
    run := run + [Preempt(m)];
    Extend(s0, run, BlockMain(t, OnPipe));
    run := run + [BlockMain(t, OnPipe)];
    Extend(s0, run, Slip(m));
    run := run + [Slip(m)];
  }

  /** It computes, and if `calls` then makes a system call that does not return. */
  lemma MainStrays(s0: State, t: nat, r: Regs, calls: bool) returns (run: seq<Step>)
    requires Initial(s0) && MainRuns(s0) && Is(s0, t, User) && t != s0.main && UserMode(r)
    ensures After(s0, run).Some? && s0.main in After(s0, run).value.threads
    ensures var x := After(s0, run).value.threads[s0.main];
      && x.regs == r && x.saved == s0.threads[s0.main].regs && (x.pc == if calls then Lost else Adrift)
      && x.st.Sleeping? && x.wait.OnPipe? && !x.committed
  {
    hide After, SyscallFrame, Notified, WokenWith, Killed, Apply, Resumed, Stopped, Dazed, Aimed, TimerFrameToContext;
    var m := s0.main;
    run := MainDrifts(s0, t);
    Extend(s0, run, Compute(m, r));
    run := run + [Compute(m, r)];
    if calls {
      Extend(s0, run, Call(m));
      run := run + [Call(m)];
      Extend(s0, run, Lose(m));
      run := run + [Lose(m)];
    }
  }

  /** All of that is undone: it resumes where the timer had saved it. */
  lemma DriftUndoesWork(s0: State, t: nat, r: Regs, calls: bool) returns (run: seq<Step>)
    requires Initial(s0) && MainRuns(s0) && Is(s0, t, User) && t != s0.main && UserMode(r)
    ensures After(s0, run).Some? && Next(After(s0, run).value, Resume(s0.main, TimerInUser)).Some?
    ensures var x := After(s0, run).value.threads[s0.main];
      x.regs == r && x.pc == if calls then Lost else Adrift
    ensures var y := Next(After(s0, run).value, Resume(s0.main, TimerInUser)).value.threads[s0.main];
      y.regs == s0.threads[s0.main].regs
  {
    hide After, SyscallFrame, WokenWith, Killed, Apply, Resumed, Stopped, Dazed, Aimed, TimerFrameToContext, Initial;
    var m := s0.main;
    run := MainStrays(s0, t, r, calls);
    Extend(s0, run, Notify(m, 5));
    run := run + [Notify(m, 5)];
    Extend(s0, run, Pick(m));
    run := run + [Pick(m)];
    RegistersSurvive(s0, run, m, TimerInUser);
  }

  lemma ContextTakes(f: Frame, v: Word)
    ensures FrameToContext(f, v).rax == v
  {
  }
}
