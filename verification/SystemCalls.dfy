/** System calls seen from the program: what an SVC does to it, and how a blocked one is retried. */
module SystemCalls {
  import opened Definitions
  import opened Words
  import opened Processor
  import opened Context

  /** A call latched at the end of its cycle, with room for its frame and asynchronous latches at most. */
  predicate CallPending(m: Hw) {
    && m.cpu.interrupts && Syscall in m.pending && m.pending <= {Timer, IoDone, Syscall}
    && Roomy(m.cpu) && Savable(m.cpu) && 1 <= m.cpu.pc <= RAM_SIZE
  }

  /** The service, its readability and its parameter, all taken from the user's registers and stack top. */
  function Requested(m: Hw): int { WordToInt(m.cpu.ac) }
  function Parameter(m: Hw, junk: int): int { WordToInt(Read(m, m.cpu.sp, junk)) }

  /** What the call asks of the kernel or shows to the user. */
  function CallEffect(m: Hw, env: Env): Effect {
    var readable, param := Addressable(m.cpu, m.cpu.sp), Parameter(m, env.junk);
    match Requested(m)
    case 2 => if !readable then NoEffect else if env.monitor then Prints(param) else AwaitsMonitor
    case 3 => if env.monitor then NoEffect else AwaitsMonitor
    case 4 => if !readable || param == 0 then NoEffect else if param < 0 then RejectsSleep(param) else Sleeps(param)
    case _ => NoEffect
  }

  /** Exit, a negative sleep and an unreadable parameter end the process. */
  predicate CallEnds(m: Hw, env: Env) {
    || Requested(m) == 1
    || (Requested(m) in {2, 4} && !Addressable(m.cpu, m.cpu.sp))
    || CallEffect(m, env).RejectsSleep?
  }

  /** The registers a surviving caller sees: a blocked one is back on its SVC, a reader finds its input in AC. */
  function AfterCall(m: Hw, env: Env): Cpu {
    m.cpu.(pc := if CallEffect(m, env).AwaitsMonitor? then m.cpu.pc - 1 else m.cpu.pc,
           ac := if Requested(m) == 3 && env.monitor then IntToWord(env.input) else m.cpu.ac)
  }

  // ---------------------------------------------------------------- the handler on a saved frame

  ghost predicate SavedFrom(m: Hw, saved: Hw) {
    && 7 <= Top(m.cpu) <= RAM_SIZE
    && saved == m.(cpu := m.cpu.(sp := m.cpu.sp - 7, interrupts := false), ram := WithFrame(m.ram, Top(m.cpu), m.cpu))
  }

  /** The rewind moves the saved program counter back by exactly one and touches no other saved word. */
  lemma RewindEffect(m: Hw, saved: Hw, junk: int)
    requires CallPending(m) && SavedFrom(m, saved)
    ensures var r := RewindSavedPc(saved, junk);
            && r == saved.(cpu := saved.cpu.(cc := r.cpu.cc), ram := saved.ram[Top(m.cpu) - 6 := m.cpu.pc - 1])
  {
    FrameWords(m.ram, Top(m.cpu), m.cpu);
    Between(m.cpu, m.cpu.sp - 7, m.cpu.sp - 6, m.cpu.sp - 1);
    assert Read(saved, saved.cpu.sp + 1, junk) == m.cpu.pc;
    assert WordToInt(m.cpu.pc) == m.cpu.pc;
    assert IntToWord(m.cpu.pc - 1) == m.cpu.pc - 1 && Storable(m.cpu.pc - 1);
  }

  function FrameAfter(m: Hw, saved: Hw, env: Env): Memory
    requires 7 <= Top(m.cpu) <= RAM_SIZE
  {
    if CallEffect(m, env).AwaitsMonitor? then saved.ram[Top(m.cpu) - 6 := m.cpu.pc - 1]
    else if Requested(m) == 3 then saved.ram[Top(m.cpu) - 7 := IntToWord(env.input)]
    else saved.ram
  }

  lemma InputEffect(m: Hw, saved: Hw, input: int)
    requires CallPending(m) && SavedFrom(m, saved)
    ensures var on := saved.(cpu := saved.cpu.(cc := CodeOf(input)));
            Write(on, saved.cpu.sp, IntToWord(input)) == on.(ram := saved.ram[Top(m.cpu) - 7 := IntToWord(input)])
  {
    IntToWordRange(input);
  }

  /** A call's result on a saved frame, in terms of the user's own registers. */
  ghost predicate HandledAs(m: Hw, saved: Hw, env: Env, r: SyscallResult)
    requires SavedFrom(m, saved)
  {
    && (r.verdict == Halt <==> CallEnds(m, env)) && r.effect == CallEffect(m, env)
    && (r.verdict == Block <==> r.effect.AwaitsMonitor? || r.effect.Sleeps?)
    && r.m == saved.(cpu := saved.cpu.(cc := r.m.cpu.cc), ram := FrameAfter(m, saved, env))
  }

  /** The parameter the handler reads above the frame is the user's stack top. */
  lemma ParameterAbove(m: Hw, saved: Hw, junk: int)
    requires CallPending(m) && SavedFrom(m, saved)
    ensures Addressable(saved.cpu, m.cpu.sp) == Addressable(m.cpu, m.cpu.sp)
    ensures Read(saved, m.cpu.sp, junk) == Read(m, m.cpu.sp, junk)
  {
    FrameWords(m.ram, Top(m.cpu), m.cpu);
  }

  lemma MonitorServices(m: Hw, saved: Hw, env: Env)
    requires CallPending(m) && SavedFrom(m, saved) && Requested(m) in {2, 3}
    ensures HandledAs(m, saved, env, HandleSyscall(saved, env))
  {
    ParameterAbove(m, saved, env.junk);
    RewindEffect(m, saved, env.junk);
    InputEffect(m, saved, env.input);
    hide RewindSavedPc, WordToInt, IntToWord, Write, Read, AccessStatus, WithFrame, CodeOf, CallPending;
  }

  lemma OtherServices(m: Hw, saved: Hw, env: Env)
    requires CallPending(m) && SavedFrom(m, saved) && Requested(m) !in {2, 3}
    ensures HandledAs(m, saved, env, HandleSyscall(saved, env))
  {
    ParameterAbove(m, saved, env.junk);
    hide RewindSavedPc, WordToInt, IntToWord, Write, Read, AccessStatus, WithFrame, CodeOf, CallPending;
  }

  lemma HandlerEffect(m: Hw, saved: Hw, env: Env)
    requires CallPending(m) && SavedFrom(m, saved)
    ensures var h := HandleInterrupt(saved, Syscall, env);
            && h.alive == !CallEnds(m, env) && h.effect == CallEffect(m, env)
            && h.m == saved.(cpu := saved.cpu.(cc := h.m.cpu.cc), ram := FrameAfter(m, saved, env), osYield := h.m.osYield)
            && h.m.osYield == (m.osYield || h.effect.AwaitsMonitor? || h.effect.Sleeps?)
  {
    hide HandleSyscall, CallEnds, CallEffect, FrameAfter, CallPending;
    if Requested(m) in {2, 3} { MonitorServices(m, saved, env); } else { OtherServices(m, saved, env); }
  }

  /** Servicing a call: its outcome, the caller's registers afterwards, and no change outside seven dead stack words. */
  lemma CallService(m: Hw, env: Env)
    requires CallPending(m)
    ensures var r := Service(m, Syscall, env);
            && r.alive == !CallEnds(m, env) && r.effect == CallEffect(m, env)
            && (r.alive ==> r.m.cpu == AfterCall(m, env))
            && OnlyBelow(m.ram, r.m.ram, Top(m.cpu))
            && r.m.pending == m.pending - {Syscall}
            && r.m.osYield == (m.osYield || r.effect.AwaitsMonitor? || r.effect.Sleeps?)
            && r.m.disk == m.disk && r.m.dma == m.dma
  {
    hide SaveContext, RestoreContext, HandleInterrupt, WithFrame, CallEffect, CallEnds, Requested, IntToWord, Storable;
    var off := m.(cpu := m.cpu.(interrupts := false));
    SaveContextEffect(off);
    FrameOmitsEnable(m);
    var saved := SaveContext(off);
    FrameWords(m.ram, Top(m.cpu), m.cpu);
    HandlerEffect(m, saved, env);
    var h := HandleInterrupt(saved, Syscall, env);
    if h.alive {
      InputMeansNoWait(m, env);
      RestoreContextEffect(h.m.(pending := h.m.pending - {Syscall}), off.cpu, Syscall);
    }
  }

  lemma FrameOmitsEnable(m: Hw)
    requires 7 <= Top(m.cpu) <= RAM_SIZE
    ensures WithFrame(m.ram, Top(m.cpu), m.cpu.(interrupts := false)) == WithFrame(m.ram, Top(m.cpu), m.cpu)
  {
  }

  lemma InputMeansNoWait(m: Hw, env: Env)
    ensures Requested(m) == 3 ==> (CallEffect(m, env).AwaitsMonitor? <==> !env.monitor)
  {
  }

  // ---------------------------------------------------------------- the cycle of an SVC

  /** The next instruction is an SVC that can be fetched and has room for its frame. */
  predicate AtCall(m: Hw) {
    && Addressable(m.cpu, m.cpu.pc) && NextInstruction(m).opCode == OP_SVC
    && m.cpu.interrupts && m.pending <= {Timer, IoDone}
    && Roomy(m.cpu) && Savable(m.cpu) && 0 <= m.cpu.pc < RAM_SIZE
  }

  lemma SyscallCycle(m: Hw, env: Env)
    requires AtCall(m)
    ensures var n := AfterInstruction(m, env.junk);
            && CallPending(n) && CpuStep(m, env) == Service(n, Syscall, env)
            && Visible(n.cpu) == Visible(m.cpu).(pc := m.cpu.pc + 1)
            && n.ram == m.ram && n.osYield == m.osYield && n.disk == m.disk && n.dma == m.dma
            && m.pending <= n.pending - {Syscall} <= m.pending + {Timer}
  {
    hide Service;
    var n := AfterInstruction(m, env.junk);
    assert n == CountCycle(Raise(Fetched(m), Syscall));
    assert MostUrgent(n.pending) == Syscall;
  }

  /**
   A call that cannot proceed until the monitor opens leaves every visible register as before its fetch, with the
   program counter back on the SVC, asks for a reschedule, and alters only dead stack words.
   */
  lemma BlockedCallRestarts(m: Hw, env: Env)
    requires AtCall(m) && !env.monitor && (m.cpu.ac == 3 || (m.cpu.ac == 2 && Addressable(m.cpu, m.cpu.sp)))
    ensures var r := CpuStep(m, env);
            && r.alive && r.effect == AwaitsMonitor && r.m.osYield
            && Visible(r.m.cpu) == Visible(m.cpu)
            && OnlyBelow(m.ram, r.m.ram, Top(m.cpu))
            && m.pending <= r.m.pending <= m.pending + {Timer}
            && r.m.disk == m.disk && r.m.dma == m.dma
  {
    hide Service, CpuStep, AfterInstruction;
    SyscallCycle(m, env);
    CallService(AfterInstruction(m, env.junk), env);
  }

  /** With the monitor open, service 2 prints the word on top of the stack and goes on to the next instruction. */
  lemma OpenCallPrints(m: Hw, env: Env)
    requires AtCall(m) && env.monitor && m.cpu.ac == 2 && Addressable(m.cpu, m.cpu.sp)
    ensures var r := CpuStep(m, env);
            && r.alive && r.effect == Prints(WordToInt(Read(m, m.cpu.sp, 0)))
            && Visible(r.m.cpu) == Visible(m.cpu).(pc := m.cpu.pc + 1)
  {
    hide Service, CpuStep, AfterInstruction;
    SyscallCycle(m, env);
    CallService(AfterInstruction(m, env.junk), env);
  }

  /** The registers of a caller that goes on behind its call. */
  ghost predicate GoesOn(m: Hw, r: StepResult, e: Effect) {
    r.alive && r.effect == e && Visible(r.m.cpu) == Visible(m.cpu).(pc := m.cpu.pc + 1)
  }

  /**
   Services 1 and 4 and unknown ones, by the number in AC and the word on top of the stack: 1 ends the process; 4 asks to
   sleep for that many ticks, goes on at once for zero, and ends the process for a negative number or an unreadable one;
   any other number does nothing.
   */
  lemma ServiceMeans(m: Hw, env: Env)
    requires AtCall(m) && WordToInt(m.cpu.ac) !in {2, 3}
    ensures var service, readable, ticks, r := WordToInt(m.cpu.ac), Addressable(m.cpu, m.cpu.sp), Parameter(m, 0), CpuStep(m, env);
            if service == 1 then !r.alive && r.effect == NoEffect
            else if service == 4 && !readable then !r.alive && r.effect == NoEffect
            else if service == 4 && ticks < 0 then !r.alive && r.effect == RejectsSleep(ticks)
            else if service == 4 && ticks > 0 then GoesOn(m, r, Sleeps(ticks)) && r.m.osYield
            else GoesOn(m, r, NoEffect)
  {
    hide Service, CpuStep, AfterInstruction, WordToInt;
    SyscallCycle(m, env);
    CallService(AfterInstruction(m, env.junk), env);
    assert Visible(m.cpu).ac == m.cpu.ac && Visible(AfterInstruction(m, env.junk).cpu).ac == AfterInstruction(m, env.junk).cpu.ac;
  }

  /** What is guaranteed about a process between being switched out and running again. */
  ghost predicate Undisturbed(out: Hw, again: Hw) {
    && Visible(again.cpu) == Visible(out.cpu)
    && (forall a :: out.cpu.rb <= a <= out.cpu.rl && 0 <= a < RAM_SIZE ==> again.ram[a] == out.ram[a])
    && again.pending <= {Timer, IoDone}
  }

  /** A print or read call of a user program, outside the stack words that saving a context overwrites. */
  predicate AtMonitorCall(m: Hw) {
    && AtCall(m) && m.cpu.mode == MODE_USER && !(m.cpu.sp - 7 <= m.cpu.pc < m.cpu.sp)
    && (m.cpu.ac == 3 || (m.cpu.ac == 2 && Addressable(m.cpu, m.cpu.sp)))
  }

  /** What one attempt at it shows, `v` being the word on top of the stack. */
  function AttemptEffect(c: Cpu, v: int, env: Env): Effect {
    if !env.monitor then AwaitsMonitor else if c.ac == 2 then Prints(v) else NoEffect
  }

  /** The registers one attempt leaves: those before it, or behind the call with the typed number in AC. */
  function AttemptResult(c: Cpu, env: Env): Cpu {
    if !env.monitor then c else c.(pc := c.pc + 1, ac := if c.ac == 3 then IntToWord(env.input) else c.ac)
  }

  lemma Attempt(m: Hw, env: Env)
    requires AtMonitorCall(m)
    ensures var r := CpuStep(m, env);
            && r.alive && r.effect == AttemptEffect(m.cpu, Parameter(m, 0), env)
            && Visible(r.m.cpu) == AttemptResult(Visible(m.cpu), env)
            && OnlyBelow(m.ram, r.m.ram, Top(m.cpu)) && r.m.pending <= {Timer, IoDone}
  {
    hide Service, CpuStep, AfterInstruction, IntToWord;
    SyscallCycle(m, env);
    CallService(AfterInstruction(m, env.junk), env);
  }

  /** Such a call is the same call wherever registers, instruction and stack top agree. */
  lemma SameCall(m: Hw, again: Hw)
    requires AtMonitorCall(m) && Visible(again.cpu) == Visible(m.cpu) && again.pending <= {Timer, IoDone}
    requires Read(again, m.cpu.pc, 0) == Read(m, m.cpu.pc, 0) && Read(again, m.cpu.sp, 0) == Read(m, m.cpu.sp, 0)
    ensures AtMonitorCall(again) && Parameter(again, 0) == Parameter(m, 0)
  {
    SameRoom(m.cpu, again.cpu);
    assert Visible(m.cpu).interrupts && Visible(m.cpu).ac == m.cpu.ac;
  }

  lemma CallWaits(m: Hw, again: Hw)
    requires AtMonitorCall(m) && Undisturbed(m, again)
    ensures AtMonitorCall(again) && Parameter(again, 0) == Parameter(m, 0)
  {
    SameCall(m, again);
  }

  /** So it is when it is retried after having found the monitor closed. */
  lemma RetryIsSameCall(m: Hw, env: Env, again: Hw)
    requires AtMonitorCall(m) && !env.monitor && Undisturbed(CpuStep(m, env).m, again)
    ensures AtMonitorCall(again) && Parameter(again, 0) == Parameter(m, 0)
  {
    hide CpuStep;
    Attempt(m, env);
    SameCall(m, CpuStep(m, env).m);
    CallWaits(CpuStep(m, env).m, again);
  }
}
