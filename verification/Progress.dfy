/** Liveness in numbers: every quantum ends, and every READY process gets the CPU. */
module Progress {
  import opened Definitions
  import opened Processor
  import opened Words
  import opened Context
  import opened Confinement
  import opened Kernel
  import opened Invariants
  import opened Scheduling
  import opened Isolation

  const MAX_SPAN := 1700 // RAM_SIZE - OS_RESERVED_SIZE

  /** Resumed at zero after a frame has replaced the words below SP; only possible with SP below six. */
  predicate Overwritten(m: Hw)
    requires Sound(m.cpu)
  {
    var c := m.cpu;
    && c.pc == 0 && c.sp < 6
    && (c.sp == 4 ==> m.ram[c.rb] == 0)
    && (c.sp == 5 ==> 0 <= m.ram[c.rb] <= 3 && m.ram[c.rb + 1] == 0 && m.ram[c.rb + 2] == c.rb && m.ram[c.rb + 3] == c.rl)
  }

  /** How many more cycles a process with a pending timer can take without a tick. */
  function DelayBudget(m: Hw): int
    requires Sound(m.cpu)
  {
    if m.cpu.sp >= 6 then (if 0 <= m.cpu.pc < Span(m.cpu) then Span(m.cpu) - m.cpu.pc else 0)
    else if !Overwritten(m) then 2
    else if m.cpu.sp == 5 && WordToInt(m.cpu.ac) > MAX_MAGNITUDE - RAM_SIZE then 1
    else 0
  }

  /** How many more cycles the running process can take without a tick. */
  function HwBudget(m: Hw): int
    requires Sound(m.cpu)
  {
    if Timer in m.pending then DelayBudget(m) else Span(m.cpu) + (2 - m.cpu.cycles)
  }

  function Budget(s: Sys): int {
    if s.current == -1 || !Sound(s.hw.cpu) then 0 else HwBudget(s.hw)
  }

  lemma BudgetBounds(s: Sys)
    requires Inv(s) && Fenced(s)
    ensures 0 <= Budget(s) <= MAX_SPAN + 2
    ensures s.current != -1 ==> Budget(s) <= Span(s.hw.cpu) + 2
  {
    if s.current != -1 { ActiveIsSnug(s); }
  }

  /** With the timer pending, a cycle that survives without yielding latched an overflow or a call and fell through. */
  lemma OnlyOverflowOrCall(m: Hw, n: Hw, env: Env)
    requires Sound(m.cpu) && m.cpu.sp >= 4 && m.pending <= ASYNCHRONOUS && Timer in m.pending && ConfinedNext(m) && Addressable(m.cpu, m.cpu.pc)
    requires n == AfterInstruction(m, env.junk)
    requires CpuStep(m, env).alive && !CpuStep(m, env).m.osYield
    ensures CpuStep(m, env) == Service(n, MostUrgent(n.pending), env)
    ensures MostUrgent(n.pending) in {Overflow, Syscall} && Timer in n.pending
    ensures n.cpu.pc == m.cpu.pc + 1 && n.cpu.sp == m.cpu.sp && SameBounds(m.cpu, n.cpu) && Sound(n.cpu)
  {
    hide AfterInstruction, Service;
    ConfinedCycle(m, env.junk);
    assert Timer in n.pending;
    ConfinedService(n, MostUrgent(n.pending), env);
  }

  /** With room for the program counter, each delaying cycle moves it on by one. */
  lemma RoomyDelay(m: Hw, env: Env)
    requires Sound(m.cpu) && m.cpu.sp >= 6 && m.pending <= ASYNCHRONOUS && Timer in m.pending && ConfinedNext(m)
    requires CpuStep(m, env).alive && !CpuStep(m, env).m.osYield
    ensures var r := CpuStep(m, env).m;
            Sound(r.cpu) && Timer in r.pending && DelayBudget(r) < DelayBudget(m)
  {
    hide AfterInstruction, Service;
    var n := AfterInstruction(m, env.junk);
    OnlyOverflowOrCall(m, n, env);
    ConfinedService(n, MostUrgent(n.pending), env);
  }

  /** Without it, the frame itself is executed next: additions of small words, of which at most one overflows. */
  lemma FrameInstruction(m: Hw, junk: int)
    requires Sound(m.cpu) && Snug(m.cpu) && m.cpu.sp >= 4 && m.pending <= ASYNCHRONOUS && Overwritten(m)
    ensures Addressable(m.cpu, 0) && NextInstruction(m) == Instruction(OP_SUM, DIRECT, m.ram[m.cpu.rb])
    ensures var f := FetchOperand(Fetched(m), NextInstruction(m), junk);
            && (m.cpu.sp == 4 ==> f.ok && f.word == 0)
            && (m.cpu.sp == 5 ==> f.ok && 0 <= f.word < RAM_SIZE)
  {
  }

  lemma FrameCycle(m: Hw, junk: int)
    requires Sound(m.cpu) && Snug(m.cpu) && m.cpu.sp >= 4 && m.pending <= ASYNCHRONOUS && Overwritten(m)
    ensures var n := AfterInstruction(m, junk);
            && Syscall !in n.pending
            && (DelayBudget(m) == 0 && InvalidAddr !in n.pending ==> Overflow !in n.pending)
            && (Overflow in n.pending && InvalidAddr !in n.pending ==> m.cpu.sp == 5 && MAX_MAGNITUDE < n.related < MAX_MAGNITUDE + RAM_SIZE)
  {
    assert m.cpu.sp < 6;
    hide FetchOperand, ExecuteArithmetic, TruncMod, Overwritten;
    FrameInstruction(m, junk);
    var f := Fetched(m);
    var inst := NextInstruction(m);
    var o := ExecuteArithmetic(f, inst, junk).m;
    assert AfterInstruction(m, junk) == CountCycle(o);
    WordToIntRange(m.cpu.ac);
    ArithmeticEffect(f, inst, junk);
    SmallWord(FetchOperand(f, inst, junk).word);
    SumIs(WordToInt(m.cpu.ac), WordToInt(FetchOperand(f, inst, junk).word));
  }

  lemma SmallWord(w: int)
    ensures 0 <= w < RAM_SIZE ==> WordToInt(w) == w
  {
  }

  lemma SumIs(a: int, b: int)
    ensures Exact(OP_SUM, a, b) == a + b
  {
  }

  lemma CutSum(v: int)
    requires MAX_MAGNITUDE < v < MAX_MAGNITUDE + RAM_SIZE
    ensures WordToInt(IntToWord(TruncMod(v, SIGN_BIT))) <= MAX_MAGNITUDE - RAM_SIZE
  {
  }

  lemma ShortDelay(m: Hw, env: Env)
    requires Sound(m.cpu) && Snug(m.cpu) && 4 <= m.cpu.sp < 6 && m.pending <= ASYNCHRONOUS && Timer in m.pending && ConfinedNext(m)
    requires CpuStep(m, env).alive && !CpuStep(m, env).m.osYield
    ensures var r := CpuStep(m, env).m;
            Sound(r.cpu) && Timer in r.pending && DelayBudget(r) < DelayBudget(m)
  {
    hide AfterInstruction, Service, WordToInt, IntToWord, TruncMod;
    var n := AfterInstruction(m, env.junk);
    OnlyOverflowOrCall(m, n, env);
    var code := MostUrgent(n.pending);
    ConfinedService(n, code, env);
    ShortService(n, code, env);
    var r := Service(n, code, env).m;
    assert Overwritten(r);
    if Overwritten(m) {
      FrameCycle(m, env.junk);
      CutSum(n.related);
    }
  }

  /** A cycle that neither ends the process nor yields uses up budget. */
  lemma CycleSpendsBudget(m: Hw, env: Env)
    requires Sound(m.cpu) && Snug(m.cpu) && m.cpu.sp >= 4 && m.pending <= ASYNCHRONOUS && ConfinedNext(m)
    requires CpuStep(m, env).alive && !CpuStep(m, env).m.osYield
    ensures Sound(CpuStep(m, env).m.cpu) && HwBudget(CpuStep(m, env).m) < HwBudget(m)
  {
    hide AfterInstruction, Service;
    if Timer in m.pending {
      if m.cpu.sp >= 6 { RoomyDelay(m, env); } else { ShortDelay(m, env); }
    } else {
      ConfinedCycle(m, env.junk);
      var n := AfterInstruction(m, env.junk);
      if n.pending != {} {
        ConfinedService(n, MostUrgent(n.pending), env);
      }
    }
  }

  /** A surviving DMA cycle finds no timer pending or due, or yields to it. */
  lemma DmaSpendsBudget(m: Hw, env: Env)
    requires Sound(m.cpu) && m.cpu.sp >= 4 && m.pending <= ASYNCHRONOUS && Addressable(m.cpu, m.cpu.pc) && GuardedDma(m)
    requires CpuStep(m, env).alive && !CpuStep(m, env).m.osYield
    ensures Sound(CpuStep(m, env).m.cpu) && HwBudget(CpuStep(m, env).m) < HwBudget(m)
  {
    hide AfterInstruction, Service, GuardedDma;
    DmaCycle(m, env.junk);
    var n := AfterInstruction(m, env.junk);
    if n.pending != {} { ConfinedService(n, MostUrgent(n.pending), env); }
  }

  lemma ContainedSpendsBudget(m: Hw, env: Env)
    requires Sound(m.cpu) && Snug(m.cpu) && m.cpu.sp >= 4 && m.pending <= ASYNCHRONOUS && ContainedNext(m)
    requires CpuStep(m, env).alive && !CpuStep(m, env).m.osYield
    ensures Sound(CpuStep(m, env).m.cpu) && HwBudget(CpuStep(m, env).m) < HwBudget(m)
  {
    hide CheckInterrupts, AfterInstruction, NextInstruction, Snug, GuardedDma, Confined, HwBudget, Sound;
    if Addressable(m.cpu, m.cpu.pc) && !Confined(NextInstruction(m)) {
      DmaSpendsBudget(m, env);
    } else {
      CycleSpendsBudget(m, env);
    }
  }

  lemma IterationSpendsBudget(s: Sys, env: Env)
    requires Inv(s) && Fenced(s) && s.current != -1 && ContainedNext(s.hw) && !Ticks(s, env)
    ensures Budget(WorkerIteration(s, env)) < Budget(s)
  {
    hide CpuStep, ContainedNext, Sound, HwBudget, Snug;
    ActiveIsSnug(s);
    ContainedSpendsBudget(s.hw, env.(monitor := s.monitor));
  }

  /** The budget depends on the running process's registers, the latches and its own RAM alone. */
  lemma SameBudget(s: Sys, t: Sys)
    requires t.current == s.current && t.hw.cpu == s.hw.cpu && t.hw.pending == s.hw.pending
    requires s.current != -1 && Sound(s.hw.cpu)
    requires forall a :: s.hw.cpu.rb <= a <= s.hw.cpu.rl && 0 <= a < RAM_SIZE ==> t.hw.ram[a] == s.hw.ram[a]
    ensures Budget(t) == Budget(s)
  {
    var c := s.hw.cpu;
    if c.sp < 6 {
      assert t.hw.ram[c.rb] == s.hw.ram[c.rb];
      if c.sp == 5 {
        assert t.hw.ram[c.rb + 1] == s.hw.ram[c.rb + 1] && t.hw.ram[c.rb + 2] == s.hw.ram[c.rb + 2];
        assert t.hw.ram[c.rb + 3] == s.hw.ram[c.rb + 3];
      }
    }
  }

  /** Steps of the loader and of the user leave the running process's budget alone. */
  lemma QuietStepKeepsBudget(s: Sys, step: Step)
    requires Inv(s) && Fenced(s) && Enabled(s, step) && !step.Cycle?
    ensures Budget(Apply(s, step)) == Budget(s) && Apply(s, step).current == s.current
  {
    hide Inv, Fenced, Low, High, Apply, Enabled, HwBudget, Sound;
    QuietStepRegisters(s, step);
    if s.current != -1 {
      ActiveIsLive(s);
      QuietStepSparesAll(s, step, s.current);
      FencedClaim(s, s.current);
      SameBudget(s, Apply(s, step));
    }
  }

  ghost function CycleCount(steps: seq<Step>): nat {
    if |steps| == 0 then 0 else (if steps[0].Cycle? then 1 else 0) + CycleCount(steps[1..])
  }

  /**
   Every quantum ends: in any stretch of a run without a tick, whatever the loader and the user do, the number of CPU
   cycles is at most the budget, hence at most the partition's size plus two.
   */
  lemma {:induction false} QuantumEnds(ss: seq<Sys>, steps: seq<Step>)
    requires ContainedRun(ss, steps) && Inv(ss[0]) && Fenced(ss[0]) && ss[0].current != -1
    requires TickCount(ss, steps) == 0
    ensures CycleCount(steps) <= Budget(ss[0]) <= Span(ss[0].hw.cpu) + 2
    decreases |steps|
  {
    hide Inv, Fenced, WorkerIteration, Contained, Budget, Enabled, Ticks;
    BudgetBounds(ss[0]);
    if |steps| > 0 {
      ContainedTail(ss, steps);
      StepKeepsInvariant(ss[0], steps[0]);
      StepKeepsFence(ss[0], steps[0]);
      StepBudget(ss[0], steps[0]);
      QuantumEnds(ss[1..], steps[1..]);
    }
  }

  lemma StepBudget(s: Sys, step: Step)
    requires Inv(s) && Fenced(s) && Enabled(s, step) && Contained(s, step) && !IsTick(s, step)
    ensures Apply(s, step).current == s.current
    ensures if step.Cycle? then Budget(Apply(s, step)) < Budget(s) else Budget(Apply(s, step)) == Budget(s)
  {
    hide Inv, Fenced, Budget, CycleResult;
    if step.Cycle? {
      IterationSpendsBudget(s, step.env);
    } else {
      QuietStepKeepsBudget(s, step);
    }
  }

  /** A bound on the worker iterations before a READY process is dispatched. */
  function Wait(s: Sys, i: Index): int {
    Distance(s, i) * (MAX_SPAN + 3) + Budget(s)
  }

  lemma WaitShrinks(s: Sys, step: Step, i: Index)
    requires Inv(s) && Fenced(s) && Enabled(s, step) && Contained(s, step)
    requires s.table[i].state == Ready && Apply(s, step).current != i
    ensures Apply(s, step).table[i].state == Ready
    ensures if step.Cycle? then Wait(Apply(s, step), i) < Wait(s, i) else Wait(Apply(s, step), i) == Wait(s, i)
  {
    hide Inv, Fenced, Apply, Budget, Distance, Enabled;
    ReadyStep(s, step, i);
    StepKeepsInvariant(s, step);
    StepKeepsFence(s, step);
    BudgetBounds(s);
    BudgetBounds(Apply(s, step));
    if !IsTick(s, step) {
      StepBudget(s, step);
      SameDistance(s, Apply(s, step), i);
    }
  }

  /**
   No starvation: along any contained run, a READY process that has not yet been dispatched has seen at most Wait worker
   iterations, fewer than 20 * 1703, however many processes are created, blocked, woken or ended meanwhile.
   */
  lemma {:induction false} DispatchedWithin(ss: seq<Sys>, steps: seq<Step>, i: Index)
    requires ContainedRun(ss, steps) && Inv(ss[0]) && Fenced(ss[0]) && ss[0].table[i].state == Ready
    requires forall k :: 0 <= k < |ss| ==> ss[k].current != i
    ensures CycleCount(steps) <= Wait(ss[0], i) < MAX_PROCESSES * (MAX_SPAN + 3)
    decreases |steps|
  {
    hide Inv, Fenced, Apply, Contained, Budget, Enabled;
    BudgetBounds(ss[0]);
    assert Distance(ss[0], i) < MAX_PROCESSES;
    hide Distance;
    if |steps| > 0 {
      ContainedTail(ss, steps);
      assert Apply(ss[0], steps[0]).current != i;
      WaitShrinks(ss[0], steps[0], i);
      StepKeepsInvariant(ss[0], steps[0]);
      StepKeepsFence(ss[0], steps[0]);
      DispatchedWithin(ss[1..], steps[1..], i);
    }
  }

  // ---------------------------------------------------------------- sleepers and waiters

  const MAX_WAIT := 34060 // MAX_PROCESSES * (MAX_SPAN + 3)

  /** A bound on the worker iterations before a live process takes a cycle, if the monitor is open for those that wait for it. */
  function Patience(s: Sys, i: Index): int {
    if s.current == i then 0
    else if s.table[i].state == Ready then Wait(s, i) + 1
    else MAX_WAIT + 1 + s.table[i].sleepTics * (MAX_SPAN + 3) + Budget(s)
  }

  lemma WaitBounds(s: Sys, i: Index)
    requires Inv(s) && Fenced(s)
    ensures 0 <= Wait(s, i) < MAX_WAIT
  {
    hide Inv, Fenced, Budget;
    BudgetBounds(s);
    assert Distance(s, i) < MAX_PROCESSES;
  }

  /** A tick that finds the monitor open leaves nobody waiting for it. */
  lemma TickUnblocks(s: Sys, i: Index)
    requires s.monitor && i != s.current
    ensures Tick(s).table[i].state != BlockedIo
  {
    hide Scan;
    assert Aged(s.table, s.monitor)[i] == Unblocked(Woken(s.table[i]), true);
  }

  /** A blocked process's entry: unchanged until a tick, which takes one off a sleep and ends a wait for an open monitor. */
  lemma BlockedStep(s: Sys, step: Step, i: Index)
    requires Inv(s) && Enabled(s, step) && s.table[i].state in {Blocked, BlockedIo}
    requires s.table[i].state == BlockedIo ==> s.monitor
    ensures var q, t := Apply(s, step).table[i], Apply(s, step);
            && (!IsTick(s, step) ==> q == s.table[i] && t.current == s.current && s.current != i)
            && (IsTick(s, step) ==>
                  || (t.current == i) || q.state == Ready
                  || (q.state == Blocked && q.sleepTics == s.table[i].sleepTics - 1))
  {
    assert i != s.current;
    OtherEntry(s, step, i);
    StepKeepsInvariant(s, step);
    hide CycleResult, Tick, BeforeTick;
    if IsTick(s, step) {
      BeforeTickEntry(s, step.env, i);
      if s.monitor { TickUnblocks(BeforeTick(s, step.env), i); }
      assert Apply(s, step) == Tick(BeforeTick(s, step.env));
      hide Apply;
    } else {
      hide Apply;
    }
  }

  lemma PatienceShrinks(s: Sys, step: Step, i: Index)
    requires Inv(s) && Fenced(s) && Enabled(s, step) && Contained(s, step) && Live(s.table[i])
    requires step.Cycle? ==> s.current != i
    requires s.table[i].state == BlockedIo ==> s.monitor
    ensures if step.Cycle? then Patience(Apply(s, step), i) < Patience(s, i) else Patience(Apply(s, step), i) == Patience(s, i)
  {
    hide Fenced, Apply, Enabled, Contained, Budget, Distance, Wait;
    var t := Apply(s, step);
    StepKeepsInvariant(s, step);
    StepKeepsFence(s, step);
    BudgetBounds(s);
    BudgetBounds(t);
    WaitBounds(s, i);
    WaitBounds(t, i);
    if s.current == i {
      QuietStepKeepsBudget(s, step);
    } else if s.table[i].state == Ready {
      ReadyStep(s, step, i);
      if t.current != i { WaitShrinks(s, step, i); }
    } else {
      BlockedStep(s, step, i);
      if !IsTick(s, step) { StepBudget(s, step); }
    }
  }

  lemma IdleStepKeepsLive(s: Sys, step: Step, i: Index)
    requires Inv(s) && Fenced(s) && Enabled(s, step) && Contained(s, step) && Live(s.table[i])
    requires step.Cycle? ==> s.current != i
    ensures Live(Apply(s, step).table[i])
  {
    hide Inv, Fenced, Apply, Enabled, Contained, Low, High, Claim, Registers;
    if s.current == i { QuietStepSparesAll(s, step, i); } else { StepSparesSuspended(s, step, i); }
  }

  /**
   No live process is forgotten. Ready, asleep, or waiting for a monitor that is open, it takes a cycle before the
   worker has made Patience iterations, whatever the others do.
   */
  lemma {:induction false} ServedWithin(ss: seq<Sys>, steps: seq<Step>, i: Index)
    requires ContainedRun(ss, steps) && Inv(ss[0]) && Fenced(ss[0]) && Live(ss[0].table[i])
    requires forall k :: 0 <= k < |steps| ==>
               && (ss[k].table[i].state == BlockedIo ==> ss[k].monitor)
               && !(steps[k].Cycle? && ss[k].current == i)
    ensures CycleCount(steps) <= Patience(ss[0], i)
    decreases |steps|
  {
    hide Inv, Fenced, Apply, Contained, Enabled, Live;
    if |steps| > 0 {
      ContainedTail(ss, steps);
      StepKeepsInvariant(ss[0], steps[0]);
      StepKeepsFence(ss[0], steps[0]);
      PatienceShrinks(ss[0], steps[0], i);
      IdleStepKeepsLive(ss[0], steps[0], i);
      forall k | 0 <= k < |steps| - 1
        ensures (ss[1..][k].table[i].state == BlockedIo ==> ss[1..][k].monitor)
             && !(steps[1..][k].Cycle? && ss[1..][k].current == i)
      {
        assert !(steps[k + 1].Cycle? && ss[k + 1].current == i);
      }
      hide Patience;
      ServedWithin(ss[1..], steps[1..], i);
    } else {
      PatienceBounds(ss[0], i);
    }
  }

  lemma PatienceBounds(s: Sys, i: Index)
    requires Inv(s) && Fenced(s) && Live(s.table[i])
    ensures 0 <= Patience(s, i) <= MAX_WAIT + 1 + s.table[i].sleepTics * (MAX_SPAN + 3) + MAX_SPAN + 2
  {
    hide Fenced, Budget, Wait;
    BudgetBounds(s);
    WaitBounds(s, i);
  }
}
