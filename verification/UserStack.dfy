/** The user stack refines a last-in first-out list, with interrupts serviced on it and other processes in between. */
module UserStack {
  import opened Definitions
  import opened Words
  import opened Processor
  import opened Context
  import opened SystemCalls
  import opened Arithmetic
  import opened Confinement
  import opened Partitions
  import opened FileSystem
  import opened Kernel
  import opened Isolation

  /** The pushed words, most recent first: from SP up to, but not including, the partition's last word. */
  function Stack(m: Hw): seq<int>
    requires OnStack(m.cpu)
  {
    m.ram[m.cpu.rb + m.cpu.sp..m.cpu.rl]
  }

  /** The stack pointer is on the stack, which a RETRN from the empty stack would leave. */
  predicate OnStack(c: Cpu) {
    && c.mode == MODE_USER && OS_RESERVED_SIZE <= c.rb && c.rl < RAM_SIZE
    && 1 <= c.rx <= c.sp <= c.rl - c.rb
  }

  /** How many words fit between the initial stack pointer and the code. */
  function Capacity(c: Cpu): int {
    c.rl - c.rb - c.rx
  }

  /** Instructions that respect the stack: stores go below SP, and RETRN finds a word to return to; see ReturnPops. */
  predicate StackSafe(m: Hw) {
    var inst := NextInstruction(m);
    && Confined(inst) && (inst.opCode == OP_RETRN ==> m.cpu.sp < m.cpu.rl - m.cpu.rb)
    && (inst.opCode == OP_STR ==> EffectiveAddress(m.cpu, inst) < m.cpu.sp)
  }

  /** What the next instruction should do to the stack as a list. */
  function StackAfter(m: Hw): seq<int>
    requires OnStack(m.cpu)
  {
    var st, op := Stack(m), NextInstruction(m).opCode;
    if op == OP_PSH then [m.cpu.ac] + st
    else if (op == OP_POP || op == OP_RETRN) && st != [] then st[1..]
    else if op == OP_STRSP && st != [] then [m.cpu.ac] + st[1..]
    else st
  }

  /** The instructions that use the word at SP. */
  const STACK_OPS: set<int> := {OP_PSH, OP_POP, OP_STRSP, OP_LOADSP, OP_RETRN}

  /** The effect of the five stack instructions on the stack as a list. */
  ghost predicate StackEffect(m: Hw, op: int, o: Hw)
    requires OnStack(m.cpu) && OnStack(o.cpu)
  {
    var st := Stack(m);
    && (op == OP_PSH ==> Stack(o) == [m.cpu.ac] + st && Storable(m.cpu.ac))
    && (op == OP_POP ==> st != [] && Stack(o) == st[1..] && o.cpu.ac == st[0])
    && (op == OP_STRSP && st != [] ==> Stack(o) == [m.cpu.ac] + st[1..])
    && (op == OP_LOADSP && st != [] ==> o.cpu.ac == st[0])
    && (op == OP_RETRN && st != [] ==> Stack(o) == st[1..] && o.cpu.pc == WordToInt(st[0]))
    && (op !in {OP_PSH, OP_POP, OP_RETRN} && (op != OP_STRSP || st == []) ==> Stack(o) == st)
  }

  predicate Faultless(m: Hw) {
    InvalidAddr !in m.pending && InvalidInstr !in m.pending
  }

  lemma PushPop(m: Hw, inst: Instruction)
    requires OnStack(m.cpu) && inst.opCode in {OP_PSH, OP_POP}
    ensures var o := ExecuteStackManipulation(m, inst).m;
            Faultless(o) ==> OnStack(o.cpu) && o.pending == m.pending && StackEffect(m, inst.opCode, o)
  {
    hide FetchOperand, Storable, WordToInt;
  }

  lemma StackTop(m: Hw, inst: Instruction, junk: int)
    requires OnStack(m.cpu) && inst.opCode in {OP_STRSP, OP_LOADSP}
    ensures var o := ExecuteDataMovement(m, inst, junk).m;
            Faultless(o) ==> OnStack(o.cpu) && o.pending == m.pending && StackEffect(m, inst.opCode, o)
  {
    hide FetchOperand, Storable, WordToInt;
  }

  lemma ReturnEffect(m: Hw)
    requires OnStack(m.cpu) && m.cpu.sp < m.cpu.rl - m.cpu.rb
    ensures var o := ExecuteReturn(m).m;
            Faultless(o) ==> OnStack(o.cpu) && o.pending == m.pending && StackEffect(m, OP_RETRN, o)
  {
    hide WordToInt;
  }

  lemma StackInstructions(m: Hw, inst: Instruction, junk: int)
    requires OnStack(m.cpu) && Confined(inst) && inst.opCode in STACK_OPS
    requires inst.opCode == OP_RETRN ==> m.cpu.sp < m.cpu.rl - m.cpu.rb
    ensures var o := Execute(m, inst, junk).m;
            Faultless(o) ==> OnStack(o.cpu) && o.pending == m.pending && StackEffect(m, inst.opCode, o)
  {
    hide ExecuteStackManipulation, ExecuteDataMovement, ExecuteReturn, StackEffect, OnStack, Faultless;
    if inst.opCode in {OP_PSH, OP_POP} { PushPop(m, inst); }
    if inst.opCode in {OP_STRSP, OP_LOADSP} { StackTop(m, inst, junk); }
    if inst.opCode == OP_RETRN { ReturnEffect(m); }
  }

  lemma NeutralInstructions(m: Hw, inst: Instruction, junk: int)
    requires Sound(m.cpu) && OnStack(m.cpu) && Confined(inst) && inst.opCode !in STACK_OPS
    requires inst.opCode == OP_STR ==> EffectiveAddress(m.cpu, inst) < m.cpu.sp
    ensures var o := Execute(m, inst, junk).m;
            && o.cpu.sp == m.cpu.sp
            && forall p :: m.cpu.rb + m.cpu.sp <= p < RAM_SIZE ==> o.ram[p] == m.ram[p]
  {
    hide FetchOperand, WordToInt, IntToWord, Exact, Storable, TruncMod, CodeOf;
    ConfinedOperand(m, inst, junk);
  }

  lemma StackExecute(m: Hw, inst: Instruction, junk: int)
    requires Sound(m.cpu) && m.cpu.sp >= 4 && OnStack(m.cpu) && Confined(inst)
    requires inst.opCode == OP_RETRN ==> m.cpu.sp < m.cpu.rl - m.cpu.rb
    requires inst.opCode == OP_STR ==> EffectiveAddress(m.cpu, inst) < m.cpu.sp
    ensures var o := Execute(m, inst, junk).m;
            Faultless(o) ==>
              && OnStack(o.cpu) && StackEffect(m, inst.opCode, o)
              && (inst.opCode in STACK_OPS ==> o.pending == m.pending)
  {
    hide Execute;
    ConfinedExecute(m, inst, junk);
    if inst.opCode in STACK_OPS {
      StackInstructions(m, inst, junk);
    } else {
      NeutralInstructions(m, inst, junk);
    }
  }

  /** The guard of PSH holds exactly while fewer than Capacity words are pushed. */
  lemma PushGuard(m: Hw, inst: Instruction, junk: int)
    requires OnStack(m.cpu) && inst.opCode == OP_PSH && InvalidAddr !in m.pending
    ensures |Stack(m)| <= Capacity(m.cpu)
    ensures InvalidAddr !in Execute(m, inst, junk).m.pending <==> |Stack(m)| < Capacity(m.cpu) && Storable(m.cpu.ac)
  {
    hide Storable;
  }

  lemma PopGuard(m: Hw, inst: Instruction, junk: int)
    requires OnStack(m.cpu) && inst.opCode == OP_POP && InvalidAddr !in m.pending
    ensures InvalidAddr !in Execute(m, inst, junk).m.pending <==> Stack(m) != []
  {
  }

  /**
   RETRN has no guard: it stays on the stack exactly when there is a word to return to. It then pops that word, and
   the program goes on where it says.
   */
  lemma ReturnPops(m: Hw, junk: int)
    requires OnStack(m.cpu) && Addressable(m.cpu, m.cpu.pc) && NextInstruction(m).opCode == OP_RETRN
    ensures var n := AfterInstruction(m, junk);
            && (OnStack(n.cpu) <==> Stack(m) != [])
            && (Stack(m) != [] ==> Stack(n) == Stack(m)[1..] && n.cpu.pc == WordToInt(Stack(m)[0]))
            && m.pending <= n.pending <= m.pending + {Timer}
  {
    hide WordToInt;
    assert AfterInstruction(m, junk) == CountCycle(ExecuteReturn(Fetched(m)).m);
  }

  // ---------------------------------------------------------------- whole cycles

  /** A surviving cycle of an instruction that respects the stack. SP is at least four in every contained run; see Steady. */
  ghost predicate StackCycleOk(m: Hw, env: Env) {
    && Sound(m.cpu) && m.cpu.sp >= 4 && OnStack(m.cpu)
    && m.pending <= ASYNCHRONOUS && Addressable(m.cpu, m.cpu.pc) && StackSafe(m)
    && CpuStep(m, env).alive
  }

  /** The instruction reads the top of a stack that has one. */
  predicate ReadsTop(m: Hw)
    requires OnStack(m.cpu)
  {
    NextInstruction(m).opCode == OP_POP || (NextInstruction(m).opCode == OP_LOADSP && Stack(m) != [])
  }

  predicate Returns(m: Hw) {
    NextInstruction(m).opCode == OP_RETRN
  }

  /** Where RETRN goes: the word on top of the stack. */
  function Target(m: Hw): int
    requires OnStack(m.cpu)
  {
    if Stack(m) == [] then m.cpu.pc else WordToInt(Stack(m)[0])
  }

  /** A surviving cycle has latched no fault. */
  lemma SurvivesFaultless(m: Hw, env: Env)
    requires StackCycleOk(m, env)
    ensures Faultless(AfterInstruction(m, env.junk))
  {
    hide Service, AfterInstruction;
    ConfinedCycle(m, env.junk);
    var n := AfterInstruction(m, env.junk);
    if n.pending != {} { ConfinedService(n, MostUrgent(n.pending), env); }
  }

  lemma StackInstruction(m: Hw, env: Env)
    requires StackCycleOk(m, env)
    ensures var n, op := AfterInstruction(m, env.junk), NextInstruction(m).opCode;
            && Sound(n.cpu) && OnStack(n.cpu) && Stack(n) == StackAfter(m)
            && (op in STACK_OPS ==> n.pending <= ASYNCHRONOUS)
            && (op == OP_PSH ==> Storable(m.cpu.ac))
            && (ReadsTop(m) ==> Stack(m) != [] && n.cpu.ac == Stack(m)[0])
            && (Returns(m) ==> n.cpu.pc == Target(m))
  {
    hide CheckInterrupts, Execute;
    var f := Fetched(m);
    assert Stack(f) == Stack(m);
    StackExecute(f, NextInstruction(m), env.junk);
    ConfinedCycle(m, env.junk);
    SurvivesFaultless(m, env);
    var o := Execute(f, NextInstruction(m), env.junk).m;
    var n := AfterInstruction(m, env.junk);
    assert n == CountCycle(o);
    assert Stack(n) == Stack(o);
  }

  /** Interrupt service writes only below the stack. */
  lemma ServiceSparesStack(n: Hw, r: Hw)
    requires OnStack(n.cpu) && OnlyBelow(n.ram, r.ram, Top(n.cpu))
    requires OnStack(r.cpu) && r.cpu.sp == n.cpu.sp && r.cpu.rb == n.cpu.rb && r.cpu.rl == n.cpu.rl
    ensures Stack(r) == Stack(n)
  {
  }

  /**
   One whole cycle, interrupts included and however little room is left for their frames, does to the stack exactly
   what the instruction does to the list. A storable word that POP and LOADSP put into AC stays there, unless an interrupt
   is serviced in the same cycle with fewer than seven words below SP; AC then reads as zero. So it is, with six words,
   for the program counter after RETRN.
   */
  lemma StackCycle(m: Hw, env: Env)
    requires StackCycleOk(m, env)
    ensures var r, n := CpuStep(m, env).m, AfterInstruction(m, env.junk);
            && OnStack(r.cpu) && Stack(r) == StackAfter(m)
            && (NextInstruction(m).opCode == OP_PSH ==> Storable(m.cpu.ac))
            && (ReadsTop(m) ==> Stack(m) != [])
            && (ReadsTop(m) && (n.pending == {} || (n.cpu.sp >= 7 && Storable(Stack(m)[0]))) ==> r.cpu.ac == Stack(m)[0])
            && (ReadsTop(m) && n.pending != {} && n.cpu.sp < 7 ==> r.cpu.ac == 0)
            && (Returns(m) && (n.pending == {} || (n.cpu.sp >= 6 && Storable(Target(m)))) ==> r.cpu.pc == Target(m))
            && (Returns(m) && n.pending != {} && n.cpu.sp < 6 ==> r.cpu.pc == 0)
  {
    hide Service, AfterInstruction, StackAfter, Stack, StackSafe, Storable, Target;
    StackInstruction(m, env);
    var n := AfterInstruction(m, env.junk);
    if n.pending != {} {
      var code := MostUrgent(n.pending);
      ConfinedService(n, code, env);
      ServiceSparesStack(n, Service(n, code, env).m);
      if n.pending <= ASYNCHRONOUS { AsynchronousService(n, code, env); }
    }
  }

  // ---------------------------------------------------------------- whole runs

  predicate EndsWith(s: seq<int>, tail: seq<int>) {
    |s| >= |tail| && s[|s| - |tail|..] == tail
  }

  /** Cycles during which the stack never drops below `height` words and the word at that height is not replaced. */
  ghost predicate StaysAbove(hs: seq<Hw>, envs: seq<Env>, height: nat) {
    && Cycles(hs, envs)
    && (forall k :: 0 <= k < |hs| ==> OnStack(hs[k].cpu) && |Stack(hs[k])| >= height)
    && (forall k :: 0 <= k < |envs| ==>
          StackCycleOk(hs[k], envs[k]) && (NextInstruction(hs[k]).opCode == OP_STRSP ==> |Stack(hs[k])| > height))
  }

  lemma UndisturbedStack(a: Hw, b: Hw)
    requires Undisturbed(a, b) && OnStack(a.cpu)
    ensures OnStack(b.cpu) && Stack(b) == Stack(a) && b.cpu.ac == a.cpu.ac
  {
    assert Visible(a.cpu).sp == Visible(b.cpu).sp && Visible(a.cpu).rb == Visible(b.cpu).rb && Visible(a.cpu).rl == Visible(b.cpu).rl;
    assert Visible(a.cpu).rx == Visible(b.cpu).rx && Visible(a.cpu).mode == Visible(b.cpu).mode && Visible(a.cpu).ac == Visible(b.cpu).ac;
  }

  /** Words below the level a computation stays above are not touched by it. */
  lemma {:induction false} DeepWordsKept(hs: seq<Hw>, envs: seq<Env>, tail: seq<int>)
    requires StaysAbove(hs, envs, |tail|) && EndsWith(Stack(hs[0]), tail)
    ensures EndsWith(Stack(hs[|envs|]), tail)
    decreases |envs|
  {
    hide StackCycleOk, CpuStep, Undisturbed, Stack, OnStack;
    if |envs| > 0 {
      CyclesTail(hs, envs);
      assert StackCycleOk(hs[0], envs[0]);
      StackCycle(hs[0], envs[0]);
      UndisturbedStack(CpuStep(hs[0], envs[0]).m, hs[1]);
      assert OnStack(hs[0].cpu) && OnStack(hs[1].cpu) && |Stack(hs[1])| >= |tail|;
      StaysAboveTail(hs, envs, |tail|);
      DeepWordsKept(hs[1..], envs[1..], tail);
    }
  }

  lemma StaysAboveTail(hs: seq<Hw>, envs: seq<Env>, height: nat)
    requires StaysAbove(hs, envs, height) && 0 < |envs|
    ensures StaysAbove(hs[1..], envs[1..], height)
  {
    hide StackCycleOk, Stack, OnStack;
    CyclesTail(hs, envs);
    forall k | 0 <= k < |hs| - 1 ensures OnStack(hs[1..][k].cpu) && |Stack(hs[1..][k])| >= height {
      assert OnStack(hs[k + 1].cpu);
    }
    forall k | 0 <= k < |envs| - 1
      ensures StackCycleOk(hs[1..][k], envs[1..][k])
           && (NextInstruction(hs[1..][k]).opCode == OP_STRSP ==> OnStack(hs[1..][k].cpu) && |Stack(hs[1..][k])| > height)
    {
      assert StackCycleOk(hs[k + 1], envs[k + 1]);
    }
  }

  /**
   Last in, first out: a PSH, then any cycles that stay above the pushed word, then a POP at its level, leaves the stack
   as it was before the PSH, whatever interrupts and other processes do. The POP returns the pushed word, except that
   AC reads as zero if an interrupt is serviced in the POP's own cycle where fewer than seven words fit below SP.
   */
  lemma PopReturnsLatest(m: Hw, env: Env, hs: seq<Hw>, envs: seq<Env>, last: Env)
    requires StackCycleOk(m, env) && NextInstruction(m).opCode == OP_PSH
    requires StaysAbove(hs, envs, |Stack(m)| + 1) && Undisturbed(CpuStep(m, env).m, hs[0])
    requires var p := hs[|envs|]; StackCycleOk(p, last) && NextInstruction(p).opCode == OP_POP && |Stack(p)| == |Stack(m)| + 1
    ensures var p := hs[|envs|]; var r := CpuStep(p, last).m;
            && OnStack(r.cpu) && Stack(r) == Stack(m)
            && r.cpu.ac == (if AfterInstruction(p, last.junk).pending == {} || p.cpu.sp >= 6 then m.cpu.ac else 0)
  {
    hide StackCycleOk, CpuStep, Undisturbed, Stack, OnStack, AfterInstruction, Storable;
    StackCycle(m, env);
    assert OnStack(hs[0].cpu);
    UndisturbedStack(CpuStep(m, env).m, hs[0]);
    DeepWordsKept(hs, envs, Stack(hs[0]));
    StackCycle(hs[|envs|], last);
    PopMovesUp(hs[|envs|], last);
  }

  lemma PopMovesUp(m: Hw, env: Env)
    requires StackCycleOk(m, env) && NextInstruction(m).opCode == OP_POP
    ensures AfterInstruction(m, env.junk).cpu.sp == m.cpu.sp + 1
  {
    hide AfterInstruction;
    StackInstruction(m, env);
    ConfinedCycle(m, env.junk);
    assert |Stack(AfterInstruction(m, env.junk))| == |Stack(m)| - 1;
  }

  /** A process just created has an empty stack and room for at least forty-nine pushes. */
  lemma FreshStackRoom(meta: FileMeta, start: int, blocks: int)
    requires ValidRange(start, blocks) && blocks == RequiredBlocks(meta.wordCount)
    ensures var c := InitialContext(meta, start, blocks); Sound(c) && OnStack(c) && c.sp == c.rl - c.rb && Capacity(c) >= 49
  {
    LaunchedContextSound(meta, start, blocks);
  }
}
