/** Words a program stores are there when it loads them again, whatever runs in between. */
module Storage {
  import opened Definitions
  import opened Words
  import opened Processor
  import opened Context
  import opened SystemCalls
  import opened Arithmetic
  import opened Confinement
  import opened Instructions

  /** The next instruction stores into RAM cell `p`. */
  predicate StoresTo(m: Hw, p: int) {
    var inst, c := NextInstruction(m), m.cpu;
    || (inst.opCode == OP_STR && PhysicalAddress(c, EffectiveAddress(c, inst)) == p)
    || (inst.opCode == OP_STRSP && PhysicalAddress(c, c.sp) == p)
    || (inst.opCode == OP_PSH && PhysicalAddress(c, c.sp - 1) == p)
  }

  /** A surviving cycle of a confined program, the frames of its interrupts clear of cell `p`. */
  ghost predicate Clear(m: Hw, env: Env, p: int) {
    && Sound(m.cpu) && m.cpu.sp >= 4 && m.pending <= ASYNCHRONOUS
    && Addressable(m.cpu, m.cpu.pc) && Confined(NextInstruction(m)) && CpuStep(m, env).alive
    && var top := Top(AfterInstruction(m, env.junk).cpu); !(top - 7 <= p < top) && 0 <= p < RAM_SIZE
  }

  lemma ClearService(m: Hw, env: Env, p: int)
    requires Clear(m, env, p)
    ensures var r, n := CpuStep(m, env).m, AfterInstruction(m, env.junk);
            && r.ram[p] == n.ram[p] && Sound(r.cpu) && SameBounds(m.cpu, r.cpu)
            && InvalidInstr !in n.pending && InvalidAddr !in n.pending
  {
    hide AfterInstruction, Service, NextInstruction, Confined, Addressable;
    ConfinedCycle(m, env.junk);
    var n := AfterInstruction(m, env.junk);
    if n.pending != {} { ConfinedService(n, MostUrgent(n.pending), env); }
  }

  lemma MovementSpares(m: Hw, inst: Instruction, junk: int, p: int)
    requires inst.opCode == OP_STR ==> PhysicalAddress(m.cpu, EffectiveAddress(m.cpu, inst)) != p
    requires inst.opCode == OP_STRSP ==> PhysicalAddress(m.cpu, m.cpu.sp) != p
    requires 0 <= p < RAM_SIZE && Sound(m.cpu) && Confined(inst)
    ensures ExecuteDataMovement(m, inst, junk).m.ram[p] == m.ram[p]
  {
    hide FetchOperand, WordToInt, Storable, EffectiveAddress;
    ConfinedOperand(m, inst, junk);
  }

  lemma ExecuteSpares(m: Hw, inst: Instruction, junk: int, p: int)
    requires Sound(m.cpu) && Confined(inst) && 0 <= p < RAM_SIZE
    requires inst.opCode == OP_STR ==> PhysicalAddress(m.cpu, EffectiveAddress(m.cpu, inst)) != p
    requires inst.opCode == OP_STRSP ==> PhysicalAddress(m.cpu, m.cpu.sp) != p
    requires inst.opCode == OP_PSH ==> PhysicalAddress(m.cpu, m.cpu.sp - 1) != p
    ensures Execute(m, inst, junk).m.ram[p] == m.ram[p]
  {
    hide FetchOperand, WordToInt, IntToWord, Exact, Storable, TruncMod, CodeOf, EffectiveAddress, ExecuteDataMovement;
    ConfinedOperand(m, inst, junk);
    MovementSpares(m, inst, junk, p);
  }

  /** A cycle keeps every cell that it does not store to and that its interrupt frame does not cover. */
  lemma CellKept(m: Hw, env: Env, p: int)
    requires Clear(m, env, p) && !StoresTo(m, p)
    ensures var r := CpuStep(m, env).m; r.ram[p] == m.ram[p] && SameBounds(m.cpu, r.cpu)
  {
    ClearService(m, env, p);
    hide Execute, CpuStep, Sound, Confined, WordToInt;
    ExecuteSpares(Fetched(m), NextInstruction(m), env.junk, p);
  }

  lemma WindowCell(a: Hw, b: Hw, p: int)
    requires Undisturbed(a, b) && a.cpu.rb <= p <= a.cpu.rl && 0 <= p < RAM_SIZE
    ensures b.ram[p] == a.ram[p] && b.cpu.rb == a.cpu.rb && b.cpu.rl == a.cpu.rl && b.cpu.mode == a.cpu.mode
  {
    assert Visible(a.cpu).rb == Visible(b.cpu).rb && Visible(a.cpu).rl == Visible(b.cpu).rl;
    assert Visible(a.cpu).mode == Visible(b.cpu).mode;
  }

  /** Cycles none of which stores to cell `p` or covers it with a frame. */
  ghost predicate Untroubled(hs: seq<Hw>, envs: seq<Env>, p: int) {
    Cycles(hs, envs) && forall k :: 0 <= k < |envs| ==> Clear(hs[k], envs[k], p) && !StoresTo(hs[k], p)
  }

  lemma {:induction false} CellKeptAlong(hs: seq<Hw>, envs: seq<Env>, p: int)
    requires Untroubled(hs, envs, p) && hs[0].cpu.rb <= p <= hs[0].cpu.rl && 0 <= p < RAM_SIZE
    ensures var z := hs[|envs|]; z.ram[p] == hs[0].ram[p] && z.cpu.rb == hs[0].cpu.rb && z.cpu.rl == hs[0].cpu.rl
    decreases |envs|
  {
    hide Clear, StoresTo, CpuStep, Undisturbed;
    if |envs| > 0 {
      CyclesTail(hs, envs);
      assert Clear(hs[0], envs[0], p);
      CellKept(hs[0], envs[0], p);
      WindowCell(CpuStep(hs[0], envs[0]).m, hs[1], p);
      forall k | 0 <= k < |envs| - 1 ensures Clear(hs[1..][k], envs[1..][k], p) && !StoresTo(hs[1..][k], p) {
        assert Clear(hs[k + 1], envs[k + 1], p);
      }
      CellKeptAlong(hs[1..], envs[1..], p);
    }
  }

  lemma StoreLands(m: Hw, mode: int, value: int, env: Env, p: int)
    requires Next(m, OP_STR, mode, value) && p == PhysicalAddress(m.cpu, Named(m, mode, value)) && Clear(m, env, p)
    ensures var r := CpuStep(m, env).m;
            && r.ram[p] == m.cpu.ac && Storable(m.cpu.ac) && SameBounds(m.cpu, r.cpu) && m.cpu.rb <= p <= m.cpu.rl
  {
    NextIs(m, OP_STR, mode, value);
    ClearService(m, env, p);
    StorableRange(m.cpu.ac);
    if mode == IMMEDIATE {
      ImmediateStore(m, value, env.junk);
    } else {
      StoreMeans(m, OP_STR, mode, value, env.junk);
    }
    hide CpuStep, AfterInstruction, NextInstruction, Next, WordToInt, Storable;
  }

  lemma ImmediateStore(m: Hw, value: int, junk: int)
    requires Next(m, OP_STR, IMMEDIATE, value)
    ensures InvalidInstr in AfterInstruction(m, junk).pending
  {
    NextIs(m, OP_STR, IMMEDIATE, value);
    assert Execute(Fetched(m), Instruction(OP_STR, IMMEDIATE, value), junk).m == Raise(Fetched(m), InvalidInstr);
    hide Execute, Next, NextInstruction, Decode;
  }

  lemma LoadReads(m: Hw, mode: int, value: int, env: Env, p: int)
    requires Next(m, OP_LOAD, mode, value) && mode != IMMEDIATE && p == PhysicalAddress(m.cpu, Named(m, mode, value))
    requires Clear(m, env, p) && Storable(m.ram[p])
    ensures CpuStep(m, env).m.cpu.ac ==
            (if AfterInstruction(m, env.junk).pending == {} || m.cpu.sp >= 7 then m.ram[p] else 0)
  {
    NextIs(m, OP_LOAD, mode, value);
    ClearService(m, env, p);
    var n := AfterInstruction(m, env.junk);
    OperandFetched(m, OP_LOAD, mode, value, env.junk);
    if !HasOperand(m, mode, value) {
      LoadFaults(m, mode, value, env.junk);
    } else {
      LoadMeans(m, OP_LOAD, mode, value, env.junk);
      SameFields(n.cpu, m.cpu.(pc := m.cpu.pc + 1, ac := m.ram[p], cc := FlagOf(m.ram[p])));
      ConfinedCycle(m, env.junk);
      hide CheckInterrupts, AfterInstruction, Service, NextInstruction, Next, WordToInt, Storable, Confined, FetchOperand, OnlyRegisters;
      LoadServiced(m, n, env);
    }
  }

  lemma LoadFaults(m: Hw, mode: int, value: int, junk: int)
    requires Next(m, OP_LOAD, mode, value) && !HasOperand(m, mode, value)
    ensures InvalidAddr in AfterInstruction(m, junk).pending
  {
    NextIs(m, OP_LOAD, mode, value);
    OperandFetched(m, OP_LOAD, mode, value, junk);
    var f, inst := Fetched(m), Instruction(OP_LOAD, mode, value);
    assert Execute(f, inst, junk) == ExecuteDataMovement(f, inst, junk);
    hide FetchOperand, WordToInt, HasOperand, Next;
    assert InvalidAddr in ExecuteDataMovement(f, inst, junk).m.pending;
  }

  lemma LoadServiced(m: Hw, n: Hw, env: Env)
    requires Addressable(m.cpu, m.cpu.pc) && n == AfterInstruction(m, env.junk) && Sound(n.cpu) && n.pending <= ASYNCHRONOUS
    requires Storable(n.cpu.ac) && n.cpu.sp == m.cpu.sp
    ensures CpuStep(m, env).m.cpu.ac == (if n.pending == {} || m.cpu.sp >= 7 then n.cpu.ac else 0)
  {
    hide AfterInstruction, Service;
    if n.pending != {} { AsynchronousService(n, MostUrgent(n.pending), env); }
  }

  /**
   A store, then any cycles that neither store to the same cell nor cover it with an interrupt frame, then a load from
   it, leave in AC the word that was stored, whatever else is interrupted, preempted or run in between. Only an
   interrupt in the load's own cycle, with fewer than seven words below SP, loses it; AC then reads as zero.
   */
  lemma StoreThenLoad(m: Hw, mode: int, value: int, env: Env, hs: seq<Hw>, envs: seq<Env>, mode': int, value': int, last: Env, p: int)
    requires Next(m, OP_STR, mode, value) && p == PhysicalAddress(m.cpu, Named(m, mode, value)) && Clear(m, env, p)
    requires Untroubled(hs, envs, p) && Undisturbed(CpuStep(m, env).m, hs[0])
    requires var z := hs[|envs|];
             && Next(z, OP_LOAD, mode', value') && mode' != IMMEDIATE
             && p == PhysicalAddress(z.cpu, Named(z, mode', value')) && Clear(z, last, p)
    ensures var z := hs[|envs|];
            CpuStep(z, last).m.cpu.ac ==
            (if AfterInstruction(z, last.junk).pending == {} || z.cpu.sp >= 7 then m.cpu.ac else 0)
  {
    assert 0 <= p < RAM_SIZE;
    hide Clear, Next, CpuStep, Undisturbed, AfterInstruction, PhysicalAddress, Named, Storable;
    StoreLands(m, mode, value, env, p);
    WindowCell(CpuStep(m, env).m, hs[0], p);
    CellKeptAlong(hs, envs, p);
    LoadReads(hs[|envs|], mode', value', last, p);
  }
}
