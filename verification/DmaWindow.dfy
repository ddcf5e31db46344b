/**
 When a user program's DMA instructions respect its protection window. The DMA registers are global: they are not part
 of a saved context, so SDMAON uses what any program, or the reset, left in them.
 */
module DmaWindow {
  import opened Definitions
  import opened Words
  import opened Processor
  import opened Context
  import opened Confinement
  import Handshake

  /** The cell a transfer would write is the program's own, or would keep its value. */
  predicate TransferAllowed(m: Hw)
    requires Handshake.ValidDma(m.dma)
  {
    Handshake.LinearInRange(m.dma);
    || m.dma.ioDirection == 1 || m.cpu.rb <= m.dma.memAddr <= m.cpu.rl
    || m.ram[m.dma.memAddr] == m.disk[DmaPosition(m.dma)]
  }

  /** A DMA instruction changes RAM outside the window exactly if it is SDMAON with registers that do not allow it. */
  lemma DmaStaysWithin(m: Hw, inst: Instruction, junk: int)
    requires Sound(m.cpu) && DmaOp(inst.opCode) && Handshake.ValidDma(m.dma)
    ensures Within(m.ram, Execute(m, inst, junk).m.ram, m.cpu) <==> inst.opCode != OP_SDMAON || TransferAllowed(m)
  {
    var o := Execute(m, inst, junk).m;
    DmaExecute(m, inst, junk);
    if inst.opCode == OP_SDMAON {
      SdmaonTransfers(m, inst, junk);
      hide Execute;
      Handshake.TransferMoves(m);
      Handshake.LinearInRange(m.dma);
      var a := m.dma.memAddr;
      assert !(m.cpu.rb <= a <= m.cpu.rl) && o.ram[a] != m.ram[a] ==> !Within(m.ram, o.ram, m.cpu);
    }
  }

  lemma SdmaonTransfers(m: Hw, inst: Instruction, junk: int)
    requires Sound(m.cpu) && inst.opCode == OP_SDMAON
    ensures Execute(m, inst, junk).m.ram == Transfer(m).ram && Execute(m, inst, junk).m.disk == Transfer(m).disk
  {
    assert Execute(m, inst, junk) == ExecuteDma(m, inst, junk);
    hide FetchOperand, WordToInt, Linear, Execute;
    DmaOperand(m, inst, junk);
  }

  /** The same for a whole cycle, interrupt service included. */
  lemma DmaCycleStaysWithin(m: Hw, env: Env)
    requires Sound(m.cpu) && Addressable(m.cpu, m.cpu.pc) && DmaOp(NextInstruction(m).opCode) && Handshake.ValidDma(m.dma)
    ensures Within(m.ram, CpuStep(m, env).m.ram, m.cpu) <==> NextInstruction(m).opCode != OP_SDMAON || TransferAllowed(m)
  {
    var f, inst, n := Fetched(m), NextInstruction(m), AfterInstruction(m, env.junk);
    assert n == CountCycle(Execute(f, inst, env.junk).m);
    assert TransferAllowed(f) == TransferAllowed(m);
    hide Execute, AfterInstruction, Service, NextInstruction, TransferAllowed, Within;
    DmaStaysWithin(f, inst, env.junk);
    DmaExecute(f, inst, env.junk);
    assert Sound(n.cpu) && SameBounds(m.cpu, n.cpu);
    SameWindow(m.ram, n.ram, f.cpu, m.cpu);
    var r := CpuStep(m, env).m;
    if n.pending != {} {
      ConfinedService(n, MostUrgent(n.pending), env);
      WithinBoth(m.ram, n.ram, r.ram, m.cpu, n.cpu);
    }
  }

  lemma SameWindow(a: Memory, b: Memory, x: Cpu, y: Cpu)
    requires x.rb == y.rb && x.rl == y.rl
    ensures Within(a, b, x) == Within(a, b, y)
  {
  }

  /** What later changes stay inside the window does not hide what earlier ones did outside it. */
  lemma WithinBoth(a: Memory, b: Memory, c: Memory, x: Cpu, y: Cpu)
    requires Within(b, c, y) && SameBounds(x, y)
    ensures Within(a, c, x) <==> Within(a, b, x)
  {
    assert forall i :: 0 <= i < RAM_SIZE && !(x.rb <= i <= x.rl) ==> c[i] == b[i];
  }

  /** A transfer to disk keeps the words of an extent exactly if its sector lies outside, or already holds the value. */
  lemma ExtentKept(m: Hw, inst: Instruction, junk: int, start: int, end: int)
    requires Sound(m.cpu) && inst.opCode == OP_SDMAON && Handshake.ValidDma(m.dma) && m.dma.ioDirection == 1
    requires 0 <= start <= end <= DISK_SIZE
    ensures 0 <= DmaPosition(m.dma) < DISK_SIZE
    ensures var at := DmaPosition(m.dma);
            Execute(m, inst, junk).m.disk[start..end] == m.disk[start..end] <==>
            !(start <= at < end) || m.disk[at] == m.ram[m.dma.memAddr]
  {
    SdmaonTransfers(m, inst, junk);
    hide Execute;
    Handshake.LinearInRange(m.dma);
    Handshake.TransferMoves(m);
    var at, before, after := DmaPosition(m.dma), m.disk, Execute(m, inst, junk).m.disk;
    if start <= at < end {
      assert after[start..end][at - start] == after[at] && before[start..end][at - start] == before[at];
    }
  }

  /**
   SDMAM with a readable operand v either sets the address RB + v, if that is at most RL and in RAM, or latches a fault
   and leaves it. It checks no lower bound: the address it sets is in the window exactly when v is not negative.
   */
  lemma AddressSet(m: Hw, inst: Instruction, junk: int)
    requires Sound(m.cpu) && inst.opCode == OP_SDMAM && FetchOperand(m, inst, junk).ok
    ensures var v, o := WordToInt(FetchOperand(m, inst, junk).word), Execute(m, inst, junk).m;
            if 0 <= m.cpu.rb + v <= m.cpu.rl then
              && o.dma == m.dma.(memAddr := m.cpu.rb + v) && o.pending == m.pending
              && (m.cpu.rb <= o.dma.memAddr <= m.cpu.rl <==> v >= 0)
            else o.dma == m.dma && (InvalidInstr in o.pending || InvalidAddr in o.pending)
  {
    assert Execute(m, inst, junk) == ExecuteDma(m, inst, junk);
    hide FetchOperand, WordToInt, Execute;
    DmaOperand(m, inst, junk);
  }

  /** A process that has just been created in partition 0, with SDMAON as its first instruction and the DMA as reset. */
  function FreshSdmaon(ram: Memory, disk: DiskImage): Hw {
    var cpu := ZERO_CPU.(rb := 300, rl := 384, rx := 1, sp := 84, interrupts := true, timerLimit := 2);
    Hw(cpu, ram[300 := 33100000], disk, Dma(0, 0, 0, 0, 0, 0), {}, 0, false)
  }

  /** It moves sector 0 into RAM cell 0, without ever having set a DMA register. */
  lemma FreshSdmaonLeavesWindow(ram: Memory, disk: DiskImage, env: Env)
    requires ram[0] != disk[0]
    ensures var m := FreshSdmaon(ram, disk);
            && Sound(m.cpu) && NextInstruction(m).opCode == OP_SDMAON
            && !Within(m.ram, CpuStep(m, env).m.ram, m.cpu)
  {
    var m := FreshSdmaon(ram, disk);
    assert m.ram[300] == 33100000 && m.ram[0] == ram[0];
    assert Fetched(m).cpu.ir == 33100000;
    assert NextInstruction(m) == Instruction(OP_SDMAON, IMMEDIATE, 0);
    hide NextInstruction, CpuStep;
    DmaCycleStaysWithin(m, env);
  }

  // ---------------------------------------------------------------- latches left behind

  /** The instruction latches an invalid-instruction fault for operand value v. */
  predicate Refuses(c: Cpu, op: int, v: int) {
    || (op == OP_SDMAP && !(0 <= v < DISK_TRACKS))
    || (op == OP_SDMAC && !(0 <= v < DISK_CYLINDERS))
    || (op == OP_SDMAS && !(0 <= v < DISK_SECTORS))
    || (op == OP_SDMAIO && !(0 <= v <= 1))
    || (op == OP_SDMAM && c.rb + v < 0)
  }

  /**
   The operand fetch fails and the value left in the operand variable then raises the other kind of fault. Only one of
   the two is serviced when the process ends.
   */
  predicate TwoFaults(c: Cpu, inst: Instruction, junk: int) {
    !Readable(c, inst) && (Refuses(c, inst.opCode, WordToInt(junk)) <==> KnownMode(inst))
  }

  lemma FaultsLatched(m: Hw, inst: Instruction, junk: int)
    requires Sound(m.cpu) && DmaOp(inst.opCode) && m.pending <= ASYNCHRONOUS
    ensures var o := Execute(m, inst, junk).m;
            {InvalidInstr, InvalidAddr} <= o.pending <==> TwoFaults(m.cpu, inst, junk)
  {
    assert Execute(m, inst, junk) == ExecuteDma(m, inst, junk);
    hide FetchOperand, WordToInt, Transfer, Execute, Readable, KnownMode;
    DmaOperand(m, inst, junk);
    TransferTouches(FetchOperand(m, inst, junk).m);
  }

  /** A DMA cycle leaves a fault latched, for whichever process runs next, exactly if it latched two. */
  lemma FaultLeftBehind(m: Hw, env: Env)
    requires Sound(m.cpu) && m.pending <= ASYNCHRONOUS && Addressable(m.cpu, m.cpu.pc) && DmaOp(NextInstruction(m).opCode)
    ensures CpuStep(m, env).m.pending <= ASYNCHRONOUS <==> !TwoFaults(Fetched(m).cpu, NextInstruction(m), env.junk)
    ensures TwoFaults(Fetched(m).cpu, NextInstruction(m), env.junk) ==>
              !CpuStep(m, env).alive && InvalidAddr in CpuStep(m, env).m.pending
  {
    var f, inst, n := Fetched(m), NextInstruction(m), AfterInstruction(m, env.junk);
    assert n == CountCycle(Execute(f, inst, env.junk).m);
    hide Execute, AfterInstruction, Service, NextInstruction, TwoFaults;
    FaultsLatched(f, inst, env.junk);
    DmaExecute(f, inst, env.junk);
    assert Sound(n.cpu) && n.pending <= ASYNCHRONOUS + {InvalidInstr, InvalidAddr};
    assert InvalidInstr in n.pending && InvalidAddr in n.pending <==> TwoFaults(f.cpu, inst, env.junk);
    if n.pending != {} {
      ConfinedService(n, MostUrgent(n.pending), env);
      OneFaultServiced(n.pending);
    }
  }

  lemma OneFaultServiced(pending: set<Irq>)
    requires pending <= ASYNCHRONOUS + {InvalidInstr, InvalidAddr}
    ensures pending - {MostUrgent(pending)} <= ASYNCHRONOUS <==> !(InvalidInstr in pending && InvalidAddr in pending)
  {
    var rest := pending - {MostUrgent(pending)};
    if InvalidInstr in pending && InvalidAddr in pending {
      assert InvalidAddr in rest;
    } else {
      forall q | q in rest ensures q in ASYNCHRONOUS { assert q in pending; }
    }
  }

  /** A fault left behind ends the next process to run, whatever it executes. */
  lemma LeftoverFaultEnds(m: Hw, env: Env)
    requires Sound(m.cpu) && m.cpu.sp >= 4 && InvalidAddr in m.pending && ConfinedNext(m)
    ensures !CpuStep(m, env).alive
  {
    hide AfterInstruction, Service;
    if Addressable(m.cpu, m.cpu.pc) {
      ConfinedCycle(m, env.junk);
      var n := AfterInstruction(m, env.junk);
      assert InvalidAddr in n.pending;
      ConfinedService(n, MostUrgent(n.pending), env);
    }
  }
}
