/** What a program that sets the DMA registers and starts a transfer achieves, interrupts and preemption included. */
module DmaPrograms {
  import opened Definitions
  import opened Words
  import opened Processor
  import opened Context
  import opened SystemCalls
  import opened Confinement
  import opened Instructions
  import Handshake

  // ---------------------------------------------------------------- one instruction

  /** The operands SDMAP, SDMAC, SDMAS and SDMAIO accept. */
  predicate InRange(op: int, w: int) {
    match op
    case 28 => 0 <= w < 10
    case 29 => 0 <= w < 10
    case 30 => 0 <= w < 100
    case 31 => w == 0 || w == 1
    case _ => false
  }

  /** The registers with the one that belongs to the opcode set. */
  function SetTo(d: Dma, op: int, w: int): Dma {
    match op
    case 28 => d.(track := w)
    case 29 => d.(cylinder := w)
    case 30 => d.(sector := w)
    case 31 => d.(ioDirection := w)
    case _ => d.(memAddr := w)
  }

  lemma SetterExecuted(f: Hw, inst: Instruction, junk: int)
    requires 28 <= inst.opCode <= 31
    ensures var q := FetchOperand(f, inst, junk);
            var done := q.m.(dma := SetTo(q.m.dma, inst.opCode, WordToInt(q.word)));
            Execute(f, inst, junk).m ==
            if !InRange(inst.opCode, WordToInt(q.word)) then Raise(q.m, InvalidInstr)
            else if q.ok then done else Raise(done, InvalidAddr)
  {
    assert Execute(f, inst, junk) == ExecuteDma(f, inst, junk);
    hide FetchOperand, WordToInt, Execute, Transfer;
  }

  /** Each sets its own register to its operand and leaves the others, or refuses and leaves them all. */
  lemma SetterMeans(m: Hw, op: int, mode: int, value: int, junk: int)
    requires Next(m, op, mode, value) && 28 <= op <= 31 && HasOperand(m, mode, value)
    ensures var n, w := AfterInstruction(m, junk), WordToInt(OperandWord(m, mode, value));
            && Visible(n.cpu) == Visible(m.cpu).(pc := m.cpu.pc + 1, cc := OperandCode(m, mode, value))
            && n == m.(cpu := n.cpu, dma := n.dma, pending := n.pending)
            && n.dma == (if InRange(op, w) then SetTo(m.dma, op, w) else m.dma)
            && m.pending <= n.pending
            && n.pending <= m.pending + {Timer} + (if InRange(op, w) then {} else {InvalidInstr})
            && (!InRange(op, w) ==> InvalidInstr in n.pending)
  {
    NextIs(m, op, mode, value);
    OperandFetched(m, op, mode, value, junk);
    SetterExecuted(Fetched(m), Instruction(op, mode, value), junk);
    assert AfterInstruction(m, junk) == CountCycle(Execute(Fetched(m), Instruction(op, mode, value), junk).m);
    hide FetchOperand, WordToInt, Execute, AfterInstruction, NextInstruction, Next, HasOperand, OperandWord, OperandCode, Decode,
         InRange, SetTo;
  }

  /** Without an operand they latch a fault, but still use whatever the operand variable held. */
  lemma SetterWithoutOperand(m: Hw, op: int, mode: int, value: int, junk: int)
    requires Next(m, op, mode, value) && 28 <= op <= 31 && !HasOperand(m, mode, value)
    ensures var n, w := AfterInstruction(m, junk), WordToInt(junk);
            && n.dma == (if InRange(op, w) then SetTo(m.dma, op, w) else m.dma)
            && n.ram == m.ram && n.disk == m.disk && (InvalidInstr in n.pending || InvalidAddr in n.pending)
  {
    NextIs(m, op, mode, value);
    OperandFetched(m, op, mode, value, junk);
    SetterExecuted(Fetched(m), Instruction(op, mode, value), junk);
    assert AfterInstruction(m, junk) == CountCycle(Execute(Fetched(m), Instruction(op, mode, value), junk).m);
    hide FetchOperand, WordToInt, Execute, AfterInstruction, NextInstruction, Next, HasOperand, Decode, InRange, SetTo;
  }

  /**
   SDMAM sets the physical address: the operand in kernel mode, RB plus the operand in user mode. Beyond RL it latches an
   invalid address, outside RAM an invalid instruction, and leaves the registers.
   */
  lemma AddressMeans(m: Hw, mode: int, value: int, junk: int)
    requires Next(m, 32, mode, value) && HasOperand(m, mode, value)
    ensures var n, w := AfterInstruction(m, junk), WordToInt(OperandWord(m, mode, value));
            var p := if m.cpu.mode == 1 then w else m.cpu.rb + w;
            && Visible(n.cpu) == Visible(m.cpu).(pc := m.cpu.pc + 1, cc := OperandCode(m, mode, value))
            && n == m.(cpu := n.cpu, dma := n.dma, pending := n.pending) && m.pending <= n.pending
            && if m.cpu.mode != 1 && p > m.cpu.rl then
                 n.dma == m.dma && n.pending - {Timer} == m.pending - {Timer} + {InvalidAddr}
               else if !(0 <= p < 2000) then
                 n.dma == m.dma && n.pending - {Timer} == m.pending - {Timer} + {InvalidInstr}
               else
                 n.dma == SetTo(m.dma, 32, p) && n.pending <= m.pending + {Timer}
  {
    var f, inst := Fetched(m), Instruction(32, mode, value);
    NextIs(m, 32, mode, value);
    OperandFetched(m, 32, mode, value, junk);
    assert Execute(f, inst, junk) == ExecuteDma(f, inst, junk);
    assert AfterInstruction(m, junk) == CountCycle(ExecuteDma(f, inst, junk).m);
    hide FetchOperand, WordToInt, Execute, AfterInstruction, NextInstruction, Next, HasOperand, OperandWord, OperandCode, Decode, Transfer;
  }

  /** SDMAON moves one word between the cell and the sector, in the direction that is set. */
  lemma StartMeans(m: Hw, mode: int, value: int, junk: int)
    requires Next(m, 33, mode, value) && HasOperand(m, mode, value) && Handshake.ValidDma(m.dma)
    ensures var n, d := AfterInstruction(m, junk), m.dma;
            var at := 1000 * d.track + 100 * d.cylinder + d.sector;
            && 0 <= at < DISK_SIZE
            && Visible(n.cpu) == Visible(m.cpu).(pc := m.cpu.pc + 1, cc := OperandCode(m, mode, value))
            && n == m.(cpu := n.cpu, ram := n.ram, disk := n.disk, dma := n.dma, pending := n.pending)
            && n.ram == (if d.ioDirection == 1 then m.ram else m.ram[d.memAddr := m.disk[at]])
            && n.disk == (if d.ioDirection == 1 then m.disk[at := m.ram[d.memAddr]] else m.disk)
            && m.pending <= n.pending <= m.pending + {Timer, IoDone}
  {
    var f, inst := Fetched(m), Instruction(33, mode, value);
    NextIs(m, 33, mode, value);
    OperandFetched(m, 33, mode, value, junk);
    assert Execute(f, inst, junk).m == Transfer(FetchOperand(f, inst, junk).m);
    assert AfterInstruction(m, junk) == CountCycle(Execute(f, inst, junk).m);
    hide FetchOperand, WordToInt, Execute, AfterInstruction, NextInstruction, Next, HasOperand, OperandWord, OperandCode, Decode;
  }

  // ---------------------------------------------------------------- whole cycles

  /** A user program in order, with nothing but asynchronous latches. */
  predicate Ready(m: Hw) {
    Sound(m.cpu) && m.cpu.sp >= 4 && m.pending <= ASYNCHRONOUS
  }

  /** Two states of one program agree on bounds, depth, disk and its window but for the dead words below SP. */
  ghost predicate Alike(m: Hw, r: Hw) {
    && r.cpu.rb == m.cpu.rb && r.cpu.rl == m.cpu.rl && r.cpu.sp == m.cpu.sp && r.cpu.mode == m.cpu.mode && r.disk == m.disk
    && forall p :: m.cpu.rb <= p <= m.cpu.rl && 0 <= p < RAM_SIZE && !(Top(m.cpu) - 7 <= p < Top(m.cpu)) ==> r.ram[p] == m.ram[p]
  }

  /** An instruction that latches nothing but asynchronous interrupts is survived, and its service spares DMA and disk. */
  lemma ServedCycle(m: Hw, env: Env)
    requires Ready(m) && Addressable(m.cpu, m.cpu.pc)
    requires var n := AfterInstruction(m, env.junk);
             && Visible(n.cpu) == Visible(m.cpu).(pc := m.cpu.pc + 1, cc := n.cpu.cc) && n.pending <= ASYNCHRONOUS
             && 0 <= n.cpu.cc <= 3 && n.cpu.timerLimit == m.cpu.timerLimit && 0 <= n.cpu.cycles < 2
    ensures var r, n := CpuStep(m, env), AfterInstruction(m, env.junk);
            && r.alive && Ready(r.m) && r.m.dma == n.dma && r.m.disk == n.disk
            && r.m.cpu.rb == m.cpu.rb && r.m.cpu.rl == m.cpu.rl && r.m.cpu.sp == m.cpu.sp && r.m.cpu.mode == m.cpu.mode
            && OnlyBelow(n.ram, r.m.ram, Top(m.cpu))
  {
    hide AfterInstruction, Service, Addressable;
    var n := AfterInstruction(m, env.junk);
    SameFields(n.cpu, m.cpu.(pc := m.cpu.pc + 1, cc := n.cpu.cc));
    if n.pending != {} {
      ConfinedService(n, MostUrgent(n.pending), env);
      AsynchronousService(n, MostUrgent(n.pending), env);
    }
  }

  lemma CountersStay(m: Hw, env: Env)
    requires Ready(m) && Addressable(m.cpu, m.cpu.pc) && DmaOp(NextInstruction(m).opCode)
    ensures var n := AfterInstruction(m, env.junk);
            0 <= n.cpu.cc <= 3 && n.cpu.timerLimit == m.cpu.timerLimit && 0 <= n.cpu.cycles < 2
  {
    hide Execute;
    DmaExecute(Fetched(m), NextInstruction(m), env.junk);
  }

  /** The instruction executed at `m` has opcode `op` and, but for SDMAON, an acceptable operand `w`. */
  predicate Performs(m: Hw, op: int, mode: int, value: int, w: int) {
    && Next(m, op, mode, value) && HasOperand(m, mode, value)
    && (op != 33 ==> w == WordToInt(OperandWord(m, mode, value)))
    && (op <= 31 ==> InRange(op, w)) && (op == 32 ==> 0 <= w <= m.cpu.rl - m.cpu.rb)
  }

  lemma SetterCycle(m: Hw, op: int, mode: int, value: int, w: int, env: Env)
    requires Ready(m) && 28 <= op <= 32 && Performs(m, op, mode, value, w)
    ensures var r := CpuStep(m, env);
            r.alive && Ready(r.m) && Alike(m, r.m) && r.m.dma == SetTo(m.dma, op, if op == 32 then m.cpu.rb + w else w)
  {
    NextIs(m, op, mode, value);
    CountersStay(m, env);
    if op == 32 { AddressMeans(m, mode, value, env.junk); } else { SetterMeans(m, op, mode, value, env.junk); }
    hide AfterInstruction, CpuStep, NextInstruction, HasOperand, OperandWord, WordToInt, InRange, SetTo;
    ServedCycle(m, env);
  }

  lemma StartCycle(m: Hw, mode: int, value: int, env: Env)
    requires Ready(m) && Performs(m, 33, mode, value, 0) && Handshake.ValidDma(m.dma)
    ensures var r, n := CpuStep(m, env), AfterInstruction(m, env.junk);
            r.alive && Ready(r.m) && r.m.disk == n.disk && OnlyBelow(n.ram, r.m.ram, Top(m.cpu)) && r.m.dma == n.dma
  {
    NextIs(m, 33, mode, value);
    CountersStay(m, env);
    StartMeans(m, mode, value, env.junk);
    hide AfterInstruction, CpuStep, NextInstruction, HasOperand, OperandWord, WordToInt;
    ServedCycle(m, env);
  }

  // ---------------------------------------------------------------- the program

  /** Between two cycles of the program others may run, but leave the DMA registers and the disk alone. */
  ghost predicate HandedBack(out: Hw, again: Hw) {
    Undisturbed(out, again) && again.dma == out.dma && again.disk == out.disk
  }

  lemma StaysReady(out: Hw, again: Hw)
    requires HandedBack(out, again) && Ready(out) && 0 <= again.cpu.cycles < 2
    ensures Ready(again) && Alike(out, again)
  {
    assert Visible(out.cpu).timerLimit == Visible(again.cpu).timerLimit;
    SameFields(out.cpu, again.cpu);
  }

  lemma AlikeChain(a: Hw, b: Hw, c: Hw)
    requires Alike(a, b) && Alike(b, c)
    ensures Alike(a, c)
  {
  }

  /** Six cycles of one program: SDMAP, SDMAC, SDMAS, SDMAIO, SDMAM and SDMAON with these operands. */
  ghost predicate TransferProgram(hs: seq<Hw>, envs: seq<Env>, modes: seq<int>, values: seq<int>, ws: seq<int>) {
    && |hs| == |envs| == |modes| == |values| == |ws| == 6
    && (forall k :: 0 <= k < 6 ==> Performs(hs[k], 28 + k, modes[k], values[k], ws[k]) && 0 <= hs[k].cpu.cycles < 2)
    && (forall k :: 0 <= k < 5 ==> HandedBack(CpuStep(hs[k], envs[k]).m, hs[k + 1]))
  }

  lemma SixCycles(hs: seq<Hw>, envs: seq<Env>, modes: seq<int>, values: seq<int>, ws: seq<int>)
    requires TransferProgram(hs, envs, modes, values, ws)
    ensures |hs| == |envs| == |modes| == |values| == |ws| == 6
  {
    hide Performs, HandedBack;
  }

  /** One register is set, and nothing else the program relies on has moved when its next cycle begins. */
  lemma OneStep(hs: seq<Hw>, envs: seq<Env>, modes: seq<int>, values: seq<int>, ws: seq<int>, k: nat)
    requires TransferProgram(hs, envs, modes, values, ws) && k < 5 && Ready(hs[k])
    ensures Ready(hs[k + 1]) && Alike(hs[k], hs[k + 1])
    ensures hs[k + 1].dma == SetTo(hs[k].dma, 28 + k, if k == 4 then hs[k].cpu.rb + ws[k] else ws[k])
  {
    hide CpuStep, Performs, Ready, Alike, SetTo, Undisturbed;
    assert Performs(hs[k], 28 + k, modes[k], values[k], ws[k]);
    SetterCycle(hs[k], 28 + k, modes[k], values[k], ws[k], envs[k]);
    StaysReady(CpuStep(hs[k], envs[k]).m, hs[k + 1]);
    AlikeChain(hs[k], CpuStep(hs[k], envs[k]).m, hs[k + 1]);
  }

  lemma SectorSet(hs: seq<Hw>, envs: seq<Env>, modes: seq<int>, values: seq<int>, ws: seq<int>)
    requires TransferProgram(hs, envs, modes, values, ws) && Ready(hs[0])
    ensures Ready(hs[3]) && Alike(hs[0], hs[3])
    ensures hs[3].dma.track == ws[0] && hs[3].dma.cylinder == ws[1] && hs[3].dma.sector == ws[2]
  {
    hide TransferProgram, Ready, Alike;
    SixCycles(hs, envs, modes, values, ws);
    OneStep(hs, envs, modes, values, ws, 0);
    OneStep(hs, envs, modes, values, ws, 1);
    AlikeChain(hs[0], hs[1], hs[2]);
    OneStep(hs, envs, modes, values, ws, 2);
    AlikeChain(hs[0], hs[2], hs[3]);
  }

  lemma RegistersSet(hs: seq<Hw>, envs: seq<Env>, modes: seq<int>, values: seq<int>, ws: seq<int>)
    requires TransferProgram(hs, envs, modes, values, ws) && Ready(hs[0])
    ensures Ready(hs[5]) && Alike(hs[0], hs[5])
    ensures var d := hs[5].dma;
            && d.track == ws[0] && d.cylinder == ws[1] && d.sector == ws[2] && d.ioDirection == ws[3]
            && d.memAddr == hs[0].cpu.rb + ws[4] && hs[4].cpu.rb == hs[0].cpu.rb && hs[4].cpu.rl == hs[0].cpu.rl
  {
    hide TransferProgram, Ready, Alike;
    SixCycles(hs, envs, modes, values, ws);
    SectorSet(hs, envs, modes, values, ws);
    OneStep(hs, envs, modes, values, ws, 3);
    AlikeChain(hs[0], hs[3], hs[4]);
    SameBase(hs[0], hs[4]);
    OneStep(hs, envs, modes, values, ws, 4);
    AlikeChain(hs[0], hs[4], hs[5]);
  }

  lemma SameBase(a: Hw, b: Hw)
    requires Alike(a, b)
    ensures b.cpu.rb == a.cpu.rb && b.cpu.rl == a.cpu.rl && Top(b.cpu) == Top(a.cpu)
  {
  }

  /** What the last cycle, SDMAON, leaves of the state `m` in which the program began. */
  ghost predicate Transferred(m: Hw, r: Hw, d: int, cell: int, at: int) {
    && 0 <= at < DISK_SIZE && 0 <= cell < RAM_SIZE
    && r.disk == (if d == 1 then m.disk[at := m.ram[cell]] else m.disk)
    && r.ram[cell] == (if d == 1 then m.ram[cell] else m.disk[at])
    && forall p :: m.cpu.rb <= p <= m.cpu.rl && 0 <= p < RAM_SIZE && p != cell && !(Top(m.cpu) - 7 <= p < Top(m.cpu)) ==>
         r.ram[p] == m.ram[p]
  }

  /**
   After SDMAP t, SDMAC c, SDMAS s, SDMAIO d, SDMAM a and SDMAON, across interrupts and preemption, disk position
   1000t + 100c + s holds the cell RB + a if d is 1, and the cell holds that position if d is 0. Nothing else on the
   disk, and nothing else in the program's window but dead words below SP, has moved. The cell must not be one of those.
   */
  lemma ProgramTransfers(hs: seq<Hw>, envs: seq<Env>, modes: seq<int>, values: seq<int>, ws: seq<int>)
    requires TransferProgram(hs, envs, modes, values, ws) && Ready(hs[0])
    requires var top, cell := Top(hs[0].cpu), hs[0].cpu.rb + ws[4]; !(top - 7 <= cell < top)
    ensures var r := CpuStep(hs[5], envs[5]);
            r.alive && Transferred(hs[0], r.m, ws[3], hs[0].cpu.rb + ws[4], 1000 * ws[0] + 100 * ws[1] + ws[2])
  {
    hide TransferProgram, CpuStep, Performs, Ready, Alike, Transferred, Top, Next, HasOperand;
    SixCycles(hs, envs, modes, values, ws);
    AtTheStart(hs, envs, modes, values, ws);
    hide Handshake.ValidDma;
    LastCycle(hs[0], hs[5], modes[5], values[5], envs[5]);
  }

  /** All five registers are set, to the sector and the cell of the program's own window, when SDMAON is executed. */
  lemma AtTheStart(hs: seq<Hw>, envs: seq<Env>, modes: seq<int>, values: seq<int>, ws: seq<int>)
    requires TransferProgram(hs, envs, modes, values, ws) && Ready(hs[0])
    ensures Alike(hs[0], hs[5]) && Ready(hs[5]) && Performs(hs[5], 33, modes[5], values[5], 0)
    ensures var d, cell := hs[5].dma, hs[0].cpu.rb + ws[4];
            && Handshake.ValidDma(d) && hs[0].cpu.rb <= cell <= hs[0].cpu.rl && d.memAddr == cell && d.ioDirection == ws[3]
            && 1000 * d.track + 100 * d.cylinder + d.sector == 1000 * ws[0] + 100 * ws[1] + ws[2]
  {
    hide TransferProgram, CpuStep, Performs, Ready, Alike, Next, HasOperand;
    SixCycles(hs, envs, modes, values, ws);
    RegistersSet(hs, envs, modes, values, ws);
    Ranges(hs, envs, modes, values, ws);
    WindowInRam(hs[0]);
  }

  lemma LastCycle(m: Hw, z: Hw, mode: int, value: int, env: Env)
    requires Alike(m, z) && Ready(z) && Performs(z, 33, mode, value, 0)
    requires Handshake.ValidDma(z.dma) && m.cpu.rb <= z.dma.memAddr <= m.cpu.rl
    requires !(Top(m.cpu) - 7 <= z.dma.memAddr < Top(m.cpu))
    ensures var r, d := CpuStep(z, env), z.dma;
            r.alive && Transferred(m, r.m, d.ioDirection, d.memAddr, 1000 * d.track + 100 * d.cylinder + d.sector)
  {
    assert Next(z, 33, mode, value) && HasOperand(z, mode, value);
    hide CpuStep, AfterInstruction, Performs, Next, HasOperand, Ready, Alike, OnlyBelow, Transferred;
    StartCycle(z, mode, value, env);
    StartMeans(z, mode, value, env.junk);
    SameBase(m, z);
    var d := z.dma;
    Moved(m, z, AfterInstruction(z, env.junk), CpuStep(z, env).m, d.memAddr, 1000 * d.track + 100 * d.cylinder + d.sector);
  }

  lemma WindowInRam(m: Hw)
    requires Ready(m)
    ensures 0 <= m.cpu.rb && m.cpu.rl < RAM_SIZE
  {
  }

  /** The transfer, seen from the start of the program and after the last service. */
  lemma Moved(m: Hw, z: Hw, n: Hw, r: Hw, cell: int, at: int)
    requires Alike(m, z) && 0 <= cell < RAM_SIZE && 0 <= at < DISK_SIZE
    requires m.cpu.rb <= cell <= m.cpu.rl && !(Top(m.cpu) - 7 <= cell < Top(m.cpu))
    requires n.ram == (if z.dma.ioDirection == 1 then z.ram else z.ram[cell := z.disk[at]])
    requires n.disk == (if z.dma.ioDirection == 1 then z.disk[at := z.ram[cell]] else z.disk)
    requires r.disk == n.disk && OnlyBelow(n.ram, r.ram, Top(m.cpu))
    ensures Transferred(m, r, z.dma.ioDirection, cell, at)
  {
  }

  lemma Ranges(hs: seq<Hw>, envs: seq<Env>, modes: seq<int>, values: seq<int>, ws: seq<int>)
    requires TransferProgram(hs, envs, modes, values, ws)
    ensures 0 <= ws[0] < 10 && 0 <= ws[1] < 10 && 0 <= ws[2] < 100 && 0 <= ws[3] <= 1
    ensures 0 <= ws[4] <= hs[4].cpu.rl - hs[4].cpu.rb
    ensures Performs(hs[5], 33, modes[5], values[5], 0) && Next(hs[5], 33, modes[5], values[5]) && HasOperand(hs[5], modes[5], values[5])
  {
    hide Next, HasOperand, OperandWord, WordToInt, HandedBack, CpuStep;
    assert Performs(hs[0], 28 + 0, modes[0], values[0], ws[0]);
    assert Performs(hs[1], 28 + 1, modes[1], values[1], ws[1]);
    assert Performs(hs[2], 28 + 2, modes[2], values[2], ws[2]);
    assert Performs(hs[3], 28 + 3, modes[3], values[3], ws[3]);
    assert Performs(hs[4], 28 + 4, modes[4], values[4], ws[4]);
    assert Performs(hs[5], 28 + 5, modes[5], values[5], ws[5]);
  }
}
