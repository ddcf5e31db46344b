/** What a confined user-mode program can and cannot do to the machine in one cycle. */
module Confinement {
  import opened Definitions
  import opened Words
  import opened Processor
  import opened Context

  /** Registers of a user process whose code and stack lie in its partition, with room below SP for the bounds of a frame. */
  predicate Bounded(c: Cpu) {
    && c.mode == MODE_USER && OS_RESERVED_SIZE <= c.rb && c.rl < RAM_SIZE
    && 1 <= c.rx <= c.sp && 3 <= c.sp <= c.rl - c.rb + 1
    && 0 <= c.cc <= 3 && c.timerLimit == 2 && 0 <= c.cycles < 2
  }

  predicate Sound(c: Cpu) {
    Bounded(c) && c.interrupts
  }

  predicate SameBounds(a: Cpu, b: Cpu) {
    a.rb == b.rb && a.rl == b.rl && a.rx == b.rx && a.mode == b.mode && a.timerLimit == b.timerLimit
  }

  /** RAM is untouched outside the partition [rb, rl]. */
  ghost predicate Within(before: Memory, after: Memory, c: Cpu) {
    forall i :: 0 <= i < RAM_SIZE && !(c.rb <= i <= c.rl) ==> after[i] == before[i]
  }

  /** Nothing but registers, own RAM and latches changed. */
  ghost predicate Confines(before: Hw, after: Hw) {
    && Within(before.ram, after.ram, before.cpu)
    && after.disk == before.disk && after.dma == before.dma
  }

  /** Addressing modes 0 to 2, and no instruction that changes the mode, the bounds, the timer, masking or the DMA. */
  predicate Confined(inst: Instruction) {
    && (inst.direction == DIRECT || inst.direction == IMMEDIATE || inst.direction == INDEXED)
    && inst.opCode !in {OP_DHAB, OP_TTI, OP_CHMOD, OP_STRRX, OP_STRRB, OP_STRRL}
    && !(OP_SDMAP <= inst.opCode <= OP_SDMAON)
  }

  predicate ConfinedNext(m: Hw) {
    Addressable(m.cpu, m.cpu.pc) ==> Confined(NextInstruction(m))
  }

  const ASYNCHRONOUS: set<Irq> := {Timer, IoDone}

  /** An instruction latches at most one synchronous interrupt. */
  predicate AtMostOneMore(before: set<Irq>, after: set<Irq>) {
    || after == before
    || after == before + {InvalidInstr}
    || after == before + {InvalidAddr}
    || after == before + {Overflow}
    || after == before + {Syscall}
  }

  // ---------------------------------------------------------------- instructions

  /** Only PSH lowers SP, by one. */
  predicate KeepsDepth(c: Cpu, op: int, d: Cpu) {
    if op == OP_PSH then d.sp >= c.sp - 1 else d.sp >= c.sp
  }

  ghost predicate StaysConfined(m: Hw, op: int, n: Hw) {
    && Sound(n.cpu) && SameBounds(m.cpu, n.cpu) && n.cpu.cycles == m.cpu.cycles && KeepsDepth(m.cpu, op, n.cpu)
    && Confines(m, n) && n.osYield == m.osYield
    && AtMostOneMore(m.pending, n.pending)
    && (n.pending != m.pending ==> n.cpu.pc == m.cpu.pc)
    && (InvalidAddr !in n.pending && n.pending != m.pending ==> n.cpu.sp == m.cpu.sp)
  }

  lemma ConfinedOperand(m: Hw, inst: Instruction, junk: int)
    requires Sound(m.cpu) && Confined(inst)
    ensures var f := FetchOperand(m, inst, junk);
            && f.m == m.(cpu := m.cpu.(cc := f.m.cpu.cc), pending := f.m.pending) && 0 <= f.m.cpu.cc <= 3
            && f.m.pending == (if f.ok then m.pending else m.pending + {InvalidAddr})
  {
  }

  lemma ConfinedArithmetic(m: Hw, inst: Instruction, junk: int)
    requires Sound(m.cpu) && Confined(inst) && ArithmeticOp(inst.opCode)
    ensures StaysConfined(m, inst.opCode, ExecuteArithmetic(m, inst, junk).m)
  {
    hide FetchOperand, Exact, IntToWord, WordToInt;
    ConfinedOperand(m, inst, junk);
  }

  lemma ConfinedDataMovement(m: Hw, inst: Instruction, junk: int)
    requires Sound(m.cpu) && Confined(inst)
    requires OP_LOAD <= inst.opCode <= OP_STRRX || OP_LOADRB <= inst.opCode <= OP_STRSP
    ensures StaysConfined(m, inst.opCode, ExecuteDataMovement(m, inst, junk).m)
  {
    hide FetchOperand, WordToInt, Storable;
    ConfinedOperand(m, inst, junk);
  }

  lemma ConfinedComparison(m: Hw, inst: Instruction, junk: int)
    requires Sound(m.cpu) && Confined(inst)
    ensures StaysConfined(m, inst.opCode, ExecuteComparison(m, inst, junk).m)
  {
    hide FetchOperand, WordToInt;
    ConfinedOperand(m, inst, junk);
  }

  lemma ConfinedBranching(m: Hw, inst: Instruction)
    requires Sound(m.cpu) && (OP_JMPE <= inst.opCode <= OP_JMPLGT || inst.opCode == OP_J)
    ensures StaysConfined(m, inst.opCode, ExecuteBranching(m, inst).m)
  {
    hide WordToInt;
  }

  lemma ConfinedStack(m: Hw, inst: Instruction)
    requires Sound(m.cpu) && m.cpu.sp >= 4
    ensures StaysConfined(m, inst.opCode, ExecuteStackManipulation(m, inst).m)
  {
    hide Storable;
  }

  lemma ConfinedReturn(m: Hw)
    requires Sound(m.cpu)
    ensures StaysConfined(m, OP_RETRN, ExecuteReturn(m).m)
  {
    hide WordToInt;
  }

  lemma ConfinedExecute(m: Hw, inst: Instruction, junk: int)
    requires Sound(m.cpu) && m.cpu.sp >= 4 && Confined(inst)
    ensures StaysConfined(m, inst.opCode, Execute(m, inst, junk).m)
  {
    hide ExecuteArithmetic, ExecuteDataMovement, ExecuteComparison, ExecuteBranching, ExecuteStackManipulation, ExecuteReturn;
    var op := inst.opCode;
    if ArithmeticOp(op) { ConfinedArithmetic(m, inst, junk); }
    if OP_LOAD <= op <= OP_STRRX || OP_LOADRB <= op <= OP_STRSP { ConfinedDataMovement(m, inst, junk); }
    if op == OP_COMP { ConfinedComparison(m, inst, junk); }
    if OP_JMPE <= op <= OP_JMPLGT || op == OP_J { ConfinedBranching(m, inst); }
    if op == OP_PSH || op == OP_POP { ConfinedStack(m, inst); }
    if op == OP_RETRN { ConfinedReturn(m); }
  }

  /** A cycle up to the interrupt check: one synchronous latch at most, plus the timer exactly on every second cycle. */
  lemma ConfinedCycle(m: Hw, junk: int)
    requires Sound(m.cpu) && m.cpu.sp >= 4 && Addressable(m.cpu, m.cpu.pc) && Confined(NextInstruction(m))
    ensures var n := AfterInstruction(m, junk);
            && Sound(n.cpu) && KeepsDepth(m.cpu, NextInstruction(m).opCode, n.cpu) && SameBounds(m.cpu, n.cpu) && Confines(m, n) && n.osYield == m.osYield
            && n.cpu.cycles == 1 - m.cpu.cycles
            && var quiet := if m.cpu.cycles == 1 then m.pending + {Timer} else m.pending;
            && AtMostOneMore(quiet, n.pending)
            && (m.pending <= ASYNCHRONOUS && n.pending != quiet ==>
                  n.cpu.pc == m.cpu.pc + 1 && (InvalidAddr !in n.pending ==> n.cpu.sp == m.cpu.sp))
  {
    hide Execute;
    ConfinedExecute(Fetched(m), NextInstruction(m), junk);
  }

  // ---------------------------------------------------------------- interrupt service

  /** Registers whose translation keeps the whole stack region inside user RAM. */
  predicate Translates(c: Cpu) {
    c.mode == MODE_USER && OS_RESERVED_SIZE <= c.rb && c.rl < RAM_SIZE && 0 <= c.sp <= c.rl - c.rb + 1
  }

  lemma PushStays(m: Hw, w: int)
    requires m.cpu.mode == MODE_USER && OS_RESERVED_SIZE <= m.cpu.rb && m.cpu.rl < RAM_SIZE
    requires m.cpu.sp <= m.cpu.rl - m.cpu.rb + 1
    ensures var r := Push(m, w);
            && r == m.(cpu := m.cpu.(sp := m.cpu.sp - 1), ram := r.ram)
            && Within(m.ram, r.ram, m.cpu)
            && (forall i :: 0 <= i < RAM_SIZE && i != Top(m.cpu) - 1 ==> r.ram[i] == m.ram[i])
            && (m.cpu.sp >= 1 && Storable(w) ==> r.ram[Top(m.cpu) - 1] == w)
  {
  }

  /** Whatever fits and passes the data check is saved, and nothing at or above SP is written. */
  lemma SaveStays(m: Hw)
    requires Translates(m.cpu)
    ensures var c, s, top := m.cpu, SaveContext(m), Top(m.cpu);
            && s == m.(cpu := c.(sp := c.sp - 7), ram := s.ram)
            && Within(m.ram, s.ram, c) && OnlyBelow(m.ram, s.ram, top)
            && (c.sp >= 1 && Storable(c.rx) ==> s.ram[top - 1] == c.rx)
            && (c.sp >= 2 && Storable(c.rl) ==> s.ram[top - 2] == c.rl)
            && (c.sp >= 3 && Storable(c.rb) ==> s.ram[top - 3] == c.rb)
            && (c.sp >= 4 ==> s.ram[top - 4] == c.mode)
            && (c.sp >= 5 && Storable(c.cc) ==> s.ram[top - 5] == c.cc)
            && (c.sp >= 6 && Storable(c.pc) ==> s.ram[top - 6] == c.pc)
            && (c.sp >= 7 && Storable(c.ac) ==> s.ram[top - 7] == c.ac)
  {
    hide Push;
    SaveUnrolled(m);
    var c := m.cpu;
    var m3 := PushThree(m, c.rx, c.rl, c.rb);
    var m6 := PushThree(m3, c.mode, c.cc, c.pc);
    PushStays(m6, c.ac);
  }

  lemma PushThree(m: Hw, u: int, v: int, w: int) returns (r: Hw)
    requires m.cpu.mode == MODE_USER && OS_RESERVED_SIZE <= m.cpu.rb && m.cpu.rl < RAM_SIZE
    requires m.cpu.sp <= m.cpu.rl - m.cpu.rb + 1
    ensures r == Push(Push(Push(m, u), v), w)
    ensures r == m.(cpu := m.cpu.(sp := m.cpu.sp - 3), ram := r.ram) && Within(m.ram, r.ram, m.cpu)
    ensures forall i :: 0 <= i < RAM_SIZE && !(Top(m.cpu) - 3 <= i < Top(m.cpu)) ==> r.ram[i] == m.ram[i]
    ensures m.cpu.sp >= 1 && Storable(u) ==> r.ram[Top(m.cpu) - 1] == u
    ensures m.cpu.sp >= 2 && Storable(v) ==> r.ram[Top(m.cpu) - 2] == v
    ensures m.cpu.sp >= 3 && Storable(w) ==> r.ram[Top(m.cpu) - 3] == w
  {
    hide Push, Storable;
    PushStays(m, u);
    PushStays(Push(m, u), v);
    PushStays(Push(Push(m, u), v), w);
    r := Push(Push(Push(m, u), v), w);
  }

  /** The k-th word below the stack pointer, or zero when there are fewer words. */
  function FrameWord(m: Hw, c: Cpu, k: int): int
    requires Translates(c) && 1 <= k
  {
    if c.sp >= k then m.ram[c.rb + c.sp - k] else 0
  }

  lemma PopStays(m: Hw, r: Register, c: Cpu) returns (n: Hw)
    requires Translates(c) && c.sp - 7 <= m.cpu.sp < c.sp
    requires m.cpu.mode == MODE_USER && m.cpu.rb == c.rb && m.cpu.rl == c.rl
    ensures n == PopInto(m, r) == m.(cpu := Assign(m.cpu, r, FrameWord(m, c, c.sp - m.cpu.sp)).(sp := m.cpu.sp + 1))
  {
    n := PopInto(m, r);
  }

  /** The first four pops: what could be saved comes back, what could not reads as zero. */
  lemma PopFour(m: Hw, c: Cpu) returns (n: Hw)
    requires Translates(c) && m.cpu.sp == c.sp - 7
    requires m.cpu.mode == MODE_USER && m.cpu.rb == c.rb && m.cpu.rl == c.rl
    ensures n == PopInto(PopInto(PopInto(PopInto(m, Ac), Pc), Cc), Mode)
    ensures n == m.(cpu := m.cpu.(sp := c.sp - 3, ac := FrameWord(m, c, 7), pc := FrameWord(m, c, 6),
                                  cc := FrameWord(m, c, 5), mode := FrameWord(m, c, 4)))
  {
    hide PopInto, FrameWord, Translates;
    n := PopStays(m, Ac, c);
    FrameWordApart(m, n, c);
    n := PopStays(n, Pc, c);
    FrameWordApart(m, n, c);
    n := PopStays(n, Cc, c);
    FrameWordApart(m, n, c);
    n := PopStays(n, Mode, c);
  }

  lemma FrameWordApart(m: Hw, n: Hw, c: Cpu)
    requires Translates(c) && n.ram == m.ram
    ensures forall k :: 1 <= k ==> FrameWord(n, c, k) == FrameWord(m, c, k)
  {
  }

  /** The last three pops, when their words were saved, leave the bounds as they are. */
  lemma PopBounds(m: Hw, c: Cpu)
    requires Translates(c) && c.sp >= 3 && m.cpu.sp == c.sp - 3
    requires m.cpu.mode == MODE_USER && m.cpu.rb == c.rb && m.cpu.rl == c.rl
    requires m.ram[Top(c) - 1] == c.rx && m.ram[Top(c) - 2] == c.rl && m.ram[Top(c) - 3] == c.rb
    ensures PopInto(PopInto(PopInto(m, Rb), Rl), Rx) == m.(cpu := m.cpu.(sp := c.sp, rx := c.rx))
  {
    hide PopInto;
    var n := PopStays(m, Rb, c);
    n := PopStays(n, Rl, c);
    n := PopStays(n, Rx, c);
  }

  /** A restore recovers the bounds and the mode whenever SP is at least three. */
  lemma RestoreStays(m: Hw, c: Cpu, code: Irq)
    requires Bounded(c) && m.cpu == c.(sp := c.sp - 7, ac := m.cpu.ac, cc := m.cpu.cc, interrupts := m.cpu.interrupts)
    requires m.ram[Top(c) - 1] == c.rx && m.ram[Top(c) - 2] == c.rl && m.ram[Top(c) - 3] == c.rb
    requires c.sp >= 4 ==> m.ram[Top(c) - 4] == MODE_USER
    requires c.sp >= 5 ==> 0 <= m.ram[Top(c) - 5] <= 3
    ensures var r := RestoreContext(m, code);
            && r == m.(cpu := c.(ac := r.cpu.ac, pc := r.cpu.pc, cc := r.cpu.cc, interrupts := m.cpu.interrupts))
            && 0 <= r.cpu.cc <= 3
            && r.cpu.pc == (if c.sp >= 6 then m.ram[Top(c) - 6] else 0)
  {
    hide PopInto;
    PopUnrolled(m);
    var n := PopFour(m, c);
    PopBounds(n, c);
  }

  ghost predicate HandledWithin(s: Hw, c: Cpu, h: Hw) {
    && h == s.(cpu := s.cpu.(ac := h.cpu.ac, cc := h.cpu.cc), ram := h.ram, osYield := h.osYield)
    && Within(s.ram, h.ram, c)
    && (forall i :: 0 <= i < RAM_SIZE && !(Top(c) - 7 <= i < Top(c) - 5) ==> h.ram[i] == s.ram[i])
  }

  /** What a system call may do to a saved process: `rewound` tells whether the saved program counter may change. */
  ghost predicate CallStays(s: Hw, c: Cpu, h: Hw, rewound: bool) {
    && HandledWithin(s, c, h) && h.osYield == s.osYield
    && (c.sp >= 6 && !rewound ==> 0 <= Top(c) - 6 < RAM_SIZE && h.ram[Top(c) - 6] == s.ram[Top(c) - 6])
  }

  lemma UntouchedStays(s: Hw, c: Cpu)
    requires Bounded(c)
    ensures CallStays(s, c, s, false)
  {
  }

  lemma RewindStays(s: Hw, c: Cpu, junk: int)
    requires Bounded(c) && s.cpu == c.(sp := c.sp - 7, interrupts := s.cpu.interrupts)
    ensures CallStays(s, c, RewindSavedPc(s, junk), true)
  {
    hide Storable, WordToInt, IntToWord, CodeOf;
  }

  lemma InputStays(s: Hw, c: Cpu, input: int)
    requires Bounded(c) && s.cpu == c.(sp := c.sp - 7, interrupts := s.cpu.interrupts)
    ensures CallStays(s, c, Write(s.(cpu := s.cpu.(cc := CodeOf(input))), s.cpu.sp, IntToWord(input)), false)
  {
    hide Storable, IntToWord, CodeOf;
  }

  lemma SyscallStays(s: Hw, c: Cpu, env: Env)
    requires Bounded(c) && s.cpu == c.(sp := c.sp - 7, interrupts := s.cpu.interrupts)
    ensures var r := HandleSyscall(s, env);
            && CallStays(s, c, r.m, r.verdict == Block)
            && (r.effect.AwaitsMonitor? || r.effect.Sleeps? ==> r.verdict == Block)
  {
    UntouchedStays(s, c);
    RewindStays(s, c, env.junk);
    InputStays(s, c, env.input);
    assert CallStays(s, c, s, true);
    hide WordToInt, IntToWord, CodeOf, Write, Read, Addressable, RewindSavedPc, CallStays, Bounded;
  }

  /** No handler writes at or above the saved mode word, or outside the partition. */
  lemma HandlerStays(s: Hw, c: Cpu, code: Irq, env: Env)
    requires Bounded(c) && s.cpu == c.(sp := c.sp - 7, interrupts := s.cpu.interrupts)
    ensures var h := HandleInterrupt(s, code, env);
            && HandledWithin(s, c, h.m)
            && (c.sp >= 6 && !h.m.osYield ==> h.m.ram[Top(c) - 6] == s.ram[Top(c) - 6])
            && (h.alive && (code == Timer || h.effect.AwaitsMonitor? || h.effect.Sleeps?) ==> h.m.osYield)
            && ((code == InvalidInstr || code == InvalidAddr) ==> !h.alive)
            && (s.osYield ==> h.m.osYield)
            && (code != Syscall ==> h.effect == NoEffect)
  {
    hide WordToInt, IntToWord, HandleSyscall, Bounded;
    SyscallStays(s, c, env);
  }

  ghost predicate ServiceStays(m: Hw, code: Irq, r: StepResult) {
    && Confines(m, r.m) && OnlyBelow(m.ram, r.m.ram, Top(m.cpu))
    && r.m.pending == m.pending - {code}
    && (r.alive ==> Sound(r.m.cpu) && r.m.cpu == m.cpu.(ac := r.m.cpu.ac, pc := r.m.cpu.pc, cc := r.m.cpu.cc))
    && (r.alive && (code == Timer || r.effect.AwaitsMonitor? || r.effect.Sleeps?) ==> r.m.osYield)
    && ((code == InvalidInstr || code == InvalidAddr) ==> !r.alive)
    && (r.alive && !r.m.osYield && m.cpu.sp >= 6 && Storable(m.cpu.pc) ==> r.m.cpu.pc == m.cpu.pc)
    && (m.osYield ==> r.m.osYield)
  }

  lemma BoundedSavable(c: Cpu)
    requires Bounded(c)
    ensures Storable(c.rx) && Storable(c.rl) && Storable(c.rb) && Storable(c.mode) && Storable(c.cc)
  {
  }

  /** Interrupt frames stay clear of code and data, and the registers that programs can make unstorable are storable. */
  predicate FrameFits(c: Cpu) {
    c.sp - 7 >= c.rx && Storable(c.ac) && Storable(c.pc)
  }

  lemma FitsMeansRoomy(c: Cpu)
    requires Sound(c) && FrameFits(c)
    ensures Roomy(c) && Savable(c) && Top(c) == c.rb + c.sp
  {
    BoundedSavable(c);
  }

  lemma RestoreAfterHandler(off: Hw, saved: Hw, h: Hw, code: Irq)
    requires Bounded(off.cpu) && saved == SaveContext(off) && HandledWithin(saved, off.cpu, h)
    ensures var c := off.cpu;
            var back := h.(pending := h.pending - {code});
            var r := RestoreContext(back, code);
            && r == back.(cpu := c.(ac := r.cpu.ac, pc := r.cpu.pc, cc := r.cpu.cc)) && 0 <= r.cpu.cc <= 3
            && (c.sp >= 6 && Storable(c.pc) && h.ram[Top(c) - 6] == saved.ram[Top(c) - 6] ==> r.cpu.pc == c.pc)
  {
    hide SaveContext, RestoreContext, Storable;
    BoundedSavable(off.cpu);
    SaveStays(off);
    RestoreStays(h.(pending := h.pending - {code}), off.cpu, code);
  }

  /** A save followed by a handler still writes only dead words of the own partition. */
  lemma FramesCompose(off: Hw, saved: Hw, h: Hw)
    requires Bounded(off.cpu) && HandledWithin(saved, off.cpu, h)
    requires Within(off.ram, saved.ram, off.cpu) && OnlyBelow(off.ram, saved.ram, Top(off.cpu))
    ensures Within(off.ram, h.ram, off.cpu) && OnlyBelow(off.ram, h.ram, Top(off.cpu))
    ensures h == saved.(cpu := h.cpu, ram := h.ram, osYield := h.osYield)
  {
  }

  lemma FrameIgnoresEnable(m: Hw, off: Hw, h: Hw)
    requires off.ram == m.ram && off.cpu == m.cpu.(interrupts := false)
    ensures Within(off.ram, h.ram, off.cpu) == Within(m.ram, h.ram, m.cpu)
    ensures Top(off.cpu) == Top(m.cpu)
  {
  }

  lemma ConfinedService(m: Hw, code: Irq, env: Env)
    requires Sound(m.cpu)
    ensures ServiceStays(m, code, Service(m, code, env))
  {
    hide SaveContext, RestoreContext, HandleInterrupt, Storable, HandledWithin, Within, OnlyBelow;
    var off := m.(cpu := m.cpu.(interrupts := false));
    SaveStays(off);
    var saved := SaveContext(off);
    HandlerStays(saved, off.cpu, code, env);
    var h := HandleInterrupt(saved, code, env);
    FramesCompose(off, saved, h.m);
    FrameIgnoresEnable(m, off, h.m);
    if h.alive { RestoreAfterHandler(off, saved, h.m, code); }
  }

  /** The frame's protection and status words, as far as they fit, after a save and a handler. */
  ghost predicate FrameIntact(c: Cpu, h: Hw)
    requires Bounded(c)
  {
    && h.ram[Top(c) - 1] == c.rx && h.ram[Top(c) - 2] == c.rl && h.ram[Top(c) - 3] == c.rb
    && (c.sp >= 4 ==> h.ram[Top(c) - 4] == MODE_USER) && (c.sp >= 5 ==> h.ram[Top(c) - 5] == c.cc)
  }

  lemma HandledFrame(off: Hw, h: Hw)
    requires Bounded(off.cpu) && HandledWithin(SaveContext(off), off.cpu, h)
    ensures FrameIntact(off.cpu, h)
  {
    hide SaveContext;
    BoundedSavable(off.cpu);
    SaveStays(off);
  }

  lemma HandledRegisters(s: Hw, c: Cpu, h: Hw)
    requires HandledWithin(s, c, h)
    ensures h.cpu == s.cpu.(ac := h.cpu.ac, cc := h.cpu.cc)
  {
  }

  lemma HandlerAccumulator(s: Hw, code: Irq, env: Env)
    ensures var h := HandleInterrupt(s, code, env);
            code == Overflow ==> h.m.cpu.ac == IntToWord(TruncMod(s.related, SIGN_BIT))
  {
    hide HandleSyscall, IntToWord, TruncMod;
  }

  /** With fewer than six words below SP a serviced process resumes at zero, its first words replaced by the frame. */
  lemma ShortService(m: Hw, code: Irq, env: Env)
    requires Sound(m.cpu) && m.cpu.sp < 6
    ensures var r := Service(m, code, env);
            r.alive ==>
              && r.m.cpu.pc == 0 && FrameIntact(m.cpu, r.m)
              && (code == Overflow ==> r.m.cpu.ac == IntToWord(TruncMod(m.related, SIGN_BIT)))
              && (code == Syscall ==> r.m.cpu.ac == 0)
  {
    hide SaveContext, RestoreContext, HandleInterrupt, HandledWithin, Storable, IntToWord, TruncMod, OnlyBelow, Within;
    var off := m.(cpu := m.cpu.(interrupts := false));
    var saved := SaveContext(off);
    SaveStays(off);
    HandlerStays(saved, off.cpu, code, env);
    HandlerAccumulator(saved, code, env);
    HandledRegisters(saved, off.cpu, HandleInterrupt(saved, code, env).m);
    var h := HandleInterrupt(saved, code, env);
    if h.alive {
      HandledFrame(off, h.m);
      ShortRestore(h.m.(pending := h.m.pending - {code}), off.cpu, code);
    }
  }

  /** Of fewer than six saved words neither the program counter nor the accumulator comes back. */
  lemma ShortRestore(m: Hw, c: Cpu, code: Irq)
    requires Bounded(c) && c.sp < 6 && m.cpu == c.(sp := c.sp - 7, ac := m.cpu.ac, cc := m.cpu.cc, interrupts := m.cpu.interrupts)
    requires FrameIntact(c, m)
    ensures var r := RestoreContext(m, code);
            && r.ram == m.ram && r.cpu.pc == 0
            && r.cpu.ac == (if code == Overflow || code == Underflow then m.cpu.ac else 0)
  {
    hide PopInto;
    PopUnrolled(m);
    var n := PopFour(m, c);
    LaterPopsSpare(n);
  }

  /** What a restore leaves in AC and PC are the two lowest words of the frame, or zero where there is no room for them. */
  lemma RestoredPair(m: Hw, c: Cpu, code: Irq)
    requires Translates(c) && m.cpu.sp == c.sp - 7 && code != Overflow && code != Underflow
    requires m.cpu.mode == MODE_USER && m.cpu.rb == c.rb && m.cpu.rl == c.rl
    ensures RestoreContext(m, code).cpu.ac == FrameWord(m, c, 7) && RestoreContext(m, code).cpu.pc == FrameWord(m, c, 6)
  {
    hide PopInto;
    PopUnrolled(m);
    var n := PopFour(m, c);
    LaterPopsSpare(n);
  }

  /** An asynchronous interrupt returns AC if all seven words fit and PC if six do; otherwise it leaves zero. */
  lemma AsynchronousService(m: Hw, code: Irq, env: Env)
    requires Sound(m.cpu) && code in ASYNCHRONOUS
    ensures var r := Service(m, code, env);
            && r.alive && r.effect == NoEffect
            && (m.cpu.sp < 7 ==> r.m.cpu.ac == 0)
            && (m.cpu.sp >= 7 && Storable(m.cpu.ac) ==> r.m.cpu.ac == m.cpu.ac)
            && (m.cpu.sp < 6 ==> r.m.cpu.pc == 0)
            && (m.cpu.sp >= 6 && Storable(m.cpu.pc) ==> r.m.cpu.pc == m.cpu.pc)
  {
    hide SaveContext, RestoreContext, HandleInterrupt, OnlyBelow, Storable;
    var off := m.(cpu := m.cpu.(interrupts := false));
    SaveStays(off);
    var saved := SaveContext(off);
    TransparentHandler(saved, code, env);
    RestoredPair(HandleInterrupt(saved, code, env).m.(pending := m.pending - {code}), off.cpu, code);
  }

  lemma LaterPopsSpare(m: Hw)
    ensures var r := PopInto(PopInto(PopInto(m, Rb), Rl), Rx); r.ram == m.ram && r.cpu.pc == m.cpu.pc && r.cpu.ac == m.cpu.ac
  {
  }

  // ---------------------------------------------------------------- short programs

  function Span(c: Cpu): int {
    c.rl - c.rb + 1
  }

  /** A program shorter than six words has a single partition. */
  predicate Snug(c: Cpu) {
    c.rx < 6 ==> Span(c) <= PARTITION_SIZE
  }

  /** The k-th word of a process's partition. */
  function WordOf(c: Cpu, ram: Memory, k: int): int {
    if 0 <= c.rb + k < RAM_SIZE then ram[c.rb + k] else 0
  }

  /**
   A process just created or just serviced. With fewer than six words below SP it is about to run its own frame from
   address zero, where the saved condition code or mode reads as a sum.
   */
  predicate Settled(c: Cpu, ram: Memory) {
    || c.sp >= 6
    || (c.sp == 5 && c.pc == 0 && 0 <= WordOf(c, ram, 0) <= 3)
    || (c.sp == 4 && c.pc == 0 && WordOf(c, ram, 0) == 0 && WordOf(c, ram, 1) == c.rb)
  }

  /**
   A process at the start of any of its cycles. A word is pushed below six only if a service follows within a cycle,
   and the second word of a frame at SP four is a sum with an operand outside the partition.
   */
  predicate Steady(m: Hw) {
    || Settled(m.cpu, m.ram)
    || (m.cpu.sp == 5 && (m.cpu.cycles == 1 || m.pending != {}))
    || (m.cpu.sp == 4 && m.cpu.pc == 1 && WordOf(m.cpu, m.ram, 1) == m.cpu.rb)
  }

  lemma ServiceSettles(n: Hw, code: Irq, env: Env)
    requires Sound(n.cpu) && n.cpu.sp >= 4 && Service(n, code, env).alive
    ensures Settled(Service(n, code, env).m.cpu, Service(n, code, env).m.ram)
  {
    hide Service;
    ConfinedService(n, code, env);
    if n.cpu.sp < 6 { ShortService(n, code, env); }
  }

  /** The first two words of a frame are sums; the second one's operand is out of bounds. */
  lemma FrameSums(m: Hw)
    requires Sound(m.cpu) && Snug(m.cpu) && m.pending <= ASYNCHRONOUS && m.cpu.sp < 6
    requires Steady(m) && m.pending == {} && m.cpu.cycles == 0
    ensures Addressable(m.cpu, m.cpu.pc)
    ensures var inst := NextInstruction(m);
            inst == Instruction(OP_SUM, DIRECT, WordOf(m.cpu, m.ram, m.cpu.pc))
  {
  }

  lemma DirectSum(m: Hw, inst: Instruction, junk: int)
    requires Sound(m.cpu) && inst.opCode == OP_SUM && inst.direction == DIRECT
    ensures var o := ExecuteArithmetic(m, inst, junk).m;
            && o.ram == m.ram && o.cpu.sp == m.cpu.sp && o.cpu.pc == m.cpu.pc
            && (!Addressable(m.cpu, inst.value) ==> InvalidAddr in o.pending)
  {
    hide WordToInt, IntToWord, Exact, CodeOf, TruncMod;
  }

  lemma FrameStep(m: Hw, junk: int)
    requires Sound(m.cpu) && Snug(m.cpu) && m.pending == {} && m.cpu.cycles == 0 && m.cpu.sp < 6 && Steady(m)
    ensures var n := AfterInstruction(m, junk);
            && Addressable(m.cpu, m.cpu.pc) && n.ram == m.ram && n.cpu.sp == m.cpu.sp && n.cpu.pc == m.cpu.pc + 1
            && NextInstruction(m).opCode == OP_SUM
            && (m.cpu.sp == 4 && m.cpu.pc == 1 ==> InvalidAddr in n.pending)
  {
    FrameSums(m);
    hide ExecuteArithmetic;
    DirectSum(Fetched(m), NextInstruction(m), junk);
    assert AfterInstruction(m, junk) == CountCycle(ExecuteArithmetic(Fetched(m), NextInstruction(m), junk).m);
  }

  /** SP stays at four or above: a push from below six words is always followed by a service before the next one. */
  lemma DepthKept(m: Hw, junk: int)
    requires Sound(m.cpu) && Snug(m.cpu) && m.pending <= ASYNCHRONOUS && Steady(m)
    requires Addressable(m.cpu, m.cpu.pc) && Confined(NextInstruction(m))
    ensures m.cpu.sp >= 4 && AfterInstruction(m, junk).cpu.sp >= 4
    ensures var n := AfterInstruction(m, junk); n.pending == {} ==> Steady(n)
  {
    hide AfterInstruction;
    ConfinedCycle(m, junk);
    if m.cpu.sp < 6 && m.pending == {} && m.cpu.cycles == 0 {
      FrameStep(m, junk);
    }
  }

  // ---------------------------------------------------------------- the whole cycle

  /**
   One cycle of a confined program changes RAM only inside its own partition, never the disk, the DMA or its own
   bounds, and leaves no synchronous interrupt behind, whether or not the process survives.
   */
  lemma ConfinedStep(m: Hw, env: Env)
    requires Sound(m.cpu) && Snug(m.cpu) && Steady(m) && m.pending <= ASYNCHRONOUS && ConfinedNext(m)
    ensures var r := CpuStep(m, env);
            && Confines(m, r.m) && r.m.pending <= ASYNCHRONOUS
            && (r.alive ==> Sound(r.m.cpu) && SameBounds(m.cpu, r.m.cpu) && Steady(r.m))
            && (r.alive && r.m.osYield && !m.osYield ==> Settled(r.m.cpu, r.m.ram))
            && (r.alive && (r.effect.AwaitsMonitor? || r.effect.Sleeps?) ==> r.m.osYield)
  {
    hide AfterInstruction, Service, Settled, Steady, Snug;
    if Addressable(m.cpu, m.cpu.pc) {
      DepthKept(m, env.junk);
      ConfinedCycle(m, env.junk);
      var n := AfterInstruction(m, env.junk);
      if n.pending != {} {
        var code := MostUrgent(n.pending);
        ConfinedService(n, code, env);
        if CpuStep(m, env).alive {
          ServiceSettles(n, code, env);
          SettledIsSteady(Service(n, code, env).m);
        }
      }
    }
  }

  lemma SettledIsSteady(m: Hw)
    requires Settled(m.cpu, m.ram)
    ensures Steady(m)
  {
  }

  // ---------------------------------------------------------------- DMA instructions

  predicate DmaOp(op: int) {
    OP_SDMAP <= op <= OP_SDMAON
  }

  predicate KnownMode(inst: Instruction) {
    inst.direction == DIRECT || inst.direction == IMMEDIATE || inst.direction == INDEXED
  }

  /** The operand fetch of this instruction succeeds. */
  predicate Readable(c: Cpu, inst: Instruction) {
    KnownMode(inst) && (inst.direction == IMMEDIATE || Addressable(c, EffectiveAddress(c, inst)))
  }

  /**
   What a program must check before a DMA instruction: before SDMAON that the transfer leaves RAM alone or ends in its
   own window, and before the others that the operand is readable.
   */
  predicate GuardedDma(m: Hw) {
    var inst := NextInstruction(m);
    && DmaOp(inst.opCode) && KnownMode(inst)
    && (if inst.opCode == OP_SDMAON then m.dma.ioDirection == 1 || m.cpu.rb <= m.dma.memAddr <= m.cpu.rl
        else Readable(m.cpu, inst))
  }

  /** The next instruction transfers a word from RAM to disk. */
  predicate WritesDisk(m: Hw) {
    Addressable(m.cpu, m.cpu.pc) && NextInstruction(m).opCode == OP_SDMAON && m.dma.ioDirection == 1
  }

  /** The disk is as before, but for the sector the DMA registers name if the instruction writes there. */
  ghost predicate DiskKept(m: Hw, after: DiskImage) {
    forall a :: 0 <= a < DISK_SIZE && after[a] != m.disk[a] ==> WritesDisk(m) && a == DmaPosition(m.dma)
  }

  /** The next instruction, if it can be fetched, is confined or a guarded DMA instruction. */
  predicate ContainedNext(m: Hw) {
    Addressable(m.cpu, m.cpu.pc) ==> Confined(NextInstruction(m)) || GuardedDma(m)
  }

  /** At most one fault is latched, and nothing else that is not asynchronous. */
  predicate OneFault(before: set<Irq>, after: set<Irq>) {
    before <= after && (after <= before + ASYNCHRONOUS + {InvalidInstr} || after <= before + ASYNCHRONOUS + {InvalidAddr})
  }

  lemma DmaOperand(m: Hw, inst: Instruction, junk: int)
    requires Sound(m.cpu)
    ensures var f := FetchOperand(m, inst, junk);
            && f.m == m.(cpu := m.cpu.(cc := f.m.cpu.cc), pending := f.m.pending) && 0 <= f.m.cpu.cc <= 3
            && f.m.pending == (if f.ok then m.pending else m.pending + {if KnownMode(inst) then InvalidAddr else InvalidInstr})
            && (f.ok <==> Readable(m.cpu, inst)) && (!f.ok ==> f.word == junk)
  {
    hide WordToInt, IntToWord;
  }

  lemma DmaSetter(m: Hw, inst: Instruction, junk: int)
    requires Sound(m.cpu) && DmaOp(inst.opCode) && inst.opCode != OP_SDMAON
    ensures var o := ExecuteDma(m, inst, junk).m;
            && o == m.(cpu := m.cpu.(cc := o.cpu.cc), dma := o.dma, pending := o.pending)
            && 0 <= o.cpu.cc <= 3 && m.pending <= o.pending <= m.pending + {InvalidInstr, InvalidAddr}
  {
    hide FetchOperand, WordToInt, Readable, KnownMode, Transfer;
    DmaOperand(m, inst, junk);
  }

  /** Any DMA instruction, guarded or not, changes of the registers only the condition code, and RAM in one cell at most. */
  lemma DmaExecute(m: Hw, inst: Instruction, junk: int)
    requires Sound(m.cpu) && DmaOp(inst.opCode)
    ensures var o := Execute(m, inst, junk).m;
            && o == m.(cpu := m.cpu.(cc := o.cpu.cc), ram := o.ram, disk := o.disk, dma := o.dma, pending := o.pending)
            && 0 <= o.cpu.cc <= 3 && m.pending <= o.pending <= m.pending + {IoDone, InvalidInstr, InvalidAddr}
            && (inst.opCode != OP_SDMAON || m.dma.ioDirection == 1 ==> o.ram == m.ram)
            && (inst.opCode != OP_SDMAON || m.dma.ioDirection != 1 ==> o.disk == m.disk)
            && (forall a :: 0 <= a < DISK_SIZE && a != DmaPosition(m.dma) ==> o.disk[a] == m.disk[a])
            && (forall i :: 0 <= i < RAM_SIZE && i != m.dma.memAddr ==> o.ram[i] == m.ram[i])
  {
    assert Execute(m, inst, junk) == ExecuteDma(m, inst, junk);
    if inst.opCode == OP_SDMAON {
      var t := FetchOperand(m, inst, junk).m;
      assert ExecuteDma(m, inst, junk).m == Transfer(t) || ExecuteDma(m, inst, junk).m == Raise(Transfer(t), InvalidAddr);
      hide FetchOperand, WordToInt, Transfer, Execute, ExecuteDma, Readable, KnownMode;
      DmaOperand(m, inst, junk);
      TransferTouches(t);
    } else {
      hide ExecuteDma, Execute;
      DmaSetter(m, inst, junk);
    }
  }

  lemma TransferTouches(m: Hw)
    ensures var t := Transfer(m);
            && t == m.(ram := t.ram, disk := t.disk, dma := t.dma, pending := t.pending)
            && m.pending <= t.pending && (t.pending == m.pending + {IoDone} || t.pending == m.pending + {InvalidAddr})
            && (if m.dma.ioDirection == 1 then t.ram == m.ram else t.disk == m.disk)
            && (forall a :: 0 <= a < DISK_SIZE && a != DmaPosition(m.dma) ==> t.disk[a] == m.disk[a])
            && (forall i :: 0 <= i < RAM_SIZE && i != m.dma.memAddr ==> t.ram[i] == m.ram[i])
  {
    hide Linear;
  }

  lemma GuardedFaults(m: Hw, inst: Instruction, junk: int)
    requires Sound(m.cpu) && DmaOp(inst.opCode) && KnownMode(inst) && (inst.opCode != OP_SDMAON ==> Readable(m.cpu, inst))
    ensures OneFault(m.pending, Execute(m, inst, junk).m.pending)
  {
    assert Execute(m, inst, junk) == ExecuteDma(m, inst, junk);
    hide FetchOperand, WordToInt, Transfer, Execute, Readable;
    DmaOperand(m, inst, junk);
    TransferTouches(FetchOperand(m, inst, junk).m);
  }

  lemma DmaCycle(m: Hw, junk: int)
    requires Sound(m.cpu) && Addressable(m.cpu, m.cpu.pc) && GuardedDma(m)
    ensures var n := AfterInstruction(m, junk);
            && Sound(n.cpu) && SameBounds(m.cpu, n.cpu) && n.cpu.sp == m.cpu.sp && n.cpu.cycles == 1 - m.cpu.cycles
            && Within(m.ram, n.ram, m.cpu) && n.osYield == m.osYield && OneFault(m.pending, n.pending)
            && DiskKept(m, n.disk)
            && (Timer in n.pending <==> Timer in m.pending || m.cpu.cycles == 1)
  {
    hide Execute;
    var f, inst := Fetched(m), NextInstruction(m);
    SameOperand(m, inst);
    DmaExecute(f, inst, junk);
    GuardedFaults(f, inst, junk);
  }

  lemma SameOperand(m: Hw, inst: Instruction)
    ensures Readable(Fetched(m).cpu, inst) == Readable(m.cpu, inst)
  {
    hide WordToInt;
  }

  /** A process that is about to run its own frame is not about to execute a DMA instruction. */
  lemma NoDmaInFrame(m: Hw, junk: int)
    requires Sound(m.cpu) && Snug(m.cpu) && m.pending <= ASYNCHRONOUS && Steady(m) && DmaOp(NextInstruction(m).opCode)
    ensures m.cpu.sp >= 6 || m.pending != {} || m.cpu.cycles == 1
  {
    hide Snug, Steady, NextInstruction;
    if m.cpu.sp < 6 && m.pending == {} && m.cpu.cycles == 0 { FrameStep(m, junk); }
  }

  /** What a cycle of a contained program, DMA included, leaves: RAM outside its window, the bounds and the latches. */
  ghost predicate StaysContained(m: Hw, r: StepResult) {
    && Within(m.ram, r.m.ram, m.cpu) && r.m.pending <= ASYNCHRONOUS
    && DiskKept(m, r.m.disk)
    && (r.alive ==> Sound(r.m.cpu) && SameBounds(m.cpu, r.m.cpu) && Steady(r.m))
    && (r.alive && r.m.osYield && !m.osYield ==> Settled(r.m.cpu, r.m.ram))
  }

  lemma WithinChain(a: Memory, b: Memory, c: Memory, x: Cpu, y: Cpu)
    requires Within(a, b, x) && Within(b, c, y) && SameBounds(x, y)
    ensures Within(a, c, x)
  {
  }

  lemma DmaStep(m: Hw, env: Env)
    requires Sound(m.cpu) && Snug(m.cpu) && Steady(m) && m.pending <= ASYNCHRONOUS
    requires Addressable(m.cpu, m.cpu.pc) && GuardedDma(m)
    ensures StaysContained(m, CpuStep(m, env))
  {
    hide AfterInstruction, Service, Snug, Within;
    DmaCycle(m, env.junk);
    NoDmaInFrame(m, env.junk);
    var n := AfterInstruction(m, env.junk);
    if n.pending == {} {
      assert n.cpu.sp >= 6;
    } else {
      var code := MostUrgent(n.pending);
      ConfinedService(n, code, env);
      WithinChain(m.ram, n.ram, Service(n, code, env).m.ram, m.cpu, n.cpu);
      if Service(n, code, env).alive { ServiceSettles(n, code, env); SettledIsSteady(Service(n, code, env).m); }
    }
  }

  /** One cycle of a contained program, with or without DMA, changes RAM only inside its own partition. */
  lemma ContainedStep(m: Hw, env: Env)
    requires Sound(m.cpu) && Snug(m.cpu) && Steady(m) && m.pending <= ASYNCHRONOUS && ContainedNext(m)
    ensures StaysContained(m, CpuStep(m, env))
  {
    hide CpuStep, NextInstruction, Snug, Steady, Settled, Within, GuardedDma;
    if Addressable(m.cpu, m.cpu.pc) && !Confined(NextInstruction(m)) {
      DmaStep(m, env);
    } else {
      ConfinedStep(m, env);
    }
  }

  /**
   Exactly when the context survives the trip over the user's stack: the base register returns if and only if three
   words fit below SP, the program counter if and only if six do, the accumulator if and only if all seven do.
   What did not fit reads back as zero.
   */
  lemma WhatSurvives(m: Hw, env: Env)
    requires Translates(m.cpu) && m.cpu.interrupts && Savable(m.cpu)
    ensures var r := Service(m, Timer, env);
            && r.alive
            && (r.m.cpu.rb == m.cpu.rb <==> m.cpu.sp >= 3)
            && (r.m.cpu.pc == m.cpu.pc <==> m.cpu.sp >= 6 || m.cpu.pc == 0)
            && (r.m.cpu.ac == m.cpu.ac <==> m.cpu.sp >= 7 || m.cpu.ac == 0)
            && (r.m.cpu == m.cpu <== m.cpu.sp >= 7)
            && (m.cpu.sp < 3 ==> r.m.cpu.rb == 0)
  {
    hide SaveContext, PopInto;
    var off := m.(cpu := m.cpu.(interrupts := false));
    SaveStays(off);
    var saved := SaveContext(off);
    RestoredWords(saved.(osYield := true, pending := saved.pending - {Timer}), off.cpu);
  }

  /** What a restore reads back from a frame of which only the first `c.sp` words could be written. */
  lemma RestoredWords(h: Hw, c: Cpu)
    requires Translates(c) && h.cpu == c.(sp := c.sp - 7)
    requires c.sp >= 1 ==> h.ram[Top(c) - 1] == c.rx
    requires c.sp >= 2 ==> h.ram[Top(c) - 2] == c.rl
    requires c.sp >= 3 ==> h.ram[Top(c) - 3] == c.rb
    requires c.sp >= 4 ==> h.ram[Top(c) - 4] == c.mode
    requires c.sp >= 5 ==> h.ram[Top(c) - 5] == c.cc
    requires c.sp >= 6 ==> h.ram[Top(c) - 6] == c.pc
    requires c.sp >= 7 ==> h.ram[Top(c) - 7] == c.ac
    ensures var r := RestoreContext(h, Timer).cpu;
            && (c.sp >= 3 ==> r == c.(ac := r.ac, pc := r.pc, cc := r.cc))
            && (c.sp < 3 ==> r.rb == 0)
            && r.pc == (if c.sp >= 6 then c.pc else 0)
            && r.ac == (if c.sp >= 7 then c.ac else 0)
            && (c.sp >= 5 ==> r.cc == c.cc)
  {
    hide PopInto;
    PopUnrolled(h);
    var n := PopFour(h, c);
    if c.sp >= 3 {
      PopBounds(n, c);
    } else {
      var b := PopStays(n, Rb, c);
      BaseKept(b);
    }
  }

  /** Pops after the base register's leave it alone. */
  lemma BaseKept(m: Hw)
    ensures var n := PopInto(PopInto(m, Rl), Rx); n.cpu.rb == m.cpu.rb && n.cpu.pc == m.cpu.pc && n.cpu.ac == m.cpu.ac
  {
  }
}
