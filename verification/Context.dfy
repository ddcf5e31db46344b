/** Saving and restoring a context on the user's own stack, and what interrupt service therefore preserves. */
module Context {
  import opened Definitions
  import opened Words
  import opened Processor

  /** The seven words below the stack pointer can be written in the current mode. */
  predicate Roomy(c: Cpu) {
    Addressable(c, c.sp - 7) && Addressable(c, c.sp - 1)
  }

  /** Every register saveContext pushes passes writeMemory's data check. */
  predicate Savable(c: Cpu) {
    Storable(c.rx) && Storable(c.rl) && Storable(c.rb) && Storable(c.mode) && Storable(c.cc) && Storable(c.pc) && Storable(c.ac)
  }

  function Top(c: Cpu): int {
    PhysicalAddress(c, c.sp)
  }

  /** RAM with a full context frame below physical address `top`. */
  function WithFrame(ram: Memory, top: int, c: Cpu): Memory
    requires 7 <= top <= RAM_SIZE
  {
    ram[top - 1 := c.rx][top - 2 := c.rl][top - 3 := c.rb][top - 4 := c.mode][top - 5 := c.cc][top - 6 := c.pc][top - 7 := c.ac]
  }

  /** The registers a program can observe: all but the bus buffers and the cycle counter. */
  function Visible(c: Cpu): Cpu {
    c.(mar := 0, mdr := 0, ir := 0, cycles := 0)
  }

  /** RAM is untouched outside the seven words below `top`. */
  ghost predicate OnlyBelow(before: Memory, after: Memory, top: int) {
    forall i :: 0 <= i < RAM_SIZE && !(top - 7 <= i < top) ==> after[i] == before[i]
  }

  lemma PushEffect(m: Hw, w: int)
    requires Addressable(m.cpu, m.cpu.sp - 1) && Storable(w)
    ensures 1 <= Top(m.cpu) <= RAM_SIZE
    ensures Push(m, w) == m.(cpu := m.cpu.(sp := m.cpu.sp - 1), ram := m.ram[Top(m.cpu) - 1 := w])
  {
  }

  /** Addresses between two addressable ones are addressable. */
  lemma Between(c: Cpu, low: int, a: int, high: int)
    requires Addressable(c, low) && Addressable(c, high) && low <= a <= high
    ensures Addressable(c, a)
  {
  }

  lemma SaveContextEffect(m: Hw)
    requires Roomy(m.cpu) && Savable(m.cpu)
    ensures 7 <= Top(m.cpu) <= RAM_SIZE
    ensures SaveContext(m) == m.(cpu := m.cpu.(sp := m.cpu.sp - 7), ram := WithFrame(m.ram, Top(m.cpu), m.cpu))
  {
    hide Push;
    SaveUnrolled(m);
    var c := m.cpu;
    var m1 := Pushed(m, c.rx, c);
    var m2 := Pushed(m1, c.rl, c);
    var m3 := Pushed(m2, c.rb, c);
    var m4 := Pushed(m3, c.mode, c);
    var m5 := Pushed(m4, c.cc, c);
    var m6 := Pushed(m5, c.pc, c);
    var m7 := Pushed(m6, c.ac, c);
  }

  /** One push of a save that started with registers `c`. */
  lemma Pushed(m: Hw, w: int, c: Cpu) returns (r: Hw)
    requires Roomy(c) && m.cpu == c.(sp := m.cpu.sp) && c.sp - 7 < m.cpu.sp <= c.sp && Storable(w)
    ensures 1 <= Top(m.cpu) <= RAM_SIZE && Top(m.cpu) == Top(c) - (c.sp - m.cpu.sp)
    ensures r == Push(m, w) == m.(cpu := m.cpu.(sp := m.cpu.sp - 1), ram := m.ram[Top(m.cpu) - 1 := w])
  {
    r := Push(m, w);
    Between(c, c.sp - 7, m.cpu.sp - 1, c.sp - 1);
    PushEffect(m, w);
  }

  /** A pop while translation still agrees with registers `c` reads the word at its place in the frame. */
  lemma Popping(m: Hw, c: Cpu, r: Register) returns (n: Hw)
    requires Roomy(c) && c.sp - 7 <= m.cpu.sp < c.sp
    requires m.cpu.mode == c.mode && m.cpu.rb == c.rb && m.cpu.rl == c.rl
    ensures 0 <= Top(c) - (c.sp - m.cpu.sp) < RAM_SIZE
    ensures n == PopInto(m, r) == m.(cpu := Assign(m.cpu, r, m.ram[Top(c) - (c.sp - m.cpu.sp)]).(sp := m.cpu.sp + 1))
  {
    n := PopInto(m, r);
    Between(c, c.sp - 7, m.cpu.sp, c.sp - 1);
  }

  /** Restoring a frame reads back exactly the registers it holds, although mode and base change on the way. */
  lemma RestoreContextEffect(m: Hw, c: Cpu, code: Irq)
    requires Roomy(c) && m.cpu.sp == c.sp - 7 && m.cpu.mode == c.mode && m.cpu.rb == c.rb && m.cpu.rl == c.rl
    requires 7 <= Top(c) <= RAM_SIZE
    requires m.ram[Top(c) - 1] == c.rx && m.ram[Top(c) - 2] == c.rl && m.ram[Top(c) - 3] == c.rb
    requires m.ram[Top(c) - 4] == c.mode
    ensures var r := RestoreContext(m, code);
            r == m.(cpu := m.cpu.(sp := c.sp, rx := c.rx, pc := m.ram[Top(c) - 6], cc := m.ram[Top(c) - 5],
                                  ac := if code == Overflow || code == Underflow then m.cpu.ac else m.ram[Top(c) - 7]))
  {
    hide PopInto;
    PopUnrolled(m);
    var n := Popping(m, c, Ac);
    n := Popping(n, c, Pc);
    n := Popping(n, c, Cc);
    n := Popping(n, c, Mode);
    n := Popping(n, c, Rb);
    n := Popping(n, c, Rl);
    n := Popping(n, c, Rx);
  }

  lemma FrameWords(ram: Memory, top: int, c: Cpu)
    requires 7 <= top <= RAM_SIZE
    ensures var f := WithFrame(ram, top, c);
            && f[top - 1] == c.rx && f[top - 2] == c.rl && f[top - 3] == c.rb && f[top - 4] == c.mode
            && f[top - 5] == c.cc && f[top - 6] == c.pc && f[top - 7] == c.ac
            && OnlyBelow(ram, f, top)
  {
  }

  /** The round trip: a saved and restored process differs from the original only in dead stack words. */
  lemma ContextRoundTrip(m: Hw, code: Irq)
    requires Roomy(m.cpu) && Savable(m.cpu) && code != Overflow && code != Underflow
    ensures 7 <= Top(m.cpu) <= RAM_SIZE
    ensures RestoreContext(SaveContext(m), code) == m.(ram := WithFrame(m.ram, Top(m.cpu), m.cpu))
    ensures OnlyBelow(m.ram, RestoreContext(SaveContext(m), code).ram, Top(m.cpu))
  {
    SaveContextEffect(m);
    FrameWords(m.ram, Top(m.cpu), m.cpu);
    RestoreContextEffect(SaveContext(m), m.cpu, code);
  }

  predicate ServiceChangesNothing(c: Cpu, code: Irq) {
    code in {Timer, IoDone, InvalidSyscall, InvalidIntCode} || (code == Syscall && WordToInt(c.ac) !in {1, 2, 3, 4})
  }

  lemma TransparentHandler(saved: Hw, code: Irq, env: Env)
    requires ServiceChangesNothing(saved.cpu, code)
    ensures HandleInterrupt(saved, code, env) == StepResult(saved.(osYield := saved.osYield || code == Timer), true, NoEffect)
  {
  }

  /** Timer, I/O completion, unknown services and unknown codes resume the process with every register intact. */
  lemma TransparentService(m: Hw, code: Irq, env: Env)
    requires Roomy(m.cpu) && Savable(m.cpu) && m.cpu.interrupts && ServiceChangesNothing(m.cpu, code)
    ensures var r := Service(m, code, env);
            && r.alive && r.effect == NoEffect && r.m.cpu == m.cpu
            && OnlyBelow(m.ram, r.m.ram, Top(m.cpu))
            && r.m.pending == m.pending - {code}
            && r.m.osYield == (m.osYield || code == Timer)
            && r.m.disk == m.disk && r.m.dma == m.dma
  {
    hide SaveContext, RestoreContext, WithFrame, OnlyBelow, HandleInterrupt;
    var off := m.(cpu := m.cpu.(interrupts := false));
    SaveContextEffect(off);
    FrameWords(m.ram, Top(m.cpu), off.cpu);
    TransparentHandler(SaveContext(off), code, env);
    var h := HandleInterrupt(SaveContext(off), code, env);
    RestoreContextEffect(h.m.(pending := h.m.pending - {code}), off.cpu, code);
  }

  // ---------------------------------------------------------------- overflow

  lemma TruncatedWordAgrees(v: int)
    ensures IntToWord(TruncMod(v, SIGN_BIT)) == IntToWord(v)
  {
  }

  predicate ArithmeticOp(op: int) {
    op == OP_SUM || op == OP_RES || op == OP_MULT || op == OP_DIVI
  }

  /** The ALU stores the exact result cut to seven digits and latches an overflow exactly when digits were lost. */
  lemma ArithmeticEffect(m: Hw, inst: Instruction, junk: int)
    requires ArithmeticOp(inst.opCode) && FetchOperand(m, inst, junk).ok
    requires var f := FetchOperand(m, inst, junk); inst.opCode == OP_DIVI ==> WordToInt(f.word) != 0
    ensures var f := FetchOperand(m, inst, junk);
            var o := ExecuteArithmetic(m, inst, junk).m;
            var result := Exact(inst.opCode, WordToInt(m.cpu.ac), WordToInt(f.word));
            && WordToInt(o.cpu.ac) == TruncMod(result, SIGN_BIT)
            && Canonical(o.cpu.ac) && Storable(o.cpu.ac)
            && o.pending == m.pending + (if Representable(result) then {} else {Overflow})
            && (!Representable(result) ==> o.related == result && o.cpu.cc == CC_OVERFLOW)
            && (Representable(result) ==> o.cpu.cc == CodeOf(result))
            && o.cpu == m.cpu.(ac := o.cpu.ac, cc := o.cpu.cc)
            && o.ram == m.ram && o.disk == m.disk && o.dma == m.dma && o.osYield == m.osYield
  {
    var f := FetchOperand(m, inst, junk);
    var a, b := WordToInt(m.cpu.ac), WordToInt(f.word);
    assert f.m == m.(cpu := m.cpu.(cc := f.m.cpu.cc));
    var result := Exact(inst.opCode, a, b);
    IntToWordRange(result);
    IntToWordRange(TruncMod(result, SIGN_BIT));
    TruncatedWordAgrees(result);
    if inst.opCode == OP_DIVI {
      WordToIntRange(m.cpu.ac);
      QuotientBound(if a < 0 then -a else a, if b < 0 then -b else b);
    }
  }

  /** The handler recomputes the very word the ALU stored, and the overflow flag survives the restore. */
  lemma OverflowServiceAgrees(m: Hw, env: Env)
    requires Roomy(m.cpu) && Savable(m.cpu) && m.cpu.interrupts
    requires m.cpu.ac == IntToWord(m.related)
    ensures var r := Service(m, Overflow, env);
            && r.alive && r.effect == NoEffect && r.m.cpu == m.cpu
            && OnlyBelow(m.ram, r.m.ram, Top(m.cpu))
            && r.m.pending == m.pending - {Overflow}
            && r.m.osYield == m.osYield && r.m.disk == m.disk && r.m.dma == m.dma
  {
    hide SaveContext, RestoreContext, WithFrame, OnlyBelow;
    var off := m.(cpu := m.cpu.(interrupts := false));
    SaveContextEffect(off);
    FrameWords(m.ram, Top(m.cpu), off.cpu);
    var saved := SaveContext(off);
    TruncatedWordAgrees(m.related);
    var h := HandleInterrupt(saved, Overflow, env);
    assert h.m == saved.(cpu := saved.cpu.(cc := h.m.cpu.cc));
    RestoreContextEffect(h.m.(pending := h.m.pending - {Overflow}), off.cpu, Overflow);
  }

  /** The underflow handler leaves zero in AC; every other register comes back. */
  lemma UnderflowService(m: Hw, env: Env)
    requires Roomy(m.cpu) && Savable(m.cpu) && m.cpu.interrupts
    ensures var r := Service(m, Underflow, env);
            && r.alive && r.effect == NoEffect && r.m.cpu == m.cpu.(ac := 0)
            && OnlyBelow(m.ram, r.m.ram, Top(m.cpu)) && r.m.pending == m.pending - {Underflow}
  {
    hide SaveContext, RestoreContext, WithFrame, OnlyBelow;
    var off := m.(cpu := m.cpu.(interrupts := false));
    SaveContextEffect(off);
    FrameWords(m.ram, Top(m.cpu), off.cpu);
    var h := HandleInterrupt(SaveContext(off), Underflow, env);
    RestoreContextEffect(h.m.(pending := h.m.pending - {Underflow}), off.cpu, Underflow);
  }

  /** The fetched instruction is arithmetic and has an operand it can use. */
  predicate ArithmeticReady(m: Hw, junk: int) {
    var f := FetchOperand(Fetched(m), NextInstruction(m), junk);
    && ArithmeticOp(NextInstruction(m).opCode) && f.ok
    && (NextInstruction(m).opCode == OP_DIVI ==> WordToInt(f.word) != 0)
  }

  function NextInstruction(m: Hw): Instruction {
    Decode(Fetched(m).cpu.ir)
  }

  function NextOperand(m: Hw, junk: int): int {
    WordToInt(FetchOperand(Fetched(m), NextInstruction(m), junk).word)
  }

  /** The unbounded result the next, arithmetic, instruction asks for. */
  function NextResult(m: Hw, junk: int): int
    requires ArithmeticReady(m, junk)
  {
    Exact(NextInstruction(m).opCode, WordToInt(m.cpu.ac), NextOperand(m, junk))
  }

  lemma ArithmeticCycle(m: Hw, junk: int)
    requires ArithmeticReady(m, junk)
    ensures var n := AfterInstruction(m, junk);
            var result := NextResult(m, junk);
            && WordToInt(n.cpu.ac) == TruncMod(result, SIGN_BIT) && Canonical(n.cpu.ac) && Storable(n.cpu.ac)
            && (if Representable(result) then n.cpu.cc == CodeOf(result)
                else Overflow in n.pending && n.cpu.ac == IntToWord(n.related) && n.cpu.cc == CC_OVERFLOW)
            && n.pending - {Timer} == m.pending - {Timer} + (if Representable(result) then {} else {Overflow})
            && m.pending <= n.pending
            && Visible(n.cpu) == Visible(m.cpu).(ac := n.cpu.ac, cc := n.cpu.cc, pc := m.cpu.pc + 1)
            && n.ram == m.ram && n.osYield == m.osYield && n.disk == m.disk && n.dma == m.dma
  {
    hide FetchOperand, ExecuteArithmetic, IntToWord, WordToInt, TruncMod, Exact, CodeOf;
    var f := Fetched(m);
    ArithmeticEffect(f, NextInstruction(m), junk);
    var o := ExecuteArithmetic(f, NextInstruction(m), junk).m;
    TruncatedWordAgrees(o.related);
    ArithmeticResult(f, NextInstruction(m), junk);
    assert AfterInstruction(m, junk) == CountCycle(o);
  }

  lemma ArithmeticResult(m: Hw, inst: Instruction, junk: int)
    requires ArithmeticOp(inst.opCode) && FetchOperand(m, inst, junk).ok
    requires inst.opCode == OP_DIVI ==> WordToInt(FetchOperand(m, inst, junk).word) != 0
    ensures var result := Exact(inst.opCode, WordToInt(m.cpu.ac), WordToInt(FetchOperand(m, inst, junk).word));
            ExecuteArithmetic(m, inst, junk).m.cpu.ac == IntToWord(result)
  {
    TruncatedWordAgrees(Exact(inst.opCode, WordToInt(m.cpu.ac), WordToInt(FetchOperand(m, inst, junk).word)));
  }

  /** One whole cycle of an overflowing instruction: fetch, ALU, latch and service leave the truncated result. */
  lemma OverflowCycle(m: Hw, env: Env)
    requires Addressable(m.cpu, m.cpu.pc) && m.cpu.interrupts && m.pending <= {Timer, IoDone}
    requires Roomy(m.cpu) && Savable(m.cpu.(pc := m.cpu.pc + 1, ac := 0))
    requires ArithmeticReady(m, env.junk) && !Representable(NextResult(m, env.junk))
    ensures var r := CpuStep(m, env);
            && r.alive && r.effect == NoEffect
            && WordToInt(r.m.cpu.ac) == TruncMod(NextResult(m, env.junk), SIGN_BIT) && Canonical(r.m.cpu.ac)
            && Visible(r.m.cpu) == Visible(m.cpu).(ac := r.m.cpu.ac, cc := CC_OVERFLOW, pc := m.cpu.pc + 1)
            && OnlyBelow(m.ram, r.m.ram, Top(m.cpu))
            && Overflow !in r.m.pending && m.pending <= r.m.pending <= m.pending + {Timer}
  {
    hide Service, AfterInstruction, ArithmeticReady, NextResult;
    ArithmeticCycle(m, env.junk);
    var n := AfterInstruction(m, env.junk);
    assert InvalidInstr !in n.pending - {Timer} && InvalidAddr !in n.pending - {Timer};
    SameRoom(m.cpu, n.cpu);
    OverflowServiceAgrees(n, env);
  }

  /** Room and the frame's position depend on the translation registers and the stack pointer alone. */
  lemma SameRoom(c: Cpu, d: Cpu)
    requires c.sp == d.sp && c.mode == d.mode && c.rb == d.rb && c.rl == d.rl
    ensures Roomy(c) == Roomy(d) && Top(c) == Top(d)
  {
  }
}
