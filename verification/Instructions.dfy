/**
 What each instruction means to a program, in terms of the word in memory, the registers and RAM alone: the reference
 against which the processor's functions are read.
 */
module Instructions {
  import opened Definitions
  import opened Words
  import opened Processor
  import opened Context
  import opened SystemCalls
  import opened Arithmetic

  // ---------------------------------------------------------------- the instruction word

  /** The program counter is on a word with these three decimal fields: opcode, addressing mode and five-digit value. */
  predicate Next(m: Hw, op: int, mode: int, value: int) {
    && 0 <= op && 0 <= mode <= 9 && 0 <= value <= 99999 && Addressable(m.cpu, m.cpu.pc)
    && m.ram[PhysicalAddress(m.cpu, m.cpu.pc)] == 1000000 * op + 100000 * mode + value
  }

  /** The three fields are read back from the decimal digits, and different instructions are different words. */
  lemma DecodeFields(op: int, mode: int, value: int)
    requires 0 <= op && 0 <= mode <= 9 && 0 <= value <= 99999
    ensures Decode(1000000 * op + 100000 * mode + value) == Instruction(op, mode, value)
  {
    var w := 1000000 * op + 100000 * mode + value;
    assert w / 1000000 == op;
    assert w / 100000 == 10 * op + mode;
    assert w % 100000 == value;
  }

  lemma NextIs(m: Hw, op: int, mode: int, value: int)
    requires Next(m, op, mode, value)
    ensures NextInstruction(m) == Instruction(op, mode, value)
  {
    DecodeFields(op, mode, value);
  }

  // ---------------------------------------------------------------- operands

  /** The address an instruction names: the value field, plus the decoded accumulator in indexed mode. */
  function Named(m: Hw, mode: int, value: int): int {
    if mode == INDEXED then value + WordToInt(m.cpu.ac) else value
  }

  predicate HasOperand(m: Hw, mode: int, value: int) {
    mode == IMMEDIATE || ((mode == DIRECT || mode == INDEXED) && Addressable(m.cpu, Named(m, mode, value)))
  }

  /** The operand as a word: the value field itself, or the word in memory that it names. */
  function OperandWord(m: Hw, mode: int, value: int): int
    requires HasOperand(m, mode, value)
  {
    if mode == IMMEDIATE then value else m.ram[PhysicalAddress(m.cpu, Named(m, mode, value))]
  }

  /** The condition code once the operand is fetched: an immediate value sets it. */
  function OperandCode(m: Hw, mode: int, value: int): int {
    if mode != IMMEDIATE then m.cpu.cc else if value == 0 then 0 else 2
  }

  /** The fetch succeeds exactly if there is such an operand, and then yields it. */
  lemma OperandFetched(m: Hw, op: int, mode: int, value: int, junk: int)
    requires Next(m, op, mode, value)
    ensures var f := FetchOperand(Fetched(m), Instruction(op, mode, value), junk);
            && (f.ok <==> HasOperand(m, mode, value))
            && (f.ok ==>
                  && f.word == OperandWord(m, mode, value)
                  && f.m == Fetched(m).(cpu := Fetched(m).cpu.(cc := OperandCode(m, mode, value))))
            && (!f.ok ==> f.m == Raise(Fetched(m), if mode == DIRECT || mode == INDEXED then InvalidAddr else InvalidInstr))
  {
    hide WordToInt;
  }

  // ---------------------------------------------------------------- what a cycle leaves

  /** After the instruction the visible registers are `c`, nothing else has changed, and at most the timer is latched. */
  ghost predicate OnlyRegisters(m: Hw, n: Hw, c: Cpu) {
    && Visible(n.cpu) == Visible(c) && n == m.(cpu := n.cpu, pending := n.pending, related := n.related)
    && m.pending <= n.pending <= m.pending + {Timer}
  }

  /** Room and storable registers for an interrupt frame, should one be needed. */
  predicate Serviceable(m: Hw, c: Cpu) {
    && m.cpu.interrupts && m.pending <= {Timer, IoDone}
    && Roomy(m.cpu) && Savable(c) && c.sp == m.cpu.sp && c.mode == m.cpu.mode && c.rb == m.cpu.rb && c.rl == m.cpu.rl
  }

  /** Then the whole cycle, whatever is serviced at its end, leaves these registers and alters only dead stack words. */
  lemma CycleCompletes(m: Hw, env: Env, c: Cpu)
    requires Addressable(m.cpu, m.cpu.pc) && OnlyRegisters(m, AfterInstruction(m, env.junk), c) && Serviceable(m, c)
    requires c.interrupts
    ensures var r := CpuStep(m, env);
            && r.alive && r.effect == NoEffect && Visible(r.m.cpu) == Visible(c)
            && OnlyBelow(m.ram, r.m.ram, Top(m.cpu)) && r.m.disk == m.disk && r.m.dma == m.dma
            && r.m.pending <= {Timer, IoDone}
  {
    hide AfterInstruction, Service, Storable, Addressable;
    var n := AfterInstruction(m, env.junk);
    SameFields(n.cpu, c);
    if n.pending != {} {
      SameRoom(m.cpu, n.cpu);
      TransparentService(n, MostUrgent(n.pending), env);
    }
  }

  lemma SameFields(a: Cpu, b: Cpu)
    requires Visible(a) == Visible(b)
    ensures a.ac == b.ac && a.pc == b.pc && a.cc == b.cc && a.mode == b.mode && a.interrupts == b.interrupts
    ensures a.rb == b.rb && a.rl == b.rl && a.rx == b.rx && a.sp == b.sp
  {
    assert Visible(a).ac == a.ac && Visible(a).pc == a.pc && Visible(a).cc == a.cc && Visible(a).mode == a.mode;
    assert Visible(a).rb == a.rb && Visible(a).rl == a.rl && Visible(a).rx == a.rx && Visible(a).sp == a.sp;
    assert Visible(a).interrupts == a.interrupts;
  }

  /** What execution makes of the fetched machine decides what the cycle makes of `m`. */
  lemma Executed(m: Hw, op: int, mode: int, value: int, junk: int, c: Cpu)
    requires Next(m, op, mode, value)
    requires var o := Execute(Fetched(m), Instruction(op, mode, value), junk).m;
             Visible(o.cpu) == Visible(c) && o == Fetched(m).(cpu := o.cpu)
    ensures OnlyRegisters(m, AfterInstruction(m, junk), c)
  {
    NextIs(m, op, mode, value);
    assert AfterInstruction(m, junk) == CountCycle(Execute(Fetched(m), Instruction(op, mode, value), junk).m);
    hide Execute, AfterInstruction, Next, NextInstruction, Decode;
  }

  // ---------------------------------------------------------------- loads

  predicate LoadOp(op: int) {
    op in {OP_LOAD, OP_LOADRX, OP_LOADRB, OP_LOADRL, OP_LOADSP}
  }

  /** What each load puts into AC; LOADSP of an unreadable stack top keeps it. */
  function Loaded(m: Hw, op: int, mode: int, value: int): int
    requires op == OP_LOAD ==> HasOperand(m, mode, value)
  {
    if op == OP_LOAD then OperandWord(m, mode, value)
    else if op == OP_LOADRX then m.cpu.rx
    else if op == OP_LOADRB then m.cpu.rb
    else if op == OP_LOADRL then m.cpu.rl
    else if Addressable(m.cpu, m.cpu.sp) then m.ram[PhysicalAddress(m.cpu, m.cpu.sp)] else m.cpu.ac
  }

  /** Zero, sign digit set, or neither. */
  function FlagOf(word: int): int {
    if word == 0 then 0 else if word >= 10000000 then 1 else 2
  }

  /** After a load AC holds the operand, the register or the stack top, and the condition code tells its sign. */
  lemma LoadMeans(m: Hw, op: int, mode: int, value: int, junk: int)
    requires Next(m, op, mode, value) && LoadOp(op) && (op == OP_LOAD ==> HasOperand(m, mode, value))
    ensures var w := Loaded(m, op, mode, value);
            OnlyRegisters(m, AfterInstruction(m, junk), m.cpu.(pc := m.cpu.pc + 1, ac := w, cc := FlagOf(w)))
  {
    var inst, w := Instruction(op, mode, value), Loaded(m, op, mode, value);
    OperandFetched(m, op, mode, value, junk);
    assert Execute(Fetched(m), inst, junk) == ExecuteDataMovement(Fetched(m), inst, junk);
    LoadExecuted(m, op, mode, value, junk);
    hide AfterInstruction, Execute, ExecuteDataMovement, Next, HasOperand, Loaded, OnlyRegisters;
    Executed(m, op, mode, value, junk, m.cpu.(pc := m.cpu.pc + 1, ac := w, cc := FlagOf(w)));
  }

  lemma LoadExecuted(m: Hw, op: int, mode: int, value: int, junk: int)
    requires Next(m, op, mode, value) && LoadOp(op) && (op == OP_LOAD ==> HasOperand(m, mode, value))
    ensures var o, w := ExecuteDataMovement(Fetched(m), Instruction(op, mode, value), junk).m, Loaded(m, op, mode, value);
            o == Fetched(m).(cpu := Fetched(m).cpu.(ac := w, cc := FlagOf(w)))
  {
    OperandFetched(m, op, mode, value, junk);
    hide FetchOperand, WordToInt, HasOperand, OperandWord, Next;
  }

  /** The flag is that of the loaded value, for every word the processor itself produces. */
  lemma FlagIsSign(word: int)
    requires Canonical(word)
    ensures var v := WordToInt(word); FlagOf(word) == if v == 0 then 0 else if v < 0 then 1 else 2
  {
  }

  // ---------------------------------------------------------------- stores

  /** The address a store names. */
  function StoreAddress(m: Hw, op: int, mode: int, value: int): int {
    if op == OP_STRSP then m.cpu.sp else Named(m, mode, value)
  }

  /**
   STR and STRSP put AC into the cell they name, if they may write there and AC is between -999999 and 33999999, and
   latch an invalid address otherwise; they change no register.
   */
  lemma StoreMeans(m: Hw, op: int, mode: int, value: int, junk: int)
    requires Next(m, op, mode, value) && ((op == OP_STR && mode != IMMEDIATE) || op == OP_STRSP)
    ensures var n, a := AfterInstruction(m, junk), StoreAddress(m, op, mode, value);
            var granted := Addressable(m.cpu, a) && -1000000 < m.cpu.ac < 34000000;
            && Visible(n.cpu) == Visible(m.cpu).(pc := m.cpu.pc + 1)
            && n == m.(cpu := n.cpu, ram := n.ram, pending := n.pending)
            && n.ram == (if granted then m.ram[PhysicalAddress(m.cpu, a) := m.cpu.ac] else m.ram)
            && m.pending <= n.pending <= m.pending + {Timer, InvalidAddr}
            && (granted ==> n.pending <= m.pending + {Timer}) && (!granted ==> InvalidAddr in n.pending)
  {
    NextIs(m, op, mode, value);
    StoreExecuted(m, op, mode, value, junk);
    assert AfterInstruction(m, junk) == CountCycle(Execute(Fetched(m), Instruction(op, mode, value), junk).m);
    hide Execute, AfterInstruction, NextInstruction, Next, Decode, StoreAddress, Addressable, PhysicalAddress;
  }

  lemma StoreExecuted(m: Hw, op: int, mode: int, value: int, junk: int)
    requires (op == OP_STR && mode != IMMEDIATE) || op == OP_STRSP
    ensures var f, a := Fetched(m), StoreAddress(m, op, mode, value);
            Execute(f, Instruction(op, mode, value), junk).m ==
            if Addressable(m.cpu, a) && -1000000 < m.cpu.ac < 34000000
            then f.(ram := m.ram[PhysicalAddress(m.cpu, a) := m.cpu.ac]) else Raise(f, InvalidAddr)
  {
    var f, inst := Fetched(m), Instruction(op, mode, value);
    StorableRange(m.cpu.ac);
    assert Execute(f, inst, junk) == ExecuteDataMovement(f, inst, junk) == StoreAc(f, StoreAddress(m, op, mode, value));
    hide Execute, ExecuteDataMovement, Storable, WordToInt, StoreAddress;
  }

  /** The register stores change their own register and nothing else. */
  lemma RegisterStoreMeans(m: Hw, op: int, mode: int, value: int, junk: int)
    requires Next(m, op, mode, value) && op in {OP_STRRX, OP_STRRB, OP_STRRL}
    ensures var c := m.cpu.(pc := m.cpu.pc + 1);
            OnlyRegisters(m, AfterInstruction(m, junk),
                          if op == OP_STRRX then c.(rx := c.ac) else if op == OP_STRRB then c.(rb := c.ac) else c.(rl := c.ac))
  {
    var f, inst, c := Fetched(m), Instruction(op, mode, value), m.cpu.(pc := m.cpu.pc + 1);
    assert Execute(f, inst, junk) == ExecuteDataMovement(f, inst, junk);
    assert ExecuteDataMovement(f, inst, junk).m ==
           f.(cpu := if op == OP_STRRX then f.cpu.(rx := f.cpu.ac)
                     else if op == OP_STRRB then f.cpu.(rb := f.cpu.ac) else f.cpu.(rl := f.cpu.ac));
    hide Execute, ExecuteDataMovement, AfterInstruction, OnlyRegisters, Next;
    Executed(m, op, mode, value, junk,
             if op == OP_STRRX then c.(rx := c.ac) else if op == OP_STRRB then c.(rb := c.ac) else c.(rl := c.ac));
  }

  // ---------------------------------------------------------------- control and comparison

  /** How the accumulator must compare with the word on top of the stack for a conditional jump to be taken. */
  predicate Jumps(op: int, x: int, y: int) {
    match op
    case 9 => x == y
    case 10 => x != y
    case 11 => x < y
    case 12 => x > y
    case _ => false
  }

  /**
   JMPE, JMPNE, JMPLT and JMPLGT go to the named address exactly if AC is equal to, different from, less than or greater
   than the word on top of the stack, and otherwise on to the next instruction. Nothing else changes.
   */
  lemma BranchMeans(m: Hw, op: int, mode: int, value: int, junk: int)
    requires Next(m, op, mode, value) && 9 <= op <= 12 && Addressable(m.cpu, m.cpu.sp)
    ensures var x, y := WordToInt(m.cpu.ac), WordToInt(m.ram[PhysicalAddress(m.cpu, m.cpu.sp)]);
            OnlyRegisters(m, AfterInstruction(m, junk),
                          m.cpu.(pc := if Jumps(op, x, y) then Named(m, mode, value) else m.cpu.pc + 1))
  {
    var f, inst := Fetched(m), Instruction(op, mode, value);
    var x, y := WordToInt(m.cpu.ac), WordToInt(m.ram[PhysicalAddress(m.cpu, m.cpu.sp)]);
    var pc := if Jumps(op, x, y) then Named(m, mode, value) else m.cpu.pc + 1;
    assert Execute(f, inst, junk) == ExecuteBranching(f, inst);
    assert Read(f, f.cpu.sp, 0) == m.ram[PhysicalAddress(m.cpu, m.cpu.sp)] && Addressable(f.cpu, f.cpu.sp);
    assert ExecuteBranching(f, inst).m == f.(cpu := f.cpu.(pc := pc));
    hide Execute, ExecuteBranching, AfterInstruction, OnlyRegisters, Next, WordToInt;
    Executed(m, op, mode, value, junk, m.cpu.(pc := pc));
  }

  /**
   PSH moves SP down and puts AC there. At RX it latches an invalid address and does nothing; where it may not write, or
   for an AC outside -999999 to 33999999, it latches one after having moved SP.
   */
  lemma PushMeans(m: Hw, mode: int, value: int, junk: int)
    requires Next(m, OP_PSH, mode, value)
    ensures var n, sp := AfterInstruction(m, junk), m.cpu.sp - 1;
            var granted := Addressable(m.cpu, sp) && -1000000 < m.cpu.ac < 34000000;
            if sp < m.cpu.rx then Latches(m, n, InvalidAddr)
            else
              && Visible(n.cpu) == Visible(m.cpu).(pc := m.cpu.pc + 1, sp := sp)
              && n == m.(cpu := n.cpu, ram := n.ram, pending := n.pending)
              && n.ram == (if granted then m.ram[PhysicalAddress(m.cpu, sp) := m.cpu.ac] else m.ram)
              && m.pending <= n.pending <= m.pending + {Timer, InvalidAddr}
              && (granted ==> n.pending <= m.pending + {Timer}) && (!granted ==> InvalidAddr in n.pending)
  {
    NextIs(m, OP_PSH, mode, value);
    PushExecuted(m, mode, value, junk);
    assert AfterInstruction(m, junk) == CountCycle(Execute(Fetched(m), Instruction(OP_PSH, mode, value), junk).m);
    hide Execute, AfterInstruction, NextInstruction, Next, Decode, Addressable, PhysicalAddress;
  }

  lemma PushExecuted(m: Hw, mode: int, value: int, junk: int)
    ensures var f, sp := Fetched(m), m.cpu.sp - 1;
            var down := f.(cpu := f.cpu.(sp := sp));
            Execute(f, Instruction(OP_PSH, mode, value), junk).m ==
            if sp < m.cpu.rx then Raise(f, InvalidAddr)
            else if Addressable(m.cpu, sp) && -1000000 < m.cpu.ac < 34000000
            then down.(ram := m.ram[PhysicalAddress(m.cpu, sp) := m.cpu.ac]) else Raise(down, InvalidAddr)
  {
    StorableRange(m.cpu.ac);
    var f, inst := Fetched(m), Instruction(OP_PSH, mode, value);
    assert Execute(f, inst, junk) == ExecuteStackManipulation(f, inst);
    hide Execute, Storable;
  }

  /** POP loads the word at SP, if it can be read, and moves SP up; at RL it latches an invalid address and does nothing. */
  lemma PopMeans(m: Hw, mode: int, value: int, junk: int)
    requires Next(m, OP_POP, mode, value)
    ensures var n, c := AfterInstruction(m, junk), m.cpu;
            var w := if Addressable(c, c.sp) then m.ram[PhysicalAddress(c, c.sp)] else c.ac;
            if c.rb + c.sp >= c.rl then Latches(m, n, InvalidAddr)
            else OnlyRegisters(m, n, c.(pc := c.pc + 1, sp := c.sp + 1, ac := w, cc := FlagOf(w)))
  {
    var f, inst, c := Fetched(m), Instruction(OP_POP, mode, value), m.cpu;
    var w := if Addressable(c, c.sp) then m.ram[PhysicalAddress(c, c.sp)] else c.ac;
    NextIs(m, OP_POP, mode, value);
    assert Execute(f, inst, junk) == ExecuteStackManipulation(f, inst);
    assert AfterInstruction(m, junk) == CountCycle(Execute(f, inst, junk).m);
    assert c.rb + c.sp < c.rl ==> ExecuteStackManipulation(f, inst).m == f.(cpu := f.cpu.(sp := c.sp + 1, ac := w, cc := FlagOf(w)));
    if c.rb + c.sp < c.rl {
      hide Execute, ExecuteStackManipulation, AfterInstruction, OnlyRegisters, Next, NextInstruction, Decode;
      Executed(m, OP_POP, mode, value, junk, c.(pc := c.pc + 1, sp := c.sp + 1, ac := w, cc := FlagOf(w)));
    } else {
      assert ExecuteStackManipulation(f, inst).m == Raise(f, InvalidAddr);
      hide Execute, ExecuteStackManipulation, AfterInstruction, Next, NextInstruction, Decode;
    }
  }

  /** RETRN goes where the word at SP says and moves SP up, without a guard. */
  lemma ReturnMeans(m: Hw, mode: int, value: int, junk: int)
    requires Next(m, OP_RETRN, mode, value) && Addressable(m.cpu, m.cpu.sp)
    ensures OnlyRegisters(m, AfterInstruction(m, junk),
                          m.cpu.(pc := WordToInt(m.ram[PhysicalAddress(m.cpu, m.cpu.sp)]), sp := m.cpu.sp + 1))
  {
    var f, inst, to := Fetched(m), Instruction(OP_RETRN, mode, value), WordToInt(m.ram[PhysicalAddress(m.cpu, m.cpu.sp)]);
    assert Addressable(f.cpu, f.cpu.sp);
    assert Execute(f, inst, junk).m == ExecuteReturn(f).m == f.(cpu := f.cpu.(pc := to, sp := m.cpu.sp + 1));
    hide Execute, ExecuteReturn, AfterInstruction, OnlyRegisters, Next, WordToInt;
    Executed(m, OP_RETRN, mode, value, junk, m.cpu.(pc := to, sp := m.cpu.sp + 1));
  }

  /** With an unreadable stack top the conditional jumps, and RETRN, latch an invalid address and do nothing else. */
  lemma NoStackTop(m: Hw, op: int, mode: int, value: int, junk: int)
    requires Next(m, op, mode, value) && (9 <= op <= 12 || op == OP_RETRN) && !Addressable(m.cpu, m.cpu.sp)
    ensures Latches(m, AfterInstruction(m, junk), InvalidAddr)
  {
    var f, inst := Fetched(m), Instruction(op, mode, value);
    NextIs(m, op, mode, value);
    assert !Addressable(f.cpu, f.cpu.sp);
    assert Execute(f, inst, junk).m == (if op == OP_RETRN then ExecuteReturn(f).m else ExecuteBranching(f, inst).m) == Raise(f, InvalidAddr);
    assert AfterInstruction(m, junk) == CountCycle(Execute(f, inst, junk).m);
    hide Execute, AfterInstruction, Next, NextInstruction, Decode;
  }

  lemma JumpMeans(m: Hw, mode: int, value: int, junk: int)
    requires Next(m, OP_J, mode, value)
    ensures OnlyRegisters(m, AfterInstruction(m, junk), m.cpu.(pc := Named(m, mode, value)))
  {
    var f, inst := Fetched(m), Instruction(OP_J, mode, value);
    assert Execute(f, inst, junk).m == Jump(f, inst) == f.(cpu := f.cpu.(pc := Named(m, mode, value)));
    hide Execute, AfterInstruction, OnlyRegisters, Next, WordToInt;
    Executed(m, OP_J, mode, value, junk, m.cpu.(pc := Named(m, mode, value)));
  }

  /** COMP sets the condition code to zero, negative or positive as AC equals, precedes or exceeds the operand. */
  lemma ComparisonMeans(m: Hw, mode: int, value: int, junk: int)
    requires Next(m, OP_COMP, mode, value) && HasOperand(m, mode, value)
    ensures var x, y := WordToInt(m.cpu.ac), WordToInt(OperandWord(m, mode, value));
            var code := if x - y > 9999999 || y - x > 9999999 then 3 else if x == y then 0 else if x < y then 1 else 2;
            OnlyRegisters(m, AfterInstruction(m, junk), m.cpu.(pc := m.cpu.pc + 1, cc := code))
  {
    var f, inst := Fetched(m), Instruction(OP_COMP, mode, value);
    var x, y := WordToInt(m.cpu.ac), WordToInt(OperandWord(m, mode, value));
    var code := if x - y > 9999999 || y - x > 9999999 then 3 else if x == y then 0 else if x < y then 1 else 2;
    OperandFetched(m, OP_COMP, mode, value, junk);
    assert Execute(f, inst, junk) == ExecuteComparison(f, inst, junk);
    hide FetchOperand, HasOperand, OperandWord, Next, WordToInt;
    assert ExecuteComparison(f, inst, junk).m == f.(cpu := f.cpu.(cc := code));
    hide Execute, ExecuteComparison, AfterInstruction, OnlyRegisters;
    Executed(m, OP_COMP, mode, value, junk, m.cpu.(pc := m.cpu.pc + 1, cc := code));
  }

  /** HAB and DHAB switch interrupts on and off and change nothing else. */
  lemma EnableMeans(m: Hw, op: int, mode: int, value: int, junk: int)
    requires Next(m, op, mode, value) && (op == OP_HAB || op == OP_DHAB)
    ensures OnlyRegisters(m, AfterInstruction(m, junk), m.cpu.(pc := m.cpu.pc + 1, interrupts := op == OP_HAB))
  {
    var f, inst := Fetched(m), Instruction(op, mode, value);
    assert Execute(f, inst, junk).m == f.(cpu := f.cpu.(interrupts := op == OP_HAB));
    hide Execute, AfterInstruction, OnlyRegisters, Next;
    Executed(m, op, mode, value, junk, m.cpu.(pc := m.cpu.pc + 1, interrupts := op == OP_HAB));
  }

  /** CHMOD 0 and CHMOD 1 select user and kernel mode and change nothing else; any other value is an invalid instruction. */
  lemma ModeMeans(m: Hw, mode: int, value: int, junk: int)
    requires Next(m, OP_CHMOD, mode, value)
    ensures value <= 1 ==> OnlyRegisters(m, AfterInstruction(m, junk), m.cpu.(pc := m.cpu.pc + 1, mode := value))
    ensures value > 1 ==> Latches(m, AfterInstruction(m, junk), InvalidInstr)
  {
    var f, inst := Fetched(m), Instruction(OP_CHMOD, mode, value);
    NextIs(m, OP_CHMOD, mode, value);
    assert AfterInstruction(m, junk) == CountCycle(Execute(f, inst, junk).m);
    if value <= 1 {
      assert Execute(f, inst, junk).m == f.(cpu := f.cpu.(mode := value));
      hide Execute, AfterInstruction, OnlyRegisters, Next;
      Executed(m, OP_CHMOD, mode, value, junk, m.cpu.(pc := m.cpu.pc + 1, mode := value));
    } else {
      assert Execute(f, inst, junk).m == Raise(f, InvalidInstr);
      hide Execute, AfterInstruction, Next, NextInstruction, Decode;
    }
  }

  /** TTI sets the timer interval, a negative operand as an unsigned 64-bit number, and nothing else. */
  lemma TimerMeans(m: Hw, mode: int, value: int, junk: int)
    requires Next(m, OP_TTI, mode, value) && HasOperand(m, mode, value) && 0 <= m.cpu.cycles
    ensures var n, w := AfterInstruction(m, junk), WordToInt(OperandWord(m, mode, value));
            && Visible(n.cpu) == Visible(m.cpu).(pc := m.cpu.pc + 1, cc := OperandCode(m, mode, value),
                                                 timerLimit := if w < 0 then 18446744073709551616 + w else w)
            && n == m.(cpu := n.cpu, pending := n.pending) && m.pending <= n.pending <= m.pending + {Timer}
  {
    var f, inst, w := Fetched(m), Instruction(OP_TTI, mode, value), WordToInt(OperandWord(m, mode, value));
    var c := m.cpu.(pc := m.cpu.pc + 1, cc := OperandCode(m, mode, value), timerLimit := if w < 0 then TWO_TO_THE_64 + w else w);
    OperandFetched(m, OP_TTI, mode, value, junk);
    assert Execute(f, inst, junk) == ExecuteTimer(f, inst, junk);
    hide FetchOperand, HasOperand, OperandWord, OperandCode, Next, WordToInt;
    assert ExecuteTimer(f, inst, junk).m == f.(cpu := f.cpu.(cc := c.cc, timerLimit := c.timerLimit));
    hide Execute, ExecuteTimer, AfterInstruction;
    Executed(m, OP_TTI, mode, value, junk, c);
  }

  /** SVC latches a system call and changes nothing else. */
  lemma CallMeans(m: Hw, mode: int, value: int, junk: int)
    requires Next(m, OP_SVC, mode, value)
    ensures Latches(m, AfterInstruction(m, junk), Syscall)
  {
    NextIs(m, OP_SVC, mode, value);
    assert Execute(Fetched(m), Instruction(OP_SVC, mode, value), junk).m == Raise(Fetched(m), Syscall);
    assert AfterInstruction(m, junk) == CountCycle(Execute(Fetched(m), Instruction(OP_SVC, mode, value), junk).m);
    hide Execute, AfterInstruction, Next, NextInstruction, Decode;
  }

  // ---------------------------------------------------------------- faults

  /** The instruction is past, an interrupt is latched, and nothing else has changed. */
  ghost predicate Latches(m: Hw, n: Hw, irq: Irq) {
    && Visible(n.cpu) == Visible(m.cpu).(pc := m.cpu.pc + 1) && n == m.(cpu := n.cpu, pending := n.pending)
    && m.pending + {irq} <= n.pending <= m.pending + {irq, Timer}
  }

  /** Arithmetic, comparison and TTI without an operand latch an invalid address, or an invalid mode, and do nothing. */
  lemma NoOperand(m: Hw, op: int, mode: int, value: int, junk: int)
    requires Next(m, op, mode, value) && op in {OP_SUM, OP_RES, OP_MULT, OP_DIVI, OP_COMP, OP_TTI} && !HasOperand(m, mode, value)
    ensures Latches(m, AfterInstruction(m, junk), if mode == DIRECT || mode == INDEXED then InvalidAddr else InvalidInstr)
  {
    var f, inst := Fetched(m), Instruction(op, mode, value);
    NextIs(m, op, mode, value);
    OperandFetched(m, op, mode, value, junk);
    assert Execute(f, inst, junk).m == FetchOperand(f, inst, junk).m;
    assert AfterInstruction(m, junk) == CountCycle(Execute(f, inst, junk).m);
    hide FetchOperand, Execute, AfterInstruction, Next, NextInstruction, Decode, HasOperand, WordToInt;
  }

  /** A LOAD without an operand leaves in AC whatever the operand variable held, and latches an invalid address. */
  lemma LoadWithoutOperand(m: Hw, mode: int, value: int, junk: int)
    requires Next(m, OP_LOAD, mode, value) && !HasOperand(m, mode, value)
    ensures var n := AfterInstruction(m, junk);
            && InvalidAddr in n.pending && n.ram == m.ram
            && Visible(n.cpu) == Visible(m.cpu).(pc := m.cpu.pc + 1, ac := junk, cc := FlagOf(junk))
  {
    var f, inst := Fetched(m), Instruction(OP_LOAD, mode, value);
    NextIs(m, OP_LOAD, mode, value);
    OperandFetched(m, OP_LOAD, mode, value, junk);
    assert FetchOperand(f, inst, junk).word == junk;
    var q := FetchOperand(f, inst, junk).m;
    assert Execute(f, inst, junk).m == Raise(LoadAc(q, junk), InvalidAddr);
    assert AfterInstruction(m, junk) == CountCycle(Execute(f, inst, junk).m);
    hide FetchOperand, Execute, AfterInstruction, Next, NextInstruction, Decode, HasOperand, WordToInt;
  }

  /** Division by zero latches an invalid instruction and sets the condition code to overflow; AC stays. */
  lemma DivisionByZero(m: Hw, mode: int, value: int, junk: int)
    requires Next(m, OP_DIVI, mode, value) && HasOperand(m, mode, value) && WordToInt(OperandWord(m, mode, value)) == 0
    ensures var n := AfterInstruction(m, junk);
            && InvalidInstr in n.pending && n.pending <= m.pending + {InvalidInstr, Timer} && n.ram == m.ram
            && Visible(n.cpu) == Visible(m.cpu).(pc := m.cpu.pc + 1, cc := 3)
  {
    var f, inst := Fetched(m), Instruction(OP_DIVI, mode, value);
    NextIs(m, OP_DIVI, mode, value);
    OperandFetched(m, OP_DIVI, mode, value, junk);
    var q := FetchOperand(f, inst, junk).m;
    assert Execute(f, inst, junk).m == Raise(q, InvalidInstr).(cpu := q.cpu.(cc := CC_OVERFLOW));
    assert AfterInstruction(m, junk) == CountCycle(Execute(f, inst, junk).m);
    hide FetchOperand, Execute, AfterInstruction, Next, NextInstruction, Decode, HasOperand, OperandWord, WordToInt;
  }

  /** A refused fetch ends the process, having put the program counter into MAR and changed nothing else. */
  lemma FetchRefused(m: Hw, env: Env)
    requires !Addressable(m.cpu, m.cpu.pc)
    ensures CpuStep(m, env) == StepResult(m.(cpu := m.cpu.(mar := m.cpu.pc)), false, NoEffect)
  {
  }

  /** An opcode beyond the last latches an invalid instruction and changes nothing else. */
  lemma UndefinedOpcode(m: Hw, op: int, mode: int, value: int, junk: int)
    requires Next(m, op, mode, value) && op > 33
    ensures Latches(m, AfterInstruction(m, junk), InvalidInstr)
  {
    NextIs(m, op, mode, value);
    assert Execute(Fetched(m), Instruction(op, mode, value), junk).m == Raise(Fetched(m), InvalidInstr);
    hide Execute, Next, NextInstruction, Decode;
  }

  // ---------------------------------------------------------------- arithmetic

  /** The least remainder C's division leaves: smaller than the divisor, and signed like the dividend. */
  predicate Quotient(x: int, w: int, q: int) {
    var r := x - w * q;
    && (if r < 0 then -r else r) < (if w < 0 then -w else w)
    && (r == 0 || (r < 0 <==> x < 0))
  }

  /** There is only one. */
  lemma QuotientUnique(x: int, w: int, p: int, q: int)
    requires w != 0 && Quotient(x, w, p) && Quotient(x, w, q)
    ensures p == q
  {
    var r, t := x - w * p, x - w * q;
    assert t - r == w * (p - q);
    NoSmallMultiple(w, p - q);
  }

  lemma NoSmallMultiple(w: int, d: int)
    requires w != 0
    ensures d != 0 ==> (if w * d < 0 then -(w * d) else w * d) >= (if w < 0 then -w else w)
  {
    var a, b := if w < 0 then -w else w, if d < 0 then -d else d;
    if d != 0 {
      MulSign(b - 1, a);
      assert a * b == a + (b - 1) * a;
      assert w * d == a * b || w * d == -(a * b);
    }
  }

  lemma DivisionQuotient(x: int, w: int)
    requires w != 0
    ensures Quotient(x, w, TruncDiv(x, w))
  {
    TruncDivMod(x, w);
  }

  /** The decimal digits that fit, with the sign of the value. */
  predicate CutTo(v: int, y: int) {
    && -9999999 <= y <= 9999999 && (v - y) % 10000000 == 0 && (y == 0 || (y < 0 <==> v < 0))
  }

  /** Zero, negative, positive, or too large for seven digits. */
  function SignCode(v: int): int {
    if v > 9999999 || v < -9999999 then 3 else if v == 0 then 0 else if v < 0 then 1 else 2
  }

  lemma TruncationCuts(v: int)
    ensures CutTo(v, TruncMod(v, SIGN_BIT))
  {
  }

  /**
   One whole cycle of arithmetic, serviced overflow or preemption included: from accumulator x and operand w, SUM leaves
   x + w, RES leaves x - w and MULT leaves x * w, each cut to seven digits, and DIVI the quotient of x by w. The condition
   code tells the sign of the result, or that it did not fit.
   */
  lemma ArithmeticMeans(m: Hw, op: int, mode: int, value: int, env: Env)
    requires Next(m, op, mode, value) && op in {OP_SUM, OP_RES, OP_MULT, OP_DIVI} && HasOperand(m, mode, value)
    requires var w := WordToInt(OperandWord(m, mode, value)); op == OP_DIVI ==> w != 0
    requires Serviceable(m, m.cpu.(pc := m.cpu.pc + 1, ac := 0))
    ensures var x, w, r := WordToInt(m.cpu.ac), WordToInt(OperandWord(m, mode, value)), CpuStep(m, env);
            var y := WordToInt(r.m.cpu.ac);
            && r.alive && Canonical(r.m.cpu.ac)
            && (op == OP_SUM ==> CutTo(x + w, y) && r.m.cpu.cc == SignCode(x + w))
            && (op == OP_RES ==> CutTo(x - w, y) && r.m.cpu.cc == SignCode(x - w))
            && (op == OP_MULT ==> CutTo(x * w, y) && r.m.cpu.cc == SignCode(x * w))
            && (op == OP_DIVI ==> Quotient(x, w, y) && r.m.cpu.cc == SignCode(y))
            && Visible(r.m.cpu) == Visible(m.cpu).(ac := r.m.cpu.ac, cc := r.m.cpu.cc, pc := m.cpu.pc + 1)
  {
    var x, w := WordToInt(m.cpu.ac), WordToInt(OperandWord(m, mode, value));
    ArithmeticIsReady(m, op, mode, value, env.junk);
    ExactMeans(op, x, w);
    if op == OP_DIVI {
      DivisionQuotient(x, w);
      DivisionFits(x, w);
    }
    hide Next, HasOperand, AtArithmetic, WordToInt, CpuStep, Exact, NextResult, TruncMod, TruncDiv, Quotient, CutTo;
    ArithmeticStep(m, env);
    SameCode(CpuStep(m, env).m.cpu, m.cpu, NextResult(m, env.junk));
    TruncationCuts(NextResult(m, env.junk));
  }

  lemma SameCode(a: Cpu, b: Cpu, v: int)
    requires Visible(a) == Visible(b).(ac := a.ac, pc := b.pc + 1, cc := if Representable(v) then CodeOf(v) else CC_OVERFLOW)
    ensures a.cc == SignCode(v)
  {
    assert Visible(a).cc == a.cc;
  }

  lemma ExactMeans(op: int, x: int, w: int)
    requires op in {OP_SUM, OP_RES, OP_MULT, OP_DIVI} && (op == OP_DIVI ==> w != 0)
    ensures Exact(op, x, w) == if op == OP_SUM then x + w else if op == OP_RES then x - w else if op == OP_MULT then x * w else TruncDiv(x, w)
  {
  }

  lemma DivisionFits(x: int, w: int)
    requires w != 0 && Representable(x)
    ensures TruncMod(TruncDiv(x, w), SIGN_BIT) == TruncDiv(x, w)
  {
    QuotientBound(if x < 0 then -x else x, if w < 0 then -w else w);
  }

  lemma ArithmeticIsReady(m: Hw, op: int, mode: int, value: int, junk: int)
    requires Next(m, op, mode, value) && op in {OP_SUM, OP_RES, OP_MULT, OP_DIVI} && HasOperand(m, mode, value)
    requires var w := WordToInt(OperandWord(m, mode, value)); op == OP_DIVI ==> w != 0
    requires Serviceable(m, m.cpu.(pc := m.cpu.pc + 1, ac := 0))
    ensures AtArithmetic(m, junk) && Representable(WordToInt(m.cpu.ac))
    ensures NextResult(m, junk) == Exact(op, WordToInt(m.cpu.ac), WordToInt(OperandWord(m, mode, value)))
    ensures NextOperand(m, junk) == WordToInt(OperandWord(m, mode, value)) && NextInstruction(m).opCode == op
  {
    NextIs(m, op, mode, value);
    OperandFetched(m, op, mode, value, junk);
    WordToIntRange(m.cpu.ac);
    hide FetchOperand, WordToInt, NextInstruction, Next, HasOperand, OperandWord, Exact, Storable;
  }

  /** An arithmetic instruction with a usable operand that decodes to `w`, and room for a frame. */
  predicate Computes(m: Hw, op: int, mode: int, value: int, w: int) {
    && Next(m, op, mode, value) && HasOperand(m, mode, value) && WordToInt(OperandWord(m, mode, value)) == w
    && Serviceable(m, m.cpu.(pc := m.cpu.pc + 1, ac := 0))
  }

  /**
   RES undoes SUM, across interrupts and preemption, exactly if the sum fits in seven digits; a word the processor
   produced comes back as it was.
   */
  lemma SumThenDifference(m: Hw, mode: int, value: int, env: Env, again: Hw, mode': int, value': int, env': Env, w: int)
    requires Computes(m, OP_SUM, mode, value, w) && Computes(again, OP_RES, mode', value', w)
    requires Undisturbed(CpuStep(m, env).m, again)
    ensures var x, back := WordToInt(m.cpu.ac), CpuStep(again, env').m.cpu.ac;
            && (WordToInt(back) == x <==> -9999999 <= x + w <= 9999999)
            && (Canonical(m.cpu.ac) && -9999999 <= x + w <= 9999999 ==> back == m.cpu.ac)
  {
    hide Next, HasOperand, Serviceable, OperandWord, CpuStep, Undisturbed, CutTo;
    ArithmeticMeans(m, OP_SUM, mode, value, env);
    SameAccumulator(CpuStep(m, env).m, again);
    ArithmeticMeans(again, OP_RES, mode', value', env');
    var x, y, back := WordToInt(m.cpu.ac), WordToInt(again.cpu.ac), CpuStep(again, env').m.cpu.ac;
    OperandRange(m, mode, value);
    CutAndBack(x, w, y, WordToInt(back));
    WordRoundTrip(m.cpu.ac);
    WordRoundTrip(back);
    hide WordToInt, IntToWord;
  }

  lemma OperandRange(m: Hw, mode: int, value: int)
    requires HasOperand(m, mode, value)
    ensures Representable(WordToInt(m.cpu.ac)) && Representable(WordToInt(OperandWord(m, mode, value)))
  {
    WordToIntRange(m.cpu.ac);
    WordToIntRange(OperandWord(m, mode, value));
  }

  lemma CutAndBack(x: int, w: int, y: int, z: int)
    requires Representable(x) && Representable(w) && CutTo(x + w, y) && CutTo(y - w, z)
    ensures z == x <==> -9999999 <= x + w <= 9999999
  {
  }
}
