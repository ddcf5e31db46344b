/**
 The processor as a value: what memory.c, cpu.c, syscalls.c and the transfer body of dma.c do to the
 global registers, RAM, disk and interrupt latches. The Machine class is proved against these functions.
 */
module Processor {
  import opened Definitions
  import opened Words

  /** Everything one CPU step can read or write, apart from the process table. */
  datatype Hw = Hw(
    cpu: Cpu, ram: Memory, disk: DiskImage, dma: Dma,
    pending: set<Irq>, related: int, osYield: bool)

  /** The typed number as a 32-bit int, without the one value whose negation intToWord cannot represent. */
  type Typed = v: int | -0x7FFF_FFFF <= v <= 0x7FFF_FFFF

  /**
   What the world supplies to one step: whether the monitor is open, the number the user types (already cast
   to 32 bits), and the contents of the C variable a failed read leaves uninitialised.
   */
  datatype Env = Env(monitor: bool, input: Typed, junk: int)

  /** What a step does to the active process's table entry or shows to the user. */
  datatype Effect = NoEffect | Prints(value: int) | AwaitsMonitor | Sleeps(tics: int) | RejectsSleep(tics: int)

  /** A line shown to the user on behalf of a process. */
  datatype Event = Event(pid: int, effect: Effect)

  function Emitted(pid: int, e: Effect): seq<Event> {
    if e.Prints? || e.RejectsSleep? then [Event(pid, e)] else []
  }

  function Commit(p: Pcb, e: Effect): Pcb {
    match e
    case AwaitsMonitor => p.(state := BlockedIo)
    case Sleeps(n) => p.(state := Blocked, sleepTics := n)
    case _ => p
  }

  datatype MemStatus = MemOk | OutOfBounds | Protection | InvalidData

  // ---------------------------------------------------------------- memory.c

  function PhysicalAddress(cpu: Cpu, logical: int): int {
    if cpu.mode == MODE_KERNEL then logical else logical + cpu.rb
  }

  function AccessStatus(cpu: Cpu, logical: int): MemStatus {
    var p := PhysicalAddress(cpu, logical);
    if cpu.mode != MODE_KERNEL && (p < cpu.rb || p > cpu.rl) then Protection
    else if p < 0 || p >= RAM_SIZE then OutOfBounds
    else MemOk
  }

  predicate Addressable(cpu: Cpu, logical: int) {
    AccessStatus(cpu, logical) == MemOk
  }

  /** readMemory: `otherwise` is what the caller's variable holds when the access is refused. */
  function Read(m: Hw, logical: int, otherwise: int): int {
    if Addressable(m.cpu, logical) then m.ram[PhysicalAddress(m.cpu, logical)] else otherwise
  }

  function WriteStatus(cpu: Cpu, logical: int, w: int): MemStatus {
    if !Storable(w) then InvalidData else AccessStatus(cpu, logical)
  }

  function Write(m: Hw, logical: int, w: int): Hw {
    if WriteStatus(m.cpu, logical, w) == MemOk
    then m.(ram := m.ram[PhysicalAddress(m.cpu, logical) := w])
    else m
  }

  // ---------------------------------------------------------------- interrupts and context

  function Raise(m: Hw, irq: Irq): Hw {
    m.(pending := m.pending + {irq})
  }

  function UpdateFlags(c: Cpu): Cpu {
    c.(cc := if c.ac == 0 then CC_ZERO else if c.ac >= SIGN_BIT then CC_NEG else CC_POS)
  }

  function Push(m: Hw, w: int): Hw {
    var down := m.(cpu := m.cpu.(sp := m.cpu.sp - 1));
    Write(down, down.cpu.sp, w)
  }

  function Popped(m: Hw): int {
    Read(m, m.cpu.sp, 0)
  }

  /** Pushes words in order, so that the last one ends up on top. */
  function PushAll(m: Hw, words: seq<int>): Hw
    decreases |words|
  {
    if words == [] then m else PushAll(Push(m, words[0]), words[1..])
  }

  function SaveContext(m: Hw): Hw {
    var c := m.cpu;
    PushAll(m, [c.rx, c.rl, c.rb, c.mode, c.cc, c.pc, c.ac])
  }

  datatype Register = Ac | Pc | Cc | Mode | Rb | Rl | Rx

  function Assign(c: Cpu, r: Register, w: int): Cpu {
    match r
    case Ac => c.(ac := w)
    case Pc => c.(pc := w)
    case Cc => c.(cc := w)
    case Mode => c.(mode := w)
    case Rb => c.(rb := w)
    case Rl => c.(rl := w)
    case Rx => c.(rx := w)
  }

  /** Pops one word into a register; later pops are translated with whatever that changed. */
  function PopInto(m: Hw, r: Register): Hw {
    m.(cpu := Assign(m.cpu, r, Popped(m)).(sp := m.cpu.sp + 1))
  }

  function PopAll(m: Hw, registers: seq<Register>): Hw
    decreases |registers|
  {
    if registers == [] then m else PopAll(PopInto(m, registers[0]), registers[1..])
  }

  /** The accumulator an overflow or underflow handler computed is kept; every other register is popped. */
  function RestoreContext(m: Hw, code: Irq): Hw {
    var r := PopAll(m, [Ac, Pc, Cc, Mode, Rb, Rl, Rx]);
    if code != Overflow && code != Underflow then r else r.(cpu := r.cpu.(ac := m.cpu.ac))
  }

  /** The six pops that follow the accumulator's. */
  function AfterAccumulator(m: Hw): Hw {
    PopInto(PopInto(PopInto(PopInto(PopInto(PopInto(m, Pc), Cc), Mode), Rb), Rl), Rx)
  }

  lemma SaveUnrolled(m: Hw)
    ensures var c := m.cpu;
            SaveContext(m) == Push(Push(Push(Push(Push(Push(Push(m, c.rx), c.rl), c.rb), c.mode), c.cc), c.pc), c.ac)
  {
    hide Push;
    var c := m.cpu;
    var ws := [c.rx, c.rl, c.rb, c.mode, c.cc, c.pc, c.ac];
    var m1 := Push(m, c.rx);
    var m2 := Push(m1, c.rl);
    var m3 := Push(m2, c.rb);
    var m4 := Push(m3, c.mode);
    var m5 := Push(m4, c.cc);
    var m6 := Push(m5, c.pc);
    assert ws[1..][1..] == ws[2..] && ws[2..][1..] == ws[3..] && ws[3..][1..] == ws[4..] && ws[4..][1..] == ws[5..];
    assert ws[5..][1..] == ws[6..] && ws[6..][1..] == [];
    assert PushAll(m, ws) == PushAll(m1, ws[1..]) == PushAll(m2, ws[2..]) == PushAll(m3, ws[3..]);
    assert PushAll(m3, ws[3..]) == PushAll(m4, ws[4..]) == PushAll(m5, ws[5..]) == PushAll(m6, ws[6..]);
    assert PushAll(m6, ws[6..]) == PushAll(Push(m6, c.ac), []);
  }

  lemma PopUnrolled(m: Hw)
    ensures PopAll(m, [Ac, Pc, Cc, Mode, Rb, Rl, Rx]) == AfterAccumulator(PopInto(m, Ac))
  {
    hide PopInto;
    var rs := [Ac, Pc, Cc, Mode, Rb, Rl, Rx];
    var m1 := PopInto(m, Ac);
    var m2 := PopInto(m1, Pc);
    var m3 := PopInto(m2, Cc);
    var m4 := PopInto(m3, Mode);
    var m5 := PopInto(m4, Rb);
    var m6 := PopInto(m5, Rl);
    assert rs[1..][1..] == rs[2..] && rs[2..][1..] == rs[3..] && rs[3..][1..] == rs[4..] && rs[4..][1..] == rs[5..];
    assert rs[5..][1..] == rs[6..] && rs[6..][1..] == [];
    assert PopAll(m, rs) == PopAll(m1, rs[1..]) == PopAll(m2, rs[2..]) == PopAll(m3, rs[3..]);
    assert PopAll(m3, rs[3..]) == PopAll(m4, rs[4..]) == PopAll(m5, rs[5..]) == PopAll(m6, rs[6..]);
    assert PopAll(m6, rs[6..]) == PopAll(PopInto(m6, Rx), []);
  }

  // ---------------------------------------------------------------- syscalls.c

  datatype Verdict = Success | Halt | Block | Unknown

  datatype SyscallResult = SyscallResult(m: Hw, verdict: Verdict, effect: Effect)

  /** Moves the saved program counter back onto the SVC, so that the process retries it when it next runs. */
  function RewindSavedPc(m: Hw, junk: int): Hw {
    var v := WordToInt(Read(m, m.cpu.sp + 1, junk)) - 1;
    Write(m.(cpu := m.cpu.(cc := CodeOf(v))), m.cpu.sp + 1, IntToWord(v))
  }

  function HandleSyscall(m: Hw, env: Env): SyscallResult {
    var userSp := m.cpu.sp + 7;
    var readable := Addressable(m.cpu, userSp);
    var param := WordToInt(Read(m, userSp, env.junk));
    match WordToInt(m.cpu.ac)
    case 1 => SyscallResult(m, Halt, NoEffect)
    case 2 =>
      if !readable then SyscallResult(m, Halt, NoEffect)
      else if env.monitor then SyscallResult(m, Success, Prints(param))
      else SyscallResult(RewindSavedPc(m, env.junk), Block, AwaitsMonitor)
    case 3 =>
      if env.monitor then
        SyscallResult(Write(m.(cpu := m.cpu.(cc := CodeOf(env.input))), m.cpu.sp, IntToWord(env.input)), Success, NoEffect)
      else SyscallResult(RewindSavedPc(m, env.junk), Block, AwaitsMonitor)
    case 4 =>
      if !readable then SyscallResult(m, Halt, NoEffect)
      else if param < 0 then SyscallResult(m, Halt, RejectsSleep(param))
      else if param == 0 then SyscallResult(m, Success, NoEffect)
      else SyscallResult(m, Block, Sleeps(param))
    case _ => SyscallResult(m, Unknown, NoEffect)
  }

  /** The outcome of servicing interrupts and of a whole step: `alive` is the C function's boolean result. */
  datatype StepResult = StepResult(m: Hw, alive: bool, effect: Effect)

  function HandleInterrupt(m: Hw, code: Irq, env: Env): StepResult {
    match code
    case InvalidInstr => StepResult(m, false, NoEffect)
    case InvalidAddr => StepResult(m, false, NoEffect)
    case Overflow =>
      var v := TruncMod(m.related, MAX_MAGNITUDE + 1);
      StepResult(m.(cpu := m.cpu.(ac := IntToWord(v), cc := CodeOf(v))), true, NoEffect)
    case Underflow => StepResult(m.(cpu := m.cpu.(ac := IntToWord(0), cc := CodeOf(0))), true, NoEffect)
    case Timer => StepResult(m.(osYield := true), true, NoEffect)
    case IoDone => StepResult(m, true, NoEffect)
    case Syscall =>
      var r := HandleSyscall(m, env);
      StepResult(if r.verdict == Block then r.m.(osYield := true) else r.m, r.verdict != Halt, r.effect)
    case InvalidSyscall => StepResult(m, true, NoEffect)
    case InvalidIntCode => StepResult(m, true, NoEffect)
  }

  function MostUrgent(pending: set<Irq>): Irq {
    if InvalidInstr in pending then InvalidInstr
    else if InvalidAddr in pending then InvalidAddr
    else if Overflow in pending then Overflow
    else if Underflow in pending then Underflow
    else if Syscall in pending then Syscall
    else if Timer in pending then Timer
    else if IoDone in pending then IoDone
    else if InvalidSyscall in pending then InvalidSyscall
    else InvalidIntCode
  }

  /** The service of one pending interrupt: save, handle, clear its bit, restore if the process goes on. */
  function Service(m: Hw, code: Irq, env: Env): StepResult {
    var saved := SaveContext(m.(cpu := m.cpu.(interrupts := false)));
    var h := HandleInterrupt(saved, code, env);
    var cleared := h.m.(pending := h.m.pending - {code});
    var back := if h.alive then RestoreContext(cleared, code) else cleared;
    StepResult(back.(cpu := back.cpu.(interrupts := true)), h.alive, h.effect)
  }

  function CheckInterrupts(m: Hw, env: Env): StepResult {
    if m.pending == {} || !m.cpu.interrupts then StepResult(m, true, NoEffect)
    else Service(m, MostUrgent(m.pending), env)
  }

  // ---------------------------------------------------------------- instructions

  /** An instruction's result: `ok` is INSTR_EXEC_SUCCESS or CPU_OK. */
  datatype Outcome = Outcome(m: Hw, ok: bool)

  datatype Operand = Operand(m: Hw, ok: bool, word: int)

  function EffectiveAddress(cpu: Cpu, inst: Instruction): int {
    if inst.direction == INDEXED then inst.value + WordToInt(cpu.ac) else inst.value
  }

  function FetchOperand(m: Hw, inst: Instruction, junk: int): Operand {
    if inst.direction == IMMEDIATE then
      Operand(m.(cpu := m.cpu.(cc := CodeOf(inst.value))), true, IntToWord(inst.value))
    else if inst.direction == DIRECT || inst.direction == INDEXED then
      var a := EffectiveAddress(m.cpu, inst);
      if Addressable(m.cpu, a) then Operand(m, true, Read(m, a, junk)) else Operand(Raise(m, InvalidAddr), false, junk)
    else Operand(Raise(m, InvalidInstr), false, junk)
  }

  /** The unbounded value an arithmetic instruction asks for. */
  function Exact(op: int, a: int, b: int): int
    requires op == OP_DIVI ==> b != 0
  {
    if op == OP_SUM then a + b else if op == OP_RES then a - b else if op == OP_MULT then a * b
    else if op == OP_DIVI then TruncDiv(a, b) else 0
  }

  function ExecuteArithmetic(m: Hw, inst: Instruction, junk: int): Outcome {
    var f := FetchOperand(m, inst, junk);
    var a, b := WordToInt(f.m.cpu.ac), WordToInt(f.word);
    var op := inst.opCode;
    if !f.ok then Outcome(f.m, false)
    else if op != OP_SUM && op != OP_RES && op != OP_MULT && op != OP_DIVI then Outcome(Raise(f.m, InvalidInstr), false)
    else if op == OP_DIVI && b == 0 then
      Outcome(Raise(f.m, InvalidInstr).(cpu := f.m.cpu.(cc := CC_OVERFLOW)), false)
    else
      var result := Exact(op, a, b);
      var kept := if op == OP_MULT then TruncMod(result, MAX_MAGNITUDE + 1) else result;
      var cc := if op == OP_MULT && !Representable(result) then CC_OVERFLOW else CodeOf(kept);
      var done := f.m.(cpu := f.m.cpu.(ac := IntToWord(kept), cc := cc));
      Outcome(if cc == CC_OVERFLOW then Raise(done, Overflow).(related := result) else done, true)
  }

  function ExecuteInterruptsChange(m: Hw, inst: Instruction): Outcome {
    if inst.opCode == OP_HAB then Outcome(m.(cpu := m.cpu.(interrupts := true)), true)
    else if inst.opCode == OP_DHAB then Outcome(m.(cpu := m.cpu.(interrupts := false)), true)
    else Outcome(Raise(m, InvalidInstr), false)
  }

  function StoreAc(m: Hw, a: int): Outcome {
    if WriteStatus(m.cpu, a, m.cpu.ac) == MemOk then Outcome(Write(m, a, m.cpu.ac), true)
    else Outcome(Raise(m, InvalidAddr), false)
  }

  function LoadAc(m: Hw, w: int): Hw {
    m.(cpu := UpdateFlags(m.cpu.(ac := w)))
  }

  function ExecuteDataMovement(m: Hw, inst: Instruction, junk: int): Outcome {
    var op := inst.opCode;
    if op == OP_STR then
      if inst.direction == IMMEDIATE then Outcome(Raise(m, InvalidInstr), false)
      else StoreAc(m, EffectiveAddress(m.cpu, inst))
    else if op == OP_LOAD then
      var f := FetchOperand(m, inst, junk);
      var loaded := LoadAc(f.m, f.word);
      if f.ok then Outcome(loaded, true) else Outcome(Raise(loaded, InvalidAddr), false)
    else if op == OP_STRRX then Outcome(m.(cpu := m.cpu.(rx := m.cpu.ac)), true)
    else if op == OP_STRRB then Outcome(m.(cpu := m.cpu.(rb := m.cpu.ac)), true)
    else if op == OP_STRRL then Outcome(m.(cpu := m.cpu.(rl := m.cpu.ac)), true)
    else if op == OP_STRSP then StoreAc(m, m.cpu.sp)
    else if op == OP_LOADRX then Outcome(LoadAc(m, m.cpu.rx), true)
    else if op == OP_LOADRB then Outcome(LoadAc(m, m.cpu.rb), true)
    else if op == OP_LOADRL then Outcome(LoadAc(m, m.cpu.rl), true)
    else if op == OP_LOADSP then Outcome(LoadAc(m, Read(m, m.cpu.sp, m.cpu.ac)), true)
    else Outcome(Raise(m, InvalidInstr), true)
  }

  predicate Taken(op: int, ac: int, top: int) {
    || (op == OP_JMPE && ac == top)
    || (op == OP_JMPNE && ac != top)
    || (op == OP_JMPLT && ac < top)
    || (op == OP_JMPLGT && ac > top)
  }

  function Jump(m: Hw, inst: Instruction): Hw {
    m.(cpu := m.cpu.(pc := EffectiveAddress(m.cpu, inst)))
  }

  function ExecuteBranching(m: Hw, inst: Instruction): Outcome {
    if inst.opCode == OP_J then Outcome(Jump(m, inst), true)
    else if !Addressable(m.cpu, m.cpu.sp) then Outcome(Raise(m, InvalidAddr), false)
    else if inst.opCode < OP_JMPE || inst.opCode > OP_JMPLGT then Outcome(Raise(m, InvalidInstr), true)
    else if Taken(inst.opCode, WordToInt(m.cpu.ac), WordToInt(Read(m, m.cpu.sp, 0))) then Outcome(Jump(m, inst), true)
    else Outcome(m, true)
  }

  function ExecuteComparison(m: Hw, inst: Instruction, junk: int): Outcome {
    var f := FetchOperand(m, inst, junk);
    if !f.ok then Outcome(f.m, false)
    else Outcome(f.m.(cpu := f.m.cpu.(cc := CodeOf(WordToInt(f.m.cpu.ac) - WordToInt(f.word)))), true)
  }

  function ExecuteStackManipulation(m: Hw, inst: Instruction): Outcome {
    var c := m.cpu;
    if inst.opCode == OP_PSH then
      if c.sp - 1 < c.rx then Outcome(Raise(m, InvalidAddr), false)
      else StoreAc(m.(cpu := c.(sp := c.sp - 1)), c.sp - 1)
    else if inst.opCode == OP_POP then
      if c.sp + c.rb >= c.rl then Outcome(Raise(m, InvalidAddr), false)
      else Outcome(LoadAc(m.(cpu := c.(sp := c.sp + 1)), Read(m, c.sp, c.ac)), true)
    else Outcome(Raise(m, InvalidInstr), false)
  }

  function ExecuteReturn(m: Hw): Outcome {
    if !Addressable(m.cpu, m.cpu.sp) then Outcome(Raise(m, InvalidAddr), false)
    else Outcome(m.(cpu := m.cpu.(pc := WordToInt(Read(m, m.cpu.sp, 0)), sp := m.cpu.sp + 1)), true)
  }

  predicate OnDisk(track: int, cylinder: int, sector: int) {
    0 <= track < DISK_TRACKS && 0 <= cylinder < DISK_CYLINDERS && 0 <= sector < DISK_SECTORS
  }

  function Linear(track: int, cylinder: int, sector: int): int {
    track * (DISK_CYLINDERS * DISK_SECTORS) + cylinder * DISK_SECTORS + sector
  }

  /** The disk position the DMA registers name. */
  function DmaPosition(d: Dma): int {
    Linear(d.track, d.cylinder, d.sector)
  }

  /** One pass of the DMA worker over a pending request. */
  function Transfer(m: Hw): Hw {
    var d := m.dma;
    var on := OnDisk(d.track, d.cylinder, d.sector);
    var at := Linear(d.track, d.cylinder, d.sector);
    if !on || !(0 <= d.memAddr < RAM_SIZE) then Raise(m.(dma := d.(status := 1)), InvalidAddr)
    else if d.ioDirection == 1 then
      Raise(m.(dma := d.(status := 0), disk := m.disk[at := m.ram[d.memAddr]]), IoDone)
    else Raise(m.(dma := d.(status := 0), ram := m.ram[d.memAddr := m.disk[at]]), IoDone)
  }

  /** Registers are set before a failed operand fetch is reported, as in the source. */
  function ExecuteDma(m: Hw, inst: Instruction, junk: int): Outcome {
    var f := FetchOperand(m, inst, junk);
    var v := WordToInt(f.word);
    var d := f.m.dma;
    var bad := Outcome(Raise(f.m, InvalidInstr), false);
    var op := inst.opCode;
    if op == OP_SDMAP then if 0 <= v < DISK_TRACKS then Checked(f, d.(track := v)) else bad
    else if op == OP_SDMAC then if 0 <= v < DISK_CYLINDERS then Checked(f, d.(cylinder := v)) else bad
    else if op == OP_SDMAS then if 0 <= v < DISK_SECTORS then Checked(f, d.(sector := v)) else bad
    else if op == OP_SDMAIO then if v == 0 || v == 1 then Checked(f, d.(ioDirection := v)) else bad
    else if op == OP_SDMAM then
      var p := if m.cpu.mode == MODE_KERNEL then v else m.cpu.rb + v;
      if m.cpu.mode != MODE_KERNEL && p > m.cpu.rl then Outcome(Raise(f.m, InvalidAddr), false)
      else if 0 <= p < RAM_SIZE then Checked(f, d.(memAddr := p)) else bad
    else if op == OP_SDMAON then
      var t := Transfer(f.m);
      if f.ok then Outcome(t, true) else Outcome(Raise(t, InvalidAddr), false)
    else bad
  }

  function Checked(f: Operand, d: Dma): Outcome {
    var m := f.m.(dma := d);
    if f.ok then Outcome(m, true) else Outcome(Raise(m, InvalidAddr), false)
  }

  function ExecuteTimer(m: Hw, inst: Instruction, junk: int): Outcome {
    var f := FetchOperand(m, inst, junk);
    var v := WordToInt(f.word);
    if !f.ok then Outcome(f.m, false)
    else Outcome(f.m.(cpu := f.m.cpu.(timerLimit := if v >= 0 then v else v + TWO_TO_THE_64)), true)
  }

  function ExecuteChangeMode(m: Hw, inst: Instruction): Outcome {
    if inst.value == 0 then Outcome(m.(cpu := m.cpu.(mode := MODE_USER)), true)
    else if inst.value == 1 then Outcome(m.(cpu := m.cpu.(mode := MODE_KERNEL)), true)
    else Outcome(Raise(m, InvalidInstr), false)
  }

  function Execute(m: Hw, inst: Instruction, junk: int): Outcome {
    var op := inst.opCode;
    if OP_SUM <= op <= OP_DIVI then ExecuteArithmetic(m, inst, junk)
    else if OP_LOAD <= op <= OP_STRRX then ExecuteDataMovement(m, inst, junk)
    else if op == OP_COMP then ExecuteComparison(m, inst, junk)
    else if OP_JMPE <= op <= OP_JMPLGT then ExecuteBranching(m, inst)
    else if op == OP_SVC then Outcome(Raise(m, Syscall), true)
    else if op == OP_RETRN then ExecuteReturn(m)
    else if op == OP_HAB || op == OP_DHAB then ExecuteInterruptsChange(m, inst)
    else if op == OP_TTI then ExecuteTimer(m, inst, junk)
    else if op == OP_CHMOD then ExecuteChangeMode(m, inst)
    else if OP_LOADRB <= op <= OP_STRSP then ExecuteDataMovement(m, inst, junk)
    else if op == OP_PSH || op == OP_POP then ExecuteStackManipulation(m, inst)
    else if op == OP_J then ExecuteBranching(m, inst)
    else if OP_SDMAP <= op <= OP_SDMAON then ExecuteDma(m, inst, junk)
    else Outcome(Raise(m, InvalidInstr), false)
  }

  // ---------------------------------------------------------------- the cycle

  /** A successful fetch; only meaningful when the program counter is addressable. */
  function Fetched(m: Hw): Hw {
    var w := Read(m, m.cpu.pc, 0);
    m.(cpu := m.cpu.(mar := m.cpu.pc, mdr := w, ir := w, pc := m.cpu.pc + 1))
  }

  function CountCycle(m: Hw): Hw {
    var n := if m.cpu.cycles + 1 == TWO_TO_THE_64 then 0 else m.cpu.cycles + 1;
    if n >= m.cpu.timerLimit && m.cpu.timerLimit > 0
    then Raise(m.(cpu := m.cpu.(cycles := 0)), Timer)
    else m.(cpu := m.cpu.(cycles := n))
  }

  function AfterInstruction(m: Hw, junk: int): Hw {
    var f := Fetched(m);
    CountCycle(Execute(f, Decode(f.cpu.ir), junk).m)
  }

  function CpuStep(m: Hw, env: Env): StepResult {
    if !Addressable(m.cpu, m.cpu.pc) then StepResult(m.(cpu := m.cpu.(mar := m.cpu.pc)), false, NoEffect)
    else CheckInterrupts(AfterInstruction(m, env.junk), env)
  }
}
