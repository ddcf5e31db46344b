/**
 Multiplexing is transparent: a process that is preempted by timer interrupts and interleaved with others behaves,
 step for step, as it does alone on a processor whose timer is switched off.
 */
module Multiplexing {
  import opened Definitions
  import opened Words
  import opened Processor
  import opened Context
  import opened SystemCalls
  import opened Confinement
  import opened Kernel
  import opened Invariants
  import opened Isolation

  /** Code and data below RX, and the stack from SP up: the logical addresses a process may rely on. */
  predicate LiveAddress(c: Cpu, x: int) {
    0 <= x <= c.rl - c.rb && (x < c.rx || c.sp <= x)
  }

  /** The registers a program depends on: all but the bus buffers, the cycle counter and the timer interval. */
  predicate SameCore(c: Cpu, d: Cpu) {
    && c.ac == d.ac && c.pc == d.pc && c.cc == d.cc && c.mode == d.mode && c.interrupts == d.interrupts
    && c.rb == d.rb && c.rl == d.rl && c.rx == d.rx && c.sp == d.sp
  }

  /** Equal registers and equal live memory. */
  ghost predicate Twins(a: Hw, b: Hw) {
    && SameCore(a.cpu, b.cpu)
    && forall p :: 0 <= p < RAM_SIZE && LiveAddress(a.cpu, p - a.cpu.rb) ==> b.ram[p] == a.ram[p]
  }

  /** A dedicated processor: no timer, nothing pending between cycles. */
  predicate Dedicated(b: Hw) {
    b.cpu.timerLimit == 0 && b.pending == {}
  }

  predicate ReadsOperand(op: int) {
    OP_SUM <= op <= OP_LOAD || op == OP_COMP
  }

  /** An instruction's memory operand, if it has one, is live. */
  predicate OperandLive(c: Cpu, inst: Instruction) {
    var a := EffectiveAddress(c, inst);
    ReadsOperand(inst.opCode) && inst.direction != IMMEDIATE && Addressable(c, a) ==> LiveAddress(c, a)
  }

  predicate Faulted(m: Hw) {
    InvalidInstr in m.pending || InvalidAddr in m.pending
  }

  /** The calls that end their process; see SystemCalls.CallEnds. */
  predicate FatalCall(m: Hw) {
    || Requested(m) == 1
    || (Requested(m) in {2, 4} && !Addressable(m.cpu, m.cpu.sp))
    || (Requested(m) == 4 && Parameter(m, 0) < 0)
  }

  /** A service is due from which the process will return; faults and fatal calls end it whatever is saved. */
  predicate NeedsFrame(m: Hw) {
    m.pending != {} && !Faulted(m) && !(MostUrgent(m.pending) == Syscall && FatalCall(m))
  }

  /** The hypothesis on one cycle of a program. */
  predicate Disciplined(m: Hw, junk: int) {
    Addressable(m.cpu, m.cpu.pc) ==>
      && Confined(NextInstruction(m)) && LiveAddress(m.cpu, m.cpu.pc)
      && OperandLive(Fetched(m).cpu, NextInstruction(m))
      && (NeedsFrame(AfterInstruction(m, junk)) ==> FrameFits(AfterInstruction(m, junk).cpu))
  }

  // ---------------------------------------------------------------- one instruction on twins

  /** Both sides latched the same synchronous interrupt, with the same overflow value, or none. */
  ghost predicate SameLatch(a: Hw, oa: Hw, ob: Hw) {
    && oa.pending == a.pending + ob.pending
    && AtMostOneMore({}, ob.pending)
    && (Overflow in ob.pending ==> oa.related == ob.related && oa.cpu.ac == IntToWord(oa.related))
  }

  /** Equal latches and registers, and equal live memory unless the process has just faulted. */
  ghost predicate SameResult(a: Hw, oa: Hw, ob: Hw) {
    && SameCore(oa.cpu, ob.cpu) && SameLatch(a, oa, ob)
    && (!Faulted(ob) ==> Twins(oa, ob))
  }

  lemma TwinStore(a: Hw, b: Hw, x: int)
    requires Sound(a.cpu) && Twins(a, b) && b.pending == {}
    ensures SameResult(a, StoreAc(a, x).m, StoreAc(b, x).m)
    ensures StoreAc(a, x).m.cpu == a.cpu
  {
    hide Storable;
  }

  lemma TwinTop(a: Hw, b: Hw)
    requires Sound(a.cpu) && Twins(a, b)
    ensures Addressable(b.cpu, b.cpu.sp) == Addressable(a.cpu, a.cpu.sp)
    ensures Read(b, b.cpu.sp, b.cpu.ac) == Read(a, a.cpu.sp, a.cpu.ac) && Read(b, b.cpu.sp, 0) == Read(a, a.cpu.sp, 0)
  {
  }

  lemma TwinOperands(a: Hw, b: Hw, inst: Instruction, junk: int)
    requires Sound(a.cpu) && Twins(a, b) && b.pending == {} && Confined(inst)
    requires OperandLive(a.cpu, inst) && ReadsOperand(inst.opCode)
    ensures var fa, fb := FetchOperand(a, inst, junk), FetchOperand(b, inst, junk);
            && fa.ok == fb.ok && fa.word == fb.word && fa.m.cpu.cc == fb.m.cpu.cc
            && fa.m == a.(cpu := a.cpu.(cc := fa.m.cpu.cc), pending := fa.m.pending)
            && fb.m == b.(cpu := b.cpu.(cc := fb.m.cpu.cc), pending := fb.m.pending)
            && fa.m.pending == (if fa.ok then a.pending else a.pending + {InvalidAddr})
            && fb.m.pending == (if fb.ok then {} else {InvalidAddr})
  {
    hide WordToInt, IntToWord;
  }

  lemma TwinArithmetic(a: Hw, b: Hw, inst: Instruction, junk: int)
    requires Sound(a.cpu) && Twins(a, b) && b.pending == {} && Confined(inst) && OperandLive(a.cpu, inst)
    requires ArithmeticOp(inst.opCode)
    ensures SameResult(a, ExecuteArithmetic(a, inst, junk).m, ExecuteArithmetic(b, inst, junk).m)
  {
    hide FetchOperand, WordToInt, IntToWord, Exact, TruncMod, CodeOf;
    TwinOperands(a, b, inst, junk);
    var fa := FetchOperand(a, inst, junk);
    var x, y := WordToInt(a.cpu.ac), WordToInt(fa.word);
    if inst.opCode != OP_DIVI || y != 0 {
      TruncatedWordAgrees(Exact(inst.opCode, x, y));
    }
  }

  lemma TwinDataMovement(a: Hw, b: Hw, inst: Instruction, junk: int)
    requires Sound(a.cpu) && Twins(a, b) && b.pending == {} && Confined(inst) && OperandLive(a.cpu, inst)
    requires OP_LOAD <= inst.opCode <= OP_STRRX || OP_LOADRB <= inst.opCode <= OP_STRSP
    ensures SameResult(a, ExecuteDataMovement(a, inst, junk).m, ExecuteDataMovement(b, inst, junk).m)
  {
    hide FetchOperand, WordToInt, StoreAc, Read;
    TwinTop(a, b);
    if inst.opCode == OP_LOAD { TwinOperands(a, b, inst, junk); }
    if inst.opCode == OP_STR { TwinStore(a, b, EffectiveAddress(a.cpu, inst)); }
    if inst.opCode == OP_STRSP { TwinStore(a, b, a.cpu.sp); }
  }

  lemma TwinComparison(a: Hw, b: Hw, inst: Instruction, junk: int)
    requires Sound(a.cpu) && Twins(a, b) && b.pending == {} && Confined(inst) && OperandLive(a.cpu, inst)
    requires inst.opCode == OP_COMP
    ensures SameResult(a, ExecuteComparison(a, inst, junk).m, ExecuteComparison(b, inst, junk).m)
  {
    hide FetchOperand, WordToInt;
    TwinOperands(a, b, inst, junk);
  }

  lemma TwinBranching(a: Hw, b: Hw, inst: Instruction)
    requires Sound(a.cpu) && Twins(a, b) && b.pending == {}
    requires OP_JMPE <= inst.opCode <= OP_JMPLGT || inst.opCode == OP_J
    ensures SameResult(a, ExecuteBranching(a, inst).m, ExecuteBranching(b, inst).m)
  {
    hide WordToInt;
    TwinTop(a, b);
  }

  lemma TwinStack(a: Hw, b: Hw, inst: Instruction)
    requires Sound(a.cpu) && Twins(a, b) && b.pending == {} && (inst.opCode == OP_PSH || inst.opCode == OP_POP)
    ensures SameResult(a, ExecuteStackManipulation(a, inst).m, ExecuteStackManipulation(b, inst).m)
  {
    hide Storable;
    TwinTop(a, b);
  }

  lemma TwinReturn(a: Hw, b: Hw)
    requires Sound(a.cpu) && Twins(a, b) && b.pending == {}
    ensures SameResult(a, ExecuteReturn(a).m, ExecuteReturn(b).m)
  {
    hide WordToInt;
    TwinTop(a, b);
  }

  lemma TwinExecute(a: Hw, b: Hw, inst: Instruction, junk: int)
    requires Sound(a.cpu) && Twins(a, b) && b.pending == {} && Confined(inst) && OperandLive(a.cpu, inst)
    ensures SameResult(a, Execute(a, inst, junk).m, Execute(b, inst, junk).m)
  {
    hide ExecuteArithmetic, ExecuteDataMovement, ExecuteComparison, ExecuteBranching, ExecuteStackManipulation, ExecuteReturn;
    var op := inst.opCode;
    if ArithmeticOp(op) { TwinArithmetic(a, b, inst, junk); }
    if OP_LOAD <= op <= OP_STRRX || OP_LOADRB <= op <= OP_STRSP { TwinDataMovement(a, b, inst, junk); }
    if op == OP_COMP { TwinComparison(a, b, inst, junk); }
    if OP_JMPE <= op <= OP_JMPLGT || op == OP_J { TwinBranching(a, b, inst); }
    if op == OP_PSH || op == OP_POP { TwinStack(a, b, inst); }
    if op == OP_RETRN { TwinReturn(a, b); }
  }

  /** A whole instruction: the preempted side may additionally find its timer due. */
  lemma TwinCycle(a: Hw, b: Hw, junk: int)
    requires Sound(a.cpu) && a.cpu.sp >= 4 && Twins(a, b) && Dedicated(b) && a.pending <= ASYNCHRONOUS
    requires Addressable(a.cpu, a.cpu.pc) && Disciplined(a, junk)
    ensures Addressable(b.cpu, b.cpu.pc)
    ensures var na, nb := AfterInstruction(a, junk), AfterInstruction(b, junk);
            && SameCore(na.cpu, nb.cpu) && (!Faulted(nb) ==> Twins(na, nb))
            && nb.cpu.timerLimit == 0 && AtMostOneMore({}, nb.pending)
            && nb.pending <= na.pending <= nb.pending + ASYNCHRONOUS
            && (Overflow in nb.pending ==> na.related == nb.related && na.cpu.ac == IntToWord(na.related))
            && (nb.pending == {Syscall} ==> na.cpu.pc == a.cpu.pc + 1)
  {
    hide Execute;
    assert Read(a, a.cpu.pc, 0) == Read(b, b.cpu.pc, 0);
    var inst := NextInstruction(a);
    assert Twins(Fetched(a), Fetched(b));
    TwinExecute(Fetched(a), Fetched(b), inst, junk);
    ConfinedExecute(Fetched(a), inst, junk);
    KeepsTimer(Fetched(b), inst, junk);
  }

  /** A dedicated processor's timer interval is not an instruction's business. */
  lemma KeepsTimer(m: Hw, inst: Instruction, junk: int)
    requires Confined(inst)
    ensures Execute(m, inst, junk).m.cpu.timerLimit == m.cpu.timerLimit
  {
    hide WordToInt, IntToWord, Exact, Storable;
  }

  // ---------------------------------------------------------------- interrupts on twins

  /** Rewriting the dead words below SP keeps twins. */
  lemma FramesInvisible(a: Hw, b: Hw, a': Hw, b': Hw)
    requires Sound(a.cpu) && a.cpu.sp - 7 >= a.cpu.rx && Twins(a, b)
    requires OnlyBelow(a.ram, a'.ram, a.cpu.rb + a.cpu.sp) && OnlyBelow(b.ram, b'.ram, a.cpu.rb + a.cpu.sp)
    requires SameCore(a'.cpu, b'.cpu) && a'.cpu == a.cpu.(ac := a'.cpu.ac, pc := a'.cpu.pc)
    ensures Twins(a', b')
  {
  }

  ghost predicate SameFate(ra: StepResult, rb: StepResult) {
    && ra.alive == rb.alive && ra.effect == rb.effect
    && (ra.alive ==> Twins(ra.m, rb.m) && Dedicated(rb.m))
  }

  lemma TwinCall(a: Hw, b: Hw, env: Env)
    requires Sound(a.cpu) && FrameFits(a.cpu) && Twins(a, b) && b.cpu.timerLimit == 0
    requires b.pending == {Syscall} && Syscall in a.pending && a.pending <= ASYNCHRONOUS + {Syscall} && 1 <= a.cpu.pc <= RAM_SIZE
    ensures SameFate(Service(a, Syscall, env), Service(b, Syscall, env))
  {
    hide Service;
    FitsMeansRoomy(a.cpu);
    SameRoom(a.cpu, b.cpu);
    CallService(a, env);
    CallService(b, env);
    assert Read(a, a.cpu.sp, env.junk) == Read(b, b.cpu.sp, env.junk);
    assert Requested(a) == Requested(b) && Parameter(a, env.junk) == Parameter(b, env.junk);
    assert CallEffect(a, env) == CallEffect(b, env) && CallEnds(a, env) == CallEnds(b, env);
    if !CallEnds(a, env) {
      hide CallEffect, CallEnds;
      FramesInvisible(a, b, Service(a, Syscall, env).m, Service(b, Syscall, env).m);
    }
  }

  lemma TwinOverflow(a: Hw, b: Hw, env: Env)
    requires Sound(a.cpu) && FrameFits(a.cpu) && Twins(a, b) && b.cpu.timerLimit == 0
    requires b.pending == {Overflow} && a.related == b.related && a.cpu.ac == IntToWord(a.related)
    ensures SameFate(Service(a, Overflow, env), Service(b, Overflow, env))
  {
    hide Service;
    FitsMeansRoomy(a.cpu);
    SameRoom(a.cpu, b.cpu);
    OverflowServiceAgrees(a, env);
    OverflowServiceAgrees(b, env);
    FramesInvisible(a, b, Service(a, Overflow, env).m, Service(b, Overflow, env).m);
  }

  /** Preemption alone: servicing an asynchronous interrupt on one side is invisible to the other. */
  lemma TwinPreempted(a: Hw, b: Hw, code: Irq, env: Env)
    requires Sound(a.cpu) && FrameFits(a.cpu) && Twins(a, b) && Dedicated(b) && (code == Timer || code == IoDone)
    ensures SameFate(Service(a, code, env), StepResult(b, true, NoEffect))
  {
    hide Service;
    FitsMeansRoomy(a.cpu);
    TransparentService(a, code, env);
    FramesInvisible(a, b, Service(a, code, env).m, b);
  }

  lemma FaultEnds(m: Hw, code: Irq, env: Env)
    requires code == InvalidInstr || code == InvalidAddr
    ensures !Service(m, code, env).alive && Service(m, code, env).effect == NoEffect
  {
    hide SaveContext, RestoreContext;
  }

  /** A fatal call ends the process with its effect whether or not the context can be saved. */
  lemma FatalService(m: Hw, env: Env)
    requires Translates(m.cpu) && FatalCall(m)
    ensures var r := Service(m, Syscall, env); !r.alive && r.effect == CallEffect(m, env)
  {
    hide SaveContext, PushAll, RestoreContext, WordToInt, RewindSavedPc, CodeOf, Storable;
    var off := m.(cpu := m.cpu.(interrupts := false));
    SaveStays(off);
    var saved := SaveContext(off);
    assert Addressable(saved.cpu, m.cpu.sp) == Addressable(m.cpu, m.cpu.sp);
    assert Addressable(m.cpu, m.cpu.sp) ==> Read(saved, m.cpu.sp, env.junk) == Read(m, m.cpu.sp, 0);
  }

  lemma TwinFatal(a: Hw, b: Hw, env: Env)
    requires Sound(a.cpu) && Twins(a, b) && FatalCall(a)
    ensures SameFate(Service(a, Syscall, env), Service(b, Syscall, env))
  {
    hide Service, WordToInt;
    TwinTop(a, b);
    assert FatalCall(b) && CallEffect(a, env) == CallEffect(b, env);
    FatalService(a, env);
    FatalService(b, env);
  }

  lemma TwinInterrupts(a: Hw, b: Hw, env: Env)
    requires Sound(a.cpu) && SameCore(a.cpu, b.cpu) && (!Faulted(b) ==> Twins(a, b)) && b.cpu.timerLimit == 0
    requires AtMostOneMore({}, b.pending) && b.pending <= a.pending <= b.pending + ASYNCHRONOUS
    requires NeedsFrame(a) ==> FrameFits(a.cpu)
    requires Overflow in b.pending ==> a.related == b.related && a.cpu.ac == IntToWord(a.related)
    requires b.pending == {Syscall} ==> 1 <= a.cpu.pc <= RAM_SIZE
    ensures SameFate(CheckInterrupts(a, env), CheckInterrupts(b, env))
  {
    hide Service, Twins, FrameFits, Sound;
    assert a.cpu.interrupts && b.cpu.interrupts by { EnabledWhenSound(a.cpu); }
    if b.pending == {} {
      if a.pending != {} { TwinPreempted(a, b, MostUrgent(a.pending), env); }
    } else if Faulted(b) {
      assert MostUrgent(a.pending) == MostUrgent(b.pending);
      FaultEnds(a, MostUrgent(a.pending), env);
      FaultEnds(b, MostUrgent(b.pending), env);
    } else if Overflow in b.pending {
      assert MostUrgent(a.pending) == Overflow;
      TwinOverflow(a, b, env);
    } else {
      assert b.pending == {Syscall} && MostUrgent(a.pending) == Syscall;
      if FatalCall(a) { TwinFatal(a, b, env); } else { TwinCall(a, b, env); }
    }
  }

  lemma EnabledWhenSound(c: Cpu)
    requires Sound(c)
    ensures c.interrupts
  {
  }

  /** One cycle: the preempted process and its dedicated twin meet the same fate, show the same effect and stay twins. */
  lemma TwinStep(a: Hw, b: Hw, env: Env)
    requires Sound(a.cpu) && a.cpu.sp >= 4 && a.pending <= ASYNCHRONOUS && Disciplined(a, env.junk)
    requires Twins(a, b) && Dedicated(b)
    ensures SameFate(CpuStep(a, env), CpuStep(b, env))
  {
    hide AfterInstruction, CheckInterrupts, Disciplined;
    if Addressable(a.cpu, a.cpu.pc) {
      TwinCycle(a, b, env.junk);
      DisciplinedParts(a, env.junk);
      ConfinedCycle(a, env.junk);
      TwinInterrupts(AfterInstruction(a, env.junk), AfterInstruction(b, env.junk), env);
    }
  }

  lemma DisciplinedParts(m: Hw, junk: int)
    requires Disciplined(m, junk) && Addressable(m.cpu, m.cpu.pc)
    ensures Confined(NextInstruction(m))
    ensures NeedsFrame(AfterInstruction(m, junk)) ==> FrameFits(AfterInstruction(m, junk).cpu)
  {
  }

  // ---------------------------------------------------------------- the whole system

  /** The hardware as slot `i` sees it when it runs. */
  function View(s: Sys, i: Index): Hw {
    s.hw.(cpu := Registers(s, i))
  }

  /** Slot `i` takes a CPU cycle in this step. */
  predicate Runs(s: Sys, step: Step, i: Index) {
    step.Cycle? && s.current == i
  }

  /** The environment as the running process finds it. */
  function Inputs(s: Sys, step: Step): Env
    requires step.Cycle?
  {
    step.env.(monitor := s.monitor)
  }

  /** What a run shows of one process: whether each of its cycles survived, and with what effect. */
  datatype Observation = Observation(alive: bool, effect: Effect)

  ghost function Trace(ss: seq<Sys>, steps: seq<Step>, i: Index): seq<Observation>
    requires |ss| == |steps| + 1
  {
    if |steps| == 0 then []
    else
      (if Runs(ss[0], steps[0], i)
       then var r := CpuStep(ss[0].hw, Inputs(ss[0], steps[0])); [Observation(r.alive, r.effect)]
       else []) + Trace(ss[1..], steps[1..], i)
  }

  /** The projection of a run onto one process, executed on a dedicated processor `h` with the same inputs. */
  ghost function Alone(ss: seq<Sys>, steps: seq<Step>, i: Index, h: Hw): Hw
    requires |ss| == |steps| + 1
    decreases |steps|
  {
    if |steps| == 0 then h
    else Alone(ss[1..], steps[1..], i, if Runs(ss[0], steps[0], i) then CpuStep(h, Inputs(ss[0], steps[0])).m else h)
  }

  ghost function TraceAlone(ss: seq<Sys>, steps: seq<Step>, i: Index, h: Hw): seq<Observation>
    requires |ss| == |steps| + 1
    decreases |steps|
  {
    if |steps| == 0 then []
    else if Runs(ss[0], steps[0], i) then
      var r := CpuStep(h, Inputs(ss[0], steps[0]));
      [Observation(r.alive, r.effect)] + TraceAlone(ss[1..], steps[1..], i, r.m)
    else TraceAlone(ss[1..], steps[1..], i, h)
  }

  /** Process `i` is live at the start of every step and disciplined in every cycle it takes. */
  ghost predicate DisciplinedRun(ss: seq<Sys>, steps: seq<Step>, i: Index)
    requires |ss| == |steps| + 1
  {
    forall k :: 0 <= k < |steps| ==>
      Live(ss[k].table[i]) && (Runs(ss[k], steps[k], i) ==> Disciplined(ss[k].hw, Inputs(ss[k], steps[k]).junk))
  }

  /** Steps in which a process takes no cycle leave its view as it was. */
  lemma IdleStepKeepsTwins(s: Sys, step: Step, i: Index, h: Hw)
    requires Inv(s) && Fenced(s) && Enabled(s, step) && Contained(s, step) && Live(s.table[i]) && !Runs(s, step, i)
    requires Twins(View(s, i), h)
    ensures Live(Apply(s, step).table[i]) && Twins(View(Apply(s, step), i), h)
  {
    hide Apply, Enabled, Low, High;
    if step.Cycle? {
      StepSparesSuspended(s, step, i);
    } else {
      QuietStepSparesAll(s, step, i);
    }
    FencedClaim(s, i);
  }

  /** A step in which it does take a cycle keeps view and twin in step, unless it ends both. */
  lemma OwnStepKeepsTwins(s: Sys, step: Step, i: Index, h: Hw)
    requires Inv(s) && Fenced(s) && Enabled(s, step) && Contained(s, step) && Live(s.table[i]) && Runs(s, step, i)
    requires Disciplined(s.hw, Inputs(s, step).junk) && Twins(View(s, i), h) && Dedicated(h)
    ensures var r, q := CpuStep(s.hw, Inputs(s, step)), CpuStep(h, Inputs(s, step));
            && r.alive == q.alive && r.effect == q.effect
            && (Live(Apply(s, step).table[i]) ==> r.alive && Dedicated(q.m) && Twins(View(Apply(s, step), i), q.m))
  {
    hide CpuStep, Disciplined, WorkerIteration, Sound;
    ActiveIsSnug(s);
    assert View(s, i) == s.hw;
    TwinStep(s.hw, h, Inputs(s, step));
    IterationView(s, step.env, i);
  }

  /**
   Transparency of multiplexing. In any contained run of the whole system, a disciplined process produces exactly the
   observations it would produce alone on a processor without a timer, and while it lives its registers and its live
   memory are exactly those of the solitary run.
   */
  lemma {:induction false} MultiplexingIsTransparent(ss: seq<Sys>, steps: seq<Step>, i: Index, h: Hw)
    requires ContainedRun(ss, steps) && Inv(ss[0]) && Fenced(ss[0])
    requires DisciplinedRun(ss, steps, i) && Live(ss[0].table[i])
    requires Twins(View(ss[0], i), h) && Dedicated(h)
    ensures Trace(ss, steps, i) == TraceAlone(ss, steps, i, h)
    ensures Live(ss[|steps|].table[i]) ==> Twins(View(ss[|steps|], i), Alone(ss, steps, i, h))
    decreases |steps|
  {
    hide Inv, Fenced, Apply, Enabled, Contained, Twins, Dedicated, CpuStep, Disciplined;
    if |steps| > 0 {
      ContainedTail(ss, steps);
      StepKeepsInvariant(ss[0], steps[0]);
      StepKeepsFence(ss[0], steps[0]);
      assert Runs(ss[0], steps[0], i) ==> Disciplined(ss[0].hw, Inputs(ss[0], steps[0]).junk);
      var h1 := if Runs(ss[0], steps[0], i) then CpuStep(h, Inputs(ss[0], steps[0])).m else h;
      if Runs(ss[0], steps[0], i) {
        OwnStepKeepsTwins(ss[0], steps[0], i, h);
      } else {
        IdleStepKeepsTwins(ss[0], steps[0], i, h);
      }
      if |steps| > 1 { LiveNext(ss, steps, i); }
      if Live(ss[1].table[i]) {
        DisciplinedTail(ss, steps, i);
        MultiplexingIsTransparent(ss[1..], steps[1..], i, h1);
      }
    }
  }

  lemma DisciplinedTail(ss: seq<Sys>, steps: seq<Step>, i: Index)
    requires |ss| == |steps| + 1 && 0 < |steps| && DisciplinedRun(ss, steps, i)
    ensures DisciplinedRun(ss[1..], steps[1..], i)
  {
    hide Disciplined;
    forall k | 0 <= k < |steps| - 1
      ensures Live(ss[1..][k].table[i])
           && (Runs(ss[1..][k], steps[1..][k], i) ==> Disciplined(ss[1..][k].hw, Inputs(ss[1..][k], steps[1..][k]).junk))
    {
      assert Live(ss[k + 1].table[i]);
    }
  }

  lemma LiveNext(ss: seq<Sys>, steps: seq<Step>, i: Index)
    requires |ss| == |steps| + 1 && 1 < |steps| && DisciplinedRun(ss, steps, i)
    ensures Live(ss[1].table[i])
  {
    hide Disciplined, Live;
  }
}
