/** What masking interrupts, setting the timer and changing the mode mean for the program that does it. */
module Privileged {
  import opened Definitions
  import opened Words
  import opened Processor
  import opened Context
  import opened Invariants

  // ---------------------------------------------------------------- masking

  /** Instructions latch interrupts and never clear one, nor ask for a reschedule; only HAB and DHAB touch the enable flag. */
  ghost predicate OnlyLatches(m: Hw, n: Hw) {
    m.pending <= n.pending && n.osYield == m.osYield && n.cpu.interrupts == m.cpu.interrupts
  }

  lemma OperandLatches(m: Hw, inst: Instruction, junk: int)
    ensures var f := FetchOperand(m, inst, junk).m; OnlyLatches(m, f) && f == m.(cpu := f.cpu, pending := f.pending)
  {
  }

  lemma ExecuteLatches(m: Hw, inst: Instruction, junk: int)
    requires inst.opCode != OP_HAB && inst.opCode != OP_DHAB
    ensures OnlyLatches(m, Execute(m, inst, junk).m)
  {
    hide FetchOperand, Exact, IntToWord, WordToInt, CodeOf, TruncMod, Storable, Linear, EffectiveAddress, Addressable;
    OperandLatches(m, inst, junk);
  }

  /** Consecutive cycles of one program, each of which can be fetched. */
  ghost predicate Consecutive(hs: seq<Hw>, envs: seq<Env>) {
    && |hs| == |envs| + 1
    && forall k :: 0 <= k < |envs| ==> Addressable(hs[k].cpu, hs[k].cpu.pc) && hs[k + 1] == CpuStep(hs[k], envs[k]).m
  }

  lemma MaskedCycle(m: Hw, env: Env)
    requires !m.cpu.interrupts && Addressable(m.cpu, m.cpu.pc) && NextInstruction(m).opCode != OP_HAB
    ensures var r := CpuStep(m, env); r.alive && r.effect == NoEffect && OnlyLatches(m, r.m)
  {
    hide Execute;
    if NextInstruction(m).opCode == OP_DHAB {
      Dispatches(Fetched(m), NextInstruction(m), env.junk);
    } else {
      ExecuteLatches(Fetched(m), NextInstruction(m), env.junk);
    }
  }

  lemma Dispatches(m: Hw, inst: Instruction, junk: int)
    requires inst.opCode == OP_DHAB || inst.opCode == OP_HAB
    ensures Execute(m, inst, junk) == ExecuteInterruptsChange(m, inst)
  {
  }

  /**
   From a DHAB until the next HAB no interrupt is serviced and none is lost: every cycle survives, whatever it latches,
   shows nothing and asks for no reschedule, so such a program is not preempted and its system calls do not happen.
   */
  lemma {:induction false} MaskedRun(hs: seq<Hw>, envs: seq<Env>)
    requires Consecutive(hs, envs) && !hs[0].cpu.interrupts
    requires forall k :: 0 <= k < |envs| ==> NextInstruction(hs[k]).opCode != OP_HAB
    ensures forall k :: 0 <= k < |envs| ==> CpuStep(hs[k], envs[k]).alive && CpuStep(hs[k], envs[k]).effect == NoEffect
    ensures OnlyLatches(hs[0], hs[|envs|])
    decreases |envs|
  {
    hide CpuStep, NextInstruction;
    if |envs| > 0 {
      MaskedCycle(hs[0], envs[0]);
      ConsecutiveTail(hs, envs);
      forall k | 0 <= k < |envs| - 1 ensures NextInstruction(hs[1..][k]).opCode != OP_HAB {
        assert NextInstruction(hs[k + 1]).opCode != OP_HAB;
      }
      MaskedRun(hs[1..], envs[1..]);
      forall k | 0 <= k < |envs| ensures CpuStep(hs[k], envs[k]).alive && CpuStep(hs[k], envs[k]).effect == NoEffect {
        if k > 0 { assert hs[k] == hs[1..][k - 1] && envs[k] == envs[1..][k - 1]; }
      }
    }
  }

  lemma {:induction false} PushesKeepLatches(m: Hw, words: seq<int>)
    ensures PushAll(m, words) == m.(cpu := PushAll(m, words).cpu, ram := PushAll(m, words).ram)
    decreases |words|
  {
    hide Storable, Addressable;
    if words != [] { PushesKeepLatches(Push(m, words[0]), words[1..]); }
  }

  lemma ServiceClears(m: Hw, code: Irq, env: Env)
    ensures Service(m, code, env).m.pending == m.pending - {code} && Service(m, code, env).m.cpu.interrupts
  {
    hide PushAll, PopAll, IntToWord, WordToInt, CodeOf, Storable, Addressable, TruncMod;
    var off := m.(cpu := m.cpu.(interrupts := false));
    var c := off.cpu;
    PushesKeepLatches(off, [c.rx, c.rl, c.rb, c.mode, c.cc, c.pc, c.ac]);
    var h := HandleInterrupt(SaveContext(off), code, env);
    PopsOnlyRegisters(h.m.(pending := h.m.pending - {code}), [Ac, Pc, Cc, Mode, Rb, Rl, Rx]);
  }

  /** The HAB that ends the masking services, in its own cycle, the most urgent of what was latched, and keeps the rest. */
  lemma UnmaskingServices(m: Hw, env: Env)
    requires Addressable(m.cpu, m.cpu.pc) && NextInstruction(m).opCode == OP_HAB && m.pending != {}
    ensures var r, latched := CpuStep(m, env).m, AfterInstruction(m, env.junk).pending;
            && m.pending <= latched <= m.pending + {Timer} && MostUrgent(latched) in latched
            && r.pending == latched - {MostUrgent(latched)} && r.cpu.interrupts
  {
    hide Service, Execute;
    Dispatches(Fetched(m), NextInstruction(m), env.junk);
    var n := AfterInstruction(m, env.junk);
    ServiceClears(n, MostUrgent(n.pending), env);
    SomeUrgent(n.pending);
  }

  /** The order in which checkInterrupts looks at the latches. */
  function Urgency(irq: Irq): nat {
    match irq
    case InvalidInstr => 1
    case InvalidAddr => 2
    case Overflow => 3
    case Underflow => 4
    case Syscall => 5
    case Timer => 6
    case IoDone => 7
    case InvalidSyscall => 8
    case InvalidIntCode => 9
  }

  /** The latch that is serviced comes before every other one that is set. */
  lemma MostUrgentFirst(pending: set<Irq>, other: Irq)
    requires other in pending
    ensures MostUrgent(pending) in pending && Urgency(MostUrgent(pending)) <= Urgency(other)
  {
    SomeUrgent(pending);
  }

  lemma SomeUrgent(pending: set<Irq>)
    ensures MostUrgent(pending) in pending || pending == {}
  {
    if MostUrgent(pending) !in pending {
      forall q: Irq ensures q !in pending {
        if q.Overflow? {}
      }
    }
  }

  // ---------------------------------------------------------------- the timer

  /** The interval in force when the next instruction has been executed: TTI's operand as an unsigned 64-bit number. */
  function Interval(m: Hw, junk: int): int {
    var f := FetchOperand(Fetched(m), NextInstruction(m), junk);
    if NextInstruction(m).opCode == OP_TTI && f.ok then WordToInt(f.word) % TWO_TO_THE_64 else m.cpu.timerLimit
  }

  ghost predicate SparesTimer(m: Hw, o: Hw) {
    o.cpu.cycles == m.cpu.cycles && o.cpu.timerLimit == m.cpu.timerLimit && (Timer in o.pending <==> Timer in m.pending)
  }

  lemma OperandSparesTimer(m: Hw, inst: Instruction, junk: int)
    ensures SparesTimer(m, FetchOperand(m, inst, junk).m)
    ensures var f := FetchOperand(m, inst, junk).m; f == m.(cpu := m.cpu.(cc := f.cpu.cc), pending := f.pending)
  {
  }

  lemma DmaSparesTimer(m: Hw, inst: Instruction, junk: int)
    ensures SparesTimer(m, ExecuteDma(m, inst, junk).m)
  {
    hide FetchOperand, WordToInt, Linear;
    OperandSparesTimer(m, inst, junk);
  }

  lemma DataSparesTimer(m: Hw, inst: Instruction, junk: int)
    ensures SparesTimer(m, ExecuteArithmetic(m, inst, junk).m)
    ensures SparesTimer(m, ExecuteDataMovement(m, inst, junk).m)
  {
    hide FetchOperand, Exact, IntToWord, WordToInt, CodeOf, TruncMod, Storable, EffectiveAddress, Addressable;
    OperandSparesTimer(m, inst, junk);
  }

  lemma ExecuteSparesTimer(m: Hw, inst: Instruction, junk: int)
    requires inst.opCode != OP_TTI
    ensures SparesTimer(m, Execute(m, inst, junk).m)
  {
    hide FetchOperand, WordToInt, CodeOf, Storable, EffectiveAddress, Addressable, ExecuteDma, ExecuteArithmetic, ExecuteDataMovement;
    OperandSparesTimer(m, inst, junk);
    DmaSparesTimer(m, inst, junk);
    DataSparesTimer(m, inst, junk);
  }

  lemma SetTimer(m: Hw, inst: Instruction, junk: int)
    requires inst.opCode == OP_TTI
    ensures var f, o := FetchOperand(m, inst, junk), Execute(m, inst, junk).m;
            && o.cpu.cycles == m.cpu.cycles && (Timer in o.pending <==> Timer in m.pending)
            && o.cpu.timerLimit == if f.ok then WordToInt(f.word) % TWO_TO_THE_64 else m.cpu.timerLimit
  {
    assert Execute(m, inst, junk) == ExecuteTimer(m, inst, junk);
    hide FetchOperand, WordToInt, Execute;
    OperandSparesTimer(m, inst, junk);
    WordToIntRange(FetchOperand(m, inst, junk).word);
    UnsignedInterval(WordToInt(FetchOperand(m, inst, junk).word));
  }

  lemma {:induction false} PushesSpareTimer(m: Hw, words: seq<int>)
    ensures PushAll(m, words).cpu == m.cpu.(sp := PushAll(m, words).cpu.sp)
    decreases |words|
  {
    hide Storable, Addressable;
    if words != [] { PushesSpareTimer(Push(m, words[0]), words[1..]); }
  }

  lemma {:induction false} PopsSpareTimer(m: Hw, rs: seq<Register>)
    ensures PopAll(m, rs).cpu.cycles == m.cpu.cycles && PopAll(m, rs).cpu.timerLimit == m.cpu.timerLimit
    decreases |rs|
  {
    hide Addressable;
    if rs != [] { PopsSpareTimer(PopInto(m, rs[0]), rs[1..]); }
  }

  /** Neither saving nor restoring a context, nor any handler, touches the cycle counter or the interval. */
  lemma ServiceSparesTimer(m: Hw, code: Irq, env: Env)
    ensures var r := Service(m, code, env).m.cpu; r.cycles == m.cpu.cycles && r.timerLimit == m.cpu.timerLimit
  {
    hide PushAll, PopAll, IntToWord, WordToInt, CodeOf, Storable, Addressable, TruncMod;
    var off := m.(cpu := m.cpu.(interrupts := false));
    var c := off.cpu;
    PushesSpareTimer(off, [c.rx, c.rl, c.rb, c.mode, c.cc, c.pc, c.ac]);
    var h := HandleInterrupt(SaveContext(off), code, env);
    PopsSpareTimer(h.m.(pending := h.m.pending - {code}), [Ac, Pc, Cc, Mode, Rb, Rl, Rx]);
  }

  /** The count after one more cycle, before it is compared with the interval. */
  function NextCount(cycles: int): int {
    if cycles + 1 == TWO_TO_THE_64 then 0 else cycles + 1
  }

  predicate IntervalOver(cycles: int, limit: int) {
    limit > 0 && NextCount(cycles) >= limit
  }

  /** The timer is latched at the end of this cycle, before interrupts are serviced. */
  predicate TimerLatched(m: Hw, env: Env) {
    Timer in AfterInstruction(m, env.junk).pending
  }

  /** One whole cycle, service included, moves the count on by one and latches the timer exactly when the interval is over. */
  lemma CycleCountsOne(m: Hw, env: Env)
    requires Addressable(m.cpu, m.cpu.pc)
    ensures var r, c, limit := CpuStep(m, env).m, m.cpu.cycles, Interval(m, env.junk);
            && r.cpu.timerLimit == limit && r.cpu.cycles == (if IntervalOver(c, limit) then 0 else NextCount(c))
            && (TimerLatched(m, env) <==> Timer in m.pending || IntervalOver(c, limit))
            && (Timer in r.pending ==> TimerLatched(m, env))
  {
    hide Execute, Service, FetchOperand, WordToInt, Decode;
    var f, inst := Fetched(m), NextInstruction(m);
    if inst.opCode == OP_TTI { SetTimer(f, inst, env.junk); } else { ExecuteSparesTimer(f, inst, env.junk); }
    var n := AfterInstruction(m, env.junk);
    ServiceSparesTimer(n, MostUrgent(n.pending), env);
    ServiceClears(n, MostUrgent(n.pending), env);
  }

  /** How many cycles pass before an interval of `limit` is seen to be over; a full 64-bit count starts again at zero. */
  function CyclesToTimer(cycles: int, limit: int): int {
    if cycles + 1 == TWO_TO_THE_64 then limit + 1 else if limit - cycles > 1 then limit - cycles else 1
  }

  lemma OneCycleLess(cycles: int, limit: int)
    requires 0 <= cycles < TWO_TO_THE_64 && 0 < limit < TWO_TO_THE_64
    ensures IntervalOver(cycles, limit) <==> CyclesToTimer(cycles, limit) == 1
    ensures !IntervalOver(cycles, limit) ==>
              0 <= NextCount(cycles) < TWO_TO_THE_64 && CyclesToTimer(NextCount(cycles), limit) == CyclesToTimer(cycles, limit) - 1
  {
  }

  lemma ConsecutiveTail(hs: seq<Hw>, envs: seq<Env>)
    requires Consecutive(hs, envs) && 0 < |envs|
    ensures Consecutive(hs[1..], envs[1..])
  {
    hide CpuStep, Addressable;
    forall k | 0 <= k < |envs| - 1
      ensures Addressable(hs[1..][k].cpu, hs[1..][k].cpu.pc) && hs[1..][k + 1] == CpuStep(hs[1..][k], envs[1..][k]).m
    {
      assert hs[k + 2] == CpuStep(hs[k + 1], envs[k + 1]).m;
    }
  }

  /**
   A run of whole cycles in which TTI is executed at most in the first, interrupts being serviced or masked on the way.
   The timer is latched first, and only then, at the end of the cycle in which the count reaches the interval: after
   as many cycles as the interval exceeds the running count, at once if it is already exceeded, never if it is zero.
   */
  lemma {:induction false} TimerPeriod(hs: seq<Hw>, envs: seq<Env>, k: nat)
    requires Consecutive(hs, envs) && k < |envs| && Timer !in hs[0].pending
    requires 0 <= hs[0].cpu.cycles < TWO_TO_THE_64 && 0 <= hs[0].cpu.timerLimit < TWO_TO_THE_64
    requires forall j :: 0 < j < |envs| ==> NextInstruction(hs[j]).opCode != OP_TTI
    ensures var limit := Interval(hs[0], envs[0].junk);
            var due := CyclesToTimer(hs[0].cpu.cycles, limit);
            && (limit == 0 ==> !TimerLatched(hs[k], envs[k]))
            && (limit > 0 && k < due ==> (TimerLatched(hs[k], envs[k]) <==> k + 1 == due))
    decreases k
  {
    hide CpuStep, NextInstruction, TimerLatched, Interval, Addressable;
    var c, limit := hs[0].cpu.cycles, Interval(hs[0], envs[0].junk);
    IntervalRange(hs[0], envs[0].junk);
    CycleCountsOne(hs[0], envs[0]);
    if limit > 0 { OneCycleLess(c, limit); }
    if k > 0 && (limit == 0 || !IntervalOver(c, limit)) {
      ConsecutiveTail(hs, envs);
      assert hs[1] == CpuStep(hs[0], envs[0]).m;
      forall j | 0 < j < |envs| - 1 ensures NextInstruction(hs[1..][j]).opCode != OP_TTI {
        assert NextInstruction(hs[j + 1]).opCode != OP_TTI;
      }
      assert NextInstruction(hs[1]).opCode != OP_TTI;
      IntervalKept(hs[1], envs[1].junk);
      TimerPeriod(hs[1..], envs[1..], k - 1);
    }
  }

  lemma IntervalRange(m: Hw, junk: int)
    requires 0 <= m.cpu.timerLimit < TWO_TO_THE_64
    ensures 0 <= Interval(m, junk) < TWO_TO_THE_64
  {
    hide FetchOperand, WordToInt, NextInstruction;
  }

  lemma IntervalKept(m: Hw, junk: int)
    requires NextInstruction(m).opCode != OP_TTI
    ensures Interval(m, junk) == m.cpu.timerLimit
  {
    hide NextInstruction;
  }

  lemma UnsignedInterval(v: int)
    requires Representable(v)
    ensures v % TWO_TO_THE_64 == if v >= 0 then v else v + TWO_TO_THE_64
  {
  }

  // ---------------------------------------------------------------- the mode

  /** After CHMOD 1 exactly RAM is addressable, by absolute address; after CHMOD 0 exactly the window, from its base. */
  lemma ChangedMode(m: Hw, inst: Instruction, a: int)
    ensures var c, d := ExecuteChangeMode(m, inst).m.cpu, m.cpu;
            && (inst.value == 1 ==> PhysicalAddress(c, a) == a && (Addressable(c, a) <==> 0 <= a < RAM_SIZE))
            && (inst.value == 0 ==>
                  && PhysicalAddress(c, a) == d.rb + a
                  && (Addressable(c, a) <==> 0 <= a <= d.rl - d.rb && 0 <= d.rb + a < RAM_SIZE))
            && (inst.value != 0 && inst.value != 1 ==> c == d && InvalidInstr in ExecuteChangeMode(m, inst).m.pending)
  {
  }
}
