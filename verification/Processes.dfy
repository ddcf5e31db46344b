/** One process's own cycles in a run of the whole system, and what the single-process results say about them. */
module Processes {
  import opened Definitions
  import opened Words
  import opened Processor
  import opened Context
  import opened SystemCalls
  import opened Confinement
  import opened Arithmetic
  import opened UserStack
  import opened Kernel
  import opened Invariants
  import opened Isolation
  import opened Multiplexing

  /** The hardware as slot `i` finds it at each of its own cycles, and at the end of the run. */
  ghost function OwnStates(ss: seq<Sys>, steps: seq<Step>, i: Index): (hs: seq<Hw>)
    requires |ss| == |steps| + 1
    ensures |hs| == |OwnInputs(ss, steps, i)| + 1
    decreases |steps|
  {
    if |steps| == 0 then [View(ss[0], i)]
    else
      var rest := OwnStates(ss[1..], steps[1..], i);
      if Runs(ss[0], steps[0], i) then [View(ss[0], i)] + rest else rest
  }

  ghost function OwnInputs(ss: seq<Sys>, steps: seq<Step>, i: Index): seq<Env>
    requires |ss| == |steps| + 1
    decreases |steps|
  {
    if |steps| == 0 then []
    else
      var rest := OwnInputs(ss[1..], steps[1..], i);
      if Runs(ss[0], steps[0], i) then [Inputs(ss[0], steps[0])] + rest else rest
  }

  lemma {:induction false} LastState(ss: seq<Sys>, steps: seq<Step>, i: Index)
    requires |ss| == |steps| + 1
    ensures OwnStates(ss, steps, i)[|OwnInputs(ss, steps, i)|] == View(ss[|steps|], i)
    decreases |steps|
  {
    hide View, Runs;
    if |steps| > 0 { LastState(ss[1..], steps[1..], i); }
  }

  ghost predicate LiveThroughout(ss: seq<Sys>, i: Index) {
    forall k :: 0 <= k < |ss| ==> Live(ss[k].table[i])
  }

  /** What the fence makes of every cycle that a process survives. */
  predicate OwnCycle(m: Hw, env: Env) {
    Sound(m.cpu) && m.cpu.sp >= 4 && m.pending <= ASYNCHRONOUS && Addressable(m.cpu, m.cpu.pc) && CpuStep(m, env).alive
  }

  /** A run's first step contributes to the projections exactly when it is a cycle of the process. */
  lemma Unrolled(ss: seq<Sys>, steps: seq<Step>, i: Index)
    requires |ss| == |steps| + 1 && 0 < |steps|
    ensures Runs(ss[0], steps[0], i) ==>
              && OwnStates(ss, steps, i) == [View(ss[0], i)] + OwnStates(ss[1..], steps[1..], i)
              && OwnInputs(ss, steps, i) == [Inputs(ss[0], steps[0])] + OwnInputs(ss[1..], steps[1..], i)
              && Trace(ss, steps, i) == [Seen(CpuStep(ss[0].hw, Inputs(ss[0], steps[0])))] + Trace(ss[1..], steps[1..], i)
    ensures !Runs(ss[0], steps[0], i) ==>
              && OwnStates(ss, steps, i) == OwnStates(ss[1..], steps[1..], i)
              && OwnInputs(ss, steps, i) == OwnInputs(ss[1..], steps[1..], i)
              && Trace(ss, steps, i) == Trace(ss[1..], steps[1..], i)
  {
    hide CpuStep, View;
  }

  function Seen(r: StepResult): Observation {
    Observation(r.alive, r.effect)
  }

  lemma UndisturbedChain(a: Hw, b: Hw, c: Hw)
    requires Undisturbed(a, b) && Undisturbed(b, c)
    ensures Undisturbed(a, c)
  {
    assert Visible(a.cpu).rb == Visible(b.cpu).rb && Visible(a.cpu).rl == Visible(b.cpu).rl;
  }

  /** A step in which a process takes no cycle does not disturb it. */
  lemma IdleStepUndisturbed(s: Sys, step: Step, i: Index)
    requires Inv(s) && Fenced(s) && Enabled(s, step) && Contained(s, step) && Live(s.table[i]) && !Runs(s, step, i)
    ensures Live(Apply(s, step).table[i]) && Undisturbed(View(s, i), View(Apply(s, step), i))
  {
    hide Apply, Enabled, Low, High, FencedSlot;
    if step.Cycle? {
      StepSparesSuspended(s, step, i);
    } else {
      QuietStepSparesAll(s, step, i);
    }
    FencedClaim(s, i);
    StepKeepsFence(s, step);
  }

  /** A cycle it survives leaves it, undisturbed, as the cycle itself does, whether or not the scheduler runs. */
  lemma OwnStepUndisturbed(s: Sys, step: Step, i: Index)
    requires Inv(s) && Fenced(s) && Enabled(s, step) && Contained(s, step) && Runs(s, step, i)
    ensures var r := CpuStep(s.hw, Inputs(s, step));
            && View(s, i) == s.hw && (Live(Apply(s, step).table[i]) <==> r.alive)
            && (r.alive ==> Undisturbed(r.m, View(Apply(s, step), i)) && OwnCycle(s.hw, Inputs(s, step)))
  {
    hide WorkerIteration, FencedSlot, AfterInstruction, CheckInterrupts, ContainedNext, NextInstruction, Confined;
    ActiveIsSnug(s);
    IterationView(s, step.env, i);
    StepKeepsFence(s, step);
  }

  /** From any state to a live process's next own cycle, or to the end of the run, nothing it can observe changes. */
  lemma {:induction false} SuspensionIsUndisturbed(ss: seq<Sys>, steps: seq<Step>, i: Index)
    requires ContainedRun(ss, steps) && Inv(ss[0]) && Fenced(ss[0]) && Live(ss[0].table[i])
    ensures Undisturbed(View(ss[0], i), OwnStates(ss, steps, i)[0])
    decreases |steps|
  {
    hide Inv, Fenced, Apply, Enabled, Contained, Undisturbed, View, Live;
    if |steps| > 0 && !Runs(ss[0], steps[0], i) {
      ContainedTail(ss, steps);
      StepKeepsInvariant(ss[0], steps[0]);
      StepKeepsFence(ss[0], steps[0]);
      IdleStepUndisturbed(ss[0], steps[0], i);
      SuspensionIsUndisturbed(ss[1..], steps[1..], i);
      UndisturbedChain(View(ss[0], i), View(ss[1], i), OwnStates(ss[1..], steps[1..], i)[0]);
    } else {
      ViewUndisturbed(ss[0], i);
    }
  }

  lemma ViewUndisturbed(s: Sys, i: Index)
    requires Fenced(s)
    ensures Undisturbed(View(s, i), View(s, i))
  {
  }

  /**
   The projection of any contained run onto a process that lives throughout is a chain of surviving cycles between which
   nothing it can observe changes: exactly what the results about a single process assume.
   */
  lemma {:induction false} OwnCyclesChain(ss: seq<Sys>, steps: seq<Step>, i: Index)
    requires ContainedRun(ss, steps) && Inv(ss[0]) && Fenced(ss[0]) && LiveThroughout(ss, i)
    ensures var hs, envs := OwnStates(ss, steps, i), OwnInputs(ss, steps, i);
            Cycles(hs, envs) && forall k :: 0 <= k < |envs| ==> OwnCycle(hs[k], envs[k])
    decreases |steps|
  {
    hide Inv, Fenced, Apply, Enabled, Contained, OwnCycle, Undisturbed, CpuStep, View;
    if |steps| > 0 {
      ContainedTail(ss, steps);
      StepKeepsInvariant(ss[0], steps[0]);
      StepKeepsFence(ss[0], steps[0]);
      assert Live(ss[1].table[i]);
      OwnCyclesChain(ss[1..], steps[1..], i);
      if Runs(ss[0], steps[0], i) {
        OwnStepUndisturbed(ss[0], steps[0], i);
        SuspensionIsUndisturbed(ss[1..], steps[1..], i);
        UndisturbedChain(CpuStep(ss[0].hw, Inputs(ss[0], steps[0])).m, View(ss[1], i), OwnStates(ss[1..], steps[1..], i)[0]);
      }
    }
  }

  // ---------------------------------------------------------------- arithmetic and the stack

  /** Arithmetic is a homomorphism also across the cycles of an interleaved run. */
  lemma ArithmeticSurvivesPreemption(ss: seq<Sys>, steps: seq<Step>, i: Index)
    requires ContainedRun(ss, steps) && Inv(ss[0]) && Fenced(ss[0]) && LiveThroughout(ss, i)
    requires var hs, envs := OwnStates(ss, steps, i), OwnInputs(ss, steps, i);
             forall k :: 0 <= k < |envs| ==> AtRingOp(hs[k], envs[k].junk)
    ensures var hs, envs := OwnStates(ss, steps, i), OwnInputs(ss, steps, i);
            var exact := ExactRun(hs, envs, WordToInt(Registers(ss[0], i).ac));
            && Congruent(WordToInt(Registers(ss[|steps|], i).ac), exact)
            && ((forall k :: 0 <= k < |envs| ==> Representable(NextResult(hs[k], envs[k].junk))) ==>
                  WordToInt(Registers(ss[|steps|], i).ac) == exact)
  {
    assert |ss| == |steps| + 1;
    hide Inv, Fenced, ContainedRun, Undisturbed, CpuStep, AtRingOp, WordToInt, OwnCycle, OwnStates, OwnInputs, NextResult, Congruent;
    var hs, envs := OwnStates(ss, steps, i), OwnInputs(ss, steps, i);
    OwnCyclesChain(ss, steps, i);
    LastState(ss, steps, i);
    assert Live(ss[0].table[i]);
    SuspensionIsUndisturbed(ss, steps, i);
    SameAccumulator(View(ss[0], i), hs[0]);
    SelfCongruent(WordToInt(hs[0].cpu.ac));
    ArithmeticHomomorphism(hs, envs, WordToInt(hs[0].cpu.ac));
  }

  lemma SelfCongruent(a: int)
    ensures Congruent(a, a)
  {
  }

  /** Own cycles `from` to `to` as a run of their own. */
  lemma CyclesSlice(hs: seq<Hw>, envs: seq<Env>, from: nat, to: nat)
    requires Cycles(hs, envs) && from <= to <= |envs|
    ensures Cycles(hs[from..to + 1], envs[from..to])
  {
    hide Undisturbed, CpuStep;
    forall k | 0 <= k < to - from
      ensures Undisturbed(CpuStep(hs[from..to + 1][k], envs[from..to][k]).m, hs[from..to + 1][k + 1])
    {
      assert Undisturbed(CpuStep(hs[from + k], envs[from + k]).m, hs[from + k + 1]);
    }
  }

  /** A process's own cycles push a word, stay above it, and finally pop at its level. */
  ghost predicate PushThenPop(hs: seq<Hw>, envs: seq<Env>) {
    && 2 <= |envs| == |hs| - 1
    && (forall k :: 0 <= k < |envs| ==> OnStack(hs[k].cpu) && StackSafe(hs[k]))
    && NextInstruction(hs[0]).opCode == OP_PSH && NextInstruction(hs[|envs| - 1]).opCode == OP_POP
    && (forall k :: 1 <= k < |envs| ==> |Stack(hs[k])| > |Stack(hs[0])|)
    && (forall k :: 1 <= k < |envs| && NextInstruction(hs[k]).opCode == OP_STRSP ==> |Stack(hs[k])| > |Stack(hs[0])| + 1)
    && |Stack(hs[|envs| - 1])| == |Stack(hs[0])| + 1
  }

  lemma OwnStackCycle(m: Hw, env: Env)
    requires OwnCycle(m, env) && OnStack(m.cpu) && StackSafe(m)
    ensures StackCycleOk(m, env)
  {
    hide CpuStep, StackSafe;
  }

  lemma MiddleStaysAbove(hs: seq<Hw>, envs: seq<Env>)
    requires Cycles(hs, envs) && PushThenPop(hs, envs) && forall k :: 0 <= k < |envs| ==> StackCycleOk(hs[k], envs[k])
    ensures StaysAbove(hs[1..|envs|], envs[1..|envs| - 1], |Stack(hs[0])| + 1)
  {
    hide Cycles, StackCycleOk, StackSafe, OnStack, Stack, NextInstruction;
    var n := |envs|;
    CyclesSlice(hs, envs, 1, n - 1);
    forall k | 0 <= k < n - 1 ensures OnStack(hs[1..n][k].cpu) && |Stack(hs[1..n][k])| >= |Stack(hs[0])| + 1 {
      assert OnStack(hs[k + 1].cpu) && |Stack(hs[k + 1])| > |Stack(hs[0])|;
    }
    forall k | 0 <= k < n - 2
      ensures StackCycleOk(hs[1..n][k], envs[1..n - 1][k])
      ensures NextInstruction(hs[1..n][k]).opCode == OP_STRSP ==> OnStack(hs[1..n][k].cpu) && |Stack(hs[1..n][k])| > |Stack(hs[0])| + 1
    {
      assert StackCycleOk(hs[k + 1], envs[k + 1]);
    }
  }

  lemma PoppedAgain(hs: seq<Hw>, envs: seq<Env>)
    requires Cycles(hs, envs) && PushThenPop(hs, envs) && forall k :: 0 <= k < |envs| ==> StackCycleOk(hs[k], envs[k])
    ensures var n := |envs|;
            && OnStack(hs[n].cpu) && Stack(hs[n]) == Stack(hs[0])
            && hs[n].cpu.ac == (if AfterInstruction(hs[n - 1], envs[n - 1].junk).pending == {} || hs[n - 1].cpu.sp >= 6
                                then hs[0].cpu.ac else 0)
  {
    MiddleStaysAbove(hs, envs);
    hide StackCycleOk, StaysAbove, StackSafe, OnStack, Stack, NextInstruction, AfterInstruction, CpuStep, Undisturbed;
    var n := |envs|;
    assert Undisturbed(CpuStep(hs[0], envs[0]).m, hs[1]);
    PopReturnsLatest(hs[0], envs[0], hs[1..n], envs[1..n - 1], envs[n - 1]);
    assert Undisturbed(CpuStep(hs[n - 1], envs[n - 1]).m, hs[n]);
    UndisturbedStack(CpuStep(hs[n - 1], envs[n - 1]).m, hs[n]);
  }

  /** Last in, first out, in a run of the whole system. */
  lemma StackSurvivesPreemption(ss: seq<Sys>, steps: seq<Step>, i: Index)
    requires ContainedRun(ss, steps) && Inv(ss[0]) && Fenced(ss[0]) && LiveThroughout(ss, i)
    requires PushThenPop(OwnStates(ss, steps, i), OwnInputs(ss, steps, i))
    ensures var hs, envs, n := OwnStates(ss, steps, i), OwnInputs(ss, steps, i), |OwnInputs(ss, steps, i)|;
            var end := View(ss[|steps|], i);
            && OnStack(end.cpu) && Stack(end) == Stack(hs[0])
            && end.cpu.ac == (if AfterInstruction(hs[n - 1], envs[n - 1].junk).pending == {} || hs[n - 1].cpu.sp >= 6
                              then hs[0].cpu.ac else 0)
  {
    assert |ss| == |steps| + 1;
    OwnCyclesChain(ss, steps, i);
    LastState(ss, steps, i);
    var hs, envs := OwnStates(ss, steps, i), OwnInputs(ss, steps, i);
    hide Inv, Fenced, ContainedRun, Cycles, CpuStep, StackSafe, OnStack, Stack, OwnCycle, OwnStates, OwnInputs, AfterInstruction, View;
    forall k | 0 <= k < |envs| ensures StackCycleOk(hs[k], envs[k]) { OwnStackCycle(hs[k], envs[k]); }
    PoppedAgain(hs, envs);
  }
}
