/** Print and read calls in runs of the whole system: retried while the monitor is closed, served once when it is open. */
module MonitorCalls {
  import opened Definitions
  import opened Words
  import opened Processor
  import opened Context
  import opened SystemCalls
  import opened Partitions
  import opened FileSystem
  import opened Kernel
  import opened Invariants
  import opened Isolation
  import opened Progress
  import opened Multiplexing
  import opened Processes

  // ---------------------------------------------------------------- attempts

  /** The monitor is closed at the first `k` of these cycles. */
  ghost predicate ClosedBefore(inputs: seq<Env>, k: nat) {
    k < |inputs| && forall j :: 0 <= j < k ==> !inputs[j].monitor
  }

  lemma ClosedCons(e: Env, rest: seq<Env>, k: nat)
    requires ClosedBefore([e] + rest, k) && 0 < k
    ensures !e.monitor && ClosedBefore(rest, k - 1)
  {
    var ins := [e] + rest;
    assert !ins[0].monitor;
    forall j | 0 <= j < k - 1 ensures !rest[j].monitor { assert !ins[j + 1].monitor; }
  }

  lemma ClosedTail(ss: seq<Sys>, steps: seq<Step>, i: Index, k: nat)
    requires |ss| == |steps| + 1 && 0 < |steps| && ClosedBefore(OwnInputs(ss, steps, i), k)
    ensures !Runs(ss[0], steps[0], i) ==> ClosedBefore(OwnInputs(ss[1..], steps[1..], i), k)
    ensures Runs(ss[0], steps[0], i) && 0 < k ==> !ss[0].monitor && ClosedBefore(OwnInputs(ss[1..], steps[1..], i), k - 1)
  {
    hide OwnInputs, OwnStates, Trace, View, ClosedBefore, Seen, CpuStep;
    Unrolled(ss, steps, i);
    if Runs(ss[0], steps[0], i) && 0 < k {
      ClosedCons(Inputs(ss[0], steps[0]), OwnInputs(ss[1..], steps[1..], i), k);
    }
  }

  /** `k` cycles that only wait, then one with effect `e`. */
  ghost predicate WaitsThen(trace: seq<Observation>, k: nat, e: Effect) {
    && k < |trace| && (forall j :: 0 <= j < k ==> trace[j] == Observation(true, AwaitsMonitor))
    && trace[k] == Observation(true, e)
  }

  /** The outcome of a call made with visible registers `c` and `v` on top of the stack, by its `k`-th attempt. */
  ghost predicate CallOutcome(ss: seq<Sys>, steps: seq<Step>, i: Index, k: nat, c: Cpu, v: int)
    requires |ss| == |steps| + 1
  {
    && k < |OwnInputs(ss, steps, i)|
    && var env := OwnInputs(ss, steps, i)[k];
    && WaitsThen(Trace(ss, steps, i), k, AttemptEffect(c, v, env))
    && Visible(OwnStates(ss, steps, i)[k + 1].cpu) == AttemptResult(c, env)
  }

  lemma FirstOutcome(ss: seq<Sys>, steps: seq<Step>, i: Index, c: Cpu, v: int)
    requires |ss| == |steps| + 1 && 0 < |steps| && Runs(ss[0], steps[0], i)
    requires var env := Inputs(ss[0], steps[0]);
             && Seen(CpuStep(ss[0].hw, env)) == Observation(true, AttemptEffect(c, v, env))
             && Visible(OwnStates(ss[1..], steps[1..], i)[0].cpu) == AttemptResult(c, env)
    ensures CallOutcome(ss, steps, i, 0, c, v)
  {
    hide CpuStep, Seen, AttemptEffect, AttemptResult, Visible;
    Unrolled(ss, steps, i);
    hide Trace, OwnStates, OwnInputs, View;
  }

  lemma LaterOutcome(ss: seq<Sys>, steps: seq<Step>, i: Index, k: nat, c: Cpu, v: int)
    requires |ss| == |steps| + 1 && 0 < |steps| && Runs(ss[0], steps[0], i) && 0 < k
    requires Seen(CpuStep(ss[0].hw, Inputs(ss[0], steps[0]))) == Observation(true, AwaitsMonitor)
    requires CallOutcome(ss[1..], steps[1..], i, k - 1, c, v)
    ensures CallOutcome(ss, steps, i, k, c, v)
  {
    hide CpuStep, Seen, AttemptEffect, AttemptResult, Visible;
    Unrolled(ss, steps, i);
    hide Trace, OwnStates, OwnInputs, View;
  }

  lemma IdleOutcome(ss: seq<Sys>, steps: seq<Step>, i: Index, k: nat, c: Cpu, v: int)
    requires |ss| == |steps| + 1 && 0 < |steps| && !Runs(ss[0], steps[0], i)
    requires CallOutcome(ss[1..], steps[1..], i, k, c, v)
    ensures CallOutcome(ss, steps, i, k, c, v)
  {
    hide CpuStep, Seen, AttemptEffect, AttemptResult, Visible;
    Unrolled(ss, steps, i);
    hide Trace, OwnStates, OwnInputs, View;
  }

  lemma SameVisible(a: Hw, b: Hw)
    requires Undisturbed(a, b)
    ensures Visible(b.cpu) == Visible(a.cpu)
  {
  }

  /** The process's own cycle at a call: what it shows, and the state it finds itself in afterwards. */
  lemma OwnAttempt(s: Sys, step: Step, i: Index)
    requires Inv(s) && Fenced(s) && Enabled(s, step) && Contained(s, step) && Runs(s, step, i) && AtMonitorCall(View(s, i))
    ensures var m, env, t := View(s, i), Inputs(s, step), Apply(s, step);
            && m == s.hw && Live(t.table[i])
            && Seen(CpuStep(s.hw, env)) == Observation(true, AttemptEffect(Visible(m.cpu), Parameter(m, 0), env))
            && Visible(View(t, i).cpu) == AttemptResult(Visible(m.cpu), env)
            && (!s.monitor ==> AtMonitorCall(View(t, i)) && Parameter(View(t, i), 0) == Parameter(m, 0))
  {
    assert View(s, i) == s.hw && s.hw.cpu.ac == Visible(s.hw.cpu).ac;
    hide Inv, Fenced, CpuStep, AtMonitorCall, Parameter, Undisturbed, Apply, Enabled, Contained, OwnCycle, View, AttemptResult, Visible;
    var env, t := Inputs(s, step), Apply(s, step);
    Attempt(s.hw, env);
    OwnStepUndisturbed(s, step, i);
    SameVisible(CpuStep(s.hw, env).m, View(t, i));
    if !s.monitor { RetryIsSameCall(s.hw, env, View(t, i)); }
  }

  /** The first own cycle of a process at such a call. */
  lemma FirstAttempt(ss: seq<Sys>, steps: seq<Step>, i: Index)
    requires ContainedRun(ss, steps) && Inv(ss[0]) && Fenced(ss[0]) && 0 < |steps| && Runs(ss[0], steps[0], i)
    requires AtMonitorCall(View(ss[0], i))
    ensures CallOutcome(ss, steps, i, 0, Visible(View(ss[0], i).cpu), Parameter(View(ss[0], i), 0))
  {
    hide Inv, Fenced, Apply, Enabled, Contained, Undisturbed, CpuStep, AtMonitorCall, Parameter, Trace, OwnStates, OwnInputs,
         CallOutcome, AttemptEffect, AttemptResult, Visible, View, Seen;
    ContainedTail(ss, steps);
    StepKeepsInvariant(ss[0], steps[0]);
    StepKeepsFence(ss[0], steps[0]);
    OwnAttempt(ss[0], steps[0], i);
    SuspensionIsUndisturbed(ss[1..], steps[1..], i);
    SameVisible(View(ss[1], i), OwnStates(ss[1..], steps[1..], i)[0]);
    FirstOutcome(ss, steps, i, Visible(View(ss[0], i).cpu), Parameter(View(ss[0], i), 0));
  }

  /** A step that does not serve the call leaves the process at it, whether it was that process's own or not. */
  lemma NextAttempt(ss: seq<Sys>, steps: seq<Step>, i: Index)
    requires ContainedRun(ss, steps) && Inv(ss[0]) && Fenced(ss[0]) && 0 < |steps| && Live(ss[0].table[i])
    requires AtMonitorCall(View(ss[0], i)) && (Runs(ss[0], steps[0], i) ==> !ss[0].monitor)
    ensures ContainedRun(ss[1..], steps[1..]) && Inv(ss[1]) && Fenced(ss[1]) && Live(ss[1].table[i])
    ensures AtMonitorCall(View(ss[1], i)) && Visible(View(ss[1], i).cpu) == Visible(View(ss[0], i).cpu)
    ensures Parameter(View(ss[1], i), 0) == Parameter(View(ss[0], i), 0)
    ensures Runs(ss[0], steps[0], i) ==> Seen(CpuStep(ss[0].hw, Inputs(ss[0], steps[0]))) == Observation(true, AwaitsMonitor)
  {
    hide Inv, Fenced, Apply, Enabled, Contained, Undisturbed, CpuStep, AtMonitorCall, Parameter, Visible, View, Seen;
    ContainedTail(ss, steps);
    StepKeepsInvariant(ss[0], steps[0]);
    StepKeepsFence(ss[0], steps[0]);
    if Runs(ss[0], steps[0], i) {
      OwnAttempt(ss[0], steps[0], i);
    } else {
      IdleStepUndisturbed(ss[0], steps[0], i);
      SameVisible(View(ss[0], i), View(ss[1], i));
      CallWaits(View(ss[0], i), View(ss[1], i));
    }
  }

  /**
   A print or read call in a run of the whole system. However often the process finds the monitor closed, is switched
   out and is dispatched again, each of its cycles up to the first with an open monitor shows only that it waits and
   leaves every visible register; that one prints the value first on its stack, or fetches the number typed then, and
   the process goes on behind the call.
   */
  lemma {:induction false} CallServedOnce(ss: seq<Sys>, steps: seq<Step>, i: Index, k: nat)
    requires ContainedRun(ss, steps) && Inv(ss[0]) && Fenced(ss[0]) && Live(ss[0].table[i])
    requires AtMonitorCall(View(ss[0], i)) && ClosedBefore(OwnInputs(ss, steps, i), k)
    ensures CallOutcome(ss, steps, i, k, Visible(View(ss[0], i).cpu), Parameter(View(ss[0], i), 0))
    decreases |steps|
  {
    assert |ss| == |steps| + 1 && 0 < |steps|;
    var c, v := Visible(View(ss[0], i).cpu), Parameter(View(ss[0], i), 0);
    hide Inv, Fenced, ContainedRun, CpuStep, AtMonitorCall, Parameter, Trace, OwnStates, OwnInputs, ClosedBefore, CallOutcome,
         View, Visible, Live, Runs, Seen;
    ClosedTail(ss, steps, i, k);
    if Runs(ss[0], steps[0], i) && k == 0 {
      FirstAttempt(ss, steps, i);
    } else {
      NextAttempt(ss, steps, i);
      if Runs(ss[0], steps[0], i) {
        CallServedOnce(ss[1..], steps[1..], i, k - 1);
        LaterOutcome(ss, steps, i, k, c, v);
      } else {
        CallServedOnce(ss[1..], steps[1..], i, k);
        IdleOutcome(ss, steps, i, k, c, v);
      }
    }
  }

  /** In particular, a print call prints once. */
  lemma PrintsExactlyOnce(ss: seq<Sys>, steps: seq<Step>, i: Index, k: nat)
    requires ContainedRun(ss, steps) && Inv(ss[0]) && Fenced(ss[0]) && Live(ss[0].table[i])
    requires AtMonitorCall(View(ss[0], i)) && Registers(ss[0], i).ac == 2
    requires ClosedBefore(OwnInputs(ss, steps, i), k) && OwnInputs(ss, steps, i)[k].monitor
    ensures WaitsThen(Trace(ss, steps, i), k, Prints(Parameter(View(ss[0], i), 0)))
    ensures OwnStates(ss, steps, i)[k + 1].cpu.pc == Registers(ss[0], i).pc + 1
  {
    assert |ss| == |steps| + 1;
    hide Inv, Fenced, ContainedRun, CpuStep, AtMonitorCall, Parameter, Trace, OwnStates, OwnInputs, ClosedBefore, WaitsThen;
    CallServedOnce(ss, steps, i, k);
    assert Visible(OwnStates(ss, steps, i)[k + 1].cpu).pc == Visible(View(ss[0], i).cpu).pc + 1;
  }

  /** And a read call, after any number of waits, finds in AC the number typed when the monitor is open. */
  lemma ReadsExactlyOnce(ss: seq<Sys>, steps: seq<Step>, i: Index, k: nat)
    requires ContainedRun(ss, steps) && Inv(ss[0]) && Fenced(ss[0]) && Live(ss[0].table[i])
    requires AtMonitorCall(View(ss[0], i)) && Registers(ss[0], i).ac == 3
    requires ClosedBefore(OwnInputs(ss, steps, i), k) && OwnInputs(ss, steps, i)[k].monitor
    ensures WaitsThen(Trace(ss, steps, i), k, NoEffect)
    ensures var c, typed := OwnStates(ss, steps, i)[k + 1].cpu, OwnInputs(ss, steps, i)[k].input;
            c.pc == Registers(ss[0], i).pc + 1 && WordToInt(c.ac) == TruncMod(typed, SIGN_BIT)
  {
    assert |ss| == |steps| + 1;
    hide Inv, Fenced, ContainedRun, CpuStep, AtMonitorCall, Parameter, Trace, OwnStates, OwnInputs, ClosedBefore, WaitsThen, IntToWord, WordToInt;
    CallServedOnce(ss, steps, i, k);
    var c, typed := OwnStates(ss, steps, i)[k + 1].cpu, OwnInputs(ss, steps, i)[k].input;
    assert Visible(c).pc == Visible(View(ss[0], i).cpu).pc + 1 && Visible(c).ac == IntToWord(typed);
    IntToWordRange(typed);
  }

  // ---------------------------------------------------------------- what the user sees

  predicate IsShown(e: Effect) {
    e.Prints? || e.RejectsSleep?
  }

  /** The effects among a process's observations that reach the screen. */
  ghost function Shown(trace: seq<Observation>): seq<Effect> {
    if trace == [] then [] else (if IsShown(trace[0].effect) then [trace[0].effect] else []) + Shown(trace[1..])
  }

  /** The lines of the output that belong to one process. */
  function OutputOf(output: seq<Event>, pid: int): seq<Effect>
    decreases |output|
  {
    if output == [] then []
    else
      var earlier, last := OutputOf(output[..|output| - 1], pid), output[|output| - 1];
      if last.pid == pid then earlier + [last.effect] else earlier
  }

  lemma OutputAppended(output: seq<Event>, shown: int, e: Effect, pid: int)
    ensures OutputOf(output + Emitted(shown, e), pid) ==
            if IsShown(e) && shown == pid then OutputOf(output, pid) + [e] else OutputOf(output, pid)
  {
    if IsShown(e) {
      assert (output + [Event(shown, e)])[..|output|] == output;
    } else {
      assert output + [] == output;
    }
  }

  lemma StepOutput(s: Sys, step: Step)
    requires Inv(s) && Enabled(s, step)
    ensures Apply(s, step).output ==
            if step.Cycle? && s.current != -1
            then s.output + Emitted(s.table[s.current].pid, CycleResult(s, step.env).effect) else s.output
  {
    hide CpuStep, LoadToDisk, RequiredBlocks, Scan, AfterSwitchOut;
  }

  lemma StepShows(s: Sys, step: Step, i: Index)
    requires Inv(s) && Enabled(s, step) && Live(s.table[i])
    ensures OutputOf(Apply(s, step).output, s.table[i].pid) == OutputOf(s.output, s.table[i].pid) +
            (if Runs(s, step, i) && IsShown(CpuStep(s.hw, Inputs(s, step)).effect)
             then [CpuStep(s.hw, Inputs(s, step)).effect] else [])
  {
    hide Apply, CpuStep;
    StepOutput(s, step);
    if step.Cycle? && s.current != -1 {
      OutputAppended(s.output, s.table[s.current].pid, CycleResult(s, step.env).effect, s.table[i].pid);
      ActiveIsLive(s);
    }
  }

  lemma StepKeepsPid(s: Sys, step: Step, i: Index)
    requires Inv(s) && Enabled(s, step) && Live(s.table[i]) && Live(Apply(s, step).table[i])
    ensures Apply(s, step).table[i].pid == s.table[i].pid
  {
    hide Inv, Enabled, WorkerIteration, Live, Low, High, Claim, Registers;
    if step.Cycle? {
      IterationKeepsPid(s, step.env, i);
    } else {
      hide Apply;
      QuietStepSparesAll(s, step, i);
    }
  }

  lemma IterationKeepsPid(s: Sys, env: Env, i: Index)
    requires Inv(s) && Live(WorkerIteration(s, env).table[i])
    ensures WorkerIteration(s, env).table[i].pid == s.table[i].pid
  {
    hide WorkerIteration, CycleResult;
    IterationView(s, env, i);
  }

  /** In any run at all, the lines shown for a process are exactly those its own cycles ask for, in order. */
  lemma {:induction false} OutputIsTrace(ss: seq<Sys>, steps: seq<Step>, i: Index)
    requires IsRun(ss, steps) && Inv(ss[0]) && LiveThroughout(ss, i)
    ensures ss[|steps|].table[i].pid == ss[0].table[i].pid
    ensures var pid := ss[0].table[i].pid;
            OutputOf(ss[|steps|].output, pid) == OutputOf(ss[0].output, pid) + Shown(Trace(ss, steps, i))
    decreases |steps|
  {
    hide Inv, Apply, Enabled, CpuStep;
    if |steps| > 0 {
      RunTail(ss, steps);
      assert Enabled(ss[0], steps[0]);
      assert Live(ss[0].table[i]) && Live(ss[1].table[i]);
      StepKeepsInvariant(ss[0], steps[0]);
      StepShows(ss[0], steps[0], i);
      StepKeepsPid(ss[0], steps[0], i);
      OutputIsTrace(ss[1..], steps[1..], i);
      ShownCons(ss, steps, i);
    }
  }

  lemma ShownCons(ss: seq<Sys>, steps: seq<Step>, i: Index)
    requires |ss| == |steps| + 1 && 0 < |steps|
    ensures var e := CpuStep(ss[0].hw, if steps[0].Cycle? then Inputs(ss[0], steps[0]) else Env(false, 0, 0)).effect;
            Shown(Trace(ss, steps, i)) ==
            (if Runs(ss[0], steps[0], i) && IsShown(e) then [e] else []) + Shown(Trace(ss[1..], steps[1..], i))
  {
    hide CpuStep;
    var tail := Trace(ss[1..], steps[1..], i);
    if Runs(ss[0], steps[0], i) {
      assert Trace(ss, steps, i)[1..] == tail;
    } else {
      assert Trace(ss, steps, i) == tail;
    }
  }

  /** Of cycles that wait and then print, the user sees the print. */
  lemma {:induction false} ShownOnce(trace: seq<Observation>, k: nat, v: int)
    requires WaitsThen(trace, k, Prints(v)) && |trace| == k + 1
    ensures Shown(trace) == [Prints(v)]
    decreases k
  {
    if k > 0 {
      ShownOnce(trace[1..], k - 1, v);
    }
  }

  lemma {:induction false} TraceLength(ss: seq<Sys>, steps: seq<Step>, i: Index)
    requires |ss| == |steps| + 1
    ensures |Trace(ss, steps, i)| == |OwnInputs(ss, steps, i)|
    decreases |steps|
  {
    hide CpuStep;
    if |steps| > 0 { TraceLength(ss[1..], steps[1..], i); }
  }

  /** On the screen: up to and including the first attempt that finds the monitor open, one line, with the first value. */
  lemma PrintAppearsOnce(ss: seq<Sys>, steps: seq<Step>, i: Index, k: nat)
    requires ContainedRun(ss, steps) && Inv(ss[0]) && Fenced(ss[0]) && LiveThroughout(ss, i)
    requires AtMonitorCall(View(ss[0], i)) && Registers(ss[0], i).ac == 2
    requires var ins := OwnInputs(ss, steps, i); ClosedBefore(ins, k) && |ins| == k + 1 && ins[k].monitor
    ensures var pid := ss[0].table[i].pid;
            OutputOf(ss[|steps|].output, pid) == OutputOf(ss[0].output, pid) + [Prints(Parameter(View(ss[0], i), 0))]
  {
    assert Live(ss[0].table[i]) && IsRun(ss, steps) && |ss| == |steps| + 1;
    hide Inv, Fenced, ContainedRun, IsRun, LiveThroughout, Trace, OwnInputs, OwnStates, AtMonitorCall, Parameter, View, Shown,
         OutputOf, ClosedBefore, WaitsThen;
    PrintsExactlyOnce(ss, steps, i, k);
    TraceLength(ss, steps, i);
    ShownOnce(Trace(ss, steps, i), k, Parameter(View(ss[0], i), 0));
    OutputIsTrace(ss, steps, i);
  }

  // ---------------------------------------------------------------- delivery

  /**
   While the monitor stays open, a call is served before the worker has made Patience iterations, whatever the process
   was waiting for and whatever the others do: there is a step in which the process takes its cycle, and with it exactly
   the one line of a print call has been added to its output.
   */
  lemma {:induction false} CallServedInTime(ss: seq<Sys>, steps: seq<Step>, i: Index) returns (k: nat)
    requires ContainedRun(ss, steps) && Inv(ss[0]) && Fenced(ss[0]) && Live(ss[0].table[i])
    requires AtMonitorCall(View(ss[0], i)) && forall j :: 0 <= j < |steps| ==> ss[j].monitor
    requires CycleCount(steps) > Patience(ss[0], i)
    ensures k < |steps| && CycleCount(steps[..k]) <= Patience(ss[0], i) && Runs(ss[k], steps[k], i)
    ensures ServedAt(ss[0], ss[k], steps[k], ss[k + 1], i)
    decreases |steps|
  {
    assert |ss| == |steps| + 1;
    assert 0 < |steps|;
    hide Inv, Fenced, Apply, Enabled, Contained, CpuStep, AtMonitorCall, Parameter, View, Visible, Patience, OutputOf, ServedAt, Live;
    PatienceBounds(ss[0], i);
    ContainedTail(ss, steps);
    assert ss[0].monitor;
    if Runs(ss[0], steps[0], i) {
      k := 0;
      ServedNow(ss[0], steps[0], i);
    } else {
      NextAttempt(ss, steps, i);
      PatienceShrinks(ss[0], steps[0], i);
      var j := CallServedInTime(ss[1..], steps[1..], i);
      k := j + 1;
      assert steps[..k][1..] == steps[1..][..j];
      ServedLater(ss[0], steps[0], ss[k], steps[k], ss[k + 1], i);
    }
  }

  /** In the step from `s` to `t` the call that was pending in `from` is served: effect, registers and output. */
  ghost predicate ServedAt(from: Sys, s: Sys, step: Step, t: Sys, i: Index) {
    && step.Cycle? && from.table[i].pid == t.table[i].pid
    && var env, m, pid := Inputs(s, step), View(from, i), from.table[i].pid;
    && Visible(View(t, i).cpu) == AttemptResult(Visible(m.cpu), env) && env.monitor
    && OutputOf(t.output, pid) ==
       (if m.cpu.ac == 2 then OutputOf(from.output, pid) + [Prints(Parameter(m, 0))] else OutputOf(from.output, pid))
  }

  lemma ServedNow(s: Sys, step: Step, i: Index)
    requires Inv(s) && Fenced(s) && Enabled(s, step) && Contained(s, step) && Runs(s, step, i) && s.monitor
    requires AtMonitorCall(View(s, i)) && Live(s.table[i])
    ensures ServedAt(s, s, step, Apply(s, step), i)
  {
    assert View(s, i).cpu.ac == Visible(View(s, i).cpu).ac;
    hide Inv, Fenced, Apply, Enabled, Contained, CpuStep, AtMonitorCall, Parameter, View, Visible, OutputOf, Live, AttemptResult;
    OwnAttempt(s, step, i);
    StepShows(s, step, i);
    StepKeepsPid(s, step, i);
  }

  lemma ServedLater(from: Sys, first: Step, s: Sys, step: Step, t: Sys, i: Index)
    requires Inv(from) && Enabled(from, first) && Live(from.table[i]) && Live(Apply(from, first).table[i]) && !Runs(from, first, i)
    requires var next := Apply(from, first);
             && Visible(View(next, i).cpu) == Visible(View(from, i).cpu) && Parameter(View(next, i), 0) == Parameter(View(from, i), 0)
             && ServedAt(next, s, step, t, i)
    ensures ServedAt(from, s, step, t, i)
  {
    var next := Apply(from, first);
    assert Visible(View(next, i).cpu).ac == Visible(View(from, i).cpu).ac;
    hide Inv, Apply, Enabled, CpuStep, Parameter, OutputOf, Live, AttemptResult;
    StepShows(from, first, i);
    StepKeepsPid(from, first, i);
  }
}
