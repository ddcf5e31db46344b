/** What the scheduler promises over whole runs: legal transitions, exact sleeps, bounded waiting, and no false shortage. */
module Scheduling {
  import opened Definitions
  import opened Processor
  import opened FileSystem
  import opened Kernel
  import opened Invariants

  // ---------------------------------------------------------------- transitions

  /** The edges of the process lifecycle; one worker iteration may wake and dispatch a process at once. */
  predicate LegalEdge(a: ProcessState, b: ProcessState) {
    match a
    case Finished => b in {Finished, New}
    case New => b in {New, Finished, Ready}
    case Ready => b in {Ready, Executing}
    case Executing => b in {Executing, Ready, Blocked, BlockedIo, Finished}
    case Blocked => b in {Blocked, Ready, Executing}
    case BlockedIo => b in {BlockedIo, Ready, Executing}
  }

  lemma BeforeTickEntry(s: Sys, env: Env, i: Index)
    requires Inv(s)
    ensures BeforeTick(s, env).current == s.current && BeforeTick(s, env).monitor == s.monitor
    ensures i != s.current ==> BeforeTick(s, env).table[i] == s.table[i]
    ensures i == s.current ==> BeforeTick(s, env).table[i].state in {Executing, Blocked, BlockedIo, Finished}
  {
    hide CpuStep;
  }

  /** An entry other than the active one changes in a step only through a tick's ageing or as the loader's own slot. */
  lemma OtherEntry(s: Sys, step: Step, i: Index)
    requires Inv(s) && Enabled(s, step) && i != s.current && Live(s.table[i])
    ensures IsTick(s, step) ==> AgedEntry(s.table[i], Apply(s, step).table[i])
    ensures !IsTick(s, step) ==> Apply(s, step).table[i] == s.table[i]
    ensures !IsTick(s, step) ==> Apply(s, step).current == s.current
  {
    hide CpuStep, LoadToDisk, AgedEntry, Tick;
    if IsTick(s, step) {
      BeforeTickEntry(s, step.env, i);
      WorkerKeepsInvariant(s, step.env);
      TickEntries(BeforeTick(s, step.env));
    }
  }

  /** Every state change of every process, in every step, is an edge of the lifecycle. */
  lemma TransitionsAreLegal(s: Sys, step: Step, i: Index)
    requires Inv(s) && Enabled(s, step)
    ensures LegalEdge(s.table[i].state, Apply(s, step).table[i].state)
  {
    hide CpuStep, LoadToDisk, Tick;
    if IsTick(s, step) {
      BeforeTickEntry(s, step.env, i);
      WorkerKeepsInvariant(s, step.env);
      TickEntries(BeforeTick(s, step.env));
    } else if step.Cycle? {
      WorkerKeepsInvariant(s, step.env);
    } else {
      assert s.table[i].state == New <==> Loading(s, i);
    }
  }

  // ---------------------------------------------------------------- counting ticks

  ghost function TickCount(ss: seq<Sys>, steps: seq<Step>): nat
    requires |ss| == |steps| + 1
  {
    if |steps| == 0 then 0 else (if IsTick(ss[0], steps[0]) then 1 else 0) + TickCount(ss[1..], steps[1..])
  }

  predicate Awake(p: Pcb) {
    p.state in {Ready, Executing}
  }

  lemma SleeperStep(s: Sys, step: Step, i: Index)
    requires Inv(s) && Enabled(s, step) && s.table[i].state == Blocked
    ensures var q := Apply(s, step).table[i];
            && (!IsTick(s, step) ==> q == s.table[i])
            && (IsTick(s, step) ==> q.sleepTics == s.table[i].sleepTics - 1)
            && (IsTick(s, step) && s.table[i].sleepTics == 1 ==> Awake(q))
            && (IsTick(s, step) && s.table[i].sleepTics > 1 ==> q.state == Blocked)
  {
    hide Apply;
    OtherEntry(s, step, i);
  }

  /** A sleeper with n tics left sleeps through n - 1 ticks and is woken by exactly the n-th. */
  lemma {:induction false} SleeperCountsTicks(ss: seq<Sys>, steps: seq<Step>, i: Index)
    requires IsRun(ss, steps) && Inv(ss[0]) && ss[0].table[i].state == Blocked
    ensures var n := ss[0].table[i].sleepTics;
            && (TickCount(ss, steps) < n ==>
                  ss[|steps|].table[i].state == Blocked && ss[|steps|].table[i].sleepTics == n - TickCount(ss, steps))
            && (TickCount(ss, steps) == n && IsTick(ss[|steps| - 1], steps[|steps| - 1]) ==> Awake(ss[|steps|].table[i]))
    decreases |steps|
  {
    hide Apply, Enabled;
    var n := ss[0].table[i].sleepTics;
    if |steps| > 0 {
      RunTail(ss, steps);
      assert Enabled(ss[0], steps[0]);
      StepKeepsInvariant(ss[0], steps[0]);
      SleeperStep(ss[0], steps[0], i);
      if ss[1].table[i].state == Blocked {
        SleeperCountsTicks(ss[1..], steps[1..], i);
      } else if |steps| > 1 && IsTick(ss[|steps| - 1], steps[|steps| - 1]) {
        LastTickCounts(ss[1..], steps[1..]);
      }
    }
  }

  lemma {:induction false} LastTickCounts(ss: seq<Sys>, steps: seq<Step>)
    requires |ss| == |steps| + 1 && 0 < |steps| && IsTick(ss[|steps| - 1], steps[|steps| - 1])
    ensures TickCount(ss, steps) >= 1
    decreases |steps|
  {
    if |steps| > 1 {
      LastTickCounts(ss[1..], steps[1..]);
    }
  }

  /** The step in which the active process asks to sleep for `tics` ticks. */
  predicate FallsAsleep(s: Sys, step: Step, tics: int) {
    step.Cycle? && s.current != -1 && CycleResult(s, step.env).effect == Sleeps(tics)
  }

  lemma FirstTickOfSleep(s: Sys, step: Step, tics: int)
    requires Inv(s) && FallsAsleep(s, step, tics)
    ensures IsTick(s, step) && tics > 0
    ensures var q := Apply(s, step).table[s.current];
            && q.sleepTics == tics - 1
            && (tics == 1 ==> Awake(q))
            && (tics > 1 ==> q.state == Blocked)
  {
    hide CpuStep, Tick;
    BlockingYields(s.hw, step.env.(monitor := s.monitor));
    WorkerKeepsInvariant(s, step.env);
    TickEntries(BeforeTick(s, step.env));
  }

  /**
   Sleep is exact. A process that asks for n ticks is still blocked after any run with fewer ticks, counting the one
   that switches it out, and the n-th tick, whenever it comes, makes it ready.
   */
  lemma SleepIsExact(ss: seq<Sys>, steps: seq<Step>, n: int)
    requires IsRun(ss, steps) && Inv(ss[0]) && 0 < |steps| && FallsAsleep(ss[0], steps[0], n)
    ensures var i := ss[0].current;
            && 1 <= n
            && (TickCount(ss, steps) < n ==> ss[|steps|].table[i].state == Blocked)
            && (TickCount(ss, steps) == n && IsTick(ss[|steps| - 1], steps[|steps| - 1]) ==> Awake(ss[|steps|].table[i]))
  {
    assert ss[0].current != -1;
    hide Apply, FallsAsleep, Inv, IsTick;
    RunTail(ss, steps);
    assert Enabled(ss[0], steps[0]);
    FirstTickOfSleep(ss[0], steps[0], n);
    StepKeepsInvariant(ss[0], steps[0]);
    if n > 1 {
      SleeperCountsTicks(ss[1..], steps[1..], ss[0].current);
    } else if |steps| > 1 && IsTick(ss[|steps| - 1], steps[|steps| - 1]) {
      LastTickCounts(ss[1..], steps[1..]);
    }
  }

  // ---------------------------------------------------------------- waiting for the monitor

  /** Only a closed monitor makes a call wait. */
  lemma WaitsWhenClosed(m: Hw, env: Env)
    ensures CpuStep(m, env).effect == AwaitsMonitor ==> !env.monitor
  {
    hide SaveContext, AfterInstruction, RestoreContext, RewindSavedPc;
  }

  /** A process whose call finds the monitor closed is blocked for it. */
  lemma WaitBegins(s: Sys, step: Step)
    requires Inv(s) && step.Cycle? && s.current != -1 && CycleResult(s, step.env).effect == AwaitsMonitor
    ensures Apply(s, step).table[s.current].state == BlockedIo && !s.monitor && IsTick(s, step)
  {
    WaitsWhenClosed(s.hw, step.env.(monitor := s.monitor));
    BlockingYields(s.hw, step.env.(monitor := s.monitor));
    hide CpuStep, Scan;
    var b := BeforeTick(s, step.env);
    assert b.table[s.current].state == BlockedIo && !b.monitor;
    assert Aged(b.table, b.monitor)[s.current] == Unblocked(Woken(b.table[s.current]), false);
  }

  lemma WaitStep(s: Sys, step: Step, i: Index)
    requires Inv(s) && Enabled(s, step) && s.table[i].state == BlockedIo
    ensures if IsTick(s, step) && s.monitor then Awake(Apply(s, step).table[i]) else Apply(s, step).table[i].state == BlockedIo
  {
    OtherEntry(s, step, i);
    if IsTick(s, step) {
      BeforeTickEntry(s, step.env, i);
      WaitTick(BeforeTick(s, step.env), i);
    }
    hide CycleResult, Tick, BeforeTick, AgedEntry;
  }

  lemma WaitTick(s: Sys, i: Index)
    requires s.table[i].state == BlockedIo && i != s.current
    ensures if s.monitor then Awake(Tick(s).table[i]) else Tick(s).table[i].state == BlockedIo
  {
    hide Scan;
    assert Aged(s.table, s.monitor)[i] == Unblocked(Woken(s.table[i]), s.monitor);
  }

  predicate OpenTick(s: Sys, step: Step) {
    IsTick(s, step) && s.monitor
  }

  /** A wait is exact: the process stays blocked up to the first tick that finds the monitor open, and is awake after it. */
  lemma {:induction false} WaitIsExact(ss: seq<Sys>, steps: seq<Step>, i: Index)
    requires IsRun(ss, steps) && Inv(ss[0]) && ss[0].table[i].state == BlockedIo && 0 < |steps|
    requires forall k :: 0 <= k < |steps| - 1 ==> !OpenTick(ss[k], steps[k])
    ensures if OpenTick(ss[|steps| - 1], steps[|steps| - 1]) then Awake(ss[|steps|].table[i])
            else ss[|steps|].table[i].state == BlockedIo
    decreases |steps|
  {
    hide Inv, Apply, Enabled, IsTick;
    RunTail(ss, steps);
    assert Enabled(ss[0], steps[0]);
    StepKeepsInvariant(ss[0], steps[0]);
    WaitStep(ss[0], steps[0], i);
    if |steps| > 1 {
      assert !OpenTick(ss[0], steps[0]);
      forall k | 0 <= k < |steps| - 2 ensures !OpenTick(ss[1..][k], steps[1..][k]) {
        assert !OpenTick(ss[k + 1], steps[k + 1]);
      }
      WaitIsExact(ss[1..], steps[1..], i);
    }
  }

  // ---------------------------------------------------------------- round robin

  /** How many slots lie between the active one and slot `j`, going round. */
  function Gap(s: Sys, j: Index): int {
    (j - s.current - 1) % 20
  }

  /** A tick dispatches the READY process that comes first after the active slot, going round; from idle, the lowest. */
  lemma TickPicksNext(s: Sys, j: Index)
    requires NoneElseExecuting(s)
    ensures var t := Tick(s);
            && (t.current != -1 && j != t.current && t.table[j].state == Ready ==> Gap(s, t.current) < Gap(s, j))
            && (t.current == -1 ==> t.table[j].state != Ready)
  {
    var t := AfterSwitchOut(s);
    ScanComplete(t, ScanStart(s.current), MAX_PROCESSES);
    GapIsPlace(s, j);
    if Tick(s).current != -1 {
      GapIsPlace(s, Tick(s).current);
      PlaceByCases(ScanStart(s.current), j);
      PlaceByCases(ScanStart(s.current), Tick(s).current);
    }
    hide AfterSwitchOut, Scan, ScanStart, Gap;
  }

  lemma GapIsPlace(s: Sys, j: Index)
    ensures Gap(s, j) == ScanPlace(ScanStart(s.current), j) < MAX_PROCESSES
  {
  }

  /** How many slots the next scan examines before slot `i`. */
  function Distance(s: Sys, i: Index): (d: nat)
    ensures d < MAX_PROCESSES
  {
    ScanPlace(ScanStart(s.current), i)
  }

  /** A tick either dispatches a READY slot or brings it strictly closer to the start of the scan. */
  lemma TickServesOrAdvances(s: Sys, i: Index)
    requires NoneElseExecuting(s) && s.table[i].state == Ready
    ensures var t := Tick(s);
            t.current == i || (t.table[i].state == Ready && Distance(t, i) < Distance(s, i))
  {
    var t := AfterSwitchOut(s);
    SwitchOutEntries(s, i);
    assert t[i].state == Ready;
    ScanComplete(t, ScanStart(s.current), MAX_PROCESSES);
    hide AfterSwitchOut, Scan;
    var next := Tick(s).current;
    if next != i {
      CircularOrder(ScanStart(s.current), next, i);
    }
  }

  /** Starting after `next` instead of at `start` skips everything up to and including `next`. */
  lemma CircularOrder(start: Index, next: Index, i: Index)
    requires ScanPlace(start, next) <= ScanPlace(start, i) && next != i
    ensures ScanPlace((next + 1) % MAX_PROCESSES, i) < ScanPlace(start, i)
  {
    PlaceByCases(start, next);
    PlaceByCases(start, i);
    PlaceByCases((next + 1) % MAX_PROCESSES, i);
    hide ScanPlace;
  }

  lemma ReadyStep(s: Sys, step: Step, i: Index)
    requires Inv(s) && Enabled(s, step) && s.table[i].state == Ready
    ensures var t := Apply(s, step);
            && (t.current == i || t.table[i].state == Ready)
            && (!IsTick(s, step) ==> t.current == s.current)
            && (IsTick(s, step) && t.current != i ==> Distance(t, i) < Distance(s, i))
  {
    hide Distance, CpuStep, LoadToDisk, Tick;
    if IsTick(s, step) {
      BeforeTickEntry(s, step.env, i);
      WorkerKeepsInvariant(s, step.env);
      TickServesOrAdvances(BeforeTick(s, step.env), i);
      SameDistance(s, BeforeTick(s, step.env), i);
    } else {
      OtherEntry(s, step, i);
    }
  }

  lemma SameDistance(s: Sys, t: Sys, i: Index)
    requires s.current == t.current
    ensures Distance(s, i) == Distance(t, i)
  {
  }

  /**
   Bounded waiting. Whatever arrives, wakes, blocks or ends in between, as long as a READY process has not been
   dispatched the number of ticks is at most its distance in the scan, which is below twenty.
   */
  lemma {:induction false} BoundedWaiting(ss: seq<Sys>, steps: seq<Step>, i: Index)
    requires IsRun(ss, steps) && Inv(ss[0]) && ss[0].table[i].state == Ready
    requires forall k :: 0 <= k < |ss| ==> ss[k].current != i
    ensures TickCount(ss, steps) <= Distance(ss[0], i)
    decreases |steps|
  {
    hide Apply, Enabled;
    if |steps| > 0 {
      RunTail(ss, steps);
      assert Enabled(ss[0], steps[0]);
      StepKeepsInvariant(ss[0], steps[0]);
      ReadyStep(ss[0], steps[0], i);
      BoundedWaiting(ss[1..], steps[1..], i);
    }
  }

  // ---------------------------------------------------------------- resources

  ghost function FreeBlocks(s: Sys): set<int> {
    set k | 0 <= k < MAX_PROCESSES && s.free[k]
  }

  /** The slots below `n` that hold memory. */
  ghost function Holders(s: Sys, n: nat): set<int>
    requires n <= MAX_PROCESSES
  {
    set i | 0 <= i < n && Claims(s, i)
  }

  ghost function Below(n: nat): (r: set<int>)
    ensures |r| == n && forall k :: k in r <==> 0 <= k < n
  {
    if n == 0 then {} else Below(n - 1) + {n - 1}
  }

  lemma FirstBlocksDiffer(s: Sys, i: Index, j: Index)
    requires Ownership(s) && Claims(s, i) && Claims(s, j) && i != j
    ensures Claim(s, i).0 != Claim(s, j).0
  {
    assert Owns(s, i, Claim(s, i).0) && Owns(s, j, Claim(s, j).0);
  }

  /** Distinct holders have distinct first partitions. */
  lemma {:induction false} HoldersFit(s: Sys, n: nat, blocks: set<int>)
    requires Ownership(s) && n <= MAX_PROCESSES
    requires forall i :: i in Holders(s, n) ==> Claim(s, i).0 in blocks
    ensures |Holders(s, n)| <= |blocks|
    decreases n
  {
    hide Claim, Claims, Ownership;
    if n > 0 {
      var i: Index := n - 1;
      if Claims(s, i) {
        var k := Claim(s, i).0;
        assert i in Holders(s, n);
        forall j | j in Holders(s, n - 1) ensures Claim(s, j).0 in blocks - {k} {
          assert j in Holders(s, n);
          FirstBlocksDiffer(s, i, j);
        }
        HoldersFit(s, n - 1, blocks - {k});
        assert Holders(s, n) == Holders(s, n - 1) + {i};
      } else {
        assert Holders(s, n) == Holders(s, n - 1);
        HoldersFit(s, n - 1, blocks);
      }
    }
  }

  /** Free partitions never outnumber the table entries that hold no memory. */
  lemma FreeBlocksBounded(s: Sys)
    requires Ownership(s)
    ensures |FreeBlocks(s)| + |Holders(s, MAX_PROCESSES)| <= MAX_PROCESSES
  {
    hide Below;
    var all := Below(MAX_PROCESSES);
    forall i | i in Holders(s, MAX_PROCESSES) ensures Claim(s, i).0 in all - FreeBlocks(s) {
      assert Owns(s, i, Claim(s, i).0);
    }
    HoldersFit(s, MAX_PROCESSES, all - FreeBlocks(s));
    assert FreeBlocks(s) <= all;
    assert |all - FreeBlocks(s)| == |all| - |FreeBlocks(s)|;
  }

  /** The process table never runs out before memory does: when no slot is left, no partition is free either. */
  lemma SlotsOutlastMemory(s: Sys)
    requires Inv(s) && s.loader.Idle? && FreeSlotFrom(s.table, 0) == -1
    ensures forall k :: 0 <= k < MAX_PROCESSES ==> !s.free[k]
  {
    hide Below;
    FreeBlocksBounded(s);
    var all := Below(MAX_PROCESSES);
    forall i: Index ensures Live(s.table[i]) {
      assert s.table[i].state == New <==> Loading(s, i);
    }
    assert Holders(s, MAX_PROCESSES) == all;
    assert |FreeBlocks(s)| == 0;
    forall k | 0 <= k < MAX_PROCESSES ensures !s.free[k] {
      assert k !in FreeBlocks(s);
    }
  }
}
