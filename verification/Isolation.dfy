/** Memory isolation and exact resumption over whole runs of confined programs, and the fidelity of loaded code. */
module Isolation {
  import opened Definitions
  import opened Processor
  import opened Confinement
  import opened Partitions
  import opened FileSystem
  import opened Kernel
  import opened Invariants

  /** A process's registers: on the CPU while it is active, in its table entry otherwise. */
  function Registers(s: Sys, i: Index): Cpu {
    if i == s.current then s.hw.cpu else s.table[i].context
  }

  /** Live processes run in user mode inside exactly the partitions they own. */
  ghost predicate Fenced(s: Sys) {
    && s.hw.pending <= ASYNCHRONOUS
    && forall i: Index :: Live(s.table[i]) ==> FencedSlot(s, i)
  }

  predicate FencedSlot(s: Sys, i: Index) {
    var c, p := Registers(s, i), s.table[i];
    && Sound(c) && p.blockCount == RequiredBlocks(c.rx)
    && c.rb == BaseRegister(p.startBlock) && c.rl == LimitRegister(c.rb, p.blockCount)
    && (if i == s.current then Steady(s.hw) else Settled(c, s.hw.ram))
  }

  /** A live process's claim is exactly its protection window. */
  lemma FencedClaim(s: Sys, i: Index)
    requires Fenced(s) && Live(s.table[i])
    ensures Sound(Registers(s, i)) && Low(s, i) == Registers(s, i).rb && High(s, i) == Registers(s, i).rl
  {
    assert FencedSlot(s, i);
  }

  /** What isolation needs of a step: the active program's next instruction is confined, or a guarded DMA instruction. */
  predicate Contained(s: Sys, step: Step) {
    step.Cycle? && s.current != -1 ==> ContainedNext(s.hw)
  }

  ghost predicate ContainedRun(ss: seq<Sys>, steps: seq<Step>) {
    IsRun(ss, steps) && forall k :: 0 <= k < |steps| ==> Contained(ss[k], steps[k])
  }

  lemma ContainedTail(ss: seq<Sys>, steps: seq<Step>)
    requires ContainedRun(ss, steps) && 0 < |steps|
    ensures ContainedRun(ss[1..], steps[1..])
    ensures Enabled(ss[0], steps[0]) && Contained(ss[0], steps[0]) && ss[1] == Apply(ss[0], steps[0])
  {
    RunTail(ss, steps);
    assert Enabled(ss[0], steps[0]);
    forall k | 0 <= k < |steps| - 1
      ensures Contained(ss[1..][k], steps[1..][k])
    {
      assert Contained(ss[k + 1], steps[k + 1]);
    }
  }

  /** The first and last RAM words of a slot's claim. */
  function Low(s: Sys, i: Index): int {
    BaseRegister(Claim(s, i).0)
  }

  function High(s: Sys, i: Index): int {
    LimitRegister(Low(s, i), Claim(s, i).1)
  }

  /** Different slots' claims occupy disjoint stretches of user RAM. */
  lemma ClaimsApart(s: Sys, i: Index, j: Index)
    requires Ownership(s) && Claims(s, i) && Claims(s, j) && i != j
    ensures OS_RESERVED_SIZE <= Low(s, i) <= High(s, i) < RAM_SIZE
    ensures High(s, i) < Low(s, j) || High(s, j) < Low(s, i)
  {
    var (a, m) := Claim(s, i);
    var (b, n) := Claim(s, j);
    var k := if a < b then b else a;
    assert !(Owns(s, i, k) && Owns(s, j, k));
  }

  // ---------------------------------------------------------------- the worker

  lemma ActiveIsLive(s: Sys)
    requires Inv(s) && s.current != -1
    ensures Live(s.table[s.current])
  {
  }

  lemma ActiveIsSnug(s: Sys)
    requires Inv(s) && Fenced(s) && s.current != -1
    ensures Live(s.table[s.current]) && Sound(s.hw.cpu) && Snug(s.hw.cpu) && Steady(s.hw) && s.hw.pending <= ASYNCHRONOUS
  {
    hide Steady;
    ActiveIsLive(s);
    assert FencedSlot(s, s.current);
    RequiredBlocksLeast(s.hw.cpu.rx);
  }

  lemma ActiveStep(s: Sys, env: Env)
    requires Inv(s) && Fenced(s) && s.current != -1 && ContainedNext(s.hw)
    ensures var r := CycleResult(s, env);
            && Within(s.hw.ram, r.m.ram, s.hw.cpu) && r.m.pending <= ASYNCHRONOUS
            && (r.alive ==> Sound(r.m.cpu) && SameBounds(s.hw.cpu, r.m.cpu) && Steady(r.m))
            && (Ticks(s, env) && r.alive ==> Settled(r.m.cpu, r.m.ram))
            && s.hw.cpu.rb == Low(s, s.current) && s.hw.cpu.rl == High(s, s.current)
  {
    hide CpuStep, ContainedNext, Sound, Snug, Steady, Settled;
    ActiveIsSnug(s);
    assert FencedSlot(s, s.current);
    ContainedStep(s.hw, env.(monitor := s.monitor));
  }

  /** What the scheduler leaves of each process's registers: dispatching and suspending are exact copies. */
  lemma TickRegisters(s: Sys, i: Index)
    requires NoneElseExecuting(s)
    ensures Registers(Tick(s), i) == Registers(s, i)
  {
    hide Scan;
    SwitchOutEntries(s, i);
  }

  lemma BeforeTickRegisters(s: Sys, env: Env, i: Index)
    requires Inv(s)
    ensures var t := BeforeTick(s, env);
            && t.current == s.current
            && (i != s.current ==> Registers(t, i) == Registers(s, i) && t.table[i] == s.table[i])
            && (s.current == -1 ==> t == s)
            && (i == s.current ==>
                  && Registers(t, i) == CycleResult(s, env).m.cpu
                  && (Live(t.table[i]) <==> CycleResult(s, env).alive)
                  && t.table[i].startBlock == s.table[i].startBlock && t.table[i].blockCount == s.table[i].blockCount)
            && (s.current != -1 ==> t.hw.ram == CycleResult(s, env).m.ram && t.hw.disk == CycleResult(s, env).m.disk
                                    && t.hw.pending == CycleResult(s, env).m.pending)
            && t.vfs == s.vfs && t.loader == s.loader
  {
    hide CpuStep;
  }

  /** The result of an iteration seen from one slot, whether or not it ticks. */
  lemma IterationView(s: Sys, env: Env, i: Index)
    requires Inv(s)
    ensures var t := WorkerIteration(s, env);
            && t.vfs == s.vfs && t.loader == s.loader
            && (s.current == -1 ==> t.hw.ram == s.hw.ram && t.hw.disk == s.hw.disk && t.hw.pending == s.hw.pending)
            && (s.current != -1 ==>
                  && t.hw.ram == CycleResult(s, env).m.ram && t.hw.disk == CycleResult(s, env).m.disk
                  && t.hw.pending == CycleResult(s, env).m.pending
                  && (!Ticks(s, env) ==> t.hw == CycleResult(s, env).m && t.current == s.current))
            && (i != s.current ==> Registers(t, i) == Registers(s, i))
            && (i == s.current && Live(t.table[i]) ==> CycleResult(s, env).alive && Registers(t, i) == CycleResult(s, env).m.cpu)
            && (Live(t.table[i]) ==>
                  && Live(s.table[i]) && t.table[i].pid == s.table[i].pid
                  && t.table[i].startBlock == s.table[i].startBlock && t.table[i].blockCount == s.table[i].blockCount)
            && (i != s.current && Live(s.table[i]) ==> Live(t.table[i]))
            && (i == s.current && CycleResult(s, env).alive ==> Live(t.table[i]))
  {
    hide Tick, CpuStep, AgedEntry;
    WorkerKeepsInvariant(s, env);
    BeforeTickRegisters(s, env, i);
    if Ticks(s, env) {
      var b := BeforeTick(s, env);
      TickRegisters(b, i);
      TickEntries(b);
      assert AgedEntry(b.table[i], Tick(b).table[i]);
      AgedIdentity(b.table[i], Tick(b).table[i]);
      BeforeTickIdentity(s, env, i);
    }
  }

  lemma AgedIdentity(p: Pcb, q: Pcb)
    requires AgedEntry(p, q)
    ensures Live(p) == Live(q) && q.pid == p.pid && q.startBlock == p.startBlock && q.blockCount == p.blockCount
  {
  }

  lemma BeforeTickIdentity(s: Sys, env: Env, i: Index)
    requires Inv(s)
    ensures var p := BeforeTick(s, env).table[i]; p.pid == s.table[i].pid && (Live(p) ==> Live(s.table[i]))
  {
    hide CpuStep;
  }

  /** One iteration of the worker writes RAM only inside the active process's own partitions. */
  lemma IterationWritesOwnPartition(s: Sys, env: Env)
    requires Inv(s) && Fenced(s) && (s.current != -1 ==> ContainedNext(s.hw))
    ensures var t := WorkerIteration(s, env);
            && t.hw.pending <= ASYNCHRONOUS
            && forall a :: 0 <= a < RAM_SIZE && t.hw.ram[a] != s.hw.ram[a] ==>
                 s.current != -1 && Low(s, s.current) <= a <= High(s, s.current)
  {
    hide WorkerIteration, CycleResult;
    IterationView(s, env, 0);
    if s.current != -1 {
      ActiveStep(s, env);
    }
  }

  // ---------------------------------------------------------------- the fence is invariant

  /** What a process needs of RAM to stay settled is in its own partition. */
  lemma SettledInside(c: Cpu, before: Memory, after: Memory)
    requires Sound(c) && forall a :: c.rb <= a <= c.rl && 0 <= a < RAM_SIZE ==> after[a] == before[a]
    ensures Settled(c, after) == Settled(c, before)
  {
    assert c.rb + 1 <= c.rl;
    assert after[c.rb] == before[c.rb] && after[c.rb + 1] == before[c.rb + 1];
  }

  lemma SteadyInside(m: Hw, n: Hw)
    requires Sound(m.cpu) && n.cpu == m.cpu && n.pending == m.pending
    requires forall a :: m.cpu.rb <= a <= m.cpu.rl && 0 <= a < RAM_SIZE ==> n.ram[a] == m.ram[a]
    ensures Steady(n) == Steady(m)
  {
    SettledInside(m.cpu, m.ram, n.ram);
    assert WordOf(m.cpu, n.ram, 1) == WordOf(m.cpu, m.ram, 1);
  }

  lemma OtherKeepsFence(s: Sys, env: Env, i: Index)
    requires Inv(s) && Fenced(s) && (s.current != -1 ==> ContainedNext(s.hw))
    requires i != s.current && Live(s.table[i])
    ensures FencedSlot(WorkerIteration(s, env), i)
  {
    hide WorkerIteration, Sound, Settled, RequiredBlocks, Low, High;
    var t := WorkerIteration(s, env);
    FencedClaim(s, i);
    assert FencedSlot(s, i);
    IterationSparesOthers(s, env, i);
    IterationView(s, env, i);
    SettledInside(Registers(s, i), s.hw.ram, t.hw.ram);
    if t.current == i { SettledIsSteady(t.hw); }
  }

  lemma ActiveKeepsFence(s: Sys, env: Env)
    requires Inv(s) && Fenced(s) && s.current != -1 && ContainedNext(s.hw)
    ensures var t := WorkerIteration(s, env); Live(t.table[s.current]) ==> FencedSlot(t, s.current)
  {
    hide WorkerIteration, CycleResult, Sound, Settled, RequiredBlocks, Low, High;
    var t := WorkerIteration(s, env);
    ActiveIsLive(s);
    assert FencedSlot(s, s.current);
    ActiveStep(s, env);
    IterationView(s, env, s.current);
    if Live(t.table[s.current]) && Ticks(s, env) && t.current == s.current { SettledIsSteady(t.hw); }
  }

  lemma IterationKeepsFence(s: Sys, env: Env)
    requires Inv(s) && Fenced(s) && (s.current != -1 ==> ContainedNext(s.hw))
    ensures Fenced(WorkerIteration(s, env))
  {
    hide WorkerIteration, CycleResult, FencedSlot;
    var t := WorkerIteration(s, env);
    IterationWritesOwnPartition(s, env);
    forall i: Index | Live(t.table[i]) ensures FencedSlot(t, i) {
      IterationView(s, env, i);
      if i == s.current { ActiveKeepsFence(s, env); } else { OtherKeepsFence(s, env, i); }
    }
  }

  lemma LaunchedContextSound(meta: FileMeta, start: int, blocks: int)
    requires ValidRange(start, blocks) && blocks == RequiredBlocks(meta.wordCount)
    ensures var c := InitialContext(meta, start, blocks);
            && Sound(c) && c.rb == BaseRegister(start) && c.rl == LimitRegister(c.rb, blocks)
            && c.rx == meta.wordCount && c.rx + MIN_STACK_SIZE <= c.rl - c.rb + 1
  {
    RequiredBlocksLeast(meta.wordCount);
    BoundsOfRanges(start, blocks, start, blocks);
  }

  lemma LaunchKeepsFence(s: Sys)
    requires Inv(s) && Fenced(s) && Enabled(s, Launch) && Contained(s, Launch)
    ensures Fenced(Publish(s))
  {
    hide Sound, RequiredBlocks;
    var t := Publish(s);
    var slot := s.loader.slot;
    assert Claims(s, slot) && s.table[slot].state == New;
    LaunchedContextSound(s.loader.meta, s.loader.start, s.loader.blocks);
    forall i: Index | Live(t.table[i]) ensures FencedSlot(t, i) {
      if i != slot { QuietStepKeepsSlot(s, Launch, i); }
    }
  }

  lemma QuietStepKeepsSlot(s: Sys, step: Step, i: Index)
    requires Inv(s) && Fenced(s) && Enabled(s, step) && !step.Cycle? && Live(s.table[i])
    ensures FencedSlot(Apply(s, step), i)
  {
    hide Sound, Apply, Settled, RequiredBlocks, Low, High;
    var t := Apply(s, step);
    FencedClaim(s, i);
    assert FencedSlot(s, i);
    QuietStepSparesAll(s, step, i);
    QuietStepRegisters(s, step);
    if i == s.current {
      SteadyInside(s.hw, t.hw);
    } else {
      SettledInside(Registers(s, i), s.hw.ram, t.hw.ram);
    }
  }

  /** Steps of the loader and of the user leave the running process's registers and the latches alone. */
  lemma QuietStepRegisters(s: Sys, step: Step)
    requires Enabled(s, step) && !step.Cycle?
    ensures var t := Apply(s, step); t.current == s.current && t.hw.cpu == s.hw.cpu && t.hw.pending == s.hw.pending
  {
    hide LoadToDisk, RequiredBlocks;
  }

  lemma QuietStepKeepsFence(s: Sys, step: Step)
    requires Inv(s) && Fenced(s) && Enabled(s, step) && !step.Cycle? && !step.Launch?
    ensures Fenced(Apply(s, step))
  {
    hide Sound, LoadToDisk, RequiredBlocks, FencedSlot;
    var t := Apply(s, step);
    forall i: Index | Live(t.table[i]) ensures FencedSlot(t, i) {
      assert Live(s.table[i]);
      QuietStepKeepsSlot(s, step, i);
    }
  }

  lemma StepKeepsFence(s: Sys, step: Step)
    requires Inv(s) && Fenced(s) && Enabled(s, step) && Contained(s, step)
    ensures Fenced(Apply(s, step))
  {
    hide Fenced, WorkerIteration, Publish;
    if step.Cycle? {
      IterationKeepsFence(s, step.env);
    } else if step.Launch? {
      LaunchKeepsFence(s);
    } else {
      QuietStepKeepsFence(s, step);
    }
  }

  lemma BootIsFenced(s: Sys)
    requires Booted(s)
    ensures Fenced(s)
  {
  }

  // ---------------------------------------------------------------- isolation

  /** A process's identity, its registers and every word of its partitions are the same in both states. */
  ghost predicate Untouched(s: Sys, t: Sys, i: Index) {
    && Live(s.table[i]) && Live(t.table[i]) && t.table[i].pid == s.table[i].pid
    && Claim(t, i) == Claim(s, i) && Registers(t, i) == Registers(s, i)
    && forall a :: Low(s, i) <= a <= High(s, i) && 0 <= a < RAM_SIZE ==> t.hw.ram[a] == s.hw.ram[a]
  }

  lemma IterationSparesOthers(s: Sys, env: Env, i: Index)
    requires Inv(s) && Fenced(s) && (s.current != -1 ==> ContainedNext(s.hw))
    requires Live(s.table[i]) && i != s.current
    ensures Untouched(s, WorkerIteration(s, env), i)
  {
    hide WorkerIteration, CycleResult;
    IterationView(s, env, i);
    IterationWritesOwnPartition(s, env);
    if s.current != -1 {
      assert Live(s.table[s.current]);
      ClaimsApart(s, i, s.current);
    }
  }

  lemma QuietStepSparesAll(s: Sys, step: Step, i: Index)
    requires Inv(s) && Enabled(s, step) && !step.Cycle? && Live(s.table[i])
    ensures Untouched(s, Apply(s, step), i)
  {
    hide LoadToDisk, RequiredBlocks;
    assert !Loading(s, i);
    if step.LoadWord? {
      RequiredBlocksLeast(s.loader.meta.wordCount);
      ClaimsApart(s, i, s.loader.slot);
    }
  }

  /** No step of any other process, of the scheduler, of the loader or of the user touches a suspended process. */
  lemma StepSparesSuspended(s: Sys, step: Step, i: Index)
    requires Inv(s) && Fenced(s) && Enabled(s, step) && Contained(s, step)
    requires Live(s.table[i]) && i != s.current
    ensures Untouched(s, Apply(s, step), i)
  {
    hide WorkerIteration, Untouched;
    if step.Cycle? {
      IterationSparesOthers(s, step.env, i);
    } else {
      QuietStepSparesAll(s, step, i);
    }
  }

  /**
   Isolation over whole runs: from the moment a process is switched out until it is dispatched again, whatever the
   others do, it keeps its exact registers and the exact contents of its partitions; in the state that dispatches it,
   the CPU holds the registers it had.
   */
  lemma {:induction false} SuspendedProcessIsPreserved(ss: seq<Sys>, steps: seq<Step>, i: Index)
    requires ContainedRun(ss, steps) && Inv(ss[0]) && Fenced(ss[0])
    requires Live(ss[0].table[i]) && forall k :: 0 <= k < |steps| ==> ss[k].current != i
    ensures Untouched(ss[0], ss[|steps|], i)
    ensures Inv(ss[|steps|]) && Fenced(ss[|steps|])
    ensures ss[|steps|].current == i && |steps| > 0 ==> ss[|steps|].hw.cpu == ss[0].table[i].context
    decreases |steps|
  {
    hide Inv, Fenced, Apply, Enabled, Contained, Low, High, Claim;
    if |steps| > 0 {
      ContainedTail(ss, steps);
      StepKeepsInvariant(ss[0], steps[0]);
      StepKeepsFence(ss[0], steps[0]);
      StepSparesSuspended(ss[0], steps[0], i);
      SuspendedProcessIsPreserved(ss[1..], steps[1..], i);
      UntouchedChain(ss[0], ss[1], ss[|steps|], i);
    }
  }

  lemma UntouchedChain(s: Sys, t: Sys, u: Sys, i: Index)
    requires Untouched(s, t, i) && Untouched(t, u, i)
    ensures Untouched(s, u, i)
  {
  }

  /** Every state of a contained run from boot satisfies the kernel invariant and the fence. */
  lemma {:induction false} RunKeepsFence(ss: seq<Sys>, steps: seq<Step>)
    requires ContainedRun(ss, steps) && Inv(ss[0]) && Fenced(ss[0])
    ensures forall k :: 0 <= k < |ss| ==> Inv(ss[k]) && Fenced(ss[k])
    decreases |steps|
  {
    hide Inv, Fenced, Apply, Enabled, Contained;
    if |steps| > 0 {
      ContainedTail(ss, steps);
      StepKeepsInvariant(ss[0], steps[0]);
      StepKeepsFence(ss[0], steps[0]);
      RunKeepsFence(ss[1..], steps[1..]);
      forall k | 0 <= k < |ss| ensures Inv(ss[k]) && Fenced(ss[k]) {
        if k > 0 { assert ss[k] == ss[1..][k - 1]; }
      }
    }
  }

  /** In particular, from boot on, as long as every program checks what GuardedDma asks before it uses the DMA. */
  lemma EveryContainedRunIsSafe(ss: seq<Sys>, steps: seq<Step>)
    requires ContainedRun(ss, steps) && Booted(ss[0])
    ensures forall k :: 0 <= k < |ss| ==> Inv(ss[k]) && Fenced(ss[k])
  {
    BootEstablishes(ss[0]);
    BootIsFenced(ss[0]);
    RunKeepsFence(ss, steps);
  }
}
