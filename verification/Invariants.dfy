/** The kernel's invariant: lifecycle, partition ownership, process identity and sleep counters, for any programs at all. */
module Invariants {
  import opened Definitions
  import opened Processor
  import opened Partitions
  import opened FileSystem
  import opened Kernel

  predicate Live(p: Pcb) {
    p.state != Finished && p.state != New
  }

  predicate Loading(s: Sys, i: Index) {
    !s.loader.Idle? && s.loader.slot == i
  }

  /** The partitions a slot holds: a live process's, or those the loader has allocated for it; (0, 0) if none. */
  function Claim(s: Sys, i: Index): (int, int) {
    if Live(s.table[i]) then (s.table[i].startBlock, s.table[i].blockCount)
    else if s.loader.Copying? && s.loader.slot == i then (s.loader.start, s.loader.blocks)
    else (0, 0)
  }

  predicate Owns(s: Sys, i: Index, k: int) {
    Claim(s, i).0 <= k < Claim(s, i).0 + Claim(s, i).1
  }

  predicate Claims(s: Sys, i: Index) {
    Live(s.table[i]) || (s.loader.Copying? && s.loader.slot == i)
  }

  /** The occupied map is exactly the disjoint union of the claims. */
  ghost predicate Ownership(s: Sys) {
    && (forall i: Index :: Claims(s, i) ==> ValidRange(Claim(s, i).0, Claim(s, i).1))
    && (forall i: Index, j: Index, k :: i != j && Owns(s, i, k) ==> !Owns(s, j, k))
    && (forall i: Index, k :: 0 <= k < MAX_PROCESSES && Owns(s, i, k) ==> !s.free[k])
    && (forall k :: 0 <= k < MAX_PROCESSES && !s.free[k] ==> exists i: Index :: Owns(s, i, k))
  }

  ghost predicate Identity(s: Sys) {
    && (forall i: Index :: Live(s.table[i]) ==> 1 <= s.table[i].pid < s.nextPid)
    && (forall i: Index, j: Index :: i != j && Live(s.table[i]) && Live(s.table[j]) ==> s.table[i].pid != s.table[j].pid)
    && 1 <= s.nextPid
  }

  ghost predicate SleepCounters(s: Sys) {
    forall i: Index :: Live(s.table[i]) ==> s.table[i].sleepTics >= 0 && (s.table[i].sleepTics > 0 <==> s.table[i].state == Blocked)
  }

  ghost predicate LoaderValid(s: Sys) {
    && (forall i: Index :: s.table[i].state == New <==> Loading(s, i))
    && (s.loader.Located? || s.loader.Copying? ==> s.loader.meta in s.vfs.catalog)
    && (s.loader.Copying? ==>
          && s.loader.blocks == RequiredBlocks(s.loader.meta.wordCount)
          && s.loader.copied <= s.loader.meta.wordCount)
    && ValidVfs(s.vfs)
  }

  /** Everything that also holds between a step of the active process and the tick it asked for. */
  ghost predicate Consistent(s: Sys) {
    Ownership(s) && Identity(s) && SleepCounters(s) && LoaderValid(s) && !s.hw.osYield
  }

  /** Exactly the active slot is EXECUTING. */
  ghost predicate Running(s: Sys) {
    forall i: Index :: s.table[i].state == Executing <==> i == s.current
  }

  ghost predicate Inv(s: Sys) {
    Consistent(s) && Running(s)
  }

  ghost predicate NoneElseExecuting(s: Sys) {
    forall i: Index :: s.table[i].state == Executing ==> i == s.current
  }

  // ---------------------------------------------------------------- ownership transfer

  lemma SameClaims(s: Sys, t: Sys)
    requires Ownership(s) && t.free == s.free
    requires forall i: Index :: Claim(t, i) == Claim(s, i) && (Claims(t, i) ==> Claims(s, i))
    ensures Ownership(t)
  {
    forall k | 0 <= k < MAX_PROCESSES && !t.free[k]
      ensures exists i: Index :: Owns(t, i, k)
    {
      var i: Index :| Owns(s, i, k);
      assert Owns(t, i, k);
    }
    assert forall i: Index, k :: Owns(t, i, k) <==> Owns(s, i, k);
  }

  /** Giving back the whole claim of one slot keeps the map exact, so a range is freed exactly once. */
  lemma ReleaseClaim(s: Sys, t: Sys, slot: Index)
    requires Ownership(s) && Claims(s, slot)
    requires t.free == Marked(s.free, Claim(s, slot).0, Claim(s, slot).1, true)
    requires forall i: Index :: i != slot ==> Claim(t, i) == Claim(s, i) && Claims(t, i) == Claims(s, i)
    requires !Claims(t, slot)
    ensures Ownership(t)
  {
    assert forall i: Index, k :: Owns(t, i, k) <==> i != slot && Owns(s, i, k);
    forall i: Index, k | 0 <= k < MAX_PROCESSES && Owns(t, i, k)
      ensures !t.free[k]
    {
      assert !Owns(s, slot, k);
    }
    forall k | 0 <= k < MAX_PROCESSES && !t.free[k]
      ensures exists i: Index :: Owns(t, i, k)
    {
      var i: Index :| Owns(s, i, k);
      assert Owns(t, i, k);
    }
  }

  lemma TakeClaim(s: Sys, t: Sys, slot: Index, start: int, blocks: int)
    requires Ownership(s) && !Claims(s, slot) && Claims(t, slot)
    requires ValidRange(start, blocks) && FreeRun(s.free, start, blocks) && Claim(t, slot) == (start, blocks)
    requires t.free == Marked(s.free, start, blocks, false)
    requires forall i: Index :: i != slot ==> Claim(t, i) == Claim(s, i) && Claims(t, i) == Claims(s, i)
    ensures Ownership(t)
  {
    assert forall i: Index, k :: i != slot ==> (Owns(t, i, k) <==> Owns(s, i, k));
    forall k | start <= k < start + blocks
      ensures Owns(t, slot, k) && forall i: Index :: !Owns(s, i, k)
    {
      assert s.free[k];
    }
    forall k | 0 <= k < MAX_PROCESSES && !t.free[k]
      ensures exists i: Index :: Owns(t, i, k)
    {
      if !(start <= k < start + blocks) {
        var i: Index :| Owns(s, i, k);
        assert Owns(t, i, k);
      } else {
        assert Owns(t, slot, k);
      }
    }
  }

  // ---------------------------------------------------------------- the scheduler

  /** The same entry after ageing: states and sleep counters may have moved, nothing else. */
  predicate AgedEntry(p: Pcb, q: Pcb) {
    && q == p.(state := q.state, sleepTics := q.sleepTics, context := q.context)
    && q.sleepTics == Woken(p).sleepTics
    && (q.state == Blocked <==> p.state == Blocked && p.sleepTics != 1)
    && (q.state == BlockedIo ==> p.state == BlockedIo)
    && (q.state == New <==> p.state == New)
    && (q.state == Finished <==> p.state == Finished)
  }

  lemma SwitchOutEntries(s: Sys, i: Index)
    requires NoneElseExecuting(s)
    ensures AgedEntry(s.table[i], AfterSwitchOut(s)[i]) && AfterSwitchOut(s)[i].state != Executing
    ensures i != s.current ==> AfterSwitchOut(s)[i].context == s.table[i].context
    ensures i == s.current ==> AfterSwitchOut(s)[i].context == s.hw.cpu
  {
    assert Aged(s.table, s.monitor)[i] == Unblocked(Woken(s.table[i]), s.monitor);
  }

  /** What a tick does to each entry, and that only the chosen slot executes. */
  lemma TickEntries(s: Sys)
    requires NoneElseExecuting(s)
    ensures var t := Tick(s);
            && t == s.(hw := s.hw.(cpu := t.hw.cpu), table := t.table, current := t.current)
            && forall i: Index :: AgedEntry(s.table[i], t.table[i]) && (t.table[i].state == Executing <==> i == t.current)
  {
    hide AfterSwitchOut, Scan;
    var t := Tick(s);
    forall i: Index
      ensures AgedEntry(s.table[i], t.table[i]) && (t.table[i].state == Executing <==> i == t.current)
    {
      SwitchOutEntries(s, i);
    }
  }

  /** A pass of the scheduler keeps the invariant and re-establishes that exactly the active slot executes. */
  lemma TickKeepsInvariant(s: Sys)
    requires Consistent(s) && NoneElseExecuting(s)
    ensures Inv(Tick(s))
  {
    hide Tick, Scan, ValidVfs;
    var t := Tick(s);
    TickEntries(s);
    assert forall i: Index :: Live(t.table[i]) == Live(s.table[i]);
    assert forall i: Index :: Claim(t, i) == Claim(s, i) && Claims(t, i) == Claims(s, i);
    SameClaims(s, t);
    assert Identity(t) && SleepCounters(t) && LoaderValid(t);
  }

  /** The CPU goes idle only when the tick saw no READY process. */
  lemma IdleOnlyWithoutReady(s: Sys)
    ensures Tick(s).current == -1 <==> forall i: Index :: AfterSwitchOut(s)[i].state != Ready
  {
    ScanComplete(AfterSwitchOut(s), ScanStart(s.current), MAX_PROCESSES);
    if next: Index :| AfterSwitchOut(s)[next].state == Ready {
      assert ScanPlace(ScanStart(s.current), next) < MAX_PROCESSES;
    }
  }

  /** How far a slot is from the start of the circular scan. */
  function ScanPlace(start: Index, i: Index): nat {
    (i - start + MAX_PROCESSES) % MAX_PROCESSES
  }

  lemma PlaceByCases(start: Index, i: Index)
    ensures ScanPlace(start, i) == if i >= start then i - start else i - start + MAX_PROCESSES
  {
  }

  /** The scan returns the READY slot that comes first in circular order, and -1 only if there is none. */
  lemma {:induction false} ScanComplete(table: Table, start: Index, left: nat)
    requires left <= MAX_PROCESSES
    ensures var next := Scan(table, start, left);
            && (next == -1 ==> forall i: Index :: ScanPlace(start, i) >= MAX_PROCESSES - left ==> table[i].state != Ready)
            && (next != -1 ==>
                  && ScanPlace(start, next) >= MAX_PROCESSES - left
                  && forall i: Index :: MAX_PROCESSES - left <= ScanPlace(start, i) < ScanPlace(start, next) ==> table[i].state != Ready)
    decreases left
  {
    if left > 0 {
      var here := (start + (MAX_PROCESSES - left)) % MAX_PROCESSES;
      forall i: Index ensures ScanPlace(start, i) == MAX_PROCESSES - left <==> i == here {
        PlaceByCases(start, i);
      }
      hide ScanPlace;
      ScanComplete(table, start, left - 1);
    }
  }

  // ---------------------------------------------------------------- the worker

  lemma {:induction false} PopsOnlyRegisters(m: Hw, rs: seq<Register>)
    ensures PopAll(m, rs) == m.(cpu := PopAll(m, rs).cpu)
    decreases |rs|
  {
    if rs != [] {
      PopsOnlyRegisters(PopInto(m, rs[0]), rs[1..]);
    }
  }

  /** Blocking effects come only from a surviving process that has asked for a reschedule; sleeps are positive. */
  lemma BlockingYields(m: Hw, env: Env)
    ensures var r := CpuStep(m, env);
            && (r.effect.AwaitsMonitor? || r.effect.Sleeps? ==> r.alive && r.m.osYield)
            && (r.effect.Sleeps? ==> r.effect.tics > 0)
  {
    hide SaveContext, AfterInstruction, PopAll, RewindSavedPc;
    var n := AfterInstruction(m, env.junk);
    var code := MostUrgent(n.pending);
    var saved := SaveContext(n.(cpu := n.cpu.(interrupts := false)));
    var h := HandleInterrupt(saved, code, env);
    PopsOnlyRegisters(h.m.(pending := h.m.pending - {code}), [Ac, Pc, Cc, Mode, Rb, Rl, Rx]);
  }

  lemma SteppedConsistent(s: Sys, env: Env)
    requires Inv(s) && s.current != -1
    ensures var t := Stepped(s, env).(hw := Stepped(s, env).hw.(osYield := false));
            && Consistent(t) && NoneElseExecuting(t) && Live(t.table[t.current])
            && (!Ticks(s, env) ==> Stepped(s, env).hw.osYield == false && Running(t))
  {
    hide CpuStep;
    BlockingYields(s.hw, env.(monitor := s.monitor));
    var t := Stepped(s, env).(hw := Stepped(s, env).hw.(osYield := false));
    assert forall i: Index :: Live(t.table[i]) == Live(s.table[i]) && t.table[i].pid == s.table[i].pid;
    assert forall i: Index :: Claim(t, i) == Claim(s, i) && Claims(t, i) == Claims(s, i);
    SameClaims(s, t);
  }

  lemma ReclaimedConsistent(s: Sys)
    requires s.current != -1 && Consistent(s.(hw := s.hw.(osYield := false))) && NoneElseExecuting(s) && Live(s.table[s.current])
    ensures Consistent(Reclaimed(s)) && NoneElseExecuting(Reclaimed(s))
  {
    var t := Reclaimed(s);
    assert forall i: Index :: i != s.current ==> Claim(t, i) == Claim(s, i) && Claims(t, i) == Claims(s, i);
    ReleaseClaim(s.(hw := s.hw.(osYield := false)), t, s.current);
  }

  lemma WorkerKeepsInvariant(s: Sys, env: Env)
    requires Inv(s)
    ensures Inv(WorkerIteration(s, env))
    ensures Ticks(s, env) ==> Consistent(BeforeTick(s, env)) && NoneElseExecuting(BeforeTick(s, env))
  {
    hide CpuStep, Tick, Consistent;
    if s.current != -1 {
      SteppedConsistent(s, env);
      var t := Stepped(s, env);
      if !CycleResult(s, env).alive {
        ReclaimedConsistent(t);
      } else if !Ticks(s, env) {
        assert t.(hw := t.hw.(osYield := false)) == t;
      }
    }
    if Ticks(s, env) { TickKeepsInvariant(BeforeTick(s, env)); }
  }

  // ---------------------------------------------------------------- the loader

  lemma ReserveKeepsInvariant(s: Sys, id: string)
    requires Inv(s) && s.loader.Idle?
    ensures Inv(Reserve(s, id))
  {
    var t := Reserve(s, id);
    assert forall i: Index :: Claim(t, i) == Claim(s, i) && Claims(t, i) == Claims(s, i);
    SameClaims(s, t);
  }

  lemma LocateKeepsInvariant(s: Sys, host: HostFile)
    requires Inv(s) && s.loader.Reserved?
    ensures Inv(Locate(s, host))
  {
    hide LoadToDisk, ValidVfs, Claim;
    LoadKeepsCatalog(s.vfs, s.hw.disk, s.loader.id, host);
    var t := Locate(s, host);
    ClaimsFromTable(s, t);
    SameClaims(s, t);
  }

  lemma ClaimsFromTable(s: Sys, t: Sys)
    requires !s.loader.Copying? && !t.loader.Copying?
    requires forall i: Index :: Live(t.table[i]) == Live(s.table[i])
    requires forall i: Index :: t.table[i].startBlock == s.table[i].startBlock && t.table[i].blockCount == s.table[i].blockCount
    ensures forall i: Index :: Claim(t, i) == Claim(s, i) && Claims(t, i) == Claims(s, i)
  {
  }

  lemma AllocateKeepsInvariant(s: Sys)
    requires Inv(s) && s.loader.Located?
    ensures Inv(Allocate(s))
  {
    hide RequiredBlocks, ValidVfs;
    var t := Allocate(s);
    var blocks := RequiredBlocks(s.loader.meta.wordCount);
    RequiredBlocksLeast(s.loader.meta.wordCount);
    if FirstFit(s.free, blocks) == -1 {
      ClaimsFromTable(s, t);
      SameClaims(s, t);
    } else {
      TakeClaim(s, t, s.loader.slot, FirstFit(s.free, blocks), blocks);
    }
  }

  lemma CopyKeepsInvariant(s: Sys)
    requires Inv(s) && s.loader.Copying? && s.loader.copied < s.loader.meta.wordCount
    ensures Inv(CopyWord(s))
  {
    var t := CopyWord(s);
    assert forall i: Index :: Claim(t, i) == Claim(s, i) && Claims(t, i) == Claims(s, i);
    SameClaims(s, t);
  }

  lemma PublishKeepsInvariant(s: Sys)
    requires Inv(s) && s.loader.Copying?
    ensures Inv(Publish(s))
  {
    var t := Publish(s);
    assert Loading(s, s.loader.slot);
    assert forall i: Index :: Claim(t, i) == Claim(s, i) && Claims(t, i) == Claims(s, i);
    SameClaims(s, t);
    assert forall i: Index :: i != s.loader.slot ==> !Loading(s, i);
  }

  // ---------------------------------------------------------------- all steps, all runs

  /** The state initOS leaves: nothing live, everything free, an empty catalog. */
  predicate Booted(s: Sys) {
    && (forall i: Index :: s.table[i].state == Finished)
    && (forall k :: 0 <= k < MAX_PROCESSES ==> s.free[k])
    && s.current == -1 && s.nextPid == 1 && s.loader.Idle? && s.vfs == Vfs([], 0, 0, 0)
    && !s.hw.osYield && s.hw.pending == {}
  }

  lemma BootEstablishes(s: Sys)
    requires Booted(s)
    ensures Inv(s)
  {
  }

  lemma StepKeepsInvariant(s: Sys, step: Step)
    requires Inv(s) && Enabled(s, step)
    ensures Inv(Apply(s, step))
  {
    hide WorkerIteration, Reserve, Locate, Allocate, CopyWord, Publish;
    match step
    case Cycle(env) => WorkerKeepsInvariant(s, env);
    case StartLoad(id) => ReserveKeepsInvariant(s, id);
    case FindFile(host) => LocateKeepsInvariant(s, host);
    case ClaimMemory => AllocateKeepsInvariant(s);
    case LoadWord => CopyKeepsInvariant(s);
    case Launch => PublishKeepsInvariant(s);
    case Toggle(open) => ToggleKeepsInvariant(s, open);
  }

  lemma ToggleKeepsInvariant(s: Sys, open: bool)
    requires Inv(s)
    ensures Inv(s.(monitor := open))
  {
    var t := s.(monitor := open);
    assert forall i: Index :: Claim(t, i) == Claim(s, i) && Claims(t, i) == Claims(s, i);
    SameClaims(s, t);
  }

  /** The invariant holds in every state of every run, whatever programs run and however the threads interleave. */
  lemma {:induction false} RunKeepsInvariant(ss: seq<Sys>, steps: seq<Step>)
    requires IsRun(ss, steps) && Inv(ss[0])
    ensures forall k :: 0 <= k < |ss| ==> Inv(ss[k])
    decreases |steps|
  {
    hide Inv, Apply;
    if |steps| > 0 {
      RunTail(ss, steps);
      StepKeepsInvariant(ss[0], steps[0]);
      RunKeepsInvariant(ss[1..], steps[1..]);
      forall k | 0 <= k < |ss| ensures Inv(ss[k]) {
        if k > 0 { assert ss[k] == ss[1..][k - 1]; }
      }
    }
  }
}
