/**
 The kernel as a state machine: the scheduler of scheduler.c, the worker loop of core.c, and createProcess cut into
 the stages at which the CPU thread may run in between.
 */
module Kernel {
  import opened Definitions
  import opened Processor
  import opened Partitions
  import opened FileSystem

  type Table = s: seq<Pcb> | |s| == MAX_PROCESSES witness seq(MAX_PROCESSES, _ => Pcb(-1, Finished, ZERO_CPU, "", 0, 0, 0))

  /** currentActiveProcess: a table index, or -1 while idle. */
  type Slot = i: int | -1 <= i < MAX_PROCESSES witness -1

  type Index = i: int | 0 <= i < MAX_PROCESSES

  /** How far the console thread has got inside createProcess. */
  datatype Loader =
    | Idle
    | Reserved(slot: Index, id: string)
    | Located(slot: Index, meta: FileMeta)
    | Copying(slot: Index, meta: FileMeta, start: int, blocks: int, copied: nat)

  datatype Sys = Sys(
    hw: Hw, table: Table, free: BlockMap, current: Slot, nextPid: int,
    monitor: bool, output: seq<Event>, vfs: Vfs, loader: Loader)

  // ---------------------------------------------------------------- scheduler.c

  function Woken(p: Pcb): Pcb {
    if p.state == Blocked && p.sleepTics > 0 then
      if p.sleepTics == 1 then p.(sleepTics := 0, state := Ready) else p.(sleepTics := p.sleepTics - 1)
    else p
  }

  function Unblocked(p: Pcb, monitor: bool): Pcb {
    if monitor && p.state == BlockedIo then p.(state := Ready) else p
  }

  function Aged(table: Table, monitor: bool): Table {
    seq(MAX_PROCESSES, i requires 0 <= i < MAX_PROCESSES => Unblocked(Woken(table[i]), monitor))
  }

  function SwitchedOut(p: Pcb, cpu: Cpu): Pcb {
    p.(context := cpu, state := if p.state == Executing then Ready else p.state)
  }

  function AfterSwitchOut(s: Sys): Table {
    var t := Aged(s.table, s.monitor);
    if s.current == -1 then t else t[s.current := SwitchedOut(t[s.current], s.hw.cpu)]
  }

  function ScanStart(current: Slot): Index {
    if current == -1 then 0 else (current + 1) % MAX_PROCESSES
  }

  /** The first READY slot among the last `left` places of the circular scan, or -1. */
  function Scan(table: Table, start: Index, left: nat): (next: Slot)
    requires left <= MAX_PROCESSES
    ensures next != -1 ==> table[next].state == Ready
  {
    if left == 0 then -1
    else
      var i := (start + (MAX_PROCESSES - left)) % MAX_PROCESSES;
      if table[i].state == Ready then i else Scan(table, start, left - 1)
  }

  function Tick(s: Sys): Sys {
    var t := AfterSwitchOut(s);
    var next := Scan(t, ScanStart(s.current), MAX_PROCESSES);
    if next == -1 then s.(table := t, current := -1)
    else s.(table := t[next := t[next].(state := Executing)], current := next, hw := s.hw.(cpu := t[next].context))
  }

  // ---------------------------------------------------------------- core.c: the worker

  function CycleResult(s: Sys, env: Env): StepResult {
    CpuStep(s.hw, env.(monitor := s.monitor))
  }

  /** After the CPU step of an active process and its syscall's effect on the process table. */
  function Stepped(s: Sys, env: Env): Sys
    requires s.current != -1
  {
    var r := CycleResult(s, env);
    var p := s.table[s.current];
    s.(hw := r.m, table := s.table[s.current := Commit(p, r.effect)], output := s.output + Emitted(p.pid, r.effect))
  }

  function Reclaimed(s: Sys): Sys
    requires s.current != -1
  {
    var p := s.table[s.current];
    s.(free := if ValidRange(p.startBlock, p.blockCount) then Marked(s.free, p.startBlock, p.blockCount, true) else s.free,
       table := s.table[s.current := p.(state := Finished)],
       hw := s.hw.(osYield := false))
  }

  /** Whether the worker's next iteration calls the scheduler. */
  predicate Ticks(s: Sys, env: Env) {
    s.current == -1 || !CycleResult(s, env).alive || CycleResult(s, env).m.osYield
  }

  /** The system as the scheduler finds it when an iteration ticks. */
  function BeforeTick(s: Sys, env: Env): Sys {
    if s.current == -1 then s
    else if !CycleResult(s, env).alive then Reclaimed(Stepped(s, env))
    else var t := Stepped(s, env); t.(hw := t.hw.(osYield := false))
  }

  /** One iteration of cpuThreadWorker's loop. */
  function WorkerIteration(s: Sys, env: Env): Sys {
    if Ticks(s, env) then Tick(BeforeTick(s, env)) else Stepped(s, env)
  }

  // ---------------------------------------------------------------- core.c: createProcess, stage by stage

  /** The first FINISHED slot at or after `from`, or -1. */
  function FreeSlotFrom(table: Table, from: nat): (k: Slot)
    requires from <= MAX_PROCESSES
    ensures k == -1 ==> forall i :: from <= i < MAX_PROCESSES ==> table[i].state != Finished
    ensures k != -1 ==> from <= k && table[k].state == Finished && forall i :: from <= i < k ==> table[i].state != Finished
    decreases MAX_PROCESSES - from
  {
    if from == MAX_PROCESSES then -1
    else if table[from].state == Finished then from
    else FreeSlotFrom(table, from + 1)
  }

  function SetState(s: Sys, slot: Index, state: ProcessState): Sys {
    s.(table := s.table[slot := s.table[slot].(state := state)])
  }

  function Reserve(s: Sys, id: string): Sys {
    var slot := FreeSlotFrom(s.table, 0);
    if slot == -1 then s else SetState(s, slot, New).(loader := Reserved(slot, id))
  }

  function Abandon(s: Sys, slot: Index): Sys {
    SetState(s, slot, Finished).(loader := Idle)
  }

  /** Finds the program in the catalog, loading it to disk first if necessary. */
  function Locate(s: Sys, host: HostFile): Sys
    requires s.loader.Reserved?
  {
    var id := s.loader.id;
    var r := LoadToDisk(s.vfs, s.hw.disk, id, host);
    var t := s.(vfs := r.vfs, hw := s.hw.(disk := r.disk));
    var k := FindFrom(r.vfs.catalog, id, 0);
    if r.status != VfsOk || k == -1 then Abandon(t, s.loader.slot)
    else t.(loader := Located(s.loader.slot, r.vfs.catalog[k]))
  }

  function Allocate(s: Sys): Sys
    requires s.loader.Located?
  {
    var blocks := RequiredBlocks(s.loader.meta.wordCount);
    var start := FirstFit(s.free, blocks);
    if start == -1 then Abandon(s, s.loader.slot)
    else s.(free := Marked(s.free, start, blocks, false), loader := Copying(s.loader.slot, s.loader.meta, start, blocks, 0))
  }

  /** The word a disk position yields; readSector clears its buffer outside the geometry. */
  function SectorWord(disk: DiskImage, at: int): int {
    if 0 <= at < DISK_SIZE then disk[at] else 0
  }

  function Poked(ram: Memory, at: int, w: int): Memory {
    if 0 <= at < RAM_SIZE then ram[at := w] else ram
  }

  function CopyWord(s: Sys): Sys
    requires s.loader.Copying?
  {
    var l := s.loader;
    var w := SectorWord(s.hw.disk, StartOf(l.meta) + l.copied);
    s.(hw := s.hw.(ram := Poked(s.hw.ram, BaseRegister(l.start) + l.copied, w)), loader := l.(copied := l.copied + 1))
  }

  function InitialContext(meta: FileMeta, start: int, blocks: int): Cpu {
    var rb := BaseRegister(start);
    ZERO_CPU.(rb := rb, rl := LimitRegister(rb, blocks), rx := meta.wordCount, sp := blocks * PARTITION_SIZE - 1,
              pc := meta.startPc - 1, mode := MODE_USER, interrupts := true, timerLimit := 2)
  }

  function Publish(s: Sys): Sys
    requires s.loader.Copying?
  {
    var l := s.loader;
    var p := Pcb(s.nextPid, Ready, InitialContext(l.meta, l.start, l.blocks), l.meta.programName, l.start, l.blocks, 0);
    s.(table := s.table[l.slot := p], nextPid := s.nextPid + 1, loader := Idle)
  }

  // ---------------------------------------------------------------- runs

  /** The atomic steps of the two threads and of the user. */
  datatype Step =
    | Cycle(env: Env)
    | StartLoad(id: string)
    | FindFile(host: HostFile)
    | ClaimMemory
    | LoadWord
    | Launch
    | Toggle(open: bool)

  predicate Enabled(s: Sys, step: Step) {
    match step
    case Cycle(_) => true
    case StartLoad(_) => s.loader.Idle?
    case FindFile(_) => s.loader.Reserved?
    case ClaimMemory => s.loader.Located?
    case LoadWord => s.loader.Copying? && s.loader.copied < s.loader.meta.wordCount
    case Launch => s.loader.Copying? && s.loader.copied >= s.loader.meta.wordCount
    case Toggle(_) => true
  }

  function Apply(s: Sys, step: Step): Sys
    requires Enabled(s, step)
  {
    match step
    case Cycle(env) => WorkerIteration(s, env)
    case StartLoad(id) => Reserve(s, id)
    case FindFile(host) => Locate(s, host)
    case ClaimMemory => Allocate(s)
    case LoadWord => CopyWord(s)
    case Launch => Publish(s)
    case Toggle(open) => s.(monitor := open)
  }

  /** Whether a step runs the scheduler. */
  predicate IsTick(s: Sys, step: Step) {
    step.Cycle? && Ticks(s, step.env)
  }

  /** A run: every step is enabled in the state before it and leads to the state after it. */
  ghost predicate IsRun(ss: seq<Sys>, steps: seq<Step>) {
    && |ss| == |steps| + 1
    && forall k :: 0 <= k < |steps| ==> Enabled(ss[k], steps[k]) && ss[k + 1] == Apply(ss[k], steps[k])
  }

  lemma RunTail(ss: seq<Sys>, steps: seq<Step>)
    requires IsRun(ss, steps) && 0 < |steps|
    ensures IsRun(ss[1..], steps[1..]) && ss[1] == Apply(ss[0], steps[0])
  {
    forall k | 0 <= k < |steps| - 1
      ensures Enabled(ss[1..][k], steps[1..][k]) && ss[1..][k + 1] == Apply(ss[1..][k], steps[1..][k])
    {
      assert Enabled(ss[k + 1], steps[k + 1]);
    }
  }
}
