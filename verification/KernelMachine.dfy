/** The kernel's own code, changing the process table and the partition map in place: scheduler.c and core.c. */
module KernelMachine {
  import opened Definitions
  import opened MachineState
  import opened DiskDrive
  import opened Partitions
  import opened FileSystem
  import K = Kernel
  import opened Invariants
  import opened Creation

  class Lucario {
    const m: Machine
    const mmu: Mmu
    const vfs: VfsStore
    var nextPid: int

    ghost predicate Valid()
      reads this, m, vfs
    {
      m.Valid() && mmu.Valid() && vfs.Valid() && vfs.disk == m.disk && -1 <= m.current < MAX_PROCESSES
    }

    /** The kernel's state as a value, with createProcess at stage `l`. */
    ghost function State(l: K.Loader): K.Sys
      requires Valid()
      reads this, m, m.ram, m.disk.cells, m.table, mmu.free, vfs, vfs.entries
    {
      K.Sys(m.Hw(), m.table[..], mmu.Map(), m.current, nextPid, m.monitor, m.output, vfs.Value(), l)
    }

    constructor ()
      ensures Valid() && Booted(State(K.Idle))
      ensures fresh(m) && fresh(m.ram) && fresh(m.table) && fresh(m.disk.cells) && fresh(mmu.free) && fresh(vfs) && fresh(vfs.entries)
    {
      var machine := new Machine();
      m := machine;
      mmu := new Mmu();
      vfs := new VfsStore(machine.disk);
      nextPid := 1;
    }

    // -------------------------------------------------------------- scheduler.c

    method WakeSleepers()
      requires Valid()
      modifies m.table
      ensures forall k :: 0 <= k < MAX_PROCESSES ==> m.table[k] == K.Woken(old(m.table[k]))
    {
      for i := 0 to MAX_PROCESSES
        invariant forall k :: 0 <= k < MAX_PROCESSES ==> m.table[k] == if k < i then K.Woken(old(m.table[k])) else old(m.table[k])
      {
        if m.table[i].state == Blocked && m.table[i].sleepTics > 0 {
          m.table[i] := m.table[i].(sleepTics := m.table[i].sleepTics - 1);
          if m.table[i].sleepTics == 0 {
            m.table[i] := m.table[i].(state := Ready);
          }
        }
      }
    }

    method UnblockWaiters()
      requires Valid()
      modifies m.table
      ensures forall k :: 0 <= k < MAX_PROCESSES ==> m.table[k] == K.Unblocked(old(m.table[k]), m.monitor)
    {
      if m.monitor {
        for i := 0 to MAX_PROCESSES
          invariant forall k :: 0 <= k < MAX_PROCESSES ==>
                      m.table[k] == if k < i then K.Unblocked(old(m.table[k]), true) else old(m.table[k])
        {
          if m.table[i].state == BlockedIo {
            m.table[i] := m.table[i].(state := Ready);
          }
        }
      }
    }

    method PickNext() returns (next: int)
      requires Valid()
      ensures next == K.Scan(m.table[..], K.ScanStart(m.current), MAX_PROCESSES)
    {
      next := -1;
      var start := if m.current == -1 then 0 else (m.current + 1) % MAX_PROCESSES;
      ghost var t: K.Table := m.table[..];
      var i := 0;
      while i < MAX_PROCESSES
        invariant 0 <= i <= MAX_PROCESSES && next == -1
        invariant K.Scan(t, start, MAX_PROCESSES) == K.Scan(t, start, MAX_PROCESSES - i)
      {
        var check := (start + i) % MAX_PROCESSES;
        if m.table[check].state == Ready {
          return check;
        }
        i := i + 1;
      }
    }

    /** The first half of schedulerTick: wake, unblock, save the active context. */
    method SwitchOut(ghost l: K.Loader)
      requires Valid()
      modifies m.table
      ensures Valid() && State(l) == old(State(l)).(table := K.AfterSwitchOut(old(State(l))))
    {
      ghost var before := State(l);
      WakeSleepers();
      UnblockWaiters();
      assert m.table[..] == K.Aged(before.table, before.monitor);
      if m.current != -1 {
        m.table[m.current] := m.table[m.current].(context := m.cpu);
        if m.table[m.current].state == Executing {
          m.table[m.current] := m.table[m.current].(state := Ready);
        }
      }
      assert m.table[..] == K.AfterSwitchOut(before);
    }

    method Dispatch(next: int, ghost l: K.Loader)
      requires Valid() && 0 <= next < MAX_PROCESSES
      modifies m`cpu, m`current, m.table
      ensures Valid()
      ensures var s, t := State(l), old(State(l));
              s == t.(current := next, table := t.table[next := t.table[next].(state := Executing)],
                      hw := t.hw.(cpu := t.table[next].context))
    {
      m.current := next;
      m.table[m.current] := m.table[m.current].(state := Executing);
      m.cpu := m.table[m.current].context;
    }

    method SchedulerTick(ghost l: K.Loader)
      requires Valid()
      modifies m`cpu, m`current, m.table
      ensures Valid() && State(l) == K.Tick(old(State(l)))
    {
      hide K.AfterSwitchOut, K.Scan;
      SwitchOut(l);
      var next := PickNext();
      if next != -1 {
        Dispatch(next, l);
      } else {
        m.current := -1;
      }
    }

    // -------------------------------------------------------------- core.c

    /** The clean-up of a process that ended. */
    method Reclaim(ghost l: K.Loader)
      requires Valid() && m.current != -1
      modifies m`osYield, m.table, mmu.free
      ensures Valid() && State(l) == K.Reclaimed(old(State(l))) && m.current == old(m.current)
    {
      var p := m.table[m.current];
      var _ := mmu.FreeMemory(p.startBlock, p.blockCount);
      m.table[m.current] := m.table[m.current].(state := Finished);
      m.osYield := false;
    }

    method ClearYield(ghost l: K.Loader)
      requires Valid()
      modifies m`osYield
      ensures Valid() && State(l) == var s := old(State(l)); s.(hw := s.hw.(osYield := false))
    {
      m.osYield := false;
    }

    method StepActive(env: P.Env, ghost l: K.Loader) returns (alive: bool)
      requires Valid() && m.current != -1 && env.monitor == m.monitor && P.OnDisk(m.dma.track, m.dma.cylinder, m.dma.sector)
      modifies m`cpu, m`dma, m`output, m`osYield, m`pending, m`related, m.ram, m.table, m.disk.cells
      ensures Valid() && State(l) == K.Stepped(old(State(l)), env)
      ensures alive == K.CycleResult(old(State(l)), env).alive && m.current == old(m.current)
      ensures P.OnDisk(m.dma.track, m.dma.cylinder, m.dma.sector)
    {
      hide P.CpuStep;
      ghost var effect;
      alive, effect := m.CpuStep(env);
    }

    /** One iteration of cpuThreadWorker's loop, whatever stage the console thread is at. */
    method WorkerIteration(env: P.Env, ghost l: K.Loader)
      requires Valid() && env.monitor == m.monitor && P.OnDisk(m.dma.track, m.dma.cylinder, m.dma.sector)
      modifies m, m.ram, m.table, m.disk.cells, mmu.free
      ensures Valid() && State(l) == K.WorkerIteration(old(State(l)), env)
      ensures P.OnDisk(m.dma.track, m.dma.cylinder, m.dma.sector)
    {
      hide P.CpuStep, K.Tick, K.Stepped, K.Reclaimed;
      ghost var before := State(l);
      if m.current != -1 {
        var alive := StepActive(env, l);
        assert State(l).hw.osYield == K.CycleResult(before, env).m.osYield by { StepsYield(before, env); }
        if !alive {
          Reclaim(l);
          SchedulerTick(l);
        } else if m.osYield {
          ClearYield(l);
          SchedulerTick(l);
        }
      } else {
        SchedulerTick(l);
      }
    }

    lemma StepsYield(s: K.Sys, env: P.Env)
      requires s.current != -1
      ensures K.Stepped(s, env).hw == K.CycleResult(s, env).m
    {
      hide P.CpuStep;
    }

    method GetFreePcbIndex() returns (k: int)
      requires Valid()
      ensures k == K.FreeSlotFrom(m.table[..], 0)
    {
      for i := 0 to MAX_PROCESSES
        invariant forall j :: 0 <= j < i ==> m.table[j].state != Finished
      {
        if m.table[i].state == Finished {
          return i;
        }
      }
      return -1;
    }

    /** One turn of the copy loop: a sector goes to the word's place in the partition. */
    method CopySector(slot: K.Index, meta: FileMeta, start: int, blocks: int, i: nat, track: int, cylinder: int, sector: int)
      requires Valid() && 0 <= track <= DISK_TRACKS && 0 <= cylinder < DISK_CYLINDERS && 0 <= sector < DISK_SECTORS
      requires P.Linear(track, cylinder, sector) == StartOf(meta) + i
      modifies m.ram
      ensures Valid()
      ensures State(K.Copying(slot, meta, start, blocks, i + 1)) == K.CopyWord(old(State(K.Copying(slot, meta, start, blocks, i))))
    {
      Geometry(track, cylinder, sector, P.Linear(track, cylinder, sector));
      var data, _ := m.disk.ReadSector(track, cylinder, sector);
      DmaWriteMemory(BaseRegister(start) + i, data);
    }

    /** The copy loop, walking the disk by sector, cylinder and track. */
    method CopyProgram(slot: K.Index, meta: FileMeta, start: int, blocks: int)
      requires Valid() && ValidMeta(meta, DISK_SIZE)
      modifies m.ram
      ensures Valid() && State(CopyDone(slot, meta, start, blocks)) == CopyAll(old(State(K.Copying(slot, meta, start, blocks, 0))))
    {
      hide K.CopyWord;
      var track, cylinder, sector := meta.startTrack, meta.startCylinder, meta.startSector;
      var i := 0;
      while i < meta.wordCount
        invariant 0 <= i <= NonNegative(meta.wordCount) && Valid()
        invariant 0 <= track <= DISK_TRACKS && 0 <= cylinder < DISK_CYLINDERS && 0 <= sector < DISK_SECTORS
        invariant P.Linear(track, cylinder, sector) == StartOf(meta) + i
        invariant CopyAll(State(K.Copying(slot, meta, start, blocks, i))) == CopyAll(old(State(K.Copying(slot, meta, start, blocks, 0))))
      {
        CopySector(slot, meta, start, blocks, i, track, cylinder, sector);
        sector := sector + 1;
        if sector >= DISK_SECTORS {
          sector := 0;
          cylinder := cylinder + 1;
          if cylinder >= DISK_CYLINDERS {
            cylinder := 0;
            track := track + 1;
          }
        }
        i := i + 1;
      }
    }

    ghost function CopyDone(slot: K.Index, meta: FileMeta, start: int, blocks: int): K.Loader {
      K.Copying(slot, meta, start, blocks, NonNegative(meta.wordCount))
    }

    /** dmaWriteMemory: physical and unprotected, refused only outside RAM. */
    method DmaWriteMemory(phys: int, data: int)
      requires Valid()
      modifies m.ram
      ensures m.ram[..] == K.Poked(old(m.ram[..]), phys, data)
    {
      if 0 <= phys < RAM_SIZE {
        m.ram[phys] := data;
      }
    }

    method PublishProcess(slot: K.Index, meta: FileMeta, start: int, blocks: int)
      requires Valid()
      modifies `nextPid, m.table
      ensures Valid() && State(K.Idle) == K.Publish(old(State(CopyDone(slot, meta, start, blocks))))
    {
      var rb := BaseRegister(start);
      var ctx := ZERO_CPU;
      ctx := ctx.(rb := rb, rl := LimitRegister(rb, blocks), rx := meta.wordCount, sp := blocks * PARTITION_SIZE - 1);
      ctx := ctx.(pc := meta.startPc - 1, mode := MODE_USER, interrupts := true, timerLimit := 2);
      m.table[slot] := Pcb(nextPid, m.table[slot].state, ctx, meta.programName, start, blocks, 0);
      nextPid := nextPid + 1;
      m.table[slot] := m.table[slot].(state := Ready);
    }

    method SetState(slot: K.Index, state: ProcessState, ghost before: K.Loader, ghost after: K.Loader)
      requires Valid()
      modifies m.table
      ensures Valid() && State(after) == K.SetState(old(State(before)), slot, state).(loader := after)
    {
      m.table[slot] := m.table[slot].(state := state);
    }

    /** Finds the program on the virtual disk, loading it there first if need be; -1 abandons the slot. */
    method LocateProgram(slot: K.Index, id: string, host: HostFile) returns (k: int)
      requires Valid() && ValidVfs(vfs.Value())
      modifies vfs, vfs.entries, m.disk.cells, m.table
      ensures Valid() && ValidVfs(vfs.Value()) && -1 <= k < vfs.count
      ensures State(if k == -1 then K.Idle else K.Located(slot, vfs.entries[k])) == K.Locate(old(State(K.Reserved(slot, id))), host)
    {
      hide LoadToDisk;
      LoadKeepsCatalog(vfs.Value(), m.disk.Image(), id, host);
      ghost var reserved := State(K.Reserved(slot, id));
      KnownFileLoads(vfs.Value(), m.disk.Image(), id, host);
      k := vfs.Find(id);
      if k == -1 {
        var loaded := vfs.Load(id, host);
        if loaded != VfsOk {
          SetState(slot, Finished, K.Reserved(slot, id), K.Idle);
          return -1;
        }
      }
      k := vfs.Find(id);
      if k == -1 {
        SetState(slot, Finished, K.Reserved(slot, id), K.Idle);
      }
    }

    lemma KnownFileLoads(v: Vfs, disk: DiskImage, id: string, host: HostFile)
      ensures FindFrom(v.catalog, id, 0) != -1 ==> LoadToDisk(v, disk, id, host) == LoadResult(v, disk, VfsOk)
    {
    }

    method ClaimMemory(slot: K.Index, meta: FileMeta) returns (start: int, blocks: int)
      requires Valid()
      modifies mmu.free, m.table
      ensures Valid()
      ensures State(if start == -1 then K.Idle else K.Copying(slot, meta, start, blocks, 0)) == K.Allocate(old(State(K.Located(slot, meta))))
    {
      hide RequiredBlocks, FirstFit;
      blocks := RequiredBlocks(meta.wordCount);
      start := mmu.AllocateMemory(blocks);
      if start == -1 {
        SetState(slot, Finished, K.Located(slot, meta), K.Idle);
      }
    }

    method CreateProcess(id: string, host: HostFile) returns (status: OsStatus)
      requires Valid() && ValidVfs(vfs.Value())
      modifies this, vfs, m.ram, m.table, m.disk.cells, mmu.free, vfs.entries
      ensures Valid() && CreateResult(State(K.Idle), status) == Created(old(State(K.Idle)), id, host)
    {
      hide K.Locate, K.Allocate, K.Publish, K.SetState, ValidVfs;
      var slot := GetFreePcbIndex();
      if slot == -1 {
        return ErrMaxProcesses;
      }
      SetState(slot, New, K.Idle, K.Reserved(slot, id));
      var k := LocateProgram(slot, id, host);
      if k == -1 {
        return ErrDisk;
      }
      var meta := vfs.entries[k];
      MetaValid(vfs.Value(), k);
      ghost var located := State(K.Located(slot, meta));
      var start, blocks := ClaimMemory(slot, meta);
      if start == -1 {
        return ErrMemory;
      }
      CopyAllStays(State(K.Copying(slot, meta, start, blocks, 0)));
      CopyProgram(slot, meta, start, blocks);
      PublishProcess(slot, meta, start, blocks);
      return OsSuccess;
    }

    lemma MetaValid(v: Vfs, k: nat)
      requires ValidVfs(v) && k < |v.catalog|
      ensures ValidMeta(v.catalog[k], DISK_SIZE)
    {
    }
  }
}
