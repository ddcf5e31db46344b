/** createProcess from start to end: the staged steps run back to back, and what they amount to. */
module Creation {
  import opened Definitions
  import opened Partitions
  import opened FileSystem
  import opened Kernel
  import opened Invariants

  datatype OsStatus = OsSuccess | ErrMaxProcesses | ErrMemory | ErrDisk

  datatype CreateResult = CreateResult(s: Sys, status: OsStatus)

  function CopyAll(s: Sys): Sys
    requires s.loader.Copying?
    decreases s.loader.meta.wordCount - s.loader.copied
  {
    if s.loader.copied >= s.loader.meta.wordCount then s else CopyAll(CopyWord(s))
  }

  lemma {:induction false} CopyAllStays(s: Sys)
    requires s.loader.Copying?
    ensures var t := CopyAll(s);
            && t.loader.Copying? && t.loader == s.loader.(copied := t.loader.copied)
            && t.loader.copied >= t.loader.meta.wordCount
            && t == s.(hw := s.hw.(ram := t.hw.ram), loader := t.loader)
    decreases s.loader.meta.wordCount - s.loader.copied
  {
    if s.loader.copied < s.loader.meta.wordCount { CopyAllStays(CopyWord(s)); }
  }

  /** createProcess with no other thread in between. */
  function Created(s: Sys, id: string, host: HostFile): CreateResult {
    var r := Reserve(s, id);
    if FreeSlotFrom(s.table, 0) == -1 then CreateResult(s, ErrMaxProcesses)
    else
      var f := Locate(r, host);
      if f.loader.Idle? then CreateResult(f, ErrDisk)
      else
        var a := Allocate(f);
        if a.loader.Idle? then CreateResult(a, ErrMemory)
        else
          CopyAllStays(a);
          CreateResult(Publish(CopyAll(a)), OsSuccess)
  }

  lemma {:induction false} CopyAllKeepsInvariant(s: Sys)
    requires Inv(s) && s.loader.Copying?
    ensures Inv(CopyAll(s))
    decreases s.loader.meta.wordCount - s.loader.copied
  {
    hide Inv;
    if s.loader.copied < s.loader.meta.wordCount {
      CopyKeepsInvariant(s);
      CopyAllKeepsInvariant(CopyWord(s));
    }
  }

  /** The whole call keeps the kernel's invariant and leaves the loader idle. */
  lemma CreateKeepsInvariant(s: Sys, id: string, host: HostFile)
    requires Inv(s) && s.loader.Idle?
    ensures Inv(Created(s, id, host).s) && Created(s, id, host).s.loader.Idle?
  {
    hide Inv, Locate, Allocate;
    if FreeSlotFrom(s.table, 0) != -1 {
      ReserveKeepsInvariant(s, id);
      var f := Locate(Reserve(s, id), host);
      LocateKeepsInvariant(Reserve(s, id), host);
      LocateOutcome(Reserve(s, id), host);
      if f.loader.Located? {
        AllocateKeepsInvariant(f);
        AllocateOutcome(f);
        if Allocate(f).loader.Copying? {
          CopyAllStays(Allocate(f));
          CopyAllKeepsInvariant(Allocate(f));
          PublishKeepsInvariant(CopyAll(Allocate(f)));
        }
      }
    }
  }

  lemma LocateOutcome(s: Sys, host: HostFile)
    requires s.loader.Reserved?
    ensures Locate(s, host).loader.Idle? || (Locate(s, host).loader.Located? && Locate(s, host).loader.slot == s.loader.slot)
    ensures var f := Locate(s, host);
            && f.free == s.free && f.nextPid == s.nextPid && f.current == s.current && f.hw.ram == s.hw.ram
            && f.table == if f.loader.Idle? then s.table[s.loader.slot := s.table[s.loader.slot].(state := Finished)] else s.table
  {
    hide LoadToDisk;
  }

  lemma AllocateOutcome(s: Sys)
    requires s.loader.Located?
    ensures Allocate(s).loader.Idle? || Allocate(s).loader.Copying?
    ensures Allocate(s).loader.Idle? <==> FirstFit(s.free, RequiredBlocks(s.loader.meta.wordCount)) == -1
    ensures Allocate(s).loader.Idle? ==>
              Allocate(s) == s.(loader := Idle, table := s.table[s.loader.slot := s.table[s.loader.slot].(state := Finished)])
  {
    hide RequiredBlocks;
  }

  /** Every error path leaves the process table, the occupied map, the identities and RAM exactly as they were. */
  lemma FailedCreationChangesNothing(s: Sys, id: string, host: HostFile)
    requires s.loader.Idle? && Created(s, id, host).status != OsSuccess
    ensures var t := Created(s, id, host).s;
            t.table == s.table && t.free == s.free && t.nextPid == s.nextPid && t.current == s.current && t.hw.ram == s.hw.ram
  {
    hide Locate, Allocate;
    if FreeSlotFrom(s.table, 0) != -1 {
      LocateOutcome(Reserve(s, id), host);
      var f := Locate(Reserve(s, id), host);
      if f.loader.Located? { AllocateOutcome(f); }
    }
  }

  /** The word count of the program an identifier names, in the catalog or else on the host. */
  function ProgramWords(v: Vfs, id: string, host: HostFile): int {
    var k := FindFrom(v.catalog, id, 0);
    if k != -1 then v.catalog[k].wordCount else if host.HostFile? then host.wordCount else 0
  }

  /** A program of this size can be placed in a run of free partitions. */
  ghost predicate Placeable(free: BlockMap, words: int) {
    var b := RequiredBlocks(words);
    b > 0 && exists start :: FreeRun(free, start, b)
  }

  /**
   The status of createProcess, exactly: no slot, no file, no memory or success, in this order. Creation succeeds if and
   only if an entry is FINISHED, the program is catalogued or can be, and a free run of the required length exists.
   */
  lemma CreationSucceedsWhen(s: Sys, id: string, host: HostFile)
    requires s.loader.Idle?
    ensures Created(s, id, host).status ==
            if forall i: Index :: s.table[i].state != Finished then ErrMaxProcesses
            else if !(Known(s.vfs, id) || Loadable(s.vfs, host)) then ErrDisk
            else if !Placeable(s.free, ProgramWords(s.vfs, id, host)) then ErrMemory
            else OsSuccess
  {
    LoadSucceedsWhen(s.vfs, s.hw.disk, id, host);
    LoadedWords(s.vfs, s.hw.disk, id, host);
    hide LoadToDisk, RequiredBlocks, FreeRun, Known, Loadable, FindFrom;
    var slot := FreeSlotFrom(s.table, 0);
    var l := LoadToDisk(s.vfs, s.hw.disk, id, host);
    if slot != -1 && l.status == VfsOk {
      var b := RequiredBlocks(ProgramWords(s.vfs, id, host));
      if b > 0 { FirstFitComplete(s.free, b); }
    }
  }

  /** After a successful load the identifier is found, with the word count of the program it names. */
  lemma LoadedWords(v: Vfs, disk: DiskImage, id: string, host: HostFile)
    ensures var r := LoadToDisk(v, disk, id, host);
            r.status == VfsOk ==>
              var k := FindFrom(r.vfs.catalog, id, 0);
              k != -1 && r.vfs.catalog[k].wordCount == ProgramWords(v, id, host)
  {
    var r := LoadToDisk(v, disk, id, host);
    if FindFrom(v.catalog, id, 0) == -1 && r.status == VfsOk {
      var n := |v.catalog|;
      assert r.vfs.catalog[n].filePath == id && Matches(r.vfs.catalog[n], id);
      assert forall i :: 0 <= i < n ==> r.vfs.catalog[i] == v.catalog[i] && !Matches(r.vfs.catalog[i], id);
    }
  }

  /** The registers a new process starts with. */
  predicate StartsAt(c: Cpu, start: int, blocks: int, words: int, startPc: int) {
    && c.rb == 300 + 85 * start && c.rl == 300 + 85 * (start + blocks) - 1 && c.rx == words && c.sp == 85 * blocks - 1
    && c.pc == startPc - 1 && c.ac == 0 && c.cc == 0 && c.mode == 0 && c.interrupts && c.timerLimit == 2 && c.cycles == 0
  }

  /**
   What success leaves: the first FINISHED entry becomes a READY process with the next identifier, in the lowest free run
   that is long enough, with these registers; every other entry, and the rest of the map, is as before.
   */
  lemma CreatedProcess(s: Sys, id: string, host: HostFile)
    requires s.loader.Idle? && Created(s, id, host).status == OsSuccess
    ensures var t, slot := Created(s, id, host).s, FreeSlotFrom(s.table, 0);
            && slot != -1 && t.nextPid == s.nextPid + 1 && t.loader.Idle? && t.current == s.current
            && (forall i: Index :: i != slot ==> t.table[i] == s.table[i])
            && var p, k := t.table[slot], FindFrom(t.vfs.catalog, id, 0);
            && k != -1 && p.state == Ready && p.pid == s.nextPid && p.sleepTics == 0
            && p.programName == t.vfs.catalog[k].programName
            && p.blockCount == RequiredBlocks(ProgramWords(s.vfs, id, host))
            && p.startBlock == FirstFit(s.free, p.blockCount) != -1
            && t.free == Marked(s.free, p.startBlock, p.blockCount, false)
            && StartsAt(p.context, p.startBlock, p.blockCount, t.vfs.catalog[k].wordCount, t.vfs.catalog[k].startPc)
  {
    LoadedWords(s.vfs, s.hw.disk, id, host);
    hide LoadToDisk, RequiredBlocks, FirstFit, Marked, FindFrom, ProgramWords;
    var f := Locate(Reserve(s, id), host);
    var a := Allocate(f);
    CopyAllStays(a);
  }
}
