/** From host file to RAM: what a process executes is the file it was created from, whatever ran in between. */
module Fidelity {
  import opened Definitions
  import opened Processor
  import opened Confinement
  import opened Partitions
  import opened FileSystem
  import opened Kernel
  import opened Invariants
  import opened Isolation

  /** A contained step that writes no sector below the file system's cursor by DMA. */
  predicate Tame(s: Sys, step: Step) {
    Contained(s, step) && (step.Cycle? && s.current != -1 && WritesDisk(s.hw) ==> DmaPosition(s.hw.dma) >= Used(s.vfs))
  }

  ghost predicate TameRun(ss: seq<Sys>, steps: seq<Step>) {
    IsRun(ss, steps) && forall k :: 0 <= k < |steps| ==> Tame(ss[k], steps[k])
  }

  lemma TameTail(ss: seq<Sys>, steps: seq<Step>)
    requires TameRun(ss, steps) && 0 < |steps|
    ensures TameRun(ss[1..], steps[1..])
    ensures Enabled(ss[0], steps[0]) && Tame(ss[0], steps[0]) && Contained(ss[0], steps[0]) && ss[1] == Apply(ss[0], steps[0])
  {
    RunTail(ss, steps);
    assert Enabled(ss[0], steps[0]) && Tame(ss[0], steps[0]);
    forall k | 0 <= k < |steps| - 1
      ensures Tame(ss[1..][k], steps[1..][k])
    {
      assert Tame(ss[k + 1], steps[k + 1]);
    }
  }

  predicate Copied(s: Sys, i: int)
    requires s.loader.Copying?
  {
    var from, to := StartOf(s.loader.meta) + i, BaseRegister(s.loader.start) + i;
    0 <= to < RAM_SIZE && 0 <= from < DISK_SIZE && s.hw.ram[to] == s.hw.disk[from]
  }

  /** The words copied so far are in the loader's partitions. */
  ghost predicate CopyFaithful(s: Sys) {
    s.loader.Copying? ==> forall i :: 0 <= i < s.loader.copied ==> Copied(s, i)
  }

  /** Catalog entry `k` is stored intact. */
  ghost predicate StoredIntact(s: Sys, k: nat, f: HostFile) {
    k < |s.vfs.catalog| && Holds(s.hw.disk, s.vfs.catalog[k], f)
  }

  lemma MetaInBounds(s: Sys)
    requires LoaderValid(s) && s.loader.Copying?
    ensures 0 <= StartOf(s.loader.meta) && EndOf(s.loader.meta) <= Used(s.vfs) <= DISK_SIZE
  {
    var k :| 0 <= k < |s.vfs.catalog| && s.vfs.catalog[k] == s.loader.meta;
    assert ValidMeta(s.vfs.catalog[k], Used(s.vfs));
  }

  lemma LoaderRoom(s: Sys)
    requires Ownership(s) && LoaderValid(s) && s.loader.Copying?
    ensures var l := s.loader; OS_RESERVED_SIZE <= BaseRegister(l.start) && BaseRegister(l.start) + l.meta.wordCount <= High(s, l.slot) < RAM_SIZE
    ensures Claim(s, s.loader.slot) == (s.loader.start, s.loader.blocks)
  {
    assert Loading(s, s.loader.slot);
    assert Claims(s, s.loader.slot);
    RequiredBlocksLeast(s.loader.meta.wordCount);
  }

  lemma CopyStepFaithful(s: Sys)
    requires Inv(s) && CopyFaithful(s) && Enabled(s, LoadWord)
    ensures CopyFaithful(CopyWord(s))
  {
    hide RequiredBlocks, High;
    MetaInBounds(s);
    LoaderRoom(s);
    var t := CopyWord(s);
    forall i | 0 <= i < t.loader.copied ensures Copied(t, i) {
      if i < s.loader.copied { assert Copied(s, i); }
    }
  }

  /** The disk below the cursor, where the catalogued files are, has not changed. */
  ghost predicate SameFiles(s: Sys, after: DiskImage) {
    forall a :: 0 <= a < Used(s.vfs) && a < DISK_SIZE ==> after[a] == s.hw.disk[a]
  }

  lemma IterationKeepsDisk(s: Sys, env: Env)
    requires Inv(s) && Fenced(s) && Tame(s, Cycle(env))
    ensures SameFiles(s, WorkerIteration(s, env).hw.disk)
  {
    hide WorkerIteration, CpuStep, ContainedNext, Sound, Snug, Steady, WritesDisk;
    IterationView(s, env, 0);
    if s.current != -1 {
      ActiveIsSnug(s);
      ContainedStep(s.hw, env.(monitor := s.monitor));
    }
  }

  lemma IterationKeepsCopy(s: Sys, env: Env)
    requires Inv(s) && Fenced(s) && CopyFaithful(s) && Tame(s, Cycle(env))
    ensures CopyFaithful(WorkerIteration(s, env)) && SameFiles(s, WorkerIteration(s, env).hw.disk)
    ensures WorkerIteration(s, env).vfs == s.vfs
  {
    hide WorkerIteration, CycleResult, High;
    IterationView(s, env, 0);
    IterationKeepsDisk(s, env);
    IterationWritesOwnPartition(s, env);
    if s.loader.Copying? {
      LoaderRoom(s);
      MetaInBounds(s);
      assert Loading(s, s.loader.slot);
      if s.current != -1 {
        assert Live(s.table[s.current]);
        ClaimsApart(s, s.loader.slot, s.current);
      }
      forall i | 0 <= i < s.loader.copied ensures Copied(WorkerIteration(s, env), i) {
        assert Copied(s, i);
      }
    }
  }

  /** Every tame step keeps catalogued files intact on disk and the copy in progress faithful. */
  lemma StepKeepsFiles(s: Sys, step: Step, k: nat, f: HostFile)
    requires Inv(s) && Fenced(s) && Enabled(s, step) && Tame(s, step)
    requires CopyFaithful(s) && StoredIntact(s, k, f)
    ensures CopyFaithful(Apply(s, step)) && StoredIntact(Apply(s, step), k, f)
    ensures Apply(s, step).vfs.catalog[k] == s.vfs.catalog[k]
  {
    hide WorkerIteration, CopyWord, LoadToDisk, RequiredBlocks;
    match step
    case Cycle(env) =>
      IterationKeepsCopy(s, env);
      EarlierFilesSurvive(s.vfs, s.hw.disk, WorkerIteration(s, env).hw.disk, k, f);
    case LoadWord => CopyStepFaithful(s); CopySparesDisk(s);
    case FindFile(host) =>
      LoadKeepsCatalog(s.vfs, s.hw.disk, s.loader.id, host);
      EarlierFilesSurvive(s.vfs, s.hw.disk, LoadToDisk(s.vfs, s.hw.disk, s.loader.id, host).disk, k, f);
    case Toggle(_) =>
      if s.loader.Copying? {
        forall i | 0 <= i < s.loader.copied ensures Copied(Apply(s, step), i) { assert Copied(s, i); }
      }
    case _ =>
  }

  lemma CopySparesDisk(s: Sys)
    requires s.loader.Copying?
    ensures CopyWord(s).hw.disk == s.hw.disk && CopyWord(s).vfs == s.vfs
  {
  }

  /** Once stored, a file stays intact through any tame run, and copies in progress stay faithful. */
  lemma {:induction false} FilesSurviveRuns(ss: seq<Sys>, steps: seq<Step>, k: nat, f: HostFile)
    requires TameRun(ss, steps) && Inv(ss[0]) && Fenced(ss[0])
    requires CopyFaithful(ss[0]) && StoredIntact(ss[0], k, f)
    ensures Inv(ss[|steps|]) && CopyFaithful(ss[|steps|]) && StoredIntact(ss[|steps|], k, f)
    ensures ss[|steps|].vfs.catalog[k] == ss[0].vfs.catalog[k]
    decreases |steps|
  {
    hide Inv, Fenced, Apply, Enabled, Tame, CopyFaithful, Holds;
    if |steps| > 0 {
      TameTail(ss, steps);
      StepKeepsInvariant(ss[0], steps[0]);
      StepKeepsFence(ss[0], steps[0]);
      StepKeepsFiles(ss[0], steps[0], k, f);
      FilesSurviveRuns(ss[1..], steps[1..], k, f);
    }
  }

  /** A successful load stores the host file as the entry the loader goes on with. */
  lemma LocateStoresFile(s: Sys, host: HostFile)
    requires Inv(s) && s.loader.Reserved? && FindFrom(s.vfs.catalog, s.loader.id, 0) == -1
    requires Locate(s, host).loader.Located?
    ensures var t := Locate(s, host);
            var k := |s.vfs.catalog|;
            StoredIntact(t, k, host) && t.loader.meta == t.vfs.catalog[k] && CopyFaithful(t)
  {
    hide LoadToDisk;
    LoadStoresFile(s.vfs, s.hw.disk, s.loader.id, host);
  }

  /** A ready process whose registers and RAM are those the file prescribes. */
  ghost predicate AboutToRun(u: Sys, i: Index, host: HostFile) {
    && host.HostFile? && u.table[i].state == Ready
    && Registers(u, i).rb == Low(u, i) && Registers(u, i).rl == High(u, i)
    && Registers(u, i).rx == host.wordCount && Registers(u, i).pc == host.startPc - 1
    && (forall w :: 0 <= w < host.wordCount ==> HasWord(u, Low(u, i) + w, WordAt(host, w)))
  }

  predicate HasWord(u: Sys, a: int, w: int) {
    0 <= a < RAM_SIZE && u.hw.ram[a] == w
  }

  /**
   From file to process: if a load stored a host file and, after any tame run, the loader launches a process from that
   entry, then the new process's RAM holds the file word for word, and its registers start it as the file says.
   */
  lemma LaunchedProcessRunsItsFile(s: Sys, host: HostFile, ss: seq<Sys>, steps: seq<Step>)
    requires Inv(s) && Fenced(s) && s.loader.Reserved? && FindFrom(s.vfs.catalog, s.loader.id, 0) == -1
    requires Locate(s, host).loader.Located?
    requires TameRun(ss, steps) && ss[0] == Locate(s, host)
    requires var t := ss[|steps|]; Enabled(t, Launch) && t.loader.meta == ss[0].loader.meta
    ensures AboutToRun(Publish(ss[|steps|]), ss[|steps|].loader.slot, host)
  {
    assert |ss| == |steps| + 1;
    hide Inv, Fenced, Locate, TameRun;
    LocateStoresFile(s, host);
    LocateKeepsInvariant(s, host);
    LocateKeepsFence(s, host);
    FilesSurviveRuns(ss, steps, |s.vfs.catalog|, host);
    LaunchCopiesFile(ss[|steps|], |s.vfs.catalog|, host);
  }

  lemma LocateKeepsFence(s: Sys, host: HostFile)
    requires Inv(s) && Fenced(s) && s.loader.Reserved?
    ensures Fenced(Locate(s, host))
  {
    QuietStepKeepsFence(s, FindFile(host));
  }

  lemma LaunchCopiesFile(t: Sys, k: nat, host: HostFile)
    requires Inv(t) && Enabled(t, Launch) && CopyFaithful(t) && StoredIntact(t, k, host) && t.loader.meta == t.vfs.catalog[k]
    ensures AboutToRun(Publish(t), t.loader.slot, host)
  {
    hide RequiredBlocks;
    assert Loading(t, t.loader.slot) && t.table[t.loader.slot].state == New;
    assert t.loader.slot != t.current;
    var u := Publish(t);
    var i := t.loader.slot;
    assert Registers(u, i) == InitialContext(t.loader.meta, t.loader.start, t.loader.blocks);
    assert Claim(u, i) == (t.loader.start, t.loader.blocks);
    assert u.hw.ram == t.hw.ram && host.HostFile?;
    forall w | 0 <= w < host.wordCount
      ensures HasWord(u, Low(u, i) + w, WordAt(host, w))
    {
      assert Copied(t, w);
    }
  }
}
