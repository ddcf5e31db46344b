/** The catalog and disk loader of src/kernel/vfs.c. */
module FileSystem {
  import opened Definitions
  import opened Processor
  import opened DiskDrive

  datatype FileMeta = FileMeta(
    filePath: string, programName: string,
    startTrack: int, startCylinder: int, startSector: int,
    wordCount: int, startPc: int)

  /** A program file of the host, as fscanf and readProgramWord see it. */
  datatype HostFile = Missing | HostFile(startPc: int, wordCount: int, programName: string, words: seq<int>)

  datatype VfsStatus = VfsOk | NotFound | DiskFull

  datatype Vfs = Vfs(catalog: seq<FileMeta>, track: int, cylinder: int, sector: int)

  datatype LoadResult = LoadResult(vfs: Vfs, disk: DiskImage, status: VfsStatus)

  function NonNegative(n: int): nat {
    if n < 0 then 0 else n
  }

  /** readProgramWord yields zero once the file is exhausted. */
  function WordAt(f: HostFile, i: nat): int
    requires f.HostFile?
  {
    if i < |f.words| then f.words[i] else 0
  }

  predicate Matches(meta: FileMeta, id: string) {
    meta.filePath == id || meta.programName == id
  }

  /** The first catalog index at or after `from` that an identifier names, or -1. */
  function FindFrom(catalog: seq<FileMeta>, id: string, from: nat): (k: int)
    requires from <= |catalog|
    ensures k == -1 ==> forall i :: from <= i < |catalog| ==> !Matches(catalog[i], id)
    ensures k != -1 ==> from <= k < |catalog| && Matches(catalog[k], id) && forall i :: from <= i < k ==> !Matches(catalog[i], id)
    decreases |catalog| - from
  {
    if from == |catalog| then -1 else if Matches(catalog[from], id) then from else FindFrom(catalog, id, from + 1)
  }

  function Used(v: Vfs): int {
    Linear(v.track, v.cylinder, v.sector)
  }

  /** The disk with a file's first `n` words written from position `at` on. */
  function Written(disk: DiskImage, at: int, f: HostFile, n: nat): DiskImage
    requires f.HostFile?
  {
    seq(DISK_SIZE, i requires 0 <= i < DISK_SIZE => if at <= i < at + n then WordAt(f, i - at) else disk[i])
  }

  function LoadToDisk(v: Vfs, disk: DiskImage, path: string, host: HostFile): LoadResult {
    if FindFrom(v.catalog, path, 0) != -1 then LoadResult(v, disk, VfsOk)
    else if host.Missing? then LoadResult(v, disk, NotFound)
    else if host.wordCount > DISK_SIZE - Used(v) then LoadResult(v, disk, DiskFull)
    else
      var at := Used(v);
      var end := at + NonNegative(host.wordCount);
      var moved := v.(track := TrackOf(end), cylinder := CylinderOf(end), sector := SectorOf(end));
      var meta := FileMeta(path, host.programName, v.track, v.cylinder, v.sector, host.wordCount, host.startPc);
      var disk' := Written(disk, at, host, NonNegative(host.wordCount));
      if |v.catalog| >= MAX_PROCESSES then LoadResult(moved, disk', DiskFull)
      else LoadResult(moved.(catalog := v.catalog + [meta]), disk', VfsOk)
  }

  // ---------------------------------------------------------------- invariants of the catalog

  function StartOf(meta: FileMeta): int {
    Linear(meta.startTrack, meta.startCylinder, meta.startSector)
  }

  function EndOf(meta: FileMeta): int {
    StartOf(meta) + NonNegative(meta.wordCount)
  }

  predicate ValidCursor(v: Vfs) {
    0 <= v.track <= DISK_TRACKS && 0 <= v.cylinder < DISK_CYLINDERS && 0 <= v.sector < DISK_SECTORS && Used(v) <= DISK_SIZE
  }

  predicate ValidMeta(meta: FileMeta, used: int) {
    && 0 <= meta.startTrack <= DISK_TRACKS && 0 <= meta.startCylinder < DISK_CYLINDERS && 0 <= meta.startSector < DISK_SECTORS
    && EndOf(meta) <= used
  }

  /** Extents lie below the cursor, one after the other. */
  ghost predicate ValidVfs(v: Vfs) {
    && ValidCursor(v) && |v.catalog| <= MAX_PROCESSES
    && (forall k :: 0 <= k < |v.catalog| ==> ValidMeta(v.catalog[k], Used(v)))
    && (forall i, j :: 0 <= i < j < |v.catalog| ==> EndOf(v.catalog[i]) <= StartOf(v.catalog[j]))
  }

  /** A catalogued extent holds the words of a host file. */
  ghost predicate Holds(disk: DiskImage, meta: FileMeta, f: HostFile) {
    && f.HostFile? && meta.wordCount == f.wordCount && meta.startPc == f.startPc && meta.programName == f.programName
    && 0 <= StartOf(meta) && EndOf(meta) <= DISK_SIZE
    && forall i :: 0 <= i < meta.wordCount ==> disk[StartOf(meta) + i] == WordAt(f, i)
  }

  ghost predicate Extends(v: Vfs, w: Vfs) {
    |v.catalog| <= |w.catalog| && forall k :: 0 <= k < |v.catalog| ==> w.catalog[k] == v.catalog[k]
  }

  lemma CursorAt(v: Vfs, end: int)
    requires 0 <= end <= DISK_SIZE
    ensures var w := v.(track := TrackOf(end), cylinder := CylinderOf(end), sector := SectorOf(end));
            ValidCursor(w) && Used(w) == end
  {
    Geometry(TrackOf(end), CylinderOf(end), SectorOf(end), end);
  }

  lemma LoadWritesBeyondCursor(v: Vfs, disk: DiskImage, path: string, host: HostFile)
    requires ValidCursor(v)
    ensures forall i :: 0 <= i < Used(v) ==> LoadToDisk(v, disk, path, host).disk[i] == disk[i]
  {
  }

  /** A load keeps the catalog well formed, writes only beyond the old cursor, and never alters an earlier entry. */
  lemma LoadKeepsCatalog(v: Vfs, disk: DiskImage, path: string, host: HostFile)
    requires ValidVfs(v)
    ensures var r := LoadToDisk(v, disk, path, host);
            && ValidVfs(r.vfs) && Extends(v, r.vfs) && Used(v) <= Used(r.vfs)
            && forall i :: 0 <= i < Used(v) ==> r.disk[i] == disk[i]
  {
    LoadWritesBeyondCursor(v, disk, path, host);
    if host.HostFile? && host.wordCount <= DISK_SIZE - Used(v) {
      CursorAt(v, Used(v) + NonNegative(host.wordCount));
    }
    hide Written, Linear, TrackOf, CylinderOf, SectorOf;
  }

  /** After a successful load the path is found, and its extent holds the file if this load wrote it. */
  lemma LoadStoresFile(v: Vfs, disk: DiskImage, path: string, host: HostFile)
    requires ValidVfs(v) && LoadToDisk(v, disk, path, host).status == VfsOk
    ensures var r := LoadToDisk(v, disk, path, host);
            var k := FindFrom(r.vfs.catalog, path, 0);
            && k != -1
            && (FindFrom(v.catalog, path, 0) != -1 ==> r.vfs == v && r.disk == disk)
            && (FindFrom(v.catalog, path, 0) == -1 ==> k == |v.catalog| && Holds(r.disk, r.vfs.catalog[k], host))
  {
    if FindFrom(v.catalog, path, 0) == -1 {
      assert Matches(LoadToDisk(v, disk, path, host).vfs.catalog[|v.catalog|], path);
    }
  }

  /** An entry has this path, or a program of this name. */
  predicate Known(v: Vfs, id: string) {
    exists k :: 0 <= k < |v.catalog| && (v.catalog[k].filePath == id || v.catalog[k].programName == id)
  }

  /** The host has the file, its words fit on the rest of the disk, and the catalog has an entry left. */
  predicate Loadable(v: Vfs, host: HostFile) {
    host.HostFile? && host.wordCount <= DISK_SIZE - Used(v) && |v.catalog| < 20
  }

  /**
   A load succeeds exactly if the path or program name is known, or the file is there, fits and can be catalogued; it
   reports a missing file exactly if the host has none under an unknown path.
   */
  lemma LoadSucceedsWhen(v: Vfs, disk: DiskImage, path: string, host: HostFile)
    ensures var r := LoadToDisk(v, disk, path, host);
            && (r.status == VfsOk <==> Known(v, path) || Loadable(v, host))
            && (r.status == NotFound <==> !Known(v, path) && host.Missing?)
    ensures FindFrom(v.catalog, path, 0) != -1 <==> Known(v, path)
  {
    var k := FindFrom(v.catalog, path, 0);
    if k != -1 { assert Matches(v.catalog[k], path); }
    hide Written, Linear, TrackOf, CylinderOf, SectorOf;
  }

  /** Disk position `i` once the file is at `at`: a word of the file, zero where it is too short, or what was there. */
  function FileWord(disk: DiskImage, host: HostFile, at: int, i: int): int
    requires host.HostFile? && 0 <= i < DISK_SIZE
  {
    if i < at || i >= at + host.wordCount then disk[i] else if i - at < |host.words| then host.words[i - at] else 0
  }

  /**
   Where a new file goes: one entry is appended, which path and program name both find, its extent begins at the cursor
   and the cursor moves behind it. If only the catalog is full, the words are written and the space is lost.
   */
  lemma LoadAppends(v: Vfs, disk: DiskImage, path: string, host: HostFile)
    requires ValidVfs(v) && !Known(v, path) && host.HostFile? && host.wordCount <= DISK_SIZE - Used(v)
    ensures var r, at := LoadToDisk(v, disk, path, host), Used(v);
            && Used(r.vfs) == at + NonNegative(host.wordCount)
            && (|v.catalog| == 20 ==> r.vfs.catalog == v.catalog && r.status == DiskFull)
            && (|v.catalog| < 20 ==>
                  && |r.vfs.catalog| == |v.catalog| + 1 && r.vfs.catalog[..|v.catalog|] == v.catalog
                  && Known(r.vfs, path) && Known(r.vfs, host.programName)
                  && var meta := r.vfs.catalog[|v.catalog|];
                  && StartOf(meta) == at && meta.filePath == path && meta.programName == host.programName
                  && meta.wordCount == host.wordCount && meta.startPc == host.startPc)
            && (forall i :: 0 <= i < DISK_SIZE ==> r.disk[i] == FileWord(disk, host, at, i))
  {
    LoadSucceedsWhen(v, disk, path, host);
    CursorAt(v, Used(v) + NonNegative(host.wordCount));
    var r, at := LoadToDisk(v, disk, path, host), Used(v);
    assert r.disk == Written(disk, at, host, NonNegative(host.wordCount));
    forall i | 0 <= i < DISK_SIZE ensures r.disk[i] == FileWord(disk, host, at, i) {
      WrittenWord(disk, host, at, i);
    }
    hide LoadToDisk, Linear, TrackOf, CylinderOf, SectorOf, FileWord, Written;
    LoadEntry(v, disk, path, host);
  }

  lemma WrittenWord(disk: DiskImage, host: HostFile, at: int, i: int)
    requires host.HostFile? && 0 <= i < DISK_SIZE
    ensures Written(disk, at, host, NonNegative(host.wordCount))[i] == FileWord(disk, host, at, i)
  {
    var n := NonNegative(host.wordCount);
    assert Written(disk, at, host, n)[i] == if at <= i < at + n then WordAt(host, i - at) else disk[i];
  }

  lemma LoadEntry(v: Vfs, disk: DiskImage, path: string, host: HostFile)
    requires FindFrom(v.catalog, path, 0) == -1 && host.HostFile? && host.wordCount <= DISK_SIZE - Used(v)
    ensures var r := LoadToDisk(v, disk, path, host);
            && (|v.catalog| == 20 ==> r.vfs.catalog == v.catalog && r.status == DiskFull)
            && (|v.catalog| < 20 ==>
                  && |r.vfs.catalog| == |v.catalog| + 1 && r.vfs.catalog[..|v.catalog|] == v.catalog
                  && Known(r.vfs, path) && Known(r.vfs, host.programName)
                  && var meta := r.vfs.catalog[|v.catalog|];
                  && StartOf(meta) == Used(v) && meta.filePath == path && meta.programName == host.programName
                  && meta.wordCount == host.wordCount && meta.startPc == host.startPc)
  {
    var r := LoadToDisk(v, disk, path, host);
    hide Written;
    if |v.catalog| < 20 {
      var meta := r.vfs.catalog[|v.catalog|];
      assert meta.filePath == path && meta.programName == host.programName;
    }
  }

  /** Nothing written at or beyond the cursor disturbs a catalogued file. */
  lemma EarlierFilesSurvive(v: Vfs, disk: DiskImage, disk': DiskImage, k: nat, f: HostFile)
    requires ValidVfs(v) && k < |v.catalog| && Holds(disk, v.catalog[k], f)
    requires forall i :: 0 <= i < Used(v) ==> disk'[i] == disk[i]
    ensures Holds(disk', v.catalog[k], f)
  {
    assert ValidMeta(v.catalog[k], Used(v));
  }

  // ---------------------------------------------------------------- the code

  class VfsStore {
    const disk: Disk
    const entries: array<FileMeta>
    var count: nat
    var freeTrack: int
    var freeCylinder: int
    var freeSector: int

    ghost predicate Valid()
      reads this
    {
      disk.Valid() && entries.Length == MAX_PROCESSES && count <= MAX_PROCESSES
    }

    ghost function Value(): Vfs
      requires Valid()
      reads this, entries
    {
      Vfs(entries[..count], freeTrack, freeCylinder, freeSector)
    }

    constructor (disk: Disk)
      requires disk.Valid()
      ensures Valid() && this.disk == disk && fresh(entries) && Value() == Vfs([], 0, 0, 0) && ValidVfs(Value())
    {
      this.disk := disk;
      entries := new FileMeta[MAX_PROCESSES](_ => FileMeta("", "", 0, 0, 0, 0, 0));
      count, freeTrack, freeCylinder, freeSector := 0, 0, 0, 0;
    }

    /** vfsFileExists and vfsGetMetadata share this search. */
    method Find(id: string) returns (k: int)
      requires Valid()
      ensures k == FindFrom(Value().catalog, id, 0)
    {
      for i := 0 to count
        invariant forall j :: 0 <= j < i ==> !Matches(entries[j], id)
      {
        if entries[i].filePath == id || entries[i].programName == id {
          return i;
        }
      }
      return -1;
    }

    method RegisterFile(path: string, name: string, track: int, cylinder: int, sector: int, words: int, startPc: int)
      returns (status: VfsStatus)
      requires Valid()
      modifies `count, entries
      ensures Valid()
      ensures status == if old(count) >= MAX_PROCESSES then DiskFull else VfsOk
      ensures Value() == if status == VfsOk
                         then old(Value()).(catalog := old(Value()).catalog + [FileMeta(path, name, track, cylinder, sector, words, startPc)])
                         else old(Value())
    {
      if count >= MAX_PROCESSES {
        return DiskFull;
      }
      entries[count] := FileMeta(path, name, track, cylinder, sector, words, startPc);
      count := count + 1;
      return VfsOk;
    }

    /** Writes one word at the cursor and moves it by one sector, carrying into cylinder and track. */
    method AppendWord(w: int)
      requires Valid() && ValidCursor(Value()) && Used(Value()) < DISK_SIZE
      modifies `freeTrack, `freeCylinder, `freeSector, disk.cells
      ensures disk.Image() == old(disk.Image())[old(Used(Value())) := w]
      ensures ValidCursor(Value()) && Used(Value()) == old(Used(Value())) + 1
    {
      var _ := disk.WriteSector(freeTrack, freeCylinder, freeSector, w);
      freeSector := freeSector + 1;
      if freeSector >= DISK_SECTORS {
        freeSector := 0;
        freeCylinder := freeCylinder + 1;
        if freeCylinder >= DISK_CYLINDERS {
          freeCylinder := 0;
          freeTrack := freeTrack + 1;
        }
      }
    }

    /** The copy loop from host file to disk. */
    method WriteProgram(host: HostFile)
      requires Valid() && ValidCursor(Value()) && host.HostFile? && host.wordCount <= DISK_SIZE - Used(Value())
      modifies `freeTrack, `freeCylinder, `freeSector, disk.cells
      ensures Valid() && ValidCursor(Value()) && Used(Value()) == old(Used(Value())) + NonNegative(host.wordCount)
      ensures disk.Image() == Written(old(disk.Image()), old(Used(Value())), host, NonNegative(host.wordCount))
    {
      var i := 0;
      while i < host.wordCount
        invariant 0 <= i <= NonNegative(host.wordCount)
        invariant Valid() && ValidCursor(Value()) && Used(Value()) == old(Used(Value())) + i
        invariant disk.Image() == Written(old(disk.Image()), old(Used(Value())), host, i)
      {
        AppendWord(WordAt(host, i));
        i := i + 1;
      }
    }

    method Load(path: string, host: HostFile) returns (status: VfsStatus)
      requires Valid() && ValidCursor(Value())
      modifies this, entries, disk.cells
      ensures Valid() && LoadResult(Value(), disk.Image(), status) == LoadToDisk(old(Value()), old(disk.Image()), path, host)
    {
      var k := Find(path);
      if k != -1 {
        return VfsOk;
      }
      if host.Missing? {
        return NotFound;
      }
      var used := freeTrack * (DISK_CYLINDERS * DISK_SECTORS) + freeCylinder * DISK_SECTORS + freeSector;
      if host.wordCount > DISK_SIZE - used {
        return DiskFull;
      }
      hide Written;
      var t, c, s := freeTrack, freeCylinder, freeSector;
      WriteProgram(host);
      Geometry(freeTrack, freeCylinder, freeSector, used + NonNegative(host.wordCount));
      status := RegisterFile(path, host.programName, t, c, s, host.wordCount, host.startPc);
    }
  }
}
