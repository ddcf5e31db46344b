/** The three-dimensional disk of src/hardware/disk.c, and the linear image it stands for. */
module DiskDrive {
  import opened Definitions
  import opened Processor

  function TrackOf(at: int): int { at / 1000 }
  function CylinderOf(at: int): int { at / 100 % 10 }
  function SectorOf(at: int): int { at % 100 }

  /** The geometry is a bijection: every linear position is exactly one sector and conversely. */
  lemma Geometry(track: int, cylinder: int, sector: int, at: int)
    requires 0 <= cylinder < DISK_CYLINDERS && 0 <= sector < DISK_SECTORS
    ensures at == Linear(track, cylinder, sector) <==>
            track == TrackOf(at) && cylinder == CylinderOf(at) && sector == SectorOf(at)
    ensures OnDisk(track, cylinder, sector) ==> 0 <= Linear(track, cylinder, sector) < DISK_SIZE
  {
    assert at == 1000 * (at / 1000) + 100 * (at / 100 % 10) + at % 100;
  }

  class Disk {
    const cells: array3<int>

    ghost predicate Valid() {
      cells.Length0 == DISK_TRACKS && cells.Length1 == DISK_CYLINDERS && cells.Length2 == DISK_SECTORS
    }

    ghost function Image(): (image: DiskImage)
      requires Valid()
      reads cells
    {
      seq(DISK_SIZE, at requires 0 <= at < DISK_SIZE reads cells => cells[TrackOf(at), CylinderOf(at), SectorOf(at)])
    }

    constructor ()
      ensures Valid() && fresh(cells)
      ensures forall at :: 0 <= at < DISK_SIZE ==> Image()[at] == 0
    {
      cells := new int[DISK_TRACKS, DISK_CYLINDERS, DISK_SECTORS]((t, c, s) => 0);
    }

    /** readSector: an address outside the geometry clears the buffer and reports the error. */
    method ReadSector(track: int, cylinder: int, sector: int) returns (data: int, ok: bool)
      requires Valid()
      requires 0 <= track < 256 && 0 <= cylinder < 256 && 0 <= sector < 256
      ensures ok == OnDisk(track, cylinder, sector)
      ensures ok ==> 0 <= Linear(track, cylinder, sector) < DISK_SIZE && data == Image()[Linear(track, cylinder, sector)]
      ensures !ok ==> data == 0
    {
      if track >= DISK_TRACKS || cylinder >= DISK_CYLINDERS || sector >= DISK_SECTORS {
        return 0, false;
      }
      Geometry(track, cylinder, sector, Linear(track, cylinder, sector));
      return cells[track, cylinder, sector], true;
    }

    method WriteSector(track: int, cylinder: int, sector: int, data: int) returns (ok: bool)
      requires Valid()
      requires 0 <= track < 256 && 0 <= cylinder < 256 && 0 <= sector < 256
      modifies cells
      ensures ok == OnDisk(track, cylinder, sector)
      ensures ok ==> 0 <= Linear(track, cylinder, sector) < DISK_SIZE
      ensures Image() == if ok then old(Image())[Linear(track, cylinder, sector) := data] else old(Image())
    {
      if track >= DISK_TRACKS || cylinder >= DISK_CYLINDERS || sector >= DISK_SECTORS {
        return false;
      }
      var at := Linear(track, cylinder, sector);
      Geometry(track, cylinder, sector, at);
      forall i | 0 <= i < DISK_SIZE && i != at
        ensures (TrackOf(i), CylinderOf(i), SectorOf(i)) != (track, cylinder, sector)
      {
        Geometry(track, cylinder, sector, i);
      }
      cells[track, cylinder, sector] := data;
      return true;
    }
  }
}
