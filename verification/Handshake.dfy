/**
 The DMA handshake: the CPU thread inside SDMAON, the worker thread of dma.c, and everybody else who takes the bus,
 over one mutex and one condition variable, with spurious wake-ups.
 */
module Handshake {
  import opened Definitions
  import opened Processor

  datatype CpuAt = Free | Locking | Holding | Signalling | Unlocking | Spinning

  /** Program points of the worker's loop; the comments give the lock's state. */
  datatype WorkerAt =
    | LoopTop      // about to lock
    | Testing      // holds: while (!pending)
    | Waiting      // in pthread_cond_wait, lock given up
    | Woken        // about to take the lock back
    | Started      // holds: active, registers latched
    | Access       // lock given up: about to lock inside dmaRead/WriteMemory
    | InAccess     // holds, inside dmaRead/WriteMemory
    | Relocking    // about to lock again
    | Finishing    // holds: result recorded, flags cleared

  datatype Owner = Nobody | CpuThread | WorkerThread | SomeoneElse

  /** `source`, `started` and `completed` are history: the value to move, the requests made and the transfers done. */
  datatype Bus = Bus(
    cpu: CpuAt, worker: WorkerAt, lock: Owner,
    pending: bool, active: bool, dma: Dma, buffer: int, readable: bool,
    ram: Memory, disk: DiskImage, raised: set<Irq>,
    source: int, started: nat, completed: nat)

  datatype Move =
    | SetRegisters(dma: Dma) | Compute(a: int, w: int)
    | BeginSdmaon | CpuLock | CpuRequest | CpuSignal | CpuUnlock | CpuReturn
    | WorkerMove
    | SpuriousWake
    | OtherLock | OtherWrite(a: int, w: int) | OtherUnlock | OtherSector(at: int, w: int)

  /** What SDMAP to SDMAM maintain; see SettersKeepValid. */
  predicate ValidDma(d: Dma) {
    OnDisk(d.track, d.cylinder, d.sector) && 0 <= d.memAddr < RAM_SIZE && 0 <= d.ioDirection <= 1
  }

  predicate Outstanding(b: Bus) {
    b.cpu in {Signalling, Unlocking, Spinning}
  }

  /** Which moves the code allows; other threads leave alone the cell and the sector a request is about. */
  predicate Allowed(b: Bus, move: Move) {
    match move
    case SetRegisters(d) => b.cpu.Free? && ValidDma(d)
    case Compute(a, _) => b.cpu.Free? && b.lock.Nobody? && 0 <= a < RAM_SIZE
    case BeginSdmaon => b.cpu.Free?
    case CpuLock => b.cpu.Locking? && b.lock.Nobody?
    case CpuRequest => b.cpu.Holding?
    case CpuSignal => b.cpu.Signalling?
    case CpuUnlock => b.cpu.Unlocking?
    case CpuReturn => b.cpu.Spinning? && !b.pending
    case WorkerMove => !b.worker.Waiting? && (b.worker in {LoopTop, Woken, Access, Relocking} ==> b.lock.Nobody?)
    case SpuriousWake => b.worker.Waiting?
    case OtherLock => b.lock.Nobody?
    case OtherWrite(a, _) => b.lock.SomeoneElse? && 0 <= a < RAM_SIZE && (Outstanding(b) ==> a != b.dma.memAddr)
    case OtherUnlock => b.lock.SomeoneElse?
    case OtherSector(at, _) => 0 <= at < DISK_SIZE && (Outstanding(b) ==> at != DmaPosition(b.dma))
  }

  /** The value a request asks to move: the RAM cell's when writing to disk, the sector's when reading. */
  function Source(b: Bus): int
    requires ValidDma(b.dma)
  {
    LinearInRange(b.dma);
    if b.dma.ioDirection == 1 then b.ram[b.dma.memAddr] else b.disk[DmaPosition(b.dma)]
  }

  lemma LinearInRange(d: Dma)
    requires ValidDma(d)
    ensures 0 <= DmaPosition(d) < DISK_SIZE
  {
  }

  function WorkerStep(b: Bus): Bus
    requires ValidDma(b.dma)
  {
    LinearInRange(b.dma);
    var d := b.dma;
    match b.worker
    case LoopTop => b.(lock := WorkerThread, worker := Testing)
    case Testing =>
      if b.pending then b.(dma := d.(status := 0), active := true, worker := Started)
      else b.(lock := Nobody, worker := Waiting)
    case Waiting => b // only a wake-up moves it
    case Woken => b.(lock := WorkerThread, worker := Testing)
    case Started => b.(buffer := if d.ioDirection == 1 then b.buffer else b.disk[DmaPosition(d)], lock := Nobody, worker := Access)
    case Access => b.(lock := WorkerThread, worker := InAccess)
    case InAccess =>
      var inRange := 0 <= d.memAddr < RAM_SIZE;
      b.(readable := inRange,
         buffer := if d.ioDirection == 1 && inRange then b.ram[d.memAddr] else b.buffer,
         ram := if d.ioDirection != 1 && inRange then b.ram[d.memAddr := b.buffer] else b.ram,
         lock := Nobody, worker := Relocking)
    case Relocking => b.(lock := WorkerThread, worker := Finishing)
    case Finishing =>
      b.(disk := if d.ioDirection == 1 && b.readable then b.disk[DmaPosition(d) := b.buffer] else b.disk,
         dma := if b.readable then d else d.(status := 1),
         raised := b.raised + {if b.readable then IoDone else InvalidAddr},
         active := false, pending := false, lock := Nobody, worker := LoopTop, completed := b.completed + 1)
  }

  function Next(b: Bus, move: Move): Bus
    requires ValidDma(b.dma) && Allowed(b, move)
  {
    match move
    case SetRegisters(d) => b.(dma := d)
    case Compute(a, w) => b.(ram := b.ram[a := w])
    case BeginSdmaon => b.(cpu := Locking)
    case CpuLock => b.(cpu := Holding, lock := CpuThread)
    case CpuRequest => b.(cpu := Signalling, pending := true, source := Source(b), started := b.started + 1)
    case CpuSignal => b.(cpu := Unlocking, worker := if b.worker.Waiting? then Woken else b.worker)
    case CpuUnlock => b.(cpu := Spinning, lock := Nobody)
    case CpuReturn => b.(cpu := Free)
    case WorkerMove => WorkerStep(b)
    case SpuriousWake => b.(worker := Woken)
    case OtherLock => b.(lock := SomeoneElse)
    case OtherWrite(a, w) => b.(ram := b.ram[a := w])
    case OtherUnlock => b.(lock := Nobody)
    case OtherSector(at, w) => b.(disk := b.disk[at := w])
  }

  // ---------------------------------------------------------------- the invariant

  predicate CpuOwns(at: CpuAt) { at in {Holding, Signalling, Unlocking} }
  predicate WorkerOwns(at: WorkerAt) { at in {Testing, Started, InAccess, Finishing} }
  predicate Transferring(at: WorkerAt) { at in {Started, Access, InAccess, Relocking, Finishing} }

  /** The cell and the sector both hold the value the request was about. */
  predicate Agreed(b: Bus) {
    ValidDma(b.dma) && 0 <= DmaPosition(b.dma) < DISK_SIZE && b.ram[b.dma.memAddr] == b.source && b.disk[DmaPosition(b.dma)] == b.source
  }

  /** How far the value has travelled, by the worker's position. */
  predicate ValueTracked(b: Bus)
    requires ValidDma(b.dma)
  {
    LinearInRange(b.dma);
    var cell, sector := b.ram[b.dma.memAddr], b.disk[DmaPosition(b.dma)];
    if b.dma.ioDirection == 1 then
      cell == b.source && (b.worker in {Relocking, Finishing} ==> b.readable && b.buffer == b.source)
    else
      && sector == b.source
      && (b.worker in {Access, InAccess, Relocking, Finishing} ==> b.buffer == b.source)
      && (b.worker in {Relocking, Finishing} ==> b.readable && cell == b.source)
  }

  predicate Good(b: Bus) {
    && ValidDma(b.dma)
    // Mutual exclusion: the lock's owner is the thread whose program point says so.
    && (b.lock == CpuThread <==> CpuOwns(b.cpu))
    && (b.lock == WorkerThread <==> WorkerOwns(b.worker))
    // A request is outstanding exactly between CpuRequest and the end of its one transfer.
    && b.started == b.completed + (if b.pending then 1 else 0)
    && (b.pending ==> b.cpu in {Signalling, Unlocking, Spinning})
    && (b.cpu in {Signalling, Unlocking} ==> b.pending)
    && (Transferring(b.worker) ==> b.pending && b.cpu.Spinning?)
    && (b.active <==> Transferring(b.worker)) && (b.active ==> b.dma.status == 0)
    // No lost wake-up: if the worker sleeps on an outstanding request, the signal is still to come.
    && (b.pending && b.worker.Waiting? ==> b.cpu.Signalling?)
    // The value in flight, and the result the spinning CPU is about to see.
    && (b.pending ==> ValueTracked(b))
    && (b.cpu.Spinning? && !b.pending ==> Agreed(b) && b.dma.status == 0)
    && InvalidAddr !in b.raised
  }

  /** Before the first request: both threads idle, lock free. */
  predicate Initial(b: Bus) {
    && b.cpu.Free? && b.worker.LoopTop? && b.lock.Nobody? && !b.pending && !b.active
    && ValidDma(b.dma) && b.started == 0 && b.completed == 0 && b.raised == {}
  }

  lemma InitialGood(b: Bus)
    requires Initial(b)
    ensures Good(b)
  {
  }

  lemma WorkerKeepsGood(b: Bus)
    requires Good(b) && Allowed(b, WorkerMove)
    ensures Good(WorkerStep(b))
  {
    LinearInRange(b.dma);
  }

  lemma MoveKeepsGood(b: Bus, move: Move)
    requires Good(b) && Allowed(b, move)
    ensures Good(Next(b, move))
  {
    hide WorkerStep;
    LinearInRange(b.dma);
    if move.WorkerMove? { WorkerKeepsGood(b); }
  }

  ghost predicate IsRun(bs: seq<Bus>, moves: seq<Move>) {
    && |bs| == |moves| + 1
    && forall k :: 0 <= k < |moves| ==> ValidDma(bs[k].dma) && Allowed(bs[k], moves[k]) && bs[k + 1] == Next(bs[k], moves[k])
  }

  lemma RunTail(bs: seq<Bus>, moves: seq<Move>)
    requires IsRun(bs, moves) && 0 < |moves|
    ensures IsRun(bs[1..], moves[1..]) && ValidDma(bs[0].dma) && Allowed(bs[0], moves[0]) && bs[1] == Next(bs[0], moves[0])
  {
    forall k | 0 <= k < |moves| - 1
      ensures ValidDma(bs[1..][k].dma) && Allowed(bs[1..][k], moves[1..][k]) && bs[1..][k + 1] == Next(bs[1..][k], moves[1..][k])
    {
      assert Allowed(bs[k + 1], moves[k + 1]);
    }
  }

  /** Mutual exclusion, no lost wake-up and correct values hold in every state of every interleaving. */
  lemma {:induction false} RunKeepsGood(bs: seq<Bus>, moves: seq<Move>)
    requires IsRun(bs, moves) && Good(bs[0])
    ensures forall k :: 0 <= k < |bs| ==> Good(bs[k])
    decreases |moves|
  {
    hide Good, Next, Allowed;
    if |moves| > 0 {
      RunTail(bs, moves);
      MoveKeepsGood(bs[0], moves[0]);
      RunKeepsGood(bs[1..], moves[1..]);
      forall k | 0 <= k < |bs| ensures Good(bs[k]) {
        if k > 0 { assert bs[k] == bs[1..][k - 1]; }
      }
    }
  }

  // ---------------------------------------------------------------- what it guarantees

  /** A thread about to lock never holds the lock already. */
  lemma NoSelfDeadlock(b: Bus)
    requires Good(b)
    ensures b.cpu.Locking? ==> b.lock != CpuThread
    ensures b.worker in {LoopTop, Woken, Access, Relocking} ==> b.lock != WorkerThread
  {
  }

  /** The registers are constant while a request is outstanding, and the worker never sees an invalid address. */
  lemma RegistersFrozen(b: Bus, move: Move)
    requires Good(b) && b.pending && Allowed(b, move)
    ensures Next(b, move).dma.(status := 0) == b.dma.(status := 0)
    ensures Next(b, move).source == b.source && InvalidAddr !in Next(b, move).raised
  {
    MoveKeepsGood(b, move);
  }

  // ---------------------------------------------------------------- one request is one atomic transfer

  /** The part of the processor model's state that a transfer is about. */
  function AsHw(b: Bus): Hw {
    Hw(ZERO_CPU, b.ram, b.disk, b.dma, b.raised, 0, false)
  }

  /** What other threads write, applied to an earlier state. */
  function Shifted(b: Bus, move: Move): Bus {
    match move
    case OtherWrite(a, w) => if 0 <= a < RAM_SIZE then b.(ram := b.ram[a := w]) else b
    case OtherSector(at, w) => if 0 <= at < DISK_SIZE then b.(disk := b.disk[at := w]) else b
    case _ => b
  }

  ghost function WithOthers(b: Bus, moves: seq<Move>): Bus
    decreases |moves|
  {
    if |moves| == 0 then b else WithOthers(Shifted(b, moves[0]), moves[1..])
  }

  ghost predicate HasOutcome(b: Bus, m: Hw) {
    b.ram == m.ram && b.disk == m.disk && b.dma == m.dma && b.raised == m.pending
  }

  /** No request is outstanding, and the last one's cell and sector hold the value it was about. */
  predicate Served(b: Bus) {
    !b.pending && !b.active && b.completed == b.started && Agreed(b) && b.dma.status == 0
  }

  /** Between request and return: nothing of the request's effect on `from` is visible yet, or the cell alone, or all. */
  ghost predicate Tracks(from: Bus, b: Bus) {
    && ValidDma(from.dma) && b.dma.(status := 0) == from.dma.(status := 0) && Outstanding(b)
    && b.source == Source(from)
    && b.completed == from.completed + (if b.pending then 0 else 1)
    && (if b.pending then
          && b.disk == from.disk && b.raised == from.raised
          && b.ram == (if b.worker in {Relocking, Finishing} then Transfer(AsHw(from)).ram else from.ram)
        else HasOutcome(b, Transfer(AsHw(from))))
  }

  lemma WorkerTracks(from: Bus, b: Bus)
    requires Good(b) && Tracks(from, b) && Allowed(b, WorkerMove)
    ensures Tracks(from, WorkerStep(b))
  {
    hide Linear;
    LinearInRange(b.dma);
    assert DmaPosition(from.dma) == DmaPosition(b.dma);
  }

  lemma OtherTracks(from: Bus, b: Bus, move: Move)
    requires Good(b) && Tracks(from, b) && Allowed(b, move) && (move.OtherWrite? || move.OtherSector?)
    ensures Tracks(Shifted(from, move), Next(b, move))
  {
    hide Linear;
    LinearInRange(b.dma);
    assert DmaPosition(from.dma) == DmaPosition(b.dma);
  }

  /** Every move but the return itself keeps track of the request, with others' writes moved in front of it. */
  lemma MoveTracks(from: Bus, b: Bus, move: Move)
    requires Good(b) && Tracks(from, b) && Allowed(b, move) && move != CpuReturn
    ensures Tracks(Shifted(from, move), Next(b, move))
  {
    if move.OtherWrite? || move.OtherSector? {
      OtherTracks(from, b, move);
    } else if move.WorkerMove? {
      WorkerTracks(from, b);
    } else {
      hide Transfer;
    }
  }

  lemma {:induction false} TracksToReturn(from: Bus, bs: seq<Bus>, moves: seq<Move>)
    requires IsRun(bs, moves) && 0 < |moves| && Good(bs[0]) && Tracks(from, bs[0])
    requires moves[|moves| - 1] == CpuReturn && forall k :: 0 <= k < |moves| - 1 ==> moves[k] != CpuReturn
    ensures Served(bs[|moves|]) && bs[|moves|].source == Source(from) && bs[|moves|].completed == from.completed + 1
    ensures HasOutcome(bs[|moves|], Transfer(AsHw(WithOthers(from, moves))))
    decreases |moves|
  {
    RunTail(bs, moves);
    if |moves| == 1 {
      hide Transfer, Linear;
    } else {
      hide Served, Source, Good, Next, Allowed, Tracks, HasOutcome, Transfer, Shifted;
      assert moves[0] != CpuReturn;
      MoveKeepsGood(bs[0], moves[0]);
      MoveTracks(from, bs[0], moves[0]);
      KeepsRequest(from, bs[0], moves[0]);
      TracksToReturn(Shifted(from, moves[0]), bs[1..], moves[1..]);
    }
  }

  lemma KeepsRequest(from: Bus, b: Bus, move: Move)
    requires Tracks(from, b) && Allowed(b, move)
    ensures Shifted(from, move).completed == from.completed && ValidDma(Shifted(from, move).dma)
    ensures Source(Shifted(from, move)) == Source(from)
  {
    hide Linear, Transfer;
    LinearInRange(from.dma);
    assert DmaPosition(from.dma) == DmaPosition(b.dma);
  }

  lemma RequestTracks(b: Bus)
    requires Good(b) && Allowed(b, CpuRequest)
    ensures Tracks(b, Next(b, CpuRequest))
  {
    hide Transfer;
  }

  /**
   SDMAON is one atomic transfer. In any interleaving, from the request to its return exactly one transfer completes,
   and RAM, disk, DMA registers and latches are then those of the processor model's atomic transfer, executed on the
   starting state with what other threads wrote meanwhile.
   */
  lemma RequestIsOneTransfer(bs: seq<Bus>, moves: seq<Move>)
    requires IsRun(bs, moves) && Good(bs[0]) && 0 < |moves| && moves[0] == CpuRequest
    requires moves[|moves| - 1] == CpuReturn && forall k :: 0 <= k < |moves| - 1 ==> moves[k] != CpuReturn
    ensures bs[|moves|].completed == bs[0].completed + 1
    ensures Served(bs[|moves|]) && bs[|moves|].source == Source(bs[0])
    ensures HasOutcome(bs[|moves|], Transfer(AsHw(WithOthers(bs[0], moves))))
  {
    hide Good, Next, Allowed, Tracks, Transfer;
    RunTail(bs, moves);
    MoveKeepsGood(bs[0], CpuRequest);
    RequestTracks(bs[0]);
    TracksToReturn(bs[0], bs[1..], moves[1..]);
  }

  lemma {:induction false} NoOthers(b: Bus, moves: seq<Move>)
    requires forall k :: 0 <= k < |moves| ==> !moves[k].OtherWrite? && !moves[k].OtherSector?
    ensures WithOthers(b, moves) == b
    decreases |moves|
  {
    if |moves| > 0 { NoOthers(b, moves[1..]); }
  }

  /** With nobody else writing, the two threads and any spurious wake-ups compute exactly the atomic transfer. */
  lemma ThreadsTransfer(bs: seq<Bus>, moves: seq<Move>)
    requires IsRun(bs, moves) && Good(bs[0]) && 0 < |moves| && moves[0] == CpuRequest
    requires moves[|moves| - 1] == CpuReturn && forall k :: 0 <= k < |moves| - 1 ==> moves[k] != CpuReturn
    requires forall k :: 0 <= k < |moves| ==> !moves[k].OtherWrite? && !moves[k].OtherSector?
    ensures bs[|moves|].completed == bs[0].completed + 1
    ensures HasOutcome(bs[|moves|], Transfer(AsHw(bs[0])))
  {
    RequestIsOneTransfer(bs, moves);
    NoOthers(bs[0], moves);
  }

  /** The atomic transfer itself: cell and sector agree on what the source held, and nothing else changes. */
  lemma TransferMoves(m: Hw)
    requires ValidDma(m.dma)
    ensures 0 <= DmaPosition(m.dma) < DISK_SIZE
    ensures var t, at, a := Transfer(m), DmaPosition(m.dma), m.dma.memAddr;
            && t.ram[a] == t.disk[at] == (if m.dma.ioDirection == 1 then m.ram[a] else m.disk[at])
            && t.pending == m.pending + {IoDone} && t.dma == m.dma.(status := 0)
            && (forall i :: 0 <= i < RAM_SIZE && i != a ==> t.ram[i] == m.ram[i])
            && (forall i :: 0 <= i < DISK_SIZE && i != at ==> t.disk[i] == m.disk[i])
  {
    LinearInRange(m.dma);
  }

  /** The register-setting instructions keep the DMA registers within the geometry and RAM, whatever their operands. */
  lemma SettersKeepValid(m: Hw, inst: Instruction, junk: int)
    requires ValidDma(m.dma)
    ensures ValidDma(ExecuteDma(m, inst, junk).m.dma)
  {
    hide FetchOperand, Linear;
    FetchKeepsDma(m, inst, junk);
  }

  lemma FetchKeepsDma(m: Hw, inst: Instruction, junk: int)
    ensures FetchOperand(m, inst, junk).m.dma == m.dma
  {
  }

  // ---------------------------------------------------------------- progress

  function CpuRank(at: CpuAt): nat {
    match at case Signalling => 3 case Unlocking => 2 case Spinning => 1 case _ => 0
  }

  function WorkerRank(at: WorkerAt): nat {
    match at
    case Waiting => 8
    case Woken => 7
    case LoopTop => 7
    case Testing => 6
    case Started => 5
    case Access => 4
    case InAccess => 3
    case Relocking => 2
    case Finishing => 1
  }

  /** Thread steps left until the outstanding request returns. */
  function Rank(b: Bus): nat {
    if b.pending then CpuRank(b.cpu) + WorkerRank(b.worker) else if b.cpu.Spinning? then 1 else 0
  }

  predicate ByThreads(move: Move) {
    move in {CpuLock, CpuRequest, CpuSignal, CpuUnlock, CpuReturn, WorkerMove}
  }

  /** While a request is outstanding or about to return, a thread's step brings it closer; no one sets it back. */
  lemma MovesApproachReturn(b: Bus, move: Move)
    requires Good(b) && Rank(b) > 0 && Allowed(b, move)
    ensures Rank(Next(b, move)) <= Rank(b)
    ensures (b.pending && ByThreads(move)) || move == CpuReturn ==> Rank(Next(b, move)) < Rank(b)
  {
  }

  /** Whoever else may hold the bus must release it; otherwise one of the two threads can always step. */
  lemma NeverStuck(b: Bus)
    requires Good(b) && !b.cpu.Free? && !b.lock.SomeoneElse?
    ensures exists move :: ByThreads(move) && Allowed(b, move) && (b.pending ==> Rank(Next(b, move)) < Rank(b))
  {
    if b.cpu.Spinning? && !b.pending {
      assert Allowed(b, CpuReturn) && ByThreads(CpuReturn);
    } else if b.cpu.Signalling? {
      assert Allowed(b, CpuSignal) && ByThreads(CpuSignal);
      MovesApproachReturn(b, CpuSignal);
    } else if b.cpu.Unlocking? {
      assert Allowed(b, CpuUnlock) && ByThreads(CpuUnlock);
      MovesApproachReturn(b, CpuUnlock);
    } else if b.cpu.Holding? {
      assert Allowed(b, CpuRequest) && ByThreads(CpuRequest);
    } else if b.cpu.Locking? && b.lock.Nobody? {
      assert Allowed(b, CpuLock) && ByThreads(CpuLock);
    } else {
      assert Allowed(b, WorkerMove) && ByThreads(WorkerMove);
      if b.pending { MovesApproachReturn(b, WorkerMove); }
    }
  }

  ghost function ThreadSteps(bs: seq<Bus>, moves: seq<Move>): nat
    requires |bs| == |moves| + 1
  {
    if |moves| == 0 then 0 else (if ByThreads(moves[0]) then 1 else 0) + ThreadSteps(bs[1..], moves[1..])
  }

  /** SDMAON terminates: while its request is outstanding at most eleven thread steps fit, in any interleaving. */
  lemma {:induction false} RequestCompletes(bs: seq<Bus>, moves: seq<Move>)
    requires IsRun(bs, moves) && Good(bs[0]) && forall k :: 0 <= k < |moves| ==> bs[k].pending
    ensures ThreadSteps(bs, moves) <= Rank(bs[0]) <= 11
    decreases |moves|
  {
    hide Good, Next, Allowed, ByThreads;
    RankBound(bs[0]);
    if |moves| > 0 {
      RunTail(bs, moves);
      MoveKeepsGood(bs[0], moves[0]);
      assert bs[0].pending;
      RankPositive(bs[0]);
      MovesApproachReturn(bs[0], moves[0]);
      RequestCompletes(bs[1..], moves[1..]);
    }
  }

  lemma RankBound(b: Bus)
    ensures Rank(b) <= 11
  {
  }

  lemma RankPositive(b: Bus)
    requires b.pending
    ensures Rank(b) > 0
  {
  }
}
