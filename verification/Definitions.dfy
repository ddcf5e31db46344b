/** Constants, macros and records shared by every layer (inc/definitions.h, inc/kernel/mmu.h). */
module Definitions {
  const RAM_SIZE := 2000
  const OS_RESERVED_SIZE := 300
  const DISK_TRACKS := 10
  const DISK_CYLINDERS := 10
  const DISK_SECTORS := 100
  const DISK_SIZE := 10000 // DISK_TRACKS * DISK_CYLINDERS * DISK_SECTORS
  const MAX_MAGNITUDE := 9999999
  const SIGN_BIT := 10000000
  const MAX_WORD_VALUE := 19999999
  const MIN_STACK_SIZE := 50
  const MAX_PROCESSES := 20
  const PARTITION_SIZE := 85 // (RAM_SIZE - OS_RESERVED_SIZE) / MAX_PROCESSES
  const TWO_TO_THE_64 := 0x1_0000_0000_0000_0000

  const CC_ZERO := 0
  const CC_NEG := 1
  const CC_POS := 2
  const CC_OVERFLOW := 3

  const MODE_USER := 0
  const MODE_KERNEL := 1

  const DIRECT := 0
  const IMMEDIATE := 1
  const INDEXED := 2

  const OP_SUM := 0
  const OP_RES := 1
  const OP_MULT := 2
  const OP_DIVI := 3
  const OP_LOAD := 4
  const OP_STR := 5
  const OP_LOADRX := 6
  const OP_STRRX := 7
  const OP_COMP := 8
  const OP_JMPE := 9
  const OP_JMPNE := 10
  const OP_JMPLT := 11
  const OP_JMPLGT := 12
  const OP_SVC := 13
  const OP_RETRN := 14
  const OP_HAB := 15
  const OP_DHAB := 16
  const OP_TTI := 17
  const OP_CHMOD := 18
  const OP_LOADRB := 19
  const OP_STRRB := 20
  const OP_LOADRL := 21
  const OP_STRRL := 22
  const OP_LOADSP := 23
  const OP_STRSP := 24
  const OP_PSH := 25
  const OP_POP := 26
  const OP_J := 27
  const OP_SDMAP := 28
  const OP_SDMAC := 29
  const OP_SDMAS := 30
  const OP_SDMAIO := 31
  const OP_SDMAM := 32
  const OP_SDMAON := 33

  /** The bits of `interruptBitmap`. */
  datatype Irq =
    InvalidSyscall | InvalidIntCode | Syscall | Timer | IoDone | InvalidInstr | InvalidAddr | Underflow | Overflow

  datatype ProcessState = New | Ready | Executing | Blocked | BlockedIo | Finished

  /** CPU_t. The condition code and the mode are plain integers because restoreContext casts popped words to them. */
  datatype Cpu = Cpu(
    ac: int, mar: int, mdr: int, ir: int,
    rb: int, rl: int, rx: int, sp: int,
    cc: int, mode: int, interrupts: bool, pc: int,
    timerLimit: int, cycles: int)

  const ZERO_CPU := Cpu(0, 0, 0, 0, 0, 0, 0, 0, CC_ZERO, MODE_USER, false, 0, 0, 0)

  datatype Instruction = Instruction(opCode: int, direction: int, value: int)

  /** DMA_t without its synchronisation flags, which belong to the handshake model. */
  datatype Dma = Dma(track: int, cylinder: int, sector: int, ioDirection: int, memAddr: int, status: int)

  type Memory = s: seq<int> | |s| == RAM_SIZE witness seq(RAM_SIZE, _ => 0)
  type DiskImage = s: seq<int> | |s| == DISK_SIZE witness seq(DISK_SIZE, _ => 0)

  datatype Pcb = Pcb(
    pid: int, state: ProcessState, context: Cpu, programName: string,
    startBlock: int, blockCount: int, sleepTics: int)

  /** C's integer division, truncating toward zero. */
  function TruncDiv(a: int, b: int): int
    requires b != 0
  {
    var q := (if a < 0 then -a else a) / (if b < 0 then -b else b);
    if (a < 0) == (b < 0) then q else -q
  }

  /** C's remainder, which takes the sign of the dividend. */
  function TruncMod(a: int, b: int): int
    requires b != 0
  {
    var r := (if a < 0 then -a else a) % (if b < 0 then -b else b);
    if a < 0 then -r else r
  }

  /** `/` and `%` as modelled fit together the way the C standard demands. */
  lemma TruncDivMod(a: int, b: int)
    requires b != 0
    ensures a == b * TruncDiv(a, b) + TruncMod(a, b)
    ensures -(if b < 0 then -b else b) < TruncMod(a, b) < (if b < 0 then -b else b)
    ensures TruncMod(a, b) == 0 || (TruncMod(a, b) < 0) == (a < 0)
  {
    var x := if a < 0 then -a else a;
    var y := if b < 0 then -b else b;
    assert x == y * (x / y) + x % y;
  }

  function Decode(w: int): Instruction {
    Instruction(TruncDiv(w, 1000000), TruncMod(TruncDiv(w, 100000), 10), TruncMod(w, 100000))
  }

  /** IS_VALID_INSTRUCTION, the only check writeMemory makes on data. */
  predicate Storable(w: int) {
    0 <= TruncDiv(w, 1000000) <= OP_SDMAON
  }

  /** The check accepts small negative integers and every instruction word, not just MAX_WORD_VALUE and below. */
  lemma StorableRange(w: int)
    ensures Storable(w) <==> -1000000 < w < 34000000
  {
  }

  function BaseRegister(startBlock: int): int {
    OS_RESERVED_SIZE + startBlock * PARTITION_SIZE
  }

  function LimitRegister(rb: int, blockCount: int): int {
    rb + blockCount * PARTITION_SIZE - 1
  }
}
