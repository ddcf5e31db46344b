/** The partition allocator of src/kernel/mmu.c. */
module Partitions {
  import opened Definitions

  /** FREE_PARTITIONS: true marks a free partition. */
  type BlockMap = s: seq<bool> | |s| == MAX_PROCESSES witness seq(MAX_PROCESSES, _ => true)

  function RequiredBlocks(wordCount: int): int {
    var total := wordCount + MIN_STACK_SIZE;
    if total <= MIN_STACK_SIZE || total > PARTITION_SIZE * MAX_PROCESSES then 0
    else TruncDiv(total + PARTITION_SIZE - 1, PARTITION_SIZE)
  }

  /** The block count is the least one that holds the program and its minimum stack, and zero exactly when none does. */
  lemma RequiredBlocksLeast(wordCount: int)
    ensures var b := RequiredBlocks(wordCount);
            && (b == 0 <==> wordCount <= 0 || wordCount + MIN_STACK_SIZE > RAM_SIZE - OS_RESERVED_SIZE)
            && (b != 0 ==>
                  && 1 <= b <= MAX_PROCESSES
                  && (b - 1) * PARTITION_SIZE < wordCount + MIN_STACK_SIZE <= b * PARTITION_SIZE)
  {
  }

  /** Every range of partitions lies in user RAM, and disjoint ranges have disjoint register bounds. */
  lemma BoundsOfRanges(s: int, n: int, t: int, k: int)
    requires 0 <= s && 1 <= n && s + n <= MAX_PROCESSES
    requires 0 <= t && 1 <= k && t + k <= MAX_PROCESSES
    ensures var rb := BaseRegister(s); OS_RESERVED_SIZE <= rb && LimitRegister(rb, n) < RAM_SIZE
    ensures s + n <= t <==> LimitRegister(BaseRegister(s), n) < BaseRegister(t)
  {
  }

  predicate FreeRun(free: BlockMap, start: int, n: int) {
    0 <= start && start + n <= MAX_PROCESSES && forall k :: start <= k < start + n ==> free[k]
  }

  /** The least start of a free run at or after `from`, or -1. */
  function FitFrom(free: BlockMap, n: int, from: int): (r: int)
    requires 1 <= n && 0 <= from
    ensures r == -1 ==> forall s :: from <= s ==> !FreeRun(free, s, n)
    ensures r != -1 ==> from <= r && FreeRun(free, r, n) && forall s :: from <= s < r ==> !FreeRun(free, s, n)
    decreases MAX_PROCESSES - from
  {
    if from + n > MAX_PROCESSES then -1
    else if FreeRun(free, from, n) then from
    else FitFrom(free, n, from + 1)
  }

  function FirstFit(free: BlockMap, n: int): int {
    if n <= 0 || n > MAX_PROCESSES then -1 else FitFrom(free, n, 0)
  }

  /** First fit is complete: it fails exactly when no run of that length is free, and otherwise takes the lowest. */
  lemma FirstFitComplete(free: BlockMap, n: int)
    requires 1 <= n
    ensures FirstFit(free, n) == -1 <==> forall s :: !FreeRun(free, s, n)
    ensures FirstFit(free, n) != -1 ==>
              FreeRun(free, FirstFit(free, n), n) && forall s :: FreeRun(free, s, n) ==> FirstFit(free, n) <= s
  {
  }

  function Marked(free: BlockMap, start: int, n: int, value: bool): BlockMap {
    seq(MAX_PROCESSES, k requires 0 <= k < MAX_PROCESSES => if start <= k < start + n then value else free[k])
  }

  predicate ValidRange(start: int, n: int) {
    0 <= start < MAX_PROCESSES && n > 0 && start + n <= MAX_PROCESSES
  }

  class Mmu {
    const free: array<bool>

    ghost predicate Valid() {
      free.Length == MAX_PROCESSES
    }

    ghost function Map(): BlockMap
      requires Valid()
      reads free
    {
      free[..]
    }

    constructor ()
      ensures Valid() && fresh(free) && forall k :: 0 <= k < MAX_PROCESSES ==> Map()[k]
    {
      free := new bool[MAX_PROCESSES](_ => true);
    }

    method MmuInit()
      requires Valid()
      modifies free
      ensures forall k :: 0 <= k < MAX_PROCESSES ==> Map()[k]
    {
      for i := 0 to MAX_PROCESSES
        invariant forall k :: 0 <= k < i ==> free[k]
      {
        free[i] := true;
      }
    }

    /** One scan with a running count of consecutive free partitions finds the first fit. */
    method AllocateMemory(requiredBlocks: int) returns (start: int)
      requires Valid()
      modifies free
      ensures start == FirstFit(old(Map()), requiredBlocks)
      ensures Map() == if start == -1 then old(Map()) else Marked(old(Map()), start, requiredBlocks, false)
    {
      if requiredBlocks <= 0 || requiredBlocks > MAX_PROCESSES {
        return -1;
      }
      ghost var before := Map();
      var contiguous := 0;
      for i := 0 to MAX_PROCESSES
        invariant 0 <= contiguous < requiredBlocks && contiguous <= i
        invariant Map() == before
        invariant forall k :: i - contiguous <= k < i ==> free[k]
        invariant i > contiguous ==> !free[i - contiguous - 1]
        invariant forall s :: 0 <= s && s + requiredBlocks <= i ==> !FreeRun(before, s, requiredBlocks)
      {
        if free[i] {
          contiguous := contiguous + 1;
          if contiguous == requiredBlocks {
            start := i - requiredBlocks + 1;
            assert FreeRun(before, start, requiredBlocks);
            OccupyRun(start, requiredBlocks);
            return start;
          }
        } else {
          contiguous := 0;
        }
      }
      return -1;
    }

    method OccupyRun(start: int, n: int)
      requires Valid() && 0 <= start && 0 <= n && start + n <= MAX_PROCESSES
      modifies free
      ensures Map() == Marked(old(Map()), start, n, false)
    {
      for j := start to start + n
        invariant forall k :: 0 <= k < MAX_PROCESSES ==> free[k] == (old(free[k]) && !(start <= k < j))
      {
        free[j] := false;
      }
    }

    method FreeMemory(startBlock: int, blockCount: int) returns (ok: bool)
      requires Valid()
      modifies free
      ensures ok == ValidRange(startBlock, blockCount)
      ensures Map() == if ok then Marked(old(Map()), startBlock, blockCount, true) else old(Map())
    {
      if startBlock < 0 || startBlock >= MAX_PROCESSES || blockCount <= 0 || startBlock + blockCount > MAX_PROCESSES {
        return false;
      }
      for i := startBlock to startBlock + blockCount
        invariant forall k :: 0 <= k < MAX_PROCESSES ==> free[k] == (old(free[k]) || startBlock <= k < i)
      {
        free[i] := true;
      }
      return true;
    }
  }
}
