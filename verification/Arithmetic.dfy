/** Decimal arithmetic across a program's own cycles. */
module Arithmetic {
  import opened Definitions
  import opened Words
  import opened Processor
  import opened Context
  import opened SystemCalls

  /** Consecutive cycles of one process; between two of them it may be switched out, undisturbed. */
  ghost predicate Cycles(hs: seq<Hw>, envs: seq<Env>) {
    && |hs| == |envs| + 1
    && forall k :: 0 <= k < |envs| ==> Undisturbed(CpuStep(hs[k], envs[k]).m, hs[k + 1])
  }

  lemma CyclesTail(hs: seq<Hw>, envs: seq<Env>)
    requires Cycles(hs, envs) && 0 < |envs|
    ensures Cycles(hs[1..], envs[1..]) && Undisturbed(CpuStep(hs[0], envs[0]).m, hs[1])
  {
    hide Undisturbed;
    forall k | 0 <= k < |envs| - 1
      ensures Undisturbed(CpuStep(hs[1..][k], envs[1..][k]).m, hs[1..][k + 1])
    {
      assert Undisturbed(CpuStep(hs[k + 1], envs[k + 1]).m, hs[k + 2]);
    }
  }

  // ---------------------------------------------------------------- arithmetic

  /** The next instruction is arithmetic with a usable operand, and interrupts can be serviced. */
  predicate AtArithmetic(m: Hw, junk: int) {
    && Addressable(m.cpu, m.cpu.pc) && m.cpu.interrupts && m.pending <= {Timer, IoDone}
    && Roomy(m.cpu) && Savable(m.cpu.(pc := m.cpu.pc + 1, ac := 0))
    && ArithmeticReady(m, junk)
  }

  /** It is a sum, a difference or a product. */
  predicate AtRingOp(m: Hw, junk: int) {
    AtArithmetic(m, junk) && NextInstruction(m).opCode != OP_DIVI
  }

  /** What the three operations mean on unbounded integers. */
  function RingResult(op: int, a: int, b: int): int {
    if op == OP_SUM then a + b else if op == OP_RES then a - b else a * b
  }

  /** A cycle of arithmetic leaves the exact result cut to seven digits, overflow or not, preempted or not. */
  lemma ArithmeticStep(m: Hw, env: Env)
    requires AtArithmetic(m, env.junk)
    ensures var r := CpuStep(m, env);
            && r.alive && WordToInt(r.m.cpu.ac) == TruncMod(NextResult(m, env.junk), SIGN_BIT) && Canonical(r.m.cpu.ac)
            && Visible(r.m.cpu) == Visible(m.cpu).(ac := r.m.cpu.ac, pc := m.cpu.pc + 1,
                 cc := if Representable(NextResult(m, env.junk)) then CodeOf(NextResult(m, env.junk)) else CC_OVERFLOW)
  {
    hide Service, AfterInstruction, ArithmeticReady, NextResult;
    if Representable(NextResult(m, env.junk)) {
      ArithmeticCycle(m, env.junk);
      var n := AfterInstruction(m, env.junk);
      assert n.pending <= {Timer, IoDone} by {
        forall q | q in n.pending ensures q in {Timer, IoDone} { if q != Timer { assert q in n.pending - {Timer}; } }
      }
      if n.pending != {} {
        SameRoom(m.cpu, n.cpu);
        FlagsStorable(NextResult(m, env.junk));
        TransparentService(n, MostUrgent(n.pending), env);
      }
    } else {
      OverflowCycle(m, env);
    }
  }

  lemma FlagsStorable(v: int)
    ensures Storable(CodeOf(v))
  {
  }

  predicate Congruent(a: int, b: int) {
    (a - b) % SIGN_BIT == 0
  }

  /** Truncation is a congruence modulo the word size, and so are the three operations. */
  lemma RingCongruence(op: int, a: int, b: int, w: int)
    requires Congruent(a, b) && (op == OP_SUM || op == OP_RES || op == OP_MULT)
    ensures Congruent(TruncMod(RingResult(op, a, w), SIGN_BIT), RingResult(op, b, w))
  {
    hide TruncMod, RingResult, Congruent;
    ResultCongruent(op, a, b, w);
    TruncationCongruent(RingResult(op, a, w));
    CongruentChain(TruncMod(RingResult(op, a, w), SIGN_BIT), RingResult(op, a, w), RingResult(op, b, w));
  }

  lemma TruncationCongruent(v: int)
    ensures Congruent(TruncMod(v, SIGN_BIT), v)
  {
  }

  lemma CongruentChain(a: int, b: int, c: int)
    requires Congruent(a, b) && Congruent(b, c)
    ensures Congruent(a, c)
  {
  }

  lemma ResultCongruent(op: int, a: int, b: int, w: int)
    requires Congruent(a, b) && (op == OP_SUM || op == OP_RES || op == OP_MULT)
    ensures Congruent(RingResult(op, a, w), RingResult(op, b, w))
  {
    if op == OP_MULT {
      hide Congruent;
      var q := Quotient(a, b);
      ProductCongruence(a, b, q, w);
    }
  }

  lemma Quotient(a: int, b: int) returns (q: int)
    requires Congruent(a, b)
    ensures a - b == SIGN_BIT * q
  {
    q := (a - b) / SIGN_BIT;
  }

  lemma ProductCongruence(a: int, b: int, q: int, w: int)
    requires a - b == SIGN_BIT * q
    ensures Congruent(a * w, b * w)
  {
    assert a * w - b * w == (a - b) * w;
    Distribute(q, w);
    assert (a - b) * w == SIGN_BIT * (q * w);
  }

  lemma Distribute(q: int, w: int)
    ensures (SIGN_BIT * q) * w == SIGN_BIT * (q * w) && (SIGN_BIT * (q * w)) % SIGN_BIT == 0
  {
  }

  /** The unbounded integer the instructions of a run would compute from `acc`. */
  ghost function ExactRun(hs: seq<Hw>, envs: seq<Env>, acc: int): int
    requires |hs| == |envs| + 1 && forall k :: 0 <= k < |envs| ==> AtRingOp(hs[k], envs[k].junk)
    decreases |envs|
  {
    if |envs| == 0 then acc
    else
      assert AtRingOp(hs[0], envs[0].junk);
      ExactRun(hs[1..], envs[1..], RingResult(NextInstruction(hs[0]).opCode, acc, NextOperand(hs[0], envs[0].junk)))
  }

  /**
   Arithmetic is a homomorphism: after any run of sums, differences and products, with overflows serviced and
   preemptions in between, AC is congruent to the unbounded result modulo ten million, and equal to it if no step
   overflowed.
   */
  lemma {:induction false} ArithmeticHomomorphism(hs: seq<Hw>, envs: seq<Env>, acc: int)
    requires Cycles(hs, envs) && forall k :: 0 <= k < |envs| ==> AtRingOp(hs[k], envs[k].junk)
    requires Congruent(WordToInt(hs[0].cpu.ac), acc)
    ensures Congruent(WordToInt(hs[|envs|].cpu.ac), ExactRun(hs, envs, acc))
    ensures acc == WordToInt(hs[0].cpu.ac) && (forall k :: 0 <= k < |envs| ==> Representable(NextResult(hs[k], envs[k].junk)))
            ==> WordToInt(hs[|envs|].cpu.ac) == ExactRun(hs, envs, acc)
    decreases |envs|
  {
    hide CpuStep, ArithmeticReady, NextOperand, WordToInt, RingResult, Congruent, Roomy, Savable;
    if |envs| > 0 {
      CyclesTail(hs, envs);
      var m, junk := hs[0], envs[0].junk;
      ArithmeticStep(m, envs[0]);
      assert hs[1].cpu.ac == CpuStep(m, envs[0]).m.cpu.ac by { SameAccumulator(CpuStep(m, envs[0]).m, hs[1]); }
      var op, w := NextInstruction(m).opCode, NextOperand(m, junk);
      RingOps(m, junk);
      RingCongruence(op, WordToInt(m.cpu.ac), acc, w);
      forall k | 0 <= k < |envs| - 1
        ensures AtRingOp(hs[1..][k], envs[1..][k].junk)
             && NextResultOf(hs[1..], envs[1..], k) == NextResultOf(hs, envs, k + 1)
      {
        assert AtRingOp(hs[k + 1], envs[k + 1].junk);
      }
      var acc' := RingResult(op, acc, w);
      TruncatesNothing(NextResult(m, junk));
      if acc == WordToInt(m.cpu.ac) && forall k :: 0 <= k < |envs| ==> Representable(NextResult(hs[k], envs[k].junk)) {
        forall k | 0 <= k < |envs| - 1 ensures Representable(NextResult(hs[1..][k], envs[1..][k].junk)) {
          assert Representable(NextResult(hs[k + 1], envs[k + 1].junk));
        }
      }
      ArithmeticHomomorphism(hs[1..], envs[1..], acc');
    }
  }

  function NextResultOf(hs: seq<Hw>, envs: seq<Env>, k: nat): int
    requires k < |hs| && k < |envs| && AtRingOp(hs[k], envs[k].junk)
  {
    NextResult(hs[k], envs[k].junk)
  }

  lemma TruncatesNothing(v: int)
    ensures Representable(v) ==> TruncMod(v, SIGN_BIT) == v
  {
  }

  lemma SameAccumulator(a: Hw, b: Hw)
    requires Undisturbed(a, b)
    ensures a.cpu.ac == b.cpu.ac
  {
    assert Visible(a.cpu).ac == Visible(b.cpu).ac;
  }

  lemma RingOps(m: Hw, junk: int)
    requires AtRingOp(m, junk)
    ensures NextInstruction(m).opCode in {OP_SUM, OP_RES, OP_MULT}
    ensures NextResult(m, junk) == RingResult(NextInstruction(m).opCode, WordToInt(m.cpu.ac), NextOperand(m, junk))
  {
  }
}
