/** The sign-magnitude decimal codec of src/hardware/cpu.c. */
module Words {
  import opened Definitions

  function WordToInt(w: int): int {
    if w >= SIGN_BIT then -TruncMod(w, SIGN_BIT) else TruncMod(w, SIGN_BIT)
  }

  function IntToWord(v: int): int {
    var magnitude := if v >= 0 then v else -v;
    var kept := if magnitude > MAX_MAGNITUDE then magnitude % (MAX_MAGNITUDE + 1) else magnitude;
    if v < 0 && kept != 0 then kept + SIGN_BIT else kept
  }

  /** The condition code intToWord leaves in the PSW it is given. */
  function CodeOf(v: int): int {
    if v > MAX_MAGNITUDE || v < -MAX_MAGNITUDE then CC_OVERFLOW
    else if v == 0 then CC_ZERO
    else if v < 0 then CC_NEG
    else CC_POS
  }

  /** Words with a sign digit and seven magnitude digits, and no negative zero. */
  predicate Canonical(w: int) {
    0 <= w <= MAX_WORD_VALUE && w != SIGN_BIT
  }

  predicate Representable(v: int) {
    -MAX_MAGNITUDE <= v <= MAX_MAGNITUDE
  }

  /** Decoding is total: any machine integer at all yields a representable value. */
  lemma WordToIntRange(w: int)
    ensures Representable(WordToInt(w))
  {
  }

  /** Encoding is total and canonical, and is the identity on machine-sized values. */
  lemma IntToWordRange(v: int)
    ensures Canonical(IntToWord(v)) && Storable(IntToWord(v))
    ensures WordToInt(IntToWord(v)) == TruncMod(v, SIGN_BIT)
    ensures Representable(v) ==> WordToInt(IntToWord(v)) == v
  {
  }

  /** Seven magnitude digits, and an eighth that tells the sign. */
  lemma WordMeans(magnitude: int)
    requires 0 <= magnitude <= 9999999
    ensures WordToInt(magnitude) == magnitude && WordToInt(10000000 + magnitude) == -magnitude
  {
  }

  lemma WordRoundTrip(w: int)
    ensures IntToWord(WordToInt(w)) == w <==> Canonical(w)
  {
    IntToWordRange(WordToInt(w));
  }

  predicate IsInt32(v: int) {
    -0x8000_0000 <= v < 0x8000_0000
  }

  /** No C intermediate of arithmetic, comparison or effective addressing leaves its integer type. */
  lemma NoIntermediateOverflow(acc: int, operand: int, value: int)
    requires -100000 < value < 100000
    ensures var a, b := WordToInt(acc), WordToInt(operand);
            && IsInt32(a + b) && IsInt32(a - b) && IsInt32(value + a)
            && -0x8000_0000_0000_0000 <= a * b < 0x8000_0000_0000_0000
            && (b != 0 ==> Representable(TruncDiv(a, b)))
            && CodeOf(TruncMod(a * b, SIGN_BIT)) != CC_OVERFLOW
  {
    var a, b := WordToInt(acc), WordToInt(operand);
    ProductBound(a, b);
    if b != 0 { QuotientBound(if a < 0 then -a else a, if b < 0 then -b else b); }
  }

  lemma ProductBound(a: int, b: int)
    requires Representable(a) && Representable(b)
    ensures -MAX_MAGNITUDE * MAX_MAGNITUDE <= a * b <= MAX_MAGNITUDE * MAX_MAGNITUDE
  {
    if a >= 0 {
      MulSign(MAX_MAGNITUDE - b, a);
      MulSign(MAX_MAGNITUDE + b, a);
      assert (MAX_MAGNITUDE - b) * a == MAX_MAGNITUDE * a - a * b;
      assert (MAX_MAGNITUDE + b) * a == MAX_MAGNITUDE * a + a * b;
    } else {
      MulSign(MAX_MAGNITUDE - b, -a);
      MulSign(MAX_MAGNITUDE + b, -a);
      assert (MAX_MAGNITUDE - b) * -a == a * b - MAX_MAGNITUDE * a;
      assert (MAX_MAGNITUDE + b) * -a == -(a * b) - MAX_MAGNITUDE * a;
    }
  }

  lemma MulSign(a: int, b: int)
    requires 0 <= b
    ensures a < 0 ==> a * b <= 0
    ensures a >= 0 ==> a * b >= 0
  {
  }

  lemma QuotientBound(x: int, y: int)
    requires 0 <= x && 1 <= y
    ensures 0 <= x / y <= x
  {
    var q := x / y;
    assert x == y * q + x % y;
    MulSign(q, y - 1);
    assert y * q == q + q * (y - 1);
  }
}
