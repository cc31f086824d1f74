/** Terms read as bit patterns: what of the slab depth of a kernel can be seen in its output. */
module Bits {
  import opened Numerics
  import opened Terms
  import opened Operands
  import opened Plans

  /** A deterministic floating-point implementation; bit patterns are integers. */
  datatype Machine = Machine(input: (nat, real) -> int, zero: int, one: int,
                             fma: (int, int, int) -> int, add: (int, int) -> int, mul: (int, int) -> int,
                             wide: int -> int, narrow: int -> int,
                             addWide: (int, int) -> int, mulWide: (int, int) -> int,
                             up: int -> int, down: int -> int, mma: (int, seq<int>, seq<int>) -> int)

  /** The bit pattern a term has on a machine. */
  function Bits(f: Machine, t: Val): int
    decreases t
  {
    match t
    case Input(tag, value) => f.input(tag, value)
    case Zero => f.zero
    case One => f.one
    case Fma(a, b, c) => f.fma(Bits(f, a), Bits(f, b), Bits(f, c))
    case Add(a, b) => f.add(Bits(f, a), Bits(f, b))
    case Mul(a, b) => f.mul(Bits(f, a), Bits(f, b))
    case Wide(v) => f.wide(Bits(f, v))
    case Narrow(v) => f.narrow(Bits(f, v))
    case AddWide(a, b) => f.addWide(Bits(f, a), Bits(f, b))
    case MulWide(a, b) => f.mulWide(Bits(f, a), Bits(f, b))
    case Up(v) => f.up(Bits(f, v))
    case Down(v) => f.down(Bits(f, v))
    case Mma16(acc, row, col) =>
      f.mma(Bits(f, acc), seq(|row|, i requires 0 <= i < |row| => Bits(f, row[i])),
            seq(|col|, i requires 0 <= i < |col| => Bits(f, col[i])))
  }

  /** One padding step, fma(0, 0, c): on an IEEE machine it turns -0 into +0 and keeps everything else. */
  function ZeroStep(f: Machine, c: int): int { f.fma(f.zero, f.zero, c) }

  function ZeroSteps(f: Machine, c: int, n: nat): int
    decreases n
  {
    if n == 0 then c else ZeroStep(f, ZeroSteps(f, c, n - 1))
  }

  ghost predicate SettledBy(f: Machine, c: int) { ZeroStep(f, ZeroStep(f, c)) == ZeroStep(f, c) }
  ghost predicate Unscaled(f: Machine, a: int, b: int, c: int) { f.mul(f.one, f.fma(a, b, c)) == f.fma(a, b, c) }

  /** The two laws used: a second padding step changes nothing more, and alpha = 1 keeps what an fma returns. */
  ghost predicate Lawful(f: Machine) {
    (forall c :: SettledBy(f, c)) && (forall a, b, c :: Unscaled(f, a, b, c))
  }

  lemma {:induction false} OneStepSettles(f: Machine, c: int, n: nat)
    requires Lawful(f) && n > 0
    ensures ZeroSteps(f, c, n) == ZeroStep(f, c)
    decreases n
  {
    if n == 1 {
      assert ZeroSteps(f, c, 0) == c;
    } else {
      OneStepSettles(f, c, n - 1);
      assert SettledBy(f, c);
    }
  }

  /** Chain links past the end of the matrices are padding steps. */
  lemma {:induction false} PaddedBits(f: Machine, seed: Val, x: Operand, w: Operand, m: nat, n: nat, steps: nat,
                                      pad: nat)
    requires x.red <= steps && w.red <= steps
    ensures Bits(f, Chain(seed, x, w, m, n, 0, steps + pad))
      == ZeroSteps(f, Bits(f, Chain(seed, x, w, m, n, 0, steps)), pad)
    decreases pad
  {
    if pad > 0 {
      PaddedBits(f, seed, x, w, m, n, steps, pad - 1);
      assert At(x, m, steps + pad - 1) == Zero && At(w, n, steps + pad - 1) == Zero;
    }
  }

  /** The accumulator of a cell before any padding. */
  function Unpadded(f: Machine, x: Operand, w: Operand, bias: Seed, m: nat, n: nat): int {
    Bits(f, Chain(SeedAt(bias, n), x, w, m, n, 0, x.red))
  }

  /** What a chain of at least one step ends with is unchanged by alpha = 1, padded or not. */
  lemma KeptByAlpha(f: Machine, seed: Val, x: Operand, w: Operand, m: nat, n: nat, steps: nat)
    requires Lawful(f) && steps > 0
    ensures Bits(f, Mul(One, Chain(seed, x, w, m, n, 0, steps))) == Bits(f, Chain(seed, x, w, m, n, 0, steps))
  {
    assert Unscaled(f, Bits(f, At(x, m, steps - 1)), Bits(f, At(w, n, steps - 1)),
                    Bits(f, Chain(seed, x, w, m, n, 0, steps - 1)));
  }

  /** A kernel with slabs of `bk` shows the unpadded accumulator if bk divides K, and otherwise one padding step. */
  lemma WholeBits(f: Machine, x: Operand, w: Operand, bias: Seed, m: nat, n: nat, bk: nat)
    requires Lawful(f) && x.red == w.red > 0 && bk > 0 && (bias.Bias? ==> n < |bias.values|)
    ensures Bits(f, Value(Whole(bk), x, w, bias, m, n))
         == var acc := Unpadded(f, x, w, bias, m, n); if RoundUp(x.red, bk) == x.red then acc else ZeroStep(f, acc)
  {
    var pad := RoundUp(x.red, bk) - x.red;
    var acc := Unpadded(f, x, w, bias, m, n);
    PaddedBits(f, SeedAt(bias, n), x, w, m, n, x.red, pad);
    if pad > 0 { OneStepSettles(f, acc, pad); }
    KeptByAlpha(f, SeedAt(bias, n), x, w, m, n, x.red + pad);
  }

  lemma Paddings(a: nat)
    ensures RoundUp(a, 16) == a <==> a % 32 == 0 || a % 32 == 16
    ensures RoundUp(a, 32) == a <==> a % 32 == 0
  {
    TimesIs(DivCeil(a, 32), 32);
    TimesIs(DivCeil(a, 16), 16);
    var q, r := a / 32, a % 32;
    assert a == 32 * q + r;
    assert (a + 31) / 32 == if r == 0 then q else q + 1;
    assert (a + 15) / 16 == if r == 0 then 2 * q else if r <= 16 then 2 * q + 1 else 2 * q + 2;
  }

  /** Kernels with 16-deep and 32-deep slabs give the same bits unless K is 16 modulo 32; there they give the same
      bits if and only if one padding step leaves the accumulator as it is. */
  lemma SlabDepthShows(f: Machine, x: Operand, w: Operand, bias: Seed, m: nat, n: nat)
    requires Lawful(f) && x.red == w.red && (bias.Bias? ==> n < |bias.values|)
    ensures Bits(f, Value(Whole(16), x, w, bias, m, n)) == Bits(f, Value(Whole(32), x, w, bias, m, n))
       <==> x.red % 32 != 16
            || ZeroStep(f, Unpadded(f, x, w, bias, m, n)) == Unpadded(f, x, w, bias, m, n)
  {
    Paddings(x.red);
    if x.red == 0 {
      assert RoundUp(x.red, 16) == RoundUp(x.red, 32);
    } else {
      var acc := Unpadded(f, x, w, bias, m, n);
      var rest := x.red % 32;
      DepthBits(f, x, w, bias, m, n, 16, rest == 0 || rest == 16, acc);
      DepthBits(f, x, w, bias, m, n, 32, rest == 0, acc);
    }
  }

  lemma DepthBits(f: Machine, x: Operand, w: Operand, bias: Seed, m: nat, n: nat, bk: nat, exact: bool, acc: int)
    requires Lawful(f) && x.red == w.red > 0 && bk > 0 && (bias.Bias? ==> n < |bias.values|)
    requires exact == (RoundUp(x.red, bk) == x.red) && acc == Unpadded(f, x, w, bias, m, n)
    ensures Bits(f, Value(Whole(bk), x, w, bias, m, n)) == if exact then acc else ZeroStep(f, acc)
  {
    WholeBits(f, x, w, bias, m, n, bk);
  }

  // ---- the exception is real ----

  /** Signed zeros: 0 is +0, 1 is -0, 3 is the number one, everything else is some other number. */
  function ZeroFma(a: int, b: int, c: int): int {
    if c == 0 || c == 1 then
      (if (a == 0 || a == 1) && (b == 0 || b == 1) then (if a != b && c == 1 then 1 else 0) else 2)
    else c
  }

  const SIGNED_ZEROS := Machine((tag: nat, value: real) => tag, 0, 3, ZeroFma,
                                (a, b) => 2, (a, b) => if a == 3 then b else 2,
                                v => v, v => v, (a, b) => 2, (a, b) => 2, v => v, v => v, (acc, row, col) => 2)

  lemma SignedZerosLawful()
    ensures Lawful(SIGNED_ZEROS)
  {
    forall c: int ensures SettledBy(SIGNED_ZEROS, c) {}
    forall a: int, b: int, c: int ensures Unscaled(SIGNED_ZEROS, a, b, c) {}
  }

  /** Sixteen products of -0 and +0 on a bias of -0. */
  const MINUS := RawOperand(seq(16, _ => Input(1, 0.0)), 1, 16, 16, false, false)
  const PLUS := RawOperand(seq(16, _ => Input(0, 0.0)), 1, 16, 16, false, false)

  lemma MinusZeros()
    ensures MINUS.Valid() && PLUS.Valid()
    ensures forall r: nat :: r < 16 ==> At(MINUS, 0, r) == Input(1, 0.0) && At(PLUS, 0, r) == Input(0, 0.0)
  {
    assert Times(1, 16) == 16;
  }

  lemma {:induction false} StaysMinusZero(steps: nat)
    requires MINUS.Valid() && PLUS.Valid() && steps <= 16
    ensures Bits(SIGNED_ZEROS, Chain(Input(1, 0.0), MINUS, PLUS, 0, 0, 0, steps)) == 1
    decreases steps
  {
    MinusZeros();
    if steps > 0 { StaysMinusZero(steps - 1); }
  }

  /** At K = 16 the two depths can differ: the 16-deep kernel keeps a sum of -0, the 32-deep one returns +0. */
  lemma SixteenShows()
    ensures MINUS.Valid() && PLUS.Valid() && Lawful(SIGNED_ZEROS)
    ensures Bits(SIGNED_ZEROS, Value(Whole(16), MINUS, PLUS, Bias([Input(1, 0.0)]), 0, 0))
         != Bits(SIGNED_ZEROS, Value(Whole(32), MINUS, PLUS, Bias([Input(1, 0.0)]), 0, 0))
  {
    MinusZeros();
    SignedZerosLawful();
    StaysMinusZero(16);
    SlabDepthShows(SIGNED_ZEROS, MINUS, PLUS, Bias([Input(1, 0.0)]), 0, 0);
  }
}
