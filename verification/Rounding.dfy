/** Terms read as rounded real numbers: every f32 and every 16-bit operation rounds once, f64 operations are exact.
    In this reading the split-M reducer rounds a single time. */
module Rounding {
  import opened Numerics
  import opened Terms
  import opened Operands
  import opened Plans

  /** How results are rounded to f32 and to a 16-bit format. */
  datatype Modes = Modes(f32: real -> real, half: real -> real)

  function Rounded(q: Modes, t: Val): real
    decreases t, 1
  {
    match t
    case Input(_, r) => r
    case Zero => 0.0
    case One => 1.0
    case Fma(_, _, c) => q.f32(RoundedFactors(q, t) + Rounded(q, c))
    case Add(a, b) => q.f32(Rounded(q, a) + Rounded(q, b))
    case Mul(_, _) => q.f32(RoundedFactors(q, t))
    case Wide(v) => Rounded(q, v)
    case Narrow(v) => q.f32(Rounded(q, v))
    case AddWide(a, b) => Rounded(q, a) + Rounded(q, b)
    case MulWide(_, _) => RoundedFactors(q, t)
    case Up(v) => Rounded(q, v)
    case Down(v) => q.half(Rounded(q, v))
    case Mma16(acc, row, col) => q.f32(Rounded(q, acc) + RoundedDot(q, t, Min(|row|, |col|)))
  }

  /** The unrounded product of the two factors of a multiplication. */
  function RoundedFactors(q: Modes, t: Val): real
    requires t.Fma? || t.Mul? || t.MulWide?
    decreases t, 0
  {
    Rounded(q, t.a) * Rounded(q, t.b)
  }

  function RoundedDot(q: Modes, t: Val, k: nat): real
    requires t.Mma16? && k <= |t.row| && k <= |t.col|
    decreases t, 0, k
  {
    if k == 0 then 0.0 else RoundedDot(q, t, k - 1) + Rounded(q, t.row[k - 1]) * Rounded(q, t.col[k - 1])
  }

  lemma {:induction false} WideSumIsExact(q: Modes, x: Operand, w: Operand, m: nat, n: nat, chunk: nat, bk: nat,
                                          totals: seq<real>, f: nat)
    requires x.red == w.red && bk > 0 && chunk > 0 && 0 < f <= DivCeil(x.red, chunk) && |totals| > f && totals[0] == 0.0
    requires forall g :: 0 <= g < f ==> totals[g + 1] == totals[g] + Rounded(q, Piece(x, w, m, n, chunk, x.red, bk, g))
    ensures Rounded(q, PieceSumWide(x, w, m, n, chunk, x.red, bk, f)) == totals[f]
    decreases f
  {
    assert totals[f - 1 + 1] == totals[f - 1] + Rounded(q, Piece(x, w, m, n, chunk, x.red, bk, f - 1));
    if f > 1 { WideSumIsExact(q, x, w, m, n, chunk, bk, totals, f - 1); }
  }

  lemma OneTimes(q: Modes, v: Val)
    ensures Rounded(q, MulWide(Wide(One), v)) == Rounded(q, v)
  {
    var t := MulWide(Wide(One), v);
    assert Rounded(q, Wide(One)) == 1.0;
    assert RoundedFactors(q, t) == Rounded(q, v);
  }

  /** The split-M route rounds the exact sum of its f32 partials once. */
  lemma SplitMRoundsOnce(q: Modes, x: Operand, w: Operand, m: nat, n: nat, chunk: nat, bk: nat, totals: seq<real>)
    requires x.red == w.red > 0 && bk > 0 && chunk > 0
    requires |totals| == DivCeil(x.red, chunk) + 1 && totals[0] == 0.0
    requires forall f :: 0 <= f < |totals| - 1 ==>
      totals[f + 1] == totals[f] + Rounded(q, Piece(x, w, m, n, chunk, x.red, bk, f))
    ensures Rounded(q, Value(SplitWide(chunk, bk), x, w, NoBias, m, n)) == q.f32(totals[|totals| - 1])
  {
    var sum := PieceSumWide(x, w, m, n, chunk, x.red, bk, |totals| - 1);
    WideSumIsExact(q, x, w, m, n, chunk, bk, totals, |totals| - 1);
    OneTimes(q, sum);
    SplitWideValue(chunk, bk, x, w, m, n);
  }
}
