/** Machine values as terms. A value in device memory is the term of rounded operations that produced it,
    so two outputs that are the same term carry the same bits under every deterministic floating-point
    implementation, and nothing (not even fma(0, 0, c) == c) is assumed about those operations. */
module Terms {
  import opened Numerics

  datatype Val =
    | Input(tag: nat, value: real)          // caller data; `value` is the number it encodes
    | Zero                                  // +0
    | One                                   // the alpha every dispatcher passes
    | Fma(a: Val, b: Val, c: Val)           // __fmaf_rn(a, b, c)
    | Add(a: Val, b: Val)
    | Mul(a: Val, b: Val)
    | Wide(v: Val)                          // f32 -> f64
    | Narrow(v: Val)                        // f64 -> f32
    | AddWide(a: Val, b: Val)
    | MulWide(a: Val, b: Val)
    | Up(v: Val)                            // bf16/f16 -> f32
    | Down(v: Val)                          // f32 -> bf16/f16, round to nearest even
    | Mma16(acc: Val, row: seq<Val>, col: seq<Val>)  // one element of mma.m16n8k16

  /** The number a term denotes when every operation is exact. */
  function Exact(t: Val): real
    decreases t, 1
  {
    match t
    case Input(_, r) => r
    case Zero => 0.0
    case One => 1.0
    case Fma(_, _, c) => Factors(t) + Exact(c)
    case Add(a, b) => Exact(a) + Exact(b)
    case Mul(_, _) => Factors(t)
    case Wide(v) => Exact(v)
    case Narrow(v) => Exact(v)
    case AddWide(a, b) => Exact(a) + Exact(b)
    case MulWide(_, _) => Factors(t)
    case Up(v) => Exact(v)
    case Down(v) => Exact(v)
    case Mma16(acc, row, col) => Exact(acc) + ExactDot(t, Min(|row|, |col|))
  }

  /** The exact product of the two factors of a multiplication. */
  function Factors(t: Val): real
    requires t.Fma? || t.Mul? || t.MulWide?
    decreases t, 0
  {
    Exact(t.a) * Exact(t.b)
  }

  /** The exact product of two terms. */
  function Prod(a: Val, b: Val): real { Factors(Mul(a, b)) }

  /** The first `k` products of an mma step. */
  function ExactDot(t: Val, k: nat): real
    requires t.Mma16? && k <= |t.row| && k <= |t.col|
    decreases t, 0, k
  {
    if k == 0 then 0.0 else ExactDot(t, k - 1) + Exact(t.row[k - 1]) * Exact(t.col[k - 1])
  }

  /** An optional f32 bias vector; a null pointer is `NoBias`. */
  datatype Seed = NoBias | Bias(values: seq<Val>)

  /** What a kernel that folds the bias into the chain starts the accumulator of column `n` from. */
  function SeedAt(s: Seed, n: nat): Val {
    if s.Bias? && n < |s.values| then s.values[n] else Zero
  }

  /** What a kernel that adds the bias last returns. */
  function AddBias(v: Val, s: Seed, n: nat): Val
    requires s.Bias? ==> n < |s.values|
  {
    if s.Bias? then Add(v, s.values[n]) else v
  }

  /** How an epilogue combines the accumulator with the old contents of the output cell. */
  datatype Epilogue =
    | Overwrite        // C = alpha * acc
    | OverwriteHalf    // C = from_f(alpha * acc)
    | Accumulate       // C += alpha * acc
    | Raw              // partial = acc

  function Apply(e: Epilogue, old_: Val, acc: Val): Val {
    match e
    case Overwrite => Mul(One, acc)
    case OverwriteHalf => Down(Mul(One, acc))
    case Accumulate => Add(old_, Mul(One, acc))
    case Raw => acc
  }

  /** Sum of the exact values of a sequence. */
  function SumSeq(s: seq<Val>): real {
    if |s| == 0 then 0.0 else SumSeq(s[..|s| - 1]) + Exact(s[|s| - 1])
  }

  lemma SumSnoc(p: seq<Val>, k: nat)
    requires 0 < k <= |p|
    ensures SumSeq(p[..k]) == SumSeq(p[..k - 1]) + Exact(p[k - 1])
  {
    assert p[..k][..k - 1] == p[..k - 1];
  }

  lemma AddIsSum(a: Val, b: Val)
    ensures Exact(Add(a, b)) == Exact(a) + Exact(b) && Exact(AddWide(a, b)) == Exact(a) + Exact(b)
  {
  }

  lemma SameFactors(a: real, b: real, c: real, d: real)
    requires a == c && b == d
    ensures a * b == c * d
  {
  }

  lemma ZeroFactors(a: Val, b: Val)
    requires a == Zero || b == Zero
    ensures Prod(a, b) == 0.0
  {
    assert Exact(Zero) == 0.0;
  }

  lemma FmaFactors(a: Val, b: Val, c: Val)
    ensures Factors(Fma(a, b, c)) == Prod(a, b)
  {
  }

  lemma FmaIsSum(a: Val, b: Val, c: Val)
    ensures Exact(Fma(a, b, c)) == Prod(a, b) + Exact(c)
  {
    FmaFactors(a, b, c);
  }

  lemma {:induction false} SumSeqAppend(s: seq<Val>, t: seq<Val>)
    ensures SumSeq(s + t) == SumSeq(s) + SumSeq(t)
  {
    if |t| == 0 {
      assert s + t == s;
    } else {
      SumSeqAppend(s, t[..|t| - 1]);
      assert (s + t)[..|s + t| - 1] == s + t[..|t| - 1];
    }
  }

  /** One round of a halving tree: lane l takes lane l plus lane l + h. */
  function Halve(s: seq<Val>): (r: seq<Val>)
    requires |s| % 2 == 0
    ensures |r| == |s| / 2
    ensures forall l :: 0 <= l < |r| ==> r[l] == Add(s[l], s[l + |s| / 2])
  {
    seq(|s| / 2, l requires 0 <= l < |s| / 2 => Add(s[l], s[l + |s| / 2]))
  }

  lemma {:induction false} HalveKeepsSum(s: seq<Val>, h: nat, k: nat)
    requires |s| == h + h && k <= h
    ensures SumSeq(Halve(s)[..k]) == SumSeq(s[..k]) + SumSeq(s[h..][..k])
    decreases k
  {
    if k > 0 {
      HalveKeepsSum(s, h, k - 1);
      SumSnoc(Halve(s), k);
      SumSnoc(s, k);
      SumSnoc(s[h..], k);
      AddIsSum(s[k - 1], s[h..][k - 1]);
    }
  }

  /** The butterfly reduction of a warp, as its lane 0 sees it. */
  function Tree(s: seq<Val>): Val
    requires |s| in {1, 2, 4, 8, 16, 32}
    decreases |s|
  {
    if |s| == 1 then s[0] else Tree(Halve(s))
  }

  lemma Halves(s: seq<Val>, h: nat)
    requires |s| == h + h
    ensures s == s[..h] + s[h..] && s[h..][..h] == s[h..] && s[..|s|] == s
  {
  }

  lemma {:induction false} TreeIsSum(s: seq<Val>)
    requires |s| in {1, 2, 4, 8, 16, 32}
    ensures Exact(Tree(s)) == SumSeq(s)
    decreases |s|
  {
    if |s| == 1 {
      assert s[..0] == [];
    } else {
      var h := |s| / 2;
      TreeIsSum(Halve(s));
      HalveKeepsSum(s, h, h);
      assert Halve(s)[..h] == Halve(s);
      SumSeqAppend(s[..h], s[h..]);
      Halves(s, h);
    }
  }
}
