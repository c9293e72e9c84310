/**
 64-bit words as natural numbers below 2^64, with the machine's bitwise operations defined bit
 by bit.
 */
module Words {
  function Pow2(n: nat): (p: nat)
    ensures p >= 1
  {
    if n == 0 then 1 else 2 * Pow2(n - 1)
  }

  predicate IsWord(w: nat) {
    w < Pow2(64)
  }

  predicate Bit(w: int, i: nat)
    decreases i
  {
    if i == 0 then w % 2 == 1 else Bit(w / 2, i - 1)
  }

  lemma FourUp(word: int, n: nat)
    ensures Bit(word, n + 4) <==> Bit(word / 16, n)
  {
    assert Bit(word, n + 4) <==> Bit(word / 2, n + 3);
    assert Bit(word / 2, n + 3) <==> Bit(word / 4, n + 2);
    assert Bit(word / 4, n + 2) <==> Bit(word / 8, n + 1);
  }

  function Or(a: nat, b: nat): nat {
    if a == 0 && b == 0 then 0 else (if a % 2 == 1 || b % 2 == 1 then 1 else 0) + 2 * Or(a / 2, b / 2)
  }

  function And(a: nat, b: nat): nat {
    if a == 0 && b == 0 then 0 else (if a % 2 == 1 && b % 2 == 1 then 1 else 0) + 2 * And(a / 2, b / 2)
  }

  function Xor(a: nat, b: nat): nat {
    if a == 0 && b == 0 then 0 else (if a % 2 != b % 2 then 1 else 0) + 2 * Xor(a / 2, b / 2)
  }

  /** The complement within 64 bits. */
  function Not(w: nat): nat
    requires IsWord(w)
  {
    Pow2(64) - 1 - w
  }

  /** Shift left by `k`, keeping 64 bits. */
  function Shl(w: nat, k: nat): nat {
    Scale(w, k) % Pow2(64)
  }

  function Scale(w: nat, k: nat): nat
    decreases k
  {
    if k == 0 then w else 2 * Scale(w, k - 1)
  }

  /** Number of set bits among the lowest `n`. */
  function CountBits(w: nat, n: nat): nat {
    if n == 0 then 0 else CountBits(w, n - 1) + if Bit(w, n - 1) then 1 else 0
  }

  /** std::popcount. */
  function PopCount(w: nat): nat {
    CountBits(w, 64)
  }

  // ---------- bits of the operations ----------

  lemma {:induction false} ZeroBit(i: nat)
    ensures !Bit(0, i)
    decreases i
  {
    if i > 0 { ZeroBit(i - 1); }
  }

  lemma OrHalf(a: nat, b: nat)
    ensures Or(a, b) / 2 == Or(a / 2, b / 2) && (Or(a, b) % 2 == 1 <==> a % 2 == 1 || b % 2 == 1)
  {
  }

  lemma AndHalf(a: nat, b: nat)
    ensures And(a, b) / 2 == And(a / 2, b / 2) && (And(a, b) % 2 == 1 <==> a % 2 == 1 && b % 2 == 1)
  {
  }

  lemma XorHalf(a: nat, b: nat)
    ensures Xor(a, b) / 2 == Xor(a / 2, b / 2) && (Xor(a, b) % 2 == 1 <==> (a % 2 == 1) != (b % 2 == 1))
  {
  }

  lemma {:induction false} OrBit(a: nat, b: nat, i: nat)
    ensures Bit(Or(a, b), i) <==> Bit(a, i) || Bit(b, i)
    decreases i
  {
    OrHalf(a, b);
    if i > 0 { OrBit(a / 2, b / 2, i - 1); }
  }

  lemma {:induction false} AndBit(a: nat, b: nat, i: nat)
    ensures Bit(And(a, b), i) <==> Bit(a, i) && Bit(b, i)
    decreases i
  {
    AndHalf(a, b);
    if i > 0 { AndBit(a / 2, b / 2, i - 1); }
  }

  lemma {:induction false} XorBit(a: nat, b: nat, i: nat)
    ensures Bit(Xor(a, b), i) <==> Bit(a, i) != Bit(b, i)
    decreases i
  {
    XorHalf(a, b);
    if i > 0 { XorBit(a / 2, b / 2, i - 1); }
  }

  /** Complement within `n` bits. */
  lemma {:induction false} ComplementBit(w: nat, n: nat, i: nat)
    requires w < Pow2(n) && i < n
    ensures Bit(Pow2(n) - 1 - w, i) <==> !Bit(w, i)
    decreases n
  {
    assert (Pow2(n) - 1 - w) / 2 == Pow2(n - 1) - 1 - w / 2;
    if i > 0 { ComplementBit(w / 2, n - 1, i - 1); }
  }

  lemma NotBit(w: nat, i: nat)
    requires IsWord(w) && i < 64
    ensures IsWord(Not(w)) && (Bit(Not(w), i) <==> !Bit(w, i))
  {
    ComplementBit(w, 64, i);
  }

  lemma {:induction false} LowBits(n: nat, i: nat)
    ensures Bit(Pow2(n) - 1, i) <==> i < n
    decreases n
  {
    if n == 0 {
      ZeroBit(i);
    } else {
      assert (Pow2(n) - 1) / 2 == Pow2(n - 1) - 1;
      if i > 0 { LowBits(n - 1, i - 1); }
    }
  }

  lemma {:induction false} ScaleBit(w: nat, k: nat, i: nat)
    ensures Bit(Scale(w, k), i) <==> k <= i && Bit(w, i - k)
    decreases k
  {
    if k > 0 {
      assert Scale(w, k) / 2 == Scale(w, k - 1);
      if i > 0 { ScaleBit(w, k - 1, i - 1); }
    }
  }

  // ---------- words stay words ----------

  lemma {:induction false} OpsBelow(a: nat, b: nat, n: nat)
    requires a < Pow2(n) && b < Pow2(n)
    ensures Or(a, b) < Pow2(n) && And(a, b) < Pow2(n) && Xor(a, b) < Pow2(n)
    decreases n
  {
    if n > 0 { OpsBelow(a / 2, b / 2, n - 1); }
  }

  lemma {:induction false} ScaleBelow(w: nat, n: nat, k: nat)
    requires w < Pow2(n)
    ensures Scale(w, k) < Pow2(n + k)
    decreases k
  {
    if k > 0 { ScaleBelow(w, n, k - 1); }
  }

  lemma {:induction false} Pow2Grows(m: nat, n: nat)
    requires m <= n
    ensures Pow2(m) <= Pow2(n)
    decreases n
  {
    if m < n { Pow2Grows(m, n - 1); }
  }

  // ---------- masks ----------

  /** The mask of the update loop: `span` bits from `bit` on. */
  function SpanMask(bit: nat, span: nat): nat {
    Shl(if span == 64 then Pow2(64) - 1 else Pow2(span) - 1, bit)
  }

  lemma SpanMaskBits(bit: nat, span: nat, i: nat)
    requires 1 <= span && bit + span <= 64
    ensures IsWord(SpanMask(bit, span)) && (Bit(SpanMask(bit, span), i) <==> bit <= i < bit + span)
  {
    var low := Pow2(span) - 1;
    ScaleBelow(low, span, bit);
    Pow2Grows(span + bit, 64);
    Unwrapped(Scale(low, bit), Pow2(64));
    ScaleBit(low, bit, i);
    if bit <= i { LowBits(span, i - bit); }
  }

  lemma Unwrapped(v: nat, m: nat)
    requires v < m
    ensures v % m == v
  {
  }
}
