/** The word operators of the simulator, bit by bit: what `&`, `|`, `^`, `~`, `<<` and `>>`
    mean on 64-bit words, against the arithmetic that defines them in Simulate. */
module Words {
  import opened Ast
  import opened Simulate

  /** Bit `k` of `x`. */
  predicate Bit(x: nat, k: nat)
    decreases k
  {
    if k == 0 then x % 2 == 1 else Bit(x / 2, k - 1)
  }

  lemma PowOfWord()
    ensures Pow2(64) == M
  {
    assert Pow2(4) == 16;
    PowAdd(4, 4);
    PowAdd(8, 8);
    PowAdd(16, 16);
    PowAdd(32, 32);
  }

  lemma {:induction false} PowAdd(a: nat, b: nat)
    ensures Pow2(a + b) == Pow2(a) * Pow2(b)
  {
    if a > 0 {
      PowAdd(a - 1, b);
    }
  }

  lemma {:induction false} BitwiseFits(f: (bool, bool) -> bool, l: nat, r: nat, n: nat)
    ensures Bitwise(f, l, r, n) < Pow2(n)
  {
    if n > 0 {
      BitwiseFits(f, l / 2, r / 2, n - 1);
    }
  }

  lemma {:induction false} BitwiseAt(f: (bool, bool) -> bool, l: nat, r: nat, n: nat, k: nat)
    requires k < n
    ensures Bit(Bitwise(f, l, r, n), k) == f(Bit(l, k), Bit(r, k))
    decreases n
  {
    var rest := Bitwise(f, l / 2, r / 2, n - 1);
    assert Bitwise(f, l, r, n) / 2 == rest;
    if k > 0 {
      BitwiseAt(f, l / 2, r / 2, n - 1, k - 1);
    }
  }

  /** `&`, `|` and `^` work on each bit by itself. */
  lemma BitsOfLogic(h: Host, l: U64, r: U64, k: nat)
    requires k < 64
    ensures Bit(BinValue(h, And, l, r), k) == (Bit(l, k) && Bit(r, k))
    ensures Bit(BinValue(h, Or, l, r), k) == (Bit(l, k) || Bit(r, k))
    ensures Bit(BinValue(h, Xor, l, r), k) == (Bit(l, k) != Bit(r, k))
  {
    hide Bitwise, Bit, Pow2;
    PowOfWord();
    BitwiseFits(Both, l, r, 64);
    BitwiseFits(Either, l, r, 64);
    BitwiseFits(JustOne, l, r, 64);
    BitwiseAt(Both, l, r, 64, k);
    BitwiseAt(Either, l, r, 64, k);
    BitwiseAt(JustOne, l, r, 64, k);
  }

  lemma {:induction false} BitsOfComplement(v: nat, n: nat, k: nat)
    requires v < Pow2(n) && k < n
    ensures Bit(Pow2(n) - 1 - v, k) == !Bit(v, k)
    decreases n
  {
    assert (Pow2(n) - 1 - v) / 2 == Pow2(n - 1) - 1 - v / 2;
    if k > 0 {
      BitsOfComplement(v / 2, n - 1, k - 1);
    }
  }

  /** `~` turns every bit over. */
  lemma BitsOfInv(v: U64, k: nat)
    requires k < 64
    ensures Bit(UnValue(Inv, v), k) == !Bit(v, k)
  {
    PowOfWord();
    BitsOfComplement(v, 64, k);
  }

  lemma QuotientIs(x: nat, d: nat, q: nat)
    requires d > 0 && q * d <= x < q * d + d
    ensures x / d == q && x % d == x - q * d
  {
    var e := x / d;
    DivMod(x, d);
    if e < q {
      MulStep(e, q, d);
    } else if q < e {
      MulStep(q, e, d);
    }
  }

  lemma DivMod(x: nat, d: nat)
    requires d > 0
    ensures x == x / d * d + x % d
  {
  }

  lemma MulStep(a: nat, b: nat, d: nat)
    requires a < b
    ensures a * d + d <= b * d
  {
    assert b * d == a * d + d + (b - a - 1) * d;
  }

  /** Halving first or last is the same for quotients and remainders by 2p. */
  lemma Halves(x: nat, p: nat)
    requires p > 0
    ensures Quotient(x, 2 * p) == Quotient(x / 2, p)
    ensures Remainder(x, 2 * p) / 2 == Remainder(x / 2, p) && Remainder(x, 2 * p) % 2 == x % 2
  {
    var q := x / 2 / p;
    assert x / 2 == q * p + x / 2 % p;
    var d := q * (2 * p);
    assert d == 2 * (q * p);
    QuotientIs(x, 2 * p, q);
  }

  lemma {:induction false} BitsOfQuotient(x: nat, s: nat, k: nat)
    ensures Quotient(x, Pow2(s)) <= x && Bit(Quotient(x, Pow2(s)), k) == Bit(x, k + s)
    decreases s
  {
    if s > 0 {
      hide Quotient;
      PowPositive(s - 1);
      Halves(x, Pow2(s - 1));
      BitsOfQuotient(x / 2, s - 1, k);
    }
  }

  lemma {:induction false} HighBitsAreClear(x: nat, n: nat, k: nat)
    requires x < Pow2(n) && k >= n
    ensures !Bit(x, k)
    decreases k
  {
    if k > 0 {
      if n > 0 {
        HighBitsAreClear(x / 2, n - 1, k - 1);
      } else {
        HighBitsAreClear(0, 0, k - 1);
      }
    }
  }

  /** `>>` by less than 64 moves every bit down and fills with zeros. */
  lemma BitsOfShr(h: Host, l: U64, r: U64, k: nat)
    requires r < 64 && k < 64
    ensures Bit(BinValue(h, Shr, l, r), k) == (k + r < 64 && Bit(l, k + r))
  {
    hide Bit, Pow2;
    PowOfWord();
    PowPositive(r);
    BitsOfQuotient(l, r, k);
    if k + r >= 64 {
      HighBitsAreClear(l, 64, k + r);
    }
  }

  lemma {:induction false} BitsOfRemainder(x: nat, n: nat, k: nat)
    requires k < n
    ensures Bit(Remainder(x, Pow2(n)), k) == Bit(x, k)
    decreases n
  {
    hide Remainder;
    PowPositive(n - 1);
    Halves(x, Pow2(n - 1));
    if k > 0 {
      BitsOfRemainder(x / 2, n - 1, k - 1);
    }
  }

  lemma {:induction false} PowPositive(n: nat)
    ensures Pow2(n) > 0
  {
    if n > 0 {
      PowPositive(n - 1);
    }
  }

  lemma {:induction false} BitsOfProduct(x: nat, s: nat, k: nat)
    ensures Bit(Product(x, Pow2(s)), k) == (k >= s && Bit(x, k - s))
    decreases s
  {
    if s > 0 {
      var p, half := Pow2(s - 1), Product(x, Pow2(s - 1));
      assert x * (2 * p) == 2 * (x * p);
      assert Product(x, Pow2(s)) == 2 * half;
      if k > 0 {
        BitsOfProduct(x, s - 1, k - 1);
      }
    }
  }

  /** `<<` by less than 64 moves every bit up, fills with zeros and drops what leaves the
      word. */
  lemma BitsOfShl(h: Host, l: U64, r: U64, k: nat)
    requires r < 64 && k < 64
    ensures Bit(BinValue(h, Shl, l, r), k) == (k >= r && Bit(l, k - r))
  {
    hide Bit, Pow2, Product;
    PowOfWord();
    BitsOfProduct(l, r, k);
    BitsOfRemainder(Product(l, Pow2(r)), 64, k);
  }

  /** Two words with the same 64 bits are the same, so the lemmas above pin every
      operator down. */
  lemma {:induction false} BitsDecide(x: nat, y: nat, n: nat)
    requires x < Pow2(n) && y < Pow2(n)
    requires forall k :: 0 <= k < n ==> Bit(x, k) == Bit(y, k)
    ensures x == y
    decreases n
  {
    if n > 0 {
      forall k | 0 <= k < n - 1
        ensures Bit(x / 2, k) == Bit(y / 2, k)
      {
        assert Bit(x, k + 1) == Bit(y, k + 1);
      }
      assert Bit(x, 0) == Bit(y, 0);
      BitsDecide(x / 2, y / 2, n - 1);
    }
  }

  // ===== the other operators =====

  /** Addition, subtraction, multiplication and negation are right modulo 2^64. */
  lemma ArithmeticWraps(h: Host, l: U64, r: U64)
    ensures (BinValue(h, Add, l, r) - (l + r)) % 0x1_0000_0000_0000_0000 == 0
    ensures (BinValue(h, Sub, l, r) - (l as int - r as int)) % 0x1_0000_0000_0000_0000 == 0
    ensures (BinValue(h, Mul, l, r) - l * r) % 0x1_0000_0000_0000_0000 == 0
    ensures (UnValue(Neg, l) + l) % 0x1_0000_0000_0000_0000 == 0
  {
    hide Product;
    WrapAgrees(l as int + r as int);
    WrapAgrees(l as int - r as int);
    assert Product(l, r) == l * r by { ProductIs(l, r); }
    WrapAgrees(l * r);
    WrapAgrees(0 - l as int);
  }

  lemma ProductIs(l: nat, r: nat)
    ensures Product(l, r) == l * r
  {
  }

  lemma WrapAgrees(x: int)
    ensures (Wrap(x) - x) % 0x1_0000_0000_0000_0000 == 0
  {
    var q := x / M;
    assert x == q * M + x % M;
    MultipleIsNothing(-q);
  }

  lemma {:induction false} MultipleIsNothing(q: int)
    ensures (q * M) % M == 0
    decreases if q < 0 then -q else q
  {
    if q > 0 {
      MultipleIsNothing(q - 1);
      assert q * M == (q - 1) * M + M;
    } else if q < 0 {
      MultipleIsNothing(q + 1);
      assert q * M == (q + 1) * M - M;
    }
  }

  /** Division and remainder: `l` is that many times `r`, and the remainder, which is less
      than `r`; by zero both are zero. */
  lemma DivisionIs(h: Host, l: U64, r: U64)
    ensures r > 0 ==>
      var q, m := BinValue(h, Div, l, r), BinValue(h, Mod, l, r);
      l == q * r + m && m < r
    ensures r == 0 ==> BinValue(h, Div, l, r) == 0 && BinValue(h, Mod, l, r) == 0
  {
    if r > 0 {
      DivMod(l, r);
      QuotientFits(l, r);
    }
  }

  lemma {:induction false} TimesAtLeast(q: nat, r: nat)
    requires r > 0
    ensures q * r >= q
  {
    if q > 0 {
      TimesAtLeast(q - 1, r);
      assert q * r == (q - 1) * r + r;
    }
  }

  lemma QuotientFits(l: nat, r: nat)
    requires r > 0
    ensures l / r <= l
  {
    DivMod(l, r);
    TimesAtLeast(l / r, r);
  }

  /** A shift by 64 or more is whatever the host makes of it. */
  lemma FarShifts(h: Host, l: U64, r: U64)
    requires r >= 64
    ensures BinValue(h, Shl, l, r) == h(Shl, l, r) && BinValue(h, Shr, l, r) == h(Shr, l, r)
  {
  }

  /** Comparisons and logic give 1 where they hold and 0 where not. */
  lemma TruthIs(h: Host, l: U64, r: U64)
    ensures BinValue(h, Eq, l, r) == (if l == r then 1 else 0) && BinValue(h, Neq, l, r) == (if l == r then 0 else 1)
    ensures BinValue(h, Lt, l, r) == (if l < r then 1 else 0) && BinValue(h, Ge, l, r) == (if l < r then 0 else 1)
    ensures BinValue(h, Gt, l, r) == (if r < l then 1 else 0) && BinValue(h, Le, l, r) == (if r < l then 0 else 1)
    ensures BinValue(h, Land, l, r) == (if l == 0 || r == 0 then 0 else 1)
    ensures BinValue(h, Lor, l, r) == (if l == 0 && r == 0 then 0 else 1)
    ensures UnValue(Not, l) == (if l == 0 then 1 else 0)
  {
  }
}
