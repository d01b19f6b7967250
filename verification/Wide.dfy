// 128-bit values held as two 64-bit words, and their bits.
module Wide {
  const TWO64: nat := 0x1_0000_0000_0000_0000

  function Pow2(n: nat): (p: nat)
    ensures p > 0
  {
    if n == 0 then 1 else 2 * Pow2(n - 1)
  }

  // The number two words hold.
  function Joint(upper: nat, lower: nat): nat { upper * TWO64 + lower }

  predicate Word(w: int) { 0 <= w < TWO64 }

  function Bit(w: nat, k: nat): nat { (w / Pow2(k)) % 2 }

  // w | (1 << k)
  function SetBit(w: nat, k: nat): nat { if Bit(w, k) == 1 then w else w + Pow2(k) }

  lemma Product(a: int, b: int, c: int)
    ensures a * (b * c) == (a * b) * c && a * (b + c) == a * b + a * c
  {
  }

  lemma Below(a: nat, b: nat, c: nat)
    requires a < b
    ensures a * c + c <= b * c
  {
    var d := b - a - 1;
    assert d * c >= 0;
    assert b * c == (a + 1 + d) * c == a * c + c + d * c;
  }

  // The quotient is the only number that leaves a remainder in range.
  lemma Quotient(n: nat, d: nat, k: nat, m: nat)
    requires d > 0 && n == d * k + m && m < d
    ensures n / d == k && n % d == m
  {
    var q := n / d;
    if q > k {
      Below(k, q, d);
    } else if q < k {
      Below(q, k, d);
    }
  }

  lemma DivideTwice(n: nat, a: nat, b: nat)
    requires a > 0 && b > 0
    ensures a * b > 0 && n / (a * b) == (n / a) / b
  {
    var q, r := n / a, n % a;
    var k, m := q / b, q % b;
    Product(a, b, k);
    Product(a, b * k, m);
    Below(m, b, a);
    assert n == (a * b) * k + (a * m + r);
    assert a * m + r < a * b;
    Quotient(n, a * b, k, a * m + r);
  }

  lemma {:induction false} Pow2Sum(a: nat, b: nat)
    ensures Pow2(a + b) == Pow2(a) * Pow2(b)
  {
    if a > 0 {
      Pow2Sum(a - 1, b);
      Product(2, Pow2(a - 1), Pow2(b));
    }
  }

  lemma Pow2Of64()
    ensures Pow2(64) == TWO64
  {
    assert Pow2(8) == 256;
    Pow2Sum(8, 8);
    Pow2Sum(16, 16);
    Pow2Sum(32, 32);
  }

  // One more bit of a number.
  lemma NextBit(n: nat, b: nat)
    ensures n / Pow2(b) == 2 * (n / Pow2(b + 1)) + Bit(n, b)
  {
    DivideTwice(n, Pow2(b), 2);
  }

  // The bits of a pair are the bits of its words.
  lemma JointBit(upper: nat, lower: nat, b: nat)
    requires lower < TWO64
    ensures Bit(Joint(upper, lower), b) == if b >= 64 then Bit(upper, b - 64) else Bit(lower, b)
  {
    if b >= 64 {
      UpperBit(upper, lower, b);
    } else {
      LowerBit(upper, lower, b);
    }
  }

  lemma UpperBit(upper: nat, lower: nat, b: nat)
    requires lower < TWO64 && b >= 64
    ensures Bit(Joint(upper, lower), b) == Bit(upper, b - 64)
  {
    Pow2Of64();
    Pow2Sum(64, b - 64);
    DivideTwice(Joint(upper, lower), TWO64, Pow2(b - 64));
  }

  // Bits below a word's width do not see the words above.
  lemma EvenAbove(upper: nat, lower: nat, t: nat, p: nat, h: nat)
    requires p > 0 && t == p * (2 * h)
    ensures ((upper * t + lower) / p) % 2 == (lower / p) % 2
  {
    var more := upper * (2 * h);
    Regroup(upper, p, 2 * h);
    Evens(upper, h);
    Shifted(lower, p, more);
  }

  lemma Regroup(a: nat, b: nat, c: nat)
    ensures a * (b * c) == b * (a * c)
  {
    assert a * (b * c) == (a * b) * c == (b * a) * c == b * (a * c);
  }

  lemma Evens(a: nat, h: nat)
    ensures a * (2 * h) == 2 * (a * h)
  {
  }

  lemma Shifted(l: nat, p: nat, more: nat)
    requires p > 0
    ensures (p * more + l) / p == more + l / p
  {
    Product(p, more, l / p);
    Quotient(p * more + l, p, more + l / p, l % p);
  }

  lemma RoomAbove(w: nat, t: nat, p: nat, h: nat)
    requires p > 0 && w < t && t == p * (2 * h) && (w / p) % 2 == 0
    ensures w + p < t
  {
    var q := w / p;
    assert w == q * p + w % p;
    if q >= 2 * h {
      assert q * p >= (2 * h) * p by {
        if q > 2 * h {
          Below(2 * h, q, p);
        }
      }
    } else {
      Below(q + 1, 2 * h, p);
      assert (q + 1) * p == q * p + p;
    }
  }

  lemma WordParts(k: nat)
    requires k < 64
    ensures TWO64 == Pow2(k) * (2 * Pow2(63 - k))
  {
    Pow2Of64();
    Pow2Sum(k, 64 - k);
  }

  lemma LowerBit(upper: nat, lower: nat, b: nat)
    requires b < 64
    ensures Bit(Joint(upper, lower), b) == Bit(lower, b)
  {
    WordParts(b);
    EvenAbove(upper, lower, TWO64, Pow2(b), Pow2(63 - b));
  }

  // Setting an unset bit of a word keeps it a word.
  lemma SetBitFits(w: nat, k: nat)
    requires w < TWO64 && k < 64 && Bit(w, k) == 0
    ensures SetBit(w, k) == w + Pow2(k) < TWO64
  {
    WordParts(k);
    RoomAbove(w, TWO64, Pow2(k), Pow2(63 - k));
  }
}
