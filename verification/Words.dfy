/** Arithmetic of 32-bit words: exclusive or, unsigned right shifts, and multiplication with
    wrap-around, on the numbers that the bits stand for. */
module Words {
  /** The unsigned number that 32 bits stand for. */
  type Word = n: nat | n < 0x1_0000_0000

  /** Exclusive or, bit by bit. */
  function Xor(a: nat, b: nat): nat {
    if a == 0 && b == 0 then 0 else 2 * Xor(a / 2, b / 2) + (a % 2 + b % 2) % 2
  }

  lemma Bit(q: nat, r: nat)
    requires r < 2
    ensures (2 * q + r) / 2 == q && (2 * q + r) % 2 == r
  {
  }

  lemma XorParts(a: nat, b: nat)
    ensures Xor(a, b) / 2 == Xor(a / 2, b / 2) && Xor(a, b) % 2 == (a % 2 + b % 2) % 2
  {
    Bit(Xor(a / 2, b / 2), (a % 2 + b % 2) % 2);
  }

  lemma Halves(a: nat, b: nat)
    requires a / 2 == b / 2 && a % 2 == b % 2
    ensures a == b
  {
  }

  lemma {:induction false} XorAssoc(a: nat, b: nat, c: nat)
    ensures Xor(Xor(a, b), c) == Xor(a, Xor(b, c))
    decreases a + b + c
  {
    assert Xor(0, 0) == 0;
    if a + b + c > 0 {
      hide Xor;
      XorAssoc(a / 2, b / 2, c / 2);
      XorHalves(a, b, c);
      XorBits(a, b, c);
      Halves(Xor(Xor(a, b), c), Xor(a, Xor(b, c)));
    }
  }

  lemma XorHalves(a: nat, b: nat, c: nat)
    ensures Xor(Xor(a, b), c) / 2 == Xor(Xor(a / 2, b / 2), c / 2)
    ensures Xor(a, Xor(b, c)) / 2 == Xor(a / 2, Xor(b / 2, c / 2))
  {
    hide Xor;
    XorParts(a, b);
    XorParts(b, c);
    XorParts(Xor(a, b), c);
    XorParts(a, Xor(b, c));
  }

  lemma XorBits(a: nat, b: nat, c: nat)
    ensures Xor(Xor(a, b), c) % 2 == Xor(a, Xor(b, c)) % 2
  {
    hide Xor;
    XorParts(a, b);
    XorParts(b, c);
    XorParts(Xor(a, b), c);
    XorParts(a, Xor(b, c));
    assert ((a % 2 + b % 2) % 2 + c % 2) % 2 == (a % 2 + (b % 2 + c % 2) % 2) % 2;
  }

  lemma {:induction false} XorSelf(a: nat)
    ensures Xor(a, a) == 0 && Xor(a, 0) == a && Xor(0, a) == a
  {
    if a > 0 { XorSelf(a / 2); }
  }

  lemma {:induction false} XorWithin(a: nat, b: nat, bound: nat, k: nat)
    requires bound == Power(k) && a < bound && b < bound
    ensures Xor(a, b) < bound
    decreases k
  {
    if k > 0 { XorWithin(a / 2, b / 2, bound / 2, k - 1); }
  }

  function Power(k: nat): nat { if k == 0 then 1 else 2 * Power(k - 1) }

  /** A right shift. */
  function Shift(a: nat, k: nat): nat { if k == 0 then a else Shift(a / 2, k - 1) }

  lemma {:induction false} ShiftXor(a: nat, b: nat, k: nat)
    ensures Shift(Xor(a, b), k) == Xor(Shift(a, k), Shift(b, k))
    decreases k
  {
    if k > 0 {
      XorParts(a, b);
      ShiftXor(a / 2, b / 2, k - 1);
    }
  }

  lemma {:induction false} ShiftTwice(a: nat, j: nat, k: nat)
    ensures Shift(Shift(a, j), k) == Shift(a, j + k)
    decreases j
  {
    if j > 0 { ShiftTwice(a / 2, j - 1, k); }
  }

  lemma {:induction false} ShiftOut(a: nat, k: nat)
    requires a < Power(k)
    ensures Shift(a, k) == 0
    decreases k
  {
    if k > 0 { ShiftOut(a / 2, k - 1); }
  }

  lemma {:induction false} ShiftLess(a: nat, k: nat)
    ensures Shift(a, k) <= a
    decreases k
  {
    if k > 0 { ShiftLess(a / 2, k - 1); }
  }

  lemma Power32()
    ensures Power(32) == 0x1_0000_0000
  {
    assert Power(8) == 256;
    assert Power(16) == 65536;
    assert Power(24) == 16777216;
  }

  function Times(x: nat): Word { x * 16777619 % 0x1_0000_0000 }
  function Divide(x: nat): Word { x * 899433627 % 0x1_0000_0000 }

  lemma ModTimes(x: nat, c: nat, m: nat)
    requires m > 0
    ensures (x % m) * c % m == x * c % m
  {
    var q := x / m;
    assert x == q * m + x % m;
    assert x * c == (q * c) * m + (x % m) * c;
    ModAdd(q * c, (x % m) * c, m);
  }

  lemma ModAdd(q: nat, y: nat, m: nat)
    requires m > 0
    ensures (q * m + y) % m == y % m
  {
    if q > 0 { ModAdd(q - 1, y, m); assert q * m + y == ((q - 1) * m + y) + m; AddMod((q - 1) * m + y, m);}
  }

  lemma AddMod(y: nat, m: nat)
    requires m > 0
    ensures (y + m) % m == y % m
  {
    ModUnique(y / m + 1, y % m, (y + m) / m, (y + m) % m, m);
  }

  lemma AtLeast(n: nat, m: nat)
    requires n > 0
    ensures n * m >= m
  {
  }

  lemma ModUnique(q: nat, r: nat, d: nat, e: nat, m: nat)
    requires r < m && e < m && q * m + r == d * m + e
    ensures r == e
  {
    if q < d { AtLeast(d - q, m); }
    if d < q { AtLeast(q - d, m); }
  }

  lemma Inverses(x: Word)
    ensures Divide(Times(x)) == x && Times(Divide(x)) == x
  {
    var m := 0x1_0000_0000;
    ModTimes(x * 16777619, 899433627, m);
    ModTimes(x * 899433627, 16777619, m);
    var k := 16777619 * 899433627 / m;
    assert 16777619 * 899433627 == k * m + 1;
    assert x * 16777619 * 899433627 == (x * k) * m + x;
    assert x * 899433627 * 16777619 == (x * k) * m + x;
    ModAdd(x * k, x, m);
  }

  lemma ZeroTimes(x: Word)
    ensures Times(x) == 0 <==> x == 0
  {
    Inverses(x);
    Inverses(0);
  }

  /** Only equal numbers cancel out. */
  lemma ZeroXor(a: nat, b: nat)
    ensures Xor(a, b) == 0 <==> a == b
  {
    hide Xor;
    XorSelf(a);
    XorSelf(b);
    XorAssoc(a, b, b);
  }

  /** A short second operand changes low bits only. */
  lemma {:induction false} XorLow(q: nat, x: nat, y: nat, k: nat)
    requires x < Power(k) && y < Power(k)
    ensures Xor(Power(k) * q + x, y) == Power(k) * q + Xor(x, y)
    decreases k
  {
    if k == 0 {
      XorSelf(q);
    } else {
      var p := Power(k - 1);
      assert Power(k) * q + x == 2 * (p * q + x / 2) + x % 2;
      Bit(p * q + x / 2, x % 2);
      XorLow(q, x / 2, y / 2, k - 1);
      XorParts(Power(k) * q + x, y);
      XorParts(x, y);
    }
  }

  /** `x ^ (x >>> k)`. */
  function Mix(x: nat, k: nat): nat { Xor(x, Shift(x, k)) }

  lemma MixWithin(x: Word, k: nat)
    ensures Mix(x, k) < 0x1_0000_0000
  {
    Power32();
    ShiftLess(x, k);
    XorWithin(x, Shift(x, k), 0x1_0000_0000, 32);
  }

  /** Shifts of at least half a word undo themselves. */
  lemma Mix16Twice(x: Word)
    ensures Mix(Mix(x, 16), 16) == x
  {
    hide Xor, Shift;
    var h := Shift(x, 16);
    Power32();
    ShiftXor(x, h, 16);
    ShiftTwice(x, 16, 16);
    ShiftOut(x, 32);
    XorSelf(h);
    XorAssoc(x, h, h);
    XorSelf(x);
  }

  /** The inverse of the shift by 13: two more shifts reach past the word. */
  function Unmix13(y: nat): nat { Xor(Xor(y, Shift(y, 13)), Shift(y, 26)) }

  lemma ShiftAway(x: Word, k: nat)
    requires k >= 32
    ensures Shift(x, k) == 0
  {
    Power32();
    ShiftOut(x, 32);
    ShiftTwice(x, 32, k - 32);
    ShiftZero(k - 32);
  }

  lemma {:induction false} ShiftZero(k: nat)
    ensures Shift(0, k) == 0
  {
    if k > 0 { ShiftZero(k - 1); }
  }

  lemma {:induction false} XorSwap(a: nat, b: nat)
    ensures Xor(a, b) == Xor(b, a)
    decreases a + b
  {
    if a + b > 0 { XorSwap(a / 2, b / 2); }
  }

  /** a ^ b ^ b ^ c ^ c is a. */
  lemma Telescope(a: nat, b: nat, c: nat)
    ensures Xor(Xor(Xor(a, b), Xor(b, c)), c) == a
  {
    hide Xor;
    XorAssoc(a, b, Xor(b, c));
    XorAssoc(b, b, c);
    XorSelf(b);
    XorSelf(c);
    XorAssoc(a, c, c);
    XorSelf(a);
  }

  lemma Mix13Inverses(x: Word)
    ensures Unmix13(Mix(x, 13)) == x && Mix(Unmix13(x), 13) == x
  {
    hide Xor, Shift;
    var b, c := Shift(x, 13), Shift(x, 26);
    ShiftTwice(x, 13, 13);
    ShiftTwice(x, 26, 13);
    ShiftTwice(x, 13, 26);
    ShiftAway(x, 39);
    ShiftXor(x, b, 13);
    ShiftXor(x, b, 26);
    XorSelf(c);
    Telescope(x, b, c);
    var y := Xor(Xor(x, b), c);
    ShiftXor(Xor(x, b), c, 13);
    XorSelf(Xor(b, c));
    assert Shift(y, 13) == Xor(b, c);
    XorAssoc(Xor(x, b), c, Xor(b, c));
    XorSwap(c, Xor(b, c));
    XorAssoc(Xor(x, b), Xor(b, c), c);
  }

  lemma UnmixWithin(y: Word)
    ensures Unmix13(y) < 0x1_0000_0000
  {
    Power32();
    ShiftLess(y, 13);
    ShiftLess(y, 26);
    XorWithin(y, Shift(y, 13), 0x1_0000_0000, 32);
    XorWithin(Xor(y, Shift(y, 13)), Shift(y, 26), 0x1_0000_0000, 32);
  }
}
