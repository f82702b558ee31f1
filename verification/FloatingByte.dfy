/**
 Sizes packed into one byte (`luaO_int2fb` and `luaO_fb2int` of `lobject.c`): `eeeeexxx` stands for
 `(1xxx) * 2^(eeeee - 1)`, or for `xxx` if `eeeee` is 0.
 */
module FloatingByte {
  function Pow2(e: nat): (p: nat)
    ensures p >= 1
  {
    if e == 0 then 1 else 2 * Pow2(e - 1)
  }

  /** `luaO_fb2int` */
  function Fb2Int(x: nat): nat {
    var e := (x / 8) % 32;
    if e == 0 then x else (x % 8 + 8) * Pow2(e - 1)
  }

  /** What the loop of `luaO_int2fb` has done after `e` rounds: halving, rounding up. */
  function Halved(x: nat, e: nat): nat {
    if e == 0 then x else Halved((x + 1) / 2, e - 1)
  }

  /** The least number of rounds after which the rest is below 16. */
  function Rounds(x: nat): (e: nat)
    ensures Halved(x, e) < 16
  {
    if x < 16 then 0 else 1 + Rounds((x + 1) / 2)
  }

  /** `luaO_int2fb` */
  method Int2Fb(x: nat) returns (r: nat)
    ensures r == Packed(x)
  {
    var y, e := x, 0;
    while y >= 16
      invariant Rounds(x) == e + Rounds(y) && Halved(x, Rounds(x)) == Halved(y, Rounds(y))
      decreases y
    {
      y := (y + 1) / 2;
      e := e + 1;
    }
    if y < 8 {
      return y;
    }
    r := (e + 1) * 8 + (y - 8);
  }

  function Packed(x: nat): nat {
    var e, y := Rounds(x), Halved(x, Rounds(x));
    if y < 8 then y else (e + 1) * 8 + (y - 8)
  }

  /** The largest number whose packed form stands for an `int`. */
  const MAX: nat := 15 * 0x800_0000

  // ---------- Halving ----------

  lemma Doubled(q: int, p: int)
    ensures q * (2 * p) == 2 * (q * p)
  {
  }

  lemma HalfUp(x: nat, h: nat, a: int, b: int)
    requires h == (x + 1) / 2 && a >= h
    ensures 2 * a >= x && (b < h ==> 2 * b < x)
  {
  }

  /** `Halved(x, e)` is `x / 2^e`, rounded up. */
  lemma {:induction false} HalvedUp(x: nat, e: nat)
    ensures Halved(x, e) * Pow2(e) >= x && (Halved(x, e) > 0 ==> (Halved(x, e) - 1) * Pow2(e) < x)
  {
    if e > 0 {
      var h := (x + 1) / 2;
      HalvedUp(h, e - 1);
      HalvedStep(x, h, Halved(h, e - 1), Pow2(e - 1));
    }
  }

  lemma HalvedStep(x: nat, h: nat, q: int, p: int)
    requires h == (x + 1) / 2 && q * p >= h && (q > 0 ==> (q - 1) * p < h)
    ensures q * (2 * p) >= x && (q > 0 ==> (q - 1) * (2 * p) < x)
  {
    Doubled(q, p);
    Doubled(q - 1, p);
    HalfUp(x, h, q * p, (q - 1) * p);
  }

  lemma {:induction false} RoundsLow(x: nat)
    ensures Rounds(x) > 0 ==> Halved(x, Rounds(x)) >= 8
    ensures Halved(x, Rounds(x)) < 8 ==> x < 8
    decreases x
  {
    if x >= 16 {
      RoundsLow((x + 1) / 2);
    }
  }

  lemma {:induction false} RoundsBound(x: nat, e: nat)
    requires x <= 15 * Pow2(e)
    ensures Rounds(x) <= e
    decreases e
  {
    if x >= 16 {
      RoundsBound((x + 1) / 2, e - 1);
    }
  }

  lemma PowerMax()
    ensures Pow2(27) == 0x800_0000
  {
    assert Pow2(9) == 512 by { assert Pow2(4) == 16; }
    PowerSum(9, 9);
    PowerSum(18, 9);
  }

  lemma {:induction false} PowerSum(a: nat, b: nat)
    ensures Pow2(a + b) == Pow2(a) * Pow2(b)
  {
    if b > 0 {
      PowerSum(a, b - 1);
      Doubled(Pow2(a), Pow2(b - 1));
    }
  }

  // ---------- What comes back ----------

  lemma FewRounds(x: nat)
    requires x <= MAX
    ensures Rounds(x) <= 27
  {
    PowerMax();
    RoundsBound(x, 27);
  }

  /** The packed form in terms of its parts. */
  lemma Unpacked(x: nat)
    requires x <= MAX
    ensures Packed(x) < 256 && Rounds(x) <= 27
    ensures Fb2Int(Packed(x)) == Halved(x, Rounds(x)) * Pow2(Rounds(x))
  {
    FewRounds(x);
    if x < 8 {
      assert Rounds(x) == 0 && Halved(x, 0) == x && Pow2(0) == 1;
    } else {
      hide *;
      PackedParts(x);
      Parts(Rounds(x), Halved(x, Rounds(x)));
    }
  }

  lemma PackedParts(x: nat)
    requires x >= 8
    ensures 8 <= Halved(x, Rounds(x)) < 16 && Packed(x) == (Rounds(x) + 1) * 8 + (Halved(x, Rounds(x)) - 8)
  {
    RoundsLow(x);
  }

  lemma Parts(e: nat, y: nat)
    requires e < 31 && 8 <= y < 16
    ensures var r := (e + 1) * 8 + (y - 8);
            r < 256 && (r / 8) % 32 == e + 1 && r % 8 == y - 8 && Fb2Int(r) == y * Pow2(e)
  {
    var r := (e + 1) * 8 + (y - 8);
    assert r / 8 == e + 1 && r % 8 == y - 8;
    hide Pow2;
  }

  lemma {:induction false} RoundsNeeded(x: nat)
    ensures Rounds(x) > 0 ==> Halved(x, Rounds(x) - 1) >= 16
    decreases x
  {
    if x >= 16 {
      RoundsNeeded((x + 1) / 2);
    }
  }

  /** What comes back is at least what went in, exact below 16, and exceeds it by less than 2x/15. */
  lemma RoundUp(x: nat)
    requires x <= MAX
    ensures Fb2Int(Packed(x)) >= x
    ensures x < 16 ==> Fb2Int(Packed(x)) == x
    ensures x > 0 ==> 15 * (Fb2Int(Packed(x)) - x) < 2 * x
  {
    Unpacked(x);
    HalvedUp(x, Rounds(x));
    if x < 16 {
      assert Pow2(0) == 1;
    } else {
      hide Packed, Fb2Int;
      SmallExcess(x);
    }
  }

  lemma SmallExcess(x: nat)
    requires x >= 16
    ensures 15 * (Halved(x, Rounds(x)) * Pow2(Rounds(x)) - x) < 2 * x
  {
    RoundsLow(x);
    RoundsNeeded(x);
    assert Rounds(x) > 0;
    var e := Rounds(x) - 1;
    HalvedUp(x, e);
    HalvedUp(x, e + 1);
    assert Pow2(e + 1) == 2 * Pow2(e);
    hide *;
    Excess(x, Halved(x, e + 1), Pow2(e + 1), Halved(x, e), Pow2(e));
  }

  lemma Excess(x: nat, y: nat, p: nat, z: nat, h: nat)
    requires y >= 8 && (y - 1) * p < x && z >= 16 && (z - 1) * h < x && p == 2 * h
    ensures 15 * (y * p - x) < 2 * x
  {
    assert y * p == (y - 1) * p + p;
    if y == 8 {
      assert 15 * h <= (z - 1) * h;
      assert y * p == 16 * h;
    } else {
      assert 8 * p <= (y - 1) * p;
    }
  }

  // ---------- The least byte ----------

  lemma PackedHalf(x: nat)
    requires x >= 16
    ensures Packed(x) == 8 + Packed((x + 1) / 2)
  {
    RoundsLow(x);
    RoundsLow((x + 1) / 2);
  }

  lemma PackedSmall(x: nat)
    requires x < 16
    ensures Packed(x) == x
  {
  }

  lemma {:induction false} PackedMonotone(x: nat, y: nat)
    requires x <= y
    ensures Packed(x) <= Packed(y)
    decreases y
  {
    if y < 16 {
      PackedSmall(x);
      PackedSmall(y);
    } else {
      PackedHalf(y);
      if x < 16 {
        PackedSmall(x);
        PackedSmall(8);
        PackedMonotone(8, (y + 1) / 2);
      } else {
        PackedHalf(x);
        PackedMonotone((x + 1) / 2, (y + 1) / 2);
      }
    }
  }

  lemma NextOctave(b: nat)
    requires 16 <= b < 256
    ensures Fb2Int(b) == 2 * Fb2Int(b - 8)
  {
    var e, y := b / 8, b % 8 + 8;
    assert b == e * 8 + (y - 8) && 2 <= e < 32;
    Parts(e - 1, y);
    Parts(e - 2, y);
    assert Pow2(e - 1) == 2 * Pow2(e - 2);
    hide *;
    Doubled(y, Pow2(e - 2));
  }

  lemma SmallByte(b: nat)
    requires b < 16
    ensures Fb2Int(b) == b
  {
    if b >= 8 {
      Parts(0, b);
    }
    assert Pow2(0) == 1;
  }

  /** Every byte is the packed form of what it stands for. */
  lemma {:induction false} PackedBack(b: nat)
    requires b < 256
    ensures Packed(Fb2Int(b)) == b && (b >= 8 ==> Fb2Int(b) >= 8)
    decreases b
  {
    hide *;
    if b < 16 {
      SmallByte(b);
      PackedSmall(b);
    } else {
      PackedBack(b - 8);
      NextOctave(b);
      PackedHalf(2 * Fb2Int(b - 8));
      assert (2 * Fb2Int(b - 8) + 1) / 2 == Fb2Int(b - 8);
    }
  }

  lemma BytesMonotone(a: nat, b: nat)
    requires a < b < 256
    ensures Fb2Int(a) < Fb2Int(b)
  {
    PackedBack(a);
    PackedBack(b);
    if Fb2Int(a) >= Fb2Int(b) {
      PackedMonotone(Fb2Int(b), Fb2Int(a));
    }
  }

  /** No byte stands for a number that is closer from above. */
  lemma LeastAbove(x: nat, b: nat)
    requires x <= MAX && b < 256 && Fb2Int(b) >= x
    ensures Packed(x) < 256 && Fb2Int(Packed(x)) <= Fb2Int(b)
  {
    Unpacked(x);
    PackedBack(b);
    PackedMonotone(x, Fb2Int(b));
    if Packed(x) < b {
      BytesMonotone(Packed(x), b);
    }
  }
}
