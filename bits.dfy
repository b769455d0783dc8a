/**
 * Rust's fixed-width integers as the machine uses them: `i8` cells and
 * registers, `u8` program counter and addresses, two's complement
 * wrap-around and the bitwise `&` on `i8`.
 */
module Bits {

  /** A Rust `i8`. */
  type I8 = x: int | -128 <= x < 128

  /** A Rust `u8`. */
  type U8 = x: int | 0 <= x < 256

  function Pow2(k: nat): (r: nat)
    ensures r >= 1
  {
    if k == 0 then 1 else 2 * Pow2(k - 1)
  }

  /** Rust's `x as u8` on an `i8`: the same eight bits read without a sign. */
  function AsU8(x: I8): (r: U8)
    ensures r % 256 == x % 256
    ensures x >= 0 ==> r == x
    ensures x < 0 ==> r >= 128
  {
    if x < 0 then x + 256 else x
  }

  /** Rust's `u as i8` on a `u8`: the same eight bits read as two's complement. */
  function AsI8(u: U8): (r: I8)
    ensures r % 256 == u % 256
    ensures u < 128 ==> r == u
  {
    if u < 128 then u else u - 256
  }

  /** Two's complement wrap-around of an arbitrary integer into `i8`. */
  function Wrap(x: int): (r: I8)
    ensures r % 256 == x % 256
    ensures -128 <= x < 128 ==> r == x
  {
    assert -128 <= x < 128 && x < 0 ==> x % 256 == x + 256;
    AsI8(x % 256)
  }

  /** Rust's `x << 1` on an `i8`: bits shifted out are lost, no overflow check. */
  function ShiftLeft(x: I8): (r: I8)
    ensures r % 256 == (2 * x) % 256
    ensures -64 <= x < 64 ==> r == 2 * x
  {
    Wrap(x as int * 2)
  }

  /**
   * The low `width` bits of the bitwise and of `a` and `b`, computed bit by
   * bit from the least significant one.
   */
  function AndBits(a: nat, b: nat, width: nat): nat
    decreases width
  {
    if width == 0 then 0
    else (a % 2) * (b % 2) + 2 * AndBits(a / 2, b / 2, width - 1)
  }

  lemma {:induction false} AndBitsBelow(a: nat, b: nat, width: nat)
    ensures AndBits(a, b, width) <= a
    ensures AndBits(a, b, width) <= b
  {
    if width > 0 {
      AndBitsBelow(a / 2, b / 2, width - 1);
      if b % 2 == 0 {
        assert (a % 2) * (b % 2) == 0;
      } else {
        assert (a % 2) * (b % 2) == a % 2;
      }
      if a % 2 == 0 {
        assert (a % 2) * (b % 2) == 0;
      } else {
        assert (a % 2) * (b % 2) == b % 2;
      }
    }
  }

  lemma {:induction false} AndBitsCommutes(a: nat, b: nat, width: nat)
    ensures AndBits(a, b, width) == AndBits(b, a, width)
  {
    if width > 0 {
      AndBitsCommutes(a / 2, b / 2, width - 1);
    }
  }

  /** Anding with all ones over `width` bits keeps every bit of `b` below that width. */
  lemma {:induction false} AndBitsAllOnes(b: nat, width: nat)
    requires b < Pow2(width)
    ensures AndBits(Pow2(width) - 1, b, width) == b
  {
    if width > 0 {
      var ones := Pow2(width) - 1;
      assert ones % 2 == 1 && ones / 2 == Pow2(width - 1) - 1;
      AndBitsAllOnes(b / 2, width - 1);
      assert (ones % 2) * (b % 2) == b % 2;
    }
  }

  /** Rust's `x & y` on two `i8` values (two's complement bitwise and). */
  function And8(x: I8, y: I8): (r: I8)
    ensures x >= 0 ==> 0 <= r <= x
    ensures y >= 0 ==> 0 <= r <= y
    ensures x == -1 ==> r == y
    ensures y == -1 ==> r == x
  {
    And8Facts(x, y);
    AsI8(AndBits(AsU8(x), AsU8(y), 8))
  }

  lemma And8Facts(x: I8, y: I8)
    ensures AndBits(AsU8(x), AsU8(y), 8) <= AsU8(x)
    ensures AndBits(AsU8(x), AsU8(y), 8) <= AsU8(y)
    ensures x == -1 ==> AndBits(AsU8(x), AsU8(y), 8) == AsU8(y)
    ensures y == -1 ==> AndBits(AsU8(x), AsU8(y), 8) == AsU8(x)
  {
    AndBitsBelow(AsU8(x), AsU8(y), 8);
    AndBitsCommutes(AsU8(x), AsU8(y), 8);
    assert Pow2(8) == 256;
    if x == -1 {
      AndBitsAllOnes(AsU8(y), 8);
    }
    if y == -1 {
      AndBitsAllOnes(AsU8(x), 8);
    }
  }

  /** Bit `i` of `x`, counting from the least significant bit. */
  function Bit(x: nat, i: nat): (r: nat)
    ensures r < 2
  {
    if i == 0 then x % 2 else Bit(x / 2, i - 1)
  }

  lemma {:induction false} AndBitsBit(a: nat, b: nat, width: nat, i: nat)
    requires i < width
    ensures Bit(AndBits(a, b, width), i) == Bit(a, i) * Bit(b, i)
    decreases width
  {
    var low := (a % 2) * (b % 2);
    var high := AndBits(a / 2, b / 2, width - 1);
    assert low < 2 by {
      if a % 2 == 0 { assert low == 0; } else { assert low == b % 2; }
    }
    assert AndBits(a, b, width) % 2 == low;
    assert AndBits(a, b, width) / 2 == high;
    if i > 0 {
      AndBitsBit(a / 2, b / 2, width - 1, i - 1);
    }
  }

  /**
   * `And8` is the bitwise and: each of the eight bits of the result is set
   * exactly when that bit is set in both arguments.
   */
  lemma And8Bits(x: I8, y: I8, i: nat)
    requires i < 8
    ensures Bit(AsU8(And8(x, y)), i) == Bit(AsU8(x), i) * Bit(AsU8(y), i)
  {
    And8Facts(x, y);
    AndBitsBit(AsU8(x), AsU8(y), 8, i);
  }
}
