/** What several components share: optional values, bytes, powers of two, and bits. */
module Basics {
  datatype Option<+T> = None | Some(value: T)

  type Byte = x: int | 0 <= x < 256

  const TWO31 := 0x8000_0000
  const TWO32 := 0x1_0000_0000

  function Pow2(n: nat): (r: nat)
    ensures r > 0
  {
    if n == 0 then 1 else 2 * Pow2(n - 1)
  }

  // ----- bits -----

  function Bit(flags: nat, k: nat): nat {
    flags / Pow2(k) % 2
  }

  lemma {:induction false} Powers()
    ensures Pow2(0) == 1 && Pow2(1) == 2 && Pow2(2) == 4 && Pow2(3) == 8 && Pow2(9) == 0x200
  {
    assert Pow2(4) == 16 && Pow2(6) == 64 && Pow2(8) == 256;
  }

  lemma {:induction false} SmallBits(r: nat)
    requires r < 16
    ensures r == 8 * (r / 8) + 4 * (r / 4 % 2) + 2 * (r / 2 % 2) + r % 2
  {
  }

  lemma {:induction false} EvenPart(a: nat, x: nat)
    ensures (2 * a + x) % 2 == x % 2
  {
  }

  lemma {:induction false} HighBits(flags: nat)
    ensures var r := flags % 16;
      flags / 8 % 2 == r / 8 && flags / 4 % 2 == r / 4 % 2 && flags / 2 % 2 == r / 2 % 2 && flags % 2 == r % 2
  {
    var q, r := flags / 16, flags % 16;
    assert flags / 8 == 2 * q + r / 8;
    EvenPart(q, r / 8);
    assert flags / 4 == 2 * (2 * q) + r / 4;
    EvenPart(2 * q, r / 4);
    assert flags / 2 == 2 * (4 * q) + r / 2;
    EvenPart(4 * q, r / 2);
    assert flags == 2 * (8 * q) + r;
    EvenPart(8 * q, r);
  }

  lemma {:induction false} FourBits(flags: nat)
    ensures flags % 16 == 8 * Bit(flags, 3) + 4 * Bit(flags, 2) + 2 * Bit(flags, 1) + Bit(flags, 0)
  {
    Powers();
    SmallBits(flags % 16);
    HighBits(flags);
  }
}
