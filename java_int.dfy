/** Java's fixed-width integer arithmetic: `int` wraps modulo 2^32, `long` modulo 2^64. */
module JavaInt {

  const Int32Min: int := -0x8000_0000
  const Int32Max: int := 0x7fff_ffff
  const Int64Max: int := 0x7fff_ffff_ffff_ffff

  predicate InInt32(x: int) {
    Int32Min <= x <= Int32Max
  }

  /** A Java `int`. */
  type Int32 = x: int | Int32Min <= x <= Int32Max

  /**
   * The value a Java `int` holds after an operation whose exact result is `x`:
   * the representative of `x` modulo 2^32 in the `int` range.
   */
  function Wrap32(x: int): (r: int)
    ensures InInt32(r)
    ensures (x - r) % 0x1_0000_0000 == 0
    ensures InInt32(x) ==> r == x
    ensures Int32Max < x <= Int32Max + 0x1_0000_0000 ==> r == x - 0x1_0000_0000
    ensures Int32Min - 0x1_0000_0000 <= x < Int32Min ==> r == x + 0x1_0000_0000
    decreases if x > Int32Max then x - Int32Max else if x < Int32Min then Int32Min - x else 0
  {
    if x > Int32Max then Wrap32(x - 0x1_0000_0000)
    else if x < Int32Min then Wrap32(x + 0x1_0000_0000)
    else x
  }

  /** Values that agree modulo 2^32 wrap to the same `int`. */
  lemma WrapCongruent(x: int, y: int)
    requires (x - y) % 0x1_0000_0000 == 0
    ensures Wrap32(x) == Wrap32(y)
  {
    var rx, ry := Wrap32(x), Wrap32(y);
    var k1, k2, k3 := (x - rx) / 0x1_0000_0000, (x - y) / 0x1_0000_0000, (y - ry) / 0x1_0000_0000;
    assert x - rx == k1 * 0x1_0000_0000;
    assert x - y == k2 * 0x1_0000_0000;
    assert y - ry == k3 * 0x1_0000_0000;
    assert rx - ry == (k2 + k3 - k1) * 0x1_0000_0000;
  }

  /** Wrapping an intermediate sum does not change the wrapped final sum. */
  lemma WrapAddLeft(a: int, b: int)
    ensures Wrap32(Wrap32(a) + b) == Wrap32(a + b)
  {
    WrapCongruent(Wrap32(a) + b, a + b);
  }
}
