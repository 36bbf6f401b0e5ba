/** Java's 32-bit `int` arithmetic and the id-based hash of `Objects.hash`. */
module JavaInt {
  import opened Results

  const MinInt32: int := -0x8000_0000
  const MaxInt32: int := 0x7fff_ffff
  const TwoTo32: int := 0x1_0000_0000

  /** The values of a Java `int` / `Integer`. */
  type int32 = x: int | MinInt32 <= x <= MaxInt32

  predicate InRange(x: int) {
    MinInt32 <= x <= MaxInt32
  }

  /** The value Java stores when an `int` expression evaluates to `x`
      (two's-complement wrap-around). */
  function Wrap32(x: int): (r: int32)
    ensures InRange(x) ==> r == x
  {
    (x + 0x8000_0000) % 0x1_0000_0000 - 0x8000_0000
  }

  /** Java's `a + b` on two `int`s: the exact sum, moved by one turn of 2^32 when it overflows. */
  function AddInt(a: int32, b: int32): (r: int32)
    ensures InRange(a + b) ==> r == a + b
  {
    if a + b > 0x7fff_ffff then a + b - 0x1_0000_0000
    else if a + b < -0x8000_0000 then a + b + 0x1_0000_0000
    else a + b
  }

  /** Java's `a - b` on two `int`s. */
  function SubInt(a: int32, b: int32): (r: int32)
    ensures InRange(a - b) ==> r == a - b
  {
    if a - b > 0x7fff_ffff then a - b - 0x1_0000_0000
    else if a - b < -0x8000_0000 then a - b + 0x1_0000_0000
    else a - b
  }

  /** One turn is always enough: `int` addition and subtraction are the wrap-around of the exact result. */
  lemma IntOpsWrap(a: int32, b: int32)
    ensures AddInt(a, b) == Wrap32(a + b)
    ensures SubInt(a, b) == Wrap32(a - b)
  {
  }

  /** The wrapped value differs from the exact one by whole turns of 2^32. */
  lemma WrapCongruent(x: int)
    ensures (Wrap32(x) - x) % TwoTo32 == 0
  {
  }

  /** Adding `k` whole turns of 2^32 does not change the wrapped value. */
  lemma WrapTurns(x: int, k: int)
    ensures Wrap32(x + k * TwoTo32) == Wrap32(x)
  {
    var y := x + 0x8000_0000;
    assert (y + k * TwoTo32) % TwoTo32 == y % TwoTo32;
  }

  /** Wrapping an intermediate result does not change a later wrapped sum. */
  lemma WrapAdd(a: int, b: int)
    ensures Wrap32(Wrap32(a) + b) == Wrap32(a + b)
  {
    WrapCongruent(a);
    var k := (Wrap32(a) - a) / TwoTo32;
    assert Wrap32(a) == a + k * TwoTo32;
    WrapTurns(a + b, k);
    assert Wrap32(a) + b == (a + b) + k * TwoTo32;
  }

  /** Two successive wrapped steps equal one wrapped step by their sum. */
  lemma WrapTwoSteps(s: int, d: int, e: int, mid: int, fin: int)
    requires mid == Wrap32(s + d)
    requires fin == Wrap32(mid + e)
    ensures fin == Wrap32(s + (d + e))
  {
    WrapAdd(s + d, e);
    assert s + d + e == s + (d + e);
  }

  /** Two successive wrapped subtractions equal one wrapped subtraction of their sum. */
  lemma WrapLowerTwice(s: int, d: int, e: int, mid: int, fin: int)
    requires mid == Wrap32(s - d)
    requires fin == Wrap32(mid - e)
    ensures fin == Wrap32(s - (d + e))
  {
    WrapAdd(s - d, -e);
    assert s - d + -e == s - (d + e);
  }

  /** Taking `d` away and then adding it back, both wrapped, returns the original `int`. */
  lemma WrapUndo(s: int32, d: int, mid: int, fin: int)
    requires mid == Wrap32(s - d)
    requires fin == Wrap32(mid + d)
    ensures fin == s
  {
    WrapTwoSteps(s, -d, d, mid, fin);
  }

  /** Java's `Long.hashCode(v)`, `(int)(v ^ (v >>> 32))`, for a non-negative id. */
  function LongHash(v: nat): int32
  {
    var bits := (v % 0x1_0000_0000_0000_0000) as bv64;
    var mixed := (bits ^ (bits >> 32)) & 0xffff_ffff;
    Wrap32(mixed as int)
  }

  /** `Objects.hash(id)`, i.e. `31 * 1 + (id == null ? 0 : id.hashCode())` in `int` arithmetic. */
  function IdHash(id: Option<nat>): int32
  {
    match id
    case None => 31
    case Some(v) => Wrap32(31 + LongHash(v))
  }
}
