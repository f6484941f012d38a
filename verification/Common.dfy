/** Small shared vocabulary: optional values, results, and the fixed-width integers of the wire format. */
module Wrappers {
  datatype Option<+T> = None | Some(value: T)

  datatype Result<+T, +E> = Ok(value: T) | Err(error: E)
}

module Bytes {
  type byte = x: int | 0 <= x < 0x100
  type uint16 = x: int | 0 <= x < 0x1_0000
  type uint32 = x: int | 0 <= x < 0x1_0000_0000
  type int64 = x: int | -0x8000_0000_0000_0000 <= x < 0x8000_0000_0000_0000

  const U32_COUNT: int := 0x1_0000_0000
  const I64_HALF: int := 0x8000_0000_0000_0000
  const I64_COUNT: int := 0x1_0000_0000_0000_0000

  /** The value an `as u32` cast keeps. */
  function ToU32(x: int): uint32 {
    x % U32_COUNT
  }

  /** Two's-complement wrap-around of an int64 result. */
  function WrapI64(x: int): (r: int64) {
    if -I64_HALF <= x < I64_HALF then x else (x + I64_HALF) % I64_COUNT - I64_HALF
  }

  lemma ModShift(z: int, q: int)
    ensures (z + I64_COUNT * q) % I64_COUNT == z % I64_COUNT
  {
    var p, r := z / I64_COUNT, z % I64_COUNT;
    assert z + I64_COUNT * q == I64_COUNT * (p + q) + r;
  }

  /** Wrapping early or late makes no difference to a sum. */
  lemma WrapAbsorbs(x: int, y: int)
    ensures WrapI64(WrapI64(x) + y) == WrapI64(x + y)
  {
    var q := (x + I64_HALF) / I64_COUNT;
    assert WrapI64(x) == x - I64_COUNT * q;
    ModShift(WrapI64(x) + y + I64_HALF, q);
  }

  function Be16(x: uint16): seq<byte> {
    [x / 0x100, x % 0x100]
  }

  function FromBe16(s: seq<byte>): uint16
    requires |s| == 2
  {
    s[0] as int * 0x100 + s[1]
  }

  function Be32(x: uint32): seq<byte> {
    Be16(x / 0x1_0000) + Be16(x % 0x1_0000)
  }

  function FromBe32(s: seq<byte>): uint32
    requires |s| == 4
  {
    FromBe16(s[..2]) as int * 0x1_0000 + FromBe16(s[2..])
  }

  lemma Be16RoundTrip(x: uint16)
    ensures FromBe16(Be16(x)) == x
  {
  }

  lemma Be32RoundTrip(x: uint32)
    ensures FromBe32(Be32(x)) == x
  {
    var hi, lo := x / 0x1_0000, x % 0x1_0000;
    assert Be32(x)[..2] == Be16(hi) && Be32(x)[2..] == Be16(lo);
    Be16RoundTrip(hi);
    Be16RoundTrip(lo);
  }

  lemma Be32Surjective(s: seq<byte>)
    requires |s| == 4
    ensures Be32(FromBe32(s)) == s
  {
    assert Be16(FromBe16(s[..2])) == s[..2] && Be16(FromBe16(s[2..])) == s[2..];
  }

  lemma Be32Injective(x: uint32, y: uint32)
    requires Be32(x) == Be32(y)
    ensures x == y
  {
    Be32RoundTrip(x);
    Be32RoundTrip(y);
  }
}

module Sets {
  function Range(n: nat): (s: set<nat>)
    ensures forall i :: i in s <==> 0 <= i < n
  {
    if n == 0 then {} else Range(n - 1) + {n - 1}
  }

  lemma RangeSize(n: nat)
    ensures |Range(n)| == n
  {
    if n > 0 {
      RangeSize(n - 1);
    }
  }

  lemma SubsetSize<T>(a: set<T>, b: set<T>)
    requires a <= b
    ensures |a| <= |b|
    ensures |a| == |b| ==> a == b
  {
    assert b == a + (b - a);
    assert |b| == |a| + |b - a|;
  }

  /** A set of indices below n has at most n members, and n members only if it is all of them. */
  lemma BelowSize(s: set<nat>, n: nat)
    requires forall i :: i in s ==> i < n
    ensures |s| <= n
    ensures |s| == n <==> s == Range(n)
  {
    RangeSize(n);
    SubsetSize(s, Range(n));
  }
}
