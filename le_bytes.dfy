/** Little-endian two's-complement encoding of 32-bit signed integers,
    as done by Rust's `i32::from_le_bytes` and `i32::to_le_bytes`. */
module LeBytes {

  type byte = x: int | 0 <= x < 256

  const Two31: int := 0x8000_0000
  const Two32: int := 0x1_0000_0000

  /** The values of Rust's `i32`. */
  predicate IsI32(v: int) {
    -Two31 <= v < Two31
  }

  /** The unsigned value of four bytes, least significant first. */
  function Unsigned(b: seq<byte>): (u: int)
    requires |b| == 4
    ensures 0 <= u < Two32
  {
    b[0] as int + 256 * (b[1] as int + 256 * (b[2] as int + 256 * b[3] as int))
  }

  /** `i32::from_le_bytes`: reinterpret the unsigned value as two's complement. */
  function FromLeBytes(b: seq<byte>): (v: int)
    requires |b| == 4
    ensures IsI32(v)
    ensures v >= 0 <==> b[3] < 128
  {
    var u := Unsigned(b);
    if u < Two31 then u else u - Two32
  }

  /** `i32::to_le_bytes`. */
  function ToLeBytes(v: int): (b: seq<byte>)
    requires IsI32(v)
    ensures |b| == 4
    ensures v >= 0 <==> b[3] < 128
  {
    var u := if v < 0 then v + Two32 else v;
    [u % 256, (u / 256) % 256, (u / 65536) % 256, u / 16777216]
  }

  /** Splitting an unsigned 32-bit value into bytes and recombining them is the identity. */
  lemma UnsignedOfDigits(u: int)
    requires 0 <= u < Two32
    ensures u / 16777216 < 256
    ensures Unsigned([u % 256, (u / 256) % 256, (u / 65536) % 256, u / 16777216]) == u
  {
    var q1 := u / 256;
    var q2 := q1 / 256;
    var q3 := q2 / 256;
    assert u == u % 256 + 256 * q1;
    assert q1 == q1 % 256 + 256 * q2;
    assert q2 == q2 % 256 + 256 * q3;
    assert q2 == u / 65536 by { DivDiv(u, 256, 256); }
    assert q3 == u / 16777216 by { DivDiv(u, 65536, 256); }
  }

  lemma DivDiv(u: int, a: int, b: int)
    requires u >= 0 && a > 0 && b > 0
    ensures u / a / b == u / (a * b)
  {
    var q, r := u / a, u % a;
    var q', r' := q / b, q % b;
    assert u == (a * b) * q' + (a * r' + r) by {
      assert u == a * q + r;
      assert q == b * q' + r';
      assert a * q == a * (b * q') + a * r';
      assert a * (b * q') == (a * b) * q';
    }
    assert a * r' <= a * (b - 1) by { MulMono(a, r', b - 1); }
    DivUnique(u, a * b, q', a * r' + r);
  }

  lemma MulMono(a: int, x: int, y: int)
    requires a > 0 && x <= y
    ensures a * x <= a * y
  {
  }

  lemma DivUnique(u: int, d: int, q: int, r: int)
    requires d > 0 && 0 <= r < d && u == d * q + r
    ensures u / d == q
  {
    var q0, r0 := u / d, u % d;
    if q > q0 {
      assert d * (q0 + 1) == d * q0 + d;
      MulMono(d, q0 + 1, q);
    } else if q < q0 {
      assert d * (q + 1) == d * q + d;
      MulMono(d, q + 1, q0);
    }
  }

  /** Encoding then decoding gives back every `i32`. */
  lemma FromToLeBytes(v: int)
    requires IsI32(v)
    ensures FromLeBytes(ToLeBytes(v)) == v
  {
    var u := if v < 0 then v + Two32 else v;
    UnsignedOfDigits(u);
  }

  /** Decoding then encoding gives back every four-byte group. */
  lemma ToFromLeBytes(b: seq<byte>)
    requires |b| == 4
    ensures ToLeBytes(FromLeBytes(b)) == b
  {
    var u := Unsigned(b);
    var t := b[1] as int + 256 * (b[2] as int + 256 * b[3] as int);
    var s := b[2] as int + 256 * b[3] as int;
    assert u / 256 == t && u % 256 == b[0];
    assert t / 256 == s && t % 256 == b[1];
    assert s / 256 == b[3] && s % 256 == b[2];
    assert u / 65536 == s by { DivDiv(u, 256, 256); }
    assert u / 16777216 == b[3] by { DivDiv(u, 65536, 256); }
    assert (u / 256) % 256 == b[1];
    assert (u / 65536) % 256 == b[2];
  }
}
