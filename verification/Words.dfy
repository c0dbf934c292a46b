/**
 Machine words. The kernel and the emulator compute on fixed-width unsigned integers; here a word is a
 mathematical integer with its range in the type, and every wrap-around is written out with Wrap64.
 */
module Words {

  const TWO_32: int := 0x1_0000_0000
  const TWO_64: int := 0x1_0000_0000_0000_0000
  const U64_MAX: int := 0xFFFF_FFFF_FFFF_FFFF

  type u8 = x: int | 0 <= x < 0x100
  type u32 = x: int | 0 <= x < 0x1_0000_0000
  type u64 = x: int | 0 <= x < 0x1_0000_0000_0000_0000
  type i32 = x: int | -0x8000_0000 <= x < 0x8000_0000
  type i64 = x: int | -0x8000_0000_0000_0000 <= x < 0x8000_0000_0000_0000

  datatype Option<+T> = None | Some(value: T)

  function Wrap64(x: int): u64 {
    x % 0x1_0000_0000_0000_0000
  }

  function Wrap32(x: int): u32 {
    x % 0x1_0000_0000
  }

  /** static_cast<int32_t> of a 64-bit word: the low 32 bits read as two's complement. */
  function ToSigned32(x: u64): i32 {
    var low := x % 0x1_0000_0000;
    if low < 0x8000_0000 then low else low - 0x1_0000_0000
  }

  /** static_cast<int64_t> of a 64-bit word. */
  function ToSigned64(x: u64): i64 {
    if x < 0x8000_0000_0000_0000 then x else x - 0x1_0000_0000_0000_0000
  }

  /** static_cast<uint64_t>(static_cast<int64_t>(status)). */
  function SignExtend(status: i32): u64 {
    if status < 0 then status + 0x1_0000_0000_0000_0000 else status
  }

  /** The low n bytes of v, least significant first, as memcpy of an integer lays them out. */
  function LittleEndian(v: nat, n: nat): (bytes: seq<u8>)
    ensures |bytes| == n
    decreases n
  {
    if n == 0 then [] else [v % 256] + LittleEndian(v / 256, n - 1)
  }

  function FromLittleEndian(bytes: seq<u8>): nat {
    if bytes == [] then 0 else bytes[0] + 256 * FromLittleEndian(bytes[1..])
  }

  function Pow256(n: nat): (p: nat)
    ensures p > 0
  {
    if n == 0 then 1 else 256 * Pow256(n - 1)
  }

  lemma {:induction false} FromLittleEndianBound(bytes: seq<u8>)
    ensures FromLittleEndian(bytes) < Pow256(|bytes|)
  {
    if bytes != [] {
      FromLittleEndianBound(bytes[1..]);
    }
  }

  lemma {:induction false} LittleEndianRoundTrip(v: nat, n: nat)
    requires v < Pow256(n)
    ensures FromLittleEndian(LittleEndian(v, n)) == v
    decreases n
  {
    if n != 0 {
      LittleEndianRoundTrip(v / 256, n - 1);
      assert LittleEndian(v, n)[1..] == LittleEndian(v / 256, n - 1);
    }
  }

  lemma {:induction false} FromLittleEndianRoundTrip(bytes: seq<u8>)
    ensures LittleEndian(FromLittleEndian(bytes), |bytes|) == bytes
  {
    if bytes != [] {
      FromLittleEndianRoundTrip(bytes[1..]);
      var v := FromLittleEndian(bytes);
      assert v / 256 == FromLittleEndian(bytes[1..]) && v % 256 == bytes[0];
    }
  }

  lemma Pow256Values()
    ensures Pow256(4) == 0x1_0000_0000
    ensures Pow256(8) == 0x1_0000_0000_0000_0000
  {
    assert Pow256(1) == 256 && Pow256(2) == 0x1_0000 && Pow256(3) == 0x100_0000;
    assert Pow256(4) == 0x1_0000_0000 && Pow256(5) == 0x100_0000_0000;
    assert Pow256(6) == 0x1_0000_0000_0000 && Pow256(7) == 0x100_0000_0000_0000;
  }

  lemma WordRoundTrip(v: u64)
    ensures FromLittleEndian(LittleEndian(v, 8)) == v
  {
    Pow256Values();
    LittleEndianRoundTrip(v, 8);
    hide LittleEndian, FromLittleEndian, Pow256;
  }

  // ----- Values of byte sequences, spelled out -----

  /** The value of four bytes, least significant first. */
  function Quad(b0: int, b1: int, b2: int, b3: int): int {
    b0 + 0x100 * b1 + 0x1_0000 * b2 + 0x100_0000 * b3
  }

  lemma FourBytesValue(b: seq<u8>)
    requires |b| == 4
    ensures FromLittleEndian(b) == Quad(b[0], b[1], b[2], b[3])
  {
    var c := b[1..];
    var d := c[1..];
    var e := d[1..];
    assert FromLittleEndian(e) == e[0] + 256 * FromLittleEndian(e[1..]) && e[1..] == [];
    assert FromLittleEndian(d) == d[0] + 256 * FromLittleEndian(e);
    assert FromLittleEndian(c) == c[0] + 256 * FromLittleEndian(d);
  }

  lemma {:induction false} Joined(x: seq<u8>, y: seq<u8>)
    requires |x| == 4
    ensures FromLittleEndian(x + y) == FromLittleEndian(x) + 0x1_0000_0000 * FromLittleEndian(y)
  {
    var v := x + y;
    assert v[1..] == x[1..] + y && v[1..][1..] == x[2..] + y && v[1..][1..][1..] == x[3..] + y;
    assert v[1..][1..][1..][1..] == y;
    FourBytesValue(x);
    assert FromLittleEndian(v[1..][1..][1..]) == x[3] + 256 * FromLittleEndian(y);
    assert FromLittleEndian(v[1..][1..]) == x[2] + 256 * FromLittleEndian(v[1..][1..][1..]);
    assert FromLittleEndian(v[1..]) == x[1] + 256 * FromLittleEndian(v[1..][1..]);
  }

  lemma EightBytesValue(b: seq<u8>)
    requires |b| == 8
    ensures FromLittleEndian(b) == Quad(b[0], b[1], b[2], b[3]) + 0x1_0000_0000 * Quad(b[4], b[5], b[6], b[7])
  {
    assert b == b[..4] + b[4..];
    FourBytesValue(b[..4]);
    FourBytesValue(b[4..]);
    Joined(b[..4], b[4..]);
    hide FromLittleEndian;
  }

  /** Byte k of a laid out word is its k-th digit in base 256. */
  lemma {:induction false} LittleEndianAt(v: nat, n: nat, k: nat)
    requires k < n
    ensures LittleEndian(v, n)[k] == v / Pow256(k) % 256
    decreases k
  {
    if k > 0 {
      LittleEndianAt(v / 256, n - 1, k - 1);
      DivideTwice(v, 256, Pow256(k - 1));
    }
  }

  lemma DivideTwice(v: nat, b: nat, p: nat)
    requires b > 0 && p > 0
    ensures b * p > 0 && v / b / p == v / (b * p)
  {
    var q, r, t := v / b / p, v / b % p, v % b;
    assert v / b == q * p + r;
    assert v == b * (q * p + r) + t;
    assert b * (q * p + r) + t == q * (b * p) + (b * r + t);
    assert 0 <= b * r && b * r + b <= b * p by {
      assert b * p - b * r == b * (p - r);
      AtLeastOnce(p - r, b);
    }
    DivisionIs(v, b * p, q, b * r + t);
  }

  lemma AtLeastOnce(k: int, d: int)
    requires d > 0
    ensures (k >= 1 ==> k * d >= d) && (k <= -1 ==> k * d <= -d)
  {
  }

  /** Division with remainder has one result. */
  lemma DivisionIs(x: int, d: int, q: int, r: int)
    requires d > 0 && x == q * d + r && 0 <= r < d
    ensures x / d == q && x % d == r
  {
    var p, t: int := x / d, x % d;
    assert x == p * d + t;
    assert (p - q) * d == r - t by {
      assert (p - q) * d == p * d - q * d;
    }
    AtLeastOnce(p - q, d);
  }

  // ----- What the conversions mean -----

  /** A wrapped value is the one 64-bit word that differs from it by a multiple of 2^64. */
  lemma WrapIsCongruent(x: int, w: u64)
    ensures w == Wrap64(x) <==> exists k: int :: x == w + k * TWO_64
  {
    if k: int :| x == w + k * TWO_64 {
      DivisionIs(x, TWO_64, k, w);
    }
    assert x == Wrap64(x) + x / TWO_64 * TWO_64;
  }

  /** The signed reading of a word's low half, and the word a status is widened to, are congruent to what they come from. */
  lemma SignsAreCongruent(x: u64, status: i32)
    ensures (ToSigned32(x) - x) % 0x1_0000_0000 == 0
    ensures ToSigned64(x) == x || ToSigned64(x) == x - TWO_64
    ensures SignExtend(status) == status || SignExtend(status) == status + TWO_64
    ensures ToSigned32(SignExtend(status)) == status && ToSigned64(SignExtend(status)) == status
  {
    var q := x / 0x1_0000_0000;
    var low: int := x % 0x1_0000_0000;
    assert x == q * 0x1_0000_0000 + low;
    if low < 0x8000_0000 {
      DivisionIs(low - x, 0x1_0000_0000, -q, 0);
    } else {
      DivisionIs(low - 0x1_0000_0000 - x, 0x1_0000_0000, -q - 1, 0);
    }
  }
}
