/** Byte-level helpers of the protocol: the clamp applied to every bounded
    argument, the big-endian 16-bit codec, and the XOR fold behind the
    report checksum. Bytes are integers in [0, 256); exclusive or is defined
    arithmetically, bit by bit. */
module Bytes {

  /** A byte, as the number it denotes. */
  type byte = x: int | 0 <= x < 256

  /** Rust's `u16`. */
  type u16 = x: int | 0 <= x < 0x1_0000

  function Min(a: int, b: int): int {
    if a <= b then a else b
  }

  function Max(a: int, b: int): int {
    if a >= b then a else b
  }

  function Zeros(n: nat): (r: seq<byte>)
    ensures |r| == n
    ensures forall i :: 0 <= i < n ==> r[i] == 0
  {
    seq(n, _ => 0)
  }

  /** `clamp(val, min_range, max_range)`, computed as `min(max(lo, v), hi)`:
      the point of [lo, hi] nearest to v. When the bounds are crossed the
      upper bound wins. */
  function Clamp(v: int, lo: int, hi: int): (r: int)
    ensures lo <= hi ==> lo <= r <= hi
    ensures lo <= v <= hi ==> r == v
    ensures lo <= hi && v < lo ==> r == lo
    ensures hi < v ==> r == hi
    ensures hi < lo ==> r == hi
  {
    Min(Max(lo, v), hi)
  }

  /** `encode_u16_as_bytes`: the high byte first. */
  function EncodeU16(v: u16): (r: seq<byte>)
    ensures |r| == 2
    ensures r[0] as int * 256 + r[1] as int == v
  {
    [v / 256, v % 256]
  }

  /** `decode_u16_from_bytes`: reads the first two bytes, high byte first.
      The source indexes `val[0]` and `val[1]` and so demands two bytes. */
  function DecodeU16(s: seq<byte>): (r: u16)
    requires |s| >= 2
    ensures r / 256 == s[0] && r % 256 == s[1]
  {
    s[0] as int * 256 + s[1] as int
  }

  /** Decoding an encoded value gives the value back. */
  lemma DecodeEncodeU16(v: u16)
    ensures DecodeU16(EncodeU16(v)) == v
  {
  }

  /** Encoding a decoded pair of bytes gives the same two bytes back, so the
      codec is a bijection between `u16` and two-byte strings. */
  lemma EncodeDecodeU16(s: seq<byte>)
    requires |s| >= 2
    ensures EncodeU16(DecodeU16(s)) == s[..2]
  {
    var d := DecodeU16(s);
    assert d / 256 == s[0] && d % 256 == s[1];
    assert s[..2] == [s[0], s[1]];
  }

  /** A slice of a slice is a slice of the original. */
  lemma SliceOfSlice<T>(a: seq<T>, k: nat, m: nat, i: nat, j: nat)
    requires k <= m <= |a| && i <= j <= m - k
    ensures a[k..m][i..j] == a[k + i..k + j]
  {
    var l, r := a[k..m][i..j], a[k + i..k + j];
    assert |l| == |r|;
    forall t | 0 <= t < |l|
      ensures l[t] == r[t]
    {
      assert l[t] == a[k..m][i + t] == a[k + i + t];
    }
  }

  /* ---------------- exclusive or ---------------- */

  /** Bitwise exclusive or of two naturals, computed from the lowest bit up. */
  function Xor(a: nat, b: nat): nat
    decreases a
  {
    if a == 0 then b
    else if b == 0 then a
    else 2 * Xor(a / 2, b / 2) + (a + b) % 2
  }

  /** The low bit of `Xor(a, b)` is the sum of the low bits modulo 2, and the
      remaining bits are the exclusive or of the remaining bits. */
  lemma XorBits(a: nat, b: nat)
    ensures Xor(a, b) % 2 == (a + b) % 2
    ensures Xor(a, b) / 2 == Xor(a / 2, b / 2)
  {
    if a == 0 {
      assert Xor(a / 2, b / 2) == b / 2;
    } else if b == 0 {
      assert Xor(a / 2, b / 2) == a / 2;
    } else {
      var h := Xor(a / 2, b / 2);
      assert Xor(a, b) == 2 * h + (a + b) % 2;
      Halves(h, (a + b) % 2);
    }
  }

  lemma Halves(h: nat, r: nat)
    requires r < 2
    ensures (2 * h + r) % 2 == r && (2 * h + r) / 2 == h
  {
  }

  /** A natural is determined by its low bit and the rest. */
  lemma BitsDetermine(x: nat, y: nat)
    requires x % 2 == y % 2 && x / 2 == y / 2
    ensures x == y
  {
  }

  lemma {:induction false} XorComm(a: nat, b: nat)
    ensures Xor(a, b) == Xor(b, a)
    decreases a + b
  {
    if a != 0 && b != 0 {
      XorComm(a / 2, b / 2);
    }
  }

  lemma Parity(x: nat, y: nat, z: nat)
    requires x % 2 == y % 2
    ensures (x + z) % 2 == (y + z) % 2
  {
  }

  lemma ParityCancel(x: nat, y: nat, z: nat)
    requires (x + z) % 2 == (y + z) % 2
    ensures x % 2 == y % 2
  {
  }

  /** The low bit of `(a ^ b) ^ c` is the parity of `a + b + c`. */
  lemma XorLeftLow(a: nat, b: nat, c: nat)
    ensures Xor(Xor(a, b), c) % 2 == (a + b + c) % 2
  {
    var ab := Xor(a, b);
    XorBits(a, b);
    XorBits(ab, c);
    Parity(ab, a + b, c);
  }

  /** The low bit of `a ^ (b ^ c)` is the parity of `a + b + c`. */
  lemma XorRightLow(a: nat, b: nat, c: nat)
    ensures Xor(a, Xor(b, c)) % 2 == (a + b + c) % 2
  {
    var bc := Xor(b, c);
    XorBits(b, c);
    XorBits(a, bc);
    Parity(bc, b + c, a);
  }

  /** The bits above the lowest of `(a ^ b) ^ c`. */
  lemma XorLeftHigh(a: nat, b: nat, c: nat)
    ensures Xor(Xor(a, b), c) / 2 == Xor(Xor(a / 2, b / 2), c / 2)
  {
    var ab := Xor(a, b);
    XorBits(a, b);
    XorBits(ab, c);
  }

  /** The bits above the lowest of `a ^ (b ^ c)`. */
  lemma XorRightHigh(a: nat, b: nat, c: nat)
    ensures Xor(a, Xor(b, c)) / 2 == Xor(a / 2, Xor(b / 2, c / 2))
  {
    var bc := Xor(b, c);
    XorBits(b, c);
    XorBits(a, bc);
  }

  lemma {:induction false} XorAssoc(a: nat, b: nat, c: nat)
    ensures Xor(Xor(a, b), c) == Xor(a, Xor(b, c))
    decreases a + b + c
  {
    if a + b + c != 0 {
      XorLeftLow(a, b, c);
      XorRightLow(a, b, c);
      XorLeftHigh(a, b, c);
      XorRightHigh(a, b, c);
      XorAssoc(a / 2, b / 2, c / 2);
      BitsDetermine(Xor(Xor(a, b), c), Xor(a, Xor(b, c)));
    }
  }

  /** Exclusive or with a fixed value is injective. */
  lemma {:induction false} XorCancel(a: nat, b: nat, q: nat)
    requires Xor(a, q) == Xor(b, q)
    ensures a == b
    decreases a + b
  {
    if a + b != 0 {
      XorBits(a, q);
      XorBits(b, q);
      XorCancel(a / 2, b / 2, q / 2);
      ParityCancel(a, b, q);
      BitsDetermine(a, b);
    }
  }

  function Pow2(n: nat): nat {
    if n == 0 then 1 else 2 * Pow2(n - 1)
  }

  /** Exclusive or keeps values within `n` bits. */
  lemma {:induction false} XorBound(a: nat, b: nat, n: nat)
    requires a < Pow2(n) && b < Pow2(n)
    ensures Xor(a, b) < Pow2(n)
  {
    if n > 0 {
      XorBits(a, b);
      XorBound(a / 2, b / 2, n - 1);
    }
  }

  /** Exclusive or of two bytes. */
  function XorByte(a: byte, b: byte): (r: byte)
    ensures r == Xor(a, b)
  {
    assert Pow2(8) == 256;
    XorBound(a, b, 8);
    Xor(a, b)
  }

  /** XOR of all bytes of `s` (0 for the empty sequence). */
  function XorAll(s: seq<byte>): byte {
    if |s| == 0 then 0 else XorByte(s[0], XorAll(s[1..]))
  }

  lemma {:induction false} XorAllAppend(a: seq<byte>, b: seq<byte>)
    ensures XorAll(a + b) == Xor(XorAll(a), XorAll(b))
  {
    if |a| == 0 {
      assert a + b == b;
    } else {
      assert (a + b)[1..] == a[1..] + b;
      XorAllAppend(a[1..], b);
      XorAssoc(a[0], XorAll(a[1..]), XorAll(b));
    }
  }

  /** The fold splits around any position. */
  lemma XorAllSplit(s: seq<byte>, k: nat)
    requires k < |s|
    ensures XorAll(s) == Xor(Xor(XorAll(s[..k]), s[k]), XorAll(s[k+1..]))
  {
    var t := [s[k]] + s[k+1..];
    assert s == s[..k] + t;
    XorAllAppend(s[..k], t);
    assert t[1..] == s[k+1..];
    XorAssoc(XorAll(s[..k]), s[k], XorAll(s[k+1..]));
  }

  /** Changing the middle operand changes the result. */
  lemma XorNeq(p: nat, x: nat, y: nat, q: nat)
    requires x != y
    ensures Xor(Xor(p, x), q) != Xor(Xor(p, y), q)
  {
    if Xor(Xor(p, x), q) == Xor(Xor(p, y), q) {
      XorCancel(Xor(p, x), Xor(p, y), q);
      XorComm(p, x);
      XorComm(p, y);
      XorCancel(x, y, p);
    }
  }

  /** Changing exactly one byte always changes the XOR of the sequence. */
  lemma XorAllDetectsOneByte(a: seq<byte>, b: seq<byte>, k: nat)
    requires |a| == |b| && k < |a|
    requires a[k] != b[k]
    requires forall j :: 0 <= j < |a| && j != k ==> a[j] == b[j]
    ensures XorAll(a) != XorAll(b)
  {
    assert a[..k] == b[..k];
    assert a[k+1..] == b[k+1..];
    XorAllSplit(a, k);
    XorAllSplit(b, k);
    XorNeq(XorAll(a[..k]), a[k], b[k], XorAll(a[k+1..]));
  }
}
