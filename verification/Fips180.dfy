/** SHA-256 as FIPS 180-4 defines it, written without reference to any implementation:
    bit operations (section 4.1.2), constants (sections 4.2.2 and 5.3.3), padding
    (section 5.1.1), message schedule and compression (section 6.2.2). */
module Fips180 {

  type Byte = bv8
  type Word = bv32

  /** The eight working variables of section 6.2.2, step 2. */
  datatype Regs = Regs(a: Word, b: Word, c: Word, d: Word, e: Word, f: Word, g: Word, h: Word)

  // ---------- Section 4.1.2: functions on words ----------

  /** Addition modulo 2^32 (section 3.2). */
  function Add(x: Word, y: Word): Word { x + y }

  function Add4(x: Word, y: Word, z: Word, w: Word): Word { Add(Add(Add(x, y), z), w) }

  function Add5(x: Word, y: Word, z: Word, w: Word, v: Word): Word { Add(Add4(x, y, z, w), v) }

  function Ch(x: Word, y: Word, z: Word): Word { (x & y) ^ (!x & z) }
  function Maj(x: Word, y: Word, z: Word): Word { (x & y) ^ (x & z) ^ (y & z) }
  function BigSigma0(x: Word): Word { x.RotateRight(2) ^ x.RotateRight(13) ^ x.RotateRight(22) }
  function BigSigma1(x: Word): Word { x.RotateRight(6) ^ x.RotateRight(11) ^ x.RotateRight(25) }
  function SmallSigma0(x: Word): Word { x.RotateRight(7) ^ x.RotateRight(18) ^ (x >> 3) }
  function SmallSigma1(x: Word): Word { x.RotateRight(17) ^ x.RotateRight(19) ^ (x >> 10) }

  // ---------- Section 4.2.2 and section 5.3.3: constants ----------

  /** The round constant K_t. */
  function K(t: nat): Word
    requires t < 64
  {
    match t
    case 0 => 0x428a2f98 case 1 => 0x71374491 case 2 => 0xb5c0fbcf case 3 => 0xe9b5dba5
    case 4 => 0x3956c25b case 5 => 0x59f111f1 case 6 => 0x923f82a4 case 7 => 0xab1c5ed5
    case 8 => 0xd807aa98 case 9 => 0x12835b01 case 10 => 0x243185be case 11 => 0x550c7dc3
    case 12 => 0x72be5d74 case 13 => 0x80deb1fe case 14 => 0x9bdc06a7 case 15 => 0xc19bf174
    case 16 => 0xe49b69c1 case 17 => 0xefbe4786 case 18 => 0x0fc19dc6 case 19 => 0x240ca1cc
    case 20 => 0x2de92c6f case 21 => 0x4a7484aa case 22 => 0x5cb0a9dc case 23 => 0x76f988da
    case 24 => 0x983e5152 case 25 => 0xa831c66d case 26 => 0xb00327c8 case 27 => 0xbf597fc7
    case 28 => 0xc6e00bf3 case 29 => 0xd5a79147 case 30 => 0x06ca6351 case 31 => 0x14292967
    case 32 => 0x27b70a85 case 33 => 0x2e1b2138 case 34 => 0x4d2c6dfc case 35 => 0x53380d13
    case 36 => 0x650a7354 case 37 => 0x766a0abb case 38 => 0x81c2c92e case 39 => 0x92722c85
    case 40 => 0xa2bfe8a1 case 41 => 0xa81a664b case 42 => 0xc24b8b70 case 43 => 0xc76c51a3
    case 44 => 0xd192e819 case 45 => 0xd6990624 case 46 => 0xf40e3585 case 47 => 0x106aa070
    case 48 => 0x19a4c116 case 49 => 0x1e376c08 case 50 => 0x2748774c case 51 => 0x34b0bcb5
    case 52 => 0x391c0cb3 case 53 => 0x4ed8aa4a case 54 => 0x5b9cca4f case 55 => 0x682e6ff3
    case 56 => 0x748f82ee case 57 => 0x78a5636f case 58 => 0x84c87814 case 59 => 0x8cc70208
    case 60 => 0x90befffa case 61 => 0xa4506ceb case 62 => 0xbef9a3f7 case _ => 0xc67178f2
  }

  /** The initial hash value H(0). */
  function H0(): Regs {
    Regs(0x6a09e667, 0xbb67ae85, 0x3c6ef372, 0xa54ff53a, 0x510e527f, 0x9b05688c, 0x1f83d9ab, 0x5be0cd19)
  }

  // ---------- Section 5.1.1: padding, over bytes ----------

  function ByteOf(n: nat): Byte { (n % 0x100) as Byte }

  /** The low k bytes of n, most significant first. */
  function BigEndian(n: nat, k: nat): (bytes: seq<Byte>)
    ensures |bytes| == k
  {
    if k == 0 then [] else BigEndian(n / 0x100, k - 1) + [ByteOf(n)]
  }

  /** The smallest number of zero bytes that leaves room for exactly the length block. */
  function ZeroCount(n: nat): (k: nat)
    ensures (n + 1 + k + 8) % 64 == 0 && k < 64
  {
    (119 - n % 64) % 64
  }

  function Zeros(k: nat): (z: seq<Byte>)
    ensures |z| == k && forall i :: 0 <= i < k ==> z[i] == 0
  {
    seq(k, i => 0)
  }

  function Pad(m: seq<Byte>): (padded: seq<Byte>)
    ensures |padded| % 64 == 0
    ensures |m| + 9 <= |padded| < |m| + 9 + 64
  {
    m + [0x80] + Zeros(ZeroCount(|m|)) + BigEndian(8 * |m|, 8)
  }

  // ---------- Section 6.2.2: hash computation ----------

  function Pack(b0: Byte, b1: Byte, b2: Byte, b3: Byte): Word {
    ((b0 as Word) << 24) | ((b1 as Word) << 16) | ((b2 as Word) << 8) | (b3 as Word)
  }

  /** The message schedule word W_t of a block. */
  function W(block: seq<Byte>, t: nat): Word
    requires |block| == 64 && t < 64
  {
    if t < 16 then
      Pack(block[4 * t], block[4 * t + 1], block[4 * t + 2], block[4 * t + 3])
    else
      Add4(SmallSigma1(W(block, t - 2)), W(block, t - 7), SmallSigma0(W(block, t - 15)), W(block, t - 16))
  }

  /** One iteration of step 3. */
  function Round(r: Regs, k: Word, w: Word): Regs {
    var t1 := Add5(r.h, BigSigma1(r.e), Ch(r.e, r.f, r.g), k, w);
    var t2 := Add(BigSigma0(r.a), Maj(r.a, r.b, r.c));
    Regs(Add(t1, t2), r.a, r.b, r.c, Add(r.d, t1), r.e, r.f, r.g)
  }

  function Rounds(r: Regs, block: seq<Byte>, t: nat): Regs
    requires |block| == 64 && t <= 64
  {
    if t == 0 then r else Round(Rounds(r, block, t - 1), K(t - 1), W(block, t - 1))
  }

  function AddRegs(x: Regs, y: Regs): Regs {
    Regs(Add(x.a, y.a), Add(x.b, y.b), Add(x.c, y.c), Add(x.d, y.d),
         Add(x.e, y.e), Add(x.f, y.f), Add(x.g, y.g), Add(x.h, y.h))
  }

  function Compress(r: Regs, block: seq<Byte>): Regs
    requires |block| == 64
  {
    AddRegs(r, Rounds(r, block, 64))
  }

  /** The intermediate hash value after all blocks of m. */
  function HashBlocks(m: seq<Byte>): Regs
    requires |m| % 64 == 0
  {
    if |m| == 0 then H0() else Compress(HashBlocks(m[..|m| - 64]), m[|m| - 64..])
  }

  /** A word as four bytes, most significant first. */
  function Unpack(w: Word): (bytes: seq<Byte>)
    ensures |bytes| == 4
  {
    [((w >> 24) & 0xff) as Byte, ((w >> 16) & 0xff) as Byte, ((w >> 8) & 0xff) as Byte, (w & 0xff) as Byte]
  }

  function Digest(r: Regs): (bytes: seq<Byte>)
    ensures |bytes| == 32
  {
    Unpack(r.a) + Unpack(r.b) + Unpack(r.c) + Unpack(r.d) + Unpack(r.e) + Unpack(r.f) + Unpack(r.g) + Unpack(r.h)
  }

  function Sha256(m: seq<Byte>): (bytes: seq<Byte>)
    ensures |bytes| == 32
  {
    Digest(HashBlocks(Pad(m)))
  }

  /** A byte array filled word by word, column by column, holds the digest. */
  lemma AssembleDigest(h: seq<Byte>, r: Regs)
    requires |h| == 32
    requires h[..4] == Unpack(r.a) && h[4..8] == Unpack(r.b) && h[8..12] == Unpack(r.c) && h[12..16] == Unpack(r.d)
    requires h[16..20] == Unpack(r.e) && h[20..24] == Unpack(r.f) && h[24..28] == Unpack(r.g) && h[28..] == Unpack(r.h)
    ensures h == Digest(r)
  {
    hide Unpack;
    assert h == h[..4] + h[4..8] + h[8..12] + h[12..16] + h[16..20] + h[20..24] + h[24..28] + h[28..];
  }

  // ---------- What the definitions amount to ----------

  /** Packing and unpacking words are inverse, so both use the same byte order. */
  lemma PackUnpack(b0: Byte, b1: Byte, b2: Byte, b3: Byte)
    ensures Unpack(Pack(b0, b1, b2, b3)) == [b0, b1, b2, b3]
  {}

  lemma UnpackPack(w: Word)
    ensures var b := Unpack(w); Pack(b[0], b[1], b[2], b[3]) == w
  {}

  function FromBigEndian(bytes: seq<Byte>): nat {
    if |bytes| == 0 then 0 else 0x100 * FromBigEndian(bytes[..|bytes| - 1]) + bytes[|bytes| - 1] as nat
  }

  function Pow256(k: nat): (p: nat)
    ensures p > 0
  {
    if k == 0 then 1 else 0x100 * Pow256(k - 1)
  }

  /** Converting a small number to a byte and back; shown for one high digit at a time. */
  lemma ByteRoundTrip(x: nat)
    requires x < 0x100
    ensures (x as Byte) as nat == x
  {
    match x / 0x10
    case 0 => case 1 => case 2 => case 3 => case 4 => case 5 => case 6 => case 7 =>
    case 8 => case 9 => case 10 => case 11 => case 12 => case 13 => case 14 => case _ =>
  }

  /** The length block holds the length exactly, for every length that fits. */
  lemma {:induction false} BigEndianDecodes(n: nat, k: nat)
    requires n < Pow256(k)
    ensures FromBigEndian(BigEndian(n, k)) == n
  {
    if k == 0 {
    } else {
      BigEndianDecodes(n / 0x100, k - 1);
      ByteRoundTrip(n % 0x100);
      assert BigEndian(n, k)[..k - 1] == BigEndian(n / 0x100, k - 1);
    }
  }

  lemma QuotientIsUnique(n: nat, d: nat, q: nat, r: nat)
    requires d > 0 && n == q * d + r && r < d
    ensures n / d == q && n % d == r
  {
    var e := n / d - q;
    assert e * d == r - n % d;
    assert e >= 1 ==> e * d >= d;
    assert e <= -1 ==> e * d <= -1 * d;
  }

  lemma MulSwap(c: nat, p: nat)
    ensures c * (0x100 * p) == 0x100 * (c * p)
  {}

  /** The remainder by 0x100 * p, in terms of the remainder of the quotient by 0x100. */
  lemma NestedRemainder(n: nat, p: nat)
    requires p > 0
    ensures n % (0x100 * p) == 0x100 * (n / 0x100 % p) + n % 0x100
  {
    var m := n / 0x100;
    RemainderAgain(n, p, m / p, m % p, n % 0x100);
  }

  lemma RemainderAgain(n: nat, p: nat, c: nat, e: nat, b: nat)
    requires p > 0 && n / 0x100 == c * p + e && e < p && b == n % 0x100
    ensures n % (0x100 * p) == 0x100 * e + b
  {
    MulSwap(c, p);
    var x := c * p;
    assert n == 0x100 * x + (0x100 * e + b);
    QuotientIsUnique(n, 0x100 * p, c, 0x100 * e + b);
  }

  /** Only the low k bytes of the encoded number matter, so a wrapped length encodes the same. */
  lemma {:induction false} BigEndianWraps(n: nat, k: nat)
    ensures BigEndian(n % Pow256(k), k) == BigEndian(n, k)
  {
    if k == 0 {
    } else {
      var p := Pow256(k - 1);
      NestedRemainder(n, p);
      LowByteAside(n / 0x100 % p, n % 0x100);
      BigEndianWraps(n / 0x100, k - 1);
    }
  }

  lemma LowByteAside(e: nat, b: nat)
    requires b < 0x100
    ensures (0x100 * e + b) / 0x100 == e && (0x100 * e + b) % 0x100 == b
  {}

  lemma FoldBlock(m: seq<Byte>, whole: nat)
    requires whole % 64 == 0 && |m| == whole + 64
    ensures HashBlocks(m) == Compress(HashBlocks(m[..whole]), m[whole..])
  {}

  /** The last block of a padded message when the length still fits behind the tail. */
  function OnlyBlock(tail: seq<Byte>, length: nat): (block: seq<Byte>)
    requires |tail| <= 55
    ensures |block| == 64
  {
    tail + [0x80] + Zeros(55 - |tail|) + BigEndian(8 * length, 8)
  }

  /** The last but one block when the length needs a block of its own. */
  function TailBlock(tail: seq<Byte>): (block: seq<Byte>)
    requires 55 < |tail| < 64
    ensures |block| == 64
  {
    tail + [0x80] + Zeros(63 - |tail|)
  }

  function LengthBlock(length: nat): (block: seq<Byte>)
    ensures |block| == 64
  {
    Zeros(56) + BigEndian(8 * length, 8)
  }

  lemma PadEndsInOneBlock(m: seq<Byte>, whole: nat)
    requires whole % 64 == 0 && whole <= |m| <= whole + 55
    ensures HashBlocks(Pad(m)) == Compress(HashBlocks(m[..whole]), OnlyBlock(m[whole..], |m|))
  {
    hide Compress, BigEndian;
    var block := OnlyBlock(m[whole..], |m|);
    assert Pad(m) == m[..whole] + block;
    FoldBlock(Pad(m), whole);
  }

  lemma PadEndsInTwoBlocks(m: seq<Byte>, whole: nat)
    requires whole % 64 == 0 && whole + 55 < |m| < whole + 64
    ensures HashBlocks(Pad(m))
         == Compress(Compress(HashBlocks(m[..whole]), TailBlock(m[whole..])), LengthBlock(|m|))
  {
    hide Compress, BigEndian;
    var first, second := TailBlock(m[whole..]), LengthBlock(|m|);
    var p := Pad(m);
    assert p == m[..whole] + first + second;
    FoldBlock(p, whole + 64);
    assert p[..whole + 64] == m[..whole] + first;
    FoldBlock(p[..whole + 64], whole);
  }

  /** Section 5.1.1 promises that distinct messages stay distinct once padded. */
  lemma PadIsInjective(m1: seq<Byte>, m2: seq<Byte>)
    requires |m1| < 0x2000_0000_0000_0000 && |m2| < 0x2000_0000_0000_0000
    requires Pad(m1) == Pad(m2)
    ensures m1 == m2
  {
    var p := Pad(m1);
    assert p[|p| - 8..] == BigEndian(8 * |m1|, 8);
    assert p[|p| - 8..] == BigEndian(8 * |m2|, 8);
    assert Pow256(8) == 0x1_0000_0000_0000_0000;
    BigEndianDecodes(8 * |m1|, 8);
    BigEndianDecodes(8 * |m2|, 8);
    assert m1 == p[..|m1|] && m2 == p[..|m2|];
  }
}
