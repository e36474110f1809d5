/** The streaming SHA-256 of the ArchTitan Guard, in place over a 64-byte buffer, and the
    checksum verification built on it. */
module ArchtitanGuard {
  import opened Fips180

  // ---------- The bit operations as the program writes them ----------

  function Ep0(x: Word): Word { ((x >> 2) | (x << 30)) ^ ((x >> 13) | (x << 19)) ^ ((x >> 22) | (x << 10)) }
  function Ep1(x: Word): Word { ((x >> 6) | (x << 26)) ^ ((x >> 11) | (x << 21)) ^ ((x >> 25) | (x << 7)) }
  function Sig0(x: Word): Word { ((x >> 7) | (x << 25)) ^ ((x >> 18) | (x << 14)) ^ (x >> 3) }
  function Sig1(x: Word): Word { ((x >> 17) | (x << 15)) ^ ((x >> 19) | (x << 13)) ^ (x >> 10) }

  /** The shift-and-or macros are the rotations of FIPS 180-4 section 4.1.2. */
  lemma MacrosAreFipsFunctions(x: Word)
    ensures Ep0(x) == BigSigma0(x) && Ep1(x) == BigSigma1(x)
    ensures Sig0(x) == SmallSigma0(x) && Sig1(x) == SmallSigma1(x)
  {}

  /** The program's constant table, line by line. */
  function TableRow(r: nat): (row: seq<Word>)
    requires r < 8
    ensures |row| == 8
  {
    match r
    case 0 => [0x428a2f98, 0x71374491, 0xb5c0fbcf, 0xe9b5dba5, 0x3956c25b, 0x59f111f1, 0x923f82a4, 0xab1c5ed5]
    case 1 => [0xd807aa98, 0x12835b01, 0x243185be, 0x550c7dc3, 0x72be5d74, 0x80deb1fe, 0x9bdc06a7, 0xc19bf174]
    case 2 => [0xe49b69c1, 0xefbe4786, 0x0fc19dc6, 0x240ca1cc, 0x2de92c6f, 0x4a7484aa, 0x5cb0a9dc, 0x76f988da]
    case 3 => [0x983e5152, 0xa831c66d, 0xb00327c8, 0xbf597fc7, 0xc6e00bf3, 0xd5a79147, 0x06ca6351, 0x14292967]
    case 4 => [0x27b70a85, 0x2e1b2138, 0x4d2c6dfc, 0x53380d13, 0x650a7354, 0x766a0abb, 0x81c2c92e, 0x92722c85]
    case 5 => [0xa2bfe8a1, 0xa81a664b, 0xc24b8b70, 0xc76c51a3, 0xd192e819, 0xd6990624, 0xf40e3585, 0x106aa070]
    case 6 => [0x19a4c116, 0x1e376c08, 0x2748774c, 0x34b0bcb5, 0x391c0cb3, 0x4ed8aa4a, 0x5b9cca4f, 0x682e6ff3]
    case _ => [0x748f82ee, 0x78a5636f, 0x84c87814, 0x8cc70208, 0x90befffa, 0xa4506ceb, 0xbef9a3f7, 0xc67178f2]
  }

  function Sha256K(t: nat): Word
    requires t < 64
  {
    TableRow(t / 8)[t % 8]
  }

  /** The table holds the constants of FIPS 180-4 section 4.2.2. */
  lemma TableIsFips(t: nat)
    requires t < 64
    ensures Sha256K(t) == K(t)
  {
    RowIsFips(t / 8, t % 8);
  }

  lemma RowIsFips(r: nat, j: nat)
    requires r < 8 && j < 8
    ensures TableRow(r)[j] == K(8 * r + j)
  {
    match r
    case 0 => case 1 => case 2 => case 3 => case 4 => case 5 => case 6 => case _ =>
  }

  /** The eight array elements read as FIPS working variables. */
  ghost function RegsOf(s: seq<Word>): Regs
    requires |s| == 8
  {
    Regs(s[0], s[1], s[2], s[3], s[4], s[5], s[6], s[7])
  }

  /** The value a 64-bit counter holds. */
  function Wrap64(n: nat): nat { n % 0x1_0000_0000_0000_0000 }

  lemma CounterWraps(bits: nat, more: nat)
    ensures Wrap64(Wrap64(bits) + more) == Wrap64(bits + more)
  {
    var q := bits / 0x1_0000_0000_0000_0000;
    assert bits + more == (Wrap64(bits) + more) + q * 0x1_0000_0000_0000_0000;
  }

  /** The running bit counter, wrapped at 2^64, encodes like the exact bit length. */
  lemma LengthWraps(n: nat)
    ensures BigEndian(Wrap64(8 * n), 8) == BigEndian(8 * n, 8)
  {
    assert Pow256(8) == 0x1_0000_0000_0000_0000;
    BigEndianWraps(8 * n, 8);
  }

  lemma RepeatedShifts(n: nat)
    ensures n / 0x100 / 0x100 == n / 0x1_0000
    ensures n / 0x1_0000 / 0x100 == n / 0x100_0000
    ensures n / 0x100_0000 / 0x100 == n / 0x1_0000_0000
    ensures n / 0x1_0000_0000 / 0x100 == n / 0x100_0000_0000
    ensures n / 0x100_0000_0000 / 0x100 == n / 0x1_0000_0000_0000
    ensures n / 0x1_0000_0000_0000 / 0x100 == n / 0x100_0000_0000_0000
  {}

  /** Byte i of the length field: n shifted right by 8 * (7 - i) bits and truncated. */
  function LengthByte(n: nat, i: nat): Byte
    requires i < 8
  {
    match i
    case 0 => ByteOf(n / 0x100_0000_0000_0000)
    case 1 => ByteOf(n / 0x1_0000_0000_0000)
    case 2 => ByteOf(n / 0x100_0000_0000)
    case 3 => ByteOf(n / 0x1_0000_0000)
    case 4 => ByteOf(n / 0x100_0000)
    case 5 => ByteOf(n / 0x1_0000)
    case 6 => ByteOf(n / 0x100)
    case _ => ByteOf(n)
  }

  lemma LengthBytesAreBigEndian(n: nat)
    ensures BigEndian(n, 8) == [LengthByte(n, 0), LengthByte(n, 1), LengthByte(n, 2), LengthByte(n, 3),
                                LengthByte(n, 4), LengthByte(n, 5), LengthByte(n, 6), LengthByte(n, 7)]
  {
    hide ByteOf;
    var n1 := n / 0x100; var n2 := n1 / 0x100; var n3 := n2 / 0x100; var n4 := n3 / 0x100;
    var n5 := n4 / 0x100; var n6 := n5 / 0x100; var n7 := n6 / 0x100;
    RepeatedShifts(n);
    assert BigEndian(n7, 1) == [ByteOf(n7)];
    assert BigEndian(n5, 3) == [ByteOf(n7), ByteOf(n6), ByteOf(n5)];
    assert BigEndian(n3, 5) == [ByteOf(n7), ByteOf(n6), ByteOf(n5), ByteOf(n4), ByteOf(n3)];
    assert BigEndian(n1, 7) == BigEndian(n3, 5) + [ByteOf(n2), ByteOf(n1)];
    assert BigEndian(n, 8) == BigEndian(n1, 7) + [ByteOf(n)];
  }

  /** Message m is held as r, the hash of its whole blocks, and its unhashed tail. */
  ghost predicate Holds(r: Regs, tail: seq<Byte>, bitlen: nat, m: seq<Byte>) {
    |tail| < 64 && |tail| <= |m| &&
    var whole := |m| - |tail|;
    whole % 64 == 0 && tail == m[whole..] && r == HashBlocks(m[..whole]) &&
    bitlen == Wrap64(8 * whole)
  }

  lemma HoldsNothing()
    ensures Holds(H0(), [], 0, [])
  {}

  lemma AbsorbIntoTail(r: Regs, tail: seq<Byte>, bitlen: nat, m: seq<Byte>, b: Byte)
    requires Holds(r, tail, bitlen, m) && |tail| < 63
    ensures Holds(r, tail + [b], bitlen, m + [b])
  {
    assert (m + [b])[..|m| - |tail|] == m[..|m| - |tail|];
  }

  lemma AbsorbFullBlock(r: Regs, tail: seq<Byte>, bitlen: nat, m: seq<Byte>, b: Byte)
    requires Holds(r, tail, bitlen, m) && |tail| == 63
    ensures Holds(Compress(r, tail + [b]), [], Wrap64(bitlen + 512), m + [b])
  {
    hide Compress, HashBlocks, Wrap64;
    var whole := |m| - 63;
    var full := m + [b];
    assert full[..whole] == m[..whole] && full[whole..] == tail + [b];
    FoldBlock(full, whole);
    assert full[..|full|] == full && full[|full|..] == [];
    CounterWraps(8 * whole, 512);
  }

  class Sha256Ctx {
    const state: array<Word>
    const data: array<Byte>
    var bitlen: nat
    var datalen: nat
    ghost var absorbed: seq<Byte>

    ghost predicate Shape()
      reads this
    {
      state.Length == 8 && data.Length == 64
    }

    /** Everything absorbed so far is either folded into state or waiting in data. */
    ghost predicate Valid()
      reads this, state, data
    {
      Shape() && datalen < 64 && Holds(RegsOf(state[..]), data[..datalen], bitlen, absorbed)
    }

    constructor ()
      ensures Valid() && absorbed == [] && fresh(state) && fresh(data)
    {
      hide Holds;
      HoldsNothing();
      var s := new Word[8];
      s[0], s[1], s[2], s[3] := 0x6a09e667, 0xbb67ae85, 0x3c6ef372, 0xa54ff53a;
      s[4], s[5], s[6], s[7] := 0x510e527f, 0x9b05688c, 0x1f83d9ab, 0x5be0cd19;
      state := s;
      data := new Byte[64];
      datalen, bitlen := 0, 0;
      absorbed := [];
      new;
      assert data[..0] == [];
      assert RegsOf(state[..]) == H0();
    }

    /** Folds the 64 buffered bytes into state. */
    method Transform()
      requires Shape()
      modifies state
      ensures RegsOf(state[..]) == Compress(old(RegsOf(state[..])), data[..])
    {
      hide Add, K, W, Rounds;
      var m := ExpandSchedule();
      var a, b, c, d, e, f, g, h := MixRounds(m);
      state[0], state[1] := Add(state[0], a), Add(state[1], b);
      state[2], state[3] := Add(state[2], c), Add(state[3], d);
      state[4], state[5] := Add(state[4], e), Add(state[5], f);
      state[6], state[7] := Add(state[6], g), Add(state[7], h);
    }

    /** The round loop over the eight rotating registers. */
    method MixRounds(m: array<Word>)
      returns (a: Word, b: Word, c: Word, d: Word, e: Word, f: Word, g: Word, h: Word)
      requires Shape() && m.Length == 64 && forall t :: 0 <= t < 64 ==> m[t] == W(data[..], t)
      ensures Regs(a, b, c, d, e, f, g, h) == Rounds(RegsOf(state[..]), data[..], 64)
    {
      hide Add, Add5, Ep0, Ep1, BigSigma0, BigSigma1, Ch, Maj, K, W, Sha256K;
      ghost var block, r0 := data[..], RegsOf(state[..]);
      a, b, c, d := state[0], state[1], state[2], state[3];
      e, f, g, h := state[4], state[5], state[6], state[7];
      for i := 0 to 64
        invariant Regs(a, b, c, d, e, f, g, h) == Rounds(r0, block, i)
      {
        MacrosAreFipsFunctions(e);
        MacrosAreFipsFunctions(a);
        TableIsFips(i);
        var t1 := Add5(h, Ep1(e), Ch(e, f, g), Sha256K(i), m[i]);
        var t2 := Add(Ep0(a), Maj(a, b, c));
        h := g; g := f; f := e; e := Add(d, t1);
        d := c; c := b; b := a; a := Add(t1, t2);
      }
    }

    /** The schedule loops at the head of the transform: 16 words packed, 48 derived in place. */
    method ExpandSchedule() returns (m: array<Word>)
      requires Shape()
      ensures fresh(m) && m.Length == 64
      ensures forall t :: 0 <= t < 64 ==> m[t] == W(data[..], t)
    {
      hide Add4, Sig0, Sig1, SmallSigma0, SmallSigma1, Pack;
      ghost var block := data[..];
      m := new Word[64];
      for i := 0 to 16
        invariant forall t :: 0 <= t < i ==> m[t] == W(block, t)
      {
        m[i] := Pack(data[i * 4], data[i * 4 + 1], data[i * 4 + 2], data[i * 4 + 3]);
      }
      for i := 16 to 64
        invariant forall t :: 0 <= t < i ==> m[t] == W(block, t)
      {
        MacrosAreFipsFunctions(m[i - 2]);
        MacrosAreFipsFunctions(m[i - 15]);
        m[i] := Add4(Sig1(m[i - 2]), m[i - 7], Sig0(m[i - 15]), m[i - 16]);
      }
    }

    /** Absorbs the first len bytes of input, one at a time. */
    method Update(input: array<Byte>, len: nat)
      requires Valid() && len <= input.Length
      requires input != data
      modifies this, state, data
      ensures Valid() && absorbed == old(absorbed) + input[..len]
    {
      hide Holds;
      for i := 0 to len
        invariant Valid() && absorbed == old(absorbed) + input[..i]
      {
        assert input[..i + 1] == input[..i] + [input[i]];
        AbsorbByte(input[i]);
      }
    }

    /** The body of the update loop. */
    method AbsorbByte(b: Byte)
      requires Valid()
      modifies this, state, data
      ensures Valid() && absorbed == old(absorbed) + [b]
    {
      hide Holds, Compress;
      ghost var r, tail, bits, m := RegsOf(state[..]), data[..datalen], bitlen, absorbed;
      data[datalen] := b;
      datalen := datalen + 1;
      absorbed := absorbed + [b];
      assert data[..datalen] == tail + [b];
      if datalen == 64 {
        assert data[..] == tail + [b];
        Transform();
        bitlen := Wrap64(bitlen + 512);
        datalen := 0;
        assert data[..0] == [];
        AbsorbFullBlock(r, tail, bits, m, b);
      } else {
        AbsorbIntoTail(r, tail, bits, m, b);
      }
    }

    /** Pads in place, in one block or in two, and writes the digest. */
    method Final(hash: array<Byte>)
      requires Valid() && hash.Length == 32
      requires hash != data
      modifies this, state, data, hash
      ensures hash[..] == Sha256(old(absorbed))
    {
      PadAndFold();
      WriteDigest(hash);
    }

    /** The padding part: state ends as the hash of the whole padded message. */
    method PadAndFold()
      requires Valid()
      modifies this, state, data
      ensures RegsOf(state[..]) == HashBlocks(Pad(old(absorbed)))
    {
      hide Compress, Pad, BigEndian, Zeros, HashBlocks, Wrap64;
      ghost var msg, tail := absorbed, data[..datalen];
      ghost var whole := |msg| - datalen;
      MarkEnd();
      CounterWraps(8 * whole, datalen * 8);
      bitlen := Wrap64(bitlen + datalen * 8);
      PutLength();
      LengthWraps(|msg|);
      if datalen <= 55 {
        assert data[..] == OnlyBlock(tail, |msg|);
        PadEndsInOneBlock(msg, whole);
      } else {
        assert data[..] == LengthBlock(|msg|);
        PadEndsInTwoBlocks(msg, whole);
      }
      Transform();
    }

    /** Appends the 0x80 byte and zeros up to the length field, folding a block that has no room for it. */
    method MarkEnd()
      requires Shape() && datalen < 64
      modifies state, data
      ensures old(datalen) <= 55 ==> data[..56] == old(data[..datalen]) + [0x80] + Zeros(55 - datalen) &&
                                     RegsOf(state[..]) == old(RegsOf(state[..]))
      ensures old(datalen) > 55 ==> data[..56] == Zeros(56) &&
                                    RegsOf(state[..]) ==
                                    Compress(old(RegsOf(state[..])), TailBlock(old(data[..datalen])))
    {
      hide Compress, Zeros;
      ghost var tail := data[..datalen];
      var i := datalen;
      data[i] := 0x80;
      i := i + 1;
      assert data[..i] == tail + [0x80];
      if i > 56 {
        ZeroFill(i, 64);
        assert data[..] == TailBlock(tail);
        Transform();
        i := 0;
      }
      ZeroFill(i, 56);
      assert data[..56] == data[..i] + data[i..56];
    }

    method ZeroFill(from: nat, to: nat)
      requires Shape() && from <= to <= 64
      modifies data
      ensures data[..from] == old(data[..from]) && data[from..to] == Zeros(to - from)
      ensures data[to..] == old(data[to..])
    {
      var i := from;
      while i < to
        invariant from <= i <= to
        invariant data[..from] == old(data[..from]) && data[to..] == old(data[to..])
        invariant forall k :: from <= k < i ==> data[k] == 0
      {
        data[i] := 0x00;
        i := i + 1;
      }
    }

    /** Stores the eight bytes of bitlen, least significant last. */
    method PutLength()
      requires Shape()
      modifies data
      ensures data[..56] == old(data[..56]) && data[56..] == BigEndian(bitlen, 8)
    {
      hide LengthByte, BigEndian;
      LengthBytesAreBigEndian(bitlen);
      for i := 0 to 8
        invariant data[..56] == old(data[..56])
        invariant forall k :: 0 <= k < i ==> data[56 + k] == BigEndian(bitlen, 8)[k]
      {
        data[56 + i] := LengthByte(bitlen, i);
      }
    }

    /** Byte i of each of the eight words goes to column i of its own four bytes. */
    method WriteDigest(hash: array<Byte>)
      requires Shape() && hash.Length == 32
      modifies hash
      ensures hash[..] == Digest(RegsOf(state[..]))
    {
      hide Digest, Unpack;
      for i := 0 to 4
        invariant ColumnsDone(hash[..], state[..], i, 0)
      {
        for word := 0 to 8
          invariant ColumnsDone(hash[..], state[..], i, word)
        {
          ByteWritten(hash[..], state[..], i, word);
          hash[4 * word + i] := Unpack(state[word])[i];
        }
      }
      RowsDone(hash[..], state[..]);
      AssembleDigest(hash[..], RegsOf(state[..]));
    }
  }

  // ---------- The digest, column by column ----------

  /** The first i columns are written, and column i for the first few words. */
  ghost predicate ColumnsDone(hash: seq<Byte>, words: seq<Word>, i: nat, upto: nat)
    requires |hash| == 32 && |words| == 8
  {
    forall j, k :: 0 <= j < 8 && 0 <= k < 4 && (k < i || (k == i && j < upto)) ==>
      hash[4 * j + k] == Unpack(words[j])[k]
  }

  lemma ByteWritten(hash: seq<Byte>, words: seq<Word>, i: nat, j: nat)
    requires |hash| == 32 && |words| == 8 && i < 4 && j < 8 && ColumnsDone(hash, words, i, j)
    ensures ColumnsDone(hash[4 * j + i := Unpack(words[j])[i]], words, i, j + 1)
  {
    hide Unpack;
  }

  lemma RowsDone(hash: seq<Byte>, words: seq<Word>)
    requires |hash| == 32 && |words| == 8 && ColumnsDone(hash, words, 4, 0)
    ensures forall j :: 0 <= j < 8 ==> hash[4 * j..4 * j + 4] == Unpack(words[j])
  {
    hide Unpack;
  }
}
