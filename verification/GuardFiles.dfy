/** The guard's file layer: the read loop around the hash, and the verify-or-restore check. */
module GuardFiles {
  import opened ArchtitanGuard
  import opened Fips180
  import opened Sequences
  import opened Text

  const READ_SIZE := 8192

  function Hex(bytes: seq<Byte>): (s: string)
    ensures |s| == 2 * |bytes|
  {
    if bytes == [] then ""
    else Hex(bytes[..|bytes| - 1]) + HexByte(bytes[|bytes| - 1])
  }

  function HexByte(b: Byte): (s: string)
    ensures |s| == 2
  {
    HexPair(b as nat)
  }

  lemma HexDigitIsInjective(m: nat, n: nat)
    requires m < 16 && n < 16 && HexDigit(m) == HexDigit(n)
    ensures m == n
  {}

  lemma HexPairIsInjective(m: nat, n: nat)
    requires m < 0x100 && n < 0x100 && HexPair(m) == HexPair(n)
    ensures m == n
  {
    hide HexDigit;
    assert HexPair(m)[0] == HexPair(n)[0] && HexPair(m)[1] == HexPair(n)[1];
    HexDigitIsInjective(m / 16, n / 16);
    HexDigitIsInjective(m % 16, n % 16);
  }

  lemma ByteFromNat(b: Byte)
    ensures (b as nat) as Byte == b
  {}

  lemma HexByteIsInjective(x: Byte, y: Byte)
    requires HexByte(x) == HexByte(y)
    ensures x == y
  {
    hide HexPair;
    HexPairIsInjective(x as nat, y as nat);
    ByteFromNat(x);
    ByteFromNat(y);
  }

  /** Equal hexadecimal text means equal digests. */
  lemma {:induction false} HexIsInjective(x: seq<Byte>, y: seq<Byte>)
    requires Hex(x) == Hex(y)
    ensures x == y
  {
    if x == [] || y == [] {
    } else {
      var n := |x| - 1;
      assert Hex(x)[..2 * n] == Hex(x[..n]) && Hex(y)[..2 * n] == Hex(y[..n]);
      assert HexByte(x[n]) == Hex(x)[2 * n..] && HexByte(y[n]) == Hex(y)[2 * n..];
      HexIsInjective(x[..n], y[..n]);
      HexByteIsInjective(x[n], y[n]);
    }
  }

  /** Compares two hexadecimal strings character by character, ignoring case. */
  method HexEqual(a: string, b: string) returns (equal: bool)
    ensures equal <==> Lower(a) == Lower(b)
  {
    var i := 0;
    while i < |a| && i < |b|
      invariant i <= |a| && i <= |b|
      invariant Lower(a)[..i] == Lower(b)[..i]
    {
      if Fold(a[i]) != Fold(b[i]) {
        assert Lower(a)[i] != Lower(b)[i];
        return false;
      }
      i := i + 1;
    }
    equal := i == |a| && i == |b|;
    assert equal ==> Lower(a) == Lower(a)[..i] && Lower(b) == Lower(b)[..i];
  }

  lemma PiecesJoin(s: seq<Byte>, pos: nat, n: nat)
    requires pos + n <= |s|
    ensures s[..pos] + s[pos..pos + n] == s[..pos + n]
  {}

  /** One read: any non-empty amount up to the size of the buffer. */
  method ReadPiece(readable: seq<Byte>, pos: nat, buf: array<Byte>) returns (n: nat)
    requires pos < |readable| && buf.Length == READ_SIZE
    modifies buf
    ensures 0 < n <= buf.Length && pos + n <= |readable| && buf[..n] == readable[pos..pos + n]
  {
    n :| 0 < n <= READ_SIZE && n <= |readable| - pos;
    forall i | 0 <= i < n {
      buf[i] := readable[pos + i];
    }
  }

  /** Hashes a file through a fixed buffer, until the file ends or a read fails after got bytes; the loop does not
      tell the two apart. */
  method HashFile(content: seq<Byte>, got: nat) returns (hex: string)
    ensures hex == Hex(Sha256(Clipped(content, got)))
  {
    hide Sha256, Holds, Hex;
    var ctx := new Sha256Ctx();
    var buf := new Byte[READ_SIZE];
    var readable := Clipped(content, got);
    var pos := 0;
    while pos < |readable|
      invariant pos <= |readable|
      invariant ctx.Valid() && ctx.absorbed == readable[..pos]
      invariant fresh(ctx) && fresh(ctx.state) && fresh(ctx.data) && buf != ctx.data
    {
      var n := ReadPiece(readable, pos, buf);
      PiecesJoin(readable, pos, n);
      ctx.Update(buf, n);
      pos := pos + n;
    }
    assert readable[..pos] == readable;
    var hash := new Byte[32];
    ctx.Final(hash);
    hex := HexOf(hash);
  }

  /** Two digits for each byte, in order. */
  method HexOf(hash: array<Byte>) returns (hex: string)
    ensures hex == Hex(hash[..])
  {
    hide HexByte;
    hex := "";
    for i := 0 to hash.Length
      invariant hex == Hex(hash[..i])
    {
      assert hash[..i + 1][..i] == hash[..i];
      hex := hex + HexByte(hash[i]);
    }
    assert hash[..hash.Length] == hash[..];
  }

  /** Whether content has the expected checksum. */
  ghost predicate Matches(content: seq<Byte>, expected: string) {
    Lower(Hex(Sha256(content))) == Lower(expected)
  }

  // ---------- Verify or restore ----------

  /** How the file system answers one verification: how many bytes come out of the file and out of the backup before a
      read fails, whether the backup opens again and the file opens for writing, how many bytes the copy loop reads,
      how many of them the writes accept, and how many have reached the file once it is closed. */
  datatype Io = Io(hashed: nat, hashedBackup: nat, reopened: bool, writable: bool, copied: nat, wrote: nat, kept: nat)

  type Files = map<string, seq<Byte>>

  ghost predicate LooksIntact(files: Files, path: string, expected: string, got: nat) {
    path in files && Matches(Clipped(files[path], got), expected)
  }

  /** What the copy of a backup leaves in the file. */
  function Restored(backup: seq<Byte>, io: Io): seq<Byte> {
    Clipped(Clipped(Clipped(backup, io.copied), io.wrote), io.kept)
  }

  ghost predicate Restores(files: Files, path: string, expected: string, backup: string, io: Io) {
    !LooksIntact(files, path, expected, io.hashed) && LooksIntact(files, backup, expected, io.hashedBackup) &&
    io.reopened && io.writable
  }

  /** What the copy loop finds in the backup: nothing when opening the file for writing has just emptied it. */
  function CopySource(files: Files, path: string, backup: string): seq<Byte>
    requires backup in files
  {
    if path == backup then [] else files[backup]
  }

  ghost predicate Succeeds(files: Files, path: string, expected: string, backup: string, io: Io) {
    LooksIntact(files, path, expected, io.hashed) ||
    (Restores(files, path, expected, backup, io) && io.wrote >= |Clipped(CopySource(files, path, backup), io.copied)|)
  }

  ghost function Verified(files: Files, path: string, expected: string, backup: string, io: Io): Files {
    if Restores(files, path, expected, backup, io)
    then files[path := Restored(CopySource(files, path, backup), io)] else files
  }

  lemma {:induction false} HexIsLower(bytes: seq<Byte>)
    ensures Lower(Hex(bytes)) == Hex(bytes)
  {
    if bytes == [] {
    } else {
      var n := |bytes| - 1;
      HexIsLower(bytes[..n]);
      var pair := HexByte(bytes[n]);
      PairIsLower(bytes[n] as nat);
      assert forall i :: 0 <= i < |Hex(bytes[..n])| ==> Fold(Hex(bytes[..n])[i]) == Hex(bytes[..n])[i] by {
        assert forall i :: 0 <= i < |Hex(bytes[..n])| ==> Lower(Hex(bytes[..n]))[i] == Hex(bytes[..n])[i];
      }
    }
  }

  lemma PairIsLower(n: nat)
    requires n < 0x100
    ensures Fold(HexPair(n)[0]) == HexPair(n)[0] && Fold(HexPair(n)[1]) == HexPair(n)[1]
  {}

  /** Two contents match the same checksum if and only if their digests are equal. */
  lemma SameChecksum(x: seq<Byte>, y: seq<Byte>, expected: string)
    requires Matches(x, expected)
    ensures Matches(y, expected) <==> Sha256(y) == Sha256(x)
  {
    hide Hex, Sha256;
    HexIsLower(Sha256(x));
    HexIsLower(Sha256(y));
    if Hex(Sha256(x)) == Hex(Sha256(y)) { HexIsInjective(Sha256(x), Sha256(y)); }
  }

  /** Without failing reads, and with everything flushed when the file is closed, success means the file has the
      expected checksum. */
  lemma SuccessMeansIntact(files: Files, path: string, expected: string, backup: string, io: Io)
    requires Succeeds(files, path, expected, backup, io)
    requires path in files ==> io.hashed >= |files[path]|
    requires backup in files ==> |files[backup]| <= Least3(io.hashedBackup, io.copied, io.kept)
    ensures var after := Verified(files, path, expected, backup, io); path in after && Matches(after[path], expected)
  {
    hide Matches;
  }

  function Least3(a: nat, b: nat, c: nat): nat {
    if a <= b && a <= c then a else if b <= c then b else c
  }

  // ---------- When everything works ----------

  /** Every read comes to the end of the file, and what is copied is accepted and flushed in full. */
  predicate Complete(files: Files, path: string, backup: string, io: Io) {
    (path in files ==> io.hashed >= |files[path]|) && io.reopened && io.writable &&
    (backup in files ==> |files[backup]| <= Least3(io.hashedBackup, io.copied, io.kept) && io.wrote >= |files[backup]|)
  }

  /** The file is there and has the checksum. */
  ghost predicate IsIntact(files: Files, path: string, expected: string) {
    path in files && Matches(files[path], expected)
  }

  /** What verifying is for: an intact file stays as it is, one that is missing or changed becomes the backup if that is
      intact, and without either the verification fails and changes nothing. */
  lemma TamperedFileIsRestored(files: Files, path: string, expected: string, backup: string, io: Io)
    requires Complete(files, path, backup, io) && path != backup
    ensures Succeeds(files, path, expected, backup, io) <==>
            IsIntact(files, path, expected) || IsIntact(files, backup, expected)
    ensures Verified(files, path, expected, backup, io) ==
            if !IsIntact(files, path, expected) && IsIntact(files, backup, expected)
            then files[path := files[backup]] else files
  {
    hide Matches;
  }

  /** A file accepted as it is has the expected checksum if and only if no part of it went unread or SHA-256 does not
      notice. */
  lemma AcceptedIffRead(files: Files, path: string, expected: string, got: nat)
    requires LooksIntact(files, path, expected, got)
    ensures Matches(files[path], expected) <==> Sha256(files[path]) == Sha256(Clipped(files[path], got))
    ensures got >= |files[path]| ==> Matches(files[path], expected)
  {
    hide Matches, Sha256;
    SameChecksum(Clipped(files[path], got), files[path], expected);
  }

  /** Exactly when a reported restoration is one: the file is the backup if and only if the two are different files
      and the copy was read and flushed to its end, or there was nothing to copy; and it has the expected checksum if
      and only if nothing is missing or SHA-256 does not notice. */
  lemma RestoredIffFlushed(files: Files, path: string, expected: string, backup: string, io: Io)
    requires Succeeds(files, path, expected, backup, io) && Restores(files, path, expected, backup, io)
    requires io.hashedBackup >= |files[backup]|
    ensures var b, after := files[backup], Verified(files, path, expected, backup, io)[path];
            (after == b <==> (path != backup || b == []) && io.copied >= |b| && io.kept >= |b|) &&
            (Matches(after, expected) <==> Sha256(after) == Sha256(b))
  {
    hide Matches, Sha256;
    SameChecksum(files[backup], Restored(CopySource(files, path, backup), io), expected);
  }

  /** Every backup of at least one byte is a failing input: with nothing flushed, success is reported for an empty
      file, which has the expected checksum only if the backup collides with the empty message. */
  lemma LostFlushIsReportedAsSuccess(b: seq<Byte>)
    requires b != []
    ensures var files, expected := map["backup" := b], Hex(Sha256(b));
            var io := Io(0, |b|, true, true, |b|, |b|, 0);
            Succeeds(files, "file", expected, "backup", io) &&
            Verified(files, "file", expected, "backup", io)["file"] == [] &&
            (Matches([], expected) <==> Sha256([]) == Sha256(b))
  {
    hide Matches, Sha256, Hex;
    var files, expected := map["backup" := b], Hex(Sha256(b));
    assert Matches(b, expected) by { ItsOwnChecksum(b); }
    assert "file" != "backup";
    SameChecksum(b, [], expected);
  }

  lemma ItsOwnChecksum(b: seq<Byte>)
    ensures Matches(b, Hex(Sha256(b)))
  {}

  class FileStore {
    var files: Files

    /** Accepts a file that looks intact as it is; otherwise copies over it a backup that looks intact, or fails. */
    method VerifyFileChecksum(path: string, expected: string, backup: string, io: Io) returns (ok: bool)
      modifies this
      ensures ok <==> Succeeds(old(files), path, expected, backup, io)
      ensures files == Verified(old(files), path, expected, backup, io)
      ensures path != backup && Complete(old(files), path, backup, io) ==>
                (ok <==> old(IsIntact(files, path, expected) || IsIntact(files, backup, expected))) &&
                (ok <==> IsIntact(files, path, expected)) &&
                files == if old(!IsIntact(files, path, expected) && IsIntact(files, backup, expected))
                         then old(files)[path := old(files)[backup]] else old(files)
    {
      hide Matches;
      if path != backup && Complete(files, path, backup, io) {
        TamperedFileIsRestored(files, path, expected, backup, io);
      }
      var intact := FileMatches(path, expected, io.hashed);
      if intact {
        return true;
      }
      var usable := FileMatches(backup, expected, io.hashedBackup);
      if !usable || !io.reopened {
        return false;
      }
      ok := CopyInto(backup, path, io);
    }

    /** Copies the backup over path through the buffer, giving up at the first write that is not accepted in full.
        Opening path empties it before anything is read. Closing it is not checked, so what the last writes left in the
        stream's buffer may be missing. */
    method CopyInto(backup: string, path: string, io: Io) returns (ok: bool)
      requires backup in files
      modifies this
      ensures var source := CopySource(old(files), path, backup);
              (ok <==> io.writable && io.wrote >= |Clipped(source, io.copied)|) &&
              files == if io.writable then old(files)[path := Restored(source, io)] else old(files)
    {
      if !io.writable {
        return false;
      }
      files := files[path := []];
      ghost var before := old(files);
      var readable := Clipped(files[backup], io.copied);
      var pos := 0;
      ok := true;
      while pos < |readable|
        invariant pos <= |readable| && pos <= io.wrote
        invariant ok && files == before[path := readable[..pos]]
      {
        var n: nat :| 0 < n <= READ_SIZE && n <= |readable| - pos;
        var part := if pos + n <= io.wrote then n else io.wrote - pos;
        files := files[path := readable[..pos + part]];
        pos := pos + part;
        if part != n {
          ok := false;
          break;
        }
      }
      assert readable[..pos] == Clipped(readable, io.wrote);
      assert files == before[path := Clipped(readable, io.wrote)];
      hide Clipped;
      files := files[path := Clipped(files[path], io.kept)];
    }

    method FileMatches(path: string, expected: string, got: nat) returns (same: bool)
      ensures same <==> LooksIntact(files, path, expected, got)
    {
      if path !in files {
        return false;
      }
      var actual := HashFile(files[path], got);
      same := HexEqual(actual, expected);
    }
  }
}
