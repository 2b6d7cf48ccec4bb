/** The sparse wire format: header, extent records, sentinel trailer; and the decoder as a function. */
module WireFormat {
  import opened Arith
  import opened Bytes

  /** An incremental checksum: a register, its update by a chunk, and the 32-bit field it ends in. */
  datatype Checker<!C> = Checker(init: C, update: (C, seq<Byte>) -> C, field: C -> nat)

  ghost predicate Incremental<C(!new)>(ck: Checker<C>) {
    && (forall c, s, t {:trigger ck.update(ck.update(c, s), t)} :: ck.update(ck.update(c, s), t) == ck.update(c, s + t))
    && (forall c {:trigger ck.update(c, [])} :: ck.update(c, []) == c)
    && (forall c {:trigger ck.field(c)} :: ck.field(c) < 0x1_0000_0000)
  }

  function Checksum<C>(ck: Checker<C>, s: seq<Byte>): nat {
    ck.field(ck.update(ck.init, s))
  }

  // ---------------------------------------------------------------- records

  const MAX_CHUNK: nat := 0x40_0000
  const TRAILER: nat := U64 - 1
  const MAGIC: seq<Byte> := [0x46, 0x43, 0x4D, 0x47]

  /** One extent record: where it goes and its payload. */
  datatype Rec = Rec(off: nat, data: seq<Byte>)

  /** What Send may emit for a file of the given size. */
  predicate GoodRec(r: Rec, size: nat) {
    |r.data| <= MAX_CHUNK && r.off + |r.data| <= size && r.off < I64
  }

  predicate GoodRecs(rs: seq<Rec>, size: nat) {
    forall i :: 0 <= i < |rs| ==> GoodRec(rs[i], size)
  }

  function RecBytes(r: Rec): seq<Byte> {
    Be(r.off, 8) + Be(|r.data|, 4) + r.data
  }

  function RecsBytes(rs: seq<Rec>): seq<Byte> {
    if rs == [] then [] else RecBytes(rs[0]) + RecsBytes(rs[1..])
  }

  /** The payload bytes of all records, in order. */
  function Payload(rs: seq<Rec>): seq<Byte> {
    if rs == [] then [] else rs[0].data + Payload(rs[1..])
  }

  function Trailer(crc: nat): seq<Byte> {
    Be(TRAILER, 8) + Be(crc, 4)
  }

  function Header(size: nat): seq<Byte> {
    MAGIC + Be(size, 8)
  }

  /** A whole stream. */
  function Encode<C>(ck: Checker<C>, size: nat, rs: seq<Rec>): seq<Byte> {
    Header(size) + RecsBytes(rs) + Trailer(Checksum(ck, Payload(rs)))
  }

  // ---------------------------------------------------------------- the decoder

  datatype Status =
    | Ok | ShortHeader | BadMagic | TruncateFailed | ShortRecord
    | CrcMismatch | Oversized | Beyond | ShortPayload | BadOffset | WriteFailed

  /** How a decode ends, the records it wrote, and how many bytes it consumed. */
  datatype Parsed = Parsed(status: Status, applied: seq<Rec>, used: nat)

  /** What one record header decides. */
  function HeaderStatus(off: nat, len: nat, avail: nat, size: nat): Status
  {
    if len > MAX_CHUNK then Oversized
    else if (off + len) % U64 > size then Beyond
    else if avail < 12 + len then ShortPayload
    else if off >= I64 then BadOffset
    else Ok
  }

  /** The record loop of Receive on the bytes s, with checksum register c. */
  function ParseRecs<C>(ck: Checker<C>, s: seq<Byte>, size: nat, c: C): Parsed
    decreases |s|
  {
    if |s| < 12 then Parsed(ShortRecord, [], |s|)
    else
      var off, len := Val(s[..8]), Val(s[8..12]);
      if off == TRAILER then Parsed(if ck.field(c) == len then Ok else CrcMismatch, [], 12)
      else
        var h := HeaderStatus(off, len, |s|, size);
        if h != Ok then Parsed(h, [], 12)
        else
          var data := s[12..12 + len];
          var rest := ParseRecs(ck, s[12 + len..], size, ck.update(c, data));
          Parsed(rest.status, [Rec(off, data)] + rest.applied, 12 + len + rest.used)
  }

  lemma RecFields(r: Rec, tail: seq<Byte>)
    requires r.off < U64 && |r.data| < 0x1_0000_0000
    ensures var s := RecBytes(r) + tail;
      && |s| >= 12 + |r.data|
      && Val(s[..8]) == r.off && Val(s[8..12]) == |r.data|
      && s[12..12 + |r.data|] == r.data && s[12 + |r.data|..] == tail
  {
    var s := RecBytes(r) + tail;
    Powers();
    BeVal(r.off, 8);
    BeVal(|r.data|, 4);
    assert s[..8] == Be(r.off, 8);
    assert s[8..12] == Be(|r.data|, 4);
  }

  lemma TrailerFields(crc: nat, tail: seq<Byte>)
    requires crc < 0x1_0000_0000
    ensures var s := Trailer(crc) + tail;
      |s| >= 12 && Val(s[..8]) == TRAILER && Val(s[8..12]) == crc
  {
    var s := Trailer(crc) + tail;
    Powers();
    BeVal(TRAILER, 8);
    BeVal(crc, 4);
    assert s[..8] == Be(TRAILER, 8);
    assert s[8..12] == Be(crc, 4);
  }

  lemma ParseTrailer<C>(ck: Checker<C>, size: nat, c: C, crc: nat, tail: seq<Byte>)
    requires crc < 0x1_0000_0000
    ensures ParseRecs(ck, Trailer(crc) + tail, size, c) == Parsed(if ck.field(c) == crc then Ok else CrcMismatch, [], 12)
  {
    TrailerFields(crc, tail);
  }

  /** The result of a decode that starts with record r. */
  function Prepend(r: Rec, rest: Parsed): Parsed {
    Parsed(rest.status, [r] + rest.applied, 12 + |r.data| + rest.used)
  }

  lemma ParseRec<C>(ck: Checker<C>, r: Rec, size: nat, c: C, more: seq<Byte>)
    requires GoodRec(r, size) && size < I64
    ensures ParseRecs(ck, RecBytes(r) + more, size, c) == Prepend(r, ParseRecs(ck, more, size, ck.update(c, r.data)))
  {
    RecFields(r, more);
    assert (r.off + |r.data|) % U64 == r.off + |r.data|;
    assert HeaderStatus(r.off, |r.data|, |RecBytes(r) + more|, size) == Ok;
  }

  /** Decoding records, a trailer and anything after it: all records are applied and the checksum decides. */
  lemma {:induction false} ParseEncoded<C(!new)>(ck: Checker<C>, rs: seq<Rec>, size: nat, c: C, crc: nat, tail: seq<Byte>)
    requires Incremental(ck) && GoodRecs(rs, size) && size < I64 && crc < 0x1_0000_0000
    ensures ParseRecs(ck, RecsBytes(rs) + Trailer(crc) + tail, size, c) ==
      Parsed(if ck.field(ck.update(c, Payload(rs))) == crc then Ok else CrcMismatch, rs, |RecsBytes(rs)| + 12)
    decreases |rs|
  {
    var s := RecsBytes(rs) + Trailer(crc) + tail;
    if rs == [] {
      assert s == Trailer(crc) + tail;
      ParseTrailer(ck, size, c, crc, tail);
      assert ck.update(c, []) == c;
    } else {
      var r, more := rs[0], RecsBytes(rs[1..]) + Trailer(crc) + tail;
      assert s == RecBytes(r) + more;
      assert GoodRec(r, size);
      ParseRec(ck, r, size, c, more);
      ParseEncoded(ck, rs[1..], size, ck.update(c, r.data), crc, tail);
      assert ck.update(ck.update(c, r.data), Payload(rs[1..])) == ck.update(c, r.data + Payload(rs[1..]));
      assert rs == [r] + rs[1..];
    }
  }

  lemma HeaderInside(off: nat, len: nat, avail: nat, size: nat)
    requires size < I64 && HeaderStatus(off, len, avail, size) == Ok
    ensures off + len <= size && off < I64 && len <= MAX_CHUNK && 12 + len <= avail
  {
    assert (off + len) % U64 == off + len;
  }

  /** Whatever the input bytes, every record the decoder writes lies inside the file and starts at a valid
      offset: a sum that wraps around forces an offset that is negative as int64, because records are at most 4 MiB. */
  lemma {:induction false} AppliedInside<C>(ck: Checker<C>, s: seq<Byte>, size: nat, c: C)
    requires size < I64
    ensures GoodRecs(ParseRecs(ck, s, size, c).applied, size)
    ensures ParseRecs(ck, s, size, c).used <= |s|
    decreases |s|
  {
    if |s| >= 12 {
      var off, len := Val(s[..8]), Val(s[8..12]);
      if off != TRAILER && HeaderStatus(off, len, |s|, size) == Ok {
        HeaderInside(off, len, |s|, size);
        AppliedInside(ck, s[12 + len..], size, ck.update(c, s[12..12 + len]));
      }
    }
  }

  /** The first record of an accepted input, if it does not start with the trailer. */
  lemma FirstRec<C>(ck: Checker<C>, s: seq<Byte>, size: nat, c: C) returns (r: Rec, more: seq<Byte>)
    requires ParseRecs(ck, s, size, c).status == Ok && Val(s[..8]) != TRAILER
    ensures s == RecBytes(r) + more && |more| < |s|
    ensures ParseRecs(ck, s, size, c) == Prepend(r, ParseRecs(ck, more, size, ck.update(c, r.data)))
  {
    var off, len := Val(s[..8]), Val(s[8..12]);
    r, more := Rec(off, s[12..12 + len]), s[12 + len..];
    RecBack(s);
  }

  /** The bytes of a record, read back. */
  lemma RecBack(s: seq<Byte>)
    requires |s| >= 12 && 12 + Val(s[8..12]) <= |s|
    ensures var len := Val(s[8..12]);
      s == RecBytes(Rec(Val(s[..8]), s[12..12 + len])) + s[12 + len..]
  {
    var len := Val(s[8..12]);
    ValBe(s[..8]);
    ValBe(s[8..12]);
    assert s == s[..8] + s[8..12] + s[12..12 + len] + s[12 + len..];
  }

  lemma OnlyTrailer<C>(ck: Checker<C>, s: seq<Byte>, size: nat, c: C)
    requires ParseRecs(ck, s, size, c).status == Ok && Val(s[..8]) == TRAILER
    ensures |s| >= 12 && ParseRecs(ck, s, size, c) == Parsed(Ok, [], 12) && s[..12] == Trailer(ck.field(c))
  {
    ValBe(s[..8]);
    ValBe(s[8..12]);
    assert s[..12] == s[..8] + s[8..12];
  }

  /** An accepted input starts with the encoding of the records it applied: decoding is sound. */
  lemma {:induction false} ParseSound<C(!new)>(ck: Checker<C>, s: seq<Byte>, size: nat, c: C)
    requires Incremental(ck) && ParseRecs(ck, s, size, c).status == Ok
    ensures var p := ParseRecs(ck, s, size, c);
      && p.used <= |s|
      && s[..p.used] == RecsBytes(p.applied) + Trailer(ck.field(ck.update(c, Payload(p.applied))))
    decreases |s|
  {
    if Val(s[..8]) == TRAILER {
      OnlyTrailer(ck, s, size, c);
      assert ck.update(c, []) == c;
    } else {
      var r, more := FirstRec(ck, s, size, c);
      var c' := ck.update(c, r.data);
      ParseSound(ck, more, size, c');
      SoundCons(ck, s, c, r, more, ParseRecs(ck, more, size, c'));
    }
  }

  /** A decode q of more that is sound is sound with record r before it. */
  lemma SoundCons<C(!new)>(ck: Checker<C>, s: seq<Byte>, c: C, r: Rec, more: seq<Byte>, q: Parsed)
    requires Incremental(ck) && s == RecBytes(r) + more && q.used <= |more|
    requires more[..q.used] == RecsBytes(q.applied) + Trailer(ck.field(ck.update(ck.update(c, r.data), Payload(q.applied))))
    ensures var p := Prepend(r, q);
      && p.used <= |s|
      && s[..p.used] == RecsBytes(p.applied) + Trailer(ck.field(ck.update(c, Payload(p.applied))))
  {
    var p := Prepend(r, q);
    assert p.applied[1..] == q.applied && p.applied[0] == r;
    assert ck.update(ck.update(c, r.data), Payload(q.applied)) == ck.update(c, r.data + Payload(q.applied));
    assert s[..p.used] == RecBytes(r) + more[..q.used];
  }

  /** An accepted input is accepted with any tail appended, and consumes the same bytes. */
  lemma {:induction false} ParseExtends<C>(ck: Checker<C>, s: seq<Byte>, tail: seq<Byte>, size: nat, c: C)
    requires ParseRecs(ck, s, size, c).status == Ok
    ensures ParseRecs(ck, s + tail, size, c) == ParseRecs(ck, s, size, c)
    decreases |s|
  {
    var t := s + tail;
    assert t[..8] == s[..8] && t[8..12] == s[8..12];
    var off, len := Val(s[..8]), Val(s[8..12]);
    if off != TRAILER {
      assert t[12..12 + len] == s[12..12 + len] && t[12 + len..] == s[12 + len..] + tail;
      ParseExtends(ck, s[12 + len..], tail, size, ck.update(c, s[12..12 + len]));
    }
  }

  // ---------------------------------------------------------------- whole streams

  /** Truncate takes an int64 and the file system may refuse large files. */
  predicate CanTruncate(size: nat, maxSize: nat) {
    size < I64 && size <= maxSize
  }

  function Parse<C>(ck: Checker<C>, s: seq<Byte>, maxSize: nat): Parsed {
    if |s| < 12 then Parsed(ShortHeader, [], |s|)
    else if s[..4] != MAGIC then Parsed(BadMagic, [], 12)
    else if !CanTruncate(Val(s[4..12]), maxSize) then Parsed(TruncateFailed, [], 12)
    else
      var p := ParseRecs(ck, s[12..], Val(s[4..12]), ck.init);
      p.(used := 12 + p.used)
  }

  /** The literal header: F, C, M, G and the size, most significant byte first. */
  lemma HeaderLayout(size: nat, i: nat)
    requires i < 8
    ensures |Header(size)| == 12 && Header(size)[..4] == [0x46, 0x43, 0x4D, 0x47]
    ensures Pow256(7 - i) > 0 && Header(size)[4 + i] == size / Pow256(7 - i) % 256
  {
    BeDigit(size, 8, i);
    assert Header(size)[4 + i] == Be(size, 8)[i];
  }

  /** A file may be given any size below 2^63 that the file system takes, and no other. */
  lemma TruncateLimit(size: nat, maxSize: nat)
    ensures CanTruncate(size, maxSize) <==> size <= 0x7FFF_FFFF_FFFF_FFFF && size <= maxSize
  {
  }

  lemma HeaderFields(size: nat, tail: seq<Byte>)
    requires size < U64
    ensures var s := Header(size) + tail;
      |s| >= 12 && s[..4] == MAGIC && Val(s[4..12]) == size && s[12..] == tail
  {
    var s := Header(size) + tail;
    Powers();
    BeVal(size, 8);
    assert s[4..12] == Be(size, 8);
  }

  /** The decoder accepts every encoding and recovers exactly its records. */
  lemma ParseOfEncode<C(!new)>(ck: Checker<C>, size: nat, rs: seq<Rec>, maxSize: nat, tail: seq<Byte>)
    requires Incremental(ck) && GoodRecs(rs, size) && CanTruncate(size, maxSize)
    ensures Parse(ck, Encode(ck, size, rs) + tail, maxSize) == Parsed(Ok, rs, |Encode(ck, size, rs)|)
  {
    var crc := Checksum(ck, Payload(rs));
    var body := RecsBytes(rs) + Trailer(crc) + tail;
    assert Encode(ck, size, rs) + tail == Header(size) + body;
    HeaderFields(size, body);
    ParseEncoded(ck, rs, size, ck.init, crc, tail);
  }

  lemma TakeSplit(s: seq<Byte>, a: nat, b: nat)
    requires a + b <= |s|
    ensures s[..a + b] == s[..a] + s[a..][..b]
  {
  }

  lemma EncodeSplit<C>(ck: Checker<C>, size: nat, rs: seq<Rec>, body: seq<Byte>)
    requires body == RecsBytes(rs) + Trailer(ck.field(ck.update(ck.init, Payload(rs))))
    ensures Encode(ck, size, rs) == Header(size) + body
  {
    assert Encode(ck, size, rs) == Header(size) + (RecsBytes(rs) + Trailer(Checksum(ck, Payload(rs))));
  }

  lemma HeaderBack(s: seq<Byte>)
    requires |s| >= 12 && s[..4] == MAGIC
    ensures s[..12] == Header(Val(s[4..12]))
  {
    ValBe(s[4..12]);
    assert s[..12] == s[..4] + s[4..12];
  }

  /** The decoder accepts nothing else: an accepted stream starts with the encoding of what was applied. */
  lemma AcceptedIsEncoding<C(!new)>(ck: Checker<C>, s: seq<Byte>, maxSize: nat)
    requires Incremental(ck) && Parse(ck, s, maxSize).status == Ok
    ensures var p := Parse(ck, s, maxSize);
      && CanTruncate(Val(s[4..12]), maxSize)
      && GoodRecs(p.applied, Val(s[4..12]))
      && p.used <= |s|
      && s[..p.used] == Encode(ck, Val(s[4..12]), p.applied)
  {
    var size, q := Val(s[4..12]), ParseRecs(ck, s[12..], Val(s[4..12]), ck.init);
    ParseSound(ck, s[12..], size, ck.init);
    AppliedInside(ck, s[12..], size, ck.init);
    HeaderBack(s);
    TakeSplit(s, 12, q.used);
    EncodeSplit(ck, size, q.applied, s[12..][..q.used]);
  }

  /** No strict prefix of an encoding is accepted. */
  lemma PrefixRejected<C(!new)>(ck: Checker<C>, size: nat, rs: seq<Rec>, maxSize: nat, n: nat)
    requires Incremental(ck) && GoodRecs(rs, size) && CanTruncate(size, maxSize) && n < |Encode(ck, size, rs)|
    ensures Parse(ck, Encode(ck, size, rs)[..n], maxSize).status != Ok
  {
    var e := Encode(ck, size, rs);
    var s, tail := e[..n], e[n..];
    assert s + tail == e && e + [] == e;
    ParseOfEncode(ck, size, rs, maxSize, []);
    if Parse(ck, s, maxSize).status == Ok {
      AcceptedExtends(ck, s, tail, maxSize);
    }
  }

  lemma AcceptedExtends<C(!new)>(ck: Checker<C>, s: seq<Byte>, tail: seq<Byte>, maxSize: nat)
    requires Incremental(ck) && Parse(ck, s, maxSize).status == Ok
    ensures Parse(ck, s + tail, maxSize) == Parse(ck, s, maxSize) && Parse(ck, s, maxSize).used <= |s|
  {
    var t := s + tail;
    assert t[..4] == s[..4] && t[4..12] == s[4..12] && t[12..] == s[12..] + tail;
    ParseExtends(ck, s[12..], tail, Val(s[4..12]), ck.init);
    AppliedInside(ck, s[12..], Val(s[4..12]), ck.init);
  }

  // ---------------------------------------------------------------- corruption

  /** Two record lists with the same shape: same offsets and lengths. */
  ghost predicate SameShape(rs: seq<Rec>, qs: seq<Rec>) {
    |rs| == |qs| && forall i :: 0 <= i < |rs| ==> rs[i].off == qs[i].off && |rs[i].data| == |qs[i].data|
  }

  /** A stream whose payload was changed under it passes only if the checksum cannot tell. */
  lemma ChangedPayload<C(!new)>(ck: Checker<C>, size: nat, rs: seq<Rec>, qs: seq<Rec>, maxSize: nat)
    requires Incremental(ck) && GoodRecs(rs, size) && CanTruncate(size, maxSize) && SameShape(rs, qs)
    ensures Parse(ck, Header(size) + RecsBytes(qs) + Trailer(Checksum(ck, Payload(rs))), maxSize).status ==
      if Checksum(ck, Payload(rs)) == Checksum(ck, Payload(qs)) then Ok else CrcMismatch
  {
    var crc := Checksum(ck, Payload(rs));
    forall i | 0 <= i < |qs| ensures GoodRec(qs[i], size) {
      assert GoodRec(rs[i], size);
    }
    var body := RecsBytes(qs) + Trailer(crc);
    assert Header(size) + RecsBytes(qs) + Trailer(crc) == Header(size) + body && body + [] == body;
    HeaderFields(size, body);
    ParseEncoded(ck, qs, size, ck.init, crc, []);
  }
}

/** The wire format with its real checksum. */
module CrcStream {
  import opened Bytes
  import Crc32
  import opened WireFormat

  function Field(c: bv32): nat {
    Crc32.Xor(c, Crc32.INIT) as int
  }

  lemma FieldBounded(c: bv32)
    ensures Field(c) < 0x1_0000_0000
  {
  }

  lemma FieldInjective(a: bv32, b: bv32)
    requires Field(a) == Field(b)
    ensures Crc32.Xor(a, Crc32.INIT) == Crc32.Xor(b, Crc32.INIT)
  {
    AsIntInjective(Crc32.Xor(a, Crc32.INIT), Crc32.Xor(b, Crc32.INIT));
  }

  lemma AsIntInjective(a: bv32, b: bv32)
    requires a as int == b as int
    ensures a == b
  {
    assert (a as int) as bv32 == a;
    assert (b as int) as bv32 == b;
  }

  const CRC: Checker<bv32> := Checker(Crc32.INIT, Crc32.Update, Field)

  lemma CrcIncremental()
    ensures Incremental(CRC)
  {
    forall c: bv32, s: seq<Byte>, t: seq<Byte> {:trigger CRC.update(CRC.update(c, s), t)}
      ensures CRC.update(CRC.update(c, s), t) == CRC.update(c, s + t)
    {
      Crc32.UpdateConcat(c, s, t);
    }
    forall c: bv32 {:trigger CRC.update(c, [])} ensures CRC.update(c, []) == c {
      Crc32.UpdateEmpty(c);
    }
    forall c: bv32 {:trigger CRC.field(c)} ensures CRC.field(c) < 0x1_0000_0000 {
      FieldBounded(c);
    }
  }

  /** The checksum on the wire is CRC-32. */
  lemma ChecksumIsSum(s: seq<Byte>)
    ensures Checksum(CRC, s) == Crc32.Sum(s) as int
  {
  }

  /** The whole stream of a one-byte file that holds the letter a. */
  lemma KnownStream()
    ensures Encode(CRC, 1, [Rec(0, [0x61])]) ==
      [0x46, 0x43, 0x4D, 0x47, 0, 0, 0, 0, 0, 0, 0, 1]
      + [0, 0, 0, 0, 0, 0, 0, 0, 0, 0, 0, 1, 0x61]
      + [0xFF, 0xFF, 0xFF, 0xFF, 0xFF, 0xFF, 0xFF, 0xFF, 0xE8, 0xB7, 0xBE, 0x43]
  {
    var rs := [Rec(0, [0x61])];
    assert rs[1..] == [];
    assert Payload(rs) == [0x61];
    Crc32.KnownAnswer();
    ChecksumIsSum([0x61]);
    SmallBytes();
    TrailerBytes();
    SumBytes();
  }

  lemma SmallBytes()
    ensures Be(1, 8) == [0, 0, 0, 0, 0, 0, 0, 1] && Be(0, 8) == [0, 0, 0, 0, 0, 0, 0, 0] && Be(1, 4) == [0, 0, 0, 1]
  {
    assert Be(0, 3) == [0, 0, 0];
    assert Be(0, 7) == [0, 0, 0, 0, 0, 0, 0];
  }

  lemma TrailerBytes()
    ensures Be(TRAILER, 8) == [0xFF, 0xFF, 0xFF, 0xFF, 0xFF, 0xFF, 0xFF, 0xFF]
  {
    assert Be(0xFFFF, 2) == [0xFF, 0xFF];
    assert Be(0xFFFF_FFFF, 4) == [0xFF, 0xFF, 0xFF, 0xFF];
    assert Be(0xFFFF_FFFF_FFFF, 6) == [0xFF, 0xFF, 0xFF, 0xFF, 0xFF, 0xFF];
  }

  lemma SumBytes()
    ensures Be(0xE8B7_BE43, 4) == [0xE8, 0xB7, 0xBE, 0x43]
  {
    assert Be(0xE8B7, 2) == [0xE8, 0xB7];
  }

  /** Corrupting a valid stream's payload within four consecutive payload bytes, whatever records they fall in, always
      ends in a checksum mismatch. */
  lemma BurstRejected(size: nat, rs: seq<Rec>, qs: seq<Rec>, maxSize: nat,
                      pre: seq<Byte>, x: seq<Byte>, y: seq<Byte>, post: seq<Byte>)
    requires GoodRecs(rs, size) && CanTruncate(size, maxSize) && SameShape(rs, qs)
    requires Payload(rs) == pre + x + post && Payload(qs) == pre + y + post && |x| == |y| <= 4 && x != y
    ensures Parse(CRC, Header(size) + RecsBytes(qs) + Trailer(Crc32.Sum(Payload(rs)) as int), maxSize).status == CrcMismatch
  {
    ChecksumIsSum(Payload(rs));
    CrcIncremental();
    ChangedPayload(CRC, size, rs, qs, maxSize);
    ChecksumDiffers(pre, x, y, post);
  }

  lemma ChecksumDiffers(pre: seq<Byte>, x: seq<Byte>, y: seq<Byte>, post: seq<Byte>)
    requires |x| == |y| <= 4 && x != y
    ensures Checksum(CRC, pre + x + post) != Checksum(CRC, pre + y + post)
  {
    Crc32.BurstChangesSum(pre, x, y, post);
    if Checksum(CRC, pre + x + post) == Checksum(CRC, pre + y + post) {
      FieldInjective(Crc32.Update(Crc32.INIT, pre + x + post), Crc32.Update(Crc32.INIT, pre + y + post));
    }
  }
}
