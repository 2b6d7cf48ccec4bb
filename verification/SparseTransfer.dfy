/** What a transfer over the wire achieves: Send on one host, Receive on the other. */
module SparseTransfer {
  import opened Arith
  import opened Options
  import opened Bytes
  import opened WireFormat
  import opened SparseFile
  import opened SparseCodec
  import opened GuestMemory
  import CrcStream

  /** A complete stream of a file is accepted and overlays exactly the file's data bytes on the destination;
      the bytes written are the bytes sent are the data bytes. */
  lemma CompleteStreamOverlays<C(!new)>(ck: Checker<C>, f: Sparse, es: seq<Extent>, dst: seq<Byte>, maxSize: nat)
    requires Incremental(ck) && f.Valid() && Runs(es, f.isData, |f.data|) && CanTruncate(|f.data|, maxSize)
    ensures var s := Encode(ck, |f.data|, FileRecords(f, es));
      var p := Parse(ck, s, maxSize);
      && p == Parsed(Ok, FileRecords(f, es), |s|)
      && |s| >= 12 && Val(s[4..12]) == |f.data|
      && GoodRecs(p.applied, |f.data|)
      && ApplyAll(Resize(dst, |f.data|), p.applied) == Overlay(dst, f)
      && |Payload(p.applied)| == Total(es) == CountData(f.isData, |f.isData|)
  {
    RunsAscend(es, f.isData, |f.data|);
    var rs := Records(f.data, es);
    var s := Encode(ck, |f.data|, rs);
    RecordsGood(f.data, es);
    TotalCounts(es, f.isData, |f.data|);
    ApplyIsOverlay(dst, f, es);
    ParseOfEncode(ck, |f.data|, rs, maxSize, []);
    assert s + [] == s;
    StreamSize(ck, |f.data|, rs);
  }

  lemma StreamSize<C>(ck: Checker<C>, size: nat, rs: seq<Rec>)
    requires size < U64
    ensures var s := Encode(ck, size, rs);
      |s| >= 12 && s[..4] == MAGIC && Val(s[4..12]) == size
  {
    var body := RecsBytes(rs) + Trailer(Checksum(ck, Payload(rs)));
    assert Encode(ck, size, rs) == Header(size) + body;
    HeaderFields(size, body);
  }

  /** Whatever was cut off, a stream that is not complete is refused, and so is a complete one whose size the
      destination cannot take. */
  lemma IncompleteStreamRefused<C(!new)>(ck: Checker<C>, f: Sparse, es: seq<Extent>, n: nat, maxSize: nat)
    requires Incremental(ck) && f.Valid() && Runs(es, f.isData, |f.data|)
    requires n <= |Encode(ck, |f.data|, FileRecords(f, es))|
    ensures var s := Encode(ck, |f.data|, FileRecords(f, es));
      Parse(ck, s[..n], maxSize).status == Ok <==> n == |s| && CanTruncate(|f.data|, maxSize)
  {
    RunsAscend(es, f.isData, |f.data|);
    var rs := Records(f.data, es);
    var s := Encode(ck, |f.data|, rs);
    RecordsGood(f.data, es);
    assert s[..|s|] == s && s + [] == s;
    if CanTruncate(|f.data|, maxSize) {
      if n < |s| {
        PrefixRejected(ck, |f.data|, rs, maxSize, n);
      } else {
        ParseOfEncode(ck, |f.data|, rs, maxSize, []);
      }
    } else {
      StreamSize(ck, |f.data|, rs);
      if n >= 12 {
        assert s[..n][..4] == s[..4] && s[..n][4..12] == s[4..12];
      }
    }
  }

  /** What decoding the (possibly cut) stream out of file f does to dst, however it ends. */
  lemma DecodeDecides<C(!new)>(ck: Checker<C>, f: Sparse, es: seq<Extent>, out: seq<Byte>, dst: seq<Byte>, maxSize: nat)
    requires Incremental(ck) && f.Valid() && Runs(es, f.isData, |f.data|)
    requires out <= Encode(ck, |f.data|, FileRecords(f, es))
    ensures var p := Parse(ck, out, maxSize);
      && (p.status == Ok <==> out == Encode(ck, |f.data|, FileRecords(f, es)) && CanTruncate(|f.data|, maxSize))
      && (|out| >= 12 ==> Val(out[4..12]) == |f.data|)
      && (p.status == Ok ==>
            && p.applied == FileRecords(f, es) && GoodRecs(p.applied, |f.data|)
            && ApplyAll(Resize(dst, |f.data|), p.applied) == Overlay(dst, f)
            && |Payload(p.applied)| == CountData(f.isData, |f.isData|))
  {
    var s := Encode(ck, |f.data|, FileRecords(f, es));
    assert out == s[..|out|];
    IncompleteStreamRefused(ck, f, es, |out|, maxSize);
    StreamSize(ck, |f.data|, FileRecords(f, es));
    if |out| >= 12 {
      assert out[4..12] == s[4..12];
    }
    if CanTruncate(|f.data|, maxSize) {
      CompleteStreamOverlays(ck, f, es, dst, maxSize);
    }
  }

  /** One transfer of f onto dst.  Reads and writes may fail, the sender's pipe may break, and of what Send wrote only
      delivered bytes reach the receiver: the rest is lost in buffers or on the connection, possibly after Send
      returned.  The receiver reports success if and only if the file could be read, the pipe had room, the whole stream
      arrived, the size is acceptable and none of its writes breaks off; and then the destination is the overlay. */
  method TransferWith<C(!new)>(ck: Checker<C>, w: Pipe, f: Sparse, unreadable: set<nat>, delivered: nat, dst: File)
    returns (sentOk: bool, sent: nat, status: Status, written: nat, ghost es: seq<Extent>)
    requires Incremental(ck) && w.Valid() && w.out == [] && f.Valid()
    modifies w`out, dst`data
    ensures Runs(es, f.isData, |f.data|)
    ensures sentOk <==> Readable(FileRecords(f, es), unreadable) && |Encode(ck, |f.data|, FileRecords(f, es))| <= w.cap
    ensures status == Ok <==>
      && Readable(FileRecords(f, es), unreadable) && |Encode(ck, |f.data|, FileRecords(f, es))| <= w.cap
      && |Encode(ck, |f.data|, FileRecords(f, es))| <= delivered
      && CanTruncate(|f.data|, dst.maxSize) && Unbroken(dst.faults, FileRecords(f, es))
    ensures status == Ok ==> dst.data == Overlay(old(dst.data), f)
    ensures status == Ok ==> written == sent == CountData(f.isData, |f.isData|)
    ensures BeforeRecords(status) ==> dst.data == old(dst.data)
    ensures !BeforeRecords(status) ==> |dst.data| == |f.data|
  {
    ghost var applied;
    sentOk, sent, es := Send(ck, w, f, unreadable);
    var got := w.out[..Min(delivered, |w.out|)];
    Arrived(Encode(ck, |f.data|, FileRecords(f, es)), w.out, delivered, sentOk);
    DecodeDecides(ck, f, es, got, dst.data, dst.maxSize);
    status, written, applied := Receive(ck, got, dst);
  }

  /** What of a stream arrives: a prefix, the whole one exactly if all of it was sent and delivered. */
  lemma Arrived(whole: seq<Byte>, out: seq<Byte>, delivered: nat, sentOk: bool)
    requires sentOk ==> out == [] + whole
    requires !sentOk ==> CutShort([], whole, out)
    ensures var got := out[..Min(delivered, |out|)];
      got <= whole && (got == whole <==> sentOk && |whole| <= delivered)
  {
    assert [] + whole == whole;
  }

  /** The transfer with the program's CRC-32. */
  method Transfer(w: Pipe, f: Sparse, unreadable: set<nat>, delivered: nat, dst: File)
    returns (sentOk: bool, sent: nat, status: Status, written: nat, ghost es: seq<Extent>)
    requires w.Valid() && w.out == [] && f.Valid()
    modifies w`out, dst`data
    ensures Runs(es, f.isData, |f.data|)
    ensures sentOk <==> Readable(FileRecords(f, es), unreadable) && |Encode(CrcStream.CRC, |f.data|, FileRecords(f, es))| <= w.cap
    ensures status == Ok <==>
      && Readable(FileRecords(f, es), unreadable) && |Encode(CrcStream.CRC, |f.data|, FileRecords(f, es))| <= w.cap
      && |Encode(CrcStream.CRC, |f.data|, FileRecords(f, es))| <= delivered
      && CanTruncate(|f.data|, dst.maxSize) && Unbroken(dst.faults, FileRecords(f, es))
    ensures status == Ok ==> dst.data == Overlay(old(dst.data), f)
    ensures status == Ok ==> written == sent == CountData(f.isData, |f.isData|)
    ensures BeforeRecords(status) ==> dst.data == old(dst.data)
    ensures !BeforeRecords(status) ==> |dst.data| == |f.data|
  {
    CrcStream.CrcIncremental();
    sentOk, sent, status, written, es := TransferWith(CrcStream.CRC, w, f, unreadable, delivered, dst);
  }

  // ---------------------------------------------------------------- memory images in files

  /** Where each guest word lies in a memory file, and how it is written there. */
  datatype Layout = Layout(offset: map<Loc, nat>, width: nat, bytes: int -> seq<Byte>)

  /** The file holds image img. */
  ghost predicate Holds(file: seq<Byte>, img: Image, lay: Layout) {
    forall l :: l in img ==>
      && l in lay.offset
      && lay.offset[l] + lay.width <= |file|
      && file[lay.offset[l]..lay.offset[l] + lay.width] == lay.bytes(img[l])
  }

  /** A diff file of a capture: all of guest memory in size, and a word is data exactly if it was captured. */
  ghost predicate DiffFile(f: Sparse, capture: Image, lay: Layout, size: nat) {
    && f.Valid() && |f.data| == size
    && Holds(f.data, capture, lay)
    && forall l, k :: l in lay.offset && 0 <= k < size && lay.offset[l] <= k < lay.offset[l] + lay.width ==>
         (f.isData[k] <==> l in capture)
  }

  lemma OverlayRange(dst: seq<Byte>, f: Sparse, a: nat, b: nat, data: bool)
    requires f.Valid() && |dst| == |f.data| && a <= b <= |dst|
    requires forall k :: a <= k < b ==> f.isData[k] == data
    ensures Overlay(dst, f)[a..b] == if data then f.data[a..b] else dst[a..b]
  {
    var r := if data then f.data[a..b] else dst[a..b];
    assert |Overlay(dst, f)[a..b]| == |r|;
    forall i | 0 <= i < b - a ensures Overlay(dst, f)[a..b][i] == r[i] {
      assert Overlay(dst, f)[a..b][i] == Overlay(dst, f)[a + i];
    }
  }

  /** Receiving a diff file into a file that holds img makes it hold img + capture: byte overlay is map merge. */
  lemma OverlayMerges(dst: seq<Byte>, img: Image, f: Sparse, capture: Image, lay: Layout)
    requires Holds(dst, img, lay) && DiffFile(f, capture, lay, |dst|)
    ensures Holds(Overlay(dst, f), img + capture, lay)
  {
    var m := img + capture;
    forall l | l in m
      ensures l in lay.offset && lay.offset[l] + lay.width <= |dst|
      ensures Overlay(dst, f)[lay.offset[l]..lay.offset[l] + lay.width] == lay.bytes(m[l])
    {
      OverlayRange(dst, f, lay.offset[l], lay.offset[l] + lay.width, l in capture);
    }
  }

  /** Images after a base and a list of captures. */
  ghost function Merged(base: Image, captures: seq<Image>): Image {
    if captures == [] then base else Merged(base, captures[..|captures| - 1]) + captures[|captures| - 1]
  }

  /** The whole stream of one migration: the base onto the truncated recv.mem, then every round in order.  The file
      then holds the base overlaid with the captures, which is what the protocol model assembles. */
  lemma {:induction false} RoundsMerge(base: Sparse, img: Image, fs: seq<Sparse>, captures: seq<Image>, lay: Layout)
    requires base.Valid() && Holds(base.data, img, lay)
    requires |fs| == |captures| && forall i :: 0 <= i < |fs| ==> DiffFile(fs[i], captures[i], lay, |base.data|)
    ensures forall i :: 0 <= i < |fs| ==> |fs[i].data| == |fs[i].isData|
    ensures |OverlayAll(Overlay([], base), fs)| == |base.data|
    ensures Holds(OverlayAll(Overlay([], base), fs), Merged(img, captures), lay)
    decreases |fs|
  {
    assert forall i :: 0 <= i < |fs| ==> DiffFile(fs[i], captures[i], lay, |base.data|);
    OverlayOnEmpty(base);
    if fs != [] {
      var n := |fs| - 1;
      RoundsMerge(base, img, fs[..n], captures[..n], lay);
      OverlayMerges(OverlayAll(Overlay([], base), fs[..n]), Merged(img, captures[..n]), fs[n], captures[n], lay);
    }
  }
}
