/** The sparse package's operations: WalkExtents, TotalBytes, Send, Receive.

    The hash object is a parameter (ck); the program passes CrcStream.CRC.  Writers may fail after any number of
    bytes, reads of the source file and writes to the destination may fail anywhere, truncation may be refused.
 */
module SparseCodec {
  import opened Arith
  import opened Options
  import opened Bytes
  import opened WireFormat
  import opened SparseFile
  import CrcStream

  /** A writer that accepts cap bytes in total. */
  class Pipe {
    var out: seq<Byte>
    const cap: nat

    ghost predicate Valid()
      reads this
    {
      |out| <= cap
    }

    constructor (cap: nat)
      ensures Valid() && out == [] && this.cap == cap
    {
      out := [];
      this.cap := cap;
    }

    method Write(b: seq<Byte>) returns (ok: bool)
      requires Valid()
      modifies this`out
      ensures Valid()
      ensures ok == (|old(out)| + |b| <= cap)
      ensures ok ==> out == old(out) + b
      ensures !ok ==> old(out) <= out && out < old(out) + b
    {
      ok := |out| + |b| <= cap;
      if ok {
        out := out + b;
      } else {
        out := out + b[..cap - |out|];
      }
    }
  }

  datatype WriteResult = Wrote | Negative | Failed(n: nat)

  /** The destination file.  A write at an offset in faults fails after that many bytes, if it has more. */
  class File {
    var data: seq<Byte>
    const maxSize: nat
    const faults: map<nat, nat>

    constructor (data: seq<Byte>, maxSize: nat, faults: map<nat, nat>)
      ensures this.data == data && this.maxSize == maxSize && this.faults == faults
    {
      this.data := data;
      this.maxSize := maxSize;
      this.faults := faults;
    }

    /** ftruncate to a size given as uint64 and passed as int64. */
    method Truncate(size: nat) returns (ok: bool)
      modifies this`data
      ensures ok == CanTruncate(size, maxSize)
      ensures data == if ok then Resize(old(data), size) else old(data)
    {
      ok := CanTruncate(size, maxSize);
      if ok {
        data := Resize(data, size);
      }
    }

    /** pwrite at an offset given as uint64 and passed as int64: a negative offset is refused, a write past the end
        extends the file. */
    method WriteAt(b: seq<Byte>, off: nat) returns (r: WriteResult)
      modifies this`data
      ensures r == (if off >= I64 then Negative
                    else if off in faults && faults[off] < |b| then Failed(faults[off])
                    else Wrote)
      ensures data == Stored(old(data), if r.Negative? then [] else if r.Failed? then b[..r.n] else b, off)
    {
      if off >= I64 {
        return Negative;
      }
      if off in faults && faults[off] < |b| {
        data := Stored(data, b[..faults[off]], off);
        return Failed(faults[off]);
      }
      data := Stored(data, b, off);
      return Wrote;
    }
  }

  /** File contents after b was written at off. */
  function Stored(data: seq<Byte>, b: seq<Byte>, off: nat): seq<Byte> {
    if b == [] then data else Put(Resize(data, Max(off + |b|, |data|)), Rec(off, b))
  }

  /** WalkExtents: the maximal data runs of the file. */
  method WalkExtents(f: Sparse) returns (es: seq<Extent>)
    requires |f.data| == |f.isData|
    ensures Runs(es, f.isData, |f.data|)
  {
    es := [];
    var size, off := |f.data|, 0;
    while off < size
      invariant 0 <= off <= size && Runs(es, f.isData, off)
      invariant 0 < off < size ==> !f.isData[off]
    {
      var dataStart := f.SeekData(off);
      if dataStart.None? {
        RunsStretch(es, f.isData, off, size);
        return;
      }
      var holeStart := f.SeekHole(dataStart.value);
      assert holeStart > dataStart.value;
      RunsAppend(es, f.isData, off, dataStart.value, holeStart);
      es := es + [Extent(dataStart.value, holeStart - dataStart.value)];
      off := holeStart;
    }
  }

  /** TotalBytes. */
  method TotalBytes(es: seq<Extent>) returns (n: nat)
    ensures n == Total(es)
  {
    n := 0;
    var i := 0;
    while i < |es|
      invariant 0 <= i <= |es| && n == Total(es[..i])
    {
      assert es[..i + 1][..i] == es[..i];
      n := n + es[i].len;
      i := i + 1;
    }
    assert es[..i] == es;
  }

  // ---------------------------------------------------------------- Send

  /** Every record is written as a header and a payload; a failure leaves a strict prefix. */
  method SendRec(w: Pipe, r: Rec) returns (ok: bool)
    requires w.Valid()
    modifies w`out
    ensures w.Valid()
    ensures ok == (|old(w.out)| + |RecBytes(r)| <= w.cap)
    ensures ok ==> w.out == old(w.out) + RecBytes(r)
    ensures !ok ==> old(w.out) <= w.out && w.out < old(w.out) + RecBytes(r)
  {
    ghost var start := w.out;
    var rec := Be(r.off, 8) + Be(|r.data|, 4);
    assert start + RecBytes(r) == start + rec + r.data;
    ok := w.Write(rec);
    if ok {
      ok := w.Write(r.data);
    }
  }

  /** Every record's part of the file can be read. */
  ghost predicate Readable(rs: seq<Rec>, unreadable: set<nat>) {
    forall i :: 0 <= i < |rs| ==> rs[i].off !in unreadable
  }

  /** A writer with room for that many more bytes can be sent these records. */
  ghost predicate CanSend(rs: seq<Rec>, unreadable: set<nat>, room: int) {
    Readable(rs, unreadable) && |RecsBytes(rs)| <= room
  }

  lemma ReadableConcat(rs: seq<Rec>, qs: seq<Rec>, unreadable: set<nat>)
    ensures Readable(rs + qs, unreadable) <==> Readable(rs, unreadable) && Readable(qs, unreadable)
  {
    if Readable(rs + qs, unreadable) {
      assert forall i :: 0 <= i < |rs| ==> rs[i] == (rs + qs)[i];
      assert forall i :: 0 <= i < |qs| ==> qs[i] == (rs + qs)[|rs| + i];
    }
  }

  lemma CanSendConcat(rs: seq<Rec>, qs: seq<Rec>, unreadable: set<nat>, room: int)
    ensures CanSend(rs + qs, unreadable, room) <==>
      CanSend(rs, unreadable, room) && CanSend(qs, unreadable, room - |RecsBytes(rs)|)
  {
    PayloadConcat(rs, qs);
    ReadableConcat(rs, qs, unreadable);
  }

  lemma CanSendCons(r: Rec, rest: seq<Rec>, unreadable: set<nat>, room: int)
    ensures CanSend([r] + rest, unreadable, room) <==>
      r.off !in unreadable && |RecBytes(r)| <= room && CanSend(rest, unreadable, room - |RecBytes(r)|)
  {
    CanSendConcat([r], rest, unreadable, room);
    SingleRec(r);
  }

  /** What Send has done after the records in done: they are on the wire, hashed and counted. */
  ghost predicate SentSoFar<C>(ck: Checker<C>, start: seq<Byte>, size: nat, done: seq<Rec>, out: seq<Byte>, c: C, sent: nat) {
    && out == start + Header(size) + RecsBytes(done)
    && c == ck.update(ck.init, Payload(done))
    && sent == |Payload(done)|
  }

  lemma SentOneMore<C(!new)>(ck: Checker<C>, start: seq<Byte>, size: nat, done: seq<Rec>, out: seq<Byte>, c: C, sent: nat, r: Rec)
    requires Incremental(ck) && SentSoFar(ck, start, size, done, out, c, sent)
    ensures SentSoFar(ck, start, size, done + [r], out + RecBytes(r), ck.update(c, r.data), sent + |r.data|)
  {
    PayloadConcat(done, [r]);
    SingleRec(r);
    assert ck.update(ck.update(ck.init, Payload(done)), r.data) == ck.update(ck.init, Payload(done) + r.data);
    Assoc(start + Header(size), RecsBytes(done), RecBytes(r));
  }

  lemma SingleRec(r: Rec)
    ensures Payload([r]) == r.data && RecsBytes([r]) == RecBytes(r)
  {
    assert [r][1..] == [];
    assert r.data + [] == r.data && RecBytes(r) + [] == RecBytes(r);
  }

  /** out is start followed by a strict prefix of the whole stream. */
  ghost predicate CutShort(start: seq<Byte>, whole: seq<Byte>, out: seq<Byte>) {
    start <= out && out < start + whole
  }

  lemma Regroup<T>(a: seq<T>, b: seq<T>, x: T, c: seq<T>, d: seq<T>)
    ensures a + b + ([x] + c) + d == (a + b) + [x] + (c + d)
  {
  }

  lemma PrefixInside<T>(p: seq<T>, h: seq<T>, x: seq<T>, y: seq<T>, z: seq<T>)
    requires x <= y
    ensures p + h + x <= p + (h + y + z)
  {
    assert p + (h + y + z) == (p + h + x) + (y[|x|..] + z);
  }

  lemma RecsPrefix(done: seq<Rec>, r: Rec, rest: seq<Rec>)
    ensures RecsBytes(done) + RecBytes(r) <= RecsBytes(done + [r] + rest)
  {
    PayloadConcat(done + [r], rest);
    PayloadConcat(done, [r]);
    SingleRec(r);
  }

  /** A cut inside record r of the stream is a cut of the stream. */
  lemma CutInRec<C>(ck: Checker<C>, start: seq<Byte>, size: nat, done: seq<Rec>, r: Rec, rest: seq<Rec>,
                    out0: seq<Byte>, out: seq<Byte>)
    requires out0 == start + Header(size) + RecsBytes(done)
    requires out0 <= out && out < out0 + RecBytes(r)
    ensures CutShort(start, Encode(ck, size, done + [r] + rest), out)
  {
    var all := done + [r] + rest;
    RecsPrefix(done, r, rest);
    PrefixInside(start, Header(size), RecsBytes(done) + RecBytes(r), RecsBytes(all), Trailer(Checksum(ck, Payload(all))));
    assert out0 + RecBytes(r) == start + Header(size) + (RecsBytes(done) + RecBytes(r));
  }

  /** Reads one chunk and sends its record r; rest are the records behind it. */
  method SendChunk<C(!new)>(ck: Checker<C>, w: Pipe, size: nat, unreadable: set<nat>, r: Rec, c: C, sent: nat,
                            ghost start: seq<Byte>, ghost done: seq<Rec>, ghost rest: seq<Rec>)
    returns (ok: bool, c': C, sent': nat)
    requires Incremental(ck) && w.Valid() && SentSoFar(ck, start, size, done, w.out, c, sent)
    modifies w`out
    ensures w.Valid()
    ensures ok <==> r.off !in unreadable && |RecBytes(r)| <= w.cap - |old(w.out)|
    ensures ok ==> SentSoFar(ck, start, size, done + [r], w.out, c', sent') && |w.out| == |old(w.out)| + |RecBytes(r)|
    ensures !ok ==> CutShort(start, Encode(ck, size, done + [r] + rest), w.out)
  {
    ghost var out0 := w.out;
    c', sent' := c, sent;
    ok := r.off !in unreadable;
    if ok {
      ok := SendRec(w, r);
    }
    if ok {
      SentOneMore(ck, start, size, done, out0, c, sent, r);
      c', sent' := ck.update(c, r.data), sent + |r.data|;
    } else {
      CutInRec(ck, start, size, done, r, rest, out0, w.out);
    }
  }

  /** Sends one extent in chunks of at most 4 MiB; reading the file fails at the offsets in unreadable. */
  method SendExtent<C(!new)>(ck: Checker<C>, w: Pipe, data: seq<Byte>, unreadable: set<nat>, e: Extent, c: C, sent: nat,
                             ghost start: seq<Byte>, ghost before: seq<Rec>, ghost after: seq<Rec>)
    returns (ok: bool, c': C, sent': nat)
    requires Incremental(ck) && w.Valid() && e.End() <= |data|
    requires SentSoFar(ck, start, |data|, before, w.out, c, sent)
    modifies w`out
    ensures w.Valid()
    ensures ok <==> CanSend(Chunks(data, e.off, e.End()), unreadable, w.cap - |old(w.out)|)
    ensures ok ==> SentSoFar(ck, start, |data|, before + Chunks(data, e.off, e.End()), w.out, c', sent')
    ensures ok ==> |w.out| == |old(w.out)| + |RecsBytes(Chunks(data, e.off, e.End()))|
    ensures !ok ==> CutShort(start, Encode(ck, |data|, before + Chunks(data, e.off, e.End()) + after), w.out)
  {
    c', sent', ok := c, sent, true;
    var chunkOff := e.off;
    ghost var done, todo := before, Chunks(data, e.off, e.End());
    while chunkOff < e.End()
      invariant w.Valid() && e.off <= chunkOff && todo == Chunks(data, chunkOff, e.End())
      invariant done + todo == before + Chunks(data, e.off, e.End())
      invariant SentSoFar(ck, start, |data|, done, w.out, c', sent')
      invariant CanSend(Chunks(data, e.off, e.End()), unreadable, w.cap - |old(w.out)|) <==> CanSend(todo, unreadable, w.cap - |w.out|)
      invariant |w.out| + |RecsBytes(todo)| == |old(w.out)| + |RecsBytes(Chunks(data, e.off, e.End()))|
      decreases e.End() - chunkOff
    {
      var r := Rec(chunkOff, data[chunkOff..Min(chunkOff + MAX_CHUNK, e.End())]);
      ghost var rest := Chunks(data, chunkOff + MAX_CHUNK, e.End());
      TodoStep(done, r, rest, after, unreadable, w.cap - |w.out|);
      ok, c', sent' := SendChunk(ck, w, |data|, unreadable, r, c', sent', start, done, rest + after);
      if !ok {
        return;
      }
      done, todo := done + [r], rest;
      chunkOff := chunkOff + MAX_CHUNK;
    }
    assert done + [] == done;
  }

  /** Taking the first record off a list to be sent. */
  lemma TodoStep(done: seq<Rec>, r: Rec, rest: seq<Rec>, after: seq<Rec>, unreadable: set<nat>, room: int)
    ensures done + ([r] + rest) == done + [r] + rest
    ensures done + ([r] + rest) + after == done + [r] + (rest + after)
    ensures |RecsBytes([r] + rest)| == |RecBytes(r)| + |RecsBytes(rest)|
    ensures CanSend([r] + rest, unreadable, room) <==>
      r.off !in unreadable && |RecBytes(r)| <= room && CanSend(rest, unreadable, room - |RecBytes(r)|)
  {
    CanSendCons(r, rest, unreadable, room);
    PayloadConcat([r], rest);
    SingleRec(r);
  }

  /** The records Send emits for a file. */
  ghost function FileRecords(f: Sparse, es: seq<Extent>): seq<Rec>
    requires f.Valid() && Runs(es, f.isData, |f.data|)
  {
    RunsAscend(es, f.isData, |f.data|);
    Records(f.data, es)
  }

  /** The records of the extents from i on. */
  ghost function RecordsFrom(data: seq<Byte>, es: seq<Extent>, i: nat): seq<Rec>
    requires i <= |es| && forall j :: 0 <= j < |es| ==> es[j].End() <= |data|
    decreases |es| - i
  {
    if i == |es| then [] else Chunks(data, es[i].off, es[i].End()) + RecordsFrom(data, es, i + 1)
  }

  lemma RecordsStep(data: seq<Byte>, es: seq<Extent>, i: nat)
    requires i < |es| && forall j :: 0 <= j < |es| ==> es[j].End() <= |data|
    ensures Records(data, es[..i + 1]) == Records(data, es[..i]) + Chunks(data, es[i].off, es[i].End())
  {
    assert es[..i + 1][..i] == es[..i];
  }

  lemma Assoc<T>(a: seq<T>, b: seq<T>, c: seq<T>)
    ensures (a + b) + c == a + (b + c)
  {
  }

  lemma {:induction false} RecordsSplit(data: seq<Byte>, es: seq<Extent>, i: nat)
    requires i <= |es| && forall j :: 0 <= j < |es| ==> es[j].End() <= |data|
    ensures Records(data, es) == Records(data, es[..i]) + RecordsFrom(data, es, i)
    decreases |es| - i
  {
    if i == |es| {
      assert es[..i] == es;
    } else {
      RecordsSplit(data, es, i + 1);
      RecordsStep(data, es, i);
      Assoc(Records(data, es[..i]), Chunks(data, es[i].off, es[i].End()), RecordsFrom(data, es, i + 1));
    }
  }

  ghost predicate Inside(data: seq<Byte>, es: seq<Extent>) {
    forall j :: 0 <= j < |es| ==> es[j].End() <= |data|
  }

  /** Before extent i: the records of the extents before it are sent, and whether all can be sent is whether the others
      can; len0 is what the writer had taken at the start. */
  ghost predicate Sending<C>(ck: Checker<C>, start: seq<Byte>, data: seq<Byte>, es: seq<Extent>, unreadable: set<nat>,
                             cap: nat, len0: nat, i: nat, done: seq<Rec>, out: seq<Byte>, c: C, sent: nat) {
    && i <= |es| && Inside(data, es)
    && Records(data, es) == done + RecordsFrom(data, es, i)
    && SentSoFar(ck, start, |data|, done, out, c, sent)
    && (CanSend(Records(data, es), unreadable, cap - len0) <==> CanSend(RecordsFrom(data, es, i), unreadable, cap - |out|))
    && |out| + |RecsBytes(RecordsFrom(data, es, i))| == len0 + |RecsBytes(Records(data, es))|
  }

  lemma SplitHere<C>(ck: Checker<C>, start: seq<Byte>, data: seq<Byte>, es: seq<Extent>, unreadable: set<nat>,
                     cap: nat, len0: nat, i: nat, done: seq<Rec>, out: seq<Byte>, c: C, sent: nat)
    requires i < |es| && Sending(ck, start, data, es, unreadable, cap, len0, i, done, out, c, sent)
    ensures var here, after := Chunks(data, es[i].off, es[i].End()), RecordsFrom(data, es, i + 1);
      && Records(data, es) == done + here + after
      && |RecsBytes(RecordsFrom(data, es, i))| == |RecsBytes(here)| + |RecsBytes(after)|
      && (CanSend(Records(data, es), unreadable, cap - len0) <==>
            CanSend(here, unreadable, cap - |out|) && CanSend(after, unreadable, cap - |out| - |RecsBytes(here)|))
  {
    var here, after := Chunks(data, es[i].off, es[i].End()), RecordsFrom(data, es, i + 1);
    SplitTodo(done, here, after, unreadable, cap - |out|);
  }

  lemma SplitTodo(done: seq<Rec>, here: seq<Rec>, after: seq<Rec>, unreadable: set<nat>, room: int)
    ensures done + (here + after) == done + here + after
    ensures |RecsBytes(here + after)| == |RecsBytes(here)| + |RecsBytes(after)|
    ensures CanSend(here + after, unreadable, room) <==>
      CanSend(here, unreadable, room) && CanSend(after, unreadable, room - |RecsBytes(here)|)
  {
    CanSendConcat(here, after, unreadable, room);
    PayloadConcat(here, after);
  }

  lemma ExtentSent<C>(ck: Checker<C>, start: seq<Byte>, data: seq<Byte>, es: seq<Extent>, unreadable: set<nat>,
                      cap: nat, len0: nat, i: nat, done: seq<Rec>, out: seq<Byte>, c: C, sent: nat,
                      out': seq<Byte>, c': C, sent': nat)
    requires i < |es| && Sending(ck, start, data, es, unreadable, cap, len0, i, done, out, c, sent)
    requires var here := Chunks(data, es[i].off, es[i].End());
      && CanSend(here, unreadable, cap - |out|) && |out'| == |out| + |RecsBytes(here)|
      && SentSoFar(ck, start, |data|, done + here, out', c', sent')
    ensures Sending(ck, start, data, es, unreadable, cap, len0, i + 1, done + Chunks(data, es[i].off, es[i].End()), out', c', sent')
  {
    SplitHere(ck, start, data, es, unreadable, cap, len0, i, done, out, c, sent);
  }

  /** Sends extent i. */
  method SendNth<C(!new)>(ck: Checker<C>, w: Pipe, data: seq<Byte>, unreadable: set<nat>, es: seq<Extent>, i: nat, c: C, sent: nat,
                          ghost start: seq<Byte>, ghost len0: nat, ghost done: seq<Rec>)
    returns (ok: bool, c': C, sent': nat, ghost done': seq<Rec>)
    requires Incremental(ck) && w.Valid() && i < |es|
    requires Sending(ck, start, data, es, unreadable, w.cap, len0, i, done, w.out, c, sent)
    modifies w`out
    ensures w.Valid()
    ensures ok ==> Sending(ck, start, data, es, unreadable, w.cap, len0, i + 1, done', w.out, c', sent')
    ensures !ok ==> !CanSend(Records(data, es), unreadable, w.cap - len0)
    ensures !ok ==> CutShort(start, Encode(ck, |data|, Records(data, es)), w.out)
  {
    ghost var out, here, after := w.out, Chunks(data, es[i].off, es[i].End()), RecordsFrom(data, es, i + 1);
    SplitHere(ck, start, data, es, unreadable, w.cap, len0, i, done, out, c, sent);
    ok, c', sent' := SendExtent(ck, w, data, unreadable, es[i], c, sent, start, done, after);
    done' := done + here;
    if ok {
      ExtentSent(ck, start, data, es, unreadable, w.cap, len0, i, done, out, c, sent, w.out, c', sent');
    }
  }

  /** Sends all extents. */
  method SendExtents<C(!new)>(ck: Checker<C>, w: Pipe, data: seq<Byte>, unreadable: set<nat>, es: seq<Extent>, ghost start: seq<Byte>)
    returns (ok: bool, c: C, sent: nat)
    requires Incremental(ck) && w.Valid() && Inside(data, es)
    requires w.out == start + Header(|data|)
    modifies w`out
    ensures w.Valid()
    ensures ok <==> CanSend(Records(data, es), unreadable, w.cap - |old(w.out)|)
    ensures ok ==> |w.out| == |old(w.out)| + |RecsBytes(Records(data, es))|
    ensures ok ==> SentSoFar(ck, start, |data|, Records(data, es), w.out, c, sent)
    ensures !ok ==> CutShort(start, Encode(ck, |data|, Records(data, es)), w.out)
  {
    c, sent, ok := ck.init, 0, true;
    ghost var done: seq<Rec> := [];
    ghost var len0 := |w.out|;
    SendingStarts(ck, start, data, es, unreadable, w.cap, w.out);
    var i := 0;
    while i < |es|
      invariant 0 <= i <= |es| && w.Valid() && ok
      invariant Sending(ck, start, data, es, unreadable, w.cap, len0, i, done, w.out, c, sent)
    {
      ok, c, sent, done := SendNth(ck, w, data, unreadable, es, i, c, sent, start, len0, done);
      if !ok {
        return;
      }
      i := i + 1;
    }
    SendingEnds(ck, start, data, es, unreadable, w.cap, len0, done, w.out, c, sent);
  }

  lemma SendingStarts<C(!new)>(ck: Checker<C>, start: seq<Byte>, data: seq<Byte>, es: seq<Extent>, unreadable: set<nat>,
                               cap: nat, out: seq<Byte>)
    requires Incremental(ck) && Inside(data, es) && out == start + Header(|data|)
    ensures Sending(ck, start, data, es, unreadable, cap, |out|, 0, [], out, ck.init, 0)
  {
    FromStart(ck, data, es);
    assert [] + RecordsFrom(data, es, 0) == RecordsFrom(data, es, 0);
    assert out == start + Header(|data|) + [];
  }

  lemma SendingEnds<C>(ck: Checker<C>, start: seq<Byte>, data: seq<Byte>, es: seq<Extent>, unreadable: set<nat>,
                       cap: nat, len0: nat, done: seq<Rec>, out: seq<Byte>, c: C, sent: nat)
    requires Sending(ck, start, data, es, unreadable, cap, len0, |es|, done, out, c, sent) && |out| <= cap
    ensures CanSend(Records(data, es), unreadable, cap - len0)
    ensures |out| == len0 + |RecsBytes(Records(data, es))|
    ensures SentSoFar(ck, start, |data|, Records(data, es), out, c, sent)
  {
    assert done + [] == done;
  }

  lemma FromStart<C(!new)>(ck: Checker<C>, data: seq<Byte>, es: seq<Extent>)
    requires Incremental(ck) && forall j :: 0 <= j < |es| ==> es[j].End() <= |data|
    ensures Records(data, es) == RecordsFrom(data, es, 0) && Records(data, es[..0]) == []
    ensures ck.update(ck.init, Payload([])) == ck.init
  {
    RecordsSplit(data, es, 0);
    assert ck.update(ck.init, []) == ck.init;
  }

  lemma CutInHeader<C>(ck: Checker<C>, start: seq<Byte>, size: nat, rs: seq<Rec>, out: seq<Byte>)
    requires start <= out && out < start + Header(size)
    ensures CutShort(start, Encode(ck, size, rs), out)
  {
    var body := RecsBytes(rs) + Trailer(Checksum(ck, Payload(rs)));
    assert start + Encode(ck, size, rs) == start + Header(size) + body;
  }

  lemma TrailerEnds<C>(ck: Checker<C>, start: seq<Byte>, size: nat, rs: seq<Rec>, out: seq<Byte>)
    requires out == start + Header(size) + RecsBytes(rs)
    ensures start + Encode(ck, size, rs) == out + Trailer(Checksum(ck, Payload(rs)))
    ensures start <= out
  {
  }

  lemma EncodedLength<C>(ck: Checker<C>, size: nat, rs: seq<Rec>)
    ensures |Header(size)| == 12 && |Trailer(Checksum(ck, Payload(rs)))| == 12
    ensures |Encode(ck, size, rs)| == 24 + |RecsBytes(rs)|
  {
  }

  /** Send succeeds if and only if the file can be read and the writer has room for the whole encoding of its records; then
      that is what the wire carries and sent is the number of data bytes; otherwise a strict prefix of it. */
  method Send<C(!new)>(ck: Checker<C>, w: Pipe, f: Sparse, unreadable: set<nat>) returns (ok: bool, sent: nat, ghost es: seq<Extent>)
    requires Incremental(ck) && w.Valid() && f.Valid()
    modifies w`out
    ensures w.Valid() && Runs(es, f.isData, |f.data|)
    ensures ok <==>
      && Readable(FileRecords(f, es), unreadable)
      && |old(w.out)| + |Encode(ck, |f.data|, FileRecords(f, es))| <= w.cap
    ensures ok ==> w.out == old(w.out) + Encode(ck, |f.data|, FileRecords(f, es))
    ensures ok ==> sent == Total(es) == CountData(f.isData, |f.isData|)
    ensures !ok ==> CutShort(old(w.out), Encode(ck, |f.data|, FileRecords(f, es)), w.out)
  {
    var extents := WalkExtents(f);
    es := extents;
    ghost var start := w.out;
    RunsAscend(es, f.isData, |f.data|);
    ghost var rs := Records(f.data, es);
    EncodedLength(ck, |f.data|, rs);
    sent := 0;
    ok := w.Write(Header(|f.data|));
    if !ok {
      CutInHeader(ck, start, |f.data|, rs, w.out);
      return;
    }
    var c;
    ok, c, sent := SendExtents(ck, w, f.data, unreadable, extents, start);
    if !ok {
      return;
    }
    TrailerEnds(ck, start, |f.data|, rs, w.out);
    ok := w.Write(Trailer(ck.field(c)));
    if ok {
      RecordsGood(f.data, es);
      TotalCounts(es, f.isData, |f.data|);
    }
  }

  // ---------------------------------------------------------------- Receive

  /** Payload bytes applied so far, and what is left to decode. */
  ghost predicate ReceivedSoFar<C>(ck: Checker<C>, s: seq<Byte>, pos: nat, size: nat, c: C, done: seq<Rec>, whole: Parsed) {
    && pos <= |s|
    && var rest := ParseRecs(ck, s[pos..], size, c);
    && whole.status == rest.status
    && whole.applied == done + rest.applied
  }

  lemma HeadAt<C>(ck: Checker<C>, s: seq<Byte>, pos: nat, size: nat, c: C, off: nat, len: nat)
    requires pos + 12 + len <= |s| && off == Val(s[pos..pos + 8]) && len == Val(s[pos + 8..pos + 12]) && off != TRAILER
    requires HeaderStatus(off, len, |s| - pos, size) == Ok
    ensures var data := s[pos + 12..pos + 12 + len];
      var p, rest := ParseRecs(ck, s[pos..], size, c), ParseRecs(ck, s[pos + 12 + len..], size, ck.update(c, data));
      p.status == rest.status && p.applied == [Rec(off, data)] + rest.applied
  {
    Slices(s, pos, len);
    ParseHead(ck, s[pos..], size, c, off, len);
  }

  lemma ReceivedOneMore<C>(ck: Checker<C>, s: seq<Byte>, pos: nat, size: nat, c: C, done: seq<Rec>, whole: Parsed)
    requires ReceivedSoFar(ck, s, pos, size, c, done, whole) && size < I64 && pos + 12 <= |s|
    requires Val(s[pos..pos + 8]) != TRAILER
    requires HeaderStatus(Val(s[pos..pos + 8]), Val(s[pos + 8..pos + 12]), |s| - pos, size) == Ok
    ensures var off, len := Val(s[pos..pos + 8]), Val(s[pos + 8..pos + 12]);
      && pos + 12 + len <= |s|
      && var data := s[pos + 12..pos + 12 + len];
      && GoodRec(Rec(off, data), size)
      && ReceivedSoFar(ck, s, pos + 12 + len, size, ck.update(c, data), done + [Rec(off, data)], whole)
  {
    var off, len := Val(s[pos..pos + 8]), Val(s[pos + 8..pos + 12]);
    HeaderInside(off, len, |s| - pos, size);
    HeadAt(ck, s, pos, size, c, off, len);
    var data := s[pos + 12..pos + 12 + len];
    Assoc(done, [Rec(off, data)], ParseRecs(ck, s[pos + 12 + len..], size, ck.update(c, data)).applied);
  }

  lemma Slices(s: seq<Byte>, pos: nat, len: nat)
    requires pos + 12 + len <= |s|
    ensures var t := s[pos..];
      && t[..8] == s[pos..pos + 8] && t[8..12] == s[pos + 8..pos + 12]
      && t[12..12 + len] == s[pos + 12..pos + 12 + len] && t[12 + len..] == s[pos + 12 + len..]
  {
  }

  /** Decoding an input whose first record is good. */
  lemma ParseHead<C>(ck: Checker<C>, t: seq<Byte>, size: nat, c: C, off: nat, len: nat)
    requires |t| >= 12 + len && off == Val(t[..8]) && len == Val(t[8..12]) && off != TRAILER
    requires HeaderStatus(off, len, |t|, size) == Ok
    ensures ParseRecs(ck, t, size, c) ==
      Prepend(Rec(off, t[12..12 + len]), ParseRecs(ck, t[12 + len..], size, ck.update(c, t[12..12 + len])))
  {
  }

  /** Where the decoder stops, it stops with exactly the records applied so far. */
  lemma ReceivedEnds<C>(ck: Checker<C>, s: seq<Byte>, pos: nat, size: nat, c: C, done: seq<Rec>, whole: Parsed)
    requires ReceivedSoFar(ck, s, pos, size, c, done, whole)
    ensures |s| - pos < 12 ==> whole.status == ShortRecord && whole.applied == done
    ensures |s| - pos >= 12 ==>
      var off, len := Val(s[pos..pos + 8]), Val(s[pos + 8..pos + 12]);
      && (off == TRAILER ==> whole.status == (if ck.field(c) == len then Ok else CrcMismatch) && whole.applied == done)
      && (off != TRAILER && HeaderStatus(off, len, |s| - pos, size) != Ok ==>
            whole.status == HeaderStatus(off, len, |s| - pos, size) && whole.applied == done)
  {
    var t := s[pos..];
    assert done + [] == done;
    if |t| >= 12 {
      assert t[..8] == s[pos..pos + 8] && t[8..12] == s[pos + 8..pos + 12];
    }
  }

  /** The records in done have been applied to the resized destination base. */
  ghost predicate AppliedSoFar(base: seq<Byte>, done: seq<Rec>, data: seq<Byte>) {
    GoodRecs(done, |base|) && data == ApplyAll(base, done)
  }

  /** Writing r breaks off. */
  predicate Hits(faults: map<nat, nat>, r: Rec) {
    r.off in faults && faults[r.off] < |r.data|
  }

  /** None of these records' writes breaks off. */
  ghost predicate Unbroken(faults: map<nat, nat>, rs: seq<Rec>) {
    forall i :: 0 <= i < |rs| ==> !Hits(faults, rs[i])
  }

  /** Writes one record's payload in place: inside the file, refused for an offset that is negative as int64, or broken
      off by an I/O error. */
  method WriteRec(f: File, off: nat, buf: seq<Byte>, ghost base: seq<Byte>, ghost done: seq<Rec>) returns (r: WriteResult)
    requires AppliedSoFar(base, done, f.data)
    requires off < I64 ==> GoodRec(Rec(off, buf), |base|)
    modifies f`data
    ensures r.Negative? <==> off >= I64
    ensures r.Negative? ==> f.data == old(f.data)
    ensures r.Wrote? ==> AppliedSoFar(base, done + [Rec(off, buf)], f.data)
    ensures r.Failed? ==> r.n < |buf| && AppliedSoFar(base, done + [Rec(off, buf[..r.n])], f.data)
    ensures r.Failed? <==> off < I64 && Hits(f.faults, Rec(off, buf))
  {
    r := f.WriteAt(buf, off);
    if r.Wrote? {
      ApplyOne(base, done, Rec(off, buf));
    } else if r.Failed? {
      ApplyOne(base, done, Rec(off, buf[..r.n]));
    }
  }

  /** What reading a record header and payload gives: the end of the decode, or a record to write. */
  datatype Reading = End(status: Status) | Take(off: nat, buf: seq<Byte>)

  /** The decoder's reading at pos is right: an end is the end of the whole decode; a record whose offset is negative
      as int64 ends it too; any other record is good and the decode goes on behind it. */
  ghost predicate RightReading<C>(ck: Checker<C>, s: seq<Byte>, pos: nat, size: nat, c: C, done: seq<Rec>, whole: Parsed, r: Reading) {
    match r
    case End(status) => whole.status == status && whole.applied == done
    case Take(off, buf) =>
      && (off >= I64 ==> whole.status == BadOffset && whole.applied == done)
      && (off < I64 ==>
            && GoodRec(Rec(off, buf), size)
            && ReceivedSoFar(ck, s, pos + 12 + |buf|, size, ck.update(c, buf), done + [Rec(off, buf)], whole))
  }

  /** The checks on a record header, in the order of the code; the sum of offset and length wraps around. */
  method CheckHeader(off: nat, length: nat, avail: nat, size: nat) returns (bad: Option<Status>)
    ensures bad.Some? ==> bad.value == HeaderStatus(off, length, avail, size) && bad.value != Ok
    ensures bad.None? ==> 12 + length <= avail && HeaderStatus(off, length, avail, size) == if off >= I64 then BadOffset else Ok
  {
    if length > MAX_CHUNK {
      return Some(Oversized);
    }
    if (off + length) % U64 > size {
      return Some(Beyond);
    }
    if avail < 12 + length {
      return Some(ShortPayload);
    }
    return None;
  }

  lemma TakeIsRight<C(!new)>(ck: Checker<C>, s: seq<Byte>, pos: nat, size: nat, c: C, done: seq<Rec>, whole: Parsed, off: nat, len: nat)
    requires ReceivedSoFar(ck, s, pos, size, c, done, whole) && size < I64 && pos + 12 + len <= |s|
    requires off == Val(s[pos..pos + 8]) && len == Val(s[pos + 8..pos + 12]) && off != TRAILER
    requires HeaderStatus(off, len, |s| - pos, size) == if off >= I64 then BadOffset else Ok
    ensures RightReading(ck, s, pos, size, c, done, whole, Take(off, s[pos + 12..pos + 12 + len]))
  {
    if off < I64 {
      ReceivedOneMore(ck, s, pos, size, c, done, whole);
    } else {
      ReceivedEnds(ck, s, pos, size, c, done, whole);
    }
  }

  /** Reads one record of the stream. */
  method ReadRecord<C(!new)>(ck: Checker<C>, s: seq<Byte>, pos: nat, size: nat, c: C, ghost done: seq<Rec>, ghost whole: Parsed)
    returns (r: Reading)
    requires ReceivedSoFar(ck, s, pos, size, c, done, whole) && size < I64
    ensures RightReading(ck, s, pos, size, c, done, whole, r)
    ensures r.Take? ==> pos + 12 + |r.buf| <= |s|
  {
    ReceivedEnds(ck, s, pos, size, c, done, whole);
    if |s| - pos < 12 {
      return End(ShortRecord);
    }
    var off, length := Val(s[pos..pos + 8]), Val(s[pos + 8..pos + 12]);
    if off == TRAILER {
      return End(if ck.field(c) == length then Ok else CrcMismatch);
    }
    var bad := CheckHeader(off, length, |s| - pos, size);
    if bad.Some? {
      return End(bad.value);
    }
    TakeIsRight(ck, s, pos, size, c, done, whole, off, length);
    return Take(off, s[pos + 12..pos + 12 + length]);
  }

  /** applied is a strict prefix of rs with one more record cut short. */
  ghost predicate BrokenOff(applied: seq<Rec>, rs: seq<Rec>) {
    && applied != [] && |applied| <= |rs|
    && var n := |applied| - 1;
    && applied[..n] == rs[..n] && applied[n].off == rs[n].off && applied[n].data < rs[n].data
  }

  /** How a receive of a stream that decodes to p may end: as the decoder does, with its records applied and counted; or
      broken off by a failing write inside one of them, which is not counted. */
  ghost predicate EndsLike(p: Parsed, status: Status, applied: seq<Rec>, written: nat) {
    if status == WriteFailed then BrokenOff(applied, p.applied) && written == |Payload(applied[..|applied| - 1])|
    else status == p.status && applied == p.applied && written == |Payload(applied)|
  }

  lemma CutLast(done: seq<Rec>, r: Rec, n: nat, rest: seq<Rec>)
    requires n < |r.data|
    ensures BrokenOff(done + [Rec(r.off, r.data[..n])], done + [r] + rest)
  {
    var applied := done + [Rec(r.off, r.data[..n])];
    assert applied[..|done|] == done == (done + [r] + rest)[..|done|];
  }

  /** The loop of Receive at pos: applied are the records read, written and counted so far. */
  ghost predicate Receiving<C>(ck: Checker<C>, s: seq<Byte>, size: nat, whole: Parsed, base: seq<Byte>,
                               pos: nat, c: C, applied: seq<Rec>, written: nat, data: seq<Byte>) {
    && ReceivedSoFar(ck, s, pos, size, c, applied, whole)
    && AppliedSoFar(base, applied, data) && written == |Payload(applied)|
  }

  /** The loop body of Receive; end is None if it goes on. */
  method ReceiveRec<C(!new)>(ck: Checker<C>, s: seq<Byte>, f: File, size: nat, pos: nat, c: C, written: nat,
                             ghost whole: Parsed, ghost base: seq<Byte>, ghost applied: seq<Rec>)
    returns (end: Option<Status>, pos': nat, c': C, written': nat, ghost applied': seq<Rec>)
    requires size < I64 && |base| == size && Receiving(ck, s, size, whole, base, pos, c, applied, written, f.data)
    requires whole.status != WriteFailed && Unbroken(f.faults, applied)
    modifies f`data
    ensures end.None? ==> pos < pos' <= |s| && Receiving(ck, s, size, whole, base, pos', c', applied', written', f.data)
    ensures end.Some? ==> EndsLike(whole, end.value, applied', written') && AppliedSoFar(base, applied', f.data)
    ensures end.None? ==> Unbroken(f.faults, applied')
    ensures end.Some? ==> (end.value == WriteFailed <==> !Unbroken(f.faults, whole.applied))
  {
    end, pos', c', written', applied' := None, pos, c, written, applied;
    var r := ReadRecord(ck, s, pos, size, c, applied, whole);
    if r.End? {
      end := Some(r.status);
      return;
    }
    var wrote := WriteRec(f, r.off, r.buf, base, applied);
    if wrote.Negative? {
      end := Some(BadOffset);
    } else if wrote.Failed? {
      BreaksOff(ck, s, size, whole, pos, c, applied, written, r.off, r.buf, wrote.n, f.faults);
      end, applied' := Some(WriteFailed), applied + [Rec(r.off, r.buf[..wrote.n])];
    } else {
      GoesOn(ck, s, size, whole, base, pos, c, applied, written, r.off, r.buf, f.data, f.faults);
      pos', c' := pos + 12 + |r.buf|, ck.update(c, r.buf);
      written', applied' := written + |r.buf|, applied + [Rec(r.off, r.buf)];
    }
  }

  lemma BreaksOff<C(!new)>(ck: Checker<C>, s: seq<Byte>, size: nat, whole: Parsed, pos: nat, c: C,
                           applied: seq<Rec>, written: nat, off: nat, buf: seq<Byte>, n: nat, faults: map<nat, nat>)
    requires RightReading(ck, s, pos, size, c, applied, whole, Take(off, buf)) && off < I64 && n < |buf|
    requires written == |Payload(applied)| && Hits(faults, Rec(off, buf))
    ensures EndsLike(whole, WriteFailed, applied + [Rec(off, buf[..n])], written)
    ensures !Unbroken(faults, whole.applied)
  {
    assert whole.applied[|applied|] == Rec(off, buf);
    CutLast(applied, Rec(off, buf), n, ParseRecs(ck, s[pos + 12 + |buf|..], size, ck.update(c, buf)).applied);
    assert (applied + [Rec(off, buf[..n])])[..|applied|] == applied;
  }

  lemma GoesOn<C(!new)>(ck: Checker<C>, s: seq<Byte>, size: nat, whole: Parsed, base: seq<Byte>, pos: nat, c: C,
                        applied: seq<Rec>, written: nat, off: nat, buf: seq<Byte>, data: seq<Byte>, faults: map<nat, nat>)
    requires RightReading(ck, s, pos, size, c, applied, whole, Take(off, buf)) && off < I64
    requires AppliedSoFar(base, applied + [Rec(off, buf)], data) && written == |Payload(applied)|
    requires Unbroken(faults, applied) && !Hits(faults, Rec(off, buf))
    ensures Receiving(ck, s, size, whole, base, pos + 12 + |buf|, ck.update(c, buf), applied + [Rec(off, buf)], written + |buf|, data)
    ensures Unbroken(faults, applied + [Rec(off, buf)])
  {
    PayloadGrows(applied, Rec(off, buf));
  }

  /** The record loop. */
  method ReceiveRecs<C(!new)>(ck: Checker<C>, s: seq<Byte>, f: File, size: nat)
    returns (status: Status, written: nat, ghost applied: seq<Rec>)
    requires |s| >= 12 && size < I64 && |f.data| == size
    modifies f`data
    ensures EndsLike(ParseRecs(ck, s[12..], size, ck.init), status, applied, written)
    ensures AppliedSoFar(old(f.data), applied, f.data)
    ensures status == WriteFailed <==> !Unbroken(f.faults, ParseRecs(ck, s[12..], size, ck.init).applied)
  {
    ghost var whole := ParseRecs(ck, s[12..], size, ck.init);
    ghost var base := f.data;
    var c, pos := ck.init, 12;
    written, applied := 0, [];
    RecordStatus(ck, s[12..], size, ck.init);
    assert applied + whole.applied == whole.applied;
    while true
      invariant pos <= |s| && Receiving(ck, s, size, whole, base, pos, c, applied, written, f.data)
      invariant Unbroken(f.faults, applied)
      decreases |s| - pos
    {
      var end;
      end, pos, c, written, applied := ReceiveRec(ck, s, f, size, pos, c, written, whole, base, applied);
      if end.Some? {
        return end.value, written, applied;
      }
    }
  }

  lemma PayloadGrows(rs: seq<Rec>, r: Rec)
    ensures |Payload(rs + [r])| == |Payload(rs)| + |r.data|
  {
    PayloadConcat(rs, [r]);
    SingleRec(r);
  }

  predicate BeforeRecords(status: Status) {
    status == ShortHeader || status == BadMagic || status == TruncateFailed
  }

  lemma RecordStatus<C>(ck: Checker<C>, s: seq<Byte>, size: nat, c: C)
    ensures !BeforeRecords(ParseRecs(ck, s, size, c).status) && ParseRecs(ck, s, size, c).status != WriteFailed
    decreases |s|
  {
    if |s| >= 12 {
      var off, len := Val(s[..8]), Val(s[8..12]);
      if off != TRAILER && HeaderStatus(off, len, |s|, size) == Ok {
        RecordStatus(ck, s[12 + len..], size, ck.update(c, s[12..12 + len]));
      }
    }
  }

  /** Receive: decodes the stream into the file in place.  It ends like the decoder, or is broken off by a failing write;
      the file is the destination, resized to the advertised size, with exactly the applied records written, and never
      grows beyond that size. */
  method Receive<C(!new)>(ck: Checker<C>, s: seq<Byte>, f: File) returns (status: Status, written: nat, ghost applied: seq<Rec>)
    modifies f`data
    ensures EndsLike(Parse(ck, s, f.maxSize), status, applied, written)
    ensures status == WriteFailed <==> !Unbroken(f.faults, Parse(ck, s, f.maxSize).applied)
    ensures BeforeRecords(status) ==> f.data == old(f.data)
    ensures !BeforeRecords(status) ==>
      && |s| >= 12 && GoodRecs(applied, Val(s[4..12]))
      && f.data == ApplyAll(Resize(old(f.data), Val(s[4..12])), applied)
  {
    if |s| < 12 {
      return ShortHeader, 0, [];
    }
    if s[..4] != MAGIC {
      return BadMagic, 0, [];
    }
    var size := Val(s[4..12]);
    var ok := f.Truncate(size);
    if !ok {
      return TruncateFailed, 0, [];
    }
    status, written, applied := ReceiveRecs(ck, s, f, size);
    ParseBehindHeader(ck, s, f.maxSize, status, applied, written);
  }

  /** Behind a good header the whole decode ends like the record loop. */
  lemma ParseBehindHeader<C>(ck: Checker<C>, s: seq<Byte>, maxSize: nat, status: Status, applied: seq<Rec>, written: nat)
    requires |s| >= 12 && s[..4] == MAGIC && CanTruncate(Val(s[4..12]), maxSize)
    requires EndsLike(ParseRecs(ck, s[12..], Val(s[4..12]), ck.init), status, applied, written)
    ensures EndsLike(Parse(ck, s, maxSize), status, applied, written) && !BeforeRecords(status)
  {
    RecordStatus(ck, s[12..], Val(s[4..12]), ck.init);
  }

  lemma ApplyOne(file: seq<Byte>, done: seq<Rec>, r: Rec)
    requires GoodRecs(done, |file|) && GoodRec(r, |file|)
    ensures GoodRecs(done + [r], |file|)
    ensures ApplyAll(file, done + [r]) == Put(ApplyAll(file, done), r)
    ensures Stored(ApplyAll(file, done), r.data, r.off) == Put(ApplyAll(file, done), r)
  {
    ApplyConcat(file, done, [r]);
    assert [r][1..] == [];
    assert Resize(ApplyAll(file, done), |file|) == ApplyAll(file, done);
  }
}
