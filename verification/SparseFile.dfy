/** Sparse files: data extents, how records overlay a destination. */
module SparseFile {
  import opened Arith
  import opened Options
  import opened Bytes
  import opened WireFormat

  /** A file and its data map; holes read as zero. */
  datatype Sparse = Sparse(data: seq<Byte>, isData: seq<bool>)
  {
    ghost predicate Valid() {
      && |data| == |isData| < I64
      && forall k :: 0 <= k < |data| && !isData[k] ==> data[k] == 0
    }

    /** lseek SEEK_DATA: the first data byte at or after off, or ENXIO. */
    function SeekData(off: nat): (r: Option<nat>)
      requires |data| == |isData|
      ensures r.Some? ==> off <= r.value < |data| && isData[r.value] && forall k :: off <= k < r.value ==> !isData[k]
      ensures r.None? ==> forall k :: off <= k < |data| ==> !isData[k]
      decreases |data| - off
    {
      if off >= |data| then None else if isData[off] then Some(off) else SeekData(off + 1)
    }

    /** lseek SEEK_HOLE: the first hole at or after off; the end of the file counts as a hole. */
    function SeekHole(off: nat): (r: nat)
      requires |data| == |isData| && off <= |data|
      ensures off <= r <= |data| && (r < |data| ==> !isData[r]) && forall k :: off <= k < r ==> isData[k]
      decreases |data| - off
    {
      if off >= |data| then |data| else if !isData[off] then off else SeekHole(off + 1)
    }
  }

  datatype Extent = Extent(off: nat, len: nat)
  {
    function End(): nat { off + len }
  }

  // ---------------------------------------------------------------- extents

  ghost predicate Hole(isData: seq<bool>, a: nat, b: nat) {
    a <= b <= |isData| && forall k :: a <= k < b ==> !isData[k]
  }

  ghost predicate Solid(isData: seq<bool>, a: nat, b: nat) {
    a <= b <= |isData| && forall k :: a <= k < b ==> isData[k]
  }

  /** es are the maximal data runs of the first n bytes, in ascending order. */
  ghost predicate Runs(es: seq<Extent>, isData: seq<bool>, n: nat)
    decreases |es|
  {
    if es == [] then Hole(isData, 0, n)
    else
      var e, init := es[|es| - 1], es[..|es| - 1];
      && e.len > 0 && e.End() <= n
      && Solid(isData, e.off, e.End()) && Hole(isData, e.End(), n)
      && (e.off > 0 ==> e.off <= |isData| && !isData[e.off - 1])
      && Runs(init, isData, e.off)
  }

  lemma {:induction false} RunsInside(es: seq<Extent>, isData: seq<bool>, n: nat, i: nat)
    requires Runs(es, isData, n) && i < |es|
    ensures es[i].len > 0 && es[i].End() <= n <= |isData|
    decreases |es|
  {
    if i < |es| - 1 {
      RunsInside(es[..|es| - 1], isData, es[|es| - 1].off, i);
    }
  }

  /** The declarative reading: runs are non-empty, ascending, disjoint and not even adjacent, and a byte is data exactly when
      it lies in one of them. */
  lemma {:induction false} RunsAscend(es: seq<Extent>, isData: seq<bool>, n: nat)
    requires Runs(es, isData, n)
    ensures forall i :: 0 <= i < |es| ==> es[i].len > 0 && es[i].End() <= n <= |isData|
    ensures forall i, j :: 0 <= i < j < |es| ==> es[i].End() < es[j].off
    decreases |es|
  {
    if es != [] {
      var e, init := es[|es| - 1], es[..|es| - 1];
      RunsAscend(init, isData, e.off);
      forall i | 0 <= i < |init| ensures es[i].End() < e.off {
        assert es[i] == init[i];
        RunEndsInHole(init, isData, e.off, i);
      }
    }
  }

  /** A run ends before the next position that is data, so it does not touch a run starting at n. */
  lemma {:induction false} RunEndsInHole(es: seq<Extent>, isData: seq<bool>, n: nat, i: nat)
    requires Runs(es, isData, n) && i < |es| && n > 0 && n <= |isData| && !isData[n - 1]
    ensures es[i].End() < n
    decreases |es|
  {
    var e, init := es[|es| - 1], es[..|es| - 1];
    if i < |es| - 1 {
      RunsInside(init, isData, e.off, i);
    } else {
      assert isData[e.End() - 1];
    }
  }

  ghost predicate In(es: seq<Extent>, k: nat) {
    exists i :: 0 <= i < |es| && es[i].off <= k < es[i].End()
  }

  lemma {:induction false} RunsCover(es: seq<Extent>, isData: seq<bool>, n: nat, k: nat)
    requires Runs(es, isData, n) && k < n
    ensures n <= |isData| && (isData[k] <==> In(es, k))
    decreases |es|
  {
    if es == [] {
    } else {
      var e, init := es[|es| - 1], es[..|es| - 1];
      if k < e.off {
        RunsCover(init, isData, e.off, k);
        if In(init, k) {
          var i :| 0 <= i < |init| && init[i].off <= k < init[i].End();
          assert es[i] == init[i];
        }
        if In(es, k) {
          var i :| 0 <= i < |es| && es[i].off <= k < es[i].End();
          assert es[i] == init[i];
        }
      } else if k < e.End() {
        assert es[|es| - 1].off <= k < es[|es| - 1].End();
      } else if In(es, k) {
        var i :| 0 <= i < |es| && es[i].off <= k < es[i].End();
        if i < |init| {
          assert es[i] == init[i];
          RunsInside(init, isData, e.off, i);
        }
        assert false;
      }
    }
  }

  lemma RunsHaveData(es: seq<Extent>, isData: seq<bool>, n: nat)
    requires Runs(es, isData, n)
    ensures es == [] <==> Hole(isData, 0, n)
  {
    if es != [] {
      assert isData[es[|es| - 1].off];
    }
  }

  /** The extent list is determined by the layout. */
  lemma {:induction false} RunsUnique(es: seq<Extent>, fs: seq<Extent>, isData: seq<bool>, n: nat)
    requires Runs(es, isData, n) && Runs(fs, isData, n)
    ensures es == fs
    decreases |es|
  {
    if es == [] || fs == [] {
      RunsHaveData(es, isData, n);
      RunsHaveData(fs, isData, n);
    } else {
      var e, f := es[|es| - 1], fs[|fs| - 1];
      assert isData[e.End() - 1] && isData[f.End() - 1];
      assert e.End() == f.End();
      assert isData[e.off] && isData[f.off];
      assert e.off == f.off;
      RunsUnique(es[..|es| - 1], fs[..|fs| - 1], isData, e.off);
      assert es == es[..|es| - 1] + [e] && fs == fs[..|fs| - 1] + [f];
    }
  }

  /** Appending the next run. */
  lemma RunsAppend(es: seq<Extent>, isData: seq<bool>, n: nat, a: nat, b: nat)
    requires Runs(es, isData, n) && n <= a < b <= |isData| && Hole(isData, n, a) && Solid(isData, a, b)
    requires n > 0 ==> a > 0 && !isData[a - 1]
    ensures Runs(es + [Extent(a, b - a)], isData, b)
  {
    RunsStretch(es, isData, n, a);
    assert (es + [Extent(a, b - a)])[..|es|] == es;
  }

  lemma RunsStretch(es: seq<Extent>, isData: seq<bool>, n: nat, m: nat)
    requires Runs(es, isData, n) && Hole(isData, n, m)
    ensures Runs(es, isData, m)
  {
  }

  // ---------------------------------------------------------------- totals

  function Total(es: seq<Extent>): nat {
    if es == [] then 0 else Total(es[..|es| - 1]) + es[|es| - 1].len
  }

  function CountData(isData: seq<bool>, n: nat): nat
    requires n <= |isData|
  {
    if n == 0 then 0 else CountData(isData, n - 1) + if isData[n - 1] then 1 else 0
  }

  lemma {:induction false} CountOver(isData: seq<bool>, a: nat, b: nat)
    requires a <= b <= |isData|
    ensures Hole(isData, a, b) ==> CountData(isData, b) == CountData(isData, a)
    ensures Solid(isData, a, b) ==> CountData(isData, b) == CountData(isData, a) + (b - a)
    decreases b - a
  {
    if a < b {
      CountOver(isData, a, b - 1);
    }
  }

  /** The extents' total length is the number of data bytes. */
  lemma {:induction false} TotalCounts(es: seq<Extent>, isData: seq<bool>, n: nat)
    requires Runs(es, isData, n) && n <= |isData|
    ensures Total(es) == CountData(isData, n)
    decreases |es|
  {
    if es == [] {
      CountOver(isData, 0, n);
    } else {
      var e := es[|es| - 1];
      TotalCounts(es[..|es| - 1], isData, e.off);
      CountOver(isData, e.off, e.End());
      CountOver(isData, e.End(), n);
    }
  }

  // ---------------------------------------------------------------- records of a file

  /** Bytes [a, b) of the file, split into records of at most 4 MiB. */
  function Chunks(data: seq<Byte>, a: nat, b: nat): seq<Rec>
    requires b <= |data|
    decreases b - a
  {
    if a >= b then []
    else [Rec(a, data[a..Min(a + MAX_CHUNK, b)])] + Chunks(data, a + MAX_CHUNK, b)
  }

  /** The records of all extents, in order. */
  function Records(data: seq<Byte>, es: seq<Extent>): seq<Rec>
    requires forall i :: 0 <= i < |es| ==> es[i].End() <= |data|
  {
    if es == [] then []
    else Records(data, es[..|es| - 1]) + Chunks(data, es[|es| - 1].off, es[|es| - 1].End())
  }

  lemma {:induction false} ChunksFit(data: seq<Byte>, a: nat, b: nat)
    requires b <= |data| < I64
    ensures GoodRecs(Chunks(data, a, b), |data|)
    decreases b - a
  {
    if a < b {
      ChunksFit(data, a + MAX_CHUNK, b);
      assert GoodRec(Rec(a, data[a..Min(a + MAX_CHUNK, b)]), |data|);
    }
  }

  lemma {:induction false} ChunksPayload(data: seq<Byte>, a: nat, b: nat)
    requires a <= b <= |data|
    ensures Payload(Chunks(data, a, b)) == data[a..b]
    decreases b - a
  {
    if a < b {
      var m := Min(a + MAX_CHUNK, b);
      assert Chunks(data, a, b)[1..] == Chunks(data, a + MAX_CHUNK, b);
      if a + MAX_CHUNK < b {
        ChunksPayload(data, m, b);
      }
      assert data[a..b] == data[a..m] + data[m..b];
    }
  }

  lemma ChunksGood(data: seq<Byte>, a: nat, b: nat)
    requires b <= |data| < I64
    ensures GoodRecs(Chunks(data, a, b), |data|)
    ensures a <= b ==> Payload(Chunks(data, a, b)) == data[a..b]
  {
    ChunksFit(data, a, b);
    if a <= b {
      ChunksPayload(data, a, b);
    }
  }

  lemma {:induction false} PayloadConcat(rs: seq<Rec>, qs: seq<Rec>)
    ensures Payload(rs + qs) == Payload(rs) + Payload(qs)
    ensures RecsBytes(rs + qs) == RecsBytes(rs) + RecsBytes(qs)
    decreases |rs|
  {
    if rs == [] {
      assert rs + qs == qs;
    } else {
      assert (rs + qs)[0] == rs[0] && (rs + qs)[1..] == rs[1..] + qs;
      PayloadConcat(rs[1..], qs);
    }
  }

  lemma {:induction false} RecordsGood(data: seq<Byte>, es: seq<Extent>)
    requires (forall i :: 0 <= i < |es| ==> es[i].End() <= |data|) && |data| < I64
    ensures GoodRecs(Records(data, es), |data|)
    ensures |Payload(Records(data, es))| == Total(es)
    decreases |es|
  {
    if es != [] {
      var e, init := es[|es| - 1], es[..|es| - 1];
      RecordsGood(data, init);
      ChunksGood(data, e.off, e.End());
      PayloadConcat(Records(data, init), Chunks(data, e.off, e.End()));
    }
  }

  // ---------------------------------------------------------------- overlaying

  /** Truncation to size: cut or extended with zeros. */
  function Resize(file: seq<Byte>, size: nat): (r: seq<Byte>)
    ensures |r| == size
    ensures forall k :: 0 <= k < size ==> r[k] == if k < |file| then file[k] else 0
  {
    if size <= |file| then file[..size] else file + seq(size - |file|, _ => 0)
  }

  /** pwrite inside the file. */
  function Put(file: seq<Byte>, r: Rec): (f: seq<Byte>)
    requires r.off + |r.data| <= |file|
    ensures |f| == |file|
    ensures forall k :: 0 <= k < |file| ==>
      f[k] == if r.off <= k < r.off + |r.data| then r.data[k - r.off] else file[k]
  {
    file[..r.off] + r.data + file[r.off + |r.data|..]
  }

  function ApplyAll(file: seq<Byte>, rs: seq<Rec>): (f: seq<Byte>)
    requires GoodRecs(rs, |file|)
    ensures |f| == |file|
    decreases |rs|
  {
    if rs == [] then file
    else
      assert GoodRec(rs[0], |file|);
      ApplyAll(Put(file, rs[0]), rs[1..])
  }

  lemma {:induction false} ApplyConcat(file: seq<Byte>, rs: seq<Rec>, qs: seq<Rec>)
    requires GoodRecs(rs, |file|) && GoodRecs(qs, |file|)
    ensures GoodRecs(rs + qs, |file|) && ApplyAll(file, rs + qs) == ApplyAll(ApplyAll(file, rs), qs)
    decreases |rs|
  {
    if rs == [] {
      assert rs + qs == qs;
    } else {
      assert GoodRec(rs[0], |file|);
      assert (rs + qs)[0] == rs[0] && (rs + qs)[1..] == rs[1..] + qs;
      ApplyConcat(Put(file, rs[0]), rs[1..], qs);
    }
  }

  lemma {:induction false} ApplyChunks(file: seq<Byte>, data: seq<Byte>, a: nat, b: nat, k: nat)
    requires |file| == |data| < I64 && b <= |data| && k < |data|
    ensures GoodRecs(Chunks(data, a, b), |file|)
    ensures ApplyAll(file, Chunks(data, a, b))[k] == if a <= k < b then data[k] else file[k]
    decreases b - a
  {
    ChunksGood(data, a, b);
    if a < b {
      var r := Rec(a, data[a..Min(a + MAX_CHUNK, b)]);
      assert Chunks(data, a, b)[0] == r && Chunks(data, a, b)[1..] == Chunks(data, a + MAX_CHUNK, b);
      ApplyChunks(Put(file, r), data, a + MAX_CHUNK, b, k);
    }
  }

  /** Applying a file's records overwrites exactly its data bytes. */
  lemma {:induction false} ApplyRecords(file: seq<Byte>, f: Sparse, es: seq<Extent>, n: nat, k: nat)
    requires f.Valid() && |file| == |f.data| && Runs(es, f.isData, n) && n <= |f.data| && k < |f.data|
    ensures forall i :: 0 <= i < |es| ==> es[i].End() <= |f.data|
    ensures GoodRecs(Records(f.data, es), |file|)
    ensures ApplyAll(file, Records(f.data, es))[k] == if k < n && f.isData[k] then f.data[k] else file[k]
    decreases |es|
  {
    RunsAscend(es, f.isData, n);
    if es != [] {
      var e, init := es[|es| - 1], es[..|es| - 1];
      var rs, cs := Records(f.data, init), Chunks(f.data, e.off, e.End());
      ApplyRecords(file, f, init, e.off, k);
      ChunksGood(f.data, e.off, e.End());
      ApplyConcat(file, rs, cs);
      ApplyChunks(ApplyAll(file, rs), f.data, e.off, e.End(), k);
    }
  }

  /** The destination resized to the source's size with exactly the source's data bytes overwritten. */
  ghost function Overlay(dst: seq<Byte>, f: Sparse): (r: seq<Byte>)
    requires |f.data| == |f.isData|
    ensures |r| == |f.data|
    ensures forall k :: 0 <= k < |r| ==> r[k] == if f.isData[k] then f.data[k] else if k < |dst| then dst[k] else 0
  {
    seq(|f.data|, k requires 0 <= k < |f.data| => if f.isData[k] then f.data[k] else if k < |dst| then dst[k] else 0)
  }

  lemma ApplyIsOverlay(dst: seq<Byte>, f: Sparse, es: seq<Extent>)
    requires f.Valid() && Runs(es, f.isData, |f.data|)
    ensures forall i :: 0 <= i < |es| ==> es[i].End() <= |f.data|
    ensures GoodRecs(Records(f.data, es), |f.data|)
    ensures ApplyAll(Resize(dst, |f.data|), Records(f.data, es)) == Overlay(dst, f)
  {
    var file := Resize(dst, |f.data|);
    RunsAscend(es, f.isData, |f.data|);
    RecordsGood(f.data, es);
    forall k | 0 <= k < |f.data| ensures ApplyAll(file, Records(f.data, es))[k] == Overlay(dst, f)[k] {
      ApplyRecords(file, f, es, |f.data|, k);
    }
  }

  /** Onto an empty file the overlay is an exact copy. */
  lemma OverlayOnEmpty(f: Sparse)
    requires f.Valid()
    ensures Overlay([], f) == f.data
  {
  }

  /** Applying a list of streams in order. */
  ghost function OverlayAll(dst: seq<Byte>, fs: seq<Sparse>): seq<Byte>
    requires forall i :: 0 <= i < |fs| ==> |fs[i].data| == |fs[i].isData|
    decreases |fs|
  {
    if fs == [] then dst else Overlay(OverlayAll(dst, fs[..|fs| - 1]), fs[|fs| - 1])
  }

  /** Stream f settles what byte k is: it has data there, or it is too short and cuts the byte off. */
  predicate Settles(f: Sparse, k: nat)
    requires |f.data| == |f.isData|
  {
    k >= |f.data| || f.isData[k]
  }

  /** Byte k after any list of streams, of any sizes: that of the last stream that settles it (zero if that one had cut it
      off), or else the destination's (zero beyond its end). */
  lemma {:induction false} LastWriterWins(dst: seq<Byte>, fs: seq<Sparse>, k: nat, w: int)
    requires -1 <= w < |fs| && forall i :: 0 <= i < |fs| ==> |fs[i].data| == |fs[i].isData|
    requires (w >= 0 ==> Settles(fs[w], k)) && forall i :: w < i < |fs| ==> !Settles(fs[i], k)
    requires k < |OverlayAll(dst, fs)|
    ensures OverlayAll(dst, fs)[k] ==
      if w >= 0 then (if k < |fs[w].data| then fs[w].data[k] else 0) else if k < |dst| then dst[k] else 0
    decreases |fs|
  {
    if fs != [] && w < |fs| - 1 {
      var init, last := fs[..|fs| - 1], fs[|fs| - 1];
      assert !Settles(last, k);
      if k < |OverlayAll(dst, init)| {
        LastWriterWins(dst, init, k, w);
      } else if init != [] {
        assert Settles(init[|init| - 1], k);
      }
    }
  }
}
