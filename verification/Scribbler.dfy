/** The self-describing page: page index, iteration, keystream, each a little-endian word. */
module ScribblePage {
  import opened Bytes
  import opened Arith
  import opened Keystream

  const PAGE: nat := 4096
  const WORDS: nat := 512

  /** The k low-order bytes of n, least significant first. */
  function Le(n: nat, k: nat): (s: seq<Byte>)
    ensures |s| == k
  {
    if k == 0 then [] else [n % 256] + Le(n / 256, k - 1)
  }

  /** Byte i, counted from the least significant one, is digit i to the base 256. */
  lemma {:induction false} LeDigit(n: nat, k: nat, i: nat)
    requires i < k
    ensures Pow256(i) > 0 && Le(n, k)[i] == n / Pow256(i) % 256
  {
    if i > 0 {
      LeDigit(n / 256, k - 1, i - 1);
      DivDiv(n, 256, Pow256(i - 1));
    }
  }

  function LeVal(s: seq<Byte>): nat {
    if s == [] then 0 else s[0] + 256 * LeVal(s[1..])
  }

  lemma {:induction false} LeValLe(n: nat, k: nat)
    requires n < Pow256(k)
    ensures LeVal(Le(n, k)) == n
  {
    if k > 0 {
      LeValLe(n / 256, k - 1);
      assert Le(n, k)[1..] == Le(n / 256, k - 1);
    }
  }

  lemma LowByte(b: Byte, n: nat)
    ensures (b + 256 * n) % 256 == b && (b + 256 * n) / 256 == n
  {
  }

  lemma {:induction false} LeLeVal(s: seq<Byte>)
    ensures LeVal(s) < Pow256(|s|)
    ensures Le(LeVal(s), |s|) == s
  {
    if s != [] {
      var n := LeVal(s[1..]);
      LeLeVal(s[1..]);
      LowByte(s[0], n);
      assert s == [s[0]] + s[1..];
    }
  }

  function Put(w: Word): (s: seq<Byte>)
    ensures |s| == 8
  {
    Le(w, 8)
  }

  function Get(s: seq<Byte>): Word
    requires |s| == 8
  {
    LeLeVal(s);
    Powers();
    LeVal(s)
  }

  lemma GetPut(w: Word)
    ensures Get(Put(w)) == w
  {
    Powers();
    LeValLe(w, 8);
  }

  lemma PutGet(s: seq<Byte>)
    requires |s| == 8
    ensures Put(Get(s)) == s
  {
    LeLeVal(s);
  }

  /** Word k of page p at iteration iter. */
  function PageWord(p: Word, iter: Word, k: nat): Word {
    if k == 0 then p else if k == 1 then iter else Key(p, iter, k - 2)
  }

  /** The first n words of the page, as bytes. */
  function Prefix(p: Word, iter: Word, n: nat): (s: seq<Byte>)
    ensures |s| == 8 * n
  {
    if n == 0 then [] else Prefix(p, iter, n - 1) + Put(PageWord(p, iter, n - 1))
  }

  lemma PrefixNext(p: Word, iter: Word, n: nat, done: seq<Byte>, w: Word)
    requires done == Prefix(p, iter, n) && w == PageWord(p, iter, n)
    ensures Prefix(p, iter, n + 1) == done + Put(w)
  {
  }

  function PageBytes(p: Word, iter: Word): (s: seq<Byte>)
    ensures |s| == PAGE
  {
    Prefix(p, iter, WORDS)
  }

  /** The bytes of word k. */
  function Slot(pg: seq<Byte>, k: nat): (s: seq<Byte>)
    requires 8 * k + 8 <= |pg|
    ensures |s| == 8
  {
    pg[8 * k..8 * k + 8]
  }

  lemma SlotOfConcat(init: seq<Byte>, last: seq<Byte>, k: nat)
    requires |last| == 8 && 8 * k <= |init| && (8 * k == |init| || 8 * k + 8 <= |init|)
    ensures Slot(init + last, k) == if 8 * k == |init| then last else Slot(init, k)
  {
  }

  lemma {:induction false} PrefixSlot(p: Word, iter: Word, n: nat, k: nat)
    requires k < n
    ensures Slot(Prefix(p, iter, n), k) == Put(PageWord(p, iter, k))
  {
    var init := Prefix(p, iter, n - 1);
    PrefixNext(p, iter, n - 1, init, PageWord(p, iter, n - 1));
    SlotOfConcat(init, Put(PageWord(p, iter, n - 1)), k);
    if k < n - 1 {
      PrefixSlot(p, iter, n - 1, k);
    }
  }

  lemma PageSlot(p: Word, iter: Word, k: nat)
    requires k < WORDS
    ensures Slot(PageBytes(p, iter), k) == Put(PageWord(p, iter, k))
  {
    PrefixSlot(p, iter, WORDS, k);
  }

  /** Every byte of the page: word by word, least significant byte first. */
  lemma PageByte(p: Word, iter: Word, k: nat, i: nat)
    requires k < WORDS && i < 8
    ensures Pow256(i) > 0 && PageBytes(p, iter)[8 * k + i] == PageWord(p, iter, k) / Pow256(i) % 256
  {
    PageSlot(p, iter, k);
    assert PageBytes(p, iter)[8 * k + i] == Slot(PageBytes(p, iter), k)[i];
    LeDigit(PageWord(p, iter, k), 8, i);
  }

  lemma SplitLast(pg: seq<Byte>, n: nat)
    requires 8 * n + 8 <= |pg|
    ensures pg[..8 * (n + 1)] == pg[..8 * n] + Slot(pg, n)
  {
  }

  /** A page is determined by its words. */
  lemma {:induction false} SlotsDetermine(pg: seq<Byte>, p: Word, iter: Word, n: nat)
    requires 8 * n <= |pg| && forall k :: 0 <= k < n ==> Slot(pg, k) == Put(PageWord(p, iter, k))
    ensures pg[..8 * n] == Prefix(p, iter, n)
    decreases n
  {
    if n > 0 {
      SlotsDetermine(pg, p, iter, n - 1);
      SplitLast(pg, n - 1);
      PrefixNext(p, iter, n - 1, pg[..8 * (n - 1)], PageWord(p, iter, n - 1));
    }
  }

  // ---------------------------------------------------------------- which pages verify

  /** What verifyPage decides: the header names the page and the rest is the stream it seeds. */
  predicate Verifies(pg: seq<Byte>, p: Word)
    requires |pg| == PAGE
  {
    Get(Slot(pg, 0)) == p && pg == PageBytes(p, Get(Slot(pg, 1)))
  }

  /** Exactly the pages that writePage produces verify. */
  lemma VerifiesIffWritten(pg: seq<Byte>, p: Word)
    requires |pg| == PAGE
    ensures Verifies(pg, p) <==> exists iter: Word :: pg == PageBytes(p, iter)
  {
    forall iter: Word | pg == PageBytes(p, iter) ensures Verifies(pg, p) {
      WrittenVerifies(p, iter);
    }
  }

  lemma WrittenVerifies(p: Word, iter: Word)
    ensures Verifies(PageBytes(p, iter), p)
    ensures Get(Slot(PageBytes(p, iter), 1)) == iter
  {
    PageSlot(p, iter, 0);
    PageSlot(p, iter, 1);
    GetPut(p);
    GetPut(iter);
  }

  lemma PutInjective(v: Word, w: Word)
    requires Put(v) == Put(w)
    ensures v == w
  {
    GetPut(v);
    GetPut(w);
  }

  lemma PageWordInjective(p: Word, i: Word, j: Word, k: nat)
    requires 1 <= k
    ensures PageWord(p, i, k) == PageWord(p, j, k) ==> i == j
  {
    if k >= 2 && i != j {
      KeysDiffer(p, i, j, k - 2);
    }
  }

  /** Two iterations of one page differ in every word after the first. */
  lemma WordsDiffer(p: Word, i: Word, j: Word, k: nat)
    requires 1 <= k < WORDS
    ensures Slot(PageBytes(p, i), k) == Slot(PageBytes(p, j), k) ==> i == j
  {
    PageSlot(p, i, k);
    PageSlot(p, j, k);
    if Slot(PageBytes(p, i), k) == Slot(PageBytes(p, j), k) {
      PutInjective(PageWord(p, i, k), PageWord(p, j, k));
      PageWordInjective(p, i, j, k);
    }
  }

  /** A page that shares one whole word (after the first) with a written page verifies only if it is that page:
      whatever bytes the rest holds, a tear is detected. */
  lemma OneWordDecides(pg: seq<Byte>, p: Word, iter: Word, k: nat)
    requires |pg| == PAGE && 1 <= k < WORDS
    ensures Slot(pg, k) == Slot(PageBytes(p, iter), k) ==> (Verifies(pg, p) <==> pg == PageBytes(p, iter))
  {
    WrittenVerifies(p, iter);
    if Verifies(pg, p) {
      WordsDiffer(p, Get(Slot(pg, 1)), iter, k);
    }
  }

  /** Word k of the page comes from iteration from[k]. */
  ghost predicate WordMix(pg: seq<Byte>, p: Word, from: seq<Word>)
    requires |pg| == PAGE
  {
    |from| == WORDS && forall k :: 0 <= k < WORDS ==> Slot(pg, k) == Slot(PageBytes(p, from[k]), k)
  }

  /** Any word-granular mix of any number of iterations verifies exactly when every word after the first comes
      from one iteration, and then it is that iteration's page. */
  lemma MixDetected(pg: seq<Byte>, p: Word, from: seq<Word>)
    requires |pg| == PAGE && WordMix(pg, p, from)
    ensures Verifies(pg, p) <==> forall k :: 1 <= k < WORDS ==> from[k] == from[1]
    ensures Verifies(pg, p) ==> pg == PageBytes(p, from[1])
  {
    OneWordDecides(pg, p, from[1], 1);
    if Verifies(pg, p) {
      forall k | 1 <= k < WORDS ensures from[k] == from[1] {
        WordsDiffer(p, from[k], from[1], k);
      }
    }
    if forall k :: 1 <= k < WORDS ==> from[k] == from[1] {
      forall k | 0 <= k < WORDS ensures Slot(pg, k) == Put(PageWord(p, from[1], k)) {
        PageSlot(p, from[k], k);
      }
      SlotsDetermine(pg, p, from[1], WORDS);
      assert pg[..8 * WORDS] == pg;
    }
  }

  /** The first c bytes from the new iteration, the rest from the old. */
  function Cut(p: Word, newer: Word, older: Word, c: nat): (pg: seq<Byte>)
    requires c <= PAGE
    ensures |pg| == PAGE
  {
    PageBytes(p, newer)[..c] + PageBytes(p, older)[c..]
  }

  /** A cut at any byte, inside words or between them, verifies only if the result is one of the two pages. */
  lemma CutDetected(p: Word, newer: Word, older: Word, c: nat)
    requires c <= PAGE
    ensures Verifies(Cut(p, newer, older, c), p) <==>
      Cut(p, newer, older, c) == PageBytes(p, newer) || Cut(p, newer, older, c) == PageBytes(p, older)
  {
    var pg := Cut(p, newer, older, c);
    WrittenVerifies(p, newer);
    WrittenVerifies(p, older);
    if c <= 8 * 511 {
      assert Slot(pg, 511) == Slot(PageBytes(p, older), 511);
      OneWordDecides(pg, p, older, 511);
    } else {
      assert Slot(pg, 1) == Slot(PageBytes(p, newer), 1);
      OneWordDecides(pg, p, newer, 1);
    }
  }
}

/** The scribbler: one goroutine that writes and verifies pages of its buffer. */
module Scribbling {
  import opened Bytes
  import opened Arith
  import opened Keystream
  import opened ScribblePage

  /** Replaces the word at byte offset off. */
  method PutWord(buf: array<Byte>, off: nat, w: Word)
    requires off + 8 <= buf.Length
    modifies buf
    ensures buf[off..off + 8] == Put(w)
    ensures forall k :: 0 <= k < buf.Length && !(off <= k < off + 8) ==> buf[k] == old(buf[k])
  {
    var bytes := Put(w);
    for i := 0 to 8
      invariant forall k :: 0 <= k < i ==> buf[off + k] == bytes[k]
      invariant forall k :: 0 <= k < buf.Length && !(off <= k < off + 8) ==> buf[k] == old(buf[k])
    {
      buf[off + i] := bytes[i];
    }
  }

  /** The bytes done are in place at base. */
  ghost predicate Begun(buf: array<Byte>, base: nat, done: seq<Byte>)
    reads buf
  {
    base + |done| <= buf.Length && buf[base..base + |done|] == done
  }

  /** PutWord right after a part that is already in place. */
  method AppendWord(buf: array<Byte>, base: nat, off: nat, w: Word, ghost done: seq<Byte>)
    requires base + PAGE <= buf.Length && off == |done| && off + 8 <= PAGE && Begun(buf, base, done)
    modifies buf
    ensures Begun(buf, base, done + Put(w))
    ensures forall k :: 0 <= k < buf.Length && !(base <= k < base + PAGE) ==> buf[k] == old(buf[k])
  {
    PutWord(buf, base + off, w);
    assert buf[base..base + off] == done;
    assert buf[base..base + off + 8] == buf[base..base + off] + buf[base + off..base + off + 8];
  }

  /** The keystream object is about to yield word n of the page. */
  ghost predicate AtWord(ks: Generator, p: Word, iter: Word, n: nat)
    reads ks
  {
    n >= 2 && ks.state == State(Seed(p, iter), n - 2)
  }

  method NextKey(ks: Generator, ghost p: Word, ghost iter: Word, ghost n: nat) returns (key: Word)
    requires AtWord(ks, p, iter, n)
    modifies ks
    ensures AtWord(ks, p, iter, n + 1) && key == PageWord(p, iter, n)
  {
    key := ks.Next(Seed(p, iter), n - 2);
  }

  method StartKeys(p: Word, iter: Word) returns (ks: Generator)
    ensures fresh(ks) && AtWord(ks, p, iter, 2)
  {
    ks := new Generator(Seed(p, iter));
  }

  /** writePage: the page's bytes become PageBytes; no other byte changes. */
  method WritePage(buf: array<Byte>, p: Word, iter: Word)
    requires (p + 1) * PAGE <= buf.Length
    modifies buf
    ensures buf[p * PAGE..(p + 1) * PAGE] == PageBytes(p, iter)
    ensures forall k :: 0 <= k < buf.Length && !(p * PAGE <= k < (p + 1) * PAGE) ==> buf[k] == old(buf[k])
  {
    var base := p * PAGE;
    PutHeader(buf, base, p, iter);
    var ks := StartKeys(p, iter);
    ghost var n := 2;
    var off := 16;
    while off < PAGE
      invariant off == 8 * n && off <= PAGE
      invariant fresh(ks) && AtWord(ks, p, iter, n)
      invariant Begun(buf, base, Prefix(p, iter, n))
      invariant forall k :: 0 <= k < buf.Length && !(base <= k < base + PAGE) ==> buf[k] == old(buf[k])
    {
      PutKey(buf, base, off, ks, p, iter, n);
      off := off + 8;
      n := n + 1;
    }
  }

  /** Puts the next keystream word. */
  method PutKey(buf: array<Byte>, base: nat, off: nat, ks: Generator, ghost p: Word, ghost iter: Word, ghost n: nat)
    requires base + PAGE <= buf.Length && off == 8 * n && off + 8 <= PAGE
    requires AtWord(ks, p, iter, n) && Begun(buf, base, Prefix(p, iter, n))
    modifies buf, ks
    ensures AtWord(ks, p, iter, n + 1) && Begun(buf, base, Prefix(p, iter, n + 1))
    ensures forall k :: 0 <= k < buf.Length && !(base <= k < base + PAGE) ==> buf[k] == old(buf[k])
  {
    ghost var done := Prefix(p, iter, n);
    var key := NextKey(ks, p, iter, n);
    PrefixNext(p, iter, n, done, key);
    AppendWord(buf, base, off, key, done);
  }

  method PutHeader(buf: array<Byte>, base: nat, p: Word, iter: Word)
    requires base + PAGE <= buf.Length
    modifies buf
    ensures Begun(buf, base, Prefix(p, iter, 2))
    ensures forall k :: 0 <= k < buf.Length && !(base <= k < base + PAGE) ==> buf[k] == old(buf[k])
  {
    PrefixNext(p, iter, 0, [], p);
    PrefixNext(p, iter, 1, [] + Put(p), iter);
    AppendWord(buf, base, 0, p, []);
    AppendWord(buf, base, 8, iter, [] + Put(p));
  }

  /** The first n words of the page are those its header announces. */
  ghost predicate MatchesSoFar(pg: seq<Byte>, p: Word, iter: Word, n: nat) {
    8 * n <= |pg| && forall k :: 0 <= k < n ==> Slot(pg, k) == Put(PageWord(p, iter, k))
  }

  lemma HeaderMatches(pg: seq<Byte>, p: Word)
    requires |pg| == PAGE
    ensures Get(Slot(pg, 0)) == p ==> MatchesSoFar(pg, p, Get(Slot(pg, 1)), 2)
  {
    PutGet(Slot(pg, 0));
    PutGet(Slot(pg, 1));
  }

  lemma AllMatch(pg: seq<Byte>, p: Word)
    requires |pg| == PAGE && MatchesSoFar(pg, p, Get(Slot(pg, 1)), WORDS)
    ensures Verifies(pg, p)
  {
    SlotsDetermine(pg, p, Get(Slot(pg, 1)), WORDS);
    assert pg[..8 * WORDS] == pg;
    GetPut(p);
  }

  /** verifyPage's decision: true exactly for the pages that writePage produces for p. */
  method CheckPage(buf: array<Byte>, p: Word) returns (ok: bool)
    requires (p + 1) * PAGE <= buf.Length
    ensures ok == Verifies(buf[p * PAGE..(p + 1) * PAGE], p)
  {
    var pg := buf[p * PAGE..(p + 1) * PAGE];
    var idx, iter := Get(Slot(pg, 0)), Get(Slot(pg, 1));
    ok := idx == p;
    HeaderMatches(pg, p);
    var ks := StartKeys(idx, iter);
    var n := 2;
    while ok && n < WORDS
      invariant 2 <= n <= WORDS && fresh(ks) && AtWord(ks, idx, iter, n)
      invariant ok ==> idx == p && MatchesSoFar(pg, p, iter, n)
      invariant !ok ==> !Verifies(pg, p)
    {
      var key := NextKey(ks, idx, iter, n);
      ok := Get(Slot(pg, n)) == key;
      WordMatches(pg, p, iter, n);
      n := n + 1;
    }
    if ok {
      AllMatch(pg, p);
    }
  }

  /** Comparing one decoded word. */
  lemma WordMatches(pg: seq<Byte>, p: Word, iter: Word, n: nat)
    requires |pg| == PAGE && n < WORDS && iter == Get(Slot(pg, 1))
    ensures Get(Slot(pg, n)) == PageWord(p, iter, n) ==> Slot(pg, n) == Put(PageWord(p, iter, n))
    ensures Get(Slot(pg, n)) != PageWord(p, iter, n) ==> !Verifies(pg, p)
  {
    PutGet(Slot(pg, n));
    if pg == PageBytes(p, iter) {
      PageSlot(p, iter, n);
      GetPut(PageWord(p, iter, n));
    }
  }

  /** What one turn of the endless loop does: the pages it writes and the pages it samples, in order. */
  datatype Turn = Turn(writes: seq<nat>, samples: seq<nat>)

  ghost predicate InRange(picks: seq<nat>, pages: nat) {
    forall i :: 0 <= i < |picks| ==> picks[i] < pages
  }

  function Samples(turns: seq<Turn>): nat {
    if turns == [] then 0 else Samples(turns[..|turns| - 1]) + |turns[|turns| - 1].samples|
  }

  /** Page q of the buffer. */
  ghost function PageAt(buf: seq<Byte>, q: nat): seq<Byte>
    requires (q + 1) * PAGE <= |buf|
  {
    buf[q * PAGE..(q + 1) * PAGE]
  }

  /** Every page holds what writePage wrote at the iteration recorded for it. */
  ghost predicate WellFormed(buf: seq<Byte>, iters: seq<Word>) {
    && |iters| * PAGE <= |buf| && |iters| < U64
    && forall q :: 0 <= q < |iters| ==> PageAt(buf, q) == PageBytes(q, iters[q])
  }

  /** A write to page p leaves all other pages as they were. */
  lemma WriteKeepsWellFormed(before: seq<Byte>, now: seq<Byte>, iters: seq<Word>, p: nat, iter: Word)
    requires WellFormed(before, iters) && p < |iters| && |now| == |before|
    requires PageAt(now, p) == PageBytes(p, iter)
    requires forall k :: 0 <= k < |now| && !(p * PAGE <= k < (p + 1) * PAGE) ==> now[k] == before[k]
    ensures WellFormed(now, iters[p := iter])
  {
    forall q | 0 <= q < |iters| ensures PageAt(now, q) == PageBytes(q, iters[p := iter][q]) {
      if q != p {
        assert PageAt(now, q) == PageAt(before, q);
      }
    }
  }

  class Scribbler {
    const buf: array<Byte>
    var iterations: nat
    var pagesVerified: nat
    var integrityErrors: nat
    ghost var iters: seq<Word>   // the iteration that last wrote each page

    ghost predicate Valid()
      reads this, buf
    {
      |iters| == buf.Length / PAGE && WellFormed(buf[..], iters)
    }

    constructor (size: nat)
      requires size < 0x8000_0000_0000_0000
      ensures Valid() && fresh(buf) && buf.Length == size
      ensures iterations == 0 && pagesVerified == 0 && integrityErrors == 0
    {
      var b := new Byte[size];
      ghost var its: seq<Word> := [];
      var p := 0;
      while p < size / PAGE
        invariant p == |its| <= size / PAGE && fresh(b) && b.Length == size
        invariant WellFormed(b[..], its)
      {
        ghost var before := b[..];
        WritePage(b, p, 0);
        ExtendWellFormed(before, b[..], its, 0);
        its := its + [0];
        p := p + 1;
      }
      buf := b;
      iters := its;
      iterations, pagesVerified, integrityErrors := 0, 0, 0;
    }

    /** writePage on a page of this buffer. */
    method Write(p: nat, iter: Word)
      requires Valid() && p < buf.Length / PAGE
      modifies buf, this`iters
      ensures Valid() && iters == old(iters)[p := iter]
    {
      ghost var before := buf[..];
      WritePage(buf, p, iter);
      WriteKeepsWellFormed(before, buf[..], iters, p, iter);
      iters := iters[p := iter];
    }

    /** verifyPage: counts the page and, if it does not verify, an error.  Valid() is not required. */
    method Verify(p: nat)
      requires p < U64 && (p + 1) * PAGE <= buf.Length
      modifies this`pagesVerified, this`integrityErrors
      ensures pagesVerified == old(pagesVerified) + 1
      ensures integrityErrors == old(integrityErrors) + if Verifies(PageAt(buf[..], p), p) then 0 else 1
    {
      var ok := CheckPage(buf, p);
      assert buf[p * PAGE..(p + 1) * PAGE] == PageAt(buf[..], p);
      pagesVerified := pagesVerified + 1;
      if !ok {
        integrityErrors := integrityErrors + 1;
      }
    }

    /** In a well-formed buffer a sample never reports an error. */
    method Sample(p: nat)
      requires Valid() && p < buf.Length / PAGE
      modifies this`pagesVerified, this`integrityErrors
      ensures pagesVerified == old(pagesVerified) + 1 && integrityErrors == old(integrityErrors)
    {
      WrittenVerifies(p, iters[p]);
      Verify(p);
    }

    /** One turn of the loop. */
    method TakeTurn(turn: Turn, iter: nat)
      requires Valid() && InRange(turn.writes, buf.Length / PAGE) && InRange(turn.samples, buf.Length / PAGE)
      modifies this, buf
      ensures Valid() && iterations == iter
      ensures integrityErrors == old(integrityErrors)
      ensures pagesVerified == old(pagesVerified) + |turn.samples|
      ensures forall q :: 0 <= q < |iters| ==> iters[q] == if q in turn.writes then iter % U64 else old(iters)[q]
    {
      iterations := iter;
      var i := 0;
      while i < |turn.writes|
        invariant 0 <= i <= |turn.writes| && Valid() && iterations == iter
        invariant integrityErrors == old(integrityErrors) && pagesVerified == old(pagesVerified)
        invariant forall q :: 0 <= q < |iters| ==> iters[q] == if q in turn.writes[..i] then iter % U64 else old(iters)[q]
      {
        assert turn.writes[..i + 1] == turn.writes[..i] + [turn.writes[i]];
        Write(turn.writes[i], iter % U64);
        i := i + 1;
      }
      assert turn.writes[..i] == turn.writes;
      i := 0;
      while i < |turn.samples|
        invariant 0 <= i <= |turn.samples| && Valid() && iterations == iter
        invariant integrityErrors == old(integrityErrors) && pagesVerified == old(pagesVerified) + i
        invariant forall q :: 0 <= q < |iters| ==> iters[q] == if q in turn.writes then iter % U64 else old(iters)[q]
      {
        Sample(turn.samples[i]);
        i := i + 1;
      }
    }

    /** Any number of turns of Run, whatever pages the generator picks: no integrity error, every page well formed. */
    method Run(turns: seq<Turn>)
      requires Valid()
      requires forall t :: 0 <= t < |turns| ==>
        InRange(turns[t].writes, buf.Length / PAGE) && InRange(turns[t].samples, buf.Length / PAGE)
      modifies this, buf
      ensures Valid() && integrityErrors == old(integrityErrors)
      ensures pagesVerified == old(pagesVerified) + Samples(turns)
      ensures turns != [] ==> iterations == |turns|
    {
      var iter := 0;
      while iter < |turns|
        invariant 0 <= iter <= |turns| && Valid() && integrityErrors == old(integrityErrors)
        invariant pagesVerified == old(pagesVerified) + Samples(turns[..iter])
        invariant iter > 0 ==> iterations == iter
      {
        assert turns[..iter + 1][..iter] == turns[..iter];
        TakeTurn(turns[iter], iter + 1);
        iter := iter + 1;
      }
      assert turns[..iter] == turns;
    }
  }

  /** Pages are initialised in order. */
  lemma ExtendWellFormed(before: seq<Byte>, now: seq<Byte>, iters: seq<Word>, iter: Word)
    requires WellFormed(before, iters) && |now| == |before| && |iters| + 1 < U64 && (|iters| + 1) * PAGE <= |now|
    requires PageAt(now, |iters|) == PageBytes(|iters|, iter)
    requires forall k :: 0 <= k < |now| && !(|iters| * PAGE <= k < (|iters| + 1) * PAGE) ==> now[k] == before[k]
    ensures WellFormed(now, iters + [iter])
  {
    forall q | 0 <= q < |iters| + 1 ensures PageAt(now, q) == PageBytes(q, (iters + [iter])[q]) {
      if q < |iters| {
        assert PageAt(now, q) == PageAt(before, q);
      }
    }
  }
}
