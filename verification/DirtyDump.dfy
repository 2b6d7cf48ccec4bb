/** The dirty-page dump over bitmaps: dump_dirty_budgeted, dump_dirty_pages, dump_dirty, dump_dirty_live.

    A u64 bitmap word is its vector of 64 bits.  The writer records which pages it was given, in order, and may
    fail at any page.
 */
module DirtyDump {
  import opened Options
  import opened GuestMemory
  import opened Arith

  const BITS: nat := 64

  type Word = w: seq<bool> | |w| == BITS witness seq(BITS, _ => false)

  const ZERO: Word := seq(BITS, _ => false)

  /** One memory slot; pages counts its pages. */
  datatype SlotInfo = SlotInfo(id: nat, pages: nat, plugged: bool)

  /** Per slot, the words KVM_GET_DIRTY_LOG returned. */
  type DirtyBitmap = map<nat, seq<Word>>

  predicate Bit(bm: seq<Word>, k: nat) {
    k / BITS < |bm| && bm[k / BITS][k % BITS]
  }

  // ---------------------------------------------------------------- the dirty list

  /** Page k of a slot is dirty in the KVM bitmap or in the VMM bitmap. */
  predicate IsDirty(kvm: seq<Word>, vmm: seq<bool>, k: nat) {
    Bit(kvm, k) || (k < |vmm| && vmm[k])
  }

  /** Dirty pages below n, ascending. */
  function DirtyBelow(id: nat, kvm: seq<Word>, vmm: seq<bool>, n: nat): seq<Page> {
    if n == 0 then []
    else DirtyBelow(id, kvm, vmm, n - 1) + (if IsDirty(kvm, vmm, n - 1) then [Page(id, n - 1)] else [])
  }

  lemma {:induction false} DirtyBelowMembers(id: nat, kvm: seq<Word>, vmm: seq<bool>, n: nat, p: Page)
    ensures p in DirtyBelow(id, kvm, vmm, n) <==> p.slot == id && p.index < n && IsDirty(kvm, vmm, p.index)
  {
    if n > 0 {
      DirtyBelowMembers(id, kvm, vmm, n - 1, p);
    }
  }

  /** A greedy cut: q pages of total fit into budget, and if pages remain then not even one more fits. */
  ghost predicate GreedyCut(total: nat, q: nat, pageSize: nat, budget: Option<nat>, remaining: Option<nat>) {
    && q <= total
    && remaining.Some? == budget.Some?
    && (budget.None? ==> q == total)
    && (budget.Some? ==> remaining.value == budget.value - q * pageSize && (q < total ==> remaining.value < pageSize))
  }

  class PageWriter {
    var dumped: seq<Page>
    var room: nat   // pages accepted before the next failure

    constructor (room: nat)
      ensures dumped == [] && this.room == room
    {
      dumped := [];
      this.room := room;
    }

    method Write(p: Page) returns (ok: bool)
      modifies this
      ensures ok == (old(room) > 0)
      ensures dumped == old(dumped) + (if ok then [p] else [])
      ensures room == old(room) - (if ok then 1 else 0)
    {
      ok := room > 0;
      if ok {
        dumped := dumped + [p];
        room := room - 1;
      }
    }
  }

  lemma CutStep(total: nat, q: nat, pageSize: nat, budget: Option<nat>, remaining: Option<nat>)
    requires GreedyCut(total, q, pageSize, budget, remaining)
    ensures (remaining.None? || remaining.value >= pageSize) && pageSize > 0 ==> q == total
    ensures remaining.None? ==> GreedyCut(total + 1, q + 1, pageSize, budget, remaining)
    ensures remaining.Some? && remaining.value >= pageSize > 0 ==>
      GreedyCut(total + 1, q + 1, pageSize, budget, Some(remaining.value - pageSize))
    ensures remaining.Some? && remaining.value < pageSize ==> GreedyCut(total + 1, q, pageSize, budget, remaining)
  {
    assert (q + 1) * pageSize == q * pageSize + pageSize;
  }

  /** How many of total dirty pages a budget of bytes lets through; None is no budget. */
  function Need(total: nat, pageSize: nat, budget: Option<nat>): nat
    requires pageSize > 0
  {
    if budget.None? then total else Min(total, BudgetPages(budget.value, pageSize))
  }

  /** The whole pages that fit. */
  function BudgetPages(bytes: nat, pageSize: nat): nat
    requires pageSize > 0
  {
    if bytes < pageSize then 0 else 1 + BudgetPages(bytes - pageSize, pageSize)
  }

  lemma {:induction false} BudgetBounds(bytes: nat, pageSize: nat)
    requires pageSize > 0
    ensures BudgetPages(bytes, pageSize) * pageSize <= bytes < (BudgetPages(bytes, pageSize) + 1) * pageSize
  {
    if bytes >= pageSize {
      BudgetBounds(bytes - pageSize, pageSize);
      var n := BudgetPages(bytes - pageSize, pageSize);
      assert (n + 1) * pageSize == n * pageSize + pageSize && (n + 2) * pageSize == n * pageSize + 2 * pageSize;
    }
  }

  /** A greedy cut lets through exactly that many. */
  lemma CutIsNeed(total: nat, q: nat, pageSize: nat, budget: Option<nat>, remaining: Option<nat>)
    requires pageSize > 0 && GreedyCut(total, q, pageSize, budget, remaining)
    ensures q == Need(total, pageSize, budget)
  {
    if budget.Some? {
      var n := BudgetPages(budget.value, pageSize);
      BudgetBounds(budget.value, pageSize);
      assert (q + 1) * pageSize == q * pageSize + pageSize;
      if q > n {
        MulMono(n + 1, q, pageSize);
      } else if q < n && q < total {
        MulMono(q + 1, n, pageSize);
      }
    }
  }

  lemma NeedIsCut(total: nat, pageSize: nat, budget: Option<nat>) returns (remaining: Option<nat>)
    requires pageSize > 0
    ensures GreedyCut(total, Need(total, pageSize, budget), pageSize, budget, remaining)
  {
    if budget.None? {
      remaining := None;
    } else {
      var q, n := Need(total, pageSize, budget), BudgetPages(budget.value, pageSize);
      BudgetBounds(budget.value, pageSize);
      MulMono(q, n, pageSize);
      assert (n + 1) * pageSize == n * pageSize + pageSize;
      remaining := Some(budget.value - q * pageSize);
    }
  }

  lemma NeedWithinBudget(total: nat, pageSize: nat, max: nat)
    requires pageSize > 0
    ensures Need(total, pageSize, Some(max)) * pageSize <= max
  {
    BudgetBounds(max, pageSize);
    MulMono(Need(total, pageSize, Some(max)), BudgetPages(max, pageSize), pageSize);
  }

  lemma NeedGrows(t1: nat, t2: nat, pageSize: nat, budget: Option<nat>)
    requires pageSize > 0 && t1 <= t2
    ensures Need(t1, pageSize, budget) <= Need(t2, pageSize, budget)
  {
  }

  lemma {:induction false} DirtyBelowGrows(id: nat, kvm: seq<Word>, vmm: seq<bool>, m: nat, n: nat)
    requires m <= n
    ensures |DirtyBelow(id, kvm, vmm, m)| <= |DirtyBelow(id, kvm, vmm, n)|
    decreases n
  {
    if m < n {
      DirtyBelowGrows(id, kvm, vmm, m, n - 1);
    }
  }

  /** leftover has exactly the bits of the pages in rest, all of which belong to slot id. */
  ghost predicate HoldsExactly(leftover: seq<Word>, id: nat, rest: seq<Page>) {
    forall k: nat {:trigger Bit(leftover, k)} :: Bit(leftover, k) <==> Page(id, k) in rest
  }

  /** What a slot's dump has done after looking at pages below n: of the dirty pages so far, the first q were
      appended to the writer's pages and the others are recorded in leftover. */
  datatype SlotDump = SlotDump(id: nat, kvm: seq<Word>, vmm: seq<bool>, pageSize: nat, budget: Option<nat>, start: seq<Page>)
  {
    ghost function Dirty(n: nat): seq<Page> {
      DirtyBelow(id, kvm, vmm, n)
    }

    ghost predicate Done(n: nat, q: nat, remaining: Option<nat>, dumped: seq<Page>, leftover: seq<Word>) {
      && |leftover| == |kvm|
      && GreedyCut(|Dirty(n)|, q, pageSize, budget, remaining)
      && dumped == start + Dirty(n)[..q]
      && HoldsExactly(leftover, id, Dirty(n)[q..])
    }

    lemma NeedsMore(m: nat, n: nat)
      requires m <= n && pageSize > 0
      ensures Need(|Dirty(m)|, pageSize, budget) <= Need(|Dirty(n)|, pageSize, budget)
    {
      DirtyBelowGrows(id, kvm, vmm, m, n);
      NeedGrows(|Dirty(m)|, |Dirty(n)|, pageSize, budget);
    }

    lemma CleanPage(n: nat, q: nat, remaining: Option<nat>, dumped: seq<Page>, leftover: seq<Word>)
      requires Done(n, q, remaining, dumped, leftover) && !IsDirty(kvm, vmm, n)
      ensures Done(n + 1, q, remaining, dumped, leftover)
    {
      assert Dirty(n + 1) == Dirty(n);
    }

    lemma DumpedPage(n: nat, q: nat, remaining: Option<nat>, dumped: seq<Page>, leftover: seq<Word>)
      requires Done(n, q, remaining, dumped, leftover) && IsDirty(kvm, vmm, n) && pageSize > 0
      requires remaining.None? || remaining.value >= pageSize
      ensures Done(n + 1, q + 1, if remaining.None? then None else Some(remaining.value - pageSize),
                   dumped + [Page(id, n)], leftover)
    {
      CutStep(|Dirty(n)|, q, pageSize, budget, remaining);
      assert q == |Dirty(n)|;
      assert Dirty(n + 1) == Dirty(n) + [Page(id, n)];
      assert Dirty(n)[..q] == Dirty(n) && Dirty(n)[q..] == [];
      assert Dirty(n + 1)[..q + 1] == Dirty(n) + [Page(id, n)];
      assert Dirty(n + 1)[q + 1..] == [];
      assert start + (Dirty(n) + [Page(id, n)]) == start + Dirty(n) + [Page(id, n)];
    }

    lemma SkippedPage(n: nat, q: nat, remaining: Option<nat>, dumped: seq<Page>, leftover: seq<Word>, i: nat, j: nat)
      requires Done(n, q, remaining, dumped, leftover) && IsDirty(kvm, vmm, n)
      requires remaining.Some? && remaining.value < pageSize && i < |kvm| && j < BITS && n == i * BITS + j
      ensures Done(n + 1, q, remaining, dumped, leftover[i := leftover[i][j := true]])
    {
      CutStep(|Dirty(n)|, q, pageSize, budget, remaining);
      assert Dirty(n + 1) == Dirty(n) + [Page(id, n)];
      assert Dirty(n + 1)[..q] == Dirty(n)[..q];
      assert Dirty(n + 1)[q..] == Dirty(n)[q..] + [Page(id, n)];
      RecordBit(leftover, id, Dirty(n)[q..], i, j);
    }
  }

  /** dump_dirty_budgeted: dumps the dirty pages of one slot until the budget is spent and records the rest.
      A budget of None is dump_dirty. */
  method DumpDirtyBudgeted(slot: SlotInfo, kvm: seq<Word>, vmm: seq<bool>, pageSize: nat,
                           budget: Option<nat>, leftover: array<Word>, writer: PageWriter)
    returns (ok: bool, remaining: Option<nat>)
    requires pageSize > 0 && slot.pages <= BITS * |kvm|
    requires leftover.Length == |kvm| && forall i :: 0 <= i < |kvm| ==> leftover[i] == ZERO
    modifies leftover, writer
    ensures ok ==>
      var dirty := DirtyBelow(slot.id, kvm, vmm, slot.pages);
      var q := |writer.dumped| - |old(writer.dumped)|;
      && 0 <= q <= |dirty|
      && GreedyCut(|dirty|, q, pageSize, budget, remaining)
      && writer.dumped == old(writer.dumped) + dirty[..q]
      && HoldsExactly(leftover[..], slot.id, dirty[q..])
      && writer.room == old(writer.room) - q
    ensures ok <==> old(writer.room) >= Need(|DirtyBelow(slot.id, kvm, vmm, slot.pages)|, pageSize, budget)
  {
    remaining := budget;
    var i := 0;
    ghost var q: nat := 0;
    ghost var n: nat := 0;   // pages looked at
    var dump := SlotDump(slot.id, kvm, vmm, pageSize, budget, writer.dumped);
    while i < |kvm|
      invariant 0 <= i <= |kvm| && n == Min(i * BITS, slot.pages)
      invariant dump.Done(n, q, remaining, writer.dumped, leftover[..]) && writer.room + q == old(writer.room)
    {
      var j := 0;
      while j < BITS && i * BITS + j < slot.pages
        invariant 0 <= j <= BITS && n == Min(i * BITS + j, slot.pages)
        invariant dump.Done(n, q, remaining, writer.dumped, leftover[..]) && writer.room + q == old(writer.room)
      {
        ok, remaining, q := DumpBit(dump, i, j, remaining, leftover, writer, q);
        if !ok {
          dump.NeedsMore(n + 1, slot.pages);
          return;
        }
        n := n + 1;
        j := j + 1;
      }
      i := i + 1;
    }
    assert n == slot.pages;
    CutIsNeed(|dump.Dirty(n)|, q, pageSize, budget, remaining);
    ok := true;
  }

  /** The loop body of dump_dirty_budgeted: page n = 64 i + j is clean, over budget, or dumped. */
  method DumpBit(dump: SlotDump, i: nat, j: nat, remaining: Option<nat>, leftover: array<Word>, writer: PageWriter, ghost q: nat)
    returns (ok: bool, remaining': Option<nat>, ghost q': nat)
    requires dump.pageSize > 0 && i < |dump.kvm| && j < BITS
    requires dump.Done(i * BITS + j, q, remaining, writer.dumped, leftover[..])
    modifies leftover, writer
    ensures ok ==> dump.Done(i * BITS + j + 1, q', remaining', writer.dumped, leftover[..])
    ensures ok ==> writer.room + q' == old(writer.room) + q
    ensures !ok ==> q' == q && old(writer.room) == 0 && Need(|dump.Dirty(i * BITS + j + 1)|, dump.pageSize, dump.budget) > q
  {
    var n := i * BITS + j;
    ghost var dumped, held := writer.dumped, leftover[..];
    assert IsDirty(dump.kvm, dump.vmm, n) <==> dump.kvm[i][j] || (n < |dump.vmm| && dump.vmm[n]) by {
      assert n / BITS == i && n % BITS == j;
    }
    ok, remaining', q' := true, remaining, q;
    if !(dump.kvm[i][j] || (n < |dump.vmm| && dump.vmm[n])) {
      dump.CleanPage(n, q, remaining, dumped, held);
    } else if remaining.Some? && remaining.value < dump.pageSize {
      dump.SkippedPage(n, q, remaining, dumped, held, i, j);
      leftover[i] := leftover[i][j := true];
      assert leftover[..] == held[i := held[i][j := true]];
    } else {
      dump.DumpedPage(n, q, remaining, dumped, held);
      if remaining.Some? {
        remaining' := Some(remaining.value - dump.pageSize);
      }
      CutIsNeed(|dump.Dirty(n + 1)|, q + 1, dump.pageSize, dump.budget, remaining');
      ok := writer.Write(Page(dump.id, n));
      q' := if ok then q + 1 else q;
    }
  }

  /** Setting one bit adds one page. */
  lemma RecordBit(held: seq<Word>, id: nat, rest: seq<Page>, i: nat, j: nat)
    requires i < |held| && j < BITS && HoldsExactly(held, id, rest)
    ensures HoldsExactly(held[i := held[i][j := true]], id, rest + [Page(id, i * BITS + j)])
  {
    var k0 := i * BITS + j;
    assert k0 / BITS == i && k0 % BITS == j;
    var after := held[i := held[i][j := true]];
    forall k: nat ensures Bit(after, k) <==> Page(id, k) in rest + [Page(id, k0)] {
      assert Bit(held, k) <==> Page(id, k) in rest;
      if k / BITS == i && k % BITS == j {
        assert k == k0;
      }
    }
  }

  // ---------------------------------------------------------------- all slots

  type VmmBitmaps = map<nat, seq<bool>>

  function DirtyIn(slot: SlotInfo, kvm: DirtyBitmap, vmm: VmmBitmaps): seq<Page> {
    if slot.plugged && slot.id in kvm && slot.id in vmm
    then DirtyBelow(slot.id, kvm[slot.id], vmm[slot.id], slot.pages)
    else []
  }

  /** Dirty pages of all slots, in dump order. */
  function DirtyList(slots: seq<SlotInfo>, kvm: DirtyBitmap, vmm: VmmBitmaps): seq<Page> {
    if slots == [] then []
    else DirtyList(slots[..|slots| - 1], kvm, vmm) + DirtyIn(slots[|slots| - 1], kvm, vmm)
  }

  lemma {:induction false} DirtyListMembers(slots: seq<SlotInfo>, kvm: DirtyBitmap, vmm: VmmBitmaps, p: Page)
    ensures p in DirtyList(slots, kvm, vmm) <==>
      exists s :: s in slots && p in DirtyIn(s, kvm, vmm)
  {
    if slots != [] {
      var init, last := slots[..|slots| - 1], slots[|slots| - 1];
      assert slots == init + [last];
      DirtyListMembers(init, kvm, vmm, p);
    }
  }

  lemma DirtyInSlot(slot: SlotInfo, kvm: DirtyBitmap, vmm: VmmBitmaps, p: Page)
    ensures p in DirtyIn(slot, kvm, vmm) <==>
      && slot.plugged && slot.id in kvm && slot.id in vmm
      && p.slot == slot.id && p.index < slot.pages && IsDirty(kvm[slot.id], vmm[slot.id], p.index)
  {
    if slot.plugged && slot.id in kvm && slot.id in vmm {
      DirtyBelowMembers(slot.id, kvm[slot.id], vmm[slot.id], slot.pages, p);
    }
  }

  /** Two consecutive greedy cuts with a shared budget are one greedy cut; once the first leaves pages over,
      the second dumps none. */
  lemma CutConcat(t1: nat, q1: nat, t2: nat, q2: nat, pageSize: nat, b: Option<nat>, r1: Option<nat>, r2: Option<nat>)
    requires pageSize > 0 && GreedyCut(t1, q1, pageSize, b, r1) && GreedyCut(t2, q2, pageSize, r1, r2)
    ensures GreedyCut(t1 + t2, q1 + q2, pageSize, b, r2)
    ensures q1 == t1 || q2 == 0
  {
    assert (q1 + q2) * pageSize == q1 * pageSize + q2 * pageSize;
    if q2 > 0 {
      assert (q2 - 1) * pageSize >= 0;
      assert q2 * pageSize == (q2 - 1) * pageSize + pageSize;
    }
  }

  /** leftover has exactly the bits of the pages in rest. */
  ghost predicate MapHoldsExactly(leftover: DirtyBitmap, rest: seq<Page>) {
    forall id: nat, k: nat {:trigger Page(id, k)} ::
      (id in leftover && Bit(leftover[id], k)) <==> Page(id, k) in rest
  }

  lemma AddSlotLeftover(leftover: DirtyBitmap, rest: seq<Page>, id: nat, words: seq<Word>, more: seq<Page>)
    requires MapHoldsExactly(leftover, rest) && id !in leftover
    requires HoldsExactly(words, id, more) && forall p :: p in more ==> p.slot == id
    ensures MapHoldsExactly(leftover[id := words], rest + more)
  {
    forall i: nat, k: nat
      ensures (i in leftover[id := words] && Bit(leftover[id := words][i], k)) <==> Page(i, k) in rest + more
    {
      assert (i in leftover && Bit(leftover[i], k)) <==> Page(i, k) in rest;
      if i == id {
        assert Bit(words, k) <==> Page(id, k) in more;
      }
    }
  }

  lemma CutLists(xs: seq<Page>, q: nat, ys: seq<Page>, r: nat)
    requires q <= |xs| && r <= |ys| && (q == |xs| || r == 0)
    ensures (xs + ys)[..q + r] == xs[..q] + ys[..r]
    ensures (xs + ys)[q + r..] == xs[q..] + ys[r..]
  {
  }

  /** What dumping slots in turn has done after the slots in done: of their dirty pages the first q were appended
      to the writer's pages, the others are recorded in leftover. */
  datatype MemoryDump = MemoryDump(kvm: DirtyBitmap, vmm: VmmBitmaps, pageSize: nat, budget: Option<nat>, start: seq<Page>)
  {
    ghost function Dirty(done: seq<SlotInfo>): seq<Page> {
      DirtyList(done, kvm, vmm)
    }

    ghost predicate Done(done: seq<SlotInfo>, q: nat, remaining: Option<nat>, dumped: seq<Page>, leftover: DirtyBitmap) {
      && GreedyCut(|Dirty(done)|, q, pageSize, budget, remaining)
      && dumped == start + Dirty(done)[..q]
      && MapHoldsExactly(leftover, Dirty(done)[q..])
      && (forall id :: id in leftover ==> exists s :: s in done && s.id == id)
    }

    /** A slot that cannot be dumped for want of room makes the whole dump need more than there was. */
    lemma SlotNeedsMore(done: seq<SlotInfo>, slot: SlotInfo, q: nat, r1: Option<nat>, dumped: seq<Page>, leftover: DirtyBitmap, room: nat)
      requires Done(done, q, r1, dumped, leftover) && pageSize > 0
      requires room < Need(|DirtyIn(slot, kvm, vmm)|, pageSize, r1)
      ensures room + q < Need(|Dirty(done + [slot])|, pageSize, budget)
    {
      var here := |DirtyIn(slot, kvm, vmm)|;
      var q2 := Need(here, pageSize, r1);
      var r2 := NeedIsCut(here, pageSize, r1);
      CutConcat(|Dirty(done)|, q, here, q2, pageSize, budget, r1, r2);
      DirtyAppend(done, slot);
      CutIsNeed(|Dirty(done)| + here, q + q2, pageSize, budget, r2);
    }

    lemma {:induction false} PrefixNeedsLess(slots: seq<SlotInfo>, m: nat)
      requires m <= |slots| && pageSize > 0
      ensures Need(|Dirty(slots[..m])|, pageSize, budget) <= Need(|Dirty(slots)|, pageSize, budget)
      decreases |slots|
    {
      if m == |slots| {
        assert slots[..m] == slots;
      } else {
        var init := slots[..|slots| - 1];
        assert init[..m] == slots[..m];
        PrefixNeedsLess(init, m);
        NeedGrows(|Dirty(init)|, |Dirty(slots)|, pageSize, budget);
      }
    }

    lemma Unplugged(done: seq<SlotInfo>, slot: SlotInfo, q: nat, remaining: Option<nat>, dumped: seq<Page>, leftover: DirtyBitmap)
      requires Done(done, q, remaining, dumped, leftover) && !slot.plugged
      ensures Done(done + [slot], q, remaining, dumped, leftover)
    {
      assert (done + [slot])[..|done|] == done;
      assert Dirty(done + [slot]) == Dirty(done);
    }

    lemma DirtyAppend(done: seq<SlotInfo>, slot: SlotInfo)
      ensures Dirty(done + [slot]) == Dirty(done) + DirtyIn(slot, kvm, vmm)
    {
      assert (done + [slot])[..|done|] == done;
    }

    lemma SlotLeftover(done: seq<SlotInfo>, slot: SlotInfo, q: nat, q2: nat, leftover: DirtyBitmap, words: seq<Word>)
      requires q <= |Dirty(done)| && q2 <= |DirtyIn(slot, kvm, vmm)| && slot.id !in leftover
      requires MapHoldsExactly(leftover, Dirty(done)[q..])
      requires HoldsExactly(words, slot.id, DirtyIn(slot, kvm, vmm)[q2..])
      ensures MapHoldsExactly(leftover[slot.id := words], Dirty(done)[q..] + DirtyIn(slot, kvm, vmm)[q2..])
    {
      var here := DirtyIn(slot, kvm, vmm);
      forall p | p in here[q2..] ensures p.slot == slot.id {
        DirtyInSlot(slot, kvm, vmm, p);
      }
      AddSlotLeftover(leftover, Dirty(done)[q..], slot.id, words, here[q2..]);
    }

    lemma Plugged(done: seq<SlotInfo>, slot: SlotInfo, q: nat, q2: nat, r1: Option<nat>, r2: Option<nat>,
                  dumped: seq<Page>, leftover: DirtyBitmap, words: seq<Word>)
      requires Done(done, q, r1, dumped, leftover) && pageSize > 0
      requires slot.plugged && slot.id in kvm && slot.id in vmm && forall s :: s in done ==> s.id != slot.id
      requires GreedyCut(|DirtyIn(slot, kvm, vmm)|, q2, pageSize, r1, r2)
      requires HoldsExactly(words, slot.id, DirtyIn(slot, kvm, vmm)[q2..])
      ensures Done(done + [slot], q + q2, r2, dumped + DirtyIn(slot, kvm, vmm)[..q2], leftover[slot.id := words])
    {
      var here := DirtyIn(slot, kvm, vmm);
      CutConcat(|Dirty(done)|, q, |here|, q2, pageSize, budget, r1, r2);
      DirtyAppend(done, slot);
      CutLists(Dirty(done), q, here, q2);
      assert start + (Dirty(done)[..q] + here[..q2]) == start + Dirty(done)[..q] + here[..q2];
      SlotLeftover(done, slot, q, q2, leftover, words);
    }
  }

  // ---------------------------------------------------------------- distinctness

  ghost predicate Distinct(ps: seq<Page>) {
    forall i, j :: 0 <= i < j < |ps| ==> ps[i] != ps[j]
  }

  ghost function Pages(ps: seq<Page>): set<Page> {
    set p | p in ps
  }

  lemma {:induction false} DistinctCard(ps: seq<Page>)
    requires Distinct(ps)
    ensures |Pages(ps)| == |ps|
  {
    if ps != [] {
      var init, last := ps[..|ps| - 1], ps[|ps| - 1];
      DistinctCard(init);
      assert ps == init + [last];
      assert Pages(ps) == Pages(init) + {last};
      assert last !in init;
    }
  }

  lemma {:induction false} DirtyBelowDistinct(id: nat, kvm: seq<Word>, vmm: seq<bool>, n: nat)
    ensures Distinct(DirtyBelow(id, kvm, vmm, n))
  {
    if n > 0 {
      DirtyBelowDistinct(id, kvm, vmm, n - 1);
      DirtyBelowMembers(id, kvm, vmm, n - 1, Page(id, n - 1));
    }
  }

  lemma {:induction false} DirtyListDistinct(slots: seq<SlotInfo>, kvm: DirtyBitmap, vmm: VmmBitmaps)
    requires DistinctIds(slots)
    ensures Distinct(DirtyList(slots, kvm, vmm))
  {
    if slots != [] {
      var init, last := slots[..|slots| - 1], slots[|slots| - 1];
      DirtyListDistinct(init, kvm, vmm);
      var xs, ys := DirtyList(init, kvm, vmm), DirtyIn(last, kvm, vmm);
      if last.plugged && last.id in kvm && last.id in vmm {
        DirtyBelowDistinct(last.id, kvm[last.id], vmm[last.id], last.pages);
      }
      forall i, j | 0 <= i < |xs| && 0 <= j < |ys| ensures xs[i] != ys[j] {
        DirtyInSlot(last, kvm, vmm, ys[j]);
        DirtyListMembers(init, kvm, vmm, xs[i]);
        var s :| s in init && xs[i] in DirtyIn(s, kvm, vmm);
        DirtyInSlot(s, kvm, vmm, xs[i]);
      }
    }
  }

  datatype SnapshotResult = Written(pages: nat) | TrackingRequired | FetchFailed | WriteFailed

  ghost predicate DistinctIds(slots: seq<SlotInfo>) {
    forall i, j :: 0 <= i < j < |slots| ==> slots[i].id != slots[j].id
  }

  /** The log has every plugged slot among these. */
  ghost predicate LogHas(slots: seq<SlotInfo>, kvm: DirtyBitmap) {
    forall s :: s in slots && s.plugged ==> s.id in kvm
  }

  lemma LogHasMore(slots: seq<SlotInfo>, m: nat, kvm: DirtyBitmap)
    requires m < |slots|
    ensures LogHas(slots[..m + 1], kvm) <==> LogHas(slots[..m], kvm) && (slots[m].plugged ==> slots[m].id in kvm)
    ensures LogHas(slots, kvm) ==> LogHas(slots[..m + 1], kvm)
  {
    assert slots[..m + 1] == slots[..m] + [slots[m]];
  }

  class GuestMemoryMmap {
    const slots: seq<SlotInfo>
    var bitmaps: VmmBitmaps   // the VMM-internal dirty bitmap of each plugged slot

    ghost predicate Valid()
      reads this
    {
      && DistinctIds(slots)
      && (forall s :: s in slots && s.plugged ==> s.id in bitmaps && |bitmaps[s.id]| == s.pages)
      && (forall id :: id in bitmaps ==> exists s :: s in slots && s.plugged && s.id == id)
    }

    /** Pages marked in the VMM bitmap. */
    ghost function VmmPages(): set<Page>
      reads this
    {
      set id, k | id in bitmaps && 0 <= k < |bitmaps[id]| && bitmaps[id][k] :: Page(id, k)
    }

    /** Pages of this memory marked in a fetched KVM log. */
    ghost function KvmPages(kvm: DirtyBitmap): set<Page>
      reads this
    {
      set id, k | id in bitmaps && id in kvm && 0 <= k < |bitmaps[id]| && Bit(kvm[id], k) :: Page(id, k)
    }

    /** KVM returns a word for every 64 pages of a slot. */
    ghost predicate LogSized(kvm: DirtyBitmap) {
      forall s :: s in slots && s.plugged && s.id in kvm ==> s.pages <= BITS * |kvm[s.id]|
    }

    ghost predicate LogComplete(kvm: DirtyBitmap) {
      LogHas(slots, kvm)
    }

    ghost function Dirty(kvm: DirtyBitmap): seq<Page>
      reads this
    {
      DirtyList(slots, kvm, bitmaps)
    }

    /** The dump list is the union of both bitmaps. */
    lemma DirtyIsUnion(kvm: DirtyBitmap, p: Page)
      requires Valid() && LogComplete(kvm)
      ensures p in Dirty(kvm) <==> p in VmmPages() + KvmPages(kvm)
    {
      DirtyListMembers(slots, kvm, bitmaps, p);
      if p in Dirty(kvm) {
        var s :| s in slots && p in DirtyIn(s, kvm, bitmaps);
        DirtyInSlot(s, kvm, bitmaps, p);
      }
      if p in VmmPages() + KvmPages(kvm) {
        assert p.slot in bitmaps;
        var s :| s in slots && s.plugged && s.id == p.slot;
        DirtyInSlot(s, kvm, bitmaps, p);
      }
    }

    /** dump_dirty_pages: dumps every slot in turn against one shared budget. */
    method DumpDirtyPages(kvm: DirtyBitmap, pageSize: nat, budget: Option<nat>, writer: PageWriter)
      returns (ok: bool, remaining: Option<nat>, leftover: DirtyBitmap)
      requires Valid() && pageSize > 0 && LogSized(kvm)
      modifies writer
      ensures ok <==> LogComplete(kvm) && old(writer.room) >= Need(|Dirty(kvm)|, pageSize, budget)
      ensures ok ==>
        var q := |writer.dumped| - |old(writer.dumped)|;
        && 0 <= q <= |Dirty(kvm)|
        && GreedyCut(|Dirty(kvm)|, q, pageSize, budget, remaining)
        && writer.dumped == old(writer.dumped) + Dirty(kvm)[..q]
        && MapHoldsExactly(leftover, Dirty(kvm)[q..])
        && writer.room == old(writer.room) - q
    {
      remaining, leftover, ok := budget, map[], true;
      ghost var q: nat := 0;
      ghost var dump := MemoryDump(kvm, bitmaps, pageSize, budget, writer.dumped);
      assert Dirty(kvm) == dump.Dirty(slots);
      var m := 0;
      while m < |slots|
        invariant 0 <= m <= |slots|
        invariant dump.Done(slots[..m], q, remaining, writer.dumped, leftover)
        invariant writer.room + q == old(writer.room)
        invariant LogHas(slots[..m], kvm)
      {
        LogHasMore(slots, m, kvm);
        ok, remaining, leftover, q := DumpSlot(m, kvm, pageSize, remaining, leftover, writer, dump, q);
        if !ok {
          dump.PrefixNeedsLess(slots, m + 1);
          return;
        }
        m := m + 1;
      }
      assert slots[..m] == slots;
      CutIsNeed(|Dirty(kvm)|, q, pageSize, budget, remaining);
    }

    /** Dumps one slot if it is plugged; it must then be in the fetched log. */
    method DumpSlot(m: nat, kvm: DirtyBitmap, pageSize: nat, remaining: Option<nat>, leftover: DirtyBitmap, writer: PageWriter,
                    ghost dump: MemoryDump, ghost q: nat)
      returns (ok: bool, remaining': Option<nat>, leftover': DirtyBitmap, ghost q': nat)
      requires Valid() && pageSize > 0 && LogSized(kvm) && m < |slots|
      requires dump.kvm == kvm && dump.vmm == bitmaps && dump.pageSize == pageSize
      requires dump.Done(slots[..m], q, remaining, writer.dumped, leftover)
      modifies writer
      ensures ok ==> (slots[m].plugged ==> slots[m].id in kvm) && dump.Done(slots[..m + 1], q', remaining', writer.dumped, leftover')
      ensures ok ==> writer.room + q' == old(writer.room) + q
      ensures !ok ==>
        || (slots[m].plugged && slots[m].id !in kvm)
        || old(writer.room) + q < Need(|dump.Dirty(slots[..m + 1])|, pageSize, dump.budget)
    {
      assert slots[..m + 1] == slots[..m] + [slots[m]];
      ok, remaining', leftover', q' := !slots[m].plugged, remaining, leftover, q;
      if !slots[m].plugged {
        dump.Unplugged(slots[..m], slots[m], q, remaining, writer.dumped, leftover);
      } else if slots[m].id in kvm {
        ok, remaining', leftover', q' := DumpPlugged(m, kvm, pageSize, remaining, leftover, writer, dump, q);
      }
    }

    method DumpPlugged(m: nat, kvm: DirtyBitmap, pageSize: nat, remaining: Option<nat>, leftover: DirtyBitmap, writer: PageWriter,
                       ghost dump: MemoryDump, ghost q: nat)
      returns (ok: bool, remaining': Option<nat>, leftover': DirtyBitmap, ghost q': nat)
      requires Valid() && pageSize > 0 && LogSized(kvm) && m < |slots| && slots[m].plugged && slots[m].id in kvm
      requires dump.kvm == kvm && dump.vmm == bitmaps && dump.pageSize == pageSize
      requires dump.Done(slots[..m], q, remaining, writer.dumped, leftover)
      modifies writer
      ensures ok ==> dump.Done(slots[..m] + [slots[m]], q', remaining', writer.dumped, leftover')
      ensures ok ==> writer.room + q' == old(writer.room) + q
      ensures !ok ==> old(writer.room) + q < Need(|dump.Dirty(slots[..m] + [slots[m]])|, pageSize, dump.budget)
    {
      var slot := slots[m];
      assert slot in slots;
      leftover', q' := leftover, q;
      ghost var dumped := writer.dumped;
      var words := new Word[|kvm[slot.id]|](_ => ZERO);
      ok, remaining' := DumpDirtyBudgeted(slot, kvm[slot.id], bitmaps[slot.id], pageSize, remaining, words, writer);
      if ok {
        ghost var q2: nat := |writer.dumped| - |dumped|;
        dump.Plugged(slots[..m], slot, q, q2, remaining, remaining', dumped, leftover, words[..]);
        leftover' := leftover[slot.id := words[..]];
        q' := q + q2;
      } else {
        dump.SlotNeedsMore(slots[..m], slot, q, remaining, dumped, leftover, old(writer.room));
      }
    }

    /** reset_dirty. */
    method ResetDirty()
      requires Valid()
      modifies this
      ensures Valid() && VmmPages() == {}
    {
      bitmaps := map id | id in bitmaps :: seq(|bitmaps[id]|, _ => false);
    }

    /** store_dirty_bitmap: marks every page of the given bitmap. */
    method StoreDirtyBitmap(kvm: DirtyBitmap)
      requires Valid()
      modifies this
      ensures Valid() && VmmPages() == old(VmmPages()) + old(KvmPages(kvm))
    {
      var was := bitmaps;
      bitmaps := map id | id in was ::
        seq(|was[id]|, k requires 0 <= k < |was[id]| => was[id][k] || (id in kvm && Bit(kvm[id], k)));
    }

    lemma DirtyPages(kvm: DirtyBitmap)
      requires Valid() && LogComplete(kvm)
      ensures Pages(Dirty(kvm)) == VmmPages() + KvmPages(kvm)
    {
      forall p ensures p in Dirty(kvm) <==> p in VmmPages() + KvmPages(kvm) {
        DirtyIsUnion(kvm, p);
      }
    }

    /** The success arm of dump_dirty_live: the bitmap is reset and re-marked with exactly the leftover. */
    method KeepLeftover(leftover: DirtyBitmap)
      requires Valid()
      modifies this
      ensures Valid() && VmmPages() == old(KvmPages(leftover))
    {
      ResetDirty();
      assert KvmPages(leftover) == old(KvmPages(leftover)) by {
        assert bitmaps.Keys == old(bitmaps).Keys;
        assert forall id :: id in bitmaps ==> |bitmaps[id]| == |old(bitmaps)[id]|;
      }
      StoreDirtyBitmap(leftover);
    }

    /** A recorded leftover, seen as a KVM bitmap of this memory, is exactly the leftover pages. */
    lemma LeftoverPages(kvm: DirtyBitmap, leftover: DirtyBitmap, q: nat)
      requires Valid() && LogComplete(kvm) && q <= |Dirty(kvm)| && MapHoldsExactly(leftover, Dirty(kvm)[q..])
      ensures KvmPages(leftover) == Pages(Dirty(kvm)[q..])
    {
      var rest := Dirty(kvm)[q..];
      forall p | p in rest ensures p in KvmPages(leftover) {
        assert p in Dirty(kvm);
        DirtyIsUnion(kvm, p);
        assert p == Page(p.slot, p.index);
      }
      forall p | p in KvmPages(leftover) ensures p in rest {
        assert p == Page(p.slot, p.index);
      }
    }

    /** dump_dirty: the dump of a paused VM, without a budget. */
    method DumpDirty(kvm: DirtyBitmap, pageSize: nat, writer: PageWriter) returns (ok: bool)
      requires Valid() && pageSize > 0 && LogSized(kvm)
      modifies this, writer
      ensures Valid()
      ensures ok <==> LogComplete(kvm) && old(writer.room) >= |old(Dirty(kvm))|
      ensures ok ==> VmmPages() == {} && writer.dumped == old(writer.dumped) + old(Dirty(kvm))
      ensures ok ==> Pages(old(Dirty(kvm))) == old(VmmPages()) + old(KvmPages(kvm))
      ensures !ok ==> VmmPages() == old(VmmPages()) + old(KvmPages(kvm))
    {
      var remaining, leftover;
      ok, remaining, leftover := DumpDirtyPages(kvm, pageSize, None, writer);
      if ok {
        DirtyPages(kvm);
        ResetDirty();
      } else {
        StoreDirtyBitmap(kvm);
      }
    }

    /** dump_dirty_live: dumps the longest prefix of the dirty list that fits into the budget; on success
        the VMM bitmap afterwards holds exactly the rest, on failure everything that was dirty. */
    method DumpDirtyLive(kvm: DirtyBitmap, pageSize: nat, maxBytes: Option<nat>, writer: PageWriter) returns (ok: bool)
      requires Valid() && pageSize > 0 && LogSized(kvm)
      modifies this, writer
      ensures Valid()
      ensures ok <==>
        LogComplete(kvm) && old(writer.room) >= Need(|old(Dirty(kvm))|, pageSize, Some(ByteLimit(maxBytes)))
      ensures ok ==>
        var dirty := old(Dirty(kvm));
        var q := |writer.dumped| - |old(writer.dumped)|;
        && 0 <= q <= |dirty|
        && q == Need(|dirty|, pageSize, Some(ByteLimit(maxBytes)))
        && writer.dumped == old(writer.dumped) + dirty[..q]
        && VmmPages() == Pages(dirty[q..])
      ensures ok ==>
        && Distinct(old(Dirty(kvm)))
        && Pages(old(Dirty(kvm))) == old(VmmPages()) + old(KvmPages(kvm))
      ensures !ok ==> VmmPages() == old(VmmPages()) + old(KvmPages(kvm))
    {
      var max := ByteLimit(maxBytes);
      var remaining, leftover;
      ok, remaining, leftover := DumpDirtyPages(kvm, pageSize, Some(max), writer);
      if ok {
        ghost var q: nat := |writer.dumped| - |old(writer.dumped)|;
        DirtyPages(kvm);
        DirtyListDistinct(slots, kvm, bitmaps);
        LeftoverPages(kvm, leftover, q);
        CutIsNeed(|Dirty(kvm)|, q, pageSize, Some(max), remaining);
        KeepLeftover(leftover);
      } else {
        StoreDirtyBitmap(kvm);
      }
    }

    /** Marks the queue pages of activated devices. */
    method MarkQueues(queues: set<Page>)
      requires Valid() && forall p :: p in queues ==> p.slot in bitmaps && p.index < |bitmaps[p.slot]|
      modifies this
      ensures Valid() && VmmPages() == old(VmmPages()) + queues
    {
      var was := bitmaps;
      bitmaps := map id | id in was ::
        seq(|was[id]|, k requires 0 <= k < |was[id]| => was[id][k] || Page(id, k) in queues);
      assert forall id, k :: id in was && 0 <= k < |was[id]| ==> (bitmaps[id][k] <==> was[id][k] || Page(id, k) in queues);
      forall p | p in queues ensures p in VmmPages() {
        assert p == Page(p.slot, p.index) && bitmaps[p.slot][p.index];
      }
    }

    /** The DiffLive arm of snapshot_memory_to_file and the tail of create_snapshot: live rounds need dirty tracking,
        the log is fetched (log; None: the fetch fails), it is dumped against the budget, and only a successful call
        marks the queues again.  No page marked in the VMM bitmap or the fetched log becomes unmarked without having
        been dumped. */
    method CreateSnapshotLive(tracking: bool, log: Option<DirtyBitmap>, pageSize: nat, maxBytes: Option<nat>,
                              queues: set<Page>, writer: PageWriter) returns (r: SnapshotResult)
      requires Valid() && pageSize > 0 && (log.Some? ==> LogSized(log.value))
      requires forall p :: p in queues ==> p.slot in bitmaps && p.index < |bitmaps[p.slot]|
      modifies this, writer
      ensures Valid()
      ensures r.TrackingRequired? <==> !tracking
      ensures r.FetchFailed? <==> tracking && log.None?
      ensures r.TrackingRequired? || r.FetchFailed? ==> VmmPages() == old(VmmPages()) && writer.dumped == old(writer.dumped)
      ensures r.WriteFailed? ==> log.Some? && VmmPages() == old(VmmPages()) + old(KvmPages(log.value))
      ensures r.Written? <==>
        && tracking && log.Some? && LogComplete(log.value)
        && old(writer.room) >= Need(|old(Dirty(log.value))|, pageSize, Some(ByteLimit(maxBytes)))
      ensures r.Written? ==>
        && log.Some?
        && r.pages == Need(|old(Dirty(log.value))|, pageSize, Some(ByteLimit(maxBytes)))
        && r.pages == |writer.dumped| - |old(writer.dumped)|
        && old(writer.dumped) <= writer.dumped
        && Pages(writer.dumped[|old(writer.dumped)|..]) + VmmPages() == old(VmmPages()) + old(KvmPages(log.value)) + queues
        && Pages(writer.dumped[|old(writer.dumped)|..]) * VmmPages() <= queues
        && r.pages * pageSize <= ByteLimit(maxBytes)
    {
      if !tracking {
        return TrackingRequired;
      }
      if log.None? {
        return FetchFailed;
      }
      var kvm := log.value;
      ghost var dirty, before := Dirty(kvm), writer.dumped;
      var start := |writer.dumped|;
      NeedWithinBudget(|dirty|, pageSize, ByteLimit(maxBytes));
      var ok := DumpDirtyLive(kvm, pageSize, maxBytes, writer);
      if !ok {
        return WriteFailed;
      }
      r := Written(|writer.dumped| - start);
      ghost var after, left := writer.dumped, VmmPages();
      SnapshotWritten(dirty, r.pages, before, after, left, queues);
      MarkQueues(queues);
    }

    lemma SnapshotWritten(dirty: seq<Page>, n: nat, before: seq<Page>, after: seq<Page>, left: set<Page>, queues: set<Page>)
      requires Distinct(dirty) && n <= |dirty| && after == before + dirty[..n] && left == Pages(dirty[n..])
      ensures before <= after && Pages(after[|before|..]) + (left + queues) == Pages(dirty) + queues
      ensures Pages(after[|before|..]) * (left + queues) <= queues
    {
      assert after[|before|..] == dirty[..n];
      SnapshotSplit(dirty, n, queues);
    }

    lemma SnapshotSplit(dirty: seq<Page>, n: nat, queues: set<Page>)
      requires Distinct(dirty) && n <= |dirty|
      ensures Pages(dirty[..n]) + (Pages(dirty[n..]) + queues) == Pages(dirty) + queues
      ensures Pages(dirty[..n]) * (Pages(dirty[n..]) + queues) <= queues
    {
      SplitPages(dirty, n);
    }

    /** dirty_backlog_bytes. */
    method DirtyBacklogBytes(pageSize: nat) returns (bytes: nat)
      requires Valid()
      ensures bytes == pageSize * |VmmPages()|
    {
      ghost var noLog: DirtyBitmap := map id | id in bitmaps :: [];
      bytes := 0;
      var m := 0;
      while m < |slots|
        invariant 0 <= m <= |slots| && BacklogSoFar(slots[..m], noLog, bitmaps, pageSize, bytes)
      {
        var slot := slots[m];
        assert slots[..m + 1] == slots[..m] + [slot] && slot in slots;
        var count := 0;
        if slot.plugged {
          count := CountDirty(slot, bitmaps[slot.id]);
        }
        BacklogStep(slots[..m], slot, noLog, bitmaps, pageSize, bytes, count);
        bytes := bytes + pageSize * count;
        m := m + 1;
      }
      assert slots[..m] == slots;
      BacklogCard(noLog);
    }

    lemma BacklogCard(noLog: DirtyBitmap)
      requires Valid() && noLog.Keys == bitmaps.Keys && forall id :: id in noLog ==> noLog[id] == []
      ensures |Dirty(noLog)| == |VmmPages()|
    {
      DirtyListDistinct(slots, noLog, bitmaps);
      DistinctCard(Dirty(noLog));
      assert KvmPages(noLog) == {};
      forall p ensures p in Dirty(noLog) <==> p in VmmPages() { DirtyIsUnion(noLog, p); }
      assert Pages(Dirty(noLog)) == VmmPages();
    }
  }

  ghost predicate BacklogSoFar(done: seq<SlotInfo>, kvm: DirtyBitmap, vmm: VmmBitmaps, pageSize: nat, bytes: nat) {
    bytes == pageSize * |DirtyList(done, kvm, vmm)|
  }

  lemma BacklogStep(done: seq<SlotInfo>, slot: SlotInfo, kvm: DirtyBitmap, vmm: VmmBitmaps, pageSize: nat, bytes: nat, count: nat)
    requires BacklogSoFar(done, kvm, vmm, pageSize, bytes) && count == |DirtyIn(slot, kvm, vmm)|
    ensures pageSize * count >= 0 && BacklogSoFar(done + [slot], kvm, vmm, pageSize, bytes + pageSize * count)
  {
    assert (done + [slot])[..|done|] == done;
    DistributeMul(pageSize, |DirtyList(done, kvm, vmm)|, count);
  }

  lemma DistributeMul(a: nat, b: nat, c: nat)
    ensures a * (b + c) == a * b + a * c && a * c >= 0
  {
  }

  /** The marked pages of one slot. */
  method CountDirty(slot: SlotInfo, vmm: seq<bool>) returns (count: nat)
    requires |vmm| == slot.pages
    ensures count == |DirtyBelow(slot.id, [], vmm, slot.pages)|
  {
    count := 0;
    var k := 0;
    while k < slot.pages
      invariant 0 <= k <= slot.pages && count == |DirtyBelow(slot.id, [], vmm, k)|
    {
      if vmm[k] {
        count := count + 1;
      }
      k := k + 1;
    }
  }

  const U64_MAX: nat := 0xFFFF_FFFF_FFFF_FFFF

  /** live_max_bytes; without one the limit is the largest u64. */
  function ByteLimit(maxBytes: Option<nat>): nat {
    if maxBytes.Some? then maxBytes.value else U64_MAX
  }

  // ---------------------------------------------------------------- budgets

  /** q of total pages is the most that max bytes allow. */
  ghost predicate Fits(total: nat, q: nat, pageSize: nat, max: nat) {
    q <= total && q * pageSize <= max && (q < total ==> max < (q + 1) * pageSize)
  }

  /** A round that reports fewer bytes than its budget has nothing left over, for every dirty set, exactly when
      the page size divides the budget. */
  lemma UnderBudgetMeansDrained(pageSize: nat, max: nat)
    requires pageSize > 0
    ensures (forall total: nat, q: nat {:trigger Fits(total, q, pageSize, max)} ::
               Fits(total, q, pageSize, max) && q * pageSize < max ==> q == total)
            <==> max % pageSize == 0
  {
    var c := max / pageSize;
    assert c * pageSize + max % pageSize == max;
    assert (c + 1) * pageSize == c * pageSize + pageSize;
    if max % pageSize == 0 {
      forall total: nat, q: nat | Fits(total, q, pageSize, max) && q * pageSize < max ensures q == total {
        if q >= c {
          MulMono(c, q, pageSize);
          assert false;
        }
        MulMono(q + 1, c, pageSize);
      }
    } else {
      assert Fits(c + 1, c, pageSize, max);
    }
  }

  lemma SplitPages(dirty: seq<Page>, q: nat)
    requires Distinct(dirty) && q <= |dirty|
    ensures Pages(dirty[..q]) + Pages(dirty[q..]) == Pages(dirty)
    ensures Pages(dirty[..q]) !! Pages(dirty[q..])
  {
    assert dirty == dirty[..q] + dirty[q..];
    forall i, j | 0 <= i < q <= j < |dirty| ensures dirty[i] != dirty[j] {
    }
  }
}
