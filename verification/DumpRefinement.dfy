/** The bitmap code's dumps are runs of the transition system, whatever the guest writes meanwhile. */
module DumpRefinement {
  import opened Options
  import opened GuestMemory
  import opened DirtyTracking
  import opened DirtyDump

  /** steps are what the dump code does with the dirty list, interleaved with any guest writes: it is at page i, of which
      it has read the words in got; pages before q are read word by word, in any order, and finished, the others are put
      over budget; done tells whether it gets to the end of the list. */
  ghost predicate Follows(locs: set<Loc>, steps: seq<Step>, dirty: seq<Page>, q: nat, i: nat, got: set<Loc>, done: bool)
    requires i <= |dirty|
    decreases |steps|
  {
    if steps == [] then done ==> i == |dirty|
    else
      match steps[0]
      case GuestWrite(l, _, _) => l in locs && Follows(locs, steps[1..], dirty, q, i, got, done)
      case ReadWord(l) =>
        l in locs && i < |dirty| && i < q && l.page == dirty[i] && Follows(locs, steps[1..], dirty, q, i, got + {l}, done)
      case FinishPage(p) =>
        && i < |dirty| && i < q && p == dirty[i] && PageRead(locs, p, got)
        && Follows(locs, steps[1..], dirty, q, i + 1, {}, done)
      case OverBudget(p) => q <= i < |dirty| && p == dirty[i] && Follows(locs, steps[1..], dirty, q, i + 1, {}, done)
      case _ => false
  }

  ghost predicate PageRead(locs: set<Loc>, p: Page, got: set<Loc>) {
    forall l :: l in locs && l.page == p ==> l in got
  }

  ghost predicate Quiet(steps: seq<Step>) {
    forall i :: 0 <= i < |steps| ==> !steps[i].GuestWrite?
  }

  // ---------------------------------------------------------------- what the guest does

  /** Memory after the guest writes among steps. */
  ghost function MemAfter(mem: Image, steps: seq<Step>): Image
    decreases |steps|
  {
    if steps == [] then mem
    else MemAfter(if steps[0].GuestWrite? then mem[steps[0].loc := steps[0].val] else mem, steps[1..])
  }

  ghost function RegsAfter(regs: int, steps: seq<Step>): int
    decreases |steps|
  {
    if steps == [] then regs else RegsAfter(if steps[0].GuestWrite? then steps[0].regs else regs, steps[1..])
  }

  /** The pages the guest writes. */
  ghost function Written(steps: seq<Step>): set<Page> {
    if steps == [] then {}
    else (if steps[0].GuestWrite? then {steps[0].loc.page} else {}) + Written(steps[1..])
  }

  /** The words read, each with the value memory had when it was last read. */
  ghost function Capture(mem: Image, steps: seq<Step>): Image
    decreases |steps|
  {
    if steps == [] then map[]
    else
      var s, rest := steps[0], steps[1..];
      if s.GuestWrite? then Capture(mem[s.loc := s.val], rest)
      else if s.ReadWord? && s.loc in mem then map[s.loc := mem[s.loc]] + Capture(mem, rest)
      else Capture(mem, rest)
  }

  // ---------------------------------------------------------------- the run

  /** The VMM after steps, the dump's own bookkeeping apart. */
  ghost predicate Moved(v: Vmm, steps: seq<Step>, w: Vmm)
    requires v.dump.Some?
  {
    && w.dump.Some?
    && w == v.(mem := MemAfter(v.mem, steps), regs := RegsAfter(v.regs, steps), kvm := v.kvm + Written(steps), dump := w.dump)
    && w.dump.value.capture == v.dump.value.capture + Capture(v.mem, steps)
  }

  lemma MovedCons(v: Vmm, s: Step, rest: seq<Step>, w: Vmm)
    requires v.dump.Some? && Enabled(v, s) && InsideDump(s) && Moved(Apply(v, s), rest, w)
    ensures Moved(v, [s] + rest, w)
  {
    var steps := [s] + rest;
    assert steps[0] == s && steps[1..] == rest;
    if s.ReadWord? {
      var c := v.dump.value.capture;
      assert c[s.loc := v.mem[s.loc]] + Capture(v.mem, rest) == c + Capture(v.mem, steps);
    }
  }

  /** The code is at page i of its list, of which it has read the words in got, and v shows that. */
  ghost predicate At(v: Vmm, dirty: seq<Page>, q: nat, i: nat, got: set<Loc>) {
    && v.dump.Some? && i <= |dirty| && q <= |dirty| && Distinct(dirty)
    && v.dump.value.todo == Pages(dirty[i..])
    && got <= v.dump.value.capture.Keys
    && (v.dump.value.live || q == |dirty|)
  }

  ghost function NextPage(s: Step, i: nat): nat {
    if s.FinishPage? || s.OverBudget? then i + 1 else i
  }

  ghost function NextGot(s: Step, got: set<Loc>): set<Loc> {
    if s.FinishPage? || s.OverBudget? then {} else if s.ReadWord? then got + {s.loc} else got
  }

  lemma TailPages(dirty: seq<Page>, i: nat)
    requires Distinct(dirty) && i < |dirty|
    ensures Pages(dirty[i..]) == Pages(dirty[i + 1..]) + {dirty[i]} && dirty[i] !in Pages(dirty[i + 1..])
  {
    assert dirty[i..] == [dirty[i]] + dirty[i + 1..];
    forall j | i < j < |dirty| ensures dirty[i] != dirty[j] {
    }
  }

  /** One step of the code or the guest is enabled and moves the code on. */
  lemma FollowsStep(v: Vmm, steps: seq<Step>, dirty: seq<Page>, q: nat, i: nat, got: set<Loc>, done: bool)
    requires At(v, dirty, q, i, got) && steps != [] && Follows(v.mem.Keys, steps, dirty, q, i, got, done)
    requires v.running || Quiet(steps)
    ensures Enabled(v, steps[0]) && InsideDump(steps[0])
    ensures var v' := Apply(v, steps[0]);
      && NextPage(steps[0], i) <= |dirty| && At(v', dirty, q, NextPage(steps[0], i), NextGot(steps[0], got))
      && Follows(v'.mem.Keys, steps[1..], dirty, q, NextPage(steps[0], i), NextGot(steps[0], got), done)
      && (v'.running || Quiet(steps[1..]))
      && v'.dump.value.live == v.dump.value.live && v'.dump.value.fetched == v.dump.value.fetched
      && v'.dump.value.leftover == v.dump.value.leftover + (if steps[0].OverBudget? then {dirty[i]} else {})
  {
    if i < |dirty| {
      TailPages(dirty, i);
    }
    if steps[0].GuestWrite? {
      assert v.running;
      assert v.mem[steps[0].loc := steps[0].val].Keys == v.mem.Keys;
    }
  }

  ghost function From(i: nat, q: nat): nat {
    if i < q then q else i
  }

  lemma LeftoverNext(s: Step, dirty: seq<Page>, q: nat, i: nat)
    requires Distinct(dirty) && q <= |dirty| && NextPage(s, i) <= |dirty|
    requires s.OverBudget? ==> q <= i
    requires s.FinishPage? ==> i < q
    ensures (if s.OverBudget? then {dirty[i]} else {}) + Pages(dirty[From(NextPage(s, i), q)..]) == Pages(dirty[From(i, q)..])
  {
    if s.OverBudget? {
      TailPages(dirty, i);
    }
  }

  /** Where the code is after steps: the guest's writes and the captured words are in, and if it got to the end, the
      pages from q on are left over. */
  ghost predicate Ran(v: Vmm, steps: seq<Step>, dirty: seq<Page>, q: nat, i: nat, done: bool, w: Vmm)
    requires v.dump.Some? && q <= |dirty| && i <= |dirty|
  {
    && Moved(v, steps, w)
    && var d, d' := v.dump.value, w.dump.value;
    && d'.live == d.live && d'.fetched == d.fetched
    && (done ==> d'.todo == {} && d'.leftover == d.leftover + Pages(dirty[From(i, q)..]))
  }

  lemma RanCons(v: Vmm, steps: seq<Step>, dirty: seq<Page>, q: nat, i: nat, got: set<Loc>, done: bool, w: Vmm)
    requires At(v, dirty, q, i, got) && steps != [] && Follows(v.mem.Keys, steps, dirty, q, i, got, done)
    requires v.running || Quiet(steps)
    requires Enabled(v, steps[0]) && NextPage(steps[0], i) <= |dirty|
    requires Apply(v, steps[0]).dump.Some? && Ran(Apply(v, steps[0]), steps[1..], dirty, q, NextPage(steps[0], i), done, w)
    ensures Ran(v, steps, dirty, q, i, done, w)
  {
    FollowsStep(v, steps, dirty, q, i, got, done);
    assert steps == [steps[0]] + steps[1..];
    MovedCons(v, steps[0], steps[1..], w);
    LeftoverNext(steps[0], dirty, q, i);
  }

  /** Every such interleaving is a run, with exactly those guest writes, captured words and leftover pages. */
  lemma {:induction false} FollowsRuns(v: Vmm, steps: seq<Step>, dirty: seq<Page>, q: nat, i: nat, got: set<Loc>, done: bool)
    requires At(v, dirty, q, i, got) && Follows(v.mem.Keys, steps, dirty, q, i, got, done)
    requires v.running || Quiet(steps)
    ensures ValidRun(v, steps) && (forall k :: 0 <= k < |steps| ==> InsideDump(steps[k]))
    ensures Ran(v, steps, dirty, q, i, done, Exec(v, steps))
    decreases |steps|
  {
    if steps == [] {
      MovedNothing(v);
    } else {
      FollowsStep(v, steps, dirty, q, i, got, done);
      FollowsRuns(Apply(v, steps[0]), steps[1..], dirty, q, NextPage(steps[0], i), NextGot(steps[0], got), done);
      RanCons(v, steps, dirty, q, i, got, done, Exec(v, steps));
    }
  }

  lemma MovedNothing(v: Vmm)
    requires v.dump.Some?
    ensures Moved(v, [], v)
  {
    assert v.kvm + {} == v.kvm;
    assert v.dump.value.capture + map[] == v.dump.value.capture;
  }

  // ---------------------------------------------------------------- whole dump calls

  /** A dump of the pages dirty, cut at q, interleaved with the guest writes in steps. */
  ghost predicate DumpOf(v: Vmm, live: bool, dirty: seq<Page>, q: nat, steps: seq<Step>, done: bool) {
    && Enabled(v, Fetch(live))
    && Distinct(dirty) && Pages(dirty) == v.bitmap + v.kvm
    && q <= |dirty| && (live || q == |dirty|)
    && Follows(v.mem.Keys, steps, dirty, q, 0, {}, done)
    && (v.running || Quiet(steps))
  }

  lemma FetchedAt(v: Vmm, live: bool, dirty: seq<Page>, q: nat, steps: seq<Step>, done: bool)
    requires DumpOf(v, live, dirty, q, steps, done)
    ensures At(Apply(v, Fetch(live)), dirty, q, 0, {})
  {
    assert dirty[0..] == dirty;
    assert v.kvm + v.bitmap == v.bitmap + v.kvm;
  }

  /** A dump call from fetch to return. */
  ghost function Call(live: bool, steps: seq<Step>, last: Step): seq<Step> {
    [Fetch(live)] + steps + [last]
  }

  lemma Bracket(v: Vmm, live: bool, steps: seq<Step>, last: Step)
    requires Enabled(v, Fetch(live)) && ValidRun(Apply(v, Fetch(live)), steps)
    requires forall k :: 0 <= k < |steps| ==> InsideDump(steps[k])
    requires Enabled(Exec(Apply(v, Fetch(live)), steps), last)
    ensures var all := Call(live, steps, last);
      var w := Exec(Apply(v, Fetch(live)), steps);
      && ValidRun(v, all) && Exec(v, all) == Apply(w, last)
      && forall img {:trigger ExecCopy(v, img, all)} :: ExecCopy(v, img, all) == Copied(w, img, last)
  {
    var v1 := Apply(v, Fetch(live));
    var all := Call(live, steps, last);
    assert [last][1..] == [] && all[0] == Fetch(live) && all[1..] == steps + [last];
    ExecConcat(v1, steps, [last]);
    forall img ensures ExecCopy(v, img, all) == Copied(Exec(v1, steps), img, last) {
      ExecCopyConcat(v1, img, steps, [last]);
      InsideDumpCopiesNothing(v1, img, steps);
    }
  }

  /** A successful dump, live or paused: for every interleaving of guest writes with the code's page order there is a
      run from fetch to success with exactly those writes.  Afterwards the VMM bitmap holds the pages over budget and
      the queues, the KVM log the pages written meanwhile, and the outside copy has received every word of the dumped
      pages as it was when last read. */
  lemma DumpRefines(v: Vmm, live: bool, dirty: seq<Page>, q: nat, steps: seq<Step>)
    requires DumpOf(v, live, dirty, q, steps, true)
    ensures var all := Call(live, steps, DumpOk);
      && ValidRun(v, all)
      && Exec(v, all) == v.(mem := MemAfter(v.mem, steps), regs := RegsAfter(v.regs, steps), kvm := Written(steps),
                            bitmap := Pages(dirty[q..]) + v.queues)
      && forall img {:trigger ExecCopy(v, img, all)} :: ExecCopy(v, img, all) == img + Capture(v.mem, steps)
  {
    var v1 := Apply(v, Fetch(live));
    FetchedAt(v, live, dirty, q, steps, true);
    FollowsRuns(v1, steps, dirty, q, 0, {}, true);
    EndsOk(v, live, dirty, q, steps, Exec(v1, steps));
    Bracket(v, live, steps, DumpOk);
  }

  lemma EndsOk(v: Vmm, live: bool, dirty: seq<Page>, q: nat, steps: seq<Step>, w: Vmm)
    requires Enabled(v, Fetch(live)) && q <= |dirty| && Ran(Apply(v, Fetch(live)), steps, dirty, q, 0, true, w)
    ensures Enabled(w, DumpOk)
    ensures Apply(w, DumpOk) == v.(mem := MemAfter(v.mem, steps), regs := RegsAfter(v.regs, steps), kvm := Written(steps),
                                   bitmap := Pages(dirty[q..]) + v.queues)
    ensures forall img {:trigger Copied(w, img, DumpOk)} :: Copied(w, img, DumpOk) == img + Capture(v.mem, steps)
  {
    assert map[] + Capture(v.mem, steps) == Capture(v.mem, steps);
  }

  /** A failed dump, wherever it stops: everything that was dirty is marked again, what the guest wrote meanwhile is in the
      KVM log, nothing was copied. */
  lemma FailedDumpRefines(v: Vmm, live: bool, dirty: seq<Page>, q: nat, steps: seq<Step>)
    requires DumpOf(v, live, dirty, q, steps, false)
    ensures var all := Call(live, steps, DumpErr);
      && ValidRun(v, all)
      && Exec(v, all) == v.(mem := MemAfter(v.mem, steps), regs := RegsAfter(v.regs, steps), kvm := Written(steps),
                            bitmap := Pages(dirty))
      && forall img {:trigger ExecCopy(v, img, all)} :: ExecCopy(v, img, all) == img
  {
    FetchedAt(v, live, dirty, q, steps, false);
    FollowsRuns(Apply(v, Fetch(live)), steps, dirty, q, 0, {}, false);
    Bracket(v, live, steps, DumpErr);
  }

  // ---------------------------------------------------------------- what is captured

  lemma {:induction false} CaptureInside(mem: Image, steps: seq<Step>, dirty: seq<Page>, q: nat, i: nat, got: set<Loc>, l: Loc)
    requires i <= |dirty| && q <= |dirty| && Follows(mem.Keys, steps, dirty, q, i, got, true) && l in Capture(mem, steps)
    ensures l in mem && l.page in dirty[..q]
    decreases |steps|
  {
    var s, rest := steps[0], steps[1..];
    var mem' := if s.GuestWrite? then mem[s.loc := s.val] else mem;
    if l in Capture(mem', rest) {
      assert mem'.Keys == mem.Keys;
      CaptureInside(mem', rest, dirty, q, NextPage(s, i), NextGot(s, got), l);
    }
  }

  lemma {:induction false} CaptureReaches(mem: Image, steps: seq<Step>, dirty: seq<Page>, q: nat, i: nat, got: set<Loc>, l: Loc, j: nat)
    requires i <= |dirty| && q <= |dirty| && Follows(mem.Keys, steps, dirty, q, i, got, true)
    requires i <= j < q && l in mem && l.page == dirty[j]
    ensures l in Capture(mem, steps) || (j == i && l in got)
    decreases |steps|
  {
    if steps != [] {
      var s, rest := steps[0], steps[1..];
      if !(s.FinishPage? && j == i) {
        var mem' := if s.GuestWrite? then mem[s.loc := s.val] else mem;
        assert mem'.Keys == mem.Keys;
        CaptureReaches(mem', rest, dirty, q, NextPage(s, i), NextGot(s, got), l, j);
      }
    }
  }

  /** Exactly the words of the dumped pages are captured. */
  lemma CaptureIsDumped(v: Vmm, live: bool, dirty: seq<Page>, q: nat, steps: seq<Step>, l: Loc)
    requires DumpOf(v, live, dirty, q, steps, true)
    ensures l in Capture(v.mem, steps) <==> l in v.mem && l.page in dirty[..q]
  {
    if l in Capture(v.mem, steps) {
      CaptureInside(v.mem, steps, dirty, q, 0, {}, l);
    }
    if l in v.mem && l.page in dirty[..q] {
      var j :| 0 <= j < q && dirty[j] == l.page;
      CaptureReaches(v.mem, steps, dirty, q, 0, {}, l, j);
    }
  }

  lemma {:induction false} MemKeepsWord(mem: Image, steps: seq<Step>, l: Loc)
    requires l in mem
    ensures l in MemAfter(mem, steps) && (MemAfter(mem, steps)[l] == mem[l] || l.page in Written(steps))
    decreases |steps|
  {
    if steps != [] {
      MemKeepsWord(if steps[0].GuestWrite? then mem[steps[0].loc := steps[0].val] else mem, steps[1..], l);
    }
  }

  /** A captured word that is stale when the dump ends lies on a page in the KVM log. */
  lemma {:induction false} StaleIsWritten(mem: Image, steps: seq<Step>, l: Loc)
    requires l in Capture(mem, steps)
    ensures l in MemAfter(mem, steps) && (Capture(mem, steps)[l] == MemAfter(mem, steps)[l] || l.page in Written(steps))
    decreases |steps|
  {
    var s, rest := steps[0], steps[1..];
    var mem' := if s.GuestWrite? then mem[s.loc := s.val] else mem;
    if l in Capture(mem', rest) {
      StaleIsWritten(mem', rest, l);
    } else {
      MemKeepsWord(mem', rest, l);
    }
  }

  /** Without guest writes what is captured is memory. */
  lemma {:induction false} QuietCapture(mem: Image, steps: seq<Step>, l: Loc)
    requires Quiet(steps) && l in Capture(mem, steps)
    ensures l in mem && Capture(mem, steps)[l] == mem[l]
    decreases |steps|
  {
    assert !steps[0].GuestWrite? && Quiet(steps[1..]);
    if l in Capture(mem, steps[1..]) {
      QuietCapture(mem, steps[1..], l);
    }
  }

  lemma {:induction false} QuietKeeps(mem: Image, regs: int, steps: seq<Step>)
    requires Quiet(steps)
    ensures MemAfter(mem, steps) == mem && RegsAfter(regs, steps) == regs && Written(steps) == {}
    decreases |steps|
  {
    if steps != [] {
      assert !steps[0].GuestWrite? && Quiet(steps[1..]);
      QuietKeeps(mem, regs, steps[1..]);
    }
  }

  /** The final Diff: the dump of a paused VM is a run that changes no memory, clears both logs and copies memory on
      exactly the dirty pages. */
  lemma PausedDumpRefines(v: Vmm, dirty: seq<Page>, steps: seq<Step>)
    requires !v.running && DumpOf(v, false, dirty, |dirty|, steps, true)
    ensures var all := Call(false, steps, DumpOk);
      && ValidRun(v, all)
      && Exec(v, all) == v.(kvm := {}, bitmap := v.queues)
      && forall img {:trigger ExecCopy(v, img, all)} :: ExecCopy(v, img, all) == img + Restrict(v.mem, Pages(dirty))
  {
    DumpRefines(v, false, dirty, |dirty|, steps);
    QuietKeeps(v.mem, v.regs, steps);
    forall l ensures l in Capture(v.mem, steps) <==> l in Restrict(v.mem, Pages(dirty)) {
      CaptureIsDumped(v, false, dirty, |dirty|, steps, l);
      assert dirty[..|dirty|] == dirty;
    }
    forall l | l in Capture(v.mem, steps) ensures Capture(v.mem, steps)[l] == v.mem[l] {
      QuietCapture(v.mem, steps, l);
    }
    assert Capture(v.mem, steps) == Restrict(v.mem, Pages(dirty));
    assert Pages(dirty[|dirty|..]) + v.queues == v.queues;
  }

  // ---------------------------------------------------------------- the methods

  /** Every interleaving of this dump that gets to the end is a run that leaves this bitmap. */
  ghost predicate OkRuns(v: Vmm, live: bool, dirty: seq<Page>, q: nat, bitmap: set<Page>) {
    forall steps {:trigger DumpOf(v, live, dirty, q, steps, true)} :: DumpOf(v, live, dirty, q, steps, true) ==>
      ValidRun(v, Call(live, steps, DumpOk)) && Exec(v, Call(live, steps, DumpOk)).bitmap == bitmap
  }

  /** Every interleaving of this dump that fails somewhere is a run that leaves this bitmap. */
  ghost predicate ErrRuns(v: Vmm, live: bool, dirty: seq<Page>, bitmap: set<Page>) {
    forall q, steps {:trigger DumpOf(v, live, dirty, q, steps, false)} :: DumpOf(v, live, dirty, q, steps, false) ==>
      ValidRun(v, Call(live, steps, DumpErr)) && Exec(v, Call(live, steps, DumpErr)).bitmap == bitmap
  }

  lemma CodeOkRuns(v: Vmm, live: bool, dirty: seq<Page>, q: nat, left: set<Page>)
    requires q <= |dirty| && left == Pages(dirty[q..])
    ensures OkRuns(v, live, dirty, q, left + v.queues)
  {
    forall steps | DumpOf(v, live, dirty, q, steps, true)
      ensures ValidRun(v, Call(live, steps, DumpOk))
      ensures Exec(v, Call(live, steps, DumpOk)).bitmap == left + v.queues
    {
      DumpRefines(v, live, dirty, q, steps);
    }
  }

  lemma CodeErrRuns(v: Vmm, live: bool, dirty: seq<Page>, all: set<Page>)
    requires all == v.bitmap + v.kvm
    ensures ErrRuns(v, live, dirty, all)
  {
    forall q, steps | DumpOf(v, live, dirty, q, steps, false)
      ensures ValidRun(v, Call(live, steps, DumpErr)) && Exec(v, Call(live, steps, DumpErr)).bitmap == all
    {
      FailedDumpRefines(v, live, dirty, q, steps);
    }
  }

  /** The first q dirty pages were written, and every interleaving that does so leaves the bitmap left (the queue pages
      apart). */
  ghost predicate LiveWritten(v: Vmm, dirty: seq<Page>, q: int, before: seq<Page>, after: seq<Page>, left: set<Page>) {
    && 0 <= q <= |dirty| && after == before + dirty[..q]
    && Distinct(dirty) && Pages(dirty) == v.bitmap + v.kvm
    && OkRuns(v, true, dirty, q, left + v.queues)
  }

  lemma CodeLiveRuns(v: Vmm, dirty: seq<Page>, q: nat, before: seq<Page>, after: seq<Page>, left: set<Page>)
    requires q <= |dirty| && after == before + dirty[..q] && left == Pages(dirty[q..])
    requires Distinct(dirty) && Pages(dirty) == v.bitmap + v.kvm
    ensures LiveWritten(v, dirty, q, before, after, left)
  {
    CodeOkRuns(v, true, dirty, q, left);
  }

  /** dump_dirty_live on a memory whose bitmaps are those of v: whatever the guest writes meanwhile, the bitmap it leaves
      is that of the run, on success (the queue pages apart, which are marked again behind it) and on failure. */
  method LiveDumpRuns(m: GuestMemoryMmap, kvm: DirtyBitmap, pageSize: nat, maxBytes: Option<nat>, writer: PageWriter, ghost v: Vmm)
    returns (ok: bool)
    requires m.Valid() && pageSize > 0 && m.LogSized(kvm)
    requires Enabled(v, Fetch(true)) && v.bitmap == m.VmmPages() && v.kvm == m.KvmPages(kvm)
    modifies m, writer
    ensures ok <==> m.LogComplete(kvm) && old(writer.room) >= Need(|old(m.Dirty(kvm))|, pageSize, Some(ByteLimit(maxBytes)))
    ensures ok ==>
      LiveWritten(v, old(m.Dirty(kvm)), |writer.dumped| - |old(writer.dumped)|, old(writer.dumped), writer.dumped, m.VmmPages())
    ensures !ok ==> ErrRuns(v, true, old(m.Dirty(kvm)), m.VmmPages())
  {
    ghost var dirty, before := m.Dirty(kvm), writer.dumped;
    ok := m.DumpDirtyLive(kvm, pageSize, maxBytes, writer);
    ghost var after, left := writer.dumped, m.VmmPages();
    if ok {
      CodeLiveRuns(v, dirty, |after| - |before|, before, after, left);
    } else {
      CodeErrRuns(v, true, dirty, left);
    }
  }

  /** dump_dirty of a paused VM, the final Diff. */
  method PausedDumpRuns(m: GuestMemoryMmap, kvm: DirtyBitmap, pageSize: nat, writer: PageWriter, ghost v: Vmm) returns (ok: bool)
    requires m.Valid() && pageSize > 0 && m.LogSized(kvm)
    requires Enabled(v, Fetch(false)) && v.bitmap == m.VmmPages() && v.kvm == m.KvmPages(kvm)
    modifies m, writer
    ensures ok <==> m.LogComplete(kvm) && old(writer.room) >= |old(m.Dirty(kvm))|
    ensures ok ==>
      var dirty := old(m.Dirty(kvm));
      && writer.dumped == old(writer.dumped) + dirty && Pages(dirty) == v.bitmap + v.kvm
      && OkRuns(v, false, dirty, |dirty|, m.VmmPages() + v.queues)
    ensures !ok ==> ErrRuns(v, false, old(m.Dirty(kvm)), m.VmmPages())
  {
    ghost var dirty := m.Dirty(kvm);
    ok := m.DumpDirty(kvm, pageSize, writer);
    ghost var left := m.VmmPages();
    if ok {
      CodeOkRuns(v, false, dirty, |dirty|, left);
    } else {
      CodeErrRuns(v, false, dirty, left);
    }
  }

  // ---------------------------------------------------------------- schedules exist

  /** Reading the words todo of the current page, then finishing it and going on with rest. */
  lemma {:induction false} ReadAndGoOn(locs: set<Loc>, dirty: seq<Page>, q: nat, i: nat, got: set<Loc>, todo: set<Loc>, rest: seq<Step>)
    returns (steps: seq<Step>)
    requires i < q <= |dirty| && todo <= locs && (forall l :: l in todo ==> l.page == dirty[i])
    requires PageRead(locs, dirty[i], got + todo) && Follows(locs, rest, dirty, q, i + 1, {}, true) && Quiet(rest)
    ensures Follows(locs, steps, dirty, q, i, got, true) && Quiet(steps)
    decreases |todo|
  {
    if todo == {} {
      assert got + todo == got;
      steps := [FinishPage(dirty[i])] + rest;
      assert steps[1..] == rest;
    } else {
      var l :| l in todo;
      assert got + {l} + (todo - {l}) == got + todo;
      var more := ReadAndGoOn(locs, dirty, q, i, got + {l}, todo - {l}, rest);
      steps := [ReadWord(l)] + more;
      assert steps[1..] == more;
    }
  }

  /** For every dirty list and every cut the code has a schedule: the refinement is not empty. */
  lemma {:induction false} ScheduleExists(locs: set<Loc>, dirty: seq<Page>, q: nat, i: nat) returns (steps: seq<Step>)
    requires i <= |dirty| && q <= |dirty|
    ensures Follows(locs, steps, dirty, q, i, {}, true) && Quiet(steps)
    decreases |dirty| - i
  {
    if i == |dirty| {
      steps := [];
    } else {
      var rest := ScheduleExists(locs, dirty, q, i + 1);
      if i < q {
        var todo := set l | l in locs && l.page == dirty[i];
        steps := ReadAndGoOn(locs, dirty, q, i, {}, todo, rest);
      } else {
        steps := [OverBudget(dirty[i])] + rest;
        assert steps[1..] == rest;
      }
    }
  }
}
