/** Option type shared by the project. */
module Options {
  datatype Option<+T> = None | Some(value: T)
}

/** Guest memory at word granularity.

    A memory image maps every word location to its contents.  A capture (the data extents of a
    diff file) is a partial image; overlaying a capture on an image is map merge.
 */
module GuestMemory {
  datatype Page = Page(slot: nat, index: nat)
  datatype Loc = Loc(page: Page, word: nat)
  type Image = map<Loc, int>

  /** The copy img holds the current contents of word l. */
  ghost predicate Fresh(img: Image, mem: Image, l: Loc)
    requires l in mem
  {
    l in img && img[l] == mem[l]
  }

  /** All words of page p are present in img. */
  ghost predicate WholePage(img: Image, mem: Image, p: Page) {
    forall l :: l in mem && l.page == p ==> l in img
  }

  /** The part of mem that lies on the given pages. */
  ghost function Restrict(mem: Image, pages: set<Page>): Image {
    map l | l in mem && l.page in pages :: mem[l]
  }
}

/** The VMM's dirty-page bookkeeping as a labelled transition system.

    Guest (vCPU) writes are atomic per word and mark the KVM log.  Device-model writes run on the VMM
    thread, mark the VMM bitmap and therefore cannot interleave with a dump, which runs on the same thread.
    Virtio queue pages are written without a mark and are re-marked after every snapshot.  A dump fetches
    and clears the KVM log, then reads pages word by word while guest writes continue.
 */
module DirtyTracking {
  import opened Options
  import opened GuestMemory

  /** A dump in progress.
      fetched:  pages reported (and cleared) by the KVM log fetch
      todo:     dirty pages neither dumped nor put over budget so far
      leftover: pages put over budget
      capture:  words read so far */
  datatype Dump = Dump(live: bool, fetched: set<Page>, todo: set<Page>, leftover: set<Page>, capture: Image)

  datatype Vmm = Vmm(
    mem: Image,            // guest memory
    regs: int,             // vCPU and device state, opaque
    queues: set<Page>,     // virtio queue pages of activated devices
    kvm: set<Page>,        // KVM dirty log
    bitmap: set<Page>,     // VMM-internal dirty bitmap
    running: bool,         // vCPUs executing
    dump: Option<Dump>)

  datatype Step =
    | GuestWrite(loc: Loc, val: int, regs: int)
    | DeviceWrite(loc: Loc, val: int, regs: int)
    | QueueWrite(loc: Loc, val: int, regs: int)
    | Pause
    | Resume
    | Full                    // full snapshot of a paused VM
    | FullErr                 // full snapshot that fails before its bitmaps are reset
    | Fetch(live: bool)       // KVM_GET_DIRTY_LOG on every slot: the dump begins
    | FetchErr(lost: set<Page>) // the fetch fails after some slots' logs were cleared
    | ReadWord(loc: Loc)
    | FinishPage(page: Page)
    | OverBudget(page: Page)
    | DumpOk
    | DumpErr

  /** No snapshot call is going on. */
  ghost predicate Idle(v: Vmm) {
    v.dump.None?
  }

  ghost predicate AtRest(v: Vmm) {
    Idle(v) && !v.running
  }

  /** When a step can happen. */
  ghost predicate Enabled(v: Vmm, s: Step) {
    match s
    case GuestWrite(l, _, _) => v.running && l in v.mem
    case DeviceWrite(l, _, _) => Idle(v) && l in v.mem
    case QueueWrite(l, _, _) => Idle(v) && l in v.mem && l.page in v.queues
    case Pause => Idle(v)
    case Resume => Idle(v)
    case Full => AtRest(v)
    case FullErr => AtRest(v)
    case Fetch(live) => Idle(v) && (live || !v.running)
    case FetchErr(lost) => Idle(v)
    case ReadWord(l) => v.dump.Some? && l in v.mem && l.page in v.dump.value.todo
    case FinishPage(p) => v.dump.Some? && p in v.dump.value.todo && WholePage(v.dump.value.capture, v.mem, p)
    case OverBudget(p) => v.dump.Some? && p in v.dump.value.todo && v.dump.value.live
    case DumpOk => v.dump.Some? && v.dump.value.todo == {}
    case DumpErr => v.dump.Some?
  }

  ghost function Apply(v: Vmm, s: Step): Vmm
    requires Enabled(v, s)
  {
    match s
    case GuestWrite(l, x, r) => v.(mem := v.mem[l := x], regs := r, kvm := v.kvm + {l.page})
    case DeviceWrite(l, x, r) => v.(mem := v.mem[l := x], regs := r, bitmap := v.bitmap + {l.page})
    case QueueWrite(l, x, r) => v.(mem := v.mem[l := x], regs := r)
    case Pause => v.(running := false)
    case Resume => v.(running := true)
    case Full => v.(kvm := {}, bitmap := v.queues)
    case FullErr => v
    case Fetch(live) => v.(kvm := {}, dump := Some(Dump(live, v.kvm, v.kvm + v.bitmap, {}, map[])))
    case FetchErr(lost) => v.(kvm := v.kvm - lost)
    case ReadWord(l) => v.(dump := Some(v.dump.value.(capture := v.dump.value.capture[l := v.mem[l]])))
    case FinishPage(p) => v.(dump := Some(v.dump.value.(todo := v.dump.value.todo - {p})))
    case OverBudget(p) =>
      v.(dump := Some(v.dump.value.(todo := v.dump.value.todo - {p}, leftover := v.dump.value.leftover + {p})))
    case DumpOk => v.(bitmap := v.dump.value.leftover + v.queues, dump := None)
    case DumpErr => v.(bitmap := v.bitmap + v.dump.value.fetched, dump := None)
  }

  /** The copy of memory that exists outside the source after step s: a successful full snapshot
      replaces it, a successful dump overlays its capture, anything else leaves it alone. */
  ghost function Copied(v: Vmm, img: Image, s: Step): Image
    requires Enabled(v, s)
  {
    match s
    case Full => v.mem
    case DumpOk => img + v.dump.value.capture
    case _ => img
  }

  // ---------------------------------------------------------------- the coverage invariant

  /** Outside a dump: every word whose outside copy is stale lies on a marked page. */
  ghost predicate CoveredIdle(v: Vmm, img: Image) {
    forall l :: l in v.mem ==> l.page in v.kvm || l.page in v.bitmap || Fresh(img, v.mem, l)
  }

  /** During a dump, if it succeeds: stale words lie on pages that are logged again, not yet dumped, or
      over budget.  The VMM bitmap does not count, because success resets it. */
  ghost predicate CoveredOnSuccess(v: Vmm, img: Image, d: Dump) {
    forall l :: l in v.mem ==>
      l.page in v.kvm || l.page in d.todo || l.page in d.leftover || Fresh(img + d.capture, v.mem, l)
  }

  /** During a dump, if it fails: the capture is thrown away, the bitmap and the fetched log are merged. */
  ghost predicate CoveredOnFailure(v: Vmm, img: Image, d: Dump) {
    forall l :: l in v.mem ==>
      l.page in v.kvm || l.page in v.bitmap || l.page in d.fetched || Fresh(img, v.mem, l)
  }

  /** A word read for the capture that the guest changed afterwards (a tear) is logged again. */
  ghost predicate TearsLogged(v: Vmm, d: Dump) {
    forall l :: l in d.capture ==> l in v.mem && (l.page in v.kvm || d.capture[l] == v.mem[l])
  }

  /** A dump of a paused VM sees no guest writes and has no budget. */
  ghost predicate PausedDumpQuiet(v: Vmm, d: Dump) {
    !d.live ==> !v.running && v.kvm == {} && d.leftover == {}
  }

  /** Facts about the VMM alone. */
  ghost predicate Wf(v: Vmm) {
    && v.queues <= v.bitmap
    && (v.dump.Some? ==> TearsLogged(v, v.dump.value) && PausedDumpQuiet(v, v.dump.value))
  }

  ghost predicate Covered(v: Vmm, img: Image)
  {
    && Wf(v)
    && img.Keys == v.mem.Keys
    && (v.dump.None? ==> CoveredIdle(v, img))
    && (v.dump.Some? ==> CoveredOnSuccess(v, img, v.dump.value) && CoveredOnFailure(v, img, v.dump.value))
  }

  lemma WfStep(v: Vmm, s: Step)
    requires Wf(v) && Enabled(v, s)
    ensures Wf(Apply(v, s))
    ensures Apply(v, s).mem.Keys == v.mem.Keys
    ensures Apply(v, s).queues == v.queues
  {
  }

  /** Every step keeps coverage, torn reads, over-budget pages and failed dumps included.  The one
      exception is a log fetch that fails half way, which really loses marks. */
  lemma CoverageStep(v: Vmm, img: Image, s: Step)
    requires Covered(v, img) && Enabled(v, s) && !s.FetchErr?
    ensures Covered(Apply(v, s), Copied(v, img, s))
  {
    WfStep(v, s);
    var v' := Apply(v, s);
    var img' := Copied(v, img, s);
    match s
    case FinishPage(p) =>
      var d' := v'.dump.value;
      forall l | l in v'.mem
        ensures l.page in v'.kvm || l.page in d'.todo || l.page in d'.leftover || Fresh(img + d'.capture, v'.mem, l)
      {
        if l.page == p {
          assert l in d'.capture;
        }
      }
    case ReadWord(l0) =>
    case DumpOk =>
    case _ =>
  }

  /** After a full snapshot the snapshot itself covers memory, whatever the marks said before. */
  lemma FullCovers(v: Vmm)
    requires Wf(v) && Enabled(v, Full)
    ensures Covered(Apply(v, Full), v.mem)
  {
  }

  /** A completed dump of a paused VM leaves an outside copy identical to memory. */
  lemma PausedDumpIsExact(v: Vmm, img: Image)
    requires Covered(v, img) && Enabled(v, DumpOk) && !v.dump.value.live
    ensures Copied(v, img, DumpOk) == v.mem
  {
    var img' := Copied(v, img, DumpOk);
    assert img'.Keys == v.mem.Keys;
    assert forall l :: l in v.mem ==> img'[l] == v.mem[l];
  }

  // ---------------------------------------------------------------- whole runs

  ghost predicate ValidRun(v: Vmm, steps: seq<Step>)
    decreases |steps|
  {
    steps != [] ==> Enabled(v, steps[0]) && ValidRun(Apply(v, steps[0]), steps[1..])
  }

  ghost function Exec(v: Vmm, steps: seq<Step>): Vmm
    requires ValidRun(v, steps)
    decreases |steps|
  {
    if steps == [] then v else Exec(Apply(v, steps[0]), steps[1..])
  }

  ghost function ExecCopy(v: Vmm, img: Image, steps: seq<Step>): Image
    requires ValidRun(v, steps)
    decreases |steps|
  {
    if steps == [] then img else ExecCopy(Apply(v, steps[0]), Copied(v, img, steps[0]), steps[1..])
  }

  /** Coverage over every interleaving of guest writes, device writes, torn reads, budget splits,
      failed dumps and completed dumps. */
  lemma {:induction false} CoverageRun(v: Vmm, img: Image, steps: seq<Step>)
    requires Covered(v, img) && ValidRun(v, steps)
    requires forall i :: 0 <= i < |steps| ==> !steps[i].FetchErr?
    ensures Covered(Exec(v, steps), ExecCopy(v, img, steps))
    decreases |steps|
  {
    if steps != [] {
      CoverageStep(v, img, steps[0]);
      CoverageRun(Apply(v, steps[0]), Copied(v, img, steps[0]), steps[1..]);
    }
  }

  /** A log fetch that fails half way keeps coverage if and only if no lost page holds a stale word that is not marked
      in the VMM bitmap. */
  lemma FetchErrExact(v: Vmm, img: Image, lost: set<Page>)
    requires Covered(v, img) && Enabled(v, FetchErr(lost))
    ensures Covered(Apply(v, FetchErr(lost)), img) <==>
      forall l :: l in v.mem && l.page in lost && l.page !in v.bitmap ==> Fresh(img, v.mem, l)
  {
  }

  lemma {:induction false} WfRun(v: Vmm, steps: seq<Step>)
    requires Wf(v) && ValidRun(v, steps)
    ensures Wf(Exec(v, steps))
    decreases |steps|
  {
    if steps != [] {
      WfStep(v, steps[0]);
      WfRun(Apply(v, steps[0]), steps[1..]);
    }
  }

  /** Whatever happened before, failed fetches included, a full snapshot restores coverage, and it is kept from there until
      a fetch fails half way. */
  lemma CoverageFromFull(v: Vmm, img: Image, before: seq<Step>, after: seq<Step>)
    requires Wf(v) && ValidRun(v, before + [Full] + after)
    requires forall i :: 0 <= i < |after| ==> !after[i].FetchErr?
    ensures Covered(Exec(v, before + [Full] + after), ExecCopy(v, img, before + [Full] + after))
  {
    var rest := [Full] + after;
    assert before + [Full] + after == before + rest && rest[1..] == after;
    RunSplits(v, before, rest);
    WfRun(v, before);
    var w := Exec(v, before);
    FullCovers(w);
    CoverageRun(Apply(w, Full), w.mem, after);
    ExecConcat(v, before, rest);
    ExecCopyConcat(v, img, before, rest);
  }

  lemma {:induction false} RunSplits(v: Vmm, xs: seq<Step>, ys: seq<Step>)
    requires ValidRun(v, xs + ys)
    ensures ValidRun(v, xs) && ValidRun(Exec(v, xs), ys)
    decreases |xs|
  {
    if xs == [] {
      assert xs + ys == ys;
    } else {
      assert (xs + ys)[0] == xs[0] && (xs + ys)[1..] == xs[1..] + ys;
      RunSplits(Apply(v, xs[0]), xs[1..], ys);
    }
  }

  lemma {:induction false} ExecConcat(v: Vmm, xs: seq<Step>, ys: seq<Step>)
    requires ValidRun(v, xs) && ValidRun(Exec(v, xs), ys)
    ensures ValidRun(v, xs + ys)
    ensures Exec(v, xs + ys) == Exec(Exec(v, xs), ys)
    decreases |xs|
  {
    if xs == [] {
      assert xs + ys == ys;
    } else {
      assert (xs + ys)[0] == xs[0] && (xs + ys)[1..] == xs[1..] + ys;
      ExecConcat(Apply(v, xs[0]), xs[1..], ys);
    }
  }

  // ---------------------------------------------------------------- how one dump splits the dirty set

  /** Steps that can happen between the log fetch and the end of the dump. */
  predicate InsideDump(s: Step) {
    s.GuestWrite? || s.ReadWord? || s.FinishPage? || s.OverBudget?
  }

  ghost function Finished(steps: seq<Step>): set<Page> {
    set i | 0 <= i < |steps| && steps[i].FinishPage? :: steps[i].page
  }

  ghost function Skipped(steps: seq<Step>): set<Page> {
    set i | 0 <= i < |steps| && steps[i].OverBudget? :: steps[i].page
  }

  lemma SplitCons(steps: seq<Step>)
    requires steps != []
    ensures Finished(steps) == Finished(steps[1..]) + (if steps[0].FinishPage? then {steps[0].page} else {})
    ensures Skipped(steps) == Skipped(steps[1..]) + (if steps[0].OverBudget? then {steps[0].page} else {})
  {
    assert forall i :: 1 <= i < |steps| ==> steps[i] == steps[1..][i - 1];
    forall p | p in Finished(steps)
      ensures p in Finished(steps[1..]) + (if steps[0].FinishPage? then {steps[0].page} else {})
    {
      var i :| 0 <= i < |steps| && steps[i].FinishPage? && steps[i].page == p;
      if i > 0 { assert steps[1..][i - 1] == steps[i]; }
    }
    forall p | p in Skipped(steps)
      ensures p in Skipped(steps[1..]) + (if steps[0].OverBudget? then {steps[0].page} else {})
    {
      var i :| 0 <= i < |steps| && steps[i].OverBudget? && steps[i].page == p;
      if i > 0 { assert steps[1..][i - 1] == steps[i]; }
    }
    forall p | p in Finished(steps[1..]) ensures p in Finished(steps) {
      var i :| 0 <= i < |steps[1..]| && steps[1..][i].FinishPage? && steps[1..][i].page == p;
      assert steps[i + 1] == steps[1..][i];
    }
    forall p | p in Skipped(steps[1..]) ensures p in Skipped(steps) {
      var i :| 0 <= i < |steps[1..]| && steps[1..][i].OverBudget? && steps[1..][i].page == p;
      assert steps[i + 1] == steps[1..][i];
    }
  }

  /** Whatever the interleaving, the pages finished and the pages put over budget are disjoint, come out
      of todo, and nothing else does. */
  lemma {:induction false} DumpAccounting(v: Vmm, steps: seq<Step>)
    requires v.dump.Some? && ValidRun(v, steps)
    requires forall i :: 0 <= i < |steps| ==> InsideDump(steps[i])
    ensures Exec(v, steps).dump.Some?
    ensures var d, d' := v.dump.value, Exec(v, steps).dump.value;
      && d'.live == d.live && d'.fetched == d.fetched
      && Finished(steps) !! Skipped(steps)
      && Finished(steps) + Skipped(steps) <= d.todo
      && d'.todo == d.todo - Finished(steps) - Skipped(steps)
      && d'.leftover == d.leftover + Skipped(steps)
    ensures Exec(v, steps).bitmap == v.bitmap && Exec(v, steps).queues == v.queues
    decreases |steps|
  {
    if steps != [] {
      SplitCons(steps);
      DumpAccounting(Apply(v, steps[0]), steps[1..]);
    }
  }

  lemma {:induction false} ExecCopyConcat(v: Vmm, img: Image, xs: seq<Step>, ys: seq<Step>)
    requires ValidRun(v, xs) && ValidRun(Exec(v, xs), ys)
    ensures ValidRun(v, xs + ys)
    ensures ExecCopy(v, img, xs + ys) == ExecCopy(Exec(v, xs), ExecCopy(v, img, xs), ys)
    decreases |xs|
  {
    if xs == [] {
      assert xs + ys == ys;
    } else {
      assert (xs + ys)[0] == xs[0] && (xs + ys)[1..] == xs[1..] + ys;
      ExecCopyConcat(Apply(v, xs[0]), Copied(v, img, xs[0]), xs[1..], ys);
    }
  }

  /** Inside a dump nothing is copied out; the copy changes when the dump succeeds. */
  lemma {:induction false} InsideDumpCopiesNothing(v: Vmm, img: Image, steps: seq<Step>)
    requires ValidRun(v, steps)
    requires forall i :: 0 <= i < |steps| ==> InsideDump(steps[i])
    ensures ExecCopy(v, img, steps) == img
    decreases |steps|
  {
    if steps != [] {
      InsideDumpCopiesNothing(Apply(v, steps[0]), img, steps[1..]);
    }
  }

  /** A whole dump call, from fetch to return: the dirty set (KVM log and VMM bitmap together) is split
      exactly into dumped pages and pages over budget, and the bitmap afterwards holds exactly the latter
      plus the queue pages, or, if the dump failed, everything that was dirty before. */
  lemma DumpCallSplits(v: Vmm, live: bool, steps: seq<Step>)
    requires Enabled(v, Fetch(live)) && ValidRun(Apply(v, Fetch(live)), steps)
    requires forall i :: 0 <= i < |steps| ==> InsideDump(steps[i])
    ensures var w := Exec(Apply(v, Fetch(live)), steps);
      && (Enabled(w, DumpOk) ==>
            && Finished(steps) + Skipped(steps) == v.kvm + v.bitmap
            && Finished(steps) !! Skipped(steps)
            && Apply(w, DumpOk).bitmap == Skipped(steps) + v.queues)
      && Enabled(w, DumpErr)
      && Apply(w, DumpErr).bitmap == v.kvm + v.bitmap
  {
    DumpAccounting(Apply(v, Fetch(live)), steps);
  }
}
