/** Theorems about every run of the migration protocol. */
module MigrationTheorems {
  import opened Options
  import opened GuestMemory
  import DT = DirtyTracking
  import opened Migration
  import opened MigrationSafety

  // ---------------------------------------------------------------- every run keeps the data invariant

  /** In every run, boots, migrations in both directions, aborts, resyncs, crashes and lost replies
      included, every world satisfies the data invariant. */
  lemma {:induction false} RunKeepsData(ws: seq<World>, es: seq<Event>, k: nat)
    requires Run(ws, es) && k < |ws|
    ensures DataInv(ws[k])
  {
    if k > 0 {
      assert StepAt(ws, es, k - 1);
      RunKeepsData(ws, es, k - 1);
      match es[k - 1]
      case Env(e) => EnvKeepsData(ws[k - 1], e);
      case Drive(e) => DriverKeepsData(ws[k - 1], e);
    }
  }

  /** A running VM that does not need a resync differs from its base image only on marked pages, so the
      next migration may start from that image. */
  lemma BaseImageIsTracked(ws: seq<World>, es: seq<Event>, k: nat, h: HostId)
    requires Run(ws, es) && k < |ws|
    requires ws[k].At(h).InState(Running) && ws[k].At(h).proc.Live? && !ws[k].At(h).slot.value.needsResync
    ensures ws[k].At(h).slot.value.base != NoBase
    ensures DT.Covered(ws[k].At(h).proc.vmm, ws[k].At(h).BaseImage())
    ensures forall l :: l in ws[k].At(h).proc.vmm.mem ==>
      var v := ws[k].At(h).proc.vmm;
      l.page in v.kvm || l.page in v.bitmap || Fresh(ws[k].At(h).BaseImage(), v.mem, l)
  {
    RunKeepsData(ws, es, k);
  }

  // ---------------------------------------------------------------- end to end

  /** After the final dump of this migration: the phase remembers what was captured. */
  ghost predicate AfterFinal(ph: Phase, snap: Image, saved: VmState) {
    || (ph.FinalShip? && ph.snap == snap && ph.saved == saved)
    || (ph.StateDue? && ph.snap == snap && ph.saved == saved)
    || (ph.LoadDue? && ph.snap == snap && ph.saved == saved)
    || ph.Loaded? || ph.Committed? || ph.Failing? || ph.AbortSent?
  }

  lemma AfterFinalStays(w: World, e: Event, snap: Image, saved: VmState)
    requires CanHappen(w, e) && w.driver.Some? && AfterFinal(w.driver.value.phase, snap, saved)
    ensures var w' := Happen(w, e);
      w'.driver.Some? ==> w'.Src() == w.Src() && AfterFinal(w'.driver.value.phase, snap, saved)
  {
  }

  lemma {:induction false} AfterFinalRun(ws: seq<World>, es: seq<Event>, i: nat, k: nat, snap: Image, saved: VmState)
    requires Run(ws, es) && i <= k < |ws|
    requires forall n :: i <= n <= k ==> ws[n].driver.Some?
    requires AfterFinal(ws[i].driver.value.phase, snap, saved)
    ensures ws[k].Src() == ws[i].Src() && AfterFinal(ws[k].driver.value.phase, snap, saved)
    decreases k
  {
    if k > i {
      assert StepAt(ws, es, k - 1);
      AfterFinalRun(ws, es, i, k - 1, snap, saved);
      AfterFinalStays(ws[k - 1], es[k - 1], snap, saved);
    }
  }

  lemma FinalDumpIsRemembered(w: World)
    requires DataInv(w) && w.driver.Some? && w.driver.value.phase.Dumping? && w.driver.value.phase.final
    requires DriverCan(w, DumpDone)
    ensures var v := w.At(w.Src()).proc.vmm;
      var w' := DriverStep(w, DumpDone);
      && w'.driver.Some? && w'.Src() == w.Src()
      && AfterFinal(w'.driver.value.phase, v.mem, VmState(v.regs, v.queues))
  {
  }

  lemma LoadRestores(w: World, snap: Image, saved: VmState)
    requires DataInv(w) && w.driver.Some? && DriverCan(w, Load) && AfterFinal(w.driver.value.phase, snap, saved)
    ensures DriverStep(w, Load).At(w.Dst()).proc == Live(DT.Vmm(snap, saved.regs, saved.queues, {}, saved.queues, true, None))
  {
  }

  /** The final paused Diff of a migration completes at step i; at step j the target loads.  Then the
      machine the target starts is the source machine as of step i: every word of memory, the vCPU and
      device state, the queue placement. */
  lemma TargetLoadsSourceMemory(ws: seq<World>, es: seq<Event>, i: nat, j: nat)
    requires Run(ws, es) && i < j < |es|
    requires ws[i].driver.Some? && ws[i].driver.value.phase.Dumping? && ws[i].driver.value.phase.final
    requires es[i] == Drive(DumpDone) && es[j] == Drive(Load)
    requires forall n :: i < n <= j ==> ws[n].driver.Some?   // the same migration
    ensures ws[i].At(ws[i].Src()).proc.Live?
    ensures var src, dst := ws[i].At(ws[i].Src()), ws[j + 1].At(ws[i].Dst());
      && dst.VcpusRun()
      && dst.proc.vmm.mem == src.proc.vmm.mem
      && dst.proc.vmm.regs == src.proc.vmm.regs
      && dst.proc.vmm.queues == src.proc.vmm.queues
  {
    assert StepAt(ws, es, i) && StepAt(ws, es, j);
    RunKeepsData(ws, es, i);
    RunKeepsData(ws, es, j);
    var v := ws[i].At(ws[i].Src()).proc.vmm;
    FinalDumpIsRemembered(ws[i]);
    AfterFinalRun(ws, es, i + 1, j, v.mem, VmState(v.regs, v.queues));
    LoadRestores(ws[j], v.mem, VmState(v.regs, v.queues));
  }

  /** Phases behind the final dump of a migration that has not failed. */
  predicate BehindFinal(ph: Phase) {
    ph.FinalShip? || ph.StateDue? || ph.LoadDue? || ph.Loaded? || ph.Committed?
  }

  lemma BeforeBehindFinal(w: World, e: Event)
    requires CanHappen(w, e) && Happen(w, e).driver.Some? && BehindFinal(Happen(w, e).driver.value.phase)
    ensures w.driver.Some? && w.Src() == Happen(w, e).Src()
    ensures BehindFinal(w.driver.value.phase) ||
      (e == Drive(DumpDone) && w.driver.value.phase.Dumping? && w.driver.value.phase.final)
  {
    match e
    case Env(x) => EnvKeepsPhase(w, x);
    case Drive(x) =>
      if BasePhase(x) || RollbackPhase(x) {
        EarlyOrFailed(w, x);
      } else if RoundPhase(x) {
        RoundsLeadTo(w, x);
      }
  }

  /** No environment event moves a migration on; only Migrate starts one. */
  lemma EnvKeepsPhase(w: World, e: EnvEvent)
    requires EnvCan(w, e) && EnvStep(w, e).driver.Some? && !EnvStep(w, e).driver.value.phase.Starting?
    ensures w.driver == EnvStep(w, e).driver
  {
  }

  lemma EarlyOrFailed(w: World, e: DriverEvent)
    requires w.driver.Some? && DriverCan(w, e) && (BasePhase(e) || RollbackPhase(e))
    ensures DriverStep(w, e).driver.Some? ==> !BehindFinal(DriverStep(w, e).driver.value.phase)
  {
  }

  lemma RoundsLeadTo(w: World, e: DriverEvent)
    requires w.driver.Some? && DriverCan(w, e) && RoundPhase(e)
    ensures DriverStep(w, e).driver.Some? && DriverStep(w, e).Src() == w.Src()
    ensures BehindFinal(DriverStep(w, e).driver.value.phase) ==>
      e.DumpDone? && w.driver.value.phase.Dumping? && w.driver.value.phase.final
  {
  }

  lemma BeforeLoaded(w: World, e: Event)
    requires CanHappen(w, e) && Happen(w, e).driver.Some?
    requires Happen(w, e).driver.value.phase.Loaded? || Happen(w, e).driver.value.phase.Committed?
    ensures w.driver.Some? && w.Src() == Happen(w, e).Src()
    ensures w.driver.value.phase.Loaded? || w.driver.value.phase.Committed? || e == Drive(Load)
  {
  }

  ghost predicate In(w: World, behind: Phase -> bool) {
    w.driver.Some? && behind(w.driver.value.phase)
  }

  predicate BehindLoad(ph: Phase) {
    ph.Loaded? || ph.Committed?
  }

  ghost predicate FinalDumpAt(w: World, e: Event) {
    w.driver.Some? && w.driver.value.phase.Dumping? && w.driver.value.phase.final && e == Drive(DumpDone)
  }

  /** How a step leads behind the final dump, and behind the load. */
  ghost predicate Link(ws: seq<World>, es: seq<Event>, i: nat) {
    && i < |es| && |ws| == |es| + 1
    && (In(ws[i + 1], BehindFinal) ==>
          ws[i].driver.Some? && ws[i].Src() == ws[i + 1].Src() && (In(ws[i], BehindFinal) || FinalDumpAt(ws[i], es[i])))
    && (In(ws[i + 1], BehindLoad) ==> In(ws[i], BehindLoad) || es[i] == Drive(Load))
  }

  ghost predicate Linked(ws: seq<World>, es: seq<Event>) {
    |ws| == |es| + 1 && ws[0].driver.None? && forall i: nat {:trigger Link(ws, es, i)} :: i < |es| ==> Link(ws, es, i)
  }

  lemma RunIsLinked(ws: seq<World>, es: seq<Event>)
    requires Run(ws, es)
    ensures Linked(ws, es)
  {
    forall i: nat | i < |es| ensures Link(ws, es, i) {
      assert StepAt(ws, es, i);
      if In(ws[i + 1], BehindFinal) {
        BeforeBehindFinal(ws[i], es[i]);
      }
      if In(ws[i + 1], BehindLoad) {
        BeforeLoaded(ws[i], es[i]);
      }
    }
  }

  /** A migration behind its final dump had one. */
  lemma {:induction false} FindFinalDump(ws: seq<World>, es: seq<Event>, k: nat) returns (i: nat)
    requires Linked(ws, es) && k < |ws| && In(ws[k], BehindFinal)
    ensures i < k && FinalDumpAt(ws[i], es[i]) && forall n :: i <= n <= k ==> ws[n].driver.Some? && ws[n].Src() == ws[k].Src()
    decreases k
  {
    assert Link(ws, es, k - 1);
    if In(ws[k - 1], BehindFinal) {
      i := FindFinalDump(ws, es, k - 1);
    } else {
      i := k - 1;
    }
  }

  /** A migration behind its load had one. */
  lemma {:induction false} FindLoad(ws: seq<World>, es: seq<Event>, k: nat) returns (j: nat)
    requires Linked(ws, es) && k < |ws| && In(ws[k], BehindLoad)
    ensures j < k && es[j] == Drive(Load) && forall n :: j <= n <= k ==> ws[n].driver.Some? && ws[n].Src() == ws[k].Src()
    decreases k
  {
    assert Link(ws, es, k - 1);
    if es[k - 1] == Drive(Load) {
      j := k - 1;
    } else {
      j := FindLoad(ws, es, k - 1);
    }
  }

  /** If migrate succeeds at step k, then its final paused Diff completed at some step i, the target loaded at some
      later step j, and the machine started there is the source machine as of step i. */
  lemma SuccessMovesTheMachine(ws: seq<World>, es: seq<Event>, k: nat) returns (i: nat, j: nat)
    requires Run(ws, es) && k < |es| && es[k] == Drive(Reply)
    ensures i < j < k && es[i] == Drive(DumpDone) && es[j] == Drive(Load)
    ensures ws[i].driver.Some? && ws[i].At(ws[i].Src()).proc.Live? && ws[k].driver.Some? && ws[i].Src() == ws[k].Src()
    ensures var src, dst := ws[i].At(ws[i].Src()), ws[j + 1].At(ws[i].Dst());
      && dst.VcpusRun()
      && dst.proc.vmm.mem == src.proc.vmm.mem
      && dst.proc.vmm.regs == src.proc.vmm.regs
      && dst.proc.vmm.queues == src.proc.vmm.queues
  {
    RunIsLinked(ws, es);
    assert StepAt(ws, es, k);
    assert In(ws[k], BehindLoad);
    j := FindLoad(ws, es, k);
    assert StepAt(ws, es, j);
    assert In(ws[j], BehindFinal);
    i := FindFinalDump(ws, es, j);
    TargetLoadsSourceMemory(ws, es, i, j);
  }
}
