/** Exclusive execution and how migrations end, over every run. */
module MigrationExclusion {
  import opened Options
  import opened GuestMemory
  import DT = DirtyTracking
  import opened Migration
  import opened MigrationSafety
  import opened MigrationTheorems

  // ---------------------------------------------------------------- the invariant

  /** Phases in which the source is paused for good. */
  predicate SourceHeld(ph: Phase) {
    || ph.FinalPaused? || (ph.Dumping? && ph.final) || ph.FinalShip? || ph.StateDue? || ph.LoadDue?
    || ph.Loaded? || ph.Committed? || (ph.Failing? && ph.loaded)
  }

  /** Phases in which the target may hold a live machine beside the source's. */
  predicate Handover(ph: Phase) {
    ph.Loaded? || ph.Committed? || (ph.Failing? && ph.loaded)
  }

  /** Phases in which prepare has taken effect and the load has not, or was undone. */
  predicate TargetIdle(ph: Phase) {
    if ph.Failing? then ph.prepared && !ph.loaded
    else if ph.AbortSent? then ph.prepared
    else !ph.Starting? && !ph.Loaded? && !ph.Committed?
  }

  ghost predicate Idle(host: Host) {
    (host.slot.None? || host.InState(Receiving)) ==> !host.proc.Live?
  }

  /** What holds of source and target in phase ph. */
  ghost predicate ExclPair(src: Host, dst: Host, ph: Phase) {
    && (src.slot.Some? ==> src.slot.value.state == Migrating)
    && (src.slot.None? ==> !src.proc.Live?) && (dst.slot.None? ==> !dst.proc.Live?)
    && (ph.Failing? && ph.loaded ==> ph.prepared)
    && (!Handover(ph) ==> !(src.proc.Live? && dst.proc.Live?) && Idle(dst))
    && (SourceHeld(ph) && src.proc.Live? ==> !src.proc.vmm.running)
    && (TargetIdle(ph) ==> !dst.proc.Live?)
    && (Handover(ph) && dst.proc.Live? ==> dst.proc.vmm.running)
    && (Handover(ph) && dst.slot.Some? ==> dst.slot.value.state == if ph.Committed? then Running else Receiving)
  }

  ghost predicate ExclInv(w: World) {
    if w.driver.None? then Idle(w.a) && Idle(w.b) && !(w.a.proc.Live? && w.b.proc.Live?)
    else ExclPair(w.At(w.Src()), w.At(w.Dst()), w.driver.value.phase)
  }

  ghost predicate Exclusive(w: World) {
    !(w.a.VcpusRun() && w.b.VcpusRun())
  }

  /** The two ways to lose track of a machine that runs on the target: the reply to a committed finalize is lost, or, after
      a load that was reported as failed, the abort does not reach the target. */
  ghost predicate Lossy(w: World, e: Event) {
    || e == Drive(LoseReply)
    || (e == Drive(AbortRpc(false)) && w.driver.Some? && w.driver.value.phase.Failing? && w.driver.value.phase.loaded)
  }

  lemma WriteKeepsExcl(w: World, h: HostId, s: DT.Step)
    requires ExclInv(w) && EnvCan(w, Write(h, s))
    ensures ExclInv(EnvStep(w, Write(h, s)))
  {
  }

  lemma FaultKeepsExcl(w: World, e: EnvEvent)
    requires ExclInv(w) && EnvCan(w, e) && (e.Crash? || e.Delete? || e.Migrate?)
    ensures ExclInv(EnvStep(w, e))
  {
  }

  lemma BootKeepsExcl(w: World, e: EnvEvent)
    requires ExclInv(w) && EnvCan(w, e) && !e.Write? && !e.Crash? && !e.Delete? && !e.Migrate?
    ensures ExclInv(EnvStep(w, e))
  {
  }

  lemma PrepareKeepsExcl(w: World, e: DriverEvent)
    requires ExclInv(w) && w.driver.Some? && DriverCan(w, e)
    requires e.PrepareRpc? || e.SkipResync? || e.ShipBase?
    ensures ExclInv(DriverStep(w, e))
  {
  }

  lemma ResyncKeepsExcl(w: World, e: DriverEvent)
    requires ExclInv(w) && w.driver.Some? && DriverCan(w, e)
    requires e.ResyncPause? || e.ResyncSnapshot? || e.ResyncResume?
    ensures ExclInv(DriverStep(w, e))
  {
  }

  lemma DumpKeepsExcl(w: World, e: DriverEvent)
    requires ExclInv(w) && w.driver.Some? && DriverCan(w, e)
    requires e.DumpStep? || e.DumpDone? || e.DumpFails? || e.FetchFails?
    ensures ExclInv(DriverStep(w, e))
  {
  }

  lemma RoundKeepsExcl(w: World, e: DriverEvent)
    requires ExclInv(w) && w.driver.Some? && DriverCan(w, e)
    requires e.RoundPause? || e.RoundFetch? || e.RoundResume?
    ensures ExclInv(DriverStep(w, e))
  {
  }

  lemma RoundShipKeepsExcl(w: World, e: DriverEvent)
    requires ExclInv(w) && w.driver.Some? && DriverCan(w, e)
    requires e.ShipRound? || e.ExitLoop? || e.FinalPause? || e.FinalFetch?
    ensures ExclInv(DriverStep(w, e))
  {
  }

  lemma FinalShipKeepsExcl(w: World, e: DriverEvent)
    requires ExclInv(w) && w.driver.Some? && DriverCan(w, e)
    requires e.ShipFinal? || e.ShipState? || e.ShipFails?
    ensures ExclInv(DriverStep(w, e))
  {
  }

  lemma HandoverKeepsExcl(w: World, e: DriverEvent)
    requires ExclInv(w) && w.driver.Some? && DriverCan(w, e)
    requires e.Load? || e.LoadReportedFailed? || e.Commit? || e.Reply?
    ensures ExclInv(DriverStep(w, e))
  {
  }

  lemma FailKeepsExcl(w: World, e: DriverEvent)
    requires ExclInv(w) && w.driver.Some? && DriverCan(w, e)
    requires e.Fail? || e.Rollback?
    ensures ExclInv(DriverStep(w, e))
  {
  }

  lemma AbortKeepsExcl(w: World, e: DriverEvent)
    requires ExclInv(w) && w.driver.Some? && DriverCan(w, e)
    requires e.AbortRpc? && !Lossy(w, Drive(e))
    ensures ExclInv(DriverStep(w, e))
  {
  }

  lemma EnvKeepsExcl(w: World, e: EnvEvent)
    requires ExclInv(w) && EnvCan(w, e)
    ensures ExclInv(EnvStep(w, e))
  {
    if e.Write? {
      WriteKeepsExcl(w, e.h, e.step);
    } else if e.Crash? || e.Delete? || e.Migrate? {
      FaultKeepsExcl(w, e);
    } else {
      BootKeepsExcl(w, e);
    }
  }

  lemma EarlyKeepsExcl(w: World, e: DriverEvent)
    requires ExclInv(w) && w.driver.Some? && DriverCan(w, e)
    requires BasePhase(e) || RoundPhase(e)
    ensures ExclInv(DriverStep(w, e))
  {
    if e.PrepareRpc? || e.SkipResync? || e.ShipBase? {
      PrepareKeepsExcl(w, e);
    } else if BasePhase(e) {
      ResyncKeepsExcl(w, e);
    } else if e.RoundPause? || e.RoundFetch? || e.RoundResume? {
      RoundKeepsExcl(w, e);
    } else if e.ShipRound? || e.ExitLoop? {
      RoundShipKeepsExcl(w, e);
    } else {
      DumpKeepsExcl(w, e);
    }
  }

  lemma LateKeepsExcl(w: World, e: DriverEvent)
    requires ExclInv(w) && w.driver.Some? && DriverCan(w, e)
    requires (FinalPhase(e) || RollbackPhase(e)) && !Lossy(w, Drive(e))
    ensures ExclInv(DriverStep(w, e))
  {
    if e.FinalPause? || e.FinalFetch? {
      RoundShipKeepsExcl(w, e);
    } else if e.ShipFinal? || e.ShipState? || e.ShipFails? {
      FinalShipKeepsExcl(w, e);
    } else if e.Fail? || e.Rollback? {
      FailKeepsExcl(w, e);
    } else if e.AbortRpc? {
      AbortKeepsExcl(w, e);
    } else {
      HandoverKeepsExcl(w, e);
    }
  }

  lemma StepKeepsExcl(w: World, e: Event)
    requires ExclInv(w) && CanHappen(w, e) && !Lossy(w, e)
    ensures ExclInv(Happen(w, e))
  {
    match e
    case Env(x) => EnvKeepsExcl(w, x);
    case Drive(x) => if BasePhase(x) || RoundPhase(x) { EarlyKeepsExcl(w, x); } else { LateKeepsExcl(w, x); }
  }

  // ---------------------------------------------------------------- every run

  /** No machine on the target is lost track of in the first k steps. */
  ghost predicate LossFree(ws: seq<World>, es: seq<Event>, k: nat) {
    k <= |es| < |ws| && forall n :: 0 <= n < k ==> !Lossy(ws[n], es[n])
  }

  lemma {:induction false} RunKeepsExcl(ws: seq<World>, es: seq<Event>, k: nat)
    requires Run(ws, es) && LossFree(ws, es, k)
    ensures ExclInv(ws[k])
  {
    if k > 0 {
      assert StepAt(ws, es, k - 1);
      RunKeepsExcl(ws, es, k - 1);
      StepKeepsExcl(ws[k - 1], es[k - 1]);
    }
  }

  lemma InvIsExclusive(w: World)
    requires ExclInv(w)
    ensures Exclusive(w)
  {
  }

  /** As long as no machine on the target is lost track of, source and target never execute at once. */
  lemma NeverBothRun(ws: seq<World>, es: seq<Event>, k: nat)
    requires Run(ws, es) && LossFree(ws, es, k)
    ensures Exclusive(ws[k])
  {
    RunKeepsExcl(ws, es, k);
    InvIsExclusive(ws[k]);
  }

  // ---------------------------------------------------------------- how a migration ends

  /** How a migration ends that is in phase ph before its last step e.  Success: the source process is gone, its slot is
      migrated, and the target (unless it crashed or was deleted meanwhile) runs.  Failure: the source is marked for a
      resync and runs again, or its slot is dead; if prepare had taken effect the target holds no machine, whatever became
      of the source, and in any case they do not both hold one. */
  ghost predicate EndsWell(ph: Phase, e: Event, src: Host, dst: Host) {
    match e
    case Drive(Reply) =>
      && src.proc.NoProc? && (src.slot.Some? ==> src.slot.value.state == Migrated)
      && (dst.slot.Some? ==> dst.slot.value.state == Running)
      && (dst.proc.Live? ==> dst.VcpusRun())
    case Drive(Rollback(resumed)) =>
      && ph.AbortSent?
      && (ph.prepared ==> !dst.proc.Live?)
      && !(src.proc.Live? && dst.proc.Live?)
      && (resumed ==> src.VcpusRun())
      && (src.slot.Some? ==> src.slot.value.needsResync)
      && (src.slot.Some? ==> src.slot.value.state == if resumed then Running else Dead)
    case _ => false
  }

  lemma OnlyReplyAndRollbackEnd(w: World, e: Event)
    requires CanHappen(w, e) && w.driver.Some? && Happen(w, e).driver.None?
    ensures e.Drive? && (e.step.Reply? || e.step.Rollback?)
  {
  }

  lemma EndStep(w: World, e: DriverEvent)
    requires ExclInv(w) && w.driver.Some? && DriverCan(w, e) && (e.Reply? || e.Rollback?)
    requires w.driver.value.phase.AbortSent? && w.At(w.Src()).slot.Some? ==> w.At(w.Src()).slot.value.needsResync
    ensures EndsWell(w.driver.value.phase, Drive(e), DriverStep(w, e).At(w.Src()), DriverStep(w, e).At(w.Dst()))
  {
  }

  lemma AbortedNeedsResync(w: World)
    requires DataInv(w) && w.driver.Some? && w.driver.value.phase.AbortSent? && w.At(w.Src()).slot.Some?
    ensures w.At(w.Src()).slot.value.needsResync
  {
  }

  lemma MigrationEnds(ws: seq<World>, es: seq<Event>, k: nat)
    requires Run(ws, es) && k < |es| && LossFree(ws, es, k)
    requires ws[k].driver.Some? && ws[k + 1].driver.None?
    ensures EndsWell(ws[k].driver.value.phase, es[k], ws[k + 1].At(ws[k].Src()), ws[k + 1].At(ws[k].Dst()))
  {
    assert StepAt(ws, es, k);
    RunKeepsExcl(ws, es, k);
    RunKeepsData(ws, es, k);
    OnlyReplyAndRollbackEnd(ws[k], es[k]);
    if ws[k].driver.value.phase.AbortSent? && ws[k].At(ws[k].Src()).slot.Some? {
      AbortedNeedsResync(ws[k]);
    }
    EndStep(ws[k], es[k].step);
  }

  // ---------------------------------------------------------------- a migration that never prepared its target

  /** Phases before prepare took effect, and the rollback from there. */
  predicate Unprepared(ph: Phase) {
    ph.Starting? || (ph.Failing? && !ph.prepared) || (ph.AbortSent? && !ph.prepared)
  }

  /** The target is left alone; at most a receiving slot without a machine, left over from before, is torn down. */
  ghost predicate TargetKept(before: Host, after: Host) {
    after == before || (before.InState(Receiving) && !before.proc.Live? && after == OnAbort(before))
  }

  lemma EnvLeadsToUnprepared(w: World, e: EnvEvent)
    requires EnvCan(w, e) && EnvStep(w, e).driver.Some?
    ensures w.driver.Some? ==> EnvStep(w, e).driver == w.driver
    ensures w.driver.None? ==> e == Migrate(EnvStep(w, e).Src())
  {
  }

  lemma FailureKeepsTarget(w: World, e: DriverEvent)
    requires ExclInv(w) && w.driver.Some? && DriverCan(w, e) && (e.Fail? || e.AbortRpc?)
    ensures var w' := DriverStep(w, e);
      && w'.driver.Some? && w'.Src() == w.Src()
      && (Unprepared(w'.driver.value.phase) ==> Unprepared(w.driver.value.phase) && TargetKept(w.At(w.Dst()), w'.At(w.Dst())))
  {
  }

  lemma NeverUnpreparedAgain(w: World, e: DriverEvent)
    requires w.driver.Some? && DriverCan(w, e) && !e.Fail? && !e.AbortRpc?
    ensures DriverStep(w, e).driver.Some? ==> !Unprepared(DriverStep(w, e).driver.value.phase)
  {
  }

  /** What leads to an unprepared phase at i + 1: an unprepared phase at i, by a step that keeps the target if it is the
      driver's, or the start of the migration. */
  ghost predicate UnpreparedLink(ws: seq<World>, es: seq<Event>, i: nat) {
    && i < |es| && |ws| == |es| + 1
    && (In(ws[i + 1], Unprepared) ==>
          if ws[i].driver.None? then es[i] == Env(Migrate(ws[i + 1].Src()))
          else
            && In(ws[i], Unprepared) && ws[i].Src() == ws[i + 1].Src()
            && (es[i].Drive? ==> TargetKept(ws[i].At(ws[i].Dst()), ws[i + 1].At(ws[i].Dst()))))
  }

  lemma RunHasUnpreparedLink(ws: seq<World>, es: seq<Event>, i: nat)
    requires Run(ws, es) && i < |es| && LossFree(ws, es, i)
    ensures UnpreparedLink(ws, es, i)
  {
    assert StepAt(ws, es, i);
    RunKeepsExcl(ws, es, i);
    if In(ws[i + 1], Unprepared) {
      match es[i]
      case Env(x) => EnvLeadsToUnprepared(ws[i], x);
      case Drive(x) =>
        if x.Fail? || x.AbortRpc? {
          FailureKeepsTarget(ws[i], x);
        } else {
          NeverUnpreparedAgain(ws[i], x);
        }
    }
  }

  /** A migration that fails before prepare took effect: every step of its driver, from its start at m to its end at k,
      keeps the target. */
  lemma {:induction false} UnpreparedKeepsTarget(ws: seq<World>, es: seq<Event>, k: nat) returns (m: nat)
    requires Run(ws, es) && LossFree(ws, es, k) && In(ws[k], Unprepared)
    ensures m < k && es[m] == Env(Migrate(ws[k].Src()))
    ensures forall n :: m < n <= k ==> ws[n].driver.Some? && ws[n].Src() == ws[k].Src()
    ensures forall n :: m < n < k && es[n].Drive? ==> TargetKept(ws[n].At(ws[k].Dst()), ws[n + 1].At(ws[k].Dst()))
    decreases k
  {
    RunHasUnpreparedLink(ws, es, k - 1);
    if ws[k - 1].driver.None? {
      m := k - 1;
    } else {
      m := UnpreparedKeepsTarget(ws, es, k - 1);
    }
  }

  // ---------------------------------------------------------------- losing track of the target

  lemma ExtendRun(ws: seq<World>, es: seq<Event>, e: Event) returns (ws': seq<World>)
    requires Run(ws, es) && CanHappen(ws[|es|], e)
    ensures Run(ws', es + [e])
    ensures ws'[|es| + 1] == Happen(ws[|es|], e)
    ensures LossFree(ws, es, |es|) && !Lossy(ws[|es|], e) ==> LossFree(ws', es + [e], |es| + 1)
  {
    ws' := ws + [Happen(ws[|es|], e)];
    forall i: nat | i < |es + [e]| ensures StepAt(ws', es + [e], i) {
      if i < |es| {
        assert StepAt(ws, es, i);
      }
    }
  }

  /** The source host after abort and resume. */
  ghost function RolledBack(host: Host): Host
    requires host.proc.Live?
  {
    SetResync(host, None, true).(proc := Live(host.proc.vmm.(running := true))).SetState(Running)
  }

  lemma AbortStep(w: World, reached: bool)
    requires w.driver.Some? && w.driver.value.phase.Failing?
    ensures CanHappen(w, Drive(AbortRpc(reached)))
    ensures var w' := Happen(w, Drive(AbortRpc(reached)));
      && w'.driver == Some(Driver(w.Src(), AbortSent(w.driver.value.phase.prepared))) && w'.liveRounds == w.liveRounds
      && w'.At(w.Src()) == SetResync(w.At(w.Src()), None, true)
      && w'.At(w.Dst()) == if reached then OnAbort(w.At(w.Dst())) else w.At(w.Dst())
  {
  }

  lemma ResumeStep(w: World)
    requires w.driver.Some? && w.driver.value.phase.AbortSent? && w.Can(w.Src(), DT.Resume)
    ensures CanHappen(w, Drive(Rollback(true)))
    ensures var w' := Happen(w, Drive(Rollback(true)));
      && w'.driver.None? && w'.At(w.Dst()) == w.At(w.Dst()) && w'.liveRounds == w.liveRounds
      && w'.At(w.Src()) == w.At(w.Src()).(proc := Live(w.At(w.Src()).proc.vmm.(running := true))).SetState(Running)
  {
  }

  /** The rollback of a failed migration whose source can be resumed. */
  lemma RollBack(ws: seq<World>, es: seq<Event>, reached: bool) returns (ws': seq<World>, es': seq<Event>)
    requires Run(ws, es) && ws[|es|].driver.Some? && ws[|es|].driver.value.phase.Failing?
    requires ws[|es|].Can(ws[|es|].Src(), DT.Resume)
    ensures es' == es + [Drive(AbortRpc(reached))] + [Drive(Rollback(true))] && Run(ws', es')
    ensures var w, w' := ws[|es|], ws'[|es'|];
      && w'.driver.None? && w'.At(w.Src()) == RolledBack(w.At(w.Src())) && w'.liveRounds == w.liveRounds
      && w'.At(w.Dst()) == if reached then OnAbort(w.At(w.Dst())) else w.At(w.Dst())
    ensures LossFree(ws, es, |es|) && (reached || !ws[|es|].driver.value.phase.loaded) ==> LossFree(ws', es', |es'|)
  {
    var w := ws[|es|];
    AbortStep(w, reached);
    var ws1 := ExtendRun(ws, es, Drive(AbortRpc(reached)));
    var es1 := es + [Drive(AbortRpc(reached))];
    ResumeStep(ws1[|es1|]);
    ws' := ExtendRun(ws1, es1, Drive(Rollback(true)));
    es' := es1 + [Drive(Rollback(true))];
  }

  lemma QuietSource(ws: seq<World>, es: seq<Event>)
    requires Run(ws, es) && ws[|es|].driver.Some? && !ws[|es|].driver.value.phase.Dumping?
    requires ws[|es|].At(ws[|es|].Src()).proc.Live?
    ensures ws[|es|].At(ws[|es|].Src()).proc.vmm.dump.None?
  {
    RunKeepsData(ws, es, |es|);
  }

  lemma CommittedTarget(w: World)
    requires ExclInv(w) && w.driver.Some? && w.driver.value.phase.Committed? && w.At(w.Dst()).proc.Live?
    ensures !w.At(w.Dst()).InState(Receiving) && w.At(w.Dst()).VcpusRun()
  {
  }

  lemma LoseReplyStep(w: World)
    requires w.driver.Some? && w.driver.value.phase.Committed?
    ensures CanHappen(w, Drive(LoseReply)) && Happen(w, Drive(LoseReply)) == w.Go(Failing(true, true))
  {
  }

  /** The condition on replies is needed: every loss-free run that reaches the committed handover with both machines alive
      can lose the reply, and then the code's own rollback runs both, although the abort reaches the target, which
      refuses it. */
  lemma LostReplyRunsBoth(ws: seq<World>, es: seq<Event>, reached: bool) returns (ws': seq<World>, es': seq<Event>)
    requires Run(ws, es) && LossFree(ws, es, |es|)
    requires ws[|es|].driver.Some? && ws[|es|].driver.value.phase.Committed?
    requires ws[|es|].a.proc.Live? && ws[|es|].b.proc.Live?
    ensures es' == es + [Drive(LoseReply)] + [Drive(AbortRpc(reached))] + [Drive(Rollback(true))]
    ensures Run(ws', es') && !Exclusive(ws'[|es'|])
  {
    RunKeepsExcl(ws, es, |es|);
    QuietSource(ws, es);
    CommittedTarget(ws[|es|]);
    LoseReplyStep(ws[|es|]);
    var ws1 := ExtendRun(ws, es, Drive(LoseReply));
    ws', es' := RollBack(ws1, es + [Drive(LoseReply)], reached);
  }

  lemma LoadFailedStep(w: World)
    requires w.driver.Some? && w.driver.value.phase.Loaded?
    ensures CanHappen(w, Drive(LoadReportedFailed)) && Happen(w, Drive(LoadReportedFailed)) == w.Go(Failing(true, true))
  {
  }

  lemma LoadedTarget(w: World)
    requires ExclInv(w) && w.driver.Some? && w.driver.value.phase.Loaded? && w.At(w.Dst()).proc.Live?
    ensures w.At(w.Dst()).InState(Receiving) && w.At(w.Dst()).VcpusRun()
  {
  }

  /** A load that took effect but is reported as failed: after the rollback source and target run exclusively if and only
      if the abort reached the target. */
  lemma FailedLoadNeedsAbort(ws: seq<World>, es: seq<Event>, reached: bool) returns (ws': seq<World>, es': seq<Event>)
    requires Run(ws, es) && LossFree(ws, es, |es|)
    requires ws[|es|].driver.Some? && ws[|es|].driver.value.phase.Loaded?
    requires ws[|es|].a.proc.Live? && ws[|es|].b.proc.Live?
    ensures es' == es + [Drive(LoadReportedFailed)] + [Drive(AbortRpc(reached))] + [Drive(Rollback(true))]
    ensures Run(ws', es')
    ensures Exclusive(ws'[|es'|]) <==> reached
  {
    RunKeepsExcl(ws, es, |es|);
    QuietSource(ws, es);
    LoadedTarget(ws[|es|]);
    LoadFailedStep(ws[|es|]);
    var ws1 := ExtendRun(ws, es, Drive(LoadReportedFailed));
    ws', es' := RollBack(ws1, es + [Drive(LoadReportedFailed)], reached);
  }

  // ---------------------------------------------------------------- why an abort forces a resync

  lemma FailStep(w: World)
    requires w.driver.Some? && w.driver.value.phase.RoundShip?
    requires w.At(w.Src()).proc.Live? ==> w.At(w.Src()).proc.vmm.dump.None?
    ensures CanHappen(w, Drive(Fail)) && Happen(w, Drive(Fail)) == w.Go(Failing(true, false))
  {
  }

  lemma RolledBackStale(host: Host, l: Loc)
    requires host.proc.Live? && host.slot.Some? && host.proc.vmm.dump.None? && l in host.proc.vmm.mem
    requires !Fresh(host.BaseImage(), host.proc.vmm.mem, l)
    requires l.page !in host.proc.vmm.kvm && l.page !in host.proc.vmm.bitmap
    ensures !DT.Covered(RolledBack(host).proc.vmm, RolledBack(host).BaseImage())
  {
    assert RolledBack(host).BaseImage() == host.BaseImage();
    assert !DT.CoveredIdle(RolledBack(host).proc.vmm, host.BaseImage());
  }

  /** If a round was captured but not applied, a word of it is newer than the base image, and its page has not been
      written again, then the run can go on to a rollback after which the VM runs with a base image that is stale on
      an unmarked page; needsResync is set. */
  lemma AbortStalesBase(ws: seq<World>, es: seq<Event>, l: Loc, reached: bool) returns (ws': seq<World>, es': seq<Event>)
    requires Run(ws, es) && ws[|es|].driver.Some? && ws[|es|].driver.value.phase.RoundShip?
    requires var src := ws[|es|].At(ws[|es|].Src());
      && src.proc.Live? && src.slot.Some?
      && l in src.proc.vmm.mem && !Fresh(src.BaseImage(), src.proc.vmm.mem, l)
      && l.page !in src.proc.vmm.kvm && l.page !in src.proc.vmm.bitmap
    ensures es' == es + [Drive(Fail)] + [Drive(AbortRpc(reached))] + [Drive(Rollback(true))] && Run(ws', es')
    ensures var src := ws'[|es'|].At(ws[|es|].Src());
      && src.InState(Running) && src.VcpusRun() && src.slot.value.needsResync
      && !DT.Covered(src.proc.vmm, src.BaseImage())
  {
    var w := ws[|es|];
    QuietSource(ws, es);
    FailStep(w);
    var ws1 := ExtendRun(ws, es, Drive(Fail));
    ws', es' := RollBack(ws1, es + [Drive(Fail)], reached);
    RolledBackStale(w.At(w.Src()), l);
  }
}
