/** What every step of the protocol keeps, and what that means for whole runs. */
module MigrationSafety {
  import opened Options
  import opened GuestMemory
  import DT = DirtyTracking
  import opened Migration

  // ---------------------------------------------------------------- the data invariant

  /** A VM whose base image is trusted: a migration may start from it without a resync. */
  ghost predicate BaseTrusted(host: Host) {
    && (host.InState(Running) || host.InState(Booting))
    && !host.slot.value.needsResync && host.slot.value.base != NoBase
    && host.proc.Live?
  }

  /** What holds of one host; role is the phase of the migration it is the source of, if any. */
  ghost predicate HostInv(host: Host, role: Option<Phase>) {
    && (host.slot.None? ==> host.proc.NoProc?)
    && (host.InState(Running) || host.InState(Migrating) ==> host.slot.value.base != NoBase)
    && (host.proc.Live? ==> DT.Wf(host.proc.vmm))
    && (host.proc.Live? && host.proc.vmm.dump.Some? ==> role.Some? && role.value.Dumping?)
    && (BaseTrusted(host) ==> DT.Covered(host.proc.vmm, host.BaseImage()))
    && (role.Some? && host.slot.Some? ==> host.slot.value.state == Migrating)
  }

  /** The source's memory is covered by img, if its VMM still exists. */
  ghost predicate SrcCovered(host: Host, img: Image) {
    host.proc.Live? ==> DT.Covered(host.proc.vmm, img)
  }

  /** What the images on the wire and on the target hold in each phase. */
  ghost predicate PhaseInv(src: Host, dst: Host, ph: Phase) {
    match ph
    case Starting => src.slot.Some? && !src.slot.value.needsResync ==> SrcCovered(src, src.BaseImage())
    case Prepared =>
      && dst.recvFile == map[]
      && (src.slot.Some? && !src.slot.value.needsResync ==> SrcCovered(src, src.BaseImage()))
    case ResyncPaused => dst.recvFile == map[]
    case ResyncTaken(ok) => dst.recvFile == map[] && (ok ==> SrcCovered(src, src.baseFile))
    case BaseDue => dst.recvFile == map[] && (src.slot.Some? ==> SrcCovered(src, src.BaseImage()))
    case RoundDue => SrcCovered(src, dst.recvFile)
    case RoundPaused => SrcCovered(src, dst.recvFile)
    case Settled => SrcCovered(src, dst.recvFile)
    case FinalPaused => SrcCovered(src, dst.recvFile)
    case Dumping(final, saved) =>
      && SrcCovered(src, dst.recvFile)
      && (src.proc.Live? ==>
            var v := src.proc.vmm;
            v.dump.Some? && (final ==> !v.dump.value.live && saved == VmState(v.regs, v.queues)))
    case RoundTaken(taken) => taken.Some? ==> SrcCovered(src, dst.recvFile + taken.value)
    case RoundShip(c) => SrcCovered(src, dst.recvFile + c)
    case FinalShip(c, snap, _) => dst.recvFile + c == snap
    case StateDue(snap, _) => dst.recvFile == snap
    case LoadDue(snap, saved) => dst.recvFile == snap && dst.stateFile == saved
    case Loaded =>
      && (dst.proc.Live? ==> DT.Covered(dst.proc.vmm, dst.recvFile))
      && (dst.slot.Some? ==> dst.slot.value.state == Receiving)
    case Committed => true
    case Failing(_, _) => true
    case AbortSent(_) => src.slot.Some? ==> src.slot.value.needsResync
  }

  ghost predicate PairInv(src: Host, dst: Host, ph: Phase) {
    HostInv(src, Some(ph)) && HostInv(dst, None) && PhaseInv(src, dst, ph)
  }

  ghost predicate DataInv(w: World) {
    if w.driver.None? then HostInv(w.a, None) && HostInv(w.b, None)
    else PairInv(w.At(w.Src()), w.At(w.Dst()), w.driver.value.phase)
  }

  lemma PairWrite(src: Host, dst: Host, ph: Phase, s: DT.Step)
    requires PairInv(src, dst, ph) && (s.GuestWrite? || s.DeviceWrite? || s.QueueWrite?)
    requires src.proc.Live? && DT.Enabled(src.proc.vmm, s)
    ensures PairInv(src.(proc := Live(DT.Apply(src.proc.vmm, s))), dst, ph)
  {
    StepKeepsCovered(src.proc.vmm, s);
  }

  lemma SrcWriteKeepsData(w: World, h: HostId, s: DT.Step)
    requires DataInv(w) && EnvCan(w, Write(h, s)) && w.driver.Some? && w.Src() == h
    ensures DataInv(EnvStep(w, Write(h, s)))
  {
    PairWrite(w.At(w.Src()), w.At(w.Dst()), w.driver.value.phase, s);
  }

  lemma OtherWriteKeepsData(w: World, h: HostId, s: DT.Step)
    requires DataInv(w) && EnvCan(w, Write(h, s)) && !(w.driver.Some? && w.Src() == h)
    ensures DataInv(EnvStep(w, Write(h, s)))
  {
    StepKeepsCovered(w.At(h).proc.vmm, s);
  }

  /** A VMM step that neither copies memory nor loses marks keeps every coverage that held. */
  lemma StepKeepsCovered(v: DT.Vmm, s: DT.Step)
    requires DT.Wf(v) && DT.Enabled(v, s) && !s.FetchErr? && !s.Full? && !s.DumpOk?
    ensures DT.Wf(DT.Apply(v, s))
    ensures forall img {:trigger DT.Covered(v, img)} :: DT.Covered(v, img) ==> DT.Covered(DT.Apply(v, s), img)
  {
    DT.WfStep(v, s);
    forall img | DT.Covered(v, img) ensures DT.Covered(DT.Apply(v, s), img) {
      DT.CoverageStep(v, img, s);
    }
  }

  /** A booting host keeps its invariant when its vCPUs are paused or resumed, and when it then counts as running. */
  lemma BootingHost(host: Host, s: DT.Step, running: bool)
    requires HostInv(host, None) && host.InState(Booting) && (s.Pause? || s.Resume?)
    requires host.proc.Live? && DT.Enabled(host.proc.vmm, s) && (running ==> host.slot.value.base == BaseMem)
    ensures var h := host.(proc := Live(DT.Apply(host.proc.vmm, s)));
      HostInv(if running then h.SetState(Running) else h, None)
  {
    StepKeepsCovered(host.proc.vmm, s);
  }

  /** What the phase says of the target is about its files, except during the handover. */
  lemma TargetMoves(src: Host, dst: Host, dst': Host, ph: Phase)
    requires PairInv(src, dst, ph) && !ph.Loaded? && HostInv(dst', None)
    requires dst'.recvFile == dst.recvFile && dst'.stateFile == dst.stateFile
    ensures PairInv(src, dst', ph)
  {
  }

  lemma BootPauseKeepsData(w: World, h: HostId)
    requires DataInv(w) && EnvCan(w, BootPause(h))
    ensures DataInv(EnvStep(w, BootPause(h)))
  {
    BootingHost(w.At(h), DT.Pause, false);
    BootingIsNoSource(w, h);
  }

  /** A booting host is not the source of a migration. */
  lemma BootingIsNoSource(w: World, h: HostId)
    requires DataInv(w) && w.At(h).InState(Booting)
    ensures w.driver.Some? ==> w.Src() != h && !w.driver.value.phase.Loaded?
  {
  }

  lemma SnapshotHost(host: Host)
    requires HostInv(host, None) && host.InState(Booting) && host.proc.Live? && DT.Enabled(host.proc.vmm, DT.Full)
    ensures HostInv(host.(proc := Live(DT.Apply(host.proc.vmm, DT.Full)), baseFile := host.proc.vmm.mem,
                          slot := Some(host.slot.value.(base := BaseMem))), None)
  {
    DT.FullCovers(host.proc.vmm);
  }

  lemma BootSnapshotKeepsData(w: World, h: HostId)
    requires DataInv(w) && EnvCan(w, BootSnapshot(h))
    ensures DataInv(EnvStep(w, BootSnapshot(h)))
  {
    SnapshotHost(w.At(h));
    BootingIsNoSource(w, h);
    if w.driver.Some? {
      TargetMoves(w.At(w.Src()), w.At(h), EnvStep(w, BootSnapshot(h)).At(h), w.driver.value.phase);
    }
  }

  lemma BootDoneKeepsData(w: World, h: HostId)
    requires DataInv(w) && EnvCan(w, BootDone(h))
    ensures DataInv(EnvStep(w, BootDone(h)))
  {
    BootingHost(w.At(h), DT.Resume, true);
    BootingIsNoSource(w, h);
    if w.driver.Some? {
      TargetMoves(w.At(w.Src()), w.At(h), EnvStep(w, BootDone(h)).At(h), w.driver.value.phase);
    }
  }

  lemma CrashKeepsData(w: World, h: HostId)
    requires DataInv(w) && EnvCan(w, Crash(h))
    ensures DataInv(EnvStep(w, Crash(h)))
  {
  }

  lemma DeleteKeepsData(w: World, h: HostId)
    requires DataInv(w) && EnvCan(w, Delete(h))
    ensures DataInv(EnvStep(w, Delete(h)))
  {
  }

  lemma SlotKeepsData(w: World, e: EnvEvent)
    requires DataInv(w) && EnvCan(w, e)
    requires e.BootStart? || e.Migrate?
    ensures DataInv(EnvStep(w, e))
  {
  }

  lemma BootFailKeepsData(w: World, h: HostId)
    requires DataInv(w) && EnvCan(w, BootFail(h))
    ensures DataInv(EnvStep(w, BootFail(h)))
  {
  }

  lemma EnvKeepsData(w: World, e: EnvEvent)
    requires DataInv(w) && EnvCan(w, e)
    ensures DataInv(EnvStep(w, e))
  {
    match e
    case Write(h, s) =>
      if w.driver.Some? && w.Src() == h {
        SrcWriteKeepsData(w, h, s);
      } else {
        OtherWriteKeepsData(w, h, s);
      }
    case BootPause(h) => BootPauseKeepsData(w, h);
    case BootSnapshot(h) => BootSnapshotKeepsData(w, h);
    case BootDone(h) => BootDoneKeepsData(w, h);
    case BootFail(h) => BootFailKeepsData(w, h);
    case Crash(h) => CrashKeepsData(w, h);
    case Delete(h) => DeleteKeepsData(w, h);
    case _ => SlotKeepsData(w, e);
  }

  lemma QuietKeepsData(w: World, e: DriverEvent)
    requires DataInv(w) && w.driver.Some? && DriverCan(w, e)
    requires e.SkipResync? || e.ExitLoop? || e.LoseReply? || e.LoadReportedFailed?
    ensures DataInv(DriverStep(w, e))
  {
  }

  lemma FailKeepsData(w: World, e: DriverEvent)
    requires DataInv(w) && w.driver.Some? && DriverCan(w, e)
    requires e.Fail?
    ensures DataInv(DriverStep(w, e))
  {
  }

  lemma PrepareKeepsData(w: World, e: DriverEvent)
    requires DataInv(w) && w.driver.Some? && DriverCan(w, e)
    requires e.PrepareRpc?
    ensures DataInv(DriverStep(w, e))
  {
  }

  lemma PairStore(src: Host, dst: Host, ph: Phase, recv: Image, st: VmState, next: Phase)
    requires PairInv(src, dst, ph) && dst.InState(Receiving)
    requires next == Failing(true, false) || (ph.StateDue? && recv == dst.recvFile && st == ph.saved && next == LoadDue(ph.snap, ph.saved))
    requires src.proc.Live? ==> src.proc.vmm.dump.None?
    ensures PairInv(src, dst.(recvFile := recv, stateFile := st), next)
  {
  }

  lemma ShipStateKeepsData(w: World, e: DriverEvent)
    requires DataInv(w) && w.driver.Some? && DriverCan(w, e)
    requires e.ShipState?
    ensures DataInv(DriverStep(w, e))
  {
    var ph := w.driver.value.phase;
    PairStore(w.At(w.Src()), w.At(w.Dst()), ph, w.At(w.Dst()).recvFile, ph.saved, LoadDue(ph.snap, ph.saved));
  }

  lemma ShipFailsKeepsData(w: World, e: DriverEvent)
    requires DataInv(w) && w.driver.Some? && DriverCan(w, e)
    requires e.ShipFails?
    ensures DataInv(DriverStep(w, e))
  {
    PairStore(w.At(w.Src()), w.At(w.Dst()), w.driver.value.phase, e.junk, e.junkState, Failing(true, false));
  }

  lemma LoadKeepsData(w: World, e: DriverEvent)
    requires DataInv(w) && w.driver.Some? && DriverCan(w, e)
    requires e.Load?
    ensures DataInv(DriverStep(w, e))
  {
  }

  lemma CommitKeepsData(w: World, e: DriverEvent)
    requires DataInv(w) && w.driver.Some? && DriverCan(w, e)
    requires e.Commit?
    ensures DataInv(DriverStep(w, e))
  {
  }

  lemma ReplyKeepsData(w: World, e: DriverEvent)
    requires DataInv(w) && w.driver.Some? && DriverCan(w, e)
    requires e.Reply?
    ensures DataInv(DriverStep(w, e))
  {
  }

  lemma PairShipBase(src: Host, dst: Host, ph: Phase)
    requires PairInv(src, dst, ph) && ph.BaseDue? && src.slot.Some? && dst.InState(Receiving)
    ensures PairInv(src, OnMem(dst, src.BaseImage()), RoundDue)
  {
    assert dst.recvFile + src.BaseImage() == src.BaseImage();
  }

  lemma PairShipRound(src: Host, dst: Host, ph: Phase)
    requires PairInv(src, dst, ph) && (ph.RoundShip? || ph.FinalShip?) && dst.InState(Receiving)
    ensures PairInv(src, OnMem(dst, ph.capture), if ph.RoundShip? then RoundDue else StateDue(ph.snap, ph.saved))
  {
  }

  lemma ShipBaseKeepsData(w: World, e: DriverEvent)
    requires DataInv(w) && w.driver.Some? && DriverCan(w, e)
    requires e.ShipBase?
    ensures DataInv(DriverStep(w, e))
  {
    PairShipBase(w.At(w.Src()), w.At(w.Dst()), w.driver.value.phase);
  }

  lemma ShipRoundKeepsData(w: World, e: DriverEvent)
    requires DataInv(w) && w.driver.Some? && DriverCan(w, e)
    requires e.ShipRound? || e.ShipFinal?
    ensures DataInv(DriverStep(w, e))
  {
    PairShipRound(w.At(w.Src()), w.At(w.Dst()), w.driver.value.phase);
  }

  lemma PairResyncPause(src: Host, dst: Host, ph: Phase)
    requires PairInv(src, dst, ph) && ph.Prepared? && src.proc.Live? && DT.Enabled(src.proc.vmm, DT.Pause)
    ensures PairInv(src.(proc := Live(DT.Apply(src.proc.vmm, DT.Pause))), dst, ResyncPaused)
  {
    StepKeepsCovered(src.proc.vmm, DT.Pause);
  }

  lemma ResyncPauseKeepsData(w: World, e: DriverEvent)
    requires DataInv(w) && w.driver.Some? && DriverCan(w, e)
    requires e.ResyncPause?
    ensures DataInv(DriverStep(w, e))
  {
    PairResyncPause(w.At(w.Src()), w.At(w.Dst()), w.driver.value.phase);
  }

  lemma PairResyncResume(src: Host, dst: Host, ph: Phase)
    requires PairInv(src, dst, ph) && ph.ResyncTaken? && src.slot.Some? && src.proc.Live? && DT.Enabled(src.proc.vmm, DT.Resume)
    ensures var h := src.(proc := Live(DT.Apply(src.proc.vmm, DT.Resume)));
      if ph.ok then PairInv(SetResync(h, Some(BaseMem), false), dst, BaseDue) else PairInv(h, dst, Failing(true, false))
  {
    StepKeepsCovered(src.proc.vmm, DT.Resume);
  }

  lemma ResyncResumeKeepsData(w: World, e: DriverEvent)
    requires DataInv(w) && w.driver.Some? && DriverCan(w, e)
    requires e.ResyncResume?
    ensures DataInv(DriverStep(w, e))
  {
    PairResyncResume(w.At(w.Src()), w.At(w.Dst()), w.driver.value.phase);
  }

  lemma ResyncSnapshotKeepsData(w: World, e: DriverEvent)
    requires DataInv(w) && w.driver.Some? && DriverCan(w, e)
    requires e.ResyncSnapshot?
    ensures DataInv(DriverStep(w, e))
  {
    DT.FullCovers(w.At(w.Src()).proc.vmm);
  }

  lemma PairPause(src: Host, dst: Host, ph: Phase, next: Phase)
    requires PairInv(src, dst, ph) && (ph.RoundDue? || ph.Settled?) && (next.RoundPaused? || next.FinalPaused?)
    requires src.proc.Live? && DT.Enabled(src.proc.vmm, DT.Pause)
    ensures PairInv(src.(proc := Live(DT.Apply(src.proc.vmm, DT.Pause))), dst, next)
  {
    StepKeepsCovered(src.proc.vmm, DT.Pause);
  }

  lemma PauseKeepsData(w: World, e: DriverEvent)
    requires DataInv(w) && w.driver.Some? && DriverCan(w, e)
    requires e.RoundPause? || e.FinalPause?
    ensures DataInv(DriverStep(w, e))
  {
    if e.RoundPause? {
      PairPause(w.At(w.Src()), w.At(w.Dst()), w.driver.value.phase, RoundPaused);
    } else {
      PairPause(w.At(w.Src()), w.At(w.Dst()), w.driver.value.phase, FinalPaused);
    }
  }

  lemma RoundResumeKeepsData(w: World, e: DriverEvent)
    requires DataInv(w) && w.driver.Some? && DriverCan(w, e)
    requires e.RoundResume?
    ensures DataInv(DriverStep(w, e))
  {
    StepKeepsCovered(w.At(w.Src()).proc.vmm, DT.Resume);
  }

  lemma PairFetch(src: Host, dst: Host, ph: Phase, live: bool, final: bool, saved: VmState)
    requires PairInv(src, dst, ph) && (ph.RoundDue? || ph.RoundPaused? || ph.FinalPaused?)
    requires src.proc.Live? && DT.Enabled(src.proc.vmm, DT.Fetch(live))
    requires final ==> !live && saved == VmState(src.proc.vmm.regs, src.proc.vmm.queues)
    ensures PairInv(src.(proc := Live(DT.Apply(src.proc.vmm, DT.Fetch(live)))), dst, Dumping(final, saved))
  {
    StepKeepsCovered(src.proc.vmm, DT.Fetch(live));
  }

  lemma RoundFetchKeepsData(w: World, e: DriverEvent)
    requires DataInv(w) && w.driver.Some? && DriverCan(w, e)
    requires e.RoundFetch?
    ensures DataInv(DriverStep(w, e))
  {
    PairFetch(w.At(w.Src()), w.At(w.Dst()), w.driver.value.phase, w.liveRounds, false, VmState(0, {}));
  }

  lemma FinalFetchKeepsData(w: World, e: DriverEvent)
    requires DataInv(w) && w.driver.Some? && DriverCan(w, e)
    requires e.FinalFetch?
    ensures DataInv(DriverStep(w, e))
  {
    var v := w.At(w.Src()).proc.vmm;
    PairFetch(w.At(w.Src()), w.At(w.Dst()), w.driver.value.phase, false, true, VmState(v.regs, v.queues));
  }

  lemma FetchFailsKeepsData(w: World, e: DriverEvent)
    requires DataInv(w) && w.driver.Some? && DriverCan(w, e)
    requires e.FetchFails?
    ensures DataInv(DriverStep(w, e))
  {
    DT.WfStep(w.At(w.Src()).proc.vmm, DT.FetchErr(e.lost));
  }

  lemma PairDumpStep(src: Host, dst: Host, ph: Phase, s: DT.Step)
    requires PairInv(src, dst, ph) && ph.Dumping? && (s.ReadWord? || s.FinishPage? || s.OverBudget?)
    requires src.proc.Live? && DT.Enabled(src.proc.vmm, s)
    ensures PairInv(src.(proc := Live(DT.Apply(src.proc.vmm, s))), dst, ph)
  {
    StepKeepsCovered(src.proc.vmm, s);
  }

  lemma DumpStepKeepsData(w: World, e: DriverEvent)
    requires DataInv(w) && w.driver.Some? && DriverCan(w, e)
    requires e.DumpStep?
    ensures DataInv(DriverStep(w, e))
  {
    PairDumpStep(w.At(w.Src()), w.At(w.Dst()), w.driver.value.phase, e.step);
  }

  lemma PairRoundDone(src: Host, dst: Host, ph: Phase, live: bool)
    requires PairInv(src, dst, ph) && ph.Dumping? && !ph.final && src.proc.Live? && DT.Enabled(src.proc.vmm, DT.DumpOk)
    ensures var c := src.proc.vmm.dump.value.capture;
      PairInv(src.(proc := Live(DT.Apply(src.proc.vmm, DT.DumpOk))), dst, if live then RoundShip(c) else RoundTaken(Some(c)))
  {
    DT.CoverageStep(src.proc.vmm, dst.recvFile, DT.DumpOk);
  }

  lemma PairFinalDone(src: Host, dst: Host, ph: Phase)
    requires PairInv(src, dst, ph) && ph.Dumping? && ph.final && src.proc.Live? && DT.Enabled(src.proc.vmm, DT.DumpOk)
    ensures var v := src.proc.vmm;
      PairInv(src.(proc := Live(DT.Apply(v, DT.DumpOk))), dst, FinalShip(v.dump.value.capture, v.mem, ph.saved))
  {
    DT.CoverageStep(src.proc.vmm, dst.recvFile, DT.DumpOk);
    DT.PausedDumpIsExact(src.proc.vmm, dst.recvFile);
  }

  lemma DumpDoneKeepsData(w: World, e: DriverEvent)
    requires DataInv(w) && w.driver.Some? && DriverCan(w, e)
    requires e.DumpDone?
    ensures DataInv(DriverStep(w, e))
  {
    if w.driver.value.phase.final {
      PairFinalDone(w.At(w.Src()), w.At(w.Dst()), w.driver.value.phase);
    } else {
      PairRoundDone(w.At(w.Src()), w.At(w.Dst()), w.driver.value.phase, w.liveRounds);
    }
  }

  lemma DumpFailsKeepsData(w: World, e: DriverEvent)
    requires DataInv(w) && w.driver.Some? && DriverCan(w, e)
    requires e.DumpFails?
    ensures DataInv(DriverStep(w, e))
  {
    StepKeepsCovered(w.At(w.Src()).proc.vmm, DT.DumpErr);
  }

  lemma AbortKeepsData(w: World, e: DriverEvent)
    requires DataInv(w) && w.driver.Some? && DriverCan(w, e)
    requires e.AbortRpc?
    ensures DataInv(DriverStep(w, e))
  {
  }

  lemma RollbackKeepsData(w: World, e: DriverEvent)
    requires DataInv(w) && w.driver.Some? && DriverCan(w, e)
    requires e.Rollback?
    ensures DataInv(DriverStep(w, e))
  {
    if e.resumed {
      DT.WfStep(w.At(w.Src()).proc.vmm, DT.Resume);
    }
  }

  predicate BasePhase(e: DriverEvent) {
    e.PrepareRpc? || e.SkipResync? || e.ResyncPause? || e.ResyncSnapshot? || e.ResyncResume? || e.ShipBase?
  }

  predicate RoundPhase(e: DriverEvent) {
    || e.RoundPause? || e.RoundFetch? || e.FetchFails? || e.DumpStep? || e.DumpDone? || e.DumpFails?
    || e.RoundResume? || e.ShipRound? || e.ExitLoop?
  }

  predicate FinalPhase(e: DriverEvent) {
    e.FinalPause? || e.FinalFetch? || e.ShipFinal? || e.ShipState? || e.ShipFails? || e.Load? || e.Commit? || e.Reply?
  }

  predicate RollbackPhase(e: DriverEvent) {
    e.LoadReportedFailed? || e.LoseReply? || e.Fail? || e.AbortRpc? || e.Rollback?
  }

  lemma BasePhaseKeepsData(w: World, e: DriverEvent)
    requires DataInv(w) && w.driver.Some? && DriverCan(w, e)
    requires BasePhase(e)
    ensures DataInv(DriverStep(w, e))
  {
    if e.PrepareRpc? {
      PrepareKeepsData(w, e);
    } else if e.SkipResync? {
      QuietKeepsData(w, e);
    } else if e.ResyncPause? {
      ResyncPauseKeepsData(w, e);
    } else if e.ResyncResume? {
      ResyncResumeKeepsData(w, e);
    } else if e.ResyncSnapshot? {
      ResyncSnapshotKeepsData(w, e);
    } else {
      ShipBaseKeepsData(w, e);
    }
  }

  lemma DumpPhaseKeepsData(w: World, e: DriverEvent)
    requires DataInv(w) && w.driver.Some? && DriverCan(w, e)
    requires e.FetchFails? || e.DumpStep? || e.DumpDone? || e.DumpFails?
    ensures DataInv(DriverStep(w, e))
  {
    if e.FetchFails? {
      FetchFailsKeepsData(w, e);
    } else if e.DumpStep? {
      DumpStepKeepsData(w, e);
    } else if e.DumpDone? {
      DumpDoneKeepsData(w, e);
    } else {
      DumpFailsKeepsData(w, e);
    }
  }

  lemma RoundPhaseKeepsData(w: World, e: DriverEvent)
    requires DataInv(w) && w.driver.Some? && DriverCan(w, e)
    requires RoundPhase(e)
    ensures DataInv(DriverStep(w, e))
  {
    if e.RoundPause? {
      PauseKeepsData(w, e);
    } else if e.RoundFetch? {
      RoundFetchKeepsData(w, e);
    } else if e.RoundResume? {
      RoundResumeKeepsData(w, e);
    } else if e.ShipRound? {
      ShipRoundKeepsData(w, e);
    } else if e.ExitLoop? {
      QuietKeepsData(w, e);
    } else {
      DumpPhaseKeepsData(w, e);
    }
  }

  lemma HandoverKeepsData(w: World, e: DriverEvent)
    requires DataInv(w) && w.driver.Some? && DriverCan(w, e)
    requires e.Load? || e.Commit? || e.Reply?
    ensures DataInv(DriverStep(w, e))
  {
    if e.Load? {
      LoadKeepsData(w, e);
    } else if e.Commit? {
      CommitKeepsData(w, e);
    } else {
      ReplyKeepsData(w, e);
    }
  }

  lemma FinalPhaseKeepsData(w: World, e: DriverEvent)
    requires DataInv(w) && w.driver.Some? && DriverCan(w, e)
    requires FinalPhase(e)
    ensures DataInv(DriverStep(w, e))
  {
    if e.FinalPause? {
      PauseKeepsData(w, e);
    } else if e.FinalFetch? {
      FinalFetchKeepsData(w, e);
    } else if e.ShipFinal? {
      ShipRoundKeepsData(w, e);
    } else if e.ShipState? {
      ShipStateKeepsData(w, e);
    } else if e.ShipFails? {
      ShipFailsKeepsData(w, e);
    } else {
      HandoverKeepsData(w, e);
    }
  }

  lemma RollbackPhaseKeepsData(w: World, e: DriverEvent)
    requires DataInv(w) && w.driver.Some? && DriverCan(w, e)
    requires RollbackPhase(e)
    ensures DataInv(DriverStep(w, e))
  {
    if e.LoseReply? || e.LoadReportedFailed? {
      QuietKeepsData(w, e);
    } else if e.Fail? {
      FailKeepsData(w, e);
    } else if e.AbortRpc? {
      AbortKeepsData(w, e);
    } else {
      RollbackKeepsData(w, e);
    }
  }

  lemma DriverKeepsData(w: World, e: DriverEvent)
    requires DataInv(w) && w.driver.Some? && DriverCan(w, e)
    ensures DataInv(DriverStep(w, e))
  {
    if BasePhase(e) {
      BasePhaseKeepsData(w, e);
    } else if RoundPhase(e) {
      RoundPhaseKeepsData(w, e);
    } else if FinalPhase(e) {
      FinalPhaseKeepsData(w, e);
    } else {
      RollbackPhaseKeepsData(w, e);
    }
  }
}
