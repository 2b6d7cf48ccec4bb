/** A migration can always go on: from every world of a migration whose machines are healthy there is a run to its
    successful end. */
module MigrationProgress {
  import opened Options
  import opened GuestMemory
  import DT = DirtyTracking
  import DirtyDump
  import DumpRefinement
  import opened Migration
  import opened MigrationSafety
  import opened MigrationTheorems
  import opened MigrationExclusion

  // ---------------------------------------------------------------- healthy migrations

  /** Phases in which the source's vCPUs run. */
  predicate Executing(ph: Phase, live: bool) {
    || ph.Starting? || ph.Prepared? || ph.BaseDue? || ph.RoundDue? || ph.RoundShip? || ph.Settled?
    || (ph.Dumping? && !ph.final && live)
  }

  /** Nothing has failed so far: the source's machine is there, the target is what the phase expects. */
  ghost predicate HealthyPair(src: Host, dst: Host, ph: Phase, live: bool) {
    && src.InState(Migrating) && src.proc.Live? && (src.proc.vmm.dump.Some? <==> ph.Dumping?)
    && (ph.ResyncPaused? || ph.RoundPaused? || ph.FinalPaused? ==> !src.proc.vmm.running)
    && (Executing(ph, live) ==> src.proc.vmm.running)
    && (ph.ResyncTaken? ==> ph.ok) && (ph.RoundTaken? ==> ph.taken.Some?) && (ph.RoundPaused? ==> !live)
    && !ph.Failing? && !ph.AbortSent?
    && (if ph.Loaded? then dst.InState(Receiving) && dst.VcpusRun()
        else if ph.Committed? then dst.InState(Running) && dst.VcpusRun()
        else !ph.Starting? ==> dst.InState(Receiving) && dst.proc.Spawned?)
  }

  ghost predicate Healthy(w: World) {
    w.driver.Some? && HealthyPair(w.At(w.Src()), w.At(w.Dst()), w.driver.value.phase, w.liveRounds)
  }

  /** What a target runs in the end. */
  datatype Machine = Machine(mem: Image, regs: int, queues: set<Page>)

  ghost function MachineOf(v: DT.Vmm): Machine {
    Machine(v.mem, v.regs, v.queues)
  }

  /** The machine that is on its way: the source's until the final dump, then the captured one. */
  ghost function GoalOf(src: Host, dst: Host, ph: Phase, live: bool): Machine
    requires HealthyPair(src, dst, ph, live)
  {
    if ph.FinalShip? || ph.StateDue? || ph.LoadDue? then Machine(ph.snap, ph.saved.regs, ph.saved.queues)
    else if ph.Loaded? || ph.Committed? then MachineOf(dst.proc.vmm)
    else MachineOf(src.proc.vmm)
  }

  ghost function Goal(w: World): Machine
    requires Healthy(w)
  {
    GoalOf(w.At(w.Src()), w.At(w.Dst()), w.driver.value.phase, w.liveRounds)
  }

  /** The driver's next event if nothing fails; at the top of the round loop it leaves the loop. */
  ghost function Next(ph: Phase, resync: bool): DriverEvent {
    match ph
    case Starting => PrepareRpc(true)
    case Prepared => if resync then ResyncPause else SkipResync
    case ResyncPaused => ResyncSnapshot(true, map[])
    case ResyncTaken(_) => ResyncResume
    case BaseDue => ShipBase
    case RoundDue => ExitLoop
    case RoundPaused => RoundFetch
    case Dumping(_, _) => DumpDone
    case RoundTaken(_) => RoundResume
    case RoundShip(_) => ShipRound
    case Settled => FinalPause
    case FinalPaused => FinalFetch
    case FinalShip(_, _, _) => ShipFinal
    case StateDue(_, _) => ShipState
    case LoadDue(_, _) => Load
    case Loaded => Commit
    case Committed => Reply
    case Failing(_, _) => AbortRpc(true)
    case AbortSent(_) => Rollback(true)
  }

  /** How far from the end. */
  function Rank(ph: Phase): nat {
    match ph
    case Starting => 18
    case Prepared => 17
    case ResyncPaused => 16
    case ResyncTaken(_) => 15
    case BaseDue => 14
    case RoundPaused => 13
    case Dumping(final, _) => if final then 6 else 12
    case RoundTaken(_) => 11
    case RoundShip(_) => 10
    case RoundDue => 9
    case Settled => 8
    case FinalPaused => 7
    case FinalShip(_, _, _) => 5
    case StateDue(_, _) => 4
    case LoadDue(_, _) => 3
    case Loaded => 2
    case Committed => 1
    case Failing(_, _) => 0
    case AbortSent(_) => 0
  }

  /** Events that are still to come before the top of the round loop is reached. */
  ghost function Owed(ph: Phase, live: bool, resync: bool): set<DriverEvent> {
    match ph
    case Starting => {PrepareRpc(true), ShipBase} +
      if resync then {ResyncPause, ResyncSnapshot(true, map[]), ResyncResume} else {SkipResync}
    case Prepared => {ShipBase} + if resync then {ResyncPause, ResyncSnapshot(true, map[]), ResyncResume} else {SkipResync}
    case ResyncPaused => {ResyncSnapshot(true, map[]), ResyncResume, ShipBase}
    case ResyncTaken(_) => {ResyncResume, ShipBase}
    case BaseDue => {ShipBase}
    case RoundPaused => {RoundFetch, DumpDone, RoundResume, ShipRound}
    case Dumping(final, _) => if final then {} else {DumpDone, ShipRound} + if live then {} else {RoundResume}
    case RoundTaken(_) => {RoundResume, ShipRound}
    case RoundShip(_) => {ShipRound}
    case _ => {}
  }

  ghost predicate Resync(host: Host) {
    host.slot.Some? && host.slot.value.needsResync
  }

  ghost function OwedAt(w: World): set<DriverEvent>
    requires w.driver.Some?
  {
    Owed(w.driver.value.phase, w.liveRounds, Resync(w.At(w.Src())))
  }

  /** Event e leads one step nearer to the end, with the same machine on its way. */
  ghost predicate NearerPair(src: Host, dst: Host, ph: Phase, live: bool, e: DriverEvent, src': Host, dst': Host, ph': Phase)
    requires HealthyPair(src, dst, ph, live)
  {
    && HealthyPair(src', dst', ph', live) && GoalOf(src', dst', ph', live) == GoalOf(src, dst, ph, live)
    && Rank(ph') < Rank(ph) && (Rank(ph) > Rank(RoundDue) ==> Rank(ph') >= Rank(RoundDue))
    && Owed(ph, live, Resync(src)) <= {e} + Owed(ph', live, Resync(src'))
  }

  ghost predicate Nearer(w: World, e: DriverEvent, w': World)
    requires Healthy(w)
  {
    && w'.driver.Some? && w'.Src() == w.Src() && w'.liveRounds == w.liveRounds
    && NearerPair(w.At(w.Src()), w.At(w.Dst()), w.driver.value.phase, w.liveRounds, e,
                  w'.At(w.Src()), w'.At(w.Dst()), w'.driver.value.phase)
  }

  lemma PreparePair(src: Host, dst: Host, ph: Phase, live: bool)
    requires PairInv(src, dst, ph) && HealthyPair(src, dst, ph, live) && ph.Starting?
    ensures NearerPair(src, dst, ph, live, PrepareRpc(true), src, OnPrepare(dst), Prepared)
  {
  }

  lemma PrepareAdvances(w: World)
    requires DataInv(w) && Healthy(w)
    requires var ph := w.driver.value.phase; ph.Starting?
    ensures DriverCan(w, PrepareRpc(true)) && Nearer(w, PrepareRpc(true), DriverStep(w, PrepareRpc(true)))
  {
    PreparePair(w.At(w.Src()), w.At(w.Dst()), w.driver.value.phase, w.liveRounds);
  }

  lemma SkipPair(src: Host, dst: Host, ph: Phase, live: bool)
    requires PairInv(src, dst, ph) && HealthyPair(src, dst, ph, live) && ph.Prepared? && !src.slot.value.needsResync
    ensures NearerPair(src, dst, ph, live, SkipResync, src, dst, BaseDue)
  {
  }

  lemma SkipAdvances(w: World)
    requires DataInv(w) && Healthy(w)
    requires var ph := w.driver.value.phase; ph.Prepared? && !w.At(w.Src()).slot.value.needsResync
    ensures DriverCan(w, SkipResync) && Nearer(w, SkipResync, DriverStep(w, SkipResync))
  {
    SkipPair(w.At(w.Src()), w.At(w.Dst()), w.driver.value.phase, w.liveRounds);
  }

  lemma ResyncPausePair(src: Host, dst: Host, ph: Phase, live: bool)
    requires PairInv(src, dst, ph) && HealthyPair(src, dst, ph, live) && ph.Prepared? && src.slot.value.needsResync
    ensures NearerPair(src, dst, ph, live, ResyncPause, src.(proc := Live(DT.Apply(src.proc.vmm, DT.Pause))), dst, ResyncPaused)
  {
  }

  lemma ResyncPauseAdvances(w: World)
    requires DataInv(w) && Healthy(w)
    requires var ph := w.driver.value.phase; ph.Prepared? && w.At(w.Src()).slot.value.needsResync
    ensures DriverCan(w, ResyncPause) && Nearer(w, ResyncPause, DriverStep(w, ResyncPause))
  {
    ResyncPausePair(w.At(w.Src()), w.At(w.Dst()), w.driver.value.phase, w.liveRounds);
  }

  lemma SnapshotPair(src: Host, dst: Host, ph: Phase, live: bool)
    requires PairInv(src, dst, ph) && HealthyPair(src, dst, ph, live) && ph.ResyncPaused?
    ensures NearerPair(src, dst, ph, live, ResyncSnapshot(true, map[]), src.(proc := Live(DT.Apply(src.proc.vmm, DT.Full)), baseFile := src.proc.vmm.mem), dst, ResyncTaken(true))
  {
  }

  lemma SnapshotAdvances(w: World)
    requires DataInv(w) && Healthy(w)
    requires var ph := w.driver.value.phase; ph.ResyncPaused?
    ensures DriverCan(w, ResyncSnapshot(true, map[])) && Nearer(w, ResyncSnapshot(true, map[]), DriverStep(w, ResyncSnapshot(true, map[])))
  {
    SnapshotPair(w.At(w.Src()), w.At(w.Dst()), w.driver.value.phase, w.liveRounds);
  }

  lemma ResyncResumePair(src: Host, dst: Host, ph: Phase, live: bool)
    requires PairInv(src, dst, ph) && HealthyPair(src, dst, ph, live) && ph.ResyncTaken?
    ensures NearerPair(src, dst, ph, live, ResyncResume, SetResync(src.(proc := Live(DT.Apply(src.proc.vmm, DT.Resume))), Some(BaseMem), false), dst, BaseDue)
  {
  }

  lemma ResyncResumeAdvances(w: World)
    requires DataInv(w) && Healthy(w)
    requires var ph := w.driver.value.phase; ph.ResyncTaken?
    ensures DriverCan(w, ResyncResume) && Nearer(w, ResyncResume, DriverStep(w, ResyncResume))
  {
    ResyncResumePair(w.At(w.Src()), w.At(w.Dst()), w.driver.value.phase, w.liveRounds);
  }

  lemma ShipBasePair(src: Host, dst: Host, ph: Phase, live: bool)
    requires PairInv(src, dst, ph) && HealthyPair(src, dst, ph, live) && ph.BaseDue?
    ensures NearerPair(src, dst, ph, live, ShipBase, src, OnMem(dst, src.BaseImage()), RoundDue)
  {
  }

  lemma ShipBaseAdvances(w: World)
    requires DataInv(w) && Healthy(w)
    requires var ph := w.driver.value.phase; ph.BaseDue?
    ensures DriverCan(w, ShipBase) && Nearer(w, ShipBase, DriverStep(w, ShipBase))
  {
    ShipBasePair(w.At(w.Src()), w.At(w.Dst()), w.driver.value.phase, w.liveRounds);
  }

  lemma ExitPair(src: Host, dst: Host, ph: Phase, live: bool)
    requires PairInv(src, dst, ph) && HealthyPair(src, dst, ph, live) && ph.RoundDue?
    ensures NearerPair(src, dst, ph, live, ExitLoop, src, dst, Settled)
  {
  }

  lemma ExitAdvances(w: World)
    requires DataInv(w) && Healthy(w)
    requires var ph := w.driver.value.phase; ph.RoundDue?
    ensures DriverCan(w, ExitLoop) && Nearer(w, ExitLoop, DriverStep(w, ExitLoop))
  {
    ExitPair(w.At(w.Src()), w.At(w.Dst()), w.driver.value.phase, w.liveRounds);
  }

  lemma FetchPair(src: Host, dst: Host, ph: Phase, live: bool)
    requires PairInv(src, dst, ph) && HealthyPair(src, dst, ph, live) && ph.RoundPaused?
    ensures NearerPair(src, dst, ph, live, RoundFetch, src.(proc := Live(DT.Apply(src.proc.vmm, DT.Fetch(false)))), dst, Dumping(false, VmState(0, {})))
  {
  }

  lemma FetchAdvances(w: World)
    requires DataInv(w) && Healthy(w)
    requires var ph := w.driver.value.phase; ph.RoundPaused?
    ensures DriverCan(w, RoundFetch) && Nearer(w, RoundFetch, DriverStep(w, RoundFetch))
  {
    FetchPair(w.At(w.Src()), w.At(w.Dst()), w.driver.value.phase, w.liveRounds);
  }

  lemma RoundResumePair(src: Host, dst: Host, ph: Phase, live: bool)
    requires PairInv(src, dst, ph) && HealthyPair(src, dst, ph, live) && ph.RoundTaken?
    ensures NearerPair(src, dst, ph, live, RoundResume, src.(proc := Live(DT.Apply(src.proc.vmm, DT.Resume))), dst, RoundShip(ph.taken.value))
  {
  }

  lemma RoundResumeAdvances(w: World)
    requires DataInv(w) && Healthy(w)
    requires var ph := w.driver.value.phase; ph.RoundTaken?
    ensures DriverCan(w, RoundResume) && Nearer(w, RoundResume, DriverStep(w, RoundResume))
  {
    RoundResumePair(w.At(w.Src()), w.At(w.Dst()), w.driver.value.phase, w.liveRounds);
  }

  lemma ShipRoundPair(src: Host, dst: Host, ph: Phase, live: bool)
    requires PairInv(src, dst, ph) && HealthyPair(src, dst, ph, live) && ph.RoundShip?
    ensures NearerPair(src, dst, ph, live, ShipRound, src, OnMem(dst, ph.capture), RoundDue)
  {
  }

  lemma ShipRoundAdvances(w: World)
    requires DataInv(w) && Healthy(w)
    requires var ph := w.driver.value.phase; ph.RoundShip?
    ensures DriverCan(w, ShipRound) && Nearer(w, ShipRound, DriverStep(w, ShipRound))
  {
    ShipRoundPair(w.At(w.Src()), w.At(w.Dst()), w.driver.value.phase, w.liveRounds);
  }

  lemma FinalPausePair(src: Host, dst: Host, ph: Phase, live: bool)
    requires PairInv(src, dst, ph) && HealthyPair(src, dst, ph, live) && ph.Settled?
    ensures NearerPair(src, dst, ph, live, FinalPause, src.(proc := Live(DT.Apply(src.proc.vmm, DT.Pause))), dst, FinalPaused)
  {
  }

  lemma FinalPauseAdvances(w: World)
    requires DataInv(w) && Healthy(w)
    requires var ph := w.driver.value.phase; ph.Settled?
    ensures DriverCan(w, FinalPause) && Nearer(w, FinalPause, DriverStep(w, FinalPause))
  {
    FinalPausePair(w.At(w.Src()), w.At(w.Dst()), w.driver.value.phase, w.liveRounds);
  }

  lemma FinalFetchPair(src: Host, dst: Host, ph: Phase, live: bool)
    requires PairInv(src, dst, ph) && HealthyPair(src, dst, ph, live) && ph.FinalPaused?
    ensures NearerPair(src, dst, ph, live, FinalFetch, src.(proc := Live(DT.Apply(src.proc.vmm, DT.Fetch(false)))), dst, Dumping(true, VmState(src.proc.vmm.regs, src.proc.vmm.queues)))
  {
  }

  lemma FinalFetchAdvances(w: World)
    requires DataInv(w) && Healthy(w)
    requires var ph := w.driver.value.phase; ph.FinalPaused?
    ensures DriverCan(w, FinalFetch) && Nearer(w, FinalFetch, DriverStep(w, FinalFetch))
  {
    FinalFetchPair(w.At(w.Src()), w.At(w.Dst()), w.driver.value.phase, w.liveRounds);
  }

  lemma ShipFinalPair(src: Host, dst: Host, ph: Phase, live: bool)
    requires PairInv(src, dst, ph) && HealthyPair(src, dst, ph, live) && ph.FinalShip?
    ensures NearerPair(src, dst, ph, live, ShipFinal, src, OnMem(dst, ph.capture), StateDue(ph.snap, ph.saved))
  {
  }

  lemma ShipFinalAdvances(w: World)
    requires DataInv(w) && Healthy(w)
    requires var ph := w.driver.value.phase; ph.FinalShip?
    ensures DriverCan(w, ShipFinal) && Nearer(w, ShipFinal, DriverStep(w, ShipFinal))
  {
    ShipFinalPair(w.At(w.Src()), w.At(w.Dst()), w.driver.value.phase, w.liveRounds);
  }

  lemma ShipStatePair(src: Host, dst: Host, ph: Phase, live: bool)
    requires PairInv(src, dst, ph) && HealthyPair(src, dst, ph, live) && ph.StateDue?
    ensures NearerPair(src, dst, ph, live, ShipState, src, dst.(stateFile := ph.saved), LoadDue(ph.snap, ph.saved))
  {
  }

  lemma ShipStateAdvances(w: World)
    requires DataInv(w) && Healthy(w)
    requires var ph := w.driver.value.phase; ph.StateDue?
    ensures DriverCan(w, ShipState) && Nearer(w, ShipState, DriverStep(w, ShipState))
  {
    ShipStatePair(w.At(w.Src()), w.At(w.Dst()), w.driver.value.phase, w.liveRounds);
  }

  lemma LoadPair(src: Host, dst: Host, ph: Phase, live: bool)
    requires PairInv(src, dst, ph) && HealthyPair(src, dst, ph, live) && ph.LoadDue?
    ensures NearerPair(src, dst, ph, live, Load, src, OnLoad(dst), Loaded)
  {
  }

  lemma LoadAdvances(w: World)
    requires DataInv(w) && Healthy(w)
    requires var ph := w.driver.value.phase; ph.LoadDue?
    ensures DriverCan(w, Load) && Nearer(w, Load, DriverStep(w, Load))
  {
    LoadPair(w.At(w.Src()), w.At(w.Dst()), w.driver.value.phase, w.liveRounds);
  }

  lemma CommitPair(src: Host, dst: Host, ph: Phase, live: bool)
    requires PairInv(src, dst, ph) && HealthyPair(src, dst, ph, live) && ph.Loaded?
    ensures NearerPair(src, dst, ph, live, Commit, src, OnCommit(dst), Committed)
  {
  }

  lemma CommitAdvances(w: World)
    requires DataInv(w) && Healthy(w)
    requires var ph := w.driver.value.phase; ph.Loaded?
    ensures DriverCan(w, Commit) && Nearer(w, Commit, DriverStep(w, Commit))
  {
    CommitPair(w.At(w.Src()), w.At(w.Dst()), w.driver.value.phase, w.liveRounds);
  }

  lemma RoundDonePair(src: Host, dst: Host, ph: Phase, live: bool)
    requires PairInv(src, dst, ph) && HealthyPair(src, dst, ph, live) && ph.Dumping? && !ph.final
    requires src.proc.vmm.dump.value.todo == {}
    ensures var c := src.proc.vmm.dump.value.capture;
      NearerPair(src, dst, ph, live, DumpDone, src.(proc := Live(DT.Apply(src.proc.vmm, DT.DumpOk))), dst,
                 if live then RoundShip(c) else RoundTaken(Some(c)))
  {
  }

  lemma FinalDonePair(src: Host, dst: Host, ph: Phase, live: bool)
    requires PairInv(src, dst, ph) && HealthyPair(src, dst, ph, live) && ph.Dumping? && ph.final
    requires src.proc.vmm.dump.value.todo == {}
    ensures var v := src.proc.vmm;
      NearerPair(src, dst, ph, live, DumpDone, src.(proc := Live(DT.Apply(v, DT.DumpOk))), dst,
                 FinalShip(v.dump.value.capture, v.mem, ph.saved))
  {
  }

  lemma DumpAdvances(w: World)
    requires DataInv(w) && Healthy(w) && w.driver.value.phase.Dumping?
    requires w.At(w.Src()).proc.vmm.dump.value.todo == {}
    ensures DriverCan(w, DumpDone) && Nearer(w, DumpDone, DriverStep(w, DumpDone))
  {
    if w.driver.value.phase.final {
      FinalDonePair(w.At(w.Src()), w.At(w.Dst()), w.driver.value.phase, w.liveRounds);
    } else {
      RoundDonePair(w.At(w.Src()), w.At(w.Dst()), w.driver.value.phase, w.liveRounds);
    }
  }

  lemma EarlyAdvances(w: World)
    requires DataInv(w) && Healthy(w) && Rank(w.driver.value.phase) > Rank(RoundDue) && !w.driver.value.phase.Dumping?
    ensures var e := Next(w.driver.value.phase, Resync(w.At(w.Src())));
      DriverCan(w, e) && Nearer(w, e, DriverStep(w, e))
  {
    match w.driver.value.phase
    case Starting => PrepareAdvances(w);
    case Prepared => if Resync(w.At(w.Src())) { ResyncPauseAdvances(w); } else { SkipAdvances(w); }
    case ResyncPaused => SnapshotAdvances(w);
    case ResyncTaken(_) => ResyncResumeAdvances(w);
    case BaseDue => ShipBaseAdvances(w);
    case RoundPaused => FetchAdvances(w);
    case RoundTaken(_) => RoundResumeAdvances(w);
    case RoundShip(_) => ShipRoundAdvances(w);
  }

  lemma LateAdvances(w: World)
    requires DataInv(w) && Healthy(w) && 1 < Rank(w.driver.value.phase) <= Rank(RoundDue) && !w.driver.value.phase.Dumping?
    ensures var e := Next(w.driver.value.phase, false);
      DriverCan(w, e) && Nearer(w, e, DriverStep(w, e))
  {
    match w.driver.value.phase
    case RoundDue => ExitAdvances(w);
    case Settled => FinalPauseAdvances(w);
    case FinalPaused => FinalFetchAdvances(w);
    case FinalShip(_, _, _) => ShipFinalAdvances(w);
    case StateDue(_, _) => ShipStateAdvances(w);
    case LoadDue(_, _) => LoadAdvances(w);
    case Loaded => CommitAdvances(w);
  }

  /** The next event is possible and leads nearer to the end; a dump must have seen all its pages. */
  lemma Advances(w: World)
    requires DataInv(w) && Healthy(w) && !w.driver.value.phase.Committed?
    requires w.driver.value.phase.Dumping? ==> w.At(w.Src()).proc.vmm.dump.value.todo == {}
    ensures var e := Next(w.driver.value.phase, Resync(w.At(w.Src())));
      DriverCan(w, e) && Nearer(w, e, DriverStep(w, e))
  {
    if w.driver.value.phase.Dumping? {
      DumpAdvances(w);
    } else if Rank(w.driver.value.phase) > Rank(RoundDue) {
      EarlyAdvances(w);
    } else {
      LateAdvances(w);
    }
  }

  // ---------------------------------------------------------------- extending runs

  /** A loss-free run that has come to a healthy world of a migration. */
  ghost predicate UnderWay(ws: seq<World>, es: seq<Event>) {
    Run(ws, es) && LossFree(ws, es, |es|) && Healthy(ws[|es|])
  }

  lemma ExtendFree(ws: seq<World>, es: seq<Event>, e: Event) returns (ws': seq<World>, es': seq<Event>)
    requires Run(ws, es) && LossFree(ws, es, |es|) && CanHappen(ws[|es|], e) && !Lossy(ws[|es|], e)
    ensures es' == es + [e] && Run(ws', es') && LossFree(ws', es', |es'|) && ws'[|es'|] == Happen(ws[|es|], e)
  {
    ws' := ExtendRun(ws, es, e);
    es' := es + [e];
  }

  /** A run of the source's VMM inside a dump is a run of the protocol. */
  lemma {:induction false} LiftDump(ws: seq<World>, es: seq<Event>, steps: seq<DT.Step>) returns (ws': seq<World>, es': seq<Event>)
    requires Run(ws, es) && LossFree(ws, es, |es|) && ws[|es|].driver.Some? && ws[|es|].driver.value.phase.Dumping?
    requires var src := ws[|es|].At(ws[|es|].Src()); src.proc.Live? && DT.ValidRun(src.proc.vmm, steps)
    requires forall k :: 0 <= k < |steps| ==> steps[k].ReadWord? || steps[k].FinishPage? || steps[k].OverBudget?
    ensures Run(ws', es') && LossFree(ws', es', |es'|) && es <= es'
    ensures var w := ws[|es|]; var src := w.At(w.Src());
      ws'[|es'|] == w.With(w.Src(), src.(proc := Live(DT.Exec(src.proc.vmm, steps))))
    decreases |steps|
  {
    var w := ws[|es|];
    if steps == [] {
      ws', es' := ws, es;
    } else {
      DumpEvent(w, steps[0]);
      ws', es' := ExtendFree(ws, es, Drive(DumpStep(steps[0])));
      ws', es' := LiftDump(ws', es', steps[1..]);
    }
  }

  lemma DumpEvent(w: World, s: DT.Step)
    requires w.driver.Some? && w.driver.value.phase.Dumping? && (s.ReadWord? || s.FinishPage? || s.OverBudget?)
    requires w.At(w.Src()).proc.Live? && DT.Enabled(w.At(w.Src()).proc.vmm, s)
    ensures CanHappen(w, Drive(DumpStep(s)))
    ensures Happen(w, Drive(DumpStep(s))) == w.With(w.Src(), w.At(w.Src()).(proc := Live(DT.Apply(w.At(w.Src()).proc.vmm, s))))
  {
  }

  lemma {:induction false} Enumerate(pages: set<Page>) returns (dirty: seq<Page>)
    ensures DirtyDump.Distinct(dirty) && DirtyDump.Pages(dirty) == pages
    decreases pages
  {
    if pages == {} {
      dirty := [];
    } else {
      var p :| p in pages;
      var rest := Enumerate(pages - {p});
      dirty := [p] + rest;
      assert p !in DirtyDump.Pages(rest);
      assert forall j :: 1 <= j < |dirty| ==> dirty[j] == rest[j - 1];
      assert forall q :: q in DirtyDump.Pages(dirty) <==> q == p || q in DirtyDump.Pages(rest);
    }
  }

  /** A dump under way can be brought to its end with every remaining page dumped. */
  lemma DumpOut(v: DT.Vmm) returns (steps: seq<DT.Step>)
    requires v.dump.Some?
    ensures DT.ValidRun(v, steps)
    ensures forall k :: 0 <= k < |steps| ==> steps[k].ReadWord? || steps[k].FinishPage? || steps[k].OverBudget?
    ensures var w := DT.Exec(v, steps);
      && w.dump.Some? && w == v.(dump := w.dump)
      && w.dump.value.todo == {} && w.dump.value.live == v.dump.value.live && w.dump.value.leftover == v.dump.value.leftover
  {
    var dirty := Enumerate(v.dump.value.todo);
    steps := DumpRefinement.ScheduleExists(v.mem.Keys, dirty, |dirty|, 0);
    assert dirty[0..] == dirty;
    DumpRefinement.FollowsRuns(v, steps, dirty, |dirty|, 0, {}, true);
    DumpRefinement.QuietKeeps(v.mem, v.regs, steps);
    assert DirtyDump.Pages(dirty[|dirty|..]) == {};
    forall k | 0 <= k < |steps| ensures steps[k].ReadWord? || steps[k].FinishPage? || steps[k].OverBudget? {
      assert DT.InsideDump(steps[k]) && !steps[k].GuestWrite?;
    }
  }

  lemma DumpedOut(w: World, v: DT.Vmm)
    requires Healthy(w) && w.driver.value.phase.Dumping? && v.dump.Some?
    requires v == w.At(w.Src()).proc.vmm.(dump := v.dump)
    ensures var w' := w.With(w.Src(), w.At(w.Src()).(proc := Live(v)));
      && Healthy(w') && Goal(w') == Goal(w) && w'.driver == w.driver && w'.liveRounds == w.liveRounds && OwedAt(w') == OwedAt(w)
      && w'.At(w'.Src()).proc == Live(v)
  {
  }

  /** The run goes on inside the dump until it has seen all its pages. */
  lemma FinishDump(ws: seq<World>, es: seq<Event>) returns (ws': seq<World>, es': seq<Event>)
    requires UnderWay(ws, es) && ws[|es|].driver.value.phase.Dumping?
    ensures UnderWay(ws', es') && es <= es'
    ensures var w, w' := ws[|es|], ws'[|es'|];
      && Goal(w') == Goal(w) && w'.driver == w.driver && w'.liveRounds == w.liveRounds && OwedAt(w') == OwedAt(w)
      && w'.At(w'.Src()).proc.vmm.dump.value.todo == {}
  {
    var v := ws[|es|].At(ws[|es|].Src()).proc.vmm;
    var steps := DumpOut(v);
    ws', es' := LiftDump(ws, es, steps);
    DumpedOut(ws[|es|], DT.Exec(v, steps));
  }

  /** w' is nearer to the end than w, and everything owed on the way was passed. */
  ghost predicate NearerBy(w: World, es: seq<Event>, w': World)
    requires Healthy(w) && Healthy(w')
  {
    && Goal(w') == Goal(w) && w'.Src() == w.Src() && w'.liveRounds == w.liveRounds
    && Rank(w'.driver.value.phase) < Rank(w.driver.value.phase)
    && (Rank(w.driver.value.phase) > Rank(RoundDue) ==> Rank(w'.driver.value.phase) >= Rank(RoundDue))
    && forall e :: e in OwedAt(w) ==> Drive(e) in es || e in OwedAt(w')
  }

  lemma StepNearer(ws: seq<World>, es: seq<Event>) returns (ws': seq<World>, es': seq<Event>)
    requires UnderWay(ws, es) && !ws[|es|].driver.value.phase.Committed?
    requires ws[|es|].driver.value.phase.Dumping? ==> ws[|es|].At(ws[|es|].Src()).proc.vmm.dump.value.todo == {}
    ensures UnderWay(ws', es') && es <= es' && NearerBy(ws[|es|], es', ws'[|es'|])
  {
    var w := ws[|es|];
    RunKeepsData(ws, es, |es|);
    Advances(w);
    var e := Next(w.driver.value.phase, Resync(w.At(w.Src())));
    ws', es' := ExtendFree(ws, es, Drive(e));
    assert es'[|es'| - 1] == Drive(e);
  }

  /** One advance of a run, a dump in between brought to its end first. */
  lemma AdvanceRun(ws: seq<World>, es: seq<Event>) returns (ws': seq<World>, es': seq<Event>)
    requires UnderWay(ws, es) && !ws[|es|].driver.value.phase.Committed?
    ensures UnderWay(ws', es') && es <= es' && NearerBy(ws[|es|], es', ws'[|es'|])
  {
    if ws[|es|].driver.value.phase.Dumping? {
      ws', es' := FinishDump(ws, es);
      ws', es' := StepNearer(ws', es');
    } else {
      ws', es' := StepNearer(ws, es);
    }
  }

  lemma ReplyEnds(w: World)
    requires Healthy(w) && w.driver.value.phase.Committed?
    ensures DriverCan(w, Reply)
    ensures var w' := DriverStep(w, Reply);
      && w'.driver.None? && w'.At(w.Dst()) == w.At(w.Dst())
      && w'.At(w.Src()).proc.NoProc? && w'.At(w.Src()).InState(Migrated)
  {
  }

  /** Source and target hosts after success: the source's process is gone and its slot migrated, the target runs m. */
  ghost predicate Moved(src: Host, dst: Host, m: Machine) {
    src.proc.NoProc? && src.InState(Migrated) && dst.InState(Running) && dst.VcpusRun() && MachineOf(dst.proc.vmm) == m
  }

  /** From every healthy world of a migration a run leads to success, without losing track of the target, and the target
      then runs the machine that was on its way. */
  lemma {:induction false} MigrationCanFinish(ws: seq<World>, es: seq<Event>) returns (ws': seq<World>, es': seq<Event>)
    requires UnderWay(ws, es)
    ensures Run(ws', es') && LossFree(ws', es', |es'|) && es < es' && es'[|es'| - 1] == Drive(Reply)
    ensures var w, w' := ws[|es|], ws'[|es'|];
      w'.driver.None? && Moved(w'.At(w.Src()), w'.At(w.Dst()), Goal(w))
    decreases Rank(ws[|es|].driver.value.phase)
  {
    if ws[|es|].driver.value.phase.Committed? {
      ReplyEnds(ws[|es|]);
      ws', es' := ExtendFree(ws, es, Drive(Reply));
    } else {
      ws', es' := AdvanceRun(ws, es);
      ws', es' := MigrationCanFinish(ws', es');
    }
  }

  /** Until the top of the round loop, passing everything owed. */
  lemma {:induction false} ToRoundLoop(ws: seq<World>, es: seq<Event>) returns (ws': seq<World>, es': seq<Event>)
    requires UnderWay(ws, es) && Rank(ws[|es|].driver.value.phase) >= Rank(RoundDue)
    ensures UnderWay(ws', es') && es <= es' && ws'[|es'|].driver.value.phase.RoundDue?
    ensures var w, w' := ws[|es|], ws'[|es'|];
      && Goal(w') == Goal(w) && w'.Src() == w.Src() && w'.liveRounds == w.liveRounds
      && forall e :: e in OwedAt(w) ==> Drive(e) in es'
    decreases Rank(ws[|es|].driver.value.phase)
  {
    if ws[|es|].driver.value.phase.RoundDue? {
      ws', es' := ws, es;
    } else {
      ws', es' := AdvanceRun(ws, es);
      ws', es' := ToRoundLoop(ws', es');
    }
  }

  /** One whole round: live, or stock with its pause and resume. */
  lemma WholeRound(ws: seq<World>, es: seq<Event>) returns (ws': seq<World>, es': seq<Event>)
    requires UnderWay(ws, es) && ws[|es|].driver.value.phase.RoundDue?
    ensures UnderWay(ws', es') && es <= es' && ws'[|es'|].driver.value.phase.RoundDue?
    ensures var w, w' := ws[|es|], ws'[|es'|];
      Goal(w') == Goal(w) && w'.Src() == w.Src() && w'.liveRounds == w.liveRounds
    ensures Drive(ShipRound) in es'
    ensures !ws[|es|].liveRounds ==> Drive(RoundPause) in es' && Drive(RoundResume) in es'
  {
    ws', es' := BeginRound(ws, es);
    var es1 := es';
    ws', es' := ToRoundLoop(ws', es');
    assert es'[|es|] == es1[|es|];
  }

  lemma BeginRound(ws: seq<World>, es: seq<Event>) returns (ws': seq<World>, es': seq<Event>)
    requires UnderWay(ws, es) && ws[|es|].driver.value.phase.RoundDue?
    ensures UnderWay(ws', es') && es' == es + [Drive(if ws[|es|].liveRounds then RoundFetch else RoundPause)]
    ensures var w, w' := ws[|es|], ws'[|es'|];
      && Goal(w') == Goal(w) && w'.Src() == w.Src() && w'.liveRounds == w.liveRounds
      && w'.driver.value.phase == if w.liveRounds then Dumping(false, VmState(0, {})) else RoundPaused
  {
    RunKeepsData(ws, es, |es|);
    RoundBegins(ws[|es|]);
    ws', es' := ExtendFree(ws, es, Drive(if ws[|es|].liveRounds then RoundFetch else RoundPause));
  }

  /** A round begins with the log fetch of a running VM, or with a pause. */
  lemma RoundBegins(w: World)
    requires DataInv(w) && Healthy(w) && w.driver.value.phase.RoundDue?
    ensures var e := if w.liveRounds then RoundFetch else RoundPause;
      && DriverCan(w, e)
      && var w' := DriverStep(w, e);
      && Healthy(w') && Goal(w') == Goal(w) && w'.Src() == w.Src() && w'.liveRounds == w.liveRounds
      && w'.driver.value.phase == if w.liveRounds then Dumping(false, VmState(0, {})) else RoundPaused
  {
    if w.liveRounds {
      LiveRoundBegins(w);
    } else {
      StockRoundBegins(w);
    }
  }

  lemma LiveRoundBegins(w: World)
    requires DataInv(w) && Healthy(w) && w.driver.value.phase.RoundDue? && w.liveRounds
    ensures DriverCan(w, RoundFetch)
    ensures var w' := DriverStep(w, RoundFetch);
      && Healthy(w') && Goal(w') == Goal(w) && w'.Src() == w.Src() && w'.liveRounds
      && w'.driver.value.phase == Dumping(false, VmState(0, {}))
  {
  }

  lemma StockRoundBegins(w: World)
    requires DataInv(w) && Healthy(w) && w.driver.value.phase.RoundDue? && !w.liveRounds
    ensures DriverCan(w, RoundPause)
    ensures var w' := DriverStep(w, RoundPause);
      && Healthy(w') && Goal(w') == Goal(w) && w'.Src() == w.Src() && !w'.liveRounds && w'.driver.value.phase == RoundPaused
  {
  }

  // ---------------------------------------------------------------- what the machine writes meanwhile

  predicate IsWrite(s: DT.Step) {
    s.GuestWrite? || s.DeviceWrite? || s.QueueWrite?
  }

  /** Writes of the guest, the device model and to the queues that a running machine of this shape can make. */
  ghost predicate WritesOf(mem: Image, queues: set<Page>, writes: seq<DT.Step>) {
    forall i :: 0 <= i < |writes| ==>
      IsWrite(writes[i]) && writes[i].loc in mem && (writes[i].QueueWrite? ==> writes[i].loc.page in queues)
  }

  /** Memory and registers after the writes. */
  ghost function After(m: Machine, writes: seq<DT.Step>): Machine
    requires forall i :: 0 <= i < |writes| ==> IsWrite(writes[i])
    decreases |writes|
  {
    if writes == [] then m
    else
      assert IsWrite(writes[0]);
      After(m.(mem := m.mem[writes[0].loc := writes[0].val], regs := writes[0].regs), writes[1..])
  }

  lemma {:induction false} WritesRun(v: DT.Vmm, writes: seq<DT.Step>)
    requires v.running && v.dump.None? && WritesOf(v.mem, v.queues, writes)
    ensures DT.ValidRun(v, writes)
    ensures var w := DT.Exec(v, writes);
      w.running && w.dump.None? && w.mem.Keys == v.mem.Keys && MachineOf(w) == After(MachineOf(v), writes)
    decreases |writes|
  {
    if writes != [] {
      var v' := DT.Apply(v, writes[0]);
      assert v'.mem.Keys == v.mem.Keys;
      WritesRun(v', writes[1..]);
    }
  }

  /** The machine's own writes are environment events at any time. */
  lemma {:induction false} LiftWrites(ws: seq<World>, es: seq<Event>, h: HostId, writes: seq<DT.Step>)
    returns (ws': seq<World>, es': seq<Event>)
    requires Run(ws, es) && LossFree(ws, es, |es|) && ws[|es|].At(h).proc.Live?
    requires var v := ws[|es|].At(h).proc.vmm; DT.ValidRun(v, writes)
    requires forall i :: 0 <= i < |writes| ==> IsWrite(writes[i])
    ensures Run(ws', es') && LossFree(ws', es', |es'|) && es <= es'
    ensures var w := ws[|es|];
      ws'[|es'|] == w.With(h, w.At(h).(proc := Live(DT.Exec(w.At(h).proc.vmm, writes))))
    ensures |es'| == |es| + |writes| && forall i :: 0 <= i < |writes| ==> es'[|es| + i] == Env(Write(h, writes[i]))
    decreases |writes|
  {
    if writes == [] {
      ws', es' := ws, es;
    } else {
      WriteEvent(ws[|es|], h, writes[0]);
      ws', es' := ExtendFree(ws, es, Env(Write(h, writes[0])));
      ws', es' := LiftWrites(ws', es', h, writes[1..]);
    }
  }

  lemma WriteEvent(w: World, h: HostId, s: DT.Step)
    requires w.At(h).proc.Live? && DT.Enabled(w.At(h).proc.vmm, s) && IsWrite(s)
    ensures CanHappen(w, Env(Write(h, s)))
    ensures Happen(w, Env(Write(h, s))) == w.With(h, w.At(h).(proc := Live(DT.Apply(w.At(h).proc.vmm, s))))
  {
  }

  /** The guest goes on writing between two rounds. */
  lemma WriteBetweenRounds(ws: seq<World>, es: seq<Event>, writes: seq<DT.Step>) returns (ws': seq<World>, es': seq<Event>)
    requires UnderWay(ws, es) && ws[|es|].driver.value.phase.RoundDue?
    requires WritesOf(Goal(ws[|es|]).mem, Goal(ws[|es|]).queues, writes)
    ensures UnderWay(ws', es') && es <= es' && ws'[|es'|].driver == ws[|es|].driver
    ensures ws'[|es'|].liveRounds == ws[|es|].liveRounds && Goal(ws'[|es'|]) == After(Goal(ws[|es|]), writes)
    ensures forall i :: 0 <= i < |writes| ==> Env(Write(ws[|es|].Src(), writes[i])) in es'
  {
    var w := ws[|es|];
    WritesRun(w.At(w.Src()).proc.vmm, writes);
    ws', es' := LiftWrites(ws, es, w.Src(), writes);
    forall i | 0 <= i < |writes| ensures Env(Write(w.Src(), writes[i])) in es' {
      assert es'[|es| + i] == Env(Write(w.Src(), writes[i]));
    }
    Rewritten(w, DT.Exec(w.At(w.Src()).proc.vmm, writes));
  }

  lemma Rewritten(w: World, v: DT.Vmm)
    requires Healthy(w) && w.driver.value.phase.RoundDue? && v.dump.None? && v.running
    ensures var w' := w.With(w.Src(), w.At(w.Src()).(proc := Live(v)));
      Healthy(w') && w'.driver == w.driver && w'.liveRounds == w.liveRounds && Goal(w') == MachineOf(v)
  {
  }

  // ---------------------------------------------------------------- what can go wrong

  /** Calls the driver is about to make that can fail before their effect, cut short, or during a dump. */
  ghost predicate MayFail(w: World, e: DriverEvent)
    requires Healthy(w)
  {
    var ph := w.driver.value.phase;
    || (e == Fail && !ph.Dumping? && !ph.Loaded? && !ph.Committed?)
    || (e == PrepareRpc(false) && ph.Starting?)
    || (e.ShipFails? && (ph.BaseDue? || ph.RoundShip? || ph.FinalShip? || ph.StateDue?))
    || (e == DumpFails && ph.Dumping?)
    || (e.FetchFails? && (ph.RoundDue? || ph.RoundPaused? || ph.FinalPaused?))
    || (e.ResyncSnapshot? && !e.ok && ph.ResyncPaused?)
    || (e == LoadReportedFailed && ph.Loaded?)
    || (e == LoseReply && ph.Committed?)
  }

  /** Every such failure is among the runs the safety theorems speak of. */
  lemma FailuresArePossible(w: World, e: DriverEvent)
    requires DataInv(w) && Healthy(w) && MayFail(w, e)
    ensures CanHappen(w, Drive(e))
  {
  }

  /** And so are crashes and deletions at any time, on either host. */
  lemma FaultsArePossible(w: World, h: HostId)
    ensures CanHappen(w, Env(Delete(h)))
    ensures w.At(h).proc.Live? ==> CanHappen(w, Env(Crash(h)))
    ensures w.At(h).InState(Booting) ==> CanHappen(w, Env(BootFail(h)))
  {
  }
}
