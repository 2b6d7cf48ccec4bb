/** The two-host migration protocol for one VM ID, as a labelled transition system.

    The source agent's migrate/migrateInner is a program counter (Phase); the target agent's handlers are
    its RPCs' effects; guests, device models, crashes and deletions interleave freely.  An RPC may fail
    before its effect, take effect and be answered, or (prepare, mem, vmstate) take effect partially or
    wholly and still be reported as failed.  A finalize that took effect can be reported as failed in two ways, with a
    label each: the target's VMM does not answer its agent in time, or the agent's reply is lost.
 */
module Migration {
  import opened Options
  import opened GuestMemory
  import DT = DirtyTracking

  datatype HostId = A | B

  function Peer(h: HostId): HostId {
    if h == A then B else A
  }

  datatype SlotState = Booting | Running | Migrating | Receiving | Migrated | Dead

  /** baseMem is a path in the VM's runtime directory: unset, base.mem or recv.mem. */
  datatype BasePath = NoBase | BaseMem | RecvMem

  datatype Slot = Slot(state: SlotState, base: BasePath, needsResync: bool)

  /** The VMM process of the slot: none, spawned without a machine, or holding a machine. */
  datatype Proc = NoProc | Spawned | Live(vmm: DT.Vmm)

  /** The vmstate file: vCPU and device state, opaque, including where the queues lie. */
  datatype VmState = VmState(regs: int, queues: set<Page>)

  datatype Host = Host(slot: Option<Slot>, proc: Proc, baseFile: Image, recvFile: Image, stateFile: VmState)
  {
    /** The memory file baseMem names. */
    ghost function BaseImage(): Image
      requires slot.Some?
    {
      match slot.value.base
      case NoBase => map[]
      case BaseMem => baseFile
      case RecvMem => recvFile
    }

    ghost predicate VcpusRun() {
      proc.Live? && proc.vmm.running
    }

    ghost predicate InState(s: SlotState) {
      slot.Some? && slot.value.state == s
    }

    /** Updates the slot if it is still registered. */
    ghost function SetState(s: SlotState): Host {
      if slot.Some? then this.(slot := Some(slot.value.(state := s))) else this
    }
  }

  datatype Phase =
    | Starting                                       // slot is Migrating, prepare not yet posted
    | Prepared
    | ResyncPaused
    | ResyncTaken(ok: bool)
    | BaseDue                                        // base image to be shipped
    | RoundDue                                       // top of the round loop
    | RoundPaused                                    // stock mode: paused for a Diff
    | Dumping(final: bool, saved: VmState)           // CreateSnapshot in progress
    | RoundTaken(taken: Option<Image>)               // stock mode: Diff done or failed, still paused
    | RoundShip(capture: Image)
    | Settled                                        // loop left, throttle released
    | FinalPaused
    | FinalShip(capture: Image, snap: Image, saved: VmState)
    | StateDue(snap: Image, saved: VmState)
    | LoadDue(snap: Image, saved: VmState)
    | Loaded                                         // target resumed, slot not yet marked running
    | Committed                                      // target done, reply not yet received
    | Failing(prepared: bool, loaded: bool)          // migrateInner returned an error; what had taken effect on the target
    | AbortSent(prepared: bool)                      // abort posted, needsResync set

  datatype Driver = Driver(src: HostId, phase: Phase)

  datatype World = World(a: Host, b: Host, driver: Option<Driver>, liveRounds: bool)
  {
    ghost function At(h: HostId): Host {
      if h == A then a else b
    }

    ghost function With(h: HostId, host: Host): World {
      if h == A then this.(a := host) else this.(b := host)
    }

    ghost predicate In(src: HostId, phase: Phase) {
      driver == Some(Driver(src, phase))
    }

    ghost function Go(phase: Phase): World
      requires driver.Some?
    {
      this.(driver := Some(driver.value.(phase := phase)))
    }

    ghost function Src(): HostId
      requires driver.Some?
    {
      driver.value.src
    }

    ghost function Dst(): HostId
      requires driver.Some?
    {
      Peer(driver.value.src)
    }

    /** The VMM at h can take step s. */
    ghost predicate Can(h: HostId, s: DT.Step) {
      At(h).proc.Live? && DT.Enabled(At(h).proc.vmm, s)
    }

    ghost function Do(h: HostId, s: DT.Step): World
      requires Can(h, s)
    {
      With(h, At(h).(proc := Live(DT.Apply(At(h).proc.vmm, s))))
    }
  }

  /** What guests, operators and faults do. */
  datatype EnvEvent =
    | Write(h: HostId, step: DT.Step)
    | Crash(h: HostId)
    | Delete(h: HostId)
    | BootStart(h: HostId, vmm: DT.Vmm)
    | BootPause(h: HostId)
    | BootSnapshot(h: HostId)
    | BootDone(h: HostId)
    | BootFail(h: HostId)
    | Migrate(h: HostId)

  /** What the source agent's migrate does next, with the outcome of the call it makes. */
  datatype DriverEvent =
    | PrepareRpc(answered: bool)
    | SkipResync
    | ResyncPause
    | ResyncSnapshot(ok: bool, junk: Image)
    | ResyncResume
    | ShipBase
    | RoundPause
    | RoundFetch
    | DumpStep(step: DT.Step)
    | DumpDone
    | DumpFails
    | FetchFails(lost: set<Page>)
    | RoundResume
    | ShipRound
    | ExitLoop
    | FinalPause
    | FinalFetch
    | ShipFinal
    | ShipState
    | ShipFails(junk: Image, junkState: VmState)     // a transfer that is cut short after any partial effect
    | Load
    | LoadReportedFailed                             // the load took effect, but the VMM's answer did not arrive
    | Commit
    | Reply
    | LoseReply
    | Fail                                           // any step that fails before its effect
    | AbortRpc(reached: bool)
    | Rollback(resumed: bool)

  datatype Event = Env(env: EnvEvent) | Drive(step: DriverEvent)

  /** A slot that POST /vms may replace. */
  ghost predicate Bootable(host: Host) {
    host.slot.None? || host.slot.value.state == Migrated || host.slot.value.state == Dead
  }

  ghost predicate Shipping(p: Phase) {
    p.BaseDue? || p.RoundShip? || p.FinalShip? || p.StateDue?
  }

  ghost predicate EnvCan(w: World, e: EnvEvent) {
    match e
    case Write(h, s) => (s.GuestWrite? || s.DeviceWrite? || s.QueueWrite?) && w.Can(h, s)
    case Crash(h) => !w.At(h).proc.NoProc?
    case Delete(h) => true
    case BootStart(h, v) =>
      && w.driver.None? && Bootable(w.At(h)) && !w.a.proc.Live? && !w.b.proc.Live?
      && v.dump.None? && v.running && v.queues <= v.bitmap
    case BootPause(h) => w.At(h).InState(Booting) && w.Can(h, DT.Pause)
    case BootSnapshot(h) => w.At(h).InState(Booting) && w.Can(h, DT.Full)
    case BootDone(h) => w.At(h).InState(Booting) && w.At(h).slot.value.base == BaseMem && w.Can(h, DT.Resume)
    case BootFail(h) => w.At(h).InState(Booting)
    case Migrate(h) => w.driver.None? && w.At(h).InState(Running)
  }

  ghost predicate DriverCan(w: World, e: DriverEvent)
    requires w.driver.Some?
  {
    var src, dst, ph := w.Src(), w.Dst(), w.driver.value.phase;
    match e
    case PrepareRpc(_) => ph.Starting?
    case SkipResync => ph.Prepared? && w.At(src).slot.Some? && !w.At(src).slot.value.needsResync
    case ResyncPause => ph.Prepared? && w.At(src).slot.Some? && w.At(src).slot.value.needsResync && w.Can(src, DT.Pause)
    case ResyncSnapshot(_, _) => ph.ResyncPaused? && w.Can(src, DT.Full)
    case ResyncResume => ph.ResyncTaken? && w.At(src).slot.Some? && w.Can(src, DT.Resume)
    case ShipBase => ph.BaseDue? && w.At(src).slot.Some? && w.At(dst).InState(Receiving)
    case RoundPause => ph.RoundDue? && !w.liveRounds && w.Can(src, DT.Pause)
    case RoundFetch =>
      && (if w.liveRounds then ph.RoundDue? else ph.RoundPaused?)
      && w.Can(src, DT.Fetch(w.liveRounds))
    case DumpStep(s) => ph.Dumping? && (s.ReadWord? || s.FinishPage? || s.OverBudget?) && w.Can(src, s)
    case DumpDone => ph.Dumping? && w.Can(src, DT.DumpOk)
    case DumpFails => ph.Dumping? && w.Can(src, DT.DumpErr)
    case FetchFails(lost) => (ph.RoundDue? || ph.RoundPaused? || ph.FinalPaused?) && w.Can(src, DT.FetchErr(lost))
    case RoundResume => ph.RoundTaken? && w.Can(src, DT.Resume)
    case ShipRound => ph.RoundShip? && w.At(dst).InState(Receiving)
    case ExitLoop => ph.RoundDue?
    case FinalPause => ph.Settled? && w.Can(src, DT.Pause)
    case FinalFetch => ph.FinalPaused? && w.Can(src, DT.Fetch(false))
    case ShipFinal => ph.FinalShip? && w.At(dst).InState(Receiving)
    case ShipState => ph.StateDue? && w.At(dst).InState(Receiving)
    case ShipFails(_, _) => Shipping(ph) && w.At(dst).InState(Receiving)
    case Load => ph.LoadDue? && w.At(dst).InState(Receiving) && w.At(dst).proc.Spawned?
    case LoadReportedFailed => ph.Loaded?
    case Commit => ph.Loaded?
    case Reply => ph.Committed?
    case LoseReply => ph.Committed?
    case Fail => !ph.Loaded? && !ph.Committed? && !ph.Failing? && !ph.AbortSent? &&
                 (w.At(src).proc.Live? ==> w.At(src).proc.vmm.dump.None?)
    case AbortRpc(_) => ph.Failing?
    case Rollback(ok) => ph.AbortSent? && (ok ==> w.Can(src, DT.Resume))
  }

  ghost predicate CanHappen(w: World, e: Event) {
    match e
    case Env(x) => EnvCan(w, x)
    case Drive(x) => w.driver.Some? && DriverCan(w, x)
  }

  /** handlePrepare: replaces and kills any previous occupant, truncates recv.mem. */
  ghost function OnPrepare(host: Host): Host {
    host.(slot := Some(Slot(Receiving, NoBase, false)), proc := Spawned, recvFile := map[])
  }

  /** handleMem: overlays the stream's extents on recv.mem. */
  ghost function OnMem(host: Host, capture: Image): Host {
    host.(recvFile := host.recvFile + capture)
  }

  /** handleFinalize up to the resumed guest: the restored VM maps recv.mem privately, starts with an
      empty KVM log, and activating its devices marks their queue pages. */
  ghost function OnLoad(host: Host): Host {
    var st := host.stateFile;
    host.(proc := Live(DT.Vmm(host.recvFile, st.regs, st.queues, {}, st.queues, true, None)))
  }

  /** The rest of handleFinalize. */
  ghost function OnCommit(host: Host): Host {
    if host.slot.Some? then host.(slot := Some(host.slot.value.(state := Running, base := RecvMem))) else host
  }

  /** handleAbort: only a receiving slot is torn down, with its directory. */
  ghost function OnAbort(host: Host): Host {
    if host.InState(Receiving)
    then Host(None, NoProc, map[], map[], VmState(0, {}))
    else host
  }

  ghost function SetResync(host: Host, base: Option<BasePath>, flag: bool): Host {
    if host.slot.None? then host
    else host.(slot := Some(host.slot.value.(
                        needsResync := flag,
                        base := if base.Some? then base.value else host.slot.value.base)))
  }

  ghost function EnvStep(w: World, e: EnvEvent): World
    requires EnvCan(w, e)
  {
    match e
    case Write(h, s) => w.Do(h, s)
    case Crash(h) => w.With(h, w.At(h).(proc := NoProc))
    case Delete(h) => w.With(h, w.At(h).(slot := None, proc := NoProc))
    case BootStart(h, v) => w.With(h, w.At(h).(slot := Some(Slot(Booting, NoBase, false)), proc := Live(v)))
    case BootPause(h) => w.Do(h, DT.Pause)
    case BootSnapshot(h) =>
      var w1 := w.Do(h, DT.Full);
      w1.With(h, w1.At(h).(baseFile := w.At(h).proc.vmm.mem, slot := Some(w.At(h).slot.value.(base := BaseMem))))
    case BootDone(h) => var w1 := w.Do(h, DT.Resume); w1.With(h, w1.At(h).SetState(Running))
    case BootFail(h) => w.With(h, w.At(h).(proc := NoProc).SetState(Dead))
    case Migrate(h) => w.With(h, w.At(h).SetState(Migrating)).(driver := Some(Driver(h, Starting)))
  }

  ghost function DriverStep(w: World, e: DriverEvent): World
    requires w.driver.Some? && DriverCan(w, e)
  {
    var src, dst, ph := w.Src(), w.Dst(), w.driver.value.phase;
    match e
    case PrepareRpc(answered) => w.With(dst, OnPrepare(w.At(dst))).Go(if answered then Prepared else Failing(true, false))
    case SkipResync => w.Go(BaseDue)
    case ResyncPause => w.Do(src, DT.Pause).Go(ResyncPaused)
    case ResyncSnapshot(ok, junk) =>
      var w1 := if ok then w.Do(src, DT.Full) else w;
      w1.With(src, w1.At(src).(baseFile := if ok then w.At(src).proc.vmm.mem else junk)).Go(ResyncTaken(ok))
    case ResyncResume =>
      var w1 := w.Do(src, DT.Resume);
      if ph.ok then w1.With(src, SetResync(w1.At(src), Some(BaseMem), false)).Go(BaseDue) else w1.Go(Failing(true, false))
    case ShipBase => w.With(dst, OnMem(w.At(dst), w.At(src).BaseImage())).Go(RoundDue)
    case RoundPause => w.Do(src, DT.Pause).Go(RoundPaused)
    case RoundFetch => w.Do(src, DT.Fetch(w.liveRounds)).Go(Dumping(false, VmState(0, {})))
    case DumpStep(s) => w.Do(src, s)
    case DumpDone =>
      var v := w.At(src).proc.vmm;
      var w1 := w.Do(src, DT.DumpOk);
      if ph.final then w1.Go(FinalShip(v.dump.value.capture, v.mem, ph.saved))
      else if w.liveRounds then w1.Go(RoundShip(v.dump.value.capture))
      else w1.Go(RoundTaken(Some(v.dump.value.capture)))
    case DumpFails => w.Do(src, DT.DumpErr).Go(if ph.final || w.liveRounds then Failing(true, false) else RoundTaken(None))
    case FetchFails(lost) =>
      w.Do(src, DT.FetchErr(lost)).Go(if ph.RoundPaused? then RoundTaken(None) else Failing(true, false))
    case RoundResume => w.Do(src, DT.Resume).Go(if ph.taken.Some? then RoundShip(ph.taken.value) else Failing(true, false))
    case ShipRound => w.With(dst, OnMem(w.At(dst), ph.capture)).Go(RoundDue)
    case ExitLoop => w.Go(Settled)
    case FinalPause => w.Do(src, DT.Pause).Go(FinalPaused)
    case FinalFetch =>
      var v := w.At(src).proc.vmm;
      w.Do(src, DT.Fetch(false)).Go(Dumping(true, VmState(v.regs, v.queues)))
    case ShipFinal => w.With(dst, OnMem(w.At(dst), ph.capture)).Go(StateDue(ph.snap, ph.saved))
    case ShipState => w.With(dst, w.At(dst).(stateFile := ph.saved)).Go(LoadDue(ph.snap, ph.saved))
    case ShipFails(junk, junkState) =>
      w.With(dst, w.At(dst).(recvFile := junk, stateFile := junkState)).Go(Failing(true, false))
    case Load => w.With(dst, OnLoad(w.At(dst))).Go(Loaded)
    case Commit => w.With(dst, OnCommit(w.At(dst))).Go(Committed)
    case Reply => w.With(src, w.At(src).(proc := NoProc).SetState(Migrated)).(driver := None)
    case LoadReportedFailed => w.Go(Failing(true, true))
    case LoseReply => w.Go(Failing(true, true))
    case Fail => w.Go(Failing(!ph.Starting?, false))
    case AbortRpc(reached) =>
      var w1 := if reached then w.With(dst, OnAbort(w.At(dst))) else w;
      w1.With(src, SetResync(w1.At(src), None, true)).Go(AbortSent(ph.prepared))
    case Rollback(ok) =>
      var w1 := if ok then w.Do(src, DT.Resume) else w;
      w1.With(src, w1.At(src).SetState(if ok then Running else Dead)).(driver := None)
  }

  ghost function Happen(w: World, e: Event): World
    requires CanHappen(w, e)
  {
    match e
    case Env(x) => EnvStep(w, x)
    case Drive(x) => DriverStep(w, x)
  }

  /** Two agents that know nothing of the VM. */
  ghost predicate Init(w: World) {
    w.driver.None? && w.a.slot.None? && w.b.slot.None? && w.a.proc.NoProc? && w.b.proc.NoProc?
  }

  /** Event i leads from world i to world i + 1. */
  ghost predicate StepAt(ws: seq<World>, es: seq<Event>, i: nat) {
    i < |es| && i + 1 < |ws| && CanHappen(ws[i], es[i]) && ws[i + 1] == Happen(ws[i], es[i])
  }

  /** A run: worlds ws connected by events es. */
  ghost predicate Run(ws: seq<World>, es: seq<Event>) {
    && |ws| == |es| + 1
    && Init(ws[0])
    && forall i: nat {:trigger StepAt(ws, es, i)} :: i < |es| ==> StepAt(ws, es, i)
  }
}
