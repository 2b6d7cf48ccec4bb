/** The agent's objects: VM slots, the registry, the target-side handlers and the source-side bookkeeping.

    The handlers update slots and registry in place; each contract ties the new state of the ID it serves to the
    protocol model's function, and says that no other ID is touched.  What processes, files and peers answer is a
    parameter.
 */
module AgentState {
  import opened Options
  import opened GuestMemory
  import DT = DirtyTracking
  import opened Migration
  import opened MigrationSafety
  import opened MigrationExclusion

  type VmId = string

  const OK: int := 200
  const BAD_REQUEST: int := 400
  const CONFLICT: int := 409
  const INTERNAL: int := 500

  class VM {
    const id: VmId
    var state: SlotState
    var base: BasePath
    var needsResync: bool
    var proc: Proc

    constructor (id: VmId, state: SlotState)
      ensures this.id == id && this.state == state && base == NoBase && !needsResync && proc == NoProc
    {
      this.id, this.state, base, needsResync, proc := id, state, NoBase, false, NoProc;
    }

    ghost function AsSlot(): Slot
      reads this
    {
      Slot(state, base, needsResync)
    }

    method Kill()
      modifies this`proc
      ensures proc == NoProc
    {
      proc := NoProc;
    }
  }

  /** The memory and state files in a VM's runtime directory. */
  datatype Files = Files(baseFile: Image, recvFile: Image, stateFile: VmState)

  /** What arrived on a /mem request: a whole stream, or a broken one that left the file in some state. */
  datatype MemBody = WholeStream(capture: Image) | BrokenStream(left: Image)

  datatype StateBody = WholeState(st: VmState) | BrokenState(left: VmState)

  class Agent {
    var vms: map<VmId, VM>
    var files: map<VmId, Files>

    ghost predicate Valid()
      reads this, vms.Values
    {
      forall id :: id in vms ==> vms[id].id == id
    }

    ghost function FilesOf(id: VmId): Files
      reads this
    {
      if id in files then files[id] else Files(map[], map[], VmState(0, {}))
    }

    /** The protocol model's view of one ID. */
    ghost function HostOf(id: VmId): Host
      reads this, vms.Values
    {
      var f := FilesOf(id);
      if id in vms
      then Host(Some(vms[id].AsSlot()), vms[id].proc, f.baseFile, f.recvFile, f.stateFile)
      else Host(None, NoProc, f.baseFile, f.recvFile, f.stateFile)
    }

    constructor ()
      ensures Valid() && vms == map[] && files == map[]
    {
      vms, files := map[], map[];
    }

    function Lookup(id: VmId): (vm: Option<VM>)
      reads this
      ensures vm.Some? <==> id in vms
      ensures vm.Some? ==> vm.value == vms[id]
    {
      if id in vms then Some(vms[id]) else None
    }

    method SetFiles(id: VmId, f: Files)
      modifies this`files
      ensures files == old(files)[id := f]
    {
      files := files[id := f];
    }

    /** handlePrepare. */
    method HandlePrepare(id: VmId, body: Option<VmId>, spawned: bool, created: bool) returns (status: int)
      requires Valid()
      modifies this, vms.Values
      ensures Valid()
      ensures status == (if body.None? || body.value != id then BAD_REQUEST else if !spawned || !created then INTERNAL else OK)
      ensures HostOf(id) == if status == OK then OnPrepare(old(HostOf(id))) else old(HostOf(id))
      ensures forall o :: o != id ==> HostOf(o) == old(HostOf(o))
      ensures status == OK && id in old(vms) ==> old(vms[id]).proc == NoProc
    {
      if body.None? || body.value != id {
        return BAD_REQUEST;
      }
      if !spawned {
        return INTERNAL;
      }
      var vm := new VM(id, Receiving);
      vm.proc := Spawned;
      if !created {
        vm.Kill();
        return INTERNAL;
      }
      var previous := Lookup(id);
      SetFiles(id, if id in files then files[id].(recvFile := map[]) else Files(map[], map[], VmState(0, {})));
      vms := vms[id := vm];
      if previous.Some? {
        previous.value.Kill();
      }
      return OK;
    }

    /** A registered slot in the receiving state. */
    predicate IsReceiving(id: VmId)
      reads this, vms.Values
    {
      id in vms && vms[id].state == Receiving
    }

    /** handleMem: only a receiving slot takes a stream; a broken stream leaves whatever it wrote. */
    method HandleMem(id: VmId, created: bool, body: MemBody) returns (status: int)
      requires Valid()
      modifies this`files
      ensures Valid()
      ensures status == (if !old(IsReceiving(id)) then CONFLICT else if !created then INTERNAL
                         else if body.BrokenStream? then BAD_REQUEST else OK)
      ensures status == CONFLICT || status == INTERNAL ==> HostOf(id) == old(HostOf(id))
      ensures status == BAD_REQUEST ==> HostOf(id) == old(HostOf(id)).(recvFile := body.left)
      ensures status == OK ==> HostOf(id) == OnMem(old(HostOf(id)), body.capture)
      ensures forall o :: o != id ==> HostOf(o) == old(HostOf(o))
    {
      if !IsReceiving(id) {
        return CONFLICT;
      }
      if !created {
        return INTERNAL;
      }
      var f := if id in files then files[id] else Files(map[], map[], VmState(0, {}));
      if body.BrokenStream? {
        SetFiles(id, f.(recvFile := body.left));
        return BAD_REQUEST;
      }
      SetFiles(id, f.(recvFile := f.recvFile + body.capture));
      return OK;
    }

    /** handleVMState. */
    method HandleVmState(id: VmId, created: bool, body: StateBody) returns (status: int)
      requires Valid()
      modifies this`files
      ensures Valid()
      ensures status == (if !old(IsReceiving(id)) then CONFLICT else if !created || body.BrokenState? then INTERNAL else OK)
      ensures status == OK ==> HostOf(id) == old(HostOf(id)).(stateFile := body.st)
      ensures status != OK && (status == CONFLICT || !created) ==> HostOf(id) == old(HostOf(id))
      ensures status == INTERNAL && created ==> HostOf(id) == old(HostOf(id)).(stateFile := body.left)
      ensures forall o :: o != id ==> HostOf(o) == old(HostOf(o))
    {
      if !IsReceiving(id) {
        return CONFLICT;
      }
      if !created {
        return INTERNAL;
      }
      var f := if id in files then files[id] else Files(map[], map[], VmState(0, {}));
      if body.BrokenState? {
        SetFiles(id, f.(stateFile := body.left));
        return INTERNAL;
      }
      SetFiles(id, f.(stateFile := body.st));
      return OK;
    }

    /** handleFinalize: a successful load starts the machine the received files describe; only then is the slot
        marked running, with the received image as its base. */
    method HandleFinalize(id: VmId, loaded: bool) returns (status: int)
      requires Valid()
      modifies vms.Values
      ensures Valid()
      ensures status == (if !old(IsReceiving(id)) then CONFLICT else if !loaded then INTERNAL else OK)
      ensures HostOf(id) == if status == OK then OnCommit(OnLoad(old(HostOf(id)))) else old(HostOf(id))
      ensures forall o :: o != id ==> HostOf(o) == old(HostOf(o))
    {
      if !IsReceiving(id) {
        return CONFLICT;
      }
      if !loaded {
        return INTERNAL;
      }
      var f := if id in files then files[id] else Files(map[], map[], VmState(0, {}));
      var vm := vms[id];
      vm.proc := Live(DT.Vmm(f.recvFile, f.stateFile.regs, f.stateFile.queues, {}, f.stateFile.queues, true, None));
      vm.base := RecvMem;
      vm.state := Running;
      return OK;
    }

    /** handleAbort: refused unless the slot is receiving; an unknown ID is fine. */
    method HandleAbort(id: VmId) returns (status: int)
      requires Valid()
      modifies this, vms.Values
      ensures Valid()
      ensures status == (if id in old(vms) && !old(IsReceiving(id)) then CONFLICT else OK)
      ensures HostOf(id) == OnAbort(old(HostOf(id)))
      ensures old(IsReceiving(id)) ==> id !in vms && old(vms[id]).proc == NoProc
      ensures forall o :: o != id ==> HostOf(o) == old(HostOf(o))
    {
      if id !in vms {
        return OK;
      }
      if vms[id].state != Receiving {
        return CONFLICT;
      }
      vms[id].Kill();
      vms := vms - {id};
      files := files - {id};
      return OK;
    }

    // ---------------------------------------------------------------- source side

    /** The frame of migrate around migrateInner.  inner: whether migrateInner succeeded; it may have changed the VM's
        process, base and resync flag (vmm, base, resynced), never its state.  resumed: whether the rollback's resume
        succeeded. */
    method Migrate(id: VmId, inner: bool, vmm: Proc, resynced: bool, resumed: bool) returns (refused: bool, ok: bool)
      requires Valid() && id in vms
      modifies vms.Values
      ensures Valid()
      ensures refused == (old(vms[id].state) != Running)
      ensures refused ==> !ok && HostOf(id) == old(HostOf(id))
      ensures !refused ==> ok == inner
      ensures !refused ==>
        var h := InnerDone(old(HostOf(id)), vmm, resynced);
        HostOf(id) == if inner then h.(proc := NoProc).SetState(Migrated)
                      else SetResync(h, None, true).SetState(if resumed then Running else Dead)
      ensures forall o :: o != id ==> HostOf(o) == old(HostOf(o))
    {
      var vm := vms[id];
      if vm.state != Running {
        return true, false;
      }
      vm.state := Migrating;
      vm.proc := vmm;
      if resynced {
        vm.base := BaseMem;
        vm.needsResync := false;
      }
      if !inner {
        vm.needsResync := true;
        vm.state := if resumed then Running else Dead;
        return false, false;
      }
      vm.Kill();
      vm.state := Migrated;
      return false, true;
    }
  }

  /** What migrateInner leaves behind on the source. */
  ghost function InnerDone(host: Host, vmm: Proc, resynced: bool): Host
    requires host.slot.Some?
  {
    var h := host.(proc := vmm).SetState(Migrating);
    if resynced then SetResync(h, Some(BaseMem), false) else h
  }

  // ---------------------------------------------------------------- migrate and the protocol

  /** The slot s0 of a running VM during its migration: migrating, perhaps resynced, and after the abort marked. */
  ghost function DuringMigration(s0: Slot, resynced: bool, aborted: bool): Slot {
    Slot(Migrating, if resynced then BaseMem else s0.base, aborted || (!resynced && s0.needsResync))
  }

  ghost predicate SlotFrom(s0: Slot, host: Host, aborted: bool) {
    host.slot.None? || host.slot == Some(DuringMigration(s0, false, aborted)) || host.slot == Some(DuringMigration(s0, true, aborted))
  }

  ghost predicate SourceSlot(s0: Slot, w: World) {
    w.driver.Some? && SlotFrom(s0, w.At(w.Src()), w.driver.value.phase.AbortSent?)
  }

  lemma EnvKeepsSlot(s0: Slot, w: World, e: EnvEvent)
    requires SourceSlot(s0, w) && EnvCan(w, e)
    ensures SourceSlot(s0, EnvStep(w, e)) && EnvStep(w, e).Src() == w.Src()
  {
  }

  lemma BaseKeepsSlot(s0: Slot, w: World, e: DriverEvent)
    requires SourceSlot(s0, w) && DriverCan(w, e) && BasePhase(e)
    ensures SourceSlot(s0, DriverStep(w, e)) && DriverStep(w, e).Src() == w.Src()
  {
  }

  lemma FailureKeepsSlot(s0: Slot, w: World, e: DriverEvent)
    requires SourceSlot(s0, w) && DriverCan(w, e) && RollbackPhase(e) && !e.Rollback?
    ensures SourceSlot(s0, DriverStep(w, e)) && DriverStep(w, e).Src() == w.Src()
  {
  }

  lemma RoundKeepsSlot(s0: Slot, w: World, e: DriverEvent)
    requires SourceSlot(s0, w) && DriverCan(w, e) && RoundPhase(e)
    ensures SourceSlot(s0, DriverStep(w, e)) && DriverStep(w, e).Src() == w.Src()
  {
  }

  lemma FinalKeepsSlot(s0: Slot, w: World, e: DriverEvent)
    requires SourceSlot(s0, w) && DriverCan(w, e) && FinalPhase(e) && !e.Reply?
    ensures SourceSlot(s0, DriverStep(w, e)) && DriverStep(w, e).Src() == w.Src()
  {
  }

  lemma {:induction false} RunKeepsSlot(ws: seq<World>, es: seq<Event>, m: nat, k: nat)
    requires Run(ws, es) && m < k < |ws| && ws[m].driver.None? && forall n :: m < n <= k ==> ws[n].driver.Some?
    ensures ws[m].At(ws[k].Src()).InState(Running) && es[m] == Env(Migrate(ws[k].Src()))
    ensures SourceSlot(ws[m].At(ws[k].Src()).slot.value, ws[k])
    decreases k
  {
    assert StepAt(ws, es, k - 1);
    if k == m + 1 {
      MigrateStarts(ws[m], es[m]);
    } else {
      RunKeepsSlot(ws, es, m, k - 1);
      var s0 := ws[m].At(ws[k - 1].Src()).slot.value;
      match es[k - 1]
      case Env(e) => EnvKeepsSlot(s0, ws[k - 1], e);
      case Drive(e) => DriverKeepsSlot(s0, ws[k - 1], e);
    }
  }

  lemma DriverKeepsSlot(s0: Slot, w: World, e: DriverEvent)
    requires SourceSlot(s0, w) && DriverCan(w, e) && DriverStep(w, e).driver.Some?
    ensures SourceSlot(s0, DriverStep(w, e)) && DriverStep(w, e).Src() == w.Src()
  {
    if e.Reply? || e.Rollback? {
      EndsDriver(w, e);
    } else if BasePhase(e) {
      BaseKeepsSlot(s0, w, e);
    } else if RoundPhase(e) {
      RoundKeepsSlot(s0, w, e);
    } else if FinalPhase(e) {
      FinalKeepsSlot(s0, w, e);
    } else {
      FailureKeepsSlot(s0, w, e);
    }
  }

  lemma EndsDriver(w: World, e: DriverEvent)
    requires w.driver.Some? && DriverCan(w, e) && (e.Reply? || e.Rollback?)
    ensures DriverStep(w, e).driver.None?
    ensures w.At(w.Src()).slot.Some? ==> DriverStep(w, e).At(w.Src()).slot == Some(w.At(w.Src()).slot.value.(state :=
      if e.Reply? then Migrated else if e.resumed then Running else Dead))
    ensures e.Rollback? ==> w.driver.value.phase.AbortSent?
    ensures e.Reply? ==> w.driver.value.phase.Committed?
  {
  }

  lemma MigrateStarts(w: World, e: Event)
    requires w.driver.None? && CanHappen(w, e) && Happen(w, e).driver.Some?
    ensures e == Env(Migrate(Happen(w, e).Src())) && w.At(Happen(w, e).Src()).InState(Running)
    ensures SourceSlot(w.At(Happen(w, e).Src()).slot.value, Happen(w, e))
  {
  }

  /** In every run, what a migration from step m to step k leaves of the source's slot is what the contract of Migrate says,
      for some process and some resync: nothing else of the slot changes meanwhile. */
  lemma MigrationLeavesSlot(ws: seq<World>, es: seq<Event>, m: nat, k: nat) returns (resynced: bool)
    requires Run(ws, es) && m < k < |es| && ws[m].driver.None? && (forall n :: m < n <= k ==> ws[n].driver.Some?)
    requires ws[k + 1].driver.None?
    ensures var before, after := ws[m].At(ws[k].Src()), ws[k + 1].At(ws[k].Src());
      && before.InState(Running) && es[k].Drive? && (es[k].step.Reply? || es[k].step.Rollback?)
      && (after.slot.Some? ==>
            var h := InnerDone(before, NoProc, resynced);
            after.slot == (if es[k].step.Reply? then h.SetState(Migrated)
                           else SetResync(h, None, true).SetState(if es[k].step.resumed then Running else Dead)).slot)
  {
    RunKeepsSlot(ws, es, m, k);
    assert StepAt(ws, es, k);
    OnlyReplyAndRollbackEnd(ws[k], es[k]);
    EndsDriver(ws[k], es[k].step);
    var s0 := ws[m].At(ws[k].Src()).slot.value;
    resynced := ws[k].At(ws[k].Src()).slot == Some(DuringMigration(s0, true, es[k].step.Rollback?));
    DeletedStays(ws[k], es[k].step);
  }

  lemma DeletedStays(w: World, e: DriverEvent)
    requires w.driver.Some? && DriverCan(w, e) && (e.Reply? || e.Rollback?)
    ensures w.At(w.Src()).slot.None? ==> DriverStep(w, e).At(w.Src()).slot.None?
  {
  }
}
