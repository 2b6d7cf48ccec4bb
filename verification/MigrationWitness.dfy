/** A run that reaches the committed handover, for any guest memory: the theorems are not vacuous, and the
    double execution after a lost reply really happens. */
module MigrationWitness {
  import opened Options
  import opened GuestMemory
  import DT = DirtyTracking
  import opened Migration
  import opened MigrationTheorems
  import opened MigrationExclusion
  import opened MigrationProgress
  import DumpRefinement
  import DirtyDump

  /** An idle guest without queues and without marks. */
  ghost function Quiet(mem: Image, regs: int, running: bool, dump: Option<DT.Dump>): DT.Vmm {
    DT.Vmm(mem, regs, {}, {}, {}, running, dump)
  }

  ghost function NoState(): VmState {
    VmState(0, {})
  }

  ghost function EmptyHost(): Host {
    Host(None, NoProc, map[], map[], NoState())
  }

  ghost function Source(s: SlotState, base: BasePath, v: DT.Vmm, file: Image): Host {
    Host(Some(Slot(s, base, false)), Live(v), file, map[], NoState())
  }

  ghost function Target(s: SlotState, base: BasePath, proc: Proc, recv: Image, st: VmState): Host {
    Host(Some(Slot(s, base, false)), proc, map[], recv, st)
  }

  /** World n of the run, for a guest with the given memory and registers. */
  ghost function Stage(mem: Image, regs: int, live: bool, n: nat): World {
    var up, held := Quiet(mem, regs, true, None), Quiet(mem, regs, false, None);
    var dumping := Quiet(mem, regs, false, Some(DT.Dump(false, {}, {}, {}, map[])));
    var st := VmState(regs, {});
    var src := Source(Migrating, BaseMem, up, mem);
    var src' := Source(Migrating, BaseMem, held, mem);
    var dst := Target(Receiving, NoBase, Spawned, map[], NoState());
    var dst' := Target(Receiving, NoBase, Spawned, mem, NoState());
    match n
    case 0 => World(EmptyHost(), EmptyHost(), None, live)
    case 1 => World(Source(Booting, NoBase, up, map[]), EmptyHost(), None, live)
    case 2 => World(Source(Booting, NoBase, held, map[]), EmptyHost(), None, live)
    case 3 => World(Source(Booting, BaseMem, held, mem), EmptyHost(), None, live)
    case 4 => World(Source(Running, BaseMem, up, mem), EmptyHost(), None, live)
    case 5 => World(src, EmptyHost(), Some(Driver(A, Starting)), live)
    case 6 => World(src, dst, Some(Driver(A, Prepared)), live)
    case 7 => World(src, dst, Some(Driver(A, BaseDue)), live)
    case 8 => World(src, dst', Some(Driver(A, RoundDue)), live)
    case 9 => World(src, dst', Some(Driver(A, Settled)), live)
    case 10 => World(src', dst', Some(Driver(A, FinalPaused)), live)
    case 11 => World(Source(Migrating, BaseMem, dumping, mem), dst', Some(Driver(A, Dumping(true, st))), live)
    case 12 => World(src', dst', Some(Driver(A, FinalShip(map[], mem, st))), live)
    case 13 => World(src', dst', Some(Driver(A, StateDue(mem, st))), live)
    case 14 => World(src', dst'.(stateFile := st), Some(Driver(A, LoadDue(mem, st))), live)
    case 15 => World(src', dst'.(stateFile := st, proc := Live(up)), Some(Driver(A, Loaded)), live)
    case _ => World(src', Target(Running, RecvMem, Live(up), mem, st), Some(Driver(A, Committed)), live)
  }

  const LAST: nat := 16

  ghost function Label(mem: Image, regs: int, n: nat): Event {
    match n
    case 0 => Env(BootStart(A, Quiet(mem, regs, true, None)))
    case 1 => Env(BootPause(A))
    case 2 => Env(BootSnapshot(A))
    case 3 => Env(BootDone(A))
    case 4 => Env(Migrate(A))
    case 5 => Drive(PrepareRpc(true))
    case 6 => Drive(SkipResync)
    case 7 => Drive(ShipBase)
    case 8 => Drive(ExitLoop)
    case 9 => Drive(FinalPause)
    case 10 => Drive(FinalFetch)
    case 11 => Drive(DumpDone)
    case 12 => Drive(ShipFinal)
    case 13 => Drive(ShipState)
    case 14 => Drive(Load)
    case _ => Drive(Commit)
  }

  lemma BootStages(mem: Image, regs: int, live: bool, n: nat)
    requires n < 5
    ensures CanHappen(Stage(mem, regs, live, n), Label(mem, regs, n))
    ensures Happen(Stage(mem, regs, live, n), Label(mem, regs, n)) == Stage(mem, regs, live, n + 1)
  {
  }

  lemma PrecopyStages(mem: Image, regs: int, live: bool, n: nat)
    requires 5 <= n < 10
    ensures CanHappen(Stage(mem, regs, live, n), Label(mem, regs, n))
    ensures Happen(Stage(mem, regs, live, n), Label(mem, regs, n)) == Stage(mem, regs, live, n + 1)
  {
    assert map[] + mem == mem;
  }

  lemma DumpStages(mem: Image, regs: int, live: bool, n: nat)
    requires 10 <= n < 12
    ensures CanHappen(Stage(mem, regs, live, n), Label(mem, regs, n))
    ensures Happen(Stage(mem, regs, live, n), Label(mem, regs, n)) == Stage(mem, regs, live, n + 1)
  {
    var none: set<Page> := {};
    assert none + none == none;
  }

  lemma FinalStages(mem: Image, regs: int, live: bool, n: nat)
    requires 12 <= n < LAST
    ensures CanHappen(Stage(mem, regs, live, n), Label(mem, regs, n))
    ensures Happen(Stage(mem, regs, live, n), Label(mem, regs, n)) == Stage(mem, regs, live, n + 1)
  {
    assert mem + map[] == mem;
  }

  lemma StageStep(mem: Image, regs: int, live: bool, n: nat)
    requires n < LAST
    ensures CanHappen(Stage(mem, regs, live, n), Label(mem, regs, n))
    ensures Happen(Stage(mem, regs, live, n), Label(mem, regs, n)) == Stage(mem, regs, live, n + 1)
  {
    if n < 5 {
      BootStages(mem, regs, live, n);
    } else if n < 10 {
      PrecopyStages(mem, regs, live, n);
    } else if n < 12 {
      DumpStages(mem, regs, live, n);
    } else {
      FinalStages(mem, regs, live, n);
    }
  }

  /** The run up to world n. */
  lemma StagedRun(mem: Image, regs: int, live: bool, n: nat) returns (ws: seq<World>, es: seq<Event>)
    requires n <= LAST
    ensures Run(ws, es) && |es| == n && ws[n] == Stage(mem, regs, live, n)
    ensures forall k :: 0 <= k < n ==> es[k] == Label(mem, regs, k)
  {
    ws := seq(n + 1, (k: nat) => Stage(mem, regs, live, k));
    es := seq(n, (k: nat) => Label(mem, regs, k));
    forall k: nat | k < |es| ensures StepAt(ws, es, k) {
      StageStep(mem, regs, live, k);
    }
  }

  /** For every guest there is a loss-free run to the loaded and to the committed handover with both machines alive. */
  lemma HandoverIsReachable(mem: Image, regs: int, live: bool, committed: bool) returns (ws: seq<World>, es: seq<Event>)
    ensures Run(ws, es) && LossFree(ws, es, |es|)
    ensures var w := ws[|es|];
      && w.driver == Some(Driver(A, if committed then Committed else Loaded))
      && w.a.proc.Live? && w.b.proc.Live? && w.b.proc.vmm.mem == mem
  {
    ws, es := StagedRun(mem, regs, live, if committed then LAST else LAST - 1);
  }

  /** For every guest there is a run in which a lost finalize reply leaves both copies executing, and one in which a load
      reported as failed does, because the abort does not reach the target. */
  lemma DoubleExecutionExists(mem: Image, regs: int, live: bool, lostReply: bool) returns (ws: seq<World>, es: seq<Event>)
    ensures Run(ws, es) && !Exclusive(ws[|es|])
    ensures (Drive(LoseReply) in es <==> lostReply) && (Drive(LoadReportedFailed) in es <==> !lostReply)
  {
    var ws0, es0 := StagedRun(mem, regs, live, if lostReply then LAST else LAST - 1);
    assert Drive(LoseReply) !in es0 && Drive(LoadReportedFailed) !in es0;
    if lostReply {
      ws, es := LostReplyRunsBoth(ws0, es0, true);
    } else {
      ws, es := FailedLoadNeedsAbort(ws0, es0, false);
    }
  }

  // ---------------------------------------------------------------- an abort that leaves a stale base

  /** Worlds 5 to 10 of a run in which the guest writes x to l before a live migration captures its first round. */
  ghost function StaleStage(mem: Image, l: Loc, x: int, n: nat): World {
    var v := DT.Vmm(mem[l := x], 0, {}, {l.page}, {}, true, None);
    var src := Source(Migrating, BaseMem, v, mem);
    var dst := Target(Receiving, NoBase, Spawned, map[], NoState());
    var dst' := Target(Receiving, NoBase, Spawned, mem, NoState());
    match n
    case 5 => World(Source(Running, BaseMem, v, mem), EmptyHost(), None, true)
    case 6 => World(src, EmptyHost(), Some(Driver(A, Starting)), true)
    case 7 => World(src, dst, Some(Driver(A, Prepared)), true)
    case 8 => World(src, dst, Some(Driver(A, BaseDue)), true)
    case 9 => World(src, dst', Some(Driver(A, RoundDue)), true)
    case _ =>
      World(Source(Migrating, BaseMem, Fetched(mem, l, x), mem), dst', Some(Driver(A, Dumping(false, NoState()))), true)
  }

  /** The source's VMM after the log fetch. */
  ghost function Fetched(mem: Image, l: Loc, x: int): DT.Vmm {
    DT.Vmm(mem[l := x], 0, {}, {}, {}, true, Some(DT.Dump(true, {l.page}, {l.page}, {}, map[])))
  }

  ghost function StaleLabel(l: Loc, x: int, n: nat): Event {
    match n
    case 4 => Env(Write(A, DT.GuestWrite(l, x, 0)))
    case 5 => Env(Migrate(A))
    case 6 => Drive(PrepareRpc(true))
    case 7 => Drive(SkipResync)
    case 8 => Drive(ShipBase)
    case _ => Drive(RoundFetch)
  }

  lemma StaleStep(mem: Image, l: Loc, x: int, n: nat)
    requires l in mem && 5 <= n < 10
    ensures CanHappen(StaleStage(mem, l, x, n), StaleLabel(l, x, n))
    ensures Happen(StaleStage(mem, l, x, n), StaleLabel(l, x, n)) == StaleStage(mem, l, x, n + 1)
  {
    assert map[] + mem == mem;
    assert {l.page} + {} == {l.page};
  }

  lemma FirstWrite(mem: Image, l: Loc, x: int)
    requires l in mem
    ensures CanHappen(Stage(mem, 0, true, 4), StaleLabel(l, x, 4))
    ensures Happen(Stage(mem, 0, true, 4), StaleLabel(l, x, 4)) == StaleStage(mem, l, x, 5)
  {
    var none: set<Page> := {};
    assert none + {l.page} == {l.page};
  }

  lemma {:induction false} StaleRun(mem: Image, l: Loc, x: int, n: nat) returns (ws: seq<World>, es: seq<Event>)
    requires l in mem && 5 <= n <= 10
    ensures Run(ws, es) && LossFree(ws, es, |es|) && ws[|es|] == StaleStage(mem, l, x, n)
    decreases n
  {
    if n == 5 {
      ws, es := StagedRun(mem, 0, true, 4);
      FirstWrite(mem, l, x);
      ws, es := ExtendFree(ws, es, StaleLabel(l, x, 4));
    } else {
      ws, es := StaleRun(mem, l, x, n - 1);
      StaleStep(mem, l, x, n - 1);
      ws, es := ExtendFree(ws, es, StaleLabel(l, x, n - 1));
    }
  }

  /** The source's VMM once the written page has been captured. */
  lemma RoundOfOnePage(mem: Image, l: Loc, x: int) returns (steps: seq<DT.Step>)
    requires l in mem
    ensures DT.ValidRun(Fetched(mem, l, x), steps)
    ensures forall k :: 0 <= k < |steps| ==> steps[k].ReadWord? || steps[k].FinishPage? || steps[k].OverBudget?
    ensures var w := DT.Exec(Fetched(mem, l, x), steps);
      w.dump.Some? && w == Fetched(mem, l, x).(dump := w.dump) && w.dump.value.todo == {} && w.dump.value.leftover == {}
  {
    var v, dirty := Fetched(mem, l, x), [l.page];
    steps := DumpRefinement.ScheduleExists(v.mem.Keys, dirty, 1, 0);
    assert DirtyDump.Pages(dirty[0..]) == {l.page};
    DumpRefinement.FollowsRuns(v, steps, dirty, 1, 0, {}, true);
    DumpRefinement.QuietKeeps(v.mem, v.regs, steps);
    assert DirtyDump.Pages(dirty[1..]) == {};
    forall k | 0 <= k < |steps| ensures steps[k].ReadWord? || steps[k].FinishPage? || steps[k].OverBudget? {
      assert DT.InsideDump(steps[k]) && !steps[k].GuestWrite?;
    }
  }

  lemma RoundCaptured(w: World, v: DT.Vmm)
    requires w.In(A, Dumping(false, NoState())) && w.liveRounds && w.a.proc == Live(v)
    requires v.dump.Some? && v.dump.value.todo == {}
    ensures CanHappen(w, Drive(DumpDone))
    ensures var w' := Happen(w, Drive(DumpDone));
      && w'.In(A, RoundShip(v.dump.value.capture))
      && w'.a == w.a.(proc := Live(v.(bitmap := v.dump.value.leftover + v.queues, dump := None)))
  {
  }

  /** For every guest and every word there is a run in which an aborted live migration leaves a running VM whose base
      image is stale on an unmarked page: without needsResync the next migration would start from it. */
  lemma StaleBaseExists(mem: Image, l: Loc, x: int) returns (ws: seq<World>, es: seq<Event>)
    requires l in mem && x != mem[l]
    ensures Run(ws, es)
    ensures var src := ws[|es|].a;
      && src.InState(Running) && src.VcpusRun() && src.slot.value.needsResync
      && !DT.Covered(src.proc.vmm, src.BaseImage())
  {
    ws, es := StaleRun(mem, l, x, 10);
    var steps := RoundOfOnePage(mem, l, x);
    ws, es := LiftDump(ws, es, steps);
    var v := DT.Exec(Fetched(mem, l, x), steps);
    RoundCaptured(ws[|es|], v);
    ws := ExtendRun(ws, es, Drive(DumpDone));
    es := es + [Drive(DumpDone)];
    ws, es := AbortStalesBase(ws, es, l, false);
  }

  // ---------------------------------------------------------------- successful migrations

  /** A machine that can be booted. */
  ghost predicate Bootstrap(v: DT.Vmm) {
    v.dump.None? && v.running && v.queues <= v.bitmap
  }

  /** The slot of a VM that runs v with base image img. */
  ghost function Up(v: DT.Vmm, img: Image): Host {
    Host(Some(Slot(Running, BaseMem, false)), Live(v), img, map[], NoState())
  }

  ghost function Booted(v: DT.Vmm): DT.Vmm {
    v.(kvm := {}, bitmap := v.queues)
  }

  lemma BootBegins(v: DT.Vmm, live: bool)
    requires Bootstrap(v)
    ensures var w := World(EmptyHost(), EmptyHost(), None, live);
      && CanHappen(w, Env(BootStart(A, v)))
      && Happen(w, Env(BootStart(A, v))) ==
         World(Host(Some(Slot(Booting, NoBase, false)), Live(v), map[], map[], NoState()), EmptyHost(), None, live)
  {
  }

  lemma BootPauses(v: DT.Vmm, live: bool)
    requires Bootstrap(v)
    ensures var w := World(Host(Some(Slot(Booting, NoBase, false)), Live(v), map[], map[], NoState()), EmptyHost(), None, live);
      && CanHappen(w, Env(BootPause(A)))
      && Happen(w, Env(BootPause(A))) == World(w.a.(proc := Live(v.(running := false))), EmptyHost(), None, live)
  {
  }

  lemma BootSnapshots(v: DT.Vmm, live: bool)
    requires Bootstrap(v)
    ensures var w := World(Host(Some(Slot(Booting, NoBase, false)), Live(v.(running := false)), map[], map[], NoState()), EmptyHost(), None, live);
      && CanHappen(w, Env(BootSnapshot(A)))
      && Happen(w, Env(BootSnapshot(A))) ==
         World(Host(Some(Slot(Booting, BaseMem, false)), Live(Booted(v).(running := false)), v.mem, map[], NoState()), EmptyHost(), None, live)
  {
  }

  lemma BootEnds(v: DT.Vmm, live: bool)
    requires Bootstrap(v)
    ensures var w := World(Host(Some(Slot(Booting, BaseMem, false)), Live(Booted(v).(running := false)), v.mem, map[], NoState()), EmptyHost(), None, live);
      && CanHappen(w, Env(BootDone(A)))
      && Happen(w, Env(BootDone(A))) == World(Up(Booted(v), v.mem), EmptyHost(), None, live)
  {
  }

  lemma BootedRun(v: DT.Vmm, live: bool) returns (ws: seq<World>, es: seq<Event>)
    requires Bootstrap(v)
    ensures Run(ws, es) && LossFree(ws, es, |es|) && ws[|es|] == World(Up(Booted(v), v.mem), EmptyHost(), None, live)
  {
    ws, es := [World(EmptyHost(), EmptyHost(), None, live)], [];
    BootBegins(v, live);
    ws, es := ExtendFree(ws, es, Env(BootStart(A, v)));
    BootPauses(v, live);
    ws, es := ExtendFree(ws, es, Env(BootPause(A)));
    BootSnapshots(v, live);
    ws, es := ExtendFree(ws, es, Env(BootSnapshot(A)));
    BootEnds(v, live);
    ws, es := ExtendFree(ws, es, Env(BootDone(A)));
  }

  lemma MigrateBegins(w: World, h: HostId)
    requires w.driver.None? && w.At(h).InState(Running) && w.At(h).proc.Live?
    requires w.At(h).proc.vmm.running && w.At(h).proc.vmm.dump.None?
    ensures CanHappen(w, Env(Migrate(h)))
    ensures var w' := Happen(w, Env(Migrate(h)));
      && Healthy(w') && w'.driver == Some(Driver(h, Starting)) && w'.liveRounds == w.liveRounds
      && Goal(w') == MachineOf(w.At(h).proc.vmm) && Resync(w'.At(h)) == Resync(w.At(h))
  {
  }

  /** From a running VM: migration start, resync if due, base image, up to the top of the round loop. */
  lemma Launch(ws: seq<World>, es: seq<Event>, h: HostId) returns (ws': seq<World>, es': seq<Event>)
    requires Run(ws, es) && LossFree(ws, es, |es|) && ws[|es|].driver.None?
    requires var host := ws[|es|].At(h);
      host.InState(Running) && host.proc.Live? && host.proc.vmm.running && host.proc.vmm.dump.None?
    ensures UnderWay(ws', es') && es <= es' && ws'[|es'|].driver == Some(Driver(h, RoundDue))
    ensures ws'[|es'|].liveRounds == ws[|es|].liveRounds && Goal(ws'[|es'|]) == MachineOf(ws[|es|].At(h).proc.vmm)
    ensures forall e :: e in Owed(Starting, ws[|es|].liveRounds, Resync(ws[|es|].At(h))) ==> Drive(e) in es'
  {
    MigrateBegins(ws[|es|], h);
    ws', es' := ExtendFree(ws, es, Env(Migrate(h)));
    ws', es' := ToRoundLoop(ws', es');
  }

  lemma {:induction false} AfterKeeps(m: Machine, writes: seq<DT.Step>)
    requires WritesOf(m.mem, m.queues, writes)
    ensures After(m, writes).mem.Keys == m.mem.Keys && After(m, writes).queues == m.queues
    decreases |writes|
  {
    if writes != [] {
      var m' := m.(mem := m.mem[writes[0].loc := writes[0].val], regs := writes[0].regs);
      assert m'.mem.Keys == m.mem.Keys;
      AfterKeeps(m', writes[1..]);
    }
  }

  /** The events of a round. */
  ghost predicate HasRound(es: seq<Event>, live: bool) {
    Drive(ShipRound) in es && (!live ==> Drive(RoundPause) in es && Drive(RoundResume) in es)
  }

  lemma HasRoundStays(es: seq<Event>, es': seq<Event>, live: bool)
    requires HasRound(es, live) && es <= es'
    ensures HasRound(es', live)
  {
    assert forall e :: e in es ==> e in es';
  }

  /** Writes, a whole round, more writes, success. */
  lemma RoundAndFinish(ws: seq<World>, es: seq<Event>, before: seq<DT.Step>, after: seq<DT.Step>)
    returns (ws': seq<World>, es': seq<Event>)
    requires UnderWay(ws, es) && ws[|es|].driver.value.phase.RoundDue?
    requires var m := Goal(ws[|es|]); WritesOf(m.mem, m.queues, before) && WritesOf(m.mem, m.queues, after)
    ensures Run(ws', es') && LossFree(ws', es', |es'|) && es < es' && es'[|es'| - 1] == Drive(Reply)
    ensures HasRound(es', ws[|es|].liveRounds)
    ensures var w, w' := ws[|es|], ws'[|es'|];
      Moved(w'.At(w.Src()), w'.At(w.Dst()), After(After(Goal(w), before), after))
  {
    AfterKeeps(Goal(ws[|es|]), before);
    ws', es' := WriteBetweenRounds(ws, es, before);
    ws', es' := WholeRound(ws', es');
    var rounds := es';
    ws', es' := WriteBetweenRounds(ws', es', after);
    ws', es' := MigrationCanFinish(ws', es');
    HasRoundStays(rounds, es', ws[|es|].liveRounds);
  }

  /** For every machine, all its writes before and after a pre-copy round, and both modes there is a loss-free run of a
      migration that ships that round and ends in success: the source's process is gone and its slot migrated, and the
      target runs the machine with all those writes. */
  lemma MigrationSucceeds(v: DT.Vmm, before: seq<DT.Step>, after: seq<DT.Step>, live: bool)
    returns (ws: seq<World>, es: seq<Event>)
    requires Bootstrap(v) && WritesOf(v.mem, v.queues, before) && WritesOf(v.mem, v.queues, after)
    ensures Run(ws, es) && LossFree(ws, es, |es|) && es != [] && es[|es| - 1] == Drive(Reply) && HasRound(es, live)
    ensures Moved(ws[|es|].a, ws[|es|].b, After(After(MachineOf(v), before), after))
  {
    ws, es := BootedRun(v, live);
    ws, es := Launch(ws, es, A);
    ws, es := RoundAndFinish(ws, es, before, after);
  }

  lemma FailAtLoop(w: World)
    requires Healthy(w) && w.driver.value.phase.RoundDue?
    ensures CanHappen(w, Drive(Fail)) && Happen(w, Drive(Fail)) == w.Go(Failing(true, false))
    ensures Goal(w) == MachineOf(w.At(w.Src()).proc.vmm) && w.Can(w.Src(), DT.Resume)
    ensures w.At(w.Src()).slot.Some? && w.At(w.Src()).proc.vmm.dump.None?
  {
  }

  /** A failure at the top of the round loop, abort, resume: the VM runs on and needs a resync. */
  lemma AbortRun(ws: seq<World>, es: seq<Event>, reached: bool) returns (ws': seq<World>, es': seq<Event>)
    requires UnderWay(ws, es) && ws[|es|].driver.value.phase.RoundDue?
    ensures es' == es + [Drive(Fail)] + [Drive(AbortRpc(reached))] + [Drive(Rollback(true))]
    ensures Run(ws', es') && LossFree(ws', es', |es'|) && ws'[|es'|].driver.None? && ws'[|es'|].liveRounds == ws[|es|].liveRounds
    ensures var host := ws'[|es'|].At(ws[|es|].Src());
      && host.InState(Running) && host.proc.Live? && host.proc.vmm.running && host.proc.vmm.dump.None?
      && Resync(host) && MachineOf(host.proc.vmm) == Goal(ws[|es|])
  {
    var w := ws[|es|];
    FailAtLoop(w);
    ws', es' := ExtendFree(ws, es, Drive(Fail));
    ws', es' := RollBack(ws', es', reached);
    RolledBackHost(w.At(w.Src()));
  }

  lemma RolledBackHost(host: Host)
    requires host.slot.Some? && host.proc.Live? && host.proc.vmm.dump.None?
    ensures var h := RolledBack(host);
      && h.InState(Running) && h.proc.Live? && h.proc.vmm.running && h.proc.vmm.dump.None?
      && Resync(h) && MachineOf(h.proc.vmm) == MachineOf(host.proc.vmm)
  {
  }

  /** And after an aborted migration, whether or not the abort reached the target, the next one resyncs, ships a round and
      succeeds with everything written meanwhile. */
  lemma AbortedMigrationSucceeds(v: DT.Vmm, lost: seq<DT.Step>, before: seq<DT.Step>, after: seq<DT.Step>, live: bool, reached: bool)
    returns (ws: seq<World>, es: seq<Event>)
    requires Bootstrap(v)
    requires WritesOf(v.mem, v.queues, lost) && WritesOf(v.mem, v.queues, before) && WritesOf(v.mem, v.queues, after)
    ensures Run(ws, es) && LossFree(ws, es, |es|) && es != [] && es[|es| - 1] == Drive(Reply) && HasRound(es, live)
    ensures Drive(Rollback(true)) in es
    ensures Drive(ResyncPause) in es && Drive(ResyncSnapshot(true, map[])) in es && Drive(ResyncResume) in es
    ensures Moved(ws[|es|].a, ws[|es|].b, After(After(After(MachineOf(v), lost), before), after))
  {
    ws, es := BootedRun(v, live);
    ws, es := Launch(ws, es, A);
    ws, es := WholeRound(ws, es);
    AfterKeeps(MachineOf(v), lost);
    ws, es := WriteBetweenRounds(ws, es, lost);
    ws, es := AbortRun(ws, es, reached);
    var aborted := es;
    assert Drive(Rollback(true)) in aborted;
    ws, es := Launch(ws, es, A);
    var launched := es;
    ws, es := RoundAndFinish(ws, es, before, after);
    assert forall e :: e in aborted ==> e in launched;
    assert forall e :: e in launched ==> e in es;
  }
}
