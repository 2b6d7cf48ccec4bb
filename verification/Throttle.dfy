/** Auto-converge throttling: SetLevel calls and duty-cycler goroutines as concurrent steps.

    SetLevel holds the throttler's mutex; its parts (enter, close the old cycler, install the new one or leave)
    interleave with the goroutines, which never take the mutex.  A goroutine signals its threads one by one.
    When its channel is closed and its timer has fired as well, either branch of the select may be taken.
 */
module Throttle {
  import opened Options

  type VmId = string
  type Tid = int

  const MAX_LEVEL: int := 5

  datatype Signal = Stop | Cont

  /** Where a cycler goroutine is; k counts the threads already signalled. */
  datatype Pc =
    | Run                    // first select
    | Stopping(k: nat)
    | Hold                   // second select
    | Resuming(k: nat)
    | Leaving(k: nat)        // the SIGCONTs before return
    | Returned

  /** last: the last signal this cycler sent to each thread. */
  datatype Cycler = Cycler(vm: VmId, tids: seq<Tid>, closed: bool, pc: Pc, last: map<Tid, Signal>)
  {
    ghost predicate Stopped(t: Tid) {
      t in last && last[t] == Stop
    }

    /** None of the first k threads was last sent SIGSTOP by this cycler. */
    ghost predicate Released(k: nat) {
      k <= |tids| && forall j :: 0 <= j < k ==> !Stopped(tids[j])
    }

    /** Each of the first k threads was last sent SIGSTOP by this cycler. */
    ghost predicate Pressed(k: nat) {
      k <= |tids| && forall j :: 0 <= j < k ==> Stopped(tids[j])
    }

    ghost predicate Wf() {
      && (forall t :: t in last ==> t in tids)
      && match pc
         case Run => Released(|tids|)
         case Stopping(k) => Pressed(k)
         case Hold => Pressed(|tids|)
         case Resuming(k) => Released(k)
         case Leaving(k) => closed && Released(k)
         case Returned => closed && Released(|tids|)
    }
  }

  /** The SetLevel call that holds the mutex. */
  datatype Call = Call(vm: VmId, level: int, closed: bool)

  datatype Sys = Sys(
    pids: map<VmId, int>,
    registry: map<VmId, nat>,      // the cyclers map: index into all cyclers ever started
    cyclers: seq<Cycler>,
    call: Option<Call>,
    stopped: set<Tid>,             // threads the kernel holds stopped
    gone: set<Tid>,                // exited threads
    panicked: bool)                // a closed channel was closed again

  datatype Action = TimerFires | SeesDone | SendSignal | Next

  datatype Step =
    | Register(vm: VmId, pid: int)
    | Refuse(vm: VmId, level: int)
    | Enter(vm: VmId, level: int)
    | CloseOld
    | Install(tids: seq<Tid>)
    | Leave
    | Cycle(i: nat, action: Action)
    | ThreadExits(t: Tid)

  ghost predicate CycleCan(c: Cycler, a: Action) {
    match a
    case TimerFires => c.pc.Run? || c.pc.Hold?
    case SeesDone => (c.pc.Run? || c.pc.Hold?) && c.closed
    case SendSignal => (c.pc.Stopping? || c.pc.Resuming? || c.pc.Leaving?) && c.pc.k < |c.tids|
    case Next => (c.pc.Stopping? || c.pc.Resuming? || c.pc.Leaving?) && c.pc.k == |c.tids|
  }

  ghost function Sent(c: Cycler): Signal {
    if c.pc.Stopping? then Stop else Cont
  }

  ghost function CycleStep(c: Cycler, a: Action): Cycler
    requires CycleCan(c, a)
  {
    match a
    case TimerFires => c.(pc := if c.pc.Run? then Stopping(0) else Resuming(0))
    case SeesDone => c.(pc := Leaving(0))
    case SendSignal => c.(pc := c.pc.(k := c.pc.k + 1), last := c.last[c.tids[c.pc.k] := Sent(c)])
    case Next => c.(pc := if c.pc.Stopping? then Hold else if c.pc.Resuming? then Run else Returned)
  }

  /** The kernel's view after c takes action a. */
  ghost function Kernel(s: Sys, c: Cycler, a: Action): set<Tid>
    requires CycleCan(c, a)
  {
    if !a.SendSignal? then s.stopped
    else
      var t := c.tids[c.pc.k];
      if Sent(c) == Cont then s.stopped - {t} else if t in s.gone then s.stopped else s.stopped + {t}
  }

  ghost predicate Can(s: Sys, e: Step) {
    match e
    case Register(_, _) => s.call.None?
    case Refuse(vm, level) => level < 0 || level > MAX_LEVEL || (s.call.None? && vm !in s.pids)
    case Enter(vm, level) => s.call.None? && 0 <= level <= MAX_LEVEL && vm in s.pids
    case CloseOld =>
      && s.call.Some? && !s.call.value.closed
      && (s.call.value.vm in s.registry ==> s.registry[s.call.value.vm] < |s.cyclers|)
    case Install(tids) => s.call.Some? && s.call.value.closed && s.call.value.level > 0 && tids != []
    case Leave => s.call.Some? && s.call.value.closed
    case Cycle(i, a) => i < |s.cyclers| && CycleCan(s.cyclers[i], a)
    case ThreadExits(t) => true
  }

  ghost function Do(s: Sys, e: Step): Sys
    requires Can(s, e)
  {
    match e
    case Register(vm, pid) => s.(pids := s.pids[vm := pid])
    case Refuse(_, _) => s
    case Enter(vm, level) => s.(call := Some(Call(vm, level, false)))
    case CloseOld =>
      var call := s.call.value;
      var s1 := s.(call := Some(call.(closed := true)));
      if call.vm !in s.registry then s1
      else
        var i := s.registry[call.vm];
        s1.(registry := s.registry - {call.vm},
            cyclers := s.cyclers[i := s.cyclers[i].(closed := true)],
            panicked := s.panicked || s.cyclers[i].closed)
    case Install(tids) =>
      s.(registry := s.registry[s.call.value.vm := |s.cyclers|],
         cyclers := s.cyclers + [Cycler(s.call.value.vm, tids, false, Run, map[])],
         call := None)
    case Leave => s.(call := None)
    case Cycle(i, a) =>
      s.(stopped := Kernel(s, s.cyclers[i], a), cyclers := s.cyclers[i := CycleStep(s.cyclers[i], a)])
    case ThreadExits(t) => s.(stopped := s.stopped - {t}, gone := s.gone + {t})
  }

  ghost predicate Init(s: Sys) {
    s.registry == map[] && s.cyclers == [] && s.call.None? && s.stopped == {} && !s.panicked
  }

  ghost predicate IsRun(ss: seq<Sys>, es: seq<Step>) {
    && |ss| == |es| + 1 && Init(ss[0])
    && forall i :: 0 <= i < |es| ==> Can(ss[i], es[i]) && ss[i + 1] == Do(ss[i], es[i])
  }

  // ---------------------------------------------------------------- the invariant

  /** The registry holds exactly the cyclers whose channel is open, one per VM. */
  ghost predicate RegistryExact(s: Sys) {
    && (forall vm :: vm in s.registry ==>
          s.registry[vm] < |s.cyclers| && s.cyclers[s.registry[vm]].vm == vm && !s.cyclers[s.registry[vm]].closed)
    && (forall i :: 0 <= i < |s.cyclers| && !s.cyclers[i].closed ==>
          s.cyclers[i].vm in s.registry && s.registry[s.cyclers[i].vm] == i)
    && (s.call.Some? && s.call.value.closed ==> s.call.value.vm !in s.registry)
  }

  /** Cycler i holds thread t stopped. */
  ghost predicate Holder(s: Sys, i: nat, t: Tid) {
    i < |s.cyclers| && s.cyclers[i].Stopped(t)
  }

  ghost predicate StopsOwned(s: Sys) {
    forall t :: t in s.stopped ==> exists i :: Holder(s, i, t)
  }

  ghost predicate CyclersWf(s: Sys) {
    forall i :: 0 <= i < |s.cyclers| ==> s.cyclers[i].Wf()
  }

  ghost predicate Inv(s: Sys) {
    RegistryExact(s) && CyclersWf(s) && StopsOwned(s) && !s.panicked
  }

  lemma CycleKeepsWf(c: Cycler, a: Action)
    requires c.Wf() && CycleCan(c, a)
    ensures CycleStep(c, a).Wf()
  {
    var c' := CycleStep(c, a);
    if a.SendSignal? && !c.pc.Stopping? {
      assert forall j :: 0 <= j < c.pc.k ==> !c.Stopped(c.tids[j]);
      assert c'.Released(c.pc.k + 1);
    }
  }

  lemma CycleKeepsOwned(s: Sys, i: nat, a: Action)
    requires StopsOwned(s) && i < |s.cyclers| && CycleCan(s.cyclers[i], a)
    ensures StopsOwned(Do(s, Cycle(i, a)))
  {
    var s' := Do(s, Cycle(i, a));
    forall t | t in s'.stopped ensures exists n :: Holder(s', n, t) {
      if t in s.stopped {
        var n :| Holder(s, n, t);
        assert Holder(s', n, t);
      } else {
        assert Holder(s', i, t);
      }
    }
  }

  lemma CloseKeepsInv(s: Sys)
    requires Inv(s) && Can(s, CloseOld)
    ensures Inv(Do(s, CloseOld))
  {
    var s' := Do(s, CloseOld);
    forall t | t in s'.stopped ensures exists n :: Holder(s', n, t) {
      var n :| Holder(s, n, t);
      assert Holder(s', n, t);
    }
  }

  lemma InstallKeepsInv(s: Sys, tids: seq<Tid>)
    requires Inv(s) && Can(s, Install(tids))
    ensures Inv(Do(s, Install(tids)))
  {
    var s' := Do(s, Install(tids));
    forall t | t in s'.stopped ensures exists n :: Holder(s', n, t) {
      var n :| Holder(s, n, t);
      assert Holder(s', n, t);
    }
  }

  lemma OtherKeepsInv(s: Sys, e: Step)
    requires Inv(s) && Can(s, e) && !e.CloseOld? && !e.Install? && !e.Cycle?
    ensures Inv(Do(s, e))
  {
    var s' := Do(s, e);
    forall t | t in s'.stopped ensures exists n :: Holder(s', n, t) {
      var n :| Holder(s, n, t);
      assert Holder(s', n, t);
    }
  }

  lemma StepKeepsInv(s: Sys, e: Step)
    requires Inv(s) && Can(s, e)
    ensures Inv(Do(s, e))
  {
    match e
    case CloseOld => CloseKeepsInv(s);
    case Install(tids) => InstallKeepsInv(s, tids);
    case Cycle(i, a) =>
      CycleKeepsWf(s.cyclers[i], a);
      CycleKeepsOwned(s, i, a);
    case _ => OtherKeepsInv(s, e);
  }

  // ---------------------------------------------------------------- theorems

  lemma {:induction false} RunKeepsInv(ss: seq<Sys>, es: seq<Step>, k: nat)
    requires IsRun(ss, es) && k < |ss|
    ensures Inv(ss[k])
  {
    if k > 0 {
      RunKeepsInv(ss, es, k - 1);
      StepKeepsInv(ss[k - 1], es[k - 1]);
    }
  }

  ghost predicate Open(s: Sys, i: nat) {
    i < |s.cyclers| && !s.cyclers[i].closed
  }

  /** In every interleaving: no VM has two cyclers with an open channel, and no channel is closed twice. */
  lemma OneOpenCycler(ss: seq<Sys>, es: seq<Step>, k: nat)
    requires IsRun(ss, es) && k < |ss|
    ensures !ss[k].panicked
    ensures forall i: nat, j: nat :: Open(ss[k], i) && Open(ss[k], j) && ss[k].cyclers[i].vm == ss[k].cyclers[j].vm ==> i == j
  {
    RunKeepsInv(ss, es, k);
  }

  /** A stopped thread always has a cycler that stopped it, has not returned, and will therefore send SIGCONT. */
  lemma StoppedHasHolder(ss: seq<Sys>, es: seq<Step>, k: nat, t: Tid) returns (i: nat)
    requires IsRun(ss, es) && k < |ss| && t in ss[k].stopped
    ensures Holder(ss[k], i, t) && t in ss[k].cyclers[i].tids && !ss[k].cyclers[i].pc.Returned?
  {
    RunKeepsInv(ss, es, k);
    i :| Holder(ss[k], i, t);
    assert ss[k].cyclers[i].Wf();
  }

  /** At its second wait a cycler has last sent SIGSTOP to every one of its threads. */
  lemma HoldPresses(ss: seq<Sys>, es: seq<Step>, k: nat, i: nat, t: Tid)
    requires IsRun(ss, es) && k < |ss| && i < |ss[k].cyclers| && ss[k].cyclers[i].pc.Hold? && t in ss[k].cyclers[i].tids
    ensures Holder(ss[k], i, t)
  {
    RunKeepsInv(ss, es, k);
    var c := ss[k].cyclers[i];
    assert c.Wf();
    var j :| 0 <= j < |c.tids| && c.tids[j] == t;
    assert c.Stopped(c.tids[j]);
  }

  /** Once all cyclers have returned, every thread runs. */
  lemma AllReturnedAllRun(ss: seq<Sys>, es: seq<Step>, k: nat)
    requires IsRun(ss, es) && k < |ss|
    requires forall i :: 0 <= i < |ss[k].cyclers| ==> ss[k].cyclers[i].pc.Returned?
    ensures ss[k].stopped == {}
  {
    forall t | t in ss[k].stopped ensures false {
      var i := StoppedHasHolder(ss, es, k, t);
    }
    assert forall t :: t in ss[k].stopped ==> t in {};
  }

  /** A cycler returns only after its channel was closed, and its threads are not left stopped by it. */
  lemma ReturnedReleases(ss: seq<Sys>, es: seq<Step>, k: nat, i: nat, t: Tid)
    requires IsRun(ss, es) && k < |ss| && i < |ss[k].cyclers| && ss[k].cyclers[i].pc.Returned?
    ensures ss[k].cyclers[i].closed && !Holder(ss[k], i, t)
  {
    RunKeepsInv(ss, es, k);
    assert ss[k].cyclers[i].Wf();
  }

  // ---------------------------------------------------------------- duty cycles happen

  lemma ExtendRun(ss: seq<Sys>, es: seq<Step>, e: Step) returns (ss': seq<Sys>, es': seq<Step>)
    requires IsRun(ss, es) && Can(ss[|es|], e)
    ensures es' == es + [e] && ss <= ss' && IsRun(ss', es') && ss'[|es'|] == Do(ss[|es|], e)
  {
    ss' := ss + [Do(ss[|es|], e)];
    es' := es + [e];
  }

  predicate Signalling(pc: Pc) {
    pc.Stopping? || pc.Resuming? || pc.Leaving?
  }

  /** The kernel's stopped threads after signal sig went to the threads ts. */
  ghost function Signalled(stopped: set<Tid>, gone: set<Tid>, sig: Signal, ts: seq<Tid>): set<Tid> {
    if sig == Stop then stopped + set t | t in ts && t !in gone :: t
    else stopped - set t | t in ts :: t
  }

  lemma SignalledCons(stopped: set<Tid>, gone: set<Tid>, sig: Signal, ts: seq<Tid>)
    requires ts != []
    ensures Signalled(Signalled(stopped, gone, sig, [ts[0]]), gone, sig, ts[1..]) == Signalled(stopped, gone, sig, ts)
  {
    forall t ensures t in ts <==> t in [ts[0]] || t in ts[1..] {
      assert ts == [ts[0]] + ts[1..];
    }
    forall t
      ensures t in Signalled(Signalled(stopped, gone, sig, [ts[0]]), gone, sig, ts[1..]) <==> t in Signalled(stopped, gone, sig, ts)
    {
    }
  }

  /** The same cycler, elsewhere. */
  ghost predicate SameCycler(c: Cycler, c': Cycler) {
    c'.vm == c.vm && c'.tids == c.tids && c'.closed == c.closed
  }

  /** Only cycler i moved, to pc, and the kernel's stopped threads are now those given. */
  ghost predicate OnlyMoved(s: Sys, s': Sys, i: nat, pc: Pc, stopped: set<Tid>) {
    && i < |s.cyclers| == |s'.cyclers|
    && SameCycler(s.cyclers[i], s'.cyclers[i]) && s'.cyclers[i].pc == pc
    && s' == s.(cyclers := s.cyclers[i := s'.cyclers[i]], stopped := stopped)
  }

  lemma SignalStep(s: Sys, i: nat)
    requires i < |s.cyclers| && Signalling(s.cyclers[i].pc) && s.cyclers[i].pc.k < |s.cyclers[i].tids|
    ensures Can(s, Cycle(i, SendSignal))
    ensures var c := s.cyclers[i];
      OnlyMoved(s, Do(s, Cycle(i, SendSignal)), i, c.pc.(k := c.pc.k + 1), Signalled(s.stopped, s.gone, Sent(c), [c.tids[c.pc.k]]))
  {
    var c := s.cyclers[i];
    var x := c.tids[c.pc.k];
    forall t ensures t in Kernel(s, c, SendSignal) <==> t in Signalled(s.stopped, s.gone, Sent(c), [x]) {
      assert t in [x] <==> t == x;
    }
    assert Kernel(s, c, SendSignal) == Signalled(s.stopped, s.gone, Sent(c), [x]);
  }

  lemma OnlyMovedTwice(s: Sys, s1: Sys, s2: Sys, i: nat, pc1: Pc, pc2: Pc, st1: set<Tid>, st2: set<Tid>)
    requires OnlyMoved(s, s1, i, pc1, st1) && OnlyMoved(s1, s2, i, pc2, st2)
    ensures OnlyMoved(s, s2, i, pc2, st2)
  {
  }

  /** Sending the rest of a signal round. */
  lemma {:induction false} SendRest(ss: seq<Sys>, es: seq<Step>, i: nat) returns (ss': seq<Sys>, es': seq<Step>)
    requires IsRun(ss, es) && i < |ss[|es|].cyclers| && Signalling(ss[|es|].cyclers[i].pc)
    requires ss[|es|].cyclers[i].pc.k <= |ss[|es|].cyclers[i].tids|
    ensures IsRun(ss', es') && es <= es' && ss <= ss'
    ensures var s := ss[|es|]; var c := s.cyclers[i];
      OnlyMoved(s, ss'[|es'|], i, c.pc.(k := |c.tids|), Signalled(s.stopped, s.gone, Sent(c), c.tids[c.pc.k..]))
    decreases |ss[|es|].cyclers[i].tids| - ss[|es|].cyclers[i].pc.k
  {
    var s := ss[|es|];
    var c := s.cyclers[i];
    var ts := c.tids[c.pc.k..];
    if ts == [] {
      ss', es' := ss, es;
      assert Signalled(s.stopped, s.gone, Sent(c), ts) == s.stopped;
      assert s.cyclers[i := c] == s.cyclers;
    } else {
      SignalStep(s, i);
      ss', es' := ExtendRun(ss, es, Cycle(i, SendSignal));
      var s1 := ss'[|es'|];
      ss', es' := SendRest(ss', es', i);
      SignalledCons(s.stopped, s.gone, Sent(c), ts);
      assert c.tids[c.pc.k + 1..] == ts[1..];
      OnlyMovedTwice(s, s1, ss'[|es'|], i, s1.cyclers[i].pc, ss'[|es'|].cyclers[i].pc, s1.stopped, ss'[|es'|].stopped);
    }
  }

  /** A whole signal round: from a wait, by action a (timer or closed channel), through all threads, to the next place. */
  lemma SignalRound(ss: seq<Sys>, es: seq<Step>, i: nat, a: Action) returns (ss': seq<Sys>, es': seq<Step>)
    requires IsRun(ss, es) && i < |ss[|es|].cyclers| && (a.TimerFires? || a.SeesDone?) && CycleCan(ss[|es|].cyclers[i], a)
    ensures IsRun(ss', es') && es <= es' && ss <= ss'
    ensures var s := ss[|es|]; var c := s.cyclers[i];
      OnlyMoved(s, ss'[|es'|], i,
                if a.SeesDone? then Returned else if c.pc.Run? then Hold else Run,
                Signalled(s.stopped, s.gone, if a.TimerFires? && c.pc.Run? then Stop else Cont, c.tids))
  {
    var s := ss[|es|];
    var c := s.cyclers[i];
    ss', es' := ExtendRun(ss, es, Cycle(i, a));
    var s1 := ss'[|es'|];
    assert c.tids[0..] == c.tids;
    assert OnlyMoved(s, s1, i, s1.cyclers[i].pc, s.stopped);
    ss', es' := SendRest(ss', es', i);
    var s2 := ss'[|es'|];
    OnlyMovedTwice(s, s1, s2, i, s1.cyclers[i].pc, s2.cyclers[i].pc, s1.stopped, s2.stopped);
    ss', es' := ExtendRun(ss', es', Cycle(i, Next));
    var s3 := ss'[|es'|];
    assert OnlyMoved(s2, s3, i, s3.cyclers[i].pc, s2.stopped);
    OnlyMovedTwice(s, s2, s3, i, s2.cyclers[i].pc, s3.cyclers[i].pc, s2.stopped, s3.stopped);
  }

  /** From every reachable state in which a cycler is in its first wait, its timer can stop all its threads that still
      exist. */
  lemma CyclerStops(ss: seq<Sys>, es: seq<Step>, i: nat) returns (ss': seq<Sys>, es': seq<Step>)
    requires IsRun(ss, es) && i < |ss[|es|].cyclers| && ss[|es|].cyclers[i].pc.Run?
    ensures IsRun(ss', es') && es <= es' && ss <= ss' && OnlyMoved(ss[|es|], ss'[|es'|], i, Hold, ss'[|es'|].stopped)
    ensures forall t :: t in ss'[|es'|].stopped <==>
      t in ss[|es|].stopped || (t in ss[|es|].cyclers[i].tids && t !in ss[|es|].gone)
  {
    ss', es' := SignalRound(ss, es, i, TimerFires);
  }

  /** And in its second wait, they all run again: by its timer, or for good once its channel is closed. */
  lemma CyclerReleases(ss: seq<Sys>, es: seq<Step>, i: nat) returns (ss': seq<Sys>, es': seq<Step>)
    requires IsRun(ss, es) && i < |ss[|es|].cyclers| && ss[|es|].cyclers[i].pc.Hold?
    ensures IsRun(ss', es') && es <= es' && ss <= ss'
    ensures OnlyMoved(ss[|es|], ss'[|es'|], i, if ss[|es|].cyclers[i].closed then Returned else Run, ss'[|es'|].stopped)
    ensures forall t :: t in ss'[|es'|].stopped <==> t in ss[|es|].stopped && t !in ss[|es|].cyclers[i].tids
  {
    ss', es' := SignalRound(ss, es, i, if ss[|es|].cyclers[i].closed then SeesDone else TimerFires);
  }

  /** The first call on a freshly registered VM. */
  lemma FirstCall(vm: VmId, pid: int, level: int, tids: seq<Tid>, gone: set<Tid>) returns (ss: seq<Sys>, es: seq<Step>)
    requires 0 < level <= MAX_LEVEL && tids != []
    ensures IsRun(ss, es) && es == [Step.Register(vm, pid), Enter(vm, level), CloseOld, Install(tids)]
    ensures var s := ss[|es|];
      && s.pids == map[vm := pid] && s.registry == map[vm := 0] && s.cyclers == [Cycler(vm, tids, false, Run, map[])]
      && s.call.None? && s.stopped == {} && s.gone == gone
  {
    ss, es := [Sys(map[], map[], [], None, {}, gone, false)], [];
    ss, es := ExtendRun(ss, es, Step.Register(vm, pid));
    ss, es := ExtendRun(ss, es, Enter(vm, level));
    ss, es := ExtendRun(ss, es, CloseOld);
    ss, es := ExtendRun(ss, es, Install(tids));
  }

  /** SetLevel to zero while the only cycler holds. */
  lemma LastCall(ss: seq<Sys>, es: seq<Step>, vm: VmId) returns (ss': seq<Sys>, es': seq<Step>)
    requires IsRun(ss, es) && ss[|es|].call.None? && vm in ss[|es|].pids
    requires |ss[|es|].cyclers| == 1 && ss[|es|].registry == map[vm := 0]
    ensures IsRun(ss', es') && es' == es + [Enter(vm, 0)] + [CloseOld] + [Leave] && ss <= ss'
    ensures var s, s' := ss[|es|], ss'[|es'|];
      s'.cyclers == [s.cyclers[0].(closed := true)] && s'.stopped == s.stopped && s'.gone == s.gone
  {
    ss', es' := ExtendRun(ss, es, Enter(vm, 0));
    ss', es' := ExtendRun(ss', es', CloseOld);
    ss', es' := ExtendRun(ss', es', Leave);
  }

  /** For every VM, positive level and thread list there is a run in which exactly its threads that have not exited are
      stopped, then, after SetLevel to zero, every thread runs and the cycler has returned. */
  lemma ThrottlingWorks(vm: VmId, pid: int, level: int, tids: seq<Tid>, gone: set<Tid>)
    returns (ss: seq<Sys>, es: seq<Step>, k: nat)
    requires 0 < level <= MAX_LEVEL && tids != []
    ensures IsRun(ss, es) && k < |es|
    ensures forall t :: t in ss[k].stopped <==> t in tids && t !in gone
    ensures ss[|es|].stopped == {} && forall c :: c in ss[|es|].cyclers ==> c.pc.Returned?
  {
    ss, es := FirstCall(vm, pid, level, tids, gone);
    var ss1, es1 := CyclerStops(ss, es, 0);
    k := |es1|;
    var ss2, es2 := LastCall(ss1, es1, vm);
    ss, es := CyclerReleases(ss2, es2, 0);
    assert ss1 <= ss2 <= ss && ss[k] == ss1[k];
    assert forall t :: t in ss[|es|].stopped ==> t in {};
  }

  // ---------------------------------------------------------------- the objects

  /** A cycler as SetLevel sees it: its channel can be closed once. */
  class DutyCycler {
    const pid: int
    const tids: seq<Tid>
    const runPct: int
    var closed: bool
    ghost const vm: VmId     // the VM it was started for
    ghost const number: nat  // how many cyclers were started before it

    constructor (pid: int, tids: seq<Tid>, runPct: int, ghost vm: VmId, ghost number: nat)
      ensures this.pid == pid && this.tids == tids && this.runPct == runPct && !closed
      ensures this.vm == vm && this.number == number
    {
      this.pid, this.tids, this.runPct, closed := pid, tids, runPct, false;
      this.vm, this.number := vm, number;
    }

    /** Closing a closed channel panics, so the caller must know it is open. */
    method StopCycling()
      requires !closed
      modifies this`closed
      ensures closed
    {
      closed := true;
    }
  }

  const LEVEL_RUN_PCT: seq<int> := [100, 60, 35, 20, 10, 5]

  datatype SetResult = Done | OutOfRange | UnknownVm | ThreadsError | NoThreads

  ghost predicate Accepted(s: Sys, vm: VmId, level: int) {
    0 <= level <= MAX_LEVEL && vm in s.pids
  }

  /** The steps of one SetLevel call. */
  ghost function CallSteps(s: Sys, vm: VmId, level: int, threads: Option<seq<Tid>>): seq<Step> {
    if !Accepted(s, vm, level) then [Refuse(vm, level)]
    else
      [Enter(vm, level), CloseOld, if level > 0 && threads.Some? && threads.value != [] then Install(threads.value) else Leave]
  }

  ghost predicate RegistryInside(s: Sys) {
    forall vm :: vm in s.registry ==> s.registry[vm] < |s.cyclers|
  }

  /** The system after such a call, when the mutex was free. */
  ghost function AfterCall(s: Sys, vm: VmId, level: int, threads: Option<seq<Tid>>): Sys
    requires s.call.None? && RegistryInside(s)
  {
    if !Accepted(s, vm, level) then s
    else
      var closed := Do(Do(s, Enter(vm, level)), CloseOld);
      Do(closed, if level > 0 && threads.Some? && threads.value != [] then Install(threads.value) else Leave)
  }

  /** A call is a run of the transition system. */
  lemma CallRuns(ss: seq<Sys>, es: seq<Step>, vm: VmId, level: int, threads: Option<seq<Tid>>) returns (ss': seq<Sys>, es': seq<Step>)
    requires IsRun(ss, es) && ss[|es|].call.None?
    ensures RegistryInside(ss[|es|]) && es' == es + CallSteps(ss[|es|], vm, level, threads)
    ensures IsRun(ss', es') && ss'[|es'|] == AfterCall(ss[|es|], vm, level, threads)
  {
    var s := ss[|es|];
    RunKeepsInv(ss, es, |es|);
    if !Accepted(s, vm, level) {
      ss', es' := ExtendRun(ss, es, Refuse(vm, level));
    } else {
      ss', es' := ExtendRun(ss, es, Enter(vm, level));
      ss', es' := ExtendRun(ss', es', CloseOld);
      var last := if level > 0 && threads.Some? && threads.value != [] then Install(threads.value) else Leave;
      ss', es' := ExtendRun(ss', es', last);
      assert es' == es + CallSteps(s, vm, level, threads);
    }
  }

  /** The part of the system that SetLevel works on: the registry and, of every cycler started, whether its channel is
      closed and which threads it has. */
  datatype Book = Book(pids: map<VmId, int>, registry: map<VmId, nat>, closed: seq<bool>, tids: seq<seq<Tid>>)
  {
    ghost function Register(vm: VmId, pid: int): Book {
      this.(pids := pids[vm := pid])
    }

    ghost function Close(vm: VmId): Book {
      if vm in registry && registry[vm] < |closed| then this.(registry := registry - {vm}, closed := closed[registry[vm] := true])
      else this
    }

    ghost function Add(vm: VmId, ts: seq<Tid>): Book {
      this.(registry := registry[vm := |closed|], closed := closed + [false], tids := tids + [ts])
    }

    ghost function Call(vm: VmId, level: int, threads: Option<seq<Tid>>): Book {
      if !(0 <= level <= MAX_LEVEL && vm in pids) then this
      else if level > 0 && threads.Some? && threads.value != [] then Close(vm).Add(vm, threads.value)
      else Close(vm)
    }
  }

  ghost function BookOf(s: Sys): Book {
    Book(s.pids, s.registry,
         seq(|s.cyclers|, i requires 0 <= i < |s.cyclers| => s.cyclers[i].closed),
         seq(|s.cyclers|, i requires 0 <= i < |s.cyclers| => s.cyclers[i].tids))
  }

  lemma BookOfClose(s: Sys)
    requires Can(s, CloseOld)
    ensures BookOf(Do(s, CloseOld)) == BookOf(s).Close(s.call.value.vm)
  {
  }

  lemma BookOfInstall(s: Sys, tids: seq<Tid>)
    requires Can(s, Install(tids))
    ensures BookOf(Do(s, Install(tids))) == BookOf(s).Add(s.call.value.vm, tids)
  {
  }

  /** What a call does to the book is what its steps do to the system. */
  lemma BookOfCall(s: Sys, vm: VmId, level: int, threads: Option<seq<Tid>>)
    requires s.call.None? && RegistryInside(s)
    ensures BookOf(AfterCall(s, vm, level, threads)) == BookOf(s).Call(vm, level, threads)
  {
    if Accepted(s, vm, level) {
      var entered := Do(s, Enter(vm, level));
      assert BookOf(entered) == BookOf(s);
      BookOfClose(entered);
      var closed := Do(entered, CloseOld);
      if level > 0 && threads.Some? && threads.value != [] {
        BookOfInstall(closed, threads.value);
      } else {
        assert BookOf(Do(closed, Leave)) == BookOf(closed);
      }
    }
  }

  class Throttler {
    var pids: map<VmId, int>
    var cyclers: map<VmId, DutyCycler>
    ghost var started: seq<DutyCycler>   // every cycler ever started, in order

    ghost predicate Valid()
      reads this, started
    {
      && (forall i :: 0 <= i < |started| ==> started[i].number == i)
      && (forall vm :: vm in cyclers ==> Started(cyclers[vm]) && cyclers[vm].vm == vm && !cyclers[vm].closed)
    }

    ghost predicate Started(c: DutyCycler)
      reads this
    {
      c.number < |started| && started[c.number] == c
    }

    /** The objects show the book b. */
    ghost predicate Shows(b: Book)
      reads this, started
    {
      && pids == b.pids && cyclers.Keys == b.registry.Keys && |started| == |b.closed| == |b.tids|
      && (forall vm :: vm in cyclers ==> b.registry[vm] == cyclers[vm].number)
      && (forall i :: 0 <= i < |started| ==> started[i].closed == b.closed[i] && started[i].tids == b.tids[i])
    }

    constructor ()
      ensures Valid() && Shows(Book(map[], map[], [], []))
    {
      pids, cyclers, started := map[], map[], [];
    }

    method Register(vm: VmId, pid: int, ghost b: Book)
      requires Valid() && Shows(b)
      modifies this`pids
      ensures Valid() && pids == old(pids)[vm := pid] && Shows(b.Register(vm, pid))
    {
      pids := pids[vm := pid];
    }

    /** Closes and forgets the VM's cycler, if it has one. */
    method Release(vm: VmId, ghost b: Book)
      requires Valid() && Shows(b)
      modifies this`cyclers, started
      ensures Valid() && cyclers == old(cyclers) - {vm} && Shows(b.Close(vm))
    {
      if vm in cyclers {
        cyclers[vm].StopCycling();
        cyclers := cyclers - {vm};
      }
    }

    /** Starts and registers a cycler. */
    method StartCycler(vm: VmId, tids: seq<Tid>, runPct: int, ghost b: Book)
      requires Valid() && Shows(b) && vm !in cyclers && vm in pids
      modifies this`cyclers, this`started
      ensures Valid() && Shows(b.Add(vm, tids))
      ensures cyclers.Keys == old(cyclers.Keys) + {vm} && cyclers - {vm} == old(cyclers)
      ensures fresh(cyclers[vm]) && cyclers[vm].tids == tids && cyclers[vm].pid == pids[vm] && cyclers[vm].runPct == runPct
    {
      var c := new DutyCycler(pids[vm], tids, runPct, vm, |started|);
      AddCycler(vm, c, b);
    }

    method AddCycler(vm: VmId, c: DutyCycler, ghost b: Book)
      requires Valid() && Shows(b) && vm !in cyclers && c.vm == vm && c.number == |started| && !c.closed
      modifies this`cyclers, this`started
      ensures Valid() && cyclers == old(cyclers)[vm := c] && started == old(started) + [c] && Shows(b.Add(vm, c.tids))
    {
      cyclers := cyclers[vm := c];
      started := started + [c];
    }

    /** SetLevel on objects that show the book b; threads is what reading the process's task directory gives (None: an
        error).  The old cycler is closed even when the call then fails, a new one is registered exactly on success at a
        positive level. */
    method SetLevel(vm: VmId, level: int, threads: Option<seq<Tid>>, ghost b: Book) returns (r: SetResult)
      requires Valid() && Shows(b)
      modifies this`cyclers, this`started, started
      ensures Valid() && Shows(b.Call(vm, level, threads))
      ensures r == (if level < 0 || level > MAX_LEVEL then OutOfRange
                    else if vm !in pids then UnknownVm
                    else if level == 0 then Done
                    else if threads.None? then ThreadsError
                    else if threads.value == [] then NoThreads
                    else Done)
      ensures cyclers - {vm} == old(cyclers) - {vm}
      ensures r == OutOfRange || r == UnknownVm ==> cyclers == old(cyclers)
      ensures r == Done && level > 0 ==>
        && vm in cyclers && fresh(cyclers[vm])
        && cyclers[vm].tids == threads.value && cyclers[vm].pid == pids[vm] && cyclers[vm].runPct == LEVEL_RUN_PCT[level]
      ensures r != OutOfRange && r != UnknownVm && !(r == Done && level > 0) ==> vm !in cyclers
    {
      if level < 0 || level > MAX_LEVEL {
        return OutOfRange;
      }
      if vm !in pids {
        return UnknownVm;
      }
      Release(vm, b);
      if level == 0 {
        return Done;
      }
      if threads.None? {
        return ThreadsError;
      }
      if threads.value == [] {
        return NoThreads;
      }
      StartCycler(vm, threads.value, LEVEL_RUN_PCT[level], b.Close(vm));
      return Done;
    }
  }
}
