/** The pre-copy round loop of migrateInner: when it stops and when it throttles the guest.

    Each round's dirty byte count and the two clock readings of the escalation branch are inputs.  Errors
    inside the loop leave migrateInner and are steps of the protocol model.
 */
module RoundLoop {
  import opened Arith

  const CONVERGED_BYTES: nat := 0x10_0000
  const PLATEAU_BYTES: nat := 0x40_0000
  const DRAIN_BUDGET_BYTES: nat := 0x20_0000
  const MAX_ROUNDS: nat := 256
  const MAX_ROUNDS_STOCK: nat := 8
  const MAX_THROTTLE_LEVEL: nat := 5
  const ESCALATE_EVERY: nat := 2 * SECOND
  const ROUND_TRANSFER_MBPS: nat := 60

  /** One round's input: bytes captured, clock at the After test, clock at the following Add. */
  datatype Input = Input(dirty: nat, tested: int, added: int)

  datatype Cause = BudgetFull | Plateau

  /** A throttle escalation: its round, its cause, the clock readings around it. */
  datatype Escalation = Escalation(round: nat, cause: Cause, tested: int, added: int)

  datatype Exit = Converged | Stable | Cap

  function Rounds(live: bool): nat {
    if live then MAX_ROUNDS else MAX_ROUNDS_STOCK
  }

  /** Twice the time the whole guest memory takes at the round transfer rate. */
  function HonestDrain(memMiB: nat): nat {
    2 * memMiB * SECOND / ROUND_TRANSFER_MBPS
  }

  /** More than nine tenths of the round before. */
  predicate Plateaued(dirty: nat, prev: int) {
    prev > 0 && 10 * dirty > 9 * prev
  }

  /** The clock does not run backwards. */
  ghost predicate Monotone(inputs: seq<Input>) {
    && (forall i :: 0 <= i < |inputs| ==> inputs[i].tested <= inputs[i].added)
    && (forall i, j :: 0 <= i < j < |inputs| ==> inputs[i].added <= inputs[j].tested)
  }

  /** The log's entries are rounds, in order, each with its own clock readings, at most one per throttle level. */
  ghost predicate LogOf(inputs: seq<Input>, rounds: nat, log: seq<Escalation>) {
    && rounds <= |inputs| && |log| <= MAX_THROTTLE_LEVEL
    && (forall k :: 0 <= k < |log| ==> EntryOf(inputs, rounds, log[k]))
    && (forall j, k :: 0 <= j < k < |log| ==> log[j].round < log[k].round)
  }

  predicate EntryOf(inputs: seq<Input>, rounds: nat, e: Escalation)
    requires rounds <= |inputs|
  {
    e.round < rounds && e.tested == inputs[e.round].tested && e.added == inputs[e.round].added
  }

  lemma LogGrows(inputs: seq<Input>, rounds: nat, log: seq<Escalation>, cause: Cause)
    requires LogOf(inputs, rounds, log) && rounds < |inputs| && |log| < MAX_THROTTLE_LEVEL
    ensures LogOf(inputs, rounds + 1, log + [Escalation(rounds, cause, inputs[rounds].tested, inputs[rounds].added)])
  {
  }

  /** The highest level was reached before round i. */
  predicate TopBefore(log: seq<Escalation>, i: int) {
    |log| == MAX_THROTTLE_LEVEL && log[MAX_THROTTLE_LEVEL - 1].round < i
  }

  // ---------------------------------------------------------------- live mode

  /** Round i filled its budget after due, the time at which the honest drain time is over. */
  predicate Overdue(due: int, inputs: seq<Input>, i: int) {
    0 <= i < |inputs| && inputs[i].dirty >= DRAIN_BUDGET_BYTES && inputs[i].tested > due
  }

  /** Live escalations come from full rounds only, never before the honest drain time is over, and at least two
      seconds apart. */
  ghost predicate Patient(due: int, inputs: seq<Input>, log: seq<Escalation>) {
    && (forall k :: 0 <= k < |log| ==> log[k].cause == BudgetFull && Overdue(due, inputs, log[k].round))
    && (forall j, k :: 0 <= j < k < |log| ==> log[k].tested > log[j].added + ESCALATE_EVERY)
  }

  /** Conversely none is missed: every overdue round escalates, or falls within two seconds of an earlier escalation,
      or comes after the highest level was reached. */
  ghost predicate Prompt(due: int, inputs: seq<Input>, rounds: nat, log: seq<Escalation>) {
    forall i :: 0 <= i < rounds && Overdue(due, inputs, i) ==> TopBefore(log, i) || Excused(inputs, log, i)
  }

  ghost predicate Excused(inputs: seq<Input>, log: seq<Escalation>, i: int)
    requires 0 <= i < |inputs|
  {
    exists k :: 0 <= k < |log| && Excuses(log[k], i, inputs[i].tested)
  }

  predicate Excuses(e: Escalation, round: int, tested: int) {
    e.round == round || (e.round < round && tested <= e.added + ESCALATE_EVERY)
  }

  /** What the live loop knows about its escalations. */
  ghost predicate LiveInv(due: int, inputs: seq<Input>, rounds: nat, next: int, log: seq<Escalation>) {
    && rounds <= |inputs|
    && Patient(due, inputs, log) && Prompt(due, inputs, rounds, log)
    && next == (if log == [] then due else log[|log| - 1].added + ESCALATE_EVERY)
    && next >= due
    && (forall k :: 0 <= k < |log| ==> log[k].round < rounds && log[k].added + ESCALATE_EVERY <= next)
  }

  lemma PatientGrows(due: int, inputs: seq<Input>, log: seq<Escalation>, e: Escalation)
    requires Patient(due, inputs, log) && e.cause == BudgetFull && Overdue(due, inputs, e.round)
    requires forall k :: 0 <= k < |log| ==> log[k].added + ESCALATE_EVERY < e.tested
    ensures Patient(due, inputs, log + [e])
  {
  }

  lemma PromptGrows(due: int, inputs: seq<Input>, rounds: nat, log: seq<Escalation>, e: Escalation)
    requires Prompt(due, inputs, rounds, log) && e.round == rounds && |log| < MAX_THROTTLE_LEVEL
    ensures Prompt(due, inputs, rounds + 1, log + [e])
  {
    var log' := log + [e];
    forall i | 0 <= i < rounds + 1 && Overdue(due, inputs, i) ensures Excused(inputs, log', i) {
      if i == rounds {
        assert Excuses(log'[|log|], i, inputs[i].tested);
      } else {
        var k :| 0 <= k < |log| && Excuses(log[k], i, inputs[i].tested);
        assert Excuses(log'[k], i, inputs[i].tested);
      }
    }
  }

  lemma LiveEscalates(due: int, inputs: seq<Input>, rounds: nat, next: int, log: seq<Escalation>)
    requires LiveInv(due, inputs, rounds, next, log) && rounds < |inputs|
    requires inputs[rounds].dirty >= DRAIN_BUDGET_BYTES && next < inputs[rounds].tested <= inputs[rounds].added
    requires |log| < MAX_THROTTLE_LEVEL
    ensures LiveInv(due, inputs, rounds + 1, inputs[rounds].added + ESCALATE_EVERY,
                    log + [Escalation(rounds, BudgetFull, inputs[rounds].tested, inputs[rounds].added)])
  {
    var e := Escalation(rounds, BudgetFull, inputs[rounds].tested, inputs[rounds].added);
    PatientGrows(due, inputs, log, e);
    PromptGrows(due, inputs, rounds, log, e);
  }

  lemma LiveHolds(due: int, inputs: seq<Input>, rounds: nat, next: int, log: seq<Escalation>)
    requires LiveInv(due, inputs, rounds, next, log) && rounds < |inputs| && |log| <= MAX_THROTTLE_LEVEL
    requires inputs[rounds].dirty < DRAIN_BUDGET_BYTES || inputs[rounds].tested <= next || |log| == MAX_THROTTLE_LEVEL
    ensures LiveInv(due, inputs, rounds + 1, next, log)
  {
    if log != [] && inputs[rounds].tested <= next {
      assert Excuses(log[|log| - 1], rounds, inputs[rounds].tested);
    }
  }

  // ---------------------------------------------------------------- plateaus

  /** A round that did not fill its budget; in stock mode there is no budget. */
  predicate Counts(live: bool, x: Input) {
    !(live && x.dirty >= DRAIN_BUDGET_BYTES)
  }

  /** The last round before r that did not fill its budget, or -1. */
  function PrevRound(live: bool, inputs: seq<Input>, r: nat): (p: int)
    requires r <= |inputs|
    ensures -1 <= p < r && (p >= 0 ==> Counts(live, inputs[p]))
    ensures forall i :: p < i < r ==> !Counts(live, inputs[i])
  {
    if r == 0 then -1 else if Counts(live, inputs[r - 1]) then r - 1 else PrevRound(live, inputs, r - 1)
  }

  /** Round i did not fill its budget and plateaued on the last such round before it. */
  ghost predicate PlateauAt(live: bool, inputs: seq<Input>, i: int) {
    && 0 <= i < |inputs| && Counts(live, inputs[i])
    && PrevRound(live, inputs, i) >= 0
    && Plateaued(inputs[i].dirty, inputs[PrevRound(live, inputs, i)].dirty)
  }

  /** Round i and the one before it plateaued, and round i is not large: as converged as this workload gets. */
  ghost predicate StableAt(live: bool, inputs: seq<Input>, i: int) {
    && PlateauAt(live, inputs, i) && PlateauAt(live, inputs, PrevRound(live, inputs, i))
    && inputs[i].dirty <= PLATEAU_BYTES
  }

  /** Among the first n rounds none was stable. */
  ghost predicate NoneStable(live: bool, inputs: seq<Input>, n: nat) {
    n <= |inputs| && forall i :: 0 <= i < n ==> !StableAt(live, inputs, i)
  }

  /** The first n rounds were all above the convergence threshold. */
  ghost predicate Dirty(inputs: seq<Input>, n: nat) {
    n <= |inputs| && forall i :: 0 <= i < n ==> inputs[i].dirty > CONVERGED_BYTES
  }

  /** prevDirty and plateaued remember the last round that did not fill its budget. */
  ghost predicate History(live: bool, inputs: seq<Input>, rounds: nat, prevDirty: int, plateaued: nat) {
    && rounds <= |inputs|
    && var p := PrevRound(live, inputs, rounds);
    && prevDirty == (if p < 0 then -1 else inputs[p].dirty)
    && (plateaued >= 1 <==> PlateauAt(live, inputs, p))
  }

  // ---------------------------------------------------------------- stock mode

  /** Round i is a large plateau. */
  ghost predicate LargePlateau(inputs: seq<Input>, i: int) {
    PlateauAt(false, inputs, i) && inputs[i].dirty > PLATEAU_BYTES
  }

  ghost predicate EscalatedAt(log: seq<Escalation>, i: int) {
    exists k :: 0 <= k < |log| && log[k].round == i
  }

  /** Stock escalations are large plateaus, and every large plateau escalates or comes after the highest level was
      reached: with the log in round order they are the first five large plateaus. */
  ghost predicate StockInv(inputs: seq<Input>, rounds: nat, log: seq<Escalation>) {
    && (forall k :: 0 <= k < |log| ==> log[k].cause == Plateau && log[k].round < rounds && LargePlateau(inputs, log[k].round))
    && (forall i :: 0 <= i < rounds && LargePlateau(inputs, i) ==> TopBefore(log, i) || EscalatedAt(log, i))
  }

  lemma StockEscalates(inputs: seq<Input>, rounds: nat, log: seq<Escalation>, tested: int, added: int)
    requires StockInv(inputs, rounds, log) && LargePlateau(inputs, rounds) && |log| < MAX_THROTTLE_LEVEL
    ensures StockInv(inputs, rounds + 1, log + [Escalation(rounds, Plateau, tested, added)])
  {
    var log' := log + [Escalation(rounds, Plateau, tested, added)];
    forall i | 0 <= i < rounds + 1 && LargePlateau(inputs, i) ensures EscalatedAt(log', i) {
      if i == rounds {
        assert log'[|log|].round == i;
      } else {
        var k :| 0 <= k < |log| && log[k].round == i;
        assert log'[k].round == i;
      }
    }
  }

  lemma StockHolds(inputs: seq<Input>, rounds: nat, log: seq<Escalation>)
    requires StockInv(inputs, rounds, log) && (!LargePlateau(inputs, rounds) || |log| == MAX_THROTTLE_LEVEL)
    ensures StockInv(inputs, rounds + 1, log)
  {
  }

  // ---------------------------------------------------------------- the loop

  /** The loop's variables. */
  datatype Vars = Vars(throttleLevel: nat, prevDirty: int, plateaued: nat, nextEscalation: int, log: seq<Escalation>)

  /** Escalations so far. */
  ghost predicate LogInv(live: bool, due: int, inputs: seq<Input>, rounds: nat, v: Vars) {
    && v.throttleLevel == |v.log| && LogOf(inputs, rounds, v.log)
    && (live ==> LiveInv(due, inputs, rounds, v.nextEscalation, v.log))
    && (!live ==> StockInv(inputs, rounds, v.log))
  }

  ghost predicate LoopInv(live: bool, due: int, inputs: seq<Input>, rounds: nat, v: Vars) {
    && LogInv(live, due, inputs, rounds, v)
    && Dirty(inputs, rounds) && NoneStable(live, inputs, rounds)
    && History(live, inputs, rounds, v.prevDirty, v.plateaued)
  }

  /** The log of the first n rounds is right. */
  ghost predicate LogRight(live: bool, due: int, inputs: seq<Input>, n: nat, log: seq<Escalation>) {
    && LogOf(inputs, n, log)
    && (live ==> Patient(due, inputs, log) && Prompt(due, inputs, n, log))
    && (!live ==> StockInv(inputs, n, log))
  }

  /** What leaving the loop after the given number of rounds means.  In live mode every escalation was patient and
      prompt and came from a full round, so the plateau branch never escalated; in stock mode the escalations are the
      first five large plateaus.  The loop stops at the first round that is small, or stable and not large, and at no other. */
  ghost predicate Outcome(live: bool, due: int, inputs: seq<Input>, rounds: nat, log: seq<Escalation>, exit: Exit) {
    && 1 <= rounds <= Rounds(live) == |inputs|
    && var before := if exit == Cap then rounds else rounds - 1;
    && LogRight(live, due, inputs, before, log)
    && Dirty(inputs, before) && NoneStable(live, inputs, before)
    && match exit
       case Cap => rounds == Rounds(live)
       case Converged => inputs[rounds - 1].dirty <= CONVERGED_BYTES
       case Stable => inputs[rounds - 1].dirty > CONVERGED_BYTES && StableAt(live, inputs, rounds - 1)
  }

  /** A full round leaves the plateau history alone. */
  lemma FullHistory(inputs: seq<Input>, r: nat, prevDirty: int, plateaued: nat)
    requires r < |inputs| && !Counts(true, inputs[r])
    requires Dirty(inputs, r) && NoneStable(true, inputs, r) && History(true, inputs, r, prevDirty, plateaued)
    ensures Dirty(inputs, r + 1) && NoneStable(true, inputs, r + 1) && History(true, inputs, r + 1, prevDirty, plateaued)
  {
  }

  /** The variables after an escalation in round r. */
  function Escalated(v: Vars, r: nat, cause: Cause, now: Input): Vars {
    v.(throttleLevel := v.throttleLevel + 1,
       nextEscalation := if cause == BudgetFull then now.added + ESCALATE_EVERY else v.nextEscalation,
       log := v.log + [Escalation(r, cause, now.tested, now.added)])
  }

  lemma FullEscalates(due: int, inputs: seq<Input>, r: nat, v: Vars)
    requires Monotone(inputs) && r < |inputs| && LogInv(true, due, inputs, r, v)
    requires inputs[r].dirty >= DRAIN_BUDGET_BYTES && inputs[r].tested > v.nextEscalation && v.throttleLevel < MAX_THROTTLE_LEVEL
    ensures LogInv(true, due, inputs, r + 1, Escalated(v, r, BudgetFull, inputs[r]))
  {
    LiveEscalates(due, inputs, r, v.nextEscalation, v.log);
    LogGrows(inputs, r, v.log, BudgetFull);
  }

  lemma FullHolds(due: int, inputs: seq<Input>, r: nat, v: Vars)
    requires r < |inputs| && LogInv(true, due, inputs, r, v)
    requires inputs[r].tested <= v.nextEscalation || v.throttleLevel >= MAX_THROTTLE_LEVEL
    ensures LogInv(true, due, inputs, r + 1, v)
  {
    LiveHolds(due, inputs, r, v.nextEscalation, v.log);
  }

  /** The branch of a full budget: escalates if the guest outruns the drain for long. */
  method FullRound(ghost due: int, inputs: seq<Input>, r: nat, v: Vars) returns (v': Vars)
    requires Monotone(inputs) && r < |inputs| && !Counts(true, inputs[r])
    requires LoopInv(true, due, inputs, r, v)
    ensures LoopInv(true, due, inputs, r + 1, v')
  {
    FullHistory(inputs, r, v.prevDirty, v.plateaued);
    if inputs[r].tested > v.nextEscalation && v.throttleLevel < MAX_THROTTLE_LEVEL {
      FullEscalates(due, inputs, r, v);
      v' := Escalated(v, r, BudgetFull, inputs[r]);
    } else {
      FullHolds(due, inputs, r, v);
      v' := v;
    }
  }

  /** The rest of the body, for a round that is neither full nor small; exit Cap means: go on. */
  method PartialRound(live: bool, ghost due: int, inputs: seq<Input>, r: nat, v: Vars)
    returns (v': Vars, exit: Exit)
    requires r < |inputs| && Counts(live, inputs[r]) && inputs[r].dirty > CONVERGED_BYTES
    requires LoopInv(live, due, inputs, r, v)
    ensures exit == Cap ==> LoopInv(live, due, inputs, r + 1, v')
    ensures exit != Cap ==> v' == v && exit == Stable && StableAt(live, inputs, r)
  {
    var now := inputs[r];
    var plateaued := if Plateaued(now.dirty, v.prevDirty) then v.plateaued + 1 else 0;
    assert PlateauAt(live, inputs, r) <==> plateaued >= 1;
    assert StableAt(live, inputs, r) <==> plateaued >= 2 && now.dirty <= PLATEAU_BYTES;
    v', exit := v, Cap;
    if plateaued >= 2 && now.dirty <= PLATEAU_BYTES {
      return v, Stable;
    }
    v' := v.(plateaued := plateaued, prevDirty := now.dirty);
    if plateaued >= 1 && now.dirty > PLATEAU_BYTES && v.throttleLevel < MAX_THROTTLE_LEVEL {
      StockEscalates(inputs, r, v.log, now.tested, now.added);
      LogGrows(inputs, r, v.log, Plateau);
      v' := Escalated(v', r, Plateau, now);
    } else if live {
      LiveHolds(due, inputs, r, v.nextEscalation, v.log);
    } else {
      StockHolds(inputs, r, v.log);
    }
  }

  /** The loop body behind the transfer; exit Cap means: go on. */
  method TakeRound(live: bool, ghost due: int, inputs: seq<Input>, r: nat, v: Vars)
    returns (v': Vars, exit: Exit)
    requires |inputs| == Rounds(live) && Monotone(inputs) && r < |inputs|
    requires LoopInv(live, due, inputs, r, v)
    ensures exit == Cap ==> LoopInv(live, due, inputs, r + 1, v')
    ensures exit != Cap ==> v' == v && Outcome(live, due, inputs, r + 1, v.log, exit)
  {
    var budget := if live then DRAIN_BUDGET_BYTES else 0;
    v', exit := v, Cap;
    LoopLeft(live, due, inputs, r, v);
    if budget > 0 && inputs[r].dirty >= budget {
      v' := FullRound(due, inputs, r, v);
    } else if inputs[r].dirty <= CONVERGED_BYTES {
      exit := Converged;
    } else {
      v', exit := PartialRound(live, due, inputs, r, v);
    }
  }

  /** The round loop, once the honest drain time is known. */
  method RunRounds(live: bool, due: int, inputs: seq<Input>)
    returns (rounds: nat, throttleLevel: nat, log: seq<Escalation>, exit: Exit)
    requires |inputs| == Rounds(live) && Monotone(inputs)
    ensures throttleLevel == |log|
    ensures Outcome(live, due, inputs, rounds, log, exit)
  {
    var v := Vars(0, -1, 0, due, []);
    rounds := 0;
    LoopStarts(live, due, inputs);
    while rounds < Rounds(live)
      invariant rounds <= Rounds(live) && v.throttleLevel == |v.log|
      invariant LoopInv(live, due, inputs, rounds, v)
    {
      v, exit := TakeRound(live, due, inputs, rounds, v);
      rounds := rounds + 1;
      if exit != Cap {
        return rounds, v.throttleLevel, v.log, exit;
      }
    }
    LoopLeft(live, due, inputs, rounds, v);
    return rounds, v.throttleLevel, v.log, Cap;
  }

  /** The round loop of migrateInner. */
  method PrecopyRounds(live: bool, memMiB: nat, start: int, inputs: seq<Input>)
    returns (rounds: nat, throttleLevel: nat, log: seq<Escalation>, exit: Exit)
    requires |inputs| == Rounds(live) && Monotone(inputs)
    ensures throttleLevel == |log|
    ensures Outcome(live, start + HonestDrain(memMiB), inputs, rounds, log, exit)
  {
    rounds, throttleLevel, log, exit := RunRounds(live, start + HonestDrain(memMiB), inputs);
  }

  lemma LoopStarts(live: bool, due: int, inputs: seq<Input>)
    ensures LoopInv(live, due, inputs, 0, Vars(0, -1, 0, due, []))
  {
  }

  /** What the loop invariant says wherever the loop is left. */
  lemma LoopLeft(live: bool, due: int, inputs: seq<Input>, before: nat, v: Vars)
    requires |inputs| == Rounds(live) && LoopInv(live, due, inputs, before, v)
    ensures before == |inputs| ==> Outcome(live, due, inputs, before, v.log, Cap)
    ensures before < |inputs| && inputs[before].dirty <= CONVERGED_BYTES ==>
      Outcome(live, due, inputs, before + 1, v.log, Converged)
    ensures before < |inputs| && inputs[before].dirty > CONVERGED_BYTES && StableAt(live, inputs, before) ==>
      Outcome(live, due, inputs, before + 1, v.log, Stable)
  {
  }

  // ---------------------------------------------------------------- the outcome is determined

  ghost predicate Agree(p: seq<Escalation>, q: seq<Escalation>, k: nat) {
    k <= |p| && k <= |q| && forall m :: 0 <= m < k ==> p[m] == q[m]
  }

  /** If two right logs agree on their first k entries and one goes on, the other goes on no later. */
  lemma NextNoLater(live: bool, due: int, inputs: seq<Input>, n: nat, p: seq<Escalation>, q: seq<Escalation>, k: nat)
    requires LogRight(live, due, inputs, n, p) && LogRight(live, due, inputs, n, q)
    requires k < |p| && Agree(p, q, k)
    ensures k < |q| && q[k].round <= p[k].round
  {
    if live {
      NextNoLaterLive(due, inputs, n, p, q, k);
    } else {
      NextNoLaterStock(inputs, n, p, q, k);
    }
  }

  lemma NextNoLaterLive(due: int, inputs: seq<Input>, n: nat, p: seq<Escalation>, q: seq<Escalation>, k: nat)
    requires LogOf(inputs, n, p) && LogOf(inputs, n, q) && Patient(due, inputs, p) && Prompt(due, inputs, n, q)
    requires k < |p| && Agree(p, q, k)
    ensures k < |q| && q[k].round <= p[k].round
  {
    var i := p[k].round;
    assert EntryOf(inputs, n, p[k]) && Overdue(due, inputs, i);
    if !TopBefore(q, i) {
      var m :| 0 <= m < |q| && Excuses(q[m], i, inputs[i].tested);
      if m < k {
        assert p[k].tested > p[m].added + ESCALATE_EVERY && p[m].round < i;
      }
    }
  }

  lemma NextNoLaterStock(inputs: seq<Input>, n: nat, p: seq<Escalation>, q: seq<Escalation>, k: nat)
    requires LogOf(inputs, n, p) && LogOf(inputs, n, q) && StockInv(inputs, n, p) && StockInv(inputs, n, q)
    requires k < |p| && Agree(p, q, k)
    ensures k < |q| && q[k].round <= p[k].round
  {
    var i := p[k].round;
    assert EntryOf(inputs, n, p[k]) && LargePlateau(inputs, i);
    if !TopBefore(q, i) {
      var m :| 0 <= m < |q| && q[m].round == i;
    }
  }

  lemma OneMoreAgrees(live: bool, due: int, inputs: seq<Input>, n: nat, p: seq<Escalation>, q: seq<Escalation>, k: nat)
    requires LogRight(live, due, inputs, n, p) && LogRight(live, due, inputs, n, q)
    requires k < |p| && Agree(p, q, k)
    ensures k < |q| && p[k] == q[k]
  {
    NextNoLater(live, due, inputs, n, p, q, k);
    NextNoLater(live, due, inputs, n, q, p, k);
    SameRoundSameEntry(live, due, inputs, n, p, q, k);
  }

  lemma {:induction false} LogsAgree(live: bool, due: int, inputs: seq<Input>, n: nat,
                                     p: seq<Escalation>, q: seq<Escalation>, k: nat)
    requires LogRight(live, due, inputs, n, p) && LogRight(live, due, inputs, n, q) && k <= |p|
    ensures Agree(p, q, k)
  {
    if k > 0 {
      LogsAgree(live, due, inputs, n, p, q, k - 1);
      OneMoreAgrees(live, due, inputs, n, p, q, k - 1);
      AgreeMore(p, q, k - 1);
    }
  }

  lemma AgreeMore(p: seq<Escalation>, q: seq<Escalation>, k: nat)
    requires Agree(p, q, k) && k < |p| && k < |q| && p[k] == q[k]
    ensures Agree(p, q, k + 1)
  {
  }

  lemma SameRoundSameEntry(live: bool, due: int, inputs: seq<Input>, n: nat, p: seq<Escalation>, q: seq<Escalation>, k: nat)
    requires LogRight(live, due, inputs, n, p) && LogRight(live, due, inputs, n, q)
    requires k < |p| && k < |q| && p[k].round == q[k].round
    ensures p[k] == q[k]
  {
    assert EntryOf(inputs, n, p[k]) && EntryOf(inputs, n, q[k]);
  }

  /** The number of rounds, the log and the exit are determined by the inputs: Outcome leaves the loop no freedom. */
  lemma OutcomeUnique(live: bool, due: int, inputs: seq<Input>, m: nat, p: seq<Escalation>, x: Exit,
                      n: nat, q: seq<Escalation>, y: Exit)
    requires Outcome(live, due, inputs, m, p, x) && Outcome(live, due, inputs, n, q, y)
    ensures m == n && p == q && x == y
  {
    var before := if x == Cap then m else m - 1;
    assert before == if y == Cap then n else n - 1;
    LogsAgree(live, due, inputs, before, p, q, |p|);
    LogsAgree(live, due, inputs, before, q, p, |q|);
  }

  // ---------------------------------------------------------------- the constants, by what they do

  /** Every round shrinks to nine tenths of the one before, or less. */
  predicate Shrinking(inputs: seq<Input>) {
    forall i, j :: 0 <= i < |inputs| && j == i + 1 < |inputs| ==> 10 * inputs[j].dirty <= 9 * inputs[i].dirty
  }

  lemma NoPlateau(inputs: seq<Input>, i: int)
    requires Shrinking(inputs)
    ensures !PlateauAt(false, inputs, i)
  {
    if 0 < i < |inputs| {
      assert PrevRound(false, inputs, i) == i - 1;
    }
  }

  /** Rounds that each shrink to nine tenths of the one before, or less, are never taken for a plateau: a stock migration
      of such a guest neither throttles it nor stops before it has converged or run out of rounds. */
  lemma ShrinkingNeverThrottles(due: int, inputs: seq<Input>, rounds: nat, log: seq<Escalation>, exit: Exit)
    requires Outcome(false, due, inputs, rounds, log, exit) && Shrinking(inputs)
    ensures log == [] && exit != Stable
  {
    var first := if log == [] then 0 else log[0].round;
    assert log != [] ==> LargePlateau(inputs, first);
    NoPlateau(inputs, first);
    NoPlateau(inputs, rounds - 1);
  }

  /** A guest that keeps every round above four mebibytes and above nine tenths of the one before: a stock migration
      throttles it in rounds 1 to 5, to the highest level, and goes through all eight rounds. */
  lemma StubbornIsThrottled(due: int, inputs: seq<Input>, rounds: nat, log: seq<Escalation>, exit: Exit)
    requires Outcome(false, due, inputs, rounds, log, exit)
    requires forall i :: 0 <= i < |inputs| ==> inputs[i].dirty > 4 * 1024 * 1024
    requires forall i, j :: 0 <= i < |inputs| && j == i + 1 < |inputs| ==> 10 * inputs[j].dirty > 9 * inputs[i].dirty
    ensures exit == Cap && rounds == 8
    ensures |log| == 5 && forall k :: 0 <= k < 5 ==> log[k].round == k + 1
  {
    forall i | 1 <= i < 8 ensures LargePlateau(inputs, i) {
      assert PrevRound(false, inputs, i) == i - 1;
    }
    assert !PlateauAt(false, inputs, 0);
    StubbornPrefix(inputs, log, 5);
  }

  lemma {:induction false} StubbornPrefix(inputs: seq<Input>, log: seq<Escalation>, n: nat)
    requires |inputs| == 8 && LogOf(inputs, 8, log) && StockInv(inputs, 8, log) && n <= 5
    requires !PlateauAt(false, inputs, 0) && forall i :: 1 <= i < 8 ==> LargePlateau(inputs, i)
    ensures |log| >= n && forall k :: 0 <= k < n ==> log[k].round == k + 1
  {
    if n > 0 {
      StubbornPrefix(inputs, log, n - 1);
      assert LargePlateau(inputs, n);
      if EscalatedAt(log, n) {
        var k :| 0 <= k < |log| && log[k].round == n;
        assert k >= n - 1;
      }
      if n >= 2 {
        assert log[n - 2].round < log[n - 1].round;
      }
      assert LargePlateau(inputs, log[n - 1].round);
    }
  }

  /** The round captured two mebibytes or more, later than twice the time the guest memory takes at 60 MiB/s. */
  predicate Outrun(memMiB: nat, start: int, x: Input) {
    x.dirty >= 2 * 1024 * 1024 && LongerThanDrain(memMiB, start, x.tested)
  }

  predicate LongerThanDrain(memMiB: nat, start: int, now: int) {
    60 * (now - start) > 2 * memMiB * 1_000_000_000
  }

  lemma DueIsDrain(memMiB: nat, start: int, now: int)
    ensures now > start + HonestDrain(memMiB) <==> LongerThanDrain(memMiB, start, now)
  {
    var x := 2 * memMiB * SECOND;
    assert x == 60 * (x / 60) + x % 60;
  }

  /** A live migration throttles only in rounds in which the guest outran the drain for that long, and it throttles in the
      first of them. */
  lemma LiveThrottlesAfterDrain(memMiB: nat, start: int, inputs: seq<Input>, rounds: nat, log: seq<Escalation>, exit: Exit)
    requires Outcome(true, start + HonestDrain(memMiB), inputs, rounds, log, exit)
    ensures forall k :: 0 <= k < |log| ==>
      && log[k].round < rounds && log[k].tested == inputs[log[k].round].tested
      && Outrun(memMiB, start, inputs[log[k].round])
    ensures forall i :: 0 <= i < (if exit == Cap then rounds else rounds - 1) && Outrun(memMiB, start, inputs[i]) ==>
      log != [] && log[0].round <= i
  {
    var due, before := start + HonestDrain(memMiB), if exit == Cap then rounds else rounds - 1;
    forall i | 0 <= i < before ensures Overdue(due, inputs, i) <==> Outrun(memMiB, start, inputs[i]) {
      DueIsDrain(memMiB, start, inputs[i].tested);
    }
    forall k | 0 <= k < |log|
      ensures log[k].round < before && log[k].tested == inputs[log[k].round].tested && Overdue(due, inputs, log[k].round)
    {
      assert EntryOf(inputs, before, log[k]);
    }
  }
}
