/** The drain and the round loop together: a bounded dirty rate ends pre-copy. */
module Convergence {
  import opened GuestMemory
  import opened Arith
  import opened Drain
  import opened RoundLoop

  /** The loop sees of each round the bytes it dumped. */
  ghost predicate Reports(rounds: seq<Round>, pageSize: nat, inputs: seq<Input>) {
    |rounds| <= |inputs| && forall i :: 0 <= i < |rounds| ==> inputs[i].dirty == |rounds[i].dumped| * pageSize
  }

  /** A run of live rounds under the loop's budget, each bringing at most d pages. */
  ghost predicate BoundedDrain(initial: set<Page>, queues: set<Page>, pageSize: nat, d: nat, rounds: seq<Round>, inputs: seq<Input>) {
    && pageSize > 0 && d < DRAIN_BUDGET_BYTES / pageSize
    && DrainRun(initial, queues, DRAIN_BUDGET_BYTES / pageSize, rounds) && AtMost(queues, rounds, d)
    && Reports(rounds, pageSize, inputs)
  }

  lemma BelowBudget(d: nat, pageSize: nat)
    requires pageSize > 0 && d < DRAIN_BUDGET_BYTES / pageSize
    ensures d * pageSize < DRAIN_BUDGET_BYTES
  {
    var c := DRAIN_BUDGET_BYTES / pageSize;
    assert c * pageSize + DRAIN_BUDGET_BYTES % pageSize == DRAIN_BUDGET_BYTES;
    assert (d + 1) * pageSize == d * pageSize + pageSize;
    MulMono(d + 1, c, pageSize);
  }

  /** From round k on, k(b - d) >= L0, no round fills its budget. */
  lemma DrainedFrom(initial: set<Page>, queues: set<Page>, pageSize: nat, d: nat, rounds: seq<Round>, inputs: seq<Input>, k: nat, i: nat)
    requires BoundedDrain(initial, queues, pageSize, d, rounds, inputs)
    requires k <= i < |rounds| && k * (DRAIN_BUDGET_BYTES / pageSize - d) >= |initial|
    ensures inputs[i].dirty <= d * pageSize < DRAIN_BUDGET_BYTES
  {
    var b := DRAIN_BUDGET_BYTES / pageSize;
    MulMono(k, i, b - d);
    DrainEnds(initial, queues, b, d, rounds, i);
    MulMono(|rounds[i].dumped|, d, pageSize);
    BelowBudget(d, pageSize);
  }

  lemma DrainedAll(initial: set<Page>, queues: set<Page>, pageSize: nat, d: nat, rounds: seq<Round>, inputs: seq<Input>, k: nat)
    requires BoundedDrain(initial, queues, pageSize, d, rounds, inputs)
    requires k * (DRAIN_BUDGET_BYTES / pageSize - d) >= |initial|
    ensures d * pageSize < DRAIN_BUDGET_BYTES
    ensures forall i :: k <= i < |rounds| ==> inputs[i].dirty <= d * pageSize
  {
    BelowBudget(d, pageSize);
    forall i | k <= i < |rounds| ensures inputs[i].dirty <= d * pageSize {
      DrainedFrom(initial, queues, pageSize, d, rounds, inputs, k, i);
    }
  }

  /** A guest that dirties at most d pages a round, d below the budget of b pages, is not throttled from round k on, where
      k(b - d) >= L0; and if d pages are no more than the convergence threshold, pre-copy ends by then, not at the cap. */
  lemma BoundedRateEndsPrecopy(initial: set<Page>, queues: set<Page>, pageSize: nat, d: nat, rounds: seq<Round>,
                               inputs: seq<Input>, due: int, n: nat, log: seq<Escalation>, exit: Exit, k: nat)
    requires BoundedDrain(initial, queues, pageSize, d, rounds, inputs) && |rounds| == n
    requires Outcome(true, due, inputs, n, log, exit)
    requires k < |inputs| && k * (DRAIN_BUDGET_BYTES / pageSize - d) >= |initial|
    ensures forall i :: k <= i < n ==> inputs[i].dirty < DRAIN_BUDGET_BYTES
    ensures forall j :: 0 <= j < |log| ==> log[j].round < k
    ensures d * pageSize <= CONVERGED_BYTES ==> n <= k + 1 && exit != Cap
  {
    DrainedAll(initial, queues, pageSize, d, rounds, inputs, k);
    SmallRoundsEnd(inputs, due, n, log, exit, k, d * pageSize);
  }

  /** What rounds of at most bound bytes from round k on do to the loop. */
  lemma SmallRoundsEnd(inputs: seq<Input>, due: int, n: nat, log: seq<Escalation>, exit: Exit, k: nat, bound: int)
    requires Outcome(true, due, inputs, n, log, exit) && k < |inputs|
    requires bound < DRAIN_BUDGET_BYTES && forall i :: k <= i < n ==> inputs[i].dirty <= bound
    ensures forall j :: 0 <= j < |log| ==> log[j].round < k
    ensures bound <= CONVERGED_BYTES ==> n <= k + 1 && exit != Cap
  {
    if k < n {
      assert inputs[k].dirty <= bound;
    }
    forall j | 0 <= j < |log| ensures log[j].round < k {
      assert Overdue(due, inputs, log[j].round) && EntryOf(inputs, if exit == Cap then n else n - 1, log[j]);
    }
  }
}
