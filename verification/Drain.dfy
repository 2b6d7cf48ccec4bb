/** Convergence of the budgeted drain, over any sequence of live rounds. */
module Drain {
  import opened Options
  import opened GuestMemory
  import opened Arith
  import DirtyDump

  /** One live round.
      brought:  pages that became dirty since the round before: the KVM log it fetched and what the device model marked
      dumped:   the pages it dumped
      leftover: the pages it left over */
  datatype Round = Round(brought: set<Page>, dumped: set<Page>, leftover: set<Page>)

  /** What a budget of max bytes lets a dump do, counted in pages. */
  lemma FitsIsMin(total: nat, q: nat, pageSize: nat, max: nat)
    requires pageSize > 0
    ensures DirtyDump.Fits(total, q, pageSize, max) <==> q == Min(total, max / pageSize)
    ensures DirtyDump.Fits(total, q, pageSize, max) <==> q == DirtyDump.Need(total, pageSize, Some(max))
  {
    var c, n := max / pageSize, DirtyDump.BudgetPages(max, pageSize);
    DirtyDump.BudgetBounds(max, pageSize);
    assert (n + 1) * pageSize == n * pageSize + pageSize && n * pageSize == pageSize * n;
    DivUnique(max, pageSize, n, max - n * pageSize);
    assert c * pageSize + max % pageSize == max;
    assert (c + 1) * pageSize == c * pageSize + pageSize;
    if q <= c {
      MulMono(q, c, pageSize);
      if q < c {
        MulMono(q + 1, c, pageSize);
      }
    } else {
      MulMono(c + 1, q, pageSize);
    }
  }

  /** A round that starts with backlog left over, re-marked queue pages and newly dirty pages. */
  ghost predicate RoundOk(before: set<Page>, queues: set<Page>, b: nat, r: Round) {
    var dirty := before + queues + r.brought;
    && r.dumped + r.leftover == dirty && r.dumped !! r.leftover
    && |r.dumped| == Min(|dirty|, b)
  }

  ghost function Backlog(initial: set<Page>, rounds: seq<Round>, k: nat): set<Page>
    requires k <= |rounds|
  {
    if k == 0 then initial else rounds[k - 1].leftover
  }

  /** Round k takes up the backlog of round k - 1. */
  ghost predicate RoundAt(initial: set<Page>, queues: set<Page>, b: nat, rounds: seq<Round>, k: nat) {
    k < |rounds| && RoundOk(Backlog(initial, rounds, k), queues, b, rounds[k])
  }

  ghost predicate DrainRun(initial: set<Page>, queues: set<Page>, b: nat, rounds: seq<Round>) {
    forall k: nat {:trigger RoundAt(initial, queues, b, rounds, k)} ::
      k < |rounds| ==> RoundAt(initial, queues, b, rounds, k)
  }

  /** Round k brings at most d pages: newly dirty ones and the re-marked queue pages. */
  ghost predicate Brings(queues: set<Page>, rounds: seq<Round>, k: nat, d: nat) {
    k < |rounds| && |queues + rounds[k].brought| <= d
  }

  ghost predicate AtMost(queues: set<Page>, rounds: seq<Round>, d: nat) {
    forall k: nat {:trigger Brings(queues, rounds, k, d)} :: k < |rounds| ==> Brings(queues, rounds, k, d)
  }

  /** Round k brings at least b pages that are not in its backlog. */
  ghost predicate Outruns(initial: set<Page>, queues: set<Page>, b: nat, rounds: seq<Round>, k: nat) {
    k < |rounds| && |(queues + rounds[k].brought) - Backlog(initial, rounds, k)| >= b
  }

  lemma UnionCard(x: set<Page>, y: set<Page>)
    ensures |x + y| <= |x| + |y|
    ensures |x + y| >= |x|
    ensures x !! y ==> |x + y| == |x| + |y|
  {
    assert x + y == x + (y - x);
    assert |y| == |y - x| + |y * x| by { assert y == (y - x) + (y * x); }
    assert |x + (y - x)| == |x| + |y - x|;
  }

  lemma RoundShrinks(before: set<Page>, queues: set<Page>, b: nat, d: nat, r: Round)
    requires RoundOk(before, queues, b, r) && |queues + r.brought| <= d
    ensures |r.leftover| <= Max(0, |before| + d - b)
    ensures |r.dumped| <= b
    ensures |before| + d < b ==> |r.dumped| < b
    ensures |r.dumped| <= |before| + d
  {
    var dirty := before + queues + r.brought;
    assert dirty == before + (queues + r.brought);
    UnionCard(before, queues + r.brought);
    UnionCard(r.dumped, r.leftover);
  }

  lemma ShrinkStep(l0: nat, l1: nat, l2: nat, k: nat, e: nat)
    requires k > 0 && l1 <= Max(0, l0 - (k - 1) * e) && l2 <= Max(0, l1 - e)
    ensures l2 <= Max(0, l0 - k * e)
  {
    assert k * e == (k - 1) * e + e && (k - 1) * e >= 0;
  }

  /** If every round brings at most d < b pages, new ones and re-marked queues together, the backlog after k rounds is at
      most max(0, L0 - k(b - d)). */
  lemma {:induction false} DrainBound(initial: set<Page>, queues: set<Page>, b: nat, d: nat, rounds: seq<Round>, k: nat)
    requires DrainRun(initial, queues, b, rounds) && k <= |rounds| && d <= b
    requires AtMost(queues, rounds, d)
    ensures |Backlog(initial, rounds, k)| <= Max(0, |initial| - k * (b - d))
  {
    if k > 0 {
      DrainBound(initial, queues, b, d, rounds, k - 1);
      assert RoundAt(initial, queues, b, rounds, k - 1) && Brings(queues, rounds, k - 1, d);
      RoundShrinks(Backlog(initial, rounds, k - 1), queues, b, d, rounds[k - 1]);
      ShrinkStep(|initial|, |Backlog(initial, rounds, k - 1)|, |Backlog(initial, rounds, k)|, k, b - d);
    }
  }

  /** So a round below budget, the loop's sign that the backlog is drained, comes no later than the first k with
      k(b - d) >= L0; that round dumps at most d pages and leaves nothing over. */
  lemma DrainEnds(initial: set<Page>, queues: set<Page>, b: nat, d: nat, rounds: seq<Round>, k: nat)
    requires DrainRun(initial, queues, b, rounds) && d < b
    requires AtMost(queues, rounds, d)
    requires k < |rounds| && k * (b - d) >= |initial|
    ensures |rounds[k].dumped| <= d && rounds[k].leftover == {}
  {
    DrainBound(initial, queues, b, d, rounds, k);
    assert RoundAt(initial, queues, b, rounds, k) && Brings(queues, rounds, k, d);
    RoundShrinks(Backlog(initial, rounds, k), queues, b, d, rounds[k]);
  }

  /** The bound on d is needed: if every round brings at least b pages outside the backlog, no round is ever
      below budget and the backlog never shrinks. */
  lemma {:induction false} OutrunNeverDrains(initial: set<Page>, queues: set<Page>, b: nat, rounds: seq<Round>, k: nat)
    requires DrainRun(initial, queues, b, rounds) && k < |rounds|
    requires forall i: nat {:trigger Outruns(initial, queues, b, rounds, i)} :: i <= k ==> Outruns(initial, queues, b, rounds, i)
    ensures |rounds[k].dumped| == b
    ensures |rounds[k].leftover| >= |initial|
  {
    if k > 0 {
      OutrunNeverDrains(initial, queues, b, rounds, k - 1);
    }
    assert RoundAt(initial, queues, b, rounds, k) && Outruns(initial, queues, b, rounds, k);
    RoundOutrun(Backlog(initial, rounds, k), queues, b, rounds[k]);
  }

  lemma RoundOutrun(before: set<Page>, queues: set<Page>, b: nat, r: Round)
    requires RoundOk(before, queues, b, r) && |(queues + r.brought) - before| >= b
    ensures |r.dumped| == b && |r.leftover| >= |before|
  {
    var extra := (queues + r.brought) - before;
    assert before + queues + r.brought == before + extra;
    UnionCard(before, extra);
    UnionCard(r.dumped, r.leftover);
  }

  /** The bitmap code's live dump is such a round, with a budget of max / pageSize pages: before is the leftover of the
      last one, brought what guest and device model dirtied since. */
  lemma LiveDumpIsRound(before: set<Page>, queues: set<Page>, brought: set<Page>, dirty: seq<Page>, q: nat, pageSize: nat, max: nat)
    requires pageSize > 0 && DirtyDump.Distinct(dirty) && DirtyDump.Pages(dirty) == before + queues + brought
    requires q == DirtyDump.Need(|dirty|, pageSize, Some(max))
    ensures RoundOk(before, queues, max / pageSize,
                    Round(brought, DirtyDump.Pages(dirty[..q]), DirtyDump.Pages(dirty[q..])))
  {
    FitsIsMin(|dirty|, q, pageSize, max);
    DirtyDump.SplitPages(dirty, q);
    DirtyDump.DistinctCard(dirty);
    DirtyDump.DistinctCard(dirty[..q]);
  }
}
