/** Maximal runs of set flags, and the list a left-to-right scan builds of them. */
module FlagRuns {
  /** Flags a..b-1 of the first n are all set and the run cannot be extended on either side. */
  ghost predicate MaximalRun(bs: seq<bool>, n: nat, a: nat, b: nat) {
    && a < b <= n <= |bs|
    && (forall k :: a <= k < b ==> bs[k])
    && (a > 0 ==> !bs[a - 1])
    && (b < n ==> !bs[b])
  }

  /** A run as indices. */
  datatype Stretch = Stretch(a: nat, b: nat)

  ghost predicate OpenAt(bs: seq<bool>, n: nat) {
    0 < n <= |bs| && bs[n - 1]
  }

  /** The runs of the first n flags, in order; the last one may still be growing. */
  ghost function RunsOf(bs: seq<bool>, n: nat): (rs: seq<Stretch>)
    requires n <= |bs|
    ensures OpenAt(bs, n) ==> rs != []
  {
    if n == 0 then []
    else
      var rs := RunsOf(bs, n - 1);
      if !bs[n - 1] then rs
      else if OpenAt(bs, n - 1) then rs[|rs| - 1 := Stretch(rs[|rs| - 1].a, n)]
      else rs + [Stretch(n - 1, n)]
  }

  /** Every listed run is maximal, and only the last one can reach position n. */
  lemma {:induction false} ListedIsMaximal(bs: seq<bool>, n: nat, j: nat)
    requires n <= |bs| && j < |RunsOf(bs, n)|
    ensures MaximalRun(bs, n, RunsOf(bs, n)[j].a, RunsOf(bs, n)[j].b)
    ensures RunsOf(bs, n)[j].b == n <==> OpenAt(bs, n) && j == |RunsOf(bs, n)| - 1
  {
    if j < |RunsOf(bs, n - 1)| {
      ListedIsMaximal(bs, n - 1, j);
    }
  }

  /** Every maximal run is listed. */
  lemma {:induction false} MaximalIsListed(bs: seq<bool>, n: nat, a: nat, b: nat) returns (j: nat)
    requires n <= |bs| && MaximalRun(bs, n, a, b)
    ensures j < |RunsOf(bs, n)| && RunsOf(bs, n)[j] == Stretch(a, b)
    decreases n
  {
    var rs := RunsOf(bs, n - 1);
    if b < n {
      j := MaximalIsListed(bs, n - 1, a, b);
      ListedIsMaximal(bs, n - 1, j);
    } else if a == n - 1 {
      j := |rs|;
    } else {
      j := MaximalIsListed(bs, n - 1, a, n - 1);
      ListedIsMaximal(bs, n - 1, j);
    }
  }

  /** Any set stretch lies in a maximal run. */
  lemma RunAround(bs: seq<bool>, lo: nat, hi: nat) returns (a: nat, b: nat)
    requires lo < hi <= |bs| && forall k :: lo <= k < hi ==> bs[k]
    ensures a <= lo && hi <= b && MaximalRun(bs, |bs|, a, b)
  {
    a, b := lo, hi;
    while a > 0 && bs[a - 1]
      invariant 0 <= a <= lo && forall k :: a <= k < hi ==> bs[k]
    {
      a := a - 1;
    }
    while b < |bs| && bs[b]
      invariant hi <= b <= |bs| && forall k :: a <= k < b ==> bs[k]
    {
      b := b + 1;
    }
  }
}

/** The prober's run-length statistics. */
module Probe {
  import opened FlagRuns

  /** recvNS == 0: never answered. */
  datatype Sample = Sample(sentNS: int, recvNS: int)

  datatype Gap = Gap(startNS: int, endNS: int)
  {
    function Len(): int { endNS - startNS }
  }

  const BAD_RTT: int := 5_000_000

  predicate Lost(s: Sample) { s.recvNS == 0 }

  predicate Bad(s: Sample) { s.recvNS == 0 || s.recvNS - s.sentNS > BAD_RTT }

  ghost function LostFlags(win: seq<Sample>): (bs: seq<bool>)
    ensures |bs| == |win| && forall i :: 0 <= i < |win| ==> bs[i] == Lost(win[i])
  {
    seq(|win|, i requires 0 <= i < |win| => Lost(win[i]))
  }

  ghost function BadFlags(win: seq<Sample>): (bs: seq<bool>)
    ensures |bs| == |win| && forall i :: 0 <= i < |win| ==> bs[i] == Bad(win[i])
  {
    seq(|win|, i requires 0 <= i < |win| => Bad(win[i]))
  }

  /** Monotonic-clock readings: never zero, which the scans use for "no run". */
  predicate Positive(win: seq<Sample>) {
    forall i :: 0 <= i < |win| ==> win[i].sentNS > 0
  }

  predicate InSendOrder(win: seq<Sample>) {
    forall i, j :: 0 <= i < j < |win| ==> win[i].sentNS <= win[j].sentNS
  }

  // ---------------------------------------------------------------- the time a run covers

  /** From its first probe to one interval after its last. */
  ghost function GapOf(win: seq<Sample>, interval: int, r: Stretch): Gap
    requires r.a < r.b <= |win|
  {
    Gap(win[r.a].sentNS, win[r.b - 1].sentNS + interval)
  }

  /** gs are the gaps of the runs rs, in order. */
  ghost predicate Match(win: seq<Sample>, interval: int, rs: seq<Stretch>, gs: seq<Gap>) {
    && |gs| == |rs|
    && forall j :: 0 <= j < |rs| ==> rs[j].a < rs[j].b <= |win| && gs[j] == GapOf(win, interval, rs[j])
  }

  /** The list a scan of the first n samples should have. */
  ghost predicate Scanned(win: seq<Sample>, interval: int, bs: seq<bool>, n: nat, gs: seq<Gap>) {
    n <= |bs| && |bs| == |win| && Match(win, interval, RunsOf(bs, n), gs)
  }

  lemma ScanStarts(win: seq<Sample>, interval: int, bs: seq<bool>, n: nat, gs: seq<Gap>)
    requires n < |win| && Scanned(win, interval, bs, n, gs) && bs[n] && !OpenAt(bs, n)
    ensures Scanned(win, interval, bs, n + 1, gs + [Gap(win[n].sentNS, win[n].sentNS + interval)])
  {
  }

  lemma ScanGrows(win: seq<Sample>, interval: int, bs: seq<bool>, n: nat, gs: seq<Gap>)
    requires n < |win| && Scanned(win, interval, bs, n, gs) && bs[n] && OpenAt(bs, n)
    ensures gs != []
    ensures Scanned(win, interval, bs, n + 1, gs[|gs| - 1 := Gap(gs[|gs| - 1].startNS, win[n].sentNS + interval)])
  {
  }

  lemma ScanSkips(win: seq<Sample>, interval: int, bs: seq<bool>, n: nat, gs: seq<Gap>)
    requires n < |win| && Scanned(win, interval, bs, n, gs) && !bs[n]
    ensures Scanned(win, interval, bs, n + 1, gs)
  {
  }

  /** r is the longest time covered by a maximal run among those chosen, or 0. */
  ghost predicate IsLongest(win: seq<Sample>, interval: int, bs: seq<bool>, chosen: Gap -> bool, r: int)
    requires |bs| == |win|
  {
    && (forall a: nat, b: nat :: MaximalRun(bs, |bs|, a, b) && chosen(GapOf(win, interval, Stretch(a, b))) ==>
          GapOf(win, interval, Stretch(a, b)).Len() <= r)
    && (r != 0 ==> Attained(win, interval, bs, chosen, r))
  }

  ghost predicate Attained(win: seq<Sample>, interval: int, bs: seq<bool>, chosen: Gap -> bool, r: int)
    requires |bs| == |win|
  {
    exists a: nat, b: nat :: Spans(win, interval, bs, chosen, a, b, r)
  }

  /** The chosen maximal run a..b-1 covers time r. */
  ghost predicate Spans(win: seq<Sample>, interval: int, bs: seq<bool>, chosen: Gap -> bool, a: nat, b: nat, r: int)
    requires |bs| == |win|
  {
    && MaximalRun(bs, |bs|, a, b)
    && chosen(GapOf(win, interval, Stretch(a, b)))
    && GapOf(win, interval, Stretch(a, b)).Len() == r
  }

  /** best is the longest chosen gap of the list, or 0. */
  ghost predicate BestOf(gs: seq<Gap>, chosen: Gap -> bool, best: int) {
    && (forall j :: 0 <= j < |gs| && chosen(gs[j]) ==> gs[j].Len() <= best)
    && (best != 0 ==> exists j :: 0 <= j < |gs| && chosen(gs[j]) && gs[j].Len() == best)
  }

  /** The longest of the scanned list is the longest over all maximal runs. */
  lemma BestIsLongest(win: seq<Sample>, interval: int, bs: seq<bool>, gs: seq<Gap>, chosen: Gap -> bool, best: int)
    requires Scanned(win, interval, bs, |win|, gs) && BestOf(gs, chosen, best)
    ensures IsLongest(win, interval, bs, chosen, best)
  {
    forall a: nat, b: nat | MaximalRun(bs, |bs|, a, b) && chosen(GapOf(win, interval, Stretch(a, b)))
      ensures GapOf(win, interval, Stretch(a, b)).Len() <= best
    {
      var j := MaximalIsListed(bs, |win|, a, b);
      assert gs[j] == GapOf(win, interval, Stretch(a, b));
    }
    if best != 0 {
      var j :| 0 <= j < |gs| && chosen(gs[j]) && gs[j].Len() == best;
      ListedIsMaximal(bs, |win|, j);
      var r := RunsOf(bs, |win|)[j];
      assert r == Stretch(r.a, r.b);
      assert Spans(win, interval, bs, chosen, r.a, r.b, best);
    }
  }

  // ---------------------------------------------------------------- sorting the gaps

  ghost predicate Falling(gs: seq<Gap>) {
    forall i, j :: 0 <= i < j < |gs| ==> gs[i].Len() >= gs[j].Len()
  }

  function Inserted(gs: seq<Gap>, k: nat, g: Gap): (out: seq<Gap>)
    requires k <= |gs|
    ensures |out| == |gs| + 1
    ensures forall j :: 0 <= j < |out| ==> out[j] == if j < k then gs[j] else if j == k then g else gs[j - 1]
  {
    gs[..k] + [g] + gs[k..]
  }

  lemma InsertedElements(gs: seq<Gap>, k: nat, g: Gap)
    requires k <= |gs|
    ensures multiset(Inserted(gs, k, g)) == multiset(gs) + multiset{g}
  {
    assert gs == gs[..k] + gs[k..];
  }

  lemma InsertFalls(gs: seq<Gap>, k: nat, g: Gap)
    requires Falling(gs) && k <= |gs|
    requires forall j :: 0 <= j < k ==> gs[j].Len() >= g.Len()
    requires k < |gs| ==> gs[k].Len() < g.Len()
    ensures Falling(Inserted(gs, k, g))
  {
    forall j | k <= j < |gs| ensures gs[j].Len() < g.Len() {
    }
  }

  lemma TakeOneMore(gs: seq<Gap>, i: nat)
    requires i < |gs|
    ensures multiset(gs[..i + 1]) == multiset(gs[..i]) + multiset{gs[i]}
  {
    assert gs[..i + 1] == gs[..i] + [gs[i]];
  }

  method FindPlace(gs: seq<Gap>, g: Gap) returns (k: nat)
    ensures k <= |gs| && (forall j :: 0 <= j < k ==> gs[j].Len() >= g.Len())
    ensures k < |gs| ==> gs[k].Len() < g.Len()
  {
    k := 0;
    while k < |gs| && gs[k].Len() >= g.Len()
      invariant 0 <= k <= |gs| && forall j :: 0 <= j < k ==> gs[j].Len() >= g.Len()
    {
      k := k + 1;
    }
  }

  /** sort.Slice by falling length. */
  method SortByLength(gs: seq<Gap>) returns (out: seq<Gap>)
    ensures multiset(out) == multiset(gs) && Falling(out)
  {
    out := [];
    var i := 0;
    while i < |gs|
      invariant 0 <= i <= |gs| && multiset(out) == multiset(gs[..i]) && Falling(out)
    {
      TakeOneMore(gs, i);
      var k := FindPlace(out, gs[i]);
      InsertFalls(out, k, gs[i]);
      InsertedElements(out, k, gs[i]);
      out := Inserted(out, k, gs[i]);
      i := i + 1;
    }
    assert gs[..i] == gs;
  }

  predicate Any(g: Gap) { true }

  lemma SameGap(gs: seq<Gap>, hs: seq<Gap>, j: nat) returns (k: nat)
    requires multiset(gs) == multiset(hs) && j < |gs|
    ensures k < |hs| && hs[k] == gs[j]
  {
    assert gs[j] in multiset(hs);
    k :| 0 <= k < |hs| && hs[k] == gs[j];
  }

  /** The first of the sorted list is its longest. */
  lemma FirstIsBest(gs: seq<Gap>, sorted: seq<Gap>)
    requires multiset(sorted) == multiset(gs) && Falling(sorted)
    ensures BestOf(gs, Any, if sorted != [] then sorted[0].Len() else 0)
  {
    forall j | 0 <= j < |gs| ensures sorted != [] && gs[j].Len() <= sorted[0].Len() {
      var k := SameGap(gs, sorted, j);
    }
    if sorted != [] {
      var k := SameGap(sorted, gs, 0);
      assert Any(gs[k]);
    }
  }

  // ---------------------------------------------------------------- stats

  datatype Stats = Stats(
    sent: nat, received: nat, lost: int,
    lostRunNS: int, topLostRuns: seq<Gap>,
    maxGapNS: int, topGaps: seq<Gap>,
    maxSendStallNS: int)

  ghost function CountReceived(win: seq<Sample>, n: nat): nat
    requires n <= |win|
  {
    if n == 0 then 0 else CountReceived(win, n - 1) + if win[n - 1].recvNS > 0 then 1 else 0
  }

  ghost function CountLost(win: seq<Sample>, n: nat): nat
    requires n <= |win|
  {
    if n == 0 then 0 else CountLost(win, n - 1) + if Lost(win[n - 1]) then 1 else 0
  }

  /** Every sample is either answered or lost. */
  lemma {:induction false} AnsweredOrLost(win: seq<Sample>, n: nat)
    requires n <= |win| && forall i :: 0 <= i < |win| ==> win[i].recvNS >= 0
    ensures CountReceived(win, n) + CountLost(win, n) == n
  {
    if n > 0 {
      AnsweredOrLost(win, n - 1);
    }
  }

  /** The scan for never-answered runs: finished ones in a list, the open one beside it (startNS == 0: none). */
  ghost predicate LostScan(win: seq<Sample>, interval: int, n: nat, closed: seq<Gap>, run: Gap) {
    && n <= |win|
    && (run.startNS != 0 <==> OpenAt(LostFlags(win), n))
    && Scanned(win, interval, LostFlags(win), n, closed + (if run.startNS != 0 then [run] else []))
  }

  /** What the scan does with one sample. */
  function LostStep(s: Sample, interval: int, run: Gap): Gap {
    if s.recvNS != 0 then Gap(0, 0)
    else if run.startNS == 0 then Gap(s.sentNS, s.sentNS + interval)
    else Gap(run.startNS, s.sentNS + interval)
  }

  lemma LostScanNext(win: seq<Sample>, interval: int, n: nat, closed: seq<Gap>, run: Gap)
    requires n < |win| && Positive(win) && LostScan(win, interval, n, closed, run)
    ensures var closed' := if win[n].recvNS != 0 && run.startNS != 0 then closed + [run] else closed;
      LostScan(win, interval, n + 1, closed', LostStep(win[n], interval, run))
  {
    var bs := LostFlags(win);
    var gs := closed + (if run.startNS != 0 then [run] else []);
    if !bs[n] {
      ScanSkips(win, interval, bs, n, gs);
      assert closed + [run] + [] == closed + [run];
    } else if run.startNS == 0 {
      ScanStarts(win, interval, bs, n, gs);
      assert closed + [] == closed;
    } else {
      ScanGrows(win, interval, bs, n, gs);
      var next := Gap(run.startNS, win[n].sentNS + interval);
      assert (closed + [run])[|closed| := next] == closed + [next];
    }
  }

  /** The scan for bad runs: all in one list, whose last entry is extended in place while the run is open. */
  ghost predicate BadScan(win: seq<Sample>, interval: int, n: nat, gaps: seq<Gap>, inRun: bool) {
    && n <= |win|
    && (inRun <==> OpenAt(BadFlags(win), n))
    && Scanned(win, interval, BadFlags(win), n, gaps)
  }

  lemma BadScanNext(win: seq<Sample>, interval: int, n: nat, gaps: seq<Gap>, inRun: bool)
    requires n < |win| && BadScan(win, interval, n, gaps, inRun)
    ensures Bad(win[n]) && inRun ==> gaps != []
    ensures var end := win[n].sentNS + interval;
      var gaps' :=
        if !Bad(win[n]) then gaps
        else if inRun then gaps[|gaps| - 1 := Gap(gaps[|gaps| - 1].startNS, end)]
        else gaps + [Gap(win[n].sentNS, end)];
      BadScan(win, interval, n + 1, gaps', Bad(win[n]))
  {
    var bs := BadFlags(win);
    if !bs[n] {
      ScanSkips(win, interval, bs, n, gaps);
    } else if inRun {
      ScanGrows(win, interval, bs, n, gaps);
    } else {
      ScanStarts(win, interval, bs, n, gaps);
    }
  }

  ghost function SendPause(win: seq<Sample>, i: nat): int
    requires 1 <= i < |win|
  {
    win[i].sentNS - win[i - 1].sentNS
  }

  /** The prober's own worst pause between two sends, as the scan accumulates it. */
  ghost function WorstPause(win: seq<Sample>, n: nat): int
    requires n <= |win|
  {
    if n <= 1 then 0
    else
      var w := WorstPause(win, n - 1);
      if SendPause(win, n - 1) > w then SendPause(win, n - 1) else w
  }

  /** stall is at least every pause, and one of them unless it is 0. */
  ghost predicate IsWorstPause(win: seq<Sample>, n: nat, stall: int) {
    && n <= |win| && stall >= 0
    && (forall i :: 1 <= i < n ==> SendPause(win, i) <= stall)
    && (stall != 0 ==> exists i :: 1 <= i < n && SendPause(win, i) == stall)
  }

  lemma {:induction false} WorstPauseIsWorst(win: seq<Sample>, n: nat)
    requires n <= |win|
    ensures IsWorstPause(win, n, WorstPause(win, n))
  {
    if n > 1 {
      WorstPauseIsWorst(win, n - 1);
      if SendPause(win, n - 1) <= WorstPause(win, n - 1) && WorstPause(win, n) != 0 {
        var i :| 1 <= i < n - 1 && SendPause(win, i) == WorstPause(win, n);
        assert 1 <= i < n;
      }
    }
  }

  ghost function LastSent(win: seq<Sample>, n: nat): int
    requires n <= |win|
  {
    if n == 0 then 0 else win[n - 1].sentNS
  }

  ghost predicate StallScan(win: seq<Sample>, n: nat, prevSent: int, stall: int) {
    && n <= |win|
    && prevSent == LastSent(win, n)
    && stall == WorstPause(win, n)
  }

  /** First switch of the loop body. */
  method TakeLost(win: seq<Sample>, interval: int, i: nat, lostRuns: seq<Gap>, lostRun: Gap)
    returns (lostRuns': seq<Gap>, lostRun': Gap)
    requires i < |win| && Positive(win) && LostScan(win, interval, i, lostRuns, lostRun)
    ensures LostScan(win, interval, i + 1, lostRuns', lostRun')
  {
    LostScanNext(win, interval, i, lostRuns, lostRun);
    var s := win[i];
    lostRuns', lostRun' := lostRuns, lostRun;
    if s.recvNS == 0 && lostRun.startNS == 0 {
      lostRun' := Gap(s.sentNS, s.sentNS + interval);
    } else if s.recvNS == 0 {
      lostRun' := Gap(lostRun.startNS, s.sentNS + interval);
    } else {
      if lostRun.startNS != 0 {
        lostRuns' := lostRuns + [lostRun];
      }
      lostRun' := Gap(0, 0);
    }
  }

  /** Second switch of the loop body; the open run is the last entry of gaps. */
  method TakeBad(win: seq<Sample>, interval: int, i: nat, gaps: seq<Gap>, inRun: bool)
    returns (gaps': seq<Gap>, inRun': bool)
    requires i < |win| && BadScan(win, interval, i, gaps, inRun)
    ensures BadScan(win, interval, i + 1, gaps', inRun')
  {
    BadScanNext(win, interval, i, gaps, inRun);
    var s := win[i];
    var bad := s.recvNS == 0 || s.recvNS - s.sentNS > BAD_RTT;
    gaps', inRun' := gaps, inRun;
    if bad && !inRun {
      gaps' := gaps + [Gap(s.sentNS, s.sentNS + interval)];
      inRun' := true;
    } else if bad {
      gaps' := gaps[|gaps| - 1 := Gap(gaps[|gaps| - 1].startNS, s.sentNS + interval)];
    } else {
      inRun' := false;
    }
  }

  method TakeStall(win: seq<Sample>, i: nat, prevSent: int, stall: int) returns (prevSent': int, stall': int)
    requires i < |win| && Positive(win) && StallScan(win, i, prevSent, stall)
    ensures StallScan(win, i + 1, prevSent', stall')
  {
    stall' := stall;
    if prevSent > 0 && win[i].sentNS - prevSent > stall {
      stall' := win[i].sentNS - prevSent;
    }
    prevSent' := win[i].sentNS;
  }

  /** The variables of the loop of stats. */
  datatype Scanner = Scanner(received: nat, lostRuns: seq<Gap>, lostRun: Gap, gaps: seq<Gap>, inRun: bool, prevSent: int, stall: int)

  ghost predicate ScanState(win: seq<Sample>, interval: int, n: nat, v: Scanner) {
    && n <= |win|
    && v.received == CountReceived(win, n)
    && StallScan(win, n, v.prevSent, v.stall)
    && LostScan(win, interval, n, v.lostRuns, v.lostRun)
    && BadScan(win, interval, n, v.gaps, v.inRun)
  }

  /** The loop body of stats. */
  method TakeSample(win: seq<Sample>, interval: int, i: nat, v: Scanner) returns (v': Scanner)
    requires i < |win| && Positive(win) && ScanState(win, interval, i, v)
    ensures ScanState(win, interval, i + 1, v')
  {
    var prevSent, stall := TakeStall(win, i, v.prevSent, v.stall);
    var received := v.received;
    if win[i].recvNS > 0 {
      received := received + 1;
    }
    var lostRuns, lostRun := TakeLost(win, interval, i, v.lostRuns, v.lostRun);
    var gaps, inRun := TakeBad(win, interval, i, v.gaps, v.inRun);
    v' := Scanner(received, lostRuns, lostRun, gaps, inRun, prevSent, stall);
  }

  /** The loop of stats. */
  method Scan(win: seq<Sample>, interval: int) returns (v: Scanner)
    requires Positive(win)
    ensures ScanState(win, interval, |win|, v)
  {
    v := Scanner(0, [], Gap(0, 0), [], false, 0, 0);
    ScansStart(win, interval);
    var i := 0;
    while i < |win|
      invariant 0 <= i <= |win| && ScanState(win, interval, i, v)
    {
      v := TakeSample(win, interval, i, v);
      i := i + 1;
    }
  }

  lemma ScansStart(win: seq<Sample>, interval: int)
    ensures LostScan(win, interval, 0, [], Gap(0, 0)) && BadScan(win, interval, 0, [], false) && StallScan(win, 0, 0, 0)
  {
  }

  lemma LostScanEnds(win: seq<Sample>, interval: int, closed: seq<Gap>, run: Gap)
    requires LostScan(win, interval, |win|, closed, run)
    ensures Scanned(win, interval, LostFlags(win), |win|, if run.startNS != 0 then closed + [run] else closed)
  {
    assert closed + [] == closed;
  }

  function FirstThree(gs: seq<Gap>): seq<Gap> {
    gs[..if |gs| < 3 then |gs| else 3]
  }

  /** top holds the three longest of the maximal runs, longest first (fewer if there are fewer). */
  ghost predicate TopThree(win: seq<Sample>, interval: int, bs: seq<bool>, top: seq<Gap>) {
    exists gs: seq<Gap>, sorted: seq<Gap> ::
      Scanned(win, interval, bs, |win|, gs) && multiset(sorted) == multiset(gs) && Falling(sorted) && top == FirstThree(sorted)
  }

  /** stats: the longest time covered by a maximal run of never-answered probes, and of bad probes. */
  method ComputeStats(win: seq<Sample>, interval: int) returns (st: Stats)
    requires Positive(win)
    ensures st.sent == |win| && st.received == CountReceived(win, |win|) && st.sent == st.received + st.lost
    ensures (forall i :: 0 <= i < |win| ==> win[i].recvNS >= 0) ==> st.lost == CountLost(win, |win|)
    ensures IsLongest(win, interval, LostFlags(win), Any, st.lostRunNS)
    ensures IsLongest(win, interval, BadFlags(win), Any, st.maxGapNS)
    ensures TopThree(win, interval, LostFlags(win), st.topLostRuns)
    ensures TopThree(win, interval, BadFlags(win), st.topGaps)
    ensures IsWorstPause(win, |win|, st.maxSendStallNS)
    ensures InSendOrder(win) && interval >= 0 ==> 0 <= st.lostRunNS <= st.maxGapNS
  {
    var v := Scan(win, interval);
    LostScanEnds(win, interval, v.lostRuns, v.lostRun);
    var lostRuns := if v.lostRun.startNS != 0 then v.lostRuns + [v.lostRun] else v.lostRuns;
    var lostRunNS, topLostRuns := Rank(win, interval, LostFlags(win), lostRuns);
    var maxGapNS, topGaps := Rank(win, interval, BadFlags(win), v.gaps);
    if InSendOrder(win) && interval >= 0 {
      LostWithinBad(win, interval, lostRunNS, maxGapNS);
    }
    WorstPauseIsWorst(win, |win|);
    if forall i :: 0 <= i < |win| ==> win[i].recvNS >= 0 {
      AnsweredOrLost(win, |win|);
    }
    st := Stats(|win|, v.received, |win| - v.received, lostRunNS, topLostRuns, maxGapNS, topGaps, v.stall);
  }

  /** Sorts a scanned list and takes its longest run and its three longest. */
  method Rank(win: seq<Sample>, interval: int, ghost bs: seq<bool>, gs: seq<Gap>) returns (longest: int, top: seq<Gap>)
    requires Scanned(win, interval, bs, |win|, gs)
    ensures IsLongest(win, interval, bs, Any, longest) && TopThree(win, interval, bs, top)
  {
    var sorted := SortByLength(gs);
    FirstIsBest(gs, sorted);
    longest := if |sorted| > 0 then sorted[0].Len() else 0;
    top := FirstThree(sorted);
    BestIsLongest(win, interval, bs, gs, Any, longest);
  }

  /** With sends in order every run covers a non-negative time, and a longer stretch covers at least as much. */
  lemma StretchMonotone(win: seq<Sample>, interval: int, r: Stretch, t: Stretch)
    requires InSendOrder(win) && interval >= 0 && t.a <= r.a < r.b <= t.b <= |win|
    ensures 0 <= GapOf(win, interval, r).Len() <= GapOf(win, interval, t).Len()
  {
  }

  lemma LongestNonNegative(win: seq<Sample>, interval: int, bs: seq<bool>, chosen: Gap -> bool, r: int)
    requires |bs| == |win| && InSendOrder(win) && interval >= 0 && IsLongest(win, interval, bs, chosen, r)
    ensures r >= 0
  {
    if r != 0 {
      var a: nat, b: nat :| Spans(win, interval, bs, chosen, a, b, r);
      StretchMonotone(win, interval, Stretch(a, b), Stretch(a, b));
    }
  }

  /** Never-answered probes are bad, so the longest lost run lies inside some bad run. */
  lemma LostWithinBad(win: seq<Sample>, interval: int, lostRunNS: int, maxGapNS: int)
    requires InSendOrder(win) && interval >= 0
    requires IsLongest(win, interval, LostFlags(win), Any, lostRunNS)
    requires IsLongest(win, interval, BadFlags(win), Any, maxGapNS)
    ensures 0 <= lostRunNS <= maxGapNS
  {
    var bs := LostFlags(win);
    LongestNonNegative(win, interval, bs, Any, lostRunNS);
    LongestNonNegative(win, interval, BadFlags(win), Any, maxGapNS);
    if lostRunNS != 0 {
      var a: nat, b: nat :| Spans(win, interval, bs, Any, a, b, lostRunNS);
      var c, d := RunAround(BadFlags(win), a, b);
      assert Any(GapOf(win, interval, Stretch(c, d)));
      StretchMonotone(win, interval, Stretch(a, b), Stretch(c, d));
    }
  }

  /** Probes a..b-1 were all unanswered, or answered more than five milliseconds after they were sent. */
  ghost predicate SlowStretch(win: seq<Sample>, a: nat, b: nat) {
    a < b <= |win| && forall k :: a <= k < b ==> win[k].recvNS == 0 || win[k].recvNS > win[k].sentNS + 5_000_000
  }

  /** Probes a..b-1 were never answered. */
  ghost predicate SilentStretch(win: seq<Sample>, a: nat, b: nat) {
    a < b <= |win| && forall k :: a <= k < b ==> win[k].recvNS == 0
  }

  /** From the first probe of the stretch to one interval after its last. */
  ghost function Span(win: seq<Sample>, interval: int, a: nat, b: nat): int
    requires a < b <= |win|
  {
    win[b - 1].sentNS + interval - win[a].sentNS
  }

  lemma LongestOverStretches(win: seq<Sample>, interval: int, bs: seq<bool>, chosen: Gap -> bool, r: int, a: nat, b: nat)
    requires |bs| == |win| && InSendOrder(win) && interval >= 0 && IsLongest(win, interval, bs, chosen, r)
    requires a < b <= |bs| && forall k :: a <= k < b ==> bs[k]
    requires forall g: Gap, h: Gap :: g.startNS <= h.startNS && h.endNS <= g.endNS && chosen(h) ==> chosen(g)
    requires chosen(Gap(win[a].sentNS, win[b - 1].sentNS + interval))
    ensures Span(win, interval, a, b) <= r
  {
    var c, d := RunAround(bs, a, b);
    assert chosen(GapOf(win, interval, Stretch(a, b)));
    assert GapOf(win, interval, Stretch(c, d)).startNS <= GapOf(win, interval, Stretch(a, b)).startNS;
    assert GapOf(win, interval, Stretch(a, b)).endNS <= GapOf(win, interval, Stretch(c, d)).endNS;
  }

  lemma SlowAtMost(win: seq<Sample>, interval: int, maxGapNS: int, a: nat, b: nat)
    requires InSendOrder(win) && interval >= 0 && IsLongest(win, interval, BadFlags(win), Any, maxGapNS)
    requires SlowStretch(win, a, b)
    ensures Span(win, interval, a, b) <= maxGapNS
  {
    LongestOverStretches(win, interval, BadFlags(win), Any, maxGapNS, a, b);
  }

  lemma SpansIsSlow(win: seq<Sample>, interval: int, r: int, a: nat, b: nat)
    requires Spans(win, interval, BadFlags(win), Any, a, b, r)
    ensures SlowStretch(win, a, b) && Span(win, interval, a, b) == r
  {
  }

  /** MaxGapNS is the longest time covered by probes without a prompt answer, or 0 if there are none. */
  lemma MaxGapMeasured(win: seq<Sample>, interval: int, maxGapNS: int)
    requires InSendOrder(win) && interval >= 0 && IsLongest(win, interval, BadFlags(win), Any, maxGapNS)
    ensures forall a: nat, b: nat :: SlowStretch(win, a, b) ==> Span(win, interval, a, b) <= maxGapNS
    ensures maxGapNS != 0 ==> exists a: nat, b: nat :: SlowStretch(win, a, b) && Span(win, interval, a, b) == maxGapNS
  {
    forall a: nat, b: nat | SlowStretch(win, a, b) ensures Span(win, interval, a, b) <= maxGapNS {
      SlowAtMost(win, interval, maxGapNS, a, b);
    }
    if maxGapNS != 0 {
      var a: nat, b: nat :| Spans(win, interval, BadFlags(win), Any, a, b, maxGapNS);
      SpansIsSlow(win, interval, maxGapNS, a, b);
    }
  }

  ghost predicate HasRun(win: seq<Sample>, interval: int, bs: seq<bool>, a: nat, b: nat, g: Gap)
    requires |bs| == |win|
  {
    MaximalRun(bs, |bs|, a, b) && g == Gap(win[a].sentNS, win[b - 1].sentNS + interval)
  }

  /** Every entry of a scanned list is the gap of a maximal run, and the other way round. */
  lemma ScannedHasRuns(win: seq<Sample>, interval: int, bs: seq<bool>, gs: seq<Gap>, j: nat) returns (r: Stretch)
    requires Scanned(win, interval, bs, |win|, gs) && j < |gs|
    ensures HasRun(win, interval, bs, r.a, r.b, gs[j])
  {
    ListedIsMaximal(bs, |win|, j);
    r := RunsOf(bs, |win|)[j];
  }

  lemma RunIsScanned(win: seq<Sample>, interval: int, bs: seq<bool>, gs: seq<Gap>, a: nat, b: nat, g: Gap) returns (j: nat)
    requires Scanned(win, interval, bs, |win|, gs) && HasRun(win, interval, bs, a, b, g)
    ensures j < |gs| && gs[j] == g
  {
    j := MaximalIsListed(bs, |win|, a, b);
  }

  /** The gap of some maximal run. */
  ghost predicate GapOfRun(win: seq<Sample>, interval: int, bs: seq<bool>, g: Gap)
    requires |bs| == |win|
  {
    exists a: nat, b: nat :: HasRun(win, interval, bs, a, b, g)
  }

  /** Among the listed, or no longer than the last of three. */
  predicate ListedOrShorter(top: seq<Gap>, g: Gap) {
    g in top || (|top| == 3 && g.endNS - g.startNS <= top[2].endNS - top[2].startNS)
  }

  lemma FirstOfFalling(gs: seq<Gap>, sorted: seq<Gap>, g: Gap)
    requires multiset(sorted) == multiset(gs) && Falling(sorted) && g in gs
    ensures ListedOrShorter(FirstThree(sorted), g)
  {
    assert g in multiset(sorted);
    var k :| 0 <= k < |sorted| && sorted[k] == g;
    if k < 3 {
      assert FirstThree(sorted)[k] == g;
    }
  }

  lemma TopFromSorted(win: seq<Sample>, interval: int, bs: seq<bool>, gs: seq<Gap>, sorted: seq<Gap>)
    requires Scanned(win, interval, bs, |win|, gs) && multiset(sorted) == multiset(gs) && Falling(sorted)
    ensures forall g :: g in FirstThree(sorted) ==> GapOfRun(win, interval, bs, g)
    ensures forall g :: GapOfRun(win, interval, bs, g) ==> ListedOrShorter(FirstThree(sorted), g)
  {
    forall g | g in FirstThree(sorted) ensures GapOfRun(win, interval, bs, g) {
      assert g in multiset(gs);
      var j :| 0 <= j < |gs| && gs[j] == g;
      var r := ScannedHasRuns(win, interval, bs, gs, j);
    }
    forall g | GapOfRun(win, interval, bs, g) ensures ListedOrShorter(FirstThree(sorted), g) {
      var a: nat, b: nat :| HasRun(win, interval, bs, a, b, g);
      var j := RunIsScanned(win, interval, bs, gs, a, b, g);
      FirstOfFalling(gs, sorted, g);
    }
  }

  /** The top lists are the three longest maximal runs, longest first: every entry is one, every one is an entry or no
      longer than the last of three, and the list has three entries unless there are fewer runs. */
  lemma TopThreeMeasured(win: seq<Sample>, interval: int, bs: seq<bool>, top: seq<Gap>)
    requires |bs| == |win| && TopThree(win, interval, bs, top)
    ensures |top| == (if |RunsOf(bs, |bs|)| < 3 then |RunsOf(bs, |bs|)| else 3)
    ensures forall i, j :: 0 <= i < j < |top| ==> top[i].endNS - top[i].startNS >= top[j].endNS - top[j].startNS
    ensures forall g :: g in top ==> GapOfRun(win, interval, bs, g)
    ensures forall g :: GapOfRun(win, interval, bs, g) ==> ListedOrShorter(top, g)
  {
    var gs: seq<Gap>, sorted: seq<Gap> :|
      Scanned(win, interval, bs, |win|, gs) && multiset(sorted) == multiset(gs) && Falling(sorted) && top == FirstThree(sorted);
    assert |sorted| == |multiset(sorted)| == |multiset(gs)| == |gs|;
    TopFromSorted(win, interval, bs, gs, sorted);
  }

  // ---------------------------------------------------------------- switchoverBlackout

  /** The gap meets the pause window. */
  function Overlaps(pauseNS: int, resumeNS: int): Gap -> bool {
    (g: Gap) => g.startNS <= resumeNS && g.endNS >= pauseNS
  }

  lemma BestOfNext(gs: seq<Gap>, chosen: Gap -> bool, best: int, g: Gap)
    requires BestOf(gs, chosen, best)
    ensures BestOf(gs + [g], chosen, if chosen(g) && g.Len() > best then g.Len() else best)
  {
    var hs := gs + [g];
    if chosen(g) && g.Len() > best {
      assert hs[|gs|] == g;
    } else if best != 0 {
      var j :| 0 <= j < |gs| && chosen(gs[j]) && gs[j].Len() == best;
      assert hs[j] == gs[j];
    }
  }

  method Flush(run: Gap, best: int, pauseNS: int, resumeNS: int, ghost closed: seq<Gap>) returns (best': int)
    requires best >= 0 && BestOf(closed, Overlaps(pauseNS, resumeNS), best)
    ensures best' >= 0 && BestOf(closed + (if run.startNS != 0 then [run] else []), Overlaps(pauseNS, resumeNS), best')
  {
    BestOfNext(closed, Overlaps(pauseNS, resumeNS), best, run);
    assert closed + [] == closed;
    if run.startNS != 0 && run.startNS <= resumeNS && run.endNS >= pauseNS && run.Len() > best {
      best' := run.Len();
    } else {
      best' := best;
    }
  }

  /** The scan of switchoverBlackout; closed is the list of runs flushed so far. */
  ghost predicate BlackoutScan(samples: seq<Sample>, interval: int, pauseNS: int, resumeNS: int,
                               n: nat, closed: seq<Gap>, run: Gap, best: int) {
    LostScan(samples, interval, n, closed, run) && best >= 0 && BestOf(closed, Overlaps(pauseNS, resumeNS), best)
  }

  method TakeProbe(samples: seq<Sample>, interval: int, pauseNS: int, resumeNS: int,
                   i: nat, run: Gap, best: int, ghost closed: seq<Gap>)
    returns (run': Gap, best': int, ghost closed': seq<Gap>)
    requires i < |samples| && Positive(samples) && BlackoutScan(samples, interval, pauseNS, resumeNS, i, closed, run, best)
    ensures BlackoutScan(samples, interval, pauseNS, resumeNS, i + 1, closed', run', best')
  {
    var s := samples[i];
    LostScanNext(samples, interval, i, closed, run);
    best', closed' := best, closed;
    if s.recvNS == 0 {
      if run.startNS == 0 {
        run' := Gap(s.sentNS, s.sentNS + interval);
      } else {
        run' := Gap(run.startNS, s.sentNS + interval);
      }
    } else {
      best' := Flush(run, best, pauseNS, resumeNS, closed);
      closed' := closed + (if run.startNS != 0 then [run] else []);
      assert closed + [] == closed;
      run' := Gap(0, 0);
    }
  }

  /** switchoverBlackout: the longest never-answered run that meets [pause, resume]. */
  method SwitchoverBlackout(samples: seq<Sample>, interval: int, pauseNS: int, resumeNS: int) returns (best: int)
    requires Positive(samples)
    ensures best >= 0 && IsLongest(samples, interval, LostFlags(samples), Overlaps(pauseNS, resumeNS), best)
  {
    ghost var closed: seq<Gap> := [];
    var run, i := Gap(0, 0), 0;
    best := 0;
    BlackoutStarts(samples, interval, pauseNS, resumeNS);
    while i < |samples|
      invariant 0 <= i <= |samples| && BlackoutScan(samples, interval, pauseNS, resumeNS, i, closed, run, best)
    {
      run, best, closed := TakeProbe(samples, interval, pauseNS, resumeNS, i, run, best, closed);
      i := i + 1;
    }
    best := Flush(run, best, pauseNS, resumeNS, closed);
    BlackoutEnds(samples, interval, Overlaps(pauseNS, resumeNS), closed, run, best);
  }

  lemma BlackoutStarts(samples: seq<Sample>, interval: int, pauseNS: int, resumeNS: int)
    ensures BlackoutScan(samples, interval, pauseNS, resumeNS, 0, [], Gap(0, 0), 0)
  {
  }

  lemma BlackoutEnds(samples: seq<Sample>, interval: int, chosen: Gap -> bool, closed: seq<Gap>, run: Gap, best: int)
    requires LostScan(samples, interval, |samples|, closed, run)
    requires BestOf(closed + (if run.startNS != 0 then [run] else []), chosen, best)
    ensures IsLongest(samples, interval, LostFlags(samples), chosen, best)
  {
    BestIsLongest(samples, interval, LostFlags(samples), closed + (if run.startNS != 0 then [run] else []), chosen, best);
  }

  /** The blackout is the longest time covered by unanswered probes that reaches into the pause window, or 0 if none
      does. */
  lemma BlackoutMeasured(samples: seq<Sample>, interval: int, pauseNS: int, resumeNS: int, blackout: int)
    requires InSendOrder(samples) && interval >= 0
    requires IsLongest(samples, interval, LostFlags(samples), Overlaps(pauseNS, resumeNS), blackout)
    ensures forall a: nat, b: nat ::
      SilentStretch(samples, a, b) && samples[a].sentNS <= resumeNS && samples[b - 1].sentNS + interval >= pauseNS ==>
        Span(samples, interval, a, b) <= blackout
    ensures blackout != 0 ==> exists a: nat, b: nat ::
      SilentStretch(samples, a, b) && samples[a].sentNS <= resumeNS && samples[b - 1].sentNS + interval >= pauseNS &&
      Span(samples, interval, a, b) == blackout
  {
    var bs, chosen := LostFlags(samples), Overlaps(pauseNS, resumeNS);
    forall a: nat, b: nat |
      SilentStretch(samples, a, b) && samples[a].sentNS <= resumeNS && samples[b - 1].sentNS + interval >= pauseNS
      ensures Span(samples, interval, a, b) <= blackout
    {
      LongestOverStretches(samples, interval, bs, chosen, blackout, a, b);
    }
    if blackout != 0 {
      var a: nat, b: nat :| Spans(samples, interval, bs, chosen, a, b, blackout);
      assert SilentStretch(samples, a, b) && Span(samples, interval, a, b) == blackout;
    }
  }

  /** The switchover blackout never exceeds the longest never-answered run of all samples. */
  lemma BlackoutBounded(samples: seq<Sample>, interval: int, chosen: Gap -> bool, blackout: int, longest: int)
    requires InSendOrder(samples) && interval >= 0
    requires IsLongest(samples, interval, LostFlags(samples), chosen, blackout)
    requires IsLongest(samples, interval, LostFlags(samples), Any, longest)
    ensures blackout <= longest
  {
    var bs := LostFlags(samples);
    LongestNonNegative(samples, interval, bs, Any, longest);
    if blackout != 0 {
      var a: nat, b: nat :| Spans(samples, interval, bs, chosen, a, b, blackout);
      assert Any(GapOf(samples, interval, Stretch(a, b)));
    }
  }
}
