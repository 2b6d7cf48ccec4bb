/** The paced writer: int64 arithmetic of the bandwidth limit. */
module Pacer {
  import opened Arith

  /** The largest number of bytes whose product with one second fits in an int64. */
  const LIMIT: int := 9_223_372_036

  /** Two's-complement reading of n modulo 2^64. */
  function Wrap(n: int): (r: int)
    ensures 0 - I64 <= r < I64 && (n - r) % U64 == 0
  {
    var m := n % U64;
    if m < I64 then m else m - U64
  }

  /** Go's integer division, truncating toward zero. */
  function Quo(a: int, b: int): int
    requires b > 0
  {
    if a >= 0 then a / b else -((-a) / b)
  }

  /** What the code computes as the time at which written bytes are due. */
  function Computed(written: int, bytesPerSec: int): int
    requires 0 < bytesPerSec < I64
  {
    Quo(Wrap(written * SECOND), bytesPerSec)
  }

  /** The time at which written bytes are really due, rounded down to a nanosecond. */
  function Due(written: nat, bytesPerSec: int): nat
    requires 0 < bytesPerSec
  {
    Nonneg(written * SECOND, bytesPerSec);
    (written * SECOND) / bytesPerSec
  }

  lemma Nonneg(a: nat, b: int)
    requires b > 0
    ensures a / b >= 0
  {
  }

  /** When Write returns if its clock reading is since: it sleeps exactly as long as it is ahead. */
  function ReturnsAt(written: int, bytesPerSec: int, since: nat): (t: nat)
    requires 0 < bytesPerSec < I64
    ensures t >= since
  {
    var ahead := Computed(written, bytesPerSec) - since;
    if ahead > 0 then since + ahead else since
  }

  ghost predicate KeepsPace(written: nat, bytesPerSec: int)
    requires 0 < bytesPerSec < I64
  {
    forall since: nat {:trigger ReturnsAt(written, bytesPerSec, since)} ::
      Due(written, bytesPerSec) <= ReturnsAt(written, bytesPerSec, since)
  }

  lemma NoOverflow(written: nat, bytesPerSec: int)
    requires 0 < bytesPerSec < I64 && written <= LIMIT
    ensures Wrap(written * SECOND) == written * SECOND
    ensures Computed(written, bytesPerSec) == Due(written, bytesPerSec)
  {
    assert 0 <= written * SECOND < I64;
  }

  lemma QuoGap(t: int, w: int, b: int)
    requires 0 < b && t >= b && w <= t - b
    ensures Quo(w, b) < t / b && t / b > 0
  {
    DivStep(t, b);
    if w >= 0 {
      DivMono(w, t - b, b);
    } else {
      Nonneg(-w, b);
    }
  }

  lemma DivStep(t: int, b: int)
    requires 0 < b <= t
    ensures t / b == (t - b) / b + 1 && (t - b) / b >= 0
  {
    var q, r := t / b, t % b;
    assert t == b * q + r;
    assert b * (q - 1) == b * q - b;
    DivUnique(t - b, b, q - 1, r);
    Nonneg(t - b, b);
  }

  lemma {:induction false} DivMono(x: int, y: int, b: int)
    requires 0 < b && 0 <= x <= y
    ensures x / b <= y / b
  {
    if x / b > y / b {
      assert x == b * (x / b) + x % b && y == b * (y / b) + y % b;
      MulMono(y / b + 1, x / b, b);
    }
  }

  lemma Overflows(written: nat, bytesPerSec: int)
    requires 0 < bytesPerSec < I64 && LIMIT < written < I64
    ensures Computed(written, bytesPerSec) < Due(written, bytesPerSec) && Due(written, bytesPerSec) > 0
  {
    var t := written * SECOND;
    assert t >= I64;
    var w := Wrap(t);
    assert t - w >= U64 by {
      assert (t - w) % U64 == 0 && t - w > 0;
    }
    QuoGap(t, w, bytesPerSec);
  }

  /** The pace is kept, whatever the clock reads, exactly as long as the product does not overflow. */
  lemma PaceIffNoOverflow(written: nat, bytesPerSec: int)
    requires 0 < bytesPerSec < I64 && written < I64
    ensures KeepsPace(written, bytesPerSec) <==> written <= LIMIT
  {
    if written <= LIMIT {
      NoOverflow(written, bytesPerSec);
    } else {
      Overflows(written, bytesPerSec);
      assert ReturnsAt(written, bytesPerSec, 0) < Due(written, bytesPerSec);
    }
  }

  /** One byte more than fits: the writer stops pacing altogether. */
  lemma FirstOverflow(bytesPerSec: int, since: nat)
    requires 0 < bytesPerSec < I64
    ensures ReturnsAt(LIMIT + 1, bytesPerSec, since) == since
  {
    assert Wrap((LIMIT + 1) * SECOND) < 0;
    Nonneg(-Wrap((LIMIT + 1) * SECOND), bytesPerSec);
  }

  /** One call: bytes the underlying writer took, time that passed until the clock was read, and how much longer than
      asked the sleep took. */
  datatype Call = Call(n: nat, passed: nat, late: nat)

  function Taken(calls: seq<Call>): nat {
    if calls == [] then 0 else Taken(calls[..|calls| - 1]) + calls[|calls| - 1].n
  }

  class PacedWriter {
    const bytesPerSec: int
    var written: int   // int64
    var now: nat       // time since start

    constructor (bytesPerSec: int)
      requires 0 < bytesPerSec < I64
      ensures this.bytesPerSec == bytesPerSec && written == 0 && now == 0
    {
      this.bytesPerSec := bytesPerSec;
      written, now := 0, 0;
    }

    method Write(call: Call)
      requires 0 < bytesPerSec < I64
      modifies this
      ensures written == Wrap(old(written) + call.n)
      ensures var since := old(now) + call.passed;
        now == if Computed(written, bytesPerSec) > since then Computed(written, bytesPerSec) + call.late else since
    {
      now := now + call.passed;
      written := Wrap(written + call.n);
      var ahead := Quo(Wrap(written * SECOND), bytesPerSec) - now;
      if ahead > 0 {
        now := now + ahead + call.late;
      }
    }
  }

  /** One write within the limit. */
  method PaceOne(w: PacedWriter, call: Call)
    requires 0 < w.bytesPerSec < I64 && 0 <= w.written && w.written + call.n <= LIMIT
    modifies w
    ensures w.written == old(w.written) + call.n
    ensures var since, due := old(w.now) + call.passed, Due(w.written, w.bytesPerSec);
      w.now == if due > since then due + call.late else since
  {
    w.Write(call);
    NoOverflow(w.written, w.bytesPerSec);
  }

  /** Any sequence of writes within the limit: after each one, the bytes written so far were due. */
  method PaceAll(bytesPerSec: int, calls: seq<Call>) returns (times: seq<nat>)
    requires 0 < bytesPerSec < I64 && Taken(calls) <= LIMIT
    ensures |times| == |calls|
    ensures forall i :: 0 <= i < |calls| ==> Due(Taken(calls[..i + 1]), bytesPerSec) <= times[i]
  {
    var w := new PacedWriter(bytesPerSec);
    times := [];
    var i := 0;
    while i < |calls|
      invariant 0 <= i <= |calls| && |times| == i && w.bytesPerSec == bytesPerSec
      invariant w.written == Taken(calls[..i]) <= LIMIT
      invariant forall k :: 0 <= k < i ==> Due(Taken(calls[..k + 1]), bytesPerSec) <= times[k]
    {
      TakenGrows(calls, i + 1);
      assert calls[..i + 1][..i] == calls[..i];
      PaceOne(w, calls[i]);
      times := times + [w.now];
      i := i + 1;
    }
  }

  lemma {:induction false} TakenGrows(calls: seq<Call>, i: nat)
    requires i <= |calls|
    ensures Taken(calls[..i]) <= Taken(calls)
    decreases |calls| - i
  {
    if i == |calls| {
      assert calls[..i] == calls;
    } else {
      assert calls[..i + 1][..i] == calls[..i];
      TakenGrows(calls, i + 1);
    }
  }
}
