/** The byte token bucket (internal/flood/bucket.go). Token counts and seconds are reals, so
    floating-point rounding is not modelled; the wall clock is an input. */
module ByteBucket {

  datatype Bucket = Bucket(burst: real, rate: real, tokens: real, last: real)

  predicate Enabled(b: Bucket) {
    b.rate > 0.0 && b.burst > 0.0
  }

  function Min(a: real, b: real): real {
    if a < b then a else b
  }

  /** NewByteBucket: a rate without a burst still lets one byte through at a time. */
  function New(burst: int, rate: real, now: real): (b: Bucket)
    ensures 0.0 <= b.tokens <= b.burst
  {
    var size := if burst < 0 then 0.0 else burst as real;
    if size < 1.0 && rate > 0.0 then Bucket(1.0, rate, 1.0, now) else Bucket(size, rate, size, now)
  }

  /** refillLocked. */
  function Refill(b: Bucket, now: real): Bucket {
    if b.rate <= 0.0 || b.burst <= 0.0 then b.(last := now)
    else if now - b.last > 0.0 then b.(tokens := Min(b.tokens + (now - b.last) * b.rate, b.burst), last := now)
    else b
  }

  function Reconfigure(b: Bucket, burst: int, rate: real, now: real): Bucket {
    var r := Refill(b, now);
    var size := if burst < 0 then 0.0 else burst as real;
    var cap := if size < 1.0 && rate > 0.0 then 1.0 else size;
    Bucket(cap, rate, Min(r.tokens, cap), r.last)
  }

  /** What a line of `n` bytes consumes: an oversized line drains the full bucket. */
  function Price(b: Bucket, n: nat): real {
    Min(n as real, b.burst)
  }

  /** One pass of Take under the lock. */
  predicate Admits(b: Bucket, now: real, n: nat) {
    n == 0 || !Enabled(b) || Refill(b, now).tokens >= Price(b, n)
  }

  function Take(b: Bucket, now: real, n: nat): Bucket {
    if n == 0 || !Enabled(b) then b
    else
      var r := Refill(b, now);
      if r.tokens >= Price(b, n) then r.(tokens := r.tokens - Price(b, n)) else r
  }

  /** The level stays between empty and full through every operation. */
  predicate Level(b: Bucket) {
    0.0 <= b.tokens <= b.burst
  }

  lemma Grows(elapsed: real, rate: real)
    requires elapsed >= 0.0 && rate >= 0.0
    ensures elapsed * rate >= 0.0
  {
  }

  lemma LevelKept(b: Bucket, now: real, n: nat, burst: int, rate: real)
    requires Level(b)
    ensures Level(Refill(b, now)) && Level(Take(b, now, n)) && Level(Reconfigure(b, burst, rate, now))
  {
    if Enabled(b) && now - b.last > 0.0 {
      Grows(now - b.last, b.rate);
    }
  }

  // ---------------------------------------------------------------- any number of callers

  datatype Attempt = Attempt(now: real, size: nat)

  function BucketAt(b: Bucket, run: seq<Attempt>, k: nat): Bucket
    requires k <= |run|
  {
    if k == 0 then b else Take(BucketAt(b, run, k - 1), run[k - 1].now, run[k - 1].size)
  }

  predicate Admitted(b: Bucket, run: seq<Attempt>, k: nat)
    requires k < |run|
  {
    Admits(BucketAt(b, run, k), run[k].now, run[k].size)
  }

  /** The summed price of the lines admitted by attempts i .. j-1. */
  function Spent(b: Bucket, run: seq<Attempt>, i: nat, j: nat): real
    requires i <= j <= |run|
    decreases j
  {
    if i == j then 0.0
    else Spent(b, run, i, j - 1) + (if Admitted(b, run, j - 1) then Price(b, run[j - 1].size) else 0.0)
  }

  ghost predicate Forward(b: Bucket, run: seq<Attempt>) {
    && (forall k :: 0 <= k < |run| ==> b.last <= run[k].now)
    && (forall k, l :: 0 <= k < l < |run| ==> run[k].now <= run[l].now)
  }

  lemma {:induction false} RunKeeps(b: Bucket, run: seq<Attempt>, k: nat)
    requires k <= |run| && Level(b) && Enabled(b) && Forward(b, run)
    ensures var a := BucketAt(b, run, k);
            && Level(a) && a.burst == b.burst && a.rate == b.rate
            && b.last <= a.last && (forall l :: k <= l < |run| ==> a.last <= run[l].now)
  {
    if k > 0 {
      RunKeeps(b, run, k - 1);
      LevelKept(BucketAt(b, run, k - 1), run[k - 1].now, run[k - 1].size, 0, 0.0);
    }
  }

  /** Tokens a rate brings in between two times. */
  function Inflow(rate: real, start: real, end: real): real {
    rate * (end - start)
  }

  lemma InflowAdds(rate: real, a: real, b: real, c: real)
    ensures Inflow(rate, a, b) + Inflow(rate, b, c) == Inflow(rate, a, c)
  {
  }

  lemma InflowGrows(rate: real, a: real, b: real)
    requires a <= b && rate >= 0.0
    ensures Inflow(rate, a, b) >= 0.0
  {
    Grows(b - a, rate);
  }

  function PaidAt(b: Bucket, run: seq<Attempt>, k: nat): real
    requires k < |run|
  {
    if Admitted(b, run, k) then Price(b, run[k].size) else 0.0
  }

  /** One attempt: what is left plus what was spent is at most what was there plus the refill. */
  lemma TakeSpends(b: Bucket, now: real, n: nat)
    requires Level(b) && Enabled(b) && b.last <= now
    ensures var a := Take(b, now, n);
            a.tokens + (if Admits(b, now, n) then Price(b, n) else 0.0) <= b.tokens + Inflow(b.rate, b.last, a.last)
    ensures Take(b, now, n).last <= now
  {
    InflowGrows(b.rate, b.last, now);
  }

  lemma StepSpends(b: Bucket, run: seq<Attempt>, k: nat)
    requires k < |run| && Level(b) && Enabled(b) && Forward(b, run)
    ensures BucketAt(b, run, k + 1).tokens + PaidAt(b, run, k)
            <= BucketAt(b, run, k).tokens + Inflow(b.rate, BucketAt(b, run, k).last, BucketAt(b, run, k + 1).last)
    ensures BucketAt(b, run, k + 1).last <= run[k].now
  {
    RunKeeps(b, run, k);
    TakeSpends(BucketAt(b, run, k), run[k].now, run[k].size);
  }

  lemma {:induction false} SpentSince(b: Bucket, run: seq<Attempt>, i: nat, j: nat)
    requires i <= j <= |run| && Level(b) && Enabled(b) && Forward(b, run)
    ensures BucketAt(b, run, j).tokens + Spent(b, run, i, j)
            <= BucketAt(b, run, i).tokens + Inflow(b.rate, BucketAt(b, run, i).last, BucketAt(b, run, j).last)
    decreases j
  {
    if i < j {
      SpentSince(b, run, i, j - 1);
      StepSpends(b, run, j - 1);
      SpentLast(b, run, i, j);
      Chain(BucketAt(b, run, i), BucketAt(b, run, j - 1), BucketAt(b, run, j), b.rate,
            Spent(b, run, i, j - 1), PaidAt(b, run, j - 1));
    } else {
      InflowGrows(b.rate, BucketAt(b, run, i).last, BucketAt(b, run, i).last);
    }
  }

  lemma SpentLast(b: Bucket, run: seq<Attempt>, i: nat, j: nat)
    requires i < j <= |run|
    ensures Spent(b, run, i, j) == Spent(b, run, i, j - 1) + PaidAt(b, run, j - 1)
  {
  }

  lemma Chain(x: Bucket, y: Bucket, z: Bucket, rate: real, s: real, p: real)
    requires y.tokens + s <= x.tokens + Inflow(rate, x.last, y.last)
    requires z.tokens + p <= y.tokens + Inflow(rate, y.last, z.last)
    ensures z.tokens + (s + p) <= x.tokens + Inflow(rate, x.last, z.last)
  {
    InflowAdds(rate, x.last, y.last, z.last);
  }

  /** The first attempt of a window starts from at most a full bucket, filled at its own time. */
  lemma FirstSpends(b: Bucket, run: seq<Attempt>, i: nat)
    requires i < |run| && Level(b) && Enabled(b) && Forward(b, run) && run[i].size > 0
    ensures BucketAt(b, run, i + 1).last == run[i].now
    ensures BucketAt(b, run, i + 1).tokens + PaidAt(b, run, i) <= b.burst
  {
    RunKeeps(b, run, i);
    LevelKept(BucketAt(b, run, i), run[i].now, run[i].size, 0, 0.0);
  }

  /** The accounts of a window: the bucket after its first attempt and after its last. */
  lemma Accounts(b: Bucket, run: seq<Attempt>, i: nat, j: nat)
      returns (first: Bucket, last: Bucket, paid: real, spent: real)
    requires i <= j < |run| && Level(b) && Enabled(b) && Forward(b, run) && run[i].size > 0
    ensures Spent(b, run, i, j + 1) == paid + spent
    ensures first.last == run[i].now && first.tokens + paid <= b.burst
    ensures 0.0 <= last.tokens && last.last <= run[j].now
    ensures last.tokens + spent <= first.tokens + Inflow(b.rate, first.last, last.last)
  {
    first, last := BucketAt(b, run, i + 1), BucketAt(b, run, j + 1);
    paid, spent := PaidAt(b, run, i), Spent(b, run, i + 1, j + 1);
    FirstSpends(b, run, i);
    SpentSince(b, run, i + 1, j + 1);
    WindowSpent(b, run, i, j);
    LastLevel(b, run, j);
  }

  lemma WindowSpent(b: Bucket, run: seq<Attempt>, i: nat, j: nat)
    requires i <= j < |run|
    ensures Spent(b, run, i, j + 1) == PaidAt(b, run, i) + Spent(b, run, i + 1, j + 1)
  {
    SpentSplits(b, run, i, i + 1, j + 1);
    SpentLast(b, run, i, i + 1);
  }

  lemma LastLevel(b: Bucket, run: seq<Attempt>, j: nat)
    requires j < |run| && Level(b) && Enabled(b) && Forward(b, run)
    ensures 0.0 <= BucketAt(b, run, j + 1).tokens && BucketAt(b, run, j + 1).last <= run[j].now
  {
    StepSpends(b, run, j);
    RunKeeps(b, run, j + 1);
  }

  /** The window bound: over any stretch of attempts the bucket lets through at most one burst
      plus the refill of the time elapsed. */
  lemma WindowBound(b: Bucket, run: seq<Attempt>, i: nat, j: nat)
    requires i <= j < |run| && Level(b) && Enabled(b) && Forward(b, run) && run[i].size > 0
    ensures Spent(b, run, i, j + 1) <= b.burst + Inflow(b.rate, run[i].now, run[j].now)
  {
    var first, last, paid, spent := Accounts(b, run, i, j);
    Total(first, last, b, paid, spent, run[j].now);
  }

  lemma Total(first: Bucket, last: Bucket, b: Bucket, paid: real, spent: real, end: real)
    requires first.tokens + paid <= b.burst && 0.0 <= last.tokens && b.rate >= 0.0 && last.last <= end
    requires last.tokens + spent <= first.tokens + Inflow(b.rate, first.last, last.last)
    ensures paid + spent <= b.burst + Inflow(b.rate, first.last, end)
  {
    InflowGrows(b.rate, last.last, end);
    InflowAdds(b.rate, first.last, last.last, end);
  }

  lemma {:induction false} SpentSplits(b: Bucket, run: seq<Attempt>, i: nat, m: nat, j: nat)
    requires i <= m <= j <= |run|
    ensures Spent(b, run, i, j) == Spent(b, run, i, m) + Spent(b, run, m, j)
    decreases j
  {
    if m < j {
      SpentSplits(b, run, i, m, j - 1);
    }
  }

  // ---------------------------------------------------------------- in bytes

  /** The tokens there would be at `now` if nothing were spilt. */
  function Due(b: Bucket, now: real): real {
    b.tokens + Inflow(b.rate, b.last, now)
  }

  /** A line is admitted exactly when there are as many tokens as it has bytes, or the bucket is full; it
      then takes one token for each byte, or all there are. */
  lemma AdmitExact(b: Bucket, now: real, n: nat)
    requires Level(b) && Enabled(b) && b.last <= now
    ensures Admits(b, now, n) <==> n == 0 || Due(b, now) >= n as real || Due(b, now) >= b.burst
    ensures Admits(b, now, n) && n > 0 ==>
            var full := Due(b, now) >= b.burst;
            Take(b, now, n).tokens == if n as real > b.burst then 0.0
                                      else (if full then b.burst else Due(b, now)) - n as real
    ensures !Admits(b, now, n) ==> Take(b, now, n).tokens == Due(b, now)
    ensures n > 0 ==> Take(b, now, n).last == now
  {
    InflowGrows(b.rate, b.last, now);
    InflowIs(b.rate, b.last, now);
  }

  lemma InflowIs(rate: real, a: real, b: real)
    ensures (b - a) * rate == Inflow(rate, a, b) && (a == b ==> Inflow(rate, a, b) == 0.0)
  {
  }

  /** The smallest of three. */
  predicate Least(x: real, a: real, b: real, c: real) {
    x <= a && x <= b && x <= c && (x == a || x == b || x == c)
  }

  /** A new size and rate take effect from now on: what was due comes in at the old rate, and no more stays
      than the old and the new bucket hold. A rate without a burst lets one byte through at a time. */
  lemma ConfigureExact(b: Bucket, burst: int, rate: real, now: real)
    requires Level(b) && Enabled(b) && b.last <= now
    ensures var r := Reconfigure(b, burst, rate, now);
            && r.rate == rate && r.last == now
            && r.burst == (if burst >= 1 then burst as real else if rate > 0.0 then 1.0 else 0.0)
            && Least(r.tokens, Due(b, now), b.burst, r.burst)
  {
    InflowGrows(b.rate, b.last, now);
    InflowIs(b.rate, b.last, now);
  }

  /** The bytes of the lines let through by attempts i .. j-1. */
  function Bytes(b: Bucket, run: seq<Attempt>, i: nat, j: nat): nat
    requires i <= j <= |run|
    decreases j
  {
    if i == j then 0 else Bytes(b, run, i, j - 1) + if Admitted(b, run, j - 1) then run[j - 1].size else 0
  }

  lemma {:induction false} BytesSpent(b: Bucket, run: seq<Attempt>, i: nat, j: nat)
    requires i <= j <= |run| && Level(b) && Enabled(b) && Forward(b, run)
    requires forall k :: i <= k < j ==> run[k].size as real <= b.burst
    ensures Spent(b, run, i, j) == Bytes(b, run, i, j) as real
    decreases j
  {
    if i < j {
      BytesSpent(b, run, i, j - 1);
      RunKeeps(b, run, j - 1);
    }
  }

  /** In bytes, for lines of no more than a burst: a burst, and the rate times the time elapsed. */
  lemma BytesBound(b: Bucket, run: seq<Attempt>, i: nat, j: nat)
    requires i <= j < |run| && Level(b) && Enabled(b) && Forward(b, run) && run[i].size > 0
    requires forall k :: i <= k <= j ==> run[k].size as real <= b.burst
    ensures Bytes(b, run, i, j + 1) as real <= b.burst + Inflow(b.rate, run[i].now, run[j].now)
  {
    BytesSpent(b, run, i, j + 1);
    WindowBound(b, run, i, j);
  }

  // ---------------------------------------------------------------- waiting

  const MILLISECOND: real := 0.001
  const NANOSECOND: real := 0.000000001

  /** A duration in whole nanoseconds, rounded down. */
  function Truncate(wait: real): real {
    (wait * 1000000000.0).Floor as real * NANOSECOND
  }

  /** How long Take sleeps for `missing` tokens: the time they take, in whole nanoseconds and no less
      than a millisecond. */
  function WaitFor(missing: real, rate: real): real
    requires rate > 0.0
  {
    var wait := Truncate(missing / rate);
    if wait < MILLISECOND then MILLISECOND else wait
  }

  /** How many tokens an attempt lacks. */
  function Missing(b: Bucket, n: nat): real {
    Price(b, n) - b.tokens
  }

  lemma TruncateClose(wait: real)
    ensures wait - NANOSECOND < Truncate(wait) <= wait
  {
    var x := wait * 1000000000.0;
    assert x.Floor as real <= x < x.Floor as real + 1.0;
  }

  /** The tokens a wait brings in. */
  function Gain(rate: real, wait: real): real {
    rate * wait
  }

  lemma GainSplits(rate: real, a: real, b: real)
    ensures Gain(rate, a - b) == Gain(rate, a) - Gain(rate, b)
  {
  }

  lemma GainRises(rate: real, a: real, b: real)
    requires a <= b && rate > 0.0
    ensures Gain(rate, a) <= Gain(rate, b)
  {
    Grows(b - a, rate);
    GainSplits(rate, b, a);
  }

  lemma GainExact(rate: real, missing: real)
    requires rate > 0.0
    ensures Gain(rate, missing / rate) == missing
  {
  }

  /** The sleep brings in all but less than a nanosecond's tokens, and all of them when they take no
      more than a nanosecond. */
  lemma WaitBrings(missing: real, rate: real)
    requires missing > 0.0 && rate > 0.0
    ensures var w := WaitFor(missing, rate);
            && w >= MILLISECOND && missing - Gain(rate, w) <= Gain(rate, NANOSECOND)
            && (missing <= Gain(rate, NANOSECOND) ==> Gain(rate, w) >= missing)
  {
    var exact, w := missing / rate, WaitFor(missing, rate);
    TruncateClose(exact);
    GainExact(rate, missing);
    GainSplits(rate, exact, NANOSECOND);
    GainRises(rate, exact - NANOSECOND, w);
    GainRises(rate, NANOSECOND, w);
  }

  /** A bucket seen after a wait. */
  lemma Refilled(a: Bucket, n: nat, wait: real)
    requires Level(a) && Enabled(a) && wait > 0.0
    ensures var r := Refill(a, a.last + wait);
            && r.burst == a.burst && r.rate == a.rate && r.last == a.last + wait
            && (r.tokens >= Price(a, n) || Missing(r, n) == Missing(a, n) - Gain(a.rate, wait))
  {
    assert (a.last + wait - a.last) * a.rate == Gain(a.rate, wait);
  }

  /** Just refused: refilled, and short of tokens. */
  predicate Short(a: Bucket, n: nat) {
    n > 0 && Level(a) && Enabled(a) && Missing(a, n) > 0.0
  }

  /** An attempt that is refused only refills. */
  lemma TakenShort(b: Bucket, now: real, n: nat)
    requires Level(b) && Enabled(b) && b.last <= now && !Admits(b, now, n)
    ensures var a := Take(b, now, n); a == Refill(b, now) && a.last == now && a.rate == b.rate && Short(a, n)
  {
    LevelKept(b, now, n, 0, 0.0);
  }

  /** One sleep: then the line is admitted, surely so if it lacked next to nothing, or lacks that. */
  lemma OneWait(a: Bucket, n: nat)
    requires Short(a, n)
    ensures var later := a.last + WaitFor(Missing(a, n), a.rate);
            && a.last < later
            && (Missing(a, n) <= Gain(a.rate, NANOSECOND) ==> Admits(a, later, n))
            && (!Admits(a, later, n) ==> Missing(Take(a, later, n), n) <= Gain(a.rate, NANOSECOND))
  {
    var w := WaitFor(Missing(a, n), a.rate);
    WaitBrings(Missing(a, n), a.rate);
    Refilled(a, n, w);
    if !Admits(a, a.last + w, n) {
      TakenShort(a, a.last + w, n);
    }
  }

  /** A sole caller that sleeps as asked is admitted after its second sleep at the latest: whole
      nanoseconds may leave it short of less than a nanosecond's tokens the first time. */
  lemma TwoWaitsSuffice(a: Bucket, n: nat)
    requires Short(a, n)
    ensures var later := a.last + WaitFor(Missing(a, n), a.rate);
            var c := Take(a, later, n);
            Admits(a, later, n) || (Short(c, n) && Admits(c, later + WaitFor(Missing(c, n), c.rate), n))
  {
    OneWait(a, n);
    var later := a.last + WaitFor(Missing(a, n), a.rate);
    if !Admits(a, later, n) {
      TakenShort(a, later, n);
      OneWait(Take(a, later, n), n);
    }
  }

  // ---------------------------------------------------------------- the object

  class TokenBucket {
    var burst: real
    var rate: real
    var tokens: real
    var last: real

    function Value(): Bucket
      reads this
    {
      Bucket(burst, rate, tokens, last)
    }

    ghost predicate Valid()
      reads this
    {
      Level(Value())
    }

    constructor (size: int, perSecond: real, now: real)
      ensures Valid() && Value() == New(size, perSecond, now)
    {
      var b := New(size, perSecond, now);
      burst, rate, tokens, last := b.burst, b.rate, b.tokens, b.last;
    }

    method RefillLocked(now: real)
      requires Valid()
      modifies this
      ensures Valid() && Value() == Refill(old(Value()), now)
    {
      LevelKept(Value(), now, 0, 0, 0.0);
      if rate <= 0.0 || burst <= 0.0 {
        last := now;
        return;
      }
      var elapsed := now - last;
      if elapsed > 0.0 {
        tokens := tokens + elapsed * rate;
        if tokens > burst {
          tokens := burst;
        }
        last := now;
      }
    }

    method Configure(size: int, perSecond: real, now: real)
      requires Valid()
      modifies this
      ensures Valid() && Value() == Reconfigure(old(Value()), size, perSecond, now)
    {
      LevelKept(Value(), now, 0, size, perSecond);
      RefillLocked(now);
      burst := if size < 0 then 0.0 else size as real;
      rate := perSecond;
      if burst < 1.0 && rate > 0.0 {
        burst := 1.0;
      }
      if tokens > burst {
        tokens := burst;
      }
    }

    /** One pass of Take under the lock: admitted, or how long to wait at the current rate. */
    method TryTake(n: nat, now: real) returns (admitted: bool, wait: real)
      requires Valid()
      modifies this
      ensures Valid() && admitted == Admits(old(Value()), now, n)
      ensures Value() == Take(old(Value()), now, n)
      ensures !admitted ==> rate > 0.0 && wait == WaitFor(Missing(Value(), n), rate)
    {
      wait := 0.0;
      LevelKept(Value(), now, n, 0, 0.0);
      if n == 0 || !(rate > 0.0 && burst > 0.0) {
        return true, wait;
      }
      var need := n as real;
      RefillLocked(now);
      if need <= burst {
        if tokens >= need {
          tokens := tokens - need;
          return true, wait;
        }
        wait := Truncate((need - tokens) / rate);
        if wait < MILLISECOND {
          wait := MILLISECOND;
        }
        return false, wait;
      }
      if tokens >= burst {
        tokens := 0.0;
        return true, wait;
      }
      wait := Truncate((burst - tokens) / rate);
      if wait < MILLISECOND {
        wait := MILLISECOND;
      }
      return false, wait;
    }
  }
}
