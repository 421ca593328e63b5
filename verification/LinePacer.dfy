/** Per-line pacing of uplink writes (internal/flood/line.go). Durations are nanoseconds; the
    wall clock is an input, and one pass through Take's loop under the lock is one attempt. */
module LinePacer {

  const SECOND: int := 1_000_000_000

  datatype Config = Config(base: int, perBytes: int, allowance: int)

  /** ircu's cost model (NewLinePacer). */
  const IRCU := Config(2 * SECOND, 120, 8 * SECOND)

  datatype Verdict = Admit | Wait(duration: int)

  function Max(a: int, b: int): int {
    if a < b then b else a
  }

  function Cost(c: Config, n: nat): int {
    if c.perBytes <= 0 then c.base else c.base + n / c.perBytes * SECOND
  }

  /** The charged clock as an attempt at `now` sees it: never behind real time. */
  function Caught(clock: int, now: int): int {
    if clock < now then now else clock
  }

  function Decide(c: Config, clock: int, now: int, n: nat): Verdict {
    var ahead := Caught(clock, now) - now;
    if ahead + Cost(c, n) <= c.allowance || ahead == 0 then Admit
    else if ahead + Cost(c, n) - c.allowance > ahead then Wait(ahead)
    else Wait(ahead + Cost(c, n) - c.allowance)
  }

  function Charge(c: Config, clock: int, now: int, n: nat): int {
    if Decide(c, clock, now, n).Admit? then Caught(clock, now) + Cost(c, n) else Caught(clock, now)
  }

  // ---------------------------------------------------------------- one caller

  /** The wait is exact: an attempt told to wait `d` is admitted at a later time iff at least
      `d` has passed. So a sole caller sleeps at most once per Take, and never too long. */
  lemma WaitIsExact(c: Config, clock: int, now: int, n: nat, later: int)
    requires Decide(c, clock, now, n).Wait? && now <= later
    ensures Decide(c, clock, now, n).duration > 0
    ensures Decide(c, Charge(c, clock, now, n), later, n).Admit? <==> later >= now + Decide(c, clock, now, n).duration
  {
  }

  // ---------------------------------------------------------------- any number of callers

  /** An attempt to send a line of `size` bytes at time `now`. */
  datatype Attempt = Attempt(now: int, size: nat)

  /** The charged clock after the first `k` attempts of a run. */
  function ClockAt(c: Config, clock: int, run: seq<Attempt>, k: nat): int
    requires k <= |run|
  {
    if k == 0 then clock
    else Charge(c, ClockAt(c, clock, run, k - 1), run[k - 1].now, run[k - 1].size)
  }

  predicate Admitted(c: Config, clock: int, run: seq<Attempt>, k: nat)
    requires k < |run|
  {
    Decide(c, ClockAt(c, clock, run, k), run[k].now, run[k].size).Admit?
  }

  /** The summed cost of the lines admitted by attempts i .. j-1. */
  function Charged(c: Config, clock: int, run: seq<Attempt>, i: nat, j: nat): int
    requires i <= j <= |run|
    decreases j
  {
    if i == j then 0
    else Charged(c, clock, run, i, j - 1) + (if Admitted(c, clock, run, j - 1) then Cost(c, run[j - 1].size) else 0)
  }

  lemma {:induction false} ClockCovers(c: Config, clock: int, run: seq<Attempt>, i: nat, j: nat)
    requires i < j <= |run| && Admitted(c, clock, run, i)
    ensures ClockAt(c, clock, run, j) >= run[i].now + Charged(c, clock, run, i, j)
    decreases j
  {
    if i < j - 1 {
      ClockCovers(c, clock, run, i, j - 1);
    } else {
      assert Charged(c, clock, run, i, i) == 0;
    }
  }

  /** The window bound, whatever the interleaving of callers: between two admissions the lines
      sent cost at most the time elapsed plus the allowance (or the last line alone, when that
      line costs more than the allowance). */
  lemma WindowBound(c: Config, clock: int, run: seq<Attempt>, i: nat, j: nat)
    requires i <= j < |run| && Admitted(c, clock, run, i) && Admitted(c, clock, run, j)
    ensures Charged(c, clock, run, i, j + 1) <= run[j].now - run[i].now + Max(c.allowance, Cost(c, run[j].size))
  {
    ClockCovers(c, clock, run, i, j + 1);
  }

  /** On ircu's model the server's own clock, 10 seconds ahead at most, is never outrun by lines
      of up to 512 bytes: any burst between two admissions costs at most 8 seconds more than
      the time it took. */
  lemma IrcuNeverFlooded(clock: int, run: seq<Attempt>, i: nat, j: nat)
    requires i <= j < |run| && Admitted(IRCU, clock, run, i) && Admitted(IRCU, clock, run, j)
    requires run[j].size <= 512
    ensures Charged(IRCU, clock, run, i, j + 1) <= run[j].now - run[i].now + 8 * SECOND
  {
    WindowBound(IRCU, clock, run, i, j);
    assert run[j].size / 120 <= 4;
    assert Cost(IRCU, run[j].size) <= 6 * SECOND;
  }

  // ---------------------------------------------------------------- in lines and bytes

  /** Two seconds a line, and one for each full 120 bytes. */
  lemma IrcuCost(n: nat, full: nat)
    requires 120 * full <= n < 120 * full + 120
    ensures Cost(IRCU, n) == 2_000_000_000 + 1_000_000_000 * full
  {
    assert n / 120 == full;
  }

  /** A line is admitted exactly when the clock is not ahead of real time, or the line keeps it within
      the allowance; the clock then moves on by its cost, from real time at the earliest. */
  lemma AdmitExact(c: Config, clock: int, now: int, n: nat)
    requires c.base > 0
    ensures var d := Decide(c, clock, now, n);
            d.Admit? <==> clock <= now || clock - now + Cost(c, n) <= c.allowance
    ensures Decide(c, clock, now, n).Admit? ==>
            Charge(c, clock, now, n) == (if clock <= now then now else clock) + Cost(c, n)
    ensures Decide(c, clock, now, n).Wait? ==> Charge(c, clock, now, n) == clock
  {
  }

  /** How many lines, and bytes, attempts i .. j-1 let through. */
  function Lines(c: Config, clock: int, run: seq<Attempt>, i: nat, j: nat): nat
    requires i <= j <= |run|
    decreases j
  {
    if i == j then 0 else Lines(c, clock, run, i, j - 1) + if Admitted(c, clock, run, j - 1) then 1 else 0
  }

  function Bytes(c: Config, clock: int, run: seq<Attempt>, i: nat, j: nat): nat
    requires i <= j <= |run|
    decreases j
  {
    if i == j then 0 else Bytes(c, clock, run, i, j - 1) + if Admitted(c, clock, run, j - 1) then run[j - 1].size else 0
  }

  lemma {:induction false} ChargedCounts(clock: int, run: seq<Attempt>, i: nat, j: nat)
    requires i <= j <= |run|
    ensures var lines, cost := Lines(IRCU, clock, run, i, j), Charged(IRCU, clock, run, i, j);
            && 2_000_000_000 * lines <= cost
            && 1_000_000_000 * Bytes(IRCU, clock, run, i, j) <= 120 * (cost - 1_000_000_000 * lines)
    decreases j
  {
    if i < j {
      ChargedCounts(clock, run, i, j - 1);
      IrcuCost(run[j - 1].size, run[j - 1].size / 120);
    }
  }

  /** In lines and bytes: of whatever is written between two admissions on ircu's model there is a line for
      every two seconds, and 120 bytes for every second, of the time elapsed and 8 seconds more. */
  lemma IrcuRate(clock: int, run: seq<Attempt>, i: nat, j: nat)
    requires i <= j < |run| && Admitted(IRCU, clock, run, i) && Admitted(IRCU, clock, run, j)
    requires run[j].size <= 512
    ensures 2_000_000_000 * Lines(IRCU, clock, run, i, j + 1) <= run[j].now - run[i].now + 8_000_000_000
    ensures 1_000_000_000 * Bytes(IRCU, clock, run, i, j + 1) <= 120 * (run[j].now - run[i].now + 8_000_000_000)
  {
    IrcuNeverFlooded(clock, run, i, j);
    ChargedCounts(clock, run, i, j + 1);
  }

  /** And it is that much: four short lines go out at once, and the fifth waits two seconds. */
  lemma IrcuBurst(clock: int, now: int, run: seq<Attempt>)
    requires clock <= now && |run| == 5 && forall k :: 0 <= k < 5 ==> run[k].now == now && run[k].size < 120
    ensures forall k :: 0 <= k < 4 ==> Admitted(IRCU, clock, run, k)
    ensures Decide(IRCU, ClockAt(IRCU, clock, run, 4), now, run[4].size) == Wait(2_000_000_000)
  {
    forall n: nat | n < 120 ensures Cost(IRCU, n) == 2_000_000_000 {
      IrcuCost(n, 0);
    }
    assert ClockAt(IRCU, clock, run, 1) == now + 2 * SECOND;
    assert ClockAt(IRCU, clock, run, 2) == now + 4 * SECOND;
    assert ClockAt(IRCU, clock, run, 3) == now + 6 * SECOND;
    assert ClockAt(IRCU, clock, run, 4) == now + 8 * SECOND;
  }

  // ---------------------------------------------------------------- the object

  class Pacer {
    const config: Config
    var on: bool
    var clock: int  // 0 stands for the zero time, before any reading of the wall clock

    constructor ()
      ensures config == IRCU && !on && clock == 0
    {
      config, on, clock := IRCU, false, 0;
    }

    method Configure(enable: bool)
      modifies this
      ensures on == enable && clock == if enable then old(clock) else 0
    {
      on := enable;
      if !enable {
        clock := 0;
      }
    }

    /** One pass of Take's loop under the lock. */
    method TryTake(now: int, n: nat) returns (verdict: Verdict)
      modifies this
      ensures on == old(on)
      ensures on ==> verdict == Decide(config, old(clock), now, n) && clock == Charge(config, old(clock), now, n)
      ensures !on ==> verdict.Admit? && clock == old(clock)
    {
      if !on {
        return Admit;
      }
      if clock < now {
        clock := now;
      }
      var cost := Cost(config, n);
      var ahead := clock - now;
      if ahead + cost <= config.allowance || ahead == 0 {
        clock := clock + cost;
        return Admit;
      }
      var wait := ahead + cost - config.allowance;
      if wait > ahead {
        wait := ahead;
      }
      return Wait(wait);
    }

    /** Take for a sole caller: `readings` are the wall clock before each pass, and every sleep
        lasts at least as long as was asked. Two passes always suffice. */
    method Take(n: nat, readings: seq<int>) returns (sleeps: nat)
      requires |readings| == 2 && readings[0] <= readings[1]
      requires on && Decide(config, clock, readings[0], n).Wait? ==>
                 readings[1] >= readings[0] + Decide(config, clock, readings[0], n).duration
      modifies this
      ensures sleeps <= 1 && on == old(on)
      ensures on ==> clock == Caught(old(clock), readings[sleeps]) + Cost(config, n)
      ensures !on ==> sleeps == 0 && clock == old(clock)
    {
      sleeps := 0;
      ghost var clock0 := clock;
      var verdict := TryTake(readings[0], n);
      while verdict.Wait?
        invariant sleeps <= 1 && on == old(on) && (!on ==> verdict.Admit? && sleeps == 0 && clock == clock0)
        invariant on && sleeps == 0 ==> verdict == Decide(config, clock0, readings[0], n)
                                        && clock == Charge(config, clock0, readings[0], n)
        invariant sleeps == 1 ==> verdict.Admit? && clock == Caught(clock0, readings[1]) + Cost(config, n)
        decreases 1 - sleeps
      {
        sleeps := sleeps + 1;
        WaitIsExact(config, clock0, readings[0], n, readings[1]);
        verdict := TryTake(readings[1], n);
      }
    }
  }
}
