/**
 * Polling the server until it is ready. Time passes continuously, the clock shows whole milliseconds,
 * timers are exact, and code between two waits takes no time. As in Node.js a delay below 1 counts as 1.
 */
module ServerReadiness {
  type Delay = r: real | 0.0 <= r witness 0.0

  datatype Reply = Ok | NotOk | Thrown

  /**
   * What a probe does: it throws at once, never settles, or settles after a while. `wins` decides the race
   * when it settles at the very moment the timer fires.
   */
  datatype Probe = ThrowsAtOnce | Silent | Settles(after: Delay, reply: Reply, wins: bool)

  /** The world's answer to the k-th probe when it is sent at a given time. */
  type World = (nat, real) -> Probe

  datatype Config = Config(timeoutMs: int, requestTimeoutMs: int, pollIntervalMs: int)

  /** A probe that was sent: when, and how long it was waited for. */
  datatype Attempt = Attempt(start: real, window: int)

  function Min(a: int, b: int): int {
    if a < b then a else b
  }

  function Max(a: int, b: int): int {
    if a < b then b else a
  }

  /** The time shown since the start. */
  function Elapsed(startedAt: real, now: real): int {
    now.Floor - startedAt.Floor
  }

  predicate SettlesWithin(probe: Probe, window: int) {
    probe.Settles? && (probe.after < window as real || (probe.after == window as real && probe.wins))
  }

  /** The probe brings an ok response before it is given up. */
  predicate Succeeds(world: World, attempts: seq<Attempt>, k: nat)
    requires k < |attempts|
  {
    var probe := world(k, attempts[k].start);
    SettlesWithin(probe, attempts[k].window) && probe.reply == Ok
  }

  predicate NoneSucceeds(world: World, attempts: seq<Attempt>, n: nat)
    requires n <= |attempts|
  {
    forall k :: 0 <= k < n ==> !Succeeds(world, attempts, k)
  }

  /** The longest a probe is waited for, and a pause that is not cut short by the budget. */
  function LongestWindow(config: Config): int {
    Max(1, config.requestTimeoutMs)
  }

  function Interval(config: Config): int {
    Max(1, config.pollIntervalMs)
  }

  /** How long a probe sent at a time is waited for. */
  function WindowAt(config: Config, startedAt: real, now: real): int {
    Max(1, Min(config.requestTimeoutMs, config.timeoutMs - Elapsed(startedAt, now)))
  }

  /** The attempts of a wait: the first at once, the others a pause and at most one window apart, in the budget. */
  predicate Paced(config: Config, startedAt: real, attempts: seq<Attempt>) {
    && (attempts != [] ==> attempts[0].start == startedAt)
    && (forall k :: 0 <= k < |attempts| ==>
          && startedAt <= attempts[k].start
          && Elapsed(startedAt, attempts[k].start) < config.timeoutMs
          && attempts[k].window == WindowAt(config, startedAt, attempts[k].start))
    && (forall k :: 0 < k < |attempts| ==> Follows(config, attempts[k - 1].start, attempts[k].start))
  }

  predicate Follows(config: Config, last: real, next: real) {
    last + Interval(config) as real <= next <= last + (LongestWindow(config) + Interval(config)) as real
  }

  /** The last probe and the pause after it are over, and a new probe is due unless the budget is spent. */
  predicate LastAsked(config: Config, startedAt: real, attempts: seq<Attempt>, now: real)
    requires attempts != []
  {
    var last := attempts[|attempts| - 1].start;
    && last <= now <= last + (LongestWindow(config) + Interval(config)) as real
    && (Elapsed(startedAt, now) < config.timeoutMs ==> Follows(config, last, now))
  }

  /** From this time on every probe brings an ok response, each in less than the reply time. */
  ghost predicate HealthyFrom(world: World, h: real, replyTime: real) {
    forall k: nat, t: real :: t >= h ==>
      world(k, t).Settles? && world(k, t).after < replyTime && world(k, t).reply == Ok
  }

  /** After a probe that hangs from this time on, and a pause, the budget still leaves the reply time. */
  predicate EarlyEnough(config: Config, startedAt: real, h: real, replyTime: real) {
    && startedAt <= h
    && 0.0 < replyTime <= LongestWindow(config) as real
    && Elapsed(startedAt, h + (LongestWindow(config) + Interval(config)) as real) as real + replyTime
       <= config.timeoutMs as real
  }

  lemma OneMore(config: Config, startedAt: real, attempts: seq<Attempt>, now: real, world: World)
    requires Paced(config, startedAt, attempts) && NoneSucceeds(world, attempts, |attempts|)
    requires startedAt <= now && Elapsed(startedAt, now) < config.timeoutMs
    requires if attempts == [] then now == startedAt else Follows(config, attempts[|attempts| - 1].start, now)
    ensures var window := WindowAt(config, startedAt, now);
            var more := attempts + [Attempt(now, window)];
            && Paced(config, startedAt, more)
            && NoneSucceeds(world, more, |attempts|)
            && (Succeeds(world, more, |attempts|) <==>
                SettlesWithin(world(|attempts|, now), window) && world(|attempts|, now).reply == Ok)
  {
    var more := attempts + [Attempt(now, WindowAt(config, startedAt, now))];
    forall k | 0 <= k < |attempts|
      ensures !Succeeds(world, more, k)
    {
      assert !Succeeds(world, attempts, k);
    }
  }

  lemma {:induction false} StartsAreSpaced(config: Config, startedAt: real, attempts: seq<Attempt>, k: nat)
    requires Paced(config, startedAt, attempts) && k < |attempts|
    ensures startedAt + (k * Interval(config)) as real <= attempts[k].start
  {
    if k > 0 {
      StartsAreSpaced(config, startedAt, attempts, k - 1);
      assert k * Interval(config) == (k - 1) * Interval(config) + Interval(config);
    }
  }

  /** At most timeout / interval + 1 probes. */
  lemma ProbesAreBounded(config: Config, startedAt: real, attempts: seq<Attempt>)
    requires Paced(config, startedAt, attempts) && attempts != []
    ensures (|attempts| - 1) * Interval(config) < config.timeoutMs
  {
    StartsAreSpaced(config, startedAt, attempts, |attempts| - 1);
  }

  /** A probe sent to a healthy server while the budget leaves the reply time succeeds. */
  lemma HealthyProbeSucceeds(config: Config, startedAt: real, attempts: seq<Attempt>, world: World,
                             h: real, replyTime: real, k: nat)
    requires Paced(config, startedAt, attempts) && k < |attempts| && h <= attempts[k].start
    requires HealthyFrom(world, h, replyTime) && 0.0 < replyTime <= LongestWindow(config) as real
    requires Elapsed(startedAt, attempts[k].start) as real + replyTime <= config.timeoutMs as real
    ensures Succeeds(world, attempts, k)
  {
    var probe := world(k, attempts[k].start);
    assert probe.Settles? && probe.after < replyTime && probe.reply == Ok;
    assert replyTime <= attempts[k].window as real;
  }

  /** Some probe is sent at or after a time that is early enough, and the first one in time for its reply. */
  lemma {:induction false} FirstProbeFrom(config: Config, startedAt: real, attempts: seq<Attempt>, h: real, k: nat)
    returns (first: nat)
    requires Paced(config, startedAt, attempts) && startedAt <= h
    requires k < |attempts| && h <= attempts[k].start
    ensures first <= k && h <= attempts[first].start
    ensures attempts[first].start <= h + (LongestWindow(config) + Interval(config)) as real
  {
    if k == 0 || attempts[k - 1].start < h {
      first := k;
      assert k > 0 ==> Follows(config, attempts[k - 1].start, attempts[k].start);
    } else {
      first := FirstProbeFrom(config, startedAt, attempts, h, k - 1);
    }
  }

  /** A budget spent without success rules out a server that was up early enough, whatever its reply time. */
  lemma FailureMeansUnhealthy(config: Config, startedAt: real, attempts: seq<Attempt>, now: real, world: World)
    requires startedAt <= now && config.timeoutMs <= Elapsed(startedAt, now)
    requires Paced(config, startedAt, attempts) && NoneSucceeds(world, attempts, |attempts|)
    requires if attempts == [] then config.timeoutMs <= 0 else LastAsked(config, startedAt, attempts, now)
    ensures forall h, d :: HealthyFrom(world, h, d) ==> !EarlyEnough(config, startedAt, h, d)
  {
    forall h, d | HealthyFrom(world, h, d)
      ensures !EarlyEnough(config, startedAt, h, d)
    {
      UnhealthyAt(config, startedAt, attempts, now, world, h, d);
    }
  }

  lemma UnhealthyAt(config: Config, startedAt: real, attempts: seq<Attempt>, now: real, world: World, h: real, d: real)
    requires startedAt <= now && config.timeoutMs <= Elapsed(startedAt, now)
    requires Paced(config, startedAt, attempts) && NoneSucceeds(world, attempts, |attempts|)
    requires if attempts == [] then config.timeoutMs <= 0 else LastAsked(config, startedAt, attempts, now)
    requires HealthyFrom(world, h, d)
    ensures !EarlyEnough(config, startedAt, h, d)
  {
    var late := h + (LongestWindow(config) + Interval(config)) as real;
    if attempts != [] && startedAt <= h <= attempts[|attempts| - 1].start {
      var k := FirstProbeFrom(config, startedAt, attempts, h, |attempts| - 1);
      assert !Succeeds(world, attempts, k);
      assert Elapsed(startedAt, attempts[k].start) <= Elapsed(startedAt, late);
      if 0.0 < d <= LongestWindow(config) as real
         && Elapsed(startedAt, attempts[k].start) as real + d <= config.timeoutMs as real
      {
        HealthyProbeSucceeds(config, startedAt, attempts, world, h, d, k);
      }
    } else if attempts != [] {
      assert startedAt <= h ==> Elapsed(startedAt, now) <= Elapsed(startedAt, late);
    }
  }

  /**
   * One probe against its timer. That no timer is left armed holds by construction here: the race ends in one
   * place, as the source's does in its finally block.
   */
  method Race(probe: Probe, window: int, asked: real) returns (ok: bool, end: real, armed: bool)
    requires 1 <= window
    ensures !armed
    ensures asked <= end <= asked + window as real
    ensures ok <==> SettlesWithin(probe, window) && probe.reply == Ok
    ensures SettlesWithin(probe, window) ==> end == asked + probe.after
    ensures !SettlesWithin(probe, window) && probe != ThrowsAtOnce ==> end == asked + window as real
  {
    if probe == ThrowsAtOnce {
      return false, asked, false;
    }
    armed := true;
    if SettlesWithin(probe, window) {
      ok, end := probe.reply == Ok, asked + probe.after;
    } else {
      ok, end := false, asked + window as real;
    }
    armed := false;
  }

  /** By the clock within the budget, and less than a millisecond late by true time. */
  predicate InTime(config: Config, startedAt: real, now: real) {
    && startedAt <= now
    && Elapsed(startedAt, now) <= Max(0, config.timeoutMs)
    && now - startedAt < Max(0, config.timeoutMs) as real + 1.0
  }

  /** A wait no longer than what is left of the budget ends within it. */
  lemma StaysInBudget(startedAt: real, from: real, till: real, wait: int, timeoutMs: int)
    requires startedAt <= from <= till <= from + wait as real
    requires Elapsed(startedAt, from) + wait <= timeoutMs
    ensures 0 <= Elapsed(startedAt, till) <= timeoutMs
    ensures till - startedAt < timeoutMs as real + 1.0
    ensures till == from + wait as real ==> Elapsed(startedAt, till) == Elapsed(startedAt, from) + wait
  {
  }

  /** Sleeps for the poll interval, or for what is left. */
  method Pause(config: Config, startedAt: real, now: real, pollRemaining: int) returns (later: real)
    requires InTime(config, startedAt, now)
    requires 0 < pollRemaining == config.timeoutMs - Elapsed(startedAt, now)
    ensures InTime(config, startedAt, later)
    ensures now <= later <= now + Interval(config) as real
    ensures Elapsed(startedAt, now) < Elapsed(startedAt, later)
    ensures Elapsed(startedAt, later) < config.timeoutMs ==> later == now + Interval(config) as real
  {
    var pause := Max(1, Min(config.pollIntervalMs, pollRemaining));
    StaysInBudget(startedAt, now, now + pause as real, pause, config.timeoutMs);
    later := now + pause as real;
  }

  /** The state between two probes: none has succeeded, and the next one is due unless the budget is spent. */
  predicate Waiting(config: Config, startedAt: real, world: World, attempts: seq<Attempt>, now: real) {
    && Paced(config, startedAt, attempts) && NoneSucceeds(world, attempts, |attempts|)
    && InTime(config, startedAt, now)
    && if attempts == [] then now == startedAt else LastAsked(config, startedAt, attempts, now)
  }

  /** Sends one probe. */
  method Ask(config: Config, startedAt: real, world: World, attempts0: seq<Attempt>, now: real)
      returns (ok: bool, end: real, armed: bool, attempts: seq<Attempt>)
    requires Waiting(config, startedAt, world, attempts0, now) && Elapsed(startedAt, now) < config.timeoutMs
    ensures !armed
    ensures attempts == attempts0 + [Attempt(now, WindowAt(config, startedAt, now))]
    ensures Paced(config, startedAt, attempts) && NoneSucceeds(world, attempts, |attempts0|)
    ensures InTime(config, startedAt, end) && now <= end <= now + LongestWindow(config) as real
    ensures ok <==> Succeeds(world, attempts, |attempts0|)
    ensures ok ==> end == now + world(|attempts0|, now).after
  {
    var remaining := config.timeoutMs - Elapsed(startedAt, now);
    var window := Max(1, Min(config.requestTimeoutMs, remaining));
    OneMore(config, startedAt, attempts0, now, world);
    attempts := attempts0 + [Attempt(now, window)];
    ok, end, armed := Race(world(|attempts0|, now), window, now);
    StaysInBudget(startedAt, now, end, window, config.timeoutMs);
  }

  /**
   * Waits for the server. `end` is the time of return and `armed` whether a request timer is left behind.
   */
  method WaitForServer(config: Config, startedAt: real, world: World)
      returns (ready: bool, end: real, armed: bool, attempts: seq<Attempt>)
    ensures !armed
    ensures Paced(config, startedAt, attempts)
    ensures InTime(config, startedAt, end)
    // true exactly when the last probe succeeded, and no earlier one did
    ensures attempts != [] ==> NoneSucceeds(world, attempts, |attempts| - 1)
    ensures ready <==> attempts != [] && Succeeds(world, attempts, |attempts| - 1)
    ensures ready ==>
              var last := |attempts| - 1;
              end == attempts[last].start + world(last, attempts[last].start).after
    // false only when the budget is spent
    ensures !ready ==> Elapsed(startedAt, end) >= config.timeoutMs
    ensures attempts == [] <==> config.timeoutMs <= 0
    // a server that is up early enough is found
    ensures forall h, d :: HealthyFrom(world, h, d) && EarlyEnough(config, startedAt, h, d) ==> ready
  {
    var now := startedAt;
    armed := false;
    attempts := [];
    while Elapsed(startedAt, now) < config.timeoutMs
      invariant !armed
      invariant Waiting(config, startedAt, world, attempts, now)
      invariant attempts != [] ==> 0 < config.timeoutMs
      decreases config.timeoutMs - Elapsed(startedAt, now)
    {
      var ok, settled;
      ok, settled, armed, attempts := Ask(config, startedAt, world, attempts, now);
      if ok {
        return true, settled, armed, attempts;
      }
      var pollRemaining := config.timeoutMs - Elapsed(startedAt, settled);
      if pollRemaining <= 0 {
        now := settled;
        break;
      }
      now := Pause(config, startedAt, settled, pollRemaining);
    }
    FailureMeansUnhealthy(config, startedAt, attempts, now, world);
    return false, now, armed, attempts;
  }

  // ----- the times in numbers -----

  /** Probes start at least the poll interval apart, and at most one request timeout more. */
  lemma StartsApart(config: Config, startedAt: real, attempts: seq<Attempt>, k: nat)
    requires Paced(config, startedAt, attempts) && 0 < k < |attempts|
    ensures var poll := if config.pollIntervalMs < 1 then 1 else config.pollIntervalMs;
            var request := if config.requestTimeoutMs < 1 then 1 else config.requestTimeoutMs;
            attempts[k - 1].start + poll as real <= attempts[k].start
            <= attempts[k - 1].start + poll as real + request as real
  {
    assert Follows(config, attempts[k - 1].start, attempts[k].start);
  }

  /** Every probe starts within the budget and is waited for as long as the request timeout and the budget allow. */
  lemma WindowsFit(config: Config, startedAt: real, attempts: seq<Attempt>, k: nat)
    requires Paced(config, startedAt, attempts) && k < |attempts|
    ensures attempts[0].start == startedAt
    ensures var left := config.timeoutMs - (attempts[k].start.Floor - startedAt.Floor);
            && 0 < left
            && attempts[k].window == if config.requestTimeoutMs < 1 then 1
                                     else if config.requestTimeoutMs < left then config.requestTimeoutMs else left
  {
  }

  /** A successful probe has settled with an ok response before its window is over. */
  lemma SuccessIsAnOk(world: World, attempts: seq<Attempt>, k: nat)
    requires k < |attempts|
    ensures var probe, window := world(k, attempts[k].start), attempts[k].window as real;
            Succeeds(world, attempts, k) <==>
            probe.Settles? && probe.reply == Ok && (probe.after < window || (probe.after == window && probe.wins))
  {
  }

  /** In numbers: how long before the end of the budget a server must be up to be found for certain. */
  lemma EarlyEnoughIs(config: Config, startedAt: real, h: real, replyTime: real)
    requires 1 <= config.requestTimeoutMs && 1 <= config.pollIntervalMs
    requires startedAt <= h && 0.0 < replyTime <= config.requestTimeoutMs as real
    requires h - startedAt + (config.requestTimeoutMs + config.pollIntervalMs) as real + replyTime + 1.0
             <= config.timeoutMs as real
    ensures EarlyEnough(config, startedAt, h, replyTime)
  {
  }
}
