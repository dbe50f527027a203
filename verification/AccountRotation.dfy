/** Round-robin choice among accounts, with exponential cooldown. Times are milliseconds. */
module AccountRotation {
  import opened JsText

  const COOLDOWN_BASE_MS := 5000
  const COOLDOWN_MAX_MS := 60000
  const JITTER_MS := 1000

  datatype Account = Account(fingerprint: string, cooldownUntil: real, consecutiveFails: nat)

  predicate IsAccountReady(a: Account, now: real) {
    a.cooldownUntil <= now
  }

  // ----- picking -----

  /** The place i steps round from p on a ring of n. */
  function Ring(p: nat, i: nat, n: nat): (q: nat)
    requires p < n && i <= n
    ensures q < n
  {
    if p + i < n then p + i else p + i - n
  }

  /** Steps from p round to a. */
  function Distance(p: nat, a: nat, n: nat): (d: nat)
    requires p < n && a < n
    ensures d < n && Ring(p, d, n) == a
  {
    if p <= a then a - p else a - p + n
  }

  /** Steps from p to the first ready account at or behind `from` steps; |ready| without one. */
  function FirstReady(ready: seq<bool>, p: nat, from: nat): (steps: nat)
    requires p < |ready| && from <= |ready|
    ensures from <= steps <= |ready|
    ensures forall i :: from <= i < steps ==> !ready[Ring(p, i, |ready|)]
    ensures steps < |ready| ==> ready[Ring(p, steps, |ready|)]
    decreases |ready| - from
  {
    if from == |ready| || ready[Ring(p, from, |ready|)] then from else FirstReady(ready, p, from + 1)
  }

  /** The index a pick returns when exactly the accounts with a true entry are ready. */
  function PickIndex(ready: seq<bool>, p: nat): (idx: nat)
    requires p < |ready|
    ensures idx < |ready|
  {
    Ring(p, FirstReady(ready, p, 0), |ready|)
  }

  function Readiness(accounts: array<Account>, isReady: Account -> bool): (ready: seq<bool>)
    reads accounts
    ensures |ready| == accounts.Length
  {
    seq(accounts.Length, i requires 0 <= i < accounts.Length reads accounts => isReady(accounts[i]))
  }

  /** An account's index, undefined, or a failing call. */
  datatype Pick = Picked(idx: nat) | NoAccount | Fails

  class Rotation {
    /** None is the pointer NaN, which a remainder by zero leaves behind. */
    var nextAccountIdx: Option<nat>

    constructor (nextAccountIdx: nat)
      ensures this.nextAccountIdx == Some(nextAccountIdx)
    {
      this.nextAccountIdx := Some(nextAccountIdx);
    }

    /**
     * An empty list gives no account and loses the pointer. With the pointer lost every account looked up is
     * undefined: `ofUndefined` says what the readiness test answers for that, None when it throws, as a test
     * does that reads a property.
     */
    method PickAccount(accounts: array<Account>, isReady: Account -> bool, ofUndefined: Option<bool>)
      returns (pick: Pick)
      modifies this`nextAccountIdx
      ensures accounts.Length == 0 ==> pick == NoAccount && nextAccountIdx == None
      ensures accounts.Length > 0 && old(nextAccountIdx).None? ==>
                nextAccountIdx == None && pick == if ofUndefined.None? then Fails else NoAccount
      ensures accounts.Length > 0 && old(nextAccountIdx).Some? ==>
                && old(nextAccountIdx).value % accounts.Length < accounts.Length
                && var idx := PickIndex(Readiness(accounts, isReady), old(nextAccountIdx).value % accounts.Length);
                   pick == Picked(idx) && nextAccountIdx == Some(Ring(idx, 1, accounts.Length))
    {
      if accounts.Length == 0 {
        nextAccountIdx := None;
        return NoAccount;
      }
      if nextAccountIdx.None? {
        return if ofUndefined.None? then Fails else NoAccount;
      }
      var next, n := nextAccountIdx.value, accounts.Length;
      ghost var ready, p := Readiness(accounts, isReady), next % n;
      RingModulo(next, 0, n);
      var i := 0;
      while i < n
        invariant 0 <= i <= n
        invariant nextAccountIdx == old(nextAccountIdx)
        invariant FirstReady(ready, p, 0) == FirstReady(ready, p, i)
      {
        RingModulo(next, i, n);
        var idx := (next + i) % n;
        if isReady(accounts[idx]) {
          RingModulo(idx, 1, n);
          SmallModulo(idx, n);
          nextAccountIdx := Some((idx + 1) % n);
          return Picked(idx);
        }
        i := i + 1;
      }
      RingModulo(next, 1, n);
      nextAccountIdx := Some((next + 1) % n);
      return Picked(next % n);
    }

    /** One pick after another, each with the readiness of its time. */
    method PickRounds(accounts: array<Account>, tests: seq<Account -> bool>) returns (picks: seq<nat>)
      requires accounts.Length > 0 && nextAccountIdx.Some?
      modifies this`nextAccountIdx
      ensures |picks| == |tests|
      ensures var ready, p := ReadinessOf(accounts, tests), old(nextAccountIdx).value % accounts.Length;
              p < accounts.Length &&
              forall i :: 0 <= i < |tests| ==> picks[i] == PickAt(ready, accounts.Length, p, i)
      ensures |tests| == accounts.Length ==>
                forall a :: 0 <= a < accounts.Length && (forall i :: 0 <= i < |tests| ==> tests[i](accounts[a])) ==>
                  a in picks
    {
      ghost var ready, n := ReadinessOf(accounts, tests), accounts.Length;
      ghost var p := nextAccountIdx.value % n;
      RingModulo(nextAccountIdx.value, 0, n);
      picks := [];
      for r := 0 to |tests|
        invariant |picks| == r
        invariant nextAccountIdx.Some? && nextAccountIdx.value % n == PointerAt(ready, n, p, r)
        invariant forall i :: 0 <= i < r ==> picks[i] == PickAt(ready, n, p, i)
      {
        var pick := PickAccount(accounts, tests[r], None);
        SmallModulo(nextAccountIdx.value, n);
        picks := picks + [pick.idx];
      }
      if |tests| == n {
        forall a | 0 <= a < n && forall i :: 0 <= i < |tests| ==> tests[i](accounts[a])
          ensures a in picks
        {
          assert forall i :: 0 <= i < n ==> ready[i][a] == tests[i](accounts[a]);
          ReadyAccountIsPicked(ready, n, p, a);
          var i :| 0 <= i < n && PickAt(ready, n, p, i) == a;
          assert picks[i] == a;
        }
      }
    }
  }

  function ReadinessOf(accounts: array<Account>, tests: seq<Account -> bool>): (ready: seq<seq<bool>>)
    reads accounts
    ensures Rounds(ready, accounts.Length) && |ready| == |tests|
  {
    seq(|tests|, i requires 0 <= i < |tests| reads accounts => Readiness(accounts, tests[i]))
  }

  /** `jitter` stands for Math.random() * 1000, `now` for the clock. */
  method MarkCooldown(accounts: array<Account>, i: nat, now: real, jitter: real)
    requires i < accounts.Length
    modifies accounts
    ensures accounts[..] == old(accounts[..])[i := Failed(old(accounts[i]), now, jitter)]
  {
    var fails := accounts[i].consecutiveFails + 1;
    var backoff := COOLDOWN_BASE_MS * Power2(fails - 1);
    if backoff > COOLDOWN_MAX_MS {
      backoff := COOLDOWN_MAX_MS;
    }
    accounts[i] := accounts[i].(consecutiveFails := fails, cooldownUntil := now + backoff as real + jitter);
  }

  method MarkSuccess(accounts: array<Account>, i: nat)
    requires i < accounts.Length
    modifies accounts
    ensures accounts[..] == old(accounts[..])[i := Succeeded(old(accounts[i]))]
  {
    accounts[i] := accounts[i].(consecutiveFails := 0);
  }

  lemma DivisionLaw(x: int, n: int)
    requires n > 0
    ensures x == n * (x / n) + x % n && 0 <= x % n < n
  {
  }

  lemma {:induction false} ProductGap(n: int, a: int, b: int)
    requires n > 0 && a < b
    ensures n * a + n <= n * b
    decreases b - a
  {
    assert n * b == n * (b - 1) + n;
    if a < b - 1 {
      ProductGap(n, a, b - 1);
    }
  }

  lemma RemainderUnique(x: int, n: int, q: int, r: int)
    requires n > 0 && x == n * q + r && 0 <= r < n
    ensures x % n == r
  {
    DivisionLaw(x, n);
    if x / n < q {
      ProductGap(n, x / n, q);
    } else if q < x / n {
      ProductGap(n, q, x / n);
    }
  }

  lemma SmallModulo(x: nat, n: nat)
    requires x < n
    ensures x % n == x
  {
    RemainderUnique(x, n, 0, x);
  }

  /** The remainders the code computes walk round the ring. */
  lemma RingModulo(next: nat, i: nat, n: nat)
    requires n > 0 && i <= n
    ensures next % n < n
    ensures (next + i) % n == Ring(next % n, i, n)
  {
    DivisionLaw(next, n);
    var q, p := next / n, next % n;
    if p + i < n {
      RemainderUnique(next + i, n, q, p + i);
    } else {
      assert n * (q + 1) == n * q + n;
      RemainderUnique(next + i, n, q + 1, p + i - n);
    }
  }

  /** A ready account is picked whenever there is one, and it is the first one going round. */
  lemma PickIsFirstReady(ready: seq<bool>, p: nat)
    requires p < |ready|
    ensures forall a :: 0 <= a < |ready| && ready[a] ==>
              ready[PickIndex(ready, p)] &&
              Distance(p, PickIndex(ready, p), |ready|) <= Distance(p, a, |ready|)
  {
    forall a | 0 <= a < |ready| && ready[a]
      ensures FirstReady(ready, p, 0) <= Distance(p, a, |ready|)
    {
      assert ready[Ring(p, Distance(p, a, |ready|), |ready|)];
    }
  }

  /** A pick that passes over a ready account brings the pointer strictly closer to it. */
  lemma PassingBringsCloser(ready: seq<bool>, p: nat, a: nat)
    requires p < |ready| && a < |ready| && ready[a] && PickIndex(ready, p) != a
    ensures Distance(Ring(PickIndex(ready, p), 1, |ready|), a, |ready|) < Distance(p, a, |ready|)
  {
    var d := Distance(p, a, |ready|);
    assert ready[Ring(p, d, |ready|)];
    assert FirstReady(ready, p, 0) < d;
  }

  /** Rounds of picks on n accounts, each with the readiness found at its time. */
  predicate Rounds(rounds: seq<seq<bool>>, n: nat) {
    forall i :: 0 <= i < |rounds| ==> |rounds[i]| == n
  }

  /** The pointer before the i-th of a series of picks. */
  function PointerAt(rounds: seq<seq<bool>>, n: nat, p: nat, i: nat): (q: nat)
    requires Rounds(rounds, n) && p < n && i <= |rounds|
    ensures q < n
    decreases i, 0
  {
    if i == 0 then p else Ring(PickAt(rounds, n, p, i - 1), 1, n)
  }

  /** The index the i-th pick returns. */
  function PickAt(rounds: seq<seq<bool>>, n: nat, p: nat, i: nat): (idx: nat)
    requires Rounds(rounds, n) && p < n && i < |rounds|
    ensures idx < n
    decreases i, 1
  {
    PickIndex(rounds[i], PointerAt(rounds, n, p, i))
  }

  /** An account that stays ready through n picks on n accounts is picked, however the others fare. */
  lemma ReadyAccountIsPicked(rounds: seq<seq<bool>>, n: nat, p: nat, a: nat)
    requires Rounds(rounds, n) && |rounds| == n && p < n && a < n
    requires forall i :: 0 <= i < n ==> rounds[i][a]
    ensures exists i :: 0 <= i < n && PickAt(rounds, n, p, i) == a
  {
    if forall i :: 0 <= i < n ==> PickAt(rounds, n, p, i) != a {
      DistanceShrinks(rounds, n, p, a, n);
    }
  }

  lemma {:induction false} DistanceShrinks(rounds: seq<seq<bool>>, n: nat, p: nat, a: nat, i: nat)
    requires Rounds(rounds, n) && p < n && a < n && i <= |rounds|
    requires forall j :: 0 <= j < |rounds| ==> rounds[j][a]
    requires forall j :: 0 <= j < i ==> PickAt(rounds, n, p, j) != a
    ensures Distance(PointerAt(rounds, n, p, i), a, n) + i < n
  {
    if i > 0 {
      DistanceShrinks(rounds, n, p, a, i - 1);
      assert PickAt(rounds, n, p, i - 1) != a;
      PassingBringsCloser(rounds[i - 1], PointerAt(rounds, n, p, i - 1), a);
    }
  }

  // ----- cooldown -----

  function Power2(e: nat): (p: nat)
    ensures p >= 1
  {
    if e == 0 then 1 else 2 * Power2(e - 1)
  }

  function Backoff(fails: nat): nat
    requires fails > 0
  {
    var b := COOLDOWN_BASE_MS * Power2(fails - 1);
    if b < COOLDOWN_MAX_MS then b else COOLDOWN_MAX_MS
  }

  function Failed(a: Account, now: real, jitter: real): Account {
    var fails := a.consecutiveFails + 1;
    a.(consecutiveFails := fails, cooldownUntil := now + Backoff(fails) as real + jitter)
  }

  function Succeeded(a: Account): Account {
    a.(consecutiveFails := 0)
  }

  datatype Mark = Failure(now: real, jitter: real) | Success

  function Marked(a: Account, m: Mark): Account {
    match m
    case Failure(now, jitter) => Failed(a, now, jitter)
    case Success => Succeeded(a)
  }

  function History(a: Account, marks: seq<Mark>): Account {
    if marks == [] then a else Marked(History(a, marks[..|marks| - 1]), marks[|marks| - 1])
  }

  /** How many failures follow the last success. */
  function TrailingFailures(marks: seq<Mark>): nat {
    if marks == [] || marks[|marks| - 1].Success? then 0 else 1 + TrailingFailures(marks[..|marks| - 1])
  }

  /** Index behind the last failure, 0 without one. */
  function LastFailure(marks: seq<Mark>): (k: nat)
    ensures k <= |marks|
    ensures k > 0 ==> marks[k - 1].Failure?
    ensures forall j :: k <= j < |marks| ==> marks[j].Success?
  {
    if marks == [] || marks[|marks| - 1].Failure? then |marks| else LastFailure(marks[..|marks| - 1])
  }

  /** More failures never wait less, and the wait stays within its bounds. */
  lemma {:induction false} BackoffMonotoneAndCapped(f: nat, g: nat)
    requires 0 < f <= g
    ensures COOLDOWN_BASE_MS <= Backoff(f) <= Backoff(g) <= COOLDOWN_MAX_MS
    ensures f < g && Backoff(f) < COOLDOWN_MAX_MS ==> Backoff(f) < Backoff(g)
    decreases g
  {
    if f < g {
      BackoffMonotoneAndCapped(f, g - 1);
      assert Power2(g - 1) == 2 * Power2(g - 2);
    }
  }

  /** The counter counts the failures since the last success. */
  lemma {:induction false} CounterCountsFailures(a: Account, marks: seq<Mark>)
    requires a.consecutiveFails == 0
    ensures History(a, marks).consecutiveFails == TrailingFailures(marks)
  {
    if marks != [] {
      CounterCountsFailures(a, marks[..|marks| - 1]);
    }
  }

  /** Only a failure moves the cooldown: it ends at the last failure plus its backoff and jitter. */
  lemma {:induction false} CooldownOfLastFailure(a: Account, marks: seq<Mark>)
    requires a.consecutiveFails == 0
    ensures History(a, marks).cooldownUntil == CooldownAt(a, marks, LastFailure(marks))
  {
    if marks != [] {
      var init, last := marks[..|marks| - 1], marks[|marks| - 1];
      if last.Failure? {
        CooldownOfFailure(a, init, last);
        assert marks == init + [last];
      } else {
        CooldownOfLastFailure(a, init);
        CooldownOfPrefix(a, init, marks, LastFailure(init));
      }
    }
  }

  /** The end of the cooldown that the k-th mark, a failure, has set; k is 0 without one. */
  function CooldownAt(a: Account, marks: seq<Mark>, k: nat): real
    requires k <= |marks| && (k > 0 ==> marks[k - 1].Failure?)
  {
    if k == 0 then a.cooldownUntil
    else
      assert marks[..k][k - 1].Failure?;
      marks[k - 1].now + Backoff(TrailingFailures(marks[..k])) as real + marks[k - 1].jitter
  }

  lemma CooldownOfFailure(a: Account, init: seq<Mark>, last: Mark)
    requires a.consecutiveFails == 0 && last.Failure?
    ensures LastFailure(init + [last]) == |init| + 1
    ensures History(a, init + [last]).cooldownUntil == CooldownAt(a, init + [last], |init| + 1)
  {
    var marks := init + [last];
    assert marks[..|marks| - 1] == init && marks[..|marks|] == marks;
    CounterCountsFailures(a, init);
  }

  lemma CooldownOfPrefix(a: Account, init: seq<Mark>, marks: seq<Mark>, k: nat)
    requires k <= |init| <= |marks| && init == marks[..|init|] && (k > 0 ==> init[k - 1].Failure?)
    ensures CooldownAt(a, init, k) == CooldownAt(a, marks, k)
  {
    assert init[..k] == marks[..k];
  }

  /** After any history an account is ready again within the cap plus the jitter, and not before the base. */
  lemma ReadyAgainInTime(a: Account, marks: seq<Mark>, now: real)
    requires a.consecutiveFails == 0
    requires LastFailure(marks) > 0
    requires 0.0 <= marks[LastFailure(marks) - 1].jitter < JITTER_MS as real
    ensures var failed := marks[LastFailure(marks) - 1].now;
            && (now >= failed + (COOLDOWN_MAX_MS + JITTER_MS) as real ==> IsAccountReady(History(a, marks), now))
            && (now < failed + COOLDOWN_BASE_MS as real ==> !IsAccountReady(History(a, marks), now))
  {
    CooldownOfLastFailure(a, marks);
    var k := LastFailure(marks);
    var fails := TrailingFailures(marks[..k]);
    assert marks[..k][k - 1].Failure?;
    BackoffMonotoneAndCapped(fails, fails);
  }

  /** Five seconds after the first failure, twice as long after each further one, at most a minute. */
  lemma BackoffDoubles(fails: nat)
    requires fails > 0
    ensures Backoff(1) == 5000
    ensures Backoff(fails + 1) == if 2 * Backoff(fails) < 60000 then 2 * Backoff(fails) else 60000
  {
    assert Power2(0) == 1 && Power2(fails) == 2 * Power2(fails - 1);
  }

  /** A failure counts once, starts its wait now and adds the jitter; the account is ready when the wait is over. */
  lemma FailureWaits(a: Account, now: real, jitter: real, later: real)
    ensures var failed := Failed(a, now, jitter);
            && failed.fingerprint == a.fingerprint
            && failed.consecutiveFails == a.consecutiveFails + 1
            && (IsAccountReady(failed, later) <==> now + Backoff(a.consecutiveFails + 1) as real + jitter <= later)
    ensures Succeeded(a) == Account(a.fingerprint, a.cooldownUntil, 0)
    ensures JITTER_MS == 1000
  {
  }
}
