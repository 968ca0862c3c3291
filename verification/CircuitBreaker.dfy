/** The circuit breaker (services/integration/integration_resilience.py). Times are in seconds. */
module CircuitBreakers {
  import opened Wrappers

  datatype State = CLOSED | OPEN | HALF_OPEN

  const COOLDOWN: real := 30.0

  datatype Breaker = Breaker(state: State, failures: nat, lastFailure: Option<real>)

  /** What a listener is told. */
  datatype Change = Change(before: State, after: State)

  /** The calls a breaker receives, with the clock reading of those that read the clock. */
  datatype Op = Success | Failure(at: real) | MarkOnline | MarkOffline | Allow(at: real)

  const INITIAL := Breaker(CLOSED, 0, None)

  /** `last_failure_time and now - last_failure_time > 30`: a stored time of zero counts as absent. */
  predicate CooledDown(last: Option<real>, now: real) {
    last.Some? && last.value != 0.0 && now - last.value > COOLDOWN
  }

  predicate Admits(b: Breaker, now: real) {
    b.state != OPEN || CooledDown(b.lastFailure, now)
  }

  function Step(threshold: nat, b: Breaker, op: Op): Breaker {
    match op
    case Success => Breaker(CLOSED, 0, None)
    case MarkOnline => Breaker(CLOSED, 0, None)
    case MarkOffline => b.(state := OPEN)
    case Failure(at) => Breaker(if b.failures + 1 >= threshold then OPEN else b.state, b.failures + 1, Some(at))
    case Allow(at) => if b.state == OPEN && CooledDown(b.lastFailure, at) then b.(state := HALF_OPEN) else b
  }

  function Told(before: Breaker, after: Breaker): seq<Change> {
    if before.state == after.state then [] else [Change(before.state, after.state)]
  }

  function Run(threshold: nat, ops: seq<Op>): Breaker {
    if ops == [] then INITIAL else Step(threshold, Run(threshold, ops[..|ops| - 1]), ops[|ops| - 1])
  }

  /** Everything a listener was told during a run. */
  function Log(threshold: nat, ops: seq<Op>): seq<Change> {
    if ops == [] then []
    else Log(threshold, ops[..|ops| - 1]) + Told(Run(threshold, ops[..|ops| - 1]), Run(threshold, ops))
  }

  // ---- The history, read backwards ----

  predicate Resets(op: Op) { op == Success || op == MarkOnline }

  /** Failures since the last success or confirmed recovery. */
  function FailuresSinceReset(ops: seq<Op>): nat {
    if ops == [] || Resets(ops[|ops| - 1]) then 0
    else FailuresSinceReset(ops[..|ops| - 1]) + if ops[|ops| - 1].Failure? then 1 else 0
  }

  function LatestFailure(ops: seq<Op>): Option<real> {
    if ops == [] || Resets(ops[|ops| - 1]) then None
    else if ops[|ops| - 1].Failure? then Some(ops[|ops| - 1].at)
    else LatestFailure(ops[..|ops| - 1])
  }

  /** The counter and the stored time are what the history says, and the state fits them. */
  lemma {:induction false} EveryRunIsConsistent(threshold: nat, ops: seq<Op>)
    requires threshold > 0
    ensures var b := Run(threshold, ops);
            && b.failures == FailuresSinceReset(ops) && b.lastFailure == LatestFailure(ops)
            && (b.failures == 0 <==> b.lastFailure.None?)
            && (b.state == CLOSED ==> b.failures < threshold)
            && (b.state == HALF_OPEN ==> b.lastFailure.Some?)
  {
    if ops != [] {
      EveryRunIsConsistent(threshold, ops[..|ops| - 1]);
    }
  }

  /** HALF_OPEN is entered exactly by an admitted request that finds the breaker OPEN more than the cooldown
      after the latest failure since the last reset. */
  lemma HalfOpenIsEnteredIff(threshold: nat, ops: seq<Op>, op: Op)
    requires threshold > 0
    ensures var before := Run(threshold, ops);
            (before.state != HALF_OPEN && Step(threshold, before, op).state == HALF_OPEN)
            <==> (op.Allow? && before.state == OPEN && CooledDown(LatestFailure(ops), op.at))
  {
    EveryRunIsConsistent(threshold, ops);
  }

  /** Exactness: an open breaker admits a request some time if and only if a call has failed since the last reset, at a
      time other than zero; one opened by a failed probe alone never does. */
  lemma OpenAdmitsSomeTimeIff(threshold: nat, ops: seq<Op>)
    requires threshold > 0 && Run(threshold, ops).state == OPEN
    ensures (exists now: real :: Admits(Run(threshold, ops), now)) <==>
            LatestFailure(ops).Some? && LatestFailure(ops).value != 0.0
    ensures FailuresSinceReset(ops) == 0 ==> forall now: real :: !Admits(Run(threshold, ops), now)
  {
    EveryRunIsConsistent(threshold, ops);
    if LatestFailure(ops).Some? && LatestFailure(ops).value != 0.0 {
      assert Admits(Run(threshold, ops), LatestFailure(ops).value + COOLDOWN + 1.0);
    }
  }

  /** One probe that marks the service as offline opens the breaker, and no request ever closes it again. */
  lemma ProbeOpensForGood(threshold: nat, now: real)
    requires threshold > 0
    ensures Run(threshold, [MarkOffline]).state == OPEN && !Admits(Run(threshold, [MarkOffline]), now)
    ensures Step(threshold, Run(threshold, [MarkOffline]), Allow(now)) == Run(threshold, [MarkOffline])
  {
    assert [MarkOffline][..0] == [];
  }

  /** No gaps, no self-loops, from CLOSED to `last`. */
  ghost predicate Chain(log: seq<Change>, last: State) {
    && (forall i | 0 <= i < |log| :: log[i].before != log[i].after)
    && (forall i | 0 < i < |log| :: log[i].before == log[i - 1].after)
    && (if log == [] then last == CLOSED else log[0].before == CLOSED && log[|log| - 1].after == last)
  }

  lemma ChainGrows(log: seq<Change>, before: Breaker, after: Breaker)
    requires Chain(log, before.state)
    ensures Chain(log + Told(before, after), after.state)
  {
  }

  lemma {:induction false} ListenersSeeAChain(threshold: nat, ops: seq<Op>)
    ensures Chain(Log(threshold, ops), Run(threshold, ops).state)
  {
    if ops != [] {
      var front := ops[..|ops| - 1];
      ListenersSeeAChain(threshold, front);
      ChainGrows(Log(threshold, front), Run(threshold, front), Run(threshold, ops));
    }
  }

  class CircuitBreaker {
    const threshold: nat
    var state: State
    var failureCount: nat
    var lastFailureTime: Option<real>
    var log: seq<Change>  // what the listeners were called with

    function View(): Breaker
      reads this
    {
      Breaker(state, failureCount, lastFailureTime)
    }

    constructor (threshold: nat)
      ensures this.threshold == threshold && View() == INITIAL && log == []
    {
      this.threshold := threshold;
      state, failureCount, lastFailureTime, log := CLOSED, 0, None, [];
    }

    method TransitionTo(next: State)
      modifies this`state, this`log
      ensures state == next
      ensures log == old(log) + if old(state) == next then [] else [Change(old(state), next)]
    {
      var previous := state;
      state := next;
      if previous == next {
        return;
      }
      log := log + [Change(previous, next)];
    }

    method RecordSuccess()
      modifies this
      ensures View() == Step(threshold, old(View()), Success) && log == old(log) + Told(old(View()), View())
    {
      if state != CLOSED {
        TransitionTo(CLOSED);
      }
      failureCount := 0;
      lastFailureTime := None;
    }

    method RecordFailure(now: real)
      modifies this
      ensures View() == Step(threshold, old(View()), Failure(now)) && log == old(log) + Told(old(View()), View())
    {
      failureCount := failureCount + 1;
      lastFailureTime := Some(now);
      if failureCount >= threshold && state != OPEN {
        TransitionTo(OPEN);
      }
    }

    method MarkAsOnline()
      modifies this
      ensures View() == Step(threshold, old(View()), MarkOnline) && log == old(log) + Told(old(View()), View())
    {
      if state != CLOSED {
        TransitionTo(CLOSED);
      }
      failureCount := 0;
      lastFailureTime := None;
    }

    method MarkAsOffline()
      modifies this
      ensures View() == Step(threshold, old(View()), MarkOffline) && log == old(log) + Told(old(View()), View())
    {
      TransitionTo(OPEN);
    }

    method AllowRequest(now: real) returns (allowed: bool)
      modifies this
      ensures allowed == Admits(old(View()), now)
      ensures View() == Step(threshold, old(View()), Allow(now)) && log == old(log) + Told(old(View()), View())
    {
      if state == CLOSED {
        return true;
      }
      if state == OPEN {
        if lastFailureTime.Some? && lastFailureTime.value != 0.0 && now - lastFailureTime.value > COOLDOWN {
          TransitionTo(HALF_OPEN);
          return true;
        }
        return false;
      }
      return true;
    }
  }
}
