/** Rolling-window usage limits (services/ai/ai_usage_service.py). Times are microseconds. A call's
    `now` is its transaction start, taken before the lock, so recorded times may run backwards. */
module UsageLimits {
  import opened Wrappers

  const MINUTE: nat := 60_000_000
  const DAY: nat := 24 * 60 * MINUTE

  datatype Event = Event(feature: string, user: Option<nat>, at: int)

  /** A cap of 0 means the check is skipped. */
  datatype Limits = Limits(globalDay: string -> nat, perUserDay: string -> nat, perUserMinute: nat)

  /** The `where` clauses of the three counts. */
  datatype Who = OfFeature(feature: string) | OfUser(user: nat) | OfBoth(feature: string, user: nat)

  datatype Verdict = Recorded | GlobalLimit(resetsAt: int) | BurstLimit(resetsAt: int) | UserLimit(resetsAt: int)

  predicate Matches(e: Event, who: Who) {
    match who
    case OfFeature(f) => e.feature == f
    case OfUser(u) => e.user == Some(u)
    case OfBoth(f, u) => e.feature == f && e.user == Some(u)
  }

  /** Events recorded after `since`; nothing bounds them from above. */
  function Count(events: seq<Event>, who: Who, since: int): nat {
    if events == [] then 0
    else
      var e := events[|events| - 1];
      (if Matches(e, who) && e.at > since then 1 else 0) + Count(events[..|events| - 1], who, since)
  }

  function Oldest(events: seq<Event>, who: Who, since: int): Option<int> {
    if events == [] then None
    else
      var e, before := events[|events| - 1], Oldest(events[..|events| - 1], who, since);
      if !(Matches(e, who) && e.at > since) then before
      else if before == None || e.at < before.value then Some(e.at) else before
  }

  /** When the oldest counted event leaves the window. */
  function ResetsAt(events: seq<Event>, who: Who, now: int, window: nat): int {
    match Oldest(events, who, now - window)
    case Some(at) => at + window
    case None => now
  }

  predicate Full(events: seq<Event>, who: Who, now: int, window: nat, cap: nat) {
    cap != 0 && Count(events, who, now - window) >= cap
  }

  function Decide(events: seq<Event>, limits: Limits, now: int, feature: string, user: Option<nat>): Verdict {
    if Full(events, OfFeature(feature), now, DAY, limits.globalDay(feature)) then
      GlobalLimit(ResetsAt(events, OfFeature(feature), now, DAY))
    else match user
      case None => Recorded
      case Some(u) =>
        if Full(events, OfUser(u), now, MINUTE, limits.perUserMinute) then
          BurstLimit(ResetsAt(events, OfUser(u), now, MINUTE))
        else if Full(events, OfBoth(feature, u), now, DAY, limits.perUserDay(feature)) then
          UserLimit(ResetsAt(events, OfBoth(feature, u), now, DAY))
        else Recorded
  }

  function After(events: seq<Event>, limits: Limits, now: int, feature: string, user: Option<nat>): seq<Event> {
    if Decide(events, limits, now, feature, user) == Recorded then events + [Event(feature, user, now)] else events
  }

  // ---- Safety ----

  /** Events of the half-open interval of length `window` that starts at `lo`. */
  function InRange(events: seq<Event>, who: Who, lo: int, window: nat): nat {
    if events == [] then 0
    else
      var e := events[|events| - 1];
      (if Matches(e, who) && lo <= e.at < lo + window then 1 else 0) + InRange(events[..|events| - 1], who, lo, window)
  }

  ghost predicate Bounded(events: seq<Event>, who: Who, window: nat, cap: nat) {
    cap != 0 ==> forall lo: int :: InRange(events, who, lo, window) <= cap
  }

  ghost predicate Safe(events: seq<Event>, limits: Limits) {
    && (forall f :: Bounded(events, OfFeature(f), DAY, limits.globalDay(f)))
    && (forall f, u :: Bounded(events, OfBoth(f, u), DAY, limits.perUserDay(f)))
    && (forall u :: Bounded(events, OfUser(u), MINUTE, limits.perUserMinute))
  }

  lemma {:induction false} RangeWithinCount(events: seq<Event>, who: Who, lo: int, window: nat, since: int)
    requires since < lo
    ensures InRange(events, who, lo, window) <= Count(events, who, since)
  {
    if events != [] {
      RangeWithinCount(events[..|events| - 1], who, lo, window, since);
    }
  }

  /** Whatever the order of the times, an event recorded below the cap keeps every interval within it. */
  lemma AppendKeepsBound(events: seq<Event>, e: Event, who: Who, window: nat, cap: nat)
    requires Bounded(events, who, window, cap)
    requires Matches(e, who) ==> !Full(events, who, e.at, window, cap)
    ensures Bounded(events + [e], who, window, cap)
  {
    var more := events + [e];
    assert more[..|more| - 1] == events;
    if cap != 0 {
      forall lo: int ensures InRange(more, who, lo, window) <= cap {
        if Matches(e, who) && lo <= e.at < lo + window {
          RangeWithinCount(events, who, lo, window, e.at - window);
        }
      }
    }
  }

  lemma NoEventsAreSafe(limits: Limits)
    ensures Safe([], limits)
  {
    assert forall who, lo, window :: InRange([], who, lo, window) == 0;
  }

  lemma ReserveKeepsSafe(events: seq<Event>, limits: Limits, now: int, feature: string, user: Option<nat>)
    requires Safe(events, limits)
    ensures Safe(After(events, limits, now, feature, user), limits)
  {
    if Decide(events, limits, now, feature, user) == Recorded {
      var e := Event(feature, user, now);
      forall f ensures Bounded(events + [e], OfFeature(f), DAY, limits.globalDay(f)) {
        AppendKeepsBound(events, e, OfFeature(f), DAY, limits.globalDay(f));
      }
      forall f, u ensures Bounded(events + [e], OfBoth(f, u), DAY, limits.perUserDay(f)) {
        AppendKeepsBound(events, e, OfBoth(f, u), DAY, limits.perUserDay(f));
      }
      forall u ensures Bounded(events + [e], OfUser(u), MINUTE, limits.perUserMinute) {
        AppendKeepsBound(events, e, OfUser(u), MINUTE, limits.perUserMinute);
      }
    }
  }

  datatype Call = Call(now: int, feature: string, user: Option<nat>)

  /** The event table after a run of calls, in the order in which they got the lock. */
  function Run(limits: Limits, calls: seq<Call>): seq<Event> {
    if calls == [] then []
    else
      var c := calls[|calls| - 1];
      After(Run(limits, calls[..|calls| - 1]), limits, c.now, c.feature, c.user)
  }

  /** Main result: after any run, whatever times the calls carry, every half-open interval of a day holds at
      most the global cap of a feature's events and at most the per-user cap of a user's, and every
      half-open minute at most the burst cap of a user's. */
  lemma {:induction false} EveryRunIsSafe(limits: Limits, calls: seq<Call>)
    ensures Safe(Run(limits, calls), limits)
  {
    NoEventsAreSafe(limits);
    if calls != [] {
      var c := calls[|calls| - 1];
      EveryRunIsSafe(limits, calls[..|calls| - 1]);
      ReserveKeepsSafe(Run(limits, calls[..|calls| - 1]), limits, c.now, c.feature, c.user);
    }
  }

  // ---- Refusals ----

  ghost predicate NotAfter(events: seq<Event>, now: int) {
    forall i | 0 <= i < |events| :: events[i].at <= now
  }

  lemma {:induction false} CountIsRange(events: seq<Event>, who: Who, since: int, now: int)
    requires NotAfter(events, now) && since <= now
    ensures Count(events, who, since) == InRange(events, who, since + 1, now - since)
  {
    if events != [] {
      CountIsRange(events[..|events| - 1], who, since, now);
    }
  }

  lemma {:induction false} LaterCountsLess(events: seq<Event>, who: Who, since: int, since': int)
    requires since <= since'
    ensures Count(events, who, since') <= Count(events, who, since)
  {
    if events != [] {
      LaterCountsLess(events[..|events| - 1], who, since, since');
    }
  }

  /** Moving the start of the window loses no event before the oldest one, and at least that one from there on. */
  lemma {:induction false} OldestLeavesFirst(events: seq<Event>, who: Who, since: int, since': int)
    requires since <= since'
    ensures Oldest(events, who, since).None? <==> Count(events, who, since) == 0
    ensures Oldest(events, who, since).Some? ==> since < Oldest(events, who, since).value
    ensures Oldest(events, who, since).Some? ==>
              (since' < Oldest(events, who, since).value ==> Count(events, who, since') == Count(events, who, since))
              && (since' >= Oldest(events, who, since).value ==> Count(events, who, since') < Count(events, who, since))
  {
    if events != [] {
      var front := events[..|events| - 1];
      OldestLeavesFirst(front, who, since, since');
      LaterCountsLess(front, who, since, since');
    }
  }

  /** With the bound in force and no later event recorded, a full window stays full until `ResetsAt` and
      not an instant longer. */
  lemma FullUntilReset(events: seq<Event>, who: Who, window: nat, cap: nat, now: int, later: int)
    requires NotAfter(events, now) && Bounded(events, who, window, cap) && now <= later
    requires Full(events, who, now, window, cap)
    ensures Full(events, who, later, window, cap) <==> later < ResetsAt(events, who, now, window)
  {
    CountIsRange(events, who, now - window, now);
    assert InRange(events, who, now - window + 1, window) <= cap;
    OldestLeavesFirst(events, who, now - window, later - window);
  }

  lemma NotFullStaysNotFull(events: seq<Event>, who: Who, window: nat, cap: nat, now: int, later: int)
    requires now <= later && !Full(events, who, now, window, cap)
    ensures !Full(events, who, later, window, cap)
  {
    LaterCountsLess(events, who, now - window, later - window);
  }

  predicate SameLimit(a: Verdict, b: Verdict) {
    (a.GlobalLimit? && b.GlobalLimit?) || (a.BurstLimit? && b.BurstLimit?) || (a.UserLimit? && b.UserLimit?)
  }

  ghost predicate Forward(calls: seq<Call>, now: int) {
    && (forall i | 0 <= i < |calls| :: calls[i].now <= now)
  }

  lemma {:induction false} RunNotAfter(limits: Limits, calls: seq<Call>, now: int)
    requires Forward(calls, now)
    ensures NotAfter(Run(limits, calls), now)
  {
    if calls != [] {
      RunNotAfter(limits, calls[..|calls| - 1], now);
    }
  }

  /** Main result: when no earlier call carries a later time and nothing else is recorded, the limit that
      refuses a call keeps refusing it before its `resetsAt`, and lets it pass at every instant from then on. */
  lemma RefusalEndsAtReset(limits: Limits, calls: seq<Call>, call: Call, later: int)
    requires Forward(calls, call.now) && call.now <= later
    requires Decide(Run(limits, calls), limits, call.now, call.feature, call.user) != Recorded
    ensures var events := Run(limits, calls);
            var refusal := Decide(events, limits, call.now, call.feature, call.user);
            && refusal.resetsAt > call.now
            && (SameLimit(Decide(events, limits, later, call.feature, call.user), refusal) <==>
               later < refusal.resetsAt)
  {
    var events := Run(limits, calls);
    EveryRunIsSafe(limits, calls);
    RunNotAfter(limits, calls, call.now);
    var refusal := Decide(events, limits, call.now, call.feature, call.user);
    var f := call.feature;
    if refusal.GlobalLimit? {
      assert Bounded(events, OfFeature(f), DAY, limits.globalDay(f));
      FullUntilReset(events, OfFeature(f), DAY, limits.globalDay(f), call.now, later);
      FullUntilReset(events, OfFeature(f), DAY, limits.globalDay(f), call.now, call.now);
    } else {
      var u := call.user.value;
      NotFullStaysNotFull(events, OfFeature(f), DAY, limits.globalDay(f), call.now, later);
      if refusal.BurstLimit? {
        assert Bounded(events, OfUser(u), MINUTE, limits.perUserMinute);
        FullUntilReset(events, OfUser(u), MINUTE, limits.perUserMinute, call.now, later);
        FullUntilReset(events, OfUser(u), MINUTE, limits.perUserMinute, call.now, call.now);
      } else {
        assert Bounded(events, OfBoth(f, u), DAY, limits.perUserDay(f));
        NotFullStaysNotFull(events, OfUser(u), MINUTE, limits.perUserMinute, call.now, later);
        FullUntilReset(events, OfBoth(f, u), DAY, limits.perUserDay(f), call.now, later);
        FullUntilReset(events, OfBoth(f, u), DAY, limits.perUserDay(f), call.now, call.now);
      }
    }
  }

  /** The minutes named in a refusal (`_when`), before they are rounded to hours. */
  function PromisedMinutes(resetsAt: int, clock: int): int {
    var m := (resetsAt - clock) / MINUTE + 1;
    if m < 1 then 1 else m
  }

  /** Waiting the promised minutes is enough, and no more than a minute too long. */
  lemma PromiseIsKept(resetsAt: int, clock: int)
    requires clock <= resetsAt
    ensures clock + (PromisedMinutes(resetsAt, clock) - 1) * MINUTE <=
            resetsAt < clock + PromisedMinutes(resetsAt, clock) * MINUTE
  {
  }

  /** From sixty minutes on a refusal names hours: minutes / 60 rounded, halves to the even neighbour. */
  function PromisedHours(minutes: int): int
    requires minutes >= 0
  {
    var hours, rest := minutes / 60, minutes % 60;
    if rest > 30 || (rest == 30 && hours % 2 == 1) then hours + 1 else hours
  }

  lemma HoursAgainstMinutes(minutes: int)
    requires minutes >= 60
    ensures PromisedHours(minutes) * 60 >= minutes <==>
            minutes % 60 == 0 || minutes % 60 > 30 || (minutes % 60 == 30 && minutes / 60 % 2 == 1)
    ensures PromisedHours(minutes) * 60 == minutes - 1 <==> minutes % 60 == 1
  {
  }

  /** Exactness: waiting the hours named in a refusal is enough if and only if the minutes were rounded up or are a
      whole number of hours (or exceed one only because the clock stands at a full minute). Otherwise it is too short:
      89 minutes become about one hour. */
  lemma HoursSufficeIff(resetsAt: int, clock: int)
    requires clock <= resetsAt && PromisedMinutes(resetsAt, clock) >= 60
    ensures var m := PromisedMinutes(resetsAt, clock);
            resetsAt <= clock + PromisedHours(m) * 60 * MINUTE <==>
            (m % 60 == 0 || m % 60 > 30 || (m % 60 == 30 && m / 60 % 2 == 1)
             || (m % 60 == 1 && resetsAt == clock + (m - 1) * MINUTE))
  {
    var m := PromisedMinutes(resetsAt, clock);
    var h := PromisedHours(m) * 60;
    PromiseIsKept(resetsAt, clock);
    HoursAgainstMinutes(m);
    assert PromisedHours(m) * 60 * MINUTE == h * MINUTE;
    assert h >= m ==> h * MINUTE >= m * MINUTE;
    assert h <= m - 1 ==> h * MINUTE <= (m - 1) * MINUTE;
    assert h < m - 1 ==> h * MINUTE < (m - 1) * MINUTE;
  }

  /** Eighty-nine minutes become about one hour. */
  lemma HoursTooShort()
    ensures PromisedMinutes(88 * MINUTE, 0) == 89 && PromisedHours(89) == 1
    ensures PromisedHours(89) * 60 * MINUTE < 88 * MINUTE
  {
  }

  // ---- What is left ----

  function Min(a: int, b: int): int { if a < b then a else b }

  /** `remaining` of `usage_for`: None when neither daily cap is set. */
  function Remaining(events: seq<Event>, limits: Limits, now: int, feature: string, user: nat): Option<nat> {
    var mine := limits.perUserDay(feature) - Count(events, OfBoth(feature, user), now - DAY);
    var everyone := limits.globalDay(feature) - Count(events, OfFeature(feature), now - DAY);
    var userCap, globalCap := limits.perUserDay(feature) != 0, limits.globalDay(feature) != 0;
    if !userCap && !globalCap then None
    else
      var least := if userCap && globalCap then Min(mine, everyone) else if userCap then mine else everyone;
      Some(if least < 0 then 0 else least)
  }

  function Repeat(e: Event, n: nat): seq<Event> {
    if n == 0 then [] else Repeat(e, n - 1) + [e]
  }

  lemma {:induction false} CountRepeat(events: seq<Event>, e: Event, n: nat, who: Who, since: int)
    requires Matches(e, who) && e.at > since
    ensures Count(events + Repeat(e, n), who, since) == Count(events, who, since) + n
  {
    var all := events + Repeat(e, n);
    if n == 0 {
      assert all == events;
    } else {
      CountRepeat(events, e, n - 1, who, since);
      assert all[|all| - 1] == e && all[..|all| - 1] == events + Repeat(e, n - 1);
    }
  }

  /** Main result: `remaining` is the number of further reservations at the same instant that the daily caps
      admit: after n of them another one is admitted if and only if n is below it. */
  lemma RemainingIsExact(events: seq<Event>, limits: Limits, now: int, feature: string, user: nat, n: nat)
    ensures var daily := limits.(perUserMinute := 0);
            var left := Remaining(events, limits, now, feature, user);
            Decide(events + Repeat(Event(feature, Some(user), now), n), daily, now, feature, Some(user)) == Recorded
            <==> (left.None? || n < left.value)
  {
    CountRepeat(events, Event(feature, Some(user), now), n, OfFeature(feature), now - DAY);
    CountRepeat(events, Event(feature, Some(user), now), n, OfBoth(feature, user), now - DAY);
  }

  // ---- The service ----

  datatype Usage = Usage(
    used: nat, limit: nat, companyUsed: nat, companyLimit: nat, resetsAt: Option<int>, companyResetsAt: Option<int>,
    remaining: Option<nat>)

  /** When the oldest call of the last day drops out. */
  function DropsOutAt(events: seq<Event>, who: Who, now: int): Option<int> {
    match Oldest(events, who, now - DAY)
    case Some(at) => Some(at + DAY)
    case None => None
  }

  function UsageOf(events: seq<Event>, limits: Limits, now: int, feature: string, user: nat): Usage {
    var mine, everyone := OfBoth(feature, user), OfFeature(feature);
    Usage(Count(events, mine, now - DAY), limits.perUserDay(feature), Count(events, everyone, now - DAY),
          limits.globalDay(feature), DropsOutAt(events, mine, now), DropsOutAt(events, everyone, now),
          Remaining(events, limits, now, feature, user))
  }

  class UsageTable {
    const limits: Limits
    var events: seq<Event>

    ghost predicate Valid()
      reads this
    {
      Safe(events, limits)
    }

    constructor (limits: Limits)
      ensures Valid() && this.limits == limits && events == []
    {
      this.limits := limits;
      events := [];
      NoEventsAreSafe(limits);
    }

    /** `reserve`, holding the lock. */
    method Reserve(now: int, feature: string, user: Option<nat>) returns (verdict: Verdict)
      requires Valid()
      modifies this`events
      ensures Valid()
      ensures verdict == Decide(old(events), limits, now, feature, user)
      ensures events == if verdict == Recorded then old(events) + [Event(feature, user, now)] else old(events)
    {
      ReserveKeepsSafe(events, limits, now, feature, user);
      var cap := limits.globalDay(feature);
      if cap != 0 {
        var used := Count(events, OfFeature(feature), now - DAY);
        if used >= cap {
          return GlobalLimit(ResetsAt(events, OfFeature(feature), now, DAY));
        }
      }
      if user.Some? {
        var burst := limits.perUserMinute;
        if burst != 0 {
          var used := Count(events, OfUser(user.value), now - MINUTE);
          if used >= burst {
            return BurstLimit(ResetsAt(events, OfUser(user.value), now, MINUTE));
          }
        }
        cap := limits.perUserDay(feature);
        if cap != 0 {
          var used := Count(events, OfBoth(feature, user.value), now - DAY);
          if used >= cap {
            return UserLimit(ResetsAt(events, OfBoth(feature, user.value), now, DAY));
          }
        }
      }
      events := events + [Event(feature, user, now)];
      verdict := Recorded;
    }

    /** `usage_for`, for the given list of features. */
    method UsageFor(now: int, user: nat, features: seq<string>) returns (out: map<string, Usage>)
      ensures out.Keys == set f | f in features
      ensures forall f | f in features ::
                out[f] == UsageOf(events, limits, now, f, user)
    {
      out := map[];
      for i := 0 to |features|
        invariant out.Keys == set f | f in features[..i]
        invariant forall f | f in features[..i] ::
                    out[f] == UsageOf(events, limits, now, f, user)
      {
        var feature := features[i];
        var mine := Count(events, OfBoth(feature, user), now - DAY);
        var everyone := Count(events, OfFeature(feature), now - DAY);
        var remaining: seq<int> := [];
        if limits.perUserDay(feature) != 0 {
          remaining := remaining + [limits.perUserDay(feature) - mine];
        }
        if limits.globalDay(feature) != 0 {
          remaining := remaining + [limits.globalDay(feature) - everyone];
        }
        var left: Option<nat> := None;
        if |remaining| > 0 {
          var least := if |remaining| == 2 then Min(remaining[0], remaining[1]) else remaining[0];
          left := Some(if least < 0 then 0 else least);
        }
        assert features[..i + 1] == features[..i] + [feature];
        var mineResets := DropsOutAt(events, OfBoth(feature, user), now);
        var companyResets := DropsOutAt(events, OfFeature(feature), now);
        out := out[feature := Usage(mine, limits.perUserDay(feature), everyone, limits.globalDay(feature),
                                    mineResets, companyResets, left)];
      }
      assert features[..|features|] == features;
    }
  }
}
