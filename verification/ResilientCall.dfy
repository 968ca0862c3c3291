/** A call protected by a circuit breaker and a last-known-good cache
    (services/integration/integration_resilience.py, execute_resilient_call). The remote function is
    represented by what it does when it is run. */
module ResilientCalls {
  import opened Wrappers
  import opened CircuitBreakers

  datatype Fetch<V> = Returned(result: Option<V>) | TimedOut | Raised

  datatype Status = Connected | Stale | Disconnected | Timeout

  /** `fetched` records whether the remote function was run. */
  datatype Reply<V> = Reply(status: Status, data: Option<V>, fetched: bool)

  /** `effective` is the registry's cached status of the service, if it has one; `now` is the clock when the
      call is admitted, `later` when a failure is recorded. */
  datatype Call<V> = Call(key: string, effective: Option<string>, now: real, later: real, fetch: Fetch<V>)

  datatype World<V> = World(breaker: Breaker, cache: map<string, V>)

  /** `get_service_status` for the services that have a breaker. */
  function ServiceStatus(b: Breaker, effective: Option<string>): string {
    if effective.Some? then effective.value
    else if b.state == OPEN then "offline"
    else if b.state == CLOSED && b.failures == 0 then "online"
    else "unknown"
  }

  function Cached<V>(w: World<V>, key: string): Option<V> { if key in w.cache then Some(w.cache[key]) else None }

  /** What a call answers when it does not get a fresh result. */
  function Fallback<V>(known: Option<V>, emptyList: V, otherwise: Status, fetched: bool): Reply<V> {
    if known.Some? then Reply(Stale, known, fetched) else Reply(otherwise, Some(emptyList), fetched)
  }

  /** Whether a call is admitted, with the breaker after it was asked: by the registry unless that says online, and then
      by the call itself. */
  function Admit(threshold: nat, b: Breaker, effective: Option<string>, now: real): (Breaker, bool) {
    var asked := ServiceStatus(b, effective) != "online";
    var b1 := if asked then Step(threshold, b, Allow(now)) else b;
    if asked && !Admits(b, now) then (b1, false) else (Step(threshold, b1, Allow(now)), Admits(b1, now))
  }

  /** The end of an admitted call; `known` is what the cache held for its key when it began. */
  function Conclude<V>(
    threshold: nat, w: World<V>, key: string, known: Option<V>, fetch: Fetch<V>, later: real, emptyList: V)
    : (World<V>, Reply<V>)
  {
    match fetch
    case Returned(r) =>
      var cache := if r.Some? then w.cache[key := r.value] else w.cache;
      (World(Step(threshold, w.breaker, Success), cache), Reply(Connected, r, true))
    case TimedOut =>
      (w.(breaker := Step(threshold, w.breaker, Failure(later))), Fallback(known, emptyList, Timeout, true))
    case Raised =>
      (w.(breaker := Step(threshold, w.breaker, Failure(later))), Fallback(known, emptyList, Disconnected, true))
  }

  /** A call during which nothing else happens. */
  function Perform<V>(threshold: nat, w: World<V>, call: Call<V>, emptyList: V): (World<V>, Reply<V>) {
    var (breaker, admitted) := Admit(threshold, w.breaker, call.effective, call.now);
    var known := Cached(w, call.key);
    if admitted then Conclude(threshold, w.(breaker := breaker), call.key, known, call.fetch, call.later, emptyList)
    else (w.(breaker := breaker), Fallback(known, emptyList, Disconnected, false))
  }

  /** Whatever the registry says about the service, a call is admitted exactly when the breaker admits requests: an
      "offline" status never holds a call back, and an "online" one never lets it through. */
  lemma AdmittedIff(threshold: nat, b: Breaker, effective: Option<string>, now: real)
    ensures Admit(threshold, b, effective, now).1 <==> Admits(b, now)
  {
  }

  /** So the remote function runs exactly then. */
  lemma FetchRunsIffAdmitted<V>(threshold: nat, w: World<V>, call: Call<V>, emptyList: V)
    ensures Perform(threshold, w, call, emptyList).1.fetched <==> Admits(w.breaker, call.now)
  {
    AdmittedIff(threshold, w.breaker, call.effective, call.now);
  }

  /** A service that is registered as offline is called, and one that is registered as online is not. */
  lemma StatusIsIgnored()
    ensures var call := Call("k", Some("offline"), 0.0, 0.0, Returned(Some(1)));
            Perform(5, World(INITIAL, map[]), call, 0).1 == Reply(Connected, Some(1), true)
    ensures var call := Call("k", Some("online"), 0.0, 0.0, Returned(Some(1)));
            Perform(5, World(INITIAL.(state := OPEN), map[]), call, 0).1 == Reply(Disconnected, Some(0), false)
  {
  }

  // ---- Runs of overlapping calls ----

  /** A call begins, and ends when its remote function has returned, timed out or raised, if ever; `begun` is the place
      of its beginning in the run. In between other calls begin and end, and health probes and other users of the
      breaker change it. */
  datatype Event<V> =
    | Begin(key: string, effective: Option<string>, now: real)
    | End(begun: nat, fetch: Fetch<V>, later: real)
    | Other(op: Op)

  /** A call under way: its key and what it read from the cache. */
  datatype Open<V> = Open(key: string, known: Option<V>)

  datatype Served<V> = Served(world: World<V>, open: map<nat, Open<V>>)

  function Serve<V>(threshold: nat, s: Served<V>, at: nat, event: Event<V>, emptyList: V): Served<V> {
    match event
    case Begin(key, effective, now) =>
      var (breaker, admitted) := Admit(threshold, s.world.breaker, effective, now);
      Served(s.world.(breaker := breaker), if admitted then s.open[at := Open(key, Cached(s.world, key))] else s.open)
    case End(begun, fetch, later) =>
      if begun !in s.open then s
      else
        var call := s.open[begun];
        Served(Conclude(threshold, s.world, call.key, call.known, fetch, later, emptyList).0, s.open - {begun})
    case Other(op) => s.(world := s.world.(breaker := Step(threshold, s.world.breaker, op)))
  }

  function Run<V>(threshold: nat, events: seq<Event<V>>, emptyList: V): Served<V> {
    if events == [] then Served(World(INITIAL, map[]), map[])
    else
      var last := |events| - 1;
      Serve(threshold, Run(threshold, events[..last], emptyList), last, events[last], emptyList)
  }

  /** The latest result other than None that a call for `key` fetched, looking back over the run. */
  function LatestGood<V>(threshold: nat, events: seq<Event<V>>, emptyList: V, key: string): Option<V> {
    if events == [] then None
    else
      var front, last := events[..|events| - 1], events[|events| - 1];
      if last.End? && last.fetch.Returned? && last.fetch.result.Some?
         && EndsCall(threshold, front, emptyList, last.begun, key)
      then last.fetch.result
      else LatestGood(threshold, front, emptyList, key)
  }

  /** A call for `key` that began there is under way. */
  predicate EndsCall<V>(threshold: nat, events: seq<Event<V>>, emptyList: V, begun: nat, key: string) {
    var open := Run(threshold, events, emptyList).open;
    begun in open && open[begun].key == key
  }

  lemma {:induction false} CacheIsLatestGood<V>(threshold: nat, events: seq<Event<V>>, emptyList: V, key: string)
    ensures Cached(Run(threshold, events, emptyList).world, key) == LatestGood(threshold, events, emptyList, key)
  {
    if events != [] {
      CacheIsLatestGood(threshold, events[..|events| - 1], emptyList, key);
    }
  }

  /** A call is under way only if the breaker admitted it where it began, and it has read what was the latest good
      result for its key there. */
  lemma {:induction false} OpenCallsRemember<V>(threshold: nat, events: seq<Event<V>>, emptyList: V, k: nat)
    requires k in Run(threshold, events, emptyList).open
    ensures k < |events| && events[k].Begin?
    ensures Admits(Run(threshold, events[..k], emptyList).world.breaker, events[k].now)
    ensures Run(threshold, events, emptyList).open[k] ==
            Open(events[k].key, LatestGood(threshold, events[..k], emptyList, events[k].key))
  {
    var last := |events| - 1;
    var front := events[..last];
    if k in Run(threshold, front, emptyList).open {
      OpenCallsRemember(threshold, front, emptyList, k);
      assert front[..k] == events[..k] && front[k] == events[k];
      NotBegunTwice(threshold, front, emptyList);
    } else {
      assert k == last;
      AdmittedIff(threshold, Run(threshold, front, emptyList).world.breaker, events[k].effective, events[k].now);
      CacheIsLatestGood(threshold, front, emptyList, events[k].key);
    }
  }

  lemma {:induction false} NotBegunTwice<V>(threshold: nat, events: seq<Event<V>>, emptyList: V)
    ensures forall k | k in Run(threshold, events, emptyList).open :: k < |events|
  {
    if events != [] {
      NotBegunTwice(threshold, events[..|events| - 1], emptyList);
    }
  }

  /** What the call that began at `k` answers when its remote function ends so. */
  function ReplyAt<V>(
    threshold: nat, events: seq<Event<V>>, k: nat, fetch: Fetch<V>, later: real, emptyList: V): Reply<V>
    requires k in Run(threshold, events, emptyList).open
  {
    var s := Run(threshold, events, emptyList);
    Conclude(threshold, s.world, s.open[k].key, s.open[k].known, fetch, later, emptyList).1
  }

  /** What a call that is not admitted answers at once. */
  function RefusalAt<V>(threshold: nat, events: seq<Event<V>>, key: string, emptyList: V): Reply<V> {
    Fallback(Cached(Run(threshold, events, emptyList).world, key), emptyList, Disconnected, false)
  }

  /** Main result: in every run of overlapping calls and other uses of the breaker, a call that the breaker admitted
      answers with its own fresh result if the remote function returned, and otherwise with the result that was the
      latest good one for its key when it began, or the empty list; results that other calls fetch meanwhile are not
      taken. */
  lemma EveryReplyIsFreshOrLastKnownGood<V>(
    threshold: nat, events: seq<Event<V>>, k: nat, fetch: Fetch<V>, later: real, emptyList: V)
    requires k in Run(threshold, events, emptyList).open
    ensures k < |events| && events[k].Begin?
    ensures var reply := ReplyAt(threshold, events, k, fetch, later, emptyList);
            var good := LatestGood(threshold, events[..k], emptyList, events[k].key);
            if fetch.Returned? then reply == Reply(Connected, fetch.result, true)
            else
              && reply.data == Some(if good.Some? then good.value else emptyList) && reply.fetched
              && (reply.status == Stale <==> good.Some?) && (reply.status == Timeout <==> good.None? && fetch.TimedOut?)
  {
    OpenCallsRemember(threshold, events, emptyList, k);
  }

  /** A call is refused if and only if the breaker does not admit it; it then answers at once with the latest good
      result for its key, or the empty list, and the remote function does not run. */
  lemma EveryRefusalIsLastKnownGood<V>(threshold: nat, events: seq<Event<V>>, call: Event<V>, emptyList: V)
    requires call.Begin?
    ensures |events| in Run(threshold, events + [call], emptyList).open <==>
            Admits(Run(threshold, events, emptyList).world.breaker, call.now)
    ensures var reply := RefusalAt(threshold, events, call.key, emptyList);
            var good := LatestGood(threshold, events, emptyList, call.key);
            && reply.data == Some(if good.Some? then good.value else emptyList) && !reply.fetched
            && (reply.status == Stale <==> good.Some?)
  {
    assert (events + [call])[..|events|] == events;
    NotBegunTwice(threshold, events, emptyList);
    AdmittedIff(threshold, Run(threshold, events, emptyList).world.breaker, call.effective, call.now);
    CacheIsLatestGood(threshold, events, emptyList, call.key);
  }

  /** A call during which nothing happens is the whole call at once. */
  lemma PerformIsBeginAndEnd<V>(threshold: nat, events: seq<Event<V>>, call: Call<V>, emptyList: V)
    ensures var begin, end := Begin(call.key, call.effective, call.now), End(|events|, call.fetch, call.later);
            var before := Run(threshold, events, emptyList);
            var after := Run(threshold, events + [begin] + [end], emptyList);
            after.world == Perform(threshold, before.world, call, emptyList).0 && after.open == before.open
  {
    var begin, end := Begin(call.key, call.effective, call.now), End(|events|, call.fetch, call.later);
    assert (events + [begin])[..|events|] == events;
    assert (events + [begin] + [end])[..|events| + 1] == events + [begin];
    NotBegunTwice(threshold, events, emptyList);
    var before := Run(threshold, events, emptyList);
    var known := Open(call.key, Cached(before.world, call.key));
    assert before.open[|events| := known] - {|events|} == before.open;
  }

  class ResilientCache<V> {
    var entries: map<string, V>

    constructor ()
      ensures entries == map[]
    {
      entries := map[];
    }

    method Set(key: string, data: Option<V>)
      modifies this
      ensures entries == if data.Some? then old(entries)[key := data.value] else old(entries)
    {
      if data.Some? {
        entries := entries[key := data.value];
      }
    }

    method Get(key: string) returns (data: Option<V>)
      ensures data == if key in entries then Some(entries[key]) else None
    {
      data := if key in entries then Some(entries[key]) else None;
    }
  }

  /** `is_service_online` of the registry for a service with a breaker. */
  method IsServiceOnline(circuit: CircuitBreaker, effective: Option<string>, now: real) returns (online: bool)
    modifies circuit
    ensures var asked := ServiceStatus(old(circuit.View()), effective) != "online";
            && online == (!asked || Admits(old(circuit.View()), now))
            && circuit.View() ==
               if asked then Step(circuit.threshold, old(circuit.View()), Allow(now)) else old(circuit.View())
  {
    if ServiceStatus(circuit.View(), effective) == "online" {
      return true;
    }
    online := circuit.AllowRequest(now);
  }

  method ExecuteResilientCall<V>(
    circuit: CircuitBreaker, cache: ResilientCache<V>, call: Call<V>, emptyList: V) returns (reply: Reply<V>)
    modifies circuit, cache
    ensures (World(circuit.View(), cache.entries), reply) ==
            Perform(circuit.threshold, World(old(circuit.View()), old(cache.entries)), call, emptyList)
  {
    var cached := cache.Get(call.key);
    var known := if cached.Some? then cached.value else emptyList;
    var online := IsServiceOnline(circuit, call.effective, call.now);
    var allowed := false;
    if online {
      allowed := circuit.AllowRequest(call.now);
    }
    if !online || !allowed {
      return Reply(if cached.Some? then Stale else Disconnected, Some(known), false);
    }
    match call.fetch {
      case Returned(r) =>
        circuit.RecordSuccess();
        cache.Set(call.key, r);
        reply := Reply(Connected, r, true);
      case TimedOut =>
        circuit.RecordFailure(call.later);
        reply := Reply(if cached.Some? then Stale else Timeout, Some(known), true);
      case Raised =>
        circuit.RecordFailure(call.later);
        reply := Reply(if cached.Some? then Stale else Disconnected, Some(known), true);
    }
  }
}
