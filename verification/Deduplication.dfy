/** Deduplication by an inbox of keys, and where an observation of a fold comes from, for any state and any message. */
module Deduplication {
  import opened Wrappers

  /** One delivery: skipped when the key is known or the message is not well formed, otherwise applied and recorded. */
  function Deliver<D, M>(
    key: M -> string, ok: M -> bool, effect: (D, M) -> D, s: (D, set<string>), m: M): (D, set<string>) {
    if key(m) in s.1 || !ok(m) then s else (effect(s.0, m), s.1 + {key(m)})
  }

  function DeliverAll<D, M>(
    key: M -> string, ok: M -> bool, effect: (D, M) -> D, s: (D, set<string>), ms: seq<M>): (D, set<string>) {
    if ms == [] then s
    else Deliver(key, ok, effect, DeliverAll(key, ok, effect, s, ms[..|ms| - 1]), ms[|ms| - 1])
  }

  /** Keys of the well-formed messages. */
  function Keys<M>(key: M -> string, ok: M -> bool, ms: seq<M>): set<string> {
    set i | 0 <= i < |ms| && ok(ms[i]) :: key(ms[i])
  }

  /** The messages that take effect: well formed, and the first of their key that the inbox does not know. */
  function Accepted<M>(key: M -> string, ok: M -> bool, inbox: set<string>, ms: seq<M>): seq<M> {
    if ms == [] then []
    else
      var front, last := ms[..|ms| - 1], ms[|ms| - 1];
      Accepted(key, ok, inbox, front) + if ok(last) && key(last) !in inbox + Keys(key, ok, front) then [last] else []
  }

  /** All messages applied, without an inbox. */
  function ApplyAll<D, M>(effect: (D, M) -> D, d: D, ms: seq<M>): D {
    if ms == [] then d else effect(ApplyAll(effect, d, ms[..|ms| - 1]), ms[|ms| - 1])
  }

  lemma KeysOfOneMore<M>(key: M -> string, ok: M -> bool, ms: seq<M>)
    requires ms != []
    ensures Keys(key, ok, ms) == Keys(key, ok, ms[..|ms| - 1]) + if ok(ms[|ms| - 1]) then {key(ms[|ms| - 1])} else {}
  {
    var front, last := ms[..|ms| - 1], ms[|ms| - 1];
    forall k ensures k in Keys(key, ok, ms) <==> k in Keys(key, ok, front) + if ok(last) then {key(last)} else {} {
      if k in Keys(key, ok, front) {
        var i :| 0 <= i < |front| && ok(front[i]) && key(front[i]) == k;
        assert ms[i] == front[i];
      }
      if k in Keys(key, ok, ms) {
        var i :| 0 <= i < |ms| && ok(ms[i]) && key(ms[i]) == k;
        assert i < |front| ==> front[i] == ms[i];
      }
    }
  }

  /** Deliveries with any repeats amount to applying the first accepted message of each key. */
  lemma {:induction false} RepeatsHaveNoEffect<D, M>(
    key: M -> string, ok: M -> bool, effect: (D, M) -> D, s: (D, set<string>), ms: seq<M>)
    ensures DeliverAll(key, ok, effect, s, ms) ==
            (ApplyAll(effect, s.0, Accepted(key, ok, s.1, ms)), s.1 + Keys(key, ok, ms))
  {
    if ms != [] {
      var front, last := ms[..|ms| - 1], ms[|ms| - 1];
      RepeatsHaveNoEffect(key, ok, effect, s, front);
      KeysOfOneMore(key, ok, ms);
      var before, now := Accepted(key, ok, s.1, front), Accepted(key, ok, s.1, ms);
      var known := s.1 + Keys(key, ok, front);
      assert s.1 + Keys(key, ok, ms) == known + if ok(last) then {key(last)} else {};
      if ok(last) && key(last) !in known {
        assert now[..|now| - 1] == before && now[|now| - 1] == last;
      } else {
        assert now == before;
        assert s.1 + Keys(key, ok, ms) == known;
      }
    } else {
      assert s.1 + Keys(key, ok, ms) == s.1;
    }
  }

  /** An accepted message is well formed and one of the delivered ones. */
  lemma {:induction false} AcceptedAreDelivered<M>(key: M -> string, ok: M -> bool, inbox: set<string>, ms: seq<M>)
    ensures forall i | 0 <= i < |Accepted(key, ok, inbox, ms)| ::
              ok(Accepted(key, ok, inbox, ms)[i]) && Accepted(key, ok, inbox, ms)[i] in ms
  {
    if ms != [] {
      var front := ms[..|ms| - 1];
      AcceptedAreDelivered(key, ok, inbox, front);
      assert ms == front + [ms[|ms| - 1]];
    }
  }

  /** Delivering again what was delivered before changes nothing. */
  lemma {:induction false} RedeliveryChangesNothing<D, M>(
    key: M -> string, ok: M -> bool, effect: (D, M) -> D, s: (D, set<string>), ms: seq<M>, again: seq<M>)
    requires forall i | 0 <= i < |again| :: again[i] in ms
    ensures DeliverAll(key, ok, effect, DeliverAll(key, ok, effect, s, ms), again) == DeliverAll(key, ok, effect, s, ms)
  {
    if again != [] {
      var last := again[|again| - 1];
      RedeliveryChangesNothing(key, ok, effect, s, ms, again[..|again| - 1]);
      RepeatsHaveNoEffect(key, ok, effect, s, ms);
      var i :| 0 <= i < |ms| && ms[i] == last;
      assert ok(last) ==> key(ms[i]) in Keys(key, ok, ms);
    }
  }

  // ---- Where an observation comes from ----

  function LastSettler<M>(settles: M -> bool, ms: seq<M>): (j: Option<nat>)
    ensures j.Some? ==> j.value < |ms| && settles(ms[j.value]) && forall i | j.value < i < |ms| :: !settles(ms[i])
    ensures j.None? ==> forall i | 0 <= i < |ms| :: !settles(ms[i])
  {
    if ms == [] then None
    else if settles(ms[|ms| - 1]) then Some(|ms| - 1)
    else LastSettler(settles, ms[..|ms| - 1])
  }

  /** If every message either settles an observation or leaves it alone, a fold's observation is what the last settling
      message says, or what it was at the start. */
  lemma {:induction false} LastSettlerDecides<D(!new), M(!new), O>(
    effect: (D, M) -> D, inv: D -> bool, settles: M -> bool, value: M -> O, observe: D -> O, d: D, ms: seq<M>)
    requires inv(d)
    requires forall d: D, m: M | inv(d) ::
             inv(effect(d, m)) && observe(effect(d, m)) == if settles(m) then value(m) else observe(d)
    ensures inv(ApplyAll(effect, d, ms))
    ensures observe(ApplyAll(effect, d, ms)) ==
            match LastSettler(settles, ms) case Some(j) => value(ms[j]) case None => observe(d)
  {
    if ms != [] {
      LastSettlerDecides(effect, inv, settles, value, observe, d, ms[..|ms| - 1]);
    }
  }
}
