/** Publishing the transactional outbox (services/integration/outbox_publisher.py): ordered batches, a retry
    counter with a cut-off, and the argument that no entry starves. */
module OutboxPublisher {
  import opened Wrappers
  import opened Tables

  const MAX_RETRIES: nat := 5

  /** What became of one publish attempt: confirmed and recorded; not confirmed; or confirmed, with the recording
      transaction failing, which the publisher cannot tell from a failed publish. */
  datatype Outcome = Confirmed | Refused | Unrecorded

  predicate Waiting(e: OutboxEntry) { e.status == PENDING && e.retryCount < MAX_RETRIES }

  function Pending(outbox: seq<OutboxEntry>): set<nat> {
    set i: nat | i < |outbox| && Waiting(outbox[i])
  }

  predicate Distinct(rows: seq<nat>) {
    forall i, j | 0 <= i < j < |rows| :: rows[i] != rows[j]
  }

  function Elements(rows: seq<nat>): set<nat> {
    set i | 0 <= i < |rows| :: rows[i]
  }

  function Min(a: nat, b: nat): nat { if a < b then a else b }

  /** `rows` is an answer to the SELECT: waiting entries, oldest first, at most `limit`; ties may come in any order. */
  ghost predicate IsBatch(rows: seq<nat>, outbox: seq<OutboxEntry>, limit: nat) {
    && Distinct(rows)
    && Elements(rows) <= Pending(outbox)
    && |rows| == Min(limit, |Pending(outbox)|)
    && (forall i | 0 <= i < |rows| :: rows[i] < |outbox|)
    && (forall i, j | 0 <= i < j < |rows| :: outbox[rows[i]].createdAt <= outbox[rows[j]].createdAt)
    && (forall p, r | p in Pending(outbox) && p !in Elements(rows) && r in Elements(rows) ::
          outbox[r].createdAt <= outbox[p].createdAt)
  }

  function Attempt(e: OutboxEntry, outcome: Outcome): OutboxEntry {
    if outcome == Confirmed then e.(status := PUBLISHED)
    else e.(retryCount := e.retryCount + 1, status := if e.retryCount + 1 >= MAX_RETRIES then GAVE_UP else PENDING)
  }

  function PublishAll(outbox: seq<OutboxEntry>, rows: seq<nat>, outcomes: seq<Outcome>): (r: seq<OutboxEntry>)
    requires |outcomes| == |rows| && forall i | 0 <= i < |rows| :: rows[i] < |outbox|
    ensures |r| == |outbox|
  {
    if rows == [] then outbox
    else
      var last := |rows| - 1;
      var before := PublishAll(outbox, rows[..last], outcomes[..last]);
      before[rows[last] := Attempt(before[rows[last]], outcomes[last])]
  }

  lemma {:induction false} PublishAllAt(outbox: seq<OutboxEntry>, rows: seq<nat>, outcomes: seq<Outcome>, i: nat)
    requires |outcomes| == |rows| && forall k | 0 <= k < |rows| :: rows[k] < |outbox|
    requires Distinct(rows) && i < |outbox|
    ensures i !in Elements(rows) ==> PublishAll(outbox, rows, outcomes)[i] == outbox[i]
    ensures forall k | 0 <= k < |rows| && rows[k] == i ::
              PublishAll(outbox, rows, outcomes)[i] == Attempt(outbox[i], outcomes[k])
  {
    if rows != [] {
      var last := |rows| - 1;
      PublishAllAt(outbox, rows[..last], outcomes[..last], i);
      assert forall k | 0 <= k < last :: rows[k] in Elements(rows);
      assert rows[last] in Elements(rows);
      if rows[last] == i {
        assert i !in Elements(rows[..last]);
      }
    }
  }

  /** Nothing enters the waiting state, and a waiting entry that was attempted has left it or counts one more retry. */
  lemma PublishAllEffect(outbox: seq<OutboxEntry>, rows: seq<nat>, outcomes: seq<Outcome>, i: nat)
    requires |outcomes| == |rows| && Distinct(rows) && Elements(rows) <= Pending(outbox) && i < |outbox|
    ensures forall k | 0 <= k < |rows| :: rows[k] < |outbox|
    ensures var after := PublishAll(outbox, rows, outcomes)[i];
            && after.createdAt == outbox[i].createdAt
            && (Waiting(after) ==> Waiting(outbox[i]))
            && (i !in Elements(rows) ==> after == outbox[i])
            && (i in Elements(rows) && Waiting(after) ==> after.retryCount == outbox[i].retryCount + 1)
  {
    assert forall k | 0 <= k < |rows| :: rows[k] in Elements(rows);
    PublishAllAt(outbox, rows, outcomes, i);
    if i in Elements(rows) {
      var k :| 0 <= k < |rows| && rows[k] == i;
      assert i in Pending(outbox);
    }
  }

  // ---- Draining ----

  function Worth(e: OutboxEntry): nat { if Waiting(e) then MAX_RETRIES - e.retryCount else 0 }

  /** Attempts left over all waiting entries. */
  function Left(outbox: seq<OutboxEntry>): nat {
    if outbox == [] then 0 else Left(outbox[..|outbox| - 1]) + Worth(outbox[|outbox| - 1])
  }

  lemma {:induction false} LeftAfterUpdate(outbox: seq<OutboxEntry>, i: nat, e: OutboxEntry)
    requires i < |outbox|
    ensures Left(outbox[i := e]) == Left(outbox) - Worth(outbox[i]) + Worth(e)
    ensures Worth(outbox[i]) <= Left(outbox)
  {
    var front, new' := outbox[..|outbox| - 1], outbox[i := e];
    if i == |outbox| - 1 {
      assert new'[..|outbox| - 1] == front;
    } else {
      assert new'[..|outbox| - 1] == front[i := e];
      LeftAfterUpdate(front, i, e);
    }
  }

  lemma {:induction false} NothingLeftMeansNoneWaiting(outbox: seq<OutboxEntry>)
    ensures Left(outbox) == 0 <==> Pending(outbox) == {}
  {
    if outbox != [] {
      var front := outbox[..|outbox| - 1];
      NothingLeftMeansNoneWaiting(front);
      assert Pending(outbox) == Pending(front) + if Waiting(outbox[|outbox| - 1]) then {|outbox| - 1 as nat} else {};
    }
  }

  /** Every attempt uses up at least one of the attempts left. */
  lemma {:induction false} AttemptsAreUsedUp(outbox: seq<OutboxEntry>, rows: seq<nat>, outcomes: seq<Outcome>)
    requires |outcomes| == |rows| && Distinct(rows) && Elements(rows) <= Pending(outbox)
    ensures forall k | 0 <= k < |rows| :: rows[k] < |outbox|
    ensures Left(PublishAll(outbox, rows, outcomes)) + |rows| <= Left(outbox)
  {
    assert forall k | 0 <= k < |rows| :: rows[k] in Elements(rows);
    if rows != [] {
      var last := |rows| - 1;
      assert Elements(rows[..last]) <= Elements(rows);
      AttemptsAreUsedUp(outbox, rows[..last], outcomes[..last]);
      var before := PublishAll(outbox, rows[..last], outcomes[..last]);
      PublishAllAt(outbox, rows[..last], outcomes[..last], rows[last]);
      assert rows[last] !in Elements(rows[..last]);
      assert rows[last] in Pending(outbox);
      LeftAfterUpdate(before, rows[last], Attempt(before[rows[last]], outcomes[last]));
    }
  }

  /** Main result on draining: a full batch lowers the attempts left by at least its size, and it is not empty while
      anything waits; so without new entries the outbox drains. */
  lemma EveryBatchDrains(outbox: seq<OutboxEntry>, limit: nat, rows: seq<nat>, outcomes: seq<Outcome>)
    requires limit > 0 && IsBatch(rows, outbox, limit) && |outcomes| == |rows|
    ensures forall k | 0 <= k < |rows| :: rows[k] < |outbox|
    ensures Left(PublishAll(outbox, rows, outcomes)) + |rows| <= Left(outbox)
    ensures rows == [] <==> Left(outbox) == 0
  {
    AttemptsAreUsedUp(outbox, rows, outcomes);
    NothingLeftMeansNoneWaiting(outbox);
  }

  // ---- No starvation ----

  /** Waiting entries created before entry `i`. */
  function Older(outbox: seq<OutboxEntry>, i: nat): set<nat>
    requires i < |outbox|
  {
    set p | p in Pending(outbox) && outbox[p].createdAt < outbox[i].createdAt
  }

  ghost predicate DistinctTimes(outbox: seq<OutboxEntry>) {
    forall i, j | 0 <= i < j < |outbox| :: outbox[i].createdAt != outbox[j].createdAt
  }

  lemma SubsetSize(a: set<nat>, b: set<nat>)
    requires a <= b
    ensures |a| <= |b| && (a != b ==> |a| < |b|)
  {
    assert b == a + (b - a);
  }

  lemma {:induction false} ElementsSize(rows: seq<nat>)
    requires Distinct(rows)
    ensures |Elements(rows)| == |rows|
  {
    if rows != [] {
      var last := |rows| - 1;
      ElementsSize(rows[..last]);
      assert Elements(rows) == Elements(rows[..last]) + {rows[last]};
      assert rows[last] !in Elements(rows[..last]);
    }
  }

  /** An entry with fewer than `limit` older waiting entries is in the batch; an entry that is left out has a whole
      batch of older ones in front of it. */
  lemma OldestAreSelected(outbox: seq<OutboxEntry>, limit: nat, rows: seq<nat>, i: nat)
    requires IsBatch(rows, outbox, limit) && DistinctTimes(outbox) && i in Pending(outbox)
    ensures |Older(outbox, i)| < limit ==> i in Elements(rows)
    ensures i !in Elements(rows) ==> |rows| == limit && Elements(rows) <= Older(outbox, i)
  {
    if i !in Elements(rows) {
      ElementsSize(rows);
      SubsetSize(Elements(rows), Pending(outbox));
      forall r | r in Elements(rows) ensures r in Older(outbox, i) {
        assert r in Pending(outbox) && outbox[r].createdAt <= outbox[i].createdAt && r != i;
      }
      SubsetSize(Elements(rows), Older(outbox, i));
    }
  }

  /** New entries, then one full batch. */
  datatype Round = Round(arrivals: seq<OutboxEntry>, rows: seq<nat>, outcomes: seq<Outcome>)

  /** The round may follow `outbox`, and its arrivals are younger than `time`. */
  ghost predicate ValidRound(outbox: seq<OutboxEntry>, limit: nat, time: int, round: Round) {
    var all := outbox + round.arrivals;
    && (forall i | 0 <= i < |round.arrivals| :: round.arrivals[i].createdAt > time)
    && DistinctTimes(all) && IsBatch(round.rows, all, limit) && |round.outcomes| == |round.rows|
  }

  ghost function Next(outbox: seq<OutboxEntry>, limit: nat, time: int, round: Round): seq<OutboxEntry>
    requires ValidRound(outbox, limit, time, round)
  {
    var all := outbox + round.arrivals;
    assert forall k | 0 <= k < |round.rows| :: round.rows[k] in Elements(round.rows);
    PublishAll(all, round.rows, round.outcomes)
  }

  ghost predicate ValidRounds(outbox: seq<OutboxEntry>, limit: nat, time: int, rounds: seq<Round>)
    decreases |rounds|
  {
    rounds != [] ==>
      ValidRound(outbox, limit, time, rounds[0])
          && ValidRounds(Next(outbox, limit, time, rounds[0]), limit, time, rounds[1..])
  }

  ghost predicate AttemptedWithin(rounds: seq<Round>, i: nat, n: nat) {
    exists k :: 0 <= k < n && k < |rounds| && i in Elements(rounds[k].rows)
  }

  /** Entry-wise effect of a round on what was there before it. */
  lemma RoundEffect(outbox: seq<OutboxEntry>, limit: nat, time: int, round: Round, i: nat)
    requires ValidRound(outbox, limit, time, round) && i < |Next(outbox, limit, time, round)|
    ensures |Next(outbox, limit, time, round)| == |outbox + round.arrivals|
    ensures var after, before := Next(outbox, limit, time, round)[i], (outbox + round.arrivals)[i];
            && after.createdAt == before.createdAt
            && (Waiting(after) ==> Waiting(before))
            && (i !in Elements(round.rows) ==> after == before)
            && (i in Elements(round.rows) && Waiting(after) ==> after.retryCount == before.retryCount + 1)
  {
    PublishAllEffect(outbox + round.arrivals, round.rows, round.outcomes, i);
  }

  /** `front` are the oldest entries: whatever waits and is older than one of them is one of them; each has left or has
      been attempted at least `k` times. */
  ghost predicate FrontAttempted(outbox: seq<OutboxEntry>, front: set<nat>, time: int, k: nat) {
    forall f | f in front ::
      && f < |outbox| && outbox[f].createdAt < time
      && (Waiting(outbox[f]) ==> outbox[f].retryCount >= k)
      && (forall p | p in Pending(outbox) && outbox[p].createdAt < outbox[f].createdAt :: p in front)
  }

  lemma FrontIsSelected(
    outbox: seq<OutboxEntry>, limit: nat, front: set<nat>, time: int, k: nat, rows: seq<nat>, f: nat)
    requires FrontAttempted(outbox, front, time, k) && |front| <= limit && IsBatch(rows, outbox, limit)
             && DistinctTimes(outbox)
    requires f in front && f in Pending(outbox)
    ensures f in Elements(rows)
  {
    assert Older(outbox, f) <= front - {f};
    SubsetSize(Older(outbox, f), front - {f});
    OldestAreSelected(outbox, limit, rows, f);
  }

  lemma FrontBefore(outbox: seq<OutboxEntry>, limit: nat, time: int, round: Round, front: set<nat>, k: nat)
    requires FrontAttempted(outbox, front, time, k) && ValidRound(outbox, limit, time, round)
    ensures FrontAttempted(outbox + round.arrivals, front, time, k)
  {
    var all := outbox + round.arrivals;
    forall f, p | f in front && p in Pending(all) && all[p].createdAt < all[f].createdAt ensures p in front {
      assert p < |outbox|;
      assert p in Pending(outbox);
    }
  }

  lemma FrontAdvances(outbox: seq<OutboxEntry>, limit: nat, time: int, round: Round, front: set<nat>, k: nat)
    requires FrontAttempted(outbox, front, time, k) && |front| <= limit && ValidRound(outbox, limit, time, round)
    ensures FrontAttempted(Next(outbox, limit, time, round), front, time, k + 1)
  {
    FrontBefore(outbox, limit, time, round, front, k);
    var all, next := outbox + round.arrivals, Next(outbox, limit, time, round);
    forall f | f in front
      ensures f < |next| && next[f].createdAt == all[f].createdAt && (Waiting(next[f]) ==> next[f].retryCount >= k + 1)
    {
      RoundEffect(outbox, limit, time, round, f);
      if Waiting(all[f]) {
        FrontIsSelected(all, limit, front, time, k, round.rows, f);
      }
    }
    forall f, p | f in front && p in Pending(next) && next[p].createdAt < next[f].createdAt ensures p in front {
      RoundEffect(outbox, limit, time, round, p);
      RoundEffect(outbox, limit, time, round, f);
      assert p in Pending(all);
    }
  }

  ghost function After(outbox: seq<OutboxEntry>, limit: nat, time: int, rounds: seq<Round>, n: nat): seq<OutboxEntry>
    requires ValidRounds(outbox, limit, time, rounds) && n <= |rounds|
    decreases n
  {
    if n == 0 then outbox else After(Next(outbox, limit, time, rounds[0]), limit, time, rounds[1..], n - 1)
  }

  /** What `n` rounds that leave entry `t` alone do: the front gains `n` attempts, `t` stays as it is, and nothing older
      than `t` starts to wait. */
  lemma {:induction false} RoundsAdvance(
    outbox: seq<OutboxEntry>, limit: nat, t: nat, rounds: seq<Round>, n: nat, front: set<nat>, k: nat)
    requires t in Pending(outbox) && ValidRounds(outbox, limit, outbox[t].createdAt, rounds) && n <= |rounds|
    requires FrontAttempted(outbox, front, outbox[t].createdAt, k) && |front| <= limit
    requires !AttemptedWithin(rounds, t, n)
    ensures var after := After(outbox, limit, outbox[t].createdAt, rounds, n);
            && ValidRounds(after, limit, outbox[t].createdAt, rounds[n..])
            && FrontAttempted(after, front, outbox[t].createdAt, k + n)
            && t in Pending(after) && after[t] == outbox[t]
            && Older(after, t) <= Older(outbox, t)
    decreases n
  {
    var time := outbox[t].createdAt;
    if n == 0 {
      assert rounds[0..] == rounds;
    } else {
      var next := Next(outbox, limit, time, rounds[0]);
      FrontAdvances(outbox, limit, time, rounds[0], front, k);
      assert t !in Elements(rounds[0].rows);
      RoundEffect(outbox, limit, time, rounds[0], t);
      OlderShrinks(outbox, limit, t, rounds[0]);
      assert !AttemptedWithin(rounds[1..], t, n - 1) by {
        forall j | 0 <= j < n - 1 && j < |rounds[1..]| ensures t !in Elements(rounds[1..][j].rows) {
          assert rounds[1..][j] == rounds[j + 1];
        }
      }
      RoundsAdvance(next, limit, t, rounds[1..], n - 1, front, k + 1);
      assert rounds[1..][n - 1..] == rounds[n..];
    }
  }

  lemma OlderShrinks(outbox: seq<OutboxEntry>, limit: nat, t: nat, round: Round)
    requires t in Pending(outbox) && ValidRound(outbox, limit, outbox[t].createdAt, round)
    requires t !in Elements(round.rows)
    ensures var next := Next(outbox, limit, outbox[t].createdAt, round);
            t < |next| && next[t] == outbox[t] && Older(next, t) <= Older(outbox, t)
  {
    var time := outbox[t].createdAt;
    var next := Next(outbox, limit, time, round);
    RoundEffect(outbox, limit, time, round, t);
    forall p | p in Older(next, t) ensures p in Older(outbox, t) {
      RoundEffect(outbox, limit, time, round, p);
      assert p < |outbox|;
    }
  }

  lemma Multiples(d: nat, x: nat, y: nat)
    ensures d * (y + 1) == d * y + d
    ensures x <= y ==> d * x <= d * y
  {
  }

  lemma QuotientBound(d: nat, x: nat, y: nat)
    requires d * x < d * y + d
    ensures x <= y
  {
    Multiples(d, y + 1, x);
    Multiples(d, x, y);
  }

  lemma DivStep(n: nat, n': nat, limit: nat)
    requires limit > 0 && n' + limit <= n
    ensures n' / limit + 1 <= n / limit
  {
    var q', q := n' / limit, n / limit;
    assert n' == limit * q' + n' % limit && n == limit * q + n % limit;
    Multiples(limit, 0, q');
    QuotientBound(limit, q' + 1, q);
  }

  /** How many whole batches fit into n entries: n / limit, counted out. */
  function Batches(n: nat, limit: nat): nat
    requires limit > 0
  {
    if n < limit then 0 else 1 + Batches(n - limit, limit)
  }

  lemma QuotientStep(n: nat, limit: nat)
    requires 0 < limit <= n
    ensures n / limit == (n - limit) / limit + 1
  {
    var q', q := (n - limit) / limit, n / limit;
    DivStep(n, n - limit, limit);
    assert n - limit == limit * q' + (n - limit) % limit && n == limit * q + n % limit;
    Multiples(limit, 0, q');
    QuotientBound(limit, q, q' + 1);
  }

  lemma {:induction false} BatchesIsQuotient(n: nat, limit: nat)
    requires limit > 0
    ensures Batches(n, limit) == n / limit
  {
    if n >= limit {
      BatchesIsQuotient(n - limit, limit);
      QuotientStep(n, limit);
    }
  }

  lemma {:induction false} MoreEntriesMoreBatches(n': nat, n: nat, limit: nat)
    requires limit > 0 && n' <= n
    ensures Batches(n', limit) <= Batches(n, limit)
  {
    if n' >= limit {
      MoreEntriesMoreBatches(n' - limit, n - limit, limit);
    }
  }

  /** The first batch leaves `t` out: then it is a front of `limit` older entries. */
  lemma FirstBatchIsFront(outbox: seq<OutboxEntry>, limit: nat, t: nat, round: Round)
    requires t in Pending(outbox) && ValidRound(outbox, limit, outbox[t].createdAt, round)
    requires t !in Elements(round.rows)
    ensures var front := Elements(round.rows);
            && |front| == limit && front <= Older(outbox, t)
            && FrontAttempted(outbox, front, outbox[t].createdAt, 0)
  {
    var all := outbox + round.arrivals;
    assert t in Pending(all);
    OldestAreSelected(all, limit, round.rows, t);
    ElementsSize(round.rows);
    forall f | f in Elements(round.rows) ensures f in Older(outbox, t) {
      assert f in Older(all, t);
      assert f < |outbox|;
    }
    forall f, p | f in Elements(round.rows) && p in Pending(outbox) && outbox[p].createdAt < outbox[f].createdAt
      ensures p in Elements(round.rows)
    {
      assert p in Pending(all);
      assert f in Older(outbox, t);
    }
  }

  lemma AttemptedLater(rounds: seq<Round>, t: nat, d: nat, m: nat)
    requires d <= |rounds| && AttemptedWithin(rounds[d..], t, m)
    ensures AttemptedWithin(rounds, t, d + m)
  {
    var k :| 0 <= k < m && k < |rounds[d..]| && t in Elements(rounds[d..][k].rows);
    assert rounds[d..][k] == rounds[k + d];
  }

  /** As long as an entry is passed over, every n batches, n at least five, take a whole batch's worth of entries out of
      its way. */
  lemma RoundsShrink(outbox: seq<OutboxEntry>, limit: nat, t: nat, rounds: seq<Round>, n: nat)
    requires limit > 0 && t in Pending(outbox) && MAX_RETRIES <= n <= |rounds|
    requires ValidRounds(outbox, limit, outbox[t].createdAt, rounds) && !AttemptedWithin(rounds, t, n)
    ensures var after := After(outbox, limit, outbox[t].createdAt, rounds, n);
            && t in Pending(after) && after[t].createdAt == outbox[t].createdAt
            && ValidRounds(after, limit, outbox[t].createdAt, rounds[n..])
            && Batches(|Older(after, t)|, limit) + 1 <= Batches(|Older(outbox, t)|, limit)
  {
    var time, front := outbox[t].createdAt, Elements(rounds[0].rows);
    assert t !in Elements(rounds[0].rows);
    FirstBatchIsFront(outbox, limit, t, rounds[0]);
    RoundsAdvance(outbox, limit, t, rounds, n, front, 0);
    var after := After(outbox, limit, time, rounds, n);
    FrontIsGone(after, front, time, n);
    FewerOlder(outbox, after, t, front);
    MoreEntriesMoreBatches(|Older(after, t)|, |Older(outbox, t)| - limit, limit);
  }

  lemma FewerOlder(outbox: seq<OutboxEntry>, after: seq<OutboxEntry>, t: nat, front: set<nat>)
    requires t < |outbox| && t < |after| && front <= Older(outbox, t) && front !! Pending(after)
    requires Older(after, t) <= Older(outbox, t)
    ensures |Older(after, t)| + |front| <= |Older(outbox, t)|
  {
    assert Older(after, t) <= Older(outbox, t) - front;
    SubsetSize(Older(after, t), Older(outbox, t) - front);
  }

  /** An entry passed over by the first batch has at least a batch of older ones. */
  lemma FirstBatchIsFull(outbox: seq<OutboxEntry>, limit: nat, t: nat, rounds: seq<Round>)
    requires t in Pending(outbox) && rounds != []
    requires ValidRounds(outbox, limit, outbox[t].createdAt, rounds) && t !in Elements(rounds[0].rows)
    ensures limit <= |Older(outbox, t)|
  {
    FirstBatchIsFront(outbox, limit, t, rounds[0]);
    SubsetSize(Elements(rounds[0].rows), Older(outbox, t));
  }

  lemma {:induction false} AttemptedInTime(outbox: seq<OutboxEntry>, limit: nat, t: nat, rounds: seq<Round>)
    requires limit > 0 && t in Pending(outbox)
    requires ValidRounds(outbox, limit, outbox[t].createdAt, rounds)
    requires |rounds| >= MAX_RETRIES * Batches(|Older(outbox, t)|, limit) + 1
    ensures AttemptedWithin(rounds, t, MAX_RETRIES * Batches(|Older(outbox, t)|, limit) + 1)
    decreases |rounds|
  {
    if t in Elements(rounds[0].rows) {
      assert AttemptedWithin(rounds, t, 1);
    } else {
      FirstBatchIsFull(outbox, limit, t, rounds);
      if !AttemptedWithin(rounds, t, MAX_RETRIES) {
        RoundsShrink(outbox, limit, t, rounds, MAX_RETRIES);
        var after := After(outbox, limit, outbox[t].createdAt, rounds, MAX_RETRIES);
        AttemptedInTime(after, limit, t, rounds[MAX_RETRIES..]);
        AttemptedLater(rounds, t, MAX_RETRIES, MAX_RETRIES * Batches(|Older(after, t)|, limit) + 1);
      }
    }
  }

  /** Main result: with creation times distinct, publishes failing in any way and younger entries arriving at any time,
      a waiting entry with n older waiting entries is attempted within 5 * (n / limit) + 1 batches. */
  lemma NoStarvation(outbox: seq<OutboxEntry>, limit: nat, t: nat, rounds: seq<Round>)
    requires limit > 0 && t in Pending(outbox)
    requires ValidRounds(outbox, limit, outbox[t].createdAt, rounds)
    requires |rounds| >= MAX_RETRIES * (|Older(outbox, t)| / limit) + 1
    ensures AttemptedWithin(rounds, t, MAX_RETRIES * (|Older(outbox, t)| / limit) + 1)
  {
    BatchesIsQuotient(|Older(outbox, t)|, limit);
    AttemptedInTime(outbox, limit, t, rounds);
  }

  lemma FrontIsGone(outbox: seq<OutboxEntry>, front: set<nat>, time: int, k: nat)
    requires FrontAttempted(outbox, front, time, k) && k >= MAX_RETRIES
    ensures front !! Pending(outbox)
  {
  }

  // ---- Entries that arrive with an older creation time ----

  /** Only the entries older than `time` count. */
  function OnlyOlder(outbox: seq<OutboxEntry>, time: int): (r: seq<OutboxEntry>)
    ensures |r| == |outbox|
  {
    seq(|outbox|, i requires 0 <= i < |outbox| =>
      if outbox[i].createdAt < time then outbox[i] else outbox[i].(status := PUBLISHED))
  }

  /** How many entries older than `time` the first n rounds bring. */
  function LateArrivals(rounds: seq<Round>, time: int, n: nat): nat
    requires n <= |rounds|
  {
    if n == 0 then 0 else |Pending(OnlyOlder(rounds[0].arrivals, time))| + LateArrivals(rounds[1..], time, n - 1)
  }

  lemma {:induction false} LeftIsBounded(outbox: seq<OutboxEntry>)
    ensures Left(outbox) <= MAX_RETRIES * |Pending(outbox)|
  {
    if outbox != [] {
      var front, last := outbox[..|outbox| - 1], |outbox| - 1 as nat;
      LeftIsBounded(front);
      assert Pending(outbox) == Pending(front) + if Waiting(outbox[last]) then {last} else {};
      assert last !in Pending(front);
    }
  }

  lemma {:induction false} LeftOfBoth(a: seq<OutboxEntry>, b: seq<OutboxEntry>)
    ensures Left(a + b) == Left(a) + Left(b)
  {
    if b == [] {
      assert a + b == a;
    } else {
      assert (a + b)[..|a + b| - 1] == a + b[..|b| - 1];
      LeftOfBoth(a, b[..|b| - 1]);
    }
  }

  lemma OlderAttempted(all: seq<OutboxEntry>, rows: seq<nat>, outcomes: seq<Outcome>, t: nat)
    requires t < |all| && |outcomes| == |rows| && Distinct(rows) && Elements(rows) <= Older(all, t)
    ensures forall k | 0 <= k < |rows| :: rows[k] < |all|
    ensures Left(OnlyOlder(PublishAll(all, rows, outcomes), all[t].createdAt)) + |rows| <=
            Left(OnlyOlder(all, all[t].createdAt))
  {
    var time := all[t].createdAt;
    assert forall k | 0 <= k < |rows| :: rows[k] in Elements(rows);
    assert Elements(rows) <= Pending(OnlyOlder(all, time));
    forall i | 0 <= i < |all|
      ensures PublishAll(OnlyOlder(all, time), rows, outcomes)[i] == OnlyOlder(PublishAll(all, rows, outcomes), time)[i]
    {
      PublishAllAt(all, rows, outcomes, i);
      PublishAllAt(OnlyOlder(all, time), rows, outcomes, i);
      if i in Elements(rows) {
        var k :| 0 <= k < |rows| && rows[k] == i;
      }
    }
    assert PublishAll(OnlyOlder(all, time), rows, outcomes) == OnlyOlder(PublishAll(all, rows, outcomes), time);
    AttemptsAreUsedUp(OnlyOlder(all, time), rows, outcomes);
  }

  lemma ArrivalsAdd(outbox: seq<OutboxEntry>, arrivals: seq<OutboxEntry>, time: int)
    ensures Left(OnlyOlder(outbox + arrivals, time))
            <= Left(OnlyOlder(outbox, time)) + MAX_RETRIES * |Pending(OnlyOlder(arrivals, time))|
  {
    assert OnlyOlder(outbox + arrivals, time) == OnlyOlder(outbox, time) + OnlyOlder(arrivals, time);
    LeftOfBoth(OnlyOlder(outbox, time), OnlyOlder(arrivals, time));
    LeftIsBounded(OnlyOlder(arrivals, time));
  }

  /** A round that passes `t` over spends a whole batch on older entries. */
  lemma PassedOverOnce(outbox: seq<OutboxEntry>, limit: nat, floor: int, t: nat, round: Round)
    requires t in Pending(outbox) && ValidRound(outbox, limit, floor, round) && t !in Elements(round.rows)
    ensures var time, next := outbox[t].createdAt, Next(outbox, limit, floor, round);
            && t in Pending(next) && next[t] == outbox[t]
            && Left(OnlyOlder(next, time)) + limit
               <= Left(OnlyOlder(outbox, time)) + MAX_RETRIES * |Pending(OnlyOlder(round.arrivals, time))|
  {
    var time, all := outbox[t].createdAt, outbox + round.arrivals;
    RoundEffect(outbox, limit, floor, round, t);
    assert t in Pending(all);
    OldestAreSelected(all, limit, round.rows, t);
    OlderAttempted(all, round.rows, round.outcomes, t);
    ArrivalsAdd(outbox, round.arrivals, time);
  }

  lemma NotAttemptedLater(rounds: seq<Round>, t: nat, n: nat)
    requires 0 < n <= |rounds| && !AttemptedWithin(rounds, t, n)
    ensures t !in Elements(rounds[0].rows) && !AttemptedWithin(rounds[1..], t, n - 1)
  {
    forall j | 0 <= j < n - 1 && j < |rounds[1..]| ensures t !in Elements(rounds[1..][j].rows) {
      assert rounds[1..][j] == rounds[j + 1];
    }
  }

  lemma {:induction false} PassedOver(
    outbox: seq<OutboxEntry>, limit: nat, floor: int, t: nat, rounds: seq<Round>, n: nat)
    requires t in Pending(outbox) && ValidRounds(outbox, limit, floor, rounds) && n <= |rounds|
    requires !AttemptedWithin(rounds, t, n)
    ensures limit * n
            <= Left(OnlyOlder(outbox, outbox[t].createdAt)) + MAX_RETRIES * LateArrivals(rounds, outbox[t].createdAt, n)
    decreases n
  {
    if n > 0 {
      NotAttemptedLater(rounds, t, n);
      PassedOverOnce(outbox, limit, floor, t, rounds[0]);
      PassedOver(Next(outbox, limit, floor, rounds[0]), limit, floor, t, rounds[1..], n - 1);
      Multiples(limit, 0, n - 1);
    }
  }

  /** Without any order between arrivals and `t` (a transaction that began earlier may commit later): `t` is attempted
      within n batches as soon as n batches can take more attempts than five for each entry that is older than `t`,
      those waiting now and those that arrive meanwhile. `floor` lies below all arrivals and is otherwise free. */
  lemma NoStarvationWithLateArrivals(
    outbox: seq<OutboxEntry>, limit: nat, floor: int, t: nat, rounds: seq<Round>, n: nat)
    requires t in Pending(outbox) && ValidRounds(outbox, limit, floor, rounds) && n <= |rounds|
    requires limit * n > MAX_RETRIES * (|Older(outbox, t)| + LateArrivals(rounds, outbox[t].createdAt, n))
    ensures AttemptedWithin(rounds, t, n)
  {
    var time := outbox[t].createdAt;
    LeftIsBounded(OnlyOlder(outbox, time));
    assert Pending(OnlyOlder(outbox, time)) == Older(outbox, t);
    if !AttemptedWithin(rounds, t, n) {
      PassedOver(outbox, limit, floor, t, rounds, n);
    }
  }

  // ---- The batch loop ----

  /** A queued command becomes dispatched; any other status stays. */
  function Dispatch(commands: map<CommandId, Command>, id: CommandId): map<CommandId, Command> {
    if id in commands && commands[id].status == QUEUED then commands[id := commands[id].(status := DISPATCHED)]
    else commands
  }

  function DispatchAll(
    commands: map<CommandId, Command>, outbox: seq<OutboxEntry>, rows: seq<nat>, outcomes: seq<Outcome>)
    : map<CommandId, Command>
    requires |outcomes| == |rows| && forall i | 0 <= i < |rows| :: rows[i] < |outbox|
  {
    if rows == [] then commands
    else
      var last := |rows| - 1;
      var before := DispatchAll(commands, outbox, rows[..last], outcomes[..last]);
      if outcomes[last] == Confirmed then Dispatch(before, outbox[rows[last]].envelope.commandId) else before
  }

  function CountConfirmed(outcomes: seq<Outcome>): nat {
    if outcomes == [] then 0
    else CountConfirmed(outcomes[..|outcomes| - 1]) + if outcomes[|outcomes| - 1] == Confirmed then 1 else 0
  }

  lemma OneMorePublished(
    outbox: seq<OutboxEntry>, commands: map<CommandId, Command>, rows: seq<nat>, outcomes: seq<Outcome>, k: nat)
    requires k < |rows| == |outcomes| && forall i | 0 <= i < |rows| :: rows[i] < |outbox|
    ensures var before := PublishAll(outbox, rows[..k], outcomes[..k]);
            PublishAll(outbox, rows[..k + 1], outcomes[..k + 1]) ==
                before[rows[k] := Attempt(before[rows[k]], outcomes[k])]
    ensures var before := DispatchAll(commands, outbox, rows[..k], outcomes[..k]);
            DispatchAll(commands, outbox, rows[..k + 1], outcomes[..k + 1]) ==
            if outcomes[k] == Confirmed then Dispatch(before, outbox[rows[k]].envelope.commandId) else before
    ensures CountConfirmed(outcomes[..k + 1]) ==
            CountConfirmed(outcomes[..k]) + if outcomes[k] == Confirmed then 1 else 0
  {
    assert rows[..k + 1][..k] == rows[..k] && outcomes[..k + 1][..k] == outcomes[..k];
  }

  /** One row: a recorded confirmation publishes it and dispatches its command, if still queued; anything else counts as
      a failed attempt. */
  method PublishRow(db: Database, id: nat, outcome: Outcome)
    requires id < |db.outbox|
    modifies db`outbox, db`commands
    ensures db.outbox == old(db.outbox)[id := Attempt(old(db.outbox)[id], outcome)]
    ensures db.commands ==
            if outcome == Confirmed then Dispatch(old(db.commands), old(db.outbox)[id].envelope.commandId)
                           else old(db.commands)
  {
    var entry := db.outbox[id];
    if outcome == Confirmed {
      db.outbox := db.outbox[id := entry.(status := PUBLISHED)];
      var cid := entry.envelope.commandId;
      if cid in db.commands && db.commands[cid].status == QUEUED {
        db.commands := db.commands[cid := db.commands[cid].(status := DISPATCHED)];
      }
    } else {
      var retry := entry.retryCount + 1;
      var status := if retry >= MAX_RETRIES then GAVE_UP else PENDING;
      db.outbox := db.outbox[id := entry.(retryCount := retry, status := status)];
    }
  }

  method PublishRows(db: Database, rows: seq<nat>, outcomes: seq<Outcome>, n: nat) returns (published: nat)
    requires Distinct(rows) && n <= |rows| == |outcomes| && forall i | 0 <= i < |rows| :: rows[i] < |db.outbox|
    modifies db`outbox, db`commands
    ensures db.outbox == PublishAll(old(db.outbox), rows[..n], outcomes[..n])
    ensures db.commands == DispatchAll(old(db.commands), old(db.outbox), rows[..n], outcomes[..n])
    ensures published == CountConfirmed(outcomes[..n])
  {
    ghost var outbox, commands := db.outbox, db.commands;
    published := 0;
    for k := 0 to n
      invariant db.outbox == PublishAll(outbox, rows[..k], outcomes[..k])
      invariant db.commands == DispatchAll(commands, outbox, rows[..k], outcomes[..k])
      invariant published == CountConfirmed(outcomes[..k])
    {
      NotYetAttempted(outbox, rows, outcomes, k);
      OneMorePublished(outbox, commands, rows, outcomes, k);
      PublishRow(db, rows[k], outcomes[k]);
      if outcomes[k] == Confirmed {
        published := published + 1;
      }
    }
  }

  /** How a batch ends: it runs through; the publisher is stopped between two rows; it is cancelled while a row's
      publish call or update is under way; or the update of a row's retry counter fails, perhaps on a closed pool. */
  datatype End = Complete | Stopped | Cancelled | UpdateFailed(poolClosed: bool)

  /** The end falls into a row, whose publish call then leaves no trace. */
  predicate LosesCall(end: End) { end.Cancelled? || end.UpdateFailed? }

  /** What the batch answers: None if it raises. */
  function BatchAnswer(confirmed: nat, end: End): Option<nat> {
    match end
    case Cancelled => None
    case UpdateFailed(poolClosed) => if poolClosed then Some(0) else None
    case _ => Some(confirmed)
  }

  /** `rows` is the answer to the SELECT, `outcomes` what the broker and the recording transactions do with them; after
      `recorded` rows the batch ends as `end` says. `calls` counts the publish calls. */
  method ProcessOutboxBatch(
    db: Database, limit: nat, rows: seq<nat>, outcomes: seq<Outcome>, recorded: nat, end: End)
    returns (published: Option<nat>, calls: nat)
    requires IsBatch(rows, db.outbox, limit) && |outcomes| == |rows|
    requires if end.Complete? then recorded == |rows| else recorded < |rows|
    modifies db`outbox, db`commands
    ensures db.outbox == PublishAll(old(db.outbox), rows[..recorded], outcomes[..recorded])
    ensures db.commands == DispatchAll(old(db.commands), old(db.outbox), rows[..recorded], outcomes[..recorded])
    ensures published == BatchAnswer(CountConfirmed(outcomes[..recorded]), end)
    ensures calls == recorded + if LosesCall(end) then 1 else 0
  {
    var confirmed := PublishRows(db, rows, outcomes, recorded);
    calls := recorded;
    if end.Cancelled? {
      return None, calls + 1;
    }
    if end.UpdateFailed? {
      return if end.poolClosed then Some(0) else None, calls + 1;
    }
    published := Some(confirmed);
  }

  lemma NotYetAttempted(outbox: seq<OutboxEntry>, rows: seq<nat>, outcomes: seq<Outcome>, k: nat)
    requires Distinct(rows) && |outcomes| == |rows| && k < |rows| && forall i | 0 <= i < |rows| :: rows[i] < |outbox|
    ensures PublishAll(outbox, rows[..k], outcomes[..k])[rows[k]] == outbox[rows[k]]
  {
    assert rows[k] !in Elements(rows[..k]);
    PublishAllAt(outbox, rows[..k], outcomes[..k], rows[k]);
  }
}
