/** The in-memory broker and its consumer loop (services/notifications/rabbitmq_service.py): first-in first-out queues,
    and routing by substrings where the live broker routes by prefix. */
module MessageBroker {
  import opened Wrappers
  import opened Tables
  import RC = ResultConsumer
  import Text

  // ---- Routing ----

  /** The queues of the topology; any other name is a routing key used as a queue name. */
  datatype QueueName = AdminCommands | MaCommands | AdminEvents | MaEvents | Named(key: string)

  predicate NamesAdmin(key: string) { Text.Contains(key, "administration") || Text.Contains(key, "admin") }

  predicate NamesEvent(exchange: string, key: string) {
    Text.Contains(exchange, "event") || Text.Contains(key, "event")
  }

  function Route(exchange: string, key: string): QueueName {
    if NamesAdmin(key) then (if NamesEvent(exchange, key) then AdminEvents else AdminCommands)
    else if Text.Contains(key, "ma") then (if NamesEvent(exchange, key) then MaEvents else MaCommands)
    else Named(key)
  }

  /** The topic pattern `word.#`: the word alone, or followed by a dot and anything. */
  predicate MatchesTopic(word: string, key: string) { key == word || Text.IsPrefix(word + ".", key) }

  /** What the live topology binds a key to: `administration.#` and `ma.#` on either exchange. */
  function Bound(events: bool, key: string): Option<QueueName> {
    if MatchesTopic("administration", key) then Some(if events then AdminEvents else AdminCommands)
    else if MatchesTopic("ma", key) then Some(if events then MaEvents else MaCommands)
    else None
  }

  lemma TopicKeyContains(word: string, key: string)
    requires MatchesTopic(word, key)
    ensures Text.Contains(key, word)
  {
    if key != word {
      assert key[..|word|] == (word + ".")[..|word|];
    }
  }

  lemma TopicKeyStarts(word: string, key: string)
    requires MatchesTopic(word, key) && word != ""
    ensures key != "" && key[0] == word[0]
  {
    assert key != word ==> key[0] == key[..|word + "."|][0];
  }

  lemma TopicsExclude(key: string)
    ensures !(MatchesTopic("administration", key) && MatchesTopic("ma", key))
  {
    assert MatchesTopic("administration", key) ==> key != "" && key[0] == 'a' by {
      if MatchesTopic("administration", key) {
        TopicKeyStarts("administration", key);
      }
    }
    assert MatchesTopic("ma", key) ==> key != "" && key[0] == 'm' by {
      if MatchesTopic("ma", key) {
        TopicKeyStarts("ma", key);
      }
    }
  }

  lemma BoundKeysName(key: string)
    ensures MatchesTopic("administration", key) ==> NamesAdmin(key)
    ensures MatchesTopic("ma", key) ==> Text.Contains(key, "ma")
  {
    if MatchesTopic("administration", key) {
      TopicKeyContains("administration", key);
    }
    if MatchesTopic("ma", key) {
      TopicKeyContains("ma", key);
    }
  }

  /** Exactness: the fallback delivers a key the topology binds to the same queue as the live broker if and only if a
      command's key does not contain the word event, and a key of the ma service does not contain the word admin. */
  lemma FallbackAgreesIff(exchange: string, events: bool, key: string)
    requires Text.Contains(exchange, "event") <==> events
    requires Bound(events, key).Some?
    ensures Bound(events, key) == Some(Route(exchange, key)) <==>
            (events || !Text.Contains(key, "event")) && (MatchesTopic("ma", key) ==> !NamesAdmin(key))
  {
    BoundKeysName(key);
    TopicsExclude(key);
  }

  lemma LacksEvent(s: string)
    requires 'v' !in s
    ensures !Text.Contains(s, "event")
  {
    if Text.Contains(s, "event") {
      assert "event"[1] == 'v';
      Text.ContainedChars(s, "event", 'v');
    }
  }

  const MISROUTED := "ma.admin.x"

  lemma MisroutedIsBound()
    ensures Bound(false, MISROUTED) == Some(MaCommands)
  {
    assert Text.IsPrefix("ma.", MISROUTED);
    TopicsExclude(MISROUTED);
  }

  lemma MisroutedNamesAdmin()
    ensures NamesAdmin(MISROUTED) && !Text.Contains(MISROUTED, "event")
  {
    ContainsLater(MISROUTED, "admin", 3);
    LacksEvent(MISROUTED);
  }

  /** A command for an ma resource called admin: the live broker hands it to the ma service, the fallback to the
      administration. */
  lemma MisroutedKey()
    ensures Bound(false, MISROUTED) == Some(MaCommands) && Route("ceo.commands", MISROUTED) == AdminCommands
  {
    MisroutedIsBound();
    MisroutedNamesAdmin();
    LacksEvent("ceo.commands");
  }

  lemma {:induction false} ContainsLater(s: string, needle: string, i: nat)
    requires i <= |s| && Text.IsPrefix(needle, s[i..])
    ensures Text.Contains(s, needle)
  {
    if i == 0 {
      assert s[0..] == s;
    } else {
      assert s[1..][i - 1..] == s[i..];
      ContainsLater(s[1..], needle, i - 1);
    }
  }

  // ---- The queues ----

  type Queues = map<QueueName, seq<RC.Message>>

  /** First in, first out, without loss: what was taken, then what waits, is what was sent, queue by queue. */
  ghost predicate Fifo(queues: Queues, sent: Queues, taken: Queues) {
    && queues.Keys == sent.Keys == taken.Keys
    && forall q | q in queues :: sent[q] == taken[q] + queues[q]
  }

  lemma SentIsWaiting(queues: Queues, sent: Queues, taken: Queues, q: QueueName, m: RC.Message)
    requires Fifo(queues, sent, taken) && q in queues
    ensures Fifo(queues[q := queues[q] + [m]], sent[q := sent[q] + [m]], taken)
  {
    assert sent[q] + [m] == taken[q] + (queues[q] + [m]);
  }

  lemma TakenWasFirst(queues: Queues, sent: Queues, taken: Queues, q: QueueName)
    requires Fifo(queues, sent, taken) && q in queues && queues[q] != []
    ensures Fifo(queues[q := queues[q][1..]], sent, taken[q := taken[q] + [queues[q][0]]])
  {
    assert (taken[q] + [queues[q][0]]) + queues[q][1..] == taken[q] + queues[q];
  }

  /** `sent` and `taken` record everything ever published to and taken from a queue. */
  class InMemoryMessageBroker {
    var queues: map<QueueName, seq<RC.Message>>
    ghost var sent: map<QueueName, seq<RC.Message>>
    ghost var taken: map<QueueName, seq<RC.Message>>

    ghost predicate Valid()
      reads this
    {
      Fifo(queues, sent, taken)
    }

    constructor ()
      ensures Valid() && queues == map[]
    {
      queues, sent, taken := map[], map[], map[];
    }

    method GetQueue(q: QueueName) returns (messages: seq<RC.Message>)
      requires Valid()
      modifies this
      ensures Valid() && q in queues && messages == queues[q]
      ensures if q in old(queues) then queues == old(queues) && sent == old(sent) && taken == old(taken)
              else queues == old(queues)[q := []] && sent == old(sent)[q := []] && taken == old(taken)[q := []]
    {
      if q !in queues {
        queues := queues[q := []];
        sent := sent[q := []];
        taken := taken[q := []];
      }
      messages := queues[q];
    }

    method Publish(exchange: string, key: string, m: RC.Message)
      requires Valid()
      modifies this
      ensures Valid()
      ensures var q, before := Route(exchange, key), old(queues);
              queues == before[q := (if q in before then before[q] else []) + [m]]
      ensures taken ==
              if Route(exchange, key) in old(queues) then old(taken) else old(taken)[Route(exchange, key) := []]
    {
      var q := Route(exchange, key);
      var waiting := GetQueue(q);
      SentIsWaiting(queues, sent, taken, q, m);
      sent := sent[q := sent[q] + [m]];
      queues := queues[q := waiting + [m]];
    }

    method Take(q: QueueName) returns (m: RC.Message)
      requires Valid() && q in queues && queues[q] != []
      modifies this
      ensures Valid() && sent == old(sent)
      ensures m == old(queues)[q][0] && queues == old(queues)[q := old(queues)[q][1..]]
      ensures taken == old(taken)[q := old(taken)[q] + [m]]
    {
      TakenWasFirst(queues, sent, taken, q);
      m := queues[q][0];
      queues := queues[q := queues[q][1..]];
      taken := taken[q := taken[q] + [m]];
    }

    method Clear()
      requires Valid()
      modifies this
      ensures Valid() && queues == map[]
    {
      queues, sent, taken := map[], map[], map[];
    }
  }

  lemma OneMoreConsumed(db: Db, ms: seq<RC.Message>, k: nat)
    requires k < |ms|
    ensures RC.ConsumeAll(db, ms[..k + 1]) == RC.Consume(RC.ConsumeAll(db, ms[..k]), ms[k])
  {
    assert ms[..k + 1][..k] == ms[..k];
  }

  /** Where the loop stands after `k` messages. */
  ghost predicate Progress(
    waiting: seq<RC.Message>, earlier: seq<RC.Message>, before: Db, k: nat, left: seq<RC.Message>,
    taken: seq<RC.Message>, now: Db)
  {
    k <= |waiting| && left == waiting[k..] && taken == earlier + waiting[..k]
        && now == RC.ConsumeAll(before, waiting[..k])
  }

  lemma ProgressStarts(waiting: seq<RC.Message>, earlier: seq<RC.Message>, before: Db)
    ensures Progress(waiting, earlier, before, 0, waiting, earlier, before)
  {
    assert earlier + waiting[..0] == earlier;
  }

  lemma ProgressGoesOn(
    waiting: seq<RC.Message>, earlier: seq<RC.Message>, before: Db, k: nat, left: seq<RC.Message>,
    taken: seq<RC.Message>, now: Db)
    requires Progress(waiting, earlier, before, k, left, taken, now) && left != []
    ensures Progress(waiting, earlier, before, k + 1, left[1..], taken + [left[0]], RC.Consume(now, left[0]))
  {
    OneMoreConsumed(before, waiting, k);
    assert waiting[..k] + [waiting[k]] == waiting[..k + 1];
    assert (earlier + waiting[..k]) + [waiting[k]] == earlier + (waiting[..k] + [waiting[k]]);
  }

  lemma ProgressEnds(
    waiting: seq<RC.Message>, earlier: seq<RC.Message>, before: Db, k: nat, taken: seq<RC.Message>, now: Db)
    requires Progress(waiting, earlier, before, k, [], taken, now)
    ensures k == |waiting| && taken == earlier + waiting && now == RC.ConsumeAll(before, waiting)
  {
    assert |waiting[k..]| == 0;
    assert waiting[..k] == waiting;
  }

  /** The consumer loop hands over the waiting messages one at a time and in order. */
  method ConsumeWaiting(broker: InMemoryMessageBroker, q: QueueName, db: Database)
    requires broker.Valid()
    modifies broker, db
    ensures broker.Valid() && q in broker.queues && broker.queues[q] == []
    ensures q in old(broker.queues) ==> broker.taken[q] == old(broker.taken)[q] + old(broker.queues)[q]
    ensures db.View() == RC.ConsumeAll(old(db.View()), if q in old(broker.queues) then old(broker.queues)[q] else [])
  {
    var waiting := broker.GetQueue(q);
    ghost var before, earlier := db.View(), broker.taken[q];
    ghost var k := 0;
    ProgressStarts(waiting, earlier, before);
    while broker.queues[q] != []
      invariant broker.Valid() && q in broker.queues
      invariant Progress(waiting, earlier, before, k, broker.queues[q], broker.taken[q], db.View())
      decreases |broker.queues[q]|
    {
      ProgressGoesOn(waiting, earlier, before, k, broker.queues[q], broker.taken[q], db.View());
      var m := broker.Take(q);
      RC.HandleIncomingMessage(db, m);
      k := k + 1;
    }
    ProgressEnds(waiting, earlier, before, k, broker.taken[q], db.View());
  }
}
