/** Availability of the connected services (services/integration/service_status_registry.py): one status per
    instance, a cached aggregate per service, and listeners told about its changes. A broker drop relies on
    the retained status messages of MQTT 3.1.1, section 3.3.1.3, being sent again afterwards. */
module ServiceRegistry {
  import opened Wrappers
  import Text

  /** The status texts; MQTT messages carry only the first three, direct callers may pass any text. */
  datatype Status = Online | Offline | Unknown | Other(text: string)

  const ALIASES: map<string, string> := map[
    "admin-api" := "admin", "admin" := "admin", "administration" := "admin", "purchasing" := "admin",
    "ma-api" := "ma", "ma" := "ma", "m7a" := "ma", "mergers" := "ma", "mergers-acquisitions" := "ma",
    "ceo-api" := "ceo", "ceo" := "ceo", "finance" := "finance"]

  function Normalize(raw: string): string {
    var cleaned := Text.Strip(Text.Lower(raw));
    if cleaned in ALIASES then ALIASES[cleaned] else cleaned
  }

  /** Services a broker drop does not affect. */
  predicate Exempt(service: string) { service == "ceo" || service == "finance" }

  lemma AliasesAreStable(name: string)
    requires name in ALIASES
    ensures Normalize(ALIASES[name]) == ALIASES[name]
  {
    var target := ALIASES[name];
    assert target == "admin" || target == "ma" || target == "ceo" || target == "finance";
    assert Text.IsLower(target) && Text.Trimmed(target);
    Text.LowerOfLower(target);
    Text.StripOfTrimmed(target);
  }

  /** Names are normalised twice on the way into the cache; the second time changes nothing. */
  lemma NormalizeTwice(raw: string)
    ensures Normalize(Normalize(raw)) == Normalize(raw)
  {
    var lower := Text.Lower(raw);
    var cleaned := Text.Strip(lower);
    if cleaned in ALIASES {
      AliasesAreStable(cleaned);
    } else {
      var notUpper := (c: char) => !('A' <= c <= 'Z');
      assert Text.Every(lower, notUpper);
      Text.StripTrims(lower, notUpper);
      assert forall i | 0 <= i < |cleaned| :: notUpper(cleaned[i]);
      Text.LowerOfLower(cleaned);
      Text.StripOfTrimmed(cleaned);
    }
  }

  // ---- One step ----

  type Instances = map<string, Status>

  function Aggregate(instances: Instances): Status {
    if instances == map[] then Unknown
    else if exists i :: i in instances && instances[i] == Online then Online
    else if forall i :: i in instances ==> instances[i] == Offline then Offline
    else Unknown
  }

  datatype Event = Update(service: string, instance: string, status: Status) | Drop

  datatype Entry = Entry(instances: Instances, cached: Option<Status>, told: seq<Status>)

  /** What one event does to what the registry holds for the (normalised) service `s`: `told` are the statuses
      the listeners were called with for it. */
  function StepFor(s: string, e: Entry, event: Event): Entry {
    match event
    case Update(service, instance, status) =>
      if Normalize(service) != s then e
      else
        var instances := e.instances[instance := status];
        var before, after := if e.cached.Some? then e.cached.value else Unknown, Aggregate(instances);
        Entry(instances, Some(after), if before == after then e.told else e.told + [after])
    case Drop =>
      if Exempt(s) || e.cached.None? || e.cached.value == Unknown then e
      else Entry(e.instances, Some(Unknown), e.told + [Unknown])
  }

  const EMPTY := Entry(map[], None, [])

  function RunFor(s: string, history: seq<Event>): Entry {
    if history == [] then EMPTY else StepFor(s, RunFor(s, history[..|history| - 1]), history[|history| - 1])
  }

  // ---- The history, read backwards ----

  /** The last status reported for an instance. */
  function LastStatus(s: string, history: seq<Event>, instance: string): Option<Status> {
    if history == [] then None
    else match history[|history| - 1]
      case Update(service, i, status) =>
        if Normalize(service) == s && i == instance then Some(status)
        else LastStatus(s, history[..|history| - 1], instance)
      case Drop => LastStatus(s, history[..|history| - 1], instance)
  }

  predicate HeardOf(s: string, history: seq<Event>) {
    exists k :: 0 <= k < |history| && history[k].Update? && Normalize(history[k].service) == s
  }

  /** Some instance has reported since the last broker drop, or drops do not matter for the service. */
  function Fresh(s: string, history: seq<Event>): bool {
    if history == [] then false
    else match history[|history| - 1]
      case Update(service, _, _) => Normalize(service) == s || Fresh(s, history[..|history| - 1])
      case Drop => Exempt(s) && Fresh(s, history[..|history| - 1])
  }

  ghost function AggregateOfLast(s: string, history: seq<Event>): Status {
    if exists i :: LastStatus(s, history, i) == Some(Online) then Online
    else if (exists i :: LastStatus(s, history, i).Some?)
         && (forall i | LastStatus(s, history, i).Some? :: LastStatus(s, history, i) == Some(Offline)) then Offline
    else Unknown
  }

  lemma {:induction false} InstancesAreLastStatuses(s: string, history: seq<Event>)
    ensures forall i :: LastStatus(s, history, i) ==
                        if i in RunFor(s, history).instances then Some(RunFor(s, history).instances[i]) else None
  {
    if history != [] {
      InstancesAreLastStatuses(s, history[..|history| - 1]);
    }
  }

  lemma AggregateAgrees(s: string, history: seq<Event>)
    ensures Aggregate(RunFor(s, history).instances) == AggregateOfLast(s, history)
  {
    InstancesAreLastStatuses(s, history);
    var instances := RunFor(s, history).instances;
    assert forall i :: i in instances <==> LastStatus(s, history, i).Some?;
    if instances != map[] {
      var i :| i in instances;
      assert LastStatus(s, history, i).Some?;
    }
    if exists i :: i in instances && instances[i] == Online {
      var i :| i in instances && instances[i] == Online;
      assert LastStatus(s, history, i) == Some(Online);
    }
  }

  /** Main result: after any updates and drops, a service that was never heard of has no cached status; otherwise it is
      the aggregate of each instance's last status if some instance reported since the last drop, and unknown if not. */
  lemma {:induction false} CacheAgreesWithHistory(s: string, history: seq<Event>)
    ensures RunFor(s, history).cached ==
            if !HeardOf(s, history) then None
            else if Fresh(s, history) then Some(AggregateOfLast(s, history))
            else Some(Unknown)
  {
    if history != [] {
      var front, last := history[..|history| - 1], history[|history| - 1];
      CacheAgreesWithHistory(s, front);
      AggregateAgrees(s, history);
      assert HeardOf(s, front) ==> HeardOf(s, history) by {
        if HeardOf(s, front) {
          var k :| 0 <= k < |front| && front[k].Update? && Normalize(front[k].service) == s;
          assert history[k] == front[k];
        }
      }
      if last.Update? && Normalize(last.service) == s {
        assert history[|history| - 1].Update?;
      } else {
        assert HeardOf(s, history) ==> HeardOf(s, front) by {
          if HeardOf(s, history) {
            var k :| 0 <= k < |history| && history[k].Update? && Normalize(history[k].service) == s;
            assert k < |front| && history[k] == front[k];
          }
        }
        AggregateAgrees(s, front);
        InstancesAreLastStatuses(s, front);
        FreshWasHeard(s, front);
      }
    }
  }

  lemma {:induction false} FreshWasHeard(s: string, history: seq<Event>)
    ensures Fresh(s, history) ==> HeardOf(s, history)
  {
    if history != [] {
      var front := history[..|history| - 1];
      FreshWasHeard(s, front);
      if HeardOf(s, front) {
        var k :| 0 <= k < |front| && front[k].Update? && Normalize(front[k].service) == s;
        assert history[k] == front[k];
      }
    }
  }

  /** Starting from unknown, every notification is a change, and the last one is the current status. */
  ghost predicate ChangesFromUnknown(told: seq<Status>, current: Option<Status>) {
    && (told != [] ==> told[0] != Unknown)
    && (forall i | 0 < i < |told| :: told[i] != told[i - 1])
    && (if current.Some? then current.value else Unknown) == if told == [] then Unknown else told[|told| - 1]
  }

  lemma StepKeepsChain(s: string, e: Entry, event: Event)
    requires ChangesFromUnknown(e.told, e.cached)
    ensures ChangesFromUnknown(StepFor(s, e, event).told, StepFor(s, e, event).cached)
  {
    var next := StepFor(s, e, event);
    assert forall i | 0 <= i < |e.told| :: next.told[i] == e.told[i];
  }

  lemma {:induction false} NotificationsFormAChain(s: string, history: seq<Event>)
    ensures ChangesFromUnknown(RunFor(s, history).told, RunFor(s, history).cached)
  {
    if history != [] {
      NotificationsFormAChain(s, history[..|history| - 1]);
      StepKeepsChain(s, RunFor(s, history[..|history| - 1]), history[|history| - 1]);
    }
  }

  // ---- Replay after a drop ----

  /** Updates of one service that repeat, for every instance known before, its last status; in any order. */
  ghost predicate Replays(s: string, before: seq<Event>, replay: seq<Event>) {
    && replay != []
    && (forall k | 0 <= k < |replay| :: replay[k].Update? && Normalize(replay[k].service) == s)
    && (forall k | 0 <= k < |replay| :: LastStatus(s, before, replay[k].instance) == Some(replay[k].status))
  }

  lemma LastOfReplay(before: seq<Event>, replay: seq<Event>)
    ensures (before + [Drop] + replay)[..|before + [Drop] + replay| - 1] ==
            if replay == [] then before else before + [Drop] + replay[..|replay| - 1]
    ensures (before + [Drop] + replay)[|before + [Drop] + replay| - 1] ==
            if replay == [] then Drop else replay[|replay| - 1]
  {
  }

  lemma {:induction false} ReplayKeepsLast(s: string, before: seq<Event>, replay: seq<Event>, i: string)
    requires forall k | 0 <= k < |replay| :: replay[k].Update? && Normalize(replay[k].service) == s
    requires forall k | 0 <= k < |replay| :: LastStatus(s, before, replay[k].instance) == Some(replay[k].status)
    ensures LastStatus(s, before + [Drop] + replay, i) == LastStatus(s, before, i)
    ensures replay != [] ==> Fresh(s, before + [Drop] + replay)
  {
    LastOfReplay(before, replay);
    if replay != [] {
      ReplayKeepsLast(s, before, replay[..|replay| - 1], i);
    }
  }

  lemma SameLastSameAggregate(s: string, a: seq<Event>, b: seq<Event>)
    requires forall i :: LastStatus(s, a, i) == LastStatus(s, b, i)
    ensures AggregateOfLast(s, a) == AggregateOfLast(s, b)
  {
    if i :| LastStatus(s, a, i) == Some(Online) {
      assert LastStatus(s, b, i) == Some(Online);
    }
    if i :| LastStatus(s, a, i).Some? {
      assert LastStatus(s, b, i).Some?;
    }
  }

  /** After a drop, the retained messages restore the aggregate of the statuses known before it, in whatever order
      they arrive. */
  lemma ReplayRestoresAggregate(s: string, before: seq<Event>, replay: seq<Event>)
    requires Replays(s, before, replay)
    ensures RunFor(s, before + [Drop] + replay).cached == Some(AggregateOfLast(s, before))
    ensures Fresh(s, before) ==> RunFor(s, before + [Drop] + replay).cached == RunFor(s, before).cached
  {
    var all := before + [Drop] + replay;
    CacheAgreesWithHistory(s, all);
    CacheAgreesWithHistory(s, before);
    forall i ensures LastStatus(s, all, i) == LastStatus(s, before, i) {
      ReplayKeepsLast(s, before, replay, i);
    }
    ReplayKeepsLast(s, before, replay, "");
    FreshWasHeard(s, all);
    FreshWasHeard(s, before);
    SameLastSameAggregate(s, all, before);
  }

  // ---- The registry ----

  /** The registry's three fields; `told` is what the listeners were called with. */
  datatype Book = Book(instances: map<string, Instances>, effective: map<string, Status>, told: seq<(string, Status)>)

  function ToldAbout(s: string, calls: seq<(string, Status)>): seq<Status> {
    if calls == [] then []
    else ToldAbout(s, calls[..|calls| - 1]) + if calls[|calls| - 1].0 == s then [calls[|calls| - 1].1] else []
  }

  function InstancesOf(b: Book, s: string): Instances {
    if s in b.instances then b.instances[s] else map[]
  }

  function CachedOr(b: Book, s: string): Status {
    if s in b.effective then b.effective[s] else Unknown
  }

  ghost function EntryFor(b: Book, s: string): Entry {
    Entry(InstancesOf(b, s), if s in b.effective then Some(b.effective[s]) else None, ToldAbout(s, b.told))
  }

  function SetStatus(b: Book, name: string, status: Status): Book {
    b.(effective := b.effective[name := status],
       told := if CachedOr(b, name) == status then b.told else b.told + [(name, status)])
  }

  function Updated(b: Book, name: string, instance: string, status: Status): Book {
    var found := InstancesOf(b, name)[instance := status];
    SetStatus(b.(instances := b.instances[name := found]), name, Aggregate(found))
  }

  lemma SetStatusEntry(b: Book, name: string, status: Status, s: string)
    ensures EntryFor(SetStatus(b, name, status), s) ==
            if s != name then EntryFor(b, s)
            else Entry(InstancesOf(b, s), Some(status), ToldAbout(s, b.told)
                                                                + if CachedOr(b, s) == status then [] else [status])
  {
    assert (b.told + [(name, status)])[..|b.told|] == b.told;
  }

  lemma UpdatedEntry(b: Book, service: string, instance: string, status: Status, s: string)
    ensures EntryFor(Updated(b, Normalize(service), instance, status), s) ==
            StepFor(s, EntryFor(b, s), Update(service, instance, status))
  {
    var name := Normalize(service);
    var found := InstancesOf(b, name)[instance := status];
    SetStatusEntry(b.(instances := b.instances[name := found]), name, Aggregate(found), s);
  }

  function Dropped(b: Book, names: seq<string>): Book {
    if names == [] then b
    else
      var before, s := Dropped(b, names[..|names| - 1]), names[|names| - 1];
      if Exempt(s) || CachedOr(before, s) == Unknown then before else SetStatus(before, s, Unknown)
  }

  lemma {:induction false} DroppedEntry(b: Book, names: seq<string>, s: string)
    requires forall x | x in names :: x in b.effective
    ensures Dropped(b, names).effective.Keys == b.effective.Keys
    ensures EntryFor(Dropped(b, names), s) == if s in names then StepFor(s, EntryFor(b, s), Drop) else EntryFor(b, s)
  {
    if names != [] {
      var front, last := names[..|names| - 1], names[|names| - 1];
      assert names == front + [last] && last in names;
      DroppedEntry(b, front, s);
      DroppedEntry(b, front, last);
      SetStatusEntry(Dropped(b, front), last, Unknown, s);
    }
  }

  class ServiceStatusRegistry {
    var instances: map<string, Instances>
    var effective: map<string, Status>
    var told: seq<(string, Status)>

    function View(): Book
      reads this
    {
      Book(instances, effective, told)
    }

    constructor ()
      ensures forall s :: EntryFor(View(), s) == EMPTY
    {
      instances, effective, told := map[], map[], [];
    }

    method NotifyStatusChange(service: string, status: Status)
      modifies this`told
      ensures told == old(told) + [(service, status)]
    {
      told := told + [(service, status)];
    }

    method Recalculate(service: string)
      modifies this`effective, this`told
      ensures View() == SetStatus(old(View()), Normalize(service),
              Aggregate(InstancesOf(old(View()), Normalize(service))))
    {
      var name := Normalize(service);
      var found := if name in instances then instances[name] else map[];
      var before := if name in effective then effective[name] else Unknown;
      var after := Unknown;
      if found != map[] {
        if exists i :: i in found && found[i] == Online {
          after := Online;
        } else if forall i :: i in found ==> found[i] == Offline {
          after := Offline;
        }
      }
      effective := effective[name := after];
      if before != after {
        NotifyStatusChange(name, after);
      }
    }

    method UpdateInstanceStatus(service: string, instance: string, status: Status)
      modifies this
      ensures forall s :: EntryFor(View(), s) == StepFor(s, old(EntryFor(View(), s)), Update(service, instance, status))
    {
      ghost var before := View();
      var name := Normalize(service);
      NormalizeTwice(service);
      if name !in instances {
        instances := instances[name := map[]];
      }
      instances := instances[name := instances[name][instance := status]];
      Recalculate(name);
      assert View() == Updated(before, name, instance, status);
      forall s ensures EntryFor(View(), s) == StepFor(s, EntryFor(before, s), Update(service, instance, status)) {
        UpdatedEntry(before, service, instance, status, s);
      }
    }

    /** The broker connection is lost; `names` is a snapshot of the cached services. */
    method HandleDisconnect(names: seq<string>)
      requires forall s :: s in names <==> s in effective
      modifies this`effective, this`told
      ensures forall s :: EntryFor(View(), s) == StepFor(s, old(EntryFor(View(), s)), Drop)
    {
      ghost var before := View();
      for k := 0 to |names|
        invariant View() == Dropped(before, names[..k])
      {
        var s := names[k];
        assert names[..k + 1][..k] == names[..k];
        assert s in before.effective;
        DroppedEntry(before, names[..k], s);
        if s != "ceo" && s != "finance" {
          var status := effective[s];
          if status != Unknown {
            effective := effective[s := Unknown];
            NotifyStatusChange(s, Unknown);
          }
        }
      }
      assert names[..|names|] == names;
      forall s ensures EntryFor(View(), s) == StepFor(s, EntryFor(before, s), Drop) {
        DroppedEntry(before, names, s);
      }
    }
  }
}
