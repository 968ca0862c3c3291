/** The role hierarchy (services/shared/rbac_service.py): parent edits guarded by a recursive query. */
module RoleHierarchy {
  import opened Wrappers

  type Id = nat

  datatype Role = Role(code: string, name: string, parent: Option<Id>, isSystem: bool, isActive: bool, deleted: bool)

  type Roles = map<Id, Role>

  // ---- Ancestors ----

  function ParentOf(roles: Roles, x: Id): Option<Id> {
    if x in roles then roles[x].parent else None
  }

  /** The role `n` steps above `x`. */
  function Up(roles: Roles, x: Id, n: nat): Option<Id>
    decreases n
  {
    if n == 0 then Some(x)
    else match ParentOf(roles, x)
      case None => None
      case Some(p) => Up(roles, p, n - 1)
  }

  /** The foreign key: a parent is a row of the table. */
  ghost predicate Closed(roles: Roles) {
    forall x | x in roles && roles[x].parent.Some? :: roles[x].parent.value in roles
  }

  ghost predicate Acyclic(roles: Roles) {
    forall x: Id, n: nat | n > 0 :: Up(roles, x, n) != Some(x)
  }

  /** `x` is a proper descendant of `r`. */
  ghost predicate Below(roles: Roles, r: Id, x: Id) {
    exists n: nat :: n > 0 && Up(roles, x, n) == Some(r)
  }

  lemma {:induction false} UpUp(roles: Roles, x: Id, m: nat, n: nat)
    requires Up(roles, x, m).Some?
    ensures Up(roles, x, m + n) == Up(roles, Up(roles, x, m).value, n)
    decreases m
  {
    if m > 0 {
      UpUp(roles, ParentOf(roles, x).value, m - 1, n);
    }
  }

  lemma {:induction false} UpStops(roles: Roles, x: Id, m: nat, n: nat)
    requires m <= n && Up(roles, x, m).None?
    ensures Up(roles, x, n).None?
    decreases m
  {
    if m > 0 && ParentOf(roles, x).Some? {
      UpStops(roles, ParentOf(roles, x).value, m - 1, n - 1);
    }
  }

  // ---- The recursive query ----

  function ChildrenOf(roles: Roles, parents: set<Id>): set<Id> {
    set x | x in roles && roles[x].parent.Some? && roles[x].parent.value in parents
  }

  ghost function Level(roles: Roles, r: Id, k: nat): set<Id> {
    set x | x in roles && Up(roles, x, k) == Some(r)
  }

  lemma NextLevel(roles: Roles, r: Id, k: nat)
    requires k > 0
    ensures ChildrenOf(roles, Level(roles, r, k)) == Level(roles, r, k + 1)
  {
    forall x | x in roles && Up(roles, x, k + 1) == Some(r)
      ensures x in ChildrenOf(roles, Level(roles, r, k))
    {
      var p := roles[x].parent.value;
      assert Up(roles, p, k) == Some(r);
      assert p in roles;
    }
  }

  lemma LevelsAreApart(roles: Roles, r: Id, j: nat, k: nat)
    requires Acyclic(roles) && j < k
    ensures Level(roles, r, j) !! Level(roles, r, k)
  {
    forall x | x in Level(roles, r, j) && x in Level(roles, r, k)
      ensures false
    {
      UpUp(roles, x, j, k - j);
    }
  }

  lemma LevelsFillUp(roles: Roles, r: Id, k: nat, x: Id, n: nat)
    requires 0 < k <= n && Up(roles, x, n) == Some(r)
    ensures Level(roles, r, k) != {}
  {
    if Up(roles, x, n - k).None? {
      UpStops(roles, x, n - k, n);
    } else {
      UpUp(roles, x, n - k, k);
      assert Up(roles, x, n - k).value in Level(roles, r, k);
    }
  }

  /** The levels up to `k`. */
  ghost predicate Collected(roles: Roles, r: Id, k: nat, ids: set<Id>) {
    forall x :: x in ids <==> exists j: nat :: 0 < j <= k && x in Level(roles, r, j)
  }

  lemma NextIsNew(roles: Roles, r: Id, k: nat, ids: set<Id>)
    requires Acyclic(roles) && k > 0 && Collected(roles, r, k, ids)
    ensures Level(roles, r, k + 1) !! ids && Collected(roles, r, k + 1, ids + Level(roles, r, k + 1))
  {
    forall j: nat | 0 < j <= k ensures Level(roles, r, j) !! Level(roles, r, k + 1) {
      LevelsAreApart(roles, r, j, k + 1);
    }
  }

  lemma CollectedIsBelow(roles: Roles, r: Id, k: nat, ids: set<Id>, x: Id)
    requires k > 0 && Level(roles, r, k) == {} && Collected(roles, r, k, ids)
    ensures x in ids <==> Below(roles, r, x)
  {
    if Below(roles, r, x) {
      var n: nat :| n > 0 && Up(roles, x, n) == Some(r);
      if n >= k {
        LevelsFillUp(roles, r, k, x, n);
      }
      assert x in Level(roles, r, n);
    }
  }

  lemma FirstLevel(roles: Roles, r: Id)
    ensures ChildrenOf(roles, {r}) == Level(roles, r, 1) && Collected(roles, r, 1, Level(roles, r, 1))
  {
    assert forall x | x in roles && roles[x].parent.Some? :: Up(roles, x, 1) == Up(roles, roles[x].parent.value, 0);
  }

  /** WITH RECURSIVE: children of the working rows until there are none. On an acyclic table it stops, and
      what it has collected are exactly the proper descendants of `r`. */
  method Descendants(roles: Roles, r: Id) returns (ids: set<Id>)
    requires Acyclic(roles)
    ensures forall x :: x in ids <==> Below(roles, r, x)
  {
    var working := ChildrenOf(roles, {r});
    ids := working;
    ghost var k: nat := 1;
    FirstLevel(roles, r);
    while working != {}
      invariant k > 0 && working == Level(roles, r, k) && Collected(roles, r, k, ids)
      decreases roles.Keys - ids, working != {}
    {
      NextLevel(roles, r, k);
      NextIsNew(roles, r, k, ids);
      var next := ChildrenOf(roles, working);
      assert next != {} ==> exists x :: x in next && x in roles.Keys - ids;
      working := next;
      ids := ids + next;
      k := k + 1;
    }
    forall x ensures x in ids <==> Below(roles, r, x) {
      CollectedIsBelow(roles, r, k, ids, x);
    }
  }

  // ---- Moving a role ----

  function Reparent(roles: Roles, r: Id, parent: Option<Id>): Roles
    requires r in roles
  {
    roles[r := roles[r].(parent := parent)]
  }

  ghost predicate Avoids(roles: Roles, x: Id, n: nat, r: Id) {
    forall j: nat | j < n :: Up(roles, x, j) != Some(r)
  }

  /** A path that does not pass through `r` is the same when only `r` has moved. */
  lemma {:induction false} AvoidingPathIsSame(roles: Roles, moved: Roles, x: Id, n: nat, r: Id)
    requires forall y | y != r :: ParentOf(roles, y) == ParentOf(moved, y)
    requires Avoids(roles, x, n, r) || Avoids(moved, x, n, r)
    ensures Up(roles, x, n) == Up(moved, x, n)
    decreases n
  {
    if n > 0 {
      assert Up(roles, x, 0) == Some(x) && Up(moved, x, 0) == Some(x);
      assert x != r;
      var p := ParentOf(roles, x);
      if p.Some? {
        assert forall j: nat | j < n - 1 :: Up(roles, p.value, j) == Up(roles, x, j + 1);
        assert forall j: nat | j < n - 1 :: Up(moved, p.value, j) == Up(moved, x, j + 1);
        AvoidingPathIsSame(roles, moved, p.value, n - 1, r);
      }
    }
  }

  /** The first time a path meets `r`. */
  lemma FirstMeeting(roles: Roles, x: Id, n: nat, r: Id) returns (m: nat)
    requires Up(roles, x, n) == Some(r)
    ensures m <= n && Up(roles, x, m) == Some(r) && Avoids(roles, x, m, r)
  {
    m := 0;
    while Up(roles, x, m) != Some(r)
      invariant m <= n && Avoids(roles, x, m, r)
      decreases n - m
    {
      m := m + 1;
    }
  }

  /** `p` is `r` or one of its descendants. */
  ghost predicate AtOrBelow(roles: Roles, r: Id, p: Id) {
    p == r || Below(roles, r, p)
  }

  /** Exactness of the guard: a move creates a cycle if and only if the new parent is the role itself or one of
      its descendants. */
  lemma MoveIsSafeIff(roles: Roles, r: Id, p: Id)
    requires Acyclic(roles) && r in roles
    ensures Acyclic(Reparent(roles, r, Some(p))) <==> !AtOrBelow(roles, r, p)
  {
    var moved := Reparent(roles, r, Some(p));
    if AtOrBelow(roles, r, p) {
      var n: nat := if p == r then 0 else var n: nat :| n > 0 && Up(roles, p, n) == Some(r); n;
      var m := FirstMeeting(roles, p, n, r);
      AvoidingPathIsSame(roles, moved, p, m, r);
      assert Up(moved, r, m + 1) == Some(r);
    } else {
      forall x: Id, n: nat | n > 0 ensures Up(moved, x, n) != Some(x) {
        NoNewCycle(roles, r, Some(p), x, n);
      }
    }
  }

  lemma NoNewCycle(roles: Roles, r: Id, parent: Option<Id>, x: Id, n: nat)
    requires Acyclic(roles) && r in roles && n > 0
    requires parent.Some? ==> !AtOrBelow(roles, r, parent.value)
    ensures Up(Reparent(roles, r, parent), x, n) != Some(x)
  {
    var moved := Reparent(roles, r, parent);
    if Up(moved, x, n) == Some(x) {
      if Avoids(moved, x, n, r) {
        AvoidingPathIsSame(roles, moved, x, n, r);
      } else {
        var j: nat :| j < n && Up(moved, x, j) == Some(r);
        UpUp(moved, x, j, n - j);
        UpUp(moved, r, n - j, j);
        assert Up(moved, r, n) == Some(r);
        if parent.Some? {
          var m := FirstMeeting(moved, parent.value, n - 1, r);
          AvoidingPathIsSame(roles, moved, parent.value, m, r);
        }
      }
    }
  }

  lemma DetachKeepsAcyclic(roles: Roles, r: Id)
    requires Acyclic(roles) && r in roles
    ensures Acyclic(Reparent(roles, r, None))
  {
    forall x: Id, n: nat | n > 0 ensures Up(Reparent(roles, r, None), x, n) != Some(x) {
      NoNewCycle(roles, r, None, x, n);
    }
  }

  // ---- Adding a role ----

  lemma {:induction false} UpStaysInside(roles: Roles, role: Role, id: Id, x: Id, n: nat)
    requires Closed(roles) && id !in roles && x in roles
    ensures Up(roles[id := role], x, n) == Up(roles, x, n)
    ensures Up(roles, x, n).Some? ==> Up(roles, x, n).value in roles
    decreases n
  {
    if n > 0 && roles[x].parent.Some? {
      UpStaysInside(roles, role, id, roles[x].parent.value, n - 1);
    }
  }

  lemma AddKeepsAcyclic(roles: Roles, id: Id, role: Role)
    requires Closed(roles) && Acyclic(roles) && id !in roles
    requires role.parent.Some? ==> role.parent.value in roles
    ensures Acyclic(roles[id := role])
  {
    var more := roles[id := role];
    forall x: Id, n: nat | n > 0 ensures Up(more, x, n) != Some(x) {
      if x in roles {
        UpStaysInside(roles, role, id, x, n);
      } else if x == id && role.parent.Some? {
        UpStaysInside(roles, role, id, role.parent.value, n - 1);
      }
    }
  }

  // ---- The service ----

  /** Fields a caller sent; an absent one is left alone, and the parent may be set to NULL. */
  datatype RoleUpdate = RoleUpdate(name: Option<string>, isActive: Option<bool>, parent: Option<Option<Id>>)

  datatype Outcome = Done | NotFound | OwnParent | UnderDescendant | NoSuchParent | CodeTaken | SystemRole

  datatype Op =
    | Create(id: Id, role: Role)
    | Update(target: Id, update: RoleUpdate)
    | Delete(target: Id)

  predicate ForeignKeyFails(roles: Roles, parent: Option<Id>) {
    parent.Some? && parent.value !in roles
  }

  function WithUpdate(role: Role, u: RoleUpdate): Role {
    role.(name := if u.name.Some? then u.name.value else role.name,
          isActive := if u.isActive.Some? then u.isActive.value else role.isActive,
          parent := if u.parent.Some? then u.parent.value else role.parent)
  }

  /** What each transaction answers. */
  ghost function Answer(roles: Roles, op: Op): Outcome {
    match op
    case Create(id, role) =>
      if exists x :: x in roles && roles[x].code == role.code then CodeTaken
      else if ForeignKeyFails(roles, role.parent) then NoSuchParent
      else Done
    case Update(r, u) =>
      if r !in roles || roles[r].deleted then NotFound
      else if u.parent.Some? && u.parent.value == Some(r) then OwnParent
      else if u.parent.Some? && u.parent.value.Some? && Below(roles, r, u.parent.value.value) then UnderDescendant
      else if u.parent.Some? && ForeignKeyFails(roles, u.parent.value) then NoSuchParent
      else Done
    case Delete(r) =>
      if r !in roles || roles[r].deleted then NotFound
      else if roles[r].isSystem then SystemRole
      else Done
  }

  ghost function Apply(roles: Roles, op: Op): Roles {
    if Answer(roles, op) != Done then roles
    else match op
      case Create(id, role) => roles[id := role.(deleted := false)]
      case Update(r, u) => roles[r := WithUpdate(roles[r], u)]
      case Delete(r) => roles[r := roles[r].(deleted := true, isActive := false)]
  }

  /** New rows get a fresh generated id. */
  ghost predicate FreshId(roles: Roles, op: Op) {
    op.Create? ==> op.id !in roles
  }

  ghost predicate Forest(roles: Roles) { Closed(roles) && Acyclic(roles) }

  lemma {:induction false} SameParentsSameUp(a: Roles, b: Roles, x: Id, n: nat)
    requires forall y: Id :: ParentOf(a, y) == ParentOf(b, y)
    ensures Up(a, x, n) == Up(b, x, n)
    decreases n
  {
    if n > 0 && ParentOf(a, x).Some? {
      SameParentsSameUp(a, b, ParentOf(a, x).value, n - 1);
    }
  }

  lemma SameParentsForest(a: Roles, b: Roles)
    requires Forest(a) && a.Keys == b.Keys && forall y: Id :: ParentOf(a, y) == ParentOf(b, y)
    ensures Forest(b)
  {
    forall x | x in b && b[x].parent.Some? ensures b[x].parent.value in b {
      assert ParentOf(a, x) == ParentOf(b, x);
    }
    forall x: Id, n: nat | n > 0 ensures Up(b, x, n) != Some(x) {
      SameParentsSameUp(a, b, x, n);
    }
  }

  lemma StepKeepsForest(roles: Roles, op: Op)
    requires Forest(roles) && FreshId(roles, op)
    ensures Forest(Apply(roles, op))
  {
    var next := Apply(roles, op);
    if Answer(roles, op) == Done {
      match op {
        case Create(id, role) =>
          AddKeepsAcyclic(roles, id, role.(deleted := false));
        case Delete(r) =>
          SameParentsForest(roles, next);
        case Update(r, u) =>
          if u.parent.Some? {
            var moved := Reparent(roles, r, u.parent.value);
            if u.parent.value.Some? {
              MoveIsSafeIff(roles, r, u.parent.value.value);
            } else {
              DetachKeepsAcyclic(roles, r);
            }
            SameParentsForest(moved, next);
          } else {
            SameParentsForest(roles, next);
          }
      }
    }
  }

  ghost function Run(roles: Roles, ops: seq<Op>): Roles {
    if ops == [] then roles else Apply(Run(roles, ops[..|ops| - 1]), ops[|ops| - 1])
  }

  ghost predicate FreshIds(roles: Roles, ops: seq<Op>) {
    forall i | 0 <= i < |ops| :: FreshId(Run(roles, ops[..i]), ops[i])
  }

  /** Main result: from an acyclic table every run of create, update and delete transactions, one at a time,
      leaves it acyclic, with every parent present. */
  lemma {:induction false} EveryRunStaysForest(roles: Roles, ops: seq<Op>)
    requires Forest(roles) && FreshIds(roles, ops)
    ensures Forest(Run(roles, ops))
  {
    if ops != [] {
      var front := ops[..|ops| - 1];
      forall i | 0 <= i < |front| ensures FreshId(Run(roles, front[..i]), front[i]) {
        assert front[..i] == ops[..i];
      }
      EveryRunStaysForest(roles, front);
      StepKeepsForest(Run(roles, front), ops[|ops| - 1]);
    }
  }

  // ---- Moves that overlap ----

  lemma UnmetPathIsSame(roles: Roles, a: Id, parent: Option<Id>, x: Id, n: nat)
    requires a in roles && !AtOrBelow(roles, a, x)
    ensures Up(roles, x, n) == Up(Reparent(roles, a, parent), x, n)
  {
    assert Avoids(roles, x, n, a) by {
      forall j: nat | j < n ensures Up(roles, x, j) != Some(a) {
        assert j > 0 && Up(roles, x, j) == Some(a) ==> Below(roles, a, x);
      }
    }
    AvoidingPathIsSame(roles, Reparent(roles, a, parent), x, n, a);
  }

  lemma ReachesBack(roles: Roles, r: Id, x: Id) returns (n: nat)
    requires AtOrBelow(roles, r, x)
    ensures Up(roles, x, n) == Some(r)
  {
    if x == r {
      n := 0;
    } else {
      n :| n > 0 && Up(roles, x, n) == Some(r);
    }
  }

  /** After `a` has moved under `p`, `q` is at or below `b` exactly if `p` is below `b` and `q` below `a` (or equal). */
  lemma BelowAfterMove(roles: Roles, a: Id, p: Id, b: Id, q: Id)
    requires Acyclic(roles) && a in roles && a != b
    requires !AtOrBelow(roles, a, p) && !AtOrBelow(roles, b, q)
    ensures AtOrBelow(Reparent(roles, a, Some(p)), b, q) <==> AtOrBelow(roles, b, p) && AtOrBelow(roles, a, q)
  {
    var one := Reparent(roles, a, Some(p));
    if AtOrBelow(roles, b, p) && AtOrBelow(roles, a, q) {
      var n := ReachesBack(roles, b, p);
      UnmetPathIsSame(roles, a, Some(p), p, n);
      var k := ReachesBack(roles, a, q);
      var m := FirstMeeting(roles, q, k, a);
      AvoidingPathIsSame(roles, one, q, m, a);
      UpUp(one, q, m, n + 1);
      assert Up(one, a, n + 1) == Some(b);
    }
    if AtOrBelow(one, b, q) {
      var n := ReachesBack(one, b, q);
      if Avoids(one, q, n, a) {
        AvoidingPathIsSame(roles, one, q, n, a);
        assert n > 0 ==> Below(roles, b, q);
      } else {
        var k: nat :| k < n && Up(one, q, k) == Some(a);
        var j := FirstMeeting(one, q, k, a);
        AvoidingPathIsSame(roles, one, q, j, a);
        UpUp(one, q, j, n - j);
        UnmetPathIsSame(roles, a, Some(p), p, n - j - 1);
        assert Up(roles, p, n - j - 1) == Some(b) && Up(roles, q, j) == Some(a);
      }
    }
  }

  /** The guard reads the table without a lock. Two moves that both passed it on the same table close a cycle
      exactly when each one moves its role to or below the other's role. */
  lemma OverlappingMoves(roles: Roles, a: Id, p: Id, b: Id, q: Id)
    requires Acyclic(roles) && a in roles && b in roles && a != b
    requires !AtOrBelow(roles, a, p) && !AtOrBelow(roles, b, q)
    ensures Acyclic(Reparent(Reparent(roles, a, Some(p)), b, Some(q)))
            <==> !(AtOrBelow(roles, b, p) && AtOrBelow(roles, a, q))
  {
    MoveIsSafeIff(roles, a, p);
    MoveIsSafeIff(Reparent(roles, a, Some(p)), b, q);
    BelowAfterMove(roles, a, p, b, q);
  }

  function TwoRoots(): Roles {
    map[0 := Role("A", "A", None, false, true, false), 1 := Role("B", "B", None, false, true, false)]
  }

  /** Two roots, each moved under the other at the same time: both moves pass the guard, and together they close a
      cycle. */
  lemma TwoRootsCycle()
    ensures Acyclic(TwoRoots()) && !AtOrBelow(TwoRoots(), 0, 1) && !AtOrBelow(TwoRoots(), 1, 0)
    ensures !Acyclic(Reparent(Reparent(TwoRoots(), 0, Some(1)), 1, Some(0)))
  {
    forall x: Id, n: nat | n > 0 ensures Up(TwoRoots(), x, n) == None {
    }
    var after := Reparent(Reparent(TwoRoots(), 0, Some(1)), 1, Some(0));
    assert Up(after, 0, 1) == Up(after, 1, 0) == Some(1);
    assert Up(after, 0, 2) == Up(after, 1, 1) == Up(after, 0, 0) == Some(0);
  }

  class RoleStore {
    var roles: Roles

    ghost predicate Valid()
      reads this
    {
      Forest(roles)
    }

    constructor ()
      ensures Valid() && roles == map[]
    {
      roles := map[];
      new;
      assert forall x: Id, n: nat | n > 0 :: Up(map[], x, n) == None;
    }

    method CreateRole(id: Id, role: Role) returns (outcome: Outcome)
      requires Valid() && id !in roles
      modifies this
      ensures Valid()
      ensures outcome == Answer(old(roles), Create(id, role)) && roles == Apply(old(roles), Create(id, role))
    {
      StepKeepsForest(roles, Create(id, role));
      if exists x :: x in roles && roles[x].code == role.code {
        return CodeTaken;
      }
      if ForeignKeyFails(roles, role.parent) {
        return NoSuchParent;
      }
      roles := roles[id := role.(deleted := false)];
      outcome := Done;
    }

    method UpdateRole(r: Id, update: RoleUpdate) returns (outcome: Outcome)
      requires Valid()
      modifies this
      ensures Valid()
      ensures outcome == Answer(old(roles), Update(r, update)) && roles == Apply(old(roles), Update(r, update))
    {
      StepKeepsForest(roles, Update(r, update));
      if r !in roles || roles[r].deleted {
        return NotFound;
      }
      if update.parent.Some? && update.parent.value.Some? {
        var p := update.parent.value.value;
        if p == r {
          return OwnParent;
        }
        var descendants := Descendants(roles, r);
        if p in descendants {
          return UnderDescendant;
        }
      }
      if update.parent.Some? && ForeignKeyFails(roles, update.parent.value) {
        return NoSuchParent;
      }
      var role := roles[r];
      if update.name.Some? {
        role := role.(name := update.name.value);
      }
      if update.isActive.Some? {
        role := role.(isActive := update.isActive.value);
      }
      if update.parent.Some? {
        role := role.(parent := update.parent.value);
      }
      roles := roles[r := role];
      outcome := Done;
    }

    method DeleteRole(r: Id) returns (outcome: Outcome)
      requires Valid()
      modifies this
      ensures Valid()
      ensures outcome == Answer(old(roles), Delete(r)) && roles == Apply(old(roles), Delete(r))
    {
      StepKeepsForest(roles, Delete(r));
      if r !in roles || roles[r].deleted {
        return NotFound;
      }
      if roles[r].isSystem {
        return SystemRole;
      }
      roles := roles[r := roles[r].(deleted := true, isActive := false)];
      outcome := Done;
    }
  }
}
