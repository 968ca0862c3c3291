/** The rows that `get_role_tree` selects (services/shared/rbac_service.py): a recursive query with UNION ALL over the
    roles that are not deleted, starting from the roles without a parent and the children of SUPER_ADMIN. */
module RoleQuery {
  import opened Wrappers
  import opened RoleHierarchy
  import opened RoleTree

  predicate IsSuper(roles: Roles, x: Id) { x in roles && roles[x].code == "SUPER_ADMIN" }

  /** The table's unique constraint. */
  ghost predicate UniqueCodes(roles: Roles) {
    forall x, y | x in roles && y in roles && roles[x].code == roles[y].code :: x == y
  }

  predicate Live(roles: Roles, x: Id) { x in roles && !roles[x].deleted }

  /** The non-recursive part of the query. */
  predicate Base(roles: Roles, x: Id) {
    Live(roles, x) && !IsSuper(roles, x) && (roles[x].parent.None? || IsSuper(roles, roles[x].parent.value))
  }

  /** How often the query returns a role: once as a base row, and once for every time its parent is returned. */
  ghost function Times(roles: Roles, x: Id): nat
    requires Acyclic(roles)
    decreases Ancestors(roles, x)
  {
    if !Live(roles, x) then 0
    else
      (if Base(roles, x) then 1 else 0)
      + (if roles[x].parent.Some? && roles[x].parent.value in roles then
           ParentHasFewerAncestors(roles, roles[x].parent.value, x);
           Times(roles, roles[x].parent.value)
         else 0)
  }

  function CountId(rows: seq<Row>, x: Id): nat {
    if rows == [] then 0 else CountId(rows[..|rows| - 1], x) + if rows[|rows| - 1].id == x then 1 else 0
  }

  /** `rows` is an answer of the query, in any order. */
  ghost predicate IsAnswer(rows: seq<Row>, roles: Roles)
    requires Acyclic(roles)
  {
    && (forall i | 0 <= i < |rows| :: rows[i].id in roles && rows[i].role == roles[rows[i].id])
    && (forall x: Id :: CountId(rows, x) == Times(roles, x))
  }

  // ---- Which roles are returned ----

  /** `n` steps up from `x`, through roles that are not deleted, there is a base row. */
  ghost predicate ReachesBase(roles: Roles, x: Id, n: nat) {
    && (forall j: nat | j <= n :: Up(roles, x, j).Some? && Live(roles, Up(roles, x, j).value))
    && Base(roles, Up(roles, x, n).value)
  }

  lemma ReachesBaseStep(roles: Roles, x: Id, n: nat)
    requires Live(roles, x) && roles[x].parent.Some?
    ensures ReachesBase(roles, roles[x].parent.value, n) <==> ReachesBase(roles, x, n + 1)
  {
    var p := roles[x].parent.value;
    forall j: nat ensures Up(roles, x, j + 1) == Up(roles, p, j) {
    }
    if ReachesBase(roles, p, n) {
      forall j: nat | j <= n + 1 ensures Up(roles, x, j).Some? && Live(roles, Up(roles, x, j).value) {
        assert j > 0 ==> Up(roles, x, j) == Up(roles, p, j - 1);
      }
    }
    if ReachesBase(roles, x, n + 1) {
      forall j: nat | j <= n ensures Up(roles, p, j).Some? && Live(roles, Up(roles, p, j).value) {
        assert Up(roles, p, j) == Up(roles, x, j + 1);
      }
    }
  }

  /** Exactness: a role is returned if and only if it and every role above it, up to a base row, is not deleted; what
      stands under a deleted role vanishes with it. */
  lemma {:induction false} ReturnedIff(roles: Roles, x: Id)
    requires Forest(roles)
    ensures Times(roles, x) > 0 <==> exists n: nat :: ReachesBase(roles, x, n)
    decreases Ancestors(roles, x)
  {
    if Live(roles, x) {
      assert Up(roles, x, 0) == Some(x);
      assert Base(roles, x) <==> ReachesBase(roles, x, 0);
      if roles[x].parent.Some? {
        var p := roles[x].parent.value;
        ParentHasFewerAncestors(roles, p, x);
        ReturnedIff(roles, p);
        if n: nat :| ReachesBase(roles, p, n) {
          ReachesBaseStep(roles, x, n);
        }
        if n: nat :| n > 0 && ReachesBase(roles, x, n) {
          ReachesBaseStep(roles, x, n - 1);
        }
      } else {
        assert Up(roles, x, 1) == None;
      }
    } else if n: nat :| ReachesBase(roles, x, n) {
      assert Up(roles, x, 0).Some?;
    }
  }

  // ---- When rows are repeated ----

  /** SUPER_ADMIN itself is returned, and has a child that is not deleted. */
  ghost predicate SuperIsReached(roles: Roles)
    requires Acyclic(roles)
  {
    exists s: Id, c: Id :: IsSuper(roles, s) && Times(roles, s) > 0 && Live(roles, c) && roles[c].parent == Some(s)
  }

  lemma ChildOfSuperIsRepeated(roles: Roles, s: Id, c: Id)
    requires Acyclic(roles) && UniqueCodes(roles) && IsSuper(roles, s) && Live(roles, c) && roles[c].parent == Some(s)
    ensures Times(roles, c) == 1 + Times(roles, s)
  {
    assert Up(roles, c, 1) == Up(roles, s, 0) == Some(s);
    assert c != s;
    assert Base(roles, c);
  }

  lemma {:induction false} AtMostOnce(roles: Roles, x: Id)
    requires Forest(roles) && !SuperIsReached(roles)
    ensures Times(roles, x) <= 1
    decreases Ancestors(roles, x)
  {
    if Live(roles, x) && roles[x].parent.Some? {
      var p := roles[x].parent.value;
      ParentHasFewerAncestors(roles, p, x);
      AtMostOnce(roles, p);
    }
  }

  lemma {:induction false} CountedIsThere(rows: seq<Row>, x: Id)
    ensures CountId(rows, x) > 0 <==> exists i :: 0 <= i < |rows| && rows[i].id == x
  {
    if rows != [] {
      var front := rows[..|rows| - 1];
      CountedIsThere(front, x);
      if i :| 0 <= i < |front| && front[i].id == x {
        assert rows[i].id == x;
      }
      if i :| 0 <= i < |rows| && rows[i].id == x {
        assert i < |front| ==> front[i].id == x;
      }
    }
  }

  lemma {:induction false} DistinctIsCountedOnce(rows: seq<Row>, x: Id)
    requires DistinctIds(rows)
    ensures CountId(rows, x) <= 1
  {
    if rows != [] {
      var front := rows[..|rows| - 1];
      forall i, j | 0 <= i < j < |front| ensures front[i].id != front[j].id {
        assert rows[i].id != rows[j].id;
      }
      DistinctIsCountedOnce(front, x);
      CountedIsThere(front, x);
      forall i | 0 <= i < |front| ensures front[i].id != rows[|rows| - 1].id {
        assert rows[i].id != rows[|rows| - 1].id;
      }
    }
  }

  lemma {:induction false} RepeatedIsCountedTwice(rows: seq<Row>, i: nat, j: nat)
    requires i < j < |rows| && rows[i].id == rows[j].id
    ensures CountId(rows, rows[i].id) >= 2
  {
    var front := rows[..|rows| - 1];
    if j < |front| {
      RepeatedIsCountedTwice(front, i, j);
    } else {
      CountedIsThere(front, rows[i].id);
      assert front[i].id == rows[i].id;
    }
  }

  lemma TimesOfAnswer(rows: seq<Row>, roles: Roles, x: Id)
    requires Forest(roles) && IsAnswer(rows, roles)
    ensures CountId(rows, x) == Times(roles, x)
  {
  }

  lemma RepeatedBySuper(rows: seq<Row>, roles: Roles, s: Id, c: Id)
    requires Forest(roles) && UniqueCodes(roles) && IsAnswer(rows, roles)
    requires IsSuper(roles, s) && Times(roles, s) > 0 && Live(roles, c) && roles[c].parent == Some(s)
    ensures !DistinctIds(rows)
  {
    ChildOfSuperIsRepeated(roles, s, c);
    TimesOfAnswer(rows, roles, c);
    if DistinctIds(rows) {
      DistinctIsCountedOnce(rows, c);
    }
  }

  lemma DistinctUnlessSuper(rows: seq<Row>, roles: Roles, i: nat, j: nat)
    requires Forest(roles) && IsAnswer(rows, roles) && !SuperIsReached(roles) && i < j < |rows|
    ensures rows[i].id != rows[j].id
  {
    AtMostOnce(roles, rows[i].id);
    TimesOfAnswer(rows, roles, rows[i].id);
    if rows[i].id == rows[j].id {
      RepeatedIsCountedTwice(rows, i, j);
    }
  }

  /** Exactness: the query returns every role at most once if and only if SUPER_ADMIN is not itself returned while it
      has a child that is not deleted. */
  lemma RowsAreDistinctIff(rows: seq<Row>, roles: Roles)
    requires Forest(roles) && UniqueCodes(roles) && IsAnswer(rows, roles)
    ensures DistinctIds(rows) <==> !SuperIsReached(roles)
  {
    if SuperIsReached(roles) {
      var s: Id, c: Id :| IsSuper(roles, s) && Times(roles, s) > 0 && Live(roles, c) && roles[c].parent == Some(s);
      RepeatedBySuper(rows, roles, s, c);
    } else {
      forall i, j | 0 <= i < j < |rows| ensures rows[i].id != rows[j].id {
        DistinctUnlessSuper(rows, roles, i, j);
      }
    }
  }

  lemma {:induction false} UpInRows(rows: seq<Row>, roles: Roles, x: Id, n: nat)
    requires OneRolePerId(rows) && forall i | 0 <= i < |rows| ::
             rows[i].id in roles && rows[i].role == roles[rows[i].id]
    ensures Up(Table(rows), x, n).Some? ==> Up(Table(rows), x, n) == Up(roles, x, n)
    decreases n
  {
    TableHasRows(rows);
    if n > 0 && x in Table(rows) && Table(rows)[x].parent.Some? {
      UpInRows(rows, roles, Table(rows)[x].parent.value, n - 1);
    }
  }

  /** Every answer is something the tree builder accepts, and its rows are acyclic. */
  lemma AnswersCanBeBuilt(rows: seq<Row>, roles: Roles)
    requires Forest(roles) && IsAnswer(rows, roles)
    ensures OneRolePerId(rows) && Acyclic(Table(rows))
  {
    forall x: Id, n: nat | n > 0 ensures Up(Table(rows), x, n) != Some(x) {
      UpInRows(rows, roles, x, n);
    }
  }

  // ---- An example ----

  function Sample(): Roles {
    map[0 := Role("SUPER_ADMIN", "Super", None, true, true, false), 1 := Role("CEO", "CEO", None, false, true, false),
        2 := Role("CFO", "CFO", Some(0), false, true, false)]
  }

  lemma SampleIsForest()
    ensures Forest(Sample()) && UniqueCodes(Sample())
  {
    forall x: Id, n: nat | n > 0 ensures Up(Sample(), x, n) != Some(x) {
      if x == 2 {
        assert n == 1 ==> Up(Sample(), 2, 1) == Up(Sample(), 0, 0) == Some(0);
        assert n > 1 ==> Up(Sample(), 2, n) == Up(Sample(), 0, n - 1) == None;
      }
    }
  }

  /** Moving SUPER_ADMIN under another role is allowed, and from then on its children are returned twice. */
  lemma MovedSuperRepeatsChildren()
    ensures var moved := Apply(Sample(), Update(0, RoleUpdate(None, None, Some(Some(1)))));
            Forest(moved) && UniqueCodes(moved) && SuperIsReached(moved)
  {
    SampleIsForest();
    var op := Update(0, RoleUpdate(None, None, Some(Some(1))));
    forall n: nat | n > 0 ensures Up(Sample(), 1, n) != Some(0) {
      assert Up(Sample(), 1, n) == None;
    }
    assert !Below(Sample(), 0, 1);
    assert Answer(Sample(), op) == Done;
    StepKeepsForest(Sample(), op);
    var moved := Apply(Sample(), op);
    assert moved[0].parent == Some(1) && moved[1] == Sample()[1] && moved[2] == Sample()[2];
    assert Times(moved, 1) == 1;
    assert Times(moved, 0) == Times(moved, 1);
    assert IsSuper(moved, 0) && Live(moved, 2);
  }
}
