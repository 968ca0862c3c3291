/** The two-loop tree builder (services/shared/rbac_service.py, get_role_tree) over the rows its query returns. */
module RoleTree {
  import opened Wrappers
  import opened RoleHierarchy

  datatype Row = Row(id: Id, role: Role)

  ghost predicate DistinctIds(rows: seq<Row>) {
    forall i, j | 0 <= i < j < |rows| :: rows[i].id != rows[j].id
  }

  /** Rows with the same id are the same role, as rows of one table are. */
  ghost predicate OneRolePerId(rows: seq<Row>) {
    forall i, j | 0 <= i < |rows| && 0 <= j < |rows| && rows[i].id == rows[j].id :: rows[i].role == rows[j].role
  }

  /** `roles_map`, without the children. */
  function Table(rows: seq<Row>): Roles {
    if rows == [] then map[]
    else Table(rows[..|rows| - 1])[rows[|rows| - 1].id := rows[|rows| - 1].role]
  }

  /** The rows that name `parent` as their parent, in row order. */
  function ChildIds(rows: seq<Row>, parent: Id): seq<Id> {
    if rows == [] then []
    else
      var last := rows[|rows| - 1];
      ChildIds(rows[..|rows| - 1], parent) + if last.role.parent == Some(parent) then [last.id] else []
  }

  /** A row is a root when its parent is not among the given ids. */
  predicate IsRoot(role: Role, known: set<Id>) {
    role.parent.None? || role.parent.value !in known
  }

  function RootIds(rows: seq<Row>, known: set<Id>): seq<Id> {
    if rows == [] then []
    else
      var last := rows[|rows| - 1];
      RootIds(rows[..|rows| - 1], known) + if IsRoot(last.role, known) then [last.id] else []
  }

  lemma {:induction false} TableHasRows(rows: seq<Row>)
    requires OneRolePerId(rows)
    ensures forall i | 0 <= i < |rows| :: rows[i].id in Table(rows) && Table(rows)[rows[i].id] == rows[i].role
    ensures forall x | x in Table(rows) :: exists i :: 0 <= i < |rows| && rows[i].id == x
  {
    if rows != [] {
      var front := rows[..|rows| - 1];
      TableHasRows(front);
      forall i | 0 <= i < |rows| ensures rows[i].id in Table(rows) && Table(rows)[rows[i].id] == rows[i].role {
        if i < |front| && rows[i].id != rows[|rows| - 1].id {
          assert front[i] == rows[i];
        }
      }
      forall x | x in Table(rows) ensures exists i :: 0 <= i < |rows| && rows[i].id == x {
        if x in Table(front) {
          var i :| 0 <= i < |front| && front[i].id == x;
          assert rows[i].id == x;
        } else {
          assert rows[|rows| - 1].id == x;
        }
      }
    }
  }

  // ---- Building ----

  class RoleNode {
    const id: Id
    const role: Role
    var children: seq<RoleNode>

    constructor (row: Row)
      ensures id == row.id && role == row.role && children == []
    {
      id, role, children := row.id, row.role, [];
    }
  }

  /** `list` holds the nodes of `ids`, in that order. */
  ghost predicate Refers(nodes: map<Id, RoleNode>, list: seq<RoleNode>, ids: seq<Id>) {
    |list| == |ids| && forall i | 0 <= i < |ids| :: ids[i] in nodes && list[i] == nodes[ids[i]]
  }

  lemma {:induction false} ChildIdsAreRows(rows: seq<Row>, parent: Id)
    ensures forall x :: x in ChildIds(rows, parent) <==>
              exists i :: 0 <= i < |rows| && rows[i].id == x && rows[i].role.parent == Some(parent)
  {
    if rows != [] {
      var front := rows[..|rows| - 1];
      ChildIdsAreRows(front, parent);
      forall x ensures x in ChildIds(rows, parent) <==>
          exists i :: 0 <= i < |rows| && rows[i].id == x && rows[i].role.parent == Some(parent) {
        if x in ChildIds(front, parent) {
          var i :| 0 <= i < |front| && front[i].id == x && front[i].role.parent == Some(parent);
          assert rows[i] == front[i];
        }
        if i :| 0 <= i < |rows| && rows[i].id == x && rows[i].role.parent == Some(parent) {
          assert i < |front| ==> front[i] == rows[i];
        }
      }
    }
  }

  lemma {:induction false} RootIdsAreRows(rows: seq<Row>, known: set<Id>)
    ensures forall x :: x in RootIds(rows, known) <==>
              exists i :: 0 <= i < |rows| && rows[i].id == x && IsRoot(rows[i].role, known)
  {
    if rows != [] {
      var front := rows[..|rows| - 1];
      RootIdsAreRows(front, known);
      forall x ensures x in RootIds(rows, known) <==>
          exists i :: 0 <= i < |rows| && rows[i].id == x && IsRoot(rows[i].role, known) {
        if x in RootIds(front, known) {
          var i :| 0 <= i < |front| && front[i].id == x && IsRoot(front[i].role, known);
          assert rows[i] == front[i];
        }
        if i :| 0 <= i < |rows| && rows[i].id == x && IsRoot(rows[i].role, known) {
          assert i < |front| ==> front[i] == rows[i];
        }
      }
    }
  }

  /** One node per row. */
  ghost predicate Indexed(nodes: map<Id, RoleNode>, rows: seq<Row>) {
    && nodes.Keys == Table(rows).Keys
    && (forall x | x in nodes :: nodes[x].id == x && nodes[x].role == Table(rows)[x])
  }

  ghost predicate Linked(rows: seq<Row>, nodes: map<Id, RoleNode>)
    reads nodes.Values
  {
    forall x | x in nodes :: Refers(nodes, nodes[x].children, ChildIds(rows, x))
  }

  method IndexRows(rows: seq<Row>) returns (nodes: map<Id, RoleNode>)
    ensures Indexed(nodes, rows)
    ensures forall x | x in nodes :: fresh(nodes[x]) && nodes[x].children == []
  {
    nodes := map[];
    for i := 0 to |rows|
      invariant Indexed(nodes, rows[..i])
      invariant forall x | x in nodes :: fresh(nodes[x]) && nodes[x].children == []
    {
      var node := new RoleNode(rows[i]);
      assert rows[..i + 1][..i] == rows[..i];
      nodes := nodes[rows[i].id := node];
    }
    assert rows[..|rows|] == rows;
  }

  lemma OneMoreRow(rows: seq<Row>, row: Row, known: set<Id>, x: Id)
    ensures ChildIds(rows + [row], x) == ChildIds(rows, x) + if row.role.parent == Some(x) then [row.id] else []
    ensures RootIds(rows + [row], known) == RootIds(rows, known) + if IsRoot(row.role, known) then [row.id] else []
  {
    assert (rows + [row])[..|rows|] == rows;
  }

  lemma OneMoreNode(nodes: map<Id, RoleNode>, list: seq<RoleNode>, ids: seq<Id>, id: Id)
    requires Refers(nodes, list, ids) && id in nodes
    ensures Refers(nodes, list + [nodes[id]], ids + [id])
  {
  }

  /** The body of the second loop. */
  method LinkRow(
    ghost done: seq<Row>, row: Row, nodes: map<Id, RoleNode>, roots: seq<RoleNode>) returns (roots': seq<RoleNode>)
    requires row.id in nodes && nodes[row.id].role == row.role && forall x | x in nodes :: nodes[x].id == x
    requires Linked(done, nodes) && Refers(nodes, roots, RootIds(done, nodes.Keys))
    modifies nodes.Values
    ensures Linked(done + [row], nodes) && Refers(nodes, roots', RootIds(done + [row], nodes.Keys))
  {
    var node := nodes[row.id];
    OneMoreRow(done, row, nodes.Keys, row.id);
    if node.role.parent.Some? && node.role.parent.value in nodes {
      var parent := nodes[node.role.parent.value];
      OneMoreNode(nodes, parent.children, ChildIds(done, parent.id), row.id);
      parent.children := parent.children + [node];
      roots' := roots;
    } else {
      OneMoreNode(nodes, roots, RootIds(done, nodes.Keys), row.id);
      roots' := roots + [node];
    }
    forall x | x in nodes ensures Refers(nodes, nodes[x].children, ChildIds(done + [row], x)) {
      OneMoreRow(done, row, nodes.Keys, x);
      assert old(Refers(nodes, nodes[x].children, ChildIds(done, x)));
    }
  }

  lemma RowIsIndexed(rows: seq<Row>, i: nat)
    requires OneRolePerId(rows) && i < |rows|
    ensures rows[i].id in Table(rows) && Table(rows)[rows[i].id] == rows[i].role
  {
    TableHasRows(rows);
  }

  /** The roots are the nodes of the rows whose parent is absent, and every node's children are the nodes of the
      rows that name it as parent, both in row order. */
  method BuildTree(rows: seq<Row>) returns (roots: seq<RoleNode>, nodes: map<Id, RoleNode>)
    requires OneRolePerId(rows)
    ensures Indexed(nodes, rows) && Linked(rows, nodes)
    ensures Refers(nodes, roots, RootIds(rows, nodes.Keys))
  {
    nodes := IndexRows(rows);
    assert rows[..0] == [];
    roots := [];
    for i := 0 to |rows|
      invariant Indexed(nodes, rows) && forall x | x in nodes :: fresh(nodes[x])
      invariant Linked(rows[..i], nodes) && Refers(nodes, roots, RootIds(rows[..i], nodes.Keys))
    {
      assert rows[..i + 1] == rows[..i] + [rows[i]];
      RowIsIndexed(rows, i);
      roots := LinkRow(rows[..i], rows[i], nodes, roots);
    }
    assert rows[..|rows|] == rows;
  }

  // ---- Walking ----

  ghost function BelowSet(roles: Roles, id: Id): set<Id> {
    set x | x in roles && Below(roles, id, x)
  }

  lemma BelowChain(roles: Roles, a: Id, b: Id, c: Id)
    requires Below(roles, a, b) && Below(roles, b, c)
    ensures Below(roles, a, c)
  {
    var m: nat :| m > 0 && Up(roles, c, m) == Some(b);
    var n: nat :| n > 0 && Up(roles, b, n) == Some(a);
    UpUp(roles, c, m, n);
  }

  lemma ChildIsBelow(roles: Roles, id: Id, child: Id)
    requires child in roles && roles[child].parent == Some(id)
    ensures Below(roles, id, child)
  {
    assert Up(roles, child, 1) == Up(roles, id, 0) == Some(id);
  }

  lemma ChildHasFewerDescendants(roles: Roles, id: Id, child: Id)
    requires Acyclic(roles) && child in roles && roles[child].parent == Some(id)
    ensures BelowSet(roles, child) < BelowSet(roles, id)
  {
    ChildIsBelow(roles, id, child);
    forall x | x in BelowSet(roles, child) ensures x in BelowSet(roles, id) {
      BelowChain(roles, id, child, x);
    }
    assert child in BelowSet(roles, id) && child !in BelowSet(roles, child);
  }

  lemma RootHasFewerThanAll(roles: Roles, id: Id)
    requires Acyclic(roles) && id in roles
    ensures BelowSet(roles, id) < roles.Keys
  {
    assert id !in BelowSet(roles, id);
  }

  ghost predicate Under(roles: Roles, ids: seq<Id>, bound: set<Id>) {
    forall i | 0 <= i < |ids| :: ids[i] in roles && BelowSet(roles, ids[i]) < bound
  }

  lemma ChildrenAreUnder(rows: seq<Row>, id: Id)
    requires DistinctIds(rows) && Acyclic(Table(rows))
    ensures Under(Table(rows), ChildIds(rows, id), BelowSet(Table(rows), id))
  {
    TableHasRows(rows);
    ChildIdsAreRows(rows, id);
    var kids := ChildIds(rows, id);
    forall i | 0 <= i < |kids|
      ensures kids[i] in Table(rows) && BelowSet(Table(rows), kids[i]) < BelowSet(Table(rows), id)
    {
      assert kids[i] in kids;
      ChildHasFewerDescendants(Table(rows), id, kids[i]);
    }
  }

  lemma RootsAreUnder(rows: seq<Row>)
    requires DistinctIds(rows) && Acyclic(Table(rows))
    ensures Under(Table(rows), RootIds(rows, Table(rows).Keys), Table(rows).Keys)
  {
    TableHasRows(rows);
    RootIdsAreRows(rows, Table(rows).Keys);
    var roots := RootIds(rows, Table(rows).Keys);
    forall i | 0 <= i < |roots| ensures roots[i] in Table(rows) && BelowSet(Table(rows), roots[i]) < Table(rows).Keys {
      assert roots[i] in roots;
      RootHasFewerThanAll(Table(rows), roots[i]);
    }
  }

  /** Depth-first visit of a node and everything under it. */
  ghost function Walk(rows: seq<Row>, id: Id): seq<Id>
    requires DistinctIds(rows) && Acyclic(Table(rows))
    decreases BelowSet(Table(rows), id), 1, 0
  {
    ChildrenAreUnder(rows, id);
    [id] + WalkAll(rows, ChildIds(rows, id), BelowSet(Table(rows), id))
  }

  ghost function WalkAll(rows: seq<Row>, ids: seq<Id>, bound: set<Id>): seq<Id>
    requires DistinctIds(rows) && Acyclic(Table(rows)) && Under(Table(rows), ids, bound)
    decreases bound, 0, |ids|
  {
    if ids == [] then []
    else WalkAll(rows, ids[..|ids| - 1], bound) + Walk(rows, ids[|ids| - 1])
  }

  ghost function WalkForest(rows: seq<Row>): seq<Id>
    requires DistinctIds(rows) && Acyclic(Table(rows))
  {
    RootsAreUnder(rows);
    WalkAll(rows, RootIds(rows, Table(rows).Keys), Table(rows).Keys)
  }

  // ---- Every row once ----

  /** How many of `ids` are `x` or above it. */
  ghost function Above(roles: Roles, ids: seq<Id>, x: Id): nat {
    if ids == [] then 0
    else Above(roles, ids[..|ids| - 1], x) + if AtOrBelow(roles, ids[|ids| - 1], x) then 1 else 0
  }

  ghost predicate Distinct(ids: seq<Id>) {
    forall i, j | 0 <= i < j < |ids| :: ids[i] != ids[j]
  }

  lemma {:induction false} NoneAbove(roles: Roles, ids: seq<Id>, x: Id)
    requires forall c | c in ids :: !AtOrBelow(roles, c, x)
    ensures Above(roles, ids, x) == 0
  {
    if ids != [] {
      assert ids[|ids| - 1] in ids;
      NoneAbove(roles, ids[..|ids| - 1], x);
    }
  }

  lemma {:induction false} OneAbove(roles: Roles, ids: seq<Id>, x: Id, c: Id)
    requires Distinct(ids) && c in ids && AtOrBelow(roles, c, x)
    requires forall d | d in ids && AtOrBelow(roles, d, x) :: d == c
    ensures Above(roles, ids, x) == 1
  {
    var front, last := ids[..|ids| - 1], ids[|ids| - 1];
    assert last in ids;
    if last == c {
      forall d | d in front ensures !AtOrBelow(roles, d, x) {
        var i :| 0 <= i < |front| && front[i] == d;
        assert ids[i] == d && d in ids;
      }
      NoneAbove(roles, front, x);
    } else {
      var i :| 0 <= i < |ids| && ids[i] == c;
      assert front[i] == c;
      forall d | d in front ensures d in ids {
        var k :| 0 <= k < |front| && front[k] == d;
        assert ids[k] == d;
      }
      OneAbove(roles, front, x, c);
    }
  }

  lemma {:induction false} IdListsAreDistinct(rows: seq<Row>, parent: Id, known: set<Id>)
    requires DistinctIds(rows)
    ensures Distinct(ChildIds(rows, parent)) && Distinct(RootIds(rows, known))
  {
    if rows != [] {
      var front, last := rows[..|rows| - 1], rows[|rows| - 1];
      IdListsAreDistinct(front, parent, known);
      ChildIdsAreRows(front, parent);
      RootIdsAreRows(front, known);
      assert forall i | 0 <= i < |front| :: front[i].id != last.id;
      assert last.id !in ChildIds(front, parent) && last.id !in RootIds(front, known);
    }
  }

  /** Two roles above `x` at different heights: the lower one is below the higher one. */
  lemma PathsAreLinear(roles: Roles, x: Id, c: Id, d: Id) returns (n: nat)
    requires AtOrBelow(roles, c, x) && AtOrBelow(roles, d, x) && c != d
    ensures n > 0 && (Up(roles, c, n) == Some(d) || Up(roles, d, n) == Some(c))
  {
    var i := ReachesBack(roles, c, x);
    var j := ReachesBack(roles, d, x);
    if i < j {
      n := j - i;
      UpUp(roles, x, i, n);
    } else {
      n := i - j;
      UpUp(roles, x, j, n);
    }
  }

  lemma SiblingsAreApart(roles: Roles, parent: Id, c: Id, d: Id, x: Id)
    requires Acyclic(roles) && ParentOf(roles, c) == Some(parent) && ParentOf(roles, d) == Some(parent)
    requires AtOrBelow(roles, c, x) && AtOrBelow(roles, d, x)
    ensures c == d
  {
    if c != d {
      var n := PathsAreLinear(roles, x, c, d);
      var low, high := if Up(roles, c, n) == Some(d) then c else d, if Up(roles, c, n) == Some(d) then d else c;
      UpUp(roles, parent, n - 1, 1);
    }
  }

  lemma RootsAreApart(roles: Roles, c: Id, d: Id, x: Id)
    requires c in roles && d in roles && IsRoot(roles[c], roles.Keys) && IsRoot(roles[d], roles.Keys)
    requires AtOrBelow(roles, c, x) && AtOrBelow(roles, d, x)
    ensures c == d
  {
    if c != d {
      var n := PathsAreLinear(roles, x, c, d);
      NothingAboveRoot(roles, c, d, n);
      NothingAboveRoot(roles, d, c, n);
    }
  }

  lemma NothingAboveRoot(roles: Roles, c: Id, d: Id, n: nat)
    requires c in roles && d in roles && IsRoot(roles[c], roles.Keys) && n > 0
    ensures Up(roles, c, n) != Some(d)
  {
    if roles[c].parent.Some? && n > 1 {
      assert ParentOf(roles, roles[c].parent.value) == None;
    }
  }

  /** The step of the path from `x` to `id` just below `id`. */
  lemma ChildOnPath(roles: Roles, id: Id, x: Id) returns (c: Id)
    requires Below(roles, id, x)
    ensures c in roles && roles[c].parent == Some(id) && AtOrBelow(roles, c, x)
  {
    var n: nat :| n > 0 && Up(roles, x, n) == Some(id);
    if Up(roles, x, n - 1).None? {
      UpStops(roles, x, n - 1, n);
      c := x;
    } else {
      c := Up(roles, x, n - 1).value;
      UpUp(roles, x, n - 1, 1);
      assert n - 1 > 0 ==> Below(roles, c, x);
    }
  }

  lemma ChildrenCover(rows: seq<Row>, id: Id, x: Id)
    requires DistinctIds(rows) && Acyclic(Table(rows))
    ensures Above(Table(rows), ChildIds(rows, id), x) == if Below(Table(rows), id, x) then 1 else 0
  {
    var roles, kids := Table(rows), ChildIds(rows, id);
    TableHasRows(rows);
    ChildIdsAreRows(rows, id);
    IdListsAreDistinct(rows, id, {});
    forall c | c in kids ensures c in roles && roles[c].parent == Some(id) {
    }
    if Below(roles, id, x) {
      var c := ChildOnPath(roles, id, x);
      assert c in kids;
      forall d | d in kids && AtOrBelow(roles, d, x) ensures d == c {
        SiblingsAreApart(roles, id, c, d, x);
      }
      OneAbove(roles, kids, x, c);
    } else {
      forall c | c in kids ensures !AtOrBelow(roles, c, x) {
        ChildIsBelow(roles, id, c);
        if Below(roles, c, x) {
          BelowChain(roles, id, c, x);
        }
      }
      NoneAbove(roles, kids, x);
    }
  }

  ghost function Ancestors(roles: Roles, x: Id): set<Id> {
    set a | a in roles && Below(roles, a, x)
  }

  lemma ParentHasFewerAncestors(roles: Roles, p: Id, x: Id)
    requires Acyclic(roles) && x in roles && roles[x].parent == Some(p) && p in roles
    ensures Ancestors(roles, p) < Ancestors(roles, x)
  {
    ChildIsBelow(roles, p, x);
    forall a | a in Ancestors(roles, p) ensures a in Ancestors(roles, x) {
      BelowChain(roles, a, p, x);
    }
    assert p in Ancestors(roles, x) && p !in Ancestors(roles, p);
  }

  lemma {:induction false} RootAbove(roles: Roles, x: Id) returns (root: Id)
    requires Acyclic(roles) && x in roles
    ensures root in roles && IsRoot(roles[root], roles.Keys) && AtOrBelow(roles, root, x)
    decreases Ancestors(roles, x)
  {
    if IsRoot(roles[x], roles.Keys) {
      root := x;
    } else {
      var p := roles[x].parent.value;
      ChildIsBelow(roles, p, x);
      ParentHasFewerAncestors(roles, p, x);
      root := RootAbove(roles, p);
      if root != p {
        BelowChain(roles, root, p, x);
      }
    }
  }

  lemma RootsCover(rows: seq<Row>, x: Id)
    requires DistinctIds(rows) && Acyclic(Table(rows)) && x in Table(rows)
    ensures Above(Table(rows), RootIds(rows, Table(rows).Keys), x) == 1
  {
    var roles, roots := Table(rows), RootIds(rows, Table(rows).Keys);
    TableHasRows(rows);
    RootIdsAreRows(rows, roles.Keys);
    IdListsAreDistinct(rows, 0, roles.Keys);
    forall c | c in roots ensures c in roles && IsRoot(roles[c], roles.Keys) {
    }
    var root := RootAbove(roles, x);
    assert root in roots;
    forall d | d in roots && AtOrBelow(roles, d, x) ensures d == root {
      RootsAreApart(roles, root, d, x);
    }
    OneAbove(roles, roots, x, root);
  }

  lemma {:induction false} WalkVisits(rows: seq<Row>, id: Id, x: Id)
    requires DistinctIds(rows) && Acyclic(Table(rows))
    ensures multiset(Walk(rows, id))[x] == if AtOrBelow(Table(rows), id, x) then 1 else 0
    decreases BelowSet(Table(rows), id), 1, 0
  {
    ChildrenAreUnder(rows, id);
    WalkAllVisits(rows, ChildIds(rows, id), BelowSet(Table(rows), id), x);
    ChildrenCover(rows, id, x);
  }

  lemma {:induction false} WalkAllVisits(rows: seq<Row>, ids: seq<Id>, bound: set<Id>, x: Id)
    requires DistinctIds(rows) && Acyclic(Table(rows)) && Under(Table(rows), ids, bound)
    ensures multiset(WalkAll(rows, ids, bound))[x] == Above(Table(rows), ids, x)
    decreases bound, 0, |ids|
  {
    if ids != [] {
      WalkAllVisits(rows, ids[..|ids| - 1], bound, x);
      WalkVisits(rows, ids[|ids| - 1], x);
    }
  }

  /** Following the rows' parents from the roots reaches every row exactly once and nothing else. */
  lemma WalkVisitsEachRowOnce(rows: seq<Row>, x: Id)
    requires DistinctIds(rows) && Acyclic(Table(rows))
    ensures multiset(WalkForest(rows))[x] == if exists i :: 0 <= i < |rows| && rows[i].id == x then 1 else 0
  {
    TableHasRows(rows);
    RootsAreUnder(rows);
    var roles, roots := Table(rows), RootIds(rows, Table(rows).Keys);
    WalkAllVisits(rows, roots, roles.Keys, x);
    if x in roles {
      RootsCover(rows, x);
    } else {
      RootIdsAreRows(rows, roles.Keys);
      forall c | c in roots ensures !AtOrBelow(roles, c, x) {
        assert c in roles;
        assert forall n: nat | n > 0 :: Up(roles, x, n) == None;
      }
      NoneAbove(roles, roots, x);
    }
  }

  // ---- Walking the nodes themselves ----

  /** What `BuildTree` returns: nodes and roots linked as the rows say. */
  ghost predicate Built(rows: seq<Row>, nodes: map<Id, RoleNode>, roots: seq<RoleNode>)
    reads nodes.Values
  {
    DistinctIds(rows) && Acyclic(Table(rows)) && Indexed(nodes, rows) && Linked(rows, nodes)
        && Refers(nodes, roots, RootIds(rows, nodes.Keys))
  }

  ghost predicate NodesUnder(rows: seq<Row>, nodes: map<Id, RoleNode>, list: seq<RoleNode>, bound: set<Id>) {
    forall i | 0 <= i < |list| ::
      list[i].id in nodes && nodes[list[i].id] == list[i] && list[i].id in Table(rows)
          && BelowSet(Table(rows), list[i].id) < bound
  }

  lemma ReferredAreUnder(rows: seq<Row>, nodes: map<Id, RoleNode>, list: seq<RoleNode>, ids: seq<Id>, bound: set<Id>)
    requires Indexed(nodes, rows) && Refers(nodes, list, ids) && Under(Table(rows), ids, bound)
    ensures NodesUnder(rows, nodes, list, bound)
  {
  }

  /** Depth-first visit along the `children` of the nodes. */
  ghost function Visit(rows: seq<Row>, nodes: map<Id, RoleNode>, node: RoleNode): seq<Id>
    requires DistinctIds(rows) && Acyclic(Table(rows)) && Indexed(nodes, rows) && Linked(rows, nodes)
    requires node.id in nodes && nodes[node.id] == node
    reads nodes.Values
    decreases BelowSet(Table(rows), node.id), 1, 0
  {
    ChildrenAreUnder(rows, node.id);
    ReferredAreUnder(rows, nodes, node.children, ChildIds(rows, node.id), BelowSet(Table(rows), node.id));
    [node.id] + VisitAll(rows, nodes, node.children, BelowSet(Table(rows), node.id))
  }

  ghost function VisitAll(rows: seq<Row>, nodes: map<Id, RoleNode>, list: seq<RoleNode>, bound: set<Id>): seq<Id>
    requires DistinctIds(rows) && Acyclic(Table(rows)) && Indexed(nodes, rows) && Linked(rows, nodes)
    requires NodesUnder(rows, nodes, list, bound)
    reads nodes.Values
    decreases bound, 0, |list|
  {
    if list == [] then []
    else VisitAll(rows, nodes, list[..|list| - 1], bound) + Visit(rows, nodes, list[|list| - 1])
  }

  lemma RootNodesAreUnder(rows: seq<Row>, nodes: map<Id, RoleNode>, roots: seq<RoleNode>)
    requires Built(rows, nodes, roots)
    ensures NodesUnder(rows, nodes, roots, nodes.Keys)
  {
    RootsAreUnder(rows);
    ReferredAreUnder(rows, nodes, roots, RootIds(rows, nodes.Keys), nodes.Keys);
  }

  ghost function VisitForest(rows: seq<Row>, nodes: map<Id, RoleNode>, roots: seq<RoleNode>): seq<Id>
    requires Built(rows, nodes, roots)
    reads nodes.Values
  {
    RootNodesAreUnder(rows, nodes, roots);
    VisitAll(rows, nodes, roots, nodes.Keys)
  }

  lemma {:induction false} VisitIsWalk(rows: seq<Row>, nodes: map<Id, RoleNode>, node: RoleNode)
    requires DistinctIds(rows) && Acyclic(Table(rows)) && Indexed(nodes, rows) && Linked(rows, nodes)
    requires node.id in nodes && nodes[node.id] == node
    ensures Visit(rows, nodes, node) == Walk(rows, node.id)
    decreases BelowSet(Table(rows), node.id), 1, 0
  {
    ChildrenAreUnder(rows, node.id);
    VisitAllIsWalkAll(rows, nodes, node.children, ChildIds(rows, node.id), BelowSet(Table(rows), node.id));
  }

  lemma {:induction false} VisitAllIsWalkAll(
    rows: seq<Row>, nodes: map<Id, RoleNode>, list: seq<RoleNode>, ids: seq<Id>, bound: set<Id>)
    requires DistinctIds(rows) && Acyclic(Table(rows)) && Indexed(nodes, rows) && Linked(rows, nodes)
    requires Refers(nodes, list, ids) && Under(Table(rows), ids, bound)
    ensures NodesUnder(rows, nodes, list, bound) && VisitAll(rows, nodes, list, bound) == WalkAll(rows, ids, bound)
    decreases bound, 0, |list|
  {
    ReferredAreUnder(rows, nodes, list, ids, bound);
    if list != [] {
      var n := |list| - 1;
      VisitAllIsWalkAll(rows, nodes, list[..n], ids[..n], bound);
      VisitIsWalk(rows, nodes, list[n]);
    }
  }

  /** Main result: following `children` from the returned roots visits every row exactly once and nothing else. */
  lemma ForestVisitsEachRowOnce(rows: seq<Row>, nodes: map<Id, RoleNode>, roots: seq<RoleNode>, x: Id)
    requires Built(rows, nodes, roots)
    ensures multiset(VisitForest(rows, nodes, roots))[x] ==
            if exists i :: 0 <= i < |rows| && rows[i].id == x then 1 else 0
  {
    RootsAreUnder(rows);
    VisitAllIsWalkAll(rows, nodes, roots, RootIds(rows, nodes.Keys), nodes.Keys);
    WalkVisitsEachRowOnce(rows, x);
  }
}
