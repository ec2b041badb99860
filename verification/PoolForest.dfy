/** The pool hierarchy: pools are rows with a parent reference, created below a live
    pool of the same organization and soft-deleted with their children handed to the
    deleted pool's parent. Rows are kept in order of creation. */
module PoolForest {
  import opened Wrappers

  datatype Pool = Pool(id: string, org: string, name: string, limit: int, purpose: string,
                       owner: Option<string>, parent: Option<string>, deleted: bool)

  datatype Error = NotFound | BadRequest | ForeignKeyViolation

  type Rows = seq<Pool>

  /** The place of the first row with the id, or the number of rows if there is none. */
  function IndexOf(rows: Rows, id: string): (k: nat)
    ensures k <= |rows|
    ensures k < |rows| ==> rows[k].id == id
    ensures forall j :: 0 <= j < k ==> rows[j].id != id
  {
    if rows == [] then 0
    else if rows[0].id == id then 0
    else
      var k := IndexOf(rows[1..], id);
      assert forall j :: 0 < j < k + 1 ==> rows[j] == rows[1..][j - 1];
      k + 1
  }

  /** `get_pool`: the live row with the id. */
  function GetPool(rows: Rows, id: string): Option<nat> {
    var k := IndexOf(rows, id);
    if k < |rows| && !rows[k].deleted then Some(k) else None
  }

  function DeletedRows(rows: Rows, k: nat): (rows': Rows)
    requires k < |rows|
    ensures |rows'| == |rows|
  {
    seq(|rows|, i requires 0 <= i < |rows| =>
      if i == k then rows[i].(deleted := true)
      else if !rows[i].deleted && rows[i].parent == Some(rows[k].id) then rows[i].(parent := rows[k].parent)
      else rows[i])
  }

  /** Ids are distinct; every parent reference points to an older row of the same
      organization; and a live pool's parent is live. */
  ghost predicate Forest(rows: Rows) {
    && (forall i, j :: 0 <= i < j < |rows| ==> rows[i].id != rows[j].id)
    && (forall i :: 0 <= i < |rows| && rows[i].parent.Some? ==>
         var p := IndexOf(rows, rows[i].parent.value);
         && p < i && rows[p].org == rows[i].org
         && (!rows[i].deleted ==> !rows[p].deleted))
  }

  class PoolTable {
    var rows: Rows

    constructor ()
      ensures rows == [] && Forest(rows)
    {
      rows := [];
    }

    /** An empty parent id skips the parent check but fails the foreign key. */
    method CreatePool(freshId: string, org: string, name: string, limit: int, purpose: Option<string>,
                      owner: Option<string>, parent: Option<string>)
      returns (r: Result<string, Error>)
      requires Forest(rows) && freshId != "" && IndexOf(rows, freshId) == |rows| && IndexOf(rows, "") == |rows|
      modifies this
      ensures Forest(rows)
      ensures r.Success? <==> (parent.Some? ==>
        GetPool(old(rows), parent.value).Some? && old(rows)[GetPool(old(rows), parent.value).value].org == org)
      ensures r.Success? ==> r.value == freshId
      ensures r.Success? ==>
        rows == old(rows) + [Pool(freshId, org, name, limit, purpose.GetOr("budget"), owner, parent, false)]
      ensures r.Failure? ==> rows == old(rows)
      ensures rows == Apply(old(rows), Create(Pool(freshId, org, name, limit, purpose.GetOr("budget"), owner, parent,
                                                   false)))
      ensures r.Failure? && parent.value != "" ==>
        r.error == if GetPool(rows, parent.value).None? then NotFound else BadRequest
    {
      if parent.Some? && parent.value != "" {
        var found := GetPool(rows, parent.value);
        if found.None? {
          return Failure(NotFound);
        }
        if rows[found.value].org != org {
          return Failure(BadRequest);
        }
      }
      if parent == Some("") {
        return Failure(ForeignKeyViolation);
      }
      var pool := Pool(freshId, org, name, limit, purpose.GetOr("budget"), owner, parent, false);
      CreationKeepsForest(rows, pool);
      rows := rows + [pool];
      return Success(freshId);
    }

    method UpdatePool(id: string, name: Option<string>, limit: Option<int>, owner: Option<string>,
                      purpose: Option<string>)
      returns (r: Result<(), Error>)
      requires Forest(rows)
      modifies this
      ensures Forest(rows)
      ensures r.Success? <==> GetPool(old(rows), id).Some?
      ensures r.Failure? ==> rows == old(rows)
      ensures r.Success? ==>
        var k := IndexOf(old(rows), id);
        var pool := old(rows)[k];
        rows == old(rows)[k := pool.(name := name.GetOr(pool.name), limit := limit.GetOr(pool.limit),
          owner := if owner.Some? then owner else pool.owner, purpose := purpose.GetOr(pool.purpose))]
    {
      var found := GetPool(rows, id);
      if found.None? {
        return Failure(NotFound);
      }
      var pool := rows[found.value];
      if name.Some? {
        pool := pool.(name := name.value);
      }
      if limit.Some? {
        pool := pool.(limit := limit.value);
      }
      if owner.Some? {
        pool := pool.(owner := owner);
      }
      if purpose.Some? {
        pool := pool.(purpose := purpose.value);
      }
      SameShapeSameForest(rows, rows[found.value := pool]);
      rows := rows[found.value := pool];
      return Success(());
    }

    /** The loop over the children of a pool about to be deleted. */
    method HandOver(children: seq<nat>, parent: Option<string>)
      requires forall c :: 0 <= c < |children| ==> children[c] < |rows|
      modifies this
      ensures HandedOver(old(rows), rows, children, parent)
    {
      for c := 0 to |children|
        invariant HandedOver(old(rows), rows, children[..c], parent)
      {
        assert children[..c + 1] == children[..c] + [children[c]];
        rows := rows[children[c] := rows[children[c]].(parent := parent)];
      }
      assert children[..|children|] == children;
    }

    method DeletePool(id: string) returns (r: Result<(), Error>)
      requires Forest(rows)
      modifies this
      ensures Forest(rows)
      ensures r.Success? <==> GetPool(old(rows), id).Some?
      ensures r.Failure? ==> rows == old(rows)
      ensures rows == Apply(old(rows), Delete(id))
    {
      var found := GetPool(rows, id);
      if found.None? {
        return Failure(NotFound);
      }
      var k := found.value;
      var parent := rows[k].parent;
      ghost var all := rows;
      DeletionKeepsForest(all, k);
      var children := LiveChildren(rows, id, |rows|);
      NotItsOwnChild(rows, k);
      HandOver(children, parent);
      HandedOverIsDeleted(all, rows, k, children);
      rows := rows[k := rows[k].(deleted := true)];
      return Success(());
    }
  }

  /** The rows at `places` have the new parent. */
  ghost predicate HandedOver(all: Rows, rows: Rows, places: seq<nat>, parent: Option<string>) {
    |rows| == |all| && forall i :: 0 <= i < |all| ==>
      rows[i] == if i in places then all[i].(parent := parent) else all[i]
  }

  lemma HandedOverIsDeleted(all: Rows, rows: Rows, k: nat, children: seq<nat>)
    requires k < |all| && children == LiveChildren(all, all[k].id, |all|) && k !in children
    requires HandedOver(all, rows, children, all[k].parent)
    ensures rows[k := rows[k].(deleted := true)] == DeletedRows(all, k)
  {
  }

  lemma NotItsOwnChild(rows: Rows, k: nat)
    requires Forest(rows) && k < |rows|
    ensures k !in LiveChildren(rows, rows[k].id, |rows|)
  {
    IndexIsUnique(rows, k);
  }

  /** The places, before `n`, of the live rows with the given parent. */
  function LiveChildren(rows: Rows, id: string, n: nat): (children: seq<nat>)
    requires n <= |rows|
    ensures forall c :: 0 <= c < |children| ==> children[c] < n
    ensures forall i :: i in children <==> 0 <= i < n && !rows[i].deleted && rows[i].parent == Some(id)
  {
    if n == 0 then []
    else if !rows[n - 1].deleted && rows[n - 1].parent == Some(id) then LiveChildren(rows, id, n - 1) + [n - 1]
    else LiveChildren(rows, id, n - 1)
  }

  // ---- every operation keeps the forest ----

  lemma IndexIsUnique(rows: Rows, k: nat)
    requires k < |rows|
    requires forall i, j :: 0 <= i < j < |rows| ==> rows[i].id != rows[j].id
    ensures IndexOf(rows, rows[k].id) == k
  {
  }

  lemma IndexSameIds(rows: Rows, rows': Rows, id: string)
    requires |rows| <= |rows'|
    requires forall i :: 0 <= i < |rows| ==> rows'[i].id == rows[i].id
    ensures IndexOf(rows, id) < |rows| ==> IndexOf(rows', id) == IndexOf(rows, id)
    ensures |rows| == |rows'| ==> IndexOf(rows', id) == IndexOf(rows, id)
  {
    var k, k' := IndexOf(rows, id), IndexOf(rows', id);
    if k < |rows| {
      assert rows'[k].id == id;
    }
  }

  lemma SameShapeSameForest(rows: Rows, rows': Rows)
    requires Forest(rows) && |rows| == |rows'|
    requires forall i :: 0 <= i < |rows| ==>
      && rows'[i].id == rows[i].id && rows'[i].org == rows[i].org
      && rows'[i].parent == rows[i].parent && rows'[i].deleted == rows[i].deleted
    ensures Forest(rows')
  {
    forall i | 0 <= i < |rows| && rows'[i].parent.Some?
      ensures IndexOf(rows', rows'[i].parent.value) == IndexOf(rows, rows[i].parent.value)
    {
      IndexSameIds(rows, rows', rows[i].parent.value);
    }
  }

  lemma CreationKeepsForest(rows: Rows, pool: Pool)
    requires Forest(rows) && IndexOf(rows, pool.id) == |rows| && !pool.deleted
    requires pool.parent.Some? ==>
      GetPool(rows, pool.parent.value).Some? && rows[GetPool(rows, pool.parent.value).value].org == pool.org
    ensures Forest(rows + [pool])
  {
    var rows' := rows + [pool];
    forall i | 0 <= i < |rows'| && rows'[i].parent.Some?
      ensures
        var p := IndexOf(rows', rows'[i].parent.value);
        p < i && rows'[p].org == rows'[i].org && (!rows'[i].deleted ==> !rows'[p].deleted)
    {
      IndexSameIds(rows, rows', rows'[i].parent.value);
      assert i < |rows| ==> rows'[i] == rows[i];
    }
  }

  lemma ParentAfterDeletion(rows: Rows, k: nat, i: nat)
    requires Forest(rows) && k < |rows| && !rows[k].deleted
    requires i < |rows| && DeletedRows(rows, k)[i].parent.Some?
    ensures
      var rows' := DeletedRows(rows, k);
      var p := IndexOf(rows', rows'[i].parent.value);
      && p < i && rows'[p].org == rows'[i].org
      && (!rows'[i].deleted ==> !rows'[p].deleted)
  {
    var rows' := DeletedRows(rows, k);
    IndexSameIds(rows, rows', rows'[i].parent.value);
    IndexIsUnique(rows, k);
    assert rows[i].parent.Some?;
    var old_p := IndexOf(rows, rows[i].parent.value);
    assert old_p < i;
    if i != k && !rows[i].deleted && rows[i].parent == Some(rows[k].id) {
      assert old_p == k && rows'[i].parent == rows[k].parent;
    } else {
      assert rows'[i].parent == rows[i].parent;
    }
  }

  lemma DeletionKeepsForest(rows: Rows, k: nat)
    requires Forest(rows) && k < |rows| && !rows[k].deleted
    ensures Forest(DeletedRows(rows, k))
  {
    var rows' := DeletedRows(rows, k);
    forall i | 0 <= i < |rows'| && rows'[i].parent.Some?
      ensures
        var p := IndexOf(rows', rows'[i].parent.value);
        p < i && rows'[p].org == rows'[i].org && (!rows'[i].deleted ==> !rows'[p].deleted)
    {
      ParentAfterDeletion(rows, k, i);
    }
  }

  // ---- ancestry ----

  /** The place of the parent row. */
  ghost function Parent(rows: Rows, i: nat): (p: Option<nat>)
    requires Forest(rows) && i < |rows|
    ensures p.Some? ==> p.value < i
  {
    match rows[i].parent
    case None => None
    case Some(id) => Some(IndexOf(rows, id))
  }

  ghost predicate Ancestor(rows: Rows, a: nat, x: nat)
    requires Forest(rows) && x < |rows|
    decreases x
  {
    var p := Parent(rows, x);
    p.Some? && (p.value == a || Ancestor(rows, a, p.value))
  }

  lemma {:induction false} AncestorsAreOlder(rows: Rows, a: nat, x: nat)
    requires Forest(rows) && x < |rows| && Ancestor(rows, a, x)
    ensures a < x
    decreases x
  {
    if Parent(rows, x) != Some(a) {
      AncestorsAreOlder(rows, a, Parent(rows, x).value);
    }
  }

  lemma NoPoolIsItsOwnAncestor(rows: Rows, x: nat)
    requires Forest(rows) && x < |rows|
    ensures !Ancestor(rows, x, x)
  {
    if Ancestor(rows, x, x) {
      AncestorsAreOlder(rows, x, x);
    }
  }

  /** A child of the deleted pool has its parent's parent; other parents stay. */
  lemma ParentSkipsDeleted(rows: Rows, k: nat, x: nat)
    requires Forest(rows) && k < |rows| && !rows[k].deleted && Forest(DeletedRows(rows, k))
    requires x < |rows| && !rows[x].deleted && x != k
    ensures Parent(DeletedRows(rows, k), x) == if Parent(rows, x) == Some(k) then Parent(rows, k) else Parent(rows, x)
  {
    var rows' := DeletedRows(rows, k);
    IndexIsUnique(rows, k);
    if rows'[x].parent.Some? {
      IndexSameIds(rows, rows', rows'[x].parent.value);
    }
  }

  /** Deleting a pool leaves the ancestor relation among the others, live or not, that
      are reached through live pools exactly as it was. */
  lemma {:induction false} DeletionPreservesAncestry(rows: Rows, k: nat, a: nat, x: nat)
    requires Forest(rows) && k < |rows| && !rows[k].deleted
    requires x < |rows| && !rows[x].deleted && x != k && a != k
    ensures Forest(DeletedRows(rows, k))
    ensures Ancestor(DeletedRows(rows, k), a, x) <==> Ancestor(rows, a, x)
    decreases x
  {
    DeletionKeepsForest(rows, k);
    ParentSkipsDeleted(rows, k, x);
    var p := Parent(rows, x);
    var grand := if p == Some(k) then Parent(rows, k) else p;
    if grand.Some? {
      DeletionPreservesAncestry(rows, k, a, grand.value);
    }
  }

  /** A new pool's ancestors are its parent and that parent's ancestors; nobody else's
      ancestry changes. */
  lemma {:induction false} CreationExtendsAncestry(rows: Rows, pool: Pool, a: nat, x: nat)
    requires Forest(rows) && Forest(rows + [pool]) && x <= |rows|
    ensures x < |rows| ==> (Ancestor(rows + [pool], a, x) <==> Ancestor(rows, a, x))
    ensures x == |rows| ==> (Ancestor(rows + [pool], a, x) <==>
      var p := Parent(rows + [pool], x);
      p.Some? && (a == p.value || Ancestor(rows, a, p.value)))
    decreases x
  {
    var rows' := rows + [pool];
    if rows'[x].parent.Some? {
      IndexSameIds(rows, rows', rows'[x].parent.value);
      var p := IndexOf(rows', rows'[x].parent.value);
      assert p < x;
      assert rows'[p] == rows[p];
      assert IndexOf(rows, rows'[x].parent.value) == p by {
        IndexIsUnique(rows', p);
        assert forall j :: 0 <= j < p ==> rows[j].id == rows'[j].id;
      }
      CreationExtendsAncestry(rows, pool, a, p);
    }
  }

  // ---- runs ----

  datatype Op =
    | Create(pool: Pool)
    | Delete(id: string)

  /** One request: refused requests leave the table alone. */
  ghost function Apply(rows: Rows, op: Op): Rows {
    match op
    case Create(pool) =>
      if IndexOf(rows, pool.id) == |rows| && !pool.deleted
         && (pool.parent.Some? ==> GetPool(rows, pool.parent.value).Some?
                                   && rows[GetPool(rows, pool.parent.value).value].org == pool.org)
      then rows + [pool] else rows
    case Delete(id) =>
      if GetPool(rows, id).Some? then DeletedRows(rows, IndexOf(rows, id)) else rows
  }

  ghost function Run(ops: seq<Op>): Rows {
    if ops == [] then [] else Apply(Run(ops[..|ops| - 1]), ops[|ops| - 1])
  }

  lemma {:induction false} EveryRunIsAForest(ops: seq<Op>)
    ensures Forest(Run(ops))
  {
    if ops != [] {
      var rows := Run(ops[..|ops| - 1]);
      EveryRunIsAForest(ops[..|ops| - 1]);
      match ops[|ops| - 1]
      case Create(pool) =>
        if Apply(rows, Create(pool)) != rows {
          CreationKeepsForest(rows, pool);
        }
      case Delete(id) =>
        if GetPool(rows, id).Some? {
          DeletionKeepsForest(rows, IndexOf(rows, id));
        }
    }
  }

  // ---- enrichment ----

  datatype Response = Response(id: string, name: string, limit: int, org: string, parent: Option<string>,
                               purpose: string, ownerId: Option<string>, owner: Option<string>, children: seq<Response>)

  predicate Places(places: seq<nat>, from: nat, until: nat) {
    forall j :: 0 <= j < |places| ==> from <= places[j] < until
  }

  /** The rows at `from` or later that name the row as their parent, deleted ones too:
      the relationship does not filter them. */
  function Children(rows: Rows, id: string, from: nat): (children: seq<nat>)
    requires from <= |rows|
    ensures Places(children, from, |rows|)
    decreases |rows| - from
  {
    if from == |rows| then []
    else if rows[from].parent == Some(id) then [from] + Children(rows, id, from + 1)
    else Children(rows, id, from + 1)
  }

  /** The recursive response; parents are older than their children, so it ends. */
  function Enrich(rows: Rows, employees: map<string, string>, i: nat): Response
    requires i < |rows|
    decreases |rows| - i, 0
  {
    var pool := rows[i];
    var owner := if pool.owner.Some? && pool.owner.value in employees then Some(employees[pool.owner.value]) else None;
    Response(pool.id, pool.name, pool.limit, pool.org, pool.parent, pool.purpose, pool.owner, owner,
             EnrichAll(rows, employees, i + 1, Children(rows, pool.id, i + 1)))
  }

  function EnrichAll(rows: Rows, employees: map<string, string>, from: nat, places: seq<nat>): seq<Response>
    requires from <= |rows| && Places(places, from, |rows|)
    decreases |rows| - from, 1, places
  {
    if places == [] then []
    else
      [Enrich(rows, employees, places[0])] + EnrichAll(rows, employees, from, places[1..])
  }

  /** Live pools of the organization without a parent. */
  function Roots(rows: Rows, org: string, from: nat): (roots: seq<nat>)
    requires from <= |rows|
    ensures Places(roots, from, |rows|)
    decreases |rows| - from
  {
    if from == |rows| then []
    else if rows[from].org == org && rows[from].parent.None? && !rows[from].deleted
      then [from] + Roots(rows, org, from + 1)
    else Roots(rows, org, from + 1)
  }

  function PoolTree(rows: Rows, employees: map<string, string>, org: string): seq<Response> {
    EnrichAll(rows, employees, 0, Roots(rows, org, 0))
  }

  /** All children are found: none is older than its parent. */
  lemma ChildrenAreYounger(rows: Rows, i: nat, c: nat)
    requires Forest(rows) && i < |rows| && c < |rows| && rows[c].parent == Some(rows[i].id)
    ensures i < c
  {
    IndexIsUnique(rows, i);
  }

  /** How often an id is listed. */
  ghost function Listed(r: Response, id: string): nat {
    (if r.id == id then 1 else 0) + ListedAll(r.children, id)
  }

  ghost function ListedAll(rs: seq<Response>, id: string): nat {
    if rs == [] then 0 else Listed(rs[0], id) + ListedAll(rs[1..], id)
  }

  lemma ListedHead(rows: Rows, employees: map<string, string>, from: nat, c: nat, rest: seq<nat>, id: string)
    requires from <= c < |rows| && Places(rest, from, |rows|)
    ensures Places([c] + rest, from, |rows|)
    ensures ListedAll(EnrichAll(rows, employees, from, [c] + rest), id)
         == Listed(Enrich(rows, employees, c), id) + ListedAll(EnrichAll(rows, employees, from, rest), id)
  {
    assert ([c] + rest)[1..] == rest;
  }

  ghost predicate AtOrAbove(rows: Rows, a: nat, x: nat)
    requires Forest(rows) && x < |rows|
  {
    a == x || Ancestor(rows, a, x)
  }

  /** The child of `i` on the way from `x` up to `i`. */
  ghost function Toward(rows: Rows, i: nat, x: nat): (c: nat)
    requires Forest(rows) && x < |rows| && i < |rows| && Ancestor(rows, i, x)
    ensures c < |rows| && Parent(rows, c) == Some(i)
    decreases x
  {
    if Parent(rows, x) == Some(i) then x else Toward(rows, i, Parent(rows, x).value)
  }

  lemma {:induction false} OneChildTowards(rows: Rows, i: nat, c: nat, x: nat)
    requires Forest(rows) && x < |rows| && i < |rows| && c < |rows| && Parent(rows, c) == Some(i)
    ensures AtOrAbove(rows, c, x) <==> Ancestor(rows, i, x) && Toward(rows, i, x) == c
    decreases x
  {
    if c != x {
      var p := Parent(rows, x);
      if p.Some? {
        OneChildTowards(rows, i, c, p.value);
        if p.value == i {
          NoPoolIsItsOwnAncestor(rows, i);
        }
      }
    }
  }

  lemma ListedOnce(rows: Rows, employees: map<string, string>, i: nat, x: nat)
    requires Forest(rows) && i < |rows| && x < |rows|
    ensures Listed(Enrich(rows, employees, i), rows[x].id) == if AtOrAbove(rows, i, x) then 1 else 0
    decreases |rows| - i, 0, 0
  {
    ListedBelow(rows, employees, i, i + 1, x);
    if i == x {
      NoPoolIsItsOwnAncestor(rows, x);
    } else if Ancestor(rows, i, x) {
      ChildrenAreYounger(rows, i, Toward(rows, i, x));
      IndexIsUnique(rows, i);
    }
  }

  lemma {:induction false} ListedBelow(rows: Rows, employees: map<string, string>, i: nat, from: nat, x: nat)
    requires Forest(rows) && i < from <= |rows| && x < |rows|
    ensures ListedAll(EnrichAll(rows, employees, i + 1, Children(rows, rows[i].id, from)), rows[x].id)
         == if Ancestor(rows, i, x) && Toward(rows, i, x) >= from then 1 else 0
    decreases |rows| - i - 1, 1, |rows| - from
  {
    if from < |rows| {
      ListedBelow(rows, employees, i, from + 1, x);
      IndexIsUnique(rows, i);
      if rows[from].parent == Some(rows[i].id) {
        ListedOnce(rows, employees, from, x);
        OneChildTowards(rows, i, from, x);
        ListedHead(rows, employees, i + 1, from, Children(rows, rows[i].id, from + 1), rows[x].id);
      }
    }
  }

  ghost function RootOf(rows: Rows, x: nat): (r: nat)
    requires Forest(rows) && x < |rows|
    ensures r < |rows| && Parent(rows, r).None?
    decreases x
  {
    if Parent(rows, x).None? then x else RootOf(rows, Parent(rows, x).value)
  }

  lemma {:induction false} OneRoot(rows: Rows, r: nat, x: nat)
    requires Forest(rows) && x < |rows| && r < |rows| && Parent(rows, r).None?
    ensures AtOrAbove(rows, r, x) <==> RootOf(rows, x) == r
    decreases x
  {
    if Parent(rows, x).Some? {
      OneRoot(rows, r, Parent(rows, x).value);
    }
  }

  lemma {:induction false} LivePoolsHaveLiveRoots(rows: Rows, x: nat)
    requires Forest(rows) && x < |rows| && !rows[x].deleted
    ensures !rows[RootOf(rows, x)].deleted && rows[RootOf(rows, x)].org == rows[x].org
    decreases x
  {
    if Parent(rows, x).Some? {
      LivePoolsHaveLiveRoots(rows, Parent(rows, x).value);
    }
  }

  ghost predicate IsRootFor(rows: Rows, org: string, r: nat)
    requires r < |rows|
  {
    rows[r].org == org && rows[r].parent.None? && !rows[r].deleted
  }

  lemma {:induction false} ListedUnderRoots(rows: Rows, employees: map<string, string>, org: string, from: nat, x: nat)
    requires Forest(rows) && from <= |rows| && x < |rows|
    ensures ListedAll(EnrichAll(rows, employees, 0, Roots(rows, org, from)), rows[x].id)
         == if IsRootFor(rows, org, RootOf(rows, x)) && RootOf(rows, x) >= from then 1 else 0
    decreases |rows| - from
  {
    if from < |rows| {
      ListedUnderRoots(rows, employees, org, from + 1, x);
      if IsRootFor(rows, org, from) {
        ListedOnce(rows, employees, from, x);
        OneRoot(rows, from, x);
        ListedHead(rows, employees, 0, from, Roots(rows, org, from + 1), rows[x].id);
      }
    }
  }

  /** The tree of an organization lists no pool twice, and a pool exactly when its
      topmost ancestor is a live root of the organization; in particular it lists every
      live pool of the organization exactly once. */
  lemma TreeListsEachOnce(rows: Rows, employees: map<string, string>, org: string, x: nat)
    requires Forest(rows) && x < |rows|
    ensures ListedAll(PoolTree(rows, employees, org), rows[x].id)
         == if IsRootFor(rows, org, RootOf(rows, x)) then 1 else 0
    ensures !rows[x].deleted && rows[x].org == org ==> ListedAll(PoolTree(rows, employees, org), rows[x].id) == 1
    ensures rows[x].org != org ==> ListedAll(PoolTree(rows, employees, org), rows[x].id) == 0
  {
    ListedUnderRoots(rows, employees, org, 0, x);
    SameOrgAsRoot(rows, x);
    if !rows[x].deleted {
      LivePoolsHaveLiveRoots(rows, x);
    }
  }

  lemma {:induction false} SameOrgAsRoot(rows: Rows, x: nat)
    requires Forest(rows) && x < |rows|
    ensures rows[RootOf(rows, x)].org == rows[x].org
    decreases x
  {
    if Parent(rows, x).Some? {
      SameOrgAsRoot(rows, Parent(rows, x).value);
    }
  }

  /** The relationship does not filter deleted rows: a deleted child of a live root is
      still shown in the tree. */
  lemma DeletedChildIsStillShown()
    ensures
      var root := Pool("r", "o", "", 0, "budget", None, None, false);
      var child := Pool("c", "o", "", 0, "budget", None, Some("r"), false);
      var rows := Run([Create(root), Create(child), Delete("c")]);
      rows == [root, child.(deleted := true)] && ListedAll(PoolTree(rows, map[], "o"), "c") == 1
  {
    var root := Pool("r", "o", "", 0, "budget", None, None, false);
    var child := Pool("c", "o", "", 0, "budget", None, Some("r"), false);
    var ops := [Create(root), Create(child), Delete("c")];
    assert ops[..2][..1] == [Create(root)] && [Create(root)][..0] == [] && ops[..2] == [Create(root), Create(child)];
    assert Run([Create(root)]) == [root];
    assert Run(ops[..2]) == [root, child];
    var rows := Run(ops);
    assert rows == [root, child.(deleted := true)];
    EveryRunIsAForest(ops);
    TreeListsEachOnce(rows, map[], "o", 1);
    IndexIsUnique(rows, 0);
    assert Parent(rows, 1) == Some(0);
  }
}
