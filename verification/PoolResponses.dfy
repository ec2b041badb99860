/** What the tree of pools that is returned says about the table. */
module PoolResponses {
  import opened Wrappers
  import opened PoolForest

  ghost predicate Rising(places: seq<nat>) {
    forall j, k :: 0 <= j < k < |places| ==> places[j] < places[k]
  }

  /** One more place in front of later ones. */
  lemma OneInFront(first: nat, rest: seq<nat>)
    requires Rising(rest) && forall j :: 0 <= j < |rest| ==> first < rest[j]
    ensures Rising([first] + rest) && forall c :: c in [first] + rest <==> c == first || c in rest
  {
  }

  /** The places of the rows that name the pool as their parent, in order of creation. */
  ghost predicate ListsChildren(rows: Rows, id: string, places: seq<nat>) {
    && Rising(places)
    && (forall c :: c in places <==> 0 <= c < |rows| && rows[c].parent == Some(id))
  }

  /** The places of the organization's live pools without a parent. */
  ghost predicate ListsRoots(rows: Rows, org: string, places: seq<nat>) {
    && Rising(places)
    && (forall c :: c in places <==>
         0 <= c < |rows| && rows[c].org == org && rows[c].parent.None? && !rows[c].deleted)
  }

  /** The response shows the row, the name of its owner if that is an employee, and below
      it, in order of creation, the rows that name it as their parent. */
  ghost predicate ShowsPool(rows: Rows, employees: map<string, string>, i: nat, r: Response)
    decreases r, 1
  {
    && i < |rows|
    && r.id == rows[i].id && r.name == rows[i].name && r.limit == rows[i].limit && r.org == rows[i].org
    && r.parent == rows[i].parent && r.purpose == rows[i].purpose && r.ownerId == rows[i].owner
    && (r.owner.Some? <==> rows[i].owner.Some? && rows[i].owner.value in employees)
    && (r.owner.Some? ==> r.owner.value == employees[rows[i].owner.value])
    && exists places :: ListsChildren(rows, r.id, places) && ShowsPools(rows, employees, places, r.children)
  }

  ghost predicate ShowsPools(rows: Rows, employees: map<string, string>, places: seq<nat>, rs: seq<Response>)
    decreases rs, 0
  {
    |rs| == |places| && forall j :: 0 <= j < |rs| ==> ShowsPool(rows, employees, places[j], rs[j])
  }

  lemma {:induction false} ChildrenInOrder(rows: Rows, id: string, from: nat)
    requires from <= |rows|
    ensures
      var places := Children(rows, id, from);
      && Rising(places)
      && (forall c :: c in places <==> from <= c < |rows| && rows[c].parent == Some(id))
    decreases |rows| - from
  {
    if from < |rows| {
      ChildrenInOrder(rows, id, from + 1);
      OneInFront(from, Children(rows, id, from + 1));
    }
  }

  lemma {:induction false} RootsInOrder(rows: Rows, org: string, from: nat)
    requires from <= |rows|
    ensures
      var places := Roots(rows, org, from);
      && Rising(places)
      && (forall c :: c in places <==>
           from <= c < |rows| && rows[c].org == org && rows[c].parent.None? && !rows[c].deleted)
    decreases |rows| - from
  {
    if from < |rows| {
      RootsInOrder(rows, org, from + 1);
      OneInFront(from, Roots(rows, org, from + 1));
    }
  }

  /** No child is older than its parent, so none is missed. */
  lemma AllChildren(rows: Rows, i: nat)
    requires Forest(rows) && i < |rows|
    ensures ListsChildren(rows, rows[i].id, Children(rows, rows[i].id, i + 1))
  {
    ChildrenInOrder(rows, rows[i].id, i + 1);
    forall c | 0 <= c < |rows| && rows[c].parent == Some(rows[i].id)
      ensures i < c
    {
      ChildrenAreYounger(rows, i, c);
    }
  }

  lemma EnrichShows(rows: Rows, employees: map<string, string>, i: nat)
    requires Forest(rows) && i < |rows|
    ensures ShowsPool(rows, employees, i, Enrich(rows, employees, i))
    decreases |rows| - i, 0
  {
    AllChildren(rows, i);
    EnrichAllShows(rows, employees, i + 1, Children(rows, rows[i].id, i + 1));
  }

  lemma {:induction false} EnrichAllShows(rows: Rows, employees: map<string, string>, from: nat, places: seq<nat>)
    requires Forest(rows) && from <= |rows| && Places(places, from, |rows|)
    ensures ShowsPools(rows, employees, places, EnrichAll(rows, employees, from, places))
    decreases |rows| - from, 1, places
  {
    if places != [] {
      EnrichShows(rows, employees, places[0]);
      EnrichAllShows(rows, employees, from, places[1..]);
      assert forall j :: 0 < j < |places| ==> places[j] == places[1..][j - 1];
    }
  }

  /** After every sequence of creations and deletions, the tree of an organization shows
      its live roots, and below each pool, at every depth, the pools that name it as their
      parent, each as its row says. */
  lemma TreeShowsTheTable(ops: seq<Op>, employees: map<string, string>, org: string)
    ensures exists places ::
      ListsRoots(Run(ops), org, places) && ShowsPools(Run(ops), employees, places, PoolTree(Run(ops), employees, org))
  {
    var rows := Run(ops);
    EveryRunIsAForest(ops);
    RootsInOrder(rows, org, 0);
    var places := Roots(rows, org, 0);
    EnrichAllShows(rows, employees, 0, places);
    assert ListsRoots(rows, org, places);
  }

  /** A deletion marks the pool, hands its live children to its parent, and changes
      nothing else. */
  lemma DeletionChangesLittle(rows: Rows, id: string, i: nat)
    requires Forest(rows) && i < |rows|
    ensures
      var rows' := Apply(rows, Delete(id));
      var live := exists k :: 0 <= k < |rows| && rows[k].id == id && !rows[k].deleted;
      && |rows'| == |rows|
      && rows'[i] == rows[i].(deleted := rows[i].deleted || rows[i].id == id, parent := rows'[i].parent)
      && (!live || rows[i].deleted || rows[i].parent != Some(id) ==> rows'[i].parent == rows[i].parent)
      && (forall k :: 0 <= k < |rows| && rows[k].id == id && live && !rows[i].deleted && rows[i].parent == Some(id) ==>
            rows'[i].parent == rows[k].parent)
  {
    var k := IndexOf(rows, id);
    if k < |rows| {
      IndexIsUnique(rows, k);
      if rows[i].parent == Some(id) {
        ChildrenAreYounger(rows, k, i);
      }
    }
  }
}
