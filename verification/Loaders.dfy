/**
 The three loader shapes of the generated query layer, over edge cells.

 An edge of a node is a heap cell, which is what the `assign` callback of a
 generated loader writes.  Every loader indexes the owners once, runs one batched
 query and sends the neighbours back through the index.
 */
module Loaders {
  import opened Wrappers
  import opened Sequences
  import opened Relational

  /** A unique edge. */
  class One<T> {
    var value: Option<T>

    constructor ()
      ensures value == None
    {
      value := None;
    }
  }

  /** A non-unique edge. */
  class Many<T> {
    var items: seq<T>

    constructor ()
      ensures items == []
    {
      items := [];
    }
  }

  datatype LoadError = InvalidColumn(name: string) | UnexpectedKey(key: int)

  ghost predicate AllIn<K>(keys: seq<K>, index: set<K>) {
    forall i :: 0 <= i < |keys| ==> keys[i] in index
  }

  /** The first key the index does not know. */
  ghost predicate FirstUnknown(keys: seq<int>, index: set<int>, k: int) {
    exists i :: 0 <= i < |keys| && keys[i] == k && k !in index && AllIn(keys[..i], index)
  }

  // ----- many-to-one -----

  ghost predicate KeysIndexed(keys: seq<Option<int>>, index: set<int>) {
    forall i :: 0 <= i < |keys| && keys[i].Some? ==> keys[i].value in index
  }

  lemma KeysRequested(keys: seq<Option<int>>, index: set<int>)
    requires forall k :: k in index <==> k in RequestedIds(keys)
    ensures KeysIndexed(keys, index)
  {
    RequestedIdsExact(keys);
    forall i | 0 <= i < |keys| && keys[i].Some? ensures keys[i].value in index {
      var k := keys[i].value;
      assert keys[i] == Some(k);
      assert Some(k) in keys;
      assert k in RequestedIds(keys);
    }
  }

  lemma {:induction false} PickMembers<K, T>(xs: seq<T>, keys: seq<K>, k: K)
    requires |xs| == |keys|
    ensures forall j :: 0 <= j < |xs| && keys[j] == k ==> xs[j] in Pick(xs, keys, k)
    ensures forall x :: x in Pick(xs, keys, k) ==> exists j :: 0 <= j < |xs| && keys[j] == k && xs[j] == x
  {
    if xs != [] {
      var n := |xs| - 1;
      PickMembers(xs[..n], keys[..n], k);
      forall j | 0 <= j < |xs| && keys[j] == k ensures xs[j] in Pick(xs, keys, k) {
        assert j < n ==> xs[..n][j] in Pick(xs[..n], keys[..n], k);
      }
      forall x | x in Pick(xs, keys, k) ensures exists j :: 0 <= j < |xs| && keys[j] == k && xs[j] == x {
        if x in Pick(xs[..n], keys[..n], k) {
          var j :| 0 <= j < n && keys[..n][j] == k && xs[..n][j] == x;
        } else {
          assert keys[n] == k && xs[n] == x;
        }
      }
    }
  }

  /** Buckets the owners by foreign key; nil keys are skipped, each key is requested once. */
  method IndexByKey<N>(nodes: seq<N>, keys: seq<Option<int>>) returns (ids: seq<int>, nodeids: map<int, seq<N>>)
    requires |nodes| == |keys|
    ensures ids == RequestedIds(keys)
    ensures forall k :: k in nodeids <==> k in ids
    ensures forall k :: k in nodeids ==> nodeids[k] == Pick(nodes, keys, Some(k))
    ensures KeysIndexed(keys, nodeids.Keys)
  {
    ids, nodeids := [], map[];
    for i := 0 to |nodes|
      invariant ids == RequestedIds(keys[..i])
      invariant forall k :: k in nodeids <==> k in ids
      invariant forall k :: k in nodeids ==> nodeids[k] == Pick(nodes[..i], keys[..i], Some(k))
      invariant forall k :: k !in nodeids ==> Pick(nodes[..i], keys[..i], Some(k)) == []
    {
      assert nodes[..i + 1][..i] == nodes[..i] && keys[..i + 1][..i] == keys[..i];
      if keys[i].None? {
        continue;
      }
      var fk := keys[i].value;
      if fk !in nodeids {
        ids := ids + [fk];
        nodeids := nodeids[fk := []];
      }
      nodeids := nodeids[fk := nodeids[fk] + [nodes[i]]];
    }
    assert nodes[..|nodes|] == nodes && keys[..|nodes|] == keys;
    KeysRequested(keys, nodeids.Keys);
  }

  method AssignBucket<T>(bucket: seq<One<T>>, x: T)
    modifies bucket
    ensures forall c :: c in bucket ==> c.value == Some(x)
  {
    for i := 0 to |bucket|
      invariant forall j :: 0 <= j < i ==> bucket[j].value == Some(x)
    {
      bucket[i].value := Some(x);
    }
  }

  /** What a unique edge holds once the neighbours `xs` with ids `ids` were assigned. */
  function Assigned<T>(xs: seq<T>, ids: seq<int>, key: Option<int>): Option<T>
    requires |xs| == |ids|
  {
    if key.None? then None else Last(Pick(xs, ids, key.value))
  }

  /** Sends every neighbour to the owners in its bucket. */
  method AssignOne<T>(cells: seq<One<T>>, keys: seq<Option<int>>, nodeids: map<int, seq<One<T>>>, neighbours: seq<T>, ids: seq<int>)
    returns (r: Result<(), LoadError>)
    requires |cells| == |keys| && |neighbours| == |ids|
    requires NoDuplicates(cells)
    requires forall c :: c in cells ==> c.value == None
    requires forall k :: k in nodeids ==> nodeids[k] == Pick(cells, keys, Some(k))
    requires KeysIndexed(keys, nodeids.Keys)
    modifies cells
    ensures r.Ok? <==> AllIn(ids, nodeids.Keys)
    ensures r.Err? ==> r.error.UnexpectedKey? && FirstUnknown(ids, nodeids.Keys, r.error.key)
    ensures r.Ok? ==> forall j :: 0 <= j < |cells| ==> cells[j].value == Assigned(neighbours, ids, keys[j])
  {
    for i := 0 to |neighbours|
      invariant AllIn(ids[..i], nodeids.Keys)
      invariant forall j :: 0 <= j < |cells| ==> cells[j].value == Assigned(neighbours[..i], ids[..i], keys[j])
    {
      var n, id := neighbours[i], ids[i];
      assert neighbours[..i + 1][..i] == neighbours[..i] && ids[..i + 1][..i] == ids[..i];
      if id !in nodeids {
        return Err(UnexpectedKey(id));
      }
      var bucket := nodeids[id];
      forall m | 0 <= m < |bucket| ensures bucket[m] in cells {
        PickMembers(cells, keys, Some(id));
        assert bucket[m] in bucket;
      }
      assert forall j :: 0 <= j < |cells| ==> (cells[j] in bucket <==> keys[j] == Some(id)) by { PickMembers(cells, keys, Some(id)); }
      AssignBucket(bucket, n);
    }
    assert neighbours[..|neighbours|] == neighbours && ids[..|neighbours|] == ids;
    return Ok(());
  }

  // ----- one-to-many -----

  method IndexById<N>(nodes: seq<N>, ids: seq<int>) returns (nodeids: map<int, N>)
    requires |nodes| == |ids| && NoDuplicates(ids)
    ensures forall k :: k in nodeids <==> k in ids
    ensures forall j :: 0 <= j < |nodes| ==> ids[j] in nodeids && nodeids[ids[j]] == nodes[j]
  {
    nodeids := map[];
    for i := 0 to |nodes|
      invariant forall k :: k in nodeids <==> k in ids[..i]
      invariant forall j :: 0 <= j < i ==> ids[j] in nodeids && nodeids[ids[j]] == nodes[j]
    {
      nodeids := nodeids[ids[i] := nodes[i]];
    }
    assert ids[..|nodes|] == ids;
  }

  /** Resets every edge, then appends each neighbour to the owner its foreign key names. */
  method AssignMany<T>(cells: seq<Many<T>>, ids: seq<int>, nodeids: map<int, Many<T>>, neighbours: seq<T>, fks: seq<int>)
    returns (r: Result<(), LoadError>)
    requires |cells| == |ids| && |neighbours| == |fks|
    requires NoDuplicates(cells) && NoDuplicates(ids)
    requires forall c :: c in cells ==> c.items == []
    requires forall k :: k in nodeids <==> k in ids
    requires forall j :: 0 <= j < |cells| ==> ids[j] in nodeids && nodeids[ids[j]] == cells[j]
    modifies cells
    ensures r.Ok? <==> AllIn(fks, nodeids.Keys)
    ensures r.Err? ==> r.error.UnexpectedKey? && FirstUnknown(fks, nodeids.Keys, r.error.key)
    ensures r.Ok? ==> forall j :: 0 <= j < |cells| ==> cells[j].items == Pick(neighbours, fks, ids[j])
  {
    for i := 0 to |neighbours|
      invariant AllIn(fks[..i], nodeids.Keys)
      invariant forall j :: 0 <= j < |cells| ==> cells[j].items == Pick(neighbours[..i], fks[..i], ids[j])
    {
      var n, fk := neighbours[i], fks[i];
      assert neighbours[..i + 1][..i] == neighbours[..i] && fks[..i + 1][..i] == fks[..i];
      if fk !in nodeids {
        return Err(UnexpectedKey(fk));
      }
      var k :| 0 <= k < |ids| && ids[k] == fk;
      var owner := nodeids[fk];
      owner.items := owner.items + [n];
    }
    assert neighbours[..|neighbours|] == neighbours && fks[..|neighbours|] == fks;
    return Ok(());
  }

  // ----- many-to-many -----

  /** The owners the rows pair with neighbour `k`. */
  function OwnersOf<N>(rows: seq<JoinRow>, k: int, byID: map<int, N>): set<N>
    requires forall i :: 0 <= i < |rows| ==> rows[i].owner in byID
  {
    if rows == [] then {}
    else
      var n := |rows| - 1;
      OwnersOf(rows[..n], k, byID) + if rows[n].group.id == k then {byID[rows[n].owner]} else {}
  }

  /** How many neighbours the owners with these ids get together. */
  function Spread<T>(neighbours: seq<T>, fks: seq<int>, ids: seq<int>): nat
    requires |neighbours| == |fks|
  {
    if ids == [] then 0
    else Spread(neighbours, fks, ids[..|ids| - 1]) + |Pick(neighbours, fks, ids[|ids| - 1])|
  }

  lemma {:induction false} OneMoreSpread<T>(neighbours: seq<T>, fks: seq<int>, ids: seq<int>)
    requires |neighbours| == |fks| && neighbours != [] && NoDuplicates(ids)
    ensures var n := |fks| - 1;
            Spread(neighbours, fks, ids) == Spread(neighbours[..n], fks[..n], ids) + if fks[n] in ids then 1 else 0
    decreases |ids|
  {
    if ids != [] {
      OneMoreSpread(neighbours, fks, ids[..|ids| - 1]);
      assert ids == ids[..|ids| - 1] + [ids[|ids| - 1]];
    }
  }

  /** No child is lost and none is given twice: the shares of distinct owners add up to the rows whose owner is among them. */
  lemma {:induction false} SpreadConserves<T>(neighbours: seq<T>, fks: seq<int>, ids: seq<int>)
    requires |neighbours| == |fks| && NoDuplicates(ids)
    ensures Spread(neighbours, fks, ids) == |Filter(fks, k => k in ids)|
    ensures AllIn(fks, set i | i in ids) ==> Spread(neighbours, fks, ids) == |neighbours|
  {
    if neighbours == [] {
      NothingSpread(neighbours, fks, ids);
    } else {
      var n := |fks| - 1;
      SpreadConserves(neighbours[..n], fks[..n], ids);
      OneMoreSpread(neighbours, fks, ids);
    }
  }

  lemma {:induction false} NothingSpread<T>(neighbours: seq<T>, fks: seq<int>, ids: seq<int>)
    requires |neighbours| == |fks| == 0
    ensures Spread(neighbours, fks, ids) == 0
  {
    if ids != [] {
      NothingSpread(neighbours, fks, ids[..|ids| - 1]);
    }
  }

  lemma {:induction false} OwnersExact<N>(rows: seq<JoinRow>, k: int, byID: map<int, N>, cells: seq<N>, ids: seq<int>, j: nat)
    requires j < |cells| == |ids| && NoDuplicates(cells)
    requires forall x :: x in byID <==> x in ids
    requires forall m :: 0 <= m < |cells| ==> ids[m] in byID && byID[ids[m]] == cells[m]
    requires forall i :: 0 <= i < |rows| ==> rows[i].owner in byID
    ensures cells[j] in OwnersOf(rows, k, byID) <==> Linked(rows, ids[j], k)
    ensures OwnersOf(rows, k, byID) <= set c | c in cells
  {
    if rows != [] {
      var n := |rows| - 1;
      OwnersExact(rows[..n], k, byID, cells, ids, j);
      var m :| 0 <= m < |ids| && ids[m] == rows[n].owner;
      assert Linked(rows, ids[j], k) <==> Linked(rows[..n], ids[j], k) || (rows[n].owner == ids[j] && rows[n].group.id == k) by {
        if i :| 0 <= i < n && rows[..n][i].owner == ids[j] && rows[..n][i].group.id == k {
          assert rows[i].owner == ids[j] && rows[i].group.id == k;
        }
        if i :| 0 <= i < |rows| && rows[i].owner == ids[j] && rows[i].group.id == k {
          assert i < n ==> rows[..n][i].owner == ids[j] && rows[..n][i].group.id == k;
        }
      }
    }
  }

  /**
   The scan hook of the many-to-many loader: a neighbour is built when its id is first
   seen, later rows only add their owner to the neighbour's owner set.
   */
  method ScanJoin<N>(rows: seq<JoinRow>, byID: map<int, N>) returns (neighbours: seq<Entity>, nids: map<int, set<N>>)
    requires forall i :: 0 <= i < |rows| ==> rows[i].owner in byID
    ensures neighbours == FirstGroups(rows)
    ensures forall k :: k in nids <==> k in EntityIds(neighbours)
    ensures forall k :: k in nids ==> nids[k] == OwnersOf(rows, k, byID)
  {
    neighbours, nids := [], map[];
    for i := 0 to |rows|
      invariant neighbours == FirstGroups(rows[..i])
      invariant forall k :: k in nids <==> k in EntityIds(neighbours)
      invariant forall k :: k in nids ==> nids[k] == OwnersOf(rows[..i], k, byID)
      invariant forall k :: k !in nids ==> OwnersOf(rows[..i], k, byID) == {}
    {
      var r := rows[i];
      assert rows[..i + 1][..i] == rows[..i];
      var outValue, inValue := r.owner, r.group.id;
      if inValue !in nids {
        assert EntityIds(neighbours + [r.group]) == EntityIds(neighbours) + [inValue];
        neighbours := neighbours + [r.group];
        nids := nids[inValue := {byID[outValue]}];
      } else {
        nids := nids[inValue := nids[inValue] + {byID[outValue]}];
      }
    }
    assert rows[..|rows|] == rows;
  }

  /** Visits the owners in whatever order the map iteration yields them. */
  method AppendToAll<T>(owners: set<Many<T>>, x: T)
    modifies owners
    ensures forall c :: c in owners ==> c.items == old(c.items) + [x]
  {
    var todo := owners;
    while todo != {}
      invariant todo <= owners
      invariant forall c :: c in owners ==> c.items == if c in todo then old(c.items) else old(c.items) + [x]
    {
      var c :| c in todo;
      c.items := c.items + [x];
      todo := todo - {c};
    }
  }

  predicate OwnedIn<T>(nids: map<int, set<Many<T>>>, k: int, c: Many<T>) {
    k in nids && c in nids[k]
  }

  method AssignThrough(cells: seq<Many<Entity>>, nids: map<int, set<Many<Entity>>>, neighbours: seq<Entity>)
    returns (r: Result<(), LoadError>)
    requires NoDuplicates(cells)
    requires forall c :: c in cells ==> c.items == []
    requires forall k, c :: k in nids && c in nids[k] ==> c in cells
    modifies cells
    ensures r.Ok? <==> AllIn(EntityIds(neighbours), nids.Keys)
    ensures r.Err? ==> r.error.UnexpectedKey? && FirstUnknown(EntityIds(neighbours), nids.Keys, r.error.key)
    ensures r.Ok? ==> forall j :: 0 <= j < |cells| ==>
              cells[j].items == Filter(neighbours, (g: Entity) => OwnedIn(nids, g.id, cells[j]))
  {
    for i := 0 to |neighbours|
      invariant AllIn(EntityIds(neighbours)[..i], nids.Keys)
      invariant forall j :: 0 <= j < |cells| ==>
                  cells[j].items == Filter(neighbours[..i], (g: Entity) => OwnedIn(nids, g.id, cells[j]))
    {
      var n := neighbours[i];
      assert neighbours[..i + 1][..i] == neighbours[..i];
      assert EntityIds(neighbours)[i] == n.id;
      if n.id !in nids {
        return Err(UnexpectedKey(n.id));
      }
      assert forall c :: c in nids[n.id] ==> c in cells;
      AppendToAll(nids[n.id], n);
    }
    assert neighbours[..|neighbours|] == neighbours;
    return Ok(());
  }
}
