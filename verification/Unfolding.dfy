/**
 The direct relational reading of a plan, and the proof that the batched reading
 agrees with it whenever no sub-query is limited.
 */
module Unfolding {
  import opened Wrappers
  import opened Sequences
  import opened Relational
  import opened QueryAnswers

  // ----- the direct reading -----

  predicate LinkExists(db: Database, owner: int, group: int) {
    exists i :: 0 <= i < |db.accountGroups| && db.accountGroups[i].accountId == owner && db.accountGroups[i].groupId == group
  }

  /** `e` is what is read of a group that satisfies the sub-query and is linked to `owner`. */
  ghost predicate IsGroupOf(e: Entity, s: Settings<Entity>, owner: int, db: Database) {
    exists g :: g in db.groups && Holds(s.preds, g) && LinkExists(db, owner, g.id)
                && e == ReadEntity(g, SelectedWithId(s.fields, db.groupColumns))
  }

  ghost predicate IsProxyOf(e: Entity, s: Settings<Entity>, key: Option<int>, db: Database) {
    exists p :: p in db.proxies && Holds(s.preds, p) && key == Some(p.id)
                && e == ReadEntity(p, SelectedWithId(s.fields, db.proxyColumns))
  }

  function OwnRows(p: AccountGroupPlan, owner: int, db: Database): seq<AccountGroupRow> {
    Arrange(Filter(db.accountGroups, (r: AccountGroupRow) => Holds(p.own.preds, r) && r.accountId == owner), p.own.order)
  }

  function ParentRow(p: AccountPlan, id: int, db: Database): Option<AccountRow> {
    Last(Filter(db.accounts, (r: AccountRow) => Holds(p.own.preds, r) && r.id == id))
  }

  function WithForeignKey(p: AccountGroupPlan): AccountGroupPlan {
    p.(own := p.own.(fields := EdgeFields(p.own.fields)))
  }

  /** `v` is row `row` with, per requested edge, exactly the rows the relation pairs with it. */
  ghost predicate UnfoldsAccount(v: AccountView, plan: AccountPlan, row: AccountRow, db: Database)
    decreases plan.edges
  {
    && v.fields == AccountFields(plan, row, db)
    && v.loaded == AccountFlags(plan.edges)
    && (match plan.edges.groups
        case None => v.groups == []
        case Some(s) =>
          && NoDuplicates(EntityIds(v.groups))
          && forall e :: e in v.groups <==> IsGroupOf(e, s, row.id, db))
    && (match plan.edges.proxy
        case None => v.proxy == None
        case Some(s) => forall e :: v.proxy == Some(e) <==> IsProxyOf(e, s, row.proxyId, db))
    && (match plan.edges.accountGroups
        case None => v.accountGroups == []
        case Some(p) =>
          UnfoldsRows(v.accountGroups, p, row.id, db))
  }

  /** The views are those of the owner's rows, in the sub-query's order. */
  ghost predicate UnfoldsRows(views: seq<AccountGroupView>, p: AccountGroupPlan, owner: int, db: Database)
    decreases p
  {
    exists own ::
      && AreOwnRows(own, p.own, owner, db.accountGroups) && |views| == |own|
      && forall i :: 0 <= i < |own| ==> UnfoldsAccountGroup(views[i], WithForeignKey(p), own[i], db)
  }

  ghost predicate UnfoldsAccountGroup(v: AccountGroupView, plan: AccountGroupPlan, row: AccountGroupRow, db: Database)
    decreases plan.account
  {
    && v.fields == AccountGroupFields(plan, row, db)
    && v.loadedAccount == plan.account.Some?
    && match plan.account
       case None => v.account == None
       case Some(p) =>
         match ParentRow(p, row.accountId, db)
         case None => v.account == None
         case Some(a) => v.account.Some? && UnfoldsAccount(v.account.value, p, a, db)
  }

  predicate Whole<R>(s: Settings<R>) {
    (s.limit.None? || s.limit.value == 0) && (s.offset.None? || s.offset.value == 0)
  }

  /** No sub-query, at any depth, has a limit or an offset. */
  predicate Unlimited(edges: AccountEdges) {
    && (edges.groups.Some? ==> Whole(edges.groups.value))
    && (edges.proxy.Some? ==> Whole(edges.proxy.value))
    && (edges.accountGroups.Some? ==>
          var p := edges.accountGroups.value;
          && Whole(p.own)
          && (p.account.Some? ==> Whole(p.account.value.own) && Unlimited(p.account.value.edges)))
  }

  // ----- one table -----

  /** Restricting a batch to one key gives the rows a query for that key alone returns. */
  lemma BatchRestricted<R>(s: Settings<R>, inBatch: R -> bool, own: R -> bool, direct: R -> bool, table: seq<R>)
    requires Whole(s)
    requires forall r :: own(r) ==> inBatch(r)
    requires forall r :: direct(r) == (Holds(s.preds, r) && own(r))
    ensures Filter(Rows(Narrowed(s, inBatch), table), own) == Arrange(Filter(table, direct), s.order)
  {
    var preds := s.preds + [inBatch];
    var batch := (r: R) => Holds(preds, r);
    var rows := Filter(table, r => Holds(preds, r));
    FilterSame(table, r => Holds(preds, r), batch);
    forall r ensures batch(r) == (Holds(s.preds, r) && inBatch(r)) {
      HoldsBoth(s.preds, inBatch, r);
    }
    FilterArrange(rows, s.order, own);
    FilterFilter(table, batch, own, direct);
    var s' := Narrowed(s, inBatch);
    FilterSame(table, r => Holds(s'.preds, r), batch);
  }

  lemma HoldsBoth<R>(preds: seq<R -> bool>, p: R -> bool, r: R)
    ensures Holds(preds + [p], r) == (Holds(preds, r) && p(r))
  {
    var both := preds + [p];
    assert both[|preds|] == p;
    assert forall i :: 0 <= i < |preds| ==> both[i] == preds[i];
  }

  lemma PageMembers<R>(xs: seq<R>, limit: Option<nat>, offset: Option<nat>)
    ensures forall x :: x in Page(xs, limit, offset) ==> x in xs
  {
  }

  lemma RowsHold<R>(s: Settings<R>, table: seq<R>)
    ensures forall r :: r in Rows(s, table) ==> r in table && Holds(s.preds, r)
  {
    var p := r => Holds(s.preds, r);
    FilterSame(table, p, r => Holds(s.preds, r));
    FilterMembers(table, p);
    var hits := Filter(table, r => Holds(s.preds, r));
    ArrangeMembers(hits, s.order);
    PageMembers(Arrange(hits, s.order), s.limit, s.offset);
    forall r | r in Rows(s, table) ensures r in table && Holds(s.preds, r) {
      assert r in Arrange(hits, s.order);
      assert r in multiset(hits);
    }
  }

  lemma KidsOwned(plan: AccountGroupPlan, ids: seq<int>, db: Database)
    ensures var kids := Rows(OwnedBy(plan, ids).own, db.accountGroups);
            forall i :: 0 <= i < |kids| ==> Owners(kids)[i] in ids
  {
    var kids := Rows(OwnedBy(plan, ids).own, db.accountGroups);
    RowsHold(OwnedBy(plan, ids).own, db.accountGroups);
    forall i | 0 <= i < |kids| ensures Owners(kids)[i] in ids {
      assert kids[i] in kids;
      HoldsBoth(plan.own.preds, OwnerIn(ids), kids[i]);
    }
  }

  lemma ParentIds(plan: AccountPlan, ids: seq<int>, db: Database)
    ensures var parents := Rows(AccountsIn(plan, ids).own, db.accounts);
            forall i :: 0 <= i < |parents| ==> AccountIds(parents)[i] in ids
  {
    var parents := Rows(AccountsIn(plan, ids).own, db.accounts);
    RowsHold(AccountsIn(plan, ids).own, db.accounts);
    forall i | 0 <= i < |parents| ensures AccountIds(parents)[i] in ids {
      assert parents[i] in parents;
      HoldsBoth(plan.own.preds, AccountIdIn(ids), parents[i]);
    }
  }

  /** Whatever columns are selected, the id is read. */
  lemma ReadKeepsId(e: Entity, fields: seq<string>, all: seq<string>)
    requires FIELD_ID in all
    ensures ReadEntity(e, SelectedWithId(fields, all)).id == e.id
  {
    assert FIELD_ID in SelectedWithId(fields, all);
  }

  /** The reading of a node depends on the selected columns and the edges of its plan only. */
  lemma SameReading(v: AccountView, p: AccountPlan, q: AccountPlan, row: AccountRow, db: Database)
    requires p.own.fields == q.own.fields && p.edges == q.edges
    ensures UnfoldsAccount(v, p, row, db) == UnfoldsAccount(v, q, row, db)
  {
  }

  // ----- the edges, one by one -----

  lemma {:induction false} UniqueMatch<T>(xs: seq<T>, key: T -> int, k: int, p: T -> bool)
    requires NoDuplicates(Map(key, xs))
    requires forall x :: p(x) ==> key(x) == k
    ensures |Filter(xs, p)| <= 1
  {
    if xs != [] {
      var n := |xs| - 1;
      assert Map(key, xs[..n]) == Map(key, xs)[..n];
      UniqueMatch(xs[..n], key, k, p);
      FilterMembers(xs[..n], p);
      forall x | x in xs[..n] ensures key(x) != key(xs[n]) {
        var i :| 0 <= i < n && xs[..n][i] == x;
        assert Map(key, xs)[i] != Map(key, xs)[n];
      }
      assert Filter(xs[..n], p) != [] ==> Filter(xs[..n], p)[0] in xs[..n];
    }
  }

  lemma {:induction false} ArrangeShort<T>(xs: seq<T>, keys: seq<T -> int>)
    requires |xs| <= 1
    ensures Arrange(xs, keys) == xs
  {
    if keys != [] {
      ArrangeShort(xs, keys[1..]);
      if |xs| == 1 {
        assert Sort(xs[..0], keys[0]) == [];
        assert Insert(xs[0], [], keys[0]) == xs;
      }
    }
  }

  /** A batched lookup by primary key finds what a lookup of that key alone finds. */
  lemma BatchedLookup<R>(s: Settings<R>, ids: seq<int>, id: R -> int, k: int, table: seq<R>, inIds: R -> bool, direct: R -> bool)
    requires Whole(s) && k in ids
    requires NoDuplicates(Map(id, table))
    requires forall r :: inIds(r) == (id(r) in ids)
    requires forall r :: direct(r) == (Holds(s.preds, r) && id(r) == k)
    ensures var rows := Rows(Narrowed(s, inIds), table);
            Pick(rows, Map(id, rows), k) == Filter(table, direct) && |Filter(table, direct)| <= 1
  {
    var rows := Rows(Narrowed(s, inIds), table);
    var own := (r: R) => id(r) == k;
    PickIsFilter(rows, Map(id, rows), k, own);
    BatchRestricted(s, inIds, own, direct, table);
    UniqueMatch(table, id, k, direct);
    ArrangeShort(Filter(table, direct), s.order);
  }

  function ProxiesWithId(s: Settings<Entity>, k: int, db: Database): seq<Entity> {
    Filter(db.proxies, (r: Entity) => Holds(s.preds, r) && r.id == k)
  }

  lemma ProxiesWithIdExact(s: Settings<Entity>, k: int, db: Database)
    ensures forall p :: p in ProxiesWithId(s, k, db) <==> p in db.proxies && Holds(s.preds, p) && p.id == k
    ensures ProxiesWithId(s, k, db) != [] ==> ProxiesWithId(s, k, db)[0] in ProxiesWithId(s, k, db)
  {
    FilterMembers(db.proxies, (r: Entity) => Holds(s.preds, r) && r.id == k);
  }

  lemma ProxyLookup(s: Settings<Entity>, ids: seq<int>, k: int, db: Database)
    requires db.Valid() && Whole(s) && k in ids
    ensures var columns := SelectedWithId(s.fields, db.proxyColumns);
            var read := ReadProxies(WithIdIn(s, ids), db);
            var found := ProxiesWithId(s, k, db);
            && |found| <= 1
            && OneOf(read, Some(k)) == if found == [] then None else Some(ReadEntity(found[0], columns))
  {
    var columns := SelectedWithId(s.fields, db.proxyColumns);
    var direct := (r: Entity) => Holds(s.preds, r) && r.id == k;
    FilterSame(db.proxies, direct, (r: Entity) => Holds(s.preds, r) && r.id == k);
    BatchedLookup(s, ids, (r: Entity) => r.id, k, db.proxies, IdIn(ids), direct);
    var rows := Rows(WithIdIn(s, ids), db.proxies);
    var read := ReadProxies(WithIdIn(s, ids), db);
    assert EntityIds(read) == EntityIds(rows);
    PickSamePositions(rows, read, EntityIds(rows), k);
  }

  lemma ProxyEdge(s: Settings<Entity>, row: AccountRow, batch: seq<AccountRow>, db: Database)
    requires db.Valid() && Whole(s) && row in batch
    ensures forall e :: OneOf(ProxyBatch(s, ProxyKeys(batch), db), row.proxyId) == Some(e) <==> IsProxyOf(e, s, row.proxyId, db)
  {
    if row.proxyId.Some? {
      var k := row.proxyId.value;
      var i :| 0 <= i < |batch| && batch[i] == row;
      assert ProxyKeys(batch)[i] == Some(k);
      RequestedIdsExact(ProxyKeys(batch));
      ProxyLookup(s, RequestedIds(ProxyKeys(batch)), k, db);
      ProxiesWithIdExact(s, k, db);
    }
  }

  lemma AccountGroupEdge(p: AccountGroupPlan, owner: int, ids: seq<int>, db: Database)
    requires Whole(p.own) && owner in ids
    ensures var kids := Rows(OwnedBy(p, ids).own, db.accountGroups);
            Pick(kids, Owners(kids), owner) == OwnRows(p, owner, db)
    ensures AreOwnRows(OwnRows(p, owner, db), p.own, owner, db.accountGroups)
  {
    var kids := Rows(OwnedBy(p, ids).own, db.accountGroups);
    var own := (r: AccountGroupRow) => r.accountId == owner;
    var direct := (r: AccountGroupRow) => Holds(p.own.preds, r) && r.accountId == owner;
    var inBatch := OwnerIn(ids);
    PickIsFilter(kids, Owners(kids), owner, own);
    BatchRestricted(p.own, inBatch, own, direct, db.accountGroups);
    RowsSame(Narrowed(p.own, inBatch), OwnedBy(p, ids).own, db.accountGroups);
    FilterSame(db.accountGroups, direct, (r: AccountGroupRow) => Holds(p.own.preds, r) && r.accountId == owner);
    OwnRowsListed(p.own, owner, db.accountGroups, direct);
  }

  /** Only the predicates, the order and the paging of a query decide its rows. */
  lemma RowsSame<R>(s: Settings<R>, t: Settings<R>, table: seq<R>)
    requires s.order == t.order && s.limit == t.limit && s.offset == t.offset
    requires forall r :: Holds(s.preds, r) == Holds(t.preds, r)
    ensures Rows(s, table) == Rows(t, table)
  {
    FilterSame(table, r => Holds(s.preds, r), r => Holds(t.preds, r));
  }

  lemma ParentEdge(p: AccountPlan, row: AccountGroupRow, batch: seq<AccountGroupRow>, db: Database)
    requires db.Valid() && Whole(p.own) && row in batch
    ensures var parents := Rows(AccountsIn(p, RequestedIds(OwnerKeys(batch))).own, db.accounts);
            Last(Pick(parents, AccountIds(parents), row.accountId)) == ParentRow(p, row.accountId, db)
  {
    var i :| 0 <= i < |batch| && batch[i] == row;
    assert OwnerKeys(batch)[i] == Some(row.accountId);
    RequestedIdsExact(OwnerKeys(batch));
    var ids := RequestedIds(OwnerKeys(batch));
    var direct := (r: AccountRow) => Holds(p.own.preds, r) && r.id == row.accountId;
    var inIds := AccountIdIn(ids);
    BatchedLookup(p.own, ids, (r: AccountRow) => r.id, row.accountId, db.accounts, inIds, direct);
    FilterSame(db.accounts, direct, (r: AccountRow) => Holds(p.own.preds, r) && r.id == row.accountId);
  }

  // ----- the many-to-many edge -----

  lemma {:induction false} JoinedExact(links: seq<AccountGroupRow>, groups: seq<Entity>, owners: seq<int>, preds: seq<Entity -> bool>)
    ensures forall j :: j in Joined(links, groups, owners, preds) <==>
              && j.owner in owners && j.group in groups && Holds(preds, j.group)
              && exists i :: 0 <= i < |links| && links[i].accountId == j.owner && links[i].groupId == j.group.id
  {
    if links != [] {
      var n := |links| - 1;
      var link := links[n];
      JoinedExact(links[..n], groups, owners, preds);
      var p := (g: Entity) => g.id == link.groupId && Holds(preds, g);
      FilterSame(groups, p, (g: Entity) => g.id == link.groupId && Holds(preds, g));
      FilterMembers(groups, p);
      var hits := Filter(groups, p);
      var added := Map((g: Entity) => JoinRow(link.accountId, g), hits);
      forall j ensures j in added <==> j.owner == link.accountId && j.group in hits {
        if j.owner == link.accountId && j.group in hits {
          var m :| 0 <= m < |hits| && hits[m] == j.group;
          assert added[m] == j;
        }
      }
      assert Joined(links, groups, owners, preds) ==
             if link.accountId !in owners then Joined(links[..n], groups, owners, preds)
             else Joined(links[..n], groups, owners, preds) + added;
    }
  }

  predicate Occurs(rows: seq<JoinRow>, g: Entity) {
    exists i :: 0 <= i < |rows| && rows[i].group == g
  }

  lemma {:induction false} FirstGroupsExact(rows: seq<JoinRow>)
    requires forall i, j :: 0 <= i < |rows| && 0 <= j < |rows| && rows[i].group.id == rows[j].group.id ==> rows[i].group == rows[j].group
    ensures NoDuplicates(EntityIds(FirstGroups(rows)))
    ensures forall g :: g in FirstGroups(rows) <==> Occurs(rows, g)
  {
    if rows != [] {
      var n := |rows| - 1;
      FirstGroupsExact(rows[..n]);
      var rest, g := FirstGroups(rows[..n]), rows[n].group;
      assert EntityIds(rest + [g]) == EntityIds(rest) + [g.id];
      assert forall e :: e in FirstGroups(rows) <==> e in rest || e == g by {
        if g.id in EntityIds(rest) {
          var m :| 0 <= m < |rest| && EntityIds(rest)[m] == g.id;
          assert rest[m] in rest;
          var i :| 0 <= i < n && rows[..n][i].group == rest[m];
          assert rows[i].group.id == rows[n].group.id;
        }
      }
      forall e ensures Occurs(rows, e) <==> Occurs(rows[..n], e) || e == g {
        if i :| 0 <= i < n && rows[..n][i].group == e {
          assert rows[i].group == e;
        }
        if i :| 0 <= i < |rows| && rows[i].group == e {
          assert i < n ==> rows[..n][i].group == e;
        }
      }
    }
  }

  lemma JoinedRowsExact(s: Settings<Entity>, owners: seq<int>, db: Database)
    requires Whole(s)
    ensures forall j :: j in JoinedRows(s, owners, db) <==>
              j.owner in owners && j.group in db.groups && Holds(s.preds, j.group) && LinkExists(db, j.owner, j.group.id)
  {
    var joined := Joined(db.accountGroups, db.groups, owners, s.preds);
    JoinedExact(db.accountGroups, db.groups, owners, s.preds);
    ArrangeMembers(joined, Map((k: Entity -> int) => (j: JoinRow) => k(j.group), s.order));
    assert forall j :: j in JoinedRows(s, owners, db) <==> j in multiset(JoinedRows(s, owners, db));
    assert forall j :: j in joined <==> j in multiset(joined);
  }

  /** The joined rows of a batch are exactly its links, with the groups as they are read. */
  lemma GroupBatchExact(s: Settings<Entity>, batch: seq<AccountRow>, db: Database, j: JoinRow)
    requires Whole(s)
    ensures j in ReadJoined(s, AccountIds(batch), db) <==> j.owner in AccountIds(batch) && IsGroupOf(j.group, s, j.owner, db)
  {
    var ids, columns := AccountIds(batch), SelectedWithId(s.fields, db.groupColumns);
    var rows, read := JoinedRows(s, ids, db), ReadJoined(s, AccountIds(batch), db);
    JoinedRowsExact(s, ids, db);
    if j in read {
      var m :| 0 <= m < |read| && read[m] == j;
      assert rows[m] in rows;
    }
    if j.owner in ids && IsGroupOf(j.group, s, j.owner, db) {
      var g :| g in db.groups && Holds(s.preds, g) && LinkExists(db, j.owner, g.id) && j.group == ReadEntity(g, columns);
      assert JoinRow(j.owner, g) in rows;
      var m :| 0 <= m < |rows| && rows[m] == JoinRow(j.owner, g);
      assert read[m] == j;
    }
  }

  lemma SameIdSameGroup(s: Settings<Entity>, e: Entity, f: Entity, o: int, o': int, db: Database)
    requires db.Valid() && IsGroupOf(e, s, o, db) && IsGroupOf(f, s, o', db) && e.id == f.id
    ensures e == f
  {
    var columns := SelectedWithId(s.fields, db.groupColumns);
    var g :| g in db.groups && e == ReadEntity(g, columns);
    var h :| h in db.groups && f == ReadEntity(h, columns);
    ReadKeepsId(g, s.fields, db.groupColumns);
    ReadKeepsId(h, s.fields, db.groupColumns);
    var i :| 0 <= i < |db.groups| && db.groups[i] == g;
    var j :| 0 <= j < |db.groups| && db.groups[j] == h;
    assert EntityIds(db.groups)[i] == EntityIds(db.groups)[j];
    assert i == j;
  }

  lemma {:induction false} FilterKeepsUnique<T>(xs: seq<T>, key: T -> int, p: T -> bool)
    requires NoDuplicates(Map(key, xs))
    ensures NoDuplicates(Map(key, Filter(xs, p)))
  {
    if xs != [] {
      var n := |xs| - 1;
      assert Map(key, xs[..n]) == Map(key, xs)[..n];
      FilterKeepsUnique(xs[..n], key, p);
      FilterMembers(xs[..n], p);
      var rest := Filter(xs[..n], p);
      forall m | 0 <= m < |rest| ensures key(rest[m]) != key(xs[n]) {
        assert rest[m] in xs[..n];
        var i :| 0 <= i < n && xs[..n][i] == rest[m];
        assert Map(key, xs)[i] != Map(key, xs)[n];
      }
      assert Map(key, rest + [xs[n]]) == Map(key, rest) + [key(xs[n])];
    }
  }

  function WithKey<T>(ys: seq<T>, key: T -> int, k: int): seq<T> { Filter(ys, (x: T) => key(x) == k) }

  /** Two elements with one key would both pass the filter for that key. */
  lemma UniqueByFilter<T>(ys: seq<T>, key: T -> int)
    requires forall k :: |WithKey(ys, key, k)| <= 1
    ensures NoDuplicates(Map(key, ys))
  {
    forall i, j | 0 <= i < j < |ys| ensures key(ys[i]) != key(ys[j]) {
      var p := (x: T) => key(x) == key(ys[j]);
      FilterConcat(ys[..j], ys[j..], p);
      assert ys[..j] + ys[j..] == ys;
      FilterMembers(ys[..j], p);
      FilterMembers(ys[j..], p);
      assert ys[j..][0] in Filter(ys[j..], p);
      assert ys[..j][i] in ys[..j];
      assert |WithKey(ys, key, key(ys[j]))| <= 1;
      FilterSame(ys, p, (x: T) => key(x) == key(ys[j]));
    }
  }

  lemma ArrangeKeepsUnique<T>(xs: seq<T>, keys: seq<T -> int>, key: T -> int)
    requires NoDuplicates(Map(key, xs))
    ensures NoDuplicates(Map(key, Arrange(xs, keys)))
  {
    var rows := Arrange(xs, keys);
    forall k ensures |WithKey(rows, key, k)| <= 1 {
      var p := (x: T) => key(x) == k;
      FilterArrange(xs, keys, p);
      UniqueMatch(xs, key, k, p);
      ArrangeMembers(Filter(xs, p), keys);
      FilterSame(rows, p, (x: T) => key(x) == k);
    }
    UniqueByFilter(rows, key);
  }

  lemma PageKeepsUnique<T>(xs: seq<T>, limit: Option<nat>, offset: Option<nat>, key: T -> int)
    requires NoDuplicates(Map(key, xs))
    ensures NoDuplicates(Map(key, Page(xs, limit, offset)))
  {
    var skip := |xs| - |Page(xs, None, offset)|;
    var page := Page(xs, limit, offset);
    forall i, j | 0 <= i < j < |page| ensures key(page[i]) != key(page[j]) {
      assert Map(key, xs)[skip + i] != Map(key, xs)[skip + j];
    }
  }

  /** A query on a keyed table returns every key at most once. */
  lemma RowsUnique<R>(s: Settings<R>, table: seq<R>, key: R -> int)
    requires NoDuplicates(Map(key, table))
    ensures NoDuplicates(Map(key, Rows(s, table)))
  {
    var hits := Filter(table, r => Holds(s.preds, r));
    FilterKeepsUnique(table, key, r => Holds(s.preds, r));
    ArrangeKeepsUnique(hits, s.order, key);
    PageKeepsUnique(Arrange(hits, s.order), s.limit, s.offset, key);
  }

  lemma GroupBatchConsistent(s: Settings<Entity>, batch: seq<AccountRow>, db: Database)
    requires db.Valid() && Whole(s)
    ensures var rows := ReadJoined(s, AccountIds(batch), db);
            forall i, j :: 0 <= i < |rows| && 0 <= j < |rows| && rows[i].group.id == rows[j].group.id ==> rows[i].group == rows[j].group
  {
    var rows := ReadJoined(s, AccountIds(batch), db);
    forall i, j | 0 <= i < |rows| && 0 <= j < |rows| && rows[i].group.id == rows[j].group.id
      ensures rows[i].group == rows[j].group
    {
      GroupBatchExact(s, batch, db, rows[i]);
      GroupBatchExact(s, batch, db, rows[j]);
      SameIdSameGroup(s, rows[i].group, rows[j].group, rows[i].owner, rows[j].owner, db);
    }
  }

  /** An owner gets a neighbour exactly when some joined row pairs them. */
  lemma ThroughExact(rows: seq<JoinRow>, owner: int)
    requires forall i, j :: 0 <= i < |rows| && 0 <= j < |rows| && rows[i].group.id == rows[j].group.id ==> rows[i].group == rows[j].group
    ensures NoDuplicates(EntityIds(Through(rows, owner)))
    ensures forall e :: e in Through(rows, owner) <==> JoinRow(owner, e) in rows
  {
    FirstGroupsExact(rows);
    var linked := (g: Entity) => Linked(rows, owner, g.id);
    FilterSame(FirstGroups(rows), linked, (g: Entity) => Linked(rows, owner, g.id));
    FilterKeepsUnique(FirstGroups(rows), (g: Entity) => g.id, linked);
    FilterMembers(FirstGroups(rows), linked);
    forall e ensures e in Through(rows, owner) <==> JoinRow(owner, e) in rows {
      if Occurs(rows, e) && Linked(rows, owner, e.id) {
        var i :| 0 <= i < |rows| && rows[i].owner == owner && rows[i].group.id == e.id;
        var j :| 0 <= j < |rows| && rows[j].group == e;
        assert rows[i] == JoinRow(owner, e);
      }
      if JoinRow(owner, e) in rows {
        var i :| 0 <= i < |rows| && rows[i] == JoinRow(owner, e);
        assert Occurs(rows, e) && Linked(rows, owner, e.id);
      }
    }
  }

  lemma GroupEdge(s: Settings<Entity>, row: AccountRow, batch: seq<AccountRow>, db: Database)
    requires db.Valid() && Whole(s) && row in batch
    ensures var groups := Through(ReadJoined(s, AccountIds(batch), db), row.id);
            NoDuplicates(EntityIds(groups)) && forall e :: e in groups <==> IsGroupOf(e, s, row.id, db)
  {
    var m :| 0 <= m < |batch| && batch[m] == row;
    assert AccountIds(batch)[m] == row.id;
    GroupBatchConsistent(s, batch, db);
    ThroughExact(ReadJoined(s, AccountIds(batch), db), row.id);
    forall e ensures e in Through(ReadJoined(s, AccountIds(batch), db), row.id) <==> IsGroupOf(e, s, row.id, db) {
      GroupBatchExact(s, batch, db, JoinRow(row.id, e));
    }
  }

  // ----- the whole tree -----

  /**
   A batch unfolds to the relation: whichever rows are loaded together, every node of
   the loaded graph holds exactly its own related rows, at every depth.
   */
  lemma {:induction false} BatchUnfoldsAccount(plan: AccountPlan, row: AccountRow, batch: seq<AccountRow>, db: Database)
    requires db.Valid() && Unlimited(plan.edges) && row in batch
    ensures UnfoldsAccount(BatchAccount(plan, row, batch, db), plan, row, db)
    decreases plan.edges
  {
    if plan.edges.groups.Some? {
      GroupEdge(plan.edges.groups.value, row, batch, db);
    }
    if plan.edges.proxy.Some? {
      ProxyEdge(plan.edges.proxy.value, row, batch, db);
    }
    if plan.edges.accountGroups.Some? {
      var p := plan.edges.accountGroups.value;
      var m :| 0 <= m < |batch| && batch[m] == row;
      assert AccountIds(batch)[m] == row.id;
      BatchUnfoldsRows(p, row.id, AccountIds(batch), db);
    }
  }

  lemma {:induction false} BatchUnfoldsRows(p: AccountGroupPlan, owner: int, ids: seq<int>, db: Database)
    requires db.Valid() && Whole(p.own) && owner in ids
    requires p.account.Some? ==> Whole(p.account.value.own) && Unlimited(p.account.value.edges)
    ensures var sub := OwnedBy(p, ids);
            var kids := Rows(sub.own, db.accountGroups);
            UnfoldsRows(Map(k => BatchAccountGroup(sub, k, kids, db), Pick(kids, Owners(kids), owner)), p, owner, db)
    decreases p.account, 1
  {
    AccountGroupEdge(p, owner, ids, db);
    var sub := OwnedBy(p, ids);
    var kids := Rows(sub.own, db.accountGroups);
    var own := Pick(kids, Owners(kids), owner);
    forall i | 0 <= i < |own|
      ensures UnfoldsAccountGroup(BatchAccountGroup(sub, own[i], kids, db), WithForeignKey(p), own[i], db)
    {
      PickSamePositions(kids, kids, Owners(kids), owner);
      BatchUnfoldsAccountGroup(sub, own[i], kids, db);
    }
    assert AreOwnRows(own, p.own, owner, db.accountGroups);
  }

  /** What a batch finds for a row's parent edge. */
  lemma ParentOfBatch(plan: AccountGroupPlan, row: AccountGroupRow, batch: seq<AccountGroupRow>, db: Database)
    requires db.Valid() && row in batch && plan.account.Some? && Whole(plan.account.value.own)
    ensures var sub := AccountsIn(plan.account.value, RequestedIds(OwnerKeys(batch)));
            var parents := Rows(sub.own, db.accounts);
            match ParentRow(plan.account.value, row.accountId, db)
            case None => BatchAccountGroup(plan, row, batch, db).account == None
            case Some(a) => a in parents && BatchAccountGroup(plan, row, batch, db).account == Some(BatchAccount(sub, a, parents, db))
  {
    ParentEdge(plan.account.value, row, batch, db);
    var parents := Rows(AccountsIn(plan.account.value, RequestedIds(OwnerKeys(batch))).own, db.accounts);
    PickSamePositions(parents, parents, AccountIds(parents), row.accountId);
  }

  lemma {:induction false} BatchUnfoldsAccountGroup(plan: AccountGroupPlan, row: AccountGroupRow, batch: seq<AccountGroupRow>, db: Database)
    requires db.Valid() && row in batch
    requires plan.account.Some? ==> Whole(plan.account.value.own) && Unlimited(plan.account.value.edges)
    ensures UnfoldsAccountGroup(BatchAccountGroup(plan, row, batch, db), plan, row, db)
    decreases plan.account, 0
  {
    if plan.account.Some? {
      var p := plan.account.value;
      ParentOfBatch(plan, row, batch, db);
      var found := ParentRow(p, row.accountId, db);
      if found.Some? {
        var sub := AccountsIn(p, RequestedIds(OwnerKeys(batch)));
        var parents := Rows(sub.own, db.accounts);
        BatchUnfoldsAccount(sub, found.value, parents, db);
        SameReading(BatchAccount(sub, found.value, parents, db), sub, p, found.value, db);
      }
    }
  }
}
