/**
 Laws of eager-load plans: what column selection changes, what a limit changes, and
 the order of many-to-many neighbours.
 */
module PlanLaws {
  import opened Wrappers
  import opened Sequences
  import opened Relational
  import opened Unfolding

  // ----- columns -----

  /** Queries that differ in their selected columns and lock clauses only. */
  ghost predicate SameQuery<R>(s: Settings<R>, t: Settings<R>) {
    s.preds == t.preds && s.order == t.order && s.limit == t.limit && s.offset == t.offset
  }

  ghost predicate SameQueries<R>(s: Option<Settings<R>>, t: Option<Settings<R>>) {
    (s.Some? <==> t.Some?) && (s.Some? ==> SameQuery(s.value, t.value))
  }

  /** Plans that differ, at any depth, in selected columns and lock clauses only. */
  ghost predicate SamePlan(p: AccountPlan, q: AccountPlan)
    decreases p
  {
    && SameQuery(p.own, q.own)
    && SameQueries(p.edges.groups, q.edges.groups)
    && SameQueries(p.edges.proxy, q.edges.proxy)
    && (p.edges.accountGroups.Some? <==> q.edges.accountGroups.Some?)
    && (p.edges.accountGroups.Some? ==> SameGroupPlan(p.edges.accountGroups.value, q.edges.accountGroups.value))
  }

  ghost predicate SameGroupPlan(p: AccountGroupPlan, q: AccountGroupPlan)
    decreases p
  {
    && SameQuery(p.own, q.own)
    && (p.account.Some? <==> q.account.Some?)
    && (p.account.Some? ==> SamePlan(p.account.value, q.account.value))
  }

  function OptionalId(e: Option<Entity>): Option<int> {
    match e case None => None case Some(x) => Some(x.id)
  }

  /** Loaded nodes with the same identity, the same flags and the same neighbours at every depth. */
  ghost predicate SameEdges(v: AccountView, w: AccountView)
    decreases v
  {
    && v.fields.id == w.fields.id && v.loaded == w.loaded
    && EntityIds(v.groups) == EntityIds(w.groups)
    && OptionalId(v.proxy) == OptionalId(w.proxy)
    && |v.accountGroups| == |w.accountGroups|
    && forall i :: 0 <= i < |v.accountGroups| ==> SameGroupEdges(v.accountGroups[i], w.accountGroups[i])
  }

  /** Two readings of one table row, each with its own columns. */
  ghost predicate ReadFrom(v: AccountGroupRow, w: AccountGroupRow, row: AccountGroupRow, columns: seq<string>, columns': seq<string>) {
    v == ReadAccountGroup(row, columns) && w == ReadAccountGroup(row, columns')
  }

  ghost predicate SameRow(v: AccountGroupRow, w: AccountGroupRow) {
    exists row, columns, columns' :: ReadFrom(v, w, row, columns, columns')
  }

  ghost predicate SameGroupEdges(v: AccountGroupView, w: AccountGroupView)
    decreases v
  {
    && SameRow(v.fields, w.fields)
    && v.loadedAccount == w.loadedAccount
    && (v.account.Some? <==> w.account.Some?)
    && (v.account.Some? ==> SameEdges(v.account.value, w.account.value))
  }

  ghost predicate SameIds(rows: seq<JoinRow>, rows': seq<JoinRow>) {
    && |rows| == |rows'|
    && forall i :: 0 <= i < |rows| ==> rows[i].owner == rows'[i].owner && rows[i].group.id == rows'[i].group.id
  }

  lemma {:induction false} FirstGroupsByIds(rows: seq<JoinRow>, rows': seq<JoinRow>)
    requires SameIds(rows, rows')
    ensures EntityIds(FirstGroups(rows)) == EntityIds(FirstGroups(rows'))
  {
    if rows != [] {
      var n := |rows| - 1;
      FirstGroupsByIds(rows[..n], rows'[..n]);
      var rest, rest' := FirstGroups(rows[..n]), FirstGroups(rows'[..n]);
      assert EntityIds(rest + [rows[n].group]) == EntityIds(rest) + [rows[n].group.id];
      assert EntityIds(rest' + [rows'[n].group]) == EntityIds(rest') + [rows'[n].group.id];
    }
  }

  lemma {:induction false} FilterByIds(xs: seq<Entity>, ys: seq<Entity>, p: Entity -> bool, q: Entity -> bool)
    requires EntityIds(xs) == EntityIds(ys)
    requires forall x: Entity, y: Entity :: x.id == y.id ==> p(x) == q(y)
    ensures EntityIds(Filter(xs, p)) == EntityIds(Filter(ys, q))
  {
    assert |xs| == |EntityIds(xs)| == |EntityIds(ys)| == |ys|;
    if xs != [] {
      var n := |xs| - 1;
      assert EntityIds(xs[..n]) == EntityIds(xs)[..n] == EntityIds(ys)[..n] == EntityIds(ys[..n]);
      FilterByIds(xs[..n], ys[..n], p, q);
      assert EntityIds(xs)[n] == EntityIds(ys)[n];
      assert EntityIds(Filter(xs[..n], p) + [xs[n]]) == EntityIds(Filter(xs[..n], p)) + [xs[n].id];
      assert EntityIds(Filter(ys[..n], q) + [ys[n]]) == EntityIds(Filter(ys[..n], q)) + [ys[n].id];
    }
  }

  lemma ThroughByIds(rows: seq<JoinRow>, rows': seq<JoinRow>, owner: int)
    requires SameIds(rows, rows')
    ensures EntityIds(Through(rows, owner)) == EntityIds(Through(rows', owner))
  {
    FirstGroupsByIds(rows, rows');
    forall k ensures Linked(rows, owner, k) == Linked(rows', owner, k) {
      if i :| 0 <= i < |rows| && rows[i].owner == owner && rows[i].group.id == k {
        assert rows'[i].owner == owner && rows'[i].group.id == k;
      }
      if i :| 0 <= i < |rows'| && rows'[i].owner == owner && rows'[i].group.id == k {
        assert rows[i].owner == owner && rows[i].group.id == k;
      }
    }
    FilterByIds(FirstGroups(rows), FirstGroups(rows'),
                (g: Entity) => Linked(rows, owner, g.id), (g: Entity) => Linked(rows', owner, g.id));
  }

  lemma GroupsIgnoreColumns(s: Settings<Entity>, t: Settings<Entity>, ids: seq<int>, owner: int, db: Database)
    requires db.Valid() && SameQuery(s, t)
    ensures EntityIds(Through(ReadJoined(s, ids, db), owner)) == EntityIds(Through(ReadJoined(t, ids, db), owner))
  {
    var rows := JoinedRows(s, ids, db);
    forall i | 0 <= i < |rows| ensures ReadJoined(s, ids, db)[i].group.id == ReadJoined(t, ids, db)[i].group.id {
      ReadKeepsId(rows[i].group, s.fields, db.groupColumns);
      ReadKeepsId(rows[i].group, t.fields, db.groupColumns);
    }
    ThroughByIds(ReadJoined(s, ids, db), ReadJoined(t, ids, db), owner);
  }

  lemma ProxyIgnoresColumns(s: Settings<Entity>, t: Settings<Entity>, keys: seq<Option<int>>, key: Option<int>, db: Database)
    requires db.Valid() && SameQuery(s, t)
    ensures OptionalId(OneOf(ProxyBatch(s, keys, db), key)) == OptionalId(OneOf(ProxyBatch(t, keys, db), key))
  {
    var ids := RequestedIds(keys);
    if ids != [] && key.Some? {
      RowsSame(WithIdIn(s, ids), WithIdIn(t, ids), db.proxies);
      var rows := Rows(WithIdIn(s, ids), db.proxies);
      var xs, ys := ProxyBatch(s, keys, db), ProxyBatch(t, keys, db);
      forall i | 0 <= i < |rows| ensures xs[i].id == rows[i].id && ys[i].id == rows[i].id {
        ReadKeepsId(rows[i], s.fields, db.proxyColumns);
        ReadKeepsId(rows[i], t.fields, db.proxyColumns);
      }
      assert EntityIds(xs) == EntityIds(ys);
      PickSamePositions(xs, ys, EntityIds(xs), key.value);
    }
  }

  /**
   Column selection never changes which neighbours are loaded: plans that select
   different columns, even without the id or the foreign keys, fill the same edges.
   */
  lemma {:induction false} ColumnsIgnored(p: AccountPlan, q: AccountPlan, row: AccountRow, batch: seq<AccountRow>, db: Database)
    requires db.Valid() && SamePlan(p, q)
    ensures SameEdges(BatchAccount(p, row, batch, db), BatchAccount(q, row, batch, db))
    decreases p.edges
  {
    IdSelected(p, row, db);
    IdSelected(q, row, db);
    if p.edges.groups.Some? {
      GroupsIgnoreColumns(p.edges.groups.value, q.edges.groups.value, AccountIds(batch), row.id, db);
    }
    if p.edges.proxy.Some? {
      ProxyIgnoresColumns(p.edges.proxy.value, q.edges.proxy.value, ProxyKeys(batch), row.proxyId, db);
    }
    if p.edges.accountGroups.Some? {
      var sub, sub' := OwnedBy(p.edges.accountGroups.value, AccountIds(batch)), OwnedBy(q.edges.accountGroups.value, AccountIds(batch));
      RowsSame(sub.own, sub'.own, db.accountGroups);
      var kids := Rows(sub.own, db.accountGroups);
      var own := Pick(kids, Owners(kids), row.id);
      forall i | 0 <= i < |own|
        ensures SameGroupEdges(BatchAccountGroup(sub, own[i], kids, db), BatchAccountGroup(sub', own[i], kids, db))
      {
        ColumnsIgnoredBelow(sub, sub', own[i], kids, db);
      }
    }
  }

  lemma {:induction false} ColumnsIgnoredBelow(p: AccountGroupPlan, q: AccountGroupPlan, row: AccountGroupRow, batch: seq<AccountGroupRow>, db: Database)
    requires db.Valid() && SameGroupPlan(p, q)
    ensures SameGroupEdges(BatchAccountGroup(p, row, batch, db), BatchAccountGroup(q, row, batch, db))
    decreases p.account
  {
    assert ReadFrom(AccountGroupFields(p, row, db), AccountGroupFields(q, row, db), row,
                    AccountGroupColumns(p.own.fields, p.account.Some?, db), AccountGroupColumns(q.own.fields, q.account.Some?, db));
    if p.account.Some? {
      var ids := RequestedIds(OwnerKeys(batch));
      var sub, sub' := AccountsIn(p.account.value, ids), AccountsIn(q.account.value, ids);
      RowsSame(sub.own, sub'.own, db.accounts);
      var parents := Rows(sub.own, db.accounts);
      var found := Pick(parents, AccountIds(parents), row.accountId);
      if found != [] {
        ColumnsIgnored(sub, sub', found[|found| - 1], parents, db);
      }
    }
  }

  lemma IdSelected(p: AccountPlan, row: AccountRow, db: Database)
    requires db.Valid()
    ensures AccountFields(p, row, db).id == row.id
  {
    assert FIELD_ID in SelectedWithId(p.own.fields, db.accountColumns);
  }

  /** A selection puts the id column first and never again, and keeps every selected column. */
  lemma IdFirstAndOnce(fields: seq<string>, withProxy: bool, db: Database)
    requires fields != []
    ensures var columns := AccountColumns(fields, withProxy, db);
            && columns != [] && columns[0] == FIELD_ID
            && (forall i :: 0 < i < |columns| ==> columns[i] != FIELD_ID)
            && (forall c :: c in columns <==> c == FIELD_ID || c in fields || (withProxy && c == FIELD_PROXY_ID))
  {
    FilterMembers(fields, (c: string) => c != FIELD_ID);
    FilterSame(fields, c => c != FIELD_ID, (c: string) => c != FIELD_ID);
  }

  /** What is read of a row: the columns asked for with the row's values, and no other. */
  ghost predicate ReadsColumns(read: map<string, string>, row: map<string, string>, columns: set<string>) {
    && (forall c :: c in read <==> c in row && c in columns)
    && forall c :: c in read ==> read[c] == row[c]
  }

  function AsSet(columns: seq<string>): set<string> { set c | c in columns }

  /** Selected columns are read; without a selection, all columns of the table are. */
  lemma SelectionRead(plan: AccountPlan, row: AccountRow, db: Database)
    requires db.Valid()
    ensures var read := AccountFields(plan, row, db);
            && read.id == row.id
            && (plan.own.fields == [] ==> read.proxyId == row.proxyId && ReadsColumns(read.rest, row.rest, AsSet(db.accountColumns)))
            && (plan.own.fields != [] ==>
                  ReadsColumns(read.rest, row.rest, AsSet(plan.own.fields) + {FIELD_ID} + if plan.edges.proxy.Some? then {FIELD_PROXY_ID} else {}))
  {
    IdSelected(plan, row, db);
    if plan.own.fields != [] {
      IdFirstAndOnce(plan.own.fields, plan.edges.proxy.Some?, db);
    }
  }

  lemma GroupSelectionRead(plan: AccountGroupPlan, row: AccountGroupRow, db: Database)
    requires db.Valid()
    ensures var read := AccountGroupFields(plan, row, db);
            && (plan.account.Some? ==> read.accountId == row.accountId)
            && (plan.own.fields == [] ==> read.accountId == row.accountId && read.groupId == row.groupId
                                          && ReadsColumns(read.rest, row.rest, AsSet(db.accountGroupColumns)))
            && (plan.own.fields != [] ==>
                  ReadsColumns(read.rest, row.rest, AsSet(plan.own.fields) + if plan.account.Some? then {FIELD_ACCOUNT_ID} else {}))
  {
  }

  lemma EntitySelectionRead(fields: seq<string>, e: Entity, all: seq<string>)
    requires FIELD_ID in all
    ensures var read := ReadEntity(e, SelectedWithId(fields, all));
            && read.id == e.id
            && ReadsColumns(read.rest, e.rest, if fields == [] then AsSet(all) else AsSet(fields) + {FIELD_ID})
  {
    ReadKeepsId(e, fields, all);
    FilterMembers(fields, (c: string) => c != FIELD_ID);
    FilterSame(fields, c => c != FIELD_ID, (c: string) => c != FIELD_ID);
  }

  // ----- limits -----

  function OfOwner(o: int): AccountGroupRow -> bool { (r: AccountGroupRow) => r.accountId == o }

  lemma {:induction false} FilterSize<T>(xs: seq<T>, p: T -> bool)
    ensures |Filter(xs, p)| <= |xs|
    ensures |Filter(xs, p)| == |xs| <==> forall x | x in xs :: p(x)
    ensures (forall x | x in xs :: p(x)) ==> Filter(xs, p) == xs
  {
    if xs != [] {
      FilterSize(xs[..|xs| - 1], p);
      assert xs == xs[..|xs| - 1] + [xs[|xs| - 1]];
    }
  }

  lemma {:induction false} FilterNone<T>(xs: seq<T>, p: T -> bool)
    requires forall x | x in xs :: !p(x)
    ensures Filter(xs, p) == []
  {
    if xs != [] {
      FilterNone(xs[..|xs| - 1], p);
    }
  }

  lemma FirstPage<R>(xs: seq<R>, limit: nat)
    ensures Page(xs, Some(limit), None) == if 0 < limit < |xs| then xs[..limit] else xs
  {
    assert xs[0..] == xs && xs[..|xs|] == xs;
  }

  /** An owner's share of the first `limit` rows is its own first `limit` rows. */
  ghost predicate FairAt(whole: seq<AccountGroupRow>, limit: nat, o: int) {
    Filter(Page(whole, Some(limit), None), OfOwner(o)) == Page(Filter(whole, OfOwner(o)), Some(limit), None)
  }

  ghost predicate OneOwner(rows: seq<AccountGroupRow>) {
    forall i :: 0 <= i < |rows| ==> rows[i].accountId == rows[0].accountId
  }

  lemma FairWhenOneOwner(whole: seq<AccountGroupRow>, limit: nat, o: int)
    requires limit == 0 || |whole| <= limit || OneOwner(whole)
    ensures FairAt(whole, limit, o)
  {
    FilterSize(whole, OfOwner(o));
    FirstPage(whole, limit);
    FirstPage(Filter(whole, OfOwner(o)), limit);
    if 0 < limit < |whole| {
      var page := whole[..limit];
      FilterSize(page, OfOwner(o));
      assert forall r | r in whole :: r.accountId == whole[0].accountId;
      assert forall r | r in page :: r in whole;
      if o == whole[0].accountId {
        assert forall r | r in whole :: OfOwner(o)(r);
        assert forall r | r in page :: OfOwner(o)(r);
        assert Filter(whole, OfOwner(o)) == whole && Filter(page, OfOwner(o)) == page;
      } else {
        FilterNone(whole, OfOwner(o));
        FilterNone(page, OfOwner(o));
      }
    }
  }

  /** A row beyond the page is due to its owner when the page holds fewer of the owner's rows. */
  lemma UnfairBeyond(whole: seq<AccountGroupRow>, limit: nat, i: nat)
    requires 0 < limit <= i < |whole|
    requires exists k :: 0 <= k < limit && whole[k].accountId != whole[i].accountId
    ensures !FairAt(whole, limit, whole[i].accountId)
  {
    var own, page, rest := OfOwner(whole[i].accountId), whole[..limit], whole[limit..];
    assert page + rest == whole;
    FirstPage(whole, limit);
    FirstPage(Filter(whole, own), limit);
    FilterConcat(page, rest, own);
    FilterMembers(rest, own);
    assert rest[i - limit] in rest && own(rest[i - limit]);
    assert rest[i - limit] in Filter(rest, own);
    var k :| 0 <= k < limit && whole[k].accountId != whole[i].accountId;
    assert page[k] in page && !own(page[k]);
    FilterSize(page, own);
  }

  lemma FairToAll(whole: seq<AccountGroupRow>, limit: nat)
    ensures (forall i :: 0 <= i < |whole| ==> FairAt(whole, limit, whole[i].accountId))
       <==> limit == 0 || |whole| <= limit || OneOwner(whole)
  {
    if limit == 0 || |whole| <= limit || OneOwner(whole) {
      forall i | 0 <= i < |whole| ensures FairAt(whole, limit, whole[i].accountId) {
        FairWhenOneOwner(whole, limit, whole[i].accountId);
      }
    } else {
      var i :| 0 <= i < |whole| && whole[i].accountId != whole[0].accountId;
      UnfairBeyond(whole, limit, if limit <= i then i else limit);
    }
  }

  /** The shares of a batch with a limit, in terms of the batch without it. */
  lemma LimitedShare(p: AccountGroupPlan, limit: nat, ids: seq<int>, o: int, db: Database)
    requires Whole(p.own) && o in ids
    ensures var whole := Rows(OwnedBy(p, ids).own, db.accountGroups);
            var kids := Rows(OwnedBy(p.(own := p.own.(limit := Some(limit))), ids).own, db.accountGroups);
            && Pick(kids, Owners(kids), o) == Filter(Page(whole, Some(limit), None), OfOwner(o))
            && OwnRows(p, o, db) == Filter(whole, OfOwner(o))
  {
    var whole := Rows(OwnedBy(p, ids).own, db.accountGroups);
    var q := p.(own := p.own.(limit := Some(limit)));
    var kids := Rows(OwnedBy(q, ids).own, db.accountGroups);
    FilterSame(db.accountGroups, r => Holds(OwnedBy(p, ids).own.preds, r), r => Holds(OwnedBy(q, ids).own.preds, r));
    assert kids == Page(whole, Some(limit), None);
    AccountGroupEdge(p, o, ids, db);
    PickIsFilter(whole, Owners(whole), o, OfOwner(o));
    PickIsFilter(kids, Owners(kids), o, OfOwner(o));
  }

  /**
   A limit on the account-groups sub-query bounds the whole batch: every owner gets
   its own first `limit` rows exactly when the limit is zero, which is none, or the
   rows of all owners together fit it, or all those rows have one owner.
   */
  lemma LimitBoundsTheBatch(p: AccountGroupPlan, limit: nat, ids: seq<int>, db: Database)
    requires Whole(p.own)
    ensures var kids := Rows(OwnedBy(p.(own := p.own.(limit := Some(limit))), ids).own, db.accountGroups);
            var whole := Rows(OwnedBy(p, ids).own, db.accountGroups);
            (forall o :: o in ids ==> Pick(kids, Owners(kids), o) == Page(OwnRows(p, o, db), Some(limit), None))
            <==> limit == 0 || |whole| <= limit || OneOwner(whole)
  {
    var kids := Rows(OwnedBy(p.(own := p.own.(limit := Some(limit))), ids).own, db.accountGroups);
    var whole := Rows(OwnedBy(p, ids).own, db.accountGroups);
    forall o | o in ids
      ensures Pick(kids, Owners(kids), o) == Page(OwnRows(p, o, db), Some(limit), None) <==> FairAt(whole, limit, o)
    {
      LimitedShare(p, limit, ids, o, db);
    }
    KidsOwned(p, ids, db);
    assert forall i :: 0 <= i < |whole| ==> whole[i].accountId == Owners(whole)[i] && Owners(whole)[i] in ids;
    FairToAll(whole, limit);
    if limit == 0 || |whole| <= limit || OneOwner(whole) {
      forall o | o in ids ensures FairAt(whole, limit, o) {
        FairWhenOneOwner(whole, limit, o);
      }
    }
  }

  /** With a limit of one, the second of two owners loses the row it is due. */
  lemma LimitStarvesSecondOwner(db: Database)
    requires db.accountGroups == [AccountGroupRow(1, 7, map[]), AccountGroupRow(2, 7, map[])]
    ensures var p := AccountGroupPlan(Settings([], [], [], None, None, []), None);
            var kids := Rows(OwnedBy(p.(own := p.own.(limit := Some(1))), [1, 2]).own, db.accountGroups);
            && Pick(kids, Owners(kids), 2) == []
            && Page(OwnRows(p, 2, db), Some(1), None) == [AccountGroupRow(2, 7, map[])]
  {
    var p := AccountGroupPlan(Settings([], [], [], None, None, []), None);
    var first, second := AccountGroupRow(1, 7, map[]), AccountGroupRow(2, 7, map[]);
    var whole := Rows(OwnedBy(p, [1, 2]).own, db.accountGroups);
    var inBatch := (r: AccountGroupRow) => Holds(OwnedBy(p, [1, 2]).own.preds, r);
    FilterSize(db.accountGroups, inBatch);
    FilterSame(db.accountGroups, inBatch, r => Holds(OwnedBy(p, [1, 2]).own.preds, r));
    assert whole == [first, second];
    LimitedShare(p, 1, [1, 2], 2, db);
    assert Page(whole, Some(1), None) == [first];
    assert [first][..0] == [] && [first, second][..1] == [first];
  }

  // Limits on the other edges.

  /** In a keyed list, a page finds for a key what the whole list finds, or nothing when the row lies beyond it. */
  lemma PagePick<R>(whole: seq<R>, limit: nat, id: R -> int, i: nat)
    requires NoDuplicates(Map(id, whole)) && i < |whole|
    ensures var page := Page(whole, Some(limit), None);
            && Last(Pick(whole, Map(id, whole), id(whole[i]))) != None
            && (0 < limit <= i ==> Last(Pick(page, Map(id, page), id(whole[i]))) == None)
  {
    var page, k := Page(whole, Some(limit), None), id(whole[i]);
    var same := (r: R) => id(r) == k;
    FirstPage(whole, limit);
    PickIsFilter(whole, Map(id, whole), k, same);
    PickIsFilter(page, Map(id, page), k, same);
    FilterMembers(whole, same);
    assert whole[i] in Filter(whole, same);
    if 0 < limit <= i {
      forall r | r in page ensures !same(r) {
        var j :| 0 <= j < |page| && page[j] == r;
        assert Map(id, whole)[j] != Map(id, whole)[i];
      }
      FilterNone(page, same);
    }
  }

  /** A page of a keyed list answers every lookup as the whole list does exactly when it cuts nothing off. */
  lemma PageLookups<R>(whole: seq<R>, limit: nat, id: R -> int)
    requires NoDuplicates(Map(id, whole))
    ensures var page := Page(whole, Some(limit), None);
            (forall i :: 0 <= i < |whole| ==>
               Last(Pick(page, Map(id, page), id(whole[i]))) == Last(Pick(whole, Map(id, whole), id(whole[i]))))
            <==> limit == 0 || |whole| <= limit
  {
    FirstPage(whole, limit);
    if 0 < limit < |whole| {
      PagePick(whole, limit, id, limit);
    }
  }

  /** A limited query returns a page of what the unlimited one returns. */
  lemma LimitedRows<R>(s: Settings<R>, p: R -> bool, limit: nat, table: seq<R>)
    requires Whole(s)
    ensures Rows(Narrowed(s.(limit := Some(limit)), p), table) == Page(Rows(Narrowed(s, p), table), Some(limit), None)
  {
    var preds := Narrowed(s, p).preds;
    FilterSame(table, r => Holds(preds, r), r => Holds(Narrowed(s, p).preds, r));
    FilterSame(table, r => Holds(preds, r), r => Holds(Narrowed(s.(limit := Some(limit)), p).preds, r));
  }

  lemma MapPage<S, T>(f: S -> T, xs: seq<S>, limit: nat)
    ensures Map(f, Page(xs, Some(limit), None)) == Page(Map(f, xs), Some(limit), None)
  {
    FirstPage(xs, limit);
    FirstPage(Map(f, xs), limit);
  }

  lemma LimitedProxies(s: Settings<Entity>, limit: nat, ids: seq<int>, db: Database)
    requires Whole(s)
    ensures ReadProxies(WithIdIn(s.(limit := Some(limit)), ids), db) == Page(ReadProxies(WithIdIn(s, ids), db), Some(limit), None)
  {
    var read := (e: Entity) => ReadEntity(e, SelectedWithId(s.fields, db.proxyColumns));
    var rows := Rows(WithIdIn(s, ids), db.proxies);
    LimitedRows(s, IdIn(ids), limit, db.proxies);
    MapPage(read, rows, limit);
    assert ReadProxies(WithIdIn(s, ids), db) == Map(read, rows);
  }

  lemma ReadProxiesUnique(s: Settings<Entity>, ids: seq<int>, db: Database)
    requires db.Valid()
    ensures var read := ReadProxies(WithIdIn(s, ids), db);
            NoDuplicates(EntityIds(read)) && forall i :: 0 <= i < |read| ==> read[i].id in ids
  {
    var rows, read := Rows(WithIdIn(s, ids), db.proxies), ReadProxies(WithIdIn(s, ids), db);
    RowsUnique(WithIdIn(s, ids), db.proxies, (e: Entity) => e.id);
    RowsHold(WithIdIn(s, ids), db.proxies);
    forall i | 0 <= i < |read| ensures read[i].id == rows[i].id && read[i].id in ids {
      ReadKeepsId(rows[i], s.fields, db.proxyColumns);
      assert rows[i] in rows;
      HoldsBoth(s.preds, IdIn(ids), rows[i]);
    }
    assert EntityIds(read) == Map((e: Entity) => e.id, rows);
  }

  /**
   A limit on the proxy sub-query bounds the proxies of the whole batch: every account
   still gets its proxy exactly when the limit is zero or they all fit it.
   */
  lemma LimitBoundsProxies(s: Settings<Entity>, limit: nat, keys: seq<Option<int>>, db: Database)
    requires db.Valid() && Whole(s)
    ensures var whole := ProxyBatch(s, keys, db);
            (forall key | key in keys :: OneOf(ProxyBatch(s.(limit := Some(limit)), keys, db), key) == OneOf(whole, key))
            <==> limit == 0 || |whole| <= limit
  {
    var ids, whole := RequestedIds(keys), ProxyBatch(s, keys, db);
    if ids != [] {
      var page, id := Page(whole, Some(limit), None), (e: Entity) => e.id;
      LimitedProxies(s, limit, ids, db);
      ReadProxiesUnique(s, ids, db);
      RequestedIdsExact(keys);
      PageLookups(whole, limit, id);
      FirstPage(whole, limit);
      assert EntityIds(whole) == Map(id, whole) && EntityIds(page) == Map(id, page);
      if 0 < limit < |whole| {
        PagePick(whole, limit, id, limit);
        assert Some(whole[limit].id) in keys;
        assert OneOf(page, Some(whole[limit].id)) != OneOf(whole, Some(whole[limit].id));
      }
    }
  }

  /** The same for the accounts that account-group rows name. */
  lemma LimitBoundsParents(p: AccountPlan, limit: nat, batch: seq<AccountGroupRow>, db: Database)
    requires db.Valid() && Whole(p.own)
    ensures var ids := RequestedIds(OwnerKeys(batch));
            var whole := Rows(AccountsIn(p, ids).own, db.accounts);
            var page := Rows(AccountsIn(p.(own := p.own.(limit := Some(limit))), ids).own, db.accounts);
            (forall row | row in batch :: Last(Pick(page, AccountIds(page), row.accountId)) == Last(Pick(whole, AccountIds(whole), row.accountId)))
            <==> limit == 0 || |whole| <= limit
  {
    var ids, id := RequestedIds(OwnerKeys(batch)), (r: AccountRow) => r.id;
    var q := p.(own := p.own.(limit := Some(limit)));
    var whole := Rows(AccountsIn(p, ids).own, db.accounts);
    var page := Rows(AccountsIn(q, ids).own, db.accounts);
    LimitedRows(p.own, AccountIdIn(ids), limit, db.accounts);
    FirstPage(whole, limit);
    RowsUnique(AccountsIn(p, ids).own, db.accounts, id);
    if 0 < limit < |whole| {
      PagePick(whole, limit, id, limit);
      ParentRequested(p, batch, whole[limit], db);
    }
  }

  /** Every account of a parents batch is named by a row. */
  lemma ParentRequested(p: AccountPlan, batch: seq<AccountGroupRow>, a: AccountRow, db: Database)
    requires a in Rows(AccountsIn(p, RequestedIds(OwnerKeys(batch))).own, db.accounts)
    ensures exists row :: row in batch && row.accountId == a.id
  {
    var ids := RequestedIds(OwnerKeys(batch));
    RowsHold(AccountsIn(p, ids).own, db.accounts);
    HoldsBoth(p.own.preds, AccountIdIn(ids), a);
    RequestedIdsExact(OwnerKeys(batch));
    var i :| 0 <= i < |OwnerKeys(batch)| && OwnerKeys(batch)[i] == Some(a.id);
    assert batch[i] in batch;
  }

  lemma {:induction false} FirstGroupsOfPart(rows: seq<JoinRow>, n: nat)
    requires n <= |rows|
    requires forall i :: n <= i < |rows| ==> rows[i].group.id in EntityIds(FirstGroups(rows[..n]))
    ensures FirstGroups(rows) == FirstGroups(rows[..n])
  {
    if n == |rows| {
      assert rows[..n] == rows;
    } else {
      var m := |rows| - 1;
      assert rows[..m][..n] == rows[..n];
      FirstGroupsOfPart(rows[..m], n);
    }
  }

  /** A page of joined rows gives an owner the same groups when every pair beyond it also stands in it. */
  lemma ThroughPart(rows: seq<JoinRow>, n: nat, owner: int)
    requires n <= |rows|
    requires forall i :: n <= i < |rows| ==> Linked(rows[..n], rows[i].owner, rows[i].group.id)
    ensures Through(rows[..n], owner) == Through(rows, owner)
  {
    var page := rows[..n];
    FirstGroupsInOrder(page);
    forall i | n <= i < |rows| ensures rows[i].group.id in EntityIds(FirstGroups(page)) {
      assert Linked(page, rows[i].owner, rows[i].group.id);
      var m :| 0 <= m < |page| && page[m].owner == rows[i].owner && page[m].group.id == rows[i].group.id;
    }
    FirstGroupsOfPart(rows, n);
    forall g: Entity ensures Linked(page, owner, g.id) == Linked(rows, owner, g.id) {
      if Linked(page, owner, g.id) {
        var m :| 0 <= m < |page| && page[m].owner == owner && page[m].group.id == g.id;
        assert rows[m].owner == owner && rows[m].group.id == g.id;
      }
      if m :| 0 <= m < |rows| && rows[m].owner == owner && rows[m].group.id == g.id {
        if m < n {
          assert page[m] == rows[m];
        } else {
          assert Linked(page, rows[m].owner, rows[m].group.id);
        }
      }
    }
    FilterSame(FirstGroups(rows), (g: Entity) => Linked(page, owner, g.id), (g: Entity) => Linked(rows, owner, g.id));
  }

  /** A pair that stands only beyond the page is lost to its owner. */
  lemma ThroughLoses(rows: seq<JoinRow>, n: nat, i: nat)
    requires n <= i < |rows| && !Linked(rows[..n], rows[i].owner, rows[i].group.id)
    ensures Through(rows[..n], rows[i].owner) != Through(rows, rows[i].owner)
  {
    var owner, k := rows[i].owner, rows[i].group.id;
    var all := FirstGroups(rows);
    FirstGroupsInOrder(rows);
    var m :| 0 <= m < |all| && EntityIds(all)[m] == k;
    var whole, part := (g: Entity) => Linked(rows, owner, g.id), (g: Entity) => Linked(rows[..n], owner, g.id);
    FilterMembers(all, whole);
    FilterMembers(FirstGroups(rows[..n]), part);
    FilterSame(all, whole, (g: Entity) => Linked(rows, owner, g.id));
    FilterSame(FirstGroups(rows[..n]), part, (g: Entity) => Linked(rows[..n], owner, g.id));
    assert all[m] in all && whole(all[m]);
    assert all[m] in Through(rows, owner);
    assert all[m] !in Through(rows[..n], owner);
  }

  /**
   A limit on the groups sub-query bounds the pairs of the whole batch: every account
   still gets all its groups exactly when the limit is zero or every pair beyond the
   limit repeats one within it.
   */
  lemma LimitBoundsGroups(s: Settings<Entity>, limit: nat, owners: seq<int>, db: Database)
    requires Whole(s)
    ensures var whole := ReadJoined(s, owners, db);
            var page := ReadJoined(s.(limit := Some(limit)), owners, db);
            (forall o | o in owners :: Through(page, o) == Through(whole, o))
            <==> limit == 0 || forall i :: limit <= i < |whole| ==> Linked(whole[..limit], whole[i].owner, whole[i].group.id)
  {
    var whole, page := ReadJoined(s, owners, db), ReadJoined(s.(limit := Some(limit)), owners, db);
    FirstPage(JoinedRows(s, owners, db), limit);
    assert page == if 0 < limit < |whole| then whole[..limit] else whole;
    if 0 < limit < |whole| {
      if forall i :: limit <= i < |whole| ==> Linked(whole[..limit], whole[i].owner, whole[i].group.id) {
        forall o | o in owners ensures Through(page, o) == Through(whole, o) {
          ThroughPart(whole, limit, o);
        }
      } else {
        var i :| limit <= i < |whole| && !Linked(whole[..limit], whole[i].owner, whole[i].group.id);
        ThroughLoses(whole, limit, i);
        JoinedRowsExact(s, owners, db);
        assert JoinedRows(s, owners, db)[i] in JoinedRows(s, owners, db);
        assert whole[i].owner in owners;
      }
    }
  }

  // ----- the order of many-to-many neighbours -----

  function FirstIndex(rows: seq<JoinRow>, k: int): nat {
    if rows == [] || rows[0].group.id == k then 0 else 1 + FirstIndex(rows[1..], k)
  }

  lemma {:induction false} FirstIndexSnoc(rows: seq<JoinRow>, r: JoinRow, k: int)
    ensures FirstIndex(rows, k) <= |rows|
    ensures FirstIndex(rows, k) < |rows| ==> FirstIndex(rows + [r], k) == FirstIndex(rows, k) && rows[FirstIndex(rows, k)].group.id == k
    ensures FirstIndex(rows, k) == |rows| ==> (forall i :: 0 <= i < |rows| ==> rows[i].group.id != k)
                                              && FirstIndex(rows + [r], k) == if r.group.id == k then |rows| else |rows| + 1
  {
    if rows == [] {
      assert FirstIndex([r], k) == if r.group.id == k then 0 else 1 + FirstIndex([r][1..], k);
    } else {
      FirstIndexSnoc(rows[1..], r, k);
      assert (rows + [r])[1..] == rows[1..] + [r];
      assert forall i :: 0 < i < |rows| ==> rows[i] == rows[1..][i - 1];
    }
  }

  /** Neighbours appear in the order in which the joined rows first mention them. */
  lemma {:induction false} FirstGroupsInOrder(rows: seq<JoinRow>)
    ensures var ids := EntityIds(FirstGroups(rows));
            && (forall i :: 0 <= i < |ids| ==> FirstIndex(rows, ids[i]) < |rows|)
            && (forall i, j :: 0 <= i < j < |ids| ==> FirstIndex(rows, ids[i]) < FirstIndex(rows, ids[j]))
            && (forall m :: 0 <= m < |rows| ==> rows[m].group.id in ids)
  {
    if rows != [] {
      var n := |rows| - 1;
      FirstGroupsInOrder(rows[..n]);
      assert rows == rows[..n] + [rows[n]];
      var rest := FirstGroups(rows[..n]);
      var k := rows[n].group.id;
      assert EntityIds(rest + [rows[n].group]) == EntityIds(rest) + [k];
      forall i | 0 <= i < |rest| {
        FirstIndexSnoc(rows[..n], rows[n], EntityIds(rest)[i]);
      }
      FirstIndexSnoc(rows[..n], rows[n], k);
      assert forall m :: 0 <= m < n ==> rows[m] == rows[..n][m];
    }
  }
}
