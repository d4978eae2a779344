/**
 Eager-loading execution of Account and AccountGroup queries.
 */
module EagerLoading {
  import opened Wrappers
  import opened Sequences
  import opened Relational
  import opened QueryAnswers
  import opened Loaders
  import opened Unfolding
  import opened QueryBuilders

  // ----- loaded nodes on the heap -----

  datatype EdgeError = NotFound | NotLoaded

  class Account {
    const fields: AccountRow
    const loaded: AccountLoaded
    const groups: Many<Entity>
    const proxy: One<Entity>
    const accountGroups: Many<AccountGroup>

    constructor (fields: AccountRow, loaded: AccountLoaded)
      ensures this.fields == fields && this.loaded == loaded
      ensures fresh(groups) && fresh(proxy) && fresh(accountGroups)
      ensures groups.items == [] && proxy.value == None && accountGroups.items == []
    {
      this.fields := fields;
      this.loaded := loaded;
      groups := new Many();
      proxy := new One();
      accountGroups := new Many();
    }

    function GroupsOrErr(): Result<seq<Entity>, EdgeError>
      reads groups
    {
      if loaded.groups then Ok(groups.items) else Err(NotLoaded)
    }

    function ProxyOrErr(): Result<Entity, EdgeError>
      reads proxy
    {
      if proxy.value.Some? then Ok(proxy.value.value)
      else if loaded.proxy then Err(NotFound)
      else Err(NotLoaded)
    }

    function AccountGroupsOrErr(): Result<seq<AccountGroup>, EdgeError>
      reads accountGroups
    {
      if loaded.accountGroups then Ok(accountGroups.items) else Err(NotLoaded)
    }
  }

  class AccountGroup {
    const fields: AccountGroupRow
    const loaded: bool
    const account: One<Account>

    constructor (fields: AccountGroupRow, loaded: bool)
      ensures this.fields == fields && this.loaded == loaded
      ensures fresh(account) && account.value == None
    {
      this.fields := fields;
      this.loaded := loaded;
      account := new One();
    }

    function AccountOrErr(): Result<Account, EdgeError>
      reads account
    {
      if account.value.Some? then Ok(account.value.value)
      else if loaded then Err(NotFound)
      else Err(NotLoaded)
    }
  }

  /** The object graph at `n`, all within `R`, is the tree `v`. */
  ghost predicate AccountShows(n: Account, v: AccountView, R: set<object>)
    reads R
    decreases v
  {
    && n in R && n.groups in R && n.proxy in R && n.accountGroups in R
    && n.fields == v.fields && n.loaded == v.loaded
    && n.groups.items == v.groups && n.proxy.value == v.proxy
    && |n.accountGroups.items| == |v.accountGroups|
    && forall i :: 0 <= i < |v.accountGroups| ==> AccountGroupShows(n.accountGroups.items[i], v.accountGroups[i], R)
  }

  ghost predicate AccountGroupShows(n: AccountGroup, v: AccountGroupView, R: set<object>)
    reads R
    decreases v
  {
    && n in R && n.account in R
    && n.fields == v.fields && n.loaded == v.loadedAccount
    && (n.account.value.Some? <==> v.account.Some?)
    && (v.account.Some? ==> AccountShows(n.account.value.value, v.account.value, R))
  }

  lemma {:induction false} AccountShowsMore(n: Account, v: AccountView, R: set<object>, S: set<object>)
    requires AccountShows(n, v, R) && R <= S
    ensures AccountShows(n, v, S)
    decreases v
  {
    forall i | 0 <= i < |v.accountGroups| ensures AccountGroupShows(n.accountGroups.items[i], v.accountGroups[i], S) {
      AccountGroupShowsMore(n.accountGroups.items[i], v.accountGroups[i], R, S);
    }
  }

  lemma {:induction false} AccountGroupShowsMore(n: AccountGroup, v: AccountGroupView, R: set<object>, S: set<object>)
    requires AccountGroupShows(n, v, R) && R <= S
    ensures AccountGroupShows(n, v, S)
    decreases v
  {
    if v.account.Some? {
      AccountShowsMore(n.account.value.value, v.account.value, R, S);
    }
  }

  // ----- cells of a list of nodes -----

  function GroupCells(nodes: seq<Account>): seq<Many<Entity>> { Map((n: Account) => n.groups, nodes) }

  function ProxyCells(nodes: seq<Account>): seq<One<Entity>> { Map((n: Account) => n.proxy, nodes) }

  function AccountGroupCells(nodes: seq<Account>): seq<Many<AccountGroup>> { Map((n: Account) => n.accountGroups, nodes) }

  function AccountCells(nodes: seq<AccountGroup>): seq<One<Account>> { Map((n: AccountGroup) => n.account, nodes) }

  // ----- refused plans -----

  /** The invalid column that stops an execution, if one is reached. */
  function AccountTrouble(plan: AccountPlan, db: Database): Option<string>
    decreases plan.edges, 1
  {
    var own := InvalidField(plan.own.fields, db.accountColumns);
    var rows := Rows(plan.own, db.accounts);
    if own.Some? then own
    else if rows == [] then None
    else EdgeTrouble(plan.edges, AccountIds(rows), ProxyKeys(rows), db)
  }

  function EdgeTrouble(edges: AccountEdges, ids: seq<int>, keys: seq<Option<int>>, db: Database): Option<string>
    decreases edges, 0
  {
    var groups := if edges.groups.Some? then InvalidField(edges.groups.value.fields, db.groupColumns) else None;
    var proxy := if edges.proxy.Some? && RequestedIds(keys) != []
                 then InvalidField(edges.proxy.value.fields, db.proxyColumns) else None;
    if groups.Some? then groups
    else if proxy.Some? then proxy
    else if edges.accountGroups.Some? then AccountGroupTrouble(OwnedBy(edges.accountGroups.value, ids), db)
    else None
  }

  function AccountGroupTrouble(plan: AccountGroupPlan, db: Database): Option<string>
    decreases plan.account
  {
    var own := InvalidField(plan.own.fields, db.accountGroupColumns);
    var rows := Rows(plan.own, db.accountGroups);
    if own.Some? then own
    else if rows == [] || plan.account.None? then None
    else AccountTrouble(AccountsIn(plan.account.value, RequestedIds(OwnerKeys(rows))), db)
  }

  // ----- loaders of Account -----

  lemma {:induction false} JoinedOwners(links: seq<AccountGroupRow>, groups: seq<Entity>, owners: seq<int>, preds: seq<Entity -> bool>)
    ensures forall j :: j in Joined(links, groups, owners, preds) ==> j.owner in owners
  {
    if links != [] {
      JoinedOwners(links[..|links| - 1], groups, owners, preds);
    }
  }

  /** Every joined row names a requested owner: the driver honours the id filter. */
  lemma ReadJoinedOwners(s: Settings<Entity>, owners: seq<int>, db: Database)
    ensures forall i :: 0 <= i < |ReadJoined(s, owners, db)| ==> ReadJoined(s, owners, db)[i].owner in owners
  {
    var keys := Map((k: Entity -> int) => (j: JoinRow) => k(j.group), s.order);
    var joined := Joined(db.accountGroups, db.groups, owners, s.preds);
    JoinedOwners(db.accountGroups, db.groups, owners, s.preds);
    ArrangeMembers(joined, keys);
    PageMembers(Arrange(joined, keys), s.limit, s.offset);
    forall i | 0 <= i < |ReadJoined(s, owners, db)| ensures ReadJoined(s, owners, db)[i].owner in owners {
      var j := JoinedRows(s, owners, db)[i];
      assert j in Arrange(joined, keys);
      assert j in multiset(joined);
    }
  }

  lemma ThroughCells(rows: seq<JoinRow>, byID: map<int, Many<Entity>>, nids: map<int, set<Many<Entity>>>,
                     cells: seq<Many<Entity>>, ids: seq<int>, j: nat)
    requires j < |cells| == |ids| && NoDuplicates(cells)
    requires forall x :: x in byID <==> x in ids
    requires forall m :: 0 <= m < |cells| ==> ids[m] in byID && byID[ids[m]] == cells[m]
    requires forall i :: 0 <= i < |rows| ==> rows[i].owner in byID
    requires forall k :: k in nids <==> k in EntityIds(FirstGroups(rows))
    requires forall k :: k in nids ==> nids[k] == OwnersOf(rows, k, byID)
    ensures Filter(FirstGroups(rows), (g: Entity) => OwnedIn(nids, g.id, cells[j])) == Through(rows, ids[j])
  {
    var groups := FirstGroups(rows);
    forall g | g in groups ensures OwnedIn(nids, g.id, cells[j]) == Linked(rows, ids[j], g.id) {
      var i :| 0 <= i < |groups| && groups[i] == g;
      assert EntityIds(groups)[i] == g.id;
      OwnersExact(rows, g.id, byID, cells, ids, j);
    }
    FilterSame(groups, (g: Entity) => OwnedIn(nids, g.id, cells[j]), (g: Entity) => Linked(rows, ids[j], g.id));
  }

  /** Many-to-many: a join on the owner ids, with the scan intercepted. */
  method LoadGroups(db: Database, query: EntityQuery, cells: seq<Many<Entity>>, ids: seq<int>, ghost s: Settings<Entity>)
    returns (r: Result<(), LoadError>)
    requires query.Is(s) && |cells| == |ids|
    requires NoDuplicates(cells) && NoDuplicates(ids) && forall c :: c in cells ==> c.items == []
    modifies query, cells
    ensures query.own == s && query.owners == Some(ids)
    ensures match InvalidField(s.fields, db.groupColumns)
            case Some(f) => r == Err(InvalidColumn(f))
            case None => r.Ok? && forall i :: 0 <= i < |cells| ==> cells[i].items == Through(ReadJoined(s, ids, db), ids[i])
  {
    var byID := IndexById(cells, ids);
    query.JoinOwners(ids);
    var bad := InvalidField(query.own.fields, db.groupColumns);
    if bad.Some? {
      return Err(InvalidColumn(bad.value));
    }
    var joined := ReadJoined(query.own, query.owners.value, db);
    ReadJoinedOwners(s, ids, db);
    var neighbours, nids := ScanJoin(joined, byID);
    forall j | 0 <= j < |cells| {
      ThroughCells(joined, byID, nids, cells, ids, j);
    }
    forall k, c | k in nids && c in nids[k] ensures c in cells {
      if |cells| > 0 {
        OwnersExact(joined, k, byID, cells, ids, 0);
      }
    }
    r := AssignThrough(cells, nids, neighbours);
  }

  lemma ReadProxyIds(s: Settings<Entity>, ids: seq<int>, db: Database)
    requires db.Valid()
    ensures var read := ReadProxies(WithIdIn(s, ids), db);
            forall i :: 0 <= i < |read| ==> read[i].id in ids
  {
    var rows, read := Rows(WithIdIn(s, ids), db.proxies), ReadProxies(WithIdIn(s, ids), db);
    RowsHold(WithIdIn(s, ids), db.proxies);
    forall i | 0 <= i < |read| ensures read[i].id in ids {
      assert rows[i] in rows;
      HoldsBoth(s.preds, IdIn(ids), rows[i]);
      ReadKeepsId(rows[i], s.fields, db.proxyColumns);
    }
  }

  method AllProxies(db: Database, query: EntityQuery, ids: seq<int>, ghost s: Settings<Entity>)
    returns (r: Result<seq<Entity>, LoadError>)
    requires db.Valid() && query.own == s
    modifies query
    ensures match InvalidField(s.fields, db.proxyColumns)
            case Some(f) => r == Err(InvalidColumn(f))
            case None => r == Ok(ReadProxies(WithIdIn(s, ids), db)) && forall i :: 0 <= i < |r.value| ==> r.value[i].id in ids
  {
    query.Where(IdIn(ids));
    var bad := InvalidField(query.own.fields, db.proxyColumns);
    if bad.Some? {
      return Err(InvalidColumn(bad.value));
    }
    ReadProxyIds(s, ids, db);
    return Ok(ReadProxies(query.own, db));
  }

  /** Many-to-one: one lookup by id for the distinct non-null keys. */
  method LoadProxy(db: Database, query: EntityQuery, cells: seq<One<Entity>>, keys: seq<Option<int>>, ghost s: Settings<Entity>)
    returns (r: Result<(), LoadError>)
    requires db.Valid() && query.own == s && |cells| == |keys|
    requires NoDuplicates(cells) && forall c :: c in cells ==> c.value == None
    modifies query, cells
    ensures match if RequestedIds(keys) == [] then None else InvalidField(s.fields, db.proxyColumns)
            case Some(f) => r == Err(InvalidColumn(f))
            case None => r.Ok? && forall i :: 0 <= i < |cells| ==> cells[i].value == OneOf(ProxyBatch(s, keys, db), keys[i])
  {
    var ids, nodeids := IndexByKey(cells, keys);
    if |ids| == 0 {
      return Ok(());
    }
    var found := AllProxies(db, query, ids, s);
    if found.Err? {
      return Err(found.error);
    }
    var neighbours := found.value;
    r := AssignOne(cells, keys, nodeids, neighbours, EntityIds(neighbours));
  }

  // ----- building the nodes -----

  /** Freshly scanned nodes: the selected fields are read, no edge is filled, no cell is shared. */
  ghost predicate Blank(nodes: seq<Account>, rows: seq<AccountRow>, columns: seq<string>, loaded: AccountLoaded, R: set<object>)
    reads R
  {
    && |nodes| == |rows|
    && (forall i :: 0 <= i < |nodes| ==>
          && nodes[i] in R && nodes[i].groups in R && nodes[i].proxy in R && nodes[i].accountGroups in R
          && nodes[i].fields == ReadAccount(rows[i], columns) && nodes[i].loaded == loaded
          && nodes[i].groups.items == [] && nodes[i].proxy.value == None && nodes[i].accountGroups.items == [])
    && NoDuplicates(GroupCells(nodes)) && NoDuplicates(ProxyCells(nodes)) && NoDuplicates(AccountGroupCells(nodes))
  }

  lemma DistinctMore<T>(xs: seq<T>, x: T)
    requires NoDuplicates(xs) && x !in xs
    ensures NoDuplicates(xs + [x])
  {
  }

  method ScanAccounts(rows: seq<AccountRow>, columns: seq<string>, loaded: AccountLoaded) returns (nodes: seq<Account>, ghost R: set<object>)
    ensures fresh(R) && Blank(nodes, rows, columns, loaded, R)
  {
    nodes, R := [], {};
    for i := 0 to |rows|
      invariant fresh(R) && Blank(nodes, rows[..i], columns, loaded, R)
    {
      var node := new Account(ReadAccount(rows[i], columns), loaded);
      assert GroupCells(nodes + [node]) == GroupCells(nodes) + [node.groups];
      assert ProxyCells(nodes + [node]) == ProxyCells(nodes) + [node.proxy];
      assert AccountGroupCells(nodes + [node]) == AccountGroupCells(nodes) + [node.accountGroups];
      DistinctMore(GroupCells(nodes), node.groups);
      DistinctMore(ProxyCells(nodes), node.proxy);
      DistinctMore(AccountGroupCells(nodes), node.accountGroups);
      nodes := nodes + [node];
      R := R + {node, node.groups, node.proxy, node.accountGroups};
    }
    assert rows[..|rows|] == rows;
  }

  ghost predicate BlankGroups(nodes: seq<AccountGroup>, rows: seq<AccountGroupRow>, columns: seq<string>, loaded: bool, R: set<object>)
    reads R
  {
    && |nodes| == |rows|
    && (forall i :: 0 <= i < |nodes| ==>
          && nodes[i] in R && nodes[i].account in R
          && nodes[i].fields == ReadAccountGroup(rows[i], columns) && nodes[i].loaded == loaded
          && nodes[i].account.value == None)
    && NoDuplicates(AccountCells(nodes))
  }

  method ScanAccountGroups(rows: seq<AccountGroupRow>, columns: seq<string>, loaded: bool) returns (nodes: seq<AccountGroup>, ghost R: set<object>)
    ensures fresh(R) && BlankGroups(nodes, rows, columns, loaded, R)
  {
    nodes, R := [], {};
    for i := 0 to |rows|
      invariant fresh(R) && BlankGroups(nodes, rows[..i], columns, loaded, R)
    {
      var node := new AccountGroup(ReadAccountGroup(rows[i], columns), loaded);
      assert AccountCells(nodes + [node]) == AccountCells(nodes) + [node.account];
      assert forall j :: 0 <= j < |nodes| ==> nodes[j].account != node.account;
      nodes := nodes + [node];
      R := R + {node, node.account};
    }
    assert rows[..|rows|] == rows;
  }

  /** The column list of an account query spec. */
  method AccountSpecColumns(fields: seq<string>, withProxy: bool, db: Database) returns (columns: seq<string>)
    ensures columns == AccountColumns(fields, withProxy, db)
  {
    columns := db.accountColumns;
    if |fields| > 0 {
      columns := [FIELD_ID];
      for i := 0 to |fields|
        invariant columns == [FIELD_ID] + Filter(fields[..i], c => c != FIELD_ID)
      {
        assert fields[..i + 1][..i] == fields[..i];
        if fields[i] != FIELD_ID {
          columns := columns + [fields[i]];
        }
      }
      assert fields[..|fields|] == fields;
      if withProxy {
        columns := AppendOnce(columns, FIELD_PROXY_ID);
      }
    }
  }

  // ----- execution -----

  ghost predicate AccountsLoaded(nodes: seq<Account>, plan: AccountPlan, rows: seq<AccountRow>, db: Database, R: set<object>)
    reads R
  {
    && |nodes| == |rows|
    && forall i :: 0 <= i < |rows| ==> AccountShows(nodes[i], BatchAccount(plan, rows[i], rows, db), R)
  }

  ghost predicate AccountGroupsLoaded(nodes: seq<AccountGroup>, plan: AccountGroupPlan, rows: seq<AccountGroupRow>,
                                      batch: seq<AccountGroupRow>, db: Database, R: set<object>)
    reads R
  {
    && |nodes| == |rows|
    && forall i :: 0 <= i < |rows| ==> AccountGroupShows(nodes[i], BatchAccountGroup(plan, rows[i], batch, db), R)
  }

  lemma PickLoaded(nodes: seq<AccountGroup>, plan: AccountGroupPlan, rows: seq<AccountGroupRow>,
                   batch: seq<AccountGroupRow>, db: Database, R: set<object>, fks: seq<int>, k: int)
    requires AccountGroupsLoaded(nodes, plan, rows, batch, db, R) && |fks| == |rows|
    ensures AccountGroupsLoaded(Pick(nodes, fks, k), plan, Pick(rows, fks, k), batch, db, R)
  {
    PickSamePositions(nodes, rows, fks, k);
  }

  /** The owner column of an account-groups sub-query is always read. */
  lemma OwnerIsRead(plan: AccountGroupPlan, ids: seq<int>, r: AccountGroupRow, db: Database)
    requires db.Valid()
    ensures AccountGroupFields(OwnedBy(plan, ids), r, db).accountId == r.accountId
  {
  }

  /** One-to-many: one query for the children of all owners, each sent to its owner. */
  method LoadAccountGroups(db: Database, query: AccountGroupQuery, cells: seq<Many<AccountGroup>>, ids: seq<int>, ghost plan: AccountGroupPlan)
    returns (r: Result<(), LoadError>, ghost R: set<object>)
    requires db.Valid() && query.Represents(plan) && |cells| == |ids|
    requires NoDuplicates(cells) && NoDuplicates(ids) && forall c :: c in cells ==> c.items == [] && c !in query.Repr
    modifies query.Repr, cells
    ensures fresh(R)
    ensures match AccountGroupTrouble(OwnedBy(plan, ids), db)
            case Some(f) => r == Err(InvalidColumn(f))
            case None =>
              var sub := OwnedBy(plan, ids);
              var kids := Rows(sub.own, db.accountGroups);
              && r.Ok?
              && forall j :: 0 <= j < |cells| ==> AccountGroupsLoaded(cells[j].items, sub, Pick(kids, Owners(kids), ids[j]), kids, db, R)
    decreases plan.account, 2
  {
    R := {};
    var nodeids := IndexById(cells, ids);
    ghost var sub := OwnedBy(plan, ids);
    query.RestrictToOwners(ids, plan);
    var found;
    found, R := AllAccountGroups(db, query, sub);
    if found.Err? {
      return Err(found.error), R;
    }
    var neighbours := found.value;
    ghost var kids := Rows(sub.own, db.accountGroups);
    var fks := Map((n: AccountGroup) => n.fields.accountId, neighbours);
    assert fks == Owners(kids) by {
      forall i | 0 <= i < |kids| ensures fks[i] == kids[i].accountId {
        OwnerIsRead(plan, ids, kids[i], db);
      }
    }
    KidsOwned(plan, ids, db);
    r := AssignMany(cells, ids, nodeids, neighbours, fks);
    forall j | 0 <= j < |cells| {
      PickLoaded(neighbours, sub, kids, kids, db, R, fks, ids[j]);
    }
  }

  method AllAccountGroups(db: Database, query: AccountGroupQuery, ghost plan: AccountGroupPlan)
    returns (r: Result<seq<AccountGroup>, LoadError>, ghost R: set<object>)
    requires db.Valid() && query.Represents(plan)
    modifies query.Repr
    ensures fresh(R)
    ensures match AccountGroupTrouble(plan, db)
            case Some(f) => r == Err(InvalidColumn(f))
            case None =>
              var rows := Rows(plan.own, db.accountGroups);
              r.Ok? && AccountGroupsLoaded(r.value, plan, rows, rows, db, R)
    decreases plan.account, 1
  {
    R := {};
    var bad := InvalidField(query.own.fields, db.accountGroupColumns);
    if bad.Some? {
      return Err(InvalidColumn(bad.value)), R;
    }
    var rows := Rows(query.own, db.accountGroups);
    var columns := AccountGroupColumns(query.own.fields, query.withAccount != null, db);
    var nodes;
    nodes, R := ScanAccountGroups(rows, columns, query.withAccount != null);
    if |nodes| == 0 {
      return Ok(nodes), R;
    }
    var keys := Map((n: AccountGroup) => Some(n.fields.accountId), nodes);
    ParentKeysAreRead(plan, nodes, rows, db);
    ghost var P;
    var done;
    done, P := FillAccounts(db, query.withAccount, nodes, keys, plan.account);
    if done.Err? {
      return Err(done.error), R;
    }
    forall i | 0 <= i < |rows| ensures AccountGroupShows(nodes[i], BatchAccountGroup(plan, rows[i], rows, db), R + P) {
      AccountGroupFinished(nodes[i], plan, rows[i], rows, keys, db, R, P);
    }
    R := R + P;
    r := Ok(nodes);
  }

  ghost predicate ParentFilled(n: AccountGroup, p: Option<AccountPlan>, keys: seq<Option<int>>, key: Option<int>, db: Database, P: set<object>)
    reads n.account, P
  {
    match p
    case None => n.account.value == None
    case Some(p) => ParentLoaded(n.account, AccountsIn(p, RequestedIds(keys)), key, db, P)
  }

  method FillAccounts(db: Database, query: AccountQuery?, nodes: seq<AccountGroup>, keys: seq<Option<int>>, ghost p: Option<AccountPlan>)
    returns (r: Result<(), LoadError>, ghost P: set<object>)
    requires db.Valid() && |keys| == |nodes| && (query == null <==> p.None?)
    requires query != null ==> query.Represents(p.value) && forall i :: 0 <= i < |nodes| ==> nodes[i].account !in query.Repr
    requires NoDuplicates(AccountCells(nodes))
    requires forall i :: 0 <= i < |nodes| ==> nodes[i].account.value == None
    requires nodes != [] && forall i :: 0 <= i < |nodes| ==> keys[i].Some?
    modifies if query == null then {} else query.Repr, AccountCells(nodes)
    ensures fresh(P)
    ensures match if p.Some? then AccountTrouble(AccountsIn(p.value, RequestedIds(keys)), db) else None
            case Some(f) => r == Err(InvalidColumn(f))
            case None => r.Ok? && forall i :: 0 <= i < |nodes| ==> ParentFilled(nodes[i], p, keys, keys[i], db, P)
    decreases p, 0
  {
    if query == null {
      return Ok(()), {};
    }
    RequestedIdsExact(keys);
    assert keys[0] == Some(keys[0].value);
    var cells := AccountCells(nodes);
    r, P := LoadAccount(db, query, cells, keys, p.value);
    assert forall i :: 0 <= i < |nodes| ==> cells[i] == nodes[i].account;
  }

  lemma ParentKeysAreRead(plan: AccountGroupPlan, nodes: seq<AccountGroup>, rows: seq<AccountGroupRow>, db: Database)
    requires db.Valid() && |nodes| == |rows|
    requires forall i :: 0 <= i < |nodes| ==> nodes[i].fields == AccountGroupFields(plan, rows[i], db)
    ensures plan.account.Some? ==> Map((n: AccountGroup) => Some(n.fields.accountId), nodes) == OwnerKeys(rows)
  {
    forall i | 0 <= i < |rows| && plan.account.Some? ensures nodes[i].fields.accountId == rows[i].accountId {
      ParentKeyIsRead(plan, rows[i], db);
    }
  }

  lemma AccountGroupFinished(n: AccountGroup, plan: AccountGroupPlan, row: AccountGroupRow, batch: seq<AccountGroupRow>,
                             keys: seq<Option<int>>, db: Database, R: set<object>, P: set<object>)
    requires n in R && n.account in R
    requires n.fields == AccountGroupFields(plan, row, db) && n.loaded == plan.account.Some?
    requires plan.account.Some? ==> keys == OwnerKeys(batch) && n.fields.accountId == row.accountId
    requires ParentFilled(n, plan.account, keys, Some(n.fields.accountId), db, P)
    ensures AccountGroupShows(n, BatchAccountGroup(plan, row, batch, db), R + P)
  {
    var v := BatchAccountGroup(plan, row, batch, db);
    if v.account.Some? {
      AccountShowsMore(n.account.value.value, v.account.value, P, R + P);
    }
  }

  lemma ParentKeyIsRead(plan: AccountGroupPlan, r: AccountGroupRow, db: Database)
    requires db.Valid() && plan.account.Some?
    ensures AccountGroupFields(plan, r, db).accountId == r.accountId
  {
  }

  /** The parents batch of an account edge, and the parent a row finds in it. */
  ghost predicate ParentLoaded(cell: One<Account>, sub: AccountPlan, key: Option<int>, db: Database, R: set<object>)
    reads R, cell
  {
    var parents := Rows(sub.own, db.accounts);
    match if key.None? then None else Last(Pick(parents, AccountIds(parents), key.value))
    case None => cell.value == None
    case Some(a) => cell.value.Some? && AccountShows(cell.value.value, BatchAccount(sub, a, parents, db), R)
  }

  lemma ParentAssigned(cell: One<Account>, sub: AccountPlan, key: Option<int>, db: Database, R: set<object>, nodes: seq<Account>)
    requires var parents := Rows(sub.own, db.accounts);
             && AccountsLoaded(nodes, sub, parents, db, R)
             && cell.value == Assigned(nodes, AccountIds(parents), key)
    ensures ParentLoaded(cell, sub, key, db, R)
  {
    if key.Some? {
      var parents := Rows(sub.own, db.accounts);
      PickSamePositions(nodes, parents, AccountIds(parents), key.value);
    }
  }

  /** The accounts with the requested ids, loaded with their sub-trees. */
  method QueryParents(db: Database, query: AccountQuery, ids: seq<int>, ghost plan: AccountPlan)
    returns (r: Result<seq<Account>, LoadError>, neighbourIds: seq<int>, ghost R: set<object>)
    requires db.Valid() && query.Represents(plan)
    modifies query.Repr
    ensures fresh(R)
    ensures match AccountTrouble(AccountsIn(plan, ids), db)
            case Some(f) => r == Err(InvalidColumn(f))
            case None =>
              var parents := Rows(AccountsIn(plan, ids).own, db.accounts);
              && r.Ok? && AccountsLoaded(r.value, AccountsIn(plan, ids), parents, db, R)
              && neighbourIds == AccountIds(parents) && AllIn(neighbourIds, set i | i in ids)
    decreases plan.edges, 2
  {
    ghost var sub := AccountsIn(plan, ids);
    neighbourIds := [];
    query.own := Narrowed(query.own, AccountIdIn(ids));
    assert query.Represents(sub);
    r, R := AllAccounts(db, query, sub);
    if r.Ok? {
      ghost var parents := Rows(sub.own, db.accounts);
      neighbourIds := Map((n: Account) => n.fields.id, r.value);
      assert neighbourIds == AccountIds(parents) by {
        forall i | 0 <= i < |parents| ensures neighbourIds[i] == parents[i].id {
          IdIsRead(sub, parents[i], db);
        }
      }
      ParentIds(plan, ids, db);
    }
  }

  /** Many-to-one over nodes that are themselves queried: the recursive half. */
  method LoadAccount(db: Database, query: AccountQuery, cells: seq<One<Account>>, keys: seq<Option<int>>, ghost plan: AccountPlan)
    returns (r: Result<(), LoadError>, ghost R: set<object>)
    requires db.Valid() && query.Represents(plan) && |cells| == |keys|
    requires NoDuplicates(cells) && forall c :: c in cells ==> c.value == None && c !in query.Repr
    modifies query.Repr, cells
    ensures fresh(R)
    ensures match if RequestedIds(keys) == [] then None else AccountTrouble(AccountsIn(plan, RequestedIds(keys)), db)
            case Some(f) => r == Err(InvalidColumn(f))
            case None => r.Ok? && (RequestedIds(keys) != [] ==>
              forall i :: 0 <= i < |cells| ==> ParentLoaded(cells[i], AccountsIn(plan, RequestedIds(keys)), keys[i], db, R))
    decreases plan.edges, 3
  {
    R := {};
    var ids, nodeids := IndexByKey(cells, keys);
    if |ids| == 0 {
      return Ok(()), R;
    }
    var found, neighbourIds;
    found, neighbourIds, R := QueryParents(db, query, ids, plan);
    if found.Err? {
      return Err(found.error), R;
    }
    r := AssignOne(cells, keys, nodeids, found.value, neighbourIds);
    forall i | 0 <= i < |cells| ensures ParentLoaded(cells[i], AccountsIn(plan, ids), keys[i], db, R) {
      ParentAssigned(cells[i], AccountsIn(plan, ids), keys[i], db, R, found.value);
    }
  }

  lemma IdIsRead(plan: AccountPlan, r: AccountRow, db: Database)
    requires db.Valid()
    ensures AccountFields(plan, r, db).id == r.id
  {
    assert FIELD_ID in SelectedWithId(plan.own.fields, db.accountColumns);
  }

  method AllAccounts(db: Database, query: AccountQuery, ghost plan: AccountPlan)
    returns (r: Result<seq<Account>, LoadError>, ghost R: set<object>)
    requires db.Valid() && query.Represents(plan)
    modifies query.Repr
    ensures fresh(R)
    ensures match AccountTrouble(plan, db)
            case Some(f) => r == Err(InvalidColumn(f))
            case None =>
              var rows := Rows(plan.own, db.accounts);
              r.Ok? && AccountsLoaded(r.value, plan, rows, db, R)
    decreases plan.edges, 1
  {
    R := {};
    var bad := InvalidField(query.own.fields, db.accountColumns);
    if bad.Some? {
      return Err(InvalidColumn(bad.value)), R;
    }
    var rows := Rows(query.own, db.accounts);
    var columns := AccountSpecColumns(query.own.fields, query.withProxy != null, db);
    var loaded := AccountLoaded(query.withGroups != null, query.withProxy != null, query.withAccountGroups != null);
    var nodes;
    nodes, R := ScanAccounts(rows, columns, loaded);
    if |nodes| == 0 {
      return Ok(nodes), R;
    }
    var ids := Map((n: Account) => n.fields.id, nodes);
    var keys := Map((n: Account) => n.fields.proxyId, nodes);
    KeysAreRead(plan, nodes, rows, db);
    RowsUnique(plan.own, db.accounts, (a: AccountRow) => a.id);
    assert EdgeTrouble(plan.edges, ids, keys, db) == EdgeTrouble(plan.edges, AccountIds(rows), ProxyKeys(rows), db);
    ghost var P;
    var done: Result<(), LoadError>;
    done, P := LoadEdges(db, query, plan, nodes, ids, keys);
    if done.Err? {
      return Err(done.error), R;
    }
    forall i | 0 <= i < |rows| ensures AccountShows(nodes[i], BatchAccount(plan, rows[i], rows, db), R + P) {
      AccountFinished(nodes[i], plan, rows[i], rows, keys, db, R, P);
    }
    R := R + P;
    r := Ok(nodes);
  }

  lemma AccountFinished(n: Account, plan: AccountPlan, row: AccountRow, batch: seq<AccountRow>, keys: seq<Option<int>>,
                        db: Database, R: set<object>, P: set<object>)
    requires n in R && n.groups in R && n.proxy in R && n.accountGroups in R
    requires n.fields == AccountFields(plan, row, db) && n.loaded == AccountFlags(plan.edges)
    requires plan.edges.proxy.Some? ==> keys == ProxyKeys(batch) && n.fields.proxyId == row.proxyId
    requires Filled(n, plan.edges, AccountIds(batch), keys, row.id, n.fields.proxyId, db, P)
    ensures AccountShows(n, BatchAccount(plan, row, batch, db), R + P)
  {
    var v := BatchAccount(plan, row, batch, db);
    forall i | 0 <= i < |v.accountGroups| ensures AccountGroupShows(n.accountGroups.items[i], v.accountGroups[i], R + P) {
      AccountGroupShowsMore(n.accountGroups.items[i], v.accountGroups[i], P, R + P);
    }
  }

  // What each edge of an account holds after a batch with these owners.

  ghost predicate GroupsFilled(n: Account, s: Option<Settings<Entity>>, ids: seq<int>, id: int, db: Database)
    reads n.groups
  {
    n.groups.items == match s { case None => [] case Some(s) => Through(ReadJoined(s, ids, db), id) }
  }

  ghost predicate ProxyFilled(n: Account, s: Option<Settings<Entity>>, keys: seq<Option<int>>, key: Option<int>, db: Database)
    reads n.proxy
  {
    n.proxy.value == match s { case None => None case Some(s) => OneOf(ProxyBatch(s, keys, db), key) }
  }

  ghost predicate AccountGroupsFilled(n: Account, p: Option<AccountGroupPlan>, ids: seq<int>, id: int, db: Database, P: set<object>)
    reads n.accountGroups, P
  {
    match p
    case None => n.accountGroups.items == []
    case Some(p) =>
      var sub := OwnedBy(p, ids);
      var kids := Rows(sub.own, db.accountGroups);
      AccountGroupsLoaded(n.accountGroups.items, sub, Pick(kids, Owners(kids), id), kids, db, P)
  }

  method FillGroups(db: Database, query: EntityQuery?, nodes: seq<Account>, ids: seq<int>, ghost s: Option<Settings<Entity>>)
    returns (r: Result<(), LoadError>)
    requires QueryIs(query, s) && |ids| == |nodes|
    requires NoDuplicates(GroupCells(nodes)) && NoDuplicates(ids)
    requires forall i :: 0 <= i < |nodes| ==> nodes[i].groups.items == []
    modifies query, GroupCells(nodes)
    ensures match if s.Some? then InvalidField(s.value.fields, db.groupColumns) else None
            case Some(f) => r == Err(InvalidColumn(f))
            case None => r.Ok? && forall i :: 0 <= i < |nodes| ==> GroupsFilled(nodes[i], s, ids, ids[i], db)
  {
    if query == null {
      return Ok(());
    }
    var cells := GroupCells(nodes);
    r := LoadGroups(db, query, cells, ids, s.value);
    assert forall i :: 0 <= i < |nodes| ==> cells[i] == nodes[i].groups;
  }

  method FillProxy(db: Database, query: EntityQuery?, nodes: seq<Account>, keys: seq<Option<int>>, ghost s: Option<Settings<Entity>>)
    returns (r: Result<(), LoadError>)
    requires db.Valid() && QueryIs(query, s) && |keys| == |nodes|
    requires NoDuplicates(ProxyCells(nodes))
    requires forall i :: 0 <= i < |nodes| ==> nodes[i].proxy.value == None
    modifies query, ProxyCells(nodes)
    ensures match if s.Some? && RequestedIds(keys) != [] then InvalidField(s.value.fields, db.proxyColumns) else None
            case Some(f) => r == Err(InvalidColumn(f))
            case None => r.Ok? && forall i :: 0 <= i < |nodes| ==> ProxyFilled(nodes[i], s, keys, keys[i], db)
  {
    if query == null {
      return Ok(());
    }
    var cells := ProxyCells(nodes);
    r := LoadProxy(db, query, cells, keys, s.value);
    assert forall i :: 0 <= i < |nodes| ==> cells[i] == nodes[i].proxy;
  }

  method FillAccountGroups(db: Database, query: AccountGroupQuery?, nodes: seq<Account>, ids: seq<int>, ghost p: Option<AccountGroupPlan>)
    returns (r: Result<(), LoadError>, ghost P: set<object>)
    requires db.Valid() && |ids| == |nodes| && (query == null <==> p.None?)
    requires query != null ==> query.Represents(p.value) && forall i :: 0 <= i < |nodes| ==>
               nodes[i].groups !in query.Repr && nodes[i].proxy !in query.Repr && nodes[i].accountGroups !in query.Repr
    requires NoDuplicates(AccountGroupCells(nodes)) && NoDuplicates(ids)
    requires forall i :: 0 <= i < |nodes| ==> nodes[i].accountGroups.items == []
    modifies if query == null then {} else query.Repr, AccountGroupCells(nodes)
    ensures fresh(P)
    ensures forall i :: 0 <= i < |nodes| ==> nodes[i].groups.items == old(nodes[i].groups.items) && nodes[i].proxy.value == old(nodes[i].proxy.value)
    ensures match if p.Some? then AccountGroupTrouble(OwnedBy(p.value, ids), db) else None
            case Some(f) => r == Err(InvalidColumn(f))
            case None => r.Ok? && forall i :: 0 <= i < |nodes| ==> AccountGroupsFilled(nodes[i], p, ids, ids[i], db, P)
    decreases p, 3
  {
    if query == null {
      return Ok(()), {};
    }
    var cells := AccountGroupCells(nodes);
    r, P := LoadAccountGroups(db, query, cells, ids, p.value);
    assert forall i :: 0 <= i < |nodes| ==> cells[i] == nodes[i].accountGroups;
  }

  ghost predicate Filled(n: Account, edges: AccountEdges, ids: seq<int>, keys: seq<Option<int>>, id: int, key: Option<int>,
                         db: Database, P: set<object>)
    reads n.groups, n.proxy, n.accountGroups, P
  {
    && GroupsFilled(n, edges.groups, ids, id, db)
    && ProxyFilled(n, edges.proxy, keys, key, db)
    && AccountGroupsFilled(n, edges.accountGroups, ids, id, db, P)
  }

  /** The keys the loaders use are read whatever columns are selected: ids always, proxy keys when that edge is requested. */
  lemma KeysAreRead(plan: AccountPlan, nodes: seq<Account>, rows: seq<AccountRow>, db: Database)
    requires db.Valid() && |nodes| == |rows|
    requires forall i :: 0 <= i < |nodes| ==> nodes[i].fields == AccountFields(plan, rows[i], db)
    ensures Map((n: Account) => n.fields.id, nodes) == AccountIds(rows)
    ensures plan.edges.proxy.Some? ==> Map((n: Account) => n.fields.proxyId, nodes) == ProxyKeys(rows)
  {
    forall i | 0 <= i < |rows| ensures nodes[i].fields.id == rows[i].id {
      IdIsRead(plan, rows[i], db);
    }
    forall i | 0 <= i < |rows| && plan.edges.proxy.Some? ensures nodes[i].fields.proxyId == rows[i].proxyId {
      ProxyIsRead(plan, rows[i], db);
    }
  }

  lemma ProxyIsRead(plan: AccountPlan, r: AccountRow, db: Database)
    requires db.Valid() && plan.edges.proxy.Some?
    ensures AccountFields(plan, r, db).proxyId == r.proxyId
  {
  }

  function FlatTrouble(edges: AccountEdges, keys: seq<Option<int>>, db: Database): Option<string> {
    var groups := if edges.groups.Some? then InvalidField(edges.groups.value.fields, db.groupColumns) else None;
    if groups.Some? then groups
    else if edges.proxy.Some? && RequestedIds(keys) != [] then InvalidField(edges.proxy.value.fields, db.proxyColumns)
    else None
  }

  /** The first two edges of `sqlAll`; the account-groups builder is left as it was. */
  method LoadFlatEdges(db: Database, query: AccountQuery, ghost edges: AccountEdges, nodes: seq<Account>, ids: seq<int>, keys: seq<Option<int>>)
    returns (r: Result<(), LoadError>)
    requires db.Valid() && |ids| == |nodes| == |keys| && NoDuplicates(ids)
    requires QueryIs(query.withGroups, edges.groups) && QueryIs(query.withProxy, edges.proxy)
    requires query.withProxy != null ==> query.withProxy != query.withGroups
    requires NoDuplicates(GroupCells(nodes)) && NoDuplicates(ProxyCells(nodes))
    requires forall i :: 0 <= i < |nodes| ==> nodes[i].groups.items == [] && nodes[i].proxy.value == None
    modifies query.withGroups, query.withProxy, GroupCells(nodes), ProxyCells(nodes)
    ensures match FlatTrouble(edges, keys, db)
            case Some(f) => r == Err(InvalidColumn(f))
            case None => r.Ok? && forall i :: 0 <= i < |nodes| ==>
              GroupsFilled(nodes[i], edges.groups, ids, ids[i], db) && ProxyFilled(nodes[i], edges.proxy, keys, keys[i], db)
  {
    r := FillGroups(db, query.withGroups, nodes, ids, edges.groups);
    if r.Err? {
      return;
    }
    r := FillProxy(db, query.withProxy, nodes, keys, edges.proxy);
  }

  /** The edge part of `sqlAll`: groups, then proxy, then account groups, stopping at the first error. */
  method LoadEdges(db: Database, query: AccountQuery, ghost plan: AccountPlan, nodes: seq<Account>, ids: seq<int>, keys: seq<Option<int>>)
    returns (r: Result<(), LoadError>, ghost P: set<object>)
    requires db.Valid() && query.Represents(plan) && |ids| == |nodes| == |keys| && NoDuplicates(ids)
    requires NoDuplicates(GroupCells(nodes)) && NoDuplicates(ProxyCells(nodes)) && NoDuplicates(AccountGroupCells(nodes))
    requires forall i :: 0 <= i < |nodes| ==> nodes[i].groups.items == [] && nodes[i].proxy.value == None && nodes[i].accountGroups.items == []
    requires forall i :: 0 <= i < |nodes| ==> nodes[i].groups !in query.Repr && nodes[i].proxy !in query.Repr && nodes[i].accountGroups !in query.Repr
    modifies query.Repr, GroupCells(nodes), ProxyCells(nodes), AccountGroupCells(nodes)
    ensures fresh(P)
    ensures match EdgeTrouble(plan.edges, ids, keys, db)
            case Some(f) => r == Err(InvalidColumn(f))
            case None => r.Ok? && forall i :: 0 <= i < |nodes| ==> Filled(nodes[i], plan.edges, ids, keys, ids[i], keys[i], db, P)
    decreases plan.edges, 0
  {
    P := {};
    var sub := query.withAccountGroups;
    r := LoadFlatEdges(db, query, plan.edges, nodes, ids, keys);
    if r.Err? {
      return;
    }
    assert sub != null ==> sub.Represents(plan.edges.accountGroups.value);
    label Flat:
    r, P := FillAccountGroups(db, sub, nodes, ids, plan.edges.accountGroups);
    if r.Err? {
      return;
    }
    forall i | 0 <= i < |nodes| ensures Filled(nodes[i], plan.edges, ids, keys, ids[i], keys[i], db, P) {
      assert old@Flat(GroupsFilled(nodes[i], plan.edges.groups, ids, ids[i], db));
      assert old@Flat(ProxyFilled(nodes[i], plan.edges.proxy, keys, keys[i], db));
    }
  }

  // ----- what a caller sees -----

  /** The object graph at `n` is the direct relational reading of `row`. */
  ghost predicate IsUnfolding(n: Account, plan: AccountPlan, row: AccountRow, db: Database, R: set<object>)
    reads R
  {
    exists v :: AccountShows(n, v, R) && UnfoldsAccount(v, plan, row, db)
  }

  /**
   The loaded object graph is the relational unfolding of the query tree: the node of
   each row holds, per requested edge and at every depth, exactly its own related rows.
   */
  lemma LoadedIsUnfolded(nodes: seq<Account>, plan: AccountPlan, db: Database, R: set<object>)
    requires db.Valid() && Unlimited(plan.edges)
    requires AccountsLoaded(nodes, plan, Rows(plan.own, db.accounts), db, R)
    ensures var rows := Rows(plan.own, db.accounts);
            && |nodes| == |rows|
            && forall i :: 0 <= i < |rows| ==> IsUnfolding(nodes[i], plan, rows[i], db, R)
  {
    var rows := Rows(plan.own, db.accounts);
    forall i | 0 <= i < |rows| ensures IsUnfolding(nodes[i], plan, rows[i], db, R) {
      BatchUnfoldsAccount(plan, rows[i], rows, db);
      assert AccountShows(nodes[i], BatchAccount(plan, rows[i], rows, db), R);
    }
  }

  /**
   Executes a query tree.  A plan without limits on its sub-queries loads its
   relational unfolding; a plan that reaches an invalid column is refused by name.
   */
  method All(db: Database, query: AccountQuery, ghost plan: AccountPlan)
    returns (r: Result<seq<Account>, LoadError>, ghost R: set<object>)
    requires db.Valid() && query.Represents(plan)
    modifies query.Repr
    ensures fresh(R)
    ensures r.Err? <==> AccountTrouble(plan, db).Some?
    ensures r.Err? ==> r.error == InvalidColumn(AccountTrouble(plan, db).value)
    ensures Answers(Rows(plan.own, db.accounts), plan.own, db.accounts)
    ensures r.Ok? ==> |r.value| == |Rows(plan.own, db.accounts)|
                      && forall i :: 0 <= i < |r.value| ==> r.value[i].fields == AccountFields(plan, Rows(plan.own, db.accounts)[i], db)
    ensures r.Ok? && Unlimited(plan.edges) ==>
              forall i :: 0 <= i < |r.value| ==> IsUnfolding(r.value[i], plan, Rows(plan.own, db.accounts)[i], db, R)
  {
    RowsAnswer(plan.own, db.accounts);
    r, R := AllAccounts(db, query, plan);
    if r.Ok? && Unlimited(plan.edges) {
      LoadedIsUnfolded(r.value, plan, db, R);
    }
  }

  /** Executing a query, which adds predicates to its sub-builders, leaves an earlier clone as it was. */
  method CloneThenAll(db: Database, query: AccountQuery, ghost plan: AccountPlan)
    returns (c: AccountQuery, r: Result<seq<Account>, LoadError>, ghost R: set<object>)
    requires db.Valid() && query.Represents(plan)
    modifies query.Repr
    ensures fresh(c.Repr) && c.Represents(ClonedPlan(plan))
    ensures r.Err? <==> AccountTrouble(plan, db).Some?
    ensures r.Ok? && Unlimited(plan.edges) ==>
              |r.value| == |Rows(plan.own, db.accounts)|
              && forall i :: 0 <= i < |r.value| ==> IsUnfolding(r.value[i], plan, Rows(plan.own, db.accounts)[i], db, R)
  {
    c := query.Clone(plan);
    r, R := All(db, query, plan);
  }

  /** The first selected column that the table does not have, if any. */
  lemma {:induction false} InvalidFieldExact(fields: seq<string>, columns: seq<string>)
    ensures InvalidField(fields, columns).None? <==> forall i :: 0 <= i < |fields| ==> fields[i] in columns
    ensures forall i :: 0 <= i < |fields| && fields[i] !in columns && (forall j :: 0 <= j < i ==> fields[j] in columns)
              ==> InvalidField(fields, columns) == Some(fields[i])
  {
    if fields != [] && fields[0] in columns {
      var rest := fields[1..];
      InvalidFieldExact(rest, columns);
      assert forall i :: 1 <= i < |fields| ==> fields[i] == rest[i - 1];
    }
  }

  predicate Known(fields: seq<string>, columns: seq<string>) {
    forall i :: 0 <= i < |fields| ==> fields[i] in columns
  }

  /** Every column selected at any depth belongs to its table. */
  predicate KnownColumns(plan: AccountPlan, db: Database)
    decreases plan.edges
  {
    && Known(plan.own.fields, db.accountColumns)
    && (plan.edges.groups.Some? ==> Known(plan.edges.groups.value.fields, db.groupColumns))
    && (plan.edges.proxy.Some? ==> Known(plan.edges.proxy.value.fields, db.proxyColumns))
    && (plan.edges.accountGroups.Some? ==>
          var p := plan.edges.accountGroups.value;
          Known(p.own.fields, db.accountGroupColumns) && (p.account.Some? ==> KnownColumns(p.account.value, db)))
  }

  /** A tree that selects known columns only is in no trouble; one whose own query does not, is, and by its first unknown column. */
  lemma {:induction false} TroubleFree(plan: AccountPlan, db: Database)
    requires db.Valid()
    ensures KnownColumns(plan, db) ==> AccountTrouble(plan, db).None?
    ensures !Known(plan.own.fields, db.accountColumns) ==> AccountTrouble(plan, db) == InvalidField(plan.own.fields, db.accountColumns)
    decreases plan.edges
  {
    InvalidFieldExact(plan.own.fields, db.accountColumns);
    if KnownColumns(plan, db) {
      if plan.edges.groups.Some? {
        InvalidFieldExact(plan.edges.groups.value.fields, db.groupColumns);
      }
      if plan.edges.proxy.Some? {
        InvalidFieldExact(plan.edges.proxy.value.fields, db.proxyColumns);
      }
      if plan.edges.accountGroups.Some? {
        GroupTroubleFree(plan.edges.accountGroups.value, AccountIds(Rows(plan.own, db.accounts)), db);
      }
    }
  }

  lemma {:induction false} GroupTroubleFree(p: AccountGroupPlan, ids: seq<int>, db: Database)
    requires db.Valid() && Known(p.own.fields, db.accountGroupColumns)
    requires p.account.Some? ==> KnownColumns(p.account.value, db)
    ensures AccountGroupTrouble(OwnedBy(p, ids), db).None?
    decreases p.account
  {
    var sub := OwnedBy(p, ids);
    InvalidFieldExact(sub.own.fields, db.accountGroupColumns);
    assert Known(sub.own.fields, db.accountGroupColumns);
    if p.account.Some? {
      var q := AccountsIn(p.account.value, RequestedIds(OwnerKeys(Rows(sub.own, db.accountGroups))));
      assert KnownColumns(q, db);
      TroubleFree(q, db);
    }
  }

  /** The accessors tell an edge that was not requested from one that has no related row. */
  lemma AccessorsReport(n: Account, v: AccountView, plan: AccountPlan, row: AccountRow, db: Database, R: set<object>)
    requires AccountShows(n, v, R) && UnfoldsAccount(v, plan, row, db)
    ensures n.GroupsOrErr() == Err(NotLoaded) <==> plan.edges.groups.None?
    ensures n.AccountGroupsOrErr() == Err(NotLoaded) <==> plan.edges.accountGroups.None?
    ensures n.ProxyOrErr() == Err(NotLoaded) <==> plan.edges.proxy.None?
    ensures plan.edges.proxy.Some? ==>
              forall e :: n.ProxyOrErr() == Ok(e) <==> IsProxyOf(e, plan.edges.proxy.value, row.proxyId, db)
    ensures plan.edges.proxy.Some? ==>
              (n.ProxyOrErr() == Err(NotFound) <==> forall e :: !IsProxyOf(e, plan.edges.proxy.value, row.proxyId, db))
  {
    if plan.edges.proxy.Some? {
      assert v.proxy.Some? ==> IsProxyOf(v.proxy.value, plan.edges.proxy.value, row.proxyId, db);
      assert forall e :: IsProxyOf(e, plan.edges.proxy.value, row.proxyId, db) ==> v.proxy == Some(e);
    }
  }
}
