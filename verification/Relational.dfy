/**
 Tables, queries over them, and the batched reading of a query plan:
 `BatchAccount` and `BatchAccountGroup` describe the queries that the generated
 loaders send, one per edge and level.  What a caller expects instead, and that it
 is the same, is in `Unfolding`.
 */
module Relational {
  import opened Wrappers
  import opened Sequences

  // ----- rows and tables -----

  const FIELD_ID := "id"
  const FIELD_PROXY_ID := "proxy_id"
  const FIELD_ACCOUNT_ID := "account_id"
  const FIELD_GROUP_ID := "group_id"

  datatype AccountRow = AccountRow(id: int, proxyId: Option<int>, rest: map<string, string>)

  datatype AccountGroupRow = AccountGroupRow(accountId: int, groupId: int, rest: map<string, string>)

  /** A group or a proxy; as a row and, once read, as a loaded node. */
  datatype Entity = Entity(id: int, rest: map<string, string>)

  /** A row of the join of `account_groups` with `groups`. */
  datatype JoinRow = JoinRow(owner: int, group: Entity)

  datatype Database = Database(
    accounts: seq<AccountRow>, accountGroups: seq<AccountGroupRow>, groups: seq<Entity>, proxies: seq<Entity>,
    accountColumns: seq<string>, accountGroupColumns: seq<string>, groupColumns: seq<string>, proxyColumns: seq<string>)
  {
    /** Primary keys are unique and the key columns belong to their tables. */
    ghost predicate Valid() {
      && NoDuplicates(AccountIds(accounts))
      && NoDuplicates(EntityIds(groups))
      && NoDuplicates(EntityIds(proxies))
      && FIELD_ID in accountColumns && FIELD_PROXY_ID in accountColumns
      && FIELD_ACCOUNT_ID in accountGroupColumns && FIELD_GROUP_ID in accountGroupColumns
      && FIELD_ID in groupColumns && FIELD_ID in proxyColumns
    }
  }

  // ----- query plans -----

  /** The state every query builder carries. */
  datatype Settings<!R> = Settings(
    preds: seq<R -> bool>, fields: seq<string>, order: seq<R -> int>,
    limit: Option<nat>, offset: Option<nat>, modifiers: seq<string>)

  datatype AccountEdges = AccountEdges(
    groups: Option<Settings<Entity>>, proxy: Option<Settings<Entity>>, accountGroups: Option<AccountGroupPlan>)

  datatype AccountPlan = AccountPlan(own: Settings<AccountRow>, edges: AccountEdges)

  datatype AccountGroupPlan = AccountGroupPlan(own: Settings<AccountGroupRow>, account: Option<AccountPlan>)

  // ----- one query -----

  predicate Holds<R>(preds: seq<R -> bool>, r: R) {
    forall i :: 0 <= i < |preds| ==> preds[i](r)
  }

  /** One page of a result.  A limit of zero leaves the query spec as no limit does. */
  function Page<R>(xs: seq<R>, limit: Option<nat>, offset: Option<nat>): seq<R> {
    var skip := if offset.None? then 0 else if offset.value <= |xs| then offset.value else |xs|;
    var rest := xs[skip..];
    if limit.Some? && 0 < limit.value <= |rest| then rest[..limit.value] else rest
  }

  /** The rows the driver returns for a query over one table. */
  function Rows<R>(s: Settings<R>, table: seq<R>): seq<R> {
    Page(Arrange(Filter(table, r => Holds(s.preds, r)), s.order), s.limit, s.offset)
  }

  function Joined(links: seq<AccountGroupRow>, groups: seq<Entity>, owners: seq<int>, preds: seq<Entity -> bool>): seq<JoinRow>
  {
    if links == [] then []
    else
      var link := links[|links| - 1];
      var rest := Joined(links[..|links| - 1], groups, owners, preds);
      if link.accountId !in owners then rest
      else rest + Map((g: Entity) => JoinRow(link.accountId, g), Filter(groups, (g: Entity) => g.id == link.groupId && Holds(preds, g)))
  }

  /** The rows of a group query joined with `account_groups` on the given owners. */
  function JoinedRows(s: Settings<Entity>, owners: seq<int>, db: Database): seq<JoinRow> {
    var keys := Map((k: Entity -> int) => (j: JoinRow) => k(j.group), s.order);
    Page(Arrange(Joined(db.accountGroups, db.groups, owners, s.preds), keys), s.limit, s.offset)
  }

  // ----- selected columns and what is read back -----

  function AppendOnce(columns: seq<string>, c: string): seq<string> {
    if c in columns then columns else columns + [c]
  }

  /** The columns of a table with an id: all of them, or the id first and then the selection. */
  function SelectedWithId(fields: seq<string>, all: seq<string>): seq<string> {
    if fields == [] then all else [FIELD_ID] + Filter(fields, c => c != FIELD_ID)
  }

  function AccountColumns(fields: seq<string>, withProxy: bool, db: Database): seq<string> {
    var columns := SelectedWithId(fields, db.accountColumns);
    if fields != [] && withProxy then AppendOnce(columns, FIELD_PROXY_ID) else columns
  }

  function AccountGroupColumns(fields: seq<string>, withAccount: bool, db: Database): seq<string> {
    if fields == [] then db.accountGroupColumns
    else if withAccount then AppendOnce(fields, FIELD_ACCOUNT_ID) else fields
  }

  function Restrict(rest: map<string, string>, columns: seq<string>): map<string, string> {
    map c | c in rest && c in columns :: rest[c]
  }

  /** The fields of an entity after its row was read with these columns; unread fields stay zero. */
  function ReadAccount(r: AccountRow, columns: seq<string>): AccountRow {
    AccountRow(if FIELD_ID in columns then r.id else 0,
               if FIELD_PROXY_ID in columns then r.proxyId else None,
               Restrict(r.rest, columns))
  }

  function ReadAccountGroup(r: AccountGroupRow, columns: seq<string>): AccountGroupRow {
    AccountGroupRow(if FIELD_ACCOUNT_ID in columns then r.accountId else 0,
                    if FIELD_GROUP_ID in columns then r.groupId else 0,
                    Restrict(r.rest, columns))
  }

  function ReadEntity(r: Entity, columns: seq<string>): Entity {
    Entity(if FIELD_ID in columns then r.id else 0, Restrict(r.rest, columns))
  }

  function InvalidField(fields: seq<string>, columns: seq<string>): Option<string> {
    if fields == [] then None
    else if fields[0] !in columns then Some(fields[0])
    else InvalidField(fields[1..], columns)
  }

  // ----- loaded nodes -----

  datatype AccountLoaded = AccountLoaded(groups: bool, proxy: bool, accountGroups: bool)

  datatype AccountView = AccountView(
    fields: AccountRow, loaded: AccountLoaded,
    groups: seq<Entity>, proxy: Option<Entity>, accountGroups: seq<AccountGroupView>)

  datatype AccountGroupView = AccountGroupView(
    fields: AccountGroupRow, loadedAccount: bool, account: Option<AccountView>)

  function AccountFields(plan: AccountPlan, r: AccountRow, db: Database): AccountRow {
    ReadAccount(r, AccountColumns(plan.own.fields, plan.edges.proxy.Some?, db))
  }

  function AccountFlags(edges: AccountEdges): AccountLoaded {
    AccountLoaded(edges.groups.Some?, edges.proxy.Some?, edges.accountGroups.Some?)
  }

  function AccountGroupFields(plan: AccountGroupPlan, r: AccountGroupRow, db: Database): AccountGroupRow {
    ReadAccountGroup(r, AccountGroupColumns(plan.own.fields, plan.account.Some?, db))
  }

  // ----- the batched reading -----

  function AccountIds(rows: seq<AccountRow>): seq<int> { Map((r: AccountRow) => r.id, rows) }

  function EntityIds(rows: seq<Entity>): seq<int> { Map((r: Entity) => r.id, rows) }

  function Owners(rows: seq<AccountGroupRow>): seq<int> { Map((r: AccountGroupRow) => r.accountId, rows) }

  function ProxyKeys(rows: seq<AccountRow>): seq<Option<int>> { Map((r: AccountRow) => r.proxyId, rows) }

  function OwnerKeys(rows: seq<AccountGroupRow>): seq<Option<int>> { Map((r: AccountGroupRow) => Some(r.accountId), rows) }

  /** The distinct non-null keys, in order of first appearance. */
  function RequestedIds(keys: seq<Option<int>>): seq<int> {
    if keys == [] then []
    else
      var rest := RequestedIds(keys[..|keys| - 1]);
      var k := keys[|keys| - 1];
      if k.Some? && k.value !in rest then rest + [k.value] else rest
  }

  lemma {:induction false} RequestedIdsExact(keys: seq<Option<int>>)
    ensures NoDuplicates(RequestedIds(keys))
    ensures forall k :: k in RequestedIds(keys) <==> Some(k) in keys
  {
    if keys != [] {
      RequestedIdsExact(keys[..|keys| - 1]);
      assert keys == keys[..|keys| - 1] + [keys[|keys| - 1]];
    }
  }

  function IdIn(ids: seq<int>): Entity -> bool { (r: Entity) => r.id in ids }

  function AccountIdIn(ids: seq<int>): AccountRow -> bool { (r: AccountRow) => r.id in ids }

  function OwnerIn(ids: seq<int>): AccountGroupRow -> bool { (r: AccountGroupRow) => r.accountId in ids }

  function Narrowed<R>(s: Settings<R>, p: R -> bool): Settings<R> { s.(preds := s.preds + [p]) }

  function WithIdIn(s: Settings<Entity>, ids: seq<int>): Settings<Entity> { Narrowed(s, IdIn(ids)) }

  function AccountsIn(plan: AccountPlan, ids: seq<int>): AccountPlan { plan.(own := Narrowed(plan.own, AccountIdIn(ids))) }

  /** The sub-query of the account-groups edge: owners filtered, the foreign key always read. */
  function OwnedBy(plan: AccountGroupPlan, ids: seq<int>): AccountGroupPlan {
    plan.(own := Narrowed(plan.own.(fields := EdgeFields(plan.own.fields)), OwnerIn(ids)))
  }

  function EdgeFields(fields: seq<string>): seq<string> {
    if fields == [] then [] else AppendOnce(fields, FIELD_ACCOUNT_ID)
  }

  /** The proxies a query returns, as they are read. */
  function ReadProxies(s: Settings<Entity>, db: Database): seq<Entity> {
    Map(e => ReadEntity(e, SelectedWithId(s.fields, db.proxyColumns)), Rows(s, db.proxies))
  }

  /** The joined rows a group query returns, as they are read. */
  function ReadJoined(s: Settings<Entity>, owners: seq<int>, db: Database): seq<JoinRow> {
    Map((j: JoinRow) => JoinRow(j.owner, ReadEntity(j.group, SelectedWithId(s.fields, db.groupColumns))),
        JoinedRows(s, owners, db))
  }

  function ProxyBatch(s: Settings<Entity>, keys: seq<Option<int>>, db: Database): seq<Entity> {
    var ids := RequestedIds(keys);
    if ids == [] then [] else ReadProxies(WithIdIn(s, ids), db)
  }

  /** The neighbour assigned last to a node with key `key`. */
  function OneOf(neighbours: seq<Entity>, key: Option<int>): Option<Entity> {
    if key.None? then None else Last(Pick(neighbours, EntityIds(neighbours), key.value))
  }

  /** Each neighbour once, where its id first appears. */
  function FirstGroups(rows: seq<JoinRow>): seq<Entity> {
    if rows == [] then []
    else
      var rest := FirstGroups(rows[..|rows| - 1]);
      var g := rows[|rows| - 1].group;
      if g.id in EntityIds(rest) then rest else rest + [g]
  }

  predicate Linked(rows: seq<JoinRow>, owner: int, group: int) {
    exists i :: 0 <= i < |rows| && rows[i].owner == owner && rows[i].group.id == group
  }

  /** What the many-to-many loader stores at one owner. */
  function Through(rows: seq<JoinRow>, owner: int): seq<Entity> {
    Filter(FirstGroups(rows), (g: Entity) => Linked(rows, owner, g.id))
  }

  function BatchAccount(plan: AccountPlan, row: AccountRow, batch: seq<AccountRow>, db: Database): AccountView
    decreases plan.edges
  {
    AccountView(
      AccountFields(plan, row, db),
      AccountFlags(plan.edges),
      match plan.edges.groups { case None => [] case Some(s) => Through(ReadJoined(s, AccountIds(batch), db), row.id) },
      match plan.edges.proxy { case None => None case Some(s) => OneOf(ProxyBatch(s, ProxyKeys(batch), db), row.proxyId) },
      match plan.edges.accountGroups {
        case None => []
        case Some(p) =>
          var sub := OwnedBy(p, AccountIds(batch));
          var kids := Rows(sub.own, db.accountGroups);
          Map(k => BatchAccountGroup(sub, k, kids, db), Pick(kids, Owners(kids), row.id))
      })
  }

  function BatchAccountGroup(plan: AccountGroupPlan, row: AccountGroupRow, batch: seq<AccountGroupRow>, db: Database): AccountGroupView
    decreases plan.account
  {
    AccountGroupView(
      AccountGroupFields(plan, row, db),
      plan.account.Some?,
      match plan.account {
        case None => None
        case Some(p) =>
          var sub := AccountsIn(p, RequestedIds(OwnerKeys(batch)));
          var parents := Rows(sub.own, db.accounts);
          match Last(Pick(parents, AccountIds(parents), row.accountId)) {
            case None => None
            case Some(a) => Some(BatchAccount(sub, a, parents, db))
          }
      })
  }
}
