/**
 What the rows of one query are, said of the table, the predicates, the order, the
 limit and the offset alone.
 */
module QueryAnswers {
  import opened Wrappers
  import opened Sequences
  import opened Relational

  predicate Satisfies<R>(r: R, preds: seq<R -> bool>) {
    forall i :: 0 <= i < |preds| ==> preds[i](r)
  }

  /**
   The positions of exactly the rows of the table that pass the test, in the order of
   the keys, the first key first; rows that tie keep the table's order.
   */
  ghost predicate Lists<R>(pos: seq<nat>, table: seq<R>, test: R -> bool, keys: seq<R -> int>) {
    && (forall i :: 0 <= i < |pos| ==> pos[i] < |table|)
    && (forall i, j :: 0 <= i < j < |pos| ==> pos[i] != pos[j])
    && (forall k :: 0 <= k < |table| ==> (k in pos <==> test(table[k])))
    && forall i, j :: 0 <= i < j < |pos| ==>
         Before(table[pos[i]], table[pos[j]], keys) || (Tied(table[pos[i]], table[pos[j]], keys) && pos[i] < pos[j])
  }

  /** The rows at the positions, in their order. */
  ghost predicate RowsAt<R>(rows: seq<R>, pos: seq<nat>, table: seq<R>) {
    |rows| == |pos| && forall i :: 0 <= i < |rows| ==> pos[i] < |table| && rows[i] == table[pos[i]]
  }

  /** Skips the offset, then takes up to the limit; a limit of zero is none. */
  ghost predicate PageAt(part: seq<nat>, pos: seq<nat>, limit: Option<nat>, offset: Option<nat>) {
    var skip := match offset case None => 0 case Some(n) => n;
    && (skip >= |pos| ==> part == [])
    && (skip < |pos| ==>
          && |part| <= |pos| - skip
          && (forall i :: 0 <= i < |part| ==> part[i] == pos[skip + i])
          && (limit.None? || limit.value == 0 ==> |part| == |pos| - skip)
          && (limit.Some? && limit.value > 0 ==> |part| <= limit.value && (|part| == limit.value || |part| == |pos| - skip)))
  }

  /** The answer to a query over a table. */
  ghost predicate Answers<R>(rows: seq<R>, s: Settings<R>, table: seq<R>) {
    exists pos, part ::
      && Lists(pos, table, (r: R) => Satisfies(r, s.preds), s.order)
      && PageAt(part, pos, s.limit, s.offset) && RowsAt(rows, part, table)
  }

  lemma PagePages(pos: seq<nat>, limit: Option<nat>, offset: Option<nat>)
    ensures PageAt(Page(pos, limit, offset), pos, limit, offset)
  {
  }

  lemma PageRows<R>(all: seq<R>, pos: seq<nat>, table: seq<R>, limit: Option<nat>, offset: Option<nat>)
    requires RowsAt(all, pos, table)
    ensures RowsAt(Page(all, limit, offset), Page(pos, limit, offset), table)
  {
  }

  /** Filtering and arranging a table lists it. */
  lemma ArrangedLists<R>(table: seq<R>, test: R -> bool, keys: seq<R -> int>) returns (pos: seq<nat>)
    ensures Lists(pos, table, test, keys) && RowsAt(Arrange(Filter(table, test), keys), pos, table)
  {
    var kept := Filter(table, test);
    var first := FilterPositions(table, test);
    var second := ArrangePositions(kept, keys);
    pos := TakenThrough(Arrange(kept, keys), kept, table, second, first);
    KeptInOrder(Arrange(kept, keys), second, first, pos, keys);
    ThroughAll(second, first, pos);
  }

  lemma KeptInOrder<R>(rows: seq<R>, second: seq<nat>, first: seq<nat>, pos: seq<nat>, keys: seq<R -> int>)
    requires ByKeys(rows, second, keys) && |pos| == |second| && forall i :: 0 <= i < |second| ==> second[i] < |first| && pos[i] == first[second[i]]
    requires forall i, j :: 0 <= i < j < |first| ==> first[i] < first[j]
    ensures ByKeys(rows, pos, keys)
  {
  }

  /** The rows a query returns are its answer. */
  lemma RowsAnswer<R>(s: Settings<R>, table: seq<R>)
    ensures Answers(Rows(s, table), s, table)
  {
    var test := (r: R) => Satisfies(r, s.preds);
    FilterSame(table, test, r => Holds(s.preds, r));
    var pos := ArrangedLists(table, test, s.order);
    var all := Arrange(Filter(table, test), s.order);
    PagePages(pos, s.limit, s.offset);
    PageRows(all, pos, table, s.limit, s.offset);
    assert Rows(s, table) == Page(all, s.limit, s.offset);
    assert Lists(pos, table, (r: R) => Satisfies(r, s.preds), s.order);
    assert PageAt(Page(pos, s.limit, s.offset), pos, s.limit, s.offset);
  }

  /** An owner's rows: those that satisfy the sub-query and name the owner, in the sub-query's order. */
  ghost predicate AreOwnRows(own: seq<AccountGroupRow>, s: Settings<AccountGroupRow>, owner: int, table: seq<AccountGroupRow>) {
    exists pos ::
      && Lists(pos, table, (r: AccountGroupRow) => Satisfies(r, s.preds) && r.accountId == owner, s.order)
      && RowsAt(own, pos, table)
  }

  lemma OwnRowsListed(s: Settings<AccountGroupRow>, owner: int, table: seq<AccountGroupRow>, test: AccountGroupRow -> bool)
    requires forall r :: test(r) == (Holds(s.preds, r) && r.accountId == owner)
    ensures AreOwnRows(Arrange(Filter(table, test), s.order), s, owner, table)
  {
    var same := (r: AccountGroupRow) => Satisfies(r, s.preds) && r.accountId == owner;
    FilterSame(table, test, same);
    var pos := ArrangedLists(table, same, s.order);
    assert Lists(pos, table, (r: AccountGroupRow) => Satisfies(r, s.preds) && r.accountId == owner, s.order);
  }

  /** Joined rows come in the order of the group query; ties are groups with equal keys. */
  lemma JoinedInOrder(s: Settings<Entity>, owners: seq<int>, db: Database)
    ensures var rows := JoinedRows(s, owners, db);
            forall i, j :: 0 <= i < j < |rows| ==>
              Before(rows[i].group, rows[j].group, s.order) || Tied(rows[i].group, rows[j].group, s.order)
  {
    var joined := Joined(db.accountGroups, db.groups, owners, s.preds);
    var keys := Map((k: Entity -> int) => (j: JoinRow) => k(j.group), s.order);
    var all := Arrange(joined, keys);
    var pos := ArrangePositions(joined, keys);
    forall i, j | 0 <= i < j < |all|
      ensures Before(all[i].group, all[j].group, s.order) || Tied(all[i].group, all[j].group, s.order)
    {
      GroupKeys(all[i], all[j], s.order, keys);
    }
  }

  lemma GroupKeys(a: JoinRow, b: JoinRow, order: seq<Entity -> int>, keys: seq<JoinRow -> int>)
    requires |keys| == |order| && forall m, j: JoinRow :: 0 <= m < |keys| ==> keys[m](j) == order[m](j.group)
    ensures Before(a, b, keys) ==> Before(a.group, b.group, order)
    ensures Tied(a, b, keys) ==> Tied(a.group, b.group, order)
  {
    assert forall m :: 0 <= m < |keys| ==> keys[m](a) == order[m](a.group) && keys[m](b) == order[m](b.group);
    if m :| 0 <= m < |keys| && keys[m](a) < keys[m](b) && forall j :: 0 <= j < m ==> keys[j](a) == keys[j](b) {
      assert order[m](a.group) < order[m](b.group);
    }
  }
}
