/**
 The mutable query builders of Account and AccountGroup, and their clones.
 */
module QueryBuilders {
  import opened Wrappers
  import opened Sequences
  import opened Relational

  /** A fluent builder call.  A lock clause is a modifier. */
  datatype Call<!R> =
    | Where(p: R -> bool) | Order(key: R -> int) | Limit(limit: nat) | Offset(offset: nat)
    | Select(fields: seq<string>) | Lock(clause: string)

  function Applied<R>(s: Settings<R>, c: Call<R>): Settings<R> {
    match c
    case Where(p) => Narrowed(s, p)
    case Order(k) => s.(order := s.order + [k])
    case Limit(n) => s.(limit := Some(n))
    case Offset(n) => s.(offset := Some(n))
    case Select(fs) => s.(fields := s.fields + fs)
    case Lock(m) => s.(modifiers := s.modifiers + [m])
  }

  function AppliedAll<R>(s: Settings<R>, calls: seq<Call<R>>): Settings<R> {
    if calls == [] then s else Applied(AppliedAll(s, calls[..|calls| - 1]), calls[|calls| - 1])
  }

  /** A builder call on an account query; a `With` call configures a new sub-builder by its own calls. */
  datatype AccountCall =
    | Self(call: Call<AccountRow>)
    | WithGroups(groupOpts: seq<Call<Entity>>)
    | WithProxy(proxyOpts: seq<Call<Entity>>)
    | WithAccountGroups(opts: seq<AccountGroupCall>)

  datatype AccountGroupCall =
    | Own(call: Call<AccountGroupRow>)
    | WithAccount(opts: seq<AccountCall>)

  function Unset<R>(): Settings<R> { Settings([], [], [], None, None, []) }

  function NewPlan(): AccountPlan { AccountPlan(Unset(), AccountEdges(None, None, None)) }

  function NewGroupPlan(): AccountGroupPlan { AccountGroupPlan(Unset(), None) }

  function Called(p: AccountPlan, c: AccountCall): AccountPlan
    decreases c, 0
  {
    match c
    case Self(call) => p.(own := Applied(p.own, call))
    case WithGroups(opts) => p.(edges := p.edges.(groups := Some(AppliedAll(Unset(), opts))))
    case WithProxy(opts) => p.(edges := p.edges.(proxy := Some(AppliedAll(Unset(), opts))))
    case WithAccountGroups(opts) => p.(edges := p.edges.(accountGroups := Some(GroupCalledAll(NewGroupPlan(), opts))))
  }

  function CalledAll(p: AccountPlan, calls: seq<AccountCall>): AccountPlan
    decreases calls, 0
  {
    if calls == [] then p else Called(CalledAll(p, calls[..|calls| - 1]), calls[|calls| - 1])
  }

  function GroupCalled(p: AccountGroupPlan, c: AccountGroupCall): AccountGroupPlan
    decreases c, 0
  {
    match c
    case Own(call) => p.(own := Applied(p.own, call))
    case WithAccount(opts) => p.(account := Some(CalledAll(NewPlan(), opts)))
  }

  function GroupCalledAll(p: AccountGroupPlan, calls: seq<AccountGroupCall>): AccountGroupPlan
    decreases calls, 0
  {
    if calls == [] then p else GroupCalled(GroupCalledAll(p, calls[..|calls| - 1]), calls[|calls| - 1])
  }

  // ----- what sequences of calls add up to -----

  function Predicates<R>(c: Call<R>): seq<R -> bool> { if c.Where? then [c.p] else [] }

  function Keys<R>(c: Call<R>): seq<R -> int> { if c.Order? then [c.key] else [] }

  function Columns<R>(c: Call<R>): seq<string> { if c.Select? then c.fields else [] }

  function Locks<R>(c: Call<R>): seq<string> { if c.Lock? then [c.clause] else [] }

  function Limits<R>(c: Call<R>): seq<nat> { if c.Limit? then [c.limit] else [] }

  function Offsets<R>(c: Call<R>): seq<nat> { if c.Offset? then [c.offset] else [] }

  /** The last of the new settings, or the old one. */
  function Latest<T>(news: seq<T>, old_: Option<T>): Option<T> {
    if news == [] then old_ else Some(news[|news| - 1])
  }

  /** Predicates, keys, columns and locks add up in the order of the calls; of limits and of offsets the last one counts. */
  lemma CallsAddUp<R>(s: Settings<R>, calls: seq<Call<R>>)
    ensures var t := AppliedAll(s, calls);
            && t.preds == s.preds + FlatMap(Predicates<R>, calls)
            && t.order == s.order + FlatMap(Keys<R>, calls)
            && t.fields == s.fields + FlatMap(Columns<R>, calls)
            && t.modifiers == s.modifiers + FlatMap(Locks<R>, calls)
            && t.limit == Latest(FlatMap(Limits<R>, calls), s.limit)
            && t.offset == Latest(FlatMap(Offsets<R>, calls), s.offset)
  {
    WheresAddUp(s, calls);
    OrdersAddUp(s, calls);
    SelectsAddUp(s, calls);
    LocksAddUp(s, calls);
    LastLimit(s, calls);
    LastOffset(s, calls);
  }

  lemma WheresAddUp<R>(s: Settings<R>, calls: seq<Call<R>>)
    ensures AppliedAll(s, calls).preds == s.preds + FlatMap(Predicates<R>, calls)
  {
    AddsUp(s, calls, (t: Settings<R>) => t.preds, Predicates<R>);
  }

  lemma OrdersAddUp<R>(s: Settings<R>, calls: seq<Call<R>>)
    ensures AppliedAll(s, calls).order == s.order + FlatMap(Keys<R>, calls)
  {
    AddsUp(s, calls, (t: Settings<R>) => t.order, Keys<R>);
  }

  lemma SelectsAddUp<R>(s: Settings<R>, calls: seq<Call<R>>)
    ensures AppliedAll(s, calls).fields == s.fields + FlatMap(Columns<R>, calls)
  {
    AddsUp(s, calls, (t: Settings<R>) => t.fields, Columns<R>);
  }

  lemma LocksAddUp<R>(s: Settings<R>, calls: seq<Call<R>>)
    ensures AppliedAll(s, calls).modifiers == s.modifiers + FlatMap(Locks<R>, calls)
  {
    AddsUp(s, calls, (t: Settings<R>) => t.modifiers, Locks<R>);
  }

  lemma LastLimit<R>(s: Settings<R>, calls: seq<Call<R>>)
    ensures AppliedAll(s, calls).limit == Latest(FlatMap(Limits<R>, calls), s.limit)
  {
    LastCounts(s, calls, (t: Settings<R>) => t.limit, Limits<R>);
  }

  lemma LastOffset<R>(s: Settings<R>, calls: seq<Call<R>>)
    ensures AppliedAll(s, calls).offset == Latest(FlatMap(Offsets<R>, calls), s.offset)
  {
    LastCounts(s, calls, (t: Settings<R>) => t.offset, Offsets<R>);
  }

  /** A list to which every call adds what it brings. */
  lemma {:induction false} AddsUp<R, T>(s: Settings<R>, calls: seq<Call<R>>, part: Settings<R> -> seq<T>, brings: Call<R> -> seq<T>)
    requires forall t: Settings<R>, c: Call<R> :: part(Applied(t, c)) == part(t) + brings(c)
    ensures part(AppliedAll(s, calls)) == part(s) + FlatMap(brings, calls)
  {
    if calls != [] {
      var n := |calls| - 1;
      AddsUp(s, calls[..n], part, brings);
      assert part(AppliedAll(s, calls)) == part(AppliedAll(s, calls[..n])) + brings(calls[n]);
    }
  }

  lemma LatestOfBoth<T>(first: seq<T>, second: seq<T>, old_: Option<T>)
    ensures Latest(first + second, old_) == Latest(second, Latest(first, old_))
  {
  }

  /** A setting that every call may replace. */
  lemma {:induction false} LastCounts<R, T>(s: Settings<R>, calls: seq<Call<R>>, part: Settings<R> -> Option<T>, brings: Call<R> -> seq<T>)
    requires forall t: Settings<R>, c: Call<R> :: part(Applied(t, c)) == Latest(brings(c), part(t))
    ensures part(AppliedAll(s, calls)) == Latest(FlatMap(brings, calls), part(s))
  {
    if calls != [] {
      var n := |calls| - 1;
      LastCounts(s, calls[..n], part, brings);
      LatestOfBoth(FlatMap(brings, calls[..n]), brings(calls[n]), part(s));
    }
  }

  function OwnCalls(c: AccountCall): seq<Call<AccountRow>> { if c.Self? then [c.call] else [] }

  function GroupRequests(c: AccountCall): seq<seq<Call<Entity>>> { if c.WithGroups? then [c.groupOpts] else [] }

  function ProxyRequests(c: AccountCall): seq<seq<Call<Entity>>> { if c.WithProxy? then [c.proxyOpts] else [] }

  function AccountGroupRequests(c: AccountCall): seq<seq<AccountGroupCall>> { if c.WithAccountGroups? then [c.opts] else [] }

  /** The builder's own calls configure it alone; of the requests for an edge the last one counts, on a new sub-builder. */
  lemma CallsDescribeTree(p: AccountPlan, calls: seq<AccountCall>)
    ensures var q := CalledAll(p, calls);
            var groups, proxies := FlatMap(GroupRequests, calls), FlatMap(ProxyRequests, calls);
            var rows := FlatMap(AccountGroupRequests, calls);
            && q.own == AppliedAll(p.own, FlatMap(OwnCalls, calls))
            && q.edges.groups == (if groups == [] then p.edges.groups else Some(AppliedAll(Unset(), groups[|groups| - 1])))
            && q.edges.proxy == (if proxies == [] then p.edges.proxy else Some(AppliedAll(Unset(), proxies[|proxies| - 1])))
            && q.edges.accountGroups == (if rows == [] then p.edges.accountGroups else Some(GroupCalledAll(NewGroupPlan(), rows[|rows| - 1])))
  {
    OwnCallsAddUp(p, calls);
    LastGroups(p, calls);
    LastProxy(p, calls);
    LastAccountGroups(p, calls);
  }

  lemma LastGroups(p: AccountPlan, calls: seq<AccountCall>)
    ensures var all := FlatMap(GroupRequests, calls);
            CalledAll(p, calls).edges.groups == if all == [] then p.edges.groups else Some(AppliedAll(Unset(), all[|all| - 1]))
  {
    LastRequests(p, calls, (q: AccountPlan) => q.edges.groups, GroupRequests, (opts: seq<Call<Entity>>) => AppliedAll(Unset(), opts));
  }

  lemma LastProxy(p: AccountPlan, calls: seq<AccountCall>)
    ensures var all := FlatMap(ProxyRequests, calls);
            CalledAll(p, calls).edges.proxy == if all == [] then p.edges.proxy else Some(AppliedAll(Unset(), all[|all| - 1]))
  {
    LastRequests(p, calls, (q: AccountPlan) => q.edges.proxy, ProxyRequests, (opts: seq<Call<Entity>>) => AppliedAll(Unset(), opts));
  }

  lemma LastAccountGroups(p: AccountPlan, calls: seq<AccountCall>)
    ensures var all := FlatMap(AccountGroupRequests, calls);
            CalledAll(p, calls).edges.accountGroups
            == if all == [] then p.edges.accountGroups else Some(GroupCalledAll(NewGroupPlan(), all[|all| - 1]))
  {
    LastRequests(p, calls, (q: AccountPlan) => q.edges.accountGroups, AccountGroupRequests,
                 (opts: seq<AccountGroupCall>) => GroupCalledAll(NewGroupPlan(), opts));
  }

  lemma AppliedOneMore<R>(s: Settings<R>, calls: seq<Call<R>>, c: Call<R>)
    ensures AppliedAll(s, calls + [c]) == Applied(AppliedAll(s, calls), c)
  {
    assert (calls + [c])[..|calls|] == calls;
  }

  lemma {:induction false} OwnCallsAddUp(p: AccountPlan, calls: seq<AccountCall>)
    ensures CalledAll(p, calls).own == AppliedAll(p.own, FlatMap(OwnCalls, calls))
  {
    if calls != [] {
      var n := |calls| - 1;
      OwnCallsAddUp(p, calls[..n]);
      var own := FlatMap(OwnCalls, calls[..n]);
      if calls[n].Self? {
        AppliedOneMore(p.own, own, calls[n].call);
      } else {
        assert own + [] == own;
      }
    }
  }

  lemma {:induction false} LastRequests<T, U>(p: AccountPlan, calls: seq<AccountCall>, part: AccountPlan -> Option<U>, brings: AccountCall -> seq<T>, plan: T -> U)
    requires forall q: AccountPlan, c: AccountCall :: part(Called(q, c)) == if brings(c) == [] then part(q) else Some(plan(brings(c)[|brings(c)| - 1]))
    ensures var news := FlatMap(brings, calls);
            part(CalledAll(p, calls)) == if news == [] then part(p) else Some(plan(news[|news| - 1]))
  {
    if calls != [] {
      var n := |calls| - 1;
      LastRequests(p, calls[..n], part, brings, plan);
      assert CalledAll(p, calls) == Called(CalledAll(p, calls[..n]), calls[n]);
    }
  }

  function OwnGroupCalls(c: AccountGroupCall): seq<Call<AccountGroupRow>> { if c.Own? then [c.call] else [] }

  function ParentRequests(c: AccountGroupCall): seq<seq<AccountCall>> { if c.WithAccount? then [c.opts] else [] }

  /** The same for account-group builders. */
  lemma {:induction false} GroupCallsDescribeTree(p: AccountGroupPlan, calls: seq<AccountGroupCall>)
    ensures var q, parents := GroupCalledAll(p, calls), FlatMap(ParentRequests, calls);
            && q.own == AppliedAll(p.own, FlatMap(OwnGroupCalls, calls))
            && q.account == (if parents == [] then p.account else Some(CalledAll(NewPlan(), parents[|parents| - 1])))
  {
    if calls != [] {
      var n := |calls| - 1;
      GroupCallsDescribeTree(p, calls[..n]);
      var own := FlatMap(OwnGroupCalls, calls[..n]);
      match calls[n]
      case Own(call) => AppliedOneMore(p.own, own, call);
      case WithAccount(_) => assert own + [] == own;
    }
  }

  /** A builder without settings. */
  lemma UnsetAsksAll<R>()
    ensures var s := Unset<R>(); s.preds == [] && s.order == [] && s.fields == [] && s.modifiers == [] && s.limit == None && s.offset == None
  {
  }

  /** What `Clone` copies of a builder: everything but the modifiers. */
  function Unlocked<R>(s: Settings<R>): Settings<R> { s.(modifiers := []) }

  function ClonedEdges(e: AccountEdges): AccountEdges {
    AccountEdges(
      match e.groups { case None => None case Some(s) => Some(Unlocked(s)) },
      match e.proxy { case None => None case Some(s) => Some(Unlocked(s)) },
      match e.accountGroups { case None => None case Some(p) => Some(ClonedGroupPlan(p)) })
  }

  function ClonedPlan(p: AccountPlan): AccountPlan { AccountPlan(Unlocked(p.own), ClonedEdges(p.edges)) }

  function ClonedGroupPlan(p: AccountGroupPlan): AccountGroupPlan {
    AccountGroupPlan(Unlocked(p.own), match p.account { case None => None case Some(a) => Some(ClonedPlan(a)) })
  }

  predicate LockFreeEdges(e: AccountEdges) {
    && (e.groups.Some? ==> e.groups.value.modifiers == [])
    && (e.proxy.Some? ==> e.proxy.value.modifiers == [])
    && (e.accountGroups.Some? ==> LockFreeGroupPlan(e.accountGroups.value))
  }

  /** No builder of the tree carries a lock clause. */
  predicate LockFree(p: AccountPlan) { p.own.modifiers == [] && LockFreeEdges(p.edges) }

  predicate LockFreeGroupPlan(p: AccountGroupPlan) {
    p.own.modifiers == [] && (p.account.Some? ==> LockFree(p.account.value))
  }

  /** A clone has the plan of its original exactly when no builder of the tree has a lock clause. */
  lemma {:induction false} CloneKeepsPlan(p: AccountPlan)
    ensures ClonedPlan(p) == p <==> LockFree(p)
    decreases p, 1
  {
    if p.edges.accountGroups.Some? {
      CloneKeepsGroupPlan(p.edges.accountGroups.value);
    }
  }

  /** A clone of a builder has every setting of it but the locks. */
  lemma CloneKeepsSettings(p: AccountPlan)
    ensures var c, q := ClonedPlan(p).own, p.own;
            c.preds == q.preds && c.order == q.order && c.fields == q.fields && c.limit == q.limit && c.offset == q.offset && c.modifiers == []
    ensures var e, f := ClonedPlan(p).edges, p.edges;
            && (e.groups.Some? <==> f.groups.Some?) && (e.proxy.Some? <==> f.proxy.Some?) && (e.accountGroups.Some? <==> f.accountGroups.Some?)
  {
  }

  /** A builder locked for update, whose clone is not. */
  lemma LockDropped()
    ensures var locked := Called(NewPlan(), Self(Lock("for update")));
            locked.own.modifiers == ["for update"] && ClonedPlan(locked).own.modifiers == []
  {
  }

  lemma {:induction false} CloneKeepsGroupPlan(p: AccountGroupPlan)
    ensures ClonedGroupPlan(p) == p <==> LockFreeGroupPlan(p)
    decreases p, 1
  {
    if p.account.Some? {
      CloneKeepsPlan(p.account.value);
    }
  }

  class EntityQuery {
    var own: Settings<Entity>
    // The owners a many-to-many loader has joined the query with.
    var owners: Option<seq<int>>

    constructor (own: Settings<Entity>)
      ensures this.own == own && owners == None
    {
      this.own, owners := own, None;
    }

    /** A builder that has not been run is its settings. */
    ghost predicate Is(s: Settings<Entity>)
      reads this
    {
      own == s && owners == None
    }

    method Where(p: Entity -> bool)
      modifies this
      ensures own == Narrowed(old(own), p) && owners == old(owners)
    {
      own := Narrowed(own, p);
    }

    /** The join predicate of the many-to-many loader. */
    method JoinOwners(ids: seq<int>)
      modifies this
      ensures owners == Some(ids) && own == old(own)
    {
      owners := Some(ids);
    }

    method ConfigureAll(calls: seq<Call<Entity>>)
      modifies this
      ensures own == AppliedAll(old(own), calls) && owners == old(owners)
    {
      for i := 0 to |calls|
        invariant own == AppliedAll(old(own), calls[..i]) && owners == old(owners)
      {
        assert calls[..i + 1][..i] == calls[..i];
        own := Applied(own, calls[i]);
      }
      assert calls[..|calls|] == calls;
    }

    method Clone() returns (c: EntityQuery)
      ensures fresh(c) && c.own == Unlocked(own) && c.owners == owners
    {
      c := new EntityQuery(own.(modifiers := []));
      c.owners := owners;
    }
  }

  ghost predicate QueryIs(q: EntityQuery?, s: Option<Settings<Entity>>)
    reads q
  {
    match s case None => q == null case Some(t) => q != null && q.Is(t)
  }

  class AccountQuery {
    var own: Settings<AccountRow>
    var withGroups: EntityQuery?
    var withProxy: EntityQuery?
    var withAccountGroups: AccountGroupQuery?
    ghost var Repr: set<object>

    /** The builder and its sub-builders form the tree `plan`, and share no object. */
    ghost predicate Represents(plan: AccountPlan)
      reads this, Repr
      decreases plan.edges
    {
      && this in Repr && own == plan.own
      && (match plan.edges.groups
          case None => withGroups == null
          case Some(s) => withGroups != null && withGroups in Repr && withGroups.Is(s))
      && (match plan.edges.proxy
          case None => withProxy == null
          case Some(s) => withProxy != null && withProxy in Repr && withProxy.Is(s) && withProxy != withGroups)
      && (match plan.edges.accountGroups
          case None => withAccountGroups == null
          case Some(p) =>
            && withAccountGroups != null && withAccountGroups in Repr && withAccountGroups.Repr <= Repr
            && this !in withAccountGroups.Repr && withGroups !in withAccountGroups.Repr && withProxy !in withAccountGroups.Repr
            && withAccountGroups.Represents(p))
    }

    constructor ()
      ensures fresh(Repr) && Represents(NewPlan())
    {
      own := Unset();
      withGroups, withProxy, withAccountGroups := null, null, null;
      Repr := {this};
    }

    constructor From(own: Settings<AccountRow>, groups: EntityQuery?, proxy: EntityQuery?, accountGroups: AccountGroupQuery?, ghost edges: AccountEdges)
      requires QueryIs(groups, edges.groups) && QueryIs(proxy, edges.proxy) && (proxy != null ==> proxy != groups)
      requires accountGroups == null <==> edges.accountGroups.None?
      requires accountGroups != null ==>
                 accountGroups.Represents(edges.accountGroups.value) && groups !in accountGroups.Repr && proxy !in accountGroups.Repr
      ensures Represents(AccountPlan(own, edges))
      ensures fresh(Repr - {groups, proxy} - if accountGroups == null then {} else accountGroups.Repr)
    {
      this.own := own;
      withGroups, withProxy, withAccountGroups := groups, proxy, accountGroups;
      ghost var parts: set<object> := {};
      if groups != null { parts := parts + {groups}; }
      if proxy != null { parts := parts + {proxy}; }
      if accountGroups != null { parts := parts + accountGroups.Repr; }
      Repr := {this} + parts;
    }

    /** Any of the builder calls that configure this query alone. */
    method Configure(call: Call<AccountRow>, ghost plan: AccountPlan)
      requires Represents(plan)
      modifies this
      ensures Represents(plan.(own := Applied(plan.own, call))) && Repr == old(Repr)
    {
      match call
      case Where(p) => own := own.(preds := own.preds + [p]);
      case Order(k) => own := own.(order := own.order + [k]);
      case Limit(n) => own := own.(limit := Some(n));
      case Offset(n) => own := own.(offset := Some(n));
      case Select(fs) => own := own.(fields := own.fields + fs);
      case Lock(m) => own := own.(modifiers := own.modifiers + [m]);
    }

    /** Requests the groups edge with a new sub-builder, replacing an earlier request. */
    method WithGroups(opts: seq<Call<Entity>>, ghost plan: AccountPlan)
      requires Represents(plan)
      modifies this
      ensures Represents(Called(plan, AccountCall.WithGroups(opts))) && old(Repr) <= Repr && fresh(Repr - old(Repr))
    {
      var sub := new EntityQuery(Unset());
      sub.ConfigureAll(opts);
      withGroups := sub;
      Repr := Repr + {sub};
    }

    method WithProxy(opts: seq<Call<Entity>>, ghost plan: AccountPlan)
      requires Represents(plan)
      modifies this
      ensures Represents(Called(plan, AccountCall.WithProxy(opts))) && old(Repr) <= Repr && fresh(Repr - old(Repr))
    {
      var sub := new EntityQuery(Unset());
      sub.ConfigureAll(opts);
      withProxy := sub;
      Repr := Repr + {sub};
    }

    /** Requests the account-groups edge with a new sub-tree, replacing an earlier request. */
    method WithAccountGroups(opts: seq<AccountGroupCall>, ghost plan: AccountPlan)
      requires Represents(plan)
      modifies this
      ensures Represents(Called(plan, AccountCall.WithAccountGroups(opts))) && old(Repr) <= Repr && fresh(Repr - old(Repr))
      decreases opts, 1
    {
      var sub := new AccountGroupQuery();
      sub.CallAll(opts, NewGroupPlan());
      withAccountGroups := sub;
      Repr := Repr + sub.Repr;
    }

    method Call(c: AccountCall, ghost plan: AccountPlan)
      requires Represents(plan)
      modifies this
      ensures Represents(Called(plan, c)) && old(Repr) <= Repr && fresh(Repr - old(Repr))
      decreases c, 0
    {
      match c
      case Self(call) => Configure(call, plan);
      case WithGroups(opts) => WithGroups(opts, plan);
      case WithProxy(opts) => WithProxy(opts, plan);
      case WithAccountGroups(opts) => WithAccountGroups(opts, plan);
    }

    /** Any sequence of builder calls: the tree becomes the one the calls describe, and only new builders join it. */
    method CallAll(calls: seq<AccountCall>, ghost plan: AccountPlan)
      requires Represents(plan)
      modifies this
      ensures Represents(CalledAll(plan, calls)) && old(Repr) <= Repr && fresh(Repr - old(Repr))
      decreases calls, 0
    {
      for i := 0 to |calls|
        invariant Represents(CalledAll(plan, calls[..i])) && old(Repr) <= Repr && fresh(Repr - old(Repr))
      {
        assert calls[..i + 1][..i] == calls[..i];
        Call(calls[i], CalledAll(plan, calls[..i]));
      }
      assert calls[..|calls|] == calls;
    }

    /** A deep copy that shares no builder with the original. */
    method Clone(ghost plan: AccountPlan) returns (c: AccountQuery)
      requires Represents(plan)
      ensures fresh(c.Repr) && c.Represents(ClonedPlan(plan))
      decreases plan, 1
    {
      var groups: EntityQuery?, proxy: EntityQuery?, accountGroups: AccountGroupQuery? := null, null, null;
      if withGroups != null {
        groups := withGroups.Clone();
      }
      if withProxy != null {
        proxy := withProxy.Clone();
      }
      if withAccountGroups != null {
        accountGroups := withAccountGroups.Clone(plan.edges.accountGroups.value);
      }
      c := new AccountQuery.From(own.(modifiers := []), groups, proxy, accountGroups, ClonedEdges(plan.edges));
    }
  }

  class AccountGroupQuery {
    var own: Settings<AccountGroupRow>
    var withAccount: AccountQuery?
    ghost var Repr: set<object>

    ghost predicate Represents(plan: AccountGroupPlan)
      reads this, Repr
      decreases plan.account
    {
      && this in Repr && own == plan.own
      && match plan.account
         case None => withAccount == null
         case Some(p) =>
           && withAccount != null && withAccount in Repr && withAccount.Repr <= Repr
           && this !in withAccount.Repr && withAccount.Represents(p)
    }

    constructor ()
      ensures fresh(Repr) && Represents(NewGroupPlan())
    {
      own := Unset();
      withAccount := null;
      Repr := {this};
    }

    /** Requests the parent edge with a new sub-tree. */
    method WithAccount(opts: seq<AccountCall>, ghost plan: AccountGroupPlan)
      requires Represents(plan)
      modifies this
      ensures Represents(GroupCalled(plan, AccountGroupCall.WithAccount(opts))) && old(Repr) <= Repr && fresh(Repr - old(Repr))
      decreases opts, 1
    {
      var sub := new AccountQuery();
      sub.CallAll(opts, NewPlan());
      withAccount := sub;
      Repr := Repr + sub.Repr;
    }

    method Call(c: AccountGroupCall, ghost plan: AccountGroupPlan)
      requires Represents(plan)
      modifies this
      ensures Represents(GroupCalled(plan, c)) && old(Repr) <= Repr && fresh(Repr - old(Repr))
      decreases c, 0
    {
      match c
      case Own(call) => own := Applied(own, call);
      case WithAccount(opts) => WithAccount(opts, plan);
    }

    method CallAll(calls: seq<AccountGroupCall>, ghost plan: AccountGroupPlan)
      requires Represents(plan)
      modifies this
      ensures Represents(GroupCalledAll(plan, calls)) && old(Repr) <= Repr && fresh(Repr - old(Repr))
      decreases calls, 0
    {
      for i := 0 to |calls|
        invariant Represents(GroupCalledAll(plan, calls[..i])) && old(Repr) <= Repr && fresh(Repr - old(Repr))
      {
        assert calls[..i + 1][..i] == calls[..i];
        Call(calls[i], GroupCalledAll(plan, calls[..i]));
      }
      assert calls[..|calls|] == calls;
    }

    method Clone(ghost plan: AccountGroupPlan) returns (c: AccountGroupQuery)
      requires Represents(plan)
      ensures fresh(c.Repr) && c.Represents(ClonedGroupPlan(plan))
      decreases plan, 1
    {
      c := new AccountGroupQuery();
      c.own := own.(modifiers := []);
      if withAccount != null {
        var sub := withAccount.Clone(plan.account.value);
        c.withAccount := sub;
        c.Repr := c.Repr + sub.Repr;
      }
    }

    /** What the account-groups loader does to its sub-query before running it. */
    method RestrictToOwners(ids: seq<int>, ghost plan: AccountGroupPlan)
      requires Represents(plan)
      modifies this
      ensures Represents(OwnedBy(plan, ids)) && Repr == old(Repr)
    {
      if |own.fields| > 0 {
        own := own.(fields := AppendOnce(own.fields, FIELD_ACCOUNT_ID));
      }
      own := Narrowed(own, OwnerIn(ids));
    }
  }

  /**
   Clones are independent: whatever is called on the clone and on the original
   afterwards, `With` calls with whole sub-trees included, each tree is the one its
   own calls describe, and the two share no builder.
   */
  method CloneThenConfigure(q: AccountQuery, ghost plan: AccountPlan, onClone: seq<AccountCall>, onOriginal: seq<AccountCall>)
    returns (c: AccountQuery)
    requires q.Represents(plan)
    modifies q
    ensures c.Represents(CalledAll(ClonedPlan(plan), onClone))
    ensures q.Represents(CalledAll(plan, onOriginal))
    ensures fresh(c.Repr) && fresh(q.Repr - old(q.Repr)) && c.Repr !! q.Repr
  {
    c := q.Clone(plan);
    c.CallAll(onClone, ClonedPlan(plan));
    q.CallAll(onOriginal, plan);
  }
}
