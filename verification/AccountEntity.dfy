/**
 The Account entity: what a create builder writes, and what scanning the stored row
 reads back.
 */
module AccountEntity {
  import opened Wrappers

  datatype Field =
    | Id | CreatedAt | UpdatedAt | DeletedAt | Name | AccountLevel | Notes | Platform | Type
    | Credentials | Extra | OwnerUserId | ShareMode | ShareStatus | SharePolicyId | ProxyId
    | ProxyFallbackOriginId | Concurrency | LoadFactor | Priority | RateMultiplier | Status
    | ErrorMessage | LastUsedAt | ExpiresAt | AutoPauseOnExpired | Schedulable | RateLimitedAt
    | RateLimitResetAt | OverloadUntil | TempUnschedulableUntil | TempUnschedulableReason
    | SessionWindowStart | SessionWindowEnd | SessionWindowStatus

  type Doc = map<string, string>

  datatype Value =
    | Time(t: int) | Text(s: string) | Number(i: int) | Float(r: real) | Flag(b: bool) | Json(d: Doc)

  /** A struct field: a pointer or a map may be nil. */
  datatype Slot = Nil | Is(v: Value)

  datatype FieldType = TypeTime | TypeString | TypeInt | TypeInt64 | TypeFloat64 | TypeBool | TypeJSON

  datatype Column = Known(f: Field) | Other(name: string)

  type Slots = map<Field, Slot>

  function ZeroSlot(f: Field): Slot {
    match f
    case Id | Concurrency | Priority => Is(Number(0))
    case RateMultiplier => Is(Float(0.0))
    case AutoPauseOnExpired | Schedulable => Is(Flag(false))
    case CreatedAt | UpdatedAt => Is(Time(0))
    case Name | AccountLevel | Platform | Type | ShareMode | ShareStatus | Status => Is(Text(""))
    case _ => Nil
  }

  /** A field of an entity; fields never written hold their zero value. */
  function Get(e: Slots, f: Field): Slot {
    if f in e then e[f] else ZeroSlot(f)
  }

  // ----- the create side -----

  /** A mutation: the fields set on the builder and its two unique edges. */
  datatype Changes = Changes(fields: map<Field, Value>, proxy: Option<int>, owner: Option<int>)

  datatype FieldSpec = FieldSpec(f: Field, kind: FieldType, v: Value)

  /** The row to insert: typed fields, and the foreign keys its edges put into it. */
  datatype CreateSpec = CreateSpec(fields: seq<FieldSpec>, proxy: Option<int>, owner: Option<int>)

  /** The type a field is sent as; the id and the two edge columns are not sent as fields. */
  function SentAs(f: Field): Option<FieldType> {
    match f
    case Id | ProxyId | OwnerUserId => None
    case CreatedAt | UpdatedAt | DeletedAt | LastUsedAt | ExpiresAt | RateLimitedAt | RateLimitResetAt
      | OverloadUntil | TempUnschedulableUntil | SessionWindowStart | SessionWindowEnd => Some(TypeTime)
    case Name | AccountLevel | Notes | Platform | Type | ShareMode | ShareStatus | Status | ErrorMessage
      | TempUnschedulableReason | SessionWindowStatus => Some(TypeString)
    case Credentials | Extra => Some(TypeJSON)
    case SharePolicyId | ProxyFallbackOriginId => Some(TypeInt64)
    case Concurrency | LoadFactor | Priority => Some(TypeInt)
    case RateMultiplier => Some(TypeFloat64)
    case AutoPauseOnExpired | Schedulable => Some(TypeBool)
  }

  predicate HasType(v: Value, k: FieldType) {
    match k
    case TypeTime => v.Time?
    case TypeString => v.Text?
    case TypeInt | TypeInt64 => v.Number?
    case TypeFloat64 => v.Float?
    case TypeBool => v.Flag?
    case TypeJSON => v.Json?
  }

  /** The setters of a mutation are typed by field. */
  ghost predicate WellTyped(c: Changes) {
    forall f :: f in c.fields ==> SentAs(f).Some? && HasType(c.fields[f], SentAs(f).value)
  }

  /** Every sent field, once, in the order of the assignments of `createSpec`. */
  ghost predicate IsFieldOrder(order: seq<Field>) {
    && (forall i, j :: 0 <= i < j < |order| ==> order[i] != order[j])
    && forall f :: f in order <==> SentAs(f).Some?
  }

  /** The i-th assignment of `createSpec`. */
  function FieldAt(i: nat): Field
    requires i < 32
  {
    match i
    case 0 => CreatedAt case 1 => UpdatedAt case 2 => DeletedAt case 3 => Name case 4 => AccountLevel
    case 5 => Notes case 6 => Platform case 7 => Type case 8 => Credentials case 9 => Extra
    case 10 => ShareMode case 11 => ShareStatus case 12 => SharePolicyId case 13 => ProxyFallbackOriginId case 14 => Concurrency
    case 15 => LoadFactor case 16 => Priority case 17 => RateMultiplier case 18 => Status case 19 => ErrorMessage
    case 20 => LastUsedAt case 21 => ExpiresAt case 22 => AutoPauseOnExpired case 23 => Schedulable case 24 => RateLimitedAt
    case 25 => RateLimitResetAt case 26 => OverloadUntil case 27 => TempUnschedulableUntil case 28 => TempUnschedulableReason case 29 => SessionWindowStart
    case 30 => SessionWindowEnd
    case _ => SessionWindowStatus
  }

  function Rank(f: Field): nat {
    match f
    case CreatedAt => 0 case UpdatedAt => 1 case DeletedAt => 2 case Name => 3 case AccountLevel => 4
    case Notes => 5 case Platform => 6 case Type => 7 case Credentials => 8 case Extra => 9
    case ShareMode => 10 case ShareStatus => 11 case SharePolicyId => 12 case ProxyFallbackOriginId => 13 case Concurrency => 14
    case LoadFactor => 15 case Priority => 16 case RateMultiplier => 17 case Status => 18 case ErrorMessage => 19
    case LastUsedAt => 20 case ExpiresAt => 21 case AutoPauseOnExpired => 22 case Schedulable => 23 case RateLimitedAt => 24
    case RateLimitResetAt => 25 case OverloadUntil => 26 case TempUnschedulableUntil => 27 case TempUnschedulableReason => 28 case SessionWindowStart => 29
    case SessionWindowEnd => 30 case SessionWindowStatus => 31
    case Id | ProxyId | OwnerUserId => 32
  }

  function CreateOrder(): seq<Field> { seq(32, i requires 0 <= i < 32 => FieldAt(i)) }

  lemma CreateOrderIsComplete()
    ensures IsFieldOrder(CreateOrder())
  {
    forall i | 0 <= i < 32 ensures Rank(FieldAt(i)) == i && SentAs(FieldAt(i)).Some? {
    }
    forall f | SentAs(f).Some? ensures f in CreateOrder() {
      assert CreateOrder()[Rank(f)] == f;
    }
  }

  function SpecFields(c: Changes, order: seq<Field>): seq<FieldSpec> {
    if order == [] then []
    else
      var rest, f := SpecFields(c, order[..|order| - 1]), order[|order| - 1];
      if f in c.fields && SentAs(f).Some? then rest + [FieldSpec(f, SentAs(f).value, c.fields[f])] else rest
  }

  function SpecOf(c: Changes): CreateSpec { CreateSpec(SpecFields(c, CreateOrder()), c.proxy, c.owner) }

  /** What the entity returned by `createSpec` holds before its id is known. */
  function NodeSlot(c: Changes, f: Field): Slot {
    match f
    case ProxyId => if c.proxy.Some? then Is(Number(c.proxy.value)) else Nil
    case OwnerUserId => if c.owner.Some? then Is(Number(c.owner.value)) else Nil
    case _ => if f in c.fields then Is(c.fields[f]) else ZeroSlot(f)
  }

  /** The entity `createSpec` returns. */
  function NodeOf(c: Changes): Slots {
    (map f | f in c.fields :: Is(c.fields[f]))
    + (if c.proxy.Some? then map[ProxyId := Is(Number(c.proxy.value))] else map[])
    + (if c.owner.Some? then map[OwnerUserId := Is(Number(c.owner.value))] else map[])
  }

  lemma NodeOfSlots(c: Changes)
    requires WellTyped(c)
    ensures forall f :: Get(NodeOf(c), f) == NodeSlot(c, f)
  {
    assert ProxyId !in c.fields && OwnerUserId !in c.fields;
  }

  method MakeFields(c: Changes) returns (node: Slots, fields: seq<FieldSpec>)
    requires WellTyped(c)
    ensures fields == SpecFields(c, CreateOrder())
    ensures node == map f | f in c.fields :: Is(c.fields[f])
  {
    node, fields := FillFields(c, CreateOrder());
    AllSent(c);
  }

  lemma AllSent(c: Changes)
    requires WellTyped(c)
    ensures forall f :: f in c.fields ==> f in CreateOrder() && SentAs(f).Some?
  {
    CreateOrderIsComplete();
  }

  method FillFields(c: Changes, order: seq<Field>) returns (node: Slots, fields: seq<FieldSpec>)
    ensures fields == SpecFields(c, order)
    ensures forall f :: f in node <==> f in c.fields && f in order && SentAs(f).Some?
    ensures forall f :: f in node ==> node[f] == Is(c.fields[f])
  {
    node, fields := map[], [];
    for i := 0 to |order|
      invariant fields == SpecFields(c, order[..i])
      invariant forall f :: f in node <==> f in c.fields && f in order[..i] && SentAs(f).Some?
      invariant forall f :: f in node ==> node[f] == Is(c.fields[f])
    {
      assert order[..i + 1][..i] == order[..i];
      var f, kind := order[i], SentAs(order[i]);
      if f in c.fields && kind.Some? {
        fields := fields + [FieldSpec(f, kind.value, c.fields[f])];
        node := node[f := Is(c.fields[f])];
      }
    }
    assert order[..|order|] == order;
  }

  /** Builds the returned entity and the row spec side by side. */
  method MakeSpec(c: Changes) returns (node: Slots, spec: CreateSpec)
    requires WellTyped(c)
    ensures spec == SpecOf(c) && node == NodeOf(c)
  {
    var fields;
    node, fields := MakeFields(c);
    spec := CreateSpec(fields, None, None);
    if c.proxy.Some? {
      node := node[ProxyId := Is(Number(c.proxy.value))];
      spec := spec.(proxy := c.proxy);
    }
    if c.owner.Some? {
      node := node[OwnerUserId := Is(Number(c.owner.value))];
      spec := spec.(owner := c.owner);
    }
  }

  // ----- the stored row -----

  datatype Stored =
    | DbNull | DbTime(t: int) | DbText(s: string) | DbInt(i: int) | DbFloat(r: real) | DbBool(b: bool) | DbBytes(data: string)

  /** JSON encoding of a document. */
  datatype Codec = Codec(marshal: Doc -> string, unmarshal: string -> Option<Doc>)
  {
    ghost predicate Sound() {
      forall d :: marshal(d) != "" && unmarshal(marshal(d)) == Some(d)
    }
  }

  function Encode(v: Value, k: FieldType, codec: Codec): Stored
    requires HasType(v, k)
  {
    match k
    case TypeTime => DbTime(v.t)
    case TypeString => DbText(v.s)
    case TypeInt | TypeInt64 => DbInt(v.i)
    case TypeFloat64 => DbFloat(v.r)
    case TypeBool => DbBool(v.b)
    case TypeJSON => DbBytes(codec.marshal(v.d))
  }

  ghost predicate TypedSpec(spec: seq<FieldSpec>) {
    forall i :: 0 <= i < |spec| ==> HasType(spec[i].v, spec[i].kind)
  }

  /** The stored value a spec gives to a column; a column it does not mention is NULL. */
  function Sent(spec: seq<FieldSpec>, f: Field, codec: Codec): Stored
    requires TypedSpec(spec)
  {
    if spec == [] then DbNull
    else
      var last := spec[|spec| - 1];
      if last.f == f then Encode(last.v, last.kind, codec) else Sent(spec[..|spec| - 1], f, codec)
  }

  /** A column of the inserted row. */
  function Cell(spec: CreateSpec, f: Field, id: int, codec: Codec): Stored
    requires TypedSpec(spec.fields)
  {
    match f
    case Id => DbInt(id)
    case ProxyId => if spec.proxy.Some? then DbInt(spec.proxy.value) else DbNull
    case OwnerUserId => if spec.owner.Some? then DbInt(spec.owner.value) else DbNull
    case _ => Sent(spec.fields, f, codec)
  }

  lemma {:induction false} SpecFieldsSent(c: Changes, order: seq<Field>, codec: Codec)
    requires WellTyped(c)
    ensures TypedSpec(SpecFields(c, order))
    ensures forall f :: Sent(SpecFields(c, order), f, codec) ==
              if f in order && f in c.fields then Encode(c.fields[f], SentAs(f).value, codec) else DbNull
  {
    if order != [] {
      var n := |order| - 1;
      SpecFieldsSent(c, order[..n], codec);
      assert order == order[..n] + [order[n]];
      var rest := SpecFields(c, order[..n]);
      var f := order[n];
      if f in c.fields {
        var added := FieldSpec(f, SentAs(f).value, c.fields[f]);
        assert (rest + [added])[..|rest|] == rest;
      }
    }
  }

  // ----- the read side -----

  datatype Holder =
    | NullBool(valid: bool, b: bool) | NullFloat64(valid: bool, r: real) | NullInt64(valid: bool, i: int)
    | NullString(valid: bool, s: string) | NullTime(valid: bool, t: int) | Bytes(data: string) | UnknownType(any: Stored)

  /** The holder `scanValues` allocates for a column. */
  function Allocated(c: Column): Holder {
    match c
    case Other(_) => UnknownType(DbNull)
    case Known(f) =>
      match f
      case Credentials | Extra => Bytes("")
      case AutoPauseOnExpired | Schedulable => NullBool(false, false)
      case RateMultiplier => NullFloat64(false, 0.0)
      case Id | OwnerUserId | SharePolicyId | ProxyId | ProxyFallbackOriginId | Concurrency | LoadFactor | Priority =>
        NullInt64(false, 0)
      case Name | AccountLevel | Notes | Platform | Type | ShareMode | ShareStatus | Status | ErrorMessage
        | TempUnschedulableReason | SessionWindowStatus => NullString(false, "")
      case CreatedAt | UpdatedAt | DeletedAt | LastUsedAt | ExpiresAt | RateLimitedAt | RateLimitResetAt | OverloadUntil
        | TempUnschedulableUntil | SessionWindowStart | SessionWindowEnd => NullTime(false, 0)
  }

  method ScanValues(columns: seq<Column>) returns (values: seq<Holder>)
    ensures |values| == |columns| && forall i :: 0 <= i < |columns| ==> values[i] == Allocated(columns[i])
  {
    var holders := new Holder[|columns|](_ => UnknownType(DbNull));
    for i := 0 to |columns|
      invariant forall j :: 0 <= j < i ==> holders[j] == Allocated(columns[j])
    {
      holders[i] := Allocated(columns[i]);
    }
    values := holders[..];
  }

  /** What the driver writes into a holder; a value of another type is a scan error. */
  function Scan(h: Holder, s: Stored): Option<Holder> {
    match h
    case NullBool(_, _) => if s.DbNull? then Some(NullBool(false, false)) else if s.DbBool? then Some(NullBool(true, s.b)) else None
    case NullFloat64(_, _) => if s.DbNull? then Some(NullFloat64(false, 0.0)) else if s.DbFloat? then Some(NullFloat64(true, s.r)) else None
    case NullInt64(_, _) => if s.DbNull? then Some(NullInt64(false, 0)) else if s.DbInt? then Some(NullInt64(true, s.i)) else None
    case NullString(_, _) => if s.DbNull? then Some(NullString(false, "")) else if s.DbText? then Some(NullString(true, s.s)) else None
    case NullTime(_, _) => if s.DbNull? then Some(NullTime(false, 0)) else if s.DbTime? then Some(NullTime(true, s.t)) else None
    case Bytes(_) => if s.DbNull? then Some(Bytes("")) else if s.DbBytes? then Some(Bytes(s.data)) else None
    case UnknownType(_) => Some(UnknownType(s))
  }

  datatype Node = Node(slots: Slots, selected: map<string, Holder>)

  datatype AssignError = TooFewValues | UnexpectedType(f: Field) | BadJson(f: Field)

  /** One case of the switch in `assignValues`. */
  function AssignField(n: Node, f: Field, h: Holder, codec: Codec): Result<Node, AssignError> {
    match f
    case Id =>
      if !h.NullInt64? then Err(UnexpectedType(f)) else Ok(n.(slots := n.slots[f := Is(Number(h.i))]))
    case CreatedAt | UpdatedAt | DeletedAt | LastUsedAt | ExpiresAt | RateLimitedAt | RateLimitResetAt
      | OverloadUntil | TempUnschedulableUntil | SessionWindowStart | SessionWindowEnd =>
      if !h.NullTime? then Err(UnexpectedType(f))
      else if h.valid then Ok(n.(slots := n.slots[f := Is(Time(h.t))])) else Ok(n)
    case Name | AccountLevel | Notes | Platform | Type | ShareMode | ShareStatus | Status | ErrorMessage
      | TempUnschedulableReason | SessionWindowStatus =>
      if !h.NullString? then Err(UnexpectedType(f))
      else if h.valid then Ok(n.(slots := n.slots[f := Is(Text(h.s))])) else Ok(n)
    case Credentials | Extra =>
      if !h.Bytes? then Err(UnexpectedType(f))
      else if |h.data| > 0 then
        match codec.unmarshal(h.data) { case None => Err(BadJson(f)) case Some(d) => Ok(n.(slots := n.slots[f := Is(Json(d))])) }
      else Ok(n)
    case OwnerUserId | SharePolicyId | ProxyId | ProxyFallbackOriginId | Concurrency | LoadFactor | Priority =>
      if !h.NullInt64? then Err(UnexpectedType(f))
      else if h.valid then Ok(n.(slots := n.slots[f := Is(Number(h.i))])) else Ok(n)
    case RateMultiplier =>
      if !h.NullFloat64? then Err(UnexpectedType(f))
      else if h.valid then Ok(n.(slots := n.slots[f := Is(Float(h.r))])) else Ok(n)
    case AutoPauseOnExpired | Schedulable =>
      if !h.NullBool? then Err(UnexpectedType(f))
      else if h.valid then Ok(n.(slots := n.slots[f := Is(Flag(h.b))])) else Ok(n)
  }

  function AssignColumn(n: Node, c: Column, h: Holder, codec: Codec): Result<Node, AssignError> {
    match c
    case Known(f) => AssignField(n, f, h, codec)
    case Other(name) => Ok(n.(selected := n.selected[name := h]))
  }

  function AssignAll(n: Node, columns: seq<Column>, values: seq<Holder>, codec: Codec): Result<Node, AssignError>
    requires |columns| <= |values|
    decreases |columns|
  {
    if columns == [] then Ok(n)
    else
      match AssignColumn(n, columns[0], values[0], codec)
      case Err(e) => Err(e)
      case Ok(m) => AssignAll(m, columns[1..], values[1..], codec)
  }

  class Account {
    var node: Node

    constructor ()
      ensures node == Node(map[], map[])
    {
      node := Node(map[], map[]);
    }

    /** Assigns the scanned values column by column and stops at the first error. */
    method AssignValues(columns: seq<Column>, values: seq<Holder>, codec: Codec) returns (error: Option<AssignError>)
      modifies this
      ensures |values| < |columns| ==> error == Some(TooFewValues) && node == old(node)
      ensures |columns| <= |values| ==>
                match AssignAll(old(node), columns, values, codec)
                case Ok(m) => error == None && node == m
                case Err(e) => error == Some(e)
    {
      if |values| < |columns| {
        return Some(TooFewValues);
      }
      for i := 0 to |columns|
        invariant AssignAll(old(node), columns, values, codec) == AssignAll(node, columns[i..], values[i..], codec)
      {
        match AssignColumn(node, columns[i], values[i], codec) {
          case Err(e) =>
            return Some(e);
          case Ok(m) =>
            node := m;
        }
      }
      return None;
    }
  }

  // ----- reading back what was written -----

  /** A holder of the type allocated for a column, whatever was scanned into it. */
  ghost predicate OfAllocatedType(h: Holder, c: Column) {
    exists s :: Scan(Allocated(c), s) == Some(h)
  }

  /** On holders from `scanValues`, only a malformed JSON document can fail: no column list gives a type error. */
  lemma {:induction false} NoTypeError(n: Node, columns: seq<Column>, values: seq<Holder>, codec: Codec)
    requires |columns| == |values|
    requires forall i :: 0 <= i < |columns| ==> OfAllocatedType(values[i], columns[i])
    ensures var r := AssignAll(n, columns, values, codec);
            r.Err? ==> r.error.BadJson? && exists i :: 0 <= i < |columns| && columns[i] == Known(r.error.f)
    decreases |columns|
  {
    if columns != [] {
      assert OfAllocatedType(values[0], columns[0]);
      var r := AssignColumn(n, columns[0], values[0], codec);
      if r.Ok? {
        forall i | 0 <= i < |columns[1..]| ensures OfAllocatedType(values[1..][i], columns[1..][i]) {
          assert OfAllocatedType(values[i + 1], columns[i + 1]);
        }
        NoTypeError(r.value, columns[1..], values[1..], codec);
        var rest := AssignAll(r.value, columns[1..], values[1..], codec);
        if rest.Err? {
          var i :| 0 <= i < |columns[1..]| && columns[1..][i] == Known(rest.error.f);
          assert columns[i + 1] == Known(rest.error.f);
        }
      } else {
        assert columns[0] == Known(r.error.f);
      }
    }
  }

  /** A column that is no field of the entity goes to its selected values, under its name, and to no field. */
  lemma {:induction false} OtherColumnsSelected(n: Node, columns: seq<Column>, values: seq<Holder>, codec: Codec)
    requires |columns| == |values| && AssignAll(n, columns, values, codec).Ok?
    ensures var m := AssignAll(n, columns, values, codec).value;
            && (forall name :: name in m.selected <==> name in n.selected || Other(name) in columns)
            && (forall i :: 0 <= i < |columns| && columns[i].Other? && (forall j :: i < j < |columns| ==> columns[j] != columns[i]) ==>
                  columns[i].name in m.selected && m.selected[columns[i].name] == values[i])
            && (forall name :: name in n.selected && Other(name) !in columns ==> m.selected[name] == n.selected[name])
    decreases |columns|
  {
    if columns != [] {
      var cs, vs := columns[1..], values[1..];
      var m := AssignColumn(n, columns[0], values[0], codec).value;
      OtherColumnsSelected(m, cs, vs, codec);
      assert columns == [columns[0]] + cs;
      assert forall i :: 1 <= i < |columns| ==> columns[i] == cs[i - 1] && values[i] == vs[i - 1];
      FieldSelectsNothing(n, columns[0], values[0], codec);
      forall i | 0 <= i < |columns| && columns[i].Other? && (forall j :: i < j < |columns| ==> columns[j] != columns[i])
        ensures var last := AssignAll(n, columns, values, codec).value;
                columns[i].name in last.selected && last.selected[columns[i].name] == values[i]
      {
        if i > 0 {
          assert forall j :: i - 1 < j < |cs| ==> cs[j] == columns[j + 1];
          assert cs[i - 1] == columns[i];
        } else {
          assert Other(columns[0].name) !in cs;
        }
      }
    }
  }

  lemma FieldSelectsNothing(n: Node, c: Column, h: Holder, codec: Codec)
    requires AssignColumn(n, c, h, codec).Ok?
    ensures var m := AssignColumn(n, c, h, codec).value;
            if c.Other? then m.selected == n.selected[c.name := h] && m.slots == n.slots else m.selected == n.selected
  {
  }

  /** The entity the builder hands back: the created node with the id the database gave. */
  function Returned(c: Changes, id: int, f: Field): Slot {
    if f == Id then Is(Number(id)) else NodeSlot(c, f)
  }

  /** The stored cell of a field of type `FieldType` reads back as the value it was sent for. */
  lemma FieldReadsBack(f: Field, v: Value, n: Node, codec: Codec)
    requires SentAs(f).Some? && HasType(v, SentAs(f).value) && codec.Sound()
    ensures var h := Scan(Allocated(Known(f)), Encode(v, SentAs(f).value, codec));
            h.Some? && AssignField(n, f, h.value, codec) == Ok(n.(slots := n.slots[f := Is(v)]))
  {
    match SentAs(f).value
    case TypeTime =>
    case TypeString =>
    case TypeInt =>
    case TypeInt64 =>
    case TypeFloat64 =>
    case TypeBool =>
    case TypeJSON =>
      assert codec.marshal(v.d) != "" && codec.unmarshal(codec.marshal(v.d)) == Some(v.d);
  }

  /** NULL leaves a field as it was. */
  lemma NullReadsBack(f: Field, n: Node, codec: Codec)
    requires f != Id
    ensures var h := Scan(Allocated(Known(f)), DbNull);
            h.Some? && AssignField(n, f, h.value, codec) == Ok(n)
  {
  }

  /** The value a field of the stored row was sent for, if any. */
  function SentValue(c: Changes, id: int, f: Field): Option<Value> {
    match f
    case Id => Some(Number(id))
    case ProxyId => if c.proxy.Some? then Some(Number(c.proxy.value)) else None
    case OwnerUserId => if c.owner.Some? then Some(Number(c.owner.value)) else None
    case _ => if f in c.fields then Some(c.fields[f]) else None
  }

  lemma ReturnedIsSent(c: Changes, id: int, f: Field)
    requires WellTyped(c)
    ensures Returned(c, id, f) == match SentValue(c, id, f) { case Some(v) => Is(v) case None => ZeroSlot(f) }
  {
    assert Id !in c.fields;
  }

  lemma SpecTyped(c: Changes)
    requires WellTyped(c)
    ensures TypedSpec(SpecOf(c).fields)
  {
    SpecFieldsSent(c, CreateOrder(), Codec((d: Doc) => "", (t: string) => None));
  }

  /** The cell of a field that `createSpec` sends holds the sent value. */
  lemma SentCell(c: Changes, id: int, f: Field, codec: Codec)
    requires WellTyped(c) && TypedSpec(SpecOf(c).fields) && SentAs(f).Some?
    ensures Cell(SpecOf(c), f, id, codec) == if f in c.fields then Encode(c.fields[f], SentAs(f).value, codec) else DbNull
  {
    SpecFieldsSent(c, CreateOrder(), codec);
    CreateOrderIsComplete();
    assert Cell(SpecOf(c), f, id, codec) == Sent(SpecOf(c).fields, f, codec);
  }

  lemma SentFieldReadsBack(c: Changes, id: int, f: Field, n: Node, codec: Codec)
    requires WellTyped(c) && codec.Sound() && TypedSpec(SpecOf(c).fields) && SentAs(f).Some?
    ensures CellYields(c, id, f, n, codec)
  {
    SentCell(c, id, f, codec);
    if f in c.fields {
      FieldReadsBack(f, c.fields[f], n, codec);
    } else {
      NullReadsBack(f, n, codec);
    }
  }

  /** The id and the foreign keys, which the spec holds beside its fields. */
  lemma KeyReadsBack(c: Changes, id: int, f: Field, n: Node, codec: Codec)
    requires TypedSpec(SpecOf(c).fields) && SentAs(f).None?
    ensures CellYields(c, id, f, n, codec)
  {
  }

  /** The cell of `f`, scanned and assigned, gives the field its sent value and touches no other. */
  ghost predicate CellYields(c: Changes, id: int, f: Field, n: Node, codec: Codec)
    requires TypedSpec(SpecOf(c).fields)
  {
    var h := Scan(Allocated(Known(f)), Cell(SpecOf(c), f, id, codec));
    && h.Some?
    && AssignField(n, f, h.value, codec)
       == match SentValue(c, id, f) { case Some(v) => Ok(n.(slots := n.slots[f := Is(v)])) case None => Ok(n) }
  }

  /** One column of the inserted row, scanned and assigned, gives the field its sent value and touches no other. */
  lemma CellReadsBack(c: Changes, id: int, f: Field, n: Node, codec: Codec)
    requires WellTyped(c) && codec.Sound()
    ensures TypedSpec(SpecOf(c).fields)
    ensures CellYields(c, id, f, n, codec)
  {
    SpecTyped(c);
    if SentAs(f).Some? {
      SentFieldReadsBack(c, id, f, n, codec);
    } else {
      KeyReadsBack(c, id, f, n, codec);
    }
  }

  /** What the driver scans for a list of columns of the inserted row; unknown columns hold anything. */
  ghost predicate ScannedRow(columns: seq<Column>, values: seq<Holder>, c: Changes, id: int, codec: Codec)
    requires TypedSpec(SpecOf(c).fields)
  {
    && |columns| == |values|
    && forall i :: 0 <= i < |columns| && columns[i].Known? ==>
         Scan(Allocated(columns[i]), Cell(SpecOf(c), columns[i].f, id, codec)) == Some(values[i])
  }

  lemma {:induction false} RowReadsBack(n: Node, columns: seq<Column>, values: seq<Holder>, c: Changes, id: int, codec: Codec)
    requires WellTyped(c) && codec.Sound()
    requires TypedSpec(SpecOf(c).fields) && ScannedRow(columns, values, c, id, codec)
    requires forall f :: Get(n.slots, f) in {ZeroSlot(f), Returned(c, id, f)}
    ensures var r := AssignAll(n, columns, values, codec);
            r.Ok? && forall f :: Get(r.value.slots, f) == if Known(f) in columns then Returned(c, id, f) else Get(n.slots, f)
    decreases |columns|
  {
    if columns != [] {
      if columns[0].Known? {
        var f := columns[0].f;
        CellReadsBack(c, id, f, n, codec);
        ReturnedIsSent(c, id, f);
      }
      var m := AssignColumn(n, columns[0], values[0], codec);
      assert m.Ok?;
      assert forall g :: Get(m.value.slots, g) == if columns[0] == Known(g) then Returned(c, id, g) else Get(n.slots, g);
      RowReadsBack(m.value, columns[1..], values[1..], c, id, codec);
      assert columns == [columns[0]] + columns[1..];
    }
  }

  /**
   The created entity is the entity read back: scanning the inserted row with any column
   list, in any order and with repetitions, gives every listed field the value of the
   entity that the builder returned, and leaves the others zero.
   */
  lemma CreatedEqualsReadBack(columns: seq<Column>, values: seq<Holder>, c: Changes, id: int, codec: Codec)
    requires WellTyped(c) && codec.Sound()
    ensures TypedSpec(SpecOf(c).fields)
    ensures ScannedRow(columns, values, c, id, codec) ==>
              var r := AssignAll(Node(map[], map[]), columns, values, codec);
              r.Ok? && forall f :: Get(r.value.slots, f) == if Known(f) in columns then Returned(c, id, f) else ZeroSlot(f)
  {
    SpecFieldsSent(c, CreateOrder(), codec);
    if ScannedRow(columns, values, c, id, codec) {
      RowReadsBack(Node(map[], map[]), columns, values, c, id, codec);
    }
  }
}
