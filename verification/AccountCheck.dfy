/** Defaults and checks of the Account create builder. */
module AccountCheck {
  import opened Wrappers
  import opened AccountEntity

  /** What the schema package initializes: default values and validators, by field. */
  datatype Runtime = Runtime(defaults: map<Field, Value>, valid: (Field, Value) -> bool)

  /** The i-th default, and whether it is a generator that can be uninitialized. */
  function DefaultAt(i: nat): (Field, bool)
    requires i < 13
  {
    match i
    case 0 => (CreatedAt, true) case 1 => (UpdatedAt, true) case 2 => (AccountLevel, false)
    case 3 => (Credentials, true) case 4 => (Extra, true) case 5 => (ShareMode, false)
    case 6 => (ShareStatus, false) case 7 => (Concurrency, false) case 8 => (Priority, false)
    case 9 => (RateMultiplier, false) case 10 => (Status, false) case 11 => (AutoPauseOnExpired, false)
    case _ => (Schedulable, false)
  }

  /** The i-th required field of `check`. */
  function RequiredAt(i: nat): Field
    requires i < 14
  {
    match i
    case 0 => Name case 1 => AccountLevel case 2 => Platform case 3 => Type case 4 => Credentials
    case 5 => Extra case 6 => ShareMode case 7 => ShareStatus case 8 => Concurrency case 9 => Priority
    case 10 => RateMultiplier case 11 => Status case 12 => AutoPauseOnExpired case _ => Schedulable
  }

  predicate HasValidator(f: Field) {
    f in {Name, AccountLevel, Platform, Type, ShareMode, ShareStatus, Status, SessionWindowStatus}
  }

  datatype CheckError = Missing(f: Field) | Invalid(f: Field)

  function DefaultOrder(): seq<(Field, bool)> { seq(13, i requires 0 <= i < 13 => DefaultAt(i)) }

  function RequiredOrder(): seq<Field> { seq(14, i requires 0 <= i < 14 => RequiredAt(i)) }

  // ----- defaults -----

  /** The fields after the given assignments of `defaults`; an uninitialized generator stops them. */
  function Defaulted(fields: map<Field, Value>, order: seq<(Field, bool)>, rt: Runtime): map<Field, Value>
    decreases |order|
  {
    if order == [] then fields
    else
      var (f, generated) := order[0];
      if f in fields then Defaulted(fields, order[1..], rt)
      else if f in rt.defaults then Defaulted(fields[f := rt.defaults[f]], order[1..], rt)
      else if generated then fields
      else Defaulted(fields[f := ZeroValue(f)], order[1..], rt)
  }

  /** The fields with a generated default and those with a plain one. */
  lemma DefaultsAre(f: Field, generated: bool)
    ensures (f, generated) in DefaultOrder() <==>
            if generated then f in {CreatedAt, UpdatedAt, Credentials, Extra}
            else f in {AccountLevel, ShareMode, ShareStatus, Concurrency, Priority, RateMultiplier, Status, AutoPauseOnExpired, Schedulable}
  {
    var j := match f
      case CreatedAt => 0 case UpdatedAt => 1 case AccountLevel => 2 case Credentials => 3 case Extra => 4 case ShareMode => 5
      case ShareStatus => 6 case Concurrency => 7 case Priority => 8 case RateMultiplier => 9 case Status => 10
      case AutoPauseOnExpired => 11 case Schedulable => 12 case _ => 13;
    if j < 13 {
      assert DefaultOrder()[j] == DefaultAt(j);
    }
    forall i | 0 <= i < 13 && DefaultOrder()[i] == (f, generated) ensures i == j {
    }
  }

  /** The Go zero value of a plain default that was never initialized. */
  function ZeroValue(f: Field): Value {
    if ZeroSlot(f).Is? then ZeroSlot(f).v else Json(map[])
  }

  /** No generator that `defaults` needs is missing. */
  ghost predicate Initialized(fields: map<Field, Value>, order: seq<(Field, bool)>, rt: Runtime) {
    forall x :: x in order && x.1 ==> x.0 in fields || x.0 in rt.defaults
  }

  method FillDefaults(fields: map<Field, Value>, rt: Runtime) returns (filled: map<Field, Value>, uninitialized: Option<Field>)
    ensures filled == Defaulted(fields, DefaultOrder(), rt)
    ensures uninitialized.None? ==> forall x :: x in DefaultOrder() ==> x.0 in filled
    ensures forall f :: f in fields ==> f in filled && filled[f] == fields[f]
    ensures forall f :: f in filled && f !in fields && f in rt.defaults ==> filled[f] == rt.defaults[f]
    ensures forall f :: f in filled && f !in fields && f !in rt.defaults ==> Is(filled[f]) == ZeroSlot(f)
    ensures uninitialized.Some? ==> uninitialized.value !in filled && uninitialized.value !in rt.defaults
                                    && (uninitialized.value, true) in DefaultOrder()
  {
    var order := DefaultOrder();
    filled, uninitialized := fields, None;
    for i := 0 to |order|
      invariant Defaulted(fields, order, rt) == Defaulted(filled, order[i..], rt)
      invariant forall j :: 0 <= j < i ==> order[j].0 in filled
      invariant forall f :: f in fields ==> f in filled && filled[f] == fields[f]
      invariant forall f :: f in filled && f !in fields ==>
                  if f in rt.defaults then filled[f] == rt.defaults[f] else Is(filled[f]) == ZeroSlot(f)
    {
      var (f, generated) := order[i];
      if f !in filled {
        if f in rt.defaults {
          filled := filled[f := rt.defaults[f]];
        } else if generated {
          assert order[i] in DefaultOrder();
          return filled, Some(f);
        } else {
          PlainHaveZero(i);
          filled := filled[f := ZeroValue(f)];
        }
      }
    }
  }

  /** The fields with a plain default have a zero value. */
  lemma PlainHaveZero(i: nat)
    requires i < 13 && !DefaultAt(i).1
    ensures ZeroSlot(DefaultAt(i).0).Is? && Is(ZeroValue(DefaultAt(i).0)) == ZeroSlot(DefaultAt(i).0)
  {
  }

  lemma {:induction false} DefaultedKeeps(fields: map<Field, Value>, order: seq<(Field, bool)>, rt: Runtime)
    ensures var filled := Defaulted(fields, order, rt);
            && (forall f :: f in fields ==> f in filled && filled[f] == fields[f])
            && (forall f :: f in filled ==> f in fields || (f, true) in order || (f, false) in order)
            && (forall f :: f in filled && f !in fields ==>
                  if f in rt.defaults then filled[f] == rt.defaults[f]
                  else (f, false) in order && filled[f] == ZeroValue(f))
            && (Initialized(fields, order, rt) ==> forall x :: x in order ==> x.0 in filled)
    decreases |order|
  {
    if order != [] {
      var (f, generated) := order[0];
      assert order == [order[0]] + order[1..];
      if f in fields {
        DefaultedKeeps(fields, order[1..], rt);
      } else if f in rt.defaults {
        DefaultedKeeps(fields[f := rt.defaults[f]], order[1..], rt);
      } else if !generated {
        DefaultedKeeps(fields[f := ZeroValue(f)], order[1..], rt);
      }
    }
  }

  /** The defaults have the types of their fields. */
  ghost predicate TypedRuntime(rt: Runtime) {
    forall f :: f in rt.defaults ==> SentAs(f).Some? && HasType(rt.defaults[f], SentAs(f).value)
  }

  lemma {:induction false} DefaultedTyped(c: Changes, order: seq<(Field, bool)>, rt: Runtime)
    requires WellTyped(c) && TypedRuntime(rt)
    requires forall x :: x in order && !x.1 ==> SentAs(x.0).Some? && HasType(ZeroValue(x.0), SentAs(x.0).value)
    ensures WellTyped(c.(fields := Defaulted(c.fields, order, rt)))
    decreases |order|
  {
    if order != [] {
      var (f, generated) := order[0];
      assert order == [order[0]] + order[1..];
      if f in c.fields {
        DefaultedTyped(c, order[1..], rt);
      } else if f in rt.defaults {
        DefaultedTyped(c.(fields := c.fields[f := rt.defaults[f]]), order[1..], rt);
      } else if !generated {
        DefaultedTyped(c.(fields := c.fields[f := ZeroValue(f)]), order[1..], rt);
      }
    }
  }

  /** `defaults` keeps a mutation well typed. */
  lemma DefaultsTyped(c: Changes, rt: Runtime)
    requires WellTyped(c) && TypedRuntime(rt)
    ensures WellTyped(c.(fields := Defaulted(c.fields, DefaultOrder(), rt)))
  {
    forall j | 0 <= j < 13 && !DefaultAt(j).1
      ensures SentAs(DefaultAt(j).0).Some? && HasType(ZeroValue(DefaultAt(j).0), SentAs(DefaultAt(j).0).value)
    {
    }
    DefaultedTyped(c, DefaultOrder(), rt);
  }

  // ----- check -----

  /** The verdict of `check` on the given required fields and then the optional session status. */
  function Verdict(fields: map<Field, Value>, order: seq<Field>, rt: Runtime): Option<CheckError> {
    if order == [] then
      if SessionWindowStatus in fields && !rt.valid(SessionWindowStatus, fields[SessionWindowStatus])
      then Some(Invalid(SessionWindowStatus)) else None
    else
      var f := order[0];
      if f !in fields then Some(Missing(f))
      else if HasValidator(f) && !rt.valid(f, fields[f]) then Some(Invalid(f))
      else Verdict(fields, order[1..], rt)
  }

  method Check(fields: map<Field, Value>, rt: Runtime) returns (error: Option<CheckError>)
    ensures error == Verdict(fields, RequiredOrder(), rt)
  {
    var order := RequiredOrder();
    for i := 0 to |order|
      invariant Verdict(fields, order, rt) == Verdict(fields, order[i..], rt)
    {
      var f := order[i];
      if f !in fields {
        return Some(Missing(f));
      }
      if HasValidator(f) && !rt.valid(f, fields[f]) {
        return Some(Invalid(f));
      }
    }
    if SessionWindowStatus in fields && !rt.valid(SessionWindowStatus, fields[SessionWindowStatus]) {
      return Some(Invalid(SessionWindowStatus));
    }
    return None;
  }

  predicate Required(f: Field) {
    f in {Name, AccountLevel, Platform, Type, Credentials, Extra, ShareMode, ShareStatus, Concurrency, Priority,
          RateMultiplier, Status, AutoPauseOnExpired, Schedulable}
  }

  /** A field whose values are checked, where it is set, has an accepted one. */
  predicate Accepted(fields: map<Field, Value>, f: Field, rt: Runtime) {
    f in fields && f in {Name, AccountLevel, Platform, Type, ShareMode, ShareStatus, Status, SessionWindowStatus} ==> rt.valid(f, fields[f])
  }

  lemma {:induction false} VerdictMeaning(fields: map<Field, Value>, order: seq<Field>, rt: Runtime)
    ensures Verdict(fields, order, rt) == None <==>
              (forall f :: f in order ==> f in fields && Accepted(fields, f, rt)) && Accepted(fields, SessionWindowStatus, rt)
  {
    if order != [] {
      VerdictMeaning(fields, order[1..], rt);
      assert order == [order[0]] + order[1..];
    }
  }

  /** The field fails the check: it is not set, or set to a refused value. */
  ghost predicate FailsAt(fields: map<Field, Value>, f: Field, e: CheckError, rt: Runtime) {
    || (e == Missing(f) && f !in fields)
    || (e == Invalid(f) && f in fields && HasValidator(f) && !rt.valid(f, fields[f]))
  }

  /** The error names the first required field that fails, or the session status when none does. */
  lemma {:induction false} VerdictError(fields: map<Field, Value>, order: seq<Field>, rt: Runtime)
    requires Verdict(fields, order, rt).Some?
    ensures var e := Verdict(fields, order, rt).value;
            || (exists i :: 0 <= i < |order| && FailsAt(fields, order[i], e, rt)
                            && forall j :: 0 <= j < i ==> order[j] in fields && Accepted(fields, order[j], rt))
            || (e == Invalid(SessionWindowStatus) && SessionWindowStatus in fields && !Accepted(fields, SessionWindowStatus, rt)
                && forall j :: 0 <= j < |order| ==> order[j] in fields && Accepted(fields, order[j], rt))
  {
    if order != [] && order[0] in fields && Accepted(fields, order[0], rt) {
      var rest := order[1..];
      VerdictError(fields, rest, rt);
      var e := Verdict(fields, order, rt).value;
      assert forall j :: 1 <= j < |order| ==> order[j] == rest[j - 1];
      if i :| 0 <= i < |rest| && FailsAt(fields, rest[i], e, rt)
              && forall j :: 0 <= j < i ==> rest[j] in fields && Accepted(fields, rest[j], rt) {
        assert FailsAt(fields, order[i + 1], e, rt);
        assert forall j :: 0 <= j < i + 1 ==> order[j] in fields && Accepted(fields, order[j], rt);
      }
    } else if order != [] {
      assert FailsAt(fields, order[0], Verdict(fields, order, rt).value, rt);
    }
  }

  function RequiredRank(f: Field): nat {
    match f
    case Name => 0 case AccountLevel => 1 case Platform => 2 case Type => 3 case Credentials => 4
    case Extra => 5 case ShareMode => 6 case ShareStatus => 7 case Concurrency => 8 case Priority => 9
    case RateMultiplier => 10 case Status => 11 case AutoPauseOnExpired => 12 case Schedulable => 13 case _ => 14
  }

  lemma RequiredFields()
    ensures forall f :: f in RequiredOrder() <==> Required(f)
  {
    forall j | 0 <= j < 14 ensures Required(RequiredAt(j)) {
    }
    forall f | Required(f) ensures f in RequiredOrder() {
      assert RequiredOrder()[RequiredRank(f)] == f;
    }
  }

  /** A check passes exactly when every required field is set and every set field with a validator is accepted. */
  lemma CheckExact(fields: map<Field, Value>, rt: Runtime)
    ensures Verdict(fields, RequiredOrder(), rt) == None <==>
              (forall f :: Required(f) ==> f in fields) && (forall f :: Accepted(fields, f, rt))
  {
    VerdictMeaning(fields, RequiredOrder(), rt);
    RequiredFields();
    forall f ensures Accepted(fields, f, rt) || Required(f) || f == SessionWindowStatus {
    }
  }

  lemma RequiredHaveDefaults()
    ensures forall f :: Required(f) && f !in {Name, Platform, Type} ==> (f, true) in DefaultOrder() || (f, false) in DefaultOrder()
    ensures forall f :: f in {Name, Platform, Type} ==> (f, true) !in DefaultOrder() && (f, false) !in DefaultOrder()
  {
    forall f | Required(f) && f !in {Name, Platform, Type}
      ensures (f, true) in DefaultOrder() || (f, false) in DefaultOrder()
    {
      var j := match f
        case AccountLevel => 2 case Credentials => 3 case Extra => 4 case ShareMode => 5 case ShareStatus => 6
        case Concurrency => 7 case Priority => 8 case RateMultiplier => 9 case Status => 10
        case AutoPauseOnExpired => 11 case _ => 12;
      assert DefaultOrder()[j].0 == f;
    }
    forall j | 0 <= j < 13 ensures DefaultAt(j).0 !in {Name, Platform, Type} {
    }
  }

  /** After `defaults`, only a missing name, platform or type or a refused value can fail the check. */
  lemma CheckAfterDefaults(fields: map<Field, Value>, rt: Runtime)
    requires Initialized(fields, DefaultOrder(), rt)
    ensures var filled := Defaulted(fields, DefaultOrder(), rt);
            Verdict(filled, RequiredOrder(), rt) == None <==>
              Name in fields && Platform in fields && Type in fields && forall f :: Accepted(filled, f, rt)
  {
    DefaultedKeeps(fields, DefaultOrder(), rt);
    RequiredHaveDefaults();
    CheckExact(Defaulted(fields, DefaultOrder(), rt), rt);
  }
}
