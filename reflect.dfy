/**
  The part of Go's `reflect` package the sanitizer relies on, reduced to what
  decides its results: which value a `reflect.Value` designates and whether
  it was obtained through an unexported struct field (reflect's read-only
  flag). Every destination the sanitizer writes to is addressable, so
  addressability is not tracked.
 */
module Reflect {
  import opened GoValues

  /** A `reflect.Value`: the value it designates and its read-only flag. */
  datatype Ref = Ref(value: Value, readOnly: bool)

  /** `reflect.ValueOf(obj)`: the dynamic value of an interface, `None` for nil. */
  function ValueOf(obj: Option<Value>): Option<Ref>
  {
    if obj.None? then None else Some(Ref(obj.value, false))
  }

  /** `reflect.New(t).Elem()`: a fresh, settable zero value of type `t`. */
  function NewZero(t: GoType): Ref
  {
    Ref(Zero(t), false)
  }

  /** `reflect.New(t)`: a fresh pointer to a fresh zero value of type `t`. */
  function NewPointer(t: GoType): Ref
  {
    Ref(Ptr(t, Some(Zero(t))), false)
  }

  /** `reflect.MakeSlice(type, len, cap)`: a non-nil slice of zero elements. */
  function MakeSlice(elem: GoType, len: nat, cap: nat): Value
  {
    Slice(elem, false, seq(len, _ => Zero(elem)), cap)
  }

  /** `reflect.MakeMap(type)`: a non-nil empty map. */
  function MakeMap(key: GoType, elem: GoType): Value
  {
    Map(key, elem, false, map[])
  }

  /** `CanInterface()`: false exactly for values obtained through unexported fields. */
  predicate CanInterface(r: Ref)
  {
    !r.readOnly
  }

  /** `Interface()`: panics on a read-only value. */
  function Interface(r: Ref): Outcome<Value>
  {
    if r.readOnly then Panic else Ok(r.value)
  }

  /** `Elem()` of a pointer or interface: `None` is the invalid Value of nil; the flag is inherited. */
  function Elem(r: Ref): Option<Ref>
    requires r.value.Ptr? || r.value.Iface?
  {
    match r.value
    case Ptr(_, target) => if target.None? then None else Some(Ref(target.value, r.readOnly))
    case Iface(held) => if held.None? then None else Some(Ref(held.value, r.readOnly))
  }

  /** `Field(i)`: read-only when the struct is, or when field `i` is unexported. */
  function FieldOf(r: Ref, i: nat): Ref
    requires r.value.Struct? && i < |r.value.fields|
  {
    var f := r.value.fields[i];
    Ref(f.value, r.readOnly || !f.exported)
  }

  /** `Index(i)` of a slice; the flag is inherited. */
  function Index(r: Ref, i: nat): Ref
    requires r.value.Slice? && i < |r.value.items|
  {
    Ref(r.value.items[i], r.readOnly)
  }

  /** `MapKeys()`, as a set: the order of iteration is unspecified. */
  function MapKeys(r: Ref): set<Key>
    requires r.value.Map?
  {
    r.value.entries.Keys
  }

  /** `MapIndex(key)`; the flag is inherited. */
  function MapIndex(r: Ref, k: Key): Ref
    requires r.value.Map? && k in r.value.entries
  {
    Ref(r.value.entries[k], r.readOnly)
  }

  /**
    `dst.Set(x)`: panics when `dst` is read-only (not settable) or `x` is
    read-only (obtained through an unexported field). Assigning to an
    interface-typed destination wraps the value in the interface.
   */
  function Set(dst: Ref, x: Ref): Outcome<Ref>
  {
    if dst.readOnly || x.readOnly then Panic
    else
      var v := if dst.value.Iface? && !x.value.Iface? then Iface(Some(x.value)) else x.value;
      Ok(Ref(v, dst.readOnly))
  }

  /** `dst.SetString(s)`: panics when `dst` is read-only; the destination keeps its type. */
  function SetString(dst: Ref, s: string): Outcome<Ref>
    requires dst.value.Str?
  {
    if dst.readOnly then Panic else Ok(Ref(dst.value.(s := s), dst.readOnly))
  }

  /**
    The type assertion `x.(string)` on the dynamic value `x` of an
    `interface{}`: it panics unless that value's type is `string` itself,
    so a value of a named string type makes it panic.
   */
  function AssertString(x: Value): (r: Outcome<string>)
    ensures r.Ok? <==> TypeOf(x) == TString(StringName)
    ensures r.Ok? ==> x == Str(StringName, r.value)
  {
    if x.Str? && x.typ == StringName then Ok(x.s) else Panic
  }

  /** `dst.Index(i).Set(x)`: the element inherits the slice's flag. */
  function SetIndex(dst: Ref, i: nat, x: Ref): Outcome<Ref>
    requires dst.value.Slice? && i < |dst.value.items|
  {
    if dst.readOnly || x.readOnly then Panic
    else Ok(Ref(dst.value.(items := dst.value.items[i := x.value]), dst.readOnly))
  }

  /**
    `dst.SetMapIndex(key, x)`: panics when the map, the key or the element
    was obtained through an unexported field, and on a nil map.
   */
  function SetMapIndex(dst: Ref, key: Key, keyReadOnly: bool, x: Ref): Outcome<Ref>
    requires dst.value.Map?
  {
    if dst.readOnly || keyReadOnly || x.readOnly || dst.value.isNil then Panic
    else Ok(Ref(dst.value.(entries := dst.value.entries[key := x.value]), dst.readOnly))
  }

  /**
    What a write through `dst.Field(i)` leaves in `dst`: the field's storage
    lies inside the struct's, so the struct now holds `v` at field `i`.
   */
  function StoreField(dst: Ref, i: nat, v: Value): Ref
    requires dst.value.Struct? && i < |dst.value.fields|
  {
    Ref(dst.value.(fields := dst.value.fields[i := dst.value.fields[i].(value := v)]), dst.readOnly)
  }

  /** What a write through `dst.Elem()` leaves in the pointer `dst`. */
  function StoreTarget(dst: Ref, v: Value): Ref
    requires dst.value.Ptr?
  {
    Ref(dst.value.(target := Some(v)), dst.readOnly)
  }

  /**
    `getUnexportedField` (main.go): re-creates the field through its address
    with `reflect.NewAt`, which drops the read-only flag, then reads it. The
    value is read whatever the field's export status.
   */
  function GetUnexportedField(field: Ref): (v: Value)
    ensures v == field.value
    ensures Interface(Ref(field.value, false)) == Ok(v)
  {
    field.value
  }

  /**
    `setUnexportedField` (main.go): `reflect.NewAt(...).Elem()` builds a
    settable alias of the field's storage, with the read-only flag cleared,
    and `Set` writes the value through it. It therefore never panics on the
    flag, where `Set` on the field itself would.
   */
  function SetUnexportedField(dst: Ref, v: Value): (r: Ref)
    ensures Set(Ref(dst.value, false), Ref(v, false)) == Ok(Ref(r.value, false))
    ensures r.readOnly == dst.readOnly
    ensures dst.readOnly ==> Set(dst, Ref(v, false)).Panic?
  {
    var alias := Ref(dst.value, false);
    var written := Set(alias, Ref(v, false));
    Ref(written.value.value, dst.readOnly)
  }

  /**
    The two helpers together copy a field whatever the flags: reading the
    original and writing the result into a destination of the same
    non-interface kind leaves exactly the original's value there.
   */
  lemma CopyThroughHelpers(dst: Ref, field: Ref)
    requires !dst.value.Iface?
    ensures SetUnexportedField(dst, GetUnexportedField(field)) == Ref(field.value, dst.readOnly)
  {
  }

  /** One step of navigation with reflect: `Elem`, `Field(i)`, `Index(i)` or `MapIndex(k)`. */
  datatype Step = Deref | Unwrap | FieldAt(i: nat) | IndexAt(i: nat) | KeyAt(k: Key)

  /** The reflect.Value one step below `r`, if the step applies to its kind. */
  function StepInto(r: Ref, s: Step): Option<Ref>
  {
    match s
    case Deref => if r.value.Ptr? then Elem(r) else None
    case Unwrap => if r.value.Iface? then Elem(r) else None
    case FieldAt(i) => if r.value.Struct? && i < |r.value.fields| then Some(FieldOf(r, i)) else None
    case IndexAt(i) => if r.value.Slice? && i < |r.value.items| then Some(Index(r, i)) else None
    case KeyAt(k) => if r.value.Map? && k in r.value.entries then Some(MapIndex(r, k)) else None
  }

  /**
    Follow a path of steps from `r`; the result's flag says whether the path
    crossed an unexported field.
   */
  function Follow(r: Ref, path: seq<Step>): Option<Ref>
  {
    if path == [] then Some(r)
    else
      match Follow(r, path[..|path| - 1])
      case None => None
      case Some(q) => StepInto(q, path[|path| - 1])
  }
}
