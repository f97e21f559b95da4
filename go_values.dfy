/**
  Go values as the sanitizer sees them through runtime reflection: a finite
  tree of nodes, each tagged with its kind (pointer, interface, struct, slice,
  map, string, or any other kind, which the sanitizer copies as it is).

  Every node carries enough of its static type that `TypeOf` is defined on
  values alone: a nil pointer still knows its element type, a nil slice its
  element type, a nil map its key and element types.
 */
module GoValues {

  datatype Option<+T> = None | Some(value: T)

  /** The outcome of a call that either returns or panics. */
  datatype Outcome<+T> = Ok(value: T) | Panic {
    predicate IsFailure() { Panic? }

    function PropagateFailure<U>(): Outcome<U>
      requires Panic?
    {
      Panic
    }

    function Extract(): T
      requires Ok?
    {
      value
    }
  }

  /** Static Go types, as far as the sanitizer distinguishes them. */
  datatype GoType =
    | TPtr(elem: GoType)
    | TIface
    | TStruct(fields: seq<FieldType>)
    | TSlice(elem: GoType)
    | TMap(key: GoType, elem: GoType)
    | TString(name: string)
    | TScalar(name: string)

  /** The name of Go's predeclared `string` type; other string-kind types are named types such as `type Name string`. */
  const StringName := "string"

  /** A declared struct field; `exported` is Go's upper-case-initial rule. */
  datatype FieldType = FieldType(name: string, exported: bool, typ: GoType)

  /** Map keys: comparable leaves, which the sanitizer never traverses. */
  datatype Key = KeyStr(typ: string, s: string) | KeyScalar(typ: string, bits: int)

  /**
    A Go value.
    - `Ptr(elem, target)`: a pointer to `elem`; `target` is `None` for nil.
    - `Iface(held)`: an interface value; `held` is its dynamic value, `None` for nil.
    - `Struct(fields)`: the fields in declaration order.
    - `Slice(elem, isNil, items, cap)`: the visible elements and the capacity.
    - `Map(key, elem, isNil, entries)`: a map; a nil map has no entries.
    - `Str(typ, s)`: a value of string kind whose type is named `typ`:
      `StringName` for `string` itself.
    - `Scalar(typ, bits)`: every other kind (numbers, booleans, arrays, ...),
      named by its type and carried as an opaque payload.
   */
  datatype Value =
    | Ptr(elem: GoType, target: Option<Value>)
    | Iface(held: Option<Value>)
    | Struct(fields: seq<Field>)
    | Slice(elem: GoType, isNil: bool, items: seq<Value>, cap: nat)
    | Map(key: GoType, elem: GoType, isNil: bool, entries: map<Key, Value>)
    | Str(typ: string, s: string)
    | Scalar(typ: string, bits: int)

  datatype Field = Field(name: string, exported: bool, value: Value)

  function KeyType(k: Key): GoType
  {
    match k
    case KeyStr(name, _) => TString(name)
    case KeyScalar(name, _) => TScalar(name)
  }

  /** The static type of a value (reflect's `Value.Type()`). */
  function TypeOf(v: Value): GoType
  {
    match v
    case Ptr(elem, _) => TPtr(elem)
    case Iface(_) => TIface
    case Struct(fs) =>
      TStruct(seq(|fs|, i requires 0 <= i < |fs| =>
        FieldType(fs[i].name, fs[i].exported, TypeOf(fs[i].value))))
    case Slice(elem, _, _, _) => TSlice(elem)
    case Map(key, elem, _, _) => TMap(key, elem)
    case Str(name, _) => TString(name)
    case Scalar(name, _) => TScalar(name)
  }

  /** The zero value of a type: what `reflect.New(t).Elem()` designates. */
  function Zero(t: GoType): Value
  {
    match t
    case TPtr(elem) => Ptr(elem, None)
    case TIface => Iface(None)
    case TStruct(fts) =>
      Struct(seq(|fts|, i requires 0 <= i < |fts| =>
        Field(fts[i].name, fts[i].exported, Zero(fts[i].typ))))
    case TSlice(elem) => Slice(elem, true, [], 0)
    case TMap(key, elem) => Map(key, elem, true, map[])
    case TString(name) => Str(name, "")
    case TScalar(name) => Scalar(name, 0)
  }

  /**
    What Go's type system guarantees of every value: a pointer's target, a
    slice's elements and a map's keys and values have the declared types, an
    interface never holds another interface value, a slice's length is at
    most its capacity, and nil slices and maps are empty.
   */
  predicate WellTyped(v: Value)
  {
    match v
    case Ptr(elem, target) =>
      target.Some? ==> TypeOf(target.value) == elem && WellTyped(target.value)
    case Iface(held) =>
      held.Some? ==> !held.value.Iface? && WellTyped(held.value)
    case Struct(fs) =>
      forall i :: 0 <= i < |fs| ==> WellTyped(fs[i].value)
    case Slice(elem, isNil, items, cap) =>
      && |items| <= cap
      && (isNil ==> cap == 0)
      && forall i :: 0 <= i < |items| ==> TypeOf(items[i]) == elem && WellTyped(items[i])
    case Map(key, elem, isNil, entries) =>
      && (isNil ==> entries == map[])
      && forall k :: k in entries ==> KeyType(k) == key && TypeOf(entries[k]) == elem && WellTyped(entries[k])
    case Str(_, _) => true
    case Scalar(_, _) => true
  }

  /** The zero value of a type has that type and is well typed. */
  lemma {:induction false} ZeroOfType(t: GoType)
    ensures TypeOf(Zero(t)) == t
    ensures WellTyped(Zero(t))
  {
    match t
    case TStruct(fts) =>
      var z := Zero(t);
      forall i | 0 <= i < |fts|
        ensures TypeOf(z.fields[i].value) == fts[i].typ && WellTyped(z.fields[i].value)
      {
        ZeroOfType(fts[i].typ);
      }
      assert TypeOf(z).fields == fts;
    case _ =>
  }
}
