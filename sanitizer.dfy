/**
  The reflection-driven deep copy of main.go: `sanitize` allocates a zero
  value of the input's type and `sanitizeRecursive` fills it node by node,
  appending "_updated" to every string it can reach through exported fields.

  `Copy` is the specification: the final value of the destination, or a
  panic, as a function of the original value, of the original's read-only
  flag and of the destination's read-only flag. `SanitizeRecursive` is the
  imperative algorithm, proved to produce exactly `Copy`.
 */
module Sanitizer {
  import opened GoValues
  import opened Reflect

  /** The transform applied to strings (main.go:206); the HTML policy is never consulted. */
  const UpdatedSuffix := "_updated"

  /**
    The copy of `original` left in a fresh zero destination of its type.
    `origRO` is the read-only flag of the original's reflect.Value and
    `copyRO` that of the destination's. They differ only inside an
    unexported slice or map, whose elements are copied into fresh, settable
    destinations (main.go:142, 162, 190).
   */
  function Copy(original: Value, origRO: bool, copyRO: bool): Outcome<Value>
    decreases original
  {
    match original
    case Ptr(elem, target) =>
      if target.None? then Ok(Ptr(elem, None))
      else if copyRO then Panic
      else
        (match Copy(target.value, origRO, false)
         case Ok(c) => Ok(Ptr(elem, Some(c)))
         case Panic => Panic)
    case Iface(held) =>
      if origRO || held.None? then Panic
      else
        (match Copy(held.value, false, false)
         case Ok(c) => if copyRO then Panic else Ok(Iface(Some(c)))
         case Panic => Panic)
    case Struct(fs) =>
      if origRO then Panic
      else if forall i :: 0 <= i < |fs| ==> Copy(fs[i].value, !fs[i].exported, copyRO || !fs[i].exported).Ok? then
        Ok(Struct(seq(|fs|, i requires 0 <= i < |fs| =>
          Field(fs[i].name, fs[i].exported, Copy(fs[i].value, !fs[i].exported, copyRO || !fs[i].exported).value))))
      else Panic
    case Slice(elem, _, items, cap) =>
      if !origRO && copyRO then Panic
      else if forall i :: 0 <= i < |items| ==> Copy(items[i], origRO, false).Ok? then
        if origRO then Ok(Slice(elem, true, [], 0))
        else Ok(Slice(elem, false, seq(|items|, i requires 0 <= i < |items| => Copy(items[i], false, false).value), cap))
      else Panic
    case Map(key, elem, _, entries) =>
      if origRO then (if entries == map[] then Ok(Map(key, elem, true, map[])) else Panic)
      else if copyRO then Panic
      else if forall k :: k in entries ==> Copy(entries[k], false, false).Ok? then
        Ok(Map(key, elem, false, map k | k in entries :: Copy(entries[k], false, false).value))
      else Panic
    case Str(typ, s) =>
      // the assertion `.(string)` (main.go:204, 211) fails on a named string type
      if typ != StringName then Panic
      else if origRO then Ok(original)
      else if copyRO then Panic
      else Ok(Str(typ, s + UpdatedSuffix))
    case Scalar(_, _) =>
      if !origRO && copyRO then Panic else Ok(original)
  }

  /** Type preservation: a copy has the static type of its original. */
  lemma {:induction false} CopyPreservesType(original: Value, origRO: bool, copyRO: bool)
    requires Copy(original, origRO, copyRO).Ok?
    ensures TypeOf(Copy(original, origRO, copyRO).value) == TypeOf(original)
    decreases original
  {
    match original
    case Ptr(_, _) =>
    case Iface(_) =>
    case Struct(fs) =>
      if !origRO {
        var c := Copy(original, origRO, copyRO).value;
        forall i | 0 <= i < |fs|
          ensures TypeOf(c.fields[i].value) == TypeOf(fs[i].value)
        {
          CopyPreservesType(fs[i].value, !fs[i].exported, copyRO || !fs[i].exported);
        }
        assert TypeOf(c).fields == TypeOf(original).fields;
      }
    case Slice(_, _, _, _) =>
    case Map(_, _, _, _) =>
    case Str(_, _) =>
    case Scalar(_, _) =>
  }

  /** What `sanitize` returns for an `interface{}` argument whose dynamic value is `obj`. */
  function Sanitized(obj: Option<Value>): Outcome<Value>
  {
    if obj.None? then Panic else Copy(obj.value, false, false)
  }

  /**
    `sanitize` (main.go:23-37): allocates a zero value of the argument's
    dynamic type, fills it with `SanitizeRecursive`, and returns it. The
    dynamic value of an `interface{}` is never itself an interface.
   */
  method Sanitize(obj: Option<Value>) returns (r: Outcome<Value>)
    requires obj.Some? ==> WellTyped(obj.value)
    requires obj.Some? ==> !obj.value.Iface?
    ensures r == Sanitized(obj)
  {
    var original := ValueOf(obj);
    if original.None? {
      // original.Type() on the invalid Value of a nil interface
      return Panic;
    }
    var copy := NewZero(TypeOf(original.value.value));
    var filled :- SanitizeRecursive(copy, original.value);
    r := Interface(Ref(filled, copy.readOnly));
  }

  /**
    `sanitizeRecursive` (main.go:39-234): fills the zero destination `copy`
    from `original` and returns the destination's final value, or panics
    where reflect panics.
   */
  method SanitizeRecursive(copy: Ref, original: Ref) returns (r: Outcome<Value>)
    requires WellTyped(original.value)
    requires copy.value == Zero(TypeOf(original.value))
    ensures r == Copy(original.value, original.readOnly, copy.readOnly)
    decreases original.value, 1
  {
    match original.value
    case Ptr(_, _) =>
      r := SanitizePointer(copy, original);
    case Iface(_) =>
      r := SanitizeInterface(copy, original);
    case Struct(_) =>
      r := SanitizeStruct(copy, original);
    case Slice(_, _, _, _) =>
      r := SanitizeSlice(copy, original);
    case Map(_, _, _, _) =>
      r := SanitizeMap(copy, original);
    case Str(_, _) =>
      r := SanitizeString(copy, original);
    case Scalar(_, _) =>
      r := SanitizeOther(copy, original);
  }

  /** The pointer case (main.go:48-64). */
  method SanitizePointer(copy: Ref, original: Ref) returns (r: Outcome<Value>)
    requires original.value.Ptr? && WellTyped(original.value)
    requires copy.value == Zero(TypeOf(original.value))
    ensures r == Copy(original.value, original.readOnly, copy.readOnly)
    decreases original.value, 0
  {
    var originalValue := Elem(original);
    if originalValue.None? {
      // nil pointer: the destination stays nil
      return Ok(copy.value);
    }
    var dst :- Set(copy, NewPointer(TypeOf(originalValue.value.value)));
    var c :- SanitizeRecursive(Elem(dst).value, originalValue.value);
    return Ok(StoreTarget(dst, c).value);
  }

  /** The interface case (main.go:70-81). */
  method SanitizeInterface(copy: Ref, original: Ref) returns (r: Outcome<Value>)
    requires original.value.Iface? && WellTyped(original.value)
    requires copy.value == Zero(TypeOf(original.value))
    ensures r == Copy(original.value, original.readOnly, copy.readOnly)
    decreases original.value, 0
  {
    // the tracing at main.go:72 calls original.Interface()
    var shown :- Interface(original);
    var originalValue := Elem(original);
    if originalValue.None? {
      // originalValue.Type() on the invalid Value of a nil interface
      return Panic;
    }
    var copyValue := NewZero(TypeOf(originalValue.value.value));
    var c :- SanitizeRecursive(copyValue, originalValue.value);
    CopyPreservesType(originalValue.value.value, false, false);
    var dst :- Set(copy, Ref(c, copyValue.readOnly));
    return Ok(dst.value);
  }

  /**
    The struct case (main.go:84-117). The fields are read from `converted`,
    a fresh settable duplicate of the original, so a field's flag is only
    its own export status. A slice field is passed as `copy.Field(i).Addr()`
    and turned back with `Elem()` at main.go:122-125, which designates the
    same location with the same flag: both branches make the same call.
   */
  method SanitizeStruct(copy: Ref, original: Ref) returns (r: Outcome<Value>)
    requires original.value.Struct? && WellTyped(original.value)
    requires copy.value == Zero(TypeOf(original.value))
    ensures r == Copy(original.value, original.readOnly, copy.readOnly)
    decreases original.value, 0
  {
    var fields := original.value.fields;
    var converted := NewZero(TypeOf(original.value));
    converted :- Set(converted, original);
    var dst := copy;
    var i := 0;
    while i < |fields|
      invariant 0 <= i <= |fields|
      invariant converted == Ref(original.value, false)
      invariant dst.readOnly == copy.readOnly && dst.value.Struct?
      invariant |dst.value.fields| == |fields|
      invariant forall j :: 0 <= j < i ==>
        && Copy(fields[j].value, !fields[j].exported, copy.readOnly || !fields[j].exported).Ok?
        && dst.value.fields[j] == Field(fields[j].name, fields[j].exported,
             Copy(fields[j].value, !fields[j].exported, copy.readOnly || !fields[j].exported).value)
      invariant forall j :: i <= j < |fields| ==> dst.value.fields[j] == copy.value.fields[j]
    {
      var f :- SanitizeRecursive(FieldOf(dst, i), FieldOf(converted, i));
      dst := StoreField(dst, i, f);
      i := i + 1;
    }
    assert dst.value.fields == Copy(original.value, original.readOnly, copy.readOnly).value.fields;
    r := Ok(dst.value);
  }

  /** The slice case (main.go:120-172). */
  method SanitizeSlice(copy: Ref, original: Ref) returns (r: Outcome<Value>)
    requires original.value.Slice? && WellTyped(original.value)
    requires copy.value == Zero(TypeOf(original.value))
    ensures r == Copy(original.value, original.readOnly, copy.readOnly)
    decreases original.value, 0
  {
    var items := original.value.items;
    var made := MakeSlice(original.value.elem, |items|, original.value.cap);
    var dst: Ref;
    if CanInterface(original) {
      dst :- Set(copy, Ref(made, false));
    } else {
      // an unexported slice is built in a local variable only
      dst := Ref(made, false);
    }
    var i := 0;
    while i < |items|
      invariant 0 <= i <= |items|
      invariant !dst.readOnly && dst.value.Slice?
      invariant dst.value == made.(items := dst.value.items)
      invariant |dst.value.items| == |items|
      invariant forall j :: 0 <= j < i ==> Copy(items[j], original.readOnly, false) == Ok(dst.value.items[j])
    {
      var val := NewZero(TypeOf(items[i]));
      var c :- SanitizeRecursive(val, Index(original, i));
      // copy.Index(i).Set(val): both sides are fresh and settable, so this never panics
      dst := SetIndex(dst, i, Ref(c, val.readOnly)).value;
      i := i + 1;
    }
    if CanInterface(original) {
      assert dst.value.items == Copy(original.value, original.readOnly, copy.readOnly).value.items;
      r := Ok(dst.value);
    } else {
      r := Ok(copy.value);
    }
  }

  /** The map case (main.go:175-193). */
  method SanitizeMap(copy: Ref, original: Ref) returns (r: Outcome<Value>)
    requires original.value.Map? && WellTyped(original.value)
    requires copy.value == Zero(TypeOf(original.value))
    ensures r == Copy(original.value, original.readOnly, copy.readOnly)
    decreases original.value, 0
  {
    var entries := original.value.entries;
    var made := MakeMap(original.value.key, original.value.elem);
    var dst: Ref;
    if CanInterface(original) {
      dst :- Set(copy, Ref(made, false));
    } else {
      // an unexported map is built in a local variable only
      dst := Ref(made, false);
    }
    var keys := MapKeys(original);
    while keys != {}
      invariant keys <= entries.Keys
      invariant !dst.readOnly && dst.value.Map?
      invariant dst.value == made.(entries := dst.value.entries)
      invariant dst.value.entries.Keys == entries.Keys - keys
      invariant forall k :: k in dst.value.entries ==> Copy(entries[k], original.readOnly, false) == Ok(dst.value.entries[k])
      invariant original.readOnly ==> keys == entries.Keys
      decreases keys
    {
      var key :| key in keys;
      var originalValue := MapIndex(original, key);
      var copyValue := NewZero(TypeOf(originalValue.value));
      var c := SanitizeRecursive(copyValue, originalValue);
      if c.Panic? {
        assert key in entries && Copy(entries[key], original.readOnly, false).Panic?;
        return Panic;
      }
      // the key comes from MapKeys and carries the map's flag
      assert original.readOnly ==> entries != map[];
      dst :- SetMapIndex(dst, key, original.readOnly, Ref(c.value, copyValue.readOnly));
      keys := keys - {key};
    }
    if CanInterface(original) {
      assert forall k :: k in entries ==> k in dst.value.entries && Copy(entries[k], false, false).Ok?;
      assert dst.value.entries == Copy(original.value, original.readOnly, copy.readOnly).value.entries;
      r := Ok(dst.value);
    } else {
      assert entries == map[];
      r := Ok(copy.value);
    }
  }

  /** The string case (main.go:198-216). */
  method SanitizeString(copy: Ref, original: Ref) returns (r: Outcome<Value>)
    requires original.value.Str?
    requires copy.value == Zero(TypeOf(original.value))
    ensures r == Copy(original.value, original.readOnly, copy.readOnly)
  {
    if CanInterface(original) {
      // original.Interface().(string): the tracing at main.go:204 asserts first
      var text :- AssertString(Interface(original).value);
      var dst :- SetString(copy, text + UpdatedSuffix);
      r := Ok(dst.value);
    } else {
      var val := GetUnexportedField(original);
      // val.(string) in the tracing at main.go:211
      var shown :- AssertString(val);
      r := Ok(SetUnexportedField(copy, val).value);
    }
  }

  /** Every other kind (main.go:219-231): copied as it is. */
  method SanitizeOther(copy: Ref, original: Ref) returns (r: Outcome<Value>)
    requires original.value.Scalar?
    requires copy.value == Zero(TypeOf(original.value))
    ensures r == Copy(original.value, original.readOnly, copy.readOnly)
  {
    if CanInterface(original) {
      var dst :- Set(copy, original);
      r := Ok(dst.value);
    } else {
      var val := GetUnexportedField(original);
      r := Ok(SetUnexportedField(copy, val).value);
    }
  }
}
