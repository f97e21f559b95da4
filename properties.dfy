/**
  What the deep copy guarantees, stated over paths: a sequence of reflect
  navigation steps from the root. A path that crosses no unexported field is
  "exported"; along it, the copy mirrors the original node by node.
 */
module SanitizeProperties {
  import opened GoValues
  import opened Reflect
  import opened Sanitizer

  /** A step never clears the read-only flag. */
  lemma StepKeepsReadOnly(r: Ref, s: Step)
    requires r.readOnly && StepInto(r, s).Some?
    ensures StepInto(r, s).value.readOnly
  {
  }

  /** One exported step: the copy's child is the copy of the original's child. */
  lemma CopyStep(v: Value, s: Step)
    requires Copy(v, false, false).Ok?
    requires StepInto(Ref(v, false), s).Some? && !StepInto(Ref(v, false), s).value.readOnly
    ensures var w := StepInto(Ref(v, false), s).value.value;
      && Copy(w, false, false).Ok?
      && StepInto(Ref(Copy(v, false, false).value, false), s) == Some(Ref(Copy(w, false, false).value, false))
  {
    var c := Copy(v, false, false).value;
    match s
    case FieldAt(i) =>
      assert c.fields[i].value == Copy(v.fields[i].value, false, false).value;
    case IndexAt(i) =>
      assert c.items[i] == Copy(v.items[i], false, false).value;
    case KeyAt(k) =>
      assert c.entries[k] == Copy(v.entries[k], false, false).value;
    case Deref =>
    case Unwrap =>
  }

  /**
    Along an exported path, a successful copy has, at the same path, the
    copy of the original's node: struct field i is the copy of field i, slice
    element i the copy of element i, the value at key k the copy of the value
    at k, and a pointer's or interface's target the copy of the referent.
   */
  lemma {:induction false} CopyAlongExportedPath(v: Value, path: seq<Step>)
    requires Copy(v, false, false).Ok?
    requires Follow(Ref(v, false), path).Some? && !Follow(Ref(v, false), path).value.readOnly
    ensures var w := Follow(Ref(v, false), path).value.value;
      && Copy(w, false, false).Ok?
      && Follow(Ref(Copy(v, false, false).value, false), path) == Some(Ref(Copy(w, false, false).value, false))
    decreases |path|
  {
    if path != [] {
      var prefix := path[..|path| - 1];
      var q := Follow(Ref(v, false), prefix).value;
      if q.readOnly {
        StepKeepsReadOnly(q, path[|path| - 1]);
      }
      CopyAlongExportedPath(v, prefix);
      CopyStep(q.value, path[|path| - 1]);
    }
  }

  /** Following `path + [s]` is following `path`, then taking step `s`. */
  lemma FollowAppend(r: Ref, path: seq<Step>, s: Step)
    ensures Follow(r, path + [s]) == (if Follow(r, path).None? then None else StepInto(Follow(r, path).value, s))
  {
    assert (path + [s])[..|path + [s]| - 1] == path;
  }

  /**
    An unexported field of a struct reached along an exported path is copied
    with both flags set: its copy is the field of the copy, read-only.
   */
  lemma CopyUnexportedField(v: Value, path: seq<Step>, fs: seq<Field>, i: nat)
    requires Copy(v, false, false).Ok?
    requires Follow(Ref(v, false), path) == Some(Ref(Struct(fs), false))
    requires i < |fs| && !fs[i].exported
    ensures Copy(fs[i].value, true, true).Ok?
    ensures Follow(Ref(Copy(v, false, false).value, false), path + [FieldAt(i)])
      == Some(Ref(Copy(fs[i].value, true, true).value, true))
  {
    CopyAlongExportedPath(v, path);
    FollowAppend(Ref(Copy(v, false, false).value, false), path, FieldAt(i));
    var c := Copy(Struct(fs), false, false).value;
    assert c.fields[i] == Field(fs[i].name, false, Copy(fs[i].value, true, true).value);
  }

  /**
    A string reached without crossing an unexported field gets the suffix;
    in a successful copy it is of type `string` itself.
   */
  lemma ExportedStringUpdated(v: Value, path: seq<Step>, typ: string, s: string)
    requires Sanitized(Some(v)).Ok?
    requires Follow(Ref(v, false), path) == Some(Ref(Str(typ, s), false))
    ensures typ == StringName
    ensures Follow(Ref(Sanitized(Some(v)).value, false), path) == Some(Ref(Str(typ, s + "_updated"), false))
  {
    CopyAlongExportedPath(v, path);
  }

  /** A non-string leaf reached without crossing an unexported field is copied unchanged. */
  lemma ExportedScalarKept(v: Value, path: seq<Step>, typ: string, bits: int)
    requires Sanitized(Some(v)).Ok?
    requires Follow(Ref(v, false), path) == Some(Ref(Scalar(typ, bits), false))
    ensures Follow(Ref(Sanitized(Some(v)).value, false), path) == Some(Ref(Scalar(typ, bits), false))
  {
    CopyAlongExportedPath(v, path);
  }

  /**
    Pointers along exported paths: a nil pointer stays nil, a non-nil
    pointer gets a target holding the copy of the referent.
   */
  lemma PointerCopied(v: Value, path: seq<Step>, elem: GoType, target: Option<Value>)
    requires Sanitized(Some(v)).Ok?
    requires Follow(Ref(v, false), path) == Some(Ref(Ptr(elem, target), false))
    ensures Follow(Ref(Sanitized(Some(v)).value, false), path).Some?
    ensures var c := Follow(Ref(Sanitized(Some(v)).value, false), path).value;
      && !c.readOnly && c.value.Ptr? && c.value.elem == elem
      && (target.None? <==> c.value.target.None?)
      && (target.Some? ==> Copy(target.value, false, false) == Ok(c.value.target.value))
  {
    CopyAlongExportedPath(v, path);
  }

  /**
    Exported slices: the copy is a non-nil slice (also for a nil original)
    with the same element type, length and capacity, whose element i is the
    copy of element i.
   */
  lemma ExportedSliceCopied(v: Value, path: seq<Step>, elem: GoType, isNil: bool, items: seq<Value>, cap: nat)
    requires Sanitized(Some(v)).Ok?
    requires Follow(Ref(v, false), path) == Some(Ref(Slice(elem, isNil, items, cap), false))
    ensures Follow(Ref(Sanitized(Some(v)).value, false), path).Some?
    ensures var c := Follow(Ref(Sanitized(Some(v)).value, false), path).value;
      && !c.readOnly && c.value.Slice? && c.value.elem == elem && !c.value.isNil
      && |c.value.items| == |items| && c.value.cap == cap
      && forall i :: 0 <= i < |items| ==> Copy(items[i], false, false) == Ok(c.value.items[i])
  {
    CopyAlongExportedPath(v, path);
  }

  /**
    Exported maps: the copy is a non-nil map with exactly the original's
    keys, untouched, each holding the copy of the original's value.
   */
  lemma ExportedMapCopied(v: Value, path: seq<Step>, key: GoType, elem: GoType, isNil: bool, entries: map<Key, Value>)
    requires Sanitized(Some(v)).Ok?
    requires Follow(Ref(v, false), path) == Some(Ref(Map(key, elem, isNil, entries), false))
    ensures Follow(Ref(Sanitized(Some(v)).value, false), path).Some?
    ensures var c := Follow(Ref(Sanitized(Some(v)).value, false), path).value;
      && !c.readOnly && c.value.Map? && c.value.key == key && c.value.elem == elem && !c.value.isNil
      && c.value.entries.Keys == entries.Keys
      && forall k :: k in entries ==> Copy(entries[k], false, false) == Ok(c.value.entries[k])
  {
    CopyAlongExportedPath(v, path);
  }

  /**
    An unexported field of a struct reached along an exported path, in a
    successful copy: a string (of type `string` itself) or any other leaf is
    copied unchanged, a slice
    or a map is left nil (it was built in a local variable only), a pointer
    was nil and stays nil; structs and interfaces cannot occur there.
   */
  lemma UnexportedFieldCopied(v: Value, path: seq<Step>, fs: seq<Field>, i: nat)
    requires Sanitized(Some(v)).Ok?
    requires Follow(Ref(v, false), path) == Some(Ref(Struct(fs), false))
    requires i < |fs| && !fs[i].exported
    ensures Follow(Ref(Sanitized(Some(v)).value, false), path + [FieldAt(i)]).Some?
    ensures var c := Follow(Ref(Sanitized(Some(v)).value, false), path + [FieldAt(i)]).value;
      var f := fs[i].value;
      && c.readOnly
      && !f.Struct? && !f.Iface?
      && (f.Str? ==> f.typ == StringName)
      && (f.Str? || f.Scalar? ==> c.value == f)
      && (f.Ptr? ==> f.target.None? && c.value == f)
      && (f.Slice? ==> c.value == Slice(f.elem, true, [], 0))
      && (f.Map? ==> f.entries == map[] && c.value == Map(f.key, f.elem, true, map[]))
  {
    CopyUnexportedField(v, path, fs, i);
  }

  /** A string in an unexported field is copied unchanged: it does not get the suffix. */
  lemma UnexportedStringKept(v: Value, path: seq<Step>, fs: seq<Field>, i: nat, typ: string, s: string)
    requires Sanitized(Some(v)).Ok?
    requires Follow(Ref(v, false), path) == Some(Ref(Struct(fs), false))
    requires i < |fs| && !fs[i].exported && fs[i].value == Str(typ, s)
    ensures Follow(Ref(Sanitized(Some(v)).value, false), path + [FieldAt(i)]) == Some(Ref(Str(typ, s), true))
  {
    UnexportedFieldCopied(v, path, fs, i);
  }

  /** One step down an exported path: if the child's copy panics, so does the parent's. */
  lemma StepPanics(v: Value, s: Step)
    requires StepInto(Ref(v, false), s).Some? && !StepInto(Ref(v, false), s).value.readOnly
    requires Copy(StepInto(Ref(v, false), s).value.value, false, false).Panic?
    ensures Copy(v, false, false).Panic?
  {
    match s
    case FieldAt(i) =>
      assert !Copy(v.fields[i].value, !v.fields[i].exported, false || !v.fields[i].exported).Ok?;
    case IndexAt(i) =>
      assert !Copy(v.items[i], false, false).Ok?;
    case KeyAt(k) =>
      assert !Copy(v.entries[k], false, false).Ok?;
    case Deref =>
    case Unwrap =>
  }

  /** A panic anywhere along an exported path is a panic of the whole call. */
  lemma {:induction false} PanicPropagates(v: Value, path: seq<Step>)
    requires Follow(Ref(v, false), path).Some? && !Follow(Ref(v, false), path).value.readOnly
    requires Copy(Follow(Ref(v, false), path).value.value, false, false).Panic?
    ensures Sanitized(Some(v)).Panic?
    decreases |path|
  {
    if path != [] {
      var prefix := path[..|path| - 1];
      var q := Follow(Ref(v, false), prefix).value;
      if q.readOnly {
        StepKeepsReadOnly(q, path[|path| - 1]);
      }
      StepPanics(q.value, path[|path| - 1]);
      PanicPropagates(v, prefix);
    }
  }

  /**
    The reflect panics of an unexported field reached along an exported
    path: a non-nil pointer (copy.Set on a read-only destination), an
    interface (Interface() on a read-only value), a struct (converted.Set
    from a read-only value), a non-empty map (SetMapIndex with a read-only
    key), and a string of a named string type (the assertion `val.(string)`).
   */
  lemma UnexportedFieldPanics(v: Value, path: seq<Step>, fs: seq<Field>, i: nat)
    requires Follow(Ref(v, false), path) == Some(Ref(Struct(fs), false))
    requires i < |fs| && !fs[i].exported
    requires var f := fs[i].value;
      || (f.Ptr? && f.target.Some?)
      || f.Iface?
      || f.Struct?
      || (f.Map? && f.entries != map[])
      || (f.Str? && f.typ != StringName)
    ensures Sanitized(Some(v)).Panic?
  {
    assert !Copy(fs[i].value, true, true).Ok?;
    PanicPropagates(v, path);
  }

  /** An interface holding nil, reached along an exported path, panics (main.go:79). */
  lemma NilInterfacePanics(v: Value, path: seq<Step>)
    requires Follow(Ref(v, false), path) == Some(Ref(Iface(None), false))
    ensures Sanitized(Some(v)).Panic?
  {
    PanicPropagates(v, path);
  }

  /**
    A string of a named string type, reached along an exported path, panics
    at the assertion `original.Interface().(string)` (main.go:204).
   */
  lemma NamedStringPanics(v: Value, path: seq<Step>, typ: string, s: string)
    requires Follow(Ref(v, false), path) == Some(Ref(Str(typ, s), false))
    requires typ != StringName
    ensures Sanitized(Some(v)).Panic?
  {
    PanicPropagates(v, path);
  }

  /**
    A value with no unexported field, no nil interface and no string of a
    named string type anywhere.
   */
  predicate Plain(v: Value)
  {
    match v
    case Ptr(_, target) => target.Some? ==> Plain(target.value)
    case Iface(held) => held.Some? && Plain(held.value)
    case Struct(fs) => forall i :: 0 <= i < |fs| ==> fs[i].exported && Plain(fs[i].value)
    case Slice(_, _, items, _) => forall i :: 0 <= i < |items| ==> Plain(items[i])
    case Map(_, _, _, entries) => forall k :: k in entries ==> Plain(entries[k])
    case Str(typ, _) => typ == StringName
    case Scalar(_, _) => true
  }

  /** Without unexported fields, nil interfaces and named strings, the copy never panics. */
  lemma {:induction false} PlainNeverPanics(v: Value)
    requires Plain(v)
    ensures Copy(v, false, false).Ok?
    decreases v
  {
    match v
    case Ptr(_, target) =>
      if target.Some? {
        PlainNeverPanics(target.value);
      }
    case Iface(held) =>
      PlainNeverPanics(held.value);
    case Struct(fs) =>
      forall i | 0 <= i < |fs|
        ensures Copy(fs[i].value, !fs[i].exported, false || !fs[i].exported).Ok?
      {
        PlainNeverPanics(fs[i].value);
      }
    case Slice(_, _, items, _) =>
      forall i | 0 <= i < |items|
        ensures Copy(items[i], false, false).Ok?
      {
        PlainNeverPanics(items[i]);
      }
    case Map(_, _, _, entries) =>
      forall k | k in entries
        ensures Copy(entries[k], false, false).Ok?
      {
        PlainNeverPanics(entries[k]);
      }
    case Str(_, _) =>
    case Scalar(_, _) =>
  }

  /** A nil pointer never makes the copy fail, whatever the flags. */
  lemma NilPointerNeverPanics(elem: GoType, origRO: bool, copyRO: bool)
    ensures Copy(Ptr(elem, None), origRO, copyRO) == Ok(Ptr(elem, None))
  {
  }

  /** Every successful copy is again a well-typed Go value. */
  lemma {:induction false} CopyPreservesWellTyped(v: Value, origRO: bool, copyRO: bool)
    requires WellTyped(v) && Copy(v, origRO, copyRO).Ok?
    ensures WellTyped(Copy(v, origRO, copyRO).value)
    decreases v
  {
    var c := Copy(v, origRO, copyRO).value;
    match v
    case Ptr(elem, target) =>
      if target.Some? {
        CopyPreservesType(target.value, origRO, false);
        CopyPreservesWellTyped(target.value, origRO, false);
      }
    case Iface(held) =>
      CopyPreservesType(held.value, false, false);
      CopyPreservesWellTyped(held.value, false, false);
    case Struct(fs) =>
      forall i | 0 <= i < |fs|
        ensures WellTyped(c.fields[i].value)
      {
        CopyPreservesWellTyped(fs[i].value, !fs[i].exported, copyRO || !fs[i].exported);
      }
    case Slice(elem, _, items, _) =>
      if !origRO {
        forall i | 0 <= i < |items|
          ensures TypeOf(c.items[i]) == elem && WellTyped(c.items[i])
        {
          CopyPreservesType(items[i], false, false);
          CopyPreservesWellTyped(items[i], false, false);
        }
      }
    case Map(key, elem, _, entries) =>
      if !origRO {
        forall k | k in c.entries
          ensures KeyType(k) == key && TypeOf(c.entries[k]) == elem && WellTyped(c.entries[k])
        {
          CopyPreservesType(entries[k], false, false);
          CopyPreservesWellTyped(entries[k], false, false);
        }
      }
    case Str(_, _) =>
    case Scalar(_, _) =>
  }

  /** `sanitize` returns a well-typed value of the argument's dynamic type. */
  lemma SanitizedKeepsType(obj: Option<Value>)
    requires obj.Some? && WellTyped(obj.value) && Sanitized(obj).Ok?
    ensures TypeOf(Sanitized(obj).value) == TypeOf(obj.value)
    ensures WellTyped(Sanitized(obj).value)
  {
    CopyPreservesType(obj.value, false, false);
    CopyPreservesWellTyped(obj.value, false, false);
  }
}
