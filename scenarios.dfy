/**
  The cases of TestSanitize (main_test.go), and the nil cases around them,
  as concrete values. float32 fields are opaque scalars holding the IEEE 754
  bit pattern of 10.01.
 */
module SanitizeScenarios {
  import opened GoValues
  import opened Reflect
  import opened Sanitizer

  const Decimal := Scalar("float32", 0x4120_28F6)

  /** Go's predeclared `string` type, and a value of it. */
  const StringType := TString(StringName)

  function Text(s: string): Value
  {
    Str(StringName, s)
  }

  /** SimpleStructPrivateFields{str: ..., integer: 100, decimal: 10.01} */
  function PrivateFields(s: string): Value
  {
    Struct([Field("str", false, Text(s)), Field("integer", false, Scalar("int", 100)), Field("decimal", false, Decimal)])
  }

  /** SimpleStructPublicFields{Str: ..., Integer: 100, Decimal: 10.01} */
  function PublicFields(s: string): Value
  {
    Struct([Field("Str", true, Text(s)), Field("Integer", true, Scalar("int", 100)), Field("Decimal", true, Decimal)])
  }

  /** A pointer to a fresh struct, as `&T{...}` builds it. */
  function PointerTo(v: Value): Value
  {
    Ptr(TypeOf(v), Some(v))
  }

  /** simple_structure_private_fields: every field comes back unchanged. */
  lemma PrivateFieldsUnchanged()
    ensures Sanitized(Some(PrivateFields("this is string"))) == Ok(PrivateFields("this is string"))
  {
    var v := PrivateFields("this is string");
    var fs := v.fields;
    assert forall i :: 0 <= i < |fs| ==> Copy(fs[i].value, true, true) == Ok(fs[i].value);
    assert Copy(v, false, false).value.fields == fs;
  }

  /** simple_structure_public_fields: the string field gets the suffix. */
  lemma PublicFieldsUpdated()
    ensures Sanitized(Some(PublicFields("this is string"))) == Ok(PublicFields("this is string_updated"))
  {
    var v := PublicFields("this is string");
    var fs := v.fields;
    assert "this is string" + UpdatedSuffix == "this is string_updated";
    assert forall i :: 0 <= i < |fs| ==> Copy(fs[i].value, false, false) == Ok(PublicFields("this is string_updated").fields[i].value);
    assert Copy(v, false, false).value.fields == PublicFields("this is string_updated").fields;
  }

  /** pointer_of_simple_structure_private_fields */
  lemma PointerToPrivateFieldsUnchanged()
    ensures Sanitized(Some(PointerTo(PrivateFields("this is string"))))
      == Ok(PointerTo(PrivateFields("this is string")))
  {
    PrivateFieldsUnchanged();
  }

  /** pointer_of_simple_structure_public_fields: only the target's copy changes. */
  lemma PointerToPublicFieldsUpdated()
    ensures Sanitized(Some(PointerTo(PublicFields("this is string"))))
      == Ok(Ptr(TypeOf(PublicFields("this is string")), Some(PublicFields("this is string_updated"))))
    ensures TypeOf(PublicFields("this is string")) == TypeOf(PublicFields("this is string_updated"))
  {
    PublicFieldsUpdated();
  }

  /** A nil pointer argument comes back nil without a panic. */
  lemma NilPointerArgument()
    ensures Sanitized(Some(Ptr(TypeOf(PublicFields("")), None))) == Ok(Ptr(TypeOf(PublicFields("")), None))
  {
  }

  /** A nil `interface{}` argument panics in reflect.Value.Type (main.go:26). */
  lemma NilArgumentPanics()
    ensures Sanitized(None) == Panic
  {
  }

  /** []string{"a", "b"} becomes []string{"a_updated", "b_updated"}, capacity kept. */
  lemma StringSliceUpdated()
    ensures Sanitized(Some(Slice(StringType, false, [Text("a"), Text("b")], 4)))
      == Ok(Slice(StringType, false, [Text("a_updated"), Text("b_updated")], 4))
  {
    var c := Copy(Slice(StringType, false, [Text("a"), Text("b")], 4), false, false);
    assert "a" + UpdatedSuffix == "a_updated" && "b" + UpdatedSuffix == "b_updated";
    assert c.value.items == [Text("a_updated"), Text("b_updated")];
  }

  /** A nil []string becomes an empty, non-nil slice. */
  lemma NilSliceBecomesEmpty()
    ensures Sanitized(Some(Slice(StringType, true, [], 0))) == Ok(Slice(StringType, false, [], 0))
  {
    var c := Copy(Slice(StringType, true, [], 0), false, false);
    assert c.value.items == [];
  }

  /** map[string]string{"k": "v"} becomes map[string]string{"k": "v_updated"}. */
  lemma StringMapUpdated()
    ensures Sanitized(Some(Map(StringType, StringType, false, map[KeyStr(StringName, "k") := Text("v")])))
      == Ok(Map(StringType, StringType, false, map[KeyStr(StringName, "k") := Text("v_updated")]))
  {
    var c := Copy(Map(StringType, StringType, false, map[KeyStr(StringName, "k") := Text("v")]), false, false);
    assert "v" + UpdatedSuffix == "v_updated";
    assert Copy(Text("v"), false, false) == Ok(Text("v_updated"));
    assert c.value.entries == map[KeyStr(StringName, "k") := Text("v_updated")];
  }

  /** struct{ items []string } with a non-empty unexported slice: the copy's field stays nil. */
  lemma UnexportedSliceLost()
    ensures Sanitized(Some(Struct([Field("items", false, Slice(StringType, false, [Text("a")], 1))])))
      == Ok(Struct([Field("items", false, Slice(StringType, true, [], 0))]))
  {
    var c := Copy(Struct([Field("items", false, Slice(StringType, false, [Text("a")], 1))]), false, false);
    assert Copy(Text("a"), true, false) == Ok(Text("a"));
    assert Copy(Slice(StringType, false, [Text("a")], 1), true, true) == Ok(Slice(StringType, true, [], 0));
    assert c.value.fields == [Field("items", false, Slice(StringType, true, [], 0))];
  }

  /**
    With `type Name string`, both struct{ N Name } and struct{ n Name }
    make the call panic: the assertions `.(string)` fail on a Name.
   */
  lemma NamedStringFieldPanics()
    ensures Sanitized(Some(Struct([Field("N", true, Str("Name", "x"))]))) == Panic
    ensures Sanitized(Some(Struct([Field("n", false, Str("Name", "x"))]))) == Panic
  {
    var exported := [Field("N", true, Str("Name", "x"))];
    var unexported := [Field("n", false, Str("Name", "x"))];
    assert !Copy(exported[0].value, !exported[0].exported, !exported[0].exported).Ok?;
    assert !Copy(unexported[0].value, !unexported[0].exported, !unexported[0].exported).Ok?;
  }
}
