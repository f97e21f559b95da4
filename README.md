# Reflection-driven deep copy with a string transform

This project models `sanitize` and `sanitizeRecursive` from `main.go`, and proves properties of the model. `sanitize` takes an `interface{}`. It allocates a zero value of the argument's dynamic type, has `sanitizeRecursive` fill it node by node, and returns it. `sanitizeRecursive` dispatches on the kind of the original node:

- a pointer gets a freshly allocated target, or stays nil;
- an interface is unwrapped, its dynamic value is copied into a fresh holder, and the holder is stored back;
- a struct is copied field by field, in declaration order, reading through a settable duplicate `converted`;
- a slice is rebuilt with `MakeSlice` at the same length and capacity;
- a map is rebuilt with `MakeMap`, one value at a time;
- a string gets the suffix `"_updated"`;
- every other kind is copied as it is.

What the copy finally holds depends on reflect's read-only flag. The flag is set when a step goes through an unexported struct field. `Elem`, `Index` and `MapIndex` inherit it. A string read through an unexported field is copied unchanged, using the `getUnexportedField`/`setUnexportedField` helpers. An unexported slice or map is built in a local variable only, and that local is then lost. Writing with `Set` to a read-only destination panics, and so does reading a read-only value with `Interface()`.

The model has five modules:

- `GoValues` (`go_values.dfy`) models Go values as a datatype. Each node carries its static type, so `TypeOf` and `Zero` are defined. `WellTyped` states what Go's type system guarantees.
- `Reflect` (`reflect.dfy`) models a `reflect.Value` as `Ref(value, readOnly)`. It defines the reflect operations the code calls, with their panics, and `Follow`, which navigates along a path of reflect steps.
- `Sanitizer` (`sanitizer.dfy`) holds `Copy`, the specification of `sanitizeRecursive`. `Copy` gives the destination's final value, or a panic, as a function of three things: the original, the original's read-only flag and the destination's read-only flag. `Sanitizer` also holds the imperative methods, one per kind branch, with their loops. Each of them is proved to produce exactly `Copy`.
- `SanitizeProperties` (`properties.dfy`) proves what the copy guarantees, on every path through the value.
- `SanitizeScenarios` (`scenarios.dfy`) restates the cases of `TestSanitize` and some nil edge cases.

The two flags are usually equal. They differ only inside an unexported slice or map. There the elements are copied into fresh, settable destinations (main.go:142, 162, 190), so a non-nil pointer element of a slice gets past `copy.Set` and does not panic. A non-empty unexported map panics anyway, at `SetMapIndex`. The struct case resets the original's flag: `converted` is a fresh duplicate, so each field's flag is just its own export status.

Unexported strings are not transformed: the code copies them unchanged (main.go:208-215), and its test expects exactly that (main_test.go:38-46). Unexported slices and maps are left nil in the copy (main.go:142, 184).

Every string-kind value goes through the type assertion `.(string)` (main.go:204, 206 and 211). For a named string type such as `type Name string`, that assertion panics, whether the field is exported or not. So the model gives each string-kind value its type name, and `Copy` panics on every name other than `string`.

## Model

| member | source | states |
|---|---|---|
| `Sanitizer.Sanitize` | main.go:23-37 | for any argument (its dynamic value is never an interface), the result is `Sanitized(obj)`: a nil argument panics, and otherwise the result is the copy of its dynamic value with clear flags |
| `Sanitizer.SanitizeRecursive` | main.go:39-234 | on a well-typed original and a zero destination of its type, the result is exactly `Copy(original, original's flag, destination's flag)` |
| `Sanitizer.SanitizePointer` | main.go:48-64 | a nil pointer leaves the destination nil; otherwise `copy.Set` of a fresh pointer panics on a read-only destination, and the new target holds the copy of the referent |
| `Sanitizer.SanitizeInterface` | main.go:70-81 | the copy panics on a read-only interface (`Interface()` at line 72) and on a nil one (`Type()` of the invalid Value at line 79); otherwise the destination holds the copy of the dynamic value |
| `Sanitizer.SanitizeStruct` | main.go:84-117 | panics when the struct itself is read-only (`converted.Set`); otherwise field i of the copy is the copy of field i with the flag `!exported`, filled in declaration order, and the loop stops at the first panic |
| `Sanitizer.SanitizeSlice` | main.go:120-172 | an exported slice is rebuilt non-nil with the same length and capacity, element i being the copy of element i; an unexported one is filled only in a local, so the destination stays nil, but panics in its elements still propagate |
| `Sanitizer.SanitizeMap` | main.go:175-193 | an exported map is rebuilt non-nil with the same keys, each value copied; an unexported map leaves the destination nil when empty, and panics at `SetMapIndex` when not |
| `Sanitizer.SanitizeString` | main.go:198-216 | a value of a named string type panics at the `.(string)` assertion (lines 204, 211); a `string` reached with a clear flag becomes `s + "_updated"` via `SetString`; a read-only one is copied unchanged through the unexported-field helpers |
| `Sanitizer.SanitizeOther` | main.go:219-231 | every other kind is copied unchanged, through `Set` when exported and through the helpers when not |
| `Sanitizer.CopyPreservesType` | main.go:26 | type preservation: a successful copy has exactly the original's static type, for every pair of flags |
| `Reflect.GetUnexportedField` | main.go:11-13 | reads the designated value whatever its read-only flag, as `Interface()` would on a clear flag |
| `Reflect.SetUnexportedField` | main.go:15-19 | the result is what `Set` leaves in a flag-cleared alias of the destination, which never panics; the destination keeps its own flag; plain `Set` on a read-only destination would panic |
| `Reflect.CopyThroughHelpers` | main.go:11-19 | reading a field with `getUnexportedField` and writing it with `setUnexportedField` into a non-interface destination leaves exactly the field's value there, whatever the flags |
| `Reflect.AssertString` | main.go:204 | the assertion `.(string)` succeeds exactly when the dynamic type is `string` itself, and then yields the string's contents |
| `GoValues.ZeroOfType` | main.go:26 | the zero value allocated for a type has that type and is well typed |
| `SanitizeProperties.CopyStep` | main.go:44-193 | one exported step (Elem, Field, Index, MapIndex): the copy's child is the copy of the original's child |
| `SanitizeProperties.CopyAlongExportedPath` | main.go:44-193 | along every path that crosses no unexported field, the node of the copy is the copy of the original's node |
| `SanitizeProperties.CopyUnexportedField` | main.go:100-115 | an unexported field reached on an exported path is copied with both flags set, and the copy's field is read-only |
| `SanitizeProperties.ExportedStringUpdated` | main.go:202-207 | in a successful copy, a string reached without crossing an unexported field is of type `string` and becomes `original + "_updated"` |
| `SanitizeProperties.UnexportedStringKept` | main.go:208-215 | a string in an unexported field is copied unchanged |
| `SanitizeProperties.NamedStringPanics` | main.go:204 | a value of a named string type on an exported path makes the call panic |
| `SanitizeProperties.ExportedScalarKept` | main.go:221-223 | a non-string leaf on an exported path is copied unchanged |
| `SanitizeProperties.UnexportedFieldCopied` | main.go:135-215 | in a successful copy, an unexported field holding a string (of type `string`) or other leaf is unchanged; a slice or map is nil, and the map was empty; a pointer was nil and stays nil; the field is never a struct or an interface |
| `SanitizeProperties.PointerCopied` | main.go:52-64 | a nil pointer stays nil; a non-nil pointer gets a target holding the copy of the referent |
| `SanitizeProperties.ExportedSliceCopied` | main.go:139-170 | an exported slice, nil or not, becomes a non-nil slice with the same element type, length and capacity, and element i is the copy of element i |
| `SanitizeProperties.ExportedMapCopied` | main.go:181-193 | an exported map becomes a non-nil map with exactly the original's keys, each holding the copy of the original's value |
| `SanitizeProperties.StepPanics` | main.go:64-191 | a panic in the copy of a child reached by an exported step is a panic of the parent's copy |
| `SanitizeProperties.PanicPropagates` | main.go:33 | a panic anywhere along an exported path aborts the whole call |
| `SanitizeProperties.UnexportedFieldPanics` | main.go:62-211 | the call panics on these unexported fields: a non-nil pointer (line 62), an interface (line 72), a struct (line 101), a non-empty map (line 192), a value of a named string type (line 211) |
| `SanitizeProperties.NilInterfacePanics` | main.go:76-79 | an interface holding nil, on an exported path, makes the call panic |
| `SanitizeProperties.PlainNeverPanics` | main.go:44-232 | a value with no unexported field, no nil interface and no named string type anywhere is always copied without panic |
| `SanitizeProperties.NilPointerNeverPanics` | main.go:52-56 | a nil pointer is copied as nil without failing, whatever the flags |
| `SanitizeProperties.CopyPreservesWellTyped` | main.go:62-190 | a successful copy of a well-typed value is well typed: fresh targets, elements and map values have the declared types |
| `SanitizeProperties.SanitizedKeepsType` | main.go:26 | `sanitize` returns a well-typed value of its argument's dynamic type |
| `SanitizeScenarios.PrivateFieldsUnchanged` | main_test.go:29-47 | a struct whose fields are all unexported comes back unchanged |
| `SanitizeScenarios.PublicFieldsUpdated` | main_test.go:48-66 | with exported fields, the string becomes `"this is string_updated"` and the int and float32 fields are unchanged |
| `SanitizeScenarios.PointerToPrivateFieldsUnchanged` | main_test.go:67-85 | a pointer to the private-field struct yields a pointer to an equal struct |
| `SanitizeScenarios.PointerToPublicFieldsUpdated` | main_test.go:86-104 | a pointer to the public-field struct yields a pointer to the updated struct, of the same type |
| `SanitizeScenarios.NilPointerArgument` | main.go:52-56 | a nil pointer argument comes back nil |
| `SanitizeScenarios.NilArgumentPanics` | main.go:25-26 | a nil `interface{}` argument panics |
| `SanitizeScenarios.StringSliceUpdated` | main.go:159-168 | `[]string{"a","b"}` becomes `[]string{"a_updated","b_updated"}` with its capacity kept |
| `SanitizeScenarios.NilSliceBecomesEmpty` | main.go:140 | a nil slice becomes an empty, non-nil slice |
| `SanitizeScenarios.StringMapUpdated` | main.go:181-193 | `map[string]string{"k":"v"}` becomes `{"k":"v_updated"}` |
| `SanitizeScenarios.UnexportedSliceLost` | main.go:141-142 | a non-empty unexported `[]string` field is nil in the copy |
| `SanitizeScenarios.NamedStringFieldPanics` | main.go:204-211 | with `type Name string`, a struct with an exported or an unexported `Name` field makes the call panic |

## Left out

- Tracing: the output of `fmt.Printf` is I/O with no effect on the result, so it is left out. Three of its arguments can panic, and those panics are modelled: `original.Interface()` at main.go:72, and the assertions `.(string)` at main.go:204 and 211.
- The HTML policy `p`: it is never consulted (main.go:201 is commented out), so it is not a parameter of the model.
- The `unsafe.Pointer`/`reflect.NewAt` mechanics of the two helpers: they are modelled only as a read or write that ignores the read-only flag.
- Addressability is not tracked. Every destination is addressable. The only read-only values that are not addressable are the values of unexported maps. A non-empty unexported map always panics: the copy of its first value either panics itself (in `UnsafeAddr`, `converted.Set` or `Interface()`) or comes back, and then `SetMapIndex` panics on the read-only key. The model reaches the panic at `SetMapIndex`.
- Panic messages: the outcome is just `Panic`, without saying which reflect check fired. In a map, which check fires first depends on the iteration order.
- Map iteration order: the keys are a set, and the loop takes any remaining key.
- Every kind other than pointer, interface, struct, slice, map and string is an opaque `Scalar(type, bits)`: numbers, booleans, arrays, channels, functions. Float semantics are not modelled. An array is copied as a whole value, so strings inside it are not transformed, as in the code.
- Map keys are limited to string and scalar keys. Keys are never traversed.
- Named types of other kinds are not distinguished from their underlying types, because the code never asserts on them. Interface types are not distinguished by their method sets. Embedded fields are treated as ordinary fields with their own export status.
- The assignability checks of `Set` are left out, and so is the length check of `MakeSlice`. The inputs are well typed, so neither check can fail.
- Cycles and shared targets: values are finite trees, and a pointer holds its target inline. The fresh allocations at main.go:62, 140 and 182 appear as `NewPointer`, `MakeSlice` and `MakeMap`. Their visible effect is stated in `PointerCopied`, `ExportedSliceCopied` and `ExportedMapCopied`.
- Detachment, meaning the copy shares no storage with the original, is not a separate lemma. The model's values are immutable, so sharing cannot be observed in it. The code does not fully detach the copy: its default branch (main.go:223, 226-229) copies an array by value and a channel or function by reference, so any pointer, slice or map inside an array stays shared with the original. The opaque `Scalar` hides this.
- The write into a destination in place is modelled as returning the destination's new value. For a struct field, slice element or pointer target, that value is written back into the parent (`StoreField`, `SetIndex`, `StoreTarget`). Aliasing between reflect.Values is therefore not modelled.
- The empty `main()`, `Foo`/`TestSlice` (an append demonstration) and the commented-out test in main_test.go assert nothing about the core, so they are left out.
