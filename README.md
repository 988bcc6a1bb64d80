# short-name: the `AsShortName` derive, modelled in Dafny

`AsShortName` is a Rust derive macro that reads a type declaration and generates the
body of `ShortName::as_short_name`:

- For a struct or a union, the body is a constant string: the type's identifier.
- For an enum, the body is `match self { Enum::Variant <pattern> => "Variant", ... }`.
  There is one arm per declared variant, in declaration order, and no fallback arm.
  Each arm's pattern is a rest pattern chosen from the variant's field shape alone:
  `{ .. }` for named fields, `(..)` for tuple fields, nothing for a unit variant.

The model has two parts.

- `ShortNameDerive` (short_name_derive.dfy) holds the generator. It takes a declaration
  (`Decl`: struct, union, or enum with ordered `Variant`s of a `Shape`) and produces a
  `Body`: a `Const` label, or a `Match` of `Arm`s. It also gives the generated body a
  meaning: `Eval` runs the body on a `Value`, which is a variant index plus a payload,
  the way Rust's `match` picks the first matching arm. `ShortName(d, v)` is what the
  generated `as_short_name` returns. `ExpectedLabel` is the reference definition it is
  proved against.
- `ShortNameTests` (short_name_tests.dfy) writes the declarations of the repository's
  test crate as `Decl` values. It states what the generated code returns for each of
  them.

Three points where the generator may not do what a reader expects:

- Labels are the identifiers unchanged. The generator contains no word splitter:
  short-name-derive/src/lib.rs:55, 63 and 89 call `to_string()` only, so none is
  modelled. The test crate expects space-separated words, e.g. "No Fields Struct" at
  tests/src/lib.rs:130. The lemmas in `ShortNameTests` prove that the generated label is
  the identifier, and `SpacedExpectationsNotMet` that it is not the spaced string the
  tests assert.
- An enum with no variants is not rejected by the generator: it emits `match self {}`
  (`EmptyEnum`). Rust's exhaustiveness check then refuses that match, because `self` is
  a reference there.
- Duplicate variant names are not checked by the generator. Rust itself rejects them when
  it compiles the enum. The label theorem does not need unique names; only `UniqueArm`
  ("exactly one arm matches") assumes them.

## Model

| member | source | states |
|---|---|---|
| `ShortNameDerive.VariantsFromPunctuated` | short-name-derive/src/lib.rs:70-74 | one identifier per variant, same length, entry i is variant i's identifier |
| `ShortNameDerive.FieldsPattern` | short-name-derive/src/lib.rs:79-83 | the pattern chosen from the shape is one Rust accepts for that shape, and it matches every payload of that shape |
| `ShortNameDerive.VariantsFieldsFromPunctuated` | short-name-derive/src/lib.rs:76-84 | one pattern per variant, same length, entry i depends only on variant i's shape |
| `ShortNameDerive.VariantsNamesFromPunctuated` | short-name-derive/src/lib.rs:86-90 | one string per variant, same length, entry i is variant i's identifier text |
| `ShortNameDerive.Repeat` | short-name-derive/src/lib.rs:45-51 | quote's repetition advances the three sequences together: as many arms as the shortest sequence, arm i built from entry i of each |
| `ShortNameDerive.GenerateEnum` | short-name-derive/src/lib.rs:37-52 | exactly one arm per variant, in declaration order; arm i names the enum and variant i, uses variant i's shape pattern, and returns variant i's identifier; every arm names a declared variant, so there is no fallback arm |
| `ShortNameDerive.GenerateStruct` | short-name-derive/src/lib.rs:54-60 | the body is a constant, and every call of the emitted method returns the struct's identifier |
| `ShortNameDerive.GenerateUnion` | short-name-derive/src/lib.rs:62-68 | the body is a constant, and every call of the emitted method returns the union's identifier |
| `ShortNameDerive.GenerateBody` | short-name-derive/src/lib.rs:28-35 | the body is a `match` exactly when the declaration is an enum, and then it is the enum generator's output; otherwise it is the type's identifier as a constant |
| `ShortNameDerive.FirstMatchYields` | short-name-derive/src/lib.rs:45-51 | if some arm matches and every matching arm carries the same label, the generated match returns that label |
| `ShortNameDerive.ConstantLabel` | short-name-derive/src/lib.rs:28-68 | structs and unions get a constant body, and every value gets the type's identifier |
| `ShortNameDerive.ShortNameIsExpected` | short-name-derive/src/lib.rs:28-90 | for every value a declaration admits, the generated code returns the expected label: the type's identifier for a struct or union, the held variant's identifier for an enum |
| `ShortNameDerive.Exhaustive` | short-name-derive/src/lib.rs:45-51 | no admitted value falls through the generated match |
| `ShortNameDerive.PayloadIrrelevant` | short-name-derive/src/lib.rs:79-83 | two values of the same variant get the same label whatever their payloads |
| `ShortNameDerive.OtherShapesIrrelevant` | short-name-derive/src/lib.rs:41-51 | a variant's label does not depend on the shapes of the other variants |
| `ShortNameDerive.UniqueArm` | short-name-derive/src/lib.rs:45-51 | with unique variant names, arm j matches a value if and only if j is the index of the variant the value holds |
| `ShortNameDerive.EmptyEnum` | short-name-derive/src/lib.rs:37-52 | the generator emits a match with no arms for an enum with no variants, not an error, and the enum has no values |
| `ShortNameDerive.AsShortName` | short-name-derive/src/lib.rs:10-26 | the impl is for the input type's own identifier, and its method returns the expected label on every admitted value |
| `ShortNameTests.StructLabels` | tests/src/lib.rs:126-148 | the three test structs get their identifiers, not the spaced labels the tests expect |
| `ShortNameTests.UnnamedVariantsLabels` | tests/src/lib.rs:62-79 | each tuple variant gets its identifier whatever its payload |
| `ShortNameTests.NamedVariantsLabels` | tests/src/lib.rs:81-99 | each named-field variant gets its identifier whatever its payload |
| `ShortNameTests.UnitsLabels` | tests/src/lib.rs:101-110 | each unit variant gets its identifier |
| `ShortNameTests.MixedLabels` | tests/src/lib.rs:112-124 | in the mixed enum each variant gets its identifier, its unit variant included |
| `ShortNameTests.SpacedExpectationsNotMet` | tests/src/lib.rs:62-148 | the generated labels differ from the space-separated strings the test crate asserts |

## Left out

- Token plumbing: `parse_macro_input!`, `quote!` token construction and `.into()` are
  calls into syn, quote and proc_macro. Their results are modelled as the `Decl`, `Body`,
  `Arm` and `Impl` datatypes, not as token text.
- Word splitting: the generator contains none (short-name-derive/src/lib.rs:55, 63, 89
  call `to_string()` only). Labels are the identifiers unchanged, as it computes them.
- Exhaustive: it is a statement about the model's match semantics. The model does not
  cover rustc's own exhaustiveness check of the emitted match, which refuses
  `match self {}` on a reference for an enum with no variants.
- The `ShortName` trait, the `&self -> &str` borrowing, and attaching the impl to the
  type are Rust host wiring, not logic.
- Generics, attributes and visibility of the derive input: the generator ignores them.
- Field types and values: a payload carries stand-in integers, since the generated code
  never reads them.
- Determinism has no separate lemma. `AsShortName` is a Dafny function, so the same
  declaration always yields the same impl.
- Raw identifiers (`r#name`) and their `to_string()` spelling are not modelled;
  an identifier is its text.
