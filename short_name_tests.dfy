/** The declarations of the repository's test crate (tests/src/lib.rs) as `Decl`
    values, and what the derive model says `as_short_name` returns on them.

    The test crate expects word-split labels ("Unnamed Variant1"); the generator
    emits each identifier unchanged. The lemmas below state the labels the generator
    does produce; `SpacedExpectationsNotMet` collects where they differ from the
    strings the test crate asserts.
 */
module ShortNameTests {
  import opened ShortNameDerive

  function NoFieldsStruct(): Decl { Struct(Ident("NoFieldsStruct")) }
  function UnnamedFieldsStruct(): Decl { Struct(Ident("UnnamedFieldsStruct")) }
  function NamedFieldsStruct(): Decl { Struct(Ident("NamedFieldsStruct")) }

  function UnnamedVariantsEnum(): Decl {
    Enum(Ident("UnnamedVariantsEnum"), [
      Variant(Ident("UnnamedVariant1"), Tuple),
      Variant(Ident("AnotherOneUnnamedVariant"), Tuple),
      Variant(Ident("TheLastOneUnnamedVariant"), Tuple)])
  }

  function NamedVariantsEnum(): Decl {
    Enum(Ident("NamedVariantsEnum"), [
      Variant(Ident("NamedVariant1"), Named),
      Variant(Ident("AnotherOneNamedVariant"), Named),
      Variant(Ident("TheLastOneNamedVariant"), Named)])
  }

  function UnitsEnum(): Decl {
    Enum(Ident("UnitsEnum"), [
      Variant(Ident("VariantUnit1"), Unit),
      Variant(Ident("AnotherOneVariantUnit"), Unit),
      Variant(Ident("TheLastOneVariantUnit"), Unit)])
  }

  function MixedEnum(): Decl {
    Enum(Ident("MixedEnum"), [
      Variant(Ident("UnnamedVariant1"), Tuple),
      Variant(Ident("AnotherOneNamedVariant"), Named),
      Variant(Ident("TheLastOneVariantUnit"), Unit)])
  }

  /** The three test structs get their identifiers, whatever their fields hold. */
  lemma StructLabels(v: Value)
    ensures ShortName(NoFieldsStruct(), v) == Some("NoFieldsStruct")
    ensures ShortName(UnnamedFieldsStruct(), v) == Some("UnnamedFieldsStruct")
    ensures ShortName(NamedFieldsStruct(), v) == Some("NamedFieldsStruct")
  {
    ConstantLabel(NoFieldsStruct(), v);
    ConstantLabel(UnnamedFieldsStruct(), v);
    ConstantLabel(NamedFieldsStruct(), v);
  }

  /** Every variant of the tuple-variant enum gets its identifier, whatever its payload. */
  lemma UnnamedVariantsLabels(a: seq<int>, b: seq<int>, c: seq<int>)
    ensures ShortName(UnnamedVariantsEnum(), Value(0, Positional(a))) == Some("UnnamedVariant1")
    ensures ShortName(UnnamedVariantsEnum(), Value(1, Positional(b))) == Some("AnotherOneUnnamedVariant")
    ensures ShortName(UnnamedVariantsEnum(), Value(2, Positional(c))) == Some("TheLastOneUnnamedVariant")
  {
    ShortNameIsExpected(UnnamedVariantsEnum(), Value(0, Positional(a)));
    ShortNameIsExpected(UnnamedVariantsEnum(), Value(1, Positional(b)));
    ShortNameIsExpected(UnnamedVariantsEnum(), Value(2, Positional(c)));
  }

  /** Every variant of the named-field enum gets its identifier, whatever its payload. */
  lemma NamedVariantsLabels(a: seq<(string, int)>, b: seq<(string, int)>, c: seq<(string, int)>)
    ensures ShortName(NamedVariantsEnum(), Value(0, Keyed(a))) == Some("NamedVariant1")
    ensures ShortName(NamedVariantsEnum(), Value(1, Keyed(b))) == Some("AnotherOneNamedVariant")
    ensures ShortName(NamedVariantsEnum(), Value(2, Keyed(c))) == Some("TheLastOneNamedVariant")
  {
    ShortNameIsExpected(NamedVariantsEnum(), Value(0, Keyed(a)));
    ShortNameIsExpected(NamedVariantsEnum(), Value(1, Keyed(b)));
    ShortNameIsExpected(NamedVariantsEnum(), Value(2, Keyed(c)));
  }

  /** Every variant of the unit enum gets its identifier. */
  lemma UnitsLabels()
    ensures ShortName(UnitsEnum(), Value(0, NoFields)) == Some("VariantUnit1")
    ensures ShortName(UnitsEnum(), Value(1, NoFields)) == Some("AnotherOneVariantUnit")
    ensures ShortName(UnitsEnum(), Value(2, NoFields)) == Some("TheLastOneVariantUnit")
  {
    ShortNameIsExpected(UnitsEnum(), Value(0, NoFields));
    ShortNameIsExpected(UnitsEnum(), Value(1, NoFields));
    ShortNameIsExpected(UnitsEnum(), Value(2, NoFields));
  }

  /** In the mixed enum each variant gets its own identifier, unaffected by the
      shapes of the others; this includes the unit variant, which the test crate's
      own mixed-enum test builds from `UnitsEnum` instead. */
  lemma MixedLabels(a: seq<int>, b: seq<(string, int)>)
    ensures ShortName(MixedEnum(), Value(0, Positional(a))) == Some("UnnamedVariant1")
    ensures ShortName(MixedEnum(), Value(1, Keyed(b))) == Some("AnotherOneNamedVariant")
    ensures ShortName(MixedEnum(), Value(2, NoFields)) == Some("TheLastOneVariantUnit")
  {
    ShortNameIsExpected(MixedEnum(), Value(0, Positional(a)));
    ShortNameIsExpected(MixedEnum(), Value(1, Keyed(b)));
    ShortNameIsExpected(MixedEnum(), Value(2, NoFields));
  }

  /** The generated labels are not the space-separated strings the test crate
      asserts: each `assert_eq!` of tests/src/lib.rs compares against a string the
      generated `as_short_name` does not return. */
  lemma SpacedExpectationsNotMet(v: Value, a: seq<int>, b: seq<(string, int)>)
    ensures ShortName(NoFieldsStruct(), v) != Some("No Fields Struct")
    ensures ShortName(UnnamedFieldsStruct(), v) != Some("Unnamed Fields Struct")
    ensures ShortName(NamedFieldsStruct(), v) != Some("Named Fields Struct")
    ensures ShortName(UnnamedVariantsEnum(), Value(0, Positional(a))) != Some("Unnamed Variant1")
    ensures ShortName(UnnamedVariantsEnum(), Value(1, Positional(a))) != Some("Another One Unnamed Variant")
    ensures ShortName(UnnamedVariantsEnum(), Value(2, Positional(a))) != Some("The Last One Unnamed Variant")
    ensures ShortName(NamedVariantsEnum(), Value(0, Keyed(b))) != Some("Named Variant1")
    ensures ShortName(NamedVariantsEnum(), Value(1, Keyed(b))) != Some("Another One Named Variant")
    ensures ShortName(NamedVariantsEnum(), Value(2, Keyed(b))) != Some("The Last One Named Variant")
    ensures ShortName(UnitsEnum(), Value(0, NoFields)) != Some("Variant Unit1")
    ensures ShortName(UnitsEnum(), Value(1, NoFields)) != Some("Another One Variant Unit")
    ensures ShortName(UnitsEnum(), Value(2, NoFields)) != Some("The Last One Variant Unit")
    ensures ShortName(MixedEnum(), Value(0, Positional(a))) != Some("Unnamed Variant1")
    ensures ShortName(MixedEnum(), Value(1, Keyed(b))) != Some("Another One Named Variant")
  {
    StructLabels(v);
    UnnamedVariantsLabels(a, a, a);
    NamedVariantsLabels(b, b, b);
    UnitsLabels();
    MixedLabels(a, b);
  }
}
