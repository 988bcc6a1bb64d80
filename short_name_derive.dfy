/** Model of the `AsShortName` derive macro (short-name-derive/src/lib.rs).

    The macro reads the shape of a type declaration and emits the body of
    `as_short_name`: a constant label for structs and unions, and a `match self`
    with one arm per variant for enums. Token parsing and token construction are
    replaced by the abstract `Decl` and `Body` datatypes below, and a small
    evaluator (`Eval`) gives the emitted body a meaning, so that what the
    generated code returns for a value can be stated and proved.
 */
module ShortNameDerive {

  datatype Option<T> = None | Some(value: T)

  /** An identifier token (`syn::Ident`); `text` is what `to_string()` yields. */
  datatype Ident = Ident(text: string)

  /** The field shape of a variant, after syn's `Fields`: `Unit`, `Unnamed` (here `Tuple`)
      or `Named`. */
  datatype Shape = Unit | Tuple | Named

  datatype Variant = Variant(ident: Ident, shape: Shape)

  /** The part of a `DeriveInput` the macro reads: the kind of `data`, the type's
      identifier and, for an enum, its variants in declaration order. */
  datatype Decl =
    | Struct(name: Ident)
    | Union(name: Ident)
    | Enum(name: Ident, variants: seq<Variant>)

  /** The field pattern emitted after a variant path: nothing, `(..)` or `{ .. }`. */
  datatype Pattern = Bare | TupleRest | BraceRest

  /** One emitted arm `EnumName :: Variant pattern => "label",`. */
  datatype Arm = Arm(enumName: Ident, variant: Ident, pattern: Pattern, lit: string)

  /** The emitted body of `as_short_name`: a string literal, or `match self { arms }`. */
  datatype Body = Const(lit: string) | Match(arms: seq<Arm>)

  /** The emitted `impl ShortName for target { fn as_short_name(&self) -> &str { body } }`. */
  datatype Impl = Impl(target: Ident, body: Body)

  /** The payload of a runtime value. Field values are stand-ins: the generated
      code never reads them. */
  datatype Payload = NoFields | Positional(items: seq<int>) | Keyed(fields: seq<(string, int)>)

  /** A runtime value of the derived type: the index of the variant it holds
      (0 for a struct or a union) and its payload. */
  datatype Value = Value(variant: nat, payload: Payload)

  // ---------------------------------------------------------------------------
  // Runtime semantics of values and of the emitted code
  // ---------------------------------------------------------------------------

  /** `to_string()` on an identifier. */
  function ToString(id: Ident): string {
    id.text
  }

  /** A payload has the form its variant's shape declares. */
  predicate Fits(p: Payload, s: Shape) {
    match s
    case Unit => p.NoFields?
    case Tuple => p.Positional?
    case Named => p.Keyed?
  }

  /** The values a declaration admits: for an enum, a declared variant index with a
      payload of that variant's shape. */
  predicate ValidValue(d: Decl, v: Value) {
    match d
    case Struct(_) => v.variant == 0
    case Union(_) => v.variant == 0
    case Enum(_, vs) => v.variant < |vs| && Fits(v.payload, vs[v.variant].shape)
  }

  /** Rust's compile-time check of a field pattern against a variant's shape: a bare
      path names only a unit variant, `(..)` only a tuple variant, and `{ .. }`
      is accepted for every shape. */
  predicate Admits(pat: Pattern, s: Shape) {
    match pat
    case Bare => s == Unit
    case TupleRest => s == Tuple
    case BraceRest => true
  }

  /** Whether a rest pattern matches a payload at run time. */
  predicate PatternMatches(pat: Pattern, p: Payload) {
    match pat
    case Bare => p.NoFields?
    case TupleRest => p.Positional?
    case BraceRest => true
  }

  /** An arm `E :: V pat` matches `self` when `E` is the type's own name, `V` is the
      name of the variant `self` holds, and `pat` matches its payload. */
  predicate ArmMatches(arm: Arm, self: Decl, v: Value) {
    && self.Enum?
    && arm.enumName == self.name
    && v.variant < |self.variants|
    && self.variants[v.variant].ident == arm.variant
    && PatternMatches(arm.pattern, v.payload)
  }

  /** Rust's `match`: the label of the first arm that matches, `None` if none does. */
  function FirstMatch(arms: seq<Arm>, self: Decl, v: Value): Option<string> {
    if arms == [] then None
    else if ArmMatches(arms[0], self, v) then Some(arms[0].lit)
    else FirstMatch(arms[1..], self, v)
  }

  /** What the emitted body returns when `as_short_name` is called on `v`. */
  function Eval(body: Body, self: Decl, v: Value): Option<string> {
    match body
    case Const(lit) => Some(lit)
    case Match(arms) => FirstMatch(arms, self, v)
  }

  /** The label the derive is meant to produce: the type's own name for a struct or
      a union, and the held variant's name for an enum. */
  function ExpectedLabel(d: Decl, v: Value): string
    requires ValidValue(d, v)
  {
    match d
    case Struct(name) => ToString(name)
    case Union(name) => ToString(name)
    case Enum(_, vs) => ToString(vs[v.variant].ident)
  }

  predicate UniqueNames(vs: seq<Variant>) {
    forall i, j :: 0 <= i < |vs| && 0 <= j < |vs| && vs[i].ident == vs[j].ident ==> i == j
  }

  // ---------------------------------------------------------------------------
  // The generator
  // ---------------------------------------------------------------------------

  /** `variants_from_punctuated`: the variant identifiers, in order. */
  function VariantsFromPunctuated(vs: seq<Variant>): (r: seq<Ident>)
    ensures |r| == |vs|
    ensures forall i :: 0 <= i < |vs| ==> r[i] == vs[i].ident
  {
    if vs == [] then [] else [vs[0].ident] + VariantsFromPunctuated(vs[1..])
  }

  /** The closure of `variants_fields_from_punctuated`: a rest pattern chosen from the
      shape alone, which the compiler accepts for that shape and which matches
      every payload of that shape. */
  function FieldsPattern(s: Shape): (r: Pattern)
    ensures Admits(r, s)
    ensures forall p :: Fits(p, s) ==> PatternMatches(r, p)
  {
    match s
    case Named => BraceRest
    case Tuple => TupleRest
    case Unit => Bare
  }

  /** `variants_fields_from_punctuated`: the field pattern of each variant, in order. */
  function VariantsFieldsFromPunctuated(vs: seq<Variant>): (r: seq<Pattern>)
    ensures |r| == |vs|
    ensures forall i :: 0 <= i < |vs| ==> r[i] == FieldsPattern(vs[i].shape)
  {
    if vs == [] then [] else [FieldsPattern(vs[0].shape)] + VariantsFieldsFromPunctuated(vs[1..])
  }

  /** `variants_names_from_punctuated`: each variant's identifier as a string, in order. */
  function VariantsNamesFromPunctuated(vs: seq<Variant>): (r: seq<string>)
    ensures |r| == |vs|
    ensures forall i :: 0 <= i < |vs| ==> r[i] == ToString(vs[i].ident)
  {
    if vs == [] then [] else [ToString(vs[0].ident)] + VariantsNamesFromPunctuated(vs[1..])
  }

  function Min(a: nat, b: nat): nat {
    if a <= b then a else b
  }

  /** quote's repetition `#( #enum_name :: #variants #variants_fields => #variants_names, )*`:
      the three iterators are advanced together and the repetition stops as soon as
      one of them runs out. */
  function Repeat(enumName: Ident, idents: seq<Ident>, pats: seq<Pattern>, labels: seq<string>): (r: seq<Arm>)
    ensures |r| == Min(Min(|idents|, |pats|), |labels|)
    ensures forall i :: 0 <= i < |r| ==> r[i] == Arm(enumName, idents[i], pats[i], labels[i])
  {
    if idents == [] || pats == [] || labels == [] then []
    else [Arm(enumName, idents[0], pats[0], labels[0])] + Repeat(enumName, idents[1..], pats[1..], labels[1..])
  }

  /** `generate_enum`: `match self` with exactly one arm per declared variant, in
      declaration order; arm i names variant i, uses the pattern of its shape and
      returns its name. No arm is a fallback: every arm names a declared variant. */
  function GenerateEnum(vs: seq<Variant>, enumName: Ident): (r: Body)
    ensures r.Match? && |r.arms| == |vs|
    ensures forall i :: 0 <= i < |vs| ==>
      r.arms[i] == Arm(enumName, vs[i].ident, FieldsPattern(vs[i].shape), ToString(vs[i].ident))
  {
    var variants := VariantsFromPunctuated(vs);
    var variantsFields := VariantsFieldsFromPunctuated(vs);
    var variantsNames := VariantsNamesFromPunctuated(vs);
    Match(Repeat(enumName, variants, variantsFields, variantsNames))
  }

  /** `generate_struct`: the struct's name as a string literal, which every call of
      the emitted method returns. */
  function GenerateStruct(structName: Ident): (r: Body)
    ensures r.Const?
    ensures forall self, v :: Eval(r, self, v) == Some(ToString(structName))
  {
    Const(ToString(structName))
  }

  /** `generate_union`: the union's name as a string literal, which every call of
      the emitted method returns. */
  function GenerateUnion(unionName: Ident): (r: Body)
    ensures r.Const?
    ensures forall self, v :: Eval(r, self, v) == Some(ToString(unionName))
  {
    Const(ToString(unionName))
  }

  /** `generate_body`: dispatch on the kind of the declaration. Only an enum gets a
      `match`; a struct or a union gets its own identifier as a constant. */
  function GenerateBody(d: Decl): (r: Body)
    ensures r.Match? <==> d.Enum?
    ensures d.Enum? ==> r == GenerateEnum(d.variants, d.name)
    ensures !d.Enum? ==> r == Const(ToString(d.name))
  {
    match d
    case Enum(name, vs) => GenerateEnum(vs, name)
    case Struct(name) => GenerateStruct(name)
    case Union(name) => GenerateUnion(name)
  }

  /** `as_short_name` calls the emitted body on `v`. */
  function ShortName(d: Decl, v: Value): Option<string> {
    Eval(GenerateBody(d), d, v)
  }

  // ---------------------------------------------------------------------------
  // What the generated code returns
  // ---------------------------------------------------------------------------

  /** If some arm matches and every matching arm carries `lit`, the match yields `lit`. */
  lemma {:induction false} FirstMatchYields(arms: seq<Arm>, self: Decl, v: Value, k: nat, lit: string)
    requires k < |arms| && ArmMatches(arms[k], self, v)
    requires forall j :: 0 <= j < |arms| && ArmMatches(arms[j], self, v) ==> arms[j].lit == lit
    ensures FirstMatch(arms, self, v) == Some(lit)
  {
    if !ArmMatches(arms[0], self, v) {
      FirstMatchYields(arms[1..], self, v, k - 1, lit);
    }
  }

  /** Kind dispatch for structs and unions: the body is a constant, so every value,
      whatever its payload, gets the type's own identifier. */
  lemma ConstantLabel(d: Decl, v: Value)
    requires d.Struct? || d.Union?
    ensures GenerateBody(d).Const?
    ensures ShortName(d, v) == Some(ToString(d.name))
  {
  }

  /** The generated code is exhaustive and correct: every value the declaration
      admits gets a label, and it is `ExpectedLabel` (the type's identifier, or the
      held variant's identifier). Unique variant names are not needed for this: a
      matching arm always names the held variant's identifier. */
  lemma {:induction false} ShortNameIsExpected(d: Decl, v: Value)
    requires ValidValue(d, v)
    ensures ShortName(d, v) == Some(ExpectedLabel(d, v))
  {
    if d.Enum? {
      var vs, i := d.variants, v.variant;
      var arms := GenerateEnum(vs, d.name).arms;
      forall j | 0 <= j < |arms| && ArmMatches(arms[j], d, v)
        ensures arms[j].lit == ExpectedLabel(d, v)
      {
        assert vs[j].ident == vs[i].ident;
      }
      FirstMatchYields(arms, d, v, i, ExpectedLabel(d, v));
    }
  }

  /** Exhaustiveness: no value the declaration admits falls through the match. */
  lemma Exhaustive(d: Decl, v: Value)
    requires ValidValue(d, v)
    ensures ShortName(d, v).Some?
  {
    ShortNameIsExpected(d, v);
  }

  /** The payload never affects the label. */
  lemma PayloadIrrelevant(d: Decl, i: nat, p: Payload, q: Payload)
    requires ValidValue(d, Value(i, p)) && ValidValue(d, Value(i, q))
    ensures ShortName(d, Value(i, p)) == ShortName(d, Value(i, q))
  {
    ShortNameIsExpected(d, Value(i, p));
    ShortNameIsExpected(d, Value(i, q));
  }

  /** The shapes of the other variants do not affect a variant's label: two enums that
      agree on the name and on every variant identifier, and on the shape of the
      held variant, label the value alike. */
  lemma OtherShapesIrrelevant(name: Ident, vs: seq<Variant>, ws: seq<Variant>, v: Value)
    requires |vs| == |ws|
    requires forall j :: 0 <= j < |vs| ==> vs[j].ident == ws[j].ident
    requires v.variant < |vs| && vs[v.variant].shape == ws[v.variant].shape
    requires Fits(v.payload, vs[v.variant].shape)
    ensures ShortName(Enum(name, vs), v) == ShortName(Enum(name, ws), v)
  {
    ShortNameIsExpected(Enum(name, vs), v);
    ShortNameIsExpected(Enum(name, ws), v);
  }

  /** With unique variant names, exactly one arm matches a value: the arm of the
      variant it holds. */
  lemma UniqueArm(name: Ident, vs: seq<Variant>, v: Value)
    requires UniqueNames(vs)
    requires ValidValue(Enum(name, vs), v)
    ensures forall j :: 0 <= j < |GenerateEnum(vs, name).arms| ==>
      (ArmMatches(GenerateEnum(vs, name).arms[j], Enum(name, vs), v) <==> j == v.variant)
  {
    var arms := GenerateEnum(vs, name).arms;
    forall j | 0 <= j < |arms|
      ensures ArmMatches(arms[j], Enum(name, vs), v) <==> j == v.variant
    {
      if j == v.variant {
        assert Fits(v.payload, vs[j].shape);
      }
    }
  }

  /** The generator does not reject an enum with no variants: it emits `match self {}`,
      and no value of the enum exists. (Rust's own exhaustiveness check then refuses
      that match, because `self` is a reference; that check is not modelled.) */
  lemma EmptyEnum(name: Ident, v: Value)
    ensures GenerateBody(Enum(name, [])) == Match([])
    ensures !ValidValue(Enum(name, []), v)
  {
  }

  /** `as_short_name`, the macro entry point: the impl is for the input type's own
      identifier, and its method returns the expected label on every value the
      type admits. */
  function AsShortName(d: Decl): (r: Impl)
    ensures r.target == d.name
    ensures forall v :: ValidValue(d, v) ==> Eval(r.body, d, v) == Some(ExpectedLabel(d, v))
  {
    assert forall v :: ValidValue(d, v) ==> ShortName(d, v) == Some(ExpectedLabel(d, v)) by {
      forall v | ValidValue(d, v)
        ensures ShortName(d, v) == Some(ExpectedLabel(d, v))
      {
        ShortNameIsExpected(d, v);
      }
    }
    Impl(d.name, GenerateBody(d))
  }
}
