/**
 * The validation rule pipeline of src/rule-factories.ts: ten guarded leaf
 * factories and three object factories, each a total function from a schema
 * node to an optional rule, combined by an ordered filter-map.
 */
module RuleFactories {
  import opened Wrappers
  import opened Json
  import opened JsonSchema
  import opened Utils

  datatype RuleId =
    | StringMaxLength | StringMinLength | StringPattern | StringFormat
    | NumberMultipleOf | NumberGT | NumberGTE | NumberLT | NumberLTE
    | ArrayMinItems | ArrayMaxItems | ArrayUniqueItems

  /** The payload of a rule: a bound literal, or the constant `required: true` of `ArrayUniqueItems`. */
  datatype RuleArg = Bound(literal: TypedLiteral) | Flag

  datatype ValidationRule = ValidationRule(id: RuleId, arg: RuleArg, loc: Loc)

  datatype ObjectRuleId = ObjectMinProperties | ObjectMaxProperties

  datatype ObjectValidationRule = ObjectValidationRule(id: ObjectRuleId, bound: TypedLiteral, loc: Loc)

  // ---------------------------------------------------------------------------
  // The JavaScript tests the guards make on keyword values.
  // ---------------------------------------------------------------------------

  /** `typeof node.k?.value === 'number'`. */
  predicate IsNumber(n: Option<JsonNode>) {
    n.Some? && LiteralValue(n.value).Some? && LiteralValue(n.value).value.Num?
  }

  /** `typeof node.k?.value === 'string'` (an identifier's value is its name, a string). */
  predicate IsString(n: Option<JsonNode>) {
    n.Some? && LiteralValue(n.value).Some? && LiteralValue(n.value).value.Str?
  }

  /** A JSON number text denotes a non-zero number when a digit 1-9 occurs before any exponent. */
  predicate NonZeroNumber(text: string) {
    |text| > 0 && text[0] != 'e' && text[0] != 'E' &&
    ('1' <= text[0] <= '9' || NonZeroNumber(text[1..]))
  }

  /** JavaScript truthiness of a JSON value. */
  predicate Truthy(v: Value) {
    match v
    case Str(s) => |s| > 0
    case Num(text) => NonZeroNumber(text)
    case Bool(b) => b
    case Null => false
  }

  /** `node.k?.value` is truthy. */
  predicate IsTruthy(n: Option<JsonNode>) {
    n.Some? && LiteralValue(n.value).Some? && Truthy(LiteralValue(n.value).value)
  }

  /** `toNonNegativeIntegerLiteral`: the value and location copied, the kind set. */
  function ToNonNegativeIntegerLiteral(node: Located): (r: TypedLiteral)
    ensures r.kind == NonNegativeIntegerLiteral && r.value == node.value && r.loc == node.loc
  {
    TypedLiteral(NonNegativeIntegerLiteral, node.value, node.loc)
  }

  /** The located value of a keyword that the guard has found present. */
  function LocatedValue(n: Option<JsonNode>): Located
    requires n.Some? && LiteralValue(n.value).Some?
  {
    AsLiteral(n.value).value
  }

  // ---------------------------------------------------------------------------
  // The leaf factories, in the order of the pipeline's list.
  // ---------------------------------------------------------------------------

  datatype Factory =
    | StringMaxLengthFactory | StringMinLengthFactory | StringPatternFactory | StringFormatFactory
    | NumberMultipleOfFactory | NumberGreaterThanFactory | NumberLessThanFactory
    | ArrayMinItemsFactory | ArrayMaxItemsFactory | ArrayUniqueItemsFactory

  const Factories: seq<Factory> := [
    StringMaxLengthFactory, StringMinLengthFactory, StringPatternFactory, StringFormatFactory,
    NumberMultipleOfFactory, NumberGreaterThanFactory, NumberLessThanFactory,
    ArrayMinItemsFactory, ArrayMaxItemsFactory, ArrayUniqueItemsFactory
  ]

  /** The position of a factory in the pipeline's list. */
  function Rank(f: Factory): nat {
    match f
    case StringMaxLengthFactory => 0
    case StringMinLengthFactory => 1
    case StringPatternFactory => 2
    case StringFormatFactory => 3
    case NumberMultipleOfFactory => 4
    case NumberGreaterThanFactory => 5
    case NumberLessThanFactory => 6
    case ArrayMinItemsFactory => 7
    case ArrayMaxItemsFactory => 8
    case ArrayUniqueItemsFactory => 9
  }

  // ---------------------------------------------------------------------------
  // What each rule id stands for, stated per id.
  // ---------------------------------------------------------------------------

  /** The factory that can produce a rule id. */
  function FactoryOf(id: RuleId): Factory {
    match id
    case StringMaxLength => StringMaxLengthFactory
    case StringMinLength => StringMinLengthFactory
    case StringPattern => StringPatternFactory
    case StringFormat => StringFormatFactory
    case NumberMultipleOf => NumberMultipleOfFactory
    case NumberGT => NumberGreaterThanFactory
    case NumberGTE => NumberGreaterThanFactory
    case NumberLT => NumberLessThanFactory
    case NumberLTE => NumberLessThanFactory
    case ArrayMinItems => ArrayMinItemsFactory
    case ArrayMaxItems => ArrayMaxItemsFactory
    case ArrayUniqueItems => ArrayUniqueItemsFactory
  }

  /** The keyword a rule is read from, which is also where its location points. */
  function KeywordOf(id: RuleId): string {
    match id
    case StringMaxLength => "maxLength"
    case StringMinLength => "minLength"
    case StringPattern => "pattern"
    case StringFormat => "format"
    case NumberMultipleOf => "multipleOf"
    case NumberGT => "minimum"
    case NumberGTE => "minimum"
    case NumberLT => "maximum"
    case NumberLTE => "maximum"
    case ArrayMinItems => "minItems"
    case ArrayMaxItems => "maxItems"
    case ArrayUniqueItems => "uniqueItems"
  }

  datatype Family = StringFamily | NumericFamily | ArrayFamily

  function FamilyOf(id: RuleId): Family {
    match id
    case StringMaxLength => StringFamily
    case StringMinLength => StringFamily
    case StringPattern => StringFamily
    case StringFormat => StringFamily
    case NumberMultipleOf => NumericFamily
    case NumberGT => NumericFamily
    case NumberGTE => NumericFamily
    case NumberLT => NumericFamily
    case NumberLTE => NumericFamily
    case ArrayMinItems => ArrayFamily
    case ArrayMaxItems => ArrayFamily
    case ArrayUniqueItems => ArrayFamily
  }

  /** The `type` a family of rules requires. */
  predicate FamilyGuard(family: Family, t: Option<OneOrMany>) {
    match family
    case StringFamily => IsStringType(t)
    case NumericFamily => IsNumericType(t)
    case ArrayFamily => IsArrayType(t)
  }

  /** The kind tag of a rule's bound. */
  function KindOf(id: RuleId): LiteralKind {
    match id
    case StringPattern => NonEmptyStringLiteral
    case StringFormat => NonEmptyStringLiteral
    case NumberMultipleOf => NonNegativeNumberLiteral
    case NumberGT => NumberLiteral
    case NumberGTE => NumberLiteral
    case NumberLT => NumberLiteral
    case NumberLTE => NumberLiteral
    case _ => NonNegativeIntegerLiteral
  }

  /**
   * When a node carries a rule with this id: the family's `type`, a keyword
   * value of the right JavaScript type (a truthy one for `uniqueItems`), and
   * for the bounds the truthiness of the matching `exclusive*` keyword.
   */
  predicate Carries(id: RuleId, v: JsonNode) {
    var k := LiteralChild(v, KeywordOf(id));
    FamilyGuard(FamilyOf(id), SchemaType(v)) &&
    match id
    case StringPattern => IsString(k)
    case StringFormat => IsString(k)
    case ArrayUniqueItems => IsTruthy(k)
    case NumberGT => IsNumber(k) && IsTruthy(ExclusiveMinimum(v))
    case NumberGTE => IsNumber(k) && !IsTruthy(ExclusiveMinimum(v))
    case NumberLT => IsNumber(k) && IsTruthy(ExclusiveMaximum(v))
    case NumberLTE => IsNumber(k) && !IsTruthy(ExclusiveMaximum(v))
    case _ => IsNumber(k)
  }

  /**
   * The shape of a rule carried by `v`: located at its keyword's member, and
   * bounded by that keyword's value and location under the id's kind tag
   * (`ArrayUniqueItems` has the constant flag instead).
   */
  predicate WellFormed(rule: ValidationRule, v: JsonNode) {
    var k := LiteralChild(v, KeywordOf(rule.id));
    rule.loc == PropertyRange(v, KeywordOf(rule.id)) &&
    (rule.id == ArrayUniqueItems ==> rule.arg == Flag) &&
    (rule.id != ArrayUniqueItems ==>
      k.Some? && LiteralValue(k.value).Some? &&
      rule.arg == Bound(TypedLiteral(KindOf(rule.id), LiteralValue(k.value).value, k.value.node.loc)))
  }

  /** A factory's result: present exactly when the node carries the one id it can produce, and then well formed. */
  predicate LeafSpec(id: RuleId, v: JsonNode, r: Option<ValidationRule>) {
    (r.Some? <==> Carries(id, v)) && (r.Some? ==> r.value.id == id && WellFormed(r.value, v))
  }

  /** A bound factory's result: one of its two ids, each exactly when the node carries it. */
  predicate BoundSpec(exclusive: RuleId, inclusive: RuleId, v: JsonNode, r: Option<ValidationRule>) {
    (r.Some? <==> Carries(exclusive, v) || Carries(inclusive, v)) &&
    (r.Some? ==> (r.value.id == exclusive || r.value.id == inclusive) && Carries(r.value.id, v) && WellFormed(r.value, v))
  }

  /**
   * What a factory of the list promises: a rule it yields has one of its ids, is
   * carried by the node and is well formed, and every id it can produce that the
   * node carries is the one it yields.
   */
  predicate FactorySpec(f: Factory, v: JsonNode, r: Option<ValidationRule>) {
    (r.Some? ==> FactoryOf(r.value.id) == f && Carries(r.value.id, v) && WellFormed(r.value, v)) &&
    (forall id :: FactoryOf(id) == f && Carries(id, v) ==> r.Some? && r.value.id == id)
  }

  function StringMaxLengthRule(v: JsonNode): (r: Option<ValidationRule>)
    ensures LeafSpec(StringMaxLength, v, r)
    ensures FactorySpec(StringMaxLengthFactory, v, r)
  {
    if IsStringType(SchemaType(v)) && IsNumber(MaxLength(v)) then
      Some(ValidationRule(StringMaxLength, Bound(ToNonNegativeIntegerLiteral(LocatedValue(MaxLength(v)))), PropertyRange(v, "maxLength")))
    else None
  }

  function StringMinLengthRule(v: JsonNode): (r: Option<ValidationRule>)
    ensures LeafSpec(StringMinLength, v, r)
    ensures FactorySpec(StringMinLengthFactory, v, r)
  {
    if IsStringType(SchemaType(v)) && IsNumber(MinLength(v)) then
      Some(ValidationRule(StringMinLength, Bound(ToNonNegativeIntegerLiteral(LocatedValue(MinLength(v)))), PropertyRange(v, "minLength")))
    else None
  }

  function StringPatternRule(v: JsonNode): (r: Option<ValidationRule>)
    ensures LeafSpec(StringPattern, v, r)
    ensures FactorySpec(StringPatternFactory, v, r)
  {
    if IsStringType(SchemaType(v)) && IsString(Pattern(v)) then
      Some(ValidationRule(StringPattern, Bound(ToNonEmptyStringLiteral(LocatedOf(Pattern(v))).value), PropertyRange(v, "pattern")))
    else None
  }

  function StringFormatRule(v: JsonNode): (r: Option<ValidationRule>)
    ensures LeafSpec(StringFormat, v, r)
    ensures FactorySpec(StringFormatFactory, v, r)
  {
    if IsStringType(SchemaType(v)) && IsString(Format(v)) then
      Some(ValidationRule(StringFormat, Bound(ToNonEmptyStringLiteral(LocatedOf(Format(v))).value), PropertyRange(v, "format")))
    else None
  }

  function NumberMultipleOfRule(v: JsonNode): (r: Option<ValidationRule>)
    ensures LeafSpec(NumberMultipleOf, v, r)
    ensures FactorySpec(NumberMultipleOfFactory, v, r)
  {
    if IsNumericType(SchemaType(v)) && IsNumber(MultipleOf(v)) then
      Some(ValidationRule(NumberMultipleOf, Bound(ToNonNegativeNumberLiteral(LocatedOf(MultipleOf(v))).value), PropertyRange(v, "multipleOf")))
    else None
  }

  function NumberGreaterThanRule(v: JsonNode): (r: Option<ValidationRule>)
    ensures BoundSpec(NumberGT, NumberGTE, v, r)
    ensures FactorySpec(NumberGreaterThanFactory, v, r)
  {
    if IsNumericType(SchemaType(v)) && IsNumber(Minimum(v)) then
      Some(ValidationRule(if IsTruthy(ExclusiveMinimum(v)) then NumberGT else NumberGTE,
        Bound(ToNumberLiteral(LocatedOf(Minimum(v))).value), PropertyRange(v, "minimum")))
    else None
  }

  function NumberLessThanRule(v: JsonNode): (r: Option<ValidationRule>)
    ensures BoundSpec(NumberLT, NumberLTE, v, r)
    ensures FactorySpec(NumberLessThanFactory, v, r)
  {
    if IsNumericType(SchemaType(v)) && IsNumber(Maximum(v)) then
      Some(ValidationRule(if IsTruthy(ExclusiveMaximum(v)) then NumberLT else NumberLTE,
        Bound(ToNumberLiteral(LocatedOf(Maximum(v))).value), PropertyRange(v, "maximum")))
    else None
  }

  function ArrayMinItemsRule(v: JsonNode): (r: Option<ValidationRule>)
    ensures LeafSpec(ArrayMinItems, v, r)
    ensures FactorySpec(ArrayMinItemsFactory, v, r)
  {
    if IsArrayType(SchemaType(v)) && IsNumber(MinItems(v)) then
      Some(ValidationRule(ArrayMinItems, Bound(ToNonNegativeIntegerLiteral(LocatedValue(MinItems(v)))), PropertyRange(v, "minItems")))
    else None
  }

  function ArrayMaxItemsRule(v: JsonNode): (r: Option<ValidationRule>)
    ensures LeafSpec(ArrayMaxItems, v, r)
    ensures FactorySpec(ArrayMaxItemsFactory, v, r)
  {
    if IsArrayType(SchemaType(v)) && IsNumber(MaxItems(v)) then
      Some(ValidationRule(ArrayMaxItems, Bound(ToNonNegativeIntegerLiteral(LocatedValue(MaxItems(v)))), PropertyRange(v, "maxItems")))
    else None
  }

  function ArrayUniqueItemsRule(v: JsonNode): (r: Option<ValidationRule>)
    ensures LeafSpec(ArrayUniqueItems, v, r)
    ensures FactorySpec(ArrayUniqueItemsFactory, v, r)
  {
    if IsArrayType(SchemaType(v)) && IsTruthy(UniqueItems(v)) then
      Some(ValidationRule(ArrayUniqueItems, Flag, PropertyRange(v, "uniqueItems")))
    else None
  }

  /** A factory of the list applied to a node. */
  function Apply(f: Factory, v: JsonNode): (r: Option<ValidationRule>)
    ensures FactorySpec(f, v, r)
  {
    match f
    case StringMaxLengthFactory => StringMaxLengthRule(v)
    case StringMinLengthFactory => StringMinLengthRule(v)
    case StringPatternFactory => StringPatternRule(v)
    case StringFormatFactory => StringFormatRule(v)
    case NumberMultipleOfFactory => NumberMultipleOfRule(v)
    case NumberGreaterThanFactory => NumberGreaterThanRule(v)
    case NumberLessThanFactory => NumberLessThanRule(v)
    case ArrayMinItemsFactory => ArrayMinItemsRule(v)
    case ArrayMaxItemsFactory => ArrayMaxItemsRule(v)
    case ArrayUniqueItemsFactory => ArrayUniqueItemsRule(v)
  }

  /** Factories listed in strictly increasing pipeline order. */
  predicate InOrder(fs: seq<Factory>) {
    forall i, j :: 0 <= i < j < |fs| ==> Rank(fs[i]) < Rank(fs[j])
  }

  /** Rules whose producing factories come in strictly increasing pipeline order. */
  predicate RulesInOrder(rules: seq<ValidationRule>) {
    forall i, j :: 0 <= i < j < |rules| ==> Rank(FactoryOf(rules[i].id)) < Rank(FactoryOf(rules[j].id))
  }

  /** The generator loop: each factory's rule, when there is one, in list order. */
  function Collect(fs: seq<Factory>, v: JsonNode): (r: seq<ValidationRule>)
    ensures |r| <= |fs|
  {
    if fs == [] then []
    else
      match Apply(fs[0], v)
      case Some(rule) => [rule] + Collect(fs[1..], v)
      case None => Collect(fs[1..], v)
  }

  /** Every collected rule comes from a factory of the list, and every factory's rule is collected. */
  lemma {:induction false} CollectMembers(fs: seq<Factory>, v: JsonNode)
    ensures forall x :: x in Collect(fs, v) ==> exists j :: 0 <= j < |fs| && Apply(fs[j], v) == Some(x)
    ensures forall j :: 0 <= j < |fs| && Apply(fs[j], v).Some? ==> Apply(fs[j], v).value in Collect(fs, v)
  {
    if fs != [] {
      var rest := Collect(fs[1..], v);
      CollectMembers(fs[1..], v);
      forall x | x in rest ensures exists j :: 0 <= j < |fs| && Apply(fs[j], v) == Some(x) {
        var j :| 0 <= j < |fs[1..]| && Apply(fs[1..][j], v) == Some(x);
        assert fs[1..][j] == fs[j + 1];
      }
      forall j | 0 < j < |fs| && Apply(fs[j], v).Some? ensures Apply(fs[j], v).value in rest {
        assert fs[1..][j - 1] == fs[j];
      }
    }
  }

  /** Every collected rule has its producing factory in the list. */
  lemma CollectFactories(fs: seq<Factory>, v: JsonNode)
    ensures forall x :: x in Collect(fs, v) ==> FactoryOf(x.id) in fs
  {
    CollectMembers(fs, v);
    forall x | x in Collect(fs, v) ensures FactoryOf(x.id) in fs {
      var j :| 0 <= j < |fs| && Apply(fs[j], v) == Some(x);
    }
  }

  /** Prepending a rule ranked below a whole ordered sequence keeps it ordered. */
  lemma ConsInOrder(rule: ValidationRule, rest: seq<ValidationRule>)
    requires RulesInOrder(rest)
    requires forall x :: x in rest ==> Rank(FactoryOf(rule.id)) < Rank(FactoryOf(x.id))
    ensures RulesInOrder([rule] + rest)
  {
    var r := [rule] + rest;
    forall i, j | 0 <= i < j < |r| ensures Rank(FactoryOf(r[i].id)) < Rank(FactoryOf(r[j].id)) {
      assert r[j] == rest[j - 1];
      if i > 0 {
        assert r[i] == rest[i - 1];
      }
    }
  }

  /** Factories in pipeline order give rules in pipeline order. */
  lemma {:induction false} CollectInOrder(fs: seq<Factory>, v: JsonNode)
    requires InOrder(fs)
    ensures RulesInOrder(Collect(fs, v))
  {
    if fs != [] {
      var rest := Collect(fs[1..], v);
      assert InOrder(fs[1..]);
      CollectInOrder(fs[1..], v);
      var first := Apply(fs[0], v);
      assert Collect(fs, v) == if first.Some? then [first.value] + rest else rest;
      if first.Some? {
        CollectFactories(fs[1..], v);
        forall x | x in rest ensures Rank(FactoryOf(first.value.id)) < Rank(FactoryOf(x.id)) {
          var j :| 0 <= j < |fs[1..]| && fs[1..][j] == FactoryOf(x.id);
          assert fs[1..][j] == fs[j + 1];
        }
        ConsInOrder(first.value, rest);
      }
    }
  }

  /** `parseValidationRules`. */
  function ParseValidationRules(v: JsonNode): seq<ValidationRule> {
    Collect(Factories, v)
  }

  lemma FactoriesInOrder()
    ensures InOrder(Factories)
  {
  }

  /** The pipeline yields at most ten rules, in the factory list's order. */
  lemma ValidationRulesInOrder(v: JsonNode)
    ensures |ParseValidationRules(v)| <= 10
    ensures RulesInOrder(ParseValidationRules(v))
  {
    FactoriesInOrder();
    CollectInOrder(Factories, v);
  }

  /** Every rule of the pipeline is carried by the node and well formed. */
  lemma ValidationRulesWellFormed(v: JsonNode)
    ensures forall i :: 0 <= i < |ParseValidationRules(v)| ==>
      Carries(ParseValidationRules(v)[i].id, v) && WellFormed(ParseValidationRules(v)[i], v)
  {
    var r := ParseValidationRules(v);
    CollectMembers(Factories, v);
    forall i | 0 <= i < |r| ensures Carries(r[i].id, v) && WellFormed(r[i], v) {
      assert r[i] in r;
      var j :| 0 <= j < |Factories| && Apply(Factories[j], v) == Some(r[i]);
    }
  }

  /** A rule with a given id is present exactly when the node carries it. */
  lemma ValidationRulesCarried(v: JsonNode)
    ensures forall id :: (exists i :: 0 <= i < |ParseValidationRules(v)| && ParseValidationRules(v)[i].id == id) <==> Carries(id, v)
  {
    var r := ParseValidationRules(v);
    ValidationRulesWellFormed(v);
    forall id | Carries(id, v) ensures exists i :: 0 <= i < |r| && r[i].id == id {
      CarriedPresent(v, id);
    }
  }

  /** A rule id the node carries is produced by its factory and so collected. */
  lemma CarriedPresent(v: JsonNode, id: RuleId)
    requires Carries(id, v)
    ensures exists i :: 0 <= i < |ParseValidationRules(v)| && ParseValidationRules(v)[i].id == id
  {
    var r := ParseValidationRules(v);
    var f := FactoryOf(id);
    FactoryAtRank(f);
    var rule := Apply(f, v);
    assert rule.Some? && rule.value.id == id;
    CollectMembers(Factories, v);
    assert rule.value in r;
    var i :| 0 <= i < |r| && r[i] == rule.value;
  }

  /** Every factory sits in the list at its rank. */
  lemma FactoryAtRank(f: Factory)
    ensures Rank(f) < |Factories| && Factories[Rank(f)] == f
  {
  }

  /** Since `type` is a single value, the rules of one node never mix the string, numeric and array families. */
  lemma RulesOneFamily(v: JsonNode)
    ensures forall i, j :: 0 <= i < |ParseValidationRules(v)| && 0 <= j < |ParseValidationRules(v)| ==>
      FamilyOf(ParseValidationRules(v)[i].id) == FamilyOf(ParseValidationRules(v)[j].id)
  {
    var r := ParseValidationRules(v);
    ValidationRulesWellFormed(v);
    TypeGuards(SchemaType(v));
    forall i, j | 0 <= i < |r| && 0 <= j < |r| ensures FamilyOf(r[i].id) == FamilyOf(r[j].id) {
      assert Carries(r[i].id, v) && Carries(r[j].id, v);
    }
  }

  /** `minimum` gives `NumberGT` or `NumberGTE`, never both; likewise `maximum`. */
  lemma BoundsExclusive(v: JsonNode)
    ensures Carries(NumberGT, v) ==> !Carries(NumberGTE, v)
    ensures Carries(NumberLT, v) ==> !Carries(NumberLTE, v)
    ensures IsNumericType(SchemaType(v)) && IsNumber(Minimum(v)) ==> Carries(NumberGT, v) || Carries(NumberGTE, v)
    ensures IsNumericType(SchemaType(v)) && IsNumber(Maximum(v)) ==> Carries(NumberLT, v) || Carries(NumberLTE, v)
  {
  }

  // ---------------------------------------------------------------------------
  // The object factories.
  // ---------------------------------------------------------------------------

  datatype ObjectFactory = ObjectMinPropertiesFactory | ObjectMaxPropertiesFactory | ObjectAdditionalPropertiesFactory

  const ObjectFactories: seq<ObjectFactory> := [ObjectMinPropertiesFactory, ObjectMaxPropertiesFactory, ObjectAdditionalPropertiesFactory]

  /** The keyword an object rule is read from. */
  function ObjectKeywordOf(id: ObjectRuleId): string {
    match id
    case ObjectMinProperties => "minProperties"
    case ObjectMaxProperties => "maxProperties"
  }

  /** An object rule with this id applies: `type` is `object` and the keyword holds a number. */
  predicate CarriesObject(id: ObjectRuleId, v: JsonNode) {
    IsObjectType(SchemaType(v)) && IsNumber(LiteralChild(v, ObjectKeywordOf(id)))
  }

  /** An object rule located at its keyword's member, bounded by its value as a non-negative integer. */
  predicate ObjectWellFormed(rule: ObjectValidationRule, v: JsonNode) {
    var k := LiteralChild(v, ObjectKeywordOf(rule.id));
    rule.loc == PropertyRange(v, ObjectKeywordOf(rule.id)) &&
    k.Some? && LiteralValue(k.value).Some? &&
    rule.bound == TypedLiteral(NonNegativeIntegerLiteral, LiteralValue(k.value).value, k.value.node.loc)
  }

  /** One object factory applied to a node; the additional-properties factory yields nothing. */
  function ApplyObject(f: ObjectFactory, v: JsonNode): (r: Option<ObjectValidationRule>)
    ensures f == ObjectAdditionalPropertiesFactory ==> r.None?
    ensures f == ObjectMinPropertiesFactory ==> (r.Some? <==> CarriesObject(ObjectMinProperties, v))
    ensures f == ObjectMaxPropertiesFactory ==> (r.Some? <==> CarriesObject(ObjectMaxProperties, v))
    ensures r.Some? ==>
      ObjectWellFormed(r.value, v) &&
      r.value.id == (if f == ObjectMinPropertiesFactory then ObjectMinProperties else ObjectMaxProperties)
  {
    match f
    case ObjectMinPropertiesFactory =>
      if IsObjectType(SchemaType(v)) && IsNumber(MinProperties(v)) then
        Some(ObjectValidationRule(ObjectMinProperties, ToNonNegativeIntegerLiteral(LocatedValue(MinProperties(v))), PropertyRange(v, "minProperties")))
      else None
    case ObjectMaxPropertiesFactory =>
      if IsObjectType(SchemaType(v)) && IsNumber(MaxProperties(v)) then
        Some(ObjectValidationRule(ObjectMaxProperties, ToNonNegativeIntegerLiteral(LocatedValue(MaxProperties(v))), PropertyRange(v, "maxProperties")))
      else None
    case ObjectAdditionalPropertiesFactory => None
  }

  /** The object generator loop. */
  function CollectObject(fs: seq<ObjectFactory>, v: JsonNode): (r: seq<ObjectValidationRule>)
    ensures |r| <= |fs|
  {
    if fs == [] then []
    else
      match ApplyObject(fs[0], v)
      case Some(rule) => [rule] + CollectObject(fs[1..], v)
      case None => CollectObject(fs[1..], v)
  }

  /** `parseObjectValidationRules`. */
  function ParseObjectValidationRules(v: JsonNode): seq<ObjectValidationRule> {
    CollectObject(ObjectFactories, v)
  }

  /**
   * The object pipeline yields `ObjectMinProperties` exactly when it applies,
   * then `ObjectMaxProperties` exactly when it applies, and nothing else.
   */
  lemma ObjectValidationRulesSpec(v: JsonNode)
    ensures ParseObjectValidationRules(v) ==
      (if CarriesObject(ObjectMinProperties, v) then [ApplyObject(ObjectMinPropertiesFactory, v).value] else []) +
      (if CarriesObject(ObjectMaxProperties, v) then [ApplyObject(ObjectMaxPropertiesFactory, v).value] else [])
  {
    var fs := ObjectFactories;
    assert fs[1..] == [ObjectMaxPropertiesFactory, ObjectAdditionalPropertiesFactory];
    assert fs[1..][1..] == [ObjectAdditionalPropertiesFactory];
    assert fs[1..][1..][1..] == [];
    assert CollectObject(fs[1..][1..], v) == [];
    var max := if CarriesObject(ObjectMaxProperties, v) then [ApplyObject(ObjectMaxPropertiesFactory, v).value] else [];
    assert CollectObject(fs[1..], v) == max;
  }

  /** Every object rule is well formed, min before max, and only for `type: object`. */
  lemma ObjectValidationRulesWellFormed(v: JsonNode)
    ensures forall i :: 0 <= i < |ParseObjectValidationRules(v)| ==> ObjectWellFormed(ParseObjectValidationRules(v)[i], v)
    ensures |ParseObjectValidationRules(v)| == 2 ==>
      ParseObjectValidationRules(v)[0].id == ObjectMinProperties && ParseObjectValidationRules(v)[1].id == ObjectMaxProperties
    ensures |ParseObjectValidationRules(v)| > 0 ==> IsObjectType(SchemaType(v))
  {
    ObjectValidationRulesSpec(v);
    var min := if CarriesObject(ObjectMinProperties, v) then [ApplyObject(ObjectMinPropertiesFactory, v).value] else [];
    var max := if CarriesObject(ObjectMaxProperties, v) then [ApplyObject(ObjectMaxPropertiesFactory, v).value] else [];
    var r := ParseObjectValidationRules(v);
    assert r == min + max;
    forall i | 0 <= i < |r| ensures ObjectWellFormed(r[i], v) {
      if i < |min| {
        assert r[i] == min[i];
      } else {
        assert r[i] == max[i - |min|];
      }
    }
  }
}
