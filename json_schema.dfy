/**
 * The schema node view of src/json-schema.ts: keyword accessors over a JSON
 * node, the record view of `properties`/`definitions`, and the type guards.
 */
module JsonSchema {
  import opened Wrappers
  import opened Text
  import opened Json

  /** The `type` and `items` keywords: an array of alternatives, or a single node. */
  datatype OneOrMany = Many(elements: seq<JsonNode>) | One(node: JsonNode)

  /**
   * A literal keyword whose value the source passes to a string method
   * (`split`); a non-string value there makes the source throw, and the model
   * treats the keyword as absent.
   */
  function StringChild(v: JsonNode, key: string): (r: Option<JsonNode>)
    ensures r.Some? ==> r == LiteralChild(v, key) && LiteralValue(r.value).value.Str?
  {
    match LiteralChild(v, key)
    case None => None
    case Some(c) => if LiteralValue(c).value.Str? then Some(c) else None
  }

  function Ref(v: JsonNode): Option<JsonNode> { StringChild(v, "$ref") }
  function Title(v: JsonNode): Option<JsonNode> { LiteralChild(v, "title") }
  function Description(v: JsonNode): Option<JsonNode> { StringChild(v, "description") }
  function MultipleOf(v: JsonNode): Option<JsonNode> { LiteralChild(v, "multipleOf") }
  function Maximum(v: JsonNode): Option<JsonNode> { LiteralChild(v, "maximum") }
  function ExclusiveMaximum(v: JsonNode): Option<JsonNode> { LiteralChild(v, "exclusiveMaximum") }
  function Minimum(v: JsonNode): Option<JsonNode> { LiteralChild(v, "minimum") }
  function ExclusiveMinimum(v: JsonNode): Option<JsonNode> { LiteralChild(v, "exclusiveMinimum") }
  function MaxLength(v: JsonNode): Option<JsonNode> { LiteralChild(v, "maxLength") }
  function MinLength(v: JsonNode): Option<JsonNode> { LiteralChild(v, "minLength") }
  function Pattern(v: JsonNode): Option<JsonNode> { LiteralChild(v, "pattern") }
  function MaxItems(v: JsonNode): Option<JsonNode> { LiteralChild(v, "maxItems") }
  function MinItems(v: JsonNode): Option<JsonNode> { LiteralChild(v, "minItems") }
  function UniqueItems(v: JsonNode): Option<JsonNode> { LiteralChild(v, "uniqueItems") }
  function MaxProperties(v: JsonNode): Option<JsonNode> { LiteralChild(v, "maxProperties") }
  function MinProperties(v: JsonNode): Option<JsonNode> { LiteralChild(v, "minProperties") }
  function Format(v: JsonNode): Option<JsonNode> { LiteralChild(v, "format") }
  function Const(v: JsonNode): Option<JsonNode> { LiteralChild(v, "const") }
  function Required(v: JsonNode): Option<seq<JsonNode>> { ArrayOf(v, "required") }
  function AdditionalProperties(v: JsonNode): Option<JsonNode> { Child(v, "additionalProperties") }
  function PropertiesRecord(v: JsonNode): Option<JsonNode> { Child(v, "properties") }
  function Enum(v: JsonNode): Option<seq<JsonNode>> { ArrayOf(v, "enum") }
  function AllOf(v: JsonNode): Option<seq<JsonNode>> { ArrayOf(v, "allOf") }
  function AnyOf(v: JsonNode): Option<seq<JsonNode>> { ArrayOf(v, "anyOf") }
  function OneOf(v: JsonNode): Option<seq<JsonNode>> { ArrayOf(v, "oneOf") }
  function Discriminator(v: JsonNode): Option<JsonNode> { Child(v, "discriminator") }
  function PropertyName(discriminator: JsonNode): Option<JsonNode> { LiteralChild(discriminator, "propertyName") }
  function Mapping(discriminator: JsonNode): Option<JsonNode> { Child(discriminator, "mapping") }

  /** `definitions` reads the `definitions` member only; `$defs` is not consulted here. */
  function Definitions(v: JsonNode): (r: Option<JsonNode>)
    ensures r.Some? <==> PropertyOf(v, "definitions").Some?
    ensures r.Some? ==> r.value.pointer == v.pointer + "/definitions"
    ensures r.Some? ==> r.value.node == PropertyOf(v, "definitions").value.value
  {
    Child(v, "definitions")
  }

  /** `a || b` over the array form and the single-node form: the array form wins when the member is an array. */
  function ArrayOrChild(v: JsonNode, key: string): (r: Option<OneOrMany>)
    ensures r.None? <==> PropertyOf(v, key).None?
    ensures r.Some? && PropertyOf(v, key).value.value.Array? ==> r == Some(Many(ArrayOf(v, key).value))
    ensures r.Some? && !PropertyOf(v, key).value.value.Array? ==> r == Some(One(Child(v, key).value))
  {
    match ArrayOf(v, key)
    case Some(elements) => Some(Many(elements))
    case None =>
      match Child(v, key)
      case Some(c) => Some(One(c))
      case None => None
  }

  /** The `type` keyword, the array form preferred over the single form. */
  function SchemaType(v: JsonNode): (r: Option<OneOrMany>)
    ensures r.None? <==> PropertyOf(v, "type").None?
    ensures r.Some? && PropertyOf(v, "type").value.value.Array? ==> r.value.Many?
    ensures r.Some? && !PropertyOf(v, "type").value.value.Array? ==> r.value.One?
  {
    ArrayOrChild(v, "type")
  }

  /** The `items` keyword, the tuple (array) form preferred over the single schema. */
  function Items(v: JsonNode): (r: Option<OneOrMany>)
    ensures r.None? <==> PropertyOf(v, "items").None?
    ensures r.Some? && PropertyOf(v, "items").value.value.Array? ==> r.value.Many?
    ensures r.Some? && !PropertyOf(v, "items").value.value.Array? ==> r.value.One?
  {
    ArrayOrChild(v, "items")
  }

  /** `type` is the single literal `name`. */
  predicate IsType(t: Option<OneOrMany>, name: string) {
    t.Some? && t.value.One? && LiteralValue(t.value.node) == Some(Str(name))
  }

  predicate IsArrayType(t: Option<OneOrMany>) { IsType(t, "array") }
  predicate IsBooleanType(t: Option<OneOrMany>) { IsType(t, "boolean") }
  predicate IsNullType(t: Option<OneOrMany>) { IsType(t, "null") }
  predicate IsNumberType(t: Option<OneOrMany>) { IsType(t, "number") }
  predicate IsIntegerType(t: Option<OneOrMany>) { IsType(t, "integer") }
  predicate IsObjectType(t: Option<OneOrMany>) { IsType(t, "object") }
  predicate IsStringType(t: Option<OneOrMany>) { IsType(t, "string") }

  predicate IsNumericType(t: Option<OneOrMany>) {
    t.Some? && t.value.One? &&
    (LiteralValue(t.value.node) == Some(Str("number")) || LiteralValue(t.value.node) == Some(Str("integer")))
  }

  /**
   * Every type guard is false for the array form; `isNumericType` is exactly
   * number-or-integer; and, `type` being one value, the guards exclude each other.
   */
  lemma TypeGuards(t: Option<OneOrMany>)
    ensures t.Some? && t.value.Many? ==>
      !IsArrayType(t) && !IsBooleanType(t) && !IsNullType(t) && !IsNumberType(t) &&
      !IsIntegerType(t) && !IsObjectType(t) && !IsStringType(t) && !IsNumericType(t)
    ensures IsNumericType(t) <==> IsNumberType(t) || IsIntegerType(t)
    ensures IsStringType(t) ==> !IsNumericType(t) && !IsArrayType(t) && !IsObjectType(t)
    ensures IsNumericType(t) ==> !IsArrayType(t) && !IsObjectType(t)
    ensures IsArrayType(t) ==> !IsObjectType(t)
  {
  }

  /** One entry of `SchemaRecordNode.children`. */
  datatype RecordItem = RecordItem(loc: Loc, key: string, keyLoc: Loc, value: JsonNode)

  /** The key as the source's `LiteralNode.asLiteral` gives it. */
  function KeyLiteral(item: RecordItem): Located {
    Located(Str(item.key), item.keyLoc)
  }

  /** `SchemaRecordNode.children`: one item per member in source order, the value at `pointer/key`. */
  function RecordChildren(record: JsonNode): (r: seq<RecordItem>)
    ensures |r| == |PropertyNodes(record)|
    ensures forall i :: 0 <= i < |r| ==>
      var p := PropertyNodes(record)[i];
      r[i] == RecordItem(p.loc, p.key, p.keyLoc, JsonNode(p.value, record.pointer + "/" + p.key))
  {
    var props := PropertyNodes(record);
    seq(|props|, i requires 0 <= i < |props| =>
      RecordItem(props[i].loc, props[i].key, props[i].keyLoc, JsonNode(props[i].value, record.pointer + "/" + props[i].key)))
  }

  /** A record item's pointer resolves back to its value when its key is a plain segment met first. */
  lemma RecordChildAnchored(document: Node, record: JsonNode, i: nat)
    requires Anchored(document, record) && record.node.Object? && i < |record.node.props|
    requires IsSegment(record.node.props[i].key)
    requires FindIndex(record.node.props, record.node.props[i].key) == Some(i)
    ensures Anchored(document, RecordChildren(record)[i].value)
  {
    ChildAnchored(document, record, record.node.props[i].key);
  }
}
