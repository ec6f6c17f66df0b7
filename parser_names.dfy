/**
 * The pure helpers of src/json-schema-parser.ts: structural name inference
 * (`parseTypeName`), required/optional analysis, the primitive mapping table
 * and `toPrimitiveValueConstant`.
 */
module ParserNames {
  import opened Wrappers
  import opened Text
  import opened Json
  import opened JsonSchema
  import opened Utils
  import opened RuleFactories
  import opened Ir

  /** `[last, penultimate, ...rest] = pointer.split('/').reverse()`, with `rest` put back in pointer order. */
  datatype PointerParts = PointerParts(last: string, penultimate: Option<string>, rest: seq<string>)

  function Parts(pointer: string): (r: PointerParts)
    ensures Split(pointer, "/") == r.rest + (if r.penultimate.Some? then [r.penultimate.value] else []) + [r.last]
    ensures r.penultimate.None? ==> r.rest == []
  {
    var s := Split(pointer, "/");
    var n := |s|;
    if n == 1 then PointerParts(s[0], None, [])
    else
      assert s == s[..n - 2] + [s[n - 2]] + [s[n - 1]];
      PointerParts(s[n - 1], Some(s[n - 2]), s[..n - 2])
  }

  /** Two more segments on a pointer become its last and penultimate parts, the pointer's own split the rest. */
  lemma PartsOfTwoMore(base: string, a: string, b: string)
    requires !Contains(a, "/") && !Contains(b, "/")
    ensures Parts(base + "/" + a + "/" + b) == PointerParts(b, Some(a), Split(base, "/"))
  {
    SplitAppend(base, "/", a);
    SplitAppend(base + "/" + a, "/", b);
    var s := Split(base + "/" + a + "/" + b, "/");
    assert s == Split(base, "/") + [a] + [b];
    assert s[..|s| - 2] == Split(base, "/");
  }

  /** One more segment on a pointer becomes its last part, the pointer's own last segment the penultimate. */
  lemma PartsOfOneMore(base: string, b: string)
    requires !Contains(b, "/")
    ensures var s := Split(base, "/");
      Parts(base + "/" + b) == PointerParts(b, Some(s[|s| - 1]), s[..|s| - 1])
  {
    SplitAppend(base, "/", b);
    var s := Split(base, "/");
    var t := Split(base + "/" + b, "/");
    assert t == s + [b];
    assert t[..|t| - 2] == s[..|s| - 1];
  }

  /** `previousPointer`: drop the last two segments, or only the last one under `items`. */
  function PreviousPointer(p: PointerParts): string {
    if p.penultimate == Some("properties") then Join(p.rest, "/")
    else if p.last == "items" then Join(p.rest + [p.penultimate.GetOr("")], "/")
    else Join(p.rest, "/")
  }

  /** The pointer a view was reached by, counted in segments. */
  function PointerSize(schema: Option<JsonNode>): nat {
    if schema.Some? then |Split(schema.value.pointer, "/")| else 0
  }

  /** A previous pointer that resolves has fewer segments than the pointer it came from. */
  lemma PreviousShorter(document: Node, pointer: string)
    ensures ResolveNode(document, PreviousPointer(Parts(pointer))).Some? ==>
      PointerSize(ResolveNode(document, PreviousPointer(Parts(pointer)))) < |Split(pointer, "/")|
  {
    var p := Parts(pointer);
    var s := Split(pointer, "/");
    var n := |s|;
    SplitPartsFree(pointer, "/");
    var pieces := if p.penultimate != Some("properties") && p.last == "items" then p.rest + [p.penultimate.GetOr("")] else p.rest;
    assert PreviousPointer(p) == Join(pieces, "/");
    if |pieces| == 0 || pieces == [""] {
      EmptyPointerResolvesToNothing(document);
    } else {
      assert n >= 2;
      assert p.rest == s[..n - 2] && p.penultimate == Some(s[n - 2]);
      forall k | 0 <= k < |pieces| ensures !Contains(pieces[k], "/") {
        if k < n - 2 {
          assert pieces[k] == s[k];
        } else {
          assert pieces[k] == s[n - 2];
        }
      }
      SplitJoin(pieces, "/");
    }
  }

  /** A literal value as the text it has in a template or a join. */
  function ValueText(v: Value): string {
    match v
    case Str(s) => s
    case Num(text) => text
    case Bool(b) => if b then "true" else "false"
    case Null => "null"
  }

  /** `toStringLiteral` of a located value, as a name. */
  function NameOfLiteral(l: Located): Name {
    Name(ValueText(l.value), l.loc)
  }

  /** `xs.filter((x) => !!x)` over strings: the empty ones dropped. */
  function NonEmpty(xs: seq<string>): (r: seq<string>)
    ensures forall i :: 0 <= i < |r| ==> r[i] != ""
    ensures forall x :: x in r <==> x in xs && x != ""
  {
    if xs == [] then []
    else if xs[0] == "" then NonEmpty(xs[1..])
    else [xs[0]] + NonEmpty(xs[1..])
  }

  /** `[previousName?.value, last].filter((x) => !!x).join('_')`; an absent name is dropped like an empty one. */
  function JoinName(previous: Option<Name>, last: string): (r: string)
    ensures var p := if previous.Some? then previous.value.value else "";
      r == if p != "" && last != "" then p + "_" + last else p + last
  {
    var p := if previous.Some? then previous.value.value else "";
    var kept := NonEmpty([p, last]);
    assert [p, last][1..] == [last] && [last][1..] == [];
    assert NonEmpty([last]) == if last != "" then [last] else [];
    assert kept == (if p != "" then [p] else []) + NonEmpty([last]);
    assert p != "" && last != "" ==> kept == [p, last] && Join(kept, "_") == p + "_" + Join([last], "_");
    assert p != "" && last == "" ==> kept == [p] && p + last == p;
    assert p == "" ==> p + last == last;
    Join(kept, "_")
  }

  /**
   * `parseTypeName`: the `title` verbatim; under `definitions`/`$defs` the key
   * `getName` finds; otherwise the inferred name of the previous pointer's
   * schema joined to the last segment with `_`. The recursion descends on the
   * pointer's segment count.
   */
  function ParseTypeName(document: Node, schema: Option<JsonNode>): (r: Option<Name>)
    decreases PointerSize(schema)
    ensures schema.None? ==> r.None?
    ensures r.None? ==> schema.None? || (Title(schema.value).None? && NameOf(document, schema.value.pointer).None?)
  {
    match schema
    case None => None
    case Some(s) =>
      match Title(s)
      case Some(t) => Some(NameOfLiteral(AsLiteral(t).value))
      case None =>
        var p := Parts(s.pointer);
        if p.penultimate == Some("definitions") || p.penultimate == Some("$defs") then
          match NameOf(document, s.pointer)
          case None => None
          case Some(l) => Some(NameOfLiteral(l))
        else
          var previous := ResolveNode(document, PreviousPointer(p));
          PreviousShorter(document, s.pointer);
          Some(Name(JoinName(ParseTypeName(document, previous), p.last), None))
  }

  /** A `title` is used verbatim, with its own location. */
  lemma TitleVerbatim(document: Node, s: JsonNode)
    requires Title(s).Some? && LiteralValue(Title(s).value).value.Str?
    ensures ParseTypeName(document, Some(s)) == Some(Name(LiteralValue(Title(s).value).value.s, Title(s).value.node.loc))
  {
  }

  lemma SegmentWord(w: string)
    requires w == "definitions" || w == "properties" || w == "items"
    ensures IsSegment(w)
  {
    CharsFree(w, "/");
  }

  /** A member of an object under `definitions` is named by its key, with the key's location. */
  lemma DefinitionsName(document: Node, parent: JsonNode, key: string)
    requires Anchored(document, parent) && IsSegment(key)
    requires Definitions(parent).Some? && Definitions(parent).value.node.Object?
    requires PropertyOf(Definitions(parent).value, key).Some?
    requires Title(Child(Definitions(parent).value, key).value).None?
    ensures ParseTypeName(document, Child(Definitions(parent).value, key))
         == Some(Name(key, PropertyOf(Definitions(parent).value, key).value.keyLoc))
  {
    var d := Definitions(parent).value;
    SegmentWord("definitions");
    ChildAnchored(document, parent, "definitions");
    ResolveObjectStep(document, d, key);
    PartsOfTwoMore(parent.pointer, "definitions", key);
  }

  /** A member of an object under `$defs` is named by its key in the same way; `$defs` has no accessor of its own. */
  lemma DefsName(document: Node, parent: JsonNode, key: string)
    requires Anchored(document, parent) && IsSegment(key)
    requires Child(parent, "$defs").Some? && Child(parent, "$defs").value.node.Object?
    requires PropertyOf(Child(parent, "$defs").value, key).Some?
    requires Title(Child(Child(parent, "$defs").value, key).value).None?
    ensures ParseTypeName(document, Child(Child(parent, "$defs").value, key))
         == Some(Name(key, PropertyOf(Child(parent, "$defs").value, key).value.keyLoc))
  {
    var d := Child(parent, "$defs").value;
    CharsFree("$defs", "/");
    ChildAnchored(document, parent, "$defs");
    ResolveObjectStep(document, d, key);
    PartsOfTwoMore(parent.pointer, "$defs", key);
  }

  /**
   * Without a title and away from `definitions`/`$defs`, the name is inferred from the
   * previous pointer. This is the last branch of `ParseTypeName` as it stands; what the
   * previous pointer is, and how the parts are joined, is stated by `TwoSegmentName`,
   * `ItemsName`, `JoinName` and `PreviousShorter`.
   */
  lemma StructuralName(document: Node, s: JsonNode)
    requires Title(s).None?
    requires Parts(s.pointer).penultimate != Some("definitions") && Parts(s.pointer).penultimate != Some("$defs")
    ensures ParseTypeName(document, Some(s)) ==
      Some(Name(JoinName(ParseTypeName(document, ResolveNode(document, PreviousPointer(Parts(s.pointer)))), Parts(s.pointer).last), None))
  {
  }

  /** The previous pointer of `base/a/b` is `base`, unless an `items` segment keeps `a`. */
  lemma PreviousOfTwoMore(base: string, a: string, b: string)
    requires !Contains(a, "/") && !Contains(b, "/")
    requires a == "properties" || b != "items"
    ensures PreviousPointer(Parts(base + "/" + a + "/" + b)) == base
    ensures Parts(base + "/" + a + "/" + b).last == b
    ensures Parts(base + "/" + a + "/" + b).penultimate == Some(a)
  {
    PartsOfTwoMore(base, a, b);
    JoinSplit(base, "/");
  }

  /** The previous pointer of `base/a/items` keeps `a` when `a` is not `properties`. */
  lemma PreviousOfItems(base: string, a: string)
    requires !Contains(a, "/") && a != "properties"
    ensures PreviousPointer(Parts(base + "/" + a + "/items")) == base + "/" + a
    ensures Parts(base + "/" + a + "/items").last == "items"
    ensures Parts(base + "/" + a + "/items").penultimate == Some(a)
  {
    SegmentWord("items");
    assert base + "/" + a + "/items" == base + "/" + a + "/" + "items";
    PartsOfTwoMore(base, a, "items");
    var t := Split(base, "/");
    JoinSplit(base, "/");
    JoinAppend(t, "/", a);
    assert Parts(base + "/" + a + "/items") == PointerParts("items", Some(a), t);
    assert PreviousPointer(PointerParts("items", Some(a), t)) == Join(t + [a], "/");
  }

  /**
   * Away from `definitions`/`$defs`, and unless an `items` segment keeps the
   * penultimate one, a schema two segments below `base` is named after the
   * schema at `base` joined to its last segment.
   */
  lemma TwoSegmentName(document: Node, s: JsonNode, base: string, a: string, b: string)
    requires !Contains(a, "/") && !Contains(b, "/")
    requires s.pointer == base + "/" + a + "/" + b && Title(s).None?
    requires a != "definitions" && a != "$defs" && (a == "properties" || b != "items")
    ensures ParseTypeName(document, Some(s)) == Some(Name(JoinName(ParseTypeName(document, ResolveNode(document, base)), b), None))
  {
    PreviousOfTwoMore(base, a, b);
    StructuralName(document, s);
  }

  /** An `items` schema is named after the schema that holds it, joined to `items`. */
  lemma ItemsName(document: Node, s: JsonNode, base: string, a: string)
    requires !Contains(a, "/")
    requires s.pointer == base + "/" + a + "/items" && Title(s).None?
    requires a != "definitions" && a != "$defs" && a != "properties"
    ensures ParseTypeName(document, Some(s)) ==
      Some(Name(JoinName(ParseTypeName(document, ResolveNode(document, base + "/" + a)), "items"), None))
  {
    PreviousOfItems(base, a);
    StructuralName(document, s);
  }

  /** Some entry of `required` is the string `name`. */
  predicate Lists(entries: seq<JsonNode>, name: string) {
    exists i :: 0 <= i < |entries| && LiteralValue(entries[i]) == Some(Str(name))
  }

  /** `parseIsRequired`: under `properties`, the grandparent schema's `required` lists the last segment. */
  function ParseIsRequired(document: Node, schema: Option<JsonNode>): bool {
    match schema
    case None => false
    case Some(s) =>
      var p := Parts(s.pointer);
      if p.penultimate != Some("properties") then false
      else
        var parent := ResolveNode(document, Join(p.rest, "/"));
        parent.Some? && Required(parent.value).Some? && Lists(Required(parent.value).value, p.last)
  }

  /** `parseIsOptional`: a flag without location exactly when the schema is not required. */
  function ParseIsOptional(document: Node, schema: JsonNode): (r: Option<TrueLiteral>)
    ensures r.None? <==> ParseIsRequired(document, Some(schema))
    ensures r.Some? ==> r.value == TrueLiteral(None)
  {
    if ParseIsRequired(document, Some(schema)) then None else Some(TrueLiteral(None))
  }

  /** A schema at `base/properties/key` is required exactly when the schema at `base` lists `key` in `required`. */
  lemma RequiredIff(document: Node, s: JsonNode, base: string, key: string)
    requires !Contains(key, "/") && s.pointer == base + "/properties/" + key
    ensures ParseIsRequired(document, Some(s)) <==>
      var parent := ResolveNode(document, base);
      parent.Some? && Required(parent.value).Some? && Lists(Required(parent.value).value, key)
  {
    SegmentWord("properties");
    assert base + "/properties/" + key == base + "/" + "properties" + "/" + key;
    PartsOfTwoMore(base, "properties", key);
    JoinSplit(base, "/");
  }

  /** A schema whose penultimate segment is not `properties` is never required, so always optional. */
  lemma OutsidePropertiesOptional(document: Node, s: JsonNode)
    requires Parts(s.pointer).penultimate != Some("properties")
    ensures ParseIsOptional(document, s) == Some(TrueLiteral(None))
  {
  }

  /** `schema.format?.value === f`. */
  predicate FormatIs(format: Option<JsonNode>, f: string) {
    format.Some? && LiteralValue(format.value) == Some(Str(f))
  }

  /** The `switch` of `parsePrimitive` over `type` and `format`; `Untyped` stands for `untyped()`. */
  function PrimitiveFor(t: Option<OneOrMany>, format: Option<JsonNode>): (r: Primitive)
    ensures IsBooleanType(t) ==> r == Boolean
    ensures IsIntegerType(t) ==> r == (if FormatIs(format, "int64") then Long else Integer)
    ensures IsNumberType(t) ==> r == (if FormatIs(format, "float") then Float else if FormatIs(format, "double") then Double else Number)
    ensures IsStringType(t) ==> r == (if FormatIs(format, "date") then Date else if FormatIs(format, "date-time") then DateTime else String)
    ensures r == UntypedPrimitive <==> !IsBooleanType(t) && !IsNumericType(t) && !IsStringType(t)
  {
    if t.None? || t.value.Many? then UntypedPrimitive
    else
      var f := if format.Some? then LiteralValue(format.value) else None;
      match LiteralValue(t.value.node)
      case Some(Str("boolean")) => Boolean
      case Some(Str("integer")) => if f == Some(Str("int64")) then Long else Integer
      case Some(Str("number")) =>
        if f == Some(Str("float")) then Float else if f == Some(Str("double")) then Double else Number
      case Some(Str("string")) =>
        if f == Some(Str("date")) then Date else if f == Some(Str("date-time")) then DateTime else String
      case _ => UntypedPrimitive
  }

  /** `parsePrimitive`: the mapped primitive at `loc`, with the schema's optionality and rules; `untyped()` otherwise. */
  function ParsePrimitive(document: Node, schema: JsonNode, loc: Loc): (r: MemberValue)
    ensures r.PrimitiveValue? && r.primitive == PrimitiveFor(SchemaType(schema), Format(schema))
    ensures r.isArray.None? && r.constant.None?
    ensures r.primitive == UntypedPrimitive ==> r == Untyped()
    ensures r.primitive != UntypedPrimitive ==>
      r.primitiveLoc == loc && r.isOptional == ParseIsOptional(document, schema) && r.rules == ParseValidationRules(schema)
  {
    match PrimitiveFor(SchemaType(schema), Format(schema))
    case UntypedPrimitive => Untyped()
    case p => PrimitiveValue(p, loc, None, ParseIsOptional(document, schema), None, ParseValidationRules(schema))
  }

  /** `toPrimitiveValueConstant`: a string, number or boolean constant; `null` throws. */
  function ToPrimitiveValueConstant(node: Option<JsonNode>): (r: Outcome<Option<Constant>>)
    ensures node.None? <==> r == Done(None)
    ensures r.Aborted? <==> node.Some? && (LiteralValue(node.value).None? || LiteralValue(node.value) == Some(Null))
    ensures r.Aborted? ==> r.reason == UnexpectedConstant
    ensures r.Done? && r.value.Some? ==> r.value.value.loc == node.value.node.loc
    ensures r.Done? && r.value.Some? ==> match r.value.value
      case StringConstant(s, _) => LiteralValue(node.value) == Some(Str(s))
      case NumberConstant(text, _) => LiteralValue(node.value) == Some(Num(text))
      case BooleanConstant(b, _) => LiteralValue(node.value) == Some(Bool(b))
  {
    match node
    case None => Done(None)
    case Some(n) =>
      match LiteralValue(n)
      case Some(Str(s)) => Done(Some(StringConstant(s, n.node.loc)))
      case Some(Num(text)) => Done(Some(NumberConstant(text, n.node.loc)))
      case Some(Bool(b)) => Done(Some(BooleanConstant(b, n.node.loc)))
      case _ => Aborted(UnexpectedConstant)
  }
}
