/**
 * What the type-graph builder of src/json-schema-parser.ts promises, stated
 * over the functions of parser_spec.dfy (which the class in parser.dfy is
 * proved to compute).
 */
module ParserProperties {
  import opened Wrappers
  import opened Text
  import opened Json
  import opened JsonSchema
  import opened RuleFactories
  import opened Ir
  import opened ParserNames
  import opened ParserSpec

  // ---------------------------------------------------------------------------
  // parseType: definitions first, then the first branch that applies.
  // ---------------------------------------------------------------------------

  /** An absent schema is untyped, inherits nothing and leaves the registry alone. */
  lemma AbsentSchemaUntyped(document: Node, reg: Registry, loc: Loc, fuel: nat)
    ensures ParseType(document, reg, None, loc, fuel) == Effect(reg, Done(Parsed(Untyped(), [])))
  {
  }

  /** Branch positions are distinct, so a first-applying branch is unique. */
  lemma FirstBranchUnique(s: JsonNode, b: Branch)
    requires Applies(s, b)
    requires forall c :: Position(c) < Position(b) ==> !Applies(s, c)
    ensures BranchOf(s) == b
  {
  }

  /**
   * A present schema: every `definitions` child is parsed first (a stop there
   * is the result), then the branch that applies before every other runs on
   * the registry the definitions left.
   */
  lemma DefinitionsThenFirstBranch(document: Node, reg: Registry, s: JsonNode, b: Branch, loc: Loc, fuel: nat)
    requires fuel > 0
    requires Applies(s, b)
    requires forall c :: Position(c) < Position(b) ==> !Applies(s, c)
    ensures ParseType(document, reg, Some(s), loc, fuel) ==
      var visited := VisitDefinitions(document, reg, DefinitionItems(s), fuel - 1);
      if visited.out.Aborted? then Effect(visited.reg, Aborted(visited.out.reason))
      else Dispatch(document, visited.reg, s, b, loc, fuel - 1)
  {
    FirstBranchUnique(s, b);
    assert ParseType(document, reg, Some(s), loc, fuel) == ParseDefined(document, reg, s, loc, fuel - 1);
    var visited := VisitDefinitions(document, reg, DefinitionItems(s), fuel - 1);
    if !visited.out.Aborted? {
      assert ParseSchema(document, visited.reg, s, loc, fuel - 1) == Dispatch(document, visited.reg, s, b, loc, fuel - 1);
    }
  }

  // ---------------------------------------------------------------------------
  // References and the branches that type nothing.
  // ---------------------------------------------------------------------------

  /**
   * A `$ref` that does not resolve adds exactly one `PARSER_ERROR` error at the
   * ref's location and yields untyped, with the schema's own description
   * inherited twice; nothing is registered.
   */
  lemma UnresolvedRefReported(document: Node, reg: Registry, s: JsonNode, loc: Loc, fuel: nat)
    requires Ref(s).Some? && ResolveNode(document, RefText(Ref(s).value)).None?
    ensures var r := ParseSchema(document, reg, s, loc, fuel);
      r.out == Done(Parsed(Untyped(), OwnDescription(s) + OwnDescription(s))) &&
      r.reg.types == reg.types && r.reg.enums == reg.enums && r.reg.unions == reg.unions &&
      |r.reg.violations| == |reg.violations| + 1 && r.reg.violations[..|reg.violations|] == reg.violations &&
      var v := r.reg.violations[|reg.violations|];
      CodeText(v.code) == "PARSER_ERROR" && v.severity == Error && v.range == Ref(s).value.node.loc &&
      v.message == CannotResolveRef(RefText(Ref(s).value))
  {
    var own := OwnDescription(s);
    var e := ParseRef(document, reg, s, loc, fuel);
    assert ParseSchema(document, reg, s, loc, fuel) == Dispatch(document, reg, s, RefBranch, loc, fuel);
    assert e == Effect(WithViolations(reg, [UnresolvedRef(RefText(Ref(s).value), Ref(s).value.node.loc)]), Done(Parsed(Untyped(), [])));
    assert own + [] + own == own + own;
  }

  /**
   * A `$ref` that resolves is its target's parse at the referring location;
   * the inherited description is the schema's own, the target's, then its own
   * again.
   */
  lemma ResolvedRefIsTarget(document: Node, reg: Registry, s: JsonNode, target: JsonNode, loc: Loc, fuel: nat)
    requires Ref(s).Some? && ResolveNode(document, RefText(Ref(s).value)) == Some(target)
    ensures var r := ParseSchema(document, reg, s, loc, fuel);
      var e := ParseType(document, reg, Some(target), loc, fuel);
      r.reg == e.reg && (r.out.Done? <==> e.out.Done?) &&
      (r.out.Aborted? ==> r.out.reason == e.out.reason) &&
      (r.out.Done? ==> r.out.value.memberValue == e.out.value.memberValue &&
                       r.out.value.inheritedDescription == OwnDescription(s) + e.out.value.inheritedDescription + OwnDescription(s))
  {
    assert ParseSchema(document, reg, s, loc, fuel) == Dispatch(document, reg, s, RefBranch, loc, fuel);
    assert ParseRef(document, reg, s, loc, fuel) == ParseType(document, reg, Some(target), loc, fuel);
  }

  /** `anyOf`, and a `type` array (without `oneOf` before it), are untyped and change nothing. */
  lemma UntypedCombinators(document: Node, reg: Registry, s: JsonNode, loc: Loc, fuel: nat)
    requires Ref(s).None? && AllOf(s).None?
    requires AnyOf(s).Some? || (OneOf(s).None? && SchemaType(s).Some? && SchemaType(s).value.Many?)
    ensures ParseSchema(document, reg, s, loc, fuel) == Effect(reg, Done(Parsed(Untyped(), OwnDescription(s))))
  {
  }

  // ---------------------------------------------------------------------------
  // oneOf unions.
  // ---------------------------------------------------------------------------

  /** With a discriminator property, the registered union is discriminated and keeps exactly the complex members. */
  lemma RegisterDiscriminated(reg: Registry, s: JsonNode, name: Name, members: seq<MemberValue>, loc: Loc)
    requires Discriminator(s).Some? && PropertyName(Discriminator(s).value).Some?
    ensures var r := RegisterUnion(reg, s, name, members, loc);
      var d := Discriminator(s).value;
      r.types == reg.types && r.enums == reg.enums &&
      r.unions == reg.unions[name.value := DiscriminatedUnion(name, DescriptionOf(s), DiscriminatorName(PropertyName(d).value),
                                                              ComplexMembers(members), loc)]
  {
  }

  /**
   * With a discriminator property, one `info` notice for a `mapping` comes
   * first, then one misconfigured-discriminator error per primitive member;
   * without one, registering a union reports nothing.
   */
  lemma DiscriminatorViolations(s: JsonNode, members: seq<MemberValue>)
    ensures var vs := UnionViolations(s, members);
      var d := Discriminator(s);
      if d.Some? && PropertyName(d.value).Some? then
        var notices := if Mapping(d.value).Some? then 1 else 0;
        |vs| == notices + |members| - |ComplexMembers(members)| &&
        (Mapping(d.value).Some? ==>
           vs[0].code == UnsupportedFeature && vs[0].severity == Info && vs[0].range == Mapping(d.value).value.node.loc) &&
        (forall i :: notices <= i < |vs| ==>
           vs[i].code == MisconfiguredDiscriminator && vs[i].severity == Error && vs[i].range == d.value.node.loc)
      else vs == []
  {
    var d := Discriminator(s);
    if d.Some? && PropertyName(d.value).Some? {
      var mapping := if Mapping(d.value).Some? then [UnsupportedMapping(Mapping(d.value).value.node.loc)] else [];
      ReportedAfter(mapping, members, d.value.node.loc);
    }
  }

  /** After any prefix come exactly as many primitive-member errors as there are primitive members. */
  lemma ReportedAfter(prefix: seq<Violation>, members: seq<MemberValue>, range: Loc)
    ensures var all := prefix + PrimitiveMemberViolations(members, range);
      |all| == |prefix| + |members| - |ComplexMembers(members)| &&
      forall i :: |prefix| <= i < |all| ==> all[i] == PrimitiveDiscriminatorMember(range)
  {
    var reported := PrimitiveMemberViolations(members, range);
    var all := prefix + reported;
    MembersPartition(members, range);
    forall i | |prefix| <= i < |all|
      ensures all[i] == PrimitiveDiscriminatorMember(range)
    {
      assert all[i] == reported[i - |prefix|] && reported[i - |prefix|] in reported;
    }
  }

  /**
   * A named `oneOf` with a discriminator property registers a discriminated
   * union of the complex members among the parsed alternatives, reports the
   * violations above and refers to the union.
   */
  lemma DiscriminatedUnionMembers(document: Node, reg: Registry, s: JsonNode, loc: Loc, fuel: nat, name: Name)
    requires OneOf(s).Some? && ParseTypeName(document, Some(s)) == Some(name)
    requires Discriminator(s).Some? && PropertyName(Discriminator(s).value).Some?
    requires ParseMembers(document, reg, OneOf(s).value, fuel).out.Done?
    ensures var parsed := ParseMembers(document, reg, OneOf(s).value, fuel);
      var r := ParseOneOfUnion(document, reg, s, loc, fuel);
      var d := Discriminator(s).value;
      r.out == Done(Reference(name)) && |parsed.out.value| == |OneOf(s).value| &&
      r.reg.types == parsed.reg.types && r.reg.enums == parsed.reg.enums &&
      r.reg.violations == parsed.reg.violations + UnionViolations(s, parsed.out.value) &&
      name.value in r.reg.unions && r.reg.unions[name.value].DiscriminatedUnion? &&
      r.reg.unions[name.value].members == ComplexMembers(parsed.out.value) &&
      r.reg.unions[name.value].discriminator == DiscriminatorName(PropertyName(d).value)
  {
    var parsed := ParseMembers(document, reg, OneOf(s).value, fuel);
    RegisterDiscriminated(parsed.reg, s, name, parsed.out.value, loc);
  }

  /** A named `oneOf` without a discriminator property registers a simple union of all members, in order. */
  lemma SimpleUnionMembers(document: Node, reg: Registry, s: JsonNode, loc: Loc, fuel: nat, name: Name)
    requires OneOf(s).Some? && ParseTypeName(document, Some(s)) == Some(name)
    requires Discriminator(s).None? || PropertyName(Discriminator(s).value).None?
    requires ParseMembers(document, reg, OneOf(s).value, fuel).out.Done?
    ensures var parsed := ParseMembers(document, reg, OneOf(s).value, fuel);
      var r := ParseOneOfUnion(document, reg, s, loc, fuel);
      r.out == Done(Reference(name)) &&
      r.reg == parsed.reg.(unions := parsed.reg.unions[name.value := SimpleUnion(name, DescriptionOf(s), parsed.out.value, loc)]) &&
      |parsed.out.value| == |OneOf(s).value|
  {
  }

  /** A `oneOf` without a name registers nothing beyond what its members did and is untyped. */
  lemma UnnamedUnionUntyped(document: Node, reg: Registry, s: JsonNode, loc: Loc, fuel: nat)
    requires OneOf(s).Some? && ParseTypeName(document, Some(s)).None?
    requires ParseMembers(document, reg, OneOf(s).value, fuel).out.Done?
    ensures ParseOneOfUnion(document, reg, s, loc, fuel) ==
            Effect(ParseMembers(document, reg, OneOf(s).value, fuel).reg, Done(Untyped()))
  {
  }

  // ---------------------------------------------------------------------------
  // Properties.
  // ---------------------------------------------------------------------------

  /**
   * A parsed property keeps the shape of its schema's member value (kind, type name
   * or primitive, array flag) and its registry, carries the converted `const` when
   * primitive, and takes the description `PropertyDescription` chooses.
   */
  lemma PropertyValueKept(document: Node, reg: Registry, item: RecordItem, fuel: nat)
    requires ParseProperty(document, reg, item, fuel).out.Done?
    ensures var e := ParseType(document, reg, Some(item.value), item.loc, fuel);
      var p := ParseProperty(document, reg, item, fuel);
      e.out.Done? && p.reg == e.reg &&
      var mv := e.out.value.memberValue;
      var v := p.out.value.value;
      (v.PrimitiveValue? <==> mv.PrimitiveValue?) && v.isArray == mv.isArray &&
      p.out.value.description == PropertyDescription(OwnDescription(item.value), mv, e.out.value.inheritedDescription) &&
      (mv.ComplexValue? ==> v.typeName == mv.typeName) &&
      (mv.PrimitiveValue? ==> v.primitive == mv.primitive && v.primitiveLoc == mv.primitiveLoc &&
                              ToPrimitiveValueConstant(Const(item.value)) == Done(v.constant))
  {
  }

  /** A primitive property whose `const` has no string, number or boolean value aborts, as the source throws. */
  lemma PropertyConstantAborts(document: Node, reg: Registry, item: RecordItem, fuel: nat)
    requires ParseType(document, reg, Some(item.value), item.loc, fuel).out.Done?
    requires ParseType(document, reg, Some(item.value), item.loc, fuel).out.value.memberValue.PrimitiveValue?
    requires ToPrimitiveValueConstant(Const(item.value)).Aborted?
    ensures ParseProperty(document, reg, item, fuel).out == Aborted(UnexpectedConstant)
  {
  }

  // ---------------------------------------------------------------------------
  // Objects: insert if absent.
  // ---------------------------------------------------------------------------

  /** A named object whose name is already registered changes nothing and refers to the existing type. */
  lemma ObjectAlreadyRegistered(document: Node, reg: Registry, s: JsonNode, loc: Loc, fuel: nat, name: Name)
    requires IsObjectType(SchemaType(s)) && ParseTypeName(document, Some(s)) == Some(name)
    requires name.value in reg.types
    ensures ParseObject(document, reg, s, loc, fuel) == Effect(reg, Done(Reference(name)))
  {
  }

  /**
   * A named object seen for the first time is registered under its name,
   * with one property per key not starting with `$`, in source order, and the
   * object-level rules of the schema.
   */
  lemma ObjectRegistered(document: Node, reg: Registry, s: JsonNode, loc: Loc, fuel: nat, name: Name)
    requires IsObjectType(SchemaType(s)) && ParseTypeName(document, Some(s)) == Some(name)
    requires name.value !in reg.types
    requires ParseObject(document, reg, s, loc, fuel).out.Done?
    ensures var r := ParseObject(document, reg, s, loc, fuel);
      r.out == Done(Reference(name)) && name.value in r.reg.types &&
      var t := r.reg.types[name.value];
      t.name == name && t.loc == loc && t.description == DescriptionOf(s) &&
      t.rules == ParseObjectValidationRules(s) &&
      NamedAfter(t.properties, Unprefixed(PropertyItems(s))) &&
      forall i :: 0 <= i < |t.properties| ==>
        t.properties[i].name.value.Str? && !StartsWith(t.properties[i].name.value.s, "$")
  {
    var items := Unprefixed(PropertyItems(s));
    var props := ParseProperties(document, reg, items, fuel);
    var t := ParseObject(document, reg, s, loc, fuel).reg.types[name.value];
    assert t.properties == props.out.value;
    forall i | 0 <= i < |t.properties|
      ensures t.properties[i].name.value.Str? && !StartsWith(t.properties[i].name.value.s, "$")
    {
      assert items[i] in items;
      assert t.properties[i].name == KeyName(items[i]);
    }
  }

  /** Parsing a named object again, at any location and with any fuel, changes nothing. */
  lemma ObjectIdempotent(document: Node, reg: Registry, s: JsonNode, loc: Loc, fuel: nat, loc': Loc, fuel': nat, name: Name)
    requires IsObjectType(SchemaType(s)) && ParseTypeName(document, Some(s)) == Some(name)
    requires ParseObject(document, reg, s, loc, fuel).out.Done?
    ensures var r := ParseObject(document, reg, s, loc, fuel);
      ParseObject(document, r.reg, s, loc', fuel') == r
  {
    if name.value !in reg.types {
      ObjectRegistered(document, reg, s, loc, fuel, name);
    }
  }

  /** Whichever way a named object parses, its name is then a registered type. */
  lemma ObjectInTypes(document: Node, reg: Registry, s: JsonNode, loc: Loc, fuel: nat, name: Name)
    requires IsObjectType(SchemaType(s)) && ParseTypeName(document, Some(s)) == Some(name)
    requires ParseObject(document, reg, s, loc, fuel).out.Done?
    ensures name.value in ParseObject(document, reg, s, loc, fuel).reg.types
  {
    if name.value !in reg.types {
      ObjectRegistered(document, reg, s, loc, fuel, name);
    }
  }

  /**
   * A named `allOf` that parses registers (replacing any earlier entry) a type
   * whose properties are every property of the intersected objects, `$` keys
   * included, in order, and whose rules are their object-level rules.
   */
  lemma IntersectionRegistered(document: Node, reg: Registry, s: JsonNode, loc: Loc, fuel: nat, name: Name)
    requires AllOf(s).Some? && ParseTypeName(document, Some(s)) == Some(name)
    requires ParseIntersection(document, reg, s, loc, fuel).out.Done?
    ensures var r := ParseIntersection(document, reg, s, loc, fuel);
      var objects := IntersectedObjects(document, AllOf(s).value);
      r.out == Done(Reference(name)) && name.value in r.reg.types &&
      var t := r.reg.types[name.value];
      t.name == name && t.loc == loc && t.description == DescriptionOf(s) &&
      t.rules == IntersectedRules(objects) && NamedAfter(t.properties, IntersectedItems(objects))
  {
    var objects := IntersectedObjects(document, AllOf(s).value);
    var props := ParseIntersectionProperties(document, reg, s, fuel);
    assert props == ParseProperties(document, reg, IntersectedItems(objects), fuel);
    assert ParseIntersection(document, reg, s, loc, fuel).reg.types[name.value].properties == props.out.value;
  }

  // ---------------------------------------------------------------------------
  // Enums and arrays.
  // ---------------------------------------------------------------------------

  /**
   * A named string `enum` registers (replacing any earlier entry) an enum of
   * its string entries; a non-string or unnamed `enum` is untyped and
   * changes nothing.
   */
  lemma EnumRegistered(document: Node, reg: Registry, s: JsonNode, loc: Loc)
    requires JsonSchema.Enum(s).Some?
    ensures var r := ParseEnum(document, reg, s, loc);
      var name := ParseTypeName(document, Some(s));
      var entries := JsonSchema.Enum(s).value;
      (IsStringType(SchemaType(s)) && name.Some? ==>
         r.out == Done(Reference(name.value)) && name.value.value in r.reg.enums &&
         var e := r.reg.enums[name.value.value];
         e.name == name.value && e.loc == loc && e.description == DescriptionOf(s) &&
         (forall x :: x in entries && StringEntry(x) ==> MemberOf(x) in e.members) &&
         (forall m :: m in e.members ==> m.content.value.Str?) &&
         (forall k :: k in reg.enums && k != name.value.value ==> k in r.reg.enums && r.reg.enums[k] == reg.enums[k])) &&
      (!IsStringType(SchemaType(s)) || name.None? ==> r == Effect(reg, Done(Untyped())))
  {
  }

  /** The tuple form of `items` stops the parse with the registry as it was. */
  lemma TupleNotImplemented(document: Node, reg: Registry, s: JsonNode, loc: Loc, fuel: nat)
    requires BranchOf(s) == ArrayBranch && IsTuple(Items(s))
    ensures ParseSchema(document, reg, s, loc, fuel) == Effect(reg, Aborted(NotImplemented))
  {
    assert ParseSchema(document, reg, s, loc, fuel) == Dispatch(document, reg, s, ArrayBranch, loc, fuel);
    assert ParseArray(document, reg, s, loc, fuel) == Effect(reg, Aborted(NotImplemented));
  }

  /**
   * An array schema is its `items` schema's value flagged as an array at the
   * location of `type`; without `items` it is an untyped array.
   */
  lemma ArrayOfItems(document: Node, reg: Registry, s: JsonNode, loc: Loc, fuel: nat)
    requires IsArrayType(SchemaType(s)) && !IsTuple(Items(s))
    ensures var r := ParseArray(document, reg, s, loc, fuel);
      var e := ParseType(document, reg, ItemSchema(Items(s)), LocOf(ItemSchema(Items(s))), fuel);
      var flag := TrueLiteral(SchemaType(s).value.node.node.loc);
      r.reg == e.reg && (r.out.Done? <==> e.out.Done?) &&
      (r.out.Done? ==>
         var item := e.out.value.memberValue;
         r.out.value.isArray == Some(flag) && r.out.value.isOptional == item.isOptional &&
         r.out.value.rules == item.rules && (r.out.value.ComplexValue? <==> item.ComplexValue?) &&
         (item.ComplexValue? ==> r.out.value.typeName == item.typeName) &&
         (item.PrimitiveValue? ==> r.out.value.primitive == item.primitive)) &&
      (Items(s).None? ==> r == Effect(reg, Done(AsArray(Untyped(), flag))))
  {
  }
}
