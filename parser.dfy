/**
 * `JsonSchemaParser` (src/json-schema-parser.ts): a parser object over one
 * document whose methods fill the `types`, `enums` and `unions` maps and the
 * `violations` list in place. Every method is proved to leave the parser in
 * the state, and to return the value, that the matching function of
 * `ParserSpec` computes from the state the method started in.
 */
module Parser {
  import opened Wrappers
  import opened Json
  import opened JsonSchema
  import opened Utils
  import opened RuleFactories
  import opened Ir
  import opened ParserNames
  import Spec = ParserSpec

  class JsonSchemaParser {
    const source: Node
    var types: map<string, Type>
    var enums: map<string, Ir.Enum>
    var unions: map<string, Union>
    var violations: seq<Violation>

    /** The registries as one value. */
    function State(): Registry
      reads this
    {
      Registry(types, enums, unions, violations)
    }

    constructor(document: Node)
      ensures source == document && State() == EmptyRegistry
    {
      source := document;
      types := map[];
      enums := map[];
      unions := map[];
      violations := [];
    }

    /** `parse()`: the document from its root `#`, at the document's location. */
    method Parse(fuel: nat) returns (r: Outcome<Parsed>)
      modifies this
      ensures Effect(State(), r) == Spec.ParseType(source, old(State()), Some(JsonNode(source, "#")), source.loc, fuel)
    {
      r := ParseType(Some(JsonNode(source, "#")), source.loc, fuel);
    }

    /** `parseType`: each `definitions` child first, then the first branch whose guard holds. */
    method ParseType(schema: Option<JsonNode>, loc: Loc, fuel: nat) returns (r: Outcome<Parsed>)
      modifies this
      ensures Effect(State(), r) == Spec.ParseType(source, old(State()), schema, loc, fuel)
      decreases fuel, 0, 0
    {
      if schema.None? {
        return Done(Parsed(Untyped(), []));
      }
      if fuel == 0 {
        return Aborted(FuelExhausted);
      }
      r := ParseDefined(schema.value, loc, fuel - 1);
    }

    /** `parseType` on a present schema: the `definitions` children, then the dispatch. */
    method ParseDefined(s: JsonNode, loc: Loc, fuel: nat) returns (r: Outcome<Parsed>)
      modifies this
      ensures Effect(State(), r) == Spec.ParseDefined(source, old(State()), s, loc, fuel)
      decreases fuel, 7, 0
    {
      var visited := VisitDefinitions(Spec.DefinitionItems(s), fuel);
      if visited.Aborted? {
        return Aborted(visited.reason);
      }
      r := ParseSchema(s, loc, fuel);
    }

    /** The loop of `parseType` over `definitions` children; their results are discarded. */
    method VisitDefinitions(items: seq<RecordItem>, fuel: nat) returns (r: Outcome<()>)
      modifies this
      ensures Effect(State(), r) == Spec.VisitDefinitions(source, old(State()), items, fuel)
      decreases fuel, 1, |items|
    {
      var i := 0;
      while i < |items|
        invariant 0 <= i <= |items|
        invariant Spec.VisitDefinitions(source, old(State()), items, fuel) ==
                  Spec.VisitDefinitions(source, State(), items[i..], fuel)
      {
        Spec.VisitDefinitionsStep(source, State(), items, i, fuel);
        var child := ParseType(Some(items[i].value), items[i].loc, fuel);
        if child.Aborted? {
          return Aborted(child.reason);
        }
        i := i + 1;
      }
      assert items[i..] == [];
      r := Done(());
    }

    /** The dispatch half of `parseType`. */
    method ParseSchema(s: JsonNode, loc: Loc, fuel: nat) returns (r: Outcome<Parsed>)
      modifies this
      ensures Effect(State(), r) == Spec.ParseSchema(source, old(State()), s, loc, fuel)
      decreases fuel, 5, 0
    {
      var inherited := Spec.OwnDescription(s);
      var mv: Outcome<MemberValue>;
      match Spec.BranchOf(s) {
        case RefBranch =>
          var parsedRef := ParseRef(s, loc, fuel);
          if parsedRef.Aborted? {
            return parsedRef;
          }
          return Done(Parsed(parsedRef.value.memberValue, inherited + parsedRef.value.inheritedDescription + inherited));
        case AllOfBranch =>
          mv := ParseIntersection(s, loc, fuel);
        case AnyOfBranch =>
          return Done(Parsed(Untyped(), inherited));
        case OneOfBranch =>
          mv := ParseOneOfUnion(s, loc, fuel);
          inherited := inherited + inherited;
        case TypeArrayBranch =>
          return Done(Parsed(Untyped(), inherited));
        case EnumBranch =>
          mv := ParseEnum(s, loc);
        case ObjectBranch =>
          mv := ParseObject(s, loc, fuel);
        case ArrayBranch =>
          mv := ParseArray(s, loc, fuel);
        case PrimitiveBranch =>
          return Done(Parsed(ParsePrimitive(source, s, loc), inherited));
      }
      if mv.Aborted? {
        return Aborted(mv.reason);
      }
      r := Done(Parsed(mv.value, inherited));
    }

    /** `parseRef`: the target's parse, or one `PARSER_ERROR` violation and untyped. */
    method ParseRef(s: JsonNode, loc: Loc, fuel: nat) returns (r: Outcome<Parsed>)
      modifies this
      ensures Effect(State(), r) == Spec.ParseRef(source, old(State()), s, loc, fuel)
      decreases fuel, 1, 0
    {
      var ref := Ref(s);
      if ref.None? {
        return Done(Parsed(Untyped(), []));
      }
      var target := Spec.RefText(ref.value);
      var resolved := Resolve(source, target);
      if resolved.Some? {
        r := ParseType(resolved, loc, fuel);
        return;
      }
      violations := violations + [Spec.UnresolvedRef(target, ref.value.node.loc)];
      r := Done(Parsed(Untyped(), []));
    }

    /** `schema.oneOf.map((member) => this.parseType(member, member.loc).memberValue)`. */
    method ParseMembers(alternatives: seq<JsonNode>, fuel: nat) returns (r: Outcome<seq<MemberValue>>)
      modifies this
      ensures Effect(State(), r) == Spec.ParseMembers(source, old(State()), alternatives, fuel)
      decreases fuel, 1, |alternatives|
    {
      var members: seq<MemberValue> := [];
      Spec.PrefixedNothing(Spec.ParseMembers(source, State(), alternatives, fuel));
      var i := 0;
      while i < |alternatives|
        invariant 0 <= i <= |alternatives|
        invariant Spec.ParseMembers(source, old(State()), alternatives, fuel) ==
                  Spec.Prefixed(members, Spec.ParseMembers(source, State(), alternatives[i..], fuel))
      {
        Spec.ParseMembersStep(source, State(), alternatives, i, fuel, members);
        var parsed := ParseType(Some(alternatives[i]), alternatives[i].node.loc, fuel);
        if parsed.Aborted? {
          return Aborted(parsed.reason);
        }
        members := members + [parsed.value.memberValue];
        i := i + 1;
      }
      assert alternatives[i..] == [];
      assert members + [] == members;
      r := Done(members);
    }

    /** `parseOneOfUnion`: the members, then the union under the schema's name. */
    method ParseOneOfUnion(s: JsonNode, loc: Loc, fuel: nat) returns (r: Outcome<MemberValue>)
      modifies this
      ensures Effect(State(), r) == Spec.ParseOneOfUnion(source, old(State()), s, loc, fuel)
      decreases fuel, 2, 0
    {
      var oneOf := OneOf(s);
      if oneOf.None? {
        return Done(Untyped());
      }
      var members := ParseMembers(oneOf.value, fuel);
      if members.Aborted? {
        return Aborted(members.reason);
      }
      var typeName := ParseTypeName(source, Some(s));
      if typeName.None? {
        return Done(Untyped());
      }
      RegisterUnion(s, typeName.value, members.value, loc);
      r := Done(Spec.Reference(typeName.value));
    }

    /**
     * The registration half of `parseOneOfUnion`: with a discriminator property,
     * the mapping violation, the loop that reports primitive members and keeps
     * complex ones, and the discriminated union; otherwise the simple union.
     */
    method RegisterUnion(s: JsonNode, name: Name, members: seq<MemberValue>, loc: Loc)
      modifies this
      ensures State() == Spec.RegisterUnion(old(State()), s, name, members, loc)
    {
      var d := Discriminator(s);
      if d.Some? && PropertyName(d.value).Some? {
        ghost var before := State();
        var mapping := Mapping(d.value);
        ghost var mapped: seq<Violation> := [];
        if mapping.Some? {
          mapped := [Spec.UnsupportedMapping(mapping.value.node.loc)];
          violations := violations + [Spec.UnsupportedMapping(mapping.value.node.loc)];
        }
        var complexTypes, reported := KeepComplex(members, d.value.node.loc);
        violations := violations + reported;
        assert violations == before.violations + (mapped + reported);
        ghost var withViolations := WithViolations(before, mapped + reported);
        assert State() == withViolations;
        unions := unions[name.value :=
          DiscriminatedUnion(name, Spec.DescriptionOf(s), Spec.DiscriminatorName(PropertyName(d.value).value), complexTypes, loc)];
      } else {
        unions := unions[name.value := SimpleUnion(name, Spec.DescriptionOf(s), members, loc)];
      }
    }

    /** The loop over the members of a discriminated union: primitive members are reported, complex ones kept. */
    static method KeepComplex(members: seq<MemberValue>, range: Loc) returns (complexTypes: seq<MemberValue>, reported: seq<Violation>)
      ensures complexTypes == Spec.ComplexMembers(members)
      ensures reported == Spec.PrimitiveMemberViolations(members, range)
    {
      complexTypes := [];
      reported := [];
      var j := 0;
      while j < |members|
        invariant 0 <= j <= |members|
        invariant complexTypes == Spec.ComplexMembers(members[..j])
        invariant reported == Spec.PrimitiveMemberViolations(members[..j], range)
      {
        assert members[..j + 1] == members[..j] + [members[j]];
        Spec.ComplexMembersSnoc(members[..j], members[j]);
        Spec.PrimitiveMemberViolationsSnoc(members[..j], members[j], range);
        if members[j].PrimitiveValue? {
          reported := reported + [Spec.PrimitiveDiscriminatorMember(range)];
        } else {
          complexTypes := complexTypes + [members[j]];
        }
        j := j + 1;
      }
      assert members[..j] == members;
    }

    /** `parseProperty`: the value's parse, with the property's own description, optionality, `const` and rules. */
    method ParseProperty(item: RecordItem, fuel: nat) returns (r: Outcome<Ir.Property>)
      modifies this
      ensures Effect(State(), r) == Spec.ParseProperty(source, old(State()), item, fuel)
      decreases fuel, 1, 0
    {
      var parsed := ParseType(Some(item.value), item.loc, fuel);
      if parsed.Aborted? {
        return Aborted(parsed.reason);
      }
      var mv := parsed.value.memberValue;
      var description := Spec.PropertyDescription(Spec.OwnDescription(item.value), mv, parsed.value.inheritedDescription);
      var optional := ParseIsOptional(source, item.value);
      var rules := ParseValidationRules(item.value);
      if mv.PrimitiveValue? {
        var constant := ToPrimitiveValueConstant(Const(item.value));
        if constant.Aborted? {
          return Aborted(constant.reason);
        }
        var value := PrimitiveValue(mv.primitive, mv.primitiveLoc, mv.isArray, optional, constant.value, rules);
        r := Done(Ir.Property(Spec.KeyName(item), description, value, item.loc));
      } else {
        var value := ComplexValue(mv.typeName, mv.isArray, optional, rules);
        r := Done(Ir.Property(Spec.KeyName(item), description, value, item.loc));
      }
    }

    /** The `.map((child) => this.parseProperty(child))` over record items, in order. */
    method ParseProperties(items: seq<RecordItem>, fuel: nat) returns (r: Outcome<seq<Ir.Property>>)
      modifies this
      ensures Effect(State(), r) == Spec.ParseProperties(source, old(State()), items, fuel)
      decreases fuel, 2, |items|
    {
      var properties: seq<Ir.Property> := [];
      Spec.PrefixedNothing(Spec.ParseProperties(source, State(), items, fuel));
      var i := 0;
      while i < |items|
        invariant 0 <= i <= |items|
        invariant Spec.ParseProperties(source, old(State()), items, fuel) ==
                  Spec.Prefixed(properties, Spec.ParseProperties(source, State(), items[i..], fuel))
      {
        Spec.ParsePropertiesStep(source, State(), items, i, fuel, properties);
        var property := ParseProperty(items[i], fuel);
        if property.Aborted? {
          return Aborted(property.reason);
        }
        properties := properties + [property.value];
        i := i + 1;
      }
      assert items[i..] == [];
      assert properties + [] == properties;
      r := Done(properties);
    }

    /** `parseIntersectionProperties`. */
    method ParseIntersectionProperties(s: JsonNode, fuel: nat) returns (r: Outcome<seq<Ir.Property>>)
      modifies this
      ensures Effect(State(), r) == Spec.ParseIntersectionProperties(source, old(State()), s, fuel)
      decreases fuel, 3, 0
    {
      var allOf := AllOf(s);
      if allOf.None? {
        return Done([]);
      }
      var objects := Spec.IntersectedObjects(source, allOf.value);
      r := ParseProperties(Spec.IntersectedItems(objects), fuel);
    }

    /** `parseIntersection`: the merged type, registered under the schema's name. */
    method ParseIntersection(s: JsonNode, loc: Loc, fuel: nat) returns (r: Outcome<MemberValue>)
      modifies this
      ensures Effect(State(), r) == Spec.ParseIntersection(source, old(State()), s, loc, fuel)
      decreases fuel, 4, 0
    {
      var allOf := AllOf(s);
      if allOf.None? {
        return Done(Untyped());
      }
      var typeName := ParseTypeName(source, Some(s));
      if typeName.None? {
        return Done(Untyped());
      }
      var name := typeName.value;
      var objects := Spec.IntersectedObjects(source, allOf.value);
      var properties := ParseIntersectionProperties(s, fuel);
      if properties.Aborted? {
        return Aborted(properties.reason);
      }
      var rules := Spec.IntersectedRules(objects);
      types := types[name.value := Ir.Type(name, Spec.DescriptionOf(s), properties.value, rules, loc)];
      r := Done(Spec.Reference(name));
    }

    /** `parseArray`: the item shape flagged as an array; the tuple form stops. */
    method ParseArray(s: JsonNode, loc: Loc, fuel: nat) returns (r: Outcome<MemberValue>)
      modifies this
      ensures Effect(State(), r) == Spec.ParseArray(source, old(State()), s, loc, fuel)
      decreases fuel, 1, 0
    {
      if !IsArrayType(SchemaType(s)) {
        return Done(UntypedArray());
      }
      if Spec.IsTuple(Items(s)) {
        return Aborted(NotImplemented);
      }
      var items := Spec.ItemSchema(Items(s));
      var parsed := ParseType(items, Spec.LocOf(items), fuel);
      if parsed.Aborted? {
        return Aborted(parsed.reason);
      }
      r := Done(Spec.AsArray(parsed.value.memberValue, TrueLiteral(SchemaType(s).value.node.node.loc)));
    }

    /** `parseObject`: the type is registered only if its name is not taken yet. */
    method ParseObject(s: JsonNode, loc: Loc, fuel: nat) returns (r: Outcome<MemberValue>)
      modifies this
      ensures Effect(State(), r) == Spec.ParseObject(source, old(State()), s, loc, fuel)
      decreases fuel, 3, 0
    {
      if !IsObjectType(SchemaType(s)) {
        return Done(Untyped());
      }
      var typeName := ParseTypeName(source, Some(s));
      if typeName.None? {
        return Done(Untyped());
      }
      var name := typeName.value;
      if name.value !in types {
        var properties := ParseProperties(Spec.Unprefixed(Spec.PropertyItems(s)), fuel);
        if properties.Aborted? {
          return Aborted(properties.reason);
        }
        types := types[name.value := Ir.Type(name, Spec.DescriptionOf(s), properties.value, ParseObjectValidationRules(s), loc)];
      }
      r := Done(Spec.Reference(name));
    }

    /** `parseEnum`: a string enum registered under the schema's name. */
    method ParseEnum(s: JsonNode, loc: Loc) returns (r: Outcome<MemberValue>)
      modifies this
      ensures Effect(State(), r) == Spec.ParseEnum(source, old(State()), s, loc)
    {
      var entries := JsonSchema.Enum(s);
      if entries.None? || !IsStringType(SchemaType(s)) {
        return Done(Untyped());
      }
      var typeName := ParseTypeName(source, Some(s));
      if typeName.None? {
        return Done(Untyped());
      }
      var name := typeName.value;
      enums := enums[name.value := Ir.Enum(name, Spec.DescriptionOf(s), loc, Spec.EnumMembers(entries.value))];
      r := Done(Spec.Reference(name));
    }
  }

  /** `jsonSchemaParser`: a fresh parser over the document, then `parse()`; the registries and the result. */
  method ParseDocument(document: Node, fuel: nat) returns (reg: Registry, r: Outcome<Parsed>)
    ensures Effect(reg, r) == Spec.Parse(document, fuel)
    ensures Closed(reg)
  {
    var parser := new JsonSchemaParser(document);
    r := parser.Parse(fuel);
    reg := parser.State();
  }
}
