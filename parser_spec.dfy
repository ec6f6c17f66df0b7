/**
 * The type-graph builder of src/json-schema-parser.ts as functions. Each
 * function takes the registry as it is before the call and returns an
 * `Effect`: the registry after the call together with what the call returned,
 * or why it stopped. The class in parser.dfy is proved to compute exactly
 * these functions.
 *
 * The source recurses without bound (a schema whose property refers back to
 * it never returns), so every recursive function carries `fuel`; `ParseType`
 * spends one unit per call and stops with `FuelExhausted` when none is left.
 */
module ParserSpec {
  import opened Wrappers
  import opened Text
  import opened Json
  import opened JsonSchema
  import opened Utils
  import opened RuleFactories
  import opened Ir
  import opened ParserNames

  // ---------------------------------------------------------------------------
  // What every step keeps.
  // ---------------------------------------------------------------------------

  /** Registries only grow, and a closed registry stays closed. */
  predicate Steps<T>(before: Registry, e: Effect<T>) {
    Grows(before, e.reg) && (Closed(before) ==> Closed(e.reg))
  }

  // ---------------------------------------------------------------------------
  // Descriptions, violations and small value builders.
  // ---------------------------------------------------------------------------

  /** `toDescription(schema.description)`. */
  function DescriptionOf(s: JsonNode): Option<seq<TypedLiteral>> {
    ToDescription(LocatedOf(Description(s)))
  }

  /** `toDescription(schema.description) ?? []`. */
  function OwnDescription(s: JsonNode): seq<TypedLiteral> {
    DescriptionOf(s).GetOr([])
  }

  /** The text of a `$ref` (a string by construction of `Ref`). */
  function RefText(ref: JsonNode): string {
    match LiteralValue(ref)
    case Some(Str(text)) => text
    case _ => ""
  }

  /** The location of an optional node (`node?.loc`). */
  function LocOf(n: Option<JsonNode>): Loc {
    if n.Some? then n.value.node.loc else None
  }

  function UnresolvedRef(ref: string, range: Loc): Violation {
    Violation(ParserError, CannotResolveRef(ref), Error, range, "#")
  }

  function UnsupportedMapping(range: Loc): Violation {
    Violation(UnsupportedFeature, MappingNotSupported, Info, range, "#")
  }

  function PrimitiveDiscriminatorMember(range: Loc): Violation {
    Violation(MisconfiguredDiscriminator, PrimitiveMember, Error, range, "#")
  }

  /** The complex value every registering branch returns. */
  function Reference(name: Name): MemberValue {
    ComplexValue(name, None, None, [])
  }

  /** `{ ...items, isArray }`: the member value with its array flag replaced, everything else kept. */
  function AsArray(mv: MemberValue, flag: TrueLiteral): (r: MemberValue)
    ensures r.isArray == Some(flag) && r.isOptional == mv.isOptional && r.rules == mv.rules
    ensures r.PrimitiveValue? <==> mv.PrimitiveValue?
    ensures mv.ComplexValue? ==> r.typeName == mv.typeName
    ensures mv.PrimitiveValue? ==> r.primitive == mv.primitive && r.primitiveLoc == mv.primitiveLoc && r.constant == mv.constant
  {
    match mv
    case PrimitiveValue(p, ploc, _, optional, constant, rules) => PrimitiveValue(p, ploc, Some(flag), optional, constant, rules)
    case ComplexValue(name, _, optional, rules) => ComplexValue(name, Some(flag), optional, rules)
  }

  // ---------------------------------------------------------------------------
  // The dispatch order of `parseType`.
  // ---------------------------------------------------------------------------

  datatype Branch = RefBranch | AllOfBranch | AnyOfBranch | OneOfBranch | TypeArrayBranch
                  | EnumBranch | ObjectBranch | ArrayBranch | PrimitiveBranch

  /** The branches in the order `parseType` tries them. */
  function Position(b: Branch): nat {
    match b
    case RefBranch => 0
    case AllOfBranch => 1
    case AnyOfBranch => 2
    case OneOfBranch => 3
    case TypeArrayBranch => 4
    case EnumBranch => 5
    case ObjectBranch => 6
    case ArrayBranch => 7
    case PrimitiveBranch => 8
  }

  /** The guard of each branch; the primitive branch takes everything left. */
  predicate Applies(s: JsonNode, b: Branch) {
    match b
    case RefBranch => Ref(s).Some?
    case AllOfBranch => AllOf(s).Some?
    case AnyOfBranch => AnyOf(s).Some?
    case OneOfBranch => OneOf(s).Some?
    case TypeArrayBranch => SchemaType(s).Some? && SchemaType(s).value.Many?
    case EnumBranch => JsonSchema.Enum(s).Some?
    case ObjectBranch => IsObjectType(SchemaType(s))
    case ArrayBranch => IsArrayType(SchemaType(s))
    case PrimitiveBranch => true
  }

  /** The first branch, in dispatch order, whose guard holds. */
  function BranchOf(s: JsonNode): (r: Branch)
    ensures Applies(s, r)
    ensures forall b :: Position(b) < Position(r) ==> !Applies(s, b)
  {
    if Ref(s).Some? then RefBranch
    else if AllOf(s).Some? then AllOfBranch
    else if AnyOf(s).Some? then AnyOfBranch
    else if OneOf(s).Some? then OneOfBranch
    else if SchemaType(s).Some? && SchemaType(s).value.Many? then TypeArrayBranch
    else if JsonSchema.Enum(s).Some? then EnumBranch
    else if IsObjectType(SchemaType(s)) then ObjectBranch
    else if IsArrayType(SchemaType(s)) then ArrayBranch
    else PrimitiveBranch
  }

  // ---------------------------------------------------------------------------
  // Pure selections the builder makes before it recurses.
  // ---------------------------------------------------------------------------

  /** `schema.definitions.children`, or nothing without `definitions`. */
  function DefinitionItems(s: JsonNode): seq<RecordItem> {
    if Definitions(s).Some? then RecordChildren(Definitions(s).value) else []
  }

  /** `schema.properties?.children`. */
  function PropertyItems(s: JsonNode): seq<RecordItem> {
    if PropertiesRecord(s).Some? then RecordChildren(PropertiesRecord(s).value) else []
  }

  /** The record items whose key does not start with `$`, in source order. */
  function Unprefixed(items: seq<RecordItem>): (r: seq<RecordItem>)
    ensures |r| <= |items|
    ensures forall x :: x in r <==> x in items && !StartsWith(x.key, "$")
  {
    if items == [] then []
    else (if StartsWith(items[0].key, "$") then [] else [items[0]]) + Unprefixed(items[1..])
  }

  /** Appending an item extends the kept items by it exactly when its key has no `$`, so source order is kept. */
  lemma {:induction false} UnprefixedSnoc(items: seq<RecordItem>, x: RecordItem)
    ensures Unprefixed(items + [x]) == Unprefixed(items) + (if StartsWith(x.key, "$") then [] else [x])
    decreases |items|
  {
    if items == [] {
      assert [x][1..] == [];
    } else {
      assert (items + [x])[1..] == items[1..] + [x];
      UnprefixedSnoc(items[1..], x);
    }
  }

  /** An `allOf` member, or the schema its `$ref` resolves to. */
  function AllOfTarget(document: Node, part: JsonNode): Option<JsonNode> {
    match Ref(part)
    case Some(ref) => ResolveNode(document, RefText(ref))
    case None => Some(part)
  }

  /** The `allOf` members (through one `$ref`) whose `type` is the single value `object`, in order. */
  function IntersectedObjects(document: Node, parts: seq<JsonNode>): (r: seq<JsonNode>)
    ensures |r| <= |parts|
    ensures forall o :: o in r ==> IsObjectType(SchemaType(o))
    ensures forall i :: 0 <= i < |parts| && AllOfTarget(document, parts[i]).Some? &&
                        IsObjectType(SchemaType(AllOfTarget(document, parts[i]).value)) ==>
                        AllOfTarget(document, parts[i]).value in r
  {
    if parts == [] then []
    else
      var target := AllOfTarget(document, parts[0]);
      var rest := IntersectedObjects(document, parts[1..]);
      assert forall i :: 1 <= i < |parts| ==> parts[i] == parts[1..][i - 1];
      (if target.Some? && IsObjectType(SchemaType(target.value)) then [target.value] else []) + rest
  }

  /** `objects.flatMap((node) => node.properties?.children)`: no `$` filter here. */
  function IntersectedItems(objects: seq<JsonNode>): (r: seq<RecordItem>)
    ensures objects == [] ==> r == []
    ensures objects != [] ==> r == PropertyItems(objects[0]) + IntersectedItems(objects[1..])
  {
    if objects == [] then [] else PropertyItems(objects[0]) + IntersectedItems(objects[1..])
  }

  /** `objects.flatMap(parseObjectValidationRules)`. */
  function IntersectedRules(objects: seq<JsonNode>): (r: seq<ObjectValidationRule>)
    ensures objects == [] ==> r == []
    ensures objects != [] ==> r == ParseObjectValidationRules(objects[0]) + IntersectedRules(objects[1..])
  {
    if objects == [] then [] else ParseObjectValidationRules(objects[0]) + IntersectedRules(objects[1..])
  }

  /** An `enum` entry that `parseEnum` keeps. */
  predicate StringEntry(e: JsonNode) {
    LiteralValue(e).Some? && LiteralValue(e).value.Str?
  }

  /** The member an entry becomes: `toStringLiteral(value.asLiteral)`. */
  function MemberOf(e: JsonNode): EnumMember {
    EnumMember(TypedLiteral(StringLiteral, LiteralValue(e).GetOr(Null), e.node.loc))
  }

  /** The string-valued `enum` entries as members, in order; other entries are dropped. */
  function EnumMembers(entries: seq<JsonNode>): (r: seq<EnumMember>)
    ensures |r| <= |entries|
    ensures forall e :: e in entries && StringEntry(e) ==> MemberOf(e) in r
    ensures forall m :: m in r ==> m.content.kind == StringLiteral && m.content.value.Str?
  {
    if entries == [] then []
    else (if StringEntry(entries[0]) then [MemberOf(entries[0])] else []) + EnumMembers(entries[1..])
  }

  /** Appending an entry extends the members by it exactly when it is a string, so entry order is kept. */
  lemma {:induction false} EnumMembersSnoc(entries: seq<JsonNode>, e: JsonNode)
    ensures EnumMembers(entries + [e]) == EnumMembers(entries) + (if StringEntry(e) then [MemberOf(e)] else [])
    decreases |entries|
  {
    if entries == [] {
      assert [e][1..] == [];
    } else {
      assert (entries + [e])[1..] == entries[1..] + [e];
      EnumMembersSnoc(entries[1..], e);
    }
  }

  /** The non-primitive member values, in order. */
  function ComplexMembers(members: seq<MemberValue>): (r: seq<MemberValue>)
    ensures |r| <= |members|
    ensures forall v :: v in r <==> v in members && v.ComplexValue?
  {
    if members == [] then []
    else (if members[0].ComplexValue? then [members[0]] else []) + ComplexMembers(members[1..])
  }

  /** One misconfigured-discriminator error per primitive member, in order. */
  function PrimitiveMemberViolations(members: seq<MemberValue>, range: Loc): (r: seq<Violation>)
    ensures |r| <= |members|
  {
    if members == [] then []
    else (if members[0].PrimitiveValue? then [PrimitiveDiscriminatorMember(range)] else []) +
         PrimitiveMemberViolations(members[1..], range)
  }

  lemma {:induction false} ComplexMembersSnoc(members: seq<MemberValue>, v: MemberValue)
    ensures ComplexMembers(members + [v]) == ComplexMembers(members) + (if v.ComplexValue? then [v] else [])
    decreases |members|
  {
    if members == [] {
      assert [v][1..] == [];
    } else {
      assert (members + [v])[1..] == members[1..] + [v];
      ComplexMembersSnoc(members[1..], v);
    }
  }

  lemma {:induction false} PrimitiveMemberViolationsSnoc(members: seq<MemberValue>, v: MemberValue, range: Loc)
    ensures PrimitiveMemberViolations(members + [v], range) ==
            PrimitiveMemberViolations(members, range) + (if v.PrimitiveValue? then [PrimitiveDiscriminatorMember(range)] else [])
    decreases |members|
  {
    if members == [] {
      assert [v][1..] == [];
      assert PrimitiveMemberViolations([v], range) ==
             (if v.PrimitiveValue? then [PrimitiveDiscriminatorMember(range)] else []) + PrimitiveMemberViolations([], range);
    } else {
      var tail := members[1..];
      assert (members + [v])[0] == members[0];
      assert (members + [v])[1..] == tail + [v];
      var head := if members[0].PrimitiveValue? then [PrimitiveDiscriminatorMember(range)] else [];
      assert PrimitiveMemberViolations(members + [v], range) == head + PrimitiveMemberViolations(tail + [v], range);
      assert PrimitiveMemberViolations(members, range) == head + PrimitiveMemberViolations(tail, range);
      PrimitiveMemberViolationsSnoc(tail, v, range);
    }
  }

  /** Every member is either kept as complex or reported as primitive, once. */
  lemma {:induction false} MembersPartition(members: seq<MemberValue>, range: Loc)
    ensures |ComplexMembers(members)| + |PrimitiveMemberViolations(members, range)| == |members|
    ensures forall v :: v in PrimitiveMemberViolations(members, range) ==> v == PrimitiveDiscriminatorMember(range)
    decreases |members|
  {
    if members != [] {
      MembersPartition(members[1..], range);
    }
  }

  /** A subsequence of known values is known. */
  lemma ComplexMembersKnown(reg: Registry, members: seq<MemberValue>)
    requires MembersKnown(reg, members)
    ensures MembersKnown(reg, ComplexMembers(members))
  {
    var r := ComplexMembers(members);
    forall i | 0 <= i < |r| ensures Known(reg, r[i]) {
      assert r[i] in members;
    }
  }

  /** `toStringLiteral(propertyName)`. */
  function DiscriminatorName(propertyName: JsonNode): TypedLiteral {
    TypedLiteral(StringLiteral, LiteralValue(propertyName).GetOr(Null), propertyName.node.loc)
  }

  /**
   * The violations registering a union reports: with a discriminator
   * property, a notice for a `mapping` and then one error per primitive
   * member; nothing otherwise.
   */
  function UnionViolations(s: JsonNode, members: seq<MemberValue>): seq<Violation> {
    var d := Discriminator(s);
    if d.Some? && PropertyName(d.value).Some? then
      (if Mapping(d.value).Some? then [UnsupportedMapping(Mapping(d.value).value.node.loc)] else []) +
      PrimitiveMemberViolations(members, d.value.node.loc)
    else []
  }

  /**
   * The registry after `parseOneOfUnion` found its members and a name: with a
   * discriminator property, the mapping and primitive-member violations and
   * a discriminated union of the complex members; otherwise a simple union
   * of all members.
   */
  function RegisterUnion(reg: Registry, s: JsonNode, name: Name, members: seq<MemberValue>, loc: Loc): (r: Registry)
    ensures Grows(reg, r) && name.value in r.unions
    ensures r.types == reg.types && r.enums == reg.enums && r.violations == reg.violations + UnionViolations(s, members)
    ensures Closed(reg) && MembersKnown(reg, members) ==> Closed(r)
  {
    var d := Discriminator(s);
    if d.Some? && PropertyName(d.value).Some? then
      var mapping := if Mapping(d.value).Some? then [UnsupportedMapping(Mapping(d.value).value.node.loc)] else [];
      var withViolations := WithViolations(reg, mapping + PrimitiveMemberViolations(members, d.value.node.loc));
      var u := DiscriminatedUnion(name, DescriptionOf(s), DiscriminatorName(PropertyName(d.value).value), ComplexMembers(members), loc);
      if Closed(reg) && MembersKnown(reg, members) then
        MembersKnownGrows(reg, withViolations, members);
        ComplexMembersKnown(withViolations, members);
        WithUnion(withViolations, name.value, u)
      else WithUnion(withViolations, name.value, u)
    else WithUnion(reg, name.value, SimpleUnion(name, DescriptionOf(s), members, loc))
  }

  /** The description a property carries: its own, else what a primitive value inherited; none when empty. */
  function PropertyDescription(own: seq<TypedLiteral>, mv: MemberValue, inherited: seq<TypedLiteral>): (r: Option<seq<TypedLiteral>>)
    ensures r.Some? ==> |r.value| > 0
    ensures own != [] ==> r == Some(own)
    ensures own == [] && mv.ComplexValue? ==> r.None?
  {
    var d := if own == [] && mv.PrimitiveValue? then inherited else own;
    if |d| > 0 then Some(d) else None
  }

  /** `toStringLiteral(child.key)`. */
  function KeyName(item: RecordItem): TypedLiteral {
    TypedLiteral(StringLiteral, Str(item.key), item.keyLoc)
  }

  // ---------------------------------------------------------------------------
  // The builder. Ranks after `fuel` order the mutual recursion.
  // ---------------------------------------------------------------------------

  /**
   * `parseType`: an absent schema is untyped and changes nothing; otherwise
   * every `definitions` child is parsed first, then the first applicable
   * branch runs.
   */
  function ParseType(document: Node, reg: Registry, schema: Option<JsonNode>, loc: Loc, fuel: nat): (r: Effect<Parsed>)
    ensures Steps(reg, r)
    ensures r.out.Done? ==> Known(r.reg, r.out.value.memberValue)
    decreases fuel, 0, 0
  {
    if schema.None? then Effect(reg, Done(Parsed(Untyped(), [])))
    else if fuel == 0 then Effect(reg, Aborted(FuelExhausted))
    else ParseDefined(document, reg, schema.value, loc, fuel - 1)
  }

  /** A present schema: its `definitions` children first, then the dispatch. */
  function ParseDefined(document: Node, reg: Registry, s: JsonNode, loc: Loc, fuel: nat): (r: Effect<Parsed>)
    ensures Steps(reg, r)
    ensures r.out.Done? ==> Known(r.reg, r.out.value.memberValue)
    decreases fuel, 7, 0
  {
    var visited := VisitDefinitions(document, reg, DefinitionItems(s), fuel);
    if visited.out.Aborted? then Effect(visited.reg, Aborted(visited.out.reason))
    else ParseSchema(document, visited.reg, s, loc, fuel)
  }

  /** The loop over `definitions` children, each parsed at its own location; results are discarded. */
  function VisitDefinitions(document: Node, reg: Registry, items: seq<RecordItem>, fuel: nat): (r: Effect<()>)
    ensures Steps(reg, r)
    decreases fuel, 1, |items|
  {
    if items == [] then Effect(reg, Done(()))
    else
      var first := ParseType(document, reg, Some(items[0].value), items[0].loc, fuel);
      if first.out.Aborted? then Effect(first.reg, Aborted(first.out.reason))
      else VisitDefinitions(document, first.reg, items[1..], fuel)
  }

  /** One turn of the source's loop over the `definitions` children. */
  lemma VisitDefinitionsStep(document: Node, reg: Registry, items: seq<RecordItem>, i: nat, fuel: nat)
    requires i < |items|
    ensures VisitDefinitions(document, reg, items[i..], fuel) ==
      var e := ParseType(document, reg, Some(items[i].value), items[i].loc, fuel);
      if e.out.Aborted? then Effect(e.reg, Aborted(e.out.reason))
      else VisitDefinitions(document, e.reg, items[i + 1..], fuel)
  {
    assert items[i..][0] == items[i] && items[i..][1..] == items[i + 1..];
  }

  /** The dispatch of `parseType`: the first branch that applies. */
  function ParseSchema(document: Node, reg: Registry, s: JsonNode, loc: Loc, fuel: nat): (r: Effect<Parsed>)
    ensures Steps(reg, r)
    ensures r.out.Done? ==> Known(r.reg, r.out.value.memberValue)
    decreases fuel, 6, 0
  {
    Dispatch(document, reg, s, BranchOf(s), loc, fuel)
  }

  /** One branch of `parseType`, with the description it passes on. */
  function Dispatch(document: Node, reg: Registry, s: JsonNode, branch: Branch, loc: Loc, fuel: nat): (r: Effect<Parsed>)
    ensures Steps(reg, r)
    ensures r.out.Done? ==> Known(r.reg, r.out.value.memberValue)
    decreases fuel, 5, 0
  {
    var own := OwnDescription(s);
    match branch
    case RefBranch =>
      var e := ParseRef(document, reg, s, loc, fuel);
      if e.out.Aborted? then e
      else Effect(e.reg, Done(Parsed(e.out.value.memberValue, own + e.out.value.inheritedDescription + own)))
    case AllOfBranch => Described(ParseIntersection(document, reg, s, loc, fuel), own)
    case AnyOfBranch => Effect(reg, Done(Parsed(Untyped(), own)))
    case OneOfBranch => Described(ParseOneOfUnion(document, reg, s, loc, fuel), own + own)
    case TypeArrayBranch => Effect(reg, Done(Parsed(Untyped(), own)))
    case EnumBranch => Described(ParseEnum(document, reg, s, loc), own)
    case ObjectBranch => Described(ParseObject(document, reg, s, loc, fuel), own)
    case ArrayBranch => Described(ParseArray(document, reg, s, loc, fuel), own)
    case PrimitiveBranch => Effect(reg, Done(Parsed(ParsePrimitive(document, s, loc), own)))
  }

  /** A branch's member value paired with the inherited description. */
  function Described(e: Effect<MemberValue>, description: seq<TypedLiteral>): (r: Effect<Parsed>)
    ensures r.reg == e.reg && r.out.Done? == e.out.Done?
    ensures r.out.Done? ==> r.out.value == Parsed(e.out.value, description)
    ensures r.out.Aborted? ==> r.out.reason == e.out.reason
  {
    match e.out
    case Aborted(reason) => Effect(e.reg, Aborted(reason))
    case Done(mv) => Effect(e.reg, Done(Parsed(mv, description)))
  }

  /** `parseRef`: the target's parse when the pointer resolves, else one error and untyped. */
  function ParseRef(document: Node, reg: Registry, s: JsonNode, loc: Loc, fuel: nat): (r: Effect<Parsed>)
    ensures Steps(reg, r)
    ensures r.out.Done? ==> Known(r.reg, r.out.value.memberValue)
    decreases fuel, 1, 0
  {
    match Ref(s)
    case None => Effect(reg, Done(Parsed(Untyped(), [])))
    case Some(ref) =>
      match ResolveNode(document, RefText(ref))
      case Some(target) => ParseType(document, reg, Some(target), loc, fuel)
      case None => Effect(WithViolations(reg, [UnresolvedRef(RefText(ref), ref.node.loc)]), Done(Parsed(Untyped(), [])))
  }

  /** A list result with `xs` put in front; a stop passes through unchanged. */
  function Prefixed<T>(xs: seq<T>, e: Effect<seq<T>>): (r: Effect<seq<T>>)
    ensures r.reg == e.reg && r.out.Done? == e.out.Done?
    ensures r.out.Done? ==> r.out.value == xs + e.out.value
    ensures r.out.Aborted? ==> r == e
  {
    match e.out
    case Aborted(_) => e
    case Done(ys) => Effect(e.reg, Done(xs + ys))
  }

  lemma PrefixedNothing<T>(e: Effect<seq<T>>)
    ensures Prefixed([], e) == e
  {
    if e.out.Done? { assert [] + e.out.value == e.out.value; }
  }

  lemma PrefixedTwice<T>(xs: seq<T>, ys: seq<T>, e: Effect<seq<T>>)
    ensures Prefixed(xs, Prefixed(ys, e)) == Prefixed(xs + ys, e)
  {
    if e.out.Done? { assert xs + (ys + e.out.value) == (xs + ys) + e.out.value; }
  }

  /** The `oneOf` members, each parsed at its own location, in order. */
  function ParseMembers(document: Node, reg: Registry, alternatives: seq<JsonNode>, fuel: nat): (r: Effect<seq<MemberValue>>)
    ensures Steps(reg, r)
    ensures r.out.Done? ==> |r.out.value| == |alternatives| && MembersKnown(r.reg, r.out.value)
    decreases fuel, 1, |alternatives|
  {
    if alternatives == [] then Effect(reg, Done([]))
    else
      var first := ParseType(document, reg, Some(alternatives[0]), alternatives[0].node.loc, fuel);
      if first.out.Aborted? then Effect(first.reg, Aborted(first.out.reason))
      else
        var rest := ParseMembers(document, first.reg, alternatives[1..], fuel);
        if rest.out.Done? then
          KnownGrows(first.reg, rest.reg, first.out.value.memberValue);
          Prefixed([first.out.value.memberValue], rest)
        else Prefixed([first.out.value.memberValue], rest)
  }

  /** One turn of the source's `map` over the `oneOf` members, from the accumulated prefix `acc`. */
  lemma ParseMembersStep(document: Node, reg: Registry, alternatives: seq<JsonNode>, i: nat, fuel: nat, acc: seq<MemberValue>)
    requires i < |alternatives|
    ensures Prefixed(acc, ParseMembers(document, reg, alternatives[i..], fuel)) ==
      var e := ParseType(document, reg, Some(alternatives[i]), alternatives[i].node.loc, fuel);
      if e.out.Aborted? then Effect(e.reg, Aborted(e.out.reason))
      else Prefixed(acc + [e.out.value.memberValue], ParseMembers(document, e.reg, alternatives[i + 1..], fuel))
  {
    assert alternatives[i..][0] == alternatives[i] && alternatives[i..][1..] == alternatives[i + 1..];
    var e := ParseType(document, reg, Some(alternatives[i]), alternatives[i].node.loc, fuel);
    if e.out.Done? {
      PrefixedTwice(acc, [e.out.value.memberValue], ParseMembers(document, e.reg, alternatives[i + 1..], fuel));
    }
  }

  /** `parseOneOfUnion`: the members are parsed first; a named schema registers its union. */
  function ParseOneOfUnion(document: Node, reg: Registry, s: JsonNode, loc: Loc, fuel: nat): (r: Effect<MemberValue>)
    ensures Steps(reg, r)
    ensures r.out.Done? ==> Known(r.reg, r.out.value)
    decreases fuel, 2, 0
  {
    match OneOf(s)
    case None => Effect(reg, Done(Untyped()))
    case Some(alternatives) =>
      var parsed := ParseMembers(document, reg, alternatives, fuel);
      if parsed.out.Aborted? then Effect(parsed.reg, Aborted(parsed.out.reason))
      else
        match ParseTypeName(document, Some(s))
        case None => Effect(parsed.reg, Done(Untyped()))
        case Some(name) => Effect(RegisterUnion(parsed.reg, s, name, parsed.out.value, loc), Done(Reference(name)))
  }

  /** `parseProperty`: the value's parse, then its description, optionality, `const` and rules. */
  function ParseProperty(document: Node, reg: Registry, item: RecordItem, fuel: nat): (r: Effect<Ir.Property>)
    ensures Steps(reg, r)
    ensures r.out.Done? ==> Known(r.reg, r.out.value.value)
    ensures r.out.Done? ==> r.out.value.name == KeyName(item) && r.out.value.loc == item.loc
    ensures r.out.Done? ==> r.out.value.value.isOptional == ParseIsOptional(document, item.value)
    ensures r.out.Done? ==> r.out.value.value.rules == ParseValidationRules(item.value)
    decreases fuel, 1, 0
  {
    var e := ParseType(document, reg, Some(item.value), item.loc, fuel);
    if e.out.Aborted? then Effect(e.reg, Aborted(e.out.reason))
    else
      var mv := e.out.value.memberValue;
      var description := PropertyDescription(OwnDescription(item.value), mv, e.out.value.inheritedDescription);
      var optional := ParseIsOptional(document, item.value);
      var rules := ParseValidationRules(item.value);
      match mv
      case PrimitiveValue(p, ploc, isArray, _, _, _) =>
        (match ToPrimitiveValueConstant(Const(item.value))
         case Aborted(reason) => Effect(e.reg, Aborted(reason))
         case Done(c) =>
           Effect(e.reg, Done(Ir.Property(KeyName(item), description, PrimitiveValue(p, ploc, isArray, optional, c, rules), item.loc))))
      case ComplexValue(name, isArray, _, _) =>
        Effect(e.reg, Done(Ir.Property(KeyName(item), description, ComplexValue(name, isArray, optional, rules), item.loc)))
  }

  /** Each property is named after, and located at, the record item in the same position. */
  predicate NamedAfter(ps: seq<Ir.Property>, items: seq<RecordItem>) {
    |ps| == |items| && forall i :: 0 <= i < |items| ==> ps[i].name == KeyName(items[i]) && ps[i].loc == items[i].loc
  }

  lemma NamedAfterCons(reg: Registry, p: Ir.Property, ps: seq<Ir.Property>, items: seq<RecordItem>)
    requires items != [] && NamedAfter(ps, items[1..]) && PropertiesKnown(reg, ps)
    requires p.name == KeyName(items[0]) && p.loc == items[0].loc && Known(reg, p.value)
    ensures NamedAfter([p] + ps, items) && PropertiesKnown(reg, [p] + ps)
  {
    var all := [p] + ps;
    forall i | 0 <= i < |items| ensures all[i].name == KeyName(items[i]) && all[i].loc == items[i].loc {
      if i > 0 { assert all[i] == ps[i - 1] && items[i] == items[1..][i - 1]; }
    }
    forall i | 0 <= i < |all| ensures Known(reg, all[i].value) {
      if i > 0 { assert all[i] == ps[i - 1]; }
    }
  }

  /** The properties of a record, parsed in order. */
  function ParseProperties(document: Node, reg: Registry, items: seq<RecordItem>, fuel: nat): (r: Effect<seq<Ir.Property>>)
    ensures Steps(reg, r)
    ensures r.out.Done? ==> NamedAfter(r.out.value, items) && PropertiesKnown(r.reg, r.out.value)
    decreases fuel, 2, |items|
  {
    if items == [] then Effect(reg, Done([]))
    else
      var first := ParseProperty(document, reg, items[0], fuel);
      if first.out.Aborted? then Effect(first.reg, Aborted(first.out.reason))
      else
        var rest := ParseProperties(document, first.reg, items[1..], fuel);
        if rest.out.Done? then
          KnownGrows(first.reg, rest.reg, first.out.value.value);
          NamedAfterCons(rest.reg, first.out.value, rest.out.value, items);
          Prefixed([first.out.value], rest)
        else Prefixed([first.out.value], rest)
  }

  /** One turn of the source's loop over the properties, from the accumulated prefix `acc`. */
  lemma ParsePropertiesStep(document: Node, reg: Registry, items: seq<RecordItem>, i: nat, fuel: nat, acc: seq<Ir.Property>)
    requires i < |items|
    ensures Prefixed(acc, ParseProperties(document, reg, items[i..], fuel)) ==
      var e := ParseProperty(document, reg, items[i], fuel);
      if e.out.Aborted? then Effect(e.reg, Aborted(e.out.reason))
      else Prefixed(acc + [e.out.value], ParseProperties(document, e.reg, items[i + 1..], fuel))
  {
    assert items[i..][0] == items[i] && items[i..][1..] == items[i + 1..];
    var e := ParseProperty(document, reg, items[i], fuel);
    if e.out.Done? {
      PrefixedTwice(acc, [e.out.value], ParseProperties(document, e.reg, items[i + 1..], fuel));
    }
  }

  /** `parseIntersectionProperties`: every property of the intersected objects, `$` keys included. */
  function ParseIntersectionProperties(document: Node, reg: Registry, s: JsonNode, fuel: nat): (r: Effect<seq<Ir.Property>>)
    ensures Steps(reg, r)
    ensures r.out.Done? ==> PropertiesKnown(r.reg, r.out.value)
    decreases fuel, 3, 0
  {
    match AllOf(s)
    case None => Effect(reg, Done([]))
    case Some(parts) => ParseProperties(document, reg, IntersectedItems(IntersectedObjects(document, parts)), fuel)
  }

  /** `parseIntersection`: a named `allOf` registers (overwriting) a type merging the object members. */
  function ParseIntersection(document: Node, reg: Registry, s: JsonNode, loc: Loc, fuel: nat): (r: Effect<MemberValue>)
    ensures Steps(reg, r)
    ensures r.out.Done? ==> Known(r.reg, r.out.value)
    decreases fuel, 4, 0
  {
    match AllOf(s)
    case None => Effect(reg, Done(Untyped()))
    case Some(parts) =>
      match ParseTypeName(document, Some(s))
      case None => Effect(reg, Done(Untyped()))
      case Some(name) =>
        var props := ParseIntersectionProperties(document, reg, s, fuel);
        if props.out.Aborted? then Effect(props.reg, Aborted(props.out.reason))
        else
          var t := Ir.Type(name, DescriptionOf(s), props.out.value, IntersectedRules(IntersectedObjects(document, parts)), loc);
          Effect(WithType(props.reg, name.value, t), Done(Reference(name)))
  }

  /** `parseArray`: the tuple form stops; otherwise the item shape flagged as an array at `type`'s location. */
  function ParseArray(document: Node, reg: Registry, s: JsonNode, loc: Loc, fuel: nat): (r: Effect<MemberValue>)
    ensures Steps(reg, r)
    ensures r.out.Done? ==> Known(r.reg, r.out.value)
    decreases fuel, 1, 0
  {
    if !IsArrayType(SchemaType(s)) then Effect(reg, Done(UntypedArray()))
    else
      if IsTuple(Items(s)) then Effect(reg, Aborted(NotImplemented))
      else
        var items := ItemSchema(Items(s));
        var e := ParseType(document, reg, items, LocOf(items), fuel);
        if e.out.Aborted? then Effect(e.reg, Aborted(e.out.reason))
        else Effect(e.reg, Done(AsArray(e.out.value.memberValue, TrueLiteral(SchemaType(s).value.node.node.loc))))
  }

  /** `Array.isArray(schema.items)`. */
  predicate IsTuple(items: Option<OneOrMany>) {
    items.Some? && items.value.Many?
  }

  /** The single `items` schema, if there is one. */
  function ItemSchema(items: Option<OneOrMany>): Option<JsonNode> {
    match items
    case Some(One(n)) => Some(n)
    case _ => None
  }

  /** `parseObject`: a named object registers its type once; later calls leave the entry as it is. */
  function ParseObject(document: Node, reg: Registry, s: JsonNode, loc: Loc, fuel: nat): (r: Effect<MemberValue>)
    ensures Steps(reg, r)
    ensures r.out.Done? ==> Known(r.reg, r.out.value)
    decreases fuel, 3, 0
  {
    if !IsObjectType(SchemaType(s)) then Effect(reg, Done(Untyped()))
    else
      match ParseTypeName(document, Some(s))
      case None => Effect(reg, Done(Untyped()))
      case Some(name) =>
        if name.value in reg.types then Effect(reg, Done(Reference(name)))
        else
          var props := ParseProperties(document, reg, Unprefixed(PropertyItems(s)), fuel);
          if props.out.Aborted? then Effect(props.reg, Aborted(props.out.reason))
          else
            var t := Ir.Type(name, DescriptionOf(s), props.out.value, ParseObjectValidationRules(s), loc);
            Effect(WithType(props.reg, name.value, t), Done(Reference(name)))
  }

  /** `parseEnum`: a named string enum registers (overwriting) its string members. */
  function ParseEnum(document: Node, reg: Registry, s: JsonNode, loc: Loc): (r: Effect<MemberValue>)
    ensures Steps(reg, r) && r.out.Done?
    ensures Known(r.reg, r.out.value)
    ensures r.reg.types == reg.types && r.reg.unions == reg.unions && r.reg.violations == reg.violations
  {
    match JsonSchema.Enum(s)
    case None => Effect(reg, Done(Untyped()))
    case Some(entries) =>
      if !IsStringType(SchemaType(s)) then Effect(reg, Done(Untyped()))
      else
        match ParseTypeName(document, Some(s))
        case None => Effect(reg, Done(Untyped()))
        case Some(name) =>
          Effect(WithEnum(reg, name.value, Ir.Enum(name, DescriptionOf(s), loc, EnumMembers(entries))), Done(Reference(name)))
  }

  /** `parse()`: the document parsed from the empty registry at pointer `#`. */
  function Parse(document: Node, fuel: nat): (r: Effect<Parsed>)
    ensures Closed(r.reg)
    ensures r.out.Done? ==> Known(r.reg, r.out.value.memberValue)
  {
    EmptyClosed();
    ParseType(document, EmptyRegistry, Some(JsonNode(document, "#")), document.loc, fuel)
  }
}
