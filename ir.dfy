/**
 * The intermediate representation the parser builds: member values, types,
 * enums, unions and violations, the registries that collect them, and the
 * placeholders `untyped` and `untypedArray`.
 */
module Ir {
  import opened Wrappers
  import opened Json
  import opened Utils
  import opened RuleFactories

  datatype Primitive = UntypedPrimitive | Boolean | Integer | Long | Number | Float | Double | String | Date | DateTime

  /** A `TrueLiteral` flag (`isArray`, `isOptional`). */
  datatype TrueLiteral = TrueLiteral(loc: Loc)

  /** A string literal naming a type, enum or union. */
  datatype Name = Name(value: string, loc: Loc)

  /** `PrimitiveValueConstant`: the `const` of a primitive property. */
  datatype Constant = StringConstant(s: string, loc: Loc) | NumberConstant(text: string, loc: Loc) | BooleanConstant(b: bool, loc: Loc)

  datatype MemberValue =
    | PrimitiveValue(primitive: Primitive, primitiveLoc: Loc, isArray: Option<TrueLiteral>,
                     isOptional: Option<TrueLiteral>, constant: Option<Constant>, rules: seq<ValidationRule>)
    | ComplexValue(typeName: Name, isArray: Option<TrueLiteral>, isOptional: Option<TrueLiteral>, rules: seq<ValidationRule>)

  datatype Property = Property(name: TypedLiteral, description: Option<seq<TypedLiteral>>, value: MemberValue, loc: Loc)

  datatype Type = Type(name: Name, description: Option<seq<TypedLiteral>>, properties: seq<Property>,
                       rules: seq<ObjectValidationRule>, loc: Loc)

  datatype EnumMember = EnumMember(content: TypedLiteral)

  datatype Enum = Enum(name: Name, description: Option<seq<TypedLiteral>>, loc: Loc, members: seq<EnumMember>)

  datatype Union =
    | DiscriminatedUnion(name: Name, description: Option<seq<TypedLiteral>>, discriminator: TypedLiteral,
                         members: seq<MemberValue>, loc: Loc)
    | SimpleUnion(name: Name, description: Option<seq<TypedLiteral>>, members: seq<MemberValue>, loc: Loc)

  datatype Severity = Error | Info

  /** The three violation codes the parser reports; `CodeText` is the code as emitted. */
  datatype Code = ParserError | UnsupportedFeature | MisconfiguredDiscriminator

  function CodeText(c: Code): string {
    match c
    case ParserError => "PARSER_ERROR"
    case UnsupportedFeature => "json-schema/unsupported-feature"
    case MisconfiguredDiscriminator => "openapi-3/misconfigured-discriminator"
  }

  /** The three violation messages; `MessageText` is the message as emitted. */
  datatype Message = CannotResolveRef(ref: string) | MappingNotSupported | PrimitiveMember

  function MessageText(m: Message): string {
    match m
    case CannotResolveRef(ref) => "Cannot resolve ref '" + ref + "'"
    case MappingNotSupported => "Discriminator mapping is not yet supported and will have no effect."
    case PrimitiveMember => "Discriminators may not reference primitive types."
  }

  datatype Violation = Violation(code: Code, message: Message, severity: Severity, range: Loc, sourcePath: string)

  /** What `parseType` returns. */
  datatype Parsed = Parsed(memberValue: MemberValue, inheritedDescription: seq<TypedLiteral>)

  /**
   * Why a parse stopped without a result: the tuple form of `items` and a
   * `null` constant throw in the source; running out of fuel is the model's
   * stand-in for the source's unbounded recursion.
   */
  datatype AbortReason = NotImplemented | UnexpectedConstant | FuelExhausted

  datatype Outcome<T> = Done(value: T) | Aborted(reason: AbortReason)

  /** The parser's mutable state: the three registries and the violations list. */
  datatype Registry = Registry(types: map<string, Type>, enums: map<string, Enum>, unions: map<string, Union>,
                               violations: seq<Violation>)

  const EmptyRegistry := Registry(map[], map[], map[], [])

  /** The registry after an operation, with what the operation returned. */
  datatype Effect<T> = Effect(reg: Registry, out: Outcome<T>)

  /** The placeholder for a schema the parser cannot or does not type. */
  function Untyped(): (r: MemberValue)
    ensures r.PrimitiveValue? && r.primitive == UntypedPrimitive && r.isArray.None? && r.isOptional.None?
    ensures r.rules == [] && r.constant.None? && r.primitiveLoc.None?
  {
    PrimitiveValue(UntypedPrimitive, None, None, None, None, [])
  }

  /** The same placeholder, flagged as an array. */
  function UntypedArray(): (r: MemberValue)
    ensures r.PrimitiveValue? && r.primitive == UntypedPrimitive && r.isArray == Some(TrueLiteral(None))
    ensures r.isOptional.None? && r.rules == [] && r.constant.None? && r.primitiveLoc.None?
  {
    PrimitiveValue(UntypedPrimitive, None, Some(TrueLiteral(None)), None, None, [])
  }

  /** Every name a returned complex value carries is registered in some registry. */
  predicate Known(reg: Registry, v: MemberValue) {
    v.ComplexValue? ==> v.typeName.value in reg.types || v.typeName.value in reg.enums || v.typeName.value in reg.unions
  }

  predicate MembersKnown(reg: Registry, vs: seq<MemberValue>) {
    forall i :: 0 <= i < |vs| ==> Known(reg, vs[i])
  }

  predicate PropertiesKnown(reg: Registry, ps: seq<Property>) {
    forall i :: 0 <= i < |ps| ==> Known(reg, ps[i].value)
  }

  /** A registry whose property and member values only name registered entries. */
  predicate Closed(reg: Registry) {
    (forall k :: k in reg.types ==> PropertiesKnown(reg, reg.types[k].properties)) &&
    (forall k :: k in reg.unions ==> MembersKnown(reg, reg.unions[k].members))
  }

  /** Registries only grow: no key disappears and no violation is taken back. */
  predicate Grows(before: Registry, after: Registry) {
    before.types.Keys <= after.types.Keys && before.enums.Keys <= after.enums.Keys &&
    before.unions.Keys <= after.unions.Keys && before.violations <= after.violations
  }

  lemma GrowsTransitive(a: Registry, b: Registry, c: Registry)
    requires Grows(a, b) && Grows(b, c)
    ensures Grows(a, c)
  {
  }

  lemma KnownGrows(a: Registry, b: Registry, v: MemberValue)
    requires Grows(a, b) && Known(a, v)
    ensures Known(b, v)
  {
  }

  lemma MembersKnownGrows(a: Registry, b: Registry, vs: seq<MemberValue>)
    requires Grows(a, b) && MembersKnown(a, vs)
    ensures MembersKnown(b, vs)
  {
    forall i | 0 <= i < |vs| ensures Known(b, vs[i]) {
      KnownGrows(a, b, vs[i]);
    }
  }

  lemma PropertiesKnownGrows(a: Registry, b: Registry, ps: seq<Property>)
    requires Grows(a, b) && PropertiesKnown(a, ps)
    ensures PropertiesKnown(b, ps)
  {
    forall i | 0 <= i < |ps| ensures Known(b, ps[i].value) {
      KnownGrows(a, b, ps[i].value);
    }
  }

  /** `types.set(name, t)`. */
  function WithType(reg: Registry, name: string, t: Type): (r: Registry)
    ensures Grows(reg, r) && r.types == reg.types[name := t]
    ensures r.enums == reg.enums && r.unions == reg.unions && r.violations == reg.violations
    ensures Closed(reg) && PropertiesKnown(reg, t.properties) ==> Closed(r)
  {
    var r := Registry(reg.types[name := t], reg.enums, reg.unions, reg.violations);
    if Closed(reg) && PropertiesKnown(reg, t.properties) then
      PropertiesKnownGrows(reg, r, t.properties);
      forall k | k in r.types ensures PropertiesKnown(r, r.types[k].properties) {
        if k != name { PropertiesKnownGrows(reg, r, reg.types[k].properties); }
      }
      forall k | k in r.unions ensures MembersKnown(r, r.unions[k].members) {
        MembersKnownGrows(reg, r, reg.unions[k].members);
      }
      r
    else r
  }

  /** `enums.set(name, e)`. */
  function WithEnum(reg: Registry, name: string, e: Enum): (r: Registry)
    ensures Grows(reg, r) && r.enums == reg.enums[name := e]
    ensures r.types == reg.types && r.unions == reg.unions && r.violations == reg.violations
    ensures Closed(reg) ==> Closed(r)
  {
    var r := Registry(reg.types, reg.enums[name := e], reg.unions, reg.violations);
    if Closed(reg) then
      forall k | k in r.types ensures PropertiesKnown(r, r.types[k].properties) {
        PropertiesKnownGrows(reg, r, reg.types[k].properties);
      }
      forall k | k in r.unions ensures MembersKnown(r, r.unions[k].members) {
        MembersKnownGrows(reg, r, reg.unions[k].members);
      }
      r
    else r
  }

  /** The members a union lists. */
  function UnionMembers(u: Union): seq<MemberValue> {
    match u
    case DiscriminatedUnion(_, _, _, members, _) => members
    case SimpleUnion(_, _, members, _) => members
  }

  /** `unions.set(name, u)`. */
  function WithUnion(reg: Registry, name: string, u: Union): (r: Registry)
    ensures Grows(reg, r) && r.unions == reg.unions[name := u]
    ensures r.types == reg.types && r.enums == reg.enums && r.violations == reg.violations
    ensures Closed(reg) && MembersKnown(reg, UnionMembers(u)) ==> Closed(r)
  {
    var r := Registry(reg.types, reg.enums, reg.unions[name := u], reg.violations);
    if Closed(reg) && MembersKnown(reg, UnionMembers(u)) then
      MembersKnownGrows(reg, r, UnionMembers(u));
      assert r.unions[name].members == UnionMembers(u);
      forall k | k in r.types ensures PropertiesKnown(r, r.types[k].properties) {
        PropertiesKnownGrows(reg, r, reg.types[k].properties);
      }
      forall k | k in r.unions ensures MembersKnown(r, r.unions[k].members) {
        if k != name { MembersKnownGrows(reg, r, reg.unions[k].members); }
      }
      r
    else r
  }

  /** `violations.push(...vs)`. */
  function WithViolations(reg: Registry, vs: seq<Violation>): (r: Registry)
    ensures Grows(reg, r) && r.violations == reg.violations + vs
    ensures r.types == reg.types && r.enums == reg.enums && r.unions == reg.unions
    ensures Closed(reg) ==> Closed(r)
  {
    var r := Registry(reg.types, reg.enums, reg.unions, reg.violations + vs);
    if Closed(reg) then
      forall k | k in r.types ensures PropertiesKnown(r, r.types[k].properties) {
        PropertiesKnownGrows(reg, r, reg.types[k].properties);
      }
      forall k | k in r.unions ensures MembersKnown(r, r.unions[k].members) {
        MembersKnownGrows(reg, r, reg.unions[k].members);
      }
      r
    else r
  }

  /** The empty registry is closed. */
  lemma EmptyClosed()
    ensures Closed(EmptyRegistry)
  {
  }
}
