# JSON Schema to Basketry IR, modelled in Dafny

This project models the core of `basketry/json-schema`: the parser that turns a
JSON Schema document into Basketry's intermediate representation (types, enums,
unions and violations).

The model has four layers, one module or a few modules each, in the order the
source builds on them.

- **JSON pointer layer** (`Text`, `Json`). The JSON AST is a datatype of Object,
  Array, Literal and Identifier nodes. A `JsonNode` pairs an AST node with its
  pointer string.
  - The accessors `_child`, `_array`, `_property`, `_keys`, `_values` and
    `LiteralNode.value` are functions.
  - `resolve` and `getName` are methods whose loops advance a cursor segment by
    segment. Each is proved equal to a recursive walk (`ResolveNode`, `NameOf`).
  - Lemmas about that walk state how `#`, object, array and literal segments behave.
- **Schema view** (`JsonSchema`, `Utils`). Keyword accessors, the `is*Type`
  guards, `SchemaRecordNode.children`, the literal converters and `toDescription`.
- **Validation rules** (`RuleFactories`). The ten leaf factories, the three object
  factories and the two pipelines, written as a filter-map over the fixed factory list.
- **Type graph builder** (`Ir`, `ParserNames`, `ParserSpec`, `Parser`,
  `ParserProperties`).
  - `Parser.JsonSchemaParser` is a class whose `State()` holds the `types`, `enums`
    and `unions` maps and the `violations` list. Its methods update that state in place.
  - Every method is proved equal to a functional specification in `ParserSpec`. Each
    spec function maps a registry and a schema node to the new registry and an outcome.
  - `ParserProperties` proves what each branch of `parseType` does to the registries.
  - Pure helpers (`parseTypeName`, `parseIsRequired`, `parseIsOptional`,
    `parsePrimitive`, `toPrimitiveValueConstant`, `untyped`, `untypedArray`) live
    in `ParserNames` and `Ir`.

### How the model departs from the source

- A JavaScript exception becomes an `Aborted` outcome that every caller passes on
  unchanged. There are two such exceptions: the tuple-form `items` error and the
  unexpected constant type.
- The source recurses without bound on a schema that refers to itself, for example
  a `$ref` cycle, or an object whose property refers back to the object before it
  is registered. The model adds a `fuel` parameter instead. An exhausted fuel is a
  third kind of abort, `FuelExhausted`, which the source does not have.
- Violation codes and messages are enumerations. `Ir.CodeText` and `Ir.MessageText`
  give the exact strings the source writes.

## Model

| member | source | states |
|---|---|---|
| Json.NodePredicates | src/json.ts:184-218 | `isValueNode` holds exactly for Object, Array and Literal nodes, so an absent node or an Identifier is not a value node |
| Json.Keys | src/json.ts:25-27 | an object gives one key identifier per property, in order; any other node gives none |
| Json.PropertyNodes | src/json.ts:30-32 | an object gives its properties; any other node gives none |
| Json.ValueNodes | src/json.ts:35-37 | an array gives its elements; any other node gives none |
| Json.FindIndex | src/json.ts:68-72 | a found index names a property with that key |
| Json.FindIndexFirst | src/json.ts:68-72 | the found property is the first with that key, and there is none exactly when no key matches |
| Json.PropertyOf | src/json.ts:68-72 | only an object has properties, and a found property carries the requested key |
| Json.PropertyOfFirst | src/json.ts:68-72 | `_property` returns the first property with the key; it finds nothing exactly when no key matches |
| Json.Child | src/json.ts:45-53 | a child exists exactly when the property does; it wraps the property's value with pointer `p/key` |
| Json.ArrayOf | src/json.ts:55-66 | present exactly when the property holds an array; element i keeps its node and gets pointer `p/key/i` |
| Json.LiteralValue | src/json.ts:96-101 | defined exactly for Literal and Identifier nodes, giving the literal's value or the identifier's name |
| Json.AsLiteral | src/json.ts:89-94 | defined exactly when `value` is, and pairs that value with the node's own loc |
| Json.LiteralChild | src/json.ts:74-78 | the `_literal` accessor: the child under a key, and only when that child has a literal value |
| Json.ResolveNode | src/json.ts:104-136 | a resolved node carries the pointer it was resolved from |
| Json.Resolve | src/json.ts:104-136 | the cursor loop over the pointer's segments returns exactly what the recursive walk `ResolveNode` gives |
| Json.GetName | src/json.ts:138-176 | the loop that also tracks the last object key returns exactly `NameOf`, the walk's last key |
| Json.NotRootedResolvesToNothing | src/json.ts:110-116 | a pointer whose first segment is not `#` resolves to nothing and has no name |
| Json.EmptyPointerResolvesToNothing | src/json.ts:110-116 | the empty pointer resolves to nothing and has no name |
| Json.RootResolvesToDocument | src/json.ts:111-113 | `#` resolves to the document itself and has no name |
| Json.HashResets | src/json.ts:111-113 | a trailing `#` segment resets the cursor to the document, and the name stays that of the prefix |
| Json.ResolveObjectStep | src/json.ts:125-131 | one more segment on an object resolves to the first child with that key, or to nothing; the name becomes that key |
| Json.ResolveArrayStep | src/json.ts:118-124 | on an array, a segment that is not a number gives nothing and no name; an index in range gives that element; an index out of range gives nothing; a numeric segment keeps the name of the previous object step |
| Json.ResolveLiteralStep | src/json.ts:132-135 | on a literal the cursor stays where it is and the name is kept, so a further segment is ignored |
| Json.ChildAnchored | src/json.ts:45-53 | for a key without `/`, resolving the child's pointer from the root gives the same node `_child` returned |
| Json.ArrayOfAnchored | src/json.ts:55-66 | every element `_array` returns is reached again by resolving its pointer `p/key/i` |
| Text.JoinSplit | src/utils.ts:94 | joining the pieces of `split(sep)` with `sep` gives the original string back |
| Text.SplitPartsFree | src/utils.ts:94 | no piece of a split contains the separator |
| Text.SplitJoin | src/json.ts:110 | splitting a `/`-join of `/`-free segments gives those segments back, which is what lets accessor pointers be walked |
| Text.IndexRoundTrip | src/json.ts:119-121 | `Number` applied to the index text that `_array` writes gives that index back |
| Text.FirstIndex | src/json.ts:110 | the first occurrence of the separator: nothing before it matches, and there is none exactly when the string does not contain it |
| Text.NatToStringHasNoSlash | src/json.ts:63 | the index text in an `_array` pointer never contains `/` and is never `#`, so it is one ordinary segment |
| JsonSchema.StringChild | src/json-schema.ts:5-15 | `$ref` and `description` are read only when they are string literals |
| JsonSchema.Definitions | src/json-schema.ts:81-83 | `definitions` is read from the `definitions` key alone, with pointer `p/definitions`; `$defs` is not read |
| JsonSchema.ArrayOrChild | src/json-schema.ts:93-98 | a keyword holding an array is read as its elements; anything else is read as one child; a missing keyword is absent |
| JsonSchema.SchemaType | src/json-schema.ts:93-98 | `type` prefers the array form: an array gives many, any other value gives one |
| JsonSchema.Items | src/json-schema.ts:49-51 | `items` prefers the array form in the same way |
| JsonSchema.TypeGuards | src/json-schema.ts:180-229 | every `is*Type` guard is false for an array-form `type`; `isNumericType` holds iff `isNumberType` or `isIntegerType` does; the families exclude each other |
| JsonSchema.RecordChildren | src/json-schema.ts:171-177 | one item per property in source order, keyed by the property's key, with value pointer `recordPointer/key` |
| JsonSchema.RecordChildAnchored | src/json-schema.ts:168-177 | for the first property with its key, resolving the item's pointer from the root reaches the item's schema |
| Utils.ToStringLiteral | src/utils.ts:17-25 | absent input gives absent output; present input keeps its value and loc and only gets kind `StringLiteral` |
| Utils.ToNonEmptyStringLiteral | src/utils.ts:35-43 | the same with kind `NonEmptyStringLiteral`, performing no emptiness check |
| Utils.ToNonNegativeNumberLiteral | src/utils.ts:53-61 | the same with kind `NonNegativeNumberLiteral` |
| Utils.ToNumberLiteral | src/utils.ts:71-79 | the same with kind `NumberLiteral` |
| Utils.Paragraphs | src/utils.ts:94-100 | one StringLiteral per `\n\n`-separated piece, in order, all sharing one loc |
| Utils.ToDescription | src/utils.ts:87-101 | absent input gives nothing; a string gives at least one paragraph, each a StringLiteral carrying the node's loc |
| Utils.DescriptionRoundTrip | src/utils.ts:94-100 | joining the paragraphs' texts with `\n\n` gives the original description, and no paragraph contains `\n\n` |
| RuleFactories.ToNonNegativeIntegerLiteral | src/rule-factories.ts:254-260 | the value and loc are kept and only the kind becomes `NonNegativeIntegerLiteral` |
| RuleFactories.StringMaxLengthRule | src/rule-factories.ts:61-75 | a rule exists exactly when `type` is the single literal `string` and `maxLength` is a number; it carries that literal and the keyword's range |
| RuleFactories.StringMinLengthRule | src/rule-factories.ts:77-91 | the same for `minLength` |
| RuleFactories.StringPatternRule | src/rule-factories.ts:93-104 | a rule exists exactly for a single `string` type with a string `pattern` |
| RuleFactories.StringFormatRule | src/rule-factories.ts:106-117 | a rule exists exactly for a single `string` type with a string `format` |
| RuleFactories.NumberMultipleOfRule | src/rule-factories.ts:119-133 | a rule exists exactly for a `number` or `integer` type with a number `multipleOf` |
| RuleFactories.NumberGreaterThanRule | src/rule-factories.ts:135-146 | a numeric type with a number `minimum` gives `NumberGT` when `exclusiveMinimum` is truthy and `NumberGTE` otherwise |
| RuleFactories.NumberLessThanRule | src/rule-factories.ts:148-159 | the same for `maximum`, giving `NumberLT` or `NumberLTE` |
| RuleFactories.ArrayMinItemsRule | src/rule-factories.ts:161-172 | a rule exists exactly for a single `array` type with a number `minItems` |
| RuleFactories.ArrayMaxItemsRule | src/rule-factories.ts:174-185 | a rule exists exactly for a single `array` type with a number `maxItems` |
| RuleFactories.ArrayUniqueItemsRule | src/rule-factories.ts:187-198 | a rule exists exactly for a single `array` type whose `uniqueItems` is truthy |
| RuleFactories.Apply | src/rule-factories.ts:40-43 | each factory the pipeline calls meets that factory's specification |
| RuleFactories.Collect | src/rule-factories.ts:40-43 | the filter-map yields at most one rule per factory |
| RuleFactories.CollectMembers | src/rule-factories.ts:40-43 | a rule is yielded exactly when some factory in the list produced it |
| RuleFactories.CollectInOrder | src/rule-factories.ts:40-43 | over a factory list in order, the rule ids come out in the same order |
| RuleFactories.ValidationRulesInOrder | src/rule-factories.ts:24-44 | `parseValidationRules` yields at most 10 rules, ordered by factory position |
| RuleFactories.ValidationRulesWellFormed | src/rule-factories.ts:24-44 | every yielded rule has the kind, literal and range its factory specifies |
| RuleFactories.ValidationRulesCarried | src/rule-factories.ts:24-44 | a rule id appears exactly when the node carries that keyword under its guard |
| RuleFactories.RulesOneFamily | src/rule-factories.ts:24-44 | all rules of one node belong to one family: string, numeric or array |
| RuleFactories.BoundsExclusive | src/rule-factories.ts:135-159 | a bound yields its exclusive form or its inclusive form, never both, and one of them whenever a numeric type has the bound |
| RuleFactories.ApplyObject | src/rule-factories.ts:200-239 | min/max-properties rules exist exactly for a single `object` type with a number keyword; the additional-properties factory yields nothing |
| RuleFactories.ObjectValidationRulesSpec | src/rule-factories.ts:46-59 | `parseObjectValidationRules` is the min-properties rule, if any, followed by the max-properties rule, if any |
| RuleFactories.ObjectValidationRulesWellFormed | src/rule-factories.ts:46-59 | each object rule is well formed; two rules are min then max; any rule implies an `object` type |
| Ir.Untyped | src/json-schema-parser.ts:626-632 | the untyped placeholder: primitive `untyped` with no rules, no array flag, no optional flag and no constant |
| Ir.UntypedArray | src/json-schema-parser.ts:634-641 | the same placeholder with an array flag that has no loc |
| Ir.WithType | src/json-schema-parser.ts:49-52 | `types.set` replaces one entry and leaves the other registries and the violations alone |
| Ir.WithEnum | src/json-schema-parser.ts:49-52 | `enums.set` replaces one entry and leaves the rest alone |
| Ir.WithUnion | src/json-schema-parser.ts:49-52 | `unions.set` replaces one entry and leaves the rest alone |
| Ir.WithViolations | src/json-schema-parser.ts:49-52 | `violations.push` appends and leaves the maps alone |
| ParserNames.Parts | src/json-schema-parser.ts:91 | `[last, penultimate, ...rest]` of the reversed split: putting the parts back in order rebuilds the split |
| ParserNames.ParseTypeName | src/json-schema-parser.ts:83-116 | no schema gives no name; a missing name means there is neither a title nor a key found by `getName`; each naming rule has its own lemma (TitleVerbatim, DefinitionsName, DefsName, StructuralName) |
| ParserNames.TitleVerbatim | src/json-schema-parser.ts:87-89 | a string title is used verbatim, with the title's loc |
| ParserNames.DefinitionsName | src/json-schema-parser.ts:93-95 | an untitled schema under `definitions` is named by its key, via `getName` |
| ParserNames.DefsName | src/json-schema-parser.ts:93-95 | an untitled schema under `$defs` is likewise named by its key, with the key's loc, via `getName` |
| ParserNames.StructuralName | src/json-schema-parser.ts:97-115 | any other untitled schema is named by the previous pointer's name joined to the last segment with `_`; this is the branch itself, and what the previous pointer is and how the parts join are stated by TwoSegmentName, ItemsName, JoinName and PreviousShorter |
| ParserNames.TwoSegmentName | src/json-schema-parser.ts:97-115 | for `base/a/b` the previous pointer is `base`, dropping two segments |
| ParserNames.ItemsName | src/json-schema-parser.ts:97-115 | for `base/a/items` outside `properties` the previous pointer is `base/a`, dropping one segment |
| ParserNames.PreviousShorter | src/json-schema-parser.ts:97-111 | the previous pointer, when it resolves, has fewer segments, so the naming recursion terminates |
| ParserNames.JoinName | src/json-schema-parser.ts:113 | the non-empty parts of previous name and last segment, joined with `_` |
| ParserNames.NonEmpty | src/json-schema-parser.ts:113 | `filter((x) => !!x)` keeps exactly the non-empty strings |
| ParserNames.RequiredIff | src/json-schema-parser.ts:118-128 | for `base/properties/key`, required holds iff the schema at `base` lists `key` in `required` |
| ParserNames.OutsidePropertiesOptional | src/json-schema-parser.ts:118-128 | a schema whose penultimate segment is not `properties` is optional |
| ParserNames.ParseIsOptional | src/json-schema-parser.ts:611-619 | the optional flag is absent exactly when `parseIsRequired` holds, and otherwise has no loc |
| ParserNames.PrimitiveFor | src/json-schema-parser.ts:532-565 | the primitive table: boolean; integer or long; number, float or double; string, date or date-time; untyped for null, absent or other types |
| ParserNames.ParsePrimitive | src/json-schema-parser.ts:515-568 | a primitive value following the table; for untyped, exactly the placeholder; otherwise with the given loc, the optional flag and the schema's rules |
| ParserNames.ToPrimitiveValueConstant | src/json-schema-parser.ts:643-660 | absent gives nothing; a string, number or boolean keeps its value and loc; anything else aborts with the unexpected-constant error |
| ParserSpec.AsArray | src/json-schema-parser.ts:420-427 | spreading the items' value and setting `isArray` keeps every other field |
| ParserSpec.BranchOf | src/json-schema-parser.ts:148-203 | the chosen branch applies, and no branch earlier in ref > allOf > anyOf > oneOf > type-array > enum > object > array > primitive does |
| ParserSpec.Unprefixed | src/json-schema-parser.ts:443-444 | the kept record items are exactly those whose key does not start with `$`; their order is stated by UnprefixedSnoc |
| ParserSpec.UnprefixedSnoc | src/json-schema-parser.ts:443-444 | appending an item extends the kept items by it exactly when its key has no `$`, so kept items stay in source order |
| ParserSpec.IntersectedObjects | src/json-schema-parser.ts:348-357 | every kept allOf part is an object schema, and every part whose `$ref` target (or itself) is an object schema is kept |
| ParserSpec.IntersectedItems | src/json-schema-parser.ts:398-400 | the properties of all kept objects, concatenated in order |
| ParserSpec.IntersectedRules | src/json-schema-parser.ts:363-365 | the object rules of all kept objects, concatenated in order |
| ParserSpec.EnumMembers | src/json-schema-parser.ts:583-592 | every string entry becomes a member, and every member is a string literal; their order is stated by EnumMembersSnoc |
| ParserSpec.EnumMembersSnoc | src/json-schema-parser.ts:583-592 | appending an entry extends the members by it exactly when it is a string, so members stay in entry order |
| ParserSpec.ComplexMembers | src/json-schema-parser.ts:269-285 | exactly the complex members are kept |
| ParserSpec.ComplexMembersSnoc | src/json-schema-parser.ts:269-285 | appending a member appends it to the kept list exactly when it is complex, so kept members stay in order |
| ParserSpec.MembersPartition | src/json-schema-parser.ts:269-285 | kept members plus reported violations number the members; every report is the misconfigured-discriminator error |
| ParserSpec.RegisterUnion | src/json-schema-parser.ts:250-305 | the union is registered under its name; types and enums are kept; the violations gain exactly the discriminator's reports |
| ParserSpec.PropertyDescription | src/json-schema-parser.ts:474-483 | the property's own description wins; a complex value never inherits one; an empty list is reported as none |
| ParserSpec.ParseProperty | src/json-schema-parser.ts:468-513 | a parsed property has the key as name, the item's loc, the optional flag and the schema's rules |
| ParserSpec.ParseProperties | src/json-schema-parser.ts:443-446 | the properties are named after the items, one per item, in order |
| ParserSpec.ParseMembers | src/json-schema-parser.ts:242-245 | one member per alternative, all registered |
| ParserSpec.ParseEnum | src/json-schema-parser.ts:570-609 | never aborts, and changes neither types, unions nor violations |
| ParserSpec.Parse | src/json-schema-parser.ts:54-55 | parsing the document root leaves a closed registry: every complex value in a stored type's properties or a union's members names a registered entry, and so does the returned value |
| Parser.JsonSchemaParser.constructor | src/json-schema-parser.ts:36-52 | a new parser holds the document and empty registries |
| Parser.JsonSchemaParser.Parse | src/json-schema-parser.ts:54-55 | parses the root with its loc, with the effect `ParserSpec.Parse` describes |
| Parser.JsonSchemaParser.ParseType | src/json-schema-parser.ts:130-204 | the new state and the outcome are those of `ParserSpec.ParseType` |
| Parser.JsonSchemaParser.ParseDefined | src/json-schema-parser.ts:139-203 | visiting the `definitions` children and then dispatching has the effect of `ParserSpec.ParseDefined` |
| Parser.JsonSchemaParser.VisitDefinitions | src/json-schema-parser.ts:139-143 | the definitions loop has the effect of `ParserSpec.VisitDefinitions` |
| Parser.JsonSchemaParser.ParseSchema | src/json-schema-parser.ts:145-203 | dispatch after the definitions has the effect of `ParserSpec.ParseSchema` |
| Parser.JsonSchemaParser.ParseRef | src/json-schema-parser.ts:206-234 | has the effect of `ParserSpec.ParseRef` |
| Parser.JsonSchemaParser.ParseMembers | src/json-schema-parser.ts:242-245 | the member loop has the effect of `ParserSpec.ParseMembers` |
| Parser.JsonSchemaParser.ParseOneOfUnion | src/json-schema-parser.ts:237-315 | has the effect of `ParserSpec.ParseOneOfUnion` |
| Parser.JsonSchemaParser.RegisterUnion | src/json-schema-parser.ts:250-305 | the new state is `ParserSpec.RegisterUnion` of the old one |
| Parser.JsonSchemaParser.KeepComplex | src/json-schema-parser.ts:269-285 | the loop keeps exactly `ComplexMembers` and reports exactly `PrimitiveMemberViolations` |
| Parser.JsonSchemaParser.ParseProperty | src/json-schema-parser.ts:468-513 | has the effect of `ParserSpec.ParseProperty` |
| Parser.JsonSchemaParser.ParseProperties | src/json-schema-parser.ts:443-446 | the property loop has the effect of `ParserSpec.ParseProperties` |
| Parser.JsonSchemaParser.ParseIntersectionProperties | src/json-schema-parser.ts:386-404 | has the effect of `ParserSpec.ParseIntersectionProperties` |
| Parser.JsonSchemaParser.ParseIntersection | src/json-schema-parser.ts:339-384 | has the effect of `ParserSpec.ParseIntersection` |
| Parser.JsonSchemaParser.ParseArray | src/json-schema-parser.ts:406-432 | has the effect of `ParserSpec.ParseArray` |
| Parser.JsonSchemaParser.ParseObject | src/json-schema-parser.ts:434-466 | has the effect of `ParserSpec.ParseObject` |
| Parser.JsonSchemaParser.ParseEnum | src/json-schema-parser.ts:570-609 | has the effect of `ParserSpec.ParseEnum` |
| Parser.ParseDocument | src/json-schema-parser.ts:31-34 | a fresh parser run on a document gives `ParserSpec.Parse`'s registry and outcome, and that registry is closed |
| ParserProperties.AbsentSchemaUntyped | src/json-schema-parser.ts:137 | an absent schema gives the untyped placeholder with no inherited description and changes nothing |
| ParserProperties.DefinitionsThenFirstBranch | src/json-schema-parser.ts:137-203 | `parseType` first visits every `definitions` child, then runs the first applicable branch on the registry those visits left |
| ParserProperties.UnresolvedRefReported | src/json-schema-parser.ts:210-233 | a `$ref` that does not resolve appends exactly one `PARSER_ERROR` error at the ref's range, changes no map, and gives untyped |
| ParserProperties.ResolvedRefIsTarget | src/json-schema-parser.ts:148-161 | a resolvable `$ref` gives the target's member value and registry; the description is own, then the target's, then own again |
| ParserProperties.UntypedCombinators | src/json-schema-parser.ts:167-185 | an `anyOf`, or a `type` array without `oneOf`, gives untyped and changes nothing |
| ParserProperties.RegisterDiscriminated | src/json-schema-parser.ts:287-296 | with a `propertyName`, a DiscriminatedUnion with the complex members is stored under the name; types and enums are kept |
| ParserProperties.DiscriminatorViolations | src/json-schema-parser.ts:250-285 | a mapping adds one info `unsupported-feature` at the mapping's range, then one `misconfigured-discriminator` error per primitive member |
| ParserProperties.DiscriminatedUnionMembers | src/json-schema-parser.ts:250-311 | a named discriminated oneOf returns a reference to the name; its union keeps exactly the complex members; the violations gain exactly the reports |
| ParserProperties.SimpleUnionMembers | src/json-schema-parser.ts:297-311 | without a discriminator, a SimpleUnion holding every member, in order, is stored and referenced |
| ParserProperties.UnnamedUnionUntyped | src/json-schema-parser.ts:242-248 | an unnamed oneOf parses its members and then gives untyped, registering no union |
| ParserProperties.PropertyValueKept | src/json-schema-parser.ts:468-513 | a parsed property keeps its schema's kind, type name or primitive and array flag, carries the converted `const` when primitive, and takes the chosen description |
| ParserProperties.PropertyConstantAborts | src/json-schema-parser.ts:487-495 | a primitive property whose `const` is neither string, number nor boolean aborts with the unexpected-constant error |
| ParserProperties.ObjectAlreadyRegistered | src/json-schema-parser.ts:442-462 | an object whose name is already a type gives a reference and changes nothing |
| ParserProperties.ObjectRegistered | src/json-schema-parser.ts:442-462 | a new object is registered with its name, loc, description and rules, and with properties named after the non-`$` keys in order |
| ParserProperties.ObjectIdempotent | src/json-schema-parser.ts:442-462 | parsing the same object again changes nothing and gives the same reference |
| ParserProperties.ObjectInTypes | src/json-schema-parser.ts:458-461 | whenever `parseObject` returns, its name is a key of `types` |
| ParserProperties.IntersectionRegistered | src/json-schema-parser.ts:339-384 | a named allOf registers a type whose properties come from all kept objects, in order, and whose rules are their object rules |
| ParserProperties.EnumRegistered | src/json-schema-parser.ts:570-609 | a named string enum is registered with every string entry as a member; any other enum gives untyped and changes nothing |
| ParserProperties.TupleNotImplemented | src/json-schema-parser.ts:410-413 | an array schema with tuple-form `items` aborts with the not-implemented error |
| ParserProperties.ArrayOfItems | src/json-schema-parser.ts:406-432 | an array schema gives the items' value with `isArray` at the type's loc, and untyped with that flag when `items` is absent |

## Left out

- The `json-to-ast` tokenizer (src/json-schema-parser.ts:40) is a foreign library. The model takes its output tree as a given datatype.
- `encodeRange` and `decodeRange` are not modelled. Every loc is an opaque `Option<string>`. A violation's range is that loc, and its source path is the constant `#`, because `sourcePaths` is always `['#']`.
- JSON numbers are carried as their text, and no arithmetic is done on them. A number is truthy when its mantissa has a non-zero digit. On pointer segments, JavaScript's `Number(segment)` is modelled for the empty string (0) and signed decimal digit strings, and everything else counts as not a number. This means `1e2`, `0x10`, `1.5` and strings padded with whitespace count as not a number, although JavaScript reads them as numbers.
- A `_literal` keyword whose value is not a literal is treated as absent, and so is a `$ref` or `description` that is not a string. The source would throw or raise a TypeError there.
- A title that is not a string names its schema by the literal's JSON text.
- A single `type` that is not a literal, such as `"type": {}`, is modelled as a type that no `is*Type` guard accepts. The source throws `Cannot parse literal` at the first read of `type.value` (src/json.ts:96-101). That read happens in the dispatch (src/json-schema-parser.ts:188), in `parseEnum` (src/json-schema-parser.ts:575), in the `allOf` filter (src/json-schema-parser.ts:356) and in every rule factory's guard. The model instead continues, for example to the untyped primitive.
- An `enum` entry that is not a literal is dropped from the members. The source throws there, because `value.asLiteral` reads `value` (src/json-schema-parser.ts:584).
- A `required` entry that is not a literal never matches. The source throws at `name.value` (src/json-schema-parser.ts:127) when `some` reaches such an entry before a match.
- The entries of an array-form `type` are never read by the source or by the model: every guard is false for the array form.
- `fuel` is not in the source. The source recurses without bound on cyclic `$ref`s and self-referencing objects, and the model stops there with `FuelExhausted` instead.
- Map insertion order, which fixes the order of `Array.from(map.values())` in the output, is not modelled: registries are Dafny maps.
- `parseTitle`, `parseMajorVersion` and the assembly of the `Service` record (src/json-schema-parser.ts:57-81) are plain packaging of the registries and are not modelled.
- `json-schema-parser.test.ts` and the `snapshot` helpers do file I/O and formatting and are not modelled.
- The rule pipelines are functions of the node, so running one twice on the same node gives the same rules by construction. No lemma states this.
- The `oneOf` and `$ref` branches push the schema's own description twice (src/json-schema-parser.ts:145-161 and 176-178). The model does the same.
- ParserProperties.ObjectInTypes: stated for `parseObject` itself, not across the whole `parseType` dispatch. Whole-document closure of the registry is stated by ParserSpec.Parse.
