/** The literal converters and the description splitter of src/utils.ts. */
module Utils {
  import opened Wrappers
  import opened Text
  import opened Json

  /** The `kind` tags the converters attach. */
  datatype LiteralKind =
    | StringLiteral
    | NonEmptyStringLiteral
    | NonNegativeNumberLiteral
    | NumberLiteral
    | NonNegativeIntegerLiteral

  /** A tagged literal of the intermediate representation. */
  datatype TypedLiteral = TypedLiteral(kind: LiteralKind, value: Value, loc: Loc)

  /** The located value of an optional literal node (`node.asLiteral`). */
  function LocatedOf(node: Option<JsonNode>): Option<Located> {
    match node
    case None => None
    case Some(n) => AsLiteral(n)
  }

  function Tagged(kind: LiteralKind, node: Option<Located>): Option<TypedLiteral> {
    match node
    case None => None
    case Some(l) => Some(TypedLiteral(kind, l.value, l.loc))
  }

  function ToStringLiteral(node: Option<Located>): (r: Option<TypedLiteral>)
    ensures r.None? <==> node.None?
    ensures node.Some? ==> r.value == TypedLiteral(StringLiteral, node.value.value, node.value.loc)
  {
    Tagged(StringLiteral, node)
  }

  /** No emptiness check is made: an empty string is tagged non-empty all the same. */
  function ToNonEmptyStringLiteral(node: Option<Located>): (r: Option<TypedLiteral>)
    ensures r.None? <==> node.None?
    ensures node.Some? ==> r.value == TypedLiteral(NonEmptyStringLiteral, node.value.value, node.value.loc)
  {
    Tagged(NonEmptyStringLiteral, node)
  }

  function ToNonNegativeNumberLiteral(node: Option<Located>): (r: Option<TypedLiteral>)
    ensures r.None? <==> node.None?
    ensures node.Some? ==> r.value == TypedLiteral(NonNegativeNumberLiteral, node.value.value, node.value.loc)
  {
    Tagged(NonNegativeNumberLiteral, node)
  }

  function ToNumberLiteral(node: Option<Located>): (r: Option<TypedLiteral>)
    ensures r.None? <==> node.None?
    ensures node.Some? ==> r.value == TypedLiteral(NumberLiteral, node.value.value, node.value.loc)
  {
    Tagged(NumberLiteral, node)
  }

  const ParagraphBreak: string := "\n\n"

  /** The text of a string literal. */
  function TextOf(l: TypedLiteral): string {
    if l.value.Str? then l.value.s else ""
  }

  /** One string literal per paragraph, all at the same location. */
  function Paragraphs(s: string, loc: Loc): (r: seq<TypedLiteral>)
    ensures |r| == |Split(s, ParagraphBreak)|
    ensures forall i :: 0 <= i < |r| ==> r[i] == TypedLiteral(StringLiteral, Str(Split(s, ParagraphBreak)[i]), loc)
  {
    var parts := Split(s, ParagraphBreak);
    seq(|parts|, i requires 0 <= i < |parts| => TypedLiteral(StringLiteral, Str(parts[i]), loc))
  }

  /**
   * `toDescription`: nothing for an absent description, otherwise one string
   * literal per `\n\n`-separated paragraph, all sharing the node's location.
   * A non-string value (on which the source's `split` would throw) gives nothing.
   */
  function ToDescription(node: Option<Located>): (r: Option<seq<TypedLiteral>>)
    ensures node.None? ==> r.None?
    ensures node.Some? && node.value.value.Str? ==> r.Some?
    ensures r.Some? ==> |r.value| >= 1
    ensures r.Some? ==> forall i :: 0 <= i < |r.value| ==>
      r.value[i].kind == StringLiteral && r.value[i].loc == node.value.loc && r.value[i].value.Str?
  {
    match node
    case None => None
    case Some(l) =>
      match l.value
      case Str(s) => Some(Paragraphs(s, l.loc))
      case _ => None
  }

  function Texts(ls: seq<TypedLiteral>): (r: seq<string>)
    ensures |r| == |ls| && forall i :: 0 <= i < |ls| ==> r[i] == TextOf(ls[i])
  {
    seq(|ls|, i requires 0 <= i < |ls| => TextOf(ls[i]))
  }

  /** Joining the paragraphs with `\n\n` gives the description back, and no paragraph holds a `\n\n`. */
  lemma DescriptionRoundTrip(node: Option<Located>)
    requires node.Some? && node.value.value.Str?
    ensures Join(Texts(ToDescription(node).value), ParagraphBreak) == node.value.value.s
    ensures forall i :: 0 <= i < |ToDescription(node).value| ==> !Contains(TextOf(ToDescription(node).value[i]), ParagraphBreak)
  {
    var s := node.value.value.s;
    var parts := Split(s, ParagraphBreak);
    assert Texts(ToDescription(node).value) == parts;
    JoinSplit(s, ParagraphBreak);
    SplitPartsFree(s, ParagraphBreak);
  }
}
