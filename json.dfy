/**
 * The structural layer of src/json.ts: the JSON tree produced by the tokenizer,
 * the node view that carries a JSON-pointer string, its accessors, and the two
 * pointer walks `resolve` and `getName`.
 */
module Json {
  import opened Wrappers
  import opened Text

  /** A source location; the encoded range is treated as an opaque string. */
  type Loc = Option<string>

  /** A literal's value. Numbers are kept as their JSON text: the model does no arithmetic on them. */
  datatype Value = Str(s: string) | Num(text: string) | Bool(b: bool) | Null

  /** The tokenizer's tree: objects, arrays, literals and the identifiers that name object keys. */
  datatype Node =
    | Object(props: seq<Property>, loc: Loc)
    | Array(items: seq<Node>, loc: Loc)
    | Literal(value: Value, loc: Loc)
    | Identifier(name: string, loc: Loc)

  /** An object member; its key is an identifier node with its own location. */
  datatype Property = Property(key: string, keyLoc: Loc, value: Node, loc: Loc)

  /** The source's `Literal<T>`: a value together with its location. */
  datatype Located = Located(value: Value, loc: Loc)

  /** The source's `JsonNode`: a tree node and the JSON pointer of its position. */
  datatype JsonNode = JsonNode(node: Node, pointer: string)

  predicate IsObjectNode(n: Option<Node>) { n.Some? && n.value.Object? }
  predicate IsArrayNode(n: Option<Node>) { n.Some? && n.value.Array? }
  predicate IsLiteralNode(n: Option<Node>) { n.Some? && n.value.Literal? }
  predicate IsIdentifierNode(n: Option<Node>) { n.Some? && n.value.Identifier? }
  predicate IsValueNode(n: Option<Node>) { IsObjectNode(n) || IsArrayNode(n) || IsLiteralNode(n) }

  /** The node predicates hold only of present nodes, and a value node is anything but an identifier. */
  lemma NodePredicates(n: Option<Node>)
    ensures IsValueNode(n) <==> n.Some? && !n.value.Identifier?
    ensures n.None? ==> !IsObjectNode(n) && !IsArrayNode(n) && !IsLiteralNode(n) && !IsIdentifierNode(n)
    ensures IsIdentifierNode(n) ==> !IsValueNode(n)
  {
  }

  /** `_keys`: the key identifiers of an object, in source order; nothing for other nodes. */
  function Keys(v: JsonNode): (r: seq<Node>)
    ensures v.node.Object? ==> |r| == |v.node.props|
    ensures v.node.Object? ==> forall i :: 0 <= i < |r| ==> r[i] == Identifier(v.node.props[i].key, v.node.props[i].keyLoc)
    ensures !v.node.Object? ==> r == []
  {
    if v.node.Object? then seq(|v.node.props|, i requires 0 <= i < |v.node.props| => Identifier(v.node.props[i].key, v.node.props[i].keyLoc))
    else []
  }

  /** `_properties`: the members of an object; nothing for other nodes. */
  function PropertyNodes(v: JsonNode): (r: seq<Property>)
    ensures v.node.Object? ==> r == v.node.props
    ensures !v.node.Object? ==> r == []
  {
    if v.node.Object? then v.node.props else []
  }

  /** `_values`: the elements of an array; nothing for other nodes. */
  function ValueNodes(v: JsonNode): (r: seq<Node>)
    ensures v.node.Array? ==> r == v.node.items
    ensures !v.node.Array? ==> r == []
  {
    if v.node.Array? then v.node.items else []
  }

  /** Index of the first member whose key is `key` (`children.find`). */
  function FindIndex(props: seq<Property>, key: string): (r: Option<nat>)
    ensures r.Some? ==> r.value < |props| && props[r.value].key == key
    decreases |props|
  {
    if |props| == 0 then None
    else if props[0].key == key then Some(0)
    else match FindIndex(props[1..], key)
      case None => None
      case Some(j) => Some(j + 1)
  }

  /** `find` returns the first match, and finds nothing only when no member has the key. */
  lemma {:induction false} FindIndexFirst(props: seq<Property>, key: string)
    ensures FindIndex(props, key).Some? ==> forall j :: 0 <= j < FindIndex(props, key).value ==> props[j].key != key
    ensures FindIndex(props, key).None? <==> forall j :: 0 <= j < |props| ==> props[j].key != key
    decreases |props|
  {
    if |props| > 0 && props[0].key != key {
      FindIndexFirst(props[1..], key);
      forall j | 1 <= j < |props| ensures props[j].key == props[1..][j - 1].key { }
    }
  }

  /** `_property`: the first member with that key, for objects only. */
  function PropertyOf(v: JsonNode, key: string): (r: Option<Property>)
    ensures r.Some? ==> v.node.Object? && r.value.key == key
  {
    if v.node.Object? then
      match FindIndex(v.node.props, key)
      case None => None
      case Some(j) => Some(v.node.props[j])
    else None
  }

  /** `_property` gives the first member with that key, and nothing exactly when no member has it. */
  lemma PropertyOfFirst(v: JsonNode, key: string)
    requires v.node.Object?
    ensures PropertyOf(v, key).Some? ==>
      exists i :: 0 <= i < |v.node.props| && PropertyOf(v, key).value == v.node.props[i] &&
        forall j :: 0 <= j < i ==> v.node.props[j].key != key
    ensures PropertyOf(v, key).None? <==> forall j :: 0 <= j < |v.node.props| ==> v.node.props[j].key != key
  {
    FindIndexFirst(v.node.props, key);
  }

  /** `_propertyRange`: the location of the member with that key, if there is one. */
  function PropertyRange(v: JsonNode, key: string): Loc {
    match PropertyOf(v, key)
    case None => None
    case Some(p) => p.loc
  }

  /** `_child`: the value of member `key`, with pointer `pointer/key`. */
  function Child(v: JsonNode, key: string): (r: Option<JsonNode>)
    ensures r.Some? <==> PropertyOf(v, key).Some?
    ensures r.Some? ==> r.value.node == PropertyOf(v, key).value.value && r.value.pointer == v.pointer + "/" + key
  {
    match PropertyOf(v, key)
    case None => None
    case Some(p) => Some(JsonNode(p.value, v.pointer + "/" + key))
  }

  /** `_array`: when member `key` holds an array, its elements with pointers `pointer/key/i`. */
  function ArrayOf(v: JsonNode, key: string): (r: Option<seq<JsonNode>>)
    ensures r.Some? <==> PropertyOf(v, key).Some? && PropertyOf(v, key).value.value.Array?
    ensures r.Some? ==> |r.value| == |PropertyOf(v, key).value.value.items|
    ensures r.Some? ==> forall i :: 0 <= i < |r.value| ==>
      r.value[i] == JsonNode(PropertyOf(v, key).value.value.items[i], v.pointer + "/" + key + "/" + NatToString(i))
  {
    match PropertyOf(v, key)
    case None => None
    case Some(p) =>
      if p.value.Array? then
        Some(seq(|p.value.items|, i requires 0 <= i < |p.value.items| =>
          JsonNode(p.value.items[i], v.pointer + "/" + key + "/" + NatToString(i))))
      else None
  }

  /** `LiteralNode.value`: defined for literals and identifiers only; the source throws otherwise. */
  function LiteralValue(v: JsonNode): (r: Option<Value>)
    ensures r.Some? <==> v.node.Literal? || v.node.Identifier?
    ensures v.node.Literal? ==> r == Some(v.node.value)
    ensures v.node.Identifier? ==> r == Some(Str(v.node.name))
  {
    match v.node
    case Literal(value, _) => Some(value)
    case Identifier(name, _) => Some(Str(name))
    case _ => None
  }

  /** `LiteralNode.asLiteral`: the value with the node's own location. */
  function AsLiteral(v: JsonNode): (r: Option<Located>)
    ensures r.Some? <==> LiteralValue(v).Some?
    ensures r.Some? ==> r.value.value == LiteralValue(v).value && r.value.loc == v.node.loc
  {
    match LiteralValue(v)
    case None => None
    case Some(value) => Some(Located(value, v.node.loc))
  }

  /**
   * `_literal`: the value of member `key` when it is a literal. A member that is
   * present but holds an object or array makes the source throw as soon as its
   * value is read; the model treats such a member as absent.
   */
  function LiteralChild(v: JsonNode, key: string): (r: Option<JsonNode>)
    ensures r.Some? ==> r == Child(v, key) && LiteralValue(r.value).Some?
    ensures r.None? ==> Child(v, key).None? || LiteralValue(Child(v, key).value).None?
  {
    match Child(v, key)
    case None => None
    case Some(c) => if LiteralValue(c).Some? then Some(c) else None
  }

  // ---------------------------------------------------------------------------
  // The pointer walk shared by `resolve` and `getName`.
  // ---------------------------------------------------------------------------

  /**
   * The state of the walk after some segments: stopped early (the source's
   * `return undefined`), or a cursor that may be undefined together with the
   * key of the last object member descended through.
   */
  datatype Cursor = Halted | At(node: Option<Node>, name: Option<Located>)

  /** One iteration of the loop body in `resolve`/`getName`. */
  function Step(document: Node, c: Cursor, segment: string): Cursor {
    match c
    case Halted => Halted
    case At(cursor, name) =>
      if segment == "#" then At(Some(document), name)
      else if cursor.None? then Halted
      else match cursor.value
        case Array(items, _) =>
          (match ParseNumber(segment)
           case NotANumber => Halted
           case Int(i) => At(if 0 <= i < |items| then Some(items[i]) else None, name))
        case Object(props, _) =>
          (match FindIndex(props, segment)
           case None => Halted
           case Some(j) => At(Some(props[j].value), Some(Located(Str(props[j].key), props[j].keyLoc))))
        case _ => c
  }

  /** The walk over a sequence of segments, from an undefined cursor. */
  function Walk(document: Node, segments: seq<string>): Cursor
    decreases |segments|
  {
    if segments == [] then At(None, None)
    else Step(document, Walk(document, segments[..|segments| - 1]), segments[|segments| - 1])
  }

  /** What `resolve` returns: the node the walk ends on, viewed at the given pointer. */
  function ResolveNode(document: Node, pointer: string): (r: Option<JsonNode>)
    ensures r.Some? ==> r.value.pointer == pointer
  {
    match Walk(document, Split(pointer, "/"))
    case At(Some(n), _) => Some(JsonNode(n, pointer))
    case _ => None
  }

  /** What `getName` returns: the key of the last object member the walk descended through. */
  function NameOf(document: Node, pointer: string): Option<Located> {
    match Walk(document, Split(pointer, "/"))
    case At(_, name) => name
    case Halted => None
  }

  /** A view whose pointer, resolved from the document root, reaches the view's own node. */
  predicate Anchored(document: Node, v: JsonNode) {
    ResolveNode(document, v.pointer) == Some(v)
  }

  /** A string that is one pointer segment and not the root marker. */
  predicate IsSegment(s: string) {
    !Contains(s, "/") && s != "#"
  }

  /** Once the walk has stopped it stays stopped. */
  lemma {:induction false} HaltedStays(document: Node, segments: seq<string>, k: nat, j: nat)
    requires k <= j <= |segments|
    requires Walk(document, segments[..k]) == Halted
    ensures Walk(document, segments[..j]) == Halted
    decreases j - k
  {
    if k < j {
      assert segments[..k + 1][..k] == segments[..k];
      HaltedStays(document, segments, k + 1, j);
    }
  }

  lemma WalkAppend(document: Node, segments: seq<string>, segment: string)
    ensures Walk(document, segments + [segment]) == Step(document, Walk(document, segments), segment)
  {
    assert (segments + [segment])[..|segments|] == segments;
  }

  /** The walk over one more segment of the same list is one more step. */
  lemma WalkPrefixStep(document: Node, segments: seq<string>, i: nat)
    requires i < |segments|
    ensures Walk(document, segments[..i + 1]) == Step(document, Walk(document, segments[..i]), segments[i])
  {
    assert segments[..i + 1][..i] == segments[..i];
  }

  /** A step that stops the walk stops it for the whole list. */
  lemma HaltedAt(document: Node, segments: seq<string>, i: nat)
    requires i < |segments| && Step(document, Walk(document, segments[..i]), segments[i]) == Halted
    ensures Walk(document, segments) == Halted
  {
    WalkPrefixStep(document, segments, i);
    HaltedStays(document, segments, i + 1, |segments|);
    assert segments[..|segments|] == segments;
  }

  /** `resolve`, as the loop in the source. */
  method Resolve(document: Node, pointer: string) returns (r: Option<JsonNode>)
    ensures r == ResolveNode(document, pointer)
  {
    var segments := Split(pointer, "/");
    var cursor: Option<Node> := None;
    ghost var name: Option<Located> := None;
    var i := 0;
    while i < |segments|
      invariant 0 <= i <= |segments|
      invariant Walk(document, segments[..i]) == At(cursor, name)
    {
      var segment := segments[i];
      WalkPrefixStep(document, segments, i);
      if segment == "#" {
        cursor := Some(document);
        i := i + 1;
        continue;
      } else if cursor.None? {
        HaltedAt(document, segments, i);
        return None;
      }
      match cursor.value {
        case Array(items, _) =>
          var index := ParseNumber(segment);
          if index.Int? {
            cursor := if 0 <= index.i < |items| then Some(items[index.i]) else None;
          } else {
            HaltedAt(document, segments, i);
            return None;
          }
        case Object(props, _) =>
          var child := FindIndex(props, segment);
          if child.Some? {
            name := Some(Located(Str(props[child.value].key), props[child.value].keyLoc));
            cursor := Some(props[child.value].value);
          } else {
            HaltedAt(document, segments, i);
            return None;
          }
        case _ =>
      }
      i := i + 1;
    }
    assert segments[..i] == segments;
    r := if cursor.Some? then Some(JsonNode(cursor.value, pointer)) else None;
  }

  /** `getName`, as the loop in the source. */
  method GetName(document: Node, pointer: string) returns (r: Option<Located>)
    ensures r == NameOf(document, pointer)
  {
    var segments := Split(pointer, "/");
    var name: Option<Located> := None;
    var cursor: Option<Node> := None;
    var i := 0;
    while i < |segments|
      invariant 0 <= i <= |segments|
      invariant Walk(document, segments[..i]) == At(cursor, name)
    {
      var segment := segments[i];
      WalkPrefixStep(document, segments, i);
      if segment == "#" {
        cursor := Some(document);
        i := i + 1;
        continue;
      } else if cursor.None? {
        HaltedAt(document, segments, i);
        return None;
      }
      match cursor.value {
        case Array(items, _) =>
          var index := ParseNumber(segment);
          if index.Int? {
            cursor := if 0 <= index.i < |items| then Some(items[index.i]) else None;
          } else {
            HaltedAt(document, segments, i);
            return None;
          }
        case Object(props, _) =>
          var child := FindIndex(props, segment);
          if child.Some? {
            name := Some(Located(Str(props[child.value].key), props[child.value].keyLoc));
            cursor := Some(props[child.value].value);
          } else {
            HaltedAt(document, segments, i);
            return None;
          }
        case _ =>
      }
      i := i + 1;
    }
    assert segments[..i] == segments;
    r := name;
  }

  // ---------------------------------------------------------------------------
  // Properties of the walk.
  // ---------------------------------------------------------------------------

  /** A pointer whose first segment is not `#` (the empty pointer among them) reaches nothing and names nothing. */
  lemma NotRootedResolvesToNothing(document: Node, pointer: string)
    requires Split(pointer, "/")[0] != "#"
    ensures ResolveNode(document, pointer).None? && NameOf(document, pointer).None?
  {
    var segments := Split(pointer, "/");
    assert segments[..1][..0] == [];
    assert Walk(document, segments[..1]) == Halted;
    HaltedStays(document, segments, 1, |segments|);
    assert segments[..|segments|] == segments;
  }

  lemma EmptyPointerResolvesToNothing(document: Node)
    ensures ResolveNode(document, "").None? && NameOf(document, "").None?
  {
    assert Split("", "/") == [""];
    NotRootedResolvesToNothing(document, "");
  }

  /** `#` alone is the document, and no object step has named anything. */
  lemma RootResolvesToDocument(document: Node)
    ensures ResolveNode(document, "#") == Some(JsonNode(document, "#"))
    ensures NameOf(document, "#").None?
  {
    CharFree('#', "/");
    SplitFree("#", "/");
    assert ["#"][..0] == [];
  }

  /** A `#` segment resets the cursor to the document, whatever came before, unless the walk already stopped. */
  lemma HashResets(document: Node, pointer: string)
    requires Walk(document, Split(pointer, "/")) != Halted
    ensures ResolveNode(document, pointer + "/#") == Some(JsonNode(document, pointer + "/#"))
    ensures NameOf(document, pointer + "/#") == Walk(document, Split(pointer, "/")).name
  {
    CharFree('#', "/");
    SplitAppend(pointer, "/", "#");
    assert pointer + "/#" == pointer + "/" + "#";
    WalkAppend(document, Split(pointer, "/"), "#");
  }

  lemma AnchoredWalk(document: Node, v: JsonNode)
    requires Anchored(document, v)
    ensures Walk(document, Split(v.pointer, "/")).At?
    ensures Walk(document, Split(v.pointer, "/")).node == Some(v.node)
  {
  }

  lemma ExtendWalk(document: Node, v: JsonNode, segment: string)
    requires Anchored(document, v) && IsSegment(segment)
    ensures Walk(document, Split(v.pointer + "/" + segment, "/"))
         == Step(document, Walk(document, Split(v.pointer, "/")), segment)
  {
    SplitAppend(v.pointer, "/", segment);
    WalkAppend(document, Split(v.pointer, "/"), segment);
  }

  /** On an object, an extra segment descends exactly as `_child` does: the first member with that key. */
  lemma ResolveObjectStep(document: Node, v: JsonNode, segment: string)
    requires Anchored(document, v) && IsSegment(segment) && v.node.Object?
    ensures ResolveNode(document, v.pointer + "/" + segment) == Child(v, segment)
    ensures NameOf(document, v.pointer + "/" + segment)
         == if PropertyOf(v, segment).Some? then Some(Located(Str(segment), PropertyOf(v, segment).value.keyLoc)) else None
  {
    ExtendWalk(document, v, segment);
  }

  /** On an array, an extra segment must parse as a number and select an element in range. */
  lemma ResolveArrayStep(document: Node, v: JsonNode, segment: string)
    requires Anchored(document, v) && IsSegment(segment) && v.node.Array?
    ensures ParseNumber(segment).NotANumber? ==> ResolveNode(document, v.pointer + "/" + segment).None?
    ensures ParseNumber(segment).Int? && 0 <= ParseNumber(segment).i < |v.node.items| ==>
      ResolveNode(document, v.pointer + "/" + segment) == Some(JsonNode(v.node.items[ParseNumber(segment).i], v.pointer + "/" + segment))
    ensures ParseNumber(segment).Int? && !(0 <= ParseNumber(segment).i < |v.node.items|) ==>
      ResolveNode(document, v.pointer + "/" + segment).None?
    ensures ParseNumber(segment).NotANumber? ==> NameOf(document, v.pointer + "/" + segment).None?
    ensures ParseNumber(segment).Int? ==>
      NameOf(document, v.pointer + "/" + segment) == Walk(document, Split(v.pointer, "/")).name
  {
    ExtendWalk(document, v, segment);
  }

  /** On a literal, an extra segment leaves the cursor where it is. */
  lemma ResolveLiteralStep(document: Node, v: JsonNode, segment: string)
    requires Anchored(document, v) && IsSegment(segment) && (v.node.Literal? || v.node.Identifier?)
    ensures ResolveNode(document, v.pointer + "/" + segment) == Some(JsonNode(v.node, v.pointer + "/" + segment))
    ensures NameOf(document, v.pointer + "/" + segment) == Walk(document, Split(v.pointer, "/")).name
  {
    ExtendWalk(document, v, segment);
  }

  /** The pointer `_child` writes resolves back to the child it returned. */
  lemma ChildAnchored(document: Node, v: JsonNode, key: string)
    requires Anchored(document, v) && IsSegment(key) && Child(v, key).Some?
    ensures Anchored(document, Child(v, key).value)
  {
    ResolveObjectStep(document, v, key);
  }

  /** The pointers `_array` writes resolve back to the elements it returned. */
  lemma ArrayOfAnchored(document: Node, v: JsonNode, key: string)
    requires Anchored(document, v) && IsSegment(key) && ArrayOf(v, key).Some?
    ensures forall i :: 0 <= i < |ArrayOf(v, key).value| ==> Anchored(document, ArrayOf(v, key).value[i])
  {
    var c := Child(v, key).value;
    ChildAnchored(document, v, key);
    var elements := ArrayOf(v, key).value;
    forall i | 0 <= i < |elements| ensures Anchored(document, elements[i]) {
      IndexRoundTrip(i);
      NatToStringHasNoSlash(i);
      ResolveArrayStep(document, c, NatToString(i));
      assert c.pointer + "/" + NatToString(i) == v.pointer + "/" + key + "/" + NatToString(i);
    }
  }
}
