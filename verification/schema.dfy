/**
 * The structural description a message tree is reduced to by the generated
 * interface: property names, nesting, and one type name per leaf. The
 * generated text is shown to be the line-by-line rendering of this schema.
 */
module Schema {
  import opened JsValue
  import opened Text
  import opened TypeGeneration

  /** A node of the structural description: a leaf type name, or a nested
      interface with its properties in order. */
  datatype Shape = Leaf(typeName: string) | Nested(fields: seq<(string, Shape)>)

  /** The shape of a message value. */
  function SchemaOf(v: Value): (s: Shape)
    ensures s.Nested? <==> v.Obj?
    decreases v, 1
  {
    if IsNestedObject(v) then Nested(SchemaFields(v.fields)) else Leaf(PropertyType(v))
  }

  /** The shape of each property of an object, keys unchanged. */
  function SchemaFields(fields: Fields): (r: seq<(string, Shape)>)
    ensures |r| == |fields|
    ensures forall i :: 0 <= i < |fields| ==> r[i].0 == fields[i].0
    decreases Obj(fields), 0
  {
    seq(|fields|, i requires 0 <= i < |fields| => (fields[i].0, SchemaOf(fields[i].1)))
  }

  lemma SchemaFieldsCons(fields: Fields)
    requires fields != []
    ensures SchemaFields(fields) == [(fields[0].0, SchemaOf(fields[0].1))] + SchemaFields(fields[1..])
  {
    var all := SchemaFields(fields);
    var tail := SchemaFields(fields[1..]);
    assert all[1..] == tail;
    assert all == [all[0]] + all[1..];
  }

  /** One line of an interface body: the opening of a nested block, a leaf
      property, or the closing of a nested block, with its nesting level. */
  datatype Token =
    | OpenToken(level: nat, key: string)
    | LeafToken(level: nat, key: string, typeName: string)
    | CloseToken(level: nat)

  /** The text of a line, without its newline: the indentation of its
      level, then the property or the closing brace. */
  function TokenLine(t: Token): (line: string)
  {
    Indent(t.level) + TokenBody(t)
  }

  function TokenBody(t: Token): (body: string)
  {
    match t
    case OpenToken(_, key) => "\"" + key + "\": {"
    case LeafToken(_, key, typeName) => "\"" + key + "\": " + typeName + ";"
    case CloseToken(_) => "};"
  }

  /** The lines of a token sequence. */
  function Lines(tokens: seq<Token>): (lines: seq<string>)
    ensures |lines| == |tokens|
    ensures forall i :: 0 <= i < |tokens| ==> lines[i] == TokenLine(tokens[i])
  {
    seq(|tokens|, i requires 0 <= i < |tokens| => TokenLine(tokens[i]))
  }

  lemma LinesAppend(a: seq<Token>, b: seq<Token>)
    ensures Lines(a + b) == Lines(a) + Lines(b)
  {
  }

  /** Concatenates a sequence of token blocks. */
  function Flatten(blocks: seq<seq<Token>>): (tokens: seq<Token>)
  {
    if blocks == [] then [] else blocks[0] + Flatten(blocks[1..])
  }

  /** The tokens of one property of a schema. */
  function EntryTokens(key: string, shape: Shape, level: nat): (tokens: seq<Token>)
    ensures tokens != []
    decreases shape, 1
  {
    match shape
    case Leaf(typeName) => [LeafToken(level, key, typeName)]
    case Nested(inner) => [OpenToken(level, key)] + SchemaTokens(inner, level + 1) + [CloseToken(level)]
  }

  /** The tokens of all properties of a schema, in order. */
  function SchemaTokens(fields: seq<(string, Shape)>, level: nat): (tokens: seq<Token>)
    decreases Nested(fields), 0
  {
    Flatten(seq(|fields|, i requires 0 <= i < |fields| => EntryTokens(fields[i].0, fields[i].1, level)))
  }

  lemma SchemaTokensCons(fields: seq<(string, Shape)>, level: nat)
    requires fields != []
    ensures SchemaTokens(fields, level) == EntryTokens(fields[0].0, fields[0].1, level) + SchemaTokens(fields[1..], level)
  {
    var blocks := seq(|fields|, i requires 0 <= i < |fields| => EntryTokens(fields[i].0, fields[i].1, level));
    var rest := fields[1..];
    assert blocks[1..] == seq(|rest|, i requires 0 <= i < |rest| => EntryTokens(rest[i].0, rest[i].1, level));
  }

  /** The tokens of a message object at nesting level `level`. */
  function InterfaceTokens(fields: Fields, level: nat): seq<Token>
  {
    SchemaTokens(SchemaFields(fields), level)
  }

  lemma InterfaceTokensCons(fields: Fields, level: nat)
    requires fields != []
    ensures InterfaceTokens(fields, level)
         == EntryTokens(fields[0].0, SchemaOf(fields[0].1), level) + InterfaceTokens(fields[1..], level)
  {
    SchemaFieldsCons(fields);
    SchemaTokensCons(SchemaFields(fields), level);
    assert SchemaFields(fields)[1..] == SchemaFields(fields[1..]);
  }

  /** A property name the generated text can be read back from: it holds
      no newline. Keys are written unescaped, so a newline inside a key
      would split its line in two. */
  predicate PlainKey(key: string)
  {
    '\n' !in key
  }

  /** Every property name in the tree, at every depth, is plain. */
  predicate PlainKeys(v: Value)
    decreases v
  {
    v.Obj? ==> forall i :: 0 <= i < |v.fields| ==> PlainKey(v.fields[i].0) && PlainKeys(v.fields[i].1)
  }

  lemma PlainKeysTail(fields: Fields)
    requires fields != [] && PlainKeys(Obj(fields))
    ensures PlainKeys(Obj(fields[1..]))
  {
    forall i | 0 <= i < |fields[1..]|
      ensures PlainKey(fields[1..][i].0) && PlainKeys(fields[1..][i].1)
    {
      assert fields[1..][i] == fields[i + 1];
    }
  }

  /** A token whose line can be read back: plain key, and a type name on
      one line without a double quote. */
  predicate PlainToken(t: Token)
  {
    match t
    case OpenToken(_, key) => PlainKey(key)
    case LeafToken(_, key, typeName) => PlainKey(key) && '\n' !in typeName && '"' !in typeName
    case CloseToken(_) => true
  }

  predicate PlainTokens(tokens: seq<Token>)
  {
    forall i :: 0 <= i < |tokens| ==> PlainToken(tokens[i])
  }

  /** The number of properties that are not nested objects, at every depth. */
  function Leaves(fields: Fields): nat
    decreases FieldsSize(fields)
  {
    if fields == [] then 0
    else
      FieldsSizeCons(fields);
      (if fields[0].1.Obj? then Leaves(fields[0].1.fields) else 1) + Leaves(fields[1..])
  }

  /** The number of properties that are nested objects, at every depth. */
  function NestedObjects(fields: Fields): nat
    decreases FieldsSize(fields)
  {
    if fields == [] then 0
    else
      FieldsSizeCons(fields);
      (if fields[0].1.Obj? then 1 + NestedObjects(fields[0].1.fields) else 0) + NestedObjects(fields[1..])
  }

  /** One property of the generated text is the rendering of its shape. */
  lemma {:induction false} PropertyTextRendersSchema(key: string, v: Value, level: nat)
    ensures PropertyText(key, v, level) == JoinLines(Lines(EntryTokens(key, SchemaOf(v), level)))
    decreases Size(v), 0
  {
    if v.Obj? {
      InterfaceRendersSchema(v.fields, level + 1);
      NestedTextRendersSchema(key, v.fields, level);
    } else {
      LeafTextRendersSchema(key, v, level);
    }
  }

  lemma LeafTextRendersSchema(key: string, v: Value, level: nat)
    requires !v.Obj?
    ensures PropertyText(key, v, level) == JoinLines(Lines(EntryTokens(key, SchemaOf(v), level)))
  {
    var t := LeafToken(level, key, PropertyType(v));
    assert EntryTokens(key, SchemaOf(v), level) == [t];
    assert Lines([t]) == [TokenLine(t)];
    assert JoinLines([TokenLine(t)]) == TokenLine(t) + "\n";
    LeafLineText(Indent(level), key, PropertyType(v));
  }

  lemma LeafLineText(indent: string, key: string, typeName: string)
    ensures indent + "\"" + key + "\": " + typeName + ";\n"
         == indent + ("\"" + key + "\": " + typeName + ";") + "\n"
  {
  }

  lemma OpenLineText(indent: string, key: string)
    ensures indent + "\"" + key + "\": {\n" == indent + ("\"" + key + "\": {") + "\n"
  {
  }

  lemma NestedTextRendersSchema(key: string, fields: Fields, level: nat)
    requires GenerateInterface(fields, level + 1) == JoinLines(Lines(InterfaceTokens(fields, level + 1)))
    ensures PropertyText(key, Obj(fields), level) == JoinLines(Lines(EntryTokens(key, SchemaOf(Obj(fields)), level)))
  {
    var inner := InterfaceTokens(fields, level + 1);
    var open := OpenToken(level, key);
    var close := CloseToken(level);
    assert EntryTokens(key, SchemaOf(Obj(fields)), level) == [open] + inner + [close];
    JoinWrapped(open, inner, close);
    NestedText(key, fields, level);
  }

  lemma NestedText(key: string, fields: Fields, level: nat)
    ensures PropertyText(key, Obj(fields), level)
         == (TokenLine(OpenToken(level, key)) + "\n") + GenerateInterface(fields, level + 1)
          + (TokenLine(CloseToken(level)) + "\n")
  {
    OpenLineText(Indent(level), key);
  }

  lemma JoinWrapped(open: Token, inner: seq<Token>, close: Token)
    ensures JoinLines(Lines([open] + inner + [close]))
         == (TokenLine(open) + "\n") + JoinLines(Lines(inner)) + (TokenLine(close) + "\n")
  {
    LinesAppend([open] + inner, [close]);
    LinesAppend([open], inner);
    assert Lines([open]) == [TokenLine(open)];
    assert Lines([close]) == [TokenLine(close)];
    JoinLinesAppend([TokenLine(open)] + Lines(inner), [TokenLine(close)]);
    JoinLinesAppend([TokenLine(open)], Lines(inner));
    assert JoinLines([TokenLine(open)]) == TokenLine(open) + "\n";
    assert JoinLines([TokenLine(close)]) == TokenLine(close) + "\n";
  }

  /**
   * `generateInterface` depends on its input only through the schema: its
   * text is the schema's lines, each terminated by a newline.
   */
  lemma {:induction false} InterfaceRendersSchema(fields: Fields, level: nat)
    ensures GenerateInterface(fields, level) == JoinLines(Lines(InterfaceTokens(fields, level)))
    decreases FieldsSize(fields), 1
  {
    if fields != [] {
      FieldsSizeCons(fields);
      InterfaceTokensCons(fields, level);
      var entry := EntryTokens(fields[0].0, SchemaOf(fields[0].1), level);
      PropertyTextRendersSchema(fields[0].0, fields[0].1, level);
      InterfaceRendersSchema(fields[1..], level);
      LinesAppend(entry, InterfaceTokens(fields[1..], level));
      JoinLinesAppend(Lines(entry), Lines(InterfaceTokens(fields[1..], level)));
    }
  }

  /** Each leaf takes one line and each nested object two (open and close). */
  lemma {:induction false} InterfaceTokensCount(fields: Fields, level: nat)
    ensures |InterfaceTokens(fields, level)| == Leaves(fields) + 2 * NestedObjects(fields)
    decreases FieldsSize(fields)
  {
    if fields != [] {
      FieldsSizeCons(fields);
      InterfaceTokensCons(fields, level);
      if fields[0].1.Obj? {
        InterfaceTokensCount(fields[0].1.fields, level + 1);
      }
      InterfaceTokensCount(fields[1..], level);
    }
  }

  /** Leaf type names hold neither a newline nor a double quote. */
  lemma PropertyTypePlain(v: Value)
    ensures '\n' !in PropertyType(v) && '"' !in PropertyType(v)
  {
    var t := PropertyType(v);
    if v.Arr? {
      assert t == "unknown[]";
    } else {
      assert t == TypeOf(v);
      assert t in {"undefined", "object", "boolean", "number", "string", "function"};
    }
  }

  lemma PlainTokensAppend(a: seq<Token>, b: seq<Token>)
    requires PlainTokens(a) && PlainTokens(b)
    ensures PlainTokens(a + b)
  {
    forall i | 0 <= i < |a + b|
      ensures PlainToken((a + b)[i])
    {
      if i < |a| {
        assert (a + b)[i] == a[i];
      } else {
        assert (a + b)[i] == b[i - |a|];
      }
    }
  }

  /** Objects with plain keys yield plain tokens only. */
  lemma {:induction false} InterfaceTokensPlain(fields: Fields, level: nat)
    requires PlainKeys(Obj(fields))
    ensures PlainTokens(InterfaceTokens(fields, level))
    decreases FieldsSize(fields)
  {
    if fields != [] {
      FieldsSizeCons(fields);
      InterfaceTokensCons(fields, level);
      PlainKeysTail(fields);
      var key := fields[0].0;
      var v := fields[0].1;
      assert PlainKey(key) && PlainKeys(v);
      var entry := EntryTokens(key, SchemaOf(v), level);
      if v.Obj? {
        InterfaceTokensPlain(v.fields, level + 1);
        assert entry == [OpenToken(level, key)] + InterfaceTokens(v.fields, level + 1) + [CloseToken(level)];
        PlainTokensAppend([OpenToken(level, key)], InterfaceTokens(v.fields, level + 1));
        PlainTokensAppend([OpenToken(level, key)] + InterfaceTokens(v.fields, level + 1), [CloseToken(level)]);
      } else {
        PropertyTypePlain(v);
        assert entry == [LeafToken(level, key, PropertyType(v))];
      }
      InterfaceTokensPlain(fields[1..], level);
      PlainTokensAppend(entry, InterfaceTokens(fields[1..], level));
    }
  }

  /** The line of a plain token holds no newline. */
  lemma TokenLineSingle(t: Token)
    requires PlainToken(t)
    ensures '\n' !in TokenLine(t)
  {
    assert '\n' !in Indent(t.level);
    match t
    case OpenToken(_, key) =>
      assert TokenBody(t) == "\"" + key + "\": {";
    case LeafToken(_, key, typeName) =>
      assert TokenBody(t) == "\"" + key + "\": " + typeName + ";";
    case CloseToken(_) =>
  }

  lemma PlainLinesSingle(tokens: seq<Token>)
    requires PlainTokens(tokens)
    ensures SingleLines(Lines(tokens))
  {
    forall i | 0 <= i < |tokens|
      ensures '\n' !in Lines(tokens)[i]
    {
      TokenLineSingle(tokens[i]);
    }
  }

  /**
   * The generated text has one line per leaf property and two per nested
   * object, each ending in a newline.
   */
  lemma InterfaceLineCount(fields: Fields, level: nat)
    requires PlainKeys(Obj(fields))
    ensures Count(GenerateInterface(fields, level), '\n') == Leaves(fields) + 2 * NestedObjects(fields)
  {
    InterfaceRendersSchema(fields, level);
    InterfaceTokensPlain(fields, level);
    PlainLinesSingle(InterfaceTokens(fields, level));
    CountJoinLines(Lines(InterfaceTokens(fields, level)));
    InterfaceTokensCount(fields, level);
  }
}
