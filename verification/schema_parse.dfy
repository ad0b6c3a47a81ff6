/**
 * Reading a generated interface body back into its schema. The reader is
 * the partner of `generateInterface`: it recovers every property name,
 * nesting level and leaf type from the text, which shows that the text
 * loses nothing of the schema and adds nothing to it.
 */
module SchemaParse {
  import opened Wrappers
  import opened JsValue
  import opened Text
  import opened TypeGeneration
  import opened Schema

  /** The number of spaces a line starts with. */
  function LeadingSpaces(s: string): (n: nat)
    ensures n <= |s|
    ensures forall j :: 0 <= j < n ==> s[j] == ' '
    ensures n < |s| ==> s[n] != ' '
  {
    if s != [] && s[0] == ' ' then 1 + LeadingSpaces(s[1..]) else 0
  }

  lemma LeadingSpacesOfIndent(level: nat, rest: string)
    requires rest != [] && rest[0] != ' '
    ensures LeadingSpaces(Indent(level) + rest) == 2 * level
  {
    var s := Indent(level) + rest;
    assert s[2 * level] == rest[0];
    assert forall j :: 0 <= j < 2 * level ==> s[j] == Indent(level)[j];
  }

  /** Splits a line into its nesting level and the text after the indentation. */
  function SplitIndent(line: string): (r: Option<(nat, string)>)
    ensures r.Some? ==> line == Indent(r.value.0) + r.value.1
    ensures r.Some? ==> r.value.1 == [] || r.value.1[0] != ' '
  {
    var n := LeadingSpaces(line);
    if n % 2 != 0 then None
    else
      assert line[..n] == Indent(n / 2);
      assert line == line[..n] + line[n..];
      Some((n / 2, line[n..]))
  }

  /** Splits the text `"key"after` into the key, which ends at the last
      double quote, and what follows it. No type name holds a double quote,
      so the last one closes the key whatever the key holds. */
  function SplitKey(rest: string): (r: Option<(string, string)>)
    ensures r.Some? ==> '"' !in r.value.1
    ensures r.Some? ==> rest == "\"" + r.value.0 + "\"" + r.value.1
  {
    if rest == [] || rest[0] != '"' then None
    else
      var body := rest[1..];
      var j := LastIndexOf(body, '"');
      if j == |body| then None
      else
        assert body == body[..j] + "\"" + body[j + 1..];
        assert rest == "\"" + body;
        Some((body[..j], body[j + 1..]))
  }

  lemma SplitKeyOf(key: string, after: string)
    requires '"' !in after
    ensures SplitKey("\"" + key + "\"" + after) == Some((key, after))
  {
    var rest := "\"" + key + "\"" + after;
    var body := key + "\"" + after;
    assert rest[1..] == body;
    LastIndexOfSuffix(key, '"', after);
    assert body == key + ['"'] + after;
    assert body[..|key|] == key;
    assert body[|key| + 1..] == after;
  }

  /** The type name of a leaf property, read from the text after its key. */
  function LeafType(after: string): (r: Option<string>)
    ensures r.Some? ==> after == ": " + r.value + ";"
  {
    if |after| >= 3 && after[..2] == ": " && after[|after| - 1] == ';' then
      var typeName := after[2..|after| - 1];
      assert after == after[..2] + typeName + [after[|after| - 1]];
      Some(typeName)
    else
      None
  }

  lemma LeafTypeOf(typeName: string)
    ensures LeafType(": " + typeName + ";") == Some(typeName)
  {
    var after := ": " + typeName + ";";
    assert after[..2] == ": ";
    assert after[2..|after| - 1] == typeName;
  }

  /** Reads the text of a line after its indentation. */
  function ReadBody(level: nat, rest: string): (t: Option<Token>)
    ensures t.Some? ==> t.value.level == level && TokenBody(t.value) == rest
  {
    if rest == "};" then
      Some(CloseToken(level))
    else
      match SplitKey(rest)
      case None => None
      case Some((key, after)) =>
        if after == ": {" then
          OpenBodyText(rest, key);
          Some(OpenToken(level, key))
        else
          match LeafType(after)
          case None => None
          case Some(typeName) =>
            LeafBodyText(rest, key, after, typeName);
            Some(LeafToken(level, key, typeName))
  }

  lemma LeafBodyText(rest: string, key: string, after: string, typeName: string)
    requires rest == "\"" + key + "\"" + after && after == ": " + typeName + ";"
    ensures rest == TokenBody(LeafToken(0, key, typeName))
  {
  }

  lemma OpenBodyText(rest: string, key: string)
    requires rest == "\"" + key + "\"" + ": {"
    ensures rest == TokenBody(OpenToken(0, key))
  {
  }

  /** Reads one line of an interface body; `None` for a line no token writes. */
  function ReadToken(line: string): (t: Option<Token>)
    ensures t.Some? ==> TokenLine(t.value) == line
  {
    match SplitIndent(line)
    case None => None
    case Some((level, rest)) => ReadBody(level, rest)
  }

  lemma ReadBodyOf(t: Token)
    requires PlainToken(t)
    ensures ReadBody(t.level, TokenBody(t)) == Some(t)
  {
    match t
    case CloseToken(level) =>
    case OpenToken(level, key) =>
      assert TokenBody(t) == "\"" + key + "\"" + ": {";
      SplitKeyOf(key, ": {");
    case LeafToken(level, key, typeName) =>
      var after := ": " + typeName + ";";
      assert TokenBody(t) == "\"" + key + "\"" + after;
      assert '"' !in after by {
        assert forall i :: 0 <= i < |after| ==> after[i] in ": ;" || after[i] in typeName;
      }
      SplitKeyOf(key, after);
      assert after != ": {" by {
        assert after[|after| - 1] == ';';
      }
      LeafTypeOf(typeName);
  }

  /** Every line a plain token writes is read back as that token. */
  lemma ReadTokenLine(t: Token)
    requires PlainToken(t)
    ensures ReadToken(TokenLine(t)) == Some(t)
  {
    var body := TokenBody(t);
    assert body != [] && body[0] != ' ' by {
      match t
      case CloseToken(_) =>
      case OpenToken(_, key) =>
        assert body == "\"" + key + "\": {";
      case LeafToken(_, key, typeName) =>
        assert body == "\"" + key + "\": " + typeName + ";";
    }
    LeadingSpacesOfIndent(t.level, body);
    assert SplitIndent(TokenLine(t)) == Some((t.level, body));
    ReadBodyOf(t);
  }

  /** Reads every line of an interface body; `None` if one is unreadable. */
  function ReadTokens(lines: seq<string>): (r: Option<seq<Token>>)
    ensures r.Some? ==> |r.value| == |lines|
  {
    if lines == [] then Some([])
    else
      match ReadToken(lines[0])
      case None => None
      case Some(t) =>
        match ReadTokens(lines[1..])
        case None => None
        case Some(ts) =>
          Some([t] + ts)
  }

  /** What is read back renders to exactly the lines it was read from. */
  lemma {:induction false} ReadTokensSound(lines: seq<string>)
    ensures ReadTokens(lines).Some? ==> Lines(ReadTokens(lines).value) == lines
  {
    if lines != [] && ReadTokens(lines).Some? {
      var t := ReadToken(lines[0]).value;
      var ts := ReadTokens(lines[1..]).value;
      ReadTokensSound(lines[1..]);
      assert ReadTokens(lines).value == [t] + ts;
      LinesAppend([t], ts);
      assert Lines([t]) == [lines[0]];
      assert lines == [lines[0]] + lines[1..];
    }
  }

  lemma ReadTokensCons(line: string, lines: seq<string>, t: Token, ts: seq<Token>)
    requires ReadToken(line) == Some(t) && ReadTokens(lines) == Some(ts)
    ensures ReadTokens([line] + lines) == Some([t] + ts)
  {
    assert ([line] + lines)[1..] == lines;
  }

  lemma {:induction false} ReadLines(tokens: seq<Token>)
    requires PlainTokens(tokens)
    ensures ReadTokens(Lines(tokens)) == Some(tokens)
  {
    if tokens != [] {
      var t := tokens[0];
      var ts := tokens[1..];
      ReadTokenLine(t);
      ReadLines(ts);
      LinesAppend([t], ts);
      assert Lines([t]) == [TokenLine(t)];
      assert tokens == [t] + ts;
      ReadTokensCons(TokenLine(t), Lines(ts), t, ts);
    }
  }

  /** The result of reading a block: its properties and the tokens after it. */
  datatype Block = Block(fields: seq<(string, Shape)>, rest: seq<Token>) | Malformed

  /** Whether a token is a property of nesting level `level`. */
  predicate IsProperty(t: Token, level: nat)
  {
    (t.OpenToken? || t.LeafToken?) && t.level == level
  }

  /**
   * Reads the properties of a block at nesting level `level` from the front
   * of `tokens`, stopping at the first token that is no property of this
   * level; a nested block must end with its closing line.
   */
  function ParseBlock(tokens: seq<Token>, level: nat): (b: Block)
    ensures b.Block? ==> |b.rest| <= |tokens|
    decreases |tokens|
  {
    if tokens == [] || !IsProperty(tokens[0], level) then Block([], tokens)
    else
      match tokens[0]
      case LeafToken(_, key, typeName) =>
        (match ParseBlock(tokens[1..], level)
         case Malformed => Malformed
         case Block(fields, rest) => Block([(key, Leaf(typeName))] + fields, rest))
      case OpenToken(_, key) =>
        (match ParseBlock(tokens[1..], level + 1)
         case Malformed => Malformed
         case Block(inner, afterInner) =>
           if afterInner == [] || afterInner[0] != CloseToken(level) then Malformed
           else
             match ParseBlock(afterInner[1..], level)
             case Malformed => Malformed
             case Block(fields, rest) => Block([(key, Nested(inner))] + fields, rest))
      case CloseToken(_) => Block([], tokens)
  }

  /** What the reader accepts renders back to exactly the tokens it consumed. */
  lemma {:induction false} ParseBlockSound(tokens: seq<Token>, level: nat)
    ensures var b := ParseBlock(tokens, level);
      b.Block? ==> tokens == SchemaTokens(b.fields, level) + b.rest
    decreases |tokens|
  {
    var b := ParseBlock(tokens, level);
    if tokens == [] || !IsProperty(tokens[0], level) {
      assert SchemaTokens([], level) == [];
    } else if b.Block? {
      var t := tokens[0];
      assert tokens == [t] + tokens[1..];
      if t.LeafToken? {
        var c := ParseBlock(tokens[1..], level);
        ParseBlockSound(tokens[1..], level);
        SoundLeafStep(t, tokens[1..], c.fields, c.rest, level);
      } else {
        var c := ParseBlock(tokens[1..], level + 1);
        ParseBlockSound(tokens[1..], level + 1);
        var d := ParseBlock(c.rest[1..], level);
        ParseBlockSound(c.rest[1..], level);
        SoundNestedStep(t, tokens[1..], c.fields, c.rest, d.fields, d.rest, level);
      }
    }
  }

  lemma SoundLeafStep(t: Token, tail: seq<Token>, fields: seq<(string, Shape)>, rest: seq<Token>, level: nat)
    requires t.LeafToken? && t.level == level
    requires tail == SchemaTokens(fields, level) + rest
    ensures [t] + tail == SchemaTokens([(t.key, Leaf(t.typeName))] + fields, level) + rest
  {
    var all := [(t.key, Leaf(t.typeName))] + fields;
    SchemaTokensCons(all, level);
    assert all[1..] == fields;
  }

  lemma SoundNestedStep(t: Token, tail: seq<Token>, inner: seq<(string, Shape)>, after: seq<Token>,
                        fields: seq<(string, Shape)>, rest: seq<Token>, level: nat)
    requires t.OpenToken? && t.level == level
    requires tail == SchemaTokens(inner, level + 1) + after
    requires after != [] && after[0] == CloseToken(level)
    requires after[1..] == SchemaTokens(fields, level) + rest
    ensures [t] + tail == SchemaTokens([(t.key, Nested(inner))] + fields, level) + rest
  {
    var all := [(t.key, Nested(inner))] + fields;
    SchemaTokensCons(all, level);
    assert all[1..] == fields;
    assert after == [after[0]] + after[1..];
  }

  // ConsParts and Assoc name two sequence facts at the exact terms the
  // step lemmas below need, so the solver does not search for them.
  lemma ConsParts<T>(x: T, s: seq<T>)
    ensures ([x] + s)[0] == x && ([x] + s)[1..] == s
  {
  }

  lemma Assoc<T>(a: seq<T>, b: seq<T>, c: seq<T>)
    ensures a + b + c == a + (b + c)
  {
  }

  lemma ParseLeafStep(key: string, typeName: string, restTokens: seq<Token>,
                      restFields: seq<(string, Shape)>, tail: seq<Token>, level: nat)
    requires ParseBlock(restTokens + tail, level) == Block(restFields, tail)
    ensures ParseBlock([LeafToken(level, key, typeName)] + (restTokens + tail), level)
         == Block([(key, Leaf(typeName))] + restFields, tail)
  {
    ConsParts(LeafToken(level, key, typeName), restTokens + tail);
  }

  lemma ParseNestedStep(key: string, innerTokens: seq<Token>, innerFields: seq<(string, Shape)>,
                        restTokens: seq<Token>, restFields: seq<(string, Shape)>, tail: seq<Token>, level: nat)
    requires ParseBlock(innerTokens + ([CloseToken(level)] + (restTokens + tail)), level + 1)
          == Block(innerFields, [CloseToken(level)] + (restTokens + tail))
    requires ParseBlock(restTokens + tail, level) == Block(restFields, tail)
    ensures ParseBlock([OpenToken(level, key)] + (innerTokens + ([CloseToken(level)] + (restTokens + tail))), level)
         == Block([(key, Nested(innerFields))] + restFields, tail)
  {
    ConsParts(OpenToken(level, key), innerTokens + ([CloseToken(level)] + (restTokens + tail)));
    ConsParts(CloseToken(level), restTokens + tail);
  }

  /**
   * The reader recovers the schema of an object from its tokens, and leaves
   * untouched whatever follows that is no property of the same level.
   */
  lemma {:induction false} ParseInterfaceTokens(fields: Fields, level: nat, tail: seq<Token>)
    requires tail == [] || !IsProperty(tail[0], level)
    ensures ParseBlock(InterfaceTokens(fields, level) + tail, level) == Block(SchemaFields(fields), tail)
    decreases FieldsSize(fields)
  {
    if fields == [] {
      assert InterfaceTokens(fields, level) == [];
      assert [] + tail == tail;
    } else {
      FieldsSizeCons(fields);
      InterfaceTokensCons(fields, level);
      SchemaFieldsCons(fields);
      var key := fields[0].0;
      var v := fields[0].1;
      var rest := fields[1..];
      var restTokens := InterfaceTokens(rest, level);
      ParseInterfaceTokens(rest, level, tail);
      var entry := EntryTokens(key, SchemaOf(v), level);
      Assoc(entry, restTokens, tail);
      if v.Obj? {
        var innerTokens := InterfaceTokens(v.fields, level + 1);
        var after := [CloseToken(level)] + (restTokens + tail);
        ParseInterfaceTokens(v.fields, level + 1, after);
        assert entry == [OpenToken(level, key)] + innerTokens + [CloseToken(level)];
        Assoc([OpenToken(level, key)], innerTokens, [CloseToken(level)]);
        Assoc([OpenToken(level, key)], innerTokens + [CloseToken(level)], restTokens + tail);
        Assoc(innerTokens, [CloseToken(level)], restTokens + tail);
        ParseNestedStep(key, innerTokens, SchemaFields(v.fields), restTokens, SchemaFields(rest), tail, level);
      } else {
        assert entry == [LeafToken(level, key, PropertyType(v))];
        ParseLeafStep(key, PropertyType(v), restTokens, SchemaFields(rest), tail, level);
      }
    }
  }

  /** Reads a whole interface body written at nesting level `level`: every
      line must end with a newline. */
  function ParseInterface(text: string, level: nat): (r: Option<seq<(string, Shape)>>)
  {
    if text != "" && text[|text| - 1] != '\n' then None
    else
      match ReadTokens(SplitLines(text))
      case None => None
      case Some(tokens) =>
        var b := ParseBlock(tokens, level);
        if b.Block? && b.rest == [] then Some(b.fields) else None
  }

  /** The reader accepts only texts that are the rendering of the schema it
      returns. */
  lemma ParseInterfaceSound(text: string, level: nat)
    ensures ParseInterface(text, level).Some? ==>
      text == JoinLines(Lines(SchemaTokens(ParseInterface(text, level).value, level)))
  {
    if ParseInterface(text, level).Some? {
      var lines := SplitLines(text);
      var tokens := ReadTokens(lines).value;
      var fields := ParseInterface(text, level).value;
      ReadTokensSound(lines);
      ParseBlockSound(tokens, level);
      assert tokens == SchemaTokens(fields, level) + [];
      assert Lines(SchemaTokens(fields, level)) == lines;
      JoinSplitLines(text);
    }
  }

  /**
   * Round trip: reading back the text `generateInterface` writes for an
   * object with plain keys yields that object's schema.
   */
  lemma InterfaceRoundTrip(fields: Fields, level: nat)
    requires PlainKeys(Obj(fields))
    ensures ParseInterface(GenerateInterface(fields, level), level) == Some(SchemaFields(fields))
  {
    var tokens := InterfaceTokens(fields, level);
    InterfaceRendersSchema(fields, level);
    InterfaceTokensPlain(fields, level);
    PlainLinesSingle(tokens);
    SplitJoinLines(Lines(tokens));
    ReadLines(tokens);
    ParseInterfaceTokens(fields, level, []);
    assert tokens + [] == tokens;
  }

  /**
   * Two objects with plain keys get the same interface text exactly when
   * they have the same schema: same keys in the same order, same nesting,
   * same leaf types.
   */
  lemma InterfaceDeterminesSchema(a: Fields, b: Fields, level: nat)
    requires PlainKeys(Obj(a)) && PlainKeys(Obj(b))
    ensures GenerateInterface(a, level) == GenerateInterface(b, level) <==> SchemaFields(a) == SchemaFields(b)
  {
    InterfaceRendersSchema(a, level);
    InterfaceRendersSchema(b, level);
    InterfaceRoundTrip(a, level);
    InterfaceRoundTrip(b, level);
  }

  /** Why keys must not hold a newline: a key holding one can spell out
      the lines of other properties, and two objects with different schemas
      then get the same text. */
  lemma NewlineKeyAmbiguous(k1: string, k2: string, level: nat)
    ensures var joined := k1 + "\": number;\n" + Indent(level) + "\"" + k2;
            var a := [(joined, Num(1.0))];
            var b := [(k1, Num(1.0)), (k2, Num(1.0))];
      GenerateInterface(a, level) == GenerateInterface(b, level) && SchemaFields(a) != SchemaFields(b)
  {
    var t := PropertyType(Num(1.0));
    assert t == "number";
    var joined := k1 + "\": " + t + ";\n" + Indent(level) + "\"" + k2;
    assert joined == k1 + "\": number;\n" + Indent(level) + "\"" + k2;
    var a := [(joined, Num(1.0))];
    var b := [(k1, Num(1.0)), (k2, Num(1.0))];
    assert GenerateInterface(a, level) == PropertyText(joined, Num(1.0), level) by {
      assert a[1..] == [];
    }
    assert GenerateInterface(b, level) == PropertyText(k1, Num(1.0), level) + PropertyText(k2, Num(1.0), level) by {
      assert b[1..] == [(k2, Num(1.0))];
      assert b[1..][1..] == [];
    }
    SpelledLines(Indent(level), k1, k2, t);
    assert |SchemaFields(a)| != |SchemaFields(b)|;
  }

  lemma SpelledLines(indent: string, k1: string, k2: string, t: string)
    ensures indent + "\"" + (k1 + "\": " + t + ";\n" + indent + "\"" + k2) + "\": " + t + ";\n"
         == (indent + "\"" + k1 + "\": " + t + ";\n") + (indent + "\"" + k2 + "\": " + t + ";\n")
  {
  }
}
