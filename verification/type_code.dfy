/**
 * Reading the declaration file back. The file is a fixed template with
 * three sections filled in: the message properties, the date-time format
 * keys and the number format keys. The reader below recovers all three from
 * the text, so the file loses nothing of what `generateTypeCode` was given
 * beyond the schema of the messages and the top-level format keys.
 */
module TypeCode {
  import opened Wrappers
  import opened JsValue
  import opened Text
  import opened TypeGeneration
  import opened Schema
  import opened SchemaParse

  /** What the declaration file records: the schema of the messages and the
      keys of the two format sections. */
  datatype Sections = Sections(messages: seq<(string, Shape)>, datetimeKeys: seq<string>, numberKeys: seq<string>)

  /** What `generateTypeCode` writes of its input. */
  function SectionsOf(res: I18nOptions): (s: Sections)
  {
    Sections(SchemaFields(res.messages.GetOr([])),
             Keys(res.datetimeFormats.GetOr([])),
             Keys(res.numberFormats.GetOr([])))
  }

  /** No key holds a newline. */
  predicate SingleLineKeys(formats: Fields)
  {
    forall i :: 0 <= i < |formats| ==> '\n' !in formats[i].0
  }

  /** Inputs whose declaration file can be read back: no key, of a message
      at any depth or of a format, holds a newline. */
  predicate ReadableOptions(res: I18nOptions)
  {
    && PlainKeys(Obj(res.messages.GetOr([])))
    && SingleLineKeys(res.datetimeFormats.GetOr([]))
    && SingleLineKeys(res.numberFormats.GetOr([]))
  }

  // ----- Locating the sections -----

  /** Every newline of `s` is followed, inside `s`, by a space: no line of
      `s` after the first starts with a closing brace. */
  predicate BreaksIndented(s: string)
  {
    forall i :: 0 <= i < |s| && s[i] == '\n' ==> i + 1 < |s| && s[i + 1] == ' '
  }

  /** A line starting with a closing brace begins at `i + 1`. */
  predicate ClosesAt(s: string, i: nat)
  {
    i + 1 < |s| && s[i] == '\n' && s[i + 1] == '}'
  }

  /** The first position at which an interface is closed, or `|s|`. */
  function FindClose(s: string): (i: nat)
    ensures i <= |s|
    ensures i < |s| ==> ClosesAt(s, i)
    ensures forall j :: 0 <= j < i ==> !ClosesAt(s, j)
    decreases |s|
  {
    if |s| < 2 then |s|
    else if s[0] == '\n' && s[1] == '}' then 0
    else
      var i := FindClose(s[1..]);
      FindCloseShift(s, i);
      1 + i
  }

  lemma FindCloseShift(s: string, i: nat)
    requires |s| >= 2 && !ClosesAt(s, 0) && i <= |s[1..]|
    requires i < |s[1..]| ==> ClosesAt(s[1..], i)
    requires forall j :: 0 <= j < i ==> !ClosesAt(s[1..], j)
    ensures 1 + i < |s| ==> ClosesAt(s, 1 + i)
    ensures forall j :: 0 <= j < 1 + i ==> !ClosesAt(s, j)
  {
    forall j | 1 <= j < 1 + i
      ensures !ClosesAt(s, j)
    {
      assert !ClosesAt(s[1..], j - 1);
    }
  }

  lemma FindCloseOf(s: string, rest: string)
    requires BreaksIndented(s)
    ensures FindClose(s + "\n}" + rest) == |s|
  {
    var t := s + "\n}" + rest;
    assert ClosesAt(t, |s|);
    forall j | 0 <= j < |s|
      ensures !ClosesAt(t, j)
    {
      assert t[j] == s[j];
      assert j + 1 < |s| ==> t[j + 1] == s[j + 1];
    }
  }

  /** Splits `s` at its first closing line, which must begin `marker`, into
      the text before the marker and the text after it. */
  function Cut(s: string, marker: string): (r: Option<(string, string)>)
    ensures r.Some? ==> s == r.value.0 + marker + r.value.1
  {
    var i := FindClose(s);
    if |s| - i >= |marker| && s[i..i + |marker|] == marker then
      assert s == s[..i] + s[i..i + |marker|] + s[i + |marker|..];
      Some((s[..i], s[i + |marker|..]))
    else
      None
  }

  lemma CutOf(s: string, marker: string, rest: string)
    requires BreaksIndented(s)
    requires |marker| >= 2 && marker[..2] == "\n}"
    ensures Cut(s + marker + rest, marker) == Some((s, rest))
  {
    var t := s + marker + rest;
    assert marker == "\n}" + marker[2..];
    assert t == s + "\n}" + (marker[2..] + rest);
    FindCloseOf(s, marker[2..] + rest);
    assert t[..|s|] == s;
    assert t[|s|..|s| + |marker|] == marker;
    assert t[|s| + |marker|..] == rest;
  }

  // ----- The messages section -----

  /** Reads the messages section: the interface body without the
      indentation of its first line and without its final newline. */
  function ReadMessages(section: string): (r: Option<seq<(string, Shape)>>)
  {
    if section == "" then Some([]) else ParseInterface(Indent(1) + section + "\n", 1)
  }

  /** Every token is at nesting level `level` or deeper. */
  predicate AtLeastLevel(tokens: seq<Token>, level: nat)
  {
    forall i :: 0 <= i < |tokens| ==> tokens[i].level >= level
  }

  lemma AtLeastLevelAppend(a: seq<Token>, b: seq<Token>, level: nat)
    requires AtLeastLevel(a, level) && AtLeastLevel(b, level)
    ensures AtLeastLevel(a + b, level)
  {
    forall i | 0 <= i < |a + b|
      ensures (a + b)[i].level >= level
    {
      if i < |a| {
        assert (a + b)[i] == a[i];
      } else {
        assert (a + b)[i] == b[i - |a|];
      }
    }
  }

  /** Nested properties are written deeper than their parent. */
  lemma {:induction false} InterfaceTokensLevel(fields: Fields, level: nat)
    ensures AtLeastLevel(InterfaceTokens(fields, level), level)
    decreases FieldsSize(fields)
  {
    if fields != [] {
      FieldsSizeCons(fields);
      InterfaceTokensCons(fields, level);
      var key := fields[0].0;
      var v := fields[0].1;
      var entry := EntryTokens(key, SchemaOf(v), level);
      if v.Obj? {
        var inner := InterfaceTokens(v.fields, level + 1);
        InterfaceTokensLevel(v.fields, level + 1);
        assert entry == [OpenToken(level, key)] + inner + [CloseToken(level)];
        AtLeastLevelAppend([OpenToken(level, key)], inner, level);
        AtLeastLevelAppend([OpenToken(level, key)] + inner, [CloseToken(level)], level);
      } else {
        assert entry == [LeafToken(level, key, PropertyType(v))];
      }
      InterfaceTokensLevel(fields[1..], level);
      AtLeastLevelAppend(entry, InterfaceTokens(fields[1..], level), level);
    }
  }

  /** A non-empty object starts with a property of its own level. */
  lemma InterfaceTokensFirst(fields: Fields, level: nat)
    requires fields != []
    ensures var tokens := InterfaceTokens(fields, level);
      tokens != [] && IsProperty(tokens[0], level)
  {
    InterfaceTokensCons(fields, level);
    var entry := EntryTokens(fields[0].0, SchemaOf(fields[0].1), level);
    assert IsProperty(entry[0], level);
  }

  /** A non-empty object never ends with an opening line. */
  lemma {:induction false} InterfaceTokensLast(fields: Fields, level: nat)
    requires fields != []
    ensures var tokens := InterfaceTokens(fields, level);
      tokens != [] && !tokens[|tokens| - 1].OpenToken?
  {
    InterfaceTokensCons(fields, level);
    var v := fields[0].1;
    var entry := EntryTokens(fields[0].0, SchemaOf(v), level);
    var rest := InterfaceTokens(fields[1..], level);
    assert !entry[|entry| - 1].OpenToken? by {
      if v.Obj? {
        assert entry == [OpenToken(level, fields[0].0)] + InterfaceTokens(v.fields, level + 1) + [CloseToken(level)];
      }
    }
    if fields[1..] == [] {
      assert rest == [];
      assert entry + rest == entry;
    } else {
      InterfaceTokensLast(fields[1..], level);
      assert (entry + rest)[|entry + rest| - 1] == rest[|rest| - 1];
    }
  }

  /** Every newline of `s` except a final one is followed by a space. */
  predicate BreaksBeforeEnd(s: string)
  {
    forall i :: 0 <= i < |s| - 1 && s[i] == '\n' ==> s[i + 1] == ' '
  }

  /** Lines that each start with a space, joined with newlines: every newline
      but the last is followed by a space. */
  lemma {:induction false} JoinLinesBreaks(lines: seq<string>)
    requires SingleLines(lines)
    requires forall i :: 0 <= i < |lines| ==> lines[i] != "" && lines[i][0] == ' '
    ensures BreaksBeforeEnd(JoinLines(lines))
  {
    if lines != [] {
      var head := lines[0];
      var rest := lines[1..];
      var tail := JoinLines(rest);
      var text := JoinLines(lines);
      assert text == head + "\n" + tail;
      JoinLinesBreaks(rest);
      assert '\n' !in head;
      assert forall i :: 0 <= i < |head| ==> text[i] == head[i];
      forall i | |head| < i < |text| - 1 && text[i] == '\n'
        ensures text[i + 1] == ' '
      {
        var k := i - |head| - 1;
        assert tail[k] == text[i];
        assert tail[k + 1] == text[i + 1];
      }
      if rest != [] {
        assert tail == rest[0] + "\n" + JoinLines(rest[1..]);
        assert text[|head| + 1] == rest[0][0];
      }
    }
  }

  /** The first line opens the joined text. */
  lemma JoinLinesFirst(lines: seq<string>)
    requires lines != []
    ensures var text := JoinLines(lines);
      |text| > |lines[0]| && text[..|lines[0]|] == lines[0]
  {
    assert JoinLines(lines) == lines[0] + ("\n" + JoinLines(lines[1..]));
  }

  /** The last visible character of the joined text ends the last line. */
  lemma JoinLinesLast(lines: seq<string>)
    requires lines != [] && lines[|lines| - 1] != ""
    ensures var text := JoinLines(lines); var last := lines[|lines| - 1];
      |text| >= 2 && text[|text| - 2] == last[|last| - 1]
  {
    var n := |lines|;
    var last := lines[n - 1];
    assert lines == lines[..n - 1] + [last];
    JoinLinesAppend(lines[..n - 1], [last]);
    assert JoinLines([last]) == last + "\n";
  }

  /** Cutting two characters off the front and one off the back keeps every
      newline followed by a space, unless the newline was second to last. */
  lemma BreaksInside(text: string)
    requires |text| >= 3 && text[|text| - 2] != '\n'
    requires BreaksBeforeEnd(text)
    ensures BreaksIndented(text[2..|text| - 1])
  {
    var mid := text[2..|text| - 1];
    assert forall i :: 0 <= i < |mid| ==> mid[i] == text[i + 2];
  }

  /** Trimming a joined text whose first line is indented by one level and
      whose first and last visible characters are not white space. */
  lemma TrimJoinedLines(lines: seq<string>)
    requires lines != [] && lines[|lines| - 1] != ""
    requires |lines[0]| > 2 && lines[0][..2] == "  " && !IsJsWhitespace(lines[0][2])
    requires !IsJsWhitespace(lines[|lines| - 1][|lines[|lines| - 1]| - 1])
    ensures var text := JoinLines(lines); var m := Trim(text);
      m != "" && |text| >= 3 && m == text[2..|text| - 1] && text == Indent(1) + m + "\n"
  {
    var text := JoinLines(lines);
    JoinLinesFirst(lines);
    JoinLinesLast(lines);
    TrimParts(text, lines[0]);
  }

  /** In a joined text of indented lines, every newline inside the text
      without its first two characters and its final newline is followed by
      a space. */
  lemma BreaksJoinedLines(lines: seq<string>)
    requires lines != [] && SingleLines(lines)
    requires forall i :: 0 <= i < |lines| ==> lines[i] != "" && lines[i][0] == ' '
    requires |lines[0]| >= 2
    ensures var text := JoinLines(lines); |text| >= 3 && BreaksIndented(text[2..|text| - 1])
  {
    var text := JoinLines(lines);
    JoinLinesFirst(lines);
    JoinLinesLast(lines);
    JoinLinesBreaks(lines);
    assert '\n' !in lines[|lines| - 1];
    BreaksInside(text);
  }

  lemma TrimParts(text: string, first: string)
    requires |text| > |first| > 2 && text[..|first|] == first
    requires first[..2] == "  " && !IsJsWhitespace(first[2])
    requires text[|text| - 1] == '\n' && !IsJsWhitespace(text[|text| - 2])
    ensures var mid := text[2..|text| - 1];
      mid != "" && Trim(text) == mid && text == Indent(1) + mid + "\n"
  {
    var mid := text[2..|text| - 1];
    assert text[..2] == first[..2];
    assert text == text[..2] + mid + [text[|text| - 1]];
    assert mid[0] == first[2];
    TrimAround("  ", mid, "\n");
    assert Indent(1) == "  ";
  }

  /** The lines of an interface at level 1 satisfy what trimming needs,
      whatever the keys hold. */
  lemma InterfaceLinesTrimmable(fields: Fields)
    requires fields != []
    ensures var lines := Lines(InterfaceTokens(fields, 1));
      && lines != [] && lines[|lines| - 1] != ""
      && |lines[0]| > 2 && lines[0][..2] == "  " && !IsJsWhitespace(lines[0][2])
      && !IsJsWhitespace(lines[|lines| - 1][|lines[|lines| - 1]| - 1])
  {
    var tokens := InterfaceTokens(fields, 1);
    InterfaceTokensFirst(fields, 1);
    InterfaceTokensLast(fields, 1);
    FirstLine(tokens[0]);
    LastLine(tokens[|tokens| - 1]);
  }

  /** With plain keys, every line of an interface at level 1 is a single
      line starting with a space. */
  lemma InterfaceLinesIndented(fields: Fields)
    requires PlainKeys(Obj(fields))
    ensures var lines := Lines(InterfaceTokens(fields, 1));
      && SingleLines(lines)
      && (forall i :: 0 <= i < |lines| ==> lines[i] != "" && lines[i][0] == ' ')
  {
    var tokens := InterfaceTokens(fields, 1);
    var lines := Lines(tokens);
    InterfaceTokensPlain(fields, 1);
    PlainLinesSingle(tokens);
    InterfaceTokensLevel(fields, 1);
    forall i | 0 <= i < |lines|
      ensures lines[i] != "" && lines[i][0] == ' '
    {
      IndentedLine(tokens[i]);
    }
  }

  lemma IndentedLine(t: Token)
    requires t.level >= 1
    ensures var line := TokenLine(t); line != "" && line[0] == ' '
  {
    assert TokenLine(t)[0] == Indent(t.level)[0];
  }

  lemma FirstLine(t: Token)
    requires IsProperty(t, 1)
    ensures var line := TokenLine(t);
      |line| > 2 && line[..2] == "  " && line[2] == '"'
  {
    var line := TokenLine(t);
    assert Indent(1) == "  ";
    assert TokenBody(t)[0] == '"';
    assert line == "  " + TokenBody(t);
  }

  lemma LastLine(t: Token)
    requires !t.OpenToken?
    ensures var line := TokenLine(t); line != "" && line[|line| - 1] == ';'
  {
    var body := TokenBody(t);
    assert body[|body| - 1] == ';';
    assert TokenLine(t) == Indent(t.level) + body;
  }

  /**
   * The messages section is the level-1 interface body with the
   * indentation of its first line and its final newline trimmed off; it is
   * empty exactly when there are no messages. This holds for every key.
   */
  lemma MessagesSection(fields: Fields)
    ensures var m := Trim(GenerateInterface(fields, 1));
      && (fields == [] <==> m == "")
      && (fields != [] ==> GenerateInterface(fields, 1) == Indent(1) + m + "\n")
  {
    if fields != [] {
      NonEmptyMessagesSection(fields);
    } else {
      assert GenerateInterface(fields, 1) == "";
      assert Trim("") == "";
    }
  }

  lemma NonEmptyMessagesSection(fields: Fields)
    requires fields != []
    ensures var text := GenerateInterface(fields, 1); var m := Trim(text);
      m != "" && |text| >= 3 && m == text[2..|text| - 1] && text == Indent(1) + m + "\n"
  {
    var lines := Lines(InterfaceTokens(fields, 1));
    InterfaceRendersSchema(fields, 1);
    assert GenerateInterface(fields, 1) == JoinLines(lines);
    InterfaceLinesTrimmable(fields);
    TrimJoinedLines(lines);
  }

  /** With plain keys, no later line of the messages section starts with a
      closing brace, so the section ends where the template closes it. */
  lemma MessagesSectionBreaks(fields: Fields)
    requires PlainKeys(Obj(fields))
    ensures BreaksIndented(Trim(GenerateInterface(fields, 1)))
  {
    if fields != [] {
      var lines := Lines(InterfaceTokens(fields, 1));
      NonEmptyMessagesSection(fields);
      InterfaceRendersSchema(fields, 1);
      assert GenerateInterface(fields, 1) == JoinLines(lines);
      InterfaceLinesTrimmable(fields);
      InterfaceLinesIndented(fields);
      BreaksJoinedLines(lines);
    } else {
      assert GenerateInterface(fields, 1) == "";
      assert Trim("") == "";
    }
  }

  /** The messages section reads back as the schema of the messages. */
  lemma ReadMessagesOf(fields: Fields)
    requires PlainKeys(Obj(fields))
    ensures ReadMessages(Trim(GenerateInterface(fields, 1))) == Some(SchemaFields(fields))
  {
    MessagesSection(fields);
    if fields != [] {
      InterfaceRoundTrip(fields, 1);
    }
  }

  // ----- The format sections -----

  /** The key of a `key: Type;` entry. */
  function EntryKey(item: string, typeName: string): (key: Option<string>)
    ensures key.Some? ==> item == key.value + ": " + typeName + ";"
  {
    var suffix := ": " + typeName + ";";
    if |item| >= |suffix| && item[|item| - |suffix|..] == suffix then
      assert item == item[..|item| - |suffix|] + item[|item| - |suffix|..];
      Some(item[..|item| - |suffix|])
    else
      None
  }

  /** Every entry of a format section gives back its key. */
  lemma EntryItemsKeys(keys: seq<string>, typeName: string)
    ensures var items := EntryItems(keys, typeName);
      forall i :: 0 <= i < |items| ==> EntryKey(items[i], typeName) == Some(keys[i])
  {
    forall i | 0 <= i < |keys|
      ensures EntryKey(EntryItems(keys, typeName)[i], typeName) == Some(keys[i])
    {
      EntryKeyOf(keys[i], typeName);
    }
  }

  lemma EntryKeyOf(key: string, typeName: string)
    ensures EntryKey(key + ": " + typeName + ";", typeName) == Some(key)
  {
    var item := key + ": " + typeName + ";";
    var suffix := ": " + typeName + ";";
    assert item == key + suffix;
    assert item[|key|..] == suffix;
    assert item[..|key|] == key;
  }

  /** Reads entries separated by a newline and two spaces; at least one. */
  function ReadEntryKeys(section: string, typeName: string): (keys: Option<seq<string>>)
    decreases |section|
  {
    var j := IndexOf(section, '\n');
    match EntryKey(section[..j], typeName)
    case None => None
    case Some(key) =>
      if j == |section| then Some([key])
      else if |section| - j >= 3 && section[j..j + 3] == "\n  " then
        match ReadEntryKeys(section[j + 3..], typeName)
        case None => None
        case Some(keys) => Some([key] + keys)
      else None
  }

  /** Reads a format section: no entries when it is empty. */
  function ReadEntries(section: string, typeName: string): (keys: Option<seq<string>>)
  {
    if section == "" then Some([]) else ReadEntryKeys(section, typeName)
  }

  lemma {:induction false} ReadEntryKeysOf(keys: seq<string>, typeName: string)
    requires keys != []
    requires forall i :: 0 <= i < |keys| ==> '\n' !in keys[i]
    requires '\n' !in typeName
    ensures ReadEntryKeys(Join(EntryItems(keys, typeName), "\n  "), typeName) == Some(keys)
    decreases |keys|
  {
    var items := EntryItems(keys, typeName);
    EntryItemsCons(keys, typeName);
    EntryItemSingle(keys[0], typeName);
    EntryKeyOf(keys[0], typeName);
    if |keys| == 1 {
      ReadEntryKeysOne(items[0], typeName);
      assert keys == [keys[0]];
    } else {
      ReadEntryKeysOf(keys[1..], typeName);
      JoinedEntriesStep(items, keys, typeName);
    }
  }

  lemma EntryItemsCons(keys: seq<string>, typeName: string)
    requires keys != []
    ensures var items := EntryItems(keys, typeName);
      && |items| == |keys|
      && items[0] == keys[0] + ": " + typeName + ";"
      && items[1..] == EntryItems(keys[1..], typeName)
  {
    var items := EntryItems(keys, typeName);
    assert items[1..] == EntryItems(keys[1..], typeName);
  }

  lemma JoinedEntriesStep(items: seq<string>, keys: seq<string>, typeName: string)
    requires |items| == |keys| > 1
    requires '\n' !in items[0] && EntryKey(items[0], typeName) == Some(keys[0])
    requires ReadEntryKeys(Join(items[1..], "\n  "), typeName) == Some(keys[1..])
    ensures ReadEntryKeys(Join(items, "\n  "), typeName) == Some(keys)
  {
    JoinCons(items, "\n  ");
    ReadEntryKeysCons(Join(items, "\n  "), items[0], Join(items[1..], "\n  "), typeName, keys[0], keys[1..]);
    assert keys == [keys[0]] + keys[1..];
  }

  lemma JoinCons(items: seq<string>, sep: string)
    requires |items| > 1
    ensures Join(items, sep) == items[0] + sep + Join(items[1..], sep)
  {
  }

  lemma EntryItemSingle(key: string, typeName: string)
    requires '\n' !in key && '\n' !in typeName
    ensures '\n' !in key + ": " + typeName + ";"
  {
  }

  lemma ReadEntryKeysOne(item: string, typeName: string)
    requires '\n' !in item && EntryKey(item, typeName).Some?
    ensures ReadEntryKeys(item, typeName) == Some([EntryKey(item, typeName).value])
  {
    assert item[..|item|] == item;
  }

  lemma ReadEntryKeysCons(section: string, item: string, rest: string, typeName: string, key: string, keys: seq<string>)
    requires section == item + "\n  " + rest
    requires '\n' !in item && EntryKey(item, typeName) == Some(key) && ReadEntryKeys(rest, typeName) == Some(keys)
    ensures ReadEntryKeys(section, typeName) == Some([key] + keys)
  {
    SeparatorParts(item, rest);
  }

  /** Where the first entry of a joined section ends and the next begins. */
  lemma SeparatorParts(item: string, rest: string)
    requires '\n' !in item
    ensures var section := item + "\n  " + rest; var j := |item|;
      && IndexOf(section, '\n') == j
      && |section| - j >= 3
      && section[..j] == item
      && section[j..j + 3] == "\n  "
      && section[j + 3..] == rest
  {
    var section := item + "\n  " + rest;
    assert section == item + ['\n'] + ("  " + rest);
    IndexOfPrefix(item, '\n', "  " + rest);
  }

  lemma {:induction false} JoinBreaks(items: seq<string>)
    requires SingleLines(items)
    ensures BreaksIndented(Join(items, "\n  "))
    decreases |items|
  {
    if |items| == 1 {
      assert '\n' !in items[0];
    } else if |items| > 1 {
      JoinCons(items, "\n  ");
      JoinBreaks(items[1..]);
      BreaksAfterSeparator(items[0], Join(items[1..], "\n  "));
    }
  }

  lemma BreaksAfterSeparator(head: string, rest: string)
    requires '\n' !in head && BreaksIndented(rest)
    ensures BreaksIndented(head + "\n  " + rest)
  {
    var r := head + "\n  " + rest;
    assert forall i :: 0 <= i < |head| ==> r[i] == head[i];
    assert r[|head|] == '\n' && r[|head| + 1] == ' ' && r[|head| + 2] == ' ';
    assert forall i :: |head| + 3 <= i < |r| ==> r[i] == rest[i - |head| - 3];
  }

  /**
   * A format section lists the keys of its formats, one per line, and no
   * line after the first starts with a closing brace.
   */
  lemma FormatSection(formats: Fields, typeName: string)
    requires SingleLineKeys(formats) && '\n' !in typeName
    ensures var d := FormatEntries(formats, typeName);
      BreaksIndented(d) && ReadEntries(d, typeName) == Some(Keys(formats))
  {
    var keys := Keys(formats);
    var items := EntryItems(keys, typeName);
    forall i | 0 <= i < |items|
      ensures '\n' !in items[i]
    {
      assert items[i] == keys[i] + ": " + typeName + ";";
    }
    JoinBreaks(items);
    if keys != [] {
      ReadEntryKeysOf(keys, typeName);
      assert Join(items, "\n  ") != "";
    }
  }

  // ----- The whole file -----

  /** Reads a declaration file back into its three sections. */
  function ReadTypeCode(code: string): (r: Option<Sections>)
  {
    if |code| < |Header| || code[..|Header|] != Header then None
    else ReadSections(code[|Header|..], AfterMessages, AfterDateTimeFormats, Footer)
  }

  /** Reads what follows the header: the three sections, each ended by the
      fixed text that follows it in the template, and nothing after the
      last one. */
  function ReadSections(body: string, afterMessages: string, afterDateTimes: string, footer: string): (r: Option<Sections>)
  {
    match Cut(body, afterMessages)
    case None => None
    case Some((m, rest1)) =>
      match Cut(rest1, afterDateTimes)
      case None => None
      case Some((d, rest2)) =>
        match Cut(rest2, footer)
        case None => None
        case Some((n, trailer)) =>
          if trailer != "" then None
          else
            match (ReadMessages(m), ReadEntries(d, "DateTimeFormatOptions"), ReadEntries(n, "NumberFormatOptions"))
            case (Some(ms), Some(ds), Some(ns)) => Some(Sections(ms, ds, ns))
            case _ => None
  }

  /** Each fixed part of the template after a section starts a line with a
      closing brace. */
  predicate ClosingMarker(marker: string)
  {
    |marker| >= 2 && marker[..2] == "\n}"
  }

  lemma TemplateMarkers()
    ensures ClosingMarker(AfterMessages) && ClosingMarker(AfterDateTimeFormats) && ClosingMarker(Footer)
  {
  }

  lemma ReadSectionsOf(m: string, d: string, n: string, s: Sections, a1: string, a2: string, a3: string)
    requires ClosingMarker(a1) && ClosingMarker(a2) && ClosingMarker(a3)
    requires BreaksIndented(m) && BreaksIndented(d) && BreaksIndented(n)
    requires ReadMessages(m) == Some(s.messages)
    requires ReadEntries(d, "DateTimeFormatOptions") == Some(s.datetimeKeys)
    requires ReadEntries(n, "NumberFormatOptions") == Some(s.numberKeys)
    ensures ReadSections(m + a1 + (d + a2 + (n + a3 + "")), a1, a2, a3) == Some(s)
  {
    CutOf(m, a1, d + a2 + (n + a3 + ""));
    CutOf(d, a2, n + a3 + "");
    CutOf(n, a3, "");
  }

  // Regroup and HeaderPrefix restate associativity and slicing over
  // abstract strings: stated over the long template literals, the same
  // facts cost the solver far more.
  lemma Regroup(h: string, m: string, a1: string, d: string, a2: string, n: string, a3: string)
    ensures h + m + a1 + d + a2 + n + a3 == h + (m + a1 + (d + a2 + (n + a3 + "")))
  {
  }

  lemma HeaderPrefix(h: string, body: string)
    ensures |h + body| >= |h| && (h + body)[..|h|] == h && (h + body)[|h|..] == body
  {
  }

  /**
   * Round trip: the declaration file written for options whose keys are
   * readable yields the schema of the messages and the keys of both format
   * sections; a missing section reads back as an empty one.
   */
  lemma TypeCodeRoundTrip(res: I18nOptions)
    requires ReadableOptions(res)
    ensures ReadTypeCode(GenerateTypeCode(res)) == Some(SectionsOf(res))
  {
    var m := Trim(GenerateInterface(res.messages.GetOr([]), 1));
    var d := FormatEntries(res.datetimeFormats.GetOr([]), "DateTimeFormatOptions");
    var n := FormatEntries(res.numberFormats.GetOr([]), "NumberFormatOptions");
    MessagesSectionBreaks(res.messages.GetOr([]));
    ReadMessagesOf(res.messages.GetOr([]));
    FormatSections(res);
    ReadTypeCodeOf(m, d, n, SectionsOf(res));
  }

  lemma FormatSections(res: I18nOptions)
    requires ReadableOptions(res)
    ensures var d := FormatEntries(res.datetimeFormats.GetOr([]), "DateTimeFormatOptions");
      BreaksIndented(d) && ReadEntries(d, "DateTimeFormatOptions") == Some(Keys(res.datetimeFormats.GetOr([])))
    ensures var n := FormatEntries(res.numberFormats.GetOr([]), "NumberFormatOptions");
      BreaksIndented(n) && ReadEntries(n, "NumberFormatOptions") == Some(Keys(res.numberFormats.GetOr([])))
  {
    FormatSection(res.datetimeFormats.GetOr([]), "DateTimeFormatOptions");
    FormatSection(res.numberFormats.GetOr([]), "NumberFormatOptions");
  }

  lemma ReadTypeCodeOf(m: string, d: string, n: string, s: Sections)
    requires BreaksIndented(m) && BreaksIndented(d) && BreaksIndented(n)
    requires ReadMessages(m) == Some(s.messages)
    requires ReadEntries(d, "DateTimeFormatOptions") == Some(s.datetimeKeys)
    requires ReadEntries(n, "NumberFormatOptions") == Some(s.numberKeys)
    ensures ReadTypeCode(Header + m + AfterMessages + d + AfterDateTimeFormats + n + Footer) == Some(s)
  {
    TemplateMarkers();
    ReadSectionsOf(m, d, n, s, AfterMessages, AfterDateTimeFormats, Footer);
    Regroup(Header, m, AfterMessages, d, AfterDateTimeFormats, n, Footer);
    HeaderPrefix(Header, m + AfterMessages + (d + AfterDateTimeFormats + (n + Footer + "")));
  }

  /** Two readable inputs give the same file exactly when they agree on the
      schema of their messages and on their format keys. */
  lemma TypeCodeDeterminesSections(a: I18nOptions, b: I18nOptions)
    requires ReadableOptions(a) && ReadableOptions(b)
    ensures GenerateTypeCode(a) == GenerateTypeCode(b) <==> SectionsOf(a) == SectionsOf(b)
  {
    TypeCodeRoundTrip(a);
    TypeCodeRoundTrip(b);
    if SectionsOf(a) == SectionsOf(b) {
      var ma := a.messages.GetOr([]);
      var mb := b.messages.GetOr([]);
      InterfaceRendersSchema(ma, 1);
      InterfaceRendersSchema(mb, 1);
      assert InterfaceTokens(ma, 1) == InterfaceTokens(mb, 1);
    }
  }
}
