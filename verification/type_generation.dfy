/**
 * The type-declaration generator of the server runtime: which locales feed
 * the generated declarations, how a message tree is flattened into the
 * properties of a TypeScript interface, and the declaration file that wraps
 * those properties.
 */
module TypeGeneration {
  import opened Wrappers
  import opened JsValue
  import opened Text

  /** The `experimental.typedOptionsAndMessages` option: switched off
      (`false` or absent), or a named setting such as "default" or "all". */
  datatype TypedSetting = Disabled | Setting(name: string)

  /** An entry of the normalized locale list; only its code matters here. */
  datatype LocaleObject = LocaleObject(code: string)

  /**
   * The locales whose messages and formats feed the declarations: the
   * default locale for "default" (when one is configured), every configured
   * locale code in order for "all", and none otherwise.
   */
  function TargetLocales(setting: TypedSetting, defaultLocale: Option<string>,
                         normalizedLocales: seq<LocaleObject>): (targets: seq<string>)
    ensures setting == Setting("default") && defaultLocale.Some? ==> targets == [defaultLocale.value]
    ensures setting == Setting("all") ==>
      && |targets| == |normalizedLocales|
      && forall i :: 0 <= i < |targets| ==> targets[i] == normalizedLocales[i].code
    ensures setting != Setting("all") && !(setting == Setting("default") && defaultLocale.Some?) ==>
      targets == []
  {
    if setting == Setting("default") && defaultLocale.Some? then
      [defaultLocale.value]
    else if setting == Setting("all") then
      seq(|normalizedLocales|, i requires 0 <= i < |normalizedLocales| => normalizedLocales[i].code)
    else
      []
  }

  /** `xs` keeps some of the elements of `ys`, in their order in `ys`. */
  predicate IsSubsequence(xs: seq<string>, ys: seq<string>)
    decreases |ys|
  {
    if xs == [] then true
    else if ys == [] then false
    else if xs[0] == ys[0] then IsSubsequence(xs[1..], ys[1..])
    else IsSubsequence(xs, ys[1..])
  }

  /**
   * The locales whose loaders run: those of the loader registry, in registry
   * order, that are also target locales.
   */
  function SelectLoaders(loaderLocales: seq<string>, targets: seq<string>): (selected: seq<string>)
    ensures forall x :: x in selected <==> x in loaderLocales && x in targets
    ensures IsSubsequence(selected, loaderLocales)
  {
    if loaderLocales == [] then []
    else if loaderLocales[0] in targets then
      [loaderLocales[0]] + SelectLoaders(loaderLocales[1..], targets)
    else
      SelectLoaders(loaderLocales[1..], targets)
  }

  /** The condition under which a property becomes a nested interface block:
      a non-null object that is not an array. */
  function IsNestedObject(v: Value): (b: bool)
    ensures b <==> v.Obj?
  {
    IsObject(v) && v != Null && !IsArray(v)
  }

  /**
   * The type written for a property that is not a nested object. The check
   * that would turn a function into `() => string` is applied to the type
   * name (a string), not to the value, so it never fires.
   */
  function PropertyType(v: Value): (t: string)
    ensures t != "() => string"
    ensures t == "unknown[]" <==> v.Arr?
    ensures t == "string" <==> v.Str?
    ensures t == "number" <==> v.Num?
    ensures t == "boolean" <==> v.Bool?
    ensures t == "undefined" <==> v.Undefined?
    ensures t == "object" <==> v.Null? || v.Obj?
    ensures t == "function" <==> v.Func?
  {
    var propertyType := if IsArray(v) then "unknown[]" else TypeOf(v);
    if IsFunction(Str(propertyType)) then "() => string" else propertyType
  }

  /** The text of one property at nesting level `indentLevel`. */
  function PropertyText(key: string, value: Value, indentLevel: nat): (r: string)
    ensures var head := Indent(indentLevel) + "\"" + key + "\": ";
      |head| < |r| && r[..|head|] == head
    ensures r[|r| - 1] == '\n'
    decreases Size(value), 0
  {
    var indent := Indent(indentLevel);
    if IsNestedObject(value) then
      indent + "\"" + key + "\": {\n"
        + GenerateInterface(value.fields, indentLevel + 1)
        + indent + "};\n"
    else
      indent + "\"" + key + "\": " + PropertyType(value) + ";\n"
  }

  /** A string, number, boolean or undefined message is written with the
      name of its JavaScript type. */
  lemma PrimitiveLeafText(key: string, v: Value, level: nat)
    requires v.Str? || v.Num? || v.Bool? || v.Undefined?
    ensures PropertyText(key, v, level) == Indent(level) + "\"" + key + "\": "
      + (if v.Str? then "string" else if v.Num? then "number" else if v.Bool? then "boolean" else "undefined")
      + ";\n"
  {
  }

  /**
   * `generateInterface(obj, indentLevel)`: one block per property of `obj`,
   * in enumeration order.
   */
  function GenerateInterface(obj: Fields, indentLevel: nat): (r: string)
    ensures obj == [] <==> r == ""
    ensures r != "" ==> r[|r| - 1] == '\n'
    decreases FieldsSize(obj), 1
  {
    if obj == [] then ""
    else
      FieldsSizeCons(obj);
      PropertyText(obj[0].0, obj[0].1, indentLevel) + GenerateInterface(obj[1..], indentLevel)
  }

  /** The declaration-file inputs: the merged messages and the two format
      sections, each possibly missing. */
  datatype I18nOptions = I18nOptions(
    messages: Option<Fields>,
    datetimeFormats: Option<Fields>,
    numberFormats: Option<Fields>)

  /** The body of a format interface: one `key: Type;` entry per top-level
      key, joined by a newline and two spaces. */
  function FormatEntries(formats: Fields, typeName: string): (r: string)
    ensures r == "" <==> formats == []
  {
    var items := EntryItems(Keys(formats), typeName);
    assert items != [] ==> |items[0]| > 0;
    Join(items, "\n  ")
  }

  /** The `key: Type;` entry of each key. */
  function EntryItems(keys: seq<string>, typeName: string): (items: seq<string>)
  {
    seq(|keys|, i requires 0 <= i < |keys| => keys[i] + ": " + typeName + ";")
  }

  const Header: string :=
    "// generated by @nuxtjs/i18n\n"
    + "import type { DateTimeFormatOptions, NumberFormatOptions, SpecificNumberFormatOptions, CurrencyNumberFormatOptions } from '@intlify/core'\n"
    + "\n"
    + "interface GeneratedLocaleMessage {\n"
    + "  "

  const AfterMessages: string :=
    "\n}\n"
    + "\n"
    + "interface GeneratedDateTimeFormat {\n"
    + "  "

  const AfterDateTimeFormats: string :=
    "\n}\n"
    + "\n"
    + "interface GeneratedNumberFormat {\n"
    + "  "

  const Footer: string :=
    "\n}\n"
    + "\n"
    + "declare module 'vue-i18n' {\n"
    + "  export interface DefineLocaleMessage extends GeneratedLocaleMessage {}\n"
    + "  export interface DefineDateTimeFormat extends GeneratedDateTimeFormat {}\n"
    + "  export interface DefineNumberFormat extends GeneratedNumberFormat {}\n"
    + "}\n"
    + "\n"
    + "declare module '@intlify/core' {\n"
    + "  export interface DefineCoreLocaleMessage extends GeneratedLocaleMessage {}\n"
    + "}\n"
    + "\n"
    + "export {}"

  /** `generateTypeCode(res)`: the text of the declaration file. */
  function GenerateTypeCode(res: I18nOptions): (code: string)
    ensures |code| >= |Header| + |Footer|
    ensures code[..|Header|] == Header
    ensures code[|code| - |Footer|..] == Footer
  {
    var m := Trim(GenerateInterface(res.messages.GetOr([]), 1));
    var d := FormatEntries(res.datetimeFormats.GetOr([]), "DateTimeFormatOptions");
    var n := FormatEntries(res.numberFormats.GetOr([]), "NumberFormatOptions");
    Framed(Header, m, AfterMessages, d, AfterDateTimeFormats, n, Footer);
    Header
      + Trim(GenerateInterface(res.messages.GetOr([]), 1))
      + AfterMessages
      + FormatEntries(res.datetimeFormats.GetOr([]), "DateTimeFormatOptions")
      + AfterDateTimeFormats
      + FormatEntries(res.numberFormats.GetOr([]), "NumberFormatOptions")
      + Footer
  }

  lemma Framed(h: string, m: string, a1: string, d: string, a2: string, n: string, f: string)
    ensures var code := h + m + a1 + d + a2 + n + f;
      |code| >= |h| + |f| && code[..|h|] == h && code[|code| - |f|..] == f
  {
    var code := h + m + a1 + d + a2 + n + f;
    assert code == h + (m + a1 + d + a2 + n) + f;
  }
}
