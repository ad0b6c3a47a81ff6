# Typed messages: the declaration generator of the server runtime

This project models the generator that writes TypeScript declarations for
the messages and formats of an internationalised application
(`src/runtime/server/type-generation.ts`), and proves properties of it in
Dafny 4.11.

The generator does three things:

- **Target locales.** It picks the locales whose messages feed the declarations.
  - The setting "default" picks the default locale, when one is configured.
  - The setting "all" picks every configured locale, in order.
  - Anything else picks none.
  - Locale loaders run only for locales of the loader registry that are targets.
- **`generateInterface`.** It flattens a message object into the properties of an interface.
  - A property that is a plain object becomes a nested block: `"key": {`, the block's properties one level deeper, then `};`.
  - Any other property becomes `"key": type;`. The type is `unknown[]` for arrays and `typeof` otherwise.
  - Each level indents by two spaces.
  - The check on line 73 that would write `() => string` for functions is applied to the type name, which is a string. It therefore never fires: functions are written as `function`.
- **`generateTypeCode`.** It fills a fixed template with three sections:
  - the trimmed message interface;
  - one `key: DateTimeFormatOptions;` entry per top-level date-time format key;
  - one `key: NumberFormatOptions;` entry per top-level number format key.

  The entries are joined by a newline and two spaces. A missing section counts as an empty object.

JavaScript values are modelled by the datatype `JsValue.Value`. Objects hold an ordered sequence of own properties, so `for ... in` and `Object.keys` are the sequence order. `typeof`, `isObject`, `isArray` and `isFunction` are written out on that datatype. `String.prototype.trim` removes the white space and line terminators of ECMA-262, sections 12.2 and 12.3.

Most properties are stated against independent partner definitions.

- **Schema.** `Schema.SchemaOf` keeps only what the text can show: the property names, the nesting, and the type names of leaves.
- **Tokens.** `Schema.Token` describes one line of an interface body.
- **Rendering.** The generated text is the rendering of the schema's tokens (`Schema.InterfaceRendersSchema`).
- **Interface reader.** A reader (`SchemaParse`) recovers the schema from the text.
  - It never accepts text that is not a rendering (`SchemaParse.ParseInterfaceSound`).
  - It reads back every rendering of an object whose keys hold no newline (`SchemaParse.InterfaceRoundTrip`). A key may hold double quotes: no leaf type name holds one, so the last double quote of a line closes its key.
- **File reader.** `TypeCode.ReadTypeCode` reads the whole declaration file back into its three sections (`TypeCode.TypeCodeRoundTrip`). Consequently, two inputs whose keys hold no newline give the same file exactly when they agree on the schema of their messages and on their format keys.

Files:

| file | contents |
|---|---|
| `wrappers.dfy` | `Option` |
| `js_value.dfy` | JavaScript values, `typeof`, `isObject`, `isArray`, `isFunction`, `Object.keys`, a size measure for recursion |
| `text.dfy` | `repeat`, `join`, `trim`, lines, counting |
| `type_generation.dfy` | target locales, loader selection, `generateInterface`, `generateTypeCode` |
| `schema.dfy` | the schema and token partner, rendering lemmas, line counts |
| `schema_parse.dfy` | the reader of an interface body and its soundness and round trip |
| `type_code.dfy` | the reader of the whole declaration file and its round trip |

## Model

| member | source | states |
|---|---|---|
| Wrappers.GetOr | src/runtime/server/type-generation.ts:87 | an optional section falls back to the empty object: the section when present, the default otherwise |
| JsValue.TypeOf | src/runtime/server/type-generation.ts:72 | `typeof` gives "undefined", "boolean", "number", "string" and "function" exactly for undefined, booleans, numbers, strings and functions, and "object" exactly for null, arrays and objects |
| JsValue.IsObject | src/runtime/server/type-generation.ts:64 | `isObject` holds exactly for arrays and plain objects, never for null |
| JsValue.IsArray | src/runtime/server/type-generation.ts:64 | `isArray` holds exactly for arrays, and every array is also an object for `isObject` |
| JsValue.IsFunction | src/runtime/server/type-generation.ts:73 | `isFunction` holds exactly for function values |
| JsValue.Keys | src/runtime/server/type-generation.ts:91 | `Object.keys` gives one key per own property, in enumeration order |
| Text.Repeat | src/runtime/server/type-generation.ts:58 | `repeat(n)` is `n` copies of the text, concatenated |
| Text.Indent | src/runtime/server/type-generation.ts:58 | the indentation of a level is two spaces per level and nothing else |
| Text.Join | src/runtime/server/type-generation.ts:93 | `join`: empty for no items, the item itself for one; a joined list followed by one more separator is every item followed by the separator, concatenated |
| Text.TrimStart | src/runtime/server/type-generation.ts:87 | the result is a suffix; exactly the leading white space is removed |
| Text.TrimEnd | src/runtime/server/type-generation.ts:87 | the result is a prefix; exactly the trailing white space is removed |
| Text.Trim | src/runtime/server/type-generation.ts:87 | `trim` gives a text that neither starts nor ends with white space; it is empty exactly when the input is all white space |
| Text.TrimAround | src/runtime/server/type-generation.ts:87 | trimming white space around a text with non-blank ends gives back that text |
| TypeGeneration.TargetLocales | src/runtime/server/type-generation.ts:13-19 | "default" with a default locale gives that locale alone; "all" gives every configured code in order; any other case gives none |
| TypeGeneration.SelectLoaders | src/runtime/server/type-generation.ts:35-36 | a loader runs exactly when its locale is registered and is a target, in registry order |
| TypeGeneration.IsNestedObject | src/runtime/server/type-generation.ts:64 | a property is written as a nested block exactly when it is a plain object: null, arrays and primitives are leaves |
| TypeGeneration.PropertyType | src/runtime/server/type-generation.ts:72-75 | a leaf's type is `unknown[]` exactly for arrays, `string`, `number`, `boolean`, `undefined` and `function` exactly for values of those types, and `object` exactly for null; `() => string` is never written |
| TypeGeneration.PrimitiveLeafText | src/runtime/server/type-generation.ts:72-76 | a string, number, boolean or undefined message is written as `"key": string;`, `number;`, `boolean;` or `undefined;` |
| TypeGeneration.PropertyText | src/runtime/server/type-generation.ts:64-76 | each property starts with its indentation and quoted key and ends with a newline |
| TypeGeneration.GenerateInterface | src/runtime/server/type-generation.ts:57-80 | the text is empty exactly for an object with no properties, and otherwise ends with a newline |
| TypeGeneration.FormatEntries | src/runtime/server/type-generation.ts:91-99 | a format section is empty exactly when the formats have no keys |
| TypeGeneration.GenerateTypeCode | src/runtime/server/type-generation.ts:82-113 | the file opens with the fixed header and closes with the fixed module declarations; its sections are read back by `TypeCode.TypeCodeRoundTrip` |
| Schema.PropertyTextRendersSchema | src/runtime/server/type-generation.ts:64-76 | the text of one property is the rendering of its entry in the schema: an opening line, the nested lines and a closing line, or a single leaf line |
| Schema.InterfaceRendersSchema | src/runtime/server/type-generation.ts:57-80 | the text depends on the object only through its schema: it is the schema's lines, each ended by a newline |
| Schema.InterfaceTokensCount | src/runtime/server/type-generation.ts:57-80 | one line per leaf and two per nested object, at every depth |
| Schema.InterfaceLineCount | src/runtime/server/type-generation.ts:57-80 | for keys without a newline, the text holds exactly one newline per leaf and two per nested object |
| SchemaParse.ParseBlockSound | src/runtime/server/type-generation.ts:57-80 | the block reader accepts only tokens that are the rendering of the schema it returns, followed by the rest |
| SchemaParse.ParseInterfaceTokens | src/runtime/server/type-generation.ts:57-80 | the block reader recovers the schema of an object from its tokens and leaves what follows untouched |
| SchemaParse.ParseInterfaceSound | src/runtime/server/type-generation.ts:57-80 | a text the reader accepts is exactly the rendering of the schema it returns, final newline included |
| SchemaParse.InterfaceRoundTrip | src/runtime/server/type-generation.ts:57-80 | reading the generated text back yields the object's schema, for keys without a newline |
| SchemaParse.InterfaceDeterminesSchema | src/runtime/server/type-generation.ts:57-80 | two objects whose keys hold no newline give the same text exactly when they have the same schema |
| SchemaParse.NewlineKeyAmbiguous | src/runtime/server/type-generation.ts:76 | keys are written unescaped: a key spelling out a newline and a second property gives the same text as two properties with a different schema |
| TypeCode.MessagesSection | src/runtime/server/type-generation.ts:87 | for every key, the trimmed messages section is the level-1 body without its first indentation and final newline, and it is empty exactly when there are no messages |
| TypeCode.MessagesSectionBreaks | src/runtime/server/type-generation.ts:86-88 | for keys without a newline, no later line of the messages section starts with `}`, so the template's closing brace ends it |
| TypeCode.ReadMessagesOf | src/runtime/server/type-generation.ts:87 | the trimmed messages section reads back as the schema of the messages, for keys without a newline |
| TypeCode.EntryItemsKeys | src/runtime/server/type-generation.ts:92 | each `key: Type;` entry gives back its key |
| TypeCode.ReadEntryKeysOf | src/runtime/server/type-generation.ts:91-93 | a non-empty list of `key: Type;` entries joined by a newline and two spaces reads back as its keys, for keys without a newline |
| TypeCode.FormatSection | src/runtime/server/type-generation.ts:91-99 | for keys without a newline, a format section reads back as the top-level keys of its formats, in order, and no later line of it starts with `}` |
| TypeCode.TypeCodeRoundTrip | src/runtime/server/type-generation.ts:82-113 | the declaration file reads back as the messages' schema and both sections' keys; a missing section reads as empty |
| TypeCode.TypeCodeDeterminesSections | src/runtime/server/type-generation.ts:82-113 | two inputs give the same file exactly when their message schemas and format keys agree |

## Left out

- Loading is left out: the option loader (line 27), the per-locale copy of configured messages and formats (lines 28-32), the locale loaders (lines 38-49) and the file write (line 51) are asynchronous I/O or calls into modules that are not part of this model. `TypeGeneration.GenerateTypeCode` receives the merged sections as a parameter.
- `deepCopy` (lines 29-31, 40) belongs to `@intlify/shared` and is not part of this model, so merging several locales into one object is not modelled.
- `Object.prototype.hasOwnProperty` (line 62) always holds, because objects are modelled with their own properties only. Inherited enumerable properties are not modelled.
- Duplicate property names are not excluded from `JsValue.Value` objects. JavaScript objects cannot have them.
- `bigint` and `symbol` values are not modelled. Numbers are `real`, and their value never reaches the text.
- `x || {}` also replaces other falsy values. `Wrappers.GetOr` models only a missing section.
- The option `typedOptionsAndMessages` is a string or switched off (`TypeGeneration.TypedSetting`). Any other value selects no locale, like a switched-off option.
- `src/runtime/server/plugin.ts` is not part of this model.
- SchemaParse.InterfaceRoundTrip: holds only for keys without a newline. Keys are written unescaped, so a newline inside a key splits its line and the text no longer determines the schema (`SchemaParse.NewlineKeyAmbiguous`).
- SchemaParse.InterfaceDeterminesSchema: same restriction to keys without a newline.
- TypeCode.MessagesSectionBreaks: same restriction. A key holding a newline followed by `}` would end the messages section early.
- TypeCode.ReadMessagesOf: same restriction to keys without a newline.
- TypeCode.TypeCodeRoundTrip: holds only for message and format keys without a newline, for the same reason.
- TypeCode.TypeCodeDeterminesSections: same restriction.
- Schema.InterfaceLineCount: same restriction. A key holding a newline adds lines.
- TypeCode.ReadEntryKeysOf: holds only for format keys without a newline. The single key `a: DateTimeFormatOptions;\n  b` writes the same text as the two keys `a` and `b`.
- TypeCode.FormatSection: same restriction to format keys without a newline.
- Cyclic message objects are not modelled: a Dafny datatype value is finite and acyclic. On a cyclic object, `generateInterface` (lines 64-66) recurses until the stack overflows.
- Keys are sequences of Unicode scalar values, while JavaScript strings are sequences of UTF-16 code units. A key holding a lone surrogate cannot be represented.
