# ArtGardeners intl pipeline and partial-hydration preprocessors in Dafny

This project models the internationalisation core of ArtGardeners and its two
Svelte markup preprocessors.

**The build-time message compiler** is the Babel plugin in
`src/tooling/intl/babelIntlPlugin.js`. For every call `_("message id")`:
- it looks the id up in the locale's translation catalog;
- a missing or empty entry is seeded with the id itself, and a debounced write of the catalog back to `<folder>/<locale>.json` is scheduled;
- the translated ICU MessageFormat text is parsed;
- the call's first argument is replaced by the translated string when the message is a single literal, and otherwise by an arrow function built from the message AST;
- the function's parameters are the argument names the message uses, sorted;
- the helpers the body calls are recorded and imported at the top of the file.

**The runtime** is `src/server/view/modules/intl/index.js`:
- the current locale;
- `__interpolate`;
- the option lookups `__select`, `__plural` and `__offsetPlural` (exact key first, then the abbreviated plural category);
- the formatter requests behind `__number`, `__date` and `__time`;
- the memoiser of the `Intl` objects;
- `format`, which returns a string message as is and calls a compiled message with the values in the sorted order of their names.

**The preprocessors.** `removeTemplatePreprocessor.ts` strips the `<template tag="X">` wrapper of a partially hydrated component for the client build. `addPartialHydrationServerInfoPreprocessor.ts` rewrites it for the server build:
- a `<svelte:head>` block announces the component's bundle;
- an `X` element carries the component id;
- the id is exported from the module script.

## Structure

| file | module | contents |
|---|---|---|
| js.dfy | Js | JavaScript values, truthiness, logical or, property keys of numbers, `trim`, `JSON.stringify` of a string |
| text.dfy | Text | `indexOf`, `String.prototype.replace` with a string pattern (callback and `$`-pattern replacement) |
| order.dfy | Order | the default `sort` order on strings and the sorted list of a set's names |
| intl_keys.dfy | IntlKeys | `normalizePluralKey`, `normalizeKey`, the plural abbreviation table |
| icu_ast.dfy, js_ast.dfy | IcuAst, JsAst | the parser's message AST; the JavaScript expressions the compiler builds |
| compiler_spec.dfy | CompilerSpec | what the compiler emits, records in `usedHelpers` and records in `currentFunctionParams`, as functions of the AST |
| compiler.dfy | MessageCompiler | class `Compiler`, the plugin's mutable state and passes, each proved to compute the functions above |
| compiler_props.dfy, compiler_shape.dfy | CompilerProps, CompilerShape | properties of the emitted code |
| catalog.dfy | Catalog | the translation managers: `get`, the debounced write, reload, the per-locale registry |
| runtime.dfy | Runtime | the runtime helpers, the memoiser and `format` |
| template_tags.dfy | TemplateTags | the two `<template tag="...">` regular expressions as leftmost-match search |
| remove_template.dfy | RemoveTemplate | the client-side preprocessor |
| server_info.dfy | ServerInfo | the server-side preprocessor |

**Compiler state.** The closure variables of the compiler are the fields of class `MessageCompiler.Compiler`: `usedHelpers`, `currentFunctionParams` (the field `params`) and `pluralsStack` (the field `plurals`). Every method states its result and its new state through the functions of `CompilerSpec`. The lemmas about those functions are:
- every helper the emitted code calls is recorded, and nothing else is;
- every recorded parameter is read by the body;
- `#` binds to the innermost plural;
- the quasis of template literals;
- the keys of options objects.

**Catalog manager state.** `messages`, the `throttle` timer and the registry of timers are fields of `Catalog.TranslationManager`. The invariant `Valid` says at most one write is pending.

**Boundary values.** Timers, file contents and the success of a write enter as parameters. The parser's output enters as a function parameter `parse` from text to AST.

## Model

| member | source | states |
|---|---|---|
| Js.Or | src/server/view/modules/intl/index.js:41 | the logical or of `a` and `b` is `a` when `a` is truthy and `b` otherwise |
| Js.ToPropertyKey | src/server/view/modules/intl/index.js:58 | the key `opts[value]` looks up: a string as is, a number in decimal |
| Js.DecimalStringDigit | src/server/view/modules/intl/index.js:58 | a number's decimal text is the one digit `d` exactly when the number is `d` |
| Js.Trim | src/tooling/intl/babelIntlPlugin.js:126 | `key.trim()` removes exactly the leading and trailing white space |
| Js.TrimIdentity | src/tooling/intl/babelIntlPlugin.js:133 | a key without surrounding white space is left unchanged |
| Js.JsonQuote | src/tooling/partialHydration/addPartialHydrationServerInfoPreprocessor.ts:26 | `JSON.stringify` of a string is quoted, and is the string between quotes when it has nothing to escape |
| Js.EscapeString | src/tooling/partialHydration/addPartialHydrationServerInfoPreprocessor.ts:26 | escaping never shortens a string and leaves a string without special characters unchanged |
| Js.EscapedThenQuote | src/server/view/modules/intl/index.js:4 | the first unescaped `"` after an escaped string ends it: an escaped string followed by `"` and more text splits in one way only |
| Js.JsonQuoteSplit | src/server/view/modules/intl/index.js:4 | `JSON.stringify` of a string can be read back: whatever follows it, the quoted string and the rest are recovered |
| Text.IndexOf | src/tooling/partialHydration/removeTemplatePreprocessor.ts:7 | the position found is an occurrence, and no earlier position is one; none found means no occurrence |
| Text.IndexOfFindsContained | src/tooling/partialHydration/addPartialHydrationServerInfoPreprocessor.ts:27 | the search finds an occurrence exactly when the text contains the pattern |
| Text.ReplaceFirst | src/tooling/partialHydration/addPartialHydrationServerInfoPreprocessor.ts:10 | only the first occurrence is replaced, and text without the pattern is unchanged |
| Text.Substitute | src/tooling/partialHydration/addPartialHydrationServerInfoPreprocessor.ts:24 | a replacement string without `$` is inserted literally |
| Text.ReplaceFirstString | src/tooling/partialHydration/removeTemplatePreprocessor.ts:7 | without a match the text is unchanged; without `$` in the replacement it is the literal first-occurrence replacement |
| Order.StrLtIrreflexive | src/tooling/intl/babelIntlPlugin.js:268 | no name sorts before itself |
| Order.StrLtTransitive | src/tooling/intl/babelIntlPlugin.js:268 | the sort order is transitive |
| Order.StrLtTotal | src/tooling/intl/babelIntlPlugin.js:268 | any two different names are ordered one way or the other |
| Order.StrLtAsymmetric | src/tooling/intl/babelIntlPlugin.js:268 | two names are never ordered both ways |
| Order.LeastExists | src/tooling/intl/babelIntlPlugin.js:268 | every non-empty set of names has a first name in sort order |
| Order.SortedNames | src/tooling/intl/babelIntlPlugin.js:267-269 | `Array.from(set).sort()` is strictly increasing, has exactly the set's names and has one entry per name |
| Order.SortedUnique | src/server/view/modules/intl/index.js:81-82 | two strictly sorted lists of the same names are equal, so the compiler's parameter list and `format`'s key list agree |
| IntlKeys.ExactDigit | src/tooling/intl/babelIntlPlugin.js:127-128 | `/^=(\d)/` matches exactly when the key starts with `=` and a digit, and gives that digit |
| IntlKeys.NumericKeyIff | src/tooling/intl/babelIntlPlugin.js:125-137 | both normalisers give a number exactly when the trimmed key starts with `=` and a digit, and then the same number below 10 |
| IntlKeys.ExactKeyTakesOneDigit | src/tooling/intl/babelIntlPlugin.js:125-135 | a key `=d` followed by any text normalises to the number `d` under both normalisers: only the first digit counts |
| IntlKeys.TenKey | src/tooling/intl/babelIntlPlugin.js:127-128 | `=10` normalises to 1 |
| IntlKeys.PaddedExactKey | src/tooling/intl/babelIntlPlugin.js:133-135 | ` =42 ` is trimmed first and normalises to 4 |
| IntlKeys.NameKeyIff | src/tooling/intl/babelIntlPlugin.js:125-137 | a key that is not numeric normalises to its trimmed text, except that under a plural a category name becomes its one-letter abbreviation |
| IntlKeys.CategoryKeysAbbreviated | src/tooling/intl/babelIntlPlugin.js:17-24 | under a plural the six category names become `z o t f m h`; under a select they stay as written |
| IntlKeys.PluralAndSelectKeysAgree | src/tooling/intl/babelIntlPlugin.js:125-137 | the two normalisers differ exactly on the six category names; any other key is only trimmed |
| IntlKeys.NormalizeKeyIdempotent | src/tooling/intl/babelIntlPlugin.js:132-137 | normalising an already normalised name key changes nothing |
| CompilerSpec.InnerStack | src/tooling/intl/babelIntlPlugin.js:156-157 | a plural pushes one frame onto `pluralsStack` while its options compile; a select pushes none |
| CompilerSpec.OptionsSpec | src/tooling/intl/babelIntlPlugin.js:159-180 | the options object has one property per option |
| CompilerSpec.OptionsStep | src/tooling/intl/babelIntlPlugin.js:159-180 | each option appends one property (normalised key and compiled value), its helpers and its parameters |
| CompilerSpec.TemplateStep | src/tooling/intl/babelIntlPlugin.js:198-255 | each template element appends its quasis, its expressions, its helpers and its parameters |
| CompilerSpec.QuasiPart | src/tooling/intl/babelIntlPlugin.js:201-254 | an element pushes quasis marked `tail` only when it is the last element, and then only its last quasi, which always exists |
| CompilerSpec.QuasisTail | src/tooling/intl/babelIntlPlugin.js:198-255 | exactly the last quasi of a finished template is marked `tail` |
| CompilerSpec.TemplateSpec | src/tooling/intl/babelIntlPlugin.js:195-257 | a template literal whose last quasi, and no other, is marked `tail` when the message has elements |
| CompilerSpec.ElementExprs | src/tooling/intl/babelIntlPlugin.js:200-251 | an argument, formatter, select, plural or `#` element pushes one expression; a literal or an unknown kind pushes none |
| CompilerSpec.FunctionSpec | src/tooling/intl/babelIntlPlugin.js:259-272 | an arrow whose parameters are strictly sorted and are exactly the names collected for the message, each once |
| MessageCompiler.Compiler.constructor | src/tooling/intl/babelIntlPlugin.js:121-123 | the plugin starts with no helpers, no parameters and an empty plural stack |
| MessageCompiler.Compiler.BuildCallExpression | src/tooling/intl/babelIntlPlugin.js:139-193 | returns the specified call, adds its helpers and parameters, and leaves `pluralsStack` as it found it |
| MessageCompiler.Compiler.BuildOptions | src/tooling/intl/babelIntlPlugin.js:159-180 | the loop over the options builds the specified properties in order and leaves the plural stack unchanged |
| MessageCompiler.Compiler.BuildOptionValue | src/tooling/intl/babelIntlPlugin.js:161-170 | an option's value is a string literal, the call of its single element, or a template, as specified |
| MessageCompiler.Compiler.BuildTemplateLiteral | src/tooling/intl/babelIntlPlugin.js:195-257 | the loop's quasis and expressions are the specified template, with its helpers and parameters added |
| MessageCompiler.Compiler.BuildTemplateElement | src/tooling/intl/babelIntlPlugin.js:199-254 | one pass of the `switch`: the quasis and expressions pushed for element `i` |
| MessageCompiler.Compiler.BuildFunction | src/tooling/intl/babelIntlPlugin.js:259-272 | resets parameters and plural stack, and returns an arrow over the sorted collected parameters |
| MessageCompiler.Compiler.ProgramEnter | src/tooling/intl/babelIntlPlugin.js:277-279 | each file starts with no used helpers |
| MessageCompiler.Compiler.ProgramExit | src/tooling/intl/babelIntlPlugin.js:280-298 | `usesIntl` holds exactly when a helper was used, and then all used helpers are imported in sorted order |
| MessageCompiler.RewriteSpec | src/tooling/intl/babelIntlPlugin.js:300-314 | a `_("...")` call is always rewritten or fails: parsing fails exactly on a syntax error, a lone literal becomes the translated string, compilation fails exactly when the message cannot be compiled, and otherwise the result is an arrow function |
| MessageCompiler.Compiler.RewriteCall | src/tooling/intl/babelIntlPlugin.js:300-314 | only `_("...")` calls change; the id is looked up, and a missing or empty id is seeded and starts exactly one new write timer while any other call leaves the timers alone; a lone literal becomes the translated string, any other message its compiled function |
| Catalog.InitialEntries | src/tooling/intl/babelIntlPlugin.js:30-41 | a missing file starts an empty catalog, a parsed file its entries, a malformed file throws |
| Catalog.Translation | src/tooling/intl/babelIntlPlugin.js:96-108 | `get` returns the stored text when it is non-empty and the id itself otherwise |
| Catalog.TranslationStable | src/tooling/intl/babelIntlPlugin.js:96-108 | after a lookup the id has an entry, and a second lookup returns the same text |
| Catalog.Messages.constructor | src/tooling/intl/babelIntlPlugin.js:41 | the messages object holds the parsed entries |
| Catalog.TranslationManager.constructor | src/tooling/intl/babelIntlPlugin.js:95-109 | a new manager has its initial messages, no pending write and nothing written |
| Catalog.TranslationManager.UpdateTranslations | src/tooling/intl/babelIntlPlugin.js:62-88 | the pending timer is cleared and one new write is scheduled, so at most one write is pending |
| Catalog.TranslationManager.Get | src/tooling/intl/babelIntlPlugin.js:96-108 | a missing or empty id is stored as itself and a write is scheduled; a present id is returned with no write scheduled |
| Catalog.TranslationManager.FireTimer | src/tooling/intl/babelIntlPlugin.js:67-87 | the timer clears `throttle` and appends the captured messages to the file when the write succeeds |
| Catalog.TranslationManager.GetThenWrite | src/tooling/intl/babelIntlPlugin.js:62-108 | a new id is returned as itself, and once the write it schedules fires, the catalog written out holds the entry `id: id` |
| Catalog.TranslationManager.Reload | src/tooling/intl/babelIntlPlugin.js:43-59 | a readable file rebinds `messages` to a new object, and a pending write still holds the old one; a failed read changes nothing |
| Catalog.ManagerRegistry.constructor | src/tooling/intl/babelIntlPlugin.js:26 | the registry starts empty |
| Catalog.ManagerRegistry.ManagerFor | src/tooling/intl/babelIntlPlugin.js:27-113 | a locale's manager is created once from its file and returned unchanged afterwards |
| CompilerProps.CallCallees | src/tooling/intl/babelIntlPlugin.js:139-193 | the helpers the emitted call invokes are exactly the helpers recorded for it |
| CompilerProps.FormatterCallees | src/tooling/intl/babelIntlPlugin.js:146-155 | an argument or formatter call invokes only its own helper |
| CompilerProps.ChoiceArgs | src/tooling/intl/babelIntlPlugin.js:184-192 | a select or plural calls its helper on `(param[, offset], options)` |
| CompilerProps.ChoiceCallees | src/tooling/intl/babelIntlPlugin.js:139-193 | a select or plural call invokes its helper and the helpers of its options |
| CompilerProps.OptionsCallees | src/tooling/intl/babelIntlPlugin.js:159-180 | the options object invokes exactly the helpers recorded for the options |
| CompilerProps.ValueCallees | src/tooling/intl/babelIntlPlugin.js:161-170 | an option's value invokes exactly the helpers recorded for it |
| CompilerProps.TemplateCallees | src/tooling/intl/babelIntlPlugin.js:195-257 | a template's expressions invoke exactly the helpers recorded for its elements |
| CompilerProps.ElementCallees | src/tooling/intl/babelIntlPlugin.js:199-251 | an element's expressions invoke exactly its recorded helpers |
| CompilerProps.BodyCallees | src/tooling/intl/babelIntlPlugin.js:262-265 | the function body invokes exactly the message's recorded helpers |
| CompilerProps.FunctionCallees | src/tooling/intl/babelIntlPlugin.js:259-272 | the compiled function invokes exactly the helpers `Program` exit imports for it |
| CompilerProps.CallRefs | src/tooling/intl/babelIntlPlugin.js:139-193 | every parameter recorded for a call is read by it, and it reads only argument names of its node and enclosing plurals |
| CompilerProps.FormatterRefs | src/tooling/intl/babelIntlPlugin.js:152-154 | an argument or formatter call reads only its argument |
| CompilerProps.ChoiceRefs | src/tooling/intl/babelIntlPlugin.js:181-192 | a select or plural reads its own argument and its options' parameters, and nothing beyond their argument names and enclosing plurals |
| CompilerProps.FrameNamesPush | src/tooling/intl/babelIntlPlugin.js:156-157 | pushing a plural adds only its own argument to the names `#` can read |
| CompilerProps.OptionsRefs | src/tooling/intl/babelIntlPlugin.js:159-180 | the options read every parameter recorded for them and no name outside their arguments and enclosing plurals |
| CompilerProps.ValueRefs | src/tooling/intl/babelIntlPlugin.js:161-170 | an option's value reads its recorded parameters and no name outside its arguments and enclosing plurals |
| CompilerProps.TemplateRefs | src/tooling/intl/babelIntlPlugin.js:195-257 | a template reads its recorded parameters and no name outside its arguments and enclosing plurals |
| CompilerProps.ElementRefs | src/tooling/intl/babelIntlPlugin.js:209-248 | an element reads its recorded parameters and no name outside its arguments and enclosing plurals |
| CompilerProps.FunctionRefs | src/tooling/intl/babelIntlPlugin.js:259-272 | every parameter of the compiled function is read by its body, and the body reads only the message's argument names |
| CompilerProps.LoneArgumentUnbound | src/tooling/intl/babelIntlPlugin.js:262-271 | a message that is only `{x}` compiles to a function with no parameters whose body reads `x` |
| CompilerProps.BalancedPrefix | src/tooling/intl/babelIntlPlugin.js:198-255 | while alternating literals and placeholders, quasis and expressions keep count with each other |
| CompilerProps.TemplateBalanced | src/tooling/intl/babelIntlPlugin.js:195-257 | an alternating template has one more quasi than expressions, as a template literal needs |
| CompilerProps.AdjacentPlaceholdersUnbalanced | src/tooling/intl/babelIntlPlugin.js:209-214 | `{a}{b}` gets two quasis for two expressions |
| CompilerProps.LeadingNumberUnbalanced | src/tooling/intl/babelIntlPlugin.js:215-218 | a leading number placeholder gets no empty quasi before it |
| CompilerProps.ValueShape | src/tooling/intl/babelIntlPlugin.js:163-170 | a lone literal option is a string, a lone other element is its call, several elements are a template |
| CompilerProps.PoundBindsInnermost | src/tooling/intl/babelIntlPlugin.js:233-245 | `#` reads the innermost plural's argument, minus its offset when that is non-zero |
| CompilerProps.PoundOutsidePluralRejected | src/tooling/intl/babelIntlPlugin.js:233-235 | a `#` with no enclosing plural makes compilation throw |
| CompilerProps.LonePoundOptionRejected | src/tooling/intl/babelIntlPlugin.js:163-168 | an option that is only `#` makes compilation throw |
| CompilerShape.CallShape | src/tooling/intl/babelIntlPlugin.js:139-192 | a node compiles to a call of its helper whose first argument is its own argument name; a select or plural adds the offset only when it is non-zero and ends with an options object of one property per option |
| CompilerShape.FormatterCallShape | src/tooling/intl/babelIntlPlugin.js:146-155 | argument and formatter nodes compile to `helper(param)`, plus the style only when it is non-empty |
| CompilerShape.PluralCallShape | src/tooling/intl/babelIntlPlugin.js:141-192 | offset 0 gives `__plural(param, options)`, any other offset `__offsetPlural(param, offset, options)`, and exactly that helper is recorded |
| CompilerShape.BothPluralHelpersRecorded | src/tooling/intl/babelIntlPlugin.js:141-145 | one message can record both `__plural` and `__offsetPlural` |
| CompilerShape.OptionKeysInOrder | src/tooling/intl/babelIntlPlugin.js:159-180 | the options object's keys are the normalised selectors, in option order |
| CompilerShape.ExprsPerPlaceholder | src/tooling/intl/babelIntlPlugin.js:198-251 | a template has one expression per element that is neither a literal nor of unknown kind |
| CompilerShape.ExprsInSourceOrder | src/tooling/intl/babelIntlPlugin.js:198-251 | the call of the i-th such element is at that position among the template's expressions |
| Runtime.LocaleCell.constructor | src/server/view/modules/intl/index.js:13 | the current locale starts as `null` |
| Runtime.LocaleCell.SetCurrentLocale | src/server/view/modules/intl/index.js:15-17 | the locale becomes the value passed |
| Runtime.LocaleCell.GetCurrentLocale | src/server/view/modules/intl/index.js:14 | returns the locale last set |
| Runtime.Interpolate | src/server/view/modules/intl/index.js:40-42 | 0 stays 0, any other falsy value becomes `""`, and a truthy value is returned as is |
| Runtime.InterpolateSettles | src/server/view/modules/intl/index.js:40-42 | the result is truthy, 0 or `""`, and interpolating it again changes nothing |
| Runtime.Get | src/server/view/modules/intl/index.js:58 | `opts[key]` is the option, or `undefined` when there is none |
| Runtime.PropertyName | src/tooling/intl/babelIntlPlugin.js:173-177 | a numeric property key is looked up by its decimal text, a name key by the name |
| Runtime.LocalPluralKey | src/server/view/modules/intl/index.js:51 | every category is abbreviated to one character |
| Runtime.AbbreviationsAgree | src/server/view/modules/intl/index.js:51 | the runtime abbreviation of every category is the compile-time table's, so plural keys compiled by the plugin are found |
| Runtime.LocalPluralKeysDistinct | src/server/view/modules/intl/index.js:51 | different categories get different keys |
| Runtime.LocalPluralFor | src/server/view/modules/intl/index.js:47-52 | the key looked up is the compile-time abbreviation of the category the rules give |
| Runtime.Subtract | src/server/view/modules/intl/index.js:54 | `value - offset` on numbers, and the value itself for offset 0 |
| Runtime.Plural | src/server/view/modules/intl/index.js:44-59 | the exact option if truthy; otherwise a throw while the locale is `null`, else the category option if truthy, else `""` |
| Runtime.OffsetPlural | src/server/view/modules/intl/index.js:44-55 | the exact option for the raw value if truthy; otherwise a throw while the locale is `null`, else the option of the category of `value - offset` if truthy, else `""` |
| Runtime.PluralBeforeLocaleThrows | src/server/view/modules/intl/index.js:44-59 | before a locale is set, `__plural(5, { o: "x" })` throws: no exact option, so plural rules for `null` are requested |
| Runtime.CategoryKeyIsNotNumber | src/server/view/modules/intl/index.js:51-58 | a category key (`z o t f m h`) is never the decimal text of a number, so exact and category options never collide |
| Runtime.PluralTotal | src/server/view/modules/intl/index.js:53-59 | both plural helpers return a truthy option or `""` |
| Runtime.ZeroOffsetIsPlural | src/server/view/modules/intl/index.js:53-59 | with offset 0, `__offsetPlural` is `__plural` |
| Runtime.OffsetExactMatchUsesRawValue | src/server/view/modules/intl/index.js:54 | the exact match uses the raw value, not `value - offset` |
| Runtime.OffsetCategoryOfShiftedValue | src/server/view/modules/intl/index.js:54 | the category is computed on `value - offset`, so `n = 1` with offset 1 falls in the category of 0 |
| Runtime.Select | src/server/view/modules/intl/index.js:61-63 | the exact option if truthy, else the `other` option if truthy, else `""` |
| Runtime.PluralHasNoOtherFallback | src/server/view/modules/intl/index.js:57-59 | `__plural` has no fallback of its own: with options `o` and `h`, a value in another category renders `""`, not the `h` text |
| Runtime.ExactKeyMatchesNumber | src/server/view/modules/intl/index.js:58 | a compiled `=d` key is found exactly for the value `d` |
| Runtime.TenKeyIsOne | src/tooling/intl/babelIntlPlugin.js:127-128 | `=10` compiles to key `1`, which the value 1 finds and the value 10 does not |
| Runtime.OptionKeyedOne | src/server/view/modules/intl/index.js:57-59 | an option keyed `1` is chosen for the value 1 and, once a locale is set, not for the value 10 |
| Runtime.TenSelectsOne | src/server/view/modules/intl/index.js:57-59 | an `=10` option is chosen for 1 and not for 10 |
| Runtime.Number_ | src/server/view/modules/intl/index.js:65-67 | `__number` asks for a number formatter, and another number request shares its cache entry exactly when it has the same locale and format |
| Runtime.Date | src/server/view/modules/intl/index.js:69-71 | `__date` asks for a date formatter with format `short` by default, and another date request shares its cache entry exactly when it has the same locale and format after that default |
| Runtime.Time | src/server/view/modules/intl/index.js:73-75 | `__time` asks for a date-time formatter, with format `short` by default |
| Runtime.TimeFormatsAsDate | src/server/view/modules/intl/index.js:27-38 | `formatTime` builds exactly the formatter `formatDate` builds |
| Runtime.CacheKeyInjective | src/server/view/modules/intl/index.js:4 | two formatter requests get the same cache key exactly when they are equal |
| Runtime.CacheKeyIdentifies | src/server/view/modules/intl/index.js:4-8 | the requests sharing a request's cache entry are that request alone |
| Runtime.Memo.constructor | src/server/view/modules/intl/index.js:1-2 | a memoiser starts with an empty cache and no invocations |
| Runtime.Memo.Call | src/server/view/modules/intl/index.js:3-9 | a cached key returns the stored result without calling `fn`; a new key calls `fn` once and stores it, so `fn` runs at most once per key |
| Runtime.CachedFormatterIsFor | src/server/view/modules/intl/index.js:3-9 | a formatter cached under a request's key was built for that very request |
| Runtime.FormatNumber | src/server/view/modules/intl/index.js:19-25 | throws while the locale is `null`; otherwise returns the formatter built for exactly this locale and format, building it only for a request not seen before |
| Runtime.FormatDate | src/server/view/modules/intl/index.js:27-38 | throws while the locale is `null`; otherwise returns the date formatter built for exactly this locale and format, building it only for a request not seen before |
| Runtime.NumberFormatterReused | src/server/view/modules/intl/index.js:19-25 | two `__number` calls with the same locale and format get the same formatter, and at most one is built |
| Runtime.ValueNames | src/server/view/modules/intl/index.js:81-82 | the value names are sorted, and are exactly the keys of `values`, none without values |
| Runtime.ValueArgs | src/server/view/modules/intl/index.js:81-83 | argument `i` is the value of name `i` |
| Runtime.Format | src/server/view/modules/intl/index.js:77-85 | a string message is returned as is; a function is called with the values in the sorted order of their names; reading the values of missing options, or calling a non-function, throws |
| Runtime.ParamValue | src/server/view/modules/intl/index.js:80-84 | a parameter receives the argument at the position of its last occurrence, or `undefined` past the end of the arguments |
| Runtime.ParamValueAt | src/server/view/modules/intl/index.js:80-84 | in a list of distinct parameters, parameter `i` receives argument `i` |
| Runtime.SortedArgsBind | src/server/view/modules/intl/index.js:81-83 | the sorted names and the values taken in that order line up: each name is bound to its own value |
| Runtime.FormatBindsByName | src/server/view/modules/intl/index.js:77-85 | when the values have exactly the compiled parameters' names, each parameter receives the value of its own name |
| Runtime.ExtraValueMisbinds | src/server/view/modules/intl/index.js:80-84 | an extra value shifts the others: `{name}` formatted with `{age, name}` binds `name` to the age |
| TemplateTags.TagOpeningAt | src/tooling/partialHydration/addPartialHydrationServerInfoPreprocessor.ts:14 | a match at the position is `<template tag="X"` with a non-empty name free of `"`, so the name runs to the first `"` |
| TemplateTags.TagOpeningFound | src/tooling/partialHydration/addPartialHydrationServerInfoPreprocessor.ts:14 | every `<template tag="x"` with a non-empty name free of `"` matches where it stands, with name `x` |
| TemplateTags.TemplateElementOpenAt | src/tooling/partialHydration/removeTemplatePreprocessor.ts:6 | a match is that opening followed either by `>`, ending just after it, or by a space, one non-`>` character and `>`, ending just after the `>` |
| TemplateTags.TemplateElementOpenFound | src/tooling/partialHydration/removeTemplatePreprocessor.ts:6 | every `<template tag="x">` and `<template tag="x" c>` (with `c` not `>`) matches where it stands, up to and including its `>` |
| TemplateTags.Search | src/tooling/partialHydration/removeTemplatePreprocessor.ts:6 | the match position is the leftmost one |
| TemplateTags.FirstTagOpening | src/tooling/partialHydration/addPartialHydrationServerInfoPreprocessor.ts:14 | the first `<template tag="X"` in the text, or none if it has none |
| TemplateTags.FirstTemplateOpen | src/tooling/partialHydration/removeTemplatePreprocessor.ts:6 | the first full opening tag in the text, or none if it has none |
| TemplateTags.FirstTagOpeningFinds | src/tooling/partialHydration/addPartialHydrationServerInfoPreprocessor.ts:14 | a `<template tag="x"` anywhere in the text is found, at its position or an earlier one |
| TemplateTags.FirstTemplateOpenFinds | src/tooling/partialHydration/removeTemplatePreprocessor.ts:6 | a full opening tag anywhere in the text is found, at its position or an earlier one |
| TemplateTags.ReplaceMatch | src/tooling/partialHydration/addPartialHydrationServerInfoPreprocessor.ts:14-23 | the matched text is replaced by exactly the callback's text, and everything around it is kept |
| RemoveTemplate.StripOpening | src/tooling/partialHydration/removeTemplatePreprocessor.ts:6 | the first opening tag is cut out, or the content is kept when there is none |
| RemoveTemplate.Markup | src/tooling/partialHydration/removeTemplatePreprocessor.ts:4-11 | after the opening tag, the first `</template>` is removed, if any |
| RemoveTemplate.MarkupNeverLonger | src/tooling/partialHydration/removeTemplatePreprocessor.ts:5-7 | the code is never longer than the content, and strictly shorter when a marker was present |
| RemoveTemplate.MarkupWithoutMarkersIsIdentity | src/tooling/partialHydration/removeTemplatePreprocessor.ts:5-7 | content with neither marker comes back unchanged |
| RemoveTemplate.LaterClosingTagsKept | src/tooling/partialHydration/removeTemplatePreprocessor.ts:7 | only the first `</template>` goes; everything after it, other closing tags included, is kept |
| RemoveTemplate.WrapperRemoved | src/tooling/partialHydration/removeTemplatePreprocessor.ts:5-11 | `<template tag="X">inner</template>` becomes `inner` |
| ServerInfo.SvId | src/tooling/partialHydration/addPartialHydrationServerInfoPreprocessor.ts:9-11 | the id never ends in `.svelte`, and ends in `.js` when the path without the client directory ended in `.svelte` |
| ServerInfo.SvIdOfComponent | src/tooling/partialHydration/addPartialHydrationServerInfoPreprocessor.ts:9-11 | the component at `<client dir><path>.svelte` gets the id `<path>.js` |
| ServerInfo.SvIdKeepsOtherExtensions | src/tooling/partialHydration/addPartialHydrationServerInfoPreprocessor.ts:11 | a file not ending in `.svelte` keeps its extension |
| ServerInfo.HeadBlock | src/tooling/partialHydration/addPartialHydrationServerInfoPreprocessor.ts:14-22 | the block opens with the `<svelte:head>` line, preloads `/<locale><svId>`, then links it as `svComponent` with `data-sv-id`, closes with the `</svelte:head>` line right after that link, and ends with the opening of the tag element carrying `data-sv-id` |
| ServerInfo.ExportSvId | src/tooling/partialHydration/addPartialHydrationServerInfoPreprocessor.ts:26 | the statement is `export const svId = "...";`, with the id itself between the quotes when it has nothing to escape |
| ServerInfo.ExportSvIdInjective | src/tooling/partialHydration/addPartialHydrationServerInfoPreprocessor.ts:26 | two ids give the same export statement exactly when they are equal |
| ServerInfo.Markup | src/tooling/partialHydration/addPartialHydrationServerInfoPreprocessor.ts:7-39 | head block at the first `<template tag="X"`; first `</template>` becomes `</X>` or `</undefined>`; export after the first module script or in a prepended one; dependencies `[]` exactly when a tag matched |
| ServerInfo.WithExport | src/tooling/partialHydration/addPartialHydrationServerInfoPreprocessor.ts:26-34 | the export statement follows a module script tag in the result; with a module script it only inserts the statement, and without one the original code ends the result |
| ServerInfo.LiteralClosingTag | src/tooling/partialHydration/addPartialHydrationServerInfoPreprocessor.ts:24 | a tag name without `$`, `undefined` included, replaces the first `</template>` literally |
| ServerInfo.DollarInTagExpanded | src/tooling/partialHydration/addPartialHydrationServerInfoPreprocessor.ts:24 | the closing tag is a replacement string, so `$&` in a tag name expands to the matched text |

## Left out

- Parsing the message text with `intl-messageformat-parser` is not modelled: its AST is the input, and a text it rejects is the outcome `ParseFailed`.
- A `plural` element's `offset` is an integer. The parser gives 0 when there is none, and a `null` offset is not modelled.
- Babel's node builders, `path.unshiftContainer`, `this.file.metadata` and the `relative`/`dirname`/`join` path of the runtime module are left out. The import's source is the parameter `runtimePath`.
- `debug` and `console.error` logging is left out.
- Catalog file I/O (`readFileSync`, `readFile`, `writeFile`), the `chokidar` watcher and `setTimeout` are left out. A file's contents are a `StoredFile` parameter, the write's success is a boolean, and timers are explicit ids fired by `FireTimer`.
- `JSON.parse` of a catalog gives string entries only; other JSON values are not modelled.
- The JSON formatting of the written file is not modelled.
- Catalog.TranslationManager.Reload: the watcher's assignment to the undeclared `translations` (babelIntlPlugin.js:92) and the promise it stores are not modelled, only the rebinding of `messages`.
- Interleavings of reloads with pending writes are covered one step at a time, not as concurrent executions.
- `Intl.NumberFormat`, `Intl.DateTimeFormat` and `Intl.PluralRules` are foreign locale data. The `TypeError` their constructors throw for a `null` locale is modelled as `NullLocaleError`. The `RangeError` for an ill-formed locale tag is not modelled: any string is a valid locale. Plural rules are a function parameter from locale and value to a category. What the formatters print is not modelled, only the arguments they are requested with.
- The memoised `getPluralRules` is not routed through `Memo`: the plural rules are a pure function of the locale.
- Runtime.Subtract: JavaScript's conversion of a numeric string in `value - offset` (`"5" - 1` is 4) is not modelled; any string gives NaN.
- Numbers are integers. Fractions, infinities and negative zero are not modelled.
- Inherited `Object.prototype` properties are not modelled: every lookup sees only the keys an object actually defines.
- Runtime.Get: `opts["toString"]` is an inherited function in JavaScript (index.js:54,58,62); the model finds no option there.
- Catalog.Translation: `_("constructor")` finds the inherited `messages["constructor"]` in JavaScript, so the id is not seeded and the function is returned (babelIntlPlugin.js:97,107); the model treats the id as missing.
- Catalog.TranslationManager.Get: the same inherited entry is not modelled, so `_("constructor")` is seeded and schedules a write in the model only.
- IntlKeys.NormalizePluralKey: `PLURAL_ABBREVIATIONS["toString"]` is an inherited function in JavaScript (babelIntlPlugin.js:129); the model keeps such a key as its trimmed text.
- `sort()` compares UTF-16 code units, while the model compares characters. The two differ only for characters outside the Basic Multilingual Plane.
- TemplateTags.TemplateElementOpenAt: in `( [^>])?` the one character after the space is a UTF-16 code unit in the source, because the regular expression has no `u` flag (removeTemplatePreprocessor.ts:6). The model reads it as one character, so a character outside the Basic Multilingual Plane there (`<template tag="x" 😀>`) matches only in the model; in the source that opening tag is not matched.
- The options follow the parser's order. `Object.keys` puts integer-like selectors first; that order is not modelled.
- Two selectors that normalise to the same key both remain in the emitted property list. Which one a runtime lookup sees is not modelled.
- Evaluating the compiled arrow function is not modelled. `format` yields the parameters, the body and the positional arguments, and the binding lemmas state which value each name receives.
- The id passed to `_` is a string literal. `node.arguments[0].value` of other literals (numbers, regular expressions) is not modelled.
- `process.cwd()` joined with `src/client` is the parameter `clientDir` of the server-side preprocessor.
- Both preprocessors are `async`; their result is modelled as returned directly.

## Notes on the code as written

Three behaviours of the code are easy to misread. The model follows the code each time.

- **No fallback to `other` in `__plural`.** `__plural` (`index.js:57-59`) looks up only the exact value and the abbreviated category. An `other` key is never consulted, and `h` is found only when the category is `other` (`Runtime.PluralHasNoOtherFallback`).
- **Both plural helpers can be recorded.** The helper is chosen per plural node (`babelIntlPlugin.js:141-145`), so one message with a plural with an offset and one without records both `__plural` and `__offsetPlural` (`CompilerShape.BothPluralHelpersRecorded`).
- **An offset shifts the category, not the exact match.** `__offsetPlural` (`index.js:53-55`) takes the category of `value - offset`. For `count = 1` with offset 1 that is the category of 0, so the `one` option is chosen only if the locale's rules put 0 in `one` (`Runtime.OffsetCategoryOfShiftedValue`), while an `=1` option still matches the raw value (`Runtime.OffsetExactMatchUsesRawValue`).
