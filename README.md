# Typeahead trigger matching and the custome token node

A Dafny model of the logic inside a small rich-text-editor extension. When
the user types `{`, a suggestion menu opens, and the chosen item is inserted
as an inline token node. The model has four parts:

- `trigger_match.dfy` (module `TriggerMatcher`) models the trigger function
  returned by `useBasicTypeaheadTriggerMatch`. `Exec` models the regular
  expression the hook builds, as the ECMAScript engine runs it, for the text
  before the cursor. That means the leftmost start position, group 1's three
  alternatives in order, the greedy `{0,maxLength}` loop and backtracking
  into `$`. `TriggerMatch` then applies the `minLength` check and builds the
  `{leadOffset, matchingString, replaceableString}` record. Two partners are
  proved to agree with it on every input: a declarative description of an
  acceptable answer (`IsTriggerMatch`), and an independent matcher that
  scans backwards from the cursor (`ScanBackward`).
- `custome_node.dfy` (module `Nodes`) models the `CustomeNode` class. It has
  the node's own `value` and `moreDetails` plus the text-node fields it
  inherits, kept as plain fields. It also covers the constructor, `clone`,
  the setters that `importJSON` and `$createCustomeNode` call, the
  serialised form, the display text, the DOM export and import, and the
  entity flags.
- `custom_data_plugin.dfy` (module `CustomDataPlugin`) models the plugin. It
  covers `createFilteredOptions`, the menu options built from the filtered
  records, the plugin's trigger configuration (`{`, `minLength: 0`), and the
  node built when an option is selected. The filter has an `options.filter`
  loop that reuses one `"gi"` regular expression. The model keeps that
  regex's `lastIndex` as a loop variable. Each `test` starts its search at
  `lastIndex`. On success `lastIndex` moves to the end of the match; on
  failure it is reset to 0.
- `wrappers.dfy` holds the `Option` type used for `null` and `undefined`.

Main results:

- **Only one trigger can match.** Valid characters exclude the trigger, so
  `leadOffset` is always the index of the last trigger in the text.
- **A `(` before the trigger is consumed but not reported.** Group 1
  consumes it, and `leadOffset` skips past it (`ParenthesisSkipped`).
- **No whitespace is needed before the trigger.** Whatever text precedes it,
  the tail after the last trigger decides the result alone
  (`LastTriggerDecides`).
- **Long or invalid tails fail instead of being truncated.** A tail that is
  too long, or that holds an invalid character, gives `null`.
- **The query is safe to use as a literal search.** A `matchingString` never
  contains a regex syntax character (`QueryIsLiteral`), so the filter's
  regular expression is a case-insensitive literal search.

The pattern is anchored and never truncates:

- **Over-long run.** `{abcdef` with `maxLength = 3` gives `null`. `$`
  anchors the pattern at the end of the text, so the run is never cut
  short (`ExampleTooLong`).
- **Punctuation in the run.** `{abc.def` gives `null`. The `.` cannot be
  part of the run, and the run must reach the end of the text
  (`ExamplePunctuationInTail`).
- **Group 1.** Group 1 is `(^||\()`. It captures either nothing or a `(`,
  never whitespace.

## Model

| member | source | states |
|---|---|---|
| `TriggerMatcher.IsPunctuation` | src/hook/useBasicTypeaheadTriggerMatch.ts:4-5 | membership in `PUNCTUATION` with its regex escapes removed (the constant `Punctuation`); every such character is printable ASCII and none is a letter or a digit |
| `TriggerMatcher.IsWhitespace` | src/hook/useBasicTypeaheadTriggerMatch.ts:13 | the ECMAScript `\s` class; apart from the space, no printable ASCII character belongs to it |
| `TriggerMatcher.ValidChar` | src/hook/useBasicTypeaheadTriggerMatch.ts:13 | the class `[^T PUNCTUATION \s]`: every ASCII letter or digit other than the trigger is valid; the trigger, the space and `(` never are |
| `TriggerMatcher.ResolveOptions` | src/hook/useBasicTypeaheadTriggerMatch.ts:9 | an absent `minLength` becomes 1 and an absent `maxLength` becomes 75; a given value is kept |
| `TriggerMatcher.GreedyRun` | src/hook/useBasicTypeaheadTriggerMatch.ts:19-23 | the bounded greedy loop takes at most `maxLength` characters, all valid, and stops only at the bound, the end of the text or the first invalid character |
| `TriggerMatcher.BacktrackToEnd` | src/hook/useBasicTypeaheadTriggerMatch.ts:19-24 | giving characters back to reach `$` succeeds exactly when the greedy run already ends at the end of the text, so backtracking never shortens the run |
| `TriggerMatcher.MatchTriggerAt` | src/hook/useBasicTypeaheadTriggerMatch.ts:16-24 | `[T]((?:V){0,max})$` matches at `j` exactly when `j` holds the trigger, followed up to the end by at most `max` valid characters, and group 3 then runs to the end |
| `TriggerMatcher.ExecAt` | src/hook/useBasicTypeaheadTriggerMatch.ts:15-25 | a match starting at `i` has group 1 empty or `(`, its trigger right after group 1, and groups 2 and 3 as the suffixes from the trigger; a trigger at `i`, or `(` plus a trigger at `i + 1`, always matches |
| `TriggerMatcher.ExecFrom` | src/hook/useBasicTypeaheadTriggerMatch.ts:26 | `exec` returns the leftmost match, and it is well formed; it returns `null` exactly when no position can hold the trigger |
| `TriggerMatcher.Exec` | src/hook/useBasicTypeaheadTriggerMatch.ts:14-26 | `TypeaheadTriggerRegex.exec(text)` returns a well-formed match that starts at the leftmost position where the pattern matches, or `null` only when no position holds the trigger followed, up to the end, by a short enough valid run |
| `TriggerMatcher.TriggerMatch` | src/hook/useBasicTypeaheadTriggerMatch.ts:12-38 | every result is an acceptable answer: trigger at `leadOffset`, span to the end, a valid query within the limits; `TriggerMatchIff` adds the converse, so `Some(r)` is returned exactly when `r` is acceptable |
| `TriggerMatcher.ScanFrom` | src/hook/useBasicTypeaheadTriggerMatch.ts:13-38 | the backward scan returns only acceptable answers, and returns `null` only when none exists |
| `TriggerMatcher.TriggerAtUnique` | src/hook/useBasicTypeaheadTriggerMatch.ts:13-19 | at most one position of a text can start the trigger-plus-run suffix |
| `TriggerMatcher.IsTriggerMatchUnique` | src/hook/useBasicTypeaheadTriggerMatch.ts:13-35 | a text has at most one acceptable answer |
| `TriggerMatcher.RegexMatchReport` | src/hook/useBasicTypeaheadTriggerMatch.ts:27-36 | a regex match whose group 3 meets `minLength` yields an acceptable answer: the trigger at `match.index + match[1].length`, `replaceableString = match[2]` is the suffix from there and equals the trigger plus `matchingString = match[3]`, an all-valid run within the limits; `TriggerMatch`'s own ensures rests on it |
| `TriggerMatcher.TriggerMatchComplete` | src/hook/useBasicTypeaheadTriggerMatch.ts:26-38 | when an acceptable answer exists, the trigger function returns exactly it |
| `TriggerMatcher.TriggerMatchIff` | src/hook/useBasicTypeaheadTriggerMatch.ts:26-38 | the function returns `Some(r)` if and only if `r` is an acceptable answer |
| `TriggerMatcher.TriggerMatchNoneIff` | src/hook/useBasicTypeaheadTriggerMatch.ts:26-38 | the function returns `null` if and only if no acceptable answer exists; it is total and signals absence only by `null` |
| `TriggerMatcher.ScanBackwardAgrees` | src/hook/useBasicTypeaheadTriggerMatch.ts:12-38 | the regex-built matcher and the backward scan agree on every text, trigger and option set |
| `TriggerMatcher.NoTriggerNoMatch` | src/hook/useBasicTypeaheadTriggerMatch.ts:13-38 | a text without the trigger gives `null` |
| `TriggerMatcher.ResultShape` | src/hook/useBasicTypeaheadTriggerMatch.ts:4-38 | a result points at the last trigger of the text, its span is the suffix from there, its query has no whitespace, no `PUNCTUATION` character and no trigger, and its length is within the limits |
| `TriggerMatcher.LastTriggerDecides` | src/hook/useBasicTypeaheadTriggerMatch.ts:15-38 | for `prefix + trigger + tail` with no trigger in `tail`, whatever the prefix: the result is `(|prefix|, tail, trigger + tail)` when the tail is valid with length within the limits, and `null` otherwise; nothing is cut short |
| `TriggerMatcher.ParenthesisSkipped` | src/hook/useBasicTypeaheadTriggerMatch.ts:15-32 | for `prefix + "(" + trigger + run`, the regex match starts at the `(` with group 1 `"("`, and `leadOffset` is the trigger's index, one past it |
| `TriggerMatcher.DefaultLimits` | src/hook/useBasicTypeaheadTriggerMatch.ts:9 | the defaults are `minLength = 1` and `maxLength = 75` |
| `TriggerMatcher.BareTriggerRefusedByDefault` | src/hook/useBasicTypeaheadTriggerMatch.ts:9-38 | with the defaults, a bare trigger at the end of any text gives `null` |
| `TriggerMatcher.ExampleAfterSpace` | src/hook/useBasicTypeaheadTriggerMatch.ts:26-35 | `hello {abc` gives `(6, "abc", "{abc")` |
| `TriggerMatcher.ExampleMidWord` | src/hook/useBasicTypeaheadTriggerMatch.ts:15 | `abc{x` gives `(3, "x", "{x")`: the trigger needs nothing before it |
| `TriggerMatcher.ExampleParenthesis` | src/hook/useBasicTypeaheadTriggerMatch.ts:15-32 | `({abc` gives `(1, "abc", "{abc")` |
| `TriggerMatcher.ExampleTooLong` | src/hook/useBasicTypeaheadTriggerMatch.ts:21-24 | `{abcdef` with `maxLength = 3` gives `null`, not `abc` |
| `TriggerMatcher.ExamplePunctuationInTail` | src/hook/useBasicTypeaheadTriggerMatch.ts:4-24 | `{abc.def` gives `null` |
| `TriggerMatcher.ExampleMinLength` | src/hook/useBasicTypeaheadTriggerMatch.ts:30-38 | with `minLength = 2`, `{a` gives `null` and `{ab` gives `(0, "ab", "{ab")` |
| `Nodes.ToggleBit` | src/nodes/CustomeNode.ts:144 | `toggleDirectionless` flips the low bit of `detail` and keeps the others |
| `Nodes.CustomeNode.GetType` | src/nodes/CustomeNode.ts:44-46 | the node type is `"custome-node"` |
| `Nodes.CustomeNode.constructor` | src/nodes/CustomeNode.ts:72-81 | the node keeps `value`, `moreDetails` and `key`; its text is `text` when given and `value` otherwise; the base fields start at their defaults |
| `Nodes.CustomeNode.Clone` | src/nodes/CustomeNode.ts:49-56 | the clone is a new node with the same `value`, `moreDetails`, `text` and `key` |
| `Nodes.CustomeNode.SetTextContent` | src/nodes/CustomeNode.ts:64 | changes the text and nothing else |
| `Nodes.CustomeNode.SetFormat` | src/nodes/CustomeNode.ts:65 | changes the format and nothing else |
| `Nodes.CustomeNode.SetDetail` | src/nodes/CustomeNode.ts:66 | changes the detail and nothing else |
| `Nodes.CustomeNode.SetMode` | src/nodes/CustomeNode.ts:67 | changes the mode and nothing else |
| `Nodes.CustomeNode.SetStyle` | src/nodes/CustomeNode.ts:68 | changes the style and nothing else |
| `Nodes.CustomeNode.ToggleDirectionless` | src/nodes/CustomeNode.ts:144 | flips the directionless bit of `detail` and changes nothing else |
| `Nodes.CustomeNode.ImportJSON` | src/nodes/CustomeNode.ts:59-70 | builds a new node with `$createCustomeNode`, then overwrites text, format, detail, mode and style from the record |
| `Nodes.CustomeNode.ExportJSON` | src/nodes/CustomeNode.ts:84-91 | the record is the base text-node record with `type` set to `GetType()` and `version` to 1, plus the node's `value` and `moreDetails`; importing it restores every field except the key |
| `Nodes.CustomeNode.ExportDOM` | src/nodes/CustomeNode.ts:103-107 | a `span` whose only attribute is `data-lexical-custome="true"` and whose text content is the node's text; `importDOM` recognises it, with priority 1 |
| `Nodes.CustomeNode.IsTextEntity` | src/nodes/CustomeNode.ts:125-127 | the node is a text entity |
| `Nodes.CustomeNode.CanInsertTextBefore` | src/nodes/CustomeNode.ts:129-131 | text typed before the node is not inserted into it |
| `Nodes.CustomeNode.CanInsertTextAfter` | src/nodes/CustomeNode.ts:133-135 | text typed after the node is not inserted into it |
| `Nodes.CustomeNode.DisplayText` | src/nodes/CustomeNode.ts:95-99 | the displayed text is `value` between `{` and `}` |
| `Nodes.CreateCustomeNode` | src/nodes/CustomeNode.ts:139-146 | a new node with the given value and payload, its text the value, in normal mode, toggled directionless |
| `Nodes.ImportDOM` | src/nodes/CustomeNode.ts:111-122 | an element is converted, with priority 1, only if it is a `span` carrying `data-lexical-custome`; otherwise nothing is converted: other tags have no entry, and an unmarked `span` gives `null` |
| `Nodes.ConvertCustomeElement` | src/nodes/CustomeNode.ts:24-37 | an element with text content gives a new node whose value and text are that content, with no payload; no content gives `null` |
| `Nodes.DOMRoundTrip` | src/nodes/CustomeNode.ts:103-107 | an exported node's element is recognised on import; the rebuilt node's value and text are the old text, and its `moreDetails` is lost |
| `Nodes.CreatedStateShape` | src/nodes/CustomeNode.ts:139-146 | a created node's text equals its value; its mode is normal, its detail is the directionless bit, its format is 0 and its style is empty |
| `Nodes.ImportedStateFields` | src/nodes/CustomeNode.ts:59-70 | an imported node has the record's value, payload, text, format, detail, mode and style, overriding the creation defaults |
| `Nodes.ExportJSONExtendsBase` | src/nodes/CustomeNode.ts:84-91 | the serialised node is the base text-node record with `type = "custome-node"` (what `getType` returns) and `version = 1`, plus `value` and `moreDetails` |
| `Nodes.JSONRoundTrip` | src/nodes/CustomeNode.ts:59-92 | importing an exported node restores every field except the key |
| `Nodes.DisplayTextIgnoresText` | src/nodes/CustomeNode.ts:95-99 | two nodes with the same value display the same text, whatever their text |
| `Nodes.EntityFlags` | src/nodes/CustomeNode.ts:125-135 | the node is a text entity that refuses typed text before and after it |
| `CustomDataPlugin.Take` | src/plugins/CustomDataPlguin.tsx:137-141 | `slice(0, n)`: the first `min(n, length)` elements, in order |
| `CustomDataPlugin.Canonicalize` | src/plugins/CustomDataPlguin.tsx:140 | the `i` flag's case canonicalisation on ASCII: a lower-case letter becomes the matching upper-case letter, every other character is kept, and no result is lower-case |
| `CustomDataPlugin.FilterShared` | src/plugins/CustomDataPlguin.tsx:141 | the `filter` pass with `lastIndex` carried from one key to the next; it keeps at most as many records as it is given, all of them from the input. `FilterSharedSound` adds the order and the query |
| `CustomDataPlugin.FilterContaining` | src/plugins/CustomDataPlguin.tsx:141 | the filter with each key tested from its start; it keeps only input records whose key contains the query. `FilterContainingExact` pins order and multiplicities |
| `CustomDataPlugin.SearchFrom` | src/plugins/CustomDataPlguin.tsx:140-141 | finds the first case-insensitive occurrence of the query at or after the start position, or reports that there is none |
| `CustomDataPlugin.RegexTest` | src/plugins/CustomDataPlguin.tsx:140-141 | `test` succeeds exactly when the query occurs at or after `lastIndex`. Then `lastIndex` becomes the end of the first such occurrence, since none starts earlier; on failure it becomes 0 |
| `CustomDataPlugin.FilterSharedSound` | src/plugins/CustomDataPlguin.tsx:141 | the shared-regex `filter` pass keeps an order-preserving subsequence of the records, each with a key that contains the query |
| `CustomDataPlugin.FilterContainingExact` | src/plugins/CustomDataPlguin.tsx:141 | the corrected filter keeps, in order, exactly the records whose key contains the query: it is a subsequence of the input, and each such record appears as often as in the input while every other record is absent |
| `CustomDataPlugin.EmptyQueryKeepsAll` | src/plugins/CustomDataPlguin.tsx:140-141 | an empty query keeps every record, since `lastIndex` stays at 0 |
| `CustomDataPlugin.SharedLastIndexDropsMatch` | src/plugins/CustomDataPlguin.tsx:23-141 | with the sample data and query `domain`, only `google_domain` is kept, although `zomato_domain` contains `domain` |
| `CustomDataPlugin.CorrectedKeepsBoth` | src/plugins/CustomDataPlguin.tsx:23-141 | with the sample data and query `domain`, the corrected filter keeps both records |
| `CustomDataPlugin.SharedFilterPass` | src/plugins/CustomDataPlguin.tsx:140-141 | the `filter` loop over one global regex builds exactly the shared-`lastIndex` pass over the records |
| `CustomDataPlugin.ContainingFilterPass` | src/plugins/CustomDataPlguin.tsx:141 | the same loop with every key tested from its start builds exactly the records whose key contains the query |
| `CustomDataPlugin.CreateFilteredOptions` | src/plugins/CustomDataPlguin.tsx:132-142 | no query gives the first `min(10, n)` records in order. Otherwise the result is the first ten survivors of the shared-regex pass. Either way it has at most 10 records, is an order-preserving subsequence of the input, and every key in it contains the query |
| `CustomDataPlugin.CreateFilteredOptionsCorrected` | src/plugins/CustomDataPlguin.tsx:132-142 | the same loop with each key tested from its start: the first ten records whose key contains the query, in order |
| `CustomDataPlugin.ToTypeaheadOptions` | src/plugins/CustomDataPlguin.tsx:144-150 | one option per record, in order, each keeping the record's key and metadata |
| `CustomDataPlugin.CheckForTriggerMatch` | src/plugins/CustomDataPlguin.tsx:96-98 | the plugin's matcher, `{` with `minLength: 0`: every result is an acceptable answer under the limits 0 and 75 |
| `CustomDataPlugin.CheckForCustomDataTriggerMatch` | src/plugins/CustomDataPlguin.tsx:96-109 | returns the `{` matcher's result with `minLength: 0` unchanged, and switches suggestions on when there is a match |
| `CustomDataPlugin.PluginLimits` | src/plugins/CustomDataPlguin.tsx:96-98 | the plugin's limits are 0 and the default 75 |
| `CustomDataPlugin.BareBraceMatches` | src/plugins/CustomDataPlguin.tsx:96-109 | a bare `{` at the end of any text matches with an empty query and turns the suggestions on |
| `CustomDataPlugin.QueryIsLiteral` | src/plugins/CustomDataPlguin.tsx:96-140 | every query the plugin's matcher produces is free of regex syntax characters, so the filter's requirement holds |
| `CustomDataPlugin.SelectOption` | src/plugins/CustomDataPlguin.tsx:117-121 | the new node has value = the option's key and `moreDetails` = its metadata, so its text is the key and it displays `{key}` |

## Left out

- The React machinery is not modelled: `useState`, `useCallback`,
  `useMemo`, `createPortal`, `SuggestionItem`, `renderSuggestionsMenu`,
  class names and event handlers. They render the UI and hold no logic.
  The suggestions switch of `checkForCustomDataTriggerMatch` is passed in
  and returned as a value.
- `src/App.tsx` is not part of this model. It only wires the editor
  together.
- Host framework internals are not modelled: `super.createDOM` (its tag and
  the class name), `$applyNodeReplacement` (treated as the identity),
  `getWritable`'s copy-on-write, node key assignment, the undo history, and
  `replace`, `select`, `editor.update` and `closeMenu` in `onSelectOption`.
  A key the constructor does not receive is `None`: the editor would assign
  one. `$isCustomeNode` is an `instanceof` check; here every node is a
  `CustomeNode`.
- `Nodes.CustomeNode.Clone`: the base fields are reset to the constructor's
  defaults, as the source's `clone` leaves them. Any copying the host does
  after a clone is not modelled.
- `Nodes.ToggleBit`: the directionless flag is assumed to be the bit with value 1
  (the lowest bit) of `detail`. That constant belongs to the host framework.
- `moreDetails` is typed as any object in the source. It is modelled as the
  one shape the plugin stores: the `{id, name, url}` metadata record.
- `setFormat` and `setDetail` also accept format names. Only numbers are
  modelled, because `importJSON` passes numbers.
- Strings are sequences of Unicode characters. ECMAScript counts UTF-16 code
  units, so `maxLength` and `leadOffset` differ for characters outside the
  Basic Multilingual Plane.
- `CustomDataPlugin.Canonicalize`: ignore-case matching folds only ASCII
  letters. ECMAScript's non-ASCII case mapping is not modelled.
- `TriggerMatcher.TriggerMatch`: the trigger is one character other than
  `]`, `^` and `\`. Those three, empty triggers and multi-character triggers
  change the meaning of the source's pattern. `minLength` and `maxLength`
  are naturals. The `editor` argument the trigger function receives is
  unused by the source and is not modelled.
- `CustomDataPlugin.CreateFilteredOptions`: the query is a string or
  `null`. A `RegExp` query, and a string with regex syntax, are excluded by
  the requirement `IsLiteralPattern`. The plugin's own queries always meet
  that requirement (`QueryIsLiteral`), so no general regex engine is
  modelled.
- `exportDOM` assigns an attribute and the text content to a fresh element.
  The model builds the element record directly, because no other code holds
  the element.

## Findings

| source | as written | input that shows it | evidently intended | confidence | as-written member | corrected member |
|---|---|---|---|---|---|---|
| src/plugins/CustomDataPlguin.tsx:140-141 | one `"gi"` RegExp tests every key in `filter`, so `lastIndex` carries from one key to the next | the sample data with query `domain` (typed `{domain`): `google_domain` matches at 7 and leaves `lastIndex` at 13; `zomato_domain` is then searched from 13, fails, and is dropped | every record whose key contains the query is offered | high; not executed | `CustomDataPlugin.SharedLastIndexDropsMatch` | `CustomDataPlugin.CreateFilteredOptionsCorrected` |
