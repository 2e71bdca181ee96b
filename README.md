# Formula input: a verified model

This project models the formula editor of `src/FormulaInput.tsx`, a React component for typing
arithmetic formulas. The user types into a text box. Numbers, operators and free text become
tokens in a shared formula store. Suggestions fetched for the typed text can be picked as
variables, and the formula is turned into an expression string for evaluation.

The model is split into one Dafny module per concern:

- `Wrappers` (`wrappers.dfy`): an `Option` type.
- `Strings` (`strings.dfy`): the JavaScript string built-ins the component relies on.
  - `trim` and the leading-space skip of `parseFloat`, over the JavaScript white-space set.
  - `toLowerCase` (ASCII letters only) and `includes`.
  - `join`, and a `split` used to state that the expression string can be read back.
- `Numbers` (`numbers.dfy`): numbers and how they are read and printed.
  - Numbers are exact decimals (`Decimal`: a mantissa and a count of fraction digits), kept in a canonical form.
  - `ParseFloat` follows JavaScript's `parseFloat`. It skips leading white space, reads the longest numeric prefix (sign, digits, point, fraction, exponent) and gives `None` where JavaScript gives `NaN`.
  - `NumberText` prints a number in plain decimal notation, as `String(x)` does. It is proved to read back through `ParseFloat`.
- `Tokens` (`tokens.dfy`): tokens and how pending text becomes a token.
  - `FormulaItem` and its four kinds, and the `OPERATORS` list.
  - `WellFormed`: the shape of every token the editor creates.
  - The classification rules that turn pending text into a token: `EnterItem` for Enter, `FlushItem` for an operator key.
- `Store` (`store.dfy`): the formula store as a class, `FormulaStore`, whose field `formula` the four actions replace.
- `Suggestions` (`suggestions.dfy`): suggestions.
  - The case-insensitive name filter of `fetchSuggestions`, with the HTTP response as a parameter.
  - The cyclic cursor of ArrowUp and ArrowDown.
- `Expression` (`expression.dfy`): the `map(...).join(" ")` step of `evaluateFormula`.
- `Editor` (`editor.dfy`): the component.
  - `EditorState` is its state as a value: `inputValue`, `showSuggestions`, `selectedSuggestion` and the formula. One pure transition function per event handler acts on it.
  - The class `FormulaInput` holds the same state in fields and a reference to the store. Each method performs one handler and is proved to produce exactly the state its transition function gives.

A key press ends either normally, recording whether `preventDefault` was called, or by throwing.
The source can throw on Enter while the suggestion list is open: if the highlight is off the list,
`suggestions[selectedSuggestion]` is `undefined` and `selectSuggestion` reads a field of it.

The highlight can be off the list: ArrowUp on an open but still empty list (the query is loading)
sets it to -1. `Editor.StaleHighlightThrows` walks through that sequence of events. The model keeps
this behaviour as written.

## Model

| member | source | states |
|---|---|---|
| Strings.Trim | src/FormulaInput.tsx:96 | `value.trim()` is empty exactly when the text is all white space; otherwise it starts and ends with a character that is not white space |
| Strings.TrimKeepsMiddle | src/FormulaInput.tsx:115 | what `trim` keeps is an unchanged slice of the text, starting right after the leading white space |
| Strings.TrimDropsWhiteSpace | src/FormulaInput.tsx:115 | everything `trim` drops, before and after the slice it keeps, is white space |
| Strings.TrimmedText | src/FormulaInput.tsx:114 | text with no white space at either end is its own trim |
| Strings.TrimIdempotent | src/FormulaInput.tsx:117 | trimming twice gives the same text as trimming once |
| Strings.TrimStart | src/FormulaInput.tsx:111 | the text `parseFloat` reads from is a suffix of its input; everything dropped is white space, and the suffix does not start with white space |
| Strings.Includes | src/FormulaInput.tsx:54 | `includes` holds exactly when the needle occurs at some position of the text |
| Strings.ToLower | src/FormulaInput.tsx:54 | `toLowerCase` keeps the length, leaves no ASCII upper-case letter, keeps every other character, and turns each upper-case letter into its lower-case partner 32 code points on |
| Strings.ToLowerIdempotent | src/FormulaInput.tsx:54 | lower-casing text that is already lower-cased changes nothing |
| Strings.Join | src/FormulaInput.tsx:240 | `join`: no contract of its own; `Strings.SplitJoin` states that splitting at the separator gives the parts back |
| Strings.SplitJoin | src/FormulaInput.tsx:240 | splitting at the separator what `join` glued together gives the parts back, when no part holds the separator |
| Numbers.IntText | src/FormulaInput.tsx:240 | a whole number prints as a non-empty digit string with no leading zero whose value is the number |
| Numbers.Normalize | src/FormulaInput.tsx:111 | every number has one canonical form with the same value |
| Numbers.ParseFloat | src/FormulaInput.tsx:111-112 | `parseFloat` yields a number exactly when the text after its leading white space starts with a numeric literal; the number is canonical |
| Numbers.NumberText | src/FormulaInput.tsx:240 | a number prints as a non-empty text of digits, sign and point only |
| Numbers.NumberTextRoundTrip | src/FormulaInput.tsx:240 | `parseFloat` reads the printed form of a number back as that number |
| Numbers.NumberTextOfWhole | src/FormulaInput.tsx:240 | a whole number prints as its digits |
| Numbers.ParseFloatWholeNumber | src/FormulaInput.tsx:111 | a run of digits not followed by a point, an exponent or another digit parses to its value, whatever follows |
| Numbers.ParseFloatReadsPrefix | src/FormulaInput.tsx:111-113 | `parseFloat("3abc")` is 3: only the numeric prefix counts |
| Numbers.SymbolIsNotANumber | src/FormulaInput.tsx:111-114 | a lone sign, point or operator symbol is not a number |
| Numbers.ShiftValue | src/FormulaInput.tsx:111 | the number a literal's digits, fraction length and exponent denote is its digits times ten to the exponent, divided by ten per fraction digit |
| Numbers.ParseFloatLiteral | src/FormulaInput.tsx:111 | digits, an optional fraction and a tail that does not continue them parse to the digits scaled by the tail's exponent (0 without one), whatever else the tail holds |
| Numbers.ParseFloatExponent | src/FormulaInput.tsx:111 | a literal with an `e`/`E` exponent and an optional exponent sign parses to its digits times ten to the signed exponent, divided by ten per fraction digit |
| Numbers.ParseFloatFraction | src/FormulaInput.tsx:111 | a literal with a fraction followed by text that is not a digit, point or exponent parses to its digits divided by ten per fraction digit |
| Numbers.ParseFloatNegativeExponent | src/FormulaInput.tsx:111 | `parseFloat("25e-3")` is 0.025 |
| Numbers.ParseFloatFractionPrefix | src/FormulaInput.tsx:111-113 | `parseFloat("1.5abc")` is 1.5 |
| Numbers.WordIsNotANumber | src/FormulaInput.tsx:111-117 | a word such as "abc" is not a number |
| Tokens.OperatorsAreSymbols | src/FormulaInput.tsx:69 | a text is in `OPERATORS` exactly when it is one of the seven one-character symbols |
| Tokens.WellFormed | src/FormulaInput.tsx:113-117 | the shape of the tokens the `addItem` calls at lines 113-117, 164-170 and 182-187 build; no contract of its own; `Tokens.EnterItem`, `Tokens.FlushItem` and `Editor.EventsPreserveWellFormed` state that every token created has it and every event keeps it |
| Tokens.OperatorSymbol | src/FormulaInput.tsx:111-115 | an operator symbol is its own trim and is not a number |
| Tokens.EnterItem | src/FormulaInput.tsx:110-118 | the token Enter commits for non-blank text is well formed |
| Tokens.EnterClassification | src/FormulaInput.tsx:111-118 | Enter makes a Number exactly when `parseFloat` succeeds, otherwise an Operator exactly when the trimmed text is an operator, otherwise Text; a Number holds the parsed value, the others the trimmed text |
| Tokens.EnterOperatorText | src/FormulaInput.tsx:114-115 | an operator typed as text and committed with Enter becomes that Operator |
| Tokens.EnterNumericPrefix | src/FormulaInput.tsx:111-113 | Enter on "3abc" commits the Number 3 |
| Tokens.FlushItem | src/FormulaInput.tsx:160-167 | the token an operator key commits for non-blank text is well formed and never an Operator |
| Tokens.FlushItems | src/FormulaInput.tsx:160-169 | an operator key commits nothing before its symbol for blank text and exactly one well-formed non-operator token otherwise |
| Tokens.FlushAgreesWithEnter | src/FormulaInput.tsx:110-118 | an operator key commits the same token Enter would, except that operator text stays Text |
| Tokens.AppendWellFormed | src/FormulaInput.tsx:28 | appending well-formed tokens to a well-formed formula keeps it well formed |
| Store.WithoutIndex | src/FormulaInput.tsx:38 | filtering out one position shortens the list by one when the position exists, and not otherwise |
| Store.WithoutIndexSplices | src/FormulaInput.tsx:36-40 | filtering out position `i` removes exactly element `i` and keeps the rest in order; a position the list lacks changes nothing |
| Store.AddThenRemoveLast | src/FormulaInput.tsx:26-40 | removing the last position after an append gives the formula back |
| Store.FormulaStore.constructor | src/FormulaInput.tsx:25 | the store starts with an empty formula |
| Store.FormulaStore.AddItem | src/FormulaInput.tsx:26-29 | the new formula is the old one with the item appended |
| Store.FormulaStore.UpdateItem | src/FormulaInput.tsx:30-35 | the new formula is the old one with slot `index` replaced; length and other slots are kept |
| Store.FormulaStore.RemoveItem | src/FormulaInput.tsx:36-40 | the item at `index` is removed and the rest keep their order; an index out of range changes nothing |
| Store.FormulaStore.ClearFormula | src/FormulaInput.tsx:41 | the formula becomes empty |
| Store.AddThenRemove | src/FormulaInput.tsx:26-40 | `removeItem(length - 1)` after `addItem` restores the store's formula |
| Suggestions.Filter | src/FormulaInput.tsx:53 | `filter` keeps exactly the entries its test accepts, and never lengthens the list |
| Suggestions.FilterAppend | src/FormulaInput.tsx:53 | `filter` keeps the order of the list |
| Suggestions.Matches | src/FormulaInput.tsx:54 | the filter's test; no contract of its own; `Suggestions.FilterByName` states which entries it keeps |
| Suggestions.FilterByName | src/FormulaInput.tsx:53-55 | an entry survives the name filter exactly when it is in the response and its lower-cased name contains the lower-cased query |
| Suggestions.FilterByNameAppend | src/FormulaInput.tsx:53-55 | the name filter keeps the order of the response |
| Suggestions.FilterByEmptyQuery | src/FormulaInput.tsx:53-55 | an empty query keeps every entry |
| Suggestions.FilterIgnoresQueryCase | src/FormulaInput.tsx:54 | lower-casing the query first does not change the result |
| Suggestions.FetchSuggestions | src/FormulaInput.tsx:44-60 | a failed request gives the empty list; a response gives exactly its entries that match the query |
| Suggestions.CursorUp | src/FormulaInput.tsx:126-128 | ArrowUp's update of the highlight; no contract of its own; `Suggestions.CursorStaysOnList` and `Suggestions.CursorUpDownInverse` state its behaviour |
| Suggestions.CursorDown | src/FormulaInput.tsx:135-137 | ArrowDown's update of the highlight; no contract of its own; `Suggestions.CursorStaysOnList`, `Suggestions.CursorUpDownInverse` and `Suggestions.CursorDownCycles` state its behaviour |
| Suggestions.CursorStaysOnList | src/FormulaInput.tsx:124-140 | on a non-empty list ArrowUp and ArrowDown keep the highlight on the list, wrapping from the first entry to the last and back |
| Suggestions.CursorUpDownInverse | src/FormulaInput.tsx:124-140 | ArrowDown undoes ArrowUp and ArrowUp undoes ArrowDown |
| Suggestions.CursorDownStep | src/FormulaInput.tsx:133-137 | one ArrowDown adds one to the position, modulo the length |
| Suggestions.CursorDownCycles | src/FormulaInput.tsx:133-137 | `k` presses of ArrowDown move the highlight `k` places, modulo the length |
| Expression.Words | src/FormulaInput.tsx:233-239 | the map gives one value per token, in order |
| Expression.Contribution | src/FormulaInput.tsx:234-239 | the map's callback; no contract of its own; `Expression.WordOf` states what each kind of token contributes |
| Expression.Serialize | src/FormulaInput.tsx:233-240 | `formula.map(...).join(" ")`; no contract of its own; `Expression.SerializeSplits`, `Expression.SerializeReadsBack` and `Expression.SerializeEmpty` state what the text holds |
| Expression.WordOf | src/FormulaInput.tsx:234-239 | an Operator contributes its symbol; a Number contributes text that `parseFloat` reads back as the number; a Variable or Text token contributes "0"; no contribution is empty or holds a space |
| Expression.SerializeSplits | src/FormulaInput.tsx:233-240 | the expression splits at its spaces back into the tokens' contributions |
| Expression.SerializeReadsBack | src/FormulaInput.tsx:233-240 | the expression has one word per token: an Operator's symbol, a Number's value in text `parseFloat` reads back, or "0" |
| Expression.SerializeEmpty | src/FormulaInput.tsx:233-240 | the expression is empty exactly when the formula is |
| Expression.SerializeExample | src/FormulaInput.tsx:233-240 | the formula 2 + 3 * 4 gives the expression "2 + 3 * 4" |
| Editor.InputChanged | src/FormulaInput.tsx:91-102 | `handleInputChange` on the state value; no contract of its own; `Editor.InputChangeVisibility` states its behaviour |
| Editor.SuggestionSelected | src/FormulaInput.tsx:181-190 | `selectSuggestion` on the state value; no contract of its own; `Editor.EnterPicksHighlighted` and `Editor.EventsPreserveWellFormed` state its behaviour |
| Editor.Cleared | src/FormulaInput.tsx:322 | the Clear button on the state value; no contract of its own; `Editor.EventsPreserveWellFormed` states it keeps the formula well formed |
| Editor.EnterPressed | src/FormulaInput.tsx:106-122 | the "Enter" case; no contract of its own; `Editor.EnterCommitsPendingText`, `Editor.EnterOnBlankChangesNothing` and `Editor.EnterPicksHighlighted` state its behaviour |
| Editor.ArrowPressed | src/FormulaInput.tsx:124-140 | the arrow cases; no contract of its own; `Editor.NavigationStaysOnList` and `Editor.UpThenDownRestores` state its behaviour |
| Editor.BackspacePressed | src/FormulaInput.tsx:146-151 | the "Backspace" case; no contract of its own; `Editor.BackspacePopsOnEmptyInput` states its behaviour |
| Editor.OtherPressed | src/FormulaInput.tsx:153-177 | the operator cases and the default case; no contract of its own; `Editor.OperatorKeyFlushesThenAppends`, `Editor.OperatorKeyFlushedItem` and `Editor.OtherKeysChangeNothing` state its behaviour |
| Editor.KeyPressed | src/FormulaInput.tsx:104-179 | `handleKeyDown`; no contract of its own; `Editor.PreventsDefaultExactly`, `Editor.OnlyStaleEnterThrows` and `Editor.EventsPreserveWellFormed` state its behaviour over every key |
| Editor.KeyOf | src/FormulaInput.tsx:105-176 | the switch picks the Enter, ArrowUp, ArrowDown, Escape or Backspace case exactly for that key name, and any other name, operators included, falls to the operator or default cases unchanged |
| Editor.InputChangeVisibility | src/FormulaInput.tsx:93-101 | typing opens the list and highlights the first entry exactly when the text is not blank; otherwise the list closes and the highlight stays; the formula is untouched |
| Editor.EnterCommitsPendingText | src/FormulaInput.tsx:110-121 | with the list closed or empty, Enter on non-blank text appends exactly the classified token after the existing ones, empties the box and closes the list, keeping the highlight, without `preventDefault` |
| Editor.EnterOnBlankChangesNothing | src/FormulaInput.tsx:106-122 | with the list closed or empty, Enter on blank text changes nothing |
| Editor.EnterPicksHighlighted | src/FormulaInput.tsx:107-109 | with the list open and non-empty, Enter appends the highlighted suggestion as a Variable when the highlight is on the list, keeping the highlight, and throws with nothing changed exactly when it is not |
| Editor.StaleHighlightThrows | src/FormulaInput.tsx:124-128 | typing, then ArrowUp on the still-empty list, sets the highlight to -1; Enter once entries arrive then throws |
| Editor.NavigationStaysOnList | src/FormulaInput.tsx:124-140 | the arrow keys move the highlight only while the list is open, keep it on a non-empty list, never touch the text or formula, and call `preventDefault` exactly when the list is open |
| Editor.UpThenDownRestores | src/FormulaInput.tsx:124-140 | ArrowUp then ArrowDown on an open list restore the state |
| Editor.BackspacePopsOnEmptyInput | src/FormulaInput.tsx:146-151 | Backspace removes the last token exactly when the box is empty and the formula is not, keeping the text, the list and the highlight; otherwise nothing changes |
| Editor.OperatorKeyFlushesThenAppends | src/FormulaInput.tsx:153-174 | an operator key appends one token for blank text and two otherwise; the existing tokens stay and the last is the Operator for the key; it empties the box, closes the list, keeps the highlight and calls `preventDefault` |
| Editor.OperatorKeyFlushedItem | src/FormulaInput.tsx:160-167 | for non-blank text the token before the operator is the flushed Number or Text, never an Operator |
| Editor.BackspaceUndoesOperator | src/FormulaInput.tsx:146-174 | Backspace right after an operator key removes just the operator |
| Editor.OtherKeysChangeNothing | src/FormulaInput.tsx:176-177 | a key name the switch has no case for, neither a named key nor an operator, changes nothing and does not call `preventDefault` |
| Editor.EscapeClosesList | src/FormulaInput.tsx:142-144 | Escape closes the list and changes nothing else, without `preventDefault` |
| Editor.PreventsDefaultExactly | src/FormulaInput.tsx:104-179 | `preventDefault` is called exactly when the key picked a suggestion, moved the open list's highlight, removed a token or was an operator |
| Editor.OnlyStaleEnterThrows | src/FormulaInput.tsx:107-108 | the handler throws only on Enter with the list open and non-empty and the highlight off it |
| Editor.EnterPreservesWellFormed | src/FormulaInput.tsx:106-122 | Enter keeps every token well formed |
| Editor.BackspacePreservesWellFormed | src/FormulaInput.tsx:146-151 | Backspace keeps every token well formed |
| Editor.OtherPreservesWellFormed | src/FormulaInput.tsx:153-177 | operator keys and other keys keep every token well formed |
| Editor.EventsPreserveWellFormed | src/FormulaInput.tsx:181-187 | every event keeps every token well formed; in particular only Variables ever carry an id and a name |
| Editor.TypeNumberThenOperator | src/FormulaInput.tsx:153-174 | typing "3" and pressing "+" commits the Number 3 then the Operator "+" and empties the box |
| Editor.FormulaInput.constructor | src/FormulaInput.tsx:72-75 | the component starts with an empty box, the list closed and the first entry highlighted |
| Editor.FormulaInput.HandleInputChange | src/FormulaInput.tsx:91-102 | the new state is the input-change transition of the old one |
| Editor.FormulaInput.SelectSuggestion | src/FormulaInput.tsx:181-190 | the store gains the Variable, the box empties and the list closes, as the selection transition says |
| Editor.FormulaInput.HandleEnter | src/FormulaInput.tsx:106-122 | the new state and outcome are those of the Enter transition |
| Editor.FormulaInput.HandleArrow | src/FormulaInput.tsx:124-140 | the new state and outcome are those of the arrow transition |
| Editor.FormulaInput.HandleBackspace | src/FormulaInput.tsx:146-151 | the new state and outcome are those of the Backspace transition |
| Editor.FormulaInput.FlushPending | src/FormulaInput.tsx:160-169 | the store gains exactly the flushed tokens |
| Editor.FormulaInput.HandleOperator | src/FormulaInput.tsx:153-174 | the new state and outcome are those of the operator-key transition |
| Editor.FormulaInput.HandleOther | src/FormulaInput.tsx:153-177 | the new state and outcome are those of the operator or default case |
| Editor.FormulaInput.HandleKeyDown | src/FormulaInput.tsx:104-179 | the new state and outcome are those `KeyPressed` gives for the key |
| Editor.FormulaInput.HandleKeyEvent | src/FormulaInput.tsx:104-105 | for a key name, the new state and outcome are those of the case the switch selects for it |
| Editor.FormulaInput.ClickClear | src/FormulaInput.tsx:322 | the Clear button empties the formula and changes nothing else |

## Left out

- `eval` of the expression string and its `"Error"` fallback (line 242) are not modelled. They call JavaScript's dynamic evaluator with floating-point semantics, and there `^` means bitwise XOR. Only the map/join that builds the string is modelled.
- Numbers.ParseFloat: models exact decimals, not IEEE doubles.
  - Rounding of long inputs, overflow to `Infinity` and the literal `"Infinity"` are left out.
  - Every numeric prefix that `parseFloat` accepts yields its exact value.
- Numbers.NumberText: prints every number in plain decimal notation. JavaScript switches to exponent notation at 1e21 and above and below 1e-6; that switch is not modelled.
- Strings.ToLower: folds only ASCII letters. Unicode case mapping is left out.
- Tokens.FormulaItem: the token's `type` string is the four-valued `Kind`.
  - The source only ever stores the four `TOKEN_TYPES` strings.
  - The serialiser's "any other type" branch is therefore the Text case.
- Editor.Key: keys are an enumeration of the five named keys plus `Other(name)`, which carries any other `e.key` string. `Editor.KeyOf` maps an `e.key` string to the case the switch selects. The operator cases are the `Other` keys whose name is one of `OPERATORS`.
- Store.FormulaStore.UpdateItem: requires an index inside the formula. JavaScript would grow the array with holes for an index past the end; nothing in the component calls `updateItem`.
- `updateItem` and `clearFormula` are modelled on the store but are never called by the component. The Clear button sets the store's state directly, which is `ClickClear`.
- The HTTP request of `fetchSuggestions` (lines 44-52, 56-59) is replaced by a parameter: the response, or `None` for a failed request.
- react-query's caching, its keying by the typed text, and the loading flag (lines 85-89) are left out.
  - The key handler takes the current suggestion list as a parameter.
- The click-outside listener, the token dropdown and `toggleDropdown` (lines 196-229) are DOM event plumbing and are not modelled. So are the input focus call (lines 191-193) and the unused cursor position (lines 73, 94).
- The JSX rendering (lines 248-331) and `src/App.tsx` are not part of this model.
- Text tokens contribute `0` to the expression, following the code, so a formula containing text does not make evaluation fail.
