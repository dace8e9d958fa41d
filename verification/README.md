# amis schema linter, modelled in Dafny

This project models the rule-based linter of the amis JSON skills
repository. The linter takes a parsed amis page configuration and returns a
report with four parts: a `valid` flag and three lists of findings (errors,
warnings, and suggestions).

`rules/schema-validator.js` holds the structural checks and the orchestrator,
`validateAmisSchema`:

- the root must be an object and must have a `type`;
- one check for each of page, form, crud, dialog/drawer, button and wizard;
- an API address check;
- an `onEvent` action check.

`rules/common-patterns.js` holds the rest:

- three tables of keyword patterns: errors, warnings and infos;
- the detectors that test each pattern against `JSON.stringify(schema)`;
- four field heuristics (`getSuggestions`).

The orchestrator appends the pattern results to the report.

Modules:

- `Json` models JavaScript values as the linter sees them:
  - a JSON tree with integer numbers and members in own-property order;
  - truthiness, so `null`, `false`, `0` and `""` are falsy and every array and object is truthy;
  - `typeof x === "object"`, which holds for arrays too;
  - property reads, where a missing key or a read on a non-object gives `undefined`;
  - `Object.entries` on objects, arrays and strings.
- `JsonText` models `JSON.stringify` without replacer or indentation, and proves that the text of every nested value occurs inside the text of the whole document.
- `KeywordMatch` models the patterns, each of the form `/k1.*k2(.*k3)?/i`. It gives:
  - a declarative meaning, `Matches`;
  - an executable scanner, `Test`, proved equal to that meaning;
  - the `^(get|post|put|delete):` prefix test of the API check.

  `.` matches any character except the four JavaScript line terminators. Case is folded on ASCII letters, which is exact for these all-ASCII keywords.
- `Reports` models severities, the message identities, findings, and the report value.
- `CommonPatterns` models:
  - the three pattern tables, with their order and their counts (5, 5, 4);
  - the detectors, a loop over a table;
  - `getSuggestions`.
- `SchemaValidator` models the validator in two layers, both proved to agree:
  - a specification function per check;
  - the imperative validators, which push onto a `Report` object in place, as the source does.
- `ValidatorProperties` states what the whole linter promises.

Effects that the model turns into explicit values:

- A property read on `null` throws a `TypeError` in JavaScript. Examples are an item of a form body, a crud column, a wizard step or an event action that is `null`. So does `forEach` on a truthy value that is not an array.

  The model makes this explicit. The specification functions return `Outcome.Throws`, and the methods return `threw`. No precondition excludes these inputs.
- `require("./common-patterns")` succeeding or not is the parameter `patternsLoaded`.
- Message wording is abstracted to the `Text` datatype. Messages that carry an index or an event name keep it.

Behaviour of the code worth knowing:

- An array root passes `typeof schema !== "object"`: without the pattern module it is reported only for its missing `type` (`ArrayPassesObjectCheck`).
- Only the structural checks clear `valid`. A pattern error never does, so a report can be valid and still hold errors (`PatternErrorKeepsValid`, `ValidMeansNoStructuralError`).
- A button with label, action type and `onEvent` still gets the permission suggestion unless `hiddenOn` or `disabled` is set (`HeuristicsGuards`).
- A wizard whose only step is `{}` has no error and three warnings (`WizardWithEmptyStep`).

## Model

| member | source | states |
|---|---|---|
| `SchemaValidator.ValidateAmisSchema` | rules/schema-validator.js:6-86 | the imperative validator throws exactly when the specification `Validate` throws, and otherwise leaves in its fresh report exactly the report `Validate` describes |
| `SchemaValidator.Report.constructor` | rules/schema-validator.js:7-12 | a new report is valid with three empty lists |
| `ValidatorProperties.NonObjectRejected` | rules/schema-validator.js:14-21 | a root that is not an object (null, boolean, number, string) gives exactly one error, `valid` false, nothing else, with or without the pattern module |
| `ValidatorProperties.ArrayPassesObjectCheck` | rules/schema-validator.js:14-27 | without the pattern module, an array root passes the object test and is reported only for its missing `type` |
| `SchemaValidator.Validate` | rules/schema-validator.js:6-86 | validation throws exactly when the root is an object and a structural check throws; the report is valid exactly when the root is an object and the structural checks found no error, whatever the pattern detectors add |
| `SchemaValidator.TypeCheck` | rules/schema-validator.js:29-57 | only the form, crud and wizard checks can throw; a `type` that names none of the six components yields no finding |
| `ValidatorProperties.MissingTypeContinues` | rules/schema-validator.js:24-63 | a missing or falsy `type` adds one error, clears `valid`, and the API and event checks still run after it |
| `SchemaValidator.ValidateType` | rules/schema-validator.js:29-57 | at most one component check runs, chosen by `type`; the report grows by exactly that check's findings, and a `TypeError` in it is reported |
| `SchemaValidator.ValidateStructure` | rules/schema-validator.js:23-63 | the missing-type check, the type check, the API check and the event check run in that order, and the report grows by their findings in that order |
| `SchemaValidator.Structural` | rules/schema-validator.js:23-63 | the structural checks throw exactly when the type check or the event check throws, and otherwise yield their findings concatenated in source order |
| `SchemaValidator.AddPatterns` | rules/schema-validator.js:66-83 | the pattern errors, warnings, infos and heuristic suggestions are appended to the three lists, and `valid` is untouched |
| `SchemaValidator.AsSuggestions` | rules/schema-validator.js:77-79 | every heuristic message becomes one finding of severity suggestion, in order |
| `SchemaValidator.PushErrors` | rules/schema-validator.js:74 | the pattern errors are appended to the error list and nothing else changes |
| `SchemaValidator.PushWarnings` | rules/schema-validator.js:75 | the pattern warnings are appended to the warning list and nothing else changes |
| `SchemaValidator.PushSuggestions` | rules/schema-validator.js:76 | the pattern infos are appended to the suggestion list and nothing else changes |
| `SchemaValidator.PushSuggestionMessages` | rules/schema-validator.js:77-79 | each heuristic message is appended as a suggestion finding and nothing else changes |
| `ValidatorProperties.PatternsOnlyAppend` | rules/schema-validator.js:66-83 | loading the pattern module changes neither whether validation throws nor `valid`; each list is the list without patterns followed by the pattern findings of the document's text |
| `ValidatorProperties.ValidMeansNoStructuralError` | rules/schema-validator.js:66-83 | `valid` is true exactly when the structural checks reported no error, whatever the pattern detectors found |
| `ValidatorProperties.PatternErrorKeepsValid` | rules/schema-validator.js:66-83 | in a document with no structural error, a nested value whose text matches an error pattern produces that pattern's error, and the report stays valid |
| `ValidatorProperties.PlainTextMatches` | rules/common-patterns.js:8 | a string that `JSON.stringify` writes unchanged and that matches the first error rule still matches once serialized, quotes and all |
| `ValidatorProperties.PageExample` | rules/schema-validator.js:66-83 | a page whose body is the string "missing type" is reported valid with a non-empty error list |
| `ValidatorProperties.ReportGraded` | rules/schema-validator.js:6-86 | every finding sits in the list for its severity: errors hold only errors, warnings only warnings, suggestions only infos and suggestions |
| `ValidatorProperties.InfosBeforeSuggestions` | rules/schema-validator.js:66-83 | in the suggestion list every info finding comes before every heuristic suggestion |
| `ValidatorProperties.TypeCheckGraded` | rules/schema-validator.js:29-57 | each component check reports errors as errors, warnings as warnings and infos as suggestions |
| `ValidatorProperties.StructuralGraded` | rules/schema-validator.js:23-63 | the same grading holds for all the structural checks together |
| `ValidatorProperties.PatternsGraded` | rules/schema-validator.js:74-79 | appending the pattern results keeps every list graded |
| `ValidatorProperties.PatternSeverities` | rules/common-patterns.js:90-140 | each detector yields findings of its own severity only |
| `ValidatorProperties.PatternsKeepInfosFirst` | rules/schema-validator.js:76-79 | infos are pushed before the heuristic suggestions |
| `SchemaValidator.ValidatePage` | rules/schema-validator.js:88-92 | the report grows by the page findings |
| `ValidatorProperties.SimpleChecks` | rules/schema-validator.js:88-178 | the exact findings. Page: no error, the body warning exactly when `body` is falsy, no suggestion. Dialog: the body error exactly when `body` is falsy, the title warning exactly when `title` is falsy, no suggestion. Button: no error; the label warning exactly when `label` and `icon` are both falsy, then the action warning exactly when `actionType` and `onEvent` are both falsy; no suggestion |
| `SchemaValidator.ValidateForm` | rules/schema-validator.js:94-129 | the form validator throws exactly when its specification throws, and otherwise adds its findings to the report |
| `SchemaValidator.NameWarnings` | rules/schema-validator.js:105-121 | the per-item loop throws exactly when an item is `null`, and yields at most one warning per item, each a name warning |
| `SchemaValidator.PushNameWarnings` | rules/schema-validator.js:105-121 | the loop pushes exactly the warnings of `NameWarnings` |
| `ValidatorProperties.NameWarningsIncreasing` | rules/schema-validator.js:106-120 | every name warning is the plain warning for an item index below the item count, and the indices strictly increase, so no item is warned twice |
| `ValidatorProperties.NameWarningsExact` | rules/schema-validator.js:106-120 | a name warning for index k exists exactly when item k has a truthy `type` other than button, submit or reset and a falsy `name` |
| `ValidatorProperties.FormBodyError` | rules/schema-validator.js:95-128 | the exact form findings: the error list is the body error when `controls` and `body` are both falsy and empty otherwise; the warnings are the item name warnings followed by the API warning exactly when `api` and `initApi` are both falsy; no suggestion |
| `ValidatorProperties.FormThrows` | rules/schema-validator.js:103-121 | the form check throws exactly when the item list (`body`, else `controls`) holds `null` |
| `SchemaValidator.SomeOperation` | rules/schema-validator.js:143 | "no operation column" and "some operation column" are each reported only when true |
| `SchemaValidator.HasOperation` | rules/schema-validator.js:143 | the short-circuiting loop over the columns throws or answers exactly as `columns.some` |
| `ValidatorProperties.SomeOperationThrows` | rules/schema-validator.js:143 | the search throws exactly when a `null` column comes before every operation column |
| `SchemaValidator.ValidateCrud` | rules/schema-validator.js:131-151 | the crud validator throws exactly when its specification throws, and otherwise adds its findings to the report |
| `ValidatorProperties.CrudFindings` | rules/schema-validator.js:131-151 | the exact crud findings: the api error exactly when `api` is falsy, then the columns error exactly when `columns` is falsy; no warning; the operation info, and nothing else, exactly when `columns` is an array with no operation column |
| `SchemaValidator.ValidateDialog` | rules/schema-validator.js:153-162 | the report grows by the dialog findings |
| `SchemaValidator.ValidateButton` | rules/schema-validator.js:164-178 | the report grows by the button findings |
| `SchemaValidator.ValidateWizard` | rules/schema-validator.js:180-209 | the wizard validator throws exactly when its specification throws, and otherwise adds its findings to the report |
| `SchemaValidator.StepWarnings` | rules/schema-validator.js:186-201 | the step loop throws exactly when a step is `null`, and yields at most two warnings per step, each about a title or a content |
| `SchemaValidator.PushStepWarnings` | rules/schema-validator.js:186-201 | the loop pushes exactly the warnings of `StepWarnings` |
| `SchemaValidator.PushStepFindings` | rules/schema-validator.js:188-199 | one step adds a title warning and a content warning, each when that field is missing, and nothing else changes |
| `ValidatorProperties.StepWarningsIncreasing` | rules/schema-validator.js:187-200 | every step warning is the plain title or content warning for a step index below the step count; they come in step order, with a step's title warning before its content warning, so none repeats |
| `ValidatorProperties.StepWarningsExact` | rules/schema-validator.js:187-200 | step k gets a title warning exactly when its `title` is falsy, and a content warning exactly when its `controls` and `body` are both falsy |
| `ValidatorProperties.WizardOutcome` | rules/schema-validator.js:180-209 | the wizard check throws exactly when `steps` is truthy and is not an array, or is an array holding `null`. Otherwise the error list is the steps error when `steps` is not an array and empty otherwise; the warnings are the step warnings followed by the API warning exactly when `api` is falsy; no suggestion |
| `ValidatorProperties.WizardWithEmptyStep` | rules/schema-validator.js:180-209 | a wizard whose only step is `{}` is valid with no error and three warnings |
| `SchemaValidator.ValidateApiConfig` | rules/schema-validator.js:211-234 | the report grows by the API findings |
| `SchemaValidator.ValidateApiObject` | rules/schema-validator.js:222-233 | an API object adds a url error and a method warning, each when that field is falsy |
| `ValidatorProperties.ApiFindings` | rules/schema-validator.js:211-234 | the exact API findings. A non-empty string gets only the address warning, and that exactly when it starts neither with `/` nor with a method prefix. An object (or array) gets only the url error when `url` is falsy and the method warning when `method` is falsy. A falsy, numeric or boolean API gets nothing |
| `ValidatorProperties.MethodPrefixIgnoresCase` | rules/schema-validator.js:216 | for all strings: two strings that agree once ASCII letters are lower-cased agree on the method prefix test |
| `ValidatorProperties.MethodPrefixColon` | rules/schema-validator.js:216 | for all strings: an accepted prefix has its colon right after the method name, at index 3, 4 or 6 |
| `ValidatorProperties.MethodPrefixExamples` | rules/schema-validator.js:216 | examples: `GET:/api/users` and `Delete:/api/users/1` are accepted |
| `ValidatorProperties.MethodPrefixCounterexamples` | rules/schema-validator.js:216 | examples: `api/users` (no method) and `get/api` (no colon) are rejected |
| `SchemaValidator.ValidateEventActions` | rules/schema-validator.js:236-257 | the event validator throws exactly when its specification throws, and otherwise adds its findings to the report |
| `SchemaValidator.EventWarnings` | rules/schema-validator.js:239-256 | the loop over the `onEvent` entries throws exactly when one entry throws, and yields only warnings |
| `SchemaValidator.EntryWarnings` | rules/schema-validator.js:240-255 | an entry yields only warnings |
| `SchemaValidator.ActionWarnings` | rules/schema-validator.js:248-255 | the action loop throws exactly when an action is `null`, and yields at most one warning per action, each naming this event |
| `SchemaValidator.PushEventWarnings` | rules/schema-validator.js:239-256 | the loop pushes exactly the warnings of `EventWarnings` |
| `SchemaValidator.PushEntryWarnings` | rules/schema-validator.js:240-255 | one entry pushes exactly the warnings of `EntryWarnings` |
| `SchemaValidator.PushActionWarnings` | rules/schema-validator.js:248-255 | the action loop pushes exactly the warnings of `ActionWarnings` |
| `ValidatorProperties.EntryActionsWarning` | rules/schema-validator.js:240-246 | an entry gets the "set actions" warning exactly when its `actions` is falsy |
| `ValidatorProperties.ActionWarningsIncreasing` | rules/schema-validator.js:248-255 | every action warning is the plain warning naming this event and an action index below the action count, and the indices strictly increase |
| `ValidatorProperties.EntryThrows` | rules/schema-validator.js:240-255 | an entry throws exactly when its config is `null`, or its `actions` is truthy and either not an array or an array holding `null` |
| `ValidatorProperties.ActionWarningsExact` | rules/schema-validator.js:248-255 | action k gets a warning exactly when its `actionType` is falsy |
| `ValidatorProperties.EventActionsExact` | rules/schema-validator.js:239-247 | an event gets the "set actions" warning exactly when some entry of that name has falsy `actions` |
| `ValidatorProperties.EntryWarningsExact` | rules/schema-validator.js:240-255 | an entry with falsy `actions` yields exactly the one "set actions" warning; otherwise exactly the warnings of its action loop. A warning is in an entry's list exactly when the entry yields it: the "set actions" warning for falsy `actions`, or the action-type warning for an action k of the `actions` array whose `actionType` is falsy |
| `ValidatorProperties.EventWarningsExact` | rules/schema-validator.js:239-256 | a warning is in the list of the whole `onEvent` loop exactly when some entry yields it, so the list holds nothing but those two kinds of warning, each for a reason the code checks |
| `ValidatorProperties.EventWarningsFrom` | rules/schema-validator.js:239-256 | every warning of the `onEvent` loop is yielded by some entry |
| `ValidatorProperties.EventWarningsTo` | rules/schema-validator.js:239-256 | every warning an entry yields is in the list of the `onEvent` loop |
| `Json.LookupFirst` | rules/schema-validator.js:24 | a property read finds a value exactly when a member has the key, and the value is that member's |
| `Json.Or` | rules/schema-validator.js:103 | `body \|\| controls` is truthy exactly when one of them is, and is the first when the first is truthy |
| `Json.EntriesDistinctKeys` | rules/schema-validator.js:239 | `Object.entries` of an array or a string has one entry per element, holding that element, under pairwise distinct keys |
| `Json.NatToStringInjective` | rules/schema-validator.js:239 | different indices are written as different decimal keys |
| `Reports.AddThen` | rules/schema-validator.js:23-63 | pushing two checks' findings one after the other is the same as pushing their concatenation |
| `JsonText.WithinInfix` | rules/common-patterns.js:92 | the serialized text of any nested value occurs verbatim in the serialized text of the whole document |
| `JsonText.EscapeChar` | rules/common-patterns.js:92 | a character is escaped to itself or to an escape beginning with a backslash, and a plain printable character is written as is |
| `JsonText.EscapePlain` | rules/common-patterns.js:92 | a string with no quote, backslash or control character is written unchanged |
| `KeywordMatch.Test` | rules/common-patterns.js:95 | the executable scan answers true exactly when the keywords occur in order on one line, as `/k1.*k2(.*k3)?/i` demands |
| `KeywordMatch.Scan` | rules/common-patterns.js:95 | each state of the scan answers true exactly when the remaining keywords or a fresh match can be found from there |
| `KeywordMatch.MatchesInfix` | rules/common-patterns.js:95 | a pattern that matches a text matches every text containing it |
| `KeywordMatch.Lower` | rules/common-patterns.js:8 | case folding maps only `A`-`Z` onto `a`-`z` |
| `CommonPatterns.TablesWellFormed` | rules/common-patterns.js:6-88 | every rule of the three tables is a well-formed keyword pattern, and rule i carries message i of its own table |
| `CommonPatterns.ErrorTableWellFormed` | rules/common-patterns.js:6-37 | each error rule is a well-formed keyword pattern carrying its own message |
| `CommonPatterns.WarningTableWellFormed` | rules/common-patterns.js:39-65 | each warning rule is a well-formed keyword pattern carrying its own message |
| `CommonPatterns.InfoTableWellFormed` | rules/common-patterns.js:67-88 | each info rule is a well-formed keyword pattern carrying its own message |
| `CommonPatterns.DetectExact` | rules/common-patterns.js:94-103 | a finding is detected exactly when it is the finding of some rule whose pattern test succeeds on the text (and `KeywordMatch.Test` succeeds exactly when the regular expression matches) |
| `CommonPatterns.DetectHas` | rules/common-patterns.js:94-103 | every rule whose pattern test succeeds has its finding reported |
| `CommonPatterns.DetectOnly` | rules/common-patterns.js:94-103 | every reported finding is the finding of a rule whose pattern test succeeds |
| `CommonPatterns.DetectOrdered` | rules/common-patterns.js:94-103 | at most one finding per rule, each of the detector's severity, in table order |
| `CommonPatterns.RunDetector` | rules/common-patterns.js:90-140 | the loop over a table pushes exactly the findings of the matching rules, in order and with the given severity |
| `CommonPatterns.DetectErrorPatterns` | rules/common-patterns.js:90-106 | the error detector returns the error-table findings for the serialized document: at most five, all errors |
| `CommonPatterns.DetectWarningPatterns` | rules/common-patterns.js:108-123 | the warning detector returns the warning-table findings: at most five, all warnings |
| `CommonPatterns.DetectInfoPatterns` | rules/common-patterns.js:125-140 | the info detector returns the info-table findings: at most four, all infos |
| `CommonPatterns.NestedValueFires` | rules/common-patterns.js:92-95 | a pattern that matches any nested value's text fires for the whole document |
| `CommonPatterns.GetSuggestions` | rules/common-patterns.js:142-165 | the method returns exactly the applicable heuristics, in source order |
| `CommonPatterns.Rank` | rules/common-patterns.js:145-162 | each heuristic has a position in source order |
| `CommonPatterns.HeuristicsExact` | rules/common-patterns.js:146-162 | a heuristic is suggested exactly when its guard holds |
| `CommonPatterns.HeuristicsOrdered` | rules/common-patterns.js:146-162 | suggestions follow source order, so none repeats |
| `CommonPatterns.HeuristicsPerType` | rules/common-patterns.js:146-162 | at most one suggestion for a form, two for a crud, one for a button, and none for any other type |
| `CommonPatterns.HeuristicsGuards` | rules/common-patterns.js:155-162 | a crud with a truthy `api` never gets the paging suggestion; a button gets the permission suggestion exactly when `hiddenOn` and `disabled` are both falsy |

## Left out

- Floating-point numbers: JSON numbers are integers here, written in plain decimal. `JSON.stringify` writes a number of magnitude 1e21 or more in exponent form, and the model does not. The linter itself reads only whether a number is truthy (`0` is falsy).
- Duplicate keys, `undefined`, functions, symbols and `toJSON` inside a schema: a parsed JSON document has none of them. `JSON.parse` keeps only the last of repeated keys, so an object's member list is meant to have distinct keys. On a list that repeats a key, the model reads the first occurrence.
- Unicode beyond ASCII case folding: the patterns' keywords are ASCII, and no other character folds onto an ASCII letter under `/i`. Strings are sequences of Unicode scalar values, so lone surrogates are not modelled.
- Json.Entries: on a string it gives one entry per Unicode scalar value. JavaScript gives one per UTF-16 code unit, so a character outside the Basic Multilingual Plane gives one entry here and two in JavaScript. The linter only calls it on `onEvent`, which is an object in every configuration it is meant for.
- SchemaValidator.NameWarnings: its own contract gives the throw condition, a length bound and the kind of warning only. The exact list is stated by `NameWarningsExact` and `NameWarningsIncreasing`.
- SchemaValidator.StepWarnings: its own contract gives the throw condition, a length bound and the kind of warning only. The exact list is stated by `StepWarningsExact` and `StepWarningsIncreasing`.
- SchemaValidator.ActionWarnings: its own contract gives the throw condition, a length bound and the kind of warning only. The exact list is stated by `ActionWarningsExact` and `ActionWarningsIncreasing`.
- SchemaValidator.EntryWarnings: its own contract gives only the severity of its findings. When it throws is stated by `EntryThrows`, and its exact list by `EntryWarningsExact`.
- SchemaValidator.EventWarnings: its own contract gives the throw condition and the severity only. Which warnings the list holds is stated by `EventWarningsExact`. That the list is the entries' lists concatenated in entry order is stated only through `PushEventWarnings`.
- A general regular-expression engine: only the two shapes the source uses are modelled. These are the keyword patterns `k1.*k2(.*k3)?` and the anchored method prefix.
- Module loading: whether `require` exists and whether `./common-patterns` loads is the parameter `patternsLoaded`. The `catch` that swallows every error of the pattern block is modelled only as "not loaded"; the pattern code itself cannot throw on a parsed document.
- The report built before a `TypeError`: the exception escapes `validateAmisSchema`, so the model reports only that it threw.
- Message wording: messages, fixes, examples and table suggestions are identities (`Text`), not Chinese strings. The fix, example and suggestion fields are carried as identities too.
- The `module.exports` guards at the end of both files: they export the functions and have no behaviour of their own.
- Property reads on strings, numbers and booleans give `undefined` for every key the linter reads. The one exception is `length`, which the linter never reads.
