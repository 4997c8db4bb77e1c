# GA event documentation, modelled in Dafny

The system keeps documentation for Google Analytics events: a name, a description, a JSON format
sample, a client/server type, a JSON array of tags and an optional deprecated flag, one row per event
in a BigQuery table. A React webapp shows the events in a searchable, tag-filterable accordion and
counts documented and undocumented events. Each entry has a preview and an edit form, and the form
posts its buffer to an `UpdateEvent` HTTP function. That function checks the event and hands it to a
repository, which runs a parameterised `UPDATE` against the table.

The model is a set of pure functions over immutable datatypes.

- **JSON**: the text codec `JSON.parse` / `JSON.stringify` is a concrete parser (`JsonParser`) and
  printer (`JsonPrinter`) over a `Value` datatype (`Json`). Parsing the printed text of any
  well-formed value, compact or indented, gives the value back (`JsonRoundTrip`); printing a parsed
  text need not give the text back, since its whitespace is not kept.
- **Webapp** (`Formatter`, `Tags`, `EventList`, `App`, `Summary`, `Views`, `Editor`, `CommitOnBlur`):
  - the webapp's string and array built-ins (`JsString`, `Seqs`);
  - the list filter, the tag bar and the summary counters;
  - the preview's rendering decisions;
  - the editor's workflow, as a state machine whose network calls are returned as effects;
  - the commit-on-blur input fields.
- **Backend** (`DotNet`, `Dto`, `Repository`, `UpdateHandler`): the repository and the HTTP handler,
  with the BigQuery client, request-body deserialisation and statement execution taken as function
  parameters.

Modules, one per file:

- `common.dfy`: `Option`, `Result`, `Outcome`.
- `seqs.dfy`: filter, insertion sort, distinct.
- `js_string.dfy`: trim, lower-case, includes, UTF-16 code-unit order.
- `json.dfy`, `json_parser.dfy`, `json_printer.dfy`, `json_roundtrip.dfy`: the JSON codec and its proofs.
- `events.dfy`: the webapp's event record.
- `formatter.dfy`: `makeJsonNice` and `safelyParseJson`.
- `tags.dfy`: tag normalisation and how tags are read.
- `event_list.dfy`: the filtered, sorted list.
- `app.dfy`: the tag bar and tag selection.
- `summary.dfy`: the summary counters.
- `editor.dfy`: the edit workflow.
- `views.dfy`: the preview and the header.
- `commit_on_blur.dfy`: `TextField` and `JsonEditor`.
- `dotnet.dfy`: the .NET exceptions and their messages.
- `dto.dfy`: the backend's event record.
- `repository.dfy`: the BigQuery repository.
- `update_handler.dfy`: the `UpdateEvent` HTTP function.

Behaviour worth noting:

- **Missing documentation.** Deprecation does not suppress the "missing documentation" icon or the
  undocumented count. Both test only whether the description is empty
  (`Views.MissingDocumentationMatchesSummary`, `Views.DeprecationKeepsUndocumented`).
- **Edits while saving.** While a save is in flight the edit fields stay editable; only Cancel and
  Save are disabled. The posted body is the buffer as it was when Save was pressed
  (`Request.Saving(sent)`).
- **Failed saves.** A failed save is not surfaced to the user. The code only logs it and stays in
  edit mode (`Editor.SaveFails`).
- **Two edit variants.** Two versions of the edit workflow exist in the code: the self-contained one
  in `EventItem.tsx` and the split `Preview.tsx` / `Edit.tsx` pair. Both are modelled
  (`Variant = Wired | Split`). The split variant is the only one that seeds and shows `deprecated`.
- **Toggling a tag twice.** Clicking the same badge twice returns to "no tag selected" only when that
  tag was not already selected (`App.ToggleTwiceClears`). Starting from the selected tag, two clicks
  select it again.

## Model

| member | source | states |
|---|---|---|
| JsonRoundTrip.SerializeRoundTrip | Projects/Komplett.Ga.EventDocumentation/webapp/src/utils/formatter.ts:10-11 | for every well-formed JSON value and every indentation gap made of spaces, parsing the serialised text gives back the same value |
| JsonRoundTrip.PrettyPrintRoundTrip | Projects/Komplett.Ga.EventDocumentation/webapp/src/utils/formatter.ts:10-11 | `JSON.parse` of the two-space `JSON.stringify` form of a parsed value is that value again |
| JsonRoundTrip.StringArrayRoundTrip | Projects/Komplett.Ga.EventDocumentation/webapp/src/features/list/components/EventItem.tsx:64 | the compact JSON text of an array of strings parses back to exactly that array |
| JsonRoundTrip.QuoteRoundTrip | Projects/Komplett.Ga.EventDocumentation/webapp/src/features/list/components/EventItem.tsx:64 | a quoted, escaped string literal reads back as the original string, whatever text follows it |
| JsonRoundTrip.NumberRoundTrip | Projects/Komplett.Ga.EventDocumentation/webapp/src/utils/formatter.ts:10-11 | a JSON number literal followed by a delimiter reads back as that number, with the rest of the text untouched |
| JsonParser.Parse | Projects/Komplett.Ga.EventDocumentation/webapp/src/utils/formatter.ts:10 | every value the parser accepts is well-formed: its numbers are JSON number literals and its strings hold no surrogate halves |
| JsonParser.ParseEmpty | Projects/Komplett.Ga.EventDocumentation/webapp/src/utils/formatter.ts:7 | the empty text is not JSON |
| Formatter.MakeJsonNice | Projects/Komplett.Ga.EventDocumentation/webapp/src/utils/formatter.ts:6-16 | the result is empty exactly when the input is; unparsable text comes back unchanged; the result of parsable text parses to the same JSON value as the input |
| Formatter.MakeJsonNiceIdempotent | Projects/Komplett.Ga.EventDocumentation/webapp/src/utils/formatter.ts:6-16 | formatting an already formatted text changes nothing |
| Formatter.SafelyParseJson | Projects/Komplett.Ga.EventDocumentation/webapp/src/features/list/components/EventItem.tsx:86-94 | when the text is a JSON array the result is its elements; when the text is not JSON, or is JSON but not an array, the result is the default |
| Formatter.SafelyParseStringArray | Projects/Komplett.Ga.EventDocumentation/webapp/src/features/list/components/EventItem.tsx:86-94 | reading the stringified text of a string array gives the array's elements, not the default |
| JsString.Trim | Projects/Komplett.Ga.EventDocumentation/webapp/src/features/list/components/EventItem.tsx:63 | the result is a contiguous slice of the input with no ECMAScript whitespace or line terminator at either end |
| JsString.TrimOfTrimmed | Projects/Komplett.Ga.EventDocumentation/webapp/src/features/list/components/EventItem.tsx:63 | trimming a string without surrounding whitespace returns it unchanged |
| JsString.TrimIdempotent | Projects/Komplett.Ga.EventDocumentation/webapp/src/features/list/components/EventItem.tsx:63 | trimming twice is trimming once |
| JsString.ToLowerCase | Projects/Komplett.Ga.EventDocumentation/webapp/src/features/list/components/EventItem.tsx:63 | same length; each ASCII capital becomes its small letter, every other character is kept |
| JsString.ToLowerCaseIdempotent | Projects/Komplett.Ga.EventDocumentation/webapp/src/features/list/components/EventItem.tsx:63 | lower-casing twice is lower-casing once |
| JsString.ToLowerCaseKeepsTrimmed | Projects/Komplett.Ga.EventDocumentation/webapp/src/features/list/components/EventItem.tsx:63 | lower-casing a trimmed string leaves it trimmed |
| JsString.Includes | Projects/Komplett.Ga.EventDocumentation/webapp/src/features/list/EventList.tsx:27 | true exactly when the needle occurs at some position of the haystack |
| JsString.LexLeTotal | Projects/Komplett.Ga.EventDocumentation/webapp/src/App.tsx:66 | any two code-unit sequences are ordered one way or the other |
| JsString.LexLeTransitive | Projects/Komplett.Ga.EventDocumentation/webapp/src/App.tsx:66 | the code-unit order is transitive |
| JsString.LexLeAntisymmetric | Projects/Komplett.Ga.EventDocumentation/webapp/src/App.tsx:66 | two code-unit sequences ordered both ways are equal |
| JsString.CodeUnitLeTotalPreorder | Projects/Komplett.Ga.EventDocumentation/webapp/src/App.tsx:66 | the default `sort()` order on strings, by UTF-16 code units, is total and transitive |
| Seqs.Filter | Projects/Komplett.Ga.EventDocumentation/webapp/src/features/list/EventList.tsx:26-40 | each element keeps its multiplicity when it passes the predicate and vanishes when it does not |
| Seqs.Sort | Projects/Komplett.Ga.EventDocumentation/webapp/src/features/list/EventList.tsx:41 | the result is a permutation of the input, sorted by the given total preorder |
| Seqs.Distinct | Projects/Komplett.Ga.EventDocumentation/webapp/src/App.tsx:52 | the result has the same members as the input, each exactly once |
| Seqs.DistinctOfNoRepeats | Projects/Komplett.Ga.EventDocumentation/webapp/src/App.tsx:52 | removing repeats from a sequence that has none returns it unchanged, order included |
| Seqs.FilterSplits | Projects/Komplett.Ga.EventDocumentation/webapp/src/features/summary/EventSummary.tsx:25-37 | the elements passing a predicate and those passing its negation together number the whole sequence |
| Seqs.FilterConcat | Projects/Komplett.Ga.EventDocumentation/webapp/src/features/summary/EventSummary.tsx:25 | filtering a concatenation is concatenating the filtered parts |
| Tags.NormalizeTag | Projects/Komplett.Ga.EventDocumentation/webapp/src/features/list/components/EventItem.tsx:63 | a normalised tag is the typed tag with only whitespace removed from both ends, then lower-cased; it has no surrounding whitespace, no ASCII capitals, and is no longer than the typed tag |
| Tags.TrimStripsWhitespace | Projects/Komplett.Ga.EventDocumentation/webapp/src/features/list/components/EventItem.tsx:63 | `trim` keeps an infix of the tag and removes only whitespace on either side of it |
| Tags.NormalizeTagIdempotent | Projects/Komplett.Ga.EventDocumentation/webapp/src/features/list/components/EventItem.tsx:63 | a normalised tag is its own normal form |
| Tags.UpdateTags | Projects/Komplett.Ga.EventDocumentation/webapp/src/features/list/components/EventItem.tsx:62-65 | the stored `tags` text reads back, through `safelyParseJson`, as the normalised tags in input order |
| Tags.UpdateTagsResubmit | Projects/Komplett.Ga.EventDocumentation/webapp/src/features/list/components/EventItem.tsx:197-201 | handing the tag input's displayed list back to `updateTags` stores the same text again |
| Tags.TagArray | Projects/Komplett.Ga.EventDocumentation/webapp/src/features/list/EventList.tsx:33-35 | an event has a tag array exactly when its `tags` is non-empty and parses as a JSON array, and then it is that array |
| Tags.StringsOf | Projects/Komplett.Ga.EventDocumentation/webapp/src/App.tsx:56-58 | a text is listed exactly when the array holds it as a JSON string |
| Tags.EventTagStrings | Projects/Komplett.Ga.EventDocumentation/webapp/src/App.tsx:54-59 | a text is one of an event's tags exactly when the event's tag array holds it as a string |
| Tags.SavedTagsRead | Projects/Komplett.Ga.EventDocumentation/webapp/src/features/list/EventList.tsx:33-35 | an event whose tags were written by `updateTags` reads back exactly the normalised tags |
| Tags.StringsOfStringArray | Projects/Komplett.Ga.EventDocumentation/webapp/src/App.tsx:56-58 | the strings of a string array are the original strings, in order |
| EventList.FilteredEvents | Projects/Komplett.Ga.EventDocumentation/webapp/src/features/list/EventList.tsx:22-42 | no data gives no events; otherwise exactly the events whose lower-cased name contains the lower-cased search and whose tags hold the selected tag, with their multiplicity and so never more events than the data holds, sorted by name under `localeCompare` |
| EventList.IncludesEmpty | Projects/Komplett.Ga.EventDocumentation/webapp/src/features/list/EventList.tsx:27 | every name contains the empty search text |
| EventList.NoQueryShowsAll | Projects/Komplett.Ga.EventDocumentation/webapp/src/features/list/EventList.tsx:22-42 | with no search text and no tag the list holds every event of the data |
| EventList.TagNarrows | Projects/Komplett.Ga.EventDocumentation/webapp/src/features/list/EventList.tsx:29-40 | selecting a tag only removes events from the list for the same search |
| App.CollectTags | Projects/Komplett.Ga.EventDocumentation/webapp/src/App.tsx:52-65 | a text is collected exactly when some event's tag array holds it as a string |
| App.DistinctTags | Projects/Komplett.Ga.EventDocumentation/webapp/src/App.tsx:52-66 | the badges are the string tags of all events, each once, in code-unit order |
| App.BadgesMatchFilter | Projects/Komplett.Ga.EventDocumentation/webapp/src/App.tsx:52-66 | a non-empty tag has a badge exactly when selecting it lets at least one event through the list's tag filter |
| App.ToggleTag | Projects/Komplett.Ga.EventDocumentation/webapp/src/App.tsx:26-28 | clicking a badge selects that tag alone unless it was already selected, in which case nothing is selected |
| App.ToggleTwiceClears | Projects/Komplett.Ga.EventDocumentation/webapp/src/App.tsx:26-28 | from any selection other than the clicked tag, two clicks on it leave no tag selected |
| App.ToggleHighlights | Projects/Komplett.Ga.EventDocumentation/webapp/src/App.tsx:88 | a click flips the clicked badge's highlight and leaves every other badge unhighlighted |
| Summary.EventStats | Projects/Komplett.Ga.EventDocumentation/webapp/src/features/summary/EventSummary.tsx:22-41 | undocumented counts the events with an empty description, documented the rest, and the two add up to the total |
| Summary.StatsOfPermutation | Projects/Komplett.Ga.EventDocumentation/webapp/src/features/summary/EventSummary.tsx:22-41 | the counters depend only on the multiset of events, not their order |
| Summary.DocumentingOneEvent | Projects/Komplett.Ga.EventDocumentation/webapp/src/features/summary/EventSummary.tsx:25-31 | giving one undocumented event a description moves exactly one count from undocumented to documented |
| Editor.Init | Projects/Komplett.Ga.EventDocumentation/webapp/src/features/list/components/EventItem.tsx:31-44 | an item starts in preview, with no request, and with the default buffer |
| Editor.Seed | Projects/Komplett.Ga.EventDocumentation/webapp/src/features/list/components/Preview.tsx:26-38 | the buffer takes the item's name, description and type, its format, or `{}` when the format is empty, its tags, or `[]` when they are empty, and in the split variant whether it is deprecated; the wired variant carries no `deprecated` |
| Editor.Merge | Projects/Komplett.Ga.EventDocumentation/webapp/src/features/list/components/EventItem.tsx:82-84 | a patch overrides exactly the fields it sets and leaves name, tags and deprecated as they were |
| Editor.MergeComposes | Projects/Komplett.Ga.EventDocumentation/webapp/src/features/list/components/EventItem.tsx:82-84 | two patches in a row equal one combined patch in which the later one wins, and the empty patch changes nothing |
| Editor.RequestBody | Projects/Komplett.Ga.EventDocumentation/webapp/src/features/list/api/eventRequests.ts:50 | the posted body parses to the object of the buffer's name, description, format, type, tags and, when present, deprecated flag |
| Editor.Step | Projects/Komplett.Ga.EventDocumentation/webapp/src/features/list/components/EventItem.tsx:46-84 | a hidden or disabled control does nothing; the variant never changes; a request is posted only by Save, only for a named buffer, with that buffer as its body |
| Editor.StepKeepsValid | Projects/Komplett.Ga.EventDocumentation/webapp/src/features/list/components/Edit.tsx:43-57 | a save is only pending in edit mode, and the split variant never waits on a reload |
| Editor.RunKeepsValid | Projects/Komplett.Ga.EventDocumentation/webapp/src/features/list/components/EventItem.tsx:46-60 | every sequence of user actions and replies keeps the workflow in a valid state |
| Editor.EnterEditSeeds | Projects/Komplett.Ga.EventDocumentation/webapp/src/features/list/components/EventItem.tsx:67-76 | Edit opens the form on the item's own values, whatever the buffer held |
| Editor.CancelDiscardsEdits | Projects/Komplett.Ga.EventDocumentation/webapp/src/features/list/components/Edit.tsx:34-36 | Cancel leaves edit mode, posts nothing and keeps the buffer; cancelling and editing again discards every change made to the buffer |
| Editor.SavingLocksButtons | Projects/Komplett.Ga.EventDocumentation/webapp/src/features/list/components/Edit.tsx:113-127 | while a save is pending, Cancel and Save change nothing and post nothing |
| Editor.SaveStep | Projects/Komplett.Ga.EventDocumentation/webapp/src/features/list/components/EventItem.tsx:46-50 | Save on an idle, named buffer sets the saving flag and posts exactly that buffer |
| Editor.SettleOkStep | Projects/Komplett.Ga.EventDocumentation/webapp/src/features/list/components/EventItem.tsx:51-54 | a 2xx reply to a named save leaves edit mode and starts one reload; the wired variant stays busy until the reload ends |
| Editor.SaveSucceeds | Projects/Komplett.Ga.EventDocumentation/webapp/src/features/list/components/EventItem.tsx:46-60 | a save answered with a 2xx status posts the buffer, reloads the list once, leaves edit mode and ends idle |
| Editor.SaveFails | Projects/Komplett.Ga.EventDocumentation/webapp/src/features/list/components/Edit.tsx:43-57 | a save that fails leaves the workflow exactly as it was before Save |
| Editor.NamelessSaveNeverPosts | Projects/Komplett.Ga.EventDocumentation/webapp/src/features/list/api/eventRequests.ts:40-42 | saving a buffer without a name posts nothing and cannot succeed |
| Editor.TagsInputShowsNormalized | Projects/Komplett.Ga.EventDocumentation/webapp/src/features/list/components/EventItem.tsx:197-201 | a tag input change posts nothing and alters only the buffer's tags, after which the tag input shows the normalised tags |
| Views.MissingDocumentationMatchesSummary | Projects/Komplett.Ga.EventDocumentation/webapp/src/features/list/components/EventItem.tsx:232 | the header's missing-documentation icon marks exactly the events the summary counts as undocumented |
| Views.DeprecationKeepsUndocumented | Projects/Komplett.Ga.EventDocumentation/webapp/src/features/summary/EventSummary.tsx:25-31 | changing one event's deprecated flag changes neither its missing-documentation icon nor any summary counter |
| Views.DeprecationAlertMatchesSeed | Projects/Komplett.Ga.EventDocumentation/webapp/src/features/list/components/Preview.tsx:42-50 | the split preview shows the deprecation alert exactly when editing would seed `deprecated` as true, and the wired view never shows it |
| Views.HeaderBadge | Projects/Komplett.Ga.EventDocumentation/webapp/src/features/list/components/EventItem.tsx:243 | the header shows a type badge exactly when the event has a type, and it shows that type |
| Views.PanelOf | Projects/Komplett.Ga.EventDocumentation/webapp/src/features/list/components/EventItem.tsx:247 | the panel shows the form exactly in edit mode |
| Views.TypeView | Projects/Komplett.Ga.EventDocumentation/webapp/src/features/list/components/EventItem.tsx:114-120 | the type is shown exactly when it is non-empty, otherwise "Undocumented" |
| Views.DescriptionView | Projects/Komplett.Ga.EventDocumentation/webapp/src/features/list/components/EventItem.tsx:122-128 | the description is shown exactly when it is non-empty, otherwise "Undocumented" |
| Views.FormatView | Projects/Komplett.Ga.EventDocumentation/webapp/src/features/list/components/EventItem.tsx:130-136 | a non-empty format is shown as non-empty text denoting the same JSON value, or as itself when it is not JSON; an empty one is "Undocumented" |
| Views.DisplayLeTotalPreorder | Projects/Komplett.Ga.EventDocumentation/webapp/src/features/list/components/EventItem.tsx:143 | `sort()` on parsed tag values, comparing their string forms by code units, is a total preorder |
| Views.TagsView | Projects/Komplett.Ga.EventDocumentation/webapp/src/features/list/components/EventItem.tsx:138-150 | badges appear exactly when `tags` is non-empty and holds a non-empty array; they are that array's elements, reordered by `sort()` |
| Views.SavedTagsShown | Projects/Komplett.Ga.EventDocumentation/webapp/src/features/list/components/Preview.tsx:92-104 | tags saved from a non-empty list show as one badge per normalised tag |
| CommitOnBlur.Mount | Projects/Komplett.Ga.EventDocumentation/webapp/src/components/TextField.tsx:12-13 | a field starts with its copy equal to the owner's value, unfocused |
| CommitOnBlur.React | Projects/Komplett.Ga.EventDocumentation/webapp/src/components/TextField.tsx:16-39 | typing and focusing change only the copy and the focus and call nothing; blur calls `onChange` exactly once with the copy, then `onBlur` once when one is given, and nothing else; a changed owner value replaces the copy, an unchanged one leaves the field alone |
| CommitOnBlur.TypingIsLocal | Projects/Komplett.Ga.EventDocumentation/webapp/src/components/JsonEditor.tsx:30-33 | while the user only focuses and types, the owner hears nothing and the copy holds the last text typed |
| CommitOnBlur.BlurThenEchoSyncs | Projects/Komplett.Ga.EventDocumentation/webapp/src/components/TextField.tsx:16-20 | an owner that stores the committed value and renders it back ends in agreement with the field |
| CommitOnBlur.SameRenderKeepsTyping | Projects/Komplett.Ga.EventDocumentation/webapp/src/components/TextField.tsx:16-20 | re-rendering with the owner's old value does not wipe out what the user typed |
| DotNet.Message | Projects/Komplett.Ga.EventDocumentation/Shared/BigQueryRepository.cs:90 | an argument exception's message starts with its text, and is exactly its text when no parameter is named |
| DotNet.ParameterSuffix | Projects/Komplett.Ga.EventDocumentation/Shared/BigQueryRepository.cs:90 | no parameter name adds nothing to the message |
| Repository.Setting | Projects/Komplett.Ga.EventDocumentation/Shared/BigQueryRepository.cs:27-29 | a present setting is used as it is, even when empty, and a missing one falls back |
| Repository.Create | Projects/Komplett.Ga.EventDocumentation/Shared/BigQueryRepository.cs:20-41 | without a service account the constructor throws the stated `InvalidOperationException`; otherwise it succeeds exactly when creating the client does, rethrows that error, and uses the configured table |
| Repository.DefaultTableWhenUnconfigured | Projects/Komplett.Ga.EventDocumentation/Shared/BigQueryRepository.cs:27-29 | with no table settings the table is `komplett-bigquery.ga_event_names.event_names` |
| Repository.QualifiedName | Projects/Komplett.Ga.EventDocumentation/Shared/BigQueryRepository.cs:47 | the table name is `project.dataset.table` of the repository's table path, between backquotes |
| Repository.RowToEvent | Projects/Komplett.Ga.EventDocumentation/Shared/BigQueryRepository.cs:55-62 | every text field of the event is the column's text, or `""` when the column is NULL, and `deprecated` stays unset |
| Repository.GetEvents | Projects/Komplett.Ga.EventDocumentation/Shared/BigQueryRepository.cs:43-79 | one event per row, in row order; a failed query becomes an `ApplicationException` around the cause, whose message says BigQuery exactly when the cause is a Google API error |
| Repository.UpdateCommand | Projects/Komplett.Ga.EventDocumentation/Shared/BigQueryRepository.cs:93-110 | the statement updates the repository's table keyed on the event name; it sets exactly description, format, type and tags, each from its own parameter, and binds exactly those four parameters plus the event name; with exactly format and tags parsed as JSON; every parameter carries its field's value, a null one as `""` |
| Repository.UpdateCommandWellBound | Projects/Komplett.Ga.EventDocumentation/Shared/BigQueryRepository.cs:93-110 | every parameter the statement refers to is bound exactly once, and nothing else is bound |
| Repository.UpdateEvent | Projects/Komplett.Ga.EventDocumentation/Shared/BigQueryRepository.cs:81-126 | a null event and a nameless event are refused with their argument exceptions before any statement; otherwise the statement for the event runs, and a failure is wrapped in an `ApplicationException` naming the event, worded by whether the cause is a Google API error |
| Repository.NamelessMessage | Projects/Komplett.Ga.EventDocumentation/Shared/BigQueryRepository.cs:88-91 | the refusal of a nameless event reports the stated reason at the start of its message |
| Repository.MissingJsonColumnsAreNotJson | Projects/Komplett.Ga.EventDocumentation/Shared/BigQueryRepository.cs:96-109 | a missing format or tag list is sent to `PARSE_JSON` as `""`, which is not JSON |
| UpdateHandler.Caught | Projects/Komplett.Ga.EventDocumentation/UpdateEvent/UpdateEvent.cs:57-66 | an argument exception, including a null-argument one, becomes 400 with its message, and anything else becomes 500 |
| UpdateHandler.RunAsync | Projects/Komplett.Ga.EventDocumentation/UpdateEvent/UpdateEvent.cs:23-67 | the repository is called once, exactly for a non-null body with a name; the result is 200 exactly when that call succeeds; each refusal has its own 400 message; the status is always 200, 400 or 500 |
| UpdateHandler.RepositoryOutcomes | Projects/Komplett.Ga.EventDocumentation/UpdateEvent/UpdateEvent.cs:53-55 | with the BigQuery repository an accepted event issues its UPDATE and gives 200 when it runs and 500 when it fails |
| UpdateHandler.ArgumentMessagePassesThrough | Tests/Komplett.Ga.EventDocumentation.Tests/UpdateEventTests.cs:93-114 | an argument exception without a parameter name reaches the caller as a 400 carrying exactly its message |

## Left out

- Seqs.Sort: stability is not stated. `Array.prototype.sort` is stable, but the model promises nothing about the relative order of events whose names compare equal under `localeCompare`, nor of equal tag badges.

- Fetching, HTTP hosting, authentication keys, dependency injection and the react-query cache are not modelled. The list, the tag bar and the summary are functions of the fetched data (`Option<seq<Event>>`); their loading and error screens are not modelled.
- Rendering and the DOM are not modelled. This covers Mantine components, the accordion, badge colours, and the focus-and-caret effect of `TextField` / `JsonEditor`, which only moves the caret.
- Logging (`console.error`, `ILogger`) has no observable effect on results and is dropped.
- The constructor null guards for the logger and the repository are not modelled: the dependency container never passes null.
- `GetEvents.cs` and `getEvents` are outside this model; the repository's `GetEventsAsync` is modelled.
- The BigQuery client is a parameter. Creating it (`connect`) and running a statement (`execute`) are functions whose outcomes the repository handles. The SQL text is a structured `UpdateStatement`, not a string.
- Deserialising the request body (`ReadFromJsonAsync`) is a parameter (`ReadOutcome`): an event, null, or the exception thrown.
- JsString.ToLowerCase: only ASCII letters are lower-cased. Full Unicode case mapping is not modelled, so `Tags.NormalizeTag` and `EventList.NameMatches` are exact for ASCII text only.
- JsString.Trim: strings are sequences of Unicode scalar values, so lone UTF-16 surrogates cannot occur.
- JsonParser.Parse: JSON numbers are kept as their literal text instead of being converted to doubles, so `1.0` and `1` are different values. `Views.ToJsString` writes a number as its literal, not as its shortest double form.
- JsonParser.Parse: duplicate object keys are kept in text order instead of the last one winning. Member order is kept as written, and integer-like keys are not reordered.
- JsonParser.Parse: a `\u` escape naming a lone surrogate half is rejected. A text that `JSON.parse` accepts but that holds such an escape is treated as unparsable.
- App.DistinctTags: only the string elements of each tag array become badges. The code's `concat` would also add numbers, booleans, nulls and nested values to the set. Badges are plain text.
- Views.TagsView: badges are sorted by the string form of each value. Non-string tags are kept, and React's duplicate-key behaviour for equal tags is not modelled.
- EventList.FilteredEvents: `localeCompare` is a parameter, any total preorder on names. The locale's collation tables are not modelled.
- Editor.Step: `JsonInput`'s format-on-blur and its invalid-JSON message are not modelled; the format text is stored as typed. The type selector only offers its two options, so any other type text cannot be chosen.
- Editor.Step: the component that owns the split variant's buffer is not part of the sources. Its initial buffer is taken to be the wired variant's default.
- Editor.Step: a save without a name rejects at once in the code. It is modelled as a save whose only possible settlement is a failure, so its brief loading flag lasts until that settlement arrives.
- Editor.RequestBody: the key order of the posted object follows the seed. Which keys the backend reads is decided by its deserialiser, which is a parameter.
- The rejection messages of `updateEvent` reach only the console, so they are not modelled.
- `safelyParseJson` is imported from `formatter.ts` by `Edit.tsx` and `Preview.tsx`, but that file does not define it. The definition in `EventItem.tsx` is used for both variants.
- Repository.GetEvents: the column values' `ToString()` is taken to be their text. A row's `deprecated` column is not read, as in the code.
