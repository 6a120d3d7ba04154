# MermaidUI core, modelled in Dafny

MermaidUI is a desktop and web editor for Mermaid diagrams. Diagrams are
grouped in collections and kept in SQLite, either through the Tauri
gateway (`src-tauri/src/database.rs`) or through an Express backend
(`backend/src/routes`). This project models the parts of it that carry
state and rules:

- **Resizable split** (`split.dfy`, module `Split`). The pane-visibility
  state machine has two toggles. The divider width is clamped into [20, 80].
  The drag handlers are methods on a `SplitPane` class.
- **Editor dirty flags and autosave** (`editor.dfy`, module `Editor`). The
  `DiagramEditor` class tracks a content flag and a name flag. An autosave
  timer is armed by an effect with an explicit dependency list. The
  handlers cover content edits, name edits, manual save, the timer going
  off, and a change of the selected diagram.
- **Export flow** (`export_menu.dfy`, module `Export`). The `ExportMenu`
  class holds the unsaved-changes guard and the status sequence
  idle → preparing → generating → complete | error. It also covers the
  error-message precedence, the download guard and the reset on close.
- **Application shell** (`app.dfy`, module `App`). The `AppState` class
  holds the collection list and the selection rules for fetching,
  creating, updating and deleting.
- **Sidebar** (`collections_browser.dfy`, module `Browser`). The
  `CollectionsBrowser` class keeps its diagram list in step with the
  selected diagram. It checks the upload extension, names new diagrams
  `New Diagram n`, and handles the two delete confirmations.
- **Store** (`database.dfy`, module `Store`). The `Database` class holds
  the collections and diagrams tables as maps from id to row. Each table
  has an AUTOINCREMENT counter, so ids are fresh and never reused. The
  class provides every gateway operation, including seeding a
  "Default Collection" into an empty store.
- **REST routes** (`routes.dfy`, module `Routes`). These are the
  collections and diagrams handlers over the same store. They cover
  request validation (400), not-found mapping (404), the `NOT NULL`
  failure of a partial update (500), the normalisation of a description to
  `NULL`, and the name an upload gets.
- **Release scripts**:
  - `version.dfy` (module `Version`) covers `parseVersion`, `bumpVersion`
    and `updateVersion`, with JavaScript's `split`, `Number`, `NaN` and
    `undefined` modelled explicitly.
  - `release.dfy` (module `Release`) covers `release.cjs`: the default
    bump type, the keyword check, the version computation and the tag
    name.
  - `toml.dfy` (module `CargoToml`) covers the rewrite of the first
    Cargo.toml version line, which both scripts share.

Shared pieces:

- `wrappers.dfy` defines `Option` and `Result`.
- `records.dfy` defines the two row types.
- `decimal.dfy` converts between numbers and decimal digit strings.
- `jstext.dfy` models JavaScript truthiness, ASCII case mapping and
  `trim` blanks.
- `mermaid_file.dfy` implements the `/\.(mmd|mermaid)$/i` rule, which both
  the upload button and the upload route use.

An asynchronous call is modelled by its outcome, passed as a parameter
(`ok`, `Result`, `Option`). Each handler runs as one atomic event. A clock
reading is a `now` parameter.

## Model

| member | source | states |
|---|---|---|
| Split.ToggleLeft | src/components/ResizableSplit.tsx:53-64 | hides the left pane only from `both`, and otherwise returns to `both`; it never yields left-only and always changes the state |
| Split.ToggleRight | src/components/ResizableSplit.tsx:66-77 | the mirror image: right-only and left-only map to `both`, and `both` maps to left-only |
| Split.NoDirectSinglePaneSwitch | src/components/ResizableSplit.tsx:53-77 | every toggle has `both` at one end, so left-only and right-only are never directly connected |
| Split.ToggleTwiceFromBoth | src/components/ResizableSplit.tsx:53-77 | the same toggle applied twice from `both` returns to `both` |
| Split.Clamp | src/components/ResizableSplit.tsx:29-31 | the result lies in [20, 80]; a width in range is kept; widths below 20 give 20 and widths above 80 give 80 |
| Split.ClampIdempotent | src/components/ResizableSplit.tsx:29-31 | clamping twice is clamping once |
| Split.OfferedToggles | src/components/ResizableSplit.tsx:87-166 | `both` offers the two divider toggles; left-only offers exactly the right-pane button and right-only exactly the left-pane button, and each of those leads back to `both` |
| Split.LeftPaneWidth | src/components/ResizableSplit.tsx:82-83 | the left pane is hidden exactly in right-only and fills 100% in left-only |
| Split.RightPaneWidth | src/components/ResizableSplit.tsx:184-186 | the right pane is hidden exactly in left-only and fills 100% in right-only |
| Split.VisibleWidthsFill | src/components/ResizableSplit.tsx:82-186 | in every state the visible panes add up to 100%, and in the split view a clamped width leaves each pane at least 20% wide |
| Split.SplitPane.constructor | src/components/ResizableSplit.tsx:14-18 | starts with both panes shown, not dragging, at the given width or 50 |
| Split.SplitPane.ToggleLeftPane | src/components/ResizableSplit.tsx:53-64 | visibility becomes `ToggleLeft` of the old one; width and drag flag are kept |
| Split.SplitPane.ToggleRightPane | src/components/ResizableSplit.tsx:66-77 | visibility becomes `ToggleRight` of the old one; width and drag flag are kept |
| Split.SplitPane.DividerMouseDown | src/components/ResizableSplit.tsx:87-93 | a drag starts only where a divider is rendered, which is in `both` |
| Split.SplitPane.MouseMove | src/components/ResizableSplit.tsx:22-31 | while dragging, the width becomes the clamped pointer width, which stays in [20, 80]; otherwise nothing changes |
| Split.SplitPane.MouseUp | src/components/ResizableSplit.tsx:34-36 | ends the drag and changes nothing else |
| Editor.DiagramEditor.RunAutoSaveEffect | src/components/DiagramEditor.tsx:96-113 | when a dependency changed, the timer is re-armed exactly when autosave is due and captures the current name flag; otherwise it is left alone |
| Editor.DiagramEditor.constructor | src/components/DiagramEditor.tsx:22-25 | name and content come from the diagram, both flags are clear and no timer is pending |
| Editor.DiagramEditor.ContentChange | src/components/DiagramEditor.tsx:54-57 | sets content and the overall flag, so Save is enabled, and leaves the name flag alone; it keeps the timer invariant and "name edit implies unsaved" |
| Editor.DiagramEditor.NameChange | src/components/DiagramEditor.tsx:59-63 | sets name and both flags, so a name edit always shows as unsaved and enables Save |
| Editor.DiagramEditor.SetAutoSave | src/components/DiagramEditor.tsx:75-78 | switching autosave off leaves no timer pending |
| Editor.DiagramEditor.Save | src/components/DiagramEditor.tsx:65-73 | sends id, the edited name and the content; success clears both flags and disables Save, and failure keeps them |
| Editor.DiagramEditor.AutoSaveTimerFires | src/components/DiagramEditor.tsx:80-92 | corrected: saves the content under the persisted name and never the edited one; success clears the overall flag only when no name edit is pending |
| Editor.DiagramEditor.AutoSaveTimerFiresAsWritten | src/components/DiagramEditor.tsx:80-92 | as written: the name test reads the flag captured when the timer was armed |
| Editor.DiagramEditor.DiagramChanged | src/components/DiagramEditor.tsx:34-39 | a different id reloads name and content, clears both flags and cancels the timer; the same id keeps the edits |
| Editor.StaleNameFlagScenario | src/components/DiagramEditor.tsx:80-113 | content edit, then name edit, then autosave success as written: the name edit is pending but the unsaved indicator is off |
| Editor.NameFlagScenario | src/components/DiagramEditor.tsx:80-92 | the same events with the corrected handler keep the unsaved indicator on |
| Export.DefaultFailure | src/components/ExportMenu.tsx:88-98 | the default message names the format in capitals: `Failed to export as SVG`, `… PNG` or `… PDF` |
| Export.FailureMessage | src/components/ExportMenu.tsx:86-98 | an error body's non-empty `details` wins over a non-empty `error`, which wins over the default; a non-JSON body gives "Export failed"; a thrown error gives its message or the default; never empty |
| Export.FailureMessageSources | src/components/ExportMenu.tsx:86-98 | a failure message always comes from the response or from the default text for the format |
| Export.SuggestedFileName | src/components/ExportMenu.tsx:109 | the diagram name, a dot and the format's extension |
| Export.ExportMenu.constructor | src/components/ExportMenu.tsx:17-24 | menu closed, no modal, no warning, status idle, no url, format or error |
| Export.ExportMenu.ToggleMenu | src/components/ExportMenu.tsx:164-168 | the button flips the menu and is inert while the modal is shown |
| Export.ExportMenu.PerformExport | src/components/ExportMenu.tsx:69-101 | the modal shows preparing, then generating, then complete with the url or error with the failure message |
| Export.ExportMenu.Export | src/components/ExportMenu.tsx:26-38 | closes the menu; with unsaved changes it only records the format and shows the warning, otherwise it exports |
| Export.ExportMenu.SaveAndExport | src/components/ExportMenu.tsx:40-54 | hides the warning; exports the pending format only after a successful save; always forgets the pending format |
| Export.ExportMenu.ExportAnyway | src/components/ExportMenu.tsx:56-62 | hides the warning and exports the pending format without saving |
| Export.ExportMenu.CancelExport | src/components/ExportMenu.tsx:64-67 | hides the warning and forgets the pending format |
| Export.ExportMenu.Close | src/components/ExportMenu.tsx:150-159 | hides the modal and resets status to idle, with no format, url or error |
| Export.ExportMenu.Download | src/components/ExportMenu.tsx:103-137 | does nothing without both a url and a format; otherwise it proposes `name.ext`; after a path was chosen and written it closes like `handleClose` (modal hidden, status idle, format, url and error cleared), and otherwise nothing changes |
| App.WithoutId | src/App.tsx:88-90 | keeps exactly the entries whose id differs |
| App.WithoutIdAppend | src/App.tsx:88-90 | filtering distributes over concatenation, so order is kept |
| App.WithoutIdAbsent | src/App.tsx:88-90 | removing an id that is not listed changes nothing |
| App.WithoutIdIdempotent | src/App.tsx:88-90 | removing twice is removing once |
| App.AppState.constructor | src/App.tsx:11-14 | empty list and no selection |
| App.AppState.FetchCollections | src/App.tsx:21-31 | a load replaces the list and selects its first entry only when nothing is selected; a failed load changes nothing |
| App.AppState.SelectCollection | src/App.tsx:33-36 | selects the collection and clears the selected diagram |
| App.AppState.SelectDiagram | src/App.tsx:38-40 | selects the diagram |
| App.AppState.DiagramCreate | src/App.tsx:42-55 | the created record becomes the selection; an error leaves the selection and is passed on |
| App.AppState.DiagramUpdate | src/App.tsx:57-70 | the updated record becomes the selection; an error leaves it and is passed on |
| App.AppState.CollectionCreate | src/App.tsx:72-82 | the created collection is appended and selected; an error changes nothing |
| App.AppState.CollectionDelete | src/App.tsx:84-105 | a confirmed delete removes that id from the list; when the deleted collection was selected, the first remaining collection (or none, if the list is now empty) becomes the selection and the diagram is cleared, and otherwise both selections stay; any other outcome alerts and changes nothing |
| App.AppState.DiagramDelete | src/App.tsx:107-121 | a confirmed delete clears the selected diagram only when it was that one; any other outcome alerts |
| Browser.ReplaceById | src/components/CollectionsBrowser.tsx:53-61 | same length; each entry with the record's id becomes the record and the others stay |
| Browser.ReplaceByIdIdempotent | src/components/CollectionsBrowser.tsx:53-61 | replacing twice is replacing once |
| Browser.ReplaceByIdAbsent | src/components/CollectionsBrowser.tsx:53-61 | a record whose id is not listed leaves the list unchanged |
| Browser.NewDiagramName | src/components/CollectionsBrowser.tsx:116 | `New Diagram ` followed by the decimal digits of list length plus one |
| Browser.NewDiagramNameInjective | src/components/CollectionsBrowser.tsx:116 | different list lengths give different names |
| Browser.CollectionsBrowser.constructor | src/components/CollectionsBrowser.tsx:36-44 | empty list, empty form, nothing pending |
| Browser.CollectionsBrowser.SelectedDiagramChanged | src/components/CollectionsBrowser.tsx:53-61 | the list entry with the selected diagram's id is replaced by it |
| Browser.CollectionsBrowser.DiagramsFetched | src/components/CollectionsBrowser.tsx:63-70 | a load replaces the list and a failed load keeps it |
| Browser.CollectionsBrowser.StartUpload | src/components/CollectionsBrowser.tsx:72-86 | nothing happens without a file and a collection; a name without `.mmd` or `.mermaid` is refused; otherwise a create request is made with the stripped name and the file's text |
| Browser.CollectionsBrowser.FinishUpload | src/components/CollectionsBrowser.tsx:86-99 | the upload flag is cleared whatever the outcome, and the created diagram is selected |
| Browser.CollectionsBrowser.CreateCollection | src/components/CollectionsBrowser.tsx:102-112 | a blank name after `trim` sends nothing; success clears and hides the form, and failure keeps it |
| Browser.CollectionsBrowser.CreateDiagram | src/components/CollectionsBrowser.tsx:114-131 | needs a collection and a handler; sends `New Diagram n` with the template content and selects the created record |
| Browser.CollectionsBrowser.AskDeleteDiagram | src/components/CollectionsBrowser.tsx:315 | records the diagram to confirm |
| Browser.CollectionsBrowser.ConfirmDeleteDiagram | src/components/CollectionsBrowser.tsx:143-152 | calls the parent delete handler on the pending id when a collection is selected; once the handler resolves, the list is reloaded and the confirmation cleared, and a rejecting handler leaves both as they were |
| Browser.CollectionsBrowser.AskDeleteCollection | src/components/CollectionsBrowser.tsx:247 | records the collection to confirm |
| Browser.CollectionsBrowser.ConfirmDeleteCollection | src/components/CollectionsBrowser.tsx:133-141 | calls the parent delete handler on the pending id; the confirmation is cleared once the handler resolves and kept when it rejects |
| MermaidFile.HasMermaidExtension | src/components/CollectionsBrowser.tsx:76 | the name ends in `.mmd` or `.mermaid` in any letter case |
| MermaidFile.StripMermaidExtension | backend/src/routes/diagrams.ts:104 | the result is a prefix of the name; it is shorter exactly when the name has the extension, and then the removed part is that extension |
| MermaidFile.MermaidIsNotMmd | src/components/CollectionsBrowser.tsx:84 | the two alternatives never both match at the end |
| MermaidFile.StripAppendedExtension | src/components/CollectionsBrowser.tsx:84 | a base name with one extension appended, in any case, strips back to the base |
| MermaidFile.StripExample | backend/src/routes/diagrams.ts:104 | `foo.mmd` becomes `foo` |
| Store.Database.constructor | src-tauri/src/database.rs:49-79 | empty tables and counters at 0 |
| Store.Database.Init | src-tauri/src/database.rs:81-93 | seeds the default collection exactly when the table is empty; afterwards the table is never empty |
| Store.Database.GetAllCollections | src-tauri/src/database.rs:98-116 | every stored collection appears, each as stored and at most once |
| Store.Database.GetCollection | src-tauri/src/database.rs:118-139 | the row with that id, or none exactly when there is no such row |
| Store.Database.CreateCollection | src-tauri/src/database.rs:141-151 | inserts under a fresh id, never used before, and returns that row |
| Store.Database.UpdateCollection | src-tauri/src/database.rs:153-162 | a missing id is `QueryReturnedNoRows` and changes nothing; otherwise it replaces name and description and keeps the creation time |
| Store.Database.DeleteCollection | src-tauri/src/database.rs:164-168 | reports whether a row was removed; the collection's diagrams stay |
| Store.Database.GetDiagramsByCollection | src-tauri/src/database.rs:170-189 | exactly the diagrams of that collection, each once |
| Store.Database.GetDiagram | src-tauri/src/database.rs:191-213 | the row with that id, or none exactly when there is no such row |
| Store.Database.CreateDiagram | src-tauri/src/database.rs:215-225 | inserts under a fresh id without checking the collection |
| Store.Database.UpdateDiagram | src-tauri/src/database.rs:227-236 | a missing id is an error and changes nothing; otherwise it replaces name and content and keeps collection and creation time |
| Store.Database.DeleteDiagram | src-tauri/src/database.rs:238-242 | reports whether a row was removed |
| Store.CreateThenGet | src-tauri/src/database.rs:141-151 | a created collection reads back as the same record under an id no earlier row had |
| Store.DeleteScenario | src-tauri/src/database.rs:170-242 | after two creates and one delete, the listing holds only the surviving diagram, which is still readable |
| Routes.NormalizeDescription | backend/src/routes/collections.ts:42 | a falsy description becomes NULL and a truthy one is kept |
| Routes.NormalizeDescriptionIdempotent | backend/src/routes/collections.ts:42 | normalising twice is normalising once |
| Routes.CreateDiagramRejection | backend/src/routes/diagrams.ts:42-44 | the 400 message exactly when one of the collection id, name or content is falsy |
| Routes.UploadedCollectionId | backend/src/routes/diagrams.ts:99-108 | a decimal numeral in the form field is stored as its value |
| Routes.UploadedCollectionIdOfNumeral | backend/src/routes/diagrams.ts:99-108 | the field `n` stores id `n` |
| Routes.UploadName | backend/src/routes/diagrams.ts:104 | the name is a prefix of the file name, shorter exactly when the file name has the extension |
| Routes.ListCollections | backend/src/routes/collections.ts:8-15 | 200 with every collection, each as stored |
| Routes.GetCollection | backend/src/routes/collections.ts:18-31 | 404 exactly for a missing id, else 200 with the row |
| Routes.CreateCollection | backend/src/routes/collections.ts:34-52 | 400 "Name is required" exactly for a falsy name, storing nothing; else 201 with a fresh row holding the normalised description |
| Routes.UpdateCollection | backend/src/routes/collections.ts:55-73 | 404 for a missing id; 500 for a missing name on an existing row; neither changes anything; else 200 with the new name and description |
| Routes.DeleteCollection | backend/src/routes/collections.ts:76-86 | 404 exactly when no row was removed, else success; diagrams stay |
| Routes.ListDiagrams | backend/src/routes/diagrams.ts:10-20 | 200 with exactly the collection's diagrams |
| Routes.GetDiagram | backend/src/routes/diagrams.ts:23-36 | 404 exactly for a missing id, else 200 with the row |
| Routes.CreateDiagram | backend/src/routes/diagrams.ts:39-57 | 400 exactly when a field is falsy, storing nothing; else 201 with a fresh row whose name and content are non-empty and whose collection id is non-zero |
| Routes.UpdateDiagram | backend/src/routes/diagrams.ts:60-78 | 404 for a missing id; 500 when name or content is missing on an existing row; neither changes anything; else 200 with the new name and content |
| Routes.DeleteDiagram | backend/src/routes/diagrams.ts:81-91 | 404 exactly when no row was removed, else success |
| Routes.UploadDiagram | backend/src/routes/diagrams.ts:94-118 | no file gives 400, then a falsy collection id gives 400, neither storing anything; else 201 with a diagram named after the stripped file name holding its text |
| Routes.UploadExample | backend/src/routes/diagrams.ts:94-118 | uploading `foo.mmd` to collection "3" creates `foo` in collection 3 |
| CargoToml.RunLength | scripts/version.js:55 | the longest run of `[\d.]` characters from a position |
| CargoToml.FirstMatch | scripts/version.js:55 | the leftmost position where the pattern matches, with no match before it; none when no position matches |
| CargoToml.ReplaceVersionLine | scripts/version.js:53-57 | without a match the text is unchanged; otherwise the text before the first matching line is kept, that line becomes `version = "<v>"`, and everything after it is kept |
| CargoToml.MatchBeforeLineLocal | scripts/version.js:55 | whether the pattern matches before a line start depends only on the text before it |
| CargoToml.ReplacedLineIsFirstMatch | scripts/version.js:55 | with a proper version text, the rewritten line is still the first match and spans exactly the new line |
| CargoToml.ReplaceVersionLineIdempotent | scripts/release.cjs:101-104 | rewriting twice with the same proper version is rewriting once |
| Version.SplitDots | scripts/version.js:23 | at least one part, and no part contains a dot |
| Version.JoinSplitDots | scripts/version.js:23 | joining the parts with dots gives back the text |
| Version.SplitJoinDots | scripts/version.js:23 | splitting the join of dot-free parts gives back the parts |
| Version.SplitHasSecondPart | scripts/version.js:23-24 | there is a second part exactly when the text has a dot |
| Version.NumberOf | scripts/version.js:23 | a digit string, including the empty one, is its value; anything else is NaN |
| Version.PlusOne | scripts/version.js:32-36 | a number goes up by one; NaN and undefined give NaN |
| Version.ParseVersion | scripts/version.js:22-25 | major is never undefined; minor is undefined exactly when there is no dot |
| Version.ParseRender | scripts/version.js:22-25 | parsing a rendered `M.m.p` gives back its three numbers |
| Version.RenderIsLiteral | scripts/version.js:39 | every rendered version matches `^\d+\.\d+\.\d+$` |
| Version.BumpVersion | scripts/version.js:27-44 | a keyword always succeeds; otherwise a version literal is returned unchanged, and anything else is the "Invalid version type" error, in both directions |
| Version.Bump | scripts/version.js:30-36 | the chosen component goes up by one, higher ones are kept and lower ones reset to 0, so the result is strictly later |
| Version.BumpVersionOfRendered | scripts/version.js:30-36 | on a well-formed version, a keyword bump is the semantic-version bump |
| Version.BumpVersionToLiteral | scripts/version.js:37-41 | an explicit version replaces any current version |
| Version.RenderIsNotKeyword | scripts/version.js:30-41 | a version literal is never one of the three keywords |
| Version.UsageExamples | scripts/version.js:8-10 | 1.0.0 becomes 1.0.1, 1.1.0 and 2.0.0 |
| Version.PatchOfTwoPartVersion | scripts/version.js:22-36 | a two-part version has an undefined patch, so a patch bump of `1.2` gives `1.2.NaN` |
| Version.ProjectFiles.constructor | scripts/version.js:78-80 | holds the three files' version fields as given |
| Version.ProjectFiles.UpdateVersion | scripts/version.js:59-76 | both JSON version fields become the new version and the first Cargo.toml version line is rewritten |
| Version.RunVersionScript | scripts/version.js:83-106 | a falsy argument shows the usage and an invalid one the error, both leaving the files alone; otherwise the files get the bumped version |
| Release.Tag | scripts/release.cjs:27 | `v` followed by the version |
| Release.BumpType | scripts/release.cjs:62 | a missing or empty first argument means `patch`; any other first argument is taken as given |
| Release.NewVersionAgreesWithBumpVersion | scripts/release.cjs:77-89 | for the three keywords the release computes what `bumpVersion` computes |
| Release.NewVersionOfRendered | scripts/release.cjs:77-89 | on a well-formed version, higher components are kept and lower ones reset to 0 |
| Release.ExplicitVersionRejected | scripts/release.cjs:64-69 | an explicit version as the first argument is not a bump type |
| Release.RunRelease | scripts/release.cjs:20-121 | `--retag` anywhere names tag `v<current>` and changes no file; a non-keyword shows the usage and changes nothing; otherwise the three files get the new version and the release is tagged with it |
| Release.DefaultReleaseExample | scripts/release.cjs:62-121 | with no argument, 1.0.0 is released as 1.0.1 under tag v1.0.1 |

## Left out

- I/O of every kind: HTTP transport, Tauri IPC, the native save dialog, file reads and writes, `alert`, console output, the git commands of both scripts and JSON pretty-printing. Each appears only as an outcome parameter or a changed field.
- Timers: the 2000 ms autosave debounce and the 300 ms delays in the export flow. The autosave timer is an armed flag with an explicit firing event.
- Export rendering itself (the headless browser, HTML host page, screenshot and PDF capture), and the download fallback path with its second fetch. An export is an opaque `ExportResponse`.
- The preview, the zoom controls and the pointer-to-percent width computation, which use DOM floating point. The clamp is applied to an arbitrary real width.
- The localStorage persistence of the autosave preference.
- Concurrency: each handler is atomic, so interleavings of in-flight requests and races between manual save and autosave are not modelled.
- List order: the `ORDER BY created_at DESC` ordering sorts on second-resolution timestamps and ties are unordered. Store listings are therefore stated as membership without duplicates, and the model reads them in id order.
- Store.Database: internal store failures, such as I/O errors and a locked database, and the 500 responses they cause are not modelled. The only store error is a missing row.
- Routes.UploadedCollectionId: a form value that is not a decimal numeral is stored by SQLite as text. The model stores such values as collection id 0, which no collection has. A JSON body's `collection_id` is modelled as an integer only.
- Routes.GetDiagram: a path id is the integer it is compared as. A non-numeric path id matches no row, like an absent id.
- Version.NumberOf: every part that is not a plain digit string is NaN. JavaScript's `Number` also reads signs, exponents, hex prefixes, `Infinity` and surrounding whitespace.
- CargoToml.ReplaceVersionLine: the replacement text is inserted literally. JavaScript would expand `$` patterns in it, but no version the scripts compute contains `$`.
- Cascade deletes and orphan checks: the schema declares `ON DELETE CASCADE`, but the Express backend never enables foreign keys, and diagram creation does not check its collection. That backend therefore deletes no diagrams with their collection and accepts any collection id. The model follows it and does not claim a cascade.
- Store.Database.DeleteCollection and Store.Database.CreateDiagram: the desktop gateway (src-tauri/src/database.rs) does not set the foreign-key pragma either, so the model assumes enforcement is off there too. Whether it is depends on the SQLite build that rusqlite links, and src-tauri/Cargo.toml is not part of this model. A build compiled with foreign keys on by default would delete a collection's diagrams with it and refuse a diagram whose collection does not exist. The model promises neither.
- Version.NumberOf, Version.PlusOne and Version.Show: version parts are unbounded naturals. JavaScript computes them as doubles, so a part above 2^53 loses precision and a result of 1e21 or more prints in exponent form (`1e+21`). The model does not capture either effect.
- Routes.CreateCollection, Routes.CreateDiagram, Routes.UpdateCollection and Routes.UpdateDiagram: a JSON `name`, `description` or `content` of a type other than string is treated as absent. The handlers test only truthiness, and node-sqlite3 binds a number as a value. So the code accepts a body such as `{"name": 5}` (201 on create, 200 on update) and stores the value, where the model answers 400 on create and 500 on update.
- Where the design description and the code disagree, the model follows the code. This covers the cascade above and the stale name flag under Findings.

## Findings

| source | as written | input that shows it | evidently intended | confidence | as-written member | corrected member |
|---|---|---|---|---|---|---|
| src/components/DiagramEditor.tsx:80-113 | the autosave callback tests `hasNameChanges` through the closure made when the effect last ran. `hasNameChanges` is not in the effect's dependency list, so a name edit made after the timer was armed is not seen | with autosave on, edit the content, then edit the name within 2 s; the autosave succeeds | a pending name edit keeps the unsaved indicator and the Save button on after a successful content autosave | not executed | Editor.StaleNameFlagScenario | Editor.DiagramEditor.AutoSaveTimerFires |
