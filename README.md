# AkelPaste, modelled in Dafny

AkelPaste is a desktop clipboard-template manager built on Electron. The user
keeps text templates with a title, content, icon, optional global keyboard
shortcut and a "pinned" flag. Templates can be pasted through a global
shortcut or from a small always-on-top floating window that lists the
pinned ones.

This project models the core of both processes and proves properties of the
model:

- **Main process** (`src/main/index.ts`).
  - The zero-or-one floating window slot and its IPC handlers.
  - The window events that the host delivers asynchronously.
  - The rebuild of the global shortcut table, with its duplicate, format and
    error handling.
  - The 300 ms debounce of a firing shortcut.
- **Renderer.**
  - The floating-window service that keeps a belief about that window.
  - The floating page's sizing, filtering and reload decisions.
  - The shortcut recorder's key handling and validation chain.
  - The template editor's normalisation on save.
  - The application's template list operations and search.
  - The custom-emoji naming round trip.
  - The dotted-key translation lookup.
  - The language configuration editor.
  - The local-storage data manager with its backup rotation.

## Modelling choices

- **State.** State the source mutates in place is a Dafny `class`:
  - the module-level variables of the main process;
  - the floating-window service;
  - the recorder, the editor form and the application's template list;
  - the language manager;
  - `localStorage`.

  Its methods carry `modifies` clauses and state their whole new state.
- **Loops.** Loops of the source are `while` loops proved against a
  specification function:
  - the shortcut rebuild, against `ShortcutTable.RebuildPrefix`;
  - the listener broadcast;
  - the template update;
  - the translation walk;
  - the language lookup.
- **Windows** are numbered by the `BrowserWindow` construction that made
  them.
- **Asynchronous host events** are separate methods, so any interleaving is
  a sequence of calls. These events are the floating window's 'closed' and
  'did-finish-load'.
- **Outside answers are parameters.** A parameter stands for each of these
  answers the code awaits or depends on:
  - the OS's answer to each shortcut registration (`Bound`, `Refused`, or
    an exception);
  - each IPC reply seen by the renderer;
  - the success of a `setItem` or of the configuration file write;
  - whether `setSize` throws;
  - the time.
- **Strings** are `seq<char>`.
  - `trim`, `toUpperCase` and `toLowerCase` are modelled over ASCII (module
    `Strings`).
  - Template ids and custom emoji numbers use the decimal rendering
    `Common.NatToString`, which is proved injective.
- **JSON text** is modelled by what parsing it yields. There are three
  cases:
  - the empty string;
  - text that does not parse to an object;
  - a parsed document.

## Model

| member | source | states |
|---|---|---|
| Common.ShortcutOf | src/main/index.ts:322-326 | The shortcut reads as empty exactly when it is absent or the empty string; a non-empty reading is the stored shortcut. |
| Common.NatToString | src/renderer/src/App.tsx:120 | The decimal rendering is a non-empty string of digits, one digit exactly below 10, at least three from 100. |
| Common.ParseNatToString | src/renderer/src/App.tsx:120 | Reading the decimal rendering back gives the number: the rendering has an inverse. |
| Common.NatToStringInjective | src/renderer/src/App.tsx:120 | Templates added at distinct clock values get distinct ids. |
| Common.EmptyContained | src/renderer/src/App.tsx:150-153 | Every string includes the empty string. |
| Common.Pinned | src/renderer/src/services/floatingWindowService.ts:153 | The filter keeps exactly the pinned templates of the list. The result is empty exactly when none is pinned. |
| Common.PinnedAppend | src/renderer/src/components/FloatingTemplates/FloatingTemplates.tsx:144 | The filter distributes over concatenation, so it keeps list order. |
| Common.PinnedKeepsPinnedList | src/renderer/src/components/FloatingTemplates/FloatingTemplates.tsx:144 | A list of pinned templates passes unchanged, so filtering twice is filtering once. |
| ShortcutTable.AttemptsWellFormed | src/main/index.ts:321-340 | The OS is asked only about template indices below the prefix, in increasing order. |
| ShortcutTable.AbortFreezes | src/main/index.ts:321-340 | After an exception from the OS call, later templates change neither the table nor the bindings. Also models lines 427-430. |
| ShortcutTable.NoThrowNoAbort | src/main/index.ts:321-426 | If no OS call throws, the pass runs to the end and is not aborted. |
| ShortcutTable.KeysDistinct | src/main/index.ts:329-332 | Whatever the OS answers, no accelerator is recorded twice in the table. |
| ShortcutTable.StepEntries | src/main/index.ts:321-424 | One iteration appends exactly the entry of its template when the loop's guards pass and the OS binds, and nothing otherwise. |
| ShortcutTable.StepKeepsBindingsMatch | src/main/index.ts:340-423 | One iteration keeps the OS bindings in step with the table: same accelerators, each bound to the template recorded under it. |
| ShortcutTable.BindingsMatchEntries | src/main/index.ts:315-424 | After any prefix of the loop, the OS holds a callback exactly for the table's accelerators, each capturing the template recorded there. |
| ShortcutTable.EntriesAreEligible | src/main/index.ts:322-338 | Every table entry is the shortcut and id of an earlier template with a '+'-containing shortcut that the OS accepted. Also models lines 418-419. |
| ShortcutTable.ClaimedIff | src/main/index.ts:321-424 | The table's accelerators are exactly the eligible shortcuts the OS accepted, both directions. |
| ShortcutTable.RecordsIffWins | src/main/index.ts:321-424 | Without exceptions, iteration j records its template exactly when it is the first accepted claimant of its shortcut. |
| ShortcutTable.EntriesFromWinners | src/main/index.ts:321-424 | Without exceptions, every table entry is the entry of the first template whose shortcut the OS accepted. |
| ShortcutTable.WinnersRecorded | src/main/index.ts:321-424 | Without exceptions, the first template whose shortcut the OS accepted is always in the table; with the row above, first wins in both directions. |
| ShortcutTable.AttemptsIff | src/main/index.ts:322-340 | Template j is submitted to the OS exactly when it is eligible and its shortcut was not already claimed. |
| ShortcutTable.CountIsSuccesses | src/main/index.ts:426 | `registeredCount` equals the number of OS calls that bound. |
| ShortcutTable.RegisterAll | src/main/index.ts:321-424 | The loop over the templates builds the same table, OS bindings and abort flag as the specification fold, so every property proved of the fold holds of the loop. |
| ShortcutTable.EmptyListRegistersNothing | src/main/index.ts:321-426 | An empty list leaves an empty table and no bindings, makes no OS call and is not aborted. |
| ShortcutTable.Debounce | src/main/index.ts:341-348 | A delivered firing records its time for that shortcut only; a swallowed one leaves every time as it was. |
| ShortcutTable.SecondFiringSwallowed | src/main/index.ts:341-348 | A second firing less than 300 ms after a delivered one is swallowed and leaves the times unchanged. |
| ShortcutTable.SpacedFiringsDelivered | src/main/index.ts:341-348 | Two firings at least 300 ms apart are both delivered. |
| ShortcutTable.FirstFiringDelivered | src/main/index.ts:342-345 | A shortcut never fired before is delivered once the clock is at least 300. |
| MainProcess.ResizeGuard | src/main/index.ts:89-99 | The size after the guard is at most 500 on both sides. It differs from the size given exactly when that size was too large, and then it is exactly the initial 250×150. |
| MainProcess.ResizeGuardIdempotent | src/main/index.ts:89-99 | A size the guard produced passes the guard unchanged. |
| MainProcess.MainState.constructor | src/main/index.ts:1-12 | Start state: no floating window, empty tables; the invariant holds. |
| MainProcess.MainState.IsOpen | src/main/index.ts:248-250 | Reports open exactly when the held window is not destroyed, which under the invariant is when any floating window is live. |
| MainProcess.MainState.NewWindow | src/main/index.ts:193-197 | A fresh window becomes the only live one and the held one, at the initial size. |
| MainProcess.MainState.ShowFloating | src/main/index.ts:191-203 | An empty slot gets a new window; a held live window is focused; a held destroyed window makes the call reject. The invariant holds throughout. |
| MainProcess.MainState.CloseFloating | src/main/index.ts:205-212 | A held live window is closed and the slot emptied; its 'closed' event becomes pending. Closing a destroyed one rejects and changes nothing. Also models lines 239-246. |
| MainProcess.MainState.CreateFloating | src/main/index.ts:214-237 | A new window gets the list once it has loaded. A held live window gets a non-empty list at once. A destroyed held window rejects. |
| MainProcess.MainState.OnFinishLoad | src/main/index.ts:223-227 | The one-shot listener sends its captured list to whichever window is held then, when that window is live and the list is non-empty. |
| MainProcess.MainState.UpdateFloating | src/main/index.ts:252-260 | It succeeds exactly when a live window is held, and that window then receives the list. |
| MainProcess.MainState.ResizeFloatingWindow | src/main/index.ts:275-287 | A resize of a live window stores the requested size after the runaway guard. A failed or throwing resize changes no size. |
| MainProcess.MainState.HostClosesWindow | src/main/index.ts:195-197 | A window closed from outside is no longer live and its 'closed' event is pending; the slot still holds it. |
| MainProcess.MainState.OnClosed | src/main/index.ts:195-197 | The corrected listener empties the slot only if it holds the closed window, and keeps the invariant. Also models lines 218-220. |
| MainProcess.MainState.OnClosedAsWritten | src/main/index.ts:195-197 | The listener as written empties the slot whichever window closed. Also models lines 218-220. |
| MainProcess.MainState.OnMainWindowClosed | src/main/index.ts:34-39 | A live held floating window is destroyed and the slot emptied; otherwise nothing changes. |
| MainProcess.MainState.ForceCleanup | src/main/index.ts:457-470 | The OS forgets every accelerator and the slot is emptied. A live window is destroyed without its listeners. The table itself is kept. Also models lines 475-488. |
| MainProcess.MainState.BeforeQuit | src/main/index.ts:456-471 | Exactly the cleanup's new state: no binding, no window, the held window's pending events dropped, and everything else kept. |
| MainProcess.MainState.WindowAllClosed | src/main/index.ts:474-492 | Exactly the cleanup's new state, as for quitting; quitting itself is outside the model. |
| MainProcess.MainState.RegisterGlobalShortcuts | src/main/index.ts:304-431 | The table and bindings are those of the specification pass over the list. The reply is a failure on an abort or a missing list, otherwise the table's size. The list is stored and pushed to a live window. |
| MainProcess.MainState.UnregisterGlobalShortcuts | src/main/index.ts:433-443 | Table and bindings become empty; the debounce times and everything else stay. |
| MainProcess.MainState.GetRegisteredShortcuts | src/main/index.ts:445-450 | Returns the table in insertion order; its accelerators are distinct. |
| MainProcess.MainState.RequestTemplatesData | src/main/index.ts:263-265 | Returns the last stored list. |
| MainProcess.MainState.CopyToClipboard | src/main/index.ts:268-272 | The clipboard holds the text and nothing else changes. |
| MainProcess.MainState.Fire | src/main/index.ts:340-363 | The decision and the new times are the debounce function's. A delivered firing copies the captured template's content and notifies the main window; a swallowed one changes nothing. |
| MainProcess.OrphanedWindowAsWritten | src/main/index.ts:195-197 | With the listener as written, the trace show, close, show, then the first window's 'closed' event leaves window 1 live, the slot empty and is-open false. Also models lines 205-212. |
| MainProcess.SameTraceCorrected | src/main/index.ts:191-212 | With the corrected listener the same trace keeps window 1 held, live and reported open. |
| WindowService.IsOpenAnswer | src/renderer/src/services/floatingWindowService.ts:35-46 | The answer is open exactly when the bridge has the function and the call answered true. A thrown call reads as closed. |
| WindowService.Remove | src/renderer/src/services/floatingWindowService.ts:20-22 | Exactly the other listeners remain, and removing an absent one changes nothing. |
| WindowService.BroadcastReachesListeners | src/renderer/src/services/floatingWindowService.ts:28-30 | A broadcast reaches exactly the listeners in the set, each exactly once, all with the same state. |
| WindowService.RemoveKeepsDistinct | src/renderer/src/services/floatingWindowService.ts:20-22 | Deleting keeps the listener set free of duplicates. |
| WindowService.FloatingWindowService.constructor | src/renderer/src/services/floatingWindowService.ts:8-12 | The belief starts false with no listeners. |
| WindowService.FloatingWindowService.GetIsActive | src/renderer/src/services/floatingWindowService.ts:197-199 | Returns the current belief. |
| WindowService.FloatingWindowService.Subscribe | src/renderer/src/services/floatingWindowService.ts:14-23 | The listener joins the set (no duplicate) and is called once with the current belief. |
| WindowService.FloatingWindowService.Unsubscribe | src/renderer/src/services/floatingWindowService.ts:20-22 | Only that listener leaves the set. |
| WindowService.FloatingWindowService.NotifyListeners | src/renderer/src/services/floatingWindowService.ts:28-30 | Every listener is told the belief, in set order. |
| WindowService.FloatingWindowService.SyncState | src/renderer/src/services/floatingWindowService.ts:51-57 | The belief becomes the queried answer; listeners hear of it only when it changed. |
| WindowService.FloatingWindowService.UpdateWindow | src/renderer/src/services/floatingWindowService.ts:92-116 | Success exactly on a successful reply. Success makes the belief true and tells listeners only when it was false. Failure re-queries. |
| WindowService.FloatingWindowService.CreateWindow | src/renderer/src/services/floatingWindowService.ts:62-87 | An existing window turns the request into an update, with the update's calls, belief and deliveries. Otherwise a successful create makes the belief true and tells every listener; a refused, failed or missing create changes neither belief nor deliveries. |
| WindowService.FloatingWindowService.CloseWindow | src/renderer/src/services/floatingWindowService.ts:121-147 | Success, or a bridge without the function, makes the belief false and tells every listener. A refused or failed close re-queries. |
| WindowService.FloatingWindowService.ManageWindow | src/renderer/src/services/floatingWindowService.ts:152-192 | Per branch, the calls, the new belief and the deliveries: the pinned templates update an open window (as the update does) or are created (a successful create tells every listener). Otherwise an open window is closed (success or a missing bridge tells every listener) or a stale belief is dropped. |
| WindowService.FloatingWindowService.ForceCloseAll | src/renderer/src/services/floatingWindowService.ts:204-216 | The close request is made, the final query decides the belief, and listeners hear the close, then the final change if there was one. |
| Strings.Trim | src/renderer/src/components/TemplateEditor/TemplateEditor.tsx:74-84 | The trimmed string has no white space at either end. |
| Strings.TrimStart | src/renderer/src/components/TemplateEditor/TemplateEditor.tsx:81 | The result is a suffix of the input; everything dropped is white space, and the result does not start with white space. |
| Strings.TrimEnd | src/renderer/src/components/TemplateEditor/TemplateEditor.tsx:81 | The result is a prefix of the input; everything dropped is white space, and the result does not end with white space. |
| Strings.TrimRemovesOnlyWhite | src/renderer/src/components/TemplateEditor/TemplateEditor.tsx:81-84 | The trimmed string is a slice of the input with only white space around it. |
| Strings.TrimmedFixed | src/renderer/src/components/TemplateEditor/TemplateEditor.tsx:81-84 | A string without white space at its ends trims to itself. |
| Strings.TrimIdempotent | src/renderer/src/components/TemplateEditor/TemplateEditor.tsx:81-84 | Trimming twice is trimming once. |
| Strings.TrimEmptyIff | src/renderer/src/components/TemplateEditor/TemplateEditor.tsx:74 | A string trims to the empty string exactly when it is all white space. |
| Strings.UpperChar | src/renderer/src/components/TemplateEditor/ShortcutRecorder.tsx:37 | An upper-cased character is never a lower-case ASCII letter. |
| Strings.LowerChar | src/renderer/src/App.tsx:151-152 | A lower-cased character is never an upper-case ASCII letter. |
| Strings.Upper | src/renderer/src/components/TemplateEditor/ShortcutRecorder.tsx:37 | Same length; no lower-case letter is left, non-letters are unchanged, and every character is the same letter up to case. |
| Strings.Lower | src/renderer/src/App.tsx:151-152 | Same length; no upper-case letter is left, non-letters are unchanged, and every character is the same letter up to case. |
| Strings.LowerIdempotent | src/renderer/src/App.tsx:151-152 | Lower-casing twice is lower-casing once. |
| Strings.LowerIgnoresCase | src/renderer/src/App.tsx:151-152 | An upper-cased string lower-cases like the original, so comparisons of lower-cased strings ignore case. |
| FloatingTemplates.ClampWidth | src/renderer/src/components/FloatingTemplates/FloatingTemplates.tsx:104 | The width asked for lies in [50, 500]. It is the content width less one pixel when that fits, else the nearer bound. |
| FloatingTemplates.ClampHeight | src/renderer/src/components/FloatingTemplates/FloatingTemplates.tsx:105 | The height asked for lies in [50, 400]. It is the content height when that fits, else the nearer bound. |
| FloatingTemplates.WidthOfThreeHundredOne | src/renderer/src/components/FloatingTemplates/FloatingTemplates.tsx:104 | Content 301 pixels wide asks for 300. |
| FloatingTemplates.ClampIdempotent | src/renderer/src/components/FloatingTemplates/FloatingTemplates.tsx:104-105 | Clamping a clamped size again changes nothing. |
| FloatingTemplates.RequestedSize | src/renderer/src/components/FloatingTemplates/FloatingTemplates.tsx:104-112 | The requested size is at most 500 by 400. |
| FloatingTemplates.RequestNeverTripsGuard | src/renderer/src/components/FloatingTemplates/FloatingTemplates.tsx:104-112 | No size the page requests is ever reset by the main process's runaway guard. |
| FloatingTemplates.Render | src/renderer/src/components/FloatingTemplates/FloatingTemplates.tsx:144-146 | The placeholder shows exactly when nothing is pinned. Otherwise the list shown is the non-empty pinned subset. |
| FloatingTemplates.RenderPinnedList | src/renderer/src/components/FloatingTemplates/FloatingTemplates.tsx:144-146 | A non-empty list of pinned templates is shown as it is. |
| FloatingTemplates.DisplayFieldsIgnored | src/renderer/src/components/FloatingTemplates/FloatingTemplates.tsx:75-78 | Changing only the icon or button settings never asks for a reload. |
| FloatingTemplates.OnStorage | src/renderer/src/components/FloatingTemplates/FloatingTemplates.tsx:66-84 | The settings change only for a `pinWindowSettings` event with a value, and then become that value. A reload is asked for exactly when the bridge has the function and a pin field differs from the settings before. |
| FloatingTemplates.RepeatedEventNoReload | src/renderer/src/components/FloatingTemplates/FloatingTemplates.tsx:66-84 | The same event a second time keeps the settings and never reloads. |
| FloatingTemplates.OtherEventsIgnored | src/renderer/src/components/FloatingTemplates/FloatingTemplates.tsx:66-70 | Events for other keys, or without a value, change nothing and never reload. |
| ShortcutRecorder.Modifiers | src/renderer/src/components/TemplateEditor/ShortcutRecorder.tsx:30-33 | Only modifier labels, one per held modifier, in strictly increasing Ctrl, Alt, Shift, Meta order. Each held modifier's label sits at the position that order gives it. |
| ShortcutRecorder.ModifiersHeld | src/renderer/src/components/TemplateEditor/ShortcutRecorder.tsx:30-33 | A label is recorded exactly when its modifier is held. |
| ShortcutRecorder.UpperIsNoLabel | src/renderer/src/components/TemplateEditor/ShortcutRecorder.tsx:37 | An upper-cased key never equals a modifier label. Also models line 54. |
| ShortcutRecorder.NonModifierIffMainKey | src/renderer/src/components/TemplateEditor/ShortcutRecorder.tsx:27-38 | The recorded list has a main key exactly when the event's key was not a modifier. Also models line 54. |
| ShortcutRecorder.JoinPlusIff | src/renderer/src/components/TemplateEditor/ShortcutRecorder.tsx:51 | The joined shortcut contains '+' exactly when at least two keys were joined or a key itself holds '+'. |
| ShortcutRecorder.Validate | src/renderer/src/components/TemplateEditor/ShortcutRecorder.tsx:51-85 | Each rejection holds exactly when its check is the first to fail, in the source's order; an accepted shortcut is the joined keys. |
| ShortcutRecorder.AcceptedWithModifierIsEligible | src/renderer/src/components/TemplateEditor/ShortcutRecorder.tsx:51-89 | An accepted shortcut of two or more keys passes the main process's format check. |
| ShortcutRecorder.LoneKeyAcceptedButNeverSubmitted | src/renderer/src/components/TemplateEditor/ShortcutRecorder.tsx:51-89 | A lone key such as "A" is accepted by the recorder, yet the main process never submits it to the OS. |
| ShortcutRecorder.Recorder.constructor | src/renderer/src/components/TemplateEditor/ShortcutRecorder.tsx:16-17 | Not recording, no keys. |
| ShortcutRecorder.Recorder.StartRecording | src/renderer/src/components/TemplateEditor/ShortcutRecorder.tsx:123-127 | Recording starts with no keys. |
| ShortcutRecorder.Recorder.KeyDown | src/renderer/src/components/TemplateEditor/ShortcutRecorder.tsx:23-41 | While recording, the keys become the event's key list; Escape cancels. Outside recording nothing changes. Also models lines 104-110. |
| ShortcutRecorder.Recorder.KeyUp | src/renderer/src/components/TemplateEditor/ShortcutRecorder.tsx:43-101 | Releasing a main key with keys recorded ends recording and clears the keys. Only an accepted shortcut reaches `onChange`. |
| ShortcutRecorder.Recorder.ClearShortcut | src/renderer/src/components/TemplateEditor/ShortcutRecorder.tsx:129-134 | Recording stops and the empty shortcut goes to `onChange`. |
| TemplateEditor.SavedFieldsNonBlank | src/renderer/src/components/TemplateEditor/TemplateEditor.tsx:74-84 | A saved record's title, content and icon are non-empty and unpadded. |
| TemplateEditor.NormaliseTrimmedForm | src/renderer/src/components/TemplateEditor/TemplateEditor.tsx:80-87 | A form that is already trimmed saves exactly as it stands. |
| TemplateEditor.NormaliseIdempotent | src/renderer/src/components/TemplateEditor/TemplateEditor.tsx:64-91 | Saving a saved record again gives it back, up to the time stamp. |
| TemplateEditor.BlankTitleRejected | src/renderer/src/components/TemplateEditor/TemplateEditor.tsx:74-78 | A title of white space is always refused. |
| TemplateEditor.RefusedIffBlank | src/renderer/src/components/TemplateEditor/TemplateEditor.tsx:74-78 | A save is refused exactly when the title or the content is all white space. |
| TemplateEditor.SavedFromForm | src/renderer/src/components/TemplateEditor/TemplateEditor.tsx:79-88 | A saved record keeps the pin flag and the time; title, content and shortcut are the form's with only surrounding white space removed; the icon is the default exactly for an all-white icon field and otherwise the field without its padding. |
| TemplateEditor.EditorForm.constructor | src/renderer/src/components/TemplateEditor/TemplateEditor.tsx:24-28 | The form starts empty. |
| TemplateEditor.EditorForm.Load | src/renderer/src/components/TemplateEditor/TemplateEditor.tsx:32-55 | A template's fields are copied, missing icon and shortcut as ""; no template clears the form. |
| TemplateEditor.EditorForm.HandleSave | src/renderer/src/components/TemplateEditor/TemplateEditor.tsx:64-91 | The record handed to `onSave` is the normalisation of the form, and none when the trimmed title or content is empty. The form is left as it is. |
| TemplateEditor.EditorForm.SelectEmoji | src/renderer/src/components/TemplateEditor/TemplateEditor.tsx:106-109 | Only the icon changes. |
| App.NewTemplateShowsDraft | src/renderer/src/App.tsx:117-123 | Reopened in the editor, a new template shows exactly the draft it came from; it was created and updated at the same time. |
| App.NewTemplateIdsDistinct | src/renderer/src/App.tsx:117-123 | Templates added at different times get different ids. |
| App.PatchShowsDraft | src/renderer/src/App.tsx:131 | An updated template keeps its id and creation date, shows exactly the saved draft in the editor, and is stamped now. |
| App.UpdateAll | src/renderer/src/App.tsx:129-134 | Same length, ids and creation dates in place; templates with the id show the saved draft and are stamped now, all others stay identical. |
| App.DeleteAll | src/renderer/src/App.tsx:146 | Exactly the templates with another id remain. |
| App.DeleteAllAppend | src/renderer/src/App.tsx:146 | Deletion distributes over concatenation, so order is kept. |
| App.DeleteAbsent | src/renderer/src/App.tsx:146 | Deleting an id nobody has changes nothing. |
| App.Filtered | src/renderer/src/App.tsx:150-153 | Exactly the templates whose lower-cased title or content includes the lower-cased query remain. |
| App.FilteredAppend | src/renderer/src/App.tsx:150-153 | The search distributes over concatenation, so it keeps list order and repeated templates. |
| App.FilteredOne | src/renderer/src/App.tsx:150-153 | One template is kept exactly when it matches. |
| App.EmptyQueryKeepsAll | src/renderer/src/App.tsx:150-153 | An empty search keeps every template in order. |
| App.QueryCaseIgnored | src/renderer/src/App.tsx:150-153 | The search does not depend on the case of the query. |
| App.ExistingShortcuts | src/renderer/src/App.tsx:260-262 | Exactly the non-empty shortcuts of the templates other than the one being edited. |
| App.OwnShortcutNotBlocked | src/renderer/src/App.tsx:260-262 | With distinct shortcuts, the edited template's own shortcut is never listed as taken. |
| App.UpdateOnlyTouchesId | src/renderer/src/App.tsx:129-134 | A template with another id comes through an update unchanged. |
| App.UpdateKeepsIds | src/renderer/src/App.tsx:129-134 | An update keeps every id in its place. |
| App.AppState.constructor | src/renderer/src/App.tsx:20-30 | No templates, on the home tab, nothing being edited. |
| App.AppState.AddTemplate | src/renderer/src/App.tsx:117-126 | The new template is appended at the end; nothing else changes. |
| App.AppState.UpdateTemplate | src/renderer/src/App.tsx:128-138 | The list becomes the specification's update. |
| App.AppState.ReorderTemplates | src/renderer/src/App.tsx:140-143 | The given order replaces the list. |
| App.AppState.DeleteTemplate | src/renderer/src/App.tsx:145-148 | The list loses exactly the templates with the id. |
| App.AppState.EditTemplate | src/renderer/src/App.tsx:156-159 | The template is being edited on the editor tab. |
| App.AppState.NewTemplateTab | src/renderer/src/App.tsx:165-168 | The editor opens with nothing being edited. |
| App.AppState.HandleSaveTemplate | src/renderer/src/App.tsx:170-178 | The edited template is updated, or a new one added, and the view returns home with nothing being edited. |
| App.AppState.CancelEdit | src/renderer/src/App.tsx:180-183 | The view returns home; the list is unchanged. |
| Emoji.BaseName | src/renderer/src/components/TemplateEditor/EmojiPicker.tsx:71 | The base name is the longest dot-free prefix of the file name. |
| Emoji.BaseNamesAreTwoChars | src/renderer/src/components/TemplateEditor/EmojiPicker.tsx:65-71 | Every bundled file's base name is its first two characters. |
| Emoji.CustomIconFor | src/renderer/src/components/TemplateEditor/EmojiPicker.tsx:63-74 | The icon starts with `custom:`. An index with a file gets its base name; any other index gets the decimal of index + 1. |
| Emoji.Selected | src/renderer/src/components/TemplateEditor/EmojiPicker.tsx:58-74 | A standard emoji passes through unchanged; a custom pick starts with `custom:`. |
| Emoji.FindFrom | src/renderer/src/components/ui/EmojiRenderer.tsx:58 | The first file from k on whose name starts with the given name, or none exactly when no such file exists. |
| Emoji.Render | src/renderer/src/components/ui/EmojiRenderer.tsx:45-82 | A string without the prefix shows as text, and only such a string does; an image is always a bundled file. |
| Emoji.FileDigits | src/renderer/src/components/ui/EmojiRenderer.tsx:52-56 | File i is named after i + 1 in two digits followed by a dot. |
| Emoji.TwoCharsDistinct | src/renderer/src/components/ui/EmojiRenderer.tsx:52-58 | No file starts with another file's base name. |
| Emoji.CustomRoundTrip | src/renderer/src/components/ui/EmojiRenderer.tsx:49-73 | For every index with a file, the icon the picker makes shows that very file. |
| Emoji.FindFromFirstMatch | src/renderer/src/components/ui/EmojiRenderer.tsx:58 | When the first match from k on is at i, the search finds i. |
| Emoji.OutOfRangeShowsNothing | src/renderer/src/components/ui/EmojiRenderer.tsx:58-77 | The icon for an index past the list, for every such index, shows nothing. |
| Emoji.NoFileStartsWith | src/renderer/src/components/ui/EmojiRenderer.tsx:52-58 | No file name starts with the decimal of a number above 15. |
| Emoji.SixteenShowsNothing | src/renderer/src/components/ui/EmojiRenderer.tsx:58-77 | `custom:16` shows nothing. |
| Emoji.PrefixNameShowsFirstMatch | src/renderer/src/components/ui/EmojiRenderer.tsx:58-73 | `custom:1` shows `10.gif`, the first file starting with "1". |
| Emoji.EmptyNameShowsFirstFile | src/renderer/src/components/ui/EmojiRenderer.tsx:58-73 | The bare prefix shows `01.gif`. |
| Emoji.StandardShownAsText | src/renderer/src/components/ui/EmojiRenderer.tsx:80-81 | A picked standard emoji shows as itself. |
| Emoji.PickedIconShows | src/renderer/src/components/ui/EmojiRenderer.tsx:45-82 | Every pick shows: as its text, or as the picture it was picked as. |
| Translations.Split | src/renderer/src/utils/translations.ts:24 | At least one piece, none containing the separator. |
| Translations.SplitJoin | src/renderer/src/utils/translations.ts:24 | Joining the pieces with the separator gives the key back. |
| Translations.SplitNoSep | src/renderer/src/utils/translations.ts:24 | A key without dots is one piece. |
| Translations.Walk | src/renderer/src/utils/translations.ts:25-29 | A miss stays a miss; the empty path is the table itself. |
| Translations.WalkAppend | src/renderer/src/utils/translations.ts:27-29 | Walking a path in two parts is walking it in one. |
| Translations.Step | src/renderer/src/utils/translations.ts:28 | One step is the walk of a one-segment path. |
| Translations.Fallback | src/renderer/src/utils/translations.ts:31 | A miss or an empty text gives the key; any other value comes back as it is. |
| Translations.GetTranslation | src/renderer/src/utils/translations.ts:23-32 | The result is the fallback of the walk of the split key from the language's table. |
| Translations.UnknownLanguageGivesKey | src/renderer/src/utils/translations.ts:25-31 | A language without a table gives every key back. |
| Translations.PlainKeyFound | src/renderer/src/utils/translations.ts:23-32 | A dot-free key naming a non-empty text gives that text. |
| Translations.MissStaysMissed | src/renderer/src/utils/translations.ts:27-31 | Once a segment misses, any longer path misses and gives the key. |
| Translations.BelowTextMisses | src/renderer/src/utils/translations.ts:27-31 | A path that goes below a text misses and gives the key. |
| LanguageManager.FindCode | src/renderer/src/utils/languageManager.ts:101 | The index of the first entry with the code, or none exactly when no entry has it. |
| LanguageManager.UpsertKeepsDistinct | src/renderer/src/utils/languageManager.ts:101-107 | The upsert introduces no duplicate code. |
| LanguageManager.UpsertFindsEntry | src/renderer/src/utils/languageManager.ts:101-107 | Afterwards the code finds the new entry, no other code's lookup changed, and the list grew only when the code was new. |
| LanguageManager.FindCodeAt | src/renderer/src/utils/languageManager.ts:101 | The search finds the first entry with the code. |
| LanguageManager.FindCodeSameCodes | src/renderer/src/utils/languageManager.ts:101 | Lists that agree on which entries have a code agree on where it is found. |
| LanguageManager.FindCodeAppend | src/renderer/src/utils/languageManager.ts:106 | Appending an entry with another code moves no lookup. |
| LanguageManager.UpsertIdempotent | src/renderer/src/utils/languageManager.ts:99-112 | Repeating the same upsert changes nothing. |
| LanguageManager.AddedKeyReadBack | src/renderer/src/utils/languageManager.ts:67-78 | A key just added to a language reads back with its value through `getTranslations`; every other language with a table reads as before. |
| LanguageManager.MissingTableFallsBack | src/renderer/src/utils/languageManager.ts:47-49 | A language without a table reads what the default language reads. |
| LanguageManager.UpdatedKeysReadBack | src/renderer/src/utils/languageManager.ts:83-94 | After `updateTranslations`, each supplied key reads back its new text and the language's other keys keep theirs. |
| LanguageManager.DefaultConfigShape | src/renderer/src/utils/languageManager.ts:152-162 | Two distinct languages with empty tables; every lookup gives an empty table. |
| LanguageManager.AddTranslationLocal | src/renderer/src/utils/languageManager.ts:67-73 | Adding one key leaves every other key of every language as it was. |
| LanguageManager.UpdateTranslationsExact | src/renderer/src/utils/languageManager.ts:83-88 | The merge overrides exactly the supplied keys and keeps all others. |
| LanguageManager.Manager.constructor | src/renderer/src/utils/languageManager.ts:21 | The configuration starts as loaded. |
| LanguageManager.Manager.UpdateDefaultLanguage | src/renderer/src/utils/languageManager.ts:54-62 | Only the default changes, kept even when the write fails; the result is the write's outcome. |
| LanguageManager.Manager.AddTranslation | src/renderer/src/utils/languageManager.ts:67-78 | The language's table, created if missing, gets the key; nothing else changes, and the change stays when the write fails. |
| LanguageManager.Manager.UpdateTranslations | src/renderer/src/utils/languageManager.ts:83-94 | The language's table, created if missing, takes the supplied keys; the change stays when the write fails. |
| LanguageManager.Manager.AddSupportedLanguage | src/renderer/src/utils/languageManager.ts:99-119 | The list becomes the upsert. A missing table is created empty and an existing one kept. |
| LanguageManager.Manager.ResetToDefault | src/renderer/src/utils/languageManager.ts:150-168 | The configuration becomes the default one whatever the write's outcome. |
| DataManager.DefaultData | src/renderer/src/utils/dataManager.ts:151-193 | The defaults have every field and the current version. |
| DataManager.DefaultTemplates | src/renderer/src/utils/dataManager.ts:152-183 | Three templates. |
| DataManager.DefaultDataShape | src/renderer/src/utils/dataManager.ts:152-191 | Three templates, two pinned, with distinct shortcuts that all contain '+', and pinning off. |
| DataManager.RepairOnlyDates | src/renderer/src/utils/dataManager.ts:70-74 | The date repair keeps every record in its place with all its fields except `updatedAt`, and a stored `updatedAt` is kept. |
| DataManager.Over | src/renderer/src/utils/dataManager.ts:77-80 | Layering over a complete object gives a complete one, and a complete top hides the base entirely. |
| DataManager.OverAssociative | src/renderer/src/utils/dataManager.ts:77-80 | Layering is associative, and spreading the same top twice is spreading it once. |
| DataManager.Encode | src/renderer/src/utils/dataManager.ts:50 | Writing a data object and reading it back gives it unchanged. |
| DataManager.LoadBackupReadsBackup | src/renderer/src/utils/dataManager.ts:88-107 | The backup gives back the record a save wrote there, not layered over defaults, and nothing when the backup is not a parsed document. |
| DataManager.LoadData | src/renderer/src/utils/dataManager.ts:59-85 | Defaults when nothing is stored. A stored document is layered over the defaults and complete. Unparsable text gives the backup or the defaults. |
| DataManager.MissingUpdatedAtRepaired | src/renderer/src/utils/dataManager.ts:70-74 | A stored template without `updatedAt` loads with its creation date there. |
| DataManager.Merged | src/renderer/src/utils/dataManager.ts:37-42 | The written record is always at version 1.0.0 and is complete when the current data is. |
| DataManager.MergedTwice | src/renderer/src/utils/dataManager.ts:37-42 | Saving the same patch twice writes what saving it once wrote; two saves in turn write the merge of their layered patches. |
| DataManager.Storage.constructor | src/renderer/src/utils/dataManager.ts:33 | The store starts as given. |
| DataManager.Storage.SaveData | src/renderer/src/utils/dataManager.ts:35-56 | A stored string is first copied to the backup key, then the merge is written. The result is true exactly when both writes succeed. |
| DataManager.Storage.ClearData | src/renderer/src/utils/dataManager.ts:196-199 | Exactly the two keys are removed. |
| DataManager.SaveThenLoad | src/renderer/src/utils/dataManager.ts:50 | Loading what a save wrote gives it back, with defaults in fields it lacked; a complete record comes back exactly. Also models lines 59-80. |
| DataManager.BackupRotation | src/renderer/src/utils/dataManager.ts:45-50 | After a successful save, the backup holds the previous record if there was one and is untouched otherwise. |
| DataManager.GarbageFallsBackToBackup | src/renderer/src/utils/dataManager.ts:81-83 | When the stored text is unparsable, loading gives the backup record as it was written. |
| DataManager.SettingsReplacedWhole | src/renderer/src/utils/dataManager.ts:37-42 | Supplied settings replace the stored settings as a whole. |

## Left out

- Electron window construction options, `loadURL`/`loadFile`, `webContents.reload`, the `ready-to-show` and `activate` handlers, and the app's startup sequence: they configure the host, not the logic.
- `MainProcess.MainState.Fire`: does not model the auto-paste keystroke (node-key-sender, PowerShell, osascript, xdotool) and its 200 ms and 2 s timers, which are foreign processes. It also does not model a send to a main window that was already destroyed; its 'closed' listener never nulls the variable.
- `MainProcess.MainState.CloseFloating`: the window becomes destroyed at once. The host's 'close' event, which could be cancelled, is not modelled.
- Sends to windows: the message is recorded; the renderer's reception is not modelled.
- The stub handlers `get-templates`, `save-template` and `delete-template` (src/main/index.ts:158-189): they only log and return success.
- `reload-floating-templates` (src/main/index.ts:290-302): a `webContents.reload` of the live window, which is a host effect.
- Every `setTimeout` delay: the recorder's 100 ms, the page's 150 ms, the copy flag's 1 s. The delayed body runs as part of the event that scheduled it.
- Concurrency between awaits: each awaited answer is a parameter, taken in the order the source awaits.
- `getBoundingClientRect` floats: the clamps take the integer `Math.ceil` result.
- `Strings.Trim`, `Strings.Upper`, `Strings.Lower`: cover only the ASCII range, because JavaScript's Unicode white space and case mappings are tables outside this model.
- JSON text: `JSON.parse` and `JSON.stringify` are not modelled. A stored string is its parse result.
  - A document that parses to `null` or another non-object is treated as unparsable; `null` does behave that way (reading `.templates` throws).
  - A field present with value `undefined` is treated as missing.
  - `Json` cannot express `templates: null` (src/renderer/src/utils/dataManager.ts:69, 77-80). In JavaScript, null is falsy, so the date repair is skipped, and the spread then replaces the default templates with null. The model's `None` keeps the defaults instead.
  - `Json` cannot express a `templates` value that is truthy but not an array. Its `.map` at line 70 throws, and loading falls back to the backup or the defaults. The model has no such document; the same fallback is modelled only for text that does not parse (`Garbage`).
  - `FloatingTemplates.OnStorage` takes the parsed value, so it does not model a `JSON.parse` that throws on a malformed event value.
- `new Date()`: all calls within one operation are read as the same `now`. A date is its epoch milliseconds.
- `exportData` and `importData` (Blob, DOM anchors, FileReader) and `DataManagement.tsx`: browser I/O.
- `LanguageManager.saveConfig`, `reloadConfig` and the update script: file I/O. The write's outcome is a parameter.
- The trivial getters `getConfig`, `getSupportedLanguages` and `getDefaultLanguage`: they return a field.
- `useTranslation`: its `t` is `getTranslation` with the language fixed, so it adds nothing to the model.
- `Translations.Walk`: indexing a string by a segment gives a miss. JavaScript would give a character for a digit segment or the length for "length"; no text key of the tables takes that form. A lookup of a segment also never finds a name a JavaScript object inherits: `getTranslation('en', 'constructor')` gives back the key in the model, though `value?.[k]` would find `Object`'s constructor. The same holds for the `translations[language]` lookups of languageManager.ts. No table key takes that form.
- `App.AppState.UpdateTemplate`: the partial update is the editor's full draft, which is what `handleSaveTemplate` passes. Other callers' partial updates are not modelled.
- The emoji picker's loaded asset list (`customEmojis`), the popover flag and the renderer's `imageError` flag: UI state. `Emoji.CustomIconFor` indexes the fixed file list, as the click handler does.
- React rendering of the settings page, home page, cards, sidebar and selectors: presentation only. The home page's filter is the one of App.tsx.
- The preload bridge, `clipboard.ts`, constants, type declarations and the build configuration: wiring and data only.

## Findings

| source | as written | input that shows it | evidently intended | confidence | as-written member | corrected member |
|---|---|---|---|---|---|---|
| src/main/index.ts:195-197, 218-220 | The 'closed' listener of each floating window sets `floatingWindow = null`, whichever window the variable holds when the event arrives. | `show-floating-templates`, `hide-floating-templates`, `show-floating-templates`, then the first window's 'closed' event. The second window stays on screen, the variable is null, and `is-floating-templates-open` answers false. | Reset the variable only while it still holds the window that closed. The live window then stays reachable, closable and reported open. | not executed | MainProcess.OrphanedWindowAsWritten | MainProcess.MainState.OnClosed |
