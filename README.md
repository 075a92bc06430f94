# GestionDeTareas task store, modelled in Dafny

GestionDeTareas is a React to-do application. Its logic lives in one state container, the
`App` component, and four components that feed it:

- **App** (`App` module): holds the task list, the category labels, the signed-in user,
  the new-task draft, the status filter and the search term.
  - Its handlers (`addTask`, `toggleComplete`, `deleteTask`, `addCategory`,
    `deleteCategory`, `login`, `logout`, `handleTaskChange`) replace whole fields with
    values computed by `map`, `filter` and spread.
  - Its effects mirror the tasks, the categories and the user into browser storage.
  - `filteredTasks` derives the visible list.
- **AuthComponent** (`AuthComponent` module): a simulated sign-in form with a login tab and
  a register tab. It validates the fields, sets an error message, and hands an identity
  to `login`.
- **TaskForm** (`TaskForm` module): a stand-alone draft form with the same blank-title
  guard and reset as `addTask`.
- **CategoryManager** (`CategoryManager` module): a collapsible panel that trims a new
  label, guards it against being blank, and passes it to `addCategory`.
- **TaskList** (`TaskList` module): the priority colour mapping and the due-date
  formatter's guard.

The model follows the code's own split between state and pure logic:

- Each component's state is a `class` whose methods are its handlers. Each method states
  its whole new state. `App.Store` does this through a `State` snapshot, and keeps the
  invariant `Mirrored()`: storage holds exactly the current tasks and categories, and a
  user record exactly while someone is signed in.
- The list rewrites and the validation are functions, with lemmas for what the code
  promises about them.

Supporting modules:

- `Text`: JavaScript's `trim`, `toLowerCase` and `includes`. Trimming is specified by an
  independent description (`IsTrimAt`) and proved unique.
- `Seqs`: order-preserving filtering, with subsequence, multiplicity and duplicate-freedom
  facts.
- `Scenarios`: worked examples (the case-insensitive search over title or description,
  and a short session of adds, a toggle and the status filters).

## Model

| member | source | states |
|---|---|---|
| Text.StartOfText | src/App.js:124 | the index where `trim`'s kept part starts lies between the starting index and the end of the string |
| Text.EndOfText | src/App.js:124 | the index where `trim`'s kept part ends lies between its lower bound and the starting index |
| Text.Trim | src/App.js:124 | the trimmed string is no longer than the input |
| Text.TrimIsTrimOf | src/App.js:124 | `trim` yields a slice of the input, surrounded only by whitespace, that neither starts nor ends with whitespace |
| Text.TrimCharacterized | src/components/CategoryManager.js:22-23 | any slice with that description is the trim, so the description determines `trim` |
| Text.TrimUnique | src/components/CategoryManager.js:22-23 | two slices that both fit the description are equal |
| Text.TrimIdempotent | src/components/CategoryManager.js:23 | trimming a trimmed string changes nothing |
| Text.TrimEmptyIff | src/App.js:124 | a string trims to "" exactly when every character is whitespace |
| Text.StartOfTextSkipsWhitespace | src/App.js:124 | the leading part `trim` drops is whitespace, and it stops at a non-whitespace character |
| Text.EndOfTextSkipsWhitespace | src/App.js:124 | the trailing part `trim` drops is whitespace, and it stops after a non-whitespace character |
| Text.LowerChar | src/App.js:183 | a capital moves exactly 32 code points up to its small letter; every other character is unchanged; the result is never a capital |
| Text.Lower | src/App.js:183-184 | lowercasing keeps the length and lowercases each character in place, leaving no capital |
| Text.LowerEqualIff | src/App.js:183-184 | two strings lowercase to the same text exactly when they have the same length and differ position by position only in letter case |
| Text.LowerIdempotent | src/App.js:183-184 | lowercasing a lowercased string changes nothing |
| Text.Includes | src/App.js:183-184 | `includes` holds exactly when the needle occurs at some position of the haystack |
| Text.NotIncludedWhenCharMissing | src/App.js:183-184 | a needle containing a character the haystack lacks is not included |
| Seqs.Filter | src/App.js:174-190 | the filtered list is no longer than the input, holds only passing elements of the input, and holds every passing element |
| Seqs.FilterIsSubsequence | src/App.js:174-190 | filtering keeps the survivors in their original order |
| Seqs.FilterMultiplicity | src/App.js:174-190 | a passing value keeps its number of occurrences, and a failing value has none |
| Seqs.FilterKeepsAll | src/App.js:174-190 | when every element passes, filtering returns the list itself |
| Seqs.FilterIdempotent | src/App.js:147 | filtering twice with the same test is filtering once |
| Seqs.FilterNoDuplicates | src/App.js:159 | filtering a duplicate-free list gives a duplicate-free list |
| Seqs.FilterRemovesOnePosition | src/App.js:159 | when only the element at position `i` fails, filtering removes exactly that position |
| App.IsBlank | src/App.js:124 | a title is blank after `trim` exactly when every character is whitespace |
| App.DefaultDraft | src/App.js:73-79 | the draft starts with empty title, description and due date, priority "media", and the first label (or "" when there are none) |
| App.WithDraftField | src/App.js:117-120 | the named field takes the typed value and every other field keeps its value |
| App.AddTaskTo | src/App.js:123-126 | a blank-after-trim title leaves the list unchanged; otherwise exactly one task is appended, carrying the draft's fields, the given id and `completed = false`, with the earlier tasks unchanged and in order |
| App.AddTaskKeepsIdsUnique | src/App.js:126 | an id larger than every existing id keeps the ids pairwise distinct |
| App.AddTaskOfDefaultDraftIsNoOp | src/App.js:127-133 | submitting the reset draft adds nothing |
| App.Toggled | src/App.js:137-143 | length and order are kept; every task with the id has `completed` flipped; every other task, and every other field, is identical |
| App.ToggleTwice | src/App.js:137-143 | toggling the same id twice restores the list |
| App.ToggleUnknownId | src/App.js:137-143 | toggling an id that no task carries is a no-op |
| App.WithoutTask | src/App.js:146-148 | the result holds no task with the id, and holds every task of the list without it |
| App.DeleteTaskExact | src/App.js:146-148 | the result is an order-preserving sub-list; tasks with the id are gone, and every other task keeps its multiplicity |
| App.DeleteTaskIdempotent | src/App.js:146-148 | a second identical delete is a no-op |
| App.DeleteUnknownId | src/App.js:146-148 | deleting an id that no task carries is a no-op |
| App.WithCategory | src/App.js:151-155 | the label is present afterwards; the old list is a prefix of the result, and at most one label is added; a label already present leaves the list unchanged |
| App.AddCategoryKeepsNoDuplicates | src/App.js:151-155 | a duplicate-free list stays duplicate-free |
| App.AddCategoryIdempotent | src/App.js:151-155 | adding the same label twice is adding it once |
| App.WithoutCategory | src/App.js:158-160 | the label is absent afterwards, and every other label of the list remains |
| App.DeleteCategoryExact | src/App.js:158-160 | every occurrence of the label is removed; the other labels keep their order and multiplicities |
| App.DeleteCategoryKeepsNoDuplicates | src/App.js:158-160 | a duplicate-free list stays duplicate-free |
| App.DeleteCategoryAt | src/App.js:158-160 | in a duplicate-free list, deleting the label at position `i` removes exactly that position |
| App.PassesStatus | src/App.js:176-178 | a task passes the status test iff: "completed" implies it is completed, "active" implies it is not, and "category" implies its category is the word "category" |
| App.MatchesSearch | src/App.js:181-187 | a task matches iff the term is empty, or the lowercased term occurs at some position of the lowercased title or of the lowercased description |
| App.SearchIgnoresCase | src/App.js:181-187 | two search terms that differ only in letter case select exactly the same tasks |
| App.FilteredTasks | src/App.js:174-190 | the view holds only tasks of the store that pass both tests, and every such task |
| App.FilteredTasksMembership | src/App.js:174-190 | a stored task is visible iff two tests hold. Status test: "completed" needs `completed`, "active" needs `!completed`, "category" needs the category "category", any other value passes. Search test: the term is empty, or the lowercased term occurs in the lowercased title or description |
| App.FilteredTasksExact | src/App.js:174-190 | the view is an order-preserving sub-list of the store; shown tasks keep their multiplicity and hidden ones are absent |
| App.FilteredTasksAllIsEverything | src/App.js:174-190 | with filter "all" and an empty search term the view is the whole list |
| App.Store.Visible | src/App.js:174-190 | every visible task is a stored task that passes the current filter and search, and every stored task that passes them is visible |
| App.Store.Mirrored | src/App.js:99-114 | storage mirrors the state: the key set is exactly "tasks", "categories", and "user" while someone is signed in |
| App.Store.constructor | src/App.js:59-114 | state starts with the stored tasks, labels and user, or the defaults where none are stored; filter is "all", search is empty, and the draft is the default one. Storage then holds the tasks and labels, and a stored user is kept |
| App.Store.HandleTaskChange | src/App.js:117-120 | only the named draft field changes |
| App.Store.AddTask | src/App.js:123-134 | a blank title changes nothing; otherwise the task is appended, the draft is reset from the current labels, and storage is updated, with nothing else changing |
| App.Store.ToggleComplete | src/App.js:137-143 | the tasks become `Toggled(tasks, id)` and are written to storage; nothing else changes |
| App.Store.DeleteTask | src/App.js:146-148 | the tasks become `WithoutTask(tasks, id)` and are written to storage; nothing else changes |
| App.Store.AddCategory | src/App.js:151-155 | the labels become `WithCategory(labels, c)` and are written to storage; a duplicate-free list stays duplicate-free; nothing else changes |
| App.Store.DeleteCategory | src/App.js:158-160 | the labels become `WithoutCategory(labels, c)` and are written to storage; tasks are untouched; a duplicate-free list stays duplicate-free |
| App.Store.Login | src/App.js:163-165 | the user is signed in and written to storage; nothing else changes |
| App.Store.Logout | src/App.js:168-171 | the user is signed out and its storage record removed; tasks and labels stay |
| App.Store.SetFilter | src/App.js:500 | only the filter changes |
| App.Store.SetSearchTerm | src/App.js:469 | only the search term changes |
| AuthComponent.WithFormField | src/components/AuthComponent.js:23-26 | the named input takes the value and the others keep theirs |
| AuthComponent.LocalPart | src/components/AuthComponent.js:42 | the name is the prefix of the email before the first "@", and contains no "@" |
| AuthComponent.LocalPartIsWholeIff | src/components/AuthComponent.js:42 | the name is the whole email exactly when it has no "@" |
| AuthComponent.LoginOutcome | src/components/AuthComponent.js:39-47 | login succeeds iff email and password are non-empty, with name = local part and the given email; otherwise the fill-all-fields message |
| AuthComponent.RegisterOutcome | src/components/AuthComponent.js:55-75 | a missing field gives the fill-all-fields message first; otherwise a password mismatch gives its message; otherwise the identity is exactly the form's name and email |
| AuthComponent.AcceptedIdentity | src/components/AuthComponent.js:39-75 | an accepted identity carries the form's non-empty email; a register that succeeds would also pass the login check |
| AuthComponent.AuthForm.constructor | src/components/AuthComponent.js:14-21 | login tab, empty fields, no error |
| AuthComponent.AuthForm.HandleChange | src/components/AuthComponent.js:23-26 | only the named input changes |
| AuthComponent.AuthForm.HandleTabChange | src/components/AuthComponent.js:28-31 | the tab is set and the error cleared |
| AuthComponent.AuthForm.HandleLogin | src/components/AuthComponent.js:33-48 | the identity passed to `login` is the login outcome; the error is cleared on success and set to the message otherwise |
| AuthComponent.AuthForm.HandleRegister | src/components/AuthComponent.js:50-76 | the identity passed to `login` is the register outcome; the error is cleared on success and set to the first failing check's message otherwise |
| AuthComponent.SubmitLogin | src/components/AuthComponent.js:39-47 | a successful login signs the user in and writes the user record, with the rest of the store unchanged; a failed one leaves the store unchanged; the form's error is cleared on success and set to the message otherwise, and its fields and tab stay |
| TaskForm.Form.constructor | src/components/TaskForm.js:14-20 | the draft starts as the default draft for the given labels |
| TaskForm.Form.HandleChange | src/components/TaskForm.js:22-25 | only the named draft field changes |
| TaskForm.Form.HandleSubmit | src/components/TaskForm.js:27-38 | a blank title submits nothing and keeps the draft; otherwise the current draft is submitted once and the draft reset |
| TaskForm.SubmitTwice | src/components/TaskForm.js:29-37 | the first submit hands over the draft unless its title is blank, and keeps the draft when it hands over nothing; a second submit right after it submits nothing |
| CategoryManager.AddDisabled | src/components/CategoryManager.js:87 | the add button is disabled exactly when the input is all whitespace |
| CategoryManager.SubmittedLabel | src/components/CategoryManager.js:21-26 | nothing is submitted exactly when the button is disabled; a submitted label is non-empty, equal to its own trim, and is the trim of the input |
| CategoryManager.Manager.constructor | src/components/CategoryManager.js:18-19 | empty input, panel collapsed |
| CategoryManager.Manager.SetNewCategory | src/components/CategoryManager.js:74 | only the input changes |
| CategoryManager.Manager.ToggleExpanded | src/components/CategoryManager.js:34 | `expanded` flips and the input stays |
| CategoryManager.Manager.HandleAddCategory | src/components/CategoryManager.js:21-26 | the label passed to `addCategory` is `SubmittedLabel(input)`; the input is cleared when a label is passed and kept otherwise |
| CategoryManager.ClickHeaderTwice | src/components/CategoryManager.js:34 | two header clicks restore the panel |
| CategoryManager.AddThroughPanel | src/components/CategoryManager.js:21-26 | the store's labels gain the trimmed label unless it is blank or already present, and storage is updated with them; nothing else in the store changes; the input is cleared exactly when a label was passed, the panel stays as it was, and a duplicate-free list stays duplicate-free |
| CategoryManager.DeleteChip | src/components/CategoryManager.js:54-58 | deleting a chip of a duplicate-free list removes exactly that chip, and the list stays duplicate-free |
| TaskList.PriorityColor | src/components/TaskList.js:21-32 | "alta" gives "error", "media" gives "warning", "baja" gives "success" (each as an iff), and every other value gives "default" |
| TaskList.FormatDate | src/components/TaskList.js:35-42 | an empty or absent date gives ""; a date the formatter rejects is returned unchanged; otherwise the formatted text |
| Scenarios.SearchIsCaseInsensitiveOverTitleOrDescription | src/App.js:181-187 | with tasks "Buy milk" and one described "call Bob", searching "BOB" shows only the second, and "milk" only the first |
| Scenarios.ActiveAndCompletedViews | src/App.js:174-190 | after adding "A" and "B" and completing "B", the active view is ["A"] and the completed view is ["B"] |

## Left out

- Browser storage is a map from the three keys the store uses to typed records. JSON
  encoding and decoding are not modelled, and neither are keys the store never touches.
- App.Store.constructor: requires every stored record to have the right kind. The source's
  `JSON.parse` of a malformed record throws, and that path is not modelled. An empty
  stored string, which the source skips, is modelled as an absent key.
- React rendering, layout and theme are not modelled. Neither is the order in which
  effects and batched state updates run: each handler, with the storage write its change
  triggers, is one atomic step.
- `Date.now()` is the `now` parameter of `App.Store.AddTask`. Distinct ids are not
  guaranteed. `App.AddTaskKeepsIdsUnique` states when they stay distinct, and toggling
  and deleting act on every task with a matching id.
- Text.Lower: lowercases only A-Z and the Latin-1 capitals U+00C0-U+00DE (except U+00D7).
  Every other character is left as it is, unlike full Unicode `toLowerCase`.
- Text.Trim: its own contract only bounds the result's length. What it yields is stated by
  `Text.TrimIsTrimOf` and `Text.TrimCharacterized`, which keeps the guards that call it
  cheap to verify.
- Text.StartOfText: its own contract only bounds the index. That the skipped part is
  whitespace and stops at a non-whitespace character is `Text.StartOfTextSkipsWhitespace`.
- Text.EndOfText: its own contract only bounds the index. That the skipped part is
  whitespace and stops after a non-whitespace character is `Text.EndOfTextSkipsWhitespace`.
- TaskList.FormatDate: the `date-fns` call is the parameter `format`, with `None` for a
  thrown error. Formatting itself is not modelled.
- `handleChange` in the forms names its field by the input's `name` attribute. The model
  allows only the form's own fields. An unknown name, which would add a new key to the
  JavaScript object, is not modelled.
- TaskForm is imported by src/App.js but never rendered. Its `addTask` call is modelled
  as the draft that `TaskForm.Form.HandleSubmit` returns.
- The status filter's "category" branch (src/App.js:178) is modelled as written: it keeps
  only tasks whose category is the word "category". The buttons never select that value.
- `deleteCategory` (src/App.js:159) removes every occurrence of the label, not only the
  first, and `App.WithoutCategory` does the same.
- The category list is not kept free of duplicates by construction. A list loaded from
  storage may hold duplicates, so duplicate-freedom is stated as preserved, not assumed.
