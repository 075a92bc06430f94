/**
 * The task store of src/App.js: the state the App component holds (tasks,
 * categories, the signed-in user, the new-task draft, the status filter and the
 * search term), the list rewrites its event handlers perform, the derived view of
 * visible tasks, and the browser-storage mirror its effects keep.
 */
module App {
  import opened Wrappers
  import opened Text
  import opened Seqs

  /** A stored task: the draft's fields plus the id and completion flag `addTask` adds. */
  datatype Task = Task(
    id: int,
    title: string,
    description: string,
    dueDate: string,
    priority: string,
    category: string,
    completed: bool)

  /** The new-task form's contents. */
  datatype Draft = Draft(title: string, description: string, dueDate: string, priority: string, category: string)

  /** The `name` attribute of each input of the new-task form. */
  datatype DraftField = Title | Description | DueDate | Priority | Category

  /** The session identity handed to `login`. */
  datatype User = User(name: string, email: string)

  /** What the storage mirror holds under each of its keys. */
  datatype Stored = TasksRecord(tasks: seq<Task>) | CategoriesRecord(labels: seq<string>) | UserRecord(user: User)

  /** The three storage keys the store uses: "tasks", "categories" and "user". */
  datatype StorageKey = TasksKey | CategoriesKey | UserKey

  /** The labels the category list starts with. */
  const DefaultCategories: seq<string> := ["Personal", "Trabajo", "Estudio"]

  /** `!s.trim()`: the string is empty once surrounding whitespace is removed,
      which happens exactly when it is all whitespace. */
  predicate IsBlank(s: string): (b: bool)
    ensures b <==> AllWhitespace(s)
  {
    TrimEmptyIff(s);
    Trim(s) == ""
  }

  /** The draft the form starts with and is reset to after a task is added:
      everything empty, priority "media", category the first label if any. */
  function DefaultDraft(categories: seq<string>): (d: Draft)
    ensures d.title == "" && d.description == "" && d.dueDate == ""
    ensures d.priority == "media"
    ensures d.category == (if categories == [] then "" else categories[0])
    ensures categories != [] ==> d.category in categories
  {
    Draft("", "", "", "media", if categories == [] then "" else categories[0])
  }

  function DraftGet(d: Draft, f: DraftField): string {
    match f
    case Title => d.title
    case Description => d.description
    case DueDate => d.dueDate
    case Priority => d.priority
    case Category => d.category
  }

  /** `{ ...draft, [name]: value }`: the named field takes the value, the others keep theirs. */
  function WithDraftField(d: Draft, f: DraftField, v: string): (r: Draft)
    ensures DraftGet(r, f) == v
    ensures forall g :: g != f ==> DraftGet(r, g) == DraftGet(d, g)
  {
    match f
    case Title => d.(title := v)
    case Description => d.(description := v)
    case DueDate => d.(dueDate := v)
    case Priority => d.(priority := v)
    case Category => d.(category := v)
  }

  /** The task list after `addTask` with the given draft and a fresh id: unchanged
      when the title is blank, otherwise one task appended at the end that carries
      the draft's fields, the id and `completed = false`. */
  function AddTaskTo(tasks: seq<Task>, draft: Draft, id: int): (r: seq<Task>)
    ensures IsBlank(draft.title) ==> r == tasks
    ensures !IsBlank(draft.title) ==> |r| == |tasks| + 1 && r[..|tasks|] == tasks
    ensures !IsBlank(draft.title) ==>
      var t := r[|tasks|];
      && t.id == id && !t.completed
      && Draft(t.title, t.description, t.dueDate, t.priority, t.category) == draft
  {
    if IsBlank(draft.title) then tasks
    else
      tasks + [Task(id, draft.title, draft.description, draft.dueDate, draft.priority, draft.category, false)]
  }

  /** Ids are pairwise distinct. */
  ghost predicate UniqueIds(tasks: seq<Task>) {
    forall i, j :: 0 <= i < j < |tasks| ==> tasks[i].id != tasks[j].id
  }

  /** A clock reading later than every existing id keeps the ids distinct. */
  lemma AddTaskKeepsIdsUnique(tasks: seq<Task>, draft: Draft, id: int)
    requires UniqueIds(tasks)
    requires forall i :: 0 <= i < |tasks| ==> tasks[i].id < id
    ensures UniqueIds(AddTaskTo(tasks, draft, id))
  {
  }

  /** Submitting the reset draft does nothing: its title is blank. */
  lemma AddTaskOfDefaultDraftIsNoOp(tasks: seq<Task>, categories: seq<string>, id: int)
    ensures AddTaskTo(tasks, DefaultDraft(categories), id) == tasks
  {
  }

  /** `tasks.map(task => task.id === id ? { ...task, completed: !task.completed } : task)`. */
  function Toggled(tasks: seq<Task>, id: int): (r: seq<Task>)
    ensures |r| == |tasks|
    ensures forall i :: 0 <= i < |tasks| ==>
      && r[i].(completed := tasks[i].completed) == tasks[i]
      && r[i].completed == (tasks[i].completed != (tasks[i].id == id))
  {
    if tasks == [] then []
    else
      var t := tasks[0];
      [if t.id == id then t.(completed := !t.completed) else t] + Toggled(tasks[1..], id)
  }

  /** Toggling the same id twice restores the list. */
  lemma {:induction false} ToggleTwice(tasks: seq<Task>, id: int)
    ensures Toggled(Toggled(tasks, id), id) == tasks
  {
    if tasks != [] {
      ToggleTwice(tasks[1..], id);
    }
  }

  /** Toggling an id no task carries leaves the list as it is. */
  lemma {:induction false} ToggleUnknownId(tasks: seq<Task>, id: int)
    requires forall i :: 0 <= i < |tasks| ==> tasks[i].id != id
    ensures Toggled(tasks, id) == tasks
  {
    if tasks != [] {
      ToggleUnknownId(tasks[1..], id);
    }
  }

  function IdIsNot(id: int): Task -> bool {
    (t: Task) => t.id != id
  }

  /** `tasks.filter(task => task.id !== id)`. */
  function WithoutTask(tasks: seq<Task>, id: int): (r: seq<Task>)
    ensures forall i :: 0 <= i < |r| ==> r[i].id != id && r[i] in tasks
    ensures forall i :: 0 <= i < |tasks| && tasks[i].id != id ==> tasks[i] in r
  {
    Filter(tasks, IdIsNot(id))
  }

  /** Deleting removes exactly the tasks carrying the id, every copy of them, and
      keeps the rest, in order and with their multiplicities. */
  lemma DeleteTaskExact(tasks: seq<Task>, id: int, t: Task)
    ensures IsSubsequence(WithoutTask(tasks, id), tasks)
    ensures multiset(WithoutTask(tasks, id))[t] == if t.id == id then 0 else multiset(tasks)[t]
  {
    FilterIsSubsequence(tasks, IdIsNot(id));
    FilterMultiplicity(tasks, IdIsNot(id), t);
  }

  /** A second identical delete changes nothing. */
  lemma DeleteTaskIdempotent(tasks: seq<Task>, id: int)
    ensures WithoutTask(WithoutTask(tasks, id), id) == WithoutTask(tasks, id)
  {
    FilterIdempotent(tasks, IdIsNot(id));
  }

  /** Deleting an id no task carries leaves the list as it is. */
  lemma DeleteUnknownId(tasks: seq<Task>, id: int)
    requires forall i :: 0 <= i < |tasks| ==> tasks[i].id != id
    ensures WithoutTask(tasks, id) == tasks
  {
    FilterKeepsAll(tasks, IdIsNot(id));
  }

  /** `categories.includes(c) ? categories : [...categories, c]`. */
  function WithCategory(categories: seq<string>, c: string): (r: seq<string>)
    ensures c in r
    ensures |categories| <= |r| <= |categories| + 1 && r[..|categories|] == categories
    ensures c in categories ==> r == categories
  {
    if c in categories then categories else categories + [c]
  }

  /** Adding a label keeps a duplicate-free list duplicate-free. */
  lemma AddCategoryKeepsNoDuplicates(categories: seq<string>, c: string)
    requires NoDuplicates(categories)
    ensures NoDuplicates(WithCategory(categories, c))
  {
  }

  /** Adding the same label twice is adding it once. */
  lemma AddCategoryIdempotent(categories: seq<string>, c: string)
    ensures WithCategory(WithCategory(categories, c), c) == WithCategory(categories, c)
  {
  }

  function LabelIsNot(c: string): string -> bool {
    (x: string) => x != c
  }

  /** `categories.filter(cat => cat !== c)`. */
  function WithoutCategory(categories: seq<string>, c: string): (r: seq<string>)
    ensures c !in r
    ensures forall x :: x in r <==> x in categories && x != c
  {
    var r := Filter(categories, LabelIsNot(c));
    assert forall x :: x in r ==> x in categories && x != c by {
      forall x | x in r ensures x in categories && x != c {
        var i :| 0 <= i < |r| && r[i] == x;
      }
    }
    assert forall x :: x in categories && x != c ==> x in r by {
      forall x | x in categories && x != c ensures x in r {
        var i :| 0 <= i < |categories| && categories[i] == x;
      }
    }
    r
  }

  /** Deleting a label removes every occurrence of it and keeps the other labels,
      in order and with their multiplicities. */
  lemma DeleteCategoryExact(categories: seq<string>, c: string, x: string)
    ensures IsSubsequence(WithoutCategory(categories, c), categories)
    ensures multiset(WithoutCategory(categories, c))[x] == if x == c then 0 else multiset(categories)[x]
  {
    FilterIsSubsequence(categories, LabelIsNot(c));
    FilterMultiplicity(categories, LabelIsNot(c), x);
  }

  lemma DeleteCategoryKeepsNoDuplicates(categories: seq<string>, c: string)
    requires NoDuplicates(categories)
    ensures NoDuplicates(WithoutCategory(categories, c))
  {
    FilterNoDuplicates(categories, LabelIsNot(c));
  }

  /** In a duplicate-free list, deleting the label at position `i` removes exactly
      that position. */
  lemma DeleteCategoryAt(categories: seq<string>, i: nat)
    requires NoDuplicates(categories) && i < |categories|
    ensures WithoutCategory(categories, categories[i]) == categories[..i] + categories[i + 1..]
  {
    var p := LabelIsNot(categories[i]);
    forall j | 0 <= j < |categories| ensures p(categories[j]) <==> j != i {
    }
    FilterRemovesOnePosition(categories, i, p);
  }

  /** The status test of the view filter, including the branch for the value
      "category", which keeps only tasks whose category is that very word. */
  predicate PassesStatus(t: Task, filter: string): (b: bool)
    ensures b <==>
      && (filter == "completed" ==> t.completed)
      && (filter == "active" ==> !t.completed)
      && (filter == "category" ==> t.category == "category")
  {
    && !(filter == "completed" && !t.completed)
    && !(filter == "active" && t.completed)
    && !(filter == "category" && t.category != filter)
  }

  /** The search test: no term, or the lowercased term occurs in the lowercased
      title or the lowercased description. */
  predicate MatchesSearch(t: Task, term: string): (b: bool)
    ensures b <==>
      || term == ""
      || (exists i :: OccursAt(Lower(t.title), Lower(term), i))
      || (exists i :: OccursAt(Lower(t.description), Lower(term), i))
  {
    || term == ""
    || Includes(Lower(t.title), Lower(term))
    || Includes(Lower(t.description), Lower(term))
  }

  /** Search terms that are the same text up to letter case select the same
      tasks. */
  lemma SearchIgnoresCase(t: Task, a: string, b: string)
    requires |a| == |b| && forall i :: 0 <= i < |a| ==> CaseVariant(a[i], b[i])
    ensures MatchesSearch(t, a) == MatchesSearch(t, b)
  {
    LowerEqualIff(a, b);
  }

  predicate IsShown(t: Task, filter: string, term: string) {
    PassesStatus(t, filter) && MatchesSearch(t, term)
  }

  function ShownBy(filter: string, term: string): Task -> bool {
    (t: Task) => IsShown(t, filter, term)
  }

  /** The visible tasks: those of `tasks` that pass both tests, in store order. */
  function FilteredTasks(tasks: seq<Task>, filter: string, term: string): (r: seq<Task>)
    ensures |r| <= |tasks|
    ensures forall i :: 0 <= i < |r| ==> r[i] in tasks && IsShown(r[i], filter, term)
    ensures forall i :: 0 <= i < |tasks| && IsShown(tasks[i], filter, term) ==> tasks[i] in r
  {
    Filter(tasks, ShownBy(filter, term))
  }

  /** A task of the store is visible exactly when the status test (completed needs
      `completed`, active needs `!completed`, "category" needs the category
      "category", anything else passes) and the search test both hold. */
  lemma FilteredTasksMembership(tasks: seq<Task>, filter: string, term: string, t: Task)
    requires t in tasks
    ensures t in FilteredTasks(tasks, filter, term) <==>
      && (filter == "completed" ==> t.completed)
      && (filter == "active" ==> !t.completed)
      && (filter == "category" ==> t.category == "category")
      && (term != "" ==> Includes(Lower(t.title), Lower(term)) || Includes(Lower(t.description), Lower(term)))
  {
    var r := FilteredTasks(tasks, filter, term);
    if t in r {
      var i :| 0 <= i < |r| && r[i] == t;
    } else {
      var i :| 0 <= i < |tasks| && tasks[i] == t;
    }
  }

  /** The view is an order-preserving sub-list of the store in which every shown
      task keeps its multiplicity and every hidden one is absent. */
  lemma FilteredTasksExact(tasks: seq<Task>, filter: string, term: string, t: Task)
    ensures IsSubsequence(FilteredTasks(tasks, filter, term), tasks)
    ensures multiset(FilteredTasks(tasks, filter, term))[t] ==
      if IsShown(t, filter, term) then multiset(tasks)[t] else 0
  {
    FilterIsSubsequence(tasks, ShownBy(filter, term));
    FilterMultiplicity(tasks, ShownBy(filter, term), t);
  }

  /** With filter "all" and no search term the whole list is visible. */
  lemma FilteredTasksAllIsEverything(tasks: seq<Task>)
    ensures FilteredTasks(tasks, "all", "") == tasks
  {
    FilterKeepsAll(tasks, ShownBy("all", ""));
  }

  /** The full state of the store, for stating what a handler changes. */
  datatype State = State(
    tasks: seq<Task>,
    filter: string,
    searchTerm: string,
    categories: seq<string>,
    user: Option<User>,
    newTask: Draft,
    storage: map<StorageKey, Stored>)

  /** The App component's state. Every handler replaces whole fields, as
      `setTasks`, `setCategories`, `setUser` and `setNewTask` do, and the storage
      effects then write the changed collection under its key. */
  class Store {
    var tasks: seq<Task>
    var filter: string
    var searchTerm: string
    var categories: seq<string>
    var user: Option<User>
    var newTask: Draft
    /** The browser's key-value storage as the store sees it. */
    var storage: map<StorageKey, Stored>

    function Snapshot(): State
      reads this
    {
      State(tasks, filter, searchTerm, categories, user, newTask, storage)
    }

    /** The storage mirror is up to date: the task and category lists are stored
        under their keys, and a user is stored exactly while one is signed in. */
    ghost predicate Mirrored(): (b: bool)
      reads this
      ensures b ==> storage.Keys == {TasksKey, CategoriesKey} + (if user.Some? then {UserKey} else {})
    {
      var b :=
        && TasksKey in storage && storage[TasksKey] == TasksRecord(tasks)
        && CategoriesKey in storage && storage[CategoriesKey] == CategoriesRecord(categories)
        && (UserKey in storage <==> user.Some?)
        && (user.Some? ==> storage[UserKey] == UserRecord(user.value));
      assert forall k | k in storage :: k == TasksKey || k == CategoriesKey || k == UserKey;
      b
    }

    /** The visible tasks for the current filter and search term. */
    function Visible(): (r: seq<Task>)
      reads this
      ensures forall i :: 0 <= i < |r| ==> r[i] in tasks && IsShown(r[i], filter, searchTerm)
      ensures forall i :: 0 <= i < |tasks| && IsShown(tasks[i], filter, searchTerm) ==> tasks[i] in r
    {
      FilteredTasks(tasks, filter, searchTerm)
    }

    /** Start-up: each record found in `saved` replaces the corresponding initial
        value, then the effects write the task and category lists back. The draft's
        category comes from the default labels, because the draft is initialised
        before the saved labels are loaded. */
    constructor (saved: map<StorageKey, Stored>)
      requires TasksKey in saved ==> saved[TasksKey].TasksRecord?
      requires CategoriesKey in saved ==> saved[CategoriesKey].CategoriesRecord?
      requires UserKey in saved ==> saved[UserKey].UserRecord?
      ensures Mirrored()
      ensures tasks == if TasksKey in saved then saved[TasksKey].tasks else []
      ensures categories == if CategoriesKey in saved then saved[CategoriesKey].labels else DefaultCategories
      ensures user == if UserKey in saved then Some(saved[UserKey].user) else None
      ensures filter == "all" && searchTerm == ""
      ensures newTask == DefaultDraft(DefaultCategories)
      ensures storage.Keys == saved.Keys + {TasksKey, CategoriesKey}
      ensures UserKey in saved ==> storage[UserKey] == saved[UserKey]
    {
      var loadedTasks := if TasksKey in saved then saved[TasksKey].tasks else [];
      var loadedCategories := if CategoriesKey in saved then saved[CategoriesKey].labels else DefaultCategories;
      tasks := loadedTasks;
      filter := "all";
      searchTerm := "";
      categories := loadedCategories;
      user := if UserKey in saved then Some(saved[UserKey].user) else None;
      newTask := DefaultDraft(DefaultCategories);
      storage := saved[TasksKey := TasksRecord(loadedTasks)][CategoriesKey := CategoriesRecord(loadedCategories)];
    }

    /** `handleTaskChange`: one field of the draft takes the typed value. */
    method HandleTaskChange(field: DraftField, value: string)
      requires Mirrored()
      modifies this
      ensures Mirrored()
      ensures Snapshot() == old(Snapshot()).(newTask := WithDraftField(old(newTask), field, value))
    {
      newTask := WithDraftField(newTask, field, value);
    }

    /** `addTask`, with `now` standing for `Date.now()`: a blank title changes
        nothing; otherwise the draft becomes a task at the end of the list and the
        draft is reset. */
    method AddTask(now: int)
      requires Mirrored()
      modifies this
      ensures Mirrored()
      ensures IsBlank(old(newTask.title)) ==> Snapshot() == old(Snapshot())
      ensures !IsBlank(old(newTask.title)) ==>
        Snapshot() == old(Snapshot()).(
          tasks := AddTaskTo(old(tasks), old(newTask), now),
          newTask := DefaultDraft(old(categories)),
          storage := old(storage)[TasksKey := TasksRecord(AddTaskTo(old(tasks), old(newTask), now))])
    {
      if IsBlank(newTask.title) {
        return;
      }
      var added := AddTaskTo(tasks, newTask, now);
      tasks, newTask, storage := added, DefaultDraft(categories), storage[TasksKey := TasksRecord(added)];
    }

    /** `toggleComplete`: flips every task carrying the id. */
    method ToggleComplete(id: int)
      requires Mirrored()
      modifies this
      ensures Mirrored()
      ensures Snapshot() == old(Snapshot()).(
        tasks := Toggled(old(tasks), id),
        storage := old(storage)[TasksKey := TasksRecord(Toggled(old(tasks), id))])
    {
      tasks := Toggled(tasks, id);
      storage := storage[TasksKey := TasksRecord(tasks)];
    }

    /** `deleteTask`: drops every task carrying the id. */
    method DeleteTask(id: int)
      requires Mirrored()
      modifies this
      ensures Mirrored()
      ensures Snapshot() == old(Snapshot()).(
        tasks := WithoutTask(old(tasks), id),
        storage := old(storage)[TasksKey := TasksRecord(WithoutTask(old(tasks), id))])
    {
      tasks := WithoutTask(tasks, id);
      storage := storage[TasksKey := TasksRecord(tasks)];
    }

    /** `addCategory`: appends a label that is not already present. */
    method AddCategory(c: string)
      requires Mirrored()
      modifies this
      ensures Mirrored()
      ensures Snapshot() == old(Snapshot()).(
        categories := WithCategory(old(categories), c),
        storage := old(storage)[CategoriesKey := CategoriesRecord(WithCategory(old(categories), c))])
      ensures NoDuplicates(old(categories)) ==> NoDuplicates(categories)
    {
      if c !in categories {
        categories := categories + [c];
        storage := storage[CategoriesKey := CategoriesRecord(categories)];
      }
      if NoDuplicates(old(categories)) {
        AddCategoryKeepsNoDuplicates(old(categories), c);
      }
    }

    /** `deleteCategory`: removes the label everywhere in the list; tasks that
        name it keep it. */
    method DeleteCategory(c: string)
      requires Mirrored()
      modifies this
      ensures Mirrored()
      ensures Snapshot() == old(Snapshot()).(
        categories := WithoutCategory(old(categories), c),
        storage := old(storage)[CategoriesKey := CategoriesRecord(WithoutCategory(old(categories), c))])
      ensures NoDuplicates(old(categories)) ==> NoDuplicates(categories)
    {
      categories := WithoutCategory(categories, c);
      storage := storage[CategoriesKey := CategoriesRecord(categories)];
      if NoDuplicates(old(categories)) {
        DeleteCategoryKeepsNoDuplicates(old(categories), c);
      }
    }

    /** `login`: the user becomes the session and is written to storage. */
    method Login(u: User)
      requires Mirrored()
      modifies this
      ensures Mirrored()
      ensures Snapshot() == old(Snapshot()).(user := Some(u), storage := old(storage)[UserKey := UserRecord(u)])
    {
      user := Some(u);
      storage := storage[UserKey := UserRecord(u)];
    }

    /** `logout`: the session ends and its stored record is removed; tasks and
        categories stay. */
    method Logout()
      requires Mirrored()
      modifies this
      ensures Mirrored()
      ensures Snapshot() == old(Snapshot()).(user := None, storage := old(storage) - {UserKey})
    {
      user := None;
      storage := storage - {UserKey};
    }

    /** The filter buttons' `setFilter`. */
    method SetFilter(f: string)
      requires Mirrored()
      modifies this
      ensures Mirrored()
      ensures Snapshot() == old(Snapshot()).(filter := f)
    {
      filter := f;
    }

    /** The search field's `setSearchTerm`. */
    method SetSearchTerm(term: string)
      requires Mirrored()
      modifies this
      ensures Mirrored()
      ensures Snapshot() == old(Snapshot()).(searchTerm := term)
    {
      searchTerm := term;
    }
  }
}
