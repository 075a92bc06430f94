/**
 * Worked examples of the store: a case-insensitive search over title or
 * description, and a short session of adds, a toggle and the status filters.
 */
module Scenarios {
  import opened Text
  import opened App
  import Seqs

  /** Searching "BOB" finds the task whose description says "call Bob", and
      searching "milk" finds the one titled "Buy milk", and neither finds the other. */
  lemma SearchIsCaseInsensitiveOverTitleOrDescription()
    ensures
      var milk := Task(1, "Buy milk", "", "", "media", "Personal", false);
      var bob := Task(2, "Phone", "call Bob", "", "media", "Personal", false);
      && FilteredTasks([milk, bob], "all", "BOB") == [bob]
      && FilteredTasks([milk, bob], "all", "milk") == [milk]
  {
    var milk := Task(1, "Buy milk", "", "", "media", "Personal", false);
    var bob := Task(2, "Phone", "call Bob", "", "media", "Personal", false);
    SearchBob(milk, bob);
    SearchMilk(milk, bob);
    KeepsOnlyShown(milk, bob, "BOB", false, true);
    KeepsOnlyShown(milk, bob, "milk", true, false);
  }

  lemma SearchBob(milk: Task, bob: Task)
    requires milk.title == "Buy milk" && milk.description == ""
    requires bob.title == "Phone" && bob.description == "call Bob"
    ensures !MatchesSearch(milk, "BOB") && MatchesSearch(bob, "BOB")
  {
    BobFindsCallBob(bob);
    BobMissesBuyMilk(milk);
  }

  lemma BobFindsCallBob(bob: Task)
    requires bob.description == "call Bob"
    ensures MatchesSearch(bob, "BOB")
  {
    LowerOfUpper();
    LowerOfMixed();
    assert OccursAt("call bob", "bob", 5);
  }

  lemma BobMissesBuyMilk(milk: Task)
    requires milk.title == "Buy milk" && milk.description == ""
    ensures !MatchesSearch(milk, "BOB")
  {
    LowerOfUpper();
    LowerOfMixed();
    NotIncludedWhenCharMissing("buy milk", "bob", 1);
    NotIncludedWhenCharMissing("", "bob", 0);
  }

  lemma SearchMilk(milk: Task, bob: Task)
    requires milk.title == "Buy milk" && milk.description == ""
    requires bob.title == "Phone" && bob.description == "call Bob"
    ensures MatchesSearch(milk, "milk") && !MatchesSearch(bob, "milk")
  {
    MilkFindsBuyMilk(milk);
    MilkMissesPhone(bob);
  }

  lemma MilkFindsBuyMilk(milk: Task)
    requires milk.title == "Buy milk"
    ensures MatchesSearch(milk, "milk")
  {
    LowerOfUpper();
    LowerOfMixed();
    assert OccursAt("buy milk", "milk", 4);
  }

  lemma MilkMissesPhone(bob: Task)
    requires bob.title == "Phone" && bob.description == "call Bob"
    ensures !MatchesSearch(bob, "milk")
  {
    LowerOfUpper();
    LowerOfMixed();
    NotIncludedWhenCharMissing("phone", "milk", 0);
    NotIncludedWhenCharMissing("call bob", "milk", 0);
  }

  lemma LowerOfUpper()
    ensures Lower("BOB") == "bob" && Lower("milk") == "milk" && Lower("Phone") == "phone"
  {
  }

  lemma LowerOfMixed()
    ensures Lower("Buy milk") == "buy milk" && Lower("call Bob") == "call bob"
  {
  }

  /** With filter "all", a two-task list keeps exactly the tasks the search admits. */
  lemma KeepsOnlyShown(first: Task, second: Task, term: string, keepFirst: bool, keepSecond: bool)
    requires MatchesSearch(first, term) == keepFirst && MatchesSearch(second, term) == keepSecond
    ensures FilteredTasks([first, second], "all", term) ==
      (if keepFirst then [first] else []) + (if keepSecond then [second] else [])
  {
    var shown := ShownBy("all", term);
    assert shown(first) == keepFirst && shown(second) == keepSecond;
    assert [first, second][1..] == [second] && [second][1..] == [];
    assert Seqs.Filter([second], shown) == (if keepSecond then [second] else []);
  }

  /** Add "A" (priority "alta") and "B" (priority "baja") to an empty list,
      complete "B": the active view shows only "A", the completed view only "B". */
  lemma ActiveAndCompletedViews()
    ensures
      var d := DefaultDraft(DefaultCategories);
      var afterA := AddTaskTo([], WithDraftField(WithDraftField(d, Title, "A"), Priority, "alta"), 1);
      var afterB := AddTaskTo(afterA, WithDraftField(WithDraftField(d, Title, "B"), Priority, "baja"), 2);
      var done := Toggled(afterB, 2);
      && |done| == 2 && done[0].title == "A" && done[1].title == "B"
      && FilteredTasks(done, "active", "") == [done[0]]
      && FilteredTasks(done, "completed", "") == [done[1]]
  {
    var a := Task(1, "A", "", "", "alta", "Personal", false);
    var b := Task(2, "B", "", "", "baja", "Personal", false);
    AddTwoTasks(a, b);
    ToggleSecond(a, b);
    ActiveAndCompletedFilters(a, b.(completed := true));
  }

  lemma AddTwoTasks(a: Task, b: Task)
    requires a == Task(1, "A", "", "", "alta", "Personal", false)
    requires b == Task(2, "B", "", "", "baja", "Personal", false)
    ensures
      var d := DefaultDraft(DefaultCategories);
      var afterA := AddTaskTo([], WithDraftField(WithDraftField(d, Title, "A"), Priority, "alta"), 1);
      AddTaskTo(afterA, WithDraftField(WithDraftField(d, Title, "B"), Priority, "baja"), 2) == [a, b]
  {
    var d := DefaultDraft(DefaultCategories);
    assert d == Draft("", "", "", "media", "Personal");
    var da := WithDraftField(WithDraftField(d, Title, "A"), Priority, "alta");
    var db := WithDraftField(WithDraftField(d, Title, "B"), Priority, "baja");
    assert da == Draft("A", "", "", "alta", "Personal");
    assert db == Draft("B", "", "", "baja", "Personal");
    SingleLetterIsNotBlank('A');
    SingleLetterIsNotBlank('B');
    AddOne([], da, 1, a);
    AddOne([a], db, 2, b);
  }

  /** Adding a draft with a non-blank title appends the task it describes. */
  lemma AddOne(tasks: seq<Task>, draft: Draft, id: int, t: Task)
    requires !IsBlank(draft.title)
    requires t == Task(id, draft.title, draft.description, draft.dueDate, draft.priority, draft.category, false)
    ensures AddTaskTo(tasks, draft, id) == tasks + [t]
  {
  }

  lemma SingleLetterIsNotBlank(c: char)
    requires !IsWhitespace(c)
    ensures !IsBlank([c])
  {
    assert !AllWhitespace([c]) by { assert [c][0] == c; }
    TrimEmptyIff([c]);
  }

  lemma ToggleSecond(a: Task, b: Task)
    requires a.id != 2 && b.id == 2
    ensures Toggled([a, b], 2) == [a, b.(completed := !b.completed)]
  {
  }

  lemma ActiveAndCompletedFilters(a: Task, b: Task)
    requires !a.completed && b.completed
    ensures FilteredTasks([a, b], "active", "") == [a]
    ensures FilteredTasks([a, b], "completed", "") == [b]
  {
    assert "active"[0] != "completed"[0] && "active"[0] != "category"[0];
    assert "completed"[2] != "category"[2];
    assert [a, b][1..] == [b];
    assert [b][1..] == [];
    var active, completed := ShownBy("active", ""), ShownBy("completed", "");
    assert active(a) && !active(b) && !completed(a) && completed(b);
    assert Seqs.Filter([b], active) == [] && Seqs.Filter([b], completed) == [b];
    assert Seqs.Filter([a, b], active) == [a] + Seqs.Filter([b], active);
    assert Seqs.Filter([a, b], completed) == Seqs.Filter([b], completed);
  }
}
