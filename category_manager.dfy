/**
 * The category panel of src/components/CategoryManager.js: a collapsible panel
 * with one chip per label, a text field for a new label, and an add button.
 */
module CategoryManager {
  import opened Wrappers
  import opened Text
  import opened Seqs
  import App

  /** `disabled={!newCategory.trim()}`: the add button is disabled exactly when
      the field holds only whitespace. */
  predicate AddDisabled(input: string): (b: bool)
    ensures b <==> AllWhitespace(input)
  {
    App.IsBlank(input)
  }

  /** The label `handleAddCategory` passes to `addCategory`, if any: none when
      the button would be disabled, otherwise the trimmed input, which is
      non-empty and has no surrounding whitespace left. */
  function SubmittedLabel(input: string): (r: Option<string>)
    ensures r.None? <==> AddDisabled(input)
    ensures r.Some? ==> r.value != "" && Trim(r.value) == r.value
    ensures r.Some? ==> IsTrimOf(input, r.value)
  {
    if Trim(input) != "" then
      TrimIsTrimOf(input);
      TrimIdempotent(input);
      Some(Trim(input))
    else
      None
  }

  /** The CategoryManager component's own state. */
  class Manager {
    var newCategory: string
    var expanded: bool

    constructor ()
      ensures newCategory == "" && !expanded
    {
      newCategory := "";
      expanded := false;
    }

    /** The text field's `onChange`. */
    method SetNewCategory(value: string)
      modifies this
      ensures newCategory == value && expanded == old(expanded)
    {
      newCategory := value;
    }

    /** The header's `onClick`. */
    method ToggleExpanded()
      modifies this
      ensures expanded == !old(expanded) && newCategory == old(newCategory)
    {
      expanded := !expanded;
    }

    /** `handleAddCategory`: returns the label to pass to `addCategory` and
        clears the field, or does nothing when the trimmed input is empty. */
    method HandleAddCategory() returns (added: Option<string>)
      modifies this
      ensures added == SubmittedLabel(old(newCategory))
      ensures newCategory == if added.Some? then "" else old(newCategory)
      ensures expanded == old(expanded)
    {
      if Trim(newCategory) != "" {
        added := Some(Trim(newCategory));
        newCategory := "";
      } else {
        added := None;
      }
    }
  }

  /** Two header clicks leave the panel as it was. */
  method ClickHeaderTwice(m: Manager)
    modifies m
    ensures m.expanded == old(m.expanded) && m.newCategory == old(m.newCategory)
  {
    m.ToggleExpanded();
    m.ToggleExpanded();
  }

  /** The panel wired to the store (`addCategory={addCategory}` in src/App.js):
      the trimmed label is added unless it is already there, and the list stays
      duplicate-free. */
  method AddThroughPanel(m: Manager, store: App.Store)
    requires store.Mirrored()
    modifies m, store
    ensures store.Mirrored()
    ensures store.Snapshot() ==
      match SubmittedLabel(old(m.newCategory))
      case None => old(store.Snapshot())
      case Some(c) =>
        var cats := App.WithCategory(old(store.categories), c);
        old(store.Snapshot()).(categories := cats, storage := old(store.storage)[App.CategoriesKey := App.CategoriesRecord(cats)])
    ensures m.newCategory == if SubmittedLabel(old(m.newCategory)).Some? then "" else old(m.newCategory)
    ensures m.expanded == old(m.expanded)
    ensures NoDuplicates(old(store.categories)) ==> NoDuplicates(store.categories)
  {
    ghost var before := store.Snapshot();
    var added := m.HandleAddCategory();
    assert store.Snapshot() == before;
    if added.Some? {
      store.AddCategory(added.value);
    }
  }

  /** Deleting the chip at position `i` (`onDelete={() => deleteCategory(category)}`)
      removes that chip and only that chip from a duplicate-free list. */
  lemma DeleteChip(categories: seq<string>, i: nat)
    requires NoDuplicates(categories) && i < |categories|
    ensures App.WithoutCategory(categories, categories[i]) == categories[..i] + categories[i + 1..]
    ensures NoDuplicates(App.WithoutCategory(categories, categories[i]))
  {
    App.DeleteCategoryAt(categories, i);
    App.DeleteCategoryKeepsNoDuplicates(categories, categories[i]);
  }
}
