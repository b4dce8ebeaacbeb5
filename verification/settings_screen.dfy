/** The settings screen's handlers (app/settings.tsx): toggling a news category, which
    refuses to leave the selection empty, and choosing the temperature unit. */
module SettingsScreen {
  import opened Optional
  import opened Types
  import opened Sequences
  import opened AppContext

  /** The categories the screen offers, in display order. */
  const OfferedCategories: seq<string> :=
    ["general", "business", "entertainment", "health", "science", "sports", "technology"]

  /** The default selection is non-empty, duplicate-free and drawn from the offered list. */
  lemma DefaultCategoriesWellFormed()
    ensures |DefaultNewsCategories| > 0 && NoDuplicates(DefaultNewsCategories)
    ensures forall c :: c in DefaultNewsCategories ==> c in OfferedCategories
  {
  }

  /** The outcome of a toggle: a new list to save, or a refusal (the alert). */
  datatype ToggleOutcome = Updated(categories: seq<string>) | Rejected

  /** `currentCategories.filter(cat => cat !== category)`. */
  function RemoveAll(xs: seq<string>, x: string): seq<string> {
    Filter(xs, y => y != x)
  }

  /** The list computation of `handleNewsCategoryToggle`. */
  function ToggleCategory(current: seq<string>, category: string): (r: ToggleOutcome)
    ensures category in current ==>
      (r.Rejected? <==> forall i :: 0 <= i < |current| ==> current[i] == category)
    ensures category in current && r.Updated? ==>
      && category !in r.categories
      && (forall i :: 0 <= i < |current| && current[i] != category ==> current[i] in r.categories)
      && IsSubsequence(r.categories, current)
      && multiset(r.categories) == multiset(current)[category := 0]
    ensures category !in current ==>
      r.Updated? && |r.categories| == |current| + 1 &&
      IsPrefix(current, r.categories) && r.categories[|current|] == category
    ensures r.Updated? ==> |r.categories| > 0
  {
    if category in current then
      var remaining := RemoveAll(current, category);
      FilterIsSubsequence(current, y => y != category);
      FilterCounts(current, y => y != category);
      assert multiset(remaining) == multiset(current)[category := 0] by {
        forall x ensures multiset(remaining)[x] == multiset(current)[category := 0][x] {
          if x == category {
            assert multiset(remaining)[x] == 0;
          }
        }
      }
      if |remaining| == 0 then
        Rejected
      else
        Updated(remaining)
    else
      Updated(current + [category])
  }

  /** A toggle keeps a duplicate-free list duplicate-free. */
  lemma ToggleKeepsNoDuplicates(current: seq<string>, category: string)
    requires NoDuplicates(current)
    ensures ToggleCategory(current, category).Updated? ==>
      NoDuplicates(ToggleCategory(current, category).categories)
  {
    var r := ToggleCategory(current, category);
    if r.Updated? && category in current {
      FilterKeepsDistinct(current, y => y != category);
    }
  }

  /** Adding a category the list lacked and toggling it again gives the list back,
      provided the list was not empty (removing from a one-element list is refused). */
  lemma ToggleTwiceRestores(current: seq<string>, category: string)
    requires category !in current && |current| > 0
    ensures ToggleCategory(current, category) == Updated(current + [category])
    ensures ToggleCategory(current + [category], category) == Updated(current)
  {
    var added := current + [category];
    assert added[..|current|] == current;
    FilterAppend(current, [category], y => y != category);
    FilterAllKept(current, y => y != category);
    assert Filter([category], y => y != category) == [];
  }

  /** `handleNewsCategoryToggle`: a refused toggle issues no update; otherwise the new
      list is saved through `updateSettings` (`stored` says the storage write succeeded). */
  function HandleNewsCategoryToggle(s: AppState, category: string, stored: bool): (r: AppState)
    ensures Framed(s, r, {CategoriesField})
    ensures ToggleCategory(s.settings.newsCategories, category).Rejected? || !stored ==> r == s
    ensures stored && ToggleCategory(s.settings.newsCategories, category).Updated? ==>
      r.settings.newsCategories == ToggleCategory(s.settings.newsCategories, category).categories
    ensures |s.settings.newsCategories| > 0 ==> |r.settings.newsCategories| > 0
  {
    match ToggleCategory(s.settings.newsCategories, category)
    case Rejected => s
    case Updated(categories) => SaveSettings(s, SettingsPatch(None, Some(categories), None), stored).state
  }

  /** `handleTemperatureUnitChange`: only the unit is passed, so the categories and the
      location survive the merge. */
  function HandleTemperatureUnitChange(s: AppState, unit: TemperatureUnit, stored: bool): (r: AppState)
    ensures Framed(s, r, {UnitField})
    ensures stored ==> r.settings.temperatureUnit == unit
    ensures !stored ==> r == s
    ensures r.settings.newsCategories == s.settings.newsCategories
    ensures r.settings.location == s.settings.location
  {
    SaveSettings(s, SettingsPatch(Some(unit), None, None), stored).state
  }
}
