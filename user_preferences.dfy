/**
 * The preference form (app/components/UserPreferences.tsx): a list of
 * ticked categories, loaded from the current user's stored string, toggled
 * one category at a time and submitted as a whole.
 */
module UserPreferences {
  import opened Wrappers
  import opened Schema
  import Seqs
  import Text

  /** No category is listed twice. */
  predicate NoDuplicates(s: seq<string>)
  {
    forall i, j :: 0 <= i < j < |s| ==> s[i] != s[j]
  }

  /** The filter condition `c !== category`. */
  function Other(category: string): string -> bool
  {
    c => c != category
  }

  /** The new selection after ticking or unticking `category`. */
  function Toggle(prev: seq<string>, category: string): (r: seq<string>)
    ensures category in prev ==> category !in r
    ensures category !in prev ==> r == prev + [category]
    ensures forall i :: 0 <= i < |prev| && prev[i] != category ==> prev[i] in r
    ensures forall i :: 0 <= i < |r| && r[i] != category ==> r[i] in prev
    ensures category in prev ==> Seqs.IsSubsequence(r, prev)
    ensures category in prev ==> forall x :: x != category ==> multiset(r)[x] == multiset(prev)[x]
  {
    if category in prev then
      DropKeepsOtherCopies(prev, category);
      Seqs.Filter(prev, Other(category))
    else prev + [category]
  }

  /** Unticking a category keeps every copy of every other category. */
  lemma DropKeepsOtherCopies(prev: seq<string>, category: string)
    ensures forall x :: x != category ==> multiset(Seqs.Filter(prev, Other(category)))[x] == multiset(prev)[x]
  {
    forall x | x != category
      ensures multiset(Seqs.Filter(prev, Other(category)))[x] == multiset(prev)[x]
    {
      Seqs.FilterCount(prev, Other(category), x);
    }
  }

  /** Filtering keeps a list free of duplicates. */
  lemma {:induction false} FilterNoDuplicates(s: seq<string>, p: string -> bool)
    requires NoDuplicates(s)
    ensures NoDuplicates(Seqs.Filter(s, p))
  {
    if s != [] {
      var rest := Seqs.Filter(s[1..], p);
      FilterNoDuplicates(s[1..], p);
      if p(s[0]) {
        assert s[0] !in s[1..] by {
          forall j | 0 <= j < |s[1..]| ensures s[1..][j] != s[0] {
            assert s[1..][j] == s[j + 1];
          }
        }
        assert s[0] !in rest;
        var r := Seqs.Filter(s, p);
        assert r == [s[0]] + rest;
        forall i, j | 0 <= i < j < |r| ensures r[i] != r[j] {
          if i == 0 {
            assert r[j] == rest[j - 1];
          } else {
            assert r[i] == rest[i - 1] && r[j] == rest[j - 1];
          }
        }
      }
    }
  }

  /** Toggling keeps the selection free of duplicates. */
  lemma ToggleKeepsNoDuplicates(prev: seq<string>, category: string)
    requires NoDuplicates(prev)
    ensures NoDuplicates(Toggle(prev, category))
  {
    if category in prev {
      FilterNoDuplicates(prev, Other(category));
    }
  }

  /** Ticking an absent category and unticking it again gives back the same list. */
  lemma ToggleTwiceAbsent(prev: seq<string>, category: string)
    requires category !in prev
    ensures Toggle(Toggle(prev, category), category) == prev
  {
    Seqs.FilterAppend(prev, [category], Other(category));
    Seqs.FilterKeepsAll(prev, Other(category));
  }

  /** Toggling a category twice gives back the same set of categories. */
  lemma ToggleTwiceSameSet(prev: seq<string>, category: string, x: string)
    ensures x in Toggle(Toggle(prev, category), category) <==> x in prev
  {
    if category !in prev {
      ToggleTwiceAbsent(prev, category);
    } else {
      var once := Toggle(prev, category);
      var twice := Toggle(once, category);
      assert twice == once + [category];
      if x in prev && x != category {
        var i :| 0 <= i < |prev| && prev[i] == x;
      }
      if x in once {
        var i :| 0 <= i < |once| && once[i] == x;
      }
    }
  }

  /** A toast: its title, its text and whether it is shown as an error. */
  datatype Toast = Toast(title: string, description: string, destructive: bool)

  const NoUserToast := Toast("Error", "No user is selected.", true)
  const EmptySelectionToast := Toast("Error", "Please select at least one preference.", true)
  const SavedToast := Toast("Preferences Saved", "Your event preferences have been updated successfully.", false)
  const FailedToast := Toast("Error", "Failed to save preferences. Please try again later.", true)

  /** The call `handleSubmit` makes: whose preferences, and the selection. */
  datatype Submission = Submission(userId: int, categories: seq<string>)

  class PreferenceForm {
    var selectedCategories: seq<string>

    constructor ()
      ensures selectedCategories == []
    {
      selectedCategories := [];
    }

    /** `handleCategoryChange`. */
    method HandleCategoryChange(category: string)
      modifies this
      ensures selectedCategories == Toggle(old(selectedCategories), category)
    {
      selectedCategories := Toggle(selectedCategories, category);
    }

    /** The effect run when `currentUser` changes: a truthy preference string replaces the selection by its pieces. */
    method OnCurrentUserChange(currentUser: Option<User>)
      modifies this
      ensures currentUser.Some? && currentUser.value.preferences.Some? && currentUser.value.preferences.value != "" ==>
        selectedCategories == Text.Split(currentUser.value.preferences.value, ',')
      ensures !(currentUser.Some? && currentUser.value.preferences.Some? && currentUser.value.preferences.value != "") ==>
        selectedCategories == old(selectedCategories)
    {
      if currentUser.Some? && currentUser.value.preferences.Some? && currentUser.value.preferences.value != "" {
        selectedCategories := Text.Split(currentUser.value.preferences.value, ',');
      }
    }

    /**
     * `handleSubmit`: refuses without a user or with nothing ticked;
     * otherwise calls `updatePreferences` once. `resolves` is how the
     * returned promise settles; the selection is not changed.
     */
    method HandleSubmit(currentUser: Option<User>, resolves: bool) returns (call: Option<Submission>, toast: Toast)
      ensures currentUser.None? ==> call == None && toast == NoUserToast
      ensures currentUser.Some? && selectedCategories == [] ==> call == None && toast == EmptySelectionToast
      ensures currentUser.Some? && selectedCategories != [] ==>
        call == Some(Submission(currentUser.value.id, selectedCategories))
        && (toast == SavedToast <==> resolves)
        && (toast == FailedToast <==> !resolves)
    {
      if currentUser.None? {
        return None, NoUserToast;
      }
      if |selectedCategories| == 0 {
        return None, EmptySelectionToast;
      }
      call := Some(Submission(currentUser.value.id, selectedCategories));
      toast := if resolves then SavedToast else FailedToast;
    }
  }
}
