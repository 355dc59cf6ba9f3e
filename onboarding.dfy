/** The onboarding page (`OnboardingPage` component): pick at most five categories,
    then write them as the user's whole document. */
module Onboarding {
  import opened Common
  import opened Store
  import opened Selection

  const MaxSelected: nat := 5
  const CapError: string := "You can select up to 5 categories only."
  const SaveError: string := "Failed to save preferences. Please try again."

  /** The selection and the error message after `toggleCategory(category)`. */
  function CappedToggle(selected: seq<string>, category: string): (seq<string>, string) {
    if category in selected then (Without(selected, category), "")
    else if |selected| >= MaxSelected then (selected, CapError)
    else (selected + [category], "")
  }

  /** The three outcomes of a toggle, by membership: a selected category is
      removed, an unselected one is added unless five are selected (which leaves
      the selection alone and reports the cap), and no other category moves. */
  lemma ToggleOutcome(selected: seq<string>, category: string)
    ensures var (after, error) := CappedToggle(selected, category);
      && (category in after <==> category !in selected && |selected| < MaxSelected)
      && (forall c :: c != category ==> (c in after <==> c in selected))
      && (error == CapError <==> category !in selected && |selected| >= MaxSelected)
      && (error != CapError ==> error == "")
      && (category !in selected && |selected| >= MaxSelected ==> after == selected)
      && (category !in selected && |selected| < MaxSelected ==> after == selected + [category])
  {
  }

  /** The page invariant: at most five categories, none twice. */
  ghost predicate ValidSelection(selected: seq<string>) {
    |selected| <= MaxSelected && NoDup(selected)
  }

  lemma ToggleKeepsValid(selected: seq<string>, category: string)
    requires ValidSelection(selected)
    ensures ValidSelection(CappedToggle(selected, category).0)
  {
    if category !in selected && |selected| < MaxSelected {
      var after := selected + [category];
      forall i, j | 0 <= i < j < |after| ensures after[i] != after[j] {
        if j == |selected| {
          assert after[i] in selected;
        }
      }
    }
  }

  /** `setDoc(doc(db, 'users', uid), {preferences, createdAt})` without `merge`: the
      whole document is replaced. */
  function OverwrittenDoc(selected: seq<string>, now: Timestamp): (d: UserDoc)
    ensures PreferencesOf(d) == selected
    ensures HistoryOf(d) == [] && d.others == map[] && d.updatedAt == None
    ensures d.createdAt == Some(now)
  {
    UserDoc(None, Some(selected), Some(now), None, map[])
  }

  /** Saving over a document with a watch history loses that history, so the home
      feed of that user falls back from the personalized tier. */
  lemma SaveDropsHistory(before: UserDoc, selected: seq<string>, now: Timestamp)
    requires |HistoryOf(before)| > 0
    ensures HistoryOf(OverwrittenDoc(selected, now)) != HistoryOf(before)
  {
  }

  class OnboardingPage {
    const user: Option<Uid>
    var selected: seq<string>
    var error: string
    var loading: bool

    ghost predicate Valid()
      reads this
    {
      ValidSelection(selected)
    }

    constructor (user: Option<Uid>)
      ensures this.user == user && selected == [] && error == "" && !loading
      ensures Valid()
    {
      this.user := user;
      selected, error, loading := [], "", false;
    }

    /** `disabled={selected.length === 0 || loading}` of the save button. */
    predicate CanSave()
      reads this
    {
      |selected| > 0 && !loading
    }

    /** `toggleCategory(category)` */
    method ToggleCategory(category: string)
      requires Valid()
      modifies this`selected, this`error
      ensures Valid()
      ensures (selected, error) == CappedToggle(old(selected), category)
    {
      ToggleKeepsValid(selected, category);
      if category in selected {
        selected := Without(selected, category);
      } else {
        if |selected| >= MaxSelected {
          error := CapError;
          return;
        }
        selected := selected + [category];
      }
      error := "";
    }

    /** `savePreferences()`. `writeFails` says whether the store rejects the write,
        `now` is the server timestamp. */
    method SavePreferences(store: UserStore, now: Timestamp, writeFails: bool)
      modifies this`error, this`loading, store
      ensures user == None ==> store.users == old(store.users) && error == old(error) && loading == old(loading)
      ensures user.Some? && writeFails ==> store.users == old(store.users) && error == SaveError && !loading
      ensures user.Some? && !writeFails ==>
                store.users == old(store.users)[user.value := OverwrittenDoc(selected, now)] &&
                error == old(error) && !loading
      ensures selected == old(selected)
    {
      if user == None {
        return;
      }
      loading := true;
      if writeFails {
        error := SaveError;
      } else {
        store.users := store.users[user.value := OverwrittenDoc(selected, now)];
      }
      loading := false;
    }
  }

  /** While the save button is enabled, a save writes the page's own choice: one to
      five distinct categories, so the document it writes always has preferences. */
  lemma EnabledSaveWritesPreferences(page: OnboardingPage, now: Timestamp)
    requires page.Valid() && page.CanSave()
    ensures var prefs := PreferencesOf(OverwrittenDoc(page.selected, now));
      prefs == page.selected && 1 <= |prefs| <= MaxSelected && NoDup(prefs)
  {
  }
}
