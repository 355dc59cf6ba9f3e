/** The change-preferences page (`ChangePreferencePage` component): load the stored
    preferences, toggle categories without a cap, select or clear all of them, and
    merge the selection into the user's document. */
module ChangePreferences {
  import opened Common
  import opened Store
  import opened Selection

  const UserError: string := "User not found."
  const EmptyError: string := "Please select at least one category."
  const SaveError: string := "Failed to save preferences. Please try again."
  const LoadError: string := "Failed to load preferences."

  /** The selection after `toggleCategory(category)`. */
  function Toggle(selected: seq<string>, category: string): seq<string> {
    if category in selected then Without(selected, category) else selected + [category]
  }

  /** A toggle flips the membership of its category and of no other one, and keeps
      a duplicate-free selection duplicate-free. */
  lemma ToggleFlips(selected: seq<string>, category: string)
    ensures category in Toggle(selected, category) <==> category !in selected
    ensures forall c :: c != category ==> (c in Toggle(selected, category) <==> c in selected)
    ensures NoDup(selected) ==> NoDup(Toggle(selected, category))
  {
    if category !in selected {
      var after := selected + [category];
      forall i, j | 0 <= i < j < |after| && NoDup(selected) ensures after[i] != after[j] {
        if j == |selected| {
          assert after[i] in selected;
        }
      }
    }
  }

  /** Toggling the same category twice restores the set of selected categories;
      when the category was not selected it restores the selection exactly (a
      selected category moves to the end). */
  lemma ToggleTwice(selected: seq<string>, category: string)
    ensures forall c :: c in Toggle(Toggle(selected, category), category) <==> c in selected
    ensures category !in selected ==> Toggle(Toggle(selected, category), category) == selected
  {
    ToggleFlips(selected, category);
    ToggleFlips(Toggle(selected, category), category);
    if category !in selected {
      WithoutAbsent(selected, category);
    }
  }

  /** `setDoc(doc(db, 'users', uid), {preferences, updatedAt}, { merge: true })`:
      the two fields are replaced and every other field is kept; a missing document
      is created with just those two. */
  function MergedDoc(before: Option<UserDoc>, selected: seq<string>, now: Timestamp): (d: UserDoc)
    ensures PreferencesOf(d) == selected && d.updatedAt == Some(now)
    ensures before.Some? ==> d.watchHistory == before.value.watchHistory && d.createdAt == before.value.createdAt
                             && d.others == before.value.others
    ensures before == None ==> HistoryOf(d) == [] && d.createdAt == None && d.others == map[]
  {
    match before
    case Some(doc) => doc.(preferences := Some(selected), updatedAt := Some(now))
    case None => UserDoc(None, Some(selected), None, Some(now), map[])
  }

  /** Unlike the onboarding save, changing preferences keeps the watch history, so
      the personalized tier of the home feed is unaffected. */
  lemma SaveKeepsHistory(before: UserDoc, selected: seq<string>, now: Timestamp)
    ensures HistoryOf(MergedDoc(Some(before), selected, now)) == HistoryOf(before)
  {
  }

  class ChangePreferencePage {
    const user: Option<Uid>
    var selected: seq<string>
    var error: string
    var loading: bool
    var loadingPrefs: bool

    constructor (user: Option<Uid>)
      ensures this.user == user && selected == [] && error == "" && !loading && loadingPrefs
    {
      this.user := user;
      selected, error, loading, loadingPrefs := [], "", false, true;
    }

    /** The effect that runs `fetchPreferences` when the user is known. `readFails`
        says whether the read throws. */
    method LoadPreferences(users: map<Uid, UserDoc>, readFails: bool)
      modifies this`selected, this`error, this`loadingPrefs
      ensures user == None ==> selected == old(selected) && error == old(error) && loadingPrefs == old(loadingPrefs)
      ensures user.Some? && readFails ==> selected == old(selected) && error == LoadError && !loadingPrefs
      ensures user.Some? && !readFails ==> error == old(error) && !loadingPrefs
      ensures user.Some? && !readFails && user.value in users && users[user.value].preferences.Some? ==>
                selected == users[user.value].preferences.value
      ensures user.Some? && !readFails && (user.value !in users || users[user.value].preferences == None) ==>
                selected == old(selected)
    {
      if user == None {
        return;
      }
      loadingPrefs := true;
      if readFails {
        error := LoadError;
      } else if user.value in users {
        var data := users[user.value];
        if data.preferences.Some? {
          selected := data.preferences.value;
        }
      }
      loadingPrefs := false;
    }

    /** `toggleCategory(category)` */
    method ToggleCategory(category: string)
      modifies this`selected, this`error
      ensures selected == Toggle(old(selected), category) && error == ""
    {
      error := "";
      if category in selected {
        selected := Without(selected, category);
      } else {
        selected := selected + [category];
      }
    }

    /** `selectAll()` */
    method SelectAll()
      modifies this`selected, this`error
      ensures selected == Categories && error == ""
    {
      selected := Categories;
      error := "";
    }

    /** `clearAll()` */
    method ClearAll()
      modifies this`selected, this`error
      ensures selected == [] && error == ""
    {
      selected := [];
      error := "";
    }

    /** `savePreferences()`. `writeFails` says whether the store rejects the write,
        `now` is the server timestamp. */
    method SavePreferences(store: UserStore, now: Timestamp, writeFails: bool)
      modifies this`error, this`loading, store
      ensures user == None ==> store.users == old(store.users) && error == UserError && loading == old(loading)
      ensures user.Some? && |selected| == 0 ==> store.users == old(store.users) && error == EmptyError && loading == old(loading)
      ensures user.Some? && |selected| > 0 && writeFails ==> store.users == old(store.users) && error == SaveError && !loading
      ensures user.Some? && |selected| > 0 && !writeFails ==>
                var before := if user.value in old(store.users) then Some(old(store.users)[user.value]) else None;
                store.users == old(store.users)[user.value := MergedDoc(before, selected, now)] &&
                error == old(error) && !loading
      ensures selected == old(selected)
    {
      if user == None {
        error := UserError;
        return;
      }
      if |selected| == 0 {
        error := EmptyError;
        return;
      }
      loading := true;
      if writeFails {
        error := SaveError;
      } else {
        var before := if user.value in store.users then Some(store.users[user.value]) else None;
        store.users := store.users[user.value := MergedDoc(before, selected, now)];
      }
      loading := false;
    }
  }
}
