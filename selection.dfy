/** What the two preference pages share: the fixed list of categories (the same
    eleven labels the subcategory classifier chooses from) and removing a category
    from a selection. */
module Selection {
  import opened Common

  /** `categories` of both preference pages, `candidate_labels` of the classifier. */
  const Categories: seq<string> := [
    "sports", "finance", "entertainment", "politics", "technology", "health",
    "world", "weather", "crime", "education", "science"]

  lemma CategoriesDistinct()
    ensures |Categories| == 11 && NoDup(Categories)
  {
  }

  /** `prev.filter((c) => c !== category)` */
  function Without(selected: seq<string>, category: string): (r: seq<string>)
    ensures category !in r
    ensures forall c :: c in r <==> c in selected && c != category
    ensures |r| <= |selected|
    ensures category in selected ==> |r| < |selected|
    ensures NoDup(selected) ==> NoDup(r)
  {
    FilterLemmas(selected, (c: string) => c != category, category);
    Filter(selected, (c: string) => c != category)
  }

  lemma FilterLemmas(s: seq<string>, keep: string -> bool, x: string)
    ensures x in s && !keep(x) ==> |Filter(s, keep)| < |s|
    ensures NoDup(s) ==> NoDup(Filter(s, keep))
  {
    if x in s && !keep(x) {
      FilterDrops(s, keep, x);
    }
    if NoDup(s) {
      FilterNoDup(s, keep);
    }
  }

  /** Removing a category that is not selected changes nothing, and removing it
      from a selection that ends with it gives back the rest. */
  lemma {:induction false} WithoutAbsent(selected: seq<string>, category: string)
    requires category !in selected
    ensures Without(selected, category) == selected
    ensures Without(selected + [category], category) == selected
  {
    var keep := (c: string) => c != category;
    FilterKeepsAll(selected, keep);
    FilterAppend(selected, [category], keep);
    assert Filter([category], keep) == [];
  }
}
