/** The subcategory job (`subcat.py`): join a video's title, description and
    transcript, and turn the zero-shot classifier's answer for that text into one
    of the eleven categories or "unknown". */
module Subcategory {
  import opened Common
  import opened Selection

  /** `CONFIDENCE_THRESHOLD` */
  const ConfidenceThreshold: real := 0.3
  const Unknown: string := "unknown"

  /** The classifier's result: the candidate labels and their scores, position by
      position. */
  datatype Classification = Classification(labels: seq<string>, scores: seq<real>)

  /** What the classifier returns for the candidate labels: every label once, each
      with a score. */
  predicate WellFormed(out: Classification) {
    && |out.labels| == |out.scores| == |Categories|
    && (forall k :: 0 <= k < |out.labels| ==> out.labels[k] in Categories)
    && (forall a, b :: 0 <= a < b < |out.labels| ==> out.labels[a] != out.labels[b])
  }

  /** `max(scores)` */
  function MaxScore(scores: seq<real>): (m: real)
    requires |scores| > 0
    ensures m in scores
    ensures forall j :: 0 <= j < |scores| ==> scores[j] <= m
  {
    if |scores| == 1 then scores[0]
    else
      var front := MaxScore(scores[..|scores| - 1]);
      var last := scores[|scores| - 1];
      if last > front then last else front
  }

  /** `classify_subcategory(text)`, where `out` is what the classifier answers for
      `text` (it is not consulted for blank text). */
  function ClassifySubcategory(text: string, out: Classification): (r: string)
    requires IsPythonBlank(text) || WellFormed(out)
    ensures r == Unknown || r in Categories
  {
    if IsPythonBlank(text) then Unknown else Decide(out)
  }

  /** The rule applied to the classifier's answer: the label of the first highest
      score, unless that score is below the threshold. */
  function Decide(out: Classification): (r: string)
    requires WellFormed(out)
    ensures r == Unknown || r in Categories
  {
    var maxScore := MaxScore(out.scores);
    var k := IndexOf(out.scores, maxScore);
    LabelIsCategory(out, k);
    if maxScore < ConfidenceThreshold then Unknown
    else out.labels[k]
  }

  /** Blank text is "unknown" whatever the classifier would say. */
  lemma BlankIsUnknown(text: string, out: Classification)
    requires IsPythonBlank(text)
    ensures ClassifySubcategory(text, out) == Unknown
  {
  }

  /** For other text: "unknown" exactly when every score is below the threshold;
      otherwise the label at the first position holding the highest score. */
  lemma ClassifyDecision(text: string, out: Classification)
    requires !IsPythonBlank(text) && WellFormed(out)
    ensures ClassifySubcategory(text, out) == Unknown <==>
              forall j :: 0 <= j < |out.scores| ==> out.scores[j] < ConfidenceThreshold
    ensures ClassifySubcategory(text, out) != Unknown ==>
              exists k :: 0 <= k < |out.labels|
                && ClassifySubcategory(text, out) == out.labels[k]
                && out.scores[k] >= ConfidenceThreshold
                && (forall j :: 0 <= j < |out.scores| ==> out.scores[j] <= out.scores[k])
                && (forall j :: 0 <= j < k ==> out.scores[j] < out.scores[k])
  {
    assert ClassifySubcategory(text, out) == Decide(out);
    DecideRule(out);
  }

  lemma DecideRule(out: Classification)
    requires WellFormed(out)
    ensures Decide(out) == Unknown <==>
              forall j :: 0 <= j < |out.scores| ==> out.scores[j] < ConfidenceThreshold
    ensures Decide(out) != Unknown ==>
              exists k :: 0 <= k < |out.labels|
                && Decide(out) == out.labels[k]
                && out.scores[k] >= ConfidenceThreshold
                && (forall j :: 0 <= j < |out.scores| ==> out.scores[j] <= out.scores[k])
                && (forall j :: 0 <= j < k ==> out.scores[j] < out.scores[k])
  {
    var m := MaxScore(out.scores);
    var k := IndexOf(out.scores, m);
    LabelIsCategory(out, k);
    if m >= ConfidenceThreshold {
      assert Decide(out) == out.labels[k];
      assert out.scores[k] == m;
      assert forall j :: 0 <= j < k ==> out.scores[j] < out.scores[k];
    }
  }

  /** `strip()` also removes the separators `\x1c`-`\x1f`, which JavaScript's
      `trim()` keeps: a text holding only one of them is "unknown" without
      consulting the classifier. */
  lemma SeparatorOnlyIsUnknown(out: Classification)
    ensures IsPythonBlank("\U{1C}") && !IsBlank("\U{1C}")
    ensures ClassifySubcategory("\U{1C}", out) == Unknown
  {
    assert "\U{1C}"[0] == '\U{1C}';
  }

  /** Every label the classifier returns is a category, never "unknown". */
  lemma LabelIsCategory(out: Classification, k: nat)
    requires WellFormed(out) && k < |out.labels|
    ensures k < |out.scores| && out.labels[k] in Categories && out.labels[k] != Unknown
  {
    UnknownIsNotCategory();
  }

  lemma UnknownIsNotCategory()
    ensures Unknown !in Categories
  {
    forall i | 0 <= i < |Categories| ensures Categories[i] != Unknown {
      assert Categories[i][0] != Unknown[0] || |Categories[i]| != |Unknown|;
    }
  }

  /** The non-empty parts, in order (`filter(None, parts)`): a missing or empty
      field is skipped. */
  function NonEmpty(parts: seq<Option<string>>): (r: seq<string>)
    ensures forall k :: 0 <= k < |r| ==> r[k] != [] && Some(r[k]) in parts
    ensures forall k :: 0 <= k < |parts| && parts[k].Some? && parts[k].value != [] ==> parts[k].value in r
    ensures |r| <= |parts|
  {
    if parts == [] then []
    else if parts[0].Some? && parts[0].value != [] then [parts[0].value] + NonEmpty(parts[1..])
    else NonEmpty(parts[1..])
  }

  /** The kept parts keep their order: the parts of a concatenation are kept part by
      part. */
  lemma {:induction false} NonEmptyAppend(a: seq<Option<string>>, b: seq<Option<string>>)
    ensures NonEmpty(a + b) == NonEmpty(a) + NonEmpty(b)
  {
    if a == [] {
      assert a + b == b;
    } else {
      assert (a + b)[0] == a[0];
      assert (a + b)[1..] == a[1..] + b;
      NonEmptyAppend(a[1..], b);
    }
  }

  /** `" ".join(pieces)` */
  function Join(pieces: seq<string>): (r: string)
  {
    if |pieces| == 0 then ""
    else if |pieces| == 1 then pieces[0]
    else pieces[0] + " " + Join(pieces[1..])
  }

  /** The text classified for a video: title, description and transcript. */
  function CombinedText(title: Option<string>, description: Option<string>, transcript: Option<string>): string {
    Join(NonEmpty([title, description, transcript]))
  }

  /** A join of non-empty pieces is empty only when there are no pieces. */
  lemma JoinEmpty(pieces: seq<string>)
    requires forall k :: 0 <= k < |pieces| ==> pieces[k] != []
    ensures Join(pieces) == [] <==> pieces == []
  {
    if |pieces| > 0 {
      assert pieces[0] != [];
      assert |Join(pieces)| >= |pieces[0]|;
    }
  }

  /** A join is blank exactly when every piece is. */
  lemma {:induction false} JoinBlank(pieces: seq<string>)
    ensures IsPythonBlank(Join(pieces)) <==> forall k :: 0 <= k < |pieces| ==> IsPythonBlank(pieces[k])
  {
    if |pieces| > 1 {
      JoinBlank(pieces[1..]);
      var rest := Join(pieces[1..]);
      var joined := pieces[0] + " " + rest;
      assert forall i :: 0 <= i < |pieces[0]| ==> joined[i] == pieces[0][i];
      assert forall i :: 0 <= i < |rest| ==> joined[|pieces[0]| + 1 + i] == rest[i];
      if IsPythonBlank(joined) {
        forall k | 0 <= k < |pieces| ensures IsPythonBlank(pieces[k]) {
          if k > 0 {
            assert pieces[k] == pieces[1..][k - 1];
          }
        }
      }
    }
  }

  /** Dropping the empty parts changes neither whether every present part is
      blank nor whether every present part is empty. */
  lemma NonEmptyBlank(parts: seq<Option<string>>)
    ensures (forall k :: 0 <= k < |NonEmpty(parts)| ==> IsPythonBlank(NonEmpty(parts)[k])) <==>
            (forall k :: 0 <= k < |parts| && parts[k].Some? ==> IsPythonBlank(parts[k].value))
    ensures NonEmpty(parts) == [] <==> forall k :: 0 <= k < |parts| && parts[k].Some? ==> parts[k].value == []
  {
    var r := NonEmpty(parts);
    forall k | 0 <= k < |r|
      ensures exists j :: 0 <= j < |parts| && parts[j] == Some(r[k])
    {
      assert Some(r[k]) in parts;
    }
  }

  /** The combined text is blank, so the video is "unknown", exactly when every
      present field is blank; and it is empty exactly when every field is missing
      or empty. */
  lemma CombinedTextBlank(title: Option<string>, description: Option<string>, transcript: Option<string>)
    ensures IsPythonBlank(CombinedText(title, description, transcript)) <==>
              (title.Some? ==> IsPythonBlank(title.value)) &&
              (description.Some? ==> IsPythonBlank(description.value)) &&
              (transcript.Some? ==> IsPythonBlank(transcript.value))
    ensures CombinedText(title, description, transcript) == [] <==>
              (title.Some? ==> title.value == []) &&
              (description.Some? ==> description.value == []) &&
              (transcript.Some? ==> transcript.value == [])
  {
    var parts := [title, description, transcript];
    JoinBlank(NonEmpty(parts));
    NonEmptyBlank(parts);
    JoinEmpty(NonEmpty(parts));
    assert parts[0] == title && parts[1] == description && parts[2] == transcript;
  }
}
