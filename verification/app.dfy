/**
 The similarity report that `process_image` (app.py) attaches to the
 extracted fields: the caller's optional `Name` and `Date of Birth` form
 values are trimmed and compared, upper-cased, with the extracted ones.

 The score `round(difflib.SequenceMatcher(None, a, b).ratio(), 2)` is a
 parameter, `ratio(a, b)`; it yields None where computing it raises.
 */
module App {
  import opened PyStr
  import opened NidExtractor

  /** The request's form: the two optional fields, or a form that raises when read. */
  datatype Form = Form(name: Option<string>, dateOfBirth: Option<string>) | FormUnreadable

  /** `request.form.get(key, "").strip()`, and "" when reading the form raises. */
  function Provided(form: Form, field: Option<string>): string {
    if form.FormUnreadable? then ""
    else match field
      case None => ""
      case Some(v) => Strip(v)
  }

  function ProvidedName(form: Form): string {
    if form.Form? then Provided(form, form.name) else ""
  }

  function ProvidedDob(form: Form): string {
    if form.Form? then Provided(form, form.dateOfBirth) else ""
  }

  /** One similarity slot: None, a rounded score, or a sentinel string. */
  datatype Slot = Unset | Score(ratio: real) | NotAvailable(sentinel: string)

  datatype Similarity =
    | NoComparisonData                                          // {"status": "no_comparison_data_provided"}
    | PartialComparison(nameSimilarity: Slot, dobSimilarity: Slot) // {"status": "partial_comparison", ...}
    | ErrorCalculating                                          // {"status": "error_calculating_similarity"}

  datatype Response = Response(fields: NidData, similarity: Similarity)

  type Ratio = (string, string) -> Option<real>

  const NameSentinel := "no_extracted_name_available"
  const DobSentinel := "no_extracted_dob_available"

  /** Scoring this field raises. */
  predicate ScoringFails(provided: string, extracted: string, ratio: Ratio) {
    provided != "" && extracted != "" && ratio(Upper(provided), Upper(extracted)).None?
  }

  /** What one slot means: unset exactly when nothing was provided, the
      sentinel exactly when a value was provided but none extracted, and
      otherwise the score of the two upper-cased values. */
  predicate SlotMeans(slot: Slot, provided: string, extracted: string, sentinel: string, ratio: Ratio) {
    && (slot.Unset? <==> provided == "")
    && (slot.NotAvailable? <==> provided != "" && extracted == "")
    && (slot.NotAvailable? ==> slot.sentinel == sentinel)
    && (slot.Score? ==> ratio(Upper(provided), Upper(extracted)) == Some(slot.ratio))
  }

  /** One slot, or None when scoring it raises. */
  function SlotFor(provided: string, extracted: string, sentinel: string, ratio: Ratio): Option<Slot> {
    if provided != "" && extracted != "" then
      match ratio(Upper(provided), Upper(extracted))
      case None => None
      case Some(x) => Some(Score(x))
    else if provided != "" then Some(NotAvailable(sentinel))
    else Some(Unset)
  }

  /** The report for trimmed provided values and stripped extracted values. */
  function SimilarityOf(providedName: string, providedDob: string, extractedName: string, extractedDob: string, ratio: Ratio): (r: Similarity)
    ensures r == NoComparisonData <==> providedName == "" && providedDob == ""
    ensures r == ErrorCalculating <==>
      (providedName != "" || providedDob != "") &&
      (ScoringFails(providedName, extractedName, ratio) || ScoringFails(providedDob, extractedDob, ratio))
    ensures r.PartialComparison? ==>
      && SlotMeans(r.nameSimilarity, providedName, extractedName, NameSentinel, ratio)
      && SlotMeans(r.dobSimilarity, providedDob, extractedDob, DobSentinel, ratio)
  {
    if providedName == "" && providedDob == "" then NoComparisonData
    else
      match (SlotFor(providedName, extractedName, NameSentinel, ratio), SlotFor(providedDob, extractedDob, DobSentinel, ratio))
      case (Some(nameSlot), Some(dobSlot)) => PartialComparison(nameSlot, dobSlot)
      case _ => ErrorCalculating
  }

  /** The score depends on the compared values only through their upper-cased forms. */
  lemma SimilarityDependsOnUpperCase(
    pn: string, pd: string, en: string, ed: string,
    pn': string, pd': string, en': string, ed': string, ratio: Ratio)
    requires Upper(pn) == Upper(pn') && Upper(pd) == Upper(pd')
    requires Upper(en) == Upper(en') && Upper(ed) == Upper(ed')
    ensures SimilarityOf(pn, pd, en, ed, ratio) == SimilarityOf(pn', pd', en', ed', ratio)
  {
    assert |pn| == |Upper(pn)| && |pn'| == |Upper(pn')| && |pd| == |Upper(pd)| && |pd'| == |Upper(pd')|;
    assert |en| == |Upper(en)| && |en'| == |Upper(en')| && |ed| == |Upper(ed)| && |ed'| == |Upper(ed')|;
  }

  /** The scoring of one field (lines 150 to 155, and 158 to 163, of app.py):
      None when computing the score raises. */
  method ScoreField(provided: string, extracted: string, sentinel: string, ratio: Ratio) returns (slot: Option<Slot>)
    ensures slot.None? <==> ScoringFails(provided, extracted, ratio)
    ensures slot.Some? ==> SlotMeans(slot.value, provided, extracted, sentinel, ratio)
    ensures slot == SlotFor(provided, extracted, sentinel, ratio)
  {
    slot := Some(Unset);
    if provided != "" && extracted != "" {
      var score := ratio(Upper(provided), Upper(extracted));
      if score.Some? {
        slot := Some(Score(score.value));
      } else {
        slot := None;
      }
    } else if provided != "" {
      slot := Some(NotAvailable(sentinel));
    }
  }

  /** Lines 133 to 168 of app.py: read and trim the form values, then build the
      similarity report; the extracted fields are passed through untouched. */
  method AttachSimilarity(result: NidData, form: Form, ratio: Ratio) returns (response: Response)
    ensures response.fields == result
    ensures response.similarity ==
      SimilarityOf(ProvidedName(form), ProvidedDob(form), Strip(result.name), Strip(result.dateOfBirth), ratio)
    ensures form.FormUnreadable? ==> response.similarity == NoComparisonData
  {
    var providedName := ProvidedName(form);
    var providedDob := ProvidedDob(form);
    var similarity;
    if providedName == "" && providedDob == "" {
      similarity := NoComparisonData;
    } else {
      similarity := ErrorCalculating;
      var nameSlot := ScoreField(providedName, Strip(result.name), NameSentinel, ratio);
      if nameSlot.Some? {
        var dobSlot := ScoreField(providedDob, Strip(result.dateOfBirth), DobSentinel, ratio);
        if dobSlot.Some? {
          similarity := PartialComparison(nameSlot.value, dobSlot.value);
        }
      }
    }
    response := Response(result, similarity);
  }
}
