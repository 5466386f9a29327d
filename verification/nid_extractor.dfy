/**
 `extract_nid_fields` of nid_extractor.py: the OCR output is joined into one
 flat text, and three ordered pattern cascades pick the holder's name, the
 date of birth and the ID number out of it.

 The regular expressions are not reimplemented: `search(p, text)` stands for
 `re.search(p, text).group(1)` (None when the pattern does not match). The
 two patterns that are plain digit runs, `\b(\d{10}|\d{13}|\d{17})\b` and
 `\b(\d{10,})\b`, are written out in `FindDigitRun`.
 */
module NidExtractor {
  import opened PyStr
  import opened Cascade

  // ---------------------------------------------------------------------------
  // Patterns

  datatype Pattern =
    // name patterns
    | NameLabelUpper    // `Name` label, then an upper-case run up to a known terminator
    | NameLabelLoose    // `Name` label, then 3 to 31 letters, spaces or dots
    | NameHonorific     // `Md.` / `MD` prefix, then two or three words
    | NameLabelAllCaps  // `Name` label, then two or three all-caps words
    // date-of-birth patterns
    | DobLabelAbbrev    // label, day, month abbreviation, year
    | DobLabelNumeric   // label, numeric day/month/year
    | DobFullMonth      // day, full month name, four-digit year
    | DobAbbrev         // day, month abbreviation, year
    // ID-number patterns
    | IdLabelNo         // `ID NO` label and a number with separators
    | IdNidNo           // `NID No` label and a number with separators
    | IdSpacedGroups    // 3-3-4 digit groups separated by whitespace
    | IdCanonicalRun    // `\b(\d{10}|\d{13}|\d{17})\b`
    | IdMachineZone     // `<` or `I`, `BGD`, nine or more digits
    | IdGenericLabel    // `ID`/`NID`/`Number`/`No` label and a number with separators
    | IdLooseGroups     // 3-3-4 digit groups with optional separators
    | IdLongRun         // `\b(\d{10,})\b`

  const NamePatterns: seq<Pattern> := [NameLabelUpper, NameLabelLoose, NameHonorific, NameLabelAllCaps]
  const DobPatterns: seq<Pattern> := [DobLabelAbbrev, DobLabelNumeric, DobFullMonth, DobAbbrev]
  const IdPatterns: seq<Pattern> :=
    [IdLabelNo, IdNidNo, IdSpacedGroups, IdCanonicalRun, IdMachineZone, IdGenericLabel, IdLooseGroups, IdLongRun]

  /** `re.search(pattern, text).group(1)` for the patterns not written out here
      (every name and date pattern, and six of the eight ID patterns). */
  type Search = (Pattern, string) -> Option<string>

  // ---------------------------------------------------------------------------
  // The two digit-run patterns

  /** `\w` over ASCII: letters, digits and the underscore. */
  predicate IsWordChar(c: char) {
    ('a' <= c <= 'z') || ('A' <= c <= 'Z') || IsDigit(c) || c == '_'
  }

  /** The end of the run of digits that starts at `i`. */
  function DigitRunEnd(s: string, i: nat): (e: nat)
    requires i <= |s|
    ensures i <= e <= |s|
    ensures forall j :: i <= j < e ==> IsDigit(s[j])
    ensures e < |s| ==> !IsDigit(s[e])
    decreases |s| - i
  {
    if i < |s| && IsDigit(s[i]) then DigitRunEnd(s, i + 1) else i
  }

  predicate IsCanonicalIdLength(n: nat) {
    n == 10 || n == 13 || n == 17
  }

  datatype RunRule = CanonicalRun | AtLeastTen

  predicate Admits(rule: RunRule, n: nat) {
    match rule
    case CanonicalRun => IsCanonicalIdLength(n)
    case AtLeastTen => n >= 10
  }

  /**
   A run of digits starting at `k` with a word boundary on both sides and an
   admitted length: exactly where `\b(\d{10}|\d{13}|\d{17})\b` (CanonicalRun)
   or `\b(\d{10,})\b` (AtLeastTen) can match. Inside a run there is no word
   boundary, so a match always spans a whole run.
   */
  predicate BoundedRunAt(s: string, rule: RunRule, k: nat) {
    && k < |s| && IsDigit(s[k])
    && (k == 0 || !IsWordChar(s[k - 1]))
    && var e := DigitRunEnd(s, k);
       Admits(rule, e - k) && (e == |s| || !IsWordChar(s[e]))
  }

  /** `k` is the first position from `i` on where the pattern matches. */
  predicate LeftmostRunAt(s: string, rule: RunRule, i: nat, k: nat) {
    i <= k && BoundedRunAt(s, rule, k) && forall j :: i <= j < k ==> !BoundedRunAt(s, rule, j)
  }

  /** `re.search` for one of the digit-run patterns, trying start positions from `i` on. */
  function FindDigitRun(s: string, rule: RunRule, i: nat): (r: Option<string>)
    requires i <= |s|
    ensures r.Some? <==> exists k :: i <= k < |s| && BoundedRunAt(s, rule, k)
    ensures r.Some? ==> Admits(rule, |r.value|) && forall j :: 0 <= j < |r.value| ==> IsDigit(r.value[j])
    decreases |s| - i
  {
    if i == |s| then None
    else if BoundedRunAt(s, rule, i) then Some(s[i..DigitRunEnd(s, i)])
    else FindDigitRun(s, rule, i + 1)
  }

  /** The match is the whole run at the leftmost position where the pattern matches. */
  lemma {:induction false} FindDigitRunLeftmost(s: string, rule: RunRule, i: nat, k: nat)
    requires i <= |s| && LeftmostRunAt(s, rule, i, k)
    ensures FindDigitRun(s, rule, i) == Some(s[k..DigitRunEnd(s, k)])
    decreases |s| - i
  {
    if i < k {
      assert LeftmostRunAt(s, rule, i + 1, k);
      FindDigitRunLeftmost(s, rule, i + 1, k);
    }
  }

  /** The group an ID pattern yields on `text`. */
  function Find(search: Search, p: Pattern, text: string): Option<string> {
    match p
    case IdCanonicalRun => FindDigitRun(text, CanonicalRun, 0)
    case IdLongRun => FindDigitRun(text, AtLeastTen, 0)
    case _ => search(p, text)
  }

  // ---------------------------------------------------------------------------
  // Per-field verdicts

  const NameBlacklist: seq<string> := [
    "NATIONAL ID CARD", "ID CARD", "BANGLADESH", "GOVERNMENT",
    "PEOPLES", "REPUBLIC", "CARD", "NATIONAL", "DATE OF BIRTH",
    "GOVERMENT", "soeezledt", "offthe", "Republic"
  ]

  /** Some phrase of `phrases`, lower-cased, occurs in `lowered`. */
  predicate AnyOccurs(lowered: string, phrases: seq<string>) {
    phrases != [] && (Contains(lowered, Lower(phrases[0])) || AnyOccurs(lowered, phrases[1..]))
  }

  lemma {:induction false} NothingOccursInEmpty(phrases: seq<string>)
    requires forall k :: 0 <= k < |phrases| ==> phrases[k] != ""
    ensures !AnyOccurs(Lower(""), phrases)
  {
    if phrases != [] {
      assert |Lower(phrases[0])| > 0;
      NothingOccursInEmpty(phrases[1..]);
    }
  }

  /** Some blacklisted phrase occurs in the candidate, ignoring case. */
  predicate Blacklisted(candidate: string) {
    AnyOccurs(Lower(candidate), NameBlacklist)
  }

  /** Accepted at once: contains a space and is 4 to 40 characters long. */
  predicate IsFullName(candidate: string) {
    ' ' in candidate && 4 <= |candidate| <= 40
  }

  /** Kept while the search goes on: longer than 5 characters, no digit. */
  predicate IsPotentialName(candidate: string) {
    |candidate| > 5 && !HasDigit(candidate)
  }

  function NameVerdict(m: Option<string>): Verdict {
    match m
    case None => Skip
    case Some(group) =>
      var candidate := Strip(group);
      if Blacklisted(candidate) then Skip
      else if IsFullName(candidate) then Final(candidate)
      else if IsPotentialName(candidate) then Provisional(candidate)
      else Skip
  }

  function DobVerdict(m: Option<string>): Verdict {
    match m
    case None => Skip
    case Some(group) => Final(Strip(group))
  }

  /** A character that `re.sub(r'[\s-]', '', ...)` removes. */
  predicate IsSeparator(c: char) {
    IsSpace(c) || c == '-'
  }

  /** `re.sub(r'[\s-]', '', s)`. */
  function RemoveSeparators(s: string): (r: string)
    ensures |r| <= |s|
    ensures forall i :: 0 <= i < |r| ==> !IsSeparator(r[i])
    ensures (forall i :: 0 <= i < |s| ==> !IsSeparator(s[i])) ==> r == s
  {
    if s == [] then []
    else (if IsSeparator(s[0]) then [] else [s[0]]) + RemoveSeparators(s[1..])
  }

  /** Removal works character by character: it distributes over concatenation. */
  lemma {:induction false} RemoveSeparatorsAppend(a: string, b: string)
    ensures RemoveSeparators(a + b) == RemoveSeparators(a) + RemoveSeparators(b)
  {
    if a == [] {
      assert a + b == b;
    } else {
      assert (a + b)[1..] == a[1..] + b;
      RemoveSeparatorsAppend(a[1..], b);
    }
  }

  /** One character is dropped exactly when it is a separator, and kept otherwise. */
  lemma RemoveSeparatorsOne(c: char)
    ensures RemoveSeparators([c]) == if IsSeparator(c) then [] else [c]
  {
    assert [c][1..] == [];
  }

  /** The separators between groups of digits go, the digits stay in order:
      "123-456 7890" is cleaned to "1234567890". */
  lemma RemoveSeparatorsBetween(x: string, sep: char, y: string)
    requires IsSeparator(sep)
    requires forall i :: 0 <= i < |x| ==> !IsSeparator(x[i])
    requires forall i :: 0 <= i < |y| ==> !IsSeparator(y[i])
    ensures RemoveSeparators(x + [sep] + y) == x + y
  {
    RemoveSeparatorsAppend(x + [sep], y);
    RemoveSeparatorsAppend(x, [sep]);
    RemoveSeparatorsOne(sep);
  }

  function IdVerdict(m: Option<string>): Verdict {
    match m
    case None => Skip
    case Some(group) =>
      var clean := RemoveSeparators(group);
      if IsCanonicalIdLength(|clean|) then Final(clean) else Provisional(clean)
  }

  function NameVerdicts(text: string, search: Search): (vs: seq<Verdict>)
    ensures |vs| == |NamePatterns|
  {
    seq(|NamePatterns|, k requires 0 <= k < |NamePatterns| => NameVerdict(search(NamePatterns[k], text)))
  }

  function DobVerdicts(text: string, search: Search): (vs: seq<Verdict>)
    ensures |vs| == |DobPatterns|
  {
    seq(|DobPatterns|, k requires 0 <= k < |DobPatterns| => DobVerdict(search(DobPatterns[k], text)))
  }

  function IdVerdicts(text: string, search: Search): (vs: seq<Verdict>)
    ensures |vs| == |IdPatterns|
  {
    seq(|IdPatterns|, k requires 0 <= k < |IdPatterns| => IdVerdict(Find(search, IdPatterns[k], text)))
  }

  /** The fields as the three loops leave them; every field starts out as ''. */
  function NameOf(text: string, search: Search): string {
    Chosen(NameVerdicts(text, search), "")
  }

  function DobOf(text: string, search: Search): string {
    Chosen(DobVerdicts(text, search), "")
  }

  function IdOf(text: string, search: Search): string {
    Chosen(IdVerdicts(text, search), "")
  }

  // ---------------------------------------------------------------------------
  // The three loops

  /** The name loop: a blacklisted candidate is skipped, a full name ends the
      search, a potential single-word name is kept while the search goes on. */
  method ExtractName(text: string, search: Search) returns (name: string)
    ensures name == NameOf(text, search)
  {
    ghost var vs := NameVerdicts(text, search);
    name := "";
    for i := 0 to |NamePatterns|
      invariant Chosen(vs, "") == Chosen(vs[i..], name)
    {
      assert vs[i..][1..] == vs[i + 1..];
      var m := search(NamePatterns[i], text);
      assert vs[i] == NameVerdict(m);
      if m.Some? {
        var candidate := Strip(m.value);
        if Blacklisted(candidate) {
          continue;
        }
        if IsFullName(candidate) {
          name := candidate;
          break;
        } else if IsPotentialName(candidate) {
          name := candidate;
        }
      }
    }
  }

  /** The date-of-birth loop: the first pattern that matches wins. */
  method ExtractDob(text: string, search: Search) returns (dob: string)
    ensures dob == DobOf(text, search)
  {
    ghost var vs := DobVerdicts(text, search);
    dob := "";
    for i := 0 to |DobPatterns|
      invariant Chosen(vs, "") == Chosen(vs[i..], dob)
    {
      assert vs[i..][1..] == vs[i + 1..];
      var m := search(DobPatterns[i], text);
      if m.Some? {
        dob := Strip(m.value);
        break;
      }
    }
  }

  /** The ID loop: each match is cleaned of whitespace and hyphens; a canonical
      length ends the search, any other length is kept while it goes on. */
  method ExtractId(text: string, search: Search) returns (id: string)
    ensures id == IdOf(text, search)
  {
    ghost var vs := IdVerdicts(text, search);
    id := "";
    for i := 0 to |IdPatterns|
      invariant Chosen(vs, "") == Chosen(vs[i..], id)
    {
      assert vs[i..][1..] == vs[i + 1..];
      var m := Find(search, IdPatterns[i], text);
      if m.Some? {
        var clean := RemoveSeparators(m.value);
        if |clean| == 10 || |clean| == 13 || |clean| == 17 {
          id := clean;
          break;
        } else {
          id := clean;
        }
      }
    }
  }

  // ---------------------------------------------------------------------------
  // Joining the OCR output

  /** One entry of `readtext`'s result: a sized entry whose element 1 (when it
      has at least two elements) is the recognised text, or an object whose
      `len()` raises. */
  datatype Entry = Entry(size: nat, text: string) | Unsized

  predicate HasText(e: Entry) {
    e.Entry? && e.size >= 2
  }

  /** Element 1 of every entry with at least two elements, in order. */
  function FragmentTexts(results: seq<Entry>): seq<string> {
    if results == [] then []
    else (if HasText(results[0]) then [results[0].text] else []) + FragmentTexts(results[1..])
  }

  lemma {:induction false} FragmentTextsSnoc(results: seq<Entry>, e: Entry)
    ensures FragmentTexts(results + [e]) == FragmentTexts(results) + (if HasText(e) then [e.text] else [])
  {
    if results != [] {
      assert (results + [e])[1..] == results[1..] + [e];
      FragmentTextsSnoc(results[1..], e);
    } else {
      assert FragmentTexts([e][1..]) == [];
    }
  }

  /** The block loop: entries with fewer than two elements, or whose length
      cannot be taken, are skipped. */
  method CollectTexts(results: seq<Entry>) returns (blocks: seq<string>)
    ensures blocks == FragmentTexts(results)
  {
    blocks := [];
    for i := 0 to |results|
      invariant blocks == FragmentTexts(results[..i])
    {
      assert results[..i + 1] == results[..i] + [results[i]];
      FragmentTextsSnoc(results[..i], results[i]);
      match results[i]
      case Unsized =>
        continue;
      case Entry(size, text) =>
        if size >= 2 {
          blocks := blocks + [text];
        }
    }
    assert results[..|results|] == results;
  }

  // ---------------------------------------------------------------------------
  // The whole extraction

  /** The image handed in: a path (existing or not), an in-memory bitmap, or
      anything else. */
  datatype ImageInput = ImagePath(onDisk: bool) | ImageArray | OtherImage

  predicate Readable(image: ImageInput) {
    (image.ImagePath? && image.onDisk) || image.ImageArray?
  }

  /** What the OCR layer did: the reader could not be set up, `readtext`
      raised, or it returned its list of entries. */
  datatype OcrOutcome = ReaderFailed(message: string) | ReadFailed(message: string) | Recognized(results: seq<Entry>)

  datatype NidData = NidData(name: string, dateOfBirth: string, idNumber: string, fullText: string, error: Option<string>)

  function Failed(message: string): NidData {
    NidData("", "", "", "", Some(message))
  }

  /** The result when OCR produced text: the patterns run on the joined text,
      the stored full text is that text stripped. */
  function Extracted(joined: string, search: Search): NidData {
    NidData(NameOf(joined, search), DobOf(joined, search), IdOf(joined, search), Strip(joined), None)
  }

  method ExtractNidFields(image: ImageInput, ocr: OcrOutcome, search: Search) returns (data: NidData)
    ensures image.ImagePath? && !image.onDisk ==> data == Failed("Image file not found")
    ensures image.OtherImage? ==> data == Failed("Unsupported image format")
    ensures Readable(image) && ocr.ReaderFailed? ==> data == Failed("OCR processing failed: " + ocr.message)
    ensures Readable(image) && ocr.ReadFailed? ==> data == Failed("OCR reading failed: " + ocr.message)
    ensures Readable(image) && ocr == Recognized([]) ==> data == Failed("No text detected in the image")
    ensures Readable(image) && ocr.Recognized? && ocr.results != [] ==>
      data == Extracted(JoinWithSpace(FragmentTexts(ocr.results)), search)
    ensures data.error.Some? ==> data.name == data.dateOfBirth == data.idNumber == data.fullText == ""
  {
    if image.ImagePath? && !image.onDisk {
      return Failed("Image file not found");
    } else if image.OtherImage? {
      return Failed("Unsupported image format");
    }
    match ocr
    case ReaderFailed(message) =>
      return Failed("OCR processing failed: " + message);
    case ReadFailed(message) =>
      return Failed("OCR reading failed: " + message);
    case Recognized(results) =>
      if results == [] {
        return Failed("No text detected in the image");
      }
      var blocks := CollectTexts(results);
      var joined := JoinWithSpace(blocks);
      var name := ExtractName(joined, search);
      var dob := ExtractDob(joined, search);
      var id := ExtractId(joined, search);
      data := NidData(name, dob, id, Strip(joined), None);
  }

  // ---------------------------------------------------------------------------
  // Properties of the name field

  lemma NameVerdictsAt(text: string, search: Search, k: nat)
    requires k < |NamePatterns|
    ensures var v := NameVerdicts(text, search)[k];
      && v == NameVerdict(search(NamePatterns[k], text))
      && (v.Final? <==> FinalNameAt(text, search, k))
      && (v.Provisional? <==> PotentialNameAt(text, search, k))
  {
  }

  /** No blacklisted phrase ever appears in the name, ignoring case. */
  lemma NameNeverBlacklisted(text: string, search: Search)
    ensures !Blacklisted(NameOf(text, search))
  {
    var vs := NameVerdicts(text, search);
    ChosenOrigin(vs, "");
    var name := NameOf(text, search);
    if name == "" {
      NothingOccursInEmpty(NameBlacklist);
    } else {
      var k :| 0 <= k < |vs| && !vs[k].Skip? && vs[k].value == name;
      NameVerdictsAt(text, search, k);
    }
  }

  /** The name is '' or the stripped group of some name pattern's match, and
      in the latter case that candidate passed one of the two tests. */
  lemma NameIsStrippedCandidate(text: string, search: Search)
    ensures var name := NameOf(text, search);
      name == "" ||
      exists k :: 0 <= k < |NamePatterns| && search(NamePatterns[k], text).Some?
        && name == Strip(search(NamePatterns[k], text).value)
        && (IsFullName(name) || IsPotentialName(name))
  {
    var vs := NameVerdicts(text, search);
    ChosenOrigin(vs, "");
    var name := NameOf(text, search);
    if name != "" {
      var k :| 0 <= k < |vs| && !vs[k].Skip? && vs[k].value == name;
      NameVerdictsAt(text, search, k);
    }
  }

  /** The name is already stripped. */
  lemma NameIsStripped(text: string, search: Search)
    ensures Strip(NameOf(text, search)) == NameOf(text, search)
  {
    var vs := NameVerdicts(text, search);
    ChosenOrigin(vs, "");
    var name := NameOf(text, search);
    if name != "" {
      var k :| 0 <= k < |vs| && !vs[k].Skip? && vs[k].value == name;
      var m := search(NamePatterns[k], text);
      assert vs[k] == NameVerdict(m);
      StripIdempotent(m.value);
    }
  }

  /** The date is already stripped. */
  lemma DobIsStripped(text: string, search: Search)
    ensures Strip(DobOf(text, search)) == DobOf(text, search)
  {
    var vs := DobVerdicts(text, search);
    ChosenOrigin(vs, "");
    var dob := DobOf(text, search);
    if dob != "" {
      var k :| 0 <= k < |vs| && !vs[k].Skip? && vs[k].value == dob;
      var m := search(DobPatterns[k], text);
      assert vs[k] == DobVerdict(m);
      StripIdempotent(m.value);
    }
  }

  /** The name and the date are already stripped, so stripping them again (as
      the similarity report does) changes nothing. */
  lemma ExtractedFieldsStripped(joined: string, search: Search)
    ensures var data := Extracted(joined, search);
      Strip(data.name) == data.name && Strip(data.dateOfBirth) == data.dateOfBirth
  {
    NameIsStripped(joined, search);
    DobIsStripped(joined, search);
  }

  /** The candidate of pattern `k`, when it is not blacklisted and passes the full-name test. */
  predicate FinalNameAt(text: string, search: Search, k: nat)
    requires k < |NamePatterns|
  {
    var m := search(NamePatterns[k], text);
    m.Some? && !Blacklisted(Strip(m.value)) && IsFullName(Strip(m.value))
  }

  /** The first full-name candidate that is not blacklisted is the name. */
  lemma NameFirstFullName(text: string, search: Search, k: nat)
    requires k < |NamePatterns| && FinalNameAt(text, search, k)
    requires forall j :: 0 <= j < k ==> !FinalNameAt(text, search, j)
    ensures NameOf(text, search) == Strip(search(NamePatterns[k], text).value)
  {
    var vs := NameVerdicts(text, search);
    forall j | 0 <= j < k ensures !vs[..k][j].Final? {
      NameVerdictsAt(text, search, j);
    }
    NameVerdictsAt(text, search, k);
    ChosenFirstFinal(vs, "", k);
  }

  /** Once a full name is accepted at pattern `k`, the later name patterns
      are not consulted: any other search that agrees on patterns 0..k gives
      the same name. */
  lemma NameIgnoresLaterPatterns(text: string, search: Search, other: Search, k: nat)
    requires k < |NamePatterns| && FinalNameAt(text, search, k)
    requires forall j :: 0 <= j <= k ==> other(NamePatterns[j], text) == search(NamePatterns[j], text)
    ensures NameOf(text, other) == NameOf(text, search)
  {
    var vs := NameVerdicts(text, search);
    var ws := NameVerdicts(text, other);
    NameVerdictsAt(text, search, k);
    assert vs[..k + 1] == ws[..k + 1];
    ChosenStopsAtFinal(vs, ws, "", k);
  }

  /** The candidate of pattern `k`, when it is not blacklisted, fails the
      full-name test and passes the single-word test. */
  predicate PotentialNameAt(text: string, search: Search, k: nat)
    requires k < |NamePatterns|
  {
    var m := search(NamePatterns[k], text);
    m.Some? && !Blacklisted(Strip(m.value)) && !IsFullName(Strip(m.value)) && IsPotentialName(Strip(m.value))
  }

  /** With no full name anywhere, the last potential single-word name is the
      name: each one overwrites the ones before it. */
  lemma NameLastPotential(text: string, search: Search, k: nat)
    requires k < |NamePatterns| && PotentialNameAt(text, search, k)
    requires forall j :: 0 <= j < |NamePatterns| ==> !FinalNameAt(text, search, j)
    requires forall j :: k < j < |NamePatterns| ==> !PotentialNameAt(text, search, j)
    ensures NameOf(text, search) == Strip(search(NamePatterns[k], text).value)
  {
    var vs := NameVerdicts(text, search);
    forall j | 0 <= j < |vs| ensures !vs[j].Final? && (k < j ==> vs[j].Skip?) {
      NameVerdictsAt(text, search, j);
    }
    NameVerdictsAt(text, search, k);
    ChosenLastProvisional(vs, "", k);
  }

  /** With neither kind of acceptable candidate, the name stays ''. */
  lemma NameEmptyWithoutCandidate(text: string, search: Search)
    requires forall j :: 0 <= j < |NamePatterns| ==> !FinalNameAt(text, search, j) && !PotentialNameAt(text, search, j)
    ensures NameOf(text, search) == ""
  {
    var vs := NameVerdicts(text, search);
    forall j | 0 <= j < |vs| ensures vs[j].Skip? {
      NameVerdictsAt(text, search, j);
    }
    ChosenAllSkip(vs, "");
  }

  /** A blacklisted candidate changes nothing: the name is what it would be
      with that pattern taken out of the list, so it never overwrites an
      earlier provisional name. */
  lemma NameIgnoresBlacklisted(text: string, search: Search, k: nat)
    requires k < |NamePatterns|
    requires search(NamePatterns[k], text).Some? && Blacklisted(Strip(search(NamePatterns[k], text).value))
    ensures var vs := NameVerdicts(text, search);
      NameOf(text, search) == Chosen(vs[..k] + vs[k + 1..], "")
  {
    NameVerdictsAt(text, search, k);
    ChosenIgnoresSkip(NameVerdicts(text, search), "", k);
  }

  // ---------------------------------------------------------------------------
  // Properties of the date-of-birth field

  /** The first date pattern that matches gives the date (stripped); later
      patterns never override it. */
  lemma DobFirstMatch(text: string, search: Search, k: nat)
    requires k < |DobPatterns| && search(DobPatterns[k], text).Some?
    requires forall j :: 0 <= j < k ==> search(DobPatterns[j], text).None?
    ensures DobOf(text, search) == Strip(search(DobPatterns[k], text).value)
  {
    var vs := DobVerdicts(text, search);
    assert vs[k] == DobVerdict(search(DobPatterns[k], text));
    forall j | 0 <= j < k ensures !vs[..k][j].Final? {
      assert vs[j] == DobVerdict(search(DobPatterns[j], text));
    }
    ChosenFirstFinal(vs, "", k);
  }

  /** No date pattern matches: the date stays ''. */
  lemma DobEmptyWithoutMatch(text: string, search: Search)
    requires forall j :: 0 <= j < |DobPatterns| ==> search(DobPatterns[j], text).None?
    ensures DobOf(text, search) == ""
  {
    var vs := DobVerdicts(text, search);
    forall j | 0 <= j < |vs| ensures vs[j].Skip? {
      assert vs[j] == DobVerdict(search(DobPatterns[j], text));
    }
    ChosenAllSkip(vs, "");
  }

  // ---------------------------------------------------------------------------
  // Properties of the ID-number field

  lemma IdVerdictsAt(text: string, search: Search, k: nat)
    requires k < |IdPatterns|
    ensures var v := IdVerdicts(text, search)[k]; var c := CleanedAt(text, search, k);
      && v == IdVerdict(Find(search, IdPatterns[k], text))
      && (v.Skip? <==> c.None?)
      && (c.Some? ==> v.value == c.value && (v.Final? <==> IsCanonicalIdLength(|c.value|)))
  {
  }

  /** The cleaned match of pattern `k`. */
  function CleanedAt(text: string, search: Search, k: nat): Option<string>
    requires k < |IdPatterns|
  {
    match Find(search, IdPatterns[k], text)
    case None => None
    case Some(group) => Some(RemoveSeparators(group))
  }

  /** The ID number never holds whitespace or a hyphen. */
  lemma IdHasNoSeparators(text: string, search: Search)
    ensures forall i :: 0 <= i < |IdOf(text, search)| ==> !IsSeparator(IdOf(text, search)[i])
  {
    var vs := IdVerdicts(text, search);
    ChosenOrigin(vs, "");
    var id := IdOf(text, search);
    if id != "" {
      var k :| 0 <= k < |vs| && !vs[k].Skip? && vs[k].value == id;
      IdVerdictsAt(text, search, k);
    }
  }

  /** The first pattern whose cleaned match has length 10, 13 or 17 gives the ID. */
  lemma IdFirstCanonical(text: string, search: Search, k: nat)
    requires k < |IdPatterns| && CleanedAt(text, search, k).Some?
    requires IsCanonicalIdLength(|CleanedAt(text, search, k).value|)
    requires forall j :: 0 <= j < k && CleanedAt(text, search, j).Some? ==> !IsCanonicalIdLength(|CleanedAt(text, search, j).value|)
    ensures IdOf(text, search) == CleanedAt(text, search, k).value
  {
    var vs := IdVerdicts(text, search);
    forall j | 0 <= j < k ensures !vs[..k][j].Final? {
      IdVerdictsAt(text, search, j);
    }
    IdVerdictsAt(text, search, k);
    ChosenFirstFinal(vs, "", k);
  }

  /** With no canonical length anywhere, the last pattern that matched gives the ID. */
  lemma IdLastMatch(text: string, search: Search, k: nat)
    requires k < |IdPatterns| && CleanedAt(text, search, k).Some?
    requires forall j :: 0 <= j < |IdPatterns| && CleanedAt(text, search, j).Some? ==> !IsCanonicalIdLength(|CleanedAt(text, search, j).value|)
    requires forall j :: k < j < |IdPatterns| ==> CleanedAt(text, search, j).None?
    ensures IdOf(text, search) == CleanedAt(text, search, k).value
  {
    var vs := IdVerdicts(text, search);
    forall j | 0 <= j < |vs| ensures !vs[j].Final? && (k < j ==> vs[j].Skip?) {
      IdVerdictsAt(text, search, j);
    }
    IdVerdictsAt(text, search, k);
    ChosenLastProvisional(vs, "", k);
  }

  /** No ID pattern matches: the ID stays ''. */
  lemma IdEmptyWithoutMatch(text: string, search: Search)
    requires forall j :: 0 <= j < |IdPatterns| ==> Find(search, IdPatterns[j], text).None?
    ensures IdOf(text, search) == ""
  {
    var vs := IdVerdicts(text, search);
    forall j | 0 <= j < |vs| ensures vs[j].Skip? {
      IdVerdictsAt(text, search, j);
    }
    ChosenAllSkip(vs, "");
  }

  /** A word-bounded run of exactly 10, 13 or 17 digits anywhere in the text
      guarantees an ID of canonical length. */
  lemma IdCanonicalWhenCanonicalRun(text: string, search: Search)
    requires exists pos :: 0 <= pos < |text| && BoundedRunAt(text, CanonicalRun, pos)
    ensures IsCanonicalIdLength(|IdOf(text, search)|)
  {
    var vs := IdVerdicts(text, search);
    IdVerdictsAt(text, search, 3);
    var run := FindDigitRun(text, CanonicalRun, 0);
    assert RemoveSeparators(run.value) == run.value;
    assert vs[3].Final?;
    var k := FirstFinal(vs, 3);
    IdVerdictsAt(text, search, k);
    ChosenFirstFinal(vs, "", k);
  }

  /** A word-bounded run of at least ten digits anywhere in the text
      guarantees an ID of at least ten characters. */
  lemma IdLongWhenLongRun(text: string, search: Search)
    requires exists pos :: 0 <= pos < |text| && BoundedRunAt(text, AtLeastTen, pos)
    ensures |IdOf(text, search)| >= 10
  {
    var vs := IdVerdicts(text, search);
    var last := |IdPatterns| - 1;
    IdVerdictsAt(text, search, last);
    var run := FindDigitRun(text, AtLeastTen, 0);
    assert RemoveSeparators(run.value) == run.value;
    if exists j :: 0 <= j < |vs| && vs[j].Final? {
      var j :| 0 <= j < |vs| && vs[j].Final?;
      var k := FirstFinal(vs, j);
      IdVerdictsAt(text, search, k);
      ChosenFirstFinal(vs, "", k);
    } else {
      ChosenLastProvisional(vs, "", last);
    }
  }

  /** The index of the first final verdict, given that `j` is one. */
  function FirstFinal(vs: seq<Verdict>, j: nat): (k: nat)
    requires j < |vs| && vs[j].Final?
    ensures k <= j && vs[k].Final? && NoFinal(vs[..k])
  {
    if exists i :: 0 <= i < j && vs[i].Final? then
      var i :| 0 <= i < j && vs[i].Final?;
      FirstFinal(vs, i)
    else j
  }
}
