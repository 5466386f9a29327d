# NID field extraction — a Dafny model

This project models the decision logic of a small web service that reads a
Bangladeshi national identity card with OCR. It covers three parts:

- **Field extraction** (`extract_nid_fields`, nid_extractor.py). The OCR entries
  are joined into one flat text. Three ordered pattern cascades then pick the
  holder's name, the date of birth and the ID number out of that text.
- **Similarity report** (`process_image`, app.py). The caller may send a
  `Name` and a `Date of Birth` form value. These are trimmed and compared,
  upper-cased, with the extracted values.
- **Request gates** (utils.py). These are the upload's extension check, the
  token check of `authenticate` and the sliding-window limiter of
  `rate_limit`.

Files:

- `python_str.dfy` (module `PyStr`): the Python `str` behaviour the code relies
  on. It has `strip()`, the complete `isspace` set (which is also what `\s`
  matches in a `str` pattern), ASCII case mapping, `p in s` and `" ".join`.
- `cascade.dfy` (module `Cascade`): the selection policy that all three pattern
  loops share. Each pattern gives one verdict: `Skip`, `Provisional(v)` (store
  `v` and go on) or `Final(v)` (store `v` and break). `Chosen` is the value the
  field holds when the loop ends. The lemmas describe that value without
  referring to the loop.
- `nid_extractor.dfy` (module `NidExtractor`): the patterns, the per-field
  verdicts, and the three loops as `for` loops with `break`/`continue`, each
  proved against `Chosen`. It also has the block-collecting loop, the whole
  extraction with its error paths, and the field properties.
- `app.dfy` (module `App`): the similarity report as a method that returns a
  record, proved against `SimilarityOf`.
- `utils.dfy` (module `Utils`): `AllowedFile`, `Authenticate`, and a
  `RateLimiter` class whose `history` map is updated in place.

Regular expressions are not reimplemented. The parameter
`search(p, text)` stands for `re.search(p, text).group(1)`, and is None when
pattern `p` does not match. Two patterns are written out instead:
`\b(\d{10}|\d{13}|\d{17})\b` and `\b(\d{10,})\b`. Each matches the leftmost
run of digits that has a word boundary on both sides and an admitted length.
The difflib score rounded to two places is the parameter `ratio(a, b)`, which
is None where computing it raises.

Three details of the code that the model keeps:

- A similarity slot for a value that was not provided is present and set to
  None (`Unset`). It is not left out of the report.
- The patterns run on the joined text before it is stripped. Only the stored
  `Full extracted text` is stripped.
- A failure to set up the OCR reader ends in `"OCR processing failed: "` plus
  the message. A failure inside `readtext` ends in `"OCR reading failed: "`
  plus the message.

## Model

| member | source | states |
|---|---|---|
| `PyStr.Strip` | nid_extractor.py:138 | the stripped candidate is a contiguous slice of the input with only whitespace cut off before and after it, and it neither starts nor ends with a whitespace character |
| `PyStr.StripIdempotent` | app.py:150 | stripping an already stripped value (as app.py does to the extracted name and date) changes nothing |
| `Cascade.ChosenFirstFinal` | nid_extractor.py:146-149 | the first pattern whose verdict is final decides the field, whatever provisional values came before |
| `Cascade.ChosenLastProvisional` | nid_extractor.py:150-153 | with no final verdict, the last provisional value is the field's value: each one overwrites the earlier ones |
| `Cascade.ChosenAllSkip` | nid_extractor.py:46-51 | when every pattern is skipped, the field keeps its initial value |
| `Cascade.ChosenOrigin` | nid_extractor.py:135-153 | the field is its initial value or the value of some pattern that was not skipped |
| `Cascade.ChosenIgnoresSkip` | nid_extractor.py:140-143 | a skipped pattern has no effect: the result equals that of the list with the pattern removed |
| `Cascade.ChosenStopsAtFinal` | nid_extractor.py:146-149 | after a final verdict, later patterns are never consulted: two lists that agree up to it give the same result |
| `NidExtractor.FindDigitRun` | nid_extractor.py:179-194 | it finds a match exactly when some word-bounded digit run with an admitted length exists (10, 13 or 17 digits, or at least 10); the match is all digits with an admitted length |
| `NidExtractor.FindDigitRunLeftmost` | nid_extractor.py:182 | like `re.search`, the match is the whole digit run at the leftmost position where the pattern matches |
| `NidExtractor.RemoveSeparators` | nid_extractor.py:202 | the cleaned ID has no whitespace or hyphen, is no longer than the input, and is the input itself when the input has no separator |
| `NidExtractor.RemoveSeparatorsAppend` | nid_extractor.py:202 | cleaning distributes over concatenation, so every character is handled on its own and the kept ones stay in order |
| `NidExtractor.RemoveSeparatorsOne` | nid_extractor.py:202 | one character is dropped exactly when it is whitespace or '-', and kept otherwise |
| `NidExtractor.RemoveSeparatorsBetween` | nid_extractor.py:202 | two separator-free groups joined by one separator are cleaned to the two groups side by side, so the ID's digits are the match's digits |
| `NidExtractor.CollectTexts` | nid_extractor.py:99-108 | the blocks are element 1 of every entry with at least two elements, in order; shorter entries and entries whose length cannot be taken are skipped |
| `NidExtractor.ExtractName` | nid_extractor.py:135-153 | the name loop (blacklist `continue`, full-name `break`, provisional single word) leaves exactly the cascade's chosen name |
| `NidExtractor.ExtractDob` | nid_extractor.py:163-168 | the date loop leaves exactly the stripped group of the cascade's first match |
| `NidExtractor.ExtractId` | nid_extractor.py:197-213 | the ID loop (clean, then `break` on length 10/13/17, otherwise store and go on) leaves exactly the cascade's chosen ID |
| `NidExtractor.ExtractNidFields` | nid_extractor.py:46-216 | a missing file, an unsupported input, a reader failure, a `readtext` failure and an empty OCR result each give their own error with every field ''; otherwise the fields come from the joined text and the full text is that text stripped |
| `NidExtractor.NameVerdictsAt` | nid_extractor.py:140-153 | a name pattern's verdict is final exactly for a non-blacklisted full name, and provisional exactly for a non-blacklisted potential single-word name |
| `NidExtractor.NameNeverBlacklisted` | nid_extractor.py:129-143 | the returned name never contains a blacklisted phrase, ignoring case |
| `NidExtractor.NameIsStrippedCandidate` | nid_extractor.py:138-153 | the name is '' or the stripped group of some name pattern, and that group passed the full-name or the single-word test |
| `NidExtractor.ExtractedFieldsStripped` | app.py:150-158 | the extracted name and date are already stripped, so the report's second `strip()` of them changes nothing |
| `NidExtractor.NameFirstFullName` | nid_extractor.py:146-149 | the first non-blacklisted candidate that contains a space and is 4 to 40 long is the name |
| `NidExtractor.NameIgnoresLaterPatterns` | nid_extractor.py:146-149 | once a full name is accepted, later name patterns do not matter: any search that agrees up to that pattern gives the same name |
| `NidExtractor.NameLastPotential` | nid_extractor.py:150-153 | with no full name anywhere, the last candidate longer than 5 with no digit is the name |
| `NidExtractor.NameEmptyWithoutCandidate` | nid_extractor.py:135-153 | with no acceptable candidate, the name stays '' |
| `NidExtractor.NameIgnoresBlacklisted` | nid_extractor.py:140-143 | a blacklisted candidate leaves the name as if its pattern were not in the list, so it never overwrites an earlier provisional name |
| `NidExtractor.DobFirstMatch` | nid_extractor.py:163-168 | the first date pattern that matches gives the date, stripped; later patterns never override it |
| `NidExtractor.DobEmptyWithoutMatch` | nid_extractor.py:163-168 | when no date pattern matches, the date stays '' |
| `NidExtractor.IdVerdictsAt` | nid_extractor.py:199-213 | an ID pattern is skipped exactly when it does not match; otherwise its value is the cleaned match, final exactly when its length is 10, 13 or 17 |
| `NidExtractor.IdHasNoSeparators` | nid_extractor.py:200-211 | the ID number never contains whitespace or '-' |
| `NidExtractor.IdFirstCanonical` | nid_extractor.py:204-208 | the first pattern whose cleaned match has length 10, 13 or 17 gives the ID |
| `NidExtractor.IdLastMatch` | nid_extractor.py:209-213 | with no canonical length anywhere, the cleaned match of the last pattern that matched is the ID |
| `NidExtractor.IdEmptyWithoutMatch` | nid_extractor.py:197-213 | when no ID pattern matches, the ID stays '' |
| `NidExtractor.IdCanonicalWhenCanonicalRun` | nid_extractor.py:182 | if the text holds a word-bounded run of exactly 10, 13 or 17 digits, the ID has one of those lengths |
| `NidExtractor.IdLongWhenLongRun` | nid_extractor.py:194 | if the text holds a word-bounded run of at least 10 digits, the ID is at least 10 characters long |
| `App.SimilarityOf` | app.py:143-163 | "no comparison data" exactly when both provided values are empty; an error exactly when a needed score raises; otherwise each slot is None exactly when nothing was provided, the field's sentinel exactly when nothing was extracted, and otherwise the score of the upper-cased values |
| `App.SimilarityDependsOnUpperCase` | app.py:152-161 | the report depends on the compared values only through their upper-cased forms |
| `App.ScoreField` | app.py:150-163 | one slot: the score of the upper-cased values, the sentinel, None, or a failure exactly when the score raises |
| `App.AttachSimilarity` | app.py:133-168 | the extracted fields pass through untouched; the report is `SimilarityOf` of the trimmed form values and the stripped extracted values; an unreadable form gives "no comparison data" |
| `Utils.AllowedFile` | utils.py:43-45 | true exactly when the name has a '.' and the text after the last '.', lower-cased, is png, jpg or jpeg |
| `Utils.AllowedFileByExtension` | utils.py:45 | for a stem, a '.' and a dot-free extension, the decision depends only on the lower-cased extension |
| `Utils.Authenticate` | utils.py:66-74 | a missing or empty token gives 401 "Authentication required"; a different token gives 401 "Invalid authentication token"; the handler runs exactly when the token equals a non-empty AUTH_TOKEN |
| `Utils.Recent` | utils.py:87-88 | pruning never lengthens a history, and every surviving timestamp t has now - t < window |
| `Utils.RecentMembers` | utils.py:87-88 | a timestamp survives exactly when it was stored and now - t < window |
| `Utils.RecentAppend` | utils.py:87-88 | pruning keeps the survivors in their order: it distributes over concatenation |
| `Utils.RecentLater` | utils.py:83-88 | pruning at one time and then at a later time is the same as pruning once at the later time |
| `Utils.RateLimiter.constructor` | utils.py:19 | the history starts empty |
| `Utils.RateLimiter.Prune` | utils.py:86-88 | every client's history is replaced by its recent part, so every stored t has now - t < window; no key is added or removed |
| `Utils.RateLimiter.Admit` | utils.py:80-101 | a request is allowed exactly when the client's pruned history is shorter than the limit; if allowed, `now` is appended; other clients change only by pruning; no key is removed; with a non-negative limit no history ever exceeds it |

## Left out

- `get_reader` is not modelled: the lazy global EasyOCR reader and the torch GPU/CPU fallback are a foreign library and global set-up. Only its failure is kept, as the `ReaderFailed` outcome.
- The `readtext` call and its tuning parameters are an external OCR capability. Its result is the input `OcrOutcome`: a list of entries, or the message of the exception it raised.
- The checks with `os.path.exists` and `isinstance(..., np.ndarray)` become the abstract `ImageInput`: a path that exists or not, a bitmap, or something else.
- A non-string element 1 in an OCR entry is not modelled. It would make `" ".join` raise, and the outer handler would report "OCR processing failed". EasyOCR always puts a string there.
- The regular-expression engine is not modelled. Every pattern except the two digit-run patterns is the `search` parameter. The model does not constrain it further; for example, it does not require the group to be a substring of the text.
- `NidExtractor.FindDigitRun` treats `\d` and `\w` as ASCII. Python also counts non-ASCII digits and letters.
- `NidExtractor.NameVerdictsAt` treats the digit test `\d` as ASCII digits only.
- `NidExtractor.NameNeverBlacklisted` lower-cases with ASCII case mapping only. The name patterns capture only ASCII letters, dots and whitespace, and lower-casing does not change whitespace.
- `App.SimilarityOf` upper-cases with ASCII case mapping only. Python's `upper()` also maps non-ASCII letters.
- `App.SimilarityOf` does not model difflib's `SequenceMatcher` or `round(..., 2)`. Both are floating-point library code; the score is the `ratio` parameter, and its range in [0,1] is not assumed.
- Flask routing, the error handlers, the security headers, temporary files, `cv2.imread`, the MIME check with libmagic, `ensure_cache_dir` and `cleanup_file` are I/O plumbing and are not modelled.
- `handle_exceptions` is not modelled. It only maps exceptions to HTTP status codes.
- client.py is an HTTP client and command-line tool and is not part of this model.
- config.py's environment loading is not modelled. RATE_LIMIT and RATE_LIMIT_WINDOW are the constructor parameters of `RateLimiter`, AUTH_TOKEN is a parameter of `Authenticate`, and ALLOWED_EXTENSIONS is a constant.
- Logging and the debug prints in `authenticate` are output only and are not modelled.
- `Utils.RateLimiter.Admit` models time as whole seconds, not the float that `time.time()` returns. The limiter is modelled sequentially: the unsynchronised sharing of `request_history` across Flask threads is a concurrency concern.
- `Utils.RateLimiter.Prune` visits the keys in an arbitrary order; Python uses insertion order. Each key is pruned on its own, so the order does not change the result.
