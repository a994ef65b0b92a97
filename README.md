# how_to_train_your_kanji — a verified model of the importer and the quiz session

This project models the two algorithmic parts of the kanji study app:

- **The spreadsheet importer** (`processExcelFile` in `src/App.js`). It reads each
  cell's text and its ruby (phonetic) annotation and groups rows into kanji records.
  A row with a kanji in column A opens a record. A following row without one adds
  its E and F cells as extra examples. Each finished record is then classified as
  `new`, `updated` or `existing` against the corpus the previous import stored
  (`compareKanji`, `arraysEqual`, `examplesEqual`).
- **The random-kanji quiz** (`src/RandomKanji.js`). It covers:
  - the five-toggle filter with learned and marked precedence (`filterKanjiData`);
  - the learned-kanji collection over the daily plan (`getLearnedKanji`);
  - random and in-order selection, the answer buffer and the history with
    back-navigation;
  - the mark toggle and the small preference handlers.

Module layout:

- `text.dfy` (`Text`): JavaScript's `trim()`, the `\s+` removal applied to ruby
  readings, and the reading split on `、` and `,`.
- `kanji.dfy` (`Kanji`): the record datatypes. Freshly built records are
  `KanjiRecord`. Stored ones are `StoredKanji`; their fields may hold a legacy shape.
- `compare.dfy` (`Compare`): the change classifier.
- `ingest.dfy` (`Ingest`): the importer, in two forms.
  - The specification composes `BuildDrafts` (grouping rows into records) with
    `Classify` (status assignment) into `Ingested`.
  - The source's single pass is modelled as imperative methods (`ProcessExcelFile`,
    `ProcessRow`, `ReadRow`, `ReadPhonetic`, `BuildOldMap`). They are proved to compute
    `Ingested`, even though each status is assigned only when the next record opens.
- `quiz_filter.dfy` (`QuizFilter`): the filter, the learned-kanji loops
  (`LearnedKanji`) and `hasReading`.
- `quiz_session.dfy` (`QuizSession`): the component state as the class
  `Session`, one method per handler.
  - `Valid()` is the session invariant: the history never repeats a kanji in
    neighbouring entries and is drawn from the filtered list; the current record shows
    the kanji of the history tail; the answer buffer fits the current record.
  - Every handler preserves `Valid()`.

Where the source works by in-place updates (the row loop, the run scan, the map
building, the nested learned-kanji loops, the React state of the quiz), the model uses
methods with loops or a class with fields. Where the source computes values, the
model uses functions and lemmas.

The reading split uses the ideographic comma `、` (U+3001) and the ASCII comma
(`src/App.js:153-156`); the full-width comma `，` (U+FF0C) does not separate readings.

## Model

| member | source | states |
|---|---|---|
| Text.IsWhitespace | src/App.js:110 | a definition: the WhiteSpace and LineTerminator code points of ECMAScript, the set that both `\s` (line 110) and `trim()` (line 138) remove |
| Text.Trim | src/App.js:138 | `trim()` yields a string with no white space at either end, made of characters of the input, and it is empty exactly when the input is all white space (that it is the slice between the two white-space ends is `Text.TrimRemovesOnlyEnds`) |
| Text.TrimRemovesOnlyEnds | src/App.js:138 | `trim()` removes only white space at the two ends: the result is a contiguous slice `s[i..j]` of the input with only white space before `i` and after `j` |
| Text.TrimIdempotent | src/App.js:138 | trimming twice is trimming once |
| Text.RemoveWhitespace | src/App.js:110 | `replace(/\s+/g, "")` leaves no white-space character |
| Text.RemoveKeepsOthers | src/App.js:110 | a character survives the removal exactly when it occurs in the input and is not white space |
| Text.RemoveKeepsCounts | src/App.js:110 | every character that is not white space survives the removal exactly as many times as it occurs in the input |
| Text.RemoveAfterTrim | src/App.js:110 | the `trim()` before the white-space removal has no effect of its own |
| Text.Pieces | src/App.js:155 | `split(/[、,]/)` always yields at least one piece |
| Text.PiecesSeparatorFree | src/App.js:155 | no piece of the split contains a separator |
| Text.PiecesJoin | src/App.js:155 | joining the pieces with commas gives back the text with every separator written as `,`, so the split loses nothing but the choice of separator |
| Text.PiecesWithoutSeparator | src/App.js:155 | text without a separator is a single piece, itself |
| Text.PiecesCount | src/App.js:155 | there is one piece more than there are separators |
| Text.TrimAll | src/App.js:156 | `map((reading) => reading.trim())` keeps the length and trims each piece in place |
| Text.DropEmpty | src/App.js:157 | `filter((reading) => reading !== "")` keeps exactly the non-empty entries |
| Text.DropEmptyKeepsCounts | src/App.js:157 | every non-empty entry survives the filter exactly as many times as it occurs, and no empty one does |
| Text.SplitPipeline | src/App.js:154-157 | split, trim and filter yield only well-formed tokens (non-empty, trimmed, separator-free), and every non-blank piece appears trimmed |
| Text.SplitReadings | src/App.js:151-160 | the reading split of columns B to D yields at most one reading per piece |
| Text.SplitReadingsTokens | src/App.js:151-160 | every reading the split yields is a well-formed token, and every non-blank piece of the text appears among them, trimmed |
| Text.SplitWithoutSeparator | src/App.js:158-160 | without a separator the split yields nothing for blank text and the trimmed text otherwise |
| Text.SplitIsUniform | src/App.js:151-160 | the special case for text without a separator agrees with the general split-trim-filter pipeline |
| Text.NonBlank | src/App.js:29-30 | `filterValid` never lengthens its input |
| Text.NonBlankFilters | src/App.js:29-30 | `filterValid` keeps exactly the entries that are not all white space (those that do not trim to `""`) |
| Text.NonBlankOfTokens | src/App.js:29-30 | filtering a list of well-formed tokens keeps all of it |
| Text.SplitReadingsNonBlank | src/App.js:29-30 | the readings an import produces pass `filterValid` unchanged |
| Compare.ArraysEqual | src/App.js:25-37 | two arrays are equal exactly when their non-blank entries are the same sequence; an array never equals a non-array; two non-arrays are compared with `===` |
| Compare.Meaningful | src/App.js:43-47 | `filterValidExamples` never lengthens its input |
| Compare.MeaningfulFilters | src/App.js:43-47 | `filterValidExamples` keeps exactly the entries whose text is not blank |
| Compare.ExamplesEqual | src/App.js:39-61 | two example fields are equal exactly when both are arrays and their entries with non-blank text are the same sequence, text and phonetic alike |
| Compare.CompareKanji | src/App.js:63-76 | the status is `new` exactly without a prior record, and `existing` exactly when the prior record's three readings and examples are arrays comparing equal to the new record's |
| Compare.CompareWithOwnCopy | src/App.js:63-76 | a record compared with its own stored copy is `existing`, whatever status the copy carries |
| Compare.ArraysEqualSymmetric | src/App.js:25-37 | `arraysEqual` is symmetric |
| Compare.ExamplesEqualSymmetric | src/App.js:39-61 | `examplesEqual` is symmetric |
| Compare.NonBlankIgnoresBlankTail | src/App.js:29-36 | appending blank readings changes nothing the comparison sees |
| Compare.MeaningfulIgnoresBlankTail | src/App.js:43-54 | appending blank-text examples changes nothing the comparison sees |
| Kanji.Store | src/App.js:246 | a stored record keeps its kanji and stores every reading and example field as an array |
| Kanji.StoreAll | src/App.js:246 | storing a result keeps its length and stores each record in place |
| Ingest.FirstRunReading | src/App.js:112-120 | the reading of a run array is the `rPh.t` of the first run that has a non-empty one, none if no run has |
| Ingest.FirstRunIsFirst | src/App.js:114-119 | the first run with a reading decides the result |
| Ingest.PhoneticOf | src/App.js:101-127 | the three ruby shapes in the source's order: an inline capture with all white space removed, the first run reading, or a single object's non-empty `rPh.t`; none otherwise |
| Ingest.ReadPhonetic | src/App.js:101-127 | the imperative extraction, with the run scan as a loop, computes `PhoneticOf` |
| Ingest.CellOf | src/App.js:128-134 | a present cell gives its value and its phonetic reading; a missing cell gives empty text and no reading |
| Ingest.RowOf | src/App.js:95-135 | a decoded row has one cell per column of the range, in column order |
| Ingest.ReadRow | src/App.js:95-135 | the column loop computes `RowOf` |
| Ingest.DataRows | src/App.js:94 | the rows read are all rows of the range but the header, in order |
| Ingest.Opens | src/App.js:136-139 | a definition: a row starts a record when it has at least six cells and its column A is not blank (its trimmed text is not `""`); `StepOpens` and `StepContinues` characterise the two outcomes |
| Ingest.OpenRecord | src/App.js:151-203 | a definition: the trimmed kanji, the split readings of columns B to D, the two cells E and F as examples, and no status yet; `OpenRecordWellFormed` characterises it |
| Ingest.Appended | src/App.js:208-221 | a row without a kanji contributes its E and F cells when their text is non-empty, E first, and nothing for a short row |
| Ingest.StepOpens | src/App.js:136-205 | a record-start row appends exactly one new record after the others |
| Ingest.StepContinues | src/App.js:206-222 | any other row keeps the record count and every record but the last, and extends the last one's examples by what the row contributes |
| Ingest.StepAppends | src/App.js:206-222 | a row without a kanji extends the examples of the last record |
| Ingest.Step | src/App.js:136-223 | a definition of one pass of the row loop without the status assignment: short rows are skipped, a record-start row opens a record, another row extends the last record's examples; `StepOpens`, `StepContinues` and `StepKeys` characterise it |
| Ingest.BuildDrafts | src/App.js:94-225 | a definition: the rows folded through `Step` in row order, from no records; `DraftKeys`, `DraftsWellFormed` and `ContinuationExamples` characterise it |
| Ingest.DraftKeys | src/App.js:136-223 | the records are exactly one per record-start row, keyed by its trimmed column A, in row order |
| Ingest.StepKeys | src/App.js:136-223 | one row adds its trimmed column A to the keys when it opens a record, and nothing otherwise |
| Ingest.DraftsWellFormed | src/App.js:136-223 | every built record has a non-empty trimmed kanji, readings that are well-formed tokens and at least the two examples of its own row |
| Ingest.OpenRecordWellFormed | src/App.js:187-203 | a newly opened record is well formed |
| Ingest.ContinuationExamples | src/App.js:187-222 | a record's examples are the two cells E and F of its own row followed by every non-empty E and F cell of the rows up to the next record-start row, in row order |
| Ingest.IndexByKanji | src/App.js:85-88 | the prior-corpus map has a key exactly for each kanji in the prior corpus, and maps it to an entry of the corpus with that kanji |
| Ingest.LastEntryWins | src/App.js:85-88 | for a duplicated kanji, the map keeps the last entry |
| Ingest.BuildOldMap | src/App.js:85-88 | the `forEach` loop builds `IndexByKanji` |
| Ingest.Lookup | src/App.js:145 | `oldKanjiMap[kanji]` is present exactly when the key is present |
| Ingest.Classified | src/App.js:145-147 | the status assignment of lines 145-147 and 231-233 gives a record a status and changes nothing else |
| Ingest.Classify | src/App.js:141-147 | each record gets the status `compareKanji` gives it against the prior entry of its key |
| Ingest.Ingested | src/App.js:94-235 | the import yields one record per record-start row, keyed and ordered as those rows, each with the status of its finished record against the prior corpus |
| Ingest.IngestedWellFormed | src/App.js:136-235 | every imported record is well formed and has a status |
| Ingest.HeaderIgnored | src/App.js:94 | the header row has no influence on the result |
| Ingest.ReimportIsIdempotent | src/App.js:63-76 | importing the same sheet over the corpus its first import stored marks every record `existing`, when the sheet lists each kanji once |
| Ingest.ProcessExcelFile | src/App.js:78-235 | the single-pass row loop, which finalises each status when the next record opens and the last one after the loop, computes `Ingested` |
| Ingest.ProcessRow | src/App.js:136-224 | one pass of the loop body keeps the invariant: every record but the last has its status, and the last one is waiting for it |
| Ingest.FinaliseLast | src/App.js:227-235 | finalising the waiting record yields the fully classified list |
| Ingest.InProgressOpen | src/App.js:140-205 | opening a record after finalising the waiting one leaves only the new one waiting |
| Ingest.InProgressExtend | src/App.js:206-222 | appending examples to the waiting record commutes with the marker state |
| QuizFilter.EffectiveStatus | src/RandomKanji.js:96 | a record without a status counts as `existing` |
| QuizFilter.StatusEnabled | src/RandomKanji.js:97 | a definition: `kanjiTypes[status]`, the toggle of the given status |
| QuizFilter.Passes | src/RandomKanji.js:78-103 | a definition: the filter callback's if-chain as written; `PassesIffAdmitted` characterises it as a disjunction |
| QuizFilter.PassesIffAdmitted | src/RandomKanji.js:78-103 | the filter's if-chain admits exactly these records: marked ones with the marked toggle on, learned ones with the learned toggle on, and, with their status toggle on, records neither learned nor marked |
| QuizFilter.MarkedTakesPrecedence | src/RandomKanji.js:86-88 | a marked record passes whenever the marked toggle is on, whatever its status toggle |
| QuizFilter.LearnedTakesPrecedence | src/RandomKanji.js:91-93 | a learned record passes whenever the learned toggle is on, whatever its status toggle |
| QuizFilter.StatusPathExcludesGroups | src/RandomKanji.js:96-100 | a learned or marked record never passes by its status toggle alone |
| QuizFilter.FilterKanjiData | src/RandomKanji.js:75-104 | the selection is a subsequence of the corpus, in corpus order, containing exactly the admitted records, each as many times as the corpus holds it |
| QuizFilter.AllTogglesKeepEverything | src/RandomKanji.js:10-16 | with the initial toggles, all ticked, the selection is the whole corpus |
| QuizFilter.DayKanji | src/RandomKanji.js:118-124 | a progress entry contributes kanji only when its plan day exists, has a kanji list, and the completed count equals the list's length |
| QuizFilter.AddAll | src/RandomKanji.js:125-129 | the inner loop only appends: the list it starts from is a prefix of the result, which grows by at most the number of kanji added |
| QuizFilter.AddAllProperties | src/RandomKanji.js:125-129 | adding a day's kanji keeps the list free of duplicates and holds exactly the old and the added kanji |
| QuizFilter.Learned | src/RandomKanji.js:107-135 | a definition: the progress entries folded through `AddAll` of each day's `DayKanji`; `LearnedMembership` and `LearnedHasNoDuplicates` characterise it |
| QuizFilter.LearnedHasNoDuplicates | src/RandomKanji.js:107-135 | the learned list never holds a kanji twice |
| QuizFilter.LearnedMembership | src/RandomKanji.js:107-135 | a kanji is learned exactly when some completed day lists it |
| QuizFilter.LearnedKanji | src/RandomKanji.js:107-135 | the nested loops over progress entries and a day's kanji compute `Learned` |
| QuizFilter.HasReading | src/RandomKanji.js:280-286 | a reading exists exactly when it is an array with a non-blank entry or a non-blank string |
| QuizFilter.SomeNonBlank | src/RandomKanji.js:283 | `some((r) => r.trim() !== "")` holds exactly when the filtered list is not empty |
| QuizSession.Blanks | src/RandomKanji.js:197-198 | `new Array(n).fill("")` has `n` empty entries |
| QuizSession.ReadingCount | src/RandomKanji.js:184-193 | the number of answer slots is the number of non-blank readings, never more than the readings the record has |
| QuizSession.BlankAnswers | src/RandomKanji.js:183-199 | a fresh answer buffer has empty Han-Viet text and one empty slot per non-blank kun and on reading |
| QuizSession.SlotsIffHasReading | src/RandomKanji.js:184-193 | a record gets kun (on) answer slots exactly when `hasReading` holds for its kun (on) readings |
| QuizSession.Pick | src/RandomKanji.js:158-164 | the selected record is in the list: the drawn index in random mode, `index % length` in order mode |
| QuizSession.OrderCycles | src/RandomKanji.js:163 | in order mode, advancing the index by the list length selects the same record, and an index in range selects that entry |
| QuizSession.AppendDistinct | src/RandomKanji.js:170-180 | the history grows by the selection exactly when it was empty or its tail shows another kanji; its tail then shows the selection, and no neighbouring entries repeat a kanji |
| QuizSession.RemoveAll | src/RandomKanji.js:311-313 | unmarking removes every occurrence of the word and keeps all other words |
| QuizSession.RemoveAllKeepsCounts | src/RandomKanji.js:311-313 | every other word stays exactly as many times as it occurs in the marked list |
| QuizSession.RemoveAbsent | src/RandomKanji.js:311-313 | removing an absent word changes nothing |
| QuizSession.ToggleMark | src/RandomKanji.js:304-318 | the word is marked afterwards exactly when it was not before, and no other word changes |
| QuizSession.MarkThenUnmark | src/RandomKanji.js:304-318 | marking a word and unmarking it again restores the marked list |
| QuizSession.Toggled | src/RandomKanji.js:238-243 | a checkbox change flips exactly the one toggle |
| QuizSession.ToggledTwice | src/RandomKanji.js:238-243 | flipping a toggle twice restores the configuration |
| QuizSession.NextIndex | src/RandomKanji.js:296-297 | "next" advances the index in order mode and keeps it in random mode |
| QuizSession.Session.constructor | src/RandomKanji.js:8-58 | the initial state: configuration open, random mode, all toggles on, empty history and list, no current record, and the saved preferences and marked words or their defaults |
| QuizSession.Session.HistoryValid | src/RandomKanji.js:170-180 | a definition of the history invariant: no two neighbouring entries share a kanji, every entry is in the filtered list, and a non-empty history's tail shows the current record's kanji |
| QuizSession.Session.Valid | src/RandomKanji.js:160-200 | a definition of the session invariant: `HistoryValid`, the current record is in the filtered list and the answer buffer fits its readings, and outside the configuration screen there is a current record |
| QuizSession.Session.StartQuiz | src/RandomKanji.js:138-152 | with an empty selection nothing changes; otherwise the selection is installed at index 0 with an empty history, the configuration closes, and the first record is selected without a history entry |
| QuizSession.Session.Selected | src/RandomKanji.js:139 | `filterKanjiData()` on the learned kanji computes the selection `FilterKanjiData` defines |
| QuizSession.Session.Begin | src/RandomKanji.js:145-151 | the state installed for a non-empty selection |
| QuizSession.Session.SelectKanji | src/RandomKanji.js:155-202 | with an empty list nothing changes; otherwise the picked record becomes current, the result is hidden, the history is extended when asked, the answers and correctness are reset, and the preferences are kept |
| QuizSession.Session.Show | src/RandomKanji.js:166-201 | the state updates once the record is chosen, keeping the session invariant |
| QuizSession.Session.GetNextKanji | src/RandomKanji.js:294-301 | "next" moves the index as `NextIndex` says and selects with the history extended; with an empty list nothing changes |
| QuizSession.Session.Reselect | src/RandomKanji.js:246-250 | the re-selection effect: with a non-empty corpus and selection outside the configuration screen it selects as `Pick` does (`currentIndex % length` in order mode, a fresh draw in random mode) and extends the history, keeping the session invariant; otherwise nothing changes |
| QuizSession.Session.PreviousOffered | src/RandomKanji.js:600 | "previous" is offered exactly when the history holds more than one entry |
| QuizSession.Session.HandlePrevious | src/RandomKanji.js:205-235 | "previous" drops the history tail and shows the new tail with a fresh answer buffer; with at most one entry nothing changes |
| QuizSession.Session.IsCurrentKanjiMarked | src/RandomKanji.js:320-322 | the current kanji is marked exactly when there is one and it is in the marked list |
| QuizSession.Session.HandleToggleMark | src/RandomKanji.js:304-318 | the current kanji's mark flips, nothing else changes, and without a current record nothing happens |
| QuizSession.Session.HandleInputChange | src/RandomKanji.js:252-263 | an edit sets the Han-Viet text or exactly one kun or on slot, keeping the invariant |
| QuizSession.Session.HandleSkipFieldChange | src/RandomKanji.js:265-270 | exactly the one skip flag is set |
| QuizSession.Session.HandleRomajiModeChange | src/RandomKanji.js:272-277 | exactly the one romaji flag is set |
| QuizSession.Session.HandleAnswerResult | src/RandomKanji.js:288-292 | the checked results are recorded and the result is shown |
| QuizSession.Session.HandleKanjiTypeChange | src/RandomKanji.js:238-243 | the toggles become `Toggled` of the old ones |
| QuizSession.Session.SetDisplayMode | src/RandomKanji.js:374 | the radio buttons set the display mode |
| QuizSession.Session.OpenConfig | src/RandomKanji.js:572 | opening the configuration keeps the session invariant |

## Left out

- The workbook library (`XLSX.read`, `decode_range`, `encode_cell`): the model takes
  the decoded range as a grid. It assumes the range starts at column A, so a row's
  length is its column count. Cell values are strings; numeric cell values are not
  modelled.
- The regular expression `<rPh[^>]*><t[^>]*>([^<]+)<\/t><\/rPh>` on an inline ruby
  string: the model takes its capture, or its failure to match, as given.
- Persistence (`localStorage` reads and writes, `JSON.parse`/`stringify`) and the
  effects at `src/RandomKanji.js:60-72`: the saved values become parameters, and the
  stored corpus is what `Kanji.Store` gives back.
- The alert and the statistics of the import, the file reading (`FileReader`, `fetch`),
  all rendering, and `src/KanjiList.js`: they are I/O or presentation.
- `Math.random()`: a caller-supplied draw below the list length stands for
  `Math.floor(Math.random() * length)`.
- When React runs the effect at `src/RandomKanji.js:246-250`: it is modelled as the
  method `QuizSession.Session.Reselect`, and a caller invokes it after each change of
  the configuration flag. State updates are modelled as immediate. After a successful
  `StartQuiz` this effect fires and selects again as `Pick` does (`currentIndex % length`
  in order mode, a fresh draw in random mode), with the history extended. So the source's history holds one record before the first "next", where
  `StartQuiz` alone leaves it empty, and in random mode the first record is drawn
  twice. Only a caller that runs `Reselect` after `StartQuiz` sees the source's "previous"
  button after the first "next".
- Ingest.Lookup: the prior corpus is a map holding only the prior records' keys. The
  source's `oldKanjiMap` is a plain JavaScript object (`src/App.js:85-88`, `145`,
  `231`). A lookup there also finds members inherited from `Object.prototype`
  (`constructor`, `toString`, `valueOf`, …). So a kanji cell spelling such a name, with
  no prior record, is classified `updated` in the source and `new` in the model. A
  prior record keyed `__proto__` replaces the object's prototype instead of being
  stored. Kanji cells are single CJK characters in practice.
- `getLearnedKanji`'s key parsing (`parseInt(dayKey.replace("day", ""))`) and object
  key order: progress entries come as a sequence of day numbers in key order, and a
  plan day's kanji objects are reduced to their `kanji` strings.
- Legacy records in the quiz whose `kun` or `on` is a bare string (the `? 1 : 0`
  branches at `src/RandomKanji.js:186-193` and `219-226`): the session works on
  `KanjiRecord`, whose readings are arrays. `QuizFilter.HasReading` does model the
  string shape.
- Null example entries and non-string reading items in a stored record: stored
  fields are arrays of strings, a bare string, or missing.
- Answer checking, romaji conversion and the example display (`KanjiQuiz`,
  `romajiUtils`, `ExampleWords`): they are not part of this model.
- QuizSession.Session.HandleInputChange: requires the edited kun or on slot to exist.
  JavaScript would grow a sparse array for an index past the end; the quiz only edits
  slots the selection created.
- Ingest.ReimportIsIdempotent: stated only for sheets that list each kanji once. With
  a duplicated kanji, the earlier record is compared against the later one's stored
  copy and can be `updated`.
