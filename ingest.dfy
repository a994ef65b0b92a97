/**
 * Spreadsheet ingestion: `processExcelFile` turns the first worksheet into kanji
 * records and classifies each against the prior corpus.
 *
 * The worksheet arrives already decoded: a grid of cells whose ruby metadata is a
 * tagged variant. The specification is two-phase: `BuildDrafts` groups the rows into
 * records, `Classify` gives each finished record its status, and `Ingested` composes
 * them. `ProcessExcelFile` is the source's single pass, which finalises each record
 * only when the next one opens, and is proved to compute `Ingested`.
 */
module Ingest {
  import opened Text
  import opened Kanji
  import opened Compare

  /** One element of a run array: `element.rPh.t`, `None` when the element, its `rPh`
      or its `t` is absent. */
  datatype Run = Run(t: Option<string>)

  /** The ruby metadata `cell.r`: absent or empty; an inline tagged string, reduced to
      what the pattern `<rPh ...><t ...>(...)</t></rPh>` captures (`None` when it does not
      match); an array of runs; or a single object carrying `rPh.t` itself. */
  datatype Ruby = NoRuby | Inline(capture: Option<string>) | Runs(runs: seq<Run>) | Single(t: Option<string>)

  /** A worksheet cell: not present in the sheet, or present with its value `cell.v`
      and its ruby metadata. */
  datatype RawCell = Absent | Present(value: string, ruby: Ruby)

  /** The cells of the sheet's range, row by row, each row starting at column A. */
  type Sheet = seq<seq<RawCell>>

  /** JavaScript truthiness of an optional string: present and not empty. */
  predicate Truthy(t: Option<string>) {
    t.Some? && t.value != []
  }

  /** The `rPh.t` of the first run that has one. */
  function FirstRunReading(runs: seq<Run>): (p: Option<string>)
    ensures p.None? <==> forall i :: 0 <= i < |runs| ==> !Truthy(runs[i].t)
    ensures p.Some? ==> exists i :: 0 <= i < |runs| && runs[i].t == p && Truthy(p) &&
                                    forall j :: 0 <= j < i ==> !Truthy(runs[j].t)
  {
    if runs == [] then None
    else if Truthy(runs[0].t) then runs[0].t
    else
      var p := FirstRunReading(runs[1..]);
      assert p.Some? ==> exists i :: 1 <= i < |runs| && runs[i].t == p && Truthy(p) &&
                                     forall j :: 0 <= j < i ==> !Truthy(runs[j].t) by {
        if p.Some? {
          var i :| 0 <= i < |runs[1..]| && runs[1..][i].t == p && Truthy(p) &&
                   forall j :: 0 <= j < i ==> !Truthy(runs[1..][j].t);
          assert runs[i + 1] == runs[1..][i];
          assert forall j :: 1 <= j < i + 1 ==> runs[j] == runs[1..][j - 1];
        }
      }
      assert p.None? ==> forall i :: 0 <= i < |runs| ==> !Truthy(runs[i].t) by {
        if p.None? {
          assert forall i :: 1 <= i < |runs| ==> runs[i] == runs[1..][i - 1];
        }
      }
      p
  }

  /** The phonetic reading recovered from a cell's ruby metadata. An inline capture has
      all its white space removed (it may be empty afterwards); a run array or a single
      object contributes a non-empty `rPh.t` as it is; otherwise there is none. */
  function PhoneticOf(ruby: Ruby): (p: Option<string>)
    ensures ruby.NoRuby? ==> p.None?
    ensures ruby.Inline? ==> (p.Some? <==> ruby.capture.Some?)
    ensures ruby.Inline? && p.Some? ==>
      p.value == RemoveWhitespace(ruby.capture.value) && forall i :: 0 <= i < |p.value| ==> !IsWhitespace(p.value[i])
    ensures ruby.Runs? ==> p == FirstRunReading(ruby.runs)
    ensures ruby.Single? ==> p == (if ruby.t.Some? && ruby.t.value != [] then ruby.t else None)
    ensures !ruby.Inline? && p.Some? ==> p.value != []
  {
    match ruby
    case NoRuby => None
    case Inline(capture) =>
      if capture.Some? then
        RemoveAfterTrim(capture.value);
        Some(RemoveWhitespace(Trim(capture.value)))
      else None
    case Runs(runs) => FirstRunReading(runs)
    case Single(t) => if Truthy(t) then t else None
  }

  /** `{text: cell.v || "", phonetic}` for a present cell, `{text: "", phonetic: null}`
      for a missing one. */
  function CellOf(raw: RawCell): (c: Cell)
    ensures raw.Absent? ==> c == Cell([], None)
    ensures raw.Present? ==> c.text == raw.value && c.phonetic == PhoneticOf(raw.ruby)
  {
    match raw
    case Absent => Cell([], None)
    case Present(v, ruby) => Cell(v, PhoneticOf(ruby))
  }

  function RowOf(raw: seq<RawCell>): (row: seq<Cell>)
    ensures |row| == |raw|
    ensures forall c :: 0 <= c < |raw| ==> row[c] == CellOf(raw[c])
  {
    seq(|raw|, c requires 0 <= c < |raw| => CellOf(raw[c]))
  }

  /** The decoded rows below the header: the first row of the range is never read. */
  function DataRows(sheet: Sheet): (rows: seq<seq<Cell>>)
    ensures |rows| == if |sheet| == 0 then 0 else |sheet| - 1
    ensures forall k :: 0 <= k < |rows| ==> rows[k] == RowOf(sheet[k + 1])
  {
    if |sheet| == 0 then []
    else seq(|sheet| - 1, k requires 0 <= k < |sheet| - 1 => RowOf(sheet[k + 1]))
  }

  /** A row that opens a record: at least six cells and a column A that does not trim
      to `""`, that is, one that is not all white space. */
  predicate Opens(row: seq<Cell>) {
    |row| >= 6 && !IsBlank(row[0].text)
  }

  /** The record a record-start row opens: the trimmed kanji, the readings of columns
      B to D split, and exactly two example entries from columns E and F, kept even when
      blank (`{text: row[4].text || "", phonetic: row[4].phonetic}` is the cell itself). */
  function OpenRecord(row: seq<Cell>): (r: KanjiRecord)
    requires |row| >= 6
  {
    KanjiRecord(Trim(row[0].text), SplitReadings(row[1].text), SplitReadings(row[2].text),
                SplitReadings(row[3].text), [row[4], row[5]], None)
  }

  /** The examples a row without a kanji contributes: one per non-empty cell of columns
      E and F, E first. Emptiness is JavaScript truthiness, so a cell holding only
      spaces still counts. */
  function Appended(row: seq<Cell>): (es: seq<Cell>)
    ensures |es| <= 2
    ensures |row| < 6 ==> es == []
    ensures |row| >= 6 ==> es == (if row[4].text != [] then [row[4]] else []) + (if row[5].text != [] then [row[5]] else [])
  {
    if |row| < 6 then []
    else (if row[4].text != [] then [row[4]] else []) + (if row[5].text != [] then [row[5]] else [])
  }

  /** One row of the record builder (the body of the row loop, statuses aside). */
  function Step(drafts: seq<KanjiRecord>, row: seq<Cell>): seq<KanjiRecord> {
    if |row| < 6 then drafts
    else if !IsBlank(row[0].text) then drafts + [OpenRecord(row)]
    else if |drafts| > 0 && (row[4].text != [] || row[5].text != []) then
      var last := drafts[|drafts| - 1];
      drafts[..|drafts| - 1] + [last.(example := last.example + Appended(row))]
    else drafts
  }

  /** A record-start row adds exactly one record, after the others, and leaves the
      earlier ones alone. */
  lemma StepOpens(drafts: seq<KanjiRecord>, row: seq<Cell>)
    requires Opens(row)
    ensures Step(drafts, row) == drafts + [OpenRecord(row)]
  {
  }

  /** Any other row touches at most the last record, and only by appending its examples;
      with no record yet, or nothing to append, it changes nothing. */
  lemma StepContinues(drafts: seq<KanjiRecord>, row: seq<Cell>)
    requires !Opens(row)
    ensures |Step(drafts, row)| == |drafts|
    ensures drafts == [] || Step(drafts, row)[..|drafts| - 1] == drafts[..|drafts| - 1]
    ensures drafts == [] || Step(drafts, row)[|drafts| - 1] ==
                            drafts[|drafts| - 1].(example := drafts[|drafts| - 1].example + Appended(row))
    ensures Appended(row) == [] ==> Step(drafts, row) == drafts
  {
    if |drafts| > 0 && Appended(row) == [] {
      assert drafts[|drafts| - 1].example + Appended(row) == drafts[|drafts| - 1].example;
    }
  }

  /** The records the rows build, before any status is assigned. */
  function BuildDrafts(rows: seq<seq<Cell>>): seq<KanjiRecord>
    decreases |rows|
  {
    if rows == [] then [] else Step(BuildDrafts(rows[..|rows| - 1]), rows[|rows| - 1])
  }

  /** The trimmed column-A text of every record-start row, in row order. */
  function StartKeys(rows: seq<seq<Cell>>): seq<string>
    decreases |rows|
  {
    if rows == [] then []
    else StartKeys(rows[..|rows| - 1]) + (if Opens(rows[|rows| - 1]) then [Trim(rows[|rows| - 1][0].text)] else [])
  }

  function Kanjis(rs: seq<KanjiRecord>): (ks: seq<string>)
    ensures |ks| == |rs|
    ensures forall i :: 0 <= i < |rs| ==> ks[i] == rs[i].kanji
  {
    seq(|rs|, i requires 0 <= i < |rs| => rs[i].kanji)
  }

  /** One record per record-start row, keyed by its trimmed column A, in row order. */
  lemma {:induction false} DraftKeys(rows: seq<seq<Cell>>)
    ensures Kanjis(BuildDrafts(rows)) == StartKeys(rows)
    decreases |rows|
  {
    if rows != [] {
      var prefix := rows[..|rows| - 1];
      DraftKeys(prefix);
      StepKeys(BuildDrafts(prefix), rows[|rows| - 1]);
    }
  }

  /** A row adds its trimmed column A to the keys when it opens a record, and nothing
      otherwise. */
  lemma StepKeys(before: seq<KanjiRecord>, row: seq<Cell>)
    ensures Kanjis(Step(before, row)) == Kanjis(before) + (if Opens(row) then [Trim(row[0].text)] else [])
  {
    if Opens(row) {
      StepOpens(before, row);
      KanjisSnoc(before, OpenRecord(row));
    } else {
      StepKeepsKeys(before, row);
      KanjisSameKeys(Step(before, row), before);
    }
  }

  lemma StepKeepsKeys(drafts: seq<KanjiRecord>, row: seq<Cell>)
    requires !Opens(row)
    ensures |Step(drafts, row)| == |drafts|
    ensures forall i :: 0 <= i < |drafts| ==> Step(drafts, row)[i].kanji == drafts[i].kanji
  {
    if |row| >= 6 && |drafts| > 0 && (row[4].text != [] || row[5].text != []) {
      var n := |drafts|;
      var last := drafts[n - 1].(example := drafts[n - 1].example + Appended(row));
      assert Step(drafts, row) == drafts[..n - 1] + [last];
      ReplaceLast(drafts, last);
    }
  }

  lemma ReplaceLast(s: seq<KanjiRecord>, x: KanjiRecord)
    requires s != []
    ensures |s[..|s| - 1] + [x]| == |s|
    ensures forall i :: 0 <= i < |s| - 1 ==> (s[..|s| - 1] + [x])[i] == s[i]
    ensures (s[..|s| - 1] + [x])[|s| - 1] == x
  {
  }

  lemma KanjisSnoc(rs: seq<KanjiRecord>, r: KanjiRecord)
    ensures Kanjis(rs + [r]) == Kanjis(rs) + [r.kanji]
  {
  }

  lemma KanjisSameKeys(a: seq<KanjiRecord>, b: seq<KanjiRecord>)
    requires |a| == |b|
    requires forall i :: 0 <= i < |a| ==> a[i].kanji == b[i].kanji
    ensures Kanjis(a) == Kanjis(b)
  {
  }

  /** What every built record looks like: a non-empty trimmed kanji, readings that are
      all well-formed tokens, at least the two examples of its own row, no status yet. */
  predicate WellFormedDraft(r: KanjiRecord) {
    && r.kanji != [] && IsTrimmed(r.kanji)
    && (forall k :: 0 <= k < |r.hanviet| ==> IsToken(r.hanviet[k]))
    && (forall k :: 0 <= k < |r.kun| ==> IsToken(r.kun[k]))
    && (forall k :: 0 <= k < |r.on| ==> IsToken(r.on[k]))
    && |r.example| >= 2
    && r.status.None?
  }

  lemma {:induction false} DraftsWellFormed(rows: seq<seq<Cell>>)
    ensures forall i :: 0 <= i < |BuildDrafts(rows)| ==> WellFormedDraft(BuildDrafts(rows)[i])
    decreases |rows|
  {
    if rows != [] {
      DraftsWellFormed(rows[..|rows| - 1]);
      StepWellFormed(BuildDrafts(rows[..|rows| - 1]), rows[|rows| - 1]);
    }
  }

  /** One row keeps every record well formed. */
  lemma StepWellFormed(before: seq<KanjiRecord>, row: seq<Cell>)
    requires forall i :: 0 <= i < |before| ==> WellFormedDraft(before[i])
    ensures forall i :: 0 <= i < |Step(before, row)| ==> WellFormedDraft(Step(before, row)[i])
  {
    if Opens(row) {
      StepOpens(before, row);
      OpenRecordWellFormed(row);
      SnocWellFormed(before, OpenRecord(row));
    } else if before != [] {
      ContinueWellFormed(before, row);
    } else {
      StepContinues(before, row);
    }
  }

  lemma SnocWellFormed(before: seq<KanjiRecord>, r: KanjiRecord)
    requires forall i :: 0 <= i < |before| ==> WellFormedDraft(before[i])
    requires WellFormedDraft(r)
    ensures forall i :: 0 <= i < |before + [r]| ==> WellFormedDraft((before + [r])[i])
  {
  }

  lemma ContinueWellFormed(before: seq<KanjiRecord>, row: seq<Cell>)
    requires !Opens(row) && before != []
    requires forall i :: 0 <= i < |before| ==> WellFormedDraft(before[i])
    ensures forall i :: 0 <= i < |Step(before, row)| ==> WellFormedDraft(Step(before, row)[i])
  {
    var n := |before|;
    var last := before[n - 1];
    StepContinues(before, row);
    var after := Step(before, row);
    AppendKeepsWellFormed(last, Appended(row));
    forall i | 0 <= i < n ensures WellFormedDraft(after[i]) {
      if i < n - 1 {
        assert after[i] == after[..n - 1][i];
      }
    }
  }

  lemma AppendKeepsWellFormed(r: KanjiRecord, es: seq<Cell>)
    requires WellFormedDraft(r)
    ensures WellFormedDraft(r.(example := r.example + es))
  {
  }

  lemma OpenRecordWellFormed(row: seq<Cell>)
    requires Opens(row)
    ensures WellFormedDraft(OpenRecord(row))
  {
    SplitReadingsTokens(row[1].text);
    SplitReadingsTokens(row[2].text);
    SplitReadingsTokens(row[3].text);
  }

  /** All the examples a run of rows without a kanji contributes, in row order. */
  function AllAppended(rows: seq<seq<Cell>>): seq<Cell>
    decreases |rows|
  {
    if rows == [] then [] else AllAppended(rows[..|rows| - 1]) + Appended(rows[|rows| - 1])
  }

  /** A record collects its examples from its own row and from the rows after it up to
      the next record-start row: first the two slots of columns E and F of its own row,
      then every non-empty E and F cell of the following rows, row by row, E before F. */
  lemma {:induction false} ContinuationExamples(prefix: seq<seq<Cell>>, start: seq<Cell>, rest: seq<seq<Cell>>)
    requires Opens(start)
    requires forall k :: 0 <= k < |rest| ==> !Opens(rest[k])
    ensures BuildDrafts(prefix + [start] + rest) ==
            BuildDrafts(prefix) + [OpenRecord(start).(example := [start[4], start[5]] + AllAppended(rest))]
    decreases |rest|
  {
    var rows := prefix + [start] + rest;
    if rest == [] {
      assert rows == prefix + [start];
      OpensAlone(prefix, start);
    } else {
      var shorter := rest[..|rest| - 1];
      var last := rest[|rest| - 1];
      assert rest == shorter + [last];
      assert rows == (prefix + [start] + shorter) + [last];
      ContinuationExamples(prefix, start, shorter);
      ContinuationStep(prefix, start, shorter, last);
    }
  }

  lemma ContinuationStep(prefix: seq<seq<Cell>>, start: seq<Cell>, shorter: seq<seq<Cell>>, last: seq<Cell>)
    requires Opens(start) && !Opens(last)
    requires BuildDrafts(prefix + [start] + shorter) ==
             BuildDrafts(prefix) + [OpenRecord(start).(example := [start[4], start[5]] + AllAppended(shorter))]
    ensures BuildDrafts((prefix + [start] + shorter) + [last]) ==
            BuildDrafts(prefix) + [OpenRecord(start).(example := [start[4], start[5]] + AllAppended(shorter + [last]))]
  {
    var open := OpenRecord(start).(example := [start[4], start[5]] + AllAppended(shorter));
    BuildDraftsSnoc(prefix + [start] + shorter, last);
    StepAppends(BuildDrafts(prefix), open, last);
    AllAppendedSnoc(shorter, last);
    ConcatAssoc([start[4], start[5]], AllAppended(shorter), Appended(last));
  }

  lemma ConcatAssoc(a: seq<Cell>, b: seq<Cell>, c: seq<Cell>)
    ensures a + b + c == a + (b + c)
  {
  }

  lemma AllAppendedSnoc(rows: seq<seq<Cell>>, row: seq<Cell>)
    ensures AllAppended(rows + [row]) == AllAppended(rows) + Appended(row)
  {
    assert (rows + [row])[..|rows|] == rows;
  }

  lemma OpensAlone(prefix: seq<seq<Cell>>, start: seq<Cell>)
    requires Opens(start)
    ensures BuildDrafts(prefix + [start]) ==
            BuildDrafts(prefix) + [OpenRecord(start).(example := [start[4], start[5]] + AllAppended([]))]
  {
    var e := [start[4], start[5]];
    assert e + AllAppended([]) == e;
    assert OpenRecord(start).(example := e) == OpenRecord(start);
    BuildDraftsSnoc(prefix, start);
    StepOpens(BuildDrafts(prefix), start);
  }

  lemma BuildDraftsSnoc(rows: seq<seq<Cell>>, row: seq<Cell>)
    ensures BuildDrafts(rows + [row]) == Step(BuildDrafts(rows), row)
  {
    assert (rows + [row])[..|rows|] == rows;
  }

  /** A row without a kanji extends the examples of the last record and nothing else. */
  lemma StepAppends(drafts: seq<KanjiRecord>, x: KanjiRecord, row: seq<Cell>)
    requires !Opens(row)
    ensures Step(drafts + [x], row) == drafts + [x.(example := x.example + Appended(row))]
  {
    var ds := drafts + [x];
    assert ds[..|ds| - 1] == drafts;
    if Appended(row) == [] {
      assert x.example + Appended(row) == x.example;
    }
  }

  /** Some entry of `prior` has the kanji `k`. */
  predicate HasKey(prior: seq<StoredKanji>, k: string) {
    exists i :: 0 <= i < |prior| && prior[i].kanji == k
  }

  lemma HasKeySnoc(prior: seq<StoredKanji>, k: string)
    requires prior != []
    ensures HasKey(prior, k) <==> HasKey(prior[..|prior| - 1], k) || prior[|prior| - 1].kanji == k
  {
    var shorter := prior[..|prior| - 1];
    if HasKey(shorter, k) {
      var i :| 0 <= i < |shorter| && shorter[i].kanji == k;
      assert prior[i] == shorter[i];
    }
    if HasKey(prior, k) && prior[|prior| - 1].kanji != k {
      var i :| 0 <= i < |prior| && prior[i].kanji == k;
      assert shorter[i] == prior[i];
    }
  }

  /** `oldKanjiMap`: the prior corpus keyed by kanji, the last entry for a key winning. */
  function IndexByKanji(prior: seq<StoredKanji>): (m: map<string, StoredKanji>)
    ensures forall k :: k in m <==> HasKey(prior, k)
    ensures forall k :: k in m ==> m[k].kanji == k && m[k] in prior
    decreases |prior|
  {
    if prior == [] then map[]
    else
      var m := IndexByKanji(prior[..|prior| - 1]);
      assert forall x :: x in prior[..|prior| - 1] ==> x in prior;
      assert forall k :: HasKey(prior, k) <==> HasKey(prior[..|prior| - 1], k) || prior[|prior| - 1].kanji == k by {
        forall k ensures HasKey(prior, k) <==> HasKey(prior[..|prior| - 1], k) || prior[|prior| - 1].kanji == k {
          HasKeySnoc(prior, k);
        }
      }
      m[prior[|prior| - 1].kanji := prior[|prior| - 1]]
  }

  /** A prior entry that no later entry shares its kanji with is the one the map keeps. */
  lemma {:induction false} LastEntryWins(prior: seq<StoredKanji>, i: nat)
    requires i < |prior|
    requires forall j :: i < j < |prior| ==> prior[j].kanji != prior[i].kanji
    ensures prior[i].kanji in IndexByKanji(prior) && IndexByKanji(prior)[prior[i].kanji] == prior[i]
    decreases |prior|
  {
    if i < |prior| - 1 {
      var shorter := prior[..|prior| - 1];
      assert shorter[i] == prior[i];
      LastEntryWins(shorter, i);
    }
  }

  /** `oldKanjiMap[kanji]`: the prior record for a key, if any. */
  function Lookup(m: map<string, StoredKanji>, k: string): (o: Option<StoredKanji>)
    ensures o.Some? <==> k in m
    ensures o.Some? ==> o.value == m[k]
  {
    if k in m then Some(m[k]) else None
  }

  /** A finished record with its status, compared against the prior record of its key. */
  function Classified(d: KanjiRecord, m: map<string, StoredKanji>): (r: KanjiRecord)
    ensures r.status.Some? && r.(status := d.status) == d
  {
    d.(status := Some(CompareKanji(Lookup(m, d.kanji), d)))
  }

  function Classify(drafts: seq<KanjiRecord>, m: map<string, StoredKanji>): (rs: seq<KanjiRecord>)
    ensures |rs| == |drafts|
    ensures forall i :: 0 <= i < |drafts| ==> rs[i] == Classified(drafts[i], m)
  {
    seq(|drafts|, i requires 0 <= i < |drafts| => Classified(drafts[i], m))
  }

  /** The result of importing `sheet` over the prior corpus `prior`: one record per
      record-start row, keyed and ordered as those rows, each carrying the status that
      `compareKanji` gives the finished record (all its examples appended) against the
      last prior entry with its key. */
  function Ingested(sheet: Sheet, prior: seq<StoredKanji>): (rs: seq<KanjiRecord>)
    ensures Kanjis(rs) == StartKeys(DataRows(sheet))
    ensures forall i :: 0 <= i < |rs| ==>
      rs[i].status == Some(CompareKanji(Lookup(IndexByKanji(prior), rs[i].kanji), rs[i]))
  {
    var drafts := BuildDrafts(DataRows(sheet));
    DraftKeys(DataRows(sheet));
    var rs := Classify(drafts, IndexByKanji(prior));
    assert Kanjis(rs) == Kanjis(drafts);
    rs
  }

  /** Every imported record has a non-empty trimmed kanji, readings that are all
      well-formed tokens, at least the two examples of its own row, and a status. */
  lemma IngestedWellFormed(sheet: Sheet, prior: seq<StoredKanji>)
    ensures forall i :: 0 <= i < |Ingested(sheet, prior)| ==>
      WellFormedDraft(Ingested(sheet, prior)[i].(status := None)) && Ingested(sheet, prior)[i].status.Some?
  {
    var drafts := BuildDrafts(DataRows(sheet));
    DraftsWellFormed(DataRows(sheet));
    var rs := Ingested(sheet, prior);
    assert rs == Classify(drafts, IndexByKanji(prior));
    forall i | 0 <= i < |rs| ensures WellFormedDraft(rs[i].(status := None)) {
      assert rs[i].(status := None) == drafts[i];
    }
  }

  /** Changing the header row changes nothing. */
  lemma HeaderIgnored(sheet: Sheet, header: seq<RawCell>, prior: seq<StoredKanji>)
    requires |sheet| > 0
    ensures Ingested([header] + sheet[1..], prior) == Ingested(sheet, prior)
  {
    assert DataRows([header] + sheet[1..]) == DataRows(sheet);
  }

  /** Importing the same sheet again over the corpus the first import stored marks every
      record `Existing`, provided the sheet lists each kanji once. */
  lemma ReimportIsIdempotent(sheet: Sheet, prior: seq<StoredKanji>)
    requires forall i, j :: 0 <= i < j < |Ingested(sheet, prior)| ==>
      Ingested(sheet, prior)[i].kanji != Ingested(sheet, prior)[j].kanji
    ensures forall i :: 0 <= i < |Ingested(sheet, StoreAll(Ingested(sheet, prior)))| ==>
      Ingested(sheet, StoreAll(Ingested(sheet, prior)))[i].status == Some(Existing)
  {
    var first := Ingested(sheet, prior);
    var stored := StoreAll(first);
    var drafts := BuildDrafts(DataRows(sheet));
    var second := Ingested(sheet, stored);
    forall i | 0 <= i < |second| ensures second[i].status == Some(Existing) {
      assert second[i] == Classified(drafts[i], IndexByKanji(stored));
      assert first[i] == Classified(drafts[i], IndexByKanji(prior));
      LastEntryWins(stored, i);
      assert Lookup(IndexByKanji(stored), drafts[i].kanji) == Some(Store(first[i]));
      CompareWithOwnCopy(drafts[i], first[i]);
    }
  }

  /** The source's marker state: every record but the last has its status, and the last
      one is still waiting for it. */
  ghost function InProgress(drafts: seq<KanjiRecord>, m: map<string, StoredKanji>): seq<KanjiRecord> {
    if drafts == [] then [] else Classify(drafts[..|drafts| - 1], m) + [drafts[|drafts| - 1]]
  }

  /** Reads the phonetic reading of one cell's ruby metadata, trying the shapes in the
      source's order and scanning a run array until the first run with a reading. */
  method ReadPhonetic(ruby: Ruby) returns (phoneticText: Option<string>)
    ensures phoneticText == PhoneticOf(ruby)
  {
    phoneticText := None;
    match ruby {
      case NoRuby =>
      case Inline(capture) =>
        if capture.Some? {
          phoneticText := Some(RemoveWhitespace(Trim(capture.value)));
        }
      case Runs(runs) =>
        var i := 0;
        while i < |runs|
          invariant 0 <= i <= |runs|
          invariant forall j :: 0 <= j < i ==> !Truthy(runs[j].t)
          invariant phoneticText == None
        {
          var element := runs[i];
          if Truthy(element.t) {
            phoneticText := element.t;
            break;
          }
          i := i + 1;
        }
        assert phoneticText == FirstRunReading(runs) by {
          if phoneticText.None? {
            assert forall j :: 0 <= j < |runs| ==> !Truthy(runs[j].t);
          } else {
            FirstRunIsFirst(runs, i);
          }
        }
      case Single(t) =>
        if Truthy(t) {
          phoneticText := t;
        }
    }
  }

  lemma {:induction false} FirstRunIsFirst(runs: seq<Run>, i: nat)
    requires i < |runs| && Truthy(runs[i].t)
    requires forall j :: 0 <= j < i ==> !Truthy(runs[j].t)
    ensures FirstRunReading(runs) == runs[i].t
    decreases i
  {
    if i > 0 {
      assert runs[1..][i - 1] == runs[i];
      FirstRunIsFirst(runs[1..], i - 1);
    }
  }

  /** The inner loop over the columns of one row. */
  method ReadRow(raw: seq<RawCell>) returns (row: seq<Cell>)
    ensures row == RowOf(raw)
  {
    row := [];
    for c := 0 to |raw|
      invariant |row| == c
      invariant forall k :: 0 <= k < c ==> row[k] == CellOf(raw[k])
    {
      var cell := raw[c];
      if cell.Present? {
        var phoneticText := ReadPhonetic(cell.ruby);
        row := row + [Cell(cell.value, phoneticText)];
      } else {
        row := row + [Cell([], None)];
      }
    }
  }

  /** `oldKanjiData.forEach((item) => { oldKanjiMap[item.kanji] = item; })`. */
  method BuildOldMap(prior: seq<StoredKanji>) returns (oldKanjiMap: map<string, StoredKanji>)
    ensures oldKanjiMap == IndexByKanji(prior)
  {
    oldKanjiMap := map[];
    for i := 0 to |prior|
      invariant oldKanjiMap == IndexByKanji(prior[..i])
    {
      assert prior[..i + 1][..i] == prior[..i];
      oldKanjiMap := oldKanjiMap[prior[i].kanji := prior[i]];
    }
    assert prior[..|prior|] == prior;
  }

  /** The row loop of `processExcelFile`: skip the header, handle each row in turn, and
      finalise the last record at the end. The local `needsStatusCheck` is the marker
      the source keeps on the last record. */
  method ProcessExcelFile(sheet: Sheet, prior: seq<StoredKanji>) returns (result: seq<KanjiRecord>)
    ensures result == Ingested(sheet, prior)
  {
    var oldKanjiMap := BuildOldMap(prior);
    ghost var rows := DataRows(sheet);
    result := [];
    var needsStatusCheck := false;
    var r := 1;
    while r < |sheet|
      invariant 1 <= r && r - 1 <= |rows|
      invariant r < |sheet| || r - 1 == |rows|
      invariant result == InProgress(BuildDrafts(rows[..r - 1]), oldKanjiMap)
      invariant needsStatusCheck == (|result| > 0)
    {
      var row := ReadRow(sheet[r]);
      assert rows[..r] == rows[..r - 1] + [row];
      BuildDraftsSnoc(rows[..r - 1], row);
      result, needsStatusCheck := ProcessRow(row, result, needsStatusCheck, oldKanjiMap, BuildDrafts(rows[..r - 1]));
      r := r + 1;
    }
    assert rows[..r - 1] == rows;
    if |result| > 0 {
      var lastKanji := result[|result| - 1];
      if needsStatusCheck {
        var oldKanji := Lookup(oldKanjiMap, lastKanji.kanji);
        result := result[..|result| - 1] + [lastKanji.(status := Some(CompareKanji(oldKanji, lastKanji)))];
        needsStatusCheck := false;
      }
    }
    FinaliseLast(BuildDrafts(rows), oldKanjiMap);
  }

  /** The body of the row loop for one decoded row: ignore a short row; on a non-blank
      column A, finalise the status of the waiting record and open a new one; otherwise
      append the non-empty cells of columns E and F to the last record. `before` is the
      record list so far, without statuses, that `records` tracks. */
  method ProcessRow(row: seq<Cell>, records: seq<KanjiRecord>, needsStatusCheck: bool,
                    oldKanjiMap: map<string, StoredKanji>, ghost before: seq<KanjiRecord>)
    returns (result: seq<KanjiRecord>, pending: bool)
    requires records == InProgress(before, oldKanjiMap)
    requires needsStatusCheck == (|records| > 0)
    ensures result == InProgress(Step(before, row), oldKanjiMap)
    ensures pending == (|result| > 0)
  {
    result, pending := records, needsStatusCheck;
    if |row| >= 6 {
      var kanjiText := Trim(row[0].text);
      if kanjiText != [] {
        if |result| > 0 {
          var lastKanji := result[|result| - 1];
          if pending {
            var oldKanji := Lookup(oldKanjiMap, lastKanji.kanji);
            result := result[..|result| - 1] + [lastKanji.(status := Some(CompareKanji(oldKanji, lastKanji)))];
            pending := false;
          }
        }
        FinaliseLast(before, oldKanjiMap);
        var newKanjiItem := KanjiRecord(kanjiText, SplitReadings(row[1].text), SplitReadings(row[2].text),
                                        SplitReadings(row[3].text),
                                        [Cell(row[4].text, row[4].phonetic), Cell(row[5].text, row[5].phonetic)], None);
        result := result + [newKanjiItem];
        pending := true;
        StepOpens(before, row);
        InProgressOpen(before, oldKanjiMap, newKanjiItem);
      } else if |result| > 0 && (row[4].text != [] || row[5].text != []) {
        var lastKanji := result[|result| - 1];
        var example := lastKanji.example;
        if row[4].text != [] {
          example := example + [Cell(row[4].text, row[4].phonetic)];
        }
        if row[5].text != [] {
          example := example + [Cell(row[5].text, row[5].phonetic)];
        }
        assert example == lastKanji.example + Appended(row);
        result := result[..|result| - 1] + [lastKanji.(example := example)];
        InProgressExtend(before, oldKanjiMap, Appended(row));
      } else {
        StepContinues(before, row);
      }
    }
  }

  /** Finalising the waiting record gives every record its status. */
  lemma FinaliseLast(drafts: seq<KanjiRecord>, m: map<string, StoredKanji>)
    ensures drafts == [] ==> InProgress(drafts, m) == [] == Classify(drafts, m)
    ensures drafts != [] ==>
      var p := InProgress(drafts, m);
      |p| == |drafts| &&
      p[..|p| - 1] + [p[|p| - 1].(status := Some(CompareKanji(Lookup(m, p[|p| - 1].kanji), p[|p| - 1])))] ==
      Classify(drafts, m)
  {
    if drafts != [] {
      var n := |drafts|;
      var p := InProgress(drafts, m);
      assert p[..n - 1] == Classify(drafts[..n - 1], m);
      assert p[n - 1] == drafts[n - 1];
    }
  }

  /** Opening a record after finalising the others leaves the new one waiting. */
  lemma InProgressOpen(drafts: seq<KanjiRecord>, m: map<string, StoredKanji>, x: KanjiRecord)
    ensures InProgress(drafts + [x], m) == Classify(drafts, m) + [x]
  {
    assert (drafts + [x])[..|drafts|] == drafts;
  }

  /** Appending examples to the waiting record. */
  lemma InProgressExtend(drafts: seq<KanjiRecord>, m: map<string, StoredKanji>, es: seq<Cell>)
    requires drafts != []
    ensures var p := InProgress(drafts, m);
            var last := drafts[|drafts| - 1];
            |p| == |drafts| &&
            InProgress(drafts[..|drafts| - 1] + [last.(example := last.example + es)], m) ==
            p[..|p| - 1] + [p[|p| - 1].(example := p[|p| - 1].example + es)]
  {
    var n := |drafts|;
    var last := drafts[n - 1];
    var d2 := drafts[..n - 1] + [last.(example := last.example + es)];
    assert d2[..n - 1] == drafts[..n - 1];
  }
}
