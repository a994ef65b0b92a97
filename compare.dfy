/**
 * The change classifier: `arraysEqual`, `examplesEqual` and `compareKanji`. Each
 * comparison ignores blank entries, so rows padded with empty cells compare equal to
 * their unpadded form.
 */
module Compare {
  import opened Text
  import opened Kanji

  /** `arraysEqual`. When either side is not an array the two are compared with `===`,
      which holds only between equal strings or two missing fields (a string or a
      missing field is never `===` to an array). Otherwise the non-blank entries of both
      sides must agree in number and position by position. */
  function ArraysEqual(a: Field, b: Field): (r: bool)
    ensures a.Items? && b.Items? ==> (r <==> NonBlank(a.items) == NonBlank(b.items))
    ensures a.Items? != b.Items? ==> !r
    ensures !a.Items? && !b.Items? ==> (r <==> a == b)
  {
    if !a.Items? || !b.Items? then a == b
    else
      var validA := NonBlank(a.items);
      var validB := NonBlank(b.items);
      if |validA| != |validB| then false
      else forall i :: 0 <= i < |validA| ==> validA[i] == validB[i]
  }

  /** The example entries whose text is not blank, in order: `filterValidExamples`,
      whose test `text.trim() !== ""` holds exactly for text that is not all white
      space. */
  function Meaningful(examples: seq<Cell>): (r: seq<Cell>)
    ensures |r| <= |examples|
  {
    if examples == [] then []
    else if IsBlank(examples[0].text) then Meaningful(examples[1..])
    else [examples[0]] + Meaningful(examples[1..])
  }

  /** The filter keeps exactly the entries whose text is not blank. */
  lemma {:induction false} MeaningfulFilters(examples: seq<Cell>)
    ensures forall e :: e in Meaningful(examples) <==> e in examples && !IsBlank(e.text)
  {
    if examples != [] {
      var rest := Meaningful(examples[1..]);
      MeaningfulFilters(examples[1..]);
      assert examples == [examples[0]] + examples[1..];
      if !IsBlank(examples[0].text) {
        assert Meaningful(examples) == [examples[0]] + rest;
      }
    }
  }

  /** `examplesEqual`: `false` unless both sides are arrays; then the entries with
      non-blank text must agree in number and, position by position, in both text and
      phonetic reading (neither is trimmed for the comparison). */
  function ExamplesEqual(a: ExampleField, b: ExampleField): (r: bool)
    ensures r <==> a.ExampleList? && b.ExampleList? && Meaningful(a.entries) == Meaningful(b.entries)
  {
    if !a.ExampleList? || !b.ExampleList? then false
    else
      var validA := Meaningful(a.entries);
      var validB := Meaningful(b.entries);
      if |validA| != |validB| then false
      else
        PointwiseSame(validA, validB);
        forall i :: 0 <= i < |validA| ==> SameEntry(validA[i], validB[i])
  }

  lemma PointwiseSame(xs: seq<Cell>, ys: seq<Cell>)
    requires |xs| == |ys|
    ensures (forall i :: 0 <= i < |xs| ==> SameEntry(xs[i], ys[i])) <==> xs == ys
  {
    if forall i :: 0 <= i < |xs| ==> SameEntry(xs[i], ys[i]) {
      assert forall i :: 0 <= i < |xs| ==> xs[i] == ys[i];
    }
  }

  /** `example.text === other.text && example.phonetic === other.phonetic`. */
  predicate SameEntry(x: Cell, y: Cell) {
    x.text == y.text && x.phonetic == y.phonetic
  }

  /** `compareKanji(oldKanji, newKanji)`: `New` without a prior record, `Existing` when
      the three reading fields and the examples all compare equal, `Updated` otherwise.
      Against a freshly built record, a prior field that is not an array never compares
      equal. */
  function CompareKanji(prior: Option<StoredKanji>, rec: KanjiRecord): (s: Status)
    ensures s == New <==> prior.None?
    ensures s == Existing <==>
      && prior.Some?
      && prior.value.hanviet.Items? && NonBlank(prior.value.hanviet.items) == NonBlank(rec.hanviet)
      && prior.value.kun.Items? && NonBlank(prior.value.kun.items) == NonBlank(rec.kun)
      && prior.value.on.Items? && NonBlank(prior.value.on.items) == NonBlank(rec.on)
      && prior.value.example.ExampleList? && Meaningful(prior.value.example.entries) == Meaningful(rec.example)
  {
    match prior
    case None => New
    case Some(o) =>
      var hanvietChanged := !ArraysEqual(o.hanviet, Items(rec.hanviet));
      var kunChanged := !ArraysEqual(o.kun, Items(rec.kun));
      var onChanged := !ArraysEqual(o.on, Items(rec.on));
      var exampleChanged := !ExamplesEqual(o.example, ExampleList(rec.example));
      if hanvietChanged || kunChanged || onChanged || exampleChanged then Updated else Existing
  }

  /** A record compared with its own stored copy is `Existing`: whatever the status the
      copy carries, re-importing unchanged data marks nothing as changed. */
  lemma CompareWithOwnCopy(rec: KanjiRecord, other: KanjiRecord)
    requires other.(status := rec.status) == rec
    ensures CompareKanji(Some(Store(other)), rec) == Existing
  {
  }

  /** Both comparisons are symmetric. */
  lemma ArraysEqualSymmetric(a: Field, b: Field)
    ensures ArraysEqual(a, b) == ArraysEqual(b, a)
  {
  }

  lemma ExamplesEqualSymmetric(a: ExampleField, b: ExampleField)
    ensures ExamplesEqual(a, b) == ExamplesEqual(b, a)
  {
  }

  /** Blank entries never matter: appending blank readings or blank-text examples to
      either side leaves both comparisons unchanged. */
  lemma {:induction false} NonBlankIgnoresBlankTail(xs: seq<string>, blanks: seq<string>)
    requires forall k :: 0 <= k < |blanks| ==> IsBlank(blanks[k])
    ensures NonBlank(xs + blanks) == NonBlank(xs)
  {
    if xs == [] {
      assert xs + blanks == blanks;
      NonBlankOfBlanks(blanks);
    } else {
      assert (xs + blanks)[1..] == xs[1..] + blanks;
      NonBlankIgnoresBlankTail(xs[1..], blanks);
    }
  }

  lemma {:induction false} NonBlankOfBlanks(blanks: seq<string>)
    requires forall k :: 0 <= k < |blanks| ==> IsBlank(blanks[k])
    ensures NonBlank(blanks) == []
  {
    if blanks != [] { NonBlankOfBlanks(blanks[1..]); }
  }

  lemma {:induction false} MeaningfulIgnoresBlankTail(es: seq<Cell>, blanks: seq<Cell>)
    requires forall k :: 0 <= k < |blanks| ==> IsBlank(blanks[k].text)
    ensures Meaningful(es + blanks) == Meaningful(es)
  {
    if es == [] {
      assert es + blanks == blanks;
      MeaningfulOfBlanks(blanks);
    } else {
      assert (es + blanks)[1..] == es[1..] + blanks;
      MeaningfulIgnoresBlankTail(es[1..], blanks);
    }
  }

  lemma {:induction false} MeaningfulOfBlanks(blanks: seq<Cell>)
    requires forall k :: 0 <= k < |blanks| ==> IsBlank(blanks[k].text)
    ensures Meaningful(blanks) == []
  {
    if blanks != [] { MeaningfulOfBlanks(blanks[1..]); }
  }
}
