/**
 * The quiz selection: which records of the corpus a quiz draws from. The five toggles
 * of the configuration screen admit records by status, by having been learned in the
 * daily plan, or by having been marked; learned and marked membership take precedence
 * over the status toggles. Also the learned-kanji collection over the daily plan and
 * the `hasReading` test of a reading field.
 */
module QuizFilter {
  import opened Text
  import opened Kanji

  /** The five checkboxes `kanjiTypes`, all ticked at first. `newOnes` is the toggle the
      source calls `new`. */
  datatype KanjiTypes = KanjiTypes(existing: bool, updated: bool, newOnes: bool, learned: bool, marked: bool)

  /** One checkbox of the configuration screen. */
  datatype KanjiType = ExistingType | UpdatedType | NewType | LearnedType | MarkedType

  /** `kanji.status || "existing"`: a record without a status counts as existing. */
  function EffectiveStatus(s: Option<Status>): (e: Status)
    ensures s.Some? ==> e == s.value
    ensures s.None? ==> e == Existing
  {
    if s.Some? then s.value else Existing
  }

  /** `kanjiTypes[status]`: whether the toggle of a status is ticked. */
  function StatusEnabled(types: KanjiTypes, s: Status): bool {
    match s
    case Existing => types.existing
    case Updated => types.updated
    case New => types.newOnes
  }

  /** The filter callback of `filterKanjiData`, as the source writes it: a marked
      record passes when the marked toggle is on, then a learned record when the
      learned toggle is on; otherwise the status toggle decides, but only for a record
      that is neither learned nor marked. */
  function Passes(rec: KanjiRecord, types: KanjiTypes, learned: seq<string>, marked: seq<string>): bool {
    var isLearned := rec.kanji in learned;
    var isMarked := rec.kanji in marked;
    if types.marked && isMarked then true
    else if types.learned && isLearned then true
    else if StatusEnabled(types, EffectiveStatus(rec.status)) then !isLearned && !isMarked
    else false
  }

  /** The inclusion rule as a plain disjunction of the three ways in. */
  predicate Admitted(rec: KanjiRecord, types: KanjiTypes, learned: seq<string>, marked: seq<string>) {
    || (types.marked && rec.kanji in marked)
    || (types.learned && rec.kanji in learned)
    || (StatusEnabled(types, EffectiveStatus(rec.status)) && rec.kanji !in learned && rec.kanji !in marked)
  }

  /** The if-chain and the disjunction agree on every record. */
  lemma PassesIffAdmitted(rec: KanjiRecord, types: KanjiTypes, learned: seq<string>, marked: seq<string>)
    ensures Passes(rec, types, learned, marked) <==> Admitted(rec, types, learned, marked)
  {
  }

  /** A marked record is quizzed whenever the marked toggle is on, whatever its status
      toggle says, and likewise a learned record with the learned toggle on. */
  lemma MarkedTakesPrecedence(rec: KanjiRecord, types: KanjiTypes, learned: seq<string>, marked: seq<string>)
    requires types.marked && rec.kanji in marked
    ensures Passes(rec, types, learned, marked)
  {
  }

  lemma LearnedTakesPrecedence(rec: KanjiRecord, types: KanjiTypes, learned: seq<string>, marked: seq<string>)
    requires types.learned && rec.kanji in learned
    ensures Passes(rec, types, learned, marked)
  {
  }

  /** A learned or marked record never comes in through its status toggle alone: with
      the toggles of the groups it belongs to off, it is left out. */
  lemma StatusPathExcludesGroups(rec: KanjiRecord, types: KanjiTypes, learned: seq<string>, marked: seq<string>)
    requires rec.kanji in learned || rec.kanji in marked
    requires !(types.marked && rec.kanji in marked) && !(types.learned && rec.kanji in learned)
    ensures !Passes(rec, types, learned, marked)
  {
  }

  /** `a` is `b` with some elements left out, the rest in their order. */
  predicate IsSubsequence<T(==)>(a: seq<T>, b: seq<T>)
    decreases |a| + |b|
  {
    if a == [] then true
    else if b == [] then false
    else (a[0] == b[0] && IsSubsequence(a[1..], b[1..])) || IsSubsequence(a, b[1..])
  }

  /** `kanjiData.filter(...)`: the records of the corpus that pass, in corpus order. */
  function FilterKanjiData(corpus: seq<KanjiRecord>, types: KanjiTypes, learned: seq<string>, marked: seq<string>)
    : (r: seq<KanjiRecord>)
    ensures |r| <= |corpus|
    ensures IsSubsequence(r, corpus)
    ensures forall k :: 0 <= k < |r| ==> Admitted(r[k], types, learned, marked)
    ensures forall x :: x in r <==> x in corpus && Admitted(x, types, learned, marked)
    ensures forall x {:trigger multiset(r)[x]} ::
      multiset(r)[x] == if Admitted(x, types, learned, marked) then multiset(corpus)[x] else 0
  {
    if corpus == [] then []
    else
      var rest := FilterKanjiData(corpus[1..], types, learned, marked);
      PassesIffAdmitted(corpus[0], types, learned, marked);
      assert corpus == [corpus[0]] + corpus[1..];
      assert multiset(corpus) == multiset{corpus[0]} + multiset(corpus[1..]);
      if Passes(corpus[0], types, learned, marked) then
        assert multiset([corpus[0]] + rest) == multiset{corpus[0]} + multiset(rest);
        [corpus[0]] + rest
      else rest
  }

  /** With every toggle on, the quiz draws from the whole corpus. */
  lemma {:induction false} AllTogglesKeepEverything(corpus: seq<KanjiRecord>, learned: seq<string>, marked: seq<string>)
    ensures FilterKanjiData(corpus, KanjiTypes(true, true, true, true, true), learned, marked) == corpus
  {
    if corpus != [] {
      AllTogglesKeepEverything(corpus[1..], learned, marked);
      assert [corpus[0]] + corpus[1..] == corpus;
    }
  }

  /** A day's entry `dailyProgress["day" + day]`: the day number and how many of its
      kanji were completed (the length of the completed-index array). */
  datatype DayProgress = DayProgress(day: int, completed: nat)

  /** A day of the learning plan: the kanji it teaches, `None` when the entry has no
      `kanji` list. */
  datatype DayPlan = DayPlan(kanji: Option<seq<string>>)

  /** The kanji a progress entry contributes: all of its plan day's kanji when the day
      exists in the plan, has a kanji list, and every one of them was completed; none
      otherwise. Day `n` is the plan's entry `n - 1`. */
  function DayKanji(p: DayProgress, plan: seq<DayPlan>): (ks: seq<string>)
    ensures ks != [] ==> 1 <= p.day <= |plan| && plan[p.day - 1].kanji == Some(ks) && p.completed == |ks|
  {
    if 1 <= p.day <= |plan| && plan[p.day - 1].kanji.Some? && p.completed == |plan[p.day - 1].kanji.value|
    then plan[p.day - 1].kanji.value
    else []
  }

  /** A day counts as learned exactly when the source's test holds for it. */
  predicate DayComplete(p: DayProgress, plan: seq<DayPlan>) {
    1 <= p.day <= |plan| && plan[p.day - 1].kanji.Some? && p.completed == |plan[p.day - 1].kanji.value|
  }

  /** `ks.forEach(k => { if (!acc.includes(k)) acc.push(k) })`. */
  function AddAll(acc: seq<string>, ks: seq<string>): (r: seq<string>)
    ensures acc <= r
    ensures |r| <= |acc| + |ks|
    decreases |ks|
  {
    if ks == [] then acc
    else
      var prev := AddAll(acc, ks[..|ks| - 1]);
      var k := ks[|ks| - 1];
      if k in prev then prev else prev + [k]
  }

  /** `getLearnedKanji`: the kanji of every completed day, in the order of the progress
      entries and of each day's list, each once. */
  function Learned(progress: seq<DayProgress>, plan: seq<DayPlan>): seq<string>
    decreases |progress|
  {
    if progress == [] then []
    else AddAll(Learned(progress[..|progress| - 1], plan), DayKanji(progress[|progress| - 1], plan))
  }

  predicate NoDuplicates(xs: seq<string>) {
    forall i, j :: 0 <= i < j < |xs| ==> xs[i] != xs[j]
  }

  /** Adding keeps the list free of duplicates and holds exactly the old entries and
      the added ones. */
  lemma {:induction false} AddAllProperties(acc: seq<string>, ks: seq<string>)
    requires NoDuplicates(acc)
    ensures NoDuplicates(AddAll(acc, ks))
    ensures forall k :: k in AddAll(acc, ks) <==> k in acc || k in ks
    decreases |ks|
  {
    if ks != [] {
      var shorter := ks[..|ks| - 1];
      AddAllProperties(acc, shorter);
      assert forall k :: k in ks <==> k in shorter || k == ks[|ks| - 1] by {
        assert ks == shorter + [ks[|ks| - 1]];
      }
    }
  }

  /** The learned list never holds a kanji twice. */
  lemma {:induction false} LearnedHasNoDuplicates(progress: seq<DayProgress>, plan: seq<DayPlan>)
    ensures NoDuplicates(Learned(progress, plan))
    decreases |progress|
  {
    if progress != [] {
      LearnedHasNoDuplicates(progress[..|progress| - 1], plan);
      AddAllProperties(Learned(progress[..|progress| - 1], plan), DayKanji(progress[|progress| - 1], plan));
    }
  }

  /** Some progress entry names a completed day whose plan lists `k`. */
  predicate LearnedFrom(progress: seq<DayProgress>, plan: seq<DayPlan>, k: string) {
    exists i :: 0 <= i < |progress| && DayComplete(progress[i], plan) && k in plan[progress[i].day - 1].kanji.value
  }

  /** A kanji is learned exactly when some completed day teaches it. */
  lemma {:induction false} LearnedMembership(progress: seq<DayProgress>, plan: seq<DayPlan>, k: string)
    ensures k in Learned(progress, plan) <==> LearnedFrom(progress, plan, k)
    decreases |progress|
  {
    if progress != [] {
      var shorter := progress[..|progress| - 1];
      LearnedMembership(shorter, plan, k);
      LearnedHasNoDuplicates(shorter, plan);
      AddAllProperties(Learned(shorter, plan), DayKanji(progress[|progress| - 1], plan));
      LearnedFromSnoc(progress, plan, k);
    }
  }

  lemma LearnedFromSnoc(progress: seq<DayProgress>, plan: seq<DayPlan>, k: string)
    requires progress != []
    ensures LearnedFrom(progress, plan, k) <==>
      LearnedFrom(progress[..|progress| - 1], plan, k) || k in DayKanji(progress[|progress| - 1], plan)
  {
    var n := |progress|;
    var shorter := progress[..n - 1];
    var p := progress[n - 1];
    if LearnedFrom(shorter, plan, k) {
      var i :| 0 <= i < |shorter| && DayComplete(shorter[i], plan) && k in plan[shorter[i].day - 1].kanji.value;
      assert progress[i] == shorter[i];
    }
    if LearnedFrom(progress, plan, k) && k !in DayKanji(p, plan) {
      var i :| 0 <= i < n && DayComplete(progress[i], plan) && k in plan[progress[i].day - 1].kanji.value;
      assert i != n - 1;
      assert shorter[i] == progress[i];
    }
  }

  /** The loops of `getLearnedKanji`, over the progress entries in key order and over
      each completed day's kanji. */
  method LearnedKanji(progress: seq<DayProgress>, plan: seq<DayPlan>) returns (learnedKanji: seq<string>)
    ensures learnedKanji == Learned(progress, plan)
  {
    learnedKanji := [];
    for d := 0 to |progress|
      invariant learnedKanji == Learned(progress[..d], plan)
    {
      assert progress[..d + 1][..d] == progress[..d];
      var dayNumber := progress[d].day;
      if 1 <= dayNumber <= |plan| && plan[dayNumber - 1].kanji.Some? {
        var dayPlan := plan[dayNumber - 1].kanji.value;
        if progress[d].completed == |dayPlan| {
          ghost var start := learnedKanji;
          for j := 0 to |dayPlan|
            invariant learnedKanji == AddAll(start, dayPlan[..j])
          {
            assert dayPlan[..j + 1][..j] == dayPlan[..j];
            if dayPlan[j] !in learnedKanji {
              learnedKanji := learnedKanji + [dayPlan[j]];
            }
          }
          assert dayPlan[..|dayPlan|] == dayPlan;
        }
      }
    }
    assert progress[..|progress|] == progress;
  }

  /** `hasReading`: a missing or empty reading has none; an array has one when some
      entry is not blank; a string when it is not blank. */
  function HasReading(reading: Field): (b: bool)
    ensures b <==> (reading.Items? && NonBlank(reading.items) != []) || (reading.Text? && Trim(reading.text) != [])
  {
    match reading
    case Missing => false
    case Text(t) => t != [] && Trim(t) != []
    case Items(xs) => |xs| > 0 && SomeNonBlank(xs)
  }

  /** `reading.some((r) => r.trim() !== "")`. */
  predicate SomeNonBlank(xs: seq<string>)
    ensures SomeNonBlank(xs) <==> NonBlank(xs) != []
  {
    if xs == [] then false else Trim(xs[0]) != [] || SomeNonBlank(xs[1..])
  }
}
