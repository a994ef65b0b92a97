/**
 * The quiz session of the random-kanji screen: the configuration flag, the filtered
 * records, the current record, the navigation history, the answer buffer and the
 * marked words, and the handlers that change them.
 */
module QuizSession {
  import opened Text
  import opened Kanji
  import opened QuizFilter

  /** `displayMode`: draw at random, or walk the filtered list in order. */
  datatype DisplayMode = Random | Order

  /** `userAnswers`: the typed Han-Viet reading and one slot per kun and on reading. */
  datatype Answers = Answers(hanviet: string, kun: seq<string>, on: seq<string>)

  /** `isCorrect`. */
  datatype Correctness = Correctness(hanviet: bool, kun: bool, on: bool)

  /** `skipFields`: the answer fields the learner chose not to be quizzed on. */
  datatype SkipFields = SkipFields(hanviet: bool, kun: bool, on: bool)

  /** `romajiMode`: whether kun and on readings are typed in romaji. */
  datatype RomajiMode = RomajiMode(kun: bool, on: bool)

  datatype AnswerField = HanvietField | KunField | OnField

  datatype ReadingField = KunReading | OnReading

  const AllWrong := Correctness(false, false, false)

  /** `new Array(n).fill("")`. */
  function Blanks(n: nat): (r: seq<string>)
    ensures |r| == n
    ensures forall k :: 0 <= k < n ==> r[k] == []
  {
    seq(n, k => [])
  }

  /** `filter((r) => r.trim() !== "").length`: how many readings are asked for. */
  function ReadingCount(readings: seq<string>): (n: nat)
    ensures n <= |readings|
  {
    |NonBlank(readings)|
  }

  /** The answer buffer a selection starts with: empty Han-Viet text and one empty slot
      per non-blank kun and on reading of the record. */
  function BlankAnswers(rec: KanjiRecord): (a: Answers)
    ensures a.hanviet == []
    ensures |a.kun| == ReadingCount(rec.kun) && forall k :: 0 <= k < |a.kun| ==> a.kun[k] == []
    ensures |a.on| == ReadingCount(rec.on) && forall k :: 0 <= k < |a.on| ==> a.on[k] == []
  {
    Answers([], Blanks(ReadingCount(rec.kun)), Blanks(ReadingCount(rec.on)))
  }

  /** The buffer has one slot per asked reading of `rec`. */
  predicate Fits(a: Answers, rec: KanjiRecord) {
    |a.kun| == ReadingCount(rec.kun) && |a.on| == ReadingCount(rec.on)
  }

  /** A record is asked for a kun (on) reading exactly when `hasReading` holds for it. */
  lemma SlotsIffHasReading(rec: KanjiRecord)
    ensures |BlankAnswers(rec).kun| > 0 <==> HasReading(Items(rec.kun))
    ensures |BlankAnswers(rec).on| > 0 <==> HasReading(Items(rec.on))
  {
  }

  /** The record `selectKanji` picks: `dataArray[index % length]` in order mode, and in
      random mode the element at the drawn index, which stands for
      `Math.floor(Math.random() * length)`. */
  function Pick(data: seq<KanjiRecord>, index: nat, draw: nat, mode: DisplayMode): (r: KanjiRecord)
    requires |data| > 0
    requires mode == Random ==> draw < |data|
    ensures r in data
    ensures mode == Order ==> r == data[index % |data|]
    ensures mode == Random ==> r == data[draw]
  {
    if mode == Random then data[draw] else data[index % |data|]
  }

  /** In order mode the selection cycles through the list: stepping the index forward
      by the list's length selects the same record again, and index `i` selects entry
      `i` while it is in range. */
  lemma OrderCycles(data: seq<KanjiRecord>, index: nat, draw: nat)
    requires |data| > 0
    ensures Pick(data, index + |data|, draw, Order) == Pick(data, index, draw, Order)
    ensures index < |data| ==> Pick(data, index, draw, Order) == data[index]
  {
    var n := |data|;
    ModUnique(index + n, n, index / n + 1, index % n);
    if index < n {
      ModUnique(index, n, 0, index);
    }
  }

  /** The remainder of `q * n + r` is `r` for every `r` below `n`. */
  lemma ModUnique(x: nat, n: nat, q: nat, r: nat)
    requires n > 0 && r < n && x == q * n + r
    ensures x % n == r
  {
    var q', r' := x / n, x % n;
    assert x == q' * n + r';
    if q' < q {
      assert (q - q') * n == r' - r;
      MulAtLeast(q - q', n);
    } else if q' > q {
      assert (q' - q) * n == r - r';
      MulAtLeast(q' - q, n);
    }
  }

  lemma MulAtLeast(k: int, n: nat)
    requires k >= 1
    ensures k * n >= n
  {
    var j: nat := k - 1;
    assert k * n == j * n + n;
  }

  /** No two neighbouring history entries have the same kanji. */
  predicate NoAdjacentRepeat(h: seq<KanjiRecord>) {
    forall i :: 0 < i < |h| ==> h[i - 1].kanji != h[i].kanji
  }

  /** The history update of `selectKanji`: append unless the tail already shows that
      kanji. */
  function AppendDistinct(h: seq<KanjiRecord>, x: KanjiRecord): (r: seq<KanjiRecord>)
    ensures r == h || r == h + [x]
    ensures r == h + [x] <==> h == [] || h[|h| - 1].kanji != x.kanji
    ensures r != [] && r[|r| - 1].kanji == x.kanji
    ensures NoAdjacentRepeat(h) ==> NoAdjacentRepeat(r)
  {
    if h == [] || h[|h| - 1].kanji != x.kanji then h + [x] else h
  }

  /** `markedWords.filter((word) => word !== w)`: every occurrence of `w` removed. */
  function RemoveAll(ws: seq<string>, w: string): (r: seq<string>)
    ensures |r| <= |ws|
    ensures w !in r
    ensures forall v :: v != w ==> (v in r <==> v in ws)
  {
    if ws == [] then []
    else if ws[0] == w then RemoveAll(ws[1..], w)
    else [ws[0]] + RemoveAll(ws[1..], w)
  }

  /** Every other word stays as many times as it occurs in `ws`. */
  lemma {:induction false} RemoveAllKeepsCounts(ws: seq<string>, w: string)
    ensures forall v :: multiset(RemoveAll(ws, w))[v] == if v == w then 0 else multiset(ws)[v]
  {
    if ws != [] {
      RemoveAllKeepsCounts(ws[1..], w);
      assert ws == [ws[0]] + ws[1..];
      assert multiset(ws) == multiset{ws[0]} + multiset(ws[1..]);
      if ws[0] != w {
        assert multiset([ws[0]] + RemoveAll(ws[1..], w)) == multiset{ws[0]} + multiset(RemoveAll(ws[1..], w));
      }
    }
  }

  /** A word that does not occur is removed without changing anything. */
  lemma {:induction false} RemoveAbsent(ws: seq<string>, w: string)
    requires w !in ws
    ensures RemoveAll(ws, w) == ws
  {
    if ws != [] {
      RemoveAbsent(ws[1..], w);
      assert [ws[0]] + ws[1..] == ws;
    }
  }

  /** The effect of `handleToggleMark` on the marked words: remove every occurrence of
      a marked word, append an unmarked one. */
  function ToggleMark(ws: seq<string>, w: string): (r: seq<string>)
    ensures w in r <==> w !in ws
    ensures forall v :: v != w ==> (v in r <==> v in ws)
  {
    if w in ws then RemoveAll(ws, w) else ws + [w]
  }

  /** Marking a word and unmarking it again restores the marked list. */
  lemma MarkThenUnmark(ws: seq<string>, w: string)
    requires w !in ws
    ensures ToggleMark(ToggleMark(ws, w), w) == ws
  {
    assert w in ws + [w];
    RemoveAbsent(ws, w);
    RemoveAppended(ws, w);
  }

  lemma {:induction false} RemoveAppended(ws: seq<string>, w: string)
    ensures RemoveAll(ws + [w], w) == RemoveAll(ws, w)
  {
    if ws == [] {
      assert [w][1..] == [];
    } else {
      assert (ws + [w])[1..] == ws[1..] + [w];
      RemoveAppended(ws[1..], w);
    }
  }

  /** `handleKanjiTypeChange`: flip one checkbox. */
  function Toggled(types: KanjiTypes, t: KanjiType): (r: KanjiTypes)
    ensures TypeEnabled(r, t) == !TypeEnabled(types, t)
    ensures forall u :: u != t ==> TypeEnabled(r, u) == TypeEnabled(types, u)
  {
    match t
    case ExistingType => types.(existing := !types.existing)
    case UpdatedType => types.(updated := !types.updated)
    case NewType => types.(newOnes := !types.newOnes)
    case LearnedType => types.(learned := !types.learned)
    case MarkedType => types.(marked := !types.marked)
  }

  function TypeEnabled(types: KanjiTypes, t: KanjiType): bool {
    match t
    case ExistingType => types.existing
    case UpdatedType => types.updated
    case NewType => types.newOnes
    case LearnedType => types.learned
    case MarkedType => types.marked
  }

  /** Clicking a checkbox twice leaves the configuration as it was. */
  lemma ToggledTwice(types: KanjiTypes, t: KanjiType)
    ensures Toggled(Toggled(types, t), t) == types
  {
  }

  /** The index `getNextKanji` moves to. */
  function NextIndex(index: nat, mode: DisplayMode): (n: nat)
    ensures mode == Order ==> n == index + 1
    ensures mode == Random ==> n == index
  {
    if mode == Order then index + 1 else index
  }

  class Session {
    /** The corpus the screen was given (`kanjiData`). */
    const kanjiData: seq<KanjiRecord>
    var showConfig: bool
    var displayMode: DisplayMode
    var kanjiTypes: KanjiTypes
    var filtered: seq<KanjiRecord>
    var currentIndex: nat
    var history: seq<KanjiRecord>
    var current: Option<KanjiRecord>
    var answers: Answers
    var skipFields: SkipFields
    var romajiMode: RomajiMode
    var showResult: bool
    var isCorrect: Correctness
    var markedWords: seq<string>

    /** The history: no adjacent repeats, drawn from the filtered list, its tail showing
        the current kanji. */
    ghost predicate HistoryValid()
      reads this
    {
      && NoAdjacentRepeat(history)
      && (forall i :: 0 <= i < |history| ==> history[i] in filtered)
      && (|history| > 0 ==> current.Some? && current.value.kanji == history[|history| - 1].kanji)
    }

    /** The session invariant: besides the history, the current record comes from the
        filtered list and the answer buffer has a slot for each of its readings, and
        outside the configuration screen there is a current record. */
    ghost predicate Valid()
      reads this
    {
      && HistoryValid()
      && (current.Some? ==> current.value in filtered && Fits(answers, current.value))
      && (!showConfig ==> current.Some?)
    }

    /** The initial state; the saved preferences and marked words are what the store
        returned, `None` for a missing entry. */
    constructor (data: seq<KanjiRecord>, savedSkip: Option<SkipFields>, savedRomaji: Option<RomajiMode>,
                 savedMarked: Option<seq<string>>)
      ensures Valid()
      ensures kanjiData == data && showConfig && displayMode == Random
      ensures kanjiTypes == KanjiTypes(true, true, true, true, true)
      ensures filtered == [] && currentIndex == 0 && history == [] && current == None
      ensures answers == Answers([], [], []) && !showResult && isCorrect == AllWrong
      ensures skipFields == (if savedSkip.Some? then savedSkip.value else SkipFields(false, false, false))
      ensures romajiMode == (if savedRomaji.Some? then savedRomaji.value else RomajiMode(false, false))
      ensures markedWords == (if savedMarked.Some? then savedMarked.value else [])
    {
      kanjiData := data;
      showConfig := true;
      displayMode := Random;
      kanjiTypes := KanjiTypes(true, true, true, true, true);
      filtered := [];
      currentIndex := 0;
      history := [];
      current := None;
      answers := Answers([], [], []);
      skipFields := if savedSkip.Some? then savedSkip.value else SkipFields(false, false, false);
      romajiMode := if savedRomaji.Some? then savedRomaji.value else RomajiMode(false, false);
      showResult := false;
      isCorrect := AllWrong;
      markedWords := if savedMarked.Some? then savedMarked.value else [];
    }

    /** What `filterKanjiData` gives for the current configuration and daily progress. */
    ghost function Selection(progress: seq<DayProgress>, plan: seq<DayPlan>): seq<KanjiRecord>
      reads this
    {
      FilterKanjiData(kanjiData, kanjiTypes, Learned(progress, plan), markedWords)
    }

    /** `startQuiz`: with nothing selected nothing changes (the source only alerts);
        otherwise the quiz starts at index 0 with an empty history and its first record
        selected without touching the history. Closing the configuration screen then
        triggers `Reselect`. */
    method StartQuiz(progress: seq<DayProgress>, plan: seq<DayPlan>, draw: nat) returns (started: bool)
      requires Valid()
      requires displayMode == Random && Selection(progress, plan) != [] ==> draw < |Selection(progress, plan)|
      modifies this`filtered, this`currentIndex, this`showConfig, this`history
      modifies this`current, this`showResult, this`answers, this`isCorrect
      ensures Valid()
      ensures started <==> old(Selection(progress, plan)) != []
      ensures displayMode == old(displayMode) && kanjiTypes == old(kanjiTypes) && markedWords == old(markedWords)
      ensures skipFields == old(skipFields) && romajiMode == old(romajiMode)
      ensures !started ==> unchanged(this)
      ensures started ==>
        && filtered == old(Selection(progress, plan))
        && currentIndex == 0 && !showConfig && history == []
        && current == Some(Pick(filtered, 0, draw, displayMode))
        && answers == BlankAnswers(current.value) && !showResult && isCorrect == AllWrong
    {
      var selected := Selected(progress, plan);
      if |selected| == 0 {
        return false;
      }
      Begin(selected, draw);
      started := true;
    }

    /** The first half of `startQuiz`: the learned kanji, then the filter. */
    method Selected(progress: seq<DayProgress>, plan: seq<DayPlan>) returns (selected: seq<KanjiRecord>)
      ensures selected == Selection(progress, plan)
    {
      var learnedKanjiList := LearnedKanji(progress, plan);
      selected := FilterKanjiData(kanjiData, kanjiTypes, learnedKanjiList, markedWords);
    }

    /** The second half of `startQuiz`: install a non-empty selection, reset the index
        and the history, close the configuration screen and select the first record. */
    method Begin(selected: seq<KanjiRecord>, draw: nat)
      requires Valid()
      requires selected != []
      requires displayMode == Random ==> draw < |selected|
      modifies this`filtered, this`currentIndex, this`showConfig, this`history
      modifies this`current, this`showResult, this`answers, this`isCorrect
      ensures Valid()
      ensures filtered == selected && currentIndex == 0 && !showConfig && history == []
      ensures current == Some(Pick(selected, 0, draw, displayMode))
      ensures answers == BlankAnswers(current.value) && !showResult && isCorrect == AllWrong
    {
      filtered := selected;
      currentIndex := 0;
      showConfig := false;
      history := [];
      SelectKanji(0, false, draw);
    }

    /** `selectKanji(filteredKanjiData, index, addToHistory)`: pick a record, hide the
        result, extend the history when asked to, and reset the answer buffer and the
        correctness flags; the skip and romaji preferences are kept. With an empty list
        nothing happens. */
    method SelectKanji(index: nat, addToHistory: bool, draw: nat)
      requires HistoryValid()
      requires addToHistory || history == []
      requires filtered == [] ==> Valid()
      requires displayMode == Random && filtered != [] ==> draw < |filtered|
      modifies this`current, this`showResult, this`history, this`answers, this`isCorrect
      ensures Valid()
      ensures old(filtered) == [] ==> unchanged(this)
      ensures filtered != [] ==>
        && current == Some(Pick(filtered, index, draw, displayMode))
        && !showResult
        && history == (if addToHistory then AppendDistinct(old(history), current.value) else old(history))
        && answers == BlankAnswers(current.value)
        && isCorrect == AllWrong
    {
      if |filtered| == 0 {
        return;
      }
      var selectedKanji;
      if displayMode == Random {
        selectedKanji := filtered[draw];
      } else {
        selectedKanji := filtered[index % |filtered|];
      }
      Show(selectedKanji, addToHistory);
    }

    /** The state updates of `selectKanji` once the record is chosen. */
    method Show(selectedKanji: KanjiRecord, addToHistory: bool)
      requires HistoryValid()
      requires addToHistory || history == []
      requires selectedKanji in filtered
      modifies this`current, this`showResult, this`history, this`answers, this`isCorrect
      ensures Valid()
      ensures current == Some(selectedKanji) && !showResult
      ensures history == (if addToHistory then AppendDistinct(old(history), selectedKanji) else old(history))
      ensures answers == BlankAnswers(selectedKanji) && isCorrect == AllWrong
    {
      current := Some(selectedKanji);
      showResult := false;
      if addToHistory {
        if |history| == 0 || history[|history| - 1].kanji != selectedKanji.kanji {
          history := history + [selectedKanji];
        }
      }
      answers := Answers([], Blanks(ReadingCount(selectedKanji.kun)), Blanks(ReadingCount(selectedKanji.on)));
      isCorrect := AllWrong;
    }

    /** `getNextKanji`: in order mode step to the next index, in random mode stay, and
        select with the history extended. */
    method GetNextKanji(draw: nat)
      requires Valid()
      requires displayMode == Random && filtered != [] ==> draw < |filtered|
      modifies this`currentIndex, this`current, this`showResult, this`history, this`answers, this`isCorrect
      ensures Valid()
      ensures old(filtered) == [] ==> unchanged(this)
      ensures filtered != [] ==>
        && currentIndex == NextIndex(old(currentIndex), displayMode)
        && current == Some(Pick(filtered, currentIndex, draw, displayMode))
        && history == AppendDistinct(old(history), current.value)
        && answers == BlankAnswers(current.value) && !showResult && isCorrect == AllWrong
    {
      if |filtered| > 0 {
        var nextIndex := if displayMode == Order then currentIndex + 1 else currentIndex;
        currentIndex := nextIndex;
        SelectKanji(nextIndex, true, draw);
      }
    }

    /** The effect that re-selects whenever the corpus or the configuration flag changes.
        It fires once after a successful `StartQuiz` closes the configuration screen and
        then selects again as `Pick` does, this time adding the record to the history:
        `currentIndex % length` in order mode, a fresh draw in random mode. Opening the configuration screen
        fires it too, and then it does nothing. */
    method Reselect(draw: nat)
      requires Valid()
      requires displayMode == Random && filtered != [] ==> draw < |filtered|
      modifies this`current, this`showResult, this`history, this`answers, this`isCorrect
      ensures Valid()
      ensures !(|kanjiData| > 0 && !showConfig && filtered != []) ==> unchanged(this)
      ensures |kanjiData| > 0 && !showConfig && filtered != [] ==>
        && current == Some(Pick(filtered, currentIndex, draw, displayMode))
        && history == AppendDistinct(old(history), current.value)
        && answers == BlankAnswers(current.value) && !showResult && isCorrect == AllWrong
    {
      if |kanjiData| > 0 && !showConfig && |filtered| > 0 {
        SelectKanji(currentIndex, true, draw);
      }
    }

    /** Whether the quiz offers a "previous" button (`onPrevious` is `null` otherwise). */
    function PreviousOffered(): (b: bool)
      reads this
      ensures b <==> |history| > 1
    {
      |history| > 1
    }

    /** `handlePrevious`: drop the current entry from the history and show the one
        before it with a fresh answer buffer; with at most one entry, do nothing. */
    method HandlePrevious()
      requires Valid()
      modifies this`history, this`current, this`showResult, this`answers, this`isCorrect
      ensures Valid()
      ensures !old(PreviousOffered()) ==> unchanged(this)
      ensures old(PreviousOffered()) ==>
        && history == old(history)[..|old(history)| - 1]
        && current == Some(history[|history| - 1])
        && answers == BlankAnswers(current.value) && !showResult && isCorrect == AllWrong
    {
      if |history| > 1 {
        var newHistory := history[..|history| - 1];
        var previousKanji := newHistory[|newHistory| - 1];
        history := newHistory;
        current := Some(previousKanji);
        showResult := false;
        answers := Answers([], Blanks(ReadingCount(previousKanji.kun)), Blanks(ReadingCount(previousKanji.on)));
        isCorrect := AllWrong;
      }
    }

    /** `isCurrentKanjiMarked`. */
    function IsCurrentKanjiMarked(): (b: bool)
      reads this
      ensures b <==> current.Some? && current.value.kanji in markedWords
    {
      if current.Some? then current.value.kanji in markedWords else false
    }

    /** `handleToggleMark`: without a current record nothing changes; otherwise the
        current kanji's mark flips. History and answers are untouched. */
    method HandleToggleMark()
      modifies this`markedWords
      ensures old(current).None? ==> markedWords == old(markedWords)
      ensures old(current).Some? ==> markedWords == ToggleMark(old(markedWords), current.value.kanji)
      ensures IsCurrentKanjiMarked() == (current.Some? && !old(IsCurrentKanjiMarked()))
    {
      if current.None? {
        return;
      }
      var isCurrentlyMarked := current.value.kanji in markedWords;
      if isCurrentlyMarked {
        markedWords := RemoveAll(markedWords, current.value.kanji);
      } else {
        markedWords := markedWords + [current.value.kanji];
      }
    }

    /** `handleInputChange(field, value, index)`: set the Han-Viet text, or one slot of
        the kun or on answers. The slot must exist: the quiz only edits slots that the
        selection created. */
    method HandleInputChange(field: AnswerField, value: string, index: nat)
      requires Valid()
      requires field == KunField ==> index < |answers.kun|
      requires field == OnField ==> index < |answers.on|
      modifies this`answers
      ensures Valid()
      ensures field == HanvietField ==> answers == old(answers).(hanviet := value)
      ensures field == KunField ==> answers == old(answers).(kun := old(answers).kun[index := value])
      ensures field == OnField ==> answers == old(answers).(on := old(answers).on[index := value])
    {
      match field
      case HanvietField => answers := answers.(hanviet := value);
      case KunField => answers := answers.(kun := answers.kun[index := value]);
      case OnField => answers := answers.(on := answers.on[index := value]);
    }

    /** `handleSkipFieldChange`. */
    method HandleSkipFieldChange(field: AnswerField, isSkipped: bool)
      modifies this`skipFields
      ensures field == HanvietField ==> skipFields == old(skipFields).(hanviet := isSkipped)
      ensures field == KunField ==> skipFields == old(skipFields).(kun := isSkipped)
      ensures field == OnField ==> skipFields == old(skipFields).(on := isSkipped)
    {
      match field
      case HanvietField => skipFields := skipFields.(hanviet := isSkipped);
      case KunField => skipFields := skipFields.(kun := isSkipped);
      case OnField => skipFields := skipFields.(on := isSkipped);
    }

    /** `handleRomajiModeChange`. */
    method HandleRomajiModeChange(field: ReadingField, isRomaji: bool)
      modifies this`romajiMode
      ensures field == KunReading ==> romajiMode == old(romajiMode).(kun := isRomaji)
      ensures field == OnReading ==> romajiMode == old(romajiMode).(on := isRomaji)
    {
      match field
      case KunReading => romajiMode := romajiMode.(kun := isRomaji);
      case OnReading => romajiMode := romajiMode.(on := isRomaji);
    }

    /** `handleAnswerResult`: record the checked answers and show the result. */
    method HandleAnswerResult(results: Correctness)
      modifies this`isCorrect, this`showResult
      ensures isCorrect == results && showResult
    {
      isCorrect := results;
      showResult := true;
    }

    /** `handleKanjiTypeChange`. */
    method HandleKanjiTypeChange(t: KanjiType)
      modifies this`kanjiTypes
      ensures kanjiTypes == Toggled(old(kanjiTypes), t)
    {
      kanjiTypes := Toggled(kanjiTypes, t);
    }

    /** The display-mode radio buttons. */
    method SetDisplayMode(mode: DisplayMode)
      modifies this`displayMode
      ensures displayMode == mode
    {
      displayMode := mode;
    }

    /** The configuration button of the quiz screen. */
    method OpenConfig()
      requires Valid()
      modifies this`showConfig
      ensures Valid() && showConfig
    {
      showConfig := true;
    }
  }
}
