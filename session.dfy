/**
 The practice session of the quiz (the object returned by `app()` in
 js/app.js): loading and normalising questions, the search and status filter,
 the per-question select/reveal rules, the session counters, and the small
 classifiers the page uses to render a question.
 */
module Session {
  import opened JsValues
  import opened Progress
  import opened Questions
  import opened Text

  /** The status filter of the page: `'all'` or one status. */
  datatype StatusFilter = All | Only(status: Status)

  // ---------------------------------------------------------------------------
  // Order-preserving subsequences

  /** `xs` is `ys` with some elements left out and the order kept. */
  predicate Subseq<T(==)>(xs: seq<T>, ys: seq<T>)
    decreases |ys|
  {
    if ys == [] then xs == []
    else (xs != [] && xs[0] == ys[0] && Subseq(xs[1..], ys[1..])) || Subseq(xs, ys[1..])
  }

  /** Every element of a subsequence is an element of the whole. */
  lemma {:induction false} SubseqIn<T>(xs: seq<T>, ys: seq<T>)
    requires Subseq(xs, ys)
    ensures forall x :: x in xs ==> x in ys
    decreases |ys|
  {
    if ys != [] {
      if xs != [] && xs[0] == ys[0] && Subseq(xs[1..], ys[1..]) {
        SubseqIn(xs[1..], ys[1..]);
        assert xs == [xs[0]] + xs[1..];
      } else {
        SubseqIn(xs, ys[1..]);
      }
    }
  }

  // ---------------------------------------------------------------------------
  // applySearch and updateProgressStats

  /**
   Whether `applySearch` keeps `q` for the trimmed term `term`: it must match
   the term (any question does when the term is empty) and have the chosen
   status (any, for `All`). The text pass and the status pass of the source
   are two filters in a row, so a question survives both exactly when it
   passes each.
   */
  predicate Keep(q: Question, term: string, filter: StatusFilter, matches: (Question, string) -> bool) {
    (term == "" || matches(q, term)) && (filter.All? || q.status == filter.status)
  }

  /**
   What `applySearch` leaves in `filteredQuestions` for the trimmed search
   term `term`: the questions it keeps, in their original order.
   */
  function Filtered(qs: seq<Question>, term: string, filter: StatusFilter,
                    matches: (Question, string) -> bool): (r: seq<Question>)
    ensures |r| <= |qs|
  {
    if qs == [] then []
    else (if Keep(qs[0], term, filter, matches) then [qs[0]] else []) + Filtered(qs[1..], term, filter, matches)
  }

  /** A question is shown exactly when it is in the list and kept. */
  lemma {:induction false} FilteredMembers(qs: seq<Question>, term: string, filter: StatusFilter,
                                           matches: (Question, string) -> bool)
    ensures forall i :: 0 <= i < |Filtered(qs, term, filter, matches)| ==>
      Filtered(qs, term, filter, matches)[i] in qs && Keep(Filtered(qs, term, filter, matches)[i], term, filter, matches)
    ensures forall i :: 0 <= i < |qs| && Keep(qs[i], term, filter, matches) ==> qs[i] in Filtered(qs, term, filter, matches)
  {
    if qs != [] {
      FilteredMembers(qs[1..], term, filter, matches);
      var r := Filtered(qs, term, filter, matches);
      var rest := Filtered(qs[1..], term, filter, matches);
      assert forall i :: 1 <= i < |qs| ==> qs[i] == qs[1..][i - 1];
      if Keep(qs[0], term, filter, matches) {
        assert r == [qs[0]] + rest;
        assert forall i :: 1 <= i < |r| ==> r[i] == rest[i - 1];
      } else {
        assert r == rest;
      }
    }
  }

  /** Filtering keeps the order of the full list. */
  lemma {:induction false} FilteredIsSubseq(qs: seq<Question>, term: string, filter: StatusFilter,
                                           matches: (Question, string) -> bool)
    ensures Subseq(Filtered(qs, term, filter, matches), qs)
  {
    if qs != [] {
      FilteredIsSubseq(qs[1..], term, filter, matches);
      var rest := Filtered(qs[1..], term, filter, matches);
      if Keep(qs[0], term, filter, matches) {
        assert ([qs[0]] + rest)[1..] == rest;
      } else {
        assert Filtered(qs, term, filter, matches) == rest;
      }
    }
  }

  /** An empty search with the `all` filter shows every question. */
  lemma {:induction false} FilteredEverything(qs: seq<Question>, matches: (Question, string) -> bool)
    ensures Filtered(qs, "", All, matches) == qs
  {
    if qs != [] {
      FilteredEverything(qs[1..], matches);
      assert qs == [qs[0]] + qs[1..];
    }
  }

  /** The text pass followed by the status pass keeps what one combined pass keeps. */
  lemma {:induction false} FilteredInTwoPasses(qs: seq<Question>, term: string, filter: StatusFilter,
                                              matches: (Question, string) -> bool)
    ensures Filtered(Filtered(qs, term, All, matches), "", filter, matches) == Filtered(qs, term, filter, matches)
  {
    if qs != [] {
      FilteredInTwoPasses(qs[1..], term, filter, matches);
      var byText := Filtered(qs, term, All, matches);
      var rest := Filtered(qs[1..], term, All, matches);
      if Keep(qs[0], term, All, matches) {
        assert byText == [qs[0]] + rest;
        assert byText[1..] == rest;
      } else {
        assert byText == rest;
      }
    }
  }

  /**
   The two passes of `applySearch` as the source writes them: a text pass
   when the trimmed term is not empty, then a status pass unless the filter
   is `all`. They keep exactly what the combined filter keeps, in the list's
   order.
   */
  function SearchPasses(qs: seq<Question>, term: string, filter: StatusFilter,
                        matches: (Question, string) -> bool): (r: seq<Question>)
    ensures r == Filtered(qs, term, filter, matches)
    ensures Subseq(r, qs)
  {
    FilteredEverything(qs, matches);
    FilteredInTwoPasses(qs, term, filter, matches);
    FilteredIsSubseq(qs, term, filter, matches);
    var byText := if term != "" then Filtered(qs, term, All, matches) else qs;
    FilteredEverything(byText, matches);
    if filter != All then Filtered(byText, "", filter, matches) else byText
  }

  /** The positions of `qs` holding a truthy question number. */
  function NumberedAt(qs: seq<Question>): set<nat> {
    set j: nat | j < |qs| && TruthyNumber(qs[j].questionNumber)
  }

  /**
   `map(q => q.question_number).filter(Boolean)`: the truthy question numbers,
   in order, one per question that has one.
   */
  function Numbers(qs: seq<Question>): (ns: seq<int>)
    ensures |ns| == |NumberedAt(qs)|
    ensures |ns| <= |qs|
    ensures forall i :: 0 <= i < |ns| ==> ns[i] != 0
    ensures forall i :: 0 <= i < |ns| ==> exists j :: 0 <= j < |qs| && qs[j].questionNumber == Some(ns[i])
    ensures forall i :: 0 <= i < |qs| && TruthyNumber(qs[i].questionNumber) ==> qs[i].questionNumber.value in ns
  {
    if qs == [] then
      assert NumberedAt(qs) == {};
      []
    else
      var init, last := qs[..|qs| - 1], qs[|qs| - 1];
      NumberedAtInit(qs);
      var rest := Numbers(init);
      assert forall j :: 0 <= j < |init| ==> init[j] == qs[j];
      rest + (if TruthyNumber(last.questionNumber) then [last.questionNumber.value] else [])
  }

  /** The numbered positions of a list are those of its initial part, plus the last one when numbered. */
  lemma NumberedAtInit(qs: seq<Question>)
    requires qs != []
    ensures |NumberedAt(qs)| == |NumberedAt(qs[..|qs| - 1])|
                                + (if TruthyNumber(qs[|qs| - 1].questionNumber) then 1 else 0)
  {
    var init := qs[..|qs| - 1];
    assert forall j :: 0 <= j < |init| ==> init[j] == qs[j];
    assert NumberedAt(qs) == NumberedAt(init) + (if TruthyNumber(qs[|qs| - 1].questionNumber) then {|qs| - 1} else {});
    assert |qs| - 1 !in NumberedAt(init);
  }

  // ---------------------------------------------------------------------------
  // recalcStats

  /** Questions with a truthy selection. */
  function CountAnswered(qs: seq<Question>): (n: nat)
    reads qs
    ensures n <= |qs|
  {
    if qs == [] then 0
    else (if qs[0].selected.Truthy() then 1 else 0) + CountAnswered(qs[1..])
  }

  /** Questions whose answer has been revealed. */
  function CountRevealed(qs: seq<Question>): (n: nat)
    reads qs
    ensures n <= |qs|
  {
    if qs == [] then 0
    else (if qs[0].revealed then 1 else 0) + CountRevealed(qs[1..])
  }

  /** Revealed questions whose selection equals the correct letter (strict equality). */
  function CountCorrect(qs: seq<Question>): (n: nat)
    reads qs
    ensures n <= |qs|
  {
    if qs == [] then 0
    else (if qs[0].revealed && qs[0].selected == qs[0].correctAnswer then 1 else 0) + CountCorrect(qs[1..])
  }

  /** Only revealed questions are counted correct. */
  lemma {:induction false} CorrectWithinRevealed(qs: seq<Question>)
    ensures CountCorrect(qs) <= CountRevealed(qs)
  {
    if qs != [] {
      CorrectWithinRevealed(qs[1..]);
    }
  }

  /**
   A question revealed with nothing selected counts as correct exactly when
   its correct letter is an explicit `null` (strict equality keeps `null` and
   `undefined` apart), and its feedback line names the correct letter.
   */
  lemma RevealedWithoutSelection(q: Question)
    requires q.revealed && q.selected == Null
    ensures CountCorrect([q]) == (if q.correctAnswer == Null then 1 else 0)
    ensures CountRevealed([q]) == 1 && CountAnswered([q]) == 0
    ensures FeedbackText(q) == "Correct answer: " + q.correctAnswer.Render()
  {
    assert [q][1..] == [];
  }

  /** Each counter is zero exactly when no shown question has what it counts. */
  lemma {:induction false} CountsZero(qs: seq<Question>)
    ensures CountAnswered(qs) == 0 <==> forall i :: 0 <= i < |qs| ==> !qs[i].selected.Truthy()
    ensures CountRevealed(qs) == 0 <==> forall i :: 0 <= i < |qs| ==> !qs[i].revealed
    ensures CountCorrect(qs) == 0 <==>
      forall i :: 0 <= i < |qs| ==> !(qs[i].revealed && qs[i].selected == qs[i].correctAnswer)
  {
    if qs != [] {
      CountsZero(qs[1..]);
      assert forall i :: 1 <= i < |qs| ==> qs[i] == qs[1..][i - 1];
    }
  }

  /** Every question of a reordering of the normalised list comes from one of the records. */
  lemma ShuffledNormalized(normalized: seq<Question>, shuffled: seq<Question>, raws: seq<RawQuestion>)
    requires |normalized| == |raws|
    requires forall i :: 0 <= i < |raws| ==> NormalizedFrom(normalized[i], raws[i])
    requires multiset(shuffled) == multiset(normalized)
    ensures forall q :: q in shuffled ==> exists i :: 0 <= i < |raws| && NormalizedFrom(q, raws[i])
  {
    forall q | q in shuffled
      ensures exists i :: 0 <= i < |raws| && NormalizedFrom(q, raws[i])
    {
      assert q in multiset(normalized);
      var i :| 0 <= i < |normalized| && normalized[i] == q;
    }
  }

  /** Before any answer is chosen or revealed, a shown part of the list counts nothing. */
  lemma NothingCountedYet(shown: seq<Question>, qs: seq<Question>)
    requires Subseq(shown, qs)
    requires forall q :: q in qs ==> q.selected == Null && !q.revealed
    ensures CountAnswered(shown) == 0 && CountRevealed(shown) == 0 && CountCorrect(shown) == 0
  {
    SubseqIn(shown, qs);
    CountsZero(shown);
  }

  // ---------------------------------------------------------------------------
  // Rendering classifiers

  const CorrectFeedback := "Correct \U{2714}\U{FE0F}"

  /** The feedback line under a question: empty until the answer is revealed. */
  function FeedbackText(q: Question): (r: string)
    reads q
    ensures !q.revealed ==> r == ""
    ensures q.revealed ==> r != ""
    ensures r == CorrectFeedback <==> q.revealed && q.selected.Truthy() && q.selected == q.correctAnswer
    ensures q.revealed && r != CorrectFeedback ==>
      exists prefix :: r == prefix + q.correctAnswer.Render() || r == prefix + q.correctAnswer.Render() + ")"
  {
    if !q.revealed then ""
    else if !q.selected.Truthy() then "Correct answer: " + q.correctAnswer.Render()
    else if q.selected == q.correctAnswer then CorrectFeedback
    else "Incorrect \U{2716}\U{FE0F} (Answer: " + q.correctAnswer.Render() + ")"
  }

  /** The CSS classes of one answer button. */
  function AnswerClasses(q: Question, a: Answer): (r: string)
    reads q
    ensures r in {"answer", "answer selected", "answer correct", "answer incorrect"}
    ensures r == "answer correct" <==> q.revealed && a.letter == q.correctAnswer
    ensures r == "answer incorrect" <==>
      q.revealed && q.selected == a.letter && a.letter != q.correctAnswer
    ensures r == "answer selected" <==> !q.revealed && q.selected == a.letter
  {
    if q.revealed then
      if a.letter == q.correctAnswer then "answer correct"
      else if q.selected == a.letter && a.letter != q.correctAnswer then "answer incorrect"
      else "answer"
    else if q.selected == a.letter then "answer selected"
    else "answer"
  }

  const MasteredBadge := "\U{2B50}"
  const CorrectBadge := "\U{2713}"
  const WrongBadge := "\U{2717}"

  /** The badge next to a question: mastered, answered right at least once, only wrong, or none. */
  function GetProgressBadge(q: Question): (r: string)
    reads q
    ensures q.progress.None? ==> r == ""
    ensures r == MasteredBadge <==> q.progress.Some? && q.status == Mastered
    ensures r == CorrectBadge ==> q.progress.Some? && q.progress.value.correct > 0
    ensures r == WrongBadge ==> q.progress.Some? && q.progress.value.correct == 0 && q.progress.value.incorrect > 0
    ensures q.progress.Some? && Consistent(q.progress.value) ==> r != ""
    ensures r in {"", MasteredBadge, CorrectBadge, WrongBadge}
    ensures q.progress.Some? && q.status != Mastered && q.progress.value.correct > 0 ==> r == CorrectBadge
    ensures (q.progress.Some? && q.status != Mastered && q.progress.value.correct == 0
             && q.progress.value.incorrect > 0) ==> r == WrongBadge
  {
    match q.progress
    case None => ""
    case Some(p) =>
      if q.status == Mastered then MasteredBadge
      else if p.correct > 0 then CorrectBadge
      else if p.incorrect > 0 then WrongBadge
      else ""
  }

  /** `q` is what normalising `raw` gives, up to the order of the answers. */
  ghost predicate NormalizedFrom(q: Question, raw: RawQuestion) {
    && q.questionNumber == raw.questionNumber
    && q.questionGerman == raw.questionGerman.OrEmpty()
    && q.questionEnglish == raw.questionEnglish.OrEmpty()
    && q.questionArabic == raw.questionArabic.OrEmpty()
    && multiset(q.answers) == multiset(NormalizeAnswers(AnswersOf(raw)))
    && q.correctAnswer == CorrectLetter(raw)
    && q.imagePath == (if raw.imagePath.Truthy() then raw.imagePath else Null)
  }

  // ---------------------------------------------------------------------------
  // The application state

  class App {
    /** The progress store shared by every question. */
    const tracker: ProgressTracker
    /** Case-insensitive match of a question's texts against a trimmed search term. */
    const matches: (Question, string) -> bool
    var questions: seq<Question>
    var filteredQuestions: seq<Question>
    var search: string
    var statusFilter: StatusFilter
    var translationLang: string
    var answeredCount: nat
    var revealedCount: nat
    var correctCount: nat
    var progressStats: Stats

    /** The filtered list is always the full list with some questions left out. */
    ghost predicate Valid()
      reads this
    {
      Subseq(filteredQuestions, questions)
    }

    /** A fresh page; `storedLang` is the saved translation preference, if any. */
    constructor (tracker: ProgressTracker, matches: (Question, string) -> bool, storedLang: JsString)
      ensures this.tracker == tracker && this.matches == matches
      ensures translationLang == if storedLang.Truthy() then storedLang.s else "english"
      ensures questions == [] && filteredQuestions == [] && search == "" && statusFilter == All
      ensures answeredCount == 0 && revealedCount == 0 && correctCount == 0
      ensures progressStats == ZeroStats
      ensures Valid()
    {
      this.tracker := tracker;
      this.matches := matches;
      translationLang := if storedLang.Truthy() then storedLang.s else "english";
      questions := [];
      filteredQuestions := [];
      search := "";
      statusFilter := All;
      answeredCount, revealedCount, correctCount := 0, 0, 0;
      progressStats := ZeroStats;
    }

    /** A question object built from a raw record, with its answers shuffled and its progress attached. */
    method NormalizeQuestion(raw: RawQuestion) returns (q: Question)
      ensures fresh(q)
      ensures NormalizedFrom(q, raw)
      ensures |q.answers| == |AnswersOf(raw)|
      ensures q.selected == Null && !q.revealed && !q.showAll
      ensures TruthyNumber(raw.questionNumber) ==>
        && q.progress == tracker.GetQuestionProgress(raw.questionNumber.value)
        && q.status == tracker.GetQuestionStatus(raw.questionNumber.value)
      ensures !TruthyNumber(raw.questionNumber) ==> q.progress == None && q.status == New
    {
      var answers := AnswersOf(raw);
      var correct := raw.correctAnswer;
      if !correct.Truthy() {
        var found := FirstCorrect(answers);
        if found.Some? {
          correct := answers[found.value].letter;
        }
      }
      var normalizedAnswers := NormalizeAnswers(answers);
      var shuffled := Shuffle(normalizedAnswers);
      var progress, status := None, New;
      if TruthyNumber(raw.questionNumber) {
        progress := tracker.GetQuestionProgress(raw.questionNumber.value);
        status := tracker.GetQuestionStatus(raw.questionNumber.value);
      }
      q := new Question(raw.questionNumber, raw.questionGerman.OrEmpty(), raw.questionEnglish.OrEmpty(),
                        raw.questionArabic.OrEmpty(), shuffled, correct,
                        if raw.imagePath.Truthy() then raw.imagePath else Null, progress, status);
    }

    /** `data.map(q => this.normalizeQuestion(q))`: one fresh question per record, in order. */
    method NormalizeAll(raws: seq<RawQuestion>) returns (qs: seq<Question>)
      ensures |qs| == |raws|
      ensures forall i :: 0 <= i < |raws| ==> NormalizedFrom(qs[i], raws[i])
      ensures forall i :: 0 <= i < |raws| ==> fresh(qs[i]) && qs[i].selected == Null && !qs[i].revealed
    {
      qs := [];
      var i := 0;
      while i < |raws|
        invariant 0 <= i <= |raws| && |qs| == i
        invariant forall k :: 0 <= k < i ==> NormalizedFrom(qs[k], raws[k])
        invariant forall k :: 0 <= k < i ==> fresh(qs[k]) && qs[k].selected == Null && !qs[k].revealed
      {
        var q := NormalizeQuestion(raws[i]);
        qs := qs + [q];
        i := i + 1;
      }
    }

    /**
     What loading a category leaves behind: the records normalised and
     shuffled, the search and filter applied, and the counters recomputed.
     */
    method LoadQuestions(raws: seq<RawQuestion>)
      modifies this`questions, this`filteredQuestions, this`progressStats
      modifies this`answeredCount, this`revealedCount, this`correctCount
      ensures |questions| == |raws|
      ensures forall q :: q in questions ==> fresh(q) && q.selected == Null && !q.revealed
      ensures forall q :: q in questions ==> exists i :: 0 <= i < |raws| && NormalizedFrom(q, raws[i])
      ensures exists qs: seq<Question> ::
        && |qs| == |raws| && multiset(questions) == multiset(qs)
        && forall i :: 0 <= i < |raws| ==> NormalizedFrom(qs[i], raws[i])
      ensures filteredQuestions == Filtered(questions, Trim(search), statusFilter, matches)
      ensures Valid()
      ensures answeredCount == 0 && revealedCount == 0 && correctCount == 0
      ensures progressStats == WithAccuracy(Tally(tracker.data, Numbers(filteredQuestions)))
    {
      var normalized := NormalizeAll(raws);
      var shuffled := Shuffle(normalized);
      forall q | q in shuffled
        ensures fresh(q) && q.selected == Null && !q.revealed
      {
        assert q in multiset(normalized);
      }
      ShuffledNormalized(normalized, shuffled, raws);
      questions := shuffled;
      assert |normalized| == |raws| && multiset(questions) == multiset(normalized);
      Refresh();
      NothingCountedYet(filteredQuestions, questions);
    }

    /** The `finally` block of loading: filter, then recount. */
    method Refresh()
      modifies this`filteredQuestions, this`progressStats
      modifies this`answeredCount, this`revealedCount, this`correctCount
      ensures filteredQuestions == Filtered(questions, Trim(search), statusFilter, matches)
      ensures Valid()
      ensures progressStats == WithAccuracy(Tally(tracker.data, Numbers(filteredQuestions)))
      ensures answeredCount == CountAnswered(filteredQuestions)
      ensures revealedCount == CountRevealed(filteredQuestions)
      ensures correctCount == CountCorrect(filteredQuestions)
    {
      ApplySearch();
      RecalcStats();
    }

    /** `applySearch`: refilters the questions by the trimmed search term, then refreshes the progress statistics. */
    method ApplySearch()
      modifies this`filteredQuestions, this`progressStats
      ensures filteredQuestions == Filtered(questions, Trim(search), statusFilter, matches)
      ensures Valid()
      ensures progressStats == WithAccuracy(Tally(tracker.data, Numbers(filteredQuestions)))
    {
      var term := Trim(search);
      filteredQuestions := SearchPasses(questions, term, statusFilter, matches);
      UpdateProgressStats();
    }

    /** Progress statistics over the numbered questions currently shown. */
    method UpdateProgressStats()
      modifies this`progressStats
      ensures progressStats == WithAccuracy(Tally(tracker.data, Numbers(filteredQuestions)))
    {
      progressStats := tracker.GetStatsForQuestions(Numbers(filteredQuestions));
    }

    /** Chooses answer `a` for `q`, unless `q` has already been revealed. */
    method SelectAnswer(q: Question, a: Answer)
      modifies q`selected, this`answeredCount, this`revealedCount, this`correctCount
      ensures old(q.revealed) ==> unchanged(q) && unchanged(this)
      ensures !old(q.revealed) ==> q.selected == a.letter
      ensures !old(q.revealed) ==>
        && answeredCount == CountAnswered(filteredQuestions)
        && revealedCount == CountRevealed(filteredQuestions)
        && correctCount == CountCorrect(filteredQuestions)
    {
      if q.revealed {
        return;
      }
      q.selected := a.letter;
      RecalcStats();
    }

    /**
     Whether an answer's translation is shown: it must exist in a language the
     reader asked for, and the answer must be the chosen one or all be shown.
     */
    function ShowAnswerTranslation(q: Question, a: Answer): (r: bool)
      reads this, q
      ensures r ==> q.selected == a.letter || q.showAll
      ensures r ==>
        || (a.textEnglish != "" && translationLang in {"english", "both"})
        || (a.textArabic != "" && translationLang in {"arabic", "both"})
      ensures ((q.selected == a.letter || q.showAll) && translationLang == "both"
               && (a.textEnglish != "" || a.textArabic != "")) ==> r
      ensures translationLang !in {"english", "arabic", "both"} ==> !r
      ensures ((q.selected == a.letter || q.showAll) && translationLang == "english" && a.textEnglish != "") ==> r
      ensures ((q.selected == a.letter || q.showAll) && translationLang == "arabic" && a.textArabic != "") ==> r
    {
      var hasEnglish := a.textEnglish != "" && (translationLang == "english" || translationLang == "both");
      var hasArabic := a.textArabic != "" && (translationLang == "arabic" || translationLang == "both");
      if !hasEnglish && !hasArabic then false
      else q.selected == a.letter || q.showAll
    }

    /**
     Reveals `q`'s answer once. The first reveal of a question with a chosen
     answer and a number records one attempt, correct exactly when the choice
     equals the correct letter; later reveals change nothing.
     */
    method Reveal(q: Question, now: Timestamp)
      modifies q`revealed, q`progress, tracker
      modifies this`answeredCount, this`revealedCount, this`correctCount, this`progressStats
      ensures old(q.revealed) ==> unchanged(q) && unchanged(this) && unchanged(tracker)
      ensures q.revealed && q.selected == old(q.selected)
      ensures !old(q.revealed) && q.selected.Truthy() && TruthyNumber(q.questionNumber) ==>
        var n := q.questionNumber.value;
        && n in tracker.data
        && tracker.data == old(tracker.data)[n := tracker.data[n]]
        && tracker.data[n] == Step(Prior(old(tracker.GetQuestionProgress(n)), now), q.selected == q.correctAnswer, now)
        && q.progress == Some(tracker.data[n])
      ensures !old(q.revealed) && !(q.selected.Truthy() && TruthyNumber(q.questionNumber)) ==>
        tracker.data == old(tracker.data) && q.progress == old(q.progress)
      ensures !old(q.revealed) ==>
        && answeredCount == CountAnswered(filteredQuestions)
        && revealedCount == CountRevealed(filteredQuestions)
        && correctCount == CountCorrect(filteredQuestions)
        && progressStats == WithAccuracy(Tally(tracker.data, Numbers(filteredQuestions)))
      ensures old(tracker.Valid()) ==> tracker.Valid()
    {
      if q.revealed {
        return;
      }
      q.revealed := true;
      RecordRevealed(q, now);
      RecalcStats();
      UpdateProgressStats();
    }

    /**
     The progress part of a first reveal: with a chosen answer and a question
     number, one attempt is recorded and its record copied into the question.
     */
    method RecordRevealed(q: Question, now: Timestamp)
      modifies q`progress, tracker
      ensures q.selected.Truthy() && TruthyNumber(q.questionNumber) ==>
        var n := q.questionNumber.value;
        && n in tracker.data
        && tracker.data == old(tracker.data)[n := tracker.data[n]]
        && tracker.data[n] == Step(Prior(old(tracker.GetQuestionProgress(n)), now), q.selected == q.correctAnswer, now)
        && q.progress == Some(tracker.data[n])
      ensures !(q.selected.Truthy() && TruthyNumber(q.questionNumber)) ==>
        tracker.data == old(tracker.data) && q.progress == old(q.progress)
      ensures old(tracker.Valid()) ==> tracker.Valid()
    {
      if q.selected.Truthy() && TruthyNumber(q.questionNumber) {
        var isCorrect := q.selected == q.correctAnswer;
        var _ := tracker.RecordAttempt(q.questionNumber.value, isCorrect, now);
        q.progress := tracker.GetQuestionProgress(q.questionNumber.value);
      }
    }

    /** Recounts the session counters over the shown questions. */
    method RecalcStats()
      modifies this`answeredCount, this`revealedCount, this`correctCount
      ensures answeredCount == CountAnswered(filteredQuestions)
      ensures revealedCount == CountRevealed(filteredQuestions)
      ensures correctCount == CountCorrect(filteredQuestions)
      ensures correctCount <= revealedCount <= |filteredQuestions| && answeredCount <= |filteredQuestions|
    {
      var shown := filteredQuestions;
      CorrectWithinRevealed(shown);
      answeredCount, revealedCount, correctCount := CountAnswered(shown), CountRevealed(shown), CountCorrect(shown);
    }

    /** Clears every question's selection and reveal, then recounts. */
    method ResetSession()
      modifies questions, this`answeredCount, this`revealedCount, this`correctCount
      ensures forall q :: q in questions ==> q.selected == Null && !q.revealed
      ensures forall q :: q in questions ==>
        q.showAll == old(q.showAll) && q.progress == old(q.progress)
      ensures answeredCount == CountAnswered(filteredQuestions)
      ensures revealedCount == CountRevealed(filteredQuestions)
      ensures correctCount == CountCorrect(filteredQuestions)
      ensures Valid() ==> answeredCount == 0 && revealedCount == 0 && correctCount == 0
    {
      var i := 0;
      while i < |questions|
        invariant 0 <= i <= |questions|
        invariant forall k :: 0 <= k < i ==> questions[k].selected == Null && !questions[k].revealed
        invariant forall q :: q in questions ==>
          q.showAll == old(q.showAll) && q.progress == old(q.progress)
      {
        var q := questions[i];
        q.selected := Null;
        q.revealed := false;
        i := i + 1;
      }
      RecalcStats();
      if Valid() {
        NothingCountedYet(filteredQuestions, questions);
      }
    }
  }
}
