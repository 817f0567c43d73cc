/**
 Questions of the quiz (js/app.js): the records read from the data files, the
 normalised answers, the derivation of the correct letter, the Fisher-Yates
 shuffle and the question object a session works on.
 */
module Questions {
  import opened JsValues
  import opened Progress

  /** An answer as it appears in a data file. `isCorrect` is the truthiness of `is_correct`. */
  datatype RawAnswer = RawAnswer(
    letter: JsString,
    textGerman: JsString,
    textEnglish: JsString,
    textArabic: JsString,
    isCorrect: bool)

  /** A question as it appears in a data file; `answers` is `None` when it is not an array. */
  datatype RawQuestion = RawQuestion(
    questionNumber: Option<int>,
    questionGerman: JsString,
    questionEnglish: JsString,
    questionArabic: JsString,
    answers: Option<seq<RawAnswer>>,
    correctAnswer: JsString,
    imagePath: JsString)

  /** A normalised answer: texts default to the empty string. */
  datatype Answer = Answer(
    letter: JsString,
    textGerman: string,
    textEnglish: string,
    textArabic: string,
    isCorrect: bool)

  /** The answers of a raw question, or none when the field is not an array. */
  function AnswersOf(q: RawQuestion): seq<RawAnswer> {
    match q.answers
    case Some(a) => a
    case None => []
  }

  function NormalizeAnswer(a: RawAnswer): Answer {
    Answer(a.letter, a.textGerman.OrEmpty(), a.textEnglish.OrEmpty(), a.textArabic.OrEmpty(), a.isCorrect)
  }

  /** The answers mapped one by one: letters and flags kept, missing texts made empty. */
  function NormalizeAnswers(raws: seq<RawAnswer>): (r: seq<Answer>)
    ensures |r| == |raws|
    ensures forall i :: 0 <= i < |raws| ==>
      && r[i].letter == raws[i].letter
      && r[i].isCorrect == raws[i].isCorrect
      && (raws[i].textGerman.Truthy() ==> r[i].textGerman == raws[i].textGerman.s)
      && (!raws[i].textGerman.Truthy() ==> r[i].textGerman == "")
      && (raws[i].textEnglish.Truthy() ==> r[i].textEnglish == raws[i].textEnglish.s)
      && (!raws[i].textEnglish.Truthy() ==> r[i].textEnglish == "")
      && (raws[i].textArabic.Truthy() ==> r[i].textArabic == raws[i].textArabic.s)
      && (!raws[i].textArabic.Truthy() ==> r[i].textArabic == "")
  {
    seq(|raws|, i requires 0 <= i < |raws| => NormalizeAnswer(raws[i]))
  }

  /** `answers.find(a => a.is_correct)`, as the index of the first answer flagged correct. */
  function FirstCorrect(raws: seq<RawAnswer>): (r: Option<nat>)
    ensures r.Some? ==> r.value < |raws| && raws[r.value].isCorrect
    ensures r.Some? ==> forall j :: 0 <= j < r.value ==> !raws[j].isCorrect
    ensures r.None? ==> forall j :: 0 <= j < |raws| ==> !raws[j].isCorrect
  {
    if raws == [] then None
    else if raws[0].isCorrect then Some(0)
    else
      match FirstCorrect(raws[1..])
      case Some(i) => Some(i + 1)
      case None => None
  }

  /**
   The letter a normalised question counts as correct: a truthy
   `correct_answer` wins; otherwise the letter of the first answer flagged
   correct; with no flagged answer the falsy `correct_answer` stays.
   */
  function CorrectLetter(q: RawQuestion): (r: JsString)
    ensures q.correctAnswer.Truthy() ==> r == q.correctAnswer
    ensures !q.correctAnswer.Truthy() ==>
      if exists i :: 0 <= i < |AnswersOf(q)| && AnswersOf(q)[i].isCorrect then
        exists i :: && 0 <= i < |AnswersOf(q)| && AnswersOf(q)[i].isCorrect && r == AnswersOf(q)[i].letter
                    && forall j :: 0 <= j < i ==> !AnswersOf(q)[j].isCorrect
      else r == q.correctAnswer
  {
    if q.correctAnswer.Truthy() then q.correctAnswer
    else
      match FirstCorrect(AnswersOf(q))
      case Some(i) => AnswersOf(q)[i].letter
      case None => q.correctAnswer
  }

  /**
   Fisher-Yates over a copy of `s`: from the last position down to the second,
   swap the element with one at an arbitrary position not after it. The
   random index is an arbitrary choice, so what is proved holds for every
   sequence of choices.
   */
  method Shuffle<T>(s: seq<T>) returns (r: seq<T>)
    ensures |r| == |s|
    ensures multiset(r) == multiset(s)
  {
    var arr := new T[|s|](k requires 0 <= k < |s| => s[k]);
    assert arr[..] == s;
    var i := arr.Length - 1;
    while i > 0
      invariant i < arr.Length
      invariant multiset(arr[..]) == multiset(s)
    {
      var j :| 0 <= j <= i;
      arr[i], arr[j] := arr[j], arr[i];
      i := i - 1;
    }
    r := arr[..];
  }

  /** A normalised question together with the session state the page changes in place. */
  class Question {
    const questionNumber: Option<int>
    const questionGerman: string
    const questionEnglish: string
    const questionArabic: string
    const answers: seq<Answer>
    const correctAnswer: JsString
    const imagePath: JsString
    var selected: JsString
    var revealed: bool
    var showAll: bool
    var progress: Option<Record>
    const status: Status

    constructor (questionNumber: Option<int>, questionGerman: string, questionEnglish: string,
                 questionArabic: string, answers: seq<Answer>, correctAnswer: JsString,
                 imagePath: JsString, progress: Option<Record>, status: Status)
      ensures this.questionNumber == questionNumber
      ensures this.questionGerman == questionGerman
      ensures this.questionEnglish == questionEnglish
      ensures this.questionArabic == questionArabic
      ensures this.answers == answers
      ensures this.correctAnswer == correctAnswer
      ensures this.imagePath == imagePath
      ensures this.progress == progress && this.status == status
      ensures selected == Null && !revealed && !showAll
    {
      this.questionNumber := questionNumber;
      this.questionGerman := questionGerman;
      this.questionEnglish := questionEnglish;
      this.questionArabic := questionArabic;
      this.answers := answers;
      this.correctAnswer := correctAnswer;
      this.imagePath := imagePath;
      this.progress := progress;
      this.status := status;
      selected := Null;
      revealed := false;
      showAll := false;
    }
  }
}
