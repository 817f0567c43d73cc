/**
 The progress tracker of the quiz (js/progress.js): a store from question
 number to an attempt record, the mastery rule applied on every attempt, the
 three-way status of a question and the statistics aggregated over the store
 or over a list of question numbers.

 The storage key `q_<n>` is modelled by the integer `n`; clock readings are
 opaque `Timestamp`s passed in by the caller.
 */
module Progress {
  import opened JsValues

  /** Number of correct answers at which a question becomes mastered. */
  const MasteryThreshold: nat := 2

  /** An ISO-8601 clock reading; the tracker stores it and never inspects it. */
  type Timestamp = string

  datatype Record = Record(
    attempts: nat,
    correct: nat,
    incorrect: nat,
    lastAttempt: Option<Timestamp>,
    mastered: bool,
    firstAttempt: Timestamp)

  datatype Status = New | Attempted | Mastered

  /** The record `recordAttempt` creates for a question that has none yet. */
  function Blank(now: Timestamp): Record {
    Record(0, 0, 0, None, false, now)
  }

  /** The record an attempt updates: the stored one, or a blank one. */
  function Prior(p: Option<Record>, now: Timestamp): Record {
    match p
    case Some(r) => r
    case None => Blank(now)
  }

  /** The counters agree and mastery is backed by enough correct answers. */
  predicate Balanced(r: Record) {
    && r.attempts == r.correct + r.incorrect
    && (r.mastered ==> r.correct >= MasteryThreshold)
  }

  /** What holds of every record `recordAttempt` has written. */
  predicate Consistent(r: Record) {
    Balanced(r) && r.attempts > 0
  }

  /** One attempt applied to a record: the update rule of `recordAttempt`. */
  function Step(p: Record, isCorrect: bool, now: Timestamp): (r: Record)
    ensures r.attempts == p.attempts + 1
    ensures isCorrect ==> r.correct == p.correct + 1 && r.incorrect == p.incorrect
    ensures !isCorrect ==> r.incorrect == p.incorrect + 1 && r.correct == p.correct
    ensures !isCorrect ==> !r.mastered
    ensures isCorrect ==> (r.mastered <==> p.mastered || r.correct >= MasteryThreshold)
    ensures r.lastAttempt == Some(now) && r.firstAttempt == p.firstAttempt
    ensures Balanced(p) ==> Consistent(r)
  {
    var counted := p.(attempts := p.attempts + 1, lastAttempt := Some(now));
    if isCorrect then
      var c := counted.(correct := counted.correct + 1);
      if c.correct >= MasteryThreshold then c.(mastered := true) else c
    else
      counted.(incorrect := counted.incorrect + 1, mastered := false)
  }

  // ---------------------------------------------------------------------------
  // A question's record as a function of its whole attempt history

  datatype Attempt = Attempt(isCorrect: bool, at: Timestamp)

  /** The record of a question after the given attempts, starting from none. */
  function Replay(history: seq<Attempt>): Option<Record> {
    if history == [] then None
    else
      var last := history[|history| - 1];
      Some(Step(Prior(Replay(history[..|history| - 1]), last.at), last.isCorrect, last.at))
  }

  /** Number of correct attempts in a history. */
  function CorrectCount(history: seq<Attempt>): (n: nat)
    ensures n <= |history|
  {
    if history == [] then 0
    else CorrectCount(history[..|history| - 1]) + (if history[|history| - 1].isCorrect then 1 else 0)
  }

  /** After N attempts the record counts N attempts, split into correct and incorrect. */
  lemma {:induction false} ReplayCounts(history: seq<Attempt>)
    ensures Replay(history).Some? <==> history != []
    ensures history != [] ==>
      var r := Replay(history).value;
      && r.attempts == |history|
      && r.correct == CorrectCount(history)
      && r.incorrect == |history| - CorrectCount(history)
      && Consistent(r)
      && r.firstAttempt == history[0].at
      && r.lastAttempt == Some(history[|history| - 1].at)
  {
    if history != [] {
      var init := history[..|history| - 1];
      ReplayCounts(init);
      if init != [] {
        assert init[0] == history[0];
      }
    }
  }

  /**
   Mastery depends on the last attempt and on the CUMULATIVE number of correct
   attempts, not on a run of consecutive correct ones: a question is mastered
   exactly when its last attempt was correct and it has been answered
   correctly at least MasteryThreshold times in all.
   */
  lemma {:induction false} ReplayMastery(history: seq<Attempt>)
    requires history != []
    ensures Replay(history).value.mastered <==>
      history[|history| - 1].isCorrect && CorrectCount(history) >= MasteryThreshold
  {
    ReplayCounts(history[..|history| - 1]);
  }

  /**
   Two correct answers master a question and a wrong one clears it; after that
   one more correct answer masters it again.
   */
  lemma MasteryExamples(t: Timestamp)
    ensures Replay([Attempt(true, t), Attempt(true, t)]).value.mastered
    ensures !Replay([Attempt(true, t), Attempt(true, t), Attempt(false, t)]).value.mastered
    ensures Replay([Attempt(true, t), Attempt(true, t), Attempt(false, t), Attempt(true, t)]).value.mastered
    ensures Replay([Attempt(true, t), Attempt(false, t), Attempt(true, t)]).value.mastered
  {
    var c, w := Attempt(true, t), Attempt(false, t);
    assert [c, c][..1] == [c];
    assert [c, c, w][..2] == [c, c];
    assert [c, c, w, c][..3] == [c, c, w];
    assert [c, w][..1] == [c];
    assert [c, w, c][..2] == [c, w];
    ReplayMastery([c, c]);
    ReplayMastery([c, c, w]);
    ReplayMastery([c, c, w, c]);
    ReplayMastery([c, w, c]);
  }

  // ---------------------------------------------------------------------------
  // Statistics

  /** `accuracy` is 0 while nothing was attempted, else correct/attempts as a percentage. */
  datatype Accuracy = NoAttempts | Ratio(correct: nat, attempts: nat)

  datatype Stats = Stats(
    total: nat,
    newCount: nat,
    attempted: nat,
    mastered: nat,
    totalAttempts: nat,
    totalCorrect: nat,
    totalIncorrect: nat,
    accuracy: Accuracy)

  const ZeroStats := Stats(0, 0, 0, 0, 0, 0, 0, NoAttempts)

  /** Fills in `accuracy` once the counters are complete; it divides only by a positive count. */
  function WithAccuracy(s: Stats): (r: Stats)
    ensures r.accuracy.Ratio? <==> s.totalAttempts > 0
    ensures r.accuracy.Ratio? ==> r.accuracy == Ratio(s.totalCorrect, s.totalAttempts) && r.accuracy.attempts > 0
    ensures r.(accuracy := s.accuracy) == s
  {
    if s.totalAttempts > 0 then s.(accuracy := Ratio(s.totalCorrect, s.totalAttempts))
    else s.(accuracy := NoAttempts)
  }

  /** The progress found for one question number, or none. */
  function Lookup(data: map<int, Record>, n: int): Option<Record> {
    if n in data then Some(data[n]) else None
  }

  /** Adds one question's progress to the counters (everything but `total`). */
  function Add(s: Stats, p: Option<Record>): Stats {
    match p
    case None => s.(newCount := s.newCount + 1)
    case Some(r) =>
      var t := s.(totalAttempts := s.totalAttempts + r.attempts,
                  totalCorrect := s.totalCorrect + r.correct,
                  totalIncorrect := s.totalIncorrect + r.incorrect);
      if r.mastered then t.(mastered := t.mastered + 1) else t.(attempted := t.attempted + 1)
  }

  /** The counters of `getStatsForQuestions` over a list of question numbers, before accuracy. */
  function Tally(data: map<int, Record>, ns: seq<int>): (s: Stats)
    ensures s.total == |ns|
    ensures s.newCount + s.attempted + s.mastered == |ns|
    ensures (forall i :: 0 <= i < |ns| ==> ns[i] in data) ==> s.newCount == 0
    ensures (forall i :: 0 <= i < |ns| ==> ns[i] !in data) ==> s.newCount == |ns| && s.totalAttempts == 0
    ensures s.accuracy == NoAttempts
  {
    if ns == [] then ZeroStats
    else
      var s := Tally(data, ns[..|ns| - 1]);
      Add(s, Lookup(data, ns[|ns| - 1])).(total := s.total + 1)
  }

  /** Over records whose counters agree, the aggregated counters agree too. */
  lemma {:induction false} TallyBalanced(data: map<int, Record>, ns: seq<int>)
    requires forall n :: n in data ==> Balanced(data[n])
    ensures Tally(data, ns).totalAttempts == Tally(data, ns).totalCorrect + Tally(data, ns).totalIncorrect
  {
    if ns != [] {
      TallyBalanced(data, ns[..|ns| - 1]);
    }
  }

  /** The record fields that `getStats` sums over the whole store. */
  datatype Field = Attempts | Correct | Incorrect | MasteredFlag

  function Measure(r: Record, f: Field): nat {
    match f
    case Attempts => r.attempts
    case Correct => r.correct
    case Incorrect => r.incorrect
    case MasteredFlag => if r.mastered then 1 else 0
  }

  /** The counter of a statistics value that sums the given field. */
  function StatField(s: Stats, f: Field): nat {
    match f
    case Attempts => s.totalAttempts
    case Correct => s.totalCorrect
    case Incorrect => s.totalIncorrect
    case MasteredFlag => s.mastered
  }

  /** Sum of one field over every stored record, in no particular order. */
  ghost function Total(m: map<int, Record>, f: Field): nat
    decreases |m|
  {
    if m == map[] then 0
    else
      assert exists k :: k in m by { NonEmptyHasKey(m); }
      var k :| k in m;
      assert |m - {k}| < |m| by { RemoveShrinks(m, k); }
      Measure(m[k], f) + Total(m - {k}, f)
  }

  lemma NonEmptyHasKey(m: map<int, Record>)
    requires m != map[]
    ensures exists k :: k in m
  {
    if forall k :: k !in m {
      assert false;
    }
  }

  lemma RemoveShrinks(m: map<int, Record>, k: int)
    requires k in m
    ensures |m - {k}| == |m| - 1
  {
    assert (m - {k}).Keys == m.Keys - {k};
  }

  /** The sum does not depend on which record is taken out first. */
  lemma {:induction false} TotalRemove(m: map<int, Record>, k: int, f: Field)
    requires k in m
    ensures Total(m, f) == Measure(m[k], f) + Total(m - {k}, f)
    decreases |m|
  {
    var j :| j in m && Total(m, f) == Measure(m[j], f) + Total(m - {j}, f);
    if j != k {
      RemoveShrinks(m, j);
      RemoveShrinks(m, k);
      TotalRemove(m - {j}, k, f);
      TotalRemove(m - {k}, j, f);
      assert m - {j} - {k} == m - {k} - {j};
    }
  }

  lemma TotalOfNothing(m: map<int, Record>)
    requires m == map[]
    ensures forall f :: Total(m, f) == 0
  {
  }

  /**
   The loop state of `getStats` part way through: `s` counts the records of
   `data` that are not in `rest`, and `rest` is what is left of `data`.
   */
  ghost predicate Partial(data: map<int, Record>, rest: map<int, Record>, s: Stats) {
    && (forall k :: k in rest ==> k in data && rest[k] == data[k])
    && s.total + |rest| == |data|
    && s.newCount == 0 && s.mastered + s.attempted == s.total
    && s.accuracy == NoAttempts
    && forall f :: StatField(s, f) + Total(rest, f) == Total(data, f)
  }

  /** Counting one more record of `rest` keeps the loop state of `getStats`, and balance. */
  lemma TakeOne(data: map<int, Record>, rest: map<int, Record>, s: Stats, k: int)
    requires k in rest && Partial(data, rest, s)
    ensures Partial(data, rest - {k}, Add(s, Some(rest[k])).(total := s.total + 1))
    ensures Balanced(rest[k]) && s.totalAttempts == s.totalCorrect + s.totalIncorrect ==>
      var t := Add(s, Some(rest[k]));
      t.totalAttempts == t.totalCorrect + t.totalIncorrect
  {
    forall f
      ensures StatField(Add(s, Some(rest[k])), f) + Total(rest - {k}, f) == Total(data, f)
    {
      TotalRemove(rest, k, f);
      AddMeasure(s, rest[k], f);
    }
    RemoveShrinks(rest, k);
    AddRecord(s, rest[k]);
  }

  predicate Distinct(ns: seq<int>) {
    forall i, j :: 0 <= i < j < |ns| ==> ns[i] != ns[j]
  }

  function Elems(ns: seq<int>): set<int> {
    set n | n in ns
  }

  function Restrict(m: map<int, Record>, keys: set<int>): map<int, Record> {
    map k | k in m && k in keys :: m[k]
  }

  lemma {:induction false} DistinctCard(ns: seq<int>)
    requires Distinct(ns)
    ensures |Elems(ns)| == |ns|
  {
    if ns != [] {
      var init := ns[..|ns| - 1];
      DistinctCard(init);
      assert Elems(ns) == Elems(init) + {ns[|ns| - 1]};
      assert ns[|ns| - 1] !in Elems(init);
    }
  }

  lemma AddMeasure(s: Stats, r: Record, f: Field)
    ensures StatField(Add(s, Some(r)), f) == StatField(s, f) + Measure(r, f)
  {
  }

  /** One more question number adds its record, or one more new question, to the counters. */
  lemma TallyStep(data: map<int, Record>, ns: seq<int>, i: nat, n: nat)
    requires i < |ns|
    ensures Tally(data, ns[..i + 1]).(total := n) == Add(Tally(data, ns[..i]).(total := n), Lookup(data, ns[i]))
  {
    assert ns[..i + 1][..i] == ns[..i];
  }

  lemma AddRecord(s: Stats, r: Record)
    ensures Add(s, Some(r)).total == s.total && Add(s, Some(r)).newCount == s.newCount
    ensures Add(s, Some(r)).accuracy == s.accuracy
    ensures Add(s, Some(r)).mastered + Add(s, Some(r)).attempted == s.mastered + s.attempted + 1
    ensures Add(s, Some(r)).totalAttempts == s.totalAttempts + r.attempts
    ensures Add(s, Some(r)).totalCorrect == s.totalCorrect + r.correct
    ensures Add(s, Some(r)).totalIncorrect == s.totalIncorrect + r.incorrect
  {
  }

  lemma RestrictDropLast(data: map<int, Record>, ns: seq<int>)
    requires Distinct(ns) && ns != []
    ensures ns[|ns| - 1] in Elems(ns)
    ensures Restrict(data, Elems(ns)) - {ns[|ns| - 1]} == Restrict(data, Elems(ns[..|ns| - 1]))
  {
    var init, last := ns[..|ns| - 1], ns[|ns| - 1];
    assert Elems(ns) == Elems(init) + {last};
    assert last !in Elems(init);
    assert Elems(ns) - {last} == Elems(init);
  }

  /** Over distinct stored numbers, the list aggregation sums the same field as the store-wide one. */
  lemma {:induction false} TallyMatchesTotal(data: map<int, Record>, ns: seq<int>, f: Field)
    requires Distinct(ns)
    requires forall i :: 0 <= i < |ns| ==> ns[i] in data
    ensures StatField(Tally(data, ns), f) == Total(Restrict(data, Elems(ns)), f)
  {
    if ns == [] {
      assert Restrict(data, Elems(ns)) == map[];
    } else {
      var init, last := ns[..|ns| - 1], ns[|ns| - 1];
      TallyMatchesTotal(data, init, f);
      var m := Restrict(data, Elems(ns));
      RestrictDropLast(data, ns);
      TotalRemove(m, last, f);
      AddMeasure(Tally(data, init), data[last], f);
    }
  }

  /** A list of distinct numbers whose elements are the stored keys lists every stored record once. */
  lemma EnumeratesKeys(data: map<int, Record>, ns: seq<int>)
    requires Distinct(ns)
    requires Elems(ns) == data.Keys
    ensures forall i :: 0 <= i < |ns| ==> ns[i] in data
    ensures Restrict(data, Elems(ns)) == data
    ensures |ns| == |data|
  {
    assert forall i :: 0 <= i < |ns| ==> ns[i] in Elems(ns);
    DistinctCard(ns);
    assert |data| == |data.Keys|;
  }

  /**
   `getStatsForQuestions` over the stored question numbers, each listed once,
   agrees with `getStats`: nothing new, every stored record either mastered or
   attempted, and the same totals.
   */
  lemma StatsAgree(data: map<int, Record>, ns: seq<int>)
    requires Distinct(ns)
    requires Elems(ns) == data.Keys
    ensures Tally(data, ns).newCount == 0
    ensures Tally(data, ns).attempted + Tally(data, ns).mastered == |data|
    ensures Tally(data, ns).mastered == Total(data, MasteredFlag)
    ensures Tally(data, ns).totalAttempts == Total(data, Attempts)
    ensures Tally(data, ns).totalCorrect == Total(data, Correct)
    ensures Tally(data, ns).totalIncorrect == Total(data, Incorrect)
  {
    EnumeratesKeys(data, ns);
    TallyMatchesTotal(data, ns, MasteredFlag);
    TallyMatchesTotal(data, ns, Attempts);
    TallyMatchesTotal(data, ns, Correct);
    TallyMatchesTotal(data, ns, Incorrect);
  }

  // ---------------------------------------------------------------------------
  // The tracker

  class ProgressTracker {
    var data: map<int, Record>

    /** Every stored record is one that `recordAttempt` could have written. */
    ghost predicate Valid()
      reads this
    {
      forall n :: n in data ==> Consistent(data[n])
    }

    /** The tracker over the record set read back from storage. */
    constructor (stored: map<int, Record>)
      ensures data == stored
    {
      data := stored;
    }

    /** The record of question `n`, or none when it was never attempted. */
    function GetQuestionProgress(n: int): (p: Option<Record>)
      reads this
      ensures p.Some? <==> n in data
      ensures p.Some? ==> p.value == data[n]
    {
      Lookup(data, n)
    }

    /** Records one answer to question `n`, creating its record if needed. */
    method RecordAttempt(n: int, isCorrect: bool, now: Timestamp) returns (r: Record)
      modifies this
      ensures data == old(data)[n := r]
      ensures r == Step(Prior(old(GetQuestionProgress(n)), now), isCorrect, now)
      ensures n !in old(data) ==>
        && r.attempts == 1 && r.firstAttempt == now && !r.mastered
        && r.correct == (if isCorrect then 1 else 0)
        && r.incorrect == (if isCorrect then 0 else 1)
      ensures n in old(data) ==> r.attempts == old(data)[n].attempts + 1
      ensures old(Valid()) ==> Valid()
    {
      if n !in data {
        data := data[n := Blank(now)];
      }
      var progress := data[n];
      progress := progress.(attempts := progress.attempts + 1, lastAttempt := Some(now));
      if isCorrect {
        progress := progress.(correct := progress.correct + 1);
        if progress.correct >= MasteryThreshold {
          progress := progress.(mastered := true);
        }
      } else {
        progress := progress.(incorrect := progress.incorrect + 1);
        progress := progress.(mastered := false);
      }
      data := data[n := progress];
      r := progress;
    }

    /** `new` without a record, `mastered` when its flag is set, `attempted` otherwise. */
    function GetQuestionStatus(n: int): (s: Status)
      reads this
      ensures s == New <==> n !in data
      ensures s == Mastered <==> n in data && data[n].mastered
      ensures s == Attempted <==> n in data && !data[n].mastered
    {
      match GetQuestionProgress(n)
      case None => New
      case Some(p) => if p.mastered then Mastered else Attempted
    }

    /** Statistics over every stored record. */
    method GetStats() returns (s: Stats)
      ensures s.total == |data| && s.newCount == 0
      ensures s.mastered + s.attempted == s.total
      ensures s.mastered == Total(data, MasteredFlag)
      ensures s.totalAttempts == Total(data, Attempts)
      ensures s.totalCorrect == Total(data, Correct)
      ensures s.totalIncorrect == Total(data, Incorrect)
      ensures s == WithAccuracy(s)
      ensures Valid() ==> s.totalAttempts == s.totalCorrect + s.totalIncorrect
    {
      s := ZeroStats;
      var rest := data;
      while rest != map[]
        invariant Partial(data, rest, s)
        invariant Valid() ==> s.totalAttempts == s.totalCorrect + s.totalIncorrect
        decreases |rest|
      {
        NonEmptyHasKey(rest);
        var k :| k in rest;
        var progress := rest[k];
        TakeOne(data, rest, s, k);
        s := Add(s, Some(progress)).(total := s.total + 1);
        rest := rest - {k};
      }
      TotalOfNothing(rest);
      if s.totalAttempts > 0 {
        s := s.(accuracy := Ratio(s.totalCorrect, s.totalAttempts));
      }
    }

    /** Statistics over the given question numbers, in list order. */
    method GetStatsForQuestions(ns: seq<int>) returns (s: Stats)
      ensures s == WithAccuracy(Tally(data, ns))
      ensures s.total == |ns| && s.newCount + s.attempted + s.mastered == |ns|
      ensures ns == [] ==> s == ZeroStats
      ensures Valid() ==> s.totalAttempts == s.totalCorrect + s.totalIncorrect
    {
      s := ZeroStats.(total := |ns|);
      var i := 0;
      while i < |ns|
        invariant 0 <= i <= |ns|
        invariant s == Tally(data, ns[..i]).(total := |ns|)
      {
        TallyStep(data, ns, i, |ns|);
        s := Add(s, GetQuestionProgress(ns[i]));
        i := i + 1;
      }
      assert ns[..|ns|] == ns;
      if s.totalAttempts > 0 {
        s := s.(accuracy := Ratio(s.totalCorrect, s.totalAttempts));
      }
      if Valid() {
        TallyBalanced(data, ns);
      }
    }

    /** Forgets question `n` and nothing else. */
    method ResetQuestion(n: int)
      modifies this
      ensures data == old(data) - {n}
      ensures GetQuestionStatus(n) == New
      ensures forall m :: m != n ==> GetQuestionProgress(m) == old(GetQuestionProgress(m))
      ensures old(Valid()) ==> Valid()
    {
      data := data - {n};
    }

    /** Forgets every question. */
    method ResetAll()
      modifies this
      ensures data == map[]
      ensures forall n :: GetQuestionStatus(n) == New
      ensures Valid()
    {
      data := map[];
    }
  }
}
