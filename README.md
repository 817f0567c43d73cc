# Einbürgerungstest practice quiz: progress tracker and session logic

This project is a Dafny model of the logic behind a browser quiz for the German
naturalisation test. It models two parts of that logic.

- **The progress tracker** (`js/progress.js`):
  - The store maps a question number to an attempt record.
  - `recordAttempt` updates a record. It uses the mastery rule with `MASTERY_THRESHOLD = 2`.
  - `getQuestionStatus` gives one of the three statuses.
  - `getStats` aggregates over the whole store.
  - `getStatsForQuestions` aggregates over a list of question numbers.
  - The two reset operations delete records.
- **The practice session** (the object returned by `app()` in `js/app.js`):
  - the Fisher-Yates shuffle;
  - normalisation of the question records read from the data files, including how the correct letter is derived;
  - the search and status filter;
  - the question state machine, in which `selectAnswer` and `reveal` lock a question once it is revealed and `resetSession` unlocks every question;
  - the session counters;
  - the rendering classifiers: feedback text, answer CSS classes, the translation switch and the progress badge;
  - the image-path and HTML-escaping helpers.

The files:

| file | module |
|---|---|
| `js_values.dfy` | `JsValues`: `Option`, and `JsString` (missing, `null` or a string) with JavaScript truthiness |
| `progress.dfy` | `Progress`: `Record` and the update rule `Step`; `Replay`, which rebuilds a record from an attempt history; the statistics; the class `ProgressTracker` over a `map<int, Record>` |
| `questions.dfy` | `Questions`: raw and normalised records, `FirstCorrect` / `CorrectLetter`, the in-place `Shuffle` over an array, and the class `Question` with the mutable session fields |
| `text.dfy` | `Text`: `trim`, `normalizeImage`, `escapeHtml`, and a decoder that proves `escapeHtml` loses nothing |
| `session.dfy` | `Session`: filtering, the counters, the classifiers, and the class `App` whose methods update the session state |

Modelling choices:
- The storage key `q_<n>` is modelled by the integer `n`.
- `new Date().toISOString()` becomes a `now` argument.
- `Math.random()` becomes an arbitrary index `j` with `0 <= j <= i`. So the shuffle's permutation property holds for every choice of indices.
- `toLowerCase` and `includes`, the text test of `applySearch`, become a function `matches` fixed when the page is built.
- `progressTracker` is the `tracker` field of `App`.
- Loading a category is modelled from the point where the parsed records are known. `LoadQuestions` takes them as a parameter.
- `Question.status` is a constant field: `normalizeQuestion` is the only code that sets it (js/app.js:118, 124).
- `q.progress` holds a copy of the tracker's record, not a shared object; see "Left out".

Two places where the comments and the code disagree; the model follows the code:
- **Mastery.** The comment at js/progress.js:80 says "consecutive correct answers". The code tests the cumulative `correct` count. So after a wrong answer clears mastery, one correct answer masters the question again once `correct >= 2`. `ReplayMastery` states the rule as the code has it. `MasteryExamples` shows the re-mastering.
- **Reveal without a selection.** When a question has no truthy `correct_answer` and no answer flagged correct, `correct_answer` keeps the falsy value from the data.
  - If the data says `"correct_answer": null`, revealing the question without a selection counts it as correct in `recalcStats`, because `null === null` (js/app.js:228).
  - If the field is missing, the value is `undefined`, and `null === undefined` is false, so the question is not counted.
  - In both cases `feedbackText` shows the line `Correct answer: …` with the falsy value written out, because a falsy selection is tested before the comparison (js/app.js:197).
  - The model keeps `undefined` and `null` apart for this reason. `RevealedWithoutSelection` states the rule.

## Model

| member | source | states |
|---|---|---|
| JsValues.JsString.OrEmpty | js/app.js:101-103 | `x \|\| ''`: the string when it is truthy, the empty string otherwise |
| Progress.Step | js/progress.js:74-88 | one attempt adds exactly 1 to `attempts` and to exactly one of `correct` / `incorrect`. A wrong answer clears `mastered`. A right answer sets it exactly when it was set or `correct` reaches the threshold. `lastAttempt` becomes `now`. A record whose counters agree stays consistent |
| Progress.ReplayCounts | js/progress.js:61-92 | after N recorded attempts, starting from no record, the record exists and counts N attempts: the correct ones and N minus those. The counters agree. `firstAttempt` is the time of the first attempt and `lastAttempt` that of the last |
| Progress.ReplayMastery | js/progress.js:78-88 | a question is mastered exactly when its last attempt was correct and its cumulative correct count is at least the threshold (2) |
| Progress.MasteryExamples | js/progress.js:78-88 | two correct answers master a question. A wrong one clears mastery. One more correct answer masters it again, as does correct-wrong-correct |
| Progress.WithAccuracy | js/progress.js:171-173 | accuracy is set exactly when `totalAttempts > 0`, as correct over attempts with a positive divisor. No other field changes |
| Progress.Tally | js/progress.js:142-169 | `total == \|ns\|` and `new + attempted + mastered == \|ns\|`. All numbers stored means nothing new. None stored means all new and no attempts |
| Progress.TallyBalanced | js/progress.js:154-168 | over records with `attempts == correct + incorrect`, the summed counters satisfy the same equation |
| Progress.TotalRemove | js/progress.js:119-130 | the store-wide sum of a field does not depend on which record is taken first |
| Progress.TallyMatchesTotal | js/progress.js:142-169 | over distinct stored numbers, the list aggregation sums each field exactly as the store-wide sum over those records does |
| Progress.StatsAgree | js/progress.js:107-176 | `getStatsForQuestions` over the stored numbers agrees with `getStats`: nothing new, every record mastered or attempted, the same totals |
| Progress.ProgressTracker.constructor | js/progress.js:23-25 | the tracker starts from the record set read back from storage |
| Progress.ProgressTracker.GetQuestionProgress | js/progress.js:54-56 | a record exactly when the number is stored, and then the stored one |
| Progress.ProgressTracker.RecordAttempt | js/progress.js:61-92 | only entry `n` changes, to the `Step` of the previous record (a blank one created at `now` when there was none). A first attempt gives 1 attempt, with correct or incorrect set to 1 and mastered false. Store consistency is preserved |
| Progress.ProgressTracker.GetQuestionStatus | js/progress.js:97-102 | `new` exactly when there is no record, `mastered` exactly when the record's flag is set, `attempted` otherwise |
| Progress.ProgressTracker.GetStats | js/progress.js:107-137 | `total == \|data\|`, nothing new, `mastered + attempted == total`. Each counter is the store-wide sum of its field. Accuracy is set only when there were attempts. The counters agree when the store is consistent |
| Progress.ProgressTracker.GetStatsForQuestions | js/progress.js:142-176 | equals `Tally` over the list with accuracy filled in. `new + attempted + mastered == total == \|ns\|`. An empty list gives all zeros and no accuracy. `totalAttempts == totalCorrect + totalIncorrect` over a consistent store |
| Progress.ProgressTracker.ResetQuestion | js/progress.js:181-185 | removes only key `n`: its status becomes `new` and every other record is unchanged |
| Progress.ProgressTracker.ResetAll | js/progress.js:190-193 | the store is empty and every status is `new` |
| Questions.NormalizeAnswers | js/app.js:99-105 | one answer per input answer, letter and correctness kept, each text the input text when truthy and `''` otherwise |
| Questions.FirstCorrect | js/app.js:96 | `answers.find(a => a.is_correct)`: the index of the first answer flagged correct, or none when no answer is flagged |
| Questions.CorrectLetter | js/app.js:93-98 | a truthy `correct_answer` is kept. Otherwise the letter of the first answer flagged correct is used: it is flagged, and no earlier answer is. With no flagged answer, the falsy value stays |
| Questions.Shuffle | js/app.js:40-47 | the result has the input's length and is a permutation of it (the same multiset), whatever indices are chosen |
| Questions.Question.constructor | js/app.js:106-119 | a new question has the given fields, `selected = null`, `revealed = false` and `showAll = false` |
| Text.Trim | js/app.js:134 | `trim()` is a slice `s[lo..hi]` with only whitespace before `lo` and after `hi`. It is empty exactly when the input is all whitespace. Otherwise it starts and ends with a non-whitespace character, so exactly the leading and trailing whitespace is removed |
| Text.TrimIdempotent | js/app.js:134 | trimming twice gives the same term as trimming once |
| Text.SlashBackslashes | js/app.js:219 | every backslash becomes `/` and every other character is kept, in place |
| Text.NormalizeImage | js/app.js:217-220 | a falsy path gives `''`. The output has no backslash, the same length, and `/` exactly where the input had `/` or `\` |
| Text.NormalizeImageIdempotent | js/app.js:217-220 | normalising a normalised path changes nothing |
| Text.ReplaceChar | js/app.js:404-406 | after replacing a character globally, every output character comes from the input (other than the replaced one) or from the replacement |
| Text.EscapeHtml | js/app.js:402-407 | the output contains no `<` and no `>` |
| Text.ReplaceCharAppend | js/app.js:404-406 | a global replacement distributes over concatenation |
| Text.EscapeHtmlAppend | js/app.js:402-407 | `escapeHtml` distributes over concatenation |
| Text.EscapeHtmlSingle | js/app.js:402-407 | on one character, the three passes give exactly that character's entity, or the character itself |
| Text.EscapeHtmlIsPerChar | js/app.js:402-407 | `&` is replaced first, so the three sequential passes equal escaping each character on its own, and no entity is escaped twice |
| Text.UnescapeEscapeEach | js/app.js:402-407 | decoding undoes per-character escaping |
| Text.EscapeHtmlRoundTrip | js/app.js:402-407 | `escapeHtml` is injective: decoding its output gives back the input |
| Session.Filtered | js/app.js:133-151 | the filtered list is no longer than the list |
| Session.FilteredMembers | js/app.js:138-149 | every shown question is in the list, matches the term and has the chosen status. Conversely, every question of the list that passes both tests is shown |
| Session.FilteredIsSubseq | js/app.js:135-151 | the filtered list is an order-preserving subsequence of the questions |
| Session.FilteredEverything | js/app.js:134-151 | an empty trimmed term with filter `all` shows exactly the questions |
| Session.FilteredInTwoPasses | js/app.js:138-149 | the text pass followed by the status pass keeps what one combined pass keeps |
| Session.SearchPasses | js/app.js:138-149 | the source's two passes, each skipped when the term is empty or the filter is `all`, equal the combined filter and keep the list's order |
| Session.Numbers | js/app.js:235 | `map(q => q.question_number).filter(Boolean)` has one entry per question with a truthy number, so its length is the number of such positions. Every entry is nonzero and is some question's number, and every truthy number appears |
| Session.CountAnswered | js/app.js:226 | the answered count is at most the number of shown questions |
| Session.CountRevealed | js/app.js:227 | the revealed count is at most the number of shown questions |
| Session.CountCorrect | js/app.js:228 | the correct count is at most the number of shown questions |
| Session.CorrectWithinRevealed | js/app.js:227-228 | `correctCount <= revealedCount`: only revealed questions count as correct |
| Session.RevealedWithoutSelection | js/app.js:225-229 | a question revealed with nothing selected counts as correct exactly when its correct letter is an explicit `null`, and its feedback line names the correct letter |
| Session.CountsZero | js/app.js:225-229 | each counter is zero exactly when no shown question has a selection, a reveal, or a revealed selection equal to the correct letter |
| Session.ShuffledNormalized | js/app.js:76-77 | after shuffling the normalised list, every question still comes from one of the records |
| Session.NothingCountedYet | js/app.js:82-86 | a shown part of a list in which nothing is selected or revealed counts zero everywhere |
| Session.FeedbackText | js/app.js:195-199 | `''` exactly when not revealed. It is the "Correct" line exactly when a truthy selection equals the correct letter. Otherwise it ends with the correct letter, or with the letter and `)` |
| Session.AnswerClasses | js/app.js:204-212 | once revealed, `answer correct` exactly for the correct letter and `answer incorrect` exactly for a wrong selection. Before that, `answer selected` exactly for the selection, and `answer` otherwise |
| Session.GetProgressBadge | js/app.js:272-278 | the badge is one of none, star, tick or cross. No record gives none. The star appears exactly for a mastered question with a record. Otherwise the tick appears exactly when there is a correct answer, and the cross when there are only wrong ones. Every consistent record gets a badge |
| Session.App.constructor | js/app.js:26-35 | an empty session with the stored translation language, or `english` when none is stored |
| Session.App.NormalizeQuestion | js/app.js:92-128 | the new question carries the raw fields with `''` / `null` defaults and the derived correct letter. Its answers are a permutation of the normalised ones, and it is unselected and unrevealed. With a truthy number, its progress and status come from the tracker. Otherwise it has no progress and status `new` |
| Session.App.NormalizeAll | js/app.js:76 | one fresh, untouched question per record, in order |
| Session.App.LoadQuestions | js/app.js:76-86 | the questions are a permutation (the same multiset) of a list that normalises the records one for one, in order. They are all fresh, unselected and unrevealed. The filter is applied, every counter is zero, and the progress statistics cover the shown numbers |
| Session.App.Refresh | js/app.js:82-86 | the shown list is the filtered one, and the statistics and counters are recomputed over it |
| Session.App.ApplySearch | js/app.js:133-153 | `filteredQuestions` is the combined filter of the questions by the trimmed term and the status, as an order-preserving subsequence. The progress statistics are recomputed |
| Session.App.UpdateProgressStats | js/app.js:234-237 | the progress statistics are `getStatsForQuestions` over the truthy numbers of the shown questions |
| Session.App.SelectAnswer | js/app.js:158-162 | a revealed question and the counters are unchanged. Otherwise the selection becomes the answer's letter and the counters are recomputed |
| Session.App.ShowAnswerTranslation | js/app.js:167-172 | shown only for the chosen answer (or with show-all), and only when a translation exists in a requested language. Conversely, for the chosen answer (or with show-all), English text under `english`, Arabic text under `arabic` and either under `both` is shown. An unknown language shows nothing |
| Session.App.Reveal | js/app.js:177-190 | a second reveal changes nothing. The first sets `revealed` and keeps the selection. With a selection and a question number, it records exactly one attempt for that number and no other, correct exactly when the selection equals the correct letter, and copies the new record into the question. Otherwise the store is unchanged. It then recomputes the counters and statistics and keeps the store consistent |
| Session.App.RecordRevealed | js/app.js:183-186 | with a selection and a question number, exactly one attempt is recorded for that number and no other, correct exactly when the selection equals the correct letter, and the new record is copied into the question. Otherwise the store and the question's progress are unchanged. Store consistency is preserved |
| Session.App.RecalcStats | js/app.js:225-229 | the three counters count the shown questions, with `correctCount <= revealedCount <= \|filteredQuestions\|` and `answeredCount <= \|filteredQuestions\|` |
| Session.App.ResetSession | js/app.js:250-256 | every question is unselected and unrevealed, with its other fields unchanged. The counters are recomputed, and all three are zero while the shown list is part of the questions |

## Left out

- Persistence is left out: `load`, `save`, `export` and `import` in `js/progress.js` stay outside the model. The constructor takes the stored records as a parameter, and `save` does nothing.
- Accuracy as a number is left out. The source computes `(correct / attempts * 100).toFixed(1)` in floating point; the model keeps the pair `Ratio(correct, attempts)` and the rule that it is set only when attempts are positive. The session's `accuracy()` helper is left out for the same reason.
- `loadCategory` keeps only what happens after the data arrives: `fetch`, JSON parsing, the category list, the `loading` flag and the error branch are I/O. `LoadQuestions` takes the parsed records as a parameter.
- `Math.random` is replaced by an arbitrary index: the model proves the permutation property for every choice, not uniformity.
- `toLowerCase`, `join` and `includes` in `applySearch` are left out. They are Unicode string operations; the `matches` function stands for them.
- Text-to-speech, `confirm`, `resetProgress`, `changeStatusFilter`, `changeTranslationLang`, `getProgressTooltip`, `formatQuestionTitle` and the Alpine registration are UI glue. None of them is one of the core operations.
- `Session.App.Reveal`: the source stores in `q.progress` the same object the tracker holds, so later attempts would show through it. The model copies the record at the time of the reveal. Aliasing between a question and the tracker is not modelled.
- `Progress.ProgressTracker.GetStats`: `Object.values` visits records in key-insertion order. The model visits them in an arbitrary order and proves the sums do not depend on it (`TotalRemove`).
- `Text.EscapeHtml`: the source first applies `String(str)` to any value. The model takes a string, so the conversion of `null` and of numbers is not modelled.
- `Progress.ProgressTracker.RecordAttempt`: the source reads the clock twice for a new record, once for `firstAttempt` (js/progress.js:70) and once for `lastAttempt` (js/progress.js:76). The model passes one `now` for both, so `firstAttempt == lastAttempt` on a first attempt, where the source may differ by the milliseconds between the two reads.
- Integer overflow is not modelled. Counters are unbounded naturals, whereas JavaScript numbers lose precision above 2^53. That size is out of reach for click counts.
