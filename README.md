# German reading quiz: server scoring and quiz form, in Dafny

This project models the logic core of a small language-learning quiz. The
learner reads a German passage and answers multiple-choice comprehension
and vocabulary questions. The answers are then scored.

- `common.dfy` (module `Common`) holds what both sides share. It defines the
  question record of a level file and the result record the scorer
  produces. It also defines the decimal key of a question id (`IdKey`). That
  key is `str(q['id'])` on the server and the property-key conversion of
  `q.id` in the browser. The module proves that `IdKey` is injective, and
  therefore that a list of questions has as many keys as questions exactly
  when its ids are distinct.
- `backend.dfy` (module `Backend`) models the Flask handlers of
  `backend/app.py`:
  - reading-id parsing (`Split`, `ParseReadingId`);
  - the choice of an unread reading (`GetReading`);
  - the question list with answers removed (`RemoveAnswers`, an in-place
    loop over an array, and `GetQuestions`);
  - the scoring loop (`Score`);
  - the submit handler (`SubmitAnswers`). It updates the learner's
    performance record, which is a class with two lists that the handler
    appends to.

  Level files are passed in as a map from level name to parsed file. An
  uncaught Python exception (KeyError, AttributeError, IndexError outside
  the guarded parse) is the `ServerError` outcome, the 500 reply.
- `quiz.dfy` (module `Quiz`) models `frontend/src/components/Quiz.jsx`. It
  covers:
  - the answer map, a class field updated by `ChooseOption`;
  - the submit rule;
  - the three option labels;
  - the vocabulary/comprehension prompt;
  - the option letters.

  It also proves the link between the two sides (`ScoredRoundLabels`). Take a
  round in which the learner answers every question the questions handler
  served. The submit reply then has a record for every shown question, an
  option is labelled `correct` exactly when it is the answer stored in the
  level file, and the learner's own option is labelled `correct` or
  `user-incorrect` as the record says.

The code decides a question's kind by `id > 5` at render time, and so does
`Quiz.KindOf`. The code does not check that the option texts of a question
are distinct; `Quiz.AtMostOneOfEachMark` assumes it only where it needs it.

The model keeps one behaviour of the id scheme that the round-trip lemmas
exclude by their `_`-free requirement. `parse_reading_id` keeps only the
first two pieces of `split('_')` (backend/app.py:31-34). Take level `a`,
level-file keys `1_x` and `1`, and `completed_readings` holding `a_1`. The
only unread id is then `a_1_x` (backend/app.py:50-53). It parses to key
`1`, so the reading handler serves id `a_1_x` with the title and text of
reading `1` (backend/app.py:59-61). The questions and submit handlers look
up reading `1` for that id as well. `Backend.GetReading` and
`Backend.QuestionBank` follow this behaviour, because `Backend.ParseReadingId`
keeps only the first two pieces.

## Model

| member | source | states |
|---|---|---|
| `Common.IdKey` | backend/app.py:124 | the key of an id is non-empty and starts with `-` exactly for negative ids |
| `Common.IdKeyInjective` | backend/app.py:124 | different question ids never share a key, so `correct_answers` and the answer map hold one entry per id |
| `Common.QuestionKeysCard` | frontend/src/components/Quiz.jsx:31-33 | a question list has at most as many keys as questions, and exactly as many iff its ids are distinct |
| `Backend.Split` | backend/app.py:31 | `split('_')` gives at least one piece, no piece contains `_`, and joining the pieces with `_` gives back the id |
| `Backend.ParseBuiltId` | backend/app.py:29-34 | the id `level_key` built at line 50 parses back to `(level, key)` when neither part contains `_`, as line 59 relies on |
| `Backend.ParseReadingId` | backend/app.py:29-34 | parsing fails, with the invalid-format error, exactly for ids without `_`; otherwise level and key are `_`-free, `level_key` is a prefix of the id, and the key runs up to the next `_` or the end of the id, so it is the whole second piece and anything after a second `_` is dropped |
| `Backend.PossibleIds` | backend/app.py:50 | one id per key of the level file |
| `Backend.PossibleIdsParse` | backend/app.py:50-59 | the id built for a `_`-free level and the key at position i parses back to that level and that key |
| `Backend.Unread` | backend/app.py:53 | an id is unread iff it is a possible id and not in `completed_readings`; the list is no longer than the possible ids |
| `Backend.UnreadAppend` | backend/app.py:53 | the filter keeps the original order: filtering `a + b` gives the filtered `a` followed by the filtered `b` |
| `Backend.UnreadOfFresh` | backend/app.py:53 | when no possible id is completed, the unread list is the possible-id list itself |
| `Backend.GetReading` | backend/app.py:37-67 | a missing level gives 404 "Invalid level"; the completed-all message comes iff every possible id is completed; a served passage's id is a possible id not yet completed |
| `Backend.GetReadingServesUnread` | backend/app.py:58-67 | with `_`-free level and keys and readings that have a title and text, a level with an unread reading always serves a passage, whose id is `level_key` and whose title and text are those stored under that key |
| `Backend.QuestionBank` | backend/app.py:72-90 | the lookup shared by the questions and submit handlers fails only with the invalid-format, reading-not-found or key-not-found error |
| `Backend.QuestionBankOfBuiltId` | backend/app.py:72-90 | for an id `level_key` with `_`-free parts: a missing level file gives reading-not-found; a missing or empty reading gives key-not-found; otherwise the bank (the helper `Backend.ReadingData.Bank`) is the reading's questions followed by its vocabulary, an absent list counting as empty |
| `Backend.Stripped` | backend/app.py:92-95 | stripping keeps the length and order, removes every `answer`, and leaves id, question text, word and options of each question unchanged |
| `Backend.StrippedAppend` | backend/app.py:88-90 | the stripped list is the stripped questions followed by the stripped vocabulary items |
| `Backend.RemoveAnswers` | backend/app.py:93-95 | the in-place loop leaves the array holding exactly the stripped list of its old contents |
| `Backend.GetQuestions` | backend/app.py:70-97 | the questions handler returns the lookup's error, or the reading's questions then vocabulary with every answer removed |
| `Backend.QuestionsRejectIdWithoutSep` | backend/app.py:72-75 | an id without `_` gets the 400 "Invalid reading ID format" reply from the questions handler |
| `Backend.CorrectAnswers` | backend/app.py:123-124 | the correct-answer map exists iff every question has an answer (an absent answer is the KeyError); its keys are exactly the keys of the bank's question ids |
| `Backend.CorrectAnswerOfQuestion` | backend/app.py:124 | with distinct ids, each question's key maps to that question's stored answer |
| `Backend.Results` | backend/app.py:126-136 | one record per submitted id and no other; each record, built by the helper `Backend.Judge` from the stored answer that `Backend.Lookup` finds (or none), keeps the submitted and the stored answer and says correct iff a stored answer exists and equals the submitted one |
| `Backend.Score` | backend/app.py:126-136 | the loop builds one record per submitted id, as `Backend.Judge` gives it, and a score equal to the number of records that say correct, whatever order the answers are visited in |
| `Backend.ScoreBounds` | backend/app.py:126-131 | the score is at most the number of submitted answers and at most the number of stored answers |
| `Backend.SubmitOutcome` | backend/app.py:101-152 | a missing reading id gives a server error; a lookup error is passed on unchanged; the reply succeeds iff the id and the answers are present, the lookup succeeds and every stored question has an answer; then the total is the bank size, the result keys are the submitted ids and the score is at most the number of answers |
| `Backend.SubmitRejectsIdWithoutSep` | backend/app.py:107-110 | an id without `_` gets the 400 "Invalid reading ID format" reply from the submit handler |
| `Backend.SubmitReplyShape` | backend/app.py:123-152 | a successful reply has exactly the submitted ids as result keys; each record holds the submitted answer and the answer `correct_answers.get` gives for that id, and says correct iff the two are equal; the score counts those records and is at most the answer count and at most the total; the total is the size of questions plus vocabulary whatever was submitted |
| `Backend.WithCompleted` | backend/app.py:139-140 | after the dedupe-append the id is in the list, and the list holds exactly the old ids and that id |
| `Backend.WithCompletedIdempotent` | backend/app.py:139-140 | appending the same id again changes nothing, and a list without duplicates stays without duplicates |
| `Backend.SubmittedNotServedAgain` | backend/app.py:138-140 | once a reading id is in `completed_readings`, the reading handler never serves that id again |
| `Backend.UserPerformance.Empty` | backend/app.py:15-22 | the record used for a missing or empty user file has no completed readings and no performance entries |
| `Backend.UserPerformance.Load` | backend/app.py:17-20 | a loaded record holds the file's two lists |
| `Backend.UserPerformance.MarkCompleted` | backend/app.py:138-140 | `completed_readings` is unchanged if the id was there and grows by exactly that id at the end otherwise; `performance` is unchanged |
| `Backend.UserPerformance.Record` | backend/app.py:142-149 | `performance` grows by exactly the one entry; `completed_readings` is unchanged |
| `Backend.SubmitAnswers` | backend/app.py:101-152 | the submit handler returns the specified reply; on success the id is marked completed and exactly one entry with the reading id, score, total and results is appended; on any error the record is unchanged |
| `Quiz.AllAnswered` | frontend/src/components/Quiz.jsx:31-33 | for answers keyed by shown questions, the submit rule implies the answer keys are exactly the question keys and the ids are distinct |
| `Quiz.AllAnsweredIffEveryQuestionAnswered` | frontend/src/components/Quiz.jsx:31-33 | for answers keyed by shown questions, key count = question count iff the ids are distinct and every question has an answer |
| `Quiz.QuizForm.constructor` | frontend/src/components/Quiz.jsx:4 | the form starts with an empty answer map |
| `Quiz.QuizForm.ChooseOption` | frontend/src/components/Quiz.jsx:7-12 | choosing sets the question's entry to the option and leaves every other entry unchanged, so each question has at most one answer; after submission the disabled inputs change nothing |
| `Quiz.QuizForm.Submit` | frontend/src/components/Quiz.jsx:14-17 | `handleSubmit`, reachable only through the button of lines 79-83 (shown before the results, enabled when all are answered): the answers are handed on iff the results are not shown, the ids are distinct and every question has an answer; then the whole map, keyed by exactly the question keys, is sent |
| `Quiz.LabelClass` | frontend/src/components/Quiz.jsx:19-29 | no label before submission, and a non-empty label after |
| `Quiz.RenderedClass` | frontend/src/components/Quiz.jsx:65-68 | the rendered class is `''` before submission and one of `correct`, `user-incorrect`, `incorrect` after |
| `Quiz.LabelAfterSubmit` | frontend/src/components/Quiz.jsx:22-28 | after submission each option gets exactly one of the three labels: `correct` iff it is the recorded correct answer, `user-incorrect` iff it is the user's answer, not the correct one, and the record says wrong, `incorrect` otherwise |
| `Quiz.LabelOfScoredRecord` | frontend/src/components/Quiz.jsx:22-28 | for a record made by the scorer, the user's option is `correct` iff the record says correct and `user-incorrect` iff it says wrong; no other option is `user-incorrect` |
| `Quiz.AtMostOneOfEachMark` | frontend/src/components/Quiz.jsx:54-67 | among options with distinct texts, at most one is `correct` and at most one is `user-incorrect` |
| `Quiz.ScoredRoundLabels` | frontend/src/components/Quiz.jsx:22 | for a round answered in full and scored by the submit handler, every shown question has a result record; an option is `correct` iff it is the level file's answer for that question; the user's option is `correct` or `user-incorrect` as the record says |
| `Quiz.PromptText` | frontend/src/components/Quiz.jsx:51 | the kind comes from the id alone (`Quiz.KindOf`: vocabulary iff the id is above 5); a vocabulary prompt `"word" means:` reads back through `Quiz.WordOfPrompt` to exactly its word, `undefined` when the word is absent; any other question shows its question text unchanged, or nothing when it is absent |
| `Quiz.OptionLetter` | frontend/src/components/Quiz.jsx:70 | the letter depends on the position alone: position i < 4 gets the i-th letter of `a`–`d`, later positions get nothing |

## Left out

- Flask routing, CORS, `jsonify`, HTTP status codes and the fixed message strings: each handler outcome is a `Result` whose error names the reply (backend/app.py:1-8, 36, 69, 100, 155-156).
- File I/O: reading and writing the user file and `json.load` of level files. Level files are a map from level name to parsed file; the existence check on `readings/<level>.json` is map membership; the user file is the `UserPerformance` object, and saving it is its final state.
- `random.choice`: the caller supplies `choice`, and the reading at `choice % |unread|` is picked; only membership in the unread list is promised.
- JSON typing: submitted answers are strings. In the source a `null` answer for an id without a stored answer equals the missing answer and counts as correct, so there the score can exceed the total; `Backend.ScoreBounds` holds only for string answers.
- A JSON `null` field and an absent field are both `None`. In the source a `null` `questions` or `vocabulary` list raises a TypeError instead of counting as empty. Reading objects with keys other than title, text, questions and vocabulary, and values that are not objects, are not modelled. The four lines below name the other places where the source treats `null` differently.
- GetReading: a reading whose `title` or `text` is `null` is served with that `null` field in the source; the model, which cannot tell `null` from absent, gives `ServerError` (the KeyError of an absent field).
- CorrectAnswers: a stored `"answer": null` raises no KeyError in the source; `correct_answers` maps the key to `None` and the submission succeeds. The model treats it as absent, so `CorrectAnswers` is `None` and `SubmitOutcome` gives `ServerError`.
- QuestionBank: a reading object whose fields are all `null` (for example `{"title": null}`) is a non-empty, truthy dict in the source and the handlers go on; in the model it is `IsEmpty()` and gives `ReadingKeyNotFound`.
- PromptText: a `null` word renders as `"null" means:` in the browser; the model interpolates `undefined`, as for an absent word.
- Number-to-key conversion covers integer ids only; float or very large ids are not modelled.
- Concurrent requests racing on the read-modify-write of the user file are not modelled.
- `frontend/src/App.jsx` is not part of this model: axios calls, async orchestration, swallowed errors and the round reset are I/O and React state plumbing.
- `frontend/src/components/Reading.jsx` is not part of this model: it is pure presentation.
- JSX markup, CSS, event objects, the question numbering and the `checked` state of radio inputs in Quiz.jsx are not modelled.
- Dictionary order of the `results` map and of the performance JSON is not modelled: results are a `map`.
