/**
 * The reading server: reading ids, the choice of the next unread reading,
 * the question list sent to the browser without answers, and the scoring of
 * a submission together with the update of the learner's performance record.
 *
 * The level files of the readings directory are passed in as a map from
 * level name to parsed file, the learner's performance record is an object
 * whose two lists the submit handler appends to, and the random choice of a
 * reading is an index supplied by the caller.
 */
module Backend {
  import opened Common

  /** The error replies of the three handlers. */
  datatype Error =
    | InvalidLevel            // 404 "Invalid level": no file for the requested level
    | InvalidReadingIdFormat  // 400: the reading id has no `_`
    | ReadingNotFound         // 404: no file for the level named in the reading id
    | ReadingKeyNotFound      // 404: the key is absent from the level file, or its reading is empty
    | ServerError             // 500: an exception the handler does not catch

  datatype Result<+T> = Ok(value: T) | Err(error: Error)

  /** The separator between the level and the key of a reading id. */
  const Sep: char := '_'

  // ---------------------------------------------------------------------
  // Reading ids

  /** Python's `"_".join(parts)`. */
  function Join(parts: seq<string>): string
    requires |parts| >= 1
    decreases |parts|
  {
    if |parts| == 1 then parts[0] else parts[0] + [Sep] + Join(parts[1..])
  }

  /**
   * Python's `s.split('_')`: the pieces between separators, one more piece
   * than there are separators, and joining them back gives `s`.
   */
  function Split(s: string): (parts: seq<string>)
    ensures |parts| >= 1
    ensures forall i :: 0 <= i < |parts| ==> Sep !in parts[i]
    ensures Join(parts) == s
  {
    if |s| == 0 then [""]
    else
      var rest := Split(s[1..]);
      if s[0] == Sep then
        assert [s[0]] + s[1..] == s;
        [""] + rest
      else
        var parts := [[s[0]] + rest[0]] + rest[1..];
        assert parts[1..] == rest[1..];
        assert [s[0]] + s[1..] == s;
        parts
  }

  /**
   * `parse_reading_id`: the first two pieces of the id split at `_`. An id
   * without `_` has no second piece; the source's `parts[1]` then raises
   * the IndexError that the handlers turn into the 400 reply.
   */
  function ParseReadingId(readingId: string): (r: Result<(string, string)>)
    ensures r.Err? <==> Sep !in readingId
    ensures r.Err? ==> r.error == InvalidReadingIdFormat
    ensures r.Ok? ==>
              var (level, key) := r.value;
              Sep !in level && Sep !in key && level + [Sep] + key <= readingId
    ensures r.Ok? ==>
              var n := |r.value.0| + 1 + |r.value.1|;
              n == |readingId| || readingId[n] == Sep
  {
    var parts := Split(readingId);
    if |parts| < 2 then
      Err(InvalidReadingIdFormat)
    else
      JoinPrefix(parts[1..]);
      assert readingId == parts[0] + [Sep] + Join(parts[1..]);
      assert readingId[|parts[0]|] == Sep;
      Ok((parts[0], parts[1]))
  }

  /** The first piece begins the joined text. */
  lemma JoinPrefix(parts: seq<string>)
    requires |parts| >= 1
    ensures parts[0] <= Join(parts)
  {
  }

  lemma {:induction false} SplitWithoutSep(s: string)
    requires Sep !in s
    ensures Split(s) == [s]
  {
    if |s| > 0 {
      assert Sep !in s[1..];
      SplitWithoutSep(s[1..]);
    }
  }

  lemma {:induction false} SplitAtFirstSep(a: string, rest: string)
    requires Sep !in a
    ensures Split(a + [Sep] + rest) == [a] + Split(rest)
    decreases |a|
  {
    var s := a + [Sep] + rest;
    if |a| == 0 {
      assert s[0] == Sep && s[1..] == rest;
    } else {
      assert s[0] == a[0] && s[1..] == a[1..] + [Sep] + rest;
      assert Sep !in a[1..];
      SplitAtFirstSep(a[1..], rest);
      assert [a[0]] + a[1..] == a;
    }
  }

  /** The id built as `f"{level}_{key}"` parses back to `(level, key)` when neither part contains `_`. */
  lemma ParseBuiltId(level: string, key: string)
    requires Sep !in level && Sep !in key
    ensures ParseReadingId(level + [Sep] + key) == Ok((level, key))
  {
    SplitAtFirstSep(level, key);
    SplitWithoutSep(key);
  }

  // ---------------------------------------------------------------------
  // Level files

  /**
   * One reading object of a level file. An absent field is `None`; a
   * reading object with none of these four fields is the empty (falsy) dict.
   */
  datatype ReadingData = ReadingData(
    title: Option<string>,
    text: Option<string>,
    questions: Option<seq<Question>>,
    vocabulary: Option<seq<Question>>)
  {
    predicate IsEmpty() {
      title.None? && text.None? && questions.None? && vocabulary.None?
    }

    /** `reading_data.get("questions", []) + reading_data.get("vocabulary", [])`. */
    function Bank(): (bank: seq<Question>)
      ensures |bank| == |questions.GetOr([])| + |vocabulary.GetOr([])|
      ensures bank[..|questions.GetOr([])|] == questions.GetOr([])
      ensures bank[|questions.GetOr([])|..] == vocabulary.GetOr([])
    {
      questions.GetOr([]) + vocabulary.GetOr([])
    }
  }

  /** A parsed level file: its keys in file order, and the reading under each key. */
  datatype LevelFile = LevelFile(keys: seq<string>, readings: map<string, ReadingData>)
  {
    /** The key list is the key set of the JSON object, each key once. */
    ghost predicate Valid() {
      && (forall k :: k in readings <==> k in keys)
      && (forall i, j :: 0 <= i < j < |keys| ==> keys[i] != keys[j])
    }
  }

  // ---------------------------------------------------------------------
  // GET /api/reading/<level>

  /** `possible_reading_ids`: one id per key of the level file, in file order. */
  function PossibleIds(level: string, keys: seq<string>): (ids: seq<string>)
    ensures |ids| == |keys|
  {
    seq(|keys|, i requires 0 <= i < |keys| => level + [Sep] + keys[i])
  }

  /** The id built for the key at position `i` parses back to the level and that key, as line 59 relies on. */
  lemma PossibleIdsParse(level: string, keys: seq<string>, i: nat)
    requires Sep !in level && i < |keys| && Sep !in keys[i]
    ensures ParseReadingId(PossibleIds(level, keys)[i]) == Ok((level, keys[i]))
  {
    ParseBuiltId(level, keys[i]);
  }

  /** `unread_ids`: the ids not in `completed`, in their original order. */
  function Unread(ids: seq<string>, completed: seq<string>): (r: seq<string>)
    ensures forall x :: x in r <==> x in ids && x !in completed
    ensures |r| <= |ids|
  {
    if |ids| == 0 then []
    else
      var rest := Unread(ids[1..], completed);
      if ids[0] in completed then rest else [ids[0]] + rest
  }

  /** The filter keeps order: filtering a concatenation is concatenating the filtered parts. */
  lemma {:induction false} UnreadAppend(a: seq<string>, b: seq<string>, completed: seq<string>)
    ensures Unread(a + b, completed) == Unread(a, completed) + Unread(b, completed)
    decreases |a|
  {
    if |a| == 0 {
      assert a + b == b;
    } else {
      assert (a + b)[1..] == a[1..] + b;
      UnreadAppend(a[1..], b, completed);
    }
  }

  /** A list none of whose ids is completed passes the filter unchanged. */
  lemma {:induction false} UnreadOfFresh(ids: seq<string>, completed: seq<string>)
    requires forall i :: 0 <= i < |ids| ==> ids[i] !in completed
    ensures Unread(ids, completed) == ids
    decreases |ids|
  {
    if |ids| > 0 {
      UnreadOfFresh(ids[1..], completed);
    }
  }

  /** The reply of GET /api/reading/<level>. */
  datatype ReadingReply =
    | AllCompleted                                  // {"message": "You have completed all readings for this level!"}
    | Passage(id: string, title: string, text: string)

  /**
   * `get_reading`: the completed-all message when no id of the level is
   * unread, otherwise the passage of one unread id. `choice` stands for
   * `random.choice`: the index `choice % |unread|` is the one picked.
   */
  function GetReading(files: map<string, LevelFile>, level: string, completed: seq<string>, choice: nat)
    : (r: Result<ReadingReply>)
    ensures r == Err(InvalidLevel) <==> level !in files
    ensures r == Ok(AllCompleted) <==>
              level in files && forall id :: id in PossibleIds(level, files[level].keys) ==> id in completed
    ensures r.Ok? && r.value.Passage? ==>
              r.value.id in PossibleIds(level, files[level].keys) && r.value.id !in completed
  {
    if level !in files then Err(InvalidLevel)
    else
      var file := files[level];
      var unread := Unread(PossibleIds(level, file.keys), completed);
      if |unread| == 0 then Ok(AllCompleted)
      else
        var selected := unread[choice % |unread|];
        assert selected in unread;
        match ParseReadingId(selected)
        case Err(_) => Err(ServerError)
        case Ok((_, key)) =>
          if key !in file.readings then Err(ServerError)
          else
            var data := file.readings[key];
            if data.title.None? || data.text.None? then Err(ServerError)
            else Ok(Passage(selected, data.title.value, data.text.value))
  }

  /**
   * With ids whose parts contain no `_` and readings that carry a title and
   * a text, a level with an unread reading always yields a passage: the
   * title and text stored under the key the served id was built from.
   */
  lemma GetReadingServesUnread(files: map<string, LevelFile>, level: string, completed: seq<string>, choice: nat)
    requires level in files && files[level].Valid()
    requires Sep !in level
    requires forall k :: k in files[level].keys ==> Sep !in k
    requires forall k :: k in files[level].readings ==>
               files[level].readings[k].title.Some? && files[level].readings[k].text.Some?
    requires exists k :: k in files[level].keys && level + [Sep] + k !in completed
    ensures var r := GetReading(files, level, completed, choice);
            r.Ok? && r.value.Passage? &&
            exists k :: k in files[level].readings && r.value.id == level + [Sep] + k &&
                        r.value.id !in completed &&
                        r.value.title == files[level].readings[k].title.value &&
                        r.value.text == files[level].readings[k].text.value
  {
    var file := files[level];
    var ids := PossibleIds(level, file.keys);
    var k0 :| k0 in file.keys && level + [Sep] + k0 !in completed;
    var j :| 0 <= j < |file.keys| && file.keys[j] == k0;
    assert ids[j] == level + [Sep] + k0;
    var unread := Unread(ids, completed);
    assert ids[j] in unread;
    var selected := unread[choice % |unread|];
    assert selected in ids;
    var i :| 0 <= i < |ids| && ids[i] == selected;
    var key := file.keys[i];
    PossibleIdsParse(level, file.keys, i);
    var data := file.readings[key];
    assert GetReading(files, level, completed, choice) == Ok(Passage(selected, data.title.value, data.text.value));
  }

  // ---------------------------------------------------------------------
  // The question bank of a reading, shared by the questions and submit handlers

  /**
   * Lines shared by `get_questions` and `submit_answers`: parse the id, find
   * the level file, find a non-empty reading under the key, and return its
   * questions followed by its vocabulary items.
   */
  function QuestionBank(files: map<string, LevelFile>, readingId: string): (r: Result<seq<Question>>)
    ensures r.Err? ==> r.error in {InvalidReadingIdFormat, ReadingNotFound, ReadingKeyNotFound}
  {
    match ParseReadingId(readingId)
    case Err(e) => Err(e)
    case Ok((level, key)) =>
      if level !in files then Err(ReadingNotFound)
      else if key !in files[level].readings || files[level].readings[key].IsEmpty() then Err(ReadingKeyNotFound)
      else Ok(files[level].readings[key].Bank())
  }

  // ---------------------------------------------------------------------
  // GET /api/questions/<reading_id>

  /**
   * The questions with their `answer` field removed: same length, same
   * order, and every other field unchanged.
   */
  function Stripped(qs: seq<Question>): (r: seq<Question>)
    ensures |r| == |qs|
    ensures forall i :: 0 <= i < |r| ==> r[i].answer.None?
    ensures forall i :: 0 <= i < |r| ==>
              r[i].id == qs[i].id && r[i].prompt == qs[i].prompt &&
              r[i].word == qs[i].word && r[i].options == qs[i].options
  {
    seq(|qs|, i requires 0 <= i < |qs| => qs[i].(answer := None))
  }

  /** Stripping keeps the questions before the vocabulary items. */
  lemma StrippedAppend(a: seq<Question>, b: seq<Question>)
    ensures Stripped(a + b) == Stripped(a) + Stripped(b)
  {
    assert forall i :: 0 <= i < |a + b| ==> Stripped(a + b)[i] == (Stripped(a) + Stripped(b))[i];
  }

  /** The loop `for q in all_questions: if 'answer' in q: del q['answer']`, in place. */
  method RemoveAnswers(a: array<Question>)
    modifies a
    ensures a[..] == Stripped(old(a[..]))
  {
    var i := 0;
    while i < a.Length
      invariant 0 <= i <= a.Length
      invariant forall k :: 0 <= k < i ==> a[k] == old(a[k]).(answer := None)
      invariant forall k :: i <= k < a.Length ==> a[k] == old(a[k])
    {
      if a[i].answer.Some? {
        a[i] := a[i].(answer := None);
      }
      i := i + 1;
    }
  }

  /** `get_questions`: the bank of the reading without answers, or the bank's error. */
  method GetQuestions(files: map<string, LevelFile>, readingId: string) returns (r: Result<seq<Question>>)
    ensures QuestionBank(files, readingId).Err? ==> r == Err(QuestionBank(files, readingId).error)
    ensures QuestionBank(files, readingId).Ok? ==> r == Ok(Stripped(QuestionBank(files, readingId).value))
  {
    var bank := QuestionBank(files, readingId);
    if bank.Err? {
      return Err(bank.error);
    }
    var qs := bank.value;
    var a := new Question[|qs|](i requires 0 <= i < |qs| => qs[i]);
    assert a[..] == qs;
    RemoveAnswers(a);
    r := Ok(a[..]);
  }

  /** An id without `_` gets the 400 reply from the questions handler. */
  lemma QuestionsRejectIdWithoutSep(files: map<string, LevelFile>, readingId: string)
    requires Sep !in readingId
    ensures QuestionBank(files, readingId) == Err(InvalidReadingIdFormat)
  {
  }

  /**
   * For an id `level_key` as the reading handler builds it: a missing level
   * file gives `ReadingNotFound`, a missing or empty reading gives
   * `ReadingKeyNotFound`, and otherwise the bank is the reading's questions
   * followed by its vocabulary items, absent lists counting as empty.
   */
  lemma QuestionBankOfBuiltId(files: map<string, LevelFile>, level: string, key: string)
    requires Sep !in level && Sep !in key
    ensures level !in files ==> QuestionBank(files, level + [Sep] + key) == Err(ReadingNotFound)
    ensures level in files && (key !in files[level].readings || files[level].readings[key].IsEmpty()) ==>
              QuestionBank(files, level + [Sep] + key) == Err(ReadingKeyNotFound)
    ensures level in files && key in files[level].readings && !files[level].readings[key].IsEmpty() ==>
              var data := files[level].readings[key];
              QuestionBank(files, level + [Sep] + key) == Ok(data.questions.GetOr([]) + data.vocabulary.GetOr([]))
  {
    ParseBuiltId(level, key);
  }

  // ---------------------------------------------------------------------
  // POST /api/submit: scoring

  /**
   * `correct_answers = {str(q['id']): q['answer'] for q in all_questions}`:
   * `None` when some question has no answer (the KeyError of `q['answer']`),
   * otherwise one key per question id, a later question overriding an
   * earlier one with the same id.
   */
  function CorrectAnswers(qs: seq<Question>): (m: Option<map<string, string>>)
    ensures m.Some? <==> forall i :: 0 <= i < |qs| ==> qs[i].answer.Some?
    ensures m.Some? ==> m.value.Keys == QuestionKeys(qs)
    decreases |qs|
  {
    if |qs| == 0 then Some(map[])
    else
      var init := qs[..|qs| - 1];
      var last := qs[|qs| - 1];
      assert forall i :: 0 <= i < |init| ==> init[i] == qs[i];
      assert QuestionKeys(qs) == QuestionKeys(init) + {IdKey(last.id)};
      match CorrectAnswers(init)
      case None => None
      case Some(m) =>
        if last.answer.None? then None else Some(m[IdKey(last.id) := last.answer.value])
  }

  /** When the question ids are distinct, each question's key holds its own answer. */
  lemma {:induction false} CorrectAnswerOfQuestion(qs: seq<Question>, i: nat)
    requires i < |qs|
    requires DistinctIds(qs)
    requires CorrectAnswers(qs).Some?
    ensures IdKey(qs[i].id) in CorrectAnswers(qs).value
    ensures Some(CorrectAnswers(qs).value[IdKey(qs[i].id)]) == qs[i].answer
    decreases |qs|
  {
    var init := qs[..|qs| - 1];
    var last := qs[|qs| - 1];
    if i < |qs| - 1 {
      assert init[i] == qs[i];
      CorrectAnswerOfQuestion(init, i);
      if IdKey(last.id) == IdKey(qs[i].id) {
        IdKeyInjective(last.id, qs[i].id);
      }
    }
  }

  /** `correct_answers.get(question_id)`. */
  function Lookup(m: map<string, string>, k: string): (r: Option<string>)
    ensures r.Some? <==> k in m
    ensures r.Some? ==> r.value == m[k]
  {
    if k in m then Some(m[k]) else None
  }

  /** The result record of one submitted answer against the expected one. */
  function Judge(userAnswer: string, expected: Option<string>): (e: ResultEntry)
    ensures e.userAnswer == userAnswer && e.correctAnswer == expected
    ensures e.isCorrect <==> expected.Some? && expected.value == userAnswer
  {
    ResultEntry(userAnswer, expected, Some(userAnswer) == expected)
  }

  /** The `results` map: one record per submitted question id. */
  function Results(answers: map<string, string>, correct: map<string, string>): (results: map<string, ResultEntry>)
    ensures results.Keys == answers.Keys
    ensures forall k :: k in results ==>
              && results[k].userAnswer == answers[k]
              && results[k].correctAnswer == Lookup(correct, k)
              && (results[k].isCorrect <==> k in correct && correct[k] == answers[k])
  {
    map k | k in answers :: Judge(answers[k], Lookup(correct, k))
  }

  /** The ids whose record says correct. */
  function CorrectIds(results: map<string, ResultEntry>): set<string>
  {
    set k | k in results && results[k].isCorrect
  }

  /** `score`: the number of records that say correct. */
  function CorrectCount(results: map<string, ResultEntry>): (n: nat)
  {
    |CorrectIds(results)|
  }

  lemma CorrectCountAdd(results: map<string, ResultEntry>, k: string, e: ResultEntry)
    requires k !in results
    ensures CorrectCount(results[k := e]) == CorrectCount(results) + (if e.isCorrect then 1 else 0)
  {
    if e.isCorrect {
      assert CorrectIds(results[k := e]) == CorrectIds(results) + {k};
    } else {
      assert CorrectIds(results[k := e]) == CorrectIds(results);
    }
  }

  /**
   * The scoring loop of `submit_answers`: one result record per submitted
   * answer, and the count of correct ones. The answers are visited in an
   * arbitrary order; neither output depends on it.
   */
  method Score(answers: map<string, string>, correct: map<string, string>)
    returns (score: nat, results: map<string, ResultEntry>)
    ensures results == Results(answers, correct)
    ensures score == CorrectCount(results)
  {
    score, results := 0, map[];
    var todo := answers.Keys;
    while todo != {}
      invariant todo <= answers.Keys
      invariant results.Keys == answers.Keys - todo
      invariant forall k :: k in results ==> results[k] == Judge(answers[k], Lookup(correct, k))
      invariant score == CorrectCount(results)
      decreases todo
    {
      var k :| k in todo;
      var isCorrect := Some(answers[k]) == Lookup(correct, k);
      var entry := ResultEntry(answers[k], Lookup(correct, k), isCorrect);
      CorrectCountAdd(results, k, entry);
      if isCorrect {
        score := score + 1;
      }
      results := results[k := entry];
      todo := todo - {k};
    }
  }

  /** The score never exceeds the number of submitted answers, nor the number of question ids with an answer. */
  lemma ScoreBounds(answers: map<string, string>, correct: map<string, string>)
    ensures CorrectCount(Results(answers, correct)) <= |answers|
    ensures CorrectCount(Results(answers, correct)) <= |correct|
  {
    var results := Results(answers, correct);
    assert results.Keys == answers.Keys;
    SubsetCard(CorrectIds(results), answers.Keys);
    SubsetCard(CorrectIds(results), correct.Keys);
  }

  // ---------------------------------------------------------------------
  // POST /api/submit: the reply and the performance record

  /** The JSON body of a submission; a field that is absent or of the wrong type is `None`. */
  datatype Submission = Submission(readingId: Option<string>, answers: Option<map<string, string>>)

  /** The reply of a successful submission (its fixed `message` is left out). */
  datatype ScoreReply = ScoreReply(score: nat, total: nat, results: map<string, ResultEntry>)

  /** One entry of the `performance` list. */
  datatype PerformanceEntry = PerformanceEntry(
    readingId: string, score: nat, totalQuestions: nat, results: map<string, ResultEntry>)

  /**
   * The reply of `submit_answers`. A missing reading id fails at the call of
   * `split` and missing answers at the call of `items()`: both are uncaught.
   */
  function SubmitOutcome(files: map<string, LevelFile>, submission: Submission): (r: Result<ScoreReply>)
    ensures submission.readingId.None? ==> r == Err(ServerError)
    ensures submission.readingId.Some? && QuestionBank(files, submission.readingId.value).Err? ==>
              r == Err(QuestionBank(files, submission.readingId.value).error)
    ensures r.Ok? <==>
              && submission.readingId.Some? && submission.answers.Some?
              && QuestionBank(files, submission.readingId.value).Ok?
              && CorrectAnswers(QuestionBank(files, submission.readingId.value).value).Some?
    ensures r.Ok? ==>
              && r.value.total == |QuestionBank(files, submission.readingId.value).value|
              && r.value.results.Keys == submission.answers.value.Keys
              && r.value.score <= |submission.answers.value|
  {
    match submission.readingId
    case None => Err(ServerError)
    case Some(readingId) =>
      match QuestionBank(files, readingId)
      case Err(e) => Err(e)
      case Ok(bank) =>
        match CorrectAnswers(bank)
        case None => Err(ServerError)
        case Some(correct) =>
          match submission.answers
          case None => Err(ServerError)
          case Some(answers) =>
            var results := Results(answers, correct);
            ScoreBounds(answers, correct);
            Ok(ScoreReply(CorrectCount(results), |bank|, results))
  }

  /** An id without `_` gets the 400 reply from the submit handler. */
  lemma SubmitRejectsIdWithoutSep(files: map<string, LevelFile>, readingId: string, answers: Option<map<string, string>>)
    requires Sep !in readingId
    ensures SubmitOutcome(files, Submission(Some(readingId), answers)) == Err(InvalidReadingIdFormat)
  {
    QuestionsRejectIdWithoutSep(files, readingId);
  }

  /**
   * A successful reply has one record per submitted id, each holding the
   * answer stored for that id (or none) and saying whether the submitted
   * answer equals it; its score counts the correct records
   * and is at most the number of answers and at most the total, which is
   * the size of the question bank whatever was submitted.
   */
  lemma SubmitReplyShape(files: map<string, LevelFile>, readingId: string, answers: map<string, string>)
    requires SubmitOutcome(files, Submission(Some(readingId), Some(answers))).Ok?
    ensures var reply := SubmitOutcome(files, Submission(Some(readingId), Some(answers))).value;
            var bank := QuestionBank(files, readingId).value;
            && reply.results.Keys == answers.Keys
            && (forall k :: k in reply.results ==>
                  reply.results[k].userAnswer == answers[k] &&
                  reply.results[k].correctAnswer == Lookup(CorrectAnswers(bank).value, k) &&
                  (reply.results[k].isCorrect <==> Some(answers[k]) == reply.results[k].correctAnswer))
            && reply.score == |set k | k in reply.results && reply.results[k].isCorrect|
            && reply.total == |bank|
            && reply.score <= |answers|
            && reply.score <= reply.total
  {
    var bank := QuestionBank(files, readingId).value;
    var correct := CorrectAnswers(bank).value;
    ScoreBounds(answers, correct);
    QuestionKeysCard(bank);
  }

  /** `completed_readings` after the dedupe-append of `reading_id`. */
  function WithCompleted(completed: seq<string>, readingId: string): (r: seq<string>)
    ensures readingId in r
    ensures forall x :: x in r <==> x in completed || x == readingId
  {
    if readingId in completed then completed else completed + [readingId]
  }

  /** The dedupe-append is idempotent and keeps a list free of duplicates. */
  lemma WithCompletedIdempotent(completed: seq<string>, readingId: string)
    ensures WithCompleted(WithCompleted(completed, readingId), readingId) == WithCompleted(completed, readingId)
    ensures (forall i, j :: 0 <= i < j < |completed| ==> completed[i] != completed[j]) ==>
            var r := WithCompleted(completed, readingId);
            forall i, j :: 0 <= i < j < |r| ==> r[i] != r[j]
  {
  }

  /** Once a reading is submitted, the reading handler never serves it again. */
  lemma SubmittedNotServedAgain(files: map<string, LevelFile>, level: string, completed: seq<string>,
                                readingId: string, choice: nat)
    ensures var r := GetReading(files, level, WithCompleted(completed, readingId), choice);
            r.Ok? && r.value.Passage? ==> r.value.id != readingId
  {
  }

  /**
   * The learner's performance record (the user data file). The
   * constructor gives the record used when the file is missing or empty.
   */
  class UserPerformance {
    var completedReadings: seq<string>
    var performance: seq<PerformanceEntry>

    constructor Empty()
      ensures completedReadings == [] && performance == []
    {
      completedReadings, performance := [], [];
    }

    constructor Load(completedReadings: seq<string>, performance: seq<PerformanceEntry>)
      ensures this.completedReadings == completedReadings && this.performance == performance
    {
      this.completedReadings, this.performance := completedReadings, performance;
    }

    /** Append `readingId` to `completed_readings` unless it is already there. */
    method MarkCompleted(readingId: string)
      modifies this
      ensures completedReadings == WithCompleted(old(completedReadings), readingId)
      ensures |completedReadings| == |old(completedReadings)| + (if readingId in old(completedReadings) then 0 else 1)
      ensures performance == old(performance)
    {
      if readingId !in completedReadings {
        completedReadings := completedReadings + [readingId];
      }
    }

    /** Append one entry to `performance`. */
    method Record(entry: PerformanceEntry)
      modifies this
      ensures performance == old(performance) + [entry]
      ensures completedReadings == old(completedReadings)
    {
      performance := performance + [entry];
    }
  }

  /**
   * `submit_answers`: on success the reading is marked completed, exactly
   * one performance entry is appended, and the reply is returned; on any
   * error the record is left as it was.
   */
  method SubmitAnswers(store: UserPerformance, files: map<string, LevelFile>, submission: Submission)
    returns (r: Result<ScoreReply>)
    modifies store
    ensures r == SubmitOutcome(files, submission)
    ensures r.Ok? ==>
              store.completedReadings == WithCompleted(old(store.completedReadings), submission.readingId.value) &&
              store.performance == old(store.performance) +
                [PerformanceEntry(submission.readingId.value, r.value.score, r.value.total, r.value.results)]
    ensures r.Err? ==>
              store.completedReadings == old(store.completedReadings) && store.performance == old(store.performance)
  {
    if submission.readingId.None? {
      return Err(ServerError);
    }
    var readingId := submission.readingId.value;
    var bank := QuestionBank(files, readingId);
    if bank.Err? {
      return Err(bank.error);
    }
    var correct := CorrectAnswers(bank.value);
    if correct.None? || submission.answers.None? {
      return Err(ServerError);
    }
    var score, results := Score(submission.answers.value, correct.value);
    store.MarkCompleted(readingId);
    var total := |bank.value|;
    store.Record(PerformanceEntry(readingId, score, total, results));
    r := Ok(ScoreReply(score, total, results));
  }
}
