/**
 * The quiz form of the browser client: the answer map it keeps while the
 * learner picks options, the rule that enables the submit button, the label
 * each option gets once the scored results are shown, the prompt of each
 * question, and the letters of its options.
 *
 * The `submitted` flag and the results are properties handed down by the
 * page; they appear here as parameters.
 */
module Quiz {
  import opened Common
  import Backend

  /**
   * `allAnswered`: the answer map has as many keys as there are questions.
   * For a map keyed by the shown questions this means its keys are exactly
   * the question keys and no two questions share an id.
   */
  predicate AllAnswered(answers: map<string, string>, questions: seq<Question>)
    ensures answers.Keys <= QuestionKeys(questions) && AllAnswered(answers, questions) ==>
              answers.Keys == QuestionKeys(questions) && DistinctIds(questions)
  {
    QuestionKeysCard(questions);
    SubsetCard(answers.Keys, QuestionKeys(questions));
    |answers.Keys| == |questions|
  }

  /**
   * For an answer map keyed by question ids, the submit rule holds exactly
   * when the ids are distinct and every question has an answer; two
   * questions with the same id keep the button disabled for good.
   */
  lemma AllAnsweredIffEveryQuestionAnswered(answers: map<string, string>, questions: seq<Question>)
    requires answers.Keys <= QuestionKeys(questions)
    ensures AllAnswered(answers, questions) <==>
              DistinctIds(questions) &&
              forall i :: 0 <= i < |questions| ==> IdKey(questions[i].id) in answers
  {
    QuestionKeysCard(questions);
    SubsetCard(answers.Keys, QuestionKeys(questions));
    if DistinctIds(questions) && forall i :: 0 <= i < |questions| ==> IdKey(questions[i].id) in answers {
      assert QuestionKeys(questions) <= answers.Keys;
      assert answers.Keys == QuestionKeys(questions);
    }
  }

  /** The state of one quiz form: the questions it shows and the answers chosen so far. */
  class QuizForm {
    const questions: seq<Question>
    var answers: map<string, string>

    /** Every key of the answer map is the key of a shown question. */
    ghost predicate Valid()
      reads this
    {
      answers.Keys <= QuestionKeys(questions)
    }

    /** The form starts with no answers. */
    constructor (questions: seq<Question>)
      ensures this.questions == questions && answers == map[]
      ensures Valid()
    {
      this.questions := questions;
      answers := map[];
    }

    /**
     * `handleOptionChange`, fired by the radio input of option `oi` of
     * question `qi`: the answer for that question becomes that option and no
     * other answer changes. Once the results are shown the inputs are
     * disabled and no change fires.
     */
    method ChooseOption(submitted: bool, qi: nat, oi: nat)
      requires Valid()
      requires qi < |questions| && oi < |questions[qi].options|
      modifies this
      ensures Valid()
      ensures submitted ==> answers == old(answers)
      ensures !submitted ==>
                var key := IdKey(questions[qi].id);
                && answers.Keys == old(answers).Keys + {key}
                && answers[key] == questions[qi].options[oi]
                && forall k :: k in old(answers) && k != key ==> answers[k] == old(answers)[k]
    {
      if !submitted {
        answers := answers[IdKey(questions[qi].id) := questions[qi].options[oi]];
      }
    }

    /**
     * `handleSubmit`: the submit button is shown only before the results
     * and enabled only when every question is answered; pressing it hands
     * the whole answer map to the page.
     */
    method Submit(submitted: bool) returns (sent: Option<map<string, string>>)
      requires Valid()
      ensures sent.Some? <==>
                !submitted && DistinctIds(questions) &&
                forall i :: 0 <= i < |questions| ==> IdKey(questions[i].id) in answers
      ensures sent.Some? ==> sent.value == answers && sent.value.Keys == QuestionKeys(questions)
    {
      AllAnsweredIffEveryQuestionAnswered(answers, questions);
      if !submitted && AllAnswered(answers, questions) {
        sent := Some(answers);
      } else {
        sent := None;
      }
    }
  }

  // ---------------------------------------------------------------------
  // Option labels after submission

  /** The CSS class of an option label. */
  datatype Label = Unmarked | Correct | UserIncorrect | Incorrect
  {
    function ClassName(): string {
      match this
      case Unmarked => ""
      case Correct => "correct"
      case UserIncorrect => "user-incorrect"
      case Incorrect => "incorrect"
    }
  }

  /**
   * `getLabelClass`: no class before submission; afterwards the class that
   * the result record of the question gives the option. The source reads
   * the record unguarded, so a shown question must have one.
   */
  function LabelClass(submitted: bool, results: map<string, ResultEntry>, questionId: int, option: string)
    : (l: Label)
    requires submitted ==> IdKey(questionId) in results
    ensures l == Unmarked <==> !submitted
  {
    if !submitted then Unmarked
    else
      var info := results[IdKey(questionId)];
      var isCorrectAnswer := Some(option) == info.correctAnswer;
      var isUserAnswer := option == info.userAnswer;
      if isCorrectAnswer then Correct
      else if isUserAnswer && !info.isCorrect then UserIncorrect
      else Incorrect
  }

  /** The `className` of an option's label element. */
  function RenderedClass(submitted: bool, results: map<string, ResultEntry>, questionId: int, option: string)
    : (c: string)
    requires submitted ==> IdKey(questionId) in results
    ensures !submitted ==> c == ""
    ensures submitted ==> c in {"correct", "user-incorrect", "incorrect"}
  {
    if submitted then LabelClass(submitted, results, questionId, option).ClassName() else ""
  }

  /**
   * After submission every option gets exactly one of the three marks:
   * `correct` exactly when it is the recorded correct answer, and
   * `user-incorrect` exactly when it is the learner's answer, it is not the
   * correct answer and the record says the answer was wrong.
   */
  lemma LabelAfterSubmit(results: map<string, ResultEntry>, questionId: int, option: string)
    requires IdKey(questionId) in results
    ensures var l := LabelClass(true, results, questionId, option);
            var info := results[IdKey(questionId)];
            && (l == Correct || l == UserIncorrect || l == Incorrect)
            && (l == Correct <==> info.correctAnswer == Some(option))
            && (l == UserIncorrect <==> option == info.userAnswer && info.correctAnswer != Some(option) && !info.isCorrect)
            && (l == Incorrect <==> info.correctAnswer != Some(option) && (option != info.userAnswer || info.isCorrect))
  {
  }

  /**
   * For a record made by the scorer, the learner's own option is marked
   * `correct` when the answer was right and `user-incorrect` when it was
   * wrong; any other option is `correct` exactly when it is the stored answer.
   */
  lemma LabelOfScoredRecord(userAnswer: string, expected: Option<string>, questionId: int, option: string)
    ensures var results := map[IdKey(questionId) := Backend.Judge(userAnswer, expected)];
            var l := LabelClass(true, results, questionId, option);
            && (option == userAnswer ==>
                  (l == Correct <==> results[IdKey(questionId)].isCorrect) &&
                  (l == UserIncorrect <==> !results[IdKey(questionId)].isCorrect))
            && (option != userAnswer ==> (l == Correct <==> expected == Some(option)) && l != UserIncorrect)
  {
  }

  /** Among options with distinct texts at most one is marked `correct` and at most one `user-incorrect`. */
  lemma AtMostOneOfEachMark(results: map<string, ResultEntry>, questionId: int, options: seq<string>, i: nat, j: nat)
    requires IdKey(questionId) in results
    requires i < j < |options| && options[i] != options[j]
    ensures !(LabelClass(true, results, questionId, options[i]) == Correct &&
              LabelClass(true, results, questionId, options[j]) == Correct)
    ensures !(LabelClass(true, results, questionId, options[i]) == UserIncorrect &&
              LabelClass(true, results, questionId, options[j]) == UserIncorrect)
  {
  }

  /**
   * The scorer's reply is what the labels consume. When the learner submits
   * an answer for every question the questions handler served, the reply has
   * a record for every shown question, so no label lookup fails; an option is
   * marked `correct` exactly when it is the answer stored in the level file
   * for that question; and the learner's own option is marked `correct` or
   * `user-incorrect` according to the record.
   */
  lemma ScoredRoundLabels(files: map<string, Backend.LevelFile>, readingId: string, bank: seq<Question>,
                          answers: map<string, string>, reply: Backend.ScoreReply, i: nat, option: string)
    requires Backend.QuestionBank(files, readingId) == Backend.Ok(bank)
    requires answers.Keys <= QuestionKeys(Backend.Stripped(bank))
    requires AllAnswered(answers, Backend.Stripped(bank))
    requires Backend.SubmitOutcome(files, Backend.Submission(Some(readingId), Some(answers))) == Backend.Ok(reply)
    requires i < |bank|
    ensures var key := IdKey(bank[i].id);
            && key in answers && key in reply.results
            && (LabelClass(true, reply.results, bank[i].id, option) == Correct <==> Some(option) == bank[i].answer)
            && (option == answers[key] ==>
                  (LabelClass(true, reply.results, bank[i].id, option) == Correct <==> reply.results[key].isCorrect) &&
                  (LabelClass(true, reply.results, bank[i].id, option) == UserIncorrect <==> !reply.results[key].isCorrect))
  {
    var shown := Backend.Stripped(bank);
    assert Backend.CorrectAnswers(bank).Some?;
    var correct := Backend.CorrectAnswers(bank).value;
    var results := Backend.Results(answers, correct);
    var submission := Backend.Submission(Some(readingId), Some(answers));
    assert Backend.CorrectAnswers(bank) == Some(correct);
    assert Backend.SubmitOutcome(files, submission) == Backend.Ok(Backend.ScoreReply(Backend.CorrectCount(results), |bank|, results));
    AllAnsweredIffEveryQuestionAnswered(answers, shown);
    assert DistinctIds(bank) by {
      assert forall a, b :: 0 <= a < b < |bank| ==> shown[a].id == bank[a].id && shown[b].id == bank[b].id;
    }
    Backend.CorrectAnswerOfQuestion(bank, i);
    var key := IdKey(bank[i].id);
    assert shown[i].id == bank[i].id;
    assert key in answers;
    assert reply.results[key] == Backend.Judge(answers[key], Some(correct[key]));
    LabelOfScoredRecord(answers[key], Some(correct[key]), bank[i].id, option);
  }

  // ---------------------------------------------------------------------
  // Question prompt and option letters

  /** Ids above this one are vocabulary items. */
  const VocabularyAbove: int := 5

  /** The two kinds of question the prompt distinguishes. */
  datatype PromptKind = Comprehension | Vocabulary

  /** The kind is decided by the id alone, at render time. */
  function KindOf(q: Question): (k: PromptKind)
    ensures k == Vocabulary <==> q.id > VocabularyAbove
  {
    if q.id > VocabularyAbove then Vocabulary else Comprehension
  }

  /** The suffix of the vocabulary template `"word" means:`. */
  const MeansSuffix: string := "\" means:"

  /**
   * The prompt line of a question: the vocabulary template around the word,
   * or the question text. An absent word is interpolated as `undefined`; an
   * absent question text renders as nothing. A vocabulary prompt reads back
   * to exactly the interpolated word; any other prompt is the question text
   * unchanged.
   */
  function PromptText(q: Question): (t: string)
    ensures KindOf(q) == Vocabulary ==> WordOfPrompt(t) == Some(q.word.GetOr("undefined"))
    ensures KindOf(q) == Comprehension ==> t == q.prompt.GetOr("")
  {
    if KindOf(q) == Vocabulary then
      var w := q.word.GetOr("undefined");
      var t := "\"" + w + MeansSuffix;
      assert t[1..|t| - |MeansSuffix|] == w;
      assert t[|t| - |MeansSuffix|..] == MeansSuffix;
      t
    else q.prompt.GetOr("")
  }

  /** The word a vocabulary prompt shows, read back from the template. */
  function WordOfPrompt(t: string): Option<string>
  {
    if |t| >= 1 + |MeansSuffix| && t[0] == '"' && t[|t| - |MeansSuffix|..] == MeansSuffix
    then Some(t[1..|t| - |MeansSuffix|])
    else None
  }

  /** `optionLetters`. */
  const OptionLetters: string := "abcd"

  /**
   * The letter shown before the option at position `i`: taken from the
   * four-letter table by position alone; past the table nothing is shown.
   */
  function OptionLetter(i: nat): (r: string)
    ensures i < 4 ==> |r| == 1 && 'a' <= r[0] <= 'd' && r[0] as int - 'a' as int == i
    ensures i >= 4 ==> r == ""
  {
    if i < |OptionLetters| then [OptionLetters[i]] else ""
  }
}
