/**
 * Values shared by the reading server and the quiz form: the optional
 * JSON field, the question record as stored in a level file, the per-question
 * result record the scorer produces, and the decimal text of a question id,
 * which is the key both sides use for it (Python's `str(q['id'])` on the
 * server, JavaScript's property-key conversion of `q.id` in the browser).
 */
module Common {

  /** A JSON field that may be absent (or `null`). */
  datatype Option<+T> = None | Some(value: T) {
    /** Python's `d.get(k, default)` on this field. */
    function GetOr(default: T): T {
      match this
      case Some(v) => v
      case None => default
    }
  }

  /**
   * One question object of a level file. `prompt` is the `question` text of
   * a comprehension question, `word` the target word of a vocabulary
   * question; `answer` is the correct option, present in the file and
   * removed before the question is sent to the browser.
   */
  datatype Question = Question(
    id: int,
    prompt: Option<string>,
    word: Option<string>,
    options: seq<string>,
    answer: Option<string>)

  /** The record the scorer stores under a question id in `results`. */
  datatype ResultEntry = ResultEntry(
    userAnswer: string,
    correctAnswer: Option<string>,
    isCorrect: bool)

  /** The character of a decimal digit. */
  function DigitChar(d: nat): (c: char)
    requires d < 10
    ensures '0' <= c <= '9'
  {
    "0123456789"[d]
  }

  /** Decimal digits of a natural number, most significant first, no leading zeros. */
  function Digits(n: nat): (s: string)
    ensures 0 < |s|
    ensures forall i :: 0 <= i < |s| ==> '0' <= s[i] <= '9'
    ensures n < 10 <==> |s| == 1
    decreases n
  {
    if n < 10 then [DigitChar(n)] else Digits(n / 10) + [DigitChar(n % 10)]
  }

  /** The text of an integer id as a JSON object key: `str(id)` in Python, `String(id)` in JavaScript. */
  function IdKey(id: int): (k: string)
    ensures 0 < |k| && (k[0] == '-' <==> id < 0)
  {
    if id < 0 then "-" + Digits(-id) else Digits(id)
  }

  lemma {:induction false} DigitsInjective(n: nat, m: nat)
    requires Digits(n) == Digits(m)
    ensures n == m
    decreases n
  {
    if n < 10 {
      assert "0123456789"[n] == Digits(m)[0] == "0123456789"[m];
    } else {
      var dn, dm := Digits(n), Digits(m);
      assert dn[|dn| - 1] == dm[|dm| - 1];
      assert "0123456789"[n % 10] == "0123456789"[m % 10];
      assert dn[..|dn| - 1] == Digits(n / 10);
      assert dm[..|dm| - 1] == Digits(m / 10);
      DigitsInjective(n / 10, m / 10);
    }
  }

  /** Two different ids never share a key, so a map keyed by `IdKey` holds one entry per question id. */
  lemma IdKeyInjective(a: int, b: int)
    requires IdKey(a) == IdKey(b)
    ensures a == b
  {
    if a < 0 && b < 0 {
      assert Digits(-a) == IdKey(a)[1..] == IdKey(b)[1..] == Digits(-b);
      DigitsInjective(-a, -b);
    } else if a >= 0 && b >= 0 {
      DigitsInjective(a, b);
    }
  }

  /** A subset of a finite set is no larger; one of the same size is the whole set. */
  lemma SubsetCard<T>(a: set<T>, b: set<T>)
    ensures a <= b ==> |a| <= |b|
    ensures a <= b && |a| == |b| ==> a == b
  {
    if a <= b {
      assert b == a + (b - a);
      assert a * (b - a) == {};
    }
  }

  /** The keys of a question list: the id key of each question. */
  function QuestionKeys(qs: seq<Question>): set<string>
  {
    set i | 0 <= i < |qs| :: IdKey(qs[i].id)
  }

  /** No two questions of the list share an id. */
  predicate DistinctIds(qs: seq<Question>)
  {
    forall i, j :: 0 <= i < j < |qs| ==> qs[i].id != qs[j].id
  }

  /** The key of the last question is new exactly when no earlier question has its id. */
  lemma QuestionKeysSnoc(init: seq<Question>, last: Question)
    ensures QuestionKeys(init + [last]) == QuestionKeys(init) + {IdKey(last.id)}
    ensures IdKey(last.id) in QuestionKeys(init) <==> exists i :: 0 <= i < |init| && init[i].id == last.id
    ensures DistinctIds(init + [last]) <==>
              DistinctIds(init) && forall i :: 0 <= i < |init| ==> init[i].id != last.id
  {
    var qs := init + [last];
    assert forall i :: 0 <= i < |init| ==> qs[i] == init[i];
    assert qs[|init|] == last;
    if IdKey(last.id) in QuestionKeys(init) {
      var i :| 0 <= i < |init| && IdKey(init[i].id) == IdKey(last.id);
      IdKeyInjective(init[i].id, last.id);
    }
  }

  /** A list has as many keys as questions exactly when its ids are distinct, and fewer otherwise. */
  lemma {:induction false} QuestionKeysCard(qs: seq<Question>)
    ensures |QuestionKeys(qs)| <= |qs|
    ensures |QuestionKeys(qs)| == |qs| <==> DistinctIds(qs)
    decreases |qs|
  {
    if |qs| > 0 {
      var init := qs[..|qs| - 1];
      var last := qs[|qs| - 1];
      assert init + [last] == qs;
      QuestionKeysSnoc(init, last);
      QuestionKeysCard(init);
    }
  }
}
