/**
 * A quiz session (app.js:456-537): `startSessionFrom` builds the session
 * record from a saved quiz, the player's buttons move through it and record
 * answers, `showSummary` reports the score and the time, and "restart"
 * starts a new session from the current one.
 *
 * The random draws of `shuffle` are oracles (`Shuffling`), `uid()` is a
 * counter (`Ids.Uid`), and `Date.now()` and the answer inputs are parameters.
 */
module Session {
  import opened Wrappers
  import opened Text
  import opened Ids
  import opened QuizFormat
  import opened Shuffling
  import opened Mistakes

  /** `{ selectedIds, correct }`, one entry of `session.answers`. */
  datatype Answer = Answer(selectedIds: seq<string>, correct: bool)

  // ---------------------------------------------------------------------------
  // Starting a session (app.js:456-466)

  /** `c => ({ id: uid(), text: c.text, correct: c.correct })` over the choices, ids from `firstId` on. */
  function FreshChoices(cs: seq<Choice>, firstId: nat): (r: seq<Choice>)
    ensures |r| == |cs|
  {
    seq(|cs|, k requires 0 <= k < |cs| => Choice(Some(Uid(firstId + k)), cs[k].text, cs[k].correct))
  }

  /** How many `uid()` calls the questions before position `k` take: one per choice. */
  function Offset(qs: seq<Question>, k: nat): nat
    requires k <= |qs|
  {
    if k == 0 then 0 else Offset(qs, k - 1) + |qs[k - 1].choices|
  }

  /** The session copy of one question: the choices shuffled when asked for, then given fresh ids. */
  function SessionQuestion(q: Question, shuffleChoices: bool, rand: nat -> nat, firstId: nat): Question {
    var cs := if shuffleChoices then Shuffled(q.choices, rand) else q.choices;
    Question(q.id, q.text, q.explanation, FreshChoices(cs, firstId))
  }

  /** The `questions.map(...)` of `startSessionFrom`; question `k` draws with `choiceRand(k)`. */
  function Prepared(qs: seq<Question>, shuffleChoices: bool, choiceRand: nat -> nat -> nat, firstId: nat): (r: seq<Question>)
    ensures |r| == |qs|
  {
    seq(|qs|, k requires 0 <= k < |qs| =>
      SessionQuestion(qs[k], shuffleChoices, choiceRand(k), firstId + Offset(qs, k)))
  }

  /** `session.questions` as `startSessionFrom(quiz)` builds it. */
  function SessionQuestions(quiz: Quiz, choiceRand: nat -> nat -> nat, questionRand: nat -> nat, firstId: nat): seq<Question> {
    var ps := Prepared(quiz.questions, quiz.options.shuffleChoices, choiceRand, firstId);
    if quiz.options.shuffleQuestions then Shuffled(ps, questionRand) else ps
  }

  /** One question of the `questions.map(...)`: the choices shuffled when asked for, then fresh ids. */
  method PrepareQuestion(q: Question, shuffleChoices: bool, rand: nat -> nat, firstId: nat) returns (p: Question)
    ensures p == SessionQuestion(q, shuffleChoices, rand, firstId)
  {
    var cs := q.choices;
    if shuffleChoices {
      cs := Shuffle(cs, rand);
    }
    p := Question(q.id, q.text, q.explanation, FreshChoices(cs, firstId));
  }

  /** The `questions.map(...)` loop: one question after the other, each taking the next ids. */
  method Prepare(qs: seq<Question>, shuffleChoices: bool, choiceRand: nat -> nat -> nat, firstId: nat) returns (ps: seq<Question>)
    ensures ps == Prepared(qs, shuffleChoices, choiceRand, firstId)
  {
    ghost var all := Prepared(qs, shuffleChoices, choiceRand, firstId);
    ps := [];
    var next := firstId;
    var k := 0;
    while k < |qs|
      invariant k <= |qs| && next == firstId + Offset(qs, k)
      invariant ps == all[..k]
    {
      var p := PrepareQuestion(qs[k], shuffleChoices, choiceRand(k), next);
      assert p == all[k];
      TakeSnoc(all, k);
      ps := ps + [p];
      next := next + |qs[k].choices|;
      k := k + 1;
    }
    TakeAll(all);
  }

  /** What a session keeps of a choice. */
  datatype ChoiceContent = ChoiceContent(text: string, correct: bool)

  function ContentOf(c: Choice): ChoiceContent {
    ChoiceContent(c.text, c.correct)
  }

  /** What a session keeps of a question: its id, text, explanation and the multiset of its choices. */
  datatype Digest = Digest(id: Option<string>, text: string, explanation: string, choices: multiset<ChoiceContent>)

  function DigestOf(q: Question): Digest {
    Digest(q.id, q.text, q.explanation, multiset(MapSeq(ContentOf, q.choices)))
  }

  lemma FreshChoicesContent(cs: seq<Choice>, firstId: nat)
    ensures MapSeq(ContentOf, FreshChoices(cs, firstId)) == MapSeq(ContentOf, cs)
  {
  }

  /** A session question keeps the id, the text, the explanation and the choices up to order. */
  lemma SessionQuestionDigest(q: Question, shuffleChoices: bool, rand: nat -> nat, firstId: nat)
    ensures DigestOf(SessionQuestion(q, shuffleChoices, rand, firstId)) == DigestOf(q)
  {
    var cs := if shuffleChoices then Shuffled(q.choices, rand) else q.choices;
    FreshChoicesContent(cs, firstId);
    if shuffleChoices {
      MapShuffled(ContentOf, q.choices, rand);
    }
  }

  lemma PreparedDigests(qs: seq<Question>, shuffleChoices: bool, choiceRand: nat -> nat -> nat, firstId: nat)
    ensures MapSeq(DigestOf, Prepared(qs, shuffleChoices, choiceRand, firstId)) == MapSeq(DigestOf, qs)
  {
    var ps := Prepared(qs, shuffleChoices, choiceRand, firstId);
    forall k | 0 <= k < |qs|
      ensures DigestOf(ps[k]) == DigestOf(qs[k])
    {
      SessionQuestionDigest(qs[k], shuffleChoices, choiceRand(k), firstId + Offset(qs, k));
    }
  }

  /**
   * A session has as many questions as the quiz, and the same questions up to
   * order: each with its id, text, explanation and multiset of choices. In
   * the quiz's order when the questions are not shuffled.
   */
  lemma SessionKeepsQuestions(quiz: Quiz, choiceRand: nat -> nat -> nat, questionRand: nat -> nat, firstId: nat)
    ensures |SessionQuestions(quiz, choiceRand, questionRand, firstId)| == |quiz.questions|
    ensures multiset(MapSeq(DigestOf, SessionQuestions(quiz, choiceRand, questionRand, firstId)))
      == multiset(MapSeq(DigestOf, quiz.questions))
    ensures !quiz.options.shuffleQuestions ==>
      MapSeq(DigestOf, SessionQuestions(quiz, choiceRand, questionRand, firstId)) == MapSeq(DigestOf, quiz.questions)
  {
    var ps := Prepared(quiz.questions, quiz.options.shuffleChoices, choiceRand, firstId);
    PreparedDigests(quiz.questions, quiz.options.shuffleChoices, choiceRand, firstId);
    if quiz.options.shuffleQuestions {
      MapShuffled(DigestOf, ps, questionRand);
    }
  }

  /** The questions after `k` start their ids after those of question `k`. */
  lemma {:induction false} OffsetGrows(qs: seq<Question>, k: nat, m: nat)
    requires k < m <= |qs|
    ensures Offset(qs, k) + |qs[k].choices| <= Offset(qs, m)
    decreases m
  {
    if m > k + 1 {
      OffsetGrows(qs, k, m - 1);
    }
  }

  /** Choice `c` of question `k` gets the `uid()` number `firstId + Offset(qs, k) + c`. */
  lemma PreparedChoiceId(qs: seq<Question>, shuffleChoices: bool, choiceRand: nat -> nat -> nat, firstId: nat, k: nat, c: nat)
    requires k < |qs| && c < |qs[k].choices|
    ensures var p := Prepared(qs, shuffleChoices, choiceRand, firstId)[k];
      c < |p.choices| && p.choices[c].id == Some(Uid(firstId + Offset(qs, k) + c))
  {
    var q := qs[k];
    var cs := if shuffleChoices then Shuffled(q.choices, choiceRand(k)) else q.choices;
    assert Prepared(qs, shuffleChoices, choiceRand, firstId)[k] == SessionQuestion(q, shuffleChoices, choiceRand(k), firstId + Offset(qs, k));
  }

  /**
   * Every choice of a new session has an id of its own: the ids are the
   * `uid()` numbers from `firstId` up to `firstId + Offset(qs, |qs|)`, one
   * per choice, never two alike.
   */
  lemma PreparedIdsFresh(qs: seq<Question>, shuffleChoices: bool, choiceRand: nat -> nat -> nat, firstId: nat,
                         k1: nat, c1: nat, k2: nat, c2: nat)
    requires k1 < |qs| && c1 < |qs[k1].choices| && k2 < |qs| && c2 < |qs[k2].choices|
    requires (k1, c1) != (k2, c2)
    ensures var ps := Prepared(qs, shuffleChoices, choiceRand, firstId);
      && c1 < |ps[k1].choices| && c2 < |ps[k2].choices|
      && ps[k1].choices[c1].id != ps[k2].choices[c2].id
      && firstId <= firstId + Offset(qs, k1) + c1 < firstId + Offset(qs, |qs|)
  {
    PreparedChoiceId(qs, shuffleChoices, choiceRand, firstId, k1, c1);
    PreparedChoiceId(qs, shuffleChoices, choiceRand, firstId, k2, c2);
    OffsetGrows(qs, k1, |qs|);
    if k1 < k2 {
      OffsetGrows(qs, k1, k2);
    } else if k2 < k1 {
      OffsetGrows(qs, k2, k1);
    }
    UidInjective(firstId + Offset(qs, k1) + c1, firstId + Offset(qs, k2) + c2);
  }

  // ---------------------------------------------------------------------------
  // Checking an answer (app.js:488-507)

  /** A question with more than one correct choice is answered with checkboxes. */
  predicate Multi(q: Question) {
    |CorrectIds(q.choices)| > 1
  }

  /** `chosen.length === correctIds.length && chosen.every(id => correctIds.includes(id))` */
  predicate AnswerCorrect(chosen: seq<string>, cs: seq<Choice>) {
    var correctIds := CorrectIds(cs);
    |chosen| == |correctIds| && forall i :: 0 <= i < |chosen| ==> chosen[i] in correctIds
  }

  predicate Distinct<T(==)>(s: seq<T>) {
    forall i, j :: 0 <= i < j < |s| ==> s[i] != s[j]
  }

  function Elements<T>(s: seq<T>): set<T> {
    set x | x in s
  }

  lemma {:induction false} DistinctElements<T>(s: seq<T>)
    requires Distinct(s)
    ensures |Elements(s)| == |s|
  {
    if s != [] {
      var init := s[..|s| - 1];
      assert Distinct(init);
      DistinctElements(init);
      assert Elements(s) == Elements(init) + {s[|s| - 1]};
      assert s[|s| - 1] !in Elements(init);
    }
  }

  lemma SubsetSameSize<T>(a: set<T>, b: set<T>)
    requires a <= b && |a| == |b|
    ensures a == b
  {
    assert |b - a| == |b| - |a|;
  }

  /**
   * With distinct chosen ids and distinct choice ids, an answer is correct
   * exactly when the chosen ids are the correct ids: no partial credit, and
   * nothing extra.
   */
  lemma AnswerIsExactSet(chosen: seq<string>, cs: seq<Choice>)
    requires Distinct(chosen) && Distinct(CorrectIds(cs))
    ensures AnswerCorrect(chosen, cs) <==> Elements(chosen) == Elements(CorrectIds(cs))
  {
    var correctIds := CorrectIds(cs);
    DistinctElements(chosen);
    DistinctElements(correctIds);
    if AnswerCorrect(chosen, cs) {
      assert Elements(chosen) <= Elements(correctIds);
      SubsetSameSize(Elements(chosen), Elements(correctIds));
    }
    if Elements(chosen) == Elements(correctIds) {
      forall i | 0 <= i < |chosen|
        ensures chosen[i] in correctIds
      {
        assert chosen[i] in Elements(chosen);
      }
    }
  }

  /** Choices whose ids are pairwise different strings. */
  predicate DistinctKeys(cs: seq<Choice>) {
    forall i, j :: 0 <= i < j < |cs| ==> KeyOf(cs[i].id) != KeyOf(cs[j].id)
  }

  /**
   * On a question with at most one correct choice, the instant-feedback
   * record of a click on choice `k` says what "Check answer" with that one
   * choice selected would say.
   */
  lemma InstantAgreesWithCheck(cs: seq<Choice>, k: nat)
    requires k < |cs| && |CorrectIds(cs)| <= 1 && DistinctKeys(cs)
    ensures AnswerCorrect([KeyOf(cs[k].id)], cs) == cs[k].correct
  {
    var x := KeyOf(cs[k].id);
    CorrectIdsOf(cs, x);
    assert [x][0] == x;
  }

  // ---------------------------------------------------------------------------
  // Scores and the summary (app.js:471-473, 532-537)

  /** `Object.values(session.answers).filter(a => a.correct).length` */
  function CorrectCount(answers: map<string, Answer>): nat {
    |set k | k in answers && answers[k].correct|
  }

  /** `Object.keys(session.answers).length` */
  function Attempted(answers: map<string, Answer>): nat {
    |answers|
  }

  lemma SubsetSize<T>(a: set<T>, b: set<T>)
    requires a <= b
    ensures |a| <= |b|
  {
    assert b == a + (b - a);
  }

  /** The score shown never has more correct answers than attempts. */
  lemma ScoreBounded(answers: map<string, Answer>)
    ensures CorrectCount(answers) <= Attempted(answers)
  {
    SubsetSize((set k | k in answers && answers[k].correct), answers.Keys);
  }

  /** The property names `session.answers[q.id]` can use: the questions' ids as strings. */
  function QuestionKeys(qs: seq<Question>): set<string> {
    set i | 0 <= i < |qs| :: KeyOf(qs[i].id)
  }

  lemma {:induction false} QuestionKeysBounded(qs: seq<Question>)
    ensures |QuestionKeys(qs)| <= |qs|
  {
    if qs != [] {
      var init := qs[..|qs| - 1];
      QuestionKeysBounded(init);
      assert QuestionKeys(qs) <= QuestionKeys(init) + {KeyOf(qs[|qs| - 1].id)} by {
        forall x | x in QuestionKeys(qs)
          ensures x in QuestionKeys(init) + {KeyOf(qs[|qs| - 1].id)}
        {
          var i :| 0 <= i < |qs| && x == KeyOf(qs[i].id);
          if i < |qs| - 1 {
            assert init[i] == qs[i];
          }
        }
      }
      SubsetSize(QuestionKeys(qs), QuestionKeys(init) + {KeyOf(qs[|qs| - 1].id)});
    }
  }

  /** There are never more attempts than distinct question ids. */
  lemma AttemptedBounded(answers: map<string, Answer>, qs: seq<Question>)
    requires answers.Keys <= QuestionKeys(qs)
    ensures Attempted(answers) <= |QuestionKeys(qs)|
  {
    SubsetSize(answers.Keys, QuestionKeys(qs));
  }

  /** `a % b` in JavaScript: the sign of the remainder follows `a`. */
  function JsRem(a: int, b: int): (r: int)
    requires b > 0
    ensures a >= 0 ==> 0 <= r < b
    ensures a < 0 ==> -b < r <= 0
  {
    if a >= 0 then a % b else -((-a) % b)
  }

  /** `Math.floor(elapsed / 60000)` and `Math.floor((elapsed % 60000) / 1000)`. */
  datatype Time = Time(minutes: int, seconds: int)

  function ElapsedTime(elapsed: int): (t: Time)
    ensures elapsed >= 0 ==> 0 <= t.seconds < 60 && 0 <= t.minutes
    ensures elapsed >= 0 ==>
      t.minutes * 60000 + t.seconds * 1000 <= elapsed < t.minutes * 60000 + t.seconds * 1000 + 1000
    ensures elapsed < 0 ==> -60 <= t.seconds <= 0 && t.minutes < 0
  {
    Time(elapsed / 60000, JsRem(elapsed, 60000) / 1000)
  }

  /**
   * `Math.round((correct / total) * 100)`, with exact arithmetic: the
   * nearest whole percentage, halves rounded up; `None` for the `NaN` of a
   * quiz without questions.
   */
  function Accuracy(correct: nat, total: nat): (r: Option<int>)
    ensures total == 0 <==> r.None?
    ensures total > 0 ==> 2 * total * r.value - total <= 200 * correct < 2 * total * r.value + total
    ensures total > 0 && correct <= total ==> 0 <= r.value <= 100
  {
    if total == 0 then None else Some((200 * correct + total) / (2 * total))
  }

  /** The numbers `showSummary` writes: the final score, the accuracy and the time taken. */
  datatype Summary = Summary(correct: nat, total: nat, accuracy: Option<int>, time: Time)

  // ---------------------------------------------------------------------------
  // Restart (app.js:530)

  /** What "restart" hands `startSessionFrom`: the session's questions without any id. */
  function RestartQuizAsWritten(quizId: Option<string>, name: string, options: Options, qs: seq<Question>): (r: Quiz)
    ensures |r.questions| == |qs|
    ensures forall i :: 0 <= i < |qs| ==> r.questions[i].id.None?
  {
    Quiz(quizId, name, options,
      seq(|qs|, i requires 0 <= i < |qs| =>
        Question(None, qs[i].text, qs[i].explanation, MapSeq(Plain, qs[i].choices))))
  }

  /** A choice without its id. */
  function Plain(c: Choice): Choice {
    Choice(None, c.text, c.correct)
  }

  /**
   * After a restart as written every question's key in `session.answers` is
   * "undefined": all questions share one answer record.
   */
  lemma RestartKeysCollide(quizId: Option<string>, name: string, options: Options, qs: seq<Question>,
                           choiceRand: nat -> nat -> nat, questionRand: nat -> nat, firstId: nat)
    ensures var ss := SessionQuestions(RestartQuizAsWritten(quizId, name, options, qs), choiceRand, questionRand, firstId);
      forall i :: 0 <= i < |ss| ==> KeyOf(ss[i].id) == "undefined"
  {
    var quiz := RestartQuizAsWritten(quizId, name, options, qs);
    var ps := Prepared(quiz.questions, options.shuffleChoices, choiceRand, firstId);
    var ss := SessionQuestions(quiz, choiceRand, questionRand, firstId);
    forall i | 0 <= i < |ps|
      ensures ps[i].id.None?
    {
      assert ps[i] == SessionQuestion(quiz.questions[i], options.shuffleChoices, choiceRand(i), firstId + Offset(quiz.questions, i));
    }
    if options.shuffleQuestions {
      ShuffledPermutes(ps, questionRand);
      forall i | 0 <= i < |ss|
        ensures ss[i].id.None?
      {
        assert ss[i] in multiset(ps);
      }
    }
  }

  /** Answering the first two questions of a restarted session leaves one record: the second. */
  lemma RestartLosesAnswers(quizId: Option<string>, name: string, options: Options, qs: seq<Question>,
                            choiceRand: nat -> nat -> nat, questionRand: nat -> nat, firstId: nat, a0: Answer, a1: Answer)
    requires |qs| >= 2
    ensures var ss := SessionQuestions(RestartQuizAsWritten(quizId, name, options, qs), choiceRand, questionRand, firstId);
      var answers := map[][KeyOf(ss[0].id) := a0][KeyOf(ss[1].id) := a1];
      |ss| >= 2 && Attempted(answers) == 1 && answers == map["undefined" := a1]
  {
    var ss := SessionQuestions(RestartQuizAsWritten(quizId, name, options, qs), choiceRand, questionRand, firstId);
    RestartKeysCollide(quizId, name, options, qs, choiceRand, questionRand, firstId);
    assert |ss| >= 2;
    assert KeyOf(ss[0].id) == "undefined" && KeyOf(ss[1].id) == "undefined";
  }

  /** "restart" keeping the ids of the questions. */
  function RestartQuiz(quizId: Option<string>, name: string, options: Options, qs: seq<Question>): Quiz {
    Quiz(quizId, name, options,
      seq(|qs|, i requires 0 <= i < |qs| =>
        Question(qs[i].id, qs[i].text, qs[i].explanation, MapSeq(Plain, qs[i].choices))))
  }

  /**
   * The corrected restart brings back the same questions up to order: each
   * question's id, text, explanation and choices. Questions with different
   * ids keep different answer records.
   */
  lemma RestartKeepsQuestions(quizId: Option<string>, name: string, options: Options, qs: seq<Question>,
                              choiceRand: nat -> nat -> nat, questionRand: nat -> nat, firstId: nat)
    ensures var quiz := RestartQuiz(quizId, name, options, qs);
      multiset(MapSeq(DigestOf, SessionQuestions(quiz, choiceRand, questionRand, firstId))) == multiset(MapSeq(DigestOf, qs))
  {
    var quiz := RestartQuiz(quizId, name, options, qs);
    forall i | 0 <= i < |qs|
      ensures DigestOf(quiz.questions[i]) == DigestOf(qs[i])
    {
      assert MapSeq(ContentOf, MapSeq(Plain, qs[i].choices)) == MapSeq(ContentOf, qs[i].choices);
    }
    assert MapSeq(DigestOf, quiz.questions) == MapSeq(DigestOf, qs);
    SessionKeepsQuestions(quiz, choiceRand, questionRand, firstId);
  }

  // ---------------------------------------------------------------------------
  // The session record

  /** `session`: the record `startSessionFrom` builds and the player's handlers update. */
  class Session {
    var quizId: Option<string>
    var name: string
    var options: Options
    var idx: nat
    var start: int
    var answers: map<string, Answer>
    var questions: seq<Question>

    /** The position is on a question (or 0 for a quiz without questions), and answers belong to questions. */
    predicate Valid()
      reads this
    {
      && (idx == 0 || idx < |questions|)
      && answers.Keys <= QuestionKeys(questions)
    }

    /** `startSessionFrom(quiz)`; `now` is `Date.now()`, the ids come from `firstId` on. */
    constructor StartFrom(quiz: Quiz, choiceRand: nat -> nat -> nat, questionRand: nat -> nat, firstId: nat, now: int)
      ensures quizId == quiz.id && name == quiz.name && options == quiz.options
      ensures idx == 0 && start == now && answers == map[]
      ensures questions == SessionQuestions(quiz, choiceRand, questionRand, firstId)
      ensures Valid()
    {
      var ps := Prepare(quiz.questions, quiz.options.shuffleChoices, choiceRand, firstId);
      if quiz.options.shuffleQuestions {
        ps := Shuffle(ps, questionRand);
      }
      quizId, name, options := quiz.id, quiz.name, quiz.options;
      idx, start, answers, questions := 0, now, map[], ps;
    }

    /** The "previous" button: one question back, nothing at the first. */
    method Prev()
      requires Valid()
      modifies this
      ensures Valid()
      ensures idx == if old(idx) > 0 then old(idx) - 1 else old(idx)
      ensures questions == old(questions) && answers == old(answers)
      ensures quizId == old(quizId) && name == old(name) && options == old(options) && start == old(start)
    {
      if idx > 0 {
        idx := idx - 1;
      }
    }

    /** The "next" button: one question on, nothing at the last. */
    method Next()
      requires Valid()
      modifies this
      ensures Valid()
      ensures idx == if old(idx) + 1 < |questions| then old(idx) + 1 else old(idx)
      ensures questions == old(questions) && answers == old(answers)
      ensures quizId == old(quizId) && name == old(name) && options == old(options) && start == old(start)
    {
      if idx + 1 < |questions| {
        idx := idx + 1;
      }
    }

    /** The entry `recordMistake(q, chosen)` builds; `entryId` is its `uid()`, `at` the time stamp. */
    function MistakeFor(q: Question, chosen: seq<string>, entryId: string, at: string): (m: Mistake)
      reads this
      ensures m.correctIds == CorrectIds(q.choices) && m.chosen == chosen && m.choices == q.choices
    {
      Mistake(entryId, at, quizId, name, q.text, q.choices, chosen, CorrectIds(q.choices))
    }

    /**
     * "Check answer" on the question on screen with the ids of the checked
     * inputs: nothing without a selection; otherwise the answer record of the
     * question replaced, and a mistake logged exactly when it is wrong.
     */
    method CheckAnswer(chosen: seq<string>, log: MistakeLog, entryId: string, at: string)
      requires Valid() && idx < |questions|
      modifies this, log
      ensures Valid()
      ensures idx == old(idx) && questions == old(questions)
      ensures quizId == old(quizId) && name == old(name) && options == old(options) && start == old(start)
      ensures var q := questions[idx];
        && (chosen == [] ==> answers == old(answers))
        && (chosen != [] ==> answers == old(answers)[KeyOf(q.id) := Answer(chosen, AnswerCorrect(chosen, q.choices))])
        && (chosen != [] && !AnswerCorrect(chosen, q.choices) ==>
              log.mistakes == Capped([MistakeFor(q, chosen, entryId, at)] + old(log.mistakes))
              && log.current == [MistakeFor(q, chosen, entryId, at)] + old(log.current))
        && (chosen == [] || AnswerCorrect(chosen, q.choices) ==>
              log.mistakes == old(log.mistakes) && log.current == old(log.current))
    {
      if chosen == [] {
        return;
      }
      var q := questions[idx];
      var correctIds := CorrectIds(q.choices);
      var isCorrect := |chosen| == |correctIds|;
      var i := 0;
      while i < |chosen| && isCorrect
        invariant i <= |chosen|
        invariant isCorrect <==> |chosen| == |correctIds| && forall m :: 0 <= m < i ==> chosen[m] in correctIds
      {
        isCorrect := chosen[i] in correctIds;
        i := i + 1;
      }
      answers := answers[KeyOf(q.id) := Answer(chosen, isCorrect)];
      assert KeyOf(questions[idx].id) in QuestionKeys(questions);
      if !isCorrect {
        log.Record(MistakeFor(q, chosen, entryId, at));
      }
    }

    /**
     * A click on choice `k` of a single-answer question with instant
     * feedback: the answer record becomes that one choice and its flag. No
     * mistake is logged on this path.
     */
    method InstantSelect(k: nat)
      requires Valid() && idx < |questions| && k < |questions[idx].choices|
      modifies this
      ensures Valid()
      ensures idx == old(idx) && questions == old(questions)
      ensures quizId == old(quizId) && name == old(name) && options == old(options) && start == old(start)
      ensures var q := questions[idx]; var c := q.choices[k];
        && (options.instantFeedback && !Multi(q) ==> answers == old(answers)[KeyOf(q.id) := Answer([KeyOf(c.id)], c.correct)])
        && (!options.instantFeedback || Multi(q) ==> answers == old(answers))
    {
      var q := questions[idx];
      if options.instantFeedback && !Multi(q) {
        answers := answers[KeyOf(q.id) := Answer([KeyOf(q.choices[k].id)], q.choices[k].correct)];
        assert KeyOf(questions[idx].id) in QuestionKeys(questions);
      }
    }

    /** `showSummary` at time `now`: correct answers, the number of questions, minutes and seconds. */
    function Summarize(now: int): (s: Summary)
      reads this
      requires Valid()
      ensures s.correct <= Attempted(answers) <= |QuestionKeys(questions)| <= s.total == |questions|
      ensures s.accuracy == Accuracy(s.correct, s.total)
      ensures questions != [] ==> 0 <= s.accuracy.value <= 100
      ensures s.time == ElapsedTime(now - start)
      ensures now >= start ==> 0 <= s.time.seconds < 60
    {
      ScoreBounded(answers);
      AttemptedBounded(answers, questions);
      QuestionKeysBounded(questions);
      var correct := CorrectCount(answers);
      Summary(correct, |questions|, Accuracy(correct, |questions|), ElapsedTime(now - start))
    }

    /** The "restart" button, with the questions' ids kept; the new session replaces this one. */
    method Restart(choiceRand: nat -> nat -> nat, questionRand: nat -> nat, firstId: nat, now: int) returns (s: Session)
      ensures fresh(s)
      ensures s.quizId == quizId && s.name == name && s.options == options
      ensures s.idx == 0 && s.start == now && s.answers == map[]
      ensures s.questions == SessionQuestions(RestartQuiz(quizId, name, options, questions), choiceRand, questionRand, firstId)
      ensures s.Valid()
    {
      s := new Session.StartFrom(RestartQuiz(quizId, name, options, questions), choiceRand, questionRand, firstId, now);
    }

    /** The "restart" button as app.js:530 writes it: the questions lose their ids, so all their answers share one key. */
    method RestartAsWritten(choiceRand: nat -> nat -> nat, questionRand: nat -> nat, firstId: nat, now: int) returns (s: Session)
      ensures fresh(s)
      ensures s.quizId == quizId && s.name == name && s.options == options
      ensures s.idx == 0 && s.start == now && s.answers == map[]
      ensures s.questions == SessionQuestions(RestartQuizAsWritten(quizId, name, options, questions), choiceRand, questionRand, firstId)
      ensures |s.questions| == |questions|
      ensures forall i :: 0 <= i < |s.questions| ==> KeyOf(s.questions[i].id) == "undefined"
      ensures s.Valid()
    {
      var quiz := RestartQuizAsWritten(quizId, name, options, questions);
      s := new Session.StartFrom(quiz, choiceRand, questionRand, firstId, now);
      RestartKeysCollide(quizId, name, options, questions, choiceRand, questionRand, firstId);
      SessionKeepsQuestions(quiz, choiceRand, questionRand, firstId);
    }
  }
}
