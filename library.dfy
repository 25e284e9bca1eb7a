/**
 * The saved-quiz list of the page (`quizzes`) and the id of the active quiz
 * (`activeId`): saving the parsed draft (app.js:624-640), deleting a quiz
 * (app.js:74-79) and importing quizzes from JSON (app.js:651-659).
 *
 * `confirm(...)` answers, the name field and `uid()` (a counter, see `Ids`)
 * are parameters; `safeSave`/`localStorage`, rendering and `JSON.parse` are
 * not part of this model. `activeId` is `None` for `null`.
 */
module Library {
  import opened Wrappers
  import opened Text
  import opened Ids
  import opened QuizFormat

  // ---------------------------------------------------------------------------
  // Lookups

  /** `list.find(p)`, as the position of the first element that passes. */
  function FindFirst<T>(list: seq<T>, p: T -> bool): (r: Option<nat>)
    ensures r.Some? ==> r.value < |list| && p(list[r.value])
    ensures r.Some? ==> forall i :: 0 <= i < r.value ==> !p(list[i])
    ensures r.None? ==> forall i :: 0 <= i < |list| ==> !p(list[i])
  {
    if list == [] then None
    else if p(list[0]) then Some(0)
    else match FindFirst(list[1..], p)
      case None => None
      case Some(i) => Some(i + 1)
  }

  /** `q => norm(q.name) === normalized` */
  function TitleIs(norm: string -> string, normalized: string): Quiz -> bool {
    (q: Quiz) => norm(q.name) == normalized
  }

  /** `quizzes.find(q => q.id === id)` finds something. */
  predicate HasId(qs: seq<Quiz>, id: Option<string>) {
    exists i :: 0 <= i < |qs| && qs[i].id == id
  }

  /** `quizzes.map(q => q.id === id ? q2 : q)` */
  function Replace(qs: seq<Quiz>, id: Option<string>, q2: Quiz): (r: seq<Quiz>)
    ensures |r| == |qs|
  {
    seq(|qs|, i requires 0 <= i < |qs| => if qs[i].id == id then q2 else qs[i])
  }

  /** Every saved quiz has an id that is a non-empty string. */
  predicate AllIdentified(qs: seq<Quiz>) {
    forall i :: 0 <= i < |qs| ==> Truthy(qs[i].id)
  }

  /** `activeId` is `null` or the id of a saved quiz. */
  predicate ActiveListed(qs: seq<Quiz>, active: Option<string>) {
    active.None? || HasId(qs, active)
  }

  // ---------------------------------------------------------------------------
  // Saving the draft (app.js:624-640)

  /** Which of the status messages `saveOrOverwrite` ends with. */
  datatype Outcome =
    | NoDraft           // "Parse your text first"
    | Canceled          // "Save canceled"
    | Overwritten       // "Overwritten": the quiz with the same title replaced
    | SavedOverwritten  // "Saved (overwritten)": the quiz with the draft's id replaced
    | SavedNew          // "Saved": a new quiz at the front

  /** The list, the active id and the `uid()` counter after a save. */
  datatype Saved = Saved(outcome: Outcome, quizzes: seq<Quiz>, activeId: Option<string>, nextId: nat)

  /** `$("#quizName").value.trim() || parsedDraft.name` */
  function Title(nameField: string, draft: Quiz): string {
    if Trim(nameField) != "" then Trim(nameField) else draft.name
  }

  /** `activeId && parsedDraft.id && activeId === parsedDraft.id` */
  predicate EditingSame(active: Option<string>, draft: Quiz) {
    Truthy(active) && Truthy(draft.id) && active == draft.id
  }

  /**
   * `saveOrOverwrite` once there is a draft `d`: `title` is the name it is
   * saved under and `key` that name normalised (`norm(title)`).
   */
  function SaveDraft(quizzes: seq<Quiz>, active: Option<string>, d: Quiz, title: string, norm: string -> string, key: string,
                     confirmed: bool, nextId: nat): Saved
  {
    var byTitle := FindFirst(quizzes, TitleIs(norm, key));
    if !EditingSame(active, d) && byTitle.Some? then
      var e := quizzes[byTitle.value];
      if !confirmed then Saved(Canceled, quizzes, active, nextId)
      else Saved(Overwritten, Replace(quizzes, e.id, Quiz(e.id, e.name, d.options, d.questions)), e.id, nextId)
    else if Truthy(d.id) && HasId(quizzes, d.id) then
      Saved(SavedOverwritten, Replace(quizzes, d.id, Quiz(d.id, title, d.options, d.questions)), d.id, nextId)
    else
      var q := Quiz(Some(Uid(nextId)), title, d.options, d.questions);
      Saved(SavedNew, [q] + quizzes, q.id, nextId + 1)
  }

  /** What `saveOrOverwrite` does; `confirmed` is the answer to the overwrite question. */
  function SaveSpec(quizzes: seq<Quiz>, active: Option<string>, draft: Option<Quiz>, nameField: string,
                    confirmed: bool, nextId: nat): (s: Saved)
    ensures draft.None? ==> s == Saved(NoDraft, quizzes, active, nextId)
  {
    if draft.None? then Saved(NoDraft, quizzes, active, nextId)
    else
      var title := Title(nameField, draft.value);
      SaveDraft(quizzes, active, draft.value, title, Norm, Norm(title), confirmed, nextId)
  }

  /** The overwrite question is asked, and a "no" cancels, exactly when another quiz already has the title. */
  lemma SaveCancels(quizzes: seq<Quiz>, active: Option<string>, d: Quiz, title: string, norm: string -> string, key: string,
                    confirmed: bool, nextId: nat)
    ensures var s := SaveDraft(quizzes, active, d, title, norm, key, confirmed, nextId);
      (s.outcome == Canceled <==>
        !confirmed && !EditingSame(active, d) && exists i :: 0 <= i < |quizzes| && norm(quizzes[i].name) == key)
      && (s.outcome == Canceled ==> s.quizzes == quizzes && s.activeId == active && s.nextId == nextId)
      && s.outcome != NoDraft
  {
    if exists i :: 0 <= i < |quizzes| && norm(quizzes[i].name) == key {
      var i :| 0 <= i < |quizzes| && norm(quizzes[i].name) == key;
      assert TitleIs(norm, key)(quizzes[i]);
    }
  }

  /**
   * A save that goes through makes the saved quiz active: the active id is
   * a non-empty string and the list holds a quiz with that id and the draft's
   * questions and options.
   */
  lemma SaveStoresDraft(quizzes: seq<Quiz>, active: Option<string>, d: Quiz, title: string, norm: string -> string, key: string,
                        confirmed: bool, nextId: nat)
    requires AllIdentified(quizzes)
    ensures var s := SaveDraft(quizzes, active, d, title, norm, key, confirmed, nextId);
      s.outcome != Canceled ==>
        && Truthy(s.activeId)
        && exists i :: 0 <= i < |s.quizzes| && s.quizzes[i].id == s.activeId
             && s.quizzes[i].questions == d.questions && s.quizzes[i].options == d.options
  {
    var s := SaveDraft(quizzes, active, d, title, norm, key, confirmed, nextId);
    if s.outcome == Overwritten {
      var k := FindFirst(quizzes, TitleIs(norm, key)).value;
      assert s.quizzes[k].id == s.activeId;
    } else if s.outcome == SavedOverwritten {
      var k :| 0 <= k < |quizzes| && quizzes[k].id == d.id;
      assert s.quizzes[k].id == s.activeId;
    } else if s.outcome == SavedNew {
      assert s.quizzes[0].id == s.activeId;
    }
  }

  /**
   * An overwrite keeps the length of the list and every quiz with another
   * id; a new quiz goes to the front of the unchanged list.
   */
  lemma SaveKeepsOthers(quizzes: seq<Quiz>, active: Option<string>, d: Quiz, title: string, norm: string -> string, key: string,
                        confirmed: bool, nextId: nat)
    ensures var s := SaveDraft(quizzes, active, d, title, norm, key, confirmed, nextId);
      && (s.outcome in {Overwritten, SavedOverwritten} ==>
            |s.quizzes| == |quizzes|
            && forall i :: 0 <= i < |quizzes| && quizzes[i].id != s.activeId ==> s.quizzes[i] == quizzes[i])
      && (s.outcome == SavedNew ==> s.quizzes[1..] == quizzes && s.quizzes[0].name == title)
  {
  }

  /** A new quiz never repeats a title that another saved quiz already has, unless the draft is the active quiz. */
  lemma SaveNewTitleUnused(quizzes: seq<Quiz>, active: Option<string>, d: Quiz, title: string, norm: string -> string, key: string,
                           confirmed: bool, nextId: nat)
    ensures var s := SaveDraft(quizzes, active, d, title, norm, key, confirmed, nextId);
      s.outcome == SavedNew && !EditingSame(active, d) ==>
        forall i :: 0 <= i < |quizzes| ==> norm(quizzes[i].name) != key
  {
    var s := SaveDraft(quizzes, active, d, title, norm, key, confirmed, nextId);
    if s.outcome == SavedNew && !EditingSame(active, d) {
      forall i | 0 <= i < |quizzes|
        ensures norm(quizzes[i].name) != key
      {
        assert !TitleIs(norm, key)(quizzes[i]);
      }
    }
  }

  /** Saving keeps every quiz identified and the active id listed. */
  lemma SavePreserves(quizzes: seq<Quiz>, active: Option<string>, d: Quiz, title: string, norm: string -> string, key: string,
                      confirmed: bool, nextId: nat)
    requires AllIdentified(quizzes) && ActiveListed(quizzes, active)
    ensures var s := SaveDraft(quizzes, active, d, title, norm, key, confirmed, nextId);
      AllIdentified(s.quizzes) && ActiveListed(s.quizzes, s.activeId)
  {
    var s := SaveDraft(quizzes, active, d, title, norm, key, confirmed, nextId);
    SaveStoresDraft(quizzes, active, d, title, norm, key, confirmed, nextId);
    if s.outcome == Overwritten {
      var k := FindFirst(quizzes, TitleIs(norm, key)).value;
      assert Truthy(quizzes[k].id);
    }
  }

  // ---------------------------------------------------------------------------
  // Deleting a quiz (app.js:74-79)

  /** `quizzes.filter(x => x.id !== id)` */
  function Without(qs: seq<Quiz>, id: Option<string>): (r: seq<Quiz>)
    ensures |r| <= |qs|
    ensures forall i :: 0 <= i < |r| ==> r[i].id != id
  {
    if qs == [] then []
    else (if qs[0].id != id then [qs[0]] else []) + Without(qs[1..], id)
  }

  /** The filter keeps every quiz with another id. */
  lemma {:induction false} WithoutKeeps(qs: seq<Quiz>, id: Option<string>, i: nat)
    requires i < |qs| && qs[i].id != id
    ensures qs[i] in Without(qs, id)
  {
    if i > 0 {
      WithoutKeeps(qs[1..], id, i - 1);
    }
  }

  /** `quizzes[0]?.id || null` */
  function Fallback(qs: seq<Quiz>): (r: Option<string>)
    ensures r.None? || (qs != [] && r == qs[0].id)
  {
    if qs != [] && Truthy(qs[0].id) then qs[0].id else None
  }

  /** Deleting keeps every quiz identified and the active id listed. */
  lemma DeletePreserves(qs: seq<Quiz>, active: Option<string>, id: Option<string>)
    requires AllIdentified(qs) && ActiveListed(qs, active)
    ensures var rest := Without(qs, id);
      var active' := if active.Some? && active == id then Fallback(rest) else active;
      AllIdentified(rest) && ActiveListed(rest, active')
  {
    var rest := Without(qs, id);
    forall j | 0 <= j < |rest|
      ensures Truthy(rest[j].id)
    {
      assert rest[j] in qs by { WithoutSubset(qs, id); }
    }
    if !(active.Some? && active == id) && active.Some? {
      var k :| 0 <= k < |qs| && qs[k].id == active;
      WithoutKeeps(qs, id, k);
    } else if Fallback(rest).Some? {
      assert rest[0].id == Fallback(rest);
    }
  }

  lemma {:induction false} WithoutSubset(qs: seq<Quiz>, id: Option<string>)
    ensures forall q :: q in Without(qs, id) ==> q in qs
  {
    if qs != [] {
      WithoutSubset(qs[1..], id);
    }
  }

  // ---------------------------------------------------------------------------
  // Importing quizzes (app.js:651-659)

  /** A value and the `uid()` counter after it was built. */
  datatype Filled<T> = Filled(value: T, next: nat)

  /** `x.id || uid()` */
  function FillId(id: Option<string>, n: nat): (r: Filled<Option<string>>)
    ensures r.next == if Truthy(id) then n else n + 1
  {
    if Truthy(id) then Filled(id, n) else Filled(Some(Uid(n)), n + 1)
  }

  /** `qq.choices.forEach(c => { c.id = c.id || uid(); })` */
  function FillChoices(cs: seq<Choice>, n: nat): (r: Filled<seq<Choice>>)
    ensures |r.value| == |cs| && n <= r.next
  {
    if cs == [] then Filled([], n)
    else
      var c := FillId(cs[0].id, n);
      var rest := FillChoices(cs[1..], c.next);
      Filled([Choice(c.value, cs[0].text, cs[0].correct)] + rest.value, rest.next)
  }

  /** `q.questions.forEach(qq => { qq.id = qq.id || uid(); ...choices })`: each question's id before its choices' ids. */
  function FillQuestions(qs: seq<Question>, n: nat): (r: Filled<seq<Question>>)
    ensures |r.value| == |qs| && n <= r.next
  {
    if qs == [] then Filled([], n)
    else
      var i := FillId(qs[0].id, n);
      var cs := FillChoices(qs[0].choices, i.next);
      var rest := FillQuestions(qs[1..], cs.next);
      Filled([Question(i.value, qs[0].text, qs[0].explanation, cs.value)] + rest.value, rest.next)
  }

  /** One quiz of the import: its id first, then its questions. */
  function FillQuiz(q: Quiz, n: nat): (r: Filled<Quiz>)
    ensures n <= r.next
  {
    var i := FillId(q.id, n);
    var qs := FillQuestions(q.questions, i.next);
    Filled(Quiz(i.value, q.name, q.options, qs.value), qs.next)
  }

  /** `arr.forEach(...)` over the imported quizzes in order. */
  function FillAll(arr: seq<Quiz>, n: nat): (r: Filled<seq<Quiz>>)
    ensures |r.value| == |arr| && n <= r.next
  {
    if arr == [] then Filled([], n)
    else
      var init := FillAll(arr[..|arr| - 1], n);
      var q := FillQuiz(arr[|arr| - 1], init.next);
      Filled(init.value + [q.value], q.next)
  }

  /**
   * `a` is what filling made of the id `b`: a non-empty string, `b` itself
   * when `b` was one, otherwise a `uid()` number from `lo` up to `hi`.
   */
  predicate IdFilled(a: Option<string>, b: Option<string>, lo: nat, hi: nat) {
    && Truthy(a)
    && (Truthy(b) ==> a == b)
    && (!Truthy(b) ==> exists k :: lo <= k < hi && a == Some(Uid(k)))
  }

  predicate ChoicesFilled(cs2: seq<Choice>, cs: seq<Choice>, lo: nat, hi: nat) {
    && |cs2| == |cs|
    && forall i :: 0 <= i < |cs| ==>
         cs2[i].text == cs[i].text && cs2[i].correct == cs[i].correct && IdFilled(cs2[i].id, cs[i].id, lo, hi)
  }

  predicate QuestionFilled(q2: Question, q: Question, lo: nat, hi: nat) {
    && q2.text == q.text && q2.explanation == q.explanation
    && IdFilled(q2.id, q.id, lo, hi)
    && ChoicesFilled(q2.choices, q.choices, lo, hi)
  }

  predicate QuestionsFilled(qs2: seq<Question>, qs: seq<Question>, lo: nat, hi: nat) {
    |qs2| == |qs| && forall i :: 0 <= i < |qs| ==> QuestionFilled(qs2[i], qs[i], lo, hi)
  }

  predicate QuizFilled(q2: Quiz, q: Quiz, lo: nat, hi: nat) {
    && q2.name == q.name && q2.options == q.options
    && IdFilled(q2.id, q.id, lo, hi)
    && QuestionsFilled(q2.questions, q.questions, lo, hi)
  }

  lemma IdWiden(a: Option<string>, b: Option<string>, lo: nat, hi: nat, lo': nat, hi': nat)
    requires IdFilled(a, b, lo, hi) && lo' <= lo && hi <= hi'
    ensures IdFilled(a, b, lo', hi')
  {
  }

  lemma ChoicesWiden(cs2: seq<Choice>, cs: seq<Choice>, lo: nat, hi: nat, lo': nat, hi': nat)
    requires ChoicesFilled(cs2, cs, lo, hi) && lo' <= lo && hi <= hi'
    ensures ChoicesFilled(cs2, cs, lo', hi')
  {
    forall i | 0 <= i < |cs|
      ensures IdFilled(cs2[i].id, cs[i].id, lo', hi')
    {
      IdWiden(cs2[i].id, cs[i].id, lo, hi, lo', hi');
    }
  }

  lemma QuestionsWiden(qs2: seq<Question>, qs: seq<Question>, lo: nat, hi: nat, lo': nat, hi': nat)
    requires QuestionsFilled(qs2, qs, lo, hi) && lo' <= lo && hi <= hi'
    ensures QuestionsFilled(qs2, qs, lo', hi')
  {
    forall i | 0 <= i < |qs|
      ensures QuestionFilled(qs2[i], qs[i], lo', hi')
    {
      IdWiden(qs2[i].id, qs[i].id, lo, hi, lo', hi');
      ChoicesWiden(qs2[i].choices, qs[i].choices, lo, hi, lo', hi');
    }
  }

  lemma FillIdFilled(id: Option<string>, n: nat)
    ensures IdFilled(FillId(id, n).value, id, n, FillId(id, n).next)
  {
    if !Truthy(id) {
      assert FillId(id, n).value == Some(Uid(n));
    }
  }

  /** Filling the choices changes only the missing ids, each to a new `uid()` number. */
  lemma {:induction false} FillChoicesFilled(cs: seq<Choice>, n: nat)
    ensures ChoicesFilled(FillChoices(cs, n).value, cs, n, FillChoices(cs, n).next)
  {
    if cs != [] {
      var c := FillId(cs[0].id, n);
      var rest := FillChoices(cs[1..], c.next);
      var r := FillChoices(cs, n);
      FillIdFilled(cs[0].id, n);
      IdWiden(c.value, cs[0].id, n, c.next, n, r.next);
      FillChoicesFilled(cs[1..], c.next);
      ChoicesWiden(rest.value, cs[1..], c.next, rest.next, n, r.next);
      forall i | 0 <= i < |cs|
        ensures r.value[i].text == cs[i].text && r.value[i].correct == cs[i].correct
        ensures IdFilled(r.value[i].id, cs[i].id, n, r.next)
      {
        if i > 0 {
          assert r.value[i] == rest.value[i - 1] && cs[i] == cs[1..][i - 1];
        }
      }
    }
  }

  lemma {:induction false} FillQuestionsFilled(qs: seq<Question>, n: nat)
    ensures QuestionsFilled(FillQuestions(qs, n).value, qs, n, FillQuestions(qs, n).next)
  {
    if qs != [] {
      var i := FillId(qs[0].id, n);
      var cs := FillChoices(qs[0].choices, i.next);
      var rest := FillQuestions(qs[1..], cs.next);
      var r := FillQuestions(qs, n);
      FillIdFilled(qs[0].id, n);
      IdWiden(i.value, qs[0].id, n, i.next, n, r.next);
      FillChoicesFilled(qs[0].choices, i.next);
      ChoicesWiden(cs.value, qs[0].choices, i.next, cs.next, n, r.next);
      FillQuestionsFilled(qs[1..], cs.next);
      QuestionsWiden(rest.value, qs[1..], cs.next, rest.next, n, r.next);
      forall k | 0 <= k < |qs|
        ensures QuestionFilled(r.value[k], qs[k], n, r.next)
      {
        if k > 0 {
          assert r.value[k] == rest.value[k - 1] && qs[k] == qs[1..][k - 1];
        }
      }
    }
  }

  /**
   * An imported quiz keeps its name, options, texts, explanations and
   * correct flags; every id it had stays, and every missing or empty id,
   * of the quiz, a question or a choice, becomes a new `uid()` number.
   */
  lemma FillQuizFilled(q: Quiz, n: nat)
    ensures QuizFilled(FillQuiz(q, n).value, q, n, FillQuiz(q, n).next)
  {
    var i := FillId(q.id, n);
    var qs := FillQuestions(q.questions, i.next);
    FillIdFilled(q.id, n);
    IdWiden(i.value, q.id, n, i.next, n, qs.next);
    FillQuestionsFilled(q.questions, i.next);
    QuestionsWiden(qs.value, q.questions, i.next, qs.next, n, qs.next);
  }

  /** Every imported quiz is filled, with new ids from the counter's range; so all of them are identified. */
  lemma {:induction false} FillAllFilled(arr: seq<Quiz>, n: nat)
    ensures var r := FillAll(arr, n);
      (forall i :: 0 <= i < |arr| ==> QuizFilled(r.value[i], arr[i], n, r.next))
      && AllIdentified(r.value)
  {
    if arr != [] {
      var init := FillAll(arr[..|arr| - 1], n);
      var q := FillQuiz(arr[|arr| - 1], init.next);
      var r := FillAll(arr, n);
      FillAllFilled(arr[..|arr| - 1], n);
      FillQuizFilled(arr[|arr| - 1], init.next);
      forall i | 0 <= i < |arr|
        ensures QuizFilled(r.value[i], arr[i], n, r.next)
      {
        var a := if i < |arr| - 1 then init.next else q.next;
        var lo := if i < |arr| - 1 then n else init.next;
        assert QuizFilled(r.value[i], arr[i], lo, a);
        IdWiden(r.value[i].id, arr[i].id, lo, a, n, r.next);
        QuestionsWiden(r.value[i].questions, arr[i].questions, lo, a, n, r.next);
      }
    }
  }

  // ---------------------------------------------------------------------------
  // The list

  /** `quizzes` and `activeId`. */
  class QuizLibrary {
    var quizzes: seq<Quiz>
    var activeId: Option<string>

    /** The list at page load: the stored quizzes, the first one active if it has an id. */
    constructor (stored: seq<Quiz>)
      ensures quizzes == stored && activeId == Fallback(stored)
      ensures ActiveListed(quizzes, activeId)
    {
      quizzes := stored;
      activeId := Fallback(stored);
    }

    /** `saveOrOverwrite()` with the draft `parsedDraft`, the name field and the answer to `confirm`. */
    method SaveOrOverwrite(draft: Option<Quiz>, nameField: string, confirmed: bool, nextId: nat)
      returns (outcome: Outcome, next: nat)
      modifies this
      ensures var s := SaveSpec(old(quizzes), old(activeId), draft, nameField, confirmed, nextId);
        outcome == s.outcome && quizzes == s.quizzes && activeId == s.activeId && next == s.nextId
    {
      if draft.None? {
        return NoDraft, nextId;
      }
      var title := Title(nameField, draft.value);
      outcome, next := Store(draft.value, title, Norm, Norm(title), confirmed, nextId);
    }

    /** The body of `saveOrOverwrite` once there is a draft, its title and the title normalised by `norm`. */
    method Store(d: Quiz, title: string, norm: string -> string, key: string, confirmed: bool, nextId: nat)
      returns (outcome: Outcome, next: nat)
      modifies this
      ensures var s := SaveDraft(old(quizzes), old(activeId), d, title, norm, key, confirmed, nextId);
        outcome == s.outcome && quizzes == s.quizzes && activeId == s.activeId && next == s.nextId
    {
      next := nextId;
      var byTitle := FindFirst(quizzes, TitleIs(norm, key));
      if !EditingSame(activeId, d) && byTitle.Some? {
        var e := quizzes[byTitle.value];
        if !confirmed {
          return Canceled, next;
        }
        quizzes := Replace(quizzes, e.id, Quiz(e.id, e.name, d.options, d.questions));
        activeId := e.id;
        return Overwritten, next;
      }
      var existsById := Truthy(d.id) && HasId(quizzes, d.id);
      var id := d.id;
      if !existsById {
        id := Some(Uid(next));
        next := next + 1;
      }
      var toSave := Quiz(id, title, d.options, d.questions);
      if existsById {
        quizzes := Replace(quizzes, toSave.id, toSave);
        outcome := SavedOverwritten;
      } else {
        quizzes := [toSave] + quizzes;
        outcome := SavedNew;
      }
      activeId := toSave.id;
    }

    /** The "Delete" button of the quiz with id `id`, once the user has answered `confirm`. */
    method Delete(id: Option<string>, confirmed: bool)
      modifies this
      ensures confirmed ==> quizzes == Without(old(quizzes), id)
      ensures confirmed ==> activeId == if old(activeId).Some? && old(activeId) == id then Fallback(quizzes) else old(activeId)
      ensures !confirmed ==> quizzes == old(quizzes) && activeId == old(activeId)
    {
      if confirmed {
        quizzes := Without(quizzes, id);
        if activeId.Some? && activeId == id {
          activeId := Fallback(quizzes);
        }
      }
    }

    /** The import of the quizzes `arr`: ids filled in order, then `arr.concat(quizzes)`. */
    method Import(arr: seq<Quiz>, nextId: nat) returns (next: nat)
      modifies this
      ensures quizzes == FillAll(arr, nextId).value + old(quizzes)
      ensures next == FillAll(arr, nextId).next
      ensures activeId == old(activeId)
    {
      var filled: seq<Quiz> := [];
      next := nextId;
      var k := 0;
      while k < |arr|
        invariant k <= |arr|
        invariant Filled(filled, next) == FillAll(arr[..k], nextId)
      {
        var q := FillQuiz(arr[k], next);
        assert arr[..k + 1][..k] == arr[..k];
        filled := filled + [q.value];
        next := q.next;
        k := k + 1;
      }
      assert arr[..k] == arr;
      quizzes := filled + quizzes;
    }
  }
}
