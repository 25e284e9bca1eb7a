/**
 * The mistake log (app.js:546-561 and 597-600): every wrong checked answer
 * is put at the front of the stored list `mistakes`, which keeps at most
 * 500 entries, and of the list `mistakesCurrent`, which has no cap.
 *
 * `loadMistakes`/`saveMistakes` read and write the stored list through
 * `localStorage`; here the stored list is the constructor's argument.
 */
module Mistakes {
  import opened Wrappers
  import opened Ids
  import opened QuizFormat

  /** How many entries the stored list keeps. */
  const MAX_MISTAKES: nat := 500

  /** One entry of the log, as `recordMistake` builds it. */
  datatype Mistake = Mistake(
    id: string,
    at: string,
    quizId: Option<string>,
    quizName: string,
    question: string,
    choices: seq<Choice>,
    chosen: seq<string>,
    correctIds: seq<string>)

  /** `q.choices.filter(c => c.correct).map(c => c.id)`, each id as the string the page compares. */
  function CorrectIds(cs: seq<Choice>): (r: seq<string>)
    ensures |r| <= |cs|
  {
    if cs == [] then []
    else (if cs[0].correct then [KeyOf(cs[0].id)] else []) + CorrectIds(cs[1..])
  }

  /** Every id in `CorrectIds(cs)` is the id of a correct choice, and every correct choice's id is in it. */
  lemma {:induction false} CorrectIdsOf(cs: seq<Choice>, x: string)
    ensures x in CorrectIds(cs) <==> exists k :: 0 <= k < |cs| && cs[k].correct && KeyOf(cs[k].id) == x
  {
    if cs != [] {
      CorrectIdsOf(cs[1..], x);
      if x in CorrectIds(cs[1..]) {
        var k :| 0 <= k < |cs[1..]| && cs[1..][k].correct && KeyOf(cs[1..][k].id) == x;
        assert cs[k + 1] == cs[1..][k];
      }
      if exists k :: 0 <= k < |cs| && cs[k].correct && KeyOf(cs[k].id) == x {
        var k :| 0 <= k < |cs| && cs[k].correct && KeyOf(cs[k].id) == x;
        if k > 0 {
          assert cs[1..][k - 1] == cs[k];
        }
      }
    }
  }

  /** `mistakes.slice(0, 500)` when the list is longer than 500. */
  function Capped(s: seq<Mistake>): seq<Mistake> {
    if |s| > MAX_MISTAKES then s[..MAX_MISTAKES] else s
  }

  /** The capped list is the newest `min(|s|, 500)` entries, newest first. */
  lemma CappedIsNewest(s: seq<Mistake>)
    ensures |Capped(s)| <= MAX_MISTAKES
    ensures |Capped(s)| == |s| || |Capped(s)| == MAX_MISTAKES
    ensures Capped(s) == s[..|Capped(s)|]
  {
  }

  /** Capping after every entry keeps what capping the whole history once would keep. */
  lemma CappedCons(e: Mistake, s: seq<Mistake>)
    ensures Capped([e] + Capped(s)) == Capped([e] + s)
  {
    if |s| > MAX_MISTAKES {
      assert ([e] + s[..MAX_MISTAKES])[..MAX_MISTAKES] == ([e] + s)[..MAX_MISTAKES];
    }
  }

  /** The stored list after recording `es` one after the other, `es[0]` first. */
  function RecordAll(stored: seq<Mistake>, es: seq<Mistake>): seq<Mistake>
    decreases |es|
  {
    if es == [] then stored else RecordAll(Capped([es[0]] + stored), es[1..])
  }

  function Reversed(es: seq<Mistake>): (r: seq<Mistake>)
    ensures |r| == |es|
  {
    if es == [] then [] else Reversed(es[1..]) + [es[0]]
  }

  /**
   * However many entries are recorded, the stored list holds the 500 most
   * recent entries of the whole history, newest first.
   */
  lemma {:induction false} RecordAllNewest(stored: seq<Mistake>, es: seq<Mistake>)
    requires |stored| <= MAX_MISTAKES
    ensures RecordAll(stored, es) == Capped(Reversed(es) + stored)
    decreases |es|
  {
    if es != [] {
      RecordAllNewest(Capped([es[0]] + stored), es[1..]);
      CappedCons2(Reversed(es[1..]), [es[0]] + stored);
      assert Reversed(es[1..]) + ([es[0]] + stored) == Reversed(es) + stored;
    }
  }

  /** Capping the tail first does not change a capped result. */
  lemma {:induction false} CappedCons2(front: seq<Mistake>, s: seq<Mistake>)
    ensures Capped(front + Capped(s)) == Capped(front + s)
    decreases |front|
  {
    if front != [] {
      CappedCons2(front[1..], s);
      assert front + Capped(s) == [front[0]] + (front[1..] + Capped(s));
      assert front + s == [front[0]] + (front[1..] + s);
      CappedCons(front[0], front[1..] + Capped(s));
      CappedCons(front[0], front[1..] + s);
    }
  }

  /** `mistakes` and `mistakesCurrent`, the two lists of the page. */
  class MistakeLog {
    var mistakes: seq<Mistake>
    var current: seq<Mistake>

    /** The lists at page load: the stored list, and an empty current list. */
    constructor (stored: seq<Mistake>)
      ensures mistakes == stored && current == []
    {
      mistakes := stored;
      current := [];
    }

    /** `recordMistake`: `unshift` onto both lists, then `slice(0, 500)` of the stored one. */
    method Record(e: Mistake)
      modifies this
      ensures mistakes == Capped([e] + old(mistakes))
      ensures current == [e] + old(current)
    {
      mistakes := [e] + mistakes;
      current := [e] + current;
      if |mistakes| > MAX_MISTAKES {
        mistakes := mistakes[..MAX_MISTAKES];
      }
    }

    /** The "clear mistakes" button: both lists emptied once the user confirms. */
    method Clear(confirmed: bool)
      modifies this
      ensures confirmed ==> mistakes == [] && current == []
      ensures !confirmed ==> mistakes == old(mistakes) && current == old(current)
    {
      if confirmed {
        mistakes := [];
        current := [];
      }
    }
  }
}
