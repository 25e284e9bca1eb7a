/**
 * Identifiers. The quiz code draws ids from `uid()` (app.js:6), eight random
 * base-36 characters; the model replaces the random source by a counter, so
 * `Uid(n)` is the n-th id handed out and distinct counters give distinct ids.
 */
module Ids {
  import opened Wrappers
  import opened Text

  /** The id returned by the n-th call of `uid()`. */
  function Uid(n: nat): (r: string)
    ensures r != []
    ensures forall i :: 0 <= i < |r| ==> IsDigit(r[i])
  {
    Decimal(n)
  }

  /** The oracle never hands out the same id twice. */
  lemma UidInjective(m: nat, n: nat)
    requires m != n
    ensures Uid(m) != Uid(n)
  {
    if Uid(m) == Uid(n) {
      DecimalInjective(m, n);
    }
  }

  /** JavaScript truthiness of an id: present and not the empty string. */
  predicate Truthy(id: Option<string>) {
    id.Some? && id.value != ""
  }

  /** `String(id)`: the property name under which `obj[id]` is stored; a missing id becomes "undefined". */
  function KeyOf(id: Option<string>): string {
    match id
    case Some(s) => s
    case None => "undefined"
  }

  /** Keys of ids handed out by the oracle never collide with the key of a missing id. */
  lemma UidKeyDiffersFromMissing(n: nat)
    ensures KeyOf(Some(Uid(n))) != KeyOf(None)
  {
    assert IsDigit(Uid(n)[0]);
    assert !IsDigit("undefined"[0]);
  }
}
