/**
 * Character classes and string helpers that stand in for the JavaScript
 * regular-expression features and `String` methods the quiz core uses:
 * `\s`, `\d`, `trim()`, `split("\n")`, `join(sep)`, ASCII case folding for `/i`,
 * and `Number.prototype.toString()` for the ordinals written by the builder.
 */
module Text {

  /** The characters matched by `\s` and removed by `trim()` (ECMAScript WhiteSpace and LineTerminator). */
  predicate IsSpace(c: char) {
    || c == ' ' || c == '\t' || c == '\n' || c == '\r' || c == '\U{B}' || c == '\U{C}'
    || c == '\U{A0}' || c == '\U{1680}' || ('\U{2000}' <= c <= '\U{200A}')
    || c == '\U{2028}' || c == '\U{2029}' || c == '\U{202F}' || c == '\U{205F}'
    || c == '\U{3000}' || c == '\U{FEFF}'
  }

  /** `\d` */
  predicate IsDigit(c: char) {
    '0' <= c <= '9'
  }

  predicate NoSpace(s: string) {
    forall i :: 0 <= i < |s| ==> !IsSpace(s[i])
  }

  /** A string that `trim()` leaves unchanged. */
  predicate Trimmed(s: string) {
    s == [] || (!IsSpace(s[0]) && !IsSpace(s[|s| - 1]))
  }

  // `s.replace(/^\s+/, "")`: leading whitespace removed
  function TrimStart(s: string): (r: string)
    ensures |r| <= |s| && r == s[|s| - |r|..]
    ensures forall i :: 0 <= i < |s| - |r| ==> IsSpace(s[i])
    ensures r == [] || !IsSpace(r[0])
  {
    if s != [] && IsSpace(s[0]) then TrimStart(s[1..]) else s
  }

  // `s.replace(/\s+$/, "")`: trailing whitespace removed
  function TrimEnd(s: string): (r: string)
    ensures |r| <= |s| && r == s[..|r|]
    ensures forall i :: |r| <= i < |s| ==> IsSpace(s[i])
    ensures r == [] || !IsSpace(r[|r| - 1])
  {
    if s != [] && IsSpace(s[|s| - 1]) then TrimEnd(s[..|s| - 1]) else s
  }

  /** `s.trim()` */
  function Trim(s: string): (r: string)
    ensures Trimmed(r)
    ensures |r| <= |s|
    ensures r == [] ==> forall i :: 0 <= i < |s| ==> IsSpace(s[i])
  {
    TrimEnd(TrimStart(s))
  }

  lemma TrimStartOfTrimmed(s: string)
    requires s == [] || !IsSpace(s[0])
    ensures TrimStart(s) == s
  {
  }

  lemma TrimEndOfTrimmed(s: string)
    requires s == [] || !IsSpace(s[|s| - 1])
    ensures TrimEnd(s) == s
  {
  }

  lemma TrimOfTrimmed(s: string)
    requires Trimmed(s)
    ensures Trim(s) == s
  {
    TrimStartOfTrimmed(s);
    TrimEndOfTrimmed(s);
  }

  lemma {:induction false} TrimStartAppend(a: string, b: string)
    requires TrimStart(a) != []
    ensures TrimStart(a + b) == TrimStart(a) + b
    decreases |a|
  {
    assert (a + b)[0] == a[0];
    if IsSpace(a[0]) {
      assert (a + b)[1..] == a[1..] + b;
      TrimStartAppend(a[1..], b);
    }
  }

  lemma {:induction false} TrimEndPrepend(a: string, b: string)
    requires TrimEnd(b) != []
    ensures TrimEnd(a + b) == a + TrimEnd(b)
    decreases |b|
  {
    if b != [] && IsSpace(b[|b| - 1]) {
      assert (a + b)[..|a + b| - 1] == a + b[..|b| - 1];
      TrimEndPrepend(a, b[..|b| - 1]);
    }
  }

  lemma {:induction false} TrimStartSpaces(a: string, b: string)
    requires forall i :: 0 <= i < |a| ==> IsSpace(a[i])
    ensures TrimStart(a + b) == TrimStart(b)
    decreases |a|
  {
    if a != [] {
      var ab := a + b;
      assert ab[0] == a[0] && IsSpace(ab[0]);
      assert ab[1..] == a[1..] + b;
      assert TrimStart(ab) == TrimStart(ab[1..]);
      TrimStartSpaces(a[1..], b);
    } else {
      assert a + b == b;
    }
  }

  lemma {:induction false} TrimEndSpaces(a: string, b: string)
    requires forall i :: 0 <= i < |b| ==> IsSpace(b[i])
    ensures TrimEnd(a + b) == TrimEnd(a)
    decreases |b|
  {
    if b != [] {
      var ab := a + b;
      assert IsSpace(ab[|ab| - 1]);
      assert ab[..|ab| - 1] == a + b[..|b| - 1];
      TrimEndSpaces(a, b[..|b| - 1]);
    } else {
      assert a + b == a;
    }
  }

  /** Leading whitespace followed by a non-space start is dropped exactly. */
  lemma TrimStartSpacesThen(a: string, b: string)
    requires forall i :: 0 <= i < |a| ==> IsSpace(a[i])
    requires b == [] || !IsSpace(b[0])
    ensures TrimStart(a + b) == b
  {
    TrimStartSpaces(a, b);
    TrimStartOfTrimmed(b);
  }

  lemma TrimAfterTrimStart(s: string)
    ensures Trim(TrimStart(s)) == Trim(s)
  {
    TrimStartOfTrimmed(TrimStart(s));
  }

  /** A string is the whitespace `TrimStart` drops followed by what it keeps. */
  lemma TrimStartParts(s: string) returns (sp: string)
    ensures s == sp + TrimStart(s)
    ensures forall i :: 0 <= i < |sp| ==> IsSpace(sp[i])
  {
    sp := s[..|s| - |TrimStart(s)|];
    assert s == sp + s[|sp|..];
  }


  lemma DropAppend(a: string, b: string, n: nat)
    requires n <= |a|
    ensures (a + b)[n..] == a[n..] + b
    ensures (a + b)[..n] == a[..n]
  {
  }

  /** Whitespace before a trimmed string is all that `trim` removes. */
  lemma TrimAfterSpaces(a: string, t: string)
    requires forall i :: 0 <= i < |a| ==> IsSpace(a[i])
    requires Trimmed(t)
    ensures Trim(a + t) == t
  {
    TrimStartSpacesThen(a, t);
    TrimEndOfTrimmed(t);
  }

  /** Trimming a string that starts with a non-space keeps that first character. */
  lemma TrimKeepsFirst(s: string)
    requires s != [] && !IsSpace(s[0])
    ensures Trim(s) == TrimEnd(s) && Trim(s) != [] && Trim(s)[0] == s[0]
  {
    TrimStartOfTrimmed(s);
    var t := TrimEnd(s);
    assert t == s[..|t|];
  }

  lemma TrimIdempotent(s: string)
    ensures Trim(Trim(s)) == Trim(s)
  {
    TrimOfTrimmed(Trim(s));
  }

  /** Lower-case an ASCII letter; the case folding of a `/i` regular expression. */
  function LowerChar(c: char): (r: char)
    ensures 'A' <= c <= 'Z' ==> r as int == c as int + 32
    ensures !('A' <= c <= 'Z') ==> r == c
  {
    if 'A' <= c <= 'Z' then (c as int + 32) as char else c
  }

  function Lower(s: string): (r: string)
    ensures |r| == |s|
    ensures forall i :: 0 <= i < |s| ==> r[i] == LowerChar(s[i])
  {
    seq(|s|, i requires 0 <= i < |s| => LowerChar(s[i]))
  }

  /** `s` starts with the lower-case word `p`, letters compared case-insensitively. */
  predicate HasPrefixCI(s: string, p: string) {
    |p| <= |s| && forall i :: 0 <= i < |p| ==> LowerChar(s[i]) == p[i]
  }

  lemma HasPrefixCIAppend(s: string, t: string, p: string)
    requires HasPrefixCI(s, p)
    ensures HasPrefixCI(s + t, p)
  {
    assert forall i :: 0 <= i < |p| ==> (s + t)[i] == s[i];
  }

  /** The quiz code's `norm`: `(s || "").trim().toLowerCase()`. */
  function Norm(s: string): (r: string)
    ensures |r| == |Trim(s)|
  {
    Lower(Trim(s))
  }

  /** First position of `c` in `s`. */
  function IndexOf(s: string, c: char): (i: nat)
    requires c in s
    ensures i < |s| && s[i] == c && c !in s[..i]
  {
    if s[0] == c then 0 else 1 + IndexOf(s[1..], c)
  }

  /** `parts.join(sep)` */
  function Join(parts: seq<string>, sep: string): string
  {
    if parts == [] then ""
    else if |parts| == 1 then parts[0]
    else parts[0] + sep + Join(parts[1..], sep)
  }

  /** `s.split("\n")` */
  function SplitLines(s: string): (r: seq<string>)
    ensures |r| >= 1
    ensures forall k :: 0 <= k < |r| ==> '\n' !in r[k]
    ensures Join(r, "\n") == s
    decreases |s|
  {
    if '\n' in s then
      var i := IndexOf(s, '\n');
      var rest := SplitLines(s[i + 1..]);
      assert s == s[..i] + "\n" + s[i + 1..];
      [s[..i]] + rest
    else
      [s]
  }

  lemma {:induction false} SplitLinesCons(a: string, b: string)
    requires '\n' !in a
    ensures SplitLines(a + "\n" + b) == [a] + SplitLines(b)
  {
    var s := a + "\n" + b;
    assert s[|a|] == '\n';
    assert s[..|a|] == a;
    var i := IndexOf(s, '\n');
    assert s[i + 1..] == b;
  }

  lemma Slices3<T>(s: seq<T>, i: nat, j: nat)
    requires i <= j <= |s|
    ensures s == s[..i] + s[i..j] + s[j..]
  {
  }

  lemma AppendAssoc<T>(x: seq<T>, y: seq<T>, z: seq<T>)
    ensures (x + y) + z == x + (y + z)
  {
  }

  /** What follows the first line and its break. */
  lemma DropLine(a: string, b: string)
    ensures (a + "\n" + b)[|a| + 1..] == b
  {
  }

  lemma TakeSnoc<T>(s: seq<T>, i: nat)
    requires i < |s|
    ensures s[..i + 1] == s[..i] + [s[i]]
  {
  }

  lemma TakeAll<T>(s: seq<T>)
    ensures s[..|s|] == s
  {
  }

  lemma ConsSplit<T>(w: seq<T>, a: seq<T>, b: seq<T>)
    requires w != [] && w[1..] == a + b
    ensures w == [w[0]] + a + b
  {
    assert w == [w[0]] + w[1..];
  }

  /** A suffix of a line has no line break either. */
  lemma NoBreakInSuffix(s: string, t: string)
    requires '\n' !in s && |t| <= |s| && t == s[|s| - |t|..]
    ensures '\n' !in t
  {
    assert forall i :: 0 <= i < |t| ==> t[i] == s[|s| - |t| + i];
  }

  lemma LastSplit<T>(s: seq<T>)
    requires s != []
    ensures s == s[..|s| - 1] + [s[|s| - 1]]
  {
  }

  /** Dropping the last element of a sequence with a new head. */
  lemma ConsInit<T>(b: T, s: seq<T>)
    requires s != []
    ensures ([b] + s)[..|s|] == [b] + s[..|s| - 1]
    ensures ([b] + s)[|s|] == s[|s| - 1]
  {
  }

  /** Regrouping a sequence built by adding a head and a tail. */
  lemma Regroup<T>(whole: seq<T>, front: seq<T>, head: seq<T>, mid: seq<T>, tail: seq<T>, back: seq<T>)
    requires whole == front + tail && front == head + mid && back == mid + tail
    ensures whole == head + back
  {
  }

  /** A string is the text before its first line break, the break, and the text after it. */
  lemma AroundFirstBreak(s: string)
    requires '\n' in s
    ensures var i := IndexOf(s, '\n'); s == s[..i] + "\n" + s[i + 1..] && '\n' !in s[..i]
  {
    var i := IndexOf(s, '\n');
    assert s == s[..i] + [s[i]] + s[i + 1..];
  }

  lemma SplitLinesLeadingBreak(b: string)
    ensures SplitLines("\n" + b) == [""] + SplitLines(b)
  {
    SplitLinesCons("", b);
    assert "" + "\n" + b == "\n" + b;
  }

  /** `split("\n")` undoes `join("\n")` when no part holds a line break. */
  lemma {:induction false} SplitJoin(ls: seq<string>)
    requires |ls| >= 1
    requires forall k :: 0 <= k < |ls| ==> '\n' !in ls[k]
    ensures SplitLines(Join(ls, "\n")) == ls
  {
    if |ls| > 1 {
      SplitLinesCons(ls[0], Join(ls[1..], "\n"));
      SplitJoin(ls[1..]);
    }
  }

  lemma {:induction false} JoinAppend(a: seq<string>, b: seq<string>, sep: string)
    requires a != [] && b != []
    ensures Join(a + b, sep) == Join(a, sep) + sep + Join(b, sep)
  {
    if |a| == 1 {
      assert (a + b)[1..] == b;
    } else {
      assert (a + b)[1..] == a[1..] + b;
      JoinAppend(a[1..], b, sep);
    }
  }

  /** The first line break of `a + "\n" + b` is the one after `a` when `a` has none. */
  lemma {:induction false} IndexOfAfter(a: string, b: string)
    requires '\n' !in a
    ensures IndexOf(a + "\n" + b, '\n') == |a|
  {
    if a != [] {
      assert (a + "\n" + b)[1..] == a[1..] + "\n" + b;
      IndexOfAfter(a[1..], b);
    }
  }

  /** Lines joined by `sep` start where the first line starts and end where the last line ends. */
  lemma {:induction false} JoinEnds(ls: seq<string>, sep: string)
    requires ls != [] && ls[|ls| - 1] != []
    ensures var j := Join(ls, sep);
      j != [] && j[|j| - 1] == ls[|ls| - 1][|ls[|ls| - 1]| - 1]
      && (ls[0] != [] ==> j[0] == ls[0][0])
  {
    if |ls| > 1 {
      var rest := ls[1..];
      JoinEnds(rest, sep);
      var r := Join(rest, sep);
      assert Join(ls, sep) == ls[0] + sep + r;
      assert (ls[0] + sep + r)[|ls[0] + sep + r| - 1] == r[|r| - 1];
    }
  }

  /** Lines joined by `sep` are trimmed when the first line starts, and the last line ends, with a non-space. */
  lemma JoinTrimmed(ls: seq<string>, sep: string)
    requires ls != [] && ls[0] != [] && !IsSpace(ls[0][0])
    requires ls[|ls| - 1] != [] && !IsSpace(ls[|ls| - 1][|ls[|ls| - 1]| - 1])
    ensures Trimmed(Join(ls, sep))
  {
    JoinEnds(ls, sep);
  }

  function DigitChar(d: nat): (c: char)
    requires d < 10
    ensures IsDigit(c) && c as int - '0' as int == d
  {
    ('0' as int + d) as char
  }

  /** `String(n)` for a natural number: its decimal digits. */
  function Decimal(n: nat): (r: string)
    ensures |r| >= 1
    ensures forall i :: 0 <= i < |r| ==> IsDigit(r[i])
  {
    if n < 10 then [DigitChar(n)] else Decimal(n / 10) + [DigitChar(n % 10)]
  }

  /** Different numbers are written differently. */
  lemma {:induction false} DecimalInjective(m: nat, n: nat)
    requires Decimal(m) == Decimal(n)
    ensures m == n
  {
    if m >= 10 && n >= 10 {
      var dm, dn := Decimal(m), Decimal(n);
      assert dm[..|dm| - 1] == Decimal(m / 10);
      assert dn[..|dn| - 1] == Decimal(n / 10);
      DecimalInjective(m / 10, n / 10);
      assert dm[|dm| - 1] == DigitChar(m % 10);
    } else if m < 10 && n < 10 {
      assert Decimal(m)[0] == DigitChar(m);
    }
  }
}
