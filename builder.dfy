/**
 * `loadQuizIntoBuilder` (app.js:723-736): a saved quiz written back as the
 * plain-text format, and the proof that the parser reads that text back as
 * the same quiz, up to fresh ids.
 */
module Builder {
  import opened Wrappers
  import opened Text
  import opened Ids
  import opened QuizFormat

  /** The name the builder shows for a quiz without one. */
  const DEFAULT_NAME := "Generated Quiz"

  /** The three lines that "\n\n-\n\n" puts between two blocks. */
  const SEPARATOR: seq<string> := ["", "-", ""]

  function DisplayName(q: Quiz): (r: string)
    ensures r != []
    ensures q.name != [] ==> r == q.name
  {
    if q.name == [] then DEFAULT_NAME else q.name
  }

  /** A choice as the builder writes it: ✅ or ❎, a space, the text. */
  function ChoiceText(c: Choice): string {
    [if c.correct then CHECK else CROSS, ' '] + c.text
  }

  function ChoiceTexts(cs: seq<Choice>): (r: seq<string>)
    ensures |r| == |cs|
    ensures forall k :: 0 <= k < |cs| ==> r[k] == ChoiceText(cs[k])
  {
    seq(|cs|, k requires 0 <= k < |cs| => ChoiceText(cs[k]))
  }

  /** The explanation line, present only when the explanation is not empty. */
  function ExplainLines(explanation: string): seq<string> {
    if explanation == [] then [] else ["explain: " + explanation]
  }

  /** The lines of question number `n` (counting from 1): `n) text`, the choices, the explanation. */
  function BlockLines(qq: Question, n: nat): seq<string> {
    [Decimal(n) + ") " + qq.text] + ChoiceTexts(qq.choices) + ExplainLines(qq.explanation)
  }

  /** The blocks of `qs`, numbered from `n`. */
  function Blocks(qs: seq<Question>, n: nat): (r: seq<string>)
    ensures |r| == |qs|
    ensures forall i :: 0 <= i < |qs| ==> r[i] == Join(BlockLines(qs[i], n + i), "\n")
  {
    seq(|qs|, i requires 0 <= i < |qs| => Join(BlockLines(qs[i], n + i), "\n"))
  }

  /** The text the builder puts into the raw input field. */
  function BuilderText(q: Quiz): string {
    "# Quiz: " + DisplayName(q) + "\n\n" + Join(Blocks(q.questions, 1), "\n\n-\n\n")
  }

  /** The name field, the raw text field, the draft and the id counter after loading a quiz. */
  datatype Loaded = Loaded(nameField: string, rawField: string, draft: Quiz, nextId: nat)

  // `loadQuizIntoBuilder`: the name field and the draft take the display name;
  // the draft keeps the quiz's id when it has one and takes a `uid()` otherwise.
  function LoadIntoBuilder(q: Quiz, nextId: nat): (r: Loaded)
    ensures r.nameField == r.draft.name == DisplayName(q)
    ensures Truthy(r.draft.id)
    ensures Truthy(q.id) ==> r.draft.id == q.id && r.nextId == nextId
    ensures !Truthy(q.id) ==> r.draft.id == Some(Uid(nextId)) && r.nextId == nextId + 1
    ensures r.draft.options == q.options && r.draft.questions == q.questions
    ensures r.rawField == BuilderText(q)
  {
    var id := if Truthy(q.id) then q.id else Some(Uid(nextId));
    Loaded(DisplayName(q), BuilderText(q), Quiz(id, DisplayName(q), q.options, q.questions),
      if Truthy(q.id) then nextId else nextId + 1)
  }

  // ---------------------------------------------------------------------------
  // Which quizzes the text format can carry

  /** Text that survives as one line: not empty, no line break, nothing for `trim()` to remove. */
  predicate LineSafe(s: string) {
    s != [] && Trimmed(s) && '\n' !in s
  }

  /** A question or choice text that survives on its line: no line break, nothing for `trim()` to remove; it may be empty. */
  predicate TextSafe(s: string) {
    Trimmed(s) && '\n' !in s
  }

  predicate QuestionSafe(qq: Question) {
    && TextSafe(qq.text)
    && qq.choices != []
    && (forall k :: 0 <= k < |qq.choices| ==> TextSafe(qq.choices[k].text))
    && (qq.explanation == [] || LineSafe(qq.explanation))
  }

  /** A quiz with a question, each with a choice, whose texts are single trimmed lines. */
  predicate QuizSafe(q: Quiz) {
    && q.questions != []
    && LineSafe(DisplayName(q))
    && forall i :: 0 <= i < |q.questions| ==> QuestionSafe(q.questions[i])
  }

  /** A question as the parser rebuilds it: no ids, everything else kept. */
  function Plain(qq: Question): Question {
    Question(None, qq.text, qq.explanation, PlainChoices(qq.choices))
  }

  function PlainChoices(cs: seq<Choice>): (r: seq<Choice>)
    ensures |r| == |cs|
    ensures forall k :: 0 <= k < |cs| ==> r[k] == Choice(None, cs[k].text, cs[k].correct)
  {
    seq(|cs|, k requires 0 <= k < |cs| => Choice(None, cs[k].text, cs[k].correct))
  }

  function Plains(qs: seq<Question>): (r: seq<Question>)
    ensures |r| == |qs|
  {
    if qs == [] then [] else [Plain(qs[0])] + Plains(qs[1..])
  }

  // ---------------------------------------------------------------------------
  // One block read back

  /**
   * A line the builder writes inside a block: no line break and a first character
   * that is neither whitespace nor `+`, `-` or `#`, so the normaliser, the title
   * filter and the splitter leave it alone. It may end in the space after `n)`,
   * ✅ or ❎ when the text there is empty.
   */
  predicate BodyLine(l: string) {
    l != [] && !IsSpace(l[0]) && l[0] != '+' && l[0] != '-' && l[0] != '#' && '\n' !in l
  }

  lemma NotSignLine(l: string)
    requires l != [] && !IsSpace(l[0]) && l[0] != '+' && l[0] != '-'
    ensures !IsSignLine(l)
  {
    TrimStartOfTrimmed(l);
  }

  /** `trim` keeps a body line's first character: the line stays neither blank nor `-`. */
  lemma BodyLineTrim(l: string)
    requires BodyLine(l)
    ensures Trim(l) != [] && Trim(l) != "-" && Trim(l)[0] == l[0]
  {
    TrimKeepsFirst(l);
  }

  /** A trimmed head, a space and a trimmed text: `trim` drops the space when the text is empty. */
  lemma TrimWritten(p: string, t: string)
    requires p != [] && Trimmed(p) && Trimmed(t)
    ensures Trim(p + " " + t) == if t == [] then p else p + " " + t
  {
    var l := p + " " + t;
    assert l[0] == p[0];
    if t == [] {
      assert l == p + " ";
      TrimStartOfTrimmed(l);
      TrimEndSpaces(p, " ");
      TrimEndOfTrimmed(p);
    } else {
      assert l[|l| - 1] == t[|t| - 1];
      TrimOfTrimmed(l);
    }
  }

  /** The first line of block `n` is a body line, and the stem cleanup turns it back into the question's text. */
  lemma StemLine(t: string, n: nat)
    requires TextSafe(t)
    ensures BodyLine(Decimal(n) + ") " + t)
    ensures Trim(StripOrdinal(Trim(Decimal(n) + ") " + t))) == t
  {
    StemBody(t, n);
    if t == [] {
      assert Decimal(n) + ") " + t == Decimal(n) + ") ";
      StemBare(n);
    } else {
      StemText(t, n);
    }
  }

  lemma StemBody(t: string, n: nat)
    requires TextSafe(t)
    ensures BodyLine(Decimal(n) + ") " + t)
  {
    var d := Decimal(n);
    assert '\n' !in d by {
      assert forall k :: 0 <= k < |d| ==> IsDigit(d[k]);
    }
    assert (d + ") " + t)[0] == d[0];
  }

  /** `n) ` trims to `n)`, which the ordinal cleanup removes entirely. */
  lemma StemBare(n: nat)
    ensures Trim(StripOrdinal(Trim(Decimal(n) + ") "))) == []
  {
    var d := Decimal(n);
    var p := d + ")";
    assert d + ") " == p + " " + [];
    assert p[0] == d[0];
    TrimWritten(p, []);
    StripOrdinalOfBare(n);
  }

  lemma StemText(t: string, n: nat)
    requires TextSafe(t) && t != []
    ensures Trim(StripOrdinal(Trim(Decimal(n) + ") " + t))) == t
  {
    var l := Decimal(n) + ") " + t;
    assert l[0] == Decimal(n)[0] && l[|l| - 1] == t[|t| - 1];
    TrimOfTrimmed(l);
    StripOrdinalOfNumbered(n, t);
    TrimOfTrimmed(t);
  }

  lemma ChoiceLineBody(c: Choice)
    requires TextSafe(c.text)
    ensures BodyLine(ChoiceText(c))
  {
    var l := ChoiceText(c);
    assert l[0] == if c.correct then CHECK else CROSS;
  }

  /** A choice line, once trimmed, reads back as the choice without its id, under either explanation test. */
  lemma ChoiceLineBack(rd: Reading, c: Choice)
    requires TextSafe(c.text)
    ensures Classify(rd, Trim(ChoiceText(c))) == ChoiceOf(Choice(None, c.text, c.correct))
  {
    var m := if c.correct then CHECK else CROSS;
    var s := Trim(ChoiceText(c));
    ChoiceTextTrim(c, m);
    ChoiceMarkerRead(m, c.text);
    MarkerNotExplain(rd, s);
  }

  /** `trim` leaves a choice line as it is, except for the space after a marker with no text. */
  lemma ChoiceTextTrim(c: Choice, m: char)
    requires TextSafe(c.text) && m == if c.correct then CHECK else CROSS
    ensures Trim(ChoiceText(c)) == if c.text == [] then [m] else [m] + " " + c.text
    ensures Trim(ChoiceText(c)) != [] && Trim(ChoiceText(c))[0] == m
  {
    assert ChoiceText(c) == [m] + " " + c.text;
    TrimWritten([m], c.text);
  }

  lemma MarkerNotExplain(rd: Reading, s: string)
    requires s != [] && (s[0] == CHECK || s[0] == CROSS)
    ensures Explain(rd, s) == None
  {
    assert LowerChar(s[0]) == s[0];
  }

  lemma ChoiceMarkerRead(m: char, t: string)
    requires (m == CHECK || m == CROSS) && Trimmed(t)
    ensures var s := if t == [] then [m] else [m] + " " + t;
      ParseChoiceLine(s) == Some(ChoiceLine(t, m == CHECK))
  {
    if t == [] {
      MarkerLineRead([m]);
      assert [m][1..] == [];
    } else {
      MarkerThenText(m, t);
      MarkerLineRead([m] + " " + t);
    }
  }

  /** A trimmed line that starts with ✅ or ❎ is a choice whose text is what follows the marker. */
  lemma MarkerLineRead(s: string)
    requires Trimmed(s) && s != [] && (s[0] == CHECK || s[0] == CROSS)
    ensures ParseChoiceLine(s) == Some(ChoiceLine(AfterMarker(s), s[0] == CHECK))
  {
    TrimOfTrimmed(s);
  }

  lemma MarkerThenText(m: char, t: string)
    requires !IsSpace(m) && Trimmed(t) && t != []
    ensures var s := [m] + " " + t; Trimmed(s) && s[0] == m && AfterMarker(s) == t
  {
    var u := " " + t;
    var s := [m] + u;
    assert [m] + " " + t == s;
    assert s[0] == m && s[|s| - 1] == t[|t| - 1];
    DropAppend([m], u, 1);
    assert [m][1..] == [];
    TrimStartSpacesThen(" ", t);
  }

  lemma ExplainLineBody(e: string)
    requires LineSafe(e)
    ensures BodyLine("explain: " + e) && LineSafe("explain: " + e)
  {
    var l := "explain: " + e;
    assert l[|l| - 1] == e[|e| - 1];
  }

  /** The explanation line reads back as the explanation, under either explanation test. */
  lemma ExplainLineBack(rd: Reading, e: string)
    requires LineSafe(e)
    ensures Classify(rd, "explain: " + e) == ExplainLine(e)
  {
    var l := "explain: " + e;
    NotPrefixAt(l, "explanation:", 5);
    NotPrefixAt(l, "explaination:", 7);
    assert HasPrefixCI(l, "explain:");
    DropAppend("explain: ", e, 8);
    assert "explain: "[8..] == " ";
    TrimAfterSpaces(" ", e);
  }

  lemma {:induction false} ChoicesBack(rd: Reading, cs: seq<Choice>)
    requires forall k :: 0 <= k < |cs| ==> TextSafe(cs[k].text)
    ensures ChoicesIn(rd, Trims(ChoiceTexts(cs))) == PlainChoices(cs)
    decreases |cs|
  {
    if cs != [] {
      var init, c := cs[..|cs| - 1], cs[|cs| - 1];
      ChoicesSnoc(cs);
      TrimsSnoc(ChoiceTexts(cs));
      assert ChoiceTexts(cs)[..|cs| - 1] == ChoiceTexts(init);
      ChoicesBack(rd, init);
      ChoiceLineBack(rd, c);
      LinesAppend(rd, Trims(ChoiceTexts(init)), Trim(ChoiceText(c)));
    }
  }

  lemma ChoicesSnoc(cs: seq<Choice>)
    requires cs != []
    ensures var init, c := cs[..|cs| - 1], cs[|cs| - 1];
      && ChoiceTexts(cs) == ChoiceTexts(init) + [ChoiceText(c)]
      && PlainChoices(cs) == PlainChoices(init) + [Choice(None, c.text, c.correct)]
  {
    var init, c := cs[..|cs| - 1], cs[|cs| - 1];
    assert ChoiceTexts(cs) == ChoiceTexts(init) + [ChoiceText(c)];
    assert PlainChoices(cs) == PlainChoices(init) + [Choice(None, c.text, c.correct)];
  }

  lemma TrimsSnoc(ls: seq<string>)
    requires ls != []
    ensures Trims(ls) == Trims(ls[..|ls| - 1]) + [Trim(ls[|ls| - 1])]
  {
    var init, last := ls[..|ls| - 1], ls[|ls| - 1];
    assert ls == init + [last];
    TrimsAppend(init, [last]);
    assert Trims([last]) == [Trim(last)];
  }

  lemma {:induction false} NoExplanationBack(rd: Reading, cs: seq<Choice>)
    requires forall k :: 0 <= k < |cs| ==> TextSafe(cs[k].text)
    ensures ExplanationIn(rd, Trims(ChoiceTexts(cs))) == ""
  {
    var ts := Trims(ChoiceTexts(cs));
    forall k | 0 <= k < |ts|
      ensures Explain(rd, ts[k]).None?
    {
      ChoiceLineBack(rd, cs[k]);
      ClassifyChoice(rd, ts[k]);
    }
    NoExplanation(rd, ts);
  }

  /** Lines that are all non-empty and trimmed come through `map(trim)` and `filter(Boolean)` unchanged. */
  lemma KeptLines(ls: seq<string>)
    requires forall k :: 0 <= k < |ls| ==> ls[k] != [] && Trimmed(ls[k])
    ensures Trims(ls) == ls
    ensures NonBlank(ls) == ls
  {
    TrimsOfTrimmed(ls);
    NonBlankKept(ls);
  }

  lemma {:induction false} NonBlankKept(ls: seq<string>)
    requires forall k :: 0 <= k < |ls| ==> ls[k] != []
    ensures NonBlank(ls) == ls
  {
    if ls != [] {
      NonBlankKept(ls[..|ls| - 1]);
    }
  }

  lemma TrimsAppend(a: seq<string>, b: seq<string>)
    ensures Trims(a + b) == Trims(a) + Trims(b)
  {
    TrimsIsMap(a + b);
    TrimsIsMap(a);
    TrimsIsMap(b);
    MapAppend(Trim, a, b);
  }

  lemma BlockLinesBody(qq: Question, n: nat, k: nat)
    requires QuestionSafe(qq) && k < |BlockLines(qq, n)|
    ensures BodyLine(BlockLines(qq, n)[k])
  {
    var ls := BlockLines(qq, n);
    if k == 0 {
      StemLine(qq.text, n);
    } else if k <= |qq.choices| {
      assert ls[k] == ChoiceText(qq.choices[k - 1]);
      ChoiceLineBody(qq.choices[k - 1]);
    } else {
      assert ls[k] == "explain: " + qq.explanation;
      ExplainLineBody(qq.explanation);
    }
  }

  lemma BlockLinesParts(qq: Question, n: nat)
    ensures BlockLines(qq, n)[0] == Decimal(n) + ") " + qq.text
    ensures BlockLines(qq, n)[1..] == ChoiceTexts(qq.choices) + ExplainLines(qq.explanation)
  {
  }

  /** After `trim`, a block's lines past the first are the trimmed choice lines and the explanation line. */
  lemma TrimmedBlockRest(qq: Question, n: nat)
    requires qq.explanation == [] || LineSafe(qq.explanation)
    ensures Trims(BlockLines(qq, n))[1..] == Trims(ChoiceTexts(qq.choices)) + ExplainLines(qq.explanation)
  {
    var ws := BlockLines(qq, n);
    BlockLinesParts(qq, n);
    assert Trims(ws)[1..] == Trims(ws[1..]);
    TrimsAppend(ChoiceTexts(qq.choices), ExplainLines(qq.explanation));
    if qq.explanation != [] {
      ExplainLineBody(qq.explanation);
      TrimOfTrimmed("explain: " + qq.explanation);
      assert Trims(ExplainLines(qq.explanation)) == ExplainLines(qq.explanation);
    }
  }

  lemma ParseBlockOfLines(rd: Reading, ls: seq<string>, q: Question)
    requires ls != [] && NonBlank(Trims(ls)) == ls
    requires q.id.None? && q.choices != []
    requires Trim(StripOrdinal(ls[0])) == q.text
    requires ChoicesIn(rd, ls[1..]) == q.choices && ExplanationIn(rd, ls[1..]) == q.explanation
    ensures ParseBlock(rd, ls) == Some(q)
  {
  }

  /** The block the builder writes for a question, its lines trimmed, parses back to that question without ids. */
  lemma ParseBlockBack(rd: Reading, qq: Question, n: nat)
    requires QuestionSafe(qq)
    ensures ParseBlock(rd, Trims(BlockLines(qq, n))) == Some(Plain(qq))
  {
    var ls := Trims(BlockLines(qq, n));
    BlockLinesKept(qq, n);
    BlockStem(qq, n);
    BlockRest(rd, qq, n);
    ParseBlockOfLines(rd, ls, Plain(qq));
  }

  /** Every trimmed line of a block is non-empty and trimmed, so trimming and filtering again keep them all. */
  lemma BlockLinesKept(qq: Question, n: nat)
    requires QuestionSafe(qq)
    ensures var ls := Trims(BlockLines(qq, n)); ls != [] && NonBlank(Trims(ls)) == ls
  {
    var ws := BlockLines(qq, n);
    var ls := Trims(ws);
    forall k | 0 <= k < |ls|
      ensures ls[k] != [] && Trimmed(ls[k])
    {
      BlockLinesBody(qq, n, k);
      BodyLineTrim(ws[k]);
    }
    KeptLines(ls);
  }

  lemma BlockStem(qq: Question, n: nat)
    requires QuestionSafe(qq)
    ensures Trim(StripOrdinal(Trims(BlockLines(qq, n))[0])) == qq.text
  {
    BlockLinesParts(qq, n);
    StemLine(qq.text, n);
  }

  /** The trimmed lines after the stem give the question's choices, without ids, and its explanation. */
  lemma BlockRest(rd: Reading, qq: Question, n: nat)
    requires QuestionSafe(qq)
    ensures var rest := Trims(BlockLines(qq, n))[1..];
      ChoicesIn(rd, rest) == PlainChoices(qq.choices) && ExplanationIn(rd, rest) == qq.explanation
  {
    TrimmedBlockRest(qq, n);
    ChoicesBack(rd, qq.choices);
    NoExplanationBack(rd, qq.choices);
    LinesThenExplain(rd, Trims(ChoiceTexts(qq.choices)), qq.explanation);
  }

  /** The explanation line, when there is one, adds no choice and is the explanation. */
  lemma LinesThenExplain(rd: Reading, ls: seq<string>, e: string)
    requires e == [] || LineSafe(e)
    ensures ChoicesIn(rd, ls + ExplainLines(e)) == ChoicesIn(rd, ls)
    ensures ExplanationIn(rd, ls + ExplainLines(e)) == if e == [] then ExplanationIn(rd, ls) else e
  {
    if e == [] {
      assert ls + ExplainLines(e) == ls;
    } else {
      ExplainLineBack(rd, e);
      LinesAppend(rd, ls, "explain: " + e);
    }
  }

  // ---------------------------------------------------------------------------
  // The whole text read back

  /** The lines of the blocks of `qs`, numbered from `n`, with `SEPARATOR` between blocks. */
  function BodyLines(qs: seq<Question>, n: nat): (r: seq<string>)
    requires qs != []
    ensures r != [] && r[0] == Decimal(n) + ") " + qs[0].text
    decreases |qs|
  {
    BlockLines(qs[0], n) + (if |qs| == 1 then [] else SEPARATOR + BodyLines(qs[1..], n + 1))
  }

  /** The trimmed lines of each block of `qs`, numbered from `n`: the pieces the parser reads. */
  function BlockLinesSeq(qs: seq<Question>, n: nat): (r: seq<seq<string>>)
    ensures |r| == |qs|
  {
    if qs == [] then [] else [Trims(BlockLines(qs[0], n))] + BlockLinesSeq(qs[1..], n + 1)
  }

  lemma JoinSeparator(a: string, b: string)
    ensures a + "\n" + Join(SEPARATOR, "\n") + "\n" + b == a + "\n\n-\n\n" + b
  {
    assert Join(SEPARATOR, "\n") == "\n-\n";
  }

  /** Joining the blocks with "\n\n-\n\n" is joining all their lines, separators included, with "\n". */
  lemma {:induction false} JoinBlocks(qs: seq<Question>, n: nat)
    requires qs != []
    ensures Join(Blocks(qs, n), "\n\n-\n\n") == Join(BodyLines(qs, n), "\n")
    decreases |qs|
  {
    var b0 := BlockLines(qs[0], n);
    if |qs| == 1 {
      assert BodyLines(qs, n) == b0;
    } else {
      var rest := BodyLines(qs[1..], n + 1);
      assert Blocks(qs, n)[1..] == Blocks(qs[1..], n + 1);
      JoinBlocks(qs[1..], n + 1);
      assert BodyLines(qs, n) == b0 + (SEPARATOR + rest);
      JoinAppend(b0, SEPARATOR + rest, "\n");
      JoinAppend(SEPARATOR, rest, "\n");
      JoinSeparator(Join(b0, "\n"), Join(rest, "\n"));
    }
  }

  /** Inside a block the text does not split: the next line is neither blank nor `-`. */
  lemma SeparatorEndInside(ls: seq<string>, i: nat)
    requires i + 1 < |ls| && ls[i + 1] != "" && ls[i + 1] != "-"
    ensures SeparatorEnd(ls, i) == None
  {
    assert NextNonBlank(ls, i + 1) == i + 1;
  }

  /** The separator lines "", "-", "" after line `m - 1` end the piece; the next starts after them. */
  lemma SeparatorEndAt(ls: seq<string>, m: nat)
    requires 1 <= m && m + 3 < |ls|
    requires ls[m] == "" && ls[m + 1] == "-" && ls[m + 2] == "" && ls[m + 3] != ""
    ensures SeparatorEnd(ls, m - 1) == Some(m + 3)
  {
    assert NextNonBlank(ls, m + 3) == m + 3;
    assert NextNonBlank(ls, m + 2) == m + 3;
    assert NextNonBlank(ls, m) == m + 1;
  }

  lemma SeparatorLines(l: seq<string>, rest: seq<string>)
    requires |rest| > 3 && rest[..3] == SEPARATOR && rest[3] != ""
    ensures var ls := l + rest; var m := |l|;
      m + 3 < |ls| && ls[m] == "" && ls[m + 1] == "-" && ls[m + 2] == "" && ls[m + 3] != ""
      && ls[m + 3..] == rest[3..] && ls[..m] == l
  {
    assert rest[0] == SEPARATOR[0] && rest[1] == SEPARATOR[1] && rest[2] == SEPARATOR[2];
  }

  /** A block without blank or `-` lines is one piece, and a separator ends it. */
  lemma {:induction false} SplitFromBlock(l: seq<string>, rest: seq<string>, i: nat)
    requires i < |l|
    requires forall k :: 0 <= k < |l| ==> l[k] != "" && l[k] != "-"
    requires rest == [] || (|rest| > 3 && rest[..3] == SEPARATOR && rest[3] != "")
    ensures SplitFrom(l + rest, i) == [l] + (if rest == [] then [] else SplitFrom(rest[3..], 0))
    decreases |l| - i
  {
    var ls := l + rest;
    if i < |l| - 1 {
      assert ls[i + 1] == l[i + 1];
      SeparatorEndInside(ls, i);
      SplitFromBlock(l, rest, i + 1);
    } else if rest == [] {
      assert ls == l;
    } else {
      SeparatorLines(l, rest);
      SeparatorEndAt(ls, |l|);
    }
  }

  lemma BlockLinesNoSeparator(qq: Question, n: nat)
    requires QuestionSafe(qq)
    ensures var ls := Trims(BlockLines(qq, n)); forall k :: 0 <= k < |ls| ==> ls[k] != "" && ls[k] != "-"
  {
    var ls := Trims(BlockLines(qq, n));
    forall k | 0 <= k < |ls|
      ensures ls[k] != "" && ls[k] != "-"
    {
      BlockLinesBody(qq, n, k);
      BodyLineTrim(BlockLines(qq, n)[k]);
    }
  }

  /** The separator lines are already trimmed. */
  lemma TrimsSeparator()
    ensures Trims(SEPARATOR) == SEPARATOR
  {
    assert Trimmed(SEPARATOR[0]) && Trimmed(SEPARATOR[2]);
    assert SEPARATOR[1] == "-" && !IsSpace('-');
    TrimsOfTrimmed(SEPARATOR);
  }

  lemma TrimsOfTrimmed(ls: seq<string>)
    requires forall k :: 0 <= k < |ls| ==> Trimmed(ls[k])
    ensures Trims(ls) == ls
  {
    forall k | 0 <= k < |ls|
      ensures Trims(ls)[k] == ls[k]
    {
      TrimOfTrimmed(ls[k]);
    }
  }

  /** The trimmed body is the trimmed first block, then the separator and the trimmed rest. */
  lemma TrimsBodyLines(qs: seq<Question>, n: nat)
    requires qs != []
    ensures |qs| == 1 ==> Trims(BodyLines(qs, n)) == Trims(BlockLines(qs[0], n))
    ensures |qs| > 1 ==>
      Trims(BodyLines(qs, n)) == Trims(BlockLines(qs[0], n)) + (SEPARATOR + Trims(BodyLines(qs[1..], n + 1)))
  {
    BodyLinesUnfold(qs, n);
    if |qs| > 1 {
      var rest := BodyLines(qs[1..], n + 1);
      TrimsAppend(BlockLines(qs[0], n), SEPARATOR + rest);
      TrimsAppend(SEPARATOR, rest);
      TrimsSeparator();
    } else {
      assert BodyLines(qs, n) == BlockLines(qs[0], n);
    }
  }

  /** The splitter cuts the builder's trimmed lines back into the builder's trimmed blocks. */
  lemma {:induction false} SplitBody(qs: seq<Question>, n: nat)
    requires qs != []
    requires forall i :: 0 <= i < |qs| ==> QuestionSafe(qs[i])
    ensures SplitBlocks(Trims(BodyLines(qs, n))) == BlockLinesSeq(qs, n)
    decreases |qs|
  {
    if |qs| == 1 {
      var b0 := Trims(BlockLines(qs[0], n));
      BlockLinesNoSeparator(qs[0], n);
      TrimsBodyLines(qs, n);
      SplitFromBlock(b0, [], 0);
      assert b0 + [] == b0;
    } else {
      assert forall i :: 0 <= i < |qs[1..]| ==> qs[1..][i] == qs[i + 1];
      SplitBody(qs[1..], n + 1);
      SplitBodyStep(qs, n);
    }
  }

  /** One more block in front: the splitter cuts it off at the separator and goes on with the rest. */
  lemma SplitBodyStep(qs: seq<Question>, n: nat)
    requires |qs| > 1 && QuestionSafe(qs[0]) && QuestionSafe(qs[1])
    requires SplitBlocks(Trims(BodyLines(qs[1..], n + 1))) == BlockLinesSeq(qs[1..], n + 1)
    ensures SplitBlocks(Trims(BodyLines(qs, n))) == BlockLinesSeq(qs, n)
  {
    var b0 := Trims(BlockLines(qs[0], n));
    BlockLinesNoSeparator(qs[0], n);
    TrimsBodyLines(qs, n);
    var rest := Trims(BodyLines(qs[1..], n + 1));
    var sr := SEPARATOR + rest;
    assert sr[..3] == SEPARATOR && sr[3..] == rest;
    BodyHeadKept(qs[1..], n + 1);
    SplitFromBlock(b0, sr, 0);
  }

  /** The trimmed body starts with a non-empty line: the first stem. */
  lemma BodyHeadKept(qs: seq<Question>, n: nat)
    requires qs != [] && QuestionSafe(qs[0])
    ensures Trims(BodyLines(qs, n)) != [] && Trims(BodyLines(qs, n))[0] != ""
  {
    StemLine(qs[0].text, n);
    BodyLineTrim(BodyLines(qs, n)[0]);
  }

  /** Reading blocks front to back: the first block's question comes first. */
  lemma {:induction false} BlockQuestionsCons(rd: Reading, b: seq<string>, bs: seq<seq<string>>)
    ensures BlockQuestions(rd, [b] + bs) == Keep(ParseBlock(rd, b)) + BlockQuestions(rd, bs)
    decreases |bs|
  {
    var cs := [b] + bs;
    if bs == [] {
      assert cs[..0] == [];
    } else {
      var m := |bs| - 1;
      var kb, km := Keep(ParseBlock(rd, b)), Keep(ParseBlock(rd, bs[m]));
      var front, mid := BlockQuestions(rd, [b] + bs[..m]), BlockQuestions(rd, bs[..m]);
      assert BlockQuestions(rd, cs) == front + km by {
        ConsInit(b, bs);
      }
      assert front == kb + mid by {
        BlockQuestionsCons(rd, b, bs[..m]);
      }
      assert BlockQuestions(rd, bs) == mid + km;
      Regroup(BlockQuestions(rd, cs), front, kb, mid, km, BlockQuestions(rd, bs));
    }
  }

  /** Each block the builder writes yields its question, in order, without ids. */
  lemma {:induction false} BlockQuestionsBack(rd: Reading, qs: seq<Question>, n: nat)
    requires forall i :: 0 <= i < |qs| ==> QuestionSafe(qs[i])
    ensures BlockQuestions(rd, BlockLinesSeq(qs, n)) == Plains(qs)
    decreases |qs|
  {
    if qs != [] {
      var b, bs := Trims(BlockLines(qs[0], n)), BlockLinesSeq(qs[1..], n + 1);
      var rest := Plains(qs[1..]);
      assert BlockLinesSeq(qs, n) == [b] + bs;
      assert Plains(qs) == [Plain(qs[0])] + rest;
      assert BlockQuestions(rd, [b] + bs) == Keep(ParseBlock(rd, b)) + BlockQuestions(rd, bs) by {
        BlockQuestionsCons(rd, b, bs);
      }
      assert Keep(ParseBlock(rd, b)) == [Plain(qs[0])] by {
        ParseBlockBack(rd, qs[0], n);
      }
      assert BlockQuestions(rd, bs) == rest by {
        assert forall i :: 0 <= i < |qs[1..]| ==> QuestionSafe(qs[1..][i]) by {
          forall i | 0 <= i < |qs[1..]|
            ensures QuestionSafe(qs[1..][i])
          {
            assert qs[1..][i] == qs[i + 1];
          }
        }
        BlockQuestionsBack(rd, qs[1..], n + 1);
      }
    }
  }

  // ---------------------------------------------------------------------------
  // The whole builder text read back

  /** A line of the builder's text below the title: part of a separator, or a body line. */
  predicate WrittenLine(l: string) {
    l == "" || l == "-" || BodyLine(l)
  }

  /** A block, a separator and further written lines are written lines that end as the further lines end. */
  lemma WrittenAfterSeparator(b: seq<string>, rest: seq<string>)
    requires forall k :: 0 <= k < |b| ==> BodyLine(b[k])
    requires rest != [] && forall k :: 0 <= k < |rest| ==> WrittenLine(rest[k])
    ensures var ls := b + (SEPARATOR + rest);
      (forall k :: 0 <= k < |ls| ==> WrittenLine(ls[k])) && ls[|ls| - 1] == rest[|rest| - 1]
  {
    var ls := b + (SEPARATOR + rest);
    forall k | 0 <= k < |ls|
      ensures WrittenLine(ls[k])
    {
      if k >= |b| + 3 {
        assert ls[k] == rest[k - |b| - 3];
      }
    }
  }

  lemma {:induction false} BodyLinesWritten(qs: seq<Question>, n: nat)
    requires qs != []
    requires forall i :: 0 <= i < |qs| ==> QuestionSafe(qs[i])
    ensures forall k :: 0 <= k < |BodyLines(qs, n)| ==> WrittenLine(BodyLines(qs, n)[k])
    ensures BodyLine(BodyLines(qs, n)[|BodyLines(qs, n)| - 1])
    decreases |qs|
  {
    BlockBody(qs[0], n);
    BodyLinesUnfold(qs, n);
    if |qs| > 1 {
      BodyLinesWritten(qs[1..], n + 1);
      WrittenAfterSeparator(BlockLines(qs[0], n), BodyLines(qs[1..], n + 1));
    }
  }

  lemma BodyLinesUnfold(qs: seq<Question>, n: nat)
    requires qs != []
    ensures |qs| == 1 ==> BodyLines(qs, n) == BlockLines(qs[0], n)
    ensures |qs| > 1 ==> BodyLines(qs, n) == BlockLines(qs[0], n) + (SEPARATOR + BodyLines(qs[1..], n + 1))
  {
  }

  /** Every line of a block is a body line. */
  lemma BlockBody(qq: Question, n: nat)
    requires QuestionSafe(qq)
    ensures forall k :: 0 <= k < |BlockLines(qq, n)| ==> BodyLine(BlockLines(qq, n)[k])
  {
    forall k | 0 <= k < |BlockLines(qq, n)|
      ensures BodyLine(BlockLines(qq, n)[k])
    {
      BlockLinesBody(qq, n, k);
    }
  }

  /** The title the builder writes is matched by the title filter up to its line break. */
  lemma TitleLineMatch(dn: string, rest: string)
    requires LineSafe(dn)
    ensures TitleMatchLength("# Quiz: " + dn + "\n" + rest) == |"# Quiz: " + dn|
  {
    TitleAfterHash(dn, rest);
    TitleWord(dn, rest);
    LineHeadOfLine(" " + dn, rest);
  }

  lemma TitleAfterHash(dn: string, rest: string)
    requires dn != [] && !IsSpace(dn[0])
    ensures AfterMarker("# Quiz: " + dn + "\n" + rest) == "Quiz: " + dn + "\n" + rest
  {
    var after := "Quiz: " + dn + "\n" + rest;
    assert "# Quiz: " + dn + "\n" + rest == ['#'] + [' '] + after;
    MarkerSplit('#', [' '], after);
  }

  lemma TitleWord(dn: string, rest: string)
    requires '\n' !in dn
    ensures var after := "Quiz: " + dn + "\n" + rest;
      HasPrefixCI(after, "quiz:") && after[5..] == " " + dn + "\n" + rest && '\n' !in " " + dn
  {
    var after := "Quiz: " + dn + "\n" + rest;
    assert after[..5] == "Quiz:";
    assert after[5..] == " " + dn + "\n" + rest;
  }

  /** Text whose lines never start with `#` passes the title filter unchanged. */
  lemma {:induction false} StripTitlesNoHash(ls: seq<string>)
    requires ls != []
    requires forall k :: 0 <= k < |ls| ==> '\n' !in ls[k] && (ls[k] == [] || ls[k][0] != '#')
    ensures StripTitles(Join(ls, "\n")) == Join(ls, "\n")
    decreases |ls|
  {
    var s := Join(ls, "\n");
    if |ls| == 1 {
      assert s == ls[0];
      assert TitleMatchLength(s) == 0;
    } else {
      var r := Join(ls[1..], "\n");
      assert s == ls[0] + "\n" + r;
      IndexOfAfter(ls[0], r);
      assert s[..|ls[0]|] == ls[0] && s[|ls[0]| + 1..] == r;
      assert TitleMatchLength(s) == 0;
      StripTitlesNoHash(ls[1..]);
    }
  }

  /** The builder's text is its title line, a blank line and the body lines, joined by line breaks. */
  lemma BuilderTextLines(q: Quiz)
    requires q.questions != []
    ensures BuilderText(q) == Join(["# Quiz: " + DisplayName(q), ""] + BodyLines(q.questions, 1), "\n")
    ensures BuilderText(q) == "# Quiz: " + DisplayName(q) + "\n" + ("\n" + Join(BodyLines(q.questions, 1), "\n"))
  {
    JoinBlocks(q.questions, 1);
    TitledText("# Quiz: " + DisplayName(q), Join(Blocks(q.questions, 1), "\n\n-\n\n"), BodyLines(q.questions, 1));
  }

  lemma TitledText(t: string, text: string, body: seq<string>)
    requires body != [] && text == Join(body, "\n")
    ensures t + "\n\n" + text == Join([t, ""] + body, "\n")
    ensures t + "\n\n" + text == t + "\n" + ("\n" + text)
  {
    JoinAppend([t, ""], body, "\n");
    assert Join([t, ""], "\n") == t + "\n";
  }

  /** What the normaliser and the title filter need of a line: no line break, no `+ `/`- ` start, no `#` start. */
  predicate PlainLine(l: string) {
    '\n' !in l && !IsSignLine(l) && (l == [] || l[0] != '#')
  }

  /** Every line of the body is plain, and its first and last lines are body lines. */
  lemma BodyLinesPlain(qs: seq<Question>)
    requires qs != []
    requires forall i :: 0 <= i < |qs| ==> QuestionSafe(qs[i])
    ensures var body := BodyLines(qs, 1);
      && (forall k :: 0 <= k < |body| ==> PlainLine(body[k]))
      && BodyLine(body[0]) && BodyLine(body[|body| - 1])
  {
    BodyLinesWritten(qs, 1);
    WrittenPlain(BodyLines(qs, 1));
    StemLine(qs[0].text, 1);
  }

  lemma WrittenPlain(ls: seq<string>)
    requires forall k :: 0 <= k < |ls| ==> WrittenLine(ls[k])
    ensures forall k :: 0 <= k < |ls| ==> PlainLine(ls[k])
  {
    forall k | 0 <= k < |ls|
      ensures PlainLine(ls[k])
    {
      WrittenIsPlain(ls[k]);
    }
  }

  lemma WrittenIsPlain(l: string)
    requires WrittenLine(l)
    ensures PlainLine(l)
  {
    if l == "-" {
      TrimStartOfTrimmed(l);
    } else if l != "" {
      NotSignLine(l);
    }
  }

  lemma TitledPlain(t: string, body: seq<string>)
    requires '\n' !in t && !IsSignLine(t)
    requires forall k :: 0 <= k < |body| ==> '\n' !in body[k] && !IsSignLine(body[k])
    ensures var all := [t, ""] + body;
      forall k :: 0 <= k < |all| ==> '\n' !in all[k] && !IsSignLine(all[k])
  {
    var all := [t, ""] + body;
    assert all[0] == t;
    assert all[1] == "";
    forall k | 2 <= k < |all|
      ensures all[k] == body[k - 2]
    {
    }
  }

  lemma HashNotSign(t: string)
    requires t != [] && t[0] == '#'
    ensures !IsSignLine(t)
  {
    TrimStartOfTrimmed(t);
  }

  /** Text of lines without line breaks or `+ `/`- ` lines is not rewritten by the normaliser. */
  lemma PlainText(all: seq<string>)
    requires all != [] && forall k :: 0 <= k < |all| ==> '\n' !in all[k] && !IsSignLine(all[k])
    ensures NormalizeEmojiFormat(Join(all, "\n")) == Join(all, "\n")
  {
    SplitJoin(all);
    NormalizeKeepsPlainLines(all);
  }

  /** The lines with the trailing whitespace of the last one removed. */
  function TrimLast(ls: seq<string>): (r: seq<string>)
    requires ls != []
    ensures |r| == |ls| && r[..|ls| - 1] == ls[..|ls| - 1] && r[|ls| - 1] == TrimEnd(ls[|ls| - 1])
  {
    ls[..|ls| - 1] + [TrimEnd(ls[|ls| - 1])]
  }

  /** At the end of joined lines, `trimEnd` only reaches into the last line when that line is not all whitespace. */
  lemma TrimEndJoin(a: string, ls: seq<string>)
    requires ls != [] && TrimEnd(ls[|ls| - 1]) != []
    ensures TrimEnd(a + Join(ls, "\n")) == a + Join(TrimLast(ls), "\n")
  {
    var last := ls[|ls| - 1];
    if |ls| == 1 {
      assert TrimLast(ls) == [TrimEnd(last)];
      TrimEndPrepend(a, last);
    } else {
      var init := ls[..|ls| - 1];
      assert ls == init + [last];
      JoinAppend(init, [last], "\n");
      assert TrimLast(ls) == init + [TrimEnd(last)];
      JoinAppend(init, [TrimEnd(last)], "\n");
      var b := a + (Join(init, "\n") + "\n");
      assert a + Join(ls, "\n") == b + last;
      assert a + Join(TrimLast(ls), "\n") == b + TrimEnd(last);
      TrimEndPrepend(b, last);
    }
  }

  /** A body line without its trailing whitespace: a plain line with the same start and the same `trim`. */
  lemma TrimEndLine(l: string)
    requires BodyLine(l)
    ensures var r := TrimEnd(l);
      r != [] && r[0] == l[0] && !IsSpace(r[|r| - 1]) && PlainLine(r) && Trim(r) == Trim(l)
  {
    var r := TrimEnd(l);
    TrimKeepsFirst(l);
    assert forall i :: 0 <= i < |r| ==> r[i] == l[i];
    NotSignLine(r);
    TrimIdempotent(l);
  }

  /** The body with its end trimmed: plain lines, trimmed as a whole, and the same lines once each is trimmed. */
  lemma TrimLastLines(body: seq<string>)
    requires body != [] && forall k :: 0 <= k < |body| ==> PlainLine(body[k])
    requires BodyLine(body[0]) && BodyLine(body[|body| - 1])
    ensures var b := TrimLast(body);
      && (forall k :: 0 <= k < |b| ==> PlainLine(b[k]))
      && Trimmed(Join(b, "\n"))
      && Trims(b) == Trims(body)
  {
    TrimEndLine(body[|body| - 1]);
    TrimLastPlain(body);
    TrimLastJoin(body);
    TrimLastTrims(body);
  }

  lemma TrimLastPlain(body: seq<string>)
    requires body != [] && forall k :: 0 <= k < |body| ==> PlainLine(body[k])
    requires PlainLine(TrimEnd(body[|body| - 1]))
    ensures var b := TrimLast(body); forall k :: 0 <= k < |b| ==> PlainLine(b[k])
  {
    var b := TrimLast(body);
    forall k | 0 <= k < |b|
      ensures PlainLine(b[k])
    {
      if k < |b| - 1 {
        assert b[k] == b[..|b| - 1][k];
      }
    }
  }

  lemma TrimLastJoin(body: seq<string>)
    requires body != [] && BodyLine(body[0])
    requires var r := TrimEnd(body[|body| - 1]); r != [] && !IsSpace(r[|r| - 1])
    requires |body| == 1 ==> !IsSpace(TrimEnd(body[0])[0])
    ensures Trimmed(Join(TrimLast(body), "\n"))
  {
    var b := TrimLast(body);
    if |body| > 1 {
      assert b[0] == b[..|b| - 1][0] == body[0];
    }
    JoinTrimmed(b, "\n");
  }

  lemma TrimLastTrims(body: seq<string>)
    requires body != [] && Trim(TrimEnd(body[|body| - 1])) == Trim(body[|body| - 1])
    ensures Trims(TrimLast(body)) == Trims(body)
  {
    TrimsSnoc(TrimLast(body));
    TrimsSnoc(body);
  }

  /** The builder's text once `trim` has run: the title line, a blank line, and the body whose last line lost its trailing whitespace. */
  function TrimmedText(q: Quiz): (r: string)
    requires q.questions != []
    ensures r != [] && r[0] == '#'
  {
    "# Quiz: " + DisplayName(q) + "\n" + ("\n" + Join(TrimLast(BodyLines(q.questions, 1)), "\n"))
  }

  lemma BuilderTextTrim(q: Quiz)
    requires QuizSafe(q)
    ensures Trim(BuilderText(q)) == TrimmedText(q)
  {
    var t, body := "# Quiz: " + DisplayName(q), BodyLines(q.questions, 1);
    BuilderTextLines(q);
    BodyLinesPlain(q.questions);
    TrimEndLine(body[|body| - 1]);
    assert t[0] == '#';
    TrimTitled(t, body);
  }

  /** `trim` on a title line, a blank line and a body only reaches into the body's last line. */
  lemma TrimTitled(t: string, body: seq<string>)
    requires t != [] && !IsSpace(t[0]) && body != [] && TrimEnd(body[|body| - 1]) != []
    ensures Trim(t + "\n" + ("\n" + Join(body, "\n"))) == t + "\n" + ("\n" + Join(TrimLast(body), "\n"))
  {
    var a := t + "\n" + "\n";
    AppendAssoc(t + "\n", "\n", Join(body, "\n"));
    AppendAssoc(t + "\n", "\n", Join(TrimLast(body), "\n"));
    var s := a + Join(body, "\n");
    assert s[0] == t[0];
    TrimStartOfTrimmed(s);
    TrimEndJoin(a, body);
  }

  /** The normaliser leaves the trimmed text alone. */
  lemma TrimmedTextPlain(q: Quiz)
    requires QuizSafe(q)
    ensures NormalizeEmojiFormat(TrimmedText(q)) == TrimmedText(q)
  {
    var body := BodyLines(q.questions, 1);
    BodyLinesPlain(q.questions);
    TrimLastLines(body);
    TitledTextPlain(DisplayName(q), TrimLast(body));
  }

  /** The builder's title line, a blank line and plain lines: nothing for the normaliser to rewrite. */
  lemma TitledTextPlain(dn: string, b: seq<string>)
    requires LineSafe(dn) && b != [] && forall k :: 0 <= k < |b| ==> PlainLine(b[k])
    ensures var text := "# Quiz: " + dn + "\n" + ("\n" + Join(b, "\n"));
      NormalizeEmojiFormat(text) == text
  {
    var t := "# Quiz: " + dn;
    TitleLinePlain(dn);
    TitledText(t, Join(b, "\n"), b);
    TitledPlain(t, b);
    PlainText([t, ""] + b);
  }

  lemma TitleLinePlain(dn: string)
    requires LineSafe(dn)
    ensures '\n' !in "# Quiz: " + dn && !IsSignLine("# Quiz: " + dn)
  {
    var t := "# Quiz: " + dn;
    assert forall k :: 0 <= k < |t| ==> t[k] == if k < 8 then "# Quiz: "[k] else dn[k - 8];
    HashNotSign(t);
  }

  /** The trimmed text splits into the pieces the parser reads: the builder's blocks, their lines trimmed. */
  lemma TrimmedTextBlocks(q: Quiz)
    requires QuizSafe(q)
    ensures BlocksOf(TrimmedText(q)) == BlockLinesSeq(q.questions, 1)
  {
    var body := BodyLines(q.questions, 1);
    var b := TrimLast(body);
    BodyLinesPlain(q.questions);
    TrimLastLines(body);
    PlainBody(b);
    BlocksOfTitled(TrimmedText(q), DisplayName(q), Join(b, "\n"), Trims(body));
    SplitBody(q.questions, 1);
  }

  lemma PlainBody(body: seq<string>)
    requires body != [] && forall k :: 0 <= k < |body| ==> PlainLine(body[k])
    ensures var bt := Join(body, "\n"); StripTitles(bt) == bt && SplitLines(bt) == body
  {
    StripTitlesNoHash(body);
    SplitJoin(body);
  }

  /** A title line, a blank line, then a body the title filter and `trim` leave alone. */
  lemma BlocksOfTitled(raw: string, dn: string, bt: string, lines: seq<string>)
    requires LineSafe(dn) && raw == "# Quiz: " + dn + "\n" + ("\n" + bt)
    requires StripTitles(bt) == bt && Trimmed(bt) && Trims(SplitLines(bt)) == lines
    ensures BlocksOf(raw) == SplitBlocks(lines)
  {
    StripTitleLine(dn, bt);
    TrimBreaks(bt);
  }

  lemma TrimBreaks(bt: string)
    requires Trimmed(bt)
    ensures Trim("\n\n" + bt) == bt
  {
    TrimAfterSpaces("\n\n", bt);
  }

  /** The title filter removes the builder's title line and keeps the blank line after it. */
  lemma StripTitleLine(dn: string, bt: string)
    requires LineSafe(dn) && StripTitles(bt) == bt
    ensures StripTitles("# Quiz: " + dn + "\n" + ("\n" + bt)) == "\n\n" + bt
  {
    StripTitledLine(dn, "\n" + bt);
    StripTitlesAfterBreak(bt);
    AppendAssoc("\n", "\n", bt);
  }

  lemma StripTitledLine(dn: string, rest: string)
    requires LineSafe(dn)
    ensures StripTitles("# Quiz: " + dn + "\n" + rest) == "\n" + StripTitles(rest)
  {
    TitleLineMatch(dn, rest);
    StripTitlesAfterMatch("# Quiz: " + dn + "\n" + rest);
    DropLine("# Quiz: " + dn, rest);
  }

  lemma StripTitlesAfterBreak(bt: string)
    ensures StripTitles("\n" + bt) == "\n" + StripTitles(bt)
  {
    var s := "\n" + bt;
    BreakFirst(bt);
    StripTitlesAfterLine(s);
    assert s[..0] + "\n" == "\n";
  }

  lemma BreakFirst(bt: string)
    ensures TitleMatchLength("\n" + bt) == 0 && '\n' in "\n" + bt
    ensures IndexOf("\n" + bt, '\n') == 0
    ensures ("\n" + bt)[..0] == "" && ("\n" + bt)[1..] == bt
  {
  }

  // ---------------------------------------------------------------------------
  // Loading a quiz and parsing it again

  /**
   * Parsing what `loadQuizIntoBuilder` put into the two fields, with the loaded
   * draft as the previous draft, gives that draft back: the same id and name, the
   * options of the checkboxes, and the same questions in order with fresh ids; under
   * the explanation test as written and under the corrected one.
   */
  lemma BuilderRoundTrip(rd: Reading, q: Quiz, nextId: nat, options: Options, m: nat)
    requires QuizSafe(q)
    ensures var l := LoadIntoBuilder(q, nextId);
      ParseRawSpec(rd, l.rawField, l.nameField, options, Some(l.draft), m)
        == Parsed(Some(Quiz(l.draft.id, l.nameField, options, Numbered(Plains(q.questions), m))), m + |q.questions|)
  {
    var l := LoadIntoBuilder(q, nextId);
    var ps := Numbered(Plains(q.questions), m);
    assert l.rawField == BuilderText(q) && l.nameField == DisplayName(q) == l.draft.name && Truthy(l.draft.id);
    assert ParseRawSpec(rd, l.rawField, l.nameField, options, Some(l.draft), m) == Assemble(l.nameField, ps, options, Some(l.draft), m) by {
      ParseBuilderText(rd, q, options, Some(l.draft), m);
    }
    AssembleKept(l.nameField, ps, options, Some(l.draft), m);
  }

  /** The builder's text and display name parse to its questions without ids, under the display name. */
  lemma ParseBuilderText(rd: Reading, q: Quiz, options: Options, prior: Option<Quiz>, m: nat)
    requires QuizSafe(q)
    ensures ParseRawSpec(rd, BuilderText(q), DisplayName(q), options, prior, m)
      == Assemble(DisplayName(q), Numbered(Plains(q.questions), m), options, prior, m)
  {
    var raw, dn := TrimmedText(q), DisplayName(q);
    var ps := Numbered(Plains(q.questions), m);
    BuilderTextRaw(q);
    BuilderTextQuestions(rd, q, m);
    assert DraftName(dn, FindTitle(raw)) == dn by {
      TrimOfTrimmed(dn);
    }
    ParseRawSpecOfParts(rd, BuilderText(q), dn, options, prior, m, raw, dn, ps);
  }

  lemma BuilderTextRaw(q: Quiz)
    requires QuizSafe(q)
    ensures NormalizeEmojiFormat(Trim(BuilderText(q))) == TrimmedText(q) != []
  {
    BuilderTextTrim(q);
    TrimmedTextPlain(q);
  }

  lemma BuilderTextQuestions(rd: Reading, q: Quiz, m: nat)
    requires QuizSafe(q)
    ensures ParsedQuestions(rd, BlocksOf(TrimmedText(q)), m) == Numbered(Plains(q.questions), m)
  {
    TrimmedTextBlocks(q);
    BlockQuestionsBack(rd, q.questions, 1);
  }

  lemma ParseRawSpecOfParts(rd: Reading, rawField: string, nameField: string, options: Options, prior: Option<Quiz>, nextId: nat,
                            raw: string, name: string, qs: seq<Question>)
    requires NormalizeEmojiFormat(Trim(rawField)) == raw && raw != []
    requires DraftName(nameField, FindTitle(raw)) == name
    requires ParsedQuestions(rd, BlocksOf(raw), nextId) == qs
    ensures ParseRawSpec(rd, rawField, nameField, options, prior, nextId) == Assemble(name, qs, options, prior, nextId)
  {
    ParseRawSpecOfText(rd, rawField, nameField, options, prior, nextId);
  }

  lemma AssembleKept(name: string, qs: seq<Question>, options: Options, prior: Option<Quiz>, nextId: nat)
    requires qs != [] && name != [] && prior.Some? && Truthy(prior.value.id) && prior.value.name == name
    ensures Assemble(name, qs, options, prior, nextId) == Parsed(Some(Quiz(prior.value.id, name, options, qs)), nextId + |qs|)
  {
  }

  lemma {:induction false} PlainsAt(qs: seq<Question>, i: nat)
    requires i < |qs|
    ensures Plains(qs)[i] == Plain(qs[i])
    decreases i
  {
    if i > 0 {
      PlainsAt(qs[1..], i - 1);
    }
  }

  /** Question `i` read back has the text, explanation and choices of question `i` of the quiz, and id `m + i`. */
  lemma LoadedQuestion(qs: seq<Question>, m: nat, i: nat)
    requires i < |qs|
    ensures var p := Numbered(Plains(qs), m)[i];
      && p.id == Some(Uid(m + i))
      && p.text == qs[i].text && p.explanation == qs[i].explanation
      && |p.choices| == |qs[i].choices|
      && forall k :: 0 <= k < |p.choices| ==>
           p.choices[k].text == qs[i].choices[k].text && p.choices[k].correct == qs[i].choices[k].correct
  {
    NumberedAt(Plains(qs), m, i);
    PlainsAt(qs, i);
  }
}
