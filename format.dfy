/**
 * The plain-text quiz format (app.js:368-411 and 723-736): one line parsed as
 * a choice, the `+ `/`- ` to emoji normalisation, the parser from raw text to a
 * quiz draft, and the text the builder writes when a saved quiz is edited.
 *
 * Regular expressions are written out as functions over `seq<char>`. Only
 * '\n' is a line break for `^`, `$` and `.`; `\s` is `Text.IsSpace`.
 */
module QuizFormat {
  import opened Wrappers
  import opened Text
  import opened Ids

  /** ✅ (U+2705), the "correct" marker. */
  const CHECK: char := '\U{2705}'
  /** ❎ (U+274E), the "incorrect" marker. */
  const CROSS: char := '\U{274E}'

  datatype Options = Options(shuffleQuestions: bool, shuffleChoices: bool, instantFeedback: bool)

  datatype Choice = Choice(id: Option<string>, text: string, correct: bool)

  datatype Question = Question(id: Option<string>, text: string, explanation: string, choices: seq<Choice>)

  datatype Quiz = Quiz(id: Option<string>, name: string, options: Options, questions: seq<Question>)

  // ---------------------------------------------------------------------------
  // One choice line (app.js:368-373)

  datatype ChoiceLine = ChoiceLine(text: string, correct: bool)

  predicate IsChoiceMarker(c: char) {
    c == CHECK || c == CROSS || c == '+' || c == '-'
  }

  /** What follows a one-character marker once the whitespace after it is skipped. */
  function AfterMarker(s: string): (r: string)
    requires s != []
    ensures |r| < |s| && r == s[|s| - |r|..]
    ensures forall i :: 1 <= i < |s| - |r| ==> IsSpace(s[i])
    ensures r == [] || !IsSpace(r[0])
  {
    TrimStart(s[1..])
  }

  /**
   * `parseChoiceLine`: a trimmed line starting with ✅ or `+` is a correct
   * choice, one starting with ❎ or `-` an incorrect one; the marker and the
   * whitespace after it are dropped from the text. Any other line is no choice.
   */
  function ParseChoiceLine(ln: string): (r: Option<ChoiceLine>)
    ensures var s := Trim(ln);
      && (r.Some? <==> s != [] && IsChoiceMarker(s[0]))
      && (r.Some? ==> (r.value.correct <==> s[0] == CHECK || s[0] == '+'))
      && (r.Some? ==> r.value.text == AfterMarker(s))
  {
    var s := Trim(ln);
    if s != [] && (s[0] == CHECK || s[0] == CROSS) then
      Some(ChoiceLine(AfterMarker(s), s[0] == CHECK))
    else if s != [] && (s[0] == '+' || s[0] == '-') then
      Some(ChoiceLine(AfterMarker(s), s[0] == '+'))
    else
      None
  }

  // ---------------------------------------------------------------------------
  // Normalisation of `+ ` / `- ` lines (app.js:374-380)

  /** The line's first non-space character is `+` or `-` and whitespace follows it. */
  predicate IsSignLine(line: string) {
    var w := TrimStart(line);
    |w| >= 2 && (w[0] == '+' || w[0] == '-') && IsSpace(w[1])
  }

  // One line of `normalizeEmojiFormat`: the prefix matched by /^\s*\+\s+/ becomes
  // "✅ " and the prefix matched by /^\s*\-\s+/ becomes "❎ ".
  function NormalizeLine(line: string): (r: string)
    ensures !IsSignLine(line) ==> r == line
    ensures IsSignLine(line) ==>
      r == [if TrimStart(line)[0] == '+' then CHECK else CROSS, ' '] + AfterMarker(TrimStart(line))
  {
    var w := TrimStart(line);
    if |w| >= 2 && w[0] == '+' && IsSpace(w[1]) then [CHECK, ' '] + AfterMarker(w)
    else if |w| >= 2 && w[0] == '-' && IsSpace(w[1]) then [CROSS, ' '] + AfterMarker(w)
    else line
  }

  function NormalizeLines(ls: seq<string>): (r: seq<string>)
    ensures |r| == |ls|
    ensures forall k :: 0 <= k < |ls| ==> r[k] == NormalizeLine(ls[k])
  {
    seq(|ls|, k requires 0 <= k < |ls| => NormalizeLine(ls[k]))
  }

  /** `normalizeEmojiFormat`: every line normalised, joined again with "\n". */
  function NormalizeEmojiFormat(raw: string): string {
    Join(NormalizeLines(SplitLines(raw)), "\n")
  }

  lemma NormalizeLineNoBreak(line: string)
    requires '\n' !in line
    ensures '\n' !in NormalizeLine(line)
  {
    if IsSignLine(line) {
      var w := TrimStart(line);
      NoBreakInSuffix(line, w);
      NoBreakInSuffix(w, AfterMarker(w));
    }
  }

  /** Normalisation keeps the number of lines and rewrites each line on its own. */
  lemma NormalizeKeepsLines(raw: string)
    ensures SplitLines(NormalizeEmojiFormat(raw)) == NormalizeLines(SplitLines(raw))
  {
    var ls := NormalizeLines(SplitLines(raw));
    forall k | 0 <= k < |ls| ensures '\n' !in ls[k] {
      NormalizeLineNoBreak(SplitLines(raw)[k]);
    }
    SplitJoin(ls);
  }

  /** Text without `+ `/`- ` lines is left as it is. */
  lemma NormalizeKeepsPlainLines(ls: seq<string>)
    requires forall k :: 0 <= k < |ls| ==> !IsSignLine(ls[k])
    ensures NormalizeLines(ls) == ls
  {
    forall k | 0 <= k < |ls|
      ensures NormalizeLines(ls)[k] == ls[k]
    {
    }
  }

  /** A separator line holding only `-` (after any indentation) is left alone. */
  lemma NormalizeKeepsDashLine(line: string)
    requires TrimStart(line) == "-"
    ensures NormalizeLine(line) == line
  {
  }

  /** A `-` followed only by whitespace is rewritten to an empty incorrect choice `❎ `. */
  lemma NormalizeRewritesSpacedDash(line: string)
    requires |line| >= 2 && line[0] == '-' && forall i :: 1 <= i < |line| ==> IsSpace(line[i])
    ensures NormalizeLine(line) == [CROSS, ' ']
  {
    TrimStartOfTrimmed(line);
    var w := line[1..];
    assert forall i :: 0 <= i < |w| ==> IsSpace(w[i]);
    assert TrimStart(w) == [];
  }

  /** A marker, the whitespace after it and the rest of the line. */
  lemma MarkerSplit(c: char, ws: string, rest: string)
    requires forall i :: 0 <= i < |ws| ==> IsSpace(ws[i])
    requires rest == [] || !IsSpace(rest[0])
    ensures AfterMarker([c] + ws + rest) == rest
  {
    assert ([c] + ws + rest)[1..] == ws + rest;
    TrimStartSpacesThen(ws, rest);
  }

  /** Trimming a marker line only trims the end of the text after the marker. */
  lemma MarkerTrim(c: char, ws: string, rest: string)
    requires !IsSpace(c)
    requires forall i :: 0 <= i < |ws| ==> IsSpace(ws[i])
    requires rest == [] || !IsSpace(rest[0])
    ensures Trim([c] + ws + rest) == if rest == [] then [c] else [c] + ws + TrimEnd(rest)
  {
    var s := [c] + ws + rest;
    TrimKeepsFirst(s);
    if rest == [] {
      assert s == [c] + ws;
      TrimEndSpaces([c], ws);
      TrimEndOfTrimmed([c]);
    } else {
      TrimEndPrepend([c] + ws, rest);
    }
  }

  /** After trimming, what follows the marker is the rest of the line without its trailing whitespace. */
  lemma AfterMarkerOfTrim(x: string, c: char, ws: string, rest: string)
    requires x == [c] + ws + rest
    requires !IsSpace(c)
    requires forall i :: 0 <= i < |ws| ==> IsSpace(ws[i])
    requires rest == [] || !IsSpace(rest[0])
    ensures var t := Trim(x); t != [] && t[0] == c && AfterMarker(t) == TrimEnd(rest)
  {
    MarkerTrim(c, ws, rest);
    if rest == [] {
      assert TrimStart([]) == [];
    } else {
      MarkerSplit(c, ws, TrimEnd(rest));
    }
  }

  /** A line whose trimmed form starts with marker `c` parses as that marker's choice. */
  lemma ParseMarkerLine(ln: string, x: string, c: char, rest: string)
    requires IsChoiceMarker(c)
    requires var t := Trim(x); t != [] && t[0] == c && AfterMarker(t) == TrimEnd(rest)
    requires Trim(ln) == Trim(x)
    ensures ParseChoiceLine(ln) == Some(ChoiceLine(TrimEnd(rest), c == CHECK || c == '+'))
  {
  }

  /** A string is its marker, the whitespace after the marker, and what follows. */
  lemma MarkerParts(w: string) returns (ws: string)
    requires w != []
    ensures w == [w[0]] + ws + AfterMarker(w)
    ensures forall i :: 0 <= i < |ws| ==> IsSpace(ws[i])
  {
    ws := TrimStartParts(w[1..]);
    ConsSplit(w, ws, AfterMarker(w));
  }

  /** A `+ `/`- ` line parses as a choice whose text is what follows the sign. */
  lemma SignLineChoice(line: string, w: string, rest: string)
    requires IsSignLine(line)
    requires w == TrimStart(line) && rest == AfterMarker(w)
    ensures ParseChoiceLine(line) == Some(ChoiceLine(TrimEnd(rest), w[0] == '+'))
  {
    var ws := MarkerParts(w);
    AfterMarkerOfTrim(w, w[0], ws, rest);
    TrimAfterTrimStart(line);
    ParseMarkerLine(line, w, w[0], rest);
  }

  /** An emoji line `m ` followed by text parses as that marker's choice. */
  lemma EmojiLineChoice(m: char, rest: string)
    requires m == CHECK || m == CROSS
    requires rest == [] || !IsSpace(rest[0])
    ensures ParseChoiceLine([m, ' '] + rest) == Some(ChoiceLine(TrimEnd(rest), m == CHECK))
  {
    var r := [m, ' '] + rest;
    assert r == [m] + [' '] + rest;
    AfterMarkerOfTrim(r, m, [' '], rest);
    ParseMarkerLine(r, r, m, rest);
  }

  /** The two marker conventions are interchangeable: a normalised line parses as the same choice. */
  lemma NormalizePreservesChoice(line: string)
    ensures ParseChoiceLine(NormalizeLine(line)) == ParseChoiceLine(line)
  {
    if IsSignLine(line) {
      var w := TrimStart(line);
      SignLineChoice(line, w, AfterMarker(w));
      EmojiLineChoice(if w[0] == '+' then CHECK else CROSS, AfterMarker(w));
    }
  }

  // ---------------------------------------------------------------------------
  // The `# Quiz:` title line (app.js:383-385)

  /** The current line of `s`: everything before its first '\n'. */
  function LineHead(s: string): (r: string)
    ensures '\n' !in r
    ensures |r| <= |s| && r == s[..|r|]
    ensures |r| == |s| || s[|r|] == '\n'
  {
    if '\n' in s then s[..IndexOf(s, '\n')] else s
  }

  // The capture of /^#\s*Quiz:\s*(.+)$/mi tried at the start of `t`. When only
  // whitespace follows the colon the regex either fails or captures whitespace
  // that `trim()` empties; both leave the name unset, reported here as `None`.
  function TitleCaptureAt(t: string): (r: Option<string>)
    ensures r.Some? ==> r.value != [] && '\n' !in r.value && !IsSpace(r.value[0])
  {
    if t != [] && t[0] == '#' then
      var a := AfterMarker(t);
      if HasPrefixCI(a, "quiz:") then
        var b := TrimStart(a[5..]);
        if b == [] then None else Some(LineHead(b))
      else None
    else None
  }

  /** The first line start of `raw` at which the title regex matches, and its capture. */
  function FindTitle(raw: string): (r: Option<string>)
    ensures r.Some? ==> r.value != [] && '\n' !in r.value && !IsSpace(r.value[0])
    decreases |raw|
  {
    var here := TitleCaptureAt(raw);
    if here.Some? then here
    else if '\n' in raw then FindTitle(raw[IndexOf(raw, '\n') + 1..])
    else None
  }

  // The length of the match of /^#\s*Quiz:.+$/mi at the start of `t`, or 0 when
  // it does not match there. The match ends at a line break or at the end of `t`.
  function TitleMatchLength(t: string): (k: nat)
    ensures k <= |t|
    ensures k > 0 ==> t[0] == '#' && (k == |t| || t[k] == '\n')
  {
    if t != [] && t[0] == '#' then
      var a := AfterMarker(t);
      if HasPrefixCI(a, "quiz:") && LineHead(a[5..]) != [] then
        var rest := a[5..];
        var line := LineHead(rest);
        assert t[|t| - |rest|..] == rest;
        |t| - |rest| + |line|
      else 0
    else 0
  }

  /** A single line holding a title: the removal regex matches it. */
  predicate IsTitleLine(line: string) {
    TitleMatchLength(line) > 0
  }

  /** `raw.replace(/^#\s*Quiz:.+$/gmi, "")`: every title match, at a line start, replaced by nothing. */
  function StripTitles(s: string): (r: string)
    decreases |s|
  {
    var k := TitleMatchLength(s);
    if k > 0 then
      if k == |s| then "" else "\n" + StripTitles(s[k + 1..])
    else if '\n' in s then
      var i := IndexOf(s, '\n');
      s[..i] + "\n" + StripTitles(s[i + 1..])
    else s
  }

  /** An explicit name wins; otherwise the trimmed title capture, if any. */
  function DraftName(nameField: string, title: Option<string>): (r: string)
    ensures Trim(nameField) != [] ==> r == Trim(nameField)
    ensures Trim(nameField) == [] && title.Some? ==> r == Trim(title.value)
    ensures Trim(nameField) == [] && title.None? ==> r == []
  {
    var name := Trim(nameField);
    if name == [] && title.Some? then Trim(title.value) else name
  }

  lemma LineHeadOfLine(x: string, rest: string)
    requires '\n' !in x
    ensures LineHead(x + "\n" + rest) == x
  {
    var s := x + "\n" + rest;
    assert s[|x|] == '\n';
    assert s[..|x|] == x;
  }

  /** Skipping the whitespace after `#` is not affected by what follows a non-blank line. */
  lemma AfterHashExtends(line: string, rest: string)
    requires line != [] && AfterMarker(line) != []
    ensures (line + rest) != [] && AfterMarker(line + rest) == AfterMarker(line) + rest
  {
    assert (line + rest)[1..] == line[1..] + rest;
    TrimStartAppend(line[1..], rest);
  }

  /** A title line followed by more text is still matched at its start. */
  lemma TitleLineExtends(line: string, rest: string)
    requires '\n' !in line && IsTitleLine(line)
    ensures TitleMatchLength(line + "\n" + rest) > 0
  {
    var a := AfterMarker(line);
    AppendAssoc(line, "\n", rest);
    AfterHashExtends(line, "\n" + rest);
    HasPrefixCIAppend(a, "\n" + rest, "quiz:");
    TitleTailNoBreak(line);
    DropAppend(a, "\n" + rest, 5);
    AppendAssoc(a[5..], "\n", rest);
    LineHeadOfLine(a[5..], rest);
  }

  lemma TitleTailNoBreak(line: string)
    requires line != [] && '\n' !in line && |AfterMarker(line)| >= 5
    ensures '\n' !in AfterMarker(line)[5..]
  {
    var a := AfterMarker(line);
    assert forall i :: 0 <= i < |a| ==> a[i] == line[|line| - |a| + i];
  }

  predicate NoTitleLine(ls: seq<string>) {
    forall k :: 0 <= k < |ls| ==> !IsTitleLine(ls[k])
  }

  lemma StripTitlesAfterMatch(s: string)
    requires 0 < TitleMatchLength(s) < |s|
    ensures StripTitles(s) == "\n" + StripTitles(s[TitleMatchLength(s) + 1..])
  {
  }

  lemma StripTitlesAfterLine(s: string)
    requires TitleMatchLength(s) == 0 && '\n' in s
    ensures StripTitles(s) == s[..IndexOf(s, '\n')] + "\n" + StripTitles(s[IndexOf(s, '\n') + 1..])
  {
  }

  lemma NoTitleLineCons(x: string, ls: seq<string>)
    requires !IsTitleLine(x) && NoTitleLine(ls)
    ensures NoTitleLine([x] + ls)
  {
    forall k | 0 <= k < |ls| + 1
      ensures !IsTitleLine(([x] + ls)[k])
    {
      if k > 0 {
        assert ([x] + ls)[k] == ls[k - 1];
      }
    }
  }

  lemma NoTitleAfterMatch(s: string)
    requires 0 < TitleMatchLength(s) < |s|
    requires NoTitleLine(SplitLines(StripTitles(s[TitleMatchLength(s) + 1..])))
    ensures NoTitleLine(SplitLines(StripTitles(s)))
  {
    var r := StripTitles(s[TitleMatchLength(s) + 1..]);
    StripTitlesAfterMatch(s);
    SplitLinesLeadingBreak(r);
    NoTitleLineCons("", SplitLines(r));
  }

  lemma NoTitleAfterLine(s: string)
    requires TitleMatchLength(s) == 0 && '\n' in s
    requires NoTitleLine(SplitLines(StripTitles(s[IndexOf(s, '\n') + 1..])))
    ensures NoTitleLine(SplitLines(StripTitles(s)))
  {
    var i := IndexOf(s, '\n');
    var r := StripTitles(s[i + 1..]);
    StripTitlesAfterLine(s);
    SplitLinesCons(s[..i], r);
    if IsTitleLine(s[..i]) {
      AroundFirstBreak(s);
      TitleLineExtends(s[..i], s[i + 1..]);
      assert false;
    }
    NoTitleLineCons(s[..i], SplitLines(r));
  }

  /** After the title lines are removed, no line of the text is a title line. */
  lemma {:induction false} StripTitlesRemovesTitles(s: string)
    ensures NoTitleLine(SplitLines(StripTitles(s)))
    decreases |s|
  {
    var k := TitleMatchLength(s);
    if k > 0 {
      if k == |s| {
        assert StripTitles(s) == "";
        assert SplitLines("") == [""];
        assert !IsTitleLine("");
      } else {
        StripTitlesRemovesTitles(s[k + 1..]);
        NoTitleAfterMatch(s);
      }
    } else if '\n' in s {
      StripTitlesRemovesTitles(s[IndexOf(s, '\n') + 1..]);
      NoTitleAfterLine(s);
    } else {
      assert StripTitles(s) == s;
      assert SplitLines(s) == [s];
    }
  }

  // ---------------------------------------------------------------------------
  // Splitting the text into question blocks (app.js:386)
  //
  // `afterTitle.split(/(?:\n\s*-\s*\n|\n\s*\n+)/)` is computed on the lines of the
  // text, each trimmed, since every piece is split into trimmed lines right after.
  // A match starts at the line break after some line i. Let j be the next
  // non-blank line after i. The first alternative needs line j to be exactly "-"
  // and to be followed by a line break; the next piece then starts at the next
  // non-blank line after j, or at the last line when there is none. Otherwise the
  // second alternative needs at least two line breaks before the next
  // non-blank text; the next piece then starts at line j (or at the last line).

  /** The first line at or after `i` that is not blank, or `|ls|`. */
  function NextNonBlank(ls: seq<string>, i: nat): (j: nat)
    requires i <= |ls|
    ensures i <= j <= |ls|
    ensures forall k :: i <= k < j ==> ls[k] == ""
    ensures j < |ls| ==> ls[j] != ""
    decreases |ls| - i
  {
    if i == |ls| || ls[i] != "" then i else NextNonBlank(ls, i + 1)
  }

  /** Where the next piece starts when the text splits after line `i`; `None` when it does not. */
  function SeparatorEnd(ls: seq<string>, i: nat): (r: Option<nat>)
    requires i + 1 < |ls|
    ensures r.Some? ==> i + 1 < r.value < |ls|
    ensures r.Some? ==> forall k :: i < k < r.value ==> ls[k] == "" || ls[k] == "-"
  {
    var j := NextNonBlank(ls, i + 1);
    if j + 1 < |ls| && ls[j] == "-" then
      var k := NextNonBlank(ls, j + 1);
      Some(if k < |ls| then k else |ls| - 1)
    else
      var s := if j < |ls| then j else |ls| - 1;
      if s > i + 1 then Some(s) else None
  }

  /** The pieces of `ls` when no split happens before line `i`. */
  function SplitFrom(ls: seq<string>, i: nat): (r: seq<seq<string>>)
    requires i < |ls|
    ensures r != [] && i < |r[0]| <= |ls| && r[0] == ls[..|r[0]|]
    decreases |ls|, |ls| - i
  {
    if i == |ls| - 1 then [ls]
    else match SeparatorEnd(ls, i)
      case Some(s) => [ls[..i + 1]] + SplitFrom(ls[s..], 0)
      case None => SplitFrom(ls, i + 1)
  }

  /** The pieces of the split, as lists of trimmed lines. */
  function SplitBlocks(ls: seq<string>): seq<seq<string>> {
    if ls == [] then [] else SplitFrom(ls, 0)
  }

  /** The lines that carry content: neither blank nor a bare `-`. */
  function Content(ls: seq<string>): (r: seq<string>)
    ensures forall k :: 0 <= k < |r| ==> r[k] != "" && r[k] != "-"
  {
    if ls == [] then []
    else Content(ls[..|ls| - 1]) + (if ls[|ls| - 1] == "" || ls[|ls| - 1] == "-" then [] else [ls[|ls| - 1]])
  }

  function Flatten(pieces: seq<seq<string>>): seq<string> {
    if pieces == [] then [] else pieces[0] + Flatten(pieces[1..])
  }

  lemma {:induction false} ContentAppend(a: seq<string>, b: seq<string>)
    ensures Content(a + b) == Content(a) + Content(b)
    decreases |b|
  {
    if b == [] {
      assert a + b == a;
    } else {
      var b' := b[..|b| - 1];
      assert (a + b)[..|a + b| - 1] == a + b';
      ContentAppend(a, b');
    }
  }

  lemma {:induction false} ContentOfSeparators(ls: seq<string>)
    requires forall k :: 0 <= k < |ls| ==> ls[k] == "" || ls[k] == "-"
    ensures Content(ls) == []
    decreases |ls|
  {
    if ls != [] {
      ContentOfSeparators(ls[..|ls| - 1]);
    }
  }

  lemma FlattenCons(x: seq<string>, rest: seq<seq<string>>)
    ensures Flatten([x] + rest) == x + Flatten(rest)
  {
    assert ([x] + rest)[1..] == rest;
  }

  /** Dropping a run of separator lines keeps the content. */
  lemma ContentAroundSeparators(a: seq<string>, sep: seq<string>, b: seq<string>)
    requires forall k :: 0 <= k < |sep| ==> sep[k] == "" || sep[k] == "-"
    ensures Content(a + sep + b) == Content(a) + Content(b)
  {
    ContentOfSeparators(sep);
    ContentAppend(a + sep, b);
    ContentAppend(a, sep);
    assert Content(a) + [] == Content(a);
  }

  /** The split loses only blank lines and the `-` lines that separate blocks. */
  lemma {:induction false} SplitFromKeepsContent(ls: seq<string>, i: nat)
    requires i < |ls|
    ensures Content(Flatten(SplitFrom(ls, i))) == Content(ls)
    decreases |ls|, |ls| - i
  {
    if i == |ls| - 1 {
      FlattenCons(ls, []);
      assert ls + [] == ls;
    } else {
      match SeparatorEnd(ls, i)
      case Some(s) =>
        var rest := SplitFrom(ls[s..], 0);
        SplitFromKeepsContent(ls[s..], 0);
        FlattenCons(ls[..i + 1], rest);
        ContentAppend(ls[..i + 1], Flatten(rest));
        Slices3(ls, i + 1, s);
        ContentAroundSeparators(ls[..i + 1], ls[i + 1..s], ls[s..]);
      case None =>
        SplitFromKeepsContent(ls, i + 1);
    }
  }

  /** Every line that is neither blank nor a bare `-` reaches exactly one block, in order. */
  lemma SplitBlocksKeepsContent(ls: seq<string>)
    ensures Content(Flatten(SplitBlocks(ls))) == Content(ls)
  {
    if ls != [] {
      SplitFromKeepsContent(ls, 0);
    }
  }

  // ---------------------------------------------------------------------------
  // One block to one question (app.js:387-402)

  /** `xs.map(f)` */
  function Map<A, B>(f: A -> B, xs: seq<A>): (r: seq<B>)
    ensures |r| == |xs|
    ensures forall k :: 0 <= k < |xs| ==> r[k] == f(xs[k])
  {
    seq(|xs|, k requires 0 <= k < |xs| => f(xs[k]))
  }

  /** Mapping a concatenation maps each part. */
  lemma MapAppend<A, B>(f: A -> B, a: seq<A>, b: seq<A>)
    ensures Map(f, a + b) == Map(f, a) + Map(f, b)
  {
    var t, r := Map(f, a + b), Map(f, a) + Map(f, b);
    forall k | 0 <= k < |t|
      ensures t[k] == r[k]
    {
      if k < |a| {
        assert (a + b)[k] == a[k];
      } else {
        assert (a + b)[k] == b[k - |a|];
      }
    }
  }

  /** `ls.map(s => s.trim())` */
  function Trims(ls: seq<string>): (r: seq<string>)
    ensures |r| == |ls|
    ensures forall k :: 0 <= k < |ls| ==> r[k] == Trim(ls[k])
  {
    seq(|ls|, k requires 0 <= k < |ls| => Trim(ls[k]))
  }

  lemma TrimsIsMap(ls: seq<string>)
    ensures Trims(ls) == Map(Trim, ls)
  {
  }

  /** `.filter(Boolean)` on strings: the non-empty ones, in order. */
  function NonBlank(ls: seq<string>): (r: seq<string>)
    ensures |r| <= |ls|
    ensures forall k :: 0 <= k < |r| ==> r[k] != ""
  {
    if ls == [] then []
    else NonBlank(ls[..|ls| - 1]) + (if ls[|ls| - 1] == "" then [] else [ls[|ls| - 1]])
  }

  /** The number of leading decimal digits. */
  function DigitCount(s: string): (n: nat)
    ensures n <= |s|
    ensures forall k :: 0 <= k < n ==> IsDigit(s[k])
    ensures n == |s| || !IsDigit(s[n])
  {
    if s != [] && IsDigit(s[0]) then 1 + DigitCount(s[1..]) else 0
  }

  predicate IsOrdinalMark(c: char) {
    c == ')' || c == '.' || c == ':' || c == '-'
  }

  // `replace(/^\d+\s*[\).:-]\s*/, "")`: digits, optional whitespace, one of
  // `) . : -`, optional whitespace. `\d+` cannot give back a digit to make the
  // rest match, so the greedy reading is the only one.
  function StripOrdinal(s: string): string
  {
    var d := DigitCount(s);
    if d == 0 then s
    else
      var a := TrimStart(s[d..]);
      if a != [] && IsOrdinalMark(a[0]) then TrimStart(a[1..]) else s
  }

  /** `[\).:-]\s*` and nothing after it. */
  predicate MarkThenSpaces(w: string) {
    w != [] && IsOrdinalMark(w[0]) && forall k :: 1 <= k < |w| ==> IsSpace(w[k])
  }

  /** `\s*[\).:-]\s*` and nothing after it. */
  predicate SpacesThenMark(w: string)
    decreases |w|
  {
    w != [] && (MarkThenSpaces(w) || (IsSpace(w[0]) && SpacesThenMark(w[1..])))
  }

  /** `\d*\s*[\).:-]\s*` and nothing after it. */
  predicate DigitsThenMark(w: string)
    decreases |w|
  {
    w != [] && (SpacesThenMark(w) || (IsDigit(w[0]) && DigitsThenMark(w[1..])))
  }

  /** The whole of `p` matches `\d+\s*[\).:-]\s*`. */
  predicate OrdinalPrefix(p: string) {
    p != [] && IsDigit(p[0]) && DigitsThenMark(p[1..])
  }

  /**
   * `StripOrdinal` keeps the line, or removes exactly one ordinal prefix from its
   * front, with all the whitespace after the mark.
   */
  lemma StripOrdinalCut(s: string)
    ensures StripOrdinal(s) != s ==> OrdinalCutOf(s, StripOrdinal(s))
  {
    var d := DigitCount(s);
    if d > 0 {
      var a := TrimStart(s[d..]);
      if a != [] && IsOrdinalMark(a[0]) {
        var r := TrimStart(a[1..]);
        assert StripOrdinal(s) == r;
        OrdinalCut(s, d, a, r);
      } else {
        assert StripOrdinal(s) == s;
      }
    } else {
      assert StripOrdinal(s) == s;
    }
  }

  /** `r` is what is left of `s` after one ordinal prefix and the whitespace after it. */
  predicate OrdinalCutOf(s: string, r: string) {
    |r| < |s| && r == s[|s| - |r|..] && OrdinalPrefix(s[..|s| - |r|]) && (r == [] || !IsSpace(r[0]))
  }

  lemma OrdinalCut(s: string, d: nat, a: string, r: string)
    requires 0 < d <= |s| && forall k :: 0 <= k < d ==> IsDigit(s[k])
    requires a == TrimStart(s[d..]) && a != [] && IsOrdinalMark(a[0]) && r == TrimStart(a[1..])
    ensures OrdinalCutOf(s, r)
  {
    var sp1 := TrimStartParts(s[d..]);
    var sp2 := TrimStartParts(a[1..]);
    OrdinalCutParts(s, d, sp1, a, sp2, r);
  }

  lemma OrdinalCutParts(s: string, d: nat, sp1: string, a: string, sp2: string, r: string)
    requires 0 < d <= |s| && forall k :: 0 <= k < d ==> IsDigit(s[k])
    requires s[d..] == sp1 + a && a != [] && IsOrdinalMark(a[0]) && a[1..] == sp2 + r
    requires forall k :: 0 <= k < |sp1| ==> IsSpace(sp1[k])
    requires forall k :: 0 <= k < |sp2| ==> IsSpace(sp2[k])
    ensures |r| < |s| && r == s[|s| - |r|..] && OrdinalPrefix(s[..|s| - |r|])
  {
    var dg := s[..d];
    var p := dg + sp1 + [a[0]] + sp2;
    assert s == p + r by {
      assert s == dg + s[d..];
      assert a == [a[0]] + (sp2 + r);
    }
    assert s[..|p|] == p && s[|p|..] == r;
    OrdinalPrefixOf(dg, sp1, a[0], sp2);
  }

  /** Digits, whitespace, a mark and whitespace make an ordinal prefix. */
  lemma OrdinalPrefixOf(dg: string, sp1: string, m: char, sp2: string)
    requires dg != [] && forall k :: 0 <= k < |dg| ==> IsDigit(dg[k])
    requires forall k :: 0 <= k < |sp1| ==> IsSpace(sp1[k])
    requires IsOrdinalMark(m) && forall k :: 0 <= k < |sp2| ==> IsSpace(sp2[k])
    ensures OrdinalPrefix(dg + sp1 + [m] + sp2)
  {
    var w := sp1 + [m] + sp2;
    SpacesThenMarkOf(sp1, m, sp2);
    DigitsThenMarkOf(dg[1..], w);
    assert dg + sp1 + [m] + sp2 == [dg[0]] + (dg[1..] + w);
  }

  lemma {:induction false} SpacesThenMarkOf(sp1: string, m: char, sp2: string)
    requires forall k :: 0 <= k < |sp1| ==> IsSpace(sp1[k])
    requires IsOrdinalMark(m) && forall k :: 0 <= k < |sp2| ==> IsSpace(sp2[k])
    ensures SpacesThenMark(sp1 + [m] + sp2)
    decreases |sp1|
  {
    var w := sp1 + [m] + sp2;
    if sp1 == [] {
      assert w == [m] + sp2;
      assert MarkThenSpaces(w);
    } else {
      SpacesThenMarkOf(sp1[1..], m, sp2);
      assert w[1..] == sp1[1..] + [m] + sp2;
    }
  }

  lemma {:induction false} DigitsThenMarkOf(dg: string, w: string)
    requires forall k :: 0 <= k < |dg| ==> IsDigit(dg[k])
    requires SpacesThenMark(w)
    ensures DigitsThenMark(dg + w)
    decreases |dg|
  {
    if dg == [] {
      assert dg + w == w;
    } else {
      DigitsThenMarkOf(dg[1..], w);
      assert (dg + w)[1..] == dg[1..] + w;
    }
  }



  /** The text of an explanation line, which the parser recognises case-insensitively. */
  function ExplainText(ln: string): (r: Option<string>)
    ensures r.Some? <==> HasPrefixCI(ln, "explanation:") || HasPrefixCI(ln, "explain:")
    ensures HasPrefixCI(ln, "explanation:") ==> r == Some(Trim(ln[12..]))
    ensures !HasPrefixCI(ln, "explanation:") && HasPrefixCI(ln, "explain:") ==> r == Some(Trim(ln[8..]))
  {
    if HasPrefixCI(ln, "explanation:") then Some(Trim(ln[12..]))
    else if HasPrefixCI(ln, "explain:") then Some(Trim(ln[8..]))
    else None
  }

  // The explanation test as app.js:394 writes it: /^explain(ation)?:/i accepts
  // "explain:" and "explaination:", and not "explanation:".
  function ExplainTextAsWritten(ln: string): (r: Option<string>)
    ensures r.Some? <==> HasPrefixCI(ln, "explaination:") || HasPrefixCI(ln, "explain:")
    ensures HasPrefixCI(ln, "explaination:") ==> r == Some(Trim(ln[13..]))
    ensures !HasPrefixCI(ln, "explaination:") && HasPrefixCI(ln, "explain:") ==> r == Some(Trim(ln[8..]))
  {
    if HasPrefixCI(ln, "explaination:") then Some(Trim(ln[13..]))
    else if HasPrefixCI(ln, "explain:") then Some(Trim(ln[8..]))
    else None
  }

  /** Which explanation test the parser applies: app.js:394's, or the corrected one. */
  datatype Reading = AsWritten | Corrected

  function Explain(rd: Reading, ln: string): Option<string> {
    if rd.AsWritten? then ExplainTextAsWritten(ln) else ExplainText(ln)
  }

  predicate IsLetterAD(c: char) {
    'A' <= c <= 'D' || 'a' <= c <= 'd'
  }

  // `ln.match(/^[A-D]\)\s*(.+)$/i)` on one line, then `abcd[1].trim()`: a letter
  // A-D in either case, `)`, and at least one more character.
  function LetteredText(ln: string): (r: Option<string>)
    ensures r.Some? <==> |ln| >= 3 && IsLetterAD(ln[0]) && ln[1] == ')'
    ensures r.Some? ==> r.value == Trim(ln[2..])
  {
    if |ln| >= 3 && IsLetterAD(ln[0]) && ln[1] == ')' then Some(Trim(ln[2..])) else None
  }

  /** What a line after the stem contributes to its question. */
  datatype LineKind = ExplainLine(explanation: string) | ChoiceOf(choice: Choice) | Ignored

  function Classify(rd: Reading, ln: string): LineKind
  {
    match Explain(rd, ln)
    case Some(e) => ExplainLine(e)
    case None =>
      match ParseChoiceLine(ln)
      case Some(c) => ChoiceOf(Choice(None, c.text, c.correct))
      case None =>
        match LetteredText(ln)
        case Some(t) => ChoiceOf(Choice(None, t, false))
        case None => Ignored
  }

  /** The choices of a block's lines, in order. */
  function ChoicesIn(rd: Reading, ls: seq<string>): (r: seq<Choice>)
    ensures |r| <= |ls|
  {
    if ls == [] then []
    else
      var last := Classify(rd, ls[|ls| - 1]);
      ChoicesIn(rd, ls[..|ls| - 1]) + (if last.ChoiceOf? then [last.choice] else [])
  }

  /** The explanation of a block's lines: the last explanation line wins. */
  function ExplanationIn(rd: Reading, ls: seq<string>): string {
    if ls == [] then ""
    else
      var last := Classify(rd, ls[|ls| - 1]);
      if last.ExplainLine? then last.explanation else ExplanationIn(rd, ls[..|ls| - 1])
  }

  /** A block parsed into a question without an id; `None` when it has no choice. */
  function ParseBlock(rd: Reading, piece: seq<string>): (r: Option<Question>)
    ensures r.Some? ==> r.value.id.None? && r.value.choices != []
  {
    var lines := NonBlank(Trims(piece));
    if lines == [] then None
    else
      var choices := ChoicesIn(rd, lines[1..]);
      if choices == [] then None
      else Some(Question(None, Trim(StripOrdinal(lines[0])), ExplanationIn(rd, lines[1..]), choices))
  }

  // ---------------------------------------------------------------------------
  // The whole parser (app.js:381-411)

  const UNTITLED := "Untitled quiz"

  /** The questions of the blocks that have a choice, in order, still without ids. */
  function BlockQuestions(rd: Reading, blocks: seq<seq<string>>): (r: seq<Question>)
    ensures |r| <= |blocks|
    ensures forall i :: 0 <= i < |r| ==> r[i].choices != []
  {
    if blocks == [] then []
    else
      BlockQuestions(rd, blocks[..|blocks| - 1]) + Keep(ParseBlock(rd, blocks[|blocks| - 1]))
  }

  /** The question a block yields, as a list of zero or one. */
  function Keep(pb: Option<Question>): (r: seq<Question>)
    ensures |r| <= 1
  {
    if pb.Some? then [pb.value] else []
  }

  /** Questions given the ids `uid()` hands out from `nextId` on, in order. */
  function Numbered(qs: seq<Question>, nextId: nat): (r: seq<Question>)
    ensures |r| == |qs|
  {
    if qs == [] then []
    else Numbered(qs[..|qs| - 1], nextId) + [qs[|qs| - 1].(id := Some(Uid(nextId + |qs| - 1)))]
  }

  /** The `i`-th numbered question is the `i`-th question with id `uid()` number `nextId + i`. */
  lemma {:induction false} NumberedAt(qs: seq<Question>, nextId: nat, i: nat)
    requires i < |qs|
    ensures Numbered(qs, nextId)[i] == qs[i].(id := Some(Uid(nextId + i)))
    decreases |qs|
  {
    if i < |qs| - 1 {
      NumberedAt(qs[..|qs| - 1], nextId, i);
    }
  }

  /** The questions `parseRaw` pushes, with their ids. */
  function ParsedQuestions(rd: Reading, blocks: seq<seq<string>>, nextId: nat): seq<Question> {
    Numbered(BlockQuestions(rd, blocks), nextId)
  }

  /** A parse result and the id counter after it. */
  datatype Parsed = Parsed(draft: Option<Quiz>, nextId: nat)

  /** The trimmed lines of the text once the title lines are gone, split into blocks. */
  function BlocksOf(raw: string): seq<seq<string>> {
    SplitBlocks(Trims(SplitLines(Trim(StripTitles(raw)))))
  }

  // `parseRaw` as a function of the raw text field, the name field, the three
  // option checkboxes, the draft parsed before (`parsedDraft`) and the id counter.
  // `None` stands for the `null` it returns when there is no text or no question.
  function ParseRawSpec(rd: Reading, rawField: string, nameField: string, options: Options, prior: Option<Quiz>, nextId: nat): (r: Parsed)
  {
    var raw := NormalizeEmojiFormat(Trim(rawField));
    if raw == [] then Parsed(None, nextId)
    else Assemble(DraftName(nameField, FindTitle(raw)), ParsedQuestions(rd, BlocksOf(raw), nextId), options, prior, nextId)
  }

  /** The draft built from a name and the numbered questions, taking one more id when it needs a fresh one. */
  function Assemble(name: string, qs: seq<Question>, options: Options, prior: Option<Quiz>, nextId: nat): Parsed {
    var next := nextId + |qs|;
    if qs == [] then Parsed(None, next)
    else if KeepsId(prior, name) then
      Parsed(Some(Quiz(prior.value.id, if name == [] then UNTITLED else name, options, qs)), next)
    else
      Parsed(Some(Quiz(Some(Uid(next)), if name == [] then UNTITLED else name, options, qs)), next + 1)
  }
  /** `parsedDraft && parsedDraft.id && norm(parsedDraft.name) === norm(name)` */
  predicate KeepsId(prior: Option<Quiz>, name: string) {
    prior.Some? && Truthy(prior.value.id) && Norm(prior.value.name) == Norm(name)
  }

  lemma BlockQuestionsSnoc(rd: Reading, bs: seq<seq<string>>, b: seq<string>)
    ensures BlockQuestions(rd, bs + [b]) == BlockQuestions(rd, bs) + Keep(ParseBlock(rd, b))
  {
    assert (bs + [b])[..|bs|] == bs;
  }

  lemma NumberedSnoc(qs: seq<Question>, q: Question, nextId: nat)
    ensures Numbered(qs + [q], nextId) == Numbered(qs, nextId) + [q.(id := Some(Uid(nextId + |qs|)))]
  {
    assert (qs + [q])[..|qs|] == qs;
  }

  lemma LinesAppend(rd: Reading, ls: seq<string>, l: string)
    ensures ChoicesIn(rd, ls + [l]) == ChoicesIn(rd, ls) + (if Classify(rd, l).ChoiceOf? then [Classify(rd, l).choice] else [])
    ensures ExplanationIn(rd, ls + [l]) == if Classify(rd, l).ExplainLine? then Classify(rd, l).explanation else ExplanationIn(rd, ls)
  {
    assert (ls + [l])[..|ls|] == ls;
  }

  lemma LinesTake(rd: Reading, ls: seq<string>, k: nat)
    requires k < |ls|
    ensures ChoicesIn(rd, ls[..k + 1]) ==
      ChoicesIn(rd, ls[..k]) + (if Classify(rd, ls[k]).ChoiceOf? then [Classify(rd, ls[k]).choice] else [])
    ensures ExplanationIn(rd, ls[..k + 1]) ==
      if Classify(rd, ls[k]).ExplainLine? then Classify(rd, ls[k]).explanation else ExplanationIn(rd, ls[..k])
  {
    assert ls[..k + 1][..k] == ls[..k];
  }

  // The body of the block loop of `parseRaw`: the stem, then a loop over the
  // remaining lines that collects choices and keeps the last explanation.
  /** The tests `parseRaw` applies to a line after the stem, in its order. */
  method ClassifyLine(ln: string) returns (kind: LineKind)
    ensures kind == Classify(AsWritten, ln)
  {
    var e := ExplainTextAsWritten(ln);
    if e.Some? {
      return ExplainLine(e.value);
    }
    var parsed := ParseChoiceLine(ln);
    if parsed.Some? {
      return ChoiceOf(Choice(None, parsed.value.text, parsed.value.correct));
    }
    var abcd := LetteredText(ln);
    if abcd.Some? {
      return ChoiceOf(Choice(None, abcd.value, false));
    }
    return Ignored;
  }

  /** One line after the stem: a choice is appended, an explanation replaces the previous one. */
  method ScanLine(choices: seq<Choice>, explanation: string, ln: string)
    returns (choices': seq<Choice>, explanation': string)
    ensures choices' == choices + (if Classify(AsWritten, ln).ChoiceOf? then [Classify(AsWritten, ln).choice] else [])
    ensures explanation' == if Classify(AsWritten, ln).ExplainLine? then Classify(AsWritten, ln).explanation else explanation
  {
    var kind := ClassifyLine(ln);
    choices', explanation' := choices, explanation;
    match kind {
      case ExplainLine(e) => explanation' := e;
      case ChoiceOf(c) => choices' := choices + [c];
      case Ignored =>
    }
  }

  /** The loop over the lines after the stem: collects the choices and keeps the last explanation. */
  method ScanLines(rest: seq<string>) returns (choices: seq<Choice>, explanation: string)
    ensures choices == ChoicesIn(AsWritten, rest)
    ensures explanation == ExplanationIn(AsWritten, rest)
  {
    choices, explanation := [], "";
    var k := 0;
    assert rest[..k] == [];
    while k < |rest|
      invariant k <= |rest|
      invariant choices == ChoicesIn(AsWritten, rest[..k])
      invariant explanation == ExplanationIn(AsWritten, rest[..k])
    {
      LinesTake(AsWritten, rest, k);
      choices, explanation := ScanLine(choices, explanation, rest[k]);
      k := k + 1;
    }
    assert rest[..k] == rest;
  }

  method ParseBlockLines(piece: seq<string>) returns (q: Option<Question>)
    ensures q == ParseBlock(AsWritten, piece)
  {
    var lines := NonBlank(Trims(piece));
    if lines == [] {
      return None;
    }
    var text := Trim(StripOrdinal(lines[0]));
    var choices, explanation := ScanLines(lines[1..]);
    if choices == [] {
      return None;
    }
    q := Some(Question(None, text, explanation, choices));
  }

  lemma NumberedKeepSnoc(qs: seq<Question>, pb: Option<Question>, nextId: nat)
    ensures Numbered(qs + Keep(pb), nextId) ==
      Numbered(qs, nextId) + (if pb.Some? then [pb.value.(id := Some(Uid(nextId + |qs|)))] else [])
  {
    if pb.Some? {
      NumberedSnoc(qs, pb.value, nextId);
    } else {
      assert qs + Keep(pb) == qs;
    }
  }

  lemma ParsedQuestionsSnoc(rd: Reading, bs: seq<seq<string>>, b: seq<string>, nextId: nat)
    ensures ParsedQuestions(rd, bs + [b], nextId) == Numbered(BlockQuestions(rd, bs) + Keep(ParseBlock(rd, b)), nextId)
  {
    BlockQuestionsSnoc(rd, bs, b);
  }

  lemma ParsedQuestionsStep(rd: Reading, blocks: seq<seq<string>>, b: nat, nextId: nat)
    requires b < |blocks|
    ensures ParsedQuestions(rd, blocks[..b + 1], nextId) ==
      Numbered(BlockQuestions(rd, blocks[..b]) + Keep(ParseBlock(rd, blocks[b])), nextId)
  {
    TakeSnoc(blocks, b);
    ParsedQuestionsSnoc(rd, blocks[..b], blocks[b], nextId);
  }

  /** The loop of `parseRaw` over the blocks, numbering each question it keeps. */
  method ParseBlocks(blocks: seq<seq<string>>, nextId: nat) returns (questions: seq<Question>)
    ensures questions == ParsedQuestions(AsWritten, blocks, nextId)
  {
    questions := [];
    var b := 0;
    assert blocks[..b] == [];
    while b < |blocks|
      invariant 0 <= b <= |blocks|
      invariant questions == ParsedQuestions(AsWritten, blocks[..b], nextId)
    {
      questions := ParseBlockStep(blocks, b, nextId, questions);
      b := b + 1;
    }
    TakeAll(blocks);
  }

  /** One turn of the block loop: block `b` parsed, and its question, if any, numbered after those before it. */
  method ParseBlockStep(blocks: seq<seq<string>>, b: nat, nextId: nat, questions: seq<Question>)
    returns (questions': seq<Question>)
    requires b < |blocks| && questions == ParsedQuestions(AsWritten, blocks[..b], nextId)
    ensures questions' == ParsedQuestions(AsWritten, blocks[..b + 1], nextId)
  {
    var q := ParseBlockLines(blocks[b]);
    ParsedQuestionsNext(AsWritten, blocks, b, nextId, q);
    NumberedStep(BlockQuestions(AsWritten, blocks[..b]), q, nextId, ParsedQuestions(AsWritten, blocks[..b + 1], nextId), questions);
    questions' := questions;
    if q.Some? {
      questions' := questions + [q.value.(id := Some(Uid(nextId + |questions|)))];
    }
  }

  /** The questions of one more block: those before it, then the one it yields, if any. */
  lemma ParsedQuestionsNext(rd: Reading, blocks: seq<seq<string>>, b: nat, nextId: nat, q: Option<Question>)
    requires b < |blocks| && q == ParseBlock(rd, blocks[b])
    ensures ParsedQuestions(rd, blocks[..b + 1], nextId) == Numbered(BlockQuestions(rd, blocks[..b]) + Keep(q), nextId)
  {
    ParsedQuestionsStep(rd, blocks, b, nextId);
  }

  /** Numbering one more kept question gives it the id after those already numbered. */
  lemma NumberedStep(qs: seq<Question>, pb: Option<Question>, nextId: nat, after: seq<Question>, before: seq<Question>)
    requires before == Numbered(qs, nextId) && after == Numbered(qs + Keep(pb), nextId)
    ensures after == before + (if pb.Some? then [pb.value.(id := Some(Uid(nextId + |before|)))] else [])
  {
    NumberedKeepSnoc(qs, pb, nextId);
  }

  lemma ParseRawSpecOfText(rd: Reading, rawField: string, nameField: string, options: Options, prior: Option<Quiz>, nextId: nat)
    requires NormalizeEmojiFormat(Trim(rawField)) != []
    ensures var raw := NormalizeEmojiFormat(Trim(rawField));
      ParseRawSpec(rd, rawField, nameField, options, prior, nextId) ==
      Assemble(DraftName(nameField, FindTitle(raw)), ParsedQuestions(rd, BlocksOf(raw), nextId), options, prior, nextId)
  {
  }

  // `parseRaw` step by step, as the source runs it: a loop over the blocks that
  // numbers each question with a choice as it is pushed.
  method ParseRaw(rawField: string, nameField: string, options: Options, prior: Option<Quiz>, nextId: nat)
    returns (draft: Option<Quiz>, next: nat)
    ensures Parsed(draft, next) == ParseRawSpec(AsWritten, rawField, nameField, options, prior, nextId)
  {
    var raw := NormalizeEmojiFormat(Trim(rawField));
    if raw == [] {
      return None, nextId;
    }
    var name := Trim(nameField);
    var m := FindTitle(raw);
    if m.Some? && name == [] {
      name := Trim(m.value);
    }
    assert name == DraftName(nameField, m);
    ParseRawSpecOfText(AsWritten, rawField, nameField, options, prior, nextId);
    var questions := ParseBlocks(BlocksOf(raw), nextId);
    draft, next := NewDraft(name, questions, options, prior, nextId);
  }

  /** The end of `parseRaw`: no draft without questions, else the draft keeping the earlier id or taking a new one. */
  method NewDraft(name: string, questions: seq<Question>, options: Options, prior: Option<Quiz>, nextId: nat)
    returns (draft: Option<Quiz>, next: nat)
    ensures Parsed(draft, next) == Assemble(name, questions, options, prior, nextId)
  {
    next := nextId + |questions|;
    if questions == [] {
      return None, next;
    }
    var finalName := if name == [] then UNTITLED else name;
    if KeepsId(prior, name) {
      draft := Some(Quiz(prior.value.id, finalName, options, questions));
    } else {
      draft := Some(Quiz(Some(Uid(next)), finalName, options, questions));
      next := next + 1;
    }

  }

  // ---------------------------------------------------------------------------
  // What the parser promises

  /** "explanation: because" is an explanation line for the corrected test and not for the test as written. */
  lemma ExplanationPrefixMissed()
    ensures ExplainTextAsWritten("explanation: because") == None
    ensures ExplainText("explanation: because") == Some("because")
  {
    var ln := "explanation: because";
    NotPrefixAt(ln, "explaination:", 10);
    NotPrefixAt(ln, "explain:", 7);
    ExplanationPrefixRead();
  }

  lemma NotPrefixAt(s: string, p: string, i: nat)
    requires i < |p| && i < |s| && LowerChar(s[i]) != p[i]
    ensures !HasPrefixCI(s, p)
  {
  }

  lemma ExplanationPrefixRead()
    ensures HasPrefixCI("explanation: because", "explanation:")
    ensures Trim("explanation: because"[12..]) == "because"
  {
    LowerPrefix("explanation:", " because");
    ExplanationTail();
  }

  /** A word without upper-case letters is a case-insensitive prefix of itself followed by anything. */
  lemma LowerPrefix(p: string, t: string)
    requires forall i :: 0 <= i < |p| ==> !('A' <= p[i] <= 'Z')
    ensures HasPrefixCI(p + t, p)
  {
    assert forall i :: 0 <= i < |p| ==> (p + t)[i] == p[i];
  }

  lemma ExplanationTail()
    ensures Trim("explanation: because"[12..]) == "because"
  {
    assert "explanation: because"[12..] == " " + "because";
    TrimAfterSpaces(" ", "because");
  }

  /** A line is a choice exactly when it is no explanation and is a marker line or a lettered line. */
  lemma ClassifyChoice(rd: Reading, ln: string)
    ensures Classify(rd, ln).ChoiceOf? <==>
      Explain(rd, ln).None? && (ParseChoiceLine(ln).Some? || LetteredText(ln).Some?)
    ensures Classify(rd, ln).ChoiceOf? ==> Classify(rd, ln).choice.id.None?
    ensures Classify(rd, ln).ExplainLine? <==> Explain(rd, ln).Some?
  {
  }

  /** A lettered line `A) ...` is always an incorrect choice: only a ✅ or `+` marker makes one correct. */
  lemma LetteredLinesAreIncorrect(rd: Reading, ln: string)
    requires Explain(rd, ln).None? && ParseChoiceLine(ln).None? && LetteredText(ln).Some?
    ensures Classify(rd, ln) == ChoiceOf(Choice(None, Trim(ln[2..]), false))
  {
  }

  /** A choice the parser keeps is correct exactly when its line is marked ✅ or `+`. */
  lemma ChoiceCorrectness(rd: Reading, ln: string)
    requires Classify(rd, ln).ChoiceOf?
    ensures Classify(rd, ln).choice.correct <==> (var s := Trim(ln); s != [] && (s[0] == CHECK || s[0] == '+'))
  {
  }

  /** No line is a choice exactly when a block's lines give no choice. */
  lemma {:induction false} ChoicesInEmpty(rd: Reading, ls: seq<string>)
    ensures ChoicesIn(rd, ls) == [] <==> forall j :: 0 <= j < |ls| ==> !Classify(rd, ls[j]).ChoiceOf?
  {
    if ls != [] {
      ChoicesInEmpty(rd, ls[..|ls| - 1]);
      assert forall j :: 0 <= j < |ls| - 1 ==> ls[..|ls| - 1][j] == ls[j];
    }
  }

  /** Every choice found is what some line of the block classifies as. */
  lemma {:induction false} ChoicesInFromLines(rd: Reading, ls: seq<string>, i: nat)
    requires i < |ChoicesIn(rd, ls)|
    ensures exists j :: 0 <= j < |ls| && Classify(rd, ls[j]) == ChoiceOf(ChoicesIn(rd, ls)[i])
  {
    var init := ls[..|ls| - 1];
    if i < |ChoicesIn(rd, init)| {
      ChoicesInFromLines(rd, init, i);
      var j :| 0 <= j < |init| && Classify(rd, init[j]) == ChoiceOf(ChoicesIn(rd, init)[i]);
      assert ls[j] == init[j];
    } else {
      ChoicesInLast(rd, ls, i);
    }
  }

  lemma ChoicesInLast(rd: Reading, ls: seq<string>, i: nat)
    requires ls != [] && |ChoicesIn(rd, ls[..|ls| - 1])| <= i < |ChoicesIn(rd, ls)|
    ensures Classify(rd, ls[|ls| - 1]) == ChoiceOf(ChoicesIn(rd, ls)[i])
  {
  }

  /** With explanation lines in a block, the last one gives the explanation. */
  lemma {:induction false} ExplanationIsLast(rd: Reading, ls: seq<string>, k: nat)
    requires k < |ls| && Explain(rd, ls[k]).Some?
    requires forall j :: k < j < |ls| ==> Explain(rd, ls[j]).None?
    ensures ExplanationIn(rd, ls) == Explain(rd, ls[k]).value
  {
    if k < |ls| - 1 {
      var init := ls[..|ls| - 1];
      assert init[k] == ls[k];
      assert forall j :: k < j < |init| ==> init[j] == ls[j];
      ExplanationIsLast(rd, init, k);
    }
  }

  /** Without an explanation line the explanation is empty. */
  lemma {:induction false} NoExplanation(rd: Reading, ls: seq<string>)
    requires forall j :: 0 <= j < |ls| ==> Explain(rd, ls[j]).None?
    ensures ExplanationIn(rd, ls) == ""
  {
    if ls != [] {
      var init := ls[..|ls| - 1];
      assert forall j :: 0 <= j < |init| ==> init[j] == ls[j];
      NoExplanation(rd, init);
    }
  }

  lemma {:induction false} DigitCountOfDigits(d: string, rest: string)
    requires forall k :: 0 <= k < |d| ==> IsDigit(d[k])
    requires rest != [] && !IsDigit(rest[0])
    ensures DigitCount(d + rest) == |d|
  {
    if d != [] {
      assert (d + rest)[1..] == d[1..] + rest;
      DigitCountOfDigits(d[1..], rest);
    }
  }

  /** Digits, then an ordinal mark: what follows the mark, without leading whitespace. */
  lemma StripOrdinalAt(s: string, d: nat, a: string)
    requires 0 < d == DigitCount(s) && d <= |s| && s[d..] == a && a != [] && IsOrdinalMark(a[0])
    ensures StripOrdinal(s) == TrimStart(a[1..])
  {
    TrimStartOfTrimmed(a);
  }

  /** The ordinal the builder writes before a question, `n) `, is exactly what the parser strips. */
  lemma StripOrdinalOfNumbered(n: nat, t: string)
    requires t == [] || !IsSpace(t[0])
    ensures StripOrdinal(Decimal(n) + ") " + t) == t
  {
    OrdinalThenText(Decimal(n), ')', t);
    assert [')', ' '] == ") ";
  }

  /** A bare `n)`, as the builder writes for a question without text once trimmed, leaves nothing. */
  lemma StripOrdinalOfBare(n: nat)
    ensures StripOrdinal(Decimal(n) + ")") == ""
  {
    var d := Decimal(n);
    DigitCountOfDigits(d, ")");
    assert (d + ")")[|d|..] == ")";
    StripOrdinalAt(d + ")", |d|, ")");
  }

  /** Only one ordinal goes: a second one, after any of the four marks, is kept with the text. */
  lemma SecondOrdinalKept(n1: nat, m1: char, n2: nat, m2: char, t: string)
    requires IsOrdinalMark(m1) && IsOrdinalMark(m2)
    ensures var tail := Decimal(n2) + [m2, ' '] + t;
      StripOrdinal(Decimal(n1) + [m1, ' '] + tail) == tail
  {
    var tail := Decimal(n2) + [m2, ' '] + t;
    assert tail[0] == Decimal(n2)[0];
    OrdinalThenText(Decimal(n1), m1, tail);
  }

  /** Digits, a mark and a space before text that does not start with whitespace: the text is what remains. */
  lemma OrdinalThenText(d: string, m: char, tail: string)
    requires d != [] && forall k :: 0 <= k < |d| ==> IsDigit(d[k])
    requires IsOrdinalMark(m) && (tail == [] || !IsSpace(tail[0]))
    ensures StripOrdinal(d + [m, ' '] + tail) == tail
  {
    var rest := [m, ' '] + tail;
    assert DigitCount(d + rest) == |d| by {
      DigitCountOfDigits(d, rest);
    }
    AppendAssoc(d, [m, ' '], tail);
    StripOrdinalAt(d + rest, |d|, rest);
    SpaceThenText(m, tail);
  }

  lemma SpaceThenText(m: char, tail: string)
    requires tail == [] || !IsSpace(tail[0])
    ensures TrimStart(([m, ' '] + tail)[1..]) == tail
  {
    assert ([m, ' '] + tail)[1..] == " " + tail;
    TrimStartSpacesThen(" ", tail);
  }

  /** `parseRaw` gives no draft exactly when the trimmed text is empty or no block has a choice. */
  lemma ParseRawNone(rd: Reading, rawField: string, nameField: string, options: Options, prior: Option<Quiz>, nextId: nat)
    ensures var raw := NormalizeEmojiFormat(Trim(rawField));
      ParseRawSpec(rd, rawField, nameField, options, prior, nextId).draft.None? <==>
      raw == [] || BlockQuestions(rd, BlocksOf(raw)) == []
  {
    var raw := NormalizeEmojiFormat(Trim(rawField));
    if raw != [] {
      var bq := BlockQuestions(rd, BlocksOf(raw));
      AssembleNone(DraftName(nameField, FindTitle(raw)), Numbered(bq, nextId), options, prior, nextId);
    }
  }

  lemma AssembleNone(name: string, qs: seq<Question>, options: Options, prior: Option<Quiz>, nextId: nat)
    ensures Assemble(name, qs, options, prior, nextId).draft.None? <==> qs == []
  {
  }

  lemma AssembleDraft(name: string, qs: seq<Question>, options: Options, prior: Option<Quiz>, nextId: nat)
    requires qs != []
    ensures var r := Assemble(name, qs, options, prior, nextId);
      && r.draft.Some?
      && r.draft.value.name == (if name == [] then UNTITLED else name)
      && r.draft.value.options == options
      && r.draft.value.questions == qs
      && (KeepsId(prior, name) ==> r.draft.value.id == prior.value.id && r.nextId == nextId + |qs|)
      && (!KeepsId(prior, name) ==> r.draft.value.id == Some(Uid(nextId + |qs|)) && r.nextId == nextId + |qs| + 1)
  {
  }

  /** A draft comes out of `Assemble` applied to the name and the numbered questions of the text. */
  lemma ParsedDraft(rd: Reading, rawField: string, nameField: string, options: Options, prior: Option<Quiz>, nextId: nat)
    requires ParseRawSpec(rd, rawField, nameField, options, prior, nextId).draft.Some?
    ensures var raw := NormalizeEmojiFormat(Trim(rawField));
      && raw != []
      && ParsedQuestions(rd, BlocksOf(raw), nextId) != []
      && ParseRawSpec(rd, rawField, nameField, options, prior, nextId) ==
         Assemble(DraftName(nameField, FindTitle(raw)), ParsedQuestions(rd, BlocksOf(raw), nextId), options, prior, nextId)
  {
    ParseRawNone(rd, rawField, nameField, options, prior, nextId);
    ParseRawSpecOfText(rd, rawField, nameField, options, prior, nextId);
  }

  /**
   * The name of a parsed draft: the name field when it is not blank, else the
   * title line's capture, else "Untitled quiz"; never empty.
   */
  lemma ParsedName(rd: Reading, rawField: string, nameField: string, options: Options, prior: Option<Quiz>, nextId: nat)
    requires ParseRawSpec(rd, rawField, nameField, options, prior, nextId).draft.Some?
    ensures var d := ParseRawSpec(rd, rawField, nameField, options, prior, nextId).draft.value;
      var title := FindTitle(NormalizeEmojiFormat(Trim(rawField)));
      && d.name != []
      && (Trim(nameField) != [] ==> d.name == Trim(nameField))
      && (Trim(nameField) == [] && title.Some? ==> d.name == Trim(title.value))
      && (Trim(nameField) == [] && title.None? ==> d.name == UNTITLED)
      && d.options == options
  {
    var raw := NormalizeEmojiFormat(Trim(rawField));
    var title := FindTitle(raw);
    ParsedDraft(rd, rawField, nameField, options, prior, nextId);
    AssembleDraft(DraftName(nameField, title), ParsedQuestions(rd, BlocksOf(raw), nextId), options, prior, nextId);
    if Trim(nameField) == [] && title.Some? {
      TrimKeepsFirst(title.value);
    }
  }

  /**
   * The ids of a parsed draft: the questions take `uid()` numbers `nextId`,
   * `nextId + 1`, ... in order, so no two share an id; the draft keeps the
   * earlier draft's id when that one had an id and the same normalised name,
   * and otherwise takes the next number, which no question has.
   */
  lemma ParsedIds(rd: Reading, rawField: string, nameField: string, options: Options, prior: Option<Quiz>, nextId: nat)
    requires ParseRawSpec(rd, rawField, nameField, options, prior, nextId).draft.Some?
    ensures IdsOfDraft(ParseRawSpec(rd, rawField, nameField, options, prior, nextId), prior,
      KeepsId(prior, DraftName(nameField, FindTitle(NormalizeEmojiFormat(Trim(rawField))))), nextId)
  {
    var raw := NormalizeEmojiFormat(Trim(rawField));
    ParsedDraft(rd, rawField, nameField, options, prior, nextId);
    AssembleIds(DraftName(nameField, FindTitle(raw)), BlockQuestions(rd, BlocksOf(raw)), options, prior, nextId);
  }

  /**
   * How the ids of a draft `r.draft` hand out `uid()` numbers from `nextId`:
   * the questions in order, then the draft itself unless it keeps the
   * earlier id (`keep`).
   */
  predicate IdsOfDraft(r: Parsed, prior: Option<Quiz>, keep: bool, nextId: nat)
    requires r.draft.Some?
  {
    var d := r.draft.value;
    && (forall i :: 0 <= i < |d.questions| ==> d.questions[i].id == Some(Uid(nextId + i)))
    && (forall i, j :: 0 <= i < j < |d.questions| ==> d.questions[i].id != d.questions[j].id)
    && (keep ==> prior.Some? && d.id == prior.value.id && r.nextId == nextId + |d.questions|)
    && (!keep ==> d.id == Some(Uid(nextId + |d.questions|)) && r.nextId == nextId + |d.questions| + 1)
    && (!keep ==> forall i :: 0 <= i < |d.questions| ==> d.questions[i].id != d.id)
  }

  lemma AssembleIds(name: string, bq: seq<Question>, options: Options, prior: Option<Quiz>, nextId: nat)
    requires bq != []
    ensures Assemble(name, Numbered(bq, nextId), options, prior, nextId).draft.Some?
    ensures IdsOfDraft(Assemble(name, Numbered(bq, nextId), options, prior, nextId), prior, KeepsId(prior, name), nextId)
  {
    var qs := Numbered(bq, nextId);
    NumberedIds(bq, nextId);
    AssembleIdsOf(name, qs, options, prior, nextId);
  }

  lemma AssembleIdsOf(name: string, qs: seq<Question>, options: Options, prior: Option<Quiz>, nextId: nat)
    requires qs != []
    requires IdsFrom(qs, nextId)
    ensures Assemble(name, qs, options, prior, nextId).draft.Some?
    ensures IdsOfDraft(Assemble(name, qs, options, prior, nextId), prior, KeepsId(prior, name), nextId)
  {
    AssembleDraft(name, qs, options, prior, nextId);
  }

  /** Questions with the ids `nextId`, `nextId + 1`, ..., all different and all below `nextId + |qs|`. */
  predicate IdsFrom(qs: seq<Question>, nextId: nat) {
    && (forall i :: 0 <= i < |qs| ==> qs[i].id == Some(Uid(nextId + i)))
    && (forall i, j :: 0 <= i < j < |qs| ==> qs[i].id != qs[j].id)
    && (forall i :: 0 <= i < |qs| ==> qs[i].id != Some(Uid(nextId + |qs|)))
  }

  /** Numbered questions carry the ids `nextId`, `nextId + 1`, ..., all different and all below `nextId + |qs|`. */
  lemma NumberedIds(bq: seq<Question>, nextId: nat)
    ensures IdsFrom(Numbered(bq, nextId), nextId)
  {
    var qs := Numbered(bq, nextId);
    forall i | 0 <= i < |qs|
      ensures qs[i].id == Some(Uid(nextId + i))
    {
      NumberedAt(bq, nextId, i);
    }
    forall i, j | 0 <= i < j < |qs|
      ensures qs[i].id != qs[j].id
    {
      UidInjective(nextId + i, nextId + j);
    }
    forall i | 0 <= i < |qs|
      ensures qs[i].id != Some(Uid(nextId + |qs|))
    {
      UidInjective(nextId + i, nextId + |qs|);
    }
  }

  /** Each parsed question is the question its block parses to, with its `uid()`, and has a choice. */
  lemma ParsedQuestionsOfBlocks(rd: Reading, blocks: seq<seq<string>>, nextId: nat, i: nat)
    requires i < |ParsedQuestions(rd, blocks, nextId)|
    ensures |ParsedQuestions(rd, blocks, nextId)| == |BlockQuestions(rd, blocks)|
    ensures ParsedQuestions(rd, blocks, nextId)[i] == BlockQuestions(rd, blocks)[i].(id := Some(Uid(nextId + i)))
    ensures ParsedQuestions(rd, blocks, nextId)[i].choices != []
  {
    NumberedAt(BlockQuestions(rd, blocks), nextId, i);
  }

  // ---------------------------------------------------------------------------
  // The parser as written and the corrected parser

  /** A line that only one of the two explanation tests reads. */
  predicate LongExplainPrefix(ln: string) {
    HasPrefixCI(ln, "explanation:") || HasPrefixCI(ln, "explaination:")
  }

  /** On every other line the two tests, and so the two classifications, agree. */
  lemma ClassifyAgree(ln: string)
    requires !LongExplainPrefix(ln)
    ensures Explain(AsWritten, ln) == Explain(Corrected, ln)
    ensures Classify(AsWritten, ln) == Classify(Corrected, ln)
  {
  }

  lemma {:induction false} LinesAgree(ls: seq<string>)
    requires forall j :: 0 <= j < |ls| ==> !LongExplainPrefix(ls[j])
    ensures ChoicesIn(AsWritten, ls) == ChoicesIn(Corrected, ls)
    ensures ExplanationIn(AsWritten, ls) == ExplanationIn(Corrected, ls)
  {
    if ls != [] {
      var init := ls[..|ls| - 1];
      assert forall j :: 0 <= j < |init| ==> init[j] == ls[j];
      LinesAgree(init);
      ClassifyAgree(ls[|ls| - 1]);
    }
  }

  /** Every line `filter(Boolean)` keeps is one of its input lines. */
  lemma {:induction false} NonBlankFrom(ls: seq<string>)
    ensures forall i :: 0 <= i < |NonBlank(ls)| ==> NonBlank(ls)[i] in ls
  {
    if ls != [] {
      var init := ls[..|ls| - 1];
      NonBlankFrom(init);
      assert forall x :: x in init ==> x in ls;
    }
  }

  /** No trimmed line of the block starts with `explanation:` or `explaination:`. */
  predicate NoLongExplain(piece: seq<string>) {
    forall j :: 0 <= j < |piece| ==> !LongExplainPrefix(Trim(piece[j]))
  }

  /** A block without such lines parses to the same question under both tests. */
  lemma ParseBlockAgree(piece: seq<string>)
    requires NoLongExplain(piece)
    ensures ParseBlock(AsWritten, piece) == ParseBlock(Corrected, piece)
  {
    var lines := NonBlank(Trims(piece));
    NonBlankFrom(Trims(piece));
    if lines != [] {
      var rest := lines[1..];
      forall j | 0 <= j < |rest|
        ensures !LongExplainPrefix(rest[j])
      {
        assert rest[j] == lines[j + 1] && rest[j] in Trims(piece);
        var k :| 0 <= k < |piece| && Trims(piece)[k] == rest[j];
      }
      LinesAgree(rest);
    }
  }

  lemma {:induction false} BlockQuestionsAgree(blocks: seq<seq<string>>)
    requires forall b :: 0 <= b < |blocks| ==> NoLongExplain(blocks[b])
    ensures BlockQuestions(AsWritten, blocks) == BlockQuestions(Corrected, blocks)
  {
    if blocks != [] {
      var init := blocks[..|blocks| - 1];
      assert forall b :: 0 <= b < |init| ==> init[b] == blocks[b];
      BlockQuestionsAgree(init);
      ParseBlockAgree(blocks[|blocks| - 1]);
    }
  }

  /**
   * Text whose blocks have no `explanation:` or `explaination:` line parses to the
   * same draft, with the same id counter, under the test as written and the corrected one.
   */
  lemma ParseRawAgree(rawField: string, nameField: string, options: Options, prior: Option<Quiz>, nextId: nat)
    requires var bs := BlocksOf(NormalizeEmojiFormat(Trim(rawField)));
      forall b :: 0 <= b < |bs| ==> NoLongExplain(bs[b])
    ensures ParseRawSpec(AsWritten, rawField, nameField, options, prior, nextId)
      == ParseRawSpec(Corrected, rawField, nameField, options, prior, nextId)
  {
    BlockQuestionsAgree(BlocksOf(NormalizeEmojiFormat(Trim(rawField))));
  }

  /**
   * A block line `explanation: <e>` gives the corrected parser the explanation `e`
   * and the parser as written none: the line is neither an explanation nor a choice.
   */
  lemma ExplanationLineDiverges(e: string)
    requires Trimmed(e)
    ensures ExplanationIn(AsWritten, ["explanation: " + e]) == ""
    ensures ExplanationIn(Corrected, ["explanation: " + e]) == e
  {
    var ln := "explanation: " + e;
    ExplanationLineIgnored(e);
    ExplanationLineRead(e);
    ExplanationOfOne(AsWritten, ln);
    ExplanationOfOne(Corrected, ln);
  }

  lemma ExplanationLineIgnored(e: string)
    ensures Classify(AsWritten, "explanation: " + e) == Ignored
  {
    var ln := "explanation: " + e;
    ExplanationHead(e);
    NotPrefixAt(ln, "explaination:", 5);
    NotPrefixAt(ln, "explain:", 7);
    NoChoiceLine(ln);
  }

  lemma ExplanationLineRead(e: string)
    requires Trimmed(e)
    ensures Classify(Corrected, "explanation: " + e) == ExplainLine(e)
  {
    ExplanationHead(e);
    ExplanationRest(e);
  }

  /** The line `explanation: <e>` passes the corrected test and starts with `ex`. */
  lemma ExplanationHead(e: string)
    ensures var ln := "explanation: " + e;
      && HasPrefixCI(ln, "explanation:")
      && |ln| > 12 && ln[0] == 'e' && ln[1] == 'x' && ln[5] == 'n' && ln[7] == 't'
  {
    assert "explanation: " + e == "explanation:" + (" " + e);
    LowerPrefix("explanation:", " " + e);
  }

  lemma ExplanationRest(e: string)
    requires Trimmed(e)
    ensures Trim(("explanation: " + e)[12..]) == e
  {
    DropAppend("explanation: ", e, 12);
    assert "explanation: "[12..] == " ";
    TrimAfterSpaces(" ", e);
  }

  /** A line that starts with neither whitespace, a choice marker nor a letter and `)` is no choice. */
  lemma NoChoiceLine(ln: string)
    requires |ln| >= 2 && !IsSpace(ln[0]) && !IsChoiceMarker(ln[0]) && ln[1] != ')'
    ensures ParseChoiceLine(ln) == None && LetteredText(ln) == None
  {
    TrimKeepsFirst(ln);
  }

  /** The explanation of a block with one line after the stem. */
  lemma ExplanationOfOne(rd: Reading, ln: string)
    ensures ExplanationIn(rd, [ln]) == if Classify(rd, ln).ExplainLine? then Classify(rd, ln).explanation else ""
  {
    var none: seq<string> := [];
    assert [ln][..0] == none;
  }
}
