# Quiz builder core, modelled in Dafny

This project models the core of `app.js`, a browser page that turns pasted
plain text into multiple-choice quizzes, stores them in a list, and plays them
back as scored sessions. The model covers the following parts of the page.

- **The text format.**
  - `parseChoiceLine`, which reads one `✅`/`❎`/`+`/`-` choice line.
  - `normalizeEmojiFormat`, which rewrites `+ `/`- ` lines as `✅ `/`❎ `.
  - `parseRaw`, which goes from raw text to a quiz draft. It handles the title line, block splitting, ordinal stripping, explanation lines and lettered choices.
  - The text that `loadQuizIntoBuilder` writes back, with a proof that the parser reads that text back as the same quiz.
- **The session player.**
  - `shuffle` (Fisher-Yates), and `startSessionFrom` with fresh choice ids.
  - The previous/next buttons.
  - "Check answer" and instant feedback.
  - The score, the summary's accuracy and time, and "restart".
- **The mistake log.** `recordMistake`, with its cap of 500 stored entries, and "clear mistakes".
- **The quiz list.**
  - `saveOrOverwrite`, with its three outcomes: overwrite by title, overwrite by id, or save as new.
  - "Delete", with its fallback for the active quiz.
  - JSON import, which fills in missing ids and puts the imported quizzes first.

Files:

| file | module | contents |
|---|---|---|
| wrappers.dfy | Wrappers | `Option` |
| text.dfy | Text | `trim`, ASCII `toLowerCase`, `norm`, line splitting and joining, decimal numerals |
| ids.dfy | Ids | `uid()` as a counter, JavaScript truthiness of ids, the property name of an id |
| format.dfy | QuizFormat | choice lines, normalisation, the parser |
| builder.dfy | Builder | `loadQuizIntoBuilder` and the round trip through the parser |
| shuffle.dfy | Shuffling | `shuffle` on an array, proved against a specification function |
| mistakes.dfy | Mistakes | the mistake log as a class |
| session.dfy | Session | the session record as a class, the checks and the summary |
| library.dfy | Library | the saved list and the active id as a class |

The model makes these choices, each of which must hold for its results to apply:

- **`uid()`.** It draws eight random base-36 characters (app.js:6). The model
  replaces it with a counter: `Ids.Uid(n)` is the decimal numeral of `n`. An
  operation that draws ids takes the first counter value it may use
  (`nextId`, or `firstId` in the session player). `QuizFormat.ParseRaw`,
  `Builder.LoadIntoBuilder`, `Library.QuizLibrary.SaveOrOverwrite` and
  `Library.QuizLibrary.Import` also return the next unused value.
  `Session.Prepare`, `Session.Session.StartFrom` and `Session.Session.Restart`
  use the values from `firstId` on: `Session.PreparedIdsFresh` states which
  ones. `Session.Session.CheckAnswer` does not draw: the id of the mistake
  entry is a string parameter. The model therefore treats ids drawn by `uid()`
  as never colliding.
- **`Math.random()`.** The draws are an oracle `rand: nat -> nat`. `Pick`
  folds each draw into `0..i`, as `Math.floor(Math.random() * (i + 1))` does.
- **`Date.now()`, `confirm(...)` and form fields.** The clock, the answer to
  each `confirm(...)`, and the values of the name field, the raw text field and
  the option checkboxes are parameters.
- **Ids.** A missing id (`undefined`) is `None`. `Ids.KeyOf` gives the string
  under which `obj[id]` is stored, so `None` becomes `"undefined"`.
- **Regular expressions.** They are written out as functions on `seq<char>`.
  Only `\n` counts as a line break for `^`, `$` and `.`. `\s` is the JavaScript
  whitespace set, and `/i` folds ASCII letters only.

Three places in the code behave differently from what the code itself
evidently intends. The model follows the code in each, and models the
intended behaviour beside it for the last two:

- **Starting a session.** `startSessionFrom` (app.js:456-466) does not empty
  `mistakesCurrent` (app.js:29), although its name says it holds the current
  session's mistakes. `Session.Session.StartFrom` does not touch it either, so
  the current list keeps the mistakes of earlier sessions.
- **Restart.** The "restart" button (app.js:530) rebuilds the session's
  questions without their ids, and then the answers of all questions share one
  key (see Findings). `Session.Session.RestartAsWritten` models the button as
  written. `Session.Session.Restart` is the corrected replay, which keeps the
  ids.
- **Explanation lines.** The regular expression `/^explain(ation)?:/i` at
  app.js:394 has an optional group `(ation)`, which evidently is meant to
  accept `explanation:` as well as `explain:`. As written it accepts
  `explain:` and `explaination:` but not `explanation:` (see Findings). The
  parser in the model (`QuizFormat.ParseRaw` and the loops it calls) runs the
  test as written. The specification functions take a `Reading`: `AsWritten`
  for app.js:394 as it is, `Corrected` for the intended test.
  `QuizFormat.ParseRawAgree` proves that the two readings give the same draft
  for every text without `explanation:` or `explaination:` lines, and the
  builder round trip holds under both.

## Model

| member | source | states |
|---|---|---|
| Ids.Uid | app.js:6 | a `uid()` is a non-empty string of digits |
| Ids.UidInjective | app.js:6 | different counter values give different ids |
| Ids.UidKeyDiffersFromMissing | app.js:6 | a drawn id is never the key `"undefined"` that a missing id is stored under |
| Text.Norm | app.js:7 | `norm` has the length of the trimmed string |
| QuizFormat.ParseChoiceLine | app.js:368-373 | a trimmed line is a choice exactly when it starts with ✅, ❎, `+` or `-`; it is correct exactly for ✅ and `+`; the marker and the whitespace after it are dropped |
| QuizFormat.NormalizeKeepsLines | app.js:374-380 | normalisation keeps the number of lines and rewrites each line on its own |
| QuizFormat.NormalizeKeepsPlainLines | app.js:374-380 | text without `+ `/`- ` lines is unchanged |
| QuizFormat.NormalizeKeepsDashLine | app.js:377 | a bare `-` separator line is not rewritten |
| QuizFormat.NormalizeRewritesSpacedDash | app.js:377 | `-` followed only by whitespace becomes the empty incorrect choice `❎ ` |
| QuizFormat.NormalizePreservesChoice | app.js:370-377 | a normalised line parses as the same choice as the original line |
| QuizFormat.SignLineChoice | app.js:371-377 | a `+ `/`- ` line parses as the choice of the text after the sign |
| QuizFormat.EmojiLineChoice | app.js:370 | `✅ text`/`❎ text` parses as that marker's choice |
| QuizFormat.DraftName | app.js:383-384 | a non-blank name field wins; otherwise the trimmed title capture; otherwise empty |
| QuizFormat.StripTitlesRemovesTitles | app.js:385 | after the title lines are removed, no line of the text is a `# Quiz:` line |
| QuizFormat.SplitBlocksKeepsContent | app.js:386 | splitting into blocks loses no line except blank and bare `-` lines, and keeps their order |
| QuizFormat.StripOrdinalOfNumbered | app.js:391 | the ordinal prefix `n) ` is exactly what the stem cleanup removes |
| QuizFormat.StripOrdinalCut | app.js:391 | the stem cleanup keeps the line, or removes exactly one prefix of digits, optional whitespace, one of `) . : -` and optional whitespace, leaving a rest that does not start with whitespace |
| QuizFormat.SecondOrdinalKept | app.js:391 | after any of the four marks, a second ordinal such as `2) ` in `1) 2) text` stays in the stem |
| QuizFormat.StripOrdinalOfBare | app.js:391 | a bare `n)`, which is what `n) ` becomes once trimmed, leaves an empty stem |
| QuizFormat.ExplainText | app.js:394 | the intended test: a line is an explanation exactly when it starts with `explain:` or `explanation:` in any case; the explanation is the trimmed rest |
| QuizFormat.ExplainTextAsWritten | app.js:394 | the regular expression as written: a line is an explanation exactly when it starts with `explain:` or `explaination:` in any case; the explanation is the trimmed rest after that prefix |
| QuizFormat.ExplanationPrefixMissed | app.js:394 | `explanation: because` is not read as an explanation by the test as written, but is by the corrected one |
| QuizFormat.ExplanationLineDiverges | app.js:393-399 | for any trimmed `e`, a block line `explanation: e` gives no explanation as written, because the line is neither an explanation nor a choice, and the explanation `e` under the intended test |
| QuizFormat.ClassifyChoice | app.js:393-399 | under either reading, a line is a choice exactly when it is no explanation and is a marker or lettered line; explanation lines are recognised first |
| QuizFormat.ClassifyLine | app.js:393-399 | the per-line tests, run in the code's order with the explanation test as written, agree with `Classify(AsWritten, ...)` |
| QuizFormat.LetteredLinesAreIncorrect | app.js:397-398 | under either reading, a lettered `A)`-`D)` line is always an incorrect choice |
| QuizFormat.ChoiceCorrectness | app.js:395-396 | under either reading, a kept choice is correct exactly when its line starts with ✅ or `+` |
| QuizFormat.ExplanationIsLast | app.js:394 | under either reading, the last explanation line of a block gives the explanation |
| QuizFormat.NoExplanation | app.js:392 | under either reading, without an explanation line the explanation is empty |
| QuizFormat.ChoicesInEmpty | app.js:400 | under either reading, a block yields no choice exactly when none of its lines is a choice |
| QuizFormat.ChoicesInFromLines | app.js:393-399 | under either reading, every choice found is what some line of the block classifies as |
| QuizFormat.ScanLines | app.js:393-399 | the loop over the lines after the stem, with the explanation test as written, collects every choice line in order and keeps the last explanation |
| QuizFormat.ParseBlockLines | app.js:389-401 | the block loop computes `ParseBlock(AsWritten, ...)`: trimmed non-blank lines, stem first, and no question without a choice |
| QuizFormat.ParseBlocks | app.js:388-402 | the loop over blocks, with the explanation test as written, gives the parsed questions in order, numbered with consecutive `uid()`s |
| QuizFormat.ParseBlockStep | app.js:388-402 | one turn of that loop appends the question of the next block, if it has one, with the next `uid()` |
| QuizFormat.ParsedQuestionsOfBlocks | app.js:388-402 | under either reading, parsed question `i` is block question `i` with id `nextId + i`, and it has a choice |
| QuizFormat.NumberedIds | app.js:401 | question ids are `nextId`, `nextId + 1`, ..., pairwise different |
| QuizFormat.ParseRaw | app.js:381-411 | `parseRaw`, with the explanation test as written, computes `ParseRawSpec(AsWritten, ...)` from the two fields, the options, the previous draft and the counter |
| QuizFormat.NewDraft | app.js:403-410 | no draft without questions; otherwise the previous id is kept or a new one is taken |
| QuizFormat.ParseRawNone | app.js:382-403 | under either reading, there is no draft exactly when the trimmed, normalised text is empty or no block has a choice |
| QuizFormat.ParsedDraft | app.js:381-411 | under either reading, a draft is assembled from the name and the numbered questions of the text |
| QuizFormat.ParsedName | app.js:383-410 | under either reading, the draft's name is the name field, else the title, else "Untitled quiz", and never empty; the options are the checkboxes' |
| QuizFormat.ParsedIds | app.js:401-410 | under either reading, the draft keeps the previous draft's id when that id is truthy and the normalised names agree; otherwise it takes a new id that no question has |
| QuizFormat.ClassifyAgree | app.js:393-399 | on a line that starts with neither `explanation:` nor `explaination:`, the two readings classify it alike |
| QuizFormat.ParseBlockAgree | app.js:389-401 | a block without such lines parses to the same question under both readings |
| QuizFormat.BlockQuestionsAgree | app.js:388-402 | blocks without such lines give the same questions under both readings |
| QuizFormat.ParseRawAgree | app.js:381-411 | text whose blocks have no such lines gives the same draft and the same counter under both readings |
| Builder.DisplayName | app.js:724 | the builder's name is the quiz name, or "Generated Quiz" when that is empty |
| Builder.LoadIntoBuilder | app.js:723-736 | the fields and draft after loading: the display name, the id kept when truthy or else a new `uid()`, and the quiz's options and questions |
| Builder.ParseBlockBack | app.js:726-732 | under either reading, the block written for a question parses back to that question without ids |
| Builder.BlockQuestionsBack | app.js:726-733 | under either reading, the written blocks give back all questions, in order |
| Builder.ParseBuilderText | app.js:733 | under either reading, the whole builder text, with the display name, parses to the quiz's questions without ids |
| Builder.BuilderRoundTrip | app.js:723-736 | under either reading, parsing right after loading gives the loaded draft back: same id, same name, the questions in order with fresh ids |
| Builder.LoadedQuestion | app.js:726-732 | each question read back keeps its text, explanation, choice texts and correct flags |
| Shuffling.Pick | app.js:55 | the drawn index for position `i` is at most `i` |
| Shuffling.Shuffle | app.js:55 | the in-place swap loop returns `Shuffled(a, rand)`, a permutation of `a` |
| Shuffling.ShuffledPermutes | app.js:55 | `shuffle` keeps the length and the multiset of elements |
| Shuffling.DescendStays | app.js:55 | draws that always pick the position itself leave the order alone |
| Shuffling.MapShuffled | app.js:55 | shuffling keeps the multiset of any view of the elements |
| Session.PrepareQuestion | app.js:459-460 | one question is prepared as `SessionQuestion` describes |
| Session.Prepare | app.js:458-461 | the `map` over the questions gives `Prepared`, each question taking the next ids |
| Session.SessionQuestionDigest | app.js:459-460 | a session question keeps the id, text and explanation, and its choices up to order |
| Session.SessionKeepsQuestions | app.js:456-463 | a session has the quiz's questions up to order, and in the quiz's order without question shuffling |
| Session.PreparedChoiceId | app.js:460 | choice `c` of question `k` gets `uid()` number `firstId + Offset(k) + c` |
| Session.PreparedIdsFresh | app.js:460 | no two choices of a new session share an id, and all ids come from the range the session drew |
| Session.Session.StartFrom | app.js:456-466 | the new session: the quiz's id, name and options, position 0, start time `now`, no answers, and the prepared questions |
| Session.Session.Prev | app.js:527 | "previous" moves back one question unless at the first, and changes nothing else |
| Session.Session.Next | app.js:528 | "next" moves on one question unless at the last, and changes nothing else |
| Session.AnswerIsExactSet | app.js:504-505 | with distinct ids, an answer is correct exactly when the chosen ids are the set of correct ids |
| Session.Session.CheckAnswer | app.js:501-507 | no selection changes nothing; otherwise the question's record is replaced, and a mistake is recorded exactly when the answer is wrong |
| Session.Session.InstantSelect | app.js:487-493 | with instant feedback on a single-answer question, a click records that choice and its flag; otherwise nothing changes |
| Session.InstantAgreesWithCheck | app.js:488-507 | the instant-feedback verdict for a choice equals "Check answer" with that one choice selected |
| Session.ScoreBounded | app.js:471-473 | the score never has more correct answers than attempts |
| Session.AttemptedBounded | app.js:472 | there are never more attempts than distinct question ids |
| Session.QuestionKeysBounded | app.js:472 | there are no more distinct question ids than questions |
| Session.JsRem | app.js:537 | JavaScript `%`: the remainder takes the sign of the dividend and is smaller than the divisor |
| Session.ElapsedTime | app.js:537 | for a non-negative time, the minutes and seconds are the whole minutes and the leftover whole seconds |
| Session.Accuracy | app.js:535 | the accuracy is the percentage rounded half up, from 0 to 100, and none for a quiz without questions |
| Session.Session.Summarize | app.js:532-537 | correct ≤ attempts ≤ questions, the accuracy, and the time since the start |
| Session.RestartQuizAsWritten | app.js:530 | the quiz that "restart" replays has no question ids |
| Session.RestartKeysCollide | app.js:530 | after a restart as written, every question's answer key is `"undefined"` |
| Session.RestartLosesAnswers | app.js:530 | answering two questions after a restart as written leaves one answer record |
| Session.RestartKeepsQuestions | app.js:530 | the corrected restart replays the same questions, ids included, up to order |
| Session.Session.Restart | app.js:530 | "restart" gives a new session from the corrected replay |
| Session.Session.RestartAsWritten | app.js:530 | "restart" as written: a new session from the same quiz id, name and options, with the session's questions replayed without ids, so every question's answer key is `"undefined"` |
| Mistakes.CorrectIds | app.js:547 | there are no more correct ids than choices |
| Mistakes.CorrectIdsOf | app.js:547 | an id is among the correct ids exactly when it belongs to a correct choice |
| Mistakes.CappedIsNewest | app.js:559 | the stored list keeps at most 500 entries: the newest ones, newest first |
| Mistakes.CappedCons | app.js:558-559 | capping after every entry keeps what capping the whole history would |
| Mistakes.RecordAllNewest | app.js:546-561 | after any number of mistakes, the stored list holds the 500 most recent, newest first |
| Mistakes.MistakeLog.constructor | app.js:28-29 | the stored list as loaded, and an empty current list |
| Mistakes.MistakeLog.Record | app.js:558-559 | the entry goes to the front of both lists, and the stored list is cut to 500 |
| Mistakes.MistakeLog.Clear | app.js:597-600 | once confirmed, both lists are emptied; otherwise nothing changes |
| Library.FindFirst | app.js:629 | `find` gives the first element that passes, or none when no element passes |
| Library.SaveCancels | app.js:629-631 | a save is cancelled exactly when the title is taken by another quiz and the user declines; a cancelled save changes nothing |
| Library.SaveStoresDraft | app.js:632-639 | a save that goes through makes the saved quiz active, and that quiz holds the draft's questions and options |
| Library.SaveKeepsOthers | app.js:633-638 | an overwrite keeps every quiz with another id; a new quiz goes in front of the unchanged list |
| Library.SaveNewTitleUnused | app.js:629-638 | a new quiz never repeats another quiz's normalised title unless the draft is the active quiz |
| Library.SavePreserves | app.js:624-640 | saving keeps every quiz's id truthy and the active id pointing at a saved quiz |
| Library.QuizLibrary.SaveOrOverwrite | app.js:624-640 | `saveOrOverwrite` sets the list, the active id and the counter as `SaveSpec` says |
| Library.QuizLibrary.Store | app.js:627-639 | the body after the draft check, as `SaveDraft` says |
| Library.Without | app.js:76 | the filtered list is no longer and holds no quiz with the deleted id |
| Library.WithoutKeeps | app.js:76 | every quiz with another id survives the filter |
| Library.Fallback | app.js:77 | the fallback active id is none or the id of the first quiz |
| Library.DeletePreserves | app.js:76-77 | deleting keeps every quiz's id truthy and the active id pointing at a saved quiz |
| Library.QuizLibrary.Delete | app.js:75-79 | once confirmed, the quizzes with that id are removed, and the active id falls back if it was theirs |
| Library.QuizLibrary.constructor | app.js:35-36 | at load, the first quiz is active if it has an id |
| Library.FillId | app.js:656-657 | filling an id takes a `uid()` exactly when the id is not truthy |
| Library.FillChoicesFilled | app.js:657 | filling the choices keeps texts, flags and truthy ids, and gives each other choice a new counter id |
| Library.FillQuestionsFilled | app.js:657 | the same for questions and their choices |
| Library.FillQuizFilled | app.js:656-657 | the same for a quiz, its questions and their choices |
| Library.FillAllFilled | app.js:655-658 | every imported quiz is filled from the counter's range, so every quiz id is truthy |
| Library.QuizLibrary.Import | app.js:654-659 | the imported quizzes, filled in order, go in front of the list; the active id is kept |

## Left out

- Rendering and the DOM are not modelled. This covers the preview, the quiz list, the question view, CSS classes and progress bars.
- Storage is not modelled: `localStorage`, `safeSave`, `saveMistakes`, `loadMistakes`. Stored lists are constructor arguments.
- These are not part of this model: file reading (TXT, PDF, DOCX), JSON export and file pickers, flashcards, and the AI and offline question generators.
- `JSON.parse` and its error path are not modelled. `QuizLibrary.Import` takes the already-parsed quizzes. An input without `questions`, which throws in the code, is not modelled.
- `uid()` is modelled by a counter, not by random strings. Collisions of random ids are not modelled.
- `Math.random()` is an oracle. The model does not state that `shuffle` is fair.
- `Date.now()` and `new Date().toISOString()` are parameters.
- Session.Accuracy: computed with exact rational rounding. JavaScript's floating-point `Math.round((c / t) * 100)` can differ on exact halves.
- Text.Norm: lower-cases ASCII letters only. `toLowerCase` also folds other scripts.
- Line terminators other than `\n` are ordinary whitespace in the model. `\r`, U+2028 and U+2029 are not line breaks for `^`, `$` and `.`.
- Library.QuizLibrary.Delete: `activeId` is `null` or a string in the model, never `undefined`. The code sets it to `undefined` when a stored quiz without an id is played or edited (app.js:71-72, `activeId=q.id`), or is overwritten by title (app.js:634, `activeId = existingByTitle.id`). Deleting such a quiz then makes `activeId===q.id` true (app.js:77), and the active id falls back to the first quiz. `Library.QuizLibrary.Delete` leaves a missing active id unchanged instead.
- Library.FillAllFilled: states that each new id is a counter value from the range the import drew. It does not state that two new ids differ.
- Builder.BuilderRoundTrip: holds for the quizzes that the text format can carry (`Builder.QuizSafe`). The quiz needs a question and each question a choice. A stem or choice text may be empty, as `1) ` and `✅ ` are written then, but it must not hold a line break or start or end with whitespace, since each line is trimmed when read. An explanation must be empty, since app.js:729 writes no line for it then, or a single trimmed line. The display name must be a single trimmed line; it is never empty. A quiz outside these limits does not come back unchanged from the text form.
- The `try { recordMistake(...) } catch` of app.js:507 is not modelled, because `recordMistake` cannot throw on modelled inputs.
- The score shown in the player, the question counter and the "multi-select" labels are not modelled beyond their counts (`Session.CorrectCount`, `Session.Attempted`, `Session.Multi`).

## Findings

| source | as written | input that shows it | evidently intended | confidence | as-written member | corrected member |
|---|---|---|---|---|---|---|
| app.js:394 | `/^explain(ation)?:/i` accepts `explain:` and the misspelling `explaination:` | the line `explanation: because` is dropped, because it is neither an explanation nor a choice (`QuizFormat.ExplanationPrefixMissed`, and for any text `QuizFormat.ExplanationLineDiverges`) | `explanation:` is an explanation line, like `explain:`; the corrected reading differs from the code only on `explanation:` and `explaination:` lines (`QuizFormat.ParseRawAgree`), and the builder round trip holds under it too | high, not executed | QuizFormat.ExplanationLineDiverges | QuizFormat.ExplainText |
| app.js:530 | "restart" rebuilds the questions without their `id` | any quiz with two questions: both answers are stored under `"undefined"`, so the score counts one attempt (`Session.RestartLosesAnswers`) | the replay keeps each question's id, so answers stay apart | high, not executed | Session.RestartKeysCollide | Session.RestartKeepsQuestions |
