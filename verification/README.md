# Study-bot text readers and quiz scoring, in Dafny

This project models the logic at the core of the study bot, leaving out its
windows and its calls to outside services. There are four parts:

- **Flashcards.** The reader turns loosely formatted "Q: … / A: …" text into
  flashcards (`format_flashcards`).
- **Quiz.** The reader turns "1. question" lines followed by "a) … d)" option
  lines into questions (`format_quiz`). It then resolves each question's
  displayed options and correct option (`create_quiz_block`); the correct
  option is the one marked with `*`.
- **Grading.** Submitting a quiz scores it and gives feedback on each
  question (`evaluate_quiz`).
- **Video ids.** The id of a YouTube video is taken from its URL
  (`extract_video_id`).

Modules, one per file:

- `Optional` (optional.dfy) stands in for Python's `None`.
- `Strings` (strings.dfy) holds the Python string operations the readers use:
  - `strip()` and `split("\n")`;
  - `split(sep, 1)[-1]`, `replace("*", "")`;
  - the lower-cased `startswith` test.

  It also defines `Join`, which puts lines back together with newlines. The
  source never joins; `Join` only serves to write the canonical texts that the
  round-trip properties read back.
- `Flashcards` (flashcards.dfy) is the flashcard reader.
- `QuizParser` (quiz.dfy) is the quiz reader.
- `QuizBlock` (quiz_block.dfy) resolves options and holds `FormatQuiz`.
- `Grading` (grading.dfy) scores a submitted quiz.
- `YouTube` (youtube.dfy) extracts the video id.

Both readers are written the way the source loops are: a state record, a `Step`
on one line, and a `Run` folding `Step` over the lines. The quiz reader adds a
`Finish` for the question still pending at the end of the input. Each reader's
properties are proved against partner definitions:

- an invariant the loop keeps;
- a count of the lines it consumes;
- a canonical rendering that reads back to the same records.

The behaviour modelled is what the code does, which differs from a plain
reading of its intent in four places:

- **Several starred options.** When more than one option carries `*`, the
  *last* one is correct. Each marked option overwrites `correct_option`.
- **Option prefixes are kept.** The displayed options, and the correct option,
  keep their "a) " prefix. Only the `*` markers are removed, and a marked
  option is stripped.
- **A flashcard line without a colon.** A line starting with q/Q or a/A that
  has no colon keeps the whole stripped line as its text, since `split(":", 1)[-1]`
  is the line itself. So "quick note" becomes a pending question.
- **An empty pending question.** "Q:" with nothing after it resets the pending
  question to "". In the quiz reader, a numbered line with nothing after its
  first "." still emits the question pending before it, with the options
  gathered so far, but leaves the new pending text empty. The options read
  after such a line are therefore not emitted with it: they join the next
  question that has text. Likewise, options read while no question is pending,
  including those before the first question, join the next question.

## Model

| member | source | states |
|---|---|---|
| Strings.Strip | main.py:169 | `strip()` gives a text with no whitespace at either end, no longer than the input |
| Strings.StripSlice | main.py:169 | the stripped text is a contiguous piece of the input with only whitespace cut off on each side |
| Strings.StripFixesTrimmed | main.py:169 | stripping changes nothing exactly when the text has no whitespace at either end |
| Strings.AfterFirst | main.py:173 | `split(":", 1)[-1]` is everything after the first separator, or the whole text when there is none |
| Strings.Split | main.py:166 | `split("\n")` gives at least one piece, none containing the separator, and joining the pieces gives back the text |
| Strings.SplitJoin | main.py:166 | splitting a join of separator-free pieces gives the pieces back |
| Strings.LinesOfJoin | main.py:192 | lines with no whitespace at the outer ends of the text, joined with newlines, read back as the same lines |
| Strings.RemoveAll | main.py:242 | `replace("*", "")` leaves no marker, keeps every other character, and keeps a leading non-marker character |
| Strings.RemoveAllCounts | main.py:242 | every marker goes and every other character keeps its number of occurrences |
| Strings.RemoveAllAppend | main.py:242 | removal works piece by piece, so the kept characters stay in their order |
| Strings.RemoveAllAbsent | main.py:242 | a text without the marker is left unchanged |
| Strings.StripAddsNothing | main.py:242 | stripping a cleaned option brings back no character, so no marker reappears |
| Strings.Lower | main.py:172 | lower-casing maps each upper-case ASCII letter to its own lower-case letter and leaves every other character alone |
| Strings.LowerMatches | main.py:172 | a lower-cased character equals a lower-case letter exactly when it is that letter or its upper-case form, and lower-casing twice changes nothing more |
| Flashcards.ClassifyCardLine | main.py:172-175 | a line is a question line exactly when it starts with q or Q, and an answer line exactly when it starts with a or A; the text is what follows the first colon, stripped, or the whole line when there is no colon |
| Flashcards.Absorb | main.py:172-178 | a question or answer line replaces its pending value with the line's text, even an empty one; the card (question, answer) is emitted, and both pending values reset, exactly when both are then non-empty; an unlabelled line changes nothing between pairs |
| Flashcards.CardStep | main.py:168-178 | one line adds at most one card, and only as a complete non-empty pair that resets both pending values; blank lines and unlabelled lines change nothing; pending values are never both non-empty between lines |
| Flashcards.QuestionRead | main.py:172-178 | any line read as a question with text x, x possibly empty, sets the pending question to x, and emits (x, pending answer) exactly when both are non-empty |
| Flashcards.AnswerRead | main.py:174-178 | any line read as an answer with text y, y possibly empty, sets the pending answer to y, and emits (pending question, y) exactly when both are non-empty |
| Flashcards.BareQuestionResets | main.py:172-173 | the line "Q:" clears the pending question and emits nothing |
| Flashcards.CardRun | main.py:168-178 | the loop only ever appends cards, keeps every card non-empty, and never leaves both pending values non-empty between lines |
| Flashcards.FormatFlashcards | main.py:165-178 | every card has a non-empty question and answer |
| Flashcards.BlankReadsNothing | main.py:166-171 | input that is empty or whitespace only gives no cards |
| Flashcards.FlashcardsBound | main.py:172-178 | there are never more cards than question lines, nor more than answer lines |
| Flashcards.FlashcardsRoundTrip | main.py:165-178 | text made of "Q: x" / "A: y" line pairs gives exactly those cards, in order, with the text after each colon |
| Flashcards.TrailingQuestionDropped | main.py:172-178 | after complete question/answer pairs, a final question line with no answer after it yields no card |
| Flashcards.TrailingAnswerDropped | main.py:174-178 | after complete question/answer pairs, a final answer line with no question before it yields no card |
| Flashcards.TwoCardsExample | main.py:165-178 | "Q: 2+2?\nA: 4\nQ: Sky?\nA: Blue" gives the two cards ("2+2?", "4") and ("Sky?", "Blue") |
| QuizParser.ClassifyQuizLine | main.py:201-208 | a line starts a question exactly when it begins with a digit and contains a "."; it is an option exactly when it otherwise starts with a), b), c) or d) in either case; the question text is what follows the first ".", stripped, and an option is kept as written |
| QuizParser.QuizStep | main.py:197-208 | a blank line and a line that is neither a question nor an option change nothing; an option line is appended to the gathered options, stripped but otherwise as written; a question line with a question pending emits that question with its text, the options gathered so far and the current number, then starts the new question with no options and the number one higher; with nothing pending, a question line only sets the pending text and the gathered options stay |
| QuizParser.QuizRun | main.py:197-208 | the loop only ever appends questions; which question each line affects follows from QuizParser.QuizStep, and the numbering and the conservation of option lines are stated by QuizParser.QuizRunInvariant and QuizParser.OptionsAccounted |
| QuizParser.Finish | main.py:209-210 | at the end of the input one more question is emitted exactly when the pending text is non-empty, with that text, the gathered options and the current number |
| QuizParser.ParseQuiz | main.py:189-210 | questions are numbered 1, 2, 3, … in order, every question text is non-empty, and every option is an option line |
| QuizParser.QuizRunInvariant | main.py:197-208 | the loop keeps the emitted questions numbered from 1 with non-empty text, the counter one past them, and only option lines among the options |
| QuizParser.QuizCountBound | main.py:201-206 | there are never more questions than lines that start one |
| QuizParser.OptionsAccounted | main.py:201-210 | every option line of the input lands, verbatim and in order, in exactly one question, except those left waiting at the end with no pending question |
| QuizParser.QuizRoundTrip | main.py:189-210 | a well-formed quiz written as "N. text" lines, each followed by its option lines, reads back as the same questions |
| QuizParser.StrayOptionsJoinFirst | main.py:194-208 | option lines before the first question are not dropped: they are put in front of the first question's options |
| QuizParser.IgnoredLineExample | main.py:197-210 | for the lines "1. A", "note", "a) x", "2. B", the line "note" is skipped and "a) x" belongs to question 1, not to question 2 |
| QuizBlock.CleanOption | main.py:241-245 | a displayed option has no marker; a marked option is shown with every "*" removed and then stripped; an unmarked option is shown unchanged; an option line keeps its leading letter |
| QuizBlock.MarkerRemoved | main.py:241-243 | a marker anywhere inside an otherwise trimmed option is taken out and nothing else changes |
| QuizBlock.LastMarked | main.py:240-243 | the reference choice of marked option: the last option carrying a marker, and none exactly when no option is marked |
| QuizBlock.ScanOptions | main.py:240-245 | the loop adds exactly one displayed option per option, after those already cleaned, and the correct option it returns is either the one it started with or an option with no marker left; its result is stated by QuizBlock.ScanMatches |
| QuizBlock.ScanMatches | main.py:240-245 | the loop cleans every option in place and ends up holding the cleaned form of the last marked option |
| QuizBlock.CreateQuizBlock | main.py:238-248 | each option is cleaned in place; a correct option is absent exactly when there are no options, and is always one of the displayed options; it is the last marked option when that cleans to non-empty text, and otherwise the first option |
| QuizBlock.CorrectOfOptionLines | main.py:238-248 | for real option lines, the correct option is exactly the last marked one, or else the first, and is never empty |
| QuizBlock.FormatQuiz | main.py:189-210 | the displayed questions are numbered 1..n with non-empty text and no markers; a correct option is missing exactly when there are no options, and is otherwise a non-empty displayed option |
| QuizBlock.MarkedOptionExample | main.py:238-248 | "1. 2+2=?\na) 3\nb) 4*\nc) 5" shows options "a) 3", "b) 4", "c) 5" with "b) 4" correct |
| Grading.Judge | main.py:287-292 | a question is judged correct exactly when the selection equals its correct option; when missed, the feedback names the correct option, or "Unknown (not marked)" when there is none or it is empty |
| Grading.CountScoredBounds | main.py:276-294 | the score is at most the number of questions; it equals it exactly when every question scores, and is zero exactly when none does |
| Grading.EvaluateQuiz | main.py:276-294 | the total is the number of questions; the score is the number that score; each question gets the feedback it earns; full marks exactly when every feedback is correct |
| Grading.FullMarks | main.py:287-294 | the count of scoring questions reaches the number of questions exactly when every feedback says correct |
| Grading.KeyScoresAll | main.py:287-289 | selecting each question's correct option scores every question that has one |
| Grading.AnswerKeyScoresAll | main.py:276-294 | on a formatted quiz whose questions all have options, answering with the marked options gives full marks |
| Grading.NothingSelectedScoresNothing | main.py:280-289 | submitting a formatted quiz with nothing selected scores zero |
| YouTube.MatchAt | utils/youtube_utils.py:40 | the pattern matches at a position exactly when "v=" or "/" starts there and eleven id characters follow it; the group is those eleven characters |
| YouTube.SearchFrom | utils/youtube_utils.py:40 | the left-to-right scan of `re.search` only ever returns an id of eleven id characters; where it finds it is stated by YouTube.SearchFromLeftmost |
| YouTube.SearchFromLeftmost | utils/youtube_utils.py:40 | the search returns the match at the first matching position, and nothing exactly when no position matches |
| YouTube.ExtractVideoId | utils/youtube_utils.py:39-41 | a found id is eleven characters of [0-9A-Za-z_-] taken right after a "/" or "v=" at the leftmost matching position; None exactly when no position matches |
| YouTube.LeadingParameter | utils/youtube_utils.py:40 | after "v=", exactly eleven characters are taken, whatever follows them |
| YouTube.ShortLink | utils/youtube_utils.py:39-41 | "https://youtu.be/" followed by an id gives that id |
| YouTube.WatchLink | utils/youtube_utils.py:39-41 | "https://www.youtube.com/watch?v=" followed by an id gives that id |
| YouTube.NoMarkerNoId | utils/youtube_utils.py:39-41 | a text with no "/" and no "v=" gives None |

## Left out

- The tkinter interface is not modelled. This covers the windows, frames, labels, radio buttons and message boxes. Each reader returns the records it would display, in display order, instead of creating widgets.
- The global `quiz_blocks` list is not modelled. `format_quiz` clears it before building a quiz, so grading always sees the questions of the last formatted quiz; the model passes those questions to `EvaluateQuiz` directly.
- Disabling the radio buttons on submit (main.py:284-285) is not modelled. It is a widget change only.
- The radio-button selection variables are abstracted. They become a map from question number to the selected option, and a missing entry stands for the empty string a fresh `StringVar` holds.
- The calls to outside services are not modelled: the text generator, the PDF extractor, the transcript service and the Hindi translation. Neither are the threads and the file dialogs. utils/ai_utils.py and utils/input_utils.py are not part of this model.
- Strings.Strip: only Python's whitespace up to U+00FF is modelled. `str.strip()` also removes the wider Unicode spaces.
- Strings.Lower: only ASCII letters are lower-cased. No other character lower-cases to a, b, c, d, q or ")", so the prefix tests in the readers are unaffected.
- QuizParser.ClassifyQuizLine: `str.isdigit()` is modelled as the ASCII digits only. Python also accepts other Unicode digits, such as superscripts, as a question's first character.
- Determinism and idempotence are not stated as separate properties: both readers are pure functions of their input text.
