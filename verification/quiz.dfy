/**
  The quiz reader: numbered questions followed by "a) ... d)" option lines
  become an ordered list of questions (main.py, `format_quiz`). Each is then
  handed to `create_quiz_block`, modelled in the QuizBlock module.
 */
module QuizParser {
  import opened Strings

  /** How one stripped, non-blank line of quiz text is read. */
  datatype QuizLine = QuestionStart(text: string) | OptionLine(option: string) | IgnoredLine

  /** A question as the parser hands it over: its number, its text and its raw option lines. */
  datatype RawQuestion = RawQuestion(index: nat, text: string, options: seq<string>)

  /**
    The loop state of `format_quiz`: the pending question text, the options
    gathered since the last question was emitted, the next question number,
    and the questions emitted so far.
   */
  datatype QuizState = QuizState(pending: string, options: seq<string>, count: nat, blocks: seq<RawQuestion>)

  const QuizStart := QuizState([], [], 1, [])

  /** The option test: the line starts with "a)", "b)", "c)" or "d)" in either case. */
  predicate IsOptionLabel(line: string) {
    |line| >= 2 && line[1] == ')' && line[0] in "abcdABCD"
  }

  function ClassifyQuizLine(line: string): (r: QuizLine)
    requires line != []
    ensures r.QuestionStart? <==> IsDigit(line[0]) && '.' in line
    ensures r.OptionLine? <==> !(IsDigit(line[0]) && '.' in line) && IsOptionLabel(line)
    ensures r.QuestionStart? ==> r.text == Strip(AfterFirst(line, '.'))
    ensures r.OptionLine? ==> r.option == line
  {
    if IsDigit(line[0]) && '.' in line then
      QuestionStart(Strip(AfterFirst(line, '.')))
    else if StartsWithFolded(line, "a)") || StartsWithFolded(line, "b)")
         || StartsWithFolded(line, "c)") || StartsWithFolded(line, "d)") then
      OptionLine(line)
    else
      IgnoredLine
  }

  /**
    One iteration of the loop at lines 197-208. A question line emits the
    pending question only when its text is non-empty; otherwise the pending
    text is simply replaced and the gathered options carry over. An option
    line joins the gathered options, and any other line is skipped.
   */
  function QuizStep(s: QuizState, raw: string): (r: QuizState)
    ensures s.blocks <= r.blocks && |r.blocks| <= |s.blocks| + 1
    ensures |r.blocks| == |s.blocks| + 1 ==>
      r.blocks[|s.blocks|] == RawQuestion(s.count, s.pending, s.options) && r.options == [] && r.count == s.count + 1
    ensures Strip(raw) == [] ==> r == s
    ensures var line := Strip(raw);
      line != [] && ClassifyQuizLine(line).IgnoredLine? ==> r == s
    ensures var line := Strip(raw);
      line != [] && ClassifyQuizLine(line).OptionLine? ==> r == s.(options := s.options + [line])
    ensures var line := Strip(raw);
      line != [] && ClassifyQuizLine(line).QuestionStart? && s.pending != [] ==>
        r == QuizState(ClassifyQuizLine(line).text, [], s.count + 1, s.blocks + [RawQuestion(s.count, s.pending, s.options)])
    ensures var line := Strip(raw);
      line != [] && ClassifyQuizLine(line).QuestionStart? && s.pending == [] ==>
        r == s.(pending := ClassifyQuizLine(line).text)
  {
    var line := Strip(raw);
    if line == [] then s
    else match ClassifyQuizLine(line)
      case QuestionStart(text) =>
        if s.pending != [] then
          QuizState(text, [], s.count + 1, s.blocks + [RawQuestion(s.count, s.pending, s.options)])
        else
          s.(pending := text)
      case OptionLine(option) => s.(options := s.options + [option])
      case IgnoredLine => s
  }

  function QuizRun(s: QuizState, lines: seq<string>): (r: QuizState)
    ensures s.blocks <= r.blocks
    decreases |lines|
  {
    if lines == [] then s else QuizRun(QuizStep(s, lines[0]), lines[1..])
  }

  /** End of input, lines 209-210: the pending question is emitted if its text is non-empty. */
  function Finish(s: QuizState): (qs: seq<RawQuestion>)
    ensures s.blocks <= qs
    ensures |qs| == |s.blocks| + 1 <==> s.pending != []
    ensures |qs| == |s.blocks| + 1 ==> qs[|s.blocks|] == RawQuestion(s.count, s.pending, s.options)
  {
    if s.pending != [] then s.blocks + [RawQuestion(s.count, s.pending, s.options)] else s.blocks
  }

  /** The questions `format_quiz(raw)` hands to `create_quiz_block`, in order. */
  function ParseQuiz(raw: string): (qs: seq<RawQuestion>)
    ensures forall i :: 0 <= i < |qs| ==> qs[i].index == i + 1 && qs[i].text != []
    ensures forall i, j :: 0 <= i < |qs| && 0 <= j < |qs[i].options| ==> IsOptionLabel(qs[i].options[j])
  {
    var s := QuizRun(QuizStart, Lines(raw));
    QuizRunInvariant(QuizStart, Lines(raw));
    FinishGood(s);
    Finish(s)
  }

  // ---------------------------------------------------------------------------
  // The parser's invariant: questions are numbered 1, 2, ... with non-empty
  // text, and only option lines are ever gathered as options.

  predicate Numbered(blocks: seq<RawQuestion>) {
    forall i :: 0 <= i < |blocks| ==> blocks[i].index == i + 1 && blocks[i].text != []
  }

  predicate AllOptionLabels(options: seq<string>) {
    forall j :: 0 <= j < |options| ==> IsOptionLabel(options[j])
  }

  predicate LabelledOptions(blocks: seq<RawQuestion>) {
    forall i :: 0 <= i < |blocks| ==> AllOptionLabels(blocks[i].options)
  }

  predicate Good(s: QuizState) {
    && s.count == |s.blocks| + 1
    && Numbered(s.blocks)
    && LabelledOptions(s.blocks)
    && AllOptionLabels(s.options)
  }

  lemma EmitKeepsGood(s: QuizState, text: string)
    requires Good(s) && s.pending != []
    ensures Good(QuizState(text, [], s.count + 1, s.blocks + [RawQuestion(s.count, s.pending, s.options)]))
  {
    var b := s.blocks + [RawQuestion(s.count, s.pending, s.options)];
    forall i | 0 <= i < |b|
      ensures b[i].index == i + 1 && b[i].text != [] && AllOptionLabels(b[i].options)
    {
      if i < |s.blocks| {
        assert b[i] == s.blocks[i];
      }
    }
  }

  lemma OptionKeepsGood(s: QuizState, option: string)
    requires Good(s) && IsOptionLabel(option)
    ensures Good(s.(options := s.options + [option]))
  {
    var o := s.options + [option];
    forall j | 0 <= j < |o|
      ensures IsOptionLabel(o[j])
    {
      if j < |s.options| {
        assert o[j] == s.options[j];
      }
    }
  }

  lemma StepKeepsGood(s: QuizState, raw: string)
    requires Good(s)
    ensures Good(QuizStep(s, raw))
  {
    var line := Strip(raw);
    if line != [] {
      match ClassifyQuizLine(line)
      case QuestionStart(text) =>
        if s.pending != [] {
          EmitKeepsGood(s, text);
        }
      case OptionLine(option) =>
        OptionKeepsGood(s, option);
      case IgnoredLine =>
    }
  }

  lemma {:induction false} QuizRunInvariant(s: QuizState, lines: seq<string>)
    requires Good(s)
    ensures Good(QuizRun(s, lines))
    decreases |lines|
  {
    if lines != [] {
      StepKeepsGood(s, lines[0]);
      QuizRunInvariant(QuizStep(s, lines[0]), lines[1..]);
    }
  }

  lemma FinishGood(s: QuizState)
    requires Good(s)
    ensures Numbered(Finish(s)) && LabelledOptions(Finish(s))
  {
    if s.pending != [] {
      EmitKeepsGood(s, []);
    }
  }

  // ---------------------------------------------------------------------------
  // Counting: a question is only ever emitted for a question line of its own.

  function QuestionStartCount(lines: seq<string>): nat {
    if lines == [] then 0
    else
      var line := Strip(lines[0]);
      (if line != [] && ClassifyQuizLine(line).QuestionStart? then 1 else 0) + QuestionStartCount(lines[1..])
  }

  lemma StepCount(s: QuizState, raw: string)
    ensures |Finish(QuizStep(s, raw))| <= |Finish(s)| + QuestionStartCount([raw])
  {
    assert [raw][1..] == [];
  }

  lemma {:induction false} RunCount(s: QuizState, lines: seq<string>)
    ensures |Finish(QuizRun(s, lines))| <= |Finish(s)| + QuestionStartCount(lines)
    decreases |lines|
  {
    if lines != [] {
      StepCount(s, lines[0]);
      assert [lines[0]][1..] == [];
      RunCount(QuizStep(s, lines[0]), lines[1..]);
    }
  }

  /** There are never more questions than lines that start one. */
  lemma QuizCountBound(raw: string)
    ensures |ParseQuiz(raw)| <= QuestionStartCount(Lines(raw))
  {
    RunCount(QuizStart, Lines(raw));
  }

  // ---------------------------------------------------------------------------
  // Conservation: every option line lands, verbatim and in order, in exactly
  // one question, except those still waiting when the input ends without a
  // pending question.

  /** The stripped option lines of `lines`, in order. */
  function OptionLines(lines: seq<string>): seq<string> {
    if lines == [] then []
    else
      var line := Strip(lines[0]);
      (if line != [] && ClassifyQuizLine(line).OptionLine? then [line] else []) + OptionLines(lines[1..])
  }

  /** All options of `blocks`, one question after another. */
  function Flatten(blocks: seq<RawQuestion>): seq<string> {
    if blocks == [] then [] else Flatten(blocks[..|blocks| - 1]) + blocks[|blocks| - 1].options
  }

  /** Every option the state holds, emitted or still gathered. */
  function Pool(s: QuizState): seq<string> {
    Flatten(s.blocks) + s.options
  }

  lemma FlattenAppend(blocks: seq<RawQuestion>, b: RawQuestion)
    ensures Flatten(blocks + [b]) == Flatten(blocks) + b.options
  {
    assert (blocks + [b])[..|blocks|] == blocks;
  }

  /** The option a single line contributes, if any. */
  lemma OptionLinesOne(raw: string)
    ensures OptionLines([raw]) ==
      var line := Strip(raw);
      if line != [] && ClassifyQuizLine(line).OptionLine? then [line] else []
  {
    assert [raw][1..] == [];
  }

  lemma StepPool(s: QuizState, raw: string)
    ensures Pool(QuizStep(s, raw)) == Pool(s) + OptionLines([raw])
  {
    OptionLinesOne(raw);
    var line := Strip(raw);
    if line != [] && ClassifyQuizLine(line).OptionLine? {
      var option := ClassifyQuizLine(line).option;
      AppendAssoc(Flatten(s.blocks), s.options, [option]);
    } else {
      assert Pool(s) + [] == Pool(s);
      if line != [] && ClassifyQuizLine(line).QuestionStart? && s.pending != [] {
        FlattenAppend(s.blocks, Current(s));
        assert Flatten(s.blocks) + s.options + [] == Flatten(s.blocks) + s.options;
      }
    }
  }

  lemma {:induction false} RunPool(s: QuizState, lines: seq<string>)
    ensures Pool(QuizRun(s, lines)) == Pool(s) + OptionLines(lines)
    decreases |lines|
  {
    if lines == [] {
      assert Pool(s) + [] == Pool(s);
    } else {
      StepPool(s, lines[0]);
      RunPool(QuizStep(s, lines[0]), lines[1..]);
      assert OptionLines(lines) == OptionLines([lines[0]]) + OptionLines(lines[1..]) by {
        assert [lines[0]][1..] == [];
      }
      AppendAssoc(Pool(s), OptionLines([lines[0]]), OptionLines(lines[1..]));
    }
  }

  /**
    The options of the emitted questions, followed by the options still waiting
    at the end (kept only when no question is pending), are exactly the option
    lines of the input in order.
   */
  lemma OptionsAccounted(raw: string)
    ensures var r := QuizRun(QuizStart, Lines(raw));
      Flatten(ParseQuiz(raw)) + (if r.pending == [] then r.options else []) == OptionLines(Lines(raw))
  {
    var r := QuizRun(QuizStart, Lines(raw));
    RunPool(QuizStart, Lines(raw));
    assert Pool(QuizStart) == [];
    assert [] + OptionLines(Lines(raw)) == OptionLines(Lines(raw));
    if r.pending != [] {
      FlattenAppend(r.blocks, RawQuestion(r.count, r.pending, r.options));
      assert Flatten(Finish(r)) + [] == Flatten(Finish(r));
    }
  }

  // ---------------------------------------------------------------------------
  // Round trip: a well-formed quiz written out as "N. text" lines, each followed
  // by its option lines, reads back as the same questions.

  /** A line that survives `strip()` and `split("\n")` unchanged. */
  predicate LineReady(line: string) {
    line != [] && Trimmed(line) && '\n' !in line
  }

  predicate WellFormedQuestion(b: RawQuestion) {
    && LineReady(b.text)
    && forall j :: 0 <= j < |b.options| ==> LineReady(b.options[j]) && IsOptionLabel(b.options[j])
  }

  /** Questions numbered from `first`, each well formed. */
  predicate WellFormedFrom(blocks: seq<RawQuestion>, first: nat) {
    forall i :: 0 <= i < |blocks| ==> blocks[i].index == first + i && WellFormedQuestion(blocks[i])
  }

  function Header(b: RawQuestion): string {
    Decimal(b.index) + ". " + b.text
  }

  function BlockLines(b: RawQuestion): seq<string> {
    [Header(b)] + b.options
  }

  function QuizLines(blocks: seq<RawQuestion>): seq<string> {
    if blocks == [] then [] else BlockLines(blocks[0]) + QuizLines(blocks[1..])
  }

  /** The canonical text of a quiz. */
  function RenderQuiz(blocks: seq<RawQuestion>): string {
    Join(QuizLines(blocks), '\n')
  }

  predicate AllDigits(d: string) {
    forall i :: 0 <= i < |d| ==> IsDigit(d[i])
  }

  lemma NumberedLineShape(d: string, text: string)
    requires d != [] && AllDigits(d) && LineReady(text)
    ensures LineReady(d + ". " + text)
    ensures (d + ". " + text)[0] == d[0]
    ensures '.' in d + ". " + text
  {
    var h := d + ". " + text;
    assert h[0] == d[0];
    assert h[|h| - 1] == text[|text| - 1];
    assert h[|d|] == '.';
    forall i | 0 <= i < |h|
      ensures h[i] != '\n'
    {
      if i < |d| {
        assert IsDigit(h[i]);
      } else if i >= |d| + 2 {
        assert h[i] == text[i - |d| - 2];
      }
    }
  }

  lemma NumberedLineText(d: string, text: string)
    requires AllDigits(d) && Trimmed(text)
    ensures AfterFirst(d + ". " + text, '.') == " " + text
    ensures Strip(" " + text) == text
  {
    assert '.' !in d by {
      forall i | 0 <= i < |d|
        ensures d[i] != '.'
      {
        assert IsDigit(d[i]);
      }
    }
    assert d + ". " + text == d + ['.'] + (" " + text);
    AfterFirstOf(d, '.', " " + text);
    StripOneSpace(text);
  }

  /** A line "N. text" reads as the start of a question with that text. */
  lemma NumberedLine(d: string, text: string)
    requires d != [] && AllDigits(d) && LineReady(text)
    ensures LineReady(d + ". " + text)
    ensures Strip(d + ". " + text) == d + ". " + text
    ensures ClassifyQuizLine(d + ". " + text) == QuestionStart(text)
  {
    NumberedLineShape(d, text);
    StripTrimmed(d + ". " + text);
    NumberedLineClass(d, text);
  }

  lemma NumberedLineClass(d: string, text: string)
    requires d != [] && AllDigits(d) && Trimmed(text)
    ensures ClassifyQuizLine(d + ". " + text) == QuestionStart(text)
  {
    var h := d + ". " + text;
    assert h[0] == d[0] && h[|d|] == '.';
    NumberedLineText(d, text);
  }

  lemma HeaderReads(b: RawQuestion)
    requires WellFormedQuestion(b)
    ensures LineReady(Header(b))
    ensures Strip(Header(b)) == Header(b)
    ensures ClassifyQuizLine(Header(b)) == QuestionStart(b.text)
  {
    NumberedLine(Decimal(b.index), b.text);
  }

  lemma HeaderStep(s: QuizState, b: RawQuestion)
    requires WellFormedQuestion(b)
    ensures QuizStep(s, Header(b)) ==
      if s.pending != [] then QuizState(b.text, [], s.count + 1, s.blocks + [RawQuestion(s.count, s.pending, s.options)])
      else s.(pending := b.text)
  {
    HeaderReads(b);
    QuestionLineStep(s, Header(b), b.text);
  }

  /** A stripped line that starts a question, read in any state. */
  lemma QuestionLineStep(s: QuizState, line: string, text: string)
    requires line != [] && Strip(line) == line && ClassifyQuizLine(line) == QuestionStart(text)
    ensures QuizStep(s, line) ==
      if s.pending != [] then QuizState(text, [], s.count + 1, s.blocks + [RawQuestion(s.count, s.pending, s.options)])
      else s.(pending := text)
  {
  }

  lemma OptionStep(s: QuizState, o: string)
    requires LineReady(o) && IsOptionLabel(o)
    ensures QuizStep(s, o) == s.(options := s.options + [o])
  {
    StripTrimmed(o);
    assert !IsDigit(o[0]);
    assert StartsWithFolded(o, [Lower(o[0]), ')']);
  }

  lemma {:induction false} OptionsRun(s: QuizState, opts: seq<string>)
    requires forall j :: 0 <= j < |opts| ==> LineReady(opts[j]) && IsOptionLabel(opts[j])
    ensures QuizRun(s, opts) == s.(options := s.options + opts)
    decreases |opts|
  {
    if opts == [] {
      assert s.options + [] == s.options;
    } else {
      OptionStep(s, opts[0]);
      OptionsRun(s.(options := s.options + [opts[0]]), opts[1..]);
      AppendHead(s.options, opts);
    }
  }

  /** The loop's first iteration, taken on its own. */
  lemma RunFirst(s: QuizState, lines: seq<string>)
    requires lines != []
    ensures QuizRun(s, lines) == QuizRun(QuizStep(s, lines[0]), lines[1..])
  {
  }

  lemma BlockRun(s: QuizState, b: RawQuestion)
    requires WellFormedQuestion(b)
    ensures QuizRun(s, BlockLines(b)) ==
      if s.pending != [] then QuizState(b.text, b.options, s.count + 1, s.blocks + [RawQuestion(s.count, s.pending, s.options)])
      else QuizState(b.text, s.options + b.options, s.count, s.blocks)
  {
    var lines := BlockLines(b);
    assert lines[0] == Header(b) && lines[1..] == b.options;
    HeaderStep(s, b);
    var t := QuizStep(s, Header(b));
    RunFirst(s, lines);
    OptionsRun(t, b.options);
    if s.pending != [] {
      assert [] + b.options == b.options;
    }
  }

  lemma {:induction false} QuizRunAppend(s: QuizState, xs: seq<string>, ys: seq<string>)
    ensures QuizRun(s, xs + ys) == QuizRun(QuizRun(s, xs), ys)
    decreases |xs|
  {
    if xs == [] {
      assert xs + ys == ys;
    } else {
      assert (xs + ys)[0] == xs[0] && (xs + ys)[1..] == xs[1..] + ys;
      QuizRunAppend(QuizStep(s, xs[0]), xs[1..], ys);
    }
  }

  /** The question a state would emit next. */
  function Current(s: QuizState): RawQuestion {
    RawQuestion(s.count, s.pending, s.options)
  }

  lemma {:induction false} PendingRoundTrip(s: QuizState, blocks: seq<RawQuestion>)
    requires s.pending != []
    requires WellFormedFrom(blocks, s.count + 1)
    ensures Finish(QuizRun(s, QuizLines(blocks))) == s.blocks + [Current(s)] + blocks
    decreases |blocks|
  {
    if blocks == [] {
      assert s.blocks + [Current(s)] + [] == s.blocks + [Current(s)];
    } else {
      var b := blocks[0];
      var t := QuizState(b.text, b.options, s.count + 1, s.blocks + [Current(s)]);
      assert QuizRun(s, QuizLines(blocks)) == QuizRun(t, QuizLines(blocks[1..])) by {
        QuizRunAppend(s, BlockLines(b), QuizLines(blocks[1..]));
        BlockRun(s, b);
      }
      assert WellFormedFrom(blocks[1..], t.count + 1) by {
        forall i | 0 <= i < |blocks| - 1
          ensures blocks[1..][i].index == t.count + 1 + i && WellFormedQuestion(blocks[1..][i])
        {
          assert blocks[1..][i] == blocks[i + 1];
        }
      }
      PendingRoundTrip(t, blocks[1..]);
      assert Current(t) == b;
      AppendHead(s.blocks + [Current(s)], blocks);
    }
  }

  lemma QuizRunRendered(blocks: seq<RawQuestion>)
    requires WellFormedFrom(blocks, 1)
    ensures Finish(QuizRun(QuizStart, QuizLines(blocks))) == blocks
  {
    if blocks != [] {
      var b := blocks[0];
      var t := QuizState(b.text, b.options, 1, []);
      assert QuizRun(QuizStart, QuizLines(blocks)) == QuizRun(t, QuizLines(blocks[1..])) by {
        QuizRunAppend(QuizStart, BlockLines(b), QuizLines(blocks[1..]));
        BlockRun(QuizStart, b);
        assert [] + b.options == b.options;
      }
      assert WellFormedFrom(blocks[1..], 2) by {
        forall i | 0 <= i < |blocks| - 1
          ensures blocks[1..][i].index == 2 + i && WellFormedQuestion(blocks[1..][i])
        {
          assert blocks[1..][i] == blocks[i + 1];
        }
      }
      PendingRoundTrip(t, blocks[1..]);
      assert Current(t) == b;
      assert [] + [b] == [b];
      AppendHead([], blocks);
    }
  }

  predicate AllReady(lines: seq<string>) {
    forall k :: 0 <= k < |lines| ==> LineReady(lines[k])
  }

  lemma ReadyAppend(xs: seq<string>, ys: seq<string>)
    requires AllReady(xs) && AllReady(ys)
    ensures AllReady(xs + ys)
  {
    forall k | 0 <= k < |xs + ys|
      ensures LineReady((xs + ys)[k])
    {
      if k < |xs| {
        assert (xs + ys)[k] == xs[k];
      } else {
        assert (xs + ys)[k] == ys[k - |xs|];
      }
    }
  }

  lemma {:induction false} QuizLinesReady(blocks: seq<RawQuestion>)
    requires forall i :: 0 <= i < |blocks| ==> WellFormedQuestion(blocks[i])
    ensures AllReady(QuizLines(blocks))
    ensures blocks != [] ==> QuizLines(blocks) != [] && QuizLines(blocks)[0] == Header(blocks[0])
    decreases |blocks|
  {
    if blocks != [] {
      var b := blocks[0];
      QuizLinesReady(blocks[1..]);
      BlockLinesReady(b);
      ReadyAppend(BlockLines(b), QuizLines(blocks[1..]));
    }
  }

  lemma BlockLinesReady(b: RawQuestion)
    requires WellFormedQuestion(b)
    ensures AllReady(BlockLines(b)) && BlockLines(b)[0] == Header(b)
  {
    HeaderReads(b);
    ReadyCons(Header(b), b.options);
  }

  lemma ReadyCons(line: string, options: seq<string>)
    requires LineReady(line)
    requires forall j :: 0 <= j < |options| ==> LineReady(options[j]) && IsOptionLabel(options[j])
    ensures AllReady([line] + options) && ([line] + options)[0] == line
  {
    assert AllReady([line]);
    ReadyAppend([line], options);
  }

  /**
    A well-formed quiz numbered 1..n, written out one "N. text" line per
    question followed by its option lines, parses back to the same questions.
   */
  lemma QuizRoundTrip(blocks: seq<RawQuestion>)
    requires WellFormedFrom(blocks, 1)
    ensures ParseQuiz(RenderQuiz(blocks)) == blocks
  {
    if blocks == [] {
      assert RenderQuiz(blocks) == [];
      assert Lines([]) == [[]];
      assert QuizStep(QuizStart, []) == QuizStart by {
        StripTrimmed([]);
      }
      assert QuizRun(QuizStart, [[]]) == QuizRun(QuizStart, []);
    } else {
      QuizRenderedLines(blocks);
      QuizRunRendered(blocks);
    }
  }

  lemma QuizRenderedLines(blocks: seq<RawQuestion>)
    requires blocks != []
    requires WellFormedFrom(blocks, 1)
    ensures Lines(RenderQuiz(blocks)) == QuizLines(blocks)
  {
    var lines := QuizLines(blocks);
    QuizLinesReady(blocks);
    assert LineReady(lines[0]) && LineReady(lines[|lines| - 1]);
    forall k | 0 <= k < |lines|
      ensures '\n' !in lines[k]
    {
      assert LineReady(lines[k]);
    }
    LinesOfJoin(lines);
  }

  /** Option lines seen before any question wait for the first question and join its options. */
  lemma StrayOptionsRun(opts: seq<string>, blocks: seq<RawQuestion>)
    requires forall j :: 0 <= j < |opts| ==> LineReady(opts[j]) && IsOptionLabel(opts[j])
    requires blocks != [] && WellFormedFrom(blocks, 1)
    ensures Finish(QuizRun(QuizStart, opts + QuizLines(blocks)))
      == [blocks[0].(options := opts + blocks[0].options)] + blocks[1..]
  {
    var b := blocks[0];
    var s1 := QuizState([], opts, 1, []);
    assert QuizRun(QuizStart, opts) == s1 by {
      OptionsRun(QuizStart, opts);
      assert [] + opts == opts;
    }
    QuizRunAppend(QuizStart, opts, QuizLines(blocks));
    var t := QuizState(b.text, opts + b.options, 1, []);
    assert QuizRun(s1, QuizLines(blocks)) == QuizRun(t, QuizLines(blocks[1..])) by {
      QuizRunAppend(s1, BlockLines(b), QuizLines(blocks[1..]));
      BlockRun(s1, b);
    }
    assert WellFormedFrom(blocks[1..], 2) by {
      forall i | 0 <= i < |blocks| - 1
        ensures blocks[1..][i].index == 2 + i && WellFormedQuestion(blocks[1..][i])
      {
        assert blocks[1..][i] == blocks[i + 1];
      }
    }
    PendingRoundTrip(t, blocks[1..]);
    assert [] + [Current(t)] == [Current(t)];
  }

  /**
    Option lines at the very start of a quiz, before any numbered line, are
    not dropped: they end up in front of the first question's options.
   */
  lemma StrayOptionsJoinFirst(opts: seq<string>, blocks: seq<RawQuestion>)
    requires forall j :: 0 <= j < |opts| ==> LineReady(opts[j]) && IsOptionLabel(opts[j])
    requires blocks != [] && WellFormedFrom(blocks, 1)
    ensures ParseQuiz(Join(opts + QuizLines(blocks), '\n'))
      == [blocks[0].(options := opts + blocks[0].options)] + blocks[1..]
  {
    var lines := opts + QuizLines(blocks);
    assert Lines(Join(lines, '\n')) == lines by {
      QuizLinesReady(blocks);
      assert AllReady(opts);
      ReadyAppend(opts, QuizLines(blocks));
      assert LineReady(lines[0]) && LineReady(lines[|lines| - 1]);
      forall k | 0 <= k < |lines|
        ensures '\n' !in lines[k]
      {
        assert LineReady(lines[k]);
      }
      LinesOfJoin(lines);
    }
    StrayOptionsRun(opts, blocks);
  }
  /** "note" is neither a question nor an option, so it is skipped in any state. */
  lemma NoteSkipped(s: QuizState, raw: string)
    requires raw == "note"
    ensures QuizStep(s, raw) == s
  {
    StripTrimmed("note");
    assert ClassifyQuizLine("note") == IgnoredLine;
  }

  /** A numbered line with a one-digit number and text, read in any state. */
  lemma OneDigitQuestion(s: QuizState, d: char, text: string)
    requires IsDigit(d) && LineReady(text)
    ensures QuizStep(s, [d] + ". " + text) ==
      if s.pending != [] then QuizState(text, [], s.count + 1, s.blocks + [Current(s)])
      else s.(pending := text)
  {
    NumberedLine([d], text);
  }

  lemma FirstQuestionRead(raw: string)
    requires raw == "1. A"
    ensures QuizStep(QuizStart, raw) == QuizState("A", [], 1, [])
  {
    assert ['1'] + ". " + "A" == "1. A";
    OneDigitQuestion(QuizStart, '1', "A");
  }

  lemma SecondQuestionRead(s: QuizState, raw: string)
    requires s.pending != [] && raw == "2. B"
    ensures QuizStep(s, raw) == QuizState("B", [], s.count + 1, s.blocks + [Current(s)])
  {
    assert ['2'] + ". " + "B" == "2. B";
    OneDigitQuestion(s, '2', "B");
  }

  lemma OptionXRead(s: QuizState, raw: string)
    requires raw == "a) x"
    ensures QuizStep(s, raw) == s.(options := s.options + [raw])
  {
    assert LineReady("a) x") && IsOptionLabel("a) x");
    OptionStep(s, "a) x");
  }

  /** Four iterations of the loop, taken one by one. */
  lemma RunFour(s: QuizState, l0: string, l1: string, l2: string, l3: string)
    ensures QuizRun(s, [l0, l1, l2, l3]) == QuizStep(QuizStep(QuizStep(QuizStep(s, l0), l1), l2), l3)
  {
    var lines := [l0, l1, l2, l3];
    RunFirst(s, lines);
    RunFirst(QuizStep(s, l0), lines[1..]);
    RunFirst(QuizStep(QuizStep(s, l0), l1), lines[2..]);
    RunFirst(QuizStep(QuizStep(QuizStep(s, l0), l1), l2), lines[3..]);
    assert lines[4..] == [];
  }

  /**
    A worked run with a line that is neither a question nor an option between
    a question and its option: the line is skipped, and the option still
    belongs to the question before it, not to the one after.
   */
  lemma IgnoredLineExample(lines: seq<string>)
    requires lines == ["1. A", "note", "a) x", "2. B"]
    ensures Finish(QuizRun(QuizStart, lines)) == [RawQuestion(1, "A", ["a) x"]), RawQuestion(2, "B", [])]
  {
    assert lines == [lines[0], lines[1], lines[2], lines[3]];
    RunFour(QuizStart, lines[0], lines[1], lines[2], lines[3]);
    var s1 := QuizStep(QuizStart, lines[0]);
    FirstQuestionRead(lines[0]);
    NoteSkipped(s1, lines[1]);
    OptionXRead(s1, lines[2]);
    var s2 := QuizStep(s1, lines[2]);
    assert [] + [lines[2]] == [lines[2]];
    assert s2 == QuizState("A", [lines[2]], 1, []);
    SecondQuestionRead(s2, lines[3]);
    assert [] + [Current(s2)] == [Current(s2)];
  }
}
