/**
  Option resolution of `create_quiz_block` (main.py): marked options lose their
  "*" markers, and the correct option is the last marked one, or else the first
  option, or absent when there are no options. `FormatQuiz` puts the parser and
  this resolution together.
 */
module QuizBlock {
  import opened Strings
  import opened Optional
  import opened QuizParser

  /** A question as displayed and graded: options without markers, and the correct one. */
  datatype QuizQuestion = QuizQuestion(index: nat, text: string, options: seq<string>, correct: Option<string>)

  /** One option as displayed: a marked option has every "*" removed and is stripped. */
  function CleanOption(option: string): (r: string)
    ensures '*' !in r
    ensures '*' !in option ==> r == option
    ensures '*' in option ==> r == Strip(RemoveAll(option, '*'))
    ensures IsOptionLabel(option) ==> r != [] && r[0] == option[0]
  {
    if '*' in option then
      CleanedLabelKept(option);
      Strip(RemoveAll(option, '*'))
    else option
  }

  /**
    A marker anywhere inside a trimmed option is taken out and nothing else
    changes, as long as that leaves no blank at either end.
   */
  lemma MarkerRemoved(before: string, after: string)
    requires '*' !in before && '*' !in after
    requires Trimmed(before + after)
    ensures CleanOption(before + "*" + after) == before + after
  {
    var option := before + "*" + after;
    assert '*' in option by {
      assert option[|before|] == '*';
    }
    assert RemoveAll(option, '*') == before + after by {
      MarkerSplit(before, after);
    }
    StripTrimmed(before + after);
  }

  lemma MarkerSplit(before: string, after: string)
    requires '*' !in before && '*' !in after
    ensures RemoveAll(before + "*" + after, '*') == before + after
  {
    var marked := before + "*";
    assert RemoveAll(marked, '*') == before by {
      assert RemoveAll("*", '*') == [] by {
        assert "*"[1..] == [];
      }
      RemoveAllAbsent(before, '*');
      RemoveAllAppend(before, "*", '*');
    }
    assert RemoveAll(after, '*') == after by {
      RemoveAllAbsent(after, '*');
    }
    RemoveAllAppend(marked, after, '*');
  }

  /** Cleaning removes every marker and leaves the letter of an option line in front. */
  lemma CleanedLabelKept(option: string)
    ensures '*' !in Strip(RemoveAll(option, '*'))
    ensures IsOptionLabel(option) ==> Strip(RemoveAll(option, '*')) != [] && Strip(RemoveAll(option, '*'))[0] == option[0]
  {
    StripAddsNothing(RemoveAll(option, '*'), '*');
    if IsOptionLabel(option) {
      StripNonEmpty(RemoveAll(option, '*'));
    }
  }

  /** The displayed options: every option cleaned, in place. */
  function CleanAll(options: seq<string>): (r: seq<string>)
    ensures |r| == |options|
    ensures forall i :: 0 <= i < |options| ==> r[i] == CleanOption(options[i])
    ensures forall i :: 0 <= i < |options| ==> '*' !in r[i]
  {
    seq(|options|, i requires 0 <= i < |options| => CleanOption(options[i]))
  }

  lemma CleanAllCons(options: seq<string>)
    requires options != []
    ensures CleanAll(options) == [CleanOption(options[0])] + CleanAll(options[1..])
  {
  }

  /**
    The loop at lines 240-245: it builds the cleaned list and remembers the
    cleaned form of each marked option as it goes, so the last one is kept.
   */
  function ScanOptions(options: seq<string>, cleaned: seq<string>, marked: Option<string>): (r: (seq<string>, Option<string>))
    ensures |r.0| == |cleaned| + |options| && r.0[..|cleaned|] == cleaned
    ensures r.1.Some? ==> r.1 == marked || '*' !in r.1.value
    decreases |options|
  {
    if options == [] then (cleaned, marked)
    else
      var option := options[0];
      if '*' in option then
        var c := CleanOption(option);
        ScanOptions(options[1..], cleaned + [c], Some(c))
      else
        ScanOptions(options[1..], cleaned + [option], marked)
  }

  /** Position of the last option carrying a "*" marker, if any. */
  function LastMarked(options: seq<string>): (k: Option<nat>)
    ensures k.Some? ==> k.value < |options| && '*' in options[k.value]
    ensures k.Some? ==> forall j :: k.value < j < |options| ==> '*' !in options[j]
    ensures k.None? <==> forall j :: 0 <= j < |options| ==> '*' !in options[j]
  {
    if options == [] then None
    else match LastMarked(options[1..])
      case Some(k) => Some(k + 1)
      case None => if '*' in options[0] then Some(0) else None
  }

  /** The cleaned form of the last marked option, or `otherwise` when none is marked. */
  function MarkedOr(options: seq<string>, otherwise: Option<string>): Option<string> {
    match LastMarked(options)
    case Some(k) => Some(CleanOption(options[k]))
    case None => otherwise
  }

  /** The remembered option, when there is one, is the marked option's displayed form. */
  lemma MarkedShape(options: seq<string>)
    ensures MarkedOr(options, None).None? <==> LastMarked(options).None?
    ensures LastMarked(options).Some? ==> MarkedOr(options, None) == Some(CleanAll(options)[LastMarked(options).value])
  {
  }

  /** The loop cleans every option in place and ends up holding the last marked option. */
  lemma {:induction false} ScanMatches(options: seq<string>, cleaned: seq<string>, marked: Option<string>)
    ensures ScanOptions(options, cleaned, marked) == (cleaned + CleanAll(options), MarkedOr(options, marked))
    decreases |options|
  {
    if options == [] {
      assert cleaned + [] == cleaned;
    } else {
      var o := options[0];
      var rest := options[1..];
      var m := if '*' in o then Some(CleanOption(o)) else marked;
      ScanMatches(rest, cleaned + [CleanOption(o)], m);
      CleanAllCons(options);
      AppendAssoc(cleaned, [CleanOption(o)], CleanAll(rest));
      match LastMarked(rest)
      case Some(k) =>
        assert options[k + 1] == rest[k];
      case None =>
    }
  }

  /** The loop run from its initial state, `[]` and `None`. */
  function ScanAll(options: seq<string>): (r: (seq<string>, Option<string>))
    ensures r == (CleanAll(options), MarkedOr(options, None))
  {
    ScanMatches(options, [], None);
    assert [] + CleanAll(options) == CleanAll(options);
    ScanOptions(options, [], None)
  }

  /**
    `create_quiz_block` for one parsed question: the displayed options and the
    correct option (lines 238-248). The fallback to the first option applies
    whenever the remembered marked option is missing or empty, as Python's
    `not correct_option` is true of both.
   */
  function CreateQuizBlock(b: RawQuestion): (q: QuizQuestion)
    ensures q.index == b.index && q.text == b.text
    ensures q.options == CleanAll(b.options)
    ensures forall i :: 0 <= i < |q.options| ==> '*' !in q.options[i]
    ensures q.correct.None? <==> b.options == []
    ensures q.correct.Some? ==> q.correct.value in q.options
    ensures LastMarked(b.options).Some? && q.options[LastMarked(b.options).value] != []
      ==> q.correct == Some(q.options[LastMarked(b.options).value])
    ensures b.options != [] && (LastMarked(b.options).None? || q.options[LastMarked(b.options).value] == [])
      ==> q.correct == Some(q.options[0])
    ensures AllOptionLabels(b.options) && q.correct.Some? ==> q.correct.value != []
  {
    var scanned := ScanAll(b.options);
    MarkedShape(b.options);
    var cleaned := scanned.0;
    var marked := scanned.1;
    var correct := if (marked.None? || marked.value == []) && cleaned != [] then Some(cleaned[0]) else marked;
    QuizQuestion(b.index, b.text, cleaned, correct)
  }

  /**
    For options that are real option lines (as the parser guarantees), the
    correct option is exactly the last marked option, else the first, and is
    never empty.
   */
  lemma CorrectOfOptionLines(b: RawQuestion)
    requires AllOptionLabels(b.options)
    ensures var q := CreateQuizBlock(b);
      && (LastMarked(b.options).Some? ==> q.correct == Some(CleanOption(b.options[LastMarked(b.options).value])))
      && (LastMarked(b.options).None? && b.options != [] ==> q.correct == Some(b.options[0]))
      && (q.correct.Some? ==> q.correct.value != [])
  {
    var q := CreateQuizBlock(b);
    if b.options != [] {
      assert IsOptionLabel(b.options[0]);
      match LastMarked(b.options)
      case Some(k) =>
        assert IsOptionLabel(b.options[k]);
      case None =>
    }
  }

  /** `format_quiz(raw)`: the questions as displayed, in order. */
  function FormatQuiz(raw: string): (qs: seq<QuizQuestion>)
    ensures |qs| == |ParseQuiz(raw)|
    ensures forall i :: 0 <= i < |qs| ==> qs[i].index == i + 1 && qs[i].text != []
    ensures forall i, j :: 0 <= i < |qs| && 0 <= j < |qs[i].options| ==> '*' !in qs[i].options[j]
    ensures forall i :: 0 <= i < |qs| ==> (qs[i].correct.None? <==> qs[i].options == [])
    ensures forall i :: 0 <= i < |qs| && qs[i].correct.Some? ==> qs[i].correct.value in qs[i].options
    ensures forall i :: 0 <= i < |qs| && qs[i].correct.Some? ==> qs[i].correct.value != []
  {
    CreateAll(ParseQuiz(raw))
  }

  /** `create_quiz_block` applied to every parsed question, in order. */
  function CreateAll(parsed: seq<RawQuestion>): (qs: seq<QuizQuestion>)
    ensures |qs| == |parsed|
    ensures forall i :: 0 <= i < |qs| ==> qs[i] == CreateQuizBlock(parsed[i])
  {
    seq(|parsed|, i requires 0 <= i < |parsed| => CreateQuizBlock(parsed[i]))
  }

  /** The question of the worked quiz below, as parsed. */
  const ExampleQuestion := RawQuestion(1, "2+2=?", ["a) 3", "b) 4*", "c) 5"])
  const ExampleRaw := "1. 2+2=?\na) 3\nb) 4*\nc) 5"

  lemma ExampleLines()
    ensures QuizLines([ExampleQuestion]) == ["1. 2+2=?", "a) 3", "b) 4*", "c) 5"]
  {
    var b := ExampleQuestion;
    assert Header(b) == "1. 2+2=?" by {
      assert Decimal(1) == "1";
    }
    assert [b][1..] == [];
    assert BlockLines(b) + [] == BlockLines(b);
  }

  /** Joining the four lines, one separator at a time. */
  lemma ExampleJoinSteps()
    ensures Join(["1. 2+2=?", "a) 3", "b) 4*", "c) 5"], '\n')
      == "1. 2+2=?" + ['\n'] + ("a) 3" + ['\n'] + ("b) 4*" + ['\n'] + "c) 5"))
  {
    JoinCons("b) 4*", ["c) 5"], '\n');
    JoinCons("a) 3", ["b) 4*", "c) 5"], '\n');
    JoinCons("1. 2+2=?", ["a) 3", "b) 4*", "c) 5"], '\n');
  }

  lemma ExampleRawPieces()
    ensures "1. 2+2=?" + ['\n'] + ("a) 3" + ['\n'] + ("b) 4*" + ['\n'] + "c) 5")) == ExampleRaw
  {
  }

  lemma ExampleWellFormed()
    ensures WellFormedFrom([ExampleQuestion], 1)
  {
    assert LineReady("2+2=?");
    assert LineReady("a) 3") && IsOptionLabel("a) 3");
    assert LineReady("b) 4*") && IsOptionLabel("b) 4*");
    assert LineReady("c) 5") && IsOptionLabel("c) 5");
  }

  lemma ExampleParsed()
    ensures ParseQuiz(ExampleRaw) == [ExampleQuestion]
  {
    var b := ExampleQuestion;
    ExampleWellFormed();
    QuizRoundTrip([b]);
    ExampleLines();
    ExampleJoinSteps();
    ExampleRawPieces();
  }

  lemma ExampleMarkerRemoved()
    ensures CleanOption("b) 4*") == "b) 4"
  {
    assert RemoveAll("*", '*') == [] by {
      assert "*"[1..] == [];
    }
    assert RemoveAll("4*", '*') == "4" by {
      assert "4*"[1..] == "*";
    }
    assert RemoveAll(" 4*", '*') == " 4" by {
      assert " 4*"[1..] == "4*";
    }
    assert RemoveAll(") 4*", '*') == ") 4" by {
      assert ") 4*"[1..] == " 4*";
    }
    assert RemoveAll("b) 4*", '*') == "b) 4" by {
      assert "b) 4*"[1..] == ") 4*";
    }
    StripTrimmed("b) 4");
  }

  /** A three-element list is fixed by its elements; proved once, apart from the example below. */
  lemma ThreeElements<T>(s: seq<T>, a: T, b: T, c: T)
    requires |s| == 3 && s[0] == a && s[1] == b && s[2] == c
    ensures s == [a, b, c]
  {
  }

  lemma ExampleCleaned()
    ensures CleanAll(ExampleQuestion.options) == ["a) 3", "b) 4", "c) 5"]
  {
    var cleaned := CleanAll(ExampleQuestion.options);
    assert cleaned[0] == "a) 3" by {
      assert '*' !in "a) 3";
    }
    assert cleaned[1] == "b) 4" by {
      ExampleMarkerRemoved();
    }
    assert cleaned[2] == "c) 5" by {
      assert '*' !in "c) 5";
    }
    ThreeElements(cleaned, "a) 3", "b) 4", "c) 5");
  }

  lemma ExampleCreated()
    ensures CreateQuizBlock(ExampleQuestion) == QuizQuestion(1, "2+2=?", ["a) 3", "b) 4", "c) 5"], Some("b) 4"))
  {
    assert LastMarked(ExampleQuestion.options) == Some(1) by {
      assert '*' !in "c) 5";
    }
    ExampleCleaned();
  }

  /**
    A worked quiz: the marked "b) 4*" is shown as "b) 4" and is the correct
    option rather than the first one, and the other options are shown as written.
   */
  lemma MarkedOptionExample()
    ensures FormatQuiz("1. 2+2=?\na) 3\nb) 4*\nc) 5")
      == [QuizQuestion(1, "2+2=?", ["a) 3", "b) 4", "c) 5"], Some("b) 4"))]
  {
    ExampleParsed();
    ExampleCreated();
  }
}
