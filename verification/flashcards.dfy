/**
  The flashcard reader: loosely formatted "Q: ... / A: ..." text from the
  generator becomes an ordered list of question/answer cards (main.py,
  `format_flashcards`). Lines are classified one at a time and folded into a
  pending question and a pending answer; a card is emitted as soon as both are
  non-empty.
 */
module Flashcards {
  import opened Strings

  datatype Flashcard = Flashcard(question: string, answer: string)

  /** How one stripped, non-blank line of flashcard text is read. */
  datatype CardLine = QuestionLine(text: string) | AnswerLine(text: string) | UnlabelledLine

  /** The loop state: the pending question and answer, and the cards emitted so far. */
  datatype CardState = CardState(q: string, a: string, cards: seq<Flashcard>)

  const CardStart := CardState([], [], [])

  /** Both halves of every card are non-empty. */
  predicate ValidCards(cards: seq<Flashcard>) {
    forall i :: 0 <= i < |cards| ==> cards[i].question != [] && cards[i].answer != []
  }

  /** Between lines the two pending values are never both non-empty: such a pair is emitted at once. */
  predicate Settled(s: CardState) {
    s.q == [] || s.a == []
  }

  /**
    The classification of lines 172-175: the question test comes first, the
    `startswith("question")` alternative adds nothing to `startswith("q")`, and the
    stored text is what follows the first colon (or the whole line), stripped.
   */
  function ClassifyCardLine(line: string): (r: CardLine)
    ensures r.QuestionLine? <==> line != [] && (line[0] == 'q' || line[0] == 'Q')
    ensures r.AnswerLine? <==> line != [] && (line[0] == 'a' || line[0] == 'A')
    ensures !r.UnlabelledLine? ==> r.text == Strip(AfterFirst(line, ':'))
    ensures !r.UnlabelledLine? && ':' !in line && Trimmed(line) ==> r.text == line
  {
    if StartsWithFolded(line, "q") || StartsWithFolded(line, "question") then
      QuestionLine(Strip(AfterFirst(line, ':')))
    else if StartsWithFolded(line, "a") || StartsWithFolded(line, "answer") then
      AnswerLine(Strip(AfterFirst(line, ':')))
    else
      UnlabelledLine
  }

  /** One iteration of the loop at lines 168-178, on one raw line. */
  function CardStep(s: CardState, raw: string): (r: CardState)
    ensures s.cards <= r.cards && |r.cards| <= |s.cards| + 1
    ensures Settled(r) || (Strip(raw) == [] && r == s)
    ensures |r.cards| == |s.cards| + 1 ==> r.q == [] && r.a == [] && r.cards[|s.cards|].question != [] && r.cards[|s.cards|].answer != []
    ensures Strip(raw) == [] ==> r == s
    ensures ClassifyCardLine(Strip(raw)).UnlabelledLine? && Settled(s) ==> r == s
    ensures ValidCards(s.cards) ==> ValidCards(r.cards)
  {
    var line := Strip(raw);
    if line == [] then s else Absorb(s, ClassifyCardLine(line))
  }

  /** The effect of one classified, non-blank line: store its text, then emit a completed pair. */
  function Absorb(s: CardState, c: CardLine): (r: CardState)
    ensures s.cards <= r.cards && |r.cards| <= |s.cards| + 1
    ensures Settled(r)
    ensures |r.cards| == |s.cards| + 1 ==> r.q == [] && r.a == [] && r.cards[|s.cards|].question != [] && r.cards[|s.cards|].answer != []
    ensures c.QuestionLine? && (c.text == [] || s.a == []) ==> r == s.(q := c.text)
    ensures c.QuestionLine? && c.text != [] && s.a != [] ==> r == CardState([], [], s.cards + [Flashcard(c.text, s.a)])
    ensures c.AnswerLine? && (c.text == [] || s.q == []) ==> r == s.(a := c.text)
    ensures c.AnswerLine? && c.text != [] && s.q != [] ==> r == CardState([], [], s.cards + [Flashcard(s.q, c.text)])
    ensures c.UnlabelledLine? && Settled(s) ==> r == s
    ensures ValidCards(s.cards) ==> ValidCards(r.cards)
  {
    var t := match c
      case QuestionLine(text) => s.(q := text)
      case AnswerLine(text) => s.(a := text)
      case UnlabelledLine => s;
    if t.q != [] && t.a != [] then
      ValidAppend(t.cards, Flashcard(t.q, t.a));
      CardState([], [], t.cards + [Flashcard(t.q, t.a)])
    else t
  }

  lemma ValidAppend(cards: seq<Flashcard>, c: Flashcard)
    requires c.question != [] && c.answer != []
    ensures ValidCards(cards) ==> ValidCards(cards + [c])
  {
    if ValidCards(cards) {
      forall i | 0 <= i < |cards| + 1
        ensures (cards + [c])[i].question != [] && (cards + [c])[i].answer != []
      {
        if i < |cards| {
          assert (cards + [c])[i] == cards[i];
        }
      }
    }
  }

  /** The whole loop: every line in order. */
  function CardRun(s: CardState, lines: seq<string>): (r: CardState)
    ensures s.cards <= r.cards
    ensures ValidCards(s.cards) ==> ValidCards(r.cards)
    ensures Settled(s) ==> Settled(r)
    decreases |lines|
  {
    if lines == [] then s else CardRun(CardStep(s, lines[0]), lines[1..])
  }

  /** `format_flashcards(raw)`, returning the cards it would display in order. */
  function FormatFlashcards(raw: string): (cards: seq<Flashcard>)
    ensures ValidCards(cards)
  {
    CardRun(CardStart, Lines(raw)).cards
  }

  /** Blank input, or input of whitespace only, gives no cards. */
  lemma BlankReadsNothing(raw: string)
    requires Strip(raw) == []
    ensures FormatFlashcards(raw) == []
  {
    assert Lines(raw) == [[]];
    assert CardStep(CardStart, []) == CardStart by {
      StripTrimmed([]);
    }
    assert CardRun(CardStart, [[]]) == CardRun(CardStart, []);
  }

  // ---------------------------------------------------------------------------
  // Counting: every card needs a question line and an answer line of its own.

  function QuestionLineCount(lines: seq<string>): nat {
    if lines == [] then 0
    else (if ClassifyCardLine(Strip(lines[0])).QuestionLine? then 1 else 0) + QuestionLineCount(lines[1..])
  }

  function AnswerLineCount(lines: seq<string>): nat {
    if lines == [] then 0
    else (if ClassifyCardLine(Strip(lines[0])).AnswerLine? then 1 else 0) + AnswerLineCount(lines[1..])
  }

  function Pend(x: string): nat {
    if x == [] then 0 else 1
  }

  lemma {:induction false} CardRunCounts(s: CardState, lines: seq<string>)
    requires Settled(s)
    ensures var r := CardRun(s, lines);
      && |r.cards| + Pend(r.q) <= |s.cards| + Pend(s.q) + QuestionLineCount(lines)
      && |r.cards| + Pend(r.a) <= |s.cards| + Pend(s.a) + AnswerLineCount(lines)
    decreases |lines|
  {
    if lines != [] {
      CardRunCounts(CardStep(s, lines[0]), lines[1..]);
    }
  }

  /** No more cards than question lines, and no more than answer lines. */
  lemma FlashcardsBound(raw: string)
    ensures |FormatFlashcards(raw)| <= QuestionLineCount(Lines(raw))
    ensures |FormatFlashcards(raw)| <= AnswerLineCount(Lines(raw))
  {
    CardRunCounts(CardStart, Lines(raw));
  }

  // ---------------------------------------------------------------------------
  // Round trip: text made of "Q: x" / "A: y" line pairs reads back as those cards.

  /** Text that survives being written after "Q: " or "A: " on a line of its own. */
  predicate WellFormedText(x: string) {
    x != [] && Trimmed(x) && '\n' !in x
  }

  predicate WellFormedCards(cards: seq<Flashcard>) {
    forall i :: 0 <= i < |cards| ==> WellFormedText(cards[i].question) && WellFormedText(cards[i].answer)
  }

  /** A line carrying a one-letter label: "Q: x" or "A: x". */
  function Labelled(tag: char, x: string): string {
    [tag] + ": " + x
  }

  function CardLines(cards: seq<Flashcard>): seq<string> {
    if cards == [] then []
    else [Labelled('Q', cards[0].question), Labelled('A', cards[0].answer)] + CardLines(cards[1..])
  }

  /** The canonical text for a list of cards, one "Q:" line and one "A:" line each. */
  function RenderCards(cards: seq<Flashcard>): string {
    Join(CardLines(cards), '\n')
  }

  lemma LabelledTrimmed(tag: char, x: string)
    requires !IsSpace(tag)
    requires x != [] && Trimmed(x)
    ensures Strip(Labelled(tag, x)) == Labelled(tag, x)
  {
    StripTrimmed(Labelled(tag, x));
  }

  lemma LabelledAfterColon(tag: char, x: string)
    requires tag != ':'
    ensures AfterFirst(Labelled(tag, x), ':') == " " + x
  {
    assert Labelled(tag, x) == [tag] + [':'] + (" " + x);
    AfterFirstOf([tag], ':', " " + x);
  }

  /** The text a labelled line is read as. */
  lemma LabelledText(tag: char, x: string)
    requires tag == 'Q' || tag == 'A'
    requires WellFormedText(x)
    ensures !ClassifyCardLine(Labelled(tag, x)).UnlabelledLine?
    ensures ClassifyCardLine(Labelled(tag, x)).text == x
  {
    assert Labelled(tag, x)[0] == tag;
    LabelledAfterColon(tag, x);
    StripOneSpace(x);
  }

  /** A "Q: x" or "A: x" line is read back as x, with the right label. */
  lemma LabelledClass(tag: char, x: string)
    requires tag == 'Q' || tag == 'A'
    requires WellFormedText(x)
    ensures ClassifyCardLine(Labelled(tag, x)) == if tag == 'Q' then QuestionLine(x) else AnswerLine(x)
  {
    assert Labelled(tag, x)[0] == tag;
    LabelledText(tag, x);
  }

  /** A line that is already stripped and non-blank is absorbed as classified. */
  lemma StrippedStep(s: CardState, line: string)
    requires line != [] && Strip(line) == line
    ensures CardStep(s, line) == Absorb(s, ClassifyCardLine(line))
  {
  }

  /**
    Any line read as a question, whatever its text, even "": the pending
    question becomes that text, and the pair is emitted when both halves are
    non-empty.
   */
  lemma QuestionRead(s: CardState, raw: string, x: string)
    requires ClassifyCardLine(Strip(raw)) == QuestionLine(x)
    ensures CardStep(s, raw) ==
      if x != [] && s.a != [] then CardState([], [], s.cards + [Flashcard(x, s.a)]) else s.(q := x)
  {
  }

  /** Any line read as an answer, whatever its text, even "". */
  lemma AnswerRead(s: CardState, raw: string, y: string)
    requires ClassifyCardLine(Strip(raw)) == AnswerLine(y)
    ensures CardStep(s, raw) ==
      if y != [] && s.q != [] then CardState([], [], s.cards + [Flashcard(s.q, y)]) else s.(a := y)
  {
  }

  /** A bare "Q:" clears the pending question and emits nothing. */
  lemma BareQuestionResets(s: CardState)
    ensures CardStep(s, "Q:") == s.(q := [])
  {
    assert Strip("Q:") == "Q:" by {
      StripTrimmed("Q:");
    }
    assert AfterFirst("Q:", ':') == [] by {
      AfterFirstOf("Q", ':', []);
      assert "Q" + [':'] + [] == "Q:";
    }
    assert Strip([]) == [] by {
      StripTrimmed([]);
    }
    QuestionRead(s, "Q:", []);
  }

  lemma QuestionStep(s: CardState, x: string)
    requires WellFormedText(x)
    ensures CardStep(s, Labelled('Q', x)) == if s.a != [] then CardState([], [], s.cards + [Flashcard(x, s.a)]) else s.(q := x)
  {
    var line := Labelled('Q', x);
    assert Strip(line) == line && ClassifyCardLine(line) == QuestionLine(x) by {
      LabelledTrimmed('Q', x);
      LabelledClass('Q', x);
    }
    StrippedStep(s, line);
  }

  lemma AnswerStep(s: CardState, y: string)
    requires WellFormedText(y)
    ensures CardStep(s, Labelled('A', y)) == if s.q != [] then CardState([], [], s.cards + [Flashcard(s.q, y)]) else s.(a := y)
  {
    var line := Labelled('A', y);
    assert Strip(line) == line && ClassifyCardLine(line) == AnswerLine(y) by {
      LabelledTrimmed('A', y);
      LabelledClass('A', y);
    }
    StrippedStep(s, line);
  }

  lemma {:induction false} CardRunLines(s: CardState, cards: seq<Flashcard>)
    requires s.q == [] && s.a == []
    requires WellFormedCards(cards)
    ensures CardRun(s, CardLines(cards)) == CardState([], [], s.cards + cards)
    decreases |cards|
  {
    if cards == [] {
      assert s.cards + cards == s.cards;
    } else {
      var c := cards[0];
      var rest := CardLines(cards[1..]);
      var s2 := CardState([], [], s.cards + [c]);
      assert CardRun(s, CardLines(cards)) == CardRun(s2, rest) by {
        assert CardLines(cards) == [Labelled('Q', c.question), Labelled('A', c.answer)] + rest;
        PairSteps(s, c, rest);
      }
      assert WellFormedCards(cards[1..]) by {
        forall i | 0 <= i < |cards| - 1
          ensures WellFormedText(cards[1..][i].question) && WellFormedText(cards[1..][i].answer)
        {
          assert cards[1..][i] == cards[i + 1];
        }
      }
      CardRunLines(s2, cards[1..]);
      AppendHead(s.cards, cards);
    }
  }

  /** A "Q:" line followed by an "A:" line emits exactly their card. */
  lemma PairSteps(s: CardState, c: Flashcard, rest: seq<string>)
    requires s.q == [] && s.a == []
    requires WellFormedText(c.question) && WellFormedText(c.answer)
    ensures CardRun(s, [Labelled('Q', c.question), Labelled('A', c.answer)] + rest) == CardRun(CardState([], [], s.cards + [c]), rest)
  {
    var lines := [Labelled('Q', c.question), Labelled('A', c.answer)] + rest;
    var s1 := s.(q := c.question);
    assert CardRun(s, lines) == CardRun(s1, lines[1..]) by {
      assert lines[0] == Labelled('Q', c.question);
      QuestionStep(s, c.question);
    }
    assert CardRun(s1, lines[1..]) == CardRun(CardState([], [], s.cards + [c]), rest) by {
      assert lines[1..][0] == Labelled('A', c.answer);
      assert lines[1..][1..] == rest;
      AnswerStep(s1, c.answer);
    }
  }

  lemma CardLinesShape(cards: seq<Flashcard>)
    requires WellFormedCards(cards)
    ensures |CardLines(cards)| == 2 * |cards|
    ensures forall i :: 0 <= i < |CardLines(cards)| ==> '\n' !in CardLines(cards)[i]
    ensures cards != [] ==> CardLines(cards)[|CardLines(cards)| - 1] == Labelled('A', cards[|cards| - 1].answer)
  {
    if cards != [] {
      CardLinesShape(cards[1..]);
      var c := cards[0];
      forall i | 0 <= i < |CardLines(cards)|
        ensures '\n' !in CardLines(cards)[i]
      {
        if i >= 2 {
          assert CardLines(cards)[i] == CardLines(cards[1..])[i - 2];
        } else {
          assert Labelled('Q', c.question) == Labelled('Q', c.question);
        }
      }
    }
  }

  /**
    Input made only of "Q: x" / "A: y" line pairs gives exactly one card per
    pair, in order, with the text after each colon; empty input gives none.
   */
  lemma {:induction false} FlashcardsRoundTrip(cards: seq<Flashcard>)
    requires WellFormedCards(cards)
    ensures FormatFlashcards(RenderCards(cards)) == cards
  {
    if cards == [] {
      assert RenderCards(cards) == [];
    } else {
      var lines := CardLines(cards);
      CardLinesShape(cards);
      var last := cards[|cards| - 1].answer;
      assert lines[|lines| - 1] == Labelled('A', last);
      assert lines[|lines| - 1][|lines[|lines| - 1]| - 1] == last[|last| - 1];
      assert lines[0] == Labelled('Q', cards[0].question);
      LinesOfJoin(lines);
      CardRunLines(CardStart, cards);
    }
  }

  /**
    After complete pairs, a question left waiting at the end of the input
    never becomes a card.
   */
  lemma TrailingQuestionDropped(cards: seq<Flashcard>, x: string)
    requires WellFormedCards(cards)
    requires WellFormedText(x)
    ensures FormatFlashcards(Join(CardLines(cards) + [Labelled('Q', x)], '\n')) == cards
  {
    TrailingLines(cards, 'Q', x);
    TrailingRun(cards, 'Q', x);
  }

  /**
    After complete pairs, an answer with no question before it is never
    emitted: it only waits as the pending answer.
   */
  lemma TrailingAnswerDropped(cards: seq<Flashcard>, y: string)
    requires WellFormedCards(cards)
    requires WellFormedText(y)
    ensures FormatFlashcards(Join(CardLines(cards) + [Labelled('A', y)], '\n')) == cards
  {
    TrailingLines(cards, 'A', y);
    TrailingRun(cards, 'A', y);
  }

  lemma TrailingRun(cards: seq<Flashcard>, tag: char, x: string)
    requires tag == 'Q' || tag == 'A'
    requires WellFormedCards(cards)
    requires WellFormedText(x)
    ensures CardRun(CardStart, CardLines(cards) + [Labelled(tag, x)]).cards == cards
  {
    var line := Labelled(tag, x);
    var lines := CardLines(cards) + [line];
    var settled := CardState([], [], cards);
    assert CardRun(CardStart, CardLines(cards)) == settled by {
      CardRunLines(CardStart, cards);
      assert [] + cards == cards;
    }
    assert CardRun(CardStart, lines) == CardRun(settled, [line]) by {
      CardRunAppend(CardStart, CardLines(cards), [line]);
    }
    assert CardRun(settled, [line]).cards == cards by {
      var one := [line];
      assert one[0] == line && one[1..] == [];
      if tag == 'Q' {
        QuestionStep(settled, x);
      } else {
        AnswerStep(settled, x);
      }
      assert CardRun(settled, one) == CardRun(CardStep(settled, one[0]), one[1..]);
    }
  }

  lemma TrailingLines(cards: seq<Flashcard>, tag: char, x: string)
    requires tag == 'Q' || tag == 'A'
    requires WellFormedCards(cards)
    requires WellFormedText(x)
    ensures Lines(Join(CardLines(cards) + [Labelled(tag, x)], '\n')) == CardLines(cards) + [Labelled(tag, x)]
  {
    var lines := CardLines(cards) + [Labelled(tag, x)];
    CardLinesShape(cards);
    assert lines[|lines| - 1] == Labelled(tag, x);
    assert lines[0] == if cards == [] then Labelled(tag, x) else Labelled('Q', cards[0].question);
    forall i | 0 <= i < |lines|
      ensures '\n' !in lines[i]
    {
      if i < |CardLines(cards)| {
        assert lines[i] == CardLines(cards)[i];
      }
    }
    LinesOfJoin(lines);
  }

  lemma {:induction false} CardRunAppend(s: CardState, xs: seq<string>, ys: seq<string>)
    ensures CardRun(s, xs + ys) == CardRun(CardRun(s, xs), ys)
    decreases |xs|
  {
    if xs == [] {
      assert xs + ys == ys;
    } else {
      assert (xs + ys)[0] == xs[0] && (xs + ys)[1..] == xs[1..] + ys;
      CardRunAppend(CardStep(s, xs[0]), xs[1..], ys);
    }
  }

  // ---------------------------------------------------------------------------
  // A worked example.

  const ExampleCards := [Flashcard("2+2?", "4"), Flashcard("Sky?", "Blue")]
  const ExampleRaw := "Q: 2+2?\nA: 4\nQ: Sky?\nA: Blue"

  lemma ExampleLabels()
    ensures Labelled('Q', "2+2?") == "Q: 2+2?" && Labelled('A', "4") == "A: 4"
    ensures Labelled('Q', "Sky?") == "Q: Sky?" && Labelled('A', "Blue") == "A: Blue"
  {
  }

  lemma ExampleLines()
    ensures CardLines(ExampleCards) == ["Q: 2+2?", "A: 4", "Q: Sky?", "A: Blue"]
  {
    var second := [Flashcard("Sky?", "Blue")];
    assert ExampleCards[1..] == second;
    assert second[1..] == [];
    ExampleLabels();
    assert CardLines(second) == ["Q: Sky?", "A: Blue"] by {
      assert ["Q: Sky?", "A: Blue"] + [] == ["Q: Sky?", "A: Blue"];
    }
  }

  /** Joining the four lines, one separator at a time. */
  lemma ExampleJoinSteps()
    ensures Join(["Q: 2+2?", "A: 4", "Q: Sky?", "A: Blue"], '\n')
      == "Q: 2+2?" + ['\n'] + ("A: 4" + ['\n'] + ("Q: Sky?" + ['\n'] + "A: Blue"))
  {
    JoinCons("Q: Sky?", ["A: Blue"], '\n');
    JoinCons("A: 4", ["Q: Sky?", "A: Blue"], '\n');
    JoinCons("Q: 2+2?", ["A: 4", "Q: Sky?", "A: Blue"], '\n');
  }

  lemma ExampleRawPieces()
    ensures "Q: 2+2?" + ['\n'] + ("A: 4" + ['\n'] + ("Q: Sky?" + ['\n'] + "A: Blue")) == ExampleRaw
  {
  }

  lemma ExampleWellFormed()
    ensures WellFormedCards(ExampleCards)
  {
    assert WellFormedText("2+2?");
    assert WellFormedText("4");
    assert WellFormedText("Sky?");
    assert WellFormedText("Blue");
  }

  /** Two question/answer pairs give two cards, in order, with the text after each colon. */
  lemma TwoCardsExample()
    ensures FormatFlashcards("Q: 2+2?\nA: 4\nQ: Sky?\nA: Blue") == [Flashcard("2+2?", "4"), Flashcard("Sky?", "Blue")]
  {
    ExampleWellFormed();
    FlashcardsRoundTrip(ExampleCards);
    ExampleLines();
    ExampleJoinSteps();
    ExampleRawPieces();
  }
}
