/**
  Scoring of a submitted quiz, `evaluate_quiz` (main.py): a question scores when
  the selected option equals its correct option, and every question gets
  feedback naming the correct answer when it was missed.
 */
module Grading {
  import opened Optional
  import opened QuizParser
  import opened QuizBlock

  datatype Feedback = Correct | Incorrect(shown: string)

  /** What the submission produces: the score, the number of questions, one feedback each. */
  datatype Report = Report(score: nat, total: nat, feedback: seq<Feedback>)

  /** Shown as the correct answer when a question has none, or an empty one. */
  const Unmarked := "Unknown (not marked)"

  /**
    The value of a question's selection variable: the option the user picked,
    or the empty string when nothing was picked. The user interface is
    abstracted into a map from question number to picked option.
   */
  function Selection(selections: map<nat, string>, q: QuizQuestion): string {
    if q.index in selections then selections[q.index] else ""
  }

  /** `selected == correct`: no string equals a missing correct option. */
  predicate Scores(selected: string, correct: Option<string>) {
    correct == Some(selected)
  }

  /** The feedback for one question (lines 287-292). */
  function Judge(selected: string, correct: Option<string>): (f: Feedback)
    ensures f.Correct? <==> Scores(selected, correct)
    ensures correct.None? ==> f == Incorrect(Unmarked)
    ensures f.Incorrect? && correct.Some? && correct.value != [] ==> f.shown == correct.value
    ensures f.Incorrect? && (correct.None? || correct.value == []) ==> f.shown == Unmarked
    ensures f.Incorrect? ==> f.shown != []
  {
    if Scores(selected, correct) then Correct
    else Incorrect(if correct.Some? && correct.value != [] then correct.value else Unmarked)
  }

  /** Reference count: how many of the questions score under the selections. */
  function CountScored(questions: seq<QuizQuestion>, selections: map<nat, string>): nat {
    if questions == [] then 0
    else
      var last := questions[|questions| - 1];
      CountScored(questions[..|questions| - 1], selections)
        + (if Scores(Selection(selections, last), last.correct) then 1 else 0)
  }

  /** Every question scores under the selections. */
  predicate AllScore(questions: seq<QuizQuestion>, selections: map<nat, string>) {
    forall i :: 0 <= i < |questions| ==> Scores(Selection(selections, questions[i]), questions[i].correct)
  }

  /** No count exceeds the number of questions, and it reaches it exactly when every question scores. */
  lemma {:induction false} CountScoredBounds(questions: seq<QuizQuestion>, selections: map<nat, string>)
    ensures CountScored(questions, selections) <= |questions|
    ensures CountScored(questions, selections) == |questions| <==> AllScore(questions, selections)
    ensures CountScored(questions, selections) == 0 <==>
      forall i :: 0 <= i < |questions| ==> !Scores(Selection(selections, questions[i]), questions[i].correct)
  {
    if questions != [] {
      var n := |questions| - 1;
      var init := questions[..n];
      CountScoredBounds(init, selections);
      assert forall i :: 0 <= i < n ==> init[i] == questions[i];
    }
  }

  /** Counting one more question of a prefix adds one exactly when that question scores. */
  lemma CountScoredPrefix(questions: seq<QuizQuestion>, i: nat, selections: map<nat, string>)
    requires i < |questions|
    ensures CountScored(questions[..i + 1], selections)
      == CountScored(questions[..i], selections) + if Scores(Selection(selections, questions[i]), questions[i].correct) then 1 else 0
  {
    assert questions[..i + 1][..i] == questions[..i];
  }

  /** The feedback for every question, in order. */
  function JudgeEach(questions: seq<QuizQuestion>, selections: map<nat, string>): (fs: seq<Feedback>)
    ensures |fs| == |questions|
    ensures forall i :: 0 <= i < |questions| ==> fs[i] == Judge(Selection(selections, questions[i]), questions[i].correct)
  {
    seq(|questions|, i requires 0 <= i < |questions| => Judge(Selection(selections, questions[i]), questions[i].correct))
  }

  lemma JudgeEachPrefix(questions: seq<QuizQuestion>, i: nat, selections: map<nat, string>)
    requires i < |questions|
    ensures JudgeEach(questions[..i + 1], selections)
      == JudgeEach(questions[..i], selections) + [Judge(Selection(selections, questions[i]), questions[i].correct)]
  {
  }

  /** Full marks exactly when every question's feedback says it is correct. */
  lemma FullMarks(questions: seq<QuizQuestion>, selections: map<nat, string>, feedback: seq<Feedback>)
    requires |feedback| == |questions|
    requires forall i :: 0 <= i < |questions| ==> feedback[i] == Judge(Selection(selections, questions[i]), questions[i].correct)
    ensures CountScored(questions, selections) <= |questions|
    ensures CountScored(questions, selections) == |questions| <==> forall i :: 0 <= i < |questions| ==> feedback[i].Correct?
  {
    CountScoredBounds(questions, selections);
  }

  /**
    `evaluate_quiz` over the questions of the last formatted quiz (lines
    276-294): one pass that counts the scoring questions and judges each.
   */
  method EvaluateQuiz(questions: seq<QuizQuestion>, selections: map<nat, string>) returns (report: Report)
    ensures report.total == |questions| && |report.feedback| == |questions|
    ensures report.score == CountScored(questions, selections)
    ensures report.score <= report.total
    ensures forall i :: 0 <= i < |questions| ==>
      report.feedback[i] == Judge(Selection(selections, questions[i]), questions[i].correct)
    ensures report.score == report.total <==> forall i :: 0 <= i < |questions| ==> report.feedback[i].Correct?
  {
    var score := 0;
    var feedback: seq<Feedback> := [];
    var i := 0;
    while i < |questions|
      invariant 0 <= i <= |questions|
      invariant |feedback| == i
      invariant feedback == JudgeEach(questions[..i], selections)
      invariant score == CountScored(questions[..i], selections)
    {
      var q := questions[i];
      var selected := Selection(selections, q);
      CountScoredPrefix(questions, i, selections);
      if Scores(selected, q.correct) {
        score := score + 1;
      }
      JudgeEachPrefix(questions, i, selections);
      feedback := feedback + [Judge(selected, q.correct)];
      i := i + 1;
    }
    assert questions[..i] == questions;
    assert feedback == JudgeEach(questions, selections);
    FullMarks(questions, selections, feedback);
    report := Report(score, |questions|, feedback);
  }

  /** The answer key of a quiz: each question's correct option, under its position counted from 1. */
  function AnswerKey(questions: seq<QuizQuestion>): (key: map<nat, string>)
    ensures forall i :: 0 <= i < |questions| ==> (i + 1 in key <==> questions[i].correct.Some?)
    ensures forall i :: 0 <= i < |questions| && i + 1 in key ==> key[i + 1] == questions[i].correct.value
    ensures forall n :: n in key ==> 1 <= n <= |questions|
  {
    if questions == [] then map[]
    else
      var n := |questions|;
      var last := questions[n - 1];
      var key := AnswerKey(questions[..n - 1]);
      if last.correct.Some? then key[n := last.correct.value] else key
  }

  /** Under the answer key, every numbered question that has a correct option scores. */
  lemma {:induction false} KeyScoresAll(questions: seq<QuizQuestion>)
    requires forall i :: 0 <= i < |questions| ==> questions[i].index == i + 1 && questions[i].correct.Some?
    ensures CountScored(questions, AnswerKey(questions)) == |questions|
  {
    var key := AnswerKey(questions);
    forall i | 0 <= i < |questions|
      ensures Scores(Selection(key, questions[i]), questions[i].correct)
    {
      assert questions[i].index == i + 1;
    }
    CountScoredBounds(questions, key);
  }

  /**
    Selecting the marked answer of every question of a formatted quiz gives
    full marks, provided every question has options.
   */
  lemma AnswerKeyScoresAll(raw: string)
    requires forall i :: 0 <= i < |FormatQuiz(raw)| ==> FormatQuiz(raw)[i].options != []
    ensures CountScored(FormatQuiz(raw), AnswerKey(FormatQuiz(raw))) == |FormatQuiz(raw)|
  {
    KeyScoresAll(FormatQuiz(raw));
  }

  /** Submitting a formatted quiz without picking anything scores nothing. */
  lemma NothingSelectedScoresNothing(raw: string)
    ensures CountScored(FormatQuiz(raw), map[]) == 0
  {
    var qs := FormatQuiz(raw);
    forall i | 0 <= i < |qs|
      ensures !Scores(Selection(map[], qs[i]), qs[i].correct)
    {
    }
    CountScoredBounds(qs, map[]);
  }
}
