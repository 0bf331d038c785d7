/** Grading one answer, the counters kept across a quiz (correct answers and
    the consecutive-correct streak, with the streak milestones it announces),
    the percentage score and the letter grade. */
module Grading {

  import opened Wrappers
  import opened JsText
  import opened QuizData

  predicate IsAsciiLetter(c: char) {
    'a' <= c <= 'z' || 'A' <= c <= 'Z'
  }

  /** The 0-based position of a letter in the alphabet, in either case. */
  function LetterPosition(c: char): int
    requires IsAsciiLetter(c)
  {
    if 'a' <= c <= 'z' then c as int - 'a' as int else c as int - 'A' as int
  }

  /** The option index an answer selects: the first code unit of the upper-cased
      answer minus 65 (`A`); `None` for an empty answer, whose code is `NaN`. */
  function AnswerIndex(answer: string): (r: Option<int>)
    ensures r.None? <==> answer == []
    ensures answer != [] && IsAsciiLetter(answer[0]) ==> r == Some(LetterPosition(answer[0]))
  {
    if answer == [] then None else Some(FirstUpperUnit(answer[0]) - 65)
  }

  /** Whether an answer is right. Only its first character counts, letters are
      read in either case (`b` and `B` both pick option 1), an empty answer is
      always wrong, and a right answer to a question with at most 26 options
      starts with a letter. */
  function IsCorrect(answer: string, q: Question): (ok: bool)
    ensures answer == [] ==> !ok
    ensures answer != [] && IsAsciiLetter(answer[0]) ==> (ok <==> q.correct == LetterPosition(answer[0]))
    ensures ok && 0 <= q.correct < 26 ==> IsAsciiLetter(answer[0]) || answer[0] as int >= 128
  {
    AnswerIndex(answer) == Some(q.correct)
  }

  /** The verdicts on a run of answers, question by question. */
  function Results(questions: seq<Question>, answers: seq<string>): (r: seq<bool>)
    requires |answers| == |questions|
    ensures |r| == |questions|
    ensures forall i :: 0 <= i < |r| ==> r[i] == IsCorrect(answers[i], questions[i])
  {
    seq(|questions|, i requires 0 <= i < |questions| => IsCorrect(answers[i], questions[i]))
  }

  predicate AllTrue(r: seq<bool>) {
    forall i :: 0 <= i < |r| ==> r[i]
  }

  predicate NoneTrue(r: seq<bool>) {
    forall i :: 0 <= i < |r| ==> !r[i]
  }

  /** The number of right answers in a run of verdicts. */
  function CountCorrect(r: seq<bool>): (n: nat)
    ensures n <= |r|
    ensures n == |r| <==> AllTrue(r)
    ensures n == 0 <==> NoneTrue(r)
  {
    if r == [] then 0
    else
      var p := r[..|r| - 1];
      assert AllTrue(r) <==> AllTrue(p) && r[|r| - 1];
      assert NoneTrue(r) <==> NoneTrue(p) && !r[|r| - 1];
      CountCorrect(p) + (if r[|r| - 1] then 1 else 0)
  }

  /** The streak after a run of verdicts: how many answers at its end are right
      in a row. Exactly the last `s` verdicts are right, and the one before them,
      if any, is wrong. */
  function StreakAfter(r: seq<bool>): (s: nat)
    ensures s <= |r|
    ensures forall k :: |r| - s <= k < |r| ==> r[k]
    ensures s < |r| ==> !r[|r| - 1 - s]
  {
    if r == [] then 0
    else if r[|r| - 1] then StreakAfter(r[..|r| - 1]) + 1
    else 0
  }

  const Streak5: string := "STREAK_5"
  const Streak10: string := "STREAK_10"

  /** The achievement a streak announces when it reaches a milestone. */
  function Milestone(streak: nat): seq<string> {
    if streak == 5 then [Streak5] else if streak == 10 then [Streak10] else []
  }

  /** The achievement grants a run of verdicts requests, in order: one each
      time the streak reaches 5 and each time it reaches 10; nothing but the
      two streak keys is ever requested. */
  function StreakRequests(r: seq<bool>): (keys: seq<string>)
    ensures forall k :: k in keys ==> k == Streak5 || k == Streak10
  {
    if r == [] then [] else StreakRequests(r[..|r| - 1]) + Milestone(StreakAfter(r))
  }

  /** `n` right answers in a row end just before position `k`. */
  predicate RunEndsAt(r: seq<bool>, k: int, n: nat) {
    n <= k <= |r| && forall j :: k - n <= j < k ==> r[j]
  }

  /** Somewhere in `r` there are `n` right answers in a row. */
  predicate HasRun(r: seq<bool>, n: nat) {
    exists k | 0 <= k <= |r| :: RunEndsAt(r, k, n)
  }

  function StreakKey(n: nat): string {
    if n == 5 then Streak5 else Streak10
  }

  /** A streak milestone is requested during a quiz exactly when the quiz has
      that many right answers in a row somewhere. */
  lemma {:induction false} StreakRequestedIffRun(r: seq<bool>, n: nat)
    requires n == 5 || n == 10
    ensures StreakKey(n) in StreakRequests(r) <==> HasRun(r, n)
  {
    if r == [] {
      assert forall k :: !RunEndsAt(r, k, n);
    } else {
      var p := r[..|r| - 1];
      StreakRequestedIffRun(p, n);
      var s := StreakAfter(r);
      assert StreakRequests(r) == StreakRequests(p) + Milestone(s);
      assert StreakKey(n) in Milestone(s) <==> s == n;
      if HasRun(r, n) {
        var k :| 0 <= k <= |r| && RunEndsAt(r, k, n);
        if k < |r| {
          assert forall j :: k - n <= j < k ==> p[j] == r[j];
          assert RunEndsAt(p, k, n);
        }
      }
      if HasRun(p, n) {
        var k :| 0 <= k <= |p| && RunEndsAt(p, k, n);
        assert forall j :: k - n <= j < k ==> p[j] == r[j];
        assert RunEndsAt(r, k, n);
      }
      if s >= n {
        assert RunEndsAt(r, |r|, n);
      }
      if s > n {
        assert StreakAfter(p) == s - 1;
        assert RunEndsAt(p, |p|, n);
      }
    }
  }

  /** Ten right answers in a row contain five in a row. */
  lemma {:induction false} LongRunContainsShort(r: seq<bool>)
    requires HasRun(r, 10)
    ensures HasRun(r, 5)
  {
    var k :| 0 <= k <= |r| && RunEndsAt(r, k, 10);
    assert forall j :: k - 5 <= j < k ==> r[j];
    assert RunEndsAt(r, k, 5);
  }

  /** Five right answers and then a wrong one request the five-streak
      achievement exactly once and never the ten-streak one. */
  lemma FiveThenMiss()
    ensures StreakRequests([true, true, true, true, true, false]) == [Streak5]
  {
    var r := [true, true, true, true, true, false];
    assert r[..5] == [true, true, true, true, true];
    assert r[..5][..4] == [true, true, true, true];
    assert r[..5][..4][..3] == [true, true, true];
    assert r[..5][..4][..3][..2] == [true, true];
    assert r[..5][..4][..3][..2][..1] == [true];
    assert StreakAfter([true]) == 1;
    assert StreakAfter([true, true]) == 2;
    assert StreakAfter([true, true, true]) == 3;
    assert StreakAfter([true, true, true, true]) == 4;
    assert StreakAfter(r[..5]) == 5;
    assert StreakRequests([true, true, true, true]) == [];
  }

  /** `Math.round((correct / total) * 100)`, computed on exact rationals rather
      than on doubles: the nearest integer percentage, with halves rounded up. */
  function Score(correct: nat, total: nat): (score: nat)
    requires 0 < total && correct <= total
    ensures score <= 100
    ensures (2 * score - 1) * total <= 200 * correct < (2 * score + 1) * total
    ensures correct == total ==> score == 100
    ensures correct == 0 ==> score == 0
  {
    var score := (200 * correct + total) / (2 * total);
    ScoreBounds(correct, total, score);
    score
  }

  /** The exact score and the program's double arithmetic can only disagree
      where 100 * correct / total is an exact half, which the double may land
      just below. At a grade threshold (60, 70, 80, 90) or at 100 such a half
      needs a multiple of 200 questions. */
  lemma HalfBelowThreshold(correct: nat, total: nat, s: nat)
    requires s == 60 || s == 70 || s == 80 || s == 90 || s == 100
    requires 200 * correct == (2 * s - 1) * total
    ensures total % 200 == 0
  {
    // each 2 * s - 1 has an inverse modulo 200: 119 * 79, 139 * 59, 159 * 39,
    // 179 * 19 and 199 * 199 are all 1 more than a multiple of 200
    var k: int;
    if s == 60 {
      k := 79 * correct - 47 * total;
    } else if s == 70 {
      k := 59 * correct - 41 * total;
    } else if s == 80 {
      k := 39 * correct - 31 * total;
    } else if s == 90 {
      k := 19 * correct - 17 * total;
    } else {
      k := 199 * correct - 198 * total;
    }
    assert total == 200 * k;
  }

  lemma ScoreBounds(correct: nat, total: nat, score: nat)
    requires 0 < total && correct <= total
    requires score == (200 * correct + total) / (2 * total)
    ensures score <= 100
    ensures (2 * score - 1) * total <= 200 * correct < (2 * score + 1) * total
    ensures correct == total ==> score == 100
    ensures correct == 0 ==> score == 0
  {
    var a := 200 * correct + total;
    var m := a % (2 * total);
    assert a == score * (2 * total) + m && 0 <= m < 2 * total;
    var st := score * total;
    assert score * (2 * total) == 2 * st;
    assert (2 * score - 1) * total == 2 * st - total;
    assert (2 * score + 1) * total == 2 * st + total;
    // so 2 * st <= a < 2 * st + 2 * total
    if score >= 101 {
      MulMonotone(101, score, total);
    }
    if correct == total && score <= 99 {
      MulMonotone(score, 99, total);
    }
    if correct == 0 && score >= 1 {
      MulMonotone(1, score, total);
    }
  }

  lemma MulMonotone(a: int, b: int, c: nat)
    requires a <= b
    ensures a * c <= b * c
  {
  }

  /** A score is 100 exactly when the wrong answers are at most a two-hundredth
      of the questions: with fewer than 200 questions, exactly when every
      answer is right. */
  lemma PerfectScoreIff(correct: nat, total: nat)
    requires 0 < total && correct <= total
    ensures Score(correct, total) == 100 <==> 200 * (total - correct) <= total
    ensures total < 200 ==> (Score(correct, total) == 100 <==> correct == total)
  {
    var s := Score(correct, total);
    if s <= 99 {
      assert (2 * s + 1) * total <= 199 * total;
    }
  }

  // ------------------------------------------------------------------ grades

  datatype Grade = APlus | A | B | C | F

  function GradeRank(g: Grade): nat {
    match g
    case F => 0
    case C => 1
    case B => 2
    case A => 3
    case APlus => 4
  }

  /** Whether a score is high enough for a grade: A+ from 90, A from 80, B from
      70, C from 60, and F for any score. */
  predicate Earns(g: Grade, score: int) {
    match g
    case APlus => score >= 90
    case A => score >= 80
    case B => score >= 70
    case C => score >= 60
    case F => true
  }

  /** The letter grade of a score: the best grade the score earns. */
  function GradeFor(score: int): (g: Grade)
    ensures Earns(g, score)
    ensures forall h :: GradeRank(h) > GradeRank(g) ==> !Earns(h, score)
  {
    if score >= 90 then APlus
    else if score >= 80 then A
    else if score >= 70 then B
    else if score >= 60 then C
    else F
  }

  /** A higher score never gets a lower grade. */
  lemma GradeMonotone(s1: int, s2: int)
    requires s1 <= s2
    ensures GradeRank(GradeFor(s1)) <= GradeRank(GradeFor(s2))
  {
    var g := GradeFor(s1);
    assert Earns(g, s2);
  }
}
