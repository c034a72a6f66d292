/** The ranking calculator (QuestionManager in survey/views.py): the score of
    a question, the stored re-ranking of every question, the top-n ordering
    and the serialization of questions into records for the list page. */
module Ranking {
  import opened Results
  import opened Models

  const ANSWER_POINTS: int := 10
  const LIKE_POINTS: int := 5
  const DISLIKE_POINTS: int := 3
  const TODAY_BONUS: int := 10

  /** An answer scores for question `pk` when its value lies in 1..5. */
  predicate IsCountedAnswer(a: Answer, pk: QuestionId) {
    a.question == pk && 1 <= a.value <= 5
  }

  predicate IsFeedbackOf(f: QuestionFeedback, pk: QuestionId, value: string) {
    f.question == pk && f.value == value
  }

  /** The number of answers to `pk` with a value in 1..5. */
  function CountAnswers(answers: seq<Answer>, pk: QuestionId): nat
    decreases |answers|
  {
    if |answers| == 0 then 0
    else CountAnswers(answers[..|answers| - 1], pk)
         + (if IsCountedAnswer(answers[|answers| - 1], pk) then 1 else 0)
  }

  /** The number of feedback records on `pk` whose value is `value`. */
  function CountFeedback(feedback: seq<QuestionFeedback>, pk: QuestionId, value: string): nat
    decreases |feedback|
  {
    if |feedback| == 0 then 0
    else CountFeedback(feedback[..|feedback| - 1], pk, value)
         + (if IsFeedbackOf(feedback[|feedback| - 1], pk, value) then 1 else 0)
  }

  /** The score of question `q` given every stored answer and feedback and
      the current day. It may be negative. */
  function CalculateRanking(q: Question, answers: seq<Answer>, feedback: seq<QuestionFeedback>, today: Date): int {
    ANSWER_POINTS * CountAnswers(answers, q.pk)
    + LIKE_POINTS * CountFeedback(feedback, q.pk, "like")
    - DISLIKE_POINTS * CountFeedback(feedback, q.pk, "dislike")
    + (if q.created == today then TODAY_BONUS else 0)
  }

  /** The count is the size of the filtered table:
      `Answer.objects.filter(question=q, value__range=(1, 5)).count()`. */
  lemma {:induction false} CountAnswersIsFilterSize(answers: seq<Answer>, pk: QuestionId)
    ensures CountAnswers(answers, pk)
         == |set i | 0 <= i < |answers| && IsCountedAnswer(answers[i], pk)|
    decreases |answers|
  {
    if |answers| > 0 {
      var n := |answers| - 1;
      var p := answers[..n];
      CountAnswersIsFilterSize(p, pk);
      var small := set i | 0 <= i < |p| && IsCountedAnswer(p[i], pk);
      var all := set i | 0 <= i < |answers| && IsCountedAnswer(answers[i], pk);
      if IsCountedAnswer(answers[n], pk) {
        assert all == small + {n};
      } else {
        assert all == small;
      }
    }
  }

  /** The count is the size of the filtered table:
      `QuestionFeedback.objects.filter(question=q, value=v).count()`. */
  lemma {:induction false} CountFeedbackIsFilterSize(feedback: seq<QuestionFeedback>, pk: QuestionId, value: string)
    ensures CountFeedback(feedback, pk, value)
         == |set i | 0 <= i < |feedback| && IsFeedbackOf(feedback[i], pk, value)|
    decreases |feedback|
  {
    if |feedback| > 0 {
      var n := |feedback| - 1;
      var p := feedback[..n];
      CountFeedbackIsFilterSize(p, pk, value);
      var small := set i | 0 <= i < |p| && IsFeedbackOf(p[i], pk, value);
      var all := set i | 0 <= i < |feedback| && IsFeedbackOf(feedback[i], pk, value);
      if IsFeedbackOf(feedback[n], pk, value) {
        assert all == small + {n};
      } else {
        assert all == small;
      }
    }
  }

  /** What an answer of value `value` contributes to its question's ranking. */
  function AnswerValuePoints(value: nat): int {
    if 1 <= value <= 5 then ANSWER_POINTS else 0
  }

  /** What a feedback of value `value` contributes to its question's ranking. */
  function FeedbackValuePoints(value: string): int {
    if value == "like" then LIKE_POINTS
    else if value == "dislike" then -DISLIKE_POINTS
    else 0
  }

  /** What one answer record contributes to the ranking of `pk`. */
  function AnswerPoints(a: Answer, pk: QuestionId): int {
    if a.question == pk then AnswerValuePoints(a.value) else 0
  }

  /** What one feedback record contributes to the ranking of `pk`. */
  function FeedbackPoints(f: QuestionFeedback, pk: QuestionId): int {
    if f.question == pk then FeedbackValuePoints(f.value) else 0
  }

  /** A new answer adds 10 points to its own question when its value is in
      1..5, and nothing otherwise. */
  lemma RankingAddAnswer(q: Question, answers: seq<Answer>, a: Answer, feedback: seq<QuestionFeedback>, today: Date)
    ensures CalculateRanking(q, answers + [a], feedback, today)
         == CalculateRanking(q, answers, feedback, today) + AnswerPoints(a, q.pk)
  {
    assert (answers + [a])[..|answers|] == answers;
  }

  /** A new feedback adds 5 points to its own question when it is a like,
      takes 3 when it is a dislike, and changes nothing otherwise. */
  lemma RankingAddFeedback(q: Question, answers: seq<Answer>, feedback: seq<QuestionFeedback>, f: QuestionFeedback, today: Date)
    ensures CalculateRanking(q, answers, feedback + [f], today)
         == CalculateRanking(q, answers, feedback, today)
            + FeedbackPoints(f, q.pk)
  {
    assert (feedback + [f])[..|feedback|] == feedback;
  }

  lemma {:induction false} CountAnswersUpdate(answers: seq<Answer>, i: nat, a: Answer, pk: QuestionId)
    requires i < |answers|
    ensures CountAnswers(answers[i := a], pk) + (if IsCountedAnswer(answers[i], pk) then 1 else 0)
         == CountAnswers(answers, pk) + (if IsCountedAnswer(a, pk) then 1 else 0)
    decreases |answers|
  {
    var n := |answers|;
    if i < n - 1 {
      assert answers[i := a][..n - 1] == answers[..n - 1][i := a];
      CountAnswersUpdate(answers[..n - 1], i, a, pk);
    } else {
      assert answers[i := a][..n - 1] == answers[..n - 1];
    }
  }

  lemma {:induction false} CountFeedbackUpdate(feedback: seq<QuestionFeedback>, i: nat, f: QuestionFeedback, pk: QuestionId, value: string)
    requires i < |feedback|
    ensures CountFeedback(feedback[i := f], pk, value) + (if IsFeedbackOf(feedback[i], pk, value) then 1 else 0)
         == CountFeedback(feedback, pk, value) + (if IsFeedbackOf(f, pk, value) then 1 else 0)
    decreases |feedback|
  {
    var n := |feedback|;
    if i < n - 1 {
      assert feedback[i := f][..n - 1] == feedback[..n - 1][i := f];
      CountFeedbackUpdate(feedback[..n - 1], i, f, pk, value);
    } else {
      assert feedback[i := f][..n - 1] == feedback[..n - 1];
    }
  }

  /** Overwriting one answer moves the ranking by the difference of what the
      old and the new record score. */
  lemma RankingOverwriteAnswer(q: Question, answers: seq<Answer>, i: nat, a: Answer, feedback: seq<QuestionFeedback>, today: Date)
    requires i < |answers|
    ensures CalculateRanking(q, answers[i := a], feedback, today)
         == CalculateRanking(q, answers, feedback, today)
            + AnswerPoints(a, q.pk) - AnswerPoints(answers[i], q.pk)
  {
    CountAnswersUpdate(answers, i, a, q.pk);
  }

  /** Overwriting one feedback moves the ranking by the difference of what
      the old and the new record score. */
  lemma RankingOverwriteFeedback(q: Question, answers: seq<Answer>, feedback: seq<QuestionFeedback>, i: nat, f: QuestionFeedback, today: Date)
    requires i < |feedback|
    ensures CalculateRanking(q, answers, feedback[i := f], today)
         == CalculateRanking(q, answers, feedback, today)
            + FeedbackPoints(f, q.pk) - FeedbackPoints(feedback[i], q.pk)
  {
    CountFeedbackUpdate(feedback, i, f, q.pk, "like");
    CountFeedbackUpdate(feedback, i, f, q.pk, "dislike");
  }

  lemma {:induction false} CountsWithoutVotes(q: Question, answers: seq<Answer>, feedback: seq<QuestionFeedback>)
    requires forall i :: 0 <= i < |answers| ==> answers[i].question != q.pk
    requires forall i :: 0 <= i < |feedback| ==> feedback[i].question != q.pk
    ensures CountAnswers(answers, q.pk) == 0
    ensures CountFeedback(feedback, q.pk, "like") == 0 && CountFeedback(feedback, q.pk, "dislike") == 0
    decreases |answers| + |feedback|
  {
    if |answers| > 0 {
      CountsWithoutVotes(q, answers[..|answers| - 1], feedback);
    } else if |feedback| > 0 {
      CountsWithoutVotes(q, answers, feedback[..|feedback| - 1]);
    }
  }

  /** A question nobody voted on scores 10 on the day it was created and 0
      on any other day. */
  lemma RankingWithoutVotes(q: Question, answers: seq<Answer>, feedback: seq<QuestionFeedback>, today: Date)
    requires forall i :: 0 <= i < |answers| ==> answers[i].question != q.pk
    requires forall i :: 0 <= i < |feedback| ==> feedback[i].question != q.pk
    ensures CalculateRanking(q, answers, feedback, today) == if q.created == today then TODAY_BONUS else 0
  {
    CountsWithoutVotes(q, answers, feedback);
  }

  /** Records built with their defaults score nothing: an answer of value 0
      and a feedback of empty text leave every ranking as it was. */
  lemma DefaultVotesScoreNothing(q: Question, answers: seq<Answer>, feedback: seq<QuestionFeedback>,
                                 pk: QuestionId, author: UserId, today: Date)
    ensures CalculateRanking(q, answers + [NewAnswer(pk, author)], feedback, today)
         == CalculateRanking(q, answers, feedback, today)
    ensures CalculateRanking(q, answers, feedback + [NewFeedback(pk, author)], today)
         == CalculateRanking(q, answers, feedback, today)
  {
    RankingAddAnswer(q, answers, NewAnswer(pk, author), feedback, today);
    RankingAddFeedback(q, answers, feedback, NewFeedback(pk, author), today);
  }

  /** Every question with its stored ranking replaced by the calculated one
      (the loop of `get_ranked_questions` that assigns and saves each ranking). */
  function Rerank(qs: seq<Question>, answers: seq<Answer>, feedback: seq<QuestionFeedback>, today: Date): (r: seq<Question>)
    ensures |r| == |qs|
    ensures forall i :: 0 <= i < |r| ==> r[i].ranking == CalculateRanking(r[i], answers, feedback, today)
    ensures forall i :: 0 <= i < |r| ==> r[i].(ranking := qs[i].ranking) == qs[i]
  {
    seq(|qs|, i requires 0 <= i < |qs| => qs[i].(ranking := CalculateRanking(qs[i], answers, feedback, today)))
  }

  predicate SortedByRanking(s: seq<Question>) {
    forall i, j :: 0 <= i < j < |s| ==> s[i].ranking >= s[j].ranking
  }

  function Insert(q: Question, s: seq<Question>): (r: seq<Question>)
    ensures multiset(r) == multiset(s) + multiset{q}
    decreases |s|
  {
    if |s| == 0 then [q]
    else if q.ranking >= s[0].ranking then [q] + s
    else
      assert s == [s[0]] + s[1..];
      [s[0]] + Insert(q, s[1..])
  }

  /** Every ranking in `Insert(q, s)` is bounded by a bound on `q` and on `s`. */
  lemma {:induction false} InsertBounded(q: Question, s: seq<Question>, bound: int)
    requires q.ranking <= bound
    requires forall j :: 0 <= j < |s| ==> s[j].ranking <= bound
    ensures forall j :: 0 <= j < |Insert(q, s)| ==> Insert(q, s)[j].ranking <= bound
    decreases |s|
  {
    if |s| > 0 && q.ranking < s[0].ranking {
      InsertBounded(q, s[1..], bound);
    }
  }

  /** Inserting into a ranking-ordered sequence keeps it ordered. */
  lemma {:induction false} InsertSorted(q: Question, s: seq<Question>)
    requires SortedByRanking(s)
    ensures SortedByRanking(Insert(q, s))
    decreases |s|
  {
    if |s| > 0 && q.ranking < s[0].ranking {
      var tail := s[1..];
      InsertSorted(q, tail);
      InsertBounded(q, tail, s[0].ranking);
    }
  }

  /** `order_by("-ranking")`: the questions in non-increasing ranking order.
      The order among equal rankings is not part of the contract. */
  function OrderByRanking(s: seq<Question>): (r: seq<Question>)
    ensures multiset(r) == multiset(s)
    ensures SortedByRanking(r)
    decreases |s|
  {
    if |s| == 0 then []
    else
      assert s == [s[0]] + s[1..];
      InsertSorted(s[0], OrderByRanking(s[1..]));
      Insert(s[0], OrderByRanking(s[1..]))
  }

  function Min(a: nat, b: nat): nat {
    if a <= b then a else b
  }

  /** `order_by("-ranking")[:n]`: the `n` best ranked questions, best first. */
  function TopRanked(qs: seq<Question>, n: nat): (r: seq<Question>)
    ensures |r| == Min(n, |qs|)
    ensures multiset(r) <= multiset(qs)
    ensures SortedByRanking(r)
    ensures forall x, y :: x in r && y in multiset(qs) - multiset(r) ==> y.ranking <= x.ranking
  {
    var sorted := OrderByRanking(qs);
    var m := Min(n, |qs|);
    TopSplit(sorted, m);
    sorted[..m]
  }

  /** Cutting an ordered sequence at `m` leaves in the tail only questions
      ranked no higher than any question of the head. */
  lemma TopSplit(sorted: seq<Question>, m: nat)
    requires SortedByRanking(sorted) && m <= |sorted|
    ensures multiset(sorted[..m]) <= multiset(sorted)
    ensures multiset(sorted) - multiset(sorted[..m]) == multiset(sorted[m..])
    ensures forall x, y :: x in sorted[..m] && y in multiset(sorted) - multiset(sorted[..m]) ==> y.ranking <= x.ranking
  {
    var head, rest := sorted[..m], sorted[m..];
    assert sorted == head + rest;
    assert multiset(sorted) == multiset(head) + multiset(rest);
    forall x: Question, y: Question | x in head && y in multiset(rest)
      ensures y.ranking <= x.ranking
    {
      var i :| 0 <= i < m && head[i] == x;
      var j :| 0 <= j < |rest| && rest[j] == y;
      assert sorted[i] == x && sorted[m + j] == y;
    }
  }

  /** The returned questions are all drawn from the full set. */
  lemma TopRankedDrawnFromAll(qs: seq<Question>, n: nat)
    ensures forall x :: x in TopRanked(qs, n) ==> x in qs
  {
    var r := TopRanked(qs, n);
    forall x | x in r ensures x in qs {
      assert x in multiset(r);
    }
  }

  /** A question as a record of the list page. `answer`, `like` and
      `dislike` stand for keys the list view may add for a signed-in user:
      `None` and `false` mean the key is absent (the view only ever stores
      `True` under `like` and `dislike`). */
  datatype QuestionRecord = QuestionRecord(
    pk: QuestionId,
    title: string,
    author: UserId,
    ranking: int,
    answer: Option<nat>,
    like: bool,
    dislike: bool)

  /** `get_serialized_questions`: one record per question, in order, with
      `pk`, `title`, `author` and `ranking` copied and no other key. */
  function Serialize(qs: seq<Question>): (r: seq<QuestionRecord>)
    ensures |r| == |qs|
    ensures forall i :: 0 <= i < |qs| ==>
      r[i].pk == qs[i].pk && r[i].title == qs[i].title &&
      r[i].author == qs[i].author && r[i].ranking == qs[i].ranking
    ensures forall i :: 0 <= i < |qs| ==> r[i].answer.None? && !r[i].like && !r[i].dislike
    decreases |qs|
  {
    if |qs| == 0 then []
    else [QuestionRecord(qs[0].pk, qs[0].title, qs[0].author, qs[0].ranking, None, false, false)]
         + Serialize(qs[1..])
  }

  /** The records of the top-n questions list their rankings best first. */
  lemma SerializedTopIsOrdered(qs: seq<Question>, n: nat)
    ensures forall i, j :: 0 <= i < j < Min(n, |qs|) ==>
      Serialize(TopRanked(qs, n))[i].ranking >= Serialize(TopRanked(qs, n))[j].ranking
  {
  }

  /** The store of the ranking example: three questions created on `today`
      by users 1, 2 and 3. Question 1 has answers of value 4 and 1, one like
      and one dislike; question 3 has one dislike; question 2 has nothing. */
  function ExampleQuestion(pk: QuestionId, today: Date): Question {
    Question(pk, today, pk, "Question", "Description", 0)
  }

  const EXAMPLE_ANSWERS: seq<Answer> := [Answer(1, 2, 4, ""), Answer(1, 3, 1, "")]

  const EXAMPLE_FEEDBACK: seq<QuestionFeedback> :=
    [QuestionFeedback(1, 2, "like"), QuestionFeedback(1, 3, "dislike"), QuestionFeedback(3, 1, "dislike")]

  /** In the example store the three questions rank 32, 10 and 7. */
  lemma RankingExampleScores(today: Date)
    ensures CalculateRanking(ExampleQuestion(1, today), EXAMPLE_ANSWERS, EXAMPLE_FEEDBACK, today) == 32
    ensures CalculateRanking(ExampleQuestion(2, today), EXAMPLE_ANSWERS, EXAMPLE_FEEDBACK, today) == 10
    ensures CalculateRanking(ExampleQuestion(3, today), EXAMPLE_ANSWERS, EXAMPLE_FEEDBACK, today) == 7
  {
    var answers, feedback := EXAMPLE_ANSWERS, EXAMPLE_FEEDBACK;
    assert answers[..1] == [Answer(1, 2, 4, "")];
    assert answers[..1][..0] == [];
    var f2 := feedback[..2];
    var f1 := f2[..1];
    assert f2 == [QuestionFeedback(1, 2, "like"), QuestionFeedback(1, 3, "dislike")];
    assert f1 == [QuestionFeedback(1, 2, "like")];
    assert f1[..0] == [];
    assert CountFeedback(f1, 1, "like") == 1 && CountFeedback(f1, 1, "dislike") == 0;
    assert CountFeedback(f1, 2, "like") == 0 && CountFeedback(f1, 2, "dislike") == 0;
    assert CountFeedback(f1, 3, "like") == 0 && CountFeedback(f1, 3, "dislike") == 0;
    assert CountFeedback(f2, 1, "like") == 1 && CountFeedback(f2, 1, "dislike") == 1;
    assert CountFeedback(f2, 2, "like") == 0 && CountFeedback(f2, 2, "dislike") == 0;
    assert CountFeedback(f2, 3, "like") == 0 && CountFeedback(f2, 3, "dislike") == 0;
    assert CountAnswers(answers, 1) == 2 && CountAnswers(answers, 2) == 0 && CountAnswers(answers, 3) == 0;
    assert CountFeedback(feedback, 1, "like") == 1 && CountFeedback(feedback, 1, "dislike") == 1;
    assert CountFeedback(feedback, 2, "like") == 0 && CountFeedback(feedback, 2, "dislike") == 0;
    assert CountFeedback(feedback, 3, "like") == 0 && CountFeedback(feedback, 3, "dislike") == 1;
  }

  /** Re-ranking the example store listed as question 3, 2, 1 and taking the
      top three gives question 1, question 2, question 3. */
  lemma RankingExampleOrder(today: Date)
    ensures TopRanked(Rerank([ExampleQuestion(3, today), ExampleQuestion(2, today), ExampleQuestion(1, today)],
                             EXAMPLE_ANSWERS, EXAMPLE_FEEDBACK, today), 3)
         == [ExampleQuestion(1, today).(ranking := 32), ExampleQuestion(2, today).(ranking := 10),
             ExampleQuestion(3, today).(ranking := 7)]
  {
    RankingExampleScores(today);
    var q1, q2, q3 := ExampleQuestion(1, today), ExampleQuestion(2, today), ExampleQuestion(3, today);
    var ranked := Rerank([q3, q2, q1], EXAMPLE_ANSWERS, EXAMPLE_FEEDBACK, today);
    var r1, r2, r3 := q1.(ranking := 32), q2.(ranking := 10), q3.(ranking := 7);
    assert ranked == [r3, r2, r1];
    assert ranked[1..][1..] == [r1];
    assert OrderByRanking([r1]) == [r1] by {
      assert [r1][1..] == [];
    }
    assert Insert(r2, [r1]) == [r1, r2] by {
      assert [r1][1..] == [];
    }
    assert OrderByRanking(ranked[1..]) == [r1, r2];
    assert Insert(r3, [r1, r2]) == [r1, r2, r3] by {
      assert [r1, r2][1..] == [r2];
      assert Insert(r3, [r2]) == [r2, r3] by {
        assert [r2][1..] == [];
      }
    }
    assert OrderByRanking(ranked) == [r1, r2, r3];
    assert Min(3, |ranked|) == 3;
  }

  /** A question with only a dislike, created on another day, ranks -3:
      the score can fall below zero although the ranking column is declared
      as a positive integer field. */
  lemma NegativeRankingExample(today: Date)
    ensures CalculateRanking(Question(1, today - 1, 1, "Question", "", 0), [],
                             [QuestionFeedback(1, 2, "dislike")], today) == -3
  {
  }
}
