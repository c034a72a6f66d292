/** The three record shapes of the survey application (survey/models.py):
    a question, a numeric answer to it and a like/dislike feedback on it. */
module Models {

  /** Primary key of a question. */
  type QuestionId = nat

  /** Primary key of a user of the authentication system. */
  type UserId = nat

  /** A calendar day, counted from an arbitrary epoch. */
  type Date = int

  /** Maximum length of a question title (a CharField of max_length 200). */
  const MAX_TITLE_LENGTH: nat := 200

  /** A question. `created` is set to the day of creation; `ranking` is the
      cached score, 0 until the ranking calculator first stores one. */
  datatype Question = Question(
    pk: QuestionId,
    created: Date,
    author: UserId,
    title: string,
    description: string,
    ranking: int)

  /** A numeric answer of `author` to the question `question`. */
  datatype Answer = Answer(
    question: QuestionId,
    author: UserId,
    value: nat,
    comment: string)

  /** A feedback of `author` on the question `question`; the vote handler
      writes "like", "dislike" or "other", the field itself takes any text. */
  datatype QuestionFeedback = QuestionFeedback(
    question: QuestionId,
    author: UserId,
    value: string)

  /** The answer values with their labels, in the order they are declared. */
  const ANSWER_VALUES: seq<(nat, string)> := [
    (0, "Sin Responder"),
    (1, "Muy Bajo"),
    (2, "Bajo"),
    (3, "Regular"),
    (4, "Alto"),
    (5, "Muy Alto")
  ]

  predicate IsAnswerChoice(v: int) {
    exists i :: 0 <= i < |ANSWER_VALUES| && ANSWER_VALUES[i].0 == v
  }

  /** The declared answer values are exactly 0 through 5. */
  lemma AnswerChoicesAreZeroToFive(v: int)
    ensures IsAnswerChoice(v) <==> 0 <= v <= 5
  {
    if 0 <= v <= 5 {
      assert ANSWER_VALUES[v].0 == v;
    }
  }

  /** A question fits its table when its title fits the CharField. */
  predicate WellFormedQuestion(q: Question) {
    |q.title| <= MAX_TITLE_LENGTH
  }

  /** A question as the creation form stores it: ranking takes its default. */
  function NewQuestion(pk: QuestionId, created: Date, author: UserId, title: string, description: string): (q: Question)
    ensures q.ranking == 0
    ensures WellFormedQuestion(q) <==> |title| <= MAX_TITLE_LENGTH
    ensures q.pk == pk && q.created == created && q.author == author
    ensures q.title == title && q.description == description
  {
    Question(pk, created, author, title, description, 0)
  }

  /** An answer built with only its question and author: value and comment
      take their defaults, and the default value is the "Sin Responder" choice. */
  function NewAnswer(question: QuestionId, author: UserId): (a: Answer)
    ensures a.question == question && a.author == author
    ensures IsAnswerChoice(a.value) && ANSWER_VALUES[a.value].1 == "Sin Responder"
    ensures a.comment == ""
  {
    assert ANSWER_VALUES[0].0 == 0;
    Answer(question, author, 0, "")
  }

  /** A feedback built with only its question and author: its value is the
      empty text, which is neither a like nor a dislike. */
  function NewFeedback(question: QuestionId, author: UserId): (f: QuestionFeedback)
    ensures f.question == question && f.author == author
    ensures f.value != "like" && f.value != "dislike" && |f.value| == 0
  {
    QuestionFeedback(question, author, "")
  }
}
