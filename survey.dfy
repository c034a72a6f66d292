/** The views of the survey application (survey/views.py): the two vote
    handlers `answer_question` and `like_dislike_question`, the per-user
    annotation of the question list, and the question, answer and feedback
    tables they read and write, held by the class `Database`. */
module Survey {
  import opened Results
  import opened Models
  import opened Digits
  import opened Votes
  import opened Ranking

  /** How many questions the list page shows. */
  const LIST_SIZE: nat := 20

  const HOME: string := "/"
  const INCOMPLETE_DATA: string := "Datos incompletos"
  const NOT_A_DIGIT: string := "El valor no es digito: "
  const INVALID_VALUE: string := "Valor invalido: "
  const OWN_QUESTION_ANSWER: string := "No se puede votar tu propia pregunta"
  const OWN_QUESTION_FEEDBACK: string := "No puedes votar tu propia pregunta"

  /** An HTTP request as the handlers see it: its method, the signed-in user
      (`None` for an anonymous visitor) and its form fields. */
  datatype Request = Request(httpMethod: string, user: Option<UserId>, post: map<string, string>)

  datatype Response =
    | Redirect(url: string)      // success: redirect to the home page
    | LoginRedirect              // anonymous visitor: 302 to the login page
    | MethodNotAllowed           // anything but POST: 405
    | JsonError(error: string)   // {"ok": false, "error": error}
    | LookupFailed               // {"ok": false, "error": <text of the lookup exception>}

  /** A vote that passed every check of its handler. */
  datatype Vote<V> = Vote(question: Question, author: UserId, value: V)

  /** `request.POST.get(name)`, with a missing field read as the empty text:
      the handlers treat both the same way. */
  function PostField(req: Request, name: string): string {
    if name in req.post then req.post[name] else ""
  }

  /** The first question whose primary key is `pk`. */
  function FindQuestion(questions: seq<Question>, pk: QuestionId): (r: Option<Question>)
    ensures r.Some? ==> r.value in questions && r.value.pk == pk
    ensures r.None? ==> forall i :: 0 <= i < |questions| ==> questions[i].pk != pk
  {
    if |questions| == 0 then None
    else if questions[0].pk == pk then Some(questions[0])
    else FindQuestion(questions[1..], pk)
  }

  /** `Question.objects.filter(pk=text)[0]`: a key that is not a number, like
      a key that matches nothing, makes the lookup fail. */
  function LookupQuestion(questions: seq<Question>, pkText: string): Option<Question> {
    if IsDigits(pkText) then FindQuestion(questions, DigitsValue(pkText)) else None
  }

  /** The decorators and checks of `answer_question`, in their order; the
      first one that fails decides the response. */
  function CheckAnswer(req: Request, questions: seq<Question>): (r: Result<Vote<nat>, Response>)
    ensures r.Ok? ==> req.httpMethod == "POST" && req.user == Some(r.value.author)
    ensures r.Ok? ==> r.value.question in questions && r.value.question.author != r.value.author
    ensures r.Ok? ==> IsDigits(PostField(req, "value")) && r.value.value == DigitsValue(PostField(req, "value"))
    ensures r.Ok? ==> IsAnswerChoice(r.value.value)
    ensures r.Ok? ==> IsDigits(PostField(req, "question_pk"))
                      && r.value.question.pk == DigitsValue(PostField(req, "question_pk"))
    // A request that passes every check is accepted, with the looked-up
    // question and the parsed value.
    ensures var v, q := PostField(req, "value"), LookupQuestion(questions, PostField(req, "question_pk"));
            r.Ok? <==> Complete(req) && IsDigits(v) && DigitsValue(v) <= 5 &&
                       q.Some? && q.value.author != req.user.value
    ensures r.Ok? ==> r.value == Vote(LookupQuestion(questions, PostField(req, "question_pk")).value,
                                      req.user.value, DigitsValue(PostField(req, "value")))
  {
    if req.httpMethod != "POST" then Err(MethodNotAllowed)
    else if req.user.None? then Err(LoginRedirect)
    else
      var pkText, value := PostField(req, "question_pk"), PostField(req, "value");
      if pkText == "" || value == "" then Err(JsonError(INCOMPLETE_DATA))
      else if !IsDigits(value) then Err(JsonError(NOT_A_DIGIT + value))
      else if DigitsValue(value) > 5 then Err(JsonError(INVALID_VALUE + value))
      else match LookupQuestion(questions, pkText)
        case None => Err(LookupFailed)
        case Some(q) =>
          if q.author == req.user.value then Err(JsonError(OWN_QUESTION_ANSWER))
          else
            AnswerChoicesAreZeroToFive(DigitsValue(value));
            Ok(Vote(q, req.user.value, DigitsValue(value)))
  }

  predicate IsFeedbackValue(value: string) {
    value == "like" || value == "dislike" || value == "other"
  }

  /** The decorators and checks of `like_dislike_question`, in their order;
      the first one that fails decides the response. */
  function CheckFeedback(req: Request, questions: seq<Question>): (r: Result<Vote<string>, Response>)
    ensures r.Ok? ==> req.httpMethod == "POST" && req.user == Some(r.value.author)
    ensures r.Ok? ==> r.value.question in questions && r.value.question.author != r.value.author
    ensures r.Ok? ==> IsFeedbackValue(r.value.value) && r.value.value == PostField(req, "value")
    ensures r.Ok? ==> IsDigits(PostField(req, "question_pk"))
                      && r.value.question.pk == DigitsValue(PostField(req, "question_pk"))
    // A request that passes every check is accepted, with the looked-up
    // question and the submitted value.
    ensures var v, q := PostField(req, "value"), LookupQuestion(questions, PostField(req, "question_pk"));
            r.Ok? <==> Complete(req) && IsFeedbackValue(v) &&
                       q.Some? && q.value.author != req.user.value
    ensures r.Ok? ==> r.value == Vote(LookupQuestion(questions, PostField(req, "question_pk")).value,
                                      req.user.value, PostField(req, "value"))
  {
    if req.httpMethod != "POST" then Err(MethodNotAllowed)
    else if req.user.None? then Err(LoginRedirect)
    else
      var pkText, value := PostField(req, "question_pk"), PostField(req, "value");
      if pkText == "" || value == "" then Err(JsonError(INCOMPLETE_DATA))
      else if !IsFeedbackValue(value) then Err(JsonError(INVALID_VALUE + value))
      else match LookupQuestion(questions, pkText)
        case None => Err(LookupFailed)
        case Some(q) =>
          if q.author == req.user.value then Err(JsonError(OWN_QUESTION_FEEDBACK))
          else Ok(Vote(q, req.user.value, value))
  }

  /** A signed-in POST whose two fields are both present. */
  predicate Complete(req: Request) {
    req.httpMethod == "POST" && req.user.Some? &&
    PostField(req, "question_pk") != "" && PostField(req, "value") != ""
  }

  /** Each rejection of `answer_question` happens exactly when every earlier
      check passed and its own check failed. */
  lemma AnswerChecksInOrder(req: Request, questions: seq<Question>)
    ensures var r := CheckAnswer(req, questions);
            var v := PostField(req, "value");
            (r == Err(MethodNotAllowed) <==> req.httpMethod != "POST") &&
            (r == Err(LoginRedirect) <==> req.httpMethod == "POST" && req.user.None?) &&
            (r == Err(JsonError(INCOMPLETE_DATA)) <==>
               req.httpMethod == "POST" && req.user.Some? && !Complete(req)) &&
            (r == Err(JsonError(NOT_A_DIGIT + v)) <==> Complete(req) && !IsDigits(v)) &&
            (r == Err(JsonError(INVALID_VALUE + v)) <==>
               Complete(req) && IsDigits(v) && DigitsValue(v) > 5) &&
            (r == Err(LookupFailed) <==>
               Complete(req) && IsDigits(v) && DigitsValue(v) <= 5 &&
               LookupQuestion(questions, PostField(req, "question_pk")).None?) &&
            (r == Err(JsonError(OWN_QUESTION_ANSWER)) <==>
               Complete(req) && IsDigits(v) && DigitsValue(v) <= 5 &&
               LookupQuestion(questions, PostField(req, "question_pk")).Some? &&
               LookupQuestion(questions, PostField(req, "question_pk")).value.author == req.user.value)
  {
    var v := PostField(req, "value");
    assert (NOT_A_DIGIT + v)[0] == 'E' && (INVALID_VALUE + v)[0] == 'V';
    assert INCOMPLETE_DATA[0] == 'D' && OWN_QUESTION_ANSWER[0] == 'N';
  }

  /** Each rejection of `like_dislike_question` happens exactly when every
      earlier check passed and its own check failed. */
  lemma FeedbackChecksInOrder(req: Request, questions: seq<Question>)
    ensures var r := CheckFeedback(req, questions);
            var v := PostField(req, "value");
            (r == Err(MethodNotAllowed) <==> req.httpMethod != "POST") &&
            (r == Err(LoginRedirect) <==> req.httpMethod == "POST" && req.user.None?) &&
            (r == Err(JsonError(INCOMPLETE_DATA)) <==>
               req.httpMethod == "POST" && req.user.Some? && !Complete(req)) &&
            (r == Err(JsonError(INVALID_VALUE + v)) <==> Complete(req) && !IsFeedbackValue(v)) &&
            (r == Err(LookupFailed) <==>
               Complete(req) && IsFeedbackValue(v) &&
               LookupQuestion(questions, PostField(req, "question_pk")).None?) &&
            (r == Err(JsonError(OWN_QUESTION_FEEDBACK)) <==>
               Complete(req) && IsFeedbackValue(v) &&
               LookupQuestion(questions, PostField(req, "question_pk")).Some? &&
               LookupQuestion(questions, PostField(req, "question_pk")).value.author == req.user.value)
  {
    var v := PostField(req, "value");
    assert (INVALID_VALUE + v)[0] == 'V';
    assert INCOMPLETE_DATA[0] == 'D' && OWN_QUESTION_FEEDBACK[0] == 'N';
  }

  /** The rejections the error tests expect: a missing value, the value
      "abc", the value "10" and an anonymous visitor. */
  lemma AnswerCheckExamples(questions: seq<Question>, user: UserId)
    ensures CheckAnswer(Request("POST", Some(user), map["question_pk" := "1"]), questions)
         == Err(JsonError("Datos incompletos"))
    ensures CheckAnswer(Request("POST", Some(user), map["question_pk" := "1", "value" := "abc"]), questions)
         == Err(JsonError("El valor no es digito: abc"))
    ensures CheckAnswer(Request("POST", Some(user), map["question_pk" := "1", "value" := "10"]), questions)
         == Err(JsonError("Valor invalido: 10"))
    ensures CheckAnswer(Request("POST", None, map["question_pk" := "1", "value" := "3"]), questions)
         == Err(LoginRedirect)
  {
    assert !IsDigit("abc"[0]);
    assert "10"[..1] == "1";
    assert NOT_A_DIGIT + "abc" == "El valor no es digito: abc";
    assert INVALID_VALUE + "10" == "Valor invalido: 10";
  }

  /** The rejections the error tests expect: a missing value, the value
      "invalid_value" and an anonymous visitor. */
  lemma FeedbackCheckExamples(questions: seq<Question>, user: UserId)
    ensures CheckFeedback(Request("POST", Some(user), map["question_pk" := "1"]), questions)
         == Err(JsonError("Datos incompletos"))
    ensures CheckFeedback(Request("POST", Some(user), map["question_pk" := "1", "value" := "invalid_value"]), questions)
         == Err(JsonError("Valor invalido: invalid_value"))
    ensures CheckFeedback(Request("POST", None, map["question_pk" := "1", "value" := "like"]), questions)
         == Err(LoginRedirect)
  {
    assert INVALID_VALUE + "invalid_value" == "Valor invalido: invalid_value";
  }

  /** The vote on one's own question is refused, whatever its value. */
  lemma OwnQuestionRefused(req: Request, questions: seq<Question>)
    requires Complete(req)
    requires LookupQuestion(questions, PostField(req, "question_pk")).Some?
    requires LookupQuestion(questions, PostField(req, "question_pk")).value.author == req.user.value
    ensures CheckAnswer(req, questions).Err? && CheckFeedback(req, questions).Err?
  {
  }

  // ----- The two vote tables -----

  function AnswerKey(a: Answer): VoteKey {
    (a.question, a.author)
  }

  function FeedbackKey(f: QuestionFeedback): VoteKey {
    (f.question, f.author)
  }

  function SetAnswerValue(value: nat): Answer -> Answer {
    (a: Answer) => a.(value := value)
  }

  function SetFeedbackValue(value: string): QuestionFeedback -> QuestionFeedback {
    (f: QuestionFeedback) => f.(value := value)
  }

  /** The answer table after `author` answers `question` with `value`: the
      existing answer gets the new value, or a new answer is added. */
  function UpsertAnswer(answers: seq<Answer>, question: QuestionId, author: UserId, value: nat): seq<Answer> {
    Upsert(answers, AnswerKey, (question, author), SetAnswerValue(value), NewAnswer(question, author).(value := value))
  }

  /** The feedback table after `author` gives `value` on `question`. */
  function UpsertFeedback(feedback: seq<QuestionFeedback>, question: QuestionId, author: UserId, value: string): seq<QuestionFeedback> {
    Upsert(feedback, FeedbackKey, (question, author), SetFeedbackValue(value), NewFeedback(question, author).(value := value))
  }

  /** The answer value the list page shows `user` for question `pk`: that of
      the first answer of `user` to it, or 0 when there is none. */
  function UserAnswerValue(answers: seq<Answer>, pk: QuestionId, user: UserId): nat {
    match FindIndex(answers, AnswerKey, (pk, user))
    case Some(i) => answers[i].value
    case None => 0
  }

  /** The value of the first feedback of `user` on question `pk`, if any. */
  function UserFeedback(feedback: seq<QuestionFeedback>, pk: QuestionId, user: UserId): Option<string> {
    match FindIndex(feedback, FeedbackKey, (pk, user))
    case Some(i) => Some(feedback[i].value)
    case None => None
  }

  /** After answering, the pair has exactly one answer, holding the submitted
      value; every other pair keeps its answers; no pair gets a duplicate. */
  lemma AnswerUpsertOneRecord(answers: seq<Answer>, question: QuestionId, author: UserId, value: nat)
    requires UniqueKeys(answers, AnswerKey)
    ensures var r := UpsertAnswer(answers, question, author, value);
            |RecordsFor(r, AnswerKey, (question, author))| == 1 &&
            RecordsFor(r, AnswerKey, (question, author))[0].value == value &&
            UniqueKeys(r, AnswerKey) &&
            forall k :: k != (question, author) ==> RecordsFor(r, AnswerKey, k) == RecordsFor(answers, AnswerKey, k)
  {
    var ow, created := SetAnswerValue(value), NewAnswer(question, author).(value := value);
    UpsertSingleRecord(answers, AnswerKey, (question, author), ow, created);
    UpsertPreservesUnique(answers, AnswerKey, (question, author), ow, created);
    forall k | k != (question, author)
      ensures RecordsFor(UpsertAnswer(answers, question, author, value), AnswerKey, k) == RecordsFor(answers, AnswerKey, k)
    {
      UpsertKeepsOtherKeys(answers, AnswerKey, (question, author), ow, created, k);
    }
  }

  /** After giving feedback, the pair has exactly one feedback, holding the
      submitted value; every other pair keeps its feedback; no pair gets a
      duplicate. */
  lemma FeedbackUpsertOneRecord(feedback: seq<QuestionFeedback>, question: QuestionId, author: UserId, value: string)
    requires UniqueKeys(feedback, FeedbackKey)
    ensures var r := UpsertFeedback(feedback, question, author, value);
            |RecordsFor(r, FeedbackKey, (question, author))| == 1 &&
            RecordsFor(r, FeedbackKey, (question, author))[0].value == value &&
            UniqueKeys(r, FeedbackKey) &&
            forall k :: k != (question, author) ==> RecordsFor(r, FeedbackKey, k) == RecordsFor(feedback, FeedbackKey, k)
  {
    var ow, created := SetFeedbackValue(value), NewFeedback(question, author).(value := value);
    UpsertSingleRecord(feedback, FeedbackKey, (question, author), ow, created);
    UpsertPreservesUnique(feedback, FeedbackKey, (question, author), ow, created);
    forall k | k != (question, author)
      ensures RecordsFor(UpsertFeedback(feedback, question, author, value), FeedbackKey, k) == RecordsFor(feedback, FeedbackKey, k)
    {
      UpsertKeepsOtherKeys(feedback, FeedbackKey, (question, author), ow, created, k);
    }
  }

  /** Answering again replaces the earlier answer: the table is as if only
      the last answer had been given. */
  lemma AnswerResubmitOverwrites(answers: seq<Answer>, question: QuestionId, author: UserId, first: nat, second: nat)
    ensures UpsertAnswer(UpsertAnswer(answers, question, author, first), question, author, second)
         == UpsertAnswer(answers, question, author, second)
  {
    UpsertTwice(answers, AnswerKey, (question, author),
                SetAnswerValue(first), NewAnswer(question, author).(value := first),
                SetAnswerValue(second), NewAnswer(question, author).(value := second));
  }

  /** Giving feedback again replaces the earlier feedback. */
  lemma FeedbackResubmitOverwrites(feedback: seq<QuestionFeedback>, question: QuestionId, author: UserId, first: string, second: string)
    ensures UpsertFeedback(UpsertFeedback(feedback, question, author, first), question, author, second)
         == UpsertFeedback(feedback, question, author, second)
  {
    UpsertTwice(feedback, FeedbackKey, (question, author),
                SetFeedbackValue(first), NewFeedback(question, author).(value := first),
                SetFeedbackValue(second), NewFeedback(question, author).(value := second));
  }

  /** What the list page shows after an answer is the answer just given. */
  lemma AnswerShownAfterUpsert(answers: seq<Answer>, question: QuestionId, author: UserId, value: nat)
    ensures UserAnswerValue(UpsertAnswer(answers, question, author, value), question, author) == value
  {
    var r := UpsertAnswer(answers, question, author, value);
    match FindIndex(answers, AnswerKey, (question, author))
    case Some(i) =>
      FindIndexIsFirst(r, AnswerKey, (question, author), i);
    case None =>
      FindIndexIsFirst(r, AnswerKey, (question, author), |answers|);
  }

  /** What the list page reads after a feedback is the feedback just given. */
  lemma FeedbackShownAfterUpsert(feedback: seq<QuestionFeedback>, question: QuestionId, author: UserId, value: string)
    ensures UserFeedback(UpsertFeedback(feedback, question, author, value), question, author) == Some(value)
  {
    var r := UpsertFeedback(feedback, question, author, value);
    match FindIndex(feedback, FeedbackKey, (question, author))
    case Some(i) =>
      FindIndexIsFirst(r, FeedbackKey, (question, author), i);
    case None =>
      FindIndexIsFirst(r, FeedbackKey, (question, author), |feedback|);
  }

  /** With unique pairs, the value the list page shows is the stored one. */
  lemma ShownAnswerIsStored(answers: seq<Answer>, i: nat)
    requires UniqueKeys(answers, AnswerKey) && i < |answers|
    ensures UserAnswerValue(answers, answers[i].question, answers[i].author) == answers[i].value
  {
    FindIndexIsFirst(answers, AnswerKey, AnswerKey(answers[i]), i);
  }

  /** An answer moves only its own question's ranking, by what the new value
      scores minus what the value shown before scored. */
  lemma AnswerRankingEffect(answers: seq<Answer>, question: QuestionId, author: UserId, value: nat,
                            q: Question, feedback: seq<QuestionFeedback>, today: Date)
    ensures CalculateRanking(q, UpsertAnswer(answers, question, author, value), feedback, today)
         == CalculateRanking(q, answers, feedback, today)
            + (if q.pk == question
               then AnswerValuePoints(value) - AnswerValuePoints(UserAnswerValue(answers, question, author))
               else 0)
  {
    match FindIndex(answers, AnswerKey, (question, author))
    case Some(i) =>
      RankingOverwriteAnswer(q, answers, i, answers[i].(value := value), feedback, today);
    case None =>
      RankingAddAnswer(q, answers, NewAnswer(question, author).(value := value), feedback, today);
  }

  /** A feedback moves only its own question's ranking, by what the new value
      scores minus what the earlier feedback of the same user scored. */
  lemma FeedbackRankingEffect(feedback: seq<QuestionFeedback>, question: QuestionId, author: UserId, value: string,
                              q: Question, answers: seq<Answer>, today: Date)
    ensures CalculateRanking(q, answers, UpsertFeedback(feedback, question, author, value), today)
         == CalculateRanking(q, answers, feedback, today)
            + (if q.pk == question
               then FeedbackValuePoints(value)
                    - (match UserFeedback(feedback, question, author)
                       case Some(previous) => FeedbackValuePoints(previous)
                       case None => 0)
               else 0)
  {
    match FindIndex(feedback, FeedbackKey, (question, author))
    case Some(i) =>
      RankingOverwriteFeedback(q, answers, feedback, i, feedback[i].(value := value), today);
    case None =>
      RankingAddFeedback(q, answers, feedback, NewFeedback(question, author).(value := value), today);
  }

  // ----- The question list -----

  /** Record `o` is record `r` with the keys the list view adds for `user`:
      `answer` set to the user's answer value (0 without an answer), `like`
      added when the user's feedback is "like", `dislike` when it is
      "dislike"; nothing else changes. */
  predicate AnnotatedRecord(o: QuestionRecord, r: QuestionRecord, user: UserId,
                            answers: seq<Answer>, feedback: seq<QuestionFeedback>) {
    o.pk == r.pk && o.title == r.title && o.author == r.author && o.ranking == r.ranking &&
    o.answer == Some(UserAnswerValue(answers, r.pk, user)) &&
    (o.like <==> r.like || UserFeedback(feedback, r.pk, user) == Some("like")) &&
    (o.dislike <==> r.dislike || UserFeedback(feedback, r.pk, user) == Some("dislike"))
  }

  /** `out` is `records` as the list view leaves them for `user`: annotated
      one by one for a signed-in user, untouched for an anonymous one. */
  predicate AnnotatedFor(out: seq<QuestionRecord>, records: seq<QuestionRecord>, user: Option<UserId>,
                         answers: seq<Answer>, feedback: seq<QuestionFeedback>) {
    |out| == |records| &&
    (user.None? ==> out == records) &&
    (user.Some? ==> forall i :: 0 <= i < |out| ==> AnnotatedRecord(out[i], records[i], user.value, answers, feedback))
  }

  /** The loop of `get_context_data` that adds the user's answer and
      like/dislike keys to each serialized question. */
  method AnnotateForUser(records: seq<QuestionRecord>, user: Option<UserId>,
                         answers: seq<Answer>, feedback: seq<QuestionFeedback>)
    returns (out: seq<QuestionRecord>)
    ensures AnnotatedFor(out, records, user, answers, feedback)
  {
    out := records;
    if user.Some? {
      var i := 0;
      while i < |out|
        invariant 0 <= i <= |out| == |records|
        invariant forall k :: 0 <= k < i ==> AnnotatedRecord(out[k], records[k], user.value, answers, feedback)
        invariant forall k :: i <= k < |out| ==> out[k] == records[k]
      {
        var r := out[i];
        var answer := FindIndex(answers, AnswerKey, (r.pk, user.value));
        if answer.Some? {
          r := r.(answer := Some(answers[answer.value].value));
        } else {
          r := r.(answer := Some(0));
        }
        var found := FindIndex(feedback, FeedbackKey, (r.pk, user.value));
        if found.Some? {
          if feedback[found.value].value == "like" {
            r := r.(like := true);
          } else if feedback[found.value].value == "dislike" {
            r := r.(dislike := true);
          }
        }
        out := out[i := r];
        i := i + 1;
      }
    }
  }

  // ----- The tables -----

  function Pks(questions: seq<Question>): set<QuestionId> {
    set q | q in questions :: q.pk
  }

  /** The table invariants: question keys are unique, titles fit, every vote
      refers to a stored question, and no (question, author) pair has two
      answers or two feedbacks. */
  predicate ValidTables(questions: seq<Question>, answers: seq<Answer>, feedback: seq<QuestionFeedback>) {
    (forall i, j :: 0 <= i < j < |questions| ==> questions[i].pk != questions[j].pk) &&
    (forall i :: 0 <= i < |questions| ==> WellFormedQuestion(questions[i])) &&
    (forall i :: 0 <= i < |answers| ==> answers[i].question in Pks(questions)) &&
    (forall i :: 0 <= i < |feedback| ==> feedback[i].question in Pks(questions)) &&
    UniqueKeys(answers, AnswerKey) && UniqueKeys(feedback, FeedbackKey)
  }

  /** Re-ranking changes no key and no title, so the invariants survive it. */
  lemma RerankKeepsTablesValid(questions: seq<Question>, answers: seq<Answer>, feedback: seq<QuestionFeedback>, today: Date)
    requires ValidTables(questions, answers, feedback)
    ensures ValidTables(Rerank(questions, answers, feedback, today), answers, feedback)
  {
    var r := Rerank(questions, answers, feedback, today);
    assert forall i :: 0 <= i < |r| ==> r[i].pk == questions[i].pk && r[i].title == questions[i].title;
    assert Pks(r) == Pks(questions) by {
      forall p | p in Pks(questions) ensures p in Pks(r) {
        var q :| q in questions && q.pk == p;
        var i :| 0 <= i < |questions| && questions[i] == q;
        assert r[i] in r;
      }
      forall p | p in Pks(r) ensures p in Pks(questions) {
        var q :| q in r && q.pk == p;
        var i :| 0 <= i < |r| && r[i] == q;
        assert questions[i] in questions;
      }
    }
  }

  /** The database of the application: the question, answer and feedback
      tables, each in insertion order. */
  class Database {
    var questions: seq<Question>
    var answers: seq<Answer>
    var feedback: seq<QuestionFeedback>

    predicate Valid()
      reads this
    {
      ValidTables(questions, answers, feedback)
    }

    constructor (questions: seq<Question>, answers: seq<Answer>, feedback: seq<QuestionFeedback>)
      requires ValidTables(questions, answers, feedback)
      ensures Valid()
      ensures this.questions == questions && this.answers == answers && this.feedback == feedback
    {
      this.questions := questions;
      this.answers := answers;
      this.feedback := feedback;
    }

    /** `get_ranked_questions(n)`: store the calculated ranking of every
        question, then return the `n` best ranked, best first. */
    method GetRankedQuestions(n: nat, today: Date) returns (top: seq<Question>)
      requires Valid()
      modifies this
      ensures Valid()
      ensures questions == Rerank(old(questions), answers, feedback, today)
      ensures answers == old(answers) && feedback == old(feedback)
      ensures forall i :: 0 <= i < |questions| ==>
        questions[i].ranking == CalculateRanking(questions[i], answers, feedback, today)
      ensures top == TopRanked(questions, n)
    {
      var i := 0;
      while i < |questions|
        invariant 0 <= i <= |questions| == |old(questions)|
        invariant answers == old(answers) && feedback == old(feedback)
        invariant forall k :: 0 <= k < i ==>
          questions[k] == old(questions[k]).(ranking := CalculateRanking(old(questions[k]), answers, feedback, today))
        invariant forall k :: i <= k < |questions| ==> questions[k] == old(questions[k])
      {
        questions := questions[i := questions[i].(ranking := CalculateRanking(questions[i], answers, feedback, today))];
        i := i + 1;
      }
      RerankKeepsTablesValid(old(questions), answers, feedback, today);
      top := TopRanked(questions, n);
    }

    /** `QuestionListView.get_context_data`: re-rank, take the 20 best, 
        serialize them and annotate them for `user`. */
    method GetContextData(user: Option<UserId>, today: Date) returns (records: seq<QuestionRecord>)
      requires Valid()
      modifies this
      ensures Valid()
      ensures questions == Rerank(old(questions), answers, feedback, today)
      ensures answers == old(answers) && feedback == old(feedback)
      ensures AnnotatedFor(records, Serialize(TopRanked(questions, LIST_SIZE)), user, answers, feedback)
      ensures |records| <= LIST_SIZE
      ensures user.None? ==> forall i :: 0 <= i < |records| ==>
        records[i].answer.None? && !records[i].like && !records[i].dislike
    {
      var top := GetRankedQuestions(LIST_SIZE, today);
      var serialized := Serialize(top);
      records := AnnotateForUser(serialized, user, answers, feedback);
    }

    /** `answer_question`: check the request; when every check passes, store
        the answer (overwriting the user's earlier one) and redirect home.
        A rejected request changes nothing. */
    method AnswerQuestion(req: Request) returns (resp: Response)
      requires Valid()
      modifies this
      ensures Valid()
      ensures questions == old(questions) && feedback == old(feedback)
      ensures var check := CheckAnswer(req, old(questions));
              match check
              case Ok(vote) =>
                resp == Redirect(HOME) &&
                answers == UpsertAnswer(old(answers), vote.question.pk, vote.author, vote.value)
              case Err(error) =>
                resp == error && answers == old(answers)
    {
      var check := CheckAnswer(req, questions);
      if check.Err? {
        return check.error;
      }
      var vote := check.value;
      var key := (vote.question.pk, vote.author);
      ghost var before := answers;
      var found := FindIndex(answers, AnswerKey, key);
      if found.Some? {
        var i := found.value;
        answers := answers[i := answers[i].(value := vote.value)];
      } else {
        answers := answers + [NewAnswer(vote.question.pk, vote.author).(value := vote.value)];
      }
      assert answers == UpsertAnswer(before, vote.question.pk, vote.author, vote.value);
      AnswerUpsertOneRecord(before, vote.question.pk, vote.author, vote.value);
      assert vote.question.pk in Pks(questions);
      resp := Redirect(HOME);
    }

    /** `like_dislike_question`: check the request; when every check passes,
        store the feedback (overwriting the user's earlier one) and redirect
        home. A rejected request changes nothing. */
    method LikeDislikeQuestion(req: Request) returns (resp: Response)
      requires Valid()
      modifies this
      ensures Valid()
      ensures questions == old(questions) && answers == old(answers)
      ensures var check := CheckFeedback(req, old(questions));
              match check
              case Ok(vote) =>
                resp == Redirect(HOME) &&
                feedback == UpsertFeedback(old(feedback), vote.question.pk, vote.author, vote.value)
              case Err(error) =>
                resp == error && feedback == old(feedback)
    {
      var check := CheckFeedback(req, questions);
      if check.Err? {
        return check.error;
      }
      var vote := check.value;
      var key := (vote.question.pk, vote.author);
      ghost var before := feedback;
      var found := FindIndex(feedback, FeedbackKey, key);
      if found.Some? {
        var i := found.value;
        feedback := feedback[i := feedback[i].(value := vote.value)];
      } else {
        feedback := feedback + [NewFeedback(vote.question.pk, vote.author).(value := vote.value)];
      }
      assert feedback == UpsertFeedback(before, vote.question.pk, vote.author, vote.value);
      FeedbackUpsertOneRecord(before, vote.question.pk, vote.author, vote.value);
      assert vote.question.pk in Pks(questions);
      resp := Redirect(HOME);
    }
  }
}
