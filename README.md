# Survey ranking and vote handlers, modelled in Dafny

This project models the core of a small question-and-answer survey site. Users post
questions. Other users answer them with a number from 0 to 5 and give a "like", "dislike"
or "other" feedback. Questions are listed by a ranking score derived from those votes.

The model covers:

- the record shapes of `survey/models.py`: `Question`, `Answer`, `QuestionFeedback`, the
  `ANSWERS_VALUES` choice tuple and the field defaults (module `Models`, `models.dfy`);
- the ranking calculator `QuestionManager` of `survey/views.py` (module `Ranking`, `ranking.dfy`):
  - `calculate_ranking` gives 10 points per answer valued 1..5, 5 per like, -3 per dislike
    and 10 more when the question was created today;
  - `get_ranked_questions(n)` stores every question's calculated ranking and returns the
    `n` best, best first;
  - `get_serialized_questions` turns questions into `{pk, title, author, ranking}` records;
- the per-user annotation loop of `QuestionListView.get_context_data` (module `Survey`);
- the vote handlers `answer_question` and `like_dislike_question` (module `Survey`,
  `survey.dfy`). Each runs its checks in a fixed order and then upserts one record per
  (question, author) pair. The shared get-or-create pattern is modelled once, generically, in
  module `Votes` (`votes.dfy`);
- the digit test and integer conversion applied to a submitted answer (module `Digits`,
  `digits.dfy`).

The database is the class `Survey.Database`. It holds the three tables as sequences in
insertion order, and its methods update them in place as the views do. Its invariant
`ValidTables` says four things:

- question keys are unique;
- titles fit their 200-character field;
- every vote refers to a stored question;
- no (question, author) pair has two answers or two feedbacks.

The current day and the signed-in user are parameters. A response is a datatype:

- `Redirect("/")` on success;
- `LoginRedirect` for an anonymous visitor (the 302 of `login_required`);
- `MethodNotAllowed` for a non-POST request (`require_POST`);
- `JsonError(message)`;
- `LookupFailed` for a question lookup that raised.

On success both vote handlers redirect to "/" (survey/views.py:364-365 and 423-424). Both reject a vote on one's own question (survey/views.py:344-347 and 403-406). A new answer takes `value` from the request and keeps the default empty `comment` (survey/views.py:352-359).

## Model

| member | source | states |
|---|---|---|
| `Models.AnswerChoicesAreZeroToFive` | survey/models.py:61-68 | a value is one of the declared answer choices exactly when it lies in 0..5 |
| `Models.NewQuestion` | survey/models.py:36-45 | a new question starts with ranking 0 and fits its table exactly when its title has at most 200 characters |
| `Models.NewAnswer` | survey/models.py:70-83 | a new answer has value 0, the "Sin Responder" choice, and an empty comment |
| `Models.NewFeedback` | survey/models.py:96-108 | a new feedback has the empty value, which is neither "like" nor "dislike" |
| `Digits.DigitsRoundTrip` | survey/views.py:333-336 | reading back the decimal spelling of any number gives that number |
| `Digits.LeadingZero` | survey/views.py:333-336 | a leading zero is accepted and does not change the value ("05" reads as 5) |
| `Digits.SmallValue` | survey/views.py:336-337 | a digit string passes the range check exactly when it is zeros followed by one digit from 0 to 5 |
| `Votes.FindIndex` | survey/views.py:351-354 | the lookup finds a record of the pair and no earlier one, or reports that the pair has none |
| `Votes.UpsertSingleRecord` | survey/views.py:349-362 | after get-or-create with unique pairs, exactly one record is filed under the pair: the overwritten one or the created one |
| `Votes.UpsertKeepsOtherKeys` | survey/views.py:349-362 | get-or-create under one pair leaves the records of every other pair unchanged |
| `Votes.UpsertPreservesUnique` | survey/views.py:349-362 | get-or-create never introduces a second record for a pair |
| `Votes.UpsertTwice` | survey/views.py:349-362 | a second upsert under the same pair replaces what the first wrote, leaving no extra record |
| `Ranking.CountAnswersIsFilterSize` | survey/views.py:258 | the answer count is the number of answers to the question with value in 1..5 |
| `Ranking.CountFeedbackIsFilterSize` | survey/views.py:259-262 | the like (dislike) count is the number of feedbacks on the question with that exact value |
| `Ranking.RankingAddAnswer` | survey/views.py:258-265 | a further answer adds 10 to its own question's ranking when valued 1..5, and nothing otherwise |
| `Ranking.RankingAddFeedback` | survey/views.py:259-269 | a further feedback adds 5 to its own question for a like, -3 for a dislike, and nothing otherwise |
| `Ranking.RankingOverwriteAnswer` | survey/views.py:258-265 | overwriting an answer moves the ranking by the new record's points minus the old one's |
| `Ranking.RankingOverwriteFeedback` | survey/views.py:259-269 | overwriting a feedback moves the ranking by the new record's points minus the old one's |
| `Ranking.RankingWithoutVotes` | survey/views.py:256-275 | a question nobody voted on ranks 10 on its creation day and 0 otherwise |
| `Ranking.DefaultVotesScoreNothing` | survey/views.py:258-262 | an answer or a feedback left at its defaults changes no ranking |
| `Ranking.Rerank` | survey/views.py:280-284 | every question keeps all its fields except ranking, which becomes its calculated ranking |
| `Ranking.OrderByRanking` | survey/views.py:286 | the ordering is a permutation of the questions, in non-increasing ranking |
| `Ranking.TopRanked` | survey/views.py:286-288 | the result has min(n, total) questions, is a sub-multiset of them, is in non-increasing ranking, and no omitted question outranks a returned one |
| `Ranking.TopRankedDrawnFromAll` | survey/views.py:280-288 | every returned question is one of the stored questions |
| `Ranking.Serialize` | survey/views.py:290-303 | one record per question, in the same order, with pk, title, author and ranking copied and no other key |
| `Ranking.SerializedTopIsOrdered` | survey/views.py:73-74 | the serialized top-n records list their rankings best first |
| `Ranking.RankingExampleScores` | survey/tests.py:270-283 | two answers, a like, a dislike and creation today give 32; the other two questions give 10 and 7 |
| `Ranking.RankingExampleOrder` | survey/tests.py:285-305 | the re-ranked top three of the example come out as question 1, 2, 3 |
| `Ranking.NegativeRankingExample` | survey/models.py:45 | a question with one dislike created on another day ranks -3, below the column's declared range |
| `Survey.FindQuestion` | survey/views.py:339-342 | the lookup returns a stored question with the requested key, or none exists |
| `Survey.CheckAnswer` | survey/views.py:306-347 | an accepted answer comes from a signed-in POST, names a stored question not authored by the voter, and carries a digit value that is an answer choice; conversely, a request that passes every check is accepted, as the looked-up question, the voter and the parsed value |
| `Survey.CheckFeedback` | survey/views.py:368-406 | an accepted feedback comes from a signed-in POST, names a stored question not authored by the voter, and carries "like", "dislike" or "other"; conversely, a request that passes every check is accepted, as the looked-up question, the voter and the submitted value |
| `Survey.AnswerChecksInOrder` | survey/views.py:330-347 | each answer rejection (405, 302, incomplete, not a digit, out of range, lookup, own question) occurs exactly when all earlier checks pass and its own fails |
| `Survey.FeedbackChecksInOrder` | survey/views.py:392-406 | each feedback rejection (405, 302, incomplete, invalid value, lookup, own question) occurs exactly when all earlier checks pass and its own fails |
| `Survey.AnswerCheckExamples` | survey/tests.py:488-553 | a missing value, "abc", "10" and an anonymous visitor get the responses the tests expect |
| `Survey.FeedbackCheckExamples` | survey/tests.py:588-634 | a missing value, "invalid_value" and an anonymous visitor get the responses the tests expect |
| `Survey.OwnQuestionRefused` | survey/views.py:344-347 | a vote on one's own question is refused by both handlers |
| `Survey.AnswerUpsertOneRecord` | survey/views.py:349-362 | after answering, the pair has exactly one answer, holding the submitted value; other pairs are unchanged; pairs stay unique |
| `Survey.FeedbackUpsertOneRecord` | survey/views.py:408-421 | after feedback, the pair has exactly one feedback, holding the submitted value; other pairs are unchanged; pairs stay unique |
| `Survey.AnswerResubmitOverwrites` | survey/views.py:351-353 | answering twice leaves the table as if only the second answer had been given |
| `Survey.FeedbackResubmitOverwrites` | survey/views.py:410-412 | giving feedback twice leaves the table as if only the second feedback had been given |
| `Survey.AnswerShownAfterUpsert` | survey/views.py:81-88 | after answering, the list page shows the voter the value just submitted |
| `Survey.FeedbackShownAfterUpsert` | survey/views.py:90-98 | after a feedback, the list page reads the value just submitted for the voter |
| `Survey.ShownAnswerIsStored` | survey/views.py:81-86 | with unique pairs, the value shown for a pair is the value of its stored answer |
| `Survey.AnswerRankingEffect` | survey/views.py:349-362 | an answer moves only its question's ranking, by the new value's points minus the points of the value shown before |
| `Survey.FeedbackRankingEffect` | survey/views.py:408-421 | a feedback moves only its question's ranking, by the new value's points minus the previous feedback's points |
| `Survey.AnnotateForUser` | survey/views.py:79-98 | signed in: each record gains the user's answer value (0 if none), `like` exactly when the feedback is "like", `dislike` exactly when it is "dislike"; anonymous: records unchanged |
| `Survey.RerankKeepsTablesValid` | survey/views.py:282-284 | storing the calculated rankings keeps the table invariants |
| `Survey.Database.GetRankedQuestions` | survey/views.py:277-288 | every stored question gets its calculated ranking, votes are untouched, and the result is the top n of the re-ranked questions |
| `Survey.Database.GetContextData` | survey/views.py:67-102 | the list holds at most 20 re-ranked, serialized, annotated records; an anonymous visitor's records carry no answer, like or dislike key |
| `Survey.Database.AnswerQuestion` | survey/views.py:306-365 | on acceptance the answer is upserted and the response redirects to "/"; on rejection the response is the check's and no table changes |
| `Survey.Database.LikeDislikeQuestion` | survey/views.py:368-424 | on acceptance the feedback is upserted and the response redirects to "/"; on rejection the response is the check's and no table changes |

## Left out

- The create, list-own, update and delete question views, `survey/urls.py` and `scripts/create_users.py`: they are framework wiring and a user-creation script. New questions therefore enter the model only through `Database`'s constructor.
- The ORM, `save()`, `JsonResponse`, `redirect` and templates: tables are sequences and responses a datatype. HTTP status codes are implied by the constructors.
- The internals of `require_POST` and `login_required`: only their outcomes (405, redirect to login) are modelled.
- `timezone.now()` and `request.user`: both are parameters.
- The text of a failed question lookup's exception: it is the abstract `LookupFailed`.
- Unicode digits accepted by Python's `str.isdigit`: only ASCII '0'..'9' count as digits.
- Key forms that Python's `int` accepts besides plain digit strings (surrounding spaces, a sign, underscores): they are treated as failed lookups.
- Survey.CheckAnswer: reads a digit string of any length as a number. CPython's `int` raises on strings longer than its default 4300-digit conversion limit, leading zeros included; `int(value)` at survey/views.py:336 is outside any `try`, so such a value ends `answer_question` in a server error and stores nothing, whereas the model accepts it (`"0"` repeated 4301 times is read as 0).
- Survey.LookupQuestion: likewise reads a key longer than 4300 digits as a number; in the source the key conversion raises inside the `try` at survey/views.py:339-342, so both handlers answer with the lookup error, whereas the model can find a question for it.
- Concurrent votes and `MultipleObjectsReturned`: at most one record per (question, author) is a table invariant.
- The order among questions of equal ranking, and the unspecified order of `Question.objects.all()` and of `filter(...)[0]`: the model uses table order and states no tie order.
- The `PositiveIntegerField` constraint on `Question.ranking`: the ranking is an `int` and may be negative (`NegativeRankingExample`). A store that enforces the constraint would reject saving such a ranking; that failure is not modelled.
- The 200-character title limit is enforced by forms, not by the model constructor: it is assumed of the initial tables and kept by every operation.
- `ANSWERS_VALUES` is not attached to the `value` field as `choices` in the source, so nothing outside the answer handler restricts stored answer values. The model types them as natural numbers only.
