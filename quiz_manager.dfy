/** The `quiz-manager` edge function: answers CORS preflights, validates a
    submitted answer against the stored one, awards a fixed score for a
    correct answer and tells the controller's lobby channel that the player
    answered. The questions table, the players' scores and the channel are
    passed in and handed back. */
module QuizManager {
  import opened Common

  /** Points added by `increment_score` for a correct answer. */
  const Award: int := 10

  /** The only action the function serves. */
  const SubmitAnswer: string := "SUBMIT_ANSWER"

  /** Fields read from the request payload. */
  datatype Payload = Payload(quizId: string, playerId: int, questionId: int, submittedAnswer: string)

  /** A parsed request body; `payload` is absent when the body has none. */
  datatype Body = Body(action: string, payload: Option<Payload>)

  /** An OPTIONS preflight, or any other request with its body when that
      body parses as JSON. */
  datatype Request = Preflight | Call(body: Option<Body>)

  datatype Reply = Verdict(correct: bool) | Failure(error: string)

  /** `PreflightOk` is the plain 'ok' answer; `Uncaught` is the runtime's
      answer to an exception the handler does not catch. */
  datatype Response = PreflightOk | Json(status: int, reply: Reply) | Uncaught

  /** The payload of a request that reaches the SUBMIT_ANSWER branch. */
  function Submission(req: Request): (r: Option<Payload>)
    ensures r.Some? <==> req.Call? && req.body.Some? && req.body.value.action == SubmitAnswer
                         && req.body.value.payload.Some?
    ensures r.Some? ==> r.value == req.body.value.payload.value
  {
    if req.Call? && req.body.Some? && req.body.value.action == SubmitAnswer && req.body.value.payload.Some?
    then req.body.value.payload
    else None
  }

  /** The verdict on a submission, absent when the question does not exist.
      Answers are compared exactly, with no trimming or case folding. */
  function Judge(questions: map<int, Question>, p: Payload): (r: Option<bool>)
    ensures r.None? <==> p.questionId !in questions
    ensures r.Some? ==> (r.value <==> questions[p.questionId].correctAnswer == p.submittedAnswer)
  {
    if p.questionId !in questions then None
    else Some(questions[p.questionId].correctAnswer == p.submittedAnswer)
  }

  /** `increment_score`: one atomic addition to one player's score; a
      player without a row is left without one. */
  function IncrementScore(scores: map<int, int>, playerId: int, amount: int): (r: map<int, int>)
    ensures r.Keys == scores.Keys
    ensures forall id :: id in r && id != playerId ==> r[id] == scores[id]
    ensures playerId in scores ==> r[playerId] == scores[playerId] + amount
  {
    if playerId in scores then scores[playerId := scores[playerId] + amount] else scores
  }

  /** The scores after one submission has been judged. */
  function ScoresAfter(questions: map<int, Question>, scores: map<int, int>, p: Payload): map<int, int> {
    if Judge(questions, p) == Some(true) then IncrementScore(scores, p.playerId, Award) else scores
  }

  /** The request handler. `lookupFails` is a failed question query, which
      leaves the handler without a row; `incrementFails` is an error of the
      `increment_score` call, which the handler does not inspect. */
  method Handle(req: Request, questions: map<int, Question>, scores: map<int, int>, log: seq<Message>,
                lookupFails: bool, incrementFails: bool)
    returns (resp: Response, scores': map<int, int>, log': seq<Message>)
    // A preflight is answered without any lookup, award or broadcast.
    ensures req.Preflight? ==> resp == PreflightOk && scores' == scores && log' == log
    // Destructuring a missing body or payload throws before any branch.
    ensures req.Call? && (req.body.None? || req.body.value.payload.None?) ==>
              resp == Uncaught && scores' == scores && log' == log
    // Any other action is refused.
    ensures req.Call? && req.body.Some? && req.body.value.payload.Some? && req.body.value.action != SubmitAnswer ==>
              resp == Json(400, Failure("Invalid action")) && scores' == scores && log' == log
    // An unknown question, or one the lookup could not read, is refused.
    ensures Submission(req).Some? && (lookupFails || Submission(req).value.questionId !in questions) ==>
              resp == Json(404, Failure("Question not found")) && scores' == scores && log' == log
    // A judged submission: the reply carries the verdict, exactly one
    // identity-only event is sent, and the award follows the same verdict
    // unless the increment call failed.
    ensures Submission(req).Some? && !lookupFails && Submission(req).value.questionId in questions ==>
              var p := Submission(req).value;
              && resp.Json? && resp.status == 200 && resp.reply.Verdict?
              && (resp.reply.correct <==> questions[p.questionId].correctAnswer == p.submittedAnswer)
              && log' == log + [Message(LobbyTopic(p.quizId), PlayerAnswered(p.playerId))]
              && scores' == if incrementFails then scores else ScoresAfter(questions, scores, p)
    // No score but the submitter's changes, and it changes by the award
    // exactly when the reply says the answer was correct and the increment
    // call succeeded.
    ensures scores'.Keys == scores.Keys
    ensures forall id :: id in scores && (Submission(req).None? || id != Submission(req).value.playerId) ==>
              scores'[id] == scores[id]
    ensures Submission(req).Some? && Submission(req).value.playerId in scores ==>
              var id := Submission(req).value.playerId;
              scores'[id] == scores[id] + (if resp == Json(200, Verdict(true)) && !incrementFails then Award else 0)
  {
    if req.Preflight? {
      return PreflightOk, scores, log;
    }
    if req.body.None? || req.body.value.payload.None? {
      return Uncaught, scores, log;
    }
    var action, p := req.body.value.action, req.body.value.payload.value;
    if action == SubmitAnswer {
      if lookupFails || p.questionId !in questions {
        return Json(404, Failure("Question not found")), scores, log;
      }
      var isCorrect := questions[p.questionId].correctAnswer == p.submittedAnswer;
      scores' := scores;
      if isCorrect && !incrementFails {
        scores' := IncrementScore(scores', p.playerId, Award);
      }
      log' := log + [Message(LobbyTopic(p.quizId), PlayerAnswered(p.playerId))];
      resp := Json(200, Verdict(isCorrect));
      return;
    }
    return Json(400, Failure("Invalid action")), scores, log;
  }

  /** The scores after a series of submissions, judged in order, each
      with its store calls succeeding. */
  function ScoresAfterAll(questions: map<int, Question>, scores: map<int, int>, subs: seq<Payload>): (r: map<int, int>)
    ensures r.Keys == scores.Keys
    decreases |subs|
  {
    if subs == [] then scores
    else ScoresAfterAll(questions, ScoresAfter(questions, scores, subs[0]), subs[1..])
  }

  /** How many of the submissions are correct answers by `playerId`. */
  function CorrectCount(questions: map<int, Question>, subs: seq<Payload>, playerId: int): nat
    decreases |subs|
  {
    if subs == [] then 0
    else (if subs[0].playerId == playerId && Judge(questions, subs[0]) == Some(true) then 1 else 0)
         + CorrectCount(questions, subs[1..], playerId)
  }

  /** A score only ever grows, by the award times the number of correct
      submissions its player made; nothing else moves it. */
  lemma {:induction false} ScoreAccumulates(questions: map<int, Question>, scores: map<int, int>,
                                            subs: seq<Payload>, playerId: int)
    requires playerId in scores
    ensures playerId in ScoresAfterAll(questions, scores, subs)
    ensures ScoresAfterAll(questions, scores, subs)[playerId]
         == scores[playerId] + Award * CorrectCount(questions, subs, playerId)
    decreases |subs|
  {
    if subs != [] {
      var next := ScoresAfter(questions, scores, subs[0]);
      assert playerId in next;
      ScoreAccumulates(questions, next, subs[1..], playerId);
    }
  }

  /** Submissions are not deduplicated: the same correct answer sent twice
      by one player is awarded twice. */
  lemma DuplicateSubmissionAwardsTwice(questions: map<int, Question>, scores: map<int, int>, p: Payload)
    requires p.playerId in scores && Judge(questions, p) == Some(true)
    ensures ScoresAfterAll(questions, scores, [p, p])[p.playerId] == scores[p.playerId] + 2 * Award
  {
    ScoreAccumulates(questions, scores, [p, p], p.playerId);
    assert [p, p][1..] == [p];
    assert [p][1..] == [];
    assert CorrectCount(questions, [p], p.playerId) == 1;
    assert CorrectCount(questions, [p, p], p.playerId) == 2;
  }
}
