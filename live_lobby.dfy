/** The controller's live session page: the control buttons, the status
    transitions they trigger, question progression, the STATE_UPDATE
    payloads it publishes and the roster it keeps in step with the lobby
    channel. The store tables it touches and the channel are fields of the
    page object; store failures and the clock are parameters. */
module LiveLobbyPage {
  import opened Common
  import Roster

  /** The four buttons of the control bar. */
  datatype Control = StartQuiz | NextQuestion | StopSession | ResetSession

  /** The buttons rendered for the page's current quiz row. */
  function Offered(quiz: Option<QuizRow>): (r: set<Control>)
    ensures StartQuiz in r <==> quiz.Some? && quiz.value.status == Deployed
    ensures NextQuestion in r <==> quiz.Some? && quiz.value.status == Active && quiz.value.adminPaced
    ensures StopSession in r <==> quiz.Some? && quiz.value.status == Active
    ensures ResetSession in r <==> quiz.Some? && quiz.value.status == Finished
  {
    if quiz.None? then {}
    else match quiz.value.status
      case Draft => {}
      case Deployed => {StartQuiz}
      case Active => if quiz.value.adminPaced then {NextQuestion, StopSession} else {StopSession}
      case Finished => {ResetSession}
  }

  /** The edges of the session lifecycle that the controls may take. */
  predicate LifecycleEdge(from: Status, to: Status) {
    || (from == Deployed && to == Active)
    || (from == Active && to == Finished)
    || (from == Finished && to == Draft)
  }

  /** The shape of every STATE_UPDATE this page publishes: a running quiz
      carries a question index and a start stamp, anything else carries -1
      and no stamp; a reset is announced as finished, never as draft. */
  predicate UpdateShape(status: Status, index: int, start: Option<int>) {
    && status != Draft
    && (if status == Active then index >= 0 && start.Some? else index == -1 && start.None?)
  }

  /** The quiz row as the status update writes it: a reset to draft also
      clears the join code. */
  function Updated(row: QuizRow, newStatus: Status): QuizRow {
    row.(status := newStatus, joinCode := if newStatus == Draft then None else row.joinCode)
  }

  /** The players table after deleting the rows of one session. */
  function DeleteSessionPlayers(rows: map<int, Player>, quizId: string): (r: map<int, Player>)
    ensures forall id :: id in r <==> id in rows && rows[id].sessionId != quizId
    ensures forall id :: id in r ==> r[id] == rows[id]
  {
    map id | id in rows && rows[id].sessionId != quizId :: rows[id]
  }

  class Controller {
    const quizId: string
    // The store tables this page reads and writes.
    var quizRows: map<string, QuizRow>
    var playerRows: map<int, Player>
    // Every message the page has handed to a channel, oldest first.
    var sent: seq<Message>
    // Page state.
    var quiz: Option<QuizRow>
    var questions: seq<Question>
    var currentQuestionIndex: int
    var questionStartTime: Option<int>
    var players: seq<Player>
    var route: Option<Route>

    ghost predicate Valid()
      reads this
    {
      && currentQuestionIndex >= -1
      && forall m | m in sent ::
           && m.topic == SessionTopic(quizId)
           && m.event.StateUpdate?
           && UpdateShape(m.event.status, m.event.currentQuestionIndex, m.event.questionStartTime)
    }

    /** The page as first rendered, over the store as it stands. */
    constructor (quizId: string, quizRows: map<string, QuizRow>, playerRows: map<int, Player>)
      ensures Valid()
      ensures this.quizId == quizId && this.quizRows == quizRows && this.playerRows == playerRows
      ensures sent == [] && quiz == None && questions == [] && players == [] && route == None
      ensures currentQuestionIndex == -1 && questionStartTime == None
    {
      this.quizId := quizId;
      this.quizRows := quizRows;
      this.playerRows := playerRows;
      sent := [];
      quiz := None;
      questions := [];
      currentQuestionIndex := -1;
      questionStartTime := None;
      players := [];
      route := None;
    }

    /** Loads the quiz row and the question list; a quiz found active
        restarts the local index at the first question. `quizFetchFails` is
        a failed quiz query, which leaves the page's quiz as it was. */
    method FetchQuizAndQuestions(quizFetchFails: bool, questionsData: Option<seq<Question>>)
      requires Valid()
      modifies this
      ensures Valid()
      ensures quiz == if !quizFetchFails && quizId in quizRows then Some(quizRows[quizId]) else old(quiz)
      ensures currentQuestionIndex
           == if !quizFetchFails && quizId in quizRows && quizRows[quizId].status == Active then 0
              else old(currentQuestionIndex)
      ensures questions == if questionsData.Some? then questionsData.value else old(questions)
      ensures quizRows == old(quizRows) && playerRows == old(playerRows) && sent == old(sent)
      ensures questionStartTime == old(questionStartTime) && players == old(players) && route == old(route)
    {
      if !quizFetchFails && quizId in quizRows {
        quiz := Some(quizRows[quizId]);
        if quizRows[quizId].status == Active {
          currentQuestionIndex := 0;
        }
      }
      if questionsData.Some? {
        questions := questionsData.value;
      }
    }

    /** Replaces the roster with the session's rows when the query answers;
        `data` lists exactly the players table's rows of this session. */
    method FetchPlayers(data: Option<seq<Player>>)
      requires Valid()
      requires data.Some? ==> forall p :: p in data.value <==> p in playerRows.Values && p.sessionId == quizId
      modifies this`players
      ensures Valid()
      ensures players == if data.Some? then data.value else old(players)
      ensures data.Some? ==> forall p :: p in players ==> p.sessionId == quizId
    {
      if data.Some? {
        players := data.value;
      }
    }

    /** `player_joined` on the lobby channel. */
    method OnPlayerJoined(p: Player)
      requires Valid()
      modifies this`players
      ensures Valid()
      ensures players == Roster.Joined(old(players), p)
    {
      players := Roster.Joined(players, p);
    }

    /** `player_left` on the lobby channel. */
    method OnPlayerLeft(playerId: int)
      requires Valid()
      modifies this`players
      ensures Valid()
      ensures players == Roster.Left(old(players), playerId)
    {
      players := Roster.Left(players, playerId);
    }

    /** Publishes one STATE_UPDATE on the session channel; the total is the
        number of questions loaded. */
    method BroadcastState(status: Status, index: int, start: Option<int>)
      requires Valid() && UpdateShape(status, index, start)
      modifies this`sent
      ensures Valid()
      ensures sent == old(sent) + [Message(SessionTopic(quizId), StateUpdate(status, index, |questions|, start))]
    {
      sent := sent + [Message(SessionTopic(quizId), StateUpdate(status, index, |questions|, start))];
    }

    /** Moves the quiz to `newStatus`. A reset first deletes the session's
        players (whatever the deletion's outcome, the update follows), then
        the quiz row is updated; only a successful update changes the page
        and publishes. `now` is the clock reading used as a start stamp. */
    method UpdateQuizStatus(newStatus: Status, deleteFails: bool, updateFails: bool, now: int)
      returns (ok: bool)
      requires Valid()
      modifies this
      ensures Valid()
      ensures playerRows
           == if newStatus == Draft && !deleteFails then DeleteSessionPlayers(old(playerRows), quizId)
              else old(playerRows)
      ensures ok == (!updateFails && quizId in old(quizRows))
      ensures !ok ==> && quizRows == old(quizRows) && quiz == old(quiz) && sent == old(sent)
                      && currentQuestionIndex == old(currentQuestionIndex)
                      && questionStartTime == old(questionStartTime) && route == old(route)
      ensures ok ==> && quizRows == old(quizRows)[quizId := Updated(old(quizRows)[quizId], newStatus)]
                     && quiz == Some(quizRows[quizId])
      ensures ok && newStatus == Draft ==>
                && sent == old(sent) + [Message(SessionTopic(quizId), StateUpdate(Finished, -1, |questions|, None))]
                && route == Some(AdminRoute)
                && currentQuestionIndex == old(currentQuestionIndex) && questionStartTime == old(questionStartTime)
      ensures ok && newStatus == Active ==>
                && sent == old(sent) + [Message(SessionTopic(quizId), StateUpdate(Active, 0, |questions|, Some(now)))]
                && currentQuestionIndex == 0 && questionStartTime == Some(now) && route == old(route)
      ensures ok && newStatus != Draft && newStatus != Active ==>
                && sent == old(sent) + [Message(SessionTopic(quizId), StateUpdate(newStatus, -1, |questions|, None))]
                && currentQuestionIndex == old(currentQuestionIndex) && questionStartTime == old(questionStartTime)
                && route == old(route)
      ensures questions == old(questions) && players == old(players)
    {
      if newStatus == Draft && !deleteFails {
        playerRows := DeleteSessionPlayers(playerRows, quizId);
      }
      if updateFails || quizId !in quizRows {
        return false;
      }
      ok := true;
      var row := Updated(quizRows[quizId], newStatus);
      quizRows := quizRows[quizId := row];
      quiz := Some(row);
      if newStatus == Draft {
        BroadcastState(Finished, -1, None);
        route := Some(AdminRoute);
        return;
      }
      if newStatus == Active {
        currentQuestionIndex := 0;
        questionStartTime := Some(now);
        BroadcastState(Active, 0, Some(now));
      } else {
        BroadcastState(newStatus, -1, None);
      }
    }

    /** Advances to the next question, or finishes the quiz when there is
        none. */
    method HandleNextQuestion(updateFails: bool, now: int)
      requires Valid()
      modifies this
      ensures Valid()
      ensures old(currentQuestionIndex) + 1 < |questions| ==>
                && currentQuestionIndex == old(currentQuestionIndex) + 1
                && questionStartTime == Some(now)
                && sent == old(sent) + [Message(SessionTopic(quizId),
                                                StateUpdate(Active, currentQuestionIndex, |questions|, Some(now)))]
                && quiz == old(quiz) && quizRows == old(quizRows)
      ensures old(currentQuestionIndex) + 1 >= |questions| ==>
                && currentQuestionIndex == old(currentQuestionIndex)
                && questionStartTime == old(questionStartTime)
                && if !updateFails && quizId in old(quizRows) then
                     && quizRows == old(quizRows)[quizId := old(quizRows)[quizId].(status := Finished)]
                     && quiz == Some(quizRows[quizId])
                     && sent == old(sent) + [Message(SessionTopic(quizId), StateUpdate(Finished, -1, |questions|, None))]
                   else
                     quizRows == old(quizRows) && quiz == old(quiz) && sent == old(sent)
      ensures playerRows == old(playerRows) && questions == old(questions) && players == old(players)
      ensures route == old(route)
    {
      var nextIndex := currentQuestionIndex + 1;
      if nextIndex < |questions| {
        currentQuestionIndex := nextIndex;
        questionStartTime := Some(now);
        BroadcastState(Active, nextIndex, Some(now));
      } else {
        var _ := UpdateQuizStatus(Finished, false, updateFails, now);
      }
    }

    /** A click on one of the rendered buttons. Whatever the store answers,
        the page's quiz status either stays or follows a lifecycle edge. */
    method Press(c: Control, deleteFails: bool, updateFails: bool, now: int)
      requires Valid() && c in Offered(quiz)
      modifies this
      ensures Valid()
      ensures quiz.Some?
      ensures quiz.value.status == old(quiz).value.status || LifecycleEdge(old(quiz).value.status, quiz.value.status)
      // Start, Stop and Reset go through the status update: when it fails,
      // the page, the quiz table and the log are as they were.
      ensures c != NextQuestion && (updateFails || quizId !in old(quizRows)) ==>
                && quizRows == old(quizRows) && quiz == old(quiz) && sent == old(sent)
                && currentQuestionIndex == old(currentQuestionIndex)
                && questionStartTime == old(questionStartTime) && route == old(route)
      ensures c == StartQuiz && !updateFails && quizId in old(quizRows) ==>
                && quizRows == old(quizRows)[quizId := Updated(old(quizRows)[quizId], Active)]
                && quiz == Some(quizRows[quizId])
                && currentQuestionIndex == 0 && questionStartTime == Some(now)
                && sent == old(sent) + [Message(SessionTopic(quizId), StateUpdate(Active, 0, |questions|, Some(now)))]
                && route == old(route)
      ensures c == StopSession && !updateFails && quizId in old(quizRows) ==>
                && quizRows == old(quizRows)[quizId := Updated(old(quizRows)[quizId], Finished)]
                && quiz == Some(quizRows[quizId])
                && currentQuestionIndex == old(currentQuestionIndex)
                && questionStartTime == old(questionStartTime)
                && sent == old(sent) + [Message(SessionTopic(quizId), StateUpdate(Finished, -1, |questions|, None))]
                && route == old(route)
      ensures c == ResetSession && !updateFails && quizId in old(quizRows) ==>
                && quizRows == old(quizRows)[quizId := Updated(old(quizRows)[quizId], Draft)]
                && quiz == Some(quizRows[quizId])
                && currentQuestionIndex == old(currentQuestionIndex)
                && questionStartTime == old(questionStartTime)
                && sent == old(sent) + [Message(SessionTopic(quizId), StateUpdate(Finished, -1, |questions|, None))]
                && route == Some(AdminRoute)
      // Only Reset deletes the session's players, and it does so whatever
      // the status update's outcome.
      ensures playerRows == if c == ResetSession && !deleteFails then DeleteSessionPlayers(old(playerRows), quizId)
                            else old(playerRows)
      // Next with a question left advances locally; at the last question it
      // finishes the quiz as Stop does.
      ensures c == NextQuestion && old(currentQuestionIndex) + 1 < |questions| ==>
                && currentQuestionIndex == old(currentQuestionIndex) + 1
                && questionStartTime == Some(now)
                && sent == old(sent) + [Message(SessionTopic(quizId),
                                                StateUpdate(Active, currentQuestionIndex, |questions|, Some(now)))]
                && quiz == old(quiz) && quizRows == old(quizRows) && route == old(route)
      ensures c == NextQuestion && old(currentQuestionIndex) + 1 >= |questions| ==>
                && currentQuestionIndex == old(currentQuestionIndex)
                && questionStartTime == old(questionStartTime) && route == old(route)
                && if !updateFails && quizId in old(quizRows) then
                     && quizRows == old(quizRows)[quizId := Updated(old(quizRows)[quizId], Finished)]
                     && quiz == Some(quizRows[quizId])
                     && sent == old(sent) + [Message(SessionTopic(quizId), StateUpdate(Finished, -1, |questions|, None))]
                   else
                     quizRows == old(quizRows) && quiz == old(quiz) && sent == old(sent)
      ensures questions == old(questions) && players == old(players)
    {
      match c
      case StartQuiz => var _ := UpdateQuizStatus(Active, deleteFails, updateFails, now);
      case NextQuestion => HandleNextQuestion(updateFails, now);
      case StopSession => var _ := UpdateQuizStatus(Finished, deleteFails, updateFails, now);
      case ResetSession => var _ := UpdateQuizStatus(Draft, deleteFails, updateFails, now);
    }
  }
}
