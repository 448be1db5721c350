/** Entities shared by the pages and the edge function: the rows of the
    quizzes, questions and players tables, the broadcast messages and the
    routes the pages navigate to. */
module Common {

  datatype Option<T> = None | Some(value: T)

  /** Lifecycle status of a quiz, which doubles as the live session. */
  datatype Status = Draft | Deployed | Active | Finished

  /** A row of the quizzes table. Ids are the text that appears in URLs and
      channel names. Timers are absent when the column is null. */
  datatype QuizRow = QuizRow(
    id: string,
    title: string,
    description: string,
    status: Status,
    joinCode: Option<string>,
    shuffleQuestions: bool,
    adminPaced: bool,
    perQuestionTimer: Option<int>,
    overallTimer: Option<int>)

  /** A row of the questions table. */
  datatype Question = Question(
    id: int,
    quizId: string,
    text: string,
    options: seq<string>,
    correctAnswer: string)

  /** A row of the players table; `sessionId` is the id of the quiz joined. */
  datatype Player = Player(id: int, sessionId: string, name: string, score: int, isReady: bool)

  /** The two broadcast channels of a session: `quiz-session-<id>` carries
      STATE_UPDATE from the controller, `live-lobby-<id>` carries roster events. */
  datatype Topic = SessionTopic(quizId: string) | LobbyTopic(quizId: string)

  datatype Event =
    | StateUpdate(status: Status, currentQuestionIndex: int, totalQuestions: int, questionStartTime: Option<int>)
    | PlayerJoined(player: Player)
    | PlayerLeft(playerId: int)
    | PlayerAnswered(playerId: int)

  /** One message handed to the broadcast channel. */
  datatype Message = Message(topic: Topic, event: Event)

  /** Client-side routes that the pages navigate to. */
  datatype Route = HomeRoute | LobbyRoute(quizId: string) | PlayRoute(quizId: string) | AdminRoute
}
