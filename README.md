# quiz-um session core, modelled in Dafny

quiz-um runs live multiple-choice quizzes. An admin deploys a quiz, players
join it with a six-character code, and the admin's live page then starts the
session, advances it question by question (in admin-paced mode), stops it
and resets it. The `quiz-manager` edge function serves `SUBMIT_ANSWER`: it
judges an answer and awards points. No page in the repository sends
`SUBMIT_ANSWER`, because the play page's option buttons have no handler.
The controller publishes STATE_UPDATE on `quiz-session-<id>` and listens on `live-lobby-<id>` for `player_joined`,
`player_left` and `player_answered`; the lobby page sends `player_joined` and
the edge function sends `player_answered` there. No code in the repository
sends `player_left`.

This project models the decision and update logic of those pages and of the
edge function:

- `common.dfy` (module `Common`): the rows of the quizzes, questions and
  players tables, the broadcast messages and the routes.
- `live_lobby.dfy` (module `LiveLobbyPage`): the controller page as a class.
  Its fields are the page state (quiz row, questions, current index, start
  stamp, roster, route), the quizzes and players tables it writes, and the
  log of messages it has sent. The class covers the control-button guards,
  `updateQuizStatus`, `handleNextQuestion` and `broadcastState`.
- `roster.dfy` (module `Roster`): the two roster updates, append on join and
  filter on leave.
- `admin_timer.dfy` (module `AdminTimer`): the countdown clamp.
- `quiz_manager.dfy` (module `QuizManager`): the request handler. It is a
  method over a questions map, a score map and a message log.
- `add_questions.dfy` (module `AddQuestionsPage`): the settings reducer and
  the null normalisation on save. It also covers the question dialog's
  initial values, its option editing (an array copy plus one assignment) and
  its save check.
- `home.dfy` (module `HomePage`): the join-code admission decision.
- `lobby.dfy` (module `LobbyPage`): the arrival redirect, the join-button
  guard, and the join handler. The join handler is a class over the players
  table, local storage and the message log.

The store, the channels and the clock are not called. Tables are maps or
sequences of rows. A failing store call is a boolean parameter. The clock is
an integer millisecond reading passed in.

The model follows the code as written; in particular:

- Start does not check that the quiz has questions. It broadcasts index 0
  whatever the question count.
- The edge function has no elapsed-time or slack check. A late answer is
  judged on content only.
- A reset broadcasts its "finished" notice after the row update succeeds,
  not before.
- Deploy and the join-code allocator do not appear in the repository's
  code, so they are not modelled.
- Answers are not deduplicated. `QuizManager.DuplicateSubmissionAwardsTwice`
  shows that the same correct answer, sent twice, is awarded twice.
- The lobby page redirects only active quizzes. A draft, deployed or finished
  quiz reached by URL shows its join form. Only the home page's code lookup
  insists on `deployed`.

## Model

| member | source | states |
|---|---|---|
| Roster.Joined | src/pages/LiveLobbyPage.jsx:51-53 | a join appends exactly the payload player at the end and keeps every earlier entry in place |
| Roster.Left | src/pages/LiveLobbyPage.jsx:54-56 | a departure removes every entry whose id is the payload id and keeps every other entry with its multiplicity |
| Roster.LeftAppend | src/pages/LiveLobbyPage.jsx:55 | removal keeps the order of the remaining entries (filtering a concatenation filters each part) |
| Roster.LeftAbsent | src/pages/LiveLobbyPage.jsx:55 | a departure of an id no entry has leaves the roster unchanged |
| Roster.LeftAfterJoined | src/pages/LiveLobbyPage.jsx:51-56 | a departure after a join drops the joined player exactly when it has the departing id |
| Roster.LeaveUndoesJoin | src/pages/LiveLobbyPage.jsx:51-56 | a join followed by the same player's departure restores the roster when the id was new |
| AdminTimer.ElapsedSeconds | src/pages/LiveLobbyPage.jsx:12 | elapsed whole seconds are the floor of milliseconds over 1000 |
| AdminTimer.Remaining | src/pages/LiveLobbyPage.jsx:12-14 | time left is never negative, never above the duration for non-negative elapsed time, zero exactly when the window has passed, and otherwise the duration less the whole seconds elapsed |
| AdminTimer.Shown | src/pages/LiveLobbyPage.jsx:7-17 | without a start stamp or with a zero duration the timer keeps showing the duration; otherwise it shows the clamped remaining time |
| AdminTimer.RemainingMonotone | src/pages/LiveLobbyPage.jsx:12-14 | the countdown never increases as time passes |
| LiveLobbyPage.Offered | src/pages/LiveLobbyPage.jsx:124-127 | Start only when deployed, Next only when active and admin-paced, Stop only when active, Reset only when finished |
| LiveLobbyPage.DeleteSessionPlayers | src/pages/LiveLobbyPage.jsx:81 | the delete removes exactly the player rows of this session and keeps every other row unchanged |
| LiveLobbyPage.Controller.constructor | src/pages/LiveLobbyPage.jsx:25-29 | the page starts with no quiz, no questions, an empty roster, index -1 and no start stamp |
| LiveLobbyPage.Controller.FetchQuizAndQuestions | src/pages/LiveLobbyPage.jsx:36-43 | a successful quiz fetch replaces the local quiz and, for an active quiz, resets the index to 0; a failed or empty fetch leaves both as they were; loaded questions replace the list |
| LiveLobbyPage.Controller.FetchPlayers | src/pages/LiveLobbyPage.jsx:31-34 | a query answer replaces the roster with this session's players; no answer leaves it as it was |
| LiveLobbyPage.Controller.OnPlayerJoined | src/pages/LiveLobbyPage.jsx:51-53 | the roster becomes Roster.Joined of the old roster |
| LiveLobbyPage.Controller.OnPlayerLeft | src/pages/LiveLobbyPage.jsx:54-56 | the roster becomes Roster.Left of the old roster |
| LiveLobbyPage.Controller.BroadcastState | src/pages/LiveLobbyPage.jsx:63-75 | exactly one STATE_UPDATE is appended on the session channel, and its totalQuestions is the number of loaded questions |
| LiveLobbyPage.Controller.UpdateQuizStatus | src/pages/LiveLobbyPage.jsx:77-103 | a reset deletes the session's players before the update, whether or not the update succeeds; a failed update leaves quiz, index, start stamp and log unchanged; a successful reset clears the join code and broadcasts (finished, -1, null); a start sets index 0 and stamps the start time and broadcasts (active, 0, start); any other status broadcasts (status, -1, null) |
| LiveLobbyPage.Controller.HandleNextQuestion | src/pages/LiveLobbyPage.jsx:105-115 | with a question left, the index becomes exactly index+1 and (active, index+1, now) is broadcast; otherwise the quiz is finished through the status update |
| LiveLobbyPage.Controller.Press | src/pages/LiveLobbyPage.jsx:123-128 | a rendered button either keeps the page's status or follows deployed to active, active to finished, or finished to draft; each button's whole new state is given: Start stamps index 0 and broadcasts active, Stop broadcasts finished, Reset deletes the session's players, broadcasts finished and returns to the admin page, Next advances or finishes at the last question, and a failed status update leaves the page, the quiz table and the log as they were |
| QuizManager.Submission | supabase/functions/quiz-manager/index.ts:8-16 | a request reaches the SUBMIT_ANSWER branch exactly when it has a body with that action and a payload |
| QuizManager.Judge | supabase/functions/quiz-manager/index.ts:18-27 | a missing question gives no verdict; otherwise the answer is correct exactly when it equals the stored answer |
| QuizManager.IncrementScore | supabase/functions/quiz-manager/index.ts:30-33 | the increment adds the amount to one player's score and to no other, and creates no row |
| QuizManager.Handle | supabase/functions/quiz-manager/index.ts:5-52 | a preflight answers 'ok' with no lookup, award or broadcast; a missing payload throws; another action gives 400 'Invalid action', and a missing question or a failed lookup gives 404 'Question not found', both with no score change and no broadcast; a judged answer replies {correct} by exact equality and sends exactly one player_answered carrying only the player id; the submitter's score grows by 10 exactly when the reply says correct and the increment call succeeds, so a failed increment still replies correct; no other score changes |
| QuizManager.ScoreAccumulates | supabase/functions/quiz-manager/index.ts:27-33 | over any series of submissions a player's score grows by exactly 10 per correct answer of that player |
| QuizManager.DuplicateSubmissionAwardsTwice | supabase/functions/quiz-manager/index.ts:30-33 | the same correct submission sent twice is awarded twice |
| AddQuestionsPage.ChangeDetails | src/pages/AddQuestionsPage.jsx:77-91 | the whole new form for each event: a text edit, or a checkbox switched off, changes its own field only; switching admin pacing on also clears shuffling and the overall timer; switching shuffling on, or typing an overall timer, also switches admin pacing off; each exclusion that holds before a change holds after it |
| AddQuestionsPage.ChangesKeepNoShuffleConflict | src/pages/AddQuestionsPage.jsx:80-90 | no series of changes makes admin pacing and shuffling both on |
| AddQuestionsPage.ChangesKeepNoTimerConflict | src/pages/AddQuestionsPage.jsx:80-90 | no series of changes makes admin pacing and an overall timer both set |
| AddQuestionsPage.PacingChoiceRestoresExclusion | src/pages/AddQuestionsPage.jsx:82-88 | after a pacing choice both exclusions hold, whatever the form held before |
| AddQuestionsPage.OrNull | src/pages/AddQuestionsPage.jsx:99 | an empty timer is saved as null and a non-empty one as typed |
| AddQuestionsPage.DetailsToSave | src/pages/AddQuestionsPage.jsx:96-100 | the saved record copies title, description, pacing flags and admin id, and normalises both timers |
| AddQuestionsPage.SavedDetailsReadBack | src/pages/AddQuestionsPage.jsx:99 | a saved timer reads back in its input as typed, and the pacing exclusions carry over to the saved record |
| AddQuestionsPage.Open | src/pages/AddQuestionsPage.jsx:9-11 | the dialog's inputs start from the record, or from '' and four empty options when the record has none |
| AddQuestionsPage.NewQuestionHasFourBlankOptions | src/pages/AddQuestionsPage.jsx:10 | a new question starts with exactly four empty options |
| AddQuestionsPage.Edited | src/pages/AddQuestionsPage.jsx:22-26 | editing option i keeps the length, sets element i and leaves every other element unchanged |
| AddQuestionsPage.ChangeOption | src/pages/AddQuestionsPage.jsx:22-26 | the array copy with one slot assigned yields exactly Edited of the old options |
| AddQuestionsPage.Save | src/pages/AddQuestionsPage.jsx:14-20 | saving is refused unless the correct answer is one of the options; a saved question is the opening record with only text, options and correct answer replaced |
| AddQuestionsPage.ReopenAndSaveIsIdentity | src/pages/AddQuestionsPage.jsx:9-18 | a saved question reopened and saved again is unchanged |
| AddQuestionsPage.EditingCorrectOptionBlocksSave | src/pages/AddQuestionsPage.jsx:16-25 | rewriting the only option that held the correct answer makes the save refused |
| HomePage.TypedCode | src/pages/HomePage.jsx:45 | the code input holds what was typed when it is at most six characters, and otherwise exactly its first six characters |
| HomePage.UpperChar | src/pages/HomePage.jsx:19 | lower-case ASCII letters map to their capitals and every other character is kept |
| HomePage.Upper | src/pages/HomePage.jsx:19 | upper-casing keeps the length and upper-cases each character |
| HomePage.UpperIdempotent | src/pages/HomePage.jsx:19 | upper-casing twice is upper-casing once |
| HomePage.WithJoinCode | src/pages/HomePage.jsx:16-20 | the lookup yields exactly the rows whose join code is the given code |
| HomePage.WithJoinCodeCounts | src/pages/HomePage.jsx:16-20 | the lookup keeps each matching row as often as the table holds it and drops every other row |
| HomePage.SingleMatch | src/pages/HomePage.jsx:16-20 | when one row alone carries the code, the lookup yields exactly that row |
| HomePage.NoMatch | src/pages/HomePage.jsx:16-20 | when no row carries the code, the lookup yields nothing |
| HomePage.FindQuiz | src/pages/HomePage.jsx:11-32 | an empty code performs no lookup; a failed lookup or anything but one matching row is "not found"; admission names a deployed row with the upper-cased code; a rejection names a row that is not deployed |
| HomePage.FindIgnoresCase | src/pages/HomePage.jsx:19 | the outcome does not depend on the case the code was typed in |
| HomePage.UniqueCodeAdmission | src/pages/HomePage.jsx:24-31 | a uniquely coded quiz leads to /lobby/<its id> exactly when it is deployed; draft, active and finished quizzes are rejected |
| LobbyPage.FetchQuiz | src/pages/LobbyPage.jsx:15-19 | a failed fetch or missing quiz sends the user home; an active quiz redirects to /play/<id>; any other quiz is shown |
| LobbyPage.NatToDecimal | src/pages/LobbyPage.jsx:36 | the stored player id is a string of decimal digits with no leading zero whose value is the id |
| LobbyPage.IntToDecimal | src/pages/LobbyPage.jsx:36 | a non-negative id is stored as its decimal digits, non-empty and with no leading zero; a negative one as a minus sign followed by the digits of its magnitude, again with no leading zero |
| LobbyPage.JoinEnabled | src/pages/LobbyPage.jsx:64 | the join button is enabled exactly when the rules are acknowledged, a name is typed and no join is in flight |
| LobbyPage.IndexKey | src/pages/LobbyPage.jsx:38 | the per-quiz index key ends in a character that none of the other three keys ends in |
| LobbyPage.JoinedStorageContents | src/pages/LobbyPage.jsx:35-38 | a join stores exactly the session id, player id, player name and the quiz's index key, the last as "0", and keeps every other key |
| LobbyPage.Lobby.constructor | src/pages/LobbyPage.jsx:9-12 | the page starts with nothing sent, not loading and not navigated |
| LobbyPage.Lobby.HandleJoin | src/pages/LobbyPage.jsx:24-50 | an empty name does nothing; a failed insert writes no keys, sends nothing and resets loading; a successful insert adds the row, writes the four keys, sends player_joined carrying the inserted player and navigates to /play/<id> |

## Left out

- Deploy and the join-code allocator do not appear in the repository's code, so they are not modelled. Neither is an elapsed-time or slack check in the edge function, shuffle-order persistence, answered-question resume or duplicate-submission deduplication.
- The store calls, the broadcast channels, `alert`, `window.confirm`, local storage and navigation are not real I/O here. They are maps, sequences, boolean failure flags and a route field.
- A failed broadcast send is not modelled: every send is appended to the log.
- The handlers are async, and two clicks can interleave between awaits. Each handler is modelled as one atomic step.
- Timestamps are integer milliseconds, not ISO strings. The interval that refreshes the countdown is left to the caller, and so is the countdown's stale value between a new start stamp and the next tick.
- HomePage.Upper, HomePage.UpperChar: model `toUpperCase` for ASCII letters only. Other scripts' case mappings (for example 'ß' to "SS") are not modelled.
- LiveLobbyPage.Controller.FetchPlayers: takes the query result as a parameter. The store's row order is not modelled. The same holds for the ordered question list in FetchQuizAndQuestions.
- LiveLobbyPage.Controller.FetchQuizAndQuestions: the page selects only some columns, but the model keeps the whole row.
- QuizManager.IncrementScore: the body of the `increment_score` database function is not part of this model. It is taken to update the one existing row, and to do nothing when the player has no row.
- QuizManager.Handle: the failure flags cover the question lookup and the `increment_score` call; `ScoresAfterAll` and `ScoreAccumulates` describe a series in which every store call succeeds. Strict equality of non-string JSON values (numbers, null) is not modelled; answers are strings. A body that is not JSON and a missing payload both end in the runtime's uncaught-error answer.
- LobbyPage.Lobby.HandleJoin: the new row's score is taken to be the column default 0. The id is a parameter, and the insert fails when that id is already taken.
- AddQuestionsPage: the form timers are strings, and "" stands for every falsy value (null, '', 0). The browser's `required` check, which blocks submission of empty inputs before `handleSave` runs, is not modelled.
- AddQuestionsPage: `fetchQuizData` and the insert, update and delete calls of `handleSaveDetails`, `handleAddQuestion`, `handleUpdateQuestion` and `handleDeleteQuestion` are store I/O and are left out. The normalisation and the save check that precede them are modelled.
- Rendering and routing (src/App.jsx, src/main.jsx) are left out. So are the account pages and the dashboard, whose delete-by-id filter has the same shape as Roster.Left.
- The pages src/pages/PlayQuizPage.jsx, src/pages/PlayerPage.jsx and src/pages/AdminPage.jsx are left out. They are out of step with the controller: none of them listens on `quiz-session-<id>`. The edge function answers PlayerPage's JOIN and PlayQuizPage's PLAYER_JOIN with 400 'Invalid action'. AdminPage's START carries no payload, so destructuring it throws and the request ends in the runtime's uncaught-error answer.
