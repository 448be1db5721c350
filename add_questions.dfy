/** The quiz editor: the settings reducer that keeps the pacing options
    apart, the normalisation applied when the details are saved, and the
    question dialog's option editing and save check. */
module AddQuestionsPage {
  import opened Common

  // ---------------------------------------------------------------------
  // Quiz details
  // ---------------------------------------------------------------------

  /** The details form. Timers hold the text of their number inputs; ""
      stands for an empty input and for any other falsy value. */
  datatype Details = Details(
    title: string,
    description: string,
    shuffleQuestions: bool,
    adminPaced: bool,
    perQuestionTimer: string,
    overallTimer: string)

  /** One change event of the form: a text input's new value or a
      checkbox's new checked state. */
  datatype Change =
    | TitleInput(text: string)
    | DescriptionInput(text: string)
    | ShuffleBox(checked: bool)
    | AdminPacedBox(checked: bool)
    | PerQuestionTimerInput(text: string)
    | OverallTimerInput(text: string)

  /** Admin pacing and shuffling are not both on. */
  predicate NoShuffleConflict(s: Details) {
    !(s.adminPaced && s.shuffleQuestions)
  }

  /** Admin pacing and an overall timer are not both set. */
  predicate NoTimerConflict(s: Details) {
    !(s.adminPaced && s.overallTimer != "")
  }

  /** `{ ...prev, [name]: value }`: the field named by the event takes its
      new value. */
  function Assign(s: Details, c: Change): Details {
    match c
    case TitleInput(v) => s.(title := v)
    case DescriptionInput(v) => s.(description := v)
    case ShuffleBox(b) => s.(shuffleQuestions := b)
    case AdminPacedBox(b) => s.(adminPaced := b)
    case PerQuestionTimerInput(v) => s.(perQuestionTimer := v)
    case OverallTimerInput(v) => s.(overallTimer := v)
  }

  /** The field named by the event takes its new value; switching admin
      pacing on clears shuffling and the overall timer, and switching
      shuffling on or typing an overall timer switches admin pacing off. */
  function ChangeDetails(s: Details, c: Change): (r: Details)
    // A text edit or a checkbox switched off changes its own field only.
    ensures c.TitleInput? ==> r == s.(title := c.text)
    ensures c.DescriptionInput? ==> r == s.(description := c.text)
    ensures c.PerQuestionTimerInput? ==> r == s.(perQuestionTimer := c.text)
    ensures c == AdminPacedBox(false) ==> r == s.(adminPaced := false)
    ensures c == ShuffleBox(false) ==> r == s.(shuffleQuestions := false)
    ensures c == OverallTimerInput("") ==> r == s.(overallTimer := "")
    // A pacing choice also switches off the options it excludes.
    ensures c == AdminPacedBox(true) ==> r == s.(adminPaced := true, shuffleQuestions := false, overallTimer := "")
    ensures c == ShuffleBox(true) ==> r == s.(shuffleQuestions := true, adminPaced := false)
    ensures c.OverallTimerInput? && c.text != "" ==> r == s.(overallTimer := c.text, adminPaced := false)
    ensures NoShuffleConflict(s) ==> NoShuffleConflict(r)
    ensures NoTimerConflict(s) ==> NoTimerConflict(r)
  {
    var withValue := Assign(s, c);
    var paced := if c == AdminPacedBox(true) then withValue.(shuffleQuestions := false, overallTimer := "") else withValue;
    if c == ShuffleBox(true) || (c.OverallTimerInput? && c.text != "") then paced.(adminPaced := false) else paced
  }

  /** The form after a series of change events, in order. */
  function ChangeAll(s: Details, cs: seq<Change>): Details
    decreases |cs|
  {
    if cs == [] then s else ChangeAll(ChangeDetails(s, cs[0]), cs[1..])
  }

  /** No series of edits makes admin pacing and shuffling both on. */
  lemma {:induction false} ChangesKeepNoShuffleConflict(s: Details, cs: seq<Change>)
    requires NoShuffleConflict(s)
    ensures NoShuffleConflict(ChangeAll(s, cs))
    decreases |cs|
  {
    if cs != [] {
      ChangesKeepNoShuffleConflict(ChangeDetails(s, cs[0]), cs[1..]);
    }
  }

  /** No series of edits makes admin pacing and an overall timer both set. */
  lemma {:induction false} ChangesKeepNoTimerConflict(s: Details, cs: seq<Change>)
    requires NoTimerConflict(s)
    ensures NoTimerConflict(ChangeAll(s, cs))
    decreases |cs|
  {
    if cs != [] {
      ChangesKeepNoTimerConflict(ChangeDetails(s, cs[0]), cs[1..]);
    }
  }

  /** Whatever the form held before, the last pacing choice made leaves
      both exclusions in force. */
  lemma PacingChoiceRestoresExclusion(s: Details, c: Change)
    requires c == AdminPacedBox(true) || c == ShuffleBox(true) || (c.OverallTimerInput? && c.text != "")
    ensures NoShuffleConflict(ChangeDetails(s, c)) && NoTimerConflict(ChangeDetails(s, c))
  {
  }

  /** The record the details form saves. */
  datatype SavedDetails = SavedDetails(
    title: string,
    description: string,
    adminId: string,
    shuffleQuestions: bool,
    adminPaced: bool,
    perQuestionTimer: Option<string>,
    overallTimer: Option<string>)

  /** `value || null`: an empty timer is saved as null. */
  function OrNull(v: string): (r: Option<string>)
    ensures r.None? <==> v == ""
    ensures r.Some? ==> r.value == v
  {
    if v == "" then None else Some(v)
  }

  /** `value || ''`: how a saved timer is shown again in its input. */
  function OrEmpty(v: Option<string>): string {
    if v.Some? then v.value else ""
  }

  /** The details as written to the quizzes table. */
  function DetailsToSave(s: Details, adminId: string): (r: SavedDetails)
    ensures r.perQuestionTimer == OrNull(s.perQuestionTimer) && r.overallTimer == OrNull(s.overallTimer)
    ensures r.title == s.title && r.description == s.description && r.adminId == adminId
    ensures r.shuffleQuestions == s.shuffleQuestions && r.adminPaced == s.adminPaced
  {
    SavedDetails(s.title, s.description, adminId, s.shuffleQuestions, s.adminPaced,
                 OrNull(s.perQuestionTimer), OrNull(s.overallTimer))
  }

  /** Saving loses nothing the form shows: each timer input reads back as
      typed, and the pacing exclusions carry over to the saved record. */
  lemma SavedDetailsReadBack(s: Details, adminId: string)
    ensures OrEmpty(DetailsToSave(s, adminId).perQuestionTimer) == s.perQuestionTimer
    ensures OrEmpty(DetailsToSave(s, adminId).overallTimer) == s.overallTimer
    ensures NoShuffleConflict(s) && NoTimerConflict(s) ==>
              var r := DetailsToSave(s, adminId);
              !(r.adminPaced && r.shuffleQuestions) && (r.adminPaced ==> r.overallTimer.None?)
  {
  }

  // ---------------------------------------------------------------------
  // Question dialog
  // ---------------------------------------------------------------------

  /** A question as handed to the dialog and back to the page; the add
      dialog starts from a record with every field absent. */
  datatype QuestionRecord = QuestionRecord(
    id: Option<int>,
    quizId: Option<string>,
    text: Option<string>,
    options: Option<seq<string>>,
    correctAnswer: Option<string>)

  /** The record the add dialog is opened with. */
  const NoQuestion: QuestionRecord := QuestionRecord(None, None, None, None, None)

  /** The options of a question that has none yet. */
  const BlankOptions: seq<string> := ["", "", "", ""]

  /** The dialog's state: the record it was opened with and its three inputs. */
  datatype QuestionForm = QuestionForm(initial: QuestionRecord, text: string, options: seq<string>, correctAnswer: string)

  /** The dialog as opened: each input starts from the record, or from its
      empty default when the record has no value. */
  function Open(initial: QuestionRecord): (d: QuestionForm)
    ensures d.initial == initial
    ensures d.text == OrEmpty(initial.text) && d.correctAnswer == OrEmpty(initial.correctAnswer)
    ensures d.options == if initial.options.Some? then initial.options.value else BlankOptions
  {
    QuestionForm(initial, OrEmpty(initial.text),
          if initial.options.Some? then initial.options.value else BlankOptions,
          OrEmpty(initial.correctAnswer))
  }

  /** A new question starts with exactly four empty options. */
  lemma NewQuestionHasFourBlankOptions()
    ensures |Open(NoQuestion).options| == 4
    ensures forall i :: 0 <= i < 4 ==> Open(NoQuestion).options[i] == ""
  {
  }

  /** The options with the one at `index` replaced. */
  function Edited(options: seq<string>, index: nat, value: string): (r: seq<string>)
    requires index < |options|
    ensures |r| == |options| && r[index] == value
    ensures forall j :: 0 <= j < |options| && j != index ==> r[j] == options[j]
  {
    options[index := value]
  }

  /** Copies the options into a fresh array and assigns one slot. */
  method ChangeOption(options: seq<string>, index: nat, value: string) returns (r: seq<string>)
    requires index < |options|
    ensures r == Edited(options, index, value)
  {
    var copy := new string[|options|](j requires 0 <= j < |options| => options[j]);
    copy[index] := value;
    r := copy[..];
  }

  /** The save check and the record handed to the page: refused unless the
      correct answer is one of the options; otherwise the opening record
      with the text, options and correct answer replaced. */
  function Save(d: QuestionForm): (r: Option<QuestionRecord>)
    ensures r.Some? <==> d.correctAnswer in d.options
    ensures r.Some? ==> && r.value.id == d.initial.id && r.value.quizId == d.initial.quizId
                        && r.value.text == Some(d.text) && r.value.options == Some(d.options)
                        && r.value.correctAnswer == Some(d.correctAnswer)
  {
    if d.correctAnswer !in d.options then None
    else Some(d.initial.(text := Some(d.text), options := Some(d.options), correctAnswer := Some(d.correctAnswer)))
  }

  /** A saved question can be reopened and saved again unchanged. */
  lemma ReopenAndSaveIsIdentity(d: QuestionForm)
    requires Save(d).Some?
    ensures Open(Save(d).value).options == d.options
    ensures Save(Open(Save(d).value)) == Save(d)
  {
    var q := Save(d).value;
    var d' := Open(q);
    assert d'.text == d.text && d'.options == d.options && d'.correctAnswer == d.correctAnswer;
    assert d'.initial == q;
  }

  /** The correct answer is kept by value: rewriting the one option that
      held it leaves the dialog unable to save until an answer is picked
      again. */
  lemma EditingCorrectOptionBlocksSave(d: QuestionForm, index: nat, value: string)
    requires index < |d.options| && d.options[index] == d.correctAnswer && value != d.correctAnswer
    requires forall j :: 0 <= j < |d.options| && j != index ==> d.options[j] != d.correctAnswer
    ensures Save(d.(options := Edited(d.options, index, value))).None?
  {
    var edited := Edited(d.options, index, value);
    assert forall j :: 0 <= j < |edited| ==> edited[j] != d.correctAnswer;
  }
}
