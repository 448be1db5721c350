/** The player's lobby page: where it sends a player on arrival, when its
    join button is enabled, and what a join writes to the players table,
    to the browser's local storage and to the lobby channel. */
module LobbyPage {
  import opened Common

  /** What the page does once the quiz has been fetched. */
  datatype Arrival = SendHome | SendToPlay(quizId: string) | ShowQuiz(title: string, description: string)

  /** The arrival rule; `row` is absent when the fetch failed or found no
      quiz. Only an active quiz redirects: a draft, deployed or finished
      quiz is shown with its join form. */
  function FetchQuiz(quizId: string, row: Option<QuizRow>): (r: Arrival)
    ensures r == SendHome <==> row.None?
    ensures r == SendToPlay(quizId) <==> row.Some? && row.value.status == Active
    ensures r.ShowQuiz? <==> row.Some? && row.value.status != Active
    ensures r.ShowQuiz? ==> r.title == row.value.title && r.description == row.value.description
  {
    if row.None? then SendHome
    else if row.value.status == Active then SendToPlay(quizId)
    else ShowQuiz(row.value.title, row.value.description)
  }

  /** The join button is enabled only once the rules are acknowledged, a
      name is typed and no join is in flight. */
  function JoinEnabled(isReady: bool, name: string, loading: bool): (r: bool)
    ensures r <==> isReady && name != "" && !loading
  {
    !(!isReady || name == "" || loading)
  }

  function Digit(d: nat): (c: char)
    requires d < 10
    ensures '0' <= c <= '9' && c as int - '0' as int == d
  {
    ('0' as int + d) as char
  }

  /** The number a string of decimal digits denotes, most significant
      digit first. */
  function DecimalValue(s: string): nat
    requires forall i :: 0 <= i < |s| ==> '0' <= s[i] <= '9'
    decreases |s|
  {
    if s == [] then 0 else DecimalValue(s[..|s| - 1]) * 10 + (s[|s| - 1] as int - '0' as int)
  }

  /** Decimal text of a natural number, most significant digit first, with
      no leading zero. */
  function NatToDecimal(n: nat): (r: string)
    ensures |r| >= 1 && forall i :: 0 <= i < |r| ==> '0' <= r[i] <= '9'
    ensures DecimalValue(r) == n
    ensures r[0] == '0' ==> r == "0"
    decreases n
  {
    if n < 10 then [Digit(n)]
    else
      var r := NatToDecimal(n / 10) + [Digit(n % 10)];
      assert r[..|r| - 1] == NatToDecimal(n / 10);
      r
  }

  /** `String(n)` for an integer, as local storage converts the values it
      is given: a minus sign before the digits of a negative number. */
  function IntToDecimal(i: int): (r: string)
    ensures i >= 0 ==> |r| >= 1 && (forall k :: 0 <= k < |r| ==> '0' <= r[k] <= '9') && DecimalValue(r) == i
    ensures i >= 0 ==> (r[0] == '0' ==> r == "0")
    ensures i < 0 ==> |r| >= 2 && r[0] == '-' && (forall k :: 1 <= k < |r| ==> '0' <= r[k] <= '9')
                      && DecimalValue(r[1..]) == -i && r[1] != '0'
  {
    if i < 0 then
      var r := "-" + NatToDecimal(-i);
      assert r[1..] == NatToDecimal(-i);
      r
    else NatToDecimal(i)
  }

  const SessionKey: string := "quiz_session_id"
  const PlayerIdKey: string := "quiz_player_id"
  const PlayerNameKey: string := "quiz_player_name"

  /** The per-quiz key that records the player's question index. */
  function IndexKey(quizId: string): (k: string)
    ensures |k| > 0 && k[|k| - 1] == 'x'
  {
    "quiz_" + quizId + "_index"
  }

  /** Local storage after a successful join, the four writes in order. */
  function JoinedStorage(storage: map<string, string>, quizId: string, p: Player): map<string, string> {
    storage[SessionKey := quizId][PlayerIdKey := IntToDecimal(p.id)][PlayerNameKey := p.name][IndexKey(quizId) := "0"]
  }

  /** A join stores exactly four keys, the index as "0", and leaves every
      other key as it was. */
  lemma JoinedStorageContents(storage: map<string, string>, quizId: string, p: Player)
    ensures var r := JoinedStorage(storage, quizId, p);
            && r.Keys == storage.Keys + {SessionKey, PlayerIdKey, PlayerNameKey, IndexKey(quizId)}
            && r[SessionKey] == quizId && r[PlayerIdKey] == IntToDecimal(p.id)
            && r[PlayerNameKey] == p.name && r[IndexKey(quizId)] == "0"
            && forall k :: k in storage && k !in {SessionKey, PlayerIdKey, PlayerNameKey, IndexKey(quizId)} ==>
                 r[k] == storage[k]
  {
    var k := IndexKey(quizId);
    assert SessionKey[|SessionKey| - 1] == 'd' && PlayerIdKey[|PlayerIdKey| - 1] == 'd';
    assert PlayerNameKey[|PlayerNameKey| - 1] == 'e';
    assert k != SessionKey && k != PlayerIdKey && k != PlayerNameKey;
  }

  class Lobby {
    const quizId: string
    // The players table.
    var playerRows: map<int, Player>
    // The browser's local storage.
    var storage: map<string, string>
    // Every message the page has handed to a channel, oldest first.
    var sent: seq<Message>
    var loading: bool
    var route: Option<Route>

    constructor (quizId: string, playerRows: map<int, Player>, storage: map<string, string>)
      ensures this.quizId == quizId && this.playerRows == playerRows && this.storage == storage
      ensures sent == [] && !loading && route == None
    {
      this.quizId := quizId;
      this.playerRows := playerRows;
      this.storage := storage;
      sent := [];
      loading := false;
      route := None;
    }

    /** The join handler. The insert of the new row (id `newId`, score 0)
        fails when the store reports an error or the id is taken; a failed
        insert writes nothing and re-enables the button; a successful one
        stores the player locally, announces it on the lobby channel and
        moves on to the play page. */
    method HandleJoin(name: string, insertFails: bool, newId: int)
      modifies this
      ensures name == "" ==>
                && playerRows == old(playerRows) && storage == old(storage) && sent == old(sent)
                && loading == old(loading) && route == old(route)
      ensures name != "" && (insertFails || newId in old(playerRows)) ==>
                && playerRows == old(playerRows) && storage == old(storage) && sent == old(sent)
                && !loading && route == old(route)
      ensures name != "" && !insertFails && newId !in old(playerRows) ==>
                var p := Player(newId, quizId, name, 0, true);
                && playerRows == old(playerRows)[newId := p]
                && storage == JoinedStorage(old(storage), quizId, p)
                && sent == old(sent) + [Message(LobbyTopic(quizId), PlayerJoined(p))]
                && loading && route == Some(PlayRoute(quizId))
    {
      if name == "" {
        return;
      }
      loading := true;
      if insertFails || newId in playerRows {
        loading := false;
        return;
      }
      var p := Player(newId, quizId, name, 0, true);
      playerRows := playerRows[newId := p];
      storage := storage[SessionKey := quizId];
      storage := storage[PlayerIdKey := IntToDecimal(p.id)];
      storage := storage[PlayerNameKey := p.name];
      storage := storage[IndexKey(quizId) := "0"];
      sent := sent + [Message(LobbyTopic(quizId), PlayerJoined(p))];
      route := Some(PlayRoute(quizId));
    }
  }
}
