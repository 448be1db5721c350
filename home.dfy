/** The entry page: a player types a join code and is sent to the lobby of
    the quiz it names, provided that quiz is deployed. The quizzes table is
    a sequence of rows; a failure of the lookup itself is a parameter. */
module HomePage {
  import opened Common

  /** The code input accepts at most this many characters. */
  const CodeLength: nat := 6

  /** What the input holds after `typed` is entered: the browser keeps at
      most the first six characters. */
  function TypedCode(typed: string): (r: string)
    ensures |r| <= CodeLength && |r| <= |typed| && r == typed[..|r|]
    ensures |typed| <= CodeLength ==> r == typed
    ensures |typed| > CodeLength ==> r == typed[..CodeLength]
  {
    if |typed| <= CodeLength then typed else typed[..CodeLength]
  }

  /** Upper-casing of one character; only the ASCII letters change. */
  function UpperChar(c: char): (u: char)
    ensures 'a' <= c <= 'z' ==> 'A' <= u <= 'Z' && u as int - c as int == 'A' as int - 'a' as int
    ensures !('a' <= c <= 'z') ==> u == c
  {
    if 'a' <= c <= 'z' then (c as int - 'a' as int + 'A' as int) as char else c
  }

  /** `toUpperCase` over ASCII. */
  function Upper(s: string): (r: string)
    ensures |r| == |s|
    ensures forall i :: 0 <= i < |s| ==> r[i] == UpperChar(s[i])
  {
    seq(|s|, i requires 0 <= i < |s| => UpperChar(s[i]))
  }

  /** Upper-casing twice is upper-casing once. */
  lemma UpperIdempotent(s: string)
    ensures Upper(Upper(s)) == Upper(s)
  {
    forall i | 0 <= i < |s|
      ensures Upper(Upper(s))[i] == Upper(s)[i]
    {
      assert !('a' <= UpperChar(s[i]) <= 'z');
    }
  }

  /** The rows whose join code is `code`, in table order. */
  function WithJoinCode(rows: seq<QuizRow>, code: string): (r: seq<QuizRow>)
    ensures |r| <= |rows|
    ensures forall q :: q in r <==> q in rows && q.joinCode == Some(code)
  {
    if rows == [] then []
    else
      assert rows == [rows[0]] + rows[1..];
      (if rows[0].joinCode == Some(code) then [rows[0]] else []) + WithJoinCode(rows[1..], code)
  }

  /** The lookup keeps each matching row as often as the table holds it and
      drops every other row. */
  lemma {:induction false} WithJoinCodeCounts(rows: seq<QuizRow>, code: string)
    ensures forall q :: multiset(WithJoinCode(rows, code))[q]
                        == if q.joinCode == Some(code) then multiset(rows)[q] else 0
  {
    if rows != [] {
      WithJoinCodeCounts(rows[1..], code);
      assert rows == [rows[0]] + rows[1..];
    }
  }

  /** When exactly one row carries the code, the lookup yields that row. */
  lemma {:induction false} SingleMatch(rows: seq<QuizRow>, code: string, i: nat)
    requires i < |rows| && rows[i].joinCode == Some(code)
    requires forall j :: 0 <= j < |rows| && j != i ==> rows[j].joinCode != Some(code)
    ensures WithJoinCode(rows, code) == [rows[i]]
  {
    if i == 0 {
      NoMatch(rows[1..], code);
    } else {
      SingleMatch(rows[1..], code, i - 1);
    }
  }

  /** When no row carries the code, the lookup yields nothing. */
  lemma {:induction false} NoMatch(rows: seq<QuizRow>, code: string)
    requires forall j :: 0 <= j < |rows| ==> rows[j].joinCode != Some(code)
    ensures WithJoinCode(rows, code) == []
  {
    if rows != [] {
      NoMatch(rows[1..], code);
    }
  }

  /** What the find button leads to. */
  datatype FindOutcome =
    | NoLookup       // the code is empty: nothing happens
    | NotFound       // the lookup failed or did not yield exactly one row
    | NotAccepting   // the quiz exists but is not deployed
    | ToLobby(quizId: string)

  /** The find handler's decision. `.single()` fails unless exactly one row
      matches the upper-cased code. */
  function FindQuiz(code: string, rows: seq<QuizRow>, lookupFails: bool): (r: FindOutcome)
    ensures r == NoLookup <==> code == ""
    ensures r == NotFound <==> code != "" && (lookupFails || |WithJoinCode(rows, Upper(code))| != 1)
    ensures r.ToLobby? ==> exists q :: q in rows && q.id == r.quizId && q.status == Deployed
                                         && q.joinCode == Some(Upper(code))
    ensures r == NotAccepting ==> exists q :: q in rows && q.status != Deployed && q.joinCode == Some(Upper(code))
  {
    if code == "" then NoLookup
    else
      var matches := WithJoinCode(rows, Upper(code));
      if lookupFails || |matches| != 1 then NotFound
      else
        assert matches[0] in matches;
        if matches[0].status != Deployed then NotAccepting
        else ToLobby(matches[0].id)
  }

  /** The lookup does not depend on the case the code was typed in. */
  lemma FindIgnoresCase(code: string, rows: seq<QuizRow>, lookupFails: bool)
    ensures FindQuiz(Upper(code), rows, lookupFails) == FindQuiz(code, rows, lookupFails)
  {
    UpperIdempotent(code);
    assert code == "" <==> Upper(code) == "";
  }

  /** A quiz whose code is unique is admitted exactly when it is deployed:
      draft, active and finished quizzes are turned away. */
  lemma UniqueCodeAdmission(code: string, rows: seq<QuizRow>, i: nat)
    requires code != "" && i < |rows| && rows[i].joinCode == Some(Upper(code))
    requires forall j :: 0 <= j < |rows| && j != i ==> rows[j].joinCode != Some(Upper(code))
    ensures rows[i].status == Deployed ==> FindQuiz(code, rows, false) == ToLobby(rows[i].id)
    ensures rows[i].status != Deployed ==> FindQuiz(code, rows, false) == NotAccepting
  {
    SingleMatch(rows, Upper(code), i);
  }
}
