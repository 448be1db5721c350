/** The two pure updates the controller applies to its roster when the
    lobby channel reports a join or a departure. */
module Roster {
  import opened Common

  /** Roster after a `player_joined` event: the payload player goes last. */
  function Joined(roster: seq<Player>, p: Player): (r: seq<Player>)
    ensures |r| == |roster| + 1
    ensures r[..|roster|] == roster && r[|roster|] == p
    ensures multiset(r) == multiset(roster) + multiset{p}
  {
    roster + [p]
  }

  /** Roster after a `player_left` event: every entry whose id is `playerId`
      is dropped, every other entry (duplicates included) is kept. */
  function Left(roster: seq<Player>, playerId: int): (r: seq<Player>)
    ensures |r| <= |roster|
    ensures forall p :: multiset(r)[p] == if p.id == playerId then 0 else multiset(roster)[p]
  {
    if roster == [] then []
    else
      assert roster == [roster[0]] + roster[1..];
      if roster[0].id == playerId then Left(roster[1..], playerId)
      else [roster[0]] + Left(roster[1..], playerId)
  }

  /** Removal keeps order: filtering a concatenation filters each part. */
  lemma {:induction false} LeftAppend(a: seq<Player>, b: seq<Player>, playerId: int)
    ensures Left(a + b, playerId) == Left(a, playerId) + Left(b, playerId)
  {
    if a == [] {
      assert a + b == b;
    } else {
      assert (a + b)[1..] == a[1..] + b;
      LeftAppend(a[1..], b, playerId);
    }
  }

  /** A departure of an id nobody has leaves the roster as it was. */
  lemma {:induction false} LeftAbsent(roster: seq<Player>, playerId: int)
    requires forall i :: 0 <= i < |roster| ==> roster[i].id != playerId
    ensures Left(roster, playerId) == roster
  {
    if roster != [] {
      LeftAbsent(roster[1..], playerId);
    }
  }

  /** A departure that follows a join: the joined player is dropped exactly
      when it has the departing id, the rest is filtered as before. */
  lemma LeftAfterJoined(roster: seq<Player>, p: Player, playerId: int)
    ensures Left(Joined(roster, p), playerId)
         == if p.id == playerId then Left(roster, playerId) else Left(roster, playerId) + [p]
  {
    LeftAppend(roster, [p], playerId);
    assert Left([p], playerId) == if p.id == playerId then [] else [p] by {
      assert [p][1..] == [];
    }
  }

  /** A join followed by the same player's departure restores the roster,
      provided no earlier entry shared the player's id. */
  lemma LeaveUndoesJoin(roster: seq<Player>, p: Player)
    requires forall i :: 0 <= i < |roster| ==> roster[i].id != p.id
    ensures Left(Joined(roster, p), p.id) == roster
  {
    LeftAfterJoined(roster, p, p.id);
    LeftAbsent(roster, p.id);
  }
}
