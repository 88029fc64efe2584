/**
 * A player's matches seen from that player's side: the recent-matches card
 * and the list of matches two players played together (as partners or rivals).
 */
module PlayerMatches {
  import opened Wrappers
  import opened Categories
  import opened Slots
  import Seqs

  /** How many matches the recent-matches card asks for. */
  const RecentMatchesLimit: nat := 10

  /** The requested page: the newest matches, at most `RecentMatchesLimit` of them. */
  function RecentPage(newestFirst: seq<Match>): (r: seq<Match>)
    ensures |r| <= RecentMatchesLimit
    ensures |r| == RecentMatchesLimit || r == newestFirst
    ensures |r| <= |newestFirst| && r == newestFirst[..|r|]
  {
    Seqs.Take(newestFirst, RecentMatchesLimit)
  }

  /**
   * The player's slot: the first of slots 1..3 holding the id, otherwise slot 4
   * (also when no slot holds it).
   */
  function PositionOf(m: Match, id: string): (s: Slot)
    ensures s != S4 ==> PlayerIn(m, s).id == id
    ensures forall q: Slot | Index(q) < Index(s) :: PlayerIn(m, q).id != id
    ensures Participates(m, id) ==> PlayerIn(m, s).id == id
  {
    if m.player1.id == id then S1
    else if m.player2.id == id then S2
    else if m.player3.id == id then S3
    else S4
  }

  /** What a row of the recent-matches card shows. */
  datatype MatchRow = MatchRow(won: bool, teammate: PlayerRef, opponents: seq<PlayerRef>)

  function RecentRow(m: Match, id: string): (row: MatchRow)
    ensures row.won <==> m.winner == TeamOf(PositionOf(m, id))
    ensures row.teammate == PlayerIn(m, Teammate(PositionOf(m, id)))
    ensures |row.opponents| == 2
    ensures forall i | 0 <= i < 2 ::
      exists o: Slot :: TeamOf(o) != TeamOf(PositionOf(m, id)) && row.opponents[i] == PlayerIn(m, o)
  {
    var pos := PositionOf(m, id);
    var team := if Index(pos) <= 2 then Team1 else Team2;
    var teammate :=
      if pos == S1 then m.player2
      else if pos == S2 then m.player1
      else if pos == S3 then m.player4
      else m.player3;
    var opponents := if team == Team1 then [m.player3, m.player4] else [m.player1, m.player2];
    assert opponents == [PlayerIn(m, Opponents(team)[0]), PlayerIn(m, Opponents(team)[1])];
    MatchRow(m.winner == team, teammate, opponents)
  }

  /** The opponents shown are exactly the other team's two slots, in slot order. */
  lemma RecentRowOpponents(m: Match, id: string)
    ensures RecentRow(m, id).opponents ==
      [PlayerIn(m, Opponents(TeamOf(PositionOf(m, id)))[0]), PlayerIn(m, Opponents(TeamOf(PositionOf(m, id)))[1])]
  {
  }

  /** A player and their partner always see the same result; an opponent sees the other one. */
  lemma PartnersShareResult(m: Match, s: Slot)
    ensures SlotWon(m, s) == SlotWon(m, Teammate(s))
    ensures forall o | o in Opponents(TeamOf(s)) :: SlotWon(m, o) != SlotWon(m, s)
  {
  }

  // ---- Matches played with another player -------------------------------

  predicate BothPlayed(m: Match, target: string, other: string) {
    Participates(m, target) && Participates(m, other)
  }

  /** The target's matches in which the other player also took part, in the original order. */
  function PlayedTogether(ms: seq<Match>, target: string, other: string): (r: seq<Match>)
    ensures forall i | 0 <= i < |r| :: BothPlayed(r[i], target, other)
    ensures forall m | m in ms && BothPlayed(m, target, other) :: m in r
    ensures forall m | m in r :: m in ms
    ensures Seqs.Subsequence(r, ms)
    ensures forall m :: multiset(r)[m] == if BothPlayed(m, target, other) then multiset(ms)[m] else 0
  {
    var p := m => BothPlayed(m, target, other);
    Seqs.FilterIsSubsequence(ms, p);
    forall m ensures multiset(Seqs.Filter(ms, p))[m] == if p(m) then multiset(ms)[m] else 0 {
      Seqs.FilterCounts(ms, p, m);
    }
    Seqs.Filter(ms, p)
  }

  /** The two players sat on the same side. */
  predicate WereTeammates(m: Match, target: string, other: string) {
    TeamOf(PositionOf(m, target)) == TeamOf(PositionOf(m, other))
  }

  /** Being teammates does not depend on which of the two is the target. */
  lemma WereTeammatesSymmetric(m: Match, a: string, b: string)
    ensures WereTeammates(m, a, b) <==> WereTeammates(m, b, a)
  {
  }

  /** Teammates share the result; as rivals exactly one of the two won. */
  lemma TogetherResults(m: Match, target: string, other: string)
    ensures WereTeammates(m, target, other) ==>
      (SlotWon(m, PositionOf(m, target)) <==> SlotWon(m, PositionOf(m, other)))
    ensures !WereTeammates(m, target, other) ==>
      (SlotWon(m, PositionOf(m, target)) <==> !SlotWon(m, PositionOf(m, other)))
  {
  }

  /** `opponents.find(o => pred(o))`: the first player passing the test, if any. */
  function Find(ps: seq<PlayerRef>, wanted: bool, id: string): (r: Option<PlayerRef>)
    ensures r.Some? ==> r.value in ps && (r.value.id == id) == wanted
    ensures r.Some? ==> exists k | 0 <= k < |ps| :: ps[k] == r.value && forall j | 0 <= j < k :: (ps[j].id == id) != wanted
    ensures r.None? ==> forall p | p in ps :: (p.id == id) != wanted
  {
    if ps == [] then None
    else if (ps[0].id == id) == wanted then Some(ps[0])
    else
      var r := Find(ps[1..], wanted, id);
      FirstAfterHead(ps, wanted, id, r);
      r
  }

  /** A first passing player of the tail is a first passing player of the whole when the head fails. */
  lemma FirstAfterHead(ps: seq<PlayerRef>, wanted: bool, id: string, r: Option<PlayerRef>)
    requires ps != [] && (ps[0].id == id) != wanted
    requires r.Some? ==> exists k | 0 <= k < |ps[1..]| :: ps[1..][k] == r.value && forall j | 0 <= j < k :: (ps[1..][j].id == id) != wanted
    ensures r.Some? ==> exists k | 0 <= k < |ps| :: ps[k] == r.value && forall j | 0 <= j < k :: (ps[j].id == id) != wanted
  {
    if r.Some? {
      var k :| 0 <= k < |ps[1..]| && ps[1..][k] == r.value && forall j | 0 <= j < k :: (ps[1..][j].id == id) != wanted;
      assert ps[k + 1] == r.value;
      forall j | 1 <= j < k + 1 ensures (ps[j].id == id) != wanted {
        assert ps[j] == ps[1..][j - 1];
      }
    }
  }

  /** A row of the played-together list. */
  datatype TogetherRow =
    | AsTeammates(won: bool, opponents: seq<PlayerRef>, teammate: PlayerRef)
    | AsRivals(won: bool, rival: Option<PlayerRef>, rivalsPartner: Option<PlayerRef>, teammate: PlayerRef)

  function TogetherRowOf(m: Match, target: string, other: string): (row: TogetherRow)
    ensures row.AsTeammates? <==> WereTeammates(m, target, other)
    ensures row.won <==> m.winner == TeamOf(PositionOf(m, target))
    ensures row.teammate == PlayerIn(m, Teammate(PositionOf(m, target)))
    ensures row.AsTeammates? ==>
      row.opponents == [PlayerIn(m, Opponents(TeamOf(PositionOf(m, target)))[0]), PlayerIn(m, Opponents(TeamOf(PositionOf(m, target)))[1])]
    ensures row.AsRivals? ==> (row.rival.Some? ==> row.rival.value.id == other)
    ensures row.AsRivals? ==> (row.rivalsPartner.Some? ==> row.rivalsPartner.value.id != other)
  {
    RecentRowOpponents(m, target);
    var r := RecentRow(m, target);
    if WereTeammates(m, target, other) then AsTeammates(r.won, r.opponents, r.teammate)
    else AsRivals(r.won, Find(r.opponents, true, other), Find(r.opponents, false, other), r.teammate)
  }

  /**
   * When both took part on opposite sides, the other player is found among the
   * opponents, and the rival's partner shown is the other player's teammate,
   * unless that slot holds the same id too.
   */
  lemma RivalIsAmongOpponents(m: Match, target: string, other: string)
    requires BothPlayed(m, target, other)
    requires !WereTeammates(m, target, other)
    ensures TogetherRowOf(m, target, other).rival == Some(PlayerIn(m, PositionOf(m, other)))
    ensures var partner := PlayerIn(m, Teammate(PositionOf(m, other)));
      TogetherRowOf(m, target, other).rivalsPartner == if partner.id != other then Some(partner) else None
  {
    var t := TeamOf(PositionOf(m, target));
    var o := PositionOf(m, other);
    var opp := Opponents(t);
    assert o in opp;
    RecentRowOpponents(m, target);
    var row := RecentRow(m, target);
    if o == opp[0] {
      assert row.opponents[0].id == other;
    } else {
      assert o == opp[1];
      assert row.opponents[1].id == other;
      // The first opponent slot comes before `o`, so it cannot hold the id.
      assert Index(opp[0]) < Index(o);
      assert row.opponents[0].id != other;
    }
  }

  /** The target, the partner and the two opponents account for the four slots exactly once. */
  lemma RowCoversAllSlots(m: Match, target: string)
    ensures multiset{PositionOf(m, target), Teammate(PositionOf(m, target))}
      + multiset(Opponents(TeamOf(PositionOf(m, target)))) == multiset(AllSlots)
  {
    SlotsCovered(PositionOf(m, target));
  }
}
