/**
 * The score block of a match: in full mode two rows (one per team) with one
 * cell per set and a trophy on the winner's row; in compact mode one pair of
 * numbers per set with the whole winner side emphasised.
 */
module ScoreDisplay {
  import opened Wrappers
  import opened Categories
  import opened Slots

  /** One printed number and whether it is emphasised. */
  datatype Cell = Cell(points: int, highlighted: bool)

  /** A team's title in full mode. */
  datatype Heading = Heading(highlighted: bool, trophy: bool)

  datatype View =
    | Compact(pairs: seq<(Cell, Cell)>)
    | Full(heading1: Heading, row1: seq<Cell>, heading2: Heading, row2: seq<Cell>)

  function Render(sets: seq<SetScore>, winnerTeam: Team, compact: bool): (v: View)
    ensures v.Compact? <==> compact
    ensures v.Compact? ==> |v.pairs| == |sets|
    ensures v.Compact? ==> forall i | 0 <= i < |sets| ::
      && v.pairs[i].0 == Cell(sets[i].team1, winnerTeam == Team1)
      && v.pairs[i].1 == Cell(sets[i].team2, winnerTeam == Team2)
    ensures v.Full? ==> |v.row1| == |sets| && |v.row2| == |sets|
    ensures v.Full? ==> forall i | 0 <= i < |sets| ::
      && v.row1[i] == Cell(sets[i].team1, sets[i].team1 > sets[i].team2)
      && v.row2[i] == Cell(sets[i].team2, sets[i].team2 > sets[i].team1)
    ensures v.Full? ==> v.heading1 == Heading(winnerTeam == Team1, winnerTeam == Team1)
    ensures v.Full? ==> v.heading2 == Heading(winnerTeam == Team2, winnerTeam == Team2)
  {
    if compact then
      Compact(seq(|sets|, i requires 0 <= i < |sets| =>
        (Cell(sets[i].team1, winnerTeam == Team1), Cell(sets[i].team2, winnerTeam == Team2))))
    else
      Full(
        Heading(winnerTeam == Team1, winnerTeam == Team1),
        seq(|sets|, i requires 0 <= i < |sets| => Cell(sets[i].team1, sets[i].team1 > sets[i].team2)),
        Heading(winnerTeam == Team2, winnerTeam == Team2),
        seq(|sets|, i requires 0 <= i < |sets| => Cell(sets[i].team2, sets[i].team2 > sets[i].team1)))
  }

  /** In full mode a set is emphasised on the side that scored more: never both, neither on a tie. */
  lemma FullModeHighlightsSetWinner(sets: seq<SetScore>, winnerTeam: Team, i: nat)
    requires i < |sets|
    ensures var v := Render(sets, winnerTeam, false);
      && !(v.row1[i].highlighted && v.row2[i].highlighted)
      && (sets[i].team1 == sets[i].team2 ==> !v.row1[i].highlighted && !v.row2[i].highlighted)
      && (sets[i].team1 != sets[i].team2 ==> v.row1[i].highlighted != v.row2[i].highlighted)
  {
  }

  /** The trophy stands next to exactly one team: the given winner. */
  lemma TrophyOnExactlyOneTeam(sets: seq<SetScore>, winnerTeam: Team)
    ensures var v := Render(sets, winnerTeam, false);
      && (v.heading1.trophy != v.heading2.trophy)
      && (v.heading1.trophy <==> winnerTeam == Team1)
  {
  }

  /** In compact mode every number on the winner's side is emphasised, whatever that set's score. */
  lemma CompactHighlightsWinnerSide(sets: seq<SetScore>, winnerTeam: Team, i: nat)
    requires i < |sets|
    ensures var v := Render(sets, winnerTeam, true);
      && v.pairs[i].0.highlighted == (winnerTeam == Team1)
      && v.pairs[i].1.highlighted == (winnerTeam == Team2)
      && v.pairs[i].0.highlighted != v.pairs[i].1.highlighted
  {
  }

  /**
   * The winner is printed as given, never checked against the sets: a 6-0 6-0
   * score for team 1 still shows the trophy on team 2 when that is what was stored.
   */
  lemma WinnerNotCheckedAgainstSets()
    ensures var sets := [SetScore(6, 0, None), SetScore(6, 0, None)];
      var v := Render(sets, Team2, false);
      && v.heading2.trophy
      && v.row1[0].highlighted && v.row1[1].highlighted
      && !v.row2[0].highlighted && !v.row2[1].highlighted
  {
  }
}
