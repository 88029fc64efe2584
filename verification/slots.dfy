/**
 * The four slots of a doubles match: slots 1 and 2 form team 1, slots 3 and 4
 * form team 2. Shared by every view that shows a match from one player's side.
 */
module Slots {
  import opened Wrappers
  import opened Categories

  datatype Slot = S1 | S2 | S3 | S4

  const AllSlots: seq<Slot> := [S1, S2, S3, S4]

  /** The 1-based number of a slot, as in `player_1_id` .. `player_4_id`. */
  function Index(s: Slot): (i: int)
    ensures 1 <= i <= 4 && AllSlots[i - 1] == s
  {
    match s
    case S1 => 1
    case S2 => 2
    case S3 => 3
    case S4 => 4
  }

  function SlotAt(i: int): (s: Slot)
    requires 1 <= i <= 4
    ensures Index(s) == i
  {
    AllSlots[i - 1]
  }

  function TeamOf(s: Slot): (t: Team)
    ensures t == Team1 <==> Index(s) <= 2
  {
    if s == S1 || s == S2 then Team1 else Team2
  }

  /** The partner's slot: 1 and 2 swap, 3 and 4 swap. */
  function Teammate(s: Slot): (t: Slot)
    ensures t != s && TeamOf(t) == TeamOf(s)
  {
    match s
    case S1 => S2
    case S2 => S1
    case S3 => S4
    case S4 => S3
  }

  /** Swapping partners twice returns to the start. */
  lemma TeammateInvolution(s: Slot)
    ensures Teammate(Teammate(s)) == s
  {
  }

  /** The two slots of a team's opponents, in slot order. */
  function Opponents(t: Team): (o: seq<Slot>)
    ensures |o| == 2 && Index(o[0]) < Index(o[1])
    ensures forall s: Slot :: s in o <==> TeamOf(s) != t
  {
    if t == Team1 then [S3, S4] else [S1, S2]
  }

  /** A player, a partner and the two opponents cover the four slots once each. */
  lemma SlotsCovered(s: Slot)
    ensures multiset{s, Teammate(s)} + multiset(Opponents(TeamOf(s))) == multiset(AllSlots)
  {
  }

  /** A player as embedded in a match record. */
  datatype PlayerRef = PlayerRef(
    id: string,
    displayName: string,
    isGhost: bool,
    profileId: Option<string>)

  datatype SetScore = SetScore(team1: int, team2: int, isTiebreak: Option<bool>)

  /** A recorded match with its four players. */
  datatype Match = Match(
    player1: PlayerRef,
    player2: PlayerRef,
    player3: PlayerRef,
    player4: PlayerRef,
    scoreSets: seq<SetScore>,
    winner: Team,
    eloChanges: Option<EloChanges>)

  function PlayerIn(m: Match, s: Slot): PlayerRef {
    match s
    case S1 => m.player1
    case S2 => m.player2
    case S3 => m.player3
    case S4 => m.player4
  }

  /** The four player ids of a match, `[player_1_id, ..., player_4_id]`. */
  function Ids(m: Match): (ids: seq<string>)
    ensures |ids| == 4
    ensures forall s: Slot :: ids[Index(s) - 1] == PlayerIn(m, s).id
  {
    [m.player1.id, m.player2.id, m.player3.id, m.player4.id]
  }

  /** The player `id` sits in some slot of `m`. */
  predicate Participates(m: Match, id: string) {
    id in Ids(m)
  }

  /** The stored rating change of a slot. */
  function ChangeAt(e: EloChanges, s: Slot): EloChange {
    match s
    case S1 => e.player1
    case S2 => e.player2
    case S3 => e.player3
    case S4 => e.player4
  }

  /** Result from one slot's side: its team is the winner. */
  predicate SlotWon(m: Match, s: Slot) {
    m.winner == TeamOf(s)
  }

  /** Exactly one team wins: a slot won iff its opponents did not. */
  lemma ExactlyOneTeamWins(m: Match, s: Slot, o: Slot)
    ensures TeamOf(o) != TeamOf(s) ==> (SlotWon(m, s) <==> !SlotWon(m, o))
    ensures SlotWon(m, s) == SlotWon(m, Teammate(s))
  {
  }
}
