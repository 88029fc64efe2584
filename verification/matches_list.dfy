/**
 * The signed-in player's match history card: where the player sat, whether
 * that side won, which stored rating change is shown, and which players may
 * carry an avatar.
 */
module MatchesList {
  import opened Wrappers
  import opened Text
  import opened Categories
  import opened Slots

  /** A position as the list computes it: 1..4 for a slot, 0 when the player is not found. */
  type Position = p: int | 0 <= p <= 4

  /** The first slot holding the player's id, or 0 when there is no player record or no slot holds it. */
  function UserPosition(m: Match, player: Option<string>): (p: Position)
    ensures p == 0 <==> player.None? || !Participates(m, player.value)
    ensures p > 0 ==> player.Some? && PlayerIn(m, SlotAt(p)).id == player.value
    ensures p > 0 ==> forall q | 1 <= q < p :: PlayerIn(m, SlotAt(q)).id != player.value
  {
    if player.Some? && m.player1.id == player.value then 1
    else if player.Some? && m.player2.id == player.value then 2
    else if player.Some? && m.player3.id == player.value then 3
    else if player.Some? && m.player4.id == player.value then 4
    else 0
  }

  /** Positions up to 2, including the not-found 0, count as team 1. */
  function PositionTeam(p: Position): (t: Team)
    ensures p >= 1 ==> t == TeamOf(SlotAt(p))
    ensures p == 0 ==> t == Team1
  {
    if p <= 2 then Team1 else Team2
  }

  /** The card shows a win exactly when the position's team is the recorded winner. */
  function Won(m: Match, p: Position): (won: bool)
    ensures won <==> m.winner == PositionTeam(p)
    ensures p >= 1 ==> (won <==> SlotWon(m, SlotAt(p)))
  {
    var isTeam1 := p <= 2;
    (isTeam1 && m.winner == Team1) || (!isTeam1 && m.winner == Team2)
  }

  /** The key `player_<position>` into the stored rating changes. */
  function EloKey(p: Position): string {
    "player_" + NatToString(p)
  }

  /** Indexing the stored changes by key: only the four slot keys are present. */
  function LookupChange(e: EloChanges, key: string): (r: Option<EloChange>)
    ensures r.Some? <==> key in ["player_1", "player_2", "player_3", "player_4"]
  {
    if key == "player_1" then Some(e.player1)
    else if key == "player_2" then Some(e.player2)
    else if key == "player_3" then Some(e.player3)
    else if key == "player_4" then Some(e.player4)
    else None
  }

  /** The key built for a slot's position finds that slot's record; position 0 finds none. */
  lemma EloKeyFindsSlot(e: EloChanges, p: Position)
    ensures p >= 1 ==> LookupChange(e, EloKey(p)) == Some(ChangeAt(e, SlotAt(p)))
    ensures p == 0 ==> LookupChange(e, EloKey(p)) == None
  {
    assert NatToString(p) == [DigitChar(p)];
    if p == 0 {
      assert EloKey(p) == "player_0";
    } else if p == 1 {
      assert EloKey(p) == "player_1";
    } else if p == 2 {
      assert EloKey(p) == "player_2";
    } else if p == 3 {
      assert EloKey(p) == "player_3";
    } else {
      assert EloKey(p) == "player_4";
    }
  }

  /** The change shown on the card: the slot's stored change, or 0 when there is none to show. */
  function ShownChange(m: Match, p: Position): (c: int)
    ensures m.eloChanges.Some? && p >= 1 ==> c == ChangeAt(m.eloChanges.value, SlotAt(p)).change
    ensures m.eloChanges.None? || p == 0 ==> c == 0
  {
    match m.eloChanges
    case None => 0
    case Some(e) =>
      EloKeyFindsSlot(e, p);
      match LookupChange(e, EloKey(p))
      case None => 0
      case Some(entry) => entry.change
  }

  /** The rating change as printed: a '+' before changes of 0 or more. */
  function ChangeLabel(c: int): (s: string)
    ensures s != []
    ensures s[0] == '+' <==> c >= 0
    ensures s[0] == '-' <==> c < 0
    ensures c >= 0 ==> s[1..] == NatToString(c)
    ensures c < 0 ==> s[1..] == NatToString(-c)
  {
    (if c >= 0 then "+" else "") + IntToString(c)
  }

  /** What one card of the list shows. */
  datatype Card = Card(position: Position, won: bool, change: int, changeText: string, gain: bool)

  function MatchCard(m: Match, player: Option<string>): (card: Card)
    ensures card.position == UserPosition(m, player)
    ensures card.change == ShownChange(m, card.position)
    ensures card.changeText == ChangeLabel(card.change)
    ensures card.gain <==> card.change >= 0
    ensures card.changeText != [] && (card.gain <==> card.changeText[0] == '+')
    ensures card.won <==> m.winner == PositionTeam(card.position)
  {
    var p := UserPosition(m, player);
    var c := ShownChange(m, p);
    Card(p, Won(m, p), c, ChangeLabel(c), c >= 0)
  }

  /**
   * For a player sitting in slot `s` (and in no earlier slot), the card reports
   * that slot's result and that slot's stored rating change.
   */
  lemma MatchCardOfSeatedPlayer(m: Match, id: string, s: Slot)
    requires PlayerIn(m, s).id == id
    requires forall t: Slot | Index(t) < Index(s) :: PlayerIn(m, t).id != id
    ensures MatchCard(m, Some(id)).won <==> SlotWon(m, s)
    ensures m.eloChanges.Some? ==> MatchCard(m, Some(id)).change == ChangeAt(m.eloChanges.value, s).change
    ensures m.eloChanges.None? ==> MatchCard(m, Some(id)).change == 0
  {
    var p := UserPosition(m, Some(id));
    assert SlotAt(p) == s;
  }

  /** Without a player record, or for a match the player is not in, the card reads as team 1's side with no change. */
  lemma MatchCardOfOutsider(m: Match, player: Option<string>)
    requires player.None? || !Participates(m, player.value)
    ensures MatchCard(m, player).position == 0
    ensures MatchCard(m, player).change == 0 && MatchCard(m, player).changeText == "+0"
    ensures MatchCard(m, player).won <==> m.winner == Team1
  {
    assert NatToString(0) == "0";
  }

  /** Avatars are looked up only for registered players: not ghosts, with a non-empty profile id. */
  predicate AvatarEligible(p: PlayerRef) {
    !p.isGhost && Present(p.profileId)
  }

  /** The profile ids whose avatars are fetched for a page of matches. */
  function ProfileIdsToFetch(ms: seq<Match>): (ids: set<string>)
    ensures forall m, s | m in ms && AvatarEligible(PlayerIn(m, s)) :: PlayerIn(m, s).profileId.value in ids
    ensures forall id | id in ids :: id != ""
    ensures forall id | id in ids :: exists m, s | m in ms :: AvatarEligible(PlayerIn(m, s)) && PlayerIn(m, s).profileId.value == id
  {
    var ids := set m, s | m in ms && s in AllSlots && AvatarEligible(PlayerIn(m, s)) :: PlayerIn(m, s).profileId.value;
    assert forall s: Slot :: s in AllSlots by {
      forall s: Slot ensures s in AllSlots {
        assert AllSlots[Index(s) - 1] == s;
      }
    }
    ids
  }

  /** The avatar attached to a player: only eligible players, only non-empty fetched URLs. */
  function AvatarUrl(p: PlayerRef, avatars: map<string, Option<string>>): (url: Option<string>)
    ensures url.Some? ==> AvatarEligible(p) && p.profileId.value in avatars && avatars[p.profileId.value] == url
    ensures url.Some? ==> url.value != ""
    ensures AvatarEligible(p) && p.profileId.value in avatars && Present(avatars[p.profileId.value]) ==> url.Some?
  {
    if p.isGhost || !Present(p.profileId) then None
    else if p.profileId.value in avatars && Present(avatars[p.profileId.value]) then avatars[p.profileId.value]
    else None
  }

  /** With the avatar map filled from the fetched ids only, every avatar shown belongs to a looked-up, non-ghost profile. */
  lemma AvatarsComeFromFetchedProfiles(ms: seq<Match>, avatars: map<string, Option<string>>, m: Match, s: Slot)
    requires m in ms
    requires avatars.Keys <= ProfileIdsToFetch(ms)
    ensures AvatarUrl(PlayerIn(m, s), avatars).Some? ==>
      !PlayerIn(m, s).isGhost && PlayerIn(m, s).profileId.value in ProfileIdsToFetch(ms)
  {
  }
}
