/**
 * The player record used while composing a new match: the joined profile's
 * avatar is pulled out of whatever shape the join returned, and ghosts never
 * carry one.
 */
module MatchTypes {
  import opened Wrappers
  import opened Categories

  /** The profile join: absent, a single row, or an array of rows (each with an `avatar_url`). */
  datatype ProfilesJoin =
    | NoProfiles
    | OneProfile(avatarUrl: Option<string>)
    | ProfileList(avatarUrls: seq<Option<string>>)

  /** A player picked for a slot of the new match. */
  datatype SelectedPlayer = SelectedPlayer(
    id: string,
    displayName: string,
    isGhost: bool,
    eloScore: int,
    category: Category,
    profileId: Option<string>,
    matchesPlayed: int,
    avatarUrl: Option<string>)

  /** A selected player as it comes from the query, with the join still attached. */
  datatype PlayerWithProfiles = PlayerWithProfiles(player: SelectedPlayer, profiles: ProfilesJoin)

  /** The slots the creator can fill: second of team 1, first and second of team 2. */
  datatype PlayerPosition = Team1Second | Team2First | Team2Second

  /** The avatar of the joined profile: none without a join, the first row of an array. */
  function ExtractAvatarUrl(p: PlayerWithProfiles): (url: Option<string>)
    ensures p.profiles.NoProfiles? ==> url.None?
    ensures p.profiles.OneProfile? ==> url == p.profiles.avatarUrl
    ensures p.profiles.ProfileList? && p.profiles.avatarUrls == [] ==> url.None?
    ensures p.profiles.ProfileList? && p.profiles.avatarUrls != [] ==> url == p.profiles.avatarUrls[0]
  {
    match p.profiles
    case NoProfiles => None
    case ProfileList(urls) => if |urls| > 0 then urls[0] else None
    case OneProfile(url) => url
  }

  /** Drops the join and sets the avatar: none for ghosts, the joined one otherwise. */
  function ToSelectedPlayer(p: PlayerWithProfiles): (s: SelectedPlayer)
    ensures p.player.isGhost ==> s.avatarUrl.None?
    ensures !p.player.isGhost ==> s.avatarUrl == ExtractAvatarUrl(p)
    ensures s.(avatarUrl := p.player.avatarUrl) == p.player
  {
    p.player.(avatarUrl := if p.player.isGhost then None else ExtractAvatarUrl(p))
  }

  /** A ghost's avatar is none whatever profile data was joined. */
  lemma GhostAvatarIgnoresProfiles(p: SelectedPlayer, j1: ProfilesJoin, j2: ProfilesJoin)
    requires p.isGhost
    ensures ToSelectedPlayer(PlayerWithProfiles(p, j1)) == ToSelectedPlayer(PlayerWithProfiles(p, j2))
  {
  }

  /** Converting twice, with the same join, changes nothing more. */
  lemma ToSelectedPlayerIdempotent(p: PlayerWithProfiles)
    ensures ToSelectedPlayer(PlayerWithProfiles(ToSelectedPlayer(p), p.profiles)) == ToSelectedPlayer(p)
  {
  }
}
