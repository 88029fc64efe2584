# Padel match app: pure rules of the client core

This project models the small, self-contained rules that sit inside the screens
and helpers of a padel-match web application (players, four-player matches with
ELO changes, clubs, tournaments and staff invitations), and proves properties
of them in Dafny 4.11.

The model is functional: immutable datatypes and pure functions over sequences
and strings. Anything the application reads from the outside is passed in as a
parameter: the current instant (as integer milliseconds), the signed-in user,
the replies of database calls and remote procedures, upload results,
environment variables and push-subscription attempts.

Modules, one per source file or concern:

- `Wrappers`, `Text`, `Seqs`: shared helpers.
  - `Option`.
  - JavaScript truthiness of optional strings (`Present`).
  - The ECMAScript white-space set, `trim` and ASCII `toLowerCase`.
  - Decimal rendering of numbers.
  - Order-preserving `filter`, `slice(0, n)` and sums.
- `Categories`: the category ladder, its labels and initial ratings, the K-factor and the rating floor, teams and the per-slot ELO change records (`src/types/database.ts`, `src/lib/constants.ts`).
- `Slots`: the four slots of a match, teams, teammates and opponents.
- `MatchesList`, `PlayerMatches`, `ScoreDisplay`: the match cards of the match list, the recent-matches list and the "matches together" list, and the score grid.
- `PlayerStats`, `MatchTypes`, `ProfileUtils`: the win rate, avatar extraction and profile completeness.
- `GhostPlayer`: the dialog that creates a ghost player.
- `Slug`, `TournamentForm`: the tournament creation form and its slug.
- `Tournaments`: status groups, the club dashboard and the tournament detail page.
- `InviteStaff`, `Invitations`: the staff invitation dialog and the invitation history.
- `SendEmail`: the mail-sending endpoint.
- `AvatarUpload`: the profile picture control.
- `PushTester`: the push-notification test page.

The source has neither a rating update nor a rating-to-category function, so neither is modelled: matches are only inserted, and their `elo_changes` are read back.

## Model

| member | source | states |
|---|---|---|
| Categories.Rank | src/types/database.ts:46-55 | each category sits at its own position of the category list, from "8va" to "1ra" |
| Categories.CategoriesListEachOnce | src/types/database.ts:9-17 | the list holds all eight categories, each exactly once |
| Categories.ParseName | src/types/database.ts:9-17 | reading a category's name back yields that category |
| Categories.LabelIsNameWithSuffix | src/types/database.ts:57-66 | every label is the category name followed by " Categoría" |
| Categories.InitialRatingByPosition | src/types/database.ts:97-106 | the category at index i starts at rating 1000 + 200·i |
| Categories.InitialRatingStrictlyIncreasing | src/types/database.ts:46-55 | initial ratings rise strictly along the ladder (both directions), so the table is injective |
| Categories.InitialRatingBounds | src/types/database.ts:97-106 | every initial rating lies in [1000, 2400] |
| Categories.KFactor | src/lib/constants.ts:16-19 | K is 64 exactly when fewer than 10 matches were played, otherwise 32 |
| Categories.KFactorNonIncreasing | src/lib/constants.ts:17-19 | K never grows as matches accumulate |
| Categories.KFactorChangesOnceAtThreshold | src/lib/constants.ts:17-19 | K changes between n and n+1 matches only at n = 9 |
| Categories.NewPlayerKIsDouble | src/lib/constants.ts:17-18 | the new-player K is twice the established one |
| Categories.ClampRating | src/lib/constants.ts:21-22 | clamping yields at least 100 and leaves ratings ≥ 100 unchanged |
| Categories.ClampIdempotent | src/lib/constants.ts:21-22 | clamping twice is clamping once |
| Categories.FloorBelowInitialRatings | src/lib/constants.ts:22 | the rating floor lies below every category's initial rating |
| Categories.Team.Number | src/types/database.ts:171 | a winning team is 1 or 2; there is no draw value |
| Slots.Teammate | src/components/player/player-recent-matches.tsx:73-75 | the teammate is the other slot of the same team |
| Slots.TeammateInvolution | src/components/player/player-recent-matches.tsx:73-75 | the teammate swap 1↔2, 3↔4 is an involution |
| Slots.Opponents | src/components/player/player-recent-matches.tsx:78-80 | the opponents are exactly the other team's two slots, in slot order |
| Slots.SlotsCovered | src/components/player/player-matches-with-user-all.tsx:76-79 | a slot, its teammate and the opponents cover the four slots once each |
| Slots.ExactlyOneTeamWins | src/components/player/player-recent-matches.tsx:69-70 | a slot and an opponent never both win; teammates share the result |
| MatchesList.UserPosition | src/components/matches/matches-list.tsx:167-171 | the user's position is the first slot holding their id, and 0 exactly when there is no user or no such slot |
| MatchesList.PositionTeam | src/components/matches/matches-list.tsx:173 | positions up to 2, including the not-found 0, count as team 1 |
| MatchesList.Won | src/components/matches/matches-list.tsx:174 | a card is a win exactly when the position's team is the winning team |
| MatchesList.LookupChange | src/components/matches/matches-list.tsx:176-177 | an ELO entry exists only under the keys player_1 to player_4 |
| MatchesList.EloKeyFindsSlot | src/components/matches/matches-list.tsx:176 | the key built from a position finds that slot's change; position 0 finds nothing |
| MatchesList.ShownChange | src/components/matches/matches-list.tsx:177 | the shown change is the slot's change, or 0 when the changes or the entry are missing |
| MatchesList.ChangeLabel | src/components/matches/matches-list.tsx:266-270 | the label starts with '+' exactly when the change is ≥ 0, followed by its digits |
| MatchesList.MatchCard | src/components/matches/matches-list.tsx:165-177 | a card is about the user's position (first slot holding them, else 0); its change is that slot's recorded change, its label that change's text, its gain marker the change's sign, and its win flag the position's team winning |
| MatchesList.MatchCardOfSeatedPlayer | src/components/matches/matches-list.tsx:165-177 | for a player seated in a slot (first one holding them), the card is a win exactly when that slot won and shows that slot's recorded change, or 0 without one |
| MatchesList.MatchCardOfOutsider | src/components/matches/matches-list.tsx:165-177 | for no user or someone not in the match, the card sits at position 0, shows "+0", and counts as a win exactly when team 1 won |
| MatchesList.ProfileIdsToFetch | src/components/matches/matches-list.tsx:64-76 | exactly the profile ids of non-ghost players are looked up: each such id is in the list, each listed id belongs to one, and no empty id is |
| MatchesList.AvatarUrl | src/components/matches/matches-list.tsx:94-97 | a player gets an avatar only when not a ghost, with a fetched profile and a non-empty URL |
| MatchesList.AvatarsComeFromFetchedProfiles | src/components/matches/matches-list.tsx:72-97 | every avatar shown belongs to a profile that was looked up |
| PlayerMatches.RecentPage | src/components/player/player-recent-matches.tsx:14 | at most 10 matches are listed: the newest 10, or all when fewer |
| PlayerMatches.PositionOf | src/components/player/player-recent-matches.tsx:64-67 | the position is the first of slots 1..3 holding the player, falling back to slot 4 |
| PlayerMatches.RecentRow | src/components/player/player-recent-matches.tsx:64-80 | a row's result, teammate and opponents all follow from the player's position |
| PlayerMatches.RecentRowOpponents | src/components/player/player-recent-matches.tsx:78-80 | the row's opponents are the players in the other team's slots |
| PlayerMatches.PartnersShareResult | src/components/player/player-recent-matches.tsx:69-75 | a player and their teammate share the result; opponents have the opposite one |
| PlayerMatches.PlayedTogether | src/components/player/player-matches-with-user-all.tsx:19-29 | exactly the matches where both ids appear are kept, in their original order, each as often as it is listed |
| PlayerMatches.WereTeammatesSymmetric | src/components/player/player-matches-with-user-all.tsx:86-88 | being teammates is symmetric in the two players |
| PlayerMatches.TogetherResults | src/components/player/player-matches-with-user-all.tsx:86-89 | teammates share a result; as rivals exactly one of the two won |
| PlayerMatches.Find | src/components/player/player-matches-with-user-all.tsx:137-141 | a search returns the first listed player satisfying the test, or none when no listed player does |
| PlayerMatches.TogetherRowOf | src/components/player/player-matches-with-user-all.tsx:86-98 | a row reads "with" exactly for teammates; its result is the target's team winning; the teammate is the player in the target's partner slot; as teammates the opponents are the other team's players; as rivals the rival is the other player and the rival's partner someone else |
| PlayerMatches.RivalIsAmongOpponents | src/components/player/player-matches-with-user-all.tsx:86-137 | when not teammates, the rival named is the other player, found among the opponents, and the rival's partner is the other player's teammate unless that is the other player again |
| PlayerMatches.RowCoversAllSlots | src/components/player/player-matches-with-user-all.tsx:76-98 | target, teammate and the two opponents cover the four slots once each |
| ScoreDisplay.Render | src/components/match/score-display.tsx:11-66 | each row holds one cell per set, in input order; full mode highlights the larger score and compact mode the winner's side |
| ScoreDisplay.FullModeHighlightsSetWinner | src/components/match/score-display.tsx:42-59 | in full mode a cell is highlighted exactly when it beat the other side; ties highlight neither and no set highlights both |
| ScoreDisplay.TrophyOnExactlyOneTeam | src/components/match/score-display.tsx:35-52 | the trophy appears on exactly one team, the given winner |
| ScoreDisplay.CompactHighlightsWinnerSide | src/components/match/score-display.tsx:17-21 | in compact mode every set is highlighted on the winner's side, whatever its score |
| ScoreDisplay.WinnerNotCheckedAgainstSets | src/components/match/score-display.tsx:11-66 | the given winner is used as is: two sets won 6-0 by team 1 still crown team 2 when told so |
| PlayerStats.WinRateTenths | src/lib/react-query/hooks/use-player-stats.ts:30-32 | the rate in tenths is 1000·won/played rounded half up, and 0 with no matches |
| PlayerStats.WinRateBounds | src/lib/react-query/hooks/use-player-stats.ts:30-32 | for 0 ≤ won ≤ played the rate lies between 0 % and 100 % |
| PlayerStats.WinRateAllWon | src/lib/react-query/hooks/use-player-stats.ts:30-32 | winning every match gives exactly 100 % |
| PlayerStats.WinRateMonotonic | src/lib/react-query/hooks/use-player-stats.ts:31 | for a fixed number of matches the rate never drops as wins grow |
| PlayerStats.PlayerStatsOf | src/lib/react-query/hooks/use-player-stats.ts:16-38 | no player id or no row yields no statistics; otherwise the counts are copied, the rate is the rounded per-mille win rate of those counts, and it lies in 0..1000 |
| MatchTypes.ExtractAvatarUrl | src/components/match/types.ts:41-47 | no profiles gives none; a list gives its first entry's URL or none; one profile gives its URL |
| MatchTypes.ToSelectedPlayer | src/components/match/types.ts:50-56 | the profiles are dropped and every other field kept; ghosts never get an avatar |
| MatchTypes.GhostAvatarIgnoresProfiles | src/components/match/types.ts:54 | for a ghost the joined profiles make no difference |
| MatchTypes.ToSelectedPlayerIdempotent | src/components/match/types.ts:50-56 | converting an already converted player changes nothing |
| ProfileUtils.IsPlayerProfileComplete | src/lib/profile-utils.ts:19-41 | complete exactly when profile and user exist, the type is "player", and each of category, country, province, e-mail (profile's or user's), phone and gender is filled |
| ProfileUtils.IsClubProfileComplete | src/lib/profile-utils.ts:49-69 | complete exactly when profile and user exist, the type is "club", and each of country, province, e-mail (profile's or user's) and phone is filled |
| ProfileUtils.MissingNeverComplete | src/lib/profile-utils.ts:23-55 | a missing profile or user is complete for neither kind |
| ProfileUtils.EmailFromEitherSource | src/lib/profile-utils.ts:36-65 | the e-mail requirement is met by the profile's or the signed-in user's address |
| ProfileUtils.PlayerIsClubPlusCategoryAndGender | src/lib/profile-utils.ts:28-68 | player completeness is club completeness of the same fields plus category and gender |
| ProfileUtils.NeverBothKinds | src/lib/profile-utils.ts:28-60 | no profile is complete as both a player and a club |
| ProfileUtils.ClubIgnoresCategoryAndGender | src/lib/profile-utils.ts:63-68 | club completeness does not depend on category or gender |
| ProfileUtils.PlayerCompleteImpliesClubComplete | src/lib/profile-utils.ts:33-68 | a complete player profile is club-complete once its type says club |
| GhostPlayer.ResetForm | src/components/match/ghost-player-dialog.tsx:56-60 | a reset leaves an empty name, category "8va" and no errors |
| GhostPlayer.OpenChange | src/components/match/ghost-player-dialog.tsx:62-67 | closing the dialog resets the form; opening leaves it alone |
| GhostPlayer.HandleCreate | src/components/match/ghost-player-dialog.tsx:69-110 | a blank name sets the name error; no position or no user inserts nothing; a signed-out user gets the not-authenticated message, with errors cleared and the form not busy; otherwise the form goes busy with errors cleared, and the insert carries the trimmed name, ghost flag, user, category, its initial rating and the chosen position |
| GhostPlayer.FinishCreate | src/components/match/ghost-player-dialog.tsx:116-127 | a failed insert reports the error and keeps the whole form, only ending the busy state; a successful one resets the form and closes |
| GhostPlayer.BlankNameInsertsNothing | src/components/match/ghost-player-dialog.tsx:73-198 | an all-white-space name never reaches the insert, and the button is disabled |
| GhostPlayer.CreateDisabled | src/components/match/ghost-player-dialog.tsx:198 | the create button is enabled exactly when nothing is being created and the name has a character other than white space |
| GhostPlayer.GhostSeededFromCategory | src/components/match/ghost-player-dialog.tsx:100-110 | the new ghost's rating is the selected category's initial rating |
| Slug.CollapseKeepsSlugChars | src/components/clubs/create-tournament-form.tsx:74 | collapsing keeps every character of a-z and 0-9, in order, and adds none |
| Slug.CollapseCountsRuns | src/components/clubs/create-tournament-form.tsx:74 | collapsing writes exactly one hyphen per maximal run of characters outside a-z and 0-9 |
| Slug.StripEdgeHyphens | src/components/clubs/create-tournament-form.tsx:75 | only a leading and a trailing hyphen are removed; the rest is kept in place |
| Slug.Slugify | src/components/clubs/create-tournament-form.tsx:70-75 | the slug is the maximal runs of a-z and 0-9 of the lower-cased name, joined by single hyphens; so it has only a-z, 0-9 and '-', no "--", and no hyphen at either end |
| Slug.SlugifyKeepsLettersAndDigits | src/components/clubs/create-tournament-form.tsx:70-75 | the slug keeps every letter and digit of the lower-cased name, in order, and no other character of it |
| Slug.SlugHyphensSeparateWords | src/components/clubs/create-tournament-form.tsx:70-75 | the slug is empty exactly when the name has no letter or digit, and otherwise has one hyphen fewer than it has words |
| Slug.SlugifyFixesSlugs | src/components/clubs/create-tournament-form.tsx:70-75 | a string already in slug form is its own slug |
| Slug.SlugifyIdempotent | src/components/clubs/create-tournament-form.tsx:70-75 | slugging a slug changes nothing |
| Slug.AlphanumericNameIsItsSlug | src/components/clubs/create-tournament-form.tsx:70-75 | a lower-case alphanumeric name is its own slug |
| Slug.SlugAfterNameChange | src/components/clubs/create-tournament-form.tsx:68-78 | the slug follows a non-empty name; clearing the name keeps the old slug |
| TournamentForm.InitialForm | src/components/clubs/create-tournament-form.tsx:35-50 | the form starts empty, single elimination, with a minimum of "4" teams |
| TournamentForm.SetName | src/components/clubs/create-tournament-form.tsx:68-78 | typing a name changes the name and, for a non-empty name, the slug; nothing else |
| TournamentForm.OrNull | src/components/clubs/create-tournament-form.tsx:94-105 | an empty field becomes null, anything else is kept |
| TournamentForm.ToRequest | src/components/clubs/create-tournament-form.tsx:89-105 | the request copies the required fields and sends blank optional ones as null |
| TournamentForm.RequestKeepsForm | src/components/clubs/create-tournament-form.tsx:89-105 | the form can be read back from the request, so no field is lost |
| TournamentForm.Submit | src/components/clubs/create-tournament-form.tsx:84-105 | without a club only the error is set and nothing is sent; otherwise the request is sent |
| TournamentForm.AfterCreate | src/components/clubs/create-tournament-form.tsx:107-110 | success leaves for the list; a failure shows its message, or the default for an empty one |
| Tournaments.GroupTournaments | src/components/clubs/club-tournaments-list.tsx:62-69 | each group holds only its statuses, in list order; an absent list gives four empty groups |
| Tournaments.GroupsPartition | src/components/clubs/club-tournaments-list.tsx:62-69 | the four groups together hold every tournament exactly once, and their sizes sum to the list length |
| Tournaments.GroupsDisjoint | src/components/clubs/club-dashboard.tsx:46-51 | no tournament is in two groups |
| Tournaments.ShownTournaments | src/components/clubs/club-tournaments-list.tsx:68-197 | a tournament is drawn exactly when it is listed and not cancelled, never more often than it is listed; an absent list draws nothing |
| Tournaments.ShowEmptyState | src/components/clubs/club-tournaments-list.tsx:199 | the empty message shows exactly for a loaded empty list, and then no group is drawn |
| Tournaments.TotalRegistrations | src/components/clubs/club-dashboard.tsx:53-56 | the registrations figure is never negative, and 0 for an absent list |
| Tournaments.ClubDashboard | src/components/clubs/club-dashboard.tsx:38-124 | without a club only the error shows; otherwise the list length (0 when absent), the registrations, and at most three active and three drafts, hidden when there are none |
| Tournaments.TotalRegistrationsIsSum | src/components/clubs/club-dashboard.tsx:53-56 | the registrations figure is the sum of the per-tournament counts: 0 for none, additive, bounding each count |
| Tournaments.DashboardPreviewsAreFirstThree | src/components/clubs/club-dashboard.tsx:46-124 | the previews are the first three of each group, in list order, free of cancelled and finished ones |
| Tournaments.IsRegistrationOpen | src/components/tournaments/tournament-detail.tsx:69-72 | registration is open only for an open tournament, always without a deadline, and with one exactly while it lies ahead |
| Tournaments.RegistrationClosesForGood | src/components/tournaments/tournament-detail.tsx:69-72 | once registration has closed, it stays closed as time goes on |
| Tournaments.ShowsEndDate | src/components/tournaments/tournament-detail.tsx:117-120 | the end date shows exactly when there is one and it differs from the start date |
| Tournaments.EntryFeeNodeAsWritten | src/components/tournaments/tournament-detail.tsx:145-156 | a fee of 0 renders as a bare "0"; no fee renders nothing; any other fee gets its line |
| Tournaments.FreeTournamentShowsStrayZero | src/components/tournaments/tournament-detail.tsx:145 | a free tournament leaves a stray "0" on the page |
| Tournaments.EntryFeeNode | src/components/tournaments/tournament-detail.tsx:145-156 | the fee line shows exactly for a non-zero fee and nothing leaks otherwise |
| Tournaments.EntryFeeNodeAgreesExceptZero | src/components/tournaments/tournament-detail.tsx:145 | the intended and written fee lines differ exactly for a fee of 0 |
| Tournaments.LabelsAreDistinct | src/types/database.ts:75-88 | no two statuses and no two formats share a label |
| InviteStaff.RoleLabelsDistinct | src/types/database.ts:68-73 | no two club roles share a label |
| InviteStaff.MatchesEmail | src/components/clubs/invite-staff-dialog.tsx:78 | the scan accepts exactly the addresses of the pattern `^[^\s@]+@[^\s@]+\.[^\s@]+$` |
| InviteStaff.SplitByCharacters | src/components/clubs/invite-staff-dialog.tsx:78 | a matching address has one '@', not first, no white space, and a '.' between the '@' and the last character with a character on each side |
| InviteStaff.NormalizedEmailKeepsShape | src/components/clubs/invite-staff-dialog.tsx:78-90 | lower-casing keeps an address valid, and trimming a valid address changes nothing |
| InviteStaff.ReplyError | src/components/clubs/invite-staff-dialog.tsx:95-164 | only a successful reply gives no error; an error object or a thrown error gives its message or the default when empty, null data gives the default, and an unsuccessful answer gives `data.error` or the default; every error is non-empty |
| InviteStaff.MessageOr | src/components/clubs/invite-staff-dialog.tsx:97-101 | a non-empty message is kept as is, an empty one becomes the default; the result is never empty |
| InviteStaff.ClubNameOr | src/components/clubs/invite-staff-dialog.tsx:118 | the club's name when it has a non-empty one, otherwise a non-empty fallback |
| InviteStaff.InviteSubject | src/components/clubs/invite-staff-dialog.tsx:125 | the subject is "Invitación a ", then the club's name (or the fallback), then " en Vibo" |
| InviteStaff.Invite | src/components/clubs/invite-staff-dialog.tsx:64-161 | a call is made exactly when the club and address checks pass; after a call the error shown is the reply's error; success exactly when the call's reply carries no error, and then a mail goes out; an error is set exactly when there is no success; the spinner stays on only after a success whose path does not reset it; a success keeps the token of the reply |
| InviteStaff.InviteAsWritten | src/components/clubs/invite-staff-dialog.tsx:64-161 | as written, a successful invitation leaves the spinner on |
| InviteStaff.SuccessLeavesDialogLocked | src/components/clubs/invite-staff-dialog.tsx:152-176 | after a written success the dialog stays busy and closing by hand is ignored |
| InviteStaff.HandleInvite | src/components/clubs/invite-staff-dialog.tsx:64-166 | guards in order (club, then address) with nothing sent; the lowered address is sent; success resets to an empty address and "member", keeps the reply's token for the link and mails the invitee; the spinner ends off |
| InviteStaff.GuardsComeFirst | src/components/clubs/invite-staff-dialog.tsx:71-75 | an empty club id fails before the address is checked, and nothing is sent |
| InviteStaff.SentAddressIsValid | src/components/clubs/invite-staff-dialog.tsx:78-90 | the address sent is the typed one lower-cased, and it still matches the pattern |
| InviteStaff.CorrectedSuccessCanClose | src/components/clubs/invite-staff-dialog.tsx:168-176 | after an intended success, closing by hand works and restores the initial form |
| InviteStaff.Close | src/components/clubs/invite-staff-dialog.tsx:168-176 | closing is ignored while busy; otherwise the form resets and the dialog closes |
| InviteStaff.AfterSuccessDelay | src/components/clubs/invite-staff-dialog.tsx:157-161 | the delayed step clears the success message and token and changes nothing else in the dialog's state |
| Invitations.ElapsedSeconds | src/components/clubs/invitations-history.tsx:18 | the difference in whole seconds rounds down, negative ones included |
| Invitations.TimeAgo | src/components/clubs/invitations-history.tsx:16-31 | the phrase starts with "hace", is the phrase of the elapsed distance and of no other, and reads "hace unos segundos" exactly when under a minute has passed |
| Invitations.DistanceOf | src/components/clubs/invitations-history.tsx:16-31 | under 60 s (negatives included) is "a few seconds"; then whole minutes 1–59, hours 1–23, or days ≥ 1, each bracketing the difference |
| Invitations.DistanceUnitMonotonic | src/components/clubs/invitations-history.tsx:16-31 | a longer time never reads in a smaller unit |
| Invitations.Plural | src/components/clubs/invitations-history.tsx:23-30 | the unit gets a trailing "s" exactly when the count exceeds one |
| Invitations.PhrasePlural | src/components/clubs/invitations-history.tsx:23 | a minutes phrase ends in "s" exactly for counts above one |
| Invitations.PhraseDeterminesDistance | src/components/clubs/invitations-history.tsx:16-31 | the phrase determines the distance: different distances never read the same |
| Invitations.StatusLabelsDistinct | src/components/clubs/invitations-history.tsx:44-49 | every status label is non-empty and no two statuses share one |
| Invitations.HistoryOf | src/components/clubs/invitations-history.tsx:69-81 | no list or an empty one shows "none sent"; otherwise pending and other invitations split apart in order |
| Invitations.HistoryShowsEachOnce | src/components/clubs/invitations-history.tsx:80-81 | the two sections together hold every invitation exactly once |
| Invitations.ExpiryNoteAsWritten | src/components/clubs/invitations-history.tsx:139-145 | only pending invitations carry a note: "Expirada" once expired, otherwise "Expira " followed by the time-ago formatter applied to the expiry |
| Invitations.LiveInvitationReadsAsJustExpired | src/components/clubs/invitations-history.tsx:143 | every live pending invitation reads "Expira hace unos segundos", however far its expiry is |
| Invitations.ThirtyDaysLeftAsWritten | src/components/clubs/invitations-history.tsx:143 | thirty days before expiry the note still reads "Expira hace unos segundos" |
| Invitations.ExpiryNote | src/components/clubs/invitations-history.tsx:139-145 | the intended note says "Expirada" past expiry and tells the time left otherwise |
| Invitations.ExpiryNoteTellsTimeLeft | src/components/clubs/invitations-history.tsx:143 | with the intended note, different remaining times read differently |
| Invitations.ThirtyDaysLeft | src/components/clubs/invitations-history.tsx:143 | thirty days before expiry the intended note counts thirty days |
| Invitations.IsExpired | src/components/clubs/invitations-history.tsx:112-114 | only a pending invitation is expired, and then its expiry is not in the future; a pending one a whole second or more past expiry is expired |
| Invitations.ExpiryIsFinal | src/components/clubs/invitations-history.tsx:112-160 | an expired invitation stays expired later; a pending one is at each instant either expired or offers its link |
| Invitations.ShowsLink | src/components/clubs/invitations-history.tsx:112-160 | the link shows exactly for a pending invitation whose expiry is not past |
| Invitations.RespondedNote | src/components/clubs/invitations-history.tsx:147-151 | the responded note shows exactly when a response time is recorded |
| SendEmail.RecipientList | src/app/api/send-email/route.ts:45 | a single recipient becomes a one-element list, and a list passes unchanged |
| SendEmail.StripTags | src/app/api/send-email/route.ts:48 | tag removal never lengthens the text |
| SendEmail.StripTagsIsSubsequence | src/app/api/send-email/route.ts:48 | tag removal only deletes characters and keeps the rest in order |
| SendEmail.StripTagsRemovesTags | src/app/api/send-email/route.ts:48 | no '<' left in the result has a '>' after it |
| SendEmail.StripTagsKeepsTagless | src/app/api/send-email/route.ts:48 | text without a tag passes through unchanged |
| SendEmail.StripTagsKeepsText | src/app/api/send-email/route.ts:48 | text before the first '<' survives unchanged in front of the stripped rest |
| SendEmail.StripTagsDropsOneTag | src/app/api/send-email/route.ts:48 | a tag `<…>` after plain text is removed, and the text before it and the stripped rest are kept |
| SendEmail.StripTagsIdempotent | src/app/api/send-email/route.ts:48 | stripping twice is stripping once |
| SendEmail.PlainTextUnchanged | src/app/api/send-email/route.ts:48 | text without '<' is unchanged |
| SendEmail.BuildPayload | src/app/api/send-email/route.ts:43-49 | sender defaults to "Vibo <noreply@vibo.app>"; html falls back to text; text falls back to the stripped html |
| SendEmail.DerivedTextHasNoTags | src/app/api/send-email/route.ts:48 | a derived plain text has no tags and only characters of the html |
| SendEmail.HandlePost | src/app/api/send-email/route.ts:8-64 | 401 before any other check; 400 exactly for missing fields; a payload is sent only when the fields are valid and a key is configured; 200 exactly when the provider accepts; a missing key answers 500 "Email service not configured" and sends nothing; a provider error answers 500 with its message; a thrown error or an unreadable body answers 500 with its message, or "Failed to send email" when that is empty |
| SendEmail.ThrownMessage | src/app/api/send-email/route.ts:57-62 | a caught error's message is kept when non-empty and is "Failed to send email" otherwise, so the answer always has a message |
| SendEmail.EmptyListPassesCheck | src/app/api/send-email/route.ts:22 | an empty recipient list passes the field check while an empty address does not |
| AvatarUpload.SelectFile | src/components/profile/avatar-upload.tsx:23-67 | no file does nothing; a non-image is refused before size; over 5 MiB is refused; the profile is updated only with a returned URL |
| AvatarUpload.SizeLimitIsInclusive | src/components/profile/avatar-upload.tsx:34-37 | exactly 5 MiB is accepted and one byte more refused |
| AvatarUpload.TypeCheckedBeforeSize | src/components/profile/avatar-upload.tsx:28-37 | a file that is not an image is refused as such, whatever its size |
| AvatarUpload.Settle | src/components/profile/avatar-upload.tsx:60-80 | once an upload or a removal ends, the control is idle and shows no preview |
| AvatarUpload.RemoveAvatar | src/components/profile/avatar-upload.tsx:69-81 | removal reports no picture and leaves the control idle without preview |
| AvatarUpload.ShownAvatar | src/components/profile/avatar-upload.tsx:87 | the preview is drawn when present, otherwise the current picture |
| AvatarUpload.ShowsRemoveButton | src/components/profile/avatar-upload.tsx:119 | the remove button shows exactly with a current picture and no upload running |
| AvatarUpload.SavedUploadCanBeRemoved | src/components/profile/avatar-upload.tsx:48-119 | a saved upload, once current, can be removed |
| PushTester.AddLog | src/components/notifications/push-notification-tester.tsx:43-48 | the new entry comes first, followed by the previous ones in order; the length is min(old + 1, 50) |
| PushTester.LogIsNewestFirst | src/components/notifications/push-notification-tester.tsx:43-48 | after any run of additions the log is the newest fifty entries, newest first |
| PushTester.ClearLogs | src/components/notifications/push-notification-tester.tsx:317 | after clearing, the log holds exactly what is added next (up to fifty entries), newest first |
| PushTester.InitialPanel | src/components/notifications/push-notification-tester.tsx:26-32 | the page starts loading with nothing known: unsubscribed, so subscribing is offered and sending is disabled |
| PushTester.CheckStatus | src/components/notifications/push-notification-tester.tsx:50-87 | support, permission and key are always refreshed; the worker is probed only when supported; a failed probe leaves what it did not reach |
| PushTester.CheckStatusSettles | src/components/notifications/push-notification-tester.tsx:50-87 | re-reading an unchanged status leaves the panel as it is, and a fully answered read does not depend on the panel before it |
| PushTester.Subscribe | src/components/notifications/push-notification-tester.tsx:89-100 | a failed subscription changes nothing and logs an error; a successful one logs success and then re-reads the status, whose support, permission, key and probes have the last word; a probe that does not answer leaves the page subscribed |
| PushTester.SubscribedUnlessRecheckDenies | src/components/notifications/push-notification-tester.tsx:89-100 | after a successful subscription the subscribe button is gone exactly when the re-read permission is denied or the re-read does not report "not subscribed" |
| PushTester.ShowsSubscribe | src/components/notifications/push-notification-tester.tsx:212 | subscribing is offered while unsubscribed, unless permission was denied |
| PushTester.SendDisabled | src/components/notifications/push-notification-tester.tsx:263 | the send button is disabled while sending, unsubscribed, or denied |
| PushTester.SendTest | src/components/notifications/push-notification-tester.tsx:102-163 | no user or a failed subscription sends nothing and reports failure; otherwise the request goes out, and success is reported exactly for an ok reply with success, with the sent/total device count in the message; a failed reply shows its own error or the default; a network failure shows "Error de red: " and its message |
| PushTester.EnabledSendNeedsNoSubscribe | src/components/notifications/push-notification-tester.tsx:109-263 | with the button enabled, the subscribe-first branch is never taken |

## Left out

- Backend queries, mutations, storage, realtime subscriptions and the push endpoint: their results are parameters of the model.
- Date parsing, locale formatting, month grouping and clock reads. Instants are integer milliseconds, and an unparseable date is not modelled.
- The rating update, its logistic expectation and the rating-to-category function. They are not in the source.
- Slug.Slugify: models `normalize("NFD")` and combining-mark removal only for ASCII input. Any non-ASCII character falls into the separator class, so an accented letter becomes a separator rather than its base letter.
- Text.Lower: ASCII-only `toLowerCase`.
- PlayerStats.WinRateTenths: works on exact rationals. Floating-point division and rounding error is not modelled.
- MatchesList.ChangeLabel: takes the change as an integer, so `Math.round` of a fractional change is not modelled.
- TournamentForm.ToRequest: keeps the team counts and the entry fee as the typed text. `parseInt` and `parseFloat` (including NaN) are not modelled.
- Tournaments.IsRegistrationOpen: the deadline is an instant or absent. An unparseable deadline, which compares false and closes registration, is not modelled.
- Tournaments.EntryFeeNode: the fee is a real. A NaN fee is not modelled.
- GhostPlayer.HandleCreate: the category check never fails (the selector always holds a category), so it is not modelled.
- InviteStaff.Invite: the dialog ignores the outcome of sending the invitation mail (invite-staff-dialog.tsx:116-143), so that outcome is not an input.
- AvatarUpload.SelectFile: the preview comes from a file reader whose callback (avatar-upload.tsx:41-44) runs asynchronously. The model assumes it fires before the upload ends; a callback that fires after the reset at line 61 would bring the preview back, and that ordering is not modelled.
- InviteStaff.HandleInvite: the mail body, the query invalidation, and the delay before closing are not modelled. The mail is recorded by recipient and subject only.
- SendEmail.HandlePost: the provider's own response body, beyond its id or error message, is not modelled.
- PushTester.CheckStatus: records only the kinds of log lines it adds, not their text or timestamps.
- The duplicate slot lookup in the data context and the duplicate win-rate formula on the statistics card are modelled once, here.
- InviteStaff.AfterSuccessDelay: the timer's request to the parent to close the dialog (invite-staff-dialog.tsx:160) is not in the result, because the parent is not part of this model.
- The caller of the staff invitation dialog is not part of this model. Whether a parent remounts the dialog after a success (see the third finding) is therefore not modelled.

## Findings

| source | as written | input that shows it | evidently intended | confidence | as-written member | corrected member |
|---|---|---|---|---|---|---|
| src/components/clubs/invitations-history.tsx:143 | the future expiry instant goes through the "time ago" formatter | any pending invitation not yet expired, e.g. one expiring 30 days from now: the difference is negative, so it reads "Expira hace unos segundos" | tell the time left until expiry ("Expira en 30 días") | high, not executed | Invitations.ExpiryNoteAsWritten (shown by Invitations.LiveInvitationReadsAsJustExpired, Invitations.ThirtyDaysLeftAsWritten) | Invitations.ExpiryNote (Invitations.ExpiryNoteTellsTimeLeft, Invitations.ThirtyDaysLeft) |
| src/components/tournaments/tournament-detail.tsx:145 | the fee itself is the render condition `entry_fee && (…)` | `entry_fee = 0`: the expression yields the number 0, which is rendered as the text "0" | a free tournament shows no fee line | high, not executed | Tournaments.EntryFeeNodeAsWritten (shown by Tournaments.FreeTournamentShowsStrayZero) | Tournaments.EntryFeeNode (Tournaments.EntryFeeNodeAgreesExceptZero) |
| src/components/clubs/invite-staff-dialog.tsx:152-161 | the success path never turns `loading` off | any successful invitation: `loading` stays true, so the inputs stay disabled and closing by hand is ignored | the spinner ends when the call completes, as on every error path | medium (the dialog's parent is not part of this model), not executed | InviteStaff.InviteAsWritten (shown by InviteStaff.SuccessLeavesDialogLocked) | InviteStaff.HandleInvite (InviteStaff.CorrectedSuccessCanClose) |
