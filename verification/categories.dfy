/**
 * Player categories, their labels and starting ratings, and the rating
 * constants (K-factors, new-player threshold, rating floor).
 */
module Categories {
  import opened Wrappers

  /** The eight playing categories, from the lowest ("8va") to the highest ("1ra"). */
  datatype Category = Eighth | Seventh | Sixth | Fifth | Fourth | Third | Second | First

  /** The category list in selector order, lowest first. */
  const AllCategories: seq<Category> :=
    [Eighth, Seventh, Sixth, Fifth, Fourth, Third, Second, First]

  /** The position of a category in `AllCategories`: 0 for "8va" up to 7 for "1ra". */
  function Rank(c: Category): (r: nat)
    ensures r < |AllCategories| && AllCategories[r] == c
  {
    match c
    case Eighth => 0
    case Seventh => 1
    case Sixth => 2
    case Fifth => 3
    case Fourth => 4
    case Third => 5
    case Second => 6
    case First => 7
  }

  /** The stored enum value of a category. */
  function Name(c: Category): string {
    match c
    case Eighth => "8va"
    case Seventh => "7ma"
    case Sixth => "6ta"
    case Fifth => "5ta"
    case Fourth => "4ta"
    case Third => "3ra"
    case Second => "2da"
    case First => "1ra"
  }

  /** Reading a stored enum value back; anything else is not a category. */
  function ParseCategory(s: string): (r: Option<Category>)
    ensures r.Some? ==> Name(r.value) == s
  {
    if s == "8va" then Some(Eighth)
    else if s == "7ma" then Some(Seventh)
    else if s == "6ta" then Some(Sixth)
    else if s == "5ta" then Some(Fifth)
    else if s == "4ta" then Some(Fourth)
    else if s == "3ra" then Some(Third)
    else if s == "2da" then Some(Second)
    else if s == "1ra" then Some(First)
    else None
  }

  /** Every category's name reads back as that category. */
  lemma ParseName(c: Category)
    ensures ParseCategory(Name(c)) == Some(c)
  {
  }

  /** The display label table. */
  function Label(c: Category): string {
    match c
    case Eighth => "8va Categoría"
    case Seventh => "7ma Categoría"
    case Sixth => "6ta Categoría"
    case Fifth => "5ta Categoría"
    case Fourth => "4ta Categoría"
    case Third => "3ra Categoría"
    case Second => "2da Categoría"
    case First => "1ra Categoría"
  }

  /** The label of a category is its name followed by " Categoría". */
  lemma LabelIsNameWithSuffix(c: Category)
    ensures Label(c) == Name(c) + " Categoría"
  {
  }

  /** The starting rating table a new player is seeded from. */
  function InitialRating(c: Category): int {
    match c
    case Eighth => 1000
    case Seventh => 1200
    case Sixth => 1400
    case Fifth => 1600
    case Fourth => 1800
    case Third => 2000
    case Second => 2200
    case First => 2400
  }

  /** The category list names every category exactly once. */
  lemma CategoriesListEachOnce()
    ensures |AllCategories| == 8
    ensures forall c: Category :: c in AllCategories
    ensures forall i, j | 0 <= i < j < |AllCategories| :: AllCategories[i] != AllCategories[j]
    ensures AllCategories[0] == Eighth && AllCategories[7] == First
  {
    forall c: Category ensures c in AllCategories {
      assert AllCategories[Rank(c)] == c;
    }
  }

  /** The i-th category of the list starts at 1000 + 200·i. */
  lemma InitialRatingByPosition(i: nat)
    requires i < |AllCategories|
    ensures InitialRating(AllCategories[i]) == 1000 + 200 * i
    ensures Rank(AllCategories[i]) == i
  {
  }

  /** Starting ratings grow strictly along the category order, so no two categories share one. */
  lemma InitialRatingStrictlyIncreasing(c: Category, d: Category)
    ensures Rank(c) < Rank(d) <==> InitialRating(c) < InitialRating(d)
    ensures InitialRating(c) == InitialRating(d) ==> c == d
  {
    InitialRatingByPosition(Rank(c));
    InitialRatingByPosition(Rank(d));
  }

  /** Every starting rating lies in [1000, 2400]. */
  lemma InitialRatingBounds(c: Category)
    ensures 1000 <= InitialRating(c) <= 2400
  {
    InitialRatingByPosition(Rank(c));
  }

  // ---- Rating constants -------------------------------------------------

  const KFactorNewPlayer: int := 64
  const KFactorEstablished: int := 32
  /** Matches a player needs before counting as established. */
  const NewPlayerThreshold: int := 10
  /** The rating floor. */
  const MinEloScore: int := 100

  /** The K-factor of a player who has played `matchesPlayed` matches before this one. */
  function KFactor(matchesPlayed: int): (k: int)
    ensures k == KFactorNewPlayer || k == KFactorEstablished
    ensures k == KFactorNewPlayer <==> matchesPlayed < NewPlayerThreshold
  {
    if matchesPlayed < NewPlayerThreshold then KFactorNewPlayer else KFactorEstablished
  }

  /** More experience never raises the K-factor. */
  lemma KFactorNonIncreasing(m: int, n: int)
    requires m <= n
    ensures KFactor(n) <= KFactor(m)
  {
  }

  /** The K-factor changes once only, between 9 and 10 matches played. */
  lemma KFactorChangesOnceAtThreshold(n: int)
    ensures KFactor(n) != KFactor(n + 1) <==> n + 1 == NewPlayerThreshold
  {
  }

  /** The new-player K-factor is twice the established one. */
  lemma NewPlayerKIsDouble()
    ensures KFactorNewPlayer == 2 * KFactorEstablished
  {
  }

  /** A rating raised to the floor when it falls below it. */
  function ClampRating(r: int): (c: int)
    ensures c >= MinEloScore
    ensures r >= MinEloScore ==> c == r
    ensures r < MinEloScore ==> c == MinEloScore
  {
    if r < MinEloScore then MinEloScore else r
  }

  /** Clamping twice is clamping once. */
  lemma ClampIdempotent(r: int)
    ensures ClampRating(ClampRating(r)) == ClampRating(r)
  {
  }

  /** The floor lies below every category's starting rating, so seeding never needs the clamp. */
  lemma FloorBelowInitialRatings(c: Category)
    ensures MinEloScore < InitialRating(c)
    ensures ClampRating(InitialRating(c)) == InitialRating(c)
  {
    InitialRatingBounds(c);
  }

  // ---- Match records ----------------------------------------------------

  /** `winner_team`: 1 or 2; there is no draw. */
  datatype Team = Team1 | Team2 {
    function Number(): (n: int)
      ensures n == 1 || n == 2
    {
      if Team1? then 1 else 2
    }
    function Other(): (t: Team)
      ensures t != this
    {
      if Team1? then Team2 else Team1
    }
  }

  /** The rating of one player around one match. */
  datatype EloChange = EloChange(before: int, after: int, change: int)

  /** The per-slot rating changes stored with a match: one record for each of the four slots. */
  datatype EloChanges = EloChanges(player1: EloChange, player2: EloChange, player3: EloChange, player4: EloChange)
}
