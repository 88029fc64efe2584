/**
 * Whether a signed-in user's profile is complete enough to use the app, for
 * players and for clubs. Every field is a `string | null`; a field counts only
 * when it is present and non-empty.
 */
module ProfileUtils {
  import opened Wrappers
  import opened Text

  datatype Profile = Profile(
    userType: Option<string>,
    category: Option<string>,
    country: Option<string>,
    province: Option<string>,
    email: Option<string>,
    phone: Option<string>,
    gender: Option<string>)

  /** The authenticated user, of which only the e-mail is consulted. */
  datatype User = User(email: Option<string>)

  /** The e-mail requirement: the profile's own e-mail or, failing that, the account's. */
  predicate HasEmail(p: Profile, u: User) {
    Present(p.email) || Present(u.email)
  }

  /** The fields a completeness check asks for; the e-mail may come from either source. */
  datatype Field = CategoryField | CountryField | ProvinceField | EmailField | PhoneField | GenderField

  /** Whether one required field is filled in. */
  predicate Has(p: Profile, u: User, f: Field) {
    match f
    case CategoryField => Present(p.category)
    case CountryField => Present(p.country)
    case ProvinceField => Present(p.province)
    case EmailField => HasEmail(p, u)
    case PhoneField => Present(p.phone)
    case GenderField => Present(p.gender)
  }

  const PlayerFields: seq<Field> := [CategoryField, CountryField, ProvinceField, EmailField, PhoneField, GenderField]
  const ClubFields: seq<Field> := [CountryField, ProvinceField, EmailField, PhoneField]

  /** The player checklist holds exactly when each of its six fields is filled. */
  lemma PlayerFieldsEach(p: Profile, u: User)
    ensures (forall f | f in PlayerFields :: Has(p, u, f)) <==>
      && Has(p, u, CategoryField) && Has(p, u, CountryField) && Has(p, u, ProvinceField)
      && Has(p, u, EmailField) && Has(p, u, PhoneField) && Has(p, u, GenderField)
  {
    assert PlayerFields[0] == CategoryField && PlayerFields[1] == CountryField && PlayerFields[2] == ProvinceField;
    assert PlayerFields[3] == EmailField && PlayerFields[4] == PhoneField && PlayerFields[5] == GenderField;
  }

  /** The club checklist holds exactly when each of its four fields is filled. */
  lemma ClubFieldsEach(p: Profile, u: User)
    ensures (forall f | f in ClubFields :: Has(p, u, f)) <==>
      Has(p, u, CountryField) && Has(p, u, ProvinceField) && Has(p, u, EmailField) && Has(p, u, PhoneField)
  {
    assert ClubFields[0] == CountryField && ClubFields[1] == ProvinceField;
    assert ClubFields[2] == EmailField && ClubFields[3] == PhoneField;
  }

  /** A player profile is complete when the profile and user exist, it is a player's, and every player field is filled. */
  function IsPlayerProfileComplete(profile: Option<Profile>, user: Option<User>): (complete: bool)
    ensures complete <==>
      && profile.Some? && user.Some? && profile.value.userType == Some("player")
      && forall f | f in PlayerFields :: Has(profile.value, user.value, f)
  {
    if profile.None? || user.None? then false
    else if profile.value.userType != Some("player") then false
    else
      var p := profile.value;
      PlayerFieldsEach(p, user.value);
      Present(p.category) && Present(p.country) && Present(p.province)
      && HasEmail(p, user.value) && Present(p.phone) && Present(p.gender)
  }

  /** A club profile is complete when the profile and user exist, it is a club's, and every club field is filled. */
  function IsClubProfileComplete(profile: Option<Profile>, user: Option<User>): (complete: bool)
    ensures complete <==>
      && profile.Some? && user.Some? && profile.value.userType == Some("club")
      && forall f | f in ClubFields :: Has(profile.value, user.value, f)
  {
    if profile.None? || user.None? then false
    else if profile.value.userType != Some("club") then false
    else
      var p := profile.value;
      ClubFieldsEach(p, user.value);
      Present(p.country) && Present(p.province) && HasEmail(p, user.value) && Present(p.phone)
  }

  /** Without a profile or without a user, neither kind of profile is complete. */
  lemma MissingNeverComplete(profile: Option<Profile>, user: Option<User>)
    requires profile.None? || user.None?
    ensures !IsPlayerProfileComplete(profile, user) && !IsClubProfileComplete(profile, user)
  {
  }

  /** Either e-mail source satisfies both checks; with neither, no profile is complete. */
  lemma EmailFromEitherSource(p: Profile, u: User)
    ensures !Present(p.email) && !Present(u.email) ==>
      !IsPlayerProfileComplete(Some(p), Some(u)) && !IsClubProfileComplete(Some(p), Some(u))
    ensures IsClubProfileComplete(Some(p), Some(u)) ==
      IsClubProfileComplete(Some(p.(email := u.email)), Some(u.(email := p.email)))
  {
  }

  /**
   * A player profile is complete exactly when it would be complete as a club
   * profile and also names a category and a gender.
   */
  lemma PlayerIsClubPlusCategoryAndGender(p: Profile, u: User)
    ensures IsPlayerProfileComplete(Some(p), Some(u)) <==>
      && p.userType == Some("player")
      && Present(p.category) && Present(p.gender)
      && IsClubProfileComplete(Some(p.(userType := Some("club"))), Some(u))
  {
  }

  /** No profile is complete as both a player and a club. */
  lemma NeverBothKinds(profile: Option<Profile>, user: Option<User>)
    ensures !(IsPlayerProfileComplete(profile, user) && IsClubProfileComplete(profile, user))
  {
  }

  /** The club check ignores category and gender. */
  lemma ClubIgnoresCategoryAndGender(p: Profile, u: User, category: Option<string>, gender: Option<string>)
    ensures IsClubProfileComplete(Some(p), Some(u)) ==
      IsClubProfileComplete(Some(p.(category := category, gender := gender)), Some(u))
  {
  }

  /** The club requirements are a subset of the player ones. */
  lemma PlayerCompleteImpliesClubComplete(p: Profile, u: User)
    requires IsPlayerProfileComplete(Some(p), Some(u))
    ensures IsClubProfileComplete(Some(p.(userType := Some("club"))), Some(u))
  {
  }
}
