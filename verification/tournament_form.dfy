/**
 * The club's "create tournament" form: its initial state, the slug it keeps
 * in step with the name, and what a submit sends or reports.
 */
module TournamentForm {
  import opened Wrappers
  import opened Categories
  import opened Tournaments
  import Slug

  datatype Gender = Masculino | Femenino | Mixto

  /**
   * The form as typed. The numeric fields stay text here; the request carries
   * that text and its conversion to a number is not modelled.
   */
  datatype Form = Form(
    name: string, slug: string, description: string,
    startDate: string, endDate: string, registrationDeadline: string,
    format: TournamentFormat,
    maxTeams: string, minTeams: string,
    categoryLabel: Option<Category>, gender: Option<Gender>,
    entryFee: string, prizePool: string, rules: string)

  function InitialForm(): (f: Form)
    ensures f.format == SingleElimination && f.minTeams == "4"
    ensures f.categoryLabel.None? && f.gender.None?
    ensures f.name == f.slug == f.description == f.startDate == f.endDate == ""
    ensures f.registrationDeadline == f.maxTeams == f.entryFee == f.prizePool == f.rules == ""
  {
    Form("", "", "", "", "", "", SingleElimination, "", "4", None, None, "", "", "")
  }

  /** Typing a name: the slug follows a non-empty name and stays put when the name is cleared. */
  function SetName(f: Form, name: string): (g: Form)
    ensures g.name == name
    ensures name != "" ==> g.slug == Slug.Slugify(name) && Slug.IsSlug(g.slug)
    ensures name == "" ==> g.slug == f.slug
    ensures g.(name := f.name, slug := f.slug) == f
  {
    f.(name := name, slug := Slug.SlugAfterNameChange(name, f.slug))
  }

  /** `value || null`: the empty text becomes no value. */
  function OrNull(s: string): (r: Option<string>)
    ensures r.None? <==> s == ""
    ensures r.Some? ==> r.value == s
  {
    if s == "" then None else Some(s)
  }

  /** What the create call receives. */
  datatype Request = Request(
    clubId: string, name: string, slug: string, description: Option<string>,
    startDate: string, endDate: Option<string>, registrationDeadline: Option<string>,
    format: TournamentFormat,
    maxTeams: Option<string>, minTeams: string,
    categoryLabel: Option<Category>, gender: Option<Gender>,
    entryFee: Option<string>, prizePool: Option<string>, rules: Option<string>)

  function ToRequest(clubId: string, f: Form): (r: Request)
    ensures r.clubId == clubId && r.name == f.name && r.slug == f.slug && r.startDate == f.startDate
    ensures r.format == f.format && r.minTeams == f.minTeams
    ensures r.categoryLabel == f.categoryLabel && r.gender == f.gender
    ensures r.description == OrNull(f.description) && r.endDate == OrNull(f.endDate)
    ensures r.registrationDeadline == OrNull(f.registrationDeadline) && r.maxTeams == OrNull(f.maxTeams)
    ensures r.entryFee == OrNull(f.entryFee) && r.prizePool == OrNull(f.prizePool) && r.rules == OrNull(f.rules)
  {
    Request(clubId, f.name, f.slug, OrNull(f.description), f.startDate, OrNull(f.endDate),
            OrNull(f.registrationDeadline), f.format, OrNull(f.maxTeams), f.minTeams,
            f.categoryLabel, f.gender, OrNull(f.entryFee), OrNull(f.prizePool), OrNull(f.rules))
  }

  /** The form a request was built from, with absent values read back as empty text. */
  function FormOf(r: Request): Form
  {
    Form(r.name, r.slug, r.description.GetOr(""), r.startDate, r.endDate.GetOr(""),
         r.registrationDeadline.GetOr(""), r.format, r.maxTeams.GetOr(""), r.minTeams,
         r.categoryLabel, r.gender, r.entryFee.GetOr(""), r.prizePool.GetOr(""), r.rules.GetOr(""))
  }

  /** Building the request loses nothing the user typed. */
  lemma RequestKeepsForm(clubId: string, f: Form)
    ensures FormOf(ToRequest(clubId, f)) == f
  {
  }

  datatype SubmitStep =
    | NoClub(error: string)   // nothing is sent
    | Create(request: Request)

  const ClubNotFound: string := "No se encontró tu club"
  const CreateFailed: string := "Error al crear el torneo"

  /** Pressing submit: without the owner's club only the error is set; otherwise the request is sent. */
  function Submit(club: Option<string>, f: Form): (step: SubmitStep)
    ensures step.NoClub? <==> club.None?
    ensures step.NoClub? ==> step.error == ClubNotFound
    ensures step.Create? ==> step.request == ToRequest(club.value, f)
  {
    match club
    case None => NoClub(ClubNotFound)
    case Some(id) => Create(ToRequest(id, f))
  }

  datatype Outcome = GoToTournaments | ShowError(message: string)

  /** After the create call: success leaves for the list; a failure shows its message, or the default. */
  function AfterCreate(failure: Option<string>): (o: Outcome)
    ensures failure.None? <==> o == GoToTournaments
    ensures o.ShowError? ==> o.message != ""
    ensures failure.Some? && failure.value != "" ==> o == ShowError(failure.value)
    ensures failure == Some("") ==> o == ShowError(CreateFailed)
  {
    match failure
    case None => GoToTournaments
    case Some(m) => ShowError(if m == "" then CreateFailed else m)
  }
}
