/**
 * The dialog that creates a ghost player (a friend without an account): name
 * validation, the inserted record seeded from the category table, and the reset.
 */
module GhostPlayer {
  import opened Wrappers
  import opened Text
  import opened Categories
  import opened MatchTypes

  const NameRequired: string := "El nombre es requerido"
  const NotAuthenticated: string := "No estás autenticado"
  const CreateFailed: string := "Error al crear el jugador"

  datatype FormErrors = FormErrors(name: Option<string>, category: Option<string>)

  const NoErrors: FormErrors := FormErrors(None, None)

  datatype GhostForm = GhostForm(name: string, category: Category, creating: bool, errors: FormErrors)

  /** The state the dialog starts in. */
  const InitialForm: GhostForm := GhostForm("", Eighth, false, NoErrors)

  /** Clears the fields and the errors; the in-progress flag is left alone. */
  function ResetForm(f: GhostForm): (r: GhostForm)
    ensures r.name == "" && r.category == Eighth && r.errors == NoErrors
    ensures r.creating == f.creating
    ensures r == InitialForm.(creating := f.creating)
  {
    f.(name := "", category := Eighth, errors := NoErrors)
  }

  /** Closing the dialog resets the form; opening it keeps the form. */
  function OpenChange(f: GhostForm, open: bool): (r: GhostForm)
    ensures !open ==> r == ResetForm(f)
    ensures open ==> r == f
  {
    if !open then ResetForm(f) else f
  }

  /** The row inserted into `players`. */
  datatype GhostInsert = GhostInsert(
    displayName: string,
    isGhost: bool,
    createdByUserId: string,
    eloScore: int,
    category: Category)

  /** The outcome of pressing "Crear Jugador". */
  datatype CreateStep =
    | Invalid(form: GhostForm)
    | NoPosition(form: GhostForm)
    | Unauthenticated(form: GhostForm, message: string)
    | Insert(form: GhostForm, record: GhostInsert, position: PlayerPosition)

  function HandleCreate(f: GhostForm, position: Option<PlayerPosition>, user: Option<string>): (step: CreateStep)
    ensures Trim(f.name) == "" <==> step.Invalid?
    ensures step.Invalid? ==> step.form == f.(errors := FormErrors(Some(NameRequired), None))
    ensures step.NoPosition? <==> Trim(f.name) != "" && position.None?
    ensures step.NoPosition? ==> step.form == f
    ensures step.Unauthenticated? <==> Trim(f.name) != "" && position.Some? && user.None?
    ensures step.Insert? <==> Trim(f.name) != "" && position.Some? && user.Some?
    ensures step.Insert? ==>
      step.record == GhostInsert(Trim(f.name), true, user.value, InitialRating(f.category), f.category)
    ensures step.Insert? ==> step.form.creating && step.form.errors == NoErrors
    ensures step.Insert? ==> step.form == f.(errors := NoErrors, creating := true) && step.position == position.value
    ensures step.Unauthenticated? ==>
      step.form == f.(errors := NoErrors, creating := false) && step.message == NotAuthenticated
  {
    if Trim(f.name) == "" then Invalid(f.(errors := FormErrors(Some(NameRequired), None)))
    else if position.None? then NoPosition(f)
    else
      var busy := f.(errors := NoErrors, creating := true);
      match user
      case None => Unauthenticated(busy.(creating := false), NotAuthenticated)
      case Some(uid) =>
        Insert(busy, GhostInsert(Trim(f.name), true, uid, InitialRating(f.category), f.category), position.value)
  }

  /** After the insert: on success the form resets and the dialog closes; on failure an error is reported. */
  datatype Finish = Finish(form: GhostForm, open: bool, error: Option<string>)

  function FinishCreate(f: GhostForm, inserted: bool): (r: Finish)
    ensures !r.form.creating
    ensures inserted ==> r.form == InitialForm && !r.open && r.error.None?
    ensures !inserted ==> r.open && r.error == Some(CreateFailed) && r.form == f.(creating := false)
  {
    if inserted then Finish(ResetForm(f).(creating := false), false, None)
    else Finish(f.(creating := false), true, Some(CreateFailed))
  }

  /**
   * The create button is disabled while the trimmed name is empty or a
   * creation is running: enabled exactly when the name has a character other
   * than white space and nothing is being created.
   */
  function CreateDisabled(f: GhostForm): (disabled: bool)
    ensures !disabled <==> !f.creating && exists i | 0 <= i < |f.name| :: !IsWhitespace(f.name[i])
  {
    TrimEmptyIff(f.name);
    Trim(f.name) == "" || f.creating
  }

  /** A name of white space only is rejected, and nothing is inserted. */
  lemma BlankNameInsertsNothing(f: GhostForm, position: Option<PlayerPosition>, user: Option<string>)
    requires forall i | 0 <= i < |f.name| :: IsWhitespace(f.name[i])
    ensures HandleCreate(f, position, user).Invalid?
    ensures CreateDisabled(f)
  {
    TrimEmptyIff(f.name);
  }

  /** A ghost starts at its category's table rating, which is never below the rating floor. */
  lemma GhostSeededFromCategory(f: GhostForm, position: PlayerPosition, user: string)
    requires Trim(f.name) != ""
    ensures var step := HandleCreate(f, Some(position), Some(user));
      && step.Insert?
      && step.record.eloScore == InitialRating(f.category)
      && 1000 <= step.record.eloScore <= 2400
      && step.record.eloScore == ClampRating(step.record.eloScore)
  {
    InitialRatingBounds(f.category);
  }
}
