/**
 * Tournaments as the club screens show them: the status groups of the club's
 * tournament list, the dashboard figures, and the registration rule and
 * detail-page conditions of a single tournament.
 */
module Tournaments {
  import opened Wrappers
  import opened Text
  import Seqs

  datatype TournamentStatus = Draft | Open | InProgress | Finished | Cancelled

  datatype TournamentFormat = SingleElimination | DoubleElimination | RoundRobin | GroupsKnockout

  /**
   * A tournament summary. Dates are instants in milliseconds; `startDate` and
   * `endDate` are also kept as the stored text, which is what the detail page compares.
   */
  datatype Tournament = Tournament(
    id: string,
    name: string,
    status: TournamentStatus,
    startDate: string,
    endDate: Option<string>,
    registrationDeadline: Option<int>,
    entryFee: Option<real>,
    registrationCount: nat)

  predicate IsActive(t: Tournament) { t.status == Open || t.status == InProgress }
  predicate IsDraft(t: Tournament) { t.status == Draft }
  predicate IsFinished(t: Tournament) { t.status == Finished }
  predicate IsCancelled(t: Tournament) { t.status == Cancelled }

  /** The four groups of the club's tournament list. */
  datatype Groups = Groups(active: seq<Tournament>, draft: seq<Tournament>, finished: seq<Tournament>, cancelled: seq<Tournament>)

  /** An absent list groups like an empty one. */
  function GroupTournaments(ts: Option<seq<Tournament>>): (g: Groups)
    ensures ts.None? ==> g == Groups([], [], [], [])
    ensures forall t | t in g.active :: IsActive(t)
    ensures forall t | t in g.draft :: IsDraft(t)
    ensures forall t | t in g.finished :: IsFinished(t)
    ensures forall t | t in g.cancelled :: IsCancelled(t)
    ensures ts.Some? ==> Seqs.Subsequence(g.active, ts.value) && Seqs.Subsequence(g.draft, ts.value)
    ensures ts.Some? ==> Seqs.Subsequence(g.finished, ts.value) && Seqs.Subsequence(g.cancelled, ts.value)
  {
    var all := ts.GetOr([]);
    Seqs.FilterIsSubsequence(all, IsActive);
    Seqs.FilterIsSubsequence(all, IsDraft);
    Seqs.FilterIsSubsequence(all, IsFinished);
    Seqs.FilterIsSubsequence(all, IsCancelled);
    Groups(Seqs.Filter(all, IsActive), Seqs.Filter(all, IsDraft),
           Seqs.Filter(all, IsFinished), Seqs.Filter(all, IsCancelled))
  }

  /** The groups split the list: every tournament lands in exactly one, and the sizes add up. */
  lemma {:induction false} GroupsPartition(ts: seq<Tournament>)
    ensures var g := GroupTournaments(Some(ts));
      && multiset(g.active) + multiset(g.draft) + multiset(g.finished) + multiset(g.cancelled) == multiset(ts)
      && |g.active| + |g.draft| + |g.finished| + |g.cancelled| == |ts|
  {
    var g := GroupTournaments(Some(ts));
    if ts != [] {
      GroupsPartition(ts[1..]);
      assert ts == [ts[0]] + ts[1..];
    }
    assert |multiset(g.active) + multiset(g.draft) + multiset(g.finished) + multiset(g.cancelled)| == |multiset(ts)|;
  }

  /**
   * The tournaments the list draws: the active, draft and finished groups, in
   * that order. A tournament is drawn exactly when it is listed and not
   * cancelled, and nothing is drawn twice as often as it is listed.
   */
  function ShownTournaments(ts: Option<seq<Tournament>>): (shown: seq<Tournament>)
    ensures forall t :: t in shown <==> ts.Some? && t in ts.value && !IsCancelled(t)
    ensures ts.Some? ==> multiset(shown) <= multiset(ts.value)
    ensures ts.None? ==> shown == []
  {
    var g := GroupTournaments(ts);
    if ts.Some? then
      GroupsPartition(ts.value);
      g.active + g.draft + g.finished
    else g.active + g.draft + g.finished
  }

  /** The "no tournaments yet" message shows for a loaded, empty list only, and then no group is drawn. */
  function ShowEmptyState(ts: Option<seq<Tournament>>): (shown: bool)
    ensures shown <==> ts == Some([])
    ensures shown ==> ShownTournaments(ts) == []
  {
    ts.Some? && |ts.value| == 0
  }

  /** No tournament belongs to two groups. */
  lemma GroupsDisjoint(ts: Option<seq<Tournament>>, t: Tournament)
    ensures var g := GroupTournaments(ts);
      (if t in g.active then 1 else 0) + (if t in g.draft then 1 else 0)
      + (if t in g.finished then 1 else 0) + (if t in g.cancelled then 1 else 0) <= 1
  {
  }

  // ---- Club dashboard ---------------------------------------------------

  /** How many of a kind the dashboard cards list at most. */
  const DashboardPreview: nat := 3

  function RegistrationCounts(ts: seq<Tournament>): (counts: seq<int>)
    ensures |counts| == |ts|
    ensures forall i | 0 <= i < |ts| :: counts[i] == ts[i].registrationCount
  {
    seq(|ts|, i requires 0 <= i < |ts| => ts[i].registrationCount as int)
  }

  /**
   * What the dashboard shows once loaded: the total count, the registrations
   * sum, and up to three active and three draft tournaments (an empty preview
   * hides its card).
   */
  datatype Dashboard =
    | ClubMissing(message: string)
    | Stats(total: nat, totalRegistrations: int, active: seq<Tournament>, drafts: seq<Tournament>)

  const ClubNotFound: string := "No se encontró tu club"

  function TotalRegistrations(ts: Option<seq<Tournament>>): (total: int)
    ensures total >= 0
    ensures ts.None? ==> total == 0
  {
    if ts.Some? then
      var counts := RegistrationCounts(ts.value);
      Seqs.SumNonNegative(counts);
      Seqs.Sum(counts)
    else 0
  }

  function ClubDashboard(hasClub: bool, ts: Option<seq<Tournament>>): (d: Dashboard)
    ensures !hasClub <==> d == ClubMissing(ClubNotFound)
    ensures d.Stats? ==> d.total == (if ts.Some? then |ts.value| else 0)
    ensures d.Stats? ==> d.totalRegistrations >= 0
    ensures d.Stats? && ts.None? ==> d.totalRegistrations == 0
    ensures d.Stats? ==> |d.active| <= DashboardPreview && |d.drafts| <= DashboardPreview
    ensures d.Stats? ==> (d.active == [] <==> GroupTournaments(ts).active == [])
    ensures d.Stats? ==> (d.drafts == [] <==> GroupTournaments(ts).draft == [])
  {
    if !hasClub then ClubMissing(ClubNotFound)
    else
      var g := GroupTournaments(ts);
      Stats(if ts.Some? then |ts.value| else 0, TotalRegistrations(ts),
            Seqs.Take(g.active, DashboardPreview), Seqs.Take(g.draft, DashboardPreview))
  }

  /** The registrations figure is the sum of the per-tournament counts: 0 for none, and no count exceeds it. */
  lemma TotalRegistrationsIsSum(ts: seq<Tournament>, extra: Tournament)
    ensures ClubDashboard(true, Some([])).totalRegistrations == 0
    ensures ClubDashboard(true, Some([extra] + ts)).totalRegistrations
      == extra.registrationCount + ClubDashboard(true, Some(ts)).totalRegistrations
    ensures forall t | t in ts :: t.registrationCount <= ClubDashboard(true, Some(ts)).totalRegistrations
  {
    var c := RegistrationCounts([extra] + ts);
    assert c[1..] == RegistrationCounts(ts);
    Seqs.SumNonNegative(RegistrationCounts(ts));
    forall t | t in ts ensures t.registrationCount <= ClubDashboard(true, Some(ts)).totalRegistrations {
      var i :| 0 <= i < |ts| && ts[i] == t;
      assert RegistrationCounts(ts)[i] == t.registrationCount;
    }
  }

  /** The dashboard previews are the first three of each group, in list order; groups never share a tournament. */
  lemma DashboardPreviewsAreFirstThree(ts: seq<Tournament>)
    ensures var d := ClubDashboard(true, Some(ts));
      var g := GroupTournaments(Some(ts));
      && d.active == Seqs.Take(g.active, 3)
      && d.drafts == Seqs.Take(g.draft, 3)
      && (forall t | t in d.active + d.drafts :: !IsCancelled(t) && !IsFinished(t))
      && (forall t | t in d.active :: t !in g.draft)
  {
  }

  // ---- Tournament detail -------------------------------------------------

  /** Registration is open for an open tournament whose deadline, if any, is still ahead. */
  function IsRegistrationOpen(t: Tournament, now: int): (open: bool)
    ensures open ==> t.status == Open
    ensures t.status == Open && t.registrationDeadline.None? ==> open
    ensures t.status == Open && t.registrationDeadline.Some? ==> (open <==> t.registrationDeadline.value > now)
  {
    t.status == Open && (t.registrationDeadline.None? || t.registrationDeadline.value > now)
  }

  /** Registration never reopens as time passes. */
  lemma RegistrationClosesForGood(t: Tournament, now: int, later: int)
    requires now <= later && IsRegistrationOpen(t, later)
    ensures IsRegistrationOpen(t, now)
  {
  }

  /** The end date is printed when there is one and it differs from the start date. */
  function ShowsEndDate(t: Tournament): (shown: bool)
    ensures shown <==> Present(t.endDate) && t.endDate.value != t.startDate
  {
    t.endDate.Some? && t.endDate.value != "" && t.endDate.value != t.startDate
  }

  /** How the fee line of the detail page renders. */
  datatype FeeNode =
    | NoFee                    // nothing is drawn
    | StrayText(text: string)  // a bare value leaks into the page as text
    | FeeBlock(amount: real)   // the "Inscripción" line with the amount

  /**
   * The fee line as written: the fee itself is used as the condition, so a fee
   * of 0 is falsy and is rendered as the text "0" instead of nothing.
   */
  function EntryFeeNodeAsWritten(fee: Option<real>): (node: FeeNode)
    ensures fee.None? ==> node == NoFee
    ensures fee.Some? && fee.value == 0.0 ==> node == StrayText("0")
    ensures fee.Some? && fee.value != 0.0 ==> node == FeeBlock(fee.value)
  {
    match fee
    case None => NoFee
    case Some(amount) => if amount == 0.0 then StrayText("0") else FeeBlock(amount)
  }

  /** A free tournament leaves a bare "0" in the as-written page. */
  lemma FreeTournamentShowsStrayZero()
    ensures EntryFeeNodeAsWritten(Some(0.0)) == StrayText("0")
  {
  }

  /** The fee line as evidently intended: shown for a non-zero fee, nothing otherwise. */
  function EntryFeeNode(fee: Option<real>): (node: FeeNode)
    ensures !node.StrayText?
    ensures node.FeeBlock? <==> fee.Some? && fee.value != 0.0
    ensures node.FeeBlock? ==> node.amount == fee.value
  {
    if fee.Some? && fee.value != 0.0 then FeeBlock(fee.value) else NoFee
  }

  /** The intended fee line differs from the written one only for a zero fee. */
  lemma EntryFeeNodeAgreesExceptZero(fee: Option<real>)
    ensures EntryFeeNode(fee) == EntryFeeNodeAsWritten(fee) <==> fee != Some(0.0)
  {
  }

  // ---- Labels ------------------------------------------------------------

  function StatusLabel(s: TournamentStatus): string
  {
    match s
    case Draft => "Borrador"
    case Open => "Inscripciones Abiertas"
    case InProgress => "En Curso"
    case Finished => "Finalizado"
    case Cancelled => "Cancelado"
  }

  function FormatLabel(f: TournamentFormat): string
  {
    match f
    case SingleElimination => "Eliminación Simple"
    case DoubleElimination => "Eliminación Doble"
    case RoundRobin => "Todos contra Todos"
    case GroupsKnockout => "Fase de Grupos + Eliminatorias"
  }

  /** No two statuses, and no two formats, share a label, so a label names its value. */
  lemma LabelsAreDistinct(s: TournamentStatus, t: TournamentStatus, f: TournamentFormat, g: TournamentFormat)
    ensures StatusLabel(s) == StatusLabel(t) <==> s == t
    ensures FormatLabel(f) == FormatLabel(g) <==> f == g
    ensures StatusLabel(s) != "" && FormatLabel(f) != ""
  {
    if s != t {
      assert StatusLabel(s)[0] != StatusLabel(t)[0] || |StatusLabel(s)| != |StatusLabel(t)|;
    }
    if f != g {
      assert FormatLabel(f)[0] != FormatLabel(g)[0] || FormatLabel(f)[13] != FormatLabel(g)[13]
        || |FormatLabel(f)| != |FormatLabel(g)|;
    }
  }
}
