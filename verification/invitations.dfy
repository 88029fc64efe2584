/**
 * The club's invitation history: relative-time labels, the pending/history
 * split, expiry, and what each invitation card shows.
 */
module Invitations {
  import opened Wrappers
  import opened Text
  import Seqs
  import InviteStaff

  // ---- Relative time ---------------------------------------------------

  /** Whole seconds from `from` to `to` (both in milliseconds), rounded down. */
  function ElapsedSeconds(from: int, to: int): (d: int)
    ensures 1000 * d <= to - from < 1000 * d + 1000
  {
    (to - from) / 1000
  }

  /** The unit a distance is told in, with its count. */
  datatype Distance = FewSeconds | Minutes(n: nat) | Hours(n: nat) | Days(n: nat)

  /** Picks the largest unit that fits, counting whole units; anything under a minute, negative included, is "a few seconds". */
  function DistanceOf(seconds: int): (d: Distance)
    ensures d == FewSeconds <==> seconds < 60
    ensures d.Minutes? ==> 1 <= d.n < 60 && 60 * d.n <= seconds < 60 * d.n + 60
    ensures d.Hours? ==> 1 <= d.n < 24 && 3600 * d.n <= seconds < 3600 * d.n + 3600
    ensures d.Days? ==> 1 <= d.n && 86400 * d.n <= seconds < 86400 * d.n + 86400
  {
    if seconds < 60 then FewSeconds
    else if seconds < 3600 then Minutes(seconds / 60)
    else if seconds < 86400 then Hours(seconds / 3600)
    else Days(seconds / 86400)
  }

  /** More time never reads as a smaller unit. */
  lemma DistanceUnitMonotonic(a: int, b: int)
    requires a <= b
    ensures UnitRank(DistanceOf(a)) <= UnitRank(DistanceOf(b))
  {
  }

  function UnitRank(d: Distance): nat {
    match d
    case FewSeconds => 0
    case Minutes(_) => 1
    case Hours(_) => 2
    case Days(_) => 3
  }

  function Plural(n: nat): (s: string)
    ensures s == "s" <==> n > 1
    ensures s == [] <==> n <= 1
  {
    if n > 1 then "s" else ""
  }

  function UnitWord(d: Distance): string
  {
    match d
    case FewSeconds => "segundos"
    case Minutes(_) => "minuto"
    case Hours(_) => "hora"
    case Days(_) => "día"
  }

  /** The words after the lead word: "unos segundos", or the count, the unit and its plural mark. */
  function Body(d: Distance): string
  {
    if d.FewSeconds? then "unos segundos"
    else NatToString(d.n) + " " + UnitWord(d) + Plural(d.n)
  }

  /** The phrase for a distance, after the given lead word ("hace" for the past). */
  function Phrase(lead: string, d: Distance): string
  {
    lead + " " + Body(d)
  }

  /**
   * `formatDistanceToNow`: how long ago `date` was, seen at `now`. The phrase
   * starts with "hace", names exactly one distance (the elapsed one), and is
   * "hace unos segundos" exactly when under a minute has passed.
   */
  function TimeAgo(now: int, date: int): (s: string)
    ensures |s| > 5 && s[..5] == "hace "
    ensures forall d :: s == Phrase("hace", d) <==> d == DistanceOf(ElapsedSeconds(date, now))
    ensures s == "hace unos segundos" <==> ElapsedSeconds(date, now) < 60
  {
    PhraseNamesDistance("hace", DistanceOf(ElapsedSeconds(date, now)));
    assert Phrase("hace", FewSeconds) == "hace unos segundos";
    Phrase("hace", DistanceOf(ElapsedSeconds(date, now)))
  }

  /** Length of the run of digits `s` starts with. */
  function LeadingDigits(s: string): (k: nat)
    ensures k <= |s|
  {
    if s == [] || !IsDigit(s[0]) then 0 else 1 + LeadingDigits(s[1..])
  }

  lemma {:induction false} LeadingDigitsBeforeSpace(a: string, r: string)
    requires forall i | 0 <= i < |a| :: IsDigit(a[i])
    ensures LeadingDigits(a + " " + r) == |a|
  {
    if a != [] {
      assert (a + " " + r)[1..] == a[1..] + " " + r;
      LeadingDigitsBeforeSpace(a[1..], r);
    }
  }

  /** A digit run followed by a space splits a string in one way only. */
  lemma DigitsThenSpace(a: string, r: string, b: string, t: string)
    requires forall i | 0 <= i < |a| :: IsDigit(a[i])
    requires forall i | 0 <= i < |b| :: IsDigit(b[i])
    requires a + " " + r == b + " " + t
    ensures a == b && r == t
  {
    LeadingDigitsBeforeSpace(a, r);
    LeadingDigitsBeforeSpace(b, t);
    var x := a + " " + r;
    assert x[..|a|] == a && x[|a| + 1..] == r;
    assert (b + " " + t)[..|b|] == b && (b + " " + t)[|b| + 1..] == t;
  }

  /** The words start with digits exactly when a count is given. */
  lemma BodyLeadingDigits(d: Distance)
    ensures d.FewSeconds? ==> LeadingDigits(Body(d)) == 0
    ensures !d.FewSeconds? ==> Body(d) == NatToString(d.n) + " " + (UnitWord(d) + Plural(d.n))
    ensures !d.FewSeconds? ==> LeadingDigits(Body(d)) == |NatToString(d.n)| > 0
  {
    if !d.FewSeconds? {
      LeadingDigitsBeforeSpace(NatToString(d.n), UnitWord(d) + Plural(d.n));
    }
  }

  /** Counted distances with the same words have the same count and unit. */
  lemma CountedBodyDeterminesDistance(d: Distance, e: Distance)
    requires !d.FewSeconds? && !e.FewSeconds? && Body(d) == Body(e)
    ensures d == e
  {
    BodyLeadingDigits(d);
    BodyLeadingDigits(e);
    var u, v := UnitWord(d) + Plural(d.n), UnitWord(e) + Plural(e.n);
    DigitsThenSpace(NatToString(d.n), u, NatToString(e.n), v);
    NatToStringInjective(d.n, e.n);
    assert u[0] == UnitWord(d)[0] && v[0] == UnitWord(e)[0];
  }

  /** The words after the lead name the distance. */
  lemma BodyDeterminesDistance(d: Distance, e: Distance)
    requires Body(d) == Body(e)
    ensures d == e
  {
    BodyLeadingDigits(d);
    BodyLeadingDigits(e);
    if !d.FewSeconds? && !e.FewSeconds? {
      CountedBodyDeterminesDistance(d, e);
    }
  }

  /** The phrase names the distance: two distances with the same phrase are the same. */
  lemma PhraseDeterminesDistance(lead: string, d: Distance, e: Distance)
    requires Phrase(lead, d) == Phrase(lead, e)
    ensures d == e
  {
    assert Phrase(lead, d)[|lead| + 1..] == Body(d);
    assert Phrase(lead, e)[|lead| + 1..] == Body(e);
    BodyDeterminesDistance(d, e);
  }

  /** A phrase is the phrase of one distance only. */
  lemma PhraseNamesDistance(lead: string, e: Distance)
    ensures forall d :: Phrase(lead, d) == Phrase(lead, e) <==> d == e
  {
    forall d | Phrase(lead, d) == Phrase(lead, e)
      ensures d == e
    {
      PhraseDeterminesDistance(lead, d, e);
    }
  }

  /** "Minutes" and the like are plural exactly when the count exceeds one. */
  lemma PhrasePlural(lead: string, n: nat)
    ensures Phrase(lead, Minutes(n))[|Phrase(lead, Minutes(n))| - 1] == 's' <==> n > 1
  {
  }

  // ---- Invitations -----------------------------------------------------

  datatype InvitationStatus = Pending | Accepted | Rejected | Expired

  function StatusLabel(s: InvitationStatus): string
  {
    match s
    case Pending => "Pendiente"
    case Accepted => "Aceptada"
    case Rejected => "Rechazada"
    case Expired => "Expirada"
  }

  /** No two statuses share a label, and none is empty. */
  lemma StatusLabelsDistinct(s: InvitationStatus, t: InvitationStatus)
    ensures StatusLabel(s) != ""
    ensures s != t ==> StatusLabel(s) != StatusLabel(t)
  {
  }

  /** An invitation; all instants are in milliseconds. */
  datatype Invitation = Invitation(
    email: string, role: InviteStaff.Role, status: InvitationStatus,
    createdAt: int, expiresAt: int, respondedAt: Option<int>, inviteToken: string)

  predicate IsPending(i: Invitation) { i.status == Pending }
  predicate NotPending(i: Invitation) { i.status != Pending }

  /**
   * A pending invitation past its expiry instant; the stored status may still
   * say pending. Only a pending invitation can be expired, and then the time
   * since its expiry is never negative.
   */
  function IsExpired(i: Invitation, now: int): (expired: bool)
    ensures expired ==> i.status == Pending && ElapsedSeconds(i.expiresAt, now) >= 0
    ensures i.status == Pending && ElapsedSeconds(i.expiresAt, now) >= 1 ==> expired
  {
    i.status == Pending && i.expiresAt < now
  }

  /** Once expired, an invitation stays expired; a pending one is at each instant either expired or offers its link. */
  lemma ExpiryIsFinal(i: Invitation, now: int, later: int)
    requires now <= later
    ensures IsExpired(i, now) ==> IsExpired(i, later)
    ensures i.status == Pending ==> (IsExpired(i, now) <==> !ShowsLink(i, now))
  {
  }

  /** What the history shows: a "none sent" message, or the pending section and the history section. */
  datatype History = NoneSent | Sections(pending: seq<Invitation>, others: seq<Invitation>)

  function HistoryOf(invitations: Option<seq<Invitation>>): (h: History)
    ensures h == NoneSent <==> invitations.None? || invitations.value == []
    ensures h.Sections? ==> Seqs.Subsequence(h.pending, invitations.value) && Seqs.Subsequence(h.others, invitations.value)
    ensures h.Sections? ==> (forall i | i in h.pending :: IsPending(i)) && (forall i | i in h.others :: !IsPending(i))
  {
    match invitations
    case None => NoneSent
    case Some(all) =>
      if all == [] then NoneSent
      else
        Seqs.FilterIsSubsequence(all, IsPending);
        Seqs.FilterIsSubsequence(all, NotPending);
        Sections(Seqs.Filter(all, IsPending), Seqs.Filter(all, NotPending))
  }

  /** Every invitation appears exactly once across the two sections. */
  lemma HistoryShowsEachOnce(all: seq<Invitation>)
    requires all != []
    ensures var h := HistoryOf(Some(all));
      multiset(h.pending) + multiset(h.others) == multiset(all)
  {
    Seqs.FilterPartition(all, IsPending, NotPending);
  }

  /** The expiry note of a card, if any, with the written formatter: it tells the time elapsed since expiry. */
  function ExpiryNoteAsWritten(i: Invitation, now: int): (note: Option<string>)
    ensures note.Some? <==> i.status == Pending
    ensures i.status == Pending && IsExpired(i, now) ==> note == Some("Expirada")
    ensures i.status == Pending && !IsExpired(i, now) ==> note == Some("Expira " + TimeAgo(now, i.expiresAt))
  {
    if i.status != Pending then None
    else if IsExpired(i, now) then Some("Expirada")
    else Some("Expira " + TimeAgo(now, i.expiresAt))
  }

  /** A live pending invitation always reads "expires a few seconds ago", however far away its expiry is. */
  lemma LiveInvitationReadsAsJustExpired(i: Invitation, now: int)
    requires i.status == Pending && !IsExpired(i, now)
    ensures ExpiryNoteAsWritten(i, now) == Some("Expira hace unos segundos")
  {
    assert DistanceOf(ElapsedSeconds(i.expiresAt, now)) == FewSeconds;
    assert TimeAgo(now, i.expiresAt) == "hace unos segundos";
    assert "Expira " + "hace unos segundos" == "Expira hace unos segundos";
  }

  /** The concrete case: an invitation with thirty days left. */
  lemma ThirtyDaysLeftAsWritten(i: Invitation, now: int)
    requires i.status == Pending && i.expiresAt == now + 30 * 86400000
    ensures ExpiryNoteAsWritten(i, now) == Some("Expira hace unos segundos")
  {
    LiveInvitationReadsAsJustExpired(i, now);
  }

  /** How far ahead `date` is, seen at `now`. */
  function TimeUntil(now: int, date: int): string
  {
    Phrase("en", DistanceOf(ElapsedSeconds(now, date)))
  }

  /** The expiry note as evidently intended: the time left until expiry. */
  function ExpiryNote(i: Invitation, now: int): (note: Option<string>)
    ensures note.Some? <==> i.status == Pending
    ensures IsExpired(i, now) ==> note == Some("Expirada")
    ensures i.status == Pending && !IsExpired(i, now) ==>
      note == Some("Expira " + Phrase("en", DistanceOf(ElapsedSeconds(now, i.expiresAt))))
  {
    if i.status != Pending then None
    else if IsExpired(i, now) then Some("Expirada")
    else Some("Expira " + TimeUntil(now, i.expiresAt))
  }

  /** With the intended note, different remaining times in different units read differently. */
  lemma ExpiryNoteTellsTimeLeft(i: Invitation, j: Invitation, now: int)
    requires i.status == Pending && !IsExpired(i, now) && j.status == Pending && !IsExpired(j, now)
    requires DistanceOf(ElapsedSeconds(now, i.expiresAt)) != DistanceOf(ElapsedSeconds(now, j.expiresAt))
    ensures ExpiryNote(i, now) != ExpiryNote(j, now)
  {
    var a := Phrase("en", DistanceOf(ElapsedSeconds(now, i.expiresAt)));
    var b := Phrase("en", DistanceOf(ElapsedSeconds(now, j.expiresAt)));
    if a == b {
      PhraseDeterminesDistance("en", DistanceOf(ElapsedSeconds(now, i.expiresAt)), DistanceOf(ElapsedSeconds(now, j.expiresAt)));
    }
    assert ("Expira " + a)[7..] == a && ("Expira " + b)[7..] == b;
  }

  /** Thirty days left reads as thirty days. */
  lemma ThirtyDaysLeft(i: Invitation, now: int)
    requires i.status == Pending && i.expiresAt == now + 30 * 86400000
    ensures DistanceOf(ElapsedSeconds(now, i.expiresAt)) == Days(30)
  {
  }

  /** The invitation link is offered only for a pending invitation that has not expired. */
  function ShowsLink(i: Invitation, now: int): (shown: bool)
    ensures shown <==> i.status == Pending && now <= i.expiresAt
  {
    i.status == Pending && !IsExpired(i, now)
  }

  /** The "responded" note shows when a response instant is recorded. */
  function RespondedNote(i: Invitation, now: int): (note: Option<string>)
    ensures note.Some? <==> i.respondedAt.Some?
    ensures note.Some? ==> note.value == "Respondida " + TimeAgo(now, i.respondedAt.value)
  {
    if i.respondedAt.Some? then Some("Respondida " + TimeAgo(now, i.respondedAt.value)) else None
  }
}
