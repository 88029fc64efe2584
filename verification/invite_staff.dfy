/**
 * The "invite staff" dialog of a club: the e-mail shape check, the guard
 * order, how the invitation call's reply becomes dialog state, and closing.
 */
module InviteStaff {
  import opened Wrappers
  import opened Text

  datatype Role = Owner | Admin | Staff | Member

  function RoleLabel(r: Role): string
  {
    match r
    case Owner => "Propietario"
    case Admin => "Administrador"
    case Staff => "Staff"
    case Member => "Miembro"
  }

  /** No two roles share a label. */
  lemma RoleLabelsDistinct(r: Role, q: Role)
    ensures RoleLabel(r) == RoleLabel(q) <==> r == q
  {
    if r != q {
      assert RoleLabel(r)[0] != RoleLabel(q)[0] || |RoleLabel(r)| != |RoleLabel(q)|;
    }
  }

  // ---- E-mail shape ----------------------------------------------------

  /** A character the pattern's `[^\s@]` class accepts. */
  predicate PlainChar(c: char) {
    !IsWhitespace(c) && c != '@'
  }

  predicate Plain(t: string) {
    forall k | 0 <= k < |t| :: PlainChar(t[k])
  }

  /** `s` reads as local part, '@' at `i`, domain, '.' at `j`, and a non-empty suffix. */
  predicate EmailSplit(s: string, i: int, j: int) {
    && 0 < i && i + 1 < j && j + 1 < |s|
    && s[i] == '@' && s[j] == '.'
    && Plain(s[..i]) && Plain(s[i + 1..j]) && Plain(s[j + 1..])
  }

  /** The pattern `^[^\s@]+@[^\s@]+\.[^\s@]+$`: some choice of '@' and '.' splits `s` that way. */
  predicate EmailPattern(s: string) {
    exists i, j | 0 <= i < j < |s| :: EmailSplit(s, i, j)
  }

  /**
   * A single left-to-right scan deciding the pattern: exactly one '@', not
   * first, no white space, and a '.' strictly between the '@' and the last
   * character with a character on each side.
   */
  method MatchesEmail(s: string) returns (ok: bool)
    ensures ok <==> EmailPattern(s)
  {
    var at := -1;
    var second := -1;
    var spaceAt := -1;
    var lastDot := -1;
    for k := 0 to |s|
      invariant -1 <= at < k && -1 <= second < k && -1 <= spaceAt < k && -1 <= lastDot < k
      invariant at == -1 ==> forall m | 0 <= m < k :: s[m] != '@'
      invariant at >= 0 ==> s[at] == '@' && forall m | 0 <= m < at :: s[m] != '@'
      invariant second == -1 && at >= 0 ==> forall m | at < m < k :: s[m] != '@'
      invariant second >= 0 ==> at >= 0 && at < second && s[second] == '@'
      invariant spaceAt == -1 ==> forall m | 0 <= m < k :: !IsWhitespace(s[m])
      invariant spaceAt >= 0 ==> IsWhitespace(s[spaceAt])
      invariant lastDot >= 0 ==> lastDot + 1 < |s| && s[lastDot] == '.'
      invariant forall m | lastDot < m < k && m + 1 < |s| :: s[m] != '.'
    {
      if s[k] == '@' {
        if at == -1 { at := k; } else if second == -1 { second := k; }
      }
      if IsWhitespace(s[k]) && spaceAt == -1 {
        spaceAt := k;
      }
      if s[k] == '.' && k + 1 < |s| {
        lastDot := k;
      }
    }
    ok := at > 0 && second == -1 && spaceAt == -1 && lastDot > at + 1;
    if ok {
      SplitByCharacters(s, at, lastDot);
    }
    if EmailPattern(s) {
      var i, j :| 0 <= i < j < |s| && EmailSplit(s, i, j);
      SplitByCharacters(s, i, j);
      assert s[i] == '@' && s[j] == '.';
    }
  }

  /** The split read character by character: one '@' at `i`, a '.' at `j`, and no white space. */
  predicate SplitAt(s: string, i: int, j: int) {
    && 0 < i && i + 1 < j && j + 1 < |s|
    && s[i] == '@' && s[j] == '.'
    && NoWhitespace(s)
    && forall m | 0 <= m < |s| && m != i :: s[m] != '@'
  }

  lemma SplitByCharacters(s: string, i: int, j: int)
    ensures EmailSplit(s, i, j) <==> SplitAt(s, i, j)
  {
    if 0 < i && i + 1 < j && j + 1 < |s| {
      var a, b, c := s[..i], s[i + 1..j], s[j + 1..];
      assert forall m | 0 <= m < i :: a[m] == s[m];
      assert forall m | i < m < j :: b[m - i - 1] == s[m];
      assert forall m | j < m < |s| :: c[m - j - 1] == s[m];
    }
  }

  /** Lower-casing keeps an address's shape, and trimming a valid address changes nothing. */
  lemma NormalizedEmailKeepsShape(s: string, i: int, j: int)
    requires 0 <= i < j < |s| && EmailSplit(s, i, j)
    ensures EmailSplit(Lower(s), i, j)
    ensures Trim(Lower(s)) == Lower(s)
  {
    var l := Lower(s);
    SplitByCharacters(s, i, j);
    LowerKeepsNoWhitespace(s);
    assert l[i] == '@' && l[j] == '.';
    assert forall m | 0 <= m < |l| && m != i :: l[m] != '@' by {
      forall m | 0 <= m < |l| && m != i ensures l[m] != '@' {
        assert l[m] == LowerChar(s[m]);
      }
    }
    assert SplitAt(l, i, j);
    SplitByCharacters(l, i, j);
    TrimNoWhitespace(l);
  }

  // ---- Dialog state ----------------------------------------------------

  datatype Dialog = Dialog(
    email: string, role: Role, loading: bool,
    error: Option<string>, success: bool, token: Option<string>)

  function InitialDialog(): (d: Dialog)
    ensures d.email == "" && d.role == Member && !d.loading && d.error.None? && !d.success && d.token.None?
  {
    Dialog("", Member, false, None, false, None)
  }

  const InvalidClub: string := "ID del club no válido"
  const InvalidEmail: string := "Por favor ingresá un email válido"
  const InviteFailed: string := "Error al enviar la invitación"

  /** The JSON the invitation procedure answers with. */
  datatype InviteData = InviteData(success: bool, error: Option<string>, token: Option<string>)

  /** How the invitation call ends. */
  datatype Reply =
    | CallError(message: string)          // the call reports an error object
    | CallData(data: Option<InviteData>)  // the call returns (possibly null) data
    | CallThrew(message: string)          // the call raises

  /** The invitation procedure's arguments. */
  datatype InviteCall = InviteCall(clubId: string, email: string, role: Role)

  /** The notification mail: recipient and subject. */
  datatype Mail = Mail(to: string, subject: string)

  /** The club's name, or "el club" when it has none. */
  function ClubNameOr(clubName: Option<string>): (n: string)
    ensures n != ""
    ensures Present(clubName) ==> n == clubName.value
  {
    if Present(clubName) then clubName.value else "el club"
  }

  /** The invitation mail's subject: it names the club, or "el club" without a name. */
  function InviteSubject(clubName: Option<string>): (subject: string)
    ensures |subject| == 21 + |ClubNameOr(clubName)| && subject[..13] == "Invitación a "
    ensures subject[13..|subject| - 8] == ClubNameOr(clubName)
    ensures subject[|subject| - 8..] == " en Vibo"
  {
    "Invitación a " + ClubNameOr(clubName) + " en Vibo"
  }

  /** What one press of "invite" does: the new state, the call made (if any) and the mail sent (if any). */
  datatype Run = Run(state: Dialog, call: Option<InviteCall>, mail: Option<Mail>)

  /** A message, or the default one when it is empty. */
  function MessageOr(m: string): (r: string)
    ensures r != ""
    ensures m != "" ==> r == m
  {
    if m == "" then InviteFailed else m
  }

  /** The error shown for a reply that is not a success, or None for a success. */
  function ReplyError(reply: Reply): (e: Option<string>)
    ensures e.Some? ==> e.value != ""
    ensures e.None? <==> reply.CallData? && reply.data.Some? && reply.data.value.success
    ensures reply.CallError? || reply.CallThrew? ==> e == Some(MessageOr(reply.message))
    ensures reply == CallData(None) ==> e == Some(InviteFailed)
    ensures reply.CallData? && reply.data.Some? && !reply.data.value.success ==>
      e == Some(if Present(reply.data.value.error) then reply.data.value.error.value else InviteFailed)
  {
    match reply
    case CallError(m) => Some(MessageOr(m))
    case CallThrew(m) => Some(MessageOr(m))
    case CallData(None) => Some(InviteFailed)
    case CallData(Some(data)) =>
      if data.success then None
      else Some(if Present(data.error) then data.error.value else InviteFailed)
  }

  /**
   * Pressing "invite". The outcome of delivering the mail is not read by the
   * dialog, so it is not an input here. `resetLoading` says whether the success path
   * turns the spinner off: the dialog as written never does, the corrected dialog does.
   */
  function Invite(d: Dialog, clubId: string, clubName: Option<string>, reply: Reply, resetLoading: bool): (run: Run)
    ensures run.call.None? <==> clubId == "" || !EmailPattern(d.email)
    ensures run.state.success <==> run.call.Some? && ReplyError(reply).None?
    ensures run.state.success <==> run.mail.Some?
    ensures run.state.error.Some? <==> !run.state.success
    ensures run.state.loading <==> run.state.success && !resetLoading
    ensures run.call.Some? ==> run.state.error == ReplyError(reply)
    ensures run.state.success ==>
      reply.CallData? && reply.data.Some? && run.state.token == reply.data.value.token
  {
    var started := d.(error := None, success := false);
    if clubId == "" then
      Run(started.(error := Some(InvalidClub), loading := false), None, None)
    else if !EmailPattern(d.email) then
      Run(started.(error := Some(InvalidEmail), loading := false), None, None)
    else
      var address := Trim(Lower(d.email));
      var call := Some(InviteCall(clubId, address, d.role));
      match ReplyError(reply)
      case Some(e) => Run(started.(error := Some(e), loading := false), call, None)
      case None =>
        var token := reply.data.value.token;
        Run(started.(email := "", role := Member, success := true, token := token, loading := !resetLoading),
            call, Some(Mail(address, InviteSubject(clubName))))
  }

  /** The dialog as written: on success the spinner is left on. */
  function InviteAsWritten(d: Dialog, clubId: string, clubName: Option<string>, reply: Reply): (run: Run)
    ensures run.call.None? <==> clubId == "" || !EmailPattern(d.email)
    ensures run.state.success <==> run.mail.Some?
    ensures run.state.success ==> run.state.loading
  {
    Invite(d, clubId, clubName, reply, false)
  }

  /** After a successful invitation as written, the dialog cannot be closed by hand and stays disabled. */
  lemma SuccessLeavesDialogLocked(d: Dialog, clubId: string, clubName: Option<string>, data: InviteData)
    requires clubId != "" && EmailPattern(d.email) && data.success
    ensures var s := InviteAsWritten(d, clubId, clubName, CallData(Some(data))).state;
      s.loading && Close(s) == (s, false)
  {
  }

  /** The dialog as intended: every finished press turns the spinner off. */
  function HandleInvite(d: Dialog, clubId: string, clubName: Option<string>, reply: Reply): (run: Run)
    ensures !run.state.loading
    ensures clubId == "" ==> run.call.None? && run.state.error == Some(InvalidClub)
    ensures clubId != "" && !EmailPattern(d.email) ==> run.call.None? && run.state.error == Some(InvalidEmail)
    ensures run.call.Some? ==> run.call.value == InviteCall(clubId, Trim(Lower(d.email)), d.role)
    ensures run.call.Some? ==> (run.state.error.None? <==> run.state.success)
    ensures run.state.success ==> run.state.email == "" && run.state.role == Member
    ensures run.state.success <==> run.mail.Some?
    ensures run.mail.Some? ==> run.mail.value.to == Trim(Lower(d.email)) && run.mail.value.subject == InviteSubject(clubName)
    ensures !run.state.success ==> run.state.email == d.email && run.state.role == d.role
    ensures run.state.success ==>
      reply.CallData? && reply.data.Some? && run.state.token == reply.data.value.token
  {
    Invite(d, clubId, clubName, reply, true)
  }

  /** The club is checked before the address, and a failed check sends nothing. */
  lemma GuardsComeFirst(d: Dialog, clubName: Option<string>, reply: Reply)
    ensures HandleInvite(d, "", clubName, reply).state.error == Some(InvalidClub)
    ensures HandleInvite(d, "", clubName, reply).mail.None?
  {
  }

  /** The address sent is the typed one lower-cased; it still has the required shape. */
  lemma SentAddressIsValid(d: Dialog, clubId: string, clubName: Option<string>, reply: Reply)
    requires HandleInvite(d, clubId, clubName, reply).call.Some?
    ensures EmailPattern(HandleInvite(d, clubId, clubName, reply).call.value.email)
    ensures HandleInvite(d, clubId, clubName, reply).call.value.email == Lower(d.email)
  {
    var i, j :| 0 <= i < j < |d.email| && EmailSplit(d.email, i, j);
    NormalizedEmailKeepsShape(d.email, i, j);
  }

  /** A corrected success can be closed by hand, returning to the initial state. */
  lemma CorrectedSuccessCanClose(d: Dialog, clubId: string, clubName: Option<string>, data: InviteData)
    requires clubId != "" && EmailPattern(d.email) && data.success
    ensures var s := HandleInvite(d, clubId, clubName, CallData(Some(data))).state;
      Close(s).1 && Close(s).0 == InitialDialog().(token := s.token)
  {
  }

  /** Closing by hand: ignored while loading; otherwise the form is reset and the dialog closes. */
  function Close(d: Dialog): (r: (Dialog, bool))
    ensures r.1 <==> !d.loading
    ensures !r.1 ==> r.0 == d
    ensures r.1 ==> r.0.email == "" && r.0.role == Member && r.0.error.None? && !r.0.success
    ensures r.1 ==> r.0.token == d.token && !r.0.loading
  {
    if d.loading then (d, false)
    else (d.(email := "", role := Member, error := None, success := false), true)
  }

  /**
   * Two seconds after a success: the message and token are cleared. The same
   * timer also asks the parent to close the dialog; the parent is not part of
   * this model, so that request is not in the result.
   */
  function AfterSuccessDelay(d: Dialog): (r: Dialog)
    ensures !r.success && r.token.None?
    ensures r.(success := d.success, token := d.token) == d
  {
    d.(success := false, token := None)
  }
}
