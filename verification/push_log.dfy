/**
 * The push-notification test page: its bounded activity log, the status
 * panel refresh, subscribing, and sending a test notification.
 */
module PushTester {
  import opened Wrappers
  import opened Text
  import Seqs

  // ---- Activity log ----------------------------------------------------

  datatype LogKind = Info | Success | Error | Warning

  /** A log line; the timestamp is in milliseconds. */
  datatype LogEntry = LogEntry(timestamp: int, kind: LogKind, message: string)

  const MaxLogs: nat := 50

  /** A new entry goes on top; only the newest fifty are kept. */
  function AddLog(logs: seq<LogEntry>, e: LogEntry): (r: seq<LogEntry>)
    ensures |r| == if |logs| < MaxLogs then |logs| + 1 else MaxLogs
    ensures r[0] == e
    ensures forall i | 1 <= i < |r| :: r[i] == logs[i - 1]
  {
    [e] + Seqs.Take(logs, MaxLogs - 1)
  }

  /** Adding entries one after another, first to last. */
  function AddLogs(logs: seq<LogEntry>, es: seq<LogEntry>): seq<LogEntry>
    decreases |es|
  {
    if es == [] then logs else AddLogs(AddLog(logs, es[0]), es[1..])
  }

  function Reverse<T>(s: seq<T>): (r: seq<T>)
    ensures |r| == |s|
    ensures forall i | 0 <= i < |s| :: r[i] == s[|s| - 1 - i]
  {
    if s == [] then [] else Reverse(s[1..]) + [s[0]]
  }

  /** Cutting what follows a prefix to `n` does not change the first `n` of the whole. */
  lemma TakeAbsorbs<T>(a: seq<T>, b: seq<T>, n: nat)
    ensures Seqs.Take(a + Seqs.Take(b, n), n) == Seqs.Take(a + b, n)
  {
    var l := Seqs.Take(a + Seqs.Take(b, n), n);
    var r := Seqs.Take(a + b, n);
    assert |l| == |r|;
    forall i | 0 <= i < |l|
      ensures l[i] == r[i]
    {
      if i >= |a| {
        assert l[i] == Seqs.Take(b, n)[i - |a|];
      }
    }
  }

  /** The log always shows the newest entries first, cut to fifty, whatever was added. */
  lemma {:induction false} LogIsNewestFirst(logs: seq<LogEntry>, es: seq<LogEntry>)
    requires |logs| <= MaxLogs
    ensures AddLogs(logs, es) == Seqs.Take(Reverse(es) + logs, MaxLogs)
    decreases |es|
  {
    if es != [] {
      var e := es[0];
      var next := AddLog(logs, e);
      AddLogIsTake(logs, e);
      LogIsNewestFirst(next, es[1..]);
      var front := Reverse(es[1..]);
      ReverseSplit(es, logs);
      TakeAbsorbs(front, [e] + logs, MaxLogs);
    }
  }

  /** One addition is the new entry in front of the old log, cut to fifty. */
  lemma AddLogIsTake(logs: seq<LogEntry>, e: LogEntry)
    ensures AddLog(logs, e) == Seqs.Take([e] + logs, MaxLogs)
  {
  }

  /** Reversing peels off the first element at the back. */
  lemma ReverseSplit<T>(es: seq<T>, tail: seq<T>)
    requires es != []
    ensures Reverse(es) + tail == Reverse(es[1..]) + ([es[0]] + tail)
  {
    assert Reverse(es) == Reverse(es[1..]) + [es[0]];
    Associative(Reverse(es[1..]), [es[0]], tail);
  }

  lemma Associative<T>(a: seq<T>, b: seq<T>, c: seq<T>)
    ensures (a + b) + c == a + (b + c)
  {
  }

  /** The "clear" button: the log starts over, so it then holds exactly what is added next, newest first. */
  function ClearLogs(logs: seq<LogEntry>): (r: seq<LogEntry>)
    ensures forall es | |es| <= MaxLogs :: AddLogs(r, es) == Reverse(es)
  {
    EmptyLogReplays();
    []
  }

  /** Starting from an empty log, up to fifty additions are all kept, newest first. */
  lemma EmptyLogReplays()
    ensures forall es | |es| <= MaxLogs :: AddLogs([], es) == Reverse(es)
  {
    forall es | |es| <= MaxLogs
      ensures AddLogs([], es) == Reverse(es)
    {
      LogIsNewestFirst([], es);
      assert Reverse(es) + [] == Reverse(es);
    }
  }

  // ---- Status panel ----------------------------------------------------

  datatype Permission = Default | Granted | Denied | Unsupported

  datatype Panel = Panel(
    loading: bool, supported: bool, permission: Permission, vapidConfigured: bool,
    serviceWorkerRegistered: bool, subscribed: bool)

  /** Before the first status read: loading, nothing known, subscribing offered and sending disabled. */
  function InitialPanel(): (p: Panel)
    ensures p.loading && !p.supported && !p.subscribed && !p.serviceWorkerRegistered && !p.vapidConfigured
    ensures ShowsSubscribe(p) && SendDisabled(false, p)
  {
    Panel(true, false, Default, false, false, false)
  }

  /** What probing the service worker yields, in the order the probes run. */
  datatype Probe =
    | Probed(registered: bool, subscribed: bool)  // both probes answered
    | RegistrationThrew                           // the first probe failed
    | SubscriptionThrew(registered: bool)         // the second probe failed

  /**
   * Refreshing the status: support, permission and key are always read; the
   * service worker is probed only when supported, and a failed probe leaves
   * what it did not reach unchanged. Returns the panel and the lines logged.
   */
  function CheckStatus(p: Panel, supported: bool, permission: Permission, vapidKey: Option<string>, probe: Probe)
    : (r: (Panel, seq<LogKind>))
    ensures !r.0.loading && r.0.supported == supported && r.0.permission == permission
    ensures r.0.vapidConfigured <==> Present(vapidKey)
    ensures !supported ==> r.0.serviceWorkerRegistered == p.serviceWorkerRegistered && r.0.subscribed == p.subscribed
    ensures supported && probe.Probed? ==> r.0.serviceWorkerRegistered == probe.registered && r.0.subscribed == probe.subscribed
    ensures supported && probe.RegistrationThrew? ==> r.0.serviceWorkerRegistered == p.serviceWorkerRegistered && r.0.subscribed == p.subscribed
    ensures supported && probe.SubscriptionThrew? ==> r.0.serviceWorkerRegistered == probe.registered && r.0.subscribed == p.subscribed
    ensures |r.1| == (if supported then (if probe.Probed? then 6 else if probe.RegistrationThrew? then 5 else 6) else 4)
    ensures r.1[1] == (if supported then Success else Error)
    ensures r.1[3] == (if Present(vapidKey) then Success else Warning)
  {
    var vapid := Present(vapidKey);
    var base := [Info, if supported then Success else Error, Info, if vapid then Success else Warning];
    var q := p.(loading := false, supported := supported, permission := permission, vapidConfigured := vapid);
    if !supported then (q, base)
    else match probe
      case Probed(reg, sub) =>
        (q.(serviceWorkerRegistered := reg, subscribed := sub),
         base + [if reg then Success else Error, if sub then Success else Info])
      case RegistrationThrew => (q, base + [Error])
      case SubscriptionThrew(reg) =>
        (q.(serviceWorkerRegistered := reg), base + [if reg then Success else Error, Error])
  }

  /**
   * Reading the same status again changes nothing; and a read that probed both
   * answers leaves a panel that does not depend on what was shown before.
   */
  lemma CheckStatusSettles(p: Panel, p': Panel, supported: bool, permission: Permission, vapidKey: Option<string>, probe: Probe)
    ensures var q := CheckStatus(p, supported, permission, vapidKey, probe).0;
      CheckStatus(q, supported, permission, vapidKey, probe).0 == q
    ensures supported && probe.Probed? ==>
      CheckStatus(p, supported, permission, vapidKey, probe).0 == CheckStatus(p', supported, permission, vapidKey, probe).0
  {
  }

  /** What the browser and the environment report when the status is read again. */
  datatype StatusReading = StatusReading(supported: bool, permission: Permission, vapidKey: Option<string>, probe: Probe)

  /**
   * Subscribing: on success the page marks itself subscribed with permission
   * granted and then reads the whole status again, so the re-read has the last
   * word; on failure only the error line is logged. Returns the panel and the
   * lines logged.
   */
  function Subscribe(p: Panel, ok: bool, reading: StatusReading): (r: (Panel, seq<LogKind>))
    ensures !ok ==> r.0 == p && r.1 == [Info, Error]
    ensures ok ==> !r.0.loading && r.0.supported == reading.supported && r.0.permission == reading.permission
    ensures ok ==> (r.0.vapidConfigured <==> Present(reading.vapidKey))
    ensures ok && reading.supported && !reading.probe.RegistrationThrew? ==>
      r.0.serviceWorkerRegistered == reading.probe.registered
    ensures ok && reading.supported && reading.probe.Probed? ==> r.0.subscribed == reading.probe.subscribed
    ensures ok && (!reading.supported || !reading.probe.Probed?) ==> r.0.subscribed
    ensures ok ==> |r.1| > 2 && r.1[..3] == [Info, Success, Info]
  {
    if ok then
      var marked := p.(subscribed := true, permission := Granted);
      var c := CheckStatus(marked, reading.supported, reading.permission, reading.vapidKey, reading.probe);
      (c.0, [Info, Success] + c.1)
    else (p, [Info, Error])
  }

  /**
   * After a successful subscription the subscribe button goes away, unless the
   * re-read finds no subscription or a denied permission.
   */
  lemma SubscribedUnlessRecheckDenies(p: Panel, reading: StatusReading)
    ensures var q := Subscribe(p, true, reading).0;
      !ShowsSubscribe(q) <==>
        reading.permission == Denied || !(reading.supported && reading.probe.Probed? && !reading.probe.subscribed)
  {
  }

  /** The subscribe button is offered while unsubscribed, unless permission was denied. */
  function ShowsSubscribe(p: Panel): (shown: bool)
    ensures shown <==> !p.subscribed && p.permission != Denied
  {
    !p.subscribed && p.permission != Denied
  }

  // ---- Sending a test --------------------------------------------------

  /** The test send button is disabled while sending, while unsubscribed, or with permission denied. */
  function SendDisabled(sending: bool, p: Panel): (disabled: bool)
    ensures !disabled <==> !sending && p.subscribed && p.permission != Denied
  {
    sending || !p.subscribed || p.permission == Denied
  }

  /** What the notification endpoint receives. */
  datatype PushRequest = PushRequest(userId: string, title: string, body: string, url: string)

  /** How the notification endpoint answers. */
  datatype SendReply =
    | Replied(ok: bool, success: bool, sent: int, total: int, error: Option<string>)
    | NetworkFailure(message: string)

  datatype TestResult = TestResult(success: bool, message: string)

  /** One press of "send test": the request sent (if any), the result shown, and whether the page is subscribed. */
  datatype SendRun = SendRun(request: Option<PushRequest>, result: TestResult, subscribed: bool)

  const NotSignedIn: string := "Usuario no autenticado"
  const CouldNotSubscribe: string := "No se pudo suscribir a las notificaciones"
  const SendFailed: string := "Error al enviar la notificación"

  function SendTest(user: Option<string>, subscribed: bool, subscribeOk: bool, title: string, body: string, reply: SendReply)
    : (run: SendRun)
    ensures user.None? ==> run == SendRun(None, TestResult(false, NotSignedIn), subscribed)
    ensures user.Some? && !subscribed && !subscribeOk ==> run == SendRun(None, TestResult(false, CouldNotSubscribe), false)
    ensures run.request.Some? <==> user.Some? && (subscribed || subscribeOk)
    ensures run.request.Some? ==> run.request.value == PushRequest(user.value, title, body, "/") && run.subscribed
    ensures run.result.success <==> run.request.Some? && reply.Replied? && reply.ok && reply.success
    ensures run.result.message != ""
    ensures run.request.Some? && reply.Replied? && reply.ok && reply.success ==>
      run.result.message == "Notificación enviada exitosamente (" + IntToString(reply.sent) + "/"
                            + IntToString(reply.total) + " dispositivos)"
    ensures run.request.Some? && reply.Replied? && !(reply.ok && reply.success) ==>
      run.result.message == (if Present(reply.error) then reply.error.value else SendFailed)
    ensures run.request.Some? && reply.NetworkFailure? ==> run.result.message == "Error de red: " + reply.message
  {
    if user.None? then SendRun(None, TestResult(false, NotSignedIn), subscribed)
    else if !subscribed && !subscribeOk then SendRun(None, TestResult(false, CouldNotSubscribe), false)
    else
      var request := Some(PushRequest(user.value, title, body, "/"));
      match reply
      case Replied(ok, success, sent, total, error) =>
        if ok && success then
          SendRun(request, TestResult(true, "Notificación enviada exitosamente (" + IntToString(sent) + "/"
                                          + IntToString(total) + " dispositivos)"), true)
        else SendRun(request, TestResult(false, if Present(error) then error.value else SendFailed), true)
      case NetworkFailure(m) => SendRun(request, TestResult(false, "Error de red: " + m), true)
  }

  /** From the button the page never takes its subscribe-first path: an enabled button means already subscribed. */
  lemma EnabledSendNeedsNoSubscribe(sending: bool, p: Panel, user: Option<string>, subscribeOk: bool,
                                    title: string, body: string, reply: SendReply)
    requires !SendDisabled(sending, p) && user.Some?
    ensures SendTest(user, p.subscribed, subscribeOk, title, body, reply)
      == SendTest(user, p.subscribed, !subscribeOk, title, body, reply)
  {
  }
}
