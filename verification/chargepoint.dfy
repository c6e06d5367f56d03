/**
 * The `ChargePoint` of the proxy: how each request from the central system
 * (CSMS) is handled — forwarded to the charge point (EVSE), answered locally,
 * or rewritten — depending on the action, the `isMocking` flag and, for
 * TriggerMessage, the requested message; the `connected` flag that follows
 * the upstream connection; and the guarded calls the proxy makes on the
 * station's behalf.
 */
module ChargePoint {
  import opened Wrappers
  import opened Text
  import opened Ocpp

  /** A request from the central system: its action and its serialised body. */
  datatype CsmsRequest = CsmsRequest(action: CsmsAction, body: string)

  /** How the EVSE's reply to a forwarded request is passed back upstream. */
  datatype Relay = Verbatim | RestoreHost

  /** A reply the central system receives for one of its requests. */
  datatype Reply = Fabricated(status: ReplyStatus) | Relayed(text: string)

  /**
   * What a handler does with one request:
   *  - Forward: call the EVSE and answer with its reply (passed back through `relay`);
   *  - Answer: answer locally, call nobody;
   *  - NotifyAndAnswer: send `notice` to the central system, answer locally;
   *  - ForwardAndAnswer: call the EVSE, answer locally at once, and answer
   *    again with the EVSE's reply when it arrives.
   */
  datatype Decision =
    | Forward(call: Call, relay: Relay)
    | Answer(status: ReplyStatus)
    | NotifyAndAnswer(notice: Call, status: ReplyStatus)
    | ForwardAndAnswer(call: Call, status: ReplyStatus)

  /** The host name the central system knows. */
  const CsmsHost: string := "ocpp.io"

  /** The host name the EVSE is given in its place. */
  const EvseHost: string := "evcms.me"

  /** The StatusNotification sent upstream when a StatusNotification is triggered while mocking. */
  const UnavailableNotice: Call :=
    ToCsms(StationAction.StatusNotification, StatusNotice(1, NoError, Unavailable))

  /** Rewrite of a ChangeConfiguration request on its way to the EVSE. */
  function HideCsmsHost(body: string): string {
    ReplaceFirst(body, CsmsHost, EvseHost)
  }

  /** Rewrite of a GetConfiguration reply on its way back to the central system. */
  function RestoreCsmsHost(reply: string): string {
    ReplaceFirst(reply, EvseHost, CsmsHost)
  }

  /**
   * Reference definition: the requests whose handling `isMocking` changes
   * (remote start/stop, reset, and triggers for MeterValues or StatusNotification).
   */
  predicate MockIntercepts(a: CsmsAction) {
    a in {RemoteStartTransaction, RemoteStopTransaction, Reset,
          TriggerMessage(MessageTrigger.MeterValues),
          TriggerMessage(MessageTrigger.StatusNotification)}
  }

  /** The calls a decision makes to the EVSE. */
  function EvseCalls(d: Decision): seq<Call> {
    match d
    case Forward(c, _) => [c]
    case ForwardAndAnswer(c, _) => [c]
    case _ => []
  }

  /** The calls a decision makes to the central system. */
  function CsmsCalls(d: Decision): seq<Call> {
    match d
    case NotifyAndAnswer(n, _) => [n]
    case _ => []
  }

  /**
   * The replies the central system receives, in order, when the EVSE answers
   * with `evseReply` (`None`: the call to the EVSE fails, and a handler that
   * waits for it sends no answer). A handler answers at most twice; a local
   * answer always comes first, and a relayed reply needs an EVSE reply.
   */
  function Replies(d: Decision, evseReply: Option<string>): (r: seq<Reply>)
    ensures |r| <= 2
    ensures evseReply.None? ==> (r == [] <==> d.Forward?)
    ensures |r| == 2 <==> d.ForwardAndAnswer? && evseReply.Some?
    ensures !d.Forward? ==> |r| >= 1 && r[0].Fabricated?
    ensures d.Forward? ==> forall k | 0 <= k < |r| :: r[k].Relayed?
    ensures evseReply.None? ==> forall k | 0 <= k < |r| :: r[k].Fabricated?
  {
    match d
    case Forward(_, relay) =>
      (match evseReply
       case None => []
       case Some(x) => [Relayed(if relay == RestoreHost then RestoreCsmsHost(x) else x)])
    case Answer(s) => [Fabricated(s)]
    case NotifyAndAnswer(_, s) => [Fabricated(s)]
    case ForwardAndAnswer(_, s) =>
      [Fabricated(s)] + (match evseReply case None => [] case Some(x) => [Relayed(x)])
  }

  /** Forward a request to the EVSE as it came and relay the reply as it comes. */
  function PassOn(req: CsmsRequest): Decision {
    Forward(ToEvse(req.action, Json(req.body)), Verbatim)
  }

  /**
   * The handler the proxy registers for each central-system action. Every
   * request reaches the EVSE, under its own action name, unless mocking
   * intercepts it; only ChangeConfiguration is forwarded with a changed body.
   */
  function Handle(req: CsmsRequest, isMocking: bool): (d: Decision)
    ensures EvseCalls(d) == [] <==> isMocking && MockIntercepts(req.action)
    ensures |EvseCalls(d)| <= 1
    ensures forall c | c in EvseCalls(d) :: c == ToEvse(req.action, c.payload)
    ensures req.action != ChangeConfiguration ==>
              forall c | c in EvseCalls(d) :: c.payload == Json(req.body)
    ensures |CsmsCalls(d)| <= 1
    ensures CsmsCalls(d) != [] <==>
              isMocking && req.action == TriggerMessage(MessageTrigger.StatusNotification)
    ensures d.ForwardAndAnswer? <==> req.action == ChangeConfiguration
    ensures d.Forward? ==> (d.relay == RestoreHost <==> req.action == GetConfiguration)
  {
    match req.action
    case RemoteStartTransaction | RemoteStopTransaction | Reset =>
      if isMocking then Answer(Rejected) else PassOn(req)
    case TriggerMessage(m) =>
      if !isMocking then PassOn(req)
      else
        (match m
         case BootNotification => PassOn(req)
         case Heartbeat => PassOn(req)
         case StatusNotification => NotifyAndAnswer(UnavailableNotice, Accepted)
         case MeterValues => Answer(Accepted)
         case _ => PassOn(req))
    case ChangeConfiguration =>
      ForwardAndAnswer(ToEvse(ChangeConfiguration, Json(HideCsmsHost(req.body))), Accepted)
    case GetConfiguration =>
      Forward(ToEvse(GetConfiguration, Json(req.body)), RestoreHost)
    case _ => PassOn(req)
  }

  /** While mocking, remote start, remote stop and reset are rejected locally; otherwise forwarded unchanged. */
  lemma MockingRejectsRemoteControl(req: CsmsRequest, evseReply: Option<string>)
    requires req.action in {RemoteStartTransaction, RemoteStopTransaction, Reset}
    ensures EvseCalls(Handle(req, true)) == [] && CsmsCalls(Handle(req, true)) == []
    ensures Replies(Handle(req, true), evseReply) == [Fabricated(Rejected)]
    ensures EvseCalls(Handle(req, false)) == [ToEvse(req.action, Json(req.body))]
    ensures Replies(Handle(req, false), evseReply) ==
              if evseReply.Some? then [Relayed(evseReply.value)] else []
  {
  }

  /**
   * A TriggerMessage while mocking: MeterValues is accepted locally; a
   * StatusNotification trigger sends exactly one synthetic "Unavailable,
   * NoError" notification for connector 1 upstream and is accepted locally;
   * neither reaches the EVSE.
   */
  lemma TriggerWhileMocking(body: string, evseReply: Option<string>)
    ensures var d := Handle(CsmsRequest(TriggerMessage(MessageTrigger.MeterValues), body), true);
            EvseCalls(d) == [] && CsmsCalls(d) == [] && Replies(d, evseReply) == [Fabricated(Accepted)]
    ensures var d := Handle(CsmsRequest(TriggerMessage(MessageTrigger.StatusNotification), body), true);
            && EvseCalls(d) == []
            && CsmsCalls(d) == [ToCsms(StationAction.StatusNotification, StatusNotice(1, NoError, Unavailable))]
            && Replies(d, evseReply) == [Fabricated(Accepted)]
  {
  }

  /**
   * A TriggerMessage is forwarded unchanged to the EVSE exactly when not
   * mocking, or when the requested message is neither MeterValues nor
   * StatusNotification; a forwarded trigger is answered only by the EVSE's
   * reply, unchanged, and not at all when the EVSE call fails.
   */
  lemma TriggerForwardedIff(m: MessageTrigger, body: string, isMocking: bool, evseReply: Option<string>)
    ensures var d := Handle(CsmsRequest(TriggerMessage(m), body), isMocking);
            && (EvseCalls(d) == [ToEvse(TriggerMessage(m), Json(body))] <==>
                !isMocking || m !in {MessageTrigger.MeterValues, MessageTrigger.StatusNotification})
            && (EvseCalls(d) != [] ==>
                  Replies(d, evseReply) == if evseReply.Some? then [Relayed(evseReply.value)] else [])
  {
  }

  /** Only ChangeConfiguration answers twice, and only when its EVSE call succeeds. */
  lemma AnswersTwiceIff(req: CsmsRequest, isMocking: bool, evseReply: Option<string>)
    ensures |Replies(Handle(req, isMocking), evseReply)| == 2 <==>
              req.action == ChangeConfiguration && evseReply.Some?
  {
  }

  /** `isMocking` changes the handling of a request exactly when the request is one mocking intercepts. */
  lemma MockingMattersOnlyWhenIntercepted(req: CsmsRequest)
    ensures Handle(req, true) != Handle(req, false) <==> MockIntercepts(req.action)
  {
  }

  /**
   * Every action other than the intercepted ones and the two configuration
   * actions is forwarded unchanged whatever `isMocking` says, and the EVSE's
   * reply is relayed unchanged; when the EVSE call fails nothing answers.
   */
  lemma OtherActionsForwarded(req: CsmsRequest, isMocking: bool, x: string)
    requires !MockIntercepts(req.action)
    requires req.action != ChangeConfiguration && req.action != GetConfiguration
    ensures Handle(req, isMocking) == Handle(req, !isMocking)
    ensures EvseCalls(Handle(req, isMocking)) == [ToEvse(req.action, Json(req.body))]
    ensures CsmsCalls(Handle(req, isMocking)) == []
    ensures Replies(Handle(req, isMocking), Some(x)) == [Relayed(x)]
    ensures Replies(Handle(req, isMocking), None) == []
  {
    assert Handle(req, isMocking) == PassOn(req);
    assert Handle(req, !isMocking) == PassOn(req);
  }

  /**
   * ChangeConfiguration forwards its body with the first "ocpp.io" replaced by
   * "evcms.me" (unchanged when absent), answers Accepted at once whatever the
   * EVSE replies, and then relays the EVSE's reply, without any rewrite, as a
   * second answer.
   */
  lemma ChangeConfigurationAnswersAtOnce(body: string, isMocking: bool, evseReply: Option<string>)
    ensures var d := Handle(CsmsRequest(ChangeConfiguration, body), isMocking);
            && EvseCalls(d) == [ToEvse(ChangeConfiguration, Json(ReplaceFirst(body, "ocpp.io", "evcms.me")))]
            && CsmsCalls(d) == []
            && |Replies(d, evseReply)| == (if evseReply.Some? then 2 else 1)
            && Replies(d, evseReply)[0] == Fabricated(Accepted)
            && (evseReply.Some? ==> Replies(d, evseReply)[1] == Relayed(evseReply.value))
    ensures !Contains(body, "ocpp.io") ==>
              EvseCalls(Handle(CsmsRequest(ChangeConfiguration, body), isMocking))
                == [ToEvse(ChangeConfiguration, Json(body))]
  {
  }

  /**
   * GetConfiguration is forwarded unchanged and its reply comes back with the
   * first "evcms.me" replaced by "ocpp.io" (unchanged when absent).
   */
  lemma GetConfigurationRestoresHost(body: string, isMocking: bool, x: string)
    ensures var d := Handle(CsmsRequest(GetConfiguration, body), isMocking);
            && EvseCalls(d) == [ToEvse(GetConfiguration, Json(body))]
            && Replies(d, Some(x)) == [Relayed(ReplaceFirst(x, "evcms.me", "ocpp.io"))]
            && Replies(d, None) == []
    ensures !Contains(x, "evcms.me") ==>
              Replies(Handle(CsmsRequest(GetConfiguration, body), isMocking), Some(x)) == [Relayed(x)]
  {
  }

  /**
   * The texts on which reading back a configuration gives what was written:
   * with no "ocpp.io", no "evcms.me" either; otherwise no "evcms.me" before
   * the first "ocpp.io", and that "ocpp.io" not directly preceded by
   * "evcms.m" (which would combine with the inserted "evcms.me" into an
   * earlier match).
   */
  predicate RoundTripSafe(s: string) {
    match IndexOf(s, CsmsHost)
    case None => !Contains(s, EvseHost)
    case Some(i) => !Contains(s[..i], EvseHost) && !(7 <= i && s[i - 7..i] == EvseHost[..7])
  }

  /** On safe texts, the GetConfiguration rewrite undoes the ChangeConfiguration rewrite. */
  lemma {:induction false} HostRewriteRoundTrip(s: string)
    requires RoundTripSafe(s)
    ensures RestoreCsmsHost(HideCsmsHost(s)) == s
  {
    match IndexOf(s, CsmsHost)
    case None =>
    case Some(i) =>
      var x := HideCsmsHost(s);
      assert x == s[..i] + EvseHost + s[i + 7..];
      assert OccursAt(x, EvseHost, i);
      forall j: nat | j < i
        ensures !OccursAt(x, EvseHost, j)
      {
        if j + 8 <= i {
          assert x[j..j + 8] == s[..i][j..j + 8];
          assert !OccursAt(s[..i], EvseHost, j);
        } else if i - j < 7 {
          assert x[i] == 'e' != EvseHost[i - j];
        } else {
          assert x[j..i] == s[i - 7..i] != EvseHost[..7];
        }
      }
      FirstOccurrence(x, EvseHost, i);
      assert RestoreCsmsHost(x) == s[..i] + CsmsHost + s[i + 7..];
      assert s[i..i + 7] == CsmsHost;
      assert s == s[..i] + s[i..i + 7] + s[i + 7..];
  }

  /**
   * On every other text the round trip fails: the rewrite back finds an
   * "evcms.me" that starts before the inserted one (or, with no "ocpp.io",
   * one already there) and turns its leading "e" into an "o".
   */
  lemma {:induction false} HostRewriteRoundTripOnlyIfSafe(s: string)
    requires !RoundTripSafe(s)
    ensures RestoreCsmsHost(HideCsmsHost(s)) != s
  {
    var x := HideCsmsHost(s);
    match IndexOf(s, CsmsHost)
    case None =>
      assert x == s;
      RestoreBreaksAt(x, s, IndexOf(s, EvseHost).value);
    case Some(i) =>
      var k := EarlyEvseHost(s, i);
      var j := IndexOf(x, EvseHost).value;
      assert j <= k;
      assert x[..i][j] == s[..i][j];
      RestoreBreaksAt(x, s, j);
  }

  /**
   * An unsafe text with its first "ocpp.io" at `i`: after the
   * ChangeConfiguration rewrite it has an "evcms.me" starting before `i`.
   */
  lemma EarlyEvseHost(s: string, i: nat) returns (k: nat)
    requires IndexOf(s, CsmsHost) == Some(i) && !RoundTripSafe(s)
    ensures k < i && OccursAt(HideCsmsHost(s), EvseHost, k)
    ensures HideCsmsHost(s)[..i] == s[..i]
  {
    var x := HideCsmsHost(s);
    assert x[i..i + 8] == EvseHost;
    if Contains(s[..i], EvseHost) {
      k :| k <= i && OccursAt(s[..i], EvseHost, k);
      assert x[k..k + 8] == x[..i][k..k + 8] == s[..i][k..k + 8];
    } else {
      k := i - 7;
      assert x[k..k + 8] == x[k..i] + x[i..i + 1];
    }
  }

  /**
   * When the first "evcms.me" of `x` starts at a position where `x` and `s`
   * agree, the GetConfiguration rewrite of `x` is not `s`: it puts an "o"
   * where `s` has an "e".
   */
  lemma RestoreBreaksAt(x: string, s: string, j: nat)
    requires IndexOf(x, EvseHost) == Some(j) && j < |s| && x[j] == s[j]
    ensures RestoreCsmsHost(x) != s
  {
    var r := RestoreCsmsHost(x);
    assert x[j..j + 8][0] == x[j];
    assert r[j..j + 7][0] == r[j];
  }

  /** "evcms.me" does not occur in "evcms.mocpp.io". */
  lemma NoEvseHostInSample()
    ensures !Contains("evcms.mocpp.io", EvseHost)
  {
    var s := "evcms.mocpp.io";
    assert s[1] == 'v' && s[2] == 'c' && s[3] == 'm' && s[4] == 's' && s[5] == '.' && s[6] == 'm';
    forall j: nat | j <= |s|
      ensures !OccursAt(s, EvseHost, j)
    {
      if j + 8 <= |s| {
        if j == 0 {
          assert s[j..j + 8][7] == s[7] != EvseHost[7];
        } else {
          assert s[j..j + 8][0] == s[j] != EvseHost[0];
        }
      }
    }
  }

  /** The first "ocpp.io" in "evcms.mocpp.io" is at index 7. */
  lemma CsmsHostInSample()
    ensures IndexOf("evcms.mocpp.io", CsmsHost) == Some(7)
  {
    var s := "evcms.mocpp.io";
    assert OccursAt(s, CsmsHost, 7);
    forall j: nat | j < 7
      ensures !OccursAt(s, CsmsHost, j)
    {
      assert s[j] != 'o';
    }
    FirstOccurrence(s, CsmsHost, 7);
  }

  /** The ChangeConfiguration rewrite of the sample. */
  lemma HiddenSample()
    ensures HideCsmsHost("evcms.mocpp.io") == "evcms.mevcms.me"
  {
    CsmsHostInSample();
    var x := HideCsmsHost("evcms.mocpp.io");
    assert x == x[..7] + x[7..15];
  }

  /** The GetConfiguration rewrite of the rewritten sample. */
  lemma RestoredSample()
    ensures RestoreCsmsHost("evcms.mevcms.me") == "ocpp.iovcms.me"
  {
    var x := "evcms.mevcms.me";
    assert OccursAt(x, EvseHost, 0);
    FirstOccurrence(x, EvseHost, 0);
    var r := RestoreCsmsHost(x);
    assert r == r[..7] + r[7..];
  }

  /** Without the safety condition the rewrites need not undo each other. */
  lemma HostRewriteNotAlwaysInverse()
    ensures !Contains("evcms.mocpp.io", EvseHost)
    ensures RestoreCsmsHost(HideCsmsHost("evcms.mocpp.io")) == "ocpp.iovcms.me"
  {
    NoEvseHostInSample();
    HiddenSample();
    RestoredSample();
  }

  // The upstream connection and the calls made on the station's behalf.

  /** The events the upstream OCPP client reports. */
  datatype UpstreamEvent = Connect | Close

  /** What the charge point knows of its upstream connection. */
  datatype Session = Session(connected: bool)

  /** A fresh charge point is not connected. */
  const Initial: Session := Session(false)

  /** The message every guarded call fails with while disconnected. */
  const NotConnected: string := "Not connected to CSMS"

  /** The `connect` and `close` listeners. */
  function OnUpstream(s: Session, e: UpstreamEvent): (s': Session)
    ensures s'.connected <==> e == Connect
  {
    match e
    case Connect => Session(true)
    case Close => Session(false)
  }

  /** The session after the upstream client has reported `events`, in order. */
  function AfterEvents(s: Session, events: seq<UpstreamEvent>): Session
    decreases |events|
  {
    if events == [] then s else AfterEvents(OnUpstream(s, events[0]), events[1..])
  }

  /**
   * The charge point is connected exactly when the latest upstream event was
   * `connect` (or, with no events yet, when it already was).
   */
  lemma {:induction false} ConnectedIffLastConnect(s: Session, events: seq<UpstreamEvent>)
    ensures AfterEvents(s, events).connected <==>
              if events == [] then s.connected else events[|events| - 1] == Connect
    decreases |events|
  {
    if events != [] {
      ConnectedIffLastConnect(OnUpstream(s, events[0]), events[1..]);
      if |events| > 1 {
        assert events[1..][|events[1..]| - 1] == events[|events| - 1];
      }
    }
  }

  /**
   * A station-originated call (authorize, bootNotification, dataTransfer,
   * diagnosticsStatusNotification, firmwareStatusNotification, heartbeat,
   * meterValues, startTransaction, statusNotification, stopTransaction):
   * it fails while disconnected and otherwise issues the same-named call
   * upstream with the payload it was given.
   */
  function SendUpstream(s: Session, action: StationAction, payload: string): (r: Result<Call, string>)
    ensures r.Failure? <==> !s.connected
    ensures r.Failure? ==> r.error == NotConnected
    ensures r.Success? ==> r.value.ToCsms? && r.value.csmsAction == action && r.value.payload == Json(payload)
  {
    if !s.connected then Failure(NotConnected) else Success(ToCsms(action, Json(payload)))
  }

  /**
   * `softReset`: guarded like the station-originated calls, but it calls the
   * EVSE, and with a Hard reset.
   */
  function SoftReset(s: Session): (r: Result<Call, string>)
    ensures r.Failure? <==> !s.connected
    ensures r.Failure? ==> r.error == NotConnected
    ensures r.Success? ==> r.value.ToEvse? && r.value.evseAction == Reset
    ensures r.Success? ==> r.value.payload == ResetRequest(Hard)
  {
    if !s.connected then Failure(NotConnected) else Success(ToEvse(Reset, ResetRequest(Hard)))
  }

  /**
   * From a fresh charge point, a guarded call succeeds exactly when the
   * latest upstream event was `connect`; before any event it fails.
   */
  lemma GuardedCallsFollowConnection(events: seq<UpstreamEvent>, action: StationAction, payload: string)
    ensures SendUpstream(AfterEvents(Initial, events), action, payload).Success? <==>
              events != [] && events[|events| - 1] == Connect
    ensures SoftReset(AfterEvents(Initial, events)).Success? <==>
              events != [] && events[|events| - 1] == Connect
  {
    ConnectedIffLastConnect(Initial, events);
  }

}
