/**
 * The socket pair behind one admitted connection: the inbound socket to the
 * station and the outbound socket to the central system. Each message
 * listener logs the message through `JSON.parse` and then relays it
 * unchanged. Neither listener catches exceptions: a message that is not JSON,
 * or a `send` on a socket still connecting, throws out of the listener and
 * ends the process, which takes both sockets down. A close on one side closes
 * the other side only when that side is OPEN; `Corrected` also closes a side
 * that is still connecting.
 */
module Bridge {

  /** WebSocket readyState: CONNECTING (0), OPEN (1), CLOSING (2), CLOSED (3). */
  datatype ReadyState = Connecting | Open | Closing | Closed

  /** A socket that has not started closing. */
  predicate Live(s: ReadyState) {
    s == Connecting || s == Open
  }

  /**
   * The two sockets of one connection and what each has delivered so far:
   * `toStation` the messages sent on the inbound socket, `toCsms` those sent
   * on the outbound socket. `halted` records that an uncaught exception has
   * ended the process; nothing happens after that.
   */
  datatype Link = Link(
    inbound: ReadyState,
    outbound: ReadyState,
    toStation: seq<string>,
    toCsms: seq<string>,
    halted: bool)

  /**
   * What the handlers registered on the two sockets react to. A message
   * carries its text and whether `JSON.parse` accepts that text.
   */
  datatype Event =
    | StationMessage(data: string, isJson: bool)
    | CsmsMessage(data: string, isJson: bool)
    | StationClosed
    | CsmsClosed
    | CsmsOpened

  /**
   * How a close handler treats the other socket: `AsWritten` closes it only
   * when its readyState is OPEN; `Corrected` also closes it while it is
   * connecting.
   */
  datatype Reaction = AsWritten | Corrected

  /** A link just admitted: the station's socket is open, the outbound socket is connecting. */
  const Admitted: Link := Link(Open, Connecting, [], [], false)

  /** The state of the other socket after a close handler has reacted to it. */
  function ClosePeer(reaction: Reaction, s: ReadyState): (r: ReadyState)
    ensures reaction == Corrected ==> !Live(r)
    ensures reaction == AsWritten ==> (r != s <==> s == Open)
    ensures !Live(s) ==> r == s
    ensures r != s ==> r == Closing
  {
    match reaction
    case AsWritten => if s == Open then Closing else s
    case Corrected => if Live(s) then Closing else s
  }

  /** A message that `JSON.parse` rejects. */
  predicate NotJson(e: Event) {
    (e.StationMessage? || e.CsmsMessage?) && !e.isJson
  }

  /** The socket a message event is sent on. */
  function Target(l: Link, e: Event): ReadyState
    requires e.StationMessage? || e.CsmsMessage?
  {
    if e.StationMessage? then l.outbound else l.inbound
  }

  /**
   * A message event whose listener throws: `JSON.parse` rejects the text, or
   * `send` is called on a socket that is still connecting.
   */
  predicate Throws(l: Link, e: Event) {
    NotJson(e) || ((e.StationMessage? || e.CsmsMessage?) && Target(l, e) == Connecting)
  }

  /** The link after an uncaught exception has ended the process. */
  function Halt(l: Link): Link {
    l.(inbound := Closed, outbound := Closed, halted := true)
  }

  /** A `send` that does not throw: delivered when the socket is open, lost when it is closing or closed. */
  function Relay(s: ReadyState, log: seq<string>, data: string): seq<string> {
    if s == Open then log + [data] else log
  }

  /** A condition every link reachable from `Admitted` meets: a halted process has no live socket. */
  predicate Valid(l: Link) {
    l.halted ==> Down(l)
  }

  /**
   * One event. Once halted, nothing changes. A message whose listener throws
   * halts the process. Otherwise a message reaches the other side unchanged
   * exactly when the receiving socket is open, and earlier deliveries are
   * never altered. After a close on one side, the other socket stays live
   * only under `AsWritten` and only if it was still connecting.
   */
  function Step(l: Link, e: Event, reaction: Reaction): (r: Link)
    ensures l.halted ==> r == l
    ensures !l.halted ==> (r.halted <==> Throws(l, e))
    ensures !l.halted && Throws(l, e) ==> Down(r)
    ensures Valid(l) ==> Valid(r)
    ensures !l.halted && e.StationMessage? && e.isJson && l.outbound == Open ==> r.toCsms == l.toCsms + [e.data]
    ensures !l.halted && e.CsmsMessage? && e.isJson && l.inbound == Open ==> r.toStation == l.toStation + [e.data]
    ensures !(!l.halted && e.StationMessage? && e.isJson && l.outbound == Open) ==> r.toCsms == l.toCsms
    ensures !(!l.halted && e.CsmsMessage? && e.isJson && l.inbound == Open) ==> r.toStation == l.toStation
    ensures !l.halted && (e.StationMessage? || e.CsmsMessage?) && !Throws(l, e) ==>
              r.inbound == l.inbound && r.outbound == l.outbound
    ensures !l.halted && e.CsmsOpened? ==>
              r.inbound == l.inbound && (r.outbound == Open <==> l.outbound in {Connecting, Open})
    ensures !l.halted && e.StationClosed? ==> r.inbound == Closed
    ensures !l.halted && e.StationClosed? ==>
              (Live(r.outbound) <==> reaction == AsWritten && l.outbound == Connecting)
    ensures !l.halted && e.CsmsClosed? ==> r.outbound == Closed
    ensures !l.halted && e.CsmsClosed? ==>
              (Live(r.inbound) <==> reaction == AsWritten && l.inbound == Connecting)
  {
    if l.halted then l
    else if Throws(l, e) then Halt(l)
    else
      match e
      case StationMessage(data, _) => l.(toCsms := Relay(l.outbound, l.toCsms, data))
      case CsmsMessage(data, _) => l.(toStation := Relay(l.inbound, l.toStation, data))
      case StationClosed => l.(inbound := Closed, outbound := ClosePeer(reaction, l.outbound))
      case CsmsClosed => l.(outbound := Closed, inbound := ClosePeer(reaction, l.inbound))
      case CsmsOpened => if l.outbound == Connecting then l.(outbound := Open) else l
  }

  /** The link after `events`, in order. */
  function Run(l: Link, events: seq<Event>, reaction: Reaction): Link
    decreases |events|
  {
    if events == [] then l else Run(Step(l, events[0], reaction), events[1..], reaction)
  }

  /** A close event. */
  predicate IsClose(e: Event) {
    e.StationClosed? || e.CsmsClosed?
  }

  /** Both sockets have started closing. */
  predicate Down(l: Link) {
    !Live(l.inbound) && !Live(l.outbound)
  }

  /** The station's messages in `events`, in order, up to the first message that is not JSON. */
  function StationData(events: seq<Event>): seq<string> {
    if events == [] || NotJson(events[0]) then []
    else (if events[0].StationMessage? then [events[0].data] else []) + StationData(events[1..])
  }

  /** The central system's messages in `events`, in order, up to the first message that is not JSON. */
  function CsmsData(events: seq<Event>): seq<string> {
    if events == [] || NotJson(events[0]) then []
    else (if events[0].CsmsMessage? then [events[0].data] else []) + CsmsData(events[1..])
  }

  /** Only messages arrive. */
  predicate MessagesOnly(events: seq<Event>) {
    forall k | 0 <= k < |events| :: events[k].StationMessage? || events[k].CsmsMessage?
  }

  /** After the process has halted, no event changes anything. */
  lemma {:induction false} HaltIsFinal(l: Link, events: seq<Event>, reaction: Reaction)
    requires l.halted
    ensures Run(l, events, reaction) == l
    decreases |events|
  {
    if events != [] {
      HaltIsFinal(Step(l, events[0], reaction), events[1..], reaction);
    }
  }

  /**
   * While both sockets are open and only messages arrive, each side receives
   * exactly the other side's messages, in order and byte for byte, up to the
   * first message that is not JSON; that one ends the process and nothing is
   * delivered after it.
   */
  lemma {:induction false} RelayIsVerbatim(l: Link, events: seq<Event>, reaction: Reaction)
    requires l.inbound == Open && l.outbound == Open && !l.halted
    requires MessagesOnly(events)
    ensures Run(l, events, reaction).toCsms == l.toCsms + StationData(events)
    ensures Run(l, events, reaction).toStation == l.toStation + CsmsData(events)
    decreases |events|
  {
    if events != [] {
      var e := events[0];
      var l' := Step(l, e, reaction);
      if NotJson(e) {
        assert l' == Halt(l);
        HaltIsFinal(l', events[1..], reaction);
      } else {
        assert MessagesOnly(events[1..]) by {
          forall k | 0 <= k < |events[1..]|
            ensures events[1..][k].StationMessage? || events[1..][k].CsmsMessage?
          {
            assert events[1..][k] == events[k + 1];
          }
        }
        assert l'.inbound == Open && l'.outbound == Open && !l'.halted;
        RelayIsVerbatim(l', events[1..], reaction);
        var headCsms := if e.StationMessage? then [e.data] else [];
        var headStation := if e.CsmsMessage? then [e.data] else [];
        assert l'.toCsms == l.toCsms + headCsms;
        assert l'.toStation == l.toStation + headStation;
        assert StationData(events) == headCsms + StationData(events[1..]);
        assert CsmsData(events) == headStation + CsmsData(events[1..]);
        assert l.toCsms + headCsms + StationData(events[1..]) == l.toCsms + StationData(events);
        assert l.toStation + headStation + CsmsData(events[1..]) == l.toStation + CsmsData(events);
      }
    }
  }

  /**
   * A station message that is not JSON ends the process: the JSON message
   * after it is never delivered and both sockets end closed.
   */
  lemma NonJsonMessageHalts(reaction: Reaction)
    ensures var l := Run(Link(Open, Open, [], [], false), [StationMessage("x", false), StationMessage("{}", true)], reaction);
            l.halted && l.toCsms == [] && l.inbound == Closed && l.outbound == Closed
  {
    var start := Link(Open, Open, [], [], false);
    assert Step(start, StationMessage("x", false), reaction) == Halt(start);
    HaltIsFinal(Halt(start), [StationMessage("{}", true)], reaction);
    assert Run(start, [StationMessage("x", false), StationMessage("{}", true)], reaction)
        == Run(Halt(start), [StationMessage("{}", true)], reaction);
  }

  /** Deliveries are never taken back or rewritten: each log only grows. */
  lemma {:induction false} LogsOnlyGrow(l: Link, events: seq<Event>, reaction: Reaction)
    ensures l.toCsms <= Run(l, events, reaction).toCsms
    ensures l.toStation <= Run(l, events, reaction).toStation
    decreases |events|
  {
    if events != [] {
      LogsOnlyGrow(Step(l, events[0], reaction), events[1..], reaction);
    }
  }

  /**
   * Once both sockets have started closing they stay that way and nothing
   * more is delivered in either direction.
   */
  lemma {:induction false} DownIsFinal(l: Link, events: seq<Event>, reaction: Reaction)
    requires Down(l)
    ensures Down(Run(l, events, reaction))
    ensures Run(l, events, reaction).toCsms == l.toCsms
    ensures Run(l, events, reaction).toStation == l.toStation
    decreases |events|
  {
    if events != [] {
      DownIsFinal(Step(l, events[0], reaction), events[1..], reaction);
    }
  }

  /**
   * With the corrected reaction, a close on either side closes the other
   * side for good: after any run from a reachable link containing a close
   * event, neither socket is live.
   */
  lemma {:induction false} CloseClosesBoth(l: Link, events: seq<Event>, k: nat)
    requires Valid(l)
    requires k < |events| && IsClose(events[k])
    ensures Down(Run(l, events, Corrected))
    decreases |events|
  {
    if k == 0 {
      DownIsFinal(Step(l, events[0], Corrected), events[1..], Corrected);
    } else {
      CloseClosesBoth(Step(l, events[0], Corrected), events[1..], k - 1);
    }
  }

  /**
   * As written, a station that disconnects while the outbound socket is
   * still connecting leaves that socket alone: it opens afterwards and stays
   * open with no station behind it. The corrected reaction leaves both down.
   */
  lemma StationCloseLeaksConnectingUpstream()
    ensures var l := Run(Admitted, [StationClosed, CsmsOpened], AsWritten);
            l.inbound == Closed && l.outbound == Open
    ensures Down(Run(Admitted, [StationClosed, CsmsOpened], Corrected))
  {
    assert Run(Admitted, [StationClosed, CsmsOpened], AsWritten)
        == Run(Step(Admitted, StationClosed, AsWritten), [CsmsOpened], AsWritten);
    assert Run(Admitted, [StationClosed, CsmsOpened], Corrected)
        == Run(Step(Admitted, StationClosed, Corrected), [CsmsOpened], Corrected);
  }

  /** The handlers as written and the corrected ones differ only when a close meets a connecting socket. */
  lemma AsWrittenDiffersOnlyWhenConnecting(l: Link, e: Event)
    ensures Step(l, e, AsWritten) != Step(l, e, Corrected) <==>
              !l.halted && ((e.StationClosed? && l.outbound == Connecting) || (e.CsmsClosed? && l.inbound == Connecting))
  {
  }
}
