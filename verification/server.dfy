/**
 * The proxy's HTTP entry point: a station connects on `/:url`, where `url`
 * is the base64-encoded WebSocket URL of the central system to relay to.
 * The connection is admitted only if that URL is a `ws://` or `wss://` URL;
 * each admitted connection appends one record to the process-wide list of
 * charge points, which nothing ever shrinks.
 */
module Server {
  import opened Wrappers
  import opened Text

  /** Identity of one inbound (station-side) socket. */
  type ConnId = nat

  /**
   * One admitted connection: `cpid` is the path segment as received (still
   * base64-encoded), `target` the decoded URL the outbound socket opens.
   */
  datatype ChargePointClient = ChargePointClient(cpid: string, inbound: ConnId, target: string)

  /**
   * One connection attempt: the `url` path parameter, what base64-decoding it
   * gave (`None` when decoding threw), whether `new WebSocket` accepted the
   * decoded URL (it throws on a URL it cannot parse or one with a fragment,
   * such as `ws://`), and the inbound socket.
   */
  datatype Attempt = Attempt(url: string, decoded: Option<string>, socketCreated: bool, conn: ConnId)

  /**
   * The handler's verdict: Refused closes the inbound socket; Aborted is a
   * handler stopped by an exception from decoding or from creating the
   * outbound socket, which registers nothing (what then happens to the
   * inbound socket is outside this model); Admitted registers `client`.
   */
  datatype Admission = Refused | Aborted | Admitted(client: ChargePointClient)

  /** Reference definition: a non-empty text that starts with `ws://` or `wss://`. */
  predicate IsWebSocketUrl(u: string) {
    u != "" && ("ws://" <= u || "wss://" <= u)
  }

  /** The admission check of the `/:url` handler. */
  function Admit(a: Attempt): (r: Admission)
    ensures a.url == "" ==> r == Refused
    ensures r.Aborted? <==>
              a.url != "" && (a.decoded.None? || (IsWebSocketUrl(a.decoded.value) && !a.socketCreated))
    ensures r.Admitted? <==>
              a.url != "" && a.decoded.Some? && IsWebSocketUrl(a.decoded.value) && a.socketCreated
    ensures r.Admitted? ==> r.client.cpid == a.url && r.client.inbound == a.conn
    ensures r.Admitted? ==> Some(r.client.target) == a.decoded
  {
    if a.url == "" then Refused
    else
      match a.decoded
      case None => Aborted
      case Some(d) =>
        IndexZeroIffPrefix(d, "ws://");
        IndexZeroIffPrefix(d, "wss://");
        if d == "" || (IndexOf(d, "ws://") != Some(0) && IndexOf(d, "wss://") != Some(0)) then Refused
        else if !a.socketCreated then Aborted
        else Admitted(ChargePointClient(a.url, a.conn, d))
  }

  /** The list of charge points after one attempt. */
  function Register(chargePoints: seq<ChargePointClient>, a: Attempt): (r: seq<ChargePointClient>)
    ensures Admit(a).Admitted? ==> r == chargePoints + [Admit(a).client]
    ensures !Admit(a).Admitted? ==> r == chargePoints
  {
    match Admit(a)
    case Admitted(c) => chargePoints + [c]
    case _ => chargePoints
  }

  /** The list of charge points after a sequence of attempts, in order. */
  function RegisterAll(chargePoints: seq<ChargePointClient>, attempts: seq<Attempt>): seq<ChargePointClient>
    decreases |attempts|
  {
    if attempts == [] then chargePoints
    else RegisterAll(Register(chargePoints, attempts[0]), attempts[1..])
  }

  /** How many of `attempts` pass the admission check. */
  function AdmittedCount(attempts: seq<Attempt>): nat {
    if attempts == [] then 0
    else (if Admit(attempts[0]).Admitted? then 1 else 0) + AdmittedCount(attempts[1..])
  }

  /** How many records of `chargePoints` carry `cpid`. */
  function CountCpid(chargePoints: seq<ChargePointClient>, cpid: string): nat {
    if chargePoints == [] then 0
    else CountCpid(chargePoints[..|chargePoints| - 1], cpid)
         + (if chargePoints[|chargePoints| - 1].cpid == cpid then 1 else 0)
  }

  /**
   * The list only grows: every earlier record stays where it was, and exactly
   * one record is appended per admitted attempt.
   */
  lemma {:induction false} RegistryOnlyGrows(chargePoints: seq<ChargePointClient>, attempts: seq<Attempt>)
    ensures chargePoints <= RegisterAll(chargePoints, attempts)
    ensures |RegisterAll(chargePoints, attempts)| == |chargePoints| + AdmittedCount(attempts)
    decreases |attempts|
  {
    if attempts != [] {
      var next := Register(chargePoints, attempts[0]);
      RegistryOnlyGrows(next, attempts[1..]);
    }
  }

  /**
   * There is no eviction: an admitted attempt adds one record under its raw
   * `url` even when records with that `cpid` exist, and leaves the count of
   * every other `cpid` unchanged.
   */
  lemma {:induction false} NoEviction(chargePoints: seq<ChargePointClient>, a: Attempt, cpid: string)
    ensures CountCpid(Register(chargePoints, a), cpid) ==
              CountCpid(chargePoints, cpid) + (if Admit(a).Admitted? && a.url == cpid then 1 else 0)
  {
    var r := Register(chargePoints, a);
    if Admit(a).Admitted? {
      assert r[..|r| - 1] == chargePoints;
    }
  }

  /** Two admitted connections with the same path segment are both kept, in arrival order. */
  lemma DuplicateCpidsKept(chargePoints: seq<ChargePointClient>, a: Attempt, b: Attempt)
    requires Admit(a).Admitted? && Admit(b).Admitted? && a.url == b.url
    ensures var r := Register(Register(chargePoints, a), b);
            && r == chargePoints + [Admit(a).client, Admit(b).client]
            && CountCpid(r, a.url) == CountCpid(chargePoints, a.url) + 2
  {
    NoEviction(chargePoints, a, a.url);
    NoEviction(Register(chargePoints, a), b, a.url);
  }
}
