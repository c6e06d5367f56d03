# OCPP 1.6 intercepting proxy — a Dafny model of its dispatch and relay core

The proxy sits between a charge point (EVSE) and its central system (CSMS).
This project models two pieces of it:

- **`ChargePoint`** (`src/chargepoint.ts`). The proxy registers one handler per
  central-system-initiated OCPP 1.6 operation (chapter 5 of OCPP 1.6). Each
  handler does one of three things, chosen by the action, the `isMocking` flag
  and, for TriggerMessage, the `requestedMessage`:
  - forward the request to the EVSE;
  - answer it locally with a fixed status;
  - rewrite it, or send a synthetic StatusNotification (section 4.9 of OCPP 1.6) upstream.

  Around that choice sit:
  - a two-state `connected` flag that guards every station-originated call;
  - `softReset`, which sends a Hard reset to the EVSE;
  - a first-occurrence host-name rewrite. ChangeConfiguration requests get
    `ocpp.io` replaced by `evcms.me`, and GetConfiguration replies get it put back.
- **The server** (`src/index.ts`).
  - The `/:url` handler admits a station connection only when the base64 path
    segment decodes to a `ws://` or `wss://` URL.
  - It appends one record per admitted connection to a list that never shrinks.
  - It relays messages unchanged between the station socket and the
    central-system socket. Each message listener first logs the message
    through `JSON.parse`, and no listener catches exceptions. So the first
    message that is not JSON, or a `send` on a socket still connecting, ends
    the process: nothing is relayed after it, and both sockets go down.
  - When one socket closes, it closes the other one only if that one is OPEN.
    The model also has a corrected reaction that closes a socket still
    connecting (see Findings), and proves its run-level properties for both.

Modules:
- `Wrappers`: `Option` and `Result`.
- `Text`: JavaScript's `indexOf` and string-pattern `replace`.
- `Ocpp`: the protocol vocabulary.
- `ChargePoint`: dispatch, the connection flag and the guarded calls.
- `Server`: admission and the charge-point list.
- `Bridge`: the socket pair behind one connection.

Everything is pure functions over immutable datatypes. The calls the proxy
makes come back as `Call` values. The replies the CSMS receives are a
sequence of `Reply` values, computed from what the EVSE answers.

Inputs and simplifications:
- `isMocking` is an input. No code in the repository ever sets it to true.
- The result of base64-decoding the path segment is an input. It is `None`
  when decoding throws. Whether `new WebSocket` accepts the decoded URL is an
  input too.
- Whether a relayed message parses as JSON is an input carried by the
  message event.
- Message bodies are the serialised JSON texts.
- `JSON.stringify` followed by `JSON.parse` around the host-name rewrite is
  taken as the identity on those texts. Neither host name contains a
  character that JSON escapes.

## Model

| member | source | states |
|---|---|---|
| `ChargePoint.Handle` | src/chargepoint.ts:19-308 | A request reaches the EVSE, under its own action name, exactly when it is not one that mocking intercepts while `isMocking` is set. Only ChangeConfiguration is forwarded with a changed body. At most one call goes upstream, and only for a StatusNotification trigger while mocking. Only ChangeConfiguration both answers locally and forwards, and only GetConfiguration's reply is rewritten. |
| `ChargePoint.MockingRejectsRemoteControl` | src/chargepoint.ts:152-216 | While mocking, RemoteStartTransaction, RemoteStopTransaction and Reset are answered `Rejected` and nothing goes to the EVSE. Otherwise they are forwarded unchanged and the EVSE's reply is relayed. |
| `ChargePoint.TriggerWhileMocking` | src/chargepoint.ts:259-273 | While mocking, a MeterValues trigger is answered `Accepted` with no call at all. A StatusNotification trigger sends exactly one `{connectorId 1, NoError, Unavailable}` StatusNotification upstream and is answered `Accepted`. Neither reaches the EVSE. |
| `ChargePoint.TriggerForwardedIff` | src/chargepoint.ts:242-284 | A TriggerMessage is forwarded unchanged to the EVSE if and only if not mocking, or the requested message is neither MeterValues nor StatusNotification. A forwarded trigger is answered only with the EVSE's reply, unchanged, and gets no answer when the EVSE call fails. |
| `ChargePoint.MockingMattersOnlyWhenIntercepted` | src/chargepoint.ts:152-284 | `isMocking` changes the handling of a request if and only if the request is one of the five it intercepts. |
| `ChargePoint.OtherActionsForwarded` | src/chargepoint.ts:19-308 | Every other action except the two configuration ones is forwarded unchanged whatever `isMocking` says. The EVSE's reply is relayed unchanged, and no reply is sent when the EVSE call fails. |
| `ChargePoint.ChangeConfigurationAnswersAtOnce` | src/chargepoint.ts:43-62 | ChangeConfiguration forwards the body with only its first `ocpp.io` replaced by `evcms.me`, or unchanged when there is none. The first reply is `Accepted` whatever the EVSE says. When the EVSE answers, its reply follows as a second reply, relayed without any rewrite. |
| `ChargePoint.GetConfigurationRestoresHost` | src/chargepoint.ts:112-126 | GetConfiguration is forwarded unchanged. Its reply comes back with only the first `evcms.me` replaced by `ocpp.io`, or unchanged when there is none. |
| `ChargePoint.HostRewriteRoundTrip` | src/chargepoint.ts:47-121 | The GetConfiguration rewrite undoes the ChangeConfiguration rewrite on any text that meets two conditions. First, it has no `evcms.me` before its first `ocpp.io`, or none at all when it has no `ocpp.io`. Second, its first `ocpp.io` is not directly preceded by `evcms.m`. |
| `ChargePoint.HostRewriteRoundTripOnlyIfSafe` | src/chargepoint.ts:47-121 | On every text that fails those conditions, the round trip changes the text. So the conditions are exact. |
| `ChargePoint.HostRewriteNotAlwaysInverse` | src/chargepoint.ts:47-121 | The side condition is needed: `evcms.mocpp.io` has no `evcms.me`, yet the two rewrites turn it into `ocpp.iovcms.me`. |
| `ChargePoint.OnUpstream` | src/chargepoint.ts:310-318 | After an upstream event, the charge point is connected if and only if the event was `connect`. |
| `ChargePoint.ConnectedIffLastConnect` | src/chargepoint.ts:310-318 | After any sequence of upstream events, the charge point is connected if and only if the latest event was `connect`. With no events it keeps its earlier state. |
| `ChargePoint.SendUpstream` | src/chargepoint.ts:323-391 | A station-originated call fails with "Not connected to CSMS" exactly when not connected. Otherwise it issues the same-named call to the CSMS with the given payload. |
| `ChargePoint.SoftReset` | src/chargepoint.ts:393-401 | `softReset` is guarded by `connected` in the same way. When connected it sends a Reset of type Hard to the EVSE, not to the CSMS. |
| `ChargePoint.GuardedCallsFollowConnection` | src/chargepoint.ts:12-401 | A fresh charge point starts disconnected. Its guarded calls succeed if and only if the latest upstream event was `connect`, so they all fail before any event. |
| `ChargePoint.Replies` | src/chargepoint.ts:19-308 | A handler answers at most twice, and twice only for a decision that both answers locally and forwards, when the EVSE call succeeds. A local answer always comes first. When the EVSE call fails, a pure forward sends no answer, and every answer that is sent is a local one. |
| `ChargePoint.AnswersTwiceIff` | src/chargepoint.ts:43-62 | A request is answered twice if and only if it is a ChangeConfiguration and its EVSE call succeeds. |
| `Text.IndexOf` | src/index.ts:20 | `indexOf` returns the least index where the pattern occurs, or none exactly when the pattern does not occur. |
| `Text.IndexZeroIffPrefix` | src/index.ts:20 | `indexOf(p) === 0` holds if and only if `p` is a prefix of the text. |
| `Text.ReplaceFirst` | src/chargepoint.ts:48 | `replace` with a string pattern replaces only the first occurrence. The text before it and after it is kept, and a text without the pattern is unchanged. |
| `Text.ReplaceFirstFixedIff` | src/chargepoint.ts:48 | For a replacement different from the pattern, `replace` leaves the text unchanged if and only if the pattern does not occur. |
| `Server.Admit` | src/index.ts:11-29 | An empty path segment is refused. Otherwise a connection is admitted if and only if decoding succeeds, the decoded URL is non-empty and starts with `ws://` or `wss://`, and `new WebSocket` accepts it. A decoding or socket-creation failure aborts the handler with nothing registered. The admitted record carries the raw segment as `cpid` and the decoded URL as its target. |
| `Server.Register` | src/index.ts:25-59 | An admitted attempt appends exactly one record to the list. A refused or aborted attempt leaves the list as it was. |
| `Server.RegistryOnlyGrows` | src/index.ts:9-59 | Over any sequence of attempts, the earlier list is a prefix of the later one. The list grows by exactly the number of admitted attempts. |
| `Server.NoEviction` | src/index.ts:59 | An admitted attempt raises the count of records with its raw `url` by one, even when records with that `cpid` already exist. The count for every other `cpid` is unchanged. |
| `Server.DuplicateCpidsKept` | src/index.ts:25-59 | Two admitted connections with the same path segment are both kept, in arrival order. |
| `Bridge.Step` | src/index.ts:35-57 | After the process has ended, no event changes anything. A message listener ends the process exactly when the message is not JSON or the receiving socket is still connecting, and both sockets are then down. Otherwise a message is delivered unchanged if and only if the receiving socket is open, and it changes no readyState. Nothing else changes the logs. An open event opens only a connecting outbound socket. After a close on one side, the other socket stays live only with the as-written reaction and only if it was still connecting. |
| `Bridge.HaltIsFinal` | src/index.ts:42-50 | Once the process has ended, the link stays exactly as it was, whatever events follow. |
| `Bridge.RelayIsVerbatim` | src/index.ts:42-50 | While both sockets are open and only messages arrive, each side receives exactly the other side's messages, in order and unchanged, up to the first message that is not JSON. Nothing is delivered after that one. Holds for both close reactions. |
| `Bridge.NonJsonMessageHalts` | src/index.ts:47-50 | A station message that is not JSON ends the process: a JSON message after it is not delivered, and both sockets end closed. |
| `Bridge.LogsOnlyGrow` | src/index.ts:42-50 | A delivered message is never taken back or changed later, with either close reaction. |
| `Bridge.DownIsFinal` | src/index.ts:35-57 | Once both sockets have started closing they stay closed, and nothing more is delivered in either direction, with either close reaction. |
| `Bridge.CloseClosesBoth` | src/index.ts:35-57 | With the corrected close reaction, any run from a reachable link that contains a close event on either side ends with both sockets closed or closing. |
| `Bridge.ClosePeer` | src/index.ts:35-57 | As written, a close handler changes the other socket if and only if its readyState is OPEN. The corrected reaction leaves no socket live. Neither touches a socket that is already closing or closed. |
| `Bridge.StationCloseLeaksConnectingUpstream` | src/index.ts:52-57 | As written, a station that disconnects while the outbound socket is still connecting leaves that socket alone. The socket then opens and stays open with no station behind it. With the correction, the same run ends with both sockets down. |
| `Bridge.AsWrittenDiffersOnlyWhenConnecting` | src/index.ts:35-57 | The handlers as written and the corrected ones differ if and only if, before the process has ended, a close event meets a socket that is still connecting. |

## Findings

| source | as written | input that shows it | evidently intended | confidence | as-written member | corrected member |
|---|---|---|---|---|---|---|
| src/index.ts:52-57 | When the station socket closes, the outbound socket is closed only if its readyState is 1 (OPEN) | The station disconnects before the outbound handshake completes: events StationClosed then CsmsOpened from a fresh link. The outbound socket ends OPEN with no station behind it, and nothing closes it afterwards. | Close the outbound socket while it is CONNECTING or OPEN. Calling `close()` on a connecting WebSocket fails the connection. | medium; not executed | `Bridge.StationCloseLeaksConnectingUpstream` | `Bridge.CloseClosesBoth` |

## Left out

- WebSocket and Express transport. Sockets are reduced to their four readyStates, and the outbound socket object is reduced to its target URL. `app.listen` and the port are not modelled. Logging is modelled only where it decides delivery: the `JSON.parse` inside the relay's log calls.
- Bridge.Step: an uncaught exception ends the whole Node process and every connection in it. The model covers one link, so it shows that link halting with both sockets down. It does not show the other links or the registry going away. The model also assumes Node's default handling of uncaught exceptions, since no handler is installed.
- The OCPP engine behind `src/OcppTs.ts` (`OcppClient`, `OcppClientConnection`) is not part of this model. `callRequest` is an opaque call. A failed EVSE call is an absent EVSE reply, and a synchronous throw from it is not modelled.
- Promise timing and async ordering. The missing-callback paths are recorded only as reply counts in `ChargePoint.Replies`. A forward whose EVSE call fails sends no answer, and ChangeConfiguration answers twice.
- ChargePoint.Replies: a failed EVSE call in the eighteen handlers that use `.then` with no `catch` leaves an unhandled promise rejection, which ends the host process under Node's defaults. CancelReservation `await`s inside `try`, so it only logs the failure. The model records both as "no answer" and does not show the process ending.
- The synthetic StatusNotification sent while mocking is neither awaited nor guarded by `connected` in the source. The model records that the call is issued, not what happens to it.
- `ChargePoint.close` and the constructor's `client.connect(csms_url)` are engine calls and are not modelled. The charge point's own `this.emit('connect')` and `this.emit('close')` are not modelled either. `connected` changes only through the `connect` and `close` events.
- Base64 decoding (`atob`) is an input to `Server.Admit`. `JSON.stringify`/`JSON.parse` are treated as the identity on serialised text.
- `src/types.ts` is a bare interface. Its `is_mocking` field is never set.
- `index.ts` never constructs a `ChargePoint`, so the two pieces are modelled independently, as they are in the code.
- The mock-tag Authorize/StartTransaction/StopTransaction handling, the key-value state store, the delayed trigger messages and the eviction of duplicate sessions are not modelled. No code in the repository implements them.
- Requests for actions outside the nineteen handled ones are left to the OCPP engine and are not modelled.
