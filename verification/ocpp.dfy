/**
 * The OCPP 1.6 vocabulary the proxy handles: the operations the central
 * system (CSMS) initiates towards a charge point (chapter 5 of OCPP 1.6),
 * the operations a charge point initiates towards the central system
 * (chapter 4), and the few message payloads the proxy builds itself.
 */
module Ocpp {

  /** The values of `requestedMessage` in a TriggerMessage request (section 5.17 of OCPP 1.6). */
  datatype MessageTrigger =
    | BootNotification
    | DiagnosticsStatusNotification
    | FirmwareStatusNotification
    | Heartbeat
    | MeterValues
    | StatusNotification

  /**
   * Central-system-initiated operations. TriggerMessage carries its
   * `requestedMessage` field, the only request field the proxy inspects.
   */
  datatype CsmsAction =
    | CancelReservation
    | ChangeAvailability
    | ChangeConfiguration
    | ClearCache
    | ClearChargingProfile
    | DataTransfer
    | GetCompositeSchedule
    | GetConfiguration
    | GetDiagnostics
    | GetLocalListVersion
    | RemoteStartTransaction
    | RemoteStopTransaction
    | ReserveNow
    | Reset
    | SendLocalList
    | SetChargingProfile
    | TriggerMessage(requestedMessage: MessageTrigger)
    | UnlockConnector
    | UpdateFirmware

  /**
   * Charge-point-initiated operations. Several share their name with a
   * MessageTrigger or a CsmsAction, so uses outside this module qualify them
   * (`StationAction.Heartbeat`).
   */
  datatype StationAction =
    | Authorize
    | BootNotification
    | DataTransfer
    | DiagnosticsStatusNotification
    | FirmwareStatusNotification
    | Heartbeat
    | MeterValues
    | StartTransaction
    | StatusNotification
    | StopTransaction

  /** ChargePointStatus of a StatusNotification (section 4.9 of OCPP 1.6). */
  datatype ConnectorStatus =
    | Available | Preparing | Charging | SuspendedEVSE | SuspendedEV
    | Finishing | Reserved | Unavailable | Faulted

  /** ChargePointErrorCode of a StatusNotification (section 4.9 of OCPP 1.6). */
  datatype ErrorCode =
    | ConnectorLockFailure | EVCommunicationError | GroundFailure
    | HighTemperature | InternalError | LocalListConflict | NoError
    | OtherError | OverCurrentFailure | OverVoltage | PowerMeterFailure
    | PowerSwitchFailure | ReaderFailure | ResetFailure | UnderVoltage
    | WeakSignal

  /** The `type` field of a Reset request (section 5.14 of OCPP 1.6). */
  datatype ResetType = Hard | Soft

  /** The `status` of the replies the proxy fabricates. */
  datatype ReplyStatus = Accepted | Rejected

  /**
   * A message body. Bodies that pass through the proxy are kept as the text
   * their sender serialised; the bodies the proxy builds itself are kept
   * structured.
   */
  datatype Payload =
    | Json(text: string)
    | StatusNotice(connectorId: nat, errorCode: ErrorCode, status: ConnectorStatus)
    | ResetRequest(kind: ResetType)

  /** A call the proxy issues, to the charge point (EVSE) or to the central system. */
  datatype Call =
    | ToEvse(evseAction: CsmsAction, payload: Payload)
    | ToCsms(csmsAction: StationAction, payload: Payload)
}
