/** Messages, statuses and enumerations shared by the firmware and the host side of the protocol. */
module VehicleTypes {
  import opened Options

  datatype State =
    | Boot | WifiConnecting | Syncing | Ready | Moving | Waiting | EmergencyStop | CommTimeout | Error

  datatype Mode = ManualSerial | RemoteDirect | WaypointAuto

  datatype WaitReason =
    | NoReason | AwaitingStart | RemoteWait | CollisionRisk | Obstacle | Rerouting | WaypointReached
    | FinalWaypointReached | OperatorRequest | PoseTimeout | DirectControlTimeout

  datatype CommandResult =
    | NoResult | Accepted | AlreadyStopped | InvalidState | SessionMismatch | SeqConflict | StaleSeq
    | TargetMismatch | TargetNotLoaded | NewRouteRequired | StaleRoute | PoseRequired | LockedState
    | ProtocolError | OnHold | Refused

  datatype HelloResult = ReadyAllowed | Hold | Rejected

  /** A waypoint; `details` stands for its pose, tolerances and flags, which the vehicle stores unread. */
  datatype Target = Target(route: int, waypoint: int, details: seq<real>)

  /** The payload of a reliable command; equality of payloads replaces the fingerprint. */
  datatype Command =
    | Waypoint(target: Target)
    | Go(route: int, waypoint: int)
    | Wait(route: int, waypoint: int, reason: WaitReason)
    | Stop(why: string)
    | Reset
    | SetMode(mode: Mode)

  /** Reliable commands are numbered from 1. */
  type CommandSeq = n: int | n >= 1 witness 1

  datatype DirectSlot = DirectSlot(session: string, controlSeq: nat, throttle: real, steering: real)

  datatype Message =
    | HelloAck(bootId: string, session: string, seqStart: nat, verdict: HelloResult, why: string)
    | Reliable(session: string, number: CommandSeq, command: Command)
    | DirectControl(slot: DirectSlot)

  datatype Status = Status(session: string, statusSeq: nat, lastSeq: nat, rejectedSeq: nat, result: CommandResult,
                           state: State, mode: Mode)
}
