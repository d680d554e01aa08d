/** The stages, states and control values of a component, and the few facts about their order
    that the code relies on. */
module Stages {

  datatype Stage =
    | Submitted | Preinitializing | Preinitialized | Initializing | Initialized | Starting | Restarting
    | Started | Stopping | Stopped | Tearingdown | Teareddown | Aborting

  datatype State = Inactive | Active

  /** The value found under ControlMsgType in a call's context; NoControl when there is none. */
  datatype Control =
    | NoControl | EnablePeerMessaging | DisablePeerMessaging | NotifyPeers | Persist | Restart | RestartAfter
    | RestartMmux | Shutdown | ShutdownAfter | Cancel | CancelAfter

  /** The position of a stage in the iota enumeration; the error stage comes last. */
  function Rank(s: Stage): nat {
    match s
    case Submitted => 0
    case Preinitializing => 1
    case Preinitialized => 2
    case Initializing => 3
    case Initialized => 4
    case Starting => 5
    case Restarting => 6
    case Started => 7
    case Stopping => 8
    case Stopped => 9
    case Tearingdown => 10
    case Teareddown => 11
    case Aborting => 12
  }

  /** The state a component must be in at each stage. */
  function StateAt(s: Stage): State {
    match s
    case Initialized | Starting | Restarting | Started => Active
    case _ => Inactive
  }
}
