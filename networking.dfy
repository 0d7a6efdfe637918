/**
 * The UNET side of a player: the commands a client can send to the host,
 * the NetworkBehaviour part of the player object (whether it is the local
 * player, and the commands it has sent), and the two collaborators the
 * player talks to: the anchor manager and a shared hologram.
 */
module Networking {
  import opened Engine

  /**
   * UNetSharedHologram, which is not part of this model: it is reduced to
   * the transforms relayed to its own CmdTransform.
   */
  class SharedHologram {
    var relayed: seq<Pose>

    constructor ()
      ensures relayed == []
    {
      relayed := [];
    }

    method CmdTransform(position: Vec3, rotation: Quat)
      modifies this
      ensures relayed == old(relayed) + [Pose(position, rotation)]
    {
      relayed := relayed + [Pose(position, rotation)];
    }
  }

  /** The [Command] methods of SamplePlayerController, as messages to the host. */
  datatype Command =
    | Fire
    | SetPlayerIp(ip: string)
    | SetCanShareAnchors(canShareAnchors: bool)
    | SendSharedTransform(target: SharedHologram, pose: Pose)
    | Transform(pose: Pose)
    | SendAnchorEstablished(established: bool)
    | SetPlayerName(name: string)
    | SetCurrentDisplayType(displayType: DisplayType)

  /**
   * The NetworkBehaviour base of the player object: its authority role and
   * the commands it has issued, in order. Delivery to the host is not modelled:
   * the host's handling of a command is the matching Cmd method.
   */
  class NetworkBehaviour {
    const isLocalPlayer: bool
    var sent: seq<Command>

    constructor (isLocalPlayer: bool)
      ensures this.isLocalPlayer == isLocalPlayer && sent == []
    {
      this.isLocalPlayer := isLocalPlayer;
      sent := [];
    }

    /** Issue a command to the host. */
    method Send(c: Command)
      modifies this
      ensures sent == old(sent) + [c]
    {
      sent := sent + [c];
    }
  }

  /**
   * UNetAnchorManager, reduced to the flag the player polls and the number of
   * times it has been told that a remote device found the shared anchor.
   */
  class AnchorManager {
    var anchorEstablished: bool
    var foundRemotely: nat

    constructor (anchorEstablished: bool)
      ensures this.anchorEstablished == anchorEstablished && foundRemotely == 0
    {
      this.anchorEstablished := anchorEstablished;
      foundRemotely := 0;
    }

    method AnchorFoundRemotely()
      modifies this
      ensures anchorEstablished == old(anchorEstablished)
      ensures foundRemotely == old(foundRemotely) + 1
    {
      foundRemotely := foundRemotely + 1;
    }
  }
}
