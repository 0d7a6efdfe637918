/**
 * SamplePlayerController: one per connected player. It holds the replicated
 * fields with their change hooks, the host-side command handlers, the
 * selection of the device controller that matches the display type, and the
 * per-tick Update protocol.
 *
 * Singletons and engine queries become parameters: the camera manager's
 * display type and pose, the network discovery name and IP, and whether a
 * SharedCollection exists. Issuing a command appends it to `net.sent`; the
 * host's handling of it is the Cmd method of the same name.
 */
module SamplePlayer {
  import opened Engine
  import opened Networking
  import opened DeviceControllers
  import opened Selection
  import opened PlayerRules

  /** A controller's selection-relevant state together with what it points back to. */
  datatype Snapshot = Snapshot(state: ControllerState, networkBehaviour: NetworkBehaviour?, playerInstance: GameObject?)

  /** The snapshot of one controller. */
  ghost function SnapshotOf(c: DeviceController): Snapshot
    reads c`enabled, c`playerObject, c`orphans, c`networkBehaviour, c`playerInstance
  {
    Snapshot(c.State(), c.networkBehaviour, c.playerInstance)
  }

  /** The snapshots of a list of controllers, in order. */
  ghost function SnapshotsOf(cs: seq<DeviceController>): seq<Snapshot>
    reads cs
  {
    if |cs| == 0 then [] else SnapshotsOf(cs[..|cs| - 1]) + [SnapshotOf(cs[|cs| - 1])]
  }

  lemma {:induction false} SnapshotsOfAt(cs: seq<DeviceController>)
    ensures |SnapshotsOf(cs)| == |cs|
    ensures forall k :: 0 <= k < |cs| ==> SnapshotsOf(cs)[k] == SnapshotOf(cs[k])
  {
    if |cs| > 0 {
      SnapshotsOfAt(cs[..|cs| - 1]);
    }
  }

  /** One controller went through an iteration of the sweep from snapshot `b`, and still points where it did. */
  ghost predicate SweptFrom(b: Snapshot, c: DeviceController, effective: DisplayType)
    reads c`enabled, c`playerObject, c`orphans, c`networkBehaviour, c`playerInstance
  {
    SnapshotOf(c) == Snapshot(Swept(b.state, SupportDisplayType(c.variant), effective), b.networkBehaviour, b.playerInstance)
  }

  /**
   * One controller went through an iteration of the sweep from snapshot `b`;
   * if it is the selected one it was then handed `owner` and `parent` and
   * given a new visual of the given colour.
   */
  ghost predicate SweptEntry(b: Snapshot, c: DeviceController, selected: DeviceController?, effective: DisplayType,
                             color: Color, owner: NetworkBehaviour, parent: GameObject)
    reads c`enabled, c`playerObject, c`orphans, c`networkBehaviour, c`playerInstance
  {
    if c == selected then
      SnapshotOf(c) == Snapshot(Created(Swept(b.state, SupportDisplayType(c.variant), effective), color, parent), owner, parent)
    else
      SweptFrom(b, c, effective)
  }

  /** SweptEntry for every controller of a list, against the snapshots taken before. */
  ghost predicate SweptAndInitialised(before: seq<Snapshot>, cs: seq<DeviceController>,
                                      selected: DeviceController?, effective: DisplayType,
                                      color: Color, owner: NetworkBehaviour, parent: GameObject)
    reads cs
  {
    |before| == |cs|
    && (|cs| == 0
        || (SweptAndInitialised(before[..|cs| - 1], cs[..|cs| - 1], selected, effective, color, owner, parent)
            && SweptEntry(before[|cs| - 1], cs[|cs| - 1], selected, effective, color, owner, parent)))
  }

  lemma {:induction false} SweptAndInitialisedAt(before: seq<Snapshot>, cs: seq<DeviceController>,
                                                 selected: DeviceController?, effective: DisplayType,
                                                 color: Color, owner: NetworkBehaviour, parent: GameObject)
    requires |before| == |cs|
    requires forall k :: 0 <= k < |cs| ==> SweptEntry(before[k], cs[k], selected, effective, color, owner, parent)
    ensures SweptAndInitialised(before, cs, selected, effective, color, owner, parent)
  {
    if |cs| > 0 {
      var n := |cs| - 1;
      assert forall k :: 0 <= k < n ==> before[..n][k] == before[k] && cs[..n][k] == cs[k];
      SweptAndInitialisedAt(before[..n], cs[..n], selected, effective, color, owner, parent);
    }
  }

  /** The controller states held in a list of snapshots. */
  function StatesOfSnapshots(bs: seq<Snapshot>): (r: seq<ControllerState>)
    ensures |r| == |bs| && forall k :: 0 <= k < |bs| ==> r[k] == bs[k].state
  {
    if |bs| == 0 then [] else StatesOfSnapshots(bs[..|bs| - 1]) + [bs[|bs| - 1].state]
  }

  /** The current states of a list of controllers. */
  ghost function StatesOf(cs: seq<DeviceController>): (r: seq<ControllerState>)
    reads cs
    ensures |r| == |cs| && forall k :: 0 <= k < |cs| ==> r[k] == cs[k].State()
  {
    if |cs| == 0 then [] else StatesOf(cs[..|cs| - 1]) + [cs[|cs| - 1].State()]
  }

  /**
   * The sweep the foreach performs on the controllers is SweptAll on their
   * states, so what Selection proves about SweptAll holds of the controllers.
   */
  lemma SweepIsSweptAll(before: seq<Snapshot>, cs: seq<DeviceController>, effective: DisplayType)
    requires |before| == |cs|
    requires forall k :: 0 <= k < |cs| ==> SweptFrom(before[k], cs[k], effective)
    ensures StatesOf(cs) == SweptAll(StatesOfSnapshots(before), SupportsOf(cs), effective)
  {
    SweptAllAt(StatesOfSnapshots(before), SupportsOf(cs), effective);
  }

  /**
   * What SetDeviceController leaves, read off the controllers: each is
   * enabled exactly when its display type is the effective one, each other
   * one has lost its visual, and the selected one, if attached, belongs to
   * this player and holds a fresh visual of the role's colour.
   */
  lemma {:induction false} SweptAndInitialisedState(before: seq<Snapshot>, cs: seq<DeviceController>,
                                                    selected: DeviceController?, effective: DisplayType,
                                                    color: Color, owner: NetworkBehaviour, parent: GameObject)
    requires SweptAndInitialised(before, cs, selected, effective, color, owner, parent)
    ensures forall k :: 0 <= k < |cs| ==> (cs[k].enabled <==> SupportDisplayType(cs[k].variant) == effective)
    ensures forall k :: 0 <= k < |cs| && cs[k] != selected && SupportDisplayType(cs[k].variant) != effective ==>
      cs[k].playerObject.None?
    ensures forall k :: 0 <= k < |cs| && cs[k] != selected ==>
      cs[k].networkBehaviour == before[k].networkBehaviour && cs[k].playerInstance == before[k].playerInstance
    ensures selected in cs ==>
      selected.playerObject == Some(Visual(parent, Origin, color))
      && selected.networkBehaviour == owner && selected.playerInstance == parent
  {
    if |cs| > 0 {
      var n := |cs| - 1;
      SweptAndInitialisedState(before[..n], cs[..n], selected, effective, color, owner, parent);
      assert forall k :: 0 <= k < n ==> before[..n][k] == before[k] && cs[..n][k] == cs[k];
      assert cs == cs[..n] + [cs[n]];
    }
  }

  class SamplePlayerController {
    /** The NetworkBehaviour part of this object: isLocalPlayer and the commands sent. */
    const net: NetworkBehaviour
    /** The player's game object, whose transform every attached component shares. */
    const gameObject: GameObject
    const anchorManager: AnchorManager
    /** Built for UWP (UNITY_WSA): only there is the anchor manager told about remote anchors. */
    const wsaBuild: bool

    // Replicated fields.
    var localPosition: Vec3
    var localRotation: Quat
    var anchorEstablished: bool
    var playerName: string
    var currentDisplayType: DisplayType
    var playerIp: string
    var sharesSpatialAnchors: bool

    var refreshDeviceController: bool
    var canShareAnchors: bool
    var deviceController: DeviceController?
    var deviceControllerBases: seq<DeviceController>
    /** Start has run. */
    var started: bool
    /** Destroy(this) has been requested. */
    var destroyed: bool

    function IsLocalPlayer(): bool
    {
      net.isLocalPlayer
    }

    /** The attached controllers are distinct components of this game object, attached by Start. */
    ghost predicate Attached()
      reads this`deviceControllerBases, this`started
    {
      && Distinct(deviceControllerBases)
      && (forall k :: 0 <= k < |deviceControllerBases| ==> deviceControllerBases[k].gameObject == gameObject)
      && (!started ==> deviceControllerBases == [])
    }

    /** The controllers are attached as Attached says, and the selected one, if any, is among them. */
    ghost predicate Valid()
      reads this`deviceControllerBases, this`deviceController, this`started
    {
      Attached() && (deviceController == null || deviceController in deviceControllerBases)
      && (!started ==> deviceController == null)
    }

    /** The display types of the attached controllers, in order. */
    function Supports(): seq<DisplayType>
      reads this`deviceControllerBases
    {
      SupportsOf(deviceControllerBases)
    }

    /** A local player matches on the camera's display type, a remote one on the replicated one. */
    function EffectiveDisplayType(cameraDisplayType: DisplayType): DisplayType
      reads this`currentDisplayType
    {
      if IsLocalPlayer() then cameraDisplayType else currentDisplayType
    }

    /** Selection ran into the null `_deviceController`. */
    ghost predicate SelectionFailed()
      reads this`deviceControllerBases, this`deviceController
    {
      |deviceControllerBases| > 0 && deviceController == null
    }

    /**
     * The selection the sweep leaves: the last attached controller whose
     * display type is the effective one, or `previous` when none matches.
     */
    ghost predicate LastMatchSelected(previous: DeviceController?, cameraDisplayType: DisplayType)
      reads this`deviceControllerBases, this`deviceController, this`currentDisplayType
    {
      SelectedUpTo(previous, |deviceControllerBases|, EffectiveDisplayType(cameraDisplayType))
    }

    /**
     * Where SetDeviceController leaves the selection: with no controller
     * attached the component is destroyed and the selection kept; otherwise
     * the sweep's selection.
     */
    ghost predicate SelectionMade(previous: DeviceController?, wasDestroyed: bool, cameraDisplayType: DisplayType)
      reads this`deviceControllerBases, this`deviceController, this`destroyed, this`currentDisplayType
    {
      if |deviceControllerBases| == 0 then
        destroyed && deviceController == previous
      else
        destroyed == wasDestroyed && LastMatchSelected(previous, cameraDisplayType)
    }

    /**
     * What SetDeviceController did, from the earlier selection, destroyed
     * flag and controller snapshots: the selection it made, and the sweep and
     * initialisation of every attached controller.
     */
    ghost predicate SelectedFrom(previous: DeviceController?, wasDestroyed: bool, before: seq<Snapshot>,
                                 cameraDisplayType: DisplayType)
      reads this`deviceControllerBases, this`deviceController, this`destroyed, this`currentDisplayType, deviceControllerBases
    {
      && SelectionMade(previous, wasDestroyed, cameraDisplayType)
      && SweptAndInitialised(before, deviceControllerBases, deviceController, EffectiveDisplayType(cameraDisplayType),
                             if IsLocalPlayer() then Blue else Red, net, gameObject)
    }

    /** Awake and spawn: the collaborators and the replicated values the object arrives with. */
    constructor (net: NetworkBehaviour, gameObject: GameObject, anchorManager: AnchorManager, wsaBuild: bool, canShareAnchors: bool,
                 pose: Pose, anchorEstablished: bool, playerName: string, currentDisplayType: DisplayType,
                 playerIp: string, sharesSpatialAnchors: bool)
      ensures this.net == net && this.gameObject == gameObject && this.anchorManager == anchorManager
      ensures this.wsaBuild == wsaBuild && this.canShareAnchors == canShareAnchors
      ensures localPosition == pose.position && localRotation == pose.rotation
      ensures this.anchorEstablished == anchorEstablished && this.playerName == playerName
      ensures this.currentDisplayType == currentDisplayType && this.playerIp == playerIp
      ensures this.sharesSpatialAnchors == sharesSpatialAnchors
      ensures !refreshDeviceController && !started && !destroyed
      ensures Valid()
    {
      this.net := net;
      this.gameObject := gameObject;
      this.anchorManager := anchorManager;
      this.wsaBuild := wsaBuild;
      this.canShareAnchors := canShareAnchors;
      localPosition := pose.position;
      localRotation := pose.rotation;
      this.anchorEstablished := anchorEstablished;
      this.playerName := playerName;
      this.currentDisplayType := currentDisplayType;
      this.playerIp := playerIp;
      this.sharesSpatialAnchors := sharesSpatialAnchors;
      refreshDeviceController := false;
      deviceController := null;
      deviceControllerBases := [];
      started := false;
      destroyed := false;
    }

    // Change hooks: each stores the delivered value.

    method AnchorEstablishedChanged(update: bool)
      modifies this`anchorEstablished
      ensures anchorEstablished == update
    {
      anchorEstablished := update;
    }

    /** Hides the player when the new name is the spectator view's; never shows it again. */
    method PlayerNameChanged(update: string)
      modifies this`playerName, gameObject`active
      ensures playerName == update
      ensures gameObject.active == (old(gameObject.active) && !IsSpectatorName(update))
    {
      playerName := update;
      if ToLower(playerName) == SpectatorName {
        gameObject.active := false;
      }
    }

    /** Stores the new display type and marks the controller selection dirty. */
    method CurrentDisplayTypeChanged(update: DisplayType)
      modifies this`currentDisplayType, this`refreshDeviceController
      ensures currentDisplayType == update && refreshDeviceController
    {
      currentDisplayType := update;
      refreshDeviceController := true;
    }

    method PlayerIpChanged(update: string)
      modifies this`playerIp
      ensures playerIp == update
    {
      playerIp := update;
    }

    method SharesAnchorsChanged(update: bool)
      modifies this`sharesSpatialAnchors
      ensures sharesSpatialAnchors == update
    {
      sharesSpatialAnchors := update;
    }

    /**
     * Enables every attached controller whose display type is the effective
     * one, disables every other and destroys its visual, keeps the last match
     * (or the previous selection when nothing matches) and initialises it for
     * the player's role. With no controller attached, the component is
     * destroyed and nothing is selected; with no match and no previous
     * selection, the call stops on the null `_deviceController`.
     */
    method SetDeviceController(cameraDisplayType: DisplayType) returns (outcome: Outcome)
      requires Valid()
      modifies this`deviceController, this`destroyed, deviceControllerBases
      ensures Valid()
      ensures outcome == NullReference <==> SelectionFailed()
      ensures SelectedFrom(old(deviceController), old(destroyed), old(SnapshotsOf(deviceControllerBases)), cameraDisplayType)
    {
      if |deviceControllerBases| == 0 {
        destroyed := true;
        return Completed;
      }
      outcome := SelectDeviceController(cameraDisplayType);
    }

    /** SetDeviceController once at least one controller is attached: the sweep, then the initialisation. */
    method SelectDeviceController(cameraDisplayType: DisplayType) returns (outcome: Outcome)
      requires Valid() && |deviceControllerBases| > 0
      modifies this`deviceController, deviceControllerBases
      ensures Valid()
      ensures outcome == NullReference <==> deviceController == null
      ensures LastMatchSelected(old(deviceController), cameraDisplayType)
      ensures SweptAndInitialised(old(SnapshotsOf(deviceControllerBases)), deviceControllerBases, deviceController, EffectiveDisplayType(cameraDisplayType),
                                  if IsLocalPlayer() then Blue else Red, net, gameObject)
    {
      var cs := deviceControllerBases;
      ghost var before := SnapshotsOf(cs);
      ghost var effective := EffectiveDisplayType(cameraDisplayType);
      ghost var color := if IsLocalPlayer() then Blue else Red;
      SnapshotsOfAt(cs);
      label Unswept:
      SweepControllers(cameraDisplayType, before, effective, deviceController);
      assert unchanged@Unswept(this`deviceControllerBases, this`started, this`currentDisplayType);
      if deviceController == null {
        SweptAndInitialisedAt(before, cs, null, effective, color, net, gameObject);
        return NullReference;
      }
      InitializeSelected(cameraDisplayType, before, effective, old(deviceController));
      return Completed;
    }

    /**
     * The tail of SetDeviceController once a controller is selected: every
     * controller has been swept, and the selected one is now initialised.
     */
    method InitializeSelected(cameraDisplayType: DisplayType, ghost before: seq<Snapshot>, ghost effective: DisplayType,
                              ghost previous: DeviceController?)
      requires deviceController != null && deviceController in deviceControllerBases
      requires |before| == |deviceControllerBases|
      requires forall k :: 0 <= k < |deviceControllerBases| ==> SweptFrom(before[k], deviceControllerBases[k], effective)
      requires LastMatchSelected(previous, cameraDisplayType)
      modifies deviceController`networkBehaviour, deviceController`playerInstance, deviceController`playerObject, deviceController`orphans
      ensures LastMatchSelected(previous, cameraDisplayType)
      ensures SweptAndInitialised(before, deviceControllerBases, deviceController, effective,
                                  if IsLocalPlayer() then Blue else Red, net, gameObject)
    {
      var d := deviceController;
      label Selected:
      InitializeDeviceController(d);
      assert unchanged@Selected(this);
      SweptAndInitialisedAt(before, deviceControllerBases, d, effective, if IsLocalPlayer() then Blue else Red, net, gameObject);
    }

    /** The tail of SetDeviceController: hands the selected controller this player and initialises it for the role. */
    method InitializeDeviceController(d: DeviceController)
      modifies d`networkBehaviour, d`playerInstance, d`playerObject, d`orphans
      ensures d.State() == Created(old(d.State()), if IsLocalPlayer() then Blue else Red, gameObject)
      ensures d.networkBehaviour == net && d.playerInstance == gameObject
    {
      d.SetNetworkBehaviour(net);
      d.playerInstance := gameObject;
      if IsLocalPlayer() {
        d.InitializeLocalPlayer();
      } else {
        d.InitializeRemotePlayer();
      }
    }

    /**
     * The foreach of SetDeviceController: enables each controller whose
     * display type is the effective one and makes it the selection, disables
     * every other and removes its visual.
     */
    method SweepControllers(cameraDisplayType: DisplayType, ghost before: seq<Snapshot>, ghost effective: DisplayType,
                            ghost previous: DeviceController?)
      requires Distinct(deviceControllerBases)
      requires effective == EffectiveDisplayType(cameraDisplayType)
      requires SweptUpTo(before, 0, effective) && SelectedUpTo(previous, 0, effective)
      requires previous == null || previous in deviceControllerBases
      modifies this`deviceController, deviceControllerBases`enabled, deviceControllerBases`playerObject
      ensures SweptUpTo(before, |deviceControllerBases|, effective)
      ensures LastMatchSelected(previous, cameraDisplayType)
      ensures deviceController == null || deviceController in deviceControllerBases
    {
      var cs := deviceControllerBases;
      var i := 0;
      while i < |cs|
        invariant 0 <= i <= |cs| && deviceControllerBases == cs
        invariant effective == EffectiveDisplayType(cameraDisplayType)
        invariant SweptUpTo(before, i, effective)
        invariant SelectedUpTo(previous, i, effective)
      {
        var controller := cs[i];
        SweepOne(controller, i, cameraDisplayType, before, effective, previous);
        i := i + 1;
      }
    }

    /** The first `i` attached controllers are swept from their snapshots, and the rest are as they were. */
    ghost predicate SweptUpTo(before: seq<Snapshot>, i: nat, effective: DisplayType)
      reads this`deviceControllerBases, deviceControllerBases
    {
      && i <= |deviceControllerBases| == |before|
      && (forall k :: 0 <= k < i ==> SweptFrom(before[k], deviceControllerBases[k], effective))
      && (forall k :: i <= k < |deviceControllerBases| ==> SnapshotOf(deviceControllerBases[k]) == before[k])
    }

    /** The selection after the first `i` iterations: the last match among them, or `previous`. */
    ghost predicate SelectedUpTo(previous: DeviceController?, i: nat, effective: DisplayType)
      reads this`deviceControllerBases, this`deviceController
    {
      && i <= |deviceControllerBases|
      && deviceController == (match LastMatch(Supports(), i, effective)
                              case Some(j) => deviceControllerBases[j]
                              case None => previous)
    }

    /** One iteration of the foreach in SetDeviceController, on the controller at position `i`. */
    method SweepOne(controller: DeviceController, i: nat, cameraDisplayType: DisplayType, ghost before: seq<Snapshot>, ghost effective: DisplayType,
                    ghost previous: DeviceController?)
      requires Distinct(deviceControllerBases) && i < |deviceControllerBases| && deviceControllerBases[i] == controller
      requires effective == EffectiveDisplayType(cameraDisplayType)
      requires SweptUpTo(before, i, effective) && SelectedUpTo(previous, i, effective)
      modifies this`deviceController, controller`enabled, controller`playerObject
      ensures SweptUpTo(before, i + 1, effective) && SelectedUpTo(previous, i + 1, effective)
    {
      DistinctAt(deviceControllerBases, i);
      if (IsLocalPlayer() && cameraDisplayType == SupportDisplayType(controller.variant))
         || (!IsLocalPlayer() && currentDisplayType == SupportDisplayType(controller.variant))
      {
        EnableMatch(controller, i, before, effective, previous);
      } else {
        DisableMismatch(controller, i, before, effective, previous);
      }
    }

    /** A controller that matches becomes the selection and is enabled. */
    method EnableMatch(controller: DeviceController, i: nat, ghost before: seq<Snapshot>, ghost effective: DisplayType,
                       ghost previous: DeviceController?)
      requires i < |deviceControllerBases| && deviceControllerBases[i] == controller
      requires forall k :: 0 <= k < |deviceControllerBases| && k != i ==> deviceControllerBases[k] != controller
      requires SupportDisplayType(controller.variant) == effective
      requires SweptUpTo(before, i, effective) && SelectedUpTo(previous, i, effective)
      modifies this`deviceController, controller`enabled
      ensures SweptUpTo(before, i + 1, effective) && SelectedUpTo(previous, i + 1, effective)
    {
      deviceController := controller;
      controller.enabled := true;
    }

    /** A controller that does not match is disabled and its visual removed. */
    method DisableMismatch(controller: DeviceController, i: nat, ghost before: seq<Snapshot>, ghost effective: DisplayType,
                           ghost previous: DeviceController?)
      requires i < |deviceControllerBases| && deviceControllerBases[i] == controller
      requires forall k :: 0 <= k < |deviceControllerBases| && k != i ==> deviceControllerBases[k] != controller
      requires SupportDisplayType(controller.variant) != effective
      requires SweptUpTo(before, i, effective) && SelectedUpTo(previous, i, effective)
      modifies controller`enabled, controller`playerObject
      ensures SweptUpTo(before, i + 1, effective) && SelectedUpTo(previous, i + 1, effective)
    {
      controller.enabled := false;
      controller.RemovePlayerObject();
    }

    /**
     * One frame. A pending refresh re-runs selection and clears the flag; if
     * selection stops on a null reference the flag stays set and the frame
     * ends there. Otherwise the frame goes on as Tick says.
     */
    method Update(cameraDisplayType: DisplayType, camera: Pose) returns (outcome: Outcome)
      requires Valid() && started && !destroyed
      modifies this`refreshDeviceController, this`deviceController, this`destroyed, deviceControllerBases
      modifies gameObject`position, gameObject`rotation, net
      ensures Valid()
      ensures Refreshed(old(refreshDeviceController), old(deviceController), old(destroyed),
                        old(SnapshotsOf(deviceControllerBases)), cameraDisplayType)
      ensures refreshDeviceController ==>
        outcome == NullReference && net.sent == old(net.sent)
        && gameObject.position == old(gameObject.position) && gameObject.rotation == old(gameObject.rotation)
      ensures !refreshDeviceController ==> TickDone(old(gameObject.position), camera, outcome)
    {
      outcome := RefreshDeviceController(cameraDisplayType);
      if outcome == NullReference {
        return;
      }
      label Refreshed:
      outcome := Tick(camera);
      assert unchanged@Refreshed(this, deviceControllerBases);
    }

    /**
     * What the refresh at the start of Update did, from whether one was
     * pending and the earlier selection, destroyed flag and controller
     * snapshots: a pending refresh ran SetDeviceController and clears the
     * flag unless that stopped on a null reference; otherwise nothing changed.
     */
    ghost predicate Refreshed(pending: bool, previous: DeviceController?, wasDestroyed: bool, before: seq<Snapshot>,
                              cameraDisplayType: DisplayType)
      reads this`refreshDeviceController, this`deviceControllerBases, this`deviceController, this`destroyed
      reads this`currentDisplayType, deviceControllerBases
    {
      && (pending ==> SelectedFrom(previous, wasDestroyed, before, cameraDisplayType))
      && (!pending ==> SnapshotsOf(deviceControllerBases) == before && deviceController == previous && destroyed == wasDestroyed)
      && refreshDeviceController == (pending && SelectionFailed())
    }

    /** The start of Update: a pending refresh re-runs selection and then clears the flag. */
    method RefreshDeviceController(cameraDisplayType: DisplayType) returns (outcome: Outcome)
      requires Valid()
      modifies this`refreshDeviceController, this`deviceController, this`destroyed, deviceControllerBases
      ensures Valid()
      ensures Refreshed(old(refreshDeviceController), old(deviceController), old(destroyed),
                        old(SnapshotsOf(deviceControllerBases)), cameraDisplayType)
      ensures outcome == NullReference <==> refreshDeviceController
    {
      if refreshDeviceController {
        outcome := RefreshSelection(cameraDisplayType);
      } else {
        outcome := Completed;
      }
    }

    /** A pending refresh: selection runs again, and the flag is cleared unless it stopped on a null reference. */
    method RefreshSelection(cameraDisplayType: DisplayType) returns (outcome: Outcome)
      requires Valid() && refreshDeviceController
      modifies this`refreshDeviceController, this`deviceController, this`destroyed, deviceControllerBases
      ensures Valid()
      ensures SelectedFrom(old(deviceController), old(destroyed), old(SnapshotsOf(deviceControllerBases)), cameraDisplayType)
      ensures refreshDeviceController == SelectionFailed()
      ensures outcome == NullReference <==> refreshDeviceController
    {
      outcome := SetDeviceController(cameraDisplayType);
      if outcome == NullReference {
        return;
      }
      label Selected:
      refreshDeviceController := false;
      assert unchanged@Selected(this`deviceControllerBases, this`deviceController, this`destroyed, this`currentDisplayType, deviceControllerBases);
    }

    /**
     * What the rest of a frame did, from the position it started at: a remote
     * player with a name blended its position toward the replicated one and
     * snapped its rotation, a nameless one did nothing; a local player issued
     * the commands of TickCommands, moving to the camera's pose through the
     * selected controller, or stopped on the null selection.
     */
    twostate predicate TickDone(startPosition: Vec3, camera: Pose, outcome: Outcome)
      reads this`deviceController, this`anchorEstablished, this`localPosition, this`localRotation, this`playerName
      reads anchorManager, net, gameObject
    {
      && net.sent == old(net.sent) + TickCommands(IsLocalPlayer(), anchorEstablished, anchorManager.anchorEstablished,
                                                  deviceController != null, camera)
      && gameObject.active == old(gameObject.active)
      && (!IsLocalPlayer() && playerName != "" ==>
            outcome == Completed && gameObject.position == Blend(startPosition, localPosition)
            && gameObject.rotation == localRotation)
      && (!IsLocalPlayer() && playerName == "" ==>
            outcome == Completed && gameObject.position == old(gameObject.position) && gameObject.rotation == old(gameObject.rotation))
      && (IsLocalPlayer() && deviceController == null ==>
            outcome == NullReference && gameObject.position == old(gameObject.position) && gameObject.rotation == old(gameObject.rotation))
      && (IsLocalPlayer() && deviceController != null ==>
            outcome == Completed && gameObject.position == camera.position && gameObject.rotation == camera.rotation)
    }

    /** Update after any refresh: the remote blend, or the local anchor state and transform. */
    method Tick(camera: Pose) returns (outcome: Outcome)
      requires deviceController == null || deviceController.gameObject == gameObject
      modifies gameObject`position, gameObject`rotation, net
      ensures TickDone(old(gameObject.position), camera, outcome)
    {
      if !IsLocalPlayer() && playerName != "" {
        gameObject.position := Lerp(gameObject.position, localPosition, BlendFactor);
        gameObject.rotation := localRotation;
        return Completed;
      }

      if !IsLocalPlayer() {
        return Completed;
      }

      var managerAnchor := anchorManager.anchorEstablished;
      if anchorEstablished != managerAnchor {
        net.Send(SendAnchorEstablished(managerAnchor));
      }

      // The early return for an unestablished anchor is disabled in the source,
      // so the transform is sent either way.

      if deviceController == null {
        return NullReference;
      }
      deviceController.LocalPlayerUpdate(camera);
      net.Send(Transform(Pose(gameObject.position, gameObject.rotation)));
      return Completed;
    }

    // Host-side command handlers.

    method CmdSetPlayerIp(ip: string)
      modifies this`playerIp
      ensures playerIp == ip
    {
      playerIp := ip;
    }

    method CmdSetCanShareAnchors(canShareAnchors: bool)
      modifies this`sharesSpatialAnchors
      ensures sharesSpatialAnchors == canShareAnchors
    {
      sharesSpatialAnchors := canShareAnchors;
    }

    /** Relays a transform to the target hologram's own handler; this player's pose is untouched. */
    method CmdSendSharedTransform(target: SharedHologram, position: Vec3, rotation: Quat)
      modifies target
      ensures target.relayed == old(target.relayed) + [Pose(position, rotation)]
      ensures localPosition == old(localPosition) && localRotation == old(localRotation)
    {
      target.CmdTransform(position, rotation);
    }

    method CmdTransform(position: Vec3, rotation: Quat)
      modifies this`localPosition, this`localRotation
      ensures localPosition == position && localRotation == rotation
    {
      localPosition := position;
      localRotation := rotation;
    }

    /**
     * Stores the anchor state, and, in a UWP build, tells the anchor manager
     * that a remote device that can share anchors has found the anchor.
     */
    method CmdSendAnchorEstablished(established: bool)
      modifies this`anchorEstablished, anchorManager
      ensures anchorEstablished == established
      ensures anchorManager.anchorEstablished == old(anchorManager.anchorEstablished)
      ensures anchorManager.foundRemotely ==
        old(anchorManager.foundRemotely) + (if wsaBuild && established && sharesSpatialAnchors && !IsLocalPlayer() then 1 else 0)
    {
      anchorEstablished := established;
      if established && sharesSpatialAnchors && !IsLocalPlayer() {
        if wsaBuild {
          anchorManager.AnchorFoundRemotely();
        }
      }
    }

    method CmdSetPlayerName(name: string)
      modifies this`playerName
      ensures playerName == name
    {
      playerName := name;
    }

    /** Stores the display type; unlike the hook, it does not mark selection dirty. */
    method CmdSetCurrentDisplayType(displayType: DisplayType)
      modifies this`currentDisplayType
      ensures currentDisplayType == displayType
    {
      currentDisplayType := displayType;
    }

    // Player set-up and relays.

    /** A local player announces its name, IP and anchor-sharing capability. */
    method InitializeLocalPlayer(broadcastName: string, localIp: string)
      modifies net
      ensures net.sent == old(net.sent) +
        (if IsLocalPlayer()
         then [SetPlayerName(broadcastName), SetPlayerIp(localIp), SetCanShareAnchors(canShareAnchors)]
         else [])
    {
      if IsLocalPlayer() {
        net.Send(SetPlayerName(broadcastName));
        net.Send(SetPlayerIp(localIp));
        net.Send(SetCanShareAnchors(canShareAnchors));
      }
    }

    /** Re-runs the anchor hooks with the current values, which leaves them as they are. */
    method InitializeRemotePlayer()
      modifies this`anchorEstablished, this`sharesSpatialAnchors
      ensures anchorEstablished == old(anchorEstablished) && sharesSpatialAnchors == old(sharesSpatialAnchors)
    {
      AnchorEstablishedChanged(anchorEstablished);
      SharesAnchorsChanged(sharesSpatialAnchors);
    }

    /** Only the local player relays shared-hologram transforms. */
    method SendSharedTransform(target: SharedHologram, position: Vec3, rotation: Quat)
      modifies net
      ensures net.sent == old(net.sent) +
        (if IsLocalPlayer() then [Command.SendSharedTransform(target, Pose(position, rotation))] else [])
    {
      if IsLocalPlayer() {
        net.Send(Command.SendSharedTransform(target, Pose(position, rotation)));
      }
    }

    /**
     * Without a SharedCollection the component is destroyed and Start returns.
     * Otherwise it takes the attached controllers, selects one, and a local
     * player sends its display type and then its name, IP and capability.
     * Selection's own Destroy does not stop Start; its null reference does.
     */
    method Start(sharedCollectionPresent: bool, components: seq<DeviceController>, cameraDisplayType: DisplayType,
                 broadcastName: string, localIp: string) returns (outcome: Outcome)
      requires Valid() && !started
      requires Distinct(components)
      requires forall k :: 0 <= k < |components| ==> components[k].gameObject == gameObject
      modifies this`deviceControllerBases, this`deviceController, this`destroyed, this`started
      modifies this`anchorEstablished, this`sharesSpatialAnchors, net, components
      ensures Valid() && started
      ensures anchorEstablished == old(anchorEstablished) && sharesSpatialAnchors == old(sharesSpatialAnchors)
      ensures !sharedCollectionPresent ==>
        outcome == Completed && destroyed && deviceControllerBases == [] && deviceController == null
        && net.sent == old(net.sent) && unchanged(components)
      ensures sharedCollectionPresent ==>
        deviceControllerBases == components
        && SelectedFrom(null, old(destroyed), old(SnapshotsOf(components)), cameraDisplayType)
      ensures sharedCollectionPresent && SelectionFailed() ==> outcome == NullReference && net.sent == old(net.sent)
      ensures sharedCollectionPresent && !SelectionFailed() ==>
        outcome == Completed
        && net.sent == old(net.sent) +
          (if IsLocalPlayer()
           then [SetCurrentDisplayType(cameraDisplayType), SetPlayerName(broadcastName), SetPlayerIp(localIp),
                 SetCanShareAnchors(canShareAnchors)]
           else [])
    {
      if !sharedCollectionPresent {
        started := true;
        destroyed := true;
        return Completed;
      }
      outcome := AttachControllers(components, cameraDisplayType);
      if outcome == NullReference {
        return;
      }
      label Selected:
      AnnounceRole(cameraDisplayType, broadcastName, localIp);
      assert unchanged@Selected(this, components);
    }

    /** The middle of Start: takes the attached controllers and selects one. */
    method AttachControllers(components: seq<DeviceController>, cameraDisplayType: DisplayType) returns (outcome: Outcome)
      requires Valid() && !started
      requires Distinct(components)
      requires forall k :: 0 <= k < |components| ==> components[k].gameObject == gameObject
      modifies this`started, this`deviceControllerBases, this`deviceController, this`destroyed, components
      ensures Valid() && started && deviceControllerBases == components
      ensures outcome == NullReference <==> SelectionFailed()
      ensures SelectedFrom(null, old(destroyed), old(SnapshotsOf(components)), cameraDisplayType)
    {
      started := true;
      deviceControllerBases := components;
      outcome := SetDeviceController(cameraDisplayType);
    }

    /**
     * The end of Start: a local player sends its display type and then its
     * name, IP and capability; a remote one re-runs its anchor hooks.
     */
    method AnnounceRole(cameraDisplayType: DisplayType, broadcastName: string, localIp: string)
      modifies this`anchorEstablished, this`sharesSpatialAnchors, net
      ensures anchorEstablished == old(anchorEstablished) && sharesSpatialAnchors == old(sharesSpatialAnchors)
      ensures net.sent == old(net.sent) +
        (if IsLocalPlayer()
         then [SetCurrentDisplayType(cameraDisplayType), SetPlayerName(broadcastName), SetPlayerIp(localIp),
               SetCanShareAnchors(canShareAnchors)]
         else [])
    {
      if IsLocalPlayer() {
        net.Send(SetCurrentDisplayType(cameraDisplayType));
        InitializeLocalPlayer(broadcastName, localIp);
      } else {
        InitializeRemotePlayer();
      }
    }
  }
}
