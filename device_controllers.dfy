/**
 * DeviceControllerBase and its two variants, HoloLensController and
 * ImmersiveHMDController. The variants differ only in the display type they
 * support, so one class with a `variant` tag stands for all three.
 *
 * A controller references the visual it last instantiated (`playerObject`).
 * Instantiating again overwrites that reference without destroying the
 * earlier visual, which stays in the scene with nothing referring to it;
 * `orphans` lists those visuals, oldest first.
 */
module DeviceControllers {
  import opened Engine
  import opened Networking

  datatype Variant = HoloLens | ImmersiveHMD

  /** The SupportDisplayType property of each variant. */
  function SupportDisplayType(v: Variant): DisplayType
  {
    match v
    case HoloLens => Transparent
    case ImmersiveHMD => Opaque
  }

  /** The two shipped variants support different display types. */
  lemma ShippedVariantsDiffer(a: Variant, b: Variant)
    ensures SupportDisplayType(a) == SupportDisplayType(b) <==> a == b
    ensures SupportDisplayType(HoloLens) == Transparent && SupportDisplayType(ImmersiveHMD) == Opaque
  {
  }

  /** A visual instantiated by CreatePlayerObject: its parent, local position and material colour. */
  datatype Visual = Visual(parent: GameObject, localPosition: Vec3, color: Color)

  /** The part of a controller that selection and initialisation change. */
  datatype ControllerState = ControllerState(enabled: bool, playerObject: Option<Visual>, orphans: seq<Visual>)

  /** Every visual this controller instantiated that is still in the scene, oldest first. */
  function Alive(s: ControllerState): (r: seq<Visual>)
    ensures |r| == |s.orphans| + (if s.playerObject.Some? then 1 else 0)
    ensures s.playerObject.Some? ==> r[|r| - 1] == s.playerObject.value
    ensures r[..|s.orphans|] == s.orphans
  {
    s.orphans + (if s.playerObject.Some? then [s.playerObject.value] else [])
  }

  /** Visuals that still exist but that the controller no longer references. */
  function Leaked(s: ControllerState): nat
  {
    |s.orphans|
  }

  /** RemovePlayerObject on a controller state: the referenced visual, and only it, is destroyed. */
  function Removed(s: ControllerState): (r: ControllerState)
    ensures r.enabled == s.enabled && r.playerObject.None?
    ensures s.playerObject.None? ==> Alive(r) == Alive(s)
    ensures s.playerObject.Some? ==> Alive(s) == Alive(r) + [s.playerObject.value]
  {
    s.(playerObject := None)
  }

  /** CreatePlayerObject on a controller state: a new visual is added and referenced, none is destroyed. */
  function Created(s: ControllerState, color: Color, parent: GameObject): (r: ControllerState)
    ensures r.enabled == s.enabled
    ensures r.playerObject == Some(Visual(parent, Origin, color))
    ensures Alive(r) == Alive(s) + [Visual(parent, Origin, color)]
  {
    var v := Visual(parent, Origin, color);
    s.(playerObject := Some(v), orphans := Alive(s))
  }

  /** Removing twice is removing once, and removing never reclaims a leaked visual. */
  lemma RemoveIdempotent(s: ControllerState)
    ensures Removed(Removed(s)) == Removed(s)
    ensures Leaked(Removed(s)) == Leaked(s)
  {
  }

  /** Creating over an existing visual leaks it: one more visual that nothing references. */
  lemma CreateLeaksPrevious(s: ControllerState, color: Color, parent: GameObject)
    ensures Leaked(Created(s, color, parent)) == Leaked(s) + (if s.playerObject.Some? then 1 else 0)
    ensures s.playerObject.Some? ==> s.playerObject.value in Created(s, color, parent).orphans
  {
    var r := Created(s, color, parent);
    if s.playerObject.Some? {
      assert r.orphans[|s.orphans|] == s.playerObject.value;
    }
  }

  /** No component appears twice in a list of components. */
  predicate Distinct(cs: seq<DeviceController>)
  {
    |cs| == 0 || ((forall k :: 1 <= k < |cs| ==> cs[k] != cs[0]) && Distinct(cs[1..]))
  }

  /** In a distinct list, every other position holds a different component. */
  lemma {:induction false} DistinctAt(cs: seq<DeviceController>, i: nat)
    requires Distinct(cs) && i < |cs|
    ensures forall k :: 0 <= k < |cs| && k != i ==> cs[k] != cs[i]
  {
    if i > 0 {
      DistinctAt(cs[1..], i - 1);
      assert forall k :: 1 <= k < |cs| ==> cs[k] == cs[1..][k - 1];
    }
  }

  /** The display types of a list of controllers, in order. */
  function SupportsOf(cs: seq<DeviceController>): (r: seq<DisplayType>)
    ensures |r| == |cs| && forall k :: 0 <= k < |cs| ==> r[k] == SupportDisplayType(cs[k].variant)
  {
    if |cs| == 0 then [] else SupportsOf(cs[..|cs| - 1]) + [SupportDisplayType(cs[|cs| - 1].variant)]
  }

  class DeviceController {
    const variant: Variant
    /** The game object this component is attached to; `transform` is its transform. */
    const gameObject: GameObject
    var enabled: bool
    var playerInstance: GameObject?
    var networkBehaviour: NetworkBehaviour?
    var playerObject: Option<Visual>
    var orphans: seq<Visual>

    function State(): ControllerState
      reads this`enabled, this`playerObject, this`orphans
    {
      ControllerState(enabled, playerObject, orphans)
    }

    /** A freshly attached component: enabled, with nothing set and no visual. */
    constructor (variant: Variant, gameObject: GameObject)
      ensures this.variant == variant && this.gameObject == gameObject
      ensures State() == ControllerState(true, None, [])
      ensures playerInstance == null && networkBehaviour == null
    {
      this.variant := variant;
      this.gameObject := gameObject;
      enabled := true;
      playerInstance := null;
      networkBehaviour := null;
      playerObject := None;
      orphans := [];
    }

    function GetPlayerNetworkBehaviour(): NetworkBehaviour?
      reads this`networkBehaviour
    {
      networkBehaviour
    }

    method SetNetworkBehaviour(behaviour: NetworkBehaviour)
      modifies this`networkBehaviour
      ensures GetPlayerNetworkBehaviour() == behaviour
    {
      networkBehaviour := behaviour;
    }

    /** Destroys the referenced visual if there is one; a no-op otherwise. */
    method RemovePlayerObject()
      modifies this`playerObject
      ensures State() == Removed(old(State()))
    {
      if playerObject.Some? {
        playerObject := None;
      }
    }

    /**
     * Instantiates a visual under PlayerInstance at local position zero with
     * the given material colour, and references it. The previous reference is
     * overwritten, not destroyed.
     */
    method CreatePlayerObject(color: Color)
      requires playerInstance != null
      modifies this`playerObject, this`orphans
      ensures State() == Created(old(State()), color, playerInstance)
    {
      var v := Visual(playerInstance, Origin, color);
      if playerObject.Some? {
        orphans := orphans + [playerObject.value];
      }
      playerObject := Some(v);
    }

    /** Both variants paint the local player's visual blue. */
    method InitializeLocalPlayer()
      requires playerInstance != null
      modifies this`playerObject, this`orphans
      ensures State() == Created(old(State()), Blue, playerInstance)
    {
      CreatePlayerObject(Blue);
    }

    /** Both variants paint a remote player's visual red. */
    method InitializeRemotePlayer()
      requires playerInstance != null
      modifies this`playerObject, this`orphans
      ensures State() == Created(old(State()), Red, playerInstance)
    {
      CreatePlayerObject(Red);
    }

    /** Both variants move the player's transform to the camera's pose. */
    method LocalPlayerUpdate(camera: Pose)
      modifies gameObject`position, gameObject`rotation
      ensures gameObject.position == camera.position && gameObject.rotation == camera.rotation
    {
      gameObject.position := camera.position;
      gameObject.rotation := camera.rotation;
    }

    /**
     * Both variants: a click sends CmdFire when the owning player is local.
     * Without an owning behaviour the cast dereferences null.
     */
    method OnInputClicked() returns (outcome: Outcome)
      modifies networkBehaviour
      ensures networkBehaviour == null ==> outcome == NullReference
      ensures networkBehaviour != null ==> outcome == Completed
      ensures networkBehaviour != null ==>
        networkBehaviour.sent == old(networkBehaviour.sent) + (if networkBehaviour.isLocalPlayer then [Fire] else [])
    {
      if networkBehaviour == null {
        return NullReference;
      }
      if networkBehaviour.isLocalPlayer {
        networkBehaviour.Send(Fire);
      }
      return Completed;
    }
  }
}
