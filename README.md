# SamplePlayerController and its device controllers, in Dafny

This project models the per-player logic of the MRSharingWithUnetSamples
Unity sample. One `SamplePlayerController` exists per connected player. It
holds UNET-replicated fields, each with a change hook, and host-side command
handlers. It selects which of the device-controller components on its game
object drives the player, and it runs a per-frame `Update`. The device
controllers (`DeviceControllerBase` and its `HoloLensController` and
`ImmersiveHMDController` variants) create and remove the visual that
represents the player.

Modules:

- `Engine`: Unity stand-ins.
  - Vectors, rotations and poses over exact reals.
  - `Vector3.Lerp` and `Mathf.Clamp01`.
  - The camera manager's `DisplayType`, the two colours, and `GameObject` (active flag and transform pose).
  - `Outcome`, which says whether a callback ran to its end or stopped on a null dereference.
- `Networking`: the commands a client can send; the `NetworkBehaviour` base (whether this is the local player, and the commands it has sent, in order); the anchor manager and shared-hologram collaborators.
- `DeviceControllers`:
  - `DeviceController`: one class for the base and both variants, tagged by `variant`.
  - The value-level `ControllerState`: enabled flag, referenced visual, and the visuals it leaked.
  - `Removed` and `Created`, the state-level meaning of `RemovePlayerObject` and `CreatePlayerObject`.
- `Selection`: the value-level meaning of the selection sweep.
  - `Swept` (one iteration), `LastMatch` (which controller ends up selected) and `SweptAll` (the whole list).
  - Lemmas about enabled flags and visuals.
- `PlayerRules`: pure decisions.
  - The spectator-name check.
  - `TickCommands`, the commands one `Update` tick issues.
  - The remote-avatar blend.
- `SamplePlayer`: the `SamplePlayerController` class.
  - Hooks, `Cmd*` handlers, `SetDeviceController`, `Update`, `Start` and the role set-up.
  - The lemmas that connect the class's state to `Selection`.

`SetDeviceController`, `Update` and `Start` are split into one method per block of the original method. Each helper's contract says what its block does. The outer method's contract is the composition of those contracts.

Issuing a command appends it to `NetworkBehaviour.sent`. The host's handling of it is the `Cmd` method of the same name. A `NullReferenceException` is the outcome `NullReference`. `Destroy(this)` sets the `destroyed` flag.

## Model

| member | source | states |
|---|---|---|
| DeviceControllers.ShippedVariantsDiffer | Unity/MRSharingWithUnetSamples/Assets/MRSharingWithUnetSamples/Scripts/HoloLensController.cs:40-43 | HoloLens supports Transparent and ImmersiveHMD supports Opaque (ImmersiveHMDController.cs:44-47). Two shipped variants support the same display type exactly when they are the same variant. |
| DeviceControllers.Removed | Unity/MRSharingWithUnetSamples/Assets/MRSharingWithUnetSamples/Scripts/DeviceControllerBase.cs:31-34 | After removal no visual is referenced and the enabled flag is kept. With no visual, the live visuals are unchanged. Otherwise exactly the referenced visual leaves the live visuals. |
| DeviceControllers.Created | Unity/MRSharingWithUnetSamples/Assets/MRSharingWithUnetSamples/Scripts/DeviceControllerBase.cs:47-57 | The new visual is parented under the given instance at local position zero, with the given colour, and it is the one referenced. It is added to the live visuals and nothing is destroyed. The enabled flag is kept. |
| DeviceControllers.RemoveIdempotent | Unity/MRSharingWithUnetSamples/Assets/MRSharingWithUnetSamples/Scripts/DeviceControllerBase.cs:31-34 | Removing twice is the same as removing once, and removal never reclaims a leaked visual. |
| DeviceControllers.CreateLeaksPrevious | Unity/MRSharingWithUnetSamples/Assets/MRSharingWithUnetSamples/Scripts/DeviceControllerBase.cs:49 | Creating over a referenced visual leaks it: the leak count grows by one exactly when a visual was referenced, and that visual is among the orphans. |
| DeviceControllers.DeviceController.SetNetworkBehaviour | Unity/MRSharingWithUnetSamples/Assets/MRSharingWithUnetSamples/Scripts/DeviceControllerBase.cs:21-29 | After setting behaviour `b`, `GetPlayerNetworkBehaviour()` returns `b`. |
| DeviceControllers.DeviceController.RemovePlayerObject | Unity/MRSharingWithUnetSamples/Assets/MRSharingWithUnetSamples/Scripts/DeviceControllerBase.cs:31-34 | The new controller state is `Removed` of the old one: a no-op without a visual, otherwise only the referenced visual is destroyed. |
| DeviceControllers.DeviceController.CreatePlayerObject | Unity/MRSharingWithUnetSamples/Assets/MRSharingWithUnetSamples/Scripts/DeviceControllerBase.cs:47-57 | The new controller state is `Created` of the old one, under `PlayerInstance` with the given colour. |
| DeviceControllers.DeviceController.InitializeLocalPlayer | Unity/MRSharingWithUnetSamples/Assets/MRSharingWithUnetSamples/Scripts/ImmersiveHMDController.cs:34-37 | A local player's visual is created blue, in both variants (HoloLensController.cs:30-33). |
| DeviceControllers.DeviceController.InitializeRemotePlayer | Unity/MRSharingWithUnetSamples/Assets/MRSharingWithUnetSamples/Scripts/ImmersiveHMDController.cs:39-42 | A remote player's visual is created red, in both variants (HoloLensController.cs:35-38). |
| DeviceControllers.DeviceController.LocalPlayerUpdate | Unity/MRSharingWithUnetSamples/Assets/MRSharingWithUnetSamples/Scripts/HoloLensController.cs:24-28 | The shared transform takes the camera's position and rotation, in both variants (ImmersiveHMDController.cs:23-27). |
| DeviceControllers.DeviceController.OnInputClicked | Unity/MRSharingWithUnetSamples/Assets/MRSharingWithUnetSamples/Scripts/ImmersiveHMDController.cs:49-52 | Without an owning behaviour the click stops on a null reference. Otherwise it sends exactly `Fire` when the owner is the local player and nothing otherwise. Both variants behave this way (HoloLensController.cs:45-48). |
| Selection.Swept | Unity/MRSharingWithUnetSamples/Assets/MRSharingWithUnetSamples/Scripts/SamplePlayerController.cs:204-216 | After one iteration a controller is enabled exactly when it supports the effective display type. A matching controller keeps its visual. A non-matching one loses its referenced visual. Leaked visuals are unaffected. |
| Selection.LastMatch | Unity/MRSharingWithUnetSamples/Assets/MRSharingWithUnetSamples/Scripts/SamplePlayerController.cs:204-211 | The selection after the first `n` iterations is a matching index below `n` with no match after it. It is absent exactly when none of the first `n` match. |
| Selection.SweptAll | Unity/MRSharingWithUnetSamples/Assets/MRSharingWithUnetSamples/Scripts/SamplePlayerController.cs:204-216 | After the whole sweep, each controller is enabled exactly when its display type is the effective one, and every non-matching controller references no visual. |
| Selection.SweepReleases | Unity/MRSharingWithUnetSamples/Assets/MRSharingWithUnetSamples/Scripts/SamplePlayerController.cs:214-215 | The sweep destroys exactly one visual per non-matching controller that referenced one. The number of leaked visuals is unchanged. |
| Selection.AtMostOneShippedEnabled | Unity/MRSharingWithUnetSamples/Assets/MRSharingWithUnetSamples/Scripts/SamplePlayerController.cs:204-216 | With each shipped variant attached at most once, at most one controller is enabled after the sweep. |
| Selection.SharedDisplayTypeEnablesBoth | Unity/MRSharingWithUnetSamples/Assets/MRSharingWithUnetSamples/Scripts/SamplePlayerController.cs:204-211 | Two controllers supporting the effective display type are both enabled, and the selection is at or after the later one. |
| Selection.RefreshLeaksVisual | Unity/MRSharingWithUnetSamples/Assets/MRSharingWithUnetSamples/Scripts/SamplePlayerController.cs:233-237 | A refresh that keeps the same matching controller re-initialises it without removing its visual. It stays enabled, and the old visual is leaked. |
| Selection.FallbackInitialisesDisabled | Unity/MRSharingWithUnetSamples/Assets/MRSharingWithUnetSamples/Scripts/SamplePlayerController.cs:218-228 | When nothing matches and an earlier selection is kept, that controller is swept as a non-match and then initialised. It ends disabled, holding a fresh visual, with no new leak. |
| PlayerRules.ToLower | Unity/MRSharingWithUnetSamples/Assets/MRSharingWithUnetSamples/Scripts/SamplePlayerController.cs:92 | Lower-casing keeps the length and maps each character independently. |
| PlayerRules.SpectatorNameIgnoresCase | Unity/MRSharingWithUnetSamples/Assets/MRSharingWithUnetSamples/Scripts/SamplePlayerController.cs:92 | Two names that agree up to case are either both spectator names or neither is. |
| PlayerRules.SpectatorNameSpelling | Unity/MRSharingWithUnetSamples/Assets/MRSharingWithUnetSamples/Scripts/SamplePlayerController.cs:92 | A name is a spectator name exactly when it spells "spectatorviewpc" in any case, in both directions. |
| PlayerRules.SpectatorNameExample | Unity/MRSharingWithUnetSamples/Assets/MRSharingWithUnetSamples/Scripts/SamplePlayerController.cs:92 | "SpectatorViewPC" is recognised. |
| PlayerRules.OtherNamesExample | Unity/MRSharingWithUnetSamples/Assets/MRSharingWithUnetSamples/Scripts/SamplePlayerController.cs:92 | The empty name, "SpectatorView" and "HoloLens" are not spectator names. |
| PlayerRules.TickCommands | Unity/MRSharingWithUnetSamples/Assets/MRSharingWithUnetSamples/Scripts/SamplePlayerController.cs:248-264 | A remote player issues nothing. A local player sends its anchor state exactly when its cached value differs from the manager's, and the value sent is the manager's. A local player with a controller ends with `Transform` of its pose, whether or not the anchor is established. Without a controller no `Transform` is issued: the tick stops on the null controller before it. A local player issues exactly one `Transform` when it has a controller and at most one anchor command, so the tick sends `[anchor, Transform]`, `[Transform]`, `[anchor]` or nothing. |
| PlayerRules.Blend | Unity/MRSharingWithUnetSamples/Assets/MRSharingWithUnetSamples/Scripts/SamplePlayerController.cs:243 | One tick of the remote blend shrinks the gap to the replicated position to seven tenths, in each coordinate. |
| PlayerRules.BlendTicksGap | Unity/MRSharingWithUnetSamples/Assets/MRSharingWithUnetSamples/Scripts/SamplePlayerController.cs:243 | After `n` ticks toward a fixed target the gap is 0.7^n of the initial one. |
| SamplePlayer.SweepIsSweptAll | Unity/MRSharingWithUnetSamples/Assets/MRSharingWithUnetSamples/Scripts/SamplePlayerController.cs:204-216 | Relates the end of the foreach to `Selection.SweptAll`: the states it leaves in the controllers, before the selected one is initialised, are `SweptAll` of their earlier states. |
| SamplePlayer.SweptAndInitialisedState | Unity/MRSharingWithUnetSamples/Assets/MRSharingWithUnetSamples/Scripts/SamplePlayerController.cs:204-228 | After selection:<br>• every controller is enabled exactly when its display type is the effective one;<br>• every non-selected mismatch references no visual;<br>• the non-selected controllers keep their behaviour and instance;<br>• the selected controller belongs to this player, has this game object as instance, and holds a fresh visual of the role's colour. |
| SamplePlayer.SamplePlayerController.constructor | Unity/MRSharingWithUnetSamples/Assets/MRSharingWithUnetSamples/Scripts/SamplePlayerController.cs:105 | A spawned player holds its replicated values and whether it runs in a UWP build. The refresh flag starts false, nothing is attached or selected, and Start has not run. |
| SamplePlayer.SamplePlayerController.AnchorEstablishedChanged | Unity/MRSharingWithUnetSamples/Assets/MRSharingWithUnetSamples/Scripts/SamplePlayerController.cs:70-76 | Stores the delivered value and changes nothing else. |
| SamplePlayer.SamplePlayerController.PlayerNameChanged | Unity/MRSharingWithUnetSamples/Assets/MRSharingWithUnetSamples/Scripts/SamplePlayerController.cs:87-93 | Stores the name. The game object is deactivated when the name is a spectator name, and its active flag is otherwise left as it was. |
| SamplePlayer.SamplePlayerController.CurrentDisplayTypeChanged | Unity/MRSharingWithUnetSamples/Assets/MRSharingWithUnetSamples/Scripts/SamplePlayerController.cs:98-103 | Stores the display type and sets the refresh flag. |
| SamplePlayer.SamplePlayerController.PlayerIpChanged | Unity/MRSharingWithUnetSamples/Assets/MRSharingWithUnetSamples/Scripts/SamplePlayerController.cs:117-120 | Stores the delivered IP. |
| SamplePlayer.SamplePlayerController.SharesAnchorsChanged | Unity/MRSharingWithUnetSamples/Assets/MRSharingWithUnetSamples/Scripts/SamplePlayerController.cs:132-136 | Stores the delivered capability. |
| SamplePlayer.SamplePlayerController.SetDeviceController | Unity/MRSharingWithUnetSamples/Assets/MRSharingWithUnetSamples/Scripts/SamplePlayerController.cs:194-229 | With no controller attached, the component is destroyed and the selection is kept. Otherwise the selection is the last match, or the earlier selection when nothing matches. Every controller is swept, and the selection is initialised for the role. The call stops on a null reference exactly when a controller is attached and nothing is selected. |
| SamplePlayer.SamplePlayerController.SelectDeviceController | Unity/MRSharingWithUnetSamples/Assets/MRSharingWithUnetSamples/Scripts/SamplePlayerController.cs:204-228 | With at least one controller attached: the last match is selected, or the earlier selection is kept. Every controller is swept and the selection initialised. The null outcome happens exactly when nothing is selected. |
| SamplePlayer.SamplePlayerController.SweepControllers | Unity/MRSharingWithUnetSamples/Assets/MRSharingWithUnetSamples/Scripts/SamplePlayerController.cs:204-216 | The foreach sweeps every controller from its earlier snapshot. It leaves the last match selected, or the earlier selection, which stays among the attached controllers. |
| SamplePlayer.SamplePlayerController.SweepOne | Unity/MRSharingWithUnetSamples/Assets/MRSharingWithUnetSamples/Scripts/SamplePlayerController.cs:205-216 | One iteration, under the source's local/remote condition, extends the swept prefix and the selection by one controller. |
| SamplePlayer.SamplePlayerController.EnableMatch | Unity/MRSharingWithUnetSamples/Assets/MRSharingWithUnetSamples/Scripts/SamplePlayerController.cs:209-210 | A matching controller becomes the selection and is enabled. Every other controller is untouched. |
| SamplePlayer.SamplePlayerController.DisableMismatch | Unity/MRSharingWithUnetSamples/Assets/MRSharingWithUnetSamples/Scripts/SamplePlayerController.cs:214-215 | A non-matching controller is disabled and loses its visual. The selection and every other controller are untouched. |
| SamplePlayer.SamplePlayerController.InitializeSelected | Unity/MRSharingWithUnetSamples/Assets/MRSharingWithUnetSamples/Scripts/SamplePlayerController.cs:218-228 | Initialising the selected controller keeps the selection. Afterwards every controller is swept and the selected one is initialised. |
| SamplePlayer.SamplePlayerController.InitializeDeviceController | Unity/MRSharingWithUnetSamples/Assets/MRSharingWithUnetSamples/Scripts/SamplePlayerController.cs:218-228 | The controller is handed this behaviour and this game object. Exactly one visual is then created: blue for a local player, red for a remote one. |
| SamplePlayer.SamplePlayerController.Update | Unity/MRSharingWithUnetSamples/Assets/MRSharingWithUnetSamples/Scripts/SamplePlayerController.cs:231-265 | A pending refresh re-runs selection once and clears the flag, unless selection stopped on a null reference. In that case the frame ends with the flag set, no command sent and the transform untouched. Otherwise the frame does what `TickDone` says. |
| SamplePlayer.SamplePlayerController.RefreshDeviceController | Unity/MRSharingWithUnetSamples/Assets/MRSharingWithUnetSamples/Scripts/SamplePlayerController.cs:233-237 | Without a pending refresh nothing changes. With one, selection runs and the flag ends equal to whether selection failed. |
| SamplePlayer.SamplePlayerController.RefreshSelection | Unity/MRSharingWithUnetSamples/Assets/MRSharingWithUnetSamples/Scripts/SamplePlayerController.cs:234-236 | Selection runs as `SetDeviceController` says. The flag is cleared exactly when it completed. |
| SamplePlayer.SamplePlayerController.Tick | Unity/MRSharingWithUnetSamples/Assets/MRSharingWithUnetSamples/Scripts/SamplePlayerController.cs:241-264 | The commands sent are exactly `TickCommands`.<br>• A named remote player blends its position toward the replicated one and snaps its rotation.<br>• A nameless remote player does nothing.<br>• A local player without a controller stops on a null reference without moving.<br>• A local player with a controller moves to the camera's pose. |
| SamplePlayer.SamplePlayerController.CmdSetPlayerIp | Unity/MRSharingWithUnetSamples/Assets/MRSharingWithUnetSamples/Scripts/SamplePlayerController.cs:302-305 | Assigns the IP and nothing else. |
| SamplePlayer.SamplePlayerController.CmdSetCanShareAnchors | Unity/MRSharingWithUnetSamples/Assets/MRSharingWithUnetSamples/Scripts/SamplePlayerController.cs:312-316 | Assigns the anchor-sharing capability and nothing else. |
| SamplePlayer.SamplePlayerController.CmdSendSharedTransform | Unity/MRSharingWithUnetSamples/Assets/MRSharingWithUnetSamples/Scripts/SamplePlayerController.cs:319-323 | The pose is relayed to the target hologram's own handler. This player's pose is untouched. |
| SamplePlayer.SamplePlayerController.CmdTransform | Unity/MRSharingWithUnetSamples/Assets/MRSharingWithUnetSamples/Scripts/SamplePlayerController.cs:331-335 | Assigns the replicated position and rotation and nothing else. |
| SamplePlayer.SamplePlayerController.CmdSendAnchorEstablished | Unity/MRSharingWithUnetSamples/Assets/MRSharingWithUnetSamples/Scripts/SamplePlayerController.cs:343-353 | Assigns the anchor state. The anchor manager is notified once exactly when the build is a UWP (`UNITY_WSA`) build, the anchor is established, the player shares anchors and it is not the local player; in any other build the call is compiled out and the manager is never notified. |
| SamplePlayer.SamplePlayerController.CmdSetPlayerName | Unity/MRSharingWithUnetSamples/Assets/MRSharingWithUnetSamples/Scripts/SamplePlayerController.cs:360-363 | Assigns the name and nothing else; unlike the hook, it does not deactivate a spectator. |
| SamplePlayer.SamplePlayerController.CmdSetCurrentDisplayType | Unity/MRSharingWithUnetSamples/Assets/MRSharingWithUnetSamples/Scripts/SamplePlayerController.cs:366-369 | Assigns the display type and nothing else; unlike the hook, it does not set the refresh flag. |
| SamplePlayer.SamplePlayerController.InitializeLocalPlayer | Unity/MRSharingWithUnetSamples/Assets/MRSharingWithUnetSamples/Scripts/SamplePlayerController.cs:378-398 | A local player sends its name, then its IP, then its capability. A remote one sends nothing. |
| SamplePlayer.SamplePlayerController.InitializeRemotePlayer | Unity/MRSharingWithUnetSamples/Assets/MRSharingWithUnetSamples/Scripts/SamplePlayerController.cs:400-404 | Re-running the anchor hooks with the current values leaves both fields as they were. |
| SamplePlayer.SamplePlayerController.SendSharedTransform | Unity/MRSharingWithUnetSamples/Assets/MRSharingWithUnetSamples/Scripts/SamplePlayerController.cs:412-415 | The transform is relayed exactly when the player is local. |
| SamplePlayer.SamplePlayerController.Start | Unity/MRSharingWithUnetSamples/Assets/MRSharingWithUnetSamples/Scripts/SamplePlayerController.cs:163-192 | Without a SharedCollection the component is destroyed and nothing else happens. Otherwise the components are attached and selection runs as `SetDeviceController` says. If selection stops on a null reference, nothing is sent. Otherwise a local player sends its display type, name, IP and capability in that order, and a remote one sends nothing. The anchor fields are kept. |
| SamplePlayer.SamplePlayerController.AttachControllers | Unity/MRSharingWithUnetSamples/Assets/MRSharingWithUnetSamples/Scripts/SamplePlayerController.cs:172-174 | The attached controllers are the object's components. Selection runs from no earlier selection, and the null outcome happens exactly when selection failed. |
| SamplePlayer.SamplePlayerController.AnnounceRole | Unity/MRSharingWithUnetSamples/Assets/MRSharingWithUnetSamples/Scripts/SamplePlayerController.cs:176-188 | A local player sends its display type and then its name, IP and capability. A remote one re-runs its anchor hooks and sends nothing. |

## Left out

- Floating point: positions and rotations are exact reals. `Vector3.Lerp` is computed exactly, and float rounding is not modelled.
- Local and world transforms are folded into one pose per game object. The parenting to the SharedCollection in `Start` (SamplePlayerController.cs:190-191) and the anchor transform are not modelled. The camera's pose is passed in as a parameter.
- Singletons and engine queries become parameters: the camera manager's display type, the network discovery name and IP, and whether a SharedCollection exists. `Awake` is the constructor.
- `CmdFire` (SamplePlayerController.cs:282-295) is engine physics and spawning. The model only records that `Fire` was sent.
- UNET delivery is not modelled: SyncVar timing, command channels and the send interval. A hook is a direct method call; issuing a command logs it in `sent`, and its host-side handling is the `Cmd` method of the same name. On a host, UNET's generated SyncVar setters also run the field's hook when a `Cmd` assigns the field; the model does not, so `CmdSetPlayerName` and `CmdSetCurrentDisplayType` leave the hooks' effects out.
- UNetSharedHologram is not part of this model. It is reduced to the transforms relayed to its `CmdTransform`.
- The InputManager listener registration in `Start` and its removal in `OnDestroy` (SamplePlayerController.cs:267-270) are input-system calls and are not modelled.
- The static `_instance` set in `InitializeLocalPlayer` is not modelled.
- The platform-dependent computation of `CanShareAnchors` (SamplePlayerController.cs:388-394) is not modelled: the field is given at construction. The other `UNITY_WSA` conditional (SamplePlayerController.cs:349-351) is modelled by the `wsaBuild` constant, which is also given at construction.
- `Debug.Log*` calls are left out.
- Materials and shaders: only the colour of a visual is kept. The `PlayerObject` prefab is not modelled.
- `OnStartLocalPlayer` (ImmersiveHMDController.cs:29-32) is not modelled: nothing in these scripts calls it, and the HoloLens variant does not override it, so HoloLensController.cs as given does not implement the abstract `OnStartLocalPlayer` of DeviceControllerBase.cs:39 and would not compile as written.
- `Destroy(this)` only sets the `destroyed` flag. Unity destroys the component at the end of the frame, so `Start` goes on after selection's `Destroy`, as the model does.
- `RemovePlayerObject` destroys the visual with `DestroyImmediate` but does not clear the field. The model relies on Unity's destroyed-object null check and clears the reference.
- Strings are never null in the model. In the source, a null player name would throw in `ToLower`.
- `ToLower` maps only the ASCII letters A to Z. Culture-specific case mapping is not modelled.
- `DisplayType` is HoloToolkit's `MixedRealityCameraManager.DisplayType`. It is defined outside these scripts and is taken to have exactly the values `Opaque` and `Transparent`.
- DeviceControllers.DeviceController.CreatePlayerObject: requires `PlayerInstance` to be set. The source would throw on a null instance; its only caller sets the instance first.
- SamplePlayer.SamplePlayerController.Tick: requires the selected controller to be a component of the same game object. `GetComponents` guarantees this.
- SamplePlayer.SamplePlayerController.Start: requires the components to be distinct and attached to this game object. `GetComponents` guarantees both.
- The abstract `SupportDisplayType` dispatch is modelled by the `variant` tag; only the two shipped variants exist.
- Four properties one might expect of the selection do not hold of the code, and the model follows the code:
  - Two controllers with the same display type are both enabled (`Selection.SharedDisplayTypeEnablesBoth`).
  - When nothing matches, the earlier selection is disabled and then given a fresh visual, so an inactive controller holds one (`Selection.FallbackInitialisesDisabled`).
  - A refresh that keeps the same controller leaks its visual (`Selection.RefreshLeaksVisual`).
  - The sweep enables and disables in list order, so a visual is not always released before another controller is enabled.
