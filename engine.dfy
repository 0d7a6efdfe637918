/**
 * Stand-ins for the Unity engine values and objects that the player scripts
 * touch: vectors and rotations, the display type reported by the camera
 * manager, colours, game objects, and the way a callback can end.
 */
module Engine {

  datatype Option<T> = None | Some(value: T)

  /** A Unity Vector3. Components are exact reals: float rounding is not modelled. */
  datatype Vec3 = Vec3(x: real, y: real, z: real)

  /** A Unity Quaternion. The scripts only copy rotations, so no algebra is needed. */
  datatype Quat = Quat(x: real, y: real, z: real, w: real)

  /** A position and a rotation, both relative to the object's parent. */
  datatype Pose = Pose(position: Vec3, rotation: Quat)

  const Origin: Vec3 := Vec3(0.0, 0.0, 0.0)

  /** HoloToolkit's MixedRealityCameraManager.DisplayType. */
  datatype DisplayType = Opaque | Transparent

  /** The two colours the device controllers paint their visuals with. */
  datatype Color = Blue | Red

  /** How a Unity callback ended: it ran to its end, or it stopped on a null dereference. */
  datatype Outcome = Completed | NullReference

  /** Unity's Mathf.Clamp01. */
  function Clamp01(t: real): (r: real)
    ensures 0.0 <= r <= 1.0
    ensures 0.0 <= t <= 1.0 ==> r == t
  {
    if t < 0.0 then 0.0 else if t > 1.0 then 1.0 else t
  }

  /** One component of Unity's Vector3.Lerp: a + (b - a) * Clamp01(t). */
  function LerpComponent(a: real, b: real, t: real): (r: real)
    ensures t <= 0.0 ==> r == a
    ensures t >= 1.0 ==> r == b
  {
    a + (b - a) * Clamp01(t)
  }

  /** Unity's Vector3.Lerp, componentwise. */
  function Lerp(a: Vec3, b: Vec3, t: real): Vec3
  {
    Vec3(LerpComponent(a.x, b.x, t), LerpComponent(a.y, b.y, t), LerpComponent(a.z, b.z, t))
  }

  /**
   * A Unity GameObject: whether it is active, and the pose of its transform.
   * The device controllers and the player controller are components of the
   * same object, so they all move this one transform.
   */
  class GameObject {
    var active: bool
    var position: Vec3
    var rotation: Quat

    constructor (pose: Pose)
      ensures active && position == pose.position && rotation == pose.rotation
    {
      active := true;
      position := pose.position;
      rotation := pose.rotation;
    }
  }
}
