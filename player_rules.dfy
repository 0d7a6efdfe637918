/**
 * The decisions SamplePlayerController makes on plain values: the spectator
 * name check, the commands one Update tick issues, and how a remote avatar's
 * position is blended toward its replicated position.
 */
module PlayerRules {
  import opened Engine
  import opened Networking

  /** Lower-casing of one character; only ASCII letters are mapped. */
  function LowerChar(c: char): char
  {
    if 'A' <= c <= 'Z' then (c as int + 32) as char else c
  }

  /** string.ToLower, character by character. */
  function ToLower(s: string): (r: string)
    ensures |r| == |s|
    ensures forall i :: 0 <= i < |s| ==> r[i] == LowerChar(s[i])
  {
    if |s| == 0 then "" else [LowerChar(s[0])] + ToLower(s[1..])
  }

  /** The name a spectator-view PC registers with. */
  const SpectatorName: string := "spectatorviewpc"

  /** PlayerNameChanged hides the player exactly for these names. */
  predicate IsSpectatorName(name: string)
  {
    ToLower(name) == SpectatorName
  }

  /** The check ignores case: names equal up to case are treated alike. */
  lemma SpectatorNameIgnoresCase(a: string, b: string)
    requires |a| == |b| && forall i :: 0 <= i < |a| ==> LowerChar(a[i]) == LowerChar(b[i])
    ensures IsSpectatorName(a) <==> IsSpectatorName(b)
  {
    assert ToLower(a) == ToLower(b);
  }

  /** A name is a spectator name exactly when it spells "spectatorviewpc" in any case. */
  lemma SpectatorNameSpelling(name: string)
    ensures IsSpectatorName(name) <==>
      |name| == |SpectatorName| && forall i :: 0 <= i < |name| ==> LowerChar(name[i]) == SpectatorName[i]
  {
    if |name| == |SpectatorName| && forall i :: 0 <= i < |name| ==> LowerChar(name[i]) == SpectatorName[i] {
      assert ToLower(name) == SpectatorName;
    }
  }

  /** The name as a spectator-view PC usually spells it is recognised. */
  lemma SpectatorNameExample()
    ensures IsSpectatorName("SpectatorViewPC")
  {
    assert forall i :: 0 <= i < 15 ==> LowerChar("SpectatorViewPC"[i]) == "spectatorviewpc"[i];
    SpectatorNameSpelling("SpectatorViewPC");
  }

  /** Other names, including the empty one, leave the player active. */
  lemma OtherNamesExample()
    ensures !IsSpectatorName("") && !IsSpectatorName("SpectatorView") && !IsSpectatorName("HoloLens")
  {
  }

  /**
   * The commands one Update tick issues once any controller refresh is done.
   * A remote player issues none. A local player sends its anchor state when
   * the cached replicated value disagrees with the anchor manager, and then
   * its transform, whether or not the anchor is established; without a
   * selected controller the tick stops on a null dereference before the
   * transform.
   */
  function TickCommands(isLocalPlayer: bool, cachedAnchor: bool, managerAnchor: bool, hasController: bool, pose: Pose): (r: seq<Command>)
    ensures !isLocalPlayer ==> r == []
    ensures isLocalPlayer && hasController ==> |r| > 0 && r[|r| - 1] == Transform(pose)
    ensures !hasController ==> forall i :: 0 <= i < |r| ==> r[i].SendAnchorEstablished?
    ensures (exists i :: 0 <= i < |r| && r[i].SendAnchorEstablished?) <==> isLocalPlayer && cachedAnchor != managerAnchor
    ensures forall i :: 0 <= i < |r| && r[i].SendAnchorEstablished? ==> r[i].established == managerAnchor
    ensures forall i :: 0 <= i < |r| ==> r[i].SendAnchorEstablished? || r[i] == Transform(pose)
    ensures isLocalPlayer ==> |r| == (if cachedAnchor != managerAnchor then 1 else 0) + (if hasController then 1 else 0)
  {
    if !isLocalPlayer then []
    else
      var anchor := if cachedAnchor != managerAnchor then [SendAnchorEstablished(managerAnchor)] else [];
      var r := anchor + (if hasController then [Transform(pose)] else []);
      assert cachedAnchor != managerAnchor ==> r[0].SendAnchorEstablished?;
      r
  }

  /** The interpolation factor a remote avatar moves by each tick. */
  const BlendFactor: real := 0.3

  /**
   * One tick of a remote avatar: Vector3.Lerp toward the replicated position
   * by BlendFactor, so the remaining gap shrinks to seven tenths.
   */
  function Blend(current: Vec3, target: Vec3): (r: Vec3)
    ensures r.x - target.x == 0.7 * (current.x - target.x)
    ensures r.y - target.y == 0.7 * (current.y - target.y)
    ensures r.z - target.z == 0.7 * (current.z - target.z)
  {
    Lerp(current, target, BlendFactor)
  }

  /** The position after n ticks toward a fixed target. */
  function BlendTicks(current: Vec3, target: Vec3, n: nat): Vec3
  {
    if n == 0 then current else Blend(BlendTicks(current, target, n - 1), target)
  }

  function Pow(b: real, n: nat): real
  {
    if n == 0 then 1.0 else b * Pow(b, n - 1)
  }

  /** After n ticks the gap to a fixed target is 0.7^n of the initial gap: exponential smoothing. */
  lemma {:induction false} BlendTicksGap(current: Vec3, target: Vec3, n: nat)
    ensures BlendTicks(current, target, n).x - target.x == Pow(0.7, n) * (current.x - target.x)
    ensures BlendTicks(current, target, n).y - target.y == Pow(0.7, n) * (current.y - target.y)
    ensures BlendTicks(current, target, n).z - target.z == Pow(0.7, n) * (current.z - target.z)
  {
    if n > 0 {
      BlendTicksGap(current, target, n - 1);
      var p := Pow(0.7, n - 1);
      var prev := BlendTicks(current, target, n - 1);
      assert Pow(0.7, n) == 0.7 * p;
      assert BlendTicks(current, target, n) == Blend(prev, target);
      assert 0.7 * (p * (current.x - target.x)) == (0.7 * p) * (current.x - target.x);
      assert 0.7 * (p * (current.y - target.y)) == (0.7 * p) * (current.y - target.y);
      assert 0.7 * (p * (current.z - target.z)) == (0.7 * p) * (current.z - target.z);
    }
  }
}
