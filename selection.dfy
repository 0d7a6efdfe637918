/**
 * The value-level meaning of SetDeviceController's sweep over the attached
 * controllers: what one iteration does to a controller, which controller ends
 * up selected, and what the sweep does to the visuals in the scene.
 */
module Selection {
  import opened Engine
  import opened DeviceControllers

  /**
   * One iteration of the sweep: a controller whose display type is the
   * effective one is enabled and keeps its visual; any other is disabled and
   * its referenced visual destroyed.
   */
  function Swept(s: ControllerState, support: DisplayType, effective: DisplayType): (r: ControllerState)
    ensures r.enabled <==> support == effective
    ensures support == effective ==> r.playerObject == s.playerObject && r.orphans == s.orphans
    ensures support != effective ==> r.playerObject.None? && r.orphans == s.orphans
  {
    if support == effective then s.(enabled := true) else Removed(s.(enabled := false))
  }

  /**
   * The controller the first n iterations of the sweep leave in
   * `_deviceController`: the last of them that matches.
   */
  function LastMatch(supports: seq<DisplayType>, n: nat, effective: DisplayType): (r: Option<nat>)
    requires n <= |supports|
    ensures r.Some? ==> r.value < n && supports[r.value] == effective
    ensures r.Some? ==> forall j :: r.value < j < n ==> supports[j] != effective
    ensures r.None? <==> forall j :: 0 <= j < n ==> supports[j] != effective
  {
    if n == 0 then None
    else if supports[n - 1] == effective then Some(n - 1)
    else LastMatch(supports, n - 1, effective)
  }

  /** The sweep over the whole list. */
  function SweptAll(ss: seq<ControllerState>, supports: seq<DisplayType>, effective: DisplayType): (r: seq<ControllerState>)
    requires |ss| == |supports|
    ensures |r| == |ss|
    ensures forall i :: 0 <= i < |ss| ==> (r[i].enabled <==> supports[i] == effective)
    ensures forall i :: 0 <= i < |ss| && supports[i] != effective ==> r[i].playerObject.None?
  {
    if |ss| == 0 then []
    else [Swept(ss[0], supports[0], effective)] + SweptAll(ss[1..], supports[1..], effective)
  }

  /** The sweep over the whole list is the sweep of each controller in its place. */
  lemma {:induction false} SweptAllAt(ss: seq<ControllerState>, supports: seq<DisplayType>, effective: DisplayType)
    requires |ss| == |supports|
    ensures forall i :: 0 <= i < |ss| ==> SweptAll(ss, supports, effective)[i] == Swept(ss[i], supports[i], effective)
  {
    if |ss| > 0 {
      SweptAllAt(ss[1..], supports[1..], effective);
    }
  }

  /** Visuals alive in the scene, over all controllers. */
  function TotalLive(ss: seq<ControllerState>): nat
  {
    if |ss| == 0 then 0 else |Alive(ss[0])| + TotalLive(ss[1..])
  }

  /** Visuals alive but referenced by no controller, over all controllers. */
  function TotalLeaked(ss: seq<ControllerState>): nat
  {
    if |ss| == 0 then 0 else Leaked(ss[0]) + TotalLeaked(ss[1..])
  }

  /** How many controllers that do not match still reference a visual. */
  function Released(ss: seq<ControllerState>, supports: seq<DisplayType>, effective: DisplayType): nat
    requires |ss| == |supports|
  {
    if |ss| == 0 then 0
    else (if supports[0] != effective && ss[0].playerObject.Some? then 1 else 0)
         + Released(ss[1..], supports[1..], effective)
  }

  /**
   * The sweep destroys exactly one visual per non-matching controller that
   * references one, and no leaked visual is ever reclaimed.
   */
  lemma {:induction false} SweepReleases(ss: seq<ControllerState>, supports: seq<DisplayType>, effective: DisplayType)
    requires |ss| == |supports|
    ensures TotalLive(SweptAll(ss, supports, effective)) + Released(ss, supports, effective) == TotalLive(ss)
    ensures TotalLeaked(SweptAll(ss, supports, effective)) == TotalLeaked(ss)
  {
    if |ss| > 0 {
      var r := SweptAll(ss, supports, effective);
      SweepReleases(ss[1..], supports[1..], effective);
      assert r[1..] == SweptAll(ss[1..], supports[1..], effective);
    }
  }

  /**
   * With the shipped controllers, each variant attached at most once, at most
   * one controller is enabled after the sweep.
   */
  lemma AtMostOneShippedEnabled(cs: seq<DeviceController>, ss: seq<ControllerState>, effective: DisplayType)
    requires |ss| == |cs|
    requires forall i, j :: 0 <= i < j < |cs| ==> cs[i].variant != cs[j].variant
    ensures var r := SweptAll(ss, SupportsOf(cs), effective);
      forall i, j :: 0 <= i < j < |r| ==> !(r[i].enabled && r[j].enabled)
  {
    var r := SweptAll(ss, SupportsOf(cs), effective);
    forall i, j | 0 <= i < j < |r|
      ensures !(r[i].enabled && r[j].enabled)
    {
      ShippedVariantsDiffer(cs[i].variant, cs[j].variant);
    }
  }

  /**
   * Two controllers that share the effective display type are both enabled,
   * and the later one is selected.
   */
  lemma SharedDisplayTypeEnablesBoth(ss: seq<ControllerState>, supports: seq<DisplayType>, effective: DisplayType, i: nat, j: nat)
    requires |ss| == |supports|
    requires i < j < |ss| && supports[i] == effective && supports[j] == effective
    ensures SweptAll(ss, supports, effective)[i].enabled && SweptAll(ss, supports, effective)[j].enabled
    ensures LastMatch(supports, |supports|, effective).Some? && LastMatch(supports, |supports|, effective).value >= j
  {
  }

  /**
   * A refresh that keeps the same controller re-initialises it without
   * removing its visual: the old visual is leaked.
   */
  lemma RefreshLeaksVisual(s: ControllerState, support: DisplayType, color: Color, parent: GameObject)
    requires s.playerObject.Some?
    ensures var r := Created(Swept(s, support, support), color, parent);
      r.enabled && Leaked(r) == Leaked(s) + 1 && s.playerObject.value in r.orphans
  {
    CreateLeaksPrevious(Swept(s, support, support), color, parent);
  }

  /**
   * When nothing matches, the previously selected controller is disabled and
   * then initialised again: it ends disabled but holding a fresh visual.
   */
  lemma FallbackInitialisesDisabled(s: ControllerState, support: DisplayType, effective: DisplayType, color: Color, parent: GameObject)
    requires support != effective
    ensures var r := Created(Swept(s, support, effective), color, parent);
      !r.enabled && r.playerObject == Some(Visual(parent, Origin, color)) && Leaked(r) == Leaked(s)
  {
  }
}
