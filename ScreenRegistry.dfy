/**
 * The asset that maps screen ids to prefabs. Both lookups scan the entries from the
 * front and stop at the first entry whose id matches.
 */
module ScreenRegistry {
  import opened Wrappers

  /**
   * The view component a prefab carries: none, a ViewBase, or a PopupViewBase, each bound to one
   * view-model type; `usesAnimator` is the view's HasAnimator (animator mode with an Animator attached).
   */
  datatype ViewComponent =
    | NoView
    | ScreenView(vmType: string, usesAnimator: bool)
    | PopupView(vmType: string, usesAnimator: bool)

  /** A prefab asset, reduced to its name, whether it is saved active, and the view component on it. */
  datatype Prefab = Prefab(name: string, activeSelf: bool, view: ViewComponent)

  /** One serialized entry; a `None` prefab is an entry whose prefab slot was left empty. */
  datatype ScreenEntry = ScreenEntry(screenId: string, prefab: Option<Prefab>)

  datatype Registry = Registry(screens: seq<ScreenEntry>)
  {
    predicate Matches(i: int, screenId: string) {
      0 <= i < |screens| && screens[i].screenId == screenId
    }

    /** The index the scan stops at, starting from position `from`. */
    function FindFrom(screenId: string, from: nat): (r: Option<nat>)
      requires from <= |screens|
      ensures r.Some? ==> from <= r.value && Matches(r.value, screenId)
      ensures r.Some? ==> forall j :: from <= j < r.value ==> !Matches(j, screenId)
      ensures r.None? ==> forall j :: from <= j < |screens| ==> !Matches(j, screenId)
      decreases |screens| - from
    {
      if from == |screens| then None
      else if screens[from].screenId == screenId then Some(from)
      else FindFrom(screenId, from + 1)
    }

    /** The prefab of the lowest-index matching entry, or null (`None`) when nothing matches. */
    function GetPrefab(screenId: string): (r: Option<Prefab>)
      ensures forall i :: (Matches(i, screenId) && forall j :: 0 <= j < i ==> !Matches(j, screenId)) ==>
                r == screens[i].prefab
      ensures (forall i :: 0 <= i < |screens| ==> !Matches(i, screenId)) ==> r.None?
    {
      match FindFrom(screenId, 0)
      case Some(i) => screens[i].prefab
      case None => None
    }

    /** Whether some entry has the id. */
    function HasScreen(screenId: string): (b: bool)
      ensures b <==> exists i :: Matches(i, screenId)
    {
      FindFrom(screenId, 0).Some?
    }
  }

  /** A prefab returned by the lookup means the id is registered. */
  lemma GetPrefabImpliesHasScreen(reg: Registry, screenId: string)
    requires reg.GetPrefab(screenId).Some?
    ensures reg.HasScreen(screenId)
  {
  }

  /** The converse fails: an entry with an empty prefab slot is found by HasScreen, yet GetPrefab yields null. */
  lemma HasScreenWithoutPrefab()
    ensures var reg := Registry([ScreenEntry("home", None)]);
      reg.HasScreen("home") && reg.GetPrefab("home").None?
  {
    var reg := Registry([ScreenEntry("home", None)]);
    assert reg.Matches(0, "home");
  }

  /** Entries appended after a matching one never change what GetPrefab returns: later duplicates are shadowed. */
  lemma {:induction false} LaterEntriesShadowed(screens: seq<ScreenEntry>, later: seq<ScreenEntry>, screenId: string)
    requires exists i :: 0 <= i < |screens| && screens[i].screenId == screenId
    ensures Registry(screens + later).GetPrefab(screenId) == Registry(screens).GetPrefab(screenId)
  {
    var i :| 0 <= i < |screens| && screens[i].screenId == screenId;
    var reg, big := Registry(screens), Registry(screens + later);
    var k := reg.FindFrom(screenId, 0);
    assert reg.Matches(i, screenId);
    assert k.Some?;
    assert big.Matches(k.value, screenId);
    forall j | 0 <= j < k.value
      ensures !big.Matches(j, screenId)
    {
      assert !reg.Matches(j, screenId);
    }
  }
}
