/**
 * ChildProfileService: create, read, update and delete child profiles. The profiles live in a
 * key-value store under one key; the store is a map here, and the generated GUID and the current
 * UTC time are parameters.
 */
module ChildProfileService {
  import opened Wrappers

  const ProfilesKey: string := "child_profiles"

  type Day = int

  datatype ChildProfile = ChildProfile(
    id: string,
    parentPlayerId: string,
    name: string,
    birthDate: Day,
    weekdayLimitMinutes: int,
    weekendLimitMinutes: int,
    profileImagePath: Option<string>,
    createdAt: int)

  /** The InvalidOperationException of UpdateChildAsync for an unknown id. */
  datatype ProfileError = ProfileNotFound(id: string)

  /** List.FindIndex on the id: the first position holding that id, or -1. */
  function FindIndex(ps: seq<ChildProfile>, id: string): (i: int)
    ensures -1 <= i < |ps|
    ensures i >= 0 ==> ps[i].id == id && forall k :: 0 <= k < i ==> ps[k].id != id
    ensures i == -1 <==> forall k :: 0 <= k < |ps| ==> ps[k].id != id
  {
    if ps == [] then -1
    else
      var i := FindIndex(ps[..|ps| - 1], id);
      if i >= 0 then i else if ps[|ps| - 1].id == id then |ps| - 1 else -1
  }

  /** FirstOrDefault on the id. */
  function FirstWithId(ps: seq<ChildProfile>, id: string): (r: Option<ChildProfile>)
    ensures r.None? <==> forall k :: 0 <= k < |ps| ==> ps[k].id != id
    ensures r.Some? ==> r.value.id == id && r.value == ps[FindIndex(ps, id)]
  {
    var i := FindIndex(ps, id);
    if i < 0 then None else Some(ps[i])
  }

  /** Where on the parent id, in stored order. */
  function OfParent(ps: seq<ChildProfile>, parentPlayerId: string): (r: seq<ChildProfile>)
    ensures |r| <= |ps|
    ensures forall p :: p in r <==> p in ps && p.parentPlayerId == parentPlayerId
  {
    if ps == [] then []
    else
      var last := if ps[|ps| - 1].parentPlayerId == parentPlayerId then [ps[|ps| - 1]] else [];
      OfParent(ps[..|ps| - 1], parentPlayerId) + last
  }

  /** RemoveAll on the id: the others, in order. */
  function WithoutId(ps: seq<ChildProfile>, id: string): (r: seq<ChildProfile>)
    ensures |r| <= |ps|
    ensures forall k :: 0 <= k < |r| ==> r[k].id != id && r[k] in ps
    ensures forall k :: 0 <= k < |ps| && ps[k].id != id ==> ps[k] in r
  {
    if ps == [] then []
    else WithoutId(ps[..|ps| - 1], id) + (if ps[|ps| - 1].id != id then [ps[|ps| - 1]] else [])
  }

  /** Removing nothing keeps the list as it is. */
  lemma {:induction false} WithoutAbsentId(ps: seq<ChildProfile>, id: string)
    requires forall k :: 0 <= k < |ps| ==> ps[k].id != id
    ensures WithoutId(ps, id) == ps
  {
    if ps != [] {
      var init := ps[..|ps| - 1];
      var last := ps[|ps| - 1];
      assert last.id != id;
      forall k | 0 <= k < |init|
        ensures init[k].id != id
      {
        assert init[k] == ps[k];
      }
      WithoutAbsentId(init, id);
      calc {
        WithoutId(ps, id);
        WithoutId(init, id) + [last];
        init + [last];
        ps;
      }
    }
  }

  /** Filtering keeps the relative order: the filter of a longer list extends the filter of its prefix. */
  lemma {:induction false} OfParentAppend(ps: seq<ChildProfile>, extra: seq<ChildProfile>, parentPlayerId: string)
    ensures OfParent(ps + extra, parentPlayerId) == OfParent(ps, parentPlayerId) + OfParent(extra, parentPlayerId)
    decreases |extra|
  {
    if extra == [] {
      assert ps + extra == ps;
    } else {
      var init := extra[..|extra| - 1];
      assert (ps + extra)[..|ps + extra| - 1] == ps + init;
      OfParentAppend(ps, init, parentPlayerId);
    }
  }

  class ChildProfileService {
    /** The save service's key-value store. */
    var store: map<string, seq<ChildProfile>>
    var currentChildId: Option<string>

    constructor (store: map<string, seq<ChildProfile>>)
      ensures this.store == store && currentChildId == None
    {
      this.store := store;
      currentChildId := None;
    }

    /** LoadAsync with an empty list as the default. */
    function Profiles(): seq<ChildProfile>
      reads this
    {
      if ProfilesKey in store then store[ProfilesKey] else []
    }

    /** Appends one profile with a new id; the profiles already stored keep their order. */
    method CreateChild(parentPlayerId: string, name: string, birthDate: Day, weekdayLimitMinutes: int,
                       weekendLimitMinutes: int, newId: string, now: int) returns (created: ChildProfile)
      modifies this`store
      ensures created == ChildProfile(newId, parentPlayerId, name, birthDate, weekdayLimitMinutes, weekendLimitMinutes, None, now)
      ensures store == old(store)[ProfilesKey := old(Profiles()) + [created]]
    {
      var profiles := Profiles();
      created := ChildProfile(newId, parentPlayerId, name, birthDate, weekdayLimitMinutes, weekendLimitMinutes, None, now);
      profiles := profiles + [created];
      store := store[ProfilesKey := profiles];
    }

    function GetChildrenForParent(parentPlayerId: string): seq<ChildProfile>
      reads this
    {
      OfParent(Profiles(), parentPlayerId)
    }

    function GetChild(id: string): Option<ChildProfile>
      reads this
    {
      FirstWithId(Profiles(), id)
    }

    /** Replaces the first profile with the same id and saves; an unknown id is an error and saves nothing. */
    method UpdateChild(profile: ChildProfile) returns (r: Result<(), ProfileError>)
      modifies this`store
      ensures FindIndex(old(Profiles()), profile.id) < 0 ==> r == Err(ProfileNotFound(profile.id)) && store == old(store)
      ensures FindIndex(old(Profiles()), profile.id) >= 0 ==> r.Ok?
      ensures FindIndex(old(Profiles()), profile.id) >= 0 ==>
                store == old(store)[ProfilesKey := old(Profiles())[FindIndex(old(Profiles()), profile.id) := profile]]
    {
      var profiles := Profiles();
      var index := FindIndex(profiles, profile.id);
      if index < 0 {
        return Err(ProfileNotFound(profile.id));
      }
      profiles := profiles[index := profile];
      store := store[ProfilesKey := profiles];
      r := Ok(());
    }

    /** Removes every profile with that id, keeping the order of the rest, and saves even when none matched. */
    method DeleteChild(id: string)
      modifies this`store
      ensures store == old(store)[ProfilesKey := WithoutId(old(Profiles()), id)]
    {
      var profiles := Profiles();
      profiles := WithoutId(profiles, id);
      store := store[ProfilesKey := profiles];
    }

    method SetCurrentChild(childId: Option<string>)
      modifies this`currentChildId
      ensures currentChildId == childId
    {
      currentChildId := childId;
    }

    /** The first profile with the id last set as current; nothing when none is set or none matches. */
    function GetCurrentChild(): (r: Option<ChildProfile>)
      reads this
      ensures currentChildId.None? ==> r.None?
      ensures currentChildId.Some? ==> r == GetChild(currentChildId.value)
    {
      if currentChildId.None? then None else FirstWithId(Profiles(), currentChildId.value)
    }
  }

  /** After an update the profile is found under its id; after a delete nothing is. */
  method UpdateThenDelete(service: ChildProfileService, profile: ChildProfile)
    modifies service
    ensures service.GetChild(profile.id).None?
  {
    var r := service.UpdateChild(profile);
    if r.Ok? {
      assert service.GetChild(profile.id) == Some(profile);
    }
    service.DeleteChild(profile.id);
  }

  /** A created profile is listed last among its parent's children, after the ones listed before. */
  method CreateThenList(service: ChildProfileService, parentPlayerId: string, name: string, newId: string, now: int)
    returns (created: ChildProfile)
    modifies service
    ensures created.id == newId && created.parentPlayerId == parentPlayerId
    ensures service.GetChildrenForParent(parentPlayerId) == old(service.GetChildrenForParent(parentPlayerId)) + [created]
  {
    created := service.CreateChild(parentPlayerId, name, 0, 60, 90, newId, now);
    OfParentAppend(old(service.Profiles()), [created], parentPlayerId);
    assert OfParent([created], parentPlayerId) == [created];
  }
}
