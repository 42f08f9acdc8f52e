/** core/profiler.h: ProfilerSingleton, a list of timed scopes with id and
    nesting-level bookkeeping, and ScopedProfiler, which opens a scope on
    construction and closes it on destruction.

    The singleton is a plain instance here. Timestamps come from the timer
    and are parameters; they are integers, so float rounding of the time
    differences is not modelled. The int counters are unbounded. */
module Profiling {
  import opened Wrappers

  datatype ProfileData = ProfileData(timeDiff: int, timestamp: int, id: int, stackLevel: int, name: string)

  /** The position of the first entry with the given id, if any. */
  function FindId(data: seq<ProfileData>, id: int): (r: Option<nat>)
    ensures r.None? <==> forall i :: 0 <= i < |data| ==> data[i].id != id
    ensures r.Some? ==> r.value < |data| && data[r.value].id == id
    ensures r.Some? ==> forall i :: 0 <= i < r.value ==> data[i].id != id
  {
    if |data| == 0 then None
    else if data[0].id == id then Some(0)
    else
      match FindId(data[1..], id)
      case None => None
      case Some(k) => Some(k + 1)
  }

  /** Ids numbered from 1 in list order. */
  ghost predicate NumberedFromOne(data: seq<ProfileData>) {
    forall i :: 0 <= i < |data| ==> data[i].id == i + 1
  }

  /** In a list numbered from 1, id k is found exactly for 1 <= k <= size,
      at position k - 1. */
  lemma {:induction false} FindNumbered(data: seq<ProfileData>, id: int)
    requires NumberedFromOne(data)
    ensures 1 <= id <= |data| ==> FindId(data, id) == Some(id - 1)
    ensures !(1 <= id <= |data|) ==> FindId(data, id) == None
  {
    if 1 <= id <= |data| {
      assert data[id - 1].id == id;
    } else {
      forall i | 0 <= i < |data|
        ensures data[i].id != id
      {
        assert data[i].id == i + 1;
      }
    }
  }

  class ProfilerSingleton {
    var profileData: seq<ProfileData>
    var firstID: int
    var stackLevel: int

    /** firstID is always one past the number of entries, which are numbered
        1, 2, 3, ... in list order. */
    ghost predicate Valid()
      reads this
    {
      firstID == |profileData| + 1 && NumberedFromOne(profileData)
    }

    constructor ()
      ensures Valid() && profileData == [] && firstID == 1 && stackLevel == 0
    {
      profileData := [];
      firstID := 1;
      stackLevel := 0;
    }

    /** TotalData: the number of entries. */
    function TotalData(): (n: int)
      reads this
      ensures n == |profileData|
    {
      |profileData|
    }

    /** Reset: clears the list; ids restart at 1 and the level at 0. */
    method Reset()
      modifies this
      ensures Valid() && profileData == [] && firstID == 1 && stackLevel == 0
    {
      profileData := [];
      firstID := 1;
      stackLevel := 0;
    }

    /** SetProfileData with id 0 opens a scope: a new entry takes the next id
        and the current level, both counters advance, and the id is
        returned. With a nonzero id it closes the first entry carrying that
        id (its time difference becomes t minus its timestamp, and the level
        drops by one) and returns the id; an unknown id returns -1 and
        changes nothing. */
    method SetProfileData(name: string, t: int, id: int) returns (r: int)
      requires Valid()
      modifies this
      ensures Valid()
      ensures id == 0 ==>
        r == old(firstID) &&
        profileData == old(profileData) + [ProfileData(t, t, old(firstID), old(stackLevel), name)] &&
        stackLevel == old(stackLevel) + 1
      ensures id != 0 && FindId(old(profileData), id).Some? ==>
        var k := FindId(old(profileData), id).value;
        r == id && stackLevel == old(stackLevel) - 1 &&
        profileData == old(profileData)[k := old(profileData)[k].(timeDiff := t - old(profileData)[k].timestamp)]
      ensures id != 0 && FindId(old(profileData), id).None? ==>
        r == -1 && profileData == old(profileData) && stackLevel == old(stackLevel)
    {
      if id != 0 {
        var data := profileData;
        var i := 0;
        while i < |data|
          invariant i <= |data|
          invariant forall j :: 0 <= j < i ==> data[j].id != id
        {
          if data[i].id == id {
            assert FindId(data, id) == Some(i) by {
              FindFirst(data, id, i);
            }
            profileData := data[i := data[i].(timeDiff := t - data[i].timestamp)];
            stackLevel := stackLevel - 1;
            return id;
          }
          i := i + 1;
        }
        return -1;
      } else {
        var entry := ProfileData(t, t, firstID, stackLevel, name);
        firstID := firstID + 1;
        stackLevel := stackLevel + 1;
        profileData := profileData + [entry];
        return entry.id;
      }
    }
  }

  /** The first position holding an id is the one FindId reports. */
  lemma FindFirst(data: seq<ProfileData>, id: int, i: nat)
    requires i < |data| && data[i].id == id
    requires forall j :: 0 <= j < i ==> data[j].id != id
    ensures FindId(data, id) == Some(i)
  {
  }

  /** A ScopedProfiler: its constructor opens a scope under `name` at time
      t, and its destructor (Close) closes it at a later time. */
  class ScopedProfiler {
    const ps: ProfilerSingleton
    const id: int
    const name: string

    /** Opening inside k open scopes records level k, under a fresh id one
        past the entries so far. */
    constructor (ps: ProfilerSingleton, name: string, t: int)
      requires ps.Valid()
      modifies ps
      ensures ps.Valid() && this.ps == ps && this.name == name
      ensures id == |old(ps.profileData)| + 1 && id >= 1
      ensures ps.profileData == old(ps.profileData) + [ProfileData(t, t, id, old(ps.stackLevel), name)]
      ensures ps.stackLevel == old(ps.stackLevel) + 1
    {
      var r := ps.SetProfileData(name, t, 0);
      this.ps := ps;
      this.name := name;
      id := r;
    }

    /** The destructor: while the scope's entry is still listed, its time
        difference is set and the level drops back by one; after a Reset
        that dropped it, nothing happens. The id is at least 1, as the
        constructor ensures. */
    method Close(t: int)
      requires ps.Valid() && id >= 1
      modifies ps
      ensures ps.Valid()
      ensures 1 <= id <= |old(ps.profileData)| ==>
        ps.stackLevel == old(ps.stackLevel) - 1 &&
        ps.profileData == old(ps.profileData)[id - 1 := old(ps.profileData)[id - 1].(timeDiff := t - old(ps.profileData)[id - 1].timestamp)]
      ensures !(1 <= id <= |old(ps.profileData)|) ==>
        ps.stackLevel == old(ps.stackLevel) && ps.profileData == old(ps.profileData)
    {
      FindNumbered(ps.profileData, id);
      var _ := ps.SetProfileData(name, t, id);
    }
  }
}
