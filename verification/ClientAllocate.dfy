/**
 The client's allocate for REGION-level permission: it opens the region, looks up the
 registration of the extent that holds the item on each server, refreshes a stale map,
 and must not keep the region open unless it returns a usable descriptor.

 What opening the region, locking the resource for a refresh and asking for the region's
 memory map answer are parameters.  `refs` counts this client's opens minus its closes.
 */
module ClientAllocate {
  type ServerId = nat

  datatype Option<T> = None | Some(value: T)

  /** Fam_Region_Memory: key and base address of each extent. */
  datatype RegionMemory = RegionMemory(keys: seq<nat>, base: seq<nat>)

  type MemoryMap = map<ServerId, RegionMemory>

  /** A decoded item offset on one server. */
  datatype Place = Place(server: ServerId, extent: nat, start: nat)

  /** How a refresh for one server goes: the lock, then the new map or an exception. */
  datatype Refresh = Refresh(locked: bool, answer: Option<MemoryMap>)

  datatype Outcome = InitDone | KeyNotValid | Thrown

  /** Servers report one base per key. */
  predicate Paired(m: MemoryMap) { forall s :: s in m ==> |m[s].base| == |m[s].keys| }

  predicate Known(m: MemoryMap, p: Place) { p.server in m && p.extent < |m[p.server].keys| }

  /** The map a refresh ends up with: empty if the resource could not be locked. */
  function Refreshed(release: bool, f: Refresh): Option<MemoryMap> {
    if release && !f.locked then Some(map[]) else f.answer
  }

  /** The map that tells key and base of p: the opened one, or a refreshed one if that is stale. */
  function Registration(release: bool, openMap: MemoryMap, p: Place, f: Refresh): Option<MemoryMap> {
    if Known(openMap, p) then Some(openMap)
    else if p.server in openMap && Refreshed(release, f).Some? && Known(Refreshed(release, f).value, p)
    then Refreshed(release, f)
    else None
  }

  /** The server is known, and it has the extent in the opened map or, unless the refresh could not lock
      the resource, in the map the service answers with. */
  predicate Registered(release: bool, openMap: MemoryMap, p: Place, f: Refresh) {
    && p.server in openMap
    && (Known(openMap, p) || ((release ==> f.locked) && f.answer.Some? && Known(f.answer.value, p)))
  }

  /** Which map a registration comes from. */
  lemma RegistrationExact(release: bool, openMap: MemoryMap, p: Place, f: Refresh)
    ensures Registration(release, openMap, p, f) ==
      if !Registered(release, openMap, p, f) then None else if Known(openMap, p) then Some(openMap) else f.answer
  {
  }

  /** A stale entry whose refreshed map does not list the server: the second lookup throws past the caller. */
  predicate Escapes(release: bool, openMap: MemoryMap, p: Place, f: Refresh) {
    p.server in openMap && !Known(openMap, p) && Refreshed(release, f).Some? && p.server !in Refreshed(release, f).value
  }

  /** The first n places have a registration, and keys and bases are those of their extents. */
  ghost predicate Read(release: bool, m: MemoryMap, places: seq<Place>, refreshes: seq<Refresh>, n: nat,
                       keys: seq<nat>, bases: seq<nat>) {
    && n <= |places| == |refreshes| && |keys| == |bases| == n
    && forall i :: 0 <= i < n ==>
         ReadAt(Registration(release, m, places[i], refreshes[i]), places[i], keys[i], bases[i])
  }

  predicate ReadAt(m: Option<MemoryMap>, p: Place, key: nat, base: nat) {
    && m.Some? && p.server in m.value
    && var memory := m.value[p.server];
    && p.extent < |memory.keys| && p.extent < |memory.base|
    && key == memory.keys[p.extent] && base == memory.base[p.extent] + p.start
  }

  /** Place i escapes after all earlier ones were found. */
  ghost predicate EscapesAt(release: bool, m: MemoryMap, places: seq<Place>, refreshes: seq<Refresh>, i: nat)
    requires i < |places| == |refreshes|
  {
    && Escapes(release, m, places[i], refreshes[i])
    && forall j :: 0 <= j < i ==> Registration(release, m, places[j], refreshes[j]).Some?
  }

  ghost predicate AllRegistered(release: bool, m: MemoryMap, places: seq<Place>, refreshes: seq<Refresh>)
    requires |places| == |refreshes|
  {
    forall i :: 0 <= i < |places| ==> Registered(release, m, places[i], refreshes[i])
  }

  method LookupRegionMemoryMap(m: MemoryMap, server: ServerId) returns (r: Option<RegionMemory>)
    ensures r == if server in m then Some(m[server]) else None
  {
    if server !in m {
      return None;
    }
    return Some(m[server]);
  }

  class Client {
    const enableResourceRelease: bool
    var refs: nat
    var memoryMap: MemoryMap             // the resource's cached map

    constructor (release: bool)
      ensures enableResourceRelease == release && refs == 0 && memoryMap == map[]
    {
      enableResourceRelease, refs, memoryMap := release, 0, map[];
    }

    method OpenRegionWithRegistration(answer: Option<MemoryMap>) returns (r: Option<MemoryMap>)
      modifies this`refs
      ensures r == answer && refs == old(refs) + if enableResourceRelease && answer.Some? then 1 else 0
    {
      if enableResourceRelease && answer.Some? {
        refs := refs + 1;
      }
      r := answer;
    }

    method CloseRegion()
      requires enableResourceRelease ==> refs > 0
      modifies this`refs
      ensures refs == old(refs) - if enableResourceRelease then 1 else 0
    {
      if enableResourceRelease {
        refs := refs - 1;
      }
    }

    /** None stands for a failed request; the resource, if any, is unlocked again. */
    method RefreshMap(f: Refresh) returns (updated: Option<MemoryMap>)
      modifies this`memoryMap
      ensures updated == Refreshed(enableResourceRelease, f)
      ensures memoryMap ==
        if enableResourceRelease && f.locked && f.answer.Some? then f.answer.value else old(memoryMap)
    {
      if enableResourceRelease {
        updated := Some(map[]);
        if f.locked {
          updated := f.answer;
          if updated.Some? {
            memoryMap := updated.value;
          }
        }
      } else {
        updated := f.answer;
      }
    }

    /** A usable descriptor comes with one new reference and, for every server, key and base of the
        item's own extent; a descriptor without keys comes with none. */
    method Allocate(places: seq<Place>, open: Option<MemoryMap>, refreshes: seq<Refresh>)
      returns (r: Outcome, keys: seq<nat>, bases: seq<nat>)
      requires |refreshes| == |places| && (open.Some? ==> Paired(open.value))
      requires forall i :: 0 <= i < |refreshes| && refreshes[i].answer.Some? ==> Paired(refreshes[i].answer.value)
      modifies this
      ensures refs == old(refs) + if enableResourceRelease && r != KeyNotValid then 1 else 0
      ensures r == InitDone <==> open.Some? && AllRegistered(enableResourceRelease, open.value, places, refreshes)
      ensures r == InitDone ==>
        open.Some? && Read(enableResourceRelease, open.value, places, refreshes, |places|, keys, bases)
      ensures r != InitDone ==>
        (open.None? ||
         exists i :: 0 <= i < |places|
                     && Registration(enableResourceRelease, open.value, places[i], refreshes[i]).None?)
      ensures r == Thrown <==>
        (open.Some?
         && exists i :: 0 <= i < |places| && EscapesAt(enableResourceRelease, open.value, places, refreshes, i))
    {
      keys, bases := [], [];
      var openMap := OpenRegionWithRegistration(open);
      if openMap.None? {
        return KeyNotValid, [], [];
      }
      for i := 0 to |places|
        invariant refs == old(refs) + if enableResourceRelease then 1 else 0
        invariant Read(enableResourceRelease, open.value, places, refreshes, i, keys, bases)
      {
        var p := places[i];
        var regionMemory := LookupRegionMemoryMap(openMap.value, p.server);
        if regionMemory.None? {
          CloseRegion();
          return KeyNotValid, [], [];
        }
        if p.extent >= |regionMemory.value.keys| {
          var updated := RefreshMap(refreshes[i]);
          if updated.None? {
            CloseRegion();
            return KeyNotValid, [], [];
          }
          regionMemory := LookupRegionMemoryMap(updated.value, p.server);
          if regionMemory.None? {
            assert EscapesAt(enableResourceRelease, open.value, places, refreshes, i);
            return Thrown, [], [];
          }
          if p.extent >= |regionMemory.value.keys| {
            CloseRegion();
            return KeyNotValid, [], [];
          }
        }
        bases := bases + [regionMemory.value.base[p.extent] + p.start];
        keys := keys + [regionMemory.value.keys[p.extent]];
      }
      return InitDone, keys, bases;
    }
  }

  /** A stale map whose resource cannot be locked: allocate throws and the reference stays. */
  method FailedLockKeepsReference() returns (r: Outcome, refs: nat)
    ensures r == Thrown && refs == 1
  {
    var client := new Client(true);
    var stale: MemoryMap := map[0 := RegionMemory([7], [0])];
    var p, f := Place(0, 1, 0), Refresh(false, Some(map[0 := RegionMemory([7, 8], [0, 64])]));
    var keys, bases;
    assert EscapesAt(true, stale, [p], [f], 0);
    r, keys, bases := client.Allocate([p], Some(stale), [f]);
    refs := client.refs;
  }
}
