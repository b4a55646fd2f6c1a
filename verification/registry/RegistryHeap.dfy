// The registry as it lies in memory: five package-level maps, of which the upper
// three hold, under every key, a reference to the one map of the next level.
module RegistryHeap {
  import opened Options
  import opened RegistryState
  import opened Listings

  /** One concurrent map per level; each Get, Set, GetAndDel or Del on `entries` is one atomic step. */
  class InstanceMap {
    var entries: map<string, Instance>

    constructor ()
      ensures entries == map[]
    {
      entries := map[];
    }
  }

  class RevisionMap {
    var entries: map<string, InstanceMap>

    constructor ()
      ensures entries == map[]
    {
      entries := map[];
    }
  }

  class ServiceMap {
    var entries: map<string, RevisionMap>

    constructor ()
      ensures entries == map[]
    {
      entries := map[];
    }
  }

  class RegionMap {
    var entries: map<string, ServiceMap>

    constructor ()
      ensures entries == map[]
    {
      entries := map[];
    }
  }

  class ProjectMap {
    var entries: map<string, RegionMap>

    constructor ()
      ensures entries == map[]
    {
      entries := map[];
    }
  }

  /** Unset is the answer of a handler that returns without setting a status. */
  datatype Status = Ok200 | Accepted202 | NoContent204 | BadRequest400 | NotFound404 | Unset

  /** A listing answers with its records, once each and in any order; an empty one is a 204. */
  ghost predicate Answers(l: Listing, status: Status, found: seq<Instance>) {
    match l
    case BadRequest => status == BadRequest400 && found == []
    case NotFound => status == NotFound404 && found == []
    case Listed(records) =>
      && status == (if records == {} then NoContent204 else Ok200)
      && (forall r :: r in found <==> r in records)
      && (forall i, j :: 0 <= i < j < |found| ==> found[i].id != found[j].id)
  }

  method SendIngressResponse(found: seq<Instance>) returns (status: Status)
    ensures status == if found == [] then NoContent204 else Ok200
  {
    if |found| == 0 {
      return NoContent204;
    }
    status := Ok200;
  }

  lemma SameEmptiness(found: seq<Instance>, records: set<Instance>)
    requires forall r :: r in found <==> r in records
    ensures found == [] <==> records == {}
  {
    if found != [] {
      assert found[0] in found;
    }
  }

  // ----- what each provider adds, level by level

  function PutBucket(s: State, r: Instance): State {
    var bucket := if r.revision in s.buckets then s.buckets[r.revision] else map[];
    s.(buckets := s.buckets[r.revision := bucket[r.id := r]])
  }

  function PutService(s: State, r: Instance): State {
    PutBucket(s, r).(services := s.services + {r.service})
  }

  function PutRegion(s: State, r: Instance): State {
    PutService(s, r).(regions := s.regions + {r.region})
  }

  function PutProject(s: State, r: Instance): State {
    PutRegion(s, r).(projects := s.projects + {r.project})
  }

  // ----- a reaper pass that has visited the instances in `seen`

  predicate Struck(s: State, now: int, timeout: int, seen: set<string>, id: string) {
    id in seen && Strikes(s, now, timeout, id)
  }

  function KeptInBucket(s: State, now: int, timeout: int, seen: set<string>, v: string): Bucket
    requires v in s.buckets
  {
    map id | id in s.buckets[v] && !(Struck(s, now, timeout, seen, id) && s.flat[id].revision == v) :: s.buckets[v][id]
  }

  function KeptInFlat(s: State, now: int, timeout: int, seen: set<string>): Bucket {
    map id | id in s.flat && !Struck(s, now, timeout, seen, id) :: s.flat[id]
  }

  function Reaped(s: State, now: int, timeout: int, seen: set<string>): State {
    s.(buckets := map v | v in s.buckets :: KeptInBucket(s, now, timeout, seen, v),
       flat := KeptInFlat(s, now, timeout, seen))
  }

  lemma ReapedNone(s: State, now: int, timeout: int)
    ensures Reaped(s, now, timeout, {}) == s
  {
    assert forall v | v in s.buckets :: KeptInBucket(s, now, timeout, {}, v) == s.buckets[v];
  }

  lemma ReapedEverything(s: State, now: int, timeout: int)
    ensures Reaped(s, now, timeout, s.flat.Keys) == ReapAll(s, now, timeout)
  {
    var u := ReapAll(s, now, timeout);
    assert forall v | v in s.buckets :: KeptInBucket(s, now, timeout, s.flat.Keys, v) == u.buckets[v];
  }

  lemma KeptOneMore(s: State, now: int, timeout: int, seen: set<string>, id: string, v: string)
    requires id in s.flat && id !in seen && v in s.buckets
    ensures KeptInBucket(s, now, timeout, seen + {id}, v)
         == if Strikes(s, now, timeout, id) && v == s.flat[id].revision
            then KeptInBucket(s, now, timeout, seen, v) - {id} else KeptInBucket(s, now, timeout, seen, v)
  {
  }

  ghost function Hits(s: State, now: int, timeout: int, seen: set<string>): set<string> {
    set id | id in seen && Strikes(s, now, timeout, id)
  }

  lemma HitsOneMore(s: State, now: int, timeout: int, seen: set<string>, id: string)
    requires id !in seen
    ensures |Hits(s, now, timeout, seen + {id})| == |Hits(s, now, timeout, seen)| + if Strikes(s, now, timeout, id) then 1 else 0
  {
    var a, b := Hits(s, now, timeout, seen), Hits(s, now, timeout, seen + {id});
    assert b == if Strikes(s, now, timeout, id) then a + {id} else a;
  }

  ghost predicate Partition(all: set<string>, todo: set<string>, seen: set<string>) {
    todo + seen == all && todo !! seen
  }

  lemma MoveOver(all: set<string>, todo: set<string>, seen: set<string>, key: string)
    requires Partition(all, todo, seen) && key in todo
    ensures Partition(all, todo - {key}, seen + {key}) && |todo - {key}| < |todo|
  {
  }

  /** What the visit to one entry does. */
  function Visited(t: State, now: int, timeout: int, id: string): State {
    if Strikes(t, now, timeout, id)
    then t.(buckets := t.buckets[t.flat[id].revision := t.buckets[t.flat[id].revision] - {id}], flat := t.flat - {id})
    else t
  }

  /** Visiting one more entry extends the pass, whatever the order of visits. */
  lemma ReapedOneMore(s: State, now: int, timeout: int, seen: set<string>, id: string)
    requires id in s.flat && id !in seen
    ensures var t := Reaped(s, now, timeout, seen);
      && id in t.flat
      && Strikes(t, now, timeout, id) == Strikes(s, now, timeout, id)
      && Reaped(s, now, timeout, seen + {id}) == Visited(t, now, timeout, id)
  {
    var t, u := Reaped(s, now, timeout, seen), Reaped(s, now, timeout, seen + {id});
    var v := s.flat[id].revision;
    assert t.flat[id] == s.flat[id] && InBucket(t, v, id) == InBucket(s, v, id);
    forall v | v in s.buckets ensures u.buckets[v] == Visited(t, now, timeout, id).buckets[v] {
      KeptOneMore(s, now, timeout, seen, id, v);
    }
    KeptOneMoreFlat(s, now, timeout, seen, id);
    assert u.buckets == Visited(t, now, timeout, id).buckets;
  }

  lemma KeptOneMoreFlat(s: State, now: int, timeout: int, seen: set<string>, id: string)
    requires id in s.flat && id !in seen
    ensures KeptInFlat(s, now, timeout, seen + {id})
         == if Strikes(s, now, timeout, id) then KeptInFlat(s, now, timeout, seen) - {id} else KeptInFlat(s, now, timeout, seen)
  {
  }

  class Registry {
    const flat: InstanceMap
    const revisions: RevisionMap
    const services: ServiceMap
    const regions: RegionMap
    const projects: ProjectMap
    /** Writes to `flat` handed to goroutines that have not run yet. */
    var pending: seq<Write>

    ghost function Repr(): set<object>
      reads this, revisions
    {
      {this, flat, revisions, services, regions, projects} + Buckets()
    }

    ghost function Buckets(): set<InstanceMap>
      reads revisions
    {
      set v | v in revisions.entries :: revisions.entries[v]
    }

    ghost function Snapshot(): State
      reads Repr()
    {
      State(projects.entries.Keys, regions.entries.Keys, services.entries.Keys,
            map v | v in revisions.entries :: revisions.entries[v].entries,
            flat.entries, pending)
    }

    /** Every key of an upper map leads to the one map of the next level. */
    ghost predicate Aliased()
      reads services, regions, projects
    {
      && (forall p | p in projects.entries :: projects.entries[p] == regions)
      && (forall r | r in regions.entries :: regions.entries[r] == services)
      && (forall s | s in services.entries :: services.entries[s] == revisions)
    }

    /** No bucket serves two revisions or doubles as the flat index. */
    ghost predicate OwnBuckets()
      reads revisions
    {
      && flat !in Buckets()
      && (forall v, v' | v in revisions.entries && v' in revisions.entries && revisions.entries[v] == revisions.entries[v'] :: v == v')
    }

    ghost predicate Valid()
      reads Repr()
    {
      Aliased() && OwnBuckets() && WellFormed(Snapshot())
    }

    /** Buckets keep their place and identity; a bucket that was not there is new. */
    twostate predicate BucketsStay()
      reads revisions
    {
      && (forall v | v in old(revisions.entries) :: v in revisions.entries && revisions.entries[v] == old(revisions.entries[v]))
      && (forall v | v in revisions.entries && v !in old(revisions.entries) :: fresh(revisions.entries[v]))
    }

    constructor ()
      ensures Valid() && fresh(Repr()) && Snapshot() == EMPTY
    {
      flat := new InstanceMap();
      revisions := new RevisionMap();
      services := new ServiceMap();
      regions := new RegionMap();
      projects := new ProjectMap();
      pending := [];
      new;
      assert Buckets() == {};
    }

    // ----- POST

    method BucketProvider(r: Instance) returns (b: InstanceMap)
      ensures fresh(b) && b.entries == map[r.id := r]
    {
      b := new InstanceMap();
      b.entries := b.entries[r.id := r];
    }

    method GetOrComputeBucket(m: RevisionMap, r: Instance) returns (b: InstanceMap, loaded: bool)
      requires Valid() && m == revisions
      modifies m
      ensures Valid() && BucketsStay()
      ensures loaded == (r.revision in old(m.entries))
      ensures r.revision in revisions.entries && b == revisions.entries[r.revision]
      ensures Snapshot() == if loaded then old(Snapshot()) else PutBucket(old(Snapshot()), r)
    {
      if r.revision in m.entries {
        return m.entries[r.revision], true;
      }
      b := BucketProvider(r);
      m.entries := m.entries[r.revision := b];
      loaded := false;
      assert Snapshot().buckets == PutBucket(old(Snapshot()), r).buckets;
    }

    /** Sets the record in the bucket a lookup has just found. */
    method SetInBucket(b: InstanceMap, r: Instance)
      requires Valid() && r.revision in revisions.entries && b == revisions.entries[r.revision]
      modifies b
      ensures Valid() && Snapshot() == PutBucket(old(Snapshot()), r)
    {
      b.entries := b.entries[r.id := r];
      assert Snapshot().buckets == PutBucket(old(Snapshot()), r).buckets;
    }

    // The providers and the handler walk the same chain of lookups from different levels down.

    method PlaceInRevisions(m: RevisionMap, r: Instance)
      requires Valid() && m == revisions
      modifies m, Buckets()
      ensures Valid() && BucketsStay()
      ensures Snapshot() == PutBucket(old(Snapshot()), r)
    {
      var instances, loaded := GetOrComputeBucket(m, r);
      if loaded {
        SetInBucket(instances, r);
      }
    }

    method RevisionProvider(r: Instance) returns (m: RevisionMap)
      requires Valid()
      modifies revisions, Buckets()
      ensures Valid() && BucketsStay() && m == revisions
      ensures Snapshot() == PutBucket(old(Snapshot()), r)
    {
      PlaceInRevisions(revisions, r);
      m := revisions;
    }

    method GetOrComputeRevisions(m: ServiceMap, r: Instance) returns (x: RevisionMap, loaded: bool)
      requires Valid() && m == services
      modifies m, revisions, Buckets()
      ensures Valid() && BucketsStay() && x == revisions
      ensures loaded == (r.service in old(m.entries))
      ensures Snapshot() == if loaded then old(Snapshot()) else PutService(old(Snapshot()), r)
    {
      if r.service in m.entries {
        return m.entries[r.service], true;
      }
      x := RevisionProvider(r);
      StoreRevisions(m, r.service, x);
      loaded := false;
    }

    method StoreRevisions(m: ServiceMap, key: string, x: RevisionMap)
      requires Valid() && m == services && x == revisions
      modifies m
      ensures Valid() && Snapshot() == old(Snapshot()).(services := old(Snapshot()).services + {key})
    {
      m.entries := m.entries[key := x];
    }

    method PlaceInServices(m: ServiceMap, r: Instance)
      requires Valid() && m == services
      modifies m, revisions, Buckets()
      ensures Valid() && BucketsStay()
      ensures Snapshot() == PutService(old(Snapshot()), r)
    {
      var found, loaded := GetOrComputeRevisions(m, r);
      if loaded {
        PlaceInRevisions(found, r);
      }
    }

    method ServiceProvider(r: Instance) returns (m: ServiceMap)
      requires Valid()
      modifies services, revisions, Buckets()
      ensures Valid() && BucketsStay() && m == services
      ensures Snapshot() == PutService(old(Snapshot()), r)
    {
      PlaceInServices(services, r);
      m := services;
    }

    method GetOrComputeServices(m: RegionMap, r: Instance) returns (x: ServiceMap, loaded: bool)
      requires Valid() && m == regions
      modifies m, services, revisions, Buckets()
      ensures Valid() && BucketsStay() && x == services
      ensures loaded == (r.region in old(m.entries))
      ensures Snapshot() == if loaded then old(Snapshot()) else PutRegion(old(Snapshot()), r)
    {
      if r.region in m.entries {
        return m.entries[r.region], true;
      }
      x := ServiceProvider(r);
      StoreServices(m, r.region, x);
      loaded := false;
    }

    method StoreServices(m: RegionMap, key: string, x: ServiceMap)
      requires Valid() && m == regions && x == services
      modifies m
      ensures Valid() && Snapshot() == old(Snapshot()).(regions := old(Snapshot()).regions + {key})
    {
      m.entries := m.entries[key := x];
    }

    method PlaceInRegions(m: RegionMap, r: Instance)
      requires Valid() && m == regions
      modifies m, services, revisions, Buckets()
      ensures Valid() && BucketsStay()
      ensures Snapshot() == PutRegion(old(Snapshot()), r)
    {
      var found, loaded := GetOrComputeServices(m, r);
      if loaded {
        PlaceInServices(found, r);
      }
    }

    method RegionProvider(r: Instance) returns (m: RegionMap)
      requires Valid()
      modifies regions, services, revisions, Buckets()
      ensures Valid() && BucketsStay() && m == regions
      ensures Snapshot() == PutRegion(old(Snapshot()), r)
    {
      PlaceInRegions(regions, r);
      m := regions;
    }

    method GetOrComputeRegions(m: ProjectMap, r: Instance) returns (x: RegionMap, loaded: bool)
      requires Valid() && m == projects
      modifies m, regions, services, revisions, Buckets()
      ensures Valid() && BucketsStay() && x == regions
      ensures loaded == (r.project in old(m.entries))
      ensures Snapshot() == if loaded then old(Snapshot()) else PutProject(old(Snapshot()), r)
    {
      if r.project in m.entries {
        return m.entries[r.project], true;
      }
      x := RegionProvider(r);
      StoreRegions(m, r.project, x);
      loaded := false;
    }

    method StoreRegions(m: ProjectMap, key: string, x: RegionMap)
      requires Valid() && m == projects && x == regions
      modifies m
      ensures Valid() && Snapshot() == old(Snapshot()).(projects := old(Snapshot()).projects + {key})
    {
      m.entries := m.entries[key := x];
    }

    method PlaceInProjects(m: ProjectMap, r: Instance)
      requires Valid() && m == projects
      modifies m, regions, services, revisions, Buckets()
      ensures Valid() && BucketsStay()
      ensures Snapshot() == PutProject(old(Snapshot()), r)
    {
      var found, loaded := GetOrComputeRegions(m, r);
      if loaded {
        PlaceInRegions(found, r);
      }
    }

    /**
      Whatever levels are there already, the request adds its four names, puts its record into the bucket of its
      revision and leaves the write to the flat index behind; no bucket moves.
    */
    method AddInstance(r: Instance) returns (status: Status)
      requires Valid()
      modifies this`pending, projects, regions, services, revisions, Buckets()
      ensures Valid() && BucketsStay()
      ensures Snapshot() == Register(old(Snapshot()), r)
      ensures status == if r.tunnel == "" then BadRequest400 else Accepted202
    {
      if r.tunnel == "" {
        return BadRequest400;
      }
      pending := pending + [SetWrite(r)];
      assert Snapshot() == old(Snapshot()).(pending := pending);
      PlaceInProjects(projects, r);
      status := Accepted202;
    }

    // ----- the walks

    /** The nested lookups that GET and DELETE make; the bucket they end in is the one the reaper goes to directly. */
    method FindBucket(p: Path) returns (b: InstanceMap?)
      requires Valid()
      ensures b != null <==> p.project in Snapshot().projects && p.region in Snapshot().regions
                             && p.service in Snapshot().services && p.revision in Snapshot().buckets
      ensures b != null ==> p.revision in revisions.entries && b == revisions.entries[p.revision]
    {
      if p.project in projects.entries {
        var foundRegions := projects.entries[p.project];
        if p.region in foundRegions.entries {
          var foundServices := foundRegions.entries[p.region];
          if p.service in foundServices.entries {
            var foundRevisions := foundServices.entries[p.service];
            if p.revision in foundRevisions.entries {
              return foundRevisions.entries[p.revision];
            }
          }
        }
      }
      b := null;
    }

    method RemoveInstance(p: Path, client: string, now: int) returns (status: Status)
      requires Valid()
      modifies this`pending, Buckets()
      ensures Valid() && revisions.entries == old(revisions.entries)
      ensures Snapshot() == Remove(old(Snapshot()), p, client, now)
      ensures status == if client == "" then BadRequest400
        else if Walk(old(Snapshot()), p).Some? && Walk(old(Snapshot()), p).value.tunnel == client then Accepted202
        else NotFound404
    {
      if client == "" {
        return BadRequest400;
      }
      var instances := FindOwned(p, client);
      if instances == null {
        return NotFound404;
      }
      assert instances in Buckets();
      TakeFromBucket(instances, p, client, now);
      status := Accepted202;
    }

    /** The bucket the walk ends in, if it holds the instance and this client registered it. */
    method FindOwned(p: Path, client: string) returns (b: InstanceMap?)
      requires Valid() && client != ""
      ensures b != null <==> Walk(Snapshot(), p).Some? && Walk(Snapshot(), p).value.tunnel == client
      ensures b != null ==> p.revision in revisions.entries && b == revisions.entries[p.revision]
    {
      b := FindBucket(p);
      if b == null || p.instance !in b.entries {
        return null;
      }
      var config := b.entries[p.instance];
      if client != config.tunnel || config.id !in b.entries {
        return null;
      }
    }

    /** GetAndDel on the bucket, and `go` Del on the flat index. */
    method TakeFromBucket(b: InstanceMap, p: Path, client: string, now: int)
      requires Valid() && Removes(Snapshot(), p, client)
      requires p.revision in revisions.entries && b == revisions.entries[p.revision]
      modifies this`pending, b
      ensures revisions.entries == old(revisions.entries)
      ensures Valid() && Snapshot() == Remove(old(Snapshot()), p, client, now)
    {
      var cfg := b.entries[p.instance];
      b.entries := b.entries - {cfg.id};
      pending := pending + [DelWrite(cfg.id, now)];
      assert Snapshot().buckets == Remove(old(Snapshot()), p, client, now).buckets;
    }

    /** getInstanceByID, which asks the flat index only. */
    method GetInstanceByID(instance: string) returns (status: Status, found: Option<Instance>)
      ensures found == if instance == "" then None else Lookup(flat.entries, instance)
      ensures status == if instance == "" then BadRequest400 else if instance in flat.entries then Ok200 else NotFound404
    {
      if instance == "" {
        return BadRequest400, None;
      }
      if instance in flat.entries {
        return Ok200, Some(flat.entries[instance]);
      }
      return NotFound404, None;
    }

    /** The walk decides whether there is an answer, the flat index what it is. */
    method GetInstance(p: Path) returns (status: Status, found: Option<Instance>)
      requires Valid()
      ensures found == if Walk(Snapshot(), p).Some? && p.instance != "" then Lookup(Snapshot().flat, p.instance) else None
      ensures status ==
        if p.instance == "" then (if Walk(Snapshot(), p).Some? then BadRequest400 else Unset)
        else if found.Some? then Ok200 else NotFound404
    {
      var instances := FindBucket(p);
      if instances != null && p.instance in instances.entries {
        status, found := GetInstanceByID(p.instance);
        return;
      }
      status, found := if p.instance != "" then NotFound404 else Unset, None;
    }

    /** The goroutine behind the `i`th outstanding write runs. */
    method LandPending(i: nat)
      requires Valid() && i < |pending|
      modifies this`pending, flat
      ensures Valid() && Snapshot() == LandAt(old(Snapshot()), i)
    {
      match pending[i] {
        case SetWrite(r) => flat.entries := flat.entries[r.id := r];
        case DelWrite(id, _) => flat.entries := flat.entries - {id};
      }
      pending := pending[..i] + pending[i + 1..];
    }

    /** One tick: the pass visits the flat entries in no particular order and deletes as it goes. */
    method ReapIdle(now: int, timeout: int) returns (reaped: nat)
      requires Valid()
      modifies flat, Buckets()
      ensures Valid() && revisions.entries == old(revisions.entries)
      ensures Snapshot() == ReapAll(old(Snapshot()), now, timeout)
      ensures reaped == |Hits(old(Snapshot()), now, timeout, old(flat.entries.Keys))|
    {
      ghost var s, seen: set<string> := Snapshot(), {};
      var todo := flat.entries.Keys;
      reaped := 0;
      ReapedNone(s, now, timeout);
      while todo != {}
        invariant Valid() && revisions.entries == old(revisions.entries)
        invariant Partition(s.flat.Keys, todo, seen)
        invariant Snapshot() == Reaped(s, now, timeout, seen)
        invariant reaped == |Hits(s, now, timeout, seen)|
        decreases |todo|
      {
        var key :| key in todo;
        var hit := VisitNext(s, seen, key, now, timeout);
        if hit {
          reaped := reaped + 1;
        }
        MoveOver(s.flat.Keys, todo, seen, key);
        todo, seen := todo - {key}, seen + {key};
      }
      ReapedEverything(s, now, timeout);
    }

    /** One more visit of a pass that set out from `s` and has been to `seen`. */
    method VisitNext(ghost s: State, ghost seen: set<string>, key: string, now: int, timeout: int) returns (hit: bool)
      requires Valid() && key in s.flat.Keys && key !in seen && Snapshot() == Reaped(s, now, timeout, seen)
      modifies flat, Buckets()
      ensures Valid() && revisions.entries == old(revisions.entries)
      ensures Snapshot() == Reaped(s, now, timeout, seen + {key})
      ensures |Hits(s, now, timeout, seen + {key})| == |Hits(s, now, timeout, seen)| + if hit then 1 else 0
    {
      HitsOneMore(s, now, timeout, seen, key);
      ReapedOneMore(s, now, timeout, seen, key);
      hit := VisitIdle(key, now, timeout);
    }

    /** The visit to one entry of the flat index. */
    method VisitIdle(key: string, now: int, timeout: int) returns (hit: bool)
      requires Valid() && key in flat.entries
      modifies flat, Buckets()
      ensures Valid() && BucketsStay()
      ensures hit == Strikes(old(Snapshot()), now, timeout, key)
      ensures Snapshot() == Visited(old(Snapshot()), now, timeout, key)
      ensures revisions.entries == old(revisions.entries)
    {
      hit := false;
      var config := flat.entries[key];
      if now - config.lastPing >= timeout {
        if config.revision in revisions.entries {
          var instances := revisions.entries[config.revision];
          if config.id in instances.entries {
            var cfg := instances.entries[config.id];
            instances.entries := instances.entries - {config.id};
            flat.entries := flat.entries - {cfg.id};
            hit := true;
            ghost var t := old(Snapshot());
            assert Snapshot().buckets == t.buckets[config.revision := t.buckets[config.revision] - {key}];
          }
        }
      }
    }

    // ----- the listings

    /** Appends the matching records of the flat index, which it visits in no particular order. */
    method CollectFlat(project: string, region: Option<string>, service: Option<string>) returns (found: seq<Instance>)
      requires Valid()
      ensures forall r :: r in found <==> r in Filter(Snapshot(), project, region, service, None)
      ensures found == [] <==> Filter(Snapshot(), project, region, service, None) == {}
      ensures forall i, j :: 0 <= i < j < |found| ==> found[i].id != found[j].id
    {
      found := [];
      var todo := flat.entries.Keys;
      while todo != {}
        invariant todo <= flat.entries.Keys
        invariant forall r :: r in found <==> r.id in flat.entries && r.id !in todo && flat.entries[r.id] == r && Under(r, project, region, service, None)
        invariant forall i, j :: 0 <= i < j < |found| ==> found[i].id != found[j].id
        decreases |todo|
      {
        var key :| key in todo;
        todo := todo - {key};
        var record := flat.entries[key];
        if record.project == project && (region.None? || record.region == region.value) && (service.None? || record.service == service.value) {
          assert forall i | 0 <= i < |found| :: found[i] in found;
          found := found + [record];
        }
      }
      SameEmptiness(found, Filter(Snapshot(), project, region, service, None));
    }

    /** Appends every record of a bucket. */
    method CollectBucket(b: InstanceMap) returns (found: seq<Instance>)
      requires forall id | id in b.entries :: b.entries[id].id == id
      ensures forall r :: r in found <==> r in set id | id in b.entries :: b.entries[id]
      ensures found == [] <==> (set id | id in b.entries :: b.entries[id]) == {}
      ensures forall i, j :: 0 <= i < j < |found| ==> found[i].id != found[j].id
    {
      found := [];
      var todo := b.entries.Keys;
      while todo != {}
        invariant todo <= b.entries.Keys
        invariant forall r :: r in found <==> r.id in b.entries && r.id !in todo && b.entries[r.id] == r
        invariant forall i, j :: 0 <= i < j < |found| ==> found[i].id != found[j].id
        decreases |todo|
      {
        var key :| key in todo;
        todo := todo - {key};
        assert forall i | 0 <= i < |found| :: found[i] in found;
        found := found + [b.entries[key]];
      }
      SameEmptiness(found, set id | id in b.entries :: b.entries[id]);
    }

    method GetProjectIngress(project: string) returns (status: Status, found: seq<Instance>)
      requires Valid()
      ensures Answers(ProjectListing(Snapshot(), project), status, found)
    {
      if project == "" {
        return BadRequest400, [];
      }
      if project !in projects.entries {
        return NotFound404, [];
      }
      found := CollectFlat(project, None, None);
      status := SendIngressResponse(found);
    }

    method GetRegionIngress(project: string, region: string) returns (status: Status, found: seq<Instance>)
      requires Valid()
      ensures Answers(RegionListing(Snapshot(), project, region), status, found)
    {
      if project == "" || region == "" {
        return BadRequest400, [];
      }
      if project in projects.entries {
        var foundRegions := projects.entries[project];
        if region in foundRegions.entries {
          found := CollectFlat(project, Some(region), None);
          status := SendIngressResponse(found);
          return;
        }
      }
      return NotFound404, [];
    }

    method GetServiceIngress(project: string, region: string, service: string) returns (status: Status, found: seq<Instance>)
      requires Valid()
      ensures Answers(ServiceListing(Snapshot(), project, region, service), status, found)
    {
      if project == "" || region == "" || service == "" {
        return BadRequest400, [];
      }
      if project in projects.entries {
        var foundRegions := projects.entries[project];
        if region in foundRegions.entries {
          var foundServices := foundRegions.entries[region];
          if service in foundServices.entries {
            found := CollectFlat(project, Some(region), Some(service));
            status := SendIngressResponse(found);
            return;
          }
        }
      }
      return NotFound404, [];
    }

    method GetRevisionIngress(project: string, region: string, service: string, revision: string)
      returns (status: Status, found: seq<Instance>)
      requires Valid()
      ensures Answers(RevisionListing(Snapshot(), project, region, service, revision), status, found)
    {
      if project == "" || region == "" || service == "" || revision == "" {
        return BadRequest400, [];
      }
      var instances := FindBucket(Path(project, region, service, revision, ""));
      if instances != null {
        found := CollectBucket(instances);
        status := SendIngressResponse(found);
        return;
      }
      return NotFound404, [];
    }
  }
}
