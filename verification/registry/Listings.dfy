// The four ingress listings. Three of them filter the flat index; the one for a
// revision scans that revision's bucket instead.
module Listings {
  import opened Options
  import opened RegistryState
  import opened CacheRefinement

  datatype Listing = BadRequest | NotFound | Listed(records: set<Instance>)

  /** The records of the flat index under a project and, where given, a region, a service and a revision. */
  function Filter(s: State, project: string, region: Option<string>, service: Option<string>, revision: Option<string>): set<Instance> {
    set id | id in s.flat && Under(s.flat[id], project, region, service, revision) :: s.flat[id]
  }

  predicate Under(r: Instance, project: string, region: Option<string>, service: Option<string>, revision: Option<string>) {
    && r.project == project
    && (region.Some? ==> r.region == region.value)
    && (service.Some? ==> r.service == service.value)
    && (revision.Some? ==> r.revision == revision.value)
  }

  function ProjectListing(s: State, project: string): Listing {
    if project == "" then BadRequest
    else if project !in s.projects then NotFound
    else Listed(Filter(s, project, None, None, None))
  }

  function RegionListing(s: State, project: string, region: string): Listing {
    if project == "" || region == "" then BadRequest
    else if project !in s.projects || region !in s.regions then NotFound
    else Listed(Filter(s, project, Some(region), None, None))
  }

  function ServiceListing(s: State, project: string, region: string, service: string): Listing {
    if project == "" || region == "" || service == "" then BadRequest
    else if project !in s.projects || region !in s.regions || service !in s.services then NotFound
    else Listed(Filter(s, project, Some(region), Some(service), None))
  }

  function RevisionListing(s: State, project: string, region: string, service: string, revision: string): Listing {
    if project == "" || region == "" || service == "" || revision == "" then BadRequest
    else if project !in s.projects || region !in s.regions || service !in s.services || revision !in s.buckets then NotFound
    else Listed(set id | id in s.buckets[revision] :: s.buckets[revision][id])
  }

  /** A listing that filters shows exactly the records of the flat index that name what was asked for. */
  lemma FiltersExactly(s: State, project: string, region: string, service: string, r: Instance)
    requires WellFormed(s)
    ensures ProjectListing(s, project).Listed? ==>
      (r in ProjectListing(s, project).records <==> Lookup(s.flat, r.id) == Some(r) && r.project == project)
    ensures RegionListing(s, project, region).Listed? ==>
      (r in RegionListing(s, project, region).records
       <==> Lookup(s.flat, r.id) == Some(r) && r.project == project && r.region == region)
    ensures ServiceListing(s, project, region, service).Listed? ==>
      (r in ServiceListing(s, project, region, service).records
       <==> Lookup(s.flat, r.id) == Some(r) && r.project == project && r.region == region && r.service == service)
  {
  }

  /** The listing for a revision shows exactly the records of its bucket. */
  lemma ScansExactly(s: State, project: string, region: string, service: string, revision: string, r: Instance)
    requires WellFormed(s) && RevisionListing(s, project, region, service, revision).Listed?
    ensures r in RevisionListing(s, project, region, service, revision).records <==> InBucket(s, revision, r.id) == Some(r)
  {
  }

  /** In every run a listing is refused for an empty name, and not found if and only if one of the names it was asked for was never posted at its level. */
  lemma AnswersExactly(es: seq<Event>, timeout: int, project: string, region: string, service: string, revision: string)
    ensures var s, p, g, v := Run(EMPTY, es, timeout), PostedProject(es, project), PostedRegion(es, region), PostedService(es, service);
      && (ProjectListing(s, project) == BadRequest <==> project == "")
      && (ProjectListing(s, project) == NotFound <==> project != "" && !p)
      && (RegionListing(s, project, region) == BadRequest <==> project == "" || region == "")
      && (RegionListing(s, project, region) == NotFound <==> project != "" && region != "" && !(p && g))
      && (ServiceListing(s, project, region, service) == BadRequest <==> project == "" || region == "" || service == "")
      && (ServiceListing(s, project, region, service) == NotFound
          <==> project != "" && region != "" && service != "" && !(p && g && v))
      && (RevisionListing(s, project, region, service, revision) == BadRequest
          <==> project == "" || region == "" || service == "" || revision == "")
      && (RevisionListing(s, project, region, service, revision) == NotFound
          <==> project != "" && region != "" && service != "" && revision != "" && !(p && g && v && PostedRevision(es, revision)))
  {
    UpperKeysAreThePostedNames(es, timeout, project);
    UpperKeysAreThePostedNames(es, timeout, region);
    UpperKeysAreThePostedNames(es, timeout, service);
    UpperKeysAreThePostedNames(es, timeout, revision);
  }

  /** No write is outstanding and the flat index is the union of the buckets. */
  ghost predicate InStep(s: State) {
    s.pending == [] && IsUnionOfBuckets(s.flat, s)
  }

  /** Runs without early strikes or overtaking come to such a state whenever the queue runs dry. */
  lemma QuietRunsAreInStep(es: seq<Event>, timeout: int, home: string -> string)
    requires forall id :: OrderlyRun(EMPTY, es, timeout, home(id), id)
    requires NoEarlyStrikes(es, timeout)
    requires Run(EMPTY, es, timeout).pending == []
    ensures InStep(Run(EMPTY, es, timeout)) && WellFormed(Run(EMPTY, es, timeout)) && Covered(Run(EMPTY, es, timeout))
  {
    SettledIndexIsUnionOfBuckets(es, timeout, home);
    RunKeepsShape(EMPTY, es, timeout);
  }

  /** Every record in the bucket was registered under these three names. */
  ghost predicate Belongs(s: State, project: string, region: string, service: string, revision: string)
    requires revision in s.buckets
  {
    forall id | id in s.buckets[revision] ::
      var r := s.buckets[revision][id];
      r.project == project && r.region == region && r.service == service
  }

  lemma FlatIsInBuckets(s: State, id: string)
    requires InStep(s) && WellFormed(s) && id in s.flat
    ensures s.flat[id].revision in s.buckets && InBucket(s, s.flat[id].revision, id) == Some(s.flat[id])
  {
    var v :| InBucket(s, v, id) == Some(s.flat[id]);
  }

  /**
    The bucket scan equals the flat index filtered on all four names if and only if every instance of that revision
    was registered under the requested project, region and service. Without that, the shared upper maps let a
    path through that mixes names, and its listing shows instances that live elsewhere.
  */
  lemma RevisionListingIsExact(s: State, project: string, region: string, service: string, revision: string)
    requires InStep(s) && WellFormed(s)
    requires RevisionListing(s, project, region, service, revision).Listed?
    ensures RevisionListing(s, project, region, service, revision).records
            == Filter(s, project, Some(region), Some(service), Some(revision))
       <==> Belongs(s, project, region, service, revision)
  {
    var scan := RevisionListing(s, project, region, service, revision).records;
    var filtered := Filter(s, project, Some(region), Some(service), Some(revision));
    forall r | r in filtered ensures r in scan {
      FlatIsInBuckets(s, r.id);
    }
    forall id | id in s.buckets[revision] ensures Lookup(s.flat, id) == Some(s.buckets[revision][id]) {
      assert InBucket(s, revision, id).Some?;
    }
    if scan == filtered {
      forall id | id in s.buckets[revision] ensures s.buckets[revision][id] in filtered {
        assert s.buckets[revision][id] in scan;
      }
    } else {
      var r :| r in scan && r !in filtered;
    }
  }

  function RecordsOf(l: Listing): set<Instance> {
    if l.Listed? then l.records else {}
  }

  /** The records of `l` are those listed one level below under the names in `names`. */
  ghost predicate IsUnionOf(l: Listing, names: set<string>, below: string -> Listing) {
    && (forall r :: r in RecordsOf(l) <==> exists x :: x in names && r in RecordsOf(below(x)))
    && (forall a, b | a != b :: RecordsOf(below(a)) !! RecordsOf(below(b)))
  }

  /** If each listing below has just the records of `l` with its own name, their union is `l` exactly when every record of `l` has one of the names. */
  lemma UnionExactly(l: Listing, names: set<string>, below: string -> Listing, name: Instance -> string)
    requires forall x, r | r in RecordsOf(below(x)) :: name(r) == x
    requires forall x, r | x in names :: r in RecordsOf(below(x)) <==> r in RecordsOf(l) && name(r) == x && x != ""
    ensures IsUnionOf(l, names, below) <==> forall r | r in RecordsOf(l) :: name(r) != "" && name(r) in names
  {
    forall a, b, r | r in RecordsOf(below(a)) && r in RecordsOf(below(b)) ensures a == b {
      assert name(r) == a && name(r) == b;
    }
    if IsUnionOf(l, names, below) {
      forall r | r in RecordsOf(l) ensures name(r) != "" && name(r) in names {
        var x :| x in names && r in RecordsOf(below(x));
      }
    }
    if forall r | r in RecordsOf(l) :: name(r) != "" && name(r) in names {
      forall r | r in RecordsOf(l) ensures exists x :: x in names && r in RecordsOf(below(x)) {
        assert r in RecordsOf(below(name(r)));
      }
    }
  }

  lemma RegionRecords(s: State, project: string, region: string, r: Instance)
    requires ProjectListing(s, project).Listed?
    ensures r in RecordsOf(RegionListing(s, project, region))
       <==> r in ProjectListing(s, project).records && r.region == region && region != "" && region in s.regions
  {
  }

  lemma ServiceRecords(s: State, project: string, region: string, service: string, r: Instance)
    requires RegionListing(s, project, region).Listed?
    ensures r in RecordsOf(ServiceListing(s, project, region, service))
       <==> r in RegionListing(s, project, region).records && r.service == service && service != "" && service in s.services
  {
  }

  /** A project's listing is the disjoint union of the listings of its regions if and only if no listed record has the empty region, for which there is no listing. */
  lemma ProjectIsUnionOfRegionsExactly(s: State, project: string)
    requires Covered(s) && ProjectListing(s, project).Listed?
    ensures IsUnionOf(ProjectListing(s, project), s.regions, region => RegionListing(s, project, region))
       <==> forall r | r in ProjectListing(s, project).records :: r.region != ""
  {
    forall region, r
      ensures r in RecordsOf(RegionListing(s, project, region))
         <==> r in ProjectListing(s, project).records && r.region == region && region != "" && region in s.regions
    {
      RegionRecords(s, project, region, r);
    }
    var l, name := ProjectListing(s, project), (r: Instance) => r.region;
    UnionExactly(l, s.regions, region => RegionListing(s, project, region), name);
    assert forall r | r in l.records :: name(r) == r.region && r.region in s.regions;
  }

  /** A region's listing is the disjoint union of the listings of its services if and only if no listed record has the empty service. */
  lemma RegionIsUnionOfServicesExactly(s: State, project: string, region: string)
    requires Covered(s) && RegionListing(s, project, region).Listed?
    ensures IsUnionOf(RegionListing(s, project, region), s.services, service => ServiceListing(s, project, region, service))
       <==> forall r | r in RegionListing(s, project, region).records :: r.service != ""
  {
    forall service, r
      ensures r in RecordsOf(ServiceListing(s, project, region, service))
         <==> r in RegionListing(s, project, region).records && r.service == service && service != "" && service in s.services
    {
      ServiceRecords(s, project, region, service, r);
    }
    var l, name := RegionListing(s, project, region), (r: Instance) => r.service;
    UnionExactly(l, s.services, service => ServiceListing(s, project, region, service), name);
    assert forall r | r in l.records :: name(r) == r.service && r.service in s.services;
  }

  /** The revisions all of whose instances were registered under these three names. */
  ghost function RevisionsOf(s: State, project: string, region: string, service: string): set<string> {
    set v | v in s.buckets && Belongs(s, project, region, service, v)
  }

  lemma RevisionRecords(s: State, project: string, region: string, service: string, v: string, r: Instance)
    requires InStep(s) && WellFormed(s) && ServiceListing(s, project, region, service).Listed?
    ensures r in RecordsOf(RevisionListing(s, project, region, service, v)) ==> r.revision == v
    ensures v in RevisionsOf(s, project, region, service) ==>
      (r in RecordsOf(RevisionListing(s, project, region, service, v))
       <==> r in ServiceListing(s, project, region, service).records && r.revision == v && v != "")
  {
    if r in ServiceListing(s, project, region, service).records {
      FlatIsInBuckets(s, r.id);
    }
    if r in RecordsOf(RevisionListing(s, project, region, service, v)) {
      assert InBucket(s, v, r.id) == Some(r);
    }
  }

  /**
    A service's listing is the disjoint union of the listings of the revisions that belong to it if and only if each
    listed record's revision has a name and belongs to it.
  */
  lemma ServiceIsUnionOfRevisionsExactly(s: State, project: string, region: string, service: string)
    requires InStep(s) && WellFormed(s) && ServiceListing(s, project, region, service).Listed?
    ensures IsUnionOf(ServiceListing(s, project, region, service), RevisionsOf(s, project, region, service),
                      v => RevisionListing(s, project, region, service, v))
       <==> forall r | r in ServiceListing(s, project, region, service).records ::
              r.revision != "" && r.revision in RevisionsOf(s, project, region, service)
  {
    var l, names := ServiceListing(s, project, region, service), RevisionsOf(s, project, region, service);
    forall v, r
      ensures r in RecordsOf(RevisionListing(s, project, region, service, v)) ==> r.revision == v
      ensures v in names ==>
        (r in RecordsOf(RevisionListing(s, project, region, service, v)) <==> r in l.records && r.revision == v && v != "")
    {
      RevisionRecords(s, project, region, service, v, r);
    }
    var name := (r: Instance) => r.revision;
    UnionExactly(l, names, v => RevisionListing(s, project, region, service, v), name);
    assert forall r | r in l.records :: name(r) == r.revision;
  }

  // ----- revisions that keep to one service

  /** All accepted POSTs of a revision name the same project, region and service. */
  ghost predicate RevisionsKeepHome(es: seq<Event>) {
    forall i, j | 0 <= i < |es| && 0 <= j < |es| && Accepted(es[i]) && Accepted(es[j])
               && es[i].record.revision == es[j].record.revision ::
      var r, r' := es[i].record, es[j].record;
      r.project == r'.project && r.region == r'.region && r.service == r'.service
  }

  ghost predicate Posted(es: seq<Event>, r: Instance) {
    exists i :: 0 <= i < |es| && Accepted(es[i]) && es[i].record == r
  }

  /** Every record in a bucket was posted. */
  lemma {:induction false} RecordsWerePosted(es: seq<Event>, timeout: int, v: string, id: string)
    ensures var held := InBucket(Run(EMPTY, es, timeout), v, id); held.Some? ==> Posted(es, held.value)
  {
    if es != [] {
      var n := |es| - 1;
      RecordsWerePosted(es[..n], timeout, v, id);
      var s := Run(EMPTY, es[..n], timeout);
      var was, held := InBucket(s, v, id), InBucket(Step(s, es[n], timeout), v, id);
      assert held.Some? ==> held == was || (Accepted(es[n]) && held.value == es[n].record);
      assert forall i | 0 <= i < n :: es[..n][i] == es[i];
    }
  }

  /** Then a revision belongs to the service of any of its instances. */
  lemma RevisionsThatKeepHomeBelong(es: seq<Event>, timeout: int, project: string, region: string, service: string, r: Instance)
    requires RevisionsKeepHome(es)
    requires var s := Run(EMPTY, es, timeout);
      InStep(s) && WellFormed(s) && ServiceListing(s, project, region, service).Listed?
      && r in ServiceListing(s, project, region, service).records
    ensures r.revision in RevisionsOf(Run(EMPTY, es, timeout), project, region, service)
  {
    var s := Run(EMPTY, es, timeout);
    FlatIsInBuckets(s, r.id);
    RecordsWerePosted(es, timeout, r.revision, r.id);
    forall id | id in s.buckets[r.revision]
      ensures var x := s.buckets[r.revision][id]; x.project == project && x.region == region && x.service == service
    {
      RecordsWerePosted(es, timeout, r.revision, id);
    }
  }

  /** In such runs a service's listing is the disjoint union of its revisions' listings if and only if it lists no instance of the nameless revision. */
  lemma ServiceListingsOfRuns(es: seq<Event>, timeout: int, project: string, region: string, service: string)
    requires RevisionsKeepHome(es) && InStep(Run(EMPTY, es, timeout))
    requires ServiceListing(Run(EMPTY, es, timeout), project, region, service).Listed?
    ensures var s := Run(EMPTY, es, timeout);
      IsUnionOf(ServiceListing(s, project, region, service), RevisionsOf(s, project, region, service),
                v => RevisionListing(s, project, region, service, v))
      <==> forall r | r in ServiceListing(s, project, region, service).records :: r.revision != ""
  {
    var s := Run(EMPTY, es, timeout);
    RunKeepsShape(EMPTY, es, timeout);
    forall r | r in ServiceListing(s, project, region, service).records
      ensures r.revision in RevisionsOf(s, project, region, service)
    {
      RevisionsThatKeepHomeBelong(es, timeout, project, region, service, r);
    }
    ServiceIsUnionOfRevisionsExactly(s, project, region, service);
  }

  /** Two services that each have an instance: the first one's path with the second one's revision lists the second one's instance. */
  lemma MixedPathShowsForeignInstance(a: Instance, b: Instance, timeout: int)
    requires a.tunnel != "" && b.tunnel != "" && a.service != b.service && a.revision != b.revision
    requires a.project != "" && a.region != "" && a.service != "" && b.revision != ""
    ensures RevisionListing(Run(EMPTY, [Post(a), Post(b)], timeout), a.project, a.region, a.service, b.revision) == Listed({b})
  {
    assert [Post(a), Post(b)][..1] == [Post(a)];
    assert Run(EMPTY, [Post(a)], timeout) == Register(EMPTY, a);
    var s := Register(Register(EMPTY, a), b);
    assert [Post(a), Post(b)][1] == Post(b);
    assert Run(EMPTY, [Post(a), Post(b)], timeout) == s;
    assert s.buckets[b.revision] == map[b.id := b];
    var l := RevisionListing(s, a.project, a.region, a.service, b.revision);
    assert s.buckets[b.revision][b.id] in l.records;
    assert forall r | r in l.records :: r == b;
  }

  /** An instance registered under the empty region: its project lists it, and no region does. */
  lemma NamelessRegionHasNoListing(r: Instance, timeout: int)
    requires r.tunnel != "" && r.project != "" && r.region == ""
    ensures var s := Run(EMPTY, [Post(r), Land(0, r.lastPing)], timeout);
      && ProjectListing(s, r.project) == Listed({r}) && RegionListing(s, r.project, "") == BadRequest
      && !IsUnionOf(ProjectListing(s, r.project), s.regions, region => RegionListing(s, r.project, region))
  {
    var es := [Post(r), Land(0, r.lastPing)];
    assert es[..1] == [Post(r)] && [Post(r)][..0] == [];
    assert Run(EMPTY, es[..1], timeout) == Register(EMPTY, r);
    var s := Run(EMPTY, es, timeout);
    assert s == LandAt(Register(EMPTY, r), 0) && s.flat == map[r.id := r];
    RunKeepsShape(EMPTY, es, timeout);
    assert s.flat[r.id] == r && ProjectListing(s, r.project) == Listed({r});
    ProjectIsUnionOfRegionsExactly(s, r.project);
  }
}
