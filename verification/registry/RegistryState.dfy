// The instance registry of proxy/main.go as a state machine over values.
//
// Every handler is one step. The detached `go` writes to the flat index are
// queued by the handler that issues them and land in a step of their own.
module RegistryState {
  import opened Options

  datatype Instance = Instance(
    project: string, region: string, service: string, revision: string,
    id: string, tunnel: string, lastPing: int)

  type Bucket = map<string, Instance>

  /** A write to the flat index that a handler has handed to a goroutine. */
  datatype Write =
    | SetWrite(record: Instance)
    | DelWrite(target: string, at: int)
  {
    function Key(): string {
      match this
      case SetWrite(r) => r.id
      case DelWrite(id, _) => id
    }

    /** What the flat index holds at Key() once the write has landed. */
    function Effect(): Option<Instance> {
      match this
      case SetWrite(r) => Some(r)
      case DelWrite(_, _) => None
    }

    function Issued(): int {
      match this
      case SetWrite(r) => r.lastPing
      case DelWrite(_, at) => at
    }
  }

  /** The keys of the three upper maps, the buckets, the flat index, and the writes still outstanding in issue order. */
  datatype State = State(
    projects: set<string>, regions: set<string>, services: set<string>,
    buckets: map<string, Bucket>, flat: Bucket, pending: seq<Write>)

  const EMPTY: State := State({}, {}, {}, map[], map[], [])

  /** The five path parameters of a request. */
  datatype Path = Path(project: string, region: string, service: string, revision: string, instance: string)

  datatype Event =
    | Post(record: Instance)
    | Delete(path: Path, client: string, at: int)
    | Land(index: nat, at: int)
    | Reap(at: int)
  {
    function At(): int {
      match this
      case Post(r) => r.lastPing
      case Delete(_, _, at) => at
      case Land(_, at) => at
      case Reap(at) => at
    }
  }

  // ----- the steps

  function LandWrite(flat: Bucket, w: Write): Bucket {
    match w
    case SetWrite(r) => flat[r.id := r]
    case DelWrite(id, _) => flat - {id}
  }

  function InBucket(s: State, revision: string, id: string): Option<Instance> {
    if revision in s.buckets then Lookup(s.buckets[revision], id) else None
  }

  /** POST: a request without a client ID is refused and changes nothing. */
  function Register(s: State, r: Instance): State {
    if r.tunnel == "" then s
    else
      var bucket := if r.revision in s.buckets then s.buckets[r.revision] else map[];
      State(s.projects + {r.project}, s.regions + {r.region}, s.services + {r.service},
            s.buckets[r.revision := bucket[r.id := r]], s.flat, s.pending + [SetWrite(r)])
  }

  /** The five-level walk that GET and DELETE share. */
  function Walk(s: State, p: Path): Option<Instance> {
    if p.project in s.projects && p.region in s.regions && p.service in s.services
    then InBucket(s, p.revision, p.instance)
    else None
  }

  /** DELETE succeeds only for the client that registered the instance. */
  predicate Removes(s: State, p: Path, client: string) {
    client != "" && Walk(s, p).Some? && Walk(s, p).value.tunnel == client
  }

  function Remove(s: State, p: Path, client: string, at: int): State {
    if Removes(s, p, client)
    then s.(buckets := s.buckets[p.revision := s.buckets[p.revision] - {p.instance}],
            pending := s.pending + [DelWrite(p.instance, at)])
    else s
  }

  function LandAt(s: State, i: nat): State {
    if i < |s.pending|
    then s.(flat := LandWrite(s.flat, s.pending[i]), pending := s.pending[..i] + s.pending[i + 1..])
    else s
  }

  /** The reaper takes out an instance that is idle by the flat index and present in the bucket the flat record names. */
  predicate Strikes(s: State, now: int, timeout: int, id: string) {
    && id in s.flat
    && now - s.flat[id].lastPing >= timeout
    && InBucket(s, s.flat[id].revision, id).Some?
  }

  /** One reaper pass. */
  function ReapAll(s: State, now: int, timeout: int): State {
    s.(buckets := map v | v in s.buckets ::
         map id | id in s.buckets[v] && !(Strikes(s, now, timeout, id) && s.flat[id].revision == v) :: s.buckets[v][id],
       flat := map id | id in s.flat && !Strikes(s, now, timeout, id) :: s.flat[id])
  }

  function Step(s: State, e: Event, timeout: int): State {
    match e
    case Post(r) => Register(s, r)
    case Delete(p, client, at) => Remove(s, p, client, at)
    case Land(i, _) => LandAt(s, i)
    case Reap(now) => ReapAll(s, now, timeout)
  }

  function Run(s: State, es: seq<Event>, timeout: int): State {
    if es == [] then s else Step(Run(s, es[..|es| - 1], timeout), es[|es| - 1], timeout)
  }

  // ----- facts every reachable state has

  /** Records sit under their own ID, and in the bucket of their own revision. */
  ghost predicate WellFormed(s: State) {
    && (forall v, id | v in s.buckets && id in s.buckets[v] :: s.buckets[v][id].id == id && s.buckets[v][id].revision == v)
    && (forall id | id in s.flat :: s.flat[id].id == id)
  }

  /** No record mentions a project, region or service that the upper maps do not hold. */
  ghost predicate Covered(s: State) {
    && (forall v, id | v in s.buckets && id in s.buckets[v] ::
          var r := s.buckets[v][id];
          r.project in s.projects && r.region in s.regions && r.service in s.services)
    && (forall id | id in s.flat ::
          var r := s.flat[id];
          r.project in s.projects && r.region in s.regions && r.service in s.services && r.revision in s.buckets)
    && (forall i | 0 <= i < |s.pending| && s.pending[i].SetWrite? ::
          var r := s.pending[i].record;
          r.project in s.projects && r.region in s.regions && r.service in s.services && r.revision in s.buckets)
  }

  lemma StepKeepsShape(s: State, e: Event, timeout: int)
    requires WellFormed(s) && Covered(s)
    ensures WellFormed(Step(s, e, timeout)) && Covered(Step(s, e, timeout))
  {
    match e {
      case Post(r) => RegisterKeepsShape(s, r);
      case Delete(p, client, at) => RemoveKeepsShape(s, p, client, at);
      case Land(i, _) => LandKeepsShape(s, i);
      case Reap(_) =>
    }
  }

  lemma RegisterKeepsShape(s: State, r: Instance)
    requires WellFormed(s) && Covered(s)
    ensures WellFormed(Register(s, r)) && Covered(Register(s, r))
  {
  }

  lemma RemoveKeepsShape(s: State, p: Path, client: string, at: int)
    requires WellFormed(s) && Covered(s)
    ensures WellFormed(Remove(s, p, client, at)) && Covered(Remove(s, p, client, at))
  {
  }

  lemma LandKeepsShape(s: State, i: nat)
    requires WellFormed(s) && Covered(s)
    ensures WellFormed(LandAt(s, i)) && Covered(LandAt(s, i))
  {
  }

  lemma {:induction false} RunKeepsShape(s: State, es: seq<Event>, timeout: int)
    requires WellFormed(s) && Covered(s)
    ensures WellFormed(Run(s, es, timeout)) && Covered(Run(s, es, timeout))
  {
    if es != [] {
      var n := |es| - 1;
      RunKeepsShape(s, es[..n], timeout);
      StepKeepsShape(Run(s, es[..n], timeout), es[n], timeout);
    }
  }

  // ----- exact reachability

  predicate Accepted(e: Event) {
    e.Post? && e.record.tunnel != ""
  }

  ghost predicate PostedProject(es: seq<Event>, x: string) {
    exists i :: 0 <= i < |es| && Accepted(es[i]) && es[i].record.project == x
  }

  ghost predicate PostedRegion(es: seq<Event>, x: string) {
    exists i :: 0 <= i < |es| && Accepted(es[i]) && es[i].record.region == x
  }

  ghost predicate PostedService(es: seq<Event>, x: string) {
    exists i :: 0 <= i < |es| && Accepted(es[i]) && es[i].record.service == x
  }

  ghost predicate PostedRevision(es: seq<Event>, x: string) {
    exists i :: 0 <= i < |es| && Accepted(es[i]) && es[i].record.revision == x
  }

  lemma {:induction false} RunConcat(s: State, es: seq<Event>, fs: seq<Event>, timeout: int)
    ensures Run(s, es + fs, timeout) == Run(Run(s, es, timeout), fs, timeout)
  {
    if fs == [] {
      assert es + fs == es;
    } else {
      var n := |fs| - 1;
      assert (es + fs)[..|es + fs| - 1] == es + fs[..n] && (es + fs)[|es + fs| - 1] == fs[n];
      RunConcat(s, es, fs[..n], timeout);
    }
  }

  lemma StepAddsKeys(s: State, e: Event, timeout: int, x: string)
    ensures var t := Step(s, e, timeout);
      && (x in t.projects <==> x in s.projects || (Accepted(e) && e.record.project == x))
      && (x in t.regions <==> x in s.regions || (Accepted(e) && e.record.region == x))
      && (x in t.services <==> x in s.services || (Accepted(e) && e.record.service == x))
      && (x in t.buckets <==> x in s.buckets || (Accepted(e) && e.record.revision == x))
  {
  }

  lemma PostedSnoc(es: seq<Event>, e: Event, x: string)
    ensures PostedProject(es + [e], x) <==> PostedProject(es, x) || (Accepted(e) && e.record.project == x)
    ensures PostedRegion(es + [e], x) <==> PostedRegion(es, x) || (Accepted(e) && e.record.region == x)
    ensures PostedService(es + [e], x) <==> PostedService(es, x) || (Accepted(e) && e.record.service == x)
    ensures PostedRevision(es + [e], x) <==> PostedRevision(es, x) || (Accepted(e) && e.record.revision == x)
  {
    assert (es + [e])[|es|] == e && forall i | 0 <= i < |es| :: (es + [e])[i] == es[i];
  }

  /** The upper key sets are exactly the names ever posted at that level, each level on its own. */
  lemma {:induction false} UpperKeysAreThePostedNames(es: seq<Event>, timeout: int, x: string)
    ensures x in Run(EMPTY, es, timeout).projects <==> PostedProject(es, x)
    ensures x in Run(EMPTY, es, timeout).regions <==> PostedRegion(es, x)
    ensures x in Run(EMPTY, es, timeout).services <==> PostedService(es, x)
    ensures x in Run(EMPTY, es, timeout).buckets <==> PostedRevision(es, x)
  {
    if es != [] {
      var n := |es| - 1;
      assert es[..n] + [es[n]] == es;
      UpperKeysAreThePostedNames(es[..n], timeout, x);
      PostedSnoc(es[..n], es[n], x);
      StepAddsKeys(Run(EMPTY, es[..n], timeout), es[n], timeout, x);
    }
  }

  /**
    In every reachable state the walk of GET and DELETE finds an instance exactly when its project, its region and
    its service have each been posted at some time, by whatever requests, and the bucket of its revision holds it.
  */
  lemma WalkIsExact(es: seq<Event>, timeout: int, p: Path)
    ensures var s := Run(EMPTY, es, timeout);
      Walk(s, p) == if PostedProject(es, p.project) && PostedRegion(es, p.region) && PostedService(es, p.service)
                    then InBucket(s, p.revision, p.instance) else None
  {
    UpperKeysAreThePostedNames(es, timeout, p.project);
    UpperKeysAreThePostedNames(es, timeout, p.region);
    UpperKeysAreThePostedNames(es, timeout, p.service);
  }

  /**
    After an accepted POST the walk under its own names ends at the new record, and every walk that led somewhere
    before still leads to the same record, except those to the re-registered instance of that revision.
  */
  lemma RegistrationKeepsWalks(s: State, r: Instance, p: Path)
    requires r.tunnel != ""
    ensures Walk(Register(s, r), Path(r.project, r.region, r.service, r.revision, r.id)) == Some(r)
    ensures Walk(s, p).Some? ==>
      Walk(Register(s, r), p) == if p.revision == r.revision && p.instance == r.id then Some(r) else Walk(s, p)
  {
  }

  /** A DELETE undoes the POST for the buckets: the walk to the instance is empty, and every bucket entry is as before the POST. The names it added to the upper maps stay. */
  lemma DeleteUndoesPost(s: State, r: Instance, at: int, p: Path)
    requires r.tunnel != "" && InBucket(s, r.revision, r.id).None?
    ensures var own := Path(r.project, r.region, r.service, r.revision, r.id);
      var t := Remove(Register(s, r), own, r.tunnel, at);
      && Removes(Register(s, r), own, r.tunnel)
      && Walk(t, own) == None
      && InBucket(t, p.revision, p.instance) == InBucket(s, p.revision, p.instance)
  {
  }

  /** No run takes a name out of an upper map or drops a bucket. */
  lemma {:induction false} UpperKeysOnlyGrow(s: State, es: seq<Event>, timeout: int)
    ensures var t := Run(s, es, timeout);
      s.projects <= t.projects && s.regions <= t.regions && s.services <= t.services && s.buckets.Keys <= t.buckets.Keys
  {
    if es != [] {
      UpperKeysOnlyGrow(s, es[..|es| - 1], timeout);
    }
  }
}
