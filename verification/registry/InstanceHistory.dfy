// One instance through a run: what each step does to its bucket entry and its flat
// entry, and who can take it out.
module InstanceHistory {
  import opened Options
  import opened RegistryState

  /** A DELETE takes effect if and only if its client is not empty and its path leads to a record that this very client registered. */
  lemma RemoveExactly(s: State, p: Path, client: string, at: int)
    ensures Remove(s, p, client, at) != s <==> client != "" && Walk(s, p).Some? && Walk(s, p).value.tunnel == client
  {
    if Removes(s, p, client) {
      assert |Remove(s, p, client, at).pending| == |s.pending| + 1;
    }
  }

  /** A POST for this revision and instance that is accepted. */
  predicate Posts(e: Event, v: string, id: string) {
    e.Post? && e.record.tunnel != "" && e.record.revision == v && e.record.id == id
  }

  /** A DELETE of this revision and instance whose path leads to a record of its client. */
  predicate Deletes(s: State, e: Event, v: string, id: string) {
    && e.Delete? && e.path.revision == v && e.path.instance == id
    && e.client != "" && Walk(s, e.path).Some? && Walk(s, e.path).value.tunnel == e.client
  }

  /** A reaper pass that finds the instance idle by the flat record, which names this revision. */
  predicate FoundIdle(s: State, e: Event, timeout: int, v: string, id: string) {
    e.Reap? && id in s.flat && s.flat[id].revision == v && e.At() - s.flat[id].lastPing >= timeout
  }

  /** What a step does to one bucket entry, in full. */
  lemma BucketStep(s: State, e: Event, timeout: int, v: string, id: string)
    ensures InBucket(Step(s, e, timeout), v, id)
         == if Posts(e, v, id) then Some(e.record)
            else if Deletes(s, e, v, id) || FoundIdle(s, e, timeout, v, id) then None
            else InBucket(s, v, id)
  {
  }

  /** What a step does to one flat entry, in full. */
  lemma FlatStep(s: State, e: Event, timeout: int, id: string)
    ensures Lookup(Step(s, e, timeout).flat, id)
         == if e.Land? && e.index < |s.pending| && s.pending[e.index].Key() == id then
              (match s.pending[e.index] case SetWrite(r) => Some(r) case DelWrite(_, _) => None)
            else if e.Reap? && id in s.flat && e.At() - s.flat[id].lastPing >= timeout && InBucket(s, s.flat[id].revision, id).Some? then None
            else Lookup(s.flat, id)
  {
  }

  /** Which writes a step hands to goroutines, and which one has landed. */
  lemma PendingStep(s: State, e: Event, timeout: int)
    ensures Step(s, e, timeout).pending
         == match e
            case Post(r) => if r.tunnel != "" then s.pending + [SetWrite(r)] else s.pending
            case Delete(p, _, at) => if Deletes(s, e, p.revision, p.instance) then s.pending + [DelWrite(p.instance, at)] else s.pending
            case Land(i, _) => if i < |s.pending| then s.pending[..i] + s.pending[i + 1..] else s.pending
            case Reap(_) => s.pending
  {
  }

  // ----- who takes an instance out

  /** The record of the last accepted POST for this revision and instance. */
  function LastPost(es: seq<Event>, v: string, id: string): Option<Instance> {
    if es == [] then None
    else if Posts(es[|es| - 1], v, id) then Some(es[|es| - 1].record)
    else LastPost(es[..|es| - 1], v, id)
  }

  /** A DELETE by the client of the last accepted POST, under names that were all posted. */
  ghost predicate OwnerDeletes(es: seq<Event>, e: Event, v: string, id: string) {
    && e.Delete? && e.path.revision == v && e.path.instance == id
    && PostedProject(es, e.path.project) && PostedRegion(es, e.path.region) && PostedService(es, e.path.service)
    && LastPost(es, v, id).Some? && LastPost(es, v, id).value.tunnel == e.client
  }

  lemma {:induction false} LastPostIsAccepted(es: seq<Event>, v: string, id: string)
    ensures LastPost(es, v, id).Some? ==> LastPost(es, v, id).value.tunnel != ""
  {
    if es != [] {
      LastPostIsAccepted(es[..|es| - 1], v, id);
    }
  }

  /** Whatever the bucket has is the last accepted POST's record. */
  lemma {:induction false} BucketHoldsLastPost(es: seq<Event>, timeout: int, v: string, id: string)
    ensures var held := InBucket(Run(EMPTY, es, timeout), v, id); held.Some? ==> held == LastPost(es, v, id)
  {
    if es != [] {
      BucketHoldsLastPost(es[..|es| - 1], timeout, v, id);
      BucketStep(Run(EMPTY, es[..|es| - 1], timeout), es[|es| - 1], timeout, v, id);
    }
  }

  /**
    In every run an instance that is in its bucket leaves it if and only if a reaper pass finds it idle, or a DELETE
    under posted names comes from the client of its last accepted POST. Nobody else's DELETE takes it out, and its
    own client's always does.
  */
  lemma LeavesExactly(es: seq<Event>, e: Event, timeout: int, v: string, id: string)
    requires InBucket(Run(EMPTY, es, timeout), v, id).Some?
    ensures var s := Run(EMPTY, es, timeout);
      InBucket(Step(s, e, timeout), v, id).None? <==> FoundIdle(s, e, timeout, v, id) || OwnerDeletes(es, e, v, id)
  {
    var s := Run(EMPTY, es, timeout);
    BucketStep(s, e, timeout, v, id);
    BucketHoldsLastPost(es, timeout, v, id);
    LastPostIsAccepted(es, v, id);
    if e.Delete? {
      WalkIsExact(es, timeout, e.path);
    }
  }

  /** Posted, and neither deleted by its client nor found idle since. */
  ghost predicate Present(es: seq<Event>, timeout: int, v: string, id: string) {
    es != [] &&
      var init, e := es[..|es| - 1], es[|es| - 1];
      Posts(e, v, id)
      || (Present(init, timeout, v, id) && !OwnerDeletes(init, e, v, id) && !FoundIdle(Run(EMPTY, init, timeout), e, timeout, v, id))
  }

  /** So in every run the bucket has an instance exactly while it is present, and then with the record of its last POST. */
  lemma {:induction false} BucketIsExact(es: seq<Event>, timeout: int, v: string, id: string)
    ensures InBucket(Run(EMPTY, es, timeout), v, id) == if Present(es, timeout, v, id) then LastPost(es, v, id) else None
  {
    if es != [] {
      var init, e := es[..|es| - 1], es[|es| - 1];
      var s := Run(EMPTY, init, timeout);
      BucketIsExact(init, timeout, v, id);
      BucketStep(s, e, timeout, v, id);
      BucketHoldsLastPost(es, timeout, v, id);
      if InBucket(s, v, id).Some? {
        LeavesExactly(init, e, timeout, v, id);
      }
    }
  }
}
