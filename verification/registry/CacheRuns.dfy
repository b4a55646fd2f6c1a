// The cache over whole runs, in whatever order the outstanding writes land.
module CacheRuns {
  import opened Options
  import opened RegistryState
  import opened CacheRefinement

  /** A write for `id` lands past an older one that says something else. */
  predicate LandsTooEarly(s: State, e: Event, id: string) {
    e.Land? && e.index < |s.pending| && s.pending[e.index].Key() == id && Overtakes(s.pending, e.index)
  }

  /** What can set the flat index and the bucket at odds over `id`. */
  predicate Harms(s: State, e: Event, timeout: int, id: string) {
    StrikesTooEarly(s, e, timeout, id) || LandsTooEarly(s, e, id)
  }

  /** POSTs for `id` name its revision. */
  predicate NamesRevision(e: Event, revision: string, id: string) {
    Accepted(e) && e.record.id == id ==> e.record.revision == revision
  }

  ghost predicate Right(s: State, revision: string, id: string) {
    WellFormed(s) && Covered(s) && HomedAt(s, revision, id)
  }

  lemma StepKeepsRight(s: State, e: Event, timeout: int, revision: string, id: string)
    requires Right(s, revision, id) && NamesRevision(e, revision, id)
    ensures Right(Step(s, e, timeout), revision, id)
  {
    StepKeepsShape(s, e, timeout);
  }

  lemma {:induction false} RunKeepsRight(s: State, es: seq<Event>, timeout: int, revision: string, id: string)
    requires Right(s, revision, id) && forall e | e in es :: NamesRevision(e, revision, id)
    ensures Right(Run(s, es, timeout), revision, id)
  {
    if es != [] {
      RunKeepsRight(s, es[..|es| - 1], timeout, revision, id);
      StepKeepsRight(Run(s, es[..|es| - 1], timeout), es[|es| - 1], timeout, revision, id);
    }
  }

  /** Out of a state that agrees on an instance, a step keeps the agreement if and only if it does not harm it. */
  lemma StepAgreesExactly(s: State, e: Event, timeout: int, revision: string, id: string)
    requires Right(s, revision, id) && NamesRevision(e, revision, id) && AgreesAt(s, revision, id)
    ensures AgreesAt(Step(s, e, timeout), revision, id) <==> !Harms(s, e, timeout, id)
  {
    match e {
      case Post(r) =>
        if Accepted(e) && r.id == id { PostAgrees(s, r); } else { PostLeavesOthers(s, r, revision, id); }
      case Delete(p, client, at) => DeleteKeepsAgreement(s, p, client, at, revision, id);
      case Land(i, _) => if i < |s.pending| { LandingAt(s, i, id); }
      case Reap(now) => ReapAgreesExactly(s, now, timeout, revision, id);
    }
  }

  /** Settled index and bucket agree on `id` at the start and after every step. */
  predicate AgreesThroughout(s: State, es: seq<Event>, timeout: int, revision: string, id: string) {
    (es != [] ==> AgreesThroughout(s, es[..|es| - 1], timeout, revision, id)) && AgreesAt(Run(s, es, timeout), revision, id)
  }

  /** No step of the run harms `id`. */
  predicate Unharmed(s: State, es: seq<Event>, timeout: int, id: string) {
    es != [] ==>
      var init := es[..|es| - 1];
      Unharmed(s, init, timeout, id) && !Harms(Run(s, init, timeout), es[|es| - 1], timeout, id)
  }

  lemma AgreesAtTheEnd(s: State, es: seq<Event>, timeout: int, revision: string, id: string)
    requires AgreesThroughout(s, es, timeout, revision, id)
    ensures AgreesAt(Run(s, es, timeout), revision, id)
  {
  }

  /**
    Exactly when the cache stays right about one instance that keeps to one revision, whatever the landing order and
    from any state on that agrees, such as one it has just been posted in: settled index and bucket agree on it after
    every step if and only if no step strikes it with a write outstanding and no write for it overtakes.
  */
  lemma {:induction false} AgreementIsExact(s: State, es: seq<Event>, timeout: int, revision: string, id: string)
    requires Right(s, revision, id) && AgreesAt(s, revision, id)
    requires forall e | e in es :: NamesRevision(e, revision, id)
    ensures AgreesThroughout(s, es, timeout, revision, id) <==> Unharmed(s, es, timeout, id)
  {
    if es != [] {
      var init, e := es[..|es| - 1], es[|es| - 1];
      AgreementIsExact(s, init, timeout, revision, id);
      RunKeepsRight(s, init, timeout, revision, id);
      if AgreesThroughout(s, init, timeout, revision, id) {
        AgreesAtTheEnd(s, init, timeout, revision, id);
        StepAgreesExactly(Run(s, init, timeout), e, timeout, revision, id);
      }
    }
  }

  /** The settled index is the union of the buckets at the start and after every step. */
  ghost predicate UnionThroughout(es: seq<Event>, timeout: int) {
    (es != [] ==> UnionThroughout(es[..|es| - 1], timeout))
    && IsUnionOfBuckets(Settled(Run(EMPTY, es, timeout)), Run(EMPTY, es, timeout))
  }

  lemma UnionIsAgreement(s: State, revision: string, id: string)
    requires HomedAt(s, revision, id) && IsUnionOfBuckets(Settled(s), s)
    ensures AgreesAt(s, revision, id)
  {
    if id in Settled(s) {
      var v :| InBucket(s, v, id) == Some(Settled(s)[id]);
      assert v == revision;
    }
  }

  /** Where instances keep to their revisions, being the union is agreeing on every instance. */
  lemma UnionAtExactly(s: State, home: string -> string)
    requires forall id :: HomedAt(s, home(id), id)
    ensures IsUnionOfBuckets(Settled(s), s) <==> forall id :: AgreesAt(s, home(id), id)
  {
    if IsUnionOfBuckets(Settled(s), s) {
      forall id ensures AgreesAt(s, home(id), id) {
        UnionIsAgreement(s, home(id), id);
      }
    }
    if forall id :: AgreesAt(s, home(id), id) {
      AgreementIsUnion(s, home);
    }
  }

  /** POSTs of an instance ID name the revision that `home` gives it. */
  ghost predicate FollowsHome(es: seq<Event>, home: string -> string) {
    forall e | e in es :: Accepted(e) ==> e.record.revision == home(e.record.id)
  }

  ghost predicate AllAgreeThroughout(es: seq<Event>, timeout: int, home: string -> string) {
    forall id :: AgreesThroughout(EMPTY, es, timeout, home(id), id)
  }

  lemma {:induction false} UnionThroughoutExactly(es: seq<Event>, timeout: int, home: string -> string)
    requires FollowsHome(es, home)
    ensures UnionThroughout(es, timeout) <==> AllAgreeThroughout(es, timeout, home)
  {
    forall id ensures HomedAt(Run(EMPTY, es, timeout), home(id), id) {
      RunKeepsRight(EMPTY, es, timeout, home(id), id);
    }
    UnionAtExactly(Run(EMPTY, es, timeout), home);
    if es != [] {
      UnionThroughoutExactly(es[..|es| - 1], timeout, home);
    }
    if UnionThroughout(es, timeout) {
      forall id ensures AgreesThroughout(EMPTY, es, timeout, home(id), id) {
        assert es != [] ==> AgreesThroughout(EMPTY, es[..|es| - 1], timeout, home(id), id);
      }
    }
    if AllAgreeThroughout(es, timeout, home) {
      forall id ensures AgreesAt(Run(EMPTY, es, timeout), home(id), id)
                     && (es != [] ==> AgreesThroughout(EMPTY, es[..|es| - 1], timeout, home(id), id))
      {
        assert AgreesThroughout(EMPTY, es, timeout, home(id), id);
      }
    }
  }

  /**
    Exactly when the whole cache stays right: if an instance ID fixes its revision, landing the outstanding writes
    gives the union of all buckets after every step if and only if no step harms any instance.
  */
  lemma UnionIsExact(es: seq<Event>, timeout: int, home: string -> string)
    requires FollowsHome(es, home)
    ensures UnionThroughout(es, timeout) <==> forall id :: Unharmed(EMPTY, es, timeout, id)
  {
    UnionThroughoutExactly(es, timeout, home);
    forall id ensures AgreesThroughout(EMPTY, es, timeout, home(id), id) <==> Unharmed(EMPTY, es, timeout, id) {
      AgreementIsExact(EMPTY, es, timeout, home(id), id);
    }
    if AllAgreeThroughout(es, timeout, home) {
      forall id ensures Unharmed(EMPTY, es, timeout, id) {
        assert AgreesThroughout(EMPTY, es, timeout, home(id), id);
      }
    } else {
      var id :| !AgreesThroughout(EMPTY, es, timeout, home(id), id);
      assert !Unharmed(EMPTY, es, timeout, id);
    }
  }
}
