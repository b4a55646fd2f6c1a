// The flat index is a cache of the buckets: what it holds once the outstanding
// writes have landed, when that agrees with the buckets, and exactly what breaks it.
module CacheRefinement {
  import opened Options
  import opened RegistryState

  /** The flat index once every outstanding write has landed in issue order. */
  function Settle(flat: Bucket, pending: seq<Write>): Bucket
    decreases pending
  {
    if pending == [] then flat else Settle(LandWrite(flat, pending[0]), pending[1..])
  }

  function Settled(s: State): Bucket {
    Settle(s.flat, s.pending)
  }

  /** The outstanding writes for one instance, in issue order. */
  function For(pending: seq<Write>, id: string): seq<Write> {
    if pending == [] then []
    else if pending[0].Key() == id then [pending[0]] + For(pending[1..], id)
    else For(pending[1..], id)
  }

  lemma {:induction false} ForConcat(p: seq<Write>, q: seq<Write>, id: string)
    ensures For(p + q, id) == For(p, id) + For(q, id)
  {
    if p == [] {
      assert p + q == q;
    } else {
      assert (p + q)[0] == p[0] && (p + q)[1..] == p[1..] + q;
      ForConcat(p[1..], q, id);
      assert [p[0]] + (For(p[1..], id) + For(q, id)) == ([p[0]] + For(p[1..], id)) + For(q, id);
    }
  }

  lemma {:induction false} ForMembers(pending: seq<Write>, id: string)
    ensures forall w :: w in For(pending, id) <==> w in pending && w.Key() == id
  {
    if pending != [] {
      ForMembers(pending[1..], id);
      assert pending == [pending[0]] + pending[1..];
    }
  }

  /** What `pending` makes of an instance that the index holds as `held`. */
  function Outcome(held: Option<Instance>, mine: seq<Write>): Option<Instance> {
    if mine == [] then held else mine[|mine| - 1].Effect()
  }

  /** Landing everything decides each instance by the last of its own writes. */
  lemma {:induction false} SettleIsLastWrite(flat: Bucket, pending: seq<Write>, id: string)
    ensures Lookup(Settle(flat, pending), id) == Outcome(Lookup(flat, id), For(pending, id))
    decreases pending
  {
    if pending != [] {
      SettleIsLastWrite(LandWrite(flat, pending[0]), pending[1..], id);
    }
  }

  // ----- landing order

  /** No older write for the same instance is still outstanding. */
  ghost predicate InOrder(pending: seq<Write>, i: nat)
    requires i < |pending|
  {
    forall j :: 0 <= j < i ==> pending[j].Key() != pending[i].Key()
  }

  /** Landing the write at `i` takes it out of its own instance's queue and leaves the other queues alone. */
  lemma ForWithout(pending: seq<Write>, i: nat, id: string)
    requires i < |pending|
    ensures var mine, k := For(pending, id), |For(pending[..i], id)|;
      var rest := For(pending[..i] + pending[i + 1..], id);
      if pending[i].Key() == id
      then k < |mine| && mine[k] == pending[i] && rest == mine[..k] + mine[k + 1..]
      else rest == mine
  {
    var a, w, b := pending[..i], pending[i], pending[i + 1..];
    assert pending == a + ([w] + b);
    ForConcat(a, [w] + b, id);
    ForConcat([w], b, id);
    ForConcat(a, b, id);
    assert [w][1..] == [];
  }

  lemma {:induction false} NoneFor(pending: seq<Write>, id: string)
    requires forall w | w in pending :: w.Key() != id
    ensures For(pending, id) == []
  {
    if pending != [] {
      NoneFor(pending[1..], id);
    }
  }

  lemma InOrderIsFirst(pending: seq<Write>, i: nat)
    requires i < |pending| && InOrder(pending, i)
    ensures For(pending[..i], pending[i].Key()) == []
  {
    NoneFor(pending[..i], pending[i].Key());
  }

  /** The write at `i` is the newest of its instance, and lands past an older one that says something else. */
  predicate Overtakes(pending: seq<Write>, i: nat)
    requires i < |pending|
  {
    var id := pending[i].Key();
    var older := For(pending[..i], id);
    && older != []
    && For(pending[i + 1..], id) == []
    && older[|older| - 1].Effect() != pending[i].Effect()
  }

  lemma LandingAt(s: State, i: nat, id: string)
    requires i < |s.pending|
    ensures Lookup(Settled(LandAt(s, i)), id) == Lookup(Settled(s), id)
       <==> !(id == s.pending[i].Key() && Overtakes(s.pending, i))
  {
    var w, a, b := s.pending[i], s.pending[..i], s.pending[i + 1..];
    SettleIsLastWrite(s.flat, s.pending, id);
    SettleIsLastWrite(LandWrite(s.flat, w), a + b, id);
    QueueAround(s.pending, i, id);
  }

  lemma QueueAround(pending: seq<Write>, i: nat, id: string)
    requires i < |pending|
    ensures var w, older, newer := pending[i], For(pending[..i], id), For(pending[i + 1..], id);
      && For(pending[..i] + pending[i + 1..], id) == older + newer
      && For(pending, id) == if w.Key() == id then older + [w] + newer else older + newer
  {
    var w, a, b := pending[i], pending[..i], pending[i + 1..];
    ForConcat(a, b, id);
    assert pending == a + ([w] + b);
    ForConcat(a, [w] + b, id);
    ForConcat([w], b, id);
    assert [w][1..] == [];
    assert For([w], id) == if w.Key() == id then [w] else [];
    assert For(a, id) + ([w] + For(b, id)) == For(a, id) + [w] + For(b, id);
  }

  /** Landing one write keeps the settled index if and only if the write does not overtake. */
  lemma LandingKeepsSettledExactly(s: State, i: nat)
    requires i < |s.pending|
    ensures Settled(LandAt(s, i)) == Settled(s) <==> !Overtakes(s.pending, i)
  {
    LandingAt(s, i, s.pending[i].Key());
    forall id ensures !Overtakes(s.pending, i) ==> Lookup(Settled(LandAt(s, i)), id) == Lookup(Settled(s), id) {
      LandingAt(s, i, id);
    }
    SameLookups(Settled(LandAt(s, i)), Settled(s));
  }

  lemma SameLookups<K, V>(m: map<K, V>, n: map<K, V>)
    ensures m == n <==> forall k :: k in m || k in n ==> Lookup(m, k) == Lookup(n, k)
  {
    if forall k :: k in m || k in n ==> Lookup(m, k) == Lookup(n, k) {
      assert forall k :: k in m <==> k in n;
      assert forall k :: k in m ==> m[k] == n[k];
    }
  }

  lemma InOrderDoesNotOvertake(pending: seq<Write>, i: nat)
    requires i < |pending| && InOrder(pending, i)
    ensures !Overtakes(pending, i)
  {
    InOrderIsFirst(pending, i);
  }

  // ----- what each request does to the queue and the bucket of one instance

  lemma PostQueue(s: State, r: Instance, revision: string, id: string)
    requires r.tunnel != ""
    ensures var t := Register(s, r);
      && t.flat == s.flat
      && For(t.pending, id) == (if r.id == id then For(s.pending, id) + [SetWrite(r)] else For(s.pending, id))
      && InBucket(t, revision, id) == (if r.id == id && r.revision == revision then Some(r) else InBucket(s, revision, id))
  {
    ForConcat(s.pending, [SetWrite(r)], id);
    assert [SetWrite(r)][1..] == [];
    assert For([SetWrite(r)], id) == if r.id == id then [SetWrite(r)] else [];
  }

  lemma DeleteQueue(s: State, p: Path, client: string, at: int, id: string)
    ensures var t, hit := Remove(s, p, client, at), Removes(s, p, client) && p.instance == id;
      && t.flat == s.flat
      && For(t.pending, id) == (if hit then For(s.pending, id) + [DelWrite(id, at)] else For(s.pending, id))
      && forall v :: InBucket(t, v, id) == if hit && v == p.revision then None else InBucket(s, v, id)
  {
    var w := DelWrite(p.instance, at);
    ForConcat(s.pending, [w], id);
    assert [w][1..] == [];
    assert For([w], id) == if p.instance == id then [w] else [];
  }

  /** An in-order landing moves the head of its instance's queue into the index. */
  lemma LandingQueue(s: State, i: nat, id: string)
    requires i < |s.pending| && (s.pending[i].Key() == id ==> InOrder(s.pending, i))
    ensures var t, mine := LandAt(s, i), For(s.pending, id);
      && t.buckets == s.buckets
      && if s.pending[i].Key() == id
         then mine != [] && Lookup(t.flat, id) == mine[0].Effect() && For(t.pending, id) == mine[1..]
         else Lookup(t.flat, id) == Lookup(s.flat, id) && For(t.pending, id) == mine
  {
    ForWithout(s.pending, i, id);
    if s.pending[i].Key() == id {
      InOrderIsFirst(s.pending, i);
      var mine := For(s.pending, id);
      assert mine[..0] + mine[0 + 1..] == mine[1..];
    }
  }

  // ----- agreement with the buckets, one instance at a time

  /** The settled index and the bucket `revision` say the same about instance `id`. */
  predicate AgreesAt(s: State, revision: string, id: string) {
    Lookup(Settled(s), id) == InBucket(s, revision, id)
  }

  /** Instance `id` is only ever found in the bucket `revision`. */
  ghost predicate HomedAt(s: State, revision: string, id: string) {
    forall v :: v in s.buckets && id in s.buckets[v] ==> v == revision
  }

  /** The reaper strikes `id` while a write for it is outstanding. */
  predicate StrikesTooEarly(s: State, e: Event, timeout: int, id: string) {
    e.Reap? && Strikes(s, e.At(), timeout, id) && For(s.pending, id) != []
  }

  /** POSTs for `id` name its revision, and its writes land in issue order. */
  ghost predicate Orderly(s: State, e: Event, revision: string, id: string) {
    && (e.Post? && e.record.id == id ==> e.record.revision == revision)
    && (e.Land? && e.index < |s.pending| && s.pending[e.index].Key() == id ==> InOrder(s.pending, e.index))
  }

  ghost predicate OrderlyRun(s: State, es: seq<Event>, timeout: int, revision: string, id: string) {
    forall i :: 0 <= i < |es| ==> Orderly(Run(s, es[..i], timeout), es[i], revision, id)
  }

  /** Whether `id` was struck too early and has not been posted since. */
  predicate Spoiled(s: State, es: seq<Event>, timeout: int, id: string) {
    if es == [] then false
    else
      var n := |es| - 1;
      if Accepted(es[n]) && es[n].record.id == id then false
      else Spoiled(s, es[..n], timeout, id) || StrikesTooEarly(Run(s, es[..n], timeout), es[n], timeout, id)
  }

  lemma StepKeepsHome(s: State, e: Event, timeout: int, revision: string, id: string)
    requires HomedAt(s, revision, id) && Orderly(s, e, revision, id)
    ensures HomedAt(Step(s, e, timeout), revision, id)
  {
  }

  /** An accepted POST settles its instance, whatever state the index was in. */
  lemma PostAgrees(s: State, r: Instance)
    requires r.tunnel != ""
    ensures AgreesAt(Register(s, r), r.revision, r.id)
  {
    var t := Register(s, r);
    SettleIsLastWrite(t.flat, t.pending, r.id);
    PostQueue(s, r, r.revision, r.id);
  }

  lemma PostLeavesOthers(s: State, r: Instance, revision: string, id: string)
    requires r.tunnel == "" || r.id != id
    ensures AgreesAt(Register(s, r), revision, id) <==> AgreesAt(s, revision, id)
  {
    var t := Register(s, r);
    SettleIsLastWrite(t.flat, t.pending, id);
    SettleIsLastWrite(s.flat, s.pending, id);
    if r.tunnel != "" {
      PostQueue(s, r, revision, id);
    }
  }

  lemma DeleteKeepsAgreement(s: State, p: Path, client: string, at: int, revision: string, id: string)
    requires HomedAt(s, revision, id)
    ensures AgreesAt(s, revision, id) ==> AgreesAt(Remove(s, p, client, at), revision, id)
    ensures !AgreesAt(s, revision, id) && InBucket(s, revision, id).None? ==> !AgreesAt(Remove(s, p, client, at), revision, id)
  {
    var t := Remove(s, p, client, at);
    SettleIsLastWrite(t.flat, t.pending, id);
    SettleIsLastWrite(s.flat, s.pending, id);
    DeleteQueue(s, p, client, at, id);
  }

  /**
    A reaper pass out of a state that agrees keeps the agreement on an instance
    if and only if it does not strike that instance while a write for it is outstanding.
  */
  lemma ReapAgreesExactly(s: State, now: int, timeout: int, revision: string, id: string)
    requires WellFormed(s) && HomedAt(s, revision, id) && AgreesAt(s, revision, id)
    ensures AgreesAt(ReapAll(s, now, timeout), revision, id) <==> !StrikesTooEarly(s, Reap(now), timeout, id)
    ensures StrikesTooEarly(s, Reap(now), timeout, id) ==> InBucket(ReapAll(s, now, timeout), revision, id).None?
  {
    var t := ReapAll(s, now, timeout);
    SettleIsLastWrite(t.flat, t.pending, id);
    SettleIsLastWrite(s.flat, s.pending, id);
  }

  /** An instance that the index has and its bucket lacks is never struck. */
  lemma ReapSkipsFlatOnly(s: State, now: int, timeout: int, revision: string, id: string)
    requires HomedAt(s, revision, id) && InBucket(s, revision, id).None?
    ensures !Strikes(s, now, timeout, id)
    ensures AgreesAt(ReapAll(s, now, timeout), revision, id) <==> AgreesAt(s, revision, id)
  {
    var t := ReapAll(s, now, timeout);
    SettleIsLastWrite(t.flat, t.pending, id);
    SettleIsLastWrite(s.flat, s.pending, id);
  }

  /** A landing in order settles nothing anew, so it neither makes nor breaks agreement. */
  lemma LandingAgreesExactly(s: State, i: nat, revision: string, id: string)
    requires i < |s.pending| && (s.pending[i].Key() == id ==> InOrder(s.pending, i))
    ensures AgreesAt(LandAt(s, i), revision, id) <==> AgreesAt(s, revision, id)
  {
    LandingAt(s, i, id);
    if s.pending[i].Key() == id {
      InOrderDoesNotOvertake(s.pending, i);
    }
  }

  /** Where an orderly run leaves an instance: in its own bucket only, and in agreement unless it is spoiled. */
  ghost predicate Account(s: State, revision: string, id: string, spoiled: bool) {
    && WellFormed(s)
    && HomedAt(s, revision, id)
    && (spoiled ==> InBucket(s, revision, id).None?)
    && (AgreesAt(s, revision, id) <==> !spoiled)
  }

  lemma StepKeepsAccount(s: State, e: Event, timeout: int, revision: string, id: string, spoiled: bool)
    requires Account(s, revision, id, spoiled) && Covered(s) && Orderly(s, e, revision, id)
    ensures Account(Step(s, e, timeout), revision, id,
                    if Accepted(e) && e.record.id == id then false else spoiled || StrikesTooEarly(s, e, timeout, id))
  {
    StepKeepsShape(s, e, timeout);
    StepKeepsHome(s, e, timeout, revision, id);
    match e {
      case Post(r) =>
        if Accepted(e) && r.id == id { PostAgrees(s, r); } else { PostLeavesOthers(s, r, revision, id); }
      case Delete(p, client, at) =>
        DeleteKeepsAgreement(s, p, client, at, revision, id);
      case Land(i, _) =>
        if i < |s.pending| { LandingAgreesExactly(s, i, revision, id); }
      case Reap(now) =>
        if spoiled { ReapSkipsFlatOnly(s, now, timeout, revision, id); } else { ReapAgreesExactly(s, now, timeout, revision, id); }
    }
  }

  lemma {:induction false} RunKeepsAccount(es: seq<Event>, timeout: int, revision: string, id: string)
    requires OrderlyRun(EMPTY, es, timeout, revision, id)
    ensures Account(Run(EMPTY, es, timeout), revision, id, Spoiled(EMPTY, es, timeout, id))
  {
    if es != [] {
      var n := |es| - 1;
      var init := es[..n];
      assert forall i | 0 <= i < n :: init[..i] == es[..i] && init[i] == es[i];
      RunKeepsAccount(init, timeout, revision, id);
      RunKeepsShape(EMPTY, init, timeout);
      StepKeepsAccount(Run(EMPTY, init, timeout), es[n], timeout, revision, id, Spoiled(EMPTY, init, timeout, id));
    }
  }

  /**
    Exactly when the cache is right about one instance: in every run in which the instance keeps to one revision
    and its writes land in issue order, the settled index and its bucket agree on it if and only if the reaper has
    not struck it too early since it was last posted.
  */
  lemma OrderlyAgreementIsExact(es: seq<Event>, timeout: int, revision: string, id: string)
    requires OrderlyRun(EMPTY, es, timeout, revision, id)
    ensures AgreesAt(Run(EMPTY, es, timeout), revision, id) <==> !Spoiled(EMPTY, es, timeout, id)
  {
    RunKeepsAccount(es, timeout, revision, id);
  }

  /** The reaper never strikes an instance with a write outstanding. */
  ghost predicate NoEarlyStrikes(es: seq<Event>, timeout: int) {
    forall i, id | 0 <= i < |es| :: !StrikesTooEarly(Run(EMPTY, es[..i], timeout), es[i], timeout, id)
  }

  /** `index` is the union of all buckets, and no instance is in two of them. */
  ghost predicate IsUnionOfBuckets(index: Bucket, s: State) {
    && (forall id | id in index :: exists v :: InBucket(s, v, id) == Some(index[id]))
    && (forall v, id | InBucket(s, v, id).Some? :: Lookup(index, id) == InBucket(s, v, id))
    && (forall v, v', id | InBucket(s, v, id).Some? && InBucket(s, v', id).Some? :: v == v')
  }

  /**
    The whole cache: when an instance ID fixes its revision, writes for one instance land in issue order and the
    reaper never strikes an instance with a write outstanding, landing the outstanding writes gives exactly the
    union of all buckets, with no instance in two of them.
  */
  lemma SettledIndexIsUnionOfBuckets(es: seq<Event>, timeout: int, home: string -> string)
    requires forall id :: OrderlyRun(EMPTY, es, timeout, home(id), id)
    requires NoEarlyStrikes(es, timeout)
    ensures IsUnionOfBuckets(Settled(Run(EMPTY, es, timeout)), Run(EMPTY, es, timeout))
  {
    var s := Run(EMPTY, es, timeout);
    forall id ensures HomedAt(s, home(id), id) && AgreesAt(s, home(id), id) {
      RunKeepsAccount(es, timeout, home(id), id);
      NeverSpoiled(es, timeout, id);
    }
    AgreementIsUnion(s, home);
  }

  lemma AgreementIsUnion(s: State, home: string -> string)
    requires forall id :: HomedAt(s, home(id), id) && AgreesAt(s, home(id), id)
    ensures IsUnionOfBuckets(Settled(s), s)
  {
    var index := Settled(s);
    forall id | id in index ensures exists v :: InBucket(s, v, id) == Some(index[id]) {
      assert AgreesAt(s, home(id), id);
      assert InBucket(s, home(id), id) == Some(index[id]);
    }
    forall v, id | InBucket(s, v, id).Some? ensures v == home(id) {
      assert HomedAt(s, home(id), id);
    }
  }

  lemma {:induction false} NeverSpoiled(es: seq<Event>, timeout: int, id: string)
    requires NoEarlyStrikes(es, timeout)
    ensures !Spoiled(EMPTY, es, timeout, id)
  {
    if es != [] {
      var n := |es| - 1;
      var init := es[..n];
      assert forall i | 0 <= i < n :: init[..i] == es[..i] && init[i] == es[i];
      NeverSpoiled(init, timeout, id);
    }
  }

  // ----- an entry the reaper can no longer reach

  predicate Mentions(e: Event, id: string) {
    match e
    case Post(r) => r.id == id
    case Delete(p, _, _) => p.instance == id
    case Land(_, _) => false
    case Reap(_) => false
  }

  /** The flat index may have `id`, but no bucket does and no write for it is outstanding. */
  ghost predicate Unreachable(s: State, id: string) {
    && (forall v :: InBucket(s, v, id).None?)
    && For(s.pending, id) == []
  }

  lemma UnreachableStep(s: State, e: Event, timeout: int, id: string)
    requires Unreachable(s, id) && !Mentions(e, id)
    ensures Unreachable(Step(s, e, timeout), id)
    ensures Lookup(Step(s, e, timeout).flat, id) == Lookup(s.flat, id)
  {
    assert forall v | v in s.buckets :: InBucket(s, v, id).None?;
    match e {
      case Post(r) => ForConcat(s.pending, [SetWrite(r)], id);
      case Delete(p, client, at) => DeleteQueue(s, p, client, at, id);
      case Land(i, _) => if i < |s.pending| { ForWithout(s.pending, i, id); }
      case Reap(_) =>
    }
  }

  /** From there on, only a request that names the instance changes what the flat index says about it. */
  lemma {:induction false} UnreachableStays(s: State, es: seq<Event>, timeout: int, id: string)
    requires Unreachable(s, id)
    requires forall e | e in es :: !Mentions(e, id)
    ensures Unreachable(Run(s, es, timeout), id)
    ensures Lookup(Run(s, es, timeout).flat, id) == Lookup(s.flat, id)
  {
    if es != [] {
      var n := |es| - 1;
      UnreachableStays(s, es[..n], timeout, id);
      UnreachableStep(Run(s, es[..n], timeout), es[n], timeout, id);
    }
  }

  /**
    Landing order matters: a DELETE's write that lands before the POST's leaves an entry in the flat index
    that no run of requests for other instances and reaper passes, however long, ever takes out.
  */
  lemma OvertakenPostIsStranded(r: Instance, es: seq<Event>, timeout: int)
    requires r.tunnel != ""
    requires forall e | e in es :: !Mentions(e, r.id)
    ensures var p := Path(r.project, r.region, r.service, r.revision, r.id);
      var removed := Step(Step(EMPTY, Post(r), timeout), Delete(p, r.tunnel, r.lastPing), timeout);
      var landed := Step(Step(removed, Land(1, r.lastPing), timeout), Land(0, r.lastPing), timeout);
      Lookup(Run(landed, es, timeout).flat, r.id) == Some(r)
  {
    var p := Path(r.project, r.region, r.service, r.revision, r.id);
    var removed := Remove(Register(EMPTY, r), p, r.tunnel, r.lastPing);
    assert removed.pending == [SetWrite(r), DelWrite(r.id, r.lastPing)];
    var once := LandAt(removed, 1);
    assert once.pending == [SetWrite(r)] && r.id !in once.flat;
    var landed := LandAt(once, 0);
    assert landed.pending == [] && forall v :: InBucket(landed, v, r.id).None?;
    UnreachableStays(landed, es, timeout, r.id);
  }

  /**
    Strikes matter too: when the instance pings again after a long silence and a reaper pass gets in before that
    ping's write has landed, the running instance loses its bucket entry and the late write is stranded for good.
  */
  lemma EarlyStrikeIsStranded(r: Instance, again: int, timeout: int, es: seq<Event>)
    requires r.tunnel != "" && again - r.lastPing >= timeout
    requires forall e | e in es :: !Mentions(e, r.id)
    ensures var r' := r.(lastPing := again);
      var pinged := Step(Step(Step(EMPTY, Post(r), timeout), Land(0, again), timeout), Post(r'), timeout);
      var landed := Step(Step(pinged, Reap(again), timeout), Land(0, again), timeout);
      var s := Run(landed, es, timeout);
      Lookup(s.flat, r.id) == Some(r') && InBucket(s, r.revision, r.id).None?
  {
    var r' := r.(lastPing := again);
    var first := State({r.project}, {r.region}, {r.service}, map[r.revision := map[r.id := r]], map[r.id := r], []);
    assert LandAt(Register(EMPTY, r), 0) == first;
    var pinged := first.(buckets := map[r.revision := map[r.id := r']], pending := [SetWrite(r')]);
    RegisterAgain(first, r, r');
    TheStrike(pinged, r', again, timeout);
    var landed := first.(buckets := map[r.revision := map[]], flat := map[r.id := r']);
    assert LandAt(ReapAll(pinged, again, timeout), 0) == landed;
    UnreachableStays(landed, es, timeout, r.id);
  }

  lemma RegisterAgain(s: State, r: Instance, r': Instance)
    requires r' == r.(lastPing := r'.lastPing) && r.tunnel != "" && s.pending == []
    requires s.projects == {r.project} && s.regions == {r.region} && s.services == {r.service}
    requires s.buckets == map[r.revision := map[r.id := r]]
    ensures Register(s, r') == s.(buckets := map[r.revision := map[r.id := r']], pending := [SetWrite(r')])
  {
    var t := Register(s, r');
    assert t.projects == s.projects && t.regions == s.regions && t.services == s.services;
    assert t.buckets[r.revision] == map[r.id := r'];
    assert t.buckets == map[r.revision := map[r.id := r']];
  }

  lemma TheStrike(s: State, r: Instance, now: int, timeout: int)
    requires s.flat.Keys == {r.id} && s.flat[r.id].revision == r.revision && now - s.flat[r.id].lastPing >= timeout
    requires s.buckets == map[r.revision := map[r.id := r]]
    ensures ReapAll(s, now, timeout) == s.(buckets := map[r.revision := map[]], flat := map[])
  {
    assert Strikes(s, now, timeout, r.id);
    assert ReapAll(s, now, timeout).buckets[r.revision] == map[];
  }
}
