// When the reaper can come too early, in terms of request times alone: exactly
// when pings may be further apart than the timeout less the landing time.
module PingSpacing {
  import opened Options
  import opened RegistryState
  import opened CacheRefinement
  import opened ReaperTiming

  /** Every ping of `id` but the first comes at most `gap` after the ping before it. */
  ghost predicate PingsWithin(es: seq<Event>, gap: int, id: string) {
    forall i | 0 <= i < |es| && Pings(es[i], id) && LastPing(es[..i], id).Some? ::
      es[i].At() - LastPing(es[..i], id).value <= gap
  }

  lemma PingsWithinPrefix(es: seq<Event>, gap: int, id: string, n: nat)
    requires n <= |es| && PingsWithin(es, gap, id)
    ensures PingsWithin(es[..n], gap, id)
  {
    assert forall i | 0 <= i < n :: es[..n][..i] == es[..i] && es[..n][i] == es[i];
  }

  // ----- the pings on their way to the flat index

  /** Each ping in the queue comes at most `gap` after the one before it, the first after the ping at `from`. */
  predicate Close(from: Option<int>, mine: seq<Write>, gap: int)
    decreases mine
  {
    if mine == [] then true
    else match mine[0]
      case SetWrite(r) => (from.Some? ==> r.lastPing - from.value <= gap) && Close(Some(r.lastPing), mine[1..], gap)
      case DelWrite(_, _) => Close(from, mine[1..], gap)
  }

  /** The last ping in the queue, or the one at `from`. */
  function Latest(from: Option<int>, mine: seq<Write>): Option<int>
    decreases mine
  {
    if mine == [] then from
    else match mine[0]
      case SetWrite(r) => Latest(Some(r.lastPing), mine[1..])
      case DelWrite(_, _) => Latest(from, mine[1..])
  }

  lemma {:induction false} CloseSnoc(from: Option<int>, mine: seq<Write>, w: Write, gap: int)
    requires Close(from, mine, gap)
    requires w.SetWrite? && Latest(from, mine).Some? ==> w.Issued() - Latest(from, mine).value <= gap
    ensures Close(from, mine + [w], gap)
    ensures Latest(from, mine + [w]) == if w.SetWrite? then Some(w.Issued()) else Latest(from, mine)
    decreases mine
  {
    if mine == [] {
      assert mine + [w] == [w] && [w][1..] == [];
    } else {
      assert (mine + [w])[1..] == mine[1..] + [w];
      CloseSnoc(if mine[0].SetWrite? then Some(mine[0].Issued()) else from, mine[1..], w, gap);
    }
  }

  /** Without the ping at `from` less is asked of the queue. */
  lemma {:induction false} CloseFromNothing(from: Option<int>, mine: seq<Write>, gap: int)
    requires Close(from, mine, gap)
    ensures Close(None, mine, gap)
    ensures Latest(None, mine).Some? ==> Latest(None, mine) == Latest(from, mine)
    decreases mine
  {
    if mine != [] && mine[0].DelWrite? {
      CloseFromNothing(from, mine[1..], gap);
    }
  }

  /** A queue that ends in a ping starts within `gap` of the ping at `from`. */
  lemma {:induction false} FirstIsWithin(from: int, mine: seq<Write>, gap: int)
    requires mine != [] && mine[|mine| - 1].SetWrite? && Close(Some(from), mine, gap)
    requires forall i, j :: 0 <= i < j < |mine| ==> mine[i].Issued() <= mine[j].Issued()
    ensures mine[0].Issued() - from <= gap
    decreases mine
  {
    if mine[0].DelWrite? {
      FirstIsWithin(from, mine[1..], gap);
    }
  }

  function PingOf(held: Option<Instance>): Option<int> {
    if held.Some? then Some(held.value.lastPing) else None
  }

  /** In issue order, none of them later than `now`. */
  ghost predicate Sorted(mine: seq<Write>, now: int) {
    && (forall i, j :: 0 <= i < j < |mine| ==> mine[i].Issued() <= mine[j].Issued())
    && (forall i :: 0 <= i < |mine| ==> mine[i].Issued() <= now)
  }

  /** The queue of an instance that the bucket has ends in a ping, and pings are close to each other. */
  ghost predicate PunctualQueue(held: Option<Instance>, mine: seq<Write>, bucket: Option<Instance>, gap: int, last: Option<int>, now: int) {
    && Close(PingOf(held), mine, gap)
    && (Latest(PingOf(held), mine).Some? ==> Latest(PingOf(held), mine) == last)
    && Sorted(mine, now)
    && (bucket.Some? && mine != [] ==> mine[|mine| - 1].SetWrite?)
  }

  ghost predicate Punctual(s: State, revision: string, id: string, gap: int, last: Option<int>, now: int) {
    && HomedAt(s, revision, id)
    && PunctualQueue(Lookup(s.flat, id), For(s.pending, id), InBucket(s, revision, id), gap, last, now)
  }

  lemma QueueGrows(held: Option<Instance>, mine: seq<Write>, bucket: Option<Instance>, bucket': Option<Instance>,
                   w: Write, gap: int, last: Option<int>, now: int)
    requires PunctualQueue(held, mine, bucket, gap, last, now)
    requires now <= w.Issued() && (w.SetWrite? && last.Some? ==> w.Issued() - last.value <= gap)
    requires bucket'.Some? ==> w.SetWrite?
    ensures PunctualQueue(held, mine + [w], bucket', gap, if w.SetWrite? then Some(w.Issued()) else last, w.Issued())
  {
    CloseSnoc(PingOf(held), mine, w, gap);
  }

  lemma QueueMoves(held: Option<Instance>, mine: seq<Write>, bucket: Option<Instance>, gap: int, last: Option<int>, now: int)
    requires PunctualQueue(held, mine, bucket, gap, last, now) && mine != []
    ensures PunctualQueue(mine[0].Effect(), mine[1..], bucket, gap, last, now)
  {
    if mine[0].DelWrite? {
      CloseFromNothing(PingOf(held), mine[1..], gap);
    }
  }

  // ----- steps

  lemma PostPunctual(s: State, r: Instance, gap: int, revision: string, id: string, last: Option<int>, now: int)
    requires Punctual(s, revision, id, gap, last, now) && r.tunnel != "" && now <= r.lastPing
    requires r.id == id ==> r.revision == revision && (last.Some? ==> r.lastPing - last.value <= gap)
    ensures Punctual(Register(s, r), revision, id, gap, if r.id == id then Some(r.lastPing) else last, r.lastPing)
  {
    PostQueue(s, r, revision, id);
    if r.id == id {
      QueueGrows(Lookup(s.flat, id), For(s.pending, id), InBucket(s, revision, id), Some(r), SetWrite(r), gap, last, now);
    }
  }

  lemma DeletePunctual(s: State, p: Path, client: string, at: int, gap: int, revision: string, id: string, last: Option<int>, now: int)
    requires Punctual(s, revision, id, gap, last, now) && now <= at
    ensures Punctual(Remove(s, p, client, at), revision, id, gap, last, at)
  {
    DeleteQueue(s, p, client, at, id);
    if Removes(s, p, client) && p.instance == id {
      QueueGrows(Lookup(s.flat, id), For(s.pending, id), InBucket(s, revision, id), None, DelWrite(id, at), gap, last, now);
    }
  }

  lemma LandingPunctual(s: State, i: nat, gap: int, revision: string, id: string, last: Option<int>, now: int)
    requires Punctual(s, revision, id, gap, last, now)
    requires i < |s.pending| && (s.pending[i].Key() == id ==> InOrder(s.pending, i))
    ensures Punctual(LandAt(s, i), revision, id, gap, last, now)
  {
    LandingQueue(s, i, id);
    if s.pending[i].Key() == id {
      QueueMoves(Lookup(s.flat, id), For(s.pending, id), InBucket(s, revision, id), gap, last, now);
    }
  }

  /** The reaper does not come too early for an instance that pings in time. */
  lemma PunctualIsNotStruckEarly(s: State, now: int, timeout: int, lag: int, gap: int, revision: string, id: string, last: Option<int>, before: int)
    requires Punctual(s, revision, id, gap, last, before) && gap + lag <= timeout
    requires forall w | w in s.pending :: now < w.Issued() + lag
    ensures !StrikesTooEarly(s, Reap(now), timeout, id)
  {
    var mine := For(s.pending, id);
    if Strikes(s, now, timeout, id) && mine != [] {
      assert InBucket(s, revision, id).Some?;
      ForMembers(s.pending, id);
      FirstIsWithin(s.flat[id].lastPing, mine, gap);
    }
  }

  lemma ReapPunctual(s: State, now: int, timeout: int, gap: int, revision: string, id: string, last: Option<int>, before: int)
    requires Punctual(s, revision, id, gap, last, before) && before <= now && !StrikesTooEarly(s, Reap(now), timeout, id)
    ensures Punctual(ReapAll(s, now, timeout), revision, id, gap, last, now)
  {
    var t := ReapAll(s, now, timeout);
    assert t.pending == s.pending;
    if Strikes(s, now, timeout, id) {
      assert For(s.pending, id) == [] && id !in t.flat;
    } else {
      assert Lookup(t.flat, id) == Lookup(s.flat, id) && InBucket(t, revision, id) == InBucket(s, revision, id);
    }
  }

  /** Anything outstanding may be landing only after the step's own time; `before` is the time of the step before it. */
  lemma StepPunctual(s: State, e: Event, timeout: int, lag: int, gap: int, revision: string, id: string, last: Option<int>, before: int)
    requires Punctual(s, revision, id, gap, last, before) && Orderly(s, e, revision, id)
    requires before <= e.At() && gap + lag <= timeout
    requires e.Reap? ==> forall w | w in s.pending :: e.At() < w.Issued() + lag
    requires Pings(e, id) && last.Some? ==> e.At() - last.value <= gap
    ensures !StrikesTooEarly(s, e, timeout, id)
    ensures Punctual(Step(s, e, timeout), revision, id, gap, if Pings(e, id) then Some(e.At()) else last, e.At())
  {
    match e {
      case Post(r) => if r.tunnel != "" { PostPunctual(s, r, gap, revision, id, last, before); }
      case Delete(p, client, at) => DeletePunctual(s, p, client, at, gap, revision, id, last, before);
      case Land(i, _) => if i < |s.pending| { LandingPunctual(s, i, gap, revision, id, last, before); }
      case Reap(now) =>
        PunctualIsNotStruckEarly(s, now, timeout, lag, gap, revision, id, last, before);
        ReapPunctual(s, now, timeout, gap, revision, id, last, before);
    }
  }

  // ----- whole runs

  /** A timed, orderly run in which the pings of `id` are at most `gap` apart. Its DELETEs come as they like. */
  ghost predicate PunctualRun(es: seq<Event>, timeout: int, lag: int, gap: int, revision: string, id: string) {
    TimedRun(EMPTY, es, timeout, lag) && OrderlyRun(EMPTY, es, timeout, revision, id) && PingsWithin(es, gap, id)
  }

  lemma PunctualPrefix(es: seq<Event>, timeout: int, lag: int, gap: int, revision: string, id: string, n: nat)
    requires n <= |es| && PunctualRun(es, timeout, lag, gap, revision, id)
    ensures PunctualRun(es[..n], timeout, lag, gap, revision, id)
  {
    TimedPrefix(EMPTY, es, timeout, lag, n);
    OrderlyPrefix(EMPTY, es, timeout, revision, id, n);
    PingsWithinPrefix(es, gap, id, n);
  }

  /** The time of the last event; a run without events has none, and any time will do. */
  function TimeOf(es: seq<Event>, start: int): int {
    if es == [] then start else EndOf(es)
  }

  lemma {:induction false} RunStaysPunctual(es: seq<Event>, timeout: int, lag: int, gap: int, revision: string, id: string, start: int)
    requires PunctualRun(es, timeout, lag, gap, revision, id) && gap + lag <= timeout
    ensures Punctual(Run(EMPTY, es, timeout), revision, id, gap, LastPing(es, id), TimeOf(es, start))
    ensures !Spoiled(EMPTY, es, timeout, id)
  {
    if es != [] {
      var n := |es| - 1;
      var before := TimeOf(es[..n], es[n].At());
      PunctualPrefix(es, timeout, lag, gap, revision, id, n);
      RunStaysPunctual(es[..n], timeout, lag, gap, revision, id, es[n].At());
      assert before <= es[n].At();
      StepPunctual(Run(EMPTY, es[..n], timeout), es[n], timeout, lag, gap, revision, id, LastPing(es[..n], id), before);
    }
  }

  /**
    An instance whose pings are never more than `gap` apart is not spoiled, in request times: if `gap` plus the
    landing time stays within the timeout, the settled index and its bucket agree on it, however often it is deleted
    and registered again and whenever the reaper comes.
  */
  lemma PunctualInstanceAgrees(es: seq<Event>, timeout: int, lag: int, gap: int, revision: string, id: string)
    requires PunctualRun(es, timeout, lag, gap, revision, id) && gap + lag <= timeout
    ensures AgreesAt(Run(EMPTY, es, timeout), revision, id)
  {
    RunStaysPunctual(es, timeout, lag, gap, revision, id, 0);
    OrderlyAgreementIsExact(es, timeout, revision, id);
  }

  /** If that goes for all instances, landing the outstanding writes gives exactly the union of all buckets. */
  lemma PunctualRunsSettleToTheUnion(es: seq<Event>, timeout: int, lag: int, gap: int, home: string -> string)
    requires forall id :: PunctualRun(es, timeout, lag, gap, home(id), id)
    requires gap + lag <= timeout
    ensures IsUnionOfBuckets(Settled(Run(EMPTY, es, timeout)), Run(EMPTY, es, timeout))
  {
    var s := Run(EMPTY, es, timeout);
    forall id ensures HomedAt(s, home(id), id) && AgreesAt(s, home(id), id) {
      RunStaysPunctual(es, timeout, lag, gap, home(id), id, 0);
      RunKeepsAccount(es, timeout, home(id), id);
    }
    AgreementIsUnion(s, home);
  }

  /** An instance that pinged in time and then fell silent at `since` is out of its bucket and out of the flat index by `since + timeout + interval`. */
  lemma PunctualInstanceIsGone(es: seq<Event>, timeout: int, interval: int, lag: int, gap: int, start: int, since: int,
                               revision: string, id: string)
    requires es != [] && 0 < timeout && lag <= timeout && gap + lag <= timeout && start <= since
    requires PunctualRun(es, timeout, lag, gap, revision, id)
    requires TicksEvery(es, start, interval) && SilentSince(es, since, id)
    requires since + timeout + interval < EndOf(es)
    ensures InBucket(Run(EMPTY, es, timeout), revision, id).None? && id !in Run(EMPTY, es, timeout).flat
  {
    RunStaysPunctual(es, timeout, lag, gap, revision, id, 0);
    SilentInstanceIsReaped(es, timeout, interval, lag, start, since, revision, id);
  }

  // ----- the bound is tight

  /** Two pings `gap` apart, and a pass as soon as the first one is idle and the second one's write may still be on its way. */
  function LateRun(r: Instance, timeout: int, gap: int): seq<Event> {
    [Post(r), Land(0, r.lastPing), Post(r.(lastPing := r.lastPing + gap)),
     Reap(r.lastPing + if gap < timeout then timeout else gap)]
  }

  lemma FirstPingLands(r: Instance, timeout: int, gap: int)
    requires r.tunnel != ""
    ensures var es := LateRun(r, timeout, gap);
      && Run(EMPTY, es[..1], timeout).pending == [SetWrite(r)]
      && Run(EMPTY, es[..2], timeout).flat == map[r.id := r] && Run(EMPTY, es[..2], timeout).pending == []
  {
    var es := LateRun(r, timeout, gap);
    assert es[..2][..1] == es[..1] && es[..1][..0] == [];
    assert Run(EMPTY, es[..1], timeout) == Register(EMPTY, r);
    assert Run(EMPTY, es[..2], timeout) == LandAt(Register(EMPTY, r), 0);
  }

  lemma SecondPingIsOut(r: Instance, timeout: int, gap: int)
    requires r.tunnel != ""
    ensures var s, r' := Run(EMPTY, LateRun(r, timeout, gap)[..3], timeout), r.(lastPing := r.lastPing + gap);
      s.flat == map[r.id := r] && s.pending == [SetWrite(r')] && InBucket(s, r.revision, r.id) == Some(r')
  {
    var es := LateRun(r, timeout, gap);
    FirstPingLands(r, timeout, gap);
    assert es[..3][..2] == es[..2];
    assert Run(EMPTY, es[..3], timeout) == Register(Run(EMPTY, es[..2], timeout), es[2].record);
  }

  lemma LateRunIsPunctual(r: Instance, timeout: int, lag: int, gap: int)
    requires r.tunnel != "" && 0 < lag && 0 <= gap && timeout < gap + lag
    ensures PunctualRun(LateRun(r, timeout, gap), timeout, lag, gap, r.revision, r.id)
  {
    var es := LateRun(r, timeout, gap);
    LatePingsAreWithin(r, timeout, gap);
    FirstPingLands(r, timeout, gap);
    SecondPingIsOut(r, timeout, gap);
  }

  lemma LatePingsAreWithin(r: Instance, timeout: int, gap: int)
    requires r.tunnel != ""
    ensures PingsWithin(LateRun(r, timeout, gap), gap, r.id)
  {
    var es := LateRun(r, timeout, gap);
    assert es[..2][..1] == es[..1] && es[..1][..0] == [];
    assert LastPing(es[..2], r.id) == LastPing(es[..1], r.id) == Some(r.lastPing);
  }

  lemma LateRunSpoils(r: Instance, timeout: int, gap: int)
    requires r.tunnel != "" && 0 <= gap
    ensures Spoiled(EMPTY, LateRun(r, timeout, gap), timeout, r.id)
  {
    var es := LateRun(r, timeout, gap);
    SecondPingIsOut(r, timeout, gap);
    var s := Run(EMPTY, es[..3], timeout);
    assert Strikes(s, es[3].At(), timeout, r.id);
    assert For(s.pending, r.id) != [];
  }

  /**
    Exactly which timeouts are safe: with flat writes landing within `lag` and pings at most `gap` apart, no instance
    is ever spoiled if and only if the two together stay within the timeout.
  */
  lemma SafeTimeoutsExactly(timeout: int, lag: int, gap: int)
    requires 0 < lag && 0 <= gap
    ensures gap + lag <= timeout
       <==> forall es, revision, id | PunctualRun(es, timeout, lag, gap, revision, id) :: !Spoiled(EMPTY, es, timeout, id)
  {
    if gap + lag <= timeout {
      forall es, revision, id | PunctualRun(es, timeout, lag, gap, revision, id) ensures !Spoiled(EMPTY, es, timeout, id) {
        RunStaysPunctual(es, timeout, lag, gap, revision, id, 0);
      }
    } else {
      var r := Instance("", "", "", "", "", "client", 0);
      LateRunIsPunctual(r, timeout, lag, gap);
      LateRunSpoils(r, timeout, gap);
    }
  }
}
