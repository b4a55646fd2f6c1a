// What the idle reaper promises in time: an instance that keeps pinging is never
// reaped, and a silent one is gone by a deadline unless it has been stranded.
module ReaperTiming {
  import opened Options
  import opened RegistryState
  import opened CacheRefinement

  /** The clock does not run backwards, and a write has landed before any reaper pass `lag` or more after its issue. */
  ghost predicate TimedRun(s: State, es: seq<Event>, timeout: int, lag: int) {
    && (forall i, j :: 0 <= i < j < |es| ==> es[i].At() <= es[j].At())
    && (forall i, w | 0 <= i < |es| && es[i].Reap? && w in Run(s, es[..i], timeout).pending ::
          es[i].At() < w.Issued() + lag)
  }

  lemma TimedPrefix(s: State, es: seq<Event>, timeout: int, lag: int, n: nat)
    requires n <= |es| && TimedRun(s, es, timeout, lag)
    ensures TimedRun(s, es[..n], timeout, lag)
  {
    assert forall i | 0 <= i < n :: es[..n][..i] == es[..i] && es[..n][i] == es[i];
  }

  lemma OrderlyPrefix(s: State, es: seq<Event>, timeout: int, revision: string, id: string, n: nat)
    requires n <= |es| && OrderlyRun(s, es, timeout, revision, id)
    ensures OrderlyRun(s, es[..n], timeout, revision, id)
  {
    assert forall i | 0 <= i < n :: es[..n][..i] == es[..i] && es[..n][i] == es[i];
  }

  // ----- an instance that keeps pinging

  predicate Pings(e: Event, id: string) {
    Accepted(e) && e.record.id == id
  }

  function LastPing(es: seq<Event>, id: string): Option<int> {
    if es == [] then None
    else if Pings(es[|es| - 1], id) then Some(es[|es| - 1].At())
    else LastPing(es[..|es| - 1], id)
  }

  /** From its first ping on, every ping of `id` and every reaper pass comes at most `gap` after the ping before it, and no DELETE removes it. */
  ghost predicate KeepsPinging(s: State, es: seq<Event>, timeout: int, gap: int, id: string) {
    forall i | 0 <= i < |es| ::
      && ((Pings(es[i], id) || es[i].Reap?) && LastPing(es[..i], id).Some? ==> es[i].At() - LastPing(es[..i], id).value <= gap)
      && (es[i].Delete? && es[i].path.instance == id ==> !Removes(Run(s, es[..i], timeout), es[i].path, es[i].client))
  }

  ghost predicate Absent(s: State, id: string) {
    Unreachable(s, id) && id !in s.flat
  }

  /** From the ping the flat index shows through those still on their way to it, no step is wider than `gap`. */
  ghost predicate Gapless(held: Option<Instance>, mine: seq<Write>, gap: int) {
    && (held.Some? && mine != [] ==> mine[0].Issued() - held.value.lastPing <= gap)
    && (forall i :: 0 < i < |mine| ==> mine[i].Issued() - mine[i - 1].Issued() <= gap)
    && (forall i :: 0 <= i < |mine| ==> mine[i].SetWrite?)
  }

  function Newest(held: Option<Instance>, mine: seq<Write>): Option<int> {
    if mine != [] then Some(mine[|mine| - 1].Issued())
    else if held.Some? then Some(held.value.lastPing)
    else None
  }

  /** The pings on their way have no hole wider than `gap`, the newest of them is the last ping, and its record is in the bucket. */
  ghost predicate AliveQueue(held: Option<Instance>, mine: seq<Write>, bucket: Option<Instance>, gap: int, last: Option<int>) {
    && Gapless(held, mine, gap)
    && Newest(held, mine) == last
    && (if last.Some? then bucket.Some? && bucket.value.lastPing == last.value else bucket.None?)
  }

  ghost predicate Alive(s: State, revision: string, id: string, gap: int, last: Option<int>) {
    HomedAt(s, revision, id) && AliveQueue(Lookup(s.flat, id), For(s.pending, id), InBucket(s, revision, id), gap, last)
  }

  lemma AliveSnoc(held: Option<Instance>, mine: seq<Write>, bucket: Option<Instance>, r: Instance, gap: int, last: Option<int>)
    requires AliveQueue(held, mine, bucket, gap, last)
    requires last.Some? ==> r.lastPing - last.value <= gap
    ensures AliveQueue(held, mine + [SetWrite(r)], Some(r), gap, Some(r.lastPing))
  {
  }

  lemma AliveTail(held: Option<Instance>, mine: seq<Write>, bucket: Option<Instance>, gap: int, last: Option<int>)
    requires AliveQueue(held, mine, bucket, gap, last) && mine != []
    ensures AliveQueue(mine[0].Effect(), mine[1..], bucket, gap, last)
  {
  }

  lemma PostKeepsAlive(s: State, r: Instance, gap: int, revision: string, id: string, last: Option<int>)
    requires Alive(s, revision, id, gap, last) && r.tunnel != ""
    requires r.id == id ==> r.revision == revision && (last.Some? ==> r.lastPing - last.value <= gap)
    ensures Alive(Register(s, r), revision, id, gap, if r.id == id then Some(r.lastPing) else last)
  {
    PostQueue(s, r, revision, id);
    if r.id == id {
      AliveSnoc(Lookup(s.flat, id), For(s.pending, id), InBucket(s, revision, id), r, gap, last);
    }
  }

  lemma LandingKeepsAlive(s: State, i: nat, gap: int, revision: string, id: string, last: Option<int>)
    requires Alive(s, revision, id, gap, last)
    requires i < |s.pending| && (s.pending[i].Key() == id ==> InOrder(s.pending, i))
    ensures Alive(LandAt(s, i), revision, id, gap, last)
  {
    LandingQueue(s, i, id);
    if s.pending[i].Key() == id {
      AliveTail(Lookup(s.flat, id), For(s.pending, id), InBucket(s, revision, id), gap, last);
    }
  }

  lemma DeleteKeepsAlive(s: State, p: Path, client: string, at: int, gap: int, revision: string, id: string, last: Option<int>)
    requires Alive(s, revision, id, gap, last)
    requires p.instance == id ==> !Removes(s, p, client)
    ensures Alive(Remove(s, p, client, at), revision, id, gap, last)
  {
    DeleteQueue(s, p, client, at, id);
  }

  lemma AliveIsNotStruck(s: State, now: int, timeout: int, lag: int, gap: int, revision: string, id: string, last: Option<int>)
    requires Alive(s, revision, id, gap, last)
    requires 0 < lag && gap + lag <= timeout
    requires forall w | w in s.pending :: now < w.Issued() + lag
    requires last.Some? ==> now - last.value <= gap
    ensures !Strikes(s, now, timeout, id)
  {
    ForMembers(s.pending, id);
    var mine := For(s.pending, id);
    assert mine != [] ==> mine[0] in mine;
  }

  lemma ReapKeepsAlive(s: State, now: int, timeout: int, gap: int, revision: string, id: string, last: Option<int>)
    requires Alive(s, revision, id, gap, last) && !Strikes(s, now, timeout, id)
    ensures Alive(ReapAll(s, now, timeout), revision, id, gap, last)
  {
  }

  lemma StepKeepsAlive(s: State, e: Event, timeout: int, lag: int, gap: int, revision: string, id: string, last: Option<int>)
    requires Alive(s, revision, id, gap, last) && Orderly(s, e, revision, id)
    requires 0 < lag && gap + lag <= timeout
    requires e.Reap? ==> forall w | w in s.pending :: e.At() < w.Issued() + lag
    requires (Pings(e, id) || e.Reap?) && last.Some? ==> e.At() - last.value <= gap
    requires e.Delete? && e.path.instance == id ==> !Removes(s, e.path, e.client)
    ensures Alive(Step(s, e, timeout), revision, id, gap, if Pings(e, id) then Some(e.At()) else last)
  {
    match e {
      case Post(r) => if r.tunnel != "" { PostKeepsAlive(s, r, gap, revision, id, last); }
      case Delete(p, client, at) => DeleteKeepsAlive(s, p, client, at, gap, revision, id, last);
      case Land(i, _) => if i < |s.pending| { LandingKeepsAlive(s, i, gap, revision, id, last); }
      case Reap(now) =>
        AliveIsNotStruck(s, now, timeout, lag, gap, revision, id, last);
        ReapKeepsAlive(s, now, timeout, gap, revision, id, last);
    }
  }

  lemma KeepsPingingPrefix(s: State, es: seq<Event>, timeout: int, gap: int, id: string, n: nat)
    requires n <= |es| && KeepsPinging(s, es, timeout, gap, id)
    ensures KeepsPinging(s, es[..n], timeout, gap, id)
  {
    assert forall i | 0 <= i < n :: es[..n][..i] == es[..i] && es[..n][i] == es[i];
  }

  lemma {:induction false} RunKeepsAlive(s: State, es: seq<Event>, timeout: int, lag: int, gap: int, revision: string, id: string)
    requires Absent(s, id) && 0 < lag && gap + lag <= timeout
    requires TimedRun(s, es, timeout, lag) && OrderlyRun(s, es, timeout, revision, id)
    requires KeepsPinging(s, es, timeout, gap, id)
    ensures Alive(Run(s, es, timeout), revision, id, gap, LastPing(es, id))
  {
    if es == [] {
      assert forall v | v in s.buckets :: InBucket(s, v, id).None?;
    } else {
      var n := |es| - 1;
      TimedPrefix(s, es, timeout, lag, n);
      OrderlyPrefix(s, es, timeout, revision, id, n);
      KeepsPingingPrefix(s, es, timeout, gap, id, n);
      RunKeepsAlive(s, es[..n], timeout, lag, gap, revision, id);
      StepKeepsAlive(Run(s, es[..n], timeout), es[n], timeout, lag, gap, revision, id, LastPing(es[..n], id));
    }
  }

  /**
    An instance that is new to the registry and pings at gaps of at most `gap` is never reaped, as long as
    `gap` plus the landing time of flat writes stays within the timeout: no pass strikes it, and its bucket
    always holds the record of its last ping.
  */
  lemma PingingInstanceIsNeverReaped(s: State, es: seq<Event>, timeout: int, lag: int, gap: int, revision: string, id: string)
    requires Absent(s, id) && 0 < lag && gap + lag <= timeout
    requires TimedRun(s, es, timeout, lag) && OrderlyRun(s, es, timeout, revision, id)
    requires KeepsPinging(s, es, timeout, gap, id)
    ensures forall i | 0 <= i < |es| && es[i].Reap? :: !Strikes(Run(s, es[..i], timeout), es[i].At(), timeout, id)
    ensures forall i | 0 <= i <= |es| && LastPing(es[..i], id).Some? ::
      var held := InBucket(Run(s, es[..i], timeout), revision, id);
      held.Some? && held.value.lastPing == LastPing(es[..i], id).value
  {
    forall i | 0 <= i <= |es| ensures Alive(Run(s, es[..i], timeout), revision, id, gap, LastPing(es[..i], id)) {
      TimedPrefix(s, es, timeout, lag, i);
      OrderlyPrefix(s, es, timeout, revision, id, i);
      KeepsPingingPrefix(s, es, timeout, gap, id, i);
      RunKeepsAlive(s, es[..i], timeout, lag, gap, revision, id);
    }
    forall i | 0 <= i < |es| && es[i].Reap? ensures !Strikes(Run(s, es[..i], timeout), es[i].At(), timeout, id) {
      AliveIsNotStruck(Run(s, es[..i], timeout), es[i].At(), timeout, lag, gap, revision, id, LastPing(es[..i], id));
    }
  }

  // ----- an instance that has fallen silent

  /** No request after time `since` names the instance. */
  ghost predicate SilentSince(es: seq<Event>, since: int, id: string) {
    forall i | 0 <= i < |es| && Mentions(es[i], id) :: es[i].At() <= since
  }

  /** Nothing the index holds or awaits for `id` is younger than `since`. */
  ghost predicate NothingSince(s: State, since: int, id: string) {
    && (id in s.flat ==> s.flat[id].lastPing <= since)
    && (forall w | w in s.pending && w.Key() == id :: w.Issued() <= since)
  }

  lemma {:induction false} SilenceShows(es: seq<Event>, timeout: int, since: int, id: string)
    requires SilentSince(es, since, id)
    ensures NothingSince(Run(EMPTY, es, timeout), since, id)
  {
    if es != [] {
      var n := |es| - 1;
      assert forall i | 0 <= i < n :: es[..n][i] == es[i];
      SilenceShows(es[..n], timeout, since, id);
      var s, t := Run(EMPTY, es[..n], timeout), Run(EMPTY, es, timeout);
      assert Mentions(es[n], id) ==> es[n].At() <= since;
      if es[n].Land? && es[n].index < |s.pending| {
        assert s.pending[es[n].index] in s.pending;
      }
    }
  }

  /** At a pass that comes `timeout` after the last request, a silent instance leaves its bucket, and leaves the flat index unless it is spoiled. */
  lemma TheTickThatReaps(es: seq<Event>, timeout: int, lag: int, since: int, revision: string, id: string)
    requires es != [] && es[|es| - 1].Reap? && es[|es| - 1].At() >= since + timeout
    requires lag <= timeout
    requires TimedRun(EMPTY, es, timeout, lag) && OrderlyRun(EMPTY, es, timeout, revision, id)
    requires SilentSince(es, since, id)
    ensures Unreachable(Run(EMPTY, es, timeout), id)
    ensures id !in Run(EMPTY, es, timeout).flat <==> !Spoiled(EMPTY, es, timeout, id)
  {
    var n := |es| - 1;
    var init, now := es[..n], es[n].At();
    var s := Run(EMPTY, init, timeout);
    OrderlyPrefix(EMPTY, es, timeout, revision, id, n);
    assert forall i | 0 <= i < n :: init[i] == es[i];
    SilenceShows(init, timeout, since, id);
    RunKeepsAccount(init, timeout, revision, id);
    RunKeepsAccount(es, timeout, revision, id);
    forall w | w in s.pending ensures w.Key() != id {
      assert now < w.Issued() + lag;
    }
    NoneFor(s.pending, id);
    SettleIsLastWrite(s.flat, s.pending, id);
    var t := Run(EMPTY, es, timeout);
    SettleIsLastWrite(t.flat, t.pending, id);
    assert InBucket(t, revision, id).None?;
  }

  /** Whether `id` is spoiled does not change while it is out of reach and not named. */
  lemma {:induction false} UnreachableStaysSpoiled(es: seq<Event>, fs: seq<Event>, timeout: int, id: string)
    requires Unreachable(Run(EMPTY, es, timeout), id)
    requires forall e | e in fs :: !Mentions(e, id)
    ensures Spoiled(EMPTY, es + fs, timeout, id) <==> Spoiled(EMPTY, es, timeout, id)
  {
    if fs == [] {
      assert es + fs == es;
    } else {
      var n := |fs| - 1;
      assert fs[n] in fs;
      UnreachableStaysSpoiled(es, fs[..n], timeout, id);
      assert (es + fs)[..|es + fs| - 1] == es + fs[..n] && (es + fs)[|es + fs| - 1] == fs[n];
      RunConcat(EMPTY, es, fs[..n], timeout);
      UnreachableStays(Run(EMPTY, es, timeout), fs[..n], timeout, id);
    }
  }

  function EndOf(es: seq<Event>): int
    requires es != []
  {
    es[|es| - 1].At()
  }

  /** While the run lasts, a pass comes within `interval` of the start, and within `interval` of every pass. */
  ghost predicate TicksEvery(es: seq<Event>, start: int, interval: int)
    requires es != []
  {
    && (start + interval < EndOf(es) ==> exists j :: 0 <= j < |es| && es[j].Reap? && start <= es[j].At() <= start + interval)
    && (forall i | 0 <= i < |es| && es[i].Reap? && es[i].At() + interval < EndOf(es) ::
          exists j :: i < j < |es| && es[j].Reap? && es[j].At() <= es[i].At() + interval)
  }

  /** With passes `interval` apart, one comes in every window of that length. */
  lemma SomeTickInWindow(es: seq<Event>, start: int, interval: int, from: int) returns (k: nat)
    requires es != [] && TicksEvery(es, start, interval)
    requires forall i, j :: 0 <= i < j < |es| ==> es[i].At() <= es[j].At()
    requires start <= from && from + interval < EndOf(es)
    ensures k < |es| && es[k].Reap? && from <= es[k].At() <= from + interval
  {
    k :| 0 <= k < |es| && es[k].Reap? && start <= es[k].At() <= start + interval;
    while es[k].At() < from
      invariant k < |es| && es[k].Reap? && es[k].At() <= from + interval
      decreases |es| - k
    {
      var next: nat :| k < next < |es| && es[next].Reap? && es[next].At() <= es[k].At() + interval;
      k := next;
    }
  }

  lemma SilentPrefix(es: seq<Event>, since: int, id: string, n: nat)
    requires n <= |es| && SilentSince(es, since, id)
    ensures SilentSince(es[..n], since, id)
  {
    assert forall i | 0 <= i < n :: es[..n][i] == es[i];
  }

  lemma SilentTail(es: seq<Event>, timeout: int, lag: int, since: int, id: string, k: nat)
    requires k < |es| && es[k].At() > since && SilentSince(es, since, id)
    requires TimedRun(EMPTY, es, timeout, lag)
    ensures forall e | e in es[k + 1..] :: !Mentions(e, id)
  {
    forall e | e in es[k + 1..] ensures !Mentions(e, id) {
      var i :| k + 1 <= i < |es| && es[i] == e;
      assert es[k].At() <= es[i].At();
    }
  }

  lemma SilentAtTick(es: seq<Event>, timeout: int, lag: int, since: int, revision: string, id: string, k: nat)
    requires k < |es| && es[k].Reap? && since + timeout <= es[k].At()
    requires lag <= timeout
    requires TimedRun(EMPTY, es, timeout, lag) && OrderlyRun(EMPTY, es, timeout, revision, id)
    requires SilentSince(es, since, id)
    ensures Unreachable(Run(EMPTY, es[..k + 1], timeout), id)
    ensures id !in Run(EMPTY, es[..k + 1], timeout).flat <==> !Spoiled(EMPTY, es[..k + 1], timeout, id)
  {
    TimedPrefix(EMPTY, es, timeout, lag, k + 1);
    OrderlyPrefix(EMPTY, es, timeout, revision, id, k + 1);
    SilentPrefix(es, since, id, k + 1);
    TheTickThatReaps(es[..k + 1], timeout, lag, since, revision, id);
  }

  /** From that tick on nothing changes for the instance. */
  lemma NothingAfter(head: seq<Event>, tail: seq<Event>, timeout: int, id: string)
    requires Unreachable(Run(EMPTY, head, timeout), id)
    requires id !in Run(EMPTY, head, timeout).flat <==> !Spoiled(EMPTY, head, timeout, id)
    requires forall e | e in tail :: !Mentions(e, id)
    ensures Unreachable(Run(EMPTY, head + tail, timeout), id)
    ensures id !in Run(EMPTY, head + tail, timeout).flat <==> !Spoiled(EMPTY, head + tail, timeout, id)
  {
    RunConcat(EMPTY, head, tail, timeout);
    UnreachableStays(Run(EMPTY, head, timeout), tail, timeout, id);
    UnreachableStaysSpoiled(head, tail, timeout, id);
  }

  lemma SilentAfterTick(es: seq<Event>, timeout: int, lag: int, since: int, revision: string, id: string, k: nat)
    requires k < |es| && es[k].Reap? && since + timeout <= es[k].At()
    requires 0 < timeout && lag <= timeout
    requires TimedRun(EMPTY, es, timeout, lag) && OrderlyRun(EMPTY, es, timeout, revision, id)
    requires SilentSince(es, since, id)
    ensures Unreachable(Run(EMPTY, es, timeout), id)
    ensures id !in Run(EMPTY, es, timeout).flat <==> !Spoiled(EMPTY, es, timeout, id)
  {
    var head, tail := es[..k + 1], es[k + 1..];
    assert head + tail == es;
    SilentAtTick(es, timeout, lag, since, revision, id, k);
    SilentTail(es, timeout, lag, since, id, k);
    NothingAfter(head, tail, timeout, id);
  }

  /**
    An instance that no request has named since time `since` is out of its bucket by `since + timeout + interval`.
    It is out of the flat index by then too if and only if it was not spoiled, that is, not struck with a write
    outstanding after it was last posted.
  */
  lemma SilentInstanceIsReaped(es: seq<Event>, timeout: int, interval: int, lag: int, start: int, since: int,
                               revision: string, id: string)
    requires es != [] && 0 < timeout && lag <= timeout && start <= since
    requires TimedRun(EMPTY, es, timeout, lag) && OrderlyRun(EMPTY, es, timeout, revision, id)
    requires TicksEvery(es, start, interval) && SilentSince(es, since, id)
    requires since + timeout + interval < EndOf(es)
    ensures var s := Run(EMPTY, es, timeout);
      && InBucket(s, revision, id).None?
      && (id !in s.flat <==> !Spoiled(EMPTY, es, timeout, id))
  {
    var k := SomeTickInWindow(es, start, interval, since + timeout);
    SilentAfterTick(es, timeout, lag, since, revision, id, k);
  }
}
