// What POSTs of one address that overlap do to the tables, and so exactly when
// clear_worker finds the worker it looks for.
module SessionOverlap {
  import opened Options
  import opened SessionState
  import opened SessionTables
  import opened SessionLife

  /** A POST that comes back finds that its address has no table, or still the one it captured. */
  predicate Guarded(k: Rack, a: Act) {
    a.Finishes? && a.post in k.posts && k.posts[a.post].ip in k.clients
    ==> k.clients[k.posts[a.post].ip] == k.posts[a.post].table
  }

  ghost predicate GuardedRun(es: seq<Event>, maxconn: int) {
    forall i | 0 <= i < |es| ::
      Guarded(RackOf(Run(EMPTY, es[..i], maxconn)), ActOf(Run(EMPTY, es[..i], maxconn), es[i], maxconn))
  }

  ghost predicate Tidy(k: Rack) {
    Sound(k) && Bijection(k) && Cleared(k)
  }

  /** A live worker that the table its address has now does not hold. */
  predicate Stranded(k: Rack, id: string) {
    id in k.who && !k.who[id].closed && !Registered(k, id)
  }

  /** clear_worker has failed already, or is going to when a stranded worker closes. */
  ghost predicate Broken(k: Rack) {
    k.failures > 0 || exists id :: Stranded(k, id)
  }

  // ----- guarded acts

  lemma ShutTidy(k: Rack, id: string)
    requires Tidy(k) && Possible(k, Shuts(id))
    ensures Tidy(Apply(k, Shuts(id)))
  {
    ShutSound(k, id);
    ShutKeepsBijection(k, id);
  }

  lemma FinishTidy(k: Rack, p: nat, id: string)
    requires Tidy(k) && Possible(k, Finishes(p, id)) && Guarded(k, Finishes(p, id))
    ensures Tidy(Apply(k, Finishes(p, id)))
  {
    FinishSound(k, p, id);
    FinishKeepsBijectionExactly(k, p, id);
  }

  lemma ApplyTidy(k: Rack, a: Act)
    requires Tidy(k) && Possible(k, a) && Guarded(k, a)
    ensures Tidy(Apply(k, a))
  {
    ApplySound(k, a);
    match a {
      case Idle =>
      case Begins(p, ip, n) => BeginKeepsBijection(k, p, ip, n);
      case Drops(p) => SameEntries(k, Apply(k, a));
      case Finishes(p, id) => FinishTidy(k, p, id);
      case Takes(ip, id) => TakeKeepsBijection(k, ip, id);
      case Shuts(id) => ShutTidy(k, id);
    }
  }

  // ----- what strands a worker, and what a stranded one stays

  /** A table that has entries is never put back, so a stranded worker stays one until it closes, and then clear_worker fails. */
  lemma StrandedForGood(k: Rack, a: Act, id: string)
    requires Stranded(k, id) && Possible(k, a)
    ensures if a == Shuts(id) then Apply(k, a).failures == k.failures + 1 else Stranded(Apply(k, a), id)
  {
    var t := Apply(k, a);
    if a != Shuts(id) && Registered(t, id) {
      assert a.Finishes? ==> a.id != id;
      assert Holds(k, t.clients[t.who[id].ip], id);
    }
  }

  /** Out of a state in order, a POST that misses the guard puts its table in the place of one that has workers. */
  lemma UnguardedStrands(k: Rack, a: Act)
    requires Tidy(k) && Possible(k, a) && !Guarded(k, a)
    ensures Broken(Apply(k, a))
  {
    var Post(ip, n) := k.posts[a.post];
    var m := k.clients[ip];
    var x :| x in k.tables[m].slots;
    var t := Apply(k, a);
    assert Holds(k, m, x) && forall y :: y in k.tables[n].slots ==> Holds(k, n, y);
    assert k.tables[n].slots == map[] && t.clients[ip] == n;
    assert Stranded(t, x);
  }

  lemma BrokenStays(k: Rack, a: Act)
    requires Broken(k) && Possible(k, a)
    ensures Broken(Apply(k, a))
  {
    if k.failures == 0 {
      var id :| Stranded(k, id);
      StrandedForGood(k, a, id);
    }
  }

  // ----- whole runs

  lemma TidyIsNotBroken(k: Rack)
    requires Tidy(k)
    ensures !Broken(k)
  {
  }

  lemma GuardedSnoc(es: seq<Event>, maxconn: int)
    requires es != []
    ensures var init := es[..|es| - 1];
      var w := Run(EMPTY, init, maxconn);
      GuardedRun(es, maxconn) <==> GuardedRun(init, maxconn) && Guarded(RackOf(w), ActOf(w, es[|es| - 1], maxconn))
  {
    var n := |es| - 1;
    assert forall i | 0 <= i < n :: es[..n][..i] == es[..i] && es[..n][i] == es[i];
  }

  lemma ApplyTidyOrBroken(k: Rack, a: Act, tidy: bool)
    requires Possible(k, a) && if tidy then Tidy(k) else Broken(k)
    ensures if tidy && Guarded(k, a) then Tidy(Apply(k, a)) else Broken(Apply(k, a))
  {
    if !tidy {
      BrokenStays(k, a);
    } else if Guarded(k, a) {
      ApplyTidy(k, a);
    } else {
      UnguardedStrands(k, a);
    }
  }

  lemma {:induction false} RunsAreTidyOrBroken(es: seq<Event>, maxconn: int)
    ensures var k := RackOf(Run(EMPTY, es, maxconn));
      if GuardedRun(es, maxconn) then Tidy(k) else Broken(k)
  {
    if es != [] {
      var init, e := es[..|es| - 1], es[|es| - 1];
      var w := Run(EMPTY, init, maxconn);
      GuardedSnoc(es, maxconn);
      RunsAreTidyOrBroken(init, maxconn);
      StepActs(w, e, maxconn);
      ApplyTidyOrBroken(RackOf(w), ActOf(w, e, maxconn), GuardedRun(init, maxconn));
    }
  }

  /** Whatever overlaps, a run is in order if and only if all its POSTs meet the guard, and broken for good from the first that does not. */
  lemma RunsBreakExactly(es: seq<Event>, maxconn: int)
    ensures var k := RackOf(Run(EMPTY, es, maxconn));
      (GuardedRun(es, maxconn) <==> Tidy(k)) && (Broken(k) <==> !Tidy(k))
  {
    RunsAreTidyOrBroken(es, maxconn);
    var k := RackOf(Run(EMPTY, es, maxconn));
    if Tidy(k) {
      TidyIsNotBroken(k);
    }
  }

  /** The event that has the worker close now, if it is still alive: its recycle timer if no websocket has it, else the end of the websocket. */
  function Closing(w: World, id: string): Event
    requires id in w.conns
  {
    if w.conns[id].claimed then Shut(id) else RecycleTimer(id)
  }

  /**
    The assertion in clear_worker, exactly: it has not failed in a run, and will not fail whichever worker closes
    next, if and only if every POST that came back found its address without a table, or with the one it captured.
  */
  lemma ClearWorkerFailsExactly(es: seq<Event>, maxconn: int)
    ensures GuardedRun(es, maxconn)
       <==> var w := Run(EMPTY, es, maxconn);
            w.failures == 0 && forall id | id in w.conns :: Step(w, Closing(w, id), maxconn).failures == 0
  {
    var w := Run(EMPTY, es, maxconn);
    RunsBreakExactly(es, maxconn);
    EveryRunIsHealthy(es, maxconn);
    if GuardedRun(es, maxconn) {
      forall id | id in w.conns ensures Step(w, Closing(w, id), maxconn).failures == 0 {
        ClosingActs(w, id, maxconn);
      }
    } else if w.failures == 0 {
      var id :| Stranded(RackOf(w), id);
      ClosingActs(w, id, maxconn);
    }
  }

  /** A live worker's closing fails exactly if the worker is stranded; for a closed one nothing more happens. */
  lemma ClosingActs(w: World, id: string, maxconn: int)
    requires AllHealthy(w) && id in w.conns
    ensures Step(w, Closing(w, id), maxconn).failures == w.failures + if Stranded(RackOf(w), id) then 1 else 0
  {
    StepActs(w, Closing(w, id), maxconn);
  }

  /** While every POST that comes back meets the guard, the slot shows the stage: the worker while it is offered, None while a handler holds it, no entry before and after. */
  lemma SlotShowsStage(es: seq<Event>, maxconn: int, id: string)
    requires GuardedRun(es, maxconn)
    ensures var w := Run(EMPTY, es, maxconn);
      id in w.conns ==> SlotOf(w, w.conns[id].ip, id) == SlotFor(StageOf(w, id))
  {
    RunsBreakExactly(es, maxconn);
    var w := Run(EMPTY, es, maxconn);
    var k := RackOf(w);
    if id in w.conns {
      var ip := w.conns[id].ip;
      assert k.who[id] == StandingOf(w.conns[id]);
      if StageOf(w, id) == Gone {
        assert ip in w.clients ==> !Holds(k, w.clients[ip], id);
      } else {
        assert Registered(k, id) && Holds(k, w.clients[ip], id);
      }
    }
  }

  /** POSTs that do not overlap always meet the guard. */
  lemma SerialRunsAreGuarded(es: seq<Event>, maxconn: int)
    requires SerialRun(es, maxconn)
    ensures GuardedRun(es, maxconn)
  {
    forall i | 0 <= i < |es|
      ensures Guarded(RackOf(Run(EMPTY, es[..i], maxconn)), ActOf(Run(EMPTY, es[..i], maxconn), es[i], maxconn))
    {
      assert forall j | 0 <= j < i :: es[..i][..j] == es[..j] && es[..i][j] == es[j];
      SerialRunsAreOrderly(es[..i], maxconn);
    }
  }

  /** Two POSTs that overlap on a new address: the second one's table replaces the first one's, and the assertion fails when the first worker is recycled. */
  lemma OverlapBreaksClear(ip: string, a: string, b: string, maxconn: int)
    requires a != b
    ensures var es := [PostBegin(0, ip, 0), PostBegin(1, ip, 1), PostDone(0, a), PostDone(1, b), RecycleTimer(a)];
      Run(EMPTY, es, maxconn).failures == 1
  {
    var es := [PostBegin(0, ip, 0), PostBegin(1, ip, 1), PostDone(0, a), PostDone(1, b), RecycleTimer(a)];
    assert es[..4][..3] == es[..3] && es[..3][..2] == es[..2] && es[..2][..1] == es[..1] && es[..1][..0] == [];
    var waiting := Run(EMPTY, es[..2], maxconn);
    assert Run(EMPTY, es[..1], maxconn) == Begin(EMPTY, 0, ip, 0);
    assert waiting == Begin(Begin(EMPTY, 0, ip, 0), 1, ip, 1);
    var first := Finish(waiting, 0, a);
    assert Run(EMPTY, es[..3], maxconn) == first;
    var both := Finish(first, 1, b);
    assert Run(EMPTY, es[..4], maxconn) == both;
    assert both.clients[ip] == 1 && a !in both.tables[1].slots;
    assert Step(both, RecycleTimer(a), maxconn).failures == 1;
  }
}
