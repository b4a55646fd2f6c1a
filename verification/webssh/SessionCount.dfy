// How many live workers one client address can have. The check against maxconn
// counts the entries of one table, and a table that is replaced is not counted.
module SessionCount {
  import opened Options
  import opened SessionState
  import opened SessionTables
  import opened SessionLife
  import opened SessionOverlap
  import opened SessionCap

  function Live(w: World, ip: string): set<string> {
    set id | id in w.conns && w.conns[id].ip == ip && !w.conns[id].closed
  }

  // ----- one address at a time

  /** All entries of tables made for the address are in the table it has, and its live workers are among them. */
  ghost predicate InOrder(k: Rack, ip: string) {
    && (forall n, id | Holds(k, n, id) && k.tables[n].owner == ip :: ip in k.clients && k.clients[ip] == n)
    && (forall id | id in k.who && k.who[id].ip == ip && !k.who[id].closed :: Registered(k, id))
  }

  /** A POST of the address that comes back finds it without a table, or still with the one it captured. */
  predicate GuardedFor(k: Rack, a: Act, ip: string) {
    a.Finishes? && a.post in k.posts && k.posts[a.post].ip == ip && ip in k.clients
    ==> k.clients[ip] == k.posts[a.post].table
  }

  ghost predicate GuardedRunFor(es: seq<Event>, maxconn: int, ip: string) {
    forall i | 0 <= i < |es| ::
      GuardedFor(RackOf(Run(EMPTY, es[..i], maxconn)), ActOf(Run(EMPTY, es[..i], maxconn), es[i], maxconn), ip)
  }

  lemma BeginInOrder(k: Rack, a: Act, ip: string)
    requires a.Begins? && RefsMatch(k) && InOrder(k, ip) && Possible(k, a)
    ensures InOrder(Apply(k, a), ip)
  {
    var t := Apply(k, a);
    assert forall m, x :: Holds(t, m, x) <==> Holds(k, m, x);
    assert forall x | Registered(k, x) :: Registered(t, x);
  }

  lemma FinishInOrder(k: Rack, a: Act, ip: string)
    requires a.Finishes? && RefsMatch(k) && InOrder(k, ip) && Possible(k, a) && GuardedFor(k, a, ip)
    ensures InOrder(Apply(k, a), ip)
  {
    var t := Apply(k, a);
    forall m, x | Holds(t, m, x) && t.tables[m].owner == ip ensures ip in t.clients && t.clients[ip] == m {
      FinishPlaces(k, a, ip, m, x);
    }
    forall x | x in t.who && t.who[x].ip == ip && !t.who[x].closed ensures Registered(t, x) {
      FinishKeepsRegistered(k, a, ip, x);
    }
  }

  lemma FinishPlaces(k: Rack, a: Act, ip: string, m: nat, x: string)
    requires a.Finishes? && RefsMatch(k) && InOrder(k, ip) && Possible(k, a) && GuardedFor(k, a, ip)
    requires Holds(Apply(k, a), m, x) && Apply(k, a).tables[m].owner == ip
    ensures ip in Apply(k, a).clients && Apply(k, a).clients[ip] == m
  {
    var n := k.posts[a.post].table;
    assert forall y :: y in k.tables[n].slots ==> Holds(k, n, y);
    if m != n {
      assert Holds(k, m, x);
    }
  }

  lemma FinishKeepsRegistered(k: Rack, a: Act, ip: string, x: string)
    requires a.Finishes? && RefsMatch(k) && InOrder(k, ip) && Possible(k, a) && GuardedFor(k, a, ip)
    requires x in Apply(k, a).who && Apply(k, a).who[x].ip == ip && !Apply(k, a).who[x].closed
    ensures Registered(Apply(k, a), x)
  {
    var t, n := Apply(k, a), k.posts[a.post].table;
    if x == a.id {
      FinishPlaces(k, a, ip, n, x);
    } else {
      assert Registered(k, x) && Holds(t, k.clients[ip], x);
      FinishPlaces(k, a, ip, k.clients[ip], x);
    }
  }

  lemma TakeInOrder(k: Rack, a: Act, ip: string)
    requires a.Takes? && InOrder(k, ip) && Possible(k, a)
    ensures InOrder(Apply(k, a), ip)
  {
    var t := Apply(k, a);
    TakeKeepsHolds(k, a.ip, a.id);
    forall x | x in t.who && t.who[x].ip == ip && !t.who[x].closed ensures Registered(t, x) {
      assert Registered(k, x);
    }
  }

  lemma ShutInOrder(k: Rack, a: Act, ip: string)
    requires a.Shuts? && RefsMatch(k) && InOrder(k, ip) && Possible(k, a)
    ensures InOrder(Apply(k, a), ip)
  {
    var t := Apply(k, a);
    forall m, x | Holds(t, m, x) && t.tables[m].owner == ip ensures ip in t.clients && t.clients[ip] == m {
      ShutTakesOut(k, a.id, m, x);
    }
    forall x | x in t.who && t.who[x].ip == ip && !t.who[x].closed ensures Registered(t, x) {
      ShutLeavesOthers(k, a.id, x);
    }
  }

  lemma ApplyInOrder(k: Rack, a: Act, ip: string)
    requires Sound(k) && InOrder(k, ip) && Possible(k, a) && GuardedFor(k, a, ip)
    ensures InOrder(Apply(k, a), ip)
  {
    match a {
      case Idle =>
      case Begins(_, _, _) => BeginInOrder(k, a, ip);
      case Drops(_) =>
        assert forall m, x :: Holds(Apply(k, a), m, x) <==> Holds(k, m, x);
        assert forall x | Registered(k, x) :: Registered(Apply(k, a), x);
      case Finishes(_, _) => FinishInOrder(k, a, ip);
      case Takes(_, _) => TakeInOrder(k, a, ip);
      case Shuts(_) => ShutInOrder(k, a, ip);
    }
  }

  lemma {:induction false} GuardedRunInOrder(es: seq<Event>, maxconn: int, ip: string)
    requires GuardedRunFor(es, maxconn, ip)
    ensures InOrder(RackOf(Run(EMPTY, es, maxconn)), ip)
  {
    if es != [] {
      var init, e := es[..|es| - 1], es[|es| - 1];
      var w := Run(EMPTY, init, maxconn);
      assert forall i | 0 <= i < |init| :: init[..i] == es[..i] && init[i] == es[i];
      GuardedRunInOrder(init, maxconn, ip);
      EveryRunIsSound(init, maxconn);
      StepActs(w, e, maxconn);
      ApplyInOrder(RackOf(w), ActOf(w, e, maxconn), ip);
    }
  }

  /**
    As long as every POST of an address that comes back finds the address without a table or with the one it captured,
    the cap on its tables is a cap on its live workers, whatever other addresses do.
  */
  lemma GuardedWorkersAreCapped(es: seq<Event>, maxconn: int, ip: string, width: nat)
    requires GuardedRunFor(es, maxconn, ip) && AtMostTogether(es, maxconn, ip, width)
    ensures |Live(Run(EMPTY, es, maxconn), ip)| <= Limit(maxconn, width)
  {
    var w := Run(EMPTY, es, maxconn);
    var k := RackOf(w);
    GuardedRunInOrder(es, maxconn, ip);
    EveryRunIsSound(es, maxconn);
    TablesAreCapped(es, maxconn, ip, width);
    forall id | id in Live(w, ip) ensures Registered(k, id) {
      assert k.who[id] == StandingOf(w.conns[id]);
    }
    if ip in w.clients {
      var slots := w.tables[w.clients[ip]].slots;
      assert k.tables[k.clients[ip]].owner == ip;
      SubsetSize(Live(w, ip), slots.Keys);
      assert |slots| == |slots.Keys|;
    } else {
      assert Live(w, ip) == {};
    }
  }

  // ----- without the guard there is no cap at all

  ghost function Evens(n: nat): set<string> {
    set i | 0 <= i < n :: IdOf(2 * i)
  }

  lemma {:induction false} EvensAreDistinct(n: nat)
    ensures |Evens(n)| == n && Evens(n + 1) == Evens(n) + {IdOf(2 * n)}
    ensures forall id | id in Evens(n) :: |id| < 2 * n
  {
    assert Evens(n + 1) == Evens(n) + {IdOf(2 * n)} by {
      forall id ensures id in Evens(n + 1) <==> id in Evens(n) + {IdOf(2 * n)} {
        if id in Evens(n + 1) {
          var i :| 0 <= i < n + 1 && id == IdOf(2 * i);
        }
      }
    }
    if n > 0 {
      EvensAreDistinct(n - 1);
    }
  }

  /** `n` workers of the address are alive and claimed, and everything the next round numbers is still free. */
  ghost predicate Piled(w: World, ip: string, n: nat) {
    (forall id | id in w.conns :: |id| < 2 * n)
    && Live(w, ip) == Evens(n) && forall id | id in Evens(n) :: w.conns[id].claimed
  }

  ghost predicate Resting(w: World, ip: string, n: nat) {
    Piled(w, ip, n) && w.clients == map[] && w.posts == map[] && forall t | t in w.tables :: t < 2 * n
  }

  /** Two POSTs wait, each with a table of its own. */
  ghost predicate BothWait(w: World, ip: string, n: nat) {
    && Piled(w, ip, n) && w.clients == map[]
    && w.posts == map[0 := Post(ip, 2 * n), 1 := Post(ip, 2 * n + 1)]
    && (forall t | t in w.tables :: t < 2 * n + 2)
    && 2 * n in w.tables && w.tables[2 * n].slots == map[]
    && 2 * n + 1 in w.tables && w.tables[2 * n + 1].slots == map[]
  }

  lemma TheyBegin(w: World, ip: string, n: nat)
    requires Resting(w, ip, n)
    ensures BothWait(Begin(Begin(w, 0, ip, 2 * n), 1, ip, 2 * n + 1), ip, n)
  {
    var t := Begin(Begin(w, 0, ip, 2 * n), 1, ip, 2 * n + 1);
    assert t.conns == w.conns && Live(t, ip) == Live(w, ip);
  }

  /** The first POST is back and its worker claimed; the second one still waits with the other table. */
  ghost predicate OneWaits(w: World, ip: string, n: nat) {
    && (forall id | id in w.conns :: |id| < 2 * n + 1)
    && Live(w, ip) == Evens(n + 1) && (forall id | id in Evens(n + 1) :: w.conns[id].claimed)
    && w.clients == map[ip := 2 * n] && w.posts == map[1 := Post(ip, 2 * n + 1)]
    && (forall t | t in w.tables :: t < 2 * n + 2)
    && 2 * n in w.tables
    && 2 * n + 1 in w.tables && w.tables[2 * n + 1].slots == map[]
  }

  lemma FirstIsIn(w: World, ip: string, n: nat)
    requires BothWait(w, ip, n)
    ensures var t := Finish(w, 0, IdOf(2 * n)); Claims(t, ip, IdOf(2 * n)) && OneWaits(TakeSlot(t, ip, IdOf(2 * n)), ip, n)
  {
    var a := IdOf(2 * n);
    FirstFinishes(w, ip, n);
    FirstIsPiled(w, ip, n, TakeSlot(Finish(w, 0, a), ip, a));
  }

  lemma FirstFinishes(w: World, ip: string, n: nat)
    requires BothWait(w, ip, n)
    ensures var a := IdOf(2 * n);
      var t := Finish(w, 0, a);
      && Claims(t, ip, a)
      && var u := TakeSlot(t, ip, a);
      && u.conns == w.conns[a := Claimed(NewConn(ip))]
      && u.clients == map[ip := 2 * n] && u.posts == map[1 := Post(ip, 2 * n + 1)]
      && u.tables.Keys == w.tables.Keys && u.tables[2 * n + 1] == w.tables[2 * n + 1]
  {
    assert Finish(w, 0, IdOf(2 * n)).posts == map[1 := Post(ip, 2 * n + 1)];
  }

  lemma FirstIsPiled(w: World, ip: string, n: nat, u: World)
    requires Piled(w, ip, n) && u.conns == w.conns[IdOf(2 * n) := Claimed(NewConn(ip))]
    ensures forall id | id in u.conns :: |id| < 2 * n + 1
    ensures Live(u, ip) == Evens(n + 1) && forall id | id in Evens(n + 1) :: u.conns[id].claimed
  {
    EvensAreDistinct(n);
    assert Live(u, ip) == Live(w, ip) + {IdOf(2 * n)};
  }

  /** The second POST replaces the table, and its own worker goes again: the first worker is counted nowhere. */
  lemma SecondReplaces(w: World, ip: string, n: nat)
    requires OneWaits(w, ip, n)
    ensures var b := IdOf(2 * n + 1);
      var t := Finish(w, 1, b);
      b in t.conns && Resting(Close(Recycled(t, b), b), ip, n + 1)
  {
    var b := IdOf(2 * n + 1);
    var t := Finish(w, 1, b);
    var c := NewConn(ip).(recycled := true);
    var r := Recycled(t, b);
    assert r.conns == w.conns[b := c] && r.clients == map[ip := 2 * n + 1] && r.tables[2 * n + 1].slots == map[b := Free];
    var u := Close(r, b);
    assert u.conns == w.conns[b := CountRemoval(Hangup(c))];
    assert u.tables[2 * n + 1].slots == map[];
    assert Live(u, ip) == Live(w, ip);
  }

  // ----- the run

  /** One more event, after which no POST but 0 and 1 waits. */
  lemma OneMore(es: seq<Event>, e: Event, maxconn: int, ip: string) returns (fs: seq<Event>)
    requires AtMostTogether(es, maxconn, ip, 2) && Step(Run(EMPTY, es, maxconn), e, maxconn).posts.Keys <= {0, 1}
    ensures AtMostTogether(fs, maxconn, ip, 2) && Run(EMPTY, fs, maxconn) == Step(Run(EMPTY, es, maxconn), e, maxconn)
  {
    fs := es + [e];
    assert fs[..|fs| - 1] == es;
    SubsetSize(InFlight(RackOf(Run(EMPTY, fs, maxconn)), ip), {0, 1});
    TogetherSnoc(es, e, maxconn, ip, 2);
  }

  lemma TwoMore(es: seq<Event>, e: Event, f: Event, maxconn: int, ip: string) returns (fs: seq<Event>)
    requires AtMostTogether(es, maxconn, ip, 2)
    requires var t := Step(Run(EMPTY, es, maxconn), e, maxconn);
      t.posts.Keys <= {0, 1} && Step(t, f, maxconn).posts.Keys <= {0, 1}
    ensures AtMostTogether(fs, maxconn, ip, 2)
    ensures Run(EMPTY, fs, maxconn) == Step(Step(Run(EMPTY, es, maxconn), e, maxconn), f, maxconn)
  {
    fs := OneMore(es, e, maxconn, ip);
    fs := OneMore(fs, f, maxconn, ip);
  }

  lemma OpeningSteps(w: World, maxconn: int, ip: string, n: nat)
    requires Resting(w, ip, n)
    ensures var t := Step(w, PostBegin(0, ip, 2 * n), maxconn);
      t == Begin(w, 0, ip, 2 * n) && Step(t, PostBegin(1, ip, 2 * n + 1), maxconn) == Begin(t, 1, ip, 2 * n + 1)
  {
  }

  lemma RoundOpens(es: seq<Event>, maxconn: int, ip: string, n: nat) returns (fs: seq<Event>)
    requires AtMostTogether(es, maxconn, ip, 2) && Resting(Run(EMPTY, es, maxconn), ip, n)
    ensures AtMostTogether(fs, maxconn, ip, 2) && BothWait(Run(EMPTY, fs, maxconn), ip, n)
  {
    OpeningSteps(Run(EMPTY, es, maxconn), maxconn, ip, n);
    TheyBegin(Run(EMPTY, es, maxconn), ip, n);
    fs := TwoMore(es, PostBegin(0, ip, 2 * n), PostBegin(1, ip, 2 * n + 1), maxconn, ip);
  }

  lemma ClaimingSteps(w: World, maxconn: int, ip: string, n: nat)
    requires BothWait(w, ip, n)
    ensures var a := IdOf(2 * n);
      var t := Finish(w, 0, a);
      && Step(w, PostDone(0, a), maxconn) == t
      && Claims(t, ip, a) && Step(t, Claim(ip, a), maxconn) == TakeSlot(t, ip, a)
  {
    FirstFinishes(w, ip, n);
  }

  lemma RoundClaims(es: seq<Event>, maxconn: int, ip: string, n: nat) returns (fs: seq<Event>)
    requires AtMostTogether(es, maxconn, ip, 2) && BothWait(Run(EMPTY, es, maxconn), ip, n)
    ensures AtMostTogether(fs, maxconn, ip, 2) && OneWaits(Run(EMPTY, fs, maxconn), ip, n)
  {
    ClaimingSteps(Run(EMPTY, es, maxconn), maxconn, ip, n);
    FirstIsIn(Run(EMPTY, es, maxconn), ip, n);
    fs := TwoMore(es, PostDone(0, IdOf(2 * n)), Claim(ip, IdOf(2 * n)), maxconn, ip);
  }

  lemma ReplacingSteps(w: World, maxconn: int, ip: string, n: nat)
    requires OneWaits(w, ip, n)
    ensures var b := IdOf(2 * n + 1);
      var t := Finish(w, 1, b);
      && Step(w, PostDone(1, b), maxconn) == t && t.posts == map[]
      && b in t.conns && Step(t, RecycleTimer(b), maxconn) == Close(Recycled(t, b), b)
  {
  }

  lemma RoundReplaces(es: seq<Event>, maxconn: int, ip: string, n: nat) returns (fs: seq<Event>)
    requires AtMostTogether(es, maxconn, ip, 2) && OneWaits(Run(EMPTY, es, maxconn), ip, n)
    ensures AtMostTogether(fs, maxconn, ip, 2) && Resting(Run(EMPTY, fs, maxconn), ip, n + 1)
  {
    ReplacingSteps(Run(EMPTY, es, maxconn), maxconn, ip, n);
    SecondReplaces(Run(EMPTY, es, maxconn), ip, n);
    fs := TwoMore(es, PostDone(1, IdOf(2 * n + 1)), RecycleTimer(IdOf(2 * n + 1)), maxconn, ip);
  }

  lemma Round(es: seq<Event>, maxconn: int, ip: string, n: nat) returns (fs: seq<Event>)
    requires AtMostTogether(es, maxconn, ip, 2) && Resting(Run(EMPTY, es, maxconn), ip, n)
    ensures AtMostTogether(fs, maxconn, ip, 2) && Resting(Run(EMPTY, fs, maxconn), ip, n + 1)
  {
    fs := RoundOpens(es, maxconn, ip, n);
    fs := RoundClaims(fs, maxconn, ip, n);
    fs := RoundReplaces(fs, maxconn, ip, n);
  }

  lemma {:induction false} RoundsPileUp(maxconn: int, ip: string, n: nat) returns (es: seq<Event>)
    ensures AtMostTogether(es, maxconn, ip, 2) && Resting(Run(EMPTY, es, maxconn), ip, n)
  {
    if n == 0 {
      es := NothingYet(maxconn, ip);
    } else {
      es := RoundsPileUp(maxconn, ip, n - 1);
      es := Round(es, maxconn, ip, n - 1);
    }
  }

  lemma NothingYet(maxconn: int, ip: string) returns (es: seq<Event>)
    ensures AtMostTogether(es, maxconn, ip, 2) && Resting(Run(EMPTY, es, maxconn), ip, 0)
  {
    es := [];
    assert InFlight(RackOf(EMPTY), ip) == {} && Live(EMPTY, ip) == {} == Evens(0);
  }

  /** For every maxconn and every n there is a run, never with more than two POSTs of the address in flight, that leaves n workers of it alive and claimed. */
  lemma LiveWorkersAreNotCapped(maxconn: int, ip: string, n: nat) returns (es: seq<Event>)
    ensures AtMostTogether(es, maxconn, ip, 2)
    ensures var w := Run(EMPTY, es, maxconn); |Live(w, ip)| == n && forall id | id in Live(w, ip) :: w.conns[id].claimed
  {
    es := RoundsPileUp(maxconn, ip, n);
    EvensAreDistinct(n);
  }

  // ----- so the cap holds for POSTs that do not overlap, and for no others

  /** A waiting POST of the address has captured the table the address has, if it has one. */
  ghost predicate Waits(k: Rack, ip: string) {
    forall p | p in InFlight(k, ip) :: ip in k.clients ==> k.clients[ip] == k.posts[p].table
  }

  lemma OnlyOne<T>(s: set<T>, x: T, y: T)
    requires |s| <= 1 && x in s && y in s
    ensures x == y
  {
    if x != y {
      SubsetSize({x, y}, s);
    }
  }

  lemma ApplyWaits(k: Rack, a: Act, ip: string)
    requires Possible(k, a) && Waits(k, ip) && |InFlight(k, ip)| <= 1 && |InFlight(Apply(k, a), ip)| <= 1
    ensures Waits(Apply(k, a), ip)
  {
    var t := Apply(k, a);
    forall p | p in InFlight(t, ip) ensures ip in t.clients ==> t.clients[ip] == t.posts[p].table {
      if a.Begins? && a.ip == ip {
        OnlyOne(InFlight(t, ip), p, a.post);
      } else {
        assert p in InFlight(k, ip);
        if a.Finishes? && k.posts[a.post].ip == ip {
          OnlyOne(InFlight(k, ip), p, a.post);
        }
      }
    }
  }

  lemma {:induction false} OneAtATimeWaits(es: seq<Event>, maxconn: int, ip: string)
    requires AtMostTogether(es, maxconn, ip, 1)
    ensures Waits(RackOf(Run(EMPTY, es, maxconn)), ip) && |InFlight(RackOf(Run(EMPTY, es, maxconn)), ip)| <= 1
  {
    assert es[..|es|] == es;
    if es != [] {
      var init, e := es[..|es| - 1], es[|es| - 1];
      var w := Run(EMPTY, init, maxconn);
      assert forall i | 0 <= i <= |init| :: init[..i] == es[..i];
      OneAtATimeWaits(init, maxconn, ip);
      StepActs(w, e, maxconn);
      ApplyWaits(RackOf(w), ActOf(w, e, maxconn), ip);
    }
  }

  /** POSTs of the address that do not overlap always meet the guard, whatever those of other addresses do. */
  lemma OneAtATimeIsGuarded(es: seq<Event>, maxconn: int, ip: string)
    requires AtMostTogether(es, maxconn, ip, 1)
    ensures GuardedRunFor(es, maxconn, ip)
  {
    forall i | 0 <= i < |es|
      ensures GuardedFor(RackOf(Run(EMPTY, es[..i], maxconn)), ActOf(Run(EMPTY, es[..i], maxconn), es[i], maxconn), ip)
    {
      assert forall j | 0 <= j <= i :: es[..i][..j] == es[..j];
      OneAtATimeWaits(es[..i], maxconn, ip);
      var k, a := RackOf(Run(EMPTY, es[..i], maxconn)), ActOf(Run(EMPTY, es[..i], maxconn), es[i], maxconn);
      assert a.Finishes? && a.post in k.posts && k.posts[a.post].ip == ip ==> a.post in InFlight(k, ip);
    }
  }

  /** No run with at most `width` POSTs of the address in flight has more than `bound` live workers of it. */
  ghost predicate LiveWithin(maxconn: int, ip: string, width: nat, bound: nat) {
    forall es | AtMostTogether(es, maxconn, ip, width) :: |Live(Run(EMPTY, es, maxconn), ip)| <= bound
  }

  /** With at most `width` POSTs of an address in flight together, there is a bound on its live workers if and only if `width` is at most 1. */
  lemma LiveWorkersAreCappedExactly(maxconn: int, ip: string, width: nat)
    ensures (exists bound :: LiveWithin(maxconn, ip, width, bound)) <==> width <= 1
    ensures width <= 1 ==> LiveWithin(maxconn, ip, width, Limit(maxconn, width))
  {
    if width <= 1 {
      forall es | AtMostTogether(es, maxconn, ip, width)
        ensures |Live(Run(EMPTY, es, maxconn), ip)| <= Limit(maxconn, width)
      {
        OneAtATimeIsGuarded(es, maxconn, ip);
        GuardedWorkersAreCapped(es, maxconn, ip, width);
      }
      assert LiveWithin(maxconn, ip, width, Limit(maxconn, width));
    } else {
      forall bound: nat ensures !LiveWithin(maxconn, ip, width, bound) {
        var es := LiveWorkersAreNotCapped(maxconn, ip, bound + 1);
        assert AtMostTogether(es, maxconn, ip, width);
      }
    }
  }
}
