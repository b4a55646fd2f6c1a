// The tables of workers: who is in which, in every run and in runs where the
// POSTs of one client address do not overlap.
module SessionTables {
  import opened Options
  import opened SessionState

  // ----- the part of the world the tables depend on

  datatype Standing = Standing(ip: string, claimed: bool, closed: bool, removals: nat)

  datatype Rack = Rack(
    tables: map<nat, Table>, clients: map<string, nat>, posts: map<nat, Post>, who: map<string, Standing>, failures: nat)

  function StandingOf(c: Conn): Standing {
    Standing(c.ip, c.claimed, c.closed, c.tally.entryRemovals)
  }

  function RackOf(w: World): Rack {
    Rack(w.tables, w.clients, w.posts, map id | id in w.conns :: StandingOf(w.conns[id]), w.failures)
  }

  /** What an event does to the rack. */
  datatype Act = Idle | Begins(post: nat, ip: string, spare: nat) | Drops(post: nat) | Finishes(post: nat, id: string)
               | Takes(ip: string, id: string) | Shuts(id: string)

  function TableFor(k: Rack, ip: string): Option<nat> {
    if ip in k.clients && k.clients[ip] in k.tables then Some(k.clients[ip]) else None
  }

  predicate Holds(k: Rack, n: nat, id: string) {
    n in k.tables && id in k.tables[n].slots
  }

  /** The table that `clients` has for the worker's address has the worker. */
  predicate Registered(k: Rack, id: string) {
    id in k.who && TableFor(k, k.who[id].ip).Some? && Holds(k, TableFor(k, k.who[id].ip).value, id)
  }

  predicate Possible(k: Rack, a: Act) {
    match a
    case Idle => true
    case Begins(p, _, n) => p !in k.posts && n !in k.tables
    case Drops(p) => p in k.posts
    case Finishes(p, id) => p in k.posts && k.posts[p].table in k.tables && id !in k.who
    case Takes(ip, id) =>
      TableFor(k, ip).Some? && Holds(k, TableFor(k, ip).value, id)
      && k.tables[TableFor(k, ip).value].slots[id] == Free && id in k.who
    case Shuts(id) => id in k.who && !k.who[id].closed
  }

  function WithSlots(k: Rack, n: nat, slots: map<string, Slot>): map<nat, Table>
    requires n in k.tables
  {
    k.tables[n := Table(k.tables[n].owner, slots)]
  }

  function Apply(k: Rack, a: Act): Rack
    requires Possible(k, a)
  {
    match a
    case Idle => k
    case Begins(p, ip, n) =>
      if ip in k.clients then k.(posts := k.posts[p := Post(ip, k.clients[ip])])
      else k.(posts := k.posts[p := Post(ip, n)], tables := k.tables[n := Table(ip, map[])])
    case Drops(p) => k.(posts := k.posts - {p})
    case Finishes(p, id) =>
      var Post(ip, n) := k.posts[p];
      k.(tables := WithSlots(k, n, k.tables[n].slots[id := Free]), posts := k.posts - {p},
         clients := if k.tables[n].slots == map[] then k.clients[ip := n] else k.clients,
         who := k.who[id := Standing(ip, false, false, 0)])
    case Takes(ip, id) =>
      var n := TableFor(k, ip).value;
      k.(tables := WithSlots(k, n, k.tables[n].slots[id := Taken]), who := k.who[id := k.who[id].(claimed := true)])
    case Shuts(id) =>
      var s := k.who[id].(closed := true);
      if !Registered(k, id) then k.(who := k.who[id := s], failures := k.failures + 1)
      else
        var n := TableFor(k, s.ip).value;
        var slots := k.tables[n].slots - {id};
        k.(tables := WithSlots(k, n, slots), who := k.who[id := s.(removals := s.removals + 1)],
           clients := if slots == map[] then k.clients - {s.ip} else k.clients)
  }

  /** The act behind an event. */
  function ActOf(w: World, e: Event, maxconn: int): Act {
    if !Enabled(w, e) then Idle
    else
      match e
      case PostBegin(p, ip, n) => if TooMany(w, ip, maxconn) then Idle else Begins(p, ip, n)
      case PostFailed(p) => Drops(p)
      case PostDone(p, id) => Finishes(p, id)
      case Claim(ip, id) => if Claims(w, ip, id) then Takes(ip, id) else Idle
      case RecycleTimer(id) => if w.conns[id].claimed || w.conns[id].closed then Idle else Shuts(id)
      case Shut(id) => if w.conns[id].closed then Idle else Shuts(id)
      case ChanLost(_) => Idle
      case Message(id, data, r) => if !w.conns[id].closed && WriteCloses(Queue(w.conns[id], data), r) then Shuts(id) else Idle
      case RetryTimer(id, r) => if !w.conns[id].closed && WriteCloses(w.conns[id], r) then Shuts(id) else Idle
      case Writable(id, r) => if WriteCloses(w.conns[id], r) then Shuts(id) else Idle
  }

  lemma SameRack(w: World, id: string, c: Conn)
    requires id in w.conns && StandingOf(c) == StandingOf(w.conns[id])
    ensures RackOf(w.(conns := w.conns[id := c])) == RackOf(w)
  {
  }

  lemma CloseIsShuts(w: World, id: string)
    requires id in w.conns && !w.conns[id].closed
    ensures Possible(RackOf(w), Shuts(id)) && RackOf(Close(w, id)) == Apply(RackOf(w), Shuts(id))
  {
    var k, t := RackOf(w), Close(w, id);
    assert RackOf(t).who == Apply(k, Shuts(id)).who;
  }

  lemma WriteActs(w: World, id: string, c: Conn, r: Send)
    requires id in w.conns && CanSend(c, r) && StandingOf(c) == StandingOf(w.conns[id])
    ensures var a := if !c.closed && WriteCloses(c, r) then Shuts(id) else Idle;
      Possible(RackOf(w), a) && RackOf(Write(w, id, c, r)) == Apply(RackOf(w), a)
  {
    var w' := w.(conns := w.conns[id := OnWrite(c, r)]);
    SameRack(w, id, OnWrite(c, r));
    if !c.closed && WriteCloses(c, r) {
      CloseIsShuts(w', id);
    }
  }

  lemma StepActs(w: World, e: Event, maxconn: int)
    ensures var a := ActOf(w, e, maxconn);
      Possible(RackOf(w), a) && RackOf(Step(w, e, maxconn)) == Apply(RackOf(w), a)
  {
    if Enabled(w, e) {
      match e {
        case PostBegin(p, ip, n) =>
        case PostFailed(p) =>
        case PostDone(p, id) => FinishActs(w, p, id);
        case Claim(ip, id) => if Claims(w, ip, id) { TakeActs(w, ip, id); }
        case RecycleTimer(id) => RecycleActs(w, id, maxconn);
        case Shut(id) => if !w.conns[id].closed { CloseIsShuts(w, id); }
        case ChanLost(id) => SameRack(w, id, w.conns[id].(chanDown := true));
        case Message(id, data, r) => MessageActs(w, id, data, r, maxconn);
        case RetryTimer(id, r) => WriteActs(w, id, Fired(w.conns[id]), r);
        case Writable(id, r) => WriteActs(w, id, w.conns[id], r);
      }
    }
  }

  lemma MessageActs(w: World, id: string, data: string, r: Send, maxconn: int)
    requires Enabled(w, Message(id, data, r))
    ensures var e := Message(id, data, r);
      Possible(RackOf(w), ActOf(w, e, maxconn)) && RackOf(Step(w, e, maxconn)) == Apply(RackOf(w), ActOf(w, e, maxconn))
  {
    if !w.conns[id].closed {
      JoinSnoc(w.conns[id].pending, data);
      WriteActs(w, id, Queue(w.conns[id], data), r);
    }
  }

  lemma RecycleActs(w: World, id: string, maxconn: int)
    requires Enabled(w, RecycleTimer(id))
    ensures var e := RecycleTimer(id);
      Possible(RackOf(w), ActOf(w, e, maxconn)) && RackOf(Step(w, e, maxconn)) == Apply(RackOf(w), ActOf(w, e, maxconn))
  {
    var c := w.conns[id].(recycled := true);
    SameRack(w, id, c);
    if !c.claimed && !c.closed {
      CloseIsShuts(Recycled(w, id), id);
    }
  }

  lemma FinishActs(w: World, p: nat, id: string)
    requires Enabled(w, PostDone(p, id))
    ensures RackOf(Finish(w, p, id)) == Apply(RackOf(w), Finishes(p, id))
  {
    assert RackOf(Finish(w, p, id)).who == Apply(RackOf(w), Finishes(p, id)).who;
  }

  lemma TakeActs(w: World, ip: string, id: string)
    requires Claims(w, ip, id)
    ensures Possible(RackOf(w), Takes(ip, id)) && RackOf(TakeSlot(w, ip, id)) == Apply(RackOf(w), Takes(ip, id))
  {
    assert RackOf(TakeSlot(w, ip, id)).who == Apply(RackOf(w), Takes(ip, id)).who;
  }

  // ----- every run

  /** Every table entry belongs to a worker of that table's address, and is None exactly if the worker has a handler. */
  ghost predicate EntriesMatch(k: Rack) {
    forall n, id | Holds(k, n, id) ::
      id in k.who && k.who[id].ip == k.tables[n].owner && (k.tables[n].slots[id] == Taken <==> k.who[id].claimed)
  }

  ghost predicate OneTableEach(k: Rack) {
    forall n, m, id | Holds(k, n, id) && Holds(k, m, id) :: n == m
  }

  /** Addresses and waiting POSTs refer to tables made for them. */
  ghost predicate RefsMatch(k: Rack) {
    && (forall p | p in k.posts :: k.posts[p].table in k.tables && k.tables[k.posts[p].table].owner == k.posts[p].ip)
    && (forall ip | ip in k.clients :: k.clients[ip] in k.tables && k.tables[k.clients[ip]].owner == ip)
  }

  /** The tables in `clients` hold live workers only. */
  ghost predicate LiveEntries(k: Rack) {
    forall ip, id | ip in k.clients && Holds(k, k.clients[ip], id) :: id in k.who && !k.who[id].closed
  }

  ghost predicate Sound(k: Rack) {
    EntriesMatch(k) && OneTableEach(k) && RefsMatch(k) && LiveEntries(k)
  }

  lemma FinishSound(k: Rack, p: nat, id: string)
    requires Sound(k) && Possible(k, Finishes(p, id))
    ensures Sound(Apply(k, Finishes(p, id)))
  {
    var t, n := Apply(k, Finishes(p, id)), k.posts[p].table;
    assert forall m, x :: Holds(t, m, x) <==> Holds(k, m, x) || (m == n && x == id);
    assert forall m :: !Holds(k, m, id);
  }

  lemma TakeSound(k: Rack, ip: string, id: string)
    requires Sound(k) && Possible(k, Takes(ip, id))
    ensures Sound(Apply(k, Takes(ip, id)))
  {
    var t := Apply(k, Takes(ip, id));
    assert forall m, x :: Holds(t, m, x) <==> Holds(k, m, x);
  }

  lemma ShutSound(k: Rack, id: string)
    requires Sound(k) && Possible(k, Shuts(id))
    ensures Sound(Apply(k, Shuts(id)))
  {
    ShutLeavesEntries(k, id);
    ShutLeavesRefs(k, id);
    ShutLeavesClients(k, id);
  }

  /** Closing takes entries out and changes none. */
  lemma ShutTakesOut(k: Rack, id: string, n: nat, x: string)
    requires Possible(k, Shuts(id)) && Holds(Apply(k, Shuts(id)), n, x)
    ensures Holds(k, n, x) && Apply(k, Shuts(id)).tables[n].slots[x] == k.tables[n].slots[x]
    ensures Apply(k, Shuts(id)).tables[n].owner == k.tables[n].owner
  {
  }

  lemma ShutLeavesEntries(k: Rack, id: string)
    requires Sound(k) && Possible(k, Shuts(id))
    ensures EntriesMatch(Apply(k, Shuts(id))) && OneTableEach(Apply(k, Shuts(id)))
  {
    var t := Apply(k, Shuts(id));
    forall n, x | Holds(t, n, x)
      ensures x in t.who && t.who[x].ip == t.tables[n].owner && (t.tables[n].slots[x] == Taken <==> t.who[x].claimed)
    {
      ShutTakesOut(k, id, n, x);
    }
    forall n, m, x | Holds(t, n, x) && Holds(t, m, x) ensures n == m {
      ShutTakesOut(k, id, n, x);
      ShutTakesOut(k, id, m, x);
    }
  }

  lemma ShutLeavesRefs(k: Rack, id: string)
    requires RefsMatch(k) && Possible(k, Shuts(id))
    ensures RefsMatch(Apply(k, Shuts(id)))
  {
    var t := Apply(k, Shuts(id));
    assert forall m | m in k.tables :: m in t.tables && t.tables[m].owner == k.tables[m].owner;
  }

  /** Whoever closes is in no table of `clients` afterwards. */
  lemma ShutLeavesClients(k: Rack, id: string)
    requires Sound(k) && Possible(k, Shuts(id))
    ensures LiveEntries(Apply(k, Shuts(id)))
  {
    var t := Apply(k, Shuts(id));
    forall ip, x | ip in t.clients && Holds(t, t.clients[ip], x) ensures x in t.who && !t.who[x].closed {
      assert t.clients[ip] == k.clients[ip] && Holds(k, k.clients[ip], x);
    }
  }

  lemma BeginSound(k: Rack, p: nat, ip: string, n: nat)
    requires Sound(k) && Possible(k, Begins(p, ip, n))
    ensures Sound(Apply(k, Begins(p, ip, n)))
  {
    var t := Apply(k, Begins(p, ip, n));
    assert forall m, x :: Holds(t, m, x) <==> Holds(k, m, x);
  }

  lemma ApplySound(k: Rack, a: Act)
    requires Sound(k) && Possible(k, a)
    ensures Sound(Apply(k, a))
  {
    match a {
      case Idle =>
      case Begins(p, ip, n) => BeginSound(k, p, ip, n);
      case Drops(p) =>
        var t := Apply(k, a);
        assert forall m, x :: Holds(t, m, x) <==> Holds(k, m, x);
      case Finishes(p, id) => FinishSound(k, p, id);
      case Takes(ip, id) => TakeSound(k, ip, id);
      case Shuts(id) => ShutSound(k, id);
    }
  }

  /** In every run, POSTs overlapping or not: entries stay with their owner, say None exactly for claimed workers, and whoever a websocket can claim is alive. */
  lemma {:induction false} EveryRunIsSound(es: seq<Event>, maxconn: int)
    ensures Sound(RackOf(Run(EMPTY, es, maxconn)))
  {
    if es != [] {
      var w := Run(EMPTY, es[..|es| - 1], maxconn);
      EveryRunIsSound(es[..|es| - 1], maxconn);
      StepActs(w, es[|es| - 1], maxconn);
      ApplySound(RackOf(w), ActOf(w, es[|es| - 1], maxconn));
    }
  }

  /** So the handlers never follow a reference to a table or a worker that is not there. */
  lemma ReferencesResolve(es: seq<Event>, maxconn: int, ip: string)
    ensures Resolves(Run(EMPTY, es, maxconn), ip)
  {
    var w := Run(EMPTY, es, maxconn);
    EveryRunIsSound(es, maxconn);
    if ip in w.clients {
      forall id | id in w.tables[w.clients[ip]].slots ensures id in w.conns {
        assert Holds(RackOf(w), w.clients[ip], id);
      }
    }
  }

  // ----- POSTs that do not overlap

  /** The keys of clients[ip] are exactly the IDs of the live workers of that address, and no address maps to an empty table. */
  ghost predicate Bijection(k: Rack) {
    && (forall ip | ip in k.clients :: k.clients[ip] in k.tables && k.tables[k.clients[ip]].slots != map[])
    && (forall id | id in k.who && !k.who[id].closed :: Registered(k, id))
    && (forall n, id | Holds(k, n, id) :: k.tables[n].owner in k.clients && k.clients[k.tables[n].owner] == n)
  }

  /** A waiting POST captured the table its address has, if it has one, and is the only one of its address. */
  ghost predicate PostsApart(k: Rack) {
    && (forall p | p in k.posts && k.posts[p].ip in k.clients :: k.clients[k.posts[p].ip] == k.posts[p].table)
    && (forall p, q | p in k.posts && q in k.posts && k.posts[p].ip == k.posts[q].ip :: p == q)
  }

  /** clear_worker has always found the worker it looked for, and took out every closed worker's entry once. */
  ghost predicate Cleared(k: Rack) {
    k.failures == 0 && forall id | id in k.who :: k.who[id].removals == if k.who[id].closed then 1 else 0
  }

  ghost predicate Orderly(k: Rack) {
    Sound(k) && Bijection(k) && PostsApart(k) && Cleared(k)
  }

  /** A POST begins only while no other POST of its address waits. */
  ghost predicate Serial(k: Rack, a: Act) {
    a.Begins? ==> forall p | p in k.posts :: k.posts[p].ip != a.ip
  }

  /** Nothing but an empty table may have been added. */
  lemma SameEntries(k: Rack, t: Rack)
    requires Bijection(k) && t.who == k.who && t.clients == k.clients
    requires forall m | m in k.tables :: m in t.tables && t.tables[m] == k.tables[m]
    requires forall m, x | Holds(t, m, x) :: Holds(k, m, x)
    ensures Bijection(t)
  {
    assert forall x | Registered(k, x) :: Registered(t, x);
  }

  lemma BeginOrderly(k: Rack, p: nat, ip: string, n: nat)
    requires Orderly(k) && Possible(k, Begins(p, ip, n)) && Serial(k, Begins(p, ip, n))
    ensures Orderly(Apply(k, Begins(p, ip, n)))
  {
    BeginSound(k, p, ip, n);
    BeginPostsApart(k, p, ip, n);
    BeginKeepsBijection(k, p, ip, n);
  }

  lemma BeginKeepsBijection(k: Rack, p: nat, ip: string, n: nat)
    requires Bijection(k) && Possible(k, Begins(p, ip, n))
    ensures Bijection(Apply(k, Begins(p, ip, n)))
  {
    SameEntries(k, Apply(k, Begins(p, ip, n)));
  }

  lemma BeginPostsApart(k: Rack, p: nat, ip: string, n: nat)
    requires PostsApart(k) && Possible(k, Begins(p, ip, n)) && Serial(k, Begins(p, ip, n))
    ensures PostsApart(Apply(k, Begins(p, ip, n)))
  {
  }

  lemma FinishOrderly(k: Rack, p: nat, id: string)
    requires Orderly(k) && Possible(k, Finishes(p, id))
    ensures Orderly(Apply(k, Finishes(p, id)))
  {
    FinishSound(k, p, id);
    FinishKeepsBijectionExactly(k, p, id);
    var t := Apply(k, Finishes(p, id));
    assert PostsApart(t);
  }

  lemma TakeOrderly(k: Rack, ip: string, id: string)
    requires Orderly(k) && Possible(k, Takes(ip, id))
    ensures Orderly(Apply(k, Takes(ip, id)))
  {
    TakeSound(k, ip, id);
    TakeKeepsBijection(k, ip, id);
  }

  lemma TakeKeepsBijection(k: Rack, ip: string, id: string)
    requires Bijection(k) && Possible(k, Takes(ip, id))
    ensures Bijection(Apply(k, Takes(ip, id)))
  {
    var t := Apply(k, Takes(ip, id));
    TakeKeepsHolds(k, ip, id);
    assert t.tables[k.clients[ip]].slots[id] == Taken;
    forall x | x in t.who && !t.who[x].closed ensures Registered(t, x) {
      assert Registered(k, x);
    }
  }

  lemma TakeKeepsHolds(k: Rack, ip: string, id: string)
    requires Possible(k, Takes(ip, id))
    ensures var t := Apply(k, Takes(ip, id));
      && t.clients == k.clients
      && (forall m :: m in t.tables <==> m in k.tables)
      && (forall m | m in t.tables :: t.tables[m].owner == k.tables[m].owner)
      && (forall m, x :: Holds(t, m, x) <==> Holds(k, m, x))
  {
  }

  lemma ShutKeepsBijection(k: Rack, id: string)
    requires Sound(k) && Bijection(k) && Possible(k, Shuts(id))
    ensures Registered(k, id) && Bijection(Apply(k, Shuts(id)))
  {
    var t := Apply(k, Shuts(id));
    assert Registered(k, id);
    forall x | x in t.who && !t.who[x].closed ensures Registered(t, x) {
      ShutLeavesOthers(k, id, x);
    }
    forall m, x | Holds(t, m, x) ensures t.tables[m].owner in t.clients && t.clients[t.tables[m].owner] == m {
      ShutTakesOut(k, id, m, x);
    }
  }

  /** A registered worker stays so when another one closes: its own entry keeps the table in `clients`. */
  lemma ShutLeavesOthers(k: Rack, id: string, x: string)
    requires Possible(k, Shuts(id)) && x != id && Registered(k, x)
    ensures Registered(Apply(k, Shuts(id)), x)
  {
    var t, n := Apply(k, Shuts(id)), k.clients[k.who[x].ip];
    assert x in t.tables[n].slots;
  }

  lemma ShutOrderly(k: Rack, id: string)
    requires Orderly(k) && Possible(k, Shuts(id))
    ensures Orderly(Apply(k, Shuts(id)))
  {
    ShutSound(k, id);
    ShutKeepsBijection(k, id);
  }

  lemma ApplyOrderly(k: Rack, a: Act)
    requires Orderly(k) && Possible(k, a) && Serial(k, a)
    ensures Orderly(Apply(k, a))
  {
    match a {
      case Idle =>
      case Begins(p, ip, n) => BeginOrderly(k, p, ip, n);
      case Drops(p) =>
        ApplySound(k, a);
        SameEntries(k, Apply(k, a));
      case Finishes(p, id) => FinishOrderly(k, p, id);
      case Takes(ip, id) => TakeOrderly(k, ip, id);
      case Shuts(id) => ShutOrderly(k, id);
    }
  }

  ghost predicate SerialRun(es: seq<Event>, maxconn: int) {
    forall i | 0 <= i < |es| ::
      Serial(RackOf(Run(EMPTY, es[..i], maxconn)), ActOf(Run(EMPTY, es[..i], maxconn), es[i], maxconn))
  }

  /**
    As long as POSTs of one address do not overlap, after every event the keys of clients[ip] are exactly the live
    workers of that address, no address maps to an empty table, the assertion in clear_worker has never failed, and
    the entry of every closed worker was taken out exactly once.
  */
  lemma {:induction false} SerialRunsAreOrderly(es: seq<Event>, maxconn: int)
    requires SerialRun(es, maxconn)
    ensures Orderly(RackOf(Run(EMPTY, es, maxconn)))
  {
    if es != [] {
      var n := |es| - 1;
      var w := Run(EMPTY, es[..n], maxconn);
      assert forall i | 0 <= i < n :: es[..n][..i] == es[..i] && es[..n][i] == es[i];
      SerialRunsAreOrderly(es[..n], maxconn);
      StepActs(w, es[n], maxconn);
      ApplyOrderly(RackOf(w), ActOf(w, es[n], maxconn));
    }
  }

  /**
    Out of a state where the tables are in order, a POST that comes back keeps them so if and only if its address has
    no table by now, or still has the one the POST captured.
  */
  lemma FinishKeepsBijectionExactly(k: Rack, p: nat, id: string)
    requires Sound(k) && Bijection(k) && Possible(k, Finishes(p, id))
    ensures Bijection(Apply(k, Finishes(p, id)))
       <==> (k.posts[p].ip in k.clients ==> k.clients[k.posts[p].ip] == k.posts[p].table)
  {
    var t := Apply(k, Finishes(p, id));
    var Post(ip, n) := k.posts[p];
    if ip in k.clients && k.clients[ip] != n {
      ReplacedTableBreaks(k, p, id);
    } else {
      FinishKeepsBijection(k, p, id);
    }
  }

  lemma ReplacedTableBreaks(k: Rack, p: nat, id: string)
    requires Sound(k) && Bijection(k) && Possible(k, Finishes(p, id))
    requires k.posts[p].ip in k.clients && k.clients[k.posts[p].ip] != k.posts[p].table
    ensures !Bijection(Apply(k, Finishes(p, id)))
  {
    var t := Apply(k, Finishes(p, id));
    var Post(ip, n) := k.posts[p];
    var m := k.clients[ip];
    var x :| x in k.tables[m].slots;
    assert Holds(t, m, x) && t.tables[m].owner == ip;
    assert forall y :: y in k.tables[n].slots ==> Holds(k, n, y);
    assert k.tables[n].slots == map[];
    assert t.clients[ip] == n;
  }

  lemma FinishKeepsBijection(k: Rack, p: nat, id: string)
    requires Sound(k) && Bijection(k) && Possible(k, Finishes(p, id))
    requires k.posts[p].ip in k.clients ==> k.clients[k.posts[p].ip] == k.posts[p].table
    ensures Bijection(Apply(k, Finishes(p, id)))
  {
    var t := Apply(k, Finishes(p, id));
    FinishPutsBack(k, p, id);
    forall x | x in t.who && !t.who[x].closed ensures Registered(t, x) {
      FinishRegisters(k, p, id, x);
    }
    forall m, x | Holds(t, m, x) ensures t.tables[m].owner in t.clients && t.clients[t.tables[m].owner] == m {
      assert m == k.posts[p].table || Holds(k, m, x);
    }
  }

  /** If the table the POST captured has entries it is the one of its address, so afterwards the address has it in any case. */
  lemma FinishPutsBack(k: Rack, p: nat, id: string)
    requires RefsMatch(k) && Bijection(k) && Possible(k, Finishes(p, id))
    ensures Apply(k, Finishes(p, id)).clients == k.clients[k.posts[p].ip := k.posts[p].table]
  {
    var n := k.posts[p].table;
    assert forall y :: y in k.tables[n].slots ==> Holds(k, n, y);
  }

  lemma FinishRegisters(k: Rack, p: nat, id: string, x: string)
    requires RefsMatch(k) && Bijection(k) && Possible(k, Finishes(p, id))
    requires k.posts[p].ip in k.clients ==> k.clients[k.posts[p].ip] == k.posts[p].table
    requires x == id || Registered(k, x)
    ensures Registered(Apply(k, Finishes(p, id)), x)
  {
    FinishPutsBack(k, p, id);
  }
}
