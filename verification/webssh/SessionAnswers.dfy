// Who is let in: which POSTs are refused for too many connections, and which
// websockets get the worker they ask for, in terms of live workers.
module SessionAnswers {
  import opened Options
  import opened SessionState
  import opened SessionTables
  import opened SessionLife
  import opened SessionOverlap
  import opened SessionCount

  /** The IDs in the table the address has. */
  function TableIds(w: World, ip: string): set<string> {
    if ip in w.clients && w.clients[ip] in w.tables then w.tables[w.clients[ip]].slots.Keys else {}
  }

  // ----- POST

  lemma TooManyExactly(w: World, ip: string, maxconn: int)
    ensures TooMany(w, ip, maxconn) <==> TableIds(w, ip) != {} && |TableIds(w, ip)| >= maxconn
  {
    if ip in w.clients && w.clients[ip] in w.tables {
      var slots := w.tables[w.clients[ip]].slots;
      assert |slots| == |slots.Keys| && (slots == map[] <==> slots.Keys == {});
    }
  }

  /** In every world, a POST that can begin is refused if and only if the table its address has is not empty and has maxconn entries or more, whatever other addresses have. */
  lemma PostIsRefusedExactly(w: World, p: nat, ip: string, n: nat, maxconn: int)
    requires Enabled(w, PostBegin(p, ip, n))
    ensures p !in Step(w, PostBegin(p, ip, n), maxconn).posts <==> TableIds(w, ip) != {} && |TableIds(w, ip)| >= maxconn
    ensures p !in Step(w, PostBegin(p, ip, n), maxconn).posts ==> Step(w, PostBegin(p, ip, n), maxconn) == w
  {
    TooManyExactly(w, ip, maxconn);
  }

  /** While the POSTs of the address meet the guard, its table has exactly its live workers. */
  lemma GuardedTableIsLive(es: seq<Event>, maxconn: int, ip: string)
    requires GuardedRunFor(es, maxconn, ip)
    ensures TableIds(Run(EMPTY, es, maxconn), ip) == Live(Run(EMPTY, es, maxconn), ip)
  {
    var w := Run(EMPTY, es, maxconn);
    var k := RackOf(w);
    GuardedRunInOrder(es, maxconn, ip);
    EveryRunIsSound(es, maxconn);
    forall id | id in Live(w, ip) ensures id in TableIds(w, ip) {
      assert k.who[id] == StandingOf(w.conns[id]) && Registered(k, id);
    }
    forall id | id in TableIds(w, ip) ensures id in Live(w, ip) {
      assert Holds(k, k.clients[ip], id) && k.who[id] == StandingOf(w.conns[id]);
    }
  }

  /** In every run whose POSTs of the address met the guard: the next one is refused if and only if the address has live workers, and maxconn of them or more, whatever other addresses do. */
  lemma GuardedPostIsRefusedExactly(es: seq<Event>, p: nat, ip: string, n: nat, maxconn: int)
    requires GuardedRunFor(es, maxconn, ip) && Enabled(Run(EMPTY, es, maxconn), PostBegin(p, ip, n))
    ensures var w := Run(EMPTY, es, maxconn);
      p !in Step(w, PostBegin(p, ip, n), maxconn).posts <==> Live(w, ip) != {} && |Live(w, ip)| >= maxconn
  {
    PostIsRefusedExactly(Run(EMPTY, es, maxconn), p, ip, n, maxconn);
    GuardedTableIsLive(es, maxconn, ip);
  }

  // ----- websockets

  /** A worker this websocket may have: it is alive, nobody has claimed it, and it was made for the same address. */
  predicate OfferedTo(w: World, ip: string, id: string) {
    StageOf(w, id) == Offered && w.conns[id].ip == ip
  }

  /** In every run a websocket gets the worker it asks for if and only if the worker is offered to its address and not stranded in a replaced table. */
  lemma ClaimsExactly(es: seq<Event>, maxconn: int, ip: string, id: string)
    ensures var w := Run(EMPTY, es, maxconn); Claims(w, ip, id) <==> OfferedTo(w, ip, id) && !Stranded(RackOf(w), id)
  {
    var w := Run(EMPTY, es, maxconn);
    var k := RackOf(w);
    EveryRunIsSound(es, maxconn);
    if Claims(w, ip, id) {
      assert Holds(k, k.clients[ip], id) && k.who[id] == StandingOf(w.conns[id]);
      assert Registered(k, id);
    }
    if OfferedTo(w, ip, id) && !Stranded(k, id) {
      assert k.who[id] == StandingOf(w.conns[id]) && Registered(k, id);
      assert Holds(k, k.clients[ip], id);
    }
  }

  /** The claim moves that worker from offered to held, and a claim that fails changes nothing. */
  lemma ClaimMovesExactly(es: seq<Event>, maxconn: int, ip: string, id: string)
    ensures var w := Run(EMPTY, es, maxconn);
      var t := Step(w, Claim(ip, id), maxconn);
      && (OfferedTo(w, ip, id) && !Stranded(RackOf(w), id) <==> StageOf(w, id) == Offered && StageOf(t, id) == Held)
      && (t != w ==> StageOf(t, id) == Held)
  {
    ClaimsExactly(es, maxconn, ip, id);
  }

  /** In every run whose POSTs of the address met the guard, exactly the workers offered to it can be claimed, however many it has. */
  lemma GuardedClaimsExactly(es: seq<Event>, maxconn: int, ip: string, id: string)
    requires GuardedRunFor(es, maxconn, ip)
    ensures var w := Run(EMPTY, es, maxconn);
      && (Claims(w, ip, id) <==> OfferedTo(w, ip, id))
      && (OfferedTo(w, ip, id) <==> StageOf(w, id) == Offered && StageOf(Step(w, Claim(ip, id), maxconn), id) == Held)
  {
    ClaimsExactly(es, maxconn, ip, id);
    ClaimMovesExactly(es, maxconn, ip, id);
    GuardedRunInOrder(es, maxconn, ip);
    var w := Run(EMPTY, es, maxconn);
    if OfferedTo(w, ip, id) {
      assert RackOf(w).who[id] == StandingOf(w.conns[id]);
    }
  }
}
