// How many entries a table of workers can come to have when POSTs of its address
// overlap: the check against maxconn is made before the connection is up, and the
// worker added after. How many workers an address can have is another matter.
module SessionCap {
  import opened Options
  import opened SessionState
  import opened SessionTables

  function Holders(k: Rack, n: nat): set<nat> {
    set p | p in k.posts && k.posts[p].table == n
  }

  function InFlight(k: Rack, ip: string): set<nat> {
    set p | p in k.posts && k.posts[p].ip == ip
  }

  /** The most entries a table can come to hold when at most `width` POSTs of an address are in flight together. */
  function Limit(maxconn: int, width: nat): nat {
    if maxconn <= 1 then 1 else maxconn - 1 + width
  }

  /** In the tables made for the address `ip`, a POST that waits counts as the entry it is going to make. */
  ghost predicate WithinLimit(k: Rack, ip: string, limit: nat) {
    forall n | n in k.tables && k.tables[n].owner == ip :: |k.tables[n].slots| + |Holders(k, n)| <= limit
  }

  /** An address is in `clients` only with a table that has an entry. */
  ghost predicate ClientsInUse(k: Rack) {
    forall ip | ip in k.clients :: k.clients[ip] in k.tables && k.tables[k.clients[ip]].slots != map[]
  }

  /** What the check against maxconn lets through. */
  predicate LetsIn(k: Rack, a: Act, maxconn: int) {
    a.Begins? && a.ip in k.clients && k.clients[a.ip] in k.tables ==>
      k.tables[k.clients[a.ip]].slots == map[] || |k.tables[k.clients[a.ip]].slots| < maxconn
  }

  lemma SubsetSize<T>(a: set<T>, b: set<T>)
    requires a <= b
    ensures |a| <= |b|
  {
    assert b == a + (b - a);
  }

  lemma ApplyKeepsInUse(k: Rack, a: Act)
    requires Sound(k) && ClientsInUse(k) && Possible(k, a)
    ensures ClientsInUse(Apply(k, a))
  {
    if a.Finishes? {
      assert a.id in Apply(k, a).tables[k.posts[a.post].table].slots;
    } else if a.Takes? {
      assert a.id in Apply(k, a).tables[k.clients[a.ip]].slots;
    }
  }

  /** A POST that captures the table its address has adds one to those that hold it. */
  lemma SharedTableWithinLimit(k: Rack, a: Act, maxconn: int, width: nat)
    requires a.Begins? && Possible(k, a) && LetsIn(k, a, maxconn) && a.ip in k.clients
    requires RefsMatch(k) && ClientsInUse(k) && |InFlight(Apply(k, a), a.ip)| <= width
    ensures var t, n := Apply(k, a), k.clients[a.ip]; |t.tables[n].slots| + |Holders(t, n)| <= Limit(maxconn, width)
  {
    var t, n := Apply(k, a), k.clients[a.ip];
    assert |k.tables[n].slots| > 0;
    SubsetSize(Holders(t, n), InFlight(t, a.ip));
  }

  lemma OtherTablesUntouched(k: Rack, a: Act, m: nat)
    requires a.Begins? && Possible(k, a) && RefsMatch(k)
    ensures var t := Apply(k, a);
      if m == t.posts[a.post].table then a.ip !in k.clients ==> Holders(t, m) == {a.post}
      else Holders(t, m) == Holders(k, m)
  {
  }

  /** A POST that makes a table of its own is the only one to hold it. */
  lemma OwnTableWithinLimit(k: Rack, a: Act, maxconn: int, width: nat)
    requires a.Begins? && Possible(k, a) && a.ip !in k.clients
    requires RefsMatch(k) && |InFlight(Apply(k, a), a.ip)| <= width
    ensures var t := Apply(k, a); |t.tables[a.spare].slots| + |Holders(t, a.spare)| <= Limit(maxconn, width)
  {
    var t := Apply(k, a);
    OtherTablesUntouched(k, a, a.spare);
    assert a.post in InFlight(t, a.ip) && |InFlight(t, a.ip)| > 0;
  }

  lemma BeginWithinLimit(k: Rack, a: Act, maxconn: int, ip: string, width: nat)
    requires a.Begins? && Possible(k, a) && LetsIn(k, a, maxconn)
    requires RefsMatch(k) && ClientsInUse(k) && WithinLimit(k, ip, Limit(maxconn, width))
    requires |InFlight(Apply(k, a), ip)| <= width
    ensures WithinLimit(Apply(k, a), ip, Limit(maxconn, width))
  {
    var t := Apply(k, a);
    if a.ip == ip && a.ip in k.clients {
      SharedTableWithinLimit(k, a, maxconn, width);
    } else if a.ip == ip {
      OwnTableWithinLimit(k, a, maxconn, width);
    }
    forall m | m in t.tables && t.tables[m].owner == ip && m != t.posts[a.post].table
      ensures |t.tables[m].slots| + |Holders(t, m)| <= Limit(maxconn, width)
    {
      OtherTablesUntouched(k, a, m);
    }
  }

  lemma FinishWithinLimit(k: Rack, a: Act, ip: string, limit: nat)
    requires a.Finishes? && Possible(k, a) && Sound(k) && WithinLimit(k, ip, limit)
    ensures WithinLimit(Apply(k, a), ip, limit)
  {
    var t, n := Apply(k, a), k.posts[a.post].table;
    assert Holders(t, n) == Holders(k, n) - {a.post};
    assert forall m | m != n :: Holders(t, m) == Holders(k, m);
  }

  lemma TakeWithinLimit(k: Rack, a: Act, ip: string, limit: nat)
    requires a.Takes? && Possible(k, a) && WithinLimit(k, ip, limit)
    ensures WithinLimit(Apply(k, a), ip, limit)
  {
    var t, n := Apply(k, a), k.clients[a.ip];
    assert t.tables[n].slots.Keys == k.tables[n].slots.Keys;
    SameSize(k.tables[n].slots, t.tables[n].slots);
    assert forall m :: Holders(t, m) == Holders(k, m);
  }

  lemma ShutWithinLimit(k: Rack, id: string, ip: string, limit: nat)
    requires Possible(k, Shuts(id)) && WithinLimit(k, ip, limit)
    ensures WithinLimit(Apply(k, Shuts(id)), ip, limit)
  {
    ShutShrinks(k, id);
    assert forall m :: Holders(Apply(k, Shuts(id)), m) == Holders(k, m);
  }

  lemma DropWithinLimit(k: Rack, p: nat, ip: string, limit: nat)
    requires Possible(k, Drops(p)) && WithinLimit(k, ip, limit)
    ensures WithinLimit(Apply(k, Drops(p)), ip, limit)
  {
    var t := Apply(k, Drops(p));
    forall n ensures |Holders(t, n)| <= |Holders(k, n)| {
      SubsetSize(Holders(t, n), Holders(k, n));
    }
  }

  lemma ApplyWithinLimit(k: Rack, a: Act, maxconn: int, ip: string, width: nat)
    requires Possible(k, a) && LetsIn(k, a, maxconn)
    requires Sound(k) && ClientsInUse(k) && WithinLimit(k, ip, Limit(maxconn, width))
    requires |InFlight(Apply(k, a), ip)| <= width
    ensures WithinLimit(Apply(k, a), ip, Limit(maxconn, width))
  {
    match a {
      case Idle =>
      case Begins(_, _, _) => BeginWithinLimit(k, a, maxconn, ip, width);
      case Drops(p) => DropWithinLimit(k, p, ip, Limit(maxconn, width));
      case Finishes(_, _) => FinishWithinLimit(k, a, ip, Limit(maxconn, width));
      case Takes(_, _) => TakeWithinLimit(k, a, ip, Limit(maxconn, width));
      case Shuts(id) => ShutWithinLimit(k, id, ip, Limit(maxconn, width));
    }
  }

  lemma SameSize<V>(a: map<string, V>, b: map<string, V>)
    requires a.Keys == b.Keys
    ensures |a| == |b|
  {
    assert |a| == |a.Keys| && |b| == |b.Keys|;
  }

  lemma ShutShrinks(k: Rack, id: string)
    requires Possible(k, Shuts(id))
    ensures var t := Apply(k, Shuts(id));
      forall n | n in t.tables ::
        n in k.tables && t.tables[n].owner == k.tables[n].owner && |t.tables[n].slots| <= |k.tables[n].slots|
  {
    var t := Apply(k, Shuts(id));
    forall n | n in t.tables ensures n in k.tables && |t.tables[n].slots| <= |k.tables[n].slots| {
      SubsetSize(t.tables[n].slots.Keys, k.tables[n].slots.Keys);
      assert |t.tables[n].slots| == |t.tables[n].slots.Keys| && |k.tables[n].slots| == |k.tables[n].slots.Keys|;
    }
  }

  /** At no point do more than `width` POSTs of the address `ip` wait together. */
  ghost predicate AtMostTogether(es: seq<Event>, maxconn: int, ip: string, width: nat) {
    forall i | 0 <= i <= |es| :: |InFlight(RackOf(Run(EMPTY, es[..i], maxconn)), ip)| <= width
  }

  lemma {:induction false} RunKeepsInUse(es: seq<Event>, maxconn: int)
    ensures ClientsInUse(RackOf(Run(EMPTY, es, maxconn)))
  {
    if es != [] {
      var init, e := es[..|es| - 1], es[|es| - 1];
      var w := Run(EMPTY, init, maxconn);
      RunKeepsInUse(init, maxconn);
      EveryRunIsSound(init, maxconn);
      StepActs(w, e, maxconn);
      ApplyKeepsInUse(RackOf(w), ActOf(w, e, maxconn));
    }
  }

  lemma {:induction false} RunWithinLimit(es: seq<Event>, maxconn: int, ip: string, width: nat)
    requires AtMostTogether(es, maxconn, ip, width)
    ensures WithinLimit(RackOf(Run(EMPTY, es, maxconn)), ip, Limit(maxconn, width))
  {
    if es != [] {
      var init, e := es[..|es| - 1], es[|es| - 1];
      var w := Run(EMPTY, init, maxconn);
      assert forall i | 0 <= i <= |init| :: init[..i] == es[..i];
      assert es[..|es|] == es;
      RunWithinLimit(init, maxconn, ip, width);
      RunKeepsInUse(init, maxconn);
      EveryRunIsSound(init, maxconn);
      StepActs(w, e, maxconn);
      ApplyWithinLimit(RackOf(w), ActOf(w, e, maxconn), maxconn, ip, width);
    }
  }

  /**
    If at most `width` POSTs of an address ever wait together, whatever other addresses do, no table made for it, be it
    in `clients`, dropped from it or put back, ever holds more than maxconn - 1 + width entries, and only one where
    maxconn is 1 or less.
  */
  lemma TablesAreCapped(es: seq<Event>, maxconn: int, ip: string, width: nat)
    requires AtMostTogether(es, maxconn, ip, width)
    ensures var w := Run(EMPTY, es, maxconn);
      forall n | n in w.tables && w.tables[n].owner == ip :: |w.tables[n].slots| <= Limit(maxconn, width)
  {
    RunWithinLimit(es, maxconn, ip, width);
  }

  // ----- the bound is reached

  function IdOf(i: nat): (id: string)
    ensures |id| == i
  {
    seq(i, _ => 'w')
  }

  ghost function Ids(n: nat): set<string> {
    set i | 0 <= i < n :: IdOf(i)
  }

  lemma {:induction false} IdsAreDistinct(n: nat)
    ensures |Ids(n)| == n && IdOf(n) !in Ids(n) && Ids(n + 1) == Ids(n) + {IdOf(n)}
  {
    assert forall i | 0 <= i < n :: IdOf(i) != IdOf(n) by {
      assert |IdOf(n)| == n && forall i | 0 <= i < n :: |IdOf(i)| == i;
    }
    if n > 0 {
      IdsAreDistinct(n - 1);
    }
  }

  ghost function Numbers(n: nat): (s: set<nat>)
    ensures |s| == n && forall p: nat :: p in s <==> p < n
  {
    if n == 0 then {} else Numbers(n - 1) + {n - 1}
  }

  /** One address with `entries` workers in its one table and `waiting` POSTs that have captured that table. */
  ghost predicate Crowd(w: World, ip: string, entries: nat, waiting: nat) {
    && entries > 0
    && w.clients == map[ip := 0] && w.tables.Keys == {0}
    && w.tables[0].slots.Keys == Ids(entries) && w.conns.Keys == Ids(entries)
    && w.posts.Keys == Numbers(waiting) && forall p | p in w.posts :: w.posts[p] == Post(ip, 0)
  }

  lemma CrowdTogether(w: World, ip: string, entries: nat, waiting: nat)
    requires Crowd(w, ip, entries, waiting)
    ensures |InFlight(RackOf(w), ip)| <= waiting
    ensures |w.tables[0].slots| == entries
  {
    SubsetSize(InFlight(RackOf(w), ip), Numbers(waiting));
    IdsAreDistinct(entries);
    assert |w.tables[0].slots| == |w.tables[0].slots.Keys|;
  }

  lemma TogetherSnoc(es: seq<Event>, e: Event, maxconn: int, ip: string, width: nat)
    requires AtMostTogether(es, maxconn, ip, width)
    requires |InFlight(RackOf(Run(EMPTY, es + [e], maxconn)), ip)| <= width
    ensures AtMostTogether(es + [e], maxconn, ip, width)
  {
    forall i | 0 <= i <= |es + [e]| ensures |InFlight(RackOf(Run(EMPTY, (es + [e])[..i], maxconn)), ip)| <= width {
      if i <= |es| {
        assert (es + [e])[..i] == es[..i];
      } else {
        assert (es + [e])[..i] == es + [e];
      }
    }
  }

  lemma CrowdTakesOneMore(w: World, maxconn: int, ip: string, entries: nat, waiting: nat)
    requires Crowd(w, ip, entries, waiting) && entries < maxconn
    ensures Crowd(Step(w, PostBegin(waiting, ip, 1), maxconn), ip, entries, waiting + 1)
  {
    CrowdTogether(w, ip, entries, waiting);
    var t := Begin(w, waiting, ip, 1);
    assert Step(w, PostBegin(waiting, ip, 1), maxconn) == t;
    assert t.posts.Keys == Numbers(waiting + 1);
  }

  lemma CrowdGrows(w: World, maxconn: int, ip: string, entries: nat, waiting: nat)
    requires Crowd(w, ip, entries, waiting) && waiting > 0
    ensures Crowd(Step(w, PostDone(waiting - 1, IdOf(entries)), maxconn), ip, entries + 1, waiting - 1)
  {
    IdsAreDistinct(entries);
    assert IdOf(0) in w.tables[0].slots;
    CrowdGetsWorker(w, ip, entries, waiting);
  }

  lemma CrowdGetsWorker(w: World, ip: string, entries: nat, waiting: nat)
    requires Crowd(w, ip, entries, waiting) && waiting > 0
    requires w.tables[0].slots != map[] && Ids(entries + 1) == Ids(entries) + {IdOf(entries)}
    ensures Crowd(Finish(w, waiting - 1, IdOf(entries)), ip, entries + 1, waiting - 1)
  {
    assert Finish(w, waiting - 1, IdOf(entries)).posts.Keys == Numbers(waiting - 1);
  }

  lemma CrowdGoesOn(es: seq<Event>, e: Event, maxconn: int, width: nat, ip: string, entries: nat, waiting: nat)
    requires AtMostTogether(es, maxconn, ip, width) && waiting <= width
    requires Crowd(Step(Run(EMPTY, es, maxconn), e, maxconn), ip, entries, waiting)
    ensures AtMostTogether(es + [e], maxconn, ip, width) && Crowd(Run(EMPTY, es + [e], maxconn), ip, entries, waiting)
  {
    assert (es + [e])[..|es + [e]| - 1] == es;
    CrowdTogether(Run(EMPTY, es + [e], maxconn), ip, entries, waiting);
    TogetherSnoc(es, e, maxconn, ip, width);
  }

  /** One more POST of the crowd gets in as long as the table has room. */
  lemma CrowdBegins(es: seq<Event>, maxconn: int, width: nat, ip: string, entries: nat, waiting: nat) returns (fs: seq<Event>)
    requires AtMostTogether(es, maxconn, ip, width) && Crowd(Run(EMPTY, es, maxconn), ip, entries, waiting)
    requires entries < maxconn && waiting < width
    ensures AtMostTogether(fs, maxconn, ip, width) && Crowd(Run(EMPTY, fs, maxconn), ip, entries, waiting + 1)
  {
    fs := es + [PostBegin(waiting, ip, 1)];
    CrowdTakesOneMore(Run(EMPTY, es, maxconn), maxconn, ip, entries, waiting);
    CrowdGoesOn(es, PostBegin(waiting, ip, 1), maxconn, width, ip, entries, waiting + 1);
  }

  /** A waiting POST of the crowd comes back with a worker. */
  lemma CrowdFinishes(es: seq<Event>, maxconn: int, width: nat, ip: string, entries: nat, waiting: nat) returns (fs: seq<Event>)
    requires AtMostTogether(es, maxconn, ip, width) && Crowd(Run(EMPTY, es, maxconn), ip, entries, waiting)
    requires 0 < waiting <= width
    ensures AtMostTogether(fs, maxconn, ip, width) && Crowd(Run(EMPTY, fs, maxconn), ip, entries + 1, waiting - 1)
  {
    fs := es + [PostDone(waiting - 1, IdOf(entries))];
    CrowdGrows(Run(EMPTY, es, maxconn), maxconn, ip, entries, waiting);
    CrowdGoesOn(es, PostDone(waiting - 1, IdOf(entries)), maxconn, width, ip, entries + 1, waiting - 1);
  }

  lemma CrowdStarts(maxconn: int, width: nat, ip: string) returns (es: seq<Event>)
    requires 0 < width
    ensures AtMostTogether(es, maxconn, ip, width) && Crowd(Run(EMPTY, es, maxconn), ip, 1, 0)
  {
    var a, b := PostBegin(0, ip, 0), PostDone(0, IdOf(0));
    es := [a, b];
    assert es[..1] == [a] && es[..0] == [] && es[..2] == es;
    assert [a][..0] == [] && Run(EMPTY, [a][..0], maxconn) == EMPTY;
    var w := Run(EMPTY, [a], maxconn);
    assert w == Begin(EMPTY, 0, ip, 0);
    var t := Run(EMPTY, es, maxconn);
    assert t == Finish(w, 0, IdOf(0));
    assert t.posts == map[] && Numbers(0) == {};
    assert Ids(1) == {IdOf(0)};
    forall i | 0 <= i <= |es| ensures |InFlight(RackOf(Run(EMPTY, es[..i], maxconn)), ip)| <= width {
      SubsetSize(InFlight(RackOf(Run(EMPTY, es[..i], maxconn)), ip), {0});
    }
  }

  /** One POST after the other until the next one would be refused but for the POSTs that wait. */
  lemma CrowdFills(maxconn: int, width: nat, ip: string) returns (es: seq<Event>)
    requires maxconn > 1 && width > 0
    ensures AtMostTogether(es, maxconn, ip, width) && Crowd(Run(EMPTY, es, maxconn), ip, maxconn - 1, 0)
  {
    es := CrowdStarts(maxconn, width, ip);
    var entries := 1;
    while entries < maxconn - 1
      invariant 1 <= entries <= maxconn - 1
      invariant AtMostTogether(es, maxconn, ip, width) && Crowd(Run(EMPTY, es, maxconn), ip, entries, 0)
    {
      es := CrowdBegins(es, maxconn, width, ip, entries, 0);
      es := CrowdFinishes(es, maxconn, width, ip, entries, 1);
      entries := entries + 1;
    }
  }

  lemma {:induction false} CrowdWaits(before: seq<Event>, maxconn: int, width: nat, ip: string, entries: nat, waiting: nat)
    returns (es: seq<Event>)
    requires AtMostTogether(before, maxconn, ip, width) && Crowd(Run(EMPTY, before, maxconn), ip, entries, 0)
    requires entries < maxconn && waiting <= width
    ensures AtMostTogether(es, maxconn, ip, width) && Crowd(Run(EMPTY, es, maxconn), ip, entries, waiting)
    decreases waiting
  {
    if waiting == 0 {
      es := before;
    } else {
      es := CrowdWaits(before, maxconn, width, ip, entries, waiting - 1);
      es := CrowdBegins(es, maxconn, width, ip, entries, waiting - 1);
    }
  }

  lemma {:induction false} CrowdComesBack(before: seq<Event>, maxconn: int, width: nat, ip: string, entries: nat, waiting: nat)
    returns (es: seq<Event>)
    requires AtMostTogether(before, maxconn, ip, width) && Crowd(Run(EMPTY, before, maxconn), ip, entries, waiting)
    requires waiting <= width
    ensures AtMostTogether(es, maxconn, ip, width) && Crowd(Run(EMPTY, es, maxconn), ip, entries + waiting, 0)
    decreases waiting
  {
    if waiting == 0 {
      es := before;
    } else {
      es := CrowdFinishes(before, maxconn, width, ip, entries, waiting);
      es := CrowdComesBack(es, maxconn, width, ip, entries + 1, waiting - 1);
    }
  }

  /** For every maxconn and every width there is a run that fills a table of the address to the limit. */
  lemma LimitIsReached(maxconn: int, width: nat, ip: string) returns (es: seq<Event>)
    requires width > 0
    ensures AtMostTogether(es, maxconn, ip, width)
    ensures var w := Run(EMPTY, es, maxconn);
      0 in w.tables && w.tables[0].owner == ip && |w.tables[0].slots| == Limit(maxconn, width)
  {
    if maxconn <= 1 {
      es := CrowdStarts(maxconn, width, ip);
      CrowdTable(es, maxconn, ip, 1, 0);
    } else {
      es := CrowdFills(maxconn, width, ip);
      es := CrowdWaits(es, maxconn, width, ip, maxconn - 1, width);
      es := CrowdComesBack(es, maxconn, width, ip, maxconn - 1, width);
      CrowdTable(es, maxconn, ip, maxconn - 1 + width, 0);
    }
  }

  lemma CrowdTable(es: seq<Event>, maxconn: int, ip: string, entries: nat, waiting: nat)
    requires Crowd(Run(EMPTY, es, maxconn), ip, entries, waiting)
    ensures var w := Run(EMPTY, es, maxconn); w.tables[0].owner == ip && |w.tables[0].slots| == entries
  {
    CrowdTogether(Run(EMPTY, es, maxconn), ip, entries, waiting);
    EveryRunIsSound(es, maxconn);
    assert RackOf(Run(EMPTY, es, maxconn)).clients[ip] == 0;
  }
}
