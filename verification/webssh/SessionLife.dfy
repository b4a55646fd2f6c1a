// What one worker goes through: its outbound stream, its retry timers, its one
// claim and its one teardown, in every run of the whole system.
module SessionLife {
  import opened Options
  import opened SessionState
  import opened SessionTables

  /** What the channel has accepted, followed by what still waits, is what was queued. */
  ghost predicate StreamKept(c: Conn) {
    c.accepted + Join(c.pending) == c.queued && forall s | s in c.pending :: s != ""
  }

  /** A live worker waits for output exactly while it is in WRITE mode, and then a retry timer is on its way. */
  ghost predicate Awake(c: Conn) {
    !c.closed ==> (c.pending != [] <==> c.writing) && (c.writing ==> c.timers > 0)
  }

  /** What the outside world was told, given what has become of the worker. */
  ghost predicate BooksBalance(c: Conn) {
    && c.tally.chanCloses == c.tally.sshCloses == (if c.closed then 1 else 0)
    && c.tally.loopAdds == (if c.claimed then 1 else 0)
    && c.tally.loopRemoves == (if c.claimed && c.closed then 1 else 0)
    && c.tally.lateUpdates == 0
    && (c.closed ==> c.chanDown)
    && (c.recycled && !c.claimed ==> c.closed)
  }

  ghost predicate Healthy(c: Conn) {
    StreamKept(c) && Awake(c) && BooksBalance(c)
  }

  ghost predicate AllHealthy(w: World) {
    forall id | id in w.conns :: Healthy(w.conns[id])
  }

  lemma JoinOne(s: string)
    ensures Join([s]) == s
  {
    assert [s][1..] == [];
  }

  lemma QueueKeepsStream(c: Conn, data: string)
    requires StreamKept(c) && data != ""
    ensures StreamKept(Queue(c, data))
  {
    JoinSnoc(c.pending, data);
  }

  lemma PrefixMoves(accepted: string, data: string, n: nat)
    requires n <= |data|
    ensures (accepted + data[..n]) + data[n..] == accepted + data
  {
    assert data == data[..n] + data[n..];
  }

  /** Whatever the channel does with an attempt, nothing is lost, doubled or reordered. */
  lemma OnWriteKeepsStream(c: Conn, r: Send)
    requires StreamKept(c) && CanSend(c, r)
    ensures StreamKept(OnWrite(c, r))
  {
    if c.pending != [] && r.Sent? {
      SentKeepsStream(c, r.count);
    }
  }

  lemma SentKeepsStream(c: Conn, n: nat)
    requires StreamKept(c) && c.pending != [] && CanSend(c, Sent(n))
    ensures StreamKept(OnWrite(c, Sent(n)))
  {
    var data := Join(c.pending);
    PrefixMoves(c.accepted, data, n);
    if data[n..] != "" {
      JoinOne(data[n..]);
    }
  }

  /** After on_write the worker is awake, or is about to close. */
  lemma OnWriteWakes(c: Conn, r: Send)
    requires CanSend(c, r) && BooksBalance(c)
    requires c.pending == [] && !c.closed ==> !c.writing
    ensures BooksBalance(OnWrite(c, r)) && StandingOf(OnWrite(c, r)) == StandingOf(c)
    ensures Awake(OnWrite(c, r)) || WriteCloses(c, r)
    ensures WriteCloses(c, r) ==> OnWrite(c, r) == c
  {
  }

  lemma HangupHealthy(c: Conn)
    requires StreamKept(c) && BooksBalance(c.(recycled := false)) && !c.closed
    ensures Healthy(Hangup(c))
  {
  }

  /** Closing touches one worker only, and does no more to it than hanging up and counting its entry. */
  lemma CloseEffect(w: World, id: string)
    requires id in w.conns
    ensures var t := Close(w, id);
      && t.conns.Keys == w.conns.Keys
      && (forall x | x in w.conns && x != id :: t.conns[x] == w.conns[x])
      && if w.conns[id].closed then t == w
         else t.conns[id] == Hangup(w.conns[id]).(tally := Hangup(w.conns[id]).tally.(entryRemovals := t.conns[id].tally.entryRemovals))
  {
  }

  lemma CloseHealthy(w: World, id: string)
    requires id in w.conns && forall x | x in w.conns && x != id :: Healthy(w.conns[x])
    requires StreamKept(w.conns[id]) && BooksBalance(w.conns[id].(recycled := false))
    ensures AllHealthy(Close(w, id))
  {
    CloseEffect(w, id);
    if !w.conns[id].closed {
      HangupHealthy(w.conns[id]);
    }
  }

  lemma WriteHealthy(w: World, id: string, c: Conn, r: Send)
    requires AllHealthy(w) && id in w.conns && CanSend(c, r)
    requires StreamKept(c) && BooksBalance(c) && (c.pending == [] && !c.closed ==> !c.writing)
    ensures AllHealthy(Write(w, id, c, r))
  {
    OnWriteKeepsStream(c, r);
    OnWriteWakes(c, r);
    if WriteCloses(c, r) {
      CloseHealthy(w.(conns := w.conns[id := c]), id);
    }
  }

  lemma SetConnHealthy(w: World, id: string, c: Conn)
    requires AllHealthy(w) && id in w.conns && Healthy(c)
    ensures AllHealthy(w.(conns := w.conns[id := c]))
  {
  }

  lemma RecycleHealthy(w: World, id: string, maxconn: int)
    requires AllHealthy(w) && Enabled(w, RecycleTimer(id))
    ensures AllHealthy(Step(w, RecycleTimer(id), maxconn))
  {
    var c := w.conns[id].(recycled := true);
    if w.conns[id].claimed {
      SetConnHealthy(w, id, c);
    } else {
      CloseHealthy(w.(conns := w.conns[id := c]), id);
    }
  }

  lemma FinishHealthy(w: World, p: nat, id: string)
    requires AllHealthy(w) && Enabled(w, PostDone(p, id))
    ensures AllHealthy(Finish(w, p, id))
  {
    assert Join([]) == "" && Healthy(NewConn(w.posts[p].ip));
  }

  lemma MessageHealthy(w: World, id: string, data: string, r: Send, maxconn: int)
    requires AllHealthy(w) && Enabled(w, Message(id, data, r))
    ensures AllHealthy(Step(w, Message(id, data, r), maxconn))
  {
    if !w.conns[id].closed {
      JoinSnoc(w.conns[id].pending, data);
      QueueKeepsStream(w.conns[id], data);
      WriteHealthy(w, id, Queue(w.conns[id], data), r);
    }
  }

  lemma RetryHealthy(w: World, id: string, r: Send, maxconn: int)
    requires AllHealthy(w) && Enabled(w, RetryTimer(id, r))
    ensures AllHealthy(Step(w, RetryTimer(id, r), maxconn))
  {
    WriteHealthy(w, id, w.conns[id].(timers := w.conns[id].timers - 1), r);
  }

  lemma WritableHealthy(w: World, id: string, r: Send, maxconn: int)
    requires AllHealthy(w) && Enabled(w, Writable(id, r))
    ensures AllHealthy(Step(w, Writable(id, r), maxconn))
  {
    WriteHealthy(w, id, w.conns[id], r);
  }

  lemma StepHealthy(w: World, e: Event, maxconn: int)
    requires AllHealthy(w) && Sound(RackOf(w))
    ensures AllHealthy(Step(w, e, maxconn))
  {
    if Enabled(w, e) {
      match e {
        case PostBegin(p, ip, n) =>
        case PostFailed(p) =>
        case PostDone(p, id) => FinishHealthy(w, p, id);
        case Claim(ip, id) => if Claims(w, ip, id) { ClaimHealthy(w, ip, id); }
        case RecycleTimer(id) => RecycleHealthy(w, id, maxconn);
        case Shut(id) => CloseHealthy(w, id);
        case ChanLost(id) => SetConnHealthy(w, id, w.conns[id].(chanDown := true));
        case Message(id, data, r) => MessageHealthy(w, id, data, r, maxconn);
        case RetryTimer(id, r) => RetryHealthy(w, id, r, maxconn);
        case Writable(id, r) => WritableHealthy(w, id, r, maxconn);
      }
    }
  }

  /** Only a live worker that no one has claimed yet can be claimed. */
  lemma ClaimHealthy(w: World, ip: string, id: string)
    requires AllHealthy(w) && Sound(RackOf(w)) && Claims(w, ip, id)
    ensures !w.conns[id].claimed && !w.conns[id].closed
    ensures AllHealthy(TakeSlot(w, ip, id))
  {
    var k := RackOf(w);
    assert Holds(k, w.clients[ip], id) && k.who[id] == StandingOf(w.conns[id]);
  }

  /**
    In every run, POSTs overlapping or not, of every worker: accepted characters followed by the waiting ones are
    the queued ones; a live worker waits for output exactly in WRITE mode, with a retry timer on its way; channel and
    SSH client are closed once, when it closes; its loop handler is added at most once and taken out exactly if it
    was added; update_handler never runs after closing; and it is not alive and unclaimed after its recycle timer.
  */
  lemma {:induction false} EveryRunIsHealthy(es: seq<Event>, maxconn: int)
    ensures AllHealthy(Run(EMPTY, es, maxconn))
  {
    if es != [] {
      var n := |es| - 1;
      EveryRunIsHealthy(es[..n], maxconn);
      EveryRunIsSound(es[..n], maxconn);
      StepHealthy(Run(EMPTY, es[..n], maxconn), es[n], maxconn);
    }
  }

  // ----- one claim, one end

  datatype Stage = Unborn | Offered | Held | Gone

  function StageOf(w: World, id: string): Stage {
    if id !in w.conns then Unborn
    else if w.conns[id].closed then Gone
    else if w.conns[id].claimed then Held
    else Offered
  }

  /** From offered to held to gone, or from offered to gone; never back. */
  predicate Advances(from: Stage, to: Stage) {
    from == to || from == Unborn || to == Gone || (from == Offered && to == Held)
  }

  lemma ApplyAdvances(k: Rack, a: Act, id: string)
    requires Possible(k, a) && id in k.who
    ensures var t := Apply(k, a);
      id in t.who && (k.who[id].closed ==> t.who[id].closed) && (k.who[id].claimed ==> t.who[id].claimed)
  {
  }

  lemma StageAdvances(w: World, e: Event, maxconn: int, id: string)
    ensures Advances(StageOf(w, id), StageOf(Step(w, e, maxconn), id))
  {
    if id in w.conns {
      StepActs(w, e, maxconn);
      ApplyAdvances(RackOf(w), ActOf(w, e, maxconn), id);
      WhoIs(w, id);
      WhoIs(Step(w, e, maxconn), id);
    }
  }

  lemma WhoIs(w: World, id: string)
    ensures id in RackOf(w).who <==> id in w.conns
    ensures id in w.conns ==> RackOf(w).who[id].closed == w.conns[id].closed && RackOf(w).who[id].claimed == w.conns[id].claimed
  {
  }

  /** Whatever a run does, each worker only ever moves forward; so it is claimed by at most one websocket. */
  lemma {:induction false} StagesOnlyAdvance(w: World, es: seq<Event>, maxconn: int, id: string)
    ensures Advances(StageOf(w, id), StageOf(Run(w, es, maxconn), id))
  {
    if es != [] {
      StagesOnlyAdvance(w, es[..|es| - 1], maxconn, id);
      StageAdvances(Run(w, es[..|es| - 1], maxconn), es[|es| - 1], maxconn, id);
    }
  }

  /** What the table of an address says about a worker's ID. */
  function SlotOf(w: World, ip: string, id: string): Option<Slot> {
    if ip in w.clients && w.clients[ip] in w.tables then Lookup(w.tables[w.clients[ip]].slots, id) else None
  }

  function SlotFor(stage: Stage): Option<Slot> {
    match stage
    case Offered => Some(Free)
    case Held => Some(Taken)
    case _ => None
  }

  /** The recycle timer spares a claimed worker, and closes any other that is still alive. */
  lemma RecycleSparesTheClaimed(w: World, id: string, maxconn: int)
    requires Enabled(w, RecycleTimer(id))
    ensures var t := Step(w, RecycleTimer(id), maxconn);
      if w.conns[id].claimed then RackOf(t) == RackOf(w) && StageOf(t, id) == StageOf(w, id) else StageOf(t, id) == Gone
  {
    if w.conns[id].claimed {
      SameRack(w, id, w.conns[id].(recycled := true));
    } else {
      CloseEffect(w.(conns := w.conns[id := w.conns[id].(recycled := true)]), id);
    }
  }

  // ----- draining

  function Target(e: Event): Option<string> {
    match e
    case PostBegin(_, _, _) => None
    case PostFailed(_) => None
    case PostDone(_, id) => Some(id)
    case Claim(_, id) => Some(id)
    case RecycleTimer(id) => Some(id)
    case Shut(id) => Some(id)
    case ChanLost(id) => Some(id)
    case Message(id, _, _) => Some(id)
    case RetryTimer(id, _) => Some(id)
    case Writable(id, _) => Some(id)
  }

  /** An attempt to send to `id` that gets at least one character through. */
  predicate Attempt(e: Event, id: string) {
    match e
    case RetryTimer(x, Sent(n)) => x == id && n > 0
    case Writable(x, Sent(n)) => x == id && n > 0
    case _ => false
  }

  /** An event that is no business of the buffer of `id`: one for somebody else, or `id`'s claim or recycle timer. */
  predicate Elsewhere(e: Event, id: string) {
    Target(e) != Some(id) || e.PostDone? || e.Claim? || e.RecycleTimer?
  }

  /** An attempt that takes nothing off the buffer: nothing gets through, or a transient error while the channel is up. */
  predicate Idles(e: Event, id: string, c: Conn) {
    match e
    case RetryTimer(x, r) => x == id && (r == Sent(0) || (r == Raised(false) && !c.chanDown))
    case Writable(x, r) => x == id && (r == Sent(0) || (r == Raised(false) && !c.chanDown))
    case _ => false
  }

  /** An event that leaves the worker `id`, whose state was `c`, to its buffer; the recycle timer does so once the worker is claimed. */
  predicate Undisturbed(e: Event, id: string, c: Conn) {
    (Elsewhere(e, id) && (e == RecycleTimer(id) ==> c.claimed)) || Attempt(e, id) || Idles(e, id, c)
  }

  lemma OthersLeaveAlone(w: World, e: Event, maxconn: int, id: string)
    requires id in w.conns && Target(e) != Some(id)
    ensures id in Step(w, e, maxconn).conns && Step(w, e, maxconn).conns[id] == w.conns[id]
  {
    if Enabled(w, e) {
      match e {
        case RecycleTimer(x) => RecycleEffect(w, x, maxconn, id);
        case Shut(x) => CloseEffect(w, x);
        case Message(x, data, r) =>
          JoinSnoc(w.conns[x].pending, data);
          WriteEffect(w, x, Queue(w.conns[x], data), r);
        case RetryTimer(x, r) => WriteEffect(w, x, Fired(w.conns[x]), r);
        case Writable(x, r) => WriteEffect(w, x, w.conns[x], r);
        case _ =>
      }
    }
  }

  lemma RecycleEffect(w: World, x: string, maxconn: int, id: string)
    requires id in w.conns && id != x && Enabled(w, RecycleTimer(x))
    ensures var t := Step(w, RecycleTimer(x), maxconn); id in t.conns && t.conns[id] == w.conns[id]
  {
    CloseEffect(Recycled(w, x), x);
  }

  lemma WriteEffect(w: World, id: string, c: Conn, r: Send)
    requires id in w.conns && CanSend(c, r)
    ensures forall x | x in w.conns && x != id :: x in Write(w, id, c, r).conns && Write(w, id, c, r).conns[x] == w.conns[x]
  {
    CloseEffect(w.(conns := w.conns[id := OnWrite(c, r)]), id);
  }

  /** An attempt that makes headway takes a prefix off the buffer and leaves WRITE mode exactly when nothing is left. */
  lemma AttemptMakesHeadway(w: World, e: Event, maxconn: int, id: string)
    requires AllHealthy(w) && id in w.conns && !w.conns[id].closed && Attempt(e, id) && Enabled(w, e)
    ensures var c, d := w.conns[id], Step(w, e, maxconn).conns[id];
      && !d.closed && |Join(d.pending)| < |Join(c.pending)|
      && d.queued == c.queued && d.claimed == c.claimed && d.chanDown == c.chanDown && (d.writing <==> d.pending != [])
  {
    var c := w.conns[id];
    var d := if e.RetryTimer? then c.(timers := c.timers - 1) else c;
    OnWriteShortens(d, e.send);
    assert Step(w, e, maxconn).conns[id] == OnWrite(d, e.send);
  }

  lemma OnWriteShortens(c: Conn, r: Send)
    requires CanSend(c, r) && r.Sent? && r.count > 0 && c.pending != []
    ensures var d := OnWrite(c, r);
      d.closed == c.closed && |Join(d.pending)| == |Join(c.pending)| - r.count && d.queued == c.queued && d.claimed == c.claimed && d.chanDown == c.chanDown && (d.writing <==> d.pending != [])
  {
    JoinOne(Join(c.pending)[r.count..]);
  }

  /** The buffer is as it was, in one chunk perhaps. */
  predicate SameBuffer(c: Conn, d: Conn) {
    d.closed == c.closed && Join(d.pending) == Join(c.pending) && d.queued == c.queued && d.chanDown == c.chanDown
    && (c.claimed ==> d.claimed)
  }

  lemma ElsewhereKeepsBuffer(w: World, e: Event, maxconn: int, id: string)
    requires id in w.conns && Elsewhere(e, id) && (e == RecycleTimer(id) ==> w.conns[id].claimed)
    ensures id in Step(w, e, maxconn).conns && SameBuffer(w.conns[id], Step(w, e, maxconn).conns[id])
  {
    if Target(e) != Some(id) {
      OthersLeaveAlone(w, e, maxconn, id);
    }
  }

  lemma IdleWriteKeepsBuffer(c: Conn, r: Send)
    requires CanSend(c, r) && (r == Sent(0) || (r == Raised(false) && !c.chanDown))
    ensures !WriteCloses(c, r) && SameBuffer(c, OnWrite(c, r))
  {
    if c.pending != [] && r == Sent(0) {
      var data := Join(c.pending);
      assert data[0..] == data;
      JoinOne(data);
    }
  }

  lemma IdlingKeepsBuffer(w: World, e: Event, maxconn: int, id: string)
    requires id in w.conns && Idles(e, id, w.conns[id])
    ensures id in Step(w, e, maxconn).conns && SameBuffer(w.conns[id], Step(w, e, maxconn).conns[id])
  {
    if Enabled(w, e) {
      IdleWriteKeepsBuffer(if e.RetryTimer? then Fired(w.conns[id]) else w.conns[id], e.send);
    }
  }

  /** How many of the attempts for `id` in a run could happen. */
  function Attempts(w: World, es: seq<Event>, maxconn: int, id: string): nat {
    if es == [] then 0
    else
      var n := |es| - 1;
      Attempts(w, es[..n], maxconn, id) + if Attempt(es[n], id) && Enabled(Run(w, es[..n], maxconn), es[n]) then 1 else 0
  }

  lemma {:induction false} DrainsByAttempts(w: World, es: seq<Event>, maxconn: int, id: string)
    requires AllHealthy(w) && Sound(RackOf(w)) && id in w.conns && !w.conns[id].closed
    requires forall e | e in es :: Undisturbed(e, id, w.conns[id])
    ensures var t := Run(w, es, maxconn);
      && AllHealthy(t) && Sound(RackOf(t))
      && id in t.conns && !t.conns[id].closed && t.conns[id].queued == w.conns[id].queued
      && (w.conns[id].claimed ==> t.conns[id].claimed) && t.conns[id].chanDown == w.conns[id].chanDown
      && |Join(t.conns[id].pending)| + Attempts(w, es, maxconn, id) <= |Join(w.conns[id].pending)|
  {
    if es != [] {
      var n := |es| - 1;
      DrainsByAttempts(w, es[..n], maxconn, id);
      var t, e := Run(w, es[..n], maxconn), es[n];
      assert e in es;
      StepSound(t, e, maxconn);
      if Attempt(e, id) {
        if Enabled(t, e) {
          AttemptMakesHeadway(t, e, maxconn, id);
        }
      } else if Idles(e, id, w.conns[id]) {
        IdlingKeepsBuffer(t, e, maxconn, id);
      } else {
        ElsewhereKeepsBuffer(t, e, maxconn, id);
      }
    }
  }

  lemma StepSound(w: World, e: Event, maxconn: int)
    requires AllHealthy(w) && Sound(RackOf(w))
    ensures AllHealthy(Step(w, e, maxconn)) && Sound(RackOf(Step(w, e, maxconn)))
  {
    StepHealthy(w, e, maxconn);
    StepActs(w, e, maxconn);
    ApplySound(RackOf(w), ActOf(w, e, maxconn));
  }

  /**
    A worker whose browser sends nothing new and whose connection holds has drained its buffer and is back in READ
    mode after as many attempts that get a character through as the buffer had characters, whatever idle attempts come
    between and whatever all the other workers do; the channel has then accepted everything that was ever queued.
  */
  lemma BufferDrains(w: World, es: seq<Event>, maxconn: int, id: string)
    requires AllHealthy(w) && Sound(RackOf(w)) && id in w.conns && !w.conns[id].closed
    requires forall e | e in es :: Undisturbed(e, id, w.conns[id])
    requires Attempts(w, es, maxconn, id) >= |Join(w.conns[id].pending)|
    ensures var t := Run(w, es, maxconn);
      id in t.conns && var c := t.conns[id];
      c.pending == [] && !c.writing && c.accepted == c.queued == w.conns[id].queued
  {
    DrainsByAttempts(w, es, maxconn, id);
    SomethingToJoin(Run(w, es, maxconn).conns[id].pending);
  }

  lemma SomethingToJoin(chunks: seq<string>)
    requires forall s | s in chunks :: s != ""
    ensures chunks != [] ==> Join(chunks) != ""
  {
    if chunks != [] {
      assert chunks[0] in chunks;
    }
  }

  /** And there is always a next attempt: as long as anything waits, a retry timer can fire, with any outcome the channel has. */
  lemma NoLostWakeUp(w: World, id: string, r: Send)
    requires AllHealthy(w) && id in w.conns && !w.conns[id].closed && w.conns[id].pending != []
    requires CanSend(w.conns[id], r)
    ensures Enabled(w, RetryTimer(id, r))
  {
    assert Awake(w.conns[id]);
  }
}
