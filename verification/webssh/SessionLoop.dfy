// The event loop: whatever it calls, the sessions in memory are where the session
// machine is after the events so far, so everything proved of its runs holds of them.
module SessionLoop {
  import opened Options
  import opened SessionHeap
  import S = SessionState
  import SessionTables
  import SessionLife
  import SessionCap
  import SessionOverlap
  import SessionText
  import SessionCount
  import SessionAnswers

  // ----- what an event that can happen does

  lemma ClaimIs(w: S.World, ip: string, id: string, maxconn: int)
    ensures S.Step(w, S.Claim(ip, id), maxconn) == if S.Claims(w, ip, id) then S.TakeSlot(w, ip, id) else w
  {
  }

  lemma RecycleTimerIs(w: S.World, id: string, maxconn: int)
    requires S.Enabled(w, S.RecycleTimer(id))
    ensures S.Step(w, S.RecycleTimer(id), maxconn)
         == if w.conns[id].claimed then S.Recycled(w, id) else S.Close(S.Recycled(w, id), id)
  {
  }

  lemma ShutIs(w: S.World, id: string, maxconn: int)
    requires S.Enabled(w, S.Shut(id))
    ensures S.Step(w, S.Shut(id), maxconn) == if w.conns[id].closed then w else S.Close(w, id)
  {
  }

  lemma MessageIs(w: S.World, id: string, data: string, r: S.Send, maxconn: int)
    requires S.Enabled(w, S.Message(id, data, r))
    ensures S.CanSend(S.Queue(w.conns[id], data), r)
    ensures S.Step(w, S.Message(id, data, r), maxconn)
         == if w.conns[id].closed then w else S.Write(w, id, S.Queue(w.conns[id], data), r)
  {
    S.JoinSnoc(w.conns[id].pending, data);
  }

  lemma RetryTimerIs(w: S.World, id: string, r: S.Send, maxconn: int)
    requires S.Enabled(w, S.RetryTimer(id, r))
    ensures S.CanSend(w.conns[id], r)
    ensures S.Step(w, S.RetryTimer(id, r), maxconn) == S.Write(w, id, S.Fired(w.conns[id]), r)
  {
  }

  lemma WritableIs(w: S.World, id: string, r: S.Send, maxconn: int)
    requires S.Enabled(w, S.Writable(id, r))
    ensures S.CanSend(w.conns[id], r)
    ensures S.Step(w, S.Writable(id, r), maxconn) == S.Write(w, id, w.conns[id], r)
  {
  }

  /** `history` lists the events so far. */
  class EventLoop {
    const sessions: Sessions
    const maxconn: int
    ghost var history: seq<S.Event>

    constructor (maxconn: int)
      ensures Valid() && fresh(sessions) && history == [] && this.maxconn == maxconn
    {
      sessions := new Sessions();
      this.maxconn := maxconn;
      history := [];
    }

    ghost predicate Follows()
      reads sessions, this`history
    {
      sessions.World() == S.Run(S.EMPTY, history, maxconn)
    }

    ghost predicate Valid()
      reads this, sessions, sessions.workers.Values
    {
      sessions.Valid() && Follows()
    }

    ghost predicate CanHappen(e: S.Event)
      reads sessions
    {
      S.Enabled(sessions.World(), e)
    }

    /** The event `e` has taken place. */
    ghost method Record(e: S.Event)
      requires sessions.World() == S.Step(S.Run(S.EMPTY, history, maxconn), e, maxconn)
      modifies this`history
      ensures history == old(history) + [e] && Follows()
    {
      assert (history + [e])[..|history|] == history;
      history := history + [e];
    }

    /** The table the address has, and whoever is in it, is there. */
    lemma Resolvable(ip: string)
      requires Follows()
      ensures S.Resolves(sessions.World(), ip)
    {
      SessionTables.ReferencesResolve(history, maxconn, ip);
    }

    // ----- POST

    /** The address has live workers, and maxconn of them or more. */
    static predicate TooManyLive(w: S.World, ip: string, maxconn: int) {
      SessionCount.Live(w, ip) != {} && |SessionCount.Live(w, ip)| >= maxconn
    }

    lemma RefusesTooManyLive(ip: string)
      requires Follows()
      ensures SessionCount.GuardedRunFor(history, maxconn, ip) ==>
        (S.TooMany(sessions.World(), ip, maxconn) <==> TooManyLive(sessions.World(), ip, maxconn))
    {
      if SessionCount.GuardedRunFor(history, maxconn, ip) {
        SessionAnswers.TooManyExactly(sessions.World(), ip, maxconn);
        SessionAnswers.GuardedTableIsLive(history, maxconn, ip);
      }
    }

    lemma ClaimsTheOffered(ip: string, id: string)
      requires Follows()
      ensures SessionCount.GuardedRunFor(history, maxconn, ip) ==>
        (S.Claims(sessions.World(), ip, id) <==> SessionAnswers.OfferedTo(sessions.World(), ip, id))
    {
      if SessionCount.GuardedRunFor(history, maxconn, ip) {
        SessionAnswers.GuardedClaimsExactly(history, maxconn, ip, id);
      }
    }

    method PostBegin(ghost post: nat, ip: string, spare: nat) returns (captured: Option<nat>)
      requires Valid() && CanHappen(S.PostBegin(post, ip, spare))
      modifies this`history, sessions`tables, sessions`posts
      ensures Valid() && history == old(history) + [S.PostBegin(post, ip, spare)]
      ensures captured == None <==> S.TooMany(old(sessions.World()), ip, maxconn)
      ensures SessionCount.GuardedRunFor(old(history), maxconn, ip) ==>
        (captured == None <==> TooManyLive(old(sessions.World()), ip, maxconn))
    {
      RefusesTooManyLive(ip);
      captured := Capture(post, ip, spare);
    }

    method Capture(ghost post: nat, ip: string, spare: nat) returns (captured: Option<nat>)
      requires Valid() && CanHappen(S.PostBegin(post, ip, spare))
      modifies this`history, sessions`tables, sessions`posts
      ensures Valid() && history == old(history) + [S.PostBegin(post, ip, spare)]
      ensures captured == None <==> S.TooMany(old(sessions.World()), ip, maxconn)
    {
      Resolvable(ip);
      captured := sessions.PostBegin(post, ip, maxconn, spare);
      Record(S.PostBegin(post, ip, spare));
    }

    ghost method PostFailed(post: nat)
      requires Valid() && CanHappen(S.PostFailed(post))
      modifies this`history, sessions`posts
      ensures Valid() && history == old(history) + [S.PostFailed(post)]
    {
      sessions.PostFailed(post);
      Record(S.PostFailed(post));
    }

    method PostDone(ghost post: nat, ip: string, captured: nat, id: string) returns (worker: Worker)
      requires Valid() && CanHappen(S.PostDone(post, id)) && sessions.posts[post] == S.Post(ip, captured)
      modifies this`history, sessions
      ensures Valid() && history == old(history) + [S.PostDone(post, id)]
      ensures fresh(worker) && sessions.Has(worker) && worker.id == id
    {
      worker := sessions.PostDone(post, ip, captured, id);
      Record(S.PostDone(post, id));
    }

    // ----- websockets and workers

    /** A websocket has been opened; it gets the worker it asks for exactly if it may have it, and then worker and websocket refer to each other. */
    method Open(ws: WsockHandler, ip: string, id: string) returns (claimed: bool)
      requires Valid() && ws.workerRef == null
      modifies this`history, sessions`tables, sessions`conns, ws, sessions.Named(id)
      ensures Valid() && history == old(history) + [S.Claim(ip, id)]
      ensures SessionCount.GuardedRunFor(old(history), maxconn, ip) ==>
        (claimed <==> SessionAnswers.OfferedTo(old(sessions.World()), ip, id))
      ensures claimed == S.Claims(old(sessions.World()), ip, id)
      ensures if claimed then id in sessions.workers && ws.workerRef == sessions.workers[id] && sessions.workers[id].handler == ws
              else ws.workerRef == null
    {
      ClaimsTheOffered(ip, id);
      claimed := Admit(ws, ip, id);
    }

    method Admit(ws: WsockHandler, ip: string, id: string) returns (claimed: bool)
      requires Valid() && ws.workerRef == null
      modifies this`history, sessions`tables, sessions`conns, ws, sessions.Named(id)
      ensures Valid() && history == old(history) + [S.Claim(ip, id)]
      ensures claimed == S.Claims(old(sessions.World()), ip, id)
      ensures if claimed then id in sessions.workers && ws.workerRef == sessions.workers[id] && sessions.workers[id].handler == ws
              else ws.workerRef == null
    {
      Resolvable(ip);
      OffersAreUnclaimed(ip, id);
      claimed := Take(ws, ip, id);
      Record(S.Claim(ip, id));
    }

    method Take(ws: WsockHandler, ip: string, id: string) returns (claimed: bool)
      requires sessions.Valid() && S.Resolves(sessions.World(), ip) && ws.workerRef == null
      requires S.Claims(sessions.World(), ip, id) ==> id in sessions.workers && sessions.workers[id].handler == null
      modifies sessions`tables, sessions`conns, ws, sessions.Named(id)
      ensures sessions.Valid() && sessions.World() == S.Step(old(sessions.World()), S.Claim(ip, id), maxconn)
      ensures claimed == S.Claims(old(sessions.World()), ip, id)
      ensures if claimed then id in sessions.workers && ws.workerRef == sessions.workers[id] && sessions.workers[id].handler == ws
              else ws.workerRef == null
    {
      ClaimIs(sessions.World(), ip, id, maxconn);
      claimed := sessions.Open(ws, ip, id);
    }

    /** Whatever a websocket can claim has no handler yet. */
    lemma OffersAreUnclaimed(ip: string, id: string)
      requires Valid()
      ensures S.Claims(sessions.World(), ip, id) ==> id in sessions.workers && sessions.workers[id].handler == null
    {
      var w := sessions.World();
      SessionTables.EveryRunIsSound(history, maxconn);
      if S.Claims(w, ip, id) {
        assert SessionTables.Holds(SessionTables.RackOf(w), w.clients[ip], id);
        assert !sessions.conns[id].claimed;
      }
    }

    method RecycleTimer(worker: Worker)
      requires Valid() && sessions.Has(worker) && CanHappen(S.RecycleTimer(worker.id))
      modifies this`history, sessions`tables, sessions`clients, sessions`conns, sessions`failures,
        worker`recycled, worker`closed, worker`chanDown, worker`tally, worker`now
      ensures Valid() && history == old(history) + [S.RecycleTimer(worker.id)]
    {
      Resolvable(worker.srcAddr);
      Recycle(worker);
      Record(S.RecycleTimer(worker.id));
    }

    method Recycle(worker: Worker)
      requires sessions.Valid() && sessions.Has(worker) && S.Resolves(sessions.World(), worker.srcAddr)
      requires CanHappen(S.RecycleTimer(worker.id))
      modifies sessions`tables, sessions`clients, sessions`conns, sessions`failures,
        worker`recycled, worker`closed, worker`chanDown, worker`tally, worker`now
      ensures sessions.Valid() && sessions.World() == S.Step(old(sessions.World()), S.RecycleTimer(worker.id), maxconn)
    {
      RecycleTimerIs(sessions.World(), worker.id, maxconn);
      sessions.RecycleWorker(worker);
    }

    method ChanLost(worker: Worker)
      requires Valid() && sessions.Has(worker) && CanHappen(S.ChanLost(worker.id))
      modifies this`history, sessions`conns, worker`chanDown, worker`now
      ensures Valid() && history == old(history) + [S.ChanLost(worker.id)]
    {
      sessions.LoseChannel(worker);
      Record(S.ChanLost(worker.id));
    }

    /** Whatever ends a claimed worker: its websocket, its channel, or an error on either. */
    method Shut(worker: Worker, reenter: bool)
      requires Valid() && sessions.Has(worker) && CanHappen(S.Shut(worker.id))
      requires worker.handler != null ==> worker.handler.workerRef == worker
      modifies this`history, sessions`tables, sessions`clients, sessions`conns, sessions`failures,
        worker`closed, worker`chanDown, worker`tally, worker`now
      ensures Valid() && history == old(history) + [S.Shut(worker.id)]
    {
      Resolvable(worker.srcAddr);
      Close(worker, reenter);
      Record(S.Shut(worker.id));
    }

    method Close(worker: Worker, reenter: bool)
      requires sessions.Valid() && sessions.Has(worker) && S.Resolves(sessions.World(), worker.srcAddr)
      requires CanHappen(S.Shut(worker.id))
      requires worker.handler != null ==> worker.handler.workerRef == worker
      modifies sessions`tables, sessions`clients, sessions`conns, sessions`failures,
        worker`closed, worker`chanDown, worker`tally, worker`now
      ensures sessions.Valid() && sessions.World() == S.Step(old(sessions.World()), S.Shut(worker.id), maxconn)
    {
      ShutIs(sessions.World(), worker.id, maxconn);
      sessions.Close(worker, reenter);
    }

    // ----- output

    method RetryTimer(worker: Worker, send: S.Send, reenter: bool)
      requires Valid() && sessions.Has(worker) && CanHappen(S.RetryTimer(worker.id, send))
      requires worker.handler != null ==> worker.handler.workerRef == worker
      modifies this`history, sessions`tables, sessions`clients, sessions`conns, sessions`failures,
        worker`dataToDst, worker`writing, worker`timers, worker`accepted,
        worker`closed, worker`chanDown, worker`tally, worker`now
      ensures Valid() && history == old(history) + [S.RetryTimer(worker.id, send)]
    {
      Resolvable(worker.srcAddr);
      Retry(worker, send, reenter);
      Record(S.RetryTimer(worker.id, send));
    }

    method Retry(worker: Worker, send: S.Send, reenter: bool)
      requires sessions.Valid() && sessions.Has(worker) && S.Resolves(sessions.World(), worker.srcAddr)
      requires CanHappen(S.RetryTimer(worker.id, send))
      requires worker.handler != null ==> worker.handler.workerRef == worker
      modifies sessions`tables, sessions`clients, sessions`conns, sessions`failures,
        worker`dataToDst, worker`writing, worker`timers, worker`accepted,
        worker`closed, worker`chanDown, worker`tally, worker`now
      ensures sessions.Valid() && sessions.World() == S.Step(old(sessions.World()), S.RetryTimer(worker.id, send), maxconn)
    {
      RetryTimerIs(sessions.World(), worker.id, send, maxconn);
      sessions.RetryTimer(worker, send, reenter);
    }

    method Writable(worker: Worker, send: S.Send, reenter: bool)
      requires Valid() && sessions.Has(worker) && CanHappen(S.Writable(worker.id, send))
      requires worker.handler != null ==> worker.handler.workerRef == worker
      modifies this`history, sessions`tables, sessions`clients, sessions`conns, sessions`failures,
        worker`dataToDst, worker`writing, worker`timers, worker`accepted,
        worker`closed, worker`chanDown, worker`tally, worker`now
      ensures Valid() && history == old(history) + [S.Writable(worker.id, send)]
    {
      Resolvable(worker.srcAddr);
      Flush(worker, send, reenter);
      Record(S.Writable(worker.id, send));
    }

    method Flush(worker: Worker, send: S.Send, reenter: bool)
      requires sessions.Valid() && sessions.Has(worker) && S.Resolves(sessions.World(), worker.srcAddr)
      requires CanHappen(S.Writable(worker.id, send))
      requires worker.handler != null ==> worker.handler.workerRef == worker
      modifies sessions`tables, sessions`clients, sessions`conns, sessions`failures,
        worker`dataToDst, worker`writing, worker`timers, worker`accepted,
        worker`closed, worker`chanDown, worker`tally, worker`now
      ensures sessions.Valid() && sessions.World() == S.Step(old(sessions.World()), S.Writable(worker.id, send), maxconn)
    {
      WritableIs(sessions.World(), worker.id, send, maxconn);
      sessions.OnWrite(worker, send, reenter);
    }

    method Message(worker: Worker, data: string, send: S.Send, reenter: bool)
      requires Valid() && sessions.Has(worker) && CanHappen(S.Message(worker.id, data, send))
      requires worker.handler != null && worker.handler.workerRef == worker
      modifies this`history, sessions`tables, sessions`clients, sessions`conns, sessions`failures,
        worker`queued, worker`dataToDst, worker`writing, worker`timers, worker`accepted,
        worker`closed, worker`chanDown, worker`tally, worker`now
      ensures Valid() && history == old(history) + [S.Message(worker.id, data, send)]
    {
      Resolvable(worker.srcAddr);
      Receive(worker, data, send, reenter);
      Record(S.Message(worker.id, data, send));
    }

    method Receive(worker: Worker, data: string, send: S.Send, reenter: bool)
      requires sessions.Valid() && sessions.Has(worker) && S.Resolves(sessions.World(), worker.srcAddr)
      requires CanHappen(S.Message(worker.id, data, send))
      requires worker.handler != null && worker.handler.workerRef == worker
      modifies sessions`tables, sessions`clients, sessions`conns, sessions`failures,
        worker`queued, worker`dataToDst, worker`writing, worker`timers, worker`accepted,
        worker`closed, worker`chanDown, worker`tally, worker`now
      ensures sessions.Valid() && sessions.World() == S.Step(old(sessions.World()), S.Message(worker.id, data, send), maxconn)
    {
      MessageIs(sessions.World(), worker.id, data, send, maxconn);
      sessions.OnMessage(worker.handler, data, send, reenter);
    }

    // ----- what therefore holds in memory, between any two events

    lemma WorkersKeepTheirPromises(worker: Worker)
      requires Valid() && sessions.Has(worker)
      ensures worker.Output() == worker.queued == SessionText.Texts(history, maxconn, worker.id)
      ensures !worker.closed ==> (worker.dataToDst != [] <==> worker.writing) && (worker.writing ==> worker.timers > 0)
      ensures worker.tally.chanCloses == worker.tally.sshCloses == (if worker.closed then 1 else 0)
      ensures worker.tally.loopRemoves == (if worker.closed && worker.handler != null then 1 else 0)
      ensures worker.tally.lateUpdates == 0
      ensures worker.recycled && worker.handler == null ==> worker.closed
    {
      SessionLife.EveryRunIsHealthy(history, maxconn);
      SessionText.ChannelGetsTheTexts(history, maxconn, worker.id);
      assert SessionLife.Healthy(sessions.conns[worker.id]);
    }

    /** Who would be let in next, in terms of the worker objects of the address. */
    lemma AnswersKeepTheirPromises(ip: string, id: string)
      requires Valid() && SessionCount.GuardedRunFor(history, maxconn, ip)
      ensures var live := set x | x in sessions.workers && sessions.workers[x].srcAddr == ip && !sessions.workers[x].closed;
        S.TooMany(sessions.World(), ip, maxconn) <==> live != {} && |live| >= maxconn
      ensures S.Claims(sessions.World(), ip, id)
         <==> id in sessions.workers && var worker := sessions.workers[id];
              worker.srcAddr == ip && worker.handler == null && !worker.closed
    {
      var w := sessions.World();
      RefusesTooManyLive(ip);
      ClaimsTheOffered(ip, id);
      assert (set x | x in sessions.workers && sessions.workers[x].srcAddr == ip && !sessions.workers[x].closed)
          == SessionCount.Live(w, ip);
    }

    lemma TablesKeepTheirPromises(n: nat, width: nat)
      requires Valid() && n in sessions.tables
      ensures SessionCap.AtMostTogether(history, maxconn, sessions.tables[n].owner, width) ==>
        |sessions.tables[n].slots| <= SessionCap.Limit(maxconn, width)
      ensures SessionOverlap.GuardedRun(history, maxconn) ==> sessions.failures == 0
    {
      var ip := sessions.tables[n].owner;
      if SessionCap.AtMostTogether(history, maxconn, ip, width) {
        SessionCap.TablesAreCapped(history, maxconn, ip, width);
      }
      SessionOverlap.RunsBreakExactly(history, maxconn);
    }
  }
}
