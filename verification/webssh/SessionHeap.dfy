// The sessions as the handlers and workers change them in place. Every method is
// tied to the event of the session machine that it carries out.
module SessionHeap {
  import opened Options
  import S = SessionState
  import SessionText

  lemma WriteOver(w: S.World, id: string, c: S.Conn, r: S.Send)
    requires id in w.conns && S.CanSend(c, r)
    ensures S.Write(w.(conns := w.conns[id := c]), id, c, r) == S.Write(w, id, c, r)
  {
    assert w.conns[id := c][id := S.OnWrite(c, r)] == w.conns[id := S.OnWrite(c, r)];
  }

  class WsockHandler {
    var workerRef: Worker?

    constructor ()
      ensures workerRef == null
    {
      workerRef := null;
    }

    ghost function Bound(): set<Worker>
      reads this
    {
      if workerRef == null then {} else {workerRef}
    }
  }

  /** `now` is what the session machine knows of the worker; what the loop, the channel and the SSH client have seen is in the other ghost fields. */
  class Worker {
    const id: string
    const srcAddr: string
    var dataToDst: seq<string>
    var handler: WsockHandler?
    var writing: bool
    var closed: bool
    var chanDown: bool
    ghost var recycled: bool
    ghost var timers: nat
    ghost var accepted: string
    ghost var queued: string
    ghost var tally: S.Tally
    ghost var now: S.Conn

    constructor (id: string, srcAddr: string)
      ensures this.id == id && this.srcAddr == srcAddr && handler == null
      ensures Reads() && now == S.NewConn(srcAddr)
    {
      this.id := id;
      this.srcAddr := srcAddr;
      dataToDst, handler, writing, closed := [], null, false, false;
      recycled, timers, chanDown, accepted, queued := false, 0, false, "", "";
      tally := S.Tally(0, 0, 0, 0, 0, 0);
      now := S.NewConn(srcAddr);
    }

    ghost function State(): S.Conn
      reads this
    {
      S.Conn(srcAddr, handler != null, closed, recycled, dataToDst, writing, timers, chanDown, accepted, queued, tally)
    }

    /** What the channel has accepted, and after it what waits. */
    ghost function Output(): string
      reads this`accepted, this`dataToDst
    {
      accepted + S.Join(dataToDst)
    }

    ghost predicate Reads()
      reads this
    {
      now == State()
    }

    /** set_handler, and add_handler. */
    method SetHandler(ws: WsockHandler)
      requires Reads()
      modifies this`handler, this`tally, this`now
      ensures Reads() && now == S.Claimed(old(now))
      ensures handler == if old(handler) == null then ws else old(handler)
    {
      if handler == null {
        handler := ws;
      }
      tally := tally.(loopAdds := tally.loopAdds + 1);
      now := State();
    }

    /** chan.close and ssh.close */
    method CloseChannel()
      modifies this`chanDown, this`tally
      ensures chanDown
      ensures tally == old(tally).(chanCloses := old(tally).chanCloses + 1, sshCloses := old(tally).sshCloses + 1)
    {
      chanDown := true;
      tally := tally.(chanCloses := tally.chanCloses + 1, sshCloses := tally.sshCloses + 1);
    }

    method LoseChannel()
      requires Reads()
      modifies this`chanDown, this`now
      ensures Reads() && now == old(now).(chanDown := true)
    {
      chanDown := true;
      now := State();
    }

    /** worker.data_to_dst.append(data) */
    method Append(data: string)
      requires Reads()
      modifies this`dataToDst, this`queued, this`now
      ensures Reads() && now == S.Queue(old(now), data)
      ensures Output() == old(Output()) + data
    {
      S.JoinSnoc(dataToDst, data);
      dataToDst := dataToDst + [data];
      queued := queued + data;
      now := State();
    }

    /** A timer of update_handler has gone off. */
    ghost method RetryFired()
      requires Reads() && timers > 0
      modifies this`timers, this`now
      ensures Reads() && now == S.Fired(old(now))
    {
      timers := timers - 1;
      now := State();
    }

    /** The timer of recycle_worker has gone off. */
    ghost method TimerFired()
      requires Reads()
      modifies this`recycled, this`now
      ensures Reads() && now == old(now).(recycled := true)
    {
      recycled := true;
      now := State();
    }

    /** clear_worker took the worker's entry out. */
    ghost method EntryRemoved()
      requires Reads()
      modifies this`tally, this`now
      ensures Reads() && now == S.CountRemoval(old(now))
    {
      tally := tally.(entryRemovals := tally.entryRemovals + 1);
      now := State();
    }

    method UpdateHandler(write: bool)
      modifies this`writing, this`timers, this`tally
      ensures State() == S.UpdateHandler(old(State()), write)
    {
      tally := tally.(lateUpdates := tally.lateUpdates + if closed then 1 else 0);
      if writing != write {
        writing := write;
      }
      if write {
        timers := timers + 1;
      }
    }

    /** ''.join(self.data_to_dst) */
    method JoinChunks() returns (data: string)
      ensures data == S.Join(dataToDst)
    {
      data := "";
      var i := |dataToDst|;
      assert dataToDst[i..] == [];
      while i > 0
        invariant 0 <= i <= |dataToDst|
        invariant data == S.Join(dataToDst[i..])
      {
        i := i - 1;
        assert dataToDst[i..][1..] == dataToDst[i + 1..];
        data := dataToDst[i] + data;
      }
      assert dataToDst[0..] == dataToDst;
    }

    /** on_write up to the point where it may have to close the worker. */
    method OnWrite(send: S.Send) returns (mustClose: bool)
      requires Reads() && S.CanSend(now, send)
      modifies this`dataToDst, this`writing, this`timers, this`accepted, this`tally, this`now
      ensures Reads() && now == S.OnWrite(old(now), send) && mustClose == S.WriteCloses(old(now), send)
      ensures Output() == old(Output())
    {
      SessionText.OnWriteKeepsOutput(now, send);
      mustClose := false;
      if dataToDst == [] {
        return;
      }
      var data := JoinChunks();
      match send {
        case Raised(connReset) =>
          if chanDown || connReset {
            mustClose := true;
          } else {
            UpdateHandler(true);
          }
        case Sent(n) =>
          accepted := accepted + data[..n];
          dataToDst := [];
          data := data[n..];
          if data != "" {
            dataToDst := dataToDst + [data];
            UpdateHandler(true);
          } else {
            UpdateHandler(false);
          }
      }
      now := State();
    }
  }

  /**
    The module-level state. A dictionary {id: worker or None} is an entry of `tables`, and its number is what refers
    to it. A worker is stored under its own ID, so that Free stands for the reference to the worker of that ID and
    Taken for None. `conns` collects what the workers show.
  */
  class Sessions {
    var tables: map<nat, S.Table>
    var clients: map<string, nat>
    var workers: map<string, Worker>
    ghost var conns: map<string, S.Conn>
    ghost var posts: map<nat, S.Post>
    ghost var failures: nat

    constructor ()
      ensures Valid() && World() == S.EMPTY
    {
      tables, clients, workers := map[], map[], map[];
      conns, posts, failures := map[], map[], 0;
    }

    ghost function World(): S.World
      reads this
    {
      S.World(tables, clients, conns, posts, failures)
    }

    ghost predicate Valid()
      reads this`workers, this`conns, workers.Values
    {
      && workers.Keys == conns.Keys
      && forall id | id in workers :: workers[id].id == id && workers[id].now == conns[id] && workers[id].Reads()
    }

    ghost predicate Has(worker: Worker)
      reads this`workers
    {
      worker.id in workers && workers[worker.id] == worker
    }

    ghost function Named(id: string): set<Worker>
      reads this`workers
    {
      if id in workers then {workers[id]} else {}
    }

    // ----- POST

    /** Up to the `yield`: the table is captured before the connection is made. None is the answer 429. */
    method PostBegin(ghost post: nat, ip: string, maxconn: int, spare: nat) returns (captured: Option<nat>)
      requires Valid() && S.Resolves(World(), ip) && post !in posts && spare !in tables
      modifies this`tables, this`posts
      ensures Valid()
      ensures captured == None
         <==> (ip in old(clients) && var slots := old(tables)[old(clients)[ip]].slots; slots != map[] && |slots| >= maxconn)
      ensures captured == None <==> S.TooMany(old(World()), ip, maxconn)
      ensures World() == if captured == None then old(World()) else S.Begin(old(World()), post, ip, spare)
      ensures captured.Some? ==> post in posts && posts[post] == S.Post(ip, captured.value)
    {
      var n := spare;
      if ip in clients {
        n := clients[ip];
        var slots := tables[n].slots;
        if slots != map[] && |slots| >= maxconn {
          return None;
        }
      } else {
        tables := tables[spare := S.Table(ip, map[])];
      }
      posts := posts[post := S.Post(ip, n)];
      return Some(n);
    }

    /** From the `yield` on, when the connection is up: the table is put into `clients` if it is empty by now, and the worker into the table. */
    method PostDone(ghost post: nat, ip: string, captured: nat, id: string) returns (worker: Worker)
      requires Valid() && post in posts && posts[post] == S.Post(ip, captured) && captured in tables && id !in workers
      modifies this`tables, this`clients, this`workers, this`conns, this`posts
      ensures Valid() && fresh(worker) && worker.handler == null && workers == old(workers)[id := worker] && worker.id == id
      ensures World() == S.Finish(old(World()), post, id)
    {
      if tables[captured].slots == map[] {
        clients := clients[ip := captured];
      }
      worker := Register(ip, captured, id);
      posts := posts - {post};
    }

    /** workers[worker.id] = worker */
    method Register(ip: string, captured: nat, id: string) returns (worker: Worker)
      requires Valid() && id !in workers && captured in tables
      modifies this`tables, this`workers, this`conns
      ensures Valid() && fresh(worker) && worker.handler == null && workers == old(workers)[id := worker] && worker.id == id
      ensures tables == S.PutSlot(old(tables), captured, id, S.Free) && conns == old(conns)[id := S.NewConn(ip)]
    {
      worker := NewWorker(ip, id);
      tables := tables[captured := S.Table(tables[captured].owner, tables[captured].slots[id := S.Free])];
    }

    method NewWorker(ip: string, id: string) returns (worker: Worker)
      requires Valid() && id !in workers
      modifies this`workers, this`conns
      ensures Valid() && fresh(worker) && worker.handler == null && workers == old(workers)[id := worker] && worker.id == id
      ensures conns == old(conns)[id := S.NewConn(ip)]
    {
      worker := new Worker(id, ip);
      workers, conns := workers[id := worker], conns[id := S.NewConn(ip)];
    }

    /** The connection did not come up: the captured table is given up. */
    ghost method PostFailed(post: nat)
      requires Valid()
      modifies this`posts
      ensures Valid() && World() == old(World()).(posts := old(posts) - {post})
    {
      posts := posts - {post};
    }

    // ----- websocket

    /** open(): the websocket claims the worker that the table of its address still has under this ID. */
    method Open(ws: WsockHandler, ip: string, id: string) returns (claimed: bool)
      requires Valid() && S.Resolves(World(), ip) && ws.workerRef == null
      modifies this`tables, this`conns, ws, Named(id)`handler, Named(id)`tally, Named(id)`now
      ensures Valid()
      ensures claimed
         <==> (ip in old(clients) && var slots := old(tables)[old(clients)[ip]].slots; id in slots && slots[id] == S.Free)
      ensures claimed == S.Claims(old(World()), ip, id)
      ensures !claimed ==> World() == old(World()) && ws.workerRef == null
      ensures claimed ==> World() == S.TakeSlot(old(World()), ip, id) && id in workers && ws.workerRef == workers[id]
      ensures id in workers ==>
        workers[id].handler == if claimed && old(workers[id].handler) == null then ws else old(workers[id].handler)
    {
      claimed := LooksUp(ip, id);
      if claimed {
        var worker := workers[id];
        ws.workerRef := worker;
        Take(ws, ip, worker);
      }
    }

    method Take(ws: WsockHandler, ip: string, worker: Worker)
      requires Valid() && Has(worker) && S.Claims(World(), ip, worker.id)
      modifies this`tables, this`conns, worker`handler, worker`tally, worker`now
      ensures Valid() && World() == S.TakeSlot(old(World()), ip, worker.id)
      ensures worker.handler == if old(worker.handler) == null then ws else old(worker.handler)
    {
      tables := S.PutSlot(tables, clients[ip], worker.id, S.Taken);
      Claim(worker, ws);
    }

    /** worker = workers.get(worker_id) in the table of the address: whether that gives a worker. */
    method LooksUp(ip: string, id: string) returns (found: bool)
      requires workers.Keys == conns.Keys && S.Resolves(World(), ip)
      ensures found == S.Claims(World(), ip, id)
    {
      if ip !in clients {
        return false;
      }
      var slots := tables[clients[ip]].slots;
      return slots != map[] && id in slots && slots[id] == S.Free;
    }

    method Claim(worker: Worker, ws: WsockHandler)
      requires Valid() && Has(worker)
      modifies worker`handler, worker`tally, worker`now, this`conns
      ensures Valid() && conns == old(conns)[worker.id := S.Claimed(old(conns)[worker.id])]
      ensures worker.handler == if old(worker.handler) == null then ws else old(worker.handler)
    {
      worker.SetHandler(ws);
      conns := conns[worker.id := S.Claimed(conns[worker.id])];
    }

    // ----- closing

    /**
      close(), which asks the websocket to close, which may in turn call close() again before this call is over. The
      second call has to leave everything alone.
    */
    method Close(worker: Worker, reenter: bool)
      requires !worker.closed ==> Valid() && Has(worker) && S.Resolves(World(), worker.srcAddr)
      requires worker.handler != null ==> worker.handler.workerRef == worker
      modifies this`tables, this`clients, this`conns, this`failures,
        worker`closed, worker`chanDown, worker`tally, worker`now
      ensures old(worker.closed) ==> unchanged(this) && unchanged(worker)
      ensures !old(worker.closed) ==> Valid() && World() == S.Close(old(World()), worker.id)
      decreases if worker.closed then 0 else 4
    {
      if worker.closed {
        return;
      }
      CloseUp(worker, reenter);
      ClearWorker(worker);
    }

    method CloseUp(worker: Worker, reenter: bool)
      requires Valid() && Has(worker) && !worker.closed
      requires worker.handler != null ==> worker.handler.workerRef == worker
      modifies this`tables, this`clients, this`conns, this`failures,
        worker`closed, worker`chanDown, worker`tally, worker`now
      ensures Valid()
      ensures unchanged(this`tables, this`clients, this`failures)
      ensures conns == old(conns)[worker.id := S.Hangup(old(conns)[worker.id])]
      decreases 3
    {
      Hangup(worker, reenter);
      conns := conns[worker.id := S.Hangup(conns[worker.id])];
    }

    /** What close() does to the worker before it calls clear_worker. */
    method Hangup(worker: Worker, reenter: bool)
      requires worker.Reads() && !worker.closed
      requires worker.handler != null ==> worker.handler.workerRef == worker
      modifies this`tables, this`clients, this`conns, this`failures,
        worker`closed, worker`chanDown, worker`tally, worker`now
      ensures unchanged(this)
      ensures worker.Reads() && worker.now == S.Hangup(old(worker.now))
      decreases 2
    {
      worker.closed := true;
      if worker.handler != null {
        worker.tally := worker.tally.(loopRemoves := worker.tally.loopRemoves + 1);
        if reenter {
          OnClose(worker.handler);
        }
      }
      worker.CloseChannel();
      worker.now := worker.State();
    }

    method ClearWorker(worker: Worker)
      requires Valid() && Has(worker) && S.Resolves(World(), worker.srcAddr)
      modifies this`tables, this`clients, this`conns, this`failures, worker`tally, worker`now
      ensures Valid() && World() == S.ClearWorker(old(World()), worker.id)
    {
      if worker.srcAddr in clients && worker.id in tables[clients[worker.srcAddr]].slots {
        TakeOut(worker);
      } else {
        failures := failures + 1;
      }
    }

    method TakeOut(worker: Worker)
      requires Valid() && Has(worker) && S.HasEntry(World(), worker.id)
      modifies this`tables, this`clients, this`conns, worker`tally, worker`now
      ensures Valid() && World() == S.TakeOut(old(World()), worker.id)
    {
      PopSlot(worker.srcAddr, worker.id);
      CountRemoval(worker);
    }

    ghost method CountRemoval(worker: Worker)
      requires Valid() && Has(worker)
      modifies this`conns, worker`tally, worker`now
      ensures Valid() && conns == old(conns)[worker.id := S.CountRemoval(old(conns)[worker.id])]
    {
      worker.EntryRemoved();
      conns := conns[worker.id := S.CountRemoval(conns[worker.id])];
    }

    /** workers.pop(worker.id), and clients.pop(ip) when that was the last entry. */
    method PopSlot(ip: string, id: string)
      requires ip in clients && clients[ip] in tables
      modifies this`tables, this`clients
      ensures tables == S.DropSlot(old(tables), old(clients)[ip], id)
      ensures clients == if tables[old(clients)[ip]].slots == map[] then old(clients) - {ip} else old(clients)
    {
      var n := clients[ip];
      tables := tables[n := S.Table(tables[n].owner, tables[n].slots - {id})];
      if tables[n].slots == map[] {
        clients := clients - {ip};
      }
    }

    /** The timer that closes a worker no websocket has claimed. */
    method RecycleWorker(worker: Worker)
      requires Valid() && Has(worker) && S.Resolves(World(), worker.srcAddr)
      modifies this`tables, this`clients, this`conns, this`failures,
        worker`recycled, worker`closed, worker`chanDown, worker`tally, worker`now
      ensures Valid()
      ensures var was := S.Recycled(old(World()), worker.id);
        World() == if old(worker.handler) != null then was else S.Close(was, worker.id)
    {
      CountTimer(worker);
      if worker.handler != null {
        return;
      }
      Close(worker, false);
    }

    /** The channel is closed from the other end. */
    method LoseChannel(worker: Worker)
      requires Valid() && Has(worker)
      modifies this`conns, worker`chanDown, worker`now
      ensures Valid() && conns == old(conns)[worker.id := old(conns)[worker.id].(chanDown := true)]
    {
      worker.LoseChannel();
      conns := conns[worker.id := conns[worker.id].(chanDown := true)];
    }

    ghost method CountTimer(worker: Worker)
      requires Valid() && Has(worker)
      modifies this`conns, worker`recycled, worker`now
      ensures Valid() && conns == old(conns)[worker.id := old(conns)[worker.id].(recycled := true)]
    {
      worker.TimerFired();
      conns := conns[worker.id := conns[worker.id].(recycled := true)];
    }

    // ----- output

    /** on_write, called by the loop or by on_message. */
    method OnWrite(worker: Worker, send: S.Send, reenter: bool)
      requires Valid() && Has(worker) && S.Resolves(World(), worker.srcAddr) && S.CanSend(conns[worker.id], send)
      requires worker.handler != null ==> worker.handler.workerRef == worker
      modifies this`tables, this`clients, this`conns, this`failures,
        worker`dataToDst, worker`writing, worker`timers, worker`accepted,
        worker`closed, worker`chanDown, worker`tally, worker`now
      ensures Valid()
      ensures World() == S.Write(old(World()), worker.id, old(conns)[worker.id], send)
    {
      var mustClose := Send(worker, send);
      if mustClose {
        Close(worker, reenter);
      }
    }

    method Send(worker: Worker, send: S.Send) returns (mustClose: bool)
      requires Valid() && Has(worker) && S.CanSend(conns[worker.id], send)
      modifies this`conns, worker`dataToDst, worker`writing, worker`timers, worker`accepted, worker`tally, worker`now
      ensures Valid() && conns == old(conns)[worker.id := S.OnWrite(old(conns)[worker.id], send)]
      ensures mustClose == S.WriteCloses(old(conns)[worker.id], send)
    {
      mustClose := worker.OnWrite(send);
      conns := conns[worker.id := S.OnWrite(conns[worker.id], send)];
    }

    /** The timer that update_handler starts. */
    method RetryTimer(worker: Worker, send: S.Send, reenter: bool)
      requires Valid() && Has(worker) && S.Resolves(World(), worker.srcAddr)
      requires conns[worker.id].timers > 0 && S.CanSend(conns[worker.id], send)
      requires worker.handler != null ==> worker.handler.workerRef == worker
      modifies this`tables, this`clients, this`conns, this`failures,
        worker`dataToDst, worker`writing, worker`timers, worker`accepted,
        worker`closed, worker`chanDown, worker`tally, worker`now
      ensures Valid()
      ensures World() == S.Write(old(World()), worker.id, S.Fired(old(conns)[worker.id]), send)
    {
      ghost var was := World();
      CountRetry(worker);
      WriteOver(was, worker.id, conns[worker.id], send);
      OnWrite(worker, send, reenter);
    }

    ghost method CountRetry(worker: Worker)
      requires Valid() && Has(worker) && conns[worker.id].timers > 0
      modifies this`conns, worker`timers, worker`now
      ensures Valid() && conns == old(conns)[worker.id := S.Fired(old(conns)[worker.id])]
    {
      worker.RetryFired();
      conns := conns[worker.id := S.Fired(conns[worker.id])];
    }

    method Append(worker: Worker, data: string)
      requires Valid() && Has(worker)
      modifies this`conns, worker`dataToDst, worker`queued, worker`now
      ensures Valid() && conns == old(conns)[worker.id := S.Queue(old(conns)[worker.id], data)]
    {
      worker.Append(data);
      conns := conns[worker.id := S.Queue(conns[worker.id], data)];
    }

    /** on_message with text for the channel, which gets it after all that was sent before. */
    method OnMessage(ws: WsockHandler, data: string, send: S.Send, reenter: bool)
      requires ws.workerRef != null && ws.workerRef.handler != null && ws.workerRef.handler.workerRef == ws.workerRef
      requires Valid() && Has(ws.workerRef) && S.Resolves(World(), ws.workerRef.srcAddr)
      requires data != "" && S.CanTake(conns[ws.workerRef.id], data, send)
      modifies this`tables, this`clients, this`conns, this`failures,
        ws.workerRef`queued, ws.workerRef`dataToDst, ws.workerRef`writing, ws.workerRef`timers, ws.workerRef`accepted,
        ws.workerRef`closed, ws.workerRef`chanDown, ws.workerRef`tally, ws.workerRef`now
      ensures Valid()
      ensures S.CanSend(S.Queue(old(conns)[ws.workerRef.id], data), send)
      ensures World() == if old(ws.workerRef.closed) then old(World())
        else S.Write(old(World()), ws.workerRef.id, S.Queue(old(conns)[ws.workerRef.id], data), send)
      ensures ws.workerRef.Output() == old(ws.workerRef.Output()) + if old(ws.workerRef.closed) then "" else data
    {
      var worker := ws.workerRef;
      ghost var was, c := World(), conns[worker.id];
      S.JoinSnoc(c.pending, data);
      OutputShows(worker);
      Deliver(worker, data, send, reenter);
      MessageText(was, World(), worker.id, data, send);
      OutputShows(worker);
    }

    lemma MessageText(w: S.World, t: S.World, id: string, data: string, send: S.Send)
      requires id in w.conns && S.CanSend(S.Queue(w.conns[id], data), send)
      requires t == if w.conns[id].closed then w else S.Write(w, id, S.Queue(w.conns[id], data), send)
      ensures SessionText.OutputOf(t, id) == SessionText.OutputOf(w, id) + if w.conns[id].closed then "" else data
    {
      S.JoinSnoc(w.conns[id].pending, data);
      if !w.conns[id].closed {
        SessionText.WriteOutput(w, id, S.Queue(w.conns[id], data), send, id);
      }
    }

    lemma OutputShows(worker: Worker)
      requires Valid() && Has(worker)
      ensures worker.Output() == SessionText.OutputOf(World(), worker.id) && worker.closed == conns[worker.id].closed
    {
    }

    method Deliver(worker: Worker, data: string, send: S.Send, reenter: bool)
      requires Valid() && Has(worker) && S.Resolves(World(), worker.srcAddr)
      requires worker.handler != null && worker.handler.workerRef == worker
      requires S.CanSend(S.Queue(conns[worker.id], data), send)
      modifies this`tables, this`clients, this`conns, this`failures,
        worker`queued, worker`dataToDst, worker`writing, worker`timers, worker`accepted,
        worker`closed, worker`chanDown, worker`tally, worker`now
      ensures Valid()
      ensures World() == if old(conns)[worker.id].closed then old(World())
        else S.Write(old(World()), worker.id, S.Queue(old(conns)[worker.id], data), send)
    {
      if worker.closed {
        return;
      }
      ghost var was := World();
      Append(worker, data);
      WriteOver(was, worker.id, conns[worker.id], send);
      OnWrite(worker, send, reenter);
    }

    method OnClose(ws: WsockHandler)
      requires ws.workerRef != null ==> !ws.workerRef.closed ==>
        Valid() && Has(ws.workerRef) && S.Resolves(World(), ws.workerRef.srcAddr)
      requires ws.workerRef != null && ws.workerRef.handler != null ==> ws.workerRef.handler.workerRef == ws.workerRef
      modifies this`tables, this`clients, this`conns, this`failures,
        ws.Bound()`closed, ws.Bound()`chanDown, ws.Bound()`tally, ws.Bound()`now
      ensures ws.workerRef == null || old(ws.workerRef.closed) ==> unchanged(this)
      ensures ws.workerRef != null && old(ws.workerRef.closed) ==> unchanged(ws.workerRef)
      ensures ws.workerRef != null && !old(ws.workerRef.closed) ==> Valid() && World() == S.Close(old(World()), ws.workerRef.id)
      decreases if ws.workerRef == null || ws.workerRef.closed then 1 else 5
    {
      if ws.workerRef != null {
        Close(ws.workerRef, false);
      }
    }
  }
}
