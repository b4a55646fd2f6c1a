// What one event does to one worker: which events end it, and how many retry timers
// it can have on their way.
module SessionSteps {
  import opened Options
  import opened SessionState
  import opened SessionTables
  import opened SessionLife

  /** An attempt to send that cannot be made good: it raises, and the channel is closed or was reset. */
  predicate Fatal(c: Conn, r: Send) {
    r.Raised? && (c.chanDown || r.connReset)
  }

  /** The events that end a live worker: its recycle timer while it is unclaimed, the end of a claimed worker's websocket or channel, and an attempt that fails for good while output waits. */
  predicate Ends(w: World, e: Event, id: string)
    requires id in w.conns
  {
    var c := w.conns[id];
    match e
    case RecycleTimer(x) => x == id && !c.recycled && !c.claimed
    case Shut(x) => x == id && c.claimed
    case Message(x, data, r) => x == id && c.claimed && data != "" && Fatal(c, r)
    case RetryTimer(x, r) => x == id && c.timers > 0 && c.pending != [] && Fatal(c, r)
    case Writable(x, r) => x == id && c.claimed && c.writing && c.pending != [] && Fatal(c, r)
    case _ => false
  }

  lemma WriteEnds(w: World, id: string, c: Conn, r: Send)
    requires id in w.conns && CanSend(c, r) && !c.closed
    ensures id in Write(w, id, c, r).conns && (Write(w, id, c, r).conns[id].closed <==> c.pending != [] && Fatal(c, r))
  {
    CloseEffect(w.(conns := w.conns[id := OnWrite(c, r)]), id);
  }

  /** A live worker is gone after an event if and only if the event is one of those that end it; any other worker's events leave it alive. */
  lemma EndsExactly(w: World, e: Event, maxconn: int, id: string)
    requires id in w.conns && !w.conns[id].closed
    ensures StageOf(Step(w, e, maxconn), id) == Gone <==> Ends(w, e, id)
  {
    if Target(e) != Some(id) {
      OthersLeaveAlone(w, e, maxconn, id);
    } else if Enabled(w, e) {
      match e {
        case RecycleTimer(_) => CloseEffect(Recycled(w, id), id);
        case Shut(_) => CloseEffect(w, id);
        case Message(_, data, r) =>
          JoinSnoc(w.conns[id].pending, data);
          WriteEnds(w, id, Queue(w.conns[id], data), r);
        case RetryTimer(_, r) => WriteEnds(w, id, Fired(w.conns[id]), r);
        case Writable(_, r) => WriteEnds(w, id, w.conns[id], r);
        case _ =>
      }
    }
  }

  // ----- retry timers

  function TimersOf(w: World, id: string): nat {
    if id in w.conns then w.conns[id].timers else 0
  }

  /** The attempt to send that the event makes for `id`, and the output it makes it with. */
  predicate Attempts(w: World, e: Event, id: string) {
    && id in w.conns && Enabled(w, e)
    && match e
       case Message(x, _, _) => x == id && !w.conns[id].closed
       case RetryTimer(x, _) => x == id && w.conns[id].pending != []
       case Writable(x, _) => x == id && w.conns[id].pending != []
       case _ => false
  }

  /** The attempt fails for now, or leaves output waiting. */
  predicate StartsTimer(w: World, e: Event, maxconn: int, id: string) {
    && Attempts(w, e, id) && !Fatal(w.conns[id], e.send)
    && id in Step(w, e, maxconn).conns && Step(w, e, maxconn).conns[id].pending != []
  }

  lemma WriteTimers(w: World, id: string, c: Conn, r: Send)
    requires id in w.conns && CanSend(c, r)
    ensures var t := Write(w, id, c, r);
      && id in t.conns
      && t.conns[id].timers == c.timers + if c.pending != [] && !Fatal(c, r) && t.conns[id].pending != [] then 1 else 0
  {
    CloseEffect(w.(conns := w.conns[id := OnWrite(c, r)]), id);
  }

  lemma AttemptTimers(w: World, e: Event, maxconn: int, id: string)
    requires id in w.conns && Target(e) == Some(id) && Enabled(w, e) && (e.Message? || e.RetryTimer? || e.Writable?)
    ensures TimersOf(Step(w, e, maxconn), id)
         == TimersOf(w, id) - (if e.RetryTimer? then 1 else 0) + (if StartsTimer(w, e, maxconn, id) then 1 else 0)
  {
    match e {
      case Message(_, data, r) =>
        JoinSnoc(w.conns[id].pending, data);
        WriteTimers(w, id, Queue(w.conns[id], data), r);
      case RetryTimer(_, r) => WriteTimers(w, id, Fired(w.conns[id]), r);
      case Writable(_, r) => WriteTimers(w, id, w.conns[id], r);
    }
  }

  lemma OtherEventsTimers(w: World, e: Event, maxconn: int, id: string)
    requires id in w.conns && (Target(e) != Some(id) || !(e.Message? || e.RetryTimer? || e.Writable?))
    ensures TimersOf(Step(w, e, maxconn), id) == TimersOf(w, id) && !Attempts(w, e, id)
  {
    if Target(e) != Some(id) {
      OthersLeaveAlone(w, e, maxconn, id);
    } else if Enabled(w, e) {
      match e {
        case RecycleTimer(_) => CloseEffect(Recycled(w, id), id);
        case Shut(_) => CloseEffect(w, id);
        case _ =>
      }
    }
  }

  lemma NewcomerTimers(w: World, e: Event, maxconn: int, id: string)
    requires id !in w.conns
    ensures TimersOf(Step(w, e, maxconn), id) == 0 && !Attempts(w, e, id)
  {
    if Enabled(w, e) {
      match e {
        case RecycleTimer(x) => CloseEffect(Recycled(w, x), x);
        case Shut(x) => CloseEffect(w, x);
        case Message(x, data, r) =>
          JoinSnoc(w.conns[x].pending, data);
          WriteKeys(w, x, Queue(w.conns[x], data), r);
        case RetryTimer(x, r) => WriteKeys(w, x, Fired(w.conns[x]), r);
        case Writable(x, r) => WriteKeys(w, x, w.conns[x], r);
        case _ =>
      }
    }
  }

  lemma WriteKeys(w: World, id: string, c: Conn, r: Send)
    requires id in w.conns && CanSend(c, r)
    ensures Write(w, id, c, r).conns.Keys == w.conns.Keys
  {
    CloseEffect(w.(conns := w.conns[id := OnWrite(c, r)]), id);
  }

  /** One timer goes with each that fires, and one comes with each attempt that fails for now or leaves output waiting; nothing else touches them. */
  lemma TimersExactly(w: World, e: Event, maxconn: int, id: string)
    ensures TimersOf(Step(w, e, maxconn), id)
         == TimersOf(w, id) - (if e.RetryTimer? && e.id == id && Enabled(w, e) then 1 else 0)
            + (if StartsTimer(w, e, maxconn, id) then 1 else 0)
  {
    if id !in w.conns {
      NewcomerTimers(w, e, maxconn, id);
    } else if Target(e) != Some(id) || !(e.Message? || e.RetryTimer? || e.Writable?) {
      OtherEventsTimers(w, e, maxconn, id);
    } else if Enabled(w, e) {
      AttemptTimers(w, e, maxconn, id);
    }
  }

  /** A message for the worker, or the loop finding its channel ready. */
  predicate Kicks(e: Event, id: string) {
    (e.Message? || e.Writable?) && e.id == id
  }

  function KicksIn(es: seq<Event>, id: string): nat {
    if es == [] then 0 else KicksIn(es[..|es| - 1], id) + if Kicks(es[|es| - 1], id) then 1 else 0
  }

  /** So timers do not multiply: a worker never has more of them on their way than it was sent messages or found ready. */
  lemma {:induction false} TimersAreKicked(es: seq<Event>, maxconn: int, id: string)
    ensures TimersOf(Run(EMPTY, es, maxconn), id) <= KicksIn(es, id)
  {
    if es != [] {
      TimersAreKicked(es[..|es| - 1], maxconn, id);
      TimersExactly(Run(EMPTY, es[..|es| - 1], maxconn), es[|es| - 1], maxconn, id);
    }
  }
}
