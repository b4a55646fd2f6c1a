// What the browser sends is what the channel gets: the texts of the messages, in the
// order of the events, against the characters accepted and waiting.
module SessionText {
  import opened Options
  import opened SessionState
  import opened SessionTables
  import opened SessionLife

  /** The text of the event, if it is a message for `id` and its worker is alive. */
  function TextOf(w: World, e: Event, id: string): string {
    match e
    case Message(x, data, _) => if x == id && Enabled(w, e) && !w.conns[id].closed then data else ""
    case _ => ""
  }

  /** The texts that reached the worker, in order. */
  function Texts(es: seq<Event>, maxconn: int, id: string): string {
    if es == [] then ""
    else
      var init := es[..|es| - 1];
      Texts(init, maxconn, id) + TextOf(Run(EMPTY, init, maxconn), es[|es| - 1], id)
  }

  /** What the channel has accepted from the worker and what still waits, one after the other. */
  function Output(c: Conn): string {
    c.accepted + Join(c.pending)
  }

  function OutputOf(w: World, id: string): string {
    if id in w.conns then Output(w.conns[id]) else ""
  }

  /** An attempt to send moves characters over, or leaves them. */
  lemma OnWriteKeepsOutput(c: Conn, r: Send)
    requires CanSend(c, r)
    ensures Output(OnWrite(c, r)) == Output(c)
  {
    if c.pending != [] && r.Sent? {
      SendingKeepsOutput(c, r.count);
    }
  }

  lemma SendingKeepsOutput(c: Conn, n: nat)
    requires c.pending != [] && CanSend(c, Sent(n))
    ensures Output(OnWrite(c, Sent(n))) == Output(c)
  {
    var data := Join(c.pending);
    PrefixMoves(c.accepted, data, n);
    if data[n..] != "" {
      JoinOne(data[n..]);
    }
  }

  lemma CloseKeepsOutput(w: World, id: string, x: string)
    requires id in w.conns
    ensures OutputOf(Close(w, id), x) == OutputOf(w, x)
  {
    CloseEffect(w, id);
  }

  lemma WriteOutput(w: World, id: string, c: Conn, r: Send, x: string)
    requires id in w.conns && CanSend(c, r)
    ensures OutputOf(Write(w, id, c, r), x) == if x == id then Output(c) else OutputOf(w, x)
  {
    OnWriteKeepsOutput(c, r);
    CloseKeepsOutput(w.(conns := w.conns[id := OnWrite(c, r)]), id, x);
  }

  lemma MessageOutput(w: World, id: string, data: string, r: Send, maxconn: int, x: string)
    requires Enabled(w, Message(id, data, r))
    ensures OutputOf(Step(w, Message(id, data, r), maxconn), x) == OutputOf(w, x) + TextOf(w, Message(id, data, r), x)
  {
    if !w.conns[id].closed {
      JoinSnoc(w.conns[id].pending, data);
      WriteOutput(w, id, Queue(w.conns[id], data), r, x);
    }
  }

  lemma StepOutput(w: World, e: Event, maxconn: int, x: string)
    ensures OutputOf(Step(w, e, maxconn), x) == OutputOf(w, x) + TextOf(w, e, x)
  {
    if Enabled(w, e) {
      match e {
        case RecycleTimer(id) => CloseKeepsOutput(Recycled(w, id), id, x);
        case Shut(id) => CloseKeepsOutput(w, id, x);
        case Message(id, data, r) => MessageOutput(w, id, data, r, maxconn, x);
        case RetryTimer(id, r) => WriteOutput(w, id, Fired(w.conns[id]), r, x);
        case Writable(id, r) => WriteOutput(w, id, w.conns[id], r, x);
        case _ =>
      }
    }
  }

  /**
    In every run, for every worker: the characters the channel has accepted, followed by those that wait, are the
    texts of the messages that reached the worker alive, in the order they came. No text is lost, doubled or moved.
  */
  lemma {:induction false} ChannelGetsTheTexts(es: seq<Event>, maxconn: int, id: string)
    ensures OutputOf(Run(EMPTY, es, maxconn), id) == Texts(es, maxconn, id)
  {
    if es != [] {
      ChannelGetsTheTexts(es[..|es| - 1], maxconn, id);
      StepOutput(Run(EMPTY, es[..|es| - 1], maxconn), es[|es| - 1], maxconn, id);
    }
  }

  /** So once nothing waits, the channel has accepted exactly the texts. */
  lemma NothingWaits(es: seq<Event>, maxconn: int, id: string)
    requires var w := Run(EMPTY, es, maxconn); id in w.conns && w.conns[id].pending == []
    ensures Run(EMPTY, es, maxconn).conns[id].accepted == Texts(es, maxconn, id)
  {
    ChannelGetsTheTexts(es, maxconn, id);
  }
}
