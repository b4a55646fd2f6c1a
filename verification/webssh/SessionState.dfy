// The life of WebSSH sessions (worker.py, handler.py) as a state machine over
// values. Python's dictionaries of workers have an identity of their own here: a
// table can be captured by a POST, emptied, dropped from `clients` and put back.
module SessionState {
  import opened Options

  /** What a table holds under a worker's ID: the worker, or None once a websocket has claimed it. */
  datatype Slot = Free | Taken

  /** `owner` is the client address the table was made for. */
  datatype Table = Table(owner: string, slots: map<string, Slot>)

  /** How often the outside world was told about one worker; `lateUpdates` counts calls of update_handler on a closed one. */
  datatype Tally = Tally(chanCloses: nat, sshCloses: nat, loopAdds: nat, loopRemoves: nat, entryRemovals: nat, lateUpdates: nat)

  datatype Conn = Conn(
    ip: string, claimed: bool, closed: bool, recycled: bool,
    pending: seq<string>, writing: bool, timers: nat, chanDown: bool,
    accepted: string, queued: string, tally: Tally)

  /** A POST that waits for its connection, with the table it captured before. */
  datatype Post = Post(ip: string, table: nat)

  /** `failures` counts the times clear_worker did not find the worker it was to take out. */
  datatype World = World(
    tables: map<nat, Table>, clients: map<string, nat>, conns: map<string, Conn>, posts: map<nat, Post>, failures: nat)

  const EMPTY: World := World(map[], map[], map[], map[], 0)

  /** What chan.send does: take a prefix, or raise. */
  datatype Send = Sent(count: nat) | Raised(connReset: bool)

  datatype Event =
    | PostBegin(post: nat, ip: string, spare: nat)
    | PostFailed(post: nat)
    | PostDone(post: nat, id: string)
    | Claim(ip: string, id: string)
    | RecycleTimer(id: string)
    | Shut(id: string)
    | ChanLost(id: string)
    | Message(id: string, data: string, send: Send)
    | RetryTimer(id: string, send: Send)
    | Writable(id: string, send: Send)

  // ----- output

  function Join(chunks: seq<string>): string {
    if chunks == [] then "" else chunks[0] + Join(chunks[1..])
  }

  /** chan.send takes no more than it was given, and raises once the channel is closed. */
  predicate CanSend(c: Conn, r: Send) {
    match r
    case Sent(n) => !c.chanDown && n <= |Join(c.pending)|
    case Raised(_) => true
  }

  /** The same for a channel that is given `data` as well, after all that waits. */
  predicate CanTake(c: Conn, data: string, r: Send) {
    match r
    case Sent(n) => !c.chanDown && n <= |Join(c.pending)| + |data|
    case Raised(_) => true
  }

  lemma {:induction false} JoinSnoc(chunks: seq<string>, s: string)
    ensures Join(chunks + [s]) == Join(chunks) + s
  {
    if chunks == [] {
      assert [] + [s] == [s] && [s][1..] == [];
    } else {
      assert (chunks + [s])[1..] == chunks[1..] + [s];
      JoinSnoc(chunks[1..], s);
    }
  }

  function UpdateHandler(c: Conn, write: bool): Conn {
    c.(writing := write, timers := c.timers + (if write then 1 else 0),
       tally := c.tally.(lateUpdates := c.tally.lateUpdates + if c.closed then 1 else 0))
  }

  /** Whether on_write comes to the conclusion that the worker must close. */
  predicate WriteCloses(c: Conn, r: Send) {
    c.pending != [] && r.Raised? && (c.chanDown || r.connReset)
  }

  function OnWrite(c: Conn, r: Send): Conn
    requires CanSend(c, r)
  {
    if c.pending == [] then c
    else
      match r
      case Raised(_) => if WriteCloses(c, r) then c else UpdateHandler(c, true)
      case Sent(n) =>
        var data := Join(c.pending);
        var rest := data[n..];
        UpdateHandler(c.(pending := if rest != "" then [rest] else [], accepted := c.accepted + data[..n]), rest != "")
  }

  // ----- closing

  function PutSlot(tables: map<nat, Table>, n: nat, id: string, s: Slot): map<nat, Table>
    requires n in tables
  {
    tables[n := Table(tables[n].owner, tables[n].slots[id := s])]
  }

  function DropSlot(tables: map<nat, Table>, n: nat, id: string): map<nat, Table>
    requires n in tables
  {
    tables[n := Table(tables[n].owner, tables[n].slots - {id})]
  }

  function CountRemoval(c: Conn): Conn {
    c.(tally := c.tally.(entryRemovals := c.tally.entryRemovals + 1))
  }

  /** The table that `clients` has for the worker's address now has the worker. */
  predicate HasEntry(w: World, id: string)
    requires id in w.conns
  {
    var ip := w.conns[id].ip;
    ip in w.clients && w.clients[ip] in w.tables && id in w.tables[w.clients[ip]].slots
  }

  function TakeOut(w: World, id: string): World
    requires id in w.conns && HasEntry(w, id)
  {
    var ip := w.conns[id].ip;
    var n := w.clients[ip];
    var tables := DropSlot(w.tables, n, id);
    w.(tables := tables, clients := if tables[n].slots == map[] then w.clients - {ip} else w.clients,
       conns := w.conns[id := CountRemoval(w.conns[id])])
  }

  /** clear_worker, whose assertion fails when the worker has no entry. */
  function ClearWorker(w: World, id: string): World
    requires id in w.conns
  {
    if HasEntry(w, id) then TakeOut(w, id) else w.(failures := w.failures + 1)
  }

  /** The part of close() before clear_worker. */
  function Hangup(c: Conn): Conn {
    c.(closed := true, chanDown := true,
       tally := c.tally.(chanCloses := c.tally.chanCloses + 1, sshCloses := c.tally.sshCloses + 1,
                         loopRemoves := c.tally.loopRemoves + if c.claimed then 1 else 0))
  }

  function Close(w: World, id: string): World
    requires id in w.conns
  {
    var c := w.conns[id];
    if c.closed then w else ClearWorker(w.(conns := w.conns[id := Hangup(c)]), id)
  }

  /** One call of on_write on the worker as `c` shows it. */
  function Write(w: World, id: string, c: Conn, r: Send): World
    requires id in w.conns && CanSend(c, r)
  {
    var w' := w.(conns := w.conns[id := OnWrite(c, r)]);
    if WriteCloses(c, r) then Close(w', id) else w'
  }

  // ----- requests

  /** The table a POST captures: the one in `clients`, or a new one that nothing else refers to yet. */
  function Captured(w: World, ip: string, spare: nat): nat {
    if ip in w.clients then w.clients[ip] else spare
  }

  /** The table that `clients` has for the address exists, and so do the workers in it. */
  predicate Resolves(w: World, ip: string) {
    ip in w.clients ==> w.clients[ip] in w.tables && w.tables[w.clients[ip]].slots.Keys <= w.conns.Keys
  }

  predicate TooMany(w: World, ip: string, maxconn: int) {
    && ip in w.clients && w.clients[ip] in w.tables
    && var slots := w.tables[w.clients[ip]].slots; slots != map[] && |slots| >= maxconn
  }

  function Begin(w: World, post: nat, ip: string, spare: nat): World {
    var n := Captured(w, ip, spare);
    w.(posts := w.posts[post := Post(ip, n)],
       tables := if ip in w.clients then w.tables else w.tables[n := Table(ip, map[])])
  }

  function NewConn(ip: string): Conn {
    Conn(ip, false, false, false, [], false, 0, false, "", "", Tally(0, 0, 0, 0, 0, 0))
  }

  function Finish(w: World, post: nat, id: string): World
    requires post in w.posts && w.posts[post].table in w.tables
  {
    var Post(ip, n) := w.posts[post];
    World(PutSlot(w.tables, n, id, Free),
          if w.tables[n].slots == map[] then w.clients[ip := n] else w.clients,
          w.conns[id := NewConn(ip)], w.posts - {post}, w.failures)
  }

  /** A websocket gets the worker if the table of its own address has it, and has it free. */
  predicate Claims(w: World, ip: string, id: string) {
    && ip in w.clients && w.clients[ip] in w.tables
    && id in w.tables[w.clients[ip]].slots && w.tables[w.clients[ip]].slots[id] == Free && id in w.conns
  }

  /** set_handler on a worker without one, and add_handler. */
  function Claimed(c: Conn): Conn {
    c.(claimed := true, tally := c.tally.(loopAdds := c.tally.loopAdds + 1))
  }

  function TakeSlot(w: World, ip: string, id: string): World
    requires Claims(w, ip, id)
  {
    w.(tables := PutSlot(w.tables, w.clients[ip], id, Taken), conns := w.conns[id := Claimed(w.conns[id])])
  }

  function Recycled(w: World, id: string): World
    requires id in w.conns
  {
    w.(conns := w.conns[id := w.conns[id].(recycled := true)])
  }

  /** One retry timer of the worker has gone off. */
  function Fired(c: Conn): Conn
    requires c.timers > 0
  {
    c.(timers := c.timers - 1)
  }

  // ----- events

  /** What has to be the case for the event to happen; `fresh` IDs and tables are part of it. */
  predicate Enabled(w: World, e: Event) {
    match e
    case PostBegin(p, ip, n) => p !in w.posts && n !in w.tables
    case PostFailed(p) => p in w.posts
    case PostDone(p, id) => p in w.posts && w.posts[p].table in w.tables && id !in w.conns
    case Claim(_, _) => true
    case RecycleTimer(id) => id in w.conns && !w.conns[id].recycled
    case Shut(id) => id in w.conns && w.conns[id].claimed
    case ChanLost(id) => id in w.conns
    case Message(id, data, r) =>
      id in w.conns && w.conns[id].claimed && data != "" && CanTake(w.conns[id], data, r)
    case RetryTimer(id, r) => id in w.conns && w.conns[id].timers > 0 && CanSend(w.conns[id], r)
    case Writable(id, r) =>
      id in w.conns && w.conns[id].claimed && !w.conns[id].closed && w.conns[id].writing && CanSend(w.conns[id], r)
  }

  function Queue(c: Conn, data: string): Conn {
    c.(pending := c.pending + [data], queued := c.queued + data)
  }

  /** An event that cannot happen changes nothing. */
  function Step(w: World, e: Event, maxconn: int): World {
    if !Enabled(w, e) then w
    else
      match e
      case PostBegin(p, ip, n) => if TooMany(w, ip, maxconn) then w else Begin(w, p, ip, n)
      case PostFailed(p) => w.(posts := w.posts - {p})
      case PostDone(p, id) => Finish(w, p, id)
      case Claim(ip, id) => if Claims(w, ip, id) then TakeSlot(w, ip, id) else w
      case RecycleTimer(id) =>
        if w.conns[id].claimed then Recycled(w, id) else Close(Recycled(w, id), id)
      case Shut(id) => Close(w, id)
      case ChanLost(id) => w.(conns := w.conns[id := w.conns[id].(chanDown := true)])
      case Message(id, data, r) =>
        if w.conns[id].closed then w
        else
          JoinSnoc(w.conns[id].pending, data);
          Write(w, id, Queue(w.conns[id], data), r)
      case RetryTimer(id, r) => Write(w, id, Fired(w.conns[id]), r)
      case Writable(id, r) => Write(w, id, w.conns[id], r)
  }

  function Run(w: World, es: seq<Event>, maxconn: int): World {
    if es == [] then w else Step(Run(w, es[..|es| - 1], maxconn), es[|es| - 1], maxconn)
  }
}
