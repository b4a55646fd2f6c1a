// The thread-safe AutoAddPolicy of policy.py: trust on first use.
module HostKeyPolicy {
  import opened Options

  datatype Key = Key(kind: string, blob: string)

  /** A stored entry and the host names it answers to. */
  datatype Entry = Entry(names: set<string>, key: Key)

  /** The user's store in memory and, line by line, in its file. */
  datatype Store = Store(entries: seq<Entry>, file: seq<Entry>)

  /** Rejected is the exception for a changed key; Unsaved is a write to the file that raised. */
  datatype Outcome = Known | Added | Rejected | Unsaved

  /** One connection whose key paramiko did not find: what it presents, and whether its write to the file will go through. */
  datatype Attempt = Attempt(host: string, key: Key, writable: bool)

  // ----- lookups

  function EntriesFor(entries: seq<Entry>, host: string): seq<Entry> {
    if entries == [] then []
    else if host in entries[0].names then [entries[0]] + EntriesFor(entries[1..], host)
    else EntriesFor(entries[1..], host)
  }

  /** The stored keys of one kind for one host, in the order they are found. */
  function KeysFor(entries: seq<Entry>, host: string, kind: string): seq<Key> {
    if entries == [] then []
    else if host in entries[0].names && entries[0].key.kind == kind then [entries[0].key] + KeysFor(entries[1..], host, kind)
    else KeysFor(entries[1..], host, kind)
  }

  function First(keys: seq<Key>): Option<Key> {
    if keys == [] then None else Some(keys[0])
  }

  /** The key a lookup settles on: the user's store is consulted only when the system's has no entry for the host at all. */
  function Trusted(system: seq<Entry>, user: seq<Entry>, host: string, kind: string): Option<Key> {
    if EntriesFor(system, host) != [] then First(KeysFor(system, host, kind)) else First(KeysFor(user, host, kind))
  }

  /** The critical section of missing_host_key, run by itself. */
  function Section(system: seq<Entry>, s: Store, a: Attempt): (Store, Outcome) {
    match Trusted(system, s.entries, a.host, a.key.kind)
    case Some(k) => (s, if k == a.key then Known else Rejected)
    case None =>
      var e := Entry({a.host}, a.key);
      if a.writable then (Store(s.entries + [e], s.file + [e]), Added) else (Store(s.entries + [e], s.file), Unsaved)
  }

  /** Whether a store has an entry for the host, and which key of a kind comes first, entry by entry. */
  lemma {:induction false} LookupsExactly(entries: seq<Entry>, host: string, kind: string)
    ensures EntriesFor(entries, host) == [] <==> forall e | e in entries :: host !in e.names
    ensures KeysFor(entries, host, kind) == [] <==> forall e | e in entries :: !(host in e.names && e.key.kind == kind)
    ensures KeysFor(entries, host, kind) != [] ==>
      exists i :: FirstWith(entries, i, host, kind) && KeysFor(entries, host, kind)[0] == entries[i].key
  {
    if entries != [] {
      LookupsExactly(entries[1..], host, kind);
      assert entries == [entries[0]] + entries[1..];
      if host in entries[0].names && entries[0].key.kind == kind {
        assert FirstWith(entries, 0, host, kind);
      } else if KeysFor(entries, host, kind) != [] {
        var i :| FirstWith(entries[1..], i, host, kind) && KeysFor(entries[1..], host, kind)[0] == entries[1..][i].key;
        assert FirstWith(entries, i + 1, host, kind);
      }
    }
  }

  /** The entry at `i` is the first one with a key of this kind for this host. */
  ghost predicate FirstWith(entries: seq<Entry>, i: int, host: string, kind: string) {
    && 0 <= i < |entries| && host in entries[i].names && entries[i].key.kind == kind
    && forall j | 0 <= j < i :: !(host in entries[j].names && entries[j].key.kind == kind)
  }

  /** The verdict, case by case: the system's store decides about hosts it knows, by its first key of the kind; a key of another kind there lets any key in. */
  lemma SectionForSystemHosts(system: seq<Entry>, s: Store, a: Attempt)
    requires EntriesFor(system, a.host) != []
    ensures var keys, e := KeysFor(system, a.host, a.key.kind), Entry({a.host}, a.key);
      Section(system, s, a)
      == if keys != [] then (s, if keys[0] == a.key then Known else Rejected)
         else if a.writable then (Store(s.entries + [e], s.file + [e]), Added)
         else (Store(s.entries + [e], s.file), Unsaved)
  {
  }

  /** For hosts the system does not know the user's store decides in the same way, and a key of a new kind goes in at the end of memory and, if the write goes through, of the file. */
  lemma SectionForOtherHosts(system: seq<Entry>, s: Store, a: Attempt)
    requires EntriesFor(system, a.host) == []
    ensures var keys, e := KeysFor(s.entries, a.host, a.key.kind), Entry({a.host}, a.key);
      Section(system, s, a)
      == if keys != [] then (s, if keys[0] == a.key then Known else Rejected)
         else if a.writable then (Store(s.entries + [e], s.file + [e]), Added)
         else (Store(s.entries + [e], s.file), Unsaved)
  {
  }

  function Replay(system: seq<Entry>, s: Store, log: seq<Attempt>): Store {
    if log == [] then s else Section(system, Replay(system, s, log[..|log| - 1]), log[|log| - 1]).0
  }

  // ----- the class

  class Client {
    const system: seq<Entry>
    var entries: seq<Entry>
    var file: seq<Entry>

    function Snapshot(): Store
      reads this
    {
      Store(entries, file)
    }

    /** check_policy_setting saves the loaded keys once, so the file starts out as the store in memory. */
    constructor (system: seq<Entry>, loaded: seq<Entry>)
      ensures this.system == system && Snapshot() == Store(loaded, loaded)
    {
      this.system := system;
      entries := loaded;
      file := loaded;
    }

    /** The lookup proper: the first entry of the right kind decides. */
    method Find(keys: seq<Entry>, host: string, kind: string) returns (anyEntry: bool, found: Option<Key>)
      ensures anyEntry == (EntriesFor(keys, host) != [])
      ensures found == First(KeysFor(keys, host, kind))
    {
      anyEntry, found := false, None;
      var i := |keys|;
      assert keys[i..] == [];
      while i > 0
        invariant 0 <= i <= |keys|
        invariant anyEntry == (EntriesFor(keys[i..], host) != [])
        invariant found == First(KeysFor(keys[i..], host, kind))
      {
        i := i - 1;
        assert keys[i..][1..] == keys[i + 1..];
        if host in keys[i].names {
          anyEntry := true;
          if keys[i].key.kind == kind {
            found := Some(keys[i].key);
          }
        }
      }
      assert keys[0..] == keys;
    }

    method MissingHostKey(hostname: string, key: Key, writable: bool) returns (outcome: Outcome)
      modifies this
      ensures (Snapshot(), outcome) == Section(system, old(Snapshot()), Attempt(hostname, key, writable))
    {
      var inSystem, hostKey := Find(system, hostname, key.kind);
      if !inSystem {
        var inUser, userKey := Find(entries, hostname, key.kind);
        hostKey := userKey;
      }
      if hostKey.Some? {
        return if hostKey.value != key then Rejected else Known;
      }
      entries := entries + [Entry({hostname}, key)];
      if !writable {
        return Unsaved;
      }
      file := file + [Entry({hostname}, key)];
      outcome := Added;
    }
  }

  // ----- threads

  /** Where a thread is inside missing_host_key. */
  datatype Stage = Waiting | Checking | Appending | Writing | Leaving(outcome: Outcome) | Done(outcome: Outcome)

  datatype Thread = Thread(attempt: Attempt, stage: Stage)

  /** `log` lists the attempts whose section is over, in the order they left it. */
  datatype World = World(store: Store, lock: Option<nat>, threads: map<nat, Thread>, log: seq<Attempt>)

  datatype Event = Enter(thread: nat, attempt: Attempt) | Advance(thread: nat)

  function Move(w: World, t: nat, stage: Stage): World
    requires t in w.threads
  {
    w.(threads := w.threads[t := w.threads[t].(stage := stage)])
  }

  /** One step of one thread; a thread that cannot move stays where it is. */
  function Step(system: seq<Entry>, w: World, e: Event): World {
    match e
    case Enter(t, a) => if t in w.threads then w else w.(threads := w.threads[t := Thread(a, Waiting)])
    case Advance(t) =>
      if t !in w.threads then w
      else
        var a := w.threads[t].attempt;
        var entry := Entry({a.host}, a.key);
        match w.threads[t].stage
        case Waiting => if w.lock == None then Move(w, t, Checking).(lock := Some(t)) else w
        case Checking =>
          (match Trusted(system, w.store.entries, a.host, a.key.kind)
           case None => Move(w, t, Appending)
           case Some(k) => Move(w, t, Leaving(if k == a.key then Known else Rejected)))
        case Appending => Move(w, t, Writing).(store := w.store.(entries := w.store.entries + [entry]))
        case Writing =>
          if a.writable
          then Move(w, t, Leaving(Added)).(store := w.store.(file := w.store.file + [entry]))
          else Move(w, t, Leaving(Unsaved))
        case Leaving(o) => Move(w, t, Done(o)).(lock := None, log := w.log + [a])
        case Done(_) => w
  }

  function Run(system: seq<Entry>, w: World, es: seq<Event>): World {
    if es == [] then w else Step(system, Run(system, w, es[..|es| - 1]), es[|es| - 1])
  }

  /** Nobody has entered yet, and the file was saved from memory. */
  function Start(loaded: seq<Entry>): World {
    World(Store(loaded, loaded), None, map[], [])
  }

  predicate Inside(stage: Stage) {
    stage.Checking? || stage.Appending? || stage.Writing? || stage.Leaving?
  }

  /** What the thread that holds the lock has done of its section so far. */
  ghost predicate Progress(system: seq<Entry>, from: Store, now: Store, th: Thread) {
    var (to, outcome) := Section(system, from, th.attempt);
    match th.stage
    case Checking => now == from
    case Appending => now == from && outcome in {Added, Unsaved}
    case Writing => now == from.(entries := to.entries) && outcome in {Added, Unsaved}
    case Leaving(o) => now == to && o == outcome
    case _ => false
  }

  /** The lock serialises: the store is what the finished sections make of it one after the other, plus the progress of at most one more. */
  ghost predicate Serialised(system: seq<Entry>, loaded: seq<Entry>, w: World) {
    var base := Replay(system, Store(loaded, loaded), w.log);
    && (forall t | t in w.threads :: Inside(w.threads[t].stage) <==> w.lock == Some(t))
    && match w.lock
       case None => w.store == base
       case Some(t) => t in w.threads && Progress(system, base, w.store, w.threads[t])
  }

  lemma StepSerialised(system: seq<Entry>, loaded: seq<Entry>, w: World, e: Event)
    requires Serialised(system, loaded, w)
    ensures Serialised(system, loaded, Step(system, w, e))
  {
    if e.Advance? && e.thread in w.threads {
      var t := e.thread;
      match w.threads[t].stage {
        case Waiting => WaitingSerialised(system, loaded, w, t);
        case Checking => CheckingSerialised(system, loaded, w, t);
        case Appending => AppendingSerialised(system, loaded, w, t);
        case Writing => WritingSerialised(system, loaded, w, t);
        case Leaving(_) => LeavingSerialised(system, loaded, w, t);
        case Done(_) =>
      }
    }
  }

  /** A thread takes the lock only while nobody has it. */
  lemma WaitingSerialised(system: seq<Entry>, loaded: seq<Entry>, w: World, t: nat)
    requires Serialised(system, loaded, w) && t in w.threads && w.threads[t].stage.Waiting?
    ensures Serialised(system, loaded, Step(system, w, Advance(t)))
  {
  }

  lemma CheckingSerialised(system: seq<Entry>, loaded: seq<Entry>, w: World, t: nat)
    requires Serialised(system, loaded, w) && t in w.threads && w.threads[t].stage.Checking?
    ensures Serialised(system, loaded, Step(system, w, Advance(t)))
  {
  }

  lemma AppendingSerialised(system: seq<Entry>, loaded: seq<Entry>, w: World, t: nat)
    requires Serialised(system, loaded, w) && t in w.threads && w.threads[t].stage.Appending?
    ensures Serialised(system, loaded, Step(system, w, Advance(t)))
  {
  }

  lemma WritingSerialised(system: seq<Entry>, loaded: seq<Entry>, w: World, t: nat)
    requires Serialised(system, loaded, w) && t in w.threads && w.threads[t].stage.Writing?
    ensures Serialised(system, loaded, Step(system, w, Advance(t)))
  {
  }

  /** A thread that gives the lock back leaves its section's result in the store. */
  lemma LeavingSerialised(system: seq<Entry>, loaded: seq<Entry>, w: World, t: nat)
    requires Serialised(system, loaded, w) && t in w.threads && w.threads[t].stage.Leaving?
    ensures Serialised(system, loaded, Step(system, w, Advance(t)))
  {
    var a := w.threads[t].attempt;
    assert (w.log + [a])[..|w.log + [a]| - 1] == w.log;
  }

  /** However threads interleave, whenever the lock is free the store is the result of running their sections one by one. */
  lemma {:induction false} ThreadsAreSerialised(system: seq<Entry>, loaded: seq<Entry>, es: seq<Event>)
    ensures Serialised(system, loaded, Run(system, Start(loaded), es))
  {
    if es != [] {
      ThreadsAreSerialised(system, loaded, es[..|es| - 1]);
      StepSerialised(system, loaded, Run(system, Start(loaded), es[..|es| - 1]), es[|es| - 1]);
    }
  }

  // ----- what one section after another keeps

  lemma {:induction false} KeysConcat(p: seq<Entry>, q: seq<Entry>, host: string, kind: string)
    ensures KeysFor(p + q, host, kind) == KeysFor(p, host, kind) + KeysFor(q, host, kind)
  {
    if p == [] {
      assert p + q == q;
    } else {
      assert (p + q)[0] == p[0] && (p + q)[1..] == p[1..] + q;
      KeysConcat(p[1..], q, host, kind);
      assert [p[0].key] + (KeysFor(p[1..], host, kind) + KeysFor(q, host, kind))
          == ([p[0].key] + KeysFor(p[1..], host, kind)) + KeysFor(q, host, kind);
    }
  }

  /** A section adds the attempt's key, or nothing. */
  lemma SectionKeys(system: seq<Entry>, s: Store, a: Attempt, host: string, kind: string)
    ensures var mine := host == a.host && kind == a.key.kind && Trusted(system, s.entries, a.host, a.key.kind).None?;
      KeysFor(Section(system, s, a).0.entries, host, kind)
      == if mine then KeysFor(s.entries, host, kind) + [a.key] else KeysFor(s.entries, host, kind)
  {
    var e := Entry({a.host}, a.key);
    KeysConcat(s.entries, [e], host, kind);
    assert [e][1..] == [];
    assert KeysFor([e], host, kind) == if host == a.host && kind == a.key.kind then [a.key] else [];
  }

  /** The system's store knows the host but has no key of this kind for it, so the user's keys of this kind are never looked at. */
  predicate Shadowed(system: seq<Entry>, host: string, kind: string) {
    EntriesFor(system, host) != [] && KeysFor(system, host, kind) == []
  }

  /** One section keeps a store at one key per host and kind if and only if it does not add beside a shadowed key. */
  lemma OneKeyExactly(system: seq<Entry>, s: Store, a: Attempt)
    requires |KeysFor(s.entries, a.host, a.key.kind)| <= 1
    ensures |KeysFor(Section(system, s, a).0.entries, a.host, a.key.kind)| <= 1
       <==> !(Shadowed(system, a.host, a.key.kind) && KeysFor(s.entries, a.host, a.key.kind) != [])
  {
    SectionKeys(system, s, a, a.host, a.key.kind);
  }

  /** A key that differs from the one the user has stored is refused if and only if the system's store has no say, or says otherwise itself. */
  lemma ConflictIsRefusedExactly(system: seq<Entry>, s: Store, a: Attempt)
    requires KeysFor(s.entries, a.host, a.key.kind) != [] && KeysFor(s.entries, a.host, a.key.kind)[0] != a.key
    ensures Section(system, s, a).1 == Rejected
       <==> EntriesFor(system, a.host) == [] || (KeysFor(system, a.host, a.key.kind) != [] && KeysFor(system, a.host, a.key.kind)[0] != a.key)
  {
  }

  /** For a host that the system's store knows only by another kind of key, a changed key goes through and is stored beside the old one. */
  lemma ShadowedKeyIsAccepted(host: string, a: Key, b: Key, other: Key)
    requires a.kind == b.kind && a != b && other.kind != a.kind
    ensures var system := [Entry({host}, other)];
      var s := Store([Entry({host}, a)], [Entry({host}, a)]);
      Section(system, s, Attempt(host, b, true)) == (Store([Entry({host}, a), Entry({host}, b)], [Entry({host}, a), Entry({host}, b)]), Added)
  {
    var system := [Entry({host}, other)];
    assert system[1..] == [];
    assert EntriesFor(system, host) == [Entry({host}, other)];
    assert KeysFor(system, host, b.kind) == [];
    assert [Entry({host}, a)] + [Entry({host}, b)] == [Entry({host}, a), Entry({host}, b)];
  }

  /** Entries are only ever appended. */
  lemma {:induction false} StoreOnlyGrows(system: seq<Entry>, s: Store, log: seq<Attempt>)
    ensures s.entries <= Replay(system, s, log).entries && s.file <= Replay(system, s, log).file
  {
    if log != [] {
      StoreOnlyGrows(system, s, log[..|log| - 1]);
    }
  }

  /** Unless it is shadowed, a host and kind with at most one key keeps at most one, and the one it has never changes. */
  lemma {:induction false} OneKeyForGood(system: seq<Entry>, s: Store, log: seq<Attempt>, host: string, kind: string)
    requires |KeysFor(s.entries, host, kind)| <= 1 && !Shadowed(system, host, kind)
    ensures |KeysFor(Replay(system, s, log).entries, host, kind)| <= 1
    ensures KeysFor(s.entries, host, kind) != [] ==> KeysFor(Replay(system, s, log).entries, host, kind) == KeysFor(s.entries, host, kind)
  {
    if log != [] {
      var n := |log| - 1;
      OneKeyForGood(system, s, log[..n], host, kind);
      SectionKeys(system, Replay(system, s, log[..n]), log[n], host, kind);
    }
  }

  /**
    Trust on first use, under any interleaving: starting from one key per host and kind, a host unknown to the
    system's store has at most one key per kind at every moment; once a key of it is in the store, every later
    section for that host and kind ends in Known if it presents that very key and in Rejected if it presents another.
  */
  lemma TrustOnFirstUse(system: seq<Entry>, loaded: seq<Entry>, es: seq<Event>, host: string, kind: string)
    requires EntriesFor(system, host) == [] && |KeysFor(loaded, host, kind)| <= 1
    ensures var w := Run(system, Start(loaded), es);
      && |KeysFor(w.store.entries, host, kind)| <= 1
      && forall later: seq<Attempt>, a: Attempt {:trigger Section(system, Replay(system, w.store, later), a)} |
           a.host == host && a.key.kind == kind && KeysFor(w.store.entries, host, kind) != [] ::
           Section(system, Replay(system, w.store, later), a).1
           == if a.key == KeysFor(w.store.entries, host, kind)[0] then Known else Rejected
  {
    var w := Run(system, Start(loaded), es);
    ThreadsAreSerialised(system, loaded, es);
    var base := Replay(system, Store(loaded, loaded), w.log);
    OneKeyForGood(system, Store(loaded, loaded), w.log, host, kind);
    if w.lock.Some? {
      SectionKeys(system, base, w.threads[w.lock.value].attempt, host, kind);
    }
    forall later: seq<Attempt>, a: Attempt | a.host == host && a.key.kind == kind && KeysFor(w.store.entries, host, kind) != []
      ensures Section(system, Replay(system, w.store, later), a).1
           == if a.key == KeysFor(w.store.entries, host, kind)[0] then Known else Rejected
    {
      OneKeyForGood(system, w.store, later, host, kind);
    }
  }

  /** The verdict of a section, against a store after it: it turned the attempt away exactly if the store has another key for it. */
  predicate VerdictHolds(entries: seq<Entry>, a: Attempt, outcome: Outcome) {
    var keys := KeysFor(entries, a.host, a.key.kind);
    keys != [] && (outcome == Rejected <==> keys[0] != a.key)
  }

  /** What a finished thread was told still holds. */
  ghost predicate VerdictsHold(system: seq<Entry>, w: World) {
    forall t | t in w.threads && w.threads[t].stage.Done? && EntriesFor(system, w.threads[t].attempt.host) == [] ::
      VerdictHolds(w.store.entries, w.threads[t].attempt, w.threads[t].stage.outcome)
  }

  /** The verdict on a host the system's store does not know, against the store the section leaves behind. */
  lemma SectionTellsTruth(system: seq<Entry>, s: Store, a: Attempt)
    requires EntriesFor(system, a.host) == []
    ensures VerdictHolds(Section(system, s, a).0.entries, a, Section(system, s, a).1)
  {
    SectionKeys(system, s, a, a.host, a.key.kind);
  }

  lemma VerdictOutlasts(entries: seq<Entry>, more: seq<Entry>, a: Attempt, outcome: Outcome)
    requires VerdictHolds(entries, a, outcome)
    ensures VerdictHolds(entries + more, a, outcome)
  {
    KeysConcat(entries, more, a.host, a.key.kind);
  }

  lemma StepAppends(system: seq<Entry>, w: World, e: Event) returns (more: seq<Entry>)
    ensures Step(system, w, e).store.entries == w.store.entries + more
  {
    more := Step(system, w, e).store.entries[|w.store.entries|..];
  }

  /** A thread is done if it was, or if it has just given the lock back. */
  lemma WhoIsDone(system: seq<Entry>, w: World, e: Event, t: nat)
    requires t in Step(system, w, e).threads && Step(system, w, e).threads[t].stage.Done?
    ensures t in w.threads && w.threads[t].attempt == Step(system, w, e).threads[t].attempt
    ensures w.threads[t].stage == Step(system, w, e).threads[t].stage
         || w.threads[t].stage == Leaving(Step(system, w, e).threads[t].stage.outcome)
  {
  }

  lemma LeavingTellsTruth(system: seq<Entry>, loaded: seq<Entry>, w: World, t: nat)
    requires Serialised(system, loaded, w) && t in w.threads && w.threads[t].stage.Leaving?
    requires EntriesFor(system, w.threads[t].attempt.host) == []
    ensures VerdictHolds(w.store.entries, w.threads[t].attempt, w.threads[t].stage.outcome)
  {
    SectionTellsTruth(system, Replay(system, Store(loaded, loaded), w.log), w.threads[t].attempt);
  }

  lemma StepKeepsVerdicts(system: seq<Entry>, loaded: seq<Entry>, w: World, e: Event)
    requires Serialised(system, loaded, w) && VerdictsHold(system, w)
    ensures VerdictsHold(system, Step(system, w, e))
  {
    var w' := Step(system, w, e);
    var more := StepAppends(system, w, e);
    forall t | t in w'.threads && w'.threads[t].stage.Done? && EntriesFor(system, w'.threads[t].attempt.host) == []
      ensures VerdictHolds(w'.store.entries, w'.threads[t].attempt, w'.threads[t].stage.outcome)
    {
      WhoIsDone(system, w, e, t);
      if !w.threads[t].stage.Done? {
        LeavingTellsTruth(system, loaded, w, t);
      }
      VerdictOutlasts(w.store.entries, more, w.threads[t].attempt, w'.threads[t].stage.outcome);
    }
  }

  /**
    A conflicting key always raises, and nothing else does: in every interleaving, a thread that has come back for a
    host the system's store does not know was refused if and only if the store holds a different key for it, and
    that stays so however long the others go on.
  */
  lemma {:induction false} ConflictsAlwaysRaise(system: seq<Entry>, loaded: seq<Entry>, es: seq<Event>)
    ensures VerdictsHold(system, Run(system, Start(loaded), es))
  {
    if es != [] {
      ConflictsAlwaysRaise(system, loaded, es[..|es| - 1]);
      ThreadsAreSerialised(system, loaded, es[..|es| - 1]);
      StepKeepsVerdicts(system, loaded, Run(system, Start(loaded), es[..|es| - 1]), es[|es| - 1]);
    }
  }

  // ----- a stored key at two moments of one interleaving

  /** No step of any thread touches the keys of a host and kind that has one already, unless it is shadowed. */
  lemma StepKeepsKeys(system: seq<Entry>, loaded: seq<Entry>, w: World, e: Event, host: string, kind: string)
    requires Serialised(system, loaded, w)
    requires !Shadowed(system, host, kind) && KeysFor(w.store.entries, host, kind) != []
    ensures KeysFor(Step(system, w, e).store.entries, host, kind) == KeysFor(w.store.entries, host, kind)
  {
    if e.Advance? && e.thread in w.threads && w.threads[e.thread].stage.Appending? {
      var a := w.threads[e.thread].attempt;
      KeysConcat(w.store.entries, [Entry({a.host}, a.key)], host, kind);
      assert Trusted(system, w.store.entries, a.host, a.key.kind).None?;
    }
  }

  /** A stored key never changes: whatever the threads go on to do, a host and kind that has a key keeps exactly the keys it has. */
  lemma {:induction false} StoredKeysNeverChange(system: seq<Entry>, loaded: seq<Entry>, es: seq<Event>, more: seq<Event>,
                                                 host: string, kind: string)
    requires !Shadowed(system, host, kind) && KeysFor(Run(system, Start(loaded), es).store.entries, host, kind) != []
    ensures KeysFor(Run(system, Start(loaded), es + more).store.entries, host, kind)
         == KeysFor(Run(system, Start(loaded), es).store.entries, host, kind)
  {
    if more == [] {
      assert es + more == es;
    } else {
      var n := |more| - 1;
      assert (es + more)[..|es + more| - 1] == es + more[..n];
      StoredKeysNeverChange(system, loaded, es, more[..n], host, kind);
      ThreadsAreSerialised(system, loaded, es + more[..n]);
      StepKeepsKeys(system, loaded, Run(system, Start(loaded), es + more[..n]), more[n], host, kind);
    }
  }

  // ----- the file

  /** What the sections of `log` added, with or without those whose write to the file raised. */
  function Additions(system: seq<Entry>, s: Store, log: seq<Attempt>, unsaved: bool): seq<Entry> {
    if log == [] then []
    else
      var n := |log| - 1;
      var outcome := Section(system, Replay(system, s, log[..n]), log[n]).1;
      Additions(system, s, log[..n], unsaved)
      + if outcome == Added || (unsaved && outcome == Unsaved) then [Entry({log[n].host}, log[n].key)] else []
  }

  /** One section adds the same to the store as to its account. */
  lemma AdditionsNext(system: seq<Entry>, s: Store, log: seq<Attempt>, a: Attempt)
    ensures var base := Replay(system, s, log);
      var (to, outcome) := Section(system, base, a);
      var e := Entry({a.host}, a.key);
      && to.entries == base.entries + (if outcome == Added || outcome == Unsaved then [e] else [])
      && to.file == base.file + (if outcome == Added then [e] else [])
      && Additions(system, s, log + [a], true)
         == Additions(system, s, log, true) + (if outcome == Added || outcome == Unsaved then [e] else [])
      && Additions(system, s, log + [a], false) == Additions(system, s, log, false) + (if outcome == Added then [e] else [])
  {
    assert (log + [a])[..|log|] == log;
  }

  /** Memory is what it was plus everything added, the file what it was plus everything saved, in the order of the sections. */
  lemma {:induction false} StoreIsStartPlusAdditions(system: seq<Entry>, s: Store, log: seq<Attempt>)
    ensures Replay(system, s, log)
         == Store(s.entries + Additions(system, s, log, true), s.file + Additions(system, s, log, false))
  {
    if log != [] {
      var init, a := log[..|log| - 1], log[|log| - 1];
      assert init + [a] == log;
      StoreIsStartPlusAdditions(system, s, init);
      AdditionsNext(system, s, init, a);
      ReplayNext(system, s, init, a);
    }
  }

  /** Some thread came back with the exception of its write to the file. */
  ghost predicate SomeWriteFailed(w: World) {
    exists t :: t in w.threads && w.threads[t].stage == Done(Unsaved)
  }

  /** What the finished sections left: a file that is the memory, or is shorter if a write failed. */
  ghost predicate FileLags(base: Store, failed: bool) {
    if failed then |base.file| < |base.entries| else base.file == base.entries
  }

  lemma SectionKeepsFile(system: seq<Entry>, base: Store, a: Attempt, failed: bool)
    requires FileLags(base, failed)
    ensures FileLags(Section(system, base, a).0, failed || Section(system, base, a).1 == Unsaved)
  {
  }

  /** Only a thread that gives the lock back can be the first with a failed write. */
  lemma StepFailures(system: seq<Entry>, w: World, e: Event)
    ensures SomeWriteFailed(Step(system, w, e))
       <==> SomeWriteFailed(w) || (e.Advance? && e.thread in w.threads && w.threads[e.thread].stage == Leaving(Unsaved))
  {
    var w' := Step(system, w, e);
    forall t | t in w.threads && w.threads[t].stage == Done(Unsaved)
      ensures t in w'.threads && w'.threads[t].stage == Done(Unsaved)
    {
    }
    if e.Advance? && e.thread in w.threads && w.threads[e.thread].stage == Leaving(Unsaved) {
      assert w'.threads[e.thread].stage == Done(Unsaved);
    }
  }

  lemma ReplayNext(system: seq<Entry>, s: Store, log: seq<Attempt>, a: Attempt)
    ensures Replay(system, s, log + [a]) == Section(system, Replay(system, s, log), a).0
  {
    assert (log + [a])[..|log|] == log;
  }

  /** A thread that leaves its section takes over what the section came to. */
  lemma LeavingKeepsFile(system: seq<Entry>, loaded: seq<Entry>, w: World, t: nat, failed: bool)
    requires Serialised(system, loaded, w) && t in w.threads && w.threads[t].stage.Leaving?
    requires FileLags(Replay(system, Store(loaded, loaded), w.log), failed)
    ensures FileLags(Replay(system, Store(loaded, loaded), w.log + [w.threads[t].attempt]),
                     failed || w.threads[t].stage == Leaving(Unsaved))
  {
    var base, a := Replay(system, Store(loaded, loaded), w.log), w.threads[t].attempt;
    assert w.lock == Some(t) && Section(system, base, a).1 == w.threads[t].stage.outcome;
    ReplayNext(system, Store(loaded, loaded), w.log, a);
    SectionKeepsFile(system, base, a, failed);
  }

  lemma StepKeepsFile(system: seq<Entry>, loaded: seq<Entry>, w: World, e: Event)
    requires Serialised(system, loaded, w)
    requires FileLags(Replay(system, Store(loaded, loaded), w.log), SomeWriteFailed(w))
    ensures FileLags(Replay(system, Store(loaded, loaded), Step(system, w, e).log), SomeWriteFailed(Step(system, w, e)))
  {
    StepFailures(system, w, e);
    if e.Advance? && e.thread in w.threads && w.threads[e.thread].stage.Leaving? {
      LeavingKeepsFile(system, loaded, w, e.thread, SomeWriteFailed(w));
    } else {
      assert Step(system, w, e).log == w.log;
    }
  }

  lemma {:induction false} FileLagsExactly(system: seq<Entry>, loaded: seq<Entry>, es: seq<Event>)
    ensures var w := Run(system, Start(loaded), es);
      FileLags(Replay(system, Store(loaded, loaded), w.log), SomeWriteFailed(w))
  {
    if es != [] {
      var init := es[..|es| - 1];
      FileLagsExactly(system, loaded, init);
      ThreadsAreSerialised(system, loaded, init);
      StepKeepsFile(system, loaded, Run(system, Start(loaded), init), es[|es| - 1]);
    }
  }

  /**
    Between critical sections memory is what was loaded at start-up plus every addition since, and reading the file
    back gives the same if and only if no thread has come back with the exception of its write to the file.
  */
  lemma FileIsMemoryExactly(system: seq<Entry>, loaded: seq<Entry>, es: seq<Event>)
    requires Run(system, Start(loaded), es).lock == None
    ensures var w := Run(system, Start(loaded), es);
      && w.store.entries == loaded + Additions(system, Store(loaded, loaded), w.log, true)
      && w.store.file == loaded + Additions(system, Store(loaded, loaded), w.log, false)
      && (w.store.file == w.store.entries <==> !SomeWriteFailed(w))
  {
    ThreadsAreSerialised(system, loaded, es);
    FileLagsExactly(system, loaded, es);
    StoreIsStartPlusAdditions(system, Store(loaded, loaded), Run(system, Start(loaded), es).log);
  }

  /** A first connection whose write to the file raises. */
  function FailingRun(a: Attempt): seq<Event> {
    [Enter(0, a), Advance(0), Advance(0), Advance(0), Advance(0), Advance(0)]
  }

  lemma FailingRunGetsIn(a: Attempt)
    ensures var es := FailingRun(a);
      Run([], Start([]), es[..3]) == World(Store([], []), Some(0), map[0 := Thread(a, Appending)], [])
  {
    var es := FailingRun(a);
    assert es[..3][..2] == es[..2] && es[..2][..1] == es[..1] && es[..1][..0] == [];
    assert Run([], Start([]), es[..1]) == World(Store([], []), None, map[0 := Thread(a, Waiting)], []);
    assert Run([], Start([]), es[..2]) == World(Store([], []), Some(0), map[0 := Thread(a, Checking)], []);
  }

  /** Its key is then in memory and not in the file. */
  lemma FailedWriteLags(a: Attempt)
    requires !a.writable
    ensures Run([], Start([]), FailingRun(a))
         == World(Store([Entry({a.host}, a.key)], []), None, map[0 := Thread(a, Done(Unsaved))], [a])
  {
    var es := FailingRun(a);
    var e := Entry({a.host}, a.key);
    FailingRunGetsIn(a);
    assert es[..6] == es && es[..5][..4] == es[..4] && es[..4][..3] == es[..3];
    assert Run([], Start([]), es[..4]) == World(Store([e], []), Some(0), map[0 := Thread(a, Writing)], []);
    assert Run([], Start([]), es[..5]) == World(Store([e], []), Some(0), map[0 := Thread(a, Leaving(Unsaved))], []);
  }
}
