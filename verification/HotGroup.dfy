/**
 The write cache of a copied hot slot: writes are kept per key, the last one
 only, and broadcast to the other nodes of the slot's hot group
 (addCmdToCache and broadcastCommandInHotGroup in server/src/cluster.c).
 */
module HotGroup {
  import opened Decimal
  import opened Options

  type NodeId = nat

  type Argv = seq<bytes>

  /** A cached command with the time it was cached at; the "WANGEP" header and
      the time stamp travel in front of its arguments. */
  datatype CacheOp = CacheOp(stamp: nat, argv: Argv)

  type Cache = map<bytes, CacheOp>

  /** What strlen and sdsnew make of a string: it ends at its first NUL. */
  function CString(s: bytes): bytes {
    if s == [] || s[0] == 0 then [] else [s[0]] + CString(s[1..])
  }

  function Stored(argv: Argv): Argv {
    seq(|argv|, i requires 0 <= i < |argv| => CString(argv[i]))
  }

  predicate NulFree(argv: Argv) {
    forall i | 0 <= i < |argv| :: 0 !in argv[i]
  }

  lemma {:induction false} CStringExact(s: bytes)
    ensures CString(s) == s <==> 0 !in s
  {
    if s != [] {
      CStringExact(s[1..]);
      assert s == [s[0]] + s[1..];
      if s[0] != 0 && CString(s) == s {
        assert CString(s)[1..] == CString(s[1..]);
      }
    }
  }

  /** A command is forwarded as it was issued exactly when none of its
      arguments holds a NUL byte. */
  lemma ForwardedExactly(argv: Argv)
    ensures Stored(argv) == argv <==> NulFree(argv)
  {
    forall i | 0 <= i < |argv| { CStringExact(argv[i]); }
    if Stored(argv) == argv {
      forall i | 0 <= i < |argv|
        ensures 0 !in argv[i]
      {
        assert Stored(argv)[i] == argv[i];
      }
    }
  }

  /** dictReplace of the stored command under its first argument.  A command
      without one, an EXEC, makes addCmdToCache read behind the end of its array:
      None. */
  function AddOp(c: Cache, argv: Argv, stamp: nat): Option<Cache> {
    if |argv| < 2 then None else Some(c[CString(argv[1]) := CacheOp(stamp, Stored(argv))])
  }

  /** The operations of a cache in the order a dictionary iterator visits them. */
  function InOrder(c: Cache, order: seq<bytes>): seq<CacheOp>
    requires forall k | k in order :: k in c
  {
    seq(|order|, i requires 0 <= i < |order| => c[order[i]])
  }

  /** `order` visits every key once. */
  ghost predicate Visits(order: seq<bytes>, keys: set<bytes>) {
    && (forall k :: k in order <==> k in keys)
    && (forall i, j | 0 <= i < j < |order| :: order[i] != order[j])
  }

  class HotSlot {
    const myself: NodeId
    var cachedOp: Cache
    var cacheOpSize: int
    var related: set<NodeId>
    /** What has been sent to each node, in order. */
    var outbox: map<NodeId, seq<CacheOp>>
    /** How often a pending write was replaced by a later one of its key. */
    ghost var overwrites: nat

    ghost predicate Valid()
      reads this
    {
      && cacheOpSize == |cachedOp| + overwrites
      && related <= outbox.Keys
    }

    constructor (myself: NodeId, related: set<NodeId>)
      ensures Valid() && this.myself == myself && this.related == related
      ensures cachedOp == map[] && cacheOpSize == overwrites == 0
      ensures outbox == map n | n in related :: []
    {
      this.myself, this.related := myself, related;
      cachedOp, cacheOpSize, outbox, overwrites := map[], 0, map n | n in related :: [], 0;
    }

    /** addCmdToCache: the counter goes up even when a pending write of the key
        is replaced.  Without a key the source reads behind its array, and there
        is no saying what it does. */
    method AddCmdToCache(argv: Argv, ustime: nat) returns (defined: bool)
      requires Valid()
      modifies `cachedOp, `cacheOpSize, `overwrites
      ensures defined == AddOp(old(cachedOp), argv, ustime).Some?
      ensures defined ==> Valid() && AddOp(old(cachedOp), argv, ustime) == Some(cachedOp)
      ensures defined ==> overwrites == old(overwrites) + if CString(argv[1]) in old(cachedOp) then 1 else 0
    {
      var stored: Argv := [];
      var i := 0;
      while i < |argv|
        invariant 0 <= i <= |argv| && stored == Stored(argv[..i])
      {
        assert argv[..i + 1][..i] == argv[..i];
        stored := stored + [CString(argv[i])];
        i := i + 1;
      }
      assert argv[..i] == argv;
      if |stored| < 2 {
        return false;
      }
      if stored[1] in cachedOp {
        overwrites := overwrites + 1;
      }
      KeyCount(cachedOp, stored[1], CacheOp(ustime, stored));
      cachedOp := cachedOp[stored[1] := CacheOp(ustime, stored)];
      cacheOpSize := cacheOpSize + 1;
      defined := true;
    }

    static lemma KeyCount(c: Cache, k: bytes, op: CacheOp)
      ensures |c[k := op]| == |c| + if k in c then 0 else 1
    {
      assert c[k := op].Keys == c.Keys + {k};
      assert |c[k := op].Keys| == |c[k := op]| && |c.Keys| == |c|;
    }

    /** The nodes a broadcast reaches: the related ones, not this one, whose
        connection works (`up`). */
    ghost function Group(up: set<NodeId>): set<NodeId>
      reads `related
    {
      related * up - {myself}
    }

    /** Sending one operation to every related node but this one. */
    method SendToGroup(op: CacheOp, up: set<NodeId>)
      requires Valid()
      modifies `outbox
      ensures Valid() && outbox == Sent(old(outbox), Group(up), [op])
    {
      ghost var was := outbox;
      var rest := related;
      while rest != {}
        invariant rest <= related <= outbox.Keys
        invariant outbox == Sent(was, Group(up) - rest, [op])
        decreases rest
      {
        var n :| n in rest;
        if n != myself && n in up {
          outbox := outbox[n := outbox[n] + [op]];
        }
        assert outbox == Sent(was, Group(up) - (rest - {n}), [op]);
        rest := rest - {n};
      }
    }

    /** dictDelete of one pending write. */
    method DropOp(k: bytes)
      requires Valid() && k in cachedOp
      modifies `cachedOp, `cacheOpSize
      ensures Valid() && cachedOp == old(cachedOp) - {k} && cacheOpSize == old(cacheOpSize) - 1
    {
      KeyCount(cachedOp - {k}, k, cachedOp[k]);
      assert (cachedOp - {k})[k := cachedOp[k]] == cachedOp;
      cachedOp := cachedOp - {k};
      cacheOpSize := cacheOpSize - 1;
    }

    /** broadcastCommandInHotGroup: whatever the iterator's order, the counter
        never stops it early; every pending write is sent once and the cache is
        left empty. */
    method BroadcastCommandInHotGroup(up: set<NodeId>) returns (ghost order: seq<bytes>)
      requires Valid()
      modifies `cachedOp, `cacheOpSize, `outbox
      ensures Valid() && cachedOp == map[] && cacheOpSize == overwrites
      ensures Visits(order, old(cachedOp).Keys)
      ensures outbox == Sent(old(outbox), Group(up), InOrder(old(cachedOp), order))
    {
      hide Sent;
      ghost var was, c := outbox, cachedOp;
      order := [];
      SentNothing(was, Group(up));
      assert InOrder(c, order) == [];
      while cachedOp != map[]
        invariant Valid()
        invariant cachedOp.Keys <= c.Keys && forall k | k in cachedOp :: cachedOp[k] == c[k]
        invariant Visits(order, c.Keys - cachedOp.Keys)
        invariant outbox == Sent(was, Group(up), InOrder(c, order))
        decreases |cachedOp|
      {
        PendingCounted();
        if cacheOpSize <= 0 {
          break;
        }
        var k :| k in cachedOp;
        var op := cachedOp[k];
        SendToGroup(op, up);
        SentMore(was, Group(up), InOrder(c, order), op);
        VisitsMore(c, order, k);
        order := order + [k];
        DropOp(k);
      }
    }

    lemma PendingCounted()
      requires Valid() && cachedOp != map[]
      ensures cacheOpSize > 0
    {
      assert cachedOp.Keys != {};
    }
  }

  /** `box` after `ops` went to every node in `to`. */
  ghost function Sent(box: map<NodeId, seq<CacheOp>>, to: set<NodeId>, ops: seq<CacheOp>): map<NodeId, seq<CacheOp>> {
    map n | n in box :: if n in to then box[n] + ops else box[n]
  }

  lemma SentNothing(box: map<NodeId, seq<CacheOp>>, to: set<NodeId>)
    ensures Sent(box, to, []) == box
  {
    assert forall n | n in box :: box[n] + [] == box[n];
  }

  lemma SentMore(box: map<NodeId, seq<CacheOp>>, to: set<NodeId>, ops: seq<CacheOp>, op: CacheOp)
    ensures Sent(Sent(box, to, ops), to, [op]) == Sent(box, to, ops + [op])
  {
    forall n | n in box
      ensures Sent(Sent(box, to, ops), to, [op])[n] == Sent(box, to, ops + [op])[n]
    {
      assert box[n] + ops + [op] == box[n] + (ops + [op]);
    }
  }

  lemma VisitsMore(c: Cache, order: seq<bytes>, k: bytes)
    requires k in c && forall x | x in order :: x in c
    ensures InOrder(c, order + [k]) == InOrder(c, order) + [c[k]]
  {
  }

  // ------------------------------------------------------------------
  // What commands do to a database
  // ------------------------------------------------------------------

  /** What a command does that depends on its arguments alone: the values it
      gives keys, or None for a key it deletes. */
  type Effect<V> = map<bytes, Option<V>>

  function Apply<V>(db: map<bytes, V>, e: Effect<V>): map<bytes, V> {
    map k | k in db.Keys + e.Keys && (k in e ==> e[k].Some?) :: if k in e then e[k].value else db[k]
  }

  function Get<V>(db: map<bytes, V>, k: bytes): Option<V> {
    if k in db then Some(db[k]) else None
  }

  lemma Applied<V>(db: map<bytes, V>, e: Effect<V>, k: bytes)
    ensures Get(Apply(db, e), k) == if k in e then e[k] else Get(db, k)
  {
  }

  lemma SameDatabase<V(!new)>(a: map<bytes, V>, b: map<bytes, V>)
    requires forall k :: Get(a, k) == Get(b, k)
    ensures a == b
  {
    assert forall k :: k in a <==> Get(a, k).Some?;
    assert forall k :: k in b <==> Get(b, k).Some?;
    assert forall k | k in a :: Some(a[k]) == Get(a, k) == Get(b, k) == Some(b[k]);
  }

  /** Executing operations one after the other, header stripped. */
  function ExecuteAll<V>(db: map<bytes, V>, writes: Argv -> Effect<V>, ops: seq<CacheOp>): map<bytes, V> {
    if ops == [] then db else Apply(ExecuteAll(db, writes, ops[..|ops| - 1]), writes(ops[|ops| - 1].argv))
  }

  // ------------------------------------------------------------------
  // Runs of one hot slot
  // ------------------------------------------------------------------

  /** A write is executed and cached, or the cache is broadcast in some order;
      an order that does not visit the cache once is no broadcast. */
  datatype Event = Write(argv: Argv, stamp: nat) | Broadcast(order: seq<bytes>)

  /** The cache, the database of a related node, and what that database would
      be had every write been forwarded at once. */
  datatype Replica<V> = Replica(cache: Cache, remote: map<bytes, V>, direct: map<bytes, V>)

  ghost function Next<V>(r: Replica<V>, writes: Argv -> Effect<V>, e: Event): Option<Replica<V>> {
    match e
    case Write(argv, stamp) =>
      (match AddOp(r.cache, argv, stamp)
       case None => None
       case Some(cache) => Some(Replica(cache, r.remote, Apply(r.direct, writes(argv)))))
    case Broadcast(order) =>
      if Visits(order, r.cache.Keys) then
        Some(Replica(map[], ExecuteAll(r.remote, writes, InOrder(r.cache, order)), r.direct))
      else Some(r)
  }

  ghost function Run<V>(r: Replica<V>, writes: Argv -> Effect<V>, events: seq<Event>): Option<Replica<V>>
    decreases |events|
  {
    if events == [] then Some(r) else
      match Next(r, writes, events[0])
      case None => None
      case Some(next) => Run(next, writes, events[1..])
  }

  ghost predicate Issues(events: seq<Event>, issued: iset<Argv>) {
    forall i | 0 <= i < |events| && events[i].Write? :: events[i].argv in issued
  }

  /** Nothing is lost on a run: it is defined to its end, and if nothing is
      pending there the other node has the database it would have had every
      write been forwarded at once. */
  ghost predicate Arrives<V>(writes: Argv -> Effect<V>, start: map<bytes, V>, events: seq<Event>) {
    var r := Run(Replica(map[], start, start), writes, events);
    r.Some? && (r.value.cache == map[] ==> r.value.remote == r.value.direct)
  }

  /** Coalescing loses nothing, whatever clients issue of some commands and
      however the cache is broadcast. */
  ghost predicate Lossless<V(!new)>(writes: Argv -> Effect<V>, issued: iset<Argv>) {
    forall start: map<bytes, V>, events | Issues(events, issued) :: Arrives(writes, start, events)
  }

  // ------------------------------------------------------------------
  // The condition
  // ------------------------------------------------------------------

  /** A command has a first argument, under which it is cached, and does after
      strlen what it did before. */
  ghost predicate Forwardable<V>(writes: Argv -> Effect<V>, a: Argv) {
    |a| >= 2 && writes(Stored(a)) == writes(a)
  }

  /** Of two commands cached under one key the later does all the earlier did;
      two cached under different keys can run in either order. */
  ghost predicate Compatible<V>(writes: Argv -> Effect<V>, a: Argv, b: Argv)
    requires |a| >= 2 && |b| >= 2
  {
    if CString(a[1]) == CString(b[1]) then writes(a).Keys <= writes(b).Keys
    else forall k | k in writes(a) && k in writes(b) :: writes(a)[k] == writes(b)[k]
  }

  ghost predicate Coalescable<V>(writes: Argv -> Effect<V>, issued: iset<Argv>) {
    && (forall a | a in issued :: Forwardable(writes, a))
    && (forall a, b | a in issued && b in issued :: Compatible(writes, a, b))
  }

  // ------------------------------------------------------------------
  // It suffices
  // ------------------------------------------------------------------

  /** Every pending operation is an issued command, under its key. */
  ghost predicate FromIssued<V>(c: Cache, writes: Argv -> Effect<V>, issued: iset<Argv>) {
    forall k | k in c ::
      exists a :: a in issued && |a| >= 2 && CString(a[1]) == k && writes(c[k].argv) == writes(a)
  }

  ghost predicate Covers<V>(c: Cache, writes: Argv -> Effect<V>, keys: set<bytes>, k: bytes) {
    exists x :: x in keys && x in c && k in writes(c[x].argv)
  }

  /** What the other node still lacks is exactly what is pending. */
  ghost predicate Lacking<V(!new)>(r: Replica<V>, writes: Argv -> Effect<V>) {
    && (forall x, k | x in r.cache && k in writes(r.cache[x].argv) :: writes(r.cache[x].argv)[k] == Get(r.direct, k))
    && (forall k | !Covers(r.cache, writes, r.cache.Keys, k) :: Get(r.direct, k) == Get(r.remote, k))
  }

  lemma WriteFromIssued<V>(c: Cache, writes: Argv -> Effect<V>, issued: iset<Argv>, argv: Argv, stamp: nat)
    requires Coalescable(writes, issued) && FromIssued(c, writes, issued) && argv in issued
    ensures AddOp(c, argv, stamp).Some? && FromIssued(AddOp(c, argv, stamp).value, writes, issued)
  {
    hide Stored, CString, Compatible;
    assert Forwardable(writes, argv);
  }

  /** A pending operation agrees with a later write. */
  lemma PendingAgrees<V>(c: Cache, writes: Argv -> Effect<V>, issued: iset<Argv>, argv: Argv, x: bytes)
    requires Coalescable(writes, issued) && FromIssued(c, writes, issued) && argv in issued && x in c
    ensures |argv| >= 2
    ensures x == CString(argv[1]) ==> writes(c[x].argv).Keys <= writes(argv).Keys
    ensures x != CString(argv[1]) ==>
            forall k | k in writes(c[x].argv) && k in writes(argv) :: writes(c[x].argv)[k] == writes(argv)[k]
  {
    hide Stored, CString;
    assert Forwardable(writes, argv);
    var a :| a in issued && |a| >= 2 && CString(a[1]) == x && writes(c[x].argv) == writes(a);
    assert Compatible(writes, a, argv);
  }

  lemma WriteLacking<V(!new)>(r: Replica<V>, writes: Argv -> Effect<V>, issued: iset<Argv>, argv: Argv, stamp: nat)
    requires Coalescable(writes, issued) && FromIssued(r.cache, writes, issued) && argv in issued && Lacking(r, writes)
    ensures var next := Next(r, writes, Write(argv, stamp)); next.Some? && Lacking(next.value, writes)
  {
    assert Forwardable(writes, argv);
    hide Stored, CString, Apply, Get, Coalescable, FromIssued;
    var key, e := CString(argv[1]), writes(argv);
    var next := Next(r, writes, Write(argv, stamp)).value;
    assert writes(next.cache[key].argv) == e;
    forall x, k | x in next.cache && k in writes(next.cache[x].argv)
      ensures writes(next.cache[x].argv)[k] == Get(next.direct, k)
    {
      Applied(r.direct, e, k);
      if x != key {
        PendingAgrees(r.cache, writes, issued, argv, x);
      }
    }
    forall k | !Covers(next.cache, writes, next.cache.Keys, k)
      ensures Get(next.direct, k) == Get(next.remote, k)
    {
      Applied(r.direct, e, k);
      assert k !in e;
      if Covers(r.cache, writes, r.cache.Keys, k) {
        var x :| x in r.cache && k in writes(r.cache[x].argv);
        PendingAgrees(r.cache, writes, issued, argv, x);
        assert x in next.cache && k in writes(next.cache[x].argv);
      }
    }
  }

  /** Executing pending operations that agree with a database brings exactly the
      keys they cover to its values. */
  lemma {:induction false} ExecuteInOrder<V>(
      db: map<bytes, V>, goal: map<bytes, V>, writes: Argv -> Effect<V>, c: Cache, order: seq<bytes>, k: bytes)
    requires forall x | x in order :: x in c
    requires forall x | x in c && k in writes(c[x].argv) :: writes(c[x].argv)[k] == Get(goal, k)
    ensures Get(ExecuteAll(db, writes, InOrder(c, order)), k)
         == if exists x :: x in order && k in writes(c[x].argv) then Get(goal, k) else Get(db, k)
  {
    hide Apply, Get;
    if order != [] {
      var init, last := order[..|order| - 1], order[|order| - 1];
      ExecuteInOrder(db, goal, writes, c, init, k);
      assert InOrder(c, order)[..|order| - 1] == InOrder(c, init);
      Applied(ExecuteAll(db, writes, InOrder(c, init)), writes(c[last].argv), k);
      assert forall x :: x in order <==> x in init || x == last;
    }
  }

  lemma BroadcastLacking<V(!new)>(r: Replica<V>, writes: Argv -> Effect<V>, order: seq<bytes>)
    requires Lacking(r, writes) && Visits(order, r.cache.Keys)
    ensures ExecuteAll(r.remote, writes, InOrder(r.cache, order)) == r.direct
  {
    var remote := ExecuteAll(r.remote, writes, InOrder(r.cache, order));
    hide ExecuteAll, InOrder, Get;
    forall k ensures Get(remote, k) == Get(r.direct, k) {
      ExecuteInOrder(r.remote, r.direct, writes, r.cache, order, k);
      if Covers(r.cache, writes, r.cache.Keys, k) {
        var x :| x in r.cache && k in writes(r.cache[x].argv);
        assert x in order;
      }
    }
    SameDatabase(remote, r.direct);
  }

  lemma NothingLacking<V(!new)>(r: Replica<V>, writes: Argv -> Effect<V>)
    requires r.cache == map[] && Lacking(r, writes)
    ensures r.remote == r.direct
  {
    forall k ensures Get(r.remote, k) == Get(r.direct, k) {
      assert !Covers(r.cache, writes, r.cache.Keys, k);
    }
    SameDatabase(r.remote, r.direct);
  }

  lemma {:induction false} RunLacking<V(!new)>(
      r: Replica<V>, writes: Argv -> Effect<V>, issued: iset<Argv>, events: seq<Event>)
    requires Coalescable(writes, issued) && Issues(events, issued)
    requires FromIssued(r.cache, writes, issued) && Lacking(r, writes)
    ensures var out := Run(r, writes, events); out.Some? && Lacking(out.value, writes)
    decreases |events|
  {
    hide Coalescable, FromIssued, Lacking, ExecuteAll, InOrder;
    if events != [] {
      var e := events[0];
      match e {
        case Write(argv, stamp) =>
          WriteFromIssued(r.cache, writes, issued, argv, stamp);
          WriteLacking(r, writes, issued, argv, stamp);
        case Broadcast(order) =>
          if Visits(order, r.cache.Keys) {
            BroadcastLacking(r, writes, order);
            SettledLacking(writes, issued, r.direct);
          }
      }
      RunLacking(Next(r, writes, e).value, writes, issued, events[1..]);
    }
  }

  lemma SettledLacking<V(!new)>(writes: Argv -> Effect<V>, issued: iset<Argv>, db: map<bytes, V>)
    ensures FromIssued(map[], writes, issued) && Lacking(Replica(map[], db, db), writes)
  {
  }

  lemma CoalescableLossless<V(!new)>(writes: Argv -> Effect<V>, issued: iset<Argv>)
    requires Coalescable(writes, issued)
    ensures Lossless(writes, issued)
  {
    hide Coalescable, Lacking, Run;
    forall start: map<bytes, V>, events | Issues(events, issued) ensures Arrives(writes, start, events) {
      SettledLacking(writes, issued, start);
      RunLacking(Replica(map[], start, start), writes, issued, events);
      var r := Run(Replica(map[], start, start), writes, events).value;
      if r.cache == map[] {
        NothingLacking(r, writes);
      }
    }
  }

  // ------------------------------------------------------------------
  // It is needed
  // ------------------------------------------------------------------

  /** A database on which an effect on a key shows. */
  function Revealing<V>(e: Effect<V>, k: bytes, some: V): map<bytes, V> {
    if k in e && e[k].Some? then map[] else map[k := some]
  }

  lemma Reveals<V>(e: Effect<V>, k: bytes, some: V)
    requires k in e
    ensures e[k] != Get(Revealing(e, k, some), k)
  {
  }

  lemma SameEffect<V(!new)>(e: Effect<V>, f: Effect<V>, some: V)
    requires forall db: map<bytes, V> :: Apply(db, e) == Apply(db, f)
    ensures e == f
  {
    forall k | k in e || k in f ensures k in e && k in f && e[k] == f[k] {
      var db := Revealing(if k in e then e else f, k, some);
      Reveals(if k in e then e else f, k, some);
      Applied(db, e, k);
      Applied(db, f, k);
      assert Apply(db, e) == Apply(db, f);
      if k in e && k in f && e[k] != f[k] {
        assert false;
      }
    }
  }

  lemma RunOfOne<V>(r: Replica<V>, writes: Argv -> Effect<V>, e: Event)
    ensures Run(r, writes, [e]) == Next(r, writes, e)
  {
    hide Next;
    assert [e][1..] == [];
  }

  lemma RunOfTwo<V>(r: Replica<V>, writes: Argv -> Effect<V>, e: Event, f: Event)
    requires Next(r, writes, e).Some?
    ensures Run(r, writes, [e, f]) == Next(Next(r, writes, e).value, writes, f)
  {
    hide Next;
    assert [e, f][1..] == [f];
    RunOfOne(Next(r, writes, e).value, writes, f);
  }

  lemma RunOfThree<V>(r: Replica<V>, writes: Argv -> Effect<V>, e: Event, f: Event, g: Event)
    requires Next(r, writes, e).Some? && Next(Next(r, writes, e).value, writes, f).Some?
    ensures Run(r, writes, [e, f, g]) == Next(Next(Next(r, writes, e).value, writes, f).value, writes, g)
  {
    hide Next;
    assert [e, f, g][1..] == [f, g];
    RunOfTwo(Next(r, writes, e).value, writes, f, g);
  }

  /** One write and its broadcast. */
  lemma OneWrite<V>(writes: Argv -> Effect<V>, a: Argv, start: map<bytes, V>)
    requires |a| >= 2 && Arrives(writes, start, [Write(a, 0), Broadcast([CString(a[1])])])
    ensures Apply(start, writes(Stored(a))) == Apply(start, writes(a))
  {
    hide Apply, Stored, CString;
    var key, op := CString(a[1]), CacheOp(0, Stored(a));
    var r := Replica(map[], start, start);
    var w := Next(r, writes, Write(a, 0)).value;
    assert w.cache == map[key := op];
    var order := [key];
    assert InOrder(w.cache, order) == [op];
    OneOp(start, writes, op);
    assert Visits(order, w.cache.Keys);
    RunOfTwo(r, writes, Write(a, 0), Broadcast(order));
  }

  lemma OneOp<V>(db: map<bytes, V>, writes: Argv -> Effect<V>, op: CacheOp)
    ensures ExecuteAll(db, writes, [op]) == Apply(db, writes(op.argv))
  {
    assert [op][..0] == [];
    assert ExecuteAll(db, writes, []) == db;
  }

  lemma TwoOps<V>(db: map<bytes, V>, writes: Argv -> Effect<V>, p: CacheOp, q: CacheOp)
    ensures ExecuteAll(db, writes, [p, q]) == Apply(Apply(db, writes(p.argv)), writes(q.argv))
  {
    assert [p, q][..1] == [p];
    OneOp(db, writes, p);
  }

  /** Two writes under one key, and the broadcast of the second. */
  lemma TwoWrites<V>(writes: Argv -> Effect<V>, a: Argv, b: Argv, start: map<bytes, V>)
    requires |a| >= 2 && |b| >= 2 && CString(a[1]) == CString(b[1])
    requires Arrives(writes, start, [Write(a, 0), Write(b, 0), Broadcast([CString(b[1])])])
    ensures Apply(start, writes(Stored(b))) == Apply(Apply(start, writes(a)), writes(b))
  {
    hide Apply, Stored, CString;
    var key, op := CString(b[1]), CacheOp(0, Stored(b));
    var r := Replica(map[], start, start);
    var v := Next(r, writes, Write(a, 0)).value;
    var w := Next(v, writes, Write(b, 0)).value;
    assert w.cache == map[key := op];
    var order := [key];
    assert InOrder(w.cache, order) == [op];
    OneOp(start, writes, op);
    assert Visits(order, w.cache.Keys);
    RunOfThree(r, writes, Write(a, 0), Write(b, 0), Broadcast(order));
  }

  /** Two writes under different keys, and a broadcast that visits the second
      first. */
  lemma Swapped<V>(writes: Argv -> Effect<V>, a: Argv, b: Argv, start: map<bytes, V>)
    requires |a| >= 2 && |b| >= 2 && CString(a[1]) != CString(b[1])
    requires Arrives(writes, start, [Write(a, 0), Write(b, 0), Broadcast([CString(b[1]), CString(a[1])])])
    ensures Apply(Apply(start, writes(Stored(b))), writes(Stored(a))) == Apply(Apply(start, writes(a)), writes(b))
  {
    hide Apply, Stored, CString;
    var x, p := CString(a[1]), CacheOp(0, Stored(a));
    var y, q := CString(b[1]), CacheOp(0, Stored(b));
    var r := Replica(map[], start, start);
    var v := Next(r, writes, Write(a, 0)).value;
    var w := Next(v, writes, Write(b, 0)).value;
    assert w.cache == map[x := p, y := q];
    var order := [y, x];
    assert InOrder(w.cache, order) == [q, p];
    TwoOps(start, writes, q, p);
    assert Visits(order, w.cache.Keys);
    RunOfThree(r, writes, Write(a, 0), Write(b, 0), Broadcast(order));
  }

  lemma NeedsForwardable<V(!new)>(writes: Argv -> Effect<V>, issued: iset<Argv>, a: Argv, some: V)
    requires Lossless(writes, issued) && a in issued
    ensures Forwardable(writes, a)
  {
    hide Apply, Stored;
    assert Issues([Write(a, 0)], issued);
    assert Arrives(writes, map[], [Write(a, 0)]);
    assert |a| >= 2;
    forall start: map<bytes, V> ensures Apply(start, writes(Stored(a))) == Apply(start, writes(a)) {
      assert Issues([Write(a, 0), Broadcast([CString(a[1])])], issued);
      OneWrite(writes, a, start);
    }
    SameEffect(writes(Stored(a)), writes(a), some);
  }

  lemma NeedsCompatible<V(!new)>(writes: Argv -> Effect<V>, issued: iset<Argv>, a: Argv, b: Argv, some: V)
    requires Lossless(writes, issued) && a in issued && b in issued && |a| >= 2 && |b| >= 2
    ensures Compatible(writes, a, b)
  {
    NeedsForwardable(writes, issued, a, some);
    NeedsForwardable(writes, issued, b, some);
    hide Apply, Stored, CString, Get, Run;
    var e, f := writes(a), writes(b);
    if CString(a[1]) == CString(b[1]) {
      forall k | k in e ensures k in f {
        var start := Revealing(e, k, some);
        Reveals(e, k, some);
        assert Issues([Write(a, 0), Write(b, 0), Broadcast([CString(b[1])])], issued);
        TwoWrites(writes, a, b, start);
        Applied(start, f, k);
        Applied(start, e, k);
        Applied(Apply(start, e), f, k);
      }
    } else {
      forall k | k in e && k in f ensures e[k] == f[k] {
        assert Issues([Write(a, 0), Write(b, 0), Broadcast([CString(b[1]), CString(a[1])])], issued);
        Swapped(writes, a, b, map[]);
        Applied(Apply(map[], f), e, k);
        Applied(Apply(map[], e), f, k);
      }
    }
  }

  /** Coalescing loses nothing of a set of commands, on any history of them,
      exactly when every one of them can be forwarded, each does at least what
      an earlier one under its key did, and those under different keys agree. */
  lemma CoalescingLosslessIff<V(!new)>(writes: Argv -> Effect<V>, issued: iset<Argv>, some: V)
    ensures Lossless(writes, issued) <==> Coalescable(writes, issued)
  {
    if Lossless(writes, issued) {
      forall a | a in issued ensures Forwardable(writes, a) {
        NeedsForwardable(writes, issued, a, some);
      }
      forall a, b | a in issued && b in issued ensures Compatible(writes, a, b) {
        NeedsCompatible(writes, issued, a, b, some);
      }
    }
    if Coalescable(writes, issued) {
      CoalescableLossless(writes, issued);
    }
  }

  // ------------------------------------------------------------------
  // Commands of a server
  // ------------------------------------------------------------------

  /** A command writes its first argument and nothing else. */
  ghost predicate OneKey<V>(writes: Argv -> Effect<V>, a: Argv)
    requires |a| >= 2
  {
    writes(a).Keys == {CString(a[1])}
  }

  /** Some issued command has the same first argument and writes it alone. */
  ghost predicate Overwritable<V>(writes: Argv -> Effect<V>, issued: iset<Argv>, a: Argv)
    requires |a| >= 2
  {
    exists s :: s in issued && |s| >= 2 && CString(s[1]) == CString(a[1]) && OneKey(writes, s)
  }

  ghost predicate Simple<V>(writes: Argv -> Effect<V>, a: Argv) {
    Forwardable(writes, a) && OneKey(writes, a)
  }

  lemma CoalescableOneKey<V>(writes: Argv -> Effect<V>, issued: iset<Argv>, a: Argv)
    requires Coalescable(writes, issued) && a in issued && |a| >= 2 && Overwritable(writes, issued, a)
    ensures Simple(writes, a)
  {
    var s :| s in issued && |s| >= 2 && CString(s[1]) == CString(a[1]) && OneKey(writes, s);
    assert Compatible(writes, a, s) && Compatible(writes, s, a);
    hide Coalescable, CString, Stored;
    LikeOneKey(writes, a, s);
  }

  /** Where every key can also be written by a command of its own, as with SET,
      nothing is lost exactly when no command writes another key than its first
      argument. */
  lemma LosslessIffOneKey<V(!new)>(writes: Argv -> Effect<V>, issued: iset<Argv>, some: V)
    requires forall a | a in issued && |a| >= 2 :: Overwritable(writes, issued, a)
    ensures Lossless(writes, issued) <==> forall a | a in issued :: Simple(writes, a)
  {
    hide Lossless, Coalescable, Simple, Overwritable;
    CoalescingLosslessIff(writes, issued, some);
    if Coalescable(writes, issued) {
      forall a | a in issued ensures Simple(writes, a) {
        HasKeyIfCoalescable(writes, issued, a);
        CoalescableOneKey(writes, issued, a);
      }
    }
    if forall a | a in issued :: Simple(writes, a) {
      SimpleCoalescable(writes, issued);
    }
  }

  lemma HasKeyIfCoalescable<V>(writes: Argv -> Effect<V>, issued: iset<Argv>, a: Argv)
    requires Coalescable(writes, issued) && a in issued
    ensures |a| >= 2
  {
    assert Forwardable(writes, a);
  }

  lemma SimpleCoalescable<V>(writes: Argv -> Effect<V>, issued: iset<Argv>)
    requires forall a | a in issued :: Simple(writes, a)
    ensures Coalescable(writes, issued)
  {
    hide CString, Stored, Compatible;
    forall a | a in issued ensures Forwardable(writes, a) && |a| >= 2 {
      assert Simple(writes, a);
    }
    forall a, b | a in issued && b in issued ensures Compatible(writes, a, b) {
      assert Simple(writes, a) && Simple(writes, b);
      OneKeysCompatible(writes, a, b);
    }
  }

  lemma LikeOneKey<V>(writes: Argv -> Effect<V>, a: Argv, s: Argv)
    requires |a| >= 2 && |s| >= 2 && CString(s[1]) == CString(a[1]) && OneKey(writes, s)
    requires Compatible(writes, a, s) && Compatible(writes, s, a)
    ensures OneKey(writes, a)
  {
    hide CString;
  }

  lemma OneKeysCompatible<V>(writes: Argv -> Effect<V>, a: Argv, b: Argv)
    requires |a| >= 2 && |b| >= 2 && OneKey(writes, a) && OneKey(writes, b)
    ensures Compatible(writes, a, b)
  {
    hide CString;
  }

  /** A command without NUL bytes is forwarded as it was issued. */
  lemma NulFreeForwardable<V>(writes: Argv -> Effect<V>, a: Argv)
    requires |a| >= 2 && NulFree(a)
    ensures Forwardable(writes, a) && CString(a[1]) == a[1]
  {
    ForwardedExactly(a);
    CStringExact(a[1]);
  }

  /** SET, DEL and MSET of strings. */
  const SET := Ascii("SET")
  const DEL := Ascii("DEL")
  const MSET := Ascii("MSET")

  function Pairs(args: seq<bytes>): Effect<bytes> {
    if |args| < 2 then map[] else map[args[0] := Some(args[1])] + Pairs(args[2..])
  }

  function StringWrites(argv: Argv): Effect<bytes> {
    if |argv| == 3 && argv[0] == SET then map[argv[1] := Some(argv[2])]
    else if |argv| > 1 && argv[0] == MSET && |argv| % 2 == 1 then Pairs(argv[1..])
    else if |argv| > 1 && argv[0] == DEL then map k | k in argv[1..] :: None
    else map[]
  }

  /** A SET with a NUL-free command and key can be forwarded if and only if its
      value is NUL-free too; a value of one NUL byte, say, arrives empty. */
  lemma SetForwardableIff(argv: Argv)
    requires |argv| == 3 && argv[0] == SET && 0 !in argv[1]
    ensures Forwardable(StringWrites, argv) <==> 0 !in argv[2]
  {
    assert 0 !in SET;
    CStringExact(argv[0]);
    CStringExact(argv[1]);
    CStringExact(argv[2]);
    var s := Stored(argv);
    assert s[0] == SET && s[1] == argv[1] && s[2] == CString(argv[2]);
    assert StringWrites(s)[argv[1]] == Some(s[2]) && StringWrites(argv)[argv[1]] == Some(argv[2]);
  }

  const A := Ascii("{t}a")
  const B := Ascii("{t}b")
  const ONE := Ascii("1")
  const TWO := Ascii("2")
  const THREE := Ascii("3")

  lemma MsetReplaced()
    ensures var mset, seta := [MSET, A, ONE, B, TWO], [SET, A, THREE];
            !Arrives(StringWrites, map[], [Write(mset, 0), Write(seta, 0), Broadcast([A])])
  {
    var mset, seta := [MSET, A, ONE, B, TWO], [SET, A, THREE];
    Constants();
    MsetWrites();
    NulFreeForwardable(StringWrites, mset);
    NulFreeForwardable(StringWrites, seta);
    hide Stored, CString, Run, Apply, StringWrites, SET, MSET;
    if Arrives(StringWrites, map[], [Write(mset, 0), Write(seta, 0), Broadcast([A])]) {
      TwoWrites(StringWrites, mset, seta, map[]);
      Applied(map[], StringWrites(seta), B);
      Applied(map[], StringWrites(mset), B);
      Applied(Apply(map[], StringWrites(mset)), StringWrites(seta), B);
      assert false;
    }
  }

  lemma MsetOvertakes()
    ensures var mset, setb := [MSET, A, ONE, B, TWO], [SET, B, THREE];
            !Arrives(StringWrites, map[], [Write(mset, 0), Write(setb, 0), Broadcast([B, A])])
  {
    var mset, setb := [MSET, A, ONE, B, TWO], [SET, B, THREE];
    Constants();
    MsetWrites();
    NulFreeForwardable(StringWrites, mset);
    NulFreeForwardable(StringWrites, setb);
    hide Stored, CString, Run, Apply, StringWrites, SET, MSET;
    if Arrives(StringWrites, map[], [Write(mset, 0), Write(setb, 0), Broadcast([B, A])]) {
      Swapped(StringWrites, mset, setb, map[]);
      Applied(Apply(map[], StringWrites(setb)), StringWrites(mset), B);
      Applied(Apply(map[], StringWrites(mset)), StringWrites(setb), B);
      assert false;
    }
  }

  /** MSET writes other keys than its first: after `MSET {t}a 1 {t}b 2` and
      `SET {t}a 3` no broadcast carries b, and after `MSET {t}a 1 {t}b 2` and
      `SET {t}b 3` one that visits b first sets it to 2 in the end. */
  lemma MsetIsLost()
    ensures var mset, seta, setb := [MSET, A, ONE, B, TWO], [SET, A, THREE], [SET, B, THREE];
            && !Arrives(StringWrites, map[], [Write(mset, 0), Write(seta, 0), Broadcast([A])])
            && !Arrives(StringWrites, map[], [Write(mset, 0), Write(setb, 0), Broadcast([B, A])])
  {
    hide Arrives, StringWrites, SET, MSET, A, B, ONE, TWO, THREE;
    MsetReplaced();
    MsetOvertakes();
  }

  lemma Constants()
    ensures A != B && TWO != THREE && SET != MSET
    ensures NulFree([MSET, A, ONE, B, TWO]) && NulFree([SET, A, THREE]) && NulFree([SET, B, THREE])
  {
    assert A[3] != B[3] && TWO[0] != THREE[0] && |SET| != |MSET|;
  }

  lemma MsetWrites()
    ensures StringWrites([MSET, A, ONE, B, TWO]) == map[A := Some(ONE), B := Some(TWO)]
    ensures StringWrites([SET, A, THREE]) == map[A := Some(THREE)]
    ensures StringWrites([SET, B, THREE]) == map[B := Some(THREE)]
  {
    Constants();
    var args := [A, ONE, B, TWO];
    assert [MSET, A, ONE, B, TWO][1..] == args && args[2..] == [B, TWO] && [B, TWO][2..] == [];
    assert Pairs([B, TWO]) == map[B := Some(TWO)] + Pairs([]);
    assert Pairs(args) == map[A := Some(ONE)] + Pairs([B, TWO]);
    var mset := [MSET, A, ONE, B, TWO];
    assert |mset| == 5 && mset[0] == MSET;
  }

  /** A pending operation is the last write of its key since the last
      broadcast. */
  lemma {:induction false} LastWriteKept(c: Cache, writes: seq<Event>, i: nat)
    requires i < |writes| && forall j | 0 <= j < |writes| :: writes[j].Write? && |writes[j].argv| >= 2
    requires forall j | i < j < |writes| :: CString(writes[j].argv[1]) != CString(writes[i].argv[1])
    ensures var k := CString(writes[i].argv[1]);
            k in AddAll(c, writes) && AddAll(c, writes)[k] == CacheOp(writes[i].stamp, Stored(writes[i].argv))
  {
    if i < |writes| - 1 {
      LastWriteKept(c, writes[..|writes| - 1], i);
    }
  }

  function AddAll(c: Cache, writes: seq<Event>): Cache
    requires forall j | 0 <= j < |writes| :: writes[j].Write? && |writes[j].argv| >= 2
  {
    if writes == [] then c else
      var w := writes[|writes| - 1];
      AddOp(AddAll(c, writes[..|writes| - 1]), w.argv, w.stamp).value
  }
}
