/**
 The two-way index of blocked.c: which clients wait for a key, in order, and
 which keys a client waits for, with the counters, the ready queue and the list
 of unblocked clients.
 */
module BlockedClients {
  import opened Options

  type Key = string
  type Id = nat

  datatype BlockType = NotBlocked | OnList | OnZset | OnStream

  datatype Side = Head | Tail

  /** The blocking part of a client: `keys`, `target` and the two sides are
      bpop, `flagged` is CLIENT_UNBLOCKED; CLIENT_BLOCKED is a `btype` other
      than NotBlocked. */
  datatype Client = Client(btype: BlockType, keys: set<Key>, target: Option<Key>, from: Side, to: Side, flagged: bool)

  /** `queues` is blocking_keys, `readyDict` the dictionary that keeps a key
      from being queued twice in `ready`. */
  datatype Index = Index(queues: map<Key, seq<Id>>, clients: map<Id, Client>,
                         ready: seq<Key>, readyDict: set<Key>, unblocked: seq<Id>,
                         total: nat, byType: map<BlockType, nat>)

  const BLOCKING: set<BlockType> := {OnList, OnZset, OnStream}

  predicate Distinct<T(==)>(s: seq<T>) {
    forall i, j | 0 <= i < j < |s| :: s[i] != s[j]
  }

  function Queue(x: Index, k: Key): seq<Id> {
    if k in x.queues then x.queues[k] else []
  }

  function Waiting(clients: map<Id, Client>): set<Id> {
    set c | c in clients && clients[c].btype != NotBlocked
  }

  function WaitingOn(clients: map<Id, Client>, t: BlockType): set<Id> {
    set c | c in clients && clients[c].btype == t
  }

  // ------------------------------------------------------------------
  // The invariant
  // ------------------------------------------------------------------

  ghost predicate ProperQueues(queues: map<Key, seq<Id>>) {
    forall k | k in queues :: queues[k] != [] && Distinct(queues[k])
  }

  ghost predicate QueuedWait(queues: map<Key, seq<Id>>, clients: map<Id, Client>) {
    forall k, c | k in queues && c in queues[k] :: c in clients && k in clients[c].keys
  }

  ghost predicate WaitersQueued(queues: map<Key, seq<Id>>, clients: map<Id, Client>) {
    forall k, c | c in clients && k in clients[c].keys :: k in queues && c in queues[k]
  }

  /** A client stands in a key's queue, exactly once, if and only if the key is
      one of those it waits for; no queue is empty. */
  ghost predicate TwoWay(x: Index) {
    && ProperQueues(x.queues)
    && QueuedWait(x.queues, x.clients)
    && WaitersQueued(x.queues, x.clients)
    && (forall c | c in x.clients :: x.clients[c].btype == NotBlocked <==> x.clients[c].keys == {})
  }

  ghost predicate Counted(x: Index) {
    && x.total == |Waiting(x.clients)|
    && x.byType.Keys == BLOCKING
    && forall t | t in BLOCKING :: x.byType[t] == |WaitingOn(x.clients, t)|
  }

  /** CLIENT_UNBLOCKED holds exactly of the clients in the unblocked list, which
      has each of them once. */
  ghost predicate Flagged(x: Index) {
    && Distinct(x.unblocked)
    && (forall c | c in x.unblocked :: c in x.clients)
    && (forall c | c in x.clients :: x.clients[c].flagged <==> c in x.unblocked)
  }

  /** The dictionary holds the queued keys and those of the batch in hand that
      are still to be served. */
  ghost predicate ReadyOnce(x: Index, batch: seq<Key>) {
    && Distinct(x.ready + batch)
    && (forall k :: k in x.readyDict <==> k in x.ready + batch)
  }

  ghost predicate Sound(x: Index, batch: seq<Key>) {
    TwoWay(x) && Counted(x) && Flagged(x) && ReadyOnce(x, batch)
  }

  // ------------------------------------------------------------------
  // Blocking
  // ------------------------------------------------------------------

  /** One turn of blockForKeys' loop: a key given twice is ignored. */
  function AddKey(x: Index, c: Id, k: Key): Index
    requires c in x.clients
  {
    if k in x.clients[c].keys then x else
      x.(clients := x.clients[c := x.clients[c].(keys := x.clients[c].keys + {k})],
         queues := x.queues[k := Queue(x, k) + [c]])
  }

  function AddKeys(x: Index, c: Id, keys: seq<Key>): (r: Index)
    requires c in x.clients
    ensures c in r.clients && r.byType == x.byType
    decreases |keys|
  {
    if keys == [] then x else AddKey(AddKeys(x, c, keys[..|keys| - 1]), c, keys[|keys| - 1])
  }

  function Aim(x: Index, c: Id, target: Option<Key>, from: Side, to: Side): Index
    requires c in x.clients
  {
    x.(clients := x.clients[c := x.clients[c].(target := target, from := from, to := to)])
  }

  /** blockClient */
  function BlockClient(x: Index, c: Id, t: BlockType): Index
    requires c in x.clients && t in x.byType
  {
    x.(clients := x.clients[c := x.clients[c].(btype := t)], total := x.total + 1,
        byType := x.byType[t := x.byType[t] + 1])
  }

  /** blockForKeys */
  function Block(x: Index, c: Id, t: BlockType, keys: seq<Key>, target: Option<Key>, from: Side, to: Side): Index
    requires c in x.clients && t in x.byType
  {
    BlockClient(AddKeys(Aim(x, c, target, from, to), c, keys), c, t)
  }

  // ------------------------------------------------------------------
  // Unblocking
  // ------------------------------------------------------------------

  function Without(q: seq<Id>, c: Id): (r: seq<Id>)
    ensures forall d :: d in r <==> d in q && d != c
  {
    if q == [] then [] else (if q[0] == c then [] else [q[0]]) + Without(q[1..], c)
  }

  /** unblockClientWaitingData's effect on the queues. */
  function Leave(queues: map<Key, seq<Id>>, c: Id, keys: set<Key>): map<Key, seq<Id>> {
    map k | k in queues && (k in keys ==> Without(queues[k], c) != []) ::
      if k in keys then Without(queues[k], c) else queues[k]
  }

  /** unblockClient, with queueClientForReprocessing at its end. */
  function Unblock(x: Index, c: Id): Index
    requires c in x.clients && x.clients[c].btype in x.byType
  {
    var p := x.clients[c];
    x.(queues := Leave(x.queues, c, p.keys),
       clients := x.clients[c := p.(btype := NotBlocked, keys := {}, target := None, flagged := true)],
       unblocked := if p.flagged then x.unblocked else x.unblocked + [c],
       total := if x.total > 0 then x.total - 1 else 0,
       byType := x.byType[p.btype := if x.byType[p.btype] > 0 then x.byType[p.btype] - 1 else 0])
  }

  /** One turn of processUnblockedClients, without the queries it then runs. */
  function Reprocess(x: Index): Index
    requires x.unblocked != [] && x.unblocked[0] in x.clients
  {
    var c := x.unblocked[0];
    x.(unblocked := x.unblocked[1..], clients := x.clients[c := x.clients[c].(flagged := false)])
  }

  /** listRotateHeadToTail on a key's queue. */
  function Rotate(x: Index, k: Key): Index
    requires k in x.queues && x.queues[k] != []
  {
    x.(queues := x.queues[k := x.queues[k][1..] + [x.queues[k][0]]])
  }

  /** signalKeyAsReady, for a key whose type clients block on as `t`. */
  function Signal(x: Index, k: Key, t: BlockType): Index
    requires t != NotBlocked ==> t in x.byType
  {
    if t == NotBlocked || x.byType[t] == 0 || k !in x.queues || k in x.readyDict then x
    else x.(ready := x.ready + [k], readyDict := x.readyDict + {k})
  }

  // ------------------------------------------------------------------
  // The invariant is kept
  // ------------------------------------------------------------------

  lemma {:induction false} WithoutFacts(q: seq<Id>, c: Id)
    requires Distinct(q)
    ensures Distinct(Without(q, c))
    ensures c !in q ==> Without(q, c) == q
    ensures q != [] && q[0] == c ==> Without(q, c) == q[1..]
    ensures |Without(q, c)| == |q| - (if c in q then 1 else 0)
  {
    if q != [] {
      WithoutFacts(q[1..], c);
      assert q == [q[0]] + q[1..];
      assert c in q <==> q[0] == c || c in q[1..];
      assert q[0] !in q[1..];
    }
  }

  lemma DistinctSnoc<T>(q: seq<T>, c: T)
    requires Distinct(q) && c !in q
    ensures Distinct(q + [c])
  {
  }

  /** The index while blockForKeys runs: client `c` is not counted yet. */
  ghost predicate Entering(x: Index, c: Id) {
    && c in x.clients && x.clients[c].btype == NotBlocked
    && ProperQueues(x.queues)
    && QueuedWait(x.queues, x.clients)
    && WaitersQueued(x.queues, x.clients)
    && (forall d | d in x.clients && d != c :: x.clients[d].btype == NotBlocked <==> x.clients[d].keys == {})
  }

  lemma AddKeyEnters(x: Index, c: Id, k: Key)
    requires Entering(x, c)
    ensures Entering(AddKey(x, c, k), c)
  {
    if k !in x.clients[c].keys {
      assert c !in Queue(x, k);
      DistinctSnoc(Queue(x, k), c);
    }
  }

  lemma AddKeyAdds(x: Index, c: Id, k: Key)
    requires c in x.clients
    ensures var y := AddKey(x, c, k);
            && y == x.(clients := y.clients, queues := y.queues)
            && y.clients == x.clients[c := x.clients[c].(keys := x.clients[c].keys + {k})]
            && (forall j :: Queue(y, j) == Queue(x, j) + if j == k && k !in x.clients[c].keys then [c] else [])
  {
    if k in x.clients[c].keys {
      assert x.clients[c].keys + {k} == x.clients[c].keys;
    }
  }

  /** What the loop of blockForKeys does: the client waits for exactly the keys
      given, and stands last in the queue of each, once. */
  lemma {:induction false} AddKeysEnters(x: Index, c: Id, keys: seq<Key>)
    requires Entering(x, c) && x.clients[c].keys == {}
    ensures var y := AddKeys(x, c, keys);
            && Entering(y, c)
            && y == x.(clients := y.clients, queues := y.queues)
            && y.clients == x.clients[c := x.clients[c].(keys := y.clients[c].keys)]
            && (forall k :: k in y.clients[c].keys <==> k in keys)
            && (forall k :: Queue(y, k) == Queue(x, k) + if k in keys then [c] else [])
    decreases |keys|
  {
    hide Queue, AddKey;
    if keys == [] {
      assert x.clients == x.clients[c := x.clients[c].(keys := x.clients[c].keys)];
    } else {
      var front, last := keys[..|keys| - 1], keys[|keys| - 1];
      var z := AddKeys(x, c, front);
      AddKeysEnters(x, c, front);
      assert forall k :: k in keys <==> k in front || k == last by {
        assert keys == front + [last];
      }
      hide Entering;
      AddKeyEnters(z, c, last);
      AddKeyAdds(z, c, last);
      forall k ensures Queue(AddKeys(x, c, keys), k) == Queue(x, k) + if k in keys then [c] else [] {
        Nothing(Queue(x, k), c);
      }
    }
  }

  lemma Nothing(q: seq<Id>, c: Id)
    ensures q + [] == q && q + [c] + [] == q + [c] && q + [] + [c] == q + [c]
  {
  }

  /** One client, `c`, goes from unblocked to blocked on `t`. */
  lemma OneMore(before: map<Id, Client>, after: map<Id, Client>, c: Id, t: BlockType)
    requires c in before && after.Keys == before.Keys && before[c].btype == NotBlocked
    requires after[c].btype == t && t != NotBlocked
    requires forall d | d in before && d != c :: after[d].btype == before[d].btype
    ensures |Waiting(after)| == |Waiting(before)| + 1
  {
    var w, v := Waiting(after), Waiting(before);
    forall d ensures d in w <==> d in v || d == c {
      assert d in after <==> d in before;
    }
    assert w == v + {c} && c !in v;
  }

  lemma OneMoreOn(before: map<Id, Client>, after: map<Id, Client>, c: Id, t: BlockType, u: BlockType)
    requires c in before && after.Keys == before.Keys && before[c].btype == NotBlocked
    requires after[c].btype == t && t != NotBlocked && u != NotBlocked
    requires forall d | d in before && d != c :: after[d].btype == before[d].btype
    ensures |WaitingOn(after, u)| == |WaitingOn(before, u)| + (if u == t then 1 else 0)
  {
    var w, v := WaitingOn(after, u), WaitingOn(before, u);
    forall d ensures d in w <==> d in v || (d == c && u == t) {
      assert d in after <==> d in before;
    }
    assert c !in v;
    if u == t {
      assert w == v + {c};
    } else {
      assert w == v;
    }
  }

  lemma CountChange(x: Index, y: Index, c: Id, t: BlockType)
    requires Counted(x) && c in x.clients && t in BLOCKING && x.clients[c].btype == NotBlocked
    requires y.clients.Keys == x.clients.Keys && y.clients[c].btype == t
    requires forall d | d in x.clients && d != c :: y.clients[d].btype == x.clients[d].btype
    requires y.total == x.total + 1 && y.byType == x.byType[t := x.byType[t] + 1]
    ensures Counted(y)
  {
    hide Waiting, WaitingOn;
    OneMore(x.clients, y.clients, c, t);
    forall u | u in BLOCKING ensures y.byType[u] == |WaitingOn(y.clients, u)| {
      OneMoreOn(x.clients, y.clients, c, t, u);
    }
  }

  lemma CountBack(x: Index, y: Index, c: Id)
    requires Counted(x) && c in x.clients && x.clients[c].btype in BLOCKING
    requires y.clients.Keys == x.clients.Keys && y.clients[c].btype == NotBlocked
    requires forall d | d in x.clients && d != c :: y.clients[d].btype == x.clients[d].btype
    requires var t := x.clients[c].btype;
             && y.total == (if x.total > 0 then x.total - 1 else 0)
             && y.byType == x.byType[t := if x.byType[t] > 0 then x.byType[t] - 1 else 0]
    ensures Counted(y) && y.total == x.total - 1
  {
    hide Waiting, WaitingOn;
    OneMore(y.clients, x.clients, c, x.clients[c].btype);
    forall u | u in BLOCKING ensures y.byType[u] == |WaitingOn(y.clients, u)| {
      OneMoreOn(y.clients, x.clients, c, x.clients[c].btype, u);
    }
  }

  lemma Entered(a: Index, c: Id, t: BlockType)
    requires Entering(a, c) && a.clients[c].keys != {} && t in a.byType && t != NotBlocked
    ensures TwoWay(BlockClient(a, c, t))
  {
  }

  lemma SameFlags(x: Index, y: Index)
    requires Flagged(x) && y.unblocked == x.unblocked && y.clients.Keys == x.clients.Keys
    requires forall c | c in x.clients :: y.clients[c].flagged == x.clients[c].flagged
    ensures Flagged(y)
  {
  }

  lemma AimEnters(x: Index, c: Id, target: Option<Key>, from: Side, to: Side)
    requires Sound(x, []) && c in x.clients && x.clients[c].btype == NotBlocked
    ensures var p := Aim(x, c, target, from, to);
            Entering(p, c) && p.clients[c].keys == {} && Counted(p) && Flagged(p)
  {
    var p := Aim(x, c, target, from, to);
    SameCounts(x, p);
  }

  lemma EnteredCounted(p: Index, a: Index, c: Id, t: BlockType)
    requires Counted(p) && Flagged(p) && c in p.clients && p.clients[c].btype == NotBlocked && t in BLOCKING
    requires a == p.(clients := a.clients, queues := a.queues)
    requires c in a.clients && a.clients == p.clients[c := p.clients[c].(keys := a.clients[c].keys)]
    ensures t in a.byType && Counted(BlockClient(a, c, t)) && Flagged(BlockClient(a, c, t))
  {
    CountChange(p, BlockClient(a, c, t), c, t);
    SameFlags(p, BlockClient(a, c, t));
  }

  lemma Rewritten(m: map<Id, Client>, c: Id, p: Client, q: Client, r: Client)
    ensures m[c := p][c := q][c := r] == m[c := r]
  {
  }

  lemma BlockIndex(x: Index, c: Id, t: BlockType, keys: seq<Key>, target: Option<Key>, from: Side, to: Side)
    requires Sound(x, []) && c in x.clients && x.clients[c].btype == NotBlocked && t in BLOCKING && keys != []
    ensures t in x.byType
    ensures var y := Block(x, c, t, keys, target, from, to);
            && TwoWay(y) && Counted(y) && Flagged(y) && c in y.clients
            && y.clients == x.clients[c := x.clients[c].(btype := t, keys := y.clients[c].keys, target := target,
               from := from, to := to)]
            && y == x.(clients := y.clients, queues := y.queues, total := y.total, byType := y.byType)
  {
    var p := Aim(x, c, target, from, to);
    AimEnters(x, c, target, from, to);
    hide AddKeys, Queue, Entering, TwoWay, Flagged, Counted, ReadyOnce;
    AddKeysEnters(p, c, keys);
    var a := AddKeys(p, c, keys);
    assert keys[0] in a.clients[c].keys;
    EnteredCounted(p, a, c, t);
    Entered(a, c, t);
    var y := BlockClient(a, c, t);
    Rewritten(x.clients, c, p.clients[c], a.clients[c], y.clients[c]);
  }

  lemma BlockQueues(x: Index, c: Id, t: BlockType, keys: seq<Key>, target: Option<Key>, from: Side, to: Side)
    requires Sound(x, []) && c in x.clients && x.clients[c].btype == NotBlocked && t in x.byType
    ensures forall k :: Queue(Block(x, c, t, keys, target, from, to), k) == Queue(x, k) + if k in keys then [c] else []
  {
    var p := Aim(x, c, target, from, to);
    AimEnters(x, c, target, from, to);
    hide AddKeys, Queue, Entering, TwoWay, Flagged, Counted, ReadyOnce;
    AddKeysEnters(p, c, keys);
    forall k ensures Queue(Block(x, c, t, keys, target, from, to), k) == Queue(x, k) + if k in keys then [c] else [] {
      SameQueues(x, p, k);
      SameQueues(AddKeys(p, c, keys), Block(x, c, t, keys, target, from, to), k);
    }
  }

  lemma BlockSound(x: Index, c: Id, t: BlockType, keys: seq<Key>, target: Option<Key>, from: Side, to: Side)
    requires Sound(x, []) && c in x.clients && x.clients[c].btype == NotBlocked && t in BLOCKING && keys != []
    ensures t in x.byType
    ensures var y := Block(x, c, t, keys, target, from, to);
            && Sound(y, [])
            && (forall k :: Queue(y, k) == Queue(x, k) + if k in keys then [c] else [])
            && c in y.clients
            && y.clients == x.clients[c := x.clients[c].(btype := t, keys := y.clients[c].keys, target := target,
               from := from, to := to)]
            && y.ready == x.ready && y.readyDict == x.readyDict
  {
    BlockIndex(x, c, t, keys, target, from, to);
    BlockQueues(x, c, t, keys, target, from, to);
    hide Block, Queue, TwoWay, Counted, Flagged;
  }

  lemma SameQueues(x: Index, y: Index, k: Key)
    requires x.queues == y.queues
    ensures Queue(x, k) == Queue(y, k)
  {
  }

  lemma LeaveProper(queues: map<Key, seq<Id>>, c: Id, keys: set<Key>)
    requires ProperQueues(queues)
    ensures ProperQueues(Leave(queues, c, keys))
  {
    forall k | k in queues ensures Distinct(Without(queues[k], c)) {
      WithoutFacts(queues[k], c);
    }
    hide Without;
  }

  lemma LeaveQueued(queues: map<Key, seq<Id>>, before: map<Id, Client>, after: map<Id, Client>, c: Id)
    requires QueuedWait(queues, before) && WaitersQueued(queues, before)
    requires c in before && c in after && after == before[c := after[c]] && after[c].keys == {}
    ensures QueuedWait(Leave(queues, c, before[c].keys), after)
    ensures WaitersQueued(Leave(queues, c, before[c].keys), after)
  {
    hide Without;
    var q := Leave(queues, c, before[c].keys);
    forall k, d | d in after && k in after[d].keys ensures k in q && d in q[k] {
      assert d != c && d in queues[k];
      assert d in Without(queues[k], c);
    }
  }

  lemma LeaveQueue(queues: map<Key, seq<Id>>, clients: map<Id, Client>, c: Id, k: Key)
    requires ProperQueues(queues) && QueuedWait(queues, clients) && c in clients
    ensures var q := Leave(queues, c, clients[c].keys);
            (if k in q then q[k] else []) == Without(if k in queues then queues[k] else [], c)
  {
    if k in queues {
      WithoutFacts(queues[k], c);
    }
  }

  lemma UnblockTwoWay(x: Index, c: Id)
    requires TwoWay(x) && c in x.clients && x.clients[c].btype in x.byType
    ensures TwoWay(Unblock(x, c))
    ensures forall k :: Queue(Unblock(x, c), k) == Without(Queue(x, k), c)
  {
    hide Leave, ProperQueues, QueuedWait, WaitersQueued, Without;
    var y := Unblock(x, c);
    LeaveProper(x.queues, c, x.clients[c].keys);
    LeaveQueued(x.queues, x.clients, y.clients, c);
    forall k ensures Queue(y, k) == Without(Queue(x, k), c) {
      LeaveQueue(x.queues, x.clients, c, k);
    }
  }

  lemma UnblockCounted(x: Index, c: Id)
    requires Counted(x) && c in x.clients && x.clients[c].btype in BLOCKING
    ensures Counted(Unblock(x, c)) && Unblock(x, c).total == x.total - 1
  {
    hide Leave;
    CountBack(x, Unblock(x, c), c);
  }

  lemma UnblockFlagged(x: Index, c: Id)
    requires Flagged(x) && c in x.clients && x.clients[c].btype in x.byType
    ensures Flagged(Unblock(x, c)) && c in Unblock(x, c).unblocked
  {
    hide Leave;
    if !x.clients[c].flagged {
      DistinctSnoc(x.unblocked, c);
    }
  }

  lemma UnblockSound(x: Index, c: Id, batch: seq<Key>)
    requires Sound(x, batch) && c in x.clients && x.clients[c].btype != NotBlocked
    ensures x.clients[c].btype in x.byType
    ensures var y := Unblock(x, c);
            && Sound(y, batch) && y.total == x.total - 1
            && y.ready == x.ready && y.readyDict == x.readyDict
            && c in y.unblocked
            && (forall k :: Queue(y, k) == Without(Queue(x, k), c))
  {
    assert x.clients[c].btype in BLOCKING;
    hide Queue, Without, Leave, TwoWay, Flagged, Counted;
    var y := Unblock(x, c);
    UnblockTwoWay(x, c);
    UnblockCounted(x, c);
    UnblockFlagged(x, c);
  }

  lemma RotatedQueue(q: seq<Id>)
    requires q != [] && Distinct(q)
    ensures Distinct(q[1..] + [q[0]]) && forall c :: c in q[1..] + [q[0]] <==> c in q
  {
    assert q == [q[0]] + q[1..];
  }

  lemma RotateOk(x: Index, k: Key)
    requires TwoWay(x) && Counted(x) && k in x.queues
    ensures TwoWay(Rotate(x, k)) && Counted(Rotate(x, k))
  {
    hide Counted, Distinct;
    RotatedQueue(x.queues[k]);
    RotateCounted(x, k);
  }

  lemma RotateCounted(x: Index, k: Key)
    requires Counted(x) && k in x.queues && x.queues[k] != []
    ensures Counted(Rotate(x, k))
  {
    SameCounts(x, Rotate(x, k));
  }

  lemma RotateSound(x: Index, k: Key, batch: seq<Key>)
    requires Sound(x, batch) && k in x.queues
    ensures Sound(Rotate(x, k), batch)
  {
    RotateOk(x, k);
  }

  lemma SameCounts(x: Index, y: Index)
    requires Counted(x) && y.clients.Keys == x.clients.Keys && y.total == x.total && y.byType == x.byType
    requires forall c | c in x.clients :: y.clients[c].btype == x.clients[c].btype
    ensures Counted(y)
  {
    assert Waiting(y.clients) == Waiting(x.clients);
    forall t ensures WaitingOn(y.clients, t) == WaitingOn(x.clients, t) {
      assert forall c :: c in WaitingOn(y.clients, t) <==> c in WaitingOn(x.clients, t);
    }
  }

  /** A signal changes the ready queue only, and afterwards the key is queued
      if a client of the type waits for it. */
  lemma SignalSound(x: Index, k: Key, t: BlockType, batch: seq<Key>)
    requires Sound(x, batch) && (t == NotBlocked || t in BLOCKING)
    ensures var y := Signal(x, k, t);
            && Sound(y, batch)
            && y == x.(ready := y.ready, readyDict := y.readyDict)
            && x.readyDict <= y.readyDict
            && ((exists c :: c in Queue(x, k) && x.clients[c].btype == t) && t != NotBlocked ==> k in y.readyDict)
  {
    var y := Signal(x, k, t);
    SameCounts(x, y);
    if y != x {
      Queued(x.ready, batch, k);
    } else if t != NotBlocked && exists c :: c in Queue(x, k) && x.clients[c].btype == t {
      var c :| c in Queue(x, k) && x.clients[c].btype == t;
      assert c in WaitingOn(x.clients, t);
    }
  }

  lemma Queued(ready: seq<Key>, batch: seq<Key>, k: Key)
    requires Distinct(ready + batch) && k !in ready + batch
    ensures Distinct(ready + [k] + batch)
    ensures forall j :: j in ready + [k] + batch <==> j in ready + batch || j == k
  {
    var s, t := ready + batch, ready + [k] + batch;
    assert t[|ready|] == k;
    assert forall i | 0 <= i < |ready| :: t[i] == s[i];
    assert forall i | |ready| < i < |t| :: t[i] == s[i - 1];
  }

  lemma ReprocessSound(x: Index, batch: seq<Key>)
    requires Sound(x, batch) && x.unblocked != []
    ensures Sound(Reprocess(x), batch)
  {
    hide Counted, Flagged, ReadyOnce;
    ReprocessFlagged(x);
    ReprocessCounted(x);
    assert ReadyOnce(Reprocess(x), batch) by { SameReady(x, Reprocess(x), batch); }
  }

  lemma ReprocessFlagged(x: Index)
    requires Flagged(x) && x.unblocked != []
    ensures x.unblocked[0] in x.clients && Flagged(Reprocess(x))
  {
    var c := x.unblocked[0];
    assert x.unblocked == [c] + x.unblocked[1..];
  }

  lemma ReprocessCounted(x: Index)
    requires Counted(x) && x.unblocked != [] && x.unblocked[0] in x.clients
    ensures Counted(Reprocess(x))
  {
    SameCounts(x, Reprocess(x));
  }

  lemma SameReady(x: Index, y: Index, batch: seq<Key>)
    requires ReadyOnce(x, batch) && y.ready == x.ready && y.readyDict == x.readyDict
    ensures ReadyOnce(y, batch)
  {
  }
}
