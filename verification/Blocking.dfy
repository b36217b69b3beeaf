/**
 Serving blocked clients (blocked.c, t_list.c): a ready key serves its queue in
 order, a served BLMOVE may make other keys ready, and handling the ready keys
 ends with nobody asleep on a key that has something for him.
 */
module Blocking {
  import opened Options
  import opened BlockedClients

  type Elem = string

  /** Of a sorted set only its cardinality matters here. */
  datatype Value = List(items: seq<Elem>) | Zset(card: nat) | Stream | Plain

  datatype Outcome =
    | Popped(key: Key, value: Elem)
    | Moved(source: Key, to: Key, value: Elem)
    | WrongType
    | ZPopped(key: Key)

  datatype Reply = Reply(client: Id, outcome: Outcome)

  datatype State = State(db: map<Key, Value>, x: Index, replies: seq<Reply>)

  /** getBlockedTypeByType */
  function TypeOf(v: Value): BlockType {
    match v
    case List(_) => OnList
    case Zset(_) => OnZset
    case Stream => OnStream
    case Plain => NotBlocked
  }

  // listTypePop and listTypePush
  function Popping(items: seq<Elem>, from: Side): Elem
    requires items != []
  {
    if from == Head then items[0] else items[|items| - 1]
  }

  function Rest(items: seq<Elem>, from: Side): seq<Elem>
    requires items != []
  {
    if from == Head then items[1..] else items[..|items| - 1]
  }

  function Push(items: seq<Elem>, v: Elem, to: Side): seq<Elem> {
    if to == Head then [v] + items else items + [v]
  }

  ghost predicate Ok(x: Index) {
    TwoWay(x) && Counted(x)
  }

  /** dbAdd: a new key, signalled. */
  ghost function Add(s: State, k: Key, v: Value): State
    requires Counted(s.x)
  {
    s.(db := s.db[k := v], x := Signal(s.x, k, TypeOf(v)))
  }

  // ------------------------------------------------------------------
  // Serving one client
  // ------------------------------------------------------------------

  /** serveClientBlockedOnList and, when it fails, the undoing of the pop. */
  ghost function GiveList(s: State, k: Key, c: Id): State
    requires Counted(s.x) && c in s.x.clients && k in s.db && s.db[k].List? && s.db[k].items != []
  {
    var p := s.x.clients[c];
    var v, rest := Popping(s.db[k].items, p.from), Rest(s.db[k].items, p.from);
    var popped := s.(db := s.db[k := List(rest)]);
    match p.target
    case None => popped.(replies := s.replies + [Reply(c, Popped(k, v))])
    case Some(d) =>
      if d in popped.db && !popped.db[d].List? then
        popped.(db := popped.db[k := List(Push(rest, v, p.from))], replies := s.replies + [Reply(c, WrongType)])
      else
        var q := if d in popped.db then popped else Add(popped, d, List([]));
        q.(db := q.db[d := List(Push(q.db[d].items, v, p.to))], replies := s.replies + [Reply(c, Moved(k, d, v))])
  }

  /** genericZpopCommand for one element: an emptied key is deleted. */
  function GiveZset(s: State, k: Key, c: Id): State
    requires k in s.db && s.db[k].Zset? && s.db[k].card > 0
  {
    s.(db := if s.db[k].card == 1 then s.db - {k} else s.db[k := Zset(s.db[k].card - 1)],
       replies := s.replies + [Reply(c, ZPopped(k))])
  }

  /** The key is of the type served, or gone. */
  predicate Held(s: State, k: Key, t: BlockType) {
    if t == OnList then k in s.db && s.db[k].List?
    else t == OnZset && (k in s.db ==> s.db[k].Zset? && s.db[k].card > 0)
  }

  predicate Exhausted(s: State, k: Key, t: BlockType)
    requires Held(s, k, t)
  {
    if t == OnList then s.db[k].items == [] else k !in s.db
  }

  ghost function Serve(s: State, k: Key, t: BlockType, c: Id): State
    requires Ok(s.x) && c in s.x.clients && s.x.clients[c].btype == t && Held(s, k, t) && !Exhausted(s, k, t)
  {
    var g := if t == OnList then GiveList(s, k, c) else GiveZset(s, k, c);
    Given(s, k, t, c);
    g.(x := Unblock(g.x, c))
  }

  lemma SignalLeaves(x: Index, k: Key, t: BlockType)
    requires t != NotBlocked ==> t in x.byType
    ensures var y := Signal(x, k, t);
            y.clients == x.clients && y.queues == x.queues && y.total == x.total && y.byType == x.byType
  {
  }

  /** What serving a client, as the one who waits or as the target of one who
      does, leaves of the state. */
  ghost predicate GivenTo(s: State, g: State, c: Id) {
    && g.x.clients == s.x.clients && g.x.queues == s.x.queues
    && g.x.total == s.x.total && g.x.byType == s.x.byType
    && |g.replies| == |s.replies| + 1 && g.replies[..|s.replies|] == s.replies
    && g.replies[|s.replies|].client == c
  }

  lemma GivenList(s: State, k: Key, c: Id)
    requires Counted(s.x) && c in s.x.clients && k in s.db && s.db[k].List? && s.db[k].items != []
    ensures GivenTo(s, GiveList(s, k, c), c) && Held(GiveList(s, k, c), k, OnList)
  {
    hide Popping, Rest, Push, Signal;
    var p := s.x.clients[c];
    if p.target.Some? {
      SignalLeaves(s.x, p.target.value, OnList);
    }
  }

  lemma GivenZset(s: State, k: Key, c: Id)
    requires k in s.db && s.db[k].Zset? && s.db[k].card > 0
    ensures GivenTo(s, GiveZset(s, k, c), c) && Held(GiveZset(s, k, c), k, OnZset)
  {
  }

  lemma Given(s: State, k: Key, t: BlockType, c: Id)
    requires Ok(s.x) && c in s.x.clients && s.x.clients[c].btype == t && Held(s, k, t) && !Exhausted(s, k, t)
    ensures var g := if t == OnList then GiveList(s, k, c) else GiveZset(s, k, c);
            GivenTo(s, g, c) && Held(g, k, t) && t in s.x.byType
  {
    hide TwoWay, GiveList, GiveZset, GivenTo;
    assert t in BLOCKING;
    if t == OnList {
      GivenList(s, k, c);
    } else {
      GivenZset(s, k, c);
    }
  }

  // ------------------------------------------------------------------
  // Serving a key
  // ------------------------------------------------------------------

  lemma ServedOk(s: State, k: Key, t: BlockType)
    requires Ok(s.x) && Queue(s.x, k) != []
    ensures Queue(s.x, k)[0] in s.x.clients
    ensures Ok(Rotate(s.x, k)) && |Queue(Rotate(s.x, k), k)| == |Queue(s.x, k)|
  {
    var q := s.x.queues[k];
    RotateOk(s.x, k);
  }

  lemma ServeOk(s: State, k: Key, t: BlockType, c: Id)
    requires Ok(s.x) && Held(s, k, t) && !Exhausted(s, k, t)
    requires Queue(s.x, k) != [] && c == Queue(s.x, k)[0] && c in s.x.clients && s.x.clients[c].btype == t
    ensures var r := Serve(s, k, t, c);
            && Ok(r.x) && Held(r, k, t) && Queue(r.x, k) == Queue(s.x, k)[1..] && r.x.total == s.x.total - 1
            && r.x.clients == s.x.clients[c := r.x.clients[c]]
            && |r.replies| == |s.replies| + 1 && r.replies[..|s.replies|] == s.replies
            && r.replies[|s.replies|].client == c
  {
    hide GiveList, GiveZset, Queue, Without, Leave;
    Given(s, k, t, c);
    var g := if t == OnList then GiveList(s, k, c) else GiveZset(s, k, c);
    assert TwoWay(g.x) && Counted(g.x) by { SameCounts(s.x, g.x); }
    UnblockTwoWay(g.x, c);
    UnblockCounted(g.x, c);
    SameQueues(s.x, g.x, k);
    assert Distinct(Queue(s.x, k)) by { QueueDistinct(s.x, k); }
    WithoutFacts(Queue(s.x, k), c);
  }

  lemma QueuePresent(x: Index, k: Key)
    requires Queue(x, k) != []
    ensures k in x.queues && Queue(x, k) == x.queues[k]
  {
  }

  lemma QueueDistinct(x: Index, k: Key)
    requires Ok(x)
    ensures Distinct(Queue(x, k))
  {
  }

  /** The loop of serveClientsBlockedOnListKey and its sorted-set sibling, with
      `n` of the clients counted at its start still to visit: a client blocked
      for another type goes to the tail. */
  ghost function ServeLoop(s: State, k: Key, t: BlockType, n: nat): State
    requires Ok(s.x) && Held(s, k, t) && n <= |Queue(s.x, k)|
    decreases n
  {
    if n == 0 || (t == OnZset && Exhausted(s, k, t)) then s else
      var c := Queue(s.x, k)[0];
      ServedOk(s, k, t);
      if s.x.clients[c].btype != t then ServeLoop(s.(x := Rotate(s.x, k)), k, t, n - 1)
      else if Exhausted(s, k, t) then s
      else
        ServeOk(s, k, t, c);
        ServeLoop(Serve(s, k, t, c), k, t, n - 1)
  }

  // ------------------------------------------------------------------
  // First come, first served
  // ------------------------------------------------------------------

  /** The clients of a queue blocked for a type, or for any other one. */
  function Picked(clients: map<Id, Client>, q: seq<Id>, t: BlockType, same: bool): seq<Id> {
    if q == [] then [] else
      (if q[0] in clients && (clients[q[0]].btype == t) == same then [q[0]] else []) + Picked(clients, q[1..], t, same)
  }

  function Clients(replies: seq<Reply>): seq<Id> {
    seq(|replies|, i requires 0 <= i < |replies| => replies[i].client)
  }

  /** How many clients the loop visits. */
  ghost function Visited(s: State, k: Key, t: BlockType, n: nat): (i: nat)
    requires Ok(s.x) && Held(s, k, t) && n <= |Queue(s.x, k)|
    ensures i <= n
    decreases n
  {
    if n == 0 || (t == OnZset && Exhausted(s, k, t)) then 0 else
      var c := Queue(s.x, k)[0];
      ServedOk(s, k, t);
      if s.x.clients[c].btype != t then 1 + Visited(s.(x := Rotate(s.x, k)), k, t, n - 1)
      else if Exhausted(s, k, t) then 0
      else
        ServeOk(s, k, t, c);
        1 + Visited(Serve(s, k, t, c), k, t, n - 1)
  }

  lemma {:induction false} PickedSame(a: map<Id, Client>, b: map<Id, Client>, q: seq<Id>, c: Id, t: BlockType,
      same: bool)
    requires c !in q && c in a && c in b && b == a[c := b[c]]
    ensures Picked(a, q, t, same) == Picked(b, q, t, same)
  {
    if q != [] {
      PickedSame(a, b, q[1..], c, t, same);
      assert q[0] in q;
    }
  }

  lemma PickedFirst(clients: map<Id, Client>, q: seq<Id>, i: nat, t: BlockType, same: bool)
    requires 0 < i <= |q|
    ensures Picked(clients, q[..i], t, same) ==
            (if q[0] in clients && (clients[q[0]].btype == t) == same then [q[0]] else [])
                + Picked(clients, q[1..][..i - 1], t, same)
  {
    assert q[..i][1..] == q[1..][..i - 1];
  }

  lemma NobodyVisited(s: State, k: Key, t: BlockType, n: nat)
    requires Ok(s.x) && Held(s, k, t) && n <= |Queue(s.x, k)| && Visited(s, k, t, n) == 0
    ensures ServeLoop(s, k, t, n) == s && (n > 0 ==> Exhausted(s, k, t))
    ensures var q := Queue(s.x, k); q == q[0..] + Picked(s.x.clients, q[..0], t, false)
    ensures s.replies[..|s.replies|] == s.replies && Clients(s.replies[|s.replies|..]) == []
    ensures Picked(s.x.clients, Queue(s.x, k)[..0], t, true) == []
  {
  }

  lemma RotatedHead(x: Index, k: Key)
    requires k in x.queues && x.queues[k] != []
    ensures Queue(Rotate(x, k), k) == Queue(x, k)[1..] + [Queue(x, k)[0]]
    ensures Rotate(x, k).clients == x.clients
  {
  }

  lemma AfterRotation(q: seq<Id>, j: nat, back: seq<Id>)
    requires j < |q|
    ensures (q[1..] + [q[0]])[..j] == q[1..][..j]
    ensures (q[1..] + [q[0]])[j..] + back == q[j + 1..] + ([q[0]] + back)
  {
  }

  lemma AfterService(a: map<Id, Client>, b: map<Id, Client>, q: seq<Id>, j: nat, t: BlockType)
    requires j < |q| && Distinct(q) && q[0] in a && q[0] in b && b == a[q[0] := b[q[0]]]
    ensures forall same :: Picked(a, q[1..][..j], t, same) == Picked(b, q[1..][..j], t, same)
    ensures q[1..][j..] == q[j + 1..]
  {
    forall same ensures Picked(a, q[1..][..j], t, same) == Picked(b, q[1..][..j], t, same) {
      PickedSame(a, b, q[1..][..j], q[0], t, same);
    }
  }

  /** The clients of other types among the first `i`, put last: the same whether
      the first of them is put last before or with the rest. */
  lemma OthersRotate(clients: map<Id, Client>, q: seq<Id>, i: nat, t: BlockType)
    requires 0 < i <= |q| && q[0] in clients && clients[q[0]].btype != t
    ensures var p := q[1..] + [q[0]];
            p[i - 1..] + Picked(clients, p[..i - 1], t, false) == q[i..] + Picked(clients, q[..i], t, false)
  {
    hide Picked;
    PickedFirst(clients, q, i, t, false);
    AfterRotation(q, i - 1, Picked(clients, q[1..][..i - 1], t, false));
  }

  lemma OthersStay(a: map<Id, Client>, b: map<Id, Client>, q: seq<Id>, i: nat, t: BlockType)
    requires 0 < i <= |q| && Distinct(q) && q[0] in a && a[q[0]].btype == t
    requires q[0] in b && b == a[q[0] := b[q[0]]]
    ensures var p := q[1..];
            p[i - 1..] + Picked(b, p[..i - 1], t, false) == q[i..] + Picked(a, q[..i], t, false)
  {
    hide Picked;
    PickedFirst(a, q, i, t, false);
    AfterService(a, b, q, i - 1, t);
  }

  lemma ClientsSplit(a: seq<Reply>, b: seq<Reply>, r: seq<Reply>)
    requires |b| == |a| + 1 && b[..|a|] == a && |b| <= |r| && r[..|b|] == b
    ensures r[..|a|] == a && Clients(r[|a|..]) == [b[|a|].client] + Clients(r[|b|..])
  {
    assert r[..|b|][..|a|] == r[..|a|];
  }

  /** One turn of the loop, for a client blocked for another type and for one
      that is served. */
  lemma TurnRotates(s: State, k: Key, t: BlockType, n: nat)
    requires Ok(s.x) && Held(s, k, t) && n <= |Queue(s.x, k)| && Visited(s, k, t, n) > 0
    requires Queue(s.x, k)[0] in s.x.clients && s.x.clients[Queue(s.x, k)[0]].btype != t
    ensures n > 0 && k in s.x.queues && s.x.queues[k] != []
    ensures var y := s.(x := Rotate(s.x, k));
            && Ok(y.x) && Held(y, k, t) && |Queue(y.x, k)| == |Queue(s.x, k)|
            && ServeLoop(s, k, t, n) == ServeLoop(y, k, t, n - 1) && Visited(s, k, t, n) == 1 + Visited(y, k, t, n - 1)
            && Queue(y.x, k) == Queue(s.x, k)[1..] + [Queue(s.x, k)[0]] && y.x.clients == s.x.clients
  {
    hide Serve, Ok;
    ServedOk(s, k, t);
    QueuePresent(s.x, k);
    RotatedHead(s.x, k);
  }

  lemma TurnServes(s: State, k: Key, t: BlockType, n: nat)
    requires Ok(s.x) && Held(s, k, t) && n <= |Queue(s.x, k)| && Visited(s, k, t, n) > 0
    requires Queue(s.x, k)[0] in s.x.clients && s.x.clients[Queue(s.x, k)[0]].btype == t
    ensures n > 0 && !Exhausted(s, k, t)
    ensures var c := Queue(s.x, k)[0];
            var y := Serve(s, k, t, c);
            && Ok(y.x) && Held(y, k, t) && Queue(y.x, k) == Queue(s.x, k)[1..]
            && ServeLoop(s, k, t, n) == ServeLoop(y, k, t, n - 1) && Visited(s, k, t, n) == 1 + Visited(y, k, t, n - 1)
            && c in y.x.clients && y.x.clients == s.x.clients[c := y.x.clients[c]]
            && |y.replies| == |s.replies| + 1 && y.replies[..|s.replies|] == s.replies
            && y.replies[|s.replies|].client == c
  {
    hide Serve, Ok, Queue;
    ServeOk(s, k, t, Queue(s.x, k)[0]);
  }

  lemma {:induction false} LoopQueue(s: State, k: Key, t: BlockType, n: nat)
    requires Ok(s.x) && Held(s, k, t) && n <= |Queue(s.x, k)|
    ensures var q, i, r := Queue(s.x, k), Visited(s, k, t, n), ServeLoop(s, k, t, n);
            && Ok(r.x) && Held(r, k, t)
            && Queue(r.x, k) == q[i..] + Picked(s.x.clients, q[..i], t, false)
            && (i < n ==> Exhausted(r, k, t))
    decreases n
  {
    hide Serve, Queue, Picked, Ok, Exhausted, Rotate, Visited, ServeLoop, Held;
    var q := Queue(s.x, k);
    var i := Visited(s, k, t, n);
    if i == 0 {
      NobodyVisited(s, k, t, n);
    } else {
      ServedOk(s, k, t);
      if s.x.clients[q[0]].btype != t {
        TurnRotates(s, k, t, n);
        LoopQueue(s.(x := Rotate(s.x, k)), k, t, n - 1);
        OthersRotate(s.x.clients, q, i, t);
      } else {
        TurnServes(s, k, t, n);
        var y := Serve(s, k, t, q[0]);
        LoopQueue(y, k, t, n - 1);
        QueueDistinct(s.x, k);
        OthersStay(s.x.clients, y.x.clients, q, i, t);
      }
    }
  }

  lemma {:induction false} LoopReplies(s: State, k: Key, t: BlockType, n: nat)
    requires Ok(s.x) && Held(s, k, t) && n <= |Queue(s.x, k)|
    ensures var q, i, r := Queue(s.x, k), Visited(s, k, t, n), ServeLoop(s, k, t, n);
            && |r.replies| >= |s.replies| && r.replies[..|s.replies|] == s.replies
            && Clients(r.replies[|s.replies|..]) == Picked(s.x.clients, q[..i], t, true)
    decreases n
  {
    hide Serve, Queue, Picked, Ok, Clients, Exhausted, Rotate, Visited, ServeLoop, Held;
    var q := Queue(s.x, k);
    var i := Visited(s, k, t, n);
    if i == 0 {
      NobodyVisited(s, k, t, n);
    } else {
      ServedOk(s, k, t);
      PickedFirst(s.x.clients, q, i, t, true);
      if s.x.clients[q[0]].btype != t {
        TurnRotates(s, k, t, n);
        LoopReplies(s.(x := Rotate(s.x, k)), k, t, n - 1);
        AfterRotation(q, i - 1, []);
        assert [] + Picked(s.x.clients, q[1..][..i - 1], t, true) == Picked(s.x.clients, q[1..][..i - 1], t, true);
      } else {
        TurnServes(s, k, t, n);
        var y := Serve(s, k, t, q[0]);
        LoopReplies(y, k, t, n - 1);
        QueueDistinct(s.x, k);
        AfterService(s.x.clients, y.x.clients, q, i - 1, t);
        ClientsSplit(s.replies, y.replies, ServeLoop(s, k, t, n).replies);
      }
    }
  }

  /** The loop visits a prefix of the queue, each client once.  Those blocked for
      the type are served, in the order they blocked, and leave; the others go
      behind the rest of the queue, in order.  It stops before the end only when
      nothing is left to give. */
  lemma FirstComeFirstServed(s: State, k: Key, t: BlockType, n: nat)
    requires Ok(s.x) && Held(s, k, t) && n <= |Queue(s.x, k)|
    ensures var q, i, r := Queue(s.x, k), Visited(s, k, t, n), ServeLoop(s, k, t, n);
            && Ok(r.x) && Held(r, k, t)
            && Queue(r.x, k) == q[i..] + Picked(s.x.clients, q[..i], t, false)
            && |r.replies| >= |s.replies| && r.replies[..|s.replies|] == s.replies
            && Clients(r.replies[|s.replies|..]) == Picked(s.x.clients, q[..i], t, true)
            && (i < n ==> Exhausted(r, k, t))
  {
    LoopQueue(s, k, t, n);
    LoopReplies(s, k, t, n);
  }

  // ------------------------------------------------------------------
  // Nobody sleeps on a key that has something for him
  // ------------------------------------------------------------------

  /** A list or sorted set whose queue has a client blocked for its type. */
  ghost predicate Starving(s: State, k: Key) {
    && k in s.db && (s.db[k].List? || s.db[k].Zset?)
    && exists c :: c in Queue(s.x, k) && c in s.x.clients && s.x.clients[c].btype == TypeOf(s.db[k])
  }

  predicate Filled(db: map<Key, Value>, k: Key) {
    k in db ==> (db[k].List? ==> db[k].items != []) && (db[k].Zset? ==> db[k].card > 0)
  }

  /** Every starving key but those in `busy` is queued as ready, and no key but
      those holds an empty value. */
  ghost predicate Settled(s: State, busy: set<Key>) {
    && (forall k | k !in busy :: Filled(s.db, k))
    && (forall k | k !in busy && Starving(s, k) :: k in s.x.readyDict)
  }

  ghost predicate Good(s: State, batch: seq<Key>, busy: set<Key>) {
    Sound(s.x, batch) && Settled(s, busy)
  }

  lemma AddKeeps(s: State, k: Key, v: Value, batch: seq<Key>, busy: set<Key>)
    requires Good(s, batch, busy) && k !in s.db && Filled(s.db[k := v], k)
    ensures Good(Add(s, k, v), batch, busy)
  {
    var r := Add(s, k, v);
    hide Signal, Sound, Queue, Starving;
    SignalSound(s.x, k, TypeOf(v), batch);
    forall j | Starving(r, j) && j !in busy ensures j in r.x.readyDict {
      AddStarves(s, r, k, v, j);
    }
  }

  /** Who starves once a key has been added starves on that key or did before. */
  lemma AddStarves(s: State, r: State, k: Key, v: Value, j: Key)
    requires r.db == s.db[k := v] && r.x.queues == s.x.queues && r.x.clients == s.x.clients && Starving(r, j)
    ensures j != k ==> Starving(s, j)
    ensures j == k ==>
              exists c :: c in Queue(s.x, k) && c in s.x.clients && s.x.clients[c].btype == TypeOf(v) != NotBlocked
  {
    hide Queue;
    SameQueues(s.x, r.x, j);
    var c :| c in Queue(r.x, j) && c in r.x.clients && r.x.clients[c].btype == TypeOf(r.db[j]);
    assert c in Queue(s.x, j);
  }

  /** Growing a list that exists wakes nobody, and need not. */
  lemma ChangeKeeps(s: State, k: Key, v: Value, batch: seq<Key>, busy: set<Key>)
    requires Good(s, batch, busy) && k in s.db && TypeOf(v) == TypeOf(s.db[k])
    requires k in busy || Filled(s.db[k := v], k)
    ensures Good(s.(db := s.db[k := v]), batch, busy)
  {
    hide Sound;
    var r := s.(db := s.db[k := v]);
    forall j | Starving(r, j) && j !in busy ensures j in r.x.readyDict {
      var c :| c in Queue(r.x, j) && c in r.x.clients && r.x.clients[c].btype == TypeOf(r.db[j]);
      assert Starving(s, j);
    }
    forall j | j !in busy ensures Filled(r.db, j) {
      assert j != k ==> Filled(s.db, j);
    }
  }

  lemma DeleteKeeps(s: State, k: Key, batch: seq<Key>, busy: set<Key>)
    requires Good(s, batch, busy)
    ensures Good(s.(db := s.db - {k}), batch, busy - {k})
  {
    hide Sound;
    var r := s.(db := s.db - {k});
    forall j | Starving(r, j) && j !in busy - {k} ensures j in r.x.readyDict {
      var c :| c in Queue(r.x, j) && c in r.x.clients && r.x.clients[c].btype == TypeOf(r.db[j]);
      assert Starving(s, j);
    }
    forall j | j !in busy - {k} ensures Filled(r.db, j) {
      assert j != k ==> Filled(s.db, j);
    }
  }

  lemma UnblockKeeps(s: State, c: Id, batch: seq<Key>, busy: set<Key>)
    requires Good(s, batch, busy) && c in s.x.clients && s.x.clients[c].btype != NotBlocked
    ensures s.x.clients[c].btype in s.x.byType
    ensures Good(s.(x := Unblock(s.x, c)), batch, busy)
  {
    UnblockSound(s.x, c, batch);
    hide Sound, Queue, Without, Leave;
    var r := s.(x := Unblock(s.x, c));
    forall j | Starving(r, j) && j !in busy ensures j in r.x.readyDict {
      var d :| d in Queue(r.x, j) && d in r.x.clients && r.x.clients[d].btype == TypeOf(r.db[j]);
      assert d in Queue(s.x, j);
      assert Starving(s, j);
    }
  }

  lemma RotateKeeps(s: State, k: Key, batch: seq<Key>, busy: set<Key>)
    requires Good(s, batch, busy) && k in s.x.queues
    ensures Sound(Rotate(s.x, k), batch) && Good(s.(x := Rotate(s.x, k)), batch, busy)
  {
    RotateSound(s.x, k, batch);
    var r := s.(x := Rotate(s.x, k));
    assert forall j, c :: c in Queue(r.x, j) ==> c in Queue(s.x, j);
    hide Sound, Queue;
    forall j | Starving(r, j) && j !in busy ensures j in r.x.readyDict {
      var c :| c in Queue(r.x, j) && c in r.x.clients && r.x.clients[c].btype == TypeOf(r.db[j]);
      assert Starving(s, j);
    }
  }

  lemma GiveKeeps(s: State, k: Key, t: BlockType, c: Id, batch: seq<Key>)
    requires Good(s, batch, {k}) && Held(s, k, t) && !Exhausted(s, k, t) && c in s.x.clients
             && s.x.clients[c].btype == t
    ensures var g := if t == OnList then GiveList(s, k, c) else GiveZset(s, k, c);
            Good(g, batch, {k}) && g.x.clients == s.x.clients
  {
    var g := if t == OnList then GiveList(s, k, c) else GiveZset(s, k, c);
    if t == OnZset {
      if s.db[k].card == 1 {
        DeleteKeeps(s, k, batch, {k});
        Weaker(s.(db := s.db - {k}), batch, {k});
      } else {
        ChangeKeeps(s, k, Zset(s.db[k].card - 1), batch, {k});
      }
      SameGood(s.(db := g.db), g, batch, {k});
    } else {
      GiveListKeeps(s, k, c, batch);
    }
  }

  lemma Weaker(s: State, batch: seq<Key>, busy: set<Key>)
    requires Good(s, batch, busy - busy)
    ensures Good(s, batch, busy)
  {
  }

  lemma SameGood(s: State, r: State, batch: seq<Key>, busy: set<Key>)
    requires Good(s, batch, busy) && r.db == s.db && r.x == s.x
    ensures Good(r, batch, busy)
  {
    assert forall j :: Starving(r, j) <==> Starving(s, j);
  }

  lemma GiveListKeeps(s: State, k: Key, c: Id, batch: seq<Key>)
    requires Good(s, batch, {k}) && k in s.db && s.db[k].List? && s.db[k].items != [] && c in s.x.clients
    ensures Good(GiveList(s, k, c), batch, {k}) && GiveList(s, k, c).x.clients == s.x.clients
  {
    hide Settled, Sound, Signal;
    assert Counted(s.x) by { SoundCounted(s.x, batch); }
    var p := s.x.clients[c];
    var rest := Rest(s.db[k].items, p.from);
    var popped := s.(db := s.db[k := List(rest)]);
    var g := GiveList(s, k, c);
    ChangeKeeps(s, k, List(rest), batch, {k});
    if p.target.None? {
      SameGood(popped, g, batch, {k});
    } else {
      var d := p.target.value;
      var v := Popping(s.db[k].items, p.from);
      if d in popped.db && !popped.db[d].List? {
        ChangeKeeps(popped, k, List(Push(rest, v, p.from)), batch, {k});
        SameGood(popped.(db := g.db), g, batch, {k});
      } else if d in popped.db {
        ChangeKeeps(popped, d, List(Push(popped.db[d].items, v, p.to)), batch, {k});
        SameGood(popped.(db := g.db), g, batch, {k});
      } else {
        AddThenPush(popped, d, v, batch, {k});
        SignalSound(popped.x, d, OnList, batch);
        SameGood(Add(popped, d, List([])).(db := g.db), g, batch, {k});
      }
    }
  }

  lemma SoundCounted(x: Index, batch: seq<Key>)
    requires Sound(x, batch)
    ensures Counted(x)
  {
  }

  /** lmoveHandlePush on a missing key: the list is added, and signalled, empty
      and the element follows. */
  lemma AddThenPush(s: State, d: Key, v: Elem, batch: seq<Key>, busy: set<Key>)
    requires Good(s, batch, busy) && d !in s.db
    ensures Counted(s.x)
    ensures var q := Add(s, d, List([]));
            && Good(q.(db := q.db[d := List([v])]), batch, busy)
            && Push([], v, Head) == [v] && Push([], v, Tail) == [v]
  {
    SoundCounted(s.x, batch);
    AddKeeps(s, d, List([v]), batch, busy);
    var q := Add(s, d, List([]));
    SameGood(Add(s, d, List([v])), q.(db := q.db[d := List([v])]), batch, busy);
  }

  /** Blocked clients are used up: unless one was served, the ready keys are
      those there were. */
  predicate UsesUp(s: State, r: State) {
    r.x.total <= s.x.total && (r.x.total == s.x.total ==> r.x.ready == s.x.ready)
  }

  lemma ServeKeeps(s: State, k: Key, t: BlockType, c: Id, batch: seq<Key>)
    requires Good(s, batch, {k}) && Ok(s.x) && Held(s, k, t) && !Exhausted(s, k, t)
    requires Queue(s.x, k) != [] && c == Queue(s.x, k)[0] && c in s.x.clients && s.x.clients[c].btype == t
    ensures Good(Serve(s, k, t, c), batch, {k})
  {
    var g := if t == OnList then GiveList(s, k, c) else GiveZset(s, k, c);
    hide GiveList, GiveZset, Good;
    GiveKeeps(s, k, t, c, batch);
    UnblockKeeps(g, c, batch, {k});
  }

  lemma {:induction false} LoopKeeps(s: State, k: Key, t: BlockType, n: nat, batch: seq<Key>)
    requires Good(s, batch, {k}) && Ok(s.x) && Held(s, k, t) && n <= |Queue(s.x, k)|
    ensures var r := ServeLoop(s, k, t, n);
            Good(r, batch, {k}) && UsesUp(s, r)
    decreases n
  {
    hide Serve, Queue, Ok, Good;
    if n > 0 && !(t == OnZset && Exhausted(s, k, t)) {
      var c := Queue(s.x, k)[0];
      ServedOk(s, k, t);
      QueuePresent(s.x, k);
      if s.x.clients[c].btype != t {
        RotateKeeps(s, k, batch, {k});
        LoopKeeps(s.(x := Rotate(s.x, k)), k, t, n - 1, batch);
      } else if !Exhausted(s, k, t) {
        ServeOk(s, k, t, c);
        ServeKeeps(s, k, t, c, batch);
        LoopKeeps(Serve(s, k, t, c), k, t, n - 1, batch);
      }
    }
  }

  /** The lookup of a ready key and the function for its type.  Streams, whose
      clients are served by other rules, are left alone. */
  ghost function ServeKey(s: State, k: Key): State
    requires Ok(s.x) && Filled(s.db, k)
  {
    if k !in s.db then s
    else if s.db[k].List? then
      FirstComeFirstServed(s, k, OnList, |Queue(s.x, k)|);
      var r := ServeLoop(s, k, OnList, |Queue(s.x, k)|);
      if r.db[k].items == [] then r.(db := r.db - {k}) else r
    else if s.db[k].Zset? then ServeLoop(s, k, OnZset, |Queue(s.x, k)|)
    else s
  }

  lemma {:induction false} PickedOthers(clients: map<Id, Client>, q: seq<Id>, t: BlockType)
    ensures forall c | c in Picked(clients, q, t, false) :: c in clients && clients[c].btype != t
  {
    if q != [] {
      PickedOthers(clients, q[1..], t);
    }
  }

  /** A client that was not served is as it was. */
  lemma {:induction false} OthersUntouched(s: State, k: Key, t: BlockType, n: nat, c: Id)
    requires Ok(s.x) && Held(s, k, t) && n <= |Queue(s.x, k)| && c in s.x.clients && s.x.clients[c].btype != t
    ensures var r := ServeLoop(s, k, t, n); c in r.x.clients && r.x.clients[c] == s.x.clients[c]
    decreases n
  {
    hide Serve, Queue, Ok;
    if n > 0 && !(t == OnZset && Exhausted(s, k, t)) {
      var d := Queue(s.x, k)[0];
      ServedOk(s, k, t);
      QueuePresent(s.x, k);
      if s.x.clients[d].btype != t {
        OthersUntouched(s.(x := Rotate(s.x, k)), k, t, n - 1, c);
      } else if !Exhausted(s, k, t) {
        ServeOk(s, k, t, d);
        OthersUntouched(Serve(s, k, t, d), k, t, n - 1, c);
      }
    }
  }

  /** After the loop the key has nothing left, or nobody blocked for its type. */
  lemma ServedOut(s: State, k: Key, t: BlockType)
    requires Ok(s.x) && Held(s, k, t)
    ensures var r := ServeLoop(s, k, t, |Queue(s.x, k)|);
            && Held(r, k, t)
            && (Exhausted(r, k, t) || forall c | c in Queue(r.x, k) :: c in r.x.clients && r.x.clients[c].btype != t)
  {
    hide Queue, Ok;
    var q := Queue(s.x, k);
    var r := ServeLoop(s, k, t, |q|);
    FirstComeFirstServed(s, k, t, |q|);
    if !Exhausted(r, k, t) {
      assert q[..|q|] == q && q[|q|..] == [];
      PickedOthers(s.x.clients, q, t);
      forall c | c in Queue(r.x, k) ensures c in r.x.clients && r.x.clients[c].btype != t {
        OthersUntouched(s, k, t, |q|, c);
      }
    }
  }

  lemma ServeKeyKeeps(s: State, k: Key, batch: seq<Key>)
    requires Good(s, batch, {k}) && Ok(s.x) && Filled(s.db, k)
    ensures var r := ServeKey(s, k);
            Good(r, batch, {}) && UsesUp(s, r)
  {
    if k in s.db && (s.db[k].List? || s.db[k].Zset?) {
      var t := TypeOf(s.db[k]);
      var n := |Queue(s.x, k)|;
      hide ServeLoop, Ok, Queue;
      LoopKeeps(s, k, t, n, batch);
      ServedOut(s, k, t);
      var r := ServeLoop(s, k, t, n);
      if t == OnList && r.db[k].items == [] {
        DeleteKeeps(r, k, batch, {k});
        assert {k} - {k} == {};
      } else {
        NotStarving(r, k, t, batch);
      }
    } else {
      NotBusy(s, k, batch);
    }
  }

  lemma NotStarving(r: State, k: Key, t: BlockType, batch: seq<Key>)
    requires Good(r, batch, {k}) && Held(r, k, t) && Filled(r.db, k)
    requires k !in r.db || forall c | c in Queue(r.x, k) :: c in r.x.clients && r.x.clients[c].btype != t
    ensures Good(r, batch, {})
  {
    hide Sound, Queue;
    assert !Starving(r, k);
    forall j ensures Filled(r.db, j) && (Starving(r, j) ==> j in r.x.readyDict) {
      if j != k {
        assert j !in {k};
      }
    }
  }

  lemma NotBusy(s: State, k: Key, batch: seq<Key>)
    requires Good(s, batch, {k}) && (k in s.db ==> !s.db[k].List? && !s.db[k].Zset?)
    ensures Good(s, batch, {})
  {
    hide Sound;
    forall j ensures Filled(s.db, j) && (Starving(s, j) ==> j in s.x.readyDict) {
      if j != k {
        assert j !in {k};
      }
    }
  }

  // ------------------------------------------------------------------
  // Handling the ready keys
  // ------------------------------------------------------------------

  /** One turn of the inner loop of handleClientsBlockedOnKeys. */
  ghost function HandleKey(s: State, k: Key): State
    requires Ok(s.x) && Filled(s.db, k)
  {
    ServeKey(s.(x := s.x.(readyDict := s.x.readyDict - {k})), k)
  }

  lemma HandleKeyKeeps(s: State, k: Key, batch: seq<Key>)
    requires Good(s, [k] + batch, {})
    ensures Ok(s.x) && Filled(s.db, k)
    ensures var r := HandleKey(s, k); Good(r, batch, {}) && UsesUp(s, r)
  {
    var y := s.(x := s.x.(readyDict := s.x.readyDict - {k}));
    TakeReady(s.x, k, batch);
    hide Sound;
    assert forall j :: Starving(y, j) <==> Starving(s, j);
    hide ServeKey, Starving;
    ServeKeyKeeps(y, k, batch);
  }

  lemma TakeReady(x: Index, k: Key, batch: seq<Key>)
    requires Sound(x, [k] + batch)
    ensures Sound(x.(readyDict := x.readyDict - {k}), batch)
  {
    var s, t := x.ready + ([k] + batch), x.ready + batch;
    var n := |x.ready|;
    assert s[n] == k;
    assert forall i | 0 <= i < n :: t[i] == s[i];
    assert forall i | n <= i < |t| :: t[i] == s[i + 1];
    assert forall j :: j in s <==> j in t || j == k;
    assert k !in t;
    SameCounts(x, x.(readyDict := x.readyDict - {k}));
  }

  ghost function HandleBatch(s: State, batch: seq<Key>): State
    requires Good(s, batch, {})
    decreases |batch|
  {
    if batch == [] then s else
      assert batch == [batch[0]] + batch[1..];
      HandleKeyKeeps(s, batch[0], batch[1..]);
      HandleBatch(HandleKey(s, batch[0]), batch[1..])
  }

  lemma {:induction false} BatchKeeps(s: State, batch: seq<Key>)
    requires Good(s, batch, {})
    ensures var r := HandleBatch(s, batch); Good(r, [], {}) && UsesUp(s, r)
    decreases |batch|
  {
    hide Good, HandleKey;
    if batch != [] {
      assert batch == [batch[0]] + batch[1..];
      HandleKeyKeeps(s, batch[0], batch[1..]);
      BatchKeeps(HandleKey(s, batch[0]), batch[1..]);
    }
  }

  lemma TakeBatch(s: State)
    requires Good(s, [], {})
    ensures Good(s.(x := s.x.(ready := [])), s.x.ready, {})
  {
    var y := s.(x := s.x.(ready := []));
    assert s.x.ready + [] == s.x.ready && [] + s.x.ready == s.x.ready;
    SameCounts(s.x, y.x);
    hide Counted, TwoWay;
    assert forall j :: Starving(y, j) <==> Starving(s, j);
  }

  /** handleClientsBlockedOnKeys.  It ends, however many new keys the served
      BLMOVEs make ready: a round either uses up a blocked client or leaves no
      ready key. */
  ghost function Handle(s: State): State
    requires Good(s, [], {})
    decreases s.x.total, |s.x.ready|
  {
    if s.x.ready == [] then s else
      TakeBatch(s);
      BatchKeeps(s.(x := s.x.(ready := [])), s.x.ready);
      Handle(HandleBatch(s.(x := s.x.(ready := [])), s.x.ready))
  }

  /** No lost wake-up: when the ready keys have been handled, no key that holds
      elements of a list or a sorted set has a client blocked for that type. */
  lemma {:induction false} NoLostWakeup(s: State)
    requires Good(s, [], {})
    ensures var r := Handle(s);
            && Good(r, [], {}) && r.x.ready == [] && r.x.readyDict == {}
            && forall k :: !Starving(r, k)
    decreases s.x.total, |s.x.ready|
  {
    if s.x.ready == [] {
      assert s.x.readyDict == {} by {
        assert s.x.ready + [] == [];
      }
    } else {
      hide Good, HandleBatch;
      TakeBatch(s);
      BatchKeeps(s.(x := s.x.(ready := [])), s.x.ready);
      NoLostWakeup(HandleBatch(s.(x := s.x.(ready := [])), s.x.ready));
    }
  }

  // ------------------------------------------------------------------
  // Every element is somewhere, once
  // ------------------------------------------------------------------

  function At(db: map<Key, Value>, k: Key, e: Elem): nat {
    if k in db && db[k].List? then multiset(db[k].items)[e] else 0
  }

  /** How often `e` occurs in the lists held by some keys. */
  function Stored(db: map<Key, Value>, keys: seq<Key>, e: Elem): nat {
    if keys == [] then 0 else At(db, keys[0], e) + Stored(db, keys[1..], e)
  }

  function Handed(o: Outcome, e: Elem): nat {
    if o.Popped? && o.value == e then 1 else 0
  }

  /** How often `e` was delivered to a client for good. */
  function Delivered(replies: seq<Reply>, e: Elem): nat {
    if replies == [] then 0 else Delivered(replies[..|replies| - 1], e) + Handed(replies[|replies| - 1].outcome, e)
  }

  /** Distinct keys that include every key in use and every BLMOVE target. */
  ghost predicate Covers(keys: seq<Key>, s: State) {
    && Distinct(keys)
    && (forall k | k in s.db :: k in keys)
    && (forall c | c in s.x.clients && s.x.clients[c].target.Some? :: s.x.clients[c].target.value in keys)
  }

  lemma {:induction false} StoredChange(a: map<Key, Value>, b: map<Key, Value>, k: Key, keys: seq<Key>, e: Elem)
    requires Distinct(keys) && forall j | j in keys && j != k :: At(a, j, e) == At(b, j, e)
    ensures k !in keys ==> Stored(a, keys, e) == Stored(b, keys, e)
    ensures k in keys ==> Stored(a, keys, e) + At(b, k, e) == Stored(b, keys, e) + At(a, k, e)
  {
    if keys != [] {
      assert keys == [keys[0]] + keys[1..];
      assert k in keys <==> k == keys[0] || k in keys[1..];
      StoredChange(a, b, k, keys[1..], e);
    }
  }

  lemma PopPush(items: seq<Elem>, from: Side)
    requires items != []
    ensures Push(Rest(items, from), Popping(items, from), from) == items
    ensures forall e ::
              multiset(items)[e] == multiset(Rest(items, from))[e] + if e == Popping(items, from) then 1 else 0
  {
    var v, rest := Popping(items, from), Rest(items, from);
    if from == Head {
      assert items == [v] + rest;
    } else {
      assert items == rest + [v];
    }
  }

  lemma PushCounts(items: seq<Elem>, v: Elem, to: Side)
    ensures forall e :: multiset(Push(items, v, to))[e] == multiset(items)[e] + if e == v then 1 else 0
  {
  }

  /** Popping one element from a key's list, and pushing one onto a list. */
  lemma PopStored(db: map<Key, Value>, k: Key, from: Side, keys: seq<Key>, e: Elem)
    requires k in db && db[k].List? && db[k].items != [] && Distinct(keys) && k in keys
    ensures Stored(db[k := List(Rest(db[k].items, from))], keys, e) + (if e == Popping(db[k].items, from) then 1 else 0)
            == Stored(db, keys, e)
  {
    PopPush(db[k].items, from);
    hide Popping, Rest, Push, Stored;
    StoredChange(db, db[k := List(Rest(db[k].items, from))], k, keys, e);
  }

  lemma PushStored(db: map<Key, Value>, d: Key, v: Elem, to: Side, keys: seq<Key>, e: Elem)
    requires d in keys && Distinct(keys) && (d in db ==> db[d].List?)
    ensures var items := if d in db then db[d].items else [];
            Stored(db[d := List(Push(items, v, to))], keys, e) == Stored(db, keys, e) + if e == v then 1 else 0
  {
    var items := if d in db then db[d].items else [];
    PushCounts(items, v, to);
    hide Push, Stored;
    StoredChange(db, db[d := List(Push(items, v, to))], d, keys, e);
  }

  /** One list client served: the element is handed over, or stands at the asked
      end of the target, or is back where it came from. */
  lemma GiveListConserves(s: State, k: Key, c: Id, keys: seq<Key>, e: Elem)
    requires Counted(s.x) && c in s.x.clients && k in s.db && s.db[k].List? && s.db[k].items != [] && Covers(keys, s)
    ensures var g := GiveList(s, k, c);
            && Stored(g.db, keys, e) + Delivered(g.replies, e) == Stored(s.db, keys, e) + Delivered(s.replies, e)
            && Covers(keys, g)
  {
    hide Popping, Rest, Push, Stored, Delivered, Signal, Distinct;
    var p := s.x.clients[c];
    var g := GiveList(s, k, c);
    DeliveredLast(s.replies, g.replies, e);
    PopStored(s.db, k, p.from, keys, e);
    var v, rest := Popping(s.db[k].items, p.from), Rest(s.db[k].items, p.from);
    var popped := s.db[k := List(rest)];
    if p.target.Some? {
      var d := p.target.value;
      if d in popped && !popped[d].List? {
        PopPush(s.db[k].items, p.from);
        assert popped[k := s.db[k]] == s.db;
      } else {
        PushStored(popped, d, v, p.to, keys, e);
        SignalLeaves(s.x, d, OnList);
        assert popped[d := List([])][d := g.db[d]] == popped[d := g.db[d]];
      }
    }
  }

  lemma DeliveredLast(a: seq<Reply>, b: seq<Reply>, e: Elem)
    requires |b| == |a| + 1 && b[..|a|] == a
    ensures Delivered(b, e) == Delivered(a, e) + Handed(b[|a|].outcome, e)
  {
  }

  lemma GiveZsetConserves(s: State, k: Key, c: Id, keys: seq<Key>, e: Elem)
    requires k in s.db && s.db[k].Zset? && s.db[k].card > 0 && Covers(keys, s)
    ensures var g := GiveZset(s, k, c);
            && Stored(g.db, keys, e) + Delivered(g.replies, e) == Stored(s.db, keys, e) + Delivered(s.replies, e)
            && Covers(keys, g)
  {
    var g := GiveZset(s, k, c);
    hide Stored, Delivered, Distinct;
    StoredChange(s.db, g.db, k, keys, e);
    DeliveredLast(s.replies, g.replies, e);
  }

  lemma GiveConserves(s: State, k: Key, t: BlockType, c: Id, keys: seq<Key>, e: Elem)
    requires Ok(s.x) && c in s.x.clients && s.x.clients[c].btype == t && Held(s, k, t) && !Exhausted(s, k, t)
    requires Covers(keys, s)
    ensures var r := Serve(s, k, t, c);
            && Stored(r.db, keys, e) + Delivered(r.replies, e) == Stored(s.db, keys, e) + Delivered(s.replies, e)
            && Covers(keys, r)
  {
    hide GiveList, GiveZset, Stored, Delivered, Distinct, TwoWay, Leave, Counted;
    Given(s, k, t, c);
    if t == OnList {
      GiveListConserves(s, k, c, keys, e);
    } else {
      GiveZsetConserves(s, k, c, keys, e);
    }
  }

  /** Serving a key neither loses nor duplicates an element. */
  lemma {:induction false} LoopConserves(s: State, k: Key, t: BlockType, n: nat, keys: seq<Key>, e: Elem)
    requires Ok(s.x) && Held(s, k, t) && n <= |Queue(s.x, k)| && Covers(keys, s)
    ensures var r := ServeLoop(s, k, t, n);
            && Stored(r.db, keys, e) + Delivered(r.replies, e) == Stored(s.db, keys, e) + Delivered(s.replies, e)
            && Covers(keys, r)
    decreases n
  {
    hide Serve, Queue, Ok, Stored, Delivered;
    if n > 0 && !(t == OnZset && Exhausted(s, k, t)) {
      var c := Queue(s.x, k)[0];
      ServedOk(s, k, t);
      QueuePresent(s.x, k);
      if s.x.clients[c].btype != t {
        LoopConserves(s.(x := Rotate(s.x, k)), k, t, n - 1, keys, e);
      } else if !Exhausted(s, k, t) {
        ServeOk(s, k, t, c);
        GiveConserves(s, k, t, c, keys, e);
        LoopConserves(Serve(s, k, t, c), k, t, n - 1, keys, e);
      }
    }
  }

  lemma ServeKeyConserves(s: State, k: Key, keys: seq<Key>, e: Elem)
    requires Ok(s.x) && Filled(s.db, k) && Covers(keys, s)
    ensures var r := ServeKey(s, k);
            && Stored(r.db, keys, e) + Delivered(r.replies, e) == Stored(s.db, keys, e) + Delivered(s.replies, e)
            && Covers(keys, r)
  {
    if k in s.db && (s.db[k].List? || s.db[k].Zset?) {
      var t, n := TypeOf(s.db[k]), |Queue(s.x, k)|;
      hide ServeLoop, Stored, Delivered, Queue, Picked, Clients, Ok, Distinct;
      LoopConserves(s, k, t, n, keys, e);
      LoopQueue(s, k, t, n);
      var r := ServeLoop(s, k, t, n);
      if t == OnList && r.db[k].items == [] {
        EmptyStored(r.db, k, keys, e);
      }
    }
  }

  lemma EmptyStored(db: map<Key, Value>, k: Key, keys: seq<Key>, e: Elem)
    requires k in db && db[k] == List([]) && Distinct(keys)
    ensures Stored(db - {k}, keys, e) == Stored(db, keys, e)
  {
    hide Stored, Distinct;
    StoredChange(db, db - {k}, k, keys, e);
  }

  lemma {:induction false} BatchConserves(s: State, batch: seq<Key>, keys: seq<Key>, e: Elem)
    requires Good(s, batch, {}) && Covers(keys, s)
    ensures var r := HandleBatch(s, batch);
            && Stored(r.db, keys, e) + Delivered(r.replies, e) == Stored(s.db, keys, e) + Delivered(s.replies, e)
            && Covers(keys, r)
    decreases |batch|
  {
    hide Good, ServeKey, Stored, Delivered;
    if batch != [] {
      assert batch == [batch[0]] + batch[1..];
      HandleKeyKeeps(s, batch[0], batch[1..]);
      ServeKeyConserves(s.(x := s.x.(readyDict := s.x.readyDict - {batch[0]})), batch[0], keys, e);
      BatchConserves(HandleKey(s, batch[0]), batch[1..], keys, e);
    }
  }

  /** Handling all ready keys neither loses nor duplicates an element: what the
      lists hold afterwards and what clients were handed is what the lists held
      before. */
  lemma {:induction false} HandleConserves(s: State, keys: seq<Key>, e: Elem)
    requires Good(s, [], {}) && Covers(keys, s)
    ensures var r := Handle(s);
            Stored(r.db, keys, e) + Delivered(r.replies, e) == Stored(s.db, keys, e) + Delivered(s.replies, e)
    decreases s.x.total, |s.x.ready|
  {
    hide Good, HandleBatch, Stored, Delivered;
    if s.x.ready != [] {
      var y := s.(x := s.x.(ready := []));
      TakeBatch(s);
      BatchKeeps(y, s.x.ready);
      BatchConserves(y, s.x.ready, keys, e);
      HandleConserves(HandleBatch(y, s.x.ready), keys, e);
    }
  }
}
