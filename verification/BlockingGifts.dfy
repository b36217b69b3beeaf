/**
 What clients blocked on a list are given: which element, from which end, and
 where a moved one stands afterwards.
 */
module BlockingGifts {
  import opened Options
  import opened BlockedClients
  import opened Blocking

  /** `v` stands at an end of `items`, in front of or behind `others`. */
  predicate AtEnd(items: seq<Elem>, v: Elem, others: seq<Elem>, end: Side) {
    items == if end == Head then [v] + others else others + [v]
  }

  /** One service of a list, before and after.  The element comes from the end
      the client asked for.  A plain pop hands it over; a move puts it at the
      asked end of the target, which may be the list itself or a key that did not
      exist; if the target is no list, nothing is changed. */
  ghost predicate Gift(before: map<Key, Value>, after: map<Key, Value>, k: Key, p: Client, outcome: Outcome) {
    && k in before && before[k].List?
    && exists v, rest ::
         && AtEnd(before[k].items, v, rest, p.from)
         && match p.target
            case None => outcome == Popped(k, v) && after == before[k := List(rest)]
            case Some(d) =>
              if d in before && !before[d].List? then outcome == WrongType && after == before
              else
                var others := if d == k then rest else if d in before then before[d].items else [];
                && outcome == Moved(k, d, v)
                && after.Keys == before.Keys + {d}
                && after[d].List? && AtEnd(after[d].items, v, others, p.to)
                && (d != k ==> after[k] == List(rest))
                && forall j | j in before && j != k && j != d :: after[j] == before[j]
  }

  lemma Ends(items: seq<Elem>, from: Side)
    requires items != []
    ensures AtEnd(items, Popping(items, from), Rest(items, from), from)
  {
  }

  /** What serveClientBlockedOnList and the undoing of its pop do is a gift. */
  lemma GiveListIsGift(s: State, k: Key, c: Id)
    requires Counted(s.x) && c in s.x.clients && k in s.db && s.db[k].List? && s.db[k].items != []
    ensures var g := GiveList(s, k, c);
            && |g.replies| == |s.replies| + 1 && g.replies[..|s.replies|] == s.replies
            && g.replies[|s.replies|].client == c
            && Gift(s.db, g.db, k, s.x.clients[c], g.replies[|s.replies|].outcome)
  {
    hide Signal;
    var p := s.x.clients[c];
    var v, rest := Popping(s.db[k].items, p.from), Rest(s.db[k].items, p.from);
    Ends(s.db[k].items, p.from);
    if p.target.Some? {
      var d := p.target.value;
      if d in s.db && !s.db[d].List? {
        PopPush(s.db[k].items, p.from);
        assert s.db[k := List(rest)][k := s.db[k]] == s.db;
      }
    }
    hide Popping, Rest;
  }

  /** Services one after the other, each on what the one before left. */
  ghost predicate GivesAll(
      before: map<Key, Value>, after: map<Key, Value>, k: Key, clients: map<Id, Client>, replies: seq<Reply>)
    decreases |replies|
  {
    if replies == [] then before == after
    else
      && replies[0].client in clients
      && exists between :: Gift(before, between, k, clients[replies[0].client], replies[0].outcome)
                           && GivesAll(between, after, k, clients, replies[1..])
  }

  lemma {:induction false} GivesAllSame(
      before: map<Key, Value>, after: map<Key, Value>, k: Key,
      a: map<Id, Client>, b: map<Id, Client>, c: Id, replies: seq<Reply>)
    requires GivesAll(before, after, k, a, replies) && c !in Clients(replies) && c in a && c in b && a == b[c := a[c]]
    ensures GivesAll(before, after, k, b, replies)
    decreases |replies|
  {
    hide Gift;
    if replies != [] {
      assert Clients(replies)[0] == replies[0].client;
      assert Clients(replies)[1..] == Clients(replies[1..]);
      var between :| Gift(before, between, k, a[replies[0].client], replies[0].outcome)
                     && GivesAll(between, after, k, a, replies[1..]);
      GivesAllSame(between, after, k, a, b, c, replies[1..]);
    }
  }

  lemma {:induction false} PickedWithin(clients: map<Id, Client>, q: seq<Id>, t: BlockType, same: bool)
    ensures forall c | c in Picked(clients, q, t, same) :: c in q
  {
    if q != [] {
      PickedWithin(clients, q[1..], t, same);
    }
  }

  lemma ServeGift(s: State, k: Key, c: Id)
    requires Ok(s.x) && c in s.x.clients && s.x.clients[c].btype == OnList && Held(s, k, OnList)
    requires !Exhausted(s, k, OnList)
    ensures var y := Serve(s, k, OnList, c);
            && |y.replies| == |s.replies| + 1 && y.replies[..|s.replies|] == s.replies
            && Gift(s.db, y.db, k, s.x.clients[c], y.replies[|s.replies|].outcome)
  {
    GiveListIsGift(s, k, c);
    Given(s, k, OnList, c);
    hide Gift, GiveList, Unblock, Held;
  }

  lemma RepliesGrow(a: seq<Reply>, b: seq<Reply>, r: seq<Reply>)
    requires |b| == |a| + 1 && b[..|a|] == a && |b| <= |r| && r[..|b|] == b
    ensures |a| <= |r| && r[|a|..] == [b[|a|]] + r[|b|..] && r[|a|..][1..] == r[|b|..]
  {
  }

  /** Serving a list key gives each served client, in the order of the queue,
      the element at its end of the list as those before it left it, and the
      database in the end is what the last one left. */
  lemma {:induction false} ServedInTurn(s: State, k: Key, n: nat)
    requires Ok(s.x) && Held(s, k, OnList) && n <= |Queue(s.x, k)|
    ensures var r := ServeLoop(s, k, OnList, n);
            && |r.replies| >= |s.replies| && r.replies[..|s.replies|] == s.replies
            && Clients(r.replies[|s.replies|..])
               == Picked(s.x.clients, Queue(s.x, k)[..Visited(s, k, OnList, n)], OnList, true)
            && GivesAll(s.db, r.db, k, s.x.clients, r.replies[|s.replies|..])
    decreases n
  {
    hide Serve, Queue, Picked, Ok, Clients, Exhausted, Rotate, Visited, ServeLoop, Held, Gift;
    var q := Queue(s.x, k);
    var i := Visited(s, k, OnList, n);
    var r := ServeLoop(s, k, OnList, n);
    LoopReplies(s, k, OnList, n);
    if i == 0 {
      NobodyVisited(s, k, OnList, n);
      assert r.replies[|s.replies|..] == [];
    } else {
      ServedOk(s, k, OnList);
      if s.x.clients[q[0]].btype != OnList {
        TurnRotates(s, k, OnList, n);
        ServedInTurn(s.(x := Rotate(s.x, k)), k, n - 1);
      } else {
        TurnServes(s, k, OnList, n);
        ServeGift(s, k, q[0]);
        var y := Serve(s, k, OnList, q[0]);
        ServedInTurn(y, k, n - 1);
        RepliesGrow(s.replies, y.replies, r.replies);
        QueueDistinct(s.x, k);
        ServedOnce(y, k, n - 1, q);
        GivesAllSame(y.db, r.db, k, y.x.clients, s.x.clients, q[0], r.replies[|y.replies|..]);
      }
    }
  }

  /** The first client of a queue is not served when the others are. */
  lemma ServedOnce(y: State, k: Key, n: nat, q: seq<Id>)
    requires Ok(y.x) && Held(y, k, OnList) && n <= |Queue(y.x, k)|
    requires q != [] && Distinct(q) && Queue(y.x, k) == q[1..]
    ensures var r := ServeLoop(y, k, OnList, n);
            |y.replies| <= |r.replies| && q[0] !in Clients(r.replies[|y.replies|..])
  {
    hide Ok, Queue, Picked, Clients, Visited, ServeLoop, Held, Distinct;
    LoopReplies(y, k, OnList, n);
    FirstNotPicked(y.x.clients, q, Visited(y, k, OnList, n), OnList);
  }

  lemma FirstNotPicked(clients: map<Id, Client>, q: seq<Id>, m: nat, t: BlockType)
    requires Distinct(q) && m < |q|
    ensures q[0] !in Picked(clients, q[1..][..m], t, true)
  {
    PickedWithin(clients, q[1..][..m], t, true);
    assert q[0] !in q[1..][..m];
  }

  /** All the served asked for a plain pop from the front. */
  ghost predicate FrontPops(clients: map<Id, Client>, replies: seq<Reply>) {
    forall i | 0 <= i < |replies| ::
      replies[i].client in clients && clients[replies[i].client].target == None
          && clients[replies[i].client].from == Head
  }

  /** Clients of BLPOP get the elements of the list in its order, the first
      client the first element. */
  lemma {:induction false} BlpopInOrder(
      before: map<Key, Value>, after: map<Key, Value>, k: Key, clients: map<Id, Client>, replies: seq<Reply>)
    requires GivesAll(before, after, k, clients, replies) && FrontPops(clients, replies)
    requires k in before && before[k].List?
    ensures var items := before[k].items;
            && |replies| <= |items|
            && (forall i | 0 <= i < |replies| :: replies[i].outcome == Popped(k, items[i]))
            && after == before[k := List(items[|replies|..])]
    decreases |replies|
  {
    var items := before[k].items;
    if replies == [] {
      assert items[0..] == items;
    } else {
      var p := clients[replies[0].client];
      var between :| Gift(before, between, k, p, replies[0].outcome)
          && GivesAll(between, after, k, clients, replies[1..]);
      assert between == before[k := List(items[1..])] && replies[0].outcome == Popped(k, items[0]);
      BlpopInOrder(between, after, k, clients, replies[1..]);
      assert items[1..][|replies| - 1..] == items[|replies|..];
    }
  }
}
