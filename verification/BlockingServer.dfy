/**
 blocked.c as the server runs it: dictionaries, queues and counters changed in
 place by loops.  Every method is tied to the function that specifies it.
 */
module BlockingServer {
  import opened Options
  import opened BlockedClients
  import opened Blocking

  class Server {
    var db: map<Key, Value>
    var queues: map<Key, seq<Id>>
    var clients: map<Id, Client>
    var ready: seq<Key>
    var readyDict: set<Key>
    var unblocked: seq<Id>
    var total: nat
    var byType: map<BlockType, nat>
    var replies: seq<Reply>

    constructor ()
      ensures db == map[] && queues == map[] && clients == map[] && replies == []
      ensures Sound(X(), []) && Good(View(), [], {})
    {
      db, queues, clients, replies := map[], map[], map[], [];
      ready, readyDict, unblocked := [], {}, [];
      total, byType := 0, map[OnList := 0, OnZset := 0, OnStream := 0];
      new;
      assert Waiting(clients) == {};
      assert forall t :: WaitingOn(clients, t) == {};
    }

    ghost function X(): Index
      reads this`queues, this`clients, this`ready, this`readyDict, this`unblocked, this`total, this`byType
    {
      Index(queues, clients, ready, readyDict, unblocked, total, byType)
    }

    ghost function View(): State
      reads this
    {
      State(db, X(), replies)
    }

    /** The loop of blockForKeys. */
    method EnterKeys(c: Id, keys: seq<Key>)
      requires c in clients
      modifies this`queues, this`clients
      ensures X() == AddKeys(old(X()), c, keys)
    {
      hide AddKeys;
      ghost var start := X();
      AddNone(start, c, keys);
      for j := 0 to |keys|
        invariant c in clients && X() == AddKeys(start, c, keys[..j])
      {
        AddNext(start, c, keys, j);
        if keys[j] !in clients[c].keys {
          clients := clients[c := clients[c].(keys := clients[c].keys + {keys[j]})];
          queues := queues[keys[j] := (if keys[j] in queues then queues[keys[j]] else []) + [c]];
        }
      }
      assert keys[..|keys|] == keys;
    }

    /** blockForKeys and blockClient */
    method BlockForKeys(c: Id, t: BlockType, keys: seq<Key>, target: Option<Key>, from: Side, to: Side)
      requires Sound(X(), []) && c in clients && clients[c].btype == NotBlocked && t in BLOCKING && keys != []
      modifies this`queues, this`clients, this`total, this`byType
      ensures c in old(clients) && t in old(byType)
      ensures X() == Block(old(X()), c, t, keys, target, from, to)
      ensures Sound(X(), [])
    {
      hide Sound, AddKeys, Queue;
      assert clients[c].btype == NotBlocked;
      BlockSound(X(), c, t, keys, target, from, to);
      clients := clients[c := clients[c].(target := target, from := from, to := to)];
      EnterKeys(c, keys);
      clients := clients[c := clients[c].(btype := t)];
      total, byType := total + 1, byType[t := byType[t] + 1];
    }

    /** unblockClientWaitingData: the keys are taken from the dictionary in any
        order. */
    method UnblockClientWaitingData(c: Id)
      requires TwoWay(X()) && c in clients
      modifies this`queues, this`clients
      ensures queues == Leave(old(queues), c, old(clients[c].keys))
      ensures clients == old(clients)[c := old(clients[c]).(keys := {}, target := None)]
    {
      hide Without;
      ghost var before := queues;
      var todo := clients[c].keys;
      ghost var done: set<Key> := {};
      NobodyLeaves(queues, c);
      while todo != {}
        invariant clients == old(clients) && todo + done == clients[c].keys && todo !! done
        invariant queues == Leave(before, c, done)
        decreases |todo|
      {
        var key :| key in todo;
        assert key in before && key !in done;
        var l := Without(queues[key], c);
        LeaveOneMore(before, c, done, key);
        queues := if l == [] then queues - {key} else queues[key := l];
        todo, done := todo - {key}, done + {key};
      }
      assert done == clients[c].keys;
      clients := clients[c := clients[c].(keys := {}, target := None)];
    }

    /** queueClientForReprocessing */
    method QueueClientForReprocessing(c: Id)
      requires c in clients
      modifies this`clients, this`unblocked
      ensures clients == old(clients)[c := old(clients[c]).(flagged := true)]
      ensures unblocked == old(unblocked) + if old(clients[c].flagged) then [] else [c]
    {
      if !clients[c].flagged {
        clients := clients[c := clients[c].(flagged := true)];
        unblocked := unblocked + [c];
      } else {
        assert clients == clients[c := clients[c].(flagged := true)];
      }
    }

    /** unblockClient.  The counters are never below one here. */
    method UnblockClient(c: Id)
      requires TwoWay(X()) && Counted(X()) && c in clients && clients[c].btype != NotBlocked
      modifies this`queues, this`clients, this`unblocked, this`total, this`byType
      ensures old(clients[c].btype) in old(byType) && X() == Unblock(old(X()), c)
      ensures total == old(total) - 1
    {
      hide TwoWay, Leave;
      ghost var x := X();
      var t := clients[c].btype;
      CountersPositive(x, c);
      UnblockClientWaitingData(c);
      ghost var p := clients[c];
      total, byType := total - 1, byType[t := byType[t] - 1];
      clients := clients[c := clients[c].(btype := NotBlocked)];
      ghost var q := clients[c];
      QueueClientForReprocessing(c);
      Rewritten(x.clients, c, p, q, clients[c]);
    }

    /** signalKeyAsReady */
    method SignalKeyAsReady(k: Key, v: Value)
      requires Counted(X())
      modifies this`ready, this`readyDict
      ensures X() == Signal(old(X()), k, TypeOf(v))
    {
      var t := TypeOf(v);
      if t == NotBlocked || byType[t] == 0 {
        return;
      }
      if k !in queues || k in readyDict {
        return;
      }
      ready, readyDict := ready + [k], readyDict + {k};
    }

    /** serveClientBlockedOnList, for an element already popped: false if the
        destination holds something else than a list. */
    method ServeClientBlockedOnList(c: Id, k: Key, value: Elem) returns (ok: bool)
      requires Counted(X()) && c in clients && k in db && db[k].List?
      modifies this`db, this`ready, this`readyDict, this`replies
      ensures |replies| == |old(replies)| + 1 && replies[..|old(replies)|] == old(replies)
      ensures var p := clients[c];
              match p.target
              case None => ok && replies == old(replies) + [Reply(c, Popped(k, value))] && db == old(db)
                  && X() == old(X())
              case Some(d) =>
                if d in old(db) && !old(db)[d].List? then
                  !ok && replies == old(replies) + [Reply(c, WrongType)] && db == old(db) && X() == old(X())
                else
                  && ok && replies == old(replies) + [Reply(c, Moved(k, d, value))]
                  && db == old(db)[d := List(Push(if d in old(db) then old(db)[d].items else [], value, p.to))]
                  && X() == if d in old(db) then old(X()) else Signal(old(X()), d, OnList)
    {
      var p := clients[c];
      if p.target.None? {
        replies := replies + [Reply(c, Popped(k, value))];
        return true;
      }
      var d := p.target.value;
      if d in db && !db[d].List? {
        replies := replies + [Reply(c, WrongType)];
        return false;
      }
      if d !in db {
        db := db[d := List([])];
        SignalKeyAsReady(d, List([]));
      }
      db := db[d := List(Push(db[d].items, value, p.to))];
      replies := replies + [Reply(c, Moved(k, d, value))];
      ok := true;
    }

    /** One client of the loop of serveClientsBlockedOnListKey: pop, serve, undo
        the pop if serving failed, unblock. */
    method ServeListClient(c: Id, k: Key)
      requires Ok(X()) && c in clients && clients[c].btype == OnList && k in db && db[k].List? && db[k].items != []
      modifies this
      ensures View() == Serve(old(View()), k, OnList, c)
    {
      hide TwoWay, Unblock, Popping, Rest, Push, Signal;
      ghost var s := View();
      Given(s, k, OnList, c);
      var from := clients[c].from;
      var items := db[k].items;
      var value := Popping(items, from);
      db := db[k := List(Rest(items, from))];
      var ok := ServeClientBlockedOnList(c, k, value);
      if !ok {
        db := db[k := List(Push(db[k].items, value, from))];
      }
      ghost var g := GiveList(s, k, c);
      assert db == g.db;
      assert X() == g.x;
      OkIsKept(s.x, g.x);
      UnblockClient(c);
    }

    /** serveClientsBlockedOnListKey.  As long as clients are left to visit the
        queue exists and is not empty. */
    method ServeClientsBlockedOnListKey(k: Key)
      requires Ok(X()) && k in db && db[k].List? && db[k].items != []
      modifies this
      ensures View() == ServeKey(old(View()), k)
    {
      hide Serve, Ok, TwoWay;
      ghost var s := View();
      if k in queues {
        var numclients: nat := |queues[k]|;
        while numclients > 0
          invariant Ok(X()) && Held(View(), k, OnList) && numclients <= |Queue(X(), k)|
          invariant ServeLoop(View(), k, OnList, numclients) == ServeLoop(s, k, OnList, |Queue(s.x, k)|)
          decreases numclients
        {
          var receiver := queues[k][0];
          ServedOk(View(), k, OnList);
          if clients[receiver].btype != OnList {
            queues := queues[k := queues[k][1..] + [queues[k][0]]];
          } else if db[k].items != [] {
            ServeOk(View(), k, OnList, receiver);
            ServeListClient(receiver, k);
          } else {
            break;
          }
          numclients := numclients - 1;
        }
      }
      if db[k].items == [] {
        db := db - {k};
      }
    }

    /** serveClientsBlockedOnSortedSetKey */
    method ServeClientsBlockedOnSortedSetKey(k: Key)
      requires Ok(X()) && k in db && db[k].Zset? && db[k].card > 0
      modifies this
      ensures View() == ServeKey(old(View()), k)
    {
      hide Serve, Ok, TwoWay;
      ghost var s := View();
      if k in queues {
        var numclients: nat, zcard: nat := |queues[k]|, db[k].card;
        while numclients > 0 && zcard > 0
          invariant Ok(X()) && Held(View(), k, OnZset) && numclients <= |Queue(X(), k)|
          invariant zcard == if k in db then db[k].card else 0
          invariant ServeLoop(View(), k, OnZset, numclients) == ServeLoop(s, k, OnZset, |Queue(s.x, k)|)
          decreases numclients
        {
          var receiver := queues[k][0];
          ServedOk(View(), k, OnZset);
          numclients := numclients - 1;
          if clients[receiver].btype != OnZset {
            queues := queues[k := queues[k][1..] + [queues[k][0]]];
          } else {
            ServeOk(View(), k, OnZset, receiver);
            ServeZsetClient(receiver, k);
            zcard := zcard - 1;
          }
        }
      }
    }

    /** genericZpopCommand for one element, and unblockClient. */
    method ServeZsetClient(c: Id, k: Key)
      requires Ok(X()) && c in clients && clients[c].btype == OnZset && k in db && db[k].Zset? && db[k].card > 0
      modifies this
      ensures View() == Serve(old(View()), k, OnZset, c)
      ensures (if k in db then db[k] else Zset(0)) == Zset(old(db[k]).card - 1)
    {
      hide TwoWay, Unblock;
      Given(View(), k, OnZset, c);
      if db[k].card == 1 {
        db := db - {k};
      } else {
        db := db[k := Zset(db[k].card - 1)];
      }
      replies := replies + [Reply(c, ZPopped(k))];
      UnblockClient(c);
    }

    /** handleClientsBlockedOnKeys: the ready list is swapped for a fresh one, so
        that keys signalled meanwhile are handled in the next round. */
    method HandleClientsBlockedOnKeys()
      requires Good(View(), [], {})
      modifies this
      ensures View() == Handle(old(View()))
      ensures Good(View(), [], {}) && ready == [] && forall k :: !Starving(View(), k)
    {
      hide Good, HandleKey, Starving;
      ghost var s := View();
      NoLostWakeup(s);
      while ready != []
        invariant Good(View(), [], {}) && Handle(View()) == Handle(s)
        decreases total, |ready|
      {
        ghost var turn := View();
        TakeBatch(turn);
        BatchKeeps(turn.(x := turn.x.(ready := [])), turn.x.ready);
        var l := ready;
        ready := [];
        ghost var start := View();
        while l != []
          invariant Good(View(), l, {}) && HandleBatch(View(), l) == HandleBatch(start, turn.x.ready)
          decreases |l|
        {
          assert l == [l[0]] + l[1..];
          HandleKeyKeeps(View(), l[0], l[1..]);
          HandleReadyKey(l[0]);
          l := l[1..];
        }
      }
    }

    /** One ready key: forgotten, looked up, served by its type. */
    method HandleReadyKey(k: Key)
      requires Ok(X()) && Filled(db, k)
      modifies this
      ensures View() == HandleKey(old(View()), k)
    {
      hide TwoWay, ServeLoop;
      readyDict := readyDict - {k};
      OkIsKept(old(X()), X());
      if k in db {
        if db[k].List? {
          ServeClientsBlockedOnListKey(k);
        } else if db[k].Zset? {
          ServeClientsBlockedOnSortedSetKey(k);
        }
      }
    }
  }

  lemma OkIsKept(x: Index, y: Index)
    requires Ok(x) && y.queues == x.queues && y.clients == x.clients && y.total == x.total && y.byType == x.byType
    ensures Ok(y)
  {
    SameCounts(x, y);
  }

  lemma CountersPositive(x: Index, c: Id)
    requires Counted(x) && c in x.clients && x.clients[c].btype != NotBlocked
    ensures x.clients[c].btype in x.byType && x.byType[x.clients[c].btype] > 0 && x.total > 0
  {
    var t := x.clients[c].btype;
    assert t in BLOCKING && c in WaitingOn(x.clients, t) && c in Waiting(x.clients);
  }

  lemma AddNone(x: Index, c: Id, keys: seq<Key>)
    requires c in x.clients
    ensures AddKeys(x, c, keys[..0]) == x
  {
  }

  lemma AddNext(x: Index, c: Id, keys: seq<Key>, j: nat)
    requires c in x.clients && j < |keys|
    ensures AddKeys(x, c, keys[..j + 1]) == AddKey(AddKeys(x, c, keys[..j]), c, keys[j])
  {
    assert keys[..j + 1][..j] == keys[..j];
  }

  lemma NobodyLeaves(queues: map<Key, seq<Id>>, c: Id)
    ensures Leave(queues, c, {}) == queues
  {
  }

  lemma LeaveOneMore(queues: map<Key, seq<Id>>, c: Id, done: set<Key>, key: Key)
    requires key in queues && key !in done
    ensures var now := Leave(queues, c, done);
            && key in now && now[key] == queues[key]
            && Leave(queues, c, done + {key}) ==
               if Without(queues[key], c) == [] then now - {key} else now[key := Without(queues[key], c)]
  {
  }
}
