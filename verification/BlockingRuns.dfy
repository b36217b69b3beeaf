/**
 Runs of a server with blocking commands: what every reachable state keeps.
 */
module BlockingRuns {
  import opened Options
  import opened BlockedClients
  import opened Blocking

  /** What commands do between two rounds of handling: a new client, a blocking
      command, a timeout or a disconnection, a new key (dbAdd), a change of a
      value in place, a deletion, dbOverwrite, and the two ends of an event
      loop. */
  datatype Action =
    | Connect(c: Id)
    | Blocks(c: Id, t: BlockType, keys: seq<Key>, target: Option<Key>, from: Side, to: Side)
    | Unblocks(c: Id)
    | Create(k: Key, v: Value)
    | Change(k: Key, v: Value)
    | Delete(k: Key)
    | Overwrite(k: Key, v: Value)
    | HandleReady
    | Process

  const IDLE: Client := Client(NotBlocked, {}, None, Head, Head, false)

  /** A list or sorted-set command blocks only if its keys do not exist. */
  ghost predicate Enabled(s: State, a: Action) {
    match a
    case Connect(c) => c !in s.x.clients
    case Blocks(c, t, keys, _, _, _) =>
      && c in s.x.clients && s.x.clients[c].btype == NotBlocked && t in BLOCKING && keys != []
      && (t != OnStream ==> forall k | k in keys :: k !in s.db)
    case Unblocks(c) => c in s.x.clients && s.x.clients[c].btype != NotBlocked
    case Create(k, v) => k !in s.db && Filled(s.db[k := v], k)
    case Change(k, v) => k in s.db && TypeOf(v) == TypeOf(s.db[k]) && Filled(s.db[k := v], k)
    case Delete(k) => true
    case Overwrite(k, v) => k in s.db && Filled(s.db[k := v], k)
    case HandleReady => true
    case Process => s.x.unblocked != []
  }

  ghost function Step(s: State, a: Action): State
    requires Good(s, [], {}) && Enabled(s, a)
  {
    match a
    case Connect(c) => s.(x := s.x.(clients := s.x.clients[c := IDLE]))
    case Blocks(c, t, keys, target, from, to) => s.(x := Block(s.x, c, t, keys, target, from, to))
    case Unblocks(c) => s.(x := Unblock(s.x, c))
    case Create(k, v) => Add(s, k, v)
    case Change(k, v) => s.(db := s.db[k := v])
    case Delete(k) => s.(db := s.db - {k})
    case Overwrite(k, v) => s.(db := s.db[k := v])
    case HandleReady => Handle(s)
    case Process => s.(x := Reprocess(s.x))
  }

  lemma BlockKeeps(s: State, c: Id, t: BlockType, keys: seq<Key>, target: Option<Key>, from: Side, to: Side)
    requires Good(s, [], {}) && Enabled(s, Blocks(c, t, keys, target, from, to))
    ensures Good(Step(s, Blocks(c, t, keys, target, from, to)), [], {})
  {
    hide Sound, Queue, Block, Starving;
    BlockSound(s.x, c, t, keys, target, from, to);
    var r := s.(x := Block(s.x, c, t, keys, target, from, to));
    forall j | Starving(r, j) ensures j in r.x.readyDict {
      IdleNotQueued(s.x, c, j);
      BlockStarves(s, r, c, t, keys, j);
    }
  }

  /** A client that blocks on keys which are not there leaves nobody starving who
      was not. */
  lemma BlockStarves(s: State, r: State, c: Id, t: BlockType, keys: seq<Key>, j: Key)
    requires r.db == s.db && Queue(r.x, j) == Queue(s.x, j) + (if j in keys then [c] else []) && c !in Queue(s.x, j)
    requires c in r.x.clients && r.x.clients == s.x.clients[c := r.x.clients[c]] && r.x.clients[c].btype == t
    requires j in keys && t != OnStream ==> j !in s.db
    requires Starving(r, j)
    ensures Starving(s, j)
  {
    hide Queue;
    var d :| d in Queue(r.x, j) && d in r.x.clients && r.x.clients[d].btype == TypeOf(r.db[j]);
    assert d != c ==> d in Queue(s.x, j);
  }

  lemma IdleNotQueued(x: Index, c: Id, k: Key)
    requires Sound(x, []) && c in x.clients && x.clients[c].btype == NotBlocked
    ensures c !in Queue(x, k)
  {
  }

  lemma ConnectCounted(x: Index, c: Id)
    requires Counted(x) && c !in x.clients
    ensures Counted(x.(clients := x.clients[c := IDLE]))
  {
    var r := x.(clients := x.clients[c := IDLE]);
    assert Waiting(r.clients) == Waiting(x.clients);
    forall t | t != NotBlocked ensures WaitingOn(r.clients, t) == WaitingOn(x.clients, t) {
      forall d ensures d in WaitingOn(r.clients, t) <==> d in WaitingOn(x.clients, t) {
      }
    }
  }

  lemma ConnectIndexed(x: Index, c: Id)
    requires TwoWay(x) && Flagged(x) && c !in x.clients
    ensures TwoWay(x.(clients := x.clients[c := IDLE])) && Flagged(x.(clients := x.clients[c := IDLE]))
  {
  }

  lemma ConnectStarves(s: State, c: Id, j: Key)
    requires TwoWay(s.x) && c !in s.x.clients
    ensures Starving(s.(x := s.x.(clients := s.x.clients[c := IDLE])), j) ==> Starving(s, j)
  {
    var r := s.(x := s.x.(clients := s.x.clients[c := IDLE]));
    if Starving(r, j) {
      var d :| d in Queue(r.x, j) && d in r.x.clients && r.x.clients[d].btype == TypeOf(r.db[j]);
      assert d in Queue(s.x, j) && d in s.x.clients;
    }
  }

  lemma ConnectKeeps(s: State, c: Id)
    requires Good(s, [], {}) && c !in s.x.clients
    ensures Good(s.(x := s.x.(clients := s.x.clients[c := IDLE])), [], {})
  {
    ConnectCounted(s.x, c);
    ConnectIndexed(s.x, c);
    forall j ensures Starving(s.(x := s.x.(clients := s.x.clients[c := IDLE])), j) ==> Starving(s, j) {
      ConnectStarves(s, c, j);
    }
    hide Counted, TwoWay, Flagged, Starving;
  }

  lemma ProcessKeeps(s: State)
    requires Good(s, [], {}) && s.x.unblocked != []
    ensures Good(s.(x := Reprocess(s.x)), [], {})
  {
    ReprocessSound(s.x, []);
    hide Sound;
    var r := s.(x := Reprocess(s.x));
    assert forall j :: Starving(r, j) ==> Starving(s, j);
  }

  /** An overwritten key is already queued, or its new value feeds nobody who
      waits. */
  ghost predicate Signalled(s: State, a: Action) {
    a.Overwrite? ==>
      (a.k in s.x.readyDict || (!a.v.List? && !a.v.Zset?)
       || forall c | c in Queue(s.x, a.k) && c in s.x.clients :: s.x.clients[c].btype != TypeOf(a.v))
  }

  /** dbOverwrite signals nothing.  The invariant survives it exactly when the
      key is already queued or the new value feeds nobody who waits. */
  lemma OverwriteKeepsIff(s: State, k: Key, v: Value)
    requires Good(s, [], {}) && Enabled(s, Overwrite(k, v))
    ensures Good(Step(s, Overwrite(k, v)), [], {}) <==> Signalled(s, Overwrite(k, v))
  {
    hide Sound;
    var r := Step(s, Overwrite(k, v));
    assert Starving(r, k) <==>
           (v.List? || v.Zset?)
           && exists c :: c in Queue(s.x, k) && c in s.x.clients && s.x.clients[c].btype == TypeOf(v);
    forall j | j != k ensures Starving(r, j) <==> Starving(s, j) {
    }
    assert forall j | j != k :: Filled(s.db, j) ==> Filled(r.db, j);
  }

  lemma StepKeeps(s: State, a: Action)
    requires Good(s, [], {}) && Enabled(s, a) && Signalled(s, a)
    ensures Good(Step(s, a), [], {})
  {
    match a
    case Connect(c) => ConnectKeeps(s, c);
    case Blocks(c, t, keys, target, from, to) => BlockKeeps(s, c, t, keys, target, from, to);
    case Unblocks(c) => UnblockKeeps(s, c, [], {});
    case Create(k, v) => AddKeeps(s, k, v, [], {});
    case Change(k, v) => ChangeKeeps(s, k, v, [], {});
    case Delete(k) =>
      DeleteKeeps(s, k, [], {});
      assert {} - {k} == {};
    case Overwrite(k, v) => OverwriteKeepsIff(s, k, v);
    case HandleReady => NoLostWakeup(s);
    case Process => ProcessKeeps(s);
  }

  ghost predicate Runs(s: State, actions: seq<Action>)
    requires Good(s, [], {})
    decreases |actions|
  {
    actions == [] ||
    (Enabled(s, actions[0]) && Signalled(s, actions[0]) &&
     (StepKeeps(s, actions[0]); Runs(Step(s, actions[0]), actions[1..])))
  }

  ghost function After(s: State, actions: seq<Action>): State
    requires Good(s, [], {}) && Runs(s, actions)
    decreases |actions|
  {
    if actions == [] then s else
      StepKeeps(s, actions[0]);
      After(Step(s, actions[0]), actions[1..])
  }

  const EMPTY: State :=
    State(map[], Index(map[], map[], [], {}, [], 0, map[OnList := 0, OnZset := 0, OnStream := 0]), [])

  lemma EmptyGood()
    ensures Good(EMPTY, [], {})
  {
    assert Waiting(EMPTY.x.clients) == {};
    forall t ensures WaitingOn(EMPTY.x.clients, t) == {} {
    }
  }

  /** Every reachable state: the index is two-way, the counters, the flags and
      the ready dictionary agree with what they stand for, and every starving
      key is queued; handling the ready keys then leaves none. */
  lemma {:induction false} EveryRun(s: State, actions: seq<Action>)
    requires Good(s, [], {}) && Runs(s, actions)
    ensures var r := After(s, actions);
            && TwoWay(r.x) && Counted(r.x) && Flagged(r.x) && ReadyOnce(r.x, [])
            && Good(r, [], {})
            && forall k :: !Starving(Handle(r), k)
    decreases |actions|
  {
    hide Step, Enabled, Signalled;
    if actions == [] {
      NoLostWakeup(s);
    } else {
      StepKeeps(s, actions[0]);
      EveryRun(Step(s, actions[0]), actions[1..]);
    }
  }

  /** One client blocked on the list "k", which does not exist. */
  const ONE: State :=
    State(map[], Index(map["k" := [0]], map[0 := Client(OnList, {"k"}, None, Head, Head, false)],
                       [], {}, [], 1, map[OnList := 1, OnZset := 0, OnStream := 0]), [])

  const CONNECT: Action := Connect(0)
  const BLPOP: Action := Blocks(0, OnList, ["k"], None, Head, Head)
  const MIDDLE: State := EMPTY.(x := EMPTY.x.(clients := map[0 := IDLE]))

  lemma FirstStep()
    ensures Good(EMPTY, [], {}) && Enabled(EMPTY, CONNECT) && Good(MIDDLE, [], {}) && Step(EMPTY, CONNECT) == MIDDLE
  {
    EmptyGood();
    StepKeeps(EMPTY, CONNECT);
  }

  lemma SecondStep()
    ensures Good(MIDDLE, [], {}) && Enabled(MIDDLE, BLPOP) && Step(MIDDLE, BLPOP) == ONE && Good(ONE, [], {})
  {
    FirstStep();
    OneBlocked();
    StepKeeps(MIDDLE, BLPOP);
  }

  lemma OneBlocked()
    ensures Block(MIDDLE.x, 0, OnList, ["k"], None, Head, Head) == ONE.x
  {
    var x := MIDDLE.x;
    assert ["k"][..0] == [];
    assert AddKeys(Aim(x, 0, None, Head, Head), 0, ["k"]) == AddKey(Aim(x, 0, None, Head, Head), 0, "k");
    assert IDLE.keys + {"k"} == {"k"};
    assert Queue(x, "k") == [] && [] + [0] == [0];
  }

  const CREATE: Action := Create("k", Zset(1))
  const LATER: State := ONE.(db := map["k" := Zset(1)])

  lemma ThirdStep()
    ensures Good(ONE, [], {}) && Enabled(ONE, CREATE) && Step(ONE, CREATE) == LATER && Good(LATER, [], {})
  {
    hide Good, Signalled, Add;
    SecondStep();
    CreateIs();
    StepKeeps(ONE, CREATE);
  }

  lemma CreateIs()
    requires Good(ONE, [], {})
    ensures Add(ONE, "k", Zset(1)) == LATER && Signalled(ONE, CREATE)
  {
  }

  lemma RunsFrom(s: State, a: Action, rest: seq<Action>, last: State)
    requires Good(s, [], {}) && Enabled(s, a) && Signalled(s, a) && Good(Step(s, a), [], {})
    requires Runs(Step(s, a), rest) && After(Step(s, a), rest) == last
    ensures Runs(s, [a] + rest) && After(s, [a] + rest) == last
  {
    hide Good, Enabled, Step, Signalled;
    assert ([a] + rest)[1..] == rest;
  }

  /** The run that leads to `LATER`. */
  lemma LaterReachable()
    ensures Good(EMPTY, [], {}) && Runs(EMPTY, [CONNECT] + ([BLPOP] + ([CREATE] + [])))
    ensures After(EMPTY, [CONNECT] + ([BLPOP] + ([CREATE] + []))) == LATER
  {
    FirstStep();
    SecondStep();
    ThirdStep();
    assert Signalled(EMPTY, CONNECT) && Signalled(MIDDLE, BLPOP) && Signalled(ONE, CREATE);
    assert Runs(LATER, []) && After(LATER, []) == LATER;
    hide Good, Enabled, Step, Signalled, Runs, After;
    RunsFrom(ONE, CREATE, [], LATER);
    RunsFrom(MIDDLE, BLPOP, [CREATE] + [], LATER);
    RunsFrom(EMPTY, CONNECT, [BLPOP] + ([CREATE] + []), LATER);
  }

  /** The guard is needed.  In a state reached from the empty server the key is
      created as a sorted set, for which nobody waits and nothing is queued, and
      is then overwritten by a list, as SORT STORE does: nothing is ready, and the
      client sleeps on a key that holds an element. */
  lemma OverwriteLosesAWakeup()
    ensures var actions := [CONNECT] + ([BLPOP] + ([CREATE] + []));
            && Good(EMPTY, [], {}) && Runs(EMPTY, actions)
            && var s := After(EMPTY, actions);
               && Good(s, [], {}) && Enabled(s, Overwrite("k", List(["e"])))
               && var r := Step(s, Overwrite("k", List(["e"])));
                  r.x.ready == [] && Starving(r, "k")
  {
    LaterReachable();
    ThirdStep();
    OverwriteStarves();
    hide Good, Runs, After, Step, Enabled, Starving;
  }

  lemma OverwriteStarves()
    ensures Good(LATER, [], {}) && Enabled(LATER, Overwrite("k", List(["e"])))
    ensures var r := Step(LATER, Overwrite("k", List(["e"]))); r.x.ready == [] && Starving(r, "k")
  {
    ThirdStep();
    assert 0 in Queue(LATER.x, "k");
  }
}
