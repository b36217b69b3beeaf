/**
 A dataset of strings and lists in several databases, the writes that change it
 and the commands a rewrite dumps it as (rewriteAppendOnlyFileRio).
 */
module AofDataset {
  import opened Decimal
  import opened AofFormat
  import opened AofRewrite
  import opened AofHandoff

  datatype Object = Text(text: bytes) | List(items: seq<bytes>)

  /** The object of a key in a database. */
  type Dataset = map<(nat, bytes), Object>

  const SET: bytes := Ascii("SET")
  const DEL: bytes := Ascii("DEL")
  const LPUSH: bytes := Ascii("LPUSH")
  const LPOP: bytes := Ascii("LPOP")
  const RPOP: bytes := Ascii("RPOP")

  // ------------------------------------------------------------------
  // Writes
  // ------------------------------------------------------------------

  function Reversed(s: seq<bytes>): seq<bytes> {
    if s == [] then [] else Reversed(s[1..]) + [s[0]]
  }

  /** Pushing to a key that is missing creates a list; to a string it is an
      error. */
  function Push(d: Dataset, at: (nat, bytes), items: seq<bytes>, front: bool): Dataset {
    if at !in d then d[at := List(if front then Reversed(items) else items)]
    else if d[at].Text? then d
    else d[at := List(if front then Reversed(items) + d[at].items else d[at].items + items)]
  }

  /** A list that is popped empty is deleted. */
  function Pop(d: Dataset, at: (nat, bytes), front: bool): Dataset {
    if at !in d || d[at].Text? || d[at].items == [] then d
    else
      var items := d[at].items;
      if |items| == 1 then d - {at}
      else d[at := List(if front then items[1..] else items[..|items| - 1])]
  }

  function Execute(d: Dataset, op: Op): Dataset {
    var c := op.cmd;
    if |c| < 2 then d else
      var at := (op.db, c[1]);
      if c[0] == SET && |c| == 3 then d[at := Text(c[2])]
      else if c[0] == RPUSH && |c| > 2 then Push(d, at, c[2..], false)
      else if c[0] == LPUSH && |c| > 2 then Push(d, at, c[2..], true)
      else if c[0] == LPOP && |c| == 2 then Pop(d, at, true)
      else if c[0] == RPOP && |c| == 2 then Pop(d, at, false)
      else if c[0] == DEL && |c| == 2 then d - {at}
      else d
  }

  /** There are no empty lists. */
  ghost predicate Sound(d: Dataset) {
    forall at | at in d && d[at].List? :: d[at].items != []
  }

  lemma ReversedNotEmpty(s: seq<bytes>)
    ensures s != [] ==> Reversed(s) != []
  {
  }

  lemma ExecuteSound(d: Dataset, op: Op)
    requires Sound(d)
    ensures Sound(Execute(d, op))
  {
    if |op.cmd| > 2 {
      ReversedNotEmpty(op.cmd[2..]);
    }
    hide Reversed;
  }

  lemma {:induction false} FoldSound(d: Dataset, ops: seq<Op>)
    requires Sound(d)
    ensures Sound(Fold(Execute, d, ops))
    decreases |ops|
  {
    hide Execute, Sound;
    if ops != [] {
      ExecuteSound(d, ops[0]);
      FoldSound(Execute(d, ops[0]), ops[1..]);
    }
  }

  // ------------------------------------------------------------------
  // The dump
  // ------------------------------------------------------------------

  function Rewritten(key: bytes, o: Object, limit: nat): seq<Command>
    requires limit > 0
  {
    match o
    case Text(text) => [[SET, key, text]]
    case List(items) => Chunks(key, items, limit)
  }

  /** The commands for the keys in the order they are visited: a SELECT where
      the database changes, then the object. */
  function Dump(d: Dataset, order: seq<(nat, bytes)>, selected: int, limit: nat): seq<Command>
    requires limit > 0
    decreases |order|
  {
    if order == [] then []
    else if order[0] !in d then Dump(d, order[1..], selected, limit)
    else
      var (db, key) := order[0];
      (if db == selected then [] else [Select(db)])
      + (Rewritten(key, d[order[0]], limit) + Dump(d, order[1..], db, limit))
  }

  /** The databases are walked one after the other, each key of each once. */
  ghost predicate Walks(order: Dataset -> seq<(nat, bytes)>) {
    forall d ::
      && (forall at :: at in order(d) <==> at in d)
      && (forall i, j | 0 <= i < j < |order(d)| :: order(d)[i] != order(d)[j] && order(d)[i].0 <= order(d)[j].0)
  }

  /** The commands of a list, executed on a key that holds `done` already. */
  lemma {:induction false} ChunksExecute(d: Dataset, db: nat, key: bytes, items: seq<bytes>, limit: nat)
    requires limit > 0 && items != [] && ((db, key) in d ==> d[(db, key)].List?)
    ensures var log := Chunks(key, items, limit);
            var before := if (db, key) in d then d[(db, key)].items else [];
            && DbAfter(log, db) == db
            && Fold(Execute, d, AofHandoff.Replay(log, db)) == d[(db, key) := List(before + items)]
    decreases |items|
  {
    hide Execute, IsSelect, DbNext;
    var k := Least(limit, |items|);
    var first, rest := [RPUSH, key] + items[..k], Chunks(key, items[k..], limit);
    var next := Execute(d, Op(db, first));
    FirstChunk(d, db, key, items[..k]);
    RpushStays(first, db);
    ReplayFirst(first, rest, db);
    var before := if (db, key) in d then d[(db, key)].items else [];
    if k < |items| {
      ChunksExecute(next, db, key, items[k..], limit);
      assert before + items[..k] + items[k..] == before + items;
    } else {
      assert items[k..] == [] && items[..k] == items;
    }
  }

  lemma ReplayFirst(c: Command, rest: seq<Command>, db: nat)
    requires !IsSelect(c) && DbNext(c, db) == db
    ensures DbAfter([c] + rest, db) == DbAfter(rest, db)
    ensures var ops := AofHandoff.Replay([c] + rest, db);
            ops == [Op(db, c)] + AofHandoff.Replay(rest, db) && ops[1..] == AofHandoff.Replay(rest, db)
  {
    hide IsSelect, DbNext;
    assert ([c] + rest)[1..] == rest;
  }

  lemma RpushIsNoSelect()
    ensures RPUSH != SELECT && SET != SELECT && RPUSH != SET
  {
    assert |RPUSH| == 5 && |SELECT| == 6 && |SET| == 3;
  }

  lemma RpushStays(c: Command, db: nat)
    requires c != [] && c[0] == RPUSH
    ensures !IsSelect(c) && DbNext(c, db) == db
  {
    RpushIsNoSelect();
  }

  lemma FirstChunk(d: Dataset, db: nat, key: bytes, items: seq<bytes>)
    requires items != [] && ((db, key) in d ==> d[(db, key)].List?)
    ensures var before := if (db, key) in d then d[(db, key)].items else [];
            Execute(d, Op(db, [RPUSH, key] + items)) == d[(db, key) := List(before + items)]
  {
    RpushIsNoSelect();
    var c: Command := [RPUSH, key] + items;
    assert c[2..] == items && |c| > 2;
    assert [] + items == items;
  }

  lemma ObjectExecutes(d: Dataset, db: nat, key: bytes, o: Object, limit: nat)
    requires limit > 0 && (o.List? ==> o.items != []) && (db, key) !in d
    ensures var log := Rewritten(key, o, limit);
            DbAfter(log, db) == db && Fold(Execute, d, AofHandoff.Replay(log, db)) == d[(db, key) := o]
  {
    RpushIsNoSelect();
    match o
    case Text(text) =>
      var c: Command := [SET, key, text];
      assert [c][1..] == [] && !IsSelect(c) && DbNext(c, db) == db;
      assert AofHandoff.Replay([c], db) == [Op(db, c)] && [Op(db, c)][1..] == [];
      assert Execute(d, Op(db, c)) == d[(db, key) := o];
    case List(items) =>
      ChunksExecute(d, db, key, items, limit);
      assert [] + items == items;
  }

  /** The part of a dataset at some keys. */
  function At(d: Dataset, order: seq<(nat, bytes)>): Dataset {
    map at | at in d && at in order :: d[at]
  }

  /** A SELECT where the database changes. */
  lemma SelectReplays(db: nat, selected: int, now: nat)
    requires selected >= 0 ==> selected == now
    ensures var s := if db == selected then [] else [Select(db)];
            AofHandoff.Replay(s, now) == [] && DbAfter(s, now) == db
  {
    if db != selected {
      SelectSelects(db, now);
      assert [Select(db)][1..] == [];
    }
  }

  /** Replaying the dump of some keys adds them, in their own databases. */
  lemma {:induction false} DumpExecutes(
      base: Dataset, d: Dataset, order: seq<(nat, bytes)>, selected: int, now: nat, limit: nat)
    requires limit > 0 && Sound(d) && (selected >= 0 ==> selected == now)
    requires forall i, j | 0 <= i < j < |order| :: order[i] != order[j]
    requires forall at | at in order :: at in d && at !in base
    ensures Fold(Execute, base, AofHandoff.Replay(Dump(d, order, selected, limit), now)) == base + At(d, order)
    decreases |order|
  {
    hide Execute, AofHandoff.Replay, DbAfter, Rewritten, Fold;
    if order == [] {
      EmptyReplay(base, now);
      assert At(d, order) == map[];
    } else {
      var (db, key) := order[0];
      var select := if db == selected then [] else [Select(db)];
      var pushes, rest := Rewritten(key, d[order[0]], limit), Dump(d, order[1..], db, limit);
      var next := base[(db, key) := d[order[0]]];
      SelectReplays(db, selected, now);
      ReplayAppend(select, pushes + rest, now);
      ReplayAppend(pushes, rest, db);
      ObjectExecutes(base, db, key, d[order[0]], limit);
      var ops := AofHandoff.Replay(rest, db);
      FoldAppend(Execute, base, AofHandoff.Replay(pushes, db), ops);
      assert [] + AofHandoff.Replay(pushes + rest, db) == AofHandoff.Replay(pushes + rest, db);
      DumpExecutes(next, d, order[1..], db, db, limit);
      AtNext(base, d, order);
    }
  }

  lemma EmptyReplay(base: Dataset, now: nat)
    ensures Fold(Execute, base, AofHandoff.Replay([], now)) == base
  {
  }

  lemma AtNext(base: Dataset, d: Dataset, order: seq<(nat, bytes)>)
    requires order != [] && order[0] in d
    ensures base[order[0] := d[order[0]]] + At(d, order[1..]) == base + At(d, order)
  {
    assert forall at :: at in order <==> at == order[0] || at in order[1..];
  }

  /** The commands a rewrite dumps after some ops. */
  ghost function Snapshot(order: Dataset -> seq<(nat, bytes)>, limit: nat, ops: seq<Op>): seq<Command>
    requires limit > 0
  {
    var d := Fold(Execute, map[], ops);
    Dump(d, order(d), -1, limit)
  }

  /** A dump rebuilds the dataset it was taken of. */
  lemma DumpRebuilds(order: Dataset -> seq<(nat, bytes)>, limit: nat, ops: seq<Op>)
    requires Walks(order) && limit > 0
    ensures Fold(Execute, map[], AofHandoff.Replay(Snapshot(order, limit, ops), 0)) == Fold(Execute, map[], ops)
  {
    var d := Fold(Execute, map[], ops);
    hide Execute, AofHandoff.Replay, Fold, Dump;
    FoldSound(map[], ops);
    DumpExecutes(map[], d, order(d), -1, 0, limit);
    assert map[] + At(d, order(d)) == d;
  }

  /** Strings and lists come back from a log: in every reachable state that
      logs, loading the file and the bytes not yet flushed rebuilds exactly the
      live dataset. */
  lemma StringsAndListsComeBack(order: Dataset -> seq<(nat, bytes)>, limit: nat, commands: seq<Op> -> seq<Command>,
                                table: bytes -> Kind, w: World, actions: seq<Action>)
    requires Walks(order) && limit > 0 && forall ops :: commands(ops) == Snapshot(order, limit, ops)
    requires var snapshot := (ops: seq<Op>) => PrintLog(commands(ops));
             Boots(snapshot, w) && Runs(snapshot, w, actions)
    ensures var snapshot := (ops: seq<Op>) => PrintLog(commands(ops));
            var x := After(snapshot, w, actions);
            x.mode == On && x.base <= |x.ops| && Loadable(table, Snapshot(order, limit, x.ops[..x.base]) + x.logged) ==>
              var (end, last) := Load(table, x.file + x.buf, |x.file + x.buf|, START);
              && last.fed == Snapshot(order, limit, x.ops[..x.base]) + x.logged
              && Fold(Execute, map[], AofHandoff.Replay(last.fed, 0)) == Fold(Execute, map[], x.ops)
              && ((forall m :: !Opens(table, last.fed, m)) ==> end == Whole)
  {
    hide Execute, AofHandoff.Replay, Fold, PrintLog, Load, Boots, Runs, After, Snapshot;
    forall ops: seq<Op>
      ensures Fold(Execute, map[], AofHandoff.Replay(commands(ops), 0)) == Fold(Execute, map[], ops)
    {
      DumpRebuilds(order, limit, ops);
    }
    LoadingRestoresTheDataset(Execute, map[], commands, table, w, actions);
  }
}
