/**
 The rewrite of the append-only file as a state machine: the server, which
 goes on executing and logging writes, a forked child, which writes a snapshot
 and the difference it is sent, and the pipes between them.  Partial writes,
 failures and the order of steps are nondeterministic.
 */
module AofHandoff {
  import opened Decimal
  import opened AofFormat

  /** A write command and the database it ran in. */
  datatype Op = Op(db: nat, cmd: Command)

  const SELECT: bytes := Ascii("SELECT")

  function Select(db: nat): Command {
    [SELECT, Print(db)]
  }

  /** The commands feedAppendOnlyFile emits for an op when the last one it
      emitted ran in database `selected` (-1: none is known). */
  function Fed(op: Op, selected: int): seq<Command> {
    (if op.db == selected then [] else [Select(op.db)]) + [op.cmd]
  }

  // ------------------------------------------------------------------
  // Replaying a log
  // ------------------------------------------------------------------

  /** The database selected after a command. */
  function DbNext(c: Command, db: nat): nat {
    if |c| == 2 && c[0] == SELECT && Atoi(c[1]) >= 0 then Atoi(c[1]) else db
  }

  function DbAfter(log: seq<Command>, db: nat): nat {
    if log == [] then db else DbAfter(log[1..], DbNext(log[0], db))
  }

  predicate IsSelect(c: Command) {
    c != [] && c[0] == SELECT
  }

  /** What a client that starts in database `db` executes when it is fed a log. */
  function Replay(log: seq<Command>, db: nat): seq<Op> {
    if log == [] then [] else
      (if IsSelect(log[0]) then [] else [Op(db, log[0])]) + Replay(log[1..], DbNext(log[0], db))
  }

  lemma {:induction false} ReplayAppend(a: seq<Command>, b: seq<Command>, db: nat)
    ensures DbAfter(a + b, db) == DbAfter(b, DbAfter(a, db))
    ensures Replay(a + b, db) == Replay(a, db) + Replay(b, DbAfter(a, db))
  {
    if a == [] {
      assert a + b == b;
    } else {
      hide DbNext, IsSelect;
      assert (a + b)[1..] == a[1..] + b;
      ReplayAppend(a[1..], b, DbNext(a[0], db));
      var first := if IsSelect(a[0]) then [] else [Op(db, a[0])];
      var d := DbNext(a[0], db);
      assert first + (Replay(a[1..], d) + Replay(b, DbAfter(a, db)))
             == first + Replay(a[1..], d) + Replay(b, DbAfter(a, db));
    }
  }

  lemma SelectSelects(n: nat, db: nat)
    ensures DbNext(Select(n), db) == n && IsSelect(Select(n))
  {
    AtoiPrint(n, []);
    assert Print(n) + [] == Print(n);
  }

  /** The log replays to exactly these ops, and a known selected database is
      the one the replay ends in. */
  ghost predicate Tracks(log: seq<Command>, db: nat, ops: seq<Op>, selected: int) {
    Replay(log, db) == ops && (selected >= 0 ==> DbAfter(log, db) == selected)
  }

  lemma FedReplays(op: Op, selected: int, db: nat)
    requires !IsSelect(op.cmd) && op.cmd != []
    requires selected >= 0 ==> selected == db
    ensures Replay(Fed(op, selected), db) == [op] && DbAfter(Fed(op, selected), db) == op.db
  {
    var cmd := [op.cmd];
    assert cmd[1..] == [];
    assert DbNext(op.cmd, op.db) == op.db;
    assert Replay(cmd, op.db) == [op] && DbAfter(cmd, op.db) == op.db;
    if op.db != selected {
      SelectSelects(op.db, db);
      var s := [Select(op.db)];
      assert s[1..] == [];
      assert Replay(s, db) == [] && DbAfter(s, db) == op.db;
      ReplayAppend(s, cmd, db);
      assert s + cmd == Fed(op, selected);
    } else {
      assert [] + cmd == Fed(op, selected);
    }
  }

  lemma FeedTracks(log: seq<Command>, db: nat, ops: seq<Op>, selected: int, op: Op)
    requires Tracks(log, db, ops, selected) && !IsSelect(op.cmd) && op.cmd != []
    ensures Tracks(log + Fed(op, selected), db, ops + [op], op.db)
  {
    hide Replay, DbAfter;
    ReplayAppend(log, Fed(op, selected), db);
    FedReplays(op, selected, DbAfter(log, db));
  }

  // ------------------------------------------------------------------
  // The machine
  // ------------------------------------------------------------------

  datatype Mode = Off | WaitRewrite | On

  /** How far the child is: writing the snapshot, reading the difference,
      waiting for the parent's acknowledgement, reading what is left. */
  datatype Phase = Saving | Reading | Asking | Granted

  datatype Child = NoChild | Running(phase: Phase, diff: bytes) | Succeeded(temp: bytes) | Failed

  /** The server's fields, the child, the pipes, and a history no step reads:
      `ops` is every write executed, the child was forked after `forkAt` of
      them, `diffed` was fed since; the file starts with a snapshot of the first
      `base`, and `logged` was fed to it since. */
  datatype World = World(mode: Mode, selected: int, buf: bytes, file: bytes,
                         rewrite: bytes, stop: bool, handler: bool,
                         child: Child, pipe: bytes, ask: bool, ack: bool,
                         ops: seq<Op>, forkAt: nat, diffed: seq<Command>, base: nat, logged: seq<Command>)

  datatype Action =
    | Write(op: Op)
    | Flush(n: nat)
    | Fork
    | Send(n: nat)
    | HearAsk(acked: bool)
    | MissAsk
    | ChildSaves
    | ChildReads(n: nat)
    | ChildAsks
    | ChildHears
    | ChildFinishes
    | ChildFails
    | Reap(written: bool)
    | Kill
    | Start(forked: bool)
    | Stop

  predicate Enabled(w: World, a: Action) {
    match a
    case Write(op) => op.cmd != [] && !IsSelect(op.cmd)
    case Flush(n) => n <= |w.buf|
    case Fork => w.child == NoChild
    case Send(n) => w.child != NoChild && !w.stop && n <= |w.rewrite|
    case HearAsk(_) => w.child != NoChild && w.handler && w.ask
    case MissAsk => w.child != NoChild && w.handler
    case ChildSaves => w.child.Running? && w.child.phase == Saving
    case ChildReads(n) => w.child.Running? && (w.child.phase == Reading || w.child.phase == Granted) && n <= |w.pipe|
    case ChildAsks => w.child.Running? && w.child.phase == Reading
    case ChildHears => w.child.Running? && w.child.phase == Asking && w.ack
    case ChildFinishes => w.child.Running? && w.child.phase == Granted && w.pipe == []
    case ChildFails => w.child.Running?
    case Reap(_) => w.child.Succeeded? || w.child.Failed?
    case Kill => w.child != NoChild
    case Start(forked) => w.mode == Off && (forked || w.child == NoChild)
    case Stop => w.mode != Off
  }

  /** feedAppendOnlyFile, for a write executed in any mode. */
  function AfterWrite(w: World, op: Op): World {
    var fed := Fed(op, w.selected);
    var text := PrintLog(fed);
    if w.mode == Off then w.(ops := w.ops + [op]) else
      w.(ops := w.ops + [op],
         selected := op.db,
         buf := if w.mode == On then w.buf + text else w.buf,
         logged := if w.mode == On then w.logged + fed else w.logged,
         rewrite := if w.child != NoChild then w.rewrite + text else w.rewrite,
         diffed := if w.child != NoChild then w.diffed + fed else w.diffed)
  }

  /** aofCreatePipes and the fork of rewriteAppendOnlyFileBackground. */
  function AfterFork(w: World): World {
    w.(child := Running(Saving, []), pipe := [], ask := false, ack := false, stop := false, handler := true,
       selected := -1, forkAt := |w.ops|, diffed := [])
  }

  /** The pipes are closed and the rewrite buffer is reset. */
  function Cleanup(w: World): World {
    w.(child := NoChild, pipe := [], ask := false, ack := false, handler := false, rewrite := [])
  }

  /** backgroundRewriteDoneHandler */
  function AfterReap(w: World, written: bool): World
    requires w.child.Succeeded? || w.child.Failed?
  {
    if w.child.Failed? || !written then Cleanup(w)
    else if w.mode == Off then Cleanup(w.(file := w.child.temp + w.rewrite))
    else Cleanup(w.(file := w.child.temp + w.rewrite, selected := -1, buf := [], mode := On,
                    base := w.forkAt, logged := w.diffed))
  }

  /** startAppendOnly: a running rewrite is killed, and unless another kind of
      child is at work a new one is forked. */
  function AfterStart(w: World, forked: bool): World {
    (if forked then AfterFork(if w.child == NoChild then w else Cleanup(w)) else w).(mode := WaitRewrite)
  }

  /** stopAppendOnly */
  function AfterStop(w: World): World {
    Cleanup(w).(file := w.file + w.buf, buf := [], selected := -1, mode := Off)
  }

  /** `snapshot` gives the bytes the child writes for the dataset that some
      ops lead to. */
  function Step(snapshot: seq<Op> -> bytes, w: World, a: Action): World
    requires Enabled(w, a) && w.forkAt <= |w.ops|
  {
    match a
    case Write(op) => AfterWrite(w, op)
    case Flush(n) => w.(file := w.file + w.buf[..n], buf := w.buf[n..])
    case Fork => AfterFork(w)
    case Send(n) => w.(pipe := w.pipe + w.rewrite[..n], rewrite := w.rewrite[n..])
    case HearAsk(acked) => w.(ask := false, stop := true, ack := acked || w.ack, handler := false)
    case MissAsk => w.(handler := false)
    case ChildSaves => w.(child := Running(Reading, w.child.diff))
    case ChildReads(n) => w.(child := Running(w.child.phase, w.child.diff + w.pipe[..n]), pipe := w.pipe[n..])
    case ChildAsks => w.(child := Running(Asking, w.child.diff), ask := true)
    case ChildHears => w.(child := Running(Granted, w.child.diff), ack := false)
    case ChildFinishes => w.(child := Succeeded(snapshot(w.ops[..w.forkAt]) + w.child.diff))
    case ChildFails => w.(child := Failed)
    case Reap(written) => AfterReap(w, written)
    case Kill => Cleanup(w)
    case Start(forked) => AfterStart(w, forked)
    case Stop => AfterStop(w)
  }

  /** A server that has just started: no rewrite, and a file, if it is in use,
      that replays to the ops the dataset was loaded from. */
  ghost predicate Fresh(snapshot: seq<Op> -> bytes, db: nat, w: World) {
    && w.child == NoChild && w.rewrite == [] && w.pipe == [] && !w.ack && w.selected == -1
    && w.forkAt <= |w.ops| && w.base <= |w.ops|
    && (w.mode == On ==>
          && w.file + w.buf == snapshot(w.ops[..w.base]) + PrintLog(w.logged)
          && Replay(w.logged, db) == w.ops[w.base..])
  }

  // ------------------------------------------------------------------
  // The invariant
  // ------------------------------------------------------------------

  /** The file and the bytes waiting to be flushed are a snapshot and every
      command fed since it was taken. */
  ghost predicate FileSound(snapshot: seq<Op> -> bytes, db: nat, w: World) {
    && w.base <= |w.ops|
    && (w.mode == On ==>
          && w.file + w.buf == snapshot(w.ops[..w.base]) + PrintLog(w.logged)
          && Tracks(w.logged, db, w.ops[w.base..], w.selected))
  }

  /** What the child has, what is in the pipe and what the parent still holds
      are, in this order, every byte fed since the fork. */
  ghost predicate DiffSound(snapshot: seq<Op> -> bytes, db: nat, w: World) {
    && w.forkAt <= |w.ops|
    && match w.child
       case NoChild => w.rewrite == [] && w.pipe == []
       case Running(_, diff) => diff + w.pipe + w.rewrite == PrintLog(w.diffed)
       case Succeeded(temp) => temp + w.rewrite == snapshot(w.ops[..w.forkAt]) + PrintLog(w.diffed)
       case Failed => true
  }

  ghost predicate DiffTracks(db: nat, w: World)
    requires w.forkAt <= |w.ops|
  {
    w.child != NoChild ==>
      if w.mode == Off then w.diffed == [] && w.selected == -1 else
        && Tracks(w.diffed, db, w.ops[w.forkAt..], w.selected)
        && (if w.diffed == [] then w.selected == -1 else IsSelect(w.diffed[0]))
  }

  /** The handshake: nothing is sent after the parent has acknowledged. */
  ghost predicate Agreed(w: World) {
    (w.child != NoChild && (w.ack || (w.child.Running? && w.child.phase == Granted) || w.child.Succeeded?)) ==> w.stop
  }

  ghost predicate Inv(snapshot: seq<Op> -> bytes, db: nat, w: World) {
    && w.selected >= -1
    && FileSound(snapshot, db, w)
    && DiffSound(snapshot, db, w)
    && DiffTracks(db, w)
    && Agreed(w)
  }

  lemma Joined3(a: bytes, b: bytes, c: bytes)
    ensures (a + b) + c == a + (b + c)
  {
  }

  lemma WriteKeepsFile(snapshot: seq<Op> -> bytes, db: nat, w: World, op: Op)
    requires FileSound(snapshot, db, w) && Enabled(w, Write(op))
    ensures FileSound(snapshot, db, AfterWrite(w, op))
  {
    hide Fed, PrintLog, Tracks, IsSelect;
    var fed, x := Fed(op, w.selected), AfterWrite(w, op);
    assert x.ops[..w.base] == w.ops[..w.base] && x.ops[w.base..] == w.ops[w.base..] + [op];
    if w.mode == On {
      LogAppend(w.logged, fed);
      FeedTracks(w.logged, db, w.ops[w.base..], w.selected, op);
      Joined3(w.file, w.buf, PrintLog(fed));
      Joined3(snapshot(w.ops[..w.base]), PrintLog(w.logged), PrintLog(fed));
    }
  }

  lemma WriteKeepsDiff(snapshot: seq<Op> -> bytes, db: nat, w: World, op: Op)
    requires DiffSound(snapshot, db, w) && DiffTracks(db, w) && Enabled(w, Write(op))
    ensures DiffSound(snapshot, db, AfterWrite(w, op)) && DiffTracks(db, AfterWrite(w, op))
  {
    hide Fed, PrintLog, Tracks;
    var fed, x := Fed(op, w.selected), AfterWrite(w, op);
    assert x.ops[..w.forkAt] == w.ops[..w.forkAt] && x.ops[w.forkAt..] == w.ops[w.forkAt..] + [op];
    if w.mode != Off && w.child != NoChild {
      LogAppend(w.diffed, fed);
      FeedTracks(w.diffed, db, w.ops[w.forkAt..], w.selected, op);
      DiffGrows(snapshot, db, w, PrintLog(fed));
      FedNotEmpty(op, w.selected);
    }
  }

  lemma WriteKeeps(snapshot: seq<Op> -> bytes, db: nat, w: World, op: Op)
    requires Inv(snapshot, db, w) && Enabled(w, Write(op))
    ensures Inv(snapshot, db, AfterWrite(w, op))
  {
    hide Fed, PrintLog, FileSound, DiffSound, DiffTracks;
    WriteKeepsFile(snapshot, db, w, op);
    assert w.forkAt <= |w.ops| by { ForkInRange(snapshot, db, w); }
    WriteKeepsDiff(snapshot, db, w, op);
  }

  lemma ForkInRange(snapshot: seq<Op> -> bytes, db: nat, w: World)
    requires DiffSound(snapshot, db, w)
    ensures w.forkAt <= |w.ops|
  {
  }

  lemma LogAppend(a: seq<Command>, b: seq<Command>)
    ensures PrintLog(a + b) == PrintLog(a) + PrintLog(b)
  {
    LogSplit(a + b, |a|);
    assert (a + b)[..|a|] == a && (a + b)[|a|..] == b;
  }

  lemma DiffGrows(snapshot: seq<Op> -> bytes, db: nat, w: World, text: bytes)
    requires DiffSound(snapshot, db, w)
    ensures w.child.Running? ==> w.child.diff + w.pipe + (w.rewrite + text) == PrintLog(w.diffed) + text
    ensures w.child.Succeeded? ==>
              w.child.temp + (w.rewrite + text) == snapshot(w.ops[..w.forkAt]) + (PrintLog(w.diffed) + text)
  {
    hide PrintLog;
    if w.child.Running? {
      assert w.child.diff + w.pipe + (w.rewrite + text) == w.child.diff + w.pipe + w.rewrite + text;
    }
    if w.child.Succeeded? {
      assert w.child.temp + (w.rewrite + text) == w.child.temp + w.rewrite + text;
    }
  }

  lemma FedNotEmpty(op: Op, selected: int)
    ensures Fed(op, selected) != [] && (selected == -1 ==> IsSelect(Fed(op, selected)[0]))
  {
  }

  lemma NothingTracked(db: nat, selected: int)
    requires selected == -1
    ensures Tracks([], db, [], selected) && PrintLog([]) == []
  {
  }

  lemma ForkKeeps(snapshot: seq<Op> -> bytes, db: nat, w: World)
    requires Inv(snapshot, db, w) && w.child == NoChild
    ensures Inv(snapshot, db, AfterFork(w))
  {
    hide PrintLog;
    NothingTracked(db, -1);
    assert w.ops[|w.ops|..] == [];
  }

  lemma CleanupKeeps(snapshot: seq<Op> -> bytes, db: nat, w: World)
    requires Inv(snapshot, db, w)
    ensures Inv(snapshot, db, Cleanup(w))
  {
    hide PrintLog;
  }

  lemma ReapKeeps(snapshot: seq<Op> -> bytes, db: nat, w: World, written: bool)
    requires Inv(snapshot, db, w) && Enabled(w, Reap(written))
    ensures Inv(snapshot, db, AfterReap(w, written))
  {
    hide PrintLog, Replay;
    if w.child.Succeeded? && written {
      assert w.child.temp + w.rewrite + [] == w.child.temp + w.rewrite;
    }
  }

  lemma StopKeeps(snapshot: seq<Op> -> bytes, db: nat, w: World)
    requires Inv(snapshot, db, w)
    ensures Inv(snapshot, db, AfterStop(w))
  {
    hide PrintLog, Replay;
  }

  lemma StartKeeps(snapshot: seq<Op> -> bytes, db: nat, w: World, forked: bool)
    requires Inv(snapshot, db, w) && Enabled(w, Start(forked))
    ensures Inv(snapshot, db, AfterStart(w, forked))
  {
    hide PrintLog, Replay;
    if forked {
      var x := if w.child == NoChild then w else Cleanup(w);
      CleanupKeeps(snapshot, db, w);
      ForkKeeps(snapshot, db, x);
      assert AfterFork(x).ops[|x.ops|..] == [];
      NothingTracked(db, -1);
    }
  }

  /** Bytes change hands: from buffer to file, from buffer to pipe, from pipe
      to child, from child to temporary file. */
  lemma BytesKeep(snapshot: seq<Op> -> bytes, db: nat, w: World, a: Action)
    requires Inv(snapshot, db, w) && Enabled(w, a)
    requires a.Flush? || a.Send? || a.ChildReads? || a.ChildFinishes?
    ensures Inv(snapshot, db, Step(snapshot, w, a))
  {
    hide PrintLog, Replay, Tracks;
    match a
    case Flush(n) =>
      assert w.file + w.buf[..n] + w.buf[n..] == w.file + w.buf;
    case Send(n) =>
      assert w.pipe + w.rewrite[..n] + w.rewrite[n..] == w.pipe + w.rewrite;
      if w.child.Running? {
        assert w.child.diff + (w.pipe + w.rewrite[..n]) + w.rewrite[n..] == w.child.diff + w.pipe + w.rewrite;
      }
    case ChildReads(n) =>
      assert w.child.diff + w.pipe[..n] + w.pipe[n..] == w.child.diff + w.pipe;
    case ChildFinishes =>
      var snap := snapshot(w.ops[..w.forkAt]);
      assert w.child.diff + w.pipe == w.child.diff;
      assert snap + w.child.diff + w.rewrite == snap + (w.child.diff + w.rewrite);
  }

  /** The steps of the handshake leave every byte where it is. */
  lemma HandshakeKeeps(snapshot: seq<Op> -> bytes, db: nat, w: World, a: Action)
    requires Inv(snapshot, db, w) && Enabled(w, a)
    requires a.HearAsk? || a.MissAsk? || a.ChildSaves? || a.ChildAsks? || a.ChildHears? || a.ChildFails?
    ensures Inv(snapshot, db, Step(snapshot, w, a))
  {
    hide PrintLog, Tracks;
  }

  lemma StepKeeps(snapshot: seq<Op> -> bytes, db: nat, w: World, a: Action)
    requires Inv(snapshot, db, w) && Enabled(w, a)
    ensures w.forkAt <= |w.ops| && Inv(snapshot, db, Step(snapshot, w, a))
  {
    hide PrintLog, Tracks, AfterWrite, AfterFork, Cleanup, AfterReap, AfterStart, AfterStop;
    match a
    case Write(op) => WriteKeeps(snapshot, db, w, op);
    case Fork => ForkKeeps(snapshot, db, w);
    case Reap(written) => ReapKeeps(snapshot, db, w, written);
    case Kill => CleanupKeeps(snapshot, db, w);
    case Start(forked) => StartKeeps(snapshot, db, w, forked);
    case Stop => StopKeeps(snapshot, db, w);
    case Flush(_) => BytesKeep(snapshot, db, w, a);
    case Send(_) => BytesKeep(snapshot, db, w, a);
    case ChildReads(_) => BytesKeep(snapshot, db, w, a);
    case ChildFinishes => BytesKeep(snapshot, db, w, a);
    case _ => HandshakeKeeps(snapshot, db, w, a);
  }

  /** A run of enabled steps. */
  ghost predicate Runs(snapshot: seq<Op> -> bytes, w: World, actions: seq<Action>)
    decreases |actions|
  {
    actions == [] || (Enabled(w, actions[0]) && w.forkAt <= |w.ops|
                      && Runs(snapshot, Step(snapshot, w, actions[0]), actions[1..]))
  }

  ghost function After(snapshot: seq<Op> -> bytes, w: World, actions: seq<Action>): World
    requires Runs(snapshot, w, actions)
    decreases |actions|
  {
    if actions == [] then w else After(snapshot, Step(snapshot, w, actions[0]), actions[1..])
  }

  lemma {:induction false} RunKeeps(snapshot: seq<Op> -> bytes, db: nat, w: World, actions: seq<Action>)
    requires Inv(snapshot, db, w) && Runs(snapshot, w, actions)
    ensures Inv(snapshot, db, After(snapshot, w, actions))
    decreases |actions|
  {
    hide Inv, Enabled, Step;
    if actions != [] {
      StepKeeps(snapshot, db, w, actions[0]);
      RunKeeps(snapshot, db, Step(snapshot, w, actions[0]), actions[1..]);
    }
  }

  // ------------------------------------------------------------------
  // What a rewrite produces
  // ------------------------------------------------------------------

  ghost predicate Boots(snapshot: seq<Op> -> bytes, w: World) {
    forall db: nat :: Fresh(snapshot, db, w)
  }

  lemma Reachable(snapshot: seq<Op> -> bytes, db: nat, w: World, actions: seq<Action>)
    requires Boots(snapshot, w) && Runs(snapshot, w, actions)
    ensures Inv(snapshot, db, After(snapshot, w, actions))
  {
    assert Fresh(snapshot, db, w);
    RunKeeps(snapshot, db, w, actions);
  }

  /** Exactly once.  When the child has succeeded, its file and what the parent
      still holds are the snapshot followed by every byte fed since the fork, in
      order; those bytes start with a SELECT and replay, from whatever database,
      to the writes executed since the fork, each in its own database. */
  lemma ExactlyOnce(snapshot: seq<Op> -> bytes, w: World, actions: seq<Action>)
    requires Boots(snapshot, w) && Runs(snapshot, w, actions)
    ensures var x := After(snapshot, w, actions);
            x.child.Succeeded? && x.forkAt <= |x.ops| ==>
              && x.child.temp + x.rewrite == snapshot(x.ops[..x.forkAt]) + PrintLog(x.diffed)
              && (x.diffed != [] ==> IsSelect(x.diffed[0]))
              && (x.mode != Off ==> forall db: nat :: Replay(x.diffed, db) == x.ops[x.forkAt..])
  {
    hide PrintLog, Replay, FileSound, Runs, After;
    var x := After(snapshot, w, actions);
    forall db: nat
      ensures Inv(snapshot, db, x)
      ensures x.child.Succeeded? && x.mode != Off ==> Replay(x.diffed, db) == x.ops[x.forkAt..]
    {
      Reachable(snapshot, db, w, actions);
    }
    assert Inv(snapshot, 0, x);
  }

  /** What is installed when the parent reaps the child: the whole history, in
      the mode that logs, with the old buffer gone and the next write bound to
      start with a SELECT. */
  lemma Installed(snapshot: seq<Op> -> bytes, w: World, actions: seq<Action>)
    requires Boots(snapshot, w) && Runs(snapshot, w, actions)
    ensures var x := After(snapshot, w, actions);
            x.child.Succeeded? && x.mode != Off && x.forkAt <= |x.ops| ==>
              var y := Step(snapshot, x, Reap(true));
              && y.file == snapshot(x.ops[..x.forkAt]) + PrintLog(x.diffed)
              && Replay(x.diffed, 0) == x.ops[x.forkAt..]
              && y.mode == On && y.buf == [] && y.selected == -1 && y.rewrite == []
  {
    hide PrintLog, Replay, Runs, After;
    Reachable(snapshot, 0, w, actions);
  }

  /** The dataset some ops lead to. */
  ghost function Fold<D>(apply: (D, Op) -> D, d: D, ops: seq<Op>): D {
    if ops == [] then d else Fold(apply, apply(d, ops[0]), ops[1..])
  }

  lemma {:induction false} FoldAppend<D>(apply: (D, Op) -> D, d: D, a: seq<Op>, b: seq<Op>)
    ensures Fold(apply, d, a + b) == Fold(apply, Fold(apply, d, a), b)
    decreases |a|
  {
    if a == [] {
      assert a + b == b;
    } else {
      assert (a + b)[1..] == a[1..] + b;
      FoldAppend(apply, apply(d, a[0]), a[1..], b);
    }
  }

  /** A snapshot made of commands: fed to a fresh client they rebuild the
      dataset. */
  ghost predicate Faithful<D>(apply: (D, Op) -> D, empty: D, commands: seq<Op> -> seq<Command>) {
    forall ops: seq<Op> :: Fold(apply, empty, Replay(commands(ops), 0)) == Fold(apply, empty, ops)
  }

  /** In every reachable state that logs, through any number of rewrites that
      succeed, fail or are killed, loading the file and the bytes not yet
      flushed feeds commands that rebuild exactly the live dataset. */
  lemma LoadingRestoresTheDataset<D>(apply: (D, Op) -> D, empty: D, commands: seq<Op> -> seq<Command>,
                                     table: bytes -> Kind, w: World, actions: seq<Action>)
    requires var snapshot := (ops: seq<Op>) => PrintLog(commands(ops));
             Boots(snapshot, w) && Runs(snapshot, w, actions)
    requires Faithful(apply, empty, commands)
    ensures var snapshot := (ops: seq<Op>) => PrintLog(commands(ops));
            var x := After(snapshot, w, actions);
            x.mode == On && x.base <= |x.ops| && Loadable(table, commands(x.ops[..x.base]) + x.logged) ==>
              var (end, last) := Load(table, x.file + x.buf, |x.file + x.buf|, START);
              && last.fed == commands(x.ops[..x.base]) + x.logged
              && Fold(apply, empty, Replay(last.fed, 0)) == Fold(apply, empty, x.ops)
              && ((forall m :: !Opens(table, last.fed, m)) ==> end == Whole)
  {
    hide PrintLog, Replay, Load, Runs, After, Fold;
    var snapshot := (ops: seq<Op>) => PrintLog(commands(ops));
    var x := After(snapshot, w, actions);
    if x.mode == On && x.base <= |x.ops| && Loadable(table, commands(x.ops[..x.base]) + x.logged) {
      var c := commands(x.ops[..x.base]);
      var db := DbAfter(c, 0);
      Reachable(snapshot, db, w, actions);
      LogAppend(c, x.logged);
      LogRoundTrip(table, c + x.logged);
      ReplayAppend(c, x.logged, 0);
      FoldAppend(apply, empty, Replay(c, 0), x.ops[x.base..]);
      FoldAppend(apply, empty, x.ops[..x.base], x.ops[x.base..]);
      assert x.ops[..x.base] + x.ops[x.base..] == x.ops;
    }
  }

  /** After a crash only the file is left.  What it loads is a prefix of the
      full log, never a format error, so the writes that come back are a prefix
      of the history; nothing is missing if nothing was waiting to be flushed. */
  lemma CrashLosesOnlyATail(commands: seq<Op> -> seq<Command>, table: bytes -> Kind, w: World, actions: seq<Action>)
    requires var snapshot := (ops: seq<Op>) => PrintLog(commands(ops));
             Boots(snapshot, w) && Runs(snapshot, w, actions)
    ensures var snapshot := (ops: seq<Op>) => PrintLog(commands(ops));
            var x := After(snapshot, w, actions);
            x.mode == On && x.base <= |x.ops| && Loadable(table, commands(x.ops[..x.base]) + x.logged) ==>
              var c := commands(x.ops[..x.base]);
              var (end, last) := Load(table, x.file, |x.file|, START);
              && end != FormatError && end != Exit
              && last.fed <= c + x.logged
              && Replay(last.fed, 0) <= Replay(c, 0) + x.ops[x.base..]
              && (x.buf == [] ==> last.fed == c + x.logged)
  {
    hide PrintLog, PrintCommand, Replay, DbAfter, Load, Runs, After;
    var snapshot := (ops: seq<Op>) => PrintLog(commands(ops));
    var x := After(snapshot, w, actions);
    if x.mode == On && x.base <= |x.ops| && Loadable(table, commands(x.ops[..x.base]) + x.logged) {
      var c := commands(x.ops[..x.base]);
      var all := c + x.logged;
      Reachable(snapshot, DbAfter(c, 0), w, actions);
      LogAppend(c, x.logged);
      assert PrintLog(all)[..|x.file|] == x.file;
      var i := HeldWhole(all, |x.file|);
      HeldWholeHolds(all, |x.file|);
      AnyPrefixLoads(table, all, |x.file|, i);
      ReplayAppend(c, x.logged, 0);
      ReplayAppend(all[..i], all[i..], 0);
      assert all[..i] + all[i..] == all;
      if x.buf == [] {
        assert x.file + x.buf == x.file;
        LogRoundTrip(table, all);
      }
    }
  }

  // ------------------------------------------------------------------
  // A rewrite that completes
  // ------------------------------------------------------------------

  lemma RunsFrom(snapshot: seq<Op> -> bytes, w: World, a: Action, rest: seq<Action>, last: World)
    requires w.forkAt <= |w.ops| && Enabled(w, a)
    requires Runs(snapshot, Step(snapshot, w, a), rest) && After(snapshot, Step(snapshot, w, a), rest) == last
    ensures Runs(snapshot, w, [a] + rest) && After(snapshot, w, [a] + rest) == last
  {
    assert ([a] + rest)[1..] == rest;
  }

  /** The world after a fork, a write fed to it and the saving of the snapshot. */
  function Forked(w: World, op: Op): World {
    AfterWrite(AfterFork(w), op).(child := Running(Reading, []))
  }

  lemma ForkWriteSave(snapshot: seq<Op> -> bytes, w: World, op: Op, rest: seq<Action>, last: World)
    requires w.child == NoChild && w.mode == On && w.rewrite == [] && w.forkAt <= |w.ops| && Enabled(w, Write(op))
    requires Runs(snapshot, Forked(w, op), rest) && After(snapshot, Forked(w, op), rest) == last
    ensures Runs(snapshot, w, [Fork] + ([Write(op)] + ([ChildSaves] + rest)))
    ensures After(snapshot, w, [Fork] + ([Write(op)] + ([ChildSaves] + rest))) == last
  {
    hide PrintLog, Runs, After;
    var w1 := AfterFork(w);
    var w2 := AfterWrite(w1, op);
    RunsFrom(snapshot, w2, ChildSaves, rest, last);
    RunsFrom(snapshot, w1, Write(op), [ChildSaves] + rest, last);
    RunsFrom(snapshot, w, Fork, [Write(op)] + ([ChildSaves] + rest), last);
  }

  /** The end of the child and its reaping. */
  const REAPING: seq<Action> := [ChildFinishes] + ([Reap(true)] + [])

  /** The same after the handshake. */
  const ENDING: seq<Action> := [ChildAsks] + ([HearAsk(true)] + ([ChildHears] + REAPING))

  /** A rewrite with one write in the middle. */
  function WholeRewrite(op: Op): seq<Action> {
    [Fork] + ([Write(op)] + ([ChildSaves] + ENDING))
  }

  lemma FinishAndReap(snapshot: seq<Op> -> bytes, x: World, diff: bytes)
    requires x.child == Running(Granted, diff) && x.pipe == [] && x.forkAt <= |x.ops| && x.mode == On
    ensures Runs(snapshot, x, REAPING)
            && var y := After(snapshot, x, REAPING);
               y.mode == On && y.ops == x.ops && y.buf == [] && y.file == snapshot(x.ops[..x.forkAt]) + diff + x.rewrite
  {
    var x1 := Step(snapshot, x, ChildFinishes);
    var x2 := Step(snapshot, x1, Reap(true));
    assert Runs(snapshot, x2, []) && After(snapshot, x2, []) == x2;
    hide Runs, After;
    RunsFrom(snapshot, x1, Reap(true), [], x2);
    RunsFrom(snapshot, x, ChildFinishes, [Reap(true)] + [], x2);
  }

  /** The handshake and the end of the child: everything sent and read. */
  lemma AskAndFinish(snapshot: seq<Op> -> bytes, x: World, diff: bytes)
    requires x.child == Running(Reading, diff) && x.pipe == [] && x.handler && !x.ask && !x.ack && x.forkAt <= |x.ops|
             && x.mode == On
    ensures Runs(snapshot, x, ENDING)
            && var y := After(snapshot, x, ENDING);
               y.mode == On && y.ops == x.ops && y.buf == [] && y.file == snapshot(x.ops[..x.forkAt]) + diff + x.rewrite
  {
    hide Runs, After, REAPING;
    var x1 := Step(snapshot, x, ChildAsks);
    var x2 := Step(snapshot, x1, HearAsk(true));
    var x3 := Step(snapshot, x2, ChildHears);
    FinishAndReap(snapshot, x3, diff);
    var y := After(snapshot, x3, REAPING);
    RunsFrom(snapshot, x2, ChildHears, REAPING, y);
    RunsFrom(snapshot, x1, HearAsk(true), [ChildHears] + REAPING, y);
    RunsFrom(snapshot, x, ChildAsks, [HearAsk(true)] + ([ChildHears] + REAPING), y);
  }

  lemma ForkedIs(w: World, op: Op)
    requires w.child == NoChild && w.mode == On && w.rewrite == []
    ensures var x := Forked(w, op);
            && x.child == Running(Reading, []) && x.pipe == [] && x.handler && !x.ask && !x.ack && x.mode == On
            && x.ops == w.ops + [op] && x.forkAt == |w.ops| && x.ops[..x.forkAt] == w.ops
            && x.rewrite == PrintLog(Fed(op, -1))
  {
    hide PrintLog, Fed;
  }

  /** From every reachable state that logs and has no child, a rewrite can run to
      its end with a write in the middle: the hypotheses above are met by runs
      that install a new file. */
  lemma RewriteCompletes(snapshot: seq<Op> -> bytes, w: World, op: Op)
    requires Inv(snapshot, 0, w) && w.child == NoChild && w.mode == On && Enabled(w, Write(op))
    ensures Runs(snapshot, w, WholeRewrite(op))
    ensures var y := After(snapshot, w, WholeRewrite(op));
            y.mode == On && y.ops == w.ops + [op] && y.buf == [] && y.file == snapshot(w.ops) + PrintLog(Fed(op, -1))
  {
    assert w.rewrite == [] && w.forkAt <= |w.ops|;
    hide PrintLog, Fed, Inv, Forked, Runs, After, ENDING;
    var x := Forked(w, op);
    ForkedIs(w, op);
    AskAndFinish(snapshot, x, []);
    EmptyDiff(snapshot(w.ops), x.rewrite);
    ForkWriteSave(snapshot, w, op, ENDING, After(snapshot, x, ENDING));
  }

  lemma EmptyDiff(a: bytes, b: bytes)
    ensures a + [] + b == a + b
  {
  }
}
