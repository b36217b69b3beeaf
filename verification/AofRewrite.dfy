/**
 rewriteListObject: a list is rewritten as RPUSH commands of at most `limit`
 items each (AOF_REWRITE_ITEMS_PER_CMD is 64).
 */
module AofRewrite {
  import opened Decimal
  import opened AofFormat

  const RPUSH: bytes := Ascii("RPUSH")

  function Least(a: nat, b: nat): nat {
    if a < b then a else b
  }

  /** The commands a list is rewritten as. */
  function Chunks(key: bytes, items: seq<bytes>, limit: nat): seq<Command>
    requires limit > 0
    decreases |items|
  {
    if items == [] then [] else
      var k := Least(limit, |items|);
      [[RPUSH, key] + items[..k]] + Chunks(key, items[k..], limit)
  }

  /** The list a key holds after RPUSH commands on it. */
  function Pushed(log: seq<Command>): seq<bytes>
    requires forall i | 0 <= i < |log| :: |log[i]| >= 2
  {
    if log == [] then [] else log[0][2..] + Pushed(log[1..])
  }

  /** Executing the commands rebuilds the list, item by item and in order; each
      pushes at least one item and at most `limit`, and no command but the last
      is short. */
  lemma {:induction false} ChunksRebuild(key: bytes, items: seq<bytes>, limit: nat)
    requires limit > 0
    ensures var log := Chunks(key, items, limit);
            && (forall i | 0 <= i < |log| :: 2 < |log[i]| <= 2 + limit && log[i][0] == RPUSH && log[i][1] == key)
            && (forall i | 0 <= i < |log| - 1 :: |log[i]| == 2 + limit)
            && Pushed(log) == items
    decreases |items|
  {
    if items != [] {
      var k := Least(limit, |items|);
      ChunksRebuild(key, items[k..], limit);
      var first := [RPUSH, key] + items[..k];
      assert first[2..] == items[..k];
      assert Chunks(key, items, limit)[1..] == Chunks(key, items[k..], limit);
      assert items[..k] + items[k..] == items;
    }
  }

  /** What the loop still has to print after `done` items, `count` of them in
      the command it is in. */
  function Ahead(key: bytes, items: seq<bytes>, limit: nat, done: nat, count: nat): bytes
    requires limit > 0 && count <= done <= |items| && count < limit
  {
    var left := if count == 0 then 0 else Least(limit - count, |items| - done);
    PrintArgs(items[done..done + left]) + PrintLog(Chunks(key, items[done + left..], limit))
  }

  /** The header of a command. */
  lemma AheadOpens(key: bytes, items: seq<bytes>, limit: nat, done: nat)
    requires limit > 0 && done < |items|
    ensures var k := Least(limit, |items| - done);
            Ahead(key, items, limit, done, 0) ==
            Head(STAR, 2 + k) + PrintArg(RPUSH) + PrintArg(key)
            + (PrintArgs(items[done..done + k]) + PrintLog(Chunks(key, items[done + k..], limit)))
  {
    hide Head, PrintArg, PrintArgs;
    var k, rest := Least(limit, |items| - done), items[done..];
    assert items[done..done] == [];
    NoArgs();
    assert rest[..k] == items[done..done + k] && rest[k..] == items[done + k..];
    var c: Command := [RPUSH, key] + rest[..k];
    assert Chunks(key, rest, limit) == [c] + Chunks(key, rest[k..], limit);
    assert ([c] + Chunks(key, rest[k..], limit))[1..] == Chunks(key, rest[k..], limit);
    RpushArgs(key, rest[..k]);
  }

  lemma NoArgs()
    ensures PrintArgs([]) == []
  {
  }

  lemma RpushArgs(key: bytes, items: seq<bytes>)
    ensures PrintArgs([RPUSH, key] + items) == PrintArg(RPUSH) + (PrintArg(key) + PrintArgs(items))
  {
    hide PrintArg;
    var c: Command := [RPUSH, key] + items;
    assert c[1..] == [key] + items && c[1..][1..] == items;
  }

  /** One item. */
  lemma AheadMoves(key: bytes, items: seq<bytes>, limit: nat, done: nat, count: nat)
    requires limit > 0 && count <= done < |items| && count < limit
    ensures var left := Least(limit - count, |items| - done);
            PrintArgs(items[done..done + left]) + PrintLog(Chunks(key, items[done + left..], limit))
            == PrintArg(items[done]) + Ahead(key, items, limit, done + 1, if count + 1 == limit then 0 else count + 1)
  {
    hide PrintArg, Chunks, PrintLog;
    var left := Least(limit - count, |items| - done);
    var now := items[done..done + left];
    assert now[0] == items[done] && now[1..] == items[done + 1..done + left];
    if count + 1 == limit {
      assert items[done + 1..done + 1] == [] && PrintArgs([]) == [];
    }
  }

  method RewriteListObject(dst: bytes, key: bytes, items: seq<bytes>, limit: nat) returns (out: bytes)
    requires limit > 0
    ensures out == dst + PrintLog(Chunks(key, items, limit))
  {
    hide Head, PrintArg, PrintArgs, PrintLog, Chunks, Ahead;
    out := dst;
    var count: nat, remaining: nat, done: nat := 0, |items|, 0;
    AheadStart(key, items, limit);
    while done < |items|
      invariant count <= done <= |items| && count < limit && remaining == |items| - done
      invariant out + Ahead(key, items, limit, done, count) == dst + PrintLog(Chunks(key, items, limit))
    {
      AheadMoves(key, items, limit, done, count);
      var was := out;
      if count == 0 {
        AheadOpens(key, items, limit, done);
        var cmdItems := if remaining > limit then limit else remaining;
        out := out + Head(STAR, 2 + cmdItems) + PrintArg(RPUSH) + PrintArg(key);
      } else {
        AheadIs(key, items, limit, done, count);
      }
      out := out + PrintArg(items[done]);
      count := if count + 1 == limit then 0 else count + 1;
      remaining, done := remaining - 1, done + 1;
    }
    AheadEnd(key, items, limit, count);
  }

  lemma AheadStart(key: bytes, items: seq<bytes>, limit: nat)
    requires limit > 0
    ensures Ahead(key, items, limit, 0, 0) == PrintLog(Chunks(key, items, limit))
  {
    hide PrintLog, Chunks;
    assert items[0..0] == [] && items[0..] == items && PrintArgs([]) == [];
  }

  lemma AheadIs(key: bytes, items: seq<bytes>, limit: nat, done: nat, count: nat)
    requires 0 < count <= done <= |items| && count < limit
    ensures var left := Least(limit - count, |items| - done);
            Ahead(key, items, limit, done, count) ==
            PrintArgs(items[done..done + left]) + PrintLog(Chunks(key, items[done + left..], limit))
  {
  }

  lemma AheadEnd(key: bytes, items: seq<bytes>, limit: nat, count: nat)
    requires limit > 0 && count <= |items| && count < limit
    ensures Ahead(key, items, limit, |items|, count) == []
  {
    assert items[|items|..] == [];
    assert PrintArgs([]) == [];
  }
}
