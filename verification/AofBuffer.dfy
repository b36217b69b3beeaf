/**
 The rewrite buffer of aof.c: a list of fixed-size blocks the parent appends
 the difference to while a child rewrites the log, and drains into a pipe as
 far as the kernel takes it.
 */
module AofBuffer {
  import opened Decimal

  /** aofrwblock: `used` bytes at the front of `buf`, `free` after them. */
  class Block {
    const buf: array<byte>
    var used: nat
    var free: nat

    constructor (size: nat)
      ensures fresh(buf) && buf.Length == size && used == 0 && free == size
    {
      buf := new byte[size];
      used := 0;
      free := size;
    }

    ghost predicate Valid()
      reads this
    {
      used + free == buf.Length
    }

    function Data(): (d: bytes)
      requires Valid()
      reads this, buf
    {
      buf[..used]
    }

    /** The memcpy of aofRewriteBufferAppend: as much of `s` as fits. */
    method Fill(s: bytes) returns (taken: nat)
      requires Valid()
      modifies this, buf
      ensures Valid() && taken == (if old(free) < |s| then old(free) else |s|)
      ensures Data() == old(Data()) + s[..taken] && free == old(free) - taken
    {
      taken := if free < |s| then free else |s|;
      forall i | used <= i < used + taken {
        buf[i] := s[i - used];
      }
      used, free := used + taken, free - taken;
    }

    /** The memmove of aofChildWriteDiffData: the first `n` bytes are gone. */
    method Drop(n: nat)
      requires Valid() && n <= used
      modifies this, buf
      ensures Valid() && Data() == old(Data())[n..] && free == old(free) + n
    {
      forall i | 0 <= i < used - n {
        buf[i] := buf[i + n];
      }
      used, free := used - n, free + n;
    }
  }

  /** The kernel's answer to the next write of `len` bytes: none or an error
      when the script is over, otherwise what the script says. */
  function Written(script: seq<int>, call: nat, len: nat): (n: int)
    ensures n <= len
  {
    if call < |script| && script[call] <= len then script[call] else -1
  }

  /** The bytes of a list of blocks, in order. */
  function Joined(parts: seq<bytes>): (r: bytes) {
    if parts == [] then [] else parts[0] + Joined(parts[1..])
  }

  lemma {:induction false} JoinedSnoc(parts: seq<bytes>, last: bytes)
    ensures Joined(parts + [last]) == Joined(parts) + last
  {
    if parts == [] {
      assert (parts + [last])[1..] == [];
    } else {
      assert (parts + [last])[1..] == parts[1..] + [last];
      JoinedSnoc(parts[1..], last);
    }
  }

  lemma JoinedLast(parts: seq<bytes>, more: bytes)
    requires parts != []
    ensures Joined(parts[|parts| - 1 := parts[|parts| - 1] + more]) == Joined(parts) + more
  {
    hide Joined;
    var front, last := parts[..|parts| - 1], parts[|parts| - 1];
    JoinedSnoc(front, last);
    JoinedSnoc(front, last + more);
    assert parts == front + [last];
    assert parts[|parts| - 1 := last + more] == front + [last + more];
  }

  lemma JoinedFirst(parts: seq<bytes>, n: nat)
    requires parts != [] && n <= |parts[0]|
    ensures Joined(parts) == parts[0][..n] + Joined(parts[0 := parts[0][n..]])
    ensures n == |parts[0]| ==> Joined(parts) == parts[0] + Joined(parts[1..])
  {
    assert parts[0 := parts[0][n..]][1..] == parts[1..];
    assert parts[0] == parts[0][..n] + parts[0][n..];
  }

  class RewriteBuffer {
    const size: nat
    var blocks: seq<Block>
    /** Whether the handler that feeds the pipe is installed. */
    var writable: bool
    /** The data of each block. */
    ghost var parts: seq<bytes>

    constructor (size: nat)
      requires size > 0
      ensures Valid() && Contents() == [] && this.size == size && !writable && blocks == []
    {
      this.size := size;
      blocks, parts := [], [];
      writable := false;
    }

    ghost predicate Layout()
      reads this`blocks, this`parts, blocks, set i | 0 <= i < |blocks| :: blocks[i].buf
    {
      && size > 0 && |parts| == |blocks|
      && (forall i | 0 <= i < |blocks| ::
         blocks[i].Valid() && blocks[i].buf.Length == size && parts[i] == blocks[i].Data())
      && (forall i | 0 < i < |blocks| - 1 :: blocks[i].free == 0)
      && (forall i, j | 0 <= i < j < |blocks| :: blocks[i] != blocks[j] && blocks[i].buf != blocks[j].buf)
    }

    /** No block is empty, and only the first, which is drained, and the last,
        which is filled, may have room. */
    ghost predicate Valid()
      reads this`blocks, this`parts, blocks, set i | 0 <= i < |blocks| :: blocks[i].buf
    {
      Layout() && forall i | 0 <= i < |blocks| :: blocks[i].used > 0
    }

    ghost function Contents(): bytes
      reads this`parts
    {
      Joined(parts)
    }

    /** The last block takes what fits of `s`. */
    method FillLast(s: bytes) returns (rest: bytes)
      requires Layout() && blocks != []
      modifies this`parts, blocks[|blocks| - 1], blocks[|blocks| - 1].buf
      ensures Layout() && |rest| <= |s| && rest == s[|s| - |rest|..]
      ensures Contents() == old(Contents()) + s[..|s| - |rest|]
      ensures rest != [] ==> blocks[|blocks| - 1].free == 0 < blocks[|blocks| - 1].used
      ensures blocks[|blocks| - 1].used == old(blocks[|blocks| - 1].used) + |s| - |rest|
      ensures blocks[|blocks| - 1].free == old(blocks[|blocks| - 1].free) - (|s| - |rest|)
      ensures forall i | 0 <= i < |blocks| - 1 :: blocks[i].used == old(blocks[i].used)
    {
      hide Joined;
      var last := blocks[|blocks| - 1];
      var taken := last.Fill(s);
      JoinedLast(parts, s[..taken]);
      parts := parts[|parts| - 1 := last.Data()];
      rest := s[taken..];
    }

    method AddBlock()
      requires Layout() && (blocks == [] || blocks[|blocks| - 1].free == 0)
      modifies this`parts, this`blocks
      ensures Layout() && |blocks| == old(|blocks|) + 1 && blocks[..|blocks| - 1] == old(blocks)
      ensures var last := blocks[|blocks| - 1]; fresh(last) && fresh(last.buf) && last.used == 0 < last.free
      ensures Contents() == old(Contents())
    {
      hide Joined;
      var block := new Block(size);
      JoinedSnoc(parts, []);
      assert Joined(parts) + [] == Joined(parts);
      blocks, parts := blocks + [block], parts + [[]];
    }

    /** Between two turns of the appending loop only the last block may be
        empty, and only if bytes remain. */
    ghost predicate Filling(rest: bytes)
      reads this`blocks, this`parts, blocks, set i | 0 <= i < |blocks| :: blocks[i].buf
    {
      Layout() && forall i | 0 <= i < |blocks| :: blocks[i].used > 0 || (i == |blocks| - 1 && rest != [])
    }

    function Room(): nat
      reads this, blocks
    {
      if blocks == [] then 0 else blocks[|blocks| - 1].free
    }

    ghost function LastBlock(): set<object>
      reads this`blocks
    {
      if blocks == [] then {} else {blocks[|blocks| - 1], blocks[|blocks| - 1].buf}
    }

    /** One turn of the loop of aofRewriteBufferAppend. */
    method AppendSome(s: bytes) returns (rest: bytes)
      requires Filling(s) && s != []
      modifies this`parts, this`blocks, LastBlock()
      ensures Filling(rest) && |rest| <= |s| && rest == s[|s| - |rest|..]
      ensures Contents() == old(Contents()) + s[..|s| - |rest|]
      ensures |rest| < |s| || (old(Room()) == 0 && Room() > 0)
      ensures |blocks| >= |old(blocks)| && blocks[..|old(blocks)|] == old(blocks)
      ensures forall i | |old(blocks)| <= i < |blocks| :: fresh(blocks[i]) && fresh(blocks[i].buf)
    {
      hide Joined, Layout;
      rest := s;
      if blocks != [] {
        rest := FillLast(rest);
      }
      if rest != [] {
        AddBlock();
      }
    }

    /** aofRewriteBufferAppend */
    method Append(s: bytes)
      requires Valid()
      modifies this, blocks, set i | 0 <= i < |blocks| :: blocks[i].buf
      ensures Valid() && Contents() == old(Contents()) + s && writable
    {
      hide Joined, Layout, Filling, Valid, Contents;
      var rest := s;
      ghost var kept := blocks;
      ValidIsFilling(rest);
      while rest != []
        invariant Filling(rest) && Contents() + rest == old(Contents()) + s
        invariant |kept| <= |blocks| && forall i | 0 <= i < |kept| :: blocks[i] == kept[i]
        invariant forall i | |kept| <= i < |blocks| :: fresh(blocks[i]) && fresh(blocks[i].buf)
        decreases |rest|, if Room() == 0 then 1 else 0
      {
        var before := rest;
        ghost var had := Contents();
        if |blocks| > |kept| {
          assert fresh(LastBlock());
        } else if blocks != [] {
          assert blocks[|blocks| - 1] == kept[|kept| - 1];
        }
        rest := AppendSome(before);
        TakenInOrder(had, before, |before| - |rest|);
      }
      writable := true;
      ValidIsFilling([]);
    }

    lemma TakenInOrder(c: bytes, s: bytes, n: nat)
      requires n <= |s|
      ensures c + s[..n] + s[n..] == c + s
    {
    }

    lemma ValidIsFilling(rest: bytes)
      ensures Valid() ==> Filling(rest)
      ensures Filling([]) ==> Valid()
    {
    }

    /** One write to the pipe of at most the first block, which is deleted once
        it is empty. */
    method SendSome(n: nat) returns (sent: bytes)
      requires Valid() && blocks != [] && 0 < n <= blocks[0].used
      modifies this`parts, this`blocks, blocks[0], blocks[0].buf
      ensures Valid() && |sent| == n && old(Contents()) == sent + Contents()
      ensures blocks == old(blocks) || blocks == old(blocks)[1..]
    {
      hide Joined;
      var block := blocks[0];
      sent := block.Data()[..n];
      JoinedFirst(parts, n);
      block.Drop(n);
      parts := parts[0 := block.Data()];
      if block.used == 0 {
        DeleteFirst();
      }
    }

    method DeleteFirst()
      requires Layout() && blocks != [] && blocks[0].used == 0
      requires forall i | 0 < i < |blocks| :: blocks[i].used > 0
      modifies this`parts, this`blocks
      ensures Valid() && Contents() == old(Contents()) && blocks == old(blocks)[1..]
    {
      blocks, parts := blocks[1..], parts[1..];
    }

    /** aofChildWriteDiffData: the blocks go to the pipe until the kernel takes
        no more, the child has asked to stop, or nothing is left; in the last
        two cases the handler is removed. */
    method ChildWriteDiffData(stop: bool, kernel: seq<int>) returns (sent: bytes)
      requires Valid()
      modifies this, blocks, set i | 0 <= i < |blocks| :: blocks[i].buf
      ensures Valid() && old(Contents()) == sent + Contents()
      ensures stop ==> sent == []
      ensures writable == (if stop || Contents() == [] then false else old(writable))
    {
      hide Joined, Layout;
      sent := [];
      var call: nat := 0;
      while true
        invariant Valid() && |blocks| <= |old(blocks)| && blocks == old(blocks)[|old(blocks)| - |blocks|..]
        invariant old(Contents()) == sent + Contents() && (stop ==> sent == []) && writable == old(writable)
        decreases |Contents()|
      {
        EmptyIff();
        if stop || blocks == [] {
          writable := false;
          return;
        }
        var nwritten := Written(kernel, call, blocks[0].used);
        call := call + 1;
        if nwritten <= 0 {
          return;
        }
        var some := SendSome(nwritten);
        sent := sent + some;
      }
    }

    lemma EmptyIff()
      requires Valid()
      ensures Contents() == [] <==> blocks == []
    {
    }

    /** aofRewriteBufferWrite: what reaches the file, and the byte count or -1. */
    method Write(kernel: seq<int>) returns (count: int, out: bytes)
      requires Valid()
      ensures out <= Contents()
      ensures count == -1 || (count == |out| && out == Contents())
      ensures (forall i | 0 <= i < |blocks| :: i < |kernel| && kernel[i] == blocks[i].used) ==> count >= 0
    {
      hide Joined;
      count, out := 0, [];
      assert parts[..0] == [] && Joined([]) == [] by { NoParts(); }
      for i := 0 to |blocks|
        invariant count == |out| && out == Joined(parts[..i])
      {
        var block := blocks[i];
        assert parts[..i + 1] == parts[..i] + [parts[i]];
        JoinedSnoc(parts[..i], parts[i]);
        JoinedPrefix(parts, i + 1);
        if block.used > 0 {
          var nwritten := Written(kernel, i, block.used);
          if nwritten != block.used {
            if nwritten > 0 {
              out := out + block.Data()[..nwritten];
            }
            return -1, out;
          }
          count, out := count + nwritten, out + block.Data();
        }
      }
      assert parts[..|blocks|] == parts;
    }

    /** aofRewriteBufferReset */
    method Reset()
      requires size > 0
      modifies this
      ensures Valid() && Contents() == [] && writable == old(writable)
    {
      blocks, parts := [], [];
    }

    /** The end of backgroundRewriteDoneHandler: the rest is written behind the
        child's file, and whether that works or not the buffer is emptied. */
    method WriteAndReset(kernel: seq<int>) returns (ok: bool, out: bytes)
      requires Valid() && size > 0
      modifies this
      ensures Valid() && Contents() == [] && writable == old(writable)
      ensures out <= old(Contents()) && (ok ==> out == old(Contents()))
      ensures old(forall i | 0 <= i < |blocks| :: i < |kernel| && kernel[i] == blocks[i].used) ==> ok
    {
      hide Joined;
      ghost var whole := forall i | 0 <= i < |blocks| :: i < |kernel| && kernel[i] == blocks[i].used;
      var count;
      count, out := Write(kernel);
      assert whole ==> count >= 0;
      ok := count != -1;
      Reset();
    }

    /** aofRewriteBufferSize */
    method Size() returns (n: nat)
      requires Valid()
      ensures n == |Contents()|
    {
      hide Joined;
      n := 0;
      assert parts[..0] == [] && Joined([]) == [] by { NoParts(); }
      for i := 0 to |blocks|
        invariant n == |Joined(parts[..i])|
      {
        assert parts[..i + 1] == parts[..i] + [parts[i]];
        JoinedSnoc(parts[..i], parts[i]);
        n := n + blocks[i].used;
      }
      assert parts[..|blocks|] == parts;
    }

    /** Memory stays proportional to the data: every block but two is full. */
    lemma BlocksAreFull()
      requires Valid()
      ensures |blocks| > 2 ==> (|blocks| - 2) * size <= |Contents()|
    {
      if |blocks| > 2 {
        assert parts == [parts[0]] + parts[1..|blocks| - 1] + [parts[|blocks| - 1]];
        FullParts(parts[1..|blocks| - 1], size);
        JoinedSnoc(parts[..|blocks| - 1], parts[|blocks| - 1]);
        assert parts[..|blocks| - 1][1..] == parts[1..|blocks| - 1];
        assert parts[..|blocks| - 1] + [parts[|blocks| - 1]] == parts;
      }
    }
  }

  lemma NoParts()
    ensures Joined([]) == []
  {
  }

  lemma {:induction false} JoinedPrefix(parts: seq<bytes>, n: nat)
    requires n <= |parts|
    ensures Joined(parts[..n]) <= Joined(parts)
  {
    if n > 0 {
      JoinedPrefix(parts[1..], n - 1);
      assert parts[..n][1..] == parts[1..][..n - 1];
    }
  }

  lemma {:induction false} FullParts(parts: seq<bytes>, size: nat)
    requires forall i | 0 <= i < |parts| :: |parts[i]| == size
    ensures |Joined(parts)| == |parts| * size
  {
    if parts != [] {
      FullParts(parts[1..], size);
    }
  }
}
