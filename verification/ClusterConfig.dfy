/**
 The slots of nodes.conf: every node's slots are printed from its bitmap and
 loaded through clusterAddSlot, which rebuilds the table, the bitmaps and the
 counters (clusterGenNodeDescription and clusterLoadConfig in
 server/src/cluster.c).
 */
module ClusterConfig {
  import opened Options
  import opened Decimal
  import opened Bitmaps
  import opened ClusterTable
  import Ranges = SlotRanges

  /** The slots of a node as clusterGenNodeDescription prints them. */
  method SlotsText(c: Cluster, n: ClusterNode) returns (ci: bytes)
    requires c.Valid() && n in c.nodes
    ensures ci == Ranges.Text(Ranges.BitsOf(c.Owners(), n.name), c.slotCount)
  {
    hide Ranges.Text, Bit, Count;
    ghost var bits := Ranges.BitsOf(c.Owners(), n.name);
    OwnBits(c, n);
    if n.numslots == 0 {
      NoSlots(c, n);
      return [];
    }
    var own: seq<bool> := [];
    for j := 0 to c.slotCount
      invariant own == bits[..j]
    {
      var bit := TestBit(n.slots, j);
      own := own + [bit];
    }
    assert own == bits;
    ci := Ranges.GenNodeSlots(own);
  }

  lemma OwnBits(c: Cluster, n: ClusterNode)
    requires c.Valid() && n in c.nodes
    ensures |c.Owners()| == c.slotCount
    ensures forall j | 0 <= j < c.slotCount :: Ranges.BitsOf(c.Owners(), n.name)[j] == Bit(n.slots[..], j)
  {
    hide Bit, Count;
    forall j | 0 <= j < c.slotCount
      ensures Ranges.BitsOf(c.Owners(), n.name)[j] == Bit(n.slots[..], j)
    {
      assert c.slots[j] != null ==> c.slots[j] in c.nodes;
    }
  }

  lemma NoSlots(c: Cluster, n: ClusterNode)
    requires c.Valid() && n in c.nodes && n.numslots == 0
    ensures Ranges.Text(Ranges.BitsOf(c.Owners(), n.name), c.slotCount) == []
  {
    var bits := Ranges.BitsOf(c.Owners(), n.name);
    c.ServesIff(n);
    OwnBits(c, n);
    Ranges.TextSame(bits, 0, c.slotCount);
    Ranges.TextOfNothing(bits);
  }

  /** The loop of clusterLoadConfig over the slot words of one line: slots that
      have an owner keep it, and the bitmap and the counter follow. */
  method LoadSlots(c: Cluster, n: ClusterNode, words: seq<bytes>) returns (ok: bool)
    requires c.Valid() && n in c.nodes
    modifies c.slots, n.slots, n`numslots
    ensures c.Valid()
    ensures ok == Ranges.AddWords(old(c.Owners()), n.name, words).Some?
    ensures ok ==> Ranges.AddWords(old(c.Owners()), n.name, words) == Some(c.Owners())
  {
    hide Bit, Count, Ranges.ParseWord;
    ghost var t0 := c.Owners();
    for i := 0 to |words|
      invariant c.Valid()
      invariant Ranges.AddWords(t0, n.name, words[..i]) == Some(c.Owners())
    {
      assert words[..i + 1][..i] == words[..i];
      var (start, stop) := Ranges.ParseWord(words[i]);
      if start < 0 || start >= c.slotCount || stop < 0 || stop >= c.slotCount {
        Ranges.FailsForGood(t0, n.name, words, i + 1);
        return false;
      }
      ghost var t1 := c.Owners();
      var s := start;
      while s <= stop
        invariant c.Valid() && start <= s && (s <= stop + 1 || s == start)
        invariant forall j | 0 <= j < c.slotCount ::
                    c.Owners()[j] == if start <= j < s && j <= stop && t1[j].None? then Some(n.name) else t1[j]
      {
        var _ := c.AddSlot(n, s);
        s := s + 1;
      }
      assert c.Owners() == Ranges.AddRange(t1, n.name, start, stop);
    }
    assert words[..|words|] == words;
    ok := true;
  }

  ghost function NamesOf(nodes: seq<ClusterNode>): seq<Ranges.NodeId> {
    seq(|nodes|, i requires 0 <= i < |nodes| => nodes[i].name)
  }

  lemma NamesNext(nodes: seq<ClusterNode>, i: nat)
    requires i < |nodes|
    ensures NamesOf(nodes[..i + 1]) == NamesOf(nodes[..i]) + [nodes[i].name]
  {
  }

  /** The two clusters share no memory and know the same names. */
  ghost predicate Apart(from: Cluster, to: Cluster)
    reads from`nodes, to`nodes
  {
    && from.slotCount == to.slotCount && from.slots != to.slots && from.nodes !! to.nodes
    && (forall n, m | n in from.nodes && m in to.nodes :: n.slots != m.slots)
    && (forall n | n in from.nodes :: exists m :: m in to.nodes && m.name == n.name)
    && forall m | m in to.nodes :: exists n :: n in from.nodes && n.name == m.name
  }

  /** Owners and bitmaps say the same, so the bitmaps and counters of equal
      tables are equal. */
  lemma SameIndexes(a: Cluster, b: Cluster, n: ClusterNode, m: ClusterNode)
    requires a.Valid() && b.Valid() && a.slotCount == b.slotCount && a.Owners() == b.Owners()
    requires n in a.nodes && m in b.nodes && n.name == m.name
    ensures n.numslots == m.numslots
    ensures forall j | 0 <= j < a.slotCount :: Bit(n.slots[..], j) == Bit(m.slots[..], j)
  {
    OwnBits(a, n);
    OwnBits(b, m);
    CountSame(n.slots[..], m.slots[..], a.slotCount);
  }

  /** A cluster whose memory is as it was is valid as it was. */
  twostate lemma Untouched(c: Cluster)
    requires old(c.Valid()) && c.slots[..] == old(c.slots[..]) && unchanged(c`nodes) && unchanged(c.nodes)
    requires forall n | n in c.nodes :: n.slots[..] == old(n.slots[..])
    ensures c.Valid() && c.Owners() == old(c.Owners())
  {
    hide Bit, Count;
    assert forall j | 0 <= j < c.slotCount :: c.slots[j] == c.slots[..][j] && old(c.slots[j]) == old(c.slots[..])[j];
  }

  /** One line: printed from one cluster, loaded into the other. */
  method ReloadNode(from: Cluster, to: Cluster, n: ClusterNode, ghost ids: seq<Ranges.NodeId>)
    requires from.Valid() && to.Valid() && Apart(from, to) && n in from.nodes
    requires to.Owners() == Ranges.OwnedBy(from.Owners(), ids)
    modifies to.slots, to.nodes`numslots, set m | m in to.nodes :: m.slots
    ensures from.Valid() && to.Valid() && from.Owners() == old(from.Owners())
    ensures to.Owners() == Ranges.OwnedBy(from.Owners(), ids + [n.name])
  {
    hide Bit, Count, Ranges.AddWords, Ranges.Text, Ranges.Words, Ranges.OwnedBy, Cluster.Indexed;
    var text := SlotsText(from, n);
    var m :| m in to.nodes && m.name == n.name;
    Ranges.LoadOne(from.Owners(), ids, n.name);
    var ok := LoadSlots(to, m, Ranges.Words(text));
    assert ok;
    assert m !in from.nodes && forall k | k in from.nodes :: k.slots != m.slots;
    Untouched(from);
  }

  /** Saving and loading: the slots of all nodes of a cluster, printed from their
      bitmaps in any order and loaded into an empty one, make it equal to the
      first in the table, the bitmaps and the counters. */
  method Reload(from: Cluster, to: Cluster, nodes: seq<ClusterNode>)
    requires from.Valid() && to.Valid() && Apart(from, to)
    requires forall n :: n in nodes <==> n in from.nodes
    requires forall j | 0 <= j < to.slotCount :: to.slots[j] == null
    modifies to.slots, to.nodes`numslots, set m | m in to.nodes :: m.slots
    ensures to.Valid() && to.Owners() == from.Owners()
    ensures forall n, m | n in from.nodes && m in to.nodes && n.name == m.name ::
              && m.numslots == n.numslots
              && forall j | 0 <= j < from.slotCount :: Bit(m.slots[..], j) == Bit(n.slots[..], j)
  {
    hide Bit, Count, Ranges.OwnedBy, Cluster.Indexed, NamesOf;
    ghost var table := from.Owners();
    NothingOwned(from, to);
    assert nodes[..0] == [];
    for i := 0 to |nodes|
      invariant from.Valid() && to.Valid() && from.Owners() == table
      invariant to.Owners() == Ranges.OwnedBy(table, NamesOf(nodes[..i]))
    {
      ReloadNode(from, to, nodes[i], NamesOf(nodes[..i]));
      NamesNext(nodes, i);
    }
    assert nodes[..|nodes|] == nodes;
    AllOwned(from, nodes);
    forall n, m | n in from.nodes && m in to.nodes && n.name == m.name
      ensures m.numslots == n.numslots
      ensures forall j | 0 <= j < from.slotCount :: Bit(m.slots[..], j) == Bit(n.slots[..], j)
    {
      SameIndexes(from, to, n, m);
    }
  }

  lemma NothingOwned(from: Cluster, to: Cluster)
    requires from.Valid() && to.Valid() && from.slotCount == to.slotCount
    requires forall j | 0 <= j < to.slotCount :: to.slots[j] == null
    ensures to.Owners() == Ranges.OwnedBy(from.Owners(), NamesOf([]))
  {
  }

  lemma AllOwned(c: Cluster, nodes: seq<ClusterNode>)
    requires c.Valid() && forall n :: n in nodes <==> n in c.nodes
    ensures Ranges.OwnedBy(c.Owners(), NamesOf(nodes)) == c.Owners()
  {
    hide Bit, Count;
    forall j | 0 <= j < c.slotCount && c.slots[j] != null
      ensures c.slots[j].name in NamesOf(nodes)
    {
      assert c.slots[j] in nodes;
      var i :| 0 <= i < |nodes| && nodes[i] == c.slots[j];
      assert NamesOf(nodes)[i] == c.slots[j].name;
    }
  }
}
