/**
 The slot table of one node as server/src/cluster.c keeps it: an array from
 slots to clusterNode objects, mirrored in a bitmap and a counter inside every
 clusterNode.  The handlers that loop over slots or nodes are methods here;
 each is proved to turn the node's view (`View`) into the one the bus model's
 function gives.
 */
module ClusterTable {
  import opened Options
  import opened Bitmaps
  import Bus = ClusterBus

  class ClusterNode {
    const name: Bus.NodeId
    const slots: array<bv8>
    var configEpoch: nat
    var master: bool
    var slaveof: ClusterNode?
    var failed: bool
    var numslots: int

    /** createClusterNode */
    constructor (name: Bus.NodeId, slotBytes: nat, master: bool)
      ensures this.name == name && this.master == master
      ensures configEpoch == 0 && slaveof == null && !failed && numslots == 0
      ensures fresh(slots) && slots.Length == slotBytes
      ensures forall i | 0 <= i < 8 * slotBytes :: !Bit(slots[..], i)
    {
      this.name := name;
      this.master := master;
      this.configEpoch, this.slaveof, this.failed, this.numslots := 0, null, false, 0;
      this.slots := new bv8[slotBytes](_ => 0);
    }
  }

  function NameOf(n: ClusterNode?): Option<Bus.NodeId> {
    if n == null then None else Some(n.name)
  }

  function Names(owners: seq<ClusterNode?>): seq<Option<Bus.NodeId>> {
    seq(|owners|, j requires 0 <= j < |owners| => NameOf(owners[j]))
  }

  class Cluster {
    const slotCount: nat
    const slots: array<ClusterNode?>
    const importing: array<bool>
    const myself: ClusterNode
    var nodes: set<ClusterNode>
    var currentEpoch: nat
    var lastVoteEpoch: nat
    var size: nat
    var authEpoch: nat
    var authCount: nat
    var authSent: bool

    /** clusterInit: a node that knows only itself and serves nothing. */
    constructor (slotCount: nat, name: Bus.NodeId)
      requires slotCount % 8 == 0
      ensures Valid() && this.slotCount == slotCount && myself.name == name && nodes == {myself}
      ensures forall j | 0 <= j < slotCount :: slots[j] == null && !importing[j]
      ensures fresh(slots) && fresh(importing) && fresh(myself) && fresh(myself.slots)
    {
      var self := new ClusterNode(name, slotCount / 8, true);
      this.slotCount, myself, nodes := slotCount, self, {self};
      slots := new ClusterNode?[slotCount](_ => null);
      importing := new bool[slotCount](_ => false);
      currentEpoch, lastVoteEpoch, size, authEpoch, authCount, authSent := 0, 0, 1, 0, 0, false;
      new;
      CountZero(self.slots[..], slotCount);
    }

    /** The objects are laid out as the C structures are: no array is shared. */
    ghost predicate Layout()
      reads `nodes
    {
      && slotCount % 8 == 0 && slots.Length == slotCount && importing.Length == slotCount
      && myself in nodes
      && (forall n | n in nodes :: 8 * n.slots.Length == slotCount)
      && (forall n, m | n in nodes && m in nodes && n != m :: n.slots != m.slots && n.name != m.name)
    }

    ghost predicate Shape()
      reads `nodes, nodes`slaveof
    {
      Layout() && forall n | n in nodes :: n.slaveof != null ==> n.slaveof in nodes && n.slaveof != n
    }

    /** The two-way index: a slot's owner is the node with the slot's bit. */
    ghost predicate Indexed()
      requires Layout()
      reads `nodes, nodes`numslots, slots, set n | n in nodes :: n.slots
    {
      && (forall j | 0 <= j < slotCount :: slots[j] != null ==> slots[j] in nodes)
      && (forall n, j | n in nodes && 0 <= j < slotCount :: Bit(n.slots[..], j) <==> slots[j] == n)
      && (forall n | n in nodes :: n.numslots == Count(n.slots[..], slotCount))
    }

    ghost predicate Valid()
      reads `nodes, nodes`numslots, nodes`slaveof, slots, set n | n in nodes :: n.slots
    {
      Shape() && Indexed()
    }

    /** clusterNodeSetSlotBit, on a slot that is free. */
    method SetSlotBit(n: ClusterNode, slot: nat) returns (was: bool)
      requires Shape() && n in nodes && slot < slotCount && n.numslots == Count(n.slots[..], slotCount)
      modifies n.slots, n`numslots
      ensures was == old(Bit(n.slots[..], slot))
      ensures forall i | 0 <= i < slotCount :: Bit(n.slots[..], i) == (i == slot || old(Bit(n.slots[..], i)))
      ensures n.numslots == Count(n.slots[..], slotCount)
      ensures n.numslots == old(n.numslots) + if was then 0 else 1
    {
      ghost var before := n.slots[..];
      was := TestBit(n.slots, slot);
      SetBit(n.slots, slot);
      if !was {
        CountOneMore(before, n.slots[..], slotCount, slot);
        n.numslots := n.numslots + 1;
      } else {
        CountSame(before, n.slots[..], slotCount);
      }
    }

    /** clusterNodeClearSlotBit */
    method ClearSlotBit(n: ClusterNode, slot: nat) returns (was: bool)
      requires Shape() && n in nodes && slot < slotCount && n.numslots == Count(n.slots[..], slotCount)
      modifies n.slots, n`numslots
      ensures was == old(Bit(n.slots[..], slot))
      ensures forall i | 0 <= i < slotCount :: Bit(n.slots[..], i) == (i != slot && old(Bit(n.slots[..], i)))
      ensures n.numslots == Count(n.slots[..], slotCount)
      ensures n.numslots == old(n.numslots) - if was then 1 else 0
    {
      ghost var before := n.slots[..];
      was := TestBit(n.slots, slot);
      ClearBit(n.slots, slot);
      if was {
        CountOneMore(n.slots[..], before, slotCount, slot);
        n.numslots := n.numslots - 1;
      } else {
        CountSame(before, n.slots[..], slotCount);
      }
    }

    /** clusterAddSlot: a slot with an owner is refused. */
    method AddSlot(n: ClusterNode, slot: nat) returns (ok: bool)
      requires Valid() && n in nodes && slot < slotCount
      modifies slots, n.slots, n`numslots
      ensures Valid()
      ensures ok == (old(slots[slot]) == null)
      ensures n.numslots == old(n.numslots) + if ok then 1 else 0
      ensures slots[..] == if ok then old(slots[..])[slot := n] else old(slots[..])
    {
      hide Bit, Count;
      if slots[slot] != null {
        return false;
      }
      var _ := SetSlotBit(n, slot);
      slots[slot] := n;
      ok := true;
    }

    /** clusterDelSlot: the bit of the slot's owner was set, so the assertion
        in the source holds. */
    method DelSlot(slot: nat) returns (ok: bool)
      requires Valid() && slot < slotCount
      modifies slots, set n | n in nodes && n == slots[slot] :: n.slots
      modifies (set n | n in nodes && n == slots[slot])`numslots
      ensures Valid()
      ensures ok == (old(slots[slot]) != null)
      ensures slots[..] == old(slots[..])[slot := null]
      ensures ok ==> var n := old(slots[slot]); n.numslots == old(n.numslots) - 1
    {
      hide Bit, Count;
      var n := slots[slot];
      if n == null {
        assert slots[..] == slots[..][slot := null];
        return false;
      }
      var was := ClearSlotBit(n, slot);
      assert was;
      slots[slot] := null;
      ok := true;
    }

    // ----------------------------------------------------------------
    // The view the bus model speaks about
    // ----------------------------------------------------------------

    ghost function PeerOf(n: ClusterNode): Bus.Peer
      reads n
    {
      Bus.Peer(n.configEpoch, n.master, if n.slaveof == null then None else Some(n.slaveof.name), n.failed)
    }

    ghost function Peers(): map<Bus.NodeId, Bus.Peer>
      requires Shape()
      reads `nodes, nodes
    {
      map n | n in nodes :: n.name := PeerOf(n)
    }

    ghost function Owners(): seq<Option<Bus.NodeId>>
      reads slots
    {
      Names(slots[..])
    }

    ghost function Importing(): set<nat>
      reads importing
    {
      set j | 0 <= j < importing.Length && importing[j]
    }

    ghost function View(): Bus.Node
      requires Shape()
      reads this, nodes, slots, importing
    {
      Bus.Node(currentEpoch, lastVoteEpoch, Peers(), Owners(), Importing(), size, authEpoch, authCount, authSent)
    }

    /** The slots a bitmap of a packet stands for. */
    ghost function Claimed(bitmap: seq<bv8>): set<nat> {
      set j | 0 <= j < 8 * |bitmap| && Bit(bitmap, j)
    }

    lemma ViewWellFormed()
      requires Valid()
      ensures Bus.WellFormed(myself.name, View())
      ensures forall n | n in nodes :: n.name in View().peers && View().peers[n.name] == PeerOf(n)
    {
      forall j | 0 <= j < slotCount && slots[j] != null
        ensures slots[j].name in View().peers
      {
      }
    }

    /** `numslots`, the bitmap and the owners agree on who serves slots. */
    lemma ServesIff(n: ClusterNode)
      requires Valid() && n in nodes
      ensures (n.numslots == 0) == (forall j | 0 <= j < slotCount :: slots[j] != n)
      ensures Bus.Serves(View(), n.name) == (n.numslots != 0)
      ensures Bus.SlotsOf(View(), n.name) == Claimed(n.slots[..])
    {
      CountZero(n.slots[..], slotCount);
      forall j | 0 <= j < slotCount
        ensures Bit(n.slots[..], j) <==> View().slots[j] == Some(n.name)
      {
        assert slots[j] != null ==> slots[j] in nodes;
      }
      if n.numslots != 0 {
        var j :| 0 <= j < slotCount && slots[j] == n;
        assert View().slots[j] == Some(n.name);
      }
    }

    /** Whether the claim of `sender` under `epoch` takes slot `j` over. */
    ghost predicate Takes(sender: ClusterNode, epoch: nat, j: nat, owner: ClusterNode?)
      requires j < importing.Length
      reads importing, owner
    {
      owner != sender && !importing[j] && (owner == null || owner.configEpoch < epoch)
    }

    /** clusterDelSlot followed by clusterAddSlot. */
    method RebindSlot(n: ClusterNode, slot: nat)
      requires Valid() && n in nodes && slot < slotCount
      modifies slots, nodes`numslots, set m | m in nodes :: m.slots
      ensures Valid()
      ensures slots[..] == old(slots[..])[slot := n]
    {
      hide Indexed;
      var _ := DelSlot(slot);
      var _ := AddSlot(n, slot);
    }

    /** The slots a claim of `sender` under `epoch` takes over. */
    ghost function Moved(sender: ClusterNode, epoch: nat, claimed: seq<bv8>): set<nat>
      requires Shape() && 8 * |claimed| == slotCount
      reads this, nodes, slots, importing, set j | 0 <= j < slots.Length && slots[j] != null :: slots[j]
    {
      set j | 0 <= j < slotCount && Bit(claimed, j) && Takes(sender, epoch, j, slots[j])
    }

    /** What the loop over claimed slots has noted before slot `j`: the slots this
        node loses while it has keys in them, whether slots of `curmaster` moved,
        and how many slots were claimed and moved away from it. */
    ghost predicate Noted(was: seq<ClusterNode?>, moved: set<nat>, bits: set<nat>, keys: set<nat>,
                          curmaster: ClusterNode?, j: nat, dirty: seq<nat>, newmaster: bool, claims: int, migrated: int)
      requires forall k | k in moved :: 0 <= k < |was|
    {
      && (forall k :: k in dirty <==> k < j && k in moved && was[k] == myself && k in keys)
      && (newmaster <==> exists k :: k < j && k in moved && was[k] == curmaster)
      && migrated <= claims
      && (migrated == claims <==> forall k | k in bits && k < j :: k in moved && was[k] == curmaster)
    }

    lemma NotedNothing(was: seq<ClusterNode?>, moved: set<nat>, bits: set<nat>, keys: set<nat>, curmaster: ClusterNode?)
      requires forall k | k in moved :: 0 <= k < |was|
      ensures Noted(was, moved, bits, keys, curmaster, 0, [], false, 0, 0)
    {
    }

    /** A slot that does not move, claimed or not. */
    lemma NotedStay(was: seq<ClusterNode?>, moved: set<nat>, bits: set<nat>, keys: set<nat>,
                    curmaster: ClusterNode?, j: nat, dirty: seq<nat>, newmaster: bool, claims: int, migrated: int)
      requires forall k | k in moved :: 0 <= k < |was|
      requires Noted(was, moved, bits, keys, curmaster, j, dirty, newmaster, claims, migrated) && j !in moved
      ensures Noted(was, moved, bits, keys, curmaster, j + 1, dirty, newmaster,
                    if j in bits then claims + 1 else claims, migrated)
    {
    }

    lemma NotedMove(was: seq<ClusterNode?>, moved: set<nat>, bits: set<nat>, keys: set<nat>,
                    curmaster: ClusterNode?, j: nat, dirty: seq<nat>, newmaster: bool, claims: int, migrated: int)
      requires forall k | k in moved :: 0 <= k < |was|
      requires Noted(was, moved, bits, keys, curmaster, j, dirty, newmaster, claims, migrated)
      requires j in moved && j in bits
      ensures Noted(was, moved, bits, keys, curmaster, j + 1,
                    if was[j] == myself && j in keys then dirty + [j] else dirty,
                    newmaster || was[j] == curmaster, claims + 1,
                    if was[j] == curmaster then migrated + 1 else migrated)
    {
    }

    lemma InClaimed(claimed: seq<bv8>, j: nat)
      requires j < 8 * |claimed|
      ensures j in Claimed(claimed) <==> Bit(claimed, j)
    {
    }

    /** The loop of clusterUpdateSlotsConfigWith: which slots change hands,
        which of them this node loses while it has keys in them (`dirty`), and
        whether slots of `curmaster` moved, or nothing else did. */
    method TakeOver(sender: ClusterNode, epoch: nat, claimed: array<bv8>, curmaster: ClusterNode?, keys: set<nat>)
      returns (dirty: seq<nat>, newmaster: bool, onlyOurs: bool)
      requires Valid() && sender in nodes && sender != myself && 8 * claimed.Length == slotCount
      requires forall n | n in nodes :: claimed != n.slots
      modifies slots, nodes`numslots, set n | n in nodes :: n.slots
      ensures Valid()
      ensures var moved := old(Moved(sender, epoch, claimed[..]));
              && (forall k | 0 <= k < slotCount :: slots[k] == if k in moved then sender else old(slots[k]))
              && (forall k :: k in dirty <==> k in moved && old(slots[k]) == myself && k in keys)
              && (newmaster <==> exists k :: k in moved && old(slots[k]) == curmaster)
              && (onlyOurs <==> forall k | k in Claimed(claimed[..]) :: k in moved && old(slots[k]) == curmaster)
    {
      hide Indexed, Bit, Claimed, Noted;
      ghost var was, moved, bits := slots[..], Moved(sender, epoch, claimed[..]), Claimed(claimed[..]);
      var senderSlots, migrated := 0, 0;
      dirty, newmaster := [], false;
      NotedNothing(was, moved, bits, keys, curmaster);
      for j := 0 to slotCount
        invariant Valid()
        invariant forall k | 0 <= k < slotCount :: slots[k] == if k < j && k in moved then sender else was[k]
        invariant Noted(was, moved, bits, keys, curmaster, j, dirty, newmaster, senderSlots, migrated)
      {
        var bit := TestBit(claimed, j);
        InClaimed(claimed[..], j);
        var owner := slots[j];
        if bit && owner != sender && !importing[j] && (owner == null || owner.configEpoch < epoch) {
          assert j in moved;
          NotedMove(was, moved, bits, keys, curmaster, j, dirty, newmaster, senderSlots, migrated);
          senderSlots := senderSlots + 1;
          if owner == myself && j in keys && sender != myself {
            dirty := dirty + [j];
          }
          if owner == curmaster {
            newmaster, migrated := true, migrated + 1;
          }
          RebindSlot(sender, j);
        } else {
          assert j !in moved;
          NotedStay(was, moved, bits, keys, curmaster, j, dirty, newmaster, senderSlots, migrated);
          if bit {
            senderSlots := senderSlots + 1;
          }
        }
      }
      onlyOurs := senderSlots == migrated;
      AllNoted(was, moved, claimed[..], keys, curmaster, dirty, newmaster, senderSlots, migrated);
    }

    lemma AllNoted(was: seq<ClusterNode?>, moved: set<nat>, claimed: seq<bv8>, keys: set<nat>,
                   curmaster: ClusterNode?, dirty: seq<nat>, newmaster: bool, claims: int, migrated: int)
      requires 8 * |claimed| == slotCount == |was| && forall k | k in moved :: 0 <= k < |was|
      requires Noted(was, moved, Claimed(claimed), keys, curmaster, slotCount, dirty, newmaster, claims, migrated)
      ensures forall k :: k in dirty <==> k in moved && was[k] == myself && k in keys
      ensures newmaster <==> exists k :: k in moved && was[k] == curmaster
      ensures claims == migrated <==> forall k | k in Claimed(claimed) :: k in moved && was[k] == curmaster
    {
    }

    lemma MovedAreRebound(sender: ClusterNode, epoch: nat, claimed: seq<bv8>)
      requires Valid() && sender in nodes && 8 * |claimed| == slotCount
      ensures Bus.WellFormed(myself.name, View())
      ensures forall k | 0 <= k < slotCount ::
                k in Moved(sender, epoch, claimed) <==>
                  k in Claimed(claimed) && Bus.Rebinds(View(), sender.name, epoch, k)
    {
      hide Bit;
      ViewWellFormed();
      forall k | 0 <= k < slotCount
        ensures k in Moved(sender, epoch, claimed) <==>
                k in Claimed(claimed) && Bus.Rebinds(View(), sender.name, epoch, k)
      {
        if slots[k] != null {
          assert slots[k] in nodes && View().peers[slots[k].name] == PeerOf(slots[k]);
        }
      }
    }

    twostate lemma PeersKept()
      requires old(Shape()) && Shape() && nodes == old(nodes)
      requires forall n | n in nodes ::
                 n.configEpoch == old(n.configEpoch) && n.master == old(n.master) && n.slaveof == old(n.slaveof)
                     && n.failed == old(n.failed)
      ensures Peers() == old(Peers())
    {
      forall n | n in nodes
        ensures PeerOf(n) == old(PeerOf(n))
      {
      }
    }

    /** A table changed on `moved` alone is the one the bus model computes. */
    lemma OwnersRebound(v: Bus.Node, was: seq<ClusterNode?>, sender: ClusterNode, epoch: nat, claimed: set<nat>,
        moved: set<nat>)
      requires slots.Length == slotCount == |was| && sender.name != myself.name
      requires Bus.WellFormed(myself.name, v) && v.slots == Names(was)
      requires forall k | 0 <= k < slotCount :: slots[k] == if k in moved then sender else was[k]
      requires forall k | 0 <= k < slotCount :: k in moved <==> k in claimed && Bus.Rebinds(v, sender.name, epoch, k)
      ensures Owners() == Bus.UpdateSlots(myself.name, v, sender.name, epoch, claimed).slots
    {
    }

    /** The loop again, as a change of the view. */
    method AdoptClaim(sender: ClusterNode, epoch: nat, claimed: array<bv8>, curmaster: ClusterNode?, keys: set<nat>)
      returns (dirty: seq<nat>, newmaster: bool, onlyOurs: bool)
      requires Valid() && sender in nodes && sender != myself && 8 * claimed.Length == slotCount
      requires forall n | n in nodes :: claimed != n.slots
      modifies slots, nodes`numslots, set n | n in nodes :: n.slots
      ensures Valid()
      ensures old(Bus.WellFormed(myself.name, View()))
      ensures View() == Bus.UpdateSlots(myself.name, old(View()), sender.name, epoch, Claimed(claimed[..]))
      ensures forall k :: k in dirty <==>
                0 <= k < slotCount && k in keys && old(slots[k]) == myself && slots[k] != myself
      ensures newmaster <==> exists k :: 0 <= k < slotCount && old(slots[k]) == curmaster && slots[k] != old(slots[k])
      ensures onlyOurs <==> forall k | k in Claimed(claimed[..]) ::
              k < slotCount && old(slots[k]) == curmaster && slots[k] != old(slots[k])
    {
      hide Bit, Indexed, Takes, Moved, Peers, Claimed;
      ViewWellFormed();
      MovedAreRebound(sender, epoch, claimed[..]);
      MovedInRange(sender, epoch, claimed[..]);
      ghost var moved, was := Moved(sender, epoch, claimed[..]), slots[..];
      dirty, newmaster, onlyOurs := TakeOver(sender, epoch, claimed, curmaster, keys);
      PeersKept();
      OwnersRebound(old(View()), was, sender, epoch, Claimed(claimed[..]), moved);
    }

    lemma MovedInRange(sender: ClusterNode, epoch: nat, claimed: seq<bv8>)
      requires Shape() && 8 * |claimed| == slotCount
      ensures forall k | k in Moved(sender, epoch, claimed) :: 0 <= k < slotCount && slots[k] != sender
    {
    }

    /** clusterUpdateSlotsConfigWith.  `dropped` are the slots whose keys it
        deletes: those this node lost while holding keys, unless the claim left
        this node, or its master, without slots (in this fork the node is then
        neither demoted nor emptied, so that it can serve as a copy target).  A
        replica that knows no master takes free slots for its master's, and
        `crashed` says that the source then reads through a null pointer. */
    method UpdateSlotsConfigWith(
        sender: ClusterNode, epoch: nat, claimed: array<bv8>, keys: set<nat>, allowMigration: bool)
      returns (crashed: bool, dropped: seq<nat>)
      requires Valid() && sender in nodes && 8 * claimed.Length == slotCount
      requires forall n | n in nodes :: claimed != n.slots
      modifies slots, nodes`numslots, set n | n in nodes :: n.slots
      ensures Valid()
      ensures old(Bus.WellFormed(myself.name, View()))
      ensures View() == Bus.UpdateSlots(myself.name, old(View()), sender.name, epoch, Claimed(claimed[..]))
      ensures crashed <==>
                && !myself.master && myself.slaveof == null
                && exists k :: 0 <= k < slotCount && old(slots[k]) == null && slots[k] != null
      ensures var curmaster: ClusterNode? := if myself.master then myself else myself.slaveof;
              var taken := exists k :: 0 <= k < slotCount && old(slots[k]) == curmaster && slots[k] != old(slots[k]);
              var bare := forall k | 0 <= k < slotCount :: slots[k] != curmaster;
              var onlyOurs := forall k | k in Claimed(claimed[..]) ::
                                k < slotCount && old(slots[k]) == curmaster && slots[k] != old(slots[k]);
              !crashed ==>
                forall k :: k in dropped <==>
                  && !(taken && bare && (allowMigration || onlyOurs))
                  && 0 <= k < slotCount && k in keys && old(slots[k]) == myself && slots[k] != myself
    {
      hide Bit, Indexed, View, Claimed;
      ViewWellFormed();
      if sender == myself {
        return false, [];
      }
      var curmaster: ClusterNode? := if myself.master then myself else myself.slaveof;
      var dirty, newmaster, onlyOurs := AdoptClaim(sender, epoch, claimed, curmaster, keys);
      if newmaster && curmaster == null {
        return true, [];
      }
      crashed := false;
      if curmaster != null {
        ServesIff(curmaster);
      }
      if newmaster && curmaster.numslots == 0 && (allowMigration || onlyOurs) {
        dropped := [];
      } else {
        dropped := dirty;
      }
    }

    lemma OwnersKnown()
      requires Valid()
      ensures forall k | 0 <= k < slotCount && slots[k] != null :: slots[k] in nodes
    {
    }

    lemma BitIsOwner(node: ClusterNode, j: nat)
      requires Valid() && node in nodes && j < slotCount
      ensures Bit(node.slots[..], j) <==> slots[j] == node
    {
    }

    /** clusterDelNodeSlots */
    method DelNodeSlots(node: ClusterNode) returns (deleted: int)
      requires Valid() && node in nodes
      modifies slots, nodes`numslots, set n | n in nodes :: n.slots
      ensures Valid()
      ensures View() == Bus.DelNodeSlots(old(View()), node.name)
      ensures deleted == old(node.numslots) && node.numslots == 0
    {
      hide Bit, Indexed, Peers;
      OwnersKnown();
      ghost var was, total := slots[..], node.numslots;
      deleted := 0;
      for j := 0 to slotCount
        invariant Valid()
        invariant forall k | 0 <= k < slotCount :: slots[k] == if k < j && was[k] == node then null else was[k]
        invariant deleted + node.numslots == total
      {
        BitIsOwner(node, j);
        var bit := TestBit(node.slots, j);
        if bit {
          var _ := DelSlot(j);
          deleted := deleted + 1;
        }
      }
      ServesIff(node);
      PeersKept();
      assert Owners() == Bus.DelNodeSlots(old(View()), node.name).slots;
    }

    twostate lemma PeerChanged(n: ClusterNode)
      requires old(Shape()) && Shape() && nodes == old(nodes) && n in nodes
      requires forall m | m in nodes && m != n ::
                 m.configEpoch == old(m.configEpoch) && m.master == old(m.master) && m.slaveof == old(m.slaveof)
                     && m.failed == old(m.failed)
      ensures Peers() == old(Peers())[n.name := PeerOf(n)]
    {
      forall m | m in nodes && m != n
        ensures PeerOf(m) == old(PeerOf(m))
      {
      }
    }

    /** A change of one node's record, and of nothing else, is one of its entry in
        the view. */
    twostate lemma RecordChanged(n: ClusterNode)
      requires old(Shape()) && Shape() && nodes == old(nodes) && n in nodes
      requires (currentEpoch, lastVoteEpoch, size) == old((currentEpoch, lastVoteEpoch, size))
      requires (authEpoch, authCount, authSent) == old((authEpoch, authCount, authSent))
      requires slots[..] == old(slots[..]) && importing[..] == old(importing[..])
      requires Peers() == old(Peers())[n.name := PeerOf(n)]
      requires Owners() == old(Owners()) && Importing() == old(Importing())
      ensures View() == old(View()).(peers := old(View()).peers[n.name := PeerOf(n)])
    {
      hide Peers, Owners, Importing, PeerOf;
    }

    lemma EntryOf(n: ClusterNode)
      requires Shape() && n in nodes
      ensures n.name in View().peers && View().peers[n.name] == PeerOf(n)
      ensures View().currentEpoch == currentEpoch
    {
      hide Owners, Importing, PeerOf;
    }

    /** clusterSetNodeAsMaster, as far as the bus model sees it. */
    method SetNodeAsMaster(n: ClusterNode)
      requires Valid() && n in nodes
      modifies n`master, n`slaveof
      ensures Valid()
      ensures n.name in old(View()).peers && View() == Bus.SetNodeAsMaster(old(View()), n.name)
    {
      hide Indexed, View, Peers, Owners, Importing;
      EntryOf(n);
      if n.master {
        return;
      }
      n.master, n.slaveof := true, null;
      PeerChanged(n);
      RecordChanged(n);
    }

    lemma SelfInView()
      requires Valid()
      ensures myself in nodes && myself.slaveof != myself && (myself.slaveof != null ==> myself.slaveof in nodes)
      ensures myself.name in View().peers && View().peers[myself.name] == PeerOf(myself)
      ensures |View().slots| == slotCount
    {
    }

    /** clusterFailoverReplaceYourMaster */
    method FailoverReplaceYourMaster()
      requires Valid()
      modifies slots, myself`master, myself`slaveof, nodes`numslots, set n | n in nodes :: n.slots
      ensures Valid()
      ensures old(Bus.WellFormed(myself.name, View()))
      ensures View() == Bus.ReplaceYourMaster(myself.name, old(View()))
    {
      hide Bit, Indexed, View, Shape, Peers;
      ViewWellFormed();
      SelfInView();
      var oldmaster := myself.slaveof;
      if myself.master || oldmaster == null {
        return;
      }
      SetNodeAsMaster(myself);
      ClaimSlotsOf(oldmaster);
    }

    /** The loop that claims the slots of the master failed over. */
    method ClaimSlotsOf(oldmaster: ClusterNode)
      requires Valid() && oldmaster in nodes && oldmaster != myself
      modifies slots, nodes`numslots, set n | n in nodes :: n.slots
      ensures Valid()
      ensures var v := old(View());
              && |v.slots| == slotCount
              && View() == v.(slots := seq(slotCount, j requires 0 <= j < slotCount =>
                                if v.slots[j] == Some(oldmaster.name) then Some(myself.name) else v.slots[j]))
    {
      hide Bit, Indexed, Peers;
      OwnersKnown();
      ghost var was := slots[..];
      for j := 0 to slotCount
        invariant Valid()
        invariant forall k | 0 <= k < slotCount :: slots[k] == if k < j && was[k] == oldmaster then myself else was[k]
      {
        BitIsOwner(oldmaster, j);
        var bit := TestBit(oldmaster.slots, j);
        if bit {
          RebindSlot(myself, j);
        }
      }
      PeersKept();
    }

    /** The last check before a vote: no claimed slot is known to be served
        under a newer epoch than the one requested with. */
    method ClaimIsCurrent(configEpoch: nat, claimed: array<bv8>) returns (ok: bool)
      requires Valid() && 8 * claimed.Length == slotCount
      ensures ok <==> forall j | 0 <= j < slotCount && Bit(claimed[..], j) && slots[j] != null ::
              slots[j].configEpoch <= configEpoch
    {
      hide Bit;
      for j := 0 to slotCount
        invariant forall k | 0 <= k < j && Bit(claimed[..], k) && slots[k] != null ::
                  slots[k].configEpoch <= configEpoch
      {
        var bit := TestBit(claimed, j);
        if bit {
          var owner := slots[j];
          if owner != null && owner.configEpoch > configEpoch {
            return false;
          }
        }
      }
      ok := true;
    }

    lemma CurrentClaimInView(configEpoch: nat, claimed: seq<bv8>, hdr: Bus.Header)
      requires Valid() && 8 * |claimed| == slotCount && hdr.slots == Claimed(claimed) && hdr.configEpoch == configEpoch
      ensures Bus.WellFormed(myself.name, View())
      ensures (forall j | 0 <= j < slotCount && Bit(claimed, j) && slots[j] != null ::
              slots[j].configEpoch <= configEpoch)
         <==> (forall j | 0 <= j < |View().slots| && j in hdr.slots ::
                 View().slots[j].Some? ==> View().peers[View().slots[j].value].configEpoch <= hdr.configEpoch)
    {
      hide Bit, Peers;
      ViewWellFormed();
      var v := View();
      forall j | 0 <= j < slotCount
        ensures v.slots[j] == NameOf(slots[j])
        ensures slots[j] != null ==> v.peers[slots[j].name].configEpoch == slots[j].configEpoch
      {
        assert slots[j] != null ==> slots[j] in nodes;
      }
    }

    /** clusterSendFailoverAuthIfNeeded: grants the vote exactly when the bus
        model's conditions hold, and records it. */
    method SendFailoverAuthIfNeeded(node: ClusterNode, hdr: Bus.Header, claimed: array<bv8>, recentVote: bool)
      returns (granted: bool)
      requires Valid() && node in nodes && hdr.sender == node.name
      requires 8 * claimed.Length == slotCount && hdr.slots == Claimed(claimed[..])
      modifies `lastVoteEpoch
      ensures Valid()
      ensures old(Bus.WellFormed(myself.name, View())) && node.name in old(View()).peers
      ensures granted == Bus.Grants(myself.name, old(View()), hdr, recentVote)
      ensures View() == Bus.Vote(myself.name, old(View()), hdr, recentVote).node
    {
      hide Bit, Peers, Indexed, Owners;
      ViewWellFormed();
      SelfInView();
      ServesIff(myself);
      CurrentClaimInView(hdr.configEpoch, claimed[..], hdr);
      assert View().peers[node.name] == PeerOf(node);
      var master := node.slaveof;
      assert master != null ==> master in nodes && View().peers[master.name] == PeerOf(master);
      granted := false;
      if !myself.master || myself.numslots == 0 {
        return;
      }
      if hdr.currentEpoch < currentEpoch {
        return;
      }
      if lastVoteEpoch == currentEpoch {
        return;
      }
      if node.master || master == null || (!master.failed && !hdr.forceAck) {
        return;
      }
      if recentVote {
        return;
      }
      var ok := ClaimIsCurrent(hdr.configEpoch, claimed);
      if !ok {
        return;
      }
      lastVoteEpoch := currentEpoch;
      granted := true;
    }

    lemma PeerInView(n: ClusterNode)
      requires Valid() && n in nodes
      ensures n.name in View().peers && View().peers[n.name] == PeerOf(n)
      ensures n != myself ==> n.name != myself.name
    {
    }

    /** clusterGetMaxEpoch */
    method GetMaxEpoch() returns (max: nat)
      requires Valid()
      ensures max >= currentEpoch && forall n | n in nodes :: n.configEpoch <= max
      ensures max == currentEpoch || exists n :: n in nodes && n.configEpoch == max
    {
      hide Indexed;
      max := 0;
      var rest := nodes;
      while rest != {}
        invariant rest <= nodes
        invariant forall n | n in nodes - rest :: n.configEpoch <= max
        invariant max == 0 || exists n :: n in nodes && n.configEpoch == max
        decreases rest
      {
        var n :| n in rest;
        if n.configEpoch > max {
          max := n.configEpoch;
        }
        rest := rest - {n};
      }
      if max < currentEpoch {
        max := currentEpoch;
      }
    }

    /** clusterBumpConfigEpochWithoutConsensus */
    method BumpConfigEpochWithoutConsensus() returns (bumped: bool)
      requires Valid()
      modifies `currentEpoch, myself`configEpoch
      ensures Valid()
      ensures myself.name in old(View()).peers && View() == Bus.Bump(myself.name, old(View()))
      ensures bumped <==> currentEpoch == old(currentEpoch) + 1
    {
      hide Indexed, Owners, Peers, Layout;
      SelfInView();
      var maxEpoch := GetMaxEpoch();
      MaxEpochInView(maxEpoch);
      bumped := myself.configEpoch == 0 || myself.configEpoch != maxEpoch;
      if bumped {
        currentEpoch := currentEpoch + 1;
        myself.configEpoch := currentEpoch;
        PeerChanged(myself);
      }
    }

    lemma MaxEpochInView(max: nat)
      requires Valid()
      requires max >= currentEpoch && forall n | n in nodes :: n.configEpoch <= max
      requires max == currentEpoch || exists n :: n in nodes && n.configEpoch == max
      ensures myself.name in View().peers
      ensures Bus.HasMaxEpoch(myself.name, View()) <==> myself.configEpoch == max
    {
      hide Indexed, Owners;
      forall n | n in nodes
        ensures n.name in View().peers && View().peers[n.name].configEpoch == n.configEpoch
      {
      }
    }

    /** clusterHandleConfigEpochCollision, with the check of its caller. */
    method HandleConfigEpochCollision(sender: ClusterNode, hdr: Bus.Header)
      requires Valid() && sender in nodes && hdr.sender == sender.name
      modifies `currentEpoch, myself`configEpoch
      ensures Valid()
      ensures myself.name in old(View()).peers && sender.name in old(View()).peers
      ensures View() == Bus.HandleCollision(myself.name, old(View()), hdr)
    {
      hide Indexed, Owners, Peers, Layout;
      SelfInView();
      PeerInView(sender);
      if !(myself.master && sender.master && hdr.configEpoch == myself.configEpoch) {
        return;
      }
      if sender.configEpoch != myself.configEpoch || !sender.master || !myself.master {
        return;
      }
      if sender.name <= myself.name {
        return;
      }
      currentEpoch := currentEpoch + 1;
      myself.configEpoch := currentEpoch;
      PeerChanged(myself);
    }

    method RaiseCurrentEpoch(epoch: nat)
      requires Valid()
      modifies `currentEpoch
      ensures Valid()
      ensures View() == old(View()).(currentEpoch := Bus.Max(old(View().currentEpoch), epoch))
    {
      hide Indexed, Peers, Owners, Importing;
      if epoch > currentEpoch {
        currentEpoch := epoch;
      }
    }

    method RaiseConfigEpoch(n: ClusterNode, epoch: nat)
      requires Valid() && n in nodes
      modifies n`configEpoch
      ensures Valid()
      ensures n.name in old(View()).peers
      ensures var p := old(View()).peers[n.name];
              View() == old(View()).(peers :=
                old(View()).peers[n.name := p.(configEpoch := Bus.Max(p.configEpoch, epoch))])
    {
      hide Indexed, View, Peers, Owners, Importing;
      EntryOf(n);
      if epoch > n.configEpoch {
        n.configEpoch := epoch;
      }
      PeerChanged(n);
      RecordChanged(n);
    }

    /** The effect of a packet's header on the epochs. */
    method ProcessHeader(sender: ClusterNode, hdr: Bus.Header)
      requires Valid() && sender in nodes && hdr.sender == sender.name
      modifies `currentEpoch, sender`configEpoch
      ensures Valid()
      ensures sender.name in old(View()).peers && View() == Bus.ProcessHeader(old(View()), hdr)
    {
      hide Indexed, View;
      EntryOf(sender);
      RaiseCurrentEpoch(hdr.currentEpoch);
      RaiseConfigEpoch(sender, hdr.configEpoch);
    }

    /** The masters with a slot among some nodes. */
    ghost function VotersAmong(some: set<ClusterNode>): set<ClusterNode>
      reads some
    {
      set n | n in some && n.master && n.numslots != 0
    }

    lemma OneMoreVoter(some: set<ClusterNode>, n: ClusterNode)
      requires n !in some
      ensures VotersAmong(some + {n}) == VotersAmong(some) + if n.master && n.numslots != 0 then {n} else {}
      ensures |VotersAmong(some + {n})| == |VotersAmong(some)| + if n.master && n.numslots != 0 then 1 else 0
    {
      assert n !in VotersAmong(some);
    }

    method CountVoters() returns (count: nat)
      requires Valid()
      ensures count == |Bus.VotersSeen(View())|
    {
      hide Indexed, View, VotersAmong, Shape;
      var rest := nodes;
      count := 0;
      assert VotersAmong(nodes - rest) == {} by { NobodyAmong(nodes - rest); }
      while rest != {}
        invariant rest <= nodes && count == |VotersAmong(nodes - rest)|
        decreases rest
      {
        var n :| n in rest;
        OneMoreVoter(nodes - rest, n);
        assert nodes - (rest - {n}) == nodes - rest + {n};
        if n.master && n.numslots != 0 {
          count := count + 1;
        }
        rest := rest - {n};
      }
      assert nodes - rest == nodes;
      VotersInView(VotersAmong(nodes));
    }

    lemma NobodyAmong(some: set<ClusterNode>)
      requires some == {}
      ensures VotersAmong(some) == {}
    {
    }

    /** The cluster size of clusterUpdateState: masters with a slot. */
    method UpdateSize()
      requires Valid()
      modifies `size
      ensures Valid()
      ensures View() == old(View()).(size := |Bus.VotersSeen(old(View()))|)
    {
      hide Indexed, Owners, Peers, Importing, Bus.VotersSeen;
      var count := CountVoters();
      size := count;
    }

    lemma VotersInView(voters: set<ClusterNode>)
      requires Valid() && voters == VotersAmong(nodes)
      ensures |Bus.VotersSeen(View())| == |voters|
    {
      hide Indexed, Owners, Bit;
      var seen := Bus.VotersSeen(View());
      forall n | n in nodes
        ensures n.name in View().peers && View().peers[n.name] == PeerOf(n)
        ensures n in voters <==> n.name in seen
      {
        ServesIff(n);
      }
      assert seen == set n | n in voters :: n.name;
      NamesDistinct(voters);
    }

    lemma NamesDistinct(some: set<ClusterNode>)
      requires Layout() && some <= nodes
      ensures |set n | n in some :: n.name| == |some|
    {
      if x :| x in some {
        var rest := some - {x};
        NamesDistinct(rest);
        assert (set n | n in some :: n.name) == (set n | n in rest :: n.name) + {x.name};
        assert x.name !in set n | n in rest :: n.name;
      }
    }
  }
}
