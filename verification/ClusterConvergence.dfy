/**
 Slot propagation converges: a node that hears every claimant's heartbeat at
 least once, in any order, repeated and mixed with UPDATEs, gives every slot to
 the claimant with the greatest config epoch.
 */
module ClusterConvergence {
  import opened Options
  import opened ClusterBus
  import opened ClusterEpochs

  /** The slots a master claims and the epoch it claims them under. */
  datatype Claim = Claim(epoch: Epoch, slots: set<nat>)

  type Claims = map<NodeId, Claim>

  ghost predicate DistinctEpochs(claims: Claims) {
    forall p, q | p in claims && q in claims && p != q :: claims[p].epoch != claims[q].epoch
  }

  /** A packet that tells one claim as it is: a heartbeat of the claimant, or an
      UPDATE about it sent by another master. */
  ghost predicate Tells(me: NodeId, claims: Claims, e: Envelope) {
    && e.dst == me && e.hdr.sender in claims && e.hdr.sender != me
    && e.hdr.slaveof.None? && e.hdr.configEpoch == claims[e.hdr.sender].epoch
    && match e.body
       case Ping => e.hdr.slots == claims[e.hdr.sender].slots
       case Pong => e.hdr.slots == claims[e.hdr.sender].slots
       case Update(about, epoch, claimed) => about in claims && claims[about] == Claim(epoch, claimed)
       case _ => false
  }

  /** The claimants whose heartbeat is among `packets`. */
  function Heard(packets: seq<Envelope>): set<NodeId> {
    set e | e in packets && (e.body.Ping? || e.body.Pong?) :: e.hdr.sender
  }

  /** The view after processing `packets` in order. */
  ghost function Learn(me: NodeId, n: Node, packets: seq<Envelope>): Node
    requires WellFormed(me, n)
  {
    if packets == [] then n else
      var k := |packets| - 1;
      var m := Learn(me, n, packets[..k]);
      if WellFormed(me, m) then Process(me, m, packets[k], false).node else m
  }

  /** Every owner owns what it claims, under the epoch it claims it; views are
      at most as new as the claims, and nothing is being imported.  The receiver is
      one of the claiming masters or a replica. */
  ghost predicate Faithful(me: NodeId, n: Node, claims: Claims) {
    && WellFormed(me, n) && n.importing == {}
    && claims.Keys <= n.peers.Keys
    && (n.peers[me].master <==> me in claims)
    && (me in claims ==> n.peers[me].configEpoch == claims[me].epoch)
    && (forall p | p in claims ::
          n.peers[p].master && n.peers[p].slaveof.None? && n.peers[p].configEpoch <= claims[p].epoch)
    && (forall j | 0 <= j < |n.slots| && n.slots[j].Some? ::
          var q := n.slots[j].value; q in claims && j in claims[q].slots && n.peers[q].configEpoch == claims[q].epoch)
  }

  /** Slots claimed by `p` have an owner at least as recent. */
  ghost predicate Settled(n: Node, claims: Claims, p: NodeId) {
    p in claims ==> forall j | 0 <= j < |n.slots| && j in claims[p].slots ::
      n.slots[j].Some? && n.slots[j].value in claims && claims[n.slots[j].value].epoch >= claims[p].epoch
  }

  lemma HeaderFaithful(me: NodeId, n: Node, claims: Claims, e: Envelope)
    requires Faithful(me, n, claims) && Tells(me, claims, e)
    ensures Faithful(me, ProcessHeader(n, e.hdr), claims)
    ensures ProcessHeader(n, e.hdr).peers[e.hdr.sender].configEpoch == e.hdr.configEpoch
  {
  }

  /** Adopting a claim keeps the table faithful and never replaces an owner by
      an older one. */
  lemma UpdateSlotsFaithful(me: NodeId, n: Node, claims: Claims, p: NodeId)
    requires Faithful(me, n, claims) && p in claims && p != me && n.peers[p].configEpoch == claims[p].epoch
    ensures var m := UpdateSlots(me, n, p, claims[p].epoch, claims[p].slots);
            && Faithful(me, m, claims) && Settled(m, claims, p) && |m.slots| == |n.slots|
            && forall q :: Settled(n, claims, q) ==> Settled(m, claims, q)
  {
  }

  lemma PingFaithful(me: NodeId, n: Node, claims: Claims, e: Envelope)
    requires Faithful(me, n, claims) && DistinctEpochs(claims) && Tells(me, claims, e) && !e.body.Update?
    requires n.peers[e.hdr.sender].configEpoch == e.hdr.configEpoch
    ensures var m := ProcessPing(me, n, e.hdr).node;
            && Faithful(me, m, claims) && Settled(m, claims, e.hdr.sender) && |m.slots| == |n.slots|
            && forall q :: Settled(n, claims, q) ==> Settled(m, claims, q)
  {
    var p := e.hdr.sender;
    assert SwitchRole(n, e.hdr) == n;
    var m := AdoptClaims(me, n, e.hdr);
    if Dirty(n, e.hdr) {
      UpdateSlotsFaithful(me, n, claims, p);
    } else {
      assert forall j | 0 <= j < |n.slots| && j in claims[p].slots :: j in SlotsOf(n, p);
    }
    assert HandleCollision(me, m, e.hdr) == m;
  }

  /** A claimant whose epoch is raised to the one it claims under. */
  lemma RaisedFaithful(me: NodeId, n: Node, claims: Claims, p: NodeId)
    requires Faithful(me, n, claims) && p in claims && n.peers[p].configEpoch < claims[p].epoch
    ensures p != me
    ensures Faithful(me, n.(peers := n.peers[p := n.peers[p].(configEpoch := claims[p].epoch)]), claims)
  {
  }

  lemma UpdateIs(me: NodeId, n: Node, claims: Claims, p: NodeId)
    requires Faithful(me, n, claims) && p in claims
    ensures ProcessUpdate(me, n, p, claims[p].epoch, claims[p].slots) ==
            if n.peers[p].configEpoch >= claims[p].epoch then n else
              var n1 := n.(peers := n.peers[p := n.peers[p].(configEpoch := claims[p].epoch)]);
              UpdateSlots(me, n1, p, claims[p].epoch, claims[p].slots)
  {
    hide UpdateSlots;
  }

  lemma UpdateFaithful(me: NodeId, n: Node, claims: Claims, e: Envelope)
    requires Faithful(me, n, claims) && Tells(me, claims, e) && e.body.Update?
    ensures var m := ProcessUpdate(me, n, e.body.about, e.body.epoch, e.body.claimed);
            && Faithful(me, m, claims) && |m.slots| == |n.slots|
            && forall q :: Settled(n, claims, q) ==> Settled(m, claims, q)
  {
    var p := e.body.about;
    assert p in claims && p in n.peers && claims[p] == Claim(e.body.epoch, e.body.claimed);
    UpdateIs(me, n, claims, p);
    hide ProcessUpdate, UpdateSlots, Tells;
    if n.peers[p].configEpoch < e.body.epoch {
      var n1 := n.(peers := n.peers[p := n.peers[p].(configEpoch := e.body.epoch)]);
      RaisedFaithful(me, n, claims, p);
      hide Faithful;
      UpdateSlotsFaithful(me, n1, claims, p);
      assert forall q :: Settled(n, claims, q) ==> Settled(n1, claims, q);
    }
  }

  lemma ProcessFaithful(me: NodeId, n: Node, claims: Claims, e: Envelope)
    requires Faithful(me, n, claims) && DistinctEpochs(claims) && Tells(me, claims, e)
    ensures var m := Process(me, n, e, false).node;
            && Faithful(me, m, claims) && |m.slots| == |n.slots|
            && (!e.body.Update? ==> Settled(m, claims, e.hdr.sender))
            && forall q :: Settled(n, claims, q) ==> Settled(m, claims, q)
  {
    hide ProcessPing, ProcessUpdate, Settled;
    HeaderFaithful(me, n, claims, e);
    var n1 := ProcessHeader(n, e.hdr);
    HeaderSettled(n, claims, e.hdr);
    if e.body.Update? {
      UpdateFaithful(me, n1, claims, e);
    } else {
      PingFaithful(me, n1, claims, e);
    }
  }

  lemma HeaderSettled(n: Node, claims: Claims, hdr: Header)
    requires hdr.sender in n.peers
    ensures forall q :: Settled(n, claims, q) ==> Settled(ProcessHeader(n, hdr), claims, q)
  {
  }

  lemma {:induction false} LearnFaithful(me: NodeId, n: Node, claims: Claims, packets: seq<Envelope>)
    requires Faithful(me, n, claims) && DistinctEpochs(claims) && Settled(n, claims, me)
    requires forall e | e in packets :: Tells(me, claims, e)
    ensures var m := Learn(me, n, packets);
            && Faithful(me, m, claims) && |m.slots| == |n.slots|
            && forall p | p == me || p in Heard(packets) :: Settled(m, claims, p)
  {
    hide Settled, Faithful, Process;
    FaithfulWellFormed(me, n, claims);
    if packets != [] {
      var k := |packets| - 1;
      var before, e := packets[..k], packets[k];
      LearnFaithful(me, n, claims, before);
      FaithfulWellFormed(me, Learn(me, n, before), claims);
      ProcessFaithful(me, Learn(me, n, before), claims, e);
      assert forall x | x in packets :: x in before || x == e;
    }
  }

  lemma FaithfulWellFormed(me: NodeId, n: Node, claims: Claims)
    requires Faithful(me, n, claims)
    ensures WellFormed(me, n)
  {
  }

  /** `owner` is who should serve slot `j`: nobody if nobody claims it, and
      otherwise the claimant with the greatest epoch. */
  ghost predicate RightOwner(claims: Claims, j: nat, owner: Option<NodeId>) {
    match owner
    case None => forall p | p in claims :: j !in claims[p].slots
    case Some(q) =>
      && q in claims && j in claims[q].slots
      && forall p | p in claims && j in claims[p].slots && p != q :: claims[p].epoch < claims[q].epoch
  }

  /** Convergence: whatever the order and the repetitions. */
  lemma TableConverges(me: NodeId, n: Node, claims: Claims, packets: seq<Envelope>, j: nat)
    requires Faithful(me, n, claims) && DistinctEpochs(claims) && Settled(n, claims, me)
    requires forall e | e in packets :: Tells(me, claims, e)
    requires forall p | p in claims && p != me && j in claims[p].slots :: p in Heard(packets)
    requires j < |n.slots|
    ensures |Learn(me, n, packets).slots| == |n.slots|
    ensures RightOwner(claims, j, Learn(me, n, packets).slots[j])
  {
    LearnFaithful(me, n, claims, packets);
    var m := Learn(me, n, packets);
    hide Learn, Tells, Heard;
    forall p | p in claims && j in claims[p].slots
      ensures m.slots[j].Some? && claims[p].epoch <= claims[m.slots[j].value].epoch
    {
      assert Settled(m, claims, p);
    }
  }

  /** A table that has heard of nobody: it holds the receiver's own claim, and
      is empty if that is a replica. */
  ghost predicate Newcomer(me: NodeId, n: Node, claims: Claims) {
    && WellFormed(me, n) && n.importing == {}
    && claims.Keys <= n.peers.Keys
    && (n.peers[me].master <==> me in claims)
    && (me in claims ==> n.peers[me].configEpoch == claims[me].epoch)
    && (forall p | p in claims ::
          n.peers[p].master && n.peers[p].slaveof.None? && n.peers[p].configEpoch <= claims[p].epoch)
    && forall j | 0 <= j < |n.slots| ::
         n.slots[j] == if me in claims && j in claims[me].slots then Some(me) else None
  }

  /** Convergence from nothing: every slot ends with the claimant of the greatest
      epoch once everybody has been heard. */
  lemma NewcomerConverges(me: NodeId, n: Node, claims: Claims, packets: seq<Envelope>, j: nat)
    requires Newcomer(me, n, claims) && DistinctEpochs(claims)
    requires forall e | e in packets :: Tells(me, claims, e)
    requires forall p | p in claims && p != me && j in claims[p].slots :: p in Heard(packets)
    requires j < |n.slots|
    ensures |Learn(me, n, packets).slots| == |n.slots|
    ensures RightOwner(claims, j, Learn(me, n, packets).slots[j])
  {
    hide Learn, Tells, RightOwner;
    TableConverges(me, n, claims, packets, j);
  }

  lemma RightOwnerUnique(claims: Claims, j: nat, a: Option<NodeId>, b: Option<NodeId>)
    requires RightOwner(claims, j, a) && RightOwner(claims, j, b)
    ensures a == b
  {
  }

  /** Any two nodes that have heard everybody agree on the whole table. */
  lemma NodesAgree(me1: NodeId, n1: Node, packets1: seq<Envelope>, me2: NodeId, n2: Node, packets2: seq<Envelope>,
      claims: Claims)
    requires Faithful(me1, n1, claims) && Settled(n1, claims, me1) && Faithful(me2, n2, claims)
             && Settled(n2, claims, me2)
    requires DistinctEpochs(claims) && |n1.slots| == |n2.slots|
    requires forall e | e in packets1 :: Tells(me1, claims, e)
    requires forall e | e in packets2 :: Tells(me2, claims, e)
    requires claims.Keys - {me1} <= Heard(packets1) && claims.Keys - {me2} <= Heard(packets2)
    ensures Learn(me1, n1, packets1).slots == Learn(me2, n2, packets2).slots
  {
    hide Learn, Tells, Heard, Faithful, Settled, RightOwner, DistinctEpochs;
    FaithfulWellFormed(me1, n1, claims);
    FaithfulWellFormed(me2, n2, claims);
    var t1, t2 := Learn(me1, n1, packets1).slots, Learn(me2, n2, packets2).slots;
    LearnFaithful(me1, n1, claims, packets1);
    LearnFaithful(me2, n2, claims, packets2);
    forall j | 0 <= j < |n1.slots|
      ensures t1[j] == t2[j]
    {
      TableConverges(me1, n1, claims, packets1, j);
      TableConverges(me2, n2, claims, packets2, j);
      RightOwnerUnique(claims, j, t1[j], t2[j]);
    }
  }
}
