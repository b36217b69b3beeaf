/**
 Config-epoch collision resolution: when nothing else changes epochs, masters
 that share a config epoch bump at most 2^N - 1 - N times in all, whatever stale
 packets are delivered, and the collisions are over exactly when every master
 has an epoch of its own.
 */
module ClusterCollision {
  import opened Options
  import opened Counting
  import opened ClusterBus
  import opened ClusterEpochs

  /** A node's own config epoch. */
  function Own(s: Bus, i: NodeId): Epoch
    requires i in s.nodes && i in s.nodes[i].peers
  {
    s.nodes[i].peers[i].configEpoch
  }

  /** Node `i` knows the role of every node; its own record says whose replica it
      is, and only masters own slots.  `ms` are the masters. */
  ghost predicate Roles(ms: set<NodeId>, i: NodeId, n: Node) {
    && i in n.peers
    && (forall p | p in n.peers :: n.peers[p].master <==> p in ms)
    && (n.peers[i].slaveof.None? <==> i in ms)
    && forall j | 0 <= j < |n.slots| && n.slots[j].Some? :: n.slots[j].value in ms
  }

  /** Packets that tell the roles, none ahead of the master it is about; the
      header of a replica carries what it knows of its master's epoch. */
  ghost predicate Timely(s: Bus, ms: set<NodeId>, e: Envelope)
    requires WellFormedBus(s)
  {
    && (e.body.Ping? || e.body.Pong? || e.body.Update?)
    && e.hdr.sender in s.nodes && e.hdr.sender != e.dst
    && (e.hdr.slaveof.None? <==> e.hdr.sender in ms)
    && (e.hdr.sender in ms ==> e.hdr.configEpoch <= Own(s, e.hdr.sender))
    && (e.body.Update? ==> e.body.about in ms && (e.body.about in s.nodes ==> e.body.epoch <= Own(s, e.body.about)))
  }

  /** No view of a master is ahead of it. */
  ghost predicate ViewsBehind(s: Bus, ms: set<NodeId>)
    requires WellFormedBus(s)
  {
    forall i, p | i in s.nodes && p in s.nodes[i].peers && p in s.nodes && p in ms ::
      s.nodes[i].peers[p].configEpoch <= Own(s, p)
  }

  ghost predicate RolesKnown(s: Bus, ms: set<NodeId>) {
    forall i | i in s.nodes :: Roles(ms, i, s.nodes[i])
  }

  ghost predicate MastersInv(s: Bus, ms: set<NodeId>) {
    && WellFormedBus(s) && DominatedBus(s)
    && RolesKnown(s, ms)
    && ViewsBehind(s, ms)
    && (forall e | e in s.net :: Timely(s, ms, e))
  }

  /** Only the heartbeat goes on: packets are sent, delivered or lost. */
  predicate Heartbeat(a: Action) {
    a.Gossip? || a.Deliver? || a.Lose?
  }

  /** A heartbeat changes a node's own epoch only by a collision of two masters,
      under an epoch that the one with the greater name has announced. */
  ghost predicate Collides(ms: set<NodeId>, i: NodeId, n: Node, e: Envelope) {
    && i in n.peers && i in ms && e.hdr.sender in ms && e.hdr.sender > i
    && (e.body.Ping? || e.body.Pong?)
    && e.hdr.configEpoch == n.peers[i].configEpoch
  }

  /** What a heartbeat does to a view. */
  ghost predicate Beats(ms: set<NodeId>, i: NodeId, n: Node, e: Envelope, m: Node) {
    && i in n.peers && m.peers.Keys == n.peers.Keys
    && (Roles(ms, i, n) ==> Roles(ms, i, m))
    && (m.peers[i].configEpoch == n.peers[i].configEpoch
        || (Collides(ms, i, n, e) && m.peers[i].configEpoch > n.peers[i].configEpoch))
    && forall p | p in n.peers && p != i ::
         || m.peers[p].configEpoch == n.peers[p].configEpoch
         || (p == e.hdr.sender && m.peers[p].configEpoch == e.hdr.configEpoch)
         || (e.body.Update? && p == e.body.about && m.peers[p].configEpoch == e.body.epoch)
  }

  /** A header that tells its sender's role switches nothing but the record of
      whose replica the sender is. */
  lemma SwitchKeeps(ms: set<NodeId>, i: NodeId, n: Node, hdr: Header)
    requires WellFormed(i, n) && Roles(ms, i, n) && hdr.sender in n.peers && hdr.sender != i
    requires hdr.slaveof.None? <==> hdr.sender in ms
    ensures var m := SwitchRole(n, hdr);
            && Roles(ms, i, m) && m.peers.Keys == n.peers.Keys && m.peers[i] == n.peers[i]
            && m.slots == n.slots && m.currentEpoch == n.currentEpoch
            && forall p | p in n.peers :: m.peers[p].configEpoch == n.peers[p].configEpoch
  {
  }

  lemma ClaimsKeep(ms: set<NodeId>, i: NodeId, n: Node, hdr: Header)
    requires WellFormed(i, n) && Roles(ms, i, n) && hdr.sender in n.peers
    ensures var m := AdoptClaims(i, n, hdr);
            Roles(ms, i, m) && m.peers == n.peers && m.currentEpoch == n.currentEpoch && WellFormed(i, m)
  {
  }

  lemma CollisionBeats(ms: set<NodeId>, i: NodeId, n: Node, hdr: Header)
    requires Roles(ms, i, n) && hdr.sender in n.peers && hdr.sender != i
    requires n.peers[i].configEpoch <= n.currentEpoch
    ensures var m := HandleCollision(i, n, hdr);
            && Roles(ms, i, m) && m.peers.Keys == n.peers.Keys
            && (forall p | p in n.peers && p != i :: m.peers[p] == n.peers[p])
            && (m.peers[i].configEpoch == n.peers[i].configEpoch
                || (m.peers[i].configEpoch > n.peers[i].configEpoch
                    && i in ms && hdr.sender in ms && hdr.sender > i && hdr.configEpoch == n.peers[i].configEpoch))
            && (m.peers[i].configEpoch != n.peers[i].configEpoch <==>
                  && i in ms && hdr.sender in ms && hdr.sender > i
                  && hdr.configEpoch == n.peers[i].configEpoch == n.peers[hdr.sender].configEpoch)
  {
  }

  lemma HeaderKeeps(ms: set<NodeId>, i: NodeId, n: Node, hdr: Header)
    requires Roles(ms, i, n) && hdr.sender in n.peers && hdr.sender != i
    ensures var n1 := ProcessHeader(n, hdr);
            && Roles(ms, i, n1) && n1.peers.Keys == n.peers.Keys && n1.peers[i] == n.peers[i]
            && forall p | p in n.peers ::
                 || n1.peers[p].configEpoch == n.peers[p].configEpoch
                 || (p == hdr.sender && n1.peers[p].configEpoch == hdr.configEpoch)
  {
  }

  lemma PingBeats(ms: set<NodeId>, i: NodeId, n: Node, n1: Node, e: Envelope)
    requires WellFormed(i, n) && Dominated(n1) && e.hdr.sender in n.peers && e.hdr.sender != i
    requires n1 == ProcessHeader(n, e.hdr) && WellFormed(i, n1)
    requires Roles(ms, i, n) && (e.hdr.slaveof.None? <==> e.hdr.sender in ms) && (e.body.Ping? || e.body.Pong?)
    ensures Beats(ms, i, n, e, ProcessPing(i, n1, e.hdr).node)
  {
    assert n1.peers[i].configEpoch <= n1.currentEpoch;
    HeaderKeeps(ms, i, n, e.hdr);
    hide Roles, ProcessHeader, SwitchRole, AdoptClaims, HandleCollision, Dominated;
    SwitchKeeps(ms, i, n1, e.hdr);
    SwitchRoleWellFormed(i, n1, e.hdr);
    var n2 := SwitchRole(n1, e.hdr);
    ClaimsKeep(ms, i, n2, e.hdr);
    CollisionBeats(ms, i, AdoptClaims(i, n2, e.hdr), e.hdr);
  }

  lemma UpdateKeeps(ms: set<NodeId>, i: NodeId, n: Node, about: NodeId, epoch: Epoch, claimed: set<nat>)
    requires WellFormed(i, n) && Roles(ms, i, n) && about in ms
    requires about == i ==> epoch <= n.peers[i].configEpoch
    ensures var m := ProcessUpdate(i, n, about, epoch, claimed);
            && Roles(ms, i, m) && m.peers.Keys == n.peers.Keys && m.peers[i] == n.peers[i]
            && forall p | p in n.peers ::
                 || m.peers[p].configEpoch == n.peers[p].configEpoch
                 || (p == about && m.peers[p].configEpoch == epoch)
  {
  }

  lemma UpdateBeats(ms: set<NodeId>, i: NodeId, n: Node, e: Envelope)
    requires WellFormed(i, n) && e.hdr.sender in n.peers && e.hdr.sender != i
    requires Roles(ms, i, n) && e.body.Update? && e.body.about in ms
    requires e.body.about == i ==> e.body.epoch <= n.peers[i].configEpoch
    requires WellFormed(i, ProcessHeader(n, e.hdr))
    ensures Beats(ms, i, n, e,
                  ProcessUpdate(i, ProcessHeader(n, e.hdr), e.body.about, e.body.epoch, e.body.claimed))
  {
    HeaderKeeps(ms, i, n, e.hdr);
    UpdateKeeps(ms, i, ProcessHeader(n, e.hdr), e.body.about, e.body.epoch, e.body.claimed);
    hide Roles, ProcessHeader, ProcessUpdate, Collides;
  }

  /** Everything `i` sends on a heartbeat describes the view it had once the
      header was processed. */
  ghost predicate Describes(ms: set<NodeId>, i: NodeId, n1: Node, e: Envelope) {
    && e.dst != i && e.hdr.sender == i && (e.hdr.slaveof.None? <==> i in ms)
    && i in n1.peers && (i in ms ==> e.hdr.configEpoch == n1.peers[i].configEpoch)
    && (e.body.Ping? || e.body.Pong?
        || (e.body.Update? && e.body.about in ms && e.body.about in n1.peers
            && e.body.epoch == n1.peers[e.body.about].configEpoch))
  }

  lemma HeaderDescribes(ms: set<NodeId>, i: NodeId, n: Node)
    requires WellFormed(i, n) && Roles(ms, i, n)
    ensures var h := BuildHeader(i, n, false);
            && h.sender == i && (h.slaveof.None? <==> i in ms)
            && (i in ms ==> h.configEpoch == n.peers[i].configEpoch)
  {
  }

  lemma StaleOwnerMaster(ms: set<NodeId>, i: NodeId, n: Node, hdr: Header, from: nat)
    requires WellFormed(i, n) && Roles(ms, i, n) && from <= |n.slots|
    ensures StaleOwner(n, hdr, from).Some? ==> StaleOwner(n, hdr, from).value in ms
    decreases |n.slots| - from
  {
    if from < |n.slots| {
      StaleOwnerMaster(ms, i, n, hdr, from + 1);
    }
  }

  lemma PingDescribes(ms: set<NodeId>, i: NodeId, n1: Node, hdr: Header)
    requires WellFormed(i, n1) && hdr.sender in n1.peers && hdr.sender != i
    requires Roles(ms, i, n1) && (hdr.slaveof.None? <==> hdr.sender in ms)
    ensures forall k | 0 <= k < |ProcessPing(i, n1, hdr).sent| ::
              Describes(ms, i, n1, ProcessPing(i, n1, hdr).sent[k])
  {
    hide Roles, SwitchRole, AdoptClaims, HandleCollision, BuildHeader, StaleOwner;
    SwitchKeeps(ms, i, n1, hdr);
    SwitchRoleWellFormed(i, n1, hdr);
    var n2 := SwitchRole(n1, hdr);
    ClaimsKeep(ms, i, n2, hdr);
    var n3 := AdoptClaims(i, n2, hdr);
    HeaderDescribes(ms, i, n3);
    StaleOwnerKnown(n3, hdr, 0);
    StaleOwnerMaster(ms, i, n3, hdr, 0);
  }

  /** The view of the acting node once a delivered header is processed. */
  function HeaderSeen(n: Node, a: Action): Node {
    if a.Deliver? && a.env.hdr.sender in n.peers then ProcessHeader(n, a.env.hdr) else n
  }

  /** What a heartbeat makes a node do. */
  ghost predicate Quiet(ms: set<NodeId>, i: NodeId, n: Node, a: Action, r: Outcome) {
    && i in n.peers
    && (if a.Deliver? then Beats(ms, i, n, a.env, r.node) else r.node == n)
    && forall k | 0 <= k < |r.sent| :: Describes(ms, i, HeaderSeen(n, a), r.sent[k])
  }

  lemma DeliveryQuiet(ms: set<NodeId>, i: NodeId, n: Node, a: Action)
    requires a.Deliver? && a.env.dst == i && WellFormed(i, n) && Dominated(n) && Roles(ms, i, n)
    requires var e := a.env;
             && DominatedPacket(e) && e.hdr.sender != i && (e.hdr.slaveof.None? <==> e.hdr.sender in ms)
             && (e.body.Ping? || e.body.Pong? || e.body.Update?)
             && (e.body.Update? ==>
                   && e.body.about in ms
                   && (e.body.about == i ==> e.body.epoch <= n.peers[i].configEpoch))
    ensures Quiet(ms, i, n, a, Process(i, n, a.env, a.recentVote))
  {
    hide ProcessPing, ProcessUpdate, BuildHeader, Beats, Describes, Roles;
    var e := a.env;
    if e.hdr.sender in n.peers {
      var n1 := ProcessHeader(n, e.hdr);
      HeaderAdvances(i, n, e.hdr);
      HeaderKeeps(ms, i, n, e.hdr);
      if e.body.Update? {
        UpdateBeats(ms, i, n, e);
      } else {
        PingBeats(ms, i, n, n1, e);
        PingDescribes(ms, i, n1, e.hdr);
        PongDescribes(ms, i, n1, e.hdr.sender);
      }
    } else {
      SameBeats(ms, i, n, e);
    }
  }

  lemma SameBeats(ms: set<NodeId>, i: NodeId, n: Node, e: Envelope)
    requires i in n.peers
    ensures Beats(ms, i, n, e, n)
  {
  }

  lemma PongDescribes(ms: set<NodeId>, i: NodeId, n1: Node, dst: NodeId)
    requires WellFormed(i, n1) && Roles(ms, i, n1) && dst != i
    ensures Describes(ms, i, n1, Envelope(dst, BuildHeader(i, n1, false), Pong))
    ensures Describes(ms, i, n1, Envelope(dst, BuildHeader(i, n1, false), Ping))
  {
    HeaderDescribes(ms, i, n1);
  }

  lemma HeartbeatQuiet(s: Bus, ms: set<NodeId>, a: Action)
    requires MastersInv(s, ms) && Enabled(s, a) && Heartbeat(a)
    ensures var n := s.nodes[Actor(a)]; Quiet(ms, Actor(a), n, a, Act(n, a))
  {
    hide Process, Beats, Describes, BuildHeader, Roles;
    var i := Actor(a);
    var n := s.nodes[i];
    match a
    case Deliver(e, recentVote) =>
      assert Timely(s, ms, e);
      DeliveryQuiet(ms, i, n, a);
    case Gossip(_, dst, _) => PongDescribes(ms, i, n, dst);
    case _ =>
  }

  /** What one heartbeat does to the bus, as far as epochs go. */
  ghost predicate Pulse(s: Bus, ms: set<NodeId>, a: Action, t: Bus)
    requires MastersInv(s, ms)
  {
    && Actor(a) in s.nodes && t.nodes.Keys == s.nodes.Keys && WellFormedBus(t)
    && var i := Actor(a);
    && (forall j | j in s.nodes && j != i :: t.nodes[j] == s.nodes[j])
    && (Own(t, i) == Own(s, i)
        || (a.Deliver? && a.env in s.net && Collides(ms, i, s.nodes[i], a.env) && Own(t, i) > Own(s, i)))
    && (forall e | e in t.net && e !in s.net :: Describes(ms, i, HeaderSeen(s.nodes[i], a), e))
    && (forall e | e in t.net && e !in s.net && i in ms :: e.hdr.configEpoch == Own(s, i))
  }

  lemma NewPackets(s: Bus, a: Action, e: Envelope)
    requires Enabled(s, a) && e in Apply(s, a).net && e !in s.net
    ensures exists k | 0 <= k < |Act(s.nodes[Actor(a)], a).sent| :: Act(s.nodes[Actor(a)], a).sent[k] == e
  {
    InNet(s.net, Consumed(a), Act(s.nodes[Actor(a)], a).sent, e);
  }

  lemma OwnPulse(s: Bus, ms: set<NodeId>, a: Action, t: Bus)
    requires MastersInv(s, ms) && Actor(a) in s.nodes && WellFormedBus(t) && (a.Deliver? ==> a.env in s.net)
    requires Actor(a) in t.nodes && Quiet(ms, Actor(a), s.nodes[Actor(a)], a, Outcome(t.nodes[Actor(a)], []))
    ensures var i := Actor(a);
            Own(t, i) == Own(s, i) || (a.Deliver? && Collides(ms, i, s.nodes[i], a.env) && Own(t, i) > Own(s, i))
  {
    hide Roles;
  }

  lemma SentDescribed(s: Bus, ms: set<NodeId>, a: Action, e: Envelope)
    requires MastersInv(s, ms) && Enabled(s, a) && Heartbeat(a) && e in Apply(s, a).net && e !in s.net
    ensures var i := Actor(a);
            Describes(ms, i, HeaderSeen(s.nodes[i], a), e) && (i in ms ==> e.hdr.configEpoch == Own(s, i))
  {
    hide Act, EventOf, Able, Describes, DominatedBus, Collides, WellFormed, Beats, RolesKnown, ViewsBehind, Apply;
    HeartbeatQuiet(s, ms, a);
    NewPackets(s, a, e);
    assert a.Deliver? ==> Timely(s, ms, a.env);
    DescribedEpoch(ms, Actor(a), s.nodes[Actor(a)], a, e);
  }

  lemma AppliedNodes(s: Bus, a: Action)
    requires Enabled(s, a)
    ensures Apply(s, a).nodes == s.nodes[Actor(a) := Act(s.nodes[Actor(a)], a).node]
  {
    hide Act, EventOf, Able, WellFormed;
  }

  lemma HeartbeatPulse(s: Bus, ms: set<NodeId>, a: Action)
    requires MastersInv(s, ms) && Enabled(s, a) && Heartbeat(a)
    ensures Pulse(s, ms, a, Apply(s, a))
  {
    hide Act, EventOf, Able, Describes, DominatedBus, Collides, WellFormed, Beats, RolesKnown, ViewsBehind, GrowsBus,
        Apply;
    var i, t := Actor(a), Apply(s, a);
    assert WellFormedBus(t) by { StepSound(s, a); }
    HeartbeatQuiet(s, ms, a);
    AppliedNodes(s, a);
    OwnPulse(s, ms, a, t);
    hide Timely, Quiet;
    forall e | e in t.net && e !in s.net
      ensures Describes(ms, i, HeaderSeen(s.nodes[i], a), e) && (i in ms ==> e.hdr.configEpoch == Own(s, i))
    {
      SentDescribed(s, ms, a, e);
    }
  }

  lemma DescribedEpoch(ms: set<NodeId>, i: NodeId, n: Node, a: Action, e: Envelope)
    requires Describes(ms, i, HeaderSeen(n, a), e) && i in n.peers && (a.Deliver? ==> a.env.hdr.sender != i)
    ensures i in ms ==> e.hdr.configEpoch == n.peers[i].configEpoch
  {
  }

  lemma HeaderSeenBehind(s: Bus, ms: set<NodeId>, a: Action)
    requires MastersInv(s, ms) && Actor(a) in s.nodes && (a.Deliver? ==> a.env in s.net)
    ensures var n1 := HeaderSeen(s.nodes[Actor(a)], a);
            forall p | p in n1.peers && p in s.nodes && p in ms :: n1.peers[p].configEpoch <= Own(s, p)
  {
    hide Roles;
    assert a.Deliver? ==> Timely(s, ms, a.env);
  }

  lemma OwnGrows(s: Bus, ms: set<NodeId>, a: Action, t: Bus, p: NodeId)
    requires MastersInv(s, ms) && Pulse(s, ms, a, t) && p in s.nodes
    ensures Own(s, p) <= Own(t, p)
  {
  }

  /** The actor's new view of `p` is its old one or one the packet carried. */
  lemma ActorView(s: Bus, ms: set<NodeId>, a: Action, m: Node, p: NodeId)
    requires MastersInv(s, ms) && Actor(a) in s.nodes && (a.Deliver? ==> a.env in s.net)
    requires Quiet(ms, Actor(a), s.nodes[Actor(a)], a, Outcome(m, []))
    requires p in m.peers && p in s.nodes && p != Actor(a) && p in ms
    ensures m.peers[p].configEpoch <= Own(s, p)
  {
    hide Roles;
    assert a.Deliver? ==> Timely(s, ms, a.env);
  }

  lemma ViewsKept(s: Bus, ms: set<NodeId>, a: Action, t: Bus)
    requires MastersInv(s, ms) && Pulse(s, ms, a, t) && (a.Deliver? ==> a.env in s.net)
    requires Quiet(ms, Actor(a), s.nodes[Actor(a)], a, Outcome(t.nodes[Actor(a)], []))
    ensures ViewsBehind(t, ms) && RolesKnown(t, ms)
  {
    hide Roles;
    var i := Actor(a);
    forall j, p | j in t.nodes && p in t.nodes[j].peers && p in t.nodes && p in ms
      ensures t.nodes[j].peers[p].configEpoch <= Own(t, p)
    {
      OwnGrows(s, ms, a, t, p);
      if j == i && p != i {
        ActorView(s, ms, a, t.nodes[i], p);
      }
    }
    forall j | j in t.nodes
      ensures Roles(ms, j, t.nodes[j])
    {
      assert Roles(ms, j, s.nodes[j]);
      assert j != i ==> t.nodes[j] == s.nodes[j];
    }
  }

  lemma TimelyLater(s: Bus, t: Bus, ms: set<NodeId>, e: Envelope)
    requires WellFormedBus(s) && WellFormedBus(t) && s.nodes.Keys == t.nodes.Keys && Timely(s, ms, e)
    requires forall p | p in s.nodes :: Own(s, p) <= Own(t, p)
    ensures Timely(t, ms, e)
  {
  }

  lemma OldPacketKept(s: Bus, ms: set<NodeId>, a: Action, t: Bus, e: Envelope)
    requires MastersInv(s, ms) && Pulse(s, ms, a, t) && e in s.net
    ensures Timely(t, ms, e)
  {
    hide RolesKnown, ViewsBehind, DominatedBus, Timely, Own, Describes, Collides, HeaderSeen;
    forall p | p in s.nodes ensures Own(s, p) <= Own(t, p) {
      OwnGrows(s, ms, a, t, p);
    }
    TimelyLater(s, t, ms, e);
  }

  lemma DescribedTimely(t: Bus, ms: set<NodeId>, i: NodeId, n1: Node, e: Envelope)
    requires WellFormedBus(t) && i in t.nodes && Describes(ms, i, n1, e)
    requires i in ms ==> e.hdr.configEpoch <= Own(t, i)
    requires forall p | p in n1.peers && p in t.nodes && p in ms :: n1.peers[p].configEpoch <= Own(t, p)
    ensures Timely(t, ms, e)
  {
  }

  lemma NewPacketKept(s: Bus, ms: set<NodeId>, a: Action, t: Bus, e: Envelope)
    requires MastersInv(s, ms) && Pulse(s, ms, a, t) && (a.Deliver? ==> a.env in s.net) && e in t.net && e !in s.net
    ensures Timely(t, ms, e)
  {
    var i := Actor(a);
    var n1 := HeaderSeen(s.nodes[i], a);
    HeaderSeenBehind(s, ms, a);
    OwnGrows(s, ms, a, t, i);
    assert Describes(ms, i, n1, e);
    hide RolesKnown, ViewsBehind, DominatedBus, HeaderSeen, Collides, Describes, Timely;
    forall p | p in n1.peers && p in t.nodes && p in ms ensures n1.peers[p].configEpoch <= Own(t, p) {
      OwnGrows(s, ms, a, t, p);
    }
    DescribedTimely(t, ms, i, n1, e);
  }

  lemma PacketsKept(s: Bus, ms: set<NodeId>, a: Action, t: Bus)
    requires MastersInv(s, ms) && Pulse(s, ms, a, t) && (a.Deliver? ==> a.env in s.net)
    ensures forall e | e in t.net :: Timely(t, ms, e)
  {
    hide MastersInv, Timely, Describes, Own;
    forall e | e in t.net
      ensures Timely(t, ms, e)
    {
      if e in s.net {
        OldPacketKept(s, ms, a, t, e);
      } else {
        NewPacketKept(s, ms, a, t, e);
      }
    }
  }

  /** Heartbeats keep every view and every packet at or behind the masters they
      are about. */
  lemma MastersKept(s: Bus, ms: set<NodeId>, a: Action)
    requires MastersInv(s, ms) && Enabled(s, a) && Heartbeat(a)
    ensures MastersInv(Apply(s, a), ms) && Pulse(s, ms, a, Apply(s, a))
  {
    hide Act, Apply, EventOf, Able, Pulse, Timely, RolesKnown, ViewsBehind, Quiet;
    StepSound(s, a);
    HeartbeatPulse(s, ms, a);
    HeartbeatQuietAfter(s, ms, a);
    ViewsKept(s, ms, a, Apply(s, a));
    PacketsKept(s, ms, a, Apply(s, a));
  }

  lemma HeartbeatQuietAfter(s: Bus, ms: set<NodeId>, a: Action)
    requires MastersInv(s, ms) && Enabled(s, a) && Heartbeat(a)
    ensures Quiet(ms, Actor(a), s.nodes[Actor(a)], a, Outcome(Apply(s, a).nodes[Actor(a)], []))
  {
    hide Act, EventOf, Beats, Describes;
    HeartbeatQuiet(s, ms, a);
  }

  // ------------------------------------------------------------------
  // Counting bumps
  // ------------------------------------------------------------------

  /** A run of heartbeats in a cluster whose masters are `ms`, from a state with
      nothing in flight. */
  ghost predicate HeartbeatRun(states: seq<Bus>, ms: set<NodeId>, actions: seq<Action>) {
    && Run(states, actions)
    && MastersInv(states[0], ms) && states[0].net == multiset{}
    && forall k | 0 <= k < |actions| :: Heartbeat(actions[k])
  }

  lemma {:induction false} HeartbeatRunMasters(states: seq<Bus>, ms: set<NodeId>, actions: seq<Action>, k: nat)
    requires HeartbeatRun(states, ms, actions) && k < |states|
    ensures MastersInv(states[k], ms)
    ensures k > 0 ==> MastersInv(states[k - 1], ms) && Pulse(states[k - 1], ms, actions[k - 1], states[k])
    ensures states[k].nodes.Keys == states[0].nodes.Keys
  {
    if k > 0 {
      HeartbeatRunMasters(states, ms, actions, k - 1);
      RunStep(states, actions, k - 1);
      MastersKept(states[k - 1], ms, actions[k - 1]);
    }
  }

  /** The masters on the bus. */
  function Masters(s: Bus, ms: set<NodeId>): set<NodeId> {
    set i | i in s.nodes && i in ms
  }

  function OwnOrZero(s: Bus, i: NodeId): Epoch {
    if i in s.nodes && i in s.nodes[i].peers then Own(s, i) else 0
  }

  /** The config epochs node `i` has had by the k-th state. */
  function Had(states: seq<Bus>, k: nat, i: NodeId): set<Epoch>
    requires k < |states|
  {
    {OwnOrZero(states[k], i)} + if k == 0 then {} else Had(states, k - 1, i)
  }

  function Histories(states: seq<Bus>, ms: set<NodeId>, k: nat): map<NodeId, set<Epoch>>
    requires k < |states|
  {
    map i | i in Masters(states[0], ms) :: Had(states, k, i)
  }

  /** Whether the step into state `k` gave some node another config epoch. */
  ghost predicate BumpedAt(states: seq<Bus>, k: nat)
    requires 0 < k < |states|
  {
    exists i :: i in states[0].nodes && OwnOrZero(states[k - 1], i) != OwnOrZero(states[k], i)
  }

  /** The number of collision bumps up to state `k`. */
  ghost function Bumps(states: seq<Bus>, k: nat): nat
    requires k < |states|
  {
    if k == 0 then 0 else Bumps(states, k - 1) + if BumpedAt(states, k) then 1 else 0
  }

  function Owns(s: Bus, ms: set<NodeId>): map<NodeId, Epoch> {
    map i | i in Masters(s, ms) :: OwnOrZero(s, i)
  }

  /** Epochs a node has left behind were announced by greater nodes. */
  ghost predicate LeftBehind(own: map<NodeId, Epoch>, h: map<NodeId, set<Epoch>>) {
    && h.Keys == own.Keys
    && (forall i | i in h :: own[i] in h[i])
    && (forall i, v | i in h && v in h[i] :: v <= own[i])
    && (forall i, v | i in h && v in h[i] && v != own[i] :: exists j :: j in h && j > i && v in h[j])
  }

  ghost predicate PacketsFrom(net: multiset<Envelope>, h: map<NodeId, set<Epoch>>) {
    forall e | e in net && e.hdr.sender in h :: e.hdr.configEpoch in h[e.hdr.sender]
  }

  lemma LeftBehindStep(own: map<NodeId, Epoch>, own': map<NodeId, Epoch>,
                       h: map<NodeId, set<Epoch>>, h': map<NodeId, set<Epoch>>, i: NodeId, from: NodeId)
    requires LeftBehind(own, h) && own'.Keys == own.Keys && h'.Keys == h.Keys && i in own
    requires forall j | j in h :: h'[j] == h[j] + {own'[j]}
    requires forall j | j in own && j != i :: own'[j] == own[j]
    requires own[i] <= own'[i]
    requires own[i] != own'[i] ==> from in h && from > i && own[i] in h[from]
    ensures LeftBehind(own', h')
    ensures forall j | j in h && j != i :: h'[j] == h[j]
    ensures if own[i] == own'[i] then h'[i] == h[i] else |h'[i]| == |h[i]| + 1
  {
    if own[i] == own'[i] {
      assert h'[i] == h[i];
    } else {
      assert own'[i] !in h[i];
    }
    forall j, v | j in h' && v in h'[j] && v != own'[j]
      ensures exists k :: k in h' && k > j && v in h'[k]
    {
      if v != own[j] {
        var k :| k in h && k > j && v in h[k];
        assert v in h'[k];
      } else {
        assert j == i && v in h'[from];
      }
    }
  }

  lemma HistoriesStep(
      s: Bus, ms: set<NodeId>, a: Action, t: Bus, h: map<NodeId, set<Epoch>>, h': map<NodeId, set<Epoch>>)
    requires MastersInv(s, ms) && MastersInv(t, ms) && Pulse(s, ms, a, t)
    requires LeftBehind(Owns(s, ms), h) && PacketsFrom(s.net, h)
    requires h'.Keys == h.Keys && forall i | i in h :: h'[i] == h[i] + {OwnOrZero(t, i)}
    ensures LeftBehind(Owns(t, ms), h') && PacketsFrom(t.net, h')
    ensures forall j | j in h && j != Actor(a) :: h'[j] == h[j] && OwnOrZero(s, j) == OwnOrZero(t, j)
    ensures OwnOrZero(s, Actor(a)) != OwnOrZero(t, Actor(a)) ==> Actor(a) in h && |h'[Actor(a)]| == |h[Actor(a)]| + 1
    ensures OwnOrZero(s, Actor(a)) == OwnOrZero(t, Actor(a)) ==> forall j | j in h :: h'[j] == h[j]
  {
    hide MastersInv, Pulse, OwnOrZero, LeftBehind;
    SameOwn(s, ms, a, t);
    var from := if a.Deliver? then a.env.hdr.sender else 0;
    var i := Actor(a);
    LeftBehindKeys(Owns(s, ms), h);
    if i in h {
      assert OwnOrZero(s, i) != OwnOrZero(t, i) ==> from in h && from > i && OwnOrZero(s, i) in h[from];
      LeftBehindStep(Owns(s, ms), Owns(t, ms), h, h', i, from);
    } else {
      assert Owns(t, ms) == Owns(s, ms);
      forall j | j in h ensures h'[j] == h[j] {
        assert OwnOrZero(t, j) == Owns(s, ms)[j];
      }
      assert h' == h;
    }
  }

  lemma LeftBehindKeys(own: map<NodeId, Epoch>, h: map<NodeId, set<Epoch>>)
    requires LeftBehind(own, h)
    ensures h.Keys == own.Keys && forall i | i in h :: own[i] in h[i]
  {
  }

  lemma OwnIs(s: Bus, i: NodeId)
    requires WellFormedBus(s) && i in s.nodes
    ensures i in s.nodes[i].peers && Own(s, i) == OwnOrZero(s, i)
  {
  }

  /** A packet that collides is one of a master on the bus. */
  lemma CollidesFrom(s: Bus, ms: set<NodeId>, i: NodeId, e: Envelope)
    requires WellFormedBus(s) && i in s.nodes && Timely(s, ms, e) && Collides(ms, i, s.nodes[i], e)
    ensures i in Masters(s, ms) && e.hdr.sender in Masters(s, ms) && e.hdr.sender > i && e.hdr.configEpoch == Own(s, i)
  {
  }

  lemma PulseNodes(s: Bus, ms: set<NodeId>, a: Action, t: Bus)
    requires MastersInv(s, ms) && Pulse(s, ms, a, t)
    ensures WellFormedBus(t) && Actor(a) in s.nodes && s.nodes.Keys == t.nodes.Keys && Masters(s, ms) == Masters(t, ms)
    ensures forall j | j in s.nodes && j != Actor(a) :: OwnOrZero(s, j) == OwnOrZero(t, j)
  {
    hide MastersInv, WellFormed, Describes, Collides;
  }

  lemma PulsePackets(s: Bus, ms: set<NodeId>, a: Action, t: Bus)
    requires MastersInv(s, ms) && Pulse(s, ms, a, t)
    ensures WellFormedBus(s) && Actor(a) in s.nodes
    ensures forall e | e in t.net && e !in s.net && e.hdr.sender in ms ::
              e.hdr.sender == Actor(a) && e.hdr.configEpoch == Own(s, Actor(a))
  {
    hide RolesKnown, ViewsBehind, DominatedBus, Timely, Collides, HeaderSeen;
  }

  /** Own epochs across a pulse, without the views around them. */
  lemma SameOwn(s: Bus, ms: set<NodeId>, a: Action, t: Bus)
    requires MastersInv(s, ms) && Pulse(s, ms, a, t)
    ensures Actor(a) in s.nodes && s.nodes.Keys == t.nodes.Keys && Masters(s, ms) == Masters(t, ms)
    ensures forall j | j in s.nodes && j != Actor(a) :: OwnOrZero(s, j) == OwnOrZero(t, j)
    ensures OwnOrZero(s, Actor(a)) <= OwnOrZero(t, Actor(a))
    ensures OwnOrZero(s, Actor(a)) != OwnOrZero(t, Actor(a)) ==>
              && a.Deliver? && a.env in s.net && Actor(a) in Masters(s, ms) && a.env.hdr.sender in Masters(s, ms)
              && a.env.hdr.sender > Actor(a) && a.env.hdr.configEpoch == OwnOrZero(s, Actor(a))
    ensures forall e | e in t.net && e !in s.net && e.hdr.sender in ms ::
              e.hdr.sender == Actor(a) && e.hdr.configEpoch == OwnOrZero(s, Actor(a))
  {
    var i := Actor(a);
    PulseNodes(s, ms, a, t);
    PulsePackets(s, ms, a, t);
    OwnIs(s, i);
    OwnIs(t, i);
    hide RolesKnown, ViewsBehind, DominatedBus, WellFormedBus, OwnOrZero, Own, Collides, Timely, Describes, Masters;
    if Own(t, i) != Own(s, i) {
      assert Timely(s, ms, a.env);
      CollidesFrom(s, ms, i, a.env);
    }
  }

  ghost predicate IsLeast(nodes: set<NodeId>, m: NodeId) {
    m in nodes && forall i | i in nodes :: m <= i
  }

  ghost function Least(nodes: set<NodeId>): (m: NodeId)
    requires nodes != {}
    ensures IsLeast(nodes, m)
  {
    LeastExists(nodes);
    var m :| IsLeast(nodes, m);
    m
  }

  lemma LeastExists(nodes: set<NodeId>)
    requires nodes != {}
    ensures exists m :: IsLeast(nodes, m)
  {
    var x :| x in nodes;
    var rest := nodes - {x};
    if rest == {} {
      assert nodes == rest + {x} == {x};
      assert IsLeast(nodes, x);
    } else {
      LeastExists(rest);
      var m :| IsLeast(rest, m);
      LeastOf(nodes, x, m);
    }
  }

  lemma LeastOf(nodes: set<NodeId>, x: NodeId, m: NodeId)
    requires x in nodes && IsLeast(nodes - {x}, m)
    ensures IsLeast(nodes, if x < m then x else m)
  {
    forall i | i in nodes ensures (if x < m then x else m) <= i {
      assert i == x || i in nodes - {x};
    }
  }

  /** The number of epochs seen, summed over `nodes`. */
  ghost function Total(h: map<NodeId, set<Epoch>>, nodes: set<NodeId>): nat
    requires nodes <= h.Keys
  {
    if nodes == {} then 0 else
      var m := Least(nodes);
      |h[m]| + Total(h, nodes - {m})
  }

  lemma {:induction false} TotalSame(h: map<NodeId, set<Epoch>>, h': map<NodeId, set<Epoch>>, nodes: set<NodeId>)
    requires nodes <= h.Keys && nodes <= h'.Keys && forall j | j in nodes :: |h'[j]| == |h[j]|
    ensures Total(h', nodes) == Total(h, nodes)
  {
    if nodes != {} {
      TotalSame(h, h', nodes - {Least(nodes)});
    }
  }

  lemma {:induction false} TotalOneMore(h: map<NodeId, set<Epoch>>, h': map<NodeId, set<Epoch>>, nodes: set<NodeId>,
      i: NodeId)
    requires nodes <= h.Keys && nodes <= h'.Keys && i in nodes
    requires |h'[i]| == |h[i]| + 1 && forall j | j in nodes && j != i :: |h'[j]| == |h[j]|
    ensures Total(h', nodes) == Total(h, nodes) + 1
  {
    var m := Least(nodes);
    if m == i {
      TotalSame(h, h', nodes - {m});
    } else {
      TotalOneMore(h, h', nodes - {m}, i);
    }
  }

  lemma {:induction false} TotalOfOnes(h: map<NodeId, set<Epoch>>, nodes: set<NodeId>)
    requires nodes <= h.Keys && forall j | j in nodes :: |h[j]| == 1
    ensures Total(h, nodes) == |nodes|
  {
    if nodes != {} {
      TotalOfOnes(h, nodes - {Least(nodes)});
    }
  }

  lemma {:induction false} UnionBound(h: map<NodeId, set<Epoch>>, nodes: set<NodeId>, vs: set<Epoch>)
    requires nodes <= h.Keys
    requires forall v | v in vs :: exists j :: j in nodes && v in h[j]
    ensures |vs| <= Total(h, nodes)
  {
    if nodes == {} {
      assert vs == {};
    } else {
      var m := Least(nodes);
      var rest := vs - h[m];
      forall v | v in rest
        ensures exists j :: j in nodes - {m} && v in h[j]
      {
        var j :| j in nodes && v in h[j];
        assert j in nodes - {m};
      }
      UnionBound(h, nodes - {m}, rest);
      SubsetSize(vs * h[m], h[m]);
      assert vs == vs * h[m] + rest;
    }
  }

  /** The epochs ever had by `nodes`, all greater nodes included, double with
      every node. */
  lemma {:induction false} TotalBound(own: map<NodeId, Epoch>, h: map<NodeId, set<Epoch>>, nodes: set<NodeId>)
    requires LeftBehind(own, h) && nodes <= h.Keys
    requires forall i, j | i in nodes && j in h && j > i :: j in nodes
    ensures Total(h, nodes) <= Pow2(|nodes|) - 1
  {
    hide LeftBehind;
    if nodes != {} {
      var m := Least(nodes);
      var rest := nodes - {m};
      assert |rest| == |nodes| - 1;
      TotalBound(own, h, rest);
      LeftBehindKeys(own, h);
      AnnouncedByRest(own, h, nodes, m);
      UnionBound(h, rest, h[m] - {own[m]});
      assert |h[m] - {own[m]}| == |h[m]| - 1;
    }
  }

  lemma AnnouncedByRest(own: map<NodeId, Epoch>, h: map<NodeId, set<Epoch>>, nodes: set<NodeId>, m: NodeId)
    requires LeftBehind(own, h) && nodes <= h.Keys && m in nodes
    requires forall i, j | i in nodes && j in h && j > i :: j in nodes
    ensures own[m] in h[m]
    ensures forall v | v in h[m] - {own[m]} :: exists j :: j in nodes - {m} && v in h[j]
  {
    forall v | v in h[m] - {own[m]}
      ensures exists j :: j in nodes - {m} && v in h[j]
    {
      var j :| j in h && j > m && v in h[j];
      assert j in nodes - {m};
    }
  }

  lemma {:induction false} BumpsCounted(states: seq<Bus>, ms: set<NodeId>, actions: seq<Action>, k: nat)
    requires HeartbeatRun(states, ms, actions) && k < |states| == |actions| + 1
    ensures LeftBehind(Owns(states[k], ms), Histories(states, ms, k))
            && PacketsFrom(states[k].net, Histories(states, ms, k))
    ensures Bumps(states, k) + |Masters(states[0], ms)| == Total(Histories(states, ms, k), Masters(states[0], ms))
  {
    hide MastersInv, Pulse, LeftBehind, PacketsFrom, Run, HeartbeatRun, BumpedAt;
    if k == 0 {
      BumpsStart(states, ms, actions);
    } else {
      BumpsCounted(states, ms, actions, k - 1);
      HeartbeatRunMasters(states, ms, actions, k);
      HeartbeatRunMasters(states, ms, actions, k - 1);
      BumpsStep(states, ms, actions[k - 1], k);
    }
  }

  lemma LeftBehindStart(own: map<NodeId, Epoch>, h: map<NodeId, set<Epoch>>)
    requires h.Keys == own.Keys && forall i | i in h :: h[i] == {own[i]}
    ensures LeftBehind(own, h)
  {
  }

  lemma BumpsStart(states: seq<Bus>, ms: set<NodeId>, actions: seq<Action>)
    requires HeartbeatRun(states, ms, actions)
    ensures |states| == |actions| + 1
    ensures LeftBehind(Owns(states[0], ms), Histories(states, ms, 0))
            && PacketsFrom(states[0].net, Histories(states, ms, 0))
    ensures |Masters(states[0], ms)| == Total(Histories(states, ms, 0), Masters(states[0], ms))
  {
    hide HeartbeatRun, OwnOrZero, LeftBehind;
    StartsEmpty(states, ms, actions);
    var h := Histories(states, ms, 0);
    LeftBehindStart(Owns(states[0], ms), h);
    TotalOfOnes(h, Masters(states[0], ms));
  }

  lemma BumpsStep(states: seq<Bus>, ms: set<NodeId>, a: Action, k: nat)
    requires 0 < k < |states| && MastersInv(states[k - 1], ms) && MastersInv(states[k], ms)
             && Pulse(states[k - 1], ms, a, states[k])
    requires states[k].nodes.Keys == states[k - 1].nodes.Keys == states[0].nodes.Keys
    requires LeftBehind(Owns(states[k - 1], ms), Histories(states, ms, k - 1))
             && PacketsFrom(states[k - 1].net, Histories(states, ms, k - 1))
    ensures LeftBehind(Owns(states[k], ms), Histories(states, ms, k))
            && PacketsFrom(states[k].net, Histories(states, ms, k))
    ensures Total(Histories(states, ms, k), Masters(states[0], ms))
         == Total(Histories(states, ms, k - 1), Masters(states[0], ms)) + if BumpedAt(states, k) then 1 else 0
  {
    hide MastersInv, Pulse, OwnOrZero, LeftBehind, PacketsFrom;
    var s, t, nodes := states[k - 1], states[k], Masters(states[0], ms);
    var h, h' := Histories(states, ms, k - 1), Histories(states, ms, k);
    HistoriesStep(s, ms, a, t, h, h');
    if OwnOrZero(s, Actor(a)) == OwnOrZero(t, Actor(a)) {
      TotalSame(h, h', nodes);
      assert !BumpedAt(states, k) by { OthersStay(s, ms, a, t); }
    } else {
      TotalOneMore(h, h', nodes, Actor(a));
      assert BumpedAt(states, k);
    }
  }

  lemma OthersStay(s: Bus, ms: set<NodeId>, a: Action, t: Bus)
    requires MastersInv(s, ms) && Pulse(s, ms, a, t)
    ensures Actor(a) in s.nodes && forall j | j in s.nodes && j != Actor(a) :: OwnOrZero(s, j) == OwnOrZero(t, j)
  {
    SameOwn(s, ms, a, t);
  }

  lemma StartsEmpty(states: seq<Bus>, ms: set<NodeId>, actions: seq<Action>)
    requires HeartbeatRun(states, ms, actions)
    ensures |states| == |actions| + 1 && states[0].net == multiset{}
  {
  }

  /** At most 2^N - 1 - N collision bumps in any run of heartbeats of a cluster
      with N masters. */
  lemma CollisionBumpsBounded(states: seq<Bus>, ms: set<NodeId>, actions: seq<Action>, k: nat)
    requires HeartbeatRun(states, ms, actions) && k < |states|
    ensures var n := |Masters(states[0], ms)|; Bumps(states, k) <= Pow2(n) - 1 - n
  {
    BumpsCounted(states, ms, actions, k);
    TotalBound(Owns(states[k], ms), Histories(states, ms, k), Masters(states[0], ms));
  }

  /** Neither the master with the greatest name nor any replica ever bumps. */
  lemma GreatestNeverMoves(states: seq<Bus>, ms: set<NodeId>, actions: seq<Action>, k: nat, i: NodeId)
    requires HeartbeatRun(states, ms, actions) && k < |states|
    requires i in states[0].nodes && forall j | j in Masters(states[0], ms) :: j <= i || i !in ms
    ensures OwnOrZero(states[k], i) == OwnOrZero(states[0], i)
  {
    if i in ms {
      BumpsCounted(states, ms, actions, k);
      HadFirst(states, k, i);
      assert OwnOrZero(states[0], i) in Histories(states, ms, k)[i];
    } else {
      ReplicaStays(states, ms, actions, k, i);
    }
  }

  lemma {:induction false} ReplicaStays(states: seq<Bus>, ms: set<NodeId>, actions: seq<Action>, k: nat, i: NodeId)
    requires HeartbeatRun(states, ms, actions) && k < |states| && i in states[0].nodes && i !in ms
    ensures OwnOrZero(states[k], i) == OwnOrZero(states[0], i)
  {
    hide MastersInv, Pulse, OwnOrZero, HeartbeatRun;
    if k > 0 {
      ReplicaStays(states, ms, actions, k - 1, i);
      StartsEmpty(states, ms, actions);
      HeartbeatRunMasters(states, ms, actions, k);
      SameOwn(states[k - 1], ms, actions[k - 1], states[k]);
    }
  }

  lemma {:induction false} HadFirst(states: seq<Bus>, k: nat, i: NodeId)
    requires k < |states|
    ensures OwnOrZero(states[0], i) in Had(states, k, i)
  {
    if k > 0 {
      HadFirst(states, k - 1, i);
    }
  }

  /** A node's own epoch once it has processed a packet. */
  ghost function OwnAfter(i: NodeId, n: Node, e: Envelope): Epoch
    requires WellFormed(i, n)
  {
    var m := Process(i, n, e, false).node;
    if i in m.peers then m.peers[i].configEpoch else 0
  }

  /** A current PONG of `j` would make `i` bump. */
  ghost predicate BumpEnabled(s: Bus, ms: set<NodeId>, i: NodeId, j: NodeId)
    requires MastersInv(s, ms) && i in s.nodes && j in s.nodes
  {
    var pong := Envelope(i, BuildHeader(j, s.nodes[j], false), Pong);
    i != j && j in s.nodes[i].peers && Own(s, i) != OwnAfter(i, s.nodes[i], pong)
  }

  /** Whatever a node knows of the sender: a PING or PONG makes it bump exactly
      when both are masters, the sender has the greater name and announces the
      node's own epoch, and no greater epoch of the sender is known. */
  lemma BumpsIff(ms: set<NodeId>, i: NodeId, n: Node, hdr: Header)
    requires WellFormed(i, n) && Dominated(n) && Roles(ms, i, n) && hdr.sender in n.peers && hdr.sender != i
    requires hdr.configEpoch <= hdr.currentEpoch && (hdr.slaveof.None? <==> hdr.sender in ms)
    ensures var n1 := ProcessHeader(n, hdr);
            && WellFormed(i, n1)
            && (ProcessPing(i, n1, hdr).node.peers[i].configEpoch != n.peers[i].configEpoch <==>
                && i in ms && hdr.sender in ms && hdr.sender > i
                && n.peers[hdr.sender].configEpoch <= n.peers[i].configEpoch == hdr.configEpoch)
  {
    var n1 := ProcessHeader(n, hdr);
    HeaderAdvances(i, n, hdr);
    assert n1.peers[i].configEpoch <= n1.currentEpoch;
    HeaderKeeps(ms, i, n, hdr);
    assert n1.peers[hdr.sender].configEpoch == Max(n.peers[hdr.sender].configEpoch, hdr.configEpoch);
    hide Roles, ProcessHeader, SwitchRole, AdoptClaims, HandleCollision, Dominated;
    SwitchKeeps(ms, i, n1, hdr);
    SwitchRoleWellFormed(i, n1, hdr);
    var n2 := SwitchRole(n1, hdr);
    ClaimsKeep(ms, i, n2, hdr);
    CollisionBeats(ms, i, AdoptClaims(i, n2, hdr), hdr);
  }

  /** A PONG of one master to another that knows its epoch. */
  lemma PongBumps(ms: set<NodeId>, i: NodeId, n: Node, j: NodeId, m: Node)
    requires WellFormed(i, n) && Dominated(n) && Roles(ms, i, n) && i in n.peers && i in ms
    requires WellFormed(j, m) && Dominated(m) && Roles(ms, j, m) && j in m.peers && j in ms && i != j
    requires j in n.peers && n.peers[j].configEpoch == m.peers[j].configEpoch
    ensures OwnAfter(i, n, Envelope(i, BuildHeader(j, m, false), Pong)) != n.peers[i].configEpoch
       <==> n.peers[i].configEpoch == m.peers[j].configEpoch && j > i
  {
    var hdr := BuildHeader(j, m, false);
    HeaderDescribes(ms, j, m);
    assert hdr.configEpoch <= hdr.currentEpoch;
    hide Roles, ProcessPing, BuildHeader, ProcessHeader, Dominated;
    BumpsIff(ms, i, n, hdr);
  }

  lemma BumpCondition(s: Bus, ms: set<NodeId>, i: NodeId, j: NodeId)
    requires MastersInv(s, ms) && i in s.nodes && j in s.nodes && i != j && i in ms && j in ms
    requires j in s.nodes[i].peers && s.nodes[i].peers[j].configEpoch == Own(s, j)
    ensures BumpEnabled(s, ms, i, j) <==> Own(s, i) == Own(s, j) && j > i
  {
    hide Dominated, ViewsBehind, Timely, OwnAfter, BuildHeader;
    PongBumps(ms, i, s.nodes[i], j, s.nodes[j]);
  }

  /** Once every view of a master is current, collisions are over exactly when
      the masters' epochs are pairwise different. */
  lemma SettledIffDistinct(s: Bus, ms: set<NodeId>)
    requires MastersInv(s, ms)
    requires forall i, j | i in Masters(s, ms) && j in Masters(s, ms) ::
               j in s.nodes[i].peers && s.nodes[i].peers[j].configEpoch == Own(s, j)
    ensures (forall i, j | i in Masters(s, ms) && j in Masters(s, ms) :: !BumpEnabled(s, ms, i, j))
       <==> (forall i, j | i in Masters(s, ms) && j in Masters(s, ms) && i != j :: Own(s, i) != Own(s, j))
  {
    hide MastersInv, BumpEnabled;
    forall i, j | i in Masters(s, ms) && j in Masters(s, ms) && i != j
      ensures BumpEnabled(s, ms, i, j) <==> Own(s, i) == Own(s, j) && j > i
    {
      BumpCondition(s, ms, i, j);
    }
    forall i | i in Masters(s, ms) ensures !BumpEnabled(s, ms, i, i) {
      NoSelfBump(s, ms, i);
    }
    if i, j :| i in Masters(s, ms) && j in Masters(s, ms) && i != j && Own(s, i) == Own(s, j) {
      assert BumpEnabled(s, ms, i, j) || BumpEnabled(s, ms, j, i);
    }
  }

  lemma NoSelfBump(s: Bus, ms: set<NodeId>, i: NodeId)
    requires MastersInv(s, ms) && i in s.nodes
    ensures !BumpEnabled(s, ms, i, i)
  {
  }
}
