/**
 Epochs over whole runs of the cluster bus: every configEpoch in a table or in
 a packet is at most the currentEpoch that comes with it, and no epoch a node
 knows ever decreases.
 */
module ClusterEpochs {
  import opened Options
  import opened ClusterBus

  /** No epoch in the view exceeds the view's currentEpoch. */
  ghost predicate Dominated(n: Node) {
    && n.lastVoteEpoch <= n.currentEpoch
    && n.authEpoch <= n.currentEpoch
    && forall p | p in n.peers :: n.peers[p].configEpoch <= n.currentEpoch
  }

  ghost predicate DominatedPacket(e: Envelope) {
    && e.hdr.configEpoch <= e.hdr.currentEpoch
    && (e.body.Update? ==> e.body.epoch <= e.hdr.currentEpoch)
  }

  ghost predicate DominatedBus(s: Bus) {
    && (forall i | i in s.nodes :: Dominated(s.nodes[i]))
    && (forall e | e in s.net :: DominatedPacket(e))
  }

  /** `m` knows everything `n` knew, under epochs at least as great. */
  ghost predicate Grows(n: Node, m: Node) {
    && n.currentEpoch <= m.currentEpoch
    && n.lastVoteEpoch <= m.lastVoteEpoch
    && n.authEpoch <= m.authEpoch
    && n.peers.Keys == m.peers.Keys
    && forall p | p in n.peers :: n.peers[p].configEpoch <= m.peers[p].configEpoch
  }

  ghost predicate GrowsBus(s: Bus, t: Bus) {
    && s.nodes.Keys == t.nodes.Keys
    && forall i | i in s.nodes :: Grows(s.nodes[i], t.nodes[i])
  }

  /** What every change of a view keeps. */
  ghost predicate Advances(me: NodeId, n: Node, m: Node) {
    && WellFormed(me, m)
    && Dominated(m)
    && Grows(n, m)
    && |n.slots| == |m.slots|
  }

  ghost predicate AllDominated(sent: seq<Envelope>) {
    forall i | 0 <= i < |sent| :: DominatedPacket(sent[i])
  }

  /** What every handler keeps. */
  ghost predicate Sound(me: NodeId, n: Node, r: Outcome) {
    && Advances(me, n, r.node)
    && AllDominated(r.sent)
  }

  lemma HeaderAdvances(me: NodeId, n: Node, hdr: Header)
    requires WellFormed(me, n) && Dominated(n) && hdr.sender in n.peers && hdr.configEpoch <= hdr.currentEpoch
    ensures Advances(me, n, ProcessHeader(n, hdr))
    ensures hdr.currentEpoch <= ProcessHeader(n, hdr).currentEpoch
  {
  }

  lemma SetPeerAdvances(me: NodeId, n: Node, id: NodeId, p: Peer)
    requires WellFormed(me, n) && Dominated(n) && id in n.peers
    requires n.peers[id].configEpoch <= p.configEpoch <= n.currentEpoch
    requires p.slaveof.Some? ==> p.slaveof.value in n.peers
    ensures Advances(me, n, n.(peers := n.peers[id := p]))
  {
  }

  lemma DelNodeSlotsAdvances(me: NodeId, n: Node, id: NodeId)
    requires WellFormed(me, n) && Dominated(n)
    ensures Advances(me, n, DelNodeSlots(n, id))
  {
  }

  lemma SwitchRoleAdvances(me: NodeId, n: Node, hdr: Header)
    requires WellFormed(me, n) && Dominated(n) && hdr.sender in n.peers
    ensures Advances(me, n, SwitchRole(n, hdr))
  {
    var id := hdr.sender;
    var p := n.peers[id];
    if hdr.slaveof.None? {
      SetPeerAdvances(me, n, id, p.(master := true, slaveof := None));
      SetPeerAdvances(me, n, id, p);
    } else {
      var demoted := n.(peers := n.peers[id := p.(master := false)]);
      SetPeerAdvances(me, n, id, p.(master := false));
      DelNodeSlotsAdvances(me, demoted, id);
      var n1 := if p.master then DelNodeSlots(demoted, id) else n;
      if hdr.slaveof.value in n1.peers {
        SetPeerAdvances(me, n1, id, n1.peers[id].(slaveof := hdr.slaveof));
      }
    }
  }

  lemma UpdateSlotsAdvances(me: NodeId, n: Node, sender: NodeId, epoch: Epoch, claimed: set<nat>)
    requires WellFormed(me, n) && Dominated(n) && sender in n.peers
    ensures Advances(me, n, UpdateSlots(me, n, sender, epoch, claimed))
  {
  }

  lemma CollisionAdvances(me: NodeId, n: Node, hdr: Header)
    requires WellFormed(me, n) && Dominated(n) && hdr.sender in n.peers
    ensures Advances(me, n, HandleCollision(me, n, hdr))
  {
  }

  lemma BumpAdvances(me: NodeId, n: Node)
    requires WellFormed(me, n) && Dominated(n)
    ensures Advances(me, n, Bump(me, n))
  {
  }

  lemma ConfigEpochAdvances(me: NodeId, n: Node, epoch: Epoch)
    requires WellFormed(me, n) && Dominated(n) && n.peers.Keys == {me} && n.peers[me].configEpoch == 0
    ensures Advances(me, n, WithConfigEpoch(me, n, epoch))
  {
  }

  lemma ReplaceAdvances(me: NodeId, n: Node)
    requires WellFormed(me, n) && Dominated(n)
    ensures Advances(me, n, ReplaceYourMaster(me, n))
  {
  }

  lemma WinAdvances(me: NodeId, n: Node)
    requires WellFormed(me, n) && Dominated(n)
    ensures Advances(me, n, Win(me, n))
  {
    var n1 := n.(peers := n.peers[me := n.peers[me].(configEpoch := Max(n.peers[me].configEpoch, n.authEpoch))]);
    assert Advances(me, n, n1);
    ReplaceAdvances(me, n1);
  }

  lemma CorrectionDominated(me: NodeId, n: Node, hdr: Header)
    requires WellFormed(me, n) && Dominated(n)
    ensures AllDominated(Correction(me, n, hdr))
  {
    StaleOwnerKnown(n, hdr, 0);
  }

  lemma AdvancesTransitive(me: NodeId, n: Node, m: Node, o: Node)
    requires Advances(me, n, m) && Advances(me, m, o)
    ensures Advances(me, n, o)
  {
  }

  lemma PingSound(me: NodeId, n: Node, hdr: Header)
    requires WellFormed(me, n) && Dominated(n) && hdr.sender in n.peers
    ensures Sound(me, n, ProcessPing(me, n, hdr))
  {
    hide SwitchRole, UpdateSlots, HandleCollision, Correction, Dirty;
    SwitchRoleAdvances(me, n, hdr);
    var n1 := SwitchRole(n, hdr);
    UpdateSlotsAdvances(me, n1, hdr.sender, hdr.configEpoch, hdr.slots);
    var n2 := AdoptClaims(me, n1, hdr);
    AdvancesTransitive(me, n, n1, n2);
    CollisionAdvances(me, n2, hdr);
    CorrectionDominated(me, n2, hdr);
    AdvancesTransitive(me, n, n2, HandleCollision(me, n2, hdr));
  }

  lemma UpdateAdvances(me: NodeId, n: Node, about: NodeId, epoch: Epoch, claimed: set<nat>)
    requires WellFormed(me, n) && Dominated(n) && epoch <= n.currentEpoch
    ensures Advances(me, n, ProcessUpdate(me, n, about, epoch, claimed))
  {
    if about in n.peers && n.peers[about].configEpoch < epoch {
      var n1 := SetNodeAsMaster(n, about);
      var n2 := n1.(peers := n1.peers[about := n1.peers[about].(configEpoch := epoch)]);
      assert Advances(me, n, n2);
      UpdateSlotsAdvances(me, n2, about, epoch, claimed);
    }
  }

  lemma BuiltHeaderDominated(me: NodeId, n: Node, forceAck: bool)
    requires WellFormed(me, n) && Dominated(n)
    ensures var h := BuildHeader(me, n, forceAck); h.configEpoch <= h.currentEpoch
  {
  }

  lemma VoteSound(me: NodeId, n: Node, hdr: Header, recentVote: bool)
    requires WellFormed(me, n) && Dominated(n) && hdr.sender in n.peers
    ensures Sound(me, n, Vote(me, n, hdr, recentVote))
  {
    hide Grants, BuildHeader;
    BuiltHeaderDominated(me, n, false);
  }

  lemma AckAdvances(me: NodeId, n: Node, hdr: Header)
    requires WellFormed(me, n) && Dominated(n) && hdr.sender in n.peers
    ensures Advances(me, n, CountAck(n, hdr))
  {
  }

  lemma SoundAfter(me: NodeId, n: Node, m: Node, r: Outcome)
    requires Advances(me, n, m) && Sound(me, m, r)
    ensures Sound(me, n, r)
  {
    hide Dominated, WellFormed, AllDominated;
  }

  lemma PingAnswered(me: NodeId, n: Node, dst: NodeId, r: Outcome)
    requires WellFormed(me, n) && Dominated(n) && Sound(me, n, r)
    ensures Sound(me, n, Outcome(r.node, [Envelope(dst, BuildHeader(me, n, false), Pong)] + r.sent))
  {
    hide Advances, BuildHeader;
    BuiltHeaderDominated(me, n, false);
  }

  /** What is done with a packet once its header is processed. */
  ghost predicate Handles(me: NodeId, n: Node, e: Envelope, recentVote: bool, r: Outcome)
    requires WellFormed(me, n) && e.hdr.sender in n.peers
  {
    match e.body
    case Ping =>
      var p := ProcessPing(me, n, e.hdr);
      r == Outcome(p.node, [Envelope(e.hdr.sender, BuildHeader(me, n, false), Pong)] + p.sent)
    case Pong => r == ProcessPing(me, n, e.hdr)
    case AuthRequest => r == Vote(me, n, e.hdr, recentVote)
    case AuthAck => r == Outcome(CountAck(n, e.hdr), [])
    case Update(about, epoch, claimed) => r == Outcome(ProcessUpdate(me, n, about, epoch, claimed), [])
  }

  lemma ProcessHandles(me: NodeId, n: Node, e: Envelope, recentVote: bool)
    requires WellFormed(me, n) && e.hdr.sender in n.peers
    ensures var n1 := ProcessHeader(n, e.hdr);
            && WellFormed(me, n1) && e.hdr.sender in n1.peers
            && Handles(me, n1, e, recentVote, Process(me, n, e, recentVote))
  {
    var n1 := ProcessHeader(n, e.hdr);
    assert WellFormed(me, n1) && e.hdr.sender in n1.peers;
    hide ProcessHeader, ProcessPing, Vote, CountAck, ProcessUpdate, BuildHeader, WellFormed;
  }

  lemma ProcessSound(me: NodeId, n: Node, e: Envelope, recentVote: bool)
    requires WellFormed(me, n) && Dominated(n) && DominatedPacket(e)
    ensures Sound(me, n, Process(me, n, e, recentVote))
  {
    if e.hdr.sender in n.peers {
      var n1, r := ProcessHeader(n, e.hdr), Process(me, n, e, recentVote);
      HeaderAdvances(me, n, e.hdr);
      ProcessHandles(me, n, e, recentVote);
      assert Dominated(n1);
      hide ProcessHeader, Process, Handles, WellFormed, Dominated;
      HandledSound(me, n1, e, recentVote, r);
      SoundAfter(me, n, n1, r);
    } else {
      NothingSound(me, n);
    }
  }

  lemma NothingSound(me: NodeId, n: Node)
    requires WellFormed(me, n) && Dominated(n)
    ensures Sound(me, n, Outcome(n, []))
  {
  }

  lemma HandledSound(me: NodeId, n: Node, e: Envelope, recentVote: bool, r: Outcome)
    requires WellFormed(me, n) && Dominated(n) && e.hdr.sender in n.peers && Handles(me, n, e, recentVote, r)
    requires e.body.Update? ==> e.body.epoch <= n.currentEpoch
    ensures Sound(me, n, r)
  {
    hide ProcessPing, Vote, CountAck, ProcessUpdate, BuildHeader, Dominated, WellFormed, Advances;
    match e.body
    case Ping =>
      PingSound(me, n, e.hdr);
      PingAnswered(me, n, e.hdr.sender, ProcessPing(me, n, e.hdr));
    case Pong => PingSound(me, n, e.hdr);
    case AuthRequest => VoteSound(me, n, e.hdr, recentVote);
    case AuthAck => AckAdvances(me, n, e.hdr);
    case Update(about, epoch, claimed) => UpdateAdvances(me, n, about, epoch, claimed);
  }

  lemma StartSound(me: NodeId, n: Node, manual: bool, to: seq<NodeId>)
    requires WellFormed(me, n) && Dominated(n)
    ensures Sound(me, n, Outcome(StartElection(n), RequestVotes(BuildHeader(me, StartElection(n), manual), to)))
  {
    var n' := StartElection(n);
    assert Advances(me, n, n');
    var hdr := BuildHeader(me, n', manual);
    assert hdr.configEpoch <= hdr.currentEpoch;
  }

  lemma GossipSound(me: NodeId, n: Node, dst: NodeId, body: Body)
    requires WellFormed(me, n) && Dominated(n) && !body.Update?
    ensures Sound(me, n, Outcome(n, [Envelope(dst, BuildHeader(me, n, false), body)]))
  {
    hide BuildHeader;
    BuiltHeaderDominated(me, n, false);
  }

  lemma ReplicateAdvances(me: NodeId, n: Node, master: NodeId)
    requires WellFormed(me, n) && Dominated(n) && master in n.peers
    ensures Advances(me, n, SetMaster(me, n, master))
  {
  }

  lemma BindSlotAdvances(me: NodeId, n: Node, slot: nat, owner: Option<NodeId>)
    requires WellFormed(me, n) && Dominated(n) && slot < |n.slots| && (owner.Some? ==> owner.value in n.peers)
    ensures Advances(me, n, n.(slots := n.slots[slot := owner]))
  {
  }

  lemma DetectAdvances(me: NodeId, n: Node, peer: NodeId, failed: bool)
    requires WellFormed(me, n) && Dominated(n) && peer in n.peers
    ensures Advances(me, n, n.(peers := n.peers[peer := n.peers[peer].(failed := failed)]))
  {
  }

  /** The rest of a view plays no part. */
  lemma OthersAdvance(me: NodeId, n: Node, m: Node)
    requires WellFormed(me, n) && Dominated(n)
    requires m.peers == n.peers && m.slots == n.slots
    requires (m.currentEpoch, m.lastVoteEpoch, m.authEpoch) == (n.currentEpoch, n.lastVoteEpoch, n.authEpoch)
    ensures Advances(me, n, m)
  {
  }

  lemma ActSound(n: Node, a: Action)
    requires WellFormed(Actor(a), n) && Dominated(n) && Able(n, a)
    requires a.Deliver? ==> DominatedPacket(a.env)
    ensures Sound(Actor(a), n, Act(n, a))
  {
    hide Process, BuildHeader, Win, Bump, WithConfigEpoch, ReplaceYourMaster, SetMaster, VotersSeen, WellFormed,
        Dominated, Advances;
    match a
    case Deliver(env, recentVote) => ProcessSound(env.dst, n, env, recentVote);
    case BeginElection(at, manual, to) => StartSound(at, n, manual, to);
    case WinElection(at, _) => WinAdvances(at, n);
    case BumpEpoch(at) => BumpAdvances(at, n);
    case SetConfigEpoch(at, epoch) => ConfigEpochAdvances(at, n, epoch);
    case Takeover(at) =>
      BumpAdvances(at, n);
      TakeoverAdvances(at, n);
    case Gossip(src, dst, ping) => GossipSound(src, n, dst, if ping then Ping else Pong);
    case Replicate(at, master) => ReplicateAdvances(at, n, master);
    case BindSlot(at, slot, owner) => BindSlotAdvances(at, n, slot, owner);
    case Detect(at, peer, failed) => DetectAdvances(at, n, peer, failed);
    case _ => OthersAdvance(Actor(a), n, Act(n, a).node);
  }

  lemma TakeoverAdvances(me: NodeId, n: Node)
    requires WellFormed(me, n) && Dominated(n)
    ensures WellFormed(me, Bump(me, n)) && Advances(me, n, ReplaceYourMaster(me, Bump(me, n)))
  {
    hide Bump, ReplaceYourMaster;
    BumpAdvances(me, n);
    ReplaceAdvances(me, Bump(me, n));
    AdvancesTransitive(me, n, Bump(me, n), ReplaceYourMaster(me, Bump(me, n)));
  }

  lemma InNet(net: multiset<Envelope>, used: multiset<Envelope>, sent: seq<Envelope>, e: Envelope)
    requires e in net - used + multiset(sent)
    ensures e in net || e in sent
  {
  }

  /** What a step does to the nodes and to the packets. */
  lemma Applied(s: Bus, a: Action)
    requires Enabled(s, a)
    ensures var r := Act(s.nodes[Actor(a)], a);
            && Apply(s, a).nodes == s.nodes[Actor(a) := r.node]
            && Apply(s, a).net == s.net - Consumed(a) + multiset(r.sent)
            && Apply(s, a).tallies.Keys == Apply(s, a).nodes.Keys
  {
    hide Act, EventOf, Able, WellFormed;
  }

  lemma NodeSound(s: Bus, t: Bus, i: NodeId, m: Node)
    requires WellFormedBus(s) && i in s.nodes && Advances(i, s.nodes[i], m)
    requires forall j | j in s.nodes :: Dominated(s.nodes[j])
    requires t.nodes == s.nodes[i := m] && t.tallies.Keys == t.nodes.Keys
    ensures WellFormedBus(t) && GrowsBus(s, t) && forall j | j in t.nodes :: Dominated(t.nodes[j])
  {
    hide WellFormed, Dominated, Grows;
    forall j | j in s.nodes ensures Grows(s.nodes[j], t.nodes[j]) {
      GrowsReflexive(s.nodes[j]);
    }
  }

  lemma GrowsReflexive(n: Node)
    ensures Grows(n, n)
  {
  }

  lemma NetSound(net: multiset<Envelope>, used: multiset<Envelope>, sent: seq<Envelope>)
    requires AllDominated(sent) && forall e | e in net :: DominatedPacket(e)
    ensures forall e | e in net - used + multiset(sent) :: DominatedPacket(e)
  {
    hide DominatedPacket;
    forall e | e in net - used + multiset(sent) ensures DominatedPacket(e) {
      InNet(net, used, sent, e);
    }
  }

  /** One step of the bus. */
  lemma StepSound(s: Bus, a: Action)
    requires Enabled(s, a) && DominatedBus(s)
    ensures WellFormedBus(Apply(s, a)) && DominatedBus(Apply(s, a)) && GrowsBus(s, Apply(s, a))
  {
    hide Act, Apply, Able, WellFormed, Dominated, DominatedPacket, Advances, AllDominated, Consumed, GrowsBus;
    var i, t := Actor(a), Apply(s, a);
    var r := Act(s.nodes[i], a);
    ActSound(s.nodes[i], a);
    Applied(s, a);
    NodeSound(s, t, i, r.node);
    NetSound(s.net, Consumed(a), r.sent);
  }

  lemma NodeGrowsTransitive(n: Node, m: Node, o: Node)
    requires Grows(n, m) && Grows(m, o)
    ensures Grows(n, o)
  {
  }

  lemma GrowsTransitive(s: Bus, t: Bus, u: Bus)
    requires GrowsBus(s, t) && GrowsBus(t, u)
    ensures GrowsBus(s, u)
  {
    hide Grows;
    forall i | i in s.nodes
      ensures Grows(s.nodes[i], u.nodes[i])
    {
      NodeGrowsTransitive(s.nodes[i], t.nodes[i], u.nodes[i]);
    }
  }

  lemma RunStep(states: seq<Bus>, actions: seq<Action>, i: nat)
    requires Run(states, actions) && i < |actions|
    ensures |states| == |actions| + 1
    ensures Enabled(states[i], actions[i]) && states[i + 1] == Apply(states[i], actions[i])
  {
    hide Enabled, Apply;
  }

  /** Dominance and monotonicity over whole runs: in every state of a run each
      epoch is bounded by the currentEpoch it travels with, and between any two
      states no epoch of any node or of any peer it knows has decreased. */
  lemma {:induction false} EpochsOverRuns(states: seq<Bus>, actions: seq<Action>, i: nat, j: nat)
    requires Run(states, actions) && WellFormedBus(states[0]) && DominatedBus(states[0])
    requires i <= j < |states|
    ensures WellFormedBus(states[j]) && DominatedBus(states[j])
    ensures GrowsBus(states[i], states[j])
    decreases j
  {
    hide Dominated, Grows, WellFormed, WellFormedBus, DominatedBus, GrowsBus, Apply, Enabled, Run;
    if j == 0 {
      GrowsBusReflexive(states[0]);
    } else {
      EpochsOverRuns(states, actions, if i < j then i else i - 1, j - 1);
      RunLength(states, actions);
      RunStep(states, actions, j - 1);
      StepSound(states[j - 1], actions[j - 1]);
      if i < j {
        GrowsTransitive(states[i], states[j - 1], states[j]);
      } else {
        GrowsBusReflexive(states[j]);
      }
    }
  }

  lemma RunLength(states: seq<Bus>, actions: seq<Action>)
    requires Run(states, actions)
    ensures |states| == |actions| + 1
  {
    hide Enabled, Apply;
  }

  lemma GrowsBusReflexive(s: Bus)
    ensures GrowsBus(s, s)
  {
    hide Grows;
    forall i | i in s.nodes ensures Grows(s.nodes[i], s.nodes[i]) {
      GrowsReflexive(s.nodes[i]);
    }
  }
}
