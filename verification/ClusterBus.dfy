/**
 The cluster bus as a transition system: every node's view of the cluster
 (server/src/cluster.h), the packets in flight, and one action for every way a
 node's epochs, roles or slots can change.

 Handlers are functions from a node's view to its next view and the packets it
 sends; `Apply` lifts them to the whole bus.  Time, links and failure
 detection are choices of the environment.
 */
module ClusterBus {
  import opened Options

  /** Node names are compared with memcmp, so all that matters is their order. */
  type NodeId = nat

  type Epoch = nat

  /** A clusterNode as one node sees it. */
  datatype Peer = Peer(configEpoch: Epoch, master: bool, slaveof: Option<NodeId>, failed: bool)

  /** The clusterState of one node. */
  datatype Node = Node(
    currentEpoch: Epoch,
    lastVoteEpoch: Epoch,
    peers: map<NodeId, Peer>,
    slots: seq<Option<NodeId>>,
    importing: set<nat>,
    size: nat,
    authEpoch: Epoch,
    authCount: nat,
    authSent: bool)

  datatype Header = Header(
    sender: NodeId,
    currentEpoch: Epoch,
    configEpoch: Epoch,
    slaveof: Option<NodeId>,
    slots: set<nat>,
    forceAck: bool)

  datatype Body =
    | Ping
    | Pong
    | AuthRequest
    | AuthAck
    | Update(about: NodeId, epoch: Epoch, claimed: set<nat>)

  datatype Envelope = Envelope(dst: NodeId, hdr: Header, body: Body)

  /** What a handler leaves behind: the node's new view and the packets sent. */
  datatype Outcome = Outcome(node: Node, sent: seq<Envelope>)

  /** Pointers of a view lead to nodes of its table. */
  ghost predicate WellFormed(me: NodeId, n: Node) {
    && me in n.peers
    && (forall j | 0 <= j < |n.slots| :: n.slots[j].Some? ==> n.slots[j].value in n.peers)
    && (forall p | p in n.peers :: n.peers[p].slaveof.Some? ==> n.peers[p].slaveof.value in n.peers)
  }

  /** The slots bitmap of peer `id`. */
  function SlotsOf(n: Node, id: NodeId): set<nat> {
    set j | 0 <= j < |n.slots| && n.slots[j] == Some(id)
  }

  /** `numslots > 0`. */
  predicate Serves(n: Node, id: NodeId) {
    Some(id) in n.slots
  }

  function Max(a: nat, b: nat): nat {
    if a < b then b else a
  }

  /** clusterBuildMessageHdr: a replica advertises its master's slots and epoch. */
  function BuildHeader(me: NodeId, n: Node, forceAck: bool): Header
    requires WellFormed(me, n)
  {
    var self := n.peers[me];
    var speaker := if !self.master && self.slaveof.Some? then self.slaveof.value else me;
    Header(me, n.currentEpoch, n.peers[speaker].configEpoch, self.slaveof, SlotsOf(n, speaker), forceAck)
  }

  /** The header part of clusterProcessPacket, for a known sender. */
  function ProcessHeader(n: Node, hdr: Header): Node
    requires hdr.sender in n.peers
  {
    var p := n.peers[hdr.sender];
    n.(currentEpoch := Max(n.currentEpoch, hdr.currentEpoch),
       peers := n.peers[hdr.sender := p.(configEpoch := Max(p.configEpoch, hdr.configEpoch))])
  }

  function SetNodeAsMaster(n: Node, id: NodeId): Node
    requires id in n.peers
  {
    if n.peers[id].master then n else n.(peers := n.peers[id := n.peers[id].(master := true, slaveof := None)])
  }

  /** clusterDelNodeSlots. */
  function DelNodeSlots(n: Node, id: NodeId): Node {
    n.(slots := seq(|n.slots|, j requires 0 <= j < |n.slots| => if n.slots[j] == Some(id) then None else n.slots[j]))
  }

  /** The master/replica switch announced by a PING or PONG. */
  function SwitchRole(n: Node, hdr: Header): Node
    requires hdr.sender in n.peers
  {
    if hdr.slaveof.None? then
      SetNodeAsMaster(n, hdr.sender)
    else
      var n1 := if n.peers[hdr.sender].master
                then DelNodeSlots(n.(peers := n.peers[hdr.sender := n.peers[hdr.sender].(master := false)]), hdr.sender)
                else n;
      if hdr.slaveof.value in n1.peers
      then n1.(peers := n1.peers[hdr.sender := n1.peers[hdr.sender].(slaveof := hdr.slaveof)])
      else n1
  }

  /** Whether slot `j` goes to `sender`, who claims it under `epoch`. */
  predicate Rebinds(n: Node, sender: NodeId, epoch: Epoch, j: nat)
    requires j < |n.slots|
    requires n.slots[j].Some? ==> n.slots[j].value in n.peers
  {
    && n.slots[j] != Some(sender)
    && j !in n.importing
    && (n.slots[j].None? || n.peers[n.slots[j].value].configEpoch < epoch)
  }

  /** clusterUpdateSlotsConfigWith. */
  function UpdateSlots(me: NodeId, n: Node, sender: NodeId, epoch: Epoch, claimed: set<nat>): Node
    requires WellFormed(me, n)
  {
    if sender == me then n else
      n.(slots := seq(|n.slots|, j requires 0 <= j < |n.slots| =>
                        if j in claimed && Rebinds(n, sender, epoch, j) then Some(sender) else n.slots[j]))
  }

  /** The first advertised slot that `n` knows to belong to a newer configuration. */
  function StaleOwner(n: Node, hdr: Header, from: nat): Option<NodeId>
    requires from <= |n.slots|
    requires forall j | 0 <= j < |n.slots| :: n.slots[j].Some? ==> n.slots[j].value in n.peers
    decreases |n.slots| - from
  {
    if from == |n.slots| then None
    else if from in hdr.slots && n.slots[from].Some? && n.slots[from] != Some(hdr.sender)
            && n.peers[n.slots[from].value].configEpoch > hdr.configEpoch
    then n.slots[from]
    else StaleOwner(n, hdr, from + 1)
  }

  /** clusterHandleConfigEpochCollision, behind the check its caller makes. */
  function HandleCollision(me: NodeId, n: Node, hdr: Header): Node
    requires me in n.peers && hdr.sender in n.peers
  {
    var mine, theirs := n.peers[me], n.peers[hdr.sender];
    if mine.master && theirs.master && hdr.configEpoch == mine.configEpoch
       && theirs.configEpoch == mine.configEpoch && hdr.sender > me
    then
      n.(currentEpoch := n.currentEpoch + 1,
         peers := n.peers[me := mine.(configEpoch := n.currentEpoch + 1)])
    else n
  }

  /** Whether the slots a header advertises differ from those the receiver has
      on record for the sender, or for the master of a replica. */
  predicate Dirty(n: Node, hdr: Header)
    requires hdr.sender in n.peers
  {
    var sender := n.peers[hdr.sender];
    var speaker := if sender.master then Some(hdr.sender) else sender.slaveof;
    speaker.Some? && SlotsOf(n, speaker.value) != hdr.slots
  }

  /** The slots taken over from a PING or PONG of a master. */
  function AdoptClaims(me: NodeId, n: Node, hdr: Header): Node
    requires WellFormed(me, n) && hdr.sender in n.peers
  {
    if Dirty(n, hdr) && n.peers[hdr.sender].master
    then UpdateSlots(me, n, hdr.sender, hdr.configEpoch, hdr.slots)
    else n
  }

  /** The UPDATE sent back to a sender whose claims are out of date. */
  function Correction(me: NodeId, n: Node, hdr: Header): seq<Envelope>
    requires WellFormed(me, n)
  {
    StaleOwnerKnown(n, hdr, 0);
    var stale := StaleOwner(n, hdr, 0);
    if stale.Some? then [Envelope(hdr.sender, BuildHeader(me, n, false), UpdateBody(n, stale.value))] else []
  }

  /** The PING and PONG branch of clusterProcessPacket, after the header. */
  function ProcessPing(me: NodeId, n: Node, hdr: Header): Outcome
    requires WellFormed(me, n) && hdr.sender in n.peers
  {
    SwitchRoleWellFormed(me, n, hdr);
    var n1 := SwitchRole(n, hdr);
    var n2 := AdoptClaims(me, n1, hdr);
    Outcome(HandleCollision(me, n2, hdr), if Dirty(n1, hdr) then Correction(me, n2, hdr) else [])
  }

  /** clusterSendUpdate: the configuration of `id` as `n` knows it. */
  function UpdateBody(n: Node, id: NodeId): Body
    requires id in n.peers
  {
    Update(id, n.peers[id].configEpoch, SlotsOf(n, id))
  }

  lemma SwitchRoleWellFormed(me: NodeId, n: Node, hdr: Header)
    requires WellFormed(me, n) && hdr.sender in n.peers
    ensures WellFormed(me, SwitchRole(n, hdr))
  {
  }

  lemma StaleOwnerKnown(n: Node, hdr: Header, from: nat)
    requires from <= |n.slots|
    requires forall j | 0 <= j < |n.slots| :: n.slots[j].Some? ==> n.slots[j].value in n.peers
    ensures StaleOwner(n, hdr, from).Some? ==> StaleOwner(n, hdr, from).value in n.peers
    decreases |n.slots| - from
  {
  }

  /** clusterSendFailoverAuthIfNeeded: the conditions for a vote. */
  ghost predicate Grants(me: NodeId, n: Node, hdr: Header, recentVote: bool)
    requires WellFormed(me, n) && hdr.sender in n.peers
  {
    var candidate := n.peers[hdr.sender];
    && n.peers[me].master && Serves(n, me)
    && hdr.currentEpoch >= n.currentEpoch
    && n.lastVoteEpoch != n.currentEpoch
    && !candidate.master && candidate.slaveof.Some?
    && (n.peers[candidate.slaveof.value].failed || hdr.forceAck)
    && !recentVote
    && (forall j | 0 <= j < |n.slots| && j in hdr.slots ::
          n.slots[j].Some? ==> n.peers[n.slots[j].value].configEpoch <= hdr.configEpoch)
  }

  ghost function Vote(me: NodeId, n: Node, hdr: Header, recentVote: bool): Outcome
    requires WellFormed(me, n) && hdr.sender in n.peers
  {
    if Grants(me, n, hdr, recentVote)
    then Outcome(n.(lastVoteEpoch := n.currentEpoch), [Envelope(hdr.sender, BuildHeader(me, n, false), AuthAck)])
    else Outcome(n, [])
  }

  /** The FAILOVER_AUTH_ACK branch. */
  function CountAck(n: Node, hdr: Header): Node
    requires hdr.sender in n.peers
  {
    if n.peers[hdr.sender].master && Serves(n, hdr.sender) && hdr.currentEpoch >= n.authEpoch
    then n.(authCount := n.authCount + 1)
    else n
  }

  /** The UPDATE branch. */
  function ProcessUpdate(me: NodeId, n: Node, about: NodeId, epoch: Epoch, claimed: set<nat>): Node
    requires WellFormed(me, n)
  {
    if about !in n.peers || n.peers[about].configEpoch >= epoch then n else
      var n1 := SetNodeAsMaster(n, about);
      UpdateSlots(me, n1.(peers := n1.peers[about := n1.peers[about].(configEpoch := epoch)]), about, epoch, claimed)
  }

  /** clusterProcessPacket.  A PING is answered before anything but its header
      is looked at. */
  ghost function Process(me: NodeId, n: Node, e: Envelope, recentVote: bool): Outcome
    requires WellFormed(me, n)
  {
    if e.hdr.sender !in n.peers then Outcome(n, []) else
      var n1 := ProcessHeader(n, e.hdr);
      match e.body
      case Ping =>
        var pong := Envelope(e.hdr.sender, BuildHeader(me, n1, false), Pong);
        var r := ProcessPing(me, n1, e.hdr);
        Outcome(r.node, [pong] + r.sent)
      case Pong => ProcessPing(me, n1, e.hdr)
      case AuthRequest => Vote(me, n1, e.hdr, recentVote)
      case AuthAck => Outcome(CountAck(n1, e.hdr), [])
      case Update(about, epoch, claimed) => Outcome(ProcessUpdate(me, n1, about, epoch, claimed), [])
  }

  /** clusterHandleSlaveFailover: what it checks before anything else. */
  predicate CanFailover(me: NodeId, n: Node, manual: bool)
    requires WellFormed(me, n)
  {
    var self := n.peers[me];
    && !self.master && self.slaveof.Some?
    && (n.peers[self.slaveof.value].failed || manual)
    && Serves(n, self.slaveof.value)
  }

  /** A new attempt is scheduled once the retry time has elapsed. */
  function Reschedule(n: Node): Node {
    n.(authCount := 0, authSent := false)
  }

  /** Ask for votes.  The count is left as it is. */
  function StartElection(n: Node): Node {
    n.(currentEpoch := n.currentEpoch + 1, authEpoch := n.currentEpoch + 1, authSent := true)
  }

  /** clusterRequestFailoverAuth: one header, broadcast to the linked nodes. */
  function RequestVotes(hdr: Header, to: seq<NodeId>): seq<Envelope> {
    seq(|to|, i requires 0 <= i < |to| => Envelope(to[i], hdr, AuthRequest))
  }

  function Quorum(n: Node): nat {
    n.size / 2 + 1
  }

  predicate HasQuorum(n: Node) {
    n.authSent && n.authCount >= Quorum(n)
  }

  /** clusterFailoverReplaceYourMaster. */
  function ReplaceYourMaster(me: NodeId, n: Node): Node
    requires WellFormed(me, n)
  {
    var self := n.peers[me];
    if self.master || self.slaveof.None? then n else
      SetNodeAsMaster(n, me).(
        slots := seq(|n.slots|, j requires 0 <= j < |n.slots| =>
                       if n.slots[j] == self.slaveof then Some(me) else n.slots[j]))
  }

  function Win(me: NodeId, n: Node): Node
    requires WellFormed(me, n)
  {
    ReplaceYourMaster(me,
                      n.(peers := n.peers[me :=
                           n.peers[me].(configEpoch := Max(n.peers[me].configEpoch, n.authEpoch))]))
  }

  /** clusterGetMaxEpoch is the current epoch or some greater known epoch. */
  ghost predicate HasMaxEpoch(me: NodeId, n: Node)
    requires me in n.peers
  {
    && n.peers[me].configEpoch >= n.currentEpoch
    && forall p | p in n.peers :: n.peers[p].configEpoch <= n.peers[me].configEpoch
  }

  /** clusterBumpConfigEpochWithoutConsensus. */
  ghost function Bump(me: NodeId, n: Node): Node
    requires me in n.peers
  {
    if n.peers[me].configEpoch == 0 || !HasMaxEpoch(me, n)
    then n.(currentEpoch := n.currentEpoch + 1,
            peers := n.peers[me := n.peers[me].(configEpoch := n.currentEpoch + 1)])
    else n
  }

  /** CLUSTER SET-CONFIG-EPOCH, for a node that knows nobody and has no epoch. */
  function WithConfigEpoch(me: NodeId, n: Node, epoch: Epoch): Node
    requires me in n.peers
  {
    n.(currentEpoch := Max(n.currentEpoch, epoch),
       peers := n.peers[me := n.peers[me].(configEpoch := epoch)])
  }

  /** The number of masters with at least one slot, from clusterUpdateState. */
  function VotersSeen(n: Node): set<NodeId> {
    set p | p in n.peers && n.peers[p].master && Serves(n, p)
  }

  /** clusterSetMaster. */
  function SetMaster(me: NodeId, n: Node, master: NodeId): Node
    requires me in n.peers
  {
    var importing := if n.peers[me].master then {} else n.importing;
    n.(peers := n.peers[me := n.peers[me].(master := false, slaveof := Some(master))], importing := importing)
  }

  // ------------------------------------------------------------------
  // The whole bus
  // ------------------------------------------------------------------

  datatype Ballot = Ballot(voter: NodeId, epoch: Epoch, candidate: NodeId)

  /** A won election: the voters whose ballots the winner had counted, the count
      it had started from, and the quorum it believed in. */
  datatype Victory = Victory(epoch: Epoch, winner: NodeId, voters: set<NodeId>, stale: nat, quorum: nat)

  /** History of one candidate's running election: the count it started from,
      and who has been counted since. */
  datatype Tally = Tally(stale: nat, voters: set<NodeId>)

  function VictoryOf(i: NodeId, n: Node, t: Tally): Victory {
    Victory(n.authEpoch, i, t.voters, t.stale, Quorum(n))
  }

  /** The nodes and the packets in flight, with the history of votes. */
  datatype Bus = Bus(
    nodes: map<NodeId, Node>,
    net: multiset<Envelope>,
    ballots: set<Ballot>,
    tallies: map<NodeId, Tally>,
    wins: set<Victory>)

  datatype Action =
    | Gossip(src: NodeId, dst: NodeId, ping: bool)
    | Deliver(env: Envelope, recentVote: bool)
    | Lose(env: Envelope)
    | Detect(at: NodeId, peer: NodeId, failed: bool)
    | ScheduleElection(at: NodeId, manual: bool)
    | BeginElection(at: NodeId, manual: bool, to: seq<NodeId>)
    | WinElection(at: NodeId, manual: bool)
    | BumpEpoch(at: NodeId)
    | SetConfigEpoch(at: NodeId, epoch: Epoch)
    | Takeover(at: NodeId)
    | Resize(at: NodeId)
    | Replicate(at: NodeId, master: NodeId)
    | BindSlot(at: NodeId, slot: nat, owner: Option<NodeId>)
    | SetImporting(at: NodeId, slot: nat, on: bool)

  function Actor(a: Action): NodeId {
    match a
    case Gossip(src, _, _) => src
    case Deliver(env, _) => env.dst
    case Lose(env) => env.dst
    case _ => a.at
  }

  ghost predicate WellFormedBus(s: Bus) {
    && s.tallies.Keys == s.nodes.Keys
    && forall i | i in s.nodes :: WellFormed(i, s.nodes[i])
  }

  /** What the acting node must see to act. */
  predicate Able(n: Node, a: Action)
    requires WellFormed(Actor(a), n)
  {
    match a
    case Gossip(src, dst, _) => dst != src
    case Detect(at, peer, _) => peer in n.peers && peer != at
    case ScheduleElection(at, manual) => CanFailover(at, n, manual)
    case BeginElection(at, manual, to) => CanFailover(at, n, manual) && !n.authSent && at !in to
    case WinElection(at, manual) => CanFailover(at, n, manual) && HasQuorum(n)
    case SetConfigEpoch(at, _) => n.peers.Keys == {at} && n.peers[at].configEpoch == 0
    case Takeover(at) => !n.peers[at].master && n.peers[at].slaveof.Some?
    case Replicate(at, master) => master in n.peers && master != at && !Serves(n, at)
    case BindSlot(_, slot, owner) => slot < |n.slots| && (owner.Some? ==> owner.value in n.peers)
    case _ => true
  }

  ghost predicate Enabled(s: Bus, a: Action) {
    && WellFormedBus(s)
    && Actor(a) in s.nodes
    && (a.Deliver? || a.Lose? ==> a.env in s.net)
    && Able(s.nodes[Actor(a)], a)
  }

  /** What the acting node does. */
  ghost function Act(n: Node, a: Action): Outcome
    requires WellFormed(Actor(a), n) && Able(n, a)
  {
    match a
    case Gossip(src, dst, ping) =>
      Outcome(n, [Envelope(dst, BuildHeader(src, n, false), if ping then Ping else Pong)])
    case Deliver(env, recentVote) => Process(env.dst, n, env, recentVote)
    case Lose(_) => Outcome(n, [])
    case Detect(_, peer, failed) => Outcome(n.(peers := n.peers[peer := n.peers[peer].(failed := failed)]), [])
    case ScheduleElection(_, _) => Outcome(Reschedule(n), [])
    case BeginElection(at, manual, to) =>
      var n' := StartElection(n);
      Outcome(n', RequestVotes(BuildHeader(at, n', manual), to))
    case WinElection(at, _) => Outcome(Win(at, n), [])
    case BumpEpoch(at) => Outcome(Bump(at, n), [])
    case SetConfigEpoch(at, epoch) => Outcome(WithConfigEpoch(at, n, epoch), [])
    case Takeover(at) => Outcome(ReplaceYourMaster(at, Bump(at, n)), [])
    case Resize(_) => Outcome(n.(size := |VotersSeen(n)|), [])
    case Replicate(at, master) => Outcome(SetMaster(at, n, master), [])
    case BindSlot(_, slot, owner) => Outcome(n.(slots := n.slots[slot := owner]), [])
    case SetImporting(_, slot, on) =>
      Outcome(n.(importing := if on then n.importing + {slot} else n.importing - {slot}), [])
  }

  function Consumed(a: Action): multiset<Envelope> {
    if a.Deliver? || a.Lose? then multiset{a.env} else multiset{}
  }

  /** Whether the action makes its node count one more vote. */
  predicate Counts(n: Node, a: Action) {
    && a.Deliver? && a.env.body.AuthAck?
    && a.env.hdr.sender in n.peers
    && CountAck(ProcessHeader(n, a.env.hdr), a.env.hdr).authCount == n.authCount + 1
  }

  ghost predicate CastsVote(n: Node, a: Action)
    requires WellFormed(Actor(a), n)
  {
    && a.Deliver? && a.env.body.AuthRequest?
    && a.env.hdr.sender in n.peers
    && Grants(a.env.dst, ProcessHeader(n, a.env.hdr), a.env.hdr, a.recentVote)
  }

  /** What an election can see of a step. */
  datatype Event =
    | Cast(request: Envelope, ack: Envelope)
    | Count(ack: Envelope)
    | Begin
    | Other

  ghost function EventOf(n: Node, a: Action): Event
    requires WellFormed(Actor(a), n)
  {
    if CastsVote(n, a) then
      Cast(a.env, Envelope(a.env.hdr.sender, BuildHeader(a.env.dst, ProcessHeader(n, a.env.hdr), false), AuthAck))
    else if Counts(n, a) then Count(a.env)
    else if a.BeginElection? then Begin
    else Other
  }

  /** The ballot an ACK stands for. */
  function BallotOf(ack: Envelope): Ballot {
    Ballot(ack.hdr.sender, ack.hdr.currentEpoch, ack.dst)
  }

  function BallotsAfter(ballots: set<Ballot>, ev: Event): set<Ballot> {
    if ev.Cast? then ballots + {BallotOf(ev.ack)} else ballots
  }

  function TallyAfter(n: Node, t: Tally, ev: Event): Tally {
    match ev
    case Begin => Tally(n.authCount, {})
    case Count(ack) => if n.authSent then t.(voters := t.voters + {ack.hdr.sender}) else t
    case _ => t
  }

  ghost function Apply(s: Bus, a: Action): Bus
    requires Enabled(s, a)
  {
    var i := Actor(a);
    var n := s.nodes[i];
    var r := Act(n, a);
    Bus(s.nodes[i := r.node],
        s.net - Consumed(a) + multiset(r.sent),
        BallotsAfter(s.ballots, EventOf(n, a)),
        s.tallies[i := TallyAfter(n, s.tallies[i], EventOf(n, a))],
        if a.WinElection? then s.wins + {VictoryOf(i, n, s.tallies[i])} else s.wins)
  }

  /** `states` is a run whose i-th step is `actions[i]`. */
  ghost predicate Run(states: seq<Bus>, actions: seq<Action>) {
    && |states| == |actions| + 1
    && forall i | 0 <= i < |actions| :: Enabled(states[i], actions[i]) && states[i + 1] == Apply(states[i], actions[i])
  }
}
