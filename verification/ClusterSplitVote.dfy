/**
 Why elections must start from a vote count of zero.

 Masters 0, 1 and 2 serve one slot each; 3 and 4 are replicas of 2, which the
 others see as failed.  Replica 3 asks for votes in epoch 1, gives up and
 reschedules, which resets its count; only then does the vote of 0 for epoch 1
 arrive, and it is counted.  The election of epoch 2 starts from that count, so
 one vote of epoch 2 makes a quorum, and replica 4 wins epoch 2 as well.
 */
module ClusterSplitVote {
  import opened Options
  import opened ClusterBus
  import opened ClusterEpochs
  import opened ClusterElection

  function Table(downSeen: bool): map<NodeId, Peer> {
    map[0 := Peer(0, true, None, false),
        1 := Peer(0, true, None, false),
        2 := Peer(0, true, None, downSeen),
        3 := Peer(0, false, Some(2), false),
        4 := Peer(0, false, Some(2), false)]
  }

  /** A node that differs from the others only in its epochs and its election. */
  function At(currentEpoch: Epoch, lastVoteEpoch: Epoch, authEpoch: Epoch, authCount: nat, authSent: bool,
      downSeen: bool): Node {
    Node(currentEpoch, lastVoteEpoch, Table(downSeen), [Some(0), Some(1), Some(2)], {}, 3, authEpoch, authCount,
        authSent)
  }

  function Voter(currentEpoch: Epoch, lastVoteEpoch: Epoch): Node {
    At(currentEpoch, lastVoteEpoch, 0, 0, false, true)
  }

  function Candidate(currentEpoch: Epoch, authEpoch: Epoch, authCount: nat, authSent: bool): Node {
    At(currentEpoch, 0, authEpoch, authCount, authSent, true)
  }

  const DOWN: Node := At(0, 0, 0, 0, false, false)

  function Masters(epoch: Epoch): set<NodeId> {
    {0, 1, 2}
  }

  function Request(src: NodeId, dst: NodeId, epoch: Epoch, manual: bool): Envelope {
    Envelope(dst, Header(src, epoch, 0, Some(2), {2}, manual), AuthRequest)
  }

  function Ack(src: NodeId, dst: NodeId, epoch: Epoch): Envelope {
    Envelope(dst, Header(src, epoch, 0, None, {src}, false), AuthAck)
  }

  /** What holds of every node of this cluster that still has its first table. */
  ghost predicate Member(n: Node) {
    && (n.peers == Table(true) || n.peers == Table(false))
    && n.slots == [Some(0), Some(1), Some(2)] && n.importing == {} && n.size == 3
  }

  lemma MemberFacts(n: Node)
    requires Member(n)
    ensures forall i | 0 <= i < 5 :: WellFormed(i, n)
    ensures forall i | 0 <= i < 3 :: Serves(n, i) && SlotsOf(n, i) == {i}
    ensures forall p | p in n.peers :: n.peers[p].configEpoch == 0
  {
    assert n.slots[0] == Some(0) && n.slots[1] == Some(1) && n.slots[2] == Some(2);
  }

  lemma HeaderKeepsTable(n: Node, hdr: Header)
    requires Member(n) && hdr.sender in n.peers && hdr.configEpoch == 0
    ensures ProcessHeader(n, hdr) == n.(currentEpoch := Max(n.currentEpoch, hdr.currentEpoch))
  {
    assert n.peers[hdr.sender := n.peers[hdr.sender]] == n.peers;
  }

  /** Master `me` votes for replica `c`. */
  lemma VoterVotes(me: NodeId, n: Node, c: NodeId, epoch: Epoch, manual: bool)
    requires Member(n) && 0 <= me < 3 && 3 <= c < 5
    requires n.lastVoteEpoch <= n.currentEpoch <= epoch && n.lastVoteEpoch < epoch
    requires n.peers == Table(true) || manual
    ensures WellFormed(me, n)
    ensures var a := Deliver(Request(c, me, epoch, manual), false);
            && Act(n, a) == Outcome(n.(currentEpoch := epoch, lastVoteEpoch := epoch), [Ack(me, c, epoch)])
            && EventOf(n, a) == Cast(a.env, Ack(me, c, epoch))
  {
    MemberFacts(n);
    var hdr := Request(c, me, epoch, manual).hdr;
    HeaderKeepsTable(n, hdr);
    var n1 := ProcessHeader(n, hdr);
    assert Member(n1);
    MemberFacts(n1);
    assert Grants(me, n1, hdr, false);
    assert BuildHeader(me, n1, false) == Ack(me, c, epoch).hdr;
  }

  /** Replica 4 learns an epoch from a request it may not vote on. */
  lemma ReplicaListens(n: Node, epoch: Epoch)
    requires Member(n) && n.currentEpoch <= epoch
    ensures WellFormed(4, n)
    ensures var a := Deliver(Request(3, 4, epoch, false), false);
            Act(n, a) == Outcome(n.(currentEpoch := epoch), []) && EventOf(n, a) == Other
  {
    MemberFacts(n);
    var hdr := Request(3, 4, epoch, false).hdr;
    HeaderKeepsTable(n, hdr);
    MemberFacts(ProcessHeader(n, hdr));
  }

  /** Replica `c` counts the vote of `v`. */
  lemma CandidateCounts(c: NodeId, n: Node, v: NodeId, epoch: Epoch)
    requires Member(n) && 3 <= c < 5 && 0 <= v < 3 && n.authEpoch <= epoch <= n.currentEpoch
    ensures WellFormed(c, n)
    ensures var a := Deliver(Ack(v, c, epoch), false);
            Act(n, a) == Outcome(n.(authCount := n.authCount + 1), []) && EventOf(n, a) == Count(a.env)
  {
    MemberFacts(n);
    var hdr := Ack(v, c, epoch).hdr;
    HeaderKeepsTable(n, hdr);
    MemberFacts(ProcessHeader(n, hdr));
  }

  lemma CandidateBegins(c: NodeId, n: Node, manual: bool, to: seq<NodeId>)
    requires Member(n) && 3 <= c < 5 && n.peers == Table(true) && !n.authSent && c !in to
    ensures WellFormed(c, n)
    ensures var a := BeginElection(c, manual, to);
            && Able(n, a)
            && Act(n, a).node == StartElection(n)
            && |Act(n, a).sent| == |to|
            && (forall i | 0 <= i < |to| :: Act(n, a).sent[i] == Request(c, to[i], n.currentEpoch + 1, manual))
            && EventOf(n, a) == Begin
  {
    MemberFacts(n);
    MemberFacts(StartElection(n));
    assert BuildHeader(c, StartElection(n), manual) == Request(c, 0, n.currentEpoch + 1, manual).hdr;
  }

  function Nodes(n0: Node, n1: Node, n2: Node, n3: Node, n4: Node): map<NodeId, Node> {
    map[0 := n0, 1 := n1, 2 := n2, 3 := n3, 4 := n4]
  }

  /** The start: everybody at epoch zero, nothing sent. */
  function Start(): Bus {
    var t := Tally(0, {});
    Bus(Nodes(Voter(0, 0), Voter(0, 0), DOWN, Candidate(0, 0, 0, false), Candidate(0, 0, 0, false)),
        multiset{}, {}, map[0 := t, 1 := t, 2 := t, 3 := t, 4 := t], {})
  }

  lemma StartNode(i: NodeId, n: Node)
    requires i < 5 && (n == At(0, 0, 0, 0, false, true) || n == DOWN)
    ensures WellFormed(i, n) && Dominated(n) && !n.authSent
  {
    MemberFacts(n);
  }

  lemma StartFresh()
    ensures Fresh(Start())
  {
    var s := Start();
    forall i | i in s.nodes
      ensures WellFormed(i, s.nodes[i]) && Dominated(s.nodes[i]) && !s.nodes[i].authSent
    {
      StartNode(i, s.nodes[i]);
    }
    assert forall c | c in s.tallies :: s.tallies[c] == Tally(0, {});
  }

  function Last(states: seq<Bus>): Bus
    requires |states| > 0
  {
    states[|states| - 1]
  }

  /** A run so far in which only masters 0, 1 and 2 vote. */
  ghost predicate Story(states: seq<Bus>, actions: seq<Action>) {
    && |states| > 0 && AgreedRun(Masters, states, actions)
    && WellFormedBus(Last(states)) && DominatedBus(Last(states))
  }

  /** The `i`-th step of a run with one step more. */
  lemma AppendedStep(states: seq<Bus>, actions: seq<Action>, a: Action, i: nat)
    requires AgreedRun(Masters, states, actions) && Enabled(Last(states), a) && AgreedStep(Masters, Last(states), a)
    requires i <= |actions|
    ensures var states', actions' := states + [Apply(Last(states), a)], actions + [a];
            && Enabled(states'[i], actions'[i]) && states'[i + 1] == Apply(states'[i], actions'[i])
            && AgreedStep(Masters, states'[i], actions'[i])
  {
    hide Apply, Fresh, CastsVote, Able, WellFormed;
    var states', actions' := states + [Apply(Last(states), a)], actions + [a];
    if i < |actions| {
      RunStep(states, actions, i);
      assert states'[i] == states[i] && states'[i + 1] == states[i + 1] && actions'[i] == actions[i];
    } else {
      assert states'[i] == Last(states) && actions'[i] == a;
    }
  }

  lemma AppendStep(states: seq<Bus>, actions: seq<Action>, a: Action)
    requires AgreedRun(Masters, states, actions) && Enabled(Last(states), a) && AgreedStep(Masters, Last(states), a)
    ensures AgreedRun(Masters, states + [Apply(Last(states), a)], actions + [a])
  {
    hide Apply, AgreedStep, Fresh, Able, WellFormed;
    var states', actions' := states + [Apply(Last(states), a)], actions + [a];
    assert states'[0] == states[0];
    forall i | 0 <= i < |actions'|
      ensures Enabled(states'[i], actions'[i]) && states'[i + 1] == Apply(states'[i], actions'[i])
      ensures AgreedStep(Masters, states'[i], actions'[i])
    {
      AppendedStep(states, actions, a, i);
    }
  }

  /** How one step changes the bus. */
  ghost predicate Moved(s: Bus, a: Action, m: Node, sent: seq<Envelope>, ev: Event, t: Bus)
    requires Actor(a) in s.nodes && Actor(a) in s.tallies
  {
    var i := Actor(a);
    && t.nodes == s.nodes[i := m]
    && t.net == s.net - Consumed(a) + multiset(sent)
    && t.tallies == s.tallies[i := TallyAfter(s.nodes[i], s.tallies[i], ev)]
    && t.wins == if a.WinElection? then s.wins + {VictoryOf(i, s.nodes[i], s.tallies[i])} else s.wins
  }

  lemma MovedBy(s: Bus, a: Action)
    requires Enabled(s, a)
    ensures var n := s.nodes[Actor(a)]; Moved(s, a, Act(n, a).node, Act(n, a).sent, EventOf(n, a), Apply(s, a))
  {
  }

  lemma MastersAgree(s: Bus, a: Action)
    requires Enabled(s, a)
    requires EventOf(s.nodes[Actor(a)], a).Cast? ==> Actor(a) < 3
    ensures AgreedStep(Masters, s, a)
  {
    hide Act, CastsVote, Counts, BuildHeader, WellFormed;
  }

  lemma Extend(states: seq<Bus>, actions: seq<Action>, a: Action, m: Node, sent: seq<Envelope>, ev: Event)
    returns (states': seq<Bus>, actions': seq<Action>)
    requires Story(states, actions) && Enabled(Last(states), a)
    requires var n := Last(states).nodes[Actor(a)];
             && Act(n, a) == Outcome(m, sent) && EventOf(n, a) == ev && (ev.Cast? ==> Actor(a) < 3)
    ensures Story(states', actions') && Moved(Last(states), a, m, sent, ev, Last(states'))
  {
    hide Apply, Act, EventOf, Enabled, AgreedRun, WellFormedBus, DominatedBus;
    var s := Last(states);
    MastersAgree(s, a);
    StepSound(s, a);
    MovedBy(s, a);
    AppendStep(states, actions, a);
    states', actions' := states + [Apply(s, a)], actions + [a];
    assert Last(states') == Apply(s, a);
  }

  /** A step of a member of the cluster whose effect is already known. */
  ghost predicate Known(s: Bus, a: Action, m: Node, sent: seq<Envelope>, ev: Event) {
    && Enabled(s, a)
    && var n := s.nodes[Actor(a)];
    && Act(n, a) == Outcome(m, sent) && EventOf(n, a) == ev
  }

  lemma KnownVote(s: Bus, me: NodeId, c: NodeId, epoch: Epoch, manual: bool)
    requires WellFormedBus(s) && me in s.nodes && Member(s.nodes[me]) && 0 <= me < 3 && 3 <= c < 5
    requires Request(c, me, epoch, manual) in s.net
    requires var n := s.nodes[me];
             n.lastVoteEpoch <= n.currentEpoch <= epoch && n.lastVoteEpoch < epoch && (n.peers == Table(true) || manual)
    ensures var n, e := s.nodes[me], Request(c, me, epoch, manual);
            Known(s, Deliver(e, false), n.(currentEpoch := epoch, lastVoteEpoch := epoch), [Ack(me, c, epoch)],
                Cast(e, Ack(me, c, epoch)))
  {
    VoterVotes(me, s.nodes[me], c, epoch, manual);
  }

  lemma KnownCount(s: Bus, c: NodeId, v: NodeId, epoch: Epoch)
    requires WellFormedBus(s) && c in s.nodes && Member(s.nodes[c]) && 3 <= c < 5 && 0 <= v < 3
    requires Ack(v, c, epoch) in s.net && s.nodes[c].authEpoch <= epoch <= s.nodes[c].currentEpoch
    ensures var n, e := s.nodes[c], Ack(v, c, epoch);
            Known(s, Deliver(e, false), n.(authCount := n.authCount + 1), [], Count(e))
  {
    CandidateCounts(c, s.nodes[c], v, epoch);
  }

  lemma KnownBegin(s: Bus, c: NodeId, manual: bool, to: seq<NodeId>, sent: seq<Envelope>)
    requires WellFormedBus(s) && c in s.nodes && Member(s.nodes[c]) && 3 <= c < 5 && !s.nodes[c].authSent && c !in to
    requires s.nodes[c].peers == Table(true)
    requires |sent| == |to| && forall i | 0 <= i < |to| ::
             sent[i] == Request(c, to[i], s.nodes[c].currentEpoch + 1, manual)
    ensures Known(s, BeginElection(c, manual, to), StartElection(s.nodes[c]), sent, Begin)
  {
    CandidateBegins(c, s.nodes[c], manual, to);
    assert Act(s.nodes[c], BeginElection(c, manual, to)).sent == sent;
  }

  lemma MemberCanFailover(c: NodeId, n: Node, manual: bool)
    requires Member(n) && 3 <= c < 5 && n.peers == Table(true)
    ensures WellFormed(c, n) && CanFailover(c, n, manual)
  {
    MemberFacts(n);
  }

  lemma KnownReschedule(s: Bus, c: NodeId)
    requires WellFormedBus(s) && c in s.nodes && Member(s.nodes[c]) && 3 <= c < 5 && s.nodes[c].peers == Table(true)
    ensures Known(s, ScheduleElection(c, false), Reschedule(s.nodes[c]), [], Other)
  {
    hide Table, Member, WellFormed, CanFailover;
    MemberCanFailover(c, s.nodes[c], false);
  }

  lemma KnownListen(s: Bus, epoch: Epoch)
    requires WellFormedBus(s) && 4 in s.nodes && Member(s.nodes[4]) && s.nodes[4].currentEpoch <= epoch
    requires Request(3, 4, epoch, false) in s.net
    ensures Known(s, Deliver(Request(3, 4, epoch, false), false), s.nodes[4].(currentEpoch := epoch), [], Other)
  {
    ReplicaListens(s.nodes[4], epoch);
  }

  lemma WinIs(c: NodeId, n: Node, manual: bool)
    requires WellFormed(c, n)
    ensures EventOf(n, WinElection(c, manual)) == Other
    ensures CanFailover(c, n, manual) && HasQuorum(n) ==> Act(n, WinElection(c, manual)) == Outcome(Win(c, n), [])
  {
    hide WellFormed, Grants, BuildHeader, CanFailover, HasQuorum, Win;
  }

  lemma KnownWin(s: Bus, c: NodeId, manual: bool)
    requires WellFormedBus(s) && c in s.nodes && Member(s.nodes[c]) && 3 <= c < 5
    requires s.nodes[c].peers == Table(true) && s.nodes[c].authSent && s.nodes[c].authCount == 2
    ensures WellFormed(c, s.nodes[c]) && Known(s, WinElection(c, manual), Win(c, s.nodes[c]), [], Other)
  {
    assert HasQuorum(s.nodes[c]);
    hide Table, Member, Win, WellFormed, CanFailover, EventOf, HasQuorum, Act;
    MemberCanFailover(c, s.nodes[c], manual);
    WinIs(c, s.nodes[c], manual);
  }

  /** What the story needs to know of a state: the nodes, the packets, and what
      the running elections of 3 and 4 started from. */
  datatype View = View(n0: Node, n1: Node, n2: Node, n3: Node, n4: Node, net: multiset<Envelope>, s3: nat, s4: nat)

  ghost predicate Scene(s: Bus, v: View) {
    && s.nodes == Nodes(v.n0, v.n1, v.n2, v.n3, v.n4) && s.net == v.net
    && 3 in s.tallies && 4 in s.tallies && s.tallies[3].stale == v.s3 && s.tallies[4].stale == v.s4
  }

  function With(v: View, i: NodeId, m: Node, used: multiset<Envelope>, sent: seq<Envelope>, ev: Event): View {
    View(if i == 0 then m else v.n0, if i == 1 then m else v.n1, if i == 2 then m else v.n2,
         if i == 3 then m else v.n3, if i == 4 then m else v.n4, v.net - used + multiset(sent),
         if i == 3 && ev.Begin? then v.n3.authCount else v.s3, if i == 4 && ev.Begin? then v.n4.authCount else v.s4)
  }

  lemma StaleAfter(n: Node, t: Tally, ev: Event)
    ensures TallyAfter(n, t, ev).stale == if ev.Begin? then n.authCount else t.stale
  {
  }

  lemma NodesAfter(v: View, i: NodeId, m: Node)
    requires i < 5
    ensures i in Nodes(v.n0, v.n1, v.n2, v.n3, v.n4)
    ensures Nodes(v.n0, v.n1, v.n2, v.n3, v.n4)[i := m] ==
            Nodes(if i == 0 then m else v.n0, if i == 1 then m else v.n1, if i == 2 then m else v.n2,
                  if i == 3 then m else v.n3, if i == 4 then m else v.n4)
  {
  }

  lemma SceneMoves(s: Bus, v: View, a: Action, m: Node, sent: seq<Envelope>, ev: Event, t: Bus)
    requires Scene(s, v) && Actor(a) < 5 && Actor(a) in s.nodes && Actor(a) in s.tallies && Moved(s, a, m, sent, ev, t)
    ensures Scene(t, With(v, Actor(a), m, Consumed(a), sent, ev))
  {
    var i := Actor(a);
    NodesAfter(v, i, m);
    StaleAfter(s.nodes[i], s.tallies[i], ev);
    assert i == 3 ==> s.nodes[i] == v.n3;
    assert i == 4 ==> s.nodes[i] == v.n4;
    hide Consumed, TallyAfter, Nodes, Actor, VictoryOf;
  }

  lemma Play(states: seq<Bus>, actions: seq<Action>, v: View, a: Action, m: Node, sent: seq<Envelope>, ev: Event)
    returns (states': seq<Bus>, actions': seq<Action>)
    requires Story(states, actions) && Scene(Last(states), v) && Known(Last(states), a, m, sent, ev)
    requires Actor(a) < 5 && (ev.Cast? ==> Actor(a) < 3)
    ensures Story(states', actions') && Scene(Last(states'), With(v, Actor(a), m, Consumed(a), sent, ev))
    ensures Actor(a) in Last(states).nodes && Actor(a) in Last(states).tallies
    ensures Last(states').wins ==
            if a.WinElection?
            then Last(states).wins + {VictoryOf(a.at, Last(states).nodes[a.at], Last(states).tallies[a.at])}
            else Last(states).wins
  {
    var s := Last(states);
    assert Enabled(s, a) && Actor(a) in s.nodes && Actor(a) in s.tallies;
    hide Act, Enabled, AgreedRun, WellFormedBus, DominatedBus, EventOf, Apply, Scene, With;
    states', actions' := Extend(states, actions, a, m, sent, ev);
    SceneMoves(s, v, a, m, sent, ev, Last(states'));
  }

  lemma Opening()
    ensures Story([Start()], []) && Start().wins == {}
  {
    StartFresh();
  }

  // One lemma for each step of the run.  The replicas' states are written
  // Candidate(currentEpoch, authEpoch, authCount, authSent).

  /** Replica 3 asks for votes in epoch 1. */
  lemma Asked() returns (states: seq<Bus>, actions: seq<Action>, v: View)
    ensures Story(states, actions) && Scene(Last(states), v) && Last(states).wins == {}
    ensures v == View(Voter(0, 0), Voter(0, 0), DOWN, Candidate(1, 1, 0, true), Candidate(0, 0, 0, false),
                      multiset{Request(3, 0, 1, false), Request(3, 4, 1, false)}, 0, 0)
  {
    hide Act, Enabled, AgreedRun, DominatedBus, EventOf, Apply, WellFormed, Table;
    Opening();
    states, actions := [Start()], [];
    v := View(Voter(0, 0), Voter(0, 0), DOWN, Candidate(0, 0, 0, false), Candidate(0, 0, 0, false), multiset{}, 0, 0);
    var toVoter, toReplica := Request(3, 0, 1, false), Request(3, 4, 1, false);
    KnownBegin(Start(), 3, false, [0, 4], [toVoter, toReplica]);
    states, actions := Play(states, actions, v, BeginElection(3, false, [0, 4]), Candidate(1, 1, 0, true),
                            [toVoter, toReplica], Begin);
    v := v.(n3 := Candidate(1, 1, 0, true), net := multiset{toVoter, toReplica});
    assert Scene(Last(states), v);
  }

  /** Master 0 votes for it. */
  lemma Voted() returns (states: seq<Bus>, actions: seq<Action>, v: View)
    ensures Story(states, actions) && Scene(Last(states), v) && Last(states).wins == {}
    ensures v == View(Voter(1, 1), Voter(0, 0), DOWN, Candidate(1, 1, 0, true), Candidate(0, 0, 0, false),
                      multiset{Request(3, 4, 1, false), Ack(0, 3, 1)}, 0, 0)
  {
    hide Act, Enabled, AgreedRun, DominatedBus, EventOf, Apply, WellFormed, Table;
    states, actions, v := Asked();
    var toVoter, ack := Request(3, 0, 1, false), Ack(0, 3, 1);
    KnownVote(Last(states), 0, 3, 1, false);
    states, actions := Play(states, actions, v, Deliver(toVoter, false), Voter(1, 1), [ack], Cast(toVoter, ack));
    v := v.(n0 := Voter(1, 1), net := multiset{Request(3, 4, 1, false), ack});
    assert Scene(Last(states), v);
  }

  /** Replica 4 learns of epoch 1. */
  lemma Heard() returns (states: seq<Bus>, actions: seq<Action>, v: View)
    ensures Story(states, actions) && Scene(Last(states), v) && Last(states).wins == {}
    ensures v == View(Voter(1, 1), Voter(0, 0), DOWN, Candidate(1, 1, 0, true), Candidate(1, 0, 0, false),
                      multiset{Ack(0, 3, 1)}, 0, 0)
  {
    hide Act, Enabled, AgreedRun, DominatedBus, EventOf, Apply, WellFormed, Table;
    states, actions, v := Voted();
    var toReplica := Request(3, 4, 1, false);
    KnownListen(Last(states), 1);
    states, actions := Play(states, actions, v, Deliver(toReplica, false), Candidate(1, 0, 0, false), [], Other);
    v := v.(n4 := Candidate(1, 0, 0, false), net := multiset{Ack(0, 3, 1)});
    assert Scene(Last(states), v);
  }

  /** Replica 3 gives up and reschedules, which resets its count. */
  lemma Rescheduled() returns (states: seq<Bus>, actions: seq<Action>, v: View)
    ensures Story(states, actions) && Scene(Last(states), v) && Last(states).wins == {}
    ensures v == View(Voter(1, 1), Voter(0, 0), DOWN, Candidate(1, 1, 0, false), Candidate(1, 0, 0, false),
                      multiset{Ack(0, 3, 1)}, 0, 0)
  {
    hide Act, Enabled, AgreedRun, DominatedBus, EventOf, Apply, WellFormed, Table;
    states, actions, v := Heard();
    KnownReschedule(Last(states), 3);
    states, actions := Play(states, actions, v, ScheduleElection(3, false), Candidate(1, 1, 0, false), [], Other);
    v := v.(n3 := Candidate(1, 1, 0, false));
    assert Scene(Last(states), v);
  }

  /** Only then does it count the vote of 0. */
  lemma LateVote() returns (states: seq<Bus>, actions: seq<Action>, v: View)
    ensures Story(states, actions) && Scene(Last(states), v) && Last(states).wins == {}
    ensures v == View(Voter(1, 1), Voter(0, 0), DOWN, Candidate(1, 1, 1, false), Candidate(1, 0, 0, false),
                      multiset{}, 0, 0)
  {
    hide Act, Enabled, AgreedRun, DominatedBus, EventOf, Apply, WellFormed, Table;
    states, actions, v := Rescheduled();
    var ack := Ack(0, 3, 1);
    KnownCount(Last(states), 3, 0, 1);
    states, actions := Play(states, actions, v, Deliver(ack, false), Candidate(1, 1, 1, false), [], Count(ack));
    v := v.(n3 := Candidate(1, 1, 1, false), net := multiset{});
    assert Scene(Last(states), v);
  }

  /** It asks again, in epoch 2, with that vote in its count. */
  lemma AskedAgain() returns (states: seq<Bus>, actions: seq<Action>, v: View)
    ensures Story(states, actions) && Scene(Last(states), v) && Last(states).wins == {}
    ensures v == View(Voter(1, 1), Voter(0, 0), DOWN, Candidate(2, 2, 1, true), Candidate(1, 0, 0, false),
                      multiset{Request(3, 1, 2, false)}, 1, 0)
  {
    hide Act, Enabled, AgreedRun, DominatedBus, EventOf, Apply, WellFormed, Table;
    states, actions, v := LateVote();
    var toVoter := Request(3, 1, 2, false);
    KnownBegin(Last(states), 3, false, [1], [toVoter]);
    states, actions := Play(states, actions, v, BeginElection(3, false, [1]), Candidate(2, 2, 1, true),
                            [toVoter], Begin);
    v := v.(n3 := Candidate(2, 2, 1, true), net := multiset{toVoter}, s3 := 1);
    assert Scene(Last(states), v);
  }

  lemma VotedAgain() returns (states: seq<Bus>, actions: seq<Action>, v: View)
    ensures Story(states, actions) && Scene(Last(states), v) && Last(states).wins == {}
    ensures v == View(Voter(1, 1), Voter(2, 2), DOWN, Candidate(2, 2, 1, true), Candidate(1, 0, 0, false),
                      multiset{Ack(1, 3, 2)}, 1, 0)
  {
    hide Act, Enabled, AgreedRun, DominatedBus, EventOf, Apply, WellFormed, Table;
    states, actions, v := AskedAgain();
    var toVoter, ack := Request(3, 1, 2, false), Ack(1, 3, 2);
    KnownVote(Last(states), 1, 3, 2, false);
    states, actions := Play(states, actions, v, Deliver(toVoter, false), Voter(2, 2), [ack], Cast(toVoter, ack));
    v := v.(n1 := Voter(2, 2), net := multiset{ack});
    assert Scene(Last(states), v);
  }

  /** One vote of epoch 2 makes a quorum. */
  lemma QuorumReached() returns (states: seq<Bus>, actions: seq<Action>, v: View)
    ensures Story(states, actions) && Scene(Last(states), v) && Last(states).wins == {}
    ensures v == View(Voter(1, 1), Voter(2, 2), DOWN, Candidate(2, 2, 2, true), Candidate(1, 0, 0, false),
                      multiset{}, 1, 0)
  {
    hide Act, Enabled, AgreedRun, DominatedBus, EventOf, Apply, WellFormed, Table;
    states, actions, v := VotedAgain();
    var ack := Ack(1, 3, 2);
    KnownCount(Last(states), 3, 1, 2);
    states, actions := Play(states, actions, v, Deliver(ack, false), Candidate(2, 2, 2, true), [], Count(ack));
    v := v.(n3 := Candidate(2, 2, 2, true), net := multiset{});
    assert Scene(Last(states), v);
  }

  /** Replica 3 has won epoch 2, with one vote left over from before. */
  ghost predicate FirstWinner(wins: set<Victory>) {
    exists w :: w in wins && w.epoch == 2 && w.winner == 3 && w.stale == 1 && w.quorum == 2
  }

  lemma FirstVictory() returns (states: seq<Bus>, actions: seq<Action>, v: View)
    ensures Story(states, actions) && Scene(Last(states), v) && FirstWinner(Last(states).wins)
    ensures v.n0 == Voter(1, 1) && v.n2 == DOWN && v.n4 == Candidate(1, 0, 0, false) && v.net == multiset{}
    ensures v.s4 == 0
  {
    hide Act, Enabled, AgreedRun, DominatedBus, EventOf, Apply, WellFormed, Table, Win;
    states, actions, v := QuorumReached();
    KnownWin(Last(states), 3, false);
    ghost var won := VictoryOf(3, v.n3, Last(states).tallies[3]);
    var m := Win(3, v.n3);
    states, actions := Play(states, actions, v, WinElection(3, false), m, [], Other);
    assert won in Last(states).wins;
    v := v.(n3 := m);
    assert Scene(Last(states), v);
  }

  /** Replica 4 starts a manual failover, also in epoch 2. */
  lemma RivalAsks() returns (states: seq<Bus>, actions: seq<Action>, v: View)
    ensures Story(states, actions) && Scene(Last(states), v) && FirstWinner(Last(states).wins)
    ensures v.n0 == Voter(1, 1) && v.n2 == DOWN && v.n4 == Candidate(2, 2, 0, true) && v.s4 == 0
    ensures v.net == multiset{Request(4, 0, 2, true), Request(4, 2, 2, true)}
  {
    hide Act, Enabled, AgreedRun, DominatedBus, EventOf, Apply, WellFormed, Table, FirstWinner;
    states, actions, v := FirstVictory();
    var to0, to2 := Request(4, 0, 2, true), Request(4, 2, 2, true);
    KnownBegin(Last(states), 4, true, [0, 2], [to0, to2]);
    states, actions := Play(states, actions, v, BeginElection(4, true, [0, 2]), Candidate(2, 2, 0, true),
                            [to0, to2], Begin);
    v := v.(n4 := Candidate(2, 2, 0, true), net := multiset{to0, to2});
    assert Scene(Last(states), v);
  }

  /** It gets the vote of 0. */
  lemma RivalVote() returns (states: seq<Bus>, actions: seq<Action>, v: View)
    ensures Story(states, actions) && Scene(Last(states), v) && FirstWinner(Last(states).wins)
    ensures v.n2 == DOWN && v.n4 == Candidate(2, 2, 0, true) && v.s4 == 0
    ensures v.net == multiset{Request(4, 2, 2, true), Ack(0, 4, 2)}
  {
    hide Act, Enabled, AgreedRun, DominatedBus, EventOf, Apply, WellFormed, Table, FirstWinner;
    states, actions, v := RivalAsks();
    var to0, ack0 := Request(4, 0, 2, true), Ack(0, 4, 2);
    KnownVote(Last(states), 0, 4, 2, true);
    states, actions := Play(states, actions, v, Deliver(to0, false), Voter(2, 2), [ack0], Cast(to0, ack0));
    v := v.(n0 := Voter(2, 2), net := multiset{Request(4, 2, 2, true), ack0});
    assert Scene(Last(states), v);
  }

  /** And that of 2. */
  lemma RivalVotes() returns (states: seq<Bus>, actions: seq<Action>, v: View)
    ensures Story(states, actions) && Scene(Last(states), v) && FirstWinner(Last(states).wins)
    ensures v.n4 == Candidate(2, 2, 0, true) && v.net == multiset{Ack(0, 4, 2), Ack(2, 4, 2)} && v.s4 == 0
  {
    hide Act, Enabled, AgreedRun, DominatedBus, EventOf, Apply, WellFormed, Table, FirstWinner;
    states, actions, v := RivalVote();
    var to2, ack2 := Request(4, 2, 2, true), Ack(2, 4, 2);
    KnownVote(Last(states), 2, 4, 2, true);
    var m := At(2, 2, 0, 0, false, false);
    states, actions := Play(states, actions, v, Deliver(to2, false), m, [ack2], Cast(to2, ack2));
    v := v.(n2 := m, net := multiset{Ack(0, 4, 2), ack2});
    assert Scene(Last(states), v);
  }

  lemma RivalCounts() returns (states: seq<Bus>, actions: seq<Action>, v: View)
    ensures Story(states, actions) && Scene(Last(states), v) && FirstWinner(Last(states).wins)
    ensures v.n4 == Candidate(2, 2, 1, true) && v.net == multiset{Ack(2, 4, 2)} && v.s4 == 0
  {
    hide Act, Enabled, AgreedRun, DominatedBus, EventOf, Apply, WellFormed, Table, FirstWinner;
    states, actions, v := RivalVotes();
    var ack0 := Ack(0, 4, 2);
    KnownCount(Last(states), 4, 0, 2);
    states, actions := Play(states, actions, v, Deliver(ack0, false), Candidate(2, 2, 1, true), [], Count(ack0));
    v := v.(n4 := Candidate(2, 2, 1, true), net := multiset{Ack(2, 4, 2)});
    assert Scene(Last(states), v);
  }

  lemma RivalQuorum() returns (states: seq<Bus>, actions: seq<Action>, v: View)
    ensures Story(states, actions) && Scene(Last(states), v) && FirstWinner(Last(states).wins)
    ensures v.n4 == Candidate(2, 2, 2, true) && v.net == multiset{} && v.s4 == 0
  {
    hide Act, Enabled, AgreedRun, DominatedBus, EventOf, Apply, WellFormed, Table, FirstWinner;
    states, actions, v := RivalCounts();
    var ack2 := Ack(2, 4, 2);
    KnownCount(Last(states), 4, 2, 2);
    states, actions := Play(states, actions, v, Deliver(ack2, false), Candidate(2, 2, 2, true), [], Count(ack2));
    v := v.(n4 := Candidate(2, 2, 2, true), net := multiset{});
    assert Scene(Last(states), v);
  }

  /** Two nodes win epoch 2 in one run of agreed voters, all of whom both count
      in their quorum.  One vote was left over, just as many as are too many for
      ElectionSafety. */
  lemma SplitVote() returns (states: seq<Bus>, actions: seq<Action>, w1: Victory, w2: Victory)
    ensures AgreedRun(Masters, states, actions) && |states| > 0
    ensures w1 in Last(states).wins && w2 in Last(states).wins
    ensures w1.epoch == w2.epoch && w1.winner != w2.winner
    ensures w1.quorum == w2.quorum == |Masters(w1.epoch)| / 2 + 1
    ensures w1.stale + w2.stale + |Masters(w1.epoch)| == w1.quorum + w2.quorum
  {
    hide Act, Enabled, AgreedRun, DominatedBus, EventOf, Apply, WellFormed, Table, Win;
    var v;
    states, actions, v := RivalQuorum();
    w1 :| w1 in Last(states).wins && w1.epoch == 2 && w1.winner == 3 && w1.stale == 1 && w1.quorum == 2;
    KnownWin(Last(states), 4, false);
    w2 := VictoryOf(4, v.n4, Last(states).tallies[4]);
    states, actions := Play(states, actions, v, WinElection(4, false), Win(4, v.n4), [], Other);
    assert |Masters(2)| == 3;
  }
}
