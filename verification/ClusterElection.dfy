/**
 Replica elections: at most one node wins any epoch.

 Voters are whoever casts a vote; what is asked of a run is that, epoch by
 epoch, the nodes that vote belong to one agreed set.  An election need not start
 from a vote count of zero: the count is reset when an election is scheduled, and
 votes for the previous epoch that arrive before the new one starts are added to
 it.  How many of them two winners can have and still be one is what
 ElectionSafety says, and ClusterSplitVote that one more is too many.
 */
module ClusterElection {
  import opened Options
  import opened Counting
  import opened ClusterBus
  import opened ClusterEpochs

  /** Ballots: one per voter and epoch, never ahead of voter or candidate. */
  ghost predicate BallotsOk(s: Bus) {
    && (forall b | b in s.ballots ::
          && b.voter in s.nodes && b.epoch <= s.nodes[b.voter].lastVoteEpoch
          && b.candidate in s.nodes && b.epoch <= s.nodes[b.candidate].authEpoch)
    && (forall b, c | b in s.ballots && c in s.ballots && b.voter == c.voter && b.epoch == c.epoch :: b == c)
  }

  /** Requests carry an epoch of their sender; every ACK in flight is the only
      one for its ballot. */
  ghost predicate NetOk(s: Bus) {
    && (forall e | e in s.net :: e.hdr.sender in s.nodes)
    && (forall e | e in s.net && e.body.AuthRequest? :: e.hdr.currentEpoch <= s.nodes[e.hdr.sender].authEpoch)
    && (forall e | e in s.net && e.body.AuthAck? :: BallotOf(e) in s.ballots && s.net[e] == 1)
    && (forall e, f | e in s.net && f in s.net && e.body.AuthAck? && f.body.AuthAck? && BallotOf(e) == BallotOf(f) ::
       e == f)
  }

  /** The voters counted hold ballots for the running election, and none of
      their ACKs is still in flight. */
  ghost predicate TalliesOk(s: Bus) {
    && s.tallies.Keys == s.nodes.Keys
    && (forall c | c in s.nodes :: forall v | v in s.tallies[c].voters ::
          Ballot(v, s.nodes[c].authEpoch, c) in s.ballots)
    && (forall e | e in s.net && e.body.AuthAck? && e.dst in s.nodes
          && e.hdr.currentEpoch == s.nodes[e.dst].authEpoch :: e.hdr.sender !in s.tallies[e.dst].voters)
  }

  /** The vote count is what the election started from plus one for every
      voter of its epoch counted since. */
  ghost predicate CountsOk(s: Bus)
    requires s.tallies.Keys == s.nodes.Keys
  {
    forall c | c in s.nodes && s.nodes[c].authSent ::
      s.nodes[c].authCount == s.tallies[c].stale + |s.tallies[c].voters|
  }

  /** A victory rests on ballots, which make a quorum with what was left over
      from before the election. */
  ghost predicate WinsOk(s: Bus) {
    forall w | w in s.wins ::
      && w.stale + |w.voters| >= w.quorum
      && forall v | v in w.voters :: Ballot(v, w.epoch, w.winner) in s.ballots
  }

  ghost predicate ElectionInv(s: Bus) {
    && WellFormedBus(s) && DominatedBus(s)
    && BallotsOk(s) && NetOk(s) && TalliesOk(s) && CountsOk(s) && WinsOk(s)
  }

  /** What an event does to its node's election fields and to the election
      traffic. */
  ghost predicate Electoral(i: NodeId, n: Node, ev: Event, m: Node, sent: seq<Envelope>) {
    && (forall k | 0 <= k < |sent| :: sent[k].hdr.sender == i)
    && match ev
    case Cast(request, ack) =>
      && request.body.AuthRequest? && request.hdr.sender == ack.dst
      && ack.body.AuthAck? && sent == [ack]
      && request.hdr.currentEpoch == ack.hdr.currentEpoch == m.lastVoteEpoch
      && n.lastVoteEpoch < m.lastVoteEpoch
      && (m.authEpoch, m.authCount, m.authSent) == (n.authEpoch, n.authCount, n.authSent)
    case Count(ack) =>
      && ack.body.AuthAck? && ack.dst == i && sent == []
      && n.authEpoch <= ack.hdr.currentEpoch
      && (m.lastVoteEpoch, m.authEpoch, m.authCount, m.authSent)
         == (n.lastVoteEpoch, n.authEpoch, n.authCount + 1, n.authSent)
    case Begin =>
      && n.authEpoch < m.authEpoch && m.authSent
      && (m.lastVoteEpoch, m.authCount) == (n.lastVoteEpoch, n.authCount)
      && forall k | 0 <= k < |sent| :: sent[k].body.AuthRequest? && sent[k].hdr.currentEpoch == m.authEpoch
    case Other =>
      && (m.lastVoteEpoch, m.authEpoch) == (n.lastVoteEpoch, n.authEpoch)
      && (m.authSent ==> n.authSent && m.authCount == n.authCount)
      && forall k | 0 <= k < |sent| :: !sent[k].body.AuthRequest? && !sent[k].body.AuthAck?
  }

  /** The election fields of a view. */
  function Votes(n: Node): (Epoch, Epoch, nat, bool) {
    (n.lastVoteEpoch, n.authEpoch, n.authCount, n.authSent)
  }

  /** What is sent is from `me` and has nothing to do with elections. */
  ghost predicate Unelectoral(me: NodeId, sent: seq<Envelope>) {
    forall k | 0 <= k < |sent| :: sent[k].hdr.sender == me && !sent[k].body.AuthRequest? && !sent[k].body.AuthAck?
  }

  lemma OtherElectoral(me: NodeId, n: Node, m: Node, sent: seq<Envelope>)
    requires Votes(m) == Votes(n) && Unelectoral(me, sent)
    ensures Electoral(me, n, Other, m, sent)
  {
  }

  lemma SwitchLeavesVotes(n: Node, hdr: Header)
    requires hdr.sender in n.peers
    ensures Votes(SwitchRole(n, hdr)) == Votes(n)
  {
  }

  lemma CorrectionUnelectoral(me: NodeId, n: Node, hdr: Header)
    requires WellFormed(me, n)
    ensures Unelectoral(me, Correction(me, n, hdr))
  {
    StaleOwnerKnown(n, hdr, 0);
    hide StaleOwner;
  }

  lemma PingLeavesElection(me: NodeId, n: Node, hdr: Header)
    requires WellFormed(me, n) && hdr.sender in n.peers
    ensures var r := ProcessPing(me, n, hdr); Votes(r.node) == Votes(n) && Unelectoral(me, r.sent)
  {
    SwitchRoleWellFormed(me, n, hdr);
    SwitchLeavesVotes(n, hdr);
    var n1 := SwitchRole(n, hdr);
    assert Votes(AdoptClaims(me, n1, hdr)) == Votes(n1) && WellFormed(me, AdoptClaims(me, n1, hdr)) by {
      AdoptLeavesVotes(me, n1, hdr);
    }
    hide SwitchRole, AdoptClaims, Correction, Dirty, WellFormed;
    CorrectionUnelectoral(me, AdoptClaims(me, n1, hdr), hdr);
  }

  lemma AdoptLeavesVotes(me: NodeId, n: Node, hdr: Header)
    requires WellFormed(me, n) && hdr.sender in n.peers
    ensures var m := AdoptClaims(me, n, hdr); Votes(m) == Votes(n) && WellFormed(me, m)
  {
    hide Dirty;
  }

  lemma VoteElectoral(n: Node, a: Action)
    requires a.Deliver? && a.env.body.AuthRequest? && a.env.hdr.sender in n.peers
    requires WellFormed(Actor(a), n) && Dominated(n)
    requires WellFormed(Actor(a), ProcessHeader(n, a.env.hdr)) && Dominated(ProcessHeader(n, a.env.hdr))
    ensures Electoral(Actor(a), n, EventOf(n, a), Act(n, a).node, Act(n, a).sent)
  {
    var me, n1 := a.env.dst, ProcessHeader(n, a.env.hdr);
    assert Act(n, a) == Vote(me, n1, a.env.hdr, a.recentVote);
    if !Grants(me, n1, a.env.hdr, a.recentVote) {
      assert EventOf(n, a) == Other;
    }
  }

  /** An ACK counts if and only if it comes from a master with slots and is not
      of an older epoch than the election. */
  lemma AckElectoral(n: Node, a: Action)
    requires a.Deliver? && a.env.body.AuthAck? && a.env.hdr.sender in n.peers
    requires WellFormed(Actor(a), n)
    ensures Electoral(Actor(a), n, EventOf(n, a), Act(n, a).node, Act(n, a).sent)
    ensures EventOf(n, a) == Count(a.env) <==>
              && n.peers[a.env.hdr.sender].master && Serves(n, a.env.hdr.sender)
              && n.authEpoch <= a.env.hdr.currentEpoch
    ensures Act(n, a).node.authCount == n.authCount + if EventOf(n, a) == Count(a.env) then 1 else 0
  {
  }

  lemma UpdateLeavesVotes(me: NodeId, n: Node, about: NodeId, epoch: Epoch, claimed: set<nat>)
    requires WellFormed(me, n)
    ensures Votes(ProcessUpdate(me, n, about, epoch, claimed)) == Votes(n)
  {
  }

  lemma HeaderLeavesVotes(n: Node, hdr: Header)
    requires hdr.sender in n.peers
    ensures Votes(ProcessHeader(n, hdr)) == Votes(n)
  {
  }

  lemma HandledOther(me: NodeId, n: Node, e: Envelope, recentVote: bool, r: Outcome)
    requires WellFormed(me, n) && e.hdr.sender in n.peers && Handles(me, n, e, recentVote, r)
    requires e.body.Ping? || e.body.Pong? || e.body.Update?
    ensures Votes(r.node) == Votes(n) && Unelectoral(me, r.sent)
  {
    hide ProcessPing, ProcessUpdate, Votes, WellFormed;
    match e.body
    case Ping =>
      PingLeavesElection(me, n, e.hdr);
      assert BuildHeader(me, n, false).sender == me;
    case Pong => PingLeavesElection(me, n, e.hdr);
    case Update(about, epoch, claimed) => UpdateLeavesVotes(me, n, about, epoch, claimed);
    case _ =>
  }

  /** A packet that is no part of an election. */
  lemma OtherDelivery(n: Node, a: Action)
    requires a.Deliver? && WellFormed(Actor(a), n)
    requires a.env.hdr.sender !in n.peers || a.env.body.Ping? || a.env.body.Pong? || a.env.body.Update?
    ensures Votes(Act(n, a).node) == Votes(n) && Unelectoral(Actor(a), Act(n, a).sent)
  {
    var e := a.env;
    if e.hdr.sender in n.peers {
      HeaderLeavesVotes(n, e.hdr);
      ProcessHandles(e.dst, n, e, a.recentVote);
      hide ProcessHeader, Process, Votes, WellFormed, Handles, Unelectoral;
      HandledOther(e.dst, ProcessHeader(n, e.hdr), e, a.recentVote, Process(e.dst, n, e, a.recentVote));
    }
  }

  /** What a node does of its own accord, other than asking for votes. */
  lemma AdminElectoral(n: Node, a: Action)
    requires WellFormed(Actor(a), n) && Able(n, a) && !a.Deliver? && !a.BeginElection?
    ensures Electoral(Actor(a), n, Other, Act(n, a).node, Act(n, a).sent)
  {
    match a
    case Gossip(src, _, _) => OtherElectoral(src, n, n, Act(n, a).sent);
    case WinElection(at, _) => WinLeavesVotes(at, n);
    case Takeover(at) => TakeoverLeavesVotes(at, n);
    case BumpEpoch(at) =>
    case _ =>
      hide Win, Bump, ReplaceYourMaster, BuildHeader;
  }

  lemma WinLeavesVotes(me: NodeId, n: Node)
    requires WellFormed(me, n)
    ensures Votes(Win(me, n)) == Votes(n)
  {
  }

  lemma TakeoverLeavesVotes(me: NodeId, n: Node)
    requires WellFormed(me, n)
    ensures WellFormed(me, Bump(me, n)) && Votes(ReplaceYourMaster(me, Bump(me, n))) == Votes(n)
  {
  }

  lemma BeginElectoral(n: Node, a: Action)
    requires WellFormed(Actor(a), n) && Dominated(n) && Able(n, a) && a.BeginElection?
    ensures Electoral(Actor(a), n, Begin, Act(n, a).node, Act(n, a).sent)
  {
  }

  lemma DeliveryElectoral(n: Node, a: Action)
    requires a.Deliver? && WellFormed(Actor(a), n) && Dominated(n) && DominatedPacket(a.env)
    ensures Electoral(Actor(a), n, EventOf(n, a), Act(n, a).node, Act(n, a).sent)
  {
    var e := a.env;
    if e.hdr.sender in n.peers && e.body.AuthRequest? {
      HeaderAdvances(e.dst, n, e.hdr);
      VoteElectoral(n, a);
    } else if e.hdr.sender in n.peers && e.body.AuthAck? {
      AckElectoral(n, a);
    } else {
      hide Act, WellFormed, Dominated, DominatedPacket, Votes, Electoral, Unelectoral;
      OtherDelivery(n, a);
      OtherElectoral(Actor(a), n, Act(n, a).node, Act(n, a).sent);
      assert EventOf(n, a) == Other;
    }
  }

  lemma ActElectoral(s: Bus, a: Action)
    requires Enabled(s, a) && DominatedBus(s)
    ensures var n := s.nodes[Actor(a)]; Electoral(Actor(a), n, EventOf(n, a), Act(n, a).node, Act(n, a).sent)
  {
    var n := s.nodes[Actor(a)];
    hide Act, WellFormed, Dominated, DominatedPacket, Electoral, Able;
    if a.Deliver? {
      DeliveryElectoral(n, a);
    } else if a.BeginElection? {
      BeginElectoral(n, a);
      assert EventOf(n, a) == Begin;
    } else {
      AdminElectoral(n, a);
      assert EventOf(n, a) == Other;
    }
  }

  /** A step reduced to its event. */
  ghost predicate Moves(s: Bus, i: NodeId, ev: Event, used: multiset<Envelope>, sent: seq<Envelope>, t: Bus) {
    && i in s.nodes && t.nodes.Keys == s.nodes.Keys && i in s.tallies
    && Electoral(i, s.nodes[i], ev, t.nodes[i], sent)
    && (forall k | k in s.nodes && k != i :: t.nodes[k] == s.nodes[k])
    && used <= s.net
    && (ev.Cast? ==> ev.request in s.net)
    && (ev.Count? ==> ev.ack in used)
    && t.net == s.net - used + multiset(sent)
    && t.ballots == BallotsAfter(s.ballots, ev)
    && t.tallies == s.tallies[i := TallyAfter(s.nodes[i], s.tallies[i], ev)]
    && s.wins <= t.wins
    && forall w | w in t.wins && w !in s.wins ::
         w == VictoryOf(i, s.nodes[i], s.tallies[i]) && HasQuorum(s.nodes[i])
  }

  lemma StepMoves(s: Bus, a: Action)
    requires Enabled(s, a) && DominatedBus(s)
    ensures var i, r := Actor(a), Act(s.nodes[Actor(a)], a);
            Moves(s, i, EventOf(s.nodes[i], a), Consumed(a), r.sent, Apply(s, a))
  {
    hide Act, WellFormed, Electoral, DominatedBus, CastsVote, Counts, BallotsAfter, TallyAfter, Consumed;
    ActElectoral(s, a);
    EventPackets(s, a);
    Applied(s, a);
  }

  /** The packets an event is about are those delivered. */
  lemma EventPackets(s: Bus, a: Action)
    requires Enabled(s, a)
    ensures var ev := EventOf(s.nodes[Actor(a)], a);
            Consumed(a) <= s.net && (ev.Cast? ==> ev.request in s.net) && (ev.Count? ==> ev.ack in Consumed(a))
  {
    hide Act, WellFormed, Grants, CountAck, BuildHeader;
  }

  lemma VotesGrow(s: Bus, i: NodeId, ev: Event, used: multiset<Envelope>, sent: seq<Envelope>, t: Bus)
    requires Moves(s, i, ev, used, sent, t)
    ensures forall k | k in s.nodes ::
              k in t.nodes && s.nodes[k].lastVoteEpoch <= t.nodes[k].lastVoteEpoch
              && s.nodes[k].authEpoch <= t.nodes[k].authEpoch
  {
  }

  /** A ballot just cast: of an epoch its voter had not voted in, and not ahead
      of the candidate. */
  lemma NewBallot(s: Bus, i: NodeId, ev: Event, used: multiset<Envelope>, sent: seq<Envelope>, t: Bus)
    requires Moves(s, i, ev, used, sent, t) && NetOk(s) && ev.Cast?
    ensures var b := BallotOf(ev.ack);
            && b.voter == i && b.epoch == t.nodes[i].lastVoteEpoch > s.nodes[i].lastVoteEpoch
            && b.candidate in s.nodes && b.epoch <= s.nodes[b.candidate].authEpoch
  {
    assert ev.request in s.net && sent[0] == ev.ack;
  }

  lemma BallotsKept(s: Bus, i: NodeId, ev: Event, used: multiset<Envelope>, sent: seq<Envelope>, t: Bus)
    requires Moves(s, i, ev, used, sent, t) && BallotsOk(s) && NetOk(s)
    ensures BallotsOk(t)
  {
    VotesGrow(s, i, ev, used, sent, t);
    if ev.Cast? {
      NewBallot(s, i, ev, used, sent, t);
    }
    hide Electoral, NetOk, BallotOf;
  }

  /** An ACK in flight after a step was in flight before it and not consumed,
      or is the one just sent for a ballot nobody held before. */
  lemma AckSource(s: Bus, i: NodeId, ev: Event, used: multiset<Envelope>, sent: seq<Envelope>, t: Bus, e: Envelope)
    requires Moves(s, i, ev, used, sent, t) && BallotsOk(s) && NetOk(s)
    requires e in t.net && e.body.AuthAck?
    ensures t.net[e] == 1
    ensures (e in s.net && e !in used && !(ev.Cast? && ev.ack == e))
            || (ev.Cast? && ev.ack == e && BallotOf(e) !in s.ballots)
  {
    InNet(s.net, used, sent, e);
    if e in sent {
      assert sent == [e] && BallotOf(e) !in s.ballots;
      assert e !in s.net;
      assert multiset(sent)[e] == 1;
    } else {
      assert multiset(sent)[e] == 0;
      assert s.net[e] == 1;
    }
  }

  lemma NetKept(s: Bus, i: NodeId, ev: Event, used: multiset<Envelope>, sent: seq<Envelope>, t: Bus)
    requires Moves(s, i, ev, used, sent, t) && BallotsOk(s) && NetOk(s)
    ensures NetOk(t)
  {
    forall e | e in t.net
      ensures e.hdr.sender in t.nodes
      ensures e.body.AuthRequest? ==> e.hdr.currentEpoch <= t.nodes[e.hdr.sender].authEpoch
      ensures e.body.AuthAck? ==> BallotOf(e) in t.ballots && t.net[e] == 1
    {
      InNet(s.net, used, sent, e);
      if e.body.AuthAck? {
        AckSource(s, i, ev, used, sent, t, e);
      }
    }
    forall e, f | e in t.net && f in t.net && e.body.AuthAck? && f.body.AuthAck? && BallotOf(e) == BallotOf(f)
      ensures e == f
    {
      AckSource(s, i, ev, used, sent, t, e);
      AckSource(s, i, ev, used, sent, t, f);
    }
  }

  lemma VotersHoldBallots(s: Bus, i: NodeId, ev: Event, used: multiset<Envelope>, sent: seq<Envelope>, t: Bus,
      c: NodeId, v: NodeId)
    requires Moves(s, i, ev, used, sent, t) && BallotsOk(s) && NetOk(s) && TalliesOk(s)
    requires c in t.nodes && v in t.tallies[c].voters
    ensures Ballot(v, t.nodes[c].authEpoch, c) in t.ballots
  {
    if c == i && ev.Count? && v == ev.ack.hdr.sender {
      assert BallotOf(ev.ack) in s.ballots;
    }
  }

  lemma AcksNotCounted(s: Bus, i: NodeId, ev: Event, used: multiset<Envelope>, sent: seq<Envelope>, t: Bus, e: Envelope)
    requires Moves(s, i, ev, used, sent, t) && BallotsOk(s) && NetOk(s) && TalliesOk(s)
    requires e in t.net && e.body.AuthAck? && e.dst in t.nodes && e.hdr.currentEpoch == t.nodes[e.dst].authEpoch
    ensures e.hdr.sender !in t.tallies[e.dst].voters
  {
    AckSource(s, i, ev, used, sent, t, e);
    if ev.Cast? && ev.ack == e {
      NewAckNotCounted(s, i, ev, used, sent, t);
    } else {
      OldAckNotCounted(s, i, ev, used, sent, t, e);
    }
  }

  /** Whoever is counted holds a ballot, which the new one is not. */
  lemma NewAckNotCounted(s: Bus, i: NodeId, ev: Event, used: multiset<Envelope>, sent: seq<Envelope>, t: Bus)
    requires Moves(s, i, ev, used, sent, t) && BallotsOk(s) && NetOk(s) && TalliesOk(s) && ev.Cast?
    requires ev.ack.dst in t.nodes && ev.ack.hdr.currentEpoch == t.nodes[ev.ack.dst].authEpoch
    ensures ev.ack.hdr.sender !in t.tallies[ev.ack.dst].voters
  {
    NewBallot(s, i, ev, used, sent, t);
    var c := ev.ack.dst;
    assert t.tallies[c] == s.tallies[c] && t.nodes[c].authEpoch == s.nodes[c].authEpoch;
    hide Electoral, NetOk;
  }

  lemma OldAckNotCounted(
      s: Bus, i: NodeId, ev: Event, used: multiset<Envelope>, sent: seq<Envelope>, t: Bus, e: Envelope)
    requires Moves(s, i, ev, used, sent, t) && BallotsOk(s) && NetOk(s) && TalliesOk(s)
    requires e in s.net && e !in used && e.body.AuthAck?
    requires e.dst in t.nodes && e.hdr.currentEpoch == t.nodes[e.dst].authEpoch
    ensures e.hdr.sender !in t.tallies[e.dst].voters
  {
    assert BallotOf(e) in s.ballots;
    if e.dst == i && ev.Count? {
      assert BallotOf(ev.ack) in s.ballots && BallotOf(e) != BallotOf(ev.ack);
    }
    hide BallotsOk;
  }

  lemma TalliesKept(s: Bus, i: NodeId, ev: Event, used: multiset<Envelope>, sent: seq<Envelope>, t: Bus)
    requires Moves(s, i, ev, used, sent, t) && BallotsOk(s) && NetOk(s) && TalliesOk(s)
    ensures TalliesOk(t)
  {
    forall c, v | c in t.nodes && v in t.tallies[c].voters
      ensures Ballot(v, t.nodes[c].authEpoch, c) in t.ballots
    {
      VotersHoldBallots(s, i, ev, used, sent, t, c, v);
    }
    forall e | e in t.net && e.body.AuthAck? && e.dst in t.nodes && e.hdr.currentEpoch == t.nodes[e.dst].authEpoch
      ensures e.hdr.sender !in t.tallies[e.dst].voters
    {
      AcksNotCounted(s, i, ev, used, sent, t, e);
    }
  }

  lemma OneMore<T>(a: set<T>, x: T)
    requires x !in a
    ensures |a + {x}| == |a| + 1
  {
  }

  /** A vote counted is one that was not. */
  lemma NewVoter(s: Bus, i: NodeId, ev: Event, used: multiset<Envelope>, sent: seq<Envelope>, t: Bus)
    requires Moves(s, i, ev, used, sent, t) && NetOk(s) && BallotsOk(s) && TalliesOk(s) && ev.Count?
    ensures ev.ack.hdr.sender !in s.tallies[i].voters
  {
    assert ev.ack in s.net && BallotOf(ev.ack) in s.ballots;
  }

  lemma CountsKept(s: Bus, i: NodeId, ev: Event, used: multiset<Envelope>, sent: seq<Envelope>, t: Bus)
    requires Moves(s, i, ev, used, sent, t) && NetOk(s) && BallotsOk(s) && TalliesOk(s) && CountsOk(s)
    requires t.tallies.Keys == t.nodes.Keys
    ensures CountsOk(t)
  {
    if ev.Count? {
      NewVoter(s, i, ev, used, sent, t);
      OneMore(s.tallies[i].voters, ev.ack.hdr.sender);
    }
    hide NetOk, BallotsOk, TalliesOk;
    forall c | c in t.nodes && t.nodes[c].authSent
      ensures t.nodes[c].authCount == t.tallies[c].stale + |t.tallies[c].voters|
    {
      if c != i {
        assert t.nodes[c] == s.nodes[c] && t.tallies[c] == s.tallies[c];
      }
    }
  }

  lemma WinsKept(s: Bus, i: NodeId, ev: Event, used: multiset<Envelope>, sent: seq<Envelope>, t: Bus)
    requires Moves(s, i, ev, used, sent, t) && TalliesOk(s) && CountsOk(s) && WinsOk(s)
    ensures WinsOk(t)
  {
  }

  lemma ElectionStep(s: Bus, a: Action)
    requires ElectionInv(s) && Enabled(s, a)
    ensures ElectionInv(Apply(s, a))
  {
    var i, t := Actor(a), Apply(s, a);
    var ev, sent := EventOf(s.nodes[i], a), Act(s.nodes[i], a).sent;
    StepMoves(s, a);
    StepSound(s, a);
    ElectionMove(s, i, ev, Consumed(a), sent, t);
  }

  lemma ElectionMove(s: Bus, i: NodeId, ev: Event, used: multiset<Envelope>, sent: seq<Envelope>, t: Bus)
    requires ElectionInv(s) && Moves(s, i, ev, used, sent, t)
    requires WellFormedBus(t) && DominatedBus(t)
    ensures ElectionInv(t)
  {
    BallotsKept(s, i, ev, used, sent, t);
    NetKept(s, i, ev, used, sent, t);
    TalliesKept(s, i, ev, used, sent, t);
    CountsKept(s, i, ev, used, sent, t);
    WinsKept(s, i, ev, used, sent, t);
  }

  /** Nothing sent, nobody elected, no election running. */
  ghost predicate Fresh(s: Bus) {
    && WellFormedBus(s) && DominatedBus(s)
    && s.net == multiset{} && s.ballots == {} && s.wins == {}
    && forall c | c in s.nodes :: !s.nodes[c].authSent && s.tallies[c].voters == {}
  }

  /** What the run owes to `voters`, the agreed voting masters of each epoch:
      only they vote. */
  ghost predicate AgreedStep(voters: Epoch -> set<NodeId>, s: Bus, a: Action)
    requires WellFormedBus(s) && Actor(a) in s.nodes
  {
    CastsVote(s.nodes[Actor(a)], a) ==> Actor(a) in voters(a.env.hdr.currentEpoch)
  }

  ghost predicate AgreedRun(voters: Epoch -> set<NodeId>, states: seq<Bus>, actions: seq<Action>) {
    && Run(states, actions)
    && Fresh(states[0])
    && forall i | 0 <= i < |actions| :: AgreedStep(voters, states[i], actions[i])
  }

  /** No winner believes the cluster smaller than the set of agreed voters. */
  ghost predicate SizeKnown(voters: Epoch -> set<NodeId>, s: Bus, a: Action)
    requires Actor(a) in s.nodes
  {
    a.WinElection? ==> |voters(s.nodes[a.at].authEpoch)| <= s.nodes[a.at].size
  }

  /** An election that starts with failover_auth_count at zero. */
  ghost predicate CleanStart(s: Bus, a: Action)
    requires Actor(a) in s.nodes
  {
    a.BeginElection? ==> s.nodes[Actor(a)].authCount == 0
  }

  ghost predicate CleanRun(voters: Epoch -> set<NodeId>, states: seq<Bus>, actions: seq<Action>)
    requires AgreedRun(voters, states, actions)
  {
    forall i | 0 <= i < |actions| :: CleanStart(states[i], actions[i]) && SizeKnown(voters, states[i], actions[i])
  }

  ghost predicate BallotsAgreed(voters: Epoch -> set<NodeId>, s: Bus) {
    forall b | b in s.ballots :: b.voter in voters(b.epoch)
  }

  /** Every running election is an honest one, and every victory rests on a
      majority of its epoch's voters. */
  ghost predicate Backed(voters: Epoch -> set<NodeId>, s: Bus)
    requires s.tallies.Keys == s.nodes.Keys
  {
    && (forall c | c in s.nodes && s.nodes[c].authSent :: s.tallies[c].stale == 0)
    && (forall w | w in s.wins ::
          w.stale == 0 && w.voters <= voters(w.epoch) && 2 * |w.voters| > |voters(w.epoch)|)
  }

  lemma AgreedMove(voters: Epoch -> set<NodeId>,
                   s: Bus, i: NodeId, ev: Event, used: multiset<Envelope>, sent: seq<Envelope>, t: Bus)
    requires Moves(s, i, ev, used, sent, t) && BallotsAgreed(voters, s)
    requires ev.Cast? ==> i in voters(ev.ack.hdr.currentEpoch)
    ensures BallotsAgreed(voters, t)
  {
  }

  /** A victory after ballots of agreed voters alone. */
  lemma VotersAgreed(voters: Epoch -> set<NodeId>, s: Bus, w: Victory)
    requires WinsOk(s) && BallotsAgreed(voters, s) && w in s.wins
    ensures w.voters <= voters(w.epoch) && w.stale + |w.voters| >= w.quorum
  {
    forall v | v in w.voters ensures v in voters(w.epoch) {
      assert Ballot(v, w.epoch, w.winner) in s.ballots;
    }
  }

  lemma BackedMove(voters: Epoch -> set<NodeId>,
                   s: Bus, i: NodeId, ev: Event, used: multiset<Envelope>, sent: seq<Envelope>, t: Bus)
    requires Moves(s, i, ev, used, sent, t) && s.tallies.Keys == s.nodes.Keys && Backed(voters, s)
    requires WinsOk(t) && BallotsAgreed(voters, t)
    requires ev.Begin? ==> s.nodes[i].authCount == 0
    requires forall w | w in t.wins && w !in s.wins :: 2 * w.quorum > |voters(w.epoch)|
    ensures t.tallies.Keys == t.nodes.Keys && Backed(voters, t)
  {
    hide Electoral, WinsOk, BallotsAgreed;
    forall c | c in t.nodes && t.nodes[c].authSent
      ensures t.tallies[c].stale == 0
    {
      CleanTally(s, i, ev, used, sent, t, c);
    }
    forall w | w in t.wins
      ensures w.stale == 0 && w.voters <= voters(w.epoch) && 2 * |w.voters| > |voters(w.epoch)|
    {
      VotersAgreed(voters, t, w);
    }
  }

  lemma CleanTally(s: Bus, i: NodeId, ev: Event, used: multiset<Envelope>, sent: seq<Envelope>, t: Bus, c: NodeId)
    requires Moves(s, i, ev, used, sent, t) && s.tallies.Keys == s.nodes.Keys && c in t.nodes && t.nodes[c].authSent
    requires forall d | d in s.nodes && s.nodes[d].authSent :: s.tallies[d].stale == 0
    requires ev.Begin? ==> s.nodes[i].authCount == 0
    ensures c in t.tallies && t.tallies[c].stale == 0
  {
    if c != i {
      assert t.nodes[c] == s.nodes[c] && t.tallies[c] == s.tallies[c];
    }
  }

  lemma EventFacts(s: Bus, a: Action)
    requires Enabled(s, a)
    ensures var ev := EventOf(s.nodes[Actor(a)], a);
            && (ev.Cast? ==> CastsVote(s.nodes[Actor(a)], a) && ev.request == a.env)
            && (ev.Begin? ==> a.BeginElection?)
  {
  }

  lemma AgreedAfter(voters: Epoch -> set<NodeId>, s: Bus, a: Action)
    requires ElectionInv(s) && Enabled(s, a) && AgreedStep(voters, s, a) && BallotsAgreed(voters, s)
    ensures BallotsAgreed(voters, Apply(s, a))
  {
    hide Moves, Apply, Act, Able, WellFormed, EventOf, CastsVote, ElectionInv, BallotsAgreed, Consumed;
    InvDominated(s);
    hide DominatedBus, WinsOk;
    var i, t := Actor(a), Apply(s, a);
    var ev, sent := EventOf(s.nodes[i], a), Act(s.nodes[i], a).sent;
    StepMoves(s, a);
    EventFacts(s, a);
    if ev.Cast? {
      CastEpoch(s, i, ev, Consumed(a), sent, t);
    }
    AgreedMove(voters, s, i, ev, Consumed(a), sent, t);
  }

  lemma CastEpoch(s: Bus, i: NodeId, ev: Event, used: multiset<Envelope>, sent: seq<Envelope>, t: Bus)
    requires Moves(s, i, ev, used, sent, t) && ev.Cast?
    ensures ev.ack.hdr.currentEpoch == ev.request.hdr.currentEpoch
  {
  }

  lemma InvDominated(s: Bus)
    requires ElectionInv(s)
    ensures WellFormedBus(s) && DominatedBus(s) && WinsOk(s)
  {
  }

  lemma NewVictory(voters: Epoch -> set<NodeId>, s: Bus, a: Action, w: Victory)
    requires Enabled(s, a) && SizeKnown(voters, s, a) && w in Apply(s, a).wins && w !in s.wins
    ensures 2 * w.quorum > |voters(w.epoch)|
  {
    hide Act, EventOf;
  }

  lemma BackedStep(voters: Epoch -> set<NodeId>, s: Bus, a: Action)
    requires ElectionInv(s) && Enabled(s, a) && CleanStart(s, a) && SizeKnown(voters, s, a) && Backed(voters, s)
    requires ElectionInv(Apply(s, a)) && BallotsAgreed(voters, Apply(s, a))
    ensures Backed(voters, Apply(s, a))
  {
    hide Moves, Apply, Act, EventOf, ElectionInv, BallotsAgreed, Backed, WinsOk, SizeKnown;
    var i := Actor(a);
    InvDominated(s);
    InvDominated(Apply(s, a));
    StepMoves(s, a);
    EventFacts(s, a);
    forall w | w in Apply(s, a).wins && w !in s.wins ensures 2 * w.quorum > |voters(w.epoch)| {
      NewVictory(voters, s, a, w);
    }
    BackedMove(voters, s, i, EventOf(s.nodes[i], a), Consumed(a), Act(s.nodes[i], a).sent, Apply(s, a));
  }

  lemma {:induction false} InvariantOverRuns(states: seq<Bus>, actions: seq<Action>, k: nat)
    requires Run(states, actions) && Fresh(states[0]) && k < |states|
    ensures ElectionInv(states[k])
  {
    if k > 0 {
      InvariantOverRuns(states, actions, k - 1);
      RunStep(states, actions, k - 1);
      ElectionStep(states[k - 1], actions[k - 1]);
    }
  }

  lemma {:induction false} AgreedOverRuns(voters: Epoch -> set<NodeId>, states: seq<Bus>, actions: seq<Action>, k: nat)
    requires AgreedRun(voters, states, actions) && k < |states|
    ensures ElectionInv(states[k]) && BallotsAgreed(voters, states[k])
  {
    hide ElectionInv, Enabled, Apply, AgreedStep;
    InvariantOverRuns(states, actions, k);
    if k > 0 {
      AgreedOverRuns(voters, states, actions, k - 1);
      RunStep(states, actions, k - 1);
      AgreedAfter(voters, states[k - 1], actions[k - 1]);
    }
  }

  /** If elections start from a count of zero, every victory rests on a majority
      of the agreed voters. */
  lemma {:induction false} BackedOverRuns(voters: Epoch -> set<NodeId>, states: seq<Bus>, actions: seq<Action>, k: nat)
    requires AgreedRun(voters, states, actions) && CleanRun(voters, states, actions) && k < |states|
    ensures ElectionInv(states[k]) && Backed(voters, states[k])
  {
    hide ElectionInv, Enabled, Apply, AgreedStep, SizeKnown, CleanStart, BallotsAgreed;
    AgreedOverRuns(voters, states, actions, k);
    if k == 0 {
      NothingBacked(voters, states[0]);
    } else {
      BackedOverRuns(voters, states, actions, k - 1);
      RunStep(states, actions, k - 1);
      BackedStep(voters, states[k - 1], actions[k - 1]);
    }
  }

  lemma NothingBacked(voters: Epoch -> set<NodeId>, s: Bus)
    requires Fresh(s)
    ensures Backed(voters, s)
  {
  }

  lemma Overlap(all: set<NodeId>, p: set<NodeId>, q: set<NodeId>)
    requires p <= all && q <= all && |p| + |q| > |all|
    ensures exists v :: v in p && v in q
  {
    if p * q == {} {
      assert |p + q| == |p| + |q|;
      SubsetSize(p + q, all);
    } else {
      var v :| v in p * q;
    }
  }

  /** Election safety, with no assumption on how elections start: two victories
      in one epoch are the same node's if the votes left over from before the two
      elections are too few to make up for the voters the quorums would share. */
  lemma ElectionSafety(
      voters: Epoch -> set<NodeId>, states: seq<Bus>, actions: seq<Action>, k: nat, w1: Victory, w2: Victory)
    requires AgreedRun(voters, states, actions) && k < |states|
    requires w1 in states[k].wins && w2 in states[k].wins && w1.epoch == w2.epoch
    requires w1.stale + w2.stale + |voters(w1.epoch)| < w1.quorum + w2.quorum
    ensures w1.winner == w2.winner
  {
    hide AgreedRun;
    var s := states[k];
    assert k < |states| && ElectionInv(s) && BallotsAgreed(voters, s) by {
      AgreedOverRuns(voters, states, actions, k);
    }
    VotersAgreed(voters, s, w1);
    VotersAgreed(voters, s, w2);
    Overlap(voters(w1.epoch), w1.voters, w2.voters);
    var v :| v in w1.voters && v in w2.voters;
    assert Ballot(v, w1.epoch, w1.winner) in s.ballots && Ballot(v, w2.epoch, w2.winner) in s.ballots;
  }

  /** So there is one winner in any run whose elections start from a count of
      zero, if no winner believes the cluster smaller than the agreed voters. */
  lemma OneWinner(
      voters: Epoch -> set<NodeId>, states: seq<Bus>, actions: seq<Action>, k: nat, w1: Victory, w2: Victory)
    requires AgreedRun(voters, states, actions) && CleanRun(voters, states, actions) && k < |states|
    requires w1 in states[k].wins && w2 in states[k].wins && w1.epoch == w2.epoch
    ensures w1.winner == w2.winner
  {
    hide AgreedRun, CleanRun;
    var s := states[k];
    BackedOverRuns(voters, states, actions, k);
    Overlap(voters(w1.epoch), w1.voters, w2.voters);
    var v :| v in w1.voters && v in w2.voters;
    assert Ballot(v, w1.epoch, w1.winner) in s.ballots && Ballot(v, w2.epoch, w2.winner) in s.ballots;
  }

  /** No assumption on the run: a voter casts at most one ballot per epoch, and
      the count of a running election is the number of distinct voters counted
      for its epoch exactly when it started from zero. */
  lemma TallyExact(states: seq<Bus>, actions: seq<Action>, k: nat, c: NodeId)
    requires Run(states, actions) && Fresh(states[0]) && k < |states|
    ensures forall b1, b2 | b1 in states[k].ballots && b2 in states[k].ballots && b1.voter == b2.voter
            && b1.epoch == b2.epoch ::
              b1.candidate == b2.candidate
    ensures states[k].tallies.Keys == states[k].nodes.Keys
    ensures c in states[k].nodes && states[k].nodes[c].authSent ==>
              && (forall v | v in states[k].tallies[c].voters ::
                 Ballot(v, states[k].nodes[c].authEpoch, c) in states[k].ballots)
              && (states[k].nodes[c].authCount == |states[k].tallies[c].voters| <==> states[k].tallies[c].stale == 0)
  {
    InvariantOverRuns(states, actions, k);
  }
}
