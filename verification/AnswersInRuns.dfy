/** The rules of the handlers over whole runs, in every configuration. */
module AnswersInRuns {
  import opened Proto
  import opened LogSpec
  import opened ProgressSpec
  import opened RaftSpec
  import opened ClusterSpec
  import opened Quorum
  import opened Leadership
  import opened Steps
  import opened Theorems
  import opened Flow
  import opened Ledger
  import opened LocalRuns
  import opened Answers

  // ---------------------------------------------------------------- who leaves the follower's role

  lemma FollowerAnswers(cfg: Config, s: Node, m: Message)
    requires s.role == Follower && MessageWellFormed(m) && m.kind != MsgHup && Dispatch(cfg, s, m).Ok?
    ensures Dispatch(cfg, s, m).value.role == Follower
  {
    hide MaybeAppend, IsUpToDate, CommitTo;
  }

  /** Of all messages only a timeout makes a follower anything else. */
  lemma FollowerStays(cfg: Config, s: Node, m: Message, recent: bool)
    requires s.role == Follower && MessageWellFormed(m) && Step(cfg, s, m, recent).Ok?
    requires m.kind != MsgHup
    ensures Step(cfg, s, m, recent).value.role == Follower
  {
    hide Dispatch, MessageWellFormed, BecomeFollower;
    var lead := if m.kind in {MsgApp, MsgHeartbeat} then m.from else 0;
    FollowerRole(cfg, s, m.term, lead);
    if Dispatch(cfg, s, m).Ok? {
      FollowerAnswers(cfg, s, m);
    }
    if Dispatch(cfg, BecomeFollower(cfg, s, m.term, lead), m).Ok? {
      FollowerAnswers(cfg, BecomeFollower(cfg, s, m.term, lead), m);
    }
  }

  lemma FollowerReacts(cfg: Config, c: Cluster, n: nat, a: Input)
    requires SoundCluster(c) && Enabled(cfg, c, n, a) && React(cfg, c.nodes[n], a).Ok?
    requires c.nodes[n].role == Follower && React(cfg, c.nodes[n], a).value.role != Follower
    ensures a.Local? && IsTimeout(a.m) && CursorsOk(c.nodes[n].log) && !ConfWaits(c.nodes[n].log)
  {
    hide Step, ReadyRound, MessageWellFormed, FlowInv, ConfWaits, Posted;
    var s := c.nodes[n];
    assert Sound(s, n);
    match a
    case Deliver(m, recent) =>
      FollowerStays(cfg, s, m, recent);
    case Local(m) =>
      if m.kind != MsgHup {
        FollowerStays(cfg, s, m, false);
      } else if ConfWaits(s.log) {
        TimeoutHeld(cfg, s, m, false);
      }
    case TakeReady =>
      ReadyShape(cfg, s);
  }

  /** The node that a step of the cluster is about. */
  lemma MovingNode(cfg: Config, c: Cluster, c': Cluster, v: nat) returns (a: Input)
    requires Next(cfg, c, c') && v in c.nodes && v in c'.nodes && c'.nodes[v] != c.nodes[v]
    ensures StepOf(cfg, c, c', v, a)
  {
    hide React, Enabled;
    var n: nat;
    n, a :| StepOf(cfg, c, c', n, a);
    assert n == v;
  }

  /** In every run: a node that stops being a follower had no configuration change waiting to be applied. */
  lemma CampaignersHaveApplied(cfg: Config, voters: set<nat>, boot: seq<Entry>, run: seq<Cluster>, i: nat, v: nat)
    requires Run(cfg, voters, boot, run) && At(run, i, v) && At(run, i + 1, v)
    requires run[i].nodes[v].role == Follower && run[i + 1].nodes[v].role != Follower
    ensures !ConfWaits(run[i].nodes[v].log)
  {
    hide React, ConfWaits, SoundCluster, Enabled;
    RunSound(cfg, voters, boot, run, i);
    assert Next(cfg, run[i], run[i + 1]);
    var a := MovingNode(cfg, run[i], run[i + 1], v);
    FollowerReacts(cfg, run[i], v, a);
  }

  // ---------------------------------------------------------------- who leaves the leader's role

  lemma ProposeRole(cfg: Config, s: Node, m: Message)
    requires Propose(cfg, s, m).Ok?
    ensures Propose(cfg, s, m).value.role == s.role
  {
    hide Append, StampEntries, QuorumIndex, MaybeUpdate, WithinLimit, AppendTo, GateConf, PayloadSize;
  }

  lemma LeaderDispatchRole(cfg: Config, s: Node, m: Message)
    requires FlowInv(s) && s.role == Leader && FromOther(s, m) && MessageWellFormed(m) && Dispatch(cfg, s, m).Ok?
    requires m.kind != MsgCheckQuorum
    ensures Dispatch(cfg, s, m).value.role == Leader
  {
    hide FlowInv, Propose, StepPeer, MessageWellFormed, IsUpToDate, FromOther;
    if m.kind == MsgProp {
      ProposeRole(cfg, s, m);
    } else if m.kind !in {MsgHup, MsgVote, MsgPreVote, MsgBeat} && m.from in s.prs {
      StepPeerSteady(cfg, s, m);
    }
  }

  lemma LeaderStays(cfg: Config, s: Node, m: Message, recent: bool)
    requires FlowInv(s) && s.role == Leader && FromOther(s, m) && MessageWellFormed(m) && Step(cfg, s, m, recent).Ok?
    requires m.kind != MsgCheckQuorum && (m.kind == MsgHup ==> m.term == 0) && Step(cfg, s, m, recent).value.term == s.term
    ensures Step(cfg, s, m, recent).value.role == Leader
  {
    hide FlowInv, Dispatch, MessageWellFormed, FromOther, BecomeFollower, Onward, LocalInv;
    if Dispatch(cfg, s, m).Ok? {
      LeaderDispatchRole(cfg, s, m);
    }
    var lead := if m.kind in {MsgApp, MsgHeartbeat} then m.from else 0;
    FollowerRole(cfg, s, m.term, lead);
    if Dispatch(cfg, BecomeFollower(cfg, s, m.term, lead), m).Ok? && m.kind != MsgHup {
      FollowedTerm(cfg, BecomeFollower(cfg, s, m.term, lead), m);
    }
  }

  /** A follower's answers leave it in its term. */
  lemma FollowedTerm(cfg: Config, s: Node, m: Message)
    requires MessageWellFormed(m) && m.kind != MsgHup && Dispatch(cfg, s, m).Ok? && s.role == Follower
    ensures Dispatch(cfg, s, m).value.term == s.term
  {
    hide MaybeAppend, IsUpToDate, CommitTo;
  }

  lemma LeaderReacts(cfg: Config, c: Cluster, n: nat, a: Input)
    requires SoundCluster(c) && Enabled(cfg, c, n, a) && React(cfg, c.nodes[n], a).Ok?
    requires var r := React(cfg, c.nodes[n], a).value; c.nodes[n].role == Leader && r.role != Leader && r.term == c.nodes[n].term
    ensures cfg.checkQuorum && !exists q :: Heard(c.nodes[n], q)
  {
    hide Step, ReadyRound, MessageWellFormed, LedgerInv, FlowInv, Heard, BetweenNodes;
    var s := c.nodes[n];
    assert Sound(s, n);
    match a
    case Deliver(m, recent) =>
      assert Posted(c, m);
      DeliveredFromOther(c, s, m);
      LeaderStays(cfg, s, m, recent);
    case Local(m) =>
      LocalIsFromOther(cfg, s, m);
      if m.kind == MsgCheckQuorum {
        QuorumCheckAnswer(cfg, s, m, false);
      } else {
        LeaderStays(cfg, s, m, false);
      }
    case TakeReady =>
      ReadyShape(cfg, s);
  }

  lemma DeliveredFromOther(c: Cluster, s: Node, m: Message)
    requires Posted(c, m) && m.to == s.id
    ensures FromOther(s, m)
  {
  }

  lemma LocalIsFromOther(cfg: Config, s: Node, m: Message)
    requires LocalInput(cfg, m)
    ensures FromOther(s, m)
  {
  }

  /** In every run: a leader that gives up within its term does so at a quorum check, with no quorum heard
      from. */
  lemma OnlyUnheardStepDown(cfg: Config, voters: set<nat>, boot: seq<Entry>, run: seq<Cluster>, i: nat, v: nat, t: nat)
    requires Run(cfg, voters, boot, run) && Leads(run, i, v, t) && At(run, i + 1, v)
    requires run[i + 1].nodes[v].term == t && run[i + 1].nodes[v].role != Leader
    ensures cfg.checkQuorum && !exists q :: Heard(run[i].nodes[v], q)
  {
    hide React, Heard, SoundCluster, Enabled;
    RunSound(cfg, voters, boot, run, i);
    assert Next(cfg, run[i], run[i + 1]);
    var a := MovingNode(cfg, run[i], run[i + 1], v);
    LeaderReacts(cfg, run[i], v, a);
  }
}
