/** Two voters without quorum checks. With pre-vote on, both can come to lead one term, but that term is a
    dead end: neither leader ever gives way, no acknowledgement of that term exists, and neither commits
    again. Up to that moment every term has had one leader, which itself holds all that was committed,
    since a quorum is both voters. So committed prefixes agree, whether pre-vote is on or off. */
module Stalemate {
  import opened Proto
  import opened LogSpec
  import opened ProgressSpec
  import opened RaftSpec
  import opened ClusterSpec
  import opened Quorum
  import opened History
  import opened Invariant
  import opened Elections
  import opened Leadership
  import opened Steps
  import opened Safety
  import opened Theorems
  import opened Flow
  import opened Ledger
  import opened LocalRuns
  import PreVote

  // ---------------------------------------------------------------- a leader nobody follows

  /** A leader no peer has acknowledged anything to. */
  ghost predicate Alone(s: Node) {
    s.role == Leader && |s.prs| >= 2 && forall v {:trigger s.prs[v]} :: v in s.prs && v != s.id ==> s.prs[v].matched == 0
  }

  /** It stays one, in its term, and commits nothing. */
  ghost predicate Held(s: Node, s': Node) {
    s'.id == s.id && s'.term == s.term && s'.log.committed == s.log.committed && s'.prs.Keys == s.prs.Keys && Alone(s')
  }

  lemma HeldTrans(a: Node, b: Node, c: Node)
    requires Held(a, b) && Held(b, c)
    ensures Held(a, c)
  {
  }

  lemma HeldRefl(s: Node)
    requires Alone(s)
    ensures Held(s, s)
  {
  }

  lemma AppendToMatched(cfg: Config, s: Node, to: nat, p: Progress, sendIfEmpty: bool)
    ensures AppendTo(cfg, s, to, p, sendIfEmpty).0.matched == p.matched
  {
  }

  /** Changing one peer's progress, but not its match. */
  lemma PeerHeld(s: Node, v: nat, p: Progress)
    requires Alone(s) && v in s.prs && p.matched == s.prs[v].matched
    ensures Held(s, s.(prs := s.prs[v := p]))
  {
    var s' := s.(prs := s.prs[v := p]);
    assert s'.prs.Keys == s.prs.Keys;
    assert |s'.prs| == |s'.prs.Keys| == |s.prs.Keys| == |s.prs|;
  }

  lemma SendAppendHeld(cfg: Config, s: Node, to: nat)
    requires Alone(s) && to in s.prs
    ensures Held(s, SendAppend(cfg, s, to))
  {
    hide AppendTo;
    AppendToMatched(cfg, s, to, s.prs[to], true);
    PeerHeld(s, to, AppendTo(cfg, s, to, s.prs[to], true).0);
  }

  lemma BcastHeld(cfg: Config, s: Node)
    requires Alone(s)
    ensures Held(s, BcastAppend(cfg, s))
  {
    hide AppendTo;
    var s' := BcastAppend(cfg, s);
    assert s'.prs.Keys == s.prs.Keys;
    assert |s'.prs| == |s'.prs.Keys| == |s.prs.Keys| == |s.prs|;
    forall v | v in s.prs && v != s.id ensures s'.prs[v].matched == 0 {
      AppendToMatched(cfg, s, v, s.prs[v], true);
    }
  }

  // ---------------------------------------------------------------- what such a leader does

  /** Writing to its own log leaves its peers where they are. */
  lemma AppendedHeld(s: Node, es: seq<Entry>, u: nat)
    requires Alone(s) && Contiguous(es, s.log.Last() + 1)
    ensures Held(s, Appended(s, es, u))
  {
    hide MaybeUpdate;
    var s' := Appended(s, es, u);
    assert s'.prs.Keys == s.prs.Keys;
    assert |s'.prs| == |s'.prs.Keys| == |s.prs.Keys| == |s.prs|;
  }

  lemma AppendEntryHeld(cfg: Config, s: Node, es: seq<Entry>)
    requires Alone(s) && CursorsOk(s.log)
    ensures AppendEntry(cfg, s, es).Ok? && Held(s, AppendEntry(cfg, s, es).value.0)
  {
    hide AppendEntry, AdvanceCommit, Appended, StampEntries, WithinLimit, PayloadSize, Wrap32, Contiguous;
    var ents := StampEntries(s, es);
    var s1 := Appended(s, ents, s.uncommitted + Wrap32(PayloadSize(ents)));
    AppendEntrySteps(cfg, s, es);
    AppendedHeld(s, ents, s.uncommitted + Wrap32(PayloadSize(ents)));
    PreVote.NoCommitAlone(s1);
  }

  lemma PendingHeld(s: Node, pending: nat)
    requires Alone(s)
    ensures Alone(s.(pendingConf := pending)) && Held(s, s.(pendingConf := pending))
  {
  }

  lemma ProposeHeld(cfg: Config, s: Node, m: Message)
    requires Alone(s) && CursorsOk(s.log) && Propose(cfg, s, m).Ok?
    ensures Held(s, Propose(cfg, s, m).value)
  {
    hide Propose, AppendEntry, BcastAppend, GateConf, Alone, Held;
    ProposeNotEmpty(cfg, s, m);
    var (es, pending) := GateConf(m.entries, s.pendingConf, s.log.applied, s.log.Last() + 1);
    var s1 := s.(pendingConf := pending);
    PendingHeld(s, pending);
    ProposeSteps(cfg, s, m);
    AppendEntryHeld(cfg, s1, es);
    var (s2, kept) := AppendEntry(cfg, s1, es).value;
    HeldTrans(s, s1, s2);
    HeldAlone(s1, s2);
    if kept {
      BcastHeld(cfg, s2);
      HeldTrans(s, s2, BcastAppend(cfg, s2));
    }
  }

  lemma HeldAlone(s: Node, s': Node)
    requires Held(s, s')
    ensures Alone(s') && s'.id == s.id && s'.prs.Keys == s.prs.Keys
  {
  }

  lemma RejectionHeld(cfg: Config, s: Node, m: Message)
    requires Alone(s) && m.from in s.prs && m.reject
    ensures HandleAppResp(cfg, s, m).Ok? && Held(s, HandleAppResp(cfg, s, m).value)
  {
    hide SendAppend, Alone, Held;
    var p := s.prs[m.from].(recentActive := true);
    var (p1, lowered) := MaybeDecreaseTo(p, m.index, m.rejectHint);
    var p2 := if lowered && p1.state == Replicate then BecomeProbe(p1) else p1;
    PeerHeld(s, m.from, p2);
    var s1 := s.(prs := s.prs[m.from := p2]);
    if lowered {
      HeldAlone(s, s1);
      SendAppendHeld(cfg, s1, m.from);
      HeldTrans(s, s1, SendAppend(cfg, s1, m.from));
    }
  }

  lemma HeartbeatRespHeld(cfg: Config, s: Node, m: Message)
    requires Alone(s) && m.from in s.prs
    ensures Held(s, HandleHeartbeatResp(cfg, s, m))
  {
    hide SendAppend, FreeTo, Alone, Held;
    var p := s.prs[m.from].(recentActive := true, paused := false);
    var p1 := if p.state == Replicate && WindowFull(p) && p.inflights != []
              then p.(inflights := FreeTo(p.inflights, p.inflights[0])) else p;
    PeerHeld(s, m.from, p1);
    var s1 := s.(prs := s.prs[m.from := p1]);
    HeldAlone(s, s1);
    SendAppendHeld(cfg, s1, m.from);
    HeldTrans(s, s1, SendAppend(cfg, s1, m.from));
  }

  /** An answer of a peer that acknowledges nothing. */
  lemma StepPeerHeld(cfg: Config, s: Node, m: Message)
    requires Alone(s) && m.from in s.prs && !IsAck(m)
    ensures StepPeer(cfg, s, m).Ok? && Held(s, StepPeer(cfg, s, m).value)
  {
    hide HandleAppResp, HandleHeartbeatResp, Alone, Held;
    var p := s.prs[m.from];
    HeldRefl(s);
    if m.kind == MsgAppResp {
      if m.reject {
        RejectionHeld(cfg, s, m);
      } else {
        LateAcceptance(cfg, s, m);
        PeerHeld(s, m.from, MaybeUpdate(p.(recentActive := true), m.index).0);
      }
    } else if m.kind == MsgHeartbeatResp {
      HeartbeatRespHeld(cfg, s, m);
    } else if m.kind == MsgUnreachable && p.state == Replicate {
      PeerHeld(s, m.from, BecomeProbe(p));
    } else if m.kind == MsgSnapStatus && p.state == Snapshot {
      var p1 := if m.reject then p.(pendingSnapshot := 0) else p;
      PeerHeld(s, m.from, BecomeProbe(p1).(paused := true));
    }
  }

  lemma MessagesHeld(s: Node, s': Node)
    requires Alone(s) && s' == s.(msgs := s'.msgs, vote := s'.vote)
    ensures Held(s, s')
  {
  }

  /** Whatever is not a quorum check, an acknowledgement, or of a later term leaves the leader in office. */
  lemma DispatchHeld(cfg: Config, s: Node, m: Message)
    requires Alone(s) && CursorsOk(s.log) && MessageWellFormed(m) && !IsAck(m) && m.kind != MsgCheckQuorum
    requires Dispatch(cfg, s, m).Ok?
    ensures Held(s, Dispatch(cfg, s, m).value)
  {
    hide Held, Propose, StepPeer, BecomeFollower, ActiveVoters, IsUpToDate, MessageWellFormed;
    HeldRefl(s);
    if m.kind in {MsgVote, MsgPreVote} {
      MessagesHeld(s, HandleVote(s, m).value);
    } else if m.kind == MsgBeat {
      MessagesHeld(s, BcastHeartbeat(s));
    } else if m.kind == MsgProp {
      ProposeHeld(cfg, s, m);
    } else if m.kind != MsgHup && m.from in s.prs {
      StepPeerHeld(cfg, s, m);
    }
  }

  lemma StepHeld(cfg: Config, s: Node, m: Message, recent: bool)
    requires Alone(s) && CursorsOk(s.log) && MessageWellFormed(m) && !(IsAck(m) && m.term in {0, s.term}) && m.kind != MsgCheckQuorum
    requires m.term <= s.term || m.kind == MsgPreVote || (m.kind == MsgPreVoteResp && !m.reject)
    requires Step(cfg, s, m, recent).Ok?
    ensures Held(s, Step(cfg, s, m, recent).value)
  {
    hide Held, Dispatch, MessageWellFormed, BecomeFollower;
    HeldRefl(s);
    var r := Step(cfg, s, m, recent).value;
    if m.term == 0 || m.term == s.term {
      DispatchHeld(cfg, s, m);
    } else if m.term > s.term {
      if r != s {
        DispatchHeld(cfg, s, m);
      }
    } else {
      MessagesHeld(s, r);
    }
  }

  lemma ReadyHeld(cfg: Config, s: Node)
    requires Alone(s) && CursorsOk(s.log)
    ensures Held(s, ReadyRound(cfg, s))
  {
    hide ReadyRound;
    ReadyShape(cfg, s);
  }

  // ---------------------------------------------------------------- a term with two leaders

  /** The committed prefixes of all nodes agree. */
  ghost predicate CommitsAgree(c: Cluster) {
    forall a, b {:trigger SamePrefix(c, a, b)} :: a in c.nodes && b in c.nodes ==> SamePrefix(c, a, b)
  }

  ghost predicate SamePrefix(c: Cluster, a: nat, b: nat)
    requires a in c.nodes && b in c.nodes
  {
    Agree(c.nodes[a].log.ents, c.nodes[b].log.ents, Min(c.nodes[a].log.committed, c.nodes[b].log.committed))
  }

  ghost predicate LeadsAlone(s: Node, v: nat, t: nat) {
    s.id == v && s.term == t && Alone(s)
  }

  /** Every node leads term `t`. */
  ghost predicate Stuck(c: Cluster, t: nat) {
    && (forall v {:trigger LeadsAlone(c.nodes[v], v, t)} :: v in c.nodes ==> LeadsAlone(c.nodes[v], v, t))
    && CommitsAgree(c)
  }

  /** No message tells a node of a stuck cluster anything. */
  lemma StuckReacts(cfg: Config, c: Cluster, t: nat, n: nat, a: Input)
    requires Stuck(c, t) && SoundCluster(c) && Enabled(cfg, c, n, a) && !cfg.checkQuorum
    requires React(cfg, c.nodes[n], a).Ok?
    ensures Held(c.nodes[n], React(cfg, c.nodes[n], a).value)
  {
    hide Held, Alone, Step, ReadyRound, FlowInv, CommitsAgree, BetweenNodes;
    var s := c.nodes[n];
    assert Sound(s, n) && LeadsAlone(s, n, t);
    AloneLeads(s);
    match a
    case Deliver(m, recent) =>
      assert Posted(c, m) && LeadsAlone(c.nodes[m.from], m.from, t);
      AloneLeads(c.nodes[m.from]);
      StepHeld(cfg, s, m, recent);
    case Local(m) =>
      StepHeld(cfg, s, m, false);
    case TakeReady =>
      ReadyHeld(cfg, s);
  }

  lemma AloneLeads(s: Node)
    requires Alone(s)
    ensures s.role == Leader
  {
  }

  lemma KeptPrefix(c: Cluster, c': Cluster, a: nat, b: nat)
    requires a in c.nodes && b in c.nodes && a in c'.nodes && b in c'.nodes && SamePrefix(c, a, b)
    requires CommitKept(c.nodes[a].log, c'.nodes[a].log) && c'.nodes[a].log.committed == c.nodes[a].log.committed
    requires CommitKept(c.nodes[b].log, c'.nodes[b].log) && c'.nodes[b].log.committed == c.nodes[b].log.committed
    ensures SamePrefix(c', a, b)
  {
    var i, j := c.nodes[a].log.committed, c.nodes[b].log.committed;
    AgreeTrans(c'.nodes[a].log.ents, c.nodes[a].log.ents, c.nodes[b].log.ents, i, Min(i, j));
    AgreeTrans(c'.nodes[a].log.ents, c.nodes[b].log.ents, c'.nodes[b].log.ents, Min(i, j), j);
  }

  /** A stuck cluster stays stuck, and nothing is committed any more. */
  lemma StuckNext(cfg: Config, c: Cluster, c': Cluster, t: nat)
    requires Stuck(c, t) && SoundCluster(c) && Next(cfg, c, c') && !cfg.checkQuorum
    ensures Stuck(c', t) && c'.nodes.Keys == c.nodes.Keys
    ensures forall v :: v in c.nodes ==> c'.nodes[v].log.committed == c.nodes[v].log.committed
  {
    hide Alone, React, Moves, LocalInv, SamePrefix, CommitKept, Posted;
    var n, a :| StepOf(cfg, c, c', n, a);
    StuckReacts(cfg, c, t, n, a);
    NextSound(cfg, c, c');
    var r := React(cfg, c.nodes[n], a).value;
    forall v | v in c.nodes
      ensures LeadsAlone(c'.nodes[v], v, t) && c'.nodes[v].log.committed == c.nodes[v].log.committed
      ensures CommitKept(c.nodes[v].log, c'.nodes[v].log)
    {
      assert LeadsAlone(c.nodes[v], v, t) && Sound(c.nodes[v], v);
      CommitStep(cfg, c.nodes[v], c'.nodes[v]);
      if v == n {
        DrainedAlone(r);
      }
    }
    forall v, w | v in c'.nodes && w in c'.nodes ensures SamePrefix(c', v, w) {
      KeptPrefix(c, c', v, w);
    }
  }

  lemma DrainedAlone(s: Node)
    ensures Alone(s) ==> Alone(s.(msgs := {}))
  {
  }

  // ---------------------------------------------------------------- before that: one leader a term

  /** Whoever won a term leaves it only after the others have. */
  ghost predicate Followed(c: Cluster, h: Hist, t: nat, o: nat) {
    t in h.leader && h.leader[t] in c.nodes && o in c.nodes && c.nodes[h.leader[t]].term > t ==> c.nodes[o].term > t
  }

  ghost predicate AllFollowed(c: Cluster, h: Hist) {
    forall t: nat, o: nat {:trigger Followed(c, h, t, o)} :: Followed(c, h, t, o)
  }

  ghost predicate Orderly(c: Cluster, h: Hist) {
    Inv(c, h) && h.pair && AllFollowed(c, h)
  }

  lemma InvAgrees(c: Cluster, h: Hist)
    requires Inv(c, h)
    ensures CommitsAgree(c)
  {
    hide HistInv, NodeInv, CommitOk, LogOk;
    forall a, b | a in c.nodes && b in c.nodes ensures SamePrefix(c, a, b) {
      NodeFacts(c, h, a);
      LogFacts(c.nodes[a], h);
      NodeFacts(c, h, b);
      LogFacts(c.nodes[b], h);
      CommittedPrefixesAgree(h, c.nodes[a].log.ents, c.nodes[a].term, c.nodes[a].log.committed,
                             c.nodes[b].log.ents, c.nodes[b].term, c.nodes[b].log.committed);
    }
  }

  // ---------------------------------------------------------------- a leader leaves its term

  lemma ProposeTerm(cfg: Config, s: Node, m: Message)
    requires Propose(cfg, s, m).Ok?
    ensures Propose(cfg, s, m).value.term == s.term
  {
    hide Append, StampEntries, QuorumIndex, MaybeUpdate, WithinLimit, AppendTo, GateConf, PayloadSize;
  }

  lemma LeaderDispatchTerm(cfg: Config, s: Node, m: Message)
    requires FlowInv(s) && s.role == Leader && FromOther(s, m) && MessageWellFormed(m) && Dispatch(cfg, s, m).Ok?
    ensures Dispatch(cfg, s, m).value.term == s.term
  {
    hide FlowInv, Propose, StepPeer, MessageWellFormed, IsUpToDate, FromOther;
    if m.kind == MsgProp {
      ProposeTerm(cfg, s, m);
    } else if m.kind !in {MsgHup, MsgVote, MsgPreVote, MsgBeat, MsgCheckQuorum} && m.from in s.prs {
      StepPeerSteady(cfg, s, m);
    }
  }

  /** Only a message of a later term, not one of the pre-election, makes a leader leave its term. */
  lemma LeaderPushed(cfg: Config, s: Node, m: Message, recent: bool)
    requires FlowInv(s) && s.role == Leader && FromOther(s, m) && MessageWellFormed(m)
    requires Step(cfg, s, m, recent).Ok? && Step(cfg, s, m, recent).value.term > s.term
    ensures m.term > s.term && m.kind != MsgPreVote && (m.kind == MsgPreVoteResp ==> m.reject)
  {
    hide FlowInv, Dispatch, MessageWellFormed, FromOther, BecomeFollower;
    if Dispatch(cfg, s, m).Ok? {
      LeaderDispatchTerm(cfg, s, m);
    }
  }

  lemma ReadyTerm(cfg: Config, s: Node)
    requires CursorsOk(s.log)
    ensures ReadyRound(cfg, s).term == s.term && ReadyRound(cfg, s).role == s.role
  {
    ReadyShape(cfg, s);
  }

  /** A leader that leaves its term has been told so by another node, already in a later one. */
  lemma LeaderGivesWay(cfg: Config, c: Cluster, n: nat, a: Input)
    requires SoundCluster(c) && Enabled(cfg, c, n, a) && React(cfg, c.nodes[n], a).Ok?
    requires c.nodes[n].role == Leader && React(cfg, c.nodes[n], a).value.term > c.nodes[n].term
    ensures a.Deliver? && a.m.from in c.nodes && a.m.from != n && c.nodes[a.m.from].term > c.nodes[n].term
  {
    hide Step, ReadyRound, FlowInv, LedgerInv, BetweenNodes, MessageWellFormed;
    var s := c.nodes[n];
    assert Sound(s, n);
    match a
    case Deliver(m, recent) =>
      assert Posted(c, m);
      PostedFromOther(c, s, m);
      LeaderPushed(cfg, s, m, recent);
    case Local(m) =>
      LocalFromOther(cfg, s, m);
      LeaderPushed(cfg, s, m, false);
    case TakeReady =>
      ReadyTerm(cfg, s);
  }

  lemma PostedFromOther(c: Cluster, s: Node, m: Message)
    requires Posted(c, m) && m.to == s.id
    ensures FromOther(s, m)
  {
  }

  lemma LocalFromOther(cfg: Config, s: Node, m: Message)
    requires LocalInput(cfg, m)
    ensures FromOther(s, m)
  {
  }

  lemma WinnerLeads(s: Node, h: Hist, t: nat)
    requires NodeInv(s, h) && h.pair && t in h.leader && h.leader[t] == s.id && s.term <= t
    ensures s.term == t && s.role == Leader
  {
  }

  /** When the winner of a term moves on, the other has already. */
  lemma WinnerMoves(cfg: Config, c: Cluster, h: Hist, n: nat, a: Input, t: nat, o: nat)
    requires Orderly(c, h) && SoundCluster(c) && Enabled(cfg, c, n, a) && React(cfg, c.nodes[n], a).Ok?
    requires t in h.leader && h.leader[t] == n && o in c.nodes && o != n
    requires c.nodes[n].term <= t < React(cfg, c.nodes[n], a).value.term
    ensures c.nodes[o].term > t
  {
    hide React, HistInv, NodeInv, LocalInv, MsgsInv, Posted, Followed;
    assert Resting(c.nodes[n], n, h);
    WinnerLeads(c.nodes[n], h, t);
    LeaderGivesWay(cfg, c, n, a);
    PairOfVoters(h);
    OnlyTwo(h.voters, n, o, a.m.from);
  }

  lemma PairOfVoters(h: Hist)
    requires HistInv(h) && h.pair
    ensures |h.voters| == 2
  {
  }

  lemma OldWinners(h: Hist, h': Hist, n: nat, s: Node, t: nat)
    requires Grows(h, h', n) && Crowned(h, h', s) && t in h'.leader
    ensures if t in h.leader then h'.leader[t] == h.leader[t] else h'.leader[t] == n && t == s.term
  {
  }

  /** Nobody is left behind in a term whose winner has moved on. */
  lemma StillFollowed(cfg: Config, c: Cluster, c': Cluster, h: Hist, h': Hist, n: nat, a: Input, t: nat, o: nat)
    requires Orderly(c, h) && SoundCluster(c) && StepOf(cfg, c, c', n, a)
    requires Grows(h, h', n) && Crowned(h, h', React(cfg, c.nodes[n], a).value)
    ensures Followed(c', h', t, o)
  {
    hide React, Inv, Grows, Crowned, SoundCluster, Enabled;
    PreVote.EnabledAt(cfg, c, n, a);
    var r := React(cfg, c.nodes[n], a).value;
    if t in h'.leader && h'.leader[t] in c'.nodes && o in c'.nodes && c'.nodes[h'.leader[t]].term > t {
      var w := h'.leader[t];
      OldWinners(h, h', n, r, t);
      if t in h.leader && o != w {
        TermsRise(cfg, c, c', o);
        assert Followed(c, h, t, o);
        if c.nodes[w].term <= t {
          WinnerMoves(cfg, c, h, n, a, t, o);
        }
      }
    }
  }

  lemma TermsRise(cfg: Config, c: Cluster, c': Cluster, v: nat)
    requires SoundCluster(c) && Next(cfg, c, c') && v in c.nodes
    ensures v in c'.nodes && c.nodes[v].term <= c'.nodes[v].term
  {
    hide Next, LeadsOn, TakesOffice, LocalInv;
    NextSound(cfg, c, c');
    if CursorsOk(c.nodes[v].log) {
      ReadyTerm(cfg, c.nodes[v]);
    }
  }

  lemma OnlyTwo(voters: set<nat>, a: nat, b: nat, x: nat)
    requires |voters| == 2 && a in voters && b in voters && x in voters && a != b
    ensures x == a || x == b
  {
    if x != a && x != b {
      SubsetCardinality({a, b, x}, voters);
      assert false;
    }
  }

  // ---------------------------------------------------------------- the second leader of a term

  /** `r` is `s` after winning the election of its term: it has written its first entry, told the others,
      and committed nothing. */
  ghost predicate TookOffice(s: Node, r: Node) {
    r.id == s.id && r.term == s.term && r.log.committed == s.log.committed && r.prs.Keys == s.prs.Keys && Alone(r)
  }

  lemma ElectedAlone(cfg: Config, s: Node)
    requires |s.prs| >= 2
    ensures Alone(Elected(cfg, s))
  {
    var r := Elected(cfg, s);
    assert r.prs.Keys == s.prs.Keys;
    assert |r.prs| == |r.prs.Keys| == |s.prs.Keys| == |s.prs|;
  }

  lemma WinnerTakesOffice(cfg: Config, s: Node)
    requires s.role != Follower && |s.prs| >= 2 && CursorsOk(s.log) && BecomeLeader(cfg, s).Ok?
    ensures TookOffice(s, BecomeLeader(cfg, s).value) && TookOffice(s, BcastAppend(cfg, BecomeLeader(cfg, s).value))
  {
    hide BecomeLeader, AppendEntry, BcastAppend, Elected, Alone;
    ElectedAlone(cfg, s);
    ElectedShape(cfg, s);
    BecomeLeaderSteps(cfg, s);
    AppendEntryHeld(cfg, Elected(cfg, s), [EMPTY_ENTRY]);
    BcastHeld(cfg, BecomeLeader(cfg, s).value);
  }

  lemma SendRole(s: Node, m: Message)
    requires Send(s, m).Ok?
    ensures Send(s, m).value.role == s.role
  {
  }

  /** Following and answering make no leader. */
  lemma AnswersMakeNoLeader(s: Node, m: Message)
    requires s.role != Leader && MessageWellFormed(m)
    ensures m.kind == MsgApp && HandleAppend(s, m).Ok? ==> HandleAppend(s, m).value.role == s.role
    ensures HandleHeartbeat(s, m).Ok? ==> HandleHeartbeat(s, m).value.role == s.role
    ensures HandleVote(s, m).Ok? ==> HandleVote(s, m).value.role == s.role
  {
    hide MaybeAppend, IsUpToDate, CommitTo;
  }

  lemma FollowerDispatch(cfg: Config, s: Node, m: Message)
    requires s.role == Follower && MessageWellFormed(m) && m.kind != MsgHup && Dispatch(cfg, s, m).Ok?
    ensures Dispatch(cfg, s, m).value.role == Follower
  {
    hide HandleAppend, HandleHeartbeat, HandleVote, MessageWellFormed;
    AnswersMakeNoLeader(s, m);
    AnswersMakeNoLeader(s.(lead := m.from), m);
    WellFormedAppend(m);
  }

  lemma WellFormedAppend(m: Message)
    requires MessageWellFormed(m)
    ensures m.kind == MsgApp ==> Contiguous(m.entries, m.index + 1)
  {
  }

  lemma CandidateDispatch(cfg: Config, s: Node, m: Message)
    requires s.role == Candidate && |s.prs| >= 2 && CursorsOk(s.log) && MessageWellFormed(m) && m.kind != MsgHup
    requires Dispatch(cfg, s, m).Ok? && Dispatch(cfg, s, m).value.role == Leader
    ensures TookOffice(s, Dispatch(cfg, s, m).value)
  {
    hide HandleAppend, HandleHeartbeat, HandleVote, HandleVoteResp, MessageWellFormed, BecomeFollower, BecomeLeader, BcastAppend, TookOffice;
    WellFormedAppend(m);
    AnswersMakeNoLeader(s, m);
    if m.kind in {MsgApp, MsgHeartbeat} {
      FollowerRole(cfg, s, m.term, m.from);
      AnswersMakeNoLeader(BecomeFollower(cfg, s, m.term, m.from), m);
    } else if m.kind in {MsgVoteResp, MsgPreVoteResp} {
      var s1 := Poll(s, m.from, !m.reject);
      VoteRespCases(cfg, s, m);
      FollowerRole(cfg, s1, s1.term, 0);
      WinnerTakesOffice(cfg, s1);
      PolledOffice(s, s1, HandleVoteResp(cfg, s, m).value);
    }
  }

  lemma PolledOffice(s: Node, s1: Node, r: Node)
    requires s1 == s.(votes := s1.votes) && TookOffice(s1, r)
    ensures TookOffice(s, r)
  {
  }

  lemma CandidateStep(cfg: Config, s: Node, m: Message, recent: bool)
    requires s.role == Candidate && |s.prs| >= 2 && CursorsOk(s.log) && MessageWellFormed(m) && m.kind != MsgHup
    requires Step(cfg, s, m, recent).Ok? && Step(cfg, s, m, recent).value.role == Leader
    ensures TookOffice(s, Step(cfg, s, m, recent).value)
  {
    hide Dispatch, MessageWellFormed, BecomeFollower, TookOffice;
    var lead := if m.kind in {MsgApp, MsgHeartbeat} then m.from else 0;
    var s1 := BecomeFollower(cfg, s, m.term, lead);
    FollowerRole(cfg, s, m.term, lead);
    if Dispatch(cfg, s1, m).Ok? {
      FollowerDispatch(cfg, s1, m);
    }
    if Dispatch(cfg, s, m).Ok? && Dispatch(cfg, s, m).value.role == Leader {
      CandidateDispatch(cfg, s, m);
    }
  }

  /** With two voters a timeout only asks. */
  lemma HupMakesNoLeader(cfg: Config, s: Node)
    requires s.role == Candidate && |s.prs| >= 2 && Hup(cfg, s).Ok?
    ensures Hup(cfg, s).value.role != Leader
  {
    hide CursorsOk, HasPendingConf, BecomeLeader, Reset;
    var s1 := Poll(BecomePreCandidate(s), s.id, true);
    assert GrantedBy(s1.votes) == {s.id};
    CandidateShape(cfg, s);
    var s2 := Poll(BecomeCandidate(cfg, s), s.id, true);
    assert |s2.prs| == |s2.prs.Keys| == |s.prs.Keys| == |s.prs|;
  }

  /** A candidate comes to lead by a vote answer only. */
  lemma CandidateWins(cfg: Config, c: Cluster, n: nat, a: Input)
    requires SoundCluster(c) && Enabled(cfg, c, n, a) && React(cfg, c.nodes[n], a).Ok?
    requires c.nodes[n].role == Candidate && |c.nodes[n].prs| >= 2 && React(cfg, c.nodes[n], a).value.role == Leader
    ensures TookOffice(c.nodes[n], React(cfg, c.nodes[n], a).value)
  {
    hide Step, ReadyRound, FlowInv, BetweenNodes, MessageWellFormed, Hup, TookOffice, Posted;
    var s := c.nodes[n];
    assert Sound(s, n);
    match a
    case Deliver(m, recent) =>
      CandidateStep(cfg, s, m, recent);
    case Local(m) =>
      if m.kind == MsgHup {
        HupIsStep(cfg, s, m);
        HupMakesNoLeader(cfg, s);
      } else {
        CandidateStep(cfg, s, m, false);
      }
    case TakeReady =>
      ReadyTerm(cfg, s);
  }

  lemma HupIsStep(cfg: Config, s: Node, m: Message)
    requires m.term == 0 && m.kind == MsgHup
    ensures MessageWellFormed(m) && Step(cfg, s, m, false) == Hup(cfg, s)
  {
  }

  lemma CandidateUnheard(s: Node, h: Hist)
    requires NodeInv(s, h) && s.role == Candidate
    ensures Ack(h, s.id, s.term) == 0 && (s.term in h.leader ==> h.leader[s.term] != s.id)
  {
  }

  lemma WinnerReached(p: Node, h: Hist, t: nat)
    requires NodeInv(p, h) && t in h.leader && h.leader[t] == p.id
    ensures t <= p.term
  {
  }

  lemma UnheardLeader(p: Node, h: Hist, n: nat)
    requires NodeInv(p, h) && p.role == Leader && h.voters == {n, p.id} && n != p.id && Ack(h, n, p.term) == 0
    ensures Alone(p)
  {
    assert |p.prs| == |p.prs.Keys| == |h.voters|;
    assert PeerInv(n, p.prs[n], p.term, |p.log.ents|, h);
  }

  lemma VotersAre(voters: set<nat>, a: nat, b: nat)
    requires |voters| == 2 && a in voters && b in voters && a != b
    ensures voters == {a, b}
  {
    forall x | x in voters ensures x in {a, b} {
      OnlyTwo(voters, a, b, x);
    }
  }

  /** Where somebody else has won the candidate's term, that is its leader now, and has heard nothing from
      the candidate. */
  lemma Rival(c: Cluster, h: Hist, n: nat) returns (w: nat)
    requires Orderly(c, h) && n in c.nodes && c.nodes[n].role == Candidate && c.nodes[n].term in h.leader
    ensures w in c.nodes && w != n && c.nodes.Keys == {n, w}
    ensures LeadsAlone(c.nodes[w], w, c.nodes[n].term)
  {
    hide HistInv, NodeInv, MsgsInv, Alone;
    var s := c.nodes[n];
    w := h.leader[s.term];
    assert Resting(s, n, h);
    CandidateUnheard(s, h);
    WinnerIsVoter(h, s.term);
    PairOfVoters(h);
    VotersAre(h.voters, n, w);
    var p := c.nodes[w];
    assert Resting(p, w, h);
    WinnerReached(p, h, s.term);
    assert Followed(c, h, s.term, n);
    WinnerLeads(p, h, s.term);
    UnheardLeader(p, h, n);
  }

  lemma WinnerIsVoter(h: Hist, t: nat)
    requires HistInv(h) && t in h.leader
    ensures h.leader[t] in h.voters
  {
    assert ElectionOk(h, t);
  }

  /** A second win in a term: both lead it, and that is the end of it. */
  lemma SecondLeader(cfg: Config, c: Cluster, c': Cluster, h: Hist, n: nat, a: Input)
    requires Orderly(c, h) && SoundCluster(c) && StepOf(cfg, c, c', n, a)
    requires n in c.nodes && c.nodes[n].role == Candidate && c.nodes[n].term in h.leader
    requires React(cfg, c.nodes[n], a).value.role == Leader
    ensures Stuck(c', c.nodes[n].term)
  {
    hide React, Inv, SoundCluster, Enabled, Alone, SamePrefix, CommitKept, AllFollowed;
    var s := c.nodes[n];
    var r := React(cfg, s, a).value;
    var w := Rival(c, h, n);
    PeersOfTwo(c, h, n);
    CandidateWins(cfg, c, n, a);
    DrainedAlone(r);
    InvAgrees(c, h);
    forall v | v in c'.nodes
      ensures LeadsAlone(c'.nodes[v], v, s.term) && c'.nodes[v].log.committed == c.nodes[v].log.committed
      ensures CommitKept(c.nodes[v].log, c'.nodes[v].log)
    {
      CommitsKept(cfg, c, c', v);
    }
    forall v, u | v in c'.nodes && u in c'.nodes ensures SamePrefix(c', v, u) {
      KeptPrefix(c, c', v, u);
    }
  }

  lemma PeersOfTwo(c: Cluster, h: Hist, n: nat)
    requires Orderly(c, h) && n in c.nodes
    ensures c.nodes[n].id == n && |c.nodes[n].prs| == 2
  {
    hide HistInv, MsgsInv;
    assert Resting(c.nodes[n], n, h);
    PairOfVoters(h);
    assert |c.nodes[n].prs| == |c.nodes[n].prs.Keys|;
  }

  lemma CommitsKept(cfg: Config, c: Cluster, c': Cluster, v: nat)
    requires SoundCluster(c) && Next(cfg, c, c') && v in c.nodes
    ensures v in c'.nodes && CommitKept(c.nodes[v].log, c'.nodes[v].log)
  {
    hide Next, Moves, LocalInv, CommitKept;
    NextSound(cfg, c, c');
    assert Sound(c.nodes[v], v);
    CommitStep(cfg, c.nodes[v], c'.nodes[v]);
  }

  // ---------------------------------------------------------------- whole runs

  /** Either every term so far has had one leader, or the cluster is stuck in one that has two. */
  ghost predicate OrderlyOrStuck(c: Cluster) {
    (exists h :: Orderly(c, h)) || (exists t :: Stuck(c, t))
  }

  lemma OrderlyNext(cfg: Config, c: Cluster, c': Cluster, h: Hist)
    requires Orderly(c, h) && SoundCluster(c) && Next(cfg, c, c') && !cfg.checkQuorum
    ensures OrderlyOrStuck(c')
  {
    hide React, Inv, SoundCluster, Enabled, Good, Grows, Crowned, Stuck, AllFollowed;
    var n, a :| StepOf(cfg, c, c', n, a);
    PreVote.EnabledAt(cfg, c, n, a);
    if Lawful(c.nodes[n], h, React(cfg, c.nodes[n], a)) {
      var h' := ReactGood(cfg, c, h, n, a);
      StillOrderly(cfg, c, c', h, h', n, a);
    } else {
      SecondLeader(cfg, c, c', h, n, a);
      assert Stuck(c', c.nodes[n].term);
    }
  }

  lemma StillOrderly(cfg: Config, c: Cluster, c': Cluster, h: Hist, h': Hist, n: nat, a: Input)
    requires Orderly(c, h) && SoundCluster(c) && StepOf(cfg, c, c', n, a)
    requires Good(React(cfg, c.nodes[n], a).value, h') && Grows(h, h', n) && Crowned(h, h', React(cfg, c.nodes[n], a).value)
    ensures Orderly(c', h')
  {
    hide React, Inv, SoundCluster, Enabled, Good, Crowned, Followed;
    PreVote.EnabledAt(cfg, c, n, a);
    RestingGood(c, h, n);
    SettledInv(c, h, n, React(cfg, c.nodes[n], a).value, h');
    forall t: nat, o: nat ensures Followed(c', h', t, o) {
      StillFollowed(cfg, c, c', h, h', n, a, t, o);
    }
  }

  lemma StartOrderly(cfg: Config, c: Cluster, voters: set<nat>, boot: seq<Entry>)
    requires Init(cfg, c, voters, boot) && |voters| == 2
    ensures Orderly(c, InitialHist(voters, boot, true))
  {
    hide Inv;
    InitInv(cfg, c, voters, boot, true);
  }

  lemma {:induction false} RunOrderlyOrStuck(cfg: Config, voters: set<nat>, boot: seq<Entry>, run: seq<Cluster>, i: nat)
    requires Run(cfg, voters, boot, run) && i < |run| && |voters| == 2 && !cfg.checkQuorum
    ensures OrderlyOrStuck(run[i])
  {
    hide Init, Next, Orderly, Stuck;
    if i == 0 {
      StartOrderly(cfg, run[0], voters, boot);
    } else {
      RunOrderlyOrStuck(cfg, voters, boot, run, i - 1);
      RunSound(cfg, voters, boot, run, i - 1);
      assert Next(cfg, run[i - 1], run[i - 1 + 1]);
      OrderlyOrStuckNext(cfg, run[i - 1], run[i]);
    }
  }

  lemma OrderlyOrStuckNext(cfg: Config, c: Cluster, c': Cluster)
    requires OrderlyOrStuck(c) && SoundCluster(c) && Next(cfg, c, c') && !cfg.checkQuorum
    ensures OrderlyOrStuck(c')
  {
    hide Next, Orderly, Stuck, SoundCluster;
    if h :| Orderly(c, h) {
      OrderlyNext(cfg, c, c', h);
    } else {
      var t :| Stuck(c, t);
      StuckNext(cfg, c, c', t);
    }
  }

  lemma AgreeNow(c: Cluster, a: nat, b: nat)
    requires OrderlyOrStuck(c) && a in c.nodes && b in c.nodes
    ensures SamePrefix(c, a, b)
  {
    hide Inv, SamePrefix, AllFollowed, LeadsAlone;
    if h :| Orderly(c, h) {
      InvAgrees(c, h);
    }
  }

  lemma AgreeLater(run: seq<Cluster>, i: nat, j: nat, a: nat, b: nat)
    requires CursorsRise(run, i, j, a) && At(run, j, b) && SamePrefix(run[j], a, b)
    ensures Agree(Entries(run, i, a), Entries(run, j, b), Min(run[i].nodes[a].log.committed, run[j].nodes[b].log.committed))
  {
    var l, l', k := run[i].nodes[a].log, run[j].nodes[a].log, run[j].nodes[b].log;
    AgreeTrans(l.ents, l'.ents, k.ents, l.committed, Min(l'.committed, k.committed));
  }

  /** Without quorum checks two voters keep state machine safety, with pre-vote on as with it off: the
      committed prefixes of both, at any two moments, agree as far as both go. */
  lemma {:induction false} TwoVotersAgree(cfg: Config, voters: set<nat>, boot: seq<Entry>, run: seq<Cluster>, i: nat, j: nat, a: nat, b: nat)
    requires Run(cfg, voters, boot, run) && |voters| == 2 && !cfg.checkQuorum
    requires At(run, i, a) && At(run, j, b)
    ensures Agree(Entries(run, i, a), Entries(run, j, b), Min(run[i].nodes[a].log.committed, run[j].nodes[b].log.committed))
    decreases if i <= j then 0 else 1
  {
    hide Run, SamePrefix, OrderlyOrStuck, CursorsRise;
    if j < i {
      TwoVotersAgree(cfg, voters, boot, run, j, i, b, a);
    } else {
      PreVote.NodesAreVoters(cfg, voters, boot, run, i);
      PreVote.NodesAreVoters(cfg, voters, boot, run, j);
      RunOrderlyOrStuck(cfg, voters, boot, run, j);
      AgreeNow(run[j], a, b);
      CommitNeverFalls(cfg, voters, boot, run, i, j, a);
      AgreeLater(run, i, j, a, b);
    }
  }

  // ---------------------------------------------------------------- the dead end

  lemma OneLeaderWhenOrderly(c: Cluster, h: Hist, a: nat, b: nat)
    requires Orderly(c, h) && a in c.nodes && b in c.nodes && c.nodes[a].role == c.nodes[b].role == Leader
    requires c.nodes[a].term == c.nodes[b].term
    ensures a == b
  {
    hide Inv, HistInv, NodeInv, AllFollowed;
    NodeFacts(c, h, a);
    LeaderFacts(c.nodes[a], h);
    NodeFacts(c, h, b);
    LeaderFacts(c.nodes[b], h);
  }

  lemma TwoLeadersStuck(c: Cluster, a: nat, b: nat)
    requires OrderlyOrStuck(c) && a in c.nodes && b in c.nodes && a != b && c.nodes[a].role == c.nodes[b].role == Leader
    requires c.nodes[a].term == c.nodes[b].term
    ensures Stuck(c, c.nodes[a].term)
  {
    hide Orderly, CommitsAgree, Alone;
    if h :| Orderly(c, h) {
      OneLeaderWhenOrderly(c, h, a, b);
    } else {
      var t :| Stuck(c, t);
      assert LeadsAlone(c.nodes[a], a, t);
    }
  }

  ghost predicate StuckSince(run: seq<Cluster>, i: nat, j: nat, t: nat) {
    && i <= j < |run| && Stuck(run[j], t) && run[j].nodes.Keys == run[i].nodes.Keys
    && forall v :: v in run[i].nodes ==> run[j].nodes[v].log.committed == run[i].nodes[v].log.committed
  }

  lemma {:induction false} StuckForGood(cfg: Config, voters: set<nat>, boot: seq<Entry>, run: seq<Cluster>, i: nat, j: nat, t: nat)
    requires Run(cfg, voters, boot, run) && !cfg.checkQuorum && i <= j < |run| && Stuck(run[i], t)
    ensures StuckSince(run, i, j, t)
    decreases j - i
  {
    hide Init, Next, Stuck;
    if i < j {
      StuckForGood(cfg, voters, boot, run, i, j - 1, t);
      RunSound(cfg, voters, boot, run, j - 1);
      assert Next(cfg, run[j - 1], run[j - 1 + 1]);
      StuckNext(cfg, run[j - 1], run[j], t);
    }
  }

  /** Once two voters lead one term they lead it for good, and neither commits anything more. */
  lemma DeadEnd(cfg: Config, voters: set<nat>, boot: seq<Entry>, run: seq<Cluster>, i: nat, j: nat, a: nat, b: nat, t: nat)
    requires Run(cfg, voters, boot, run) && |voters| == 2 && !cfg.checkQuorum
    requires Leads(run, i, a, t) && Leads(run, i, b, t) && a != b && i <= j < |run|
    ensures Leads(run, j, a, t) && run[j].nodes[a].log.committed == run[i].nodes[a].log.committed
  {
    hide Run, OrderlyOrStuck, CommitsAgree;
    RunOrderlyOrStuck(cfg, voters, boot, run, i);
    TwoLeadersStuck(run[i], a, b);
    StuckForGood(cfg, voters, boot, run, i, j, t);
    assert LeadsAlone(run[j].nodes[a], a, t);
  }
}
