/** Every step of a node keeps the invariant and never hits a fatal check. */
module Steps {
  import opened Proto
  import opened LogSpec
  import opened ProgressSpec
  import opened RaftSpec
  import opened Quorum
  import opened History
  import opened Invariant
  import opened Elections
  import opened Leadership
  import opened Replication

  /** Only the bookkeeping fields differ. */
  ghost predicate SameButBookkeeping(s: Node, s': Node) {
    && s'.prs.Keys == s.prs.Keys
    && s' == s.(prs := s'.prs, pendingConf := s'.pendingConf, uncommitted := s'.uncommitted, lead := s'.lead)
  }

  lemma BookkeepingGood(s: Node, s': Node, h: Hist)
    requires Good(s, h) && SameButBookkeeping(s, s')
    requires s.role == Leader ==> ProgressInv(s'.prs, s.term, |s.log.ents|, h)
    ensures Good(s', h)
  {
  }

  lemma OnePeerGood(s: Node, h: Hist, v: nat, p: Progress)
    requires Good(s, h) && s.role == Leader && v in s.prs
    requires PeerInv(v, p, s.term, |s.log.ents|, h)
    ensures Good(s.(prs := s.prs[v := p]), h)
  {
    var s' := s.(prs := s.prs[v := p]);
    forall w | w in s'.prs ensures PeerInv(w, s'.prs[w], s.term, |s.log.ents|, h) {
      if w != v {
        assert PeerInv(w, s.prs[w], s.term, |s.log.ents|, h);
      }
    }
    BookkeepingGood(s, s', h);
  }

  // ---------------------------------------------------------------- sending appends

  lemma EntriesAreStretch(s: Node, next: Position, max: nat)
    requires next <= s.log.Last() + 1
    ensures var es := EntriesFrom(s.log, next, max);
            && next - 1 + |es| <= |s.log.ents|
            && es == s.log.ents[next - 1..next - 1 + |es|]
            && (es != [] ==> es[|es| - 1].index == next - 1 + |es|)
  {
    var es := EntriesFrom(s.log, next, max);
    if es != [] {
      var tail := s.log.ents[next - 1..];
      assert es == tail[..|es|];
      assert es[|es| - 1] == s.log.ents[next - 1 + |es| - 1];
    }
  }

  lemma TermAtIsTermOf(s: Node, i: nat)
    ensures s.log.TermAt(i) == TermOf(s.log.ents, i)
  {
  }

  /** An append sent to a peer within reach is a stretch of the leader's log and keeps it in reach. */
  lemma AppendToGood(cfg: Config, s: Node, h: Hist, to: nat, p: Progress, sendIfEmpty: bool)
    requires Good(s, h) && s.role == Leader
    requires PeerInv(to, p, s.term, |s.log.ents|, h)
    ensures var (p', m) := AppendTo(cfg, s, to, p, sendIfEmpty);
            PeerInv(to, p', s.term, |s.log.ents|, h) && (m.Some? ==> MsgInv(m.value, h))
  {
    var (p', m) := AppendTo(cfg, s, to, p, sendIfEmpty);
    EntriesAreStretch(s, p.next, cfg.maxMsgSize);
    TermAtIsTermOf(s, p.next - 1);
    if m.Some? {
      LeaderTermAfterStart(h, s.term);
      assert AppendMsgInv(m.value, h);
    }
  }

  lemma LeaderTermAfterStart(h: Hist, t: nat)
    requires LogsInv(h) && t in h.leader
    ensures t > h.start
  {
    assert LeaderLogOk(h, t);
  }

  lemma MaybeSendAppendGood(cfg: Config, s: Node, h: Hist, to: nat, sendIfEmpty: bool)
    requires Good(s, h) && s.role == Leader && to in s.prs
    ensures Good(MaybeSendAppend(cfg, s, to, sendIfEmpty).0, h)
    ensures MaybeSendAppend(cfg, s, to, sendIfEmpty).0.role == Leader
  {
    assert PeerInv(to, s.prs[to], s.term, |s.log.ents|, h);
    AppendToGood(cfg, s, h, to, s.prs[to], sendIfEmpty);
    var (p, m) := AppendTo(cfg, s, to, s.prs[to], sendIfEmpty);
    OnePeerGood(s, h, to, p);
  }

  lemma {:induction false} SendAllGood(cfg: Config, s: Node, h: Hist, to: nat)
    requires Good(s, h) && s.role == Leader && to in s.prs
    ensures Good(SendAll(cfg, s, to), h)
    decreases SendBudget(s, to)
  {
    hide Good, MaybeSendAppend;
    MaybeSendAppendGood(cfg, s, h, to, false);
    SendShrinksBudget(cfg, s, to);
    var (s', sent) := MaybeSendAppend(cfg, s, to, false);
    if sent {
      SendKeepsPeers(cfg, s, to);
      SendAllGood(cfg, s', h, to);
    }
  }

  lemma SendKeepsPeers(cfg: Config, s: Node, to: nat)
    requires to in s.prs
    ensures to in MaybeSendAppend(cfg, s, to, false).0.prs
  {
  }

  lemma BcastAppendGood(cfg: Config, s: Node, h: Hist)
    requires Good(s, h) && s.role == Leader
    ensures Good(BcastAppend(cfg, s), h) && BcastAppend(cfg, s).role == Leader
  {
    var s' := BcastAppend(cfg, s);
    forall v | v in s.prs
      ensures PeerInv(v, s'.prs[v], s.term, |s.log.ents|, h)
      ensures var m := AppendTo(cfg, s, v, s.prs[v], true).1; m.Some? ==> MsgInv(m.value, h)
    {
      assert PeerInv(v, s.prs[v], s.term, |s.log.ents|, h);
      AppendToGood(cfg, s, h, v, s.prs[v], true);
    }
    BookkeepingGood(s, s.(prs := s'.prs), h);
  }

  lemma BcastHeartbeatGood(s: Node, h: Hist)
    requires Good(s, h) && s.role == Leader
    ensures Good(BcastHeartbeat(s), h)
  {
    forall v | v in s.prs ensures MsgInv(Heartbeat(s, v), h) {
      assert PeerInv(v, s.prs[v], s.term, |s.log.ents|, h);
      LeaderTermAfterStart(h, s.term);
      CommitOkShorter(h, s.log.ents, s.term, s.log.committed, Min(s.prs[v].matched, s.log.committed));
      assert HeartbeatMsgInv(Heartbeat(s, v), h);
    }
  }

  // ---------------------------------------------------------------- answers from peers

  lemma RejectedGood(cfg: Config, s: Node, h: Hist, m: Message)
    requires Good(s, h) && s.role == Leader && m.from in s.prs && m.reject
    ensures HandleAppResp(cfg, s, m).Ok? && Good(HandleAppResp(cfg, s, m).value, h)
  {
    var p := s.prs[m.from].(recentActive := true);
    assert PeerInv(m.from, s.prs[m.from], s.term, |s.log.ents|, h);
    AckWithinLog(h, m.from, s.term);
    var (p1, lowered) := MaybeDecreaseTo(p, m.index, m.rejectHint);
    if !lowered {
      OnePeerGood(s, h, m.from, p1);
    } else {
      var p2 := if p1.state == Replicate then BecomeProbe(p1) else p1;
      OnePeerGood(s, h, m.from, p2);
      MaybeSendAppendGood(cfg, s.(prs := s.prs[m.from := p2]), h, m.from, true);
    }
  }

  /** An acknowledgement is inside the acknowledged leader's log. */
  lemma AckWithinLog(h: Hist, v: nat, t: nat)
    requires AckInv(h) && t in h.logs
    ensures Ack(h, v, t) <= |h.logs[t]|
  {
    if (v, t) in h.acks {
      assert AckOk(h, v, t);
    }
  }

  /** The peer's progress after an acknowledgement that raised it. */
  function RaisedProgress(p: Progress, index: nat): Progress {
    match p.state
    case Probe => BecomeReplicate(p)
    case Snapshot => if NeedSnapshotAbort(p) then BecomeProbe(p) else p
    case Replicate => p.(inflights := FreeTo(p.inflights, index))
  }

  lemma RaisedPeerInv(v: nat, p: Progress, term: nat, last: nat, h: Hist, index: nat)
    requires PeerInv(v, p, term, last, h) && index <= Ack(h, v, term) <= last
    ensures PeerInv(v, MaybeUpdate(p, index).0, term, last, h)
    ensures PeerInv(v, RaisedProgress(MaybeUpdate(p, index).0, index), term, last, h)
  {
  }

  lemma AcceptedGood(cfg: Config, s: Node, h: Hist, m: Message)
    requires Good(s, h) && s.role == Leader && m.from in s.prs && !m.reject
    requires m.index <= Ack(h, m.from, s.term)
    ensures HandleAppResp(cfg, s, m).Ok? && Good(HandleAppResp(cfg, s, m).value, h)
  {
    var p := s.prs[m.from].(recentActive := true);
    assert PeerInv(m.from, s.prs[m.from], s.term, |s.log.ents|, h);
    AckWithinLog(h, m.from, s.term);
    RaisedPeerInv(m.from, p, s.term, |s.log.ents|, h, m.index);
    var (p1, raised) := MaybeUpdate(p, m.index);
    if !raised {
      OnePeerGood(s, h, m.from, p1);
    } else {
      var s0 := s.(prs := s.prs[m.from := RaisedProgress(p1, m.index)]);
      OnePeerGood(s, h, m.from, RaisedProgress(p1, m.index));
      AfterRaise(cfg, s0, h, m.from, IsPaused(p));
      AcceptedSteps(cfg, s, m);
    }
  }

  /** What the leader does once a peer's progress has been raised: commit, tell everyone or just
      the peer, then keep sending. */
  ghost function CommitAndSend(cfg: Config, s: Node, to: nat, wasPaused: bool): Result<Node>
    requires to in s.prs
  {
    var (s1, changed) :- AdvanceCommit(s);
    var s2 := if changed then BcastAppend(cfg, s1)
              else if wasPaused then SendAppend(cfg, s1, to)
              else s1;
    Ok(SendAll(cfg, s2, to))
  }

  lemma AcceptedSteps(cfg: Config, s: Node, m: Message)
    requires m.from in s.prs && !m.reject
    requires s.prs[m.from].matched < m.index
    ensures var p := s.prs[m.from].(recentActive := true);
            var p2 := RaisedProgress(MaybeUpdate(p, m.index).0, m.index);
            HandleAppResp(cfg, s, m) == CommitAndSend(cfg, s.(prs := s.prs[m.from := p2]), m.from, IsPaused(p))
  {
    hide AdvanceCommit, BcastAppend, SendAppend, SendAll, FreeTo;
  }

  lemma AfterRaise(cfg: Config, s: Node, h: Hist, to: nat, wasPaused: bool)
    requires Good(s, h) && s.role == Leader && to in s.prs
    ensures CommitAndSend(cfg, s, to, wasPaused).Ok? && Good(CommitAndSend(cfg, s, to, wasPaused).value, h)
  {
    hide Good, AdvanceCommit, BcastAppend, SendAppend, SendAll;
    AdvanceCommitGood(s, h);
    var (s1, changed) := AdvanceCommit(s).value;
    var s2 := if changed then BcastAppend(cfg, s1) else if wasPaused then SendAppend(cfg, s1, to) else s1;
    if changed {
      BcastAppendGood(cfg, s1, h);
    } else if wasPaused {
      SendAppendGood(cfg, s1, h, to);
    }
    SendAllGood(cfg, s2, h, to);
  }

  lemma SendAppendGood(cfg: Config, s: Node, h: Hist, to: nat)
    requires Good(s, h) && s.role == Leader && to in s.prs
    ensures Good(SendAppend(cfg, s, to), h) && SendAppend(cfg, s, to).role == Leader
    ensures to in SendAppend(cfg, s, to).prs
  {
    MaybeSendAppendGood(cfg, s, h, to, true);
    hide Good;
  }

  lemma HandleHeartbeatRespGood(cfg: Config, s: Node, h: Hist, m: Message)
    requires Good(s, h) && s.role == Leader && m.from in s.prs
    ensures Good(HandleHeartbeatResp(cfg, s, m), h)
  {
    var p := s.prs[m.from].(recentActive := true, paused := false);
    var p1 := if p.state == Replicate && WindowFull(p) && p.inflights != []
              then p.(inflights := FreeTo(p.inflights, p.inflights[0])) else p;
    assert PeerInv(m.from, s.prs[m.from], s.term, |s.log.ents|, h);
    OnePeerGood(s, h, m.from, p1);
    var s1 := s.(prs := s.prs[m.from := p1]);
    if p1.matched < s.log.Last() {
      SendAppendGood(cfg, s1, h, m.from);
    }
  }

  lemma StepPeerGood(cfg: Config, s: Node, h: Hist, m: Message)
    requires Good(s, h) && s.role == Leader && m.from in s.prs
    requires m.kind == MsgAppResp && !m.reject ==> m.index <= Ack(h, m.from, s.term)
    ensures StepPeer(cfg, s, m).Ok? && Good(StepPeer(cfg, s, m).value, h)
  {
    var p := s.prs[m.from];
    assert PeerInv(m.from, p, s.term, |s.log.ents|, h);
    if m.kind == MsgAppResp {
      if m.reject {
        RejectedGood(cfg, s, h, m);
      } else {
        AcceptedGood(cfg, s, h, m);
      }
    } else if m.kind == MsgHeartbeatResp {
      HandleHeartbeatRespGood(cfg, s, h, m);
    } else if m.kind == MsgUnreachable && p.state == Replicate {
      AckWithinLog(h, m.from, s.term);
      OnePeerGood(s, h, m.from, BecomeProbe(p));
    }
  }

  lemma PendingConfGood(s: Node, h: Hist, pending: nat)
    requires Good(s, h)
    ensures WellFormed(s.(pendingConf := pending)) && Good(s.(pendingConf := pending), h)
  {
    BookkeepingGood(s, s.(pendingConf := pending), h);
  }

  lemma ProposeSteps(cfg: Config, s: Node, m: Message)
    requires m.entries != []
    ensures var (es, pending) := GateConf(m.entries, s.pendingConf, s.log.applied, s.log.Last() + 1);
            var r := AppendEntry(cfg, s.(pendingConf := pending), es);
            Propose(cfg, s, m) ==
            if r.Fatal? then Fatal else Ok(if r.value.1 then BcastAppend(cfg, r.value.0) else r.value.0)
  {
    hide AppendEntry, BcastAppend, GateConf;
  }

  lemma ProposeGood(cfg: Config, s: Node, h: Hist, m: Message) returns (h': Hist)
    requires Good(s, h) && s.role == Leader && m.entries != []
    ensures Propose(cfg, s, m).Ok? && Good(Propose(cfg, s, m).value, h') && Grows(h, h', s.id) && h'.leader == h.leader
  {
    hide *;
    var (es, pending) := GateConf(m.entries, s.pendingConf, s.log.applied, s.log.Last() + 1);
    var s1 := s.(pendingConf := pending);
    PendingConfGood(s, h, pending);
    ProposeSteps(cfg, s, m);
    h' := AppendEntryGood(cfg, s1, h, es);
    var (s2, kept) := AppendEntry(cfg, s1, es).value;
    if kept {
      BcastAppendGood(cfg, s2, h');
    }
  }

  lemma StepLeaderGood(cfg: Config, s: Node, h: Hist, m: Message) returns (h': Hist)
    requires Good(s, h) && s.role == Leader
    requires (m.kind == MsgProp ==> m.entries != []) && (m.kind == MsgCheckQuorum ==> !h.pair)
    requires m.kind == MsgAppResp && !m.reject ==> m.index <= Ack(h, m.from, s.term)
    ensures StepLeader(cfg, s, m).Ok? && Good(StepLeader(cfg, s, m).value, h') && Grows(h, h', s.id) && h'.leader == h.leader
  {
    hide Good, Propose, StepPeer, BcastHeartbeat, BecomeFollower, ActiveVoters;
    h' := h;
    GrowsRefl(h, s.id);
    if m.kind == MsgBeat {
      BcastHeartbeatGood(s, h);
    } else if m.kind == MsgCheckQuorum {
      BecomeFollowerGood(cfg, s, h, s.term, 0);
    } else if m.kind == MsgProp {
      h' := ProposeGood(cfg, s, h, m);
    } else if m.from in s.prs {
      StepPeerGood(cfg, s, h, m);
    }
  }

  // ---------------------------------------------------------------- candidates and followers

  lemma PollGood(s: Node, h: Hist, from: nat, granted: bool)
    requires Good(s, h) && s.role == Candidate && from in h.voters
    requires granted && !h.pair ==> VotedFor(h, from, s.term, s.id)
    ensures Good(Poll(s, from, granted), h) && Poll(s, from, granted).role == Candidate
  {
    var s' := Poll(s, from, granted);
    assert GrantedBy(s'.votes) <= GrantedBy(s.votes) + (if granted then {from} else {});
    if !h.pair {
      forall v | v in GrantedBy(s'.votes) ensures VotedFor(h, v, s.term, s.id) {
      }
    }
  }

  /** Of a step of `s` that ends as `r`: a candidate does not take office in a term already won. */
  ghost predicate Lawful(s: Node, h: Hist, r: Result<Node>) {
    h.pair && s.role == Candidate && s.term in h.leader ==> r.Ok? && r.value.role != Leader
  }

  lemma LeadersLead(cfg: Config, s: Node)
    requires s.role != Follower && BecomeLeader(cfg, s).Ok?
    ensures var r := BcastAppend(cfg, BecomeLeader(cfg, s).value);
            r.role == Leader == BecomeLeader(cfg, s).value.role && r.term == s.term == BecomeLeader(cfg, s).value.term
  {
    hide Append, StampEntries, QuorumIndex, MaybeUpdate, WithinLimit, AppendTo;
  }

  lemma HandleVoteRespGood(cfg: Config, s: Node, h: Hist, m: Message) returns (h': Hist)
    requires Good(s, h) && s.role == Candidate && Lawful(s, h, HandleVoteResp(cfg, s, m))
    requires m.from in h.voters && (!m.reject && !h.pair ==> VotedFor(h, m.from, s.term, s.id))
    ensures HandleVoteResp(cfg, s, m).Ok? && Good(HandleVoteResp(cfg, s, m).value, h') && Grows(h, h', s.id)
    ensures Crowned(h, h', HandleVoteResp(cfg, s, m).value)
  {
    hide Good, BecomeLeader, BcastAppend, BecomeFollower;
    PollGood(s, h, m.from, !m.reject);
    var s1 := Poll(s, m.from, !m.reject);
    var granted := |GrantedBy(s1.votes)|;
    h' := h;
    GrowsRefl(h, s.id);
    if granted == NodeQuorum(s1) {
      if BecomeLeader(cfg, s1).Ok? {
        LeadersLead(cfg, s1);
      }
      h' := BecomeLeaderGood(cfg, s1, h);
      BcastAppendGood(cfg, BecomeLeader(cfg, s1).value, h');
    } else if |s1.votes| - granted == NodeQuorum(s1) {
      BecomeFollowerGood(cfg, s1, h, s1.term, 0);
    }
  }

  lemma PrePollGood(s: Node, h: Hist, from: nat, granted: bool)
    requires Good(s, h) && s.role == PreCandidate
    ensures Good(Poll(s, from, granted), h) && Poll(s, from, granted).role == PreCandidate && Poll(s, from, granted).id == s.id
  {
  }

  /** A pre-vote or vote answer at a pre-candidate, which it may turn into a candidate. */
  lemma HandlePreVoteRespGood(cfg: Config, s: Node, h: Hist, m: Message) returns (h': Hist)
    requires Good(s, h) && s.role == PreCandidate
    ensures HandleVoteResp(cfg, s, m).Ok? && Good(HandleVoteResp(cfg, s, m).value, h') && Grows(h, h', s.id)
    ensures Crowned(h, h', HandleVoteResp(cfg, s, m).value)
  {
    hide Good, Campaign, BecomeFollower;
    PrePollGood(s, h, m.from, !m.reject);
    var s1 := Poll(s, m.from, !m.reject);
    var granted := |GrantedBy(s1.votes)|;
    h' := h;
    GrowsRefl(h, s.id);
    if granted == NodeQuorum(s1) {
      h' := CampaignGood(cfg, s1, h);
    } else if |s1.votes| - granted == NodeQuorum(s1) {
      BecomeFollowerGood(cfg, s1, h, s1.term, 0);
    }
  }

  /** An append or heartbeat of the node's term, once it follows. */
  lemma FollowGood(s: Node, h: Hist, m: Message) returns (h': Hist)
    requires Good(s, h) && s.role == Follower && MsgInv(m, h) && m.term == s.term && m.to == s.id
    requires MessageWellFormed(m) && (m.kind == MsgApp || m.kind == MsgHeartbeat)
    ensures m.kind == MsgApp ==>
              HandleAppend(s, m).Ok? && Good(HandleAppend(s, m).value, h') && Grows(h, h', s.id) && h'.leader == h.leader
    ensures m.kind == MsgHeartbeat ==>
              HandleHeartbeat(s, m).Ok? && Good(HandleHeartbeat(s, m).value, h') && Grows(h, h', s.id) && h'.leader == h.leader
  {
    hide Good, MsgInv, HandleAppend, HandleHeartbeat;
    h' := h;
    GrowsRefl(h, s.id);
    if m.kind == MsgApp {
      h' := HandleAppendGood(s, h, m);
    } else {
      HandleHeartbeatGood(s, h, m);
    }
  }

  lemma AnswerFacts(m: Message, h: Hist)
    requires MsgInv(m, h)
    ensures m.from in h.voters && (m.kind == MsgPreVoteResp ==> h.pair)
    ensures m.kind == MsgVoteResp && !m.reject ==> VotedFor(h, m.from, m.term, m.to)
  {
  }

  lemma CandidateMayFollow(cfg: Config, s: Node, m: Message)
    ensures BecomeFollower(cfg, s, m.term, m.from).role == Follower
    ensures m.kind == MsgApp ==> MessageWellFormed(m) == Contiguous(m.entries, m.index + 1)
  {
  }

  lemma CrownedRefl(h: Hist, s: Node)
    ensures Crowned(h, h, s)
  {
  }

  lemma NobodyCrowned(h: Hist, h': Hist, s: Node)
    requires h'.leader == h.leader
    ensures Crowned(h, h', s)
  {
  }

  lemma StepCandidateGood(cfg: Config, s: Node, h: Hist, m: Message) returns (h': Hist)
    requires Good(s, h) && IsCandidate(s) && MsgInv(m, h) && m.to == s.id && MessageWellFormed(m)
    requires m.kind !in {MsgProp, MsgPreVoteResp} ==> m.term == s.term
    requires Lawful(s, h, StepCandidate(cfg, s, m))
    ensures StepCandidate(cfg, s, m).Ok? && Good(StepCandidate(cfg, s, m).value, h') && Grows(h, h', s.id)
    ensures Crowned(h, h', StepCandidate(cfg, s, m).value)
  {
    hide Good, MsgInv, VotedFor, HandleVoteResp, HandleAppend, HandleHeartbeat, BecomeFollower, MessageWellFormed, Crowned, Grows, Lawful;
    AnswerFacts(m, h);
    CandidateMayFollow(cfg, s, m);
    CrownedRefl(h, s);
    h' := h;
    GrowsRefl(h, s.id);
    if m.kind == MsgApp || m.kind == MsgHeartbeat {
      BecomeFollowerGood(cfg, s, h, m.term, m.from);
      h' := FollowGood(BecomeFollower(cfg, s, m.term, m.from), h, m);
      NobodyCrowned(h, h', StepCandidate(cfg, s, m).value);
    } else if m.kind in {MsgVoteResp, MsgPreVoteResp} {
      if s.role == Candidate {
        h' := HandleVoteRespGood(cfg, s, h, m);
      } else {
        h' := HandlePreVoteRespGood(cfg, s, h, m);
      }
    }
  }

  lemma StepFollowerGood(cfg: Config, s: Node, h: Hist, m: Message) returns (h': Hist)
    requires Good(s, h) && s.role == Follower && MessageWellFormed(m)
    requires if m.kind == MsgProp then m.term == 0 && m.entries != [] else MsgInv(m, h) && m.to == s.id
    requires m.kind in {MsgApp, MsgHeartbeat} ==> m.term == s.term
    ensures StepFollower(cfg, s, m).Ok? && Good(StepFollower(cfg, s, m).value, h') && Grows(h, h', s.id) && h'.leader == h.leader
  {
    h' := h;
    GrowsRefl(h, s.id);
    if m.kind == MsgProp {
      if s.lead != 0 && !cfg.disableForwarding {
        assert MsgInv(Stamp(s, m.(to := s.lead)), h);
        SendGood(s, h, m.(to := s.lead));
      }
    } else if m.kind == MsgApp || m.kind == MsgHeartbeat {
      BookkeepingGood(s, s.(lead := m.from), h);
      hide Good, MsgInv, HandleAppend, HandleHeartbeat;
      h' := FollowGood(s.(lead := m.from), h, m);
    }
  }

  // ---------------------------------------------------------------- step

  /** The configuration the history is about: pre-vote off, or on with two voters and no quorum check. */
  ghost predicate Fits(cfg: Config, h: Hist) {
    if h.pair then !cfg.checkQuorum else !cfg.preVote
  }

  lemma PreCampaignGood(cfg: Config, s: Node, h: Hist) returns (h': Hist)
    requires Good(s, h) && s.role != Leader && h.pair
    ensures PreCampaign(cfg, s).Ok? && Good(PreCampaign(cfg, s).value, h') && Grows(h, h', s.id)
    ensures Crowned(h, h', PreCampaign(cfg, s).value)
  {
    hide Good, Campaign, RequestVotes, BecomePreCandidate;
    PreCandidateGood(s, h);
    var s1 := Poll(BecomePreCandidate(s), s.id, true);
    h' := h;
    GrowsRefl(h, s.id);
    if |GrantedBy(s1.votes)| == NodeQuorum(s1) {
      h' := CampaignGood(cfg, s1, h);
    } else {
      RequestPreVotesGood(s1, h);
    }
  }

  lemma HupGood(cfg: Config, s: Node, h: Hist) returns (h': Hist)
    requires Good(s, h) && Fits(cfg, h)
    ensures Hup(cfg, s).Ok? && Good(Hup(cfg, s).value, h') && Grows(h, h', s.id)
    ensures Crowned(h, h', Hup(cfg, s).value)
  {
    GoodCursors(s, h);
    hide Good, Campaign, PreCampaign, HasPendingConf, CursorsOk;
    h' := h;
    GrowsRefl(h, s.id);
    if s.role != Leader && !HasPendingConf(s.log) {
      if cfg.preVote {
        h' := PreCampaignGood(cfg, s, h);
      } else {
        h' := CampaignGood(cfg, s, h);
      }
    }
  }

  /** A network message whose term equals the node's, a proposal, or one of the pre-election. */
  ghost predicate Current(s: Node, h: Hist, m: Message) {
    && MsgInv(m, h) && m.to == s.id && MessageWellFormed(m)
    && (m.kind !in {MsgProp, MsgPreVote, MsgPreVoteResp} ==> m.term == s.term)
  }

  lemma DispatchGood(cfg: Config, s: Node, h: Hist, m: Message) returns (h': Hist)
    requires Good(s, h) && Current(s, h, m) && Lawful(s, h, Dispatch(cfg, s, m))
    ensures Dispatch(cfg, s, m).Ok? && Good(Dispatch(cfg, s, m).value, h') && Grows(h, h', s.id)
    ensures Crowned(h, h', Dispatch(cfg, s, m).value)
  {
    hide Good, MsgInv, HandleVote, StepLeader, StepFollower, StepCandidate, Hup, MessageWellFormed;
    CurrentFacts(s, h, m);
    if m.kind == MsgVote {
      h' := HandleVoteGood(s, h, m);
    } else if m.kind == MsgPreVote {
      HandlePreVoteGood(s, h, m);
      h' := h;
      GrowsRefl(h, s.id);
    } else if s.role == Leader {
      h' := StepLeaderGood(cfg, s, h, m);
    } else if s.role == Follower {
      h' := StepFollowerGood(cfg, s, h, m);
    } else {
      h' := StepCandidateGood(cfg, s, h, m);
    }
  }

  lemma CurrentFacts(s: Node, h: Hist, m: Message)
    requires Good(s, h) && Current(s, h, m)
    ensures m.kind != MsgHup && m.kind != MsgCheckQuorum
    ensures m.kind == MsgProp ==> m.entries != [] && m.term == 0
    ensures m.kind == MsgAppResp && !m.reject ==> m.index <= Ack(h, m.from, s.term)
    ensures MsgInv(m, h) && m.to == s.id && MessageWellFormed(m)
  {
  }

  /** Delivering any network message keeps the invariant and never fails. */
  lemma StepGood(cfg: Config, s: Node, h: Hist, m: Message, recent: bool) returns (h': Hist)
    requires Good(s, h) && MsgInv(m, h) && m.to == s.id && MessageWellFormed(m) && Lawful(s, h, Step(cfg, s, m, recent))
    ensures Step(cfg, s, m, recent).Ok? && Good(Step(cfg, s, m, recent).value, h') && Grows(h, h', s.id)
    ensures Crowned(h, h', Step(cfg, s, m, recent).value)
  {
    hide Good, MsgInv, Dispatch, MessageWellFormed, Send, BecomeFollower;
    MessageTerm(s, h, m);
    h' := h;
    GrowsRefl(h, s.id);
    if m.term == 0 || m.term == s.term {
      h' := DispatchGood(cfg, s, h, m);
    } else if m.term > s.term {
      if m.kind in {MsgVote, MsgPreVote} && cfg.checkQuorum && s.lead != 0 && recent {
      } else if m.kind == MsgPreVote || (m.kind == MsgPreVoteResp && !m.reject) {
        h' := DispatchGood(cfg, s, h, m);
      } else {
        var lead := if m.kind in {MsgApp, MsgHeartbeat} then m.from else 0;
        BecomeFollowerGood(cfg, s, h, m.term, lead);
        FollowingIsLawful(cfg, s, h, m, lead);
        h' := DispatchGood(cfg, BecomeFollower(cfg, s, m.term, lead), h, m);
      }
    } else if (cfg.checkQuorum || cfg.preVote) && m.kind in {MsgHeartbeat, MsgApp} {
      StaleReplyGood(s, h, m);
    } else if m.kind == MsgPreVote {
      StaleRefusalGood(s, h, m);
    }
  }

  lemma MessageTerm(s: Node, h: Hist, m: Message)
    requires Good(s, h) && MsgInv(m, h)
    ensures s.id in h.voters && (m.kind == MsgPreVote ==> h.pair)
    ensures if m.kind == MsgProp then m.term == 0 else m.kind == MsgPreVoteResp || m.term > h.start
  {
  }

  lemma FollowingIsLawful(cfg: Config, s: Node, h: Hist, m: Message, lead: nat)
    requires MessageWellFormed(m)
    ensures var s1 := BecomeFollower(cfg, s, m.term, lead); Lawful(s1, h, Dispatch(cfg, s1, m))
  {
    hide Dispatch, MessageWellFormed;
  }

  lemma StaleRefusalGood(s: Node, h: Hist, m: Message)
    requires Good(s, h) && h.pair && h.start < m.term < s.term
    ensures var r := EMPTY_MESSAGE.(to := m.from, kind := MsgPreVoteResp, reject := true, term := s.term);
            Send(s, r).Ok? && Good(Send(s, r).value, h)
  {
    SendGood(s, h, EMPTY_MESSAGE.(to := m.from, kind := MsgPreVoteResp, reject := true, term := s.term));
  }

  lemma StaleReplyGood(s: Node, h: Hist, m: Message)
    requires Good(s, h) && h.start < m.term < s.term
    ensures var r := EMPTY_MESSAGE.(to := m.from, kind := MsgAppResp);
            Send(s, r).Ok? && Good(Send(s, r).value, h)
  {
    var r := EMPTY_MESSAGE.(to := m.from, kind := MsgAppResp);
    assert MsgInv(Stamp(s, r), h);
    SendGood(s, h, r);
  }

  lemma FollowerIgnores(cfg: Config, s: Node, m: Message)
    requires IsLocal(m.kind)
    ensures StepFollower(cfg, s, m) == Ok(s)
  {
  }

  /** A node's own clock and clients. */
  lemma LocalGood(cfg: Config, s: Node, h: Hist, m: Message) returns (h': Hist)
    requires Good(s, h) && Fits(cfg, h) && m.term == 0 && (m.kind == MsgCheckQuorum ==> cfg.checkQuorum)
    requires IsLocal(m.kind) || (m.kind == MsgProp && m.entries != [])
    ensures Step(cfg, s, m, false).Ok? && Good(Step(cfg, s, m, false).value, h') && Grows(h, h', s.id)
    ensures Crowned(h, h', Step(cfg, s, m, false).value)
  {
    hide Good, Hup, StepLeader, StepFollower, Grows;
    h' := h;
    GrowsRefl(h, s.id);
    if m.kind == MsgHup {
      h' := HupGood(cfg, s, h);
    } else if s.role == Leader {
      h' := StepLeaderGood(cfg, s, h, m);
    } else if s.role == Follower {
      if m.kind == MsgProp {
        h' := StepFollowerGood(cfg, s, h, m);
      } else {
        FollowerIgnores(cfg, s, m);
      }
    }
  }

  /** Taking a Ready only moves the applied cursor, within the committed entries. */
  lemma ReadyMovesApplied(cfg: Config, s: Node)
    requires CursorsOk(s.log)
    ensures var s' := ReadyRound(cfg, s);
            && s' == s.(log := s'.log, uncommitted := s'.uncommitted)
            && s'.log == s.log.(applied := s'.log.applied)
            && s.log.applied <= s'.log.applied <= s.log.committed
  {
    var es := NextEntries(cfg, s.log);
    if es != [] {
      var stretch := s.log.ents[s.log.applied..s.log.committed];
      assert es[|es| - 1] == stretch[|es| - 1] == s.log.ents[s.log.applied + |es| - 1];
    }
  }

  lemma ReadyGood(cfg: Config, s: Node, h: Hist)
    requires Good(s, h)
    ensures CursorsOk(s.log) && Good(ReadyRound(cfg, s), h)
  {
    GoodCursors(s, h);
    ReadyMovesApplied(cfg, s);
    hide ReadyRound;
    var s' := ReadyRound(cfg, s);
    assert NodeLogInv(s'.log, s.term, h);
  }
}
