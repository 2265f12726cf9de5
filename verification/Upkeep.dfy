/** What a leader keeps up with, over every step and every run, whatever the configuration: it commits all that a
    majority has reached in its own term, its log ends in that term, its own match is its last index, and every
    peer's window has the configured size. */
module Upkeep {
  import opened Proto
  import opened LogSpec
  import opened ProgressSpec
  import opened RaftSpec
  import opened ClusterSpec
  import opened Quorum
  import opened Leadership
  import opened Steps
  import opened Theorems
  import opened Flow
  import opened Ledger
  import opened LocalRuns
  import opened Answers
  import opened AnswersInRuns

  ghost predicate Windows(cfg: Config, prs: map<nat, Progress>) {
    forall v {:trigger prs[v]} :: v in prs ==> prs[v].window == cfg.maxInflight
  }

  /** The index a majority has reached is committed, if it is of the leader's term. */
  ghost predicate NoneMissed(s: Node) {
    forall x: nat :: IsQuorumIndex(Matches(s.prs), x) && s.log.TermAt(x) == s.term ==> x <= s.log.committed
  }

  ghost predicate InCharge(s: Node) {
    NoneMissed(s) && s.log.LastTerm() == s.term && s.prs[s.id].matched == s.log.Last()
  }

  ghost predicate Upkept(cfg: Config, s: Node) {
    Windows(cfg, s.prs) && (s.role == Leader ==> InCharge(s))
  }

  // ---------------------------------------------------------------- what changes nothing of it

  /** The same entries and term, the same matches and windows, and a cursor that did not fall. */
  ghost predicate Carries(s: Node, r: Node) {
    && r.id == s.id && r.term == s.term && r.role == s.role && r.prs.Keys == s.prs.Keys
    && r.log == s.log.(committed := r.log.committed, applied := r.log.applied) && s.log.committed <= r.log.committed
    && forall v {:trigger r.prs[v]} :: v in s.prs ==> r.prs[v].matched == s.prs[v].matched && r.prs[v].window == s.prs[v].window
  }

  lemma CarriesOn(cfg: Config, s: Node, r: Node)
    requires Upkept(cfg, s) && Carries(s, r)
    ensures Upkept(cfg, r)
  {
    assert Matches(r.prs) == Matches(s.prs);
    hide IsQuorumIndex;
  }

  lemma SentCarries(s: Node, r: Node)
    requires SentOn(s, r)
    ensures Carries(s, r)
  {
  }

  lemma CarriesTrans(a: Node, b: Node, c: Node)
    requires Carries(a, b) && Carries(b, c)
    ensures Carries(a, c)
  {
    forall v | v in a.prs ensures c.prs[v].matched == a.prs[v].matched && c.prs[v].window == a.prs[v].window {
      assert b.prs[v].matched == a.prs[v].matched;
    }
  }

  lemma OnePeerCarries(s: Node, v: nat, p: Progress)
    requires v in s.prs && p.matched == s.prs[v].matched && p.window == s.prs[v].window
    ensures Carries(s, s.(prs := s.prs[v := p]))
  {
  }

  // ---------------------------------------------------------------- commit attempts

  lemma AttemptMissesNothing(s: Node, r: Node)
    requires r.prs == s.prs && r.term == s.term && r.log == s.log.(committed := r.log.committed)
    requires CommitsBy(s.log, s.term, Matches(s.prs), r.log.committed)
    ensures NoneMissed(r)
  {
    var x: nat :| IsQuorumIndex(Matches(s.prs), x) &&
                r.log.committed == if x > s.log.committed && s.log.TermAt(x) == s.term then x else s.log.committed;
    forall y: nat | IsQuorumIndex(Matches(r.prs), y) && r.log.TermAt(y) == r.term ensures y <= r.log.committed {
      QuorumIndexUnique(Matches(s.prs), x, y);
    }
  }

  /** After a batch the leader is in charge whether or not it was before. */
  lemma GrownInCharge(s: Node, r: Node, es: seq<Entry>)
    requires Grown(s, r, es) && es != [] && s.prs[s.id].matched <= s.log.Last()
    ensures InCharge(r)
  {
    hide CommitsBy, NoneMissed, IsQuorumIndex;
    var s1 := r.(log := r.log.(committed := s.log.committed));
    AttemptMissesNothing(s1, r);
    GrownEnds(s, r, es);
  }

  lemma GrownEnds(s: Node, r: Node, es: seq<Entry>)
    requires Grown(s, r, es) && es != []
    ensures r.log.LastTerm() == s.term && r.log.Last() == s.log.Last() + |es|
  {
    hide CommitsBy;
    var ents := r.log.ents[|s.log.ents|..];
    assert r.log.ents == s.log.ents + ents;
    assert r.log.ents[|r.log.ents| - 1] == ents[|es| - 1];
  }

  lemma GrownWindows(cfg: Config, s: Node, r: Node, es: seq<Entry>)
    requires Grown(s, r, es) && Windows(cfg, s.prs)
    ensures Windows(cfg, r.prs)
  {
    hide CommitsBy, Written;
  }

  lemma ProposeUpkept(cfg: Config, s: Node, m: Message)
    requires Upkept(cfg, s) && s.role == Leader && CursorsOk(s.log) && s.term >= 1 && Propose(cfg, s, m).Ok?
    ensures Upkept(cfg, Propose(cfg, s, m).value)
  {
    hide AppendEntry, BcastAppend, GateConf, Grown, NoneMissed, SentOn, PayloadSize, InCharge, Windows;
    var (batch, pending) := GateConf(m.entries, s.pendingConf, s.log.applied, s.log.Last() + 1);
    var s1 := s.(pendingConf := pending);
    ProposeSteps(cfg, s, m);
    BatchTaken(cfg, s1, batch);
    PendingUpkept(cfg, s, s1);
    var (s2, kept) := AppendEntry(cfg, s1, batch).value;
    if kept {
      GrownRole(s1, s2, batch);
      OwnEnd(s1);
      GrownInCharge(s1, s2, batch);
      GrownWindows(cfg, s1, s2, batch);
      BcastSentOn(cfg, s2);
      SentCarries(s2, BcastAppend(cfg, s2));
      CarriesOn(cfg, s2, BcastAppend(cfg, s2));
    }
  }

  lemma PendingUpkept(cfg: Config, s: Node, s1: Node)
    requires Upkept(cfg, s) && s1 == s.(pendingConf := s1.pendingConf)
    ensures Upkept(cfg, s1)
  {
    assert Carries(s, s1);
    CarriesOn(cfg, s, s1);
  }

  lemma OwnEnd(s: Node)
    requires InCharge(s)
    ensures s.prs[s.id].matched <= s.log.Last()
  {
  }

  lemma GrownRole(s: Node, r: Node, es: seq<Entry>)
    requires Grown(s, r, es)
    ensures r.role == s.role && r.term == s.term
  {
    hide CommitsBy, Written;
  }

  // ---------------------------------------------------------------- taking office

  lemma ElectedWindows(cfg: Config, s: Node)
    ensures Windows(cfg, Elected(cfg, s).prs) && Elected(cfg, s).prs[s.id].matched == s.log.Last()
  {
  }

  lemma LeaderUpkept(cfg: Config, s: Node)
    requires s.role != Follower && CursorsOk(s.log) && s.term >= 1 && BecomeLeader(cfg, s).Ok?
    ensures Upkept(cfg, BecomeLeader(cfg, s).value) && BecomeLeader(cfg, s).value.role == Leader
  {
    hide AppendEntry, BecomeLeader, Elected, Grown, NoneMissed, InCharge, Windows;
    BecomeLeaderSteps(cfg, s);
    ElectedShape(cfg, s);
    ElectedWindows(cfg, s);
    BatchTaken(cfg, Elected(cfg, s), [EMPTY_ENTRY]);
    var r := BecomeLeader(cfg, s).value;
    GrownRole(Elected(cfg, s), r, [EMPTY_ENTRY]);
    GrownInCharge(Elected(cfg, s), r, [EMPTY_ENTRY]);
    GrownWindows(cfg, Elected(cfg, s), r, [EMPTY_ENTRY]);
  }

  /** A reset gives every peer a window of the configured size. */
  lemma ResetWindows(cfg: Config, s: Node, term: nat)
    ensures Windows(cfg, Reset(cfg, s, term).prs)
  {
  }

  lemma FollowerUpkept(cfg: Config, s: Node, term: nat, lead: nat)
    ensures Upkept(cfg, BecomeFollower(cfg, s, term, lead))
  {
    ResetWindows(cfg, s, term);
  }

  lemma CampaignUpkept(cfg: Config, s: Node)
    requires s.role != Leader && CursorsOk(s.log) && Campaign(cfg, s).Ok?
    ensures Upkept(cfg, Campaign(cfg, s).value)
  {
    hide BecomeLeader, InCharge, Windows, CursorsOk;
    ResetWindows(cfg, s, s.term + 1);
    CandidateLog(cfg, s);
    var s1 := Poll(BecomeCandidate(cfg, s), s.id, true);
    if |GrantedBy(s1.votes)| == NodeQuorum(s1) {
      LeaderUpkept(cfg, s1);
    }
  }

  lemma CandidateLog(cfg: Config, s: Node)
    requires s.role != Leader
    ensures var r := Poll(BecomeCandidate(cfg, s), s.id, true);
            r.log == s.log && r.term == s.term + 1 && r.role == Candidate && r.prs == Reset(cfg, s, s.term + 1).prs
  {
  }

  lemma HupUpkept(cfg: Config, s: Node)
    requires Upkept(cfg, s) && Hup(cfg, s).Ok?
    ensures Upkept(cfg, Hup(cfg, s).value)
  {
    hide Campaign, InCharge, Windows, HasPendingConf;
    if s.role != Leader && CursorsOk(s.log) && !HasPendingConf(s.log) {
      if cfg.preVote {
        PreCampaignCases(cfg, s);
        if PreCampaign(cfg, s) == Campaign(cfg, PreStanding(s)) {
          CampaignUpkept(cfg, PreStanding(s));
        }
      } else {
        CampaignUpkept(cfg, s);
      }
    }
  }

  // ---------------------------------------------------------------- answers at a leader

  lemma ProgressWindow(p: Progress, n: nat, hint: nat)
    ensures MaybeUpdate(p, n).0.window == p.window && MaybeUpdate(p, n).0.matched == Max(p.matched, n)
    ensures RaisedProgress(p, n).window == p.window && RaisedProgress(p, n).matched == p.matched
    ensures MaybeDecreaseTo(p, n, hint).0.window == p.window && MaybeDecreaseTo(p, n, hint).0.matched == p.matched
    ensures BecomeProbe(p).window == p.window && BecomeProbe(p).matched == p.matched
  {
    hide FreeTo;
  }

  lemma RejectionCarries(cfg: Config, s: Node, m: Message)
    requires m.from in s.prs && m.reject
    ensures HandleAppResp(cfg, s, m).Ok? && Carries(s, HandleAppResp(cfg, s, m).value)
  {
    hide SendAppend, Carries, SentOn, MaybeDecreaseTo, BecomeProbe;
    var p := s.prs[m.from].(recentActive := true);
    ProgressWindow(p, m.index, m.rejectHint);
    var (p1, lowered) := MaybeDecreaseTo(p, m.index, m.rejectHint);
    ProgressWindow(p1, m.index, m.rejectHint);
    var p2 := if lowered && p1.state == Replicate then BecomeProbe(p1) else p1;
    var s1 := s.(prs := s.prs[m.from := p2]);
    OnePeerCarries(s, m.from, p2);
    SendSentOn(cfg, s1, m.from);
    SentCarries(s1, SendAppend(cfg, s1, m.from));
    CarriesTrans(s, s1, SendAppend(cfg, s1, m.from));
  }

  lemma RaisedWindows(cfg: Config, s: Node, v: nat, p: Progress)
    requires Windows(cfg, s.prs) && v in s.prs && p.window == s.prs[v].window && v != s.id && s.prs[s.id].matched == s.log.Last()
    ensures Windows(cfg, s.prs[v := p]) && s.prs[v := p][s.id].matched == s.log.Last()
  {
  }

  lemma AcceptanceUpkept(cfg: Config, s: Node, m: Message)
    requires Upkept(cfg, s) && s.role == Leader && CursorsOk(s.log) && s.term >= 1
    requires m.from in s.prs && m.from != s.id && !m.reject && HandleAppResp(cfg, s, m).Ok?
    ensures Upkept(cfg, HandleAppResp(cfg, s, m).value)
  {
    hide AdvanceCommit, SentOn, MaybeUpdate, RaisedProgress, HandleAppResp, Windows, NoneMissed, CommitsBy, Carries;
    var p := s.prs[m.from].(recentActive := true);
    ProgressWindow(p, m.index, 0);
    ProgressWindow(MaybeUpdate(p, m.index).0, m.index, 0);
    if s.prs[m.from].matched < m.index {
      var s0, s1 := AcceptedSends(cfg, s, m);
      RaisedWindows(cfg, s, m.from, s0.prs[m.from]);
      CommitAttempt(s0);
      AttemptMissesNothing(s0, s1);
      SentCarries(s1, HandleAppResp(cfg, s, m).value);
      CarriesOn(cfg, s1, HandleAppResp(cfg, s, m).value);
    } else {
      LateAcceptance(cfg, s, m);
      OnePeerCarries(s, m.from, MaybeUpdate(p, m.index).0);
      CarriesOn(cfg, s, HandleAppResp(cfg, s, m).value);
    }
  }

  lemma HeartbeatRespCarries(cfg: Config, s: Node, m: Message)
    requires m.from in s.prs
    ensures Carries(s, HandleHeartbeatResp(cfg, s, m))
  {
    hide SendAppend, Carries, SentOn, FreeTo;
    var p := s.prs[m.from].(recentActive := true, paused := false);
    var p1 := if p.state == Replicate && WindowFull(p) && p.inflights != []
              then p.(inflights := FreeTo(p.inflights, p.inflights[0])) else p;
    var s1 := s.(prs := s.prs[m.from := p1]);
    OnePeerCarries(s, m.from, p1);
    SendSentOn(cfg, s1, m.from);
    SentCarries(s1, SendAppend(cfg, s1, m.from));
    CarriesTrans(s, s1, SendAppend(cfg, s1, m.from));
  }

  lemma StepPeerUpkept(cfg: Config, s: Node, m: Message)
    requires Upkept(cfg, s) && s.role == Leader && CursorsOk(s.log) && s.term >= 1
    requires m.from in s.prs && (m.kind == MsgAppResp ==> m.from != s.id) && StepPeer(cfg, s, m).Ok?
    ensures Upkept(cfg, StepPeer(cfg, s, m).value)
  {
    hide HandleAppResp, HandleHeartbeatResp, Upkept, Carries, BecomeProbe;
    var p := s.prs[m.from];
    var p1 := if m.kind == MsgSnapStatus && m.reject then p.(pendingSnapshot := 0) else p;
    ProgressWindow(p1, 0, 0);
    OnePeerCarries(s, m.from, BecomeProbe(p1));
    OnePeerCarries(s, m.from, BecomeProbe(p1).(paused := true));
    if m.kind == MsgAppResp && !m.reject {
      AcceptanceUpkept(cfg, s, m);
    } else if m.kind == MsgAppResp {
      RejectionCarries(cfg, s, m);
      CarriesOn(cfg, s, HandleAppResp(cfg, s, m).value);
    } else if m.kind == MsgHeartbeatResp {
      HeartbeatRespCarries(cfg, s, m);
      CarriesOn(cfg, s, HandleHeartbeatResp(cfg, s, m));
    } else if m.kind == MsgUnreachable && p.state == Replicate {
      CarriesOn(cfg, s, s.(prs := s.prs[m.from := BecomeProbe(p)]));
    } else if m.kind == MsgSnapStatus && p.state == Snapshot {
      CarriesOn(cfg, s, s.(prs := s.prs[m.from := BecomeProbe(p1).(paused := true)]));
    }
  }

  lemma StepLeaderUpkept(cfg: Config, s: Node, m: Message)
    requires Upkept(cfg, s) && s.role == Leader && CursorsOk(s.log) && s.term >= 1
    requires (m.kind == MsgAppResp ==> m.from != s.id) && StepLeader(cfg, s, m).Ok?
    ensures Upkept(cfg, StepLeader(cfg, s, m).value)
  {
    hide StepPeer, Propose, BecomeFollower, Upkept;
    FollowerUpkept(cfg, s, s.term, 0);
    BeatCarries(cfg, s);
    if m.kind == MsgProp {
      ProposeUpkept(cfg, s, m);
    } else if m.kind !in {MsgBeat, MsgCheckQuorum} && m.from in s.prs {
      StepPeerUpkept(cfg, s, m);
    }
  }

  lemma BeatCarries(cfg: Config, s: Node)
    requires Upkept(cfg, s)
    ensures Upkept(cfg, BcastHeartbeat(s))
  {
    hide Upkept;
    CarriesOn(cfg, s, BcastHeartbeat(s));
  }

  // ---------------------------------------------------------------- other roles

  /** A node that does not lead has only windows to keep. */
  lemma VoteUpkept(cfg: Config, s: Node, m: Message)
    requires Upkept(cfg, s) && HandleVote(s, m).Ok?
    ensures Upkept(cfg, HandleVote(s, m).value)
  {
    VoteCarries(s, m);
    CarriesOn(cfg, s, HandleVote(s, m).value);
  }

  lemma VoteCarries(s: Node, m: Message)
    requires HandleVote(s, m).Ok?
    ensures Carries(s, HandleVote(s, m).value)
  {
    hide CanVote, IsUpToDate;
  }

  lemma FollowUpkept(cfg: Config, s: Node, m: Message)
    requires Windows(cfg, s.prs) && s.role == Follower && MessageWellFormed(m)
    ensures m.kind == MsgApp ==> Contiguous(m.entries, m.index + 1)
    ensures m.kind == MsgApp && HandleAppend(s, m).Ok? ==> Upkept(cfg, HandleAppend(s, m).value)
    ensures m.kind == MsgHeartbeat && HandleHeartbeat(s, m).Ok? ==> Upkept(cfg, HandleHeartbeat(s, m).value)
  {
    hide MaybeAppend, CommitTo, Windows;
  }

  lemma VoteRespUpkept(cfg: Config, s: Node, m: Message)
    requires Upkept(cfg, s) && IsCandidate(s) && CursorsOk(s.log) && HandleVoteResp(cfg, s, m).Ok?
    requires s.role == Candidate ==> s.term >= 1
    ensures Upkept(cfg, HandleVoteResp(cfg, s, m).value)
  {
    hide BecomeLeader, Campaign, BcastAppend, BecomeFollower, InCharge, HandleVoteResp, CursorsOk, SentOn, Windows, Carries;
    var s1 := Poll(s, m.from, !m.reject);
    var r := HandleVoteResp(cfg, s, m).value;
    PolledWindows(s, m);
    VoteRespCases(cfg, s, m);
    if r == BecomeFollower(cfg, s1, s1.term, 0) {
      FollowerUpkept(cfg, s1, s1.term, 0);
    } else if r != s1 && s.role == PreCandidate {
      CampaignUpkept(cfg, s1);
    } else if r != s1 {
      LeaderUpkept(cfg, s1);
      var s2 := BecomeLeader(cfg, s1).value;
      BcastSentOn(cfg, s2);
      SentCarries(s2, BcastAppend(cfg, s2));
      CarriesOn(cfg, s2, BcastAppend(cfg, s2));
    }
  }

  lemma PolledWindows(s: Node, m: Message)
    ensures var r := Poll(s, m.from, !m.reject);
            r == s.(votes := r.votes)
  {
  }

  lemma DispatchUpkept(cfg: Config, s: Node, m: Message)
    requires Upkept(cfg, s) && LocalInv(s) && FromOther(s, m) && MessageWellFormed(m) && Dispatch(cfg, s, m).Ok?
    ensures Upkept(cfg, Dispatch(cfg, s, m).value)
  {
    hide Hup, HandleVote, StepLeader, HandleVoteResp, HandleAppend, HandleHeartbeat, InCharge, Windows, PeersOk, Addressed,
      CursorsOk, BecomeFollower, MessageWellFormed, Timely;
    if m.kind == MsgHup {
      HupUpkept(cfg, s);
    } else if m.kind in {MsgVote, MsgPreVote} {
      VoteUpkept(cfg, s, m);
    } else if s.role == Leader {
      StepLeaderUpkept(cfg, s, m);
    } else if s.role == Follower {
      FollowUpkept(cfg, s.(lead := m.from), m);
    } else {
      FollowerUpkept(cfg, s, m.term, m.from);
      FollowerRole(cfg, s, m.term, m.from);
      FollowUpkept(cfg, BecomeFollower(cfg, s, m.term, m.from), m);
      if m.kind in {MsgVoteResp, MsgPreVoteResp} {
        VoteRespUpkept(cfg, s, m);
      }
    }
  }

  lemma StepUpkept(cfg: Config, s: Node, m: Message, recent: bool)
    requires Upkept(cfg, s) && LocalInv(s) && FromOther(s, m) && MessageWellFormed(m) && Step(cfg, s, m, recent).Ok?
    ensures Upkept(cfg, Step(cfg, s, m, recent).value)
  {
    hide Upkept, LocalInv, FromOther, MessageWellFormed, Dispatch, BecomeFollower, Onward;
    if Dispatch(cfg, s, m).Ok? {
      DispatchUpkept(cfg, s, m);
    }
    if m.term > s.term {
      var lead := if m.kind in {MsgApp, MsgHeartbeat} then m.from else 0;
      var s1 := BecomeFollower(cfg, s, m.term, lead);
      FollowerUpkept(cfg, s, m.term, lead);
      BecomeFollowerLocal(cfg, s, m.term, lead);
      StillFromOther(s, s1, m);
      if Dispatch(cfg, s1, m).Ok? {
        DispatchUpkept(cfg, s1, m);
      }
    }
    StaleUpkept(cfg, s, EMPTY_MESSAGE.(to := m.from, kind := MsgAppResp));
    StaleUpkept(cfg, s, EMPTY_MESSAGE.(to := m.from, kind := MsgPreVoteResp, reject := true, term := s.term));
  }

  lemma StaleUpkept(cfg: Config, s: Node, m: Message)
    requires Upkept(cfg, s)
    ensures Send(s, m).Ok? ==> Upkept(cfg, Send(s, m).value)
  {
    if Send(s, m).Ok? {
      CarriesOn(cfg, s, Send(s, m).value);
    }
  }

  // ---------------------------------------------------------------- runs

  ghost predicate AllUpkept(cfg: Config, c: Cluster) {
    forall v {:trigger c.nodes[v]} :: v in c.nodes ==> Upkept(cfg, c.nodes[v])
  }

  lemma ReactUpkept(cfg: Config, c: Cluster, n: nat, a: Input)
    requires SoundCluster(c) && Enabled(cfg, c, n, a) && React(cfg, c.nodes[n], a).Ok? && Upkept(cfg, c.nodes[n])
    ensures Upkept(cfg, React(cfg, c.nodes[n], a).value)
  {
    hide Upkept, LocalInv, Step, ReadyRound, MessageWellFormed, FromOther;
    var s := c.nodes[n];
    assert Sound(s, n);
    match a
    case Deliver(m, recent) =>
      assert Posted(c, m);
      DeliveredFromOther(c, s, m);
      StepUpkept(cfg, s, m, recent);
    case Local(m) =>
      LocalIsFromOther(cfg, s, m);
      StepUpkept(cfg, s, m, false);
    case TakeReady =>
      ReadyShape(cfg, s);
      CarriesOn(cfg, s, ReadyRound(cfg, s));
  }

  lemma DrainedUpkept(cfg: Config, s: Node)
    requires Upkept(cfg, s)
    ensures Upkept(cfg, s.(msgs := {}))
  {
    CarriesOn(cfg, s, s.(msgs := {}));
  }

  lemma NextUpkept(cfg: Config, c: Cluster, c': Cluster)
    requires SoundCluster(c) && AllUpkept(cfg, c) && Next(cfg, c, c')
    ensures AllUpkept(cfg, c')
  {
    hide Upkept, SoundCluster, React;
    var n, a :| StepOf(cfg, c, c', n, a);
    ReactUpkept(cfg, c, n, a);
    DrainedUpkept(cfg, React(cfg, c.nodes[n], a).value);
  }

  lemma {:induction false} RunUpkept(cfg: Config, voters: set<nat>, boot: seq<Entry>, run: seq<Cluster>, i: nat)
    requires Run(cfg, voters, boot, run) && i < |run|
    ensures AllUpkept(cfg, run[i])
  {
    hide Next, SoundCluster;
    if i > 0 {
      RunUpkept(cfg, voters, boot, run, i - 1);
      RunSound(cfg, voters, boot, run, i - 1);
      assert Next(cfg, run[i - 1], run[i - 1 + 1]);
      NextUpkept(cfg, run[i - 1], run[i]);
    }
  }

  /** In every run and configuration a leader has committed what a majority has reached in its term: its cursor is
      never behind the greatest such index, the last entry of its log is its own, and it counts itself as holding
      all of it. */
  lemma NoCommitMissed(cfg: Config, voters: set<nat>, boot: seq<Entry>, run: seq<Cluster>, i: nat, a: nat)
    requires Run(cfg, voters, boot, run) && At(run, i, a) && run[i].nodes[a].role == Leader
    ensures var s := run[i].nodes[a];
            && (forall x: nat :: IsQuorumIndex(Matches(s.prs), x) && s.log.TermAt(x) == s.term ==> x <= s.log.committed)
            && s.log.LastTerm() == s.term && s.prs[s.id].matched == s.log.Last()
  {
    RunUpkept(cfg, voters, boot, run, i);
    hide Run;
  }
}
