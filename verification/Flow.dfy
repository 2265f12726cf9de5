/** Flow control over every step and every run, whatever the configuration (pre-vote included): the
    in-flight window of each peer stays ordered, bounded and strictly between `matched` and `next`,
    and a leader's `matched` never falls while it leads its term. */
module Flow {
  import opened Proto
  import opened LogSpec
  import opened ProgressSpec
  import opened RaftSpec
  import opened History
  import opened Steps

  // ---------------------------------------------------------------- one progress

  lemma FreeKeepsFlow(p: Progress, q: Progress, to: nat)
    requires FlowOk(p) && p.state == Replicate && p.matched <= q.matched < q.next && p.next <= q.next
    requires q.matched <= to || q.matched == p.matched
    requires q.state == Replicate && q.window == p.window && q.inflights == FreeTo(p.inflights, to)
    ensures FlowOk(q)
  {
    FreeToKeepsLarger(p.inflights, to);
    hide FreeTo;
    var n := |p.inflights| - |q.inflights|;
    forall i | 0 <= i < |q.inflights| ensures q.inflights[i] == p.inflights[n + i] {
    }
  }

  /** What HandleAppResp does to the sender's progress on acceptance. */
  lemma AcceptKeepsFlow(p: Progress, n: nat)
    requires FlowOk(p)
    ensures var (p1, raised) := MaybeUpdate(p, n);
            && p.matched <= p1.matched && p1.state == p.state
            && (!raised ==> FlowOk(p1))
            && (p.state != Replicate ==> FlowOk(p1))
            && (p.state == Replicate ==> FlowOk(p1.(inflights := FreeTo(p1.inflights, n))))
  {
    var (p1, raised) := MaybeUpdate(p, n);
    if p.state == Replicate {
      FreeKeepsFlow(p, p1.(inflights := FreeTo(p1.inflights, n)), n);
    }
  }

  lemma RejectKeepsFlow(p: Progress, rejected: nat, hint: nat)
    requires FlowOk(p)
    ensures var (p1, lowered) := MaybeDecreaseTo(p, rejected, hint);
            && p1.matched == p.matched && p1.state == p.state
            && (!lowered ==> FlowOk(p1))
            && (p.state != Replicate ==> FlowOk(p1))
            && FlowOk(BecomeProbe(p1))
  {
  }

  /** The last index of a batch that starts at `next` may join a window that is not full. */
  lemma SendKeepsFlow(p: Progress, last: nat)
    requires FlowOk(p) && p.state == Replicate && !WindowFull(p) && p.next <= last
    ensures FlowOk(OptimisticSend(p, last))
  {
    var q := OptimisticSend(p, last);
    forall i, j | 0 <= i < j < |q.inflights| ensures q.inflights[i] < q.inflights[j] {
      assert q.inflights[i] == p.inflights[i];
      assert j < |p.inflights| ==> q.inflights[j] == p.inflights[j];
    }
  }

  lemma BatchStartsAtNext(l: Log, next: Position, max: nat)
    requires l.base == 0
    ensures var es := EntriesFrom(l, next, max); es != [] ==> es[|es| - 1].index >= next
  {
    hide LimitSize;
    var es := EntriesFrom(l, next, max);
    if es != [] {
      var rest := l.ents[next - 1..];
      assert l.ents[next - 1..l.Last()] == rest;
      assert es[|es| - 1] == rest[|es| - 1];
    }
  }

  /** One append keeps flow control. */
  lemma AppendToKeepsFlow(cfg: Config, s: Node, to: nat, p: Progress, sendIfEmpty: bool)
    requires FlowOk(p)
    ensures FlowOk(AppendTo(cfg, s, to, p, sendIfEmpty).0)
    ensures AppendTo(cfg, s, to, p, sendIfEmpty).0.matched == p.matched
  {
    hide FlowOk, EntriesFrom;
    var es := EntriesFrom(s.log, p.next, cfg.maxMsgSize);
    BatchStartsAtNext(s.log, p.next, cfg.maxMsgSize);
    PausedFlow(p);
    if es != [] && p.state == Replicate && !WindowFull(p) {
      SendKeepsFlow(p, es[|es| - 1].index);
    }
  }

  lemma PausedFlow(p: Progress)
    requires FlowOk(p)
    ensures FlowOk(p.(paused := true))
  {
  }

  // ---------------------------------------------------------------- one node

  ghost predicate PeersOk(prs: map<nat, Progress>) {
    forall v {:trigger prs[v]} :: v in prs ==> FlowOk(prs[v])
  }

  /** Same peers, none of whose `matched` fell. */
  ghost predicate Raised(prs: map<nat, Progress>, prs': map<nat, Progress>) {
    prs.Keys == prs'.Keys && forall v {:trigger prs'[v]} :: v in prs ==> prs[v].matched <= prs'[v].matched
  }

  /** A leader's messages carry a term, and no entry of a later one. */
  predicate Timely(m: Message) {
    && (m.kind in {MsgApp, MsgHeartbeat} ==> m.term >= 1)
    && (m.kind == MsgApp ==> TermsAtMost(m.entries, m.term))
  }

  /** Replication messages and their answers go from one node to another. */
  predicate BetweenNodes(m: Message) {
    (m.kind in {MsgApp, MsgAppResp, MsgHeartbeat, MsgHeartbeatResp} ==> m.from != m.to) && Timely(m)
  }

  /** An acknowledgement that raises a `matched` somewhere. */
  predicate IsAck(m: Message) {
    m.kind == MsgAppResp && !m.reject && m.index > 0
  }

  /** What a node in this term and role may have sent so far: only the pre-election speaks of a later term,
      and a leader or candidate has acknowledged nothing in its term. */
  predicate SentBy(id: nat, term: nat, role: Role, m: Message) {
    && BetweenNodes(m) && m.from == id
    && (m.term <= term || m.kind == MsgPreVote || (m.kind == MsgPreVoteResp && !m.reject))
    && (IsAck(m) ==> 1 <= m.term && (m.term < term || role in {Follower, PreCandidate}))
  }

  ghost predicate Addressed(s: Node) {
    forall m {:trigger SentBy(s.id, s.term, s.role, m)} :: m in s.msgs ==> SentBy(s.id, s.term, s.role, m)
  }

  /** Entering a later term, or giving up a leadership or candidacy, disowns nothing sent before. */
  lemma StillAddressed(s: Node, s': Node)
    requires Addressed(s) && s'.id == s.id && s'.msgs == s.msgs && s.term <= s'.term
    requires s.term < s'.term || s'.role in {Follower, PreCandidate} || s.role !in {Follower, PreCandidate}
    ensures Addressed(s')
  {
    hide BetweenNodes;
    forall m | m in s'.msgs ensures SentBy(s'.id, s'.term, s'.role, m) {
      assert SentBy(s.id, s.term, s.role, m);
    }
  }

  /** No entry is of a later term than the node, nor of the term a candidate still stands for. */
  ghost predicate TermsInv(s: Node) {
    && TermsAtMost(s.log.ents, s.term)
    && (s.role in {Leader, Candidate} ==> s.term >= 1)
    && (s.role == Candidate ==> s.term >= 1 && TermsAtMost(s.log.ents, s.term - 1))
  }

  /** A leader sends itself nothing, so its own window is empty. */
  ghost predicate FlowInv(s: Node) {
    && PeersOk(s.prs)
    && (s.role == Leader ==> s.prs[s.id].inflights == [])
    && TermsInv(s)
    && Addressed(s)
  }

  /** What the log-independent handlers of a leader leave alone, and what they may raise. */
  ghost predicate Steady(s: Node, s': Node) {
    && FlowInv(s') && Raised(s.prs, s'.prs) && Same(s, s')
    && s'.role == s.role && s'.term == s.term && s'.uncommitted == s.uncommitted && s'.pendingConf == s.pendingConf
    && s'.log.ents == s.log.ents && s'.log.applied == s.log.applied
    && s.log.committed <= s'.log.committed <= Max(s.log.committed, s.log.Last())
  }

  lemma SteadyRefl(s: Node)
    requires FlowInv(s)
    ensures Steady(s, s)
  {
  }

  lemma SteadyTrans(a: Node, b: Node, c: Node)
    requires Steady(a, b) && Steady(b, c)
    ensures Steady(a, c)
  {
    hide FlowInv;
    forall v | v in a.prs ensures a.prs[v].matched <= c.prs[v].matched {
      assert b.prs[v].matched <= c.prs[v].matched;
    }
  }

  lemma OnePeer(s: Node, v: nat, p: Progress)
    requires FlowInv(s) && v in s.prs
    requires FlowOk(p) && s.prs[v].matched <= p.matched && (v == s.id ==> p.inflights == [])
    ensures WellFormed(s.(prs := s.prs[v := p])) && Steady(s, s.(prs := s.prs[v := p]))
  {
    hide FlowOk, Addressed, TermsAtMost;
    StillAddressed(s, s.(prs := s.prs[v := p]));
  }

  lemma SendingIsSteady(s: Node, s': Node, msgs: set<Message>)
    requires Steady(s, s') && Addressed(s'.(msgs := msgs))
    ensures Steady(s, s'.(msgs := msgs))
  {
  }

  /** An append goes to the peer with entries of the leader's log. */
  lemma AppendToAddressed(cfg: Config, s: Node, to: nat, p: Progress, sendIfEmpty: bool)
    requires TermsInv(s) && s.role == Leader && to != s.id
    ensures var m := AppendTo(cfg, s, to, p, sendIfEmpty).1; m.Some? ==> SentBy(s.id, s.term, s.role, m.value)
  {
    hide LimitSize;
    var es := EntriesFrom(s.log, p.next, cfg.maxMsgSize);
    if p.next <= s.log.Last() {
      var rest := s.log.ents[p.next - 1..s.log.Last()];
      assert es <= rest;
      forall k | 0 <= k < |es| ensures es[k].term <= s.term {
        assert es[k] == rest[k] == s.log.ents[p.next - 1 + k];
      }
    }
  }

  lemma MaybeSendSteady(cfg: Config, s: Node, to: nat, sendIfEmpty: bool)
    requires FlowInv(s) && s.role == Leader && to in s.prs && to != s.id
    ensures Steady(s, MaybeSendAppend(cfg, s, to, sendIfEmpty).0)
  {
    AppendToKeepsFlow(cfg, s, to, s.prs[to], sendIfEmpty);
    hide AppendTo, FlowOk, Steady;
    var (p, m) := AppendTo(cfg, s, to, s.prs[to], sendIfEmpty);
    AppendToAddressed(cfg, s, to, s.prs[to], sendIfEmpty);
    OnePeer(s, to, p);
    SendingIsSteady(s, s.(prs := s.prs[to := p]), MaybeSendAppend(cfg, s, to, sendIfEmpty).0.msgs);
  }

  lemma {:induction false} SendAllSteady(cfg: Config, s: Node, to: nat)
    requires FlowInv(s) && s.role == Leader && to in s.prs && to != s.id
    ensures Steady(s, SendAll(cfg, s, to))
    decreases SendBudget(s, to)
  {
    MaybeSendSteady(cfg, s, to, false);
    SendShrinksBudget(cfg, s, to);
    var (s1, sent) := MaybeSendAppend(cfg, s, to, false);
    if sent {
      assert FlowInv(s1) && s1.id == s.id && s1.role == Leader;
      hide MaybeSendAppend, SendBudget, FlowInv, Steady;
      SendAllSteady(cfg, s1, to);
      SteadyTrans(s, s1, SendAll(cfg, s1, to));
    }
  }

  lemma BcastSteady(cfg: Config, s: Node)
    requires FlowInv(s) && s.role == Leader
    ensures Steady(s, BcastAppend(cfg, s))
  {
    hide AppendTo, FlowOk, Addressed;
    var s' := BcastAppend(cfg, s);
    forall v | v in s.prs ensures FlowOk(s'.prs[v]) && s.prs[v].matched == s'.prs[v].matched {
      AppendToKeepsFlow(cfg, s, v, s.prs[v], true);
    }
    BcastAddressed(cfg, s);
  }

  lemma BcastAddressed(cfg: Config, s: Node)
    requires FlowInv(s) && s.role == Leader
    ensures Addressed(BcastAppend(cfg, s))
  {
    hide FlowOk, AppendTo, TermsInv, SentBy;
    forall m | m in BcastAppend(cfg, s).msgs ensures SentBy(s.id, s.term, s.role, m) {
      if m !in s.msgs {
        var v :| v in s.prs && v != s.id && AppendTo(cfg, s, v, s.prs[v], true).1 == Some(m);
        AppendToAddressed(cfg, s, v, s.prs[v], true);
      }
    }
  }

  lemma AdvanceSteady(s: Node)
    requires FlowInv(s) && AdvanceCommit(s).Ok?
    ensures Steady(s, AdvanceCommit(s).value.0)
  {
  }

  // ---------------------------------------------------------------- a leader's answers to its peers

  lemma SendAppendSteady(cfg: Config, s: Node, s1: Node, to: nat)
    requires Steady(s, s1) && s.role == Leader && to in s.prs && to != s.id
    ensures Steady(s, SendAppend(cfg, s1, to))
  {
    MaybeSendSteady(cfg, s1, to, true);
    SteadyTrans(s, s1, SendAppend(cfg, s1, to));
  }

  lemma RejectedSteady(cfg: Config, s: Node, m: Message)
    requires FlowInv(s) && s.role == Leader && m.from in s.prs && m.from != s.id && m.reject
    ensures HandleAppResp(cfg, s, m).Ok? && Steady(s, HandleAppResp(cfg, s, m).value)
  {
    var p := s.prs[m.from].(recentActive := true);
    PeerFlow(s, m.from);
    RejectKeepsFlow(p, m.index, m.rejectHint);
    var (p1, lowered) := MaybeDecreaseTo(p, m.index, m.rejectHint);
    hide FlowOk, FlowInv, Steady, MaybeDecreaseTo, SendAppend;
    if !lowered {
      OnePeer(s, m.from, p1);
    } else {
      var p2 := if p1.state == Replicate then BecomeProbe(p1) else p1;
      OnePeer(s, m.from, p2);
      SendAppendSteady(cfg, s, s.(prs := s.prs[m.from := p2]), m.from);
    }
  }

  lemma RaisedFlow(p: Progress, n: nat)
    requires FlowOk(p) && p.matched < n
    ensures var q := RaisedProgress(MaybeUpdate(p, n).0, n);
            FlowOk(q) && p.matched <= q.matched
  {
    AcceptKeepsFlow(p, n);
  }

  lemma CommitAndSendSteady(cfg: Config, s: Node, to: nat, wasPaused: bool)
    requires FlowInv(s) && s.role == Leader && to in s.prs && to != s.id
    requires CommitAndSend(cfg, s, to, wasPaused).Ok?
    ensures Steady(s, CommitAndSend(cfg, s, to, wasPaused).value)
  {
    AdvanceSteady(s);
    var (s1, changed) := AdvanceCommit(s).value;
    assert FlowInv(s1) && s1.id == s.id && s1.role == Leader;
    var s2 := if changed then BcastAppend(cfg, s1) else if wasPaused then SendAppend(cfg, s1, to) else s1;
    BcastSteady(cfg, s1);
    MaybeSendSteady(cfg, s1, to, true);
    SteadyRefl(s1);
    assert Steady(s1, s2) && FlowInv(s2) && s2.id == s.id && s2.role == Leader;
    hide FlowInv, Steady;
    SendAllSteady(cfg, s2, to);
    SteadyTrans(s, s1, s2);
    SteadyTrans(s, s2, SendAll(cfg, s2, to));
  }

  /** A late acknowledgement changes nothing but the activity mark. */
  lemma LateAcceptance(cfg: Config, s: Node, m: Message)
    requires m.from in s.prs && !m.reject && m.index <= s.prs[m.from].matched
    ensures var p := s.prs[m.from].(recentActive := true);
            HandleAppResp(cfg, s, m) == Ok(s.(prs := s.prs[m.from := MaybeUpdate(p, m.index).0]))
  {
    hide AdvanceCommit, BcastAppend, SendAppend, SendAll, FreeTo;
  }

  lemma AcceptedSteady(cfg: Config, s: Node, m: Message)
    requires FlowInv(s) && s.role == Leader && m.from in s.prs && m.from != s.id && !m.reject && HandleAppResp(cfg, s, m).Ok?
    ensures Steady(s, HandleAppResp(cfg, s, m).value)
  {
    hide *;
    PeerFlow(s, m.from);
    var p := s.prs[m.from].(recentActive := true);
    if s.prs[m.from].matched < m.index {
      RaisedFlow(p, m.index);
      AcceptedSteps(cfg, s, m);
      var p2 := RaisedProgress(MaybeUpdate(p, m.index).0, m.index);
      var s0 := s.(prs := s.prs[m.from := p2]);
      OnePeer(s, m.from, p2);
      SteadyFlow(s, s0);
      CommitAndSendSteady(cfg, s0, m.from, IsPaused(p));
      SteadyTrans(s, s0, HandleAppResp(cfg, s, m).value);
    } else {
      LateAcceptance(cfg, s, m);
      LateFlow(p, m.index);
      OnePeer(s, m.from, MaybeUpdate(p, m.index).0);
    }
  }

  lemma LateFlow(p: Progress, n: nat)
    requires FlowOk(p) && n <= p.matched
    ensures FlowOk(MaybeUpdate(p, n).0) && MaybeUpdate(p, n).0.matched == p.matched
  {
    AcceptKeepsFlow(p, n);
  }

  lemma PeerFlow(s: Node, v: nat)
    requires FlowInv(s) && v in s.prs
    ensures FlowOk(s.prs[v]) && FlowOk(s.prs[v].(recentActive := true))
    ensures FlowOk(s.prs[v].(recentActive := true, paused := false))
    ensures v == s.id && s.role == Leader ==> s.prs[v].inflights == []
  {
    assert FlowOk(s.prs[v]);
  }

  lemma SteadyFlow(s: Node, s': Node)
    requires Steady(s, s')
    ensures FlowInv(s') && s'.id == s.id && s'.role == s.role
  {
  }

  /** A heartbeat answer frees the first slot of a full window. */
  lemma FirstSlotFlow(p: Progress)
    requires FlowOk(p)
    ensures p.state == Replicate && p.inflights != [] ==> FlowOk(p.(inflights := FreeTo(p.inflights, p.inflights[0])))
  {
    if p.state == Replicate && p.inflights != [] {
      FreeKeepsFlow(p, p.(inflights := FreeTo(p.inflights, p.inflights[0])), p.inflights[0]);
    }
  }

  lemma HeartbeatRespSteady(cfg: Config, s: Node, m: Message)
    requires FlowInv(s) && s.role == Leader && m.from in s.prs && m.from != s.id
    ensures Steady(s, HandleHeartbeatResp(cfg, s, m))
  {
    hide FlowOk, FlowInv, Steady, SendAppend, FreeTo;
    PeerFlow(s, m.from);
    var p := s.prs[m.from].(recentActive := true, paused := false);
    FirstSlotFlow(p);
    var p1 := if p.state == Replicate && WindowFull(p) && p.inflights != []
              then p.(inflights := FreeTo(p.inflights, p.inflights[0])) else p;
    OnePeer(s, m.from, p1);
    var s1 := s.(prs := s.prs[m.from := p1]);
    if p1.matched < s.log.Last() {
      SendAppendSteady(cfg, s, s1, m.from);
    }
  }

  /** The message, if about replication, comes from another node. */
  ghost predicate FromOther(s: Node, m: Message) {
    (m.kind in {MsgApp, MsgAppResp, MsgHeartbeat, MsgHeartbeatResp} ==> m.from != s.id) && Timely(m)
  }

  lemma ProbeFlow(p: Progress)
    ensures FlowOk(BecomeProbe(p)) && FlowOk(BecomeProbe(p).(paused := true))
    ensures BecomeProbe(p).inflights == [] && BecomeProbe(p).matched == p.matched
  {
  }

  lemma StepPeerSteady(cfg: Config, s: Node, m: Message)
    requires FlowInv(s) && s.role == Leader && m.from in s.prs && FromOther(s, m) && StepPeer(cfg, s, m).Ok?
    ensures Steady(s, StepPeer(cfg, s, m).value)
  {
    hide FlowInv, FlowOk, Steady, HandleAppResp, HandleHeartbeatResp, BecomeProbe;
    var p := s.prs[m.from];
    SteadyRefl(s);
    PeerFlow(s, m.from);
    if m.kind == MsgAppResp {
      if m.reject {
        RejectedSteady(cfg, s, m);
      } else {
        AcceptedSteady(cfg, s, m);
      }
    } else if m.kind == MsgHeartbeatResp {
      HeartbeatRespSteady(cfg, s, m);
    } else if m.kind == MsgUnreachable && p.state == Replicate {
      ProbeFlow(p);
      OnePeer(s, m.from, BecomeProbe(p));
    } else if m.kind == MsgSnapStatus && p.state == Snapshot {
      var p1 := if m.reject then p.(pendingSnapshot := 0) else p;
      ProbeFlow(p1);
      OnePeer(s, m.from, BecomeProbe(p1).(paused := true));
    }
  }
}
