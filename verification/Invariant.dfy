/** The inductive invariant: how a node and a message relate to the history, and why other nodes and
    older messages are not disturbed when the history grows. */
module Invariant {
  import opened Proto
  import opened LogSpec
  import opened ProgressSpec
  import opened RaftSpec
  import opened Quorum
  import opened History

  // ---------------------------------------------------------------- nodes

  /** Nothing about this node is recorded for a term it has not reached. */
  ghost predicate TermInv(id: nat, term: nat, h: Hist) {
    && h.start <= term
    && (forall t :: (id, t) in h.votes ==> t <= term)
    && (forall t :: (id, t) in h.acks ==> t <= term)
    && (forall t :: (t, id) in h.cand ==> t <= term)
    && (forall t :: t in h.leader && h.leader[t] == id ==> t <= term)
  }

  ghost predicate NodeLogInv(log: Log, term: nat, h: Hist) {
    && LogOk(h.logs, log.ents)
    && TermsAtMost(log.ents, term)
    && CursorsOk(log)
    && CommitOk(h, log.ents, term, log.committed)
  }

  ghost predicate NodeVoteInv(id: nat, term: nat, vote: nat, h: Hist) {
    if vote == 0 then (id, term) !in h.votes else VotedFor(h, id, term, vote)
  }

  /** A candidate's grants are votes for it, its own at least; it has acknowledged nothing in its term. */
  ghost predicate CandidateInv(id: nat, term: nat, ents: seq<Entry>, granted: set<nat>, h: Hist) {
    && (term, id) in h.cand && h.cand[(term, id)] == ents
    && (id, term) !in h.acks
    && !(term in h.leader && h.leader[term] == id)
    && VotedFor(h, id, term, id)
    && (!h.pair ==> granted <= h.voters && VotesOf(granted, id, term, h))
  }

  ghost predicate VotesOf(granted: set<nat>, id: nat, term: nat, h: Hist) {
    forall v {:trigger VotedFor(h, v, term, id)} :: v in granted ==> VotedFor(h, v, term, id)
  }

  /** Whoever won the node's term still leads it. */
  ghost predicate InOffice(id: nat, term: nat, role: Role, h: Hist) {
    term in h.leader && h.leader[term] == id ==> role == Leader
  }

  /** A peer's `matched` is acknowledged in the leader's term, `next` stays within reach, and without
      compaction no snapshot is ever pending. */
  ghost predicate PeerInv(v: nat, p: Progress, term: nat, last: nat, h: Hist) {
    p.matched <= Ack(h, v, term) && p.next <= last + 1 && p.state != Snapshot
  }

  ghost predicate ProgressInv(prs: map<nat, Progress>, term: nat, last: nat, h: Hist) {
    forall v {:trigger PeerInv(v, prs[v], term, last, h)} :: v in prs ==> PeerInv(v, prs[v], term, last, h)
  }

  ghost predicate LeaderInv(id: nat, term: nat, ents: seq<Entry>, prs: map<nat, Progress>, h: Hist) {
    && term in h.leader && term in h.logs && h.leader[term] == id
    && ents == h.logs[term]
    && ProgressInv(prs, term, |ents|, h)
  }

  /** What the node acknowledged is still in its log unless a later leader lacked it. */
  ghost predicate NodeAckInv(id: nat, term: nat, ents: seq<Entry>, h: Hist) {
    forall t :: (id, t) in h.acks ==> KeptUpTo(h.logs, t, h.acks[(id, t)], ents, term + 1)
  }

  ghost predicate NodeInv(s: Node, h: Hist) {
    && s.id in h.voters && s.prs.Keys == h.voters
    && (if h.pair then InOffice(s.id, s.term, s.role, h) else s.role != PreCandidate)
    && TermInv(s.id, s.term, h)
    && NodeLogInv(s.log, s.term, h)
    && NodeVoteInv(s.id, s.term, s.vote, h)
    && (s.role == Candidate ==> s.vote == s.id && CandidateInv(s.id, s.term, s.log.ents, GrantedBy(s.votes), h))
    && (s.role == Leader ==> s.vote == s.id && LeaderInv(s.id, s.term, s.log.ents, s.prs, h))
    && NodeAckInv(s.id, s.term, s.log.ents, h)
  }

  // ---------------------------------------------------------------- messages

  /** An append carries a stretch of its term's leader log. */
  ghost predicate AppendMsgInv(m: Message, h: Hist) {
    && m.term in h.leader && m.term in h.logs
    && m.index + |m.entries| <= |h.logs[m.term]|
    && m.logTerm == TermOf(h.logs[m.term], m.index)
    && m.entries == h.logs[m.term][m.index..m.index + |m.entries|]
    && CommitOk(h, h.logs[m.term], m.term, m.commit)
  }

  /** A heartbeat only carries a commit index its receiver has acknowledged. */
  ghost predicate HeartbeatMsgInv(m: Message, h: Hist) {
    && m.term in h.leader && m.term in h.logs
    && m.commit <= Ack(h, m.to, m.term)
    && CommitOk(h, h.logs[m.term], m.term, m.commit)
  }

  ghost predicate VoteMsgInv(m: Message, h: Hist) {
    && (m.term, m.from) in h.cand
    && m.index == |h.cand[(m.term, m.from)]|
    && m.logTerm == LastTermOf(h.cand[(m.term, m.from)])
  }

  ghost predicate MsgInv(m: Message, h: Hist) {
    && m.from in h.voters
    && (m.kind in {MsgProp, MsgApp, MsgAppResp, MsgVote, MsgVoteResp, MsgHeartbeat, MsgHeartbeatResp}
        || (h.pair && m.kind in {MsgPreVote, MsgPreVoteResp}))
    && (if m.kind == MsgProp then m.term == 0 && m.entries != [] else m.kind == MsgPreVoteResp || m.term > h.start)
    && (m.kind == MsgApp ==> AppendMsgInv(m, h))
    && (m.kind == MsgHeartbeat ==> HeartbeatMsgInv(m, h))
    && (m.kind == MsgVote ==> VoteMsgInv(m, h))
    && (m.kind == MsgAppResp && !m.reject ==> m.index <= Ack(h, m.from, m.term))
    && (m.kind == MsgVoteResp && !m.reject ==>
          VotedFor(h, m.from, m.term, m.to))
  }

  ghost predicate MsgsInv(msgs: set<Message>, h: Hist) {
    forall m :: m in msgs ==> MsgInv(m, h)
  }

  /** A node in the middle of a step, with the history matching it. */
  ghost predicate Good(s: Node, h: Hist) {
    HistInv(h) && NodeInv(s, h) && MsgsInv(s.msgs, h)
  }

  // ---------------------------------------------------------------- growth

  /** Leader logs only get longer, by entries of their own term; new terms may appear. */
  ghost predicate LogsGrow(a: map<nat, seq<Entry>>, b: map<nat, seq<Entry>>) {
    forall t :: t in a ==> t in b && Extension(b[t], a[t], t)
  }

  /** `h'` extends `h` by something node `who` did. */
  ghost predicate Grows(h: Hist, h': Hist, who: nat) {
    && h'.voters == h.voters && h'.start == h.start && h'.pair == h.pair
    && LogsGrow(h.logs, h'.logs)
    && (forall t :: t in h.leader ==> t in h'.leader && h'.leader[t] == h.leader[t])
    && (forall t :: t in h'.leader && t !in h.leader ==> h'.leader[t] == who)
    && (forall t :: t in h.logs && t in h.leader && h.leader[t] != who ==> h'.logs[t] == h.logs[t])
    && (forall k :: k in h.cand ==> k in h'.cand && h'.cand[k] == h.cand[k])
    && (forall k :: k in h'.cand && k !in h.cand ==> k.1 == who)
    && (forall k :: k in h.votes ==> k in h'.votes && h'.votes[k] == h.votes[k])
    && (forall k :: k in h'.votes && k !in h.votes ==> k.0 == who)
    && (forall k :: k in h.acks ==> k in h'.acks && h'.acks[k] >= h.acks[k])
    && (forall k :: k in h'.acks && k.0 != who ==> k in h.acks && h'.acks[k] == h.acks[k])
  }

  /** The only term that may have been won on the way is the one the node now leads. */
  ghost predicate Crowned(h: Hist, h': Hist, s: Node) {
    forall t :: t in h'.leader && t !in h.leader ==> s.role == Leader && t == s.term
  }

  lemma ExtensionTrans(c: seq<Entry>, b: seq<Entry>, a: seq<Entry>, t: nat)
    requires Extension(b, a, t) && Extension(c, b, t)
    ensures Extension(c, a, t)
  {
    forall k | |a| <= k < |c| ensures c[k].term == t {
      if k < |b| {
        assert c[k] == b[k];
      }
    }
  }

  lemma GrowsTrans(h0: Hist, h1: Hist, h2: Hist, who: nat)
    requires Grows(h0, h1, who) && Grows(h1, h2, who)
    ensures Grows(h0, h2, who)
  {
    forall t | t in h0.logs ensures t in h2.logs && Extension(h2.logs[t], h0.logs[t], t) {
      ExtensionTrans(h2.logs[t], h1.logs[t], h0.logs[t], t);
    }
  }

  lemma AgreeGrows(a: seq<Entry>, log: seq<Entry>, log': seq<Entry>, i: nat)
    requires Agree(a, log, i) && log <= log'
    ensures Agree(a, log', i)
  {
    assert log'[..i] == log[..i];
  }

  lemma LogOkGrows(a: map<nat, seq<Entry>>, b: map<nat, seq<Entry>>, log: seq<Entry>)
    requires LogsGrow(a, b) && LogOk(a, log)
    ensures LogOk(b, log)
  {
    forall k | 0 <= k < |log| ensures EntryOk(b, log, k) {
      assert EntryOk(a, log, k);
      AgreeGrows(log, a[log[k].term], b[log[k].term], k + 1);
    }
  }

  /** A divergence stays one: what a later leader appends is of its own term. */
  lemma DivergesGrows(a: map<nat, seq<Entry>>, b: map<nat, seq<Entry>>, u: nat, t: nat, i: nat)
    requires LogsGrow(a, b) && t in a && TermsAtMost(a[t], t)
    requires t < u && i <= |a[t]| && Diverges(a, u, t, i)
    ensures Diverges(b, u, t, i)
  {
    var k := |a[u]|;
    if i <= k {
      assert b[u][..i] == a[u][..i];
      assert b[t][..i] == a[t][..i];
    } else {
      assert b[t][k] == a[t][k];
      DifferAt(b[u], b[t], i, k);
    }
  }

  lemma KeptGrows(a: map<nat, seq<Entry>>, b: map<nat, seq<Entry>>, t: nat, i: nat, log: seq<Entry>, bound: nat)
    requires LogsGrow(a, b) && t in a && TermsAtMost(a[t], t) && i <= |a[t]|
    requires Kept(a, t, i, log, bound)
    ensures Kept(b, t, i, log, bound)
  {
    if Agree(log, a[t], i) {
      AgreeGrows(log, a[t], b[t], i);
    } else {
      var u :| t < u < bound && Diverges(a, u, t, i);
      DivergesGrows(a, b, u, t, i);
    }
  }

  lemma KeptUpToGrows(a: map<nat, seq<Entry>>, b: map<nat, seq<Entry>>, t: nat, n: nat, log: seq<Entry>, bound: nat)
    requires LogsGrow(a, b) && t in a && TermsAtMost(a[t], t) && n <= |a[t]|
    requires KeptUpTo(a, t, n, log, bound)
    ensures KeptUpTo(b, t, n, log, bound)
  {
    forall i | 0 <= i <= n ensures Kept(b, t, i, log, bound) {
      KeptGrows(a, b, t, i, log, bound);
    }
  }

  lemma CommitPointGrows(h: Hist, h': Hist, who: nat, t: nat, i: nat)
    requires Grows(h, h', who) && CommitPoint(h, t, i)
    ensures CommitPoint(h', t, i)
  {
    assert h'.logs[t][i - 1] == h.logs[t][i - 1];
    assert AckedBy(h, t, i) <= AckedBy(h', t, i);
    SubsetCardinality(AckedBy(h, t, i), AckedBy(h', t, i));
  }

  lemma CommitOkGrows(h: Hist, h': Hist, who: nat, log: seq<Entry>, t: nat, c: nat)
    requires Grows(h, h', who) && CommitOk(h, log, t, c)
    ensures CommitOk(h', log, t, c)
  {
    if c != 0 {
      var u, i := CommitWitness(h, log, t, c);
      CommitPointGrows(h, h', who, u, i);
      AgreeGrows(log, h.logs[u], h'.logs[u], c);
    }
  }

  lemma CommitOkLonger(h: Hist, log: seq<Entry>, log': seq<Entry>, t: nat, t': nat, c: nat)
    requires CommitOk(h, log, t, c) && t <= t' && Agree(log', log, c)
    ensures CommitOk(h, log', t', c)
  {
    if c != 0 {
      var u, i := CommitWitness(h, log, t, c);
      AgreeTrans(log', log, h.logs[u], c, c);
    }
  }

  lemma AckGrows(h: Hist, h': Hist, who: nat, v: nat, t: nat)
    requires Grows(h, h', who)
    ensures Ack(h, v, t) <= Ack(h', v, t)
  {
    assert (v, t) in h.acks ==> (v, t) in h'.acks;
  }

  lemma AppendMsgGrows(h: Hist, h': Hist, who: nat, m: Message)
    requires Grows(h, h', who) && AppendMsgInv(m, h)
    ensures AppendMsgInv(m, h')
  {
    var a, b := h.logs[m.term], h'.logs[m.term];
    assert b[..|a|] == a;
    assert b[m.index..m.index + |m.entries|] == a[m.index..m.index + |m.entries|];
    CommitOkGrows(h, h', who, a, m.term, m.commit);
    if m.commit != 0 {
      var u, i := CommitWitness(h', a, m.term, m.commit);
      AgreeGrows(a, a, b, m.commit);
    }
    CommitOkLonger(h', a, b, m.term, m.term, m.commit);
  }

  lemma HeartbeatMsgGrows(h: Hist, h': Hist, who: nat, m: Message)
    requires Grows(h, h', who) && HeartbeatMsgInv(m, h)
    ensures HeartbeatMsgInv(m, h')
  {
    var a, b := h.logs[m.term], h'.logs[m.term];
    assert b[..|a|] == a;
    CommitOkGrows(h, h', who, a, m.term, m.commit);
    if m.commit != 0 {
      var u, i := CommitWitness(h', a, m.term, m.commit);
      AgreeGrows(a, a, b, m.commit);
    }
    CommitOkLonger(h', a, b, m.term, m.term, m.commit);
    AckGrows(h, h', who, m.to, m.term);
  }

  lemma MsgInvGrows(h: Hist, h': Hist, who: nat, m: Message)
    requires Grows(h, h', who) && MsgInv(m, h)
    ensures MsgInv(m, h')
  {
    if m.kind == MsgApp {
      AppendMsgGrows(h, h', who, m);
    } else if m.kind == MsgHeartbeat {
      HeartbeatMsgGrows(h, h', who, m);
    }
    AckGrows(h, h', who, m.from, m.term);
  }

  lemma MsgsInvGrows(h: Hist, h': Hist, who: nat, msgs: set<Message>)
    requires Grows(h, h', who) && MsgsInv(msgs, h)
    ensures MsgsInv(msgs, h')
  {
    forall m | m in msgs ensures MsgInv(m, h') {
      MsgInvGrows(h, h', who, m);
    }
  }

  lemma NodeLogInvGrows(h: Hist, h': Hist, who: nat, log: Log, term: nat)
    requires Grows(h, h', who) && NodeLogInv(log, term, h)
    ensures NodeLogInv(log, term, h')
  {
    LogOkGrows(h.logs, h'.logs, log.ents);
    CommitOkGrows(h, h', who, log.ents, term, log.committed);
  }

  lemma NodeAckInvGrows(h: Hist, h': Hist, who: nat, id: nat, term: nat, ents: seq<Entry>)
    requires Grows(h, h', who) && id != who
    requires LogsInv(h) && AckInv(h) && NodeAckInv(id, term, ents, h)
    ensures NodeAckInv(id, term, ents, h')
  {
    forall t | (id, t) in h'.acks ensures KeptUpTo(h'.logs, t, h'.acks[(id, t)], ents, term + 1) {
      assert (id, t).0 != who;
      assert AckOk(h, id, t) && LeaderLogOk(h, t);
      KeptUpToGrows(h.logs, h'.logs, t, h.acks[(id, t)], ents, term + 1);
    }
  }

  lemma LeaderInvGrows(h: Hist, h': Hist, who: nat, id: nat, term: nat, ents: seq<Entry>, prs: map<nat, Progress>)
    requires Grows(h, h', who) && id != who && LeaderInv(id, term, ents, prs, h)
    ensures LeaderInv(id, term, ents, prs, h')
  {
    forall v | v in prs ensures PeerInv(v, prs[v], term, |ents|, h') {
      assert PeerInv(v, prs[v], term, |ents|, h);
      AckGrows(h, h', who, v, term);
    }
  }

  lemma TermInvGrows(h: Hist, h': Hist, who: nat, id: nat, term: nat)
    requires Grows(h, h', who) && id != who && TermInv(id, term, h)
    ensures TermInv(id, term, h')
  {
    forall t | (id, t) in h'.votes ensures t <= term {
      assert (id, t).0 != who;
      assert (id, t) in h.votes;
    }
    forall t | (id, t) in h'.acks ensures t <= term {
      assert (id, t).0 != who;
      assert (id, t) in h.acks;
    }
    forall t | (t, id) in h'.cand ensures t <= term {
      assert (t, id).1 != who;
      assert (t, id) in h.cand;
    }
  }

  lemma CandidateInvGrows(h: Hist, h': Hist, who: nat, id: nat, term: nat, ents: seq<Entry>, granted: set<nat>)
    requires Grows(h, h', who) && id != who && CandidateInv(id, term, ents, granted, h)
    ensures CandidateInv(id, term, ents, granted, h')
  {
    assert (id, term).0 != who;
    if !h.pair {
      forall v | v in granted ensures VotedFor(h', v, term, id) {
        assert VotedFor(h, v, term, id);
      }
    }
  }

  lemma NodeVoteInvGrows(h: Hist, h': Hist, who: nat, id: nat, term: nat, vote: nat)
    requires Grows(h, h', who) && id != who && NodeVoteInv(id, term, vote, h)
    ensures NodeVoteInv(id, term, vote, h')
  {
    assert (id, term).0 != who;
  }

  /** What another node does never disturbs this one. */
  lemma NodeInvGrows(h: Hist, h': Hist, who: nat, s: Node)
    requires Grows(h, h', who) && s.id != who
    requires HistInv(h) && NodeInv(s, h)
    ensures NodeInv(s, h')
  {
    TermInvGrows(h, h', who, s.id, s.term);
    NodeLogInvGrows(h, h', who, s.log, s.term);
    NodeVoteInvGrows(h, h', who, s.id, s.term, s.vote);
    NodeAckInvGrows(h, h', who, s.id, s.term, s.log.ents);
    if s.role == Candidate {
      CandidateInvGrows(h, h', who, s.id, s.term, s.log.ents, GrantedBy(s.votes));
    } else if s.role == Leader {
      LeaderInvGrows(h, h', who, s.id, s.term, s.log.ents, s.prs);
    }
  }
}
