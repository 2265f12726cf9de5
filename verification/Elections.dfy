/** Terms, campaigns and votes keep the invariant. */
module Elections {
  import opened Proto
  import opened LogSpec
  import opened ProgressSpec
  import opened RaftSpec
  import opened Quorum
  import opened History
  import opened Invariant

  lemma KeptLaterBound(logs: map<nat, seq<Entry>>, t: nat, n: nat, log: seq<Entry>, b: nat, b': nat)
    requires KeptUpTo(logs, t, n, log, b) && b <= b'
    ensures KeptUpTo(logs, t, n, log, b')
  {
    forall i | 0 <= i <= n ensures Kept(logs, t, i, log, b') {
      assert Kept(logs, t, i, log, b);
    }
  }

  lemma NodeAckInvLater(id: nat, term: nat, term': nat, ents: seq<Entry>, h: Hist)
    requires NodeAckInv(id, term, ents, h) && term <= term'
    ensures NodeAckInv(id, term', ents, h)
  {
    forall t | (id, t) in h.acks ensures KeptUpTo(h.logs, t, h.acks[(id, t)], ents, term' + 1) {
      KeptLaterBound(h.logs, t, h.acks[(id, t)], ents, term + 1, term' + 1);
    }
  }

  lemma NodeLogInvLater(log: Log, term: nat, term': nat, h: Hist)
    requires NodeLogInv(log, term, h) && term <= term'
    ensures NodeLogInv(log, term', h)
  {
    CommitOkLonger(h, log.ents, log.ents, term, term', log.committed);
  }

  lemma GrowsRefl(h: Hist, who: nat)
    ensures Grows(h, h, who)
  {
  }

  /** Entering a term as follower (or staying in it) needs no new history. */
  lemma BecomeFollowerGood(cfg: Config, s: Node, h: Hist, term: nat, lead: nat)
    requires Good(s, h) && term >= s.term && (h.pair && s.role == Leader ==> term > s.term)
    ensures Good(BecomeFollower(cfg, s, term, lead), h)
  {
    NodeLogInvLater(s.log, s.term, term, h);
    NodeAckInvLater(s.id, s.term, term, s.log.ents, h);
  }

  lemma SendGood(s: Node, h: Hist, m: Message)
    requires Good(s, h) && Send(s, m).Ok? && MsgInv(Stamp(s, m), h)
    ensures Good(Send(s, m).value, h)
  {
  }

  // ---------------------------------------------------------------- recording votes

  /** Adding one vote whose voter kept everything it acknowledged leaves the history sound. */
  lemma AddVoteInv(h: Hist, h': Hist, v: nat, t: nat, b: Ballot)
    requires HistInv(h) && CandInv(h')
    requires (v, t) !in h.votes && h'.votes == h.votes[(v, t) := b]
    requires h' == h.(votes := h'.votes, cand := h'.cand)
    requires forall k :: k in h.cand ==> k in h'.cand && h'.cand[k] == h.cand[k]
    requires VoteOk(h', v, t)
    requires forall u :: (v, u) in h.acks && u < t ==> BallotOk(h', v, t, u)
    ensures HistInv(h')
  {
    forall x, y | (x, y) in h'.votes ensures VoteOk(h', x, y) {
      if (x, y) in h.votes {
        assert VoteOk(h, x, y);
      }
    }
    forall y | y in h'.leader ensures ElectionOk(h', y) {
      assert ElectionOk(h, y);
      forall x | x in h'.quorum[y] ensures VotedFor(h', x, y, h'.leader[y]) {
        assert VotedFor(h, x, y, h.leader[y]);
      }
    }
    forall x, y | (x, y) in h'.acks ensures AckOk(h', x, y) {
      assert AckOk(h, x, y);
    }
    forall y | y in h'.logs ensures LeaderLogOk(h', y) {
      assert LeaderLogOk(h, y);
    }
    forall x, y, z | (x, y) in h'.votes && (x, z) in h'.acks && z < y ensures BallotOk(h', x, y, z) {
      if (x, y) in h.votes {
        assert BallotOk(h, x, y, z);
      }
    }
  }

  /** The history after `s` starts a campaign for its next term. */
  function CampaignHist(s: Node, h: Hist): Hist {
    h.(cand := h.cand[(s.term + 1, s.id) := s.log.ents],
       votes := h.votes[(s.id, s.term + 1) := Ballot(s.id, s.log.ents)])
  }

  lemma CampaignHistInv(s: Node, h: Hist)
    requires HistInv(h) && NodeInv(s, h)
    ensures HistInv(CampaignHist(s, h)) && Grows(h, CampaignHist(s, h), s.id)
  {
    var h' := CampaignHist(s, h);
    assert (s.term + 1, s.id) !in h.cand;
    assert (s.id, s.term + 1) !in h.votes;
    forall t, c | (t, c) in h'.cand ensures CandOk(h', t, c) {
      if (t, c) in h.cand {
        assert CandOk(h, t, c);
      }
    }
    AddVoteInv(h, h', s.id, s.term + 1, Ballot(s.id, s.log.ents));
  }

  lemma CandidateShape(cfg: Config, s: Node)
    requires s.role != Leader
    ensures var r := Poll(BecomeCandidate(cfg, s), s.id, true);
            && r.id == s.id && r.prs.Keys == s.prs.Keys && r.term == s.term + 1 && r.role == Candidate && r.vote == s.id
            && r.log == s.log && r.msgs == s.msgs && GrantedBy(r.votes) == {s.id}
  {
  }

  lemma CandidateParts(s: Node, h: Hist)
    requires TermInv(s.id, s.term, h) && s.id in h.voters && 0 !in h.voters
    requires NodeAckInv(s.id, s.term + 1, s.log.ents, h)
    ensures var h' := CampaignHist(s, h);
            && TermInv(s.id, s.term + 1, h') && NodeVoteInv(s.id, s.term + 1, s.id, h')
            && CandidateInv(s.id, s.term + 1, s.log.ents, {s.id}, h') && InOffice(s.id, s.term + 1, Candidate, h')
            && NodeAckInv(s.id, s.term + 1, s.log.ents, h')
  {
    var h' := CampaignHist(s, h);
    assert VotedFor(h', s.id, s.term + 1, s.id);
  }

  /** A candidate has voted for itself in the term it campaigns for. */
  lemma CandidateGood(cfg: Config, s: Node, h: Hist)
    requires Good(s, h) && s.role != Leader
    ensures Good(Poll(BecomeCandidate(cfg, s), s.id, true), CampaignHist(s, h))
    ensures Grows(h, CampaignHist(s, h), s.id)
  {
    hide HistInv, NodeLogInv, NodeAckInv, MsgsInv, Grows, LeaderInv, CandidateInv, TermInv, NodeVoteInv, InOffice, Reset;
    var h' := CampaignHist(s, h);
    var s' := Poll(BecomeCandidate(cfg, s), s.id, true);
    CampaignHistInv(s, h);
    MsgsInvGrows(h, h', s.id, s.msgs);
    NodeLogInvGrows(h, h', s.id, s.log, s.term);
    NodeLogInvLater(s.log, s.term, s.term + 1, h');
    NodeAckInvLater(s.id, s.term, s.term + 1, s.log.ents, h);
    CandidateShape(cfg, s);
    CandidateParts(s, h);
  }

  lemma RequestVotesGood(s: Node, h: Hist)
    requires Good(s, h) && s.role == Candidate
    ensures Good(RequestVotes(s, MsgVote, s.term), h)
  {
    var s' := RequestVotes(s, MsgVote, s.term);
    assert CandOk(h, s.term, s.id);
    forall m | m in s'.msgs ensures MsgInv(m, h) {
      if m !in s.msgs {
        var v :| v in s.prs && v != s.id && m == VoteRequest(s, MsgVote, s.term, v);
        assert VoteMsgInv(m, h);
      }
    }
  }

  // ---------------------------------------------------------------- granting

  function GrantHist(s: Node, h: Hist, cand: nat): Hist {
    if (s.id, s.term) in h.votes then h
    else h.(votes := h.votes[(s.id, s.term) := Ballot(cand, s.log.ents)])
  }

  /** In a term nobody has won, what the node holds was not overwritten by that term's leader. */
  lemma OpenTermKept(h: Hist, s: Node, u: nat)
    requires LogsInv(h) && NodeAckInv(s.id, s.term, s.log.ents, h)
    requires s.term > h.start && s.term !in h.leader
    requires (s.id, u) in h.acks
    ensures KeptUpTo(h.logs, u, h.acks[(s.id, u)], s.log.ents, s.term)
  {
    assert s.term !in h.logs;
    forall i | 0 <= i <= h.acks[(s.id, u)] ensures Kept(h.logs, u, i, s.log.ents, s.term) {
      assert Kept(h.logs, u, i, s.log.ents, s.term + 1);
    }
  }

  lemma GrantHistInv(s: Node, h: Hist, cand: nat)
    requires HistInv(h) && NodeInv(s, h)
    requires s.term > h.start && (s.term, cand) in h.cand
    requires UpToDate(h.cand[(s.term, cand)], s.log.ents)
    ensures HistInv(GrantHist(s, h, cand)) && Grows(h, GrantHist(s, h, cand), s.id)
  {
    var h' := GrantHist(s, h, cand);
    if (s.id, s.term) !in h.votes {
      forall t, c | (t, c) in h'.cand ensures CandOk(h', t, c) {
        assert CandOk(h, t, c);
      }
      forall u | (s.id, u) in h.acks && u < s.term ensures BallotOk(h', s.id, s.term, u) {
        if s.term !in h.leader {
          OpenTermKept(h, s, u);
        } else {
          assert ElectionOk(h, s.term);
          assert !VotedFor(h, s.id, s.term, h.leader[s.term]);
        }
      }
      AddVoteInv(h, h', s.id, s.term, Ballot(cand, s.log.ents));
    }
  }

  /** A node whose vote is recorded in the grown history is still sound. */
  lemma GrantNodeInv(s: Node, h: Hist, cand: nat)
    requires HistInv(h) && NodeInv(s, h)
    requires Grows(h, GrantHist(s, h, cand), s.id)
    requires VotedFor(GrantHist(s, h, cand), s.id, s.term, cand) && cand != 0
    requires s.vote == 0 || s.vote == cand
    ensures NodeInv(s.(vote := cand), GrantHist(s, h, cand))
  {
    var h' := GrantHist(s, h, cand);
    NodeLogInvGrows(h, h', s.id, s.log, s.term);
    if s.role == Candidate {
      assert h' == h;
    } else if s.role == Leader {
      assert h' == h;
    }
    assert NodeAckInv(s.id, s.term, s.log.ents, h');
  }

  /** The node after granting its vote. */
  lemma GrantGood(s: Node, h: Hist, cand: nat, sent: Message)
    requires HistInv(GrantHist(s, h, cand)) && NodeInv(s.(vote := cand), GrantHist(s, h, cand))
    requires MsgsInv(s.msgs, GrantHist(s, h, cand)) && MsgInv(sent, GrantHist(s, h, cand))
    ensures Good(s.(vote := cand, msgs := s.msgs + {sent}), GrantHist(s, h, cand))
  {
    hide HistInv, MsgInv;
    var h' := GrantHist(s, h, cand);
    SameNodeInv(s.(vote := cand), s.(vote := cand, msgs := s.msgs + {sent}), h');
  }

  lemma SameNodeInv(s: Node, s': Node, h: Hist)
    requires NodeInv(s, h) && s' == s.(msgs := s'.msgs)
    ensures NodeInv(s', h)
  {
    hide TermInv, NodeLogInv, NodeVoteInv, CandidateInv, LeaderInv, NodeAckInv;
  }

  /** What a granted request looks like and what it answers. */
  lemma VoteGranted(s: Node, m: Message)
    requires CanVote(s, m) && IsUpToDate(s.log, m.index, m.logTerm) && m.kind == MsgVote && m.term == s.term && s.term != 0
    ensures var sent := EMPTY_MESSAGE.(to := m.from, kind := MsgVoteResp, from := s.id, term := s.term);
            HandleVote(s, m) == Ok(s.(vote := m.from, msgs := s.msgs + {sent}))
  {
  }

  lemma GrantedMsgInv(s: Node, h: Hist, cand: nat)
    requires s.id in h.voters && s.term > h.start && VotedFor(h, s.id, s.term, cand)
    ensures MsgInv(EMPTY_MESSAGE.(to := cand, kind := MsgVoteResp, from := s.id, term := s.term), h)
  {
  }

  /** MsgVote in the node's own term never fails and keeps the invariant. */
  lemma HandleVoteGood(s: Node, h: Hist, m: Message) returns (h': Hist)
    requires Good(s, h) && MsgInv(m, h) && m.kind == MsgVote && m.term == s.term
    ensures HandleVote(s, m).Ok? && Good(HandleVote(s, m).value, h') && Grows(h, h', s.id) && h'.leader == h.leader
  {
    var resp := EMPTY_MESSAGE.(to := m.from, kind := MsgVoteResp);
    if CanVote(s, m) && IsUpToDate(s.log, m.index, m.logTerm) {
      h' := GrantHist(s, h, m.from);
      assert VoteMsgInv(m, h);
      GrantHistInv(s, h, m.from);
      assert VotedFor(h', s.id, s.term, m.from);
      GrantNodeInv(s, h, m.from);
      MsgsInvGrows(h, h', s.id, s.msgs);
      VoteGranted(s, m);
      GrantedMsgInv(s, h', m.from);
      GrantGood(s, h, m.from, EMPTY_MESSAGE.(to := m.from, kind := MsgVoteResp, from := s.id, term := s.term));
    } else {
      h' := h;
      SendGood(s, h, resp.(term := s.term, reject := true));
    }
  }

  // ---------------------------------------------------------------- the pre-election

  lemma TermsPositive(logs: map<nat, seq<Entry>>, log: seq<Entry>)
    requires LogOk(logs, log)
    ensures forall k :: 0 <= k < |log| ==> log[k].term >= 1
  {
    forall k | 0 <= k < |log| ensures log[k].term >= 1 {
      assert EntryOk(logs, log, k);
    }
  }

  /** A node still in term 0 has no entries, so it turns no candidate down. */
  lemma BlankIsBehind(s: Node, h: Hist, index: nat, logTerm: nat)
    requires NodeLogInv(s.log, s.term, h) && s.term == 0
    ensures IsUpToDate(s.log, index, logTerm)
  {
    TermsPositive(h.logs, s.log.ents);
    hide LogOk, CommitOk;
  }

  lemma PreVoteFacts(s: Node, h: Hist, m: Message)
    requires Good(s, h) && MsgInv(m, h) && m.kind == MsgPreVote
    ensures s.id in h.voters && h.pair && m.term != 0
    ensures NodeLogInv(s.log, s.term, h)
  {
  }

  lemma PreAnswerInv(s: Node, h: Hist, to: nat, term: nat, reject: bool)
    requires s.id in h.voters && h.pair
    ensures MsgInv(EMPTY_MESSAGE.(to := to, kind := MsgPreVoteResp, term := term, reject := reject, from := s.id), h)
  {
  }

  /** MsgPreVote of the node's term or a later one is answered and changes nothing. */
  lemma HandlePreVoteGood(s: Node, h: Hist, m: Message)
    requires Good(s, h) && MsgInv(m, h) && m.kind == MsgPreVote
    ensures HandleVote(s, m).Ok? && Good(HandleVote(s, m).value, h)
  {
    hide Good, MsgInv, IsUpToDate, NodeLogInv;
    var resp := EMPTY_MESSAGE.(to := m.from, kind := MsgPreVoteResp);
    PreVoteFacts(s, h, m);
    if CanVote(s, m) && IsUpToDate(s.log, m.index, m.logTerm) {
      PreAnswerInv(s, h, m.from, m.term, false);
      SendGood(s, h, resp.(term := m.term));
    } else {
      if s.term == 0 {
        BlankIsBehind(s, h, m.index, m.logTerm);
      }
      PreAnswerInv(s, h, m.from, s.term, true);
      SendGood(s, h, resp.(term := s.term, reject := true));
    }
  }

  lemma PreCandidateGood(s: Node, h: Hist)
    requires Good(s, h) && s.role != Leader && h.pair
    ensures var r := Poll(BecomePreCandidate(s), s.id, true);
            Good(r, h) && r.role == PreCandidate && r.term == s.term && GrantedBy(r.votes) == {s.id} && r.id == s.id
  {
  }

  lemma RequestPreVotesGood(s: Node, h: Hist)
    requires Good(s, h) && h.pair
    ensures Good(RequestVotes(s, MsgPreVote, s.term + 1), h)
  {
    var s' := RequestVotes(s, MsgPreVote, s.term + 1);
    forall m | m in s'.msgs ensures MsgInv(m, h) {
      if m !in s.msgs {
        var v :| v in s.prs && v != s.id && m == VoteRequest(s, MsgPreVote, s.term + 1, v);
      }
    }
  }
}
