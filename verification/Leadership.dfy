/** Winning an election, appending and committing as leader keep the invariant. */
module Leadership {
  import opened Proto
  import opened LogSpec
  import opened ProgressSpec
  import opened RaftSpec
  import opened Quorum
  import opened History
  import opened Invariant
  import opened Elections

  // ---------------------------------------------------------------- growing the leader logs

  /** Growing leader logs and this term's acknowledgements keeps every recorded fact, provided the
      newly acknowledging voter has not voted in a later term. */
  lemma LogsGrowInv(h: Hist, h': Hist, who: nat, t: nat)
    requires HistInv(h) && Grows(h, h', who)
    requires h'.cand == h.cand && h'.votes == h.votes
    requires LogsInv(h') && ElectionInv(h') && AckInv(h')
    requires forall k :: k in h'.acks && k != (who, t) ==> k in h.acks && h'.acks[k] == h.acks[k]
    requires forall u :: (who, u) in h.votes ==> u <= t
    requires forall v, u :: (v, u) in h.votes && Decisive(h', v, u) ==> Decisive(h, v, u)
    ensures HistInv(h')
  {
    forall u, c | (u, c) in h'.cand ensures CandOk(h', u, c) {
      assert CandOk(h, u, c);
      LogOkGrows(h.logs, h'.logs, h.cand[(u, c)]);
    }
    forall v, u | (v, u) in h'.votes ensures VoteOk(h', v, u) {
      assert VoteOk(h, v, u);
      LogOkGrows(h.logs, h'.logs, h.votes[(v, u)].log);
    }
    forall v, u, w | (v, u) in h'.votes && (v, w) in h'.acks && w < u ensures BallotOk(h', v, u, w) {
      assert (v, w) != (who, t);
      assert BallotOk(h, v, u, w) && AckOk(h, v, w) && LeaderLogOk(h, w);
      if Decisive(h', v, u) {
        KeptUpToGrows(h.logs, h'.logs, w, h.acks[(v, w)], h.votes[(v, u)].log, u);
      }
    }
  }

  // ---------------------------------------------------------------- being elected

  /** The votes behind a win: all that were granted, or the candidate's own where grants may be pre-votes. */
  function WinningVotes(s: Node, h: Hist): set<nat> {
    if h.pair then {s.id} else GrantedBy(s.votes)
  }

  /** A majority of votes or, where grants may be pre-votes, nobody else's win. */
  ghost predicate MayWin(s: Node, h: Hist) {
    if h.pair then s.term !in h.leader else IsMajority(GrantedBy(s.votes), h.voters)
  }

  function ElectHist(s: Node, h: Hist): Hist {
    h.(logs := h.logs[s.term := s.log.ents],
       leader := h.leader[s.term := s.id],
       quorum := h.quorum[s.term := WinningVotes(s, h)],
       acks := h.acks[(s.id, s.term) := |s.log.ents|])
  }

  lemma SameBallot(h: Hist, v: nat, t: nat, a: nat, b: nat)
    requires VotedFor(h, v, t, a) && VotedFor(h, v, t, b)
    ensures a == b
  {
  }

  /** A majority of grants for this candidate means nobody else has won the term. */
  lemma TermIsOpen(s: Node, h: Hist)
    requires HistInv(h) && NodeInv(s, h) && s.role == Candidate && MayWin(s, h)
    ensures s.term !in h.leader && s.term !in h.logs
  {
    assert CandOk(h, s.term, s.id);
    if s.term in h.leader {
      assert ElectionOk(h, s.term);
      var v := MajorityMeets(GrantedBy(s.votes), h.quorum[s.term], h.voters);
      SameBallot(h, v, s.term, s.id, h.leader[s.term]);
      assert false;
    }
  }

  lemma ElectLogsInv(s: Node, h: Hist)
    requires LogsInv(h) && AckInv(h) && LogOk(h.logs, s.log.ents) && TermsAtMost(s.log.ents, s.term)
    requires s.term > h.start && s.term !in h.leader && s.term !in h.logs
    ensures Grows(h, ElectHist(s, h), s.id) && LogsInv(ElectHist(s, h))
  {
    hide LogOk, Grows, LogsGrow;
    var h' := ElectHist(s, h);
    ElectGrows(s, h);
    forall t | t in h'.logs ensures LeaderLogOk(h', t) {
      if t in h.logs {
        assert LeaderLogOk(h, t);
        LogOkGrows(h.logs, h'.logs, h.logs[t]);
      } else {
        LogOkGrows(h.logs, h'.logs, s.log.ents);
      }
    }
  }

  lemma ElectGrows(s: Node, h: Hist)
    requires AckInv(h) && s.term !in h.leader && s.term !in h.logs
    ensures Grows(h, ElectHist(s, h), s.id) && LogsGrow(h.logs, ElectHist(s, h).logs)
  {
    var h' := ElectHist(s, h);
    forall k | k in h.acks ensures h'.acks[k] == h.acks[k] {
      assert AckOk(h, k.0, k.1);
    }
  }

  lemma ElectElectionInv(s: Node, h: Hist)
    requires ElectionInv(h) && MayWin(s, h) && s.id in h.voters && (h.pair ==> |h.voters| == 2)
    requires s.term !in h.leader && s.term !in h.logs
    requires CandidateInv(s.id, s.term, s.log.ents, GrantedBy(s.votes), h)
    ensures ElectionInv(ElectHist(s, h))
  {
    var h' := ElectHist(s, h);
    forall t | t in h'.leader ensures ElectionOk(h', t) {
      if t in h.leader {
        assert ElectionOk(h, t);
        forall v | v in h'.quorum[t] ensures VotedFor(h', v, t, h'.leader[t]) {
          assert VotedFor(h, v, t, h.leader[t]);
        }
      } else {
        forall v | v in h'.quorum[t] ensures VotedFor(h', v, t, h'.leader[t]) {
          assert VotedFor(h, v, t, s.id);
        }
        assert Blocks(h'.quorum[t], h'.voters);
      }
    }
  }

  lemma ElectHistInv(s: Node, h: Hist)
    requires HistInv(h) && NodeInv(s, h) && s.role == Candidate && MayWin(s, h)
    ensures HistInv(ElectHist(s, h)) && Grows(h, ElectHist(s, h), s.id)
    ensures s.term !in h.leader
  {
    var h' := ElectHist(s, h);
    TermIsOpen(s, h);
    assert CandOk(h, s.term, s.id);
    ElectLogsInv(s, h);
    ElectElectionInv(s, h);
    forall v, t | (v, t) in h'.acks ensures AckOk(h', v, t) {
      if (v, t) in h.acks {
        assert AckOk(h, v, t);
      }
    }
    LogsGrowInv(h, h', s.id, s.term);
  }

  /** The new leader before it appends its first entry. */
  function Elected(cfg: Config, s: Node): Node {
    var s1 := Reset(cfg, s, s.term).(lead := s.id, role := Leader);
    s1.(prs := s1.prs[s.id := BecomeReplicate(s1.prs[s.id])], pendingConf := s1.log.Last())
  }

  lemma ElectedAckInv(s: Node, h: Hist)
    requires LogsInv(h) && AckInv(h) && NodeAckInv(s.id, s.term, s.log.ents, h)
    requires Grows(h, ElectHist(s, h), s.id)
    ensures NodeAckInv(s.id, s.term, s.log.ents, ElectHist(s, h))
  {
    var h' := ElectHist(s, h);
    forall t | (s.id, t) in h'.acks
      ensures KeptUpTo(h'.logs, t, h'.acks[(s.id, t)], s.log.ents, s.term + 1)
    {
      if t != s.term {
        assert AckOk(h, s.id, t) && LeaderLogOk(h, t);
        KeptUpToGrows(h.logs, h'.logs, t, h.acks[(s.id, t)], s.log.ents, s.term + 1);
      }
    }
  }

  lemma ElectedLeaderInv(cfg: Config, s: Node, h: Hist)
    ensures LeaderInv(s.id, s.term, s.log.ents, Elected(cfg, s).prs, ElectHist(s, h))
  {
    var h' := ElectHist(s, h);
    var prs := Elected(cfg, s).prs;
    forall v | v in prs ensures PeerInv(v, prs[v], s.term, |s.log.ents|, h') {
    }
  }

  lemma HistParts(h: Hist)
    requires HistInv(h)
    ensures LogsInv(h) && AckInv(h)
  {
  }

  lemma ElectedShape(cfg: Config, s: Node)
    ensures var r := Elected(cfg, s);
            && r.id == s.id && r.prs.Keys == s.prs.Keys && r.term == s.term && r.role == Leader && r.vote == s.vote
            && r.log == s.log && r.msgs == s.msgs && r.uncommitted == 0
  {
  }

  lemma ElectedTermInv(s: Node, h: Hist)
    requires TermInv(s.id, s.term, h) && NodeVoteInv(s.id, s.term, s.vote, h)
    ensures InOffice(s.id, s.term, Leader, ElectHist(s, h))
    ensures TermInv(s.id, s.term, ElectHist(s, h)) && NodeVoteInv(s.id, s.term, s.vote, ElectHist(s, h))
  {
  }

  lemma ElectedGood(cfg: Config, s: Node, h: Hist)
    requires Good(s, h) && s.role == Candidate && MayWin(s, h)
    ensures Good(Elected(cfg, s), ElectHist(s, h)) && Grows(h, ElectHist(s, h), s.id)
  {
    hide HistInv, NodeLogInv, NodeAckInv, LeaderInv, MsgsInv, Grows, CandidateInv, MayWin, InOffice, Elected;
    var h' := ElectHist(s, h);
    var s' := Elected(cfg, s);
    HistParts(h);
    ElectHistInv(s, h);
    ElectedAckInv(s, h);
    MsgsInvGrows(h, h', s.id, s.msgs);
    NodeLogInvGrows(h, h', s.id, s.log, s.term);
    ElectedLeaderInv(cfg, s, h);
    ElectedShape(cfg, s);
    ElectedTermInv(s, h);
  }

  // ---------------------------------------------------------------- appending

  function AppendHist(s: Node, h: Hist, es: seq<Entry>): Hist {
    h.(logs := h.logs[s.term := s.log.ents + es],
       acks := h.acks[(s.id, s.term) := |s.log.ents| + |es|])
  }

  /** Entries of the leader's own term, numbered after its log. */
  predicate Fresh(s: Node, es: seq<Entry>) {
    Contiguous(es, s.log.Last() + 1) && forall k :: 0 <= k < |es| ==> es[k].term == s.term
  }

  lemma AppendedLogOk(s: Node, h: Hist, es: seq<Entry>)
    requires LogOk(h.logs, s.log.ents) && Fresh(s, es) && s.term >= 1
    requires s.term in h.logs && h.logs[s.term] == s.log.ents
    ensures LogOk(AppendHist(s, h, es).logs, s.log.ents + es)
  {
    var logs := AppendHist(s, h, es).logs;
    var log' := s.log.ents + es;
    LogOkGrows(h.logs, logs, s.log.ents);
    forall k | 0 <= k < |log'| ensures EntryOk(logs, log', k) {
      if k < |s.log.ents| {
        assert EntryOk(logs, s.log.ents, k);
        assert log'[..k + 1] == s.log.ents[..k + 1];
      }
    }
  }

  lemma AppendLogsInv(s: Node, h: Hist, es: seq<Entry>)
    requires LogsInv(h) && AckInv(h) && Fresh(s, es) && s.term in h.leader && h.leader[s.term] == s.id
    requires s.term in h.logs && h.logs[s.term] == s.log.ents
    ensures Grows(h, AppendHist(s, h, es), s.id) && LogsInv(AppendHist(s, h, es))
  {
    hide LogOk, Grows, LogsGrow;
    var h' := AppendHist(s, h, es);
    assert LeaderLogOk(h, s.term);
    AppendGrows(s, h, es);
    AppendedLogOk(s, h, es);
    forall t | t in h'.logs ensures LeaderLogOk(h', t) {
      assert LeaderLogOk(h, t);
      LogOkGrows(h.logs, h'.logs, h.logs[t]);
    }
  }

  lemma AppendGrows(s: Node, h: Hist, es: seq<Entry>)
    requires AckInv(h) && Fresh(s, es) && s.term in h.leader && h.leader[s.term] == s.id
    requires s.term in h.logs && h.logs[s.term] == s.log.ents
    ensures Grows(h, AppendHist(s, h, es), s.id) && LogsGrow(h.logs, AppendHist(s, h, es).logs)
  {
    var h' := AppendHist(s, h, es);
    forall k | k in h.acks ensures h'.acks[k] >= h.acks[k] {
      if k == (s.id, s.term) {
        assert AckOk(h, s.id, s.term);
      }
    }
  }

  lemma AppendHistInv(s: Node, h: Hist, es: seq<Entry>)
    requires HistInv(h) && NodeInv(s, h) && s.role == Leader && Fresh(s, es)
    ensures HistInv(AppendHist(s, h, es)) && Grows(h, AppendHist(s, h, es), s.id)
  {
    hide LogsInv, CandInv, VoteInv, ElectionInv, AckInv, BallotInv, Grows, NodeLogInv, NodeVoteInv, NodeAckInv, ProgressInv;
    var h' := AppendHist(s, h, es);
    AppendLogsInv(s, h, es);
    AppendElectionInv(s, h, es);
    AppendAckInv(s, h, es);
    LogsGrowInv(h, h', s.id, s.term);
  }

  lemma AppendElectionInv(s: Node, h: Hist, es: seq<Entry>)
    requires ElectionInv(h) && Fresh(s, es) && s.term in h.leader && s.term in h.logs && h.logs[s.term] == s.log.ents
    ensures ElectionInv(AppendHist(s, h, es))
  {
    hide Blocks;
    var h' := AppendHist(s, h, es);
    forall t | t in h'.leader ensures ElectionOk(h', t) {
      assert ElectionOk(h, t);
      forall v | v in h'.quorum[t] ensures VotedFor(h', v, t, h'.leader[t]) {
        assert VotedFor(h, v, t, h.leader[t]);
      }
      if t == s.term {
        ExtensionTrans(h'.logs[t], h.logs[t], h.cand[(t, h.leader[t])], t);
      }
    }
  }

  lemma AppendAckInv(s: Node, h: Hist, es: seq<Entry>)
    requires AckInv(h) && s.term in h.logs && h.logs[s.term] == s.log.ents
    ensures AckInv(AppendHist(s, h, es))
  {
    var h' := AppendHist(s, h, es);
    forall v, t | (v, t) in h'.acks ensures AckOk(h', v, t) {
      if (v, t) in h.acks {
        assert AckOk(h, v, t);
      }
    }
  }

  lemma AppendedAckInv(s: Node, h: Hist, es: seq<Entry>)
    requires LogsInv(h) && AckInv(h) && NodeAckInv(s.id, s.term, s.log.ents, h)
    requires Grows(h, AppendHist(s, h, es), s.id)
    ensures NodeAckInv(s.id, s.term, s.log.ents + es, AppendHist(s, h, es))
  {
    var h' := AppendHist(s, h, es);
    var log' := s.log.ents + es;
    forall t | (s.id, t) in h'.acks
      ensures KeptUpTo(h'.logs, t, h'.acks[(s.id, t)], log', s.term + 1)
    {
      if t != s.term {
        assert AckOk(h, s.id, t) && LeaderLogOk(h, t);
        KeptUpToGrows(h.logs, h'.logs, t, h.acks[(s.id, t)], s.log.ents, s.term + 1);
        KeptByLonger(h'.logs, t, h.acks[(s.id, t)], s.log.ents, log', s.term + 1);
      }
    }
  }

  lemma KeptByLonger(logs: map<nat, seq<Entry>>, t: nat, n: nat, a: seq<Entry>, b: seq<Entry>, bound: nat)
    requires KeptUpTo(logs, t, n, a, bound) && a <= b
    ensures KeptUpTo(logs, t, n, b, bound)
  {
    forall i | 0 <= i <= n ensures Kept(logs, t, i, b, bound) {
      assert Kept(logs, t, i, a, bound);
      if Agree(a, logs[t], i) {
        AgreeGrows(logs[t], a, b, i);
      }
    }
  }

  /** The leader after writing `es` and updating its own progress. */
  function Appended(s: Node, es: seq<Entry>, uncommitted: nat): Node
    requires Contiguous(es, s.log.Last() + 1)
  {
    var l := s.log.(ents := s.log.ents + es);
    s.(log := l, uncommitted := uncommitted, prs := s.prs[s.id := MaybeUpdate(s.prs[s.id], l.Last()).0])
  }

  lemma AppendedLogInv(s: Node, h: Hist, es: seq<Entry>)
    requires NodeLogInv(s.log, s.term, h) && Fresh(s, es)
    requires LogsInv(AppendHist(s, h, es)) && Grows(h, AppendHist(s, h, es), s.id)
    ensures NodeLogInv(s.log.(ents := s.log.ents + es), s.term, AppendHist(s, h, es))
  {
    hide LogOk, CommitOk, Grows;
    var h' := AppendHist(s, h, es);
    var log' := s.log.ents + es;
    assert LeaderLogOk(h', s.term);
    CommitOkGrows(h, h', s.id, s.log.ents, s.term, s.log.committed);
    assert log'[..s.log.committed] == s.log.ents[..s.log.committed];
    CommitOkLonger(h', s.log.ents, log', s.term, s.term, s.log.committed);
  }

  lemma AppendedLeaderInv(s: Node, h: Hist, es: seq<Entry>, u: nat)
    requires LeaderInv(s.id, s.term, s.log.ents, s.prs, h) && Fresh(s, es)
    requires Grows(h, AppendHist(s, h, es), s.id)
    ensures LeaderInv(s.id, s.term, s.log.ents + es, Appended(s, es, u).prs, AppendHist(s, h, es))
  {
    var h' := AppendHist(s, h, es);
    var prs := Appended(s, es, u).prs;
    forall v | v in prs ensures PeerInv(v, prs[v], s.term, |s.log.ents + es|, h') {
      assert PeerInv(v, s.prs[v], s.term, |s.log.ents|, h);
      AckGrows(h, h', s.id, v, s.term);
    }
  }

  lemma AppendedGood(s: Node, h: Hist, es: seq<Entry>, uncommitted: nat)
    requires Good(s, h) && s.role == Leader && Fresh(s, es)
    ensures Good(Appended(s, es, uncommitted), AppendHist(s, h, es)) && Grows(h, AppendHist(s, h, es), s.id)
    ensures Appended(s, es, uncommitted).role == Leader && Appended(s, es, uncommitted).term == s.term
    ensures AppendHist(s, h, es).leader == h.leader
  {
    var h' := AppendHist(s, h, es);
    var s' := Appended(s, es, uncommitted);
    AppendHistInv(s, h, es);
    AppendedAckInv(s, h, es);
    AppendedLogInv(s, h, es);
    MsgsInvGrows(h, h', s.id, s.msgs);
    AppendedLeaderInv(s, h, es, uncommitted);
  }

  // ---------------------------------------------------------------- committing

  /** The index a leader commits is a commit point of its term. */
  lemma LeaderCommitPoint(s: Node, h: Hist, x: nat)
    requires HistInv(h) && NodeInv(s, h) && s.role == Leader
    requires x >= 1 && IsQuorumIndex(Matches(s.prs), x) && s.log.TermAt(x) == s.term
    ensures CommitPoint(h, s.term, x)
  {
    var m := Matches(s.prs);
    var acked := AckedBy(h, s.term, x);
    assert m.Keys == s.prs.Keys == h.voters;
    assert |m| == |m.Keys| == |h.voters|;
    forall v | v in AtLeast(m, x) ensures v in acked {
      assert PeerInv(v, s.prs[v], s.term, |s.log.ents|, h);
    }
    SubsetCardinality(AtLeast(m, x), acked);
    var v :| v in AtLeast(m, x);
    assert v in acked;
    assert AckOk(h, v, s.term);
  }

  lemma AdvanceCommitGood(s: Node, h: Hist)
    requires Good(s, h) && s.role == Leader
    ensures AdvanceCommit(s).Ok? && Good(AdvanceCommit(s).value.0, h)
    ensures AdvanceCommit(s).value.0 == s.(log := AdvanceCommit(s).value.0.log)
  {
    assert s.id in Matches(s.prs);
    var x := QuorumIndex(Matches(s.prs));
    if x > s.log.committed && s.log.TermAt(x) == s.term {
      LeaderCommitPoint(s, h, x);
      assert Agree(s.log.ents, h.logs[s.term], x);
      assert CommitOk(h, s.log.ents, s.term, x);
      assert NodeLogInv(s.log.(committed := x), s.term, h);
    }
  }

  /** Appending right after the last entry extends the log. */
  lemma LeaderAppend(l: Log, es: seq<Entry>)
    requires CursorsOk(l) && Contiguous(es, l.Last() + 1)
    ensures Append(l, l.Last() + 1, es) == Ok(l.(ents := l.ents + es))
  {
    assert l.ents[..|l.ents|] == l.ents;
    if es == [] {
      assert l.ents + es == l.ents;
    }
  }

  /** What append_entry does with an accepted batch. */
  lemma AppendEntrySteps(cfg: Config, s: Node, es: seq<Entry>)
    requires CursorsOk(s.log)
    ensures var ents := StampEntries(s, es);
            var s1 := Appended(s, ents, s.uncommitted + Wrap32(PayloadSize(ents)));
            && Fresh(s, ents)
            && (!WithinLimit(cfg, s, ents) ==> AppendEntry(cfg, s, es) == Ok((s, false)))
            && (WithinLimit(cfg, s, ents) && AdvanceCommit(s1).Ok? ==>
                  AppendEntry(cfg, s, es) == Ok((AdvanceCommit(s1).value.0, true)))
            && (WithinLimit(cfg, s, ents) && AdvanceCommit(s1).Fatal? ==> AppendEntry(cfg, s, es).Fatal?)
  {
    hide AdvanceCommit, PayloadSize, MaybeUpdate, WithinLimit;
    var ents := StampEntries(s, es);
    LeaderAppend(s.log, ents);
  }

  lemma GoodCursors(s: Node, h: Hist)
    requires Good(s, h)
    ensures CursorsOk(s.log)
  {
  }

  /** append_entry never fails at a leader and keeps the invariant. */
  lemma AppendEntryGood(cfg: Config, s: Node, h: Hist, es: seq<Entry>) returns (h': Hist)
    requires Good(s, h) && s.role == Leader
    ensures AppendEntry(cfg, s, es).Ok?
    ensures Good(AppendEntry(cfg, s, es).value.0, h') && Grows(h, h', s.id) && h'.leader == h.leader
    ensures AppendEntry(cfg, s, es).value.0.role == Leader && AppendEntry(cfg, s, es).value.0.term == s.term
    ensures AppendEntry(cfg, s, es).value.1 == WithinLimit(cfg, s, StampEntries(s, es))
  {
    hide *;
    GoodCursors(s, h);
    AppendEntrySteps(cfg, s, es);
    GrowsRefl(h, s.id);
    var ents := StampEntries(s, es);
    if !WithinLimit(cfg, s, ents) {
      h' := h;
    } else {
      var u := s.uncommitted + Wrap32(PayloadSize(ents));
      h' := AppendHist(s, h, ents);
      AppendedGood(s, h, ents, u);
      AdvanceCommitGood(Appended(s, ents, u), h');
    }
  }

  /** become_leader is the reset, then the first entry, not counted. */
  lemma BecomeLeaderSteps(cfg: Config, s: Node)
    requires s.role != Follower
    ensures var r := AppendEntry(cfg, Elected(cfg, s), [EMPTY_ENTRY]);
            BecomeLeader(cfg, s) == if r.Fatal? || !r.value.1 then Fatal else Ok(r.value.0)
  {
    hide AppendEntry, Reset;
    var r := AppendEntry(cfg, Elected(cfg, s), [EMPTY_ENTRY]);
    if r.Ok? {
      ReducedByNothing(r.value.0);
    }
  }

  lemma ReducedByNothing(s: Node)
    ensures ReduceUncommitted(s, [EMPTY_ENTRY]) == s
  {
    assert PayloadSize([EMPTY_ENTRY]) == 0;
  }

  lemma QuorumMayWin(s: Node, h: Hist)
    requires Good(s, h) && s.role == Candidate
    requires |GrantedBy(s.votes)| == NodeQuorum(s) && (h.pair ==> s.term !in h.leader)
    ensures MayWin(s, h)
  {
    assert |s.prs| == |s.prs.Keys| == |h.voters|;
  }

  /** With nothing counted yet the limit refuses nothing. */
  lemma FirstEntryKept(cfg: Config, s: Node)
    ensures s.uncommitted == 0 ==> WithinLimit(cfg, s, StampEntries(s, [EMPTY_ENTRY]))
  {
  }

  /** A candidate with a majority becomes leader without failing. */
  lemma BecomeLeaderGood(cfg: Config, s: Node, h: Hist) returns (h': Hist)
    requires Good(s, h) && s.role == Candidate
    requires |GrantedBy(s.votes)| == NodeQuorum(s) && (h.pair ==> s.term !in h.leader)
    ensures BecomeLeader(cfg, s).Ok? && Good(BecomeLeader(cfg, s).value, h') && Grows(h, h', s.id)
    ensures Crowned(h, h', BecomeLeader(cfg, s).value)
    ensures BecomeLeader(cfg, s).value.role == Leader
  {
    hide Good, Elected, Grows, AppendEntry;
    QuorumMayWin(s, h);
    ElectedGood(cfg, s, h);
    ElectedShape(cfg, s);
    BecomeLeaderSteps(cfg, s);
    var h1 := ElectHist(s, h);
    var s2 := Elected(cfg, s);
    h' := AppendEntryGood(cfg, s2, h1, [EMPTY_ENTRY]);
    FirstEntryKept(cfg, s2);
    GrowsTrans(h, h1, h', s.id);
  }

  /** Raft::campaign never fails and keeps the invariant. */
  lemma CampaignGood(cfg: Config, s: Node, h: Hist) returns (h': Hist)
    requires Good(s, h) && s.role != Leader
    ensures Campaign(cfg, s).Ok? && Good(Campaign(cfg, s).value, h') && Grows(h, h', s.id)
    ensures Crowned(h, h', Campaign(cfg, s).value)
  {
    var s1 := Poll(BecomeCandidate(cfg, s), s.id, true);
    var h1 := CampaignHist(s, h);
    CandidateGood(cfg, s, h);
    CandidateShape(cfg, s);
    assert |s1.prs| == |s1.prs.Keys|;
    if |GrantedBy(s1.votes)| == NodeQuorum(s1) {
      h' := BecomeLeaderGood(cfg, s1, h1);
      GrowsTrans(h, h1, h', s.id);
    } else {
      h' := h1;
      RequestVotesGood(s1, h1);
    }
  }
}
