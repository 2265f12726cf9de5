/** Following a leader, and a leader's sending and bookkeeping, keep the invariant. */
module Replication {
  import opened Proto
  import opened LogSpec
  import opened ProgressSpec
  import opened RaftSpec
  import opened Quorum
  import opened History
  import opened Invariant
  import opened Elections
  import opened Leadership

  // ---------------------------------------------------------------- find_conflict and maybe_append

  /** A node's log whose terms match the leader's log over [index, hi] agrees with it up to hi. */
  lemma TermsMatchAgree(h: Hist, l: Log, lead: seq<Entry>, index: nat, hi: nat)
    requires LogOk(h.logs, l.ents) && LogOk(h.logs, lead) && l.base == 0
    requires index <= hi <= |lead| && l.TermAt(index) == TermOf(lead, index)
    requires forall i :: index < i <= hi ==> l.TermAt(i) == lead[i - 1].term
    ensures Agree(l.ents, lead, hi)
  {
    if hi > 0 {
      assert EntryOk(h.logs, lead, hi - 1);
      assert l.TermAt(hi) == lead[hi - 1].term;
      SameTermSamePrefix(h.logs, l.ents, lead, hi);
    }
  }

  /** Where find_conflict stops on a stretch of the leader's log: the logs agree up to there and, if
      it reports a conflict, not one entry further. */
  lemma ConflictFromLeader(h: Hist, l: Log, lead: seq<Entry>, index: nat, es: seq<Entry>)
    requires LogOk(h.logs, l.ents) && LogOk(h.logs, lead)
    requires l.base == 0 && l.baseTerm == 0
    requires index + |es| <= |lead| && es == lead[index..index + |es|] && Contiguous(es, index + 1)
    requires MatchTerm(l, index, TermOf(lead, index))
    ensures var ci := FindConflict(l, es);
            if ci == 0 then Agree(l.ents, lead, index + |es|)
            else index < ci <= index + |es| && Agree(l.ents, lead, ci - 1) && !Agree(l.ents, lead, ci)
  {
    hide FindConflict, Contiguous;
    FindConflictMeaning(l, es, index + 1);
    var ci := FindConflict(l, es);
    var hi := if ci == 0 then index + |es| else ci - 1;
    StretchTermsMatch(l, lead, index, es, hi);
    TermsMatchAgree(h, l, lead, index, hi);
    if ci != 0 {
      assert lead[ci - 1] == es[ci - (index + 1)];
      assert EntryOk(h.logs, lead, ci - 1);
      DifferAt(l.ents, lead, ci, ci - 1);
    }
  }

  lemma StretchTermsMatch(l: Log, lead: seq<Entry>, index: nat, es: seq<Entry>, hi: nat)
    requires index + |es| <= |lead| && es == lead[index..index + |es|] && index <= hi <= index + |es|
    requires forall k :: 0 <= k < hi - index ==> l.TermAt(index + 1 + k) == es[k].term
    ensures forall i :: index < i <= hi ==> l.TermAt(i) == lead[i - 1].term
  {
    forall i | index < i <= hi ensures l.TermAt(i) == lead[i - 1].term {
      var k := i - 1 - index;
      assert l.TermAt(index + 1 + k) == es[k].term;
    }
  }

  lemma MatchedInRange(h: Hist, l: Log, lead: seq<Entry>, index: nat)
    requires LogOk(h.logs, lead) && index <= |lead| && l.base == 0 && MatchTerm(l, index, TermOf(lead, index))
    ensures index <= l.Last()
  {
    if index > 0 {
      assert EntryOk(h.logs, lead, index - 1);
    }
  }

  lemma NoShorterDisagreement(a: seq<Entry>, b: seq<Entry>, i: nat, j: nat)
    requires !Agree(a, b, i) && i <= j
    ensures !Agree(a, b, j)
  {
    if Agree(a, b, j) {
      AgreeShorter(a, b, j, i);
    }
  }

  lemma StretchTermsPositive(h: Hist, lead: seq<Entry>, index: nat, es: seq<Entry>)
    requires LogOk(h.logs, lead) && index + |es| <= |lead| && es == lead[index..index + |es|]
    ensures forall k :: 0 <= k < |es| ==> es[k].term >= 1
  {
    forall k | 0 <= k < |es| ensures es[k].term >= 1 {
      assert EntryOk(h.logs, lead, index + k);
    }
  }

  /** After a conflict the log is the leader's through the stretch. */
  lemma MergedFromLeader(l: Log, lead: seq<Entry>, index: nat, es: seq<Entry>)
    requires l.base == 0 && index <= l.Last() && index + |es| <= |lead| && es == lead[index..index + |es|]
    requires Contiguous(es, index + 1) && forall k :: 0 <= k < |es| ==> es[k].term >= 1
    requires FindConflict(l, es) != 0
    requires index < FindConflict(l, es) <= index + |es| && Agree(l.ents, lead, FindConflict(l, es) - 1)
    ensures Merged(l, index, es) == l.(ents := lead[..index + |es|])
  {
    hide *;
    MergedAtConflict(l, index, es);
    var ci := FindConflict(l, es);
    ReplaceWithLeader(l, lead, index, es, ci);
  }

  lemma ReplaceWithLeader(l: Log, lead: seq<Entry>, index: nat, es: seq<Entry>, ci: nat)
    requires l.base == 0 && index + |es| <= |lead| && es == lead[index..index + |es|]
    requires Contiguous(es, index + 1) && index < ci <= index + |es| && ci <= l.Last() + 1 && Agree(l.ents, lead, ci - 1)
    ensures Replace(l, ci - l.base - 1, es[ci - (index + 1)..]) == l.(ents := lead[..index + |es|])
  {
    hide Contiguous;
    TailContiguousAt(es, index, ci);
    TailOfStretch(lead, index, es, ci);
    JoinAtCut(l.ents, lead, ci - 1, index + |es|);
  }

  lemma TailContiguousAt(es: seq<Entry>, index: nat, ci: nat)
    requires Contiguous(es, index + 1) && index < ci <= index + |es|
    ensures Contiguous(es[ci - (index + 1)..], ci)
  {
  }

  lemma TailOfStretch(lead: seq<Entry>, index: nat, es: seq<Entry>, ci: nat)
    requires index + |es| <= |lead| && es == lead[index..index + |es|] && index < ci <= index + |es|
    ensures es[ci - (index + 1)..] == lead[ci - 1..index + |es|]
  {
  }

  lemma JoinAtCut<T>(a: seq<T>, b: seq<T>, k: nat, n: nat)
    requires k <= n <= |b| && k <= |a| && a[..k] == b[..k]
    ensures a[..k] + b[k..n] == b[..n]
  {
  }

  /** What maybe_append does with a stretch of the leader's log: it never touches a prefix on which
      the two logs agree, and afterwards they agree through the stretch. */
  lemma MaybeAppendFromLeader(h: Hist, l: Log, lead: seq<Entry>, index: nat, es: seq<Entry>, commit: nat)
    requires LogOk(h.logs, l.ents) && LogOk(h.logs, lead)
    requires l.base == 0 && l.baseTerm == 0 && l.committed <= l.Last()
    requires index + |es| <= |lead| && es == lead[index..index + |es|] && Contiguous(es, index + 1)
    requires MatchTerm(l, index, TermOf(lead, index))
    requires Agree(l.ents, lead, l.committed)
    ensures var r := MaybeAppend(l, index, TermOf(lead, index), commit, es);
            && r.Accepted? && r.lastNew == index + |es|
            && r.log == l.(ents := r.log.ents, committed := Max(l.committed, Min(commit, index + |es|)))
            && Agree(r.log.ents, lead, index + |es|)
            && (r.log.ents == l.ents || (r.log.ents == lead[..index + |es|] && !Agree(l.ents, lead, index + |es|)))
  {
    hide MaybeAppend, FindConflict, Merged, Contiguous, TermOf, MatchTerm, LogOk, EntryOk, Replace;
    ConflictFromLeader(h, l, lead, index, es);
    MatchedInRange(h, l, lead, index);
    StretchTermsPositive(h, lead, index, es);
    MaybeAppendContract(l, index, TermOf(lead, index), commit, es);
    var ci := FindConflict(l, es);
    if ci == 0 {
      MergedWithoutConflict(l, index, es);
    } else {
      MergedFromLeader(l, lead, index, es);
      NoShorterDisagreement(l.ents, lead, ci, index + |es|);
      if ci <= l.committed {
        NoShorterDisagreement(l.ents, lead, ci, l.committed);
      }
    }
  }

  // ---------------------------------------------------------------- acknowledging

  function AckHist(h: Hist, v: nat, t: nat, i: nat): Hist {
    h.(acks := h.acks[(v, t) := Max(Ack(h, v, t), i)])
  }

  lemma AckLogsInv(h: Hist, v: nat, t: nat, i: nat)
    requires LogsInv(h)
    ensures LogsInv(AckHist(h, v, t, i))
  {
    hide LogOk, TermsAtMost;
    var h' := AckHist(h, v, t, i);
    forall u | u in h'.logs ensures LeaderLogOk(h', u) {
      assert LeaderLogOk(h, u);
    }
  }

  lemma AckElectionInv(h: Hist, v: nat, t: nat, i: nat)
    requires ElectionInv(h)
    ensures ElectionInv(AckHist(h, v, t, i))
  {
    hide Blocks, Extension;
    var h' := AckHist(h, v, t, i);
    forall u | u in h'.leader ensures ElectionOk(h', u) {
      assert ElectionOk(h, u);
      forall x | x in h'.quorum[u] ensures VotedFor(h', x, u, h'.leader[u]) {
        assert VotedFor(h, x, u, h.leader[u]);
      }
    }
  }

  lemma AckAckInv(h: Hist, v: nat, t: nat, i: nat)
    requires AckInv(h) && t in h.logs && i <= |h.logs[t]|
    ensures AckInv(AckHist(h, v, t, i))
  {
    var h' := AckHist(h, v, t, i);
    forall x, u | (x, u) in h'.acks ensures AckOk(h', x, u) {
      if (x, u) in h.acks {
        assert AckOk(h, x, u);
      }
    }
  }

  lemma AckGrows(h: Hist, v: nat, t: nat, i: nat)
    ensures Grows(h, AckHist(h, v, t, i), v)
  {
  }

  lemma AckHistInv(h: Hist, v: nat, t: nat, i: nat)
    requires HistInv(h) && t in h.logs && i <= |h.logs[t]|
    requires forall u :: (v, u) in h.votes ==> u <= t
    ensures HistInv(AckHist(h, v, t, i)) && Grows(h, AckHist(h, v, t, i), v)
  {
    hide LogsInv, CandInv, VoteInv, ElectionInv, AckInv, BallotInv;
    var h' := AckHist(h, v, t, i);
    AckLogsInv(h, v, t, i);
    AckElectionInv(h, v, t, i);
    AckAckInv(h, v, t, i);
    AckGrows(h, v, t, i);
    LogsGrowInv(h, h', v, t);
  }

  lemma AckedNodeAckInv(s: Node, h: Hist, i: nat)
    requires NodeAckInv(s.id, s.term, s.log.ents, h) && s.term in h.logs
    requires Agree(s.log.ents, h.logs[s.term], i)
    ensures NodeAckInv(s.id, s.term, s.log.ents, AckHist(h, s.id, s.term, i))
  {
    var h' := AckHist(h, s.id, s.term, i);
    forall t | (s.id, t) in h'.acks ensures KeptUpTo(h'.logs, t, h'.acks[(s.id, t)], s.log.ents, s.term + 1) {
      if t == s.term {
        forall j: nat {:trigger Kept(h'.logs, t, j, s.log.ents, s.term + 1)} | j <= h'.acks[(s.id, t)] ensures Kept(h'.logs, t, j, s.log.ents, s.term + 1) {
          if j <= i {
            AgreeShorter(s.log.ents, h.logs[t], i, j);
          } else {
            assert Kept(h.logs, t, j, s.log.ents, s.term + 1);
          }
        }
      } else {
        assert KeptUpTo(h.logs, t, h.acks[(s.id, t)], s.log.ents, s.term + 1);
      }
    }
  }

  /** A follower may acknowledge a position up to which it holds its leader's log. */
  lemma AcknowledgeGood(s: Node, h: Hist, to: nat, i: nat) returns (h': Hist)
    requires Good(s, h) && s.role == Follower && s.term in h.leader && s.term > h.start
    requires s.term in h.logs && Agree(s.log.ents, h.logs[s.term], i)
    ensures var m := EMPTY_MESSAGE.(to := to, kind := MsgAppResp, index := i);
            Send(s, m).Ok? && Good(Send(s, m).value, h') && Grows(h, h', s.id) && h'.leader == h.leader
  {
    h' := AckHist(h, s.id, s.term, i);
    AckHistInv(h, s.id, s.term, i);
    AckedNodeAckInv(s, h, i);
    NodeLogInvGrows(h, h', s.id, s.log, s.term);
    MsgsInvGrows(h, h', s.id, s.msgs);
    assert NodeInv(s, h');
    var m := EMPTY_MESSAGE.(to := to, kind := MsgAppResp, index := i);
    assert MsgInv(Stamp(s, m), h');
    SendGood(s, h', m);
  }

  // ---------------------------------------------------------------- following

  /** Whatever the new log is, what was acknowledged stays kept: either it is still there, or the
      current leader lacks it. */
  lemma OverwrittenAckInv(s: Node, h: Hist, hi: nat)
    requires HistInv(h) && NodeAckInv(s.id, s.term, s.log.ents, h)
    requires TermInv(s.id, s.term, h)
    requires s.term in h.logs && hi <= |h.logs[s.term]| && !Agree(s.log.ents, h.logs[s.term], hi)
    ensures NodeAckInv(s.id, s.term, h.logs[s.term][..hi], h)
  {
    var lead := h.logs[s.term];
    forall t | (s.id, t) in h.acks ensures KeptUpTo(h.logs, t, h.acks[(s.id, t)], lead[..hi], s.term + 1) {
      assert AckOk(h, s.id, t);
      forall i: nat {:trigger Kept(h.logs, t, i, lead[..hi], s.term + 1)} | i <= h.acks[(s.id, t)] ensures Kept(h.logs, t, i, lead[..hi], s.term + 1) {
        assert Kept(h.logs, t, i, s.log.ents, s.term + 1);
        OverwrittenKept(h.logs, t, i, s.log.ents, s.term, hi);
      }
    }
  }

  lemma OverwrittenKept(logs: map<nat, seq<Entry>>, t: nat, i: nat, log: seq<Entry>, term: nat, hi: nat)
    requires t in logs && t <= term && i <= |logs[t]|
    requires term in logs && hi <= |logs[term]| && !Agree(log, logs[term], hi)
    requires Kept(logs, t, i, log, term + 1)
    ensures Kept(logs, t, i, logs[term][..hi], term + 1)
  {
    var lead := logs[term];
    if Agree(log, logs[t], i) {
      if Agree(lead, logs[t], i) {
        AgreeTrans(log, logs[t], lead, i, i);
        if hi <= i {
          AgreeShorter(log, lead, i, hi);
          assert false;
        }
        assert lead[..hi][..i] == lead[..i];
      } else {
        assert t < term && Diverges(logs, term, t, i);
      }
    }
  }

  /** The follower's log after an accepted append. */
  lemma FollowedLogInv(s: Node, h: Hist, l: Log, hi: nat, commit: nat)
    requires HistInv(h) && NodeLogInv(s.log, s.term, h) && NodeAckInv(s.id, s.term, s.log.ents, h)
    requires TermInv(s.id, s.term, h)
    requires s.log.base == 0 && s.term in h.logs && hi <= |h.logs[s.term]|
    requires CommitOk(h, h.logs[s.term], s.term, commit)
    requires l == s.log.(ents := l.ents, committed := Max(s.log.committed, Min(commit, hi)))
    requires Agree(l.ents, h.logs[s.term], hi)
    requires l.ents == s.log.ents || (l.ents == h.logs[s.term][..hi] && !Agree(s.log.ents, h.logs[s.term], hi))
    ensures NodeLogInv(l, s.term, h) && NodeAckInv(s.id, s.term, l.ents, h)
  {
    var lead := h.logs[s.term];
    assert LeaderLogOk(h, s.term);
    LeaderHoldsCommitted(h, s.log.ents, s.term, s.log.committed, s.term);
    if l.ents != s.log.ents {
      OverwrittenAckInv(s, h, hi);
      PrefixLogOk(h.logs, lead, hi);
      if hi < s.log.committed {
        AgreeShorter(lead, s.log.ents, s.log.committed, hi);
        assert false;
      }
    }
    assert Agree(l.ents, lead, s.log.committed) by {
      if l.ents != s.log.ents {
        assert l.ents[..s.log.committed] == lead[..s.log.committed];
      }
    }
    AgreeTrans(l.ents, lead, s.log.ents, s.log.committed, s.log.committed);
    CommitOkLonger(h, s.log.ents, l.ents, s.term, s.term, s.log.committed);
    CommitOkShorter(h, lead, s.term, commit, Min(commit, hi));
    AgreeShorter(l.ents, lead, hi, Min(commit, hi));
    CommitOkLonger(h, lead, l.ents, s.term, s.term, Min(commit, hi));
  }

  lemma PrefixLogOk(logs: map<nat, seq<Entry>>, log: seq<Entry>, hi: nat)
    requires LogOk(logs, log) && hi <= |log|
    ensures LogOk(logs, log[..hi])
  {
    forall k | 0 <= k < hi ensures EntryOk(logs, log[..hi], k) {
      assert EntryOk(logs, log, k);
      assert log[..hi][..k + 1] == log[..k + 1];
    }
  }

  lemma CommitOkShorter(h: Hist, log: seq<Entry>, t: nat, c: nat, d: nat)
    requires CommitOk(h, log, t, c) && d <= c
    ensures CommitOk(h, log, t, d)
  {
    if d != 0 {
      var u, i := CommitWitness(h, log, t, c);
      AgreeShorter(log, h.logs[u], c, d);
    }
  }

  /** The accepting case of handle_append_entries. */
  lemma AcceptAppendGood(s: Node, h: Hist, m: Message) returns (h': Hist)
    requires Good(s, h) && s.role == Follower
    requires MsgInv(m, h) && m.kind == MsgApp && m.term == s.term && Contiguous(m.entries, m.index + 1)
    requires m.index >= s.log.committed && MatchTerm(s.log, m.index, m.logTerm)
    ensures HandleAppend(s, m).Ok? && Good(HandleAppend(s, m).value, h') && Grows(h, h', s.id) && h'.leader == h.leader
  {
    hide *;
    var l, hi := AcceptAppendLog(s, h, m);
    h' := AcknowledgeGood(s.(log := l), h, m.from, hi);
    AcceptedAppend(s, m, l, hi);
  }

  /** What the accepted entries make of the log. */
  lemma AcceptAppendLog(s: Node, h: Hist, m: Message) returns (l: Log, hi: nat)
    requires Good(s, h) && s.role == Follower
    requires MsgInv(m, h) && m.kind == MsgApp && m.term == s.term && Contiguous(m.entries, m.index + 1)
    requires m.index >= s.log.committed && MatchTerm(s.log, m.index, m.logTerm)
    ensures MaybeAppend(s.log, m.index, m.logTerm, m.commit, m.entries) == Accepted(l, hi)
    ensures WellFormed(s.(log := l)) && Good(s.(log := l), h)
    ensures s.term > h.start && s.term in h.logs && s.term in h.leader && Agree(l.ents, h.logs[s.term], hi)
  {
    hide MaybeAppend;
    var lead := h.logs[m.term];
    assert AppendMsgInv(m, h);
    LeaderHoldsCommitted(h, s.log.ents, s.term, s.log.committed, s.term);
    assert LeaderLogOk(h, s.term);
    MaybeAppendFromLeader(h, s.log, lead, m.index, m.entries, m.commit);
    l := MaybeAppend(s.log, m.index, m.logTerm, m.commit, m.entries).log;
    hi := MaybeAppend(s.log, m.index, m.logTerm, m.commit, m.entries).lastNew;
    FollowedLogInv(s, h, l, hi, m.commit);
    FollowedGood(s, h, l);
  }

  lemma FollowedGood(s: Node, h: Hist, l: Log)
    requires Good(s, h) && s.role == Follower
    requires WellFormed(s.(log := l))
    requires NodeLogInv(l, s.term, h) && NodeAckInv(s.id, s.term, l.ents, h)
    ensures Good(s.(log := l), h)
  {
  }

  lemma AcceptedAppend(s: Node, m: Message, l: Log, hi: nat)
    requires Contiguous(m.entries, m.index + 1) && m.index >= s.log.committed
    requires WellFormed(s.(log := l))
    requires MaybeAppend(s.log, m.index, m.logTerm, m.commit, m.entries) == Accepted(l, hi)
    ensures HandleAppend(s, m) == Send(s.(log := l), EMPTY_MESSAGE.(to := m.from, kind := MsgAppResp, index := hi))
  {
    hide MaybeAppend;
  }

  /** handle_append_entries never hits a fatal check and keeps the invariant. */
  lemma HandleAppendGood(s: Node, h: Hist, m: Message) returns (h': Hist)
    requires Good(s, h) && s.role == Follower
    requires MsgInv(m, h) && m.kind == MsgApp && m.term == s.term && Contiguous(m.entries, m.index + 1)
    ensures HandleAppend(s, m).Ok? && Good(HandleAppend(s, m).value, h') && Grows(h, h', s.id) && h'.leader == h.leader
  {
    if m.index < s.log.committed {
      assert AppendMsgInv(m, h);
      LeaderHoldsCommitted(h, s.log.ents, s.term, s.log.committed, s.term);
      h' := AcknowledgeGood(s, h, m.from, s.log.committed);
    } else if MatchTerm(s.log, m.index, m.logTerm) {
      h' := AcceptAppendGood(s, h, m);
    } else {
      h' := h;
      SendGood(s, h, EMPTY_MESSAGE.(to := m.from, kind := MsgAppResp, index := m.index, reject := true,
                                    rejectHint := s.log.Last()));
    }
  }

  lemma AppendIsContiguous(m: Message, h: Hist)
    requires HistInv(h) && AppendMsgInv(m, h)
    ensures Contiguous(m.entries, m.index + 1)
  {
    var lead := h.logs[m.term];
    assert LeaderLogOk(h, m.term);
    forall k | 0 <= k < |m.entries| ensures m.entries[k].index == m.index + 1 + k {
      assert EntryOk(h.logs, lead, m.index + k);
      assert m.entries[k] == lead[m.index + k];
    }
  }

  /** handle_heartbeat never hits a fatal check: the commit index it carries was acknowledged. */
  lemma HandleHeartbeatGood(s: Node, h: Hist, m: Message)
    requires Good(s, h) && s.role == Follower
    requires MsgInv(m, h) && m.kind == MsgHeartbeat && m.term == s.term && m.to == s.id
    ensures HandleHeartbeat(s, m).Ok? && Good(HandleHeartbeat(s, m).value, h)
  {
    assert HeartbeatMsgInv(m, h);
    HeartbeatCommit(s.log, s.id, s.term, h, m.commit);
    var l := CommitTo(s.log, m.commit).value;
    FollowedGood(s, h, l);
    SendGood(s.(log := l), h, EMPTY_MESSAGE.(to := m.from, kind := MsgHeartbeatResp));
  }

  /** A commit index that was acknowledged in the current term is inside the log and committed. */
  lemma HeartbeatCommit(log: Log, id: nat, term: nat, h: Hist, commit: nat)
    requires NodeLogInv(log, term, h) && NodeAckInv(id, term, log.ents, h)
    requires term in h.logs && commit <= Ack(h, id, term) && CommitOk(h, h.logs[term], term, commit)
    requires log.base == 0
    ensures CommitTo(log, commit).Ok? && NodeLogInv(CommitTo(log, commit).value, term, h)
  {
    if commit > log.committed {
      assert Kept(h.logs, term, commit, log.ents, term + 1);
      assert Agree(log.ents, h.logs[term], commit);
      CommitOkLonger(h, h.logs[term], log.ents, term, term, commit);
    }
  }
}
