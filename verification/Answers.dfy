/** What a node answers: each handler of raft.cpp against the rule it follows, stated on the messages it sends
    and the state it is left in. */
module Answers {
  import opened Proto
  import opened LogSpec
  import opened ProgressSpec
  import opened RaftSpec
  import opened Quorum
  import opened History
  import opened Leadership
  import opened Steps
  import opened Flow
  import opened Ledger

  // ---------------------------------------------------------------- vote requests

  /** The order of last positions: by term, then by index. */
  predicate Below(term: nat, index: nat, otherTerm: nat, otherIndex: nat) {
    term < otherTerm || (term == otherTerm && index < otherIndex)
  }

  /** The requested position is not below the voter's own last one. */
  predicate Reaches(m: Message, l: Log) {
    !Below(m.logTerm, m.index, l.LastTerm(), l.Last())
  }

  /** Of two logs at least one is up to date for the other; both are exactly when their last positions are
      the same. */
  lemma OneIsUpToDate(a: Log, b: Log)
    ensures IsUpToDate(a, b.Last(), b.LastTerm()) || IsUpToDate(b, a.Last(), a.LastTerm())
    ensures IsUpToDate(a, b.Last(), b.LastTerm()) && IsUpToDate(b, a.Last(), a.LastTerm())
            <==> a.LastTerm() == b.LastTerm() && a.Last() == b.Last()
  {
  }

  function VoteAnswer(s: Node, m: Message, granted: bool): Message {
    EMPTY_MESSAGE.(kind := if m.kind == MsgVote then MsgVoteResp else MsgPreVoteResp, to := m.from, from := s.id,
                   term := if granted then m.term else s.term, reject := !granted)
  }

  /** A voter that has neither voted in the term nor heard of its leader grants exactly the requests that
      reach its own last position, and so does one that has voted for the same candidate before. */
  lemma FreeVoterAnswers(s: Node, m: Message)
    requires m.kind == MsgVote && m.term == s.term >= 1 && (s.vote == m.from || (s.vote == 0 && s.lead == 0))
    ensures HandleVote(s, m) ==
            Ok(s.(vote := if Reaches(m, s.log) then m.from else s.vote, msgs := s.msgs + {VoteAnswer(s, m, Reaches(m, s.log))}))
  {
  }

  /** One that has voted for another, or follows a leader, refuses whatever the logs are. */
  lemma BoundVoterRefuses(s: Node, m: Message)
    requires m.kind == MsgVote && m.term == s.term >= 1 && s.vote != m.from && (s.vote != 0 || s.lead != 0)
    ensures HandleVote(s, m) == Ok(s.(msgs := s.msgs + {VoteAnswer(s, m, false)}))
  {
  }

  /** A request of a later term is answered as a free voter of that term does, unless the lease holds it
      off. */
  lemma LaterVoteRequest(cfg: Config, s: Node, m: Message, recent: bool)
    requires m.kind == MsgVote && m.term > s.term && m.from != 0
    ensures MessageWellFormed(m)
    ensures var r := Step(cfg, s, m, recent);
            if cfg.checkQuorum && s.lead != 0 && recent then r == Ok(s)
            else
              && r.Ok? && r.value.term == m.term && r.value.role == Follower && r.value.lead == 0 && r.value.log == s.log
              && r.value.vote == (if Reaches(m, s.log) then m.from else 0)
              && r.value.msgs == s.msgs + {VoteAnswer(r.value, m, Reaches(m, s.log))}
  {
    hide HandleVote, VoteAnswer, Reaches;
    var s1 := BecomeFollower(cfg, s, m.term, 0);
    FreeVoterAnswers(s1, m);
    SameAnswerer(s, s1, m);
  }

  lemma SameAnswerer(s: Node, s1: Node, m: Message)
    requires s1.id == s.id && s1.term == m.term && s1.log == s.log
    ensures forall r: Node, g: bool :: r.id == s.id && r.term == m.term ==> VoteAnswer(r, m, g) == VoteAnswer(s1, m, g)
    ensures Reaches(m, s1.log) == Reaches(m, s.log)
  {
  }

  /** A pre-vote request of a later term is granted by the same measure, whatever the voter has done, and
      changes nothing but the messages. */
  lemma PreVoteAnswers(s: Node, m: Message)
    requires m.kind == MsgPreVote && m.term > s.term >= 1
    ensures HandleVote(s, m) == Ok(s.(msgs := s.msgs + {VoteAnswer(s, m, Reaches(m, s.log))}))
  {
  }

  /** Among any voters there is one that no other's log keeps from a vote. */
  lemma {:induction false} FarthestLog(nodes: map<nat, Node>, some: set<nat>) returns (c: nat)
    requires some != {} && some <= nodes.Keys
    ensures c in some
    ensures forall v :: v in some ==>
              !Below(nodes[c].log.LastTerm(), nodes[c].log.Last(), nodes[v].log.LastTerm(), nodes[v].log.Last())
    decreases some
  {
    var v :| v in some;
    if some == {v} {
      c := v;
    } else {
      var d := FarthestLog(nodes, some - {v});
      c := if Below(nodes[d].log.LastTerm(), nodes[d].log.Last(), nodes[v].log.LastTerm(), nodes[v].log.Last()) then v else d;
      forall w | w in some
        ensures !Below(nodes[c].log.LastTerm(), nodes[c].log.Last(), nodes[w].log.LastTerm(), nodes[w].log.Last())
      {
        assert w == v || w in some - {v};
      }
    }
  }

  // ---------------------------------------------------------------- vote answers

  /** Those that answered, and how, once this answer is recorded; a peer's first answer stands. */
  function Granting(s: Node, m: Message): set<nat> {
    (set v | v in s.votes && s.votes[v]) + if m.from !in s.votes && !m.reject then {m.from} else {}
  }

  function Refusing(s: Node, m: Message): set<nat> {
    (set v | v in s.votes && !s.votes[v]) + if m.from !in s.votes && m.reject then {m.from} else {}
  }

  lemma Tally(s: Node, m: Message)
    ensures var s1 := Poll(s, m.from, !m.reject);
            && GrantedBy(s1.votes) == Granting(s, m) && |s1.votes| - |GrantedBy(s1.votes)| == |Refusing(s, m)|
            && s1 == s.(votes := s1.votes) && (forall v :: v in s.votes ==> v in s1.votes && s1.votes[v] == s.votes[v])
  {
    hide Granting, Refusing;
    TallySets(s, m);
    TwoSides(Poll(s, m.from, !m.reject).votes);
  }

  lemma TallySets(s: Node, m: Message)
    ensures var votes := Poll(s, m.from, !m.reject).votes;
            Granting(s, m) == GrantedBy(votes) && Refusing(s, m) == RefusedBy(votes)
  {
    var votes := Poll(s, m.from, !m.reject).votes;
    assert forall v :: v in Granting(s, m) <==> v in votes && votes[v];
    assert forall v :: v in Refusing(s, m) <==> v in votes && !votes[v];
  }

  function RefusedBy(votes: map<nat, bool>): set<nat> {
    set v | v in votes && !votes[v]
  }

  lemma TwoSides(votes: map<nat, bool>)
    ensures |votes| == |GrantedBy(votes)| + |RefusedBy(votes)|
  {
    assert votes.Keys == GrantedBy(votes) + RefusedBy(votes);
    assert |votes| == |votes.Keys|;
  }

  /** A vote answer below both quorums is only recorded; a quorum of refusals makes the node a follower of its
      term without a leader; a quorum of grants moves it on: a pre-candidate to a term of its own, a candidate
      to leading. */
  lemma VoteRespAnswer(cfg: Config, s: Node, m: Message)
    requires IsCandidate(s) && HandleVoteResp(cfg, s, m).Ok?
    ensures var r, q := HandleVoteResp(cfg, s, m).value, QuorumSize(|s.prs|);
            if |Granting(s, m)| == q then r.term == (if s.role == PreCandidate then s.term + 1 else s.term) && r.role in {Candidate, Leader}
                && (s.role == Candidate ==> r.role == Leader)
            else if |Refusing(s, m)| == q then
              r.role == Follower && r.term == s.term && r.lead == 0 && r.vote == s.vote && r.log == s.log && r.msgs == s.msgs
            else r == s.(votes := r.votes) && Granting(s, m) == GrantedBy(r.votes) && Refusing(s, m) == RefusedBy(r.votes)
  {
    hide BecomeLeader, Campaign, BcastAppend, Granting, Refusing;
    Tally(s, m);
    TallySets(s, m);
    var s1 := Poll(s, m.from, !m.reject);
    if |Granting(s, m)| == QuorumSize(|s.prs|) {
      if s.role == PreCandidate {
        CampaignTerm(cfg, s1);
      } else {
        LeadersLead(cfg, s1);
      }
    }
  }

  lemma CampaignTerm(cfg: Config, s: Node)
    requires s.role != Leader && Campaign(cfg, s).Ok?
    ensures Campaign(cfg, s).value.term == s.term + 1 && Campaign(cfg, s).value.role in {Candidate, Leader}
  {
    hide Append, StampEntries, QuorumIndex, MaybeUpdate, WithinLimit;
  }

  // ---------------------------------------------------------------- appends and their answers at a follower

  function AppResp(s: Node, to: nat, index: nat): Message {
    EMPTY_MESSAGE.(kind := MsgAppResp, to := to, from := s.id, term := s.term, index := index)
  }

  /** The log and the commit cursor an accepted append leaves: every given entry is there by index and term,
      nothing before the first conflict changed, nothing at all without one, and the cursor never falls. */
  ghost predicate Took(l: Log, l': Log, m: Message) {
    && (forall k :: 0 <= k < |m.entries| ==> l'.TermAt(m.index + 1 + k) == m.entries[k].term)
    && l'.committed == Max(l.committed, Min(m.commit, m.index + |m.entries|)) && l'.applied == l.applied && l'.base == l.base
    && (if forall k :: 0 <= k < |m.entries| ==> l.TermAt(m.index + 1 + k) == m.entries[k].term then l'.ents == l.ents
        else l'.Last() == m.index + |m.entries| && Agree(l'.ents, l.ents, m.index))
  }

  /** What handle_append_entries answers: behind the commit cursor it reports the cursor; at a position it does
      not hold it refuses, with its last index as the hint; otherwise it takes the entries and reports the last
      of them. */
  lemma AppendAnswer(s: Node, m: Message)
    requires CursorsOk(s.log) && Contiguous(m.entries, m.index + 1) && m.kind == MsgApp
    requires forall k :: 0 <= k < |m.entries| ==> m.entries[k].term >= 1
    ensures var r := HandleAppend(s, m);
            if m.index < s.log.committed then r == Ok(s.(msgs := s.msgs + {AppResp(s, m.from, s.log.committed)}))
            else if s.log.TermAt(m.index) != m.logTerm then
              r == Ok(s.(msgs := s.msgs + {AppResp(s, m.from, m.index).(reject := true, rejectHint := s.log.Last())}))
            else m.index <= s.log.Last() ==>
              && r.Ok? && Took(s.log, r.value.log, m)
              && r.value == s.(log := r.value.log, msgs := s.msgs + {AppResp(s, m.from, m.index + |m.entries|)})
  {
    hide MaybeAppend, FindConflict, Merged, Took;
    if m.index >= s.log.committed && s.log.TermAt(m.index) == m.logTerm && m.index <= s.log.Last() {
      MaybeAppendContract(s.log, m.index, m.logTerm, m.commit, m.entries);
      ConflictReachable(s.log, m.index, m.entries);
      MergedIsTaken(s.log, m);
    }
    if m.index >= s.log.committed && s.log.TermAt(m.index) != m.logTerm {
      MaybeAppendCases(s.log, m.index, m.logTerm, m.commit, m.entries);
    }
  }

  lemma MergedIsTaken(l: Log, m: Message)
    requires l.base == 0 && m.index <= l.Last() && Contiguous(m.entries, m.index + 1)
    requires forall k :: 0 <= k < |m.entries| ==> m.entries[k].term >= 1
    ensures Took(l, AtCommit(Merged(l, m.index, m.entries), Max(l.committed, Min(m.commit, m.index + |m.entries|))), m)
  {
    hide FindConflict, Merged;
    var es := m.entries;
    var l' := Merged(l, m.index, es);
    forall k | 0 <= k < |es| ensures l'.TermAt(m.index + 1 + k) == es[k].term {
      MergedHoldsGiven(l, m.index, es, k);
    }
    FindConflictMeaning(l, es, m.index + 1);
    if FindConflict(l, es) == 0 {
      MergedWithoutConflict(l, m.index, es);
    } else {
      MergedShape(l, m.index, es);
      KeptBelowIndex(l, m);
    }
  }

  lemma KeptBelowIndex(l: Log, m: Message)
    requires l.base == 0 && m.index <= l.Last() && Contiguous(m.entries, m.index + 1)
    requires forall k :: 0 <= k < |m.entries| ==> m.entries[k].term >= 1
    requires FindConflict(l, m.entries) != 0
    ensures Agree(Merged(l, m.index, m.entries).ents, l.ents, m.index)
  {
    hide FindConflict, Merged;
    MergedAtConflict(l, m.index, m.entries);
  }

  /** A heartbeat raises the commit cursor to what it carries, if the log reaches so far, and is answered. */
  lemma HeartbeatAnswer(s: Node, m: Message)
    requires m.commit <= s.log.Last()
    ensures HandleHeartbeat(s, m) ==
            Ok(s.(log := AtCommit(s.log, Max(s.log.committed, m.commit)),
                  msgs := s.msgs + {EMPTY_MESSAGE.(kind := MsgHeartbeatResp, to := m.from, from := s.id, term := s.term)}))
  {
  }

  // ---------------------------------------------------------------- messages of another term

  /** A message of an older term changes nothing; with quorum checks or pre-vote its leader is told of the newer
      term, and a pre-candidate always is. */
  lemma OlderTermAnswer(cfg: Config, s: Node, m: Message, recent: bool)
    requires 0 < m.term < s.term && MessageWellFormed(m)
    ensures Step(cfg, s, m, recent) ==
            Ok(if m.kind in {MsgApp, MsgHeartbeat} && (cfg.checkQuorum || cfg.preVote) then s.(msgs := s.msgs + {AppResp(s, m.from, 0)})
               else if m.kind == MsgPreVote then s.(msgs := s.msgs + {VoteAnswer(s, m, false)})
               else s)
  {
    hide Dispatch, BecomeFollower;
  }

  /** A message of a later term makes the node a follower of it, with a clean vote and, if only a leader sends
      such messages, under that leader; an answer does nothing more. */
  lemma LaterTermAnswer(cfg: Config, s: Node, m: Message, recent: bool)
    requires m.term > s.term && MessageWellFormed(m)
    requires m.kind in {MsgAppResp, MsgHeartbeatResp, MsgVoteResp} || (m.kind == MsgPreVoteResp && m.reject)
    ensures var r := Step(cfg, s, m, recent);
            && r.Ok? && r.value.term == m.term && r.value.role == Follower && r.value.vote == 0 && r.value.lead == 0
            && r.value.log == s.log && r.value.msgs == s.msgs && r.value.id == s.id
            && r.value.votes == map[] && r.value.pendingConf == 0 && r.value.uncommitted == 0
  {
  }

  /** An append or heartbeat of the node's term or a later one, at anyone but a leader, makes its sender the
      leader the node follows, in that term, and is answered as there. */
  lemma LeaderIsFollowed(cfg: Config, s: Node, m: Message, recent: bool)
    requires m.kind in {MsgApp, MsgHeartbeat} && MessageWellFormed(m) && m.term >= s.term && m.term >= 1
    requires s.role != Leader || m.term > s.term
    ensures m.kind == MsgApp ==> Contiguous(m.entries, m.index + 1)
    ensures var s1 := if m.term == s.term && s.role == Follower then s.(lead := m.from) else BecomeFollower(cfg, s, m.term, m.from);
            && s1.id == s.id && s1.term == m.term && s1.role == Follower && s1.lead == m.from && s1.log == s.log && s1.msgs == s.msgs
            && s1.vote == (if m.term == s.term then s.vote else 0)
            && Step(cfg, s, m, recent) == (if m.kind == MsgApp then HandleAppend(s1, m) else HandleHeartbeat(s1, m))
  {
    hide HandleAppend, HandleHeartbeat;
    var s1 := BecomeFollower(cfg, s, m.term, m.from);
    assert s1.(lead := m.from) == s1;
  }

  // ---------------------------------------------------------------- what goes to a peer

  /** The append for peer `to` from position `index` on: a stretch of the log, as long as the size limit allows
      but at least one entry if there is one, with the commit cursor. */
  ghost predicate IsAppend(cfg: Config, s: Node, to: nat, index: nat, m: Message) {
    var n := |m.entries|;
    && index + n <= |s.log.ents|
    && m == EMPTY_MESSAGE.(kind := MsgApp, to := to, from := s.id, term := s.term, index := index, logTerm := s.log.TermAt(index),
                           entries := s.log.ents[index..index + n], commit := s.log.committed)
    && (index < |s.log.ents| ==> n > 0) && (n > 1 ==> TotalSize(m.entries) <= cfg.maxMsgSize)
    && (index + n < |s.log.ents| ==> TotalSize(s.log.ents[index..index + n + 1]) > cfg.maxMsgSize)
  }

  /** Nothing goes to a paused prober, a full window or a peer waiting for a snapshot. */
  predicate Silent(p: Progress) {
    (p.state == Probe && p.paused) || (p.state == Replicate && |p.inflights| == p.window) || p.state == Snapshot
  }

  /** The peer's progress once `n` entries from `next` on have been sent. */
  function AfterSending(p: Progress, n: nat): Progress {
    if n == 0 then p
    else if p.state == Replicate then p.(next := p.next + n, inflights := p.inflights + [p.next + n - 1])
    else p.(paused := true)
  }

  lemma StretchIsAppend(cfg: Config, s: Node, next: Position)
    requires next <= s.log.Last() + 1
    ensures var es := EntriesFrom(s.log, next, cfg.maxMsgSize);
            var n := |es|;
            && next - 1 + n <= |s.log.ents| && es == s.log.ents[next - 1..next - 1 + n]
            && (next <= |s.log.ents| ==> n > 0) && (n > 1 ==> TotalSize(es) <= cfg.maxMsgSize)
            && (next - 1 + n < |s.log.ents| ==> TotalSize(s.log.ents[next - 1..next + n]) > cfg.maxMsgSize)
            && (n > 0 ==> es[n - 1].index == next - 1 + n)
  {
    hide LimitSize, TotalSize;
    EntriesAreStretch(s, next, cfg.maxMsgSize);
    if next <= s.log.Last() {
      var all := s.log.ents[next - 1..s.log.Last()];
      LimitSizeIsLongest(all, cfg.maxMsgSize);
      var n := |EntriesFrom(s.log, next, cfg.maxMsgSize)|;
      if n < |all| {
        assert all[..n + 1] == s.log.ents[next - 1..next + n];
      }
    }
  }

  /** What maybe_send_append sends to one peer, and the peer's progress after it. */
  lemma AppendToPeer(cfg: Config, s: Node, to: nat, p: Progress, sendIfEmpty: bool)
    requires p.next <= s.log.Last() + 1
    ensures var (p', m) := AppendTo(cfg, s, to, p, sendIfEmpty);
            && (m.Some? <==> !Silent(p) && (sendIfEmpty || p.next <= s.log.Last()))
            && (m.None? ==> p' == p)
            && (m.Some? ==> IsAppend(cfg, s, to, p.next - 1, m.value) && p' == AfterSending(p, |m.value.entries|))
  {
    hide EntriesFrom, TotalSize;
    StretchIsAppend(cfg, s, p.next);
    var es := EntriesFrom(s.log, p.next, cfg.maxMsgSize);
    assert p.next > s.log.Last() ==> es == [] by { NothingPastEnd(cfg, s, p.next); }
  }

  lemma NothingPastEnd(cfg: Config, s: Node, next: Position)
    ensures next > s.log.Last() ==> EntriesFrom(s.log, next, cfg.maxMsgSize) == []
  {
  }

  /** bcast_append serves every other peer by the same rule, and nobody else. */
  lemma BroadcastToPeers(cfg: Config, s: Node)
    requires forall v :: v in s.prs ==> s.prs[v].next <= s.log.Last() + 1
    ensures var r := BcastAppend(cfg, s);
            && r == s.(prs := r.prs, msgs := r.msgs) && r.prs.Keys == s.prs.Keys && s.msgs <= r.msgs
            && (forall v :: v in s.prs && v != s.id && !Silent(s.prs[v]) ==>
                  exists m :: m in r.msgs && IsAppend(cfg, s, v, s.prs[v].next - 1, m) && r.prs[v] == AfterSending(s.prs[v], |m.entries|))
            && (forall v :: v in s.prs && (v == s.id || Silent(s.prs[v])) ==> r.prs[v] == s.prs[v])
            && (forall m :: m in r.msgs && m !in s.msgs ==> m.kind == MsgApp && m.to in s.prs && m.to != s.id && !Silent(s.prs[m.to]))
  {
    hide AppendTo, IsAppend, AfterSending, Silent;
    var r := BcastAppend(cfg, s);
    forall v | v in s.prs && v != s.id && !Silent(s.prs[v])
      ensures exists m :: m in r.msgs && IsAppend(cfg, s, v, s.prs[v].next - 1, m) && r.prs[v] == AfterSending(s.prs[v], |m.entries|)
    {
      AppendToPeer(cfg, s, v, s.prs[v], true);
      var m := AppendTo(cfg, s, v, s.prs[v], true).1.value;
      assert m in r.msgs;
    }
    forall v | v in s.prs && (v == s.id || Silent(s.prs[v])) ensures r.prs[v] == s.prs[v] {
      AppendToPeer(cfg, s, v, s.prs[v], true);
    }
    forall m | m in r.msgs && m !in s.msgs ensures m.kind == MsgApp && m.to in s.prs && m.to != s.id && !Silent(s.prs[m.to]) {
      var v :| v in s.prs && v != s.id && AppendTo(cfg, s, v, s.prs[v], true).1 == Some(m);
      AppendToPeer(cfg, s, v, s.prs[v], true);
      AppendAddress(cfg, s, v, s.prs[v].next - 1, m);
    }
  }

  lemma AppendAddress(cfg: Config, s: Node, to: nat, index: nat, m: Message)
    requires IsAppend(cfg, s, to, index, m)
    ensures m.kind == MsgApp && m.to == to
  {
  }

  /** bcast_heartbeat: to every other peer, with no more than it is known to hold. */
  lemma HeartbeatsToPeers(s: Node)
    ensures BcastHeartbeat(s) == s.(msgs := s.msgs + set v | v in s.prs && v != s.id :: HeartbeatFor(s, v))
  {
    assert forall v :: v in s.prs ==> Heartbeat(s, v) == HeartbeatFor(s, v);
  }

  function HeartbeatFor(s: Node, v: nat): Message
    requires v in s.prs
  {
    EMPTY_MESSAGE.(kind := MsgHeartbeat, to := v, from := s.id, term := s.term, commit := Min(s.prs[v].matched, s.log.committed))
  }

  // ---------------------------------------------------------------- append answers at the leader

  /** Only the activity mark of the peer changed. */
  predicate OnlyMarked(s: Node, r: Node, v: nat) {
    v in s.prs && r == s.(prs := s.prs[v := s.prs[v].(recentActive := true)])
  }

  /** The peer probes from `next` on: its progress is otherwise fresh, and the append from there has gone out. */
  ghost predicate ProbedFrom(cfg: Config, s: Node, r: Node, v: nat, next: Position, m: Message) {
    && v in s.prs && IsAppend(cfg, s, v, next - 1, m)
    && v in r.prs && r == s.(prs := s.prs[v := r.prs[v]], msgs := s.msgs + {m})
    && r.prs[v].state == Probe && r.prs[v].next == next && r.prs[v].matched == s.prs[v].matched
    && r.prs[v].recentActive && r.prs[v].inflights == [] && r.prs[v].window == s.prs[v].window
    && r.prs[v].paused == (m.entries != [])
  }

  lemma SendToProber(cfg: Config, s: Node, v: nat) returns (m: Message)
    requires v in s.prs && s.prs[v].state == Probe && !s.prs[v].paused && s.prs[v].inflights == [] && s.prs[v].recentActive
    requires s.prs[v].next <= s.log.Last() + 1
    ensures ProbedFrom(cfg, s, SendAppend(cfg, s, v), v, s.prs[v].next, m)
  {
    hide AppendTo, IsAppend;
    AppendToPeer(cfg, s, v, s.prs[v], true);
    m := AppendTo(cfg, s, v, s.prs[v], true).1.value;
  }

  /** ProbedFrom does not depend on what the peer's progress was before, except its match. */
  lemma ProbedAgain(cfg: Config, s: Node, s1: Node, r: Node, v: nat, next: Position, m: Message)
    requires v in s.prs && ProbedFrom(cfg, s1, r, v, next, m)
    requires s1 == s.(prs := s.prs[v := s1.prs[v]]) && s1.prs[v].matched == s.prs[v].matched && s1.prs[v].window == s.prs[v].window
    ensures ProbedFrom(cfg, s, r, v, next, m)
  {
    assert s1.prs[v := r.prs[v]] == s.prs[v := r.prs[v]];
  }

  /** A rejection while replicating: above the match the peer is probed anew, right after its match; at or below
      it the rejection is late and only marks the peer active. */
  lemma RejectedWhileReplicating(cfg: Config, s: Node, m: Message) returns (x: Message)
    requires m.from in s.prs && m.reject && s.prs[m.from].state == Replicate && s.prs[m.from].matched <= s.log.Last()
    ensures HandleAppResp(cfg, s, m).Ok?
    ensures var r, p := HandleAppResp(cfg, s, m).value, s.prs[m.from];
            if m.index <= p.matched then OnlyMarked(s, r, m.from)
            else ProbedFrom(cfg, s, r, m.from, p.matched + 1, x)
  {
    hide SendAppend, ProbedFrom;
    var p := s.prs[m.from];
    x := EMPTY_MESSAGE;
    if m.index > p.matched {
      var p2 := BecomeProbe(p.(recentActive := true, next := p.matched + 1));
      var s1 := s.(prs := s.prs[m.from := p2]);
      x := SendToProber(cfg, s1, m.from);
      ProbedAgain(cfg, s, s1, SendAppend(cfg, s1, m.from), m.from, p.matched + 1, x);
      assert HandleAppResp(cfg, s, m) == Ok(SendAppend(cfg, s1, m.from));
    }
  }

  /** A rejection while probing: the one of the outstanding probe moves the next one back, to what the follower
      says it holds or right before the refused position, and any other only marks the peer active. */
  lemma RejectedWhileProbing(cfg: Config, s: Node, m: Message) returns (x: Message)
    requires m.from in s.prs && m.reject && s.prs[m.from].state == Probe && s.prs[m.from].inflights == []
    requires s.prs[m.from].next <= s.log.Last() + 1
    ensures HandleAppResp(cfg, s, m).Ok?
    ensures var r, p := HandleAppResp(cfg, s, m).value, s.prs[m.from];
            if m.index != p.next - 1 then OnlyMarked(s, r, m.from)
            else ProbedFrom(cfg, s, r, m.from, Max(1, Min(m.index, m.rejectHint + 1)), x)
  {
    hide SendAppend, ProbedFrom;
    var p := s.prs[m.from];
    x := EMPTY_MESSAGE;
    if m.index == p.next - 1 {
      var next := Max(1, Min(m.index, m.rejectHint + 1));
      var p2 := p.(recentActive := true, next := next, paused := false);
      var s1 := s.(prs := s.prs[m.from := p2]);
      x := SendToProber(cfg, s1, m.from);
      ProbedAgain(cfg, s, s1, SendAppend(cfg, s1, m.from), m.from, next, x);
      assert HandleAppResp(cfg, s, m) == Ok(SendAppend(cfg, s1, m.from));
    }
  }

  // ---------------------------------------------------------------- acknowledgements

  /** Sending appends: only progress positions, windows and pauses move, and appends go out. */
  ghost predicate SentOn(s: Node, r: Node) {
    && r == s.(prs := r.prs, msgs := r.msgs) && r.prs.Keys == s.prs.Keys && s.msgs <= r.msgs
    && (forall m :: m in r.msgs && m !in s.msgs ==> m.kind == MsgApp && m.commit == s.log.committed)
    && (forall v {:trigger r.prs[v]} :: v in s.prs ==>
          r.prs[v].matched == s.prs[v].matched && r.prs[v].recentActive == s.prs[v].recentActive && r.prs[v].state == s.prs[v].state
          && r.prs[v].window == s.prs[v].window && s.prs[v].next <= r.prs[v].next <= Max(s.prs[v].next, s.log.Last() + 1))
  }

  lemma SentOnTrans(a: Node, b: Node, c: Node)
    requires SentOn(a, b) && SentOn(b, c)
    ensures SentOn(a, c)
  {
    forall v | v in a.prs
      ensures c.prs[v].matched == a.prs[v].matched && c.prs[v].recentActive == a.prs[v].recentActive && c.prs[v].state == a.prs[v].state
      ensures c.prs[v].window == a.prs[v].window
      ensures a.prs[v].next <= c.prs[v].next <= Max(a.prs[v].next, a.log.Last() + 1)
    {
      assert b.prs[v].matched == a.prs[v].matched;
    }
  }

  lemma SentOnRefl(s: Node)
    ensures SentOn(s, s)
  {
  }

  lemma AppendToSent(cfg: Config, s: Node, to: nat, p: Progress, sendIfEmpty: bool)
    ensures var (p', m) := AppendTo(cfg, s, to, p, sendIfEmpty);
            && p'.matched == p.matched && p'.recentActive == p.recentActive && p'.state == p.state && p'.window == p.window
            && p.next <= p'.next <= Max(p.next, s.log.Last() + 1)
            && (m.Some? ==> m.value.kind == MsgApp && m.value.to == to && m.value.commit == s.log.committed)
            && (sendIfEmpty && !Silent(p) ==> m.Some?)
  {
    hide TotalSize, IsAppend;
    if p.next <= s.log.Last() + 1 {
      StretchIsAppend(cfg, s, p.next);
    } else {
      NothingPastEnd(cfg, s, p.next);
    }
    hide EntriesFrom;
  }

  lemma MaybeSendSentOn(cfg: Config, s: Node, v: nat, sendIfEmpty: bool)
    requires v in s.prs
    ensures SentOn(s, MaybeSendAppend(cfg, s, v, sendIfEmpty).0)
  {
    hide AppendTo;
    AppendToSent(cfg, s, v, s.prs[v], sendIfEmpty);
  }

  lemma BcastSentOn(cfg: Config, s: Node)
    ensures SentOn(s, BcastAppend(cfg, s))
  {
    hide AppendTo;
    forall v | v in s.prs
      ensures var (p, m) := AppendTo(cfg, s, v, s.prs[v], true);
              && p.matched == s.prs[v].matched && p.recentActive == s.prs[v].recentActive && p.state == s.prs[v].state && p.window == s.prs[v].window
              && s.prs[v].next <= p.next <= Max(s.prs[v].next, s.log.Last() + 1)
              && (m.Some? ==> m.value.kind == MsgApp && m.value.commit == s.log.committed)
    {
      AppendToSent(cfg, s, v, s.prs[v], true);
    }
  }

  /** An append with the leader's commit cursor is on its way to the peer. */
  ghost predicate Told(r: Node, v: nat) {
    exists m :: m in r.msgs && m.kind == MsgApp && m.to == v && m.commit == r.log.committed
  }

  lemma SendTells(cfg: Config, s: Node, v: nat)
    requires v in s.prs && !Silent(s.prs[v])
    ensures Told(SendAppend(cfg, s, v), v)
  {
    hide AppendTo, Silent;
    AppendToSent(cfg, s, v, s.prs[v], true);
    assert AppendTo(cfg, s, v, s.prs[v], true).1.value in SendAppend(cfg, s, v).msgs;
  }

  lemma BcastTells(cfg: Config, s: Node, v: nat)
    requires v in s.prs && v != s.id && !Silent(s.prs[v])
    ensures Told(BcastAppend(cfg, s), v)
  {
    hide AppendTo, Silent;
    AppendToSent(cfg, s, v, s.prs[v], true);
    assert AppendTo(cfg, s, v, s.prs[v], true).1.value in BcastAppend(cfg, s).msgs;
  }

  lemma StillTold(s: Node, r: Node, v: nat)
    requires Told(s, v) && SentOn(s, r)
    ensures Told(r, v)
  {
  }

  /** The send loop goes on until the peer takes nothing more or has been sent everything. */
  lemma {:induction false} SendAllEnds(cfg: Config, s: Node, v: nat)
    requires v in s.prs && s.prs[v].next <= s.log.Last() + 1
    ensures var r := SendAll(cfg, s, v);
            SentOn(s, r) && (Silent(r.prs[v]) || r.prs[v].next == s.log.Last() + 1)
    decreases SendBudget(s, v)
  {
    hide SentOn, SendBudget, MaybeSendAppend, Silent;
    SendShrinksBudget(cfg, s, v);
    MaybeSendSentOn(cfg, s, v, false);
    var (s1, sent) := MaybeSendAppend(cfg, s, v, false);
    SentOnNext(s, s1, v);
    if sent {
      SendAllEnds(cfg, s1, v);
      SentOnTrans(s, s1, SendAll(cfg, s1, v));
    } else {
      NothingMoreToSend(cfg, s, v);
    }
  }

  lemma SentOnNext(s: Node, r: Node, v: nat)
    requires SentOn(s, r) && v in s.prs && s.prs[v].next <= s.log.Last() + 1
    ensures v in r.prs && r.log == s.log && r.prs[v].next <= s.log.Last() + 1
  {
  }

  lemma NothingMoreToSend(cfg: Config, s: Node, v: nat)
    requires v in s.prs && s.prs[v].next <= s.log.Last() + 1 && !MaybeSendAppend(cfg, s, v, false).1
    ensures var r := MaybeSendAppend(cfg, s, v, false).0;
            r.prs[v] == s.prs[v] && (Silent(s.prs[v]) || s.prs[v].next == s.log.Last() + 1)
  {
    hide AppendTo, Silent, IsAppend;
    AppendToPeer(cfg, s, v, s.prs[v], false);
    var (p, m) := AppendTo(cfg, s, v, s.prs[v], false);
    assert m.None? && p == s.prs[v];
  }

  /** The commit cursor a leader with these matches ends up with: the majority's index if it is newer and of the
      leader's term. */
  ghost predicate CommitsBy(l: Log, term: nat, matches: map<nat, nat>, committed: nat) {
    exists x: nat :: IsQuorumIndex(matches, x) && committed == if x > l.committed && l.TermAt(x) == term then x else l.committed
  }

  lemma CommitAttempt(s: Node)
    requires CursorsOk(s.log) && s.term >= 1
    ensures AdvanceCommit(s).Ok?
    ensures var (r, changed) := AdvanceCommit(s).value;
            && r == s.(log := AtCommit(s.log, r.log.committed)) && s.log.committed <= r.log.committed <= s.log.Last()
            && changed == (r.log.committed > s.log.committed)
            && CommitsBy(s.log, s.term, Matches(s.prs), r.log.committed)
  {
    assert s.id in Matches(s.prs);
    var x := QuorumIndex(Matches(s.prs));
    assert IsQuorumIndex(Matches(s.prs), x);
  }

  /** Freed up to `index` the peer has room for another append. */
  ghost predicate FreedBy(p: Progress, index: nat) {
    p.window > 0 && (p.state != Probe ==> FlowOk(p) && (p.inflights == [] || p.inflights[0] <= index))
  }

  /** An acknowledgement that tells something new: the peer's match rises to it, a prober replicates from now on
      and a window is freed up to it; the commit cursor follows the matches; the peer learns of a new cursor at
      once, as it does when it had been paused; and it is sent what its window takes. */
  lemma Acknowledged(cfg: Config, s: Node, m: Message)
    requires m.from in s.prs && !m.reject && s.prs[m.from].matched < m.index <= s.log.Last() && m.from != s.id
    requires s.prs[m.from].state != Snapshot && s.prs[m.from].next <= s.log.Last() + 1
    requires CursorsOk(s.log) && s.term >= 1
    ensures HandleAppResp(cfg, s, m).Ok?
    ensures var r := HandleAppResp(cfg, s, m).value;
            && r.log == AtCommit(s.log, r.log.committed) && s.log.committed <= r.log.committed
            && CommitsBy(s.log, s.term, Matches(s.prs)[m.from := m.index], r.log.committed)
            && r == s.(log := r.log, prs := r.prs, msgs := r.msgs) && r.prs.Keys == s.prs.Keys
            && r.prs[m.from].matched == m.index && r.prs[m.from].recentActive && r.prs[m.from].state == Replicate
            && (Silent(r.prs[m.from]) || r.prs[m.from].next == s.log.Last() + 1) && m.index < r.prs[m.from].next
            && (forall v {:trigger r.prs[v]} :: v in s.prs && v != m.from ==>
                  r.prs[v].matched == s.prs[v].matched && r.prs[v].recentActive == s.prs[v].recentActive && r.prs[v].state == s.prs[v].state)
            && (forall x :: x in r.msgs && x !in s.msgs ==> x.kind == MsgApp && x.commit == r.log.committed) && s.msgs <= r.msgs
            && (r.log.committed > s.log.committed ==>
                  forall v :: v in s.prs && v != s.id && v != m.from && !Silent(s.prs[v]) ==> Told(r, v))
            && (FreedBy(s.prs[m.from], m.index) && (r.log.committed > s.log.committed || Silent(s.prs[m.from])) ==> Told(r, m.from))
  {
    hide AdvanceCommit, CommitAndSend, SentOn, CommitsBy, Silent, RaisedProgress, MaybeUpdate, Told, FlowOk, FreeTo, IsPaused, FreedBy;
    var p := s.prs[m.from].(recentActive := true);
    var p2 := RaisedProgress(MaybeUpdate(p, m.index).0, m.index);
    var s0 := s.(prs := s.prs[m.from := p2]);
    AcceptedSteps(cfg, s, m);
    RaisedShape(p, m.index);
    assert Matches(s0.prs) == Matches(s.prs)[m.from := m.index];
    var s1 := CommitAndSendDoes(cfg, s0, m.from, IsPaused(p));
    SentOnFacts(s, s0, s1, HandleAppResp(cfg, s, m).value, m.from);
    PausedIsSilent(p, s.prs[m.from]);
    RaisedListens(s.prs[m.from], p2, m.index);
  }

  lemma PausedIsSilent(p: Progress, p0: Progress)
    requires p == p0.(recentActive := true)
    ensures IsPaused(p) == Silent(p0) && (FlowOk(p0) ==> FlowOk(p))
  {
  }

  /** A prober that starts to replicate has an empty window, and one whose first slot is freed a slot left. */
  lemma RaisedListens(p: Progress, q: Progress, index: nat)
    requires q.state == Replicate && q.window == p.window
    requires q.inflights == if p.state == Probe then [] else FreeTo(p.inflights, index)
    ensures FreedBy(p, index) ==> !Silent(q)
  {
    hide FreeTo;
    if FreedBy(p, index) && p.state != Probe {
      assert FlowOk(p);
      FreeToKeepsLarger(p.inflights, index);
    }
  }

  /** The commit attempt and the sending after it. */
  lemma CommitAndSendDoes(cfg: Config, s: Node, to: nat, wasPaused: bool) returns (s1: Node)
    requires to in s.prs && s.prs[to].next <= s.log.Last() + 1 && CursorsOk(s.log) && s.term >= 1
    ensures CommitAndSend(cfg, s, to, wasPaused).Ok?
    ensures s1 == s.(log := AtCommit(s.log, s1.log.committed)) && s.log.committed <= s1.log.committed <= s.log.Last()
    ensures CommitsBy(s.log, s.term, Matches(s.prs), s1.log.committed)
    ensures var r := CommitAndSend(cfg, s, to, wasPaused).value;
            && SentOn(s1, r) && to in r.prs && (Silent(r.prs[to]) || r.prs[to].next == s.log.Last() + 1)
            && (s1.log.committed > s.log.committed ==> forall v :: v in s.prs && v != s.id && !Silent(s.prs[v]) ==> Told(r, v))
            && (wasPaused && to != s.id && !Silent(s.prs[to]) ==> Told(r, to))
  {
    hide AdvanceCommit, BcastAppend, MaybeSendAppend, SendAll, SentOn, CommitsBy, Silent, Told;
    CommitAttempt(s);
    s1 := AdvanceCommit(s).value.0;
    var changed := AdvanceCommit(s).value.1;
    var s2 := if changed then BcastAppend(cfg, s1) else if wasPaused then SendAppend(cfg, s1, to) else s1;
    BcastSentOn(cfg, s1);
    MaybeSendSentOn(cfg, s1, to, true);
    SentOnRefl(s1);
    SentOnNext(s1, s2, to);
    SendAllEnds(cfg, s2, to);
    SentOnTrans(s1, s2, SendAll(cfg, s2, to));
    SentOnNext(s1, SendAll(cfg, s2, to), to);
    if changed {
      forall v | v in s.prs && v != s.id && !Silent(s.prs[v]) ensures Told(SendAll(cfg, s2, to), v) {
        BcastTells(cfg, s1, v);
        StillTold(s2, SendAll(cfg, s2, to), v);
      }
    } else if wasPaused && !Silent(s.prs[to]) {
      SendTells(cfg, s1, to);
      StillTold(s2, SendAll(cfg, s2, to), to);
    }
  }

  lemma RaisedShape(p: Progress, index: nat)
    requires p.matched < index && p.state != Snapshot
    ensures var q := RaisedProgress(MaybeUpdate(p, index).0, index);
            && q.matched == index && q.recentActive == p.recentActive && q.state == Replicate && q.window == p.window
            && q.next == (if p.state == Probe then index + 1 else Max(p.next, index + 1))
            && q.inflights == (if p.state == Probe then [] else FreeTo(p.inflights, index))
  {
    hide FreeTo;
  }

  lemma SentOnFacts(s: Node, s0: Node, s1: Node, r: Node, v: nat)
    requires v in s.prs && v in s0.prs && s0 == s.(prs := s.prs[v := s0.prs[v]]) && s1 == s0.(log := s1.log) && SentOn(s1, r)
    ensures r == s.(log := s1.log, prs := r.prs, msgs := r.msgs) && r.prs.Keys == s.prs.Keys && s.msgs <= r.msgs
    ensures r.prs[v].matched == s0.prs[v].matched && r.prs[v].recentActive == s0.prs[v].recentActive && r.prs[v].state == s0.prs[v].state
    ensures s0.prs[v].next <= r.prs[v].next
    ensures forall u {:trigger r.prs[u]} :: u in s.prs && u != v ==>
              r.prs[u].matched == s.prs[u].matched && r.prs[u].recentActive == s.prs[u].recentActive && r.prs[u].state == s.prs[u].state
    ensures forall x :: x in r.msgs && x !in s.msgs ==> x.kind == MsgApp && x.commit == s1.log.committed
  {
  }

  /** A late acknowledgement tells nothing new: the peer is active, and at most its next position moves past the
      acknowledged one. */
  lemma AcknowledgedLate(cfg: Config, s: Node, m: Message)
    requires m.from in s.prs && !m.reject && m.index <= s.prs[m.from].matched
    ensures var p := s.prs[m.from];
            HandleAppResp(cfg, s, m) == Ok(s.(prs := s.prs[m.from := p.(recentActive := true, next := Max(p.next, m.index + 1))]))
  {
    LateAcceptance(cfg, s, m);
    hide HandleAppResp;
  }

  /** An acknowledgement from a peer waiting for a snapshot: once it covers the snapshot the peer is probed, before
      that it goes on waiting. */
  lemma AcknowledgedWaiting(cfg: Config, s: Node, m: Message)
    requires m.from in s.prs && !m.reject && s.prs[m.from].matched < m.index && s.prs[m.from].state == Snapshot
    requires HandleAppResp(cfg, s, m).Ok?
    ensures var q := HandleAppResp(cfg, s, m).value.prs;
            && m.from in q && q[m.from].matched == m.index && q[m.from].next > m.index
            && q[m.from].state == if m.index >= s.prs[m.from].pendingSnapshot then Probe else Snapshot
  {
    hide AdvanceCommit, HandleAppResp, IsQuorumIndex;
    var s0, s1 := AcceptedSends(cfg, s, m);
    assert s1.prs[m.from] == s0.prs[m.from];
  }

  // ---------------------------------------------------------------- reports about a peer

  /** A report that a peer cannot be reached: a replicating peer is probed right after its match from now on. */
  lemma UnreachableAnswer(cfg: Config, s: Node, m: Message, recent: bool)
    requires s.role == Leader && m.kind == MsgUnreachable && m.term == 0 && m.from in s.prs
    ensures MessageWellFormed(m) && Step(cfg, s, m, recent).Ok?
    ensures var r, p := Step(cfg, s, m, recent).value, s.prs[m.from];
            r == if p.state != Replicate then s
                 else s.(prs := s.prs[m.from := p.(state := Probe, next := p.matched + 1, paused := false, pendingSnapshot := 0, inflights := [])])
  {
  }

  /** A report about a snapshot: the peer is probed again, past the snapshot if it arrived and after its match if it
      did not, but only once it has been heard from. */
  lemma SnapshotReportAnswer(cfg: Config, s: Node, m: Message, recent: bool)
    requires s.role == Leader && m.kind == MsgSnapStatus && m.term == 0 && m.from in s.prs
    ensures MessageWellFormed(m) && Step(cfg, s, m, recent).Ok?
    ensures var r, p := Step(cfg, s, m, recent).value, s.prs[m.from];
            var arrived := if m.reject then 0 else p.pendingSnapshot;
            r == if p.state != Snapshot then s
                 else s.(prs := s.prs[m.from := p.(state := Probe, next := Max(p.matched, arrived) + 1, paused := true, pendingSnapshot := 0, inflights := [])])
  {
  }

  // ---------------------------------------------------------------- heartbeat answers at the leader

  /** A heartbeat answer resumes the peer and frees the first slot of a full window; a peer that lags is then sent
      what it lacks from its next position on. */
  lemma HeartbeatRespAnswer(cfg: Config, s: Node, m: Message) returns (x: Message)
    requires m.from in s.prs && s.prs[m.from].state != Snapshot && s.prs[m.from].next <= s.log.Last() + 1
    requires FlowOk(s.prs[m.from]) && s.prs[m.from].window > 0
    ensures var r, p := HandleHeartbeatResp(cfg, s, m), s.prs[m.from];
            var q := p.(recentActive := true, paused := false,
                        inflights := if p.state == Replicate && |p.inflights| == p.window then p.inflights[1..] else p.inflights);
            if p.matched >= s.log.Last() then r == s.(prs := s.prs[m.from := q])
            else
              && IsAppend(cfg, s, m.from, p.next - 1, x)
              && r == s.(prs := s.prs[m.from := AfterSending(q, |x.entries|)], msgs := s.msgs + {x})
  {
    hide AppendTo, IsAppend, FreeTo;
    x := EMPTY_MESSAGE;
    var p := s.prs[m.from].(recentActive := true, paused := false);
    if p.state == Replicate && WindowFull(p) {
      FirstFreed(p.inflights);
    }
    var q := p.(inflights := if p.state == Replicate && |p.inflights| == p.window then p.inflights[1..] else p.inflights);
    var s1 := s.(prs := s.prs[m.from := q]);
    if q.matched < s.log.Last() {
      AppendToPeer(cfg, s1, m.from, q, true);
      x := AppendTo(cfg, s1, m.from, q, true).1.value;
      SameAppend(cfg, s, s1, m.from, p.next - 1, x);
      assert s1.prs[m.from := AfterSending(q, |x.entries|)] == s.prs[m.from := AfterSending(q, |x.entries|)];
    }
  }

  lemma FirstFreed(q: seq<nat>)
    requires q != [] && forall i, j :: 0 <= i < j < |q| ==> q[i] < q[j]
    ensures FreeTo(q, q[0]) == q[1..]
  {
    assert q[1..] == [] || q[0] < q[1..][0];
  }

  lemma SameAppend(cfg: Config, s: Node, s1: Node, to: nat, index: nat, m: Message)
    requires s1 == s.(prs := s1.prs) && IsAppend(cfg, s1, to, index, m)
    ensures IsAppend(cfg, s, to, index, m)
  {
  }

  // ---------------------------------------------------------------- entries of the leader's own

  /** The batch as the leader writes it: numbered after its log and of its term. */
  ghost predicate Written(s: Node, es: seq<Entry>, ents: seq<Entry>) {
    |ents| == |es| && forall k :: 0 <= k < |es| ==> ents[k] == Entry(es[k].kind, s.term, s.log.Last() + 1 + k, es[k].data)
  }

  /** The counter is at zero, or the batch's payload (a 32-bit sum in the source) still fits under the limit. */
  predicate HasRoom(cfg: Config, s: Node, es: seq<Entry>) {
    s.uncommitted == 0 || s.uncommitted + PayloadSize(es) % 0x1_0000_0000 <= cfg.maxUncommitted
  }

  /** The batch has gone in whole: the log has grown by exactly its entries, the counter by exactly its payload and
      the leader's own match to the new end, and the commit cursor follows the matches. */
  ghost predicate Grown(s: Node, r: Node, es: seq<Entry>) {
    && s.log.ents <= r.log.ents && Written(s, es, r.log.ents[|s.log.ents|..])
    && r.uncommitted == s.uncommitted + PayloadSize(es) % 0x1_0000_0000
    && r.prs.Keys == s.prs.Keys && r == s.(log := r.log, uncommitted := r.uncommitted, prs := s.prs[s.id := r.prs[s.id]])
    && Furthered(s.prs[s.id], r.prs[s.id], s.log.Last() + |es|)
    && r.log == s.log.(ents := r.log.ents, committed := r.log.committed)
    && CommitsBy(r.log.(committed := s.log.committed), s.term, Matches(r.prs), r.log.committed)
  }

  /** The progress after the peer is known to hold everything through `n`. */
  predicate Furthered(p: Progress, q: Progress, n: nat) {
    q.matched == Max(p.matched, n) && q.next == Max(p.next, n + 1) && q.state == p.state && q.window == p.window
  }

  /** append_entry takes a batch for which there is room whole. Another batch changes nothing. */
  lemma BatchTaken(cfg: Config, s: Node, es: seq<Entry>)
    requires CursorsOk(s.log) && s.term >= 1
    ensures AppendEntry(cfg, s, es).Ok?
    ensures var (r, kept) := AppendEntry(cfg, s, es).value;
            && kept == HasRoom(cfg, s, es)
            && (!kept ==> r == s)
            && (kept ==> Grown(s, r, es))
  {
    hide AdvanceCommit, AppendEntry, Appended, PayloadSize, StampEntries, CommitsBy, Contiguous, Written, Grown;
    var ents := StampEntries(s, es);
    var u := s.uncommitted + Wrap32(PayloadSize(ents));
    AppendEntrySteps(cfg, s, es);
    StampIsWritten(s, es);
    StampedPayload(s, es, |es|);
    assert ents[..|es|] == ents && es[..|es|] == es;
    if WithinLimit(cfg, s, ents) {
      BatchAppended(s, ents, u);
      CommitAttempt(Appended(s, ents, u));
      AppendedAndTried(s, ents, u, es, AdvanceCommit(Appended(s, ents, u)).value.0);
    }
  }

  lemma AppendedAndTried(s: Node, ents: seq<Entry>, u: nat, es: seq<Entry>, r: Node)
    requires CursorsOk(s.log) && Contiguous(ents, s.log.Last() + 1) && Written(s, es, ents)
    requires u == s.uncommitted + PayloadSize(es) % 0x1_0000_0000
    requires var s1 := Appended(s, ents, u);
             r == s1.(log := AtCommit(s1.log, r.log.committed)) && CommitsBy(s1.log, s1.term, Matches(s1.prs), r.log.committed)
    ensures Grown(s, r, es)
  {
    hide Appended, PayloadSize, CommitsBy, Contiguous, Written;
    BatchAppended(s, ents, u);
    var s1 := Appended(s, ents, u);
    assert r.log.(committed := s.log.committed) == s1.log;
    assert |ents| == |es| by { SameLength(s, es, ents); }
    assert r.prs == s1.prs;
  }

  lemma SameLength(s: Node, es: seq<Entry>, ents: seq<Entry>)
    requires Written(s, es, ents)
    ensures |ents| == |es|
  {
  }

  lemma BatchAppended(s: Node, ents: seq<Entry>, u: nat)
    requires CursorsOk(s.log) && Contiguous(ents, s.log.Last() + 1)
    ensures var r := Appended(s, ents, u);
            && CursorsOk(r.log) && r.term == s.term && s.log.ents <= r.log.ents && r.log.ents[|s.log.ents|..] == ents
            && r == s.(log := s.log.(ents := r.log.ents), uncommitted := u, prs := s.prs[s.id := r.prs[s.id]])
            && r.prs.Keys == s.prs.Keys && Furthered(s.prs[s.id], r.prs[s.id], s.log.Last() + |ents|)
  {
    hide MaybeUpdate, Contiguous;
    MatchRaised(s.prs[s.id], s.log.Last() + |ents|);
  }

  lemma StampIsWritten(s: Node, es: seq<Entry>)
    ensures Written(s, es, StampEntries(s, es))
  {
  }

  lemma MatchRaised(p: Progress, n: nat)
    ensures Furthered(p, MaybeUpdate(p, n).0, n)
  {
  }

  /** Where the first configuration change of a batch is, or its length. */
  function FirstConf(es: seq<Entry>): (n: nat)
    ensures n <= |es| && (n < |es| ==> es[n].kind == ConfChange) && forall j :: 0 <= j < n ==> es[j].kind != ConfChange
  {
    if es == [] || es[0].kind == ConfChange then 0 else 1 + FirstConf(es[1..])
  }

  /** Entry `k` is a configuration change that must not pass: one is unapplied, or one is ahead of it. */
  predicate Barred(s: Node, es: seq<Entry>, k: nat)
    requires k < |es|
  {
    es[k].kind == ConfChange && (s.pendingConf > s.log.applied || k > FirstConf(es))
  }

  /** What the gate makes of a proposal: barred configuration changes become empty entries and everything else
      passes as it is. The pending index is that of the change that passed, if any. */
  ghost predicate Passed(s: Node, es: seq<Entry>, batch: seq<Entry>, pending: nat) {
    && |batch| == |es|
    && (forall k :: 0 <= k < |es| ==> batch[k] == if Barred(s, es, k) then EMPTY_ENTRY else es[k])
    && pending == if s.pendingConf > s.log.applied || FirstConf(es) == |es| then s.pendingConf else s.log.Last() + 1 + FirstConf(es)
  }

  /** The gate, for any state of its loop. */
  lemma {:induction false} GatePasses(es: seq<Entry>, pending: nat, applied: nat, at: nat)
    requires at > applied
    ensures var (batch, p) := GateConf(es, pending, applied, at);
            && |batch| == |es|
            && (forall k :: 0 <= k < |es| ==>
                  batch[k] == if es[k].kind == ConfChange && (pending > applied || k > FirstConf(es)) then EMPTY_ENTRY else es[k])
            && p == if pending > applied || FirstConf(es) == |es| then pending else at + FirstConf(es)
    decreases |es|
  {
    if es != [] {
      var next := if es[0].kind == ConfChange && pending <= applied then at else pending;
      GatePasses(es[1..], next, applied, at + 1);
      var batch, rest := GateConf(es, pending, applied, at).0, GateConf(es[1..], next, applied, at + 1).0;
      forall k | 0 <= k < |es|
        ensures batch[k] == if es[k].kind == ConfChange && (pending > applied || k > FirstConf(es)) then EMPTY_ENTRY else es[k]
      {
        if k > 0 {
          assert batch[k] == rest[k - 1] && es[k] == es[1..][k - 1];
        }
      }
    }
  }

  lemma ProposalPasses(s: Node, es: seq<Entry>)
    requires CursorsOk(s.log)
    ensures var (batch, p) := GateConf(es, s.pendingConf, s.log.applied, s.log.Last() + 1);
            Passed(s, es, batch, p)
  {
    GatePasses(es, s.pendingConf, s.log.applied, s.log.Last() + 1);
    hide GateConf, FirstConf;
  }

  /** A proposal at the leader. Past the gate, a batch that fits is in the log whole and goes out to every peer that
      listens; one that does not leaves the log, the counter and the messages as they were. */
  lemma ProposalAnswer(cfg: Config, s: Node, m: Message) returns (batch: seq<Entry>)
    requires CursorsOk(s.log) && s.term >= 1 && m.entries != []
    ensures Propose(cfg, s, m).Ok?
    ensures var r := Propose(cfg, s, m).value;
            && Passed(s, m.entries, batch, r.pendingConf)
            && if HasRoom(cfg, s, batch) then
                 && s.log.ents <= r.log.ents && Written(s, batch, r.log.ents[|s.log.ents|..])
                 && r.uncommitted == s.uncommitted + PayloadSize(batch) % 0x1_0000_0000
                 && r.log == s.log.(ents := r.log.ents, committed := r.log.committed)
                 && s.msgs <= r.msgs && forall v :: v in s.prs && v != s.id && !Silent(s.prs[v]) ==> Told(r, v)
               else r == s.(pendingConf := r.pendingConf)
  {
    hide GateConf, AppendEntry, BcastAppend, Passed, HasRoom, Written, CommitsBy, PayloadSize, Silent, Told, SentOn;
    batch := GateConf(m.entries, s.pendingConf, s.log.applied, s.log.Last() + 1).0;
    var pending := GateConf(m.entries, s.pendingConf, s.log.applied, s.log.Last() + 1).1;
    var s1 := s.(pendingConf := pending);
    ProposalPasses(s, m.entries);
    ProposeSteps(cfg, s, m);
    BatchTaken(cfg, s1, batch);
    SameBatch(cfg, s, s1, batch);
    var (s2, kept) := AppendEntry(cfg, s1, batch).value;
    if kept {
      BcastSentOn(cfg, s2);
      SentOnMessages(s2, BcastAppend(cfg, s2));
      forall v | v in s.prs && v != s.id && !Silent(s.prs[v]) ensures Told(BcastAppend(cfg, s2), v) {
        BcastTells(cfg, s2, v);
      }
    }
  }

  lemma SameBatch(cfg: Config, s: Node, s1: Node, es: seq<Entry>)
    requires s1 == s.(pendingConf := s1.pendingConf)
    ensures HasRoom(cfg, s1, es) == HasRoom(cfg, s, es)
    ensures forall ents :: Written(s1, es, ents) == Written(s, es, ents)
  {
  }

  lemma SentOnMessages(s: Node, r: Node)
    requires SentOn(s, r)
    ensures r == s.(prs := r.prs, msgs := r.msgs) && s.msgs <= r.msgs
  {
  }

  /** Elsewhere: a follower passes a proposal on to its leader, unless it knows none or must not; who stands for
      election drops it. */
  lemma ProposalElsewhere(cfg: Config, s: Node, m: Message, recent: bool)
    requires m.kind == MsgProp && m.term == 0 && s.role != Leader
    ensures MessageWellFormed(m)
    ensures Step(cfg, s, m, recent) ==
            Ok(if s.role == Follower && s.lead != 0 && !cfg.disableForwarding
               then s.(msgs := s.msgs + {m.(to := s.lead, from := s.id)}) else s)
  {
  }

  // ---------------------------------------------------------------- victory

  /** The first append of a new leader to a peer: the empty entry of its term, from right after what it stood with. */
  function FirstOf(s: Node, r: Node, v: nat): Message {
    EMPTY_MESSAGE.(kind := MsgApp, to := v, from := s.id, term := s.term, index := s.log.Last(), logTerm := s.log.LastTerm(),
                   entries := [Opening(s)], commit := r.log.committed)
  }

  function Opening(s: Node): Entry {
    Entry(Normal, s.term, s.log.Last() + 1, [])
  }

  /** A peer that has been sent the first append and not heard from. */
  function Unheard(cfg: Config, s: Node): Progress {
    NewProgress(0, s.log.Last() + 1, false, cfg.maxInflight).(paused := true)
  }

  /** The candidate `s` has come to lead: its log with an empty entry of its term, an empty tally, its last index pending,
      nothing counted, itself holding all of the log and every peer sent that entry. */
  ghost predicate Victorious(cfg: Config, s: Node, r: Node) {
    && r.role == Leader && r.id == r.lead == s.id && r.term == s.term && r.vote == s.vote && r.votes == map[]
    && r.pendingConf == s.log.Last() && r.uncommitted == 0 && r.log == s.log.(ents := s.log.ents + [Opening(s)], committed := r.log.committed)
    && r.prs.Keys == s.prs.Keys && r.prs[s.id].matched == s.log.Last() + 1 && r.prs[s.id].state == Replicate
    && forall v :: v in s.prs && v != s.id ==> r.prs[v] == Unheard(cfg, s) && FirstOf(s, r, v) in r.msgs
  }

  lemma InstalledShape(cfg: Config, s: Node)
    ensures var r := Elected(cfg, s);
            && r == s.(role := Leader, lead := s.id, votes := map[], pendingConf := s.log.Last(), uncommitted := 0, prs := r.prs)
            && r.prs.Keys == s.prs.Keys && r.prs[s.id].matched == s.log.Last() && r.prs[s.id].next == s.log.Last() + 1
            && r.prs[s.id].state == Replicate
            && forall v :: v in s.prs && v != s.id ==> r.prs[v] == NewProgress(0, s.log.Last() + 1, false, cfg.maxInflight)
  {
  }

  /** What the leader holds after its first entry, before it sends anything. */
  ghost predicate Opened(cfg: Config, s: Node, r: Node) {
    && r.role == Leader && r.id == r.lead == s.id && r.term == s.term && r.vote == s.vote && r.votes == map[]
    && r.pendingConf == s.log.Last() && r.uncommitted == 0 && r.log == s.log.(ents := s.log.ents + [Opening(s)], committed := r.log.committed)
    && r.prs.Keys == s.prs.Keys && r.prs[s.id].matched == s.log.Last() + 1 && r.prs[s.id].state == Replicate
    && r.prs[s.id].next <= s.log.Last() + 2
    && forall v :: v in s.prs && v != s.id ==> r.prs[v] == NewProgress(0, s.log.Last() + 1, false, cfg.maxInflight)
  }

  lemma OpeningWritten(cfg: Config, s: Node)
    requires CursorsOk(s.log) && s.term >= 1 && s.role != Follower
    ensures BecomeLeader(cfg, s).Ok? && Opened(cfg, s, BecomeLeader(cfg, s).value)
  {
    hide AppendEntry, BecomeLeader, Elected, CommitsBy, Opened;
    BecomeLeaderSteps(cfg, s);
    InstalledShape(cfg, s);
    var s1 := Elected(cfg, s);
    BatchTaken(cfg, s1, [EMPTY_ENTRY]);
    OpenedBy(cfg, s, s1, BecomeLeader(cfg, s).value);
  }

  lemma OpenedBy(cfg: Config, s: Node, s1: Node, r: Node)
    requires s1 == s.(role := Leader, lead := s.id, votes := map[], pendingConf := s.log.Last(), uncommitted := 0, prs := s1.prs)
    requires s1.prs.Keys == s.prs.Keys && s1.prs[s.id].matched == s.log.Last() && s1.prs[s.id].state == Replicate
    requires s1.prs[s.id].next == s.log.Last() + 1
    requires forall v :: v in s.prs && v != s.id ==> s1.prs[v] == NewProgress(0, s.log.Last() + 1, false, cfg.maxInflight)
    requires Grown(s1, r, [EMPTY_ENTRY])
    ensures Opened(cfg, s, r)
  {
    hide CommitsBy;
    assert r.log.ents == s.log.ents + r.log.ents[|s.log.ents|..];
    assert r.log.ents[|s.log.ents|..] == [Opening(s)];
    EmptyWeighsNothing();
  }

  lemma FirstAppends(cfg: Config, s: Node, r: Node, v: nat)
    requires Opened(cfg, s, r) && v in s.prs && v != s.id
    ensures v in BcastAppend(cfg, r).prs && BcastAppend(cfg, r).prs[v] == Unheard(cfg, s) && FirstOf(s, r, v) in BcastAppend(cfg, r).msgs
  {
    hide AppendTo, TotalSize;
    AppendToPeer(cfg, r, v, r.prs[v], true);
    var m := AppendTo(cfg, r, v, r.prs[v], true).1.value;
    assert m in BcastAppend(cfg, r).msgs;
    assert r.log.ents[s.log.Last()..s.log.Last() + 1] == [Opening(s)];
    assert m.entries == [Opening(s)];
    assert r.log.TermAt(s.log.Last()) == s.log.LastTerm();
  }

  lemma OpenedSent(cfg: Config, s: Node, r: Node, b: Node)
    requires Opened(cfg, s, r) && SentOn(r, b) && b.prs[s.id] == r.prs[s.id]
    requires forall v :: v in s.prs && v != s.id ==> v in b.prs && b.prs[v] == Unheard(cfg, s) && FirstOf(s, r, v) in b.msgs
    ensures Victorious(cfg, s, b)
  {
    assert b == r.(prs := b.prs, msgs := b.msgs);
    assert forall v :: FirstOf(s, r, v) == FirstOf(s, b, v);
  }

  /** With the grant that completes a quorum a candidate comes to lead and tells every peer. */
  lemma VictoryAnswer(cfg: Config, s: Node, m: Message)
    requires s.role == Candidate && CursorsOk(s.log) && s.term >= 1 && |Granting(s, m)| == QuorumSize(|s.prs|)
    ensures HandleVoteResp(cfg, s, m).Ok? && Victorious(cfg, s, HandleVoteResp(cfg, s, m).value)
  {
    hide BecomeLeader, BcastAppend, Granting, Opened, Victorious, SentOn, CursorsOk;
    Tally(s, m);
    var s1 := Poll(s, m.from, !m.reject);
    OpeningWritten(cfg, s1);
    var r := BecomeLeader(cfg, s1).value;
    var b := BcastAppend(cfg, r);
    BcastSentOn(cfg, r);
    OwnUnsent(cfg, r);
    OpenedPolled(cfg, s, s1, r);
    forall v | v in s.prs && v != s.id ensures v in b.prs && b.prs[v] == Unheard(cfg, s) && FirstOf(s, r, v) in b.msgs {
      FirstAppends(cfg, s, r, v);
    }
    OpenedSent(cfg, s, r, b);
  }

  lemma OwnUnsent(cfg: Config, r: Node)
    ensures r.id in BcastAppend(cfg, r).prs && BcastAppend(cfg, r).prs[r.id] == r.prs[r.id]
  {
    hide AppendTo;
  }

  lemma OpenedPolled(cfg: Config, s: Node, s1: Node, r: Node)
    requires s1 == s.(votes := s1.votes) && Opened(cfg, s1, r)
    ensures Opened(cfg, s, r) && r.id == s.id
  {
  }

  // ---------------------------------------------------------------- handing out committed entries

  /** A Ready hands out the next committed entries, at least one if there is any and no more than the limit allows,
      moves the cursor past them and lowers the counter by their payload, to zero at the least. */
  lemma ReadyAnswer(cfg: Config, s: Node) returns (n: nat)
    requires CursorsOk(s.log)
    ensures s.log.applied + n <= s.log.committed && (n > 0 <==> s.log.applied < s.log.committed)
    ensures var es := s.log.ents[s.log.applied..s.log.applied + n];
            var size := PayloadSize(es) % 0x1_0000_0000;
            && (n > 1 ==> TotalSize(es) <= cfg.maxReadySize)
            && (s.log.applied + n < s.log.committed ==> TotalSize(s.log.ents[s.log.applied..s.log.applied + n + 1]) > cfg.maxReadySize)
            && ReadyRound(cfg, s) == s.(log := s.log.(applied := s.log.applied + n),
                                        uncommitted := if s.uncommitted < size then 0 else s.uncommitted - size)
  {
    hide PayloadSize, TotalSize, ReadyRound, NextEntries;
    ReadyShape(cfg, s);
    NextEntriesShape(cfg, s.log);
    NextAreLongest(cfg, s.log);
    n := |NextEntries(cfg, s.log)|;
  }

  lemma NextAreLongest(cfg: Config, l: Log)
    requires CursorsOk(l) && l.base == 0
    ensures var n := |NextEntries(cfg, l)|;
            && l.applied + n <= l.committed && (n > 0 <==> l.applied < l.committed)
            && (n > 1 ==> TotalSize(l.ents[l.applied..l.applied + n]) <= cfg.maxReadySize)
            && (l.applied + n < l.committed ==> TotalSize(l.ents[l.applied..l.applied + n + 1]) > cfg.maxReadySize)
  {
    hide TotalSize, LimitSize;
    var all := l.ents[l.applied..l.committed];
    LimitSizeIsLongest(all, cfg.maxReadySize);
    var n := |NextEntries(cfg, l)|;
    assert NextEntries(cfg, l) == all[..n] == l.ents[l.applied..l.applied + n];
    if n < |all| {
      assert all[..n + 1] == l.ents[l.applied..l.applied + n + 1];
    }
  }

  // ---------------------------------------------------------------- timeouts

  /** A configuration change is committed and not applied. */
  ghost predicate ConfWaits(l: Log) {
    exists x :: x in l.ents && x.kind == ConfChange && l.applied < x.index <= l.committed
  }

  lemma WaitingIsPending(l: Log)
    requires CursorsOk(l)
    ensures ConfWaits(l) <==> HasPendingConf(l)
  {
    if ConfWaits(l) {
      var x :| x in l.ents && x.kind == ConfChange && l.applied < x.index <= l.committed;
      var k :| 0 <= k < |l.ents| && l.ents[k] == x;
      assert l.applied - l.base <= k < l.committed - l.base;
    }
    if HasPendingConf(l) {
      var k :| l.applied - l.base <= k < l.committed - l.base && l.ents[k].kind == ConfChange;
      assert l.ents[k] in l.ents;
    }
  }

  predicate IsTimeout(m: Message) {
    m.kind == MsgHup && m.term == 0
  }

  /** A leader and a node with an unapplied configuration change let a timeout pass. */
  lemma TimeoutHeld(cfg: Config, s: Node, m: Message, recent: bool)
    requires IsTimeout(m) && CursorsOk(s.log) && (s.role == Leader || ConfWaits(s.log))
    ensures MessageWellFormed(m) && Step(cfg, s, m, recent) == Ok(s)
  {
    hide ConfWaits, HasPendingConf, PreCampaign, Campaign, CursorsOk;
    WaitingIsPending(s.log);
  }

  /** A request for a vote in the next term, with the node's last position. */
  function AskFor(s: Node, v: nat): Message {
    EMPTY_MESSAGE.(to := v, from := s.id, term := s.term + 1, index := s.log.Last(), logTerm := s.log.LastTerm())
  }

  function Asked(s: Node, kind: MsgType): set<Message> {
    set v | v in s.prs && v != s.id :: AskFor(s, v).(kind := kind)
  }

  /** Any other node asks every other voter: with pre-vote on for a pre-vote, staying in its term; otherwise for a
      vote, in the next term and with its own vote. A single voter leads the next term at once. */
  lemma TimeoutCampaigns(cfg: Config, s: Node, m: Message, recent: bool)
    requires IsTimeout(m) && CursorsOk(s.log) && s.role != Leader && !ConfWaits(s.log)
    ensures MessageWellFormed(m) && Step(cfg, s, m, recent).Ok?
    ensures var r := Step(cfg, s, m, recent).value;
            if |s.prs| == 1 then
              r.role == Leader && r.term == s.term + 1 && r.vote == r.lead == s.id && s.log.ents <= r.log.ents && r.msgs == s.msgs
            else if cfg.preVote then
              r == s.(role := PreCandidate, lead := 0, votes := map[s.id := true], msgs := s.msgs + Asked(s, MsgPreVote))
            else
              && r.role == Candidate && r.term == s.term + 1 && r.vote == s.id && r.lead == 0 && r.votes == map[s.id := true]
              && r.log == s.log && r.id == s.id && r.prs.Keys == s.prs.Keys && r.msgs == s.msgs + Asked(s, MsgVote)
  {
    hide ConfWaits, HasPendingConf, CursorsOk, BecomeLeader, BecomeCandidate, BecomePreCandidate, Poll, RequestVotes, Asked;
    WaitingIsPending(s.log);
    var pre := Poll(BecomePreCandidate(s), s.id, true);
    var cand := Poll(BecomeCandidate(cfg, s), s.id, true);
    PreCandidateShape(s);
    VotedForItself(cfg, s);
    assert |s.prs| == |s.prs.Keys| && |pre.prs| == |pre.prs.Keys| && |cand.prs| == |cand.prs.Keys|;
    if |s.prs| == 1 {
      SingleVoterWins(cfg, s);
      SingleVoterWins(cfg, pre);
    } else {
      MoreThanOne(s);
      AskedMessages(s, pre, MsgPreVote);
      AskedMessages(s, cand, MsgVote);
    }
  }

  lemma MoreThanOne(s: Node)
    ensures |s.prs| >= 1
  {
    assert s.id in s.prs;
  }

  lemma PreCandidateShape(s: Node)
    requires s.role != Leader
    ensures var r := Poll(BecomePreCandidate(s), s.id, true);
            r == s.(role := PreCandidate, lead := 0, votes := map[s.id := true]) && GrantedBy(r.votes) == {s.id}
  {
  }

  lemma VotedForItself(cfg: Config, s: Node)
    requires s.role != Leader
    ensures var r := Poll(BecomeCandidate(cfg, s), s.id, true);
            && r.id == s.id && r.prs.Keys == s.prs.Keys && r.term == s.term + 1 && r.role == Candidate && r.vote == s.id && r.lead == 0
            && r.log == s.log && r.msgs == s.msgs && r.votes == map[s.id := true] && GrantedBy(r.votes) == {s.id}
  {
  }

  lemma AskedMessages(s: Node, s1: Node, kind: MsgType)
    requires s1.id == s.id && s1.prs.Keys == s.prs.Keys && s1.log == s.log && s1.msgs == s.msgs
    ensures RequestVotes(s1, kind, s.term + 1) == s1.(msgs := s.msgs + Asked(s, kind))
  {
    hide VoteRequest, Asked;
    AskedOnes(s, s1, kind);
  }

  lemma AskedOnes(s: Node, s1: Node, kind: MsgType)
    requires s1.id == s.id && s1.prs.Keys == s.prs.Keys && s1.log == s.log
    ensures (set v | v in s1.prs && v != s1.id :: VoteRequest(s1, kind, s.term + 1, v)) == Asked(s, kind)
  {
    hide VoteRequest, AskFor;
    forall v ensures VoteRequest(s1, kind, s.term + 1, v) == AskFor(s, v).(kind := kind) {
      AskedOne(s, s1, kind, v);
    }
    assert (set v | v in s1.prs && v != s1.id :: VoteRequest(s1, kind, s.term + 1, v)) == Asked(s, kind);
  }

  lemma AskedOne(s: Node, s1: Node, kind: MsgType, v: nat)
    requires s1.id == s.id && s1.log == s.log
    ensures VoteRequest(s1, kind, s.term + 1, v) == AskFor(s, v).(kind := kind)
  {
  }

  lemma SingleVoterWins(cfg: Config, s: Node)
    requires s.role != Leader && |s.prs| == 1 && CursorsOk(s.log)
    ensures Campaign(cfg, s).Ok?
    ensures var r := Campaign(cfg, s).value;
            r.role == Leader && r.term == s.term + 1 && r.vote == r.lead == s.id && s.log.ents <= r.log.ents && r.msgs == s.msgs
  {
    hide BecomeLeader, AppendEntry, CommitsBy, Elected;
    VotedForItself(cfg, s);
    var s1 := Poll(BecomeCandidate(cfg, s), s.id, true);
    assert |s1.prs| == |s1.prs.Keys| == |s.prs.Keys| == |s.prs|;
    BecomeLeaderSteps(cfg, s1);
    ElectedShape(cfg, s1);
    ElectedLead(cfg, s1);
    BatchTaken(cfg, Elected(cfg, s1), [EMPTY_ENTRY]);
  }

  lemma ElectedLead(cfg: Config, s: Node)
    ensures Elected(cfg, s).lead == s.id
  {
  }

  // ---------------------------------------------------------------- quorum checks

  /** A quorum of voters each of which is the leader itself or has been heard from. */
  ghost predicate Heard(s: Node, q: set<nat>) {
    q <= s.prs.Keys && |q| >= QuorumSize(|s.prs|) && forall v :: v in q ==> v == s.id || s.prs[v].recentActive
  }

  lemma HeardIsActive(s: Node)
    ensures (exists q :: Heard(s, q)) <==> |ActiveVoters(s)| >= NodeQuorum(s)
  {
    if q :| Heard(s, q) {
      assert q <= ActiveVoters(s);
      SubsetCardinality(q, ActiveVoters(s));
    }
    if |ActiveVoters(s)| >= NodeQuorum(s) {
      assert Heard(s, ActiveVoters(s));
    }
  }

  /** At a quorum check a leader that has heard from a quorum stays as it is; another becomes a follower of its
      term, without a leader and with its log, vote and messages. */
  lemma QuorumCheckAnswer(cfg: Config, s: Node, m: Message, recent: bool)
    requires s.role == Leader && m.kind == MsgCheckQuorum && m.term == 0
    ensures MessageWellFormed(m) && Step(cfg, s, m, recent).Ok?
    ensures var r := Step(cfg, s, m, recent).value;
            if exists q :: Heard(s, q) then r == s
            else
              && r.role == Follower && r.term == s.term && r.lead == 0 && r.vote == s.vote && r.log == s.log && r.msgs == s.msgs
              && r.id == s.id && r.prs.Keys == s.prs.Keys
  {
    hide ActiveVoters, Heard;
    HeardIsActive(s);
  }

  lemma {:induction false} SendAllSentOn(cfg: Config, s: Node, v: nat)
    requires v in s.prs
    ensures SentOn(s, SendAll(cfg, s, v))
    decreases SendBudget(s, v)
  {
    hide SentOn, SendBudget, MaybeSendAppend;
    SendShrinksBudget(cfg, s, v);
    MaybeSendSentOn(cfg, s, v, false);
    var (s1, sent) := MaybeSendAppend(cfg, s, v, false);
    if sent {
      SendKeepsPeers(cfg, s, v);
      SendAllSentOn(cfg, s1, v);
      SentOnTrans(s, s1, SendAll(cfg, s1, v));
    }
  }

  /** The peer counts as heard from, and nobody else's mark has changed. */
  ghost predicate Marked(s: Node, r: Node, v: nat) {
    && v in s.prs && r.prs.Keys == s.prs.Keys && r.prs[v].recentActive
    && forall u {:trigger r.prs[u]} :: u in s.prs && u != v ==> r.prs[u].recentActive == s.prs[u].recentActive
  }

  lemma MarkedThenSent(s: Node, s1: Node, r: Node, v: nat)
    requires Marked(s, s1, v) && SentOn(s1, r)
    ensures Marked(s, r, v)
  {
    forall u | u in s.prs && u != v ensures r.prs[u].recentActive == s.prs[u].recentActive {
      assert r.prs[u].recentActive == s1.prs[u].recentActive;
    }
  }

  lemma MarkOne(s: Node, v: nat, p: Progress)
    requires v in s.prs && p.recentActive
    ensures Marked(s, s.(prs := s.prs[v := p]), v)
  {
  }

  lemma ActiveKept(p: Progress, n: nat, hint: nat)
    ensures MaybeUpdate(p, n).0.recentActive == p.recentActive && MaybeDecreaseTo(p, n, hint).0.recentActive == p.recentActive
    ensures BecomeProbe(p).recentActive == p.recentActive && RaisedProgress(p, n).recentActive == p.recentActive
  {
    hide FreeTo;
  }

  lemma RejectionMarks(cfg: Config, s: Node, m: Message)
    requires m.from in s.prs && m.reject
    ensures HandleAppResp(cfg, s, m).Ok? && Marked(s, HandleAppResp(cfg, s, m).value, m.from)
  {
    hide SendAppend, Marked, SentOn, MaybeDecreaseTo, BecomeProbe;
    var p := s.prs[m.from].(recentActive := true);
    ActiveKept(p, m.index, m.rejectHint);
    var (p1, lowered) := MaybeDecreaseTo(p, m.index, m.rejectHint);
    ActiveKept(p1, m.index, m.rejectHint);
    var p2 := if lowered && p1.state == Replicate then BecomeProbe(p1) else p1;
    MarkOne(s, m.from, p2);
    var s1 := s.(prs := s.prs[m.from := p2]);
    SendSentOn(cfg, s1, m.from);
    MarkedThenSent(s, s1, SendAppend(cfg, s1, m.from), m.from);
  }

  lemma SendSentOn(cfg: Config, s: Node, v: nat)
    requires v in s.prs
    ensures SentOn(s, SendAppend(cfg, s, v))
  {
    MaybeSendSentOn(cfg, s, v, true);
  }

  lemma CommitKeepsPeers(s: Node)
    requires AdvanceCommit(s).Ok?
    ensures AdvanceCommit(s).value.0.prs == s.prs
  {
  }

  /** Past the commit attempt an acknowledgement only sends. */
  lemma AcceptedSends(cfg: Config, s: Node, m: Message) returns (s0: Node, s1: Node)
    requires m.from in s.prs && !m.reject && s.prs[m.from].matched < m.index && HandleAppResp(cfg, s, m).Ok?
    ensures var p := s.prs[m.from].(recentActive := true);
            s0 == s.(prs := s.prs[m.from := RaisedProgress(MaybeUpdate(p, m.index).0, m.index)])
    ensures AdvanceCommit(s0).Ok? && s1 == AdvanceCommit(s0).value.0 && s1.prs == s0.prs
    ensures SentOn(s1, HandleAppResp(cfg, s, m).value)
  {
    hide AdvanceCommit, BcastAppend, SendAppend, SendAll, SentOn, MaybeUpdate, RaisedProgress, HandleAppResp;
    var p := s.prs[m.from].(recentActive := true);
    s0 := s.(prs := s.prs[m.from := RaisedProgress(MaybeUpdate(p, m.index).0, m.index)]);
    AcceptedSteps(cfg, s, m);
    CommitKeepsPeers(s0);
    s1 := AdvanceCommit(s0).value.0;
    var s2 := if AdvanceCommit(s0).value.1 then BcastAppend(cfg, s1) else if IsPaused(p) then SendAppend(cfg, s1, m.from) else s1;
    BcastSentOn(cfg, s1);
    SendSentOn(cfg, s1, m.from);
    SentOnRefl(s1);
    SentOnMore(s1, s2, m.from);
    SendAllSentOn(cfg, s2, m.from);
    SentOnTrans(s1, s2, SendAll(cfg, s2, m.from));
  }

  lemma AcceptanceMarks(cfg: Config, s: Node, m: Message)
    requires m.from in s.prs && !m.reject && HandleAppResp(cfg, s, m).Ok?
    ensures Marked(s, HandleAppResp(cfg, s, m).value, m.from)
  {
    hide AdvanceCommit, SentOn, Marked, MaybeUpdate, RaisedProgress, HandleAppResp;
    var p := s.prs[m.from].(recentActive := true);
    ActiveKept(p, m.index, 0);
    ActiveKept(MaybeUpdate(p, m.index).0, m.index, 0);
    if s.prs[m.from].matched < m.index {
      var s0, s1 := AcceptedSends(cfg, s, m);
      MarkOne(s, m.from, RaisedProgress(MaybeUpdate(p, m.index).0, m.index));
      MarkedSame(s, s0, s1, m.from);
      MarkedThenSent(s, s1, HandleAppResp(cfg, s, m).value, m.from);
    } else {
      LateAcceptance(cfg, s, m);
      MarkOne(s, m.from, MaybeUpdate(p, m.index).0);
    }
  }

  lemma SentOnMore(s: Node, r: Node, v: nat)
    requires SentOn(s, r) && v in s.prs
    ensures v in r.prs
  {
  }

  lemma MarkedSame(s: Node, s0: Node, s1: Node, v: nat)
    requires Marked(s, s0, v) && s1.prs == s0.prs
    ensures Marked(s, s1, v)
  {
  }

  lemma HeartbeatRespMarks(cfg: Config, s: Node, m: Message)
    requires m.from in s.prs
    ensures Marked(s, HandleHeartbeatResp(cfg, s, m), m.from)
  {
    hide SendAppend, Marked, SentOn, FreeTo;
    var p := s.prs[m.from].(recentActive := true, paused := false);
    var p1 := if p.state == Replicate && WindowFull(p) && p.inflights != []
              then p.(inflights := FreeTo(p.inflights, p.inflights[0])) else p;
    MarkOne(s, m.from, p1);
    var s1 := s.(prs := s.prs[m.from := p1]);
    SendSentOn(cfg, s1, m.from);
    MarkedThenSent(s, s1, SendAppend(cfg, s1, m.from), m.from);
  }

  /** Any append or heartbeat answer of its term makes its sender count at the next quorum check, and nobody else. */
  lemma AnswersAreHeard(cfg: Config, s: Node, m: Message, recent: bool)
    requires s.role == Leader && m.from in s.prs && m.term == s.term && m.kind in {MsgAppResp, MsgHeartbeatResp}
    ensures MessageWellFormed(m)
    ensures Step(cfg, s, m, recent).Ok? ==> Marked(s, Step(cfg, s, m, recent).value, m.from)
  {
    hide HandleAppResp, HandleHeartbeatResp, Marked;
    HeartbeatRespMarks(cfg, s, m);
    if m.reject {
      RejectionMarks(cfg, s, m);
    } else if HandleAppResp(cfg, s, m).Ok? {
      AcceptanceMarks(cfg, s, m);
    }
  }
}
