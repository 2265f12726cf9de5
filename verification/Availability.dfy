/** Whatever has happened, with pre-vote off a set of nodes can go on by itself exactly when it is a majority: from
    every reachable cluster, while the others stay silent, its members can elect one of their own in a new term, bring
    one another up to its log and commit all of it, a client's entries included. Timeouts and deliveries are the run's
    free choices. With pre-vote on, two voters can get stuck for good. */
module Availability {
  import opened Proto
  import opened LogSpec
  import opened ProgressSpec
  import opened RaftSpec
  import opened ClusterSpec
  import opened Quorum
  import opened History
  import opened Invariant
  import opened Steps
  import opened Safety
  import opened Theorems
  import opened Flow
  import opened Ledger
  import opened LocalRuns
  import opened PreVote
  import opened Stalemate
  import opened Answers
  import opened AnswersInRuns
  import opened Upkeep

  // ---------------------------------------------------------------- what every reached cluster has

  ghost predicate Sane(s: Node, v: nat, e: Setting) {
    && s.id == v && v != 0 && s.msgs == {} && s.prs.Keys == e.voters && s.role != PreCandidate && CursorsOk(s.log)
    && (forall k :: 0 <= k < |s.log.ents| ==> s.log.ents[k].term >= 1 && s.log.ents[k].index == k + 1)
    && (s.role in {Leader, Candidate} ==> s.term >= 1)
  }

  /** A leader's view of a peer: within the window and the log. */
  ghost predicate PeerSane(cfg: Config, p: Progress, last: nat) {
    FlowOk(p) && p.state != Snapshot && p.next <= last + 1 && p.matched <= last && p.window == cfg.maxInflight
  }

  lemma LogIsSane(s: Node, h: Hist)
    requires NodeInv(s, h)
    ensures forall k :: 0 <= k < |s.log.ents| ==> s.log.ents[k].term >= 1 && s.log.ents[k].index == k + 1
    ensures CursorsOk(s.log) && s.prs.Keys == h.voters && s.id in h.voters && (s.role == PreCandidate ==> h.pair)
  {
    forall k | 0 <= k < |s.log.ents| ensures s.log.ents[k].term >= 1 && s.log.ents[k].index == k + 1 {
      assert EntryOk(h.logs, s.log.ents, k);
    }
  }

  lemma PeerIsSane(cfg: Config, s: Node, h: Hist, v: nat)
    requires HistInv(h) && NodeInv(s, h) && s.role == Leader && v in s.prs && FlowInv(s) && Upkept(cfg, s)
    ensures PeerSane(cfg, s.prs[v], s.log.Last())
  {
    assert PeerInv(v, s.prs[v], s.term, |s.log.ents|, h);
    AckWithinLog(h, v, s.term);
    hide InCharge;
  }

  lemma SaneNode(e: Setting, c: Cluster, v: nat)
    requires Reached(e, c) && !e.cfg.preVote && v in e.voters
    ensures v in c.nodes && Sane(c.nodes[v], v, e)
    ensures c.nodes[v].role == Leader ==>
              InCharge(c.nodes[v]) && forall u :: u in e.voters ==> PeerSane(e.cfg, c.nodes[v].prs[u], c.nodes[v].log.Last())
  {
    hide Run, Inv, NodeInv, HistInv, InCharge, FlowInv, PeerSane;
    var run := ReachingRun(e, c);
    var i := |run| - 1;
    var hs := RunHistories(e.cfg, e.voters, e.boot, run);
    RunSound(e.cfg, e.voters, e.boot, run, i);
    RunUpkept(e.cfg, e.voters, e.boot, run, i);
    assert Sound(c.nodes[v], v);
    NodeFacts(c, hs[i], v);
    LogIsSane(c.nodes[v], hs[i]);
    SoundTerm(c.nodes[v]);
    VotersOf(e, c, hs[i], v);
    if c.nodes[v].role == Leader {
      forall u | u in e.voters ensures PeerSane(e.cfg, c.nodes[v].prs[u], c.nodes[v].log.Last()) {
        PeerIsSane(e.cfg, c.nodes[v], hs[i], u);
      }
    }
  }

  lemma SoundTerm(s: Node)
    requires FlowInv(s)
    ensures s.role in {Leader, Candidate} ==> s.term >= 1
  {
    hide PeersOk, Addressed;
  }

  lemma VotersOf(e: Setting, c: Cluster, h: Hist, v: nat)
    requires Inv(c, h) && c.nodes.Keys == e.voters && v in e.voters
    ensures h.voters == e.voters && v != 0
  {
    hide NodeInv;
  }

  // ---------------------------------------------------------------- from one cluster to another

  /** One of `who` takes a step. */
  ghost predicate StepBy(cfg: Config, c: Cluster, d: Cluster, who: set<nat>) {
    exists n, a :: n in who && StepOf(cfg, c, d, n, a)
  }

  ghost predicate Along(cfg: Config, path: seq<Cluster>, c: Cluster, d: Cluster, who: set<nat>) {
    path != [] && path[0] == c && path[|path| - 1] == d && forall i :: 0 <= i < |path| - 1 ==> StepBy(cfg, path[i], path[i + 1], who)
  }

  /** From `c` steps of the nodes in `who` alone lead to `d`. */
  ghost predicate Joined(cfg: Config, c: Cluster, d: Cluster, who: set<nat>) {
    exists path: seq<Cluster> :: Along(cfg, path, c, d, who)
  }

  /** Every such run goes on from those that end in `c`, and nobody else moves. */
  lemma {:induction false} JoinedMoves(e: Setting, path: seq<Cluster>, c: Cluster, d: Cluster, who: set<nat>)
    requires Reached(e, c) && Along(e.cfg, path, c, d, who)
    ensures Reached(e, d) && MovedWithin(c, d, who)
    decreases |path|
  {
    hide Reached, StepBy, Next, MovedWithin;
    if |path| == 1 {
      WithinRefl(c, who);
    } else {
      var d1 := path[|path| - 2];
      assert StepBy(e.cfg, d1, path[|path| - 2 + 1], who);
      assert Along(e.cfg, path[..|path| - 1], c, d1, who);
      JoinedMoves(e, path[..|path| - 1], c, d1, who);
      StepByMoves(e.cfg, d1, d, who);
      Extend(e, d1, d);
      WithinTrans(c, d1, d, who, who);
    }
  }

  lemma StepByMoves(cfg: Config, c: Cluster, d: Cluster, who: set<nat>)
    requires StepBy(cfg, c, d, who)
    ensures Next(cfg, c, d) && MovedWithin(c, d, who)
  {
    hide React;
  }

  lemma JoinedIsReached(e: Setting, c: Cluster, d: Cluster, who: set<nat>)
    requires Reached(e, c) && Joined(e.cfg, c, d, who)
    ensures Reached(e, d) && MovedWithin(c, d, who)
  {
    hide Reached, Along;
    var path: seq<Cluster> :| Along(e.cfg, path, c, d, who);
    JoinedMoves(e, path, c, d, who);
  }

  lemma JoinStep(cfg: Config, c: Cluster, d: Cluster, n: nat, a: Input)
    requires StepOf(cfg, c, d, n, a)
    ensures Joined(cfg, c, d, {n})
  {
    hide StepOf;
    assert StepBy(cfg, c, d, {n});
    assert Along(cfg, [c, d], c, d, {n});
  }

  lemma JoinStay(cfg: Config, c: Cluster, who: set<nat>)
    ensures Joined(cfg, c, c, who)
  {
    assert Along(cfg, [c], c, c, who);
  }

  lemma StepByMore(cfg: Config, c: Cluster, d: Cluster, some: set<nat>, who: set<nat>)
    requires StepBy(cfg, c, d, some) && some <= who
    ensures StepBy(cfg, c, d, who)
  {
    hide StepOf;
  }

  lemma JoinMore(cfg: Config, c: Cluster, d: Cluster, some: set<nat>, who: set<nat>)
    requires Joined(cfg, c, d, some) && some <= who
    ensures Joined(cfg, c, d, who)
  {
    hide StepBy;
    var path: seq<Cluster> :| Along(cfg, path, c, d, some);
    forall i | 0 <= i < |path| - 1 ensures StepBy(cfg, path[i], path[i + 1], who) {
      StepByMore(cfg, path[i], path[i + 1], some, who);
    }
    assert Along(cfg, path, c, d, who);
  }

  lemma JoinThen(cfg: Config, c: Cluster, d: Cluster, f: Cluster, who: set<nat>)
    requires Joined(cfg, c, d, who) && Joined(cfg, d, f, who)
    ensures Joined(cfg, c, f, who)
  {
    hide StepBy;
    var a: seq<Cluster> :| Along(cfg, a, c, d, who);
    var b: seq<Cluster> :| Along(cfg, b, d, f, who);
    var path := a + b[1..];
    forall i | 0 <= i < |path| - 1 ensures StepBy(cfg, path[i], path[i + 1], who) {
      if i < |a| - 1 {
        assert StepBy(cfg, a[i], a[i + 1], who);
      } else {
        assert StepBy(cfg, b[i - (|a| - 1)], b[i - (|a| - 1) + 1], who);
      }
    }
    assert Along(cfg, path, c, f, who);
  }

  /** Steps of `n` alone, or of `who` alone. */
  ghost predicate Only(e: Setting, c: Cluster, d: Cluster, n: nat) {
    OnlyMoved(c, d, n) && Joined(e.cfg, c, d, {n})
  }

  ghost predicate Within(e: Setting, c: Cluster, d: Cluster, who: set<nat>) {
    MovedWithin(c, d, who) && Joined(e.cfg, c, d, who)
  }

  lemma OnlyThen(e: Setting, c: Cluster, d: Cluster, f: Cluster, n: nat)
    requires Only(e, c, d, n) && Only(e, d, f, n)
    ensures Only(e, c, f, n)
  {
    hide Joined;
    OnlyMovedTrans(c, d, f, n);
    JoinThen(e.cfg, c, d, f, {n});
  }

  lemma Stay(e: Setting, c: Cluster, who: set<nat>)
    ensures Within(e, c, c, who)
  {
    JoinStay(e.cfg, c, who);
  }

  lemma StayOnly(e: Setting, c: Cluster, n: nat)
    ensures Only(e, c, c, n)
  {
    JoinStay(e.cfg, c, {n});
  }

  lemma More(e: Setting, c: Cluster, d: Cluster, some: set<nat>, who: set<nat>)
    requires Within(e, c, d, some) && some <= who
    ensures Within(e, c, d, who)
  {
    hide Joined;
    JoinMore(e.cfg, c, d, some, who);
  }

  lemma OneOf(e: Setting, c: Cluster, d: Cluster, n: nat, who: set<nat>)
    requires Only(e, c, d, n) && n in who
    ensures Within(e, c, d, who)
  {
    hide Joined;
    JoinMore(e.cfg, c, d, {n}, who);
  }

  lemma Both(e: Setting, c: Cluster, d: Cluster, f: Cluster, a: nat, v: nat)
    requires Only(e, c, d, v) && Only(e, d, f, a)
    ensures Within(e, c, f, {a, v})
  {
    hide Only, Within;
    OneOf(e, c, d, v, {a, v});
    OneOf(e, d, f, a, {a, v});
    Then(e, c, d, f, {a, v}, {a, v});
  }

  lemma Then(e: Setting, c: Cluster, d: Cluster, f: Cluster, some: set<nat>, who: set<nat>)
    requires Within(e, c, d, some) && Within(e, d, f, who) && some <= who
    ensures Within(e, c, f, who)
  {
    hide Joined;
    JoinMore(e.cfg, c, d, some, who);
    JoinThen(e.cfg, c, d, f, who);
  }

  /** A step that is enabled completes and is one of the run. */
  lemma Act(e: Setting, c: Cluster, n: nat, a: Input) returns (c': Cluster)
    requires Reached(e, c) && !e.cfg.preVote && Enabled(e.cfg, c, n, a)
    ensures n in c.nodes && React(e.cfg, c.nodes[n], a).Ok?
    ensures Reached(e, c') && Only(e, c, c', n)
    ensures var s := React(e.cfg, c.nodes[n], a).value;
            n in c'.nodes && c'.nodes[n] == s.(msgs := {}) && c'.net == c.net + s.msgs
  {
    hide React, Reached, Run, Enabled, OnlyMoved;
    var run := ReachingRun(e, c);
    EnabledAt(e.cfg, c, n, a);
    NeverFatal(e.cfg, e.voters, e.boot, run, |run| - 1, n, a);
    c' := OneMoves(e, c, n, a, React(e.cfg, c.nodes[n], a).value);
    JoinStep(e.cfg, c, c', n, a);
  }

  lemma DeliverEnabled(e: Setting, c: Cluster, n: nat, m: Message)
    requires n in c.nodes && Sane(c.nodes[n], n, e) && m in c.net && m.to == n && m.from in e.voters && !IsLocal(m.kind)
    ensures Enabled(e.cfg, c, n, Deliver(m, false))
  {
  }

  // ---------------------------------------------------------------- standing for election

  /** All but the bookkeeping of entries handed out is the same. */
  ghost predicate Applied(s: Node, r: Node) {
    r == s.(log := s.log.(applied := r.log.applied), uncommitted := r.uncommitted)
  }

  lemma ReadyApplies(cfg: Config, s: Node)
    requires CursorsOk(s.log)
    ensures Applied(s, ReadyRound(cfg, s)) && ReadyRound(cfg, s).log.applied <= s.log.committed
    ensures s.log.applied < s.log.committed ==> s.log.applied < ReadyRound(cfg, s).log.applied
  {
    hide ReadyRound, PayloadSize, TotalSize;
    var n := ReadyAnswer(cfg, s);
  }

  lemma ApplyAll(e: Setting, c: Cluster, n: nat) returns (c': Cluster)
    requires Reached(e, c) && !e.cfg.preVote && n in e.voters
    ensures Reached(e, c') && Only(e, c, c', n)
    ensures n in c.nodes && n in c'.nodes && Applied(c.nodes[n], c'.nodes[n])
    ensures c'.nodes[n].log.applied == c'.nodes[n].log.committed
    decreases if n in c.nodes && CursorsOk(c.nodes[n].log) then c.nodes[n].log.committed - c.nodes[n].log.applied else 0
  {
    hide Reached, ReadyRound, React;
    SaneNode(e, c, n);
    var s := c.nodes[n];
    if s.log.applied == s.log.committed {
      c' := c;
      StayOnly(e, c, n);
    } else {
      ReadyApplies(e.cfg, s);
      ReadyReacts(e.cfg, s);
      var c1 := Act(e, c, n, TakeReady);
      c' := ApplyAll(e, c1, n);
      OnlyThen(e, c, c1, c', n);
    }
  }

  function Ballot(s: Node, v: nat): Message {
    EMPTY_MESSAGE.(kind := MsgVote, to := v, from := s.id, term := s.term, index := s.log.Last(), logTerm := s.log.LastTerm())
  }

  /** A candidate that has asked everyone and has the grants of `yes`. */
  ghost predicate Stands(c: Cluster, a: nat, e: Setting, yes: set<nat>) {
    && a in c.nodes && c.nodes[a].role == Candidate && a in yes
    && c.nodes[a].votes.Keys == yes && (forall v :: v in yes ==> c.nodes[a].votes[v])
    && forall v :: v in e.voters && v != a ==> Ballot(c.nodes[a], v) in c.net
  }

  /** A timeout at a node that has applied everything. */
  lemma TimesOut(e: Setting, c: Cluster, n: nat) returns (c': Cluster)
    requires Reached(e, c) && !e.cfg.preVote && n in e.voters && |e.voters| >= 2
    requires n in c.nodes && c.nodes[n].role != Leader && c.nodes[n].log.applied == c.nodes[n].log.committed
    ensures Reached(e, c') && Only(e, c, c', n) && n in c'.nodes && Stands(c', n, e, {n})
    ensures c'.nodes[n].term == c.nodes[n].term + 1 && c'.nodes[n].log == c.nodes[n].log
  {
    hide Reached, React, Asked, Ballot, Sane, InCharge, PeerSane;
    SaneNode(e, c, n);
    NewCandidate(e, c.nodes[n], n);
    c' := Act(e, c, n, Local(EMPTY_MESSAGE));
    AllAsked(e, c.nodes[n], React(e.cfg, c.nodes[n], Local(EMPTY_MESSAGE)).value, c'.nodes[n]);
  }

  lemma NewCandidate(e: Setting, s: Node, n: nat)
    requires Sane(s, n, e) && s.role != Leader && s.log.applied == s.log.committed && |e.voters| >= 2 && !e.cfg.preVote
    ensures LocalInput(e.cfg, EMPTY_MESSAGE) && s.id == n && s.prs.Keys == e.voters && s.msgs == {}
    ensures React(e.cfg, s, Local(EMPTY_MESSAGE)).Ok?
    ensures var r := React(e.cfg, s, Local(EMPTY_MESSAGE)).value;
            && r.role == Candidate && r.term == s.term + 1 && r.id == s.id && r.log == s.log && r.votes == map[n := true]
            && r.msgs == s.msgs + Asked(s, MsgVote)
  {
    hide Step, Asked;
    assert |s.prs| == |s.prs.Keys|;
    TimeoutCampaigns(e.cfg, s, EMPTY_MESSAGE, false);
  }

  lemma AllAsked(e: Setting, s: Node, r: Node, r': Node)
    requires r.msgs == s.msgs + Asked(s, MsgVote) && r.term == s.term + 1 && r.log == s.log && r.id == s.id && s.prs.Keys == e.voters
    requires r' == r.(msgs := {})
    ensures forall v :: v in e.voters && v != s.id ==> Ballot(r', v) in r.msgs
  {
    forall v | v in e.voters && v != s.id ensures Ballot(r', v) in r.msgs {
      assert Ballot(r', v) == AskFor(s, v).(kind := MsgVote);
    }
  }

  /** Timing out again and again, a node gets past any term. */
  lemma StandPast(e: Setting, c: Cluster, n: nat, term: nat) returns (c': Cluster)
    requires Reached(e, c) && !e.cfg.preVote && n in e.voters && |e.voters| >= 2
    requires n in c.nodes && c.nodes[n].role != Leader && c.nodes[n].log.applied == c.nodes[n].log.committed
    ensures Reached(e, c') && Only(e, c, c', n) && n in c'.nodes && Stands(c', n, e, {n})
    ensures c'.nodes[n].term > term && c'.nodes[n].log == c.nodes[n].log && c'.nodes[n].term > c.nodes[n].term
    decreases if c.nodes[n].term < term then term - c.nodes[n].term else 0
  {
    hide Reached;
    var c1 := TimesOut(e, c, n);
    if c1.nodes[n].term > term {
      c' := c1;
    } else {
      c' := StandPast(e, c1, n, term);
      OnlyThen(e, c, c1, c', n);
    }
  }

  // ---------------------------------------------------------------- collecting votes

  function VoteFor(v: nat, a: nat, term: nat): Message {
    EMPTY_MESSAGE.(kind := MsgVoteResp, to := a, from := v, term := term)
  }

  /** The log of `v` does not keep it from voting for `a`. */
  ghost predicate NotAhead(c: Cluster, v: nat, a: nat) {
    && v in c.nodes && a in c.nodes
    && !Below(c.nodes[a].log.LastTerm(), c.nodes[a].log.Last(), c.nodes[v].log.LastTerm(), c.nodes[v].log.Last())
  }

  lemma VoterGrants(cfg: Config, s: Node, m: Message)
    requires m.kind == MsgVote && m.term > s.term && m.from != 0 && Reaches(m, s.log) && s.msgs == {}
    ensures React(cfg, s, Deliver(m, false)).Ok?
    ensures var r := React(cfg, s, Deliver(m, false)).value;
            r.term == m.term && r.role == Follower && r.log == s.log && VoteFor(s.id, m.from, m.term) in r.msgs
  {
    hide Step, Reaches;
    LaterVoteRequest(cfg, s, m, false);
  }

  /** A voter of an earlier term whose log is not ahead grants the candidate its vote. */
  lemma GetVote(e: Setting, c: Cluster, a: nat, v: nat, yes: set<nat>) returns (c': Cluster)
    requires Reached(e, c) && !e.cfg.preVote && a in e.voters && v in e.voters && a != v
    requires Stands(c, a, e, yes) && NotAhead(c, v, a) && c.nodes[v].term < c.nodes[a].term
    ensures Reached(e, c') && Only(e, c, c', v) && v in c'.nodes && VoteFor(v, a, c.nodes[a].term) in c'.net
    ensures c'.nodes[v].term == c.nodes[a].term && c'.nodes[v].role == Follower && c'.nodes[v].log == c.nodes[v].log
  {
    hide Reached, React, Enabled, InCharge, PeerSane;
    SaneNode(e, c, v);
    SaneNode(e, c, a);
    var m := Ballot(c.nodes[a], v);
    VoterGrants(e.cfg, c.nodes[v], m);
    DeliverEnabled(e, c, v, m);
    c' := Act(e, c, v, Deliver(m, false));
  }

  lemma CandidateCounts(e: Setting, s: Node, a: nat, v: nat, yes: set<nat>)
    requires Sane(s, a, e) && s.role == Candidate && s.votes.Keys == yes && (forall u :: u in yes ==> s.votes[u])
    requires v !in yes && |yes| < QuorumSize(|e.voters|) && React(e.cfg, s, Deliver(VoteFor(v, a, s.term), false)).Ok?
    ensures var r := React(e.cfg, s, Deliver(VoteFor(v, a, s.term), false)).value;
            && r.term == s.term
            && if |yes| + 1 == QuorumSize(|e.voters|) then r.role == Leader
               else r == s.(votes := r.votes) && r.votes.Keys == yes + {v} && forall u :: u in yes + {v} ==> r.votes[u]
  {
    hide HandleVoteResp, Granting, Refusing;
    var m := VoteFor(v, a, s.term);
    assert |s.prs| == |s.prs.Keys|;
    OneMoreVote(s, m, yes);
    VoteRespAnswer(e.cfg, s, m);
    var r := HandleVoteResp(e.cfg, s, m).value;
    if |yes| + 1 != QuorumSize(|e.voters|) {
      VotesRecorded(r, yes + {v});
    }
  }

  lemma OneMoreVote(s: Node, m: Message, yes: set<nat>)
    requires s.votes.Keys == yes && (forall u :: u in yes ==> s.votes[u]) && m.from !in yes && !m.reject
    ensures Granting(s, m) == yes + {m.from} && |Granting(s, m)| == |yes| + 1 && Refusing(s, m) == {}
  {
  }

  lemma VotesRecorded(r: Node, yes: set<nat>)
    requires GrantedBy(r.votes) == yes && RefusedBy(r.votes) == {}
    ensures r.votes.Keys == yes && forall u :: u in yes ==> r.votes[u]
  {
    forall u | u in r.votes ensures r.votes[u] && u in yes {
      assert u !in RefusedBy(r.votes);
    }
    assert forall u :: u in yes ==> u in GrantedBy(r.votes);
  }

  /** A leader with nothing counted as uncommitted, whose log extends the one it stood with. */
  ghost predicate InOfficeNow(s: Node, r: Node) {
    r.role == Leader && r.uncommitted == 0 && s.log.ents <= r.log.ents
  }

  lemma NewInOffice(e: Setting, c: Cluster, a: nat, m: Message)
    requires Reached(e, c) && Enabled(e.cfg, c, a, Deliver(m, false)) && React(e.cfg, c.nodes[a], Deliver(m, false)).Ok?
    requires a in c.nodes && c.nodes[a].role == Candidate && React(e.cfg, c.nodes[a], Deliver(m, false)).value.role == Leader
    ensures InOfficeNow(c.nodes[a], React(e.cfg, c.nodes[a], Deliver(m, false)).value)
  {
    hide React, Run, LocalInv, CommitKept, LeadsOn;
    var run := ReachingRun(e, c);
    RunSound(e.cfg, e.voters, e.boot, run, |run| - 1);
    ReactSound(e.cfg, c, a, Deliver(m, false));
    NotByReady(e.cfg, c.nodes[a]);
  }

  lemma NotByReady(cfg: Config, s: Node)
    ensures CursorsOk(s.log) ==> ReadyRound(cfg, s).role == s.role
  {
    if CursorsOk(s.log) {
      ReadyShape(cfg, s);
    }
  }

  /** Its vote reaches the candidate and is counted. */
  lemma CountVote(e: Setting, c: Cluster, a: nat, v: nat, yes: set<nat>) returns (c': Cluster)
    requires Reached(e, c) && !e.cfg.preVote && a in e.voters && v in e.voters && a != v
    requires Stands(c, a, e, yes) && VoteFor(v, a, c.nodes[a].term) in c.net && v !in yes && |yes| < QuorumSize(|e.voters|)
    ensures Reached(e, c') && Only(e, c, c', a) && a in c'.nodes && c'.nodes[a].term == c.nodes[a].term
    ensures if |yes| + 1 == QuorumSize(|e.voters|) then InOfficeNow(c.nodes[a], c'.nodes[a])
            else Stands(c', a, e, yes + {v}) && c'.nodes[a].log == c.nodes[a].log
  {
    hide Reached, React, Enabled, InCharge, PeerSane;
    SaneNode(e, c, a);
    var m := VoteFor(v, a, c.nodes[a].term);
    DeliverEnabled(e, c, a, m);
    c' := Act(e, c, a, Deliver(m, false));
    CandidateCounts(e, c.nodes[a], a, v, yes);
    if |yes| + 1 != QuorumSize(|e.voters|) {
      SameBallots(e, c, c', a, yes + {v});
    } else {
      NewInOffice(e, c, a, m);
    }
  }

  lemma SameBallots(e: Setting, c: Cluster, c': Cluster, a: nat, yes: set<nat>)
    requires a in c.nodes && a in c'.nodes && c.net <= c'.net && a in yes
    requires c'.nodes[a] == c.nodes[a].(votes := c'.nodes[a].votes, msgs := c'.nodes[a].msgs)
    requires c'.nodes[a].votes.Keys == yes && c'.nodes[a].role == Candidate && (forall u :: u in yes ==> c'.nodes[a].votes[u])
    requires forall v :: v in e.voters && v != a ==> Ballot(c.nodes[a], v) in c.net
    ensures Stands(c', a, e, yes)
  {
    forall v | v in e.voters && v != a ensures Ballot(c'.nodes[a], v) in c'.net {
      assert Ballot(c'.nodes[a], v) == Ballot(c.nodes[a], v);
    }
  }

  /** The voters of `todo` are still to be asked: of earlier terms, and none ahead of the candidate. */
  ghost predicate Askable(c: Cluster, a: nat, todo: set<nat>) {
    a in c.nodes && forall v :: v in todo ==> NotAhead(c, v, a) && c.nodes[v].term < c.nodes[a].term
  }

  lemma StillAskable(c: Cluster, d: Cluster, a: nat, v: nat, todo: set<nat>)
    requires Askable(c, a, todo) && v !in todo && a !in todo && MovedWithin(c, d, {a, v})
    requires a in d.nodes && d.nodes[a].log == c.nodes[a].log && d.nodes[a].term == c.nodes[a].term
    ensures Askable(d, a, todo)
  {
    forall u | u in todo ensures NotAhead(d, u, a) && d.nodes[u].term < d.nodes[a].term {
      assert NotAhead(c, u, a);
      assert d.nodes[u] == c.nodes[u];
    }
  }

  lemma AskOne(e: Setting, c: Cluster, a: nat, v: nat, yes: set<nat>) returns (c': Cluster)
    requires Reached(e, c) && !e.cfg.preVote && a in e.voters && v in e.voters && a != v
    requires Stands(c, a, e, yes) && Askable(c, a, {v}) && v !in yes && |yes| < QuorumSize(|e.voters|)
    ensures Reached(e, c') && Within(e, c, c', {a, v}) && a in c'.nodes && v in c'.nodes
    ensures c'.nodes[a].term == c.nodes[a].term == c'.nodes[v].term
    ensures if |yes| + 1 == QuorumSize(|e.voters|) then InOfficeNow(c.nodes[a], c'.nodes[a])
            else Stands(c', a, e, yes + {v}) && c'.nodes[a].log == c.nodes[a].log
  {
    hide Reached, NotAhead, Ballot;
    assert NotAhead(c, v, a);
    var c1 := GetVote(e, c, a, v, yes);
    assert c1.nodes[a] == c.nodes[a];
    assert Stands(c1, a, e, yes);
    c' := CountVote(e, c1, a, v, yes);
    Both(e, c, c1, c', a, v);
  }

  /** What nodes outside `who` are is still so. */
  lemma Elsewhere(c: Cluster, d: Cluster, who: set<nat>, u: nat)
    requires MovedWithin(c, d, who) && u in c.nodes && u !in who
    ensures u in d.nodes && d.nodes[u] == c.nodes[u]
  {
  }

  /** The candidate wins once a majority has answered; those asked are left in its term. */
  lemma {:induction false} Win(e: Setting, c: Cluster, a: nat, yes: set<nat>, todo: set<nat>) returns (c': Cluster)
    requires Reached(e, c) && !e.cfg.preVote && a in e.voters && todo <= e.voters && yes !! todo
    requires Stands(c, a, e, yes) && Askable(c, a, todo) && |yes| < QuorumSize(|e.voters|) <= |yes| + |todo|
    ensures Reached(e, c') && Within(e, c, c', todo + {a}) && a in c'.nodes
    ensures InOfficeNow(c.nodes[a], c'.nodes[a]) && c'.nodes[a].term == c.nodes[a].term
    ensures forall v :: v in todo ==> v in c'.nodes && c'.nodes[v].term <= c'.nodes[a].term
    decreases |todo|
  {
    hide Reached, Stands, Askable, MovedWithin, Joined;
    var v :| v in todo;
    FewerAskable(c, a, todo, {v});
    AskableNotSelf(e, c, a, yes, todo);
    var c1 := AskOne(e, c, a, v, yes);
    More(e, c, c1, {a, v}, todo + {a});
    if |yes| + 1 == QuorumSize(|e.voters|) {
      c' := c1;
      AskedTerms(c, c', a, v, todo);
    } else {
      FewerAskable(c, a, todo, todo - {v});
      StillAskable(c, c1, a, v, todo - {v});
      c' := Win(e, c1, a, yes + {v}, todo - {v});
      More(e, c1, c', todo - {v} + {a}, todo + {a});
      Then(e, c, c1, c', todo + {a}, todo + {a});
      Elsewhere(c1, c', todo - {v} + {a}, v);
    }
  }

  lemma FewerAskable(c: Cluster, a: nat, todo: set<nat>, some: set<nat>)
    requires Askable(c, a, todo) && some <= todo
    ensures Askable(c, a, some)
  {
  }

  lemma AskableNotSelf(e: Setting, c: Cluster, a: nat, yes: set<nat>, todo: set<nat>)
    requires Stands(c, a, e, yes) && yes !! todo
    ensures a !in todo
  {
  }

  lemma AskedTerms(c: Cluster, d: Cluster, a: nat, v: nat, todo: set<nat>)
    requires Askable(c, a, todo) && MovedWithin(c, d, {a, v}) && a !in todo && a in d.nodes && v in d.nodes
    requires d.nodes[a].term == c.nodes[a].term == d.nodes[v].term
    ensures forall u :: u in todo ==> u in d.nodes && d.nodes[u].term <= d.nodes[a].term
  {
    hide Below;
    forall u | u in todo ensures u in d.nodes && d.nodes[u].term <= d.nodes[a].term {
      assert NotAhead(c, u, a);
    }
  }

  // ---------------------------------------------------------------- heartbeats

  const BEAT := EMPTY_MESSAGE.(kind := MsgBeat)

  lemma BeatReacts(e: Setting, s: Node, a: nat)
    requires Sane(s, a, e) && s.role == Leader
    ensures LocalInput(e.cfg, BEAT)
    ensures React(e.cfg, s, Local(BEAT)) == Ok(s.(msgs := set v | v in s.prs && v != s.id :: HeartbeatFor(s, v)))
  {
    hide HeartbeatFor, BcastHeartbeat;
    HeartbeatsToPeers(s);
    var beats := set v | v in s.prs && v != s.id :: HeartbeatFor(s, v);
    assert s.msgs + beats == beats;
  }

  lemma FollowerHears(cfg: Config, s: Node, m: Message)
    requires m.kind == MsgHeartbeat && m.term >= s.term && m.term >= 1 && (s.role != Leader || m.term > s.term)
    requires React(cfg, s, Deliver(m, false)).Ok?
    ensures var r := React(cfg, s, Deliver(m, false)).value;
            && r.role == Follower && r.term == m.term && r.log.ents == s.log.ents && r.log.committed == Max(s.log.committed, m.commit)
            && EMPTY_MESSAGE.(kind := MsgHeartbeatResp, to := m.from, from := s.id, term := m.term) in r.msgs
  {
    hide Step;
    LeaderIsFollowed(cfg, s, m, false);
  }

  function BeatAnswer(v: nat, a: nat, term: nat): Message {
    EMPTY_MESSAGE.(kind := MsgHeartbeatResp, to := a, from := v, term := term)
  }

  /** A leader's heartbeat makes any node not past its term follow it and answer. */
  lemma Reach(e: Setting, c: Cluster, a: nat, v: nat) returns (c': Cluster)
    requires Reached(e, c) && !e.cfg.preVote && a in e.voters && v in e.voters && a != v && a in c.nodes && v in c.nodes
    requires c.nodes[a].role == Leader && c.nodes[v].term <= c.nodes[a].term
    requires c.nodes[v].role == Leader ==> c.nodes[v].term < c.nodes[a].term
    ensures Reached(e, c') && OnlyMoved(c, c', v) && Within(e, c, c', {a, v}) && v in c'.nodes && BeatAnswer(v, a, c.nodes[a].term) in c'.net
    ensures c'.nodes[v].role == Follower && c'.nodes[v].term == c.nodes[a].term && c'.nodes[v].log.ents == c.nodes[v].log.ents
    ensures v in c.nodes[a].prs
    ensures c'.nodes[v].log.committed == Max(c.nodes[v].log.committed, Min(c.nodes[a].prs[v].matched, c.nodes[a].log.committed))
  {
    hide Reached, React, Enabled, InCharge, PeerSane;
    SaneNode(e, c, a);
    SaneNode(e, c, v);
    var s := c.nodes[a];
    BeatReacts(e, s, a);
    BeatEnabled(e, c, a);
    var c1 := Act(e, c, a, Local(BEAT));
    NothingMoved(c, c1, a);
    var m := HeartbeatFor(s, v);
    DeliverEnabled(e, c1, v, m);
    c' := Act(e, c1, v, Deliver(m, false));
    Both(e, c, c1, c', v, a);
    assert {v, a} == {a, v};
    FollowerHears(e.cfg, c.nodes[v], m);
  }

  lemma BeatEnabled(e: Setting, c: Cluster, a: nat)
    requires a in c.nodes && LocalInput(e.cfg, BEAT)
    ensures Enabled(e.cfg, c, a, Local(BEAT))
  {
  }

  // ---------------------------------------------------------------- elections

  lemma VoterFollows(cfg: Config, s: Node, m: Message)
    requires m.kind == MsgVote && m.term > s.term && m.from != 0
    ensures React(cfg, s, Deliver(m, false)).Ok?
    ensures var r := React(cfg, s, Deliver(m, false)).value; r.role == Follower && r.log == s.log
  {
    hide Step, Reaches;
    LaterVoteRequest(cfg, s, m, false);
  }

  /** The log entries of the nodes are the same. */
  ghost predicate SameEntries(c: Cluster, d: Cluster) {
    d.nodes.Keys == c.nodes.Keys && forall v {:trigger d.nodes[v]} :: v in c.nodes ==> d.nodes[v].log.ents == c.nodes[v].log.ents
  }

  lemma MovedOneEntries(c: Cluster, d: Cluster, v: nat)
    requires OnlyMoved(c, d, v) && v in c.nodes && v in d.nodes && d.nodes[v].log.ents == c.nodes[v].log.ents
    ensures SameEntries(c, d)
  {
  }

  lemma EntriesTrans(c: Cluster, d: Cluster, f: Cluster)
    requires SameEntries(c, d) && SameEntries(d, f)
    ensures SameEntries(c, f)
  {
    forall v | v in c.nodes ensures f.nodes[v].log.ents == c.nodes[v].log.ents {
      assert d.nodes[v].log.ents == c.nodes[v].log.ents;
    }
  }

  /** A node that does not lead applies what is committed and stands in a term past the given one. */
  lemma Stand(e: Setting, c: Cluster, n: nat, term: nat) returns (c': Cluster)
    requires Reached(e, c) && !e.cfg.preVote && n in e.voters && |e.voters| >= 2 && n in c.nodes && c.nodes[n].role != Leader
    ensures Reached(e, c') && Only(e, c, c', n) && SameEntries(c, c')
    ensures n in c'.nodes && Stands(c', n, e, {n}) && c'.nodes[n].term > term
  {
    hide Reached, Stands, SameEntries;
    var c1 := ApplyAll(e, c, n);
    c' := StandPast(e, c1, n, term);
    OnlyThen(e, c, c1, c', n);
    MovedOneEntries(c, c', n);
  }

  lemma Overtake(e: Setting, c: Cluster, a: nat, w: nat) returns (c': Cluster)
    requires Reached(e, c) && !e.cfg.preVote && a in e.voters && w in e.voters && a != w && a in c.nodes
    requires Stands(c, w, e, {w}) && c.nodes[a].term < c.nodes[w].term
    ensures Reached(e, c') && Only(e, c, c', a) && SameEntries(c, c') && a in c'.nodes && c'.nodes[a].role != Leader
  {
    hide Reached, React, Enabled, InCharge, PeerSane, SameEntries;
    SaneNode(e, c, a);
    SaneNode(e, c, w);
    var m := Ballot(c.nodes[w], a);
    DeliverEnabled(e, c, a, m);
    c' := Act(e, c, a, Deliver(m, false));
    VoterFollows(e.cfg, c.nodes[a], m);
    MovedOneEntries(c, c', a);
  }

  /** A candidacy of another node ends a leadership. */
  lemma Outvote(e: Setting, c: Cluster, a: nat, w: nat) returns (c': Cluster)
    requires Reached(e, c) && !e.cfg.preVote && a in e.voters && w in e.voters && a != w && |e.voters| >= 2
    requires a in c.nodes && w in c.nodes && c.nodes[w].role != Leader
    ensures Reached(e, c') && Within(e, c, c', {a, w}) && SameEntries(c, c')
    ensures a in c'.nodes && c'.nodes[a].role != Leader
  {
    hide Reached, Stands, SameEntries;
    var c1 := Stand(e, c, w, c.nodes[a].term);
    c' := Overtake(e, c1, a, w);
    Both(e, c, c1, c', a, w);
    EntriesTrans(c, c1, c');
  }

  lemma LeadersDiffer(e: Setting, c: Cluster, a: nat, w: nat)
    requires Reached(e, c) && !e.cfg.preVote && a in c.nodes && w in c.nodes && a != w
    requires c.nodes[a].role == Leader && c.nodes[w].role == Leader
    ensures c.nodes[a].term != c.nodes[w].term
  {
    hide Run;
    var run := ReachingRun(e, c);
    if c.nodes[a].term == c.nodes[w].term {
      ElectionSafety(e.cfg, e.voters, e.boot, run, |run| - 1, |run| - 1, a, w);
    }
  }

  /** Two nodes are enough to make either stop leading. */
  lemma Depose(e: Setting, c: Cluster, a: nat, w: nat) returns (c': Cluster)
    requires Reached(e, c) && !e.cfg.preVote && a in e.voters && w in e.voters && a != w && |e.voters| >= 2
    ensures Reached(e, c') && Within(e, c, c', {a, w}) && SameEntries(c, c')
    ensures a in c'.nodes && c'.nodes[a].role != Leader
  {
    hide Reached, InCharge, PeerSane, SameEntries, Sane;
    SaneNode(e, c, a);
    SaneNode(e, c, w);
    if c.nodes[a].role != Leader {
      c' := c;
      EntriesRefl(c);
      Stay(e, c, {a, w});
    } else if c.nodes[w].role != Leader {
      c' := Outvote(e, c, a, w);
    } else {
      LeadersDiffer(e, c, a, w);
      if c.nodes[w].term > c.nodes[a].term {
        c' := Reach(e, c, w, a);
        assert {w, a} == {a, w};
        MovedOneEntries(c, c', a);
      } else {
        var c1 := Reach(e, c, a, w);
        MovedOneEntries(c, c1, w);
        c' := Outvote(e, c1, a, w);
        Then(e, c, c1, c', {a, w}, {a, w});
        EntriesTrans(c, c1, c');
      }
    }
  }

  lemma EntriesRefl(c: Cluster)
    ensures SameEntries(c, c)
  {
  }

  /** A bound on the terms of some nodes. */
  lemma {:induction false} TermBound(c: Cluster, some: set<nat>) returns (t: nat)
    requires some <= c.nodes.Keys
    ensures forall v :: v in some ==> c.nodes[v].term <= t
  {
    if some == {} {
      t := 0;
    } else {
      var v :| v in some;
      t := TermBound(c, some - {v});
      t := Max(t, c.nodes[v].term);
    }
  }

  ghost predicate Farthest(c: Cluster, a: nat, some: set<nat>) {
    forall v :: v in some ==> NotAhead(c, v, a)
  }

  lemma StillFarthest(c: Cluster, d: Cluster, a: nat, some: set<nat>)
    requires Farthest(c, a, some) && SameEntries(c, d)
    ensures Farthest(d, a, some)
  {
    hide Below;
    forall v | v in some ensures NotAhead(d, v, a) {
      assert NotAhead(c, v, a);
      assert d.nodes[v].log.LastTerm() == c.nodes[v].log.LastTerm() && d.nodes[a].log.LastTerm() == c.nodes[a].log.LastTerm();
    }
  }

  /** A node that does not lead, with the farthest log of a majority, stands and wins. */
  lemma Elect(e: Setting, c: Cluster, a: nat, some: set<nat>, floor: nat) returns (c': Cluster)
    requires Reached(e, c) && !e.cfg.preVote && IsMajority(some, e.voters) && |e.voters| >= 2 && a in some
    requires a in c.nodes && c.nodes[a].role != Leader && Farthest(c, a, some)
    ensures Reached(e, c') && Within(e, c, c', some) && a in c'.nodes && InOfficeNow(c.nodes[a], c'.nodes[a])
    ensures c'.nodes[a].term > floor
    ensures forall v :: v in some ==> v in c'.nodes && c'.nodes[v].term <= c'.nodes[a].term
  {
    hide Reached, Stands, Farthest, MovedWithin, SameEntries, Askable, InOfficeNow;
    AllNodes(e, c, some);
    var t := TermBound(c, some);
    var c1 := Stand(e, c, a, Max(t, floor));
    StillFarthest(c, c1, a, some);
    OneOf(e, c, c1, a, some);
    var others := some - {a};
    OthersAskable(c, c1, a, some, Max(t, floor));
    assert |others| == |some| - 1;
    c' := Win(e, c1, a, {a}, others);
    assert others + {a} == some;
    Then(e, c, c1, c', some, some);
    OfficeOverEntries(c, c1, c', a);
  }

  lemma OfficeOverEntries(c: Cluster, d: Cluster, f: Cluster, a: nat)
    requires SameEntries(c, d) && a in d.nodes && a in f.nodes && InOfficeNow(d.nodes[a], f.nodes[a])
    ensures a in c.nodes && InOfficeNow(c.nodes[a], f.nodes[a])
  {
  }

  lemma OthersAskable(c: Cluster, d: Cluster, a: nat, some: set<nat>, t: nat)
    requires OnlyMoved(c, d, a) && Farthest(d, a, some) && a in d.nodes && d.nodes[a].term > t && some <= c.nodes.Keys
    requires forall v :: v in some ==> c.nodes[v].term <= t
    ensures Askable(d, a, some - {a})
  {
    hide NotAhead;
  }

  lemma AllNodes(e: Setting, c: Cluster, some: set<nat>)
    requires Reached(e, c) && some <= e.voters && !e.cfg.preVote
    ensures some <= c.nodes.Keys
  {
    hide Reached, InCharge, PeerSane, Sane;
    forall v | v in some ensures v in c.nodes {
      SaneNode(e, c, v);
    }
  }

  /** From every reached cluster the nodes of any majority can elect one of their own in a term past all of
      theirs. */
  lemma Electable(e: Setting, c: Cluster, some: set<nat>) returns (a: nat, c': Cluster)
    requires Reached(e, c) && !e.cfg.preVote && IsMajority(some, e.voters) && |e.voters| >= 2
    ensures Reached(e, c') && Within(e, c, c', some) && a in some && a in c.nodes && a in c'.nodes
    ensures InOfficeNow(c.nodes[a], c'.nodes[a])
    ensures forall v :: v in some ==> v in c.nodes && c.nodes[v].term < c'.nodes[a].term
    ensures forall v :: v in some ==> v in c'.nodes && c'.nodes[v].term <= c'.nodes[a].term
  {
    hide Reached, Farthest, SameEntries, MovedWithin, InOfficeNow;
    AllNodes(e, c, some);
    a := FarthestNode(e, c, some);
    var w := AnotherOf(some, e.voters, a);
    var c1 := Depose(e, c, a, w);
    StillFarthest(c, c1, a, some);
    var floor := TermBound(c, some);
    c' := Elect(e, c1, a, some, floor);
    Then(e, c, c1, c', {a, w}, some);
    OfficeOverEntries(c, c1, c', a);
  }

  lemma FarthestNode(e: Setting, c: Cluster, some: set<nat>) returns (a: nat)
    requires IsMajority(some, e.voters) && some <= c.nodes.Keys
    ensures a in some && Farthest(c, a, some)
  {
    a := FarthestLog(c.nodes, some);
    hide Below;
  }

  lemma AnotherOf(some: set<nat>, voters: set<nat>, a: nat) returns (w: nat)
    requires IsMajority(some, voters) && |voters| >= 2 && a in some
    ensures w in some && w != a
  {
    assert |some - {a}| == |some| - 1 > 0;
    w :| w in some - {a};
  }

  // ---------------------------------------------------------------- catching up

  /** The leader goes on in its term with the same entries, and of the matches only that of `v` may have risen. */
  ghost predicate Serving(s: Node, r: Node, v: nat) {
    && r.id == s.id && r.role == s.role && r.term == s.term && r.log.ents == s.log.ents && r.prs.Keys == s.prs.Keys
    && v in s.prs && s.prs[v].matched <= r.prs[v].matched
    && forall u {:trigger r.prs[u]} :: u in s.prs && u != v ==> r.prs[u].matched == s.prs[u].matched
  }

  lemma ServingTrans(a: Node, b: Node, c: Node, v: nat)
    requires Serving(a, b, v) && Serving(b, c, v)
    ensures Serving(a, c, v)
  {
    forall u | u in a.prs && u != v ensures c.prs[u].matched == a.prs[u].matched {
      assert b.prs[u].matched == a.prs[u].matched;
    }
  }

  /** The leader's view of the peer after sending `n` entries on a heartbeat's answer. */
  ghost predicate SentFrom(p: Progress, q: Progress, n: nat) {
    && q.matched == p.matched && q.state == p.state && q.next == if p.state == Replicate then p.next + n else p.next
  }

  lemma ResumeReacts(e: Setting, s: Node, a: nat, v: nat) returns (x: Message)
    requires Sane(s, a, e) && s.role == Leader && v in e.voters && v != a && PeerSane(e.cfg, s.prs[v], s.log.Last())
    requires e.cfg.maxInflight > 0 && s.prs[v].matched < s.log.Last()
    ensures React(e.cfg, s, Deliver(BeatAnswer(v, a, s.term), false)).Ok?
    ensures var r := React(e.cfg, s, Deliver(BeatAnswer(v, a, s.term), false)).value;
            && IsAppend(e.cfg, s, v, s.prs[v].next - 1, x) && x in r.msgs
            && v in r.prs && r == s.(prs := s.prs[v := r.prs[v]], msgs := r.msgs) && SentFrom(s.prs[v], r.prs[v], |x.entries|)
  {
    hide HandleHeartbeatResp, IsAppend, FlowOk;
    x := HeartbeatRespAnswer(e.cfg, s, BeatAnswer(v, a, s.term));
  }

  /** The answer to a heartbeat lets the leader send what the peer lacks from its next position on. */
  lemma Resume(e: Setting, c: Cluster, a: nat, v: nat) returns (c': Cluster, x: Message)
    requires Reached(e, c) && !e.cfg.preVote && e.cfg.maxInflight > 0 && a in e.voters && v in e.voters && a != v
    requires a in c.nodes && c.nodes[a].role == Leader && BeatAnswer(v, a, c.nodes[a].term) in c.net
    requires v in c.nodes[a].prs && c.nodes[a].prs[v].matched < c.nodes[a].log.Last()
    ensures Reached(e, c') && Only(e, c, c', a) && a in c'.nodes && x in c'.net
    ensures var s, r := c.nodes[a], c'.nodes[a];
            && IsAppend(e.cfg, s, v, s.prs[v].next - 1, x)
            && v in r.prs && r == s.(prs := s.prs[v := r.prs[v]]) && SentFrom(s.prs[v], r.prs[v], |x.entries|)
  {
    hide Reached, React, Enabled, InCharge, PeerSane, IsAppend, SentFrom;
    SaneNode(e, c, a);
    var s := c.nodes[a];
    x := ResumeReacts(e, s, a, v);
    DeliverEnabled(e, c, a, BeatAnswer(v, a, s.term));
    c' := Act(e, c, a, Deliver(BeatAnswer(v, a, s.term), false));
  }

  /** What the answer to the append tells the leader: an acknowledgement reaches past the position it was sent from,
      a refusal concerns that position, which is past the match. */
  ghost predicate Tells(y: Message, x: Message, a: nat, v: nat, p: Progress) {
    && y.kind == MsgAppResp && y.to == a && y.from == v && y.term == x.term
    && (y.reject ==> y.index == x.index > p.matched && y.rejectHint >= p.matched)
    && (!y.reject ==> y.index > x.index || y.index == x.index > p.matched)
  }

  /** In the leader's term the peer holds the leader's entries through its match. */
  ghost predicate HeldThrough(s: Node, f: Node, v: nat) {
    v in s.prs && s.prs[v].matched <= f.log.Last() && s.prs[v].matched <= s.log.Last()
    && forall i :: 0 <= i <= s.prs[v].matched ==> f.log.TermAt(i) == s.log.TermAt(i)
  }

  lemma AgreeTerms(a: Log, b: Log, n: nat)
    requires Agree(a.ents, b.ents, n) && a.base == b.base == 0 && a.baseTerm == b.baseTerm
    ensures n <= a.Last() && n <= b.Last() && forall i :: 0 <= i <= n ==> a.TermAt(i) == b.TermAt(i)
  {
    forall i | 0 <= i <= n ensures a.TermAt(i) == b.TermAt(i) {
      if i > 0 {
        assert a.ents[i - 1] == a.ents[..n][i - 1] == b.ents[..n][i - 1];
      }
    }
  }

  lemma PeerHolds(e: Setting, c: Cluster, a: nat, v: nat)
    requires Reached(e, c) && !e.cfg.preVote && a in e.voters && v in e.voters && a in c.nodes && v in c.nodes
    requires c.nodes[a].role == Leader && c.nodes[v].term == c.nodes[a].term
    ensures HeldThrough(c.nodes[a], c.nodes[v], v)
  {
    hide Run, InCharge, PeerSane, Reached;
    SaneNode(e, c, a);
    var run := ReachingRun(e, c);
    MatchSoundness(e.cfg, e.voters, e.boot, run, |run| - 1, a, v);
    AgreeTerms(c.nodes[v].log, c.nodes[a].log, c.nodes[a].prs[v].matched);
  }

  /** The terms an append carries, where it is sent from and the position before it. */
  lemma AppendTerms(cfg: Config, s: Node, v: nat, index: nat, x: Message)
    requires IsAppend(cfg, s, v, index, x) && CursorsOk(s.log)
    requires forall k :: 0 <= k < |s.log.ents| ==> s.log.ents[k].term >= 1 && s.log.ents[k].index == k + 1
    ensures x.kind == MsgApp && x.to == v && x.from == s.id && x.term == s.term && x.index == index && x.logTerm == s.log.TermAt(index)
    ensures Contiguous(x.entries, x.index + 1) && forall k :: 0 <= k < |x.entries| ==> x.entries[k].term >= 1
    ensures index > 0 ==> x.logTerm >= 1
    ensures index < s.log.Last() ==> x.entries != []
  {
    forall k | 0 <= k < |x.entries| ensures x.entries[k].term >= 1 && x.entries[k].index == x.index + 1 + k {
      assert x.entries[k] == s.log.ents[index + k];
    }
  }

  lemma FollowReacts(e: Setting, s: Node, f: Node, a: nat, v: nat, x: Message) returns (y: Message)
    requires Sane(s, a, e) && Sane(f, v, e) && s.role == Leader && f.role == Follower && f.term == s.term && HeldThrough(s, f, v)
    requires IsAppend(e.cfg, s, v, s.prs[v].next - 1, x) && s.prs[v].matched < s.log.Last()
    ensures React(e.cfg, f, Deliver(x, false)).Ok?
    ensures var r := React(e.cfg, f, Deliver(x, false)).value;
            Tells(y, x, a, v, s.prs[v]) && y in r.msgs && r.role == Follower && r.term == f.term
    ensures x.kind == MsgApp && x.to == v && x.from == a
  {
    hide Step, HandleAppend, IsAppend, Took;
    AppendTerms(e.cfg, s, v, s.prs[v].next - 1, x);
    AppendWithinLog(e.cfg, s, v, s.prs[v].next - 1, x);
    LeaderIsFollowed(e.cfg, f, x, false);
    var f1 := f.(lead := a);
    AppendAnswer(f1, x);
    y := if x.index < f.log.committed then AppResp(f1, a, f.log.committed)
         else if f.log.TermAt(x.index) != x.logTerm then AppResp(f1, a, x.index).(reject := true, rejectHint := f.log.Last())
         else AppResp(f1, a, x.index + |x.entries|);
  }

  lemma AppendWithinLog(cfg: Config, s: Node, v: nat, index: nat, x: Message)
    requires IsAppend(cfg, s, v, index, x)
    ensures index + |x.entries| <= s.log.Last() && (x.entries == [] ==> index == s.log.Last())
  {
  }

  /** The peer answers the append by the rule, staying a follower of the term. */
  lemma Answer(e: Setting, c: Cluster, s: Node, a: nat, v: nat, x: Message) returns (c': Cluster, y: Message)
    requires Reached(e, c) && !e.cfg.preVote && a in e.voters && v in e.voters && a != v && v in c.nodes && x in c.net
    requires Sane(s, a, e) && s.role == Leader && c.nodes[v].role == Follower && c.nodes[v].term == s.term && HeldThrough(s, c.nodes[v], v)
    requires IsAppend(e.cfg, s, v, s.prs[v].next - 1, x) && s.prs[v].matched < s.log.Last()
    ensures Reached(e, c') && Only(e, c, c', v) && y in c'.net && v in s.prs && Tells(y, x, a, v, s.prs[v])
    ensures v in c'.nodes && c'.nodes[v].term == s.term && c'.nodes[v].role == Follower
  {
    hide Reached, React, Enabled, InCharge, PeerSane, IsAppend, HeldThrough, Tells;
    SaneNode(e, c, v);
    y := FollowReacts(e, s, c.nodes[v], a, v, x);
    DeliverEnabled(e, c, v, x);
    c' := Act(e, c, v, Deliver(x, false));
  }

  // ---------------------------------------------------------------- what the leader learns

  /** How far the leader is from sending the peer the entry after its match. */
  function Astray(p: Progress): nat {
    if p.state == Replicate then 1
    else if p.next > p.matched then p.next - (p.matched + 1)
    else p.matched + 1 - p.next
  }

  /** The peer's match has risen or the next append is nearer to the entry after it. */
  ghost predicate Nearer(p: Progress, q: Progress) {
    q.matched > p.matched || (q.matched == p.matched && Astray(q) < Astray(p))
  }

  lemma LearnReacts(e: Setting, s0: Node, s: Node, a: nat, v: nat, x: Message, y: Message)
    requires Sane(s, a, e) && s.role == Leader && v in e.voters && v != a && PeerSane(e.cfg, s.prs[v], s.log.Last())
    requires v in s0.prs && PeerSane(e.cfg, s0.prs[v], s.log.Last())
    requires SentFrom(s0.prs[v], s.prs[v], |x.entries|) && x.index == s0.prs[v].next - 1 && x.term == s.term
    requires Tells(y, x, a, v, s0.prs[v]) && (!y.reject ==> y.index <= s.log.Last())
    ensures React(e.cfg, s, Deliver(y, false)).Ok?
    ensures var r := React(e.cfg, s, Deliver(y, false)).value;
            Serving(s, r.(msgs := {}), v) && Nearer(s0.prs[v], r.prs[v])
  {
    hide HandleAppResp, ProbedFrom, CommitsBy, FlowOk, Told;
    var r := HandleAppResp(e.cfg, s, y);
    PeerFacts(e.cfg, s0.prs[v], s.log.Last());
    PeerFacts(e.cfg, s.prs[v], s.log.Last());
    assert React(e.cfg, s, Deliver(y, false)) == r;
    if !y.reject && y.index > s.prs[v].matched {
      Acknowledged(e.cfg, s, y);
    } else if !y.reject {
      AcknowledgedLate(e.cfg, s, y);
    } else if s.prs[v].state == Replicate {
      var z := RejectedWhileReplicating(e.cfg, s, y);
      ProbedServes(e, s, r.value, v, s.prs[v].matched + 1, z);
    } else {
      var z := RejectedWhileProbing(e.cfg, s, y);
      ProbedServes(e, s, r.value, v, Max(1, Min(y.index, y.rejectHint + 1)), z);
    }
  }

  lemma PeerFacts(cfg: Config, p: Progress, last: nat)
    requires PeerSane(cfg, p, last)
    ensures if p.state == Replicate then p.matched < p.next else p.inflights == [] && p.state == Probe
  {
  }

  lemma ProbedServes(e: Setting, s: Node, r: Node, v: nat, next: Position, z: Message)
    requires v in s.prs && ProbedFrom(e.cfg, s, r, v, next, z)
    ensures Serving(s, r.(msgs := {}), v) && r.prs[v].matched == s.prs[v].matched && r.prs[v].state == Probe && r.prs[v].next == next
  {
    hide IsAppend;
  }

  /** No acknowledgement of the leader's term reaches past its log. */
  lemma AckedInLog(e: Setting, c: Cluster, a: nat, y: Message)
    requires Reached(e, c) && !e.cfg.preVote && a in e.voters && a in c.nodes && c.nodes[a].role == Leader
    requires y in c.net && y.kind == MsgAppResp && !y.reject && y.term == c.nodes[a].term
    ensures y.index <= c.nodes[a].log.Last()
  {
    hide Run, NodeInv, HistInv, LogsInv, AckInv, LogOk;
    var run := ReachingRun(e, c);
    var i := |run| - 1;
    var hs := RunHistories(e.cfg, e.voters, e.boot, run);
    assert MsgInv(y, hs[i]);
    NodeFacts(c, hs[i], a);
    LeaderFacts(c.nodes[a], hs[i]);
    HistAcks(hs[i]);
    AckWithinLog(hs[i], y.from, y.term);
  }

  lemma HistAcks(h: Hist)
    requires HistInv(h)
    ensures AckInv(h)
  {
  }

  lemma Learn(e: Setting, c: Cluster, s0: Node, a: nat, v: nat, x: Message, y: Message) returns (c': Cluster)
    requires Reached(e, c) && !e.cfg.preVote && a in e.voters && v in e.voters && a != v && a in c.nodes && y in c.net
    requires c.nodes[a].role == Leader && x.term == c.nodes[a].term && v in s0.prs && v in c.nodes[a].prs
    requires s0.log == c.nodes[a].log && PeerSane(e.cfg, s0.prs[v], s0.log.Last())
    requires SentFrom(s0.prs[v], c.nodes[a].prs[v], |x.entries|) && x.index == s0.prs[v].next - 1
    requires Tells(y, x, a, v, s0.prs[v])
    ensures Reached(e, c') && Only(e, c, c', a) && a in c'.nodes
    ensures Serving(c.nodes[a], c'.nodes[a], v) && Nearer(s0.prs[v], c'.nodes[a].prs[v])
  {
    hide Reached, React, Enabled, InCharge, PeerSane, SentFrom, Serving, Nearer;
    SaneNode(e, c, a);
    if !y.reject {
      AckedInLog(e, c, a, y);
    }
    LearnReacts(e, s0, c.nodes[a], a, v, x, y);
    DeliverEnabled(e, c, a, y);
    c' := Act(e, c, a, Deliver(y, false));
  }

  /** The append on its way to a peer that follows. */
  ghost predicate Underway(e: Setting, c: Cluster, s: Node, a: nat, v: nat, x: Message) {
    && a in c.nodes && v in c.nodes && c.nodes[v].role == Follower && c.nodes[v].term == s.term && HeldThrough(s, c.nodes[v], v)
    && x in c.net && v in s.prs && IsAppend(e.cfg, s, v, s.prs[v].next - 1, x)
    && v in c.nodes[a].prs && c.nodes[a] == s.(prs := s.prs[v := c.nodes[a].prs[v]]) && SentFrom(s.prs[v], c.nodes[a].prs[v], |x.entries|)
  }

  lemma SendOut(e: Setting, c: Cluster, a: nat, v: nat) returns (c': Cluster, x: Message)
    requires Reached(e, c) && !e.cfg.preVote && e.cfg.maxInflight > 0 && a in e.voters && v in e.voters && a != v
    requires a in c.nodes && v in c.nodes && c.nodes[a].role == Leader && c.nodes[v].term <= c.nodes[a].term
    requires v in c.nodes[a].prs && c.nodes[a].prs[v].matched < c.nodes[a].log.Last()
    ensures Reached(e, c') && Within(e, c, c', {a, v}) && Underway(e, c', c.nodes[a], a, v, x)
  {
    hide Reached, InCharge, PeerSane, IsAppend, HeldThrough, SentFrom, Sane, Joined;
    if c.nodes[v].role == Leader {
      LeadersDiffer(e, c, a, v);
    }
    var c1 := Reach(e, c, a, v);
    c', x := Resume(e, c1, a, v);
    OneOf(e, c1, c', a, {a, v});
    Then(e, c, c1, c', {a, v}, {a, v});
    PeerHolds(e, c', a, v);
    SameHold(c.nodes[a], c'.nodes[a], c'.nodes[v], v, |x.entries|);
  }

  lemma SameHold(s: Node, r: Node, f: Node, v: nat, n: nat)
    requires HeldThrough(r, f, v) && v in s.prs && v in r.prs && r == s.(prs := s.prs[v := r.prs[v]]) && SentFrom(s.prs[v], r.prs[v], n)
    ensures HeldThrough(s, f, v)
  {
  }

  /** A heartbeat, its answer, an append and the answer to that: the leader has come nearer. */
  lemma Round(e: Setting, c: Cluster, a: nat, v: nat) returns (c': Cluster)
    requires Reached(e, c) && !e.cfg.preVote && e.cfg.maxInflight > 0 && a in e.voters && v in e.voters && a != v
    requires a in c.nodes && v in c.nodes && c.nodes[a].role == Leader && c.nodes[v].term <= c.nodes[a].term
    requires v in c.nodes[a].prs && c.nodes[a].prs[v].matched < c.nodes[a].log.Last()
    ensures Reached(e, c') && Within(e, c, c', {a, v}) && a in c'.nodes && v in c'.nodes
    ensures Serving(c.nodes[a], c'.nodes[a], v) && Nearer(c.nodes[a].prs[v], c'.nodes[a].prs[v])
    ensures c'.nodes[v].term == c.nodes[a].term
  {
    hide Reached, InCharge, PeerSane, IsAppend, HeldThrough, SentFrom, Sane, Tells, Nearer, Serving;
    SaneNode(e, c, a);
    var s := c.nodes[a];
    var c1, x := SendOut(e, c, a, v);
    var c2, y := Answer(e, c1, s, a, v, x);
    SentAt(e.cfg, s, v, x);
    c' := Learn(e, c2, s, a, v, x, y);
    Both(e, c1, c2, c', a, v);
    Then(e, c, c1, c', {a, v}, {a, v});
    ServingSent(s, c2.nodes[a], c'.nodes[a], v, |x.entries|);
  }

  lemma SentAt(cfg: Config, s: Node, v: nat, x: Message)
    requires v in s.prs && IsAppend(cfg, s, v, s.prs[v].next - 1, x)
    ensures x.index == s.prs[v].next - 1 && x.term == s.term
  {
  }

  lemma ServingSent(s: Node, s1: Node, r: Node, v: nat, n: nat)
    requires v in s.prs && v in s1.prs && s1 == s.(prs := s.prs[v := s1.prs[v]]) && SentFrom(s.prs[v], s1.prs[v], n) && Serving(s1, r, v)
    ensures Serving(s, r, v)
  {
    assert Serving(s, s1, v);
    ServingTrans(s, s1, r, v);
  }

  function Behind(s: Node, v: nat): nat
    requires v in s.prs
  {
    if s.prs[v].matched < s.log.Last() then s.log.Last() - s.prs[v].matched else 0
  }

  /** Round after round a peer comes to hold the leader's whole log, and the leader knows. */
  lemma {:induction false} CatchUp(e: Setting, c: Cluster, a: nat, v: nat) returns (c': Cluster)
    requires Reached(e, c) && !e.cfg.preVote && e.cfg.maxInflight > 0 && a in e.voters && v in e.voters && a != v
    requires a in c.nodes && v in c.nodes && c.nodes[a].role == Leader && c.nodes[v].term <= c.nodes[a].term && v in c.nodes[a].prs
    ensures Reached(e, c') && Within(e, c, c', {a, v}) && a in c'.nodes && v in c'.nodes
    ensures Serving(c.nodes[a], c'.nodes[a], v) && c'.nodes[a].prs[v].matched == c'.nodes[a].log.Last()
    ensures c'.nodes[v].term <= c'.nodes[a].term
    decreases Behind(c.nodes[a], v), Astray(c.nodes[a].prs[v])
  {
    hide Reached, InCharge, FlowOk, Sane, Astray;
    if c.nodes[a].prs[v].matched >= c.nodes[a].log.Last() {
      SaneNode(e, c, a);
      c' := c;
      Stay(e, c, {a, v});
    } else {
      var c1 := Round(e, c, a, v);
      ServingFacts(c.nodes[a], c1.nodes[a], v);
      c' := CatchUp(e, c1, a, v);
      Then(e, c, c1, c', {a, v}, {a, v});
      ServingTrans(c.nodes[a], c1.nodes[a], c'.nodes[a], v);
    }
  }

  lemma ServingFacts(s: Node, r: Node, v: nat)
    requires Serving(s, r, v)
    ensures r.log.Last() == s.log.Last() && v in r.prs && r.role == s.role && r.term == s.term
  {
  }

  // ---------------------------------------------------------------- a whole majority

  ghost predicate TermsWithin(c: Cluster, a: nat, some: set<nat>) {
    a in c.nodes && forall v :: v in some ==> v in c.nodes && c.nodes[v].term <= c.nodes[a].term
  }

  /** The leader goes on in its term with the same entries, and it knows that `done` hold all of them. */
  ghost predicate Completed(s: Node, r: Node, done: set<nat>) {
    && r.id == s.id && r.role == s.role && r.term == s.term && r.log.ents == s.log.ents && r.prs.Keys == s.prs.Keys
    && forall v :: v in done ==> v in r.prs && r.prs[v].matched == r.log.Last()
  }

  lemma CompletedMore(s: Node, r: Node, r': Node, v: nat, done: set<nat>)
    requires Completed(s, r, done) && Serving(r, r', v) && r'.prs[v].matched == r'.log.Last()
    ensures Completed(s, r', done + {v})
  {
    forall u | u in done + {v} ensures u in r'.prs && r'.prs[u].matched == r'.log.Last() {
    }
  }

  lemma TermsStillWithin(c: Cluster, d: Cluster, a: nat, v: nat, some: set<nat>)
    requires TermsWithin(c, a, some) && MovedWithin(c, d, {a, v}) && a in d.nodes && v in d.nodes
    requires d.nodes[a].term == c.nodes[a].term && d.nodes[v].term <= d.nodes[a].term
    ensures TermsWithin(d, a, some)
  {
  }

  /** One after the other all peers of `todo` come to hold the leader's log. */
  lemma {:induction false} CatchUpAll(e: Setting, c: Cluster, s: Node, a: nat, done: set<nat>, todo: set<nat>, some: set<nat>)
    returns (c': Cluster)
    requires Reached(e, c) && !e.cfg.preVote && e.cfg.maxInflight > 0 && a in some && some <= e.voters && todo <= some - {a}
    requires TermsWithin(c, a, some) && c.nodes[a].role == Leader && Completed(s, c.nodes[a], done) && s.prs.Keys == e.voters
    ensures Reached(e, c') && Within(e, c, c', some) && TermsWithin(c', a, some)
    ensures Completed(s, c'.nodes[a], done + todo)
    decreases todo
  {
    hide Reached, Serving, Joined, MovedWithin, Completed;
    if todo == {} {
      c' := c;
      assert done + todo == done;
      Stay(e, c, some);
    } else {
      var v :| v in todo;
      CompletedFacts(s, c.nodes[a], done);
      var c1 := CatchUp(e, c, a, v);
      ServingFacts(c.nodes[a], c1.nodes[a], v);
      CompletedMore(s, c.nodes[a], c1.nodes[a], v, done);
      TermsStillWithin(c, c1, a, v, some);
      c' := CatchUpAll(e, c1, s, a, done + {v}, todo - {v}, some);
      Then(e, c, c1, c', {a, v}, some);
      assert done + {v} + (todo - {v}) == done + todo;
    }
  }

  lemma CompletedFacts(s: Node, r: Node, done: set<nat>)
    requires Completed(s, r, done)
    ensures r.prs.Keys == s.prs.Keys
  {
  }

  /** A leader whose log a majority holds has committed it. */
  lemma HeldIsCommitted(s: Node, some: set<nat>)
    requires InCharge(s) && CursorsOk(s.log) && IsMajority(some, s.prs.Keys) && s.log.Last() >= 1
    requires forall v :: v in some ==> s.prs[v].matched == s.log.Last()
    requires forall v :: v in s.prs ==> s.prs[v].matched <= s.log.Last()
    ensures s.log.committed == s.log.Last()
  {
    var matches, last := Matches(s.prs), s.log.Last();
    assert matches.Keys == s.prs.Keys;
    assert |matches| == |matches.Keys|;
    assert AtLeast(matches, last) >= some;
    SubsetCardinality(some, AtLeast(matches, last));
    forall y | y > last ensures |AtLeast(matches, y)| < QuorumSize(|matches|) {
      assert AtLeast(matches, y) == {};
    }
    assert IsQuorumIndex(matches, last);
    assert s.log.TermAt(last) == s.term;
  }

  /** The nodes of `some` have committed all of the leader's log. */
  ghost predicate Share(c: Cluster, a: nat, some: set<nat>) {
    a in c.nodes && forall v :: v in some ==>
      v in c.nodes && c.nodes[a].log.ents <= c.nodes[v].log.ents && c.nodes[v].log.committed >= c.nodes[a].log.Last()
  }

  /** Heartbeats carry the leader's commit cursor to the peers it knows to hold its log. */
  lemma {:induction false} Spread(e: Setting, c: Cluster, a: nat, done: set<nat>, todo: set<nat>, some: set<nat>) returns (c': Cluster)
    requires Reached(e, c) && !e.cfg.preVote && a in some && some <= e.voters && todo <= some - {a} && a in c.nodes
    requires TermsWithin(c, a, some) && c.nodes[a].role == Leader && c.nodes[a].log.committed == c.nodes[a].log.Last()
    requires Completed(c.nodes[a], c.nodes[a], some) && CommittedTo(c, done, c.nodes[a].log.Last())
    ensures Reached(e, c') && Within(e, c, c', some) && a in c'.nodes && c'.nodes[a] == c.nodes[a]
    ensures CommittedTo(c', done + todo, c.nodes[a].log.Last())
    decreases todo
  {
    hide Reached, Completed, Joined, MovedWithin;
    if todo == {} {
      c' := c;
      assert done + todo == done;
      Stay(e, c, some);
    } else {
      var v :| v in todo;
      if c.nodes[v].role == Leader {
        LeadersDiffer(e, c, a, v);
      }
      KnownToHold(c.nodes[a], some, v);
      var c1 := Reach(e, c, a, v);
      More(e, c, c1, {a, v}, some);
      OneMoreCommitted(c, c1, v, done, c.nodes[a].log.Last());
      c' := Spread(e, c1, a, done + {v}, todo - {v}, some);
      Then(e, c, c1, c', some, some);
      assert done + {v} + (todo - {v}) == done + todo;
    }
  }

  ghost predicate CommittedTo(c: Cluster, done: set<nat>, index: nat) {
    forall v :: v in done ==> v in c.nodes && c.nodes[v].log.committed >= index
  }

  lemma OneMoreCommitted(c: Cluster, d: Cluster, v: nat, done: set<nat>, index: nat)
    requires CommittedTo(c, done, index) && OnlyMoved(c, d, v) && v in d.nodes && d.nodes[v].log.committed >= index
    ensures CommittedTo(d, done + {v}, index)
  {
    forall u | u in done + {v} ensures u in d.nodes && d.nodes[u].log.committed >= index {
    }
  }

  lemma KnownToHold(s: Node, some: set<nat>, v: nat)
    requires Completed(s, s, some) && v in some
    ensures v in s.prs && s.prs[v].matched == s.log.Last()
  {
  }

  /** Nodes that have committed as far as a leader has its whole log. */
  lemma CommittedIsShared(e: Setting, c: Cluster, a: nat, some: set<nat>)
    requires Reached(e, c) && !e.cfg.preVote && a in c.nodes && c.nodes[a].log.committed == c.nodes[a].log.Last()
    requires CommittedTo(c, some, c.nodes[a].log.Last())
    ensures Share(c, a, some)
  {
    hide Run;
    var run := ReachingRun(e, c);
    var i := |run| - 1;
    forall v | v in some ensures v in c.nodes && c.nodes[a].log.ents <= c.nodes[v].log.ents {
      StateMachineSafety(e.cfg, e.voters, e.boot, run, i, i, a, v);
      WholePrefix(c.nodes[a].log.ents, c.nodes[v].log.ents);
    }
  }

  lemma WholePrefix(a: seq<Entry>, b: seq<Entry>)
    requires Agree(a, b, |a|)
    ensures a <= b
  {
    assert a[..|a|] == a;
  }

  // ---------------------------------------------------------------- the main results

  lemma LeaderHoldsItself(s: Node)
    requires InCharge(s)
    ensures Completed(s, s, {s.id})
  {
  }

  lemma LeaderHasEntries(s: Node, a: nat, e: Setting)
    requires Sane(s, a, e) && InCharge(s) && s.role == Leader
    ensures s.log.Last() >= 1
  {
    hide NoneMissed;
  }

  lemma AllHeld(e: Setting, s0: Node, s: Node, a: nat, some: set<nat>)
    requires Sane(s, a, e) && InCharge(s) && s.role == Leader && Completed(s0, s, some) && IsMajority(some, e.voters)
    requires forall u :: u in e.voters ==> PeerSane(e.cfg, s.prs[u], s.log.Last())
    ensures s.log.committed == s.log.Last() && Completed(s, s, some)
  {
    hide NoneMissed, FlowOk;
    LeaderHasEntries(s, a, e);
    HeldIsCommitted(s, some);
  }

  /** The leader, in its term and with its log, has committed it, and the nodes of `some` with it. */
  ghost predicate Done(c: Cluster, c': Cluster, a: nat, some: set<nat>) {
    && a in c.nodes && a in c'.nodes && c'.nodes[a].role == Leader && c'.nodes[a].term == c.nodes[a].term
    && c'.nodes[a].log.ents == c.nodes[a].log.ents && c'.nodes[a].log.committed == c'.nodes[a].log.Last()
    && Share(c', a, some)
  }

  /** From every reached cluster a leader and peers that are not past its term, a majority together, can commit the
      leader's whole log at all of them. */
  lemma Committable(e: Setting, c: Cluster, a: nat, some: set<nat>) returns (c': Cluster)
    requires Reached(e, c) && !e.cfg.preVote && e.cfg.maxInflight > 0 && IsMajority(some, e.voters) && a in some
    requires TermsWithin(c, a, some) && c.nodes[a].role == Leader
    ensures Reached(e, c') && Within(e, c, c', some) && Done(c, c', a, some)
  {
    hide Reached, InCharge, PeerSane, Completed, MovedWithin, Share, CommittedTo, Sane;
    SaneNode(e, c, a);
    var s := c.nodes[a];
    SaneFacts(s, a, e);
    LeaderHoldsItself(s);
    var c1 := CatchUpAll(e, c, s, a, {a}, some - {a}, some);
    assert {a} + (some - {a}) == some;
    SaneNode(e, c1, a);
    CompletedShape(s, c1.nodes[a], some);
    AllHeld(e, s, c1.nodes[a], a, some);
    OnlyCommitted(c1, a);
    c' := Spread(e, c1, a, {a}, some - {a}, some);
    Then(e, c, c1, c', some, some);
    CommittedIsShared(e, c', a, some);
  }

  lemma SaneFacts(s: Node, a: nat, e: Setting)
    requires Sane(s, a, e)
    ensures s.id == a && s.prs.Keys == e.voters
  {
  }

  lemma CompletedShape(s: Node, r: Node, done: set<nat>)
    requires Completed(s, r, done)
    ensures r.role == s.role && r.term == s.term && r.log.ents == s.log.ents
  {
  }

  lemma OnlyCommitted(c: Cluster, a: nat)
    requires a in c.nodes && c.nodes[a].log.committed == c.nodes[a].log.Last()
    ensures CommittedTo(c, {a}, c.nodes[a].log.Last())
  {
  }

  /** A voter by itself leads after one timeout. */
  lemma Alone(e: Setting, c: Cluster, a: nat) returns (c': Cluster)
    requires Reached(e, c) && !e.cfg.preVote && a in e.voters && |e.voters| == 1
    ensures Reached(e, c') && Only(e, c, c', a) && a in c'.nodes && c'.nodes[a].role == Leader
  {
    hide Reached, React, InCharge, PeerSane, Sane;
    SaneNode(e, c, a);
    if c.nodes[a].role == Leader {
      c' := c;
      StayOnly(e, c, a);
    } else {
      var c1 := ApplyAll(e, c, a);
      SaneNode(e, c1, a);
      AloneReacts(e, c1.nodes[a], a);
      c' := Act(e, c1, a, Local(EMPTY_MESSAGE));
      OnlyThen(e, c, c1, c', a);
    }
  }

  lemma AloneReacts(e: Setting, s: Node, n: nat)
    requires Sane(s, n, e) && s.role != Leader && s.log.applied == s.log.committed && |e.voters| == 1
    ensures LocalInput(e.cfg, EMPTY_MESSAGE)
    ensures React(e.cfg, s, Local(EMPTY_MESSAGE)).Ok? && React(e.cfg, s, Local(EMPTY_MESSAGE)).value.role == Leader
  {
    hide Step, Asked;
    assert |s.prs| == |s.prs.Keys|;
    TimeoutCampaigns(e.cfg, s, EMPTY_MESSAGE, false);
  }

  lemma OnlyVoter(some: set<nat>, voters: set<nat>) returns (a: nat)
    requires IsMajority(some, voters) && |voters| == 1
    ensures some == {a} == voters
  {
    a :| a in some;
    assert |voters - {a}| == 0;
  }

  /** From every reached cluster any majority, with everyone else silent, can come to have a leader all of whose log
      its members have committed; with a second voter the leader is of a new term, and so is the last entry. */
  lemma Available(e: Setting, c: Cluster, some: set<nat>) returns (a: nat, c': Cluster)
    requires Reached(e, c) && !e.cfg.preVote && e.cfg.maxInflight > 0 && IsMajority(some, e.voters)
    ensures Reached(e, c') && Within(e, c, c', some) && a in some && a in c'.nodes && c'.nodes[a].role == Leader
    ensures c'.nodes[a].log.committed == c'.nodes[a].log.Last() && c'.nodes[a].log.LastTerm() == c'.nodes[a].term
    ensures Share(c', a, some)
    ensures |e.voters| >= 2 ==> forall v :: v in some ==> v in c.nodes && c.nodes[v].term < c'.nodes[a].term
  {
    hide Reached, MovedWithin, Share, PeerSane, Sane, NoneMissed;
    var c1: Cluster;
    if |e.voters| >= 2 {
      a, c1 := Electable(e, c, some);
    } else {
      a := OnlyVoter(some, e.voters);
      c1 := Alone(e, c, a);
      OneOf(e, c, c1, a, some);
    }
    c' := Committable(e, c1, a, some);
    Then(e, c, c1, c', some, some);
    SaneNode(e, c', a);
  }

  // ---------------------------------------------------------------- a client's entries

  ghost predicate NormalProposal(m: Message) {
    m.kind == MsgProp && m.term == 0 && m.entries != [] && forall k :: 0 <= k < |m.entries| ==> m.entries[k].kind == Normal
  }

  /** The log ends with the proposed entries, of the leader's term. */
  ghost predicate EndsWith(s: Node, es: seq<Entry>) {
    var n := |s.log.ents| - |es|;
    n >= 0 && forall k :: 0 <= k < |es| ==> s.log.ents[n + k] == Entry(Normal, s.term, n + 1 + k, es[k].data)
  }

  lemma TakesProposal(e: Setting, s: Node, a: nat, m: Message)
    requires Sane(s, a, e) && s.role == Leader && s.uncommitted == 0 && NormalProposal(m)
    ensures LocalInput(e.cfg, m) && React(e.cfg, s, Local(m)).Ok?
    ensures var r := React(e.cfg, s, Local(m)).value; r.role == Leader && r.term == s.term && EndsWith(r, m.entries)
  {
    hide Propose, Passed, PayloadSize, Told, Silent;
    var batch := ProposalAnswer(e.cfg, s, m);
    NoneBarred(s, m.entries, batch, Propose(e.cfg, s, m).value.pendingConf);
    ProposalRole(e.cfg, s, m);
    EndsWritten(s, Propose(e.cfg, s, m).value, m.entries);
  }

  lemma NoneBarred(s: Node, es: seq<Entry>, batch: seq<Entry>, pending: nat)
    requires Passed(s, es, batch, pending) && forall k :: 0 <= k < |es| ==> es[k].kind == Normal
    ensures batch == es
  {
    hide FirstConf;
  }

  lemma ProposalRole(cfg: Config, s: Node, m: Message)
    requires Propose(cfg, s, m).Ok?
    ensures Propose(cfg, s, m).value.role == s.role && Propose(cfg, s, m).value.term == s.term
  {
    hide Append, StampEntries, QuorumIndex, MaybeUpdate, WithinLimit, AppendTo, GateConf, PayloadSize;
  }

  lemma EndsWritten(s: Node, r: Node, es: seq<Entry>)
    requires s.log.ents <= r.log.ents && Written(s, es, r.log.ents[|s.log.ents|..]) && r.term == s.term
    requires forall k :: 0 <= k < |es| ==> es[k].kind == Normal
    ensures EndsWith(r, es)
  {
    forall k | 0 <= k < |es|
      ensures r.log.ents[|s.log.ents| + k] == Entry(Normal, r.term, |s.log.ents| + 1 + k, es[k].data)
    {
      assert r.log.ents[|s.log.ents| + k] == r.log.ents[|s.log.ents|..][k];
    }
  }

  /** Nothing that has happened can keep a client's entries from being committed: any majority can elect a leader that
      takes them and commit them at all its members, while everyone else is silent. */
  lemma ProposalsCommit(e: Setting, c: Cluster, some: set<nat>, m: Message) returns (a: nat, c': Cluster)
    requires Reached(e, c) && !e.cfg.preVote && e.cfg.maxInflight > 0 && IsMajority(some, e.voters) && |e.voters| >= 2
    requires NormalProposal(m)
    ensures Reached(e, c') && Within(e, c, c', some) && a in some && a in c'.nodes && c'.nodes[a].role == Leader
    ensures forall v :: v in some ==> v in c.nodes && c.nodes[v].term < c'.nodes[a].term
    ensures EndsWith(c'.nodes[a], m.entries) && c'.nodes[a].log.committed == c'.nodes[a].log.Last() && Share(c', a, some)
  {
    hide Reached, MovedWithin, Share, PeerSane, Sane, InCharge, React, NormalProposal, EndsWith;
    var c1: Cluster;
    a, c1 := Electable(e, c, some);
    SaneNode(e, c1, a);
    TakesProposal(e, c1.nodes[a], a, m);
    var c2 := Act(e, c1, a, Local(m));
    OneOf(e, c1, c2, a, some);
    TermsAfter(c1, c2, a, some);
    c' := Committable(e, c2, a, some);
    Then(e, c, c1, c2, some, some);
    Then(e, c, c2, c', some, some);
    EndsSame(React(e.cfg, c1.nodes[a], Local(m)).value, c'.nodes[a], m.entries);
  }

  lemma TermsAfter(c: Cluster, d: Cluster, a: nat, some: set<nat>)
    requires TermsWithin(c, a, some) && OnlyMoved(c, d, a) && a in d.nodes && d.nodes[a].term == c.nodes[a].term
    ensures TermsWithin(d, a, some)
  {
  }

  lemma EndsSame(s: Node, r: Node, es: seq<Entry>)
    requires EndsWith(s, es) && r.log.ents == s.log.ents && r.term == s.term
    ensures EndsWith(r, es)
  {
  }

  // ---------------------------------------------------------------- only majorities

  /** A setting that has a start: voters, and entries as RawNode writes them. */
  ghost predicate Startable(e: Setting) {
    ValidBoot(e.boot) && e.voters != {} && 0 !in e.voters
  }

  lemma StartOf(e: Setting) returns (c: Cluster)
    requires Startable(e)
    ensures Reached(e, c) && Init(e.cfg, c, e.voters, e.boot)
  {
    c := Cluster(map v | v in e.voters :: InitialNode(e.cfg, v, e.voters, e.boot), {});
    var run := [c];
    assert Run(e.cfg, e.voters, e.boot, run) && run[|run| - 1] == c;
  }

  /** By steps of the nodes in `some` alone one of them comes to lead with all of its log committed by all of them. */
  ghost predicate GoesOn(e: Setting, c: Cluster, some: set<nat>) {
    exists a: nat, d: Cluster :: WentOn(e, c, d, a, some)
  }

  ghost predicate WentOn(e: Setting, c: Cluster, d: Cluster, a: nat, some: set<nat>) {
    && Joined(e.cfg, c, d, some) && a in some && a in d.nodes && d.nodes[a].role == Leader
    && d.nodes[a].log.committed == d.nodes[a].log.Last() && Share(d, a, some)
  }

  /** A node that has acknowledged something of a term after the first is no longer as it started. */
  lemma AckersMoved(e: Setting, c: Cluster, d: Cluster, h: Hist, some: set<nat>, v: nat, t: nat)
    requires Init(e.cfg, c, e.voters, e.boot) && MovedWithin(c, d, some) && Inv(d, h) && v in e.voters
    requires (v, t) in h.acks && t > StartTerm(e.boot)
    ensures v in some
  {
    hide HistInv, NodeLogInv, NodeVoteInv, NodeAckInv, ValidBoot;
    NodeFacts(d, h, v);
    assert t <= d.nodes[v].term;
  }

  /** All of a leader's log is committed only with a majority's acknowledgement in some term it leads up to, never the
      first. */
  lemma CommitTerm(s: Node, h: Hist) returns (u: nat, i: nat)
    requires HistInv(h) && NodeInv(s, h) && s.role == Leader && InCharge(s) && s.term >= 1 && s.log.committed == s.log.Last()
    ensures CommitPoint(h, u, i) && u > h.start
  {
    hide NoneMissed, LogOk, CommitPoint, NodeAckInv, VoteInv, CandInv, BallotInv, AckInv;
    var last := s.log.Last();
    assert last >= 1;
    u, i := CommitWitness(h, s.log.ents, s.term, last);
    PointKnown(h, u, i);
    assert LeaderLogOk(h, u) && LeaderLogOk(h, s.term);
    assert s.log.ents[..last][last - 1] == h.logs[u][..last][last - 1];
  }

  lemma PointKnown(h: Hist, u: nat, i: nat)
    requires CommitPoint(h, u, i)
    ensures u in h.logs && i <= |h.logs[u]|
  {
  }

  lemma AckersAreMajority(e: Setting, c: Cluster, d: Cluster, h: Hist, some: set<nat>, u: nat, i: nat)
    requires Init(e.cfg, c, e.voters, e.boot) && MovedWithin(c, d, some) && Inv(d, h) && some <= e.voters
    requires CommitPoint(h, u, i) && u > StartTerm(e.boot) && h.voters == e.voters
    ensures IsMajority(some, e.voters)
  {
    hide Inv, Init, MovedWithin;
    var acked := AckedBy(h, u, i);
    forall v | v in acked ensures v in some {
      assert Ack(h, v, u) >= 1;
      AckersMoved(e, c, d, h, some, v, u);
    }
    SubsetCardinality(acked, some);
  }

  /** From the start, no set of nodes but a majority gets a leader's log committed by itself. */
  lemma OnlyMajorities(e: Setting, c: Cluster, d: Cluster, a: nat, some: set<nat>)
    requires Reached(e, c) && Init(e.cfg, c, e.voters, e.boot) && !e.cfg.preVote && some <= e.voters && WentOn(e, c, d, a, some)
    ensures IsMajority(some, e.voters)
  {
    hide Init, Run, Inv, NodeInv, HistInv, MovedWithin, Share, InCharge, PeerSane, Along;
    JoinedIsReached(e, c, d, some);
    var run := ReachingRun(e, d);
    var hs := RunHistories(e.cfg, e.voters, e.boot, run);
    var h := hs[|run| - 1];
    SaneNode(e, d, a);
    NodeFacts(d, h, a);
    RunSound(e.cfg, e.voters, e.boot, run, |run| - 1);
    VotersOf(e, d, h, a);
    var u, i := CommitTerm(d.nodes[a], h);
    AckersAreMajority(e, c, d, h, some, u, i);
  }

  /** With pre-vote off, a set of nodes can go on by itself from every reachable cluster exactly when it is a
      majority. */
  lemma AvailableExactly(e: Setting, some: set<nat>)
    requires Startable(e) && !e.cfg.preVote && e.cfg.maxInflight > 0 && some <= e.voters
    ensures (forall c :: Reached(e, c) ==> GoesOn(e, c, some)) <==> IsMajority(some, e.voters)
  {
    hide Reached, WentOn, Startable;
    if IsMajority(some, e.voters) {
      forall c | Reached(e, c) ensures GoesOn(e, c, some) {
        var a, d := Available(e, c, some);
        WentOnBy(e, c, d, a, some);
      }
    }
    if forall c :: Reached(e, c) ==> GoesOn(e, c, some) {
      var c := StartOf(e);
      assert GoesOn(e, c, some);
      var a: nat, d: Cluster :| WentOn(e, c, d, a, some);
      OnlyMajorities(e, c, d, a, some);
    }
  }

  lemma WentOnBy(e: Setting, c: Cluster, d: Cluster, a: nat, some: set<nat>)
    requires Within(e, c, d, some) && a in some && a in d.nodes && d.nodes[a].role == Leader
    requires d.nodes[a].log.committed == d.nodes[a].log.Last() && Share(d, a, some)
    ensures WentOn(e, c, d, a, some)
  {
    hide Joined;
  }

  // ---------------------------------------------------------------- with pre-vote on

  lemma RunOn(e: Setting, run: seq<Cluster>, path: seq<Cluster>, c: Cluster, d: Cluster, who: set<nat>) returns (r: seq<Cluster>)
    requires Run(e.cfg, e.voters, e.boot, run) && run[|run| - 1] == c && Along(e.cfg, path, c, d, who)
    ensures Run(e.cfg, e.voters, e.boot, r) && run <= r && r[|r| - 1] == d
  {
    hide StepBy, Next, Init;
    r := run + path[1..];
    forall i | 0 <= i < |r| - 1 ensures Next(e.cfg, r[i], r[i + 1]) {
      if i < |run| - 1 {
        assert Next(e.cfg, run[i], run[i + 1]);
      } else {
        var k := i - (|run| - 1);
        assert StepBy(e.cfg, path[k], path[k + 1], who);
        StepByMoves(e.cfg, path[k], path[k + 1], who);
      }
    }
  }

  /** A leader of the shared term that has committed the bootstrap entries and no more has not committed its log. */
  lemma BootIsNotAll(e: Setting, s: Node, r: Node, a: nat)
    requires NewLeader(s, a, e) && ValidBoot(e.boot) && CommitKept(s.log, r.log) && r.log.committed == s.log.committed
    requires r.log.LastTerm() == r.term == e.Shared()
    ensures r.log.committed != r.log.Last()
  {
    var n := |e.boot|;
    assert s.log.ents[..n] == e.boot;
    if n > 0 {
      assert r.log.ents[n - 1] == r.log.ents[..n][n - 1] == e.boot[n - 1];
    }
  }

  /** Two voters with pre-vote on and no quorum checks can get where nothing goes on any more, not even with both of
      them. */
  lemma StuckWithPreVote(e: Setting) returns (c: Cluster)
    requires Exposed(e) && |e.voters| == 2 && !e.cfg.checkQuorum
    ensures Reached(e, c) && forall some :: !GoesOn(e, c, some)
  {
    hide Reached, Exposed, WentOn, Split;
    var a, b := TwoVoters(e.voters);
    c := TwoLeaders(e, a, b);
    OnlyTwo(e, c, a, b);
    forall some, x, d ensures !WentOn(e, c, d, x, some) {
      NeverWentOn(e, c, d, a, b, x, some);
    }
  }

  lemma OnlyTwo(e: Setting, c: Cluster, a: nat, b: nat)
    requires |e.voters| == 2 && Split(c, a, b, e)
    ensures e.voters == {a, b}
  {
    hide NewLeader, AllSent, Untouched;
    assert |e.voters - {a, b}| == 0;
  }

  lemma NeverWentOn(e: Setting, c: Cluster, d: Cluster, a: nat, b: nat, x: nat, some: set<nat>)
    requires Exposed(e) && !e.cfg.checkQuorum && Reached(e, c) && Split(c, a, b, e) && e.voters == {a, b} && a != b
    ensures !WentOn(e, c, d, x, some)
  {
    hide Along, Split, Exposed, Share, Reached;
    if x in d.nodes && Joined(e.cfg, c, d, some) {
      var path: seq<Cluster> :| Along(e.cfg, path, c, d, some);
      StaysStuck(e, path, c, d, a, b, x, some);
    }
  }

  lemma StaysStuck(e: Setting, path: seq<Cluster>, c: Cluster, d: Cluster, a: nat, b: nat, x: nat, some: set<nat>)
    requires Exposed(e) && !e.cfg.checkQuorum && Reached(e, c) && Split(c, a, b, e) && e.voters == {a, b} && a != b
    requires Along(e.cfg, path, c, d, some) && x in d.nodes
    ensures d.nodes[x].log.committed != d.nodes[x].log.Last()
  {
    hide Run, Exposed, Split, Along, Reached, NewLeader;
    var r, i := RunThrough(e, path, c, d, some);
    SplitPair(e, c, a, b);
    StuckLeader(e, c, r, i, |r| - 1, x, if x == a then b else a);
  }

  lemma RunThrough(e: Setting, path: seq<Cluster>, c: Cluster, d: Cluster, who: set<nat>) returns (r: seq<Cluster>, i: nat)
    requires Reached(e, c) && Along(e.cfg, path, c, d, who)
    ensures Run(e.cfg, e.voters, e.boot, r) && i < |r| && r[i] == c && r[|r| - 1] == d && d.nodes.Keys == e.voters
  {
    hide Run, Along;
    var run := ReachingRun(e, c);
    r := RunOn(e, run, path, c, d, who);
    i := |run| - 1;
    RunSound(e.cfg, e.voters, e.boot, r, |r| - 1);
  }

  lemma SplitPair(e: Setting, c: Cluster, a: nat, b: nat)
    requires Split(c, a, b, e)
    ensures a in c.nodes && b in c.nodes && NewLeader(c.nodes[a], a, e) && NewLeader(c.nodes[b], b, e) && a in e.voters && b in e.voters
  {
    hide NewLeader, AllSent, Untouched;
  }

  lemma StuckLeader(e: Setting, c: Cluster, r: seq<Cluster>, i: nat, j: nat, x: nat, y: nat)
    requires Exposed(e) && !e.cfg.checkQuorum && |e.voters| == 2 && x in e.voters && y in e.voters && x != y
    requires Run(e.cfg, e.voters, e.boot, r) && i <= j < |r| && r[i] == c && x in c.nodes && y in c.nodes
    requires NewLeader(c.nodes[x], x, e) && NewLeader(c.nodes[y], y, e)
    ensures x in r[j].nodes && r[j].nodes[x].log.committed != r[j].nodes[x].log.Last()
  {
    hide Run, LeadLog, CommitKept, IsQuorumIndex;
    assert Leads(r, i, x, e.Shared()) && Leads(r, i, y, e.Shared());
    DeadEnd(e.cfg, e.voters, e.boot, r, i, j, x, y, e.Shared());
    CommitNeverFalls(e.cfg, e.voters, e.boot, r, i, j, x);
    NoCommitMissed(e.cfg, e.voters, e.boot, r, j, x);
    BootIsNotAll(e, c.nodes[x], r[j].nodes[x], x);
  }
}
