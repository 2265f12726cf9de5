/** With pre-vote on, step_candidate counts pre-vote answers in the same tally as real votes
    (raft.cpp:812-821), so answers left over from the pre-election can win the election itself. This
    module shows that two leaders of one term then exist in some run, for every cluster of two or more
    voters and every bootstrap log, and that election safety holds exactly when pre-vote is off or there
    is one voter. */
module PreVote {
  import opened Proto
  import opened LogSpec
  import opened ProgressSpec
  import opened RaftSpec
  import opened ClusterSpec
  import opened Quorum
  import opened Leadership
  import opened Theorems
  import opened Ledger

  /** A configuration, the voters and the bootstrap entries. */
  datatype Setting = Setting(cfg: Config, voters: set<nat>, boot: seq<Entry>) {
    /** The term every node starts in. */
    function Start(): nat {
      StartTerm(boot)
    }

    /** The term the two leaders come to share. */
    function Shared(): nat {
      StartTerm(boot) + 1
    }
  }

  /** Pre-vote is on and there is someone else to ask. */
  ghost predicate Exposed(e: Setting) {
    e.cfg.preVote && ValidBoot(e.boot) && 0 !in e.voters && |e.voters| >= 2
  }

  /** The bootstrap log, all committed, applied at least as far as `applied`. */
  ghost predicate BootLog(l: Log, boot: seq<Entry>) {
    l.base == 0 && l.baseTerm == 0 && l.ents == boot && l.committed == |boot| && l.applied <= |boot|
  }

  lemma BootTerms(l: Log, boot: seq<Entry>)
    requires BootLog(l, boot) && ValidBoot(boot)
    ensures l.Last() == |boot| && l.LastTerm() == StartTerm(boot) && CursorsOk(l)
  {
  }

  /** A node that has heard of no leader and is still in its first term. */
  ghost predicate Untouched(s: Node, v: nat, e: Setting) {
    && s.id == v && s.term == e.Start() && s.lead == 0 && s.msgs == {} && s.prs.Keys == e.voters
    && BootLog(s.log, e.boot)
  }

  function Request(from: nat, to: nat, e: Setting): Message {
    EMPTY_MESSAGE.(kind := MsgPreVote, to := to, from := from, term := e.Shared(), index := |e.boot|, logTerm := e.Start())
  }

  function Grant(from: nat, to: nat, e: Setting): Message {
    EMPTY_MESSAGE.(kind := MsgPreVoteResp, to := to, from := from, term := e.Shared())
  }

  /** Every other voter has granted `a` a pre-vote. */
  ghost predicate AllGranted(c: Cluster, a: nat, e: Setting) {
    forall v :: v in e.voters && v != a ==> Grant(v, a, e) in c.net
  }

  ghost predicate AllUntouched(c: Cluster, e: Setting) {
    c.nodes.Keys == e.voters && forall v :: v in e.voters ==> Untouched(c.nodes[v], v, e)
  }

  ghost predicate AllAsked(c: Cluster, a: nat, e: Setting) {
    forall v :: v in e.voters && v != a ==> Request(a, v, e) in c.net
  }

  // ---------------------------------------------------------------- steps and runs

  /** Node `a` moved and the others did not. */
  ghost predicate OnlyMoved(c: Cluster, d: Cluster, a: nat) {
    && d.nodes.Keys == c.nodes.Keys && c.net <= d.net
    && forall v :: v in c.nodes && v != a ==> d.nodes[v] == c.nodes[v]
  }

  lemma OnlyMovedTrans(c: Cluster, d: Cluster, f: Cluster, a: nat)
    requires OnlyMoved(c, d, a) && OnlyMoved(d, f, a)
    ensures OnlyMoved(c, f, a)
  {
  }

  /** Some run ends in `c`. */
  ghost predicate Reached(e: Setting, c: Cluster) {
    exists run: seq<Cluster> :: Run(e.cfg, e.voters, e.boot, run) && run[|run| - 1] == c
  }

  lemma Extend(e: Setting, c: Cluster, c': Cluster)
    requires Reached(e, c) && Next(e.cfg, c, c')
    ensures Reached(e, c')
  {
    hide Next, Init;
    var run: seq<Cluster> :| Run(e.cfg, e.voters, e.boot, run) && run[|run| - 1] == c;
    var r := run + [c'];
    forall i | 0 <= i < |r| - 1 ensures Next(e.cfg, r[i], r[i + 1]) {
      if i < |run| - 1 {
        assert Next(e.cfg, run[i], run[i + 1]);
      }
    }
    assert Run(e.cfg, e.voters, e.boot, r);
  }

  /** A reaction of one node is a step of the cluster that moves only that node. */
  lemma OneMoves(e: Setting, c: Cluster, a: nat, input: Input, s': Node) returns (c': Cluster)
    requires Reached(e, c) && Enabled(e.cfg, c, a, input) && React(e.cfg, c.nodes[a], input) == Ok(s')
    ensures Reached(e, c') && OnlyMoved(c, c', a) && c'.net == c.net + s'.msgs && StepOf(e.cfg, c, c', a, input)
    ensures a in c'.nodes && c'.nodes[a] == s'.(msgs := {})
  {
    hide React, Reached;
    EnabledAt(e.cfg, c, a, input);
    c' := Settle(c, a, s');
    assert StepOf(e.cfg, c, c', a, input);
    Extend(e, c, c');
  }

  lemma EnabledAt(cfg: Config, c: Cluster, a: nat, input: Input)
    requires Enabled(cfg, c, a, input)
    ensures a in c.nodes
  {
  }

  /** Only nodes of `who` moved. */
  ghost predicate MovedWithin(c: Cluster, d: Cluster, who: set<nat>) {
    && d.nodes.Keys == c.nodes.Keys && c.net <= d.net
    && forall u :: u in c.nodes && u !in who ==> d.nodes[u] == c.nodes[u]
  }

  lemma WithinStep(c: Cluster, d: Cluster, f: Cluster, who: set<nat>, mover: nat)
    requires MovedWithin(c, d, who) && OnlyMoved(d, f, mover) && mover in who
    ensures MovedWithin(c, f, who)
  {
  }

  lemma WithinTrans(c: Cluster, d: Cluster, f: Cluster, some: set<nat>, who: set<nat>)
    requires MovedWithin(c, d, some) && MovedWithin(d, f, who) && some <= who
    ensures MovedWithin(c, f, who)
  {
  }

  lemma WithinRefl(c: Cluster, who: set<nat>)
    ensures MovedWithin(c, c, who)
  {
  }

  // ---------------------------------------------------------------- applying the bootstrap entries

  lemma ReadyKeepsUntouched(e: Setting, s: Node, a: nat)
    requires Untouched(s, a, e) && ValidBoot(e.boot) && s.log.applied < |e.boot|
    ensures CursorsOk(s.log)
    ensures var r := ReadyRound(e.cfg, s);
            Untouched(r, a, e) && r.role == s.role && s.log.applied < r.log.applied
  {
    hide NextEntries;
    BootTerms(s.log, e.boot);
    ReadyShape(e.cfg, s);
    NextEntriesShape(e.cfg, s.log);
    SomeNext(e.cfg, s.log);
  }

  lemma SomeNext(cfg: Config, l: Log)
    requires CursorsOk(l) && l.applied < l.committed
    ensures NextEntries(cfg, l) != []
  {
  }

  /** Taking Readys until everything committed is applied. */
  lemma {:induction false} Drain(e: Setting, c: Cluster, a: nat) returns (c': Cluster)
    requires Reached(e, c) && ValidBoot(e.boot) && a in e.voters && AllUntouched(c, e)
    ensures Reached(e, c') && AllUntouched(c', e) && OnlyMoved(c, c', a)
    ensures a in c.nodes && a in c'.nodes && c'.nodes[a].role == c.nodes[a].role && c'.nodes[a].log.applied == |e.boot|
    decreases |e.boot| - c.nodes[a].log.applied
  {
    hide Reached, ReadyRound, React, ValidBoot;
    var s := c.nodes[a];
    assert Untouched(s, a, e);
    if s.log.applied == |e.boot| {
      c' := c;
    } else {
      ReadyKeepsUntouched(e, s, a);
      ReadyReacts(e.cfg, s);
      var c1 := OneMoves(e, c, a, TakeReady, ReadyRound(e.cfg, s));
      assert Untouched(c1.nodes[a], a, e);
      c' := Drain(e, c1, a);
      OnlyMovedTrans(c, c1, c', a);
    }
  }

  lemma ReadyReacts(cfg: Config, s: Node)
    requires CursorsOk(s.log)
    ensures React(cfg, s, TakeReady) == Ok(ReadyRound(cfg, s))
  {
  }

  // ---------------------------------------------------------------- the pre-election

  /** A node that has applied everything, before its timeout. */
  ghost predicate Idle(s: Node, a: nat, e: Setting) {
    Untouched(s, a, e) && s.role == Follower && s.log.applied == |e.boot|
  }

  /** A pre-candidate with its own vote. */
  function Asking(s: Node, a: nat): Node
    requires s.role != Leader
  {
    Poll(BecomePreCandidate(s), a, true)
  }

  /** What an idle node does on a timeout: it asks the others and stays in its term. */
  lemma HupAsks(e: Setting, s: Node, a: nat)
    requires Exposed(e) && Idle(s, a, e)
    ensures React(e.cfg, s, Local(EMPTY_MESSAGE)) == Ok(RequestVotes(Asking(s, a), MsgPreVote, e.Shared()))
  {
    hide RequestVotes, Campaign;
    BootTerms(s.log, e.boot);
    assert |s.prs| == |s.prs.Keys|;
    assert GrantedBy(Asking(s, a).votes) == {a};
    assert !HasPendingConf(s.log);
  }

  lemma AskedNode(e: Setting, s: Node, a: nat)
    requires Exposed(e) && Idle(s, a, e)
    ensures var s' := RequestVotes(Asking(s, a), MsgPreVote, e.Shared()).(msgs := {});
            Untouched(s', a, e) && Collecting(s', a, e) && s'.role == PreCandidate
  {
    assert |s.prs| == |s.prs.Keys|;
    BootTerms(s.log, e.boot);
  }

  lemma AskedMessages(e: Setting, s: Node, a: nat, v: nat)
    requires Exposed(e) && Idle(s, a, e) && v in e.voters && v != a
    ensures Request(a, v, e) in RequestVotes(Asking(s, a), MsgPreVote, e.Shared()).msgs
  {
    BootTerms(s.log, e.boot);
    assert VoteRequest(Asking(s, a), MsgPreVote, e.Shared(), v) == Request(a, v, e);
  }

  /** An idle node asks the others for pre-votes. */
  lemma AskPreVotes(e: Setting, c: Cluster, a: nat) returns (c': Cluster)
    requires Exposed(e) && Reached(e, c) && a in e.voters && AllUntouched(c, e) && Idle(c.nodes[a], a, e)
    ensures Reached(e, c') && OnlyMoved(c, c', a) && AllUntouched(c', e) && AllAsked(c', a, e)
    ensures a in c'.nodes && Collecting(c'.nodes[a], a, e)
  {
    hide React, RequestVotes, Asking, Collecting, Reached, Request, Untouched, Idle, Exposed;
    var s := c.nodes[a];
    IdleRole(e, s, a);
    HupAsks(e, s, a);
    AskedNode(e, s, a);
    c' := OneMoves(e, c, a, Local(EMPTY_MESSAGE), RequestVotes(Asking(s, a), MsgPreVote, e.Shared()));
    forall v | v in e.voters && v != a ensures Request(a, v, e) in c'.net {
      AskedMessages(e, s, a, v);
    }
  }

  lemma IdleRole(e: Setting, s: Node, a: nat)
    requires Idle(s, a, e)
    ensures s.role == Follower
  {
  }

  /** Any untouched voter grants the pre-vote and is not changed by it. */
  lemma GrantReact(e: Setting, s: Node, a: nat, v: nat)
    requires Exposed(e) && Untouched(s, v, e) && a in e.voters
    ensures React(e.cfg, s, Deliver(Request(a, v, e), false)) == Ok(s.(msgs := {Grant(v, a, e)}))
    ensures Deliverable(s, Request(a, v, e)) && Request(a, v, e).to == v
  {
    BootTerms(s.log, e.boot);
    var s' := s.(msgs := {Grant(v, a, e)});
    assert {} + {Grant(v, a, e)} == {Grant(v, a, e)};
    assert HandleVote(s, Request(a, v, e)) == Ok(s');
  }

  lemma GrantPreVote(e: Setting, c: Cluster, a: nat, v: nat) returns (c': Cluster)
    requires Exposed(e) && Reached(e, c) && AllUntouched(c, e) && a in e.voters && v in e.voters
    requires Request(a, v, e) in c.net
    ensures Reached(e, c') && c' == Cluster(c.nodes, c.net + {Grant(v, a, e)})
  {
    hide React, Reached, Request, Grant, Exposed, OnlyMoved, Untouched;
    var s := c.nodes[v];
    assert Untouched(s, v, e);
    GrantReact(e, s, a, v);
    SentAndGone(s, v, e, Grant(v, a, e));
    c' := OneMoves(e, c, v, Deliver(Request(a, v, e), false), s.(msgs := {Grant(v, a, e)}));
    NothingMoved(c, c', v);
  }

  lemma SentAndGone(s: Node, v: nat, e: Setting, m: Message)
    requires Untouched(s, v, e)
    ensures WellFormed(s.(msgs := {m})) && s.(msgs := {m}).(msgs := {}) == s
  {
  }

  lemma NothingMoved(c: Cluster, c': Cluster, v: nat)
    requires OnlyMoved(c, c', v) && v in c.nodes && v in c'.nodes && c'.nodes[v] == c.nodes[v]
    ensures c'.nodes == c.nodes
  {
  }

  /** All the others grant the request, one after the other. */
  lemma {:induction false} GrantAll(e: Setting, c: Cluster, a: nat, todo: set<nat>) returns (c': Cluster)
    requires Exposed(e) && Reached(e, c) && a in e.voters && todo <= e.voters && a !in todo
    requires AllUntouched(c, e) && AllAsked(c, a, e)
    requires forall v :: v in e.voters && v != a && v !in todo ==> Grant(v, a, e) in c.net
    ensures Reached(e, c')
    ensures c'.nodes == c.nodes && c.net <= c'.net && AllGranted(c', a, e)
    decreases todo
  {
    hide Untouched, Reached, Grant, Request, Exposed;
    if todo == {} {
      c' := c;
    } else {
      var v :| v in todo;
      var c1 := GrantPreVote(e, c, a, v);
      c' := GrantAll(e, c1, a, todo - {v});
    }
  }

  // ---------------------------------------------------------------- the election

  /** Collecting grants, all positive, in the given role and term. */
  ghost predicate Gathering(s: Node, role: Role, term: nat) {
    && s.role == role && s.term == term
    && s.id in s.votes && s.votes.Keys <= s.prs.Keys
    && (forall v :: v in s.votes ==> s.votes[v])
    && |s.votes| < NodeQuorum(s)
  }

  /** The states a node passes through while old grants are delivered to it. */
  ghost predicate Collecting(s: Node, a: nat, e: Setting) {
    && s.id == a && s.prs.Keys == e.voters && BootLog(s.log, e.boot) && s.msgs == {}
    && (Gathering(s, PreCandidate, e.Start()) || Gathering(s, Candidate, e.Shared()))
  }

  /** The entry a new leader of the shared term starts with, the same for every leader. */
  function FirstEntry(e: Setting): Entry {
    Entry(Normal, e.Shared(), |e.boot| + 1, [])
  }

  /** What a new leader sends to each peer. */
  function FirstAppend(a: nat, v: nat, e: Setting): Message {
    EMPTY_MESSAGE.(kind := MsgApp, to := v, from := a, term := e.Shared(), index := |e.boot|, logTerm := e.Start(),
                   entries := [FirstEntry(e)], commit := |e.boot|)
  }

  /** A peer that has been sent the first entry and not heard from. */
  function Probing(e: Setting): Progress {
    NewProgress(0, |e.boot| + 1, false, e.cfg.maxInflight).(paused := true)
  }

  /** The log of a leader: the bootstrap entries and its first entry, then `more`. */
  ghost predicate LeadLog(l: Log, e: Setting, more: seq<Entry>) {
    && l.base == 0 && l.baseTerm == 0 && l.ents == e.boot + [FirstEntry(e)] + more
    && l.applied <= |e.boot| <= l.committed <= l.Last()
  }

  /** A leader of the shared term that has only just been elected. */
  ghost predicate NewLeader(s: Node, a: nat, e: Setting) {
    && s.id == a && s.role == Leader && s.term == e.Shared() && s.prs.Keys == e.voters && a in e.voters
    && LeadLog(s.log, e, []) && s.log.committed == |e.boot| && s.uncommitted == 0 && s.prs[a].matched == |e.boot| + 1
    && forall v :: v in e.voters && v != a ==> s.prs[v] == Probing(e)
  }

  /** One more pre-vote answer, counted whatever the role. */
  lemma CountGrant(s: Node, role: Role, term: nat, v: nat)
    requires Gathering(s, role, term) && v in s.prs && v !in s.votes
    ensures var s1 := Poll(s, v, true);
            && |GrantedBy(s1.votes)| == |s.votes| + 1 && |s1.votes| == |s.votes| + 1
            && (forall u :: u in s1.votes ==> s1.votes[u])
            && s1.votes.Keys == s.votes.Keys + {v}
  {
    var s1 := Poll(s, v, true);
    assert s1.votes.Keys == s.votes.Keys + {v};
    assert GrantedBy(s1.votes) == s1.votes.Keys;
    assert |s1.votes.Keys| == |s.votes.Keys| + 1;
  }

  lemma MissingVoter(s: Node, a: nat, e: Setting) returns (v: nat)
    requires Collecting(s, a, e)
    ensures v in e.voters && v !in s.votes && v != a
  {
    assert |s.prs| == |s.prs.Keys| && |s.votes| == |s.votes.Keys|;
    if s.prs.Keys <= s.votes.Keys {
      SubsetCardinality(s.prs.Keys, s.votes.Keys);
      assert false;
    }
    v :| v in s.prs.Keys && v !in s.votes.Keys;
  }

  // ---------------------------------------------------------------- taking office

  /** With one peer or more at zero and only itself ahead, the quorum's index is zero. */
  lemma NobodyElse(matches: map<nat, nat>, a: nat)
    requires |matches| >= 2 && forall v :: v in matches && v != a ==> matches[v] == 0
    ensures QuorumIndex(matches) == 0
  {
    var x := QuorumIndex(matches);
    if x > 0 {
      assert AtLeast(matches, x) <= {a};
      SubsetCardinality(AtLeast(matches, x), {a});
      assert false;
    }
  }

  lemma NoCommitAlone(s: Node)
    requires |s.prs| >= 2 && forall v :: v in s.prs && v != s.id ==> s.prs[v].matched == 0
    ensures AdvanceCommit(s) == Ok((s, false))
  {
    var m := Matches(s.prs);
    assert m.Keys == s.prs.Keys && |m| == |m.Keys| && |s.prs| == |s.prs.Keys|;
    NobodyElse(m, s.id);
    assert s.id in m;
  }

  /** The first entry, stamped by the new leader. */
  lemma StampedFirst(e: Setting, s: Node)
    requires s.term == e.Shared() && BootLog(s.log, e.boot)
    ensures StampEntries(s, [EMPTY_ENTRY]) == [FirstEntry(e)] && PayloadSize([FirstEntry(e)]) == 0
  {
    assert [FirstEntry(e)][..0] == [];
    assert PayloadSize([]) == 0;
  }

  /** The node after writing its first entry, nobody heard from. */
  lemma FirstWritten(e: Setting, s: Node)
    requires s.role == Candidate && s.term == e.Shared() && s.prs.Keys == e.voters && BootLog(s.log, e.boot)
    ensures Elected(e.cfg, s).term == e.Shared() && BootLog(Elected(e.cfg, s).log, e.boot) && Elected(e.cfg, s).uncommitted == 0
    ensures Contiguous([FirstEntry(e)], Elected(e.cfg, s).log.Last() + 1)
    ensures var r := Appended(Elected(e.cfg, s), [FirstEntry(e)], 0);
            && r.id == s.id && r.role == Leader && r.term == s.term && r.prs.Keys == s.prs.Keys
            && LeadLog(r.log, e, []) && r.log.committed == |e.boot| && r.uncommitted == 0 && r.msgs == s.msgs
            && r.prs[s.id].matched == |e.boot| + 1
            && forall v :: v in e.voters && v != s.id ==> r.prs[v] == NewProgress(0, |e.boot| + 1, false, e.cfg.maxInflight)
  {
    assert e.boot + [FirstEntry(e)] + [] == e.boot + [FirstEntry(e)];
  }

  /** The state become_leader leaves: the first entry written, nobody heard from. */
  lemma OfficeTaken(e: Setting, s: Node)
    requires s.role == Candidate && s.term == e.Shared() && s.prs.Keys == e.voters && |e.voters| >= 2
    requires BootLog(s.log, e.boot) && ValidBoot(e.boot)
    ensures BecomeLeader(e.cfg, s) == Ok(Appended(Elected(e.cfg, s), [FirstEntry(e)], 0))
  {
    hide AppendEntry, AdvanceCommit, MaybeUpdate, Appended, StampEntries, LeadLog, FirstEntry;
    FirstWritten(e, s);
    var s2 := Elected(e.cfg, s);
    BootTerms(s2.log, e.boot);
    StampedFirst(e, s2);
    AppendEntrySteps(e.cfg, s2, [EMPTY_ENTRY]);
    var s3 := Appended(s2, [FirstEntry(e)], 0);
    assert |s3.prs| == |s3.prs.Keys|;
    NoCommitAlone(s3);
    ReducedByNothing(s3);
  }

  /** The first append of a new leader to a peer. */
  lemma FirstSend(e: Setting, s: Node, v: nat)
    requires LeadLog(s.log, e, []) && s.log.committed == |e.boot| && s.term == e.Shared() && ValidBoot(e.boot)
    ensures AppendTo(e.cfg, s, v, NewProgress(0, |e.boot| + 1, false, e.cfg.maxInflight), true)
         == (Probing(e), Some(FirstAppend(s.id, v, e)))
  {
    var n := |e.boot|;
    assert s.log.ents[n..n + 1] == [FirstEntry(e)];
    assert EntriesFrom(s.log, n + 1, e.cfg.maxMsgSize) == [FirstEntry(e)] by {
      assert LimitSize([FirstEntry(e)], e.cfg.maxMsgSize) == [FirstEntry(e)] by {
        assert [FirstEntry(e)][1..] == [];
      }
    }
    assert s.log.TermAt(n) == e.Start() by {
      if n > 0 {
        assert s.log.ents[n - 1] == e.boot[n - 1];
      }
    }
  }

  /** The new leader's broadcast. */
  lemma FirstBroadcast(e: Setting, s: Node)
    requires s.role == Leader && s.term == e.Shared() && s.prs.Keys == e.voters && ValidBoot(e.boot)
    requires LeadLog(s.log, e, []) && s.log.committed == |e.boot| && s.uncommitted == 0 && s.prs[s.id].matched == |e.boot| + 1
    requires forall v :: v in e.voters && v != s.id ==> s.prs[v] == NewProgress(0, |e.boot| + 1, false, e.cfg.maxInflight)
    ensures var r := BcastAppend(e.cfg, s);
            && NewLeader(r.(msgs := {}), s.id, e)
            && forall v :: v in e.voters && v != s.id ==> FirstAppend(s.id, v, e) in r.msgs
  {
    hide AppendTo, FirstAppend, Probing, LeadLog;
    forall v | v in e.voters && v != s.id
      ensures AppendTo(e.cfg, s, v, s.prs[v], true) == (Probing(e), Some(FirstAppend(s.id, v, e)))
    {
      FirstSend(e, s, v);
    }
  }

  /** The first appends are on their way. */
  ghost predicate AllSent(c: Cluster, a: nat, e: Setting) {
    forall v :: v in e.voters && v != a ==> FirstAppend(a, v, e) in c.net
  }

  // ---------------------------------------------------------------- winning by old grants

  /** Below the quorum one more grant is just recorded. */
  lemma GrantRecorded(e: Setting, s: Node, a: nat, v: nat)
    requires Collecting(s, a, e) && v in e.voters && v !in s.votes && |s.votes| + 1 < NodeQuorum(s)
    ensures HandleVoteResp(e.cfg, s, Grant(v, a, e)) == Ok(Poll(s, v, true))
    ensures Collecting(Poll(s, v, true), a, e)
    ensures Poll(s, v, true).role == s.role && |Poll(s, v, true).votes| == |s.votes| + 1
  {
    CountGrant(s, s.role, s.term, v);
  }

  /** In the pre-election the quorum starts the real campaign. */
  lemma GrantStartsCampaign(e: Setting, s: Node, a: nat, v: nat)
    requires Exposed(e) && Collecting(s, a, e) && v in e.voters && v !in s.votes
    requires |s.votes| + 1 == NodeQuorum(s) && s.role == PreCandidate
    ensures HandleVoteResp(e.cfg, s, Grant(v, a, e)).Ok?
    ensures var r := HandleVoteResp(e.cfg, s, Grant(v, a, e)).value;
            Collecting(r.(msgs := {}), a, e) && r.role == Candidate
  {
    hide Campaign;
    CountGrant(s, s.role, s.term, v);
    CampaignCollects(e, Poll(s, v, true), a);
  }

  lemma CampaignCollects(e: Setting, s: Node, a: nat)
    requires Exposed(e) && s.id == a && BootLog(s.log, e.boot) && s.prs.Keys == e.voters
    requires s.role == PreCandidate && s.term == e.Start()
    ensures Campaign(e.cfg, s).Ok? && Campaign(e.cfg, s).value.role == Candidate
    ensures Collecting(Campaign(e.cfg, s).value.(msgs := {}), a, e)
  {
    var s1 := Poll(BecomeCandidate(e.cfg, s), a, true);
    assert s1.votes == map[a := true];
    assert GrantedBy(s1.votes) == {a};
    assert s1.prs.Keys == e.voters;
    assert |s1.prs| == |s1.prs.Keys|;
  }

  /** In the election itself the old grants reach the quorum and the node leads. */
  lemma GrantElects(e: Setting, s: Node, a: nat, v: nat)
    requires Exposed(e) && Collecting(s, a, e) && v in e.voters && v !in s.votes
    requires |s.votes| + 1 == NodeQuorum(s) && s.role == Candidate
    ensures HandleVoteResp(e.cfg, s, Grant(v, a, e)).Ok?
    ensures var r := HandleVoteResp(e.cfg, s, Grant(v, a, e)).value;
            && NewLeader(r.(msgs := {}), a, e)
            && forall u :: u in e.voters && u != a ==> FirstAppend(a, u, e) in r.msgs
  {
    hide BecomeLeader, BcastAppend, NewLeader, Appended, Elected, LeadLog;
    CountGrant(s, s.role, s.term, v);
    var s1 := Poll(s, v, true);
    OfficeTaken(e, s1);
    FirstWritten(e, s1);
    FirstBroadcast(e, Appended(Elected(e.cfg, s1), [FirstEntry(e)], 0));
  }

  /** A stored grant, of the node's term or the next, goes straight to the tally. */
  lemma GrantIsCounted(e: Setting, s: Node, a: nat, v: nat)
    requires Collecting(s, a, e) && v in e.voters
    ensures IsCandidate(s) && Grant(v, a, e).to == a && Deliverable(s, Grant(v, a, e))
    ensures React(e.cfg, s, Deliver(Grant(v, a, e), false)) == HandleVoteResp(e.cfg, s, Grant(v, a, e))
  {
    hide HandleVoteResp, BootLog;
  }

  /** How many stored grants are still needed. */
  function Missing(s: Node, e: Setting): int {
    (if s.role == PreCandidate then |e.voters| else 0) + |e.voters| - |s.votes|
  }

  /** The node has just come to lead, or needs fewer grants than before. */
  ghost predicate Closer(s: Node, s': Node, a: nat, e: Setting) {
    NewLeader(s', a, e) || (Collecting(s', a, e) && 0 <= Missing(s', e) < Missing(s, e))
  }

  lemma CollectingRole(s: Node, a: nat, e: Setting)
    requires Collecting(s, a, e)
    ensures s.role == PreCandidate || s.role == Candidate
    ensures s.id == a && 1 <= |s.votes| < NodeQuorum(s) <= |e.voters|
  {
    assert |s.prs| == |s.prs.Keys| == |e.voters|;
    assert s.votes != map[];
  }

  /** One stored grant: what it makes of the node and what the node sends. */
  lemma GrantBringsCloser(e: Setting, s: Node, a: nat, v: nat)
    requires Exposed(e) && a in e.voters && Collecting(s, a, e) && v in e.voters && v !in s.votes
    ensures HandleVoteResp(e.cfg, s, Grant(v, a, e)).Ok?
    ensures var r := HandleVoteResp(e.cfg, s, Grant(v, a, e)).value;
            && Closer(s, r.(msgs := {}), a, e)
            && (r.role == Leader ==> forall u :: u in e.voters && u != a ==> FirstAppend(a, u, e) in r.msgs)
  {
    hide HandleVoteResp, Collecting, NodeQuorum, NewLeader, Exposed, Grant, FirstAppend;
    CollectingRole(s, a, e);
    if |s.votes| + 1 < NodeQuorum(s) {
      GrantRecorded(e, s, a, v);
      CollectingRole(Poll(s, v, true), a, e);
      ClearedAlready(Poll(s, v, true), a, e);
    } else if s.role == PreCandidate {
      GrantStartsCampaign(e, s, a, v);
      CollectingRole(HandleVoteResp(e.cfg, s, Grant(v, a, e)).value.(msgs := {}), a, e);
    } else {
      GrantElects(e, s, a, v);
    }
  }

  lemma ClearedAlready(s: Node, a: nat, e: Setting)
    requires Collecting(s, a, e)
    ensures s.(msgs := {}) == s
  {
  }

  lemma UseGrant(c: Cluster, a: nat, v: nat, e: Setting)
    requires AllGranted(c, a, e) && v in e.voters && v != a
    ensures Grant(v, a, e) in c.net
  {
  }

  /** One stored grant brings the node closer to leading. */
  lemma GrantStep(e: Setting, c: Cluster, a: nat) returns (c': Cluster)
    requires Exposed(e) && Reached(e, c) && a in c.nodes && a in e.voters
    requires Collecting(c.nodes[a], a, e) && AllGranted(c, a, e)
    ensures Reached(e, c') && OnlyMoved(c, c', a) && a in c'.nodes && Closer(c.nodes[a], c'.nodes[a], a, e)
    ensures c'.nodes[a].role == Leader ==> AllSent(c', a, e)
  {
    hide HandleVoteResp, Collecting, NewLeader, Exposed, Grant, FirstAppend, Reached, OnlyMoved, AllGranted, Closer, React;
    var s := c.nodes[a];
    var v := MissingVoter(s, a, e);
    UseGrant(c, a, v, e);
    GrantBringsCloser(e, s, a, v);
    GrantIsCounted(e, s, a, v);
    var r := HandleVoteResp(e.cfg, s, Grant(v, a, e)).value;
    c' := OneMoves(e, c, a, Deliver(Grant(v, a, e), false), r);
  }

  lemma GrantsStay(c: Cluster, c': Cluster, a: nat, mover: nat, e: Setting)
    requires AllGranted(c, a, e) && OnlyMoved(c, c', mover)
    ensures AllGranted(c', a, e)
  {
    hide Grant;
  }

  lemma LeaderRole(s: Node, s': Node, a: nat, e: Setting)
    requires Closer(s, s', a, e)
    ensures if s'.role == Leader then NewLeader(s', a, e)
            else Collecting(s', a, e) && 0 <= Missing(s', e) < Missing(s, e)
  {
    hide BootLog, LeadLog, NodeQuorum;
  }

  /** From either round, the grants kept by the network make the node leader of the shared term. */
  lemma {:induction false} WinByGrants(e: Setting, c: Cluster, a: nat) returns (c': Cluster)
    requires Exposed(e) && Reached(e, c) && a in c.nodes && a in e.voters
    requires Collecting(c.nodes[a], a, e) && AllGranted(c, a, e)
    ensures Reached(e, c') && OnlyMoved(c, c', a) && a in c'.nodes && NewLeader(c'.nodes[a], a, e) && AllSent(c', a, e)
    decreases Missing(c.nodes[a], e)
  {
    hide *;
    var c1 := GrantStep(e, c, a);
    LeaderRole(c.nodes[a], c1.nodes[a], a, e);
    if c1.nodes[a].role == Leader {
      c' := c1;
    } else {
      GrantsStay(c, c1, a, a, e);
      c' := WinByGrants(e, c1, a);
      OnlyMovedTrans(c, c1, c', a);
    }
  }

  // ---------------------------------------------------------------- two leaders

  lemma FreshCluster(e: Setting) returns (c: Cluster)
    requires Exposed(e)
    ensures Reached(e, c) && AllUntouched(c, e)
    ensures forall v :: v in e.voters ==> c.nodes[v].role == Follower
  {
    c := Cluster(map v | v in e.voters :: InitialNode(e.cfg, v, e.voters, e.boot), {});
    var run := [c];
    assert e.voters != {};
    assert Run(e.cfg, e.voters, e.boot, run) && run[|run| - 1] == c;
  }

  lemma GrantedUntouched(c: Cluster, c': Cluster, e: Setting)
    requires AllUntouched(c, e) && c'.nodes == c.nodes
    ensures AllUntouched(c', e)
  {
  }

  /** Node `a` applies its bootstrap entries, asks everyone for a pre-vote and everyone grants it. */
  lemma PreElection(e: Setting, c: Cluster, a: nat) returns (c': Cluster)
    requires Exposed(e) && Reached(e, c) && a in e.voters
    requires AllUntouched(c, e) && a in c.nodes && c.nodes[a].role == Follower
    ensures Reached(e, c') && AllUntouched(c', e) && OnlyMoved(c, c', a)
    ensures a in c'.nodes && Collecting(c'.nodes[a], a, e) && AllGranted(c', a, e)
  {
    hide Reached, Collecting, Untouched, OnlyMoved, AllGranted, AllAsked, Request, Grant;
    var c1 := Drain(e, c, a);
    assert Untouched(c1.nodes[a], a, e);
    var c2 := AskPreVotes(e, c1, a);
    OnlyMovedTrans(c, c1, c2, a);
    NobodyGranted(c2, a, e);
    c' := GrantAll(e, c2, a, e.voters - {a});
    SameNodes(c, c2, c', a);
    GrantedUntouched(c2, c', e);
  }

  lemma NobodyGranted(c: Cluster, a: nat, e: Setting)
    ensures forall v :: v in e.voters && v != a && v !in e.voters - {a} ==> Grant(v, a, e) in c.net
  {
  }

  lemma SameNodes(c: Cluster, d: Cluster, f: Cluster, a: nat)
    requires OnlyMoved(c, d, a) && f.nodes == d.nodes && d.net <= f.net
    ensures OnlyMoved(c, f, a)
  {
  }

  lemma Unmoved(c: Cluster, c': Cluster, mover: nat, v: nat, e: Setting)
    requires OnlyMoved(c, c', mover) && v in c.nodes && v != mover
    ensures v in c'.nodes && c'.nodes[v] == c.nodes[v] && c.nodes.Keys == c'.nodes.Keys && c.net <= c'.net
    ensures AllGranted(c, v, e) ==> AllGranted(c', v, e)
    ensures AllSent(c, v, e) ==> AllSent(c', v, e)
  {
    hide Grant, FirstAppend;
  }

  /** Both nodes lead the shared term and have sent their first appends; the others have not moved. */
  ghost predicate Split(c: Cluster, a: nat, b: nat, e: Setting) {
    && c.nodes.Keys == e.voters && a in e.voters && b in e.voters && a != b
    && NewLeader(c.nodes[a], a, e) && NewLeader(c.nodes[b], b, e) && AllSent(c, a, e) && AllSent(c, b, e)
    && forall v :: v in e.voters && v != a && v != b ==> Untouched(c.nodes[v], v, e)
  }

  lemma ElectBoth(e: Setting, c: Cluster, a: nat, b: nat) returns (c': Cluster)
    requires Exposed(e) && Reached(e, c) && a in e.voters && b in e.voters && a != b && AllUntouched(c, e)
    requires a in c.nodes && Collecting(c.nodes[a], a, e) && AllGranted(c, a, e)
    requires b in c.nodes && Collecting(c.nodes[b], b, e) && AllGranted(c, b, e)
    ensures Reached(e, c') && Split(c', a, b, e)
  {
    hide Reached, Collecting, OnlyMoved, AllGranted, AllSent, NewLeader, Untouched, Exposed;
    var c1 := WinByGrants(e, c, a);
    Unmoved(c, c1, a, b, e);
    c' := WinByGrants(e, c1, b);
    Unmoved(c1, c', b, a, e);
    forall v | v in e.voters && v != a && v != b ensures v in c'.nodes && Untouched(c'.nodes[v], v, e) {
      Unmoved(c, c1, a, v, e);
      Unmoved(c1, c', b, v, e);
    }
  }

  /** With pre-vote on, any two voters can both come to lead the same term, whatever the bootstrap log. */
  lemma TwoLeaders(e: Setting, a: nat, b: nat) returns (c: Cluster)
    requires Exposed(e) && a in e.voters && b in e.voters && a != b
    ensures Reached(e, c) && Split(c, a, b, e)
  {
    hide Reached, Collecting, Untouched, OnlyMoved, AllGranted, Split, Exposed;
    var c0 := FreshCluster(e);
    var c1 := PreElection(e, c0, a);
    Unmoved(c0, c1, a, b, e);
    var c2 := PreElection(e, c1, b);
    Unmoved(c1, c2, b, a, e);
    c := ElectBoth(e, c2, a, b);
  }

  /** No two nodes ever lead the same term, in any run of this cluster. */
  ghost predicate SafeElections(e: Setting) {
    forall run: seq<Cluster>, i: nat, j: nat, a: nat, b: nat, t: nat
      {:trigger Run(e.cfg, e.voters, e.boot, run), Leads(run, i, a, t), Leads(run, j, b, t)} ::
      Run(e.cfg, e.voters, e.boot, run) && Leads(run, i, a, t) && Leads(run, j, b, t) ==> a == b
  }

  /** Election safety holds exactly when pre-vote is off or there is a single voter, for every bootstrap
      log. */
  lemma SafeExactlyWithoutPreVote(e: Setting)
    requires e.voters != {} && 0 !in e.voters && ValidBoot(e.boot)
    ensures SafeElections(e) <==> (!e.cfg.preVote || |e.voters| == 1)
  {
    hide Run, ValidBoot;
    if !e.cfg.preVote || |e.voters| == 1 {
      forall run: seq<Cluster>, i: nat, j: nat, a: nat, b: nat, t: nat
        | Run(e.cfg, e.voters, e.boot, run) && Leads(run, i, a, t) && Leads(run, j, b, t)
        ensures a == b
      {
        if !e.cfg.preVote {
          ElectionSafety(e.cfg, e.voters, e.boot, run, i, j, a, b);
        } else {
          OnlyVoter(e, run, i, j, a, b);
        }
      }
    } else {
      NotSafe(e);
    }
  }

  lemma OnlyVoter(e: Setting, run: seq<Cluster>, i: nat, j: nat, a: nat, b: nat)
    requires Run(e.cfg, e.voters, e.boot, run) && At(run, i, a) && At(run, j, b) && |e.voters| == 1
    ensures a == b
  {
    hide Run;
    NodesAreVoters(e.cfg, e.voters, e.boot, run, i);
    NodesAreVoters(e.cfg, e.voters, e.boot, run, j);
    if a != b {
      SubsetCardinality({a, b}, e.voters);
      assert false;
    }
  }

  lemma TwoVoters(voters: set<nat>) returns (a: nat, b: nat)
    requires |voters| >= 2
    ensures a in voters && b in voters && a != b
  {
    a :| a in voters;
    assert |voters - {a}| > 0;
    b :| b in voters - {a};
  }

  lemma SplitLeads(run: seq<Cluster>, c: Cluster, a: nat, b: nat, e: Setting)
    requires run != [] && run[|run| - 1] == c && Split(c, a, b, e)
    ensures Leads(run, |run| - 1, a, e.Shared()) && Leads(run, |run| - 1, b, e.Shared())
  {
    hide LeadLog, Untouched, AllSent;
  }

  lemma NotSafe(e: Setting)
    requires Exposed(e)
    ensures !SafeElections(e)
  {
    hide Run, Exposed, Split, Leads;
    ExposedVoters(e);
    var a, b := TwoVoters(e.voters);
    var c := TwoLeaders(e, a, b);
    var run := ReachingRun(e, c);
    SplitLeads(run, c, a, b, e);
  }

  lemma ExposedVoters(e: Setting)
    requires Exposed(e)
    ensures |e.voters| >= 2
  {
  }

  lemma ReachingRun(e: Setting, c: Cluster) returns (run: seq<Cluster>)
    requires Reached(e, c)
    ensures Run(e.cfg, e.voters, e.boot, run) && run != [] && run[|run| - 1] == c
  {
    run :| Run(e.cfg, e.voters, e.boot, run) && run[|run| - 1] == c;
  }

  lemma {:induction false} NodesAreVoters(cfg: Config, voters: set<nat>, boot: seq<Entry>, run: seq<Cluster>, i: nat)
    requires Run(cfg, voters, boot, run) && i < |run|
    ensures run[i].nodes.Keys == voters
  {
    if i > 0 {
      NodesAreVoters(cfg, voters, boot, run, i - 1);
      assert Next(cfg, run[i - 1], run[i - 1 + 1]);
    }
  }
}
