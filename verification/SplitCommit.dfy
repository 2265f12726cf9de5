/** What two leaders of one term lead to. With pre-vote on, both propose an entry at the same index and
    term. A voter that has taken one leader's entry acknowledges the other's too, since find_conflict compares
    terms only; so does a leader that has stepped down at a quorum check. Two nodes then commit different
    entries at one index, in every cluster of three or more voters and, with quorum checks, of two. State
    machine safety holds exactly in the other cases. */
module SplitCommit {
  import opened Proto
  import opened LogSpec
  import opened ProgressSpec
  import opened RaftSpec
  import opened ClusterSpec
  import opened Quorum
  import opened History
  import opened Leadership
  import opened Steps
  import opened Theorems
  import opened Ledger
  import opened LocalRuns
  import opened PreVote
  import opened Stalemate

  /** The entry a leader of the shared term proposes next. */
  function Own(e: Setting, data: seq<byte>): Entry {
    Entry(Normal, e.Shared(), |e.boot| + 2, data)
  }

  const MINE: seq<byte> := [1]
  const THEIRS: seq<byte> := [2]

  function Proposal(data: seq<byte>): Message {
    EMPTY_MESSAGE.(kind := MsgProp, entries := [Entry(Normal, 0, 0, data)])
  }

  function Acked(v: nat, a: nat, e: Setting, index: nat): Message {
    EMPTY_MESSAGE.(kind := MsgAppResp, to := a, from := v, term := e.Shared(), index := index)
  }

  /** The append that carries the leader's own entry. */
  function SecondAppend(a: nat, v: nat, e: Setting, data: seq<byte>, commit: nat): Message {
    EMPTY_MESSAGE.(kind := MsgApp, to := v, from := a, term := e.Shared(), index := |e.boot| + 1, logTerm := e.Shared(),
                   entries := [Own(e, data)], commit := commit)
  }

  // ---------------------------------------------------------------- the leader

  /** A leader of the shared term with its own entry, which the peers in `done` have acknowledged; the
      others have not been heard from, except `half`, which has acknowledged the first entry. */
  ghost predicate Leading(s: Node, a: nat, e: Setting, data: seq<byte>, done: set<nat>, half: set<nat>) {
    && s.id == a && s.role == Leader && s.term == e.Shared() && s.prs.Keys == e.voters && a in e.voters
    && LeadLog(s.log, e, [Own(e, data)])
    && s.prs[a].matched == |e.boot| + 2
    && (forall v :: v in e.voters && v != a && v !in done && v !in half ==> s.prs[v] == Probing(e))
    && (forall v :: v in done && v in e.voters ==> s.prs[v].matched == |e.boot| + 2)
    && (forall v :: v in half && v in e.voters ==> s.prs[v].matched == |e.boot| + 1)
  }

  lemma OwnLog(l: Log, e: Setting, data: seq<byte>)
    requires LeadLog(l, e, [Own(e, data)])
    ensures l.Last() == |e.boot| + 2 && l.TermAt(|e.boot| + 1) == e.Shared() && l.TermAt(|e.boot| + 2) == e.Shared()
    ensures CursorsOk(l)
  {
  }

  /** A paused peer is sent nothing. */
  lemma PausedIsSilent(cfg: Config, s: Node, v: nat, e: Setting)
    ensures AppendTo(cfg, s, v, Probing(e), true) == (Probing(e), None)
  {
  }

  lemma NobodyListens(e: Setting, s: Node)
    requires s.prs.Keys == e.voters && forall v :: v in e.voters && v != s.id ==> s.prs[v] == Probing(e)
    ensures BcastAppend(e.cfg, s) == s
  {
    hide AppendTo, Probing;
    forall v | v in e.voters && v != s.id ensures AppendTo(e.cfg, s, v, s.prs[v], true) == (s.prs[v], None) {
      PausedIsSilent(e.cfg, s, v, e);
    }
    assert BcastAppend(e.cfg, s).prs == s.prs;
    assert BcastAppend(e.cfg, s).msgs == s.msgs;
  }

  lemma GatedAlone(data: seq<byte>, pending: nat, applied: nat, at: nat)
    ensures GateConf([Entry(Normal, 0, 0, data)], pending, applied, at) == ([Entry(Normal, 0, 0, data)], pending)
  {
    var es := [Entry(Normal, 0, 0, data)];
    assert es[1..] == [];
    assert GateConf([], pending, applied, at + 1) == ([], pending);
    assert [es[0]] + [] == es;
  }

  lemma StampedOwn(e: Setting, s: Node, data: seq<byte>)
    requires s.term == e.Shared() && LeadLog(s.log, e, [])
    ensures StampEntries(s, [Entry(Normal, 0, 0, data)]) == [Own(e, data)]
  {
  }

  /** The leader after writing its own entry. */
  lemma OwnWritten(e: Setting, s: Node, a: nat, data: seq<byte>, u: nat)
    requires NewLeader(s, a, e)
    ensures Contiguous([Own(e, data)], s.log.Last() + 1)
    ensures var r := Appended(s, [Own(e, data)], u);
            Leading(r, a, e, data, {}, {}) && r.msgs == s.msgs && r.log.committed == |e.boot|
  {
    assert e.boot + [FirstEntry(e)] + [] == e.boot + [FirstEntry(e)];
  }

  /** Proposing at a new leader: the entry is written and nobody can be told yet. */
  lemma ProposeReacts(e: Setting, s: Node, a: nat, data: seq<byte>)
    requires Exposed(e) && NewLeader(s, a, e)
    ensures LocalInput(e.cfg, Proposal(data)) && MessageWellFormed(Proposal(data))
    ensures var ents := [Own(e, data)];
            && Contiguous(ents, s.log.Last() + 1)
            && Propose(e.cfg, s, Proposal(data)) == Ok(Appended(s, ents, Wrap32(PayloadSize(ents))))
  {
    hide AdvanceCommit, AppendEntry, BcastAppend, GateConf, StampEntries, Appended, PayloadSize;
    var es := [Entry(Normal, 0, 0, data)];
    var ents := [Own(e, data)];
    var s1 := Appended(s, ents, Wrap32(PayloadSize(ents)));
    ProposeSteps(e.cfg, s, Proposal(data));
    GatedAlone(data, s.pendingConf, s.log.applied, s.log.Last() + 1);
    assert s.(pendingConf := s.pendingConf) == s;
    StampedOwn(e, s, data);
    AppendEntrySteps(e.cfg, s, es);
    OwnWritten(e, s, a, data, Wrap32(PayloadSize(ents)));
    assert |s1.prs| == |s1.prs.Keys|;
    NoCommitAlone(s1);
    NobodyListens(e, s1);
  }

  // ---------------------------------------------------------------- stepping down

  /** A leader nobody has answered steps down at a quorum check and keeps its log. */
  lemma CheckReacts(e: Setting, s: Node, b: nat, data: seq<byte>)
    requires Exposed(e) && e.cfg.checkQuorum && Leading(s, b, e, data, {}, {})
    ensures var check := EMPTY_MESSAGE.(kind := MsgCheckQuorum);
            LocalInput(e.cfg, check) && React(e.cfg, s, Local(check)) == Ok(BecomeFollower(e.cfg, s, s.term, 0))
  {
    hide BecomeFollower, LeadLog;
    assert ActiveVoters(s) == {b};
    assert |s.prs| == |s.prs.Keys|;
  }

  /** A follower of the shared term with the first entry and then `more`, of which it has committed at most the
      first. */
  ghost predicate Follows(s: Node, v: nat, e: Setting, more: seq<Entry>) {
    && s.id == v && s.role == Follower && s.term == e.Shared() && s.prs.Keys == e.voters && s.msgs == {}
    && LeadLog(s.log, e, more) && s.log.committed <= |e.boot| + 1
  }

  /** A node a leader has not reached yet: one that has not moved or, with `had`, one that already holds an
      entry of the shared term past the first. */
  ghost predicate Waiting(s: Node, v: nat, e: Setting, had: Option<seq<byte>>) {
    match had
    case None => Untouched(s, v, e)
    case Some(data) => Follows(s, v, e, [Own(e, data)])
  }

  /** What it holds past the first entry before ... */
  function Before(e: Setting, had: Option<seq<byte>>): seq<Entry> {
    if had.Some? then [Own(e, had.value)] else []
  }

  /** ... and after a leader has sent it its own entry. */
  function After(e: Setting, had: Option<seq<byte>>, data: seq<byte>): seq<Entry> {
    [Own(e, if had.Some? then had.value else data)]
  }

  lemma SteppedDown(e: Setting, s: Node, b: nat)
    requires Leading(s, b, e, THEIRS, {}, {}) && s.msgs == {} && s.log.committed == |e.boot|
    ensures Waiting(BecomeFollower(e.cfg, s, s.term, 0), b, e, Some(THEIRS))
  {
    hide LeadLog;
  }

  // ---------------------------------------------------------------- a follower's answers

  /** maybe_append of one entry of the shared term after a position where the logs match. */
  lemma OneEntry(l: Log, index: nat, logTerm: nat, commit: nat, x: Entry)
    requires CursorsOk(l) && l.base == 0 && l.committed <= index <= l.Last() && l.TermAt(index) == logTerm
    requires x.index == index + 1 && x.term >= 1
    ensures MaybeAppend(l, index, logTerm, commit, [x]) ==
            Accepted(AtCommit(if l.TermAt(index + 1) == x.term then l else Replace(l, index, [x]),
                              Max(l.committed, Min(commit, index + 1))), index + 1)
  {
    MaybeAppendContract(l, index, logTerm, commit, [x]);
    assert [x][1..] == [];
    assert FindConflict(l, []) == 0;
    assert FindConflict(l, [x]) == if l.TermAt(index + 1) == x.term then 0 else index + 1;
    if l.TermAt(index + 1) == x.term {
      MergedWithoutConflict(l, index, [x]);
    } else {
      MergedAtConflict(l, index, [x]);
      assert [x][0..] == [x];
    }
  }

  /** The first entry at a node that has not moved, ... */
  lemma FirstAtUntouched(e: Setting, s: Node, a: nat, v: nat)
    requires Exposed(e) && Untouched(s, v, e)
    ensures var r := HandleAppend(BecomeFollower(e.cfg, s, e.Shared(), a).(lead := a), FirstAppend(a, v, e));
            r.Ok? && Follows(r.value.(msgs := {}), v, e, []) && r.value.msgs == {Acked(v, a, e, |e.boot| + 1)}
  {
    hide MaybeAppend;
    BootTerms(s.log, e.boot);
    OneEntry(s.log, |e.boot|, e.Start(), |e.boot|, FirstEntry(e));
    assert e.boot[..|e.boot|] + [FirstEntry(e)] == e.boot + [FirstEntry(e)] + [];
    assert {} + {Acked(v, a, e, |e.boot| + 1)} == {Acked(v, a, e, |e.boot| + 1)};
  }

  /** ... and at one that holds it already, committed or not. */
  lemma FirstAtFollower(e: Setting, s: Node, a: nat, v: nat, more: seq<Entry>)
    requires Exposed(e) && Follows(s, v, e, more)
    ensures var r := HandleAppend(s.(lead := a), FirstAppend(a, v, e));
            r.Ok? && Follows(r.value.(msgs := {}), v, e, more) && r.value.msgs == {Acked(v, a, e, |e.boot| + 1)}
  {
    hide MaybeAppend;
    FollowTerms(s.log, e, more);
    if s.log.committed == |e.boot| {
      OneEntry(s.log, |e.boot|, e.Start(), |e.boot|, FirstEntry(e));
    }
    assert {} + {Acked(v, a, e, |e.boot| + 1)} == {Acked(v, a, e, |e.boot| + 1)};
  }

  lemma FollowTerms(l: Log, e: Setting, more: seq<Entry>)
    requires LeadLog(l, e, more) && ValidBoot(e.boot)
    ensures l.TermAt(|e.boot|) == e.Start() && l.TermAt(|e.boot| + 1) == e.Shared()
    ensures l.Last() == |e.boot| + 1 + |more| && CursorsOk(l)
    ensures l.TermAt(|e.boot| + 2) == if more == [] then 0 else more[0].term
  {
    var n := |e.boot|;
    if n > 0 {
      assert l.ents[n - 1] == e.boot[n - 1];
    }
    assert l.ents[n] == FirstEntry(e);
    if more != [] {
      assert l.ents[n + 1] == more[0];
    }
  }

  /** The first append at any node: it follows and acknowledges. */
  lemma FirstReacts(e: Setting, s: Node, a: nat, v: nat, had: Option<seq<byte>>) returns (s': Node)
    requires Exposed(e) && Waiting(s, v, e, had) && a in e.voters
    ensures Deliverable(s, FirstAppend(a, v, e)) && FirstAppend(a, v, e).to == v
    ensures React(e.cfg, s, Deliver(FirstAppend(a, v, e), false)) == Ok(s')
    ensures Follows(s'.(msgs := {}), v, e, Before(e, had)) && s'.msgs == {Acked(v, a, e, |e.boot| + 1)}
  {
    hide HandleAppend, BecomeFollower, BootLog, LeadLog, FirstEntry;
    FirstWellFormed(e, a, v);
    if had.Some? {
      FirstAtFollower(e, s, a, v, Before(e, had));
      s' := HandleAppend(s.(lead := a), FirstAppend(a, v, e)).value;
    } else {
      FirstAtUntouched(e, s, a, v);
      s' := HandleAppend(BecomeFollower(e.cfg, s, e.Shared(), a).(lead := a), FirstAppend(a, v, e)).value;
      FollowerLead(e.cfg, s, e.Shared(), a);
    }
  }

  lemma FollowerLead(cfg: Config, s: Node, term: nat, lead: nat)
    ensures BecomeFollower(cfg, s, term, lead).role == Follower
    ensures BecomeFollower(cfg, s, term, lead).(lead := lead) == BecomeFollower(cfg, s, term, lead)
  {
  }

  lemma FirstWellFormed(e: Setting, a: nat, v: nat)
    ensures MessageWellFormed(FirstAppend(a, v, e))
    ensures Contiguous(FirstAppend(a, v, e).entries, FirstAppend(a, v, e).index + 1)
  {
  }

  /** The second append: a node without an entry there takes it, the other keeps its own; both acknowledge. */
  lemma SecondHandled(e: Setting, s: Node, a: nat, v: nat, had: Option<seq<byte>>, data: seq<byte>, commit: nat)
    requires Contiguous(SecondAppend(a, v, e, data, commit).entries, SecondAppend(a, v, e, data, commit).index + 1)
    requires Exposed(e) && Follows(s, v, e, Before(e, had)) && commit <= |e.boot| + 1
    ensures var r := HandleAppend(s.(lead := a), SecondAppend(a, v, e, data, commit));
            && r.Ok? && Follows(r.value.(msgs := {}), v, e, After(e, had, data))
            && r.value.msgs == {Acked(v, a, e, |e.boot| + 2)}
  {
    hide MaybeAppend;
    var n := |e.boot|;
    FollowTerms(s.log, e, Before(e, had));
    OneEntry(s.log, n + 1, e.Shared(), commit, Own(e, data));
    if had.None? {
      assert s.log.ents[..n + 1] == s.log.ents;
      assert e.boot + [FirstEntry(e)] + [] + [Own(e, data)] == e.boot + [FirstEntry(e)] + [Own(e, data)];
    }
    assert {} + {Acked(v, a, e, n + 2)} == {Acked(v, a, e, n + 2)};
  }

  lemma SecondReacts(e: Setting, s: Node, a: nat, v: nat, had: Option<seq<byte>>, data: seq<byte>, commit: nat) returns (s': Node)
    requires Exposed(e) && Follows(s, v, e, Before(e, had)) && commit <= |e.boot| + 1 && a in e.voters
    ensures Deliverable(s, SecondAppend(a, v, e, data, commit)) && SecondAppend(a, v, e, data, commit).to == v
    ensures React(e.cfg, s, Deliver(SecondAppend(a, v, e, data, commit), false)) == Ok(s')
    ensures Follows(s'.(msgs := {}), v, e, After(e, had, data)) && s'.msgs == {Acked(v, a, e, |e.boot| + 2)}
  {
    hide HandleAppend, LeadLog;
    SecondWellFormed(e, a, v, data, commit);
    SecondHandled(e, s, a, v, had, data, commit);
    s' := HandleAppend(s.(lead := a), SecondAppend(a, v, e, data, commit)).value;
  }

  lemma SecondWellFormed(e: Setting, a: nat, v: nat, data: seq<byte>, commit: nat)
    ensures MessageWellFormed(SecondAppend(a, v, e, data, commit))
    ensures Contiguous(SecondAppend(a, v, e, data, commit).entries, SecondAppend(a, v, e, data, commit).index + 1)
  {
  }

  // ---------------------------------------------------------------- the leader and its peers' answers

  /** Sending leaves everything but the peers' progress alone, their matches too, and a paused peer. */
  ghost predicate Sent(s: Node, s': Node, e: Setting) {
    && s'.id == s.id && s'.role == s.role && s'.term == s.term && s'.log == s.log && s'.prs.Keys == s.prs.Keys
    && s.msgs <= s'.msgs
    && (forall u {:trigger s'.prs[u]} :: u in s.prs ==> s'.prs[u].matched == s.prs[u].matched)
    && (forall u {:trigger s'.prs[u]} :: u in s.prs && s.prs[u] == Probing(e) ==> s'.prs[u] == s.prs[u])
  }

  lemma SentTrans(s: Node, s1: Node, s2: Node, e: Setting)
    requires Sent(s, s1, e) && Sent(s1, s2, e)
    ensures Sent(s, s2, e)
  {
    hide Probing;
    forall u | u in s.prs
      ensures s2.prs[u].matched == s.prs[u].matched && (s.prs[u] == Probing(e) ==> s2.prs[u] == s.prs[u])
    {
      assert s1.prs[u].matched == s.prs[u].matched;
    }
  }

  lemma PausedIsSilentEither(cfg: Config, s: Node, v: nat, e: Setting, sendIfEmpty: bool)
    ensures AppendTo(cfg, s, v, Probing(e), sendIfEmpty) == (Probing(e), None)
  {
  }

  lemma MaybeSendSent(e: Setting, s: Node, v: nat, sendIfEmpty: bool)
    requires v in s.prs
    ensures Sent(s, MaybeSendAppend(e.cfg, s, v, sendIfEmpty).0, e)
  {
    hide AppendTo, Probing;
    AppendToMatched(e.cfg, s, v, s.prs[v], sendIfEmpty);
    PausedIsSilentEither(e.cfg, s, v, e, sendIfEmpty);
  }

  lemma BcastSent(e: Setting, s: Node)
    ensures Sent(s, BcastAppend(e.cfg, s), e)
  {
    hide AppendTo, Probing;
    forall u | u in s.prs ensures AppendTo(e.cfg, s, u, s.prs[u], true).0.matched == s.prs[u].matched
      && (s.prs[u] == Probing(e) ==> AppendTo(e.cfg, s, u, s.prs[u], true).0 == s.prs[u])
    {
      AppendToMatched(e.cfg, s, u, s.prs[u], true);
      PausedIsSilentEither(e.cfg, s, u, e, true);
    }
  }

  lemma {:induction false} SendAllSent(e: Setting, s: Node, v: nat)
    requires v in s.prs
    ensures Sent(s, SendAll(e.cfg, s, v), e)
    decreases SendBudget(s, v)
  {
    hide Sent, SendBudget, MaybeSendAppend;
    SendShrinksBudget(e.cfg, s, v);
    MaybeSendSent(e, s, v, false);
    var (s1, sent) := MaybeSendAppend(e.cfg, s, v, false);
    if sent {
      SentPeers(s, s1, e);
      SendAllSent(e, s1, v);
      SentTrans(s, s1, SendAll(e.cfg, s1, v), e);
    }
  }

  lemma SentPeers(s: Node, s': Node, e: Setting)
    requires Sent(s, s', e)
    ensures s'.prs.Keys == s.prs.Keys && s'.log == s.log && s.msgs <= s'.msgs
  {
  }

  /** A leader's commit attempt always completes, within its log. */
  lemma AdvanceCompletes(s: Node)
    requires CursorsOk(s.log) && s.term >= 1
    ensures AdvanceCommit(s).Ok?
    ensures var s1 := AdvanceCommit(s).value.0;
            && s1 == s.(log := AtCommit(s.log, s1.log.committed))
            && s.log.committed <= s1.log.committed <= s.log.Last()
  {
    assert s.id in Matches(s.prs);
  }

  /** Once a quorum is at the last index, of the current term, everything is committed; before, not the
      last entry. */
  lemma AdvanceByQuorum(s: Node, reached: set<nat>)
    requires CursorsOk(s.log) && s.term >= 1 && s.log.TermAt(s.log.Last()) == s.term
    requires reached <= s.prs.Keys && forall v :: v in s.prs ==> s.prs[v].matched <= s.log.Last()
    requires forall v :: v in s.prs ==> (v in reached <==> s.prs[v].matched == s.log.Last())
    requires s.log.committed < s.log.Last()
    ensures AdvanceCommit(s).Ok?
    ensures var c := AdvanceCommit(s).value.0.log.committed;
            if |reached| >= NodeQuorum(s) then c == s.log.Last() else c < s.log.Last()
  {
    var m := Matches(s.prs);
    assert s.id in m && |m.Keys| == |m| && m.Keys == s.prs.Keys && |s.prs| == |s.prs.Keys|;
    var x := QuorumIndex(m);
    assert AtLeast(m, s.log.Last()) == reached;
    assert AtLeast(m, s.log.Last() + 1) == {};
    LastReached(m, x, s.log.Last());
  }

  /** The quorum's index against an index nobody has passed. */
  lemma LastReached(m: map<nat, nat>, x: nat, last: nat)
    requires IsQuorumIndex(m, x) && forall v :: v in m ==> m[v] <= last
    ensures x <= last && (|AtLeast(m, last)| >= QuorumSize(|m|) <==> x == last)
  {
    var v :| v in AtLeast(m, x);
    assert x <= m[v] <= last;
  }

  /** The state of the leader between an acknowledgement and the sending it causes. */
  lemma CommitAndSendSent(e: Setting, s: Node, v: nat, wasPaused: bool) returns (s1: Node)
    requires CursorsOk(s.log) && s.term >= 1 && v in s.prs
    ensures CommitAndSend(e.cfg, s, v, wasPaused).Ok?
    ensures s1 == AdvanceCommit(s).value.0 && AdvanceCommit(s).Ok?
    ensures s1 == s.(log := AtCommit(s.log, s1.log.committed)) && s.log.committed <= s1.log.committed <= s.log.Last()
    ensures Sent(s1, CommitAndSend(e.cfg, s, v, wasPaused).value, e)
    ensures wasPaused ==>
              var m := AppendTo(e.cfg, s1, v, s1.prs[v], true).1;
              m.Some? && v != s.id ==> m.value in CommitAndSend(e.cfg, s, v, wasPaused).value.msgs
  {
    hide AdvanceCommit, BcastAppend, SendAll, Sent, AppendTo, CommitAndSend;
    AdvanceCompletes(s);
    s1 := AdvanceCommit(s).value.0;
    var changed := AdvanceCommit(s).value.1;
    BcastSent(e, s1);
    MaybeSendSent(e, s1, v, true);
    SentRefl(s1, e);
    var s2 := if changed then BcastAppend(e.cfg, s1) else if wasPaused then SendAppend(e.cfg, s1, v) else s1;
    SentPeers(s1, s2, e);
    SendAllSent(e, s2, v);
    SentPeers(s2, SendAll(e.cfg, s2, v), e);
    SentTrans(s1, s2, SendAll(e.cfg, s2, v), e);
    CommitAndSendIs(e, s, v, wasPaused);
    ToldSomehow(e, s1, v);
  }

  lemma SentRefl(s: Node, e: Setting)
    ensures Sent(s, s, e)
  {
  }

  lemma CommitAndSendIs(e: Setting, s: Node, v: nat, wasPaused: bool)
    requires v in s.prs && AdvanceCommit(s).Ok?
    ensures var (s1, changed) := AdvanceCommit(s).value;
            var s2 := if changed then BcastAppend(e.cfg, s1) else if wasPaused then SendAppend(e.cfg, s1, v) else s1;
            CommitAndSend(e.cfg, s, v, wasPaused) == Ok(SendAll(e.cfg, s2, v))
  {
    hide AdvanceCommit, BcastAppend, SendAll, SendAppend;
  }

  lemma ToldSomehow(e: Setting, s: Node, v: nat)
    requires v in s.prs
    ensures var m := AppendTo(e.cfg, s, v, s.prs[v], true).1;
            m.Some? ==> m.value in SendAppend(e.cfg, s, v).msgs && (v != s.id ==> m.value in BcastAppend(e.cfg, s).msgs)
  {
    hide AppendTo;
  }

  /** An acknowledgement reaches the handler. */
  lemma AckReacts(e: Setting, s: Node, a: nat, v: nat, index: nat)
    requires s.id == a && s.role == Leader && s.term == e.Shared() && v in s.prs
    ensures Deliverable(s, Acked(v, a, e, index)) && Acked(v, a, e, index).to == a
    ensures React(e.cfg, s, Deliver(Acked(v, a, e, index), false)) == HandleAppResp(e.cfg, s, Acked(v, a, e, index))
  {
    hide HandleAppResp;
  }

  /** The leader with a peer's progress raised to `index`. */
  function Raise(s: Node, v: nat, index: nat): Node
    requires v in s.prs
  {
    s.(prs := s.prs[v := RaisedProgress(MaybeUpdate(s.prs[v].(recentActive := true), index).0, index)])
  }

  lemma RaisedMatch(p: Progress, index: nat)
    requires p.matched < index
    ensures RaisedProgress(MaybeUpdate(p, index).0, index).matched == index
  {
    hide FreeTo;
  }

  lemma RaisedProbe(e: Setting)
    ensures RaisedProgress(MaybeUpdate(Probing(e).(recentActive := true), |e.boot| + 1).0, |e.boot| + 1)
         == Progress(|e.boot| + 1, |e.boot| + 2, Replicate, false, 0, true, [], e.cfg.maxInflight)
  {
  }

  lemma RaiseLeading(s: Node, a: nat, e: Setting, data: seq<byte>, done: set<nat>, half: set<nat>, v: nat)
    requires Leading(s, a, e, data, done, half) && v in e.voters && v != a
    ensures v !in done && v !in half ==> Leading(Raise(s, v, |e.boot| + 1), a, e, data, done, half + {v})
    ensures v in half && v !in done ==> Leading(Raise(s, v, |e.boot| + 2), a, e, data, done + {v}, half - {v})
  {
    hide LeadLog, RaisedProgress, MaybeUpdate;
    if v !in done && v !in half {
      RaisedMatch(s.prs[v].(recentActive := true), |e.boot| + 1);
    } else if v in half && v !in done {
      RaisedMatch(s.prs[v].(recentActive := true), |e.boot| + 2);
    }
  }

  lemma SentLeading(s: Node, s1: Node, r: Node, a: nat, e: Setting, data: seq<byte>, done: set<nat>, half: set<nat>)
    requires Leading(s, a, e, data, done, half) && Sent(s1, r, e)
    requires s1 == s.(log := AtCommit(s.log, s1.log.committed)) && s.log.committed <= s1.log.committed <= s.log.Last()
    ensures Leading(r.(msgs := {}), a, e, data, done, half)
  {
    hide Probing;
    forall v | v in e.voters ensures r.prs[v].matched == s.prs[v].matched && (s.prs[v] == Probing(e) ==> r.prs[v] == s.prs[v]) {
    }
  }

  /** The append of the leader's own entry to a peer that has just acknowledged the first one. */
  lemma SecondSent(e: Setting, s: Node, a: nat, v: nat, data: seq<byte>)
    requires s.id == a && s.term == e.Shared() && LeadLog(s.log, e, [Own(e, data)]) && e.cfg.maxInflight > 0
    ensures AppendTo(e.cfg, s, v, Progress(|e.boot| + 1, |e.boot| + 2, Replicate, false, 0, true, [], e.cfg.maxInflight), true).1
         == Some(SecondAppend(a, v, e, data, s.log.committed))
  {
    var n := |e.boot|;
    OwnLog(s.log, e, data);
    assert s.log.ents[n + 1..n + 2] == [Own(e, data)];
    assert EntriesFrom(s.log, n + 2, e.cfg.maxMsgSize) == [Own(e, data)] by {
      assert LimitSize([Own(e, data)], e.cfg.maxMsgSize) == [Own(e, data)] by {
        assert [Own(e, data)][1..] == [];
      }
    }
  }

  /** The leader has committed its own entry once it and the peers in `done` are a quorum, and not before. */
  ghost predicate Due(s: Node, a: nat, e: Setting, done: set<nat>) {
    if |done + {a}| >= QuorumSize(|e.voters|) then s.log.committed == |e.boot| + 2 else s.log.committed <= |e.boot| + 1
  }

  /** What a commit attempt makes of a leader whose last entry is not yet committed. */
  lemma AdvanceDue(e: Setting, s: Node, a: nat, data: seq<byte>, done: set<nat>, half: set<nat>)
    requires Leading(s, a, e, data, done, half) && done <= e.voters && done !! half && a !in half
    requires s.log.committed <= |e.boot| + 1
    ensures AdvanceCommit(s).Ok? && Due(AdvanceCommit(s).value.0, a, e, done)
  {
    hide AdvanceCommit, LeadLog;
    OwnLog(s.log, e, data);
    assert |s.prs| == |s.prs.Keys|;
    forall v | v in s.prs
      ensures s.prs[v].matched <= s.log.Last() && (v in done + {a} <==> s.prs[v].matched == s.log.Last())
    {
    }
    AdvanceByQuorum(s, done + {a});
  }

  /** A peer acknowledges the first entry and is sent the second. */
  lemma FirstAck(e: Setting, s: Node, a: nat, v: nat, data: seq<byte>, done: set<nat>) returns (s': Node, commit: nat)
    requires Exposed(e) && e.cfg.maxInflight > 0 && Leading(s, a, e, data, done, {}) && done <= e.voters - {a}
    requires v in e.voters && v != a && v !in done && |done + {a}| < QuorumSize(|e.voters|) && Due(s, a, e, done)
    ensures HandleAppResp(e.cfg, s, Acked(v, a, e, |e.boot| + 1)) == Ok(s')
    ensures Leading(s'.(msgs := {}), a, e, data, done, {v}) && Due(s'.(msgs := {}), a, e, done)
    ensures SecondAppend(a, v, e, data, commit) in s'.msgs && commit <= |e.boot| + 1
  {
    hide HandleAppResp, CommitAndSend, LeadLog, AppendTo, RaisedProgress, MaybeUpdate, AdvanceCommit, SecondAppend, Sent;
    var m := Acked(v, a, e, |e.boot| + 1);
    var s0 := Raise(s, v, |e.boot| + 1);
    AcceptedSteps(e.cfg, s, m);
    OwnLog(s.log, e, data);
    RaiseLeading(s, a, e, data, done, {}, v);
    assert {} + {v} == {v};
    AdvanceDue(e, s0, a, data, done, {v});
    var s1 := CommitAndSendSent(e, s0, v, true);
    s' := CommitAndSend(e.cfg, s0, v, true).value;
    SentLeading(s0, s1, s', a, e, data, done, {v});
    SentPeers(s1, s', e);
    RaisedProbe(e);
    CommittedLog(s0.log, s1.log, e, [Own(e, data)]);
    SecondSent(e, s1, a, v, data);
    commit := s1.log.committed;
  }

  lemma CommittedLog(l: Log, l': Log, e: Setting, more: seq<Entry>)
    requires LeadLog(l, e, more) && l' == AtCommit(l, l'.committed) && l.committed <= l'.committed <= l.Last()
    ensures LeadLog(l', e, more)
  {
  }

  /** A peer acknowledges the leader's own entry; with a quorum it is committed. */
  lemma SecondAck(e: Setting, s: Node, a: nat, v: nat, data: seq<byte>, done: set<nat>) returns (s': Node)
    requires Exposed(e) && Leading(s, a, e, data, done, {v}) && done <= e.voters - {a}
    requires v in e.voters && v != a && v !in done && s.log.committed <= |e.boot| + 1
    ensures HandleAppResp(e.cfg, s, Acked(v, a, e, |e.boot| + 2)) == Ok(s')
    ensures Leading(s'.(msgs := {}), a, e, data, done + {v}, {}) && Due(s'.(msgs := {}), a, e, done + {v})
  {
    hide HandleAppResp, CommitAndSend, LeadLog, AppendTo, RaisedProgress, MaybeUpdate, AdvanceCommit, Sent;
    var m := Acked(v, a, e, |e.boot| + 2);
    var s0 := Raise(s, v, |e.boot| + 2);
    AcceptedSteps(e.cfg, s, m);
    OwnLog(s.log, e, data);
    RaiseLeading(s, a, e, data, done, {v}, v);
    assert {v} - {v} == {};
    AdvanceDue(e, s0, a, data, done + {v}, {});
    var s1 := CommitAndSendSent(e, s0, v, IsPaused(s.prs[v].(recentActive := true)));
    s' := CommitAndSend(e.cfg, s0, v, IsPaused(s.prs[v].(recentActive := true))).value;
    SentLeading(s0, s1, s', a, e, data, done + {v}, {});
    SentPeers(s1, s', e);
  }

  // ---------------------------------------------------------------- one leader and a quorum of peers

  /** The leader `a` with the peers in `done` caught up; the rest of `peers`, with the leader a bare quorum,
      still wait for the first entry. */
  ghost predicate Midway(c: Cluster, a: nat, e: Setting, data: seq<byte>, had: Option<seq<byte>>, peers: set<nat>, done: set<nat>) {
    && c.nodes.Keys == e.voters && a in e.voters && peers <= e.voters - {a} && done <= peers
    && |peers| + 1 == QuorumSize(|e.voters|)
    && Leading(c.nodes[a], a, e, data, done, {}) && Due(c.nodes[a], a, e, done) && AllSent(c, a, e)
    && (forall v {:trigger c.nodes[v]} :: v in peers && v !in done ==> Waiting(c.nodes[v], v, e, had))
    && (forall v {:trigger c.nodes[v]} :: v in done ==> Follows(c.nodes[v], v, e, After(e, had, data)))
  }

  lemma DeliverFirst(e: Setting, c: Cluster, a: nat, v: nat, had: Option<seq<byte>>) returns (c': Cluster)
    requires Exposed(e) && Reached(e, c) && v in c.nodes && a in e.voters && v in e.voters && v != a
    requires Waiting(c.nodes[v], v, e, had) && AllSent(c, a, e)
    ensures Reached(e, c') && OnlyMoved(c, c', v) && v in c'.nodes && Follows(c'.nodes[v], v, e, Before(e, had))
    ensures Acked(v, a, e, |e.boot| + 1) in c'.net
  {
    hide Reached, Exposed, React, Waiting, Follows, OnlyMoved, FirstAppend, Acked, Deliverable;
    var s' := FirstReacts(e, c.nodes[v], a, v, had);
    c' := OneMoves(e, c, v, Deliver(FirstAppend(a, v, e), false), s');
  }

  lemma LeadingBasics(s: Node, a: nat, e: Setting, data: seq<byte>, done: set<nat>, half: set<nat>)
    requires Leading(s, a, e, data, done, half)
    ensures s.id == a && s.role == Leader && s.term == e.Shared() && s.prs.Keys == e.voters
  {
  }

  lemma DeliverFirstAck(e: Setting, c: Cluster, a: nat, v: nat, data: seq<byte>, done: set<nat>) returns (c': Cluster, commit: nat)
    requires Exposed(e) && e.cfg.maxInflight > 0 && Reached(e, c) && a in c.nodes && Leading(c.nodes[a], a, e, data, done, {})
    requires done <= e.voters - {a} && |done + {a}| < QuorumSize(|e.voters|) && Due(c.nodes[a], a, e, done)
    requires v in e.voters && v != a && v !in done && Acked(v, a, e, |e.boot| + 1) in c.net
    ensures Reached(e, c') && OnlyMoved(c, c', a) && a in c'.nodes && Leading(c'.nodes[a], a, e, data, done, {v})
    ensures Due(c'.nodes[a], a, e, done) && SecondAppend(a, v, e, data, commit) in c'.net && commit <= |e.boot| + 1
  {
    hide Reached, Exposed, React, OnlyMoved, Acked, SecondAppend, Deliverable, HandleAppResp, Leading, Due;
    var s := c.nodes[a];
    var s';
    s', commit := FirstAck(e, s, a, v, data, done);
    LeadingBasics(s, a, e, data, done, {});
    AckReacts(e, s, a, v, |e.boot| + 1);
    c' := OneMoves(e, c, a, Deliver(Acked(v, a, e, |e.boot| + 1), false), s');
  }

  lemma DeliverSecond(e: Setting, c: Cluster, a: nat, v: nat, had: Option<seq<byte>>, data: seq<byte>, commit: nat) returns (c': Cluster)
    requires Exposed(e) && Reached(e, c) && v in c.nodes && a in e.voters && SecondAppend(a, v, e, data, commit) in c.net
    requires Follows(c.nodes[v], v, e, Before(e, had)) && commit <= |e.boot| + 1
    ensures Reached(e, c') && OnlyMoved(c, c', v) && v in c'.nodes && Follows(c'.nodes[v], v, e, After(e, had, data))
    ensures Acked(v, a, e, |e.boot| + 2) in c'.net
  {
    hide Reached, Exposed, React, Follows, OnlyMoved, SecondAppend, Acked, Deliverable;
    var s' := SecondReacts(e, c.nodes[v], a, v, had, data, commit);
    c' := OneMoves(e, c, v, Deliver(SecondAppend(a, v, e, data, commit), false), s');
  }

  lemma DeliverSecondAck(e: Setting, c: Cluster, a: nat, v: nat, data: seq<byte>, done: set<nat>) returns (c': Cluster)
    requires Exposed(e) && Reached(e, c) && a in c.nodes && Leading(c.nodes[a], a, e, data, done, {v})
    requires done <= e.voters - {a} && c.nodes[a].log.committed <= |e.boot| + 1
    requires v in e.voters && v != a && v !in done && Acked(v, a, e, |e.boot| + 2) in c.net
    ensures Reached(e, c') && OnlyMoved(c, c', a) && a in c'.nodes && Leading(c'.nodes[a], a, e, data, done + {v}, {})
    ensures Due(c'.nodes[a], a, e, done + {v})
  {
    hide Reached, Exposed, React, OnlyMoved, Acked, Deliverable, HandleAppResp, Leading, Due;
    var s := c.nodes[a];
    var s' := SecondAck(e, s, a, v, data, done);
    LeadingBasics(s, a, e, data, done, {v});
    AckReacts(e, s, a, v, |e.boot| + 2);
    c' := OneMoves(e, c, a, Deliver(Acked(v, a, e, |e.boot| + 2), false), s');
  }

  lemma NotDueYet(s: Node, a: nat, e: Setting, done: set<nat>)
    requires Due(s, a, e, done) && |done + {a}| < QuorumSize(|e.voters|)
    ensures s.log.committed <= |e.boot| + 1
  {
  }

  /** The two appends and their answers. */
  lemma Exchange(e: Setting, c: Cluster, a: nat, v: nat, data: seq<byte>, had: Option<seq<byte>>, done: set<nat>) returns (c': Cluster)
    requires Exposed(e) && e.cfg.maxInflight > 0 && Reached(e, c) && a in e.voters && v in e.voters && v != a && v !in done
    requires a in c.nodes && v in c.nodes && Leading(c.nodes[a], a, e, data, done, {}) && AllSent(c, a, e)
    requires done <= e.voters - {a} && |done + {a}| < QuorumSize(|e.voters|) && Due(c.nodes[a], a, e, done)
    requires Waiting(c.nodes[v], v, e, had)
    ensures Reached(e, c') && MovedWithin(c, c', {a, v}) && a in c'.nodes && v in c'.nodes
    ensures Leading(c'.nodes[a], a, e, data, done + {v}, {}) && Due(c'.nodes[a], a, e, done + {v})
    ensures Follows(c'.nodes[v], v, e, After(e, had, data))
  {
    hide *;
    WithinRefl(c, {a, v});
    var c1 := DeliverFirst(e, c, a, v, had);
    Unmoved(c, c1, v, a, e);
    WithinStep(c, c, c1, {a, v}, v);
    var c2, commit := DeliverFirstAck(e, c1, a, v, data, done);
    Unmoved(c1, c2, a, v, e);
    WithinStep(c, c1, c2, {a, v}, a);
    var c3 := DeliverSecond(e, c2, a, v, had, data, commit);
    Unmoved(c2, c3, v, a, e);
    WithinStep(c, c2, c3, {a, v}, v);
    NotDueYet(c3.nodes[a], a, e, done);
    c' := DeliverSecondAck(e, c3, a, v, data, done);
    Unmoved(c3, c', a, v, e);
    WithinStep(c, c3, c', {a, v}, a);
  }

  lemma DoneBelowQuorum(e: Setting, a: nat, peers: set<nat>, done: set<nat>, v: nat)
    requires |peers| + 1 == QuorumSize(|e.voters|) && done <= peers && v in peers && v !in done
    ensures |done + {a}| < QuorumSize(|e.voters|)
  {
    SubsetCardinality(done + {v}, peers);
    assert |done + {v}| == |done| + 1;
  }

  /** One peer catches up with the leader. */
  lemma CatchUp(e: Setting, c: Cluster, a: nat, data: seq<byte>, had: Option<seq<byte>>, peers: set<nat>, done: set<nat>, v: nat) returns (c': Cluster)
    requires Exposed(e) && e.cfg.maxInflight > 0 && Reached(e, c) && Midway(c, a, e, data, had, peers, done)
    requires v in peers && v !in done
    ensures Reached(e, c') && Midway(c', a, e, data, had, peers, done + {v}) && MovedWithin(c, c', {a, v})
  {
    hide *;
    NextPeer(c, a, e, data, had, peers, done, v);
    DoneBelowQuorum(e, a, peers, done, v);
    c' := Exchange(e, c, a, v, data, had, done);
    PeerCaughtUp(c, c', a, e, data, had, peers, done, v);
  }

  lemma NextPeer(c: Cluster, a: nat, e: Setting, data: seq<byte>, had: Option<seq<byte>>, peers: set<nat>, done: set<nat>, v: nat)
    requires Midway(c, a, e, data, had, peers, done) && v in peers && v !in done
    ensures a in e.voters && v in e.voters && v != a && a in c.nodes && v in c.nodes && AllSent(c, a, e)
    ensures Leading(c.nodes[a], a, e, data, done, {}) && Due(c.nodes[a], a, e, done) && Waiting(c.nodes[v], v, e, had)
    ensures done <= e.voters - {a} && done <= peers && |peers| + 1 == QuorumSize(|e.voters|)
  {
    hide Leading, Follows, Waiting, Due, AllSent;
  }

  lemma PeerCaughtUp(c: Cluster, c': Cluster, a: nat, e: Setting, data: seq<byte>, had: Option<seq<byte>>, peers: set<nat>, done: set<nat>, v: nat)
    requires Midway(c, a, e, data, had, peers, done) && v in peers && v !in done && MovedWithin(c, c', {a, v})
    requires a in c'.nodes && Leading(c'.nodes[a], a, e, data, done + {v}, {}) && Due(c'.nodes[a], a, e, done + {v})
    requires v in c'.nodes && Follows(c'.nodes[v], v, e, After(e, had, data))
    ensures Midway(c', a, e, data, had, peers, done + {v})
  {
    hide Leading, Follows, Waiting, Due, AllSent, After;
    SentStaysWithin(c, c', a, {a, v}, e);
  }

  /** Every peer asked catches up, and the leader has committed its own entry. */
  lemma {:induction false} CatchAllUp(e: Setting, c: Cluster, a: nat, data: seq<byte>, had: Option<seq<byte>>, peers: set<nat>, done: set<nat>) returns (c': Cluster)
    requires Exposed(e) && e.cfg.maxInflight > 0 && Reached(e, c) && Midway(c, a, e, data, had, peers, done)
    ensures Reached(e, c') && Midway(c', a, e, data, had, peers, peers) && MovedWithin(c, c', peers + {a})
    decreases |peers - done|
  {
    hide Reached, Exposed, Midway, MovedWithin;
    DonePeers(c, a, e, data, had, peers, done);
    WithinRefl(c, peers + {a});
    if peers <= done {
      assert done == peers;
      c' := c;
    } else {
      var v :| v in peers && v !in done;
      var c1 := CatchUp(e, c, a, data, had, peers, done, v);
      assert peers - (done + {v}) == peers - done - {v};
      c' := CatchAllUp(e, c1, a, data, had, peers, done + {v});
      WithinTrans(c, c1, c', {a, v}, peers + {a});
    }
  }

  lemma DonePeers(c: Cluster, a: nat, e: Setting, data: seq<byte>, had: Option<seq<byte>>, peers: set<nat>, done: set<nat>)
    requires Midway(c, a, e, data, had, peers, done)
    ensures done <= peers
  {
  }

  /** A leader that has caught its quorum up. */
  lemma CaughtUp(c: Cluster, a: nat, e: Setting, data: seq<byte>, had: Option<seq<byte>>, peers: set<nat>)
    requires Midway(c, a, e, data, had, peers, peers)
    ensures a in c.nodes && c.nodes[a].log.committed == |e.boot| + 2
    ensures c.nodes[a].log.ents == e.boot + [FirstEntry(e)] + [Own(e, data)]
    ensures forall v :: v in peers ==> v in c.nodes && Follows(c.nodes[v], v, e, After(e, had, data))
  {
    hide Follows;
    assert |peers + {a}| == |peers| + 1;
  }

  // ---------------------------------------------------------------- both leaders propose

  lemma LeadingCleared(s: Node, a: nat, e: Setting, data: seq<byte>, done: set<nat>, half: set<nat>)
    requires Leading(s, a, e, data, done, half)
    ensures Leading(s.(msgs := {}), a, e, data, done, half) && s.(msgs := {}).log == s.log
  {
    hide LeadLog;
  }

  lemma ProposeIsStep(e: Setting, s: Node, a: nat, data: seq<byte>)
    requires NewLeader(s, a, e)
    ensures React(e.cfg, s, Local(Proposal(data))) == Propose(e.cfg, s, Proposal(data))
  {
    hide Propose, LeadLog;
  }

  /** A new leader's own entry is written, and nobody has been told yet. */
  ghost predicate Proposed(s: Node, a: nat, e: Setting, data: seq<byte>) {
    Leading(s, a, e, data, {}, {}) && s.msgs == {} && s.log.committed == |e.boot|
  }

  /** A new leader proposes. */
  lemma ProposeAt(e: Setting, c: Cluster, a: nat, data: seq<byte>) returns (c': Cluster)
    requires Exposed(e) && Reached(e, c) && a in c.nodes && NewLeader(c.nodes[a], a, e)
    ensures Reached(e, c') && OnlyMoved(c, c', a) && a in c'.nodes && Proposed(c'.nodes[a], a, e, data)
  {
    hide Reached, Exposed, NewLeader, Leading, React, Appended, Propose, OnlyMoved, PayloadSize, Wrap32, MessageWellFormed;
    var s := c.nodes[a];
    var ents := [Own(e, data)];
    ProposeReacts(e, s, a, data);
    ProposeIsStep(e, s, a, data);
    OwnWritten(e, s, a, data, Wrap32(PayloadSize(ents)));
    LeadingCleared(Appended(s, ents, Wrap32(PayloadSize(ents))), a, e, data, {}, {});
    c' := OneMoves(e, c, a, Local(Proposal(data)), Appended(s, ents, Wrap32(PayloadSize(ents))));
  }

  /** Both leaders have written an entry of their own; the others have not moved. */
  ghost predicate Diverged(c: Cluster, a: nat, b: nat, e: Setting) {
    && c.nodes.Keys == e.voters && a in e.voters && b in e.voters && a != b
    && Proposed(c.nodes[a], a, e, MINE) && Proposed(c.nodes[b], b, e, THEIRS) && AllSent(c, a, e) && AllSent(c, b, e)
    && forall v :: v in e.voters && v != a && v != b ==> Untouched(c.nodes[v], v, e)
  }

  lemma Diverge(e: Setting, c: Cluster, a: nat, b: nat) returns (c': Cluster)
    requires Exposed(e) && Reached(e, c) && Split(c, a, b, e)
    ensures Reached(e, c') && Diverged(c', a, b, e)
  {
    hide Reached, Exposed, NewLeader, Proposed, Untouched, OnlyMoved, AllSent;
    var c1 := ProposeAt(e, c, a, MINE);
    Unmoved(c, c1, a, b, e);
    SentStays(c, c1, a, a, e);
    c' := ProposeAt(e, c1, b, THEIRS);
    Unmoved(c1, c', b, a, e);
    SentStays(c1, c', b, b, e);
    forall v | v in e.voters && v != a && v != b ensures v in c'.nodes && Untouched(c'.nodes[v], v, e) {
      Unmoved(c, c1, a, v, e);
      Unmoved(c1, c', b, v, e);
    }
  }

  lemma SentStays(c: Cluster, c': Cluster, a: nat, mover: nat, e: Setting)
    requires AllSent(c, a, e) && OnlyMoved(c, c', mover)
    ensures AllSent(c', a, e) && c'.nodes.Keys == c.nodes.Keys
  {
    hide FirstAppend;
  }

  lemma SentStaysWithin(c: Cluster, c': Cluster, a: nat, who: set<nat>, e: Setting)
    requires AllSent(c, a, e) && MovedWithin(c, c', who)
    ensures AllSent(c', a, e) && c'.nodes.Keys == c.nodes.Keys
  {
    hide FirstAppend;
  }

  lemma NothingDue(s: Node, a: nat, e: Setting, data: seq<byte>)
    requires Proposed(s, a, e, data) && |e.voters| >= 2
    ensures Leading(s, a, e, data, {}, {}) && Due(s, a, e, {})
  {
    hide LeadLog;
    assert {} + {a} == {a};
  }

  /** Both nodes have committed past the bootstrap entries, with different entries there. */
  ghost predicate Conflicting(c: Cluster, a: nat, b: nat, e: Setting) {
    && a in c.nodes && b in c.nodes
    && c.nodes[a].log.committed == |e.boot| + 2 && c.nodes[b].log.committed == |e.boot| + 2
    && c.nodes[a].log.ents == e.boot + [FirstEntry(e)] + [Own(e, MINE)]
    && c.nodes[b].log.ents == e.boot + [FirstEntry(e)] + [Own(e, THEIRS)]
  }

  // ---------------------------------------------------------------- three voters or more

  /** Peers that make a quorum with either leader. */
  lemma {:induction false} SomeOf(from: set<nat>, n: nat) returns (some: set<nat>)
    requires n <= |from|
    ensures some <= from && |some| == n
    decreases n
  {
    if n == 0 {
      some := {};
    } else {
      var x :| x in from;
      var rest := SomeOf(from - {x}, n - 1);
      some := rest + {x};
    }
  }

  lemma SharedPeers(voters: set<nat>, a: nat, b: nat) returns (peers: set<nat>)
    requires |voters| >= 3 && a in voters && b in voters && a != b
    ensures peers <= voters - {a, b} && |peers| + 1 == QuorumSize(|voters|)
  {
    SubsetCardinality({a, b}, voters);
    assert |voters - {a, b}| == |voters| - 2;
    peers := SomeOf(voters - {a, b}, QuorumSize(|voters|) - 1);
  }

  lemma FirstRound(e: Setting, c: Cluster, a: nat, b: nat, peers: set<nat>)
    requires Diverged(c, a, b, e) && peers <= e.voters - {a, b} && |peers| + 1 == QuorumSize(|e.voters|) && |e.voters| >= 2
    ensures Midway(c, a, e, MINE, None, peers, {})
  {
    hide Untouched, AllSent, Leading, Due, Proposed;
    NothingDue(c.nodes[a], a, e, MINE);
  }

  lemma SecondRound(e: Setting, c: Cluster, c': Cluster, a: nat, b: nat, peers: set<nat>)
    requires Diverged(c, a, b, e) && peers <= e.voters - {a, b} && |e.voters| >= 2
    requires Midway(c', a, e, MINE, None, peers, peers) && MovedWithin(c, c', peers + {a})
    ensures Midway(c', b, e, THEIRS, Some(MINE), peers, {})
  {
    hide Untouched, AllSent, Leading, Due, Follows, Proposed;
    NothingDue(c.nodes[b], b, e, THEIRS);
    SentStaysWithin(c, c', b, peers + {a}, e);
  }

  /** A voter that has taken the first leader's entry acknowledges the second's while keeping the first's. */
  lemma ThirdVoterCommits(e: Setting, c: Cluster, a: nat, b: nat) returns (c': Cluster)
    requires Exposed(e) && e.cfg.maxInflight > 0 && Reached(e, c) && Diverged(c, a, b, e) && |e.voters| >= 3
    ensures Reached(e, c') && Conflicting(c', a, b, e)
  {
    hide Reached, Exposed, Midway, Proposed, Untouched, AllSent, Follows;
    var peers := SharedPeers(e.voters, a, b);
    FirstRound(e, c, a, b, peers);
    var c1 := CatchAllUp(e, c, a, MINE, None, peers, {});
    CaughtUp(c1, a, e, MINE, None, peers);
    SecondRound(e, c, c1, a, b, peers);
    c' := CatchAllUp(e, c1, b, THEIRS, Some(MINE), peers, {});
    CaughtUp(c', b, e, THEIRS, Some(MINE), peers);
  }

  // ---------------------------------------------------------------- two voters and a quorum check

  lemma StepDownAt(e: Setting, c: Cluster, b: nat) returns (c': Cluster)
    requires Exposed(e) && e.cfg.checkQuorum && Reached(e, c) && b in c.nodes && Proposed(c.nodes[b], b, e, THEIRS)
    ensures Reached(e, c') && OnlyMoved(c, c', b) && b in c'.nodes && Waiting(c'.nodes[b], b, e, Some(THEIRS))
  {
    hide Reached, Exposed, Leading, React, OnlyMoved, BecomeFollower, Waiting;
    var s := c.nodes[b];
    CheckReacts(e, s, b, THEIRS);
    SteppedDown(e, s, b);
    WaitingCleared(BecomeFollower(e.cfg, s, s.term, 0), b, e);
    c' := OneMoves(e, c, b, Local(EMPTY_MESSAGE.(kind := MsgCheckQuorum)), BecomeFollower(e.cfg, s, s.term, 0));
  }

  lemma WaitingCleared(s: Node, b: nat, e: Setting)
    requires Waiting(s, b, e, Some(THEIRS))
    ensures s.(msgs := {}) == s
  {
  }

  function Beat(a: nat, b: nat, e: Setting): Message {
    EMPTY_MESSAGE.(kind := MsgHeartbeat, to := b, from := a, term := e.Shared(), commit := |e.boot| + 2)
  }

  /** The leader tells `b` what is committed. */
  lemma BeatReacts(e: Setting, s: Node, a: nat, b: nat, done: set<nat>)
    requires Leading(s, a, e, MINE, done, {}) && b in done && b in e.voters && b != a && s.log.committed == |e.boot| + 2
    ensures var beat := EMPTY_MESSAGE.(kind := MsgBeat);
            LocalInput(e.cfg, beat) && React(e.cfg, s, Local(beat)) == Ok(BcastHeartbeat(s)) && Beat(a, b, e) in BcastHeartbeat(s).msgs
  {
    hide LeadLog;
    assert Heartbeat(s, b) == Beat(a, b, e);
  }

  lemma BeatCommits(e: Setting, s: Node, a: nat, b: nat) returns (s': Node)
    requires Follows(s, b, e, [Own(e, THEIRS)]) && a in e.voters
    ensures Deliverable(s, Beat(a, b, e)) && Beat(a, b, e).to == b
    ensures React(e.cfg, s, Deliver(Beat(a, b, e), false)) == Ok(s')
    ensures s'.log.ents == e.boot + [FirstEntry(e)] + [Own(e, THEIRS)] && s'.log.committed == |e.boot| + 2
  {
    s' := HandleHeartbeat(s.(lead := a), Beat(a, b, e)).value;
  }

  lemma TellOther(e: Setting, c: Cluster, a: nat, b: nat) returns (c': Cluster)
    requires Reached(e, c) && Midway(c, a, e, MINE, Some(THEIRS), {b}, {b})
    ensures Reached(e, c') && Conflicting(c', a, b, e)
  {
    hide Reached, Leading, AllSent, Follows, React, OnlyMoved, Beat, BcastHeartbeat, Deliverable;
    CaughtUp(c, a, e, MINE, Some(THEIRS), {b});
    var s := c.nodes[a];
    BeatReacts(e, s, a, b, {b});
    var c1 := OneMoves(e, c, a, Local(EMPTY_MESSAGE.(kind := MsgBeat)), BcastHeartbeat(s));
    Unmoved(c, c1, a, b, e);
    var s' := BeatCommits(e, c1.nodes[b], a, b);
    c' := OneMoves(e, c1, b, Deliver(Beat(a, b, e), false), s');
    Unmoved(c1, c', b, a, e);
    BeatKeepsLog(s);
  }

  lemma BeatKeepsLog(s: Node)
    ensures BcastHeartbeat(s).(msgs := {}).log == s.log
  {
  }

  lemma OnlyRound(e: Setting, c: Cluster, c': Cluster, a: nat, b: nat)
    requires Diverged(c, a, b, e) && OnlyMoved(c, c', b) && |e.voters| == 2
    requires b in c'.nodes && Waiting(c'.nodes[b], b, e, Some(THEIRS))
    ensures Midway(c', a, e, MINE, Some(THEIRS), {b}, {})
  {
    hide Untouched, AllSent, Leading, Due, Follows, Waiting, Proposed;
    Unmoved(c, c', b, a, e);
    NothingDue(c.nodes[a], a, e, MINE);
  }

  /** A leader that has stepped down acknowledges the other's entry while keeping its own. */
  lemma SteppedDownCommits(e: Setting, c: Cluster, a: nat, b: nat) returns (c': Cluster)
    requires Exposed(e) && e.cfg.maxInflight > 0 && Reached(e, c) && Diverged(c, a, b, e)
    requires |e.voters| == 2 && e.cfg.checkQuorum
    ensures Reached(e, c') && Conflicting(c', a, b, e)
  {
    hide Reached, Exposed, Midway, Proposed, Untouched, AllSent, Waiting;
    var c1 := StepDownAt(e, c, b);
    OnlyRound(e, c, c1, a, b);
    var c2 := CatchAllUp(e, c1, a, MINE, Some(THEIRS), {b}, {});
    c' := TellOther(e, c2, a, b);
  }

  // ---------------------------------------------------------------- exactly when

  /** With pre-vote on, any two of three or more voters, or with quorum checks of two, can commit different
      entries at one index. */
  lemma TwoCommits(e: Setting, a: nat, b: nat) returns (c: Cluster)
    requires Exposed(e) && e.cfg.maxInflight > 0 && a in e.voters && b in e.voters && a != b
    requires |e.voters| >= 3 || e.cfg.checkQuorum
    ensures Reached(e, c) && Conflicting(c, a, b, e)
  {
    hide Reached, Exposed, Split, Diverged, Conflicting;
    ExposedVoters(e);
    var c0 := TwoLeaders(e, a, b);
    var c1 := Diverge(e, c0, a, b);
    if |e.voters| >= 3 {
      c := ThirdVoterCommits(e, c1, a, b);
    } else {
      c := SteppedDownCommits(e, c1, a, b);
    }
  }

  /** The committed prefixes of any two nodes at any two moments agree as far as both go, in every run. */
  ghost predicate SafeCommits(e: Setting) {
    forall run: seq<Cluster>, i: nat, j: nat, a: nat, b: nat
      {:trigger Run(e.cfg, e.voters, e.boot, run), At(run, i, a), At(run, j, b)} ::
      Run(e.cfg, e.voters, e.boot, run) && At(run, i, a) && At(run, j, b) ==> PrefixesAgree(run, i, j, a, b)
  }

  ghost predicate PrefixesAgree(run: seq<Cluster>, i: nat, j: nat, a: nat, b: nat)
    requires At(run, i, a) && At(run, j, b)
  {
    Agree(Entries(run, i, a), Entries(run, j, b), Min(run[i].nodes[a].log.committed, run[j].nodes[b].log.committed))
  }

  lemma ConflictDisagrees(run: seq<Cluster>, c: Cluster, a: nat, b: nat, e: Setting)
    requires run != [] && run[|run| - 1] == c && Conflicting(c, a, b, e)
    ensures At(run, |run| - 1, a) && At(run, |run| - 1, b) && !PrefixesAgree(run, |run| - 1, |run| - 1, a, b)
  {
    var n := |e.boot|;
    var x, y := c.nodes[a].log.ents, c.nodes[b].log.ents;
    assert x[n + 1] == Own(e, MINE) && y[n + 1] == Own(e, THEIRS);
    assert MINE[0] != THEIRS[0];
    assert x[..n + 2][n + 1] != y[..n + 2][n + 1];
  }

  lemma CommitsNotSafe(e: Setting)
    requires Exposed(e) && e.cfg.maxInflight > 0 && (|e.voters| >= 3 || e.cfg.checkQuorum)
    ensures !SafeCommits(e)
  {
    hide Run, Exposed, Conflicting, At, PrefixesAgree;
    ExposedVoters(e);
    var a, b := TwoVoters(e.voters);
    var c := TwoCommits(e, a, b);
    var run := ReachingRun(e, c);
    ConflictDisagrees(run, c, a, b, e);
  }

  /** A single node agrees with itself. */
  lemma SameNodeAgrees(e: Setting, run: seq<Cluster>, i: nat, j: nat, a: nat)
    requires Run(e.cfg, e.voters, e.boot, run) && At(run, i, a) && At(run, j, a)
    ensures PrefixesAgree(run, i, j, a, a)
  {
    hide Run;
    NodesAreVoters(e.cfg, e.voters, e.boot, run, i);
    if i <= j {
      CommitNeverFalls(e.cfg, e.voters, e.boot, run, i, j, a);
    } else {
      CommitNeverFalls(e.cfg, e.voters, e.boot, run, j, i, a);
    }
  }

  /** The configurations that keep state machine safety. */
  predicate KeepsCommits(e: Setting) {
    !e.cfg.preVote || |e.voters| == 1 || (|e.voters| == 2 && !e.cfg.checkQuorum)
  }

  lemma CommitsSafe(e: Setting, run: seq<Cluster>, i: nat, j: nat, a: nat, b: nat)
    requires KeepsCommits(e) && Run(e.cfg, e.voters, e.boot, run) && At(run, i, a) && At(run, j, b)
    ensures PrefixesAgree(run, i, j, a, b)
  {
    hide Run;
    if !e.cfg.preVote {
      StateMachineSafety(e.cfg, e.voters, e.boot, run, i, j, a, b);
    } else if |e.voters| == 1 {
      OnlyVoter(e, run, i, j, a, b);
      SameNodeAgrees(e, run, i, j, a);
    } else {
      TwoVotersAgree(e.cfg, e.voters, e.boot, run, i, j, a, b);
    }
  }

  /** State machine safety holds exactly when pre-vote is off, there is a single voter, or there are two and
      leaders do not check their quorum; for every bootstrap log and every window the source's validation
      admits. */
  lemma CommitsSafeExactly(e: Setting)
    requires e.voters != {} && 0 !in e.voters && ValidBoot(e.boot) && e.cfg.maxInflight > 0
    ensures SafeCommits(e) <==> (!e.cfg.preVote || |e.voters| == 1 || (|e.voters| == 2 && !e.cfg.checkQuorum))
  {
    hide Run, ValidBoot, At, PrefixesAgree;
    if KeepsCommits(e) {
      forall run: seq<Cluster>, i: nat, j: nat, a: nat, b: nat
        | Run(e.cfg, e.voters, e.boot, run) && At(run, i, a) && At(run, j, b)
        ensures PrefixesAgree(run, i, j, a, b)
      {
        CommitsSafe(e, run, i, j, a, b);
      }
    } else {
      CommitsNotSafe(e);
    }
  }
}
