/** What one node keeps on its own, whatever it is told and whatever the configuration: ordered
    cursors, flow control, at most one unapplied configuration change of its own, and a counter of
    uncommitted bytes that never exceeds what is really waiting. */
module Ledger {
  import opened Proto
  import opened LogSpec
  import opened ProgressSpec
  import opened RaftSpec
  import opened Leadership
  import opened History
  import opened Steps
  import opened Flow

  /** Every configuration change above `applied` is at or below `pending`. */
  ghost predicate ConfsBelow(ents: seq<Entry>, applied: nat, pending: nat) {
    forall k :: applied <= k < |ents| && ents[k].kind == ConfChange ==> k + 1 <= pending
  }

  /** Payload bytes of the entries not yet handed out. */
  function Waiting(l: Log): nat {
    if l.applied <= |l.ents| then PayloadSize(l.ents[l.applied..]) else 0
  }

  ghost predicate LedgerInv(s: Node) {
    && CursorsOk(s.log)
    && (s.role != Leader ==> s.uncommitted == 0)
    && (s.role == Leader ==> ConfsBelow(s.log.ents, s.log.applied, s.pendingConf))
  }

  ghost predicate LocalInv(s: Node) {
    FlowInv(s) && LedgerInv(s)
  }

  /** A batch with at most one configuration change, and with none while another is unapplied. */
  ghost predicate Gated(ents: seq<Entry>, applied: nat, batch: seq<Entry>) {
    && (forall i, j :: 0 <= i < |batch| && 0 <= j < |batch| && batch[i].kind == ConfChange && batch[j].kind == ConfChange
          ==> i == j)
    && (forall i, k :: 0 <= i < |batch| && batch[i].kind == ConfChange && applied <= k < |ents|
          ==> ents[k].kind != ConfChange)
  }

  /** The counter rises by no more than the batch, and then only within the limit or from zero. */
  ghost predicate Counted(cfg: Config, before: nat, after: nat, batch: seq<Entry>) {
    && after <= before + PayloadSize(batch)
    && (after <= before || after <= cfg.maxUncommitted || before == 0)
  }

  /** A leader moving on in its term: nothing unlearned, and one gated, counted batch appended. */
  ghost predicate LeadsOn(cfg: Config, s: Node, s': Node) {
    && Raised(s.prs, s'.prs)
    && s.log.ents <= s'.log.ents
    && Gated(s.log.ents, s.log.applied, s'.log.ents[|s.log.ents|..])
    && (forall k :: |s.log.ents| <= k < |s'.log.ents| ==> s'.log.ents[k].term == s.term)
    && Counted(cfg, s.uncommitted, s'.uncommitted, s'.log.ents[|s.log.ents|..])
  }

  /** A new leader adds nothing but normal entries to its log. */
  ghost predicate TakesOffice(before: seq<Entry>, after: seq<Entry>) {
    before <= after && forall k :: |before| <= k < |after| ==> after[k].kind == Normal
  }

  /** The commit cursor does not fall, and what it covers is not rewritten. */
  ghost predicate CommitKept(l: Log, l': Log) {
    l.committed <= l'.committed && Agree(l'.ents, l.ents, l.committed)
  }

  lemma LongerKeepsCommit(l: Log, l': Log)
    requires CursorsOk(l) && l.base == 0 && l.ents <= l'.ents && l.committed <= l'.committed
    ensures CommitKept(l, l')
  {
  }

  /** How a message moves a node: within a term a leader leads on or steps down, and who neither leads
      nor stands does not come to lead. Otherwise the term rises. Nothing is applied, nothing uncommitted, and the counter
      starts from zero wherever a leader does not lead on. */
  ghost predicate Onward(cfg: Config, s: Node, s': Node) {
    && Same(s, s') && s.term <= s'.term
    && s.log.applied == s'.log.applied && CommitKept(s.log, s'.log)
    && (s'.uncommitted == 0 || (s.role == Leader && s'.role == Leader && s.term == s'.term))
    && (s'.role == Leader ==> (s.role == Leader && s.term == s'.term) || TakesOffice(s.log.ents, s'.log.ents))
    && (s'.term == s.term && s.role == Leader ==> s'.role == Follower || (s'.role == Leader && LeadsOn(cfg, s, s')))
    && (s'.term == s.term && s.role in {Follower, PreCandidate} ==> s'.role in {Follower, PreCandidate})
  }

  // ---------------------------------------------------------------- leader

  lemma SteadyLeadsOn(cfg: Config, s: Node, s': Node)
    requires LocalInv(s) && s.role == Leader && Steady(s, s')
    ensures LocalInv(s') && Onward(cfg, s, s')
  {
    hide FlowInv;
    assert s'.log.ents[|s.log.ents|..] == [];
  }

  /** Of the gated batch at most one entry is a configuration change, it is at the index reported as
      pending, and there is none while one is still unapplied. */
  lemma {:induction false} GateConfMeaning(es: seq<Entry>, pending: nat, applied: nat, at: nat)
    requires at > applied
    ensures var (r, p) := GateConf(es, pending, applied, at);
            && pending <= p
            && (pending > applied ==> p == pending)
            && forall k :: 0 <= k < |r| && r[k].kind == ConfChange ==> p == at + k && pending <= applied
    decreases |es|
  {
    if es != [] {
      var pending1 := if es[0].kind == ConfChange && pending <= applied then at else pending;
      if pending1 >= pending {
        GateConfMeaning(es[1..], pending1, applied, at + 1);
      }
    }
  }

  /** The batch is gated and its configuration change, if any, is the pending one. */
  ghost predicate Admitted(s: Node, batch: seq<Entry>) {
    && Gated(s.log.ents, s.log.applied, batch)
    && forall k :: 0 <= k < |batch| && batch[k].kind == ConfChange ==> |s.log.ents| + k + 1 <= s.pendingConf
  }

  lemma StampedAdmitted(s: Node, es: seq<Entry>)
    requires Admitted(s, es)
    ensures Admitted(s, StampEntries(s, es))
  {
    var r := StampEntries(s, es);
    assert forall k :: 0 <= k < |r| ==> r[k].kind == es[k].kind;
  }

  lemma StampedKinds(s: Node, es: seq<Entry>)
    ensures forall k :: 0 <= k < |es| ==> StampEntries(s, es)[k].kind == es[k].kind
  {
  }

  lemma {:induction false} StampedPayload(s: Node, es: seq<Entry>, n: nat)
    requires n <= |es|
    ensures PayloadSize(StampEntries(s, es)[..n]) == PayloadSize(es[..n])
  {
    if n > 0 {
      StampedPayload(s, es, n - 1);
      var r := StampEntries(s, es);
      assert r[..n][..n - 1] == r[..n - 1] && es[..n][..n - 1] == es[..n - 1];
    }
  }

  lemma GateAdmits(s: Node, es: seq<Entry>)
    requires LedgerInv(s) && s.role == Leader
    ensures var (r, p) := GateConf(es, s.pendingConf, s.log.applied, s.log.Last() + 1);
            var s1 := s.(pendingConf := p);
            LedgerInv(s1) && Admitted(s1, r)
  {
    GateConfMeaning(es, s.pendingConf, s.log.applied, s.log.Last() + 1);
    hide GateConf;
  }

  lemma OwnFlow(p: Progress, n: nat)
    requires FlowOk(p) && p.inflights == []
    ensures var q := MaybeUpdate(p, n).0;
            FlowOk(q) && q.inflights == [] && p.matched <= q.matched
  {
  }

  /** A write to the leader's own log touches its entries, its own progress and the counter. */
  lemma AppendedShape(s: Node, ents: seq<Entry>, u: nat)
    requires Contiguous(ents, s.log.Last() + 1)
    ensures var s1 := Appended(s, ents, u);
            && s1.prs == s.prs[s.id := MaybeUpdate(s.prs[s.id], s.log.Last() + |ents|).0]
            && s1.id == s.id && s1.role == s.role && s1.term == s.term && s1.msgs == s.msgs
            && s1.pendingConf == s.pendingConf && s1.uncommitted == u
            && s1.log.ents == s.log.ents + ents && s1.log.ents[|s.log.ents|..] == ents
            && s1.log.committed == s.log.committed && s1.log.applied == s.log.applied
  {
    hide MaybeUpdate;
  }

  lemma AppendedFlow(s: Node, ents: seq<Entry>, u: nat)
    requires FlowInv(s) && s.role == Leader && Fresh(s, ents)
    ensures FlowInv(Appended(s, ents, u)) && Raised(s.prs, Appended(s, ents, u).prs)
  {
    hide FlowOk, MaybeUpdate, Appended, Contiguous;
    var n := s.log.Last() + |ents|;
    PeerFlow(s, s.id);
    OwnFlow(s.prs[s.id], n);
    AppendedShape(s, ents, u);
  }

  lemma AppendedLedger(s: Node, ents: seq<Entry>, u: nat)
    requires LedgerInv(s) && s.role == Leader && Fresh(s, ents) && Admitted(s, ents)
    ensures LedgerInv(Appended(s, ents, u))
  {
    hide MaybeUpdate;
  }

  lemma AppendedLeadsOn(cfg: Config, s: Node, ents: seq<Entry>)
    requires LocalInv(s) && s.role == Leader && Fresh(s, ents) && Admitted(s, ents) && WithinLimit(cfg, s, ents)
    ensures var s1 := Appended(s, ents, s.uncommitted + Wrap32(PayloadSize(ents)));
            LocalInv(s1) && LeadsOn(cfg, s, s1)
  {
    var u := s.uncommitted + Wrap32(PayloadSize(ents));
    hide FlowInv, LedgerInv, Raised, PayloadSize, Gated, Appended, Contiguous;
    AppendedFlow(s, ents, u);
    AppendedLedger(s, ents, u);
    AppendedShape(s, ents, u);
  }

  lemma LeadsOnSteady(cfg: Config, s: Node, s1: Node, s2: Node)
    requires LeadsOn(cfg, s, s1) && Steady(s1, s2)
    ensures LeadsOn(cfg, s, s2)
  {
    hide FlowInv, Gated, Counted;
    forall v | v in s.prs ensures s.prs[v].matched <= s2.prs[v].matched {
      assert s1.prs[v].matched <= s2.prs[v].matched;
    }
  }

  /** append_entry at a leader. */
  lemma AppendEntryLeadsOn(cfg: Config, s: Node, es: seq<Entry>)
    requires LocalInv(s) && s.role == Leader && Admitted(s, es) && AppendEntry(cfg, s, es).Ok?
    ensures var s' := AppendEntry(cfg, s, es).value.0;
            && LocalInv(s') && LeadsOn(cfg, s, s')
            && s'.role == Leader && s'.term == s.term && s'.log.applied == s.log.applied && s.log.committed <= s'.log.committed
            && s'.uncommitted <= s.uncommitted + PayloadSize(es)
            && (es == [EMPTY_ENTRY] ==> TakesOffice(s.log.ents, s'.log.ents))
  {
    hide StampEntries, Appended, AdvanceCommit, AppendEntry, LeadsOn, WithinLimit, Admitted, FlowInv, PayloadSize, ConfsBelow, Waiting;
    var ents := StampEntries(s, es);
    AppendEntrySteps(cfg, s, es);
    StampedAdmitted(s, es);
    StampedPayload(s, es, |es|);
    assert ents[..|es|] == ents && es[..|es|] == es;
    assert es == [EMPTY_ENTRY] ==> ents[0].kind == Normal by { StampedKinds(s, es); }
    var s' := AppendEntry(cfg, s, es).value.0;
    if WithinLimit(cfg, s, ents) {
      AppendedLeadsOn(cfg, s, ents);
      var u := s.uncommitted + Wrap32(PayloadSize(ents));
      AppendedShape(s, ents, u);
      CommitAfterAppend(cfg, s, Appended(s, ents, u));
    } else {
      LeadsOnRefl(cfg, s);
    }
  }

  lemma CommitAfterAppend(cfg: Config, s: Node, s1: Node)
    requires LocalInv(s1) && LeadsOn(cfg, s, s1) && s1.role == Leader && AdvanceCommit(s1).Ok?
    ensures var s' := AdvanceCommit(s1).value.0;
            && LocalInv(s') && LeadsOn(cfg, s, s')
            && s'.role == Leader && s'.term == s1.term && s'.log.applied == s1.log.applied && s1.log.committed <= s'.log.committed
            && s'.uncommitted == s1.uncommitted && s'.log.ents == s1.log.ents
  {
    hide AdvanceCommit, LeadsOn, FlowInv, LedgerInv;
    AdvanceSteady(s1);
    SteadyLeadsOn(cfg, s1, AdvanceCommit(s1).value.0);
    LeadsOnSteady(cfg, s, s1, AdvanceCommit(s1).value.0);
  }

  lemma LeadsOnRefl(cfg: Config, s: Node)
    ensures LeadsOn(cfg, s, s)
  {
    assert s.log.ents[|s.log.ents|..] == [];
  }

  lemma PendingLeadsOn(cfg: Config, s: Node, pending: nat, s': Node)
    ensures WellFormed(s.(pendingConf := pending))
    ensures LeadsOn(cfg, s.(pendingConf := pending), s') ==> LeadsOn(cfg, s, s')
  {
    hide Gated, Counted, Raised;
  }

  lemma PendingFlow(s: Node, pending: nat)
    requires FlowInv(s)
    ensures FlowInv(s.(pendingConf := pending))
  {
    hide PeersOk, Addressed;
    StillAddressed(s, s.(pendingConf := pending));
  }

  lemma ProposeLeadsOn(cfg: Config, s: Node, m: Message)
    requires LocalInv(s) && s.role == Leader && Propose(cfg, s, m).Ok?
    ensures LocalInv(Propose(cfg, s, m).value) && Onward(cfg, s, Propose(cfg, s, m).value)
  {
    hide Propose, AppendEntry, BcastAppend, GateConf, FlowInv, LedgerInv, Admitted, LeadsOn, Raised;
    var (es, pending) := GateConf(m.entries, s.pendingConf, s.log.applied, s.log.Last() + 1);
    var s1 := s.(pendingConf := pending);
    var s' := Propose(cfg, s, m).value;
    ProposeNotEmpty(cfg, s, m);
    GateAdmits(s, m.entries);
    PendingFlow(s, pending);
    ProposeSteps(cfg, s, m);
    PendingLeadsOn(cfg, s, pending, s');
    AppendEntryLeadsOn(cfg, s1, es);
    var (s2, kept) := AppendEntry(cfg, s1, es).value;
    if kept {
      BcastSteady(cfg, s2);
      SteadyLeadsOn(cfg, s2, s');
      LeadsOnSteady(cfg, s1, s2, s');
    }
    LeadsOnKeeps(cfg, s, s');
  }

  lemma LeadsOnKeeps(cfg: Config, s: Node, s': Node)
    requires LedgerInv(s) && LeadsOn(cfg, s, s') && s.log.committed <= s'.log.committed
    ensures CommitKept(s.log, s'.log)
  {
    hide Gated, Counted, Raised;
    LongerKeepsCommit(s.log, s'.log);
  }

  lemma ProposeNotEmpty(cfg: Config, s: Node, m: Message)
    requires Propose(cfg, s, m).Ok?
    ensures m.entries != []
  {
  }

  // ---------------------------------------------------------------- changing roles

  lemma ResetLocal(cfg: Config, s: Node, term: nat)
    requires LocalInv(s)
    ensures var r := Reset(cfg, s, term);
            && PeersOk(r.prs) && r.prs[s.id].inflights == [] && r.msgs == s.msgs && Addressed(s) && TermsInv(s)
            && r.uncommitted == 0 && r.log == s.log && CursorsOk(s.log)
  {
    assert forall v :: v in s.prs ==> FlowOk(Reset(cfg, s, term).prs[v]);
  }

  lemma BecomeFollowerLocal(cfg: Config, s: Node, term: nat, lead: nat)
    requires LocalInv(s) && term >= s.term
    ensures LocalInv(BecomeFollower(cfg, s, term, lead)) && Onward(cfg, s, BecomeFollower(cfg, s, term, lead))
  {
    hide Waiting, FlowOk, Addressed;
    ResetLocal(cfg, s, term);
    StillAddressed(s, BecomeFollower(cfg, s, term, lead));
  }

  lemma ElectedLocal(cfg: Config, s: Node)
    requires LocalInv(s) && s.role == Candidate
    ensures LocalInv(Elected(cfg, s)) && Admitted(Elected(cfg, s), [EMPTY_ENTRY])
  {
    hide Waiting, Addressed;
    ResetLocal(cfg, s, s.term);
    var r := Elected(cfg, s);
    assert FlowOk(r.prs[s.id]);
    StillAddressed(s, r);
  }

  lemma BecomeLeaderLocal(cfg: Config, s: Node)
    requires LocalInv(s) && s.role == Candidate && BecomeLeader(cfg, s).Ok?
    ensures var r := BecomeLeader(cfg, s).value;
            && LocalInv(r) && r.role == Leader && r.term == s.term && r.log.applied == s.log.applied && CommitKept(s.log, r.log) && r.uncommitted == 0
            && TakesOffice(s.log.ents, r.log.ents)
  {
    hide AppendEntry, LocalInv, Admitted, LeadsOn, Elected, BecomeLeader, PayloadSize;
    ElectedLocal(cfg, s);
    var s2 := Elected(cfg, s);
    ElectedShape(cfg, s);
    BecomeLeaderSteps(cfg, s);
    AppendEntryLeadsOn(cfg, s2, [EMPTY_ENTRY]);
    EmptyWeighsNothing();
    var s3 := AppendEntry(cfg, s2, [EMPTY_ENTRY]).value.0;
    OfficeKeepsCommit(s, s3);
  }

  lemma EmptyWeighsNothing()
    ensures PayloadSize([EMPTY_ENTRY]) == 0
  {
    assert [EMPTY_ENTRY][..0] == [];
    assert PayloadSize([]) == 0;
  }

  lemma OfficeKeepsCommit(s: Node, s': Node)
    requires LocalInv(s) && TakesOffice(s.log.ents, s'.log.ents) && s.log.committed <= s'.log.committed
    ensures CommitKept(s.log, s'.log)
  {
    LongerKeepsCommit(s.log, s'.log);
  }

  lemma SameLogKeeps(s: Node)
    requires LocalInv(s)
    ensures CommitKept(s.log, s.log)
  {
    LongerKeepsCommit(s.log, s.log);
  }

  lemma StandingLocal(cfg: Config, s: Node, votes: map<nat, bool>)
    requires LocalInv(s) && s.role != Leader
    ensures var c := BecomeCandidate(cfg, s).(votes := votes);
            LocalInv(c) && c.term == s.term + 1 && c.log == s.log && c.id == s.id && c.role == Candidate && c.uncommitted == 0
    ensures var p := BecomePreCandidate(s).(votes := votes);
            LocalInv(p) && p.term == s.term && p.log == s.log && p.id == s.id && p.role == PreCandidate && p.uncommitted == 0
  {
    hide FlowOk, Waiting, ConfsBelow, Addressed;
    ResetLocal(cfg, s, s.term + 1);
    StillAddressed(s, BecomeCandidate(cfg, s).(votes := votes));
    StillAddressed(s, BecomePreCandidate(s).(votes := votes));
  }

  lemma RequestVotesLocal(s: Node, kind: MsgType, term: nat)
    requires LocalInv(s) && (kind == MsgPreVote || (kind == MsgVote && term == s.term))
    ensures var r := RequestVotes(s, kind, term);
            LocalInv(r) && r.term == s.term && r.role == s.role && r.log == s.log && r.uncommitted == s.uncommitted
  {
    hide LedgerInv, PeersOk;
    var r := RequestVotes(s, kind, term);
    forall m | m in r.msgs ensures SentBy(s.id, s.term, s.role, m) {
    }
    assert LedgerInv(r) by { LedgerOf(s, r); }
  }

  lemma LedgerOf(s: Node, r: Node)
    requires LedgerInv(s) && r.log == s.log && r.uncommitted == s.uncommitted && r.role == s.role
    requires r.pendingConf == s.pendingConf
    ensures LedgerInv(r)
  {
  }

  lemma CampaignLocal(cfg: Config, s: Node)
    requires LocalInv(s) && s.role != Leader && Campaign(cfg, s).Ok?
    ensures var r := Campaign(cfg, s).value;
            && LocalInv(r) && r.term == s.term + 1 && r.log.applied == s.log.applied && CommitKept(s.log, r.log) && r.uncommitted == 0
            && (r.role == Leader ==> TakesOffice(s.log.ents, r.log.ents))
  {
    hide LocalInv, BecomeLeader, Reset, GrantedBy, NodeQuorum, RequestVotes;
    var s1 := Poll(BecomeCandidate(cfg, s), s.id, true);
    SameLogKeeps(s);
    StandingLocal(cfg, s, s1.votes);
    if |GrantedBy(s1.votes)| == NodeQuorum(s1) {
      BecomeLeaderLocal(cfg, s1);
    } else {
      RequestVotesLocal(s1, MsgVote, s1.term);
    }
  }

  lemma HupLocal(cfg: Config, s: Node)
    requires LocalInv(s) && Hup(cfg, s).Ok?
    ensures LocalInv(Hup(cfg, s).value) && Onward(cfg, s, Hup(cfg, s).value)
  {
    OnwardRefl(cfg, s);
    hide LocalInv, Campaign, LeadsOn;
    if s.role != Leader && !HasPendingConf(s.log) {
      if cfg.preVote {
        PreCampaignLocal(cfg, s);
        hide PreCampaign;
      } else {
        CampaignLocal(cfg, s);
      }
    }
  }

  /** A pre-candidate with its own vote. */
  function PreStanding(s: Node): Node
    requires s.role != Leader
  {
    Poll(BecomePreCandidate(s), s.id, true)
  }

  lemma PreStandingLocal(cfg: Config, s: Node)
    requires LocalInv(s) && s.role != Leader
    ensures var p := PreStanding(s);
            LocalInv(p) && p.role == PreCandidate && p.term == s.term && p.log == s.log && p.uncommitted == 0
  {
    hide LocalInv;
    StandingLocal(cfg, s, PreStanding(s).votes);
  }

  lemma PreCampaignCases(cfg: Config, s: Node)
    requires s.role != Leader && PreStanding(s).role == PreCandidate && PreStanding(s).term == s.term
    ensures || PreCampaign(cfg, s) == Campaign(cfg, PreStanding(s))
            || PreCampaign(cfg, s) == Ok(RequestVotes(PreStanding(s), MsgPreVote, s.term + 1))
  {
    hide Campaign, NodeQuorum, GrantedBy, RequestVotes, BecomePreCandidate, Poll;
  }

  lemma PreCampaignLocal(cfg: Config, s: Node)
    requires LocalInv(s) && s.role != Leader && PreCampaign(cfg, s).Ok?
    ensures var r := PreCampaign(cfg, s).value;
            && LocalInv(r) && r.log.applied == s.log.applied && CommitKept(s.log, r.log) && r.uncommitted == 0
            && (r.term == s.term + 1 || (r.term == s.term && r.role == PreCandidate))
            && (r.role == Leader ==> TakesOffice(s.log.ents, r.log.ents))
  {
    hide *;
    SameLogKeeps(s);
    PreStandingLocal(cfg, s);
    PreCampaignCases(cfg, s);
    if PreCampaign(cfg, s) == Campaign(cfg, PreStanding(s)) {
      CampaignLocal(cfg, PreStanding(s));
    } else {
      RequestVotesLocal(PreStanding(s), MsgPreVote, s.term + 1);
    }
  }

  // ---------------------------------------------------------------- followers and candidates

  /** What a follower's log may become: nothing applied or uncommitted, and no entry of a later term. */
  ghost predicate LogMovesOn(l: Log, l': Log, term: nat) {
    CursorsOk(l') && l'.applied == l.applied && CommitKept(l, l') && TermsAtMost(l'.ents, term)
  }

  /** A follower changes its log, or any node sends one answer. */
  lemma AnswerLocal(cfg: Config, s: Node, s1: Node, m: Message)
    requires LocalInv(s) && s1.prs == s.prs && s1.id == s.id && s1.role == s.role && s1.term == s.term
    requires s1.msgs == s.msgs && s1.uncommitted == s.uncommitted && s1.pendingConf == s.pendingConf
    requires s1.log == s.log || (s.role == Follower && LogMovesOn(s.log, s1.log, s.term))
    requires Send(s1, m).Ok? && SentBy(s.id, s.term, s.role, Stamp(s1, m))
    ensures LocalInv(Send(s1, m).value) && Onward(cfg, s, Send(s1, m).value)
  {
    hide PeersOk, ConfsBelow;
    var r := Send(s1, m).value;
    assert Addressed(r);
    assert Raised(s.prs, r.prs);
    if s1.log == s.log {
      LeadsOnRefl(cfg, s);
      assert LeadsOn(cfg, s, r);
    }
  }

  /** maybe_append keeps the cursors in order and the terms bounded whenever it does not abort. */
  lemma MaybeAppendMovesOn(l: Log, index: nat, logTerm: nat, committed: nat, es: seq<Entry>, term: nat)
    requires CursorsOk(l) && l.base == 0 && Contiguous(es, index + 1) && TermsAtMost(l.ents, term) && TermsAtMost(es, term)
    ensures var r := MaybeAppend(l, index, logTerm, committed, es);
            r.Accepted? ==> LogMovesOn(l, r.log, term)
  {
    hide FindConflict, Append;
    MaybeAppendCases(l, index, logTerm, committed, es);
    var ci := FindConflict(l, es);
    if ci > l.committed && Overtaken(l, index, es, ci).Ok? {
      AppendMovesOn(l, ci, es[ci - (index + 1)..], term);
    }
    assert Agree(l.ents, l.ents, l.committed);
  }

  lemma AppendMovesOn(l: Log, first: nat, es: seq<Entry>, term: nat)
    requires CursorsOk(l) && l.base == 0 && Contiguous(es, first) && TermsAtMost(l.ents, term) && TermsAtMost(es, term)
    ensures Append(l, first, es).Ok? ==>
              LogMovesOn(l, Append(l, first, es).value, term) && Append(l, first, es).value.committed == l.committed
  {
    if es != [] && Append(l, first, es).Ok? {
      assert (l.ents[..first - 1] + es)[..l.committed] == l.ents[..l.committed];
    }
  }

  lemma HandleAppendLocal(cfg: Config, s: Node, m: Message)
    requires LocalInv(s) && s.role == Follower && MessageWellFormed(m) && m.kind == MsgApp && FromOther(s, m)
    requires m.term == s.term
    requires HandleAppend(s, m).Ok?
    ensures LocalInv(HandleAppend(s, m).value) && Onward(cfg, s, HandleAppend(s, m).value)
  {
    hide MaybeAppend, Onward, FlowOk, PeersOk;
    MaybeAppendMovesOn(s.log, m.index, m.logTerm, m.commit, m.entries, s.term);
    var resp := EMPTY_MESSAGE.(to := m.from, kind := MsgAppResp);
    var out := MaybeAppend(s.log, m.index, m.logTerm, m.commit, m.entries);
    if m.index < s.log.committed {
      AnswerLocal(cfg, s, s, resp.(index := s.log.committed));
    } else if out.Accepted? {
      AnswerLocal(cfg, s, s.(log := out.log), resp.(index := out.lastNew));
    } else {
      AnswerLocal(cfg, s, s, resp.(index := m.index, reject := true, rejectHint := s.log.Last()));
    }
  }

  lemma HandleHeartbeatLocal(cfg: Config, s: Node, m: Message)
    requires LocalInv(s) && s.role == Follower && m.kind == MsgHeartbeat && FromOther(s, m)
    requires HandleHeartbeat(s, m).Ok?
    ensures LocalInv(HandleHeartbeat(s, m).value) && Onward(cfg, s, HandleHeartbeat(s, m).value)
  {
    var l := CommitTo(s.log, m.commit).value;
    assert LogMovesOn(s.log, l, s.term);
    hide LocalInv, Onward;
    AnswerLocal(cfg, s, s.(log := l), EMPTY_MESSAGE.(to := m.from, kind := MsgHeartbeatResp));
  }

  lemma HandleVoteLocal(cfg: Config, s: Node, m: Message)
    requires LocalInv(s) && (m.kind == MsgPreVote || (m.kind == MsgVote && m.term <= s.term)) && HandleVote(s, m).Ok?
    ensures LocalInv(HandleVote(s, m).value) && Onward(cfg, s, HandleVote(s, m).value)
  {
    var resp := EMPTY_MESSAGE.(to := m.from, kind := VoteResponseKind(m.kind));
    if CanVote(s, m) && IsUpToDate(s.log, m.index, m.logTerm) {
      AnswerLocal(cfg, s, s, resp.(term := m.term));
    } else {
      AnswerLocal(cfg, s, s, resp.(term := s.term, reject := true));
    }
  }

  lemma PollLocal(s: Node, from: nat, granted: bool)
    requires LocalInv(s)
    ensures var r := Poll(s, from, granted);
            LocalInv(r) && Same(s, r) && r.term == s.term && r.role == s.role && r.log == s.log && r.uncommitted == s.uncommitted
  {
    var r := Poll(s, from, granted);
    hide LedgerInv;
    LedgerOf(s, r);
  }

  /** The election is won: the candidate leads its term and tells the others. */
  lemma WonLocal(cfg: Config, s: Node)
    requires LocalInv(s) && s.role == Candidate && BecomeLeader(cfg, s).Ok?
    ensures var r := BcastAppend(cfg, BecomeLeader(cfg, s).value);
            && LocalInv(r) && r.term == s.term && r.log.applied == s.log.applied && CommitKept(s.log, r.log) && r.uncommitted == 0
            && TakesOffice(s.log.ents, r.log.ents)
  {
    hide LocalInv, BecomeLeader, BcastAppend;
    BecomeLeaderLocal(cfg, s);
    BcastLocal(cfg, BecomeLeader(cfg, s).value);
  }

  lemma CandidateOnward(cfg: Config, s: Node, s': Node)
    requires IsCandidate(s) && Same(s, s') && s.term <= s'.term && s.log.applied == s'.log.applied
    requires CommitKept(s.log, s'.log) && s'.uncommitted == 0
    requires s.role == Candidate || s.term < s'.term || s'.role in {Follower, PreCandidate}
    requires s'.role == Leader ==> TakesOffice(s.log.ents, s'.log.ents)
    ensures Onward(cfg, s, s')
  {
  }

  /** The four ways a vote answer can go. */
  lemma VoteRespCases(cfg: Config, s: Node, m: Message)
    requires IsCandidate(s)
    ensures var s1 := Poll(s, m.from, !m.reject);
            var r := HandleVoteResp(cfg, s, m);
            && s1.role == s.role
            && (|| r == Ok(s1)
                || r == Ok(BecomeFollower(cfg, s1, s1.term, 0))
                || (s.role == PreCandidate && r == Campaign(cfg, s1))
                || (s.role == Candidate && BecomeLeader(cfg, s1).Ok? && r == Ok(BcastAppend(cfg, BecomeLeader(cfg, s1).value)))
                || r == Fatal)
  {
    hide BecomeLeader, Campaign, BcastAppend, NodeQuorum, GrantedBy, BecomeFollower;
  }

  /** Recording an answer does not matter to how the node moves on. */
  lemma PolledOnward(cfg: Config, s: Node, s1: Node, s': Node)
    requires IsCandidate(s) && Same(s, s1) && s1.term == s.term && s1.role == s.role && s1.log == s.log
    requires Onward(cfg, s1, s')
    ensures Onward(cfg, s, s')
  {
    hide LeadsOn;
  }

  lemma HandleVoteRespLocal(cfg: Config, s: Node, m: Message)
    requires LocalInv(s) && IsCandidate(s) && HandleVoteResp(cfg, s, m).Ok?
    ensures LocalInv(HandleVoteResp(cfg, s, m).value) && Onward(cfg, s, HandleVoteResp(cfg, s, m).value)
  {
    hide LocalInv, BecomeLeader, Campaign, BcastAppend, BecomeFollower, Poll, Onward, HandleVoteResp;
    var s1 := Poll(s, m.from, !m.reject);
    var s' := HandleVoteResp(cfg, s, m).value;
    PollLocal(s, m.from, !m.reject);
    VoteRespCases(cfg, s, m);
    if s' == s1 {
      OnwardRefl(cfg, s1);
    } else if s' == BecomeFollower(cfg, s1, s1.term, 0) {
      BecomeFollowerLocal(cfg, s1, s1.term, 0);
    } else if s.role == PreCandidate {
      CampaignLocal(cfg, s1);
      CandidateOnward(cfg, s1, s');
    } else {
      WonLocal(cfg, s1);
      CandidateOnward(cfg, s1, s');
    }
    PolledOnward(cfg, s, s1, s');
  }

  lemma BcastLocal(cfg: Config, s: Node)
    requires LocalInv(s) && s.role == Leader
    ensures var r := BcastAppend(cfg, s);
            && LocalInv(r) && r.role == s.role && r.term == s.term && r.log.applied == s.log.applied && r.uncommitted == s.uncommitted && r.log.ents == s.log.ents
            && s.log.committed <= r.log.committed
  {
    BcastSteady(cfg, s);
    hide BcastAppend, FlowInv;
    SteadyLeadsOn(cfg, s, BcastAppend(cfg, s));
  }

  /** Following a leader within the term. */
  lemma JoinOnward(cfg: Config, s: Node, s1: Node, s2: Node)
    requires Onward(cfg, s, s1) && Onward(cfg, s1, s2) && s.role != Leader && s1.role == Follower
    requires s1.log == s.log
    ensures Onward(cfg, s, s2)
  {
    hide LeadsOn;
  }

  lemma StepCandidateLocal(cfg: Config, s: Node, m: Message)
    requires LocalInv(s) && IsCandidate(s) && MessageWellFormed(m) && FromOther(s, m)
    requires m.term == s.term || m.kind !in {MsgApp, MsgHeartbeat}
    requires StepCandidate(cfg, s, m).Ok?
    ensures LocalInv(StepCandidate(cfg, s, m).value) && Onward(cfg, s, StepCandidate(cfg, s, m).value)
  {
    var s' := StepCandidate(cfg, s, m).value;
    if m.kind in {MsgApp, MsgHeartbeat} {
      BecomeFollowerLocal(cfg, s, m.term, m.from);
      var s1 := BecomeFollower(cfg, s, m.term, m.from);
      FollowerRole(cfg, s, m.term, m.from);
      hide LocalInv, Onward, BecomeFollower, HandleAppend, HandleHeartbeat;
      if m.kind == MsgApp {
        HandleAppendLocal(cfg, s1, m);
      } else {
        HandleHeartbeatLocal(cfg, s1, m);
      }
      JoinOnward(cfg, s, s1, s');
    } else if m.kind in {MsgVoteResp, MsgPreVoteResp} {
      HandleVoteRespLocal(cfg, s, m);
    }
  }

  lemma LeadLocal(cfg: Config, s: Node, lead: nat)
    requires LocalInv(s) && s.role == Follower
    ensures LocalInv(s.(lead := lead)) && Onward(cfg, s, s.(lead := lead))
  {
    hide LedgerInv;
    SameLogKeeps(s);
    LedgerOf(s, s.(lead := lead));
  }

  lemma StepFollowerLocal(cfg: Config, s: Node, m: Message)
    requires LocalInv(s) && s.role == Follower && MessageWellFormed(m) && FromOther(s, m)
    requires m.term == s.term || m.kind !in {MsgApp, MsgHeartbeat}
    requires m.kind == MsgProp ==> m.term <= s.term
    requires StepFollower(cfg, s, m).Ok?
    ensures LocalInv(StepFollower(cfg, s, m).value) && Onward(cfg, s, StepFollower(cfg, s, m).value)
  {
    var s' := StepFollower(cfg, s, m).value;
    LeadLocal(cfg, s, m.from);
    LeadLocal(cfg, s, s.lead);
    var s1 := s.(lead := m.from);
    hide LocalInv, Onward, HandleAppend, HandleHeartbeat;
    if m.kind == MsgProp {
      if s.lead != 0 && !cfg.disableForwarding {
        AnswerLocal(cfg, s, s, m.(to := s.lead));
      }
    } else if m.kind == MsgApp {
      HandleAppendLocal(cfg, s1, m);
      JoinOnward(cfg, s, s1, s');
    } else if m.kind == MsgHeartbeat {
      HandleHeartbeatLocal(cfg, s1, m);
      JoinOnward(cfg, s, s1, s');
    }
  }

  lemma BcastHeartbeatLocal(cfg: Config, s: Node)
    requires LocalInv(s) && s.role == Leader
    ensures LocalInv(BcastHeartbeat(s)) && Onward(cfg, s, BcastHeartbeat(s))
  {
    var r := BcastHeartbeat(s);
    assert Addressed(r);
    SteadyRefl(s);
    SendingIsSteady(s, s, r.msgs);
    hide LedgerInv, FlowInv, Steady;
    SteadyLeadsOn(cfg, s, r);
  }

  lemma StepLeaderLocal(cfg: Config, s: Node, m: Message)
    requires LocalInv(s) && s.role == Leader && FromOther(s, m) && StepLeader(cfg, s, m).Ok?
    ensures LocalInv(StepLeader(cfg, s, m).value) && Onward(cfg, s, StepLeader(cfg, s, m).value)
  {
    hide FlowInv, LedgerInv, Propose, StepPeer, Onward, BcastHeartbeat, BecomeFollower, Steady;
    var s' := StepLeader(cfg, s, m).value;
    OnwardRefl(cfg, s);
    if m.kind == MsgBeat {
      BcastHeartbeatLocal(cfg, s);
    } else if m.kind == MsgCheckQuorum {
      BecomeFollowerLocal(cfg, s, s.term, 0);
    } else if m.kind == MsgProp {
      ProposeLeadsOn(cfg, s, m);
    } else if m.from in s.prs {
      StepPeerSteady(cfg, s, m);
      SteadyLeadsOn(cfg, s, s');
    }
  }

  lemma DispatchLocal(cfg: Config, s: Node, m: Message)
    requires LocalInv(s) && MessageWellFormed(m) && FromOther(s, m) && Dispatch(cfg, s, m).Ok?
    requires m.term == s.term || m.kind !in {MsgApp, MsgHeartbeat}
    requires m.kind in {MsgVote, MsgProp} ==> m.term <= s.term
    ensures LocalInv(Dispatch(cfg, s, m).value) && Onward(cfg, s, Dispatch(cfg, s, m).value)
  {
    hide LocalInv, Onward, Hup, HandleVote, StepLeader, StepFollower, StepCandidate, MessageWellFormed, FromOther;
    if m.kind == MsgHup {
      HupLocal(cfg, s);
    } else if m.kind in {MsgVote, MsgPreVote} {
      HandleVoteLocal(cfg, s, m);
    } else if s.role == Leader {
      StepLeaderLocal(cfg, s, m);
    } else if s.role == Follower {
      StepFollowerLocal(cfg, s, m);
    } else {
      StepCandidateLocal(cfg, s, m);
    }
  }

  /** Whatever message arrives, Raft::step keeps the node's own invariant and moves it onward. */
  lemma StepLocal(cfg: Config, s: Node, m: Message, recent: bool)
    requires LocalInv(s) && MessageWellFormed(m) && FromOther(s, m) && Step(cfg, s, m, recent).Ok?
    ensures LocalInv(Step(cfg, s, m, recent).value) && Onward(cfg, s, Step(cfg, s, m, recent).value)
  {
    hide LocalInv, Onward, Dispatch, BecomeFollower, MessageWellFormed, FromOther, SentBy;
    var s' := Step(cfg, s, m, recent).value;
    OnwardRefl(cfg, s);
    TimelyTerm(s, m);
    if m.term == 0 || m.term == s.term {
      DispatchLocal(cfg, s, m);
    } else if m.term > s.term {
      if m.kind in {MsgVote, MsgPreVote} && cfg.checkQuorum && s.lead != 0 && recent {
      } else if m.kind == MsgPreVote || (m.kind == MsgPreVoteResp && !m.reject) {
        DispatchLocal(cfg, s, m);
      } else {
        var lead := if m.kind in {MsgApp, MsgHeartbeat} then m.from else 0;
        var s1 := BecomeFollower(cfg, s, m.term, lead);
        BecomeFollowerLocal(cfg, s, m.term, lead);
        FollowerRole(cfg, s, m.term, lead);
        StillFromOther(s, s1, m);
        DispatchLocal(cfg, s1, m);
        LaterTermOnward(cfg, s, s1, s');
      }
    } else if (cfg.checkQuorum || cfg.preVote) && m.kind in {MsgHeartbeat, MsgApp} {
      StaleAnswer(s, m);
      AnswerLocal(cfg, s, s, EMPTY_MESSAGE.(to := m.from, kind := MsgAppResp));
    } else if m.kind == MsgPreVote {
      StaleAnswer(s, m);
      AnswerLocal(cfg, s, s, EMPTY_MESSAGE.(to := m.from, kind := MsgPreVoteResp, reject := true, term := s.term));
    }
  }

  lemma TimelyTerm(s: Node, m: Message)
    requires FromOther(s, m)
    ensures m.kind in {MsgApp, MsgHeartbeat} ==> m.term >= 1
  {
  }

  lemma StillFromOther(s: Node, s': Node, m: Message)
    requires FromOther(s, m) && s'.id == s.id
    ensures FromOther(s', m)
  {
  }

  /** What a node tells the sender of an old message. */
  lemma StaleAnswer(s: Node, m: Message)
    requires FromOther(s, m)
    ensures m.kind in {MsgApp, MsgHeartbeat} ==>
              SentBy(s.id, s.term, s.role, Stamp(s, EMPTY_MESSAGE.(to := m.from, kind := MsgAppResp)))
    ensures SentBy(s.id, s.term, s.role, Stamp(s, EMPTY_MESSAGE.(to := m.from, kind := MsgPreVoteResp, reject := true, term := s.term)))
  {
  }

  lemma FollowerRole(cfg: Config, s: Node, term: nat, lead: nat)
    ensures BecomeFollower(cfg, s, term, lead).role == Follower && BecomeFollower(cfg, s, term, lead).log == s.log
  {
  }

  lemma OnwardRefl(cfg: Config, s: Node)
    requires LocalInv(s)
    ensures Onward(cfg, s, s)
  {
    LeadsOnRefl(cfg, s);
  }

  lemma LaterTermOnward(cfg: Config, s: Node, s1: Node, s2: Node)
    requires Onward(cfg, s, s1) && Onward(cfg, s1, s2) && s.term < s1.term && s1.role == Follower
    requires s1.log == s.log
    ensures Onward(cfg, s, s2)
  {
  }

  // ---------------------------------------------------------------- ready

  /** The entries a Ready hands out weigh less than 2^32 bytes, as the 32-bit sum assumes. */
  ghost predicate SmallBatch(cfg: Config, s: Node) {
    CursorsOk(s.log) ==> PayloadSize(NextEntries(cfg, s.log)) < 0x1_0000_0000
  }

  lemma NextEntriesShape(cfg: Config, l: Log)
    requires CursorsOk(l)
    ensures var es := NextEntries(cfg, l);
            && l.applied + |es| <= l.committed
            && es == l.ents[l.applied - l.base..l.applied - l.base + |es|]
            && (es != [] ==> es[|es| - 1].index == l.applied + |es|)
  {
    hide LimitSize;
    var all := l.ents[l.applied - l.base..l.committed - l.base];
    var es := NextEntries(cfg, l);
    assert es == all[..|es|];
    if es != [] {
      assert es[|es| - 1] == all[|es| - 1] == l.ents[l.applied - l.base + |es| - 1];
    }
  }

  lemma ReadyShape(cfg: Config, s: Node)
    requires CursorsOk(s.log)
    ensures var es := NextEntries(cfg, s.log);
            var r := ReadyRound(cfg, s);
            && r.log == s.log.(applied := s.log.applied + |es|)
            && r.uncommitted == (if Wrap32(PayloadSize(es)) > s.uncommitted then 0 else s.uncommitted - Wrap32(PayloadSize(es)))
            && r == s.(log := r.log, uncommitted := r.uncommitted)
  {
    NextEntriesShape(cfg, s.log);
    assert PayloadSize([]) == 0;
    hide NextEntries, PayloadSize;
  }

  lemma WaitingFalls(l: Log, n: nat)
    requires CursorsOk(l) && l.base == 0 && l.applied + n <= |l.ents|
    ensures Waiting(l) == PayloadSize(l.ents[l.applied..l.applied + n]) + Waiting(l.(applied := l.applied + n))
  {
    assert l.ents[l.applied..] == l.ents[l.applied..l.applied + n] + l.ents[l.applied + n..];
    PayloadSizeConcat(l.ents[l.applied..l.applied + n], l.ents[l.applied + n..]);
  }

  /** The counter after a Ready, against what is then still waiting. */
  lemma ReadyCounter(cfg: Config, s: Node)
    requires CursorsOk(s.log) && s.uncommitted <= Waiting(s.log) && SmallBatch(cfg, s)
    ensures ReadyRound(cfg, s).uncommitted <= Waiting(ReadyRound(cfg, s).log)
  {
    hide ReadyRound, NextEntries, PayloadSize, Waiting;
    var es := NextEntries(cfg, s.log);
    ReadyShape(cfg, s);
    NextEntriesShape(cfg, s.log);
    WaitingFalls(s.log, |es|);
    assert Wrap32(PayloadSize(es)) == PayloadSize(es);
  }

  /** Handing out entries keeps the invariant too. */
  lemma ReadyLocal(cfg: Config, s: Node)
    requires LocalInv(s)
    ensures LocalInv(ReadyRound(cfg, s))
  {
    hide ReadyRound, NextEntries, PayloadSize, PeersOk;
    ReadyShape(cfg, s);
    NextEntriesShape(cfg, s.log);
  }

  /** And a message keeps the counter within what is waiting. */
  lemma OnwardCounter(cfg: Config, s: Node, s': Node)
    requires CursorsOk(s.log) && s.uncommitted <= Waiting(s.log) && Onward(cfg, s, s')
    ensures s'.uncommitted <= Waiting(s'.log)
  {
    if s'.uncommitted > 0 {
      var batch := s'.log.ents[|s.log.ents|..];
      assert s'.log.ents == s.log.ents + batch;
      hide Gated, Raised;
      assert s'.log.ents[s.log.applied..] == s.log.ents[s.log.applied..] + batch;
      PayloadSizeConcat(s.log.ents[s.log.applied..], batch);
    }
  }
}
