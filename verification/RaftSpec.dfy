/** One Raft node as a state machine (raft-kv/raft/raft.cpp): each handler is a function from the node
    and an input to the next node. Membership is fixed and nothing is compacted. Outgoing messages are
    collected as a set, since the network may reorder and duplicate them. */
module RaftSpec {
  import opened Proto
  import opened LogSpec
  import opened ProgressSpec
  import opened Quorum

  datatype Config = Config(
    maxMsgSize: nat, maxReadySize: nat, maxUncommitted: nat, maxInflight: nat,
    checkQuorum: bool, preVote: bool, disableForwarding: bool, leaseReads: bool)

  datatype Role = Follower | PreCandidate | Candidate | Leader

  datatype NodeState = NodeState(
    id: nat, term: nat, vote: nat, role: Role, lead: nat, log: Log, votes: map<nat, bool>,
    prs: map<nat, Progress>, pendingConf: nat, uncommitted: nat, msgs: set<Message>)

  predicate WellFormed(s: NodeState) {
    s.log.base == 0 && s.log.baseTerm == 0 && s.id in s.prs
  }

  type Node = s: NodeState | WellFormed(s)
    witness NodeState(1, 0, 0, Follower, 0, RawLog(0, 0, [], 0, 0), map[],
                      map[1 := NewProgress(0, 1, false, 1)], 0, 0, {})

  /** No handler changes who the node is or whom it tracks. */
  predicate Same(s: Node, s': Node) {
    s'.id == s.id && s'.prs.Keys == s.prs.Keys
  }

  predicate IsCandidate(s: Node) {
    s.role == PreCandidate || s.role == Candidate
  }

  function NodeQuorum(s: Node): nat {
    QuorumSize(|s.prs|)
  }

  function Matches(prs: map<nat, Progress>): map<nat, nat> {
    map v | v in prs :: prs[v].matched
  }

  // ---------------------------------------------------------------- sending

  predicate IsVoteKind(kind: MsgType) {
    kind in {MsgVote, MsgVoteResp, MsgPreVote, MsgPreVoteResp}
  }

  /** What Raft::send makes of a message: the sender and, except for votes and proposals, the term. */
  function Stamp(s: Node, m: Message): Message {
    m.(from := s.id, term := if IsVoteKind(m.kind) || m.kind == MsgProp then m.term else s.term)
  }

  /** Raft::send: a vote message without a term, or another message with one, is fatal. */
  function Send(s: Node, m: Message): (r: Result<Node>)
    ensures r.Ok? ==> Same(s, r.value)
  {
    if IsVoteKind(m.kind) != (m.term != 0) then Fatal
    else Ok(s.(msgs := s.msgs + {Stamp(s, m)}))
  }

  /** Raft::maybe_send_append for one peer: its next progress and the message, if one is sent.
      Without compaction the term and entry lookups cannot fail, so no snapshot is sent. */
  function AppendTo(cfg: Config, s: Node, to: nat, p: Progress, sendIfEmpty: bool)
    : (r: (Progress, Option<Message>))
  {
    if IsPaused(p) then (p, None)
    else
      var es := EntriesFrom(s.log, p.next, cfg.maxMsgSize);
      if es == [] && !sendIfEmpty then (p, None)
      else
        var m := EMPTY_MESSAGE.(
          kind := MsgApp, to := to, index := p.next - 1, logTerm := s.log.TermAt(p.next - 1),
          entries := es, commit := s.log.committed);
        var p' := if es == [] then p
                  else if p.state == Replicate then OptimisticSend(p, es[|es| - 1].index)
                  else p.(paused := true);
        (p', Some(Stamp(s, m)))
  }

  function MaybeSendAppend(cfg: Config, s: Node, to: nat, sendIfEmpty: bool): (r: (Node, bool))
    requires to in s.prs
  {
    var (p, m) := AppendTo(cfg, s, to, s.prs[to], sendIfEmpty);
    (s.(prs := s.prs[to := p], msgs := if m.Some? then s.msgs + {m.value} else s.msgs), m.Some?)
  }

  function SendAppend(cfg: Config, s: Node, to: nat): (r: Node)
    requires to in s.prs
    ensures Same(s, r)
  {
    MaybeSendAppend(cfg, s, to, true).0
  }

  /** How many more non-empty appends the send loop can produce. */
  function SendBudget(s: Node, to: nat): nat
    requires to in s.prs
  {
    var p := s.prs[to];
    if p.state == Replicate then (if p.next <= s.log.Last() then s.log.Last() + 1 - p.next else 0)
    else if p.state == Probe && !p.paused then 1 else 0
  }

  lemma SendShrinksBudget(cfg: Config, s: Node, to: nat)
    requires to in s.prs
    ensures var (s', sent) := MaybeSendAppend(cfg, s, to, false);
            sent ==> SendBudget(s', to) < SendBudget(s, to)
  {
    var es := EntriesFrom(s.log, s.prs[to].next, cfg.maxMsgSize);
    if es != [] {
      var next := s.prs[to].next;
      assert es[|es| - 1] == s.log.ents[next - 1..][|es| - 1];
    }
  }

  /** The loop `while (maybe_send_append(to, false))`. */
  function SendAll(cfg: Config, s: Node, to: nat): (r: Node)
    requires to in s.prs
    ensures Same(s, r)
    decreases SendBudget(s, to)
  {
    var (s', sent) := MaybeSendAppend(cfg, s, to, false);
    SendShrinksBudget(cfg, s, to);
    if sent then SendAll(cfg, s', to) else s'
  }

  function BcastAppend(cfg: Config, s: Node): (r: Node)
    ensures Same(s, r)
  {
    s.(prs := map v | v in s.prs ::
                if v == s.id then s.prs[v] else AppendTo(cfg, s, v, s.prs[v], true).0,
       msgs := s.msgs + set v | v in s.prs && v != s.id && AppendTo(cfg, s, v, s.prs[v], true).1.Some?
                          :: AppendTo(cfg, s, v, s.prs[v], true).1.value)
  }

  function Heartbeat(s: Node, to: nat): Message
    requires to in s.prs
  {
    Stamp(s, EMPTY_MESSAGE.(kind := MsgHeartbeat, to := to, commit := Min(s.prs[to].matched, s.log.committed)))
  }

  function BcastHeartbeat(s: Node): Node {
    s.(msgs := s.msgs + set v | v in s.prs && v != s.id :: Heartbeat(s, v))
  }

  // ---------------------------------------------------------------- roles

  /** Every peer starts afresh right after the last index. */
  function FreshPeers(cfg: Config, prs: map<nat, Progress>, id: nat, last: nat): map<nat, Progress> {
    map v | v in prs :: NewProgress(if v == id then last else 0, last + 1, false, cfg.maxInflight)
  }

  function Reset(cfg: Config, s: Node, term: nat): Node {
    s.(term := term, vote := if s.term != term then 0 else s.vote, lead := 0, votes := map[],
       prs := FreshPeers(cfg, s.prs, s.id, s.log.Last()),
       pendingConf := 0, uncommitted := 0)
  }

  function BecomeFollower(cfg: Config, s: Node, term: nat, lead: nat): (r: Node)
    ensures Same(s, r) && r.term == term
  {
    Reset(cfg, s, term).(lead := lead, role := Follower)
  }

  function BecomeCandidate(cfg: Config, s: Node): Node
    requires s.role != Leader
  {
    Reset(cfg, s, s.term + 1).(vote := s.id, role := Candidate)
  }

  function BecomePreCandidate(s: Node): Node
    requires s.role != Leader
  {
    s.(votes := map[], lead := 0, role := PreCandidate)
  }

  /** Raft::maybe_commit. */
  ghost function AdvanceCommit(s: Node): (r: Result<(Node, bool)>)
    ensures r.Ok? ==> Same(s, r.value.0)
  {
    assert s.id in Matches(s.prs);
    var (l, changed) :- MaybeCommit(s.log, QuorumIndex(Matches(s.prs)), s.term);
    Ok((s.(log := l), changed))
  }

  /** Raft::append_entry numbers and stamps the batch. */
  function StampEntries(s: Node, es: seq<Entry>): (r: seq<Entry>)
    ensures |r| == |es| && Contiguous(r, s.log.Last() + 1)
  {
    seq(|es|, i requires 0 <= i < |es| => Entry(es[i].kind, s.term, s.log.Last() + 1 + i, es[i].data))
  }

  /** Raft::increase_uncommitted_size: whether the batch is within the limit. */
  predicate WithinLimit(cfg: Config, s: Node, ents: seq<Entry>) {
    s.uncommitted == 0 || s.uncommitted + Wrap32(PayloadSize(ents)) <= cfg.maxUncommitted
  }

  /** Raft::reduce_uncommitted_size. */
  function ReduceUncommitted(s: Node, ents: seq<Entry>): Node {
    var size := Wrap32(PayloadSize(ents));
    s.(uncommitted := if size > s.uncommitted then 0 else s.uncommitted - size)
  }

  /** Raft::append_entry; false means the uncommitted-size limit dropped the batch. */
  ghost function AppendEntry(cfg: Config, s: Node, es: seq<Entry>): (r: Result<(Node, bool)>)
    ensures r.Ok? ==> Same(s, r.value.0)
  {
    var ents := StampEntries(s, es);
    if !WithinLimit(cfg, s, ents) then Ok((s, false))
    else
      var l :- Append(s.log, s.log.Last() + 1, ents);
      var s1 := s.(uncommitted := s.uncommitted + Wrap32(PayloadSize(ents)), log := l,
                   prs := s.prs[s.id := MaybeUpdate(s.prs[s.id], l.Last()).0]);
      var (s2, _) :- AdvanceCommit(s1);
      Ok((s2, true))
  }

  const EMPTY_ENTRY := Entry(Normal, 0, 0, [])

  ghost function BecomeLeader(cfg: Config, s: Node): (r: Result<Node>)
    requires s.role != Follower
    ensures r.Ok? ==> Same(s, r.value)
  {
    var s1 := Reset(cfg, s, s.term).(lead := s.id, role := Leader);
    var s2 := s1.(prs := s1.prs[s.id := BecomeReplicate(s1.prs[s.id])], pendingConf := s1.log.Last());
    var (s3, kept) :- AppendEntry(cfg, s2, [EMPTY_ENTRY]);
    if !kept then Fatal else Ok(ReduceUncommitted(s3, [EMPTY_ENTRY]))
  }

  // ---------------------------------------------------------------- elections

  function GrantedBy(votes: map<nat, bool>): set<nat> {
    set v | v in votes && votes[v]
  }

  /** Raft::poll records the first answer of each peer. */
  function Poll(s: Node, from: nat, granted: bool): Node {
    if from in s.votes then s else s.(votes := s.votes[from := granted])
  }

  function VoteRequest(s: Node, kind: MsgType, term: nat, to: nat): Message {
    EMPTY_MESSAGE.(kind := kind, to := to, from := s.id, term := term,
                   index := s.log.Last(), logTerm := s.log.LastTerm())
  }

  function RequestVotes(s: Node, kind: MsgType, term: nat): Node {
    s.(msgs := s.msgs + set v | v in s.prs && v != s.id :: VoteRequest(s, kind, term, v))
  }

  /** Raft::campaign for a real election. */
  ghost function Campaign(cfg: Config, s: Node): (r: Result<Node>)
    requires s.role != Leader
    ensures r.Ok? ==> Same(s, r.value)
  {
    var s1 := Poll(BecomeCandidate(cfg, s), s.id, true);
    if |GrantedBy(s1.votes)| == NodeQuorum(s1) then BecomeLeader(cfg, s1)
    else Ok(RequestVotes(s1, MsgVote, s1.term))
  }

  /** Raft::campaign for the pre-election. */
  ghost function PreCampaign(cfg: Config, s: Node): (r: Result<Node>)
    requires s.role != Leader
    ensures r.Ok? ==> Same(s, r.value)
  {
    var s1 := Poll(BecomePreCandidate(s), s.id, true);
    if |GrantedBy(s1.votes)| == NodeQuorum(s1) then Campaign(cfg, s1)
    else Ok(RequestVotes(s1, MsgPreVote, s1.term + 1))
  }

  /** A committed configuration change is still waiting to be applied. */
  predicate HasPendingConf(l: Log)
    requires CursorsOk(l)
  {
    exists k :: l.applied - l.base <= k < l.committed - l.base && l.ents[k].kind == ConfChange
  }

  /** MsgHup; reading the unapplied entries with cursors out of order is fatal. */
  ghost function Hup(cfg: Config, s: Node): (r: Result<Node>)
    ensures r.Ok? ==> Same(s, r.value)
  {
    if s.role == Leader then Ok(s)
    else if !CursorsOk(s.log) then Fatal
    else if HasPendingConf(s.log) then Ok(s)
    else if cfg.preVote then PreCampaign(cfg, s)
    else Campaign(cfg, s)
  }

  predicate CanVote(s: Node, m: Message) {
    || s.vote == m.from
    || (s.vote == 0 && s.lead == 0)
    || (m.kind == MsgPreVote && m.term > s.term)
  }

  function VoteResponseKind(kind: MsgType): MsgType {
    if kind == MsgVote then MsgVoteResp else MsgPreVoteResp
  }

  /** MsgVote and MsgPreVote. */
  function HandleVote(s: Node, m: Message): (r: Result<Node>)
    ensures r.Ok? ==> Same(s, r.value)
  {
    var resp := EMPTY_MESSAGE.(to := m.from, kind := VoteResponseKind(m.kind));
    if CanVote(s, m) && IsUpToDate(s.log, m.index, m.logTerm) then
      var s1 :- Send(s, resp.(term := m.term));
      Ok(if m.kind == MsgVote then s1.(vote := m.from) else s1)
    else
      Send(s, resp.(term := s.term, reject := true))
  }

  // ---------------------------------------------------------------- replication

  /** Raft::handle_append_entries. */
  function HandleAppend(s: Node, m: Message): (r: Result<Node>)
    requires Contiguous(m.entries, m.index + 1)
    ensures r.Ok? ==> Same(s, r.value)
  {
    var resp := EMPTY_MESSAGE.(to := m.from, kind := MsgAppResp);
    if m.index < s.log.committed then
      Send(s, resp.(index := s.log.committed))
    else
      match MaybeAppend(s.log, m.index, m.logTerm, m.commit, m.entries)
      case Aborted => Fatal
      case Accepted(l, lastNew) => Send(s.(log := l), resp.(index := lastNew))
      case Rejected => Send(s, resp.(index := m.index, reject := true, rejectHint := s.log.Last()))
  }

  /** Raft::handle_heartbeat. */
  function HandleHeartbeat(s: Node, m: Message): (r: Result<Node>)
    ensures r.Ok? ==> Same(s, r.value)
  {
    var l :- CommitTo(s.log, m.commit);
    Send(s.(log := l), EMPTY_MESSAGE.(to := m.from, kind := MsgHeartbeatResp))
  }

  /** The voters heard from, counting the leader itself. */
  function ActiveVoters(s: Node): set<nat> {
    set v | v in s.prs && (v == s.id || s.prs[v].recentActive)
  }

  /** The loop of step_leader that lets at most one configuration change through: later ones become
      empty entries. */
  function GateConf(es: seq<Entry>, pending: nat, applied: nat, at: nat): (r: (seq<Entry>, nat))
    ensures |r.0| == |es|
    decreases |es|
  {
    if es == [] then ([], pending)
    else if es[0].kind == ConfChange && pending > applied then
      var (rest, p) := GateConf(es[1..], pending, applied, at + 1);
      ([EMPTY_ENTRY] + rest, p)
    else
      var (rest, p) := GateConf(es[1..], if es[0].kind == ConfChange then at else pending, applied, at + 1);
      ([es[0]] + rest, p)
  }

  /** MsgProp at the leader. */
  ghost function Propose(cfg: Config, s: Node, m: Message): (r: Result<Node>)
    ensures r.Ok? ==> Same(s, r.value)
  {
    if m.entries == [] then Fatal
    else
      var (es, pending) := GateConf(m.entries, s.pendingConf, s.log.applied, s.log.Last() + 1);
      var (s1, kept) :- AppendEntry(cfg, s.(pendingConf := pending), es);
      Ok(if kept then BcastAppend(cfg, s1) else s1)
  }

  /** MsgAppResp at the leader, from a known peer. */
  ghost function HandleAppResp(cfg: Config, s: Node, m: Message): (r: Result<Node>)
    requires m.from in s.prs
    ensures r.Ok? ==> Same(s, r.value)
  {
    var p := s.prs[m.from].(recentActive := true);
    if m.reject then
      var (p1, lowered) := MaybeDecreaseTo(p, m.index, m.rejectHint);
      if !lowered then Ok(s.(prs := s.prs[m.from := p1]))
      else
        var p2 := if p1.state == Replicate then BecomeProbe(p1) else p1;
        Ok(SendAppend(cfg, s.(prs := s.prs[m.from := p2]), m.from))
    else
      var (p1, raised) := MaybeUpdate(p, m.index);
      if !raised then Ok(s.(prs := s.prs[m.from := p1]))
      else
        var p2 := match p1.state
                  case Probe => BecomeReplicate(p1)
                  case Snapshot => if NeedSnapshotAbort(p1) then BecomeProbe(p1) else p1
                  case Replicate => p1.(inflights := FreeTo(p1.inflights, m.index));
        var (s1, changed) :- AdvanceCommit(s.(prs := s.prs[m.from := p2]));
        var s2 := if changed then BcastAppend(cfg, s1)
                  else if IsPaused(p) then SendAppend(cfg, s1, m.from)
                  else s1;
        Ok(SendAll(cfg, s2, m.from))
  }

  /** MsgHeartbeatResp at the leader, from a known peer; the reply carries no read context. */
  function HandleHeartbeatResp(cfg: Config, s: Node, m: Message): (r: Node)
    requires m.from in s.prs
    ensures Same(s, r)
  {
    var p := s.prs[m.from].(recentActive := true, paused := false);
    var p1 := if p.state == Replicate && WindowFull(p) && p.inflights != []
              then p.(inflights := FreeTo(p.inflights, p.inflights[0])) else p;
    var s1 := s.(prs := s.prs[m.from := p1]);
    if p1.matched < s.log.Last() then SendAppend(cfg, s1, m.from) else s1
  }

  // ---------------------------------------------------------------- step

  /** The part of step_leader that needs the sender's progress. */
  ghost function StepPeer(cfg: Config, s: Node, m: Message): (r: Result<Node>)
    requires m.from in s.prs
    ensures r.Ok? ==> Same(s, r.value)
  {
    var p := s.prs[m.from];
    if m.kind == MsgAppResp then HandleAppResp(cfg, s, m)
    else if m.kind == MsgHeartbeatResp then Ok(HandleHeartbeatResp(cfg, s, m))
    else if m.kind == MsgUnreachable && p.state == Replicate then
      Ok(s.(prs := s.prs[m.from := BecomeProbe(p)]))
    else if m.kind == MsgSnapStatus && p.state == Snapshot then
      var p1 := if m.reject then p.(pendingSnapshot := 0) else p;
      Ok(s.(prs := s.prs[m.from := BecomeProbe(p1).(paused := true)]))
    else Ok(s)
  }

  ghost function StepLeader(cfg: Config, s: Node, m: Message): (r: Result<Node>)
    ensures r.Ok? ==> Same(s, r.value)
  {
    if m.kind == MsgBeat then Ok(BcastHeartbeat(s))
    else if m.kind == MsgCheckQuorum then
      Ok(if |ActiveVoters(s)| < NodeQuorum(s) then BecomeFollower(cfg, s, s.term, 0) else s)
    else if m.kind == MsgProp then Propose(cfg, s, m)
    else if m.from in s.prs then StepPeer(cfg, s, m)
    else Ok(s)
  }

  /** A vote answer at a candidate or pre-candidate: both kinds are counted in the same tally. */
  ghost function HandleVoteResp(cfg: Config, s: Node, m: Message): (r: Result<Node>)
    requires IsCandidate(s)
    ensures r.Ok? ==> Same(s, r.value)
  {
    var s1 := Poll(s, m.from, !m.reject);
    var granted := |GrantedBy(s1.votes)|;
    if granted == NodeQuorum(s1) then
      if s1.role == PreCandidate then Campaign(cfg, s1)
      else
        var s2 :- BecomeLeader(cfg, s1);
        Ok(BcastAppend(cfg, s2))
    else if |s1.votes| - granted == NodeQuorum(s1) then Ok(BecomeFollower(cfg, s1, s1.term, 0))
    else Ok(s1)
  }

  ghost function StepCandidate(cfg: Config, s: Node, m: Message): (r: Result<Node>)
    requires IsCandidate(s)
    requires MessageWellFormed(m)
    ensures r.Ok? ==> Same(s, r.value)
  {
    if m.kind == MsgApp then HandleAppend(BecomeFollower(cfg, s, m.term, m.from), m)
    else if m.kind == MsgHeartbeat then HandleHeartbeat(BecomeFollower(cfg, s, m.term, m.from), m)
    else if m.kind in {MsgVoteResp, MsgPreVoteResp} then HandleVoteResp(cfg, s, m)
    else Ok(s)
  }

  function StepFollower(cfg: Config, s: Node, m: Message): (r: Result<Node>)
    requires MessageWellFormed(m)
    ensures r.Ok? ==> Same(s, r.value)
  {
    if m.kind == MsgProp then
      if s.lead == 0 || cfg.disableForwarding then Ok(s) else Send(s, m.(to := s.lead))
    else if m.kind == MsgApp then HandleAppend(s.(lead := m.from), m)
    else if m.kind == MsgHeartbeat then HandleHeartbeat(s.(lead := m.from), m)
    else Ok(s)
  }

  /** The second half of Raft::step, once the message's term has been settled. */
  ghost function Dispatch(cfg: Config, s: Node, m: Message): (r: Result<Node>)
    requires MessageWellFormed(m)
    ensures r.Ok? ==> Same(s, r.value)
  {
    if m.kind == MsgHup then Hup(cfg, s)
    else if m.kind in {MsgVote, MsgPreVote} then HandleVote(s, m)
    else if s.role == Leader then StepLeader(cfg, s, m)
    else if s.role == Follower then StepFollower(cfg, s, m)
    else StepCandidate(cfg, s, m)
  }

  /** Raft::step. `recent` stands for "less than one election timeout since a leader was heard". */
  ghost function Step(cfg: Config, s: Node, m: Message, recent: bool): (r: Result<Node>)
    requires MessageWellFormed(m)
    ensures r.Ok? ==> Same(s, r.value)
  {
    if m.term == 0 || m.term == s.term then Dispatch(cfg, s, m)
    else if m.term > s.term then
      if m.kind in {MsgVote, MsgPreVote} && cfg.checkQuorum && s.lead != 0 && recent then Ok(s)
      else if m.kind == MsgPreVote || (m.kind == MsgPreVoteResp && !m.reject) then Dispatch(cfg, s, m)
      else
        var lead := if m.kind in {MsgApp, MsgHeartbeat} then m.from else 0;
        Dispatch(cfg, BecomeFollower(cfg, s, m.term, lead), m)
    else if (cfg.checkQuorum || cfg.preVote) && m.kind in {MsgHeartbeat, MsgApp} then
      Send(s, EMPTY_MESSAGE.(to := m.from, kind := MsgAppResp))
    else if m.kind == MsgPreVote then
      Send(s, EMPTY_MESSAGE.(to := m.from, kind := MsgPreVoteResp, reject := true, term := s.term))
    else Ok(s)
  }

  // ---------------------------------------------------------------- ready

  /** RaftLog::next_entries: the committed entries handed out by one Ready. */
  function NextEntries(cfg: Config, l: Log): seq<Entry>
    requires CursorsOk(l)
  {
    Slice(l, l.applied + 1, l.committed + 1, cfg.maxReadySize)
  }

  /** One ready/advance round as it shows in the node: entries are handed out, the size counter
      falls and the applied cursor moves past them. */
  function ReadyRound(cfg: Config, s: Node): (r: Node)
    requires CursorsOk(s.log)
    ensures Same(s, r)
  {
    var es := NextEntries(cfg, s.log);
    if es == [] then s
    else ReduceUncommitted(s, es).(log := s.log.(applied := es[|es| - 1].index))
  }
}
