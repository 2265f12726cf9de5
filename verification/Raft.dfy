/** The Raft node as the source has it (raft-kv/raft/raft.cpp): an object whose handlers update its
    fields and its two-layer log in place, with loops over its peers, votes and entries. Every method is
    proved to do to `View()` what the function of the same name in RaftSpec does; where the source
    aborts in a fatal check the method returns false. */
module RaftNodeImpl {
  import opened Proto
  import opened LogSpec
  import opened ProgressSpec
  import opened RaftSpec
  import opened Quorum
  import opened LogLayers
  import opened TwoLayerLog
  import opened ClusterSpec
  import opened ReadQueue
  import Steps
  import Leadership
  import Theorems
  import opened ReadyRounds
  import Flow

  function Elements(ms: seq<Message>): set<Message> {
    set m | m in ms
  }

  lemma OneMoreElement(ms: seq<Message>, m: Message)
    ensures Elements(ms + [m]) == Elements(ms) + {m}
  {
  }

  // ---------------------------------------------------------------- what loops over peers have done so far

  /** bcast_append after the peers in `done`. */
  function PartlyBcast(cfg: Config, s: Node, done: set<nat>): Node {
    s.(prs := map v | v in s.prs ::
                if v in done && v != s.id then AppendTo(cfg, s, v, s.prs[v], true).0 else s.prs[v],
       msgs := s.msgs + set v | v in s.prs && v in done && v != s.id && AppendTo(cfg, s, v, s.prs[v], true).1.Some?
                          :: AppendTo(cfg, s, v, s.prs[v], true).1.value)
  }

  lemma PartlyBcastEnds(cfg: Config, s: Node)
    ensures PartlyBcast(cfg, s, {}) == s && PartlyBcast(cfg, s, s.prs.Keys) == BcastAppend(cfg, s)
  {
    hide AppendTo;
    assert PartlyBcast(cfg, s, {}).prs == s.prs;
    assert PartlyBcast(cfg, s, {}).msgs == s.msgs;
    assert PartlyBcast(cfg, s, s.prs.Keys).prs == BcastAppend(cfg, s).prs;
    assert PartlyBcast(cfg, s, s.prs.Keys).msgs == BcastAppend(cfg, s).msgs;
  }

  /** An append depends on the log, the term and the sender only. */
  lemma AppendToSame(cfg: Config, s: Node, s': Node, to: nat, p: Progress)
    requires s'.log == s.log && s'.id == s.id && s'.term == s.term
    ensures AppendTo(cfg, s', to, p, true) == AppendTo(cfg, s, to, p, true)
  {
  }

  lemma PartlyBcastStep(cfg: Config, s: Node, done: set<nat>, v: nat)
    requires v in s.prs && v !in done
    ensures var s1 := PartlyBcast(cfg, s, done);
            && v in s1.prs
            && PartlyBcast(cfg, s, done + {v}) == if v == s.id then s1 else SendAppend(cfg, s1, v)
  {
    hide AppendTo;
    var s1, s2 := PartlyBcast(cfg, s, done), PartlyBcast(cfg, s, done + {v});
    AppendToSame(cfg, s, s1, v, s.prs[v]);
    var r := if v == s.id then s1 else SendAppend(cfg, s1, v);
    assert s2.prs == r.prs;
    assert s2.msgs == r.msgs;
  }

  /** bcast_heartbeat after the peers in `done`. */
  function PartlyBeat(s: Node, done: set<nat>): Node {
    s.(msgs := s.msgs + set v | v in s.prs && v in done && v != s.id :: Heartbeat(s, v))
  }

  lemma PartlyBeatEnds(s: Node)
    ensures PartlyBeat(s, {}) == s && PartlyBeat(s, s.prs.Keys) == BcastHeartbeat(s)
  {
    hide Heartbeat;
    assert PartlyBeat(s, {}).msgs == s.msgs;
    assert PartlyBeat(s, s.prs.Keys).msgs == BcastHeartbeat(s).msgs;
  }

  lemma PartlyBeatStep(s: Node, done: set<nat>, v: nat)
    requires v in s.prs
    ensures PartlyBeat(s, done + {v}).msgs == PartlyBeat(s, done).msgs + if v == s.id then {} else {Heartbeat(s, v)}
  {
    hide Heartbeat;
  }

  /** The vote requests of campaign after the peers in `done`. */
  function PartlyAsked(s: Node, kind: MsgType, term: nat, done: set<nat>): Node {
    s.(msgs := s.msgs + set v | v in s.prs && v in done && v != s.id :: VoteRequest(s, kind, term, v))
  }

  lemma PartlyAskedEnds(s: Node, kind: MsgType, term: nat)
    ensures PartlyAsked(s, kind, term, {}) == s && PartlyAsked(s, kind, term, s.prs.Keys) == RequestVotes(s, kind, term)
  {
    hide VoteRequest;
    assert PartlyAsked(s, kind, term, {}).msgs == s.msgs;
    assert PartlyAsked(s, kind, term, s.prs.Keys).msgs == RequestVotes(s, kind, term).msgs;
  }

  lemma PartlyAskedStep(s: Node, kind: MsgType, term: nat, done: set<nat>, v: nat)
    requires v in s.prs
    ensures PartlyAsked(s, kind, term, done + {v}).msgs ==
            PartlyAsked(s, kind, term, done).msgs + if v == s.id then {} else {VoteRequest(s, kind, term, v)}
  {
    hide VoteRequest;
  }

  function GrantedAmong(votes: map<nat, bool>, among: set<nat>): set<nat>
    requires among <= votes.Keys
  {
    set v | v in among && votes[v]
  }

  function ActiveAmong(s: Node, among: set<nat>): set<nat>
    requires among <= s.prs.Keys
  {
    set v | v in among && (v == s.id || s.prs[v].recentActive)
  }

  class Raft {
    const cfg: Config
    const id: nat
    const raftLog: RaftLog
    const readOnly: ReadOnly
    var term: nat
    var vote: nat
    var role: Role
    var lead: nat
    var votes: map<nat, bool>
    var prs: map<nat, Progress>
    var pendingConf: nat
    var uncommitted: nat
    var msgs: seq<Message>

    /** Nothing has been compacted, the node is one of its own peers, and the pending reads are in the order
        of their indices, none past the commit cursor. */
    ghost predicate Valid()
      reads this, raftLog, raftLog.storage, raftLog.unstable, readOnly
    {
      && raftLog.Valid() && raftLog.View().base == 0 && raftLog.View().baseTerm == 0
      && id in prs
      && readOnly.Valid() && readOnly.Ordered(raftLog.committed)
    }

    ghost function View(): (s: Node)
      reads this, raftLog, raftLog.storage, raftLog.unstable, readOnly
      requires Valid()
    {
      NodeState(id, term, vote, role, lead, raftLog.View(), votes, prs, pendingConf, uncommitted, Elements(msgs))
    }

    /** A node on an empty storage: the initial node of the cluster. */
    constructor (c: Config, self: nat, l: RaftLog, peers: set<nat>)
      requires l.Valid() && l.View() == RawLog(0, 0, [], 0, 0) && self in peers
      ensures Valid() && fresh(readOnly) && cfg == c && readOnly.lease == c.leaseReads && raftLog == l && View() == InitialNode(c, self, peers, [])
    {
      cfg, id, raftLog := c, self, l;
      readOnly := new ReadOnly(c.leaseReads);
      term, vote, role, lead := 0, 0, Follower, 0;
      votes, pendingConf, uncommitted, msgs := map[], 0, 0, [];
      prs := map v | v in peers :: NewProgress(0, 1, false, c.maxInflight);
      new;
      assert Elements([]) == {};
    }

    // -------------------------------------------------------------- sending

    method Send(m: Message) returns (ok: bool)
      requires Valid()
      modifies this`msgs
      ensures Valid() && ok == RaftSpec.Send(old(View()), m).Ok?
      ensures ok ==> View() == RaftSpec.Send(old(View()), m).value
    {
      hide raftLog.Valid, raftLog.View;
      var out := m.(from := id);
      if IsVoteKind(m.kind) {
        if m.term == 0 {
          return false;
        }
      } else {
        if m.term != 0 {
          return false;
        }
        if m.kind != MsgProp {
          out := out.(term := term);
        }
      }
      OneMoreElement(msgs, out);
      msgs := msgs + [out];
      return true;
    }

    /** The first part of maybe_send_append, without compaction: the log lookups succeed, so no snapshot is
        sent, and neither the full window nor an unhandled state is met. */
    method ComposeAppend(to: nat, sendIfEmpty: bool) returns (p: Progress, m: Option<Message>)
      requires Valid() && to in prs
      ensures AppendTo(cfg, View(), to, prs[to], sendIfEmpty) == (p, if m.Some? then Some(Stamp(View(), m.value)) else None)
      ensures m.Some? ==> m.value.kind == MsgApp && m.value.term == 0
    {
      hide raftLog.Valid, raftLog.View, LogSpec.Slice;
      p, m := prs[to], None;
      if IsPaused(p) {
        return;
      }
      var t := raftLog.Term(p.next - 1);
      var found := raftLog.Entries(p.next, cfg.maxMsgSize);
      var es := found.value;
      if es == [] && !sendIfEmpty {
        return;
      }
      if es != [] {
        match p.state
        case Replicate =>
          p := OptimisticSend(p, es[|es| - 1].index);
        case Probe =>
          p := p.(paused := true);
        case Snapshot =>
          assert false;
      }
      m := Some(EMPTY_MESSAGE.(kind := MsgApp, to := to, index := prs[to].next - 1, logTerm := t, entries := es,
                               commit := raftLog.committed));
    }

    method MaybeSendAppend(to: nat, sendIfEmpty: bool) returns (sent: bool)
      requires Valid() && to in prs
      modifies this`msgs, this`prs
      ensures Valid() && (View(), sent) == RaftSpec.MaybeSendAppend(cfg, old(View()), to, sendIfEmpty)
    {
      hide raftLog.Valid, raftLog.View, AppendTo;
      var p, m := ComposeAppend(to, sendIfEmpty);
      prs := prs[to := p];
      if m.None? {
        return false;
      }
      var ok := Send(m.value);
      return true;
    }

    /** The loop `while (maybe_send_append(to, false))`. */
    method SendAll(to: nat)
      requires Valid() && to in prs
      modifies this`msgs, this`prs
      ensures Valid() && View() == RaftSpec.SendAll(cfg, old(View()), to)
    {
      hide raftLog.Valid, raftLog.View, RaftSpec.MaybeSendAppend, SendBudget;
      var more := true;
      while more
        invariant Valid() && to in prs
        invariant if more then RaftSpec.SendAll(cfg, View(), to) == RaftSpec.SendAll(cfg, old(View()), to)
                  else View() == RaftSpec.SendAll(cfg, old(View()), to)
        decreases more, SendBudget(View(), to)
      {
        SendShrinksBudget(cfg, View(), to);
        SendKeepsPeers(View(), to);
        more := MaybeSendAppend(to, false);
      }
    }

    lemma SendKeepsPeers(s: Node, to: nat)
      requires to in s.prs
      ensures to in RaftSpec.MaybeSendAppend(cfg, s, to, false).0.prs
    {
    }

    method BcastAppend()
      requires Valid()
      modifies this`msgs, this`prs
      ensures Valid() && View() == RaftSpec.BcastAppend(cfg, old(View()))
    {
      hide raftLog.Valid, raftLog.View, RaftSpec.MaybeSendAppend, RaftSpec.BcastAppend, PartlyBcast;
      ghost var s := View();
      PartlyBcastEnds(cfg, s);
      var left := prs.Keys;
      assert s.prs.Keys - left == {};
      while left != {}
        invariant Valid() && left <= prs.Keys && prs.Keys == s.prs.Keys
        invariant View() == PartlyBcast(cfg, s, s.prs.Keys - left)
        decreases left
      {
        var v :| v in left;
        PartlyBcastStep(cfg, s, s.prs.Keys - left, v);
        assert s.prs.Keys - (left - {v}) == s.prs.Keys - left + {v};
        if v != id {
          var sent := MaybeSendAppend(v, true);
        }
        left := left - {v};
      }
      assert s.prs.Keys - {} == s.prs.Keys;
    }

    method SendHeartbeat(to: nat)
      requires Valid() && to in prs
      modifies this`msgs
      ensures Valid() && View() == old(View()).(msgs := old(View()).msgs + {Heartbeat(old(View()), to)})
    {
      hide raftLog.Valid, raftLog.View;
      var commit := Min(prs[to].matched, raftLog.committed);
      var ok := Send(EMPTY_MESSAGE.(kind := MsgHeartbeat, to := to, commit := commit));
    }

    method BcastHeartbeat()
      requires Valid()
      modifies this`msgs
      ensures Valid() && View() == RaftSpec.BcastHeartbeat(old(View()))
    {
      hide raftLog.Valid, raftLog.View, RaftSpec.BcastHeartbeat;
      ghost var s := View();
      PartlyBeatEnds(s);
      var left := prs.Keys;
      while left != {}
        invariant Valid() && left <= prs.Keys
        invariant View() == PartlyBeat(s, s.prs.Keys - left)
        decreases left
      {
        var v :| v in left;
        PartlyBeatStep(s, s.prs.Keys - left, v);
        assert s.prs.Keys - (left - {v}) == s.prs.Keys - left + {v};
        if v != id {
          assert Heartbeat(View(), v) == Heartbeat(s, v);
          SendHeartbeat(v);
        }
        left := left - {v};
      }
      assert s.prs.Keys - {} == s.prs.Keys;
    }

    // -------------------------------------------------------------- roles

    /** The loop of reset: every progress starts afresh after the last index. */
    method ResetProgress(last: nat)
      modifies this`prs
      ensures prs == FreshPeers(cfg, old(prs), id, last) && prs.Keys == old(prs).Keys
    {
      ghost var before := prs;
      var left := prs.Keys;
      while left != {}
        invariant left <= prs.Keys && prs.Keys == before.Keys
        invariant forall v :: v in prs && v !in left ==> prs[v] == NewProgress(if v == id then last else 0, last + 1, false, cfg.maxInflight)
        decreases left
      {
        var v :| v in left;
        var p := NewProgress(0, last + 1, false, cfg.maxInflight);
        if v == id {
          p := p.(matched := last);
        }
        prs := prs[v := p];
        left := left - {v};
      }
    }

    /** The plain fields of reset; the vote survives only within the term. */
    method ResetFields(t: nat)
      modifies this`term, this`vote, this`lead, this`votes, this`pendingConf, this`uncommitted
      ensures term == t && vote == (if old(term) != t then 0 else old(vote)) && lead == 0 && votes == map[]
      ensures pendingConf == 0 && uncommitted == 0
    {
      if term != t {
        term := t;
        vote := 0;
      }
      lead := 0;
      votes := map[];
      pendingConf := 0;
      uncommitted := 0;
    }

    method Reset(t: nat)
      requires Valid()
      modifies this, readOnly
      ensures Valid() && View() == RaftSpec.Reset(cfg, old(View()), t)
    {
      hide raftLog.Valid, raftLog.View, FreshPeers, QueueOk, ReadQueue.InOrder, AtMost;
      var last := raftLog.LastIndex();
      ResetFields(t);
      ResetProgress(last);
      readOnly.Reset();
    }

    method BecomeFollower(t: nat, leader: nat)
      requires Valid()
      modifies this, readOnly
      ensures Valid() && View() == RaftSpec.BecomeFollower(cfg, old(View()), t, leader)
    {
      hide raftLog.Valid, raftLog.View, RaftSpec.Reset;
      Reset(t);
      lead := leader;
      role := Follower;
    }

    method BecomeCandidate() returns (ok: bool)
      requires Valid()
      modifies this, readOnly
      ensures Valid() && ok == (old(role) != Leader)
      ensures ok ==> View() == RaftSpec.BecomeCandidate(cfg, old(View()))
    {
      hide raftLog.Valid, raftLog.View, RaftSpec.Reset;
      if role == Leader {
        return false;
      }
      Reset(term + 1);
      vote := id;
      role := Candidate;
      return true;
    }

    method BecomePreCandidate() returns (ok: bool)
      requires Valid()
      modifies this
      ensures Valid() && ok == (old(role) != Leader)
      ensures ok ==> View() == RaftSpec.BecomePreCandidate(old(View()))
    {
      hide raftLog.Valid, raftLog.View;
      if role == Leader {
        return false;
      }
      votes := map[];
      lead := 0;
      role := PreCandidate;
      return true;
    }

    // -------------------------------------------------------------- the leader's log

    /** maybe_commit: the majority's index, if it is of the current term. */
    method MaybeCommit() returns (changed: bool, ok: bool)
      requires Valid()
      modifies raftLog
      ensures ok == AdvanceCommit(old(View())).Ok?
      ensures ok ==> Valid() && (View(), changed) == AdvanceCommit(old(View())).value
      ensures ok ==> raftLog.applied == old(raftLog.applied)
    {
      hide raftLog.Valid, raftLog.View, LogSpec.MaybeCommit, IsQuorumIndex;
      ghost var s := View();
      assert id in Matches(prs);
      var mci := PickQuorumIndex(Matches(prs));
      CommitKeepsBase(s.log, mci, term);
      ghost var before := raftLog.committed;
      changed, ok := raftLog.MaybeCommit(mci, term);
      ReadsStay(before);
    }

    /** A risen commit cursor keeps the pending reads below it. */
    lemma ReadsStay(before: nat)
      requires readOnly.Valid()
      ensures before <= raftLog.committed && readOnly.Ordered(before) ==> readOnly.Ordered(raftLog.committed)
    {
    }

    lemma CommitKeepsBase(l: Log, i: nat, t: nat)
      ensures LogSpec.MaybeCommit(l, i, t).Ok? ==>
                var l' := LogSpec.MaybeCommit(l, i, t).value.0;
                l'.base == l.base && l'.baseTerm == l.baseTerm && l.committed <= l'.committed && l'.applied == l.applied
    {
    }

    /** The 32-bit sum of payload sizes. */
    method PayloadSum(es: seq<Entry>) returns (size: nat)
      ensures size == Wrap32(PayloadSize(es))
    {
      size := 0;
      var k := 0;
      while k < |es|
        invariant 0 <= k <= |es| && size == Wrap32(PayloadSize(es[..k]))
      {
        assert es[..k + 1][..k] == es[..k];
        SumWraps(PayloadSize(es[..k]), |es[k].data|);
        size := Wrap32(size + Wrap32(|es[k].data|));
        k := k + 1;
      }
      assert es[..|es|] == es;
    }

    lemma SumWraps(a: nat, b: nat)
      ensures Wrap32(Wrap32(a) + Wrap32(b)) == Wrap32(a + b)
    {
    }

    method IncreaseUncommittedSize(es: seq<Entry>) returns (ok: bool)
      requires Valid()
      modifies this`uncommitted
      ensures Valid() && ok == WithinLimit(cfg, old(View()), es)
      ensures View() == if ok then old(View()).(uncommitted := old(uncommitted) + Wrap32(PayloadSize(es))) else old(View())
    {
      hide raftLog.Valid, raftLog.View;
      var size := PayloadSum(es);
      if uncommitted > 0 && uncommitted + size > cfg.maxUncommitted {
        return false;
      }
      uncommitted := uncommitted + size;
      return true;
    }

    method ReduceUncommittedSize(es: seq<Entry>)
      requires Valid()
      modifies this`uncommitted
      ensures Valid() && View() == ReduceUncommitted(old(View()), es)
    {
      hide raftLog.Valid, raftLog.View;
      if uncommitted == 0 {
        return;
      }
      var size := PayloadSum(es);
      if size > uncommitted {
        uncommitted := 0;
      } else {
        uncommitted := uncommitted - size;
      }
    }

    method StampBatch(es: seq<Entry>) returns (ents: seq<Entry>)
      requires Valid()
      ensures ents == StampEntries(View(), es)
    {
      hide raftLog.Valid, raftLog.View;
      var li := raftLog.LastIndex();
      ents := [];
      var i := 0;
      while i < |es|
        invariant 0 <= i <= |es| && |ents| == i
        invariant forall k :: 0 <= k < i ==> ents[k] == Entry(es[k].kind, term, li + 1 + k, es[k].data)
      {
        ents := ents + [Entry(es[i].kind, term, li + 1 + i, es[i].data)];
        i := i + 1;
      }
    }

    /** append_entry; `kept` is false when the size limit drops the batch. */
    method AppendEntry(es: seq<Entry>) returns (kept: bool, ok: bool)
      requires Valid()
      modifies this, raftLog, raftLog.unstable, readOnly
      ensures ok == RaftSpec.AppendEntry(cfg, old(View()), es).Ok?
      ensures ok ==> Valid() && (View(), kept) == RaftSpec.AppendEntry(cfg, old(View()), es).value
      ensures ok ==> raftLog.applied == old(raftLog.applied)
    {
      hide raftLog.Valid, raftLog.View, AdvanceCommit, StampEntries, LogSpec.Append, MaybeUpdate, PayloadSize, WithinLimit;
      ghost var s := View();
      ok := true;
      var ents := StampBatch(es);
      kept := IncreaseUncommittedSize(ents);
      if !kept {
        return;
      }
      AppendKeepsBase(s.log, s.log.Last() + 1, ents);
      var last;
      last, ok := raftLog.Append(s.log.Last() + 1, ents);
      if !ok {
        return;
      }
      prs := prs[id := MaybeUpdate(prs[id], last).0];
      var changed;
      changed, ok := MaybeCommit();
    }

    lemma AppendKeepsBase(l: Log, first: nat, es: seq<Entry>)
      requires Contiguous(es, first) && l.base <= l.committed
      ensures LogSpec.Append(l, first, es).Ok? ==>
                var l' := LogSpec.Append(l, first, es).value;
                l'.base == l.base && l'.baseTerm == l.baseTerm && l.committed == l'.committed
    {
    }

    /** The start of become_leader: itself replicating, and any change it inherits still pending. */
    method TakeOffice()
      requires Valid()
      modifies this, readOnly
      ensures Valid() && View() == Leadership.Elected(cfg, old(View()))
    {
      hide raftLog.Valid, raftLog.View, RaftSpec.Reset, ProgressSpec.BecomeReplicate, QueueOk, ReadQueue.InOrder, AtMost;
      Reset(term);
      var last := raftLog.LastIndex();
      lead, role, pendingConf, prs := id, Leader, last, prs[id := BecomeReplicate(prs[id])];
    }

    method BecomeLeader() returns (ok: bool)
      requires Valid()
      modifies this, raftLog, raftLog.unstable, readOnly
      ensures ok == (old(role) != Follower && RaftSpec.BecomeLeader(cfg, old(View())).Ok?)
      ensures ok ==> Valid() && View() == RaftSpec.BecomeLeader(cfg, old(View())).value
      ensures ok ==> raftLog.applied == old(raftLog.applied)
    {
      hide raftLog.Valid, raftLog.View, RaftSpec.AppendEntry, RaftSpec.BecomeLeader, Leadership.Elected, ReduceUncommitted, QueueOk, ReadQueue.InOrder, AtMost;
      if role == Follower {
        return false;
      }
      Leadership.BecomeLeaderSteps(cfg, View());
      TakeOffice();
      var kept;
      kept, ok := AppendEntry([EMPTY_ENTRY]);
      if !ok || !kept {
        return false;
      }
      Leadership.ReducedByNothing(View());
      ReduceUncommittedSize([EMPTY_ENTRY]);
    }

    // -------------------------------------------------------------- elections

    /** poll: records the first answer of each peer and counts the grants. */
    method Poll(from: nat, granted: bool) returns (n: nat)
      requires Valid()
      modifies this`votes
      ensures Valid() && View() == RaftSpec.Poll(old(View()), from, granted) && n == |GrantedBy(votes)|
    {
      hide raftLog.Valid, raftLog.View;
      if from !in votes {
        votes := votes[from := granted];
      }
      n := 0;
      var left := votes.Keys;
      assert GrantedAmong(votes, left - left) == {};
      while left != {}
        invariant left <= votes.Keys && n == |GrantedAmong(votes, votes.Keys - left)|
        decreases left
      {
        var v :| v in left;
        assert GrantedAmong(votes, votes.Keys - (left - {v})) ==
               if votes[v] then GrantedAmong(votes, votes.Keys - left) + {v} else GrantedAmong(votes, votes.Keys - left);
        if votes[v] {
          n := n + 1;
        }
        left := left - {v};
      }
      assert GrantedAmong(votes, votes.Keys - {}) == GrantedBy(votes);
    }

    /** The requests at the end of campaign. */
    method AskForVotes(kind: MsgType, t: nat)
      requires Valid() && kind in {MsgVote, MsgPreVote} && t != 0
      modifies this`msgs
      ensures Valid() && View() == RequestVotes(old(View()), kind, t)
    {
      hide raftLog.Valid, raftLog.View, RequestVotes;
      ghost var s := View();
      PartlyAskedEnds(s, kind, t);
      var last := raftLog.LastIndex();
      var lastTerm := raftLog.LastTerm();
      var left := prs.Keys;
      while left != {}
        invariant Valid() && left <= prs.Keys
        invariant View() == PartlyAsked(s, kind, t, s.prs.Keys - left)
        decreases left
      {
        var v :| v in left;
        PartlyAskedStep(s, kind, t, s.prs.Keys - left, v);
        assert s.prs.Keys - (left - {v}) == s.prs.Keys - left + {v};
        if v != id {
          var m := EMPTY_MESSAGE.(kind := kind, to := v, term := t, index := last, logTerm := lastTerm);
          assert Stamp(View(), m) == VoteRequest(s, kind, t, v);
          var ok := Send(m);
        }
        left := left - {v};
      }
      assert s.prs.Keys - {} == s.prs.Keys;
    }

    /** campaign for a real election. */
    method Campaign() returns (ok: bool)
      requires Valid()
      modifies this, raftLog, raftLog.unstable, readOnly
      ensures ok == (old(role) != Leader && RaftSpec.Campaign(cfg, old(View())).Ok?)
      ensures ok ==> Valid() && View() == RaftSpec.Campaign(cfg, old(View())).value
      ensures ok ==> raftLog.applied == old(raftLog.applied)
    {
      hide raftLog.Valid, raftLog.View, RaftSpec.BecomeLeader, RaftSpec.Reset, RequestVotes, GrantedBy;
      ok := BecomeCandidate();
      if !ok {
        return;
      }
      var granted := Poll(id, true);
      if |prs| / 2 + 1 == granted {
        ok := BecomeLeader();
        return;
      }
      CandidateTerm(old(View()));
      AskForVotes(MsgVote, term);
    }

    lemma CandidateTerm(s: Node)
      requires s.role != Leader
      ensures RaftSpec.BecomeCandidate(cfg, s).term == s.term + 1
    {
    }

    /** campaign for the pre-election. */
    method PreCampaign() returns (ok: bool)
      requires Valid()
      modifies this, raftLog, raftLog.unstable, readOnly
      ensures ok == (old(role) != Leader && RaftSpec.PreCampaign(cfg, old(View())).Ok?)
      ensures ok ==> Valid() && View() == RaftSpec.PreCampaign(cfg, old(View())).value
      ensures ok ==> raftLog.applied == old(raftLog.applied)
    {
      hide raftLog.Valid, raftLog.View, RaftSpec.Campaign, RequestVotes, GrantedBy;
      ok := BecomePreCandidate();
      if !ok {
        return;
      }
      var granted := Poll(id, true);
      if |prs| / 2 + 1 == granted {
        ok := Campaign();
        return;
      }
      AskForVotes(MsgPreVote, term + 1);
    }

    /** num_of_pending_conf. */
    method CountConfChanges(es: seq<Entry>) returns (n: nat)
      ensures n > 0 <==> exists k :: 0 <= k < |es| && es[k].kind == ConfChange
    {
      n := 0;
      var k := 0;
      while k < |es|
        invariant 0 <= k <= |es|
        invariant n > 0 <==> exists j :: 0 <= j < k && es[j].kind == ConfChange
      {
        if es[k].kind == ConfChange {
          n := n + 1;
        }
        k := k + 1;
      }
    }

    /** MsgHup; the unapplied entries are always found. */
    method Hup() returns (ok: bool)
      requires Valid()
      modifies this, raftLog, raftLog.unstable, readOnly
      ensures ok == RaftSpec.Hup(cfg, old(View())).Ok?
      ensures ok ==> Valid() && View() == RaftSpec.Hup(cfg, old(View())).value
      ensures ok ==> raftLog.applied == old(raftLog.applied)
    {
      hide raftLog.Valid, raftLog.View, RaftSpec.Campaign, RaftSpec.PreCampaign;
      ok := true;
      if role == Leader {
        return;
      }
      ghost var l := raftLog.View();
      var es := raftLog.SliceAll(raftLog.applied + 1, raftLog.committed + 1);
      var pending := CountConfChanges(es);
      PendingConfMeaning(l, es);
      if pending > 0 && raftLog.committed > raftLog.applied {
        return;
      }
      if cfg.preVote {
        ok := PreCampaign();
      } else {
        ok := Campaign();
      }
    }

    lemma PendingConfMeaning(l: Log, es: seq<Entry>)
      requires CursorsOk(l) && es == l.ents[l.applied - l.base..l.committed - l.base]
      ensures HasPendingConf(l) <==> exists k :: 0 <= k < |es| && es[k].kind == ConfChange
      ensures es != [] ==> l.committed > l.applied
    {
      if HasPendingConf(l) {
        var k :| l.applied - l.base <= k < l.committed - l.base && l.ents[k].kind == ConfChange;
        assert es[k - (l.applied - l.base)] == l.ents[k];
      }
      if exists k :: 0 <= k < |es| && es[k].kind == ConfChange {
        var k :| 0 <= k < |es| && es[k].kind == ConfChange;
        assert l.ents[k + (l.applied - l.base)] == es[k];
      }
    }

    /** MsgVote and MsgPreVote. */
    method HandleVote(m: Message) returns (ok: bool)
      requires Valid()
      modifies this
      ensures ok == RaftSpec.HandleVote(old(View()), m).Ok?
      ensures ok ==> Valid() && View() == RaftSpec.HandleVote(old(View()), m).value
      ensures ok ==> raftLog.applied == old(raftLog.applied)
    {
      hide raftLog.Valid, raftLog.View, LogSpec.IsUpToDate;
      var resp := EMPTY_MESSAGE.(to := m.from, kind := VoteResponseKind(m.kind));
      var canVote := vote == m.from || (vote == 0 && lead == 0) || (m.kind == MsgPreVote && m.term > term);
      var upToDate := raftLog.IsUpToDate(m.index, m.logTerm);
      if canVote && upToDate {
        ok := Send(resp.(term := m.term));
        if ok && m.kind == MsgVote {
          vote := m.from;
        }
      } else {
        ok := Send(resp.(term := term, reject := true));
      }
    }

    // -------------------------------------------------------------- replication

    method HandleAppend(m: Message) returns (ok: bool)
      requires Valid() && Contiguous(m.entries, m.index + 1)
      modifies this, raftLog, raftLog.unstable, readOnly
      ensures ok == RaftSpec.HandleAppend(old(View()), m).Ok?
      ensures ok ==> Valid() && View() == RaftSpec.HandleAppend(old(View()), m).value
      ensures ok ==> raftLog.applied == old(raftLog.applied)
    {
      hide raftLog.Valid, raftLog.View, LogSpec.MaybeAppend, RaftSpec.Send;
      var resp := EMPTY_MESSAGE.(to := m.from, kind := MsgAppResp);
      if m.index < raftLog.committed {
        ok := Send(resp.(index := raftLog.committed));
        return;
      }
      var lastNew, matched;
      ghost var before := raftLog.committed;
      AcceptedCommits(raftLog.View(), m);
      lastNew, matched, ok := raftLog.MaybeAppend(m.index, m.logTerm, m.commit, m.entries);
      if !ok {
        return;
      }
      ReadsStay(before);
      if matched {
        ok := Send(resp.(index := lastNew));
      } else {
        var last := raftLog.LastIndex();
        ok := Send(resp.(index := m.index, reject := true, rejectHint := last));
      }
    }

    lemma AcceptedCommits(l: Log, m: Message)
      requires Contiguous(m.entries, m.index + 1) && l.base <= l.committed
      ensures var r := LogSpec.MaybeAppend(l, m.index, m.logTerm, m.commit, m.entries);
              r.Accepted? ==> l.committed <= r.log.committed
    {
      hide LogSpec.FindConflict;
      FindConflictInRange(l, m.entries, m.index + 1);
    }

    method HandleHeartbeat(m: Message) returns (ok: bool)
      requires Valid()
      modifies this, raftLog
      ensures ok == RaftSpec.HandleHeartbeat(old(View()), m).Ok?
      ensures ok ==> Valid() && View() == RaftSpec.HandleHeartbeat(old(View()), m).value
      ensures ok ==> raftLog.applied == old(raftLog.applied)
    {
      hide raftLog.Valid, raftLog.View, RaftSpec.Send;
      ghost var before := raftLog.committed;
      ok := raftLog.CommitTo(m.commit);
      ReadsStay(before);
      if ok {
        ok := Send(EMPTY_MESSAGE.(to := m.from, kind := MsgHeartbeatResp));
      }
    }

    /** check_quorum_active. */
    method CheckQuorumActive() returns (active: bool)
      requires Valid()
      ensures active == (|ActiveVoters(View())| >= NodeQuorum(View()))
    {
      hide raftLog.Valid, raftLog.View;
      ghost var s := View();
      var act := 0;
      var left := prs.Keys;
      assert ActiveAmong(s, left - left) == {};
      while left != {}
        invariant left <= prs.Keys && act == |ActiveAmong(s, prs.Keys - left)|
        decreases left
      {
        var v :| v in left;
        assert ActiveAmong(s, prs.Keys - (left - {v})) ==
               if v == id || prs[v].recentActive then ActiveAmong(s, prs.Keys - left) + {v} else ActiveAmong(s, prs.Keys - left);
        if v == id {
          act := act + 1;
        } else if prs[v].recentActive {
          act := act + 1;
        }
        left := left - {v};
      }
      assert ActiveAmong(s, prs.Keys - {}) == ActiveVoters(s);
      active := act >= |prs| / 2 + 1;
    }

    /** The loop over a proposal's entries: at most one configuration change passes. */
    method GateBatch(es: seq<Entry>, pending: nat, applied: nat, last: nat) returns (r: seq<Entry>, pending': nat)
      ensures (r, pending') == GateConf(es, pending, applied, last + 1)
    {
      r, pending' := [], pending;
      var i := 0;
      ghost var whole := GateConf(es, pending, applied, last + 1);
      assert es[0..] == es && r + whole.0 == whole.0;
      while i < |es|
        invariant 0 <= i <= |es|
        invariant var (rest, p) := GateConf(es[i..], pending', applied, last + 1 + i); (r + rest, p) == whole
      {
        ghost var (rest, p) := GateConf(es[i..], pending', applied, last + 1 + i);
        assert es[i..][0] == es[i] && es[i..][1..] == es[i + 1..];
        var e := es[i];
        if e.kind == ConfChange {
          if pending' > applied {
            e := EMPTY_ENTRY;
          } else {
            pending' := last + i + 1;
          }
        }
        assert r + rest == r + [e] + rest[1..];
        r := r + [e];
        i := i + 1;
      }
      assert r + [] == r;
    }

    method GateConfChanges(es: seq<Entry>) returns (r: seq<Entry>)
      requires Valid()
      modifies this`pendingConf
      ensures Valid() && View() == old(View()).(pendingConf := pendingConf)
      ensures (r, pendingConf) == GateConf(es, old(pendingConf), old(View()).log.applied, old(View()).log.Last() + 1)
    {
      hide raftLog.Valid, raftLog.View, GateConf;
      var last := raftLog.LastIndex();
      r, pendingConf := GateBatch(es, pendingConf, raftLog.applied, last);
    }

    /** MsgProp at the leader. */
    method Propose(m: Message) returns (ok: bool)
      requires Valid()
      modifies this, raftLog, raftLog.unstable, readOnly
      ensures ok == RaftSpec.Propose(cfg, old(View()), m).Ok?
      ensures ok ==> Valid() && View() == RaftSpec.Propose(cfg, old(View()), m).value
      ensures ok ==> raftLog.applied == old(raftLog.applied)
    {
      hide raftLog.Valid, raftLog.View, RaftSpec.AppendEntry, RaftSpec.BcastAppend, GateConf;
      if m.entries == [] {
        return false;
      }
      var es := GateConfChanges(m.entries);
      var kept;
      kept, ok := AppendEntry(es);
      if ok && kept {
        BcastAppend();
      }
    }

    /** MsgAppResp with a rejection. */
    method HandleRejection(m: Message)
      requires Valid() && m.from in prs && m.reject
      modifies this
      ensures Valid() && Ok(View()) == RaftSpec.HandleAppResp(cfg, old(View()), m)
    {
      hide raftLog.Valid, raftLog.View, ProgressSpec.MaybeDecreaseTo, RaftSpec.MaybeSendAppend, AdvanceCommit, RaftSpec.BcastAppend, RaftSpec.SendAll;
      var p := prs[m.from].(recentActive := true);
      var (p1, lowered) := MaybeDecreaseTo(p, m.index, m.rejectHint);
      if lowered {
        if p1.state == Replicate {
          p1 := BecomeProbe(p1);
        }
        prs := prs[m.from := p1];
        var sent := MaybeSendAppend(m.from, true);
      } else {
        prs := prs[m.from := p1];
      }
    }

    /** What follows a raised progress: commit, tell everyone or just the peer, then keep sending. */
    method CommitAndSend(to: nat, wasPaused: bool) returns (ok: bool)
      requires Valid() && to in prs
      modifies this, raftLog, raftLog.unstable, readOnly
      ensures ok == Steps.CommitAndSend(cfg, old(View()), to, wasPaused).Ok?
      ensures ok ==> Valid() && View() == Steps.CommitAndSend(cfg, old(View()), to, wasPaused).value
      ensures ok ==> raftLog.applied == old(raftLog.applied)
    {
      hide raftLog.Valid, raftLog.View, AdvanceCommit, RaftSpec.BcastAppend, RaftSpec.SendAll, RaftSpec.MaybeSendAppend;
      var changed;
      changed, ok := MaybeCommit();
      if !ok {
        return;
      }
      if changed {
        BcastAppend();
      } else if wasPaused {
        var sent := MaybeSendAppend(to, true);
        SendAppendKeeps(old(AdvanceCommit(View())).value.0, to);
      }
      SendAll(to);
    }

    lemma SendAppendKeeps(s: Node, to: nat)
      requires to in s.prs
      ensures RaftSpec.SendAppend(cfg, s, to) == RaftSpec.MaybeSendAppend(cfg, s, to, true).0
    {
    }

    /** MsgAppResp with an acknowledgement. */
    method HandleAcceptance(m: Message) returns (ok: bool)
      requires Valid() && m.from in prs && !m.reject
      modifies this, raftLog, raftLog.unstable, readOnly
      ensures ok == RaftSpec.HandleAppResp(cfg, old(View()), m).Ok?
      ensures ok ==> Valid() && View() == RaftSpec.HandleAppResp(cfg, old(View()), m).value
      ensures ok ==> raftLog.applied == old(raftLog.applied)
    {
      hide raftLog.Valid, raftLog.View, Steps.CommitAndSend, ProgressSpec.FreeTo, RaftSpec.HandleAppResp;
      ghost var s := View();
      var p := prs[m.from].(recentActive := true);
      var oldPaused := IsPaused(p);
      var (p1, raised) := MaybeUpdate(p, m.index);
      if !raised {
        Flow.LateAcceptance(cfg, s, m);
        prs := prs[m.from := p1];
        return true;
      }
      Steps.AcceptedSteps(cfg, s, m);
      if p1.state == Probe {
        p1 := BecomeReplicate(p1);
      } else if p1.state == ProgressState.Snapshot && NeedSnapshotAbort(p1) {
        p1 := BecomeProbe(p1);
      } else if p1.state == Replicate {
        p1 := p1.(inflights := FreeTo(p1.inflights, m.index));
      }
      prs := prs[m.from := p1];
      ok := CommitAndSend(m.from, oldPaused);
    }

    method HandleHeartbeatResp(m: Message)
      requires Valid() && m.from in prs
      modifies this
      ensures Valid() && View() == RaftSpec.HandleHeartbeatResp(cfg, old(View()), m)
    {
      hide raftLog.Valid, raftLog.View, ProgressSpec.FreeTo, RaftSpec.MaybeSendAppend;
      var p := prs[m.from].(recentActive := true, paused := false);
      if p.state == Replicate && WindowFull(p) && p.inflights != [] {
        p := p.(inflights := FreeTo(p.inflights, p.inflights[0]));
      }
      prs := prs[m.from := p];
      var last := raftLog.LastIndex();
      if p.matched < last {
        var sent := MaybeSendAppend(m.from, true);
      }
    }

    // -------------------------------------------------------------- step

    method StepPeer(m: Message) returns (ok: bool)
      requires Valid() && m.from in prs
      modifies this, raftLog, raftLog.unstable, readOnly
      ensures ok == RaftSpec.StepPeer(cfg, old(View()), m).Ok?
      ensures ok ==> Valid() && View() == RaftSpec.StepPeer(cfg, old(View()), m).value
      ensures ok ==> raftLog.applied == old(raftLog.applied)
    {
      hide raftLog.Valid, raftLog.View, RaftSpec.HandleAppResp, RaftSpec.HandleHeartbeatResp;
      ok := true;
      if m.kind == MsgAppResp {
        if m.reject {
          HandleRejection(m);
        } else {
          ok := HandleAcceptance(m);
        }
      } else if m.kind == MsgHeartbeatResp {
        HandleHeartbeatResp(m);
      } else if m.kind == MsgSnapStatus {
        var p := prs[m.from];
        if p.state == ProgressState.Snapshot {
          if m.reject {
            p := p.(pendingSnapshot := 0);
          }
          prs := prs[m.from := BecomeProbe(p).(paused := true)];
        }
      } else if m.kind == MsgUnreachable {
        if prs[m.from].state == Replicate {
          prs := prs[m.from := BecomeProbe(prs[m.from])];
        }
      }
    }

    method StepLeader(m: Message) returns (ok: bool)
      requires Valid()
      modifies this, raftLog, raftLog.unstable, readOnly
      ensures ok == RaftSpec.StepLeader(cfg, old(View()), m).Ok?
      ensures ok ==> Valid() && View() == RaftSpec.StepLeader(cfg, old(View()), m).value
      ensures ok ==> raftLog.applied == old(raftLog.applied)
    {
      hide raftLog.Valid, raftLog.View, RaftSpec.StepPeer, RaftSpec.Propose, RaftSpec.BcastHeartbeat, RaftSpec.BecomeFollower, ActiveVoters, NodeQuorum;
      ok := true;
      if m.kind == MsgBeat {
        BcastHeartbeat();
      } else if m.kind == MsgCheckQuorum {
        var active := CheckQuorumActive();
        if !active {
          BecomeFollower(term, 0);
        }
      } else if m.kind == MsgProp {
        ok := Propose(m);
      } else if m.from in prs {
        ok := StepPeer(m);
      }
    }

    method HandleVoteResp(m: Message) returns (ok: bool)
      requires Valid() && IsCandidate(View())
      modifies this, raftLog, raftLog.unstable, readOnly
      ensures ok == RaftSpec.HandleVoteResp(cfg, old(View()), m).Ok?
      ensures ok ==> Valid() && View() == RaftSpec.HandleVoteResp(cfg, old(View()), m).value
      ensures ok ==> raftLog.applied == old(raftLog.applied)
    {
      hide raftLog.Valid, raftLog.View, RaftSpec.BecomeLeader, RaftSpec.Campaign, RaftSpec.BcastAppend, RaftSpec.BecomeFollower, GrantedBy;
      ok := true;
      var granted := Poll(m.from, !m.reject);
      if |prs| / 2 + 1 == granted {
        if role == PreCandidate {
          ok := Campaign();
        } else {
          ok := BecomeLeader();
          if ok {
            BcastAppend();
          }
        }
      } else if |prs| / 2 + 1 == |votes| - granted {
        BecomeFollower(term, 0);
      }
    }

    method StepCandidate(m: Message) returns (ok: bool)
      requires Valid() && IsCandidate(View()) && MessageWellFormed(m)
      modifies this, raftLog, raftLog.unstable, readOnly
      ensures ok == RaftSpec.StepCandidate(cfg, old(View()), m).Ok?
      ensures ok ==> Valid() && View() == RaftSpec.StepCandidate(cfg, old(View()), m).value
      ensures ok ==> raftLog.applied == old(raftLog.applied)
    {
      hide raftLog.Valid, raftLog.View, RaftSpec.HandleAppend, RaftSpec.HandleHeartbeat, RaftSpec.HandleVoteResp, RaftSpec.BecomeFollower;
      ok := true;
      if m.kind == MsgApp {
        BecomeFollower(m.term, m.from);
        ok := HandleAppend(m);
      } else if m.kind == MsgHeartbeat {
        BecomeFollower(m.term, m.from);
        ok := HandleHeartbeat(m);
      } else if m.kind == MsgPreVoteResp || m.kind == MsgVoteResp {
        ok := HandleVoteResp(m);
      }
    }

    method StepFollower(m: Message) returns (ok: bool)
      requires Valid() && MessageWellFormed(m)
      modifies this, raftLog, raftLog.unstable, readOnly
      ensures ok == RaftSpec.StepFollower(cfg, old(View()), m).Ok?
      ensures ok ==> Valid() && View() == RaftSpec.StepFollower(cfg, old(View()), m).value
      ensures ok ==> raftLog.applied == old(raftLog.applied)
    {
      hide raftLog.Valid, raftLog.View, RaftSpec.HandleAppend, RaftSpec.HandleHeartbeat, RaftSpec.Send;
      ok := true;
      if m.kind == MsgProp {
        if lead == 0 || cfg.disableForwarding {
          return;
        }
        ok := Send(m.(to := lead));
      } else if m.kind == MsgApp {
        lead := m.from;
        ok := HandleAppend(m);
      } else if m.kind == MsgHeartbeat {
        lead := m.from;
        ok := HandleHeartbeat(m);
      }
    }

    method Dispatch(m: Message) returns (ok: bool)
      requires Valid() && MessageWellFormed(m)
      modifies this, raftLog, raftLog.unstable, readOnly
      ensures ok == RaftSpec.Dispatch(cfg, old(View()), m).Ok?
      ensures ok ==> Valid() && View() == RaftSpec.Dispatch(cfg, old(View()), m).value
      ensures ok ==> raftLog.applied == old(raftLog.applied)
    {
      hide raftLog.Valid, raftLog.View, RaftSpec.Hup, RaftSpec.HandleVote, RaftSpec.StepLeader, RaftSpec.StepFollower, RaftSpec.StepCandidate;
      if m.kind == MsgHup {
        ok := Hup();
      } else if m.kind == MsgVote || m.kind == MsgPreVote {
        ok := HandleVote(m);
      } else {
        match role
        case Leader => ok := StepLeader(m);
        case Follower => ok := StepFollower(m);
        case PreCandidate => ok := StepCandidate(m);
        case Candidate => ok := StepCandidate(m);
      }
    }

    /** Raft::step, in full: whatever the state and the message, the object does what the specification
        says, and stops exactly where it is fatal. */
    method Step(m: Message, recent: bool) returns (ok: bool)
      requires Valid() && MessageWellFormed(m)
      modifies this, raftLog, raftLog.unstable, readOnly
      ensures ok == RaftSpec.Step(cfg, old(View()), m, recent).Ok?
      ensures ok ==> Valid() && View() == RaftSpec.Step(cfg, old(View()), m, recent).value
      ensures ok ==> raftLog.applied == old(raftLog.applied)
    {
      hide raftLog.Valid, raftLog.View, RaftSpec.Dispatch, RaftSpec.BecomeFollower, RaftSpec.Send, MessageWellFormed;
      ok := true;
      if m.term == 0 {
      } else if m.term > term {
        if m.kind == MsgVote || m.kind == MsgPreVote {
          if cfg.checkQuorum && lead != 0 && recent {
            return;
          }
        }
        if m.kind == MsgPreVote || (m.kind == MsgPreVoteResp && !m.reject) {
        } else if m.kind == MsgApp || m.kind == MsgHeartbeat {
          BecomeFollower(m.term, m.from);
        } else {
          BecomeFollower(m.term, 0);
        }
      } else if m.term < term {
        if (cfg.checkQuorum || cfg.preVote) && (m.kind == MsgHeartbeat || m.kind == MsgApp) {
          ok := Send(EMPTY_MESSAGE.(to := m.from, kind := MsgAppResp));
        } else if m.kind == MsgPreVote {
          ok := Send(EMPTY_MESSAGE.(to := m.from, kind := MsgPreVoteResp, reject := true, term := term));
        }
        return;
      }
      ok := Dispatch(m);
    }

    // -------------------------------------------------------------- linearizable reads

    /** MsgReadIndex at the leader. A single voter answers at once; otherwise nothing happens before the leader
        has committed in its term. Then the read is answered at once on the strength of the lease, or queued
        with the commit cursor and a round of heartbeats; a context already queued stays as it is. */
    method ReadIndex(from: nat, context: Context) returns (answer: Option<ReadAnswer>)
      requires Valid()
      modifies this`msgs, readOnly
      ensures Valid()
      ensures var s := old(View());
              var st := ReadStatus(context, from, s.log.committed, {});
              if NodeQuorum(s) <= 1 then
                answer == Some(LocalRead(context, s.log.committed)) && View() == s && Queued(old(readOnly.queue), old(readOnly.pending))
              else if s.log.TermAt(s.log.committed) != s.term then
                answer == None && View() == s && Queued(old(readOnly.queue), old(readOnly.pending))
              else if readOnly.lease then
                answer == Some(AnswerFor(id, st)) && View() == s && Queued(old(readOnly.queue), old(readOnly.pending))
              else
                && answer == None && View() == RaftSpec.BcastHeartbeat(s)
                && if context in old(readOnly.pending) then Queued(old(readOnly.queue), old(readOnly.pending))
                   else Queued(old(readOnly.queue) + [context], old(readOnly.pending)[context := st])
    {
      hide raftLog.Valid, raftLog.View, RaftSpec.BcastHeartbeat, QueueOk, ReadQueue.InOrder, AtMost;
      if |prs| / 2 + 1 <= 1 {
        return Some(LocalRead(context, raftLog.committed));
      }
      var t := raftLog.Term(raftLog.committed);
      if t != term {
        return None;
      }
      if readOnly.lease {
        return Some(AnswerFor(id, ReadStatus(context, from, raftLog.committed, {})));
      }
      readOnly.AddRequest(raftLog.committed, from, context);
      BcastHeartbeat();
      return None;
    }

    /** The queue of pending reads is `q`, with the requests `pending`. */
    ghost predicate Queued(q: seq<Context>, pending: map<Context, ReadStatus>)
      reads readOnly
    {
      readOnly.queue == q && readOnly.pending == pending
    }

    /** With this confirmation the pending read of this context has a quorum, the leader included. */
    ghost predicate Confirmed(from: nat, context: Context)
      reads this, readOnly
    {
      && !readOnly.lease && context != [] && context in readOnly.pending
      && |readOnly.pending[context].acks + {from}| + 1 >= |prs| / 2 + 1
    }

    /** Of the queue `q` the reads from the front to this context are answered, each with the index it was
        queued with, and gone. */
    ghost predicate Released(q: seq<Context>, p: map<Context, ReadStatus>, answers: seq<ReadAnswer>, context: Context)
      reads readOnly
    {
      && 0 < |answers| <= |q| && q[|answers| - 1] == context
      && (forall k :: 0 <= k < |answers| ==> q[k] in p && answers[k] == AnswerFor(id, p[q[k]]))
      && readOnly.queue == q[|answers|..] && readOnly.pending == Without(p, q[..|answers|])
    }

    /** A confirmed heartbeat: with a quorum of confirmations exactly the reads queued up to that one are
        answered, each with an index that is committed; without one nothing is. */
    method ConfirmRead(from: nat, context: Context) returns (answers: seq<ReadAnswer>)
      requires Valid()
      modifies readOnly
      ensures Valid() && View() == old(View())
      ensures forall k :: 0 <= k < |answers| ==> answers[k].index <= raftLog.committed
      ensures if old(Confirmed(from, context)) then Released(old(readOnly.queue), old(readOnly.pending), answers, context)
              else answers == [] && readOnly.queue == old(readOnly.queue) && readOnly.pending.Keys == old(readOnly.pending).Keys
    {
      hide raftLog.Valid, raftLog.View, ReadQueue.InOrder, Without, QueueOk;
      if readOnly.lease || context == [] {
        return [];
      }
      ghost var p0 := readOnly.pending;
      var acks := readOnly.RecvAck(from, context);
      if acks < |prs| / 2 + 1 {
        return [];
      }
      ghost var q, p := readOnly.queue, readOnly.pending;
      var rss := readOnly.Advance(context);
      answers := [];
      for i := 0 to |rss|
        invariant |answers| == i && forall k :: 0 <= k < i ==> answers[k] == AnswerFor(id, rss[k])
      {
        answers := answers + [AnswerFor(id, rss[i])];
      }
      WithoutConfirmed(p0, p, q[..|rss|], context);
    }

    /** read_messages: the messages leave the node. */
    method TakeMessages() returns (out: seq<Message>)
      requires Valid()
      modifies this`msgs
      ensures Valid() && Elements(out) == old(View()).msgs && View() == old(View()).(msgs := {})
    {
      hide raftLog.Valid, raftLog.View;
      out := msgs;
      msgs := [];
      assert Elements([]) == {};
    }
  }

  /** A Ready round of the two-layer log moves the applied cursor as the cluster model has it. */
  lemma ReadyAgrees(cfg: Config, s: Node)
    requires CursorsOk(s.log)
    ensures InRange(s.log) && AfterRound(s.log, cfg.maxReadySize) == ReadyRound(cfg, s).log
    ensures NextOf(s.log, cfg.maxReadySize) == NextEntries(cfg, s.log)
  {
    hide LimitSize;
    if s.log.applied == s.log.committed {
      assert s.log.ents[s.log.applied..s.log.committed] == [];
      assert LimitSize([], cfg.maxReadySize) == [];
    }
  }

  /** The object inside a run with pre-vote off: when it stands for a node of a reachable cluster, a
      message it may receive never makes it abort, and what it does is a step of the cluster. */
  method DeliverInRun(r: Raft, m: Message, recent: bool,
                      ghost voters: set<nat>, ghost boot: seq<Entry>, ghost run: seq<Cluster>, ghost i: nat, ghost n: nat)
    returns (ok: bool)
    requires r.Valid() && !r.cfg.preVote && Run(r.cfg, voters, boot, run) && i < |run|
    requires n in run[i].nodes && r.View() == run[i].nodes[n] && Enabled(r.cfg, run[i], n, Deliver(m, recent))
    modifies r, r.raftLog, r.raftLog.unstable, r.readOnly
    ensures ok && r.Valid() && StepOf(r.cfg, run[i], Settle(run[i], n, r.View()), n, Deliver(m, recent))
  {
    hide Run, Enabled, RaftSpec.Step, MessageWellFormed, r.Valid, r.View;
    Theorems.NeverFatal(r.cfg, voters, boot, run, i, n, Deliver(m, recent));
    ok := r.Step(m, recent);
  }

  // ---------------------------------------------------------------- the node and its application

  /** A running node: the protocol and the Ready rounds on one log. */
  class Server {
    const raft: Raft
    const node: RaftNode

    ghost predicate Valid()
      reads raft, raft.raftLog, raft.raftLog.storage, raft.raftLog.unstable, raft.readOnly, node, node.log, node.log.storage, node.log.unstable
    {
      && raft.Valid() && node.Valid() && node.log == raft.raftLog && raft.cfg.maxReadySize == raft.raftLog.maxNext
    }

    constructor (r: Raft, n: RaftNode)
      requires r.Valid() && n.Valid() && n.log == r.raftLog && r.cfg.maxReadySize == r.raftLog.maxNext
      ensures Valid() && raft == r && node == n
    {
      raft, node := r, n;
    }

    /** A log with nothing compacted has no snapshot pending. */
    lemma NoSnapshot()
      requires Valid()
      ensures raft.raftLog.unstable.snapshot == None && node.Fresh()
    {
    }

    /** A message, a timeout or a proposal: the step of the specification, and nothing is delivered. */
    method Handle(m: Message, recent: bool) returns (ok: bool)
      requires Valid() && MessageWellFormed(m)
      modifies raft, raft.raftLog, raft.raftLog.unstable, raft.readOnly
      ensures ok == RaftSpec.Step(raft.cfg, old(raft.View()), m, recent).Ok?
      ensures ok ==> Valid() && raft.View() == RaftSpec.Step(raft.cfg, old(raft.View()), m, recent).value
      ensures node.events == old(node.events)
    {
      hide raft.raftLog.Valid, raft.raftLog.View, RaftSpec.Step, MessageWellFormed, ReadyRounds.InOrder, QueueOk, ReadQueue.InOrder, AtMost;
      ok := raft.Step(m, recent);
    }

    /** A Ready round: the round of the specification, which delivers exactly the entries it hands out, in
        order, each in storage by then. */
    method TakeRound()
      requires Valid()
      modifies raft, raft.raftLog, raft.raftLog.storage, raft.raftLog.unstable, node
      ensures Valid() && raft.View() == ReadyRound(raft.cfg, old(raft.View()))
      ensures node.events == old(node.events) + EventsOf(NextEntries(raft.cfg, old(raft.View()).log))
      ensures raft.raftLog.unstable.entries == []
      ensures forall e :: e in NextEntries(raft.cfg, old(raft.View()).log) ==> StoredAt(raft.raftLog.storage.entries, e.index) == Some(e)
    {
      hide raft.raftLog.Valid, raft.raftLog.View, NextEntries, NextOf, AfterRound, ReadyRound, ReduceUncommitted, ReadyRounds.InOrder, QueueOk, ReadQueue.InOrder, AtMost, StoredAt;
      NoSnapshot();
      ghost var s := raft.View();
      assert CursorsOk(s.log);
      ReadyAgrees(raft.cfg, s);
      ReadyIs(raft.cfg, s);
      var rd := node.Round();
      raft.ReduceUncommittedSize(rd.committed);
    }
  }

  /** A Ready round of the specification: the counter falls and the applied cursor moves. */
  lemma ReadyIs(cfg: Config, s: Node)
    requires CursorsOk(s.log)
    ensures ReadyRound(cfg, s) == ReduceUncommitted(s.(log := ReadyRound(cfg, s).log), NextEntries(cfg, s.log))
    ensures ReadyRound(cfg, s).log == s.log.(applied := ReadyRound(cfg, s).log.applied)
  {
    hide NextEntries;
    assert PayloadSize([]) == 0;
  }
}
