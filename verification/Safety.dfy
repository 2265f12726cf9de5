/** Every step of the cluster keeps the invariant, and every run with pre-vote off has a history. */
module Safety {
  import opened Proto
  import opened LogSpec
  import opened ProgressSpec
  import opened RaftSpec
  import opened ClusterSpec
  import opened Quorum
  import opened History
  import opened Invariant
  import opened Elections
  import opened Leadership
  import opened Steps
  import opened Replication

  /** Voter `v` between two steps. */
  ghost predicate Resting(s: Node, v: nat, h: Hist) {
    s.id == v && s.msgs == {} && NodeInv(s, h)
  }

  /** The cluster agrees with a history. */
  ghost predicate Inv(c: Cluster, h: Hist) {
    && HistInv(h)
    && c.nodes.Keys == h.voters
    && (forall v :: v in c.nodes ==> Resting(c.nodes[v], v, h))
    && MsgsInv(c.net, h)
  }

  // ---------------------------------------------------------------- the start

  function InitialHist(voters: set<nat>, boot: seq<Entry>, pair: bool): Hist {
    var t := StartTerm(boot);
    Hist(voters, t, pair, map[t := boot], map[], map[], map[], map[],
         map v | v in voters :: (v, t) := |boot|)
  }

  lemma InitialLogOk(boot: seq<Entry>, logs: map<nat, seq<Entry>>)
    requires ValidBoot(boot) && logs == map[StartTerm(boot) := boot]
    ensures LogOk(logs, boot)
  {
    forall k | 0 <= k < |boot| ensures EntryOk(logs, boot, k) {
    }
  }

  lemma InitialHistInv(voters: set<nat>, boot: seq<Entry>, pair: bool)
    requires voters != {} && 0 !in voters && ValidBoot(boot) && (pair ==> |voters| == 2)
    ensures HistInv(InitialHist(voters, boot, pair))
  {
    var h := InitialHist(voters, boot, pair);
    InitialLogOk(boot, h.logs);
    forall t | t in h.logs ensures LeaderLogOk(h, t) {
    }
    forall v, t | (v, t) in h.acks ensures AckOk(h, v, t) {
    }
  }

  lemma InitialCommitOk(voters: set<nat>, boot: seq<Entry>, pair: bool)
    requires voters != {} && ValidBoot(boot)
    ensures CommitOk(InitialHist(voters, boot, pair), boot, StartTerm(boot), |boot|)
  {
    var h := InitialHist(voters, boot, pair);
    if boot != [] {
      assert AckedBy(h, 1, |boot|) == voters;
      assert CommitPoint(h, 1, |boot|);
    }
  }

  lemma InitialNodeInv(cfg: Config, v: nat, voters: set<nat>, boot: seq<Entry>, pair: bool)
    requires voters != {} && 0 !in voters && v in voters && ValidBoot(boot)
    ensures NodeInv(InitialNode(cfg, v, voters, boot), InitialHist(voters, boot, pair))
  {
    var h := InitialHist(voters, boot, pair);
    InitialLogOk(boot, h.logs);
    InitialCommitOk(voters, boot, pair);
  }

  lemma InitInv(cfg: Config, c: Cluster, voters: set<nat>, boot: seq<Entry>, pair: bool)
    requires Init(cfg, c, voters, boot) && (pair ==> |voters| == 2)
    ensures Inv(c, InitialHist(voters, boot, pair))
  {
    hide HistInv, NodeInv;
    var h := InitialHist(voters, boot, pair);
    InitialHistInv(voters, boot, pair);
    forall v | v in c.nodes ensures Resting(c.nodes[v], v, h) {
      InitialNodeInv(cfg, v, voters, boot, pair);
    }
  }

  // ---------------------------------------------------------------- one step

  lemma RestingGood(c: Cluster, h: Hist, n: nat)
    requires Inv(c, h) && n in c.nodes
    ensures Good(c.nodes[n], h) && c.nodes[n].id == n
  {
    hide HistInv, NodeInv;
    assert Resting(c.nodes[n], n, h);
  }

  lemma NetWellFormed(c: Cluster, h: Hist, m: Message)
    requires Inv(c, h) && m in c.net
    ensures MsgInv(m, h) && MessageWellFormed(m)
  {
    hide HistInv, NodeInv;
    assert MsgInv(m, h);
    if m.kind == MsgApp {
      AppendIsContiguous(m, h);
    }
  }

  /** No reaction to anything that can happen at a node is fatal, and the invariant is kept. */
  lemma ReactGood(cfg: Config, c: Cluster, h: Hist, n: nat, a: Input) returns (h': Hist)
    requires Inv(c, h) && Enabled(cfg, c, n, a) && Fits(cfg, h) && Lawful(c.nodes[n], h, React(cfg, c.nodes[n], a))
    ensures React(cfg, c.nodes[n], a).Ok?
    ensures Good(React(cfg, c.nodes[n], a).value, h') && Grows(h, h', n) && Crowned(h, h', React(cfg, c.nodes[n], a).value)
  {
    hide Inv, Good, MsgInv, Step, ReadyRound, MessageWellFormed, CursorsOk;
    var s := c.nodes[n];
    RestingGood(c, h, n);
    match a
    case Deliver(m, recent) =>
      NetWellFormed(c, h, m);
      h' := StepGood(cfg, s, h, m, recent);
    case Local(m) =>
      LocalWellFormed(cfg, m);
      h' := LocalGood(cfg, s, h, m);
    case TakeReady =>
      ReadyGood(cfg, s, h);
      h' := h;
      GrowsRefl(h, n);
  }

  lemma LocalWellFormed(cfg: Config, m: Message)
    requires LocalInput(cfg, m)
    ensures MessageWellFormed(m)
  {
  }

  lemma SettledInv(c: Cluster, h: Hist, n: nat, s: Node, h': Hist)
    requires Inv(c, h) && n in c.nodes && s.id == n && Good(s, h') && Grows(h, h', n)
    ensures Inv(Settle(c, n, s), h')
  {
    hide HistInv, NodeInv, MsgInv, Grows;
    var c' := Settle(c, n, s);
    GrowsVoters(h, h', n);
    DrainedNodeInv(s, h');
    MsgsInvGrows(h, h', n, c.net);
    forall v | v in c'.nodes ensures Resting(c'.nodes[v], v, h') {
      if v != n {
        assert Resting(c.nodes[v], v, h);
        NodeInvGrows(h, h', n, c.nodes[v]);
      }
    }
  }

  lemma GrowsVoters(h: Hist, h': Hist, who: nat)
    requires Grows(h, h', who)
    ensures h'.voters == h.voters
  {
  }

  lemma DrainedNodeInv(s: Node, h: Hist)
    requires NodeInv(s, h)
    ensures NodeInv(s.(msgs := {}), h)
  {
  }

  /** Every step of the cluster keeps the invariant. */
  lemma NextInv(cfg: Config, c: Cluster, c': Cluster, h: Hist) returns (n: nat, h': Hist)
    requires Inv(c, h) && Next(cfg, c, c') && !cfg.preVote && !h.pair
    ensures Inv(c', h') && Grows(h, h', n)
  {
    hide Inv, Good, React, Grows;
    var a: Input;
    n, a :| StepOf(cfg, c, c', n, a);
    h' := ReactGood(cfg, c, h, n, a);
    RestingGood(c, h, n);
    SettledInv(c, h, n, React(cfg, c.nodes[n], a).value, h');
  }

  // ---------------------------------------------------------------- whole runs

  /** Facts that only accumulate: later histories know everything earlier ones knew. */
  ghost predicate Later(h: Hist, h': Hist) {
    && h'.voters == h.voters && h'.start == h.start && h'.pair == h.pair
    && LogsGrow(h.logs, h'.logs)
    && (forall t :: t in h.leader ==> t in h'.leader && h'.leader[t] == h.leader[t])
    && (forall k :: k in h.cand ==> k in h'.cand && h'.cand[k] == h.cand[k])
    && (forall k :: k in h.acks ==> k in h'.acks && h'.acks[k] >= h.acks[k])
  }

  lemma LaterTrans(a: Hist, b: Hist, c: Hist)
    requires Later(a, b) && Later(b, c)
    ensures Later(a, c)
  {
    forall t | t in a.logs ensures t in c.logs && Extension(c.logs[t], a.logs[t], t) {
      ExtensionTrans(c.logs[t], b.logs[t], a.logs[t], t);
    }
  }

  /** A history for every state of a run, each extending the ones before. */
  ghost predicate Histories(run: seq<Cluster>, hs: seq<Hist>) {
    && |hs| == |run|
    && (forall i :: 0 <= i < |run| ==> Inv(run[i], hs[i]) && !hs[i].pair)
    && (forall i, j :: 0 <= i <= j < |run| ==> Later(hs[i], hs[j]))
  }

  lemma {:induction false} RunHistories(cfg: Config, voters: set<nat>, boot: seq<Entry>, run: seq<Cluster>)
    returns (hs: seq<Hist>)
    requires Run(cfg, voters, boot, run) && !cfg.preVote
    ensures Histories(run, hs) && forall i :: 0 <= i < |hs| ==> hs[i].start == StartTerm(boot)
    decreases |run|
  {
    hide Init, Inv, Next, Later;
    if |run| == 1 {
      InitInv(cfg, run[0], voters, boot, false);
      hs := [InitialHist(voters, boot, false)];
      LaterRefl(hs[0]);
    } else {
      var n := |run| - 1;
      assert Next(cfg, run[n - 1], run[n - 1 + 1]);
      var hs0 := RunHistories(cfg, voters, boot, run[..n]);
      var who, h := NextInv(cfg, run[n - 1], run[n], hs0[n - 1]);
      GrowsLater(hs0[n - 1], h, who);
      LaterRefl(h);
      hs := hs0 + [h];
      forall i | 0 <= i < n ensures Later(hs[i], h) {
        assert Later(hs0[i], hs0[n - 1]);
        LaterTrans(hs0[i], hs0[n - 1], h);
      }
    }
  }

  lemma LaterRefl(h: Hist)
    ensures Later(h, h)
  {
  }

  lemma GrowsLater(h: Hist, h': Hist, who: nat)
    requires Grows(h, h', who)
    ensures Later(h, h')
  {
  }
}
