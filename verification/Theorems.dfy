/** The properties of Figure 3 of the extended Raft paper, and freedom from fatal checks, for every run
    of the cluster with pre-vote off. Statements compare states of a run at any two moments. */
module Theorems {
  import opened Proto
  import opened LogSpec
  import opened ProgressSpec
  import opened RaftSpec
  import opened ClusterSpec
  import opened Quorum
  import opened History
  import opened Invariant
  import opened Safety

  /** Node `a` at moment `i` of a run. */
  ghost predicate At(run: seq<Cluster>, i: nat, a: nat) {
    i < |run| && a in run[i].nodes
  }

  /** Node `a` leads term `t` at moment `i`. */
  ghost predicate Leads(run: seq<Cluster>, i: nat, a: nat, t: nat) {
    At(run, i, a) && run[i].nodes[a].role == Leader && run[i].nodes[a].term == t
  }

  function Entries(run: seq<Cluster>, i: nat, a: nat): seq<Entry>
    requires i < |run| && a in run[i].nodes
  {
    run[i].nodes[a].log.ents
  }

  lemma NodeFacts(c: Cluster, h: Hist, a: nat)
    requires Inv(c, h) && a in c.nodes
    ensures HistInv(h) && NodeInv(c.nodes[a], h) && c.nodes[a].id == a
  {
    hide HistInv, NodeInv;
    assert Resting(c.nodes[a], a, h);
  }

  lemma LeaderFacts(s: Node, h: Hist)
    requires NodeInv(s, h) && s.role == Leader
    ensures s.term in h.leader && s.term in h.logs && h.leader[s.term] == s.id && s.log.ents == h.logs[s.term]
  {
  }

  lemma LogFacts(s: Node, h: Hist)
    requires NodeInv(s, h)
    ensures LogOk(h.logs, s.log.ents) && CommitOk(h, s.log.ents, s.term, s.log.committed)
  {
  }

  /** Election safety: over a whole run at most one node is ever leader of a term. */
  lemma ElectionSafety(cfg: Config, voters: set<nat>, boot: seq<Entry>, run: seq<Cluster>, i: nat, j: nat, a: nat, b: nat)
    requires Run(cfg, voters, boot, run) && !cfg.preVote
    requires At(run, i, a) && At(run, j, b)
    requires run[i].nodes[a].role == Leader && run[j].nodes[b].role == Leader
    requires run[i].nodes[a].term == run[j].nodes[b].term
    ensures a == b
  {
    hide Run, Inv, NodeInv, HistInv;
    if j < i {
      ElectionSafety(cfg, voters, boot, run, j, i, b, a);
    } else {
      var hs := RunHistories(cfg, voters, boot, run);
      NodeFacts(run[i], hs[i], a);
      LeaderFacts(run[i].nodes[a], hs[i]);
      NodeFacts(run[j], hs[j], b);
      LeaderFacts(run[j].nodes[b], hs[j]);
      assert Later(hs[i], hs[j]);
    }
  }

  /** A leader never rewrites its log: while a node leads a term its log only grows. */
  lemma LeaderAppendOnly(cfg: Config, voters: set<nat>, boot: seq<Entry>, run: seq<Cluster>, i: nat, j: nat, a: nat)
    requires Run(cfg, voters, boot, run) && !cfg.preVote
    requires i <= j && At(run, i, a) && At(run, j, a)
    requires run[i].nodes[a].role == Leader && run[j].nodes[a].role == Leader
    requires run[i].nodes[a].term == run[j].nodes[a].term
    ensures Entries(run, i, a) <= Entries(run, j, a)
  {
    hide Run, Inv, NodeInv, HistInv;
    var hs := RunHistories(cfg, voters, boot, run);
    NodeFacts(run[i], hs[i], a);
    LeaderFacts(run[i].nodes[a], hs[i]);
    NodeFacts(run[j], hs[j], a);
    LeaderFacts(run[j].nodes[a], hs[j]);
    assert Later(hs[i], hs[j]);
    assert Extension(hs[j].logs[run[i].nodes[a].term], hs[i].logs[run[i].nodes[a].term], run[i].nodes[a].term);
  }

  /** Log matching: two logs, at any two moments, with the same term at an index are identical
      through that index. */
  lemma LogMatching(cfg: Config, voters: set<nat>, boot: seq<Entry>, run: seq<Cluster>, i: nat, j: nat, a: nat, b: nat, k: nat)
    requires Run(cfg, voters, boot, run) && !cfg.preVote
    requires At(run, i, a) && At(run, j, b)
    requires 1 <= k <= |Entries(run, i, a)| && k <= |Entries(run, j, b)|
    requires Entries(run, i, a)[k - 1].term == Entries(run, j, b)[k - 1].term
    ensures Entries(run, i, a)[..k] == Entries(run, j, b)[..k]
  {
    hide Run, Inv, NodeInv, HistInv, LogOk;
    if j < i {
      LogMatching(cfg, voters, boot, run, j, i, b, a, k);
    } else {
      var hs := RunHistories(cfg, voters, boot, run);
      NodeFacts(run[i], hs[i], a);
      LogFacts(run[i].nodes[a], hs[i]);
      NodeFacts(run[j], hs[j], b);
      LogFacts(run[j].nodes[b], hs[j]);
      assert Later(hs[i], hs[j]);
      LogOkGrows(hs[i].logs, hs[j].logs, Entries(run, i, a));
      SameTermSamePrefix(hs[j].logs, Entries(run, i, a), Entries(run, j, b), k);
    }
  }

  lemma CommitPointLater(h: Hist, h': Hist, t: nat, i: nat)
    requires Later(h, h') && CommitPoint(h, t, i)
    ensures CommitPoint(h', t, i)
  {
    assert Extension(h'.logs[t], h.logs[t], t);
    assert h'.logs[t][i - 1] == h.logs[t][i - 1];
    forall v | v in AckedBy(h, t, i) ensures v in AckedBy(h', t, i) {
      assert (v, t) in h.acks;
    }
    SubsetCardinality(AckedBy(h, t, i), AckedBy(h', t, i));
  }

  lemma CommitOkLater(h: Hist, h': Hist, log: seq<Entry>, t: nat, c: nat)
    requires Later(h, h') && CommitOk(h, log, t, c)
    ensures CommitOk(h', log, t, c)
  {
    if c != 0 {
      var u, i := CommitWitness(h, log, t, c);
      CommitPointLater(h, h', u, i);
      assert Extension(h'.logs[u], h.logs[u], u);
      AgreeGrows(log, h.logs[u], h'.logs[u], c);
    }
  }

  /** State machine safety: the committed prefixes of any two nodes, at any two moments, agree as far
      as both go. */
  lemma StateMachineSafety(cfg: Config, voters: set<nat>, boot: seq<Entry>, run: seq<Cluster>, i: nat, j: nat, a: nat, b: nat)
    requires Run(cfg, voters, boot, run) && !cfg.preVote
    requires At(run, i, a) && At(run, j, b)
    ensures Agree(Entries(run, i, a), Entries(run, j, b),
                  Min(run[i].nodes[a].log.committed, run[j].nodes[b].log.committed))
  {
    hide Run, Inv, NodeInv, HistInv, LogOk, CommitOk;
    if j < i {
      StateMachineSafety(cfg, voters, boot, run, j, i, b, a);
    } else {
      var hs := RunHistories(cfg, voters, boot, run);
      var s, s' := run[i].nodes[a], run[j].nodes[b];
      NodeFacts(run[i], hs[i], a);
      LogFacts(s, hs[i]);
      NodeFacts(run[j], hs[j], b);
      LogFacts(s', hs[j]);
      assert Later(hs[i], hs[j]);
      CommitOkLater(hs[i], hs[j], s.log.ents, s.term, s.log.committed);
      CommittedPrefixesAgree(hs[j], s.log.ents, s.term, s.log.committed, s'.log.ents, s'.term, s'.log.committed);
    }
  }

  /** A later term's leader had a commit point's prefix from the start, whenever it is looked at. */
  lemma LaterLeaderHolds(h: Hist, h': Hist, t: nat, i: nat, u: nat)
    requires HistInv(h) && HistInv(h') && Later(h', h) && CommitPoint(h, t, i)
    requires t < u && u in h'.logs && u in h'.leader
    ensures Agree(h'.logs[u], h.logs[t], i)
  {
    assert Extension(h.logs[u], h'.logs[u], u);
    LeaderCompleteness(h, t, i, u);
    assert ElectionOk(h', u);
    var c := h'.cand[(u, h'.leader[u])];
    assert c <= h'.logs[u] && h.cand[(u, h.leader[u])] == c;
    assert h'.logs[u][..i] == h.logs[u][..i];
  }

  /** Leader completeness: whatever a node has committed is in the log of every leader of a later term,
      at every moment of the run, and of every leader of the same term from then on. */
  lemma LeaderCompletenessInRuns(cfg: Config, voters: set<nat>, boot: seq<Entry>, run: seq<Cluster>, i: nat, j: nat, a: nat, b: nat)
    requires Run(cfg, voters, boot, run) && !cfg.preVote
    requires At(run, i, a) && At(run, j, b) && run[j].nodes[b].role == Leader
    requires run[j].nodes[b].term > run[i].nodes[a].term || (run[j].nodes[b].term == run[i].nodes[a].term && i <= j)
    ensures Agree(Entries(run, j, b), Entries(run, i, a), run[i].nodes[a].log.committed)
  {
    hide Run, Inv, NodeInv, HistInv, LogOk, CommitOk, CommitPoint;
    var hs := RunHistories(cfg, voters, boot, run);
    var s, s' := run[i].nodes[a], run[j].nodes[b];
    NodeFacts(run[i], hs[i], a);
    LogFacts(s, hs[i]);
    NodeFacts(run[j], hs[j], b);
    LeaderFacts(s', hs[j]);
    if i <= j {
      assert Later(hs[i], hs[j]);
      CommitOkLater(hs[i], hs[j], s.log.ents, s.term, s.log.committed);
      LeaderHoldsCommitted(hs[j], s.log.ents, s.term, s.log.committed, s'.term);
    } else if s.log.committed != 0 {
      assert Later(hs[j], hs[i]);
      var u, k := CommitWitness(hs[i], s.log.ents, s.term, s.log.committed);
      LaterLeaderHolds(hs[i], hs[j], u, k, s'.term);
      AgreeTrans(s'.log.ents, hs[i].logs[u], s.log.ents, k, s.log.committed);
    }
  }

  /** Match soundness: while a peer is in the leader's term it holds the leader's log through the
      leader's `matched` for it. */
  lemma MatchSoundness(cfg: Config, voters: set<nat>, boot: seq<Entry>, run: seq<Cluster>, i: nat, a: nat, v: nat)
    requires Run(cfg, voters, boot, run) && !cfg.preVote
    requires At(run, i, a) && At(run, i, v)
    requires run[i].nodes[a].role == Leader && run[i].nodes[v].term == run[i].nodes[a].term
    requires v in run[i].nodes[a].prs
    ensures Agree(Entries(run, i, v), Entries(run, i, a), run[i].nodes[a].prs[v].matched)
  {
    hide Run, Inv, NodeInv, HistInv, LogOk, CommitOk;
    var hs := RunHistories(cfg, voters, boot, run);
    var s, p := run[i].nodes[a], run[i].nodes[v];
    NodeFacts(run[i], hs[i], a);
    LeaderFacts(s, hs[i]);
    NodeFacts(run[i], hs[i], v);
    AcknowledgedIsHeld(s, p, hs[i]);
  }

  lemma AcknowledgedIsHeld(s: Node, p: Node, h: Hist)
    requires NodeInv(s, h) && NodeInv(p, h) && s.role == Leader && p.term == s.term
    requires p.id in s.prs && s.term in h.logs
    ensures Agree(p.log.ents, h.logs[s.term], s.prs[p.id].matched)
  {
    assert PeerInv(p.id, s.prs[p.id], s.term, |s.log.ents|, h);
    if s.prs[p.id].matched > 0 {
      assert Kept(h.logs, s.term, s.prs[p.id].matched, p.log.ents, p.term + 1);
    }
  }

  /** No fatal check fires: whatever can happen next at any node of any reachable cluster, the handler
      runs to completion. */
  lemma NeverFatal(cfg: Config, voters: set<nat>, boot: seq<Entry>, run: seq<Cluster>, i: nat, n: nat, a: Input)
    requires Run(cfg, voters, boot, run) && !cfg.preVote
    requires i < |run| && Enabled(cfg, run[i], n, a)
    ensures React(cfg, run[i].nodes[n], a).Ok?
  {
    hide Run, Inv, Enabled, React;
    var hs := RunHistories(cfg, voters, boot, run);
    var h' := ReactGood(cfg, run[i], hs[i], n, a);
  }

  /** The cursors stay in order at every node of every reachable cluster. */
  lemma CursorsInOrder(cfg: Config, voters: set<nat>, boot: seq<Entry>, run: seq<Cluster>, i: nat, a: nat)
    requires Run(cfg, voters, boot, run) && !cfg.preVote && At(run, i, a)
    ensures CursorsOk(run[i].nodes[a].log)
  {
    hide Run, Inv;
    var hs := RunHistories(cfg, voters, boot, run);
    NodeFacts(run[i], hs[i], a);
  }
}
