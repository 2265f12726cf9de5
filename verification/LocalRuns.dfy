/** The node's own guarantees, over every run of the cluster and under every configuration: flow control,
    the cursors, the counter of uncommitted bytes and the gate for configuration changes. */
module LocalRuns {
  import opened Proto
  import opened LogSpec
  import opened ProgressSpec
  import opened RaftSpec
  import opened ClusterSpec
  import opened Theorems
  import opened History
  import opened Flow
  import opened Ledger

  ghost predicate Sound(s: Node, v: nat) {
    s.id == v && s.msgs == {} && LocalInv(s)
  }

  /** A message its sender may have sent by now. */
  ghost predicate Posted(c: Cluster, m: Message) {
    m.from in c.nodes && SentBy(m.from, c.nodes[m.from].term, c.nodes[m.from].role, m)
  }

  ghost predicate SoundCluster(c: Cluster) {
    && (forall v {:trigger Sound(c.nodes[v], v)} :: v in c.nodes ==> Sound(c.nodes[v], v))
    && forall m {:trigger Posted(c, m)} :: m in c.net ==> Posted(c, m)
  }

  /** What one step of the cluster does to one node: nothing, a message, or a Ready. */
  ghost predicate Moves(cfg: Config, s: Node, s': Node) {
    || s' == s
    || Onward(cfg, s, s')
    || (CursorsOk(s.log) && s' == ReadyRound(cfg, s))
  }

  lemma InitialSound(cfg: Config, v: nat, voters: set<nat>, boot: seq<Entry>)
    requires v in voters && ValidBoot(boot)
    ensures Sound(InitialNode(cfg, v, voters, boot), v)
  {
  }

  lemma ReactSound(cfg: Config, c: Cluster, n: nat, a: Input)
    requires SoundCluster(c) && Enabled(cfg, c, n, a) && React(cfg, c.nodes[n], a).Ok?
    ensures LocalInv(React(cfg, c.nodes[n], a).value) && Moves(cfg, c.nodes[n], React(cfg, c.nodes[n], a).value)
  {
    var s := c.nodes[n];
    assert Sound(s, n);
    hide LocalInv, Onward, Step, ReadyRound, CursorsOk;
    match a
    case Deliver(m, recent) =>
      assert Posted(c, m);
      StepLocal(cfg, s, m, recent);
    case Local(m) =>
      StepLocal(cfg, s, m, false);
    case TakeReady =>
      ReadyLocal(cfg, s);
  }

  lemma SettledSound(s: Node, v: nat)
    requires LocalInv(s) && s.id == v
    ensures Sound(s.(msgs := {}), v) && Addressed(s)
  {
    hide LedgerInv;
    LedgerOf(s, s.(msgs := {}));
  }

  lemma MovesSettled(cfg: Config, s: Node, s': Node)
    requires Moves(cfg, s, s') && s.msgs == {}
    ensures Moves(cfg, s, s'.(msgs := {}))
  {
    if CursorsOk(s.log) && s' == ReadyRound(cfg, s) {
      ReadyShape(cfg, s);
    } else {
      hide LeadsOn;
      assert LeadsOn(cfg, s, s') ==> LeadsOn(cfg, s, s'.(msgs := {})) by { LeadsOnSettled(cfg, s, s'); }
    }
  }

  lemma LeadsOnSettled(cfg: Config, s: Node, s': Node)
    ensures LeadsOn(cfg, s, s') ==> LeadsOn(cfg, s, s'.(msgs := {}))
  {
  }

  /** One step of the cluster. */
  lemma NextSound(cfg: Config, c: Cluster, c': Cluster)
    requires SoundCluster(c) && Next(cfg, c, c')
    ensures SoundCluster(c') && c'.nodes.Keys == c.nodes.Keys
    ensures forall v :: v in c.nodes ==> Moves(cfg, c.nodes[v], c'.nodes[v])
  {
    hide LocalInv, React, Moves;
    var n, a :| StepOf(cfg, c, c', n, a);
    var s' := React(cfg, c.nodes[n], a).value;
    ReactSound(cfg, c, n, a);
    assert Sound(c.nodes[n], n);
    SettledSound(s', n);
    MovesSettled(cfg, c.nodes[n], s');
    forall v | v in c.nodes ensures Moves(cfg, c.nodes[v], c'.nodes[v]) && Sound(c'.nodes[v], v) {
      assert Sound(c.nodes[v], v);
      Stays(cfg, c.nodes[v]);
    }
    SettledPosted(cfg, c, n, s');
  }

  /** A node that has moved on still answers for what it sent before. */
  lemma MovedSender(cfg: Config, s: Node, s': Node, m: Message)
    requires Moves(cfg, s, s') && SentBy(s.id, s.term, s.role, m)
    ensures s'.id == s.id && SentBy(s'.id, s'.term, s'.role, m)
  {
    hide BetweenNodes, LeadsOn, TakesOffice, CommitKept;
    if CursorsOk(s.log) && s' == ReadyRound(cfg, s) {
      ReadyShape(cfg, s);
    }
  }

  lemma SettledPosted(cfg: Config, c: Cluster, n: nat, s': Node)
    requires SoundCluster(c) && n in c.nodes && s'.id == n && Addressed(s') && Moves(cfg, c.nodes[n], s'.(msgs := {}))
    ensures forall m :: m in Settle(c, n, s').net ==> Posted(Settle(c, n, s'), m)
  {
    hide Moves, BetweenNodes, LocalInv;
    var c' := Settle(c, n, s');
    forall m | m in c'.net ensures Posted(c', m) {
      if m in c.net {
        assert Posted(c, m);
        if m.from == n {
          assert Sound(c.nodes[n], n);
          MovedSender(cfg, c.nodes[n], s'.(msgs := {}), m);
        }
      } else {
        assert SentBy(s'.id, s'.term, s'.role, m);
      }
    }
  }

  lemma Stays(cfg: Config, s: Node)
    ensures Moves(cfg, s, s)
  {
  }

  lemma {:induction false} RunSound(cfg: Config, voters: set<nat>, boot: seq<Entry>, run: seq<Cluster>, i: nat)
    requires Run(cfg, voters, boot, run) && i < |run|
    ensures SoundCluster(run[i]) && run[i].nodes.Keys == voters
  {
    if i == 0 {
      forall v | v in voters ensures Sound(run[0].nodes[v], v) {
        InitialSound(cfg, v, voters, boot);
      }
    } else {
      RunSound(cfg, voters, boot, run, i - 1);
      assert Next(cfg, run[i - 1], run[i - 1 + 1]);
      NextSound(cfg, run[i - 1], run[i]);
    }
  }

  ghost predicate MovesAt(cfg: Config, run: seq<Cluster>, i: nat, a: nat) {
    At(run, i, a) && At(run, i + 1, a) && Moves(cfg, run[i].nodes[a], run[i + 1].nodes[a])
  }

  lemma RunMoves(cfg: Config, voters: set<nat>, boot: seq<Entry>, run: seq<Cluster>, i: nat, a: nat)
    requires Run(cfg, voters, boot, run) && i + 1 < |run| && a in voters
    ensures MovesAt(cfg, run, i, a)
    ensures a in run[i].nodes && LocalInv(run[i].nodes[a])
  {
    hide Moves, LocalInv;
    RunSound(cfg, voters, boot, run, i);
    assert Next(cfg, run[i], run[i + 1]);
    NextSound(cfg, run[i], run[i + 1]);
    assert Sound(run[i].nodes[a], a);
  }

  // ---------------------------------------------------------------- flow control

  /** In every state of every run the in-flight indices of each peer increase and lie strictly between
      `matched` and `next` in Replicate, there are none in the other states, and the window is never
      exceeded. The cursors are in order. */
  lemma FlowControl(cfg: Config, voters: set<nat>, boot: seq<Entry>, run: seq<Cluster>, i: nat, a: nat, v: nat)
    requires Run(cfg, voters, boot, run) && At(run, i, a) && v in run[i].nodes[a].prs
    ensures FlowOk(run[i].nodes[a].prs[v]) && CursorsOk(run[i].nodes[a].log)
  {
    hide FlowOk;
    RunSound(cfg, voters, boot, run, i);
    assert Sound(run[i].nodes[a], a);
  }

  /** Between a moment when `s` led and a later one: the term has passed, or it still leads with
      nothing unlearned, or it stepped down and cannot lead that term again. */
  ghost predicate Since(s: Node, s': Node) {
    || s'.term > s.term
    || (s'.term == s.term && s'.role in {Follower, PreCandidate})
    || (s'.term == s.term && s'.role == Leader && Raised(s.prs, s'.prs))
  }

  lemma SinceMoves(cfg: Config, s: Node, s1: Node, s2: Node)
    requires Since(s, s1) && Moves(cfg, s1, s2)
    ensures Since(s, s2)
  {
    if CursorsOk(s1.log) && s2 == ReadyRound(cfg, s1) {
      ReadyShape(cfg, s1);
    } else if s1.term == s.term && s1.role == Leader && s2.term == s.term && s2.role == Leader && s2 != s1 {
      hide Gated, Counted;
      forall v | v in s.prs ensures s.prs[v].matched <= s2.prs[v].matched {
        assert s1.prs[v].matched <= s2.prs[v].matched;
      }
    }
  }

  ghost predicate SinceAt(run: seq<Cluster>, i: nat, j: nat, a: nat) {
    At(run, i, a) && At(run, j, a) && Since(run[i].nodes[a], run[j].nodes[a])
  }

  lemma SinceStep(cfg: Config, run: seq<Cluster>, i: nat, j: nat, a: nat)
    requires SinceAt(run, i, j, a) && MovesAt(cfg, run, j, a)
    ensures SinceAt(run, i, j + 1, a)
  {
    hide Since, Moves;
    SinceMoves(cfg, run[i].nodes[a], run[j].nodes[a], run[j + 1].nodes[a]);
  }

  lemma {:induction false} SinceInRun(cfg: Config, voters: set<nat>, boot: seq<Entry>, run: seq<Cluster>, i: nat, j: nat, a: nat)
    requires Run(cfg, voters, boot, run) && i <= j < |run| && a in voters && SinceAt(run, i, i, a)
    ensures SinceAt(run, i, j, a)
    decreases j - i
  {
    hide *;
    if i < j {
      SinceInRun(cfg, voters, boot, run, i, j - 1, a);
      RunMoves(cfg, voters, boot, run, j - 1, a);
      SinceStep(cfg, run, i, j - 1, a);
    }
  }

  /** A leader's `matched` never falls, for any peer, between any two moments of one leadership. */
  lemma MatchNeverFalls(cfg: Config, voters: set<nat>, boot: seq<Entry>, run: seq<Cluster>, i: nat, j: nat, a: nat)
    requires Run(cfg, voters, boot, run) && i <= j && At(run, i, a) && At(run, j, a)
    requires run[i].nodes[a].role == Leader && run[j].nodes[a].role == Leader
    requires run[i].nodes[a].term == run[j].nodes[a].term
    ensures Raised(run[i].nodes[a].prs, run[j].nodes[a].prs)
  {
    hide Run;
    RunSound(cfg, voters, boot, run, i);
    assert SinceAt(run, i, i, a);
    SinceInRun(cfg, voters, boot, run, i, j, a);
  }

  lemma CommitStep(cfg: Config, s: Node, s': Node)
    requires LocalInv(s) && Moves(cfg, s, s')
    ensures CommitKept(s.log, s'.log) && s.log.applied <= s'.log.applied
  {
    hide FlowInv, LeadsOn, TakesOffice;
    if CursorsOk(s.log) && s' == ReadyRound(cfg, s) {
      ReadyShape(cfg, s);
    }
  }

  /** The cursors of `a` at moment `j` are at or past those at moment `i`, and what was committed then is
      still the same. */
  ghost predicate CursorsRise(run: seq<Cluster>, i: nat, j: nat, a: nat) {
    && At(run, i, a) && At(run, j, a)
    && CommitKept(run[i].nodes[a].log, run[j].nodes[a].log)
    && run[i].nodes[a].log.applied <= run[j].nodes[a].log.applied
  }

  lemma CommitKeptTrans(l: Log, l1: Log, l2: Log)
    requires CommitKept(l, l1) && CommitKept(l1, l2)
    ensures CommitKept(l, l2)
  {
    AgreeShorter(l2.ents, l1.ents, l1.committed, l.committed);
    AgreeTrans(l2.ents, l1.ents, l.ents, l.committed, l.committed);
  }

  lemma CursorsStep(cfg: Config, run: seq<Cluster>, i: nat, j: nat, a: nat)
    requires CursorsRise(run, i, j, a) && MovesAt(cfg, run, j, a) && LocalInv(run[j].nodes[a])
    ensures CursorsRise(run, i, j + 1, a)
  {
    hide Moves, LocalInv, CommitKept;
    CommitStep(cfg, run[j].nodes[a], run[j + 1].nodes[a]);
    CommitKeptTrans(run[i].nodes[a].log, run[j].nodes[a].log, run[j + 1].nodes[a].log);
  }

  lemma CursorsStart(cfg: Config, voters: set<nat>, boot: seq<Entry>, run: seq<Cluster>, i: nat, a: nat)
    requires Run(cfg, voters, boot, run) && i < |run| && a in voters
    ensures CursorsRise(run, i, i, a)
  {
    hide FlowInv;
    RunSound(cfg, voters, boot, run, i);
    assert Sound(run[i].nodes[a], a);
  }

  /** In every configuration: neither the commit cursor nor the applied cursor of a node ever falls, and a
      node never rewrites what it has committed. */
  lemma {:induction false} CommitNeverFalls(cfg: Config, voters: set<nat>, boot: seq<Entry>, run: seq<Cluster>, i: nat, j: nat, a: nat)
    requires Run(cfg, voters, boot, run) && i <= j < |run| && a in voters
    ensures CursorsRise(run, i, j, a)
    decreases j - i
  {
    hide *;
    if i == j {
      CursorsStart(cfg, voters, boot, run, i, a);
    } else {
      CommitNeverFalls(cfg, voters, boot, run, i, j - 1, a);
      RunMoves(cfg, voters, boot, run, j - 1, a);
      CursorsStep(cfg, run, i, j - 1, a);
    }
  }

  // ---------------------------------------------------------------- the counter of uncommitted bytes

  /** Every Ready of the run hands out less than 2^32 payload bytes. */
  ghost predicate SmallBatches(cfg: Config, run: seq<Cluster>) {
    forall i: nat, a: nat {:trigger At(run, i, a)} :: At(run, i, a) ==> SmallBatch(cfg, run[i].nodes[a])
  }

  lemma CounterStep(cfg: Config, s: Node, s': Node)
    requires LocalInv(s) && Moves(cfg, s, s') && SmallBatch(cfg, s) && s.uncommitted <= Waiting(s.log)
    ensures s'.uncommitted <= Waiting(s'.log)
  {
    hide Onward, ReadyRound, Waiting, SmallBatch, FlowInv;
    if CursorsOk(s.log) && s' == ReadyRound(cfg, s) {
      ReadyCounter(cfg, s);
    } else if s' != s {
      OnwardCounter(cfg, s, s');
    }
  }

  lemma CounterAtStart(cfg: Config, voters: set<nat>, boot: seq<Entry>, run: seq<Cluster>, a: nat)
    requires Run(cfg, voters, boot, run) && a in voters
    ensures At(run, 0, a) && run[0].nodes[a].uncommitted == 0
  {
    hide ValidBoot, Next;
  }

  /** The counter never exceeds the payload of the entries not yet handed out. */
  lemma {:induction false} CounterBelowWaiting(cfg: Config, voters: set<nat>, boot: seq<Entry>, run: seq<Cluster>, i: nat, a: nat)
    requires Run(cfg, voters, boot, run) && SmallBatches(cfg, run) && i < |run| && a in voters
    ensures At(run, i, a) && run[i].nodes[a].uncommitted <= Waiting(run[i].nodes[a].log)
  {
    hide Run, Moves, Waiting, SmallBatch, LocalInv;
    CounterAtStart(cfg, voters, boot, run, a);
    if i > 0 {
      CounterBelowWaiting(cfg, voters, boot, run, i - 1, a);
      RunMoves(cfg, voters, boot, run, i - 1, a);
      CounterStep(cfg, run[i - 1].nodes[a], run[i].nodes[a]);
    }
  }

  /** At moment `k` the leader `a` of term `t`, its counter at zero, took in a batch of at least `size`
      bytes. */
  ghost predicate TookIn(run: seq<Cluster>, k: nat, a: nat, t: nat, size: nat) {
    && Leads(run, k, a, t) && Leads(run, k + 1, a, t)
    && run[k].nodes[a].uncommitted == 0
    && Entries(run, k, a) <= Entries(run, k + 1, a)
    && size <= PayloadSize(Entries(run, k + 1, a)[|Entries(run, k, a)|..])
  }

  ghost predicate LeadsAll(run: seq<Cluster>, k: nat, i: nat, a: nat, t: nat) {
    forall j :: k <= j <= i ==> Leads(run, j, a, t)
  }

  /** Beyond the limit, a message raises the counter only from zero. */
  lemma OnwardAboveLimit(cfg: Config, s: Node, s': Node)
    requires Onward(cfg, s, s') && s'.uncommitted > cfg.maxUncommitted
    ensures s.role == Leader && s'.role == Leader && s.term == s'.term
    ensures s'.uncommitted <= s.uncommitted
         || (s.uncommitted == 0 && s.log.ents <= s'.log.ents
             && s'.uncommitted <= PayloadSize(s'.log.ents[|s.log.ents|..]))
  {
    hide Gated, Raised, PayloadSize;
  }

  /** What `a` holds at moment `i` beyond the limit, if anything, it took in at once in the leadership it
      still exercises. */
  ghost predicate WithinOrTaken(cfg: Config, run: seq<Cluster>, i: nat, a: nat)
    requires At(run, i, a)
  {
    var s := run[i].nodes[a];
    || s.uncommitted <= cfg.maxUncommitted
    || exists k: nat :: k < i && LeadsAll(run, k, i, a, s.term) && TookIn(run, k, a, s.term, s.uncommitted)
  }

  /** The same leadership, and no more in the counter. */
  lemma StillTaken(cfg: Config, run: seq<Cluster>, i: nat, a: nat)
    requires At(run, i, a) && At(run, i + 1, a) && WithinOrTaken(cfg, run, i, a)
    requires run[i].nodes[a].uncommitted > cfg.maxUncommitted
    requires run[i + 1].nodes[a].uncommitted <= run[i].nodes[a].uncommitted
    requires run[i + 1].nodes[a].role == Leader && run[i + 1].nodes[a].term == run[i].nodes[a].term
    ensures WithinOrTaken(cfg, run, i + 1, a)
  {
    hide PayloadSize;
    var s, s' := run[i].nodes[a], run[i + 1].nodes[a];
    var k: nat :| k < i && LeadsAll(run, k, i, a, s.term) && TookIn(run, k, a, s.term, s.uncommitted);
    assert Leads(run, i + 1, a, s.term);
    assert LeadsAll(run, k, i + 1, a, s'.term);
    assert TookIn(run, k, a, s'.term, s'.uncommitted);
  }

  lemma TakenNow(cfg: Config, run: seq<Cluster>, i: nat, a: nat)
    requires At(run, i, a) && At(run, i + 1, a)
    requires TookIn(run, i, a, run[i + 1].nodes[a].term, run[i + 1].nodes[a].uncommitted)
    ensures WithinOrTaken(cfg, run, i + 1, a)
  {
    hide PayloadSize;
    assert LeadsAll(run, i, i + 1, a, run[i + 1].nodes[a].term);
  }

  lemma ReadyAboveLimit(cfg: Config, s: Node)
    requires LocalInv(s) && CursorsOk(s.log) && ReadyRound(cfg, s).uncommitted > cfg.maxUncommitted
    ensures var s' := ReadyRound(cfg, s);
            s.role == Leader && s'.role == Leader && s'.term == s.term && s'.uncommitted <= s.uncommitted
  {
    hide ReadyRound, NextEntries, PayloadSize, FlowInv;
    ReadyShape(cfg, s);
  }

  lemma TakenLater(cfg: Config, run: seq<Cluster>, i: nat, a: nat)
    requires MovesAt(cfg, run, i, a) && LocalInv(run[i].nodes[a]) && WithinOrTaken(cfg, run, i, a)
    ensures WithinOrTaken(cfg, run, i + 1, a)
  {
    hide Onward, ReadyRound, PayloadSize, LocalInv, WithinOrTaken;
    var s, s' := run[i].nodes[a], run[i + 1].nodes[a];
    if s'.uncommitted <= cfg.maxUncommitted {
      WithinIsEnough(cfg, run, i + 1, a);
    } else {
      CountingLeads(cfg, s, s');
      if s'.uncommitted <= s.uncommitted {
        StillTaken(cfg, run, i, a);
      } else {
        OnwardAboveLimit(cfg, s, s');
        TakenNow(cfg, run, i, a);
      }
    }
  }

  lemma WithinIsEnough(cfg: Config, run: seq<Cluster>, i: nat, a: nat)
    requires At(run, i, a) && run[i].nodes[a].uncommitted <= cfg.maxUncommitted
    ensures WithinOrTaken(cfg, run, i, a)
  {
  }

  /** Only a leader's counter is above the limit, before and after; only a message raises it. */
  lemma CountingLeads(cfg: Config, s: Node, s': Node)
    requires LocalInv(s) && Moves(cfg, s, s') && s'.uncommitted > cfg.maxUncommitted
    ensures s.role == Leader && s'.role == Leader && s'.term == s.term
    ensures s'.uncommitted <= s.uncommitted || Onward(cfg, s, s')
  {
    hide Onward, ReadyRound, FlowInv, ConfsBelow;
    if CursorsOk(s.log) && s' == ReadyRound(cfg, s) {
      ReadyAboveLimit(cfg, s);
    } else if s' != s {
      OnwardAboveLimit(cfg, s, s');
    }
  }

  /** The counter exceeds the limit only by a batch that was taken in when it was zero, in the same
      leadership. */
  lemma {:induction false} CounterWithinLimit(cfg: Config, voters: set<nat>, boot: seq<Entry>, run: seq<Cluster>, i: nat, a: nat)
    requires Run(cfg, voters, boot, run) && i < |run| && a in voters
    ensures At(run, i, a) && WithinOrTaken(cfg, run, i, a)
  {
    if i > 0 {
      hide Moves, WithinOrTaken, LocalInv;
      RunMoves(cfg, voters, boot, run, i - 1, a);
      CounterWithinLimit(cfg, voters, boot, run, i - 1, a);
      TakenLater(cfg, run, i - 1, a);
    }
  }

  // ---------------------------------------------------------------- configuration changes

  /** Of the entries above `applied`, at most one is a configuration change of the leader's own term. */
  ghost predicate OneOwnConf(s: Node) {
    s.role == Leader ==>
      forall i, j :: s.log.applied <= i < |s.log.ents| && s.log.applied <= j < |s.log.ents| && OwnConf(s, i) && OwnConf(s, j)
        ==> i == j
  }

  ghost predicate OwnConf(s: Node, i: nat)
    requires i < |s.log.ents|
  {
    s.log.ents[i].kind == ConfChange && s.log.ents[i].term == s.term
  }

  /** A node that comes to lead a term holds no configuration change of that term yet. */
  lemma FreshLeader(cfg: Config, s: Node, s': Node)
    requires TermsInv(s) && Onward(cfg, s, s') && s'.role == Leader
    requires s.role != Leader || s.term != s'.term
    ensures OneOwnConf(s')
  {
    hide LeadsOn;
    assert TakesOffice(s.log.ents, s'.log.ents);
    assert s'.term >= 1 && TermsAtMost(s.log.ents, s'.term - 1);
    forall i | s'.log.applied <= i < |s'.log.ents| ensures !OwnConf(s', i) {
      if i < |s.log.ents| {
        assert s'.log.ents[i] == s.log.ents[i];
      }
    }
  }

  lemma LeadsOnOneConf(cfg: Config, s: Node, s': Node)
    requires OneOwnConf(s) && s.role == Leader && s'.role == Leader && s.term == s'.term
    requires LeadsOn(cfg, s, s') && s.log.applied == s'.log.applied
    ensures OneOwnConf(s')
  {
    hide Raised, Counted;
    var prior, batch := s.log.ents, s'.log.ents[|s.log.ents|..];
    forall i, j | s.log.applied <= i <= j < |s'.log.ents| && OwnConf(s', i) && OwnConf(s', j) ensures i == j {
      if j < |prior| {
        assert prior[i] == s'.log.ents[i] && prior[j] == s'.log.ents[j];
        assert OwnConf(s, i) && OwnConf(s, j);
      } else {
        assert batch[j - |prior|].kind == ConfChange;
        if i >= |prior| {
          assert batch[i - |prior|].kind == ConfChange;
        }
      }
    }
  }

  lemma ReadyOneConf(cfg: Config, s: Node)
    requires OneOwnConf(s) && CursorsOk(s.log)
    ensures OneOwnConf(ReadyRound(cfg, s))
  {
    ReadyShape(cfg, s);
    var r := ReadyRound(cfg, s);
    hide ReadyRound;
    assert forall i :: 0 <= i < |s.log.ents| && OwnConf(r, i) ==> OwnConf(s, i);
  }

  lemma OnwardOneConf(cfg: Config, s: Node, s': Node)
    requires LocalInv(s) && Onward(cfg, s, s') && OneOwnConf(s)
    ensures OneOwnConf(s')
  {
    hide OneOwnConf, LeadsOn, LedgerInv, PeersOk;
    if s'.role == Leader {
      if s.role == Leader && s.term == s'.term {
        LeadsOnOneConf(cfg, s, s');
      } else {
        FreshLeader(cfg, s, s');
      }
    } else {
      OnlyLeadersCount(s');
    }
  }

  lemma OnlyLeadersCount(s: Node)
    requires s.role != Leader
    ensures OneOwnConf(s)
  {
  }

  lemma OneConfStep(cfg: Config, s: Node, s': Node)
    requires LocalInv(s) && Moves(cfg, s, s') && OneOwnConf(s)
    ensures OneOwnConf(s')
  {
    hide LocalInv, OneOwnConf, Onward, ReadyRound;
    if CursorsOk(s.log) && s' == ReadyRound(cfg, s) {
      ReadyOneConf(cfg, s);
    } else if s' != s {
      OnwardOneConf(cfg, s, s');
    }
  }

  /** In every state of every run a leader has at most one unapplied configuration change of its own. */
  lemma {:induction false} SinglePendingConf(cfg: Config, voters: set<nat>, boot: seq<Entry>, run: seq<Cluster>, i: nat, a: nat)
    requires Run(cfg, voters, boot, run) && i < |run| && a in voters
    ensures At(run, i, a) && OneOwnConf(run[i].nodes[a])
  {
    if i > 0 {
      hide OneOwnConf, Moves, LocalInv;
      RunMoves(cfg, voters, boot, run, i - 1, a);
      SinglePendingConf(cfg, voters, boot, run, i - 1, a);
      OneConfStep(cfg, run[i - 1].nodes[a], run[i].nodes[a]);
    }
  }

  /** Whatever the configuration: a leader appends at most one configuration change at a time, and none
      while one, its own or inherited, is unapplied. */
  lemma ConfChangesGated(cfg: Config, voters: set<nat>, boot: seq<Entry>, run: seq<Cluster>, i: nat, a: nat)
    requires Run(cfg, voters, boot, run) && i + 1 < |run| && a in voters
    requires a in run[i].nodes && run[i].nodes[a].role == Leader
    requires a in run[i + 1].nodes && run[i + 1].nodes[a].role == Leader
    requires run[i].nodes[a].term == run[i + 1].nodes[a].term
    ensures Entries(run, i, a) <= Entries(run, i + 1, a)
    ensures Gated(Entries(run, i, a), run[i].nodes[a].log.applied, Entries(run, i + 1, a)[|Entries(run, i, a)|..])
  {
    hide Run, LocalInv;
    RunMoves(cfg, voters, boot, run, i, a);
    var s, s' := run[i].nodes[a], run[i + 1].nodes[a];
    LeadsOnRefl(cfg, s);
    if CursorsOk(s.log) && s' == ReadyRound(cfg, s) {
      ReadyShape(cfg, s);
    }
  }
}
