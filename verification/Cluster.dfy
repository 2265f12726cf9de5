/** The cluster: one node per voter and a network that never forgets a message, so that every message
    may be lost, delayed, reordered and delivered any number of times. */
module ClusterSpec {
  import opened Proto
  import opened LogSpec
  import opened ProgressSpec
  import opened RaftSpec

  datatype Cluster = Cluster(nodes: map<nat, Node>, net: set<Message>)

  /** What can happen at a node: a message arrives, its own clock or client speaks, or the
      application takes a Ready. Timeouts are free choices. */
  datatype Input =
    | Deliver(m: Message, recent: bool)
    | Local(m: Message)
    | TakeReady

  /** RawNode::step refuses local kinds and answers from strangers. */
  predicate Deliverable(s: Node, m: Message) {
    !IsLocal(m.kind) && (m.from in s.prs || !IsResponse(m.kind))
  }

  /** The clock checks the quorum only where the configuration asks for it. */
  predicate LocalInput(cfg: Config, m: Message) {
    && m.term == 0 && (IsLocal(m.kind) || (m.kind == MsgProp && m.entries != []))
    && (m.kind == MsgCheckQuorum ==> cfg.checkQuorum)
  }

  ghost predicate Enabled(cfg: Config, c: Cluster, n: nat, a: Input) {
    && n in c.nodes
    && match a
       case Deliver(m, _) => m in c.net && m.to == n && Deliverable(c.nodes[n], m)
       case Local(m) => LocalInput(cfg, m)
       case TakeReady => true
  }

  /** The node's reaction; a malformed append batch or cursors out of order count as fatal. */
  ghost function React(cfg: Config, s: Node, a: Input): (r: Result<Node>)
    ensures r.Ok? ==> Same(s, r.value)
  {
    match a
    case Deliver(m, recent) => if MessageWellFormed(m) then Step(cfg, s, m, recent) else Fatal
    case Local(m) => if MessageWellFormed(m) then Step(cfg, s, m, false) else Fatal
    case TakeReady => if CursorsOk(s.log) then Ok(ReadyRound(cfg, s)) else Fatal
  }

  /** Node `n` becomes `s` and what it sent goes to the network. */
  function Settle(c: Cluster, n: nat, s: Node): Cluster {
    Cluster(c.nodes[n := s.(msgs := {})], c.net + s.msgs)
  }

  ghost predicate StepOf(cfg: Config, c: Cluster, c': Cluster, n: nat, a: Input) {
    && Enabled(cfg, c, n, a)
    && React(cfg, c.nodes[n], a).Ok?
    && c' == Settle(c, n, React(cfg, c.nodes[n], a).value)
  }

  ghost predicate Next(cfg: Config, c: Cluster, c': Cluster) {
    exists n, a :: StepOf(cfg, c, c', n, a)
  }

  /** The entries RawNode writes when it bootstraps: numbered from 1, all of term 1. */
  predicate ValidBoot(boot: seq<Entry>) {
    Contiguous(boot, 1) && forall k :: 0 <= k < |boot| ==> boot[k].term == 1
  }

  function StartTerm(boot: seq<Entry>): nat {
    if boot == [] then 0 else 1
  }

  /** A node as the RawNode constructor leaves it; with no bootstrap entries, as Raft's does. */
  function InitialNode(cfg: Config, id: nat, voters: set<nat>, boot: seq<Entry>): (s: Node)
    requires id in voters && ValidBoot(boot)
  {
    NodeState(id, StartTerm(boot), 0, Follower, 0, RawLog(0, 0, boot, |boot|, 0), map[],
              map v | v in voters :: NewProgress(0, |boot| + 1, boot != [], cfg.maxInflight),
              0, 0, {})
  }

  ghost predicate Init(cfg: Config, c: Cluster, voters: set<nat>, boot: seq<Entry>) {
    && voters != {} && 0 !in voters
    && ValidBoot(boot)
    && c.nodes.Keys == voters
    && (forall v :: v in voters ==> c.nodes[v] == InitialNode(cfg, v, voters, boot))
    && c.net == {}
  }

  /** A finite run of the cluster. */
  ghost predicate Run(cfg: Config, voters: set<nat>, boot: seq<Entry>, run: seq<Cluster>) {
    && run != []
    && Init(cfg, run[0], voters, boot)
    && forall i :: 0 <= i < |run| - 1 ==> Next(cfg, run[i], run[i + 1])
  }
}
