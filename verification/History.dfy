/** What a run has established so far, kept as a history beside the cluster: each term's leader log,
    the elections, the votes with the voter's log at that moment, and the acknowledged positions. */
module History {
  import opened Proto
  import opened LogSpec
  import opened RaftSpec
  import opened Quorum

  datatype Ballot = Ballot(cand: nat, log: seq<Entry>)

  datatype Hist = Hist(
    voters: set<nat>,
    start: nat,                          // the term every node starts in; it has no leader
    pair: bool,                          // two voters whose elections count pre-votes and whose leaders never step down
    logs: map<nat, seq<Entry>>,          // term -> log of that term's leader, longest so far
    leader: map<nat, nat>,               // term -> who won it
    quorum: map<nat, set<nat>>,          // term -> the voters whose votes won it
    cand: map<(nat, nat), seq<Entry>>,   // (term, node) -> the log it campaigned with
    votes: map<(nat, nat), Ballot>,      // (voter, term) -> first grant
    acks: map<(nat, nat), nat>)          // (voter, term) -> highest index acknowledged in that term

  function Ack(h: Hist, v: nat, t: nat): nat {
    if (v, t) in h.acks then h.acks[(v, t)] else 0
  }

  /** Both logs have the same first `i` entries. */
  predicate Agree(a: seq<Entry>, b: seq<Entry>, i: nat) {
    i <= |a| && i <= |b| && a[..i] == b[..i]
  }

  function LastTermOf(log: seq<Entry>): nat {
    if log == [] then 0 else log[|log| - 1].term
  }

  function TermOf(log: seq<Entry>, i: nat): nat {
    if i == 0 || i > |log| then 0 else log[i - 1].term
  }

  /** Candidate log `a` may get the vote of a node holding `b`. */
  predicate UpToDate(a: seq<Entry>, b: seq<Entry>) {
    LastTermOf(a) > LastTermOf(b) || (LastTermOf(a) == LastTermOf(b) && |a| >= |b|)
  }

  ghost predicate EntryOk(logs: map<nat, seq<Entry>>, log: seq<Entry>, k: nat)
    requires k < |log|
  {
    && log[k].term >= 1 && log[k].index == k + 1
    && log[k].term in logs && Agree(log, logs[log[k].term], k + 1)
  }

  /** Every entry of term t sits on a prefix of term t's leader log. */
  ghost predicate LogOk(logs: map<nat, seq<Entry>>, log: seq<Entry>) {
    forall k {:trigger EntryOk(logs, log, k)} :: 0 <= k < |log| ==> EntryOk(logs, log, k)
  }

  predicate TermsAtMost(log: seq<Entry>, t: nat) {
    forall k :: 0 <= k < |log| ==> log[k].term <= t
  }

  /** `log` still holds the first `i` entries of term t's leader, unless a leader of a term in
      (t, bound) did not have them. */
  ghost predicate Kept(logs: map<nat, seq<Entry>>, t: nat, i: nat, log: seq<Entry>, bound: nat)
    requires t in logs
  {
    Agree(log, logs[t], i) || exists u :: t < u < bound && Diverges(logs, u, t, i)
  }

  /** All of the first `a` positions of term t's leader are kept. */
  ghost predicate KeptUpTo(logs: map<nat, seq<Entry>>, t: nat, a: nat, log: seq<Entry>, bound: nat) {
    t in logs && forall i {:trigger Kept(logs, t, i, log, bound)} :: 0 <= i <= a ==> Kept(logs, t, i, log, bound)
  }

  ghost predicate Diverges(logs: map<nat, seq<Entry>>, u: nat, t: nat, i: nat)
    requires t in logs
  {
    u in logs && !Agree(logs[u], logs[t], i)
  }

  function AckedBy(h: Hist, t: nat, i: nat): set<nat> {
    set v | v in h.voters && Ack(h, v, t) >= i
  }

  /** A majority acknowledged index i of term t's leader, and the entry there is of term t itself. */
  ghost predicate CommitPoint(h: Hist, t: nat, i: nat) {
    && t in h.logs
    && 1 <= i <= |h.logs[t]|
    && h.logs[t][i - 1].term == t
    && IsMajority(AckedBy(h, t, i), h.voters)
  }

  /** The first `c` entries of `log` lie below a commit point of a term at most t. */
  ghost predicate CommitOk(h: Hist, log: seq<Entry>, t: nat, c: nat) {
    c == 0 || exists u: nat, i: nat :: CommitPoint(h, u, i) && u <= t && c <= i && Agree(log, h.logs[u], c)
  }

  // ---------------------------------------------------------------- invariants of the history

  ghost predicate LeaderLogOk(h: Hist, t: nat)
    requires t in h.logs
  {
    t >= h.start && LogOk(h.logs, h.logs[t]) && TermsAtMost(h.logs[t], t)
  }

  ghost predicate LogsInv(h: Hist) {
    && h.start in h.logs
    && h.start !in h.leader
    && h.logs.Keys == h.leader.Keys + {h.start}
    && (forall t {:trigger LeaderLogOk(h, t)} :: t in h.logs ==> LeaderLogOk(h, t))
  }

  ghost predicate CandOk(h: Hist, t: nat, c: nat)
    requires (t, c) in h.cand
  {
    t > h.start && LogOk(h.logs, h.cand[(t, c)]) && TermsAtMost(h.cand[(t, c)], t - 1)
  }

  ghost predicate CandInv(h: Hist) {
    forall t, c {:trigger CandOk(h, t, c)} :: (t, c) in h.cand ==> CandOk(h, t, c)
  }

  ghost predicate VoteOk(h: Hist, v: nat, t: nat)
    requires (v, t) in h.votes
  {
    && (t, h.votes[(v, t)].cand) in h.cand
    && LogOk(h.logs, h.votes[(v, t)].log)
    && UpToDate(h.cand[(t, h.votes[(v, t)].cand)], h.votes[(v, t)].log)
  }

  ghost predicate VoteInv(h: Hist) {
    forall v, t {:trigger VoteOk(h, v, t)} :: (v, t) in h.votes ==> VoteOk(h, v, t)
  }

  /** Beyond what its leader campaigned with, a term's log has entries of that term only. */
  ghost predicate Extension(log: seq<Entry>, from: seq<Entry>, t: nat) {
    from <= log && forall k :: |from| <= k < |log| ==> log[k].term == t
  }

  ghost predicate VotedFor(h: Hist, v: nat, t: nat, c: nat) {
    (v, t) in h.votes && h.votes[(v, t)].cand == c
  }

  ghost predicate ElectionOk(h: Hist, t: nat)
    requires t in h.leader
  {
    && h.leader[t] in h.voters && t in h.logs && t in h.quorum
    && Blocks(h.quorum[t], h.voters)
    && (forall v {:trigger VotedFor(h, v, t, h.leader[t])} :: v in h.quorum[t] ==> VotedFor(h, v, t, h.leader[t]))
    && (t, h.leader[t]) in h.cand
    && Extension(h.logs[t], h.cand[(t, h.leader[t])], t)
  }

  ghost predicate ElectionInv(h: Hist) {
    forall t {:trigger ElectionOk(h, t)} :: t in h.leader ==> ElectionOk(h, t)
  }

  ghost predicate AckOk(h: Hist, v: nat, t: nat)
    requires (v, t) in h.acks
  {
    t in h.logs && h.acks[(v, t)] <= |h.logs[t]|
  }

  ghost predicate AckInv(h: Hist) {
    forall v, t {:trigger AckOk(h, v, t)} :: (v, t) in h.acks ==> AckOk(h, v, t)
  }

  /** The votes that can decide an election of term t: all while it is open, the counted ones after. */
  predicate Decisive(h: Hist, v: nat, t: nat) {
    t !in h.leader || (t in h.quorum && v in h.quorum[t])
  }

  /** What a voter acknowledged in term u was in its log when it cast a decisive vote in term t. */
  ghost predicate BallotOk(h: Hist, v: nat, t: nat, u: nat)
    requires (v, t) in h.votes && (v, u) in h.acks
  {
    Decisive(h, v, t) ==> KeptUpTo(h.logs, u, h.acks[(v, u)], h.votes[(v, t)].log, t)
  }

  ghost predicate BallotInv(h: Hist) {
    forall v, t, u {:trigger BallotOk(h, v, t, u)} ::
      (v, t) in h.votes && (v, u) in h.acks && u < t ==> BallotOk(h, v, t, u)
  }

  ghost predicate HistInv(h: Hist) {
    && h.voters != {} && 0 !in h.voters && (h.pair ==> |h.voters| == 2)
    && LogsInv(h) && CandInv(h) && VoteInv(h) && ElectionInv(h) && AckInv(h) && BallotInv(h)
  }

  // ---------------------------------------------------------------- log matching and leader completeness

  lemma SameTermSamePrefix(logs: map<nat, seq<Entry>>, a: seq<Entry>, b: seq<Entry>, i: nat)
    requires LogOk(logs, a) && LogOk(logs, b)
    requires 1 <= i <= |a| && i <= |b| && a[i - 1].term == b[i - 1].term
    ensures Agree(a, b, i)
  {
    assert EntryOk(logs, a, i - 1) && EntryOk(logs, b, i - 1);
  }

  lemma AgreeAt(a: seq<Entry>, b: seq<Entry>, i: nat, k: nat)
    requires Agree(a, b, i) && k < i
    ensures a[k] == b[k]
  {
    assert a[..i][k] == b[..i][k];
  }

  lemma DifferAt(a: seq<Entry>, b: seq<Entry>, i: nat, k: nat)
    requires k < i && (k < |a| && k < |b| ==> a[k] != b[k])
    ensures !Agree(a, b, i)
  {
    if Agree(a, b, i) {
      AgreeAt(a, b, i, k);
      assert false;
    }
  }

  lemma AgreeShorter(a: seq<Entry>, b: seq<Entry>, i: nat, j: nat)
    requires Agree(a, b, i) && j <= i
    ensures Agree(a, b, j)
  {
    assert a[..j] == a[..i][..j];
    assert b[..j] == b[..i][..j];
  }

  lemma AgreeTrans(a: seq<Entry>, b: seq<Entry>, c: seq<Entry>, i: nat, j: nat)
    requires Agree(a, b, i) && Agree(b, c, j)
    ensures Agree(a, c, Min(i, j))
  {
    AgreeShorter(a, b, i, Min(i, j));
    AgreeShorter(b, c, j, Min(i, j));
  }

  lemma TermsSorted(h: Hist, log: seq<Entry>, j: nat, k: nat)
    requires LogsInv(h) && LogOk(h.logs, log)
    requires j <= k < |log|
    ensures log[j].term <= log[k].term
  {
    assert EntryOk(h.logs, log, k);
    var lt := h.logs[log[k].term];
    assert LeaderLogOk(h, log[k].term);
    AgreeAt(log, lt, k + 1, j);
  }

  /** A log holding an entry of term u > t holds the first i entries of term t's leader, if term u's
      leader does. */
  lemma LaterEntryCarriesPrefix(h: Hist, log: seq<Entry>, t: nat, i: nat)
    requires LogsInv(h) && t in h.logs && i <= |h.logs[t]|
    requires LogOk(h.logs, log) && log != [] && LastTermOf(log) > t
    requires LastTermOf(log) in h.logs ==> Agree(h.logs[LastTermOf(log)], h.logs[t], i)
    ensures Agree(log, h.logs[t], i)
  {
    var u := LastTermOf(log);
    assert EntryOk(h.logs, log, |log| - 1);
    var lu := h.logs[u];
    assert LeaderLogOk(h, t);
    if |log| <= i {
      var k := |log| - 1;
      AgreeAt(log, lu, |log|, k);
      AgreeAt(lu, h.logs[t], i, k);
      assert false;
    }
    AgreeTrans(log, lu, h.logs[t], |log|, i);
  }

  /** A log at least as up to date as one that holds a commit point's prefix holds it too. */
  lemma UpToDateCarriesPrefix(h: Hist, a: seq<Entry>, b: seq<Entry>, t: nat, i: nat)
    requires HistInv(h) && CommitPoint(h, t, i)
    requires LogOk(h.logs, a) && LogOk(h.logs, b)
    requires Agree(b, h.logs[t], i) && UpToDate(a, b)
    requires LastTermOf(a) > t && LastTermOf(a) in h.logs ==> Agree(h.logs[LastTermOf(a)], h.logs[t], i)
    ensures Agree(a, h.logs[t], i)
  {
    AgreeAt(b, h.logs[t], i, i - 1);
    TermsSorted(h, b, i - 1, |b| - 1);
    if LastTermOf(a) > t {
      LaterEntryCarriesPrefix(h, a, t, i);
    } else {
      assert LastTermOf(a) == LastTermOf(b) == t && |a| >= |b|;
      assert EntryOk(h.logs, a, |a| - 1);
      AgreeShorter(a, h.logs[t], |a|, i);
    }
  }

  /** Some voter behind term u's election had acknowledged the commit point before. */
  lemma SharedVoter(h: Hist, t: nat, i: nat, u: nat) returns (log: seq<Entry>)
    requires HistInv(h) && CommitPoint(h, t, i)
    requires t < u && u in h.leader
    ensures (u, h.leader[u]) in h.cand
    ensures LogOk(h.logs, log) && UpToDate(h.cand[(u, h.leader[u])], log)
    ensures Kept(h.logs, t, i, log, u)
  {
    assert ElectionOk(h, u);
    var v := MajorityMeets(AckedBy(h, t, i), h.quorum[u], h.voters);
    assert VotedFor(h, v, u, h.leader[u]);
    assert VoteOk(h, v, u) && BallotOk(h, v, u, t);
    log := h.votes[(v, u)].log;
  }

  /** Leader completeness: a commit point of term t is in the log of every later term's leader,
      already when it campaigned. */
  lemma {:induction false} LeaderCompleteness(h: Hist, t: nat, i: nat, u: nat)
    requires HistInv(h) && CommitPoint(h, t, i)
    requires t < u && u in h.logs
    ensures Agree(h.logs[u], h.logs[t], i)
    ensures u in h.leader && (u, h.leader[u]) in h.cand && |h.cand[(u, h.leader[u])]| >= i
    decreases u
  {
    assert LeaderLogOk(h, t);
    var log := SharedVoter(h, t, i, u);
    if !Agree(log, h.logs[t], i) {
      var w :| t < w < u && Diverges(h.logs, w, t, i);
      LeaderCompleteness(h, t, i, w);
      assert false;
    }
    assert ElectionOk(h, u) && CandOk(h, u, h.leader[u]);
    var a := h.cand[(u, h.leader[u])];
    if LastTermOf(a) > t && LastTermOf(a) in h.logs {
      LeaderCompleteness(h, t, i, LastTermOf(a));
    }
    UpToDateCarriesPrefix(h, a, log, t, i);
    CampaignLogIsPrefix(h, u);
    AgreeTrans(h.logs[u], a, h.logs[t], |a|, i);
  }

  lemma CampaignLogIsPrefix(h: Hist, u: nat)
    requires u in h.leader && ElectionOk(h, u)
    ensures Agree(h.logs[u], h.cand[(u, h.leader[u])], |h.cand[(u, h.leader[u])]|)
  {
    assert h.cand[(u, h.leader[u])] <= h.logs[u];
  }

  lemma LeaderHasPoint(h: Hist, t: nat, i: nat, u: nat, c: nat)
    requires HistInv(h) && CommitPoint(h, t, i)
    requires t <= u && u in h.logs && c <= i
    ensures Agree(h.logs[u], h.logs[t], c)
  {
    if t < u {
      LeaderCompleteness(h, t, i, u);
      AgreeShorter(h.logs[u], h.logs[t], i, c);
    }
  }

  /** The commit point behind a committed prefix. */
  lemma CommitWitness(h: Hist, log: seq<Entry>, t: nat, c: nat) returns (u: nat, i: nat)
    requires CommitOk(h, log, t, c) && c != 0
    ensures CommitPoint(h, u, i) && u <= t && c <= i && Agree(log, h.logs[u], c)
  {
    u, i :| CommitPoint(h, u, i) && u <= t && c <= i && Agree(log, h.logs[u], c);
  }

  /** A leader's log contains every prefix committed in its term or earlier. */
  lemma LeaderHoldsCommitted(h: Hist, log: seq<Entry>, t: nat, c: nat, u: nat)
    requires HistInv(h) && CommitOk(h, log, t, c)
    requires t <= u && u in h.logs
    ensures Agree(h.logs[u], log, c)
  {
    if c != 0 {
      var t0, i := CommitWitness(h, log, t, c);
      LeaderHasPoint(h, t0, i, u, c);
    }
  }

  /** Two committed prefixes agree as far as both go. */
  lemma CommittedPrefixesAgree(h: Hist, a: seq<Entry>, t: nat, c: nat, b: seq<Entry>, u: nat, d: nat)
    requires HistInv(h)
    requires CommitOk(h, a, t, c) && CommitOk(h, b, u, d)
    ensures Agree(a, b, Min(c, d))
  {
    if c != 0 && d != 0 {
      var t0, i := CommitWitness(h, a, t, c);
      var u0, j := CommitWitness(h, b, u, d);
      if t0 <= u0 {
        LeaderHasPoint(h, t0, i, u0, c);
        AgreeTrans(b, h.logs[u0], h.logs[t0], d, c);
        AgreeTrans(a, h.logs[t0], b, c, Min(c, d));
      } else {
        LeaderHasPoint(h, u0, j, t0, d);
        AgreeTrans(a, h.logs[t0], h.logs[u0], c, d);
        AgreeTrans(a, h.logs[u0], b, Min(c, d), d);
      }
    }
  }
}
