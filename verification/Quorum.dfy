/** Majorities of a fixed voter set. */
module Quorum {
  /** Raft::quorum. */
  function QuorumSize(n: nat): nat {
    n / 2 + 1
  }

  predicate IsMajority(q: set<nat>, voters: set<nat>) {
    q <= voters && |q| >= QuorumSize(|voters|)
  }

  lemma SubsetCardinality<T>(a: set<T>, b: set<T>)
    requires a <= b
    ensures |a| <= |b|
    decreases b
  {
    if a != {} {
      var x :| x in a;
      SubsetCardinality(a - {x}, b - {x});
    }
  }

  /** Large enough to meet every majority. */
  predicate Blocks(q: set<nat>, voters: set<nat>) {
    q <= voters && |q| + QuorumSize(|voters|) > |voters|
  }

  /** Any two majorities of the same voters share a member. */
  lemma MajoritiesIntersect(a: set<nat>, b: set<nat>, voters: set<nat>) returns (x: nat)
    requires IsMajority(a, voters) && IsMajority(b, voters)
    ensures x in a && x in b
  {
    x := MajorityMeets(a, b, voters);
  }

  lemma MajorityMeets(a: set<nat>, b: set<nat>, voters: set<nat>) returns (x: nat)
    requires IsMajority(a, voters) && Blocks(b, voters)
    ensures x in a && x in b
  {
    if a * b == {} {
      assert |a + b| == |a| + |b|;
      SubsetCardinality(a + b, voters);
      assert false;
    }
    x :| x in a * b;
  }

  function AtLeast(matches: map<nat, nat>, x: nat): set<nat> {
    set v | v in matches && matches[v] >= x
  }

  /** The greatest index that a majority has matched. */
  ghost predicate IsQuorumIndex(matches: map<nat, nat>, x: nat) {
    && |AtLeast(matches, x)| >= QuorumSize(|matches|)
    && forall y :: y > x ==> |AtLeast(matches, y)| < QuorumSize(|matches|)
  }

  lemma MatchesBounded(matches: map<nat, nat>, keys: set<nat>) returns (bound: nat)
    requires keys <= matches.Keys
    ensures forall v :: v in keys ==> matches[v] < bound
    decreases keys
  {
    if keys == {} {
      bound := 0;
    } else {
      var k :| k in keys;
      var b := MatchesBounded(matches, keys - {k});
      bound := if matches[k] < b then b else matches[k] + 1;
    }
  }

  lemma QuorumIndexBelow(matches: map<nat, nat>, hi: nat) returns (x: nat)
    requires matches != map[]
    requires forall y :: y >= hi ==> |AtLeast(matches, y)| < QuorumSize(|matches|)
    ensures IsQuorumIndex(matches, x)
    decreases hi
  {
    assert AtLeast(matches, 0) == matches.Keys;
    assert |matches.Keys| == |matches|;
    if |AtLeast(matches, hi - 1)| >= QuorumSize(|matches|) {
      x := hi - 1;
    } else {
      x := QuorumIndexBelow(matches, hi - 1);
    }
  }

  lemma QuorumIndexExists(matches: map<nat, nat>)
    requires matches != map[]
    ensures exists x :: IsQuorumIndex(matches, x)
  {
    var bound := MatchesBounded(matches, matches.Keys);
    forall y | y >= bound ensures |AtLeast(matches, y)| < QuorumSize(|matches|) {
      assert AtLeast(matches, y) == {};
    }
    var x := QuorumIndexBelow(matches, bound);
  }

  ghost function QuorumIndex(matches: map<nat, nat>): (x: nat)
    requires matches != map[]
    ensures IsQuorumIndex(matches, x)
  {
    QuorumIndexExists(matches);
    var x :| IsQuorumIndex(matches, x);
    x
  }

  lemma QuorumIndexUnique(matches: map<nat, nat>, x: nat, y: nat)
    requires IsQuorumIndex(matches, x) && IsQuorumIndex(matches, y)
    ensures x == y
  {
    assert !(x < y);
    assert !(y < x);
  }

  // ---------------------------------------------------------------- picking it from a sorted list

  /** How many elements are at least `x`. */
  function CountAtLeast(s: seq<nat>, x: nat): nat {
    if s == [] then 0 else CountAtLeast(s[..|s| - 1], x) + (if s[|s| - 1] >= x then 1 else 0)
  }

  predicate Ascending(s: seq<nat>) {
    forall i, j :: 0 <= i < j < |s| ==> s[i] <= s[j]
  }

  lemma {:induction false} CountConcat(a: seq<nat>, b: seq<nat>, x: nat)
    ensures CountAtLeast(a + b, x) == CountAtLeast(a, x) + CountAtLeast(b, x)
    decreases |b|
  {
    if b == [] {
      assert a + b == a;
    } else {
      assert (a + b)[..|a + b| - 1] == a + b[..|b| - 1];
      CountConcat(a, b[..|b| - 1], x);
    }
  }

  lemma {:induction false} CountBounds(s: seq<nat>, x: nat)
    ensures CountAtLeast(s, x) <= |s|
    ensures (forall i :: 0 <= i < |s| ==> s[i] >= x) ==> CountAtLeast(s, x) == |s|
    ensures (forall i :: 0 <= i < |s| ==> s[i] < x) ==> CountAtLeast(s, x) == 0
  {
    if s != [] {
      CountBounds(s[..|s| - 1], x);
    }
  }

  lemma ReachedBy(s: seq<nat>, k: nat)
    requires Ascending(s) && k < |s|
    ensures CountAtLeast(s, s[k]) >= |s| - k
  {
    hide CountAtLeast;
    assert s == s[..k] + s[k..];
    CountConcat(s[..k], s[k..], s[k]);
    CountBounds(s[k..], s[k]);
  }

  lemma NotReachedBy(s: seq<nat>, k: nat, y: nat)
    requires Ascending(s) && k < |s| && s[k] < y
    ensures CountAtLeast(s, y) < |s| - k
  {
    hide CountAtLeast;
    assert s == s[..k + 1] + s[k + 1..];
    CountConcat(s[..k + 1], s[k + 1..], y);
    CountBounds(s[..k + 1], y);
    CountBounds(s[k + 1..], y);
  }

  /** In an ascending list the element `n` from the end is reached by at least `n` elements, and anything
      greater by fewer. */
  lemma PickFromEnd(s: seq<nat>, n: nat)
    requires Ascending(s) && 1 <= n <= |s|
    ensures CountAtLeast(s, s[|s| - n]) >= n
    ensures forall y :: y > s[|s| - n] ==> CountAtLeast(s, y) < n
  {
    hide CountAtLeast, Ascending;
    ReachedBy(s, |s| - n);
    forall y | y > s[|s| - n] ensures CountAtLeast(s, y) < n {
      NotReachedBy(s, |s| - n, y);
    }
  }

  /** The place of the sort in maybe_commit. */
  method SortAscending(s: seq<nat>) returns (r: seq<nat>)
    ensures Ascending(r) && |r| == |s|
    ensures forall x :: CountAtLeast(r, x) == CountAtLeast(s, x)
  {
    r := [];
    var i := 0;
    while i < |s|
      invariant 0 <= i <= |s| && |r| == i && Ascending(r)
      invariant forall x :: CountAtLeast(r, x) == CountAtLeast(s[..i], x)
    {
      ghost var before := r;
      r := InsertAscending(r, s[i]);
      assert s[..i + 1][..i] == s[..i];
      i := i + 1;
    }
    assert s[..|s|] == s;
  }

  lemma InsertCount(s: seq<nat>, k: nat, e: nat)
    requires k <= |s|
    ensures forall x :: CountAtLeast(s[..k] + [e] + s[k..], x) == CountAtLeast(s, x) + (if e >= x then 1 else 0)
  {
    hide CountAtLeast;
    forall x: nat ensures CountAtLeast(s[..k] + [e] + s[k..], x) == CountAtLeast(s, x) + (if e >= x then 1 else 0) {
      CountConcat(s[..k] + [e], s[k..], x);
      CountConcat(s[..k], [e], x);
      CountConcat(s[..k], s[k..], x);
      CountOne(e, x);
      assert s == s[..k] + s[k..];
    }
  }

  lemma CountOne(e: nat, x: nat)
    ensures CountAtLeast([e], x) == if e >= x then 1 else 0
  {
    assert [e][..0] == [];
    assert CountAtLeast([], x) == 0;
  }

  lemma InsertSorted(s: seq<nat>, k: nat, e: nat)
    requires Ascending(s) && k <= |s| && (k > 0 ==> s[k - 1] <= e) && forall i :: k <= i < |s| ==> s[i] > e
    ensures Ascending(s[..k] + [e] + s[k..])
  {
    var r := s[..k] + [e] + s[k..];
    forall i, j | 0 <= i < j < |r| ensures r[i] <= r[j] {
      assert r[i] == if i < k then s[i] else if i == k then e else s[i - 1];
      assert r[j] == if j < k then s[j] else if j == k then e else s[j - 1];
    }
  }

  method InsertAscending(s: seq<nat>, e: nat) returns (r: seq<nat>)
    requires Ascending(s)
    ensures Ascending(r) && |r| == |s| + 1
    ensures forall x :: CountAtLeast(r, x) == CountAtLeast(s, x) + (if e >= x then 1 else 0)
  {
    hide CountAtLeast;
    var k := |s|;
    while k > 0 && s[k - 1] > e
      invariant 0 <= k <= |s|
      invariant forall i :: k <= i < |s| ==> s[i] > e
    {
      k := k - 1;
    }
    r := s[..k] + [e] + s[k..];
    InsertCount(s, k, e);
    InsertSorted(s, k, e);
  }

  /** maybe_commit's choice: the matches are collected in any order, sorted, and the one `quorum` from the
      end is the greatest index a majority has reached. */
  method PickQuorumIndex(matches: map<nat, nat>) returns (x: nat)
    requires matches != map[]
    ensures IsQuorumIndex(matches, x) && x == QuorumIndex(matches)
  {
    hide AtLeast;
    var buf: seq<nat> := [];
    var left := matches.Keys;
    assert |matches.Keys| == |matches|;
    NoneAtLeast(matches);
    while left != {}
      invariant left <= matches.Keys && |buf| + |left| == |matches|
      invariant forall y :: CountAtLeast(buf, y) == |AtLeastIn(matches, matches.Keys - left, y)|
      decreases left
    {
      var v :| v in left;
      OneMoreAtLeast(matches, left, v);
      assert (buf + [matches[v]])[..|buf|] == buf;
      buf := buf + [matches[v]];
      left := left - {v};
    }
    AllAtLeast(matches, left);
    buf := SortAscending(buf);
    var n := |matches| / 2 + 1;
    PickFromEnd(buf, n);
    x := buf[|buf| - n];
    QuorumIndexUnique(matches, x, QuorumIndex(matches));
  }

  function AtLeastIn(matches: map<nat, nat>, keys: set<nat>, x: nat): set<nat>
    requires keys <= matches.Keys
  {
    set v | v in keys && matches[v] >= x
  }

  lemma NoneAtLeast(matches: map<nat, nat>)
    ensures forall y :: |AtLeastIn(matches, matches.Keys - matches.Keys, y)| == 0
  {
    forall y ensures |AtLeastIn(matches, matches.Keys - matches.Keys, y)| == 0 {
      assert AtLeastIn(matches, matches.Keys - matches.Keys, y) == {};
    }
  }

  lemma OneMoreAtLeast(matches: map<nat, nat>, left: set<nat>, v: nat)
    requires left <= matches.Keys && v in left
    ensures forall y :: |AtLeastIn(matches, matches.Keys - (left - {v}), y)| ==
                        |AtLeastIn(matches, matches.Keys - left, y)| + (if matches[v] >= y then 1 else 0)
  {
    forall y ensures |AtLeastIn(matches, matches.Keys - (left - {v}), y)| ==
                     |AtLeastIn(matches, matches.Keys - left, y)| + (if matches[v] >= y then 1 else 0)
    {
      var before, after := AtLeastIn(matches, matches.Keys - left, y), AtLeastIn(matches, matches.Keys - (left - {v}), y);
      assert after == if matches[v] >= y then before + {v} else before;
    }
  }

  lemma AllAtLeast(matches: map<nat, nat>, left: set<nat>)
    requires left == {}
    ensures forall y :: AtLeastIn(matches, matches.Keys - left, y) == AtLeast(matches, y)
  {
  }
}
