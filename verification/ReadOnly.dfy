/** The queue of pending linearizable reads (raft-kv/raft/readonly.cpp). */
module ReadQueue {
  import opened Proto

  type Context = seq<byte>

  /** A pending request: its context, where it came from, its read index and who has confirmed. */
  datatype ReadStatus = ReadStatus(context: Context, from: nat, index: nat, acks: set<nat>)

  /** What becomes of a read: an entry of the node's own read states, or a MsgReadIndexResp. */
  datatype ReadAnswer = LocalRead(context: Context, index: nat) | RemoteRead(to: nat, context: Context, index: nat)

  /** Reads without an origin or from the node itself are its own. */
  function AnswerFor(self: nat, st: ReadStatus): ReadAnswer {
    if st.from == 0 || st.from == self then LocalRead(st.context, st.index) else RemoteRead(st.from, st.context, st.index)
  }

  ghost predicate Distinct(q: seq<Context>) {
    forall i, j :: 0 <= i < j < |q| ==> q[i] != q[j]
  }

  /** The queue lists exactly the pending contexts, each once. */
  ghost predicate QueueOk(q: seq<Context>, pending: map<Context, ReadStatus>) {
    && Distinct(q)
    && (forall c :: c in q <==> c in pending)
    && (forall c :: c in pending ==> pending[c].context == c)
  }

  /** Read indices do not fall along the queue. */
  ghost predicate InOrder(q: seq<Context>, pending: map<Context, ReadStatus>)
    requires QueueOk(q, pending)
  {
    forall i, j :: 0 <= i < j < |q| ==> pending[q[i]].index <= pending[q[j]].index
  }

  /** No pending read index is past `bound`. */
  ghost predicate AtMost(pending: map<Context, ReadStatus>, bound: nat) {
    forall c :: c in pending ==> pending[c].index <= bound
  }

  /** The pending requests of a stretch of the queue. */
  function Statuses(q: seq<Context>, pending: map<Context, ReadStatus>): seq<ReadStatus>
    requires forall i :: 0 <= i < |q| ==> q[i] in pending
  {
    seq(|q|, i requires 0 <= i < |q| => pending[q[i]])
  }

  /** The requests without those of a stretch of the queue. */
  function Without(pending: map<Context, ReadStatus>, gone: seq<Context>): map<Context, ReadStatus> {
    map c | c in pending && c !in gone :: pending[c]
  }

  lemma InSuffix(q: seq<Context>, n: nat, c: Context)
    requires Distinct(q) && n <= |q|
    ensures c in q[n..] <==> c in q && c !in q[..n]
  {
    assert q == q[..n] + q[n..];
    if c in q[n..] {
      var i :| 0 <= i < |q[n..]| && q[n..][i] == c;
      assert q[n + i] == c;
    }
  }

  /** Releasing a prefix of the queue leaves queue and map in agreement, ... */
  lemma ReleaseKeepsQueue(q: seq<Context>, pending: map<Context, ReadStatus>, n: nat)
    requires QueueOk(q, pending) && n <= |q|
    ensures QueueOk(q[n..], Without(pending, q[..n]))
  {
    forall c ensures c in q[n..] <==> c in Without(pending, q[..n]) {
      InSuffix(q, n, c);
    }
  }

  /** ... the rest in order, and no index higher. */
  lemma ReleaseKeepsOrder(q: seq<Context>, pending: map<Context, ReadStatus>, n: nat, bound: nat)
    requires QueueOk(q, pending) && n <= |q| && InOrder(q, pending)
    ensures QueueOk(q[n..], Without(pending, q[..n])) && InOrder(q[n..], Without(pending, q[..n]))
    ensures AtMost(pending, bound) ==> AtMost(Without(pending, q[..n]), bound)
  {
    ReleaseKeepsQueue(q, pending, n);
    var left, rest := Without(pending, q[..n]), q[n..];
    assert forall i :: 0 <= i < |rest| ==> rest[i] == q[n + i];
    forall i, j | 0 <= i < j < |rest| ensures left[rest[i]].index <= left[rest[j]].index {
      assert pending[q[n + i]].index <= pending[q[n + j]].index;
    }
  }

  /** A new request joins at the end; with an index no lower than the others the order is kept. */
  lemma AddKeepsOrder(q: seq<Context>, pending: map<Context, ReadStatus>, st: ReadStatus)
    requires QueueOk(q, pending) && st.context !in pending
    ensures QueueOk(q + [st.context], pending[st.context := st])
    ensures InOrder(q, pending) && AtMost(pending, st.index) ==>
              InOrder(q + [st.context], pending[st.context := st]) && AtMost(pending[st.context := st], st.index)
  {
    var q', p' := q + [st.context], pending[st.context := st];
    assert forall i :: 0 <= i < |q| ==> q'[i] == q[i] && q[i] in pending && q[i] != st.context;
  }

  /** New confirmations leave the order alone. */
  lemma SameIndices(q: seq<Context>, pending: map<Context, ReadStatus>, pending': map<Context, ReadStatus>, bound: nat)
    requires QueueOk(q, pending) && QueueOk(q, pending') && forall c :: c in pending ==> c in pending' && pending'[c].index == pending[c].index
    ensures InOrder(q, pending) ==> InOrder(q, pending')
    ensures AtMost(pending, bound) ==> AtMost(pending', bound)
  {
    assert forall i :: 0 <= i < |q| ==> q[i] in pending;
    assert forall c :: c in pending' ==> c in pending;
  }

  lemma QueuedArePending(q: seq<Context>, pending: map<Context, ReadStatus>)
    requires QueueOk(q, pending)
    ensures forall c :: c in q ==> c in pending
  {
  }

  /** Who has confirmed a read no longer matters once it is gone. */
  lemma WithoutConfirmed(pending: map<Context, ReadStatus>, pending': map<Context, ReadStatus>, gone: seq<Context>, context: Context)
    requires pending'.Keys == pending.Keys && context in gone
    requires forall c :: c in pending && c != context ==> pending'[c] == pending[c]
    ensures Without(pending', gone) == Without(pending, gone)
  {
  }

  class ReadOnly {
    const lease: bool
    var pending: map<Context, ReadStatus>
    var queue: seq<Context>

    ghost predicate Valid()
      reads this
    {
      QueueOk(queue, pending)
    }

    /** The read indices are in order and none is past `bound`. */
    ghost predicate Ordered(bound: nat)
      reads this
      requires Valid()
    {
      InOrder(queue, pending) && AtMost(pending, bound)
    }

    constructor (leaseBased: bool)
      ensures lease == leaseBased && Valid() && queue == [] && forall bound: nat :: Ordered(bound)
    {
      lease, pending, queue := leaseBased, map[], [];
    }

    /** Raft::reset drops everything. */
    method Reset()
      modifies this
      ensures Valid() && queue == [] && forall bound: nat :: Ordered(bound)
    {
      pending, queue := map[], [];
    }

    /** A context that is already pending is ignored; a new one joins the queue. The order is kept when the
        index is no lower than the pending ones. */
    method AddRequest(index: nat, from: nat, context: Context)
      requires Valid()
      modifies this
      ensures Valid()
      ensures if context in old(pending) then queue == old(queue) && pending == old(pending)
              else queue == old(queue) + [context]
                   && pending == old(pending)[context := ReadStatus(context, from, index, {})]
      ensures old(Ordered(index)) ==> Ordered(index)
    {
      if context in pending {
        return;
      }
      var st := ReadStatus(context, from, index, {});
      AddKeepsOrder(queue, pending, st);
      pending := pending[context := st];
      queue := queue + [context];
    }

    /** The number of confirmations, the local one included; 0 for a context that is not pending. */
    method RecvAck(from: nat, context: Context) returns (n: nat)
      requires Valid()
      modifies this
      ensures Valid() && queue == old(queue) && pending.Keys == old(pending).Keys
      ensures n == if context in pending then |pending[context].acks| + 1 else 0
      ensures forall c :: c in pending ==>
                pending[c] == if c == context then old(pending)[c].(acks := old(pending)[c].acks + {from}) else old(pending)[c]
      ensures forall bound: nat :: old(Ordered(bound)) ==> Ordered(bound)
    {
      ghost var before := pending;
      if context !in pending {
        return 0;
      }
      var st := pending[context];
      pending := pending[context := st.(acks := st.acks + {from})];
      n := |pending[context].acks| + 1;
      forall bound: nat ensures old(Ordered(bound)) ==> Ordered(bound) {
        SameIndices(queue, before, pending, bound);
      }
    }

    /** The context the next heartbeat carries: a read that confirming it would release together with every
        other pending one. */
    method LastPendingContext() returns (c: Option<Context>)
      requires Valid()
      ensures c.None? <==> pending == map[]
      ensures c.Some? ==> c.value in pending && forall d :: d in pending ==> d == c.value || d in queue[..|queue| - 1]
    {
      if queue == [] {
        assert pending == map[] by {
          assert forall d :: d in pending ==> d in queue;
        }
        return None;
      }
      c := Some(queue[|queue| - 1]);
      assert queue == queue[..|queue| - 1] + [c.value];
      assert c.value in queue;
    }

    /** The queue up to and with `context`, or the whole queue. Every queued context is found in the map, so
        the fatal branch is not reached. */
    method Collect(context: Context) returns (rss: seq<ReadStatus>, n: nat, found: bool)
      requires Valid()
      ensures n <= |queue| && (forall i :: 0 <= i < n ==> queue[i] in pending) && rss == Statuses(queue[..n], pending)
      ensures found == (context in pending)
      ensures if found then n > 0 && queue[n - 1] == context else n == |queue|
    {
      rss, n, found := [], 0, false;
      while n < |queue| && !found
        invariant 0 <= n <= |queue| && forall i :: 0 <= i < n ==> queue[i] in pending
        invariant found ==> n > 0 && queue[n - 1] == context
        invariant !found ==> forall i :: 0 <= i < n ==> queue[i] != context
        invariant rss == Statuses(queue[..n], pending)
      {
        var c := queue[n];
        assert c in pending;
        rss := rss + [pending[c]];
        found := c == context;
        n := n + 1;
      }
    }

    /** Releases exactly the prefix of the queue that ends at a pending context. For a context that is not
        pending nothing is released, although the whole queue is returned. */
    method Advance(context: Context) returns (rss: seq<ReadStatus>)
      requires Valid()
      modifies this
      ensures Valid()
      ensures forall c :: c in old(queue) ==> c in old(pending)
      ensures context in old(pending) ==>
                exists n :: 0 < n <= |old(queue)| && old(queue)[n - 1] == context
                  && rss == Statuses(old(queue)[..n], old(pending)) && queue == old(queue)[n..]
                  && pending == Without(old(pending), old(queue)[..n])
      ensures context !in old(pending) ==>
                queue == old(queue) && pending == old(pending) && rss == Statuses(queue, pending)
      ensures forall bound: nat :: old(Ordered(bound)) ==> Ordered(bound)
    {
      hide Without, QueueOk, InOrder, AtMost;
      QueuedArePending(queue, pending);
      var n, found;
      rss, n, found := Collect(context);
      assert queue[..|queue|] == queue;
      if found {
        ReleaseKeepsQueue(queue, pending, n);
        forall bound: nat ensures Ordered(bound) ==>
            InOrder(queue[n..], Without(pending, queue[..n])) && AtMost(Without(pending, queue[..n]), bound)
        {
          if Ordered(bound) {
            ReleaseKeepsOrder(queue, pending, n, bound);
          }
        }
        var left := Erase(n, rss);
        queue, pending := queue[n..], left;
      }
    }

    method Erase(n: nat, rss: seq<ReadStatus>) returns (left: map<Context, ReadStatus>)
      requires Valid() && n <= |queue| && (forall i :: 0 <= i < n ==> queue[i] in pending)
      requires rss == Statuses(queue[..n], pending)
      ensures left == Without(pending, queue[..n])
    {
      left := pending;
      var k := 0;
      while k < |rss|
        invariant 0 <= k <= |rss|
        invariant left == Without(pending, queue[..k])
      {
        assert rss[k].context == queue[k];
        assert queue[..k + 1] == queue[..k] + [queue[k]];
        left := left - {rss[k].context};
        k := k + 1;
      }
    }
  }
}
