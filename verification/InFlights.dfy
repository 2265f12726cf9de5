/** The growable ring of in-flight indices (raft-kv/raft/progress.h, progress.cpp) and the follower's
    progress that owns one, as the objects the source updates in place. Each method is proved against
    the queue and the record of ProgressSpec. */
module Inflight {
  import opened Proto
  import opened ProgressSpec

  /** Up to this capacity no 32-bit counter of the ring wraps. */
  const MAX_CAPACITY: nat := 0x8000_0000

  /** Where the i-th element from `start` lives in a ring of `size` slots. */
  function Slot(start: nat, i: nat, size: nat): nat {
    if start + i < size then start + i else start + i - size
  }

  /** The occupied slots are allocated: they have not wrapped, or the buffer has its full size. */
  ghost predicate RingOk(buffer: seq<nat>, start: nat, count: nat, size: nat) {
    && count <= size && |buffer| <= size
    && (count == 0 ==> start == 0)
    && (count > 0 ==> start < |buffer|)
    && (start + count <= |buffer| || |buffer| == size)
  }

  /** The queue a ring stands for, oldest first. */
  ghost function Unrolled(buffer: seq<nat>, start: nat, count: nat, size: nat): (q: seq<nat>)
    requires RingOk(buffer, start, count, size)
    ensures |q| == count
    ensures forall i :: 0 <= i < count ==> q[i] == buffer[Slot(start, i, size)]
  {
    seq(count, i requires 0 <= i < count => buffer[Slot(start, i, size)])
  }

  lemma SmallStays(n: nat)
    requires n < 0x1_0000_0000
    ensures Wrap32(n) == n
  {
  }

  class InFlights {
    var start: nat
    var count: nat
    const size: nat
    var buffer: seq<nat>

    ghost predicate Valid()
      reads this
    {
      size <= MAX_CAPACITY && RingOk(buffer, start, count, size)
    }

    ghost function Contents(): (q: seq<nat>)
      reads this
      requires Valid()
      ensures |q| == count
    {
      Unrolled(buffer, start, count, size)
    }

    constructor (capacity: nat)
      requires Wrap32(capacity) <= MAX_CAPACITY
      ensures Valid() && Contents() == [] && size == Wrap32(capacity)
    {
      start, count, size, buffer := 0, 0, Wrap32(capacity), [];
    }

    method Reset()
      requires Valid()
      modifies this
      ensures Valid() && Contents() == []
    {
      start, count := 0, 0;
    }

    method IsFull() returns (full: bool)
      requires Valid()
      ensures full == (|Contents()| == size)
    {
      full := size == count;
    }

    /** Fails, as the source aborts, exactly on a full window; otherwise appends, growing at most once. */
    method Add(inflight: nat) returns (ok: bool)
      requires Valid()
      modifies this
      ensures Valid()
      ensures ok == (|old(Contents())| < size)
      ensures Contents() == if ok then old(Contents()) + [inflight] else old(Contents())
    {
      if size == count {
        return false;
      }
      SmallStays(start + count);
      hide Wrap32;
      var next := Wrap32(start + count);
      if next >= size {
        next := next - size;
      }
      assert next == Slot(start, count, size);
      if next >= |buffer| {
        SmallStays(|buffer| * 2);
        var newSize := Wrap32(|buffer| * 2);
        if newSize == 0 {
          newSize := 1;
        } else if newSize > size {
          newSize := size;
        }
        buffer := buffer + seq(newSize - |buffer|, _ => 0);
      }
      ghost var before := old(Contents());
      assert forall i :: 0 <= i < count ==> buffer[Slot(start, i, size)] == before[i] && Slot(start, i, size) != next;
      buffer := buffer[next := inflight];
      count := count + 1;
      ok := true;
      assert Contents() == before + [inflight];
    }

    /** Frees the leading elements at or below `to`. */
    method FreeTo(to: nat)
      requires Valid()
      modifies this
      ensures Valid() && Contents() == ProgressSpec.FreeTo(old(Contents()), to)
    {
      ghost var q := Contents();
      if count == 0 || to < buffer[start] {
        return;
      }
      var idx, i := start, 0;
      while i < count
        invariant 0 <= i <= count
        invariant idx == Slot(start, i, size)
        invariant q == Unrolled(buffer, start, count, size)
        invariant ProgressSpec.FreeTo(q, to) == ProgressSpec.FreeTo(q[i..], to)
      {
        assert q[i..][0] == buffer[idx];
        if to < buffer[idx] {
          break;
        }
        assert q[i..][1..] == q[i + 1..];
        idx := idx + 1;
        if idx >= size {
          idx := idx - size;
        }
        i := i + 1;
      }
      assert ProgressSpec.FreeTo(q, to) == q[i..];
      count := count - i;
      start := idx;
      if count == 0 {
        start := 0;
      }
      assert Contents() == q[i..];
    }

    /** The source reads the first slot here, so there must be one. */
    method FreeFirstOne()
      requires Valid() && count > 0
      modifies this
      ensures Valid() && Contents() == ProgressSpec.FreeTo(old(Contents()), old(Contents())[0])
    {
      FreeTo(buffer[start]);
    }
  }

  /** A follower's progress as the source keeps it: fields and a ring of its own. */
  class PeerProgress {
    var matched: nat
    var next: nat
    var state: ProgressState
    var paused: bool
    var pendingSnapshot: nat
    var recentActive: bool
    const inflights: InFlights

    ghost predicate Valid()
      reads this, inflights
    {
      inflights.Valid()
    }

    /** What the fields stand for, once `next` has been set. */
    ghost function View(): Progress
      reads this, inflights
      requires Valid() && next >= 1
    {
      Progress.Progress(matched, next, state, paused, pendingSnapshot, recentActive, inflights.Contents(), inflights.size)
    }

    /** `next` starts at 0; its owner sets it before use. */
    constructor (maxInflight: nat)
      requires Wrap32(maxInflight) <= MAX_CAPACITY
      ensures Valid() && fresh(inflights) && inflights.Contents() == [] && inflights.size == Wrap32(maxInflight)
      ensures matched == 0 && next == 0 && state == Probe && !paused && pendingSnapshot == 0 && !recentActive
    {
      matched, next, state, paused, pendingSnapshot, recentActive := 0, 0, Probe, false, 0, false;
      inflights := new InFlights(maxInflight);
    }

    method ResetState(st: ProgressState)
      requires Valid() && next >= 1
      modifies this, inflights
      ensures Valid() && next >= 1 && View() == ProgressSpec.ResetState(old(View()), st)
    {
      paused := false;
      pendingSnapshot := 0;
      state := st;
      inflights.Reset();
    }

    method BecomeReplicate()
      requires Valid() && next >= 1
      modifies this, inflights
      ensures Valid() && next >= 1 && View() == ProgressSpec.BecomeReplicate(old(View()))
    {
      ResetState(Replicate);
      next := matched + 1;
    }

    method BecomeProbe()
      requires Valid() && next >= 1
      modifies this, inflights
      ensures Valid() && next >= 1 && View() == ProgressSpec.BecomeProbe(old(View()))
    {
      if state == Snapshot {
        var pending := pendingSnapshot;
        ResetState(Probe);
        next := if matched + 1 < pending + 1 then pending + 1 else matched + 1;
      } else {
        ResetState(Probe);
        next := matched + 1;
      }
    }

    method BecomeSnapshot(snapshotIndex: nat)
      requires Valid() && next >= 1
      modifies this, inflights
      ensures Valid() && next >= 1 && View() == ProgressSpec.BecomeSnapshot(old(View()), snapshotIndex)
    {
      ResetState(Snapshot);
      pendingSnapshot := snapshotIndex;
    }

    method IsPaused() returns (b: bool)
      requires Valid() && next >= 1
      ensures b == ProgressSpec.IsPaused(View())
    {
      match state
      case Probe => b := paused;
      case Replicate => b := inflights.IsFull();
      case Snapshot => b := true;
    }

    method MaybeUpdate(n: nat) returns (updated: bool)
      requires Valid() && next >= 1
      modifies this
      ensures Valid() && next >= 1 && (View(), updated) == ProgressSpec.MaybeUpdate(old(View()), n)
    {
      updated := false;
      if matched < n {
        matched := n;
        updated := true;
        paused := false;
      }
      if next < n + 1 {
        next := n + 1;
      }
    }

    method MaybeDecreaseTo(rejected: nat, last: nat) returns (lowered: bool)
      requires Valid() && next >= 1
      modifies this
      ensures Valid() && next >= 1 && (View(), lowered) == ProgressSpec.MaybeDecreaseTo(old(View()), rejected, last)
    {
      if state == Replicate {
        if rejected <= matched {
          return false;
        }
        next := matched + 1;
        return true;
      }
      if next - 1 != rejected {
        return false;
      }
      next := if rejected < last + 1 then rejected else last + 1;
      if next < 1 {
        next := 1;
      }
      paused := false;
      return true;
    }

    method NeedSnapshotAbort() returns (b: bool)
      requires Valid() && next >= 1
      ensures b == ProgressSpec.NeedSnapshotAbort(View())
    {
      b := state == Snapshot && matched >= pendingSnapshot;
    }

    /** optimistic_update followed by inflights->add, as maybe_send_append does in Replicate: with the
        flow-control invariant and a window that is not full the ring's fatal check is not reached and
        the invariant is kept. */
    method SendOptimistically(last: nat)
      requires Valid() && next >= 1 && FlowOk(View()) && state == Replicate && !WindowFull(View()) && next <= last
      modifies this, inflights
      ensures Valid() && next >= 1 && View() == OptimisticSend(old(View()), last) && FlowOk(View())
    {
      next := last + 1;
      var ok := inflights.Add(last);
      assert ok;
    }
  }
}
