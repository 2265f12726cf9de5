/** A leader's view of one follower (raft-kv/raft/progress.cpp), with the in-flight window as the
    queue it stands for. */
module ProgressSpec {
  import opened LogSpec

  datatype ProgressState = Probe | Replicate | Snapshot

  /** `next` is never 0: every assignment in progress.cpp keeps it at least 1. */
  type Position = n: nat | n >= 1 witness 1

  datatype Progress = Progress(
    matched: nat, next: Position, state: ProgressState, paused: bool, pendingSnapshot: nat,
    recentActive: bool, inflights: seq<nat>, window: nat)

  function NewProgress(matched: nat, next: Position, recentActive: bool, window: nat): Progress {
    Progress(matched, next, Probe, false, 0, recentActive, [], window)
  }

  predicate WindowFull(p: Progress) {
    |p.inflights| == p.window
  }

  /** InFlights::free_to: drops the leading elements at or below `to`. */
  function FreeTo(q: seq<nat>, to: nat): seq<nat> {
    if q == [] || to < q[0] then q else FreeTo(q[1..], to)
  }

  function ResetState(p: Progress, st: ProgressState): Progress {
    p.(paused := false, pendingSnapshot := 0, state := st, inflights := [])
  }

  function BecomeReplicate(p: Progress): Progress {
    ResetState(p, Replicate).(next := p.matched + 1)
  }

  function BecomeProbe(p: Progress): Progress {
    if p.state == Snapshot then
      ResetState(p, Probe).(next := Max(p.matched + 1, p.pendingSnapshot + 1))
    else
      ResetState(p, Probe).(next := p.matched + 1)
  }

  function BecomeSnapshot(p: Progress, snapshotIndex: nat): Progress {
    ResetState(p, Snapshot).(pendingSnapshot := snapshotIndex)
  }

  predicate IsPaused(p: Progress) {
    match p.state
    case Probe => p.paused
    case Replicate => WindowFull(p)
    case Snapshot => true
  }

  /** Progress::maybe_update; the flag says whether `matched` rose. */
  function MaybeUpdate(p: Progress, n: nat): (r: (Progress, bool)) {
    var q := if p.matched < n then p.(matched := n, paused := false) else p;
    (if q.next < n + 1 then q.(next := n + 1) else q, p.matched < n)
  }

  /** Progress::maybe_decreases_to; the flag says whether the rejection was current. */
  function MaybeDecreaseTo(p: Progress, rejected: nat, last: nat): (r: (Progress, bool)) {
    if p.state == Replicate then
      if rejected <= p.matched then (p, false) else (p.(next := p.matched + 1), true)
    else if p.next - 1 != rejected then (p, false)
    else (p.(next := Max(1, Min(rejected, last + 1)), paused := false), true)
  }

  predicate NeedSnapshotAbort(p: Progress) {
    p.state == Snapshot && p.matched >= p.pendingSnapshot
  }

  /** Recording a sent batch ending at `last`; adding to a full window is fatal. */
  function OptimisticSend(p: Progress, last: nat): Progress
    requires !WindowFull(p)
  {
    p.(next := last + 1, inflights := p.inflights + [last])
  }

  /** In Replicate the window holds increasing indices strictly between `matched` and `next`;
      in the other states it is empty. */
  ghost predicate FlowOk(p: Progress) {
    && |p.inflights| <= p.window
    && (p.state == Replicate ==> p.matched < p.next)
    && (p.state != Replicate ==> p.inflights == [])
    && (forall i :: 0 <= i < |p.inflights| ==> p.matched < p.inflights[i] < p.next)
    && (forall i, j :: 0 <= i < j < |p.inflights| ==> p.inflights[i] < p.inflights[j])
  }

  /** On an ordered queue free_to leaves exactly the elements above its argument. */
  lemma {:induction false} FreeToKeepsLarger(q: seq<nat>, to: nat)
    requires forall i, j :: 0 <= i < j < |q| ==> q[i] < q[j]
    ensures var r := FreeTo(q, to);
            && |r| <= |q|
            && r == q[|q| - |r|..]
            && (forall i :: 0 <= i < |r| ==> r[i] > to)
            && (forall i :: 0 <= i < |q| - |r| ==> q[i] <= to)
  {
    if q != [] && to >= q[0] {
      FreeToKeepsLarger(q[1..], to);
      var r := FreeTo(q[1..], to);
      assert q[1..][|q| - 1 - |r|..] == q[|q| - |r|..];
      forall i | 0 <= i < |q| - |r| ensures q[i] <= to {
        assert i == 0 || q[i] == q[1..][i - 1];
      }
    }
  }

  /** One rejected probe, when the logs agree on the first `agreed` entries and the follower, whose log
      ends at `hint`, turned down `next - 1`: `next` falls, but not below the first entry still to send. */
  lemma ProbeStepsBack(p: Progress, agreed: nat, hint: nat)
    requires p.state == Probe && agreed < p.next - 1 && agreed <= hint
    ensures var (q, lowered) := MaybeDecreaseTo(p, p.next - 1, hint);
            lowered && agreed < q.next < p.next && q.state == Probe && q.matched == p.matched && !q.paused
  {
  }

  /** Probing until the follower accepts. */
  function Probed(p: Progress, agreed: nat, hint: nat): (q: Progress)
    requires p.state == Probe && agreed < p.next && agreed <= hint
    decreases p.next
  {
    if p.next - 1 == agreed then p
    else
      ProbeStepsBack(p, agreed, hint);
      Probed(MaybeDecreaseTo(p, p.next - 1, hint).0, agreed, hint)
  }

  /** Probing ends, exactly at the first entry the follower lacks. */
  lemma {:induction false} ProbeConverges(p: Progress, agreed: nat, hint: nat)
    requires p.state == Probe && agreed < p.next && agreed <= hint
    ensures var q := Probed(p, agreed, hint);
            q.next == agreed + 1 && q.state == Probe && q.matched == p.matched
    decreases p.next
  {
    if p.next - 1 != agreed {
      ProbeStepsBack(p, agreed, hint);
      ProbeConverges(MaybeDecreaseTo(p, p.next - 1, hint).0, agreed, hint);
    }
  }

  /** Sending again after each rejection, from either state, while the follower refuses every position past
      `agreed`. */
  function Retried(p: Progress, agreed: nat, hint: nat): (q: Progress)
    requires p.state != Snapshot && p.matched <= agreed <= hint
    decreases if p.state == Replicate then 1 else 0, p.next
  {
    if p.next - 1 <= agreed then p
    else
      var r := MaybeDecreaseTo(p, p.next - 1, hint).0;
      Retried(if r.state == Replicate then BecomeProbe(r) else r, agreed, hint)
  }

  /** It ends with a position the follower takes: replicating, after one rejection, right after the match; probing,
      at the first entry the follower lacks. */
  lemma {:induction false} RejectionsConverge(p: Progress, agreed: nat, hint: nat)
    requires p.state != Snapshot && p.matched <= agreed <= hint
    ensures var q := Retried(p, agreed, hint);
            && q.next - 1 <= agreed && q.matched == p.matched
            && if p.next - 1 <= agreed then q == p
               else q.state == Probe && !q.paused && q.next == if p.state == Replicate then p.matched + 1 else agreed + 1
    decreases if p.state == Replicate then 1 else 0, p.next
  {
    if p.next - 1 > agreed {
      var r := MaybeDecreaseTo(p, p.next - 1, hint).0;
      RejectionsConverge(if r.state == Replicate then BecomeProbe(r) else r, agreed, hint);
    }
  }
}
