/** Taking, saving and acknowledging a Ready (raft-kv/raft/node.cpp, ready.cpp and the loop of
    raft-kv/server/raft_node.cpp): the logical log does not change, every committed entry is delivered
    exactly once and in order, and it is in storage before it is delivered. */
module ReadyRounds {
  import opened Proto
  import opened LogSpec
  import opened LogLayers
  import opened TwoLayerLog

  /** The log side of a Ready. */
  datatype Ready = Ready(entries: seq<Entry>, committed: seq<Entry>, snapshot: Option<Snapshot>) {
    /** Ready::applied_cursor. */
    function AppliedCursor(): nat {
      if committed != [] then committed[|committed| - 1].index
      else if snapshot.Some? then snapshot.value.index
      else 0
    }
  }

  /** The log after a round: nothing but the applied cursor moves, past what was handed out. */
  function AfterRound(l: Log, max: nat): (r: Log)
    requires InRange(l)
  {
    var es := NextOf(l, max);
    l.(applied := if es != [] then es[|es| - 1].index else Max(l.applied, l.base))
  }

  /** Storage holds what the unstable part holds, on top of the pending snapshot if there is one. */
  ghost predicate Saved(d: seq<Entry>, snap: Option<Snapshot>, offset: nat, u: seq<Entry>) {
    && StoredOk(d) && d[0].index < offset && offset + |u| == d[0].index + |d|
    && d[offset - d[0].index..] == u
    && (snap.Some? ==> d[0].index == snap.value.index && d[0].term == snap.value.term)
  }

  /** Installing the pending snapshot in storage does not change the log, ... */
  lemma InstallKeepsLog(d: seq<Entry>, s: Snapshot, offset: nat, u: seq<Entry>, committed: nat, applied: nat)
    requires LayersOk(d, Some(s), offset, u)
    ensures var d' := [Entry(Normal, s.term, s.index, [])];
            && LayersOk(d', Some(s), offset, u)
            && LayerLog(d', Some(s), offset, u, committed, applied) == LayerLog(d, Some(s), offset, u, committed, applied)
            && LayerLog(d, Some(s), offset, u, committed, applied).base == s.index
  {
  }

  /** nor does saving the unstable entries, ... */
  lemma SaveKeepsLog(d: seq<Entry>, snap: Option<Snapshot>, offset: nat, u: seq<Entry>, committed: nat, applied: nat)
    requires LayersOk(d, snap, offset, u)
    requires snap.Some? ==> d == [Entry(Normal, snap.value.term, snap.value.index, [])]
    ensures AppendStored(d, u).Ok?
    ensures var d' := AppendStored(d, u).value;
            && Saved(d', snap, offset, u) && LayersOk(d', snap, offset, u) && d'[0] == d[0]
            && LayerLog(d', snap, offset, u, committed, applied) == LayerLog(d, snap, offset, u, committed, applied)
  {
    AppendStoredShape(d, u, offset);
    hide AppendStored;
    var d' := AppendStored(d, u).value;
    if u != [] {
      assert u[0..] == u;
      assert d' == d[..offset - d[0].index] + u;
    }
  }

  /** nor does forgetting them once they are saved. */
  lemma ForgetKeepsLog(d: seq<Entry>, snap: Option<Snapshot>, offset: nat, u: seq<Entry>, committed: nat, applied: nat)
    requires LayersOk(d, snap, offset, u) && Saved(d, snap, offset, u)
    ensures LayersOk(d, None, offset + |u|, [])
    ensures LayerLog(d, None, offset + |u|, [], committed, applied) == LayerLog(d, snap, offset, u, committed, applied)
  {
    assert d[1..] == d[1..offset - d[0].index] + d[offset - d[0].index..];
  }

  /** What the delivered entries are: the committed entries right after the applied cursor or the base,
      at least one if there is any. */
  lemma NextOfShape(l: Log, max: nat)
    requires InRange(l)
    ensures var es := NextOf(l, max);
            var from := Max(l.applied, l.base);
            && from + |es| <= Max(l.committed, from)
            && es == l.ents[from - l.base..from - l.base + |es|]
            && (es == [] <==> l.committed <= from)
  {
    hide NextOf, LimitSize, Contiguous;
    var es := NextOf(l, max);
    var from := Max(l.applied, l.base);
    NextOfIsLimited(l, max);
    if l.committed > from {
      var all := l.ents[from - l.base..l.committed - l.base];
      LimitIsPrefix(all, max);
      PartOfPart(l.ents, from - l.base, l.committed - l.base, 0, |es|);
      assert es == all[0..|es|];
    }
  }

  lemma NextOfIsLimited(l: Log, max: nat)
    requires InRange(l)
    ensures var from := Max(l.applied, l.base);
            NextOf(l, max) == if l.committed > from then LimitSize(l.ents[from - l.base..l.committed - l.base], max) else []
  {
    hide LimitSize;
  }

  lemma LimitIsPrefix(es: seq<Entry>, max: nat)
    requires es != []
    ensures LimitSize(es, max) <= es && LimitSize(es, max) != []
  {
  }

  lemma NextOfContiguous(l: Log, max: nat)
    requires InRange(l)
    ensures Contiguous(NextOf(l, max), Max(l.applied, l.base) + 1)
  {
    hide NextOf;
    NextOfShape(l, max);
    var es, from := NextOf(l, max), Max(l.applied, l.base);
    forall k | 0 <= k < |es| ensures es[k].index == from + 1 + k {
      assert es[k] == l.ents[from - l.base + k];
    }
  }

  lemma SavedBase(d: seq<Entry>, snap: Option<Snapshot>, offset: nat, u: seq<Entry>)
    requires Saved(d, snap, offset, u)
    ensures |d| >= 1 && (snap.Some? ==> d[0].index == snap.value.index)
  {
  }

  /** The applied cursor is just carried along. */
  lemma LayerCursors(d: seq<Entry>, snap: Option<Snapshot>, offset: nat, u: seq<Entry>, committed: nat, applied: nat, applied': nat)
    requires LayersOk(d, snap, offset, u)
    ensures var l := LayerLog(d, snap, offset, u, committed, applied);
            && LayerLog(d, snap, offset, u, committed, applied') == l.(applied := applied')
            && l.applied == applied && l.committed == committed
  {
  }

  /** Ready::applied_cursor is where the round leaves the applied cursor. */
  lemma CursorOf(l: Log, max: nat, u: seq<Entry>, snap: Option<Snapshot>)
    requires InRange(l) && if snap.Some? then l.base == snap.value.index > l.applied else l.base <= l.applied
    ensures var cursor := Ready(u, NextOf(l, max), snap).AppliedCursor();
            AfterRound(l, max).applied == if cursor == 0 then l.applied else cursor
  {
    hide NextOf, Contiguous;
    NextOfShape(l, max);
    NextOfContiguous(l, max);
    NextOfLast(l, max);
  }

  lemma NextOfLast(l: Log, max: nat)
    requires InRange(l)
    ensures var es := NextOf(l, max); es != [] ==> es[|es| - 1].index == Max(l.applied, l.base) + |es|
  {
    hide NextOf;
    NextOfContiguous(l, max);
  }

  /** A whole round: acknowledging a saved Ready moves only the applied cursor. */
  lemma AdvanceKeepsLog(d: seq<Entry>, snap: Option<Snapshot>, offset: nat, u: seq<Entry>, committed: nat, applied: nat, max: nat)
    requires LayersOk(d, snap, offset, u) && Saved(d, snap, offset, u)
    requires InRange(LayerLog(d, snap, offset, u, committed, applied))
    requires if snap.Some? then applied < snap.value.index else d[0].index <= applied
    ensures var l := LayerLog(d, snap, offset, u, committed, applied);
            var cursor := Ready(u, NextOf(l, max), snap).AppliedCursor();
            var applied' := if cursor == 0 then applied else cursor;
            && LayersOk(d, None, offset + |u|, [])
            && AfterRound(l, max) == LayerLog(d, None, offset + |u|, [], committed, applied')
            && InRange(AfterRound(l, max)) && d[0].index <= applied'
  {
    hide NextOf, LayerLog, LayersOk, Saved, AfterRound;
    var l := LayerLog(d, snap, offset, u, committed, applied);
    ForgetKeepsLog(d, snap, offset, u, committed, applied);
    BaseOf(d, snap, offset, u, committed, applied);
    LayerCursors(d, snap, offset, u, committed, applied, applied);
    CursorOf(l, max, u, snap);
    RoundMovesCursor(l, max);
    LayerCursors(d, None, offset + |u|, [], committed, applied, AfterRound(l, max).applied);
    SavedBase(d, snap, offset, u);
  }

  lemma BaseOf(d: seq<Entry>, snap: Option<Snapshot>, offset: nat, u: seq<Entry>, committed: nat, applied: nat)
    requires LayersOk(d, snap, offset, u)
    ensures LayerLog(d, snap, offset, u, committed, applied).base == if snap.Some? then snap.value.index else d[0].index
  {
  }

  /** Saved layers: storage alone is the log. */
  lemma SavedIsWhole(d: seq<Entry>, snap: Option<Snapshot>, offset: nat, u: seq<Entry>, committed: nat, applied: nat)
    requires LayersOk(d, snap, offset, u) && Saved(d, snap, offset, u)
    ensures var l := LayerLog(d, snap, offset, u, committed, applied);
            |d| >= 1 && l.ents == d[1..] && l.base == d[0].index
  {
    assert d[1..] == d[1..offset - d[0].index] + d[offset - d[0].index..];
  }

  /** Once the Ready is saved, every entry it delivers is in storage. */
  lemma DeliveredIsStored(d: seq<Entry>, l: Log, max: nat)
    requires |d| >= 1 && l.ents == d[1..] && l.base == d[0].index && InRange(l)
    ensures forall e :: e in NextOf(l, max) ==> StoredAt(d, e.index) == Some(e)
  {
    hide NextOf;
    NextOfShape(l, max);
    var es := NextOf(l, max);
    var from := Max(l.applied, l.base);
    forall e | e in es ensures StoredAt(d, e.index) == Some(e) {
      var k :| 0 <= k < |es| && es[k] == e;
      assert e == l.ents[from - l.base + k];
    }
  }

  lemma LastIsHeld(offset: nat, u: seq<Entry>)
    requires Contiguous(u, offset) && u != []
    ensures var last := u[|u| - 1];
            Unstable.Holds(offset, u, last.index, last.term) && last.index + 1 == offset + |u|
  {
  }

  /** What the application sees: entries to apply and snapshots to install. */
  datatype Event = Applied(e: Entry) | Installed(s: Snapshot) {
    function Index(): nat {
      if Applied? then e.index else s.index
    }
  }

  /** Event `k` is the next index, or a snapshot further on. */
  ghost predicate OrderedAt(events: seq<Event>, start: nat, k: nat)
    requires k < |events|
  {
    var before := if k == 0 then start else events[k - 1].Index();
    if events[k].Applied? then events[k].Index() == before + 1 else events[k].Index() > before
  }

  /** After index `start` the applied indices are consecutive, and a snapshot only jumps forward. */
  ghost predicate InOrder(events: seq<Event>, start: nat) {
    forall k :: 0 <= k < |events| ==> OrderedAt(events, start, k)
  }

  function EventsOf(es: seq<Entry>): seq<Event> {
    seq(|es|, k requires 0 <= k < |es| => Applied(es[k]))
  }

  function Announced(snap: Option<Snapshot>): seq<Event> {
    if snap.Some? then [Installed(snap.value)] else []
  }

  function LastSeen(events: seq<Event>, start: nat): nat {
    if events == [] then start else events[|events| - 1].Index()
  }

  lemma InOrderSnoc(events: seq<Event>, start: nat, ev: Event)
    requires InOrder(events, start)
    requires if ev.Applied? then ev.Index() == LastSeen(events, start) + 1 else ev.Index() > LastSeen(events, start)
    ensures InOrder(events + [ev], start) && LastSeen(events + [ev], start) == ev.Index()
  {
    var r := events + [ev];
    forall k | 0 <= k < |r| ensures OrderedAt(r, start, k) {
      assert k < |events| ==> OrderedAt(events, start, k);
    }
  }

  /** The part of a batch beyond what is already applied. */
  function ToApply(appliedIndex: nat, es: seq<Entry>): seq<Entry> {
    if es == [] || es[0].index > appliedIndex + 1 || appliedIndex + 1 - es[0].index >= |es| then []
    else es[appliedIndex + 1 - es[0].index..]
  }

  /** Exactly the entries above the applied index, still numbered consecutively. */
  lemma ToApplyMeaning(appliedIndex: nat, es: seq<Entry>)
    requires es != [] && Contiguous(es, es[0].index) && es[0].index <= appliedIndex + 1
    ensures forall e :: e in ToApply(appliedIndex, es) <==> e in es && e.index > appliedIndex
    ensures ToApply(appliedIndex, es) != [] ==> Contiguous(ToApply(appliedIndex, es), appliedIndex + 1)
  {
  }

  /** entries_to_apply: skips what is already applied; a gap is fatal. */
  method EntriesToApply(appliedIndex: nat, es: seq<Entry>) returns (r: seq<Entry>, ok: bool)
    ensures ok == (es == [] || es[0].index <= appliedIndex + 1)
    ensures r == ToApply(appliedIndex, es)
  {
    r, ok := [], true;
    if es == [] {
      return;
    }
    var first := es[0].index;
    if first > appliedIndex + 1 {
      return [], false;
    }
    var n := appliedIndex + 1 - first;
    if n < |es| {
      r := es[n..];
    }
  }

  lemma NothingToSkip(appliedIndex: nat, es: seq<Entry>)
    requires Contiguous(es, appliedIndex + 1)
    ensures ToApply(appliedIndex, es) == es && (es == [] || es[0].index == appliedIndex + 1)
  {
    assert es[0..] == es;
  }

  /** The committed entries not yet applied. */
  function Outstanding(l: Log): seq<Entry>
    requires InRange(l)
  {
    l.ents[Max(l.applied, l.base) - l.base..l.committed - l.base]
  }

  /** Since log `l` and events `before`, with `snap` then pending and `left` pending now: either nothing
      has been shown yet, or the snapshot and the entries up to the applied cursor of `l1`. */
  ghost predicate Progressed(l: Log, before: seq<Event>, snap: Option<Snapshot>, left: Option<Snapshot>, l1: Log, ev: seq<Event>) {
    && InRange(l) && InRange(l1)
    && if left.Some? then l1 == l && ev == before && left == snap
       else
         && Max(l.applied, l.base) <= l1.applied && l1 == l.(applied := l1.applied)
         && ev == before + Announced(snap) + EventsOf(l.ents[Max(l.applied, l.base) - l.base..l1.applied - l.base])
  }

  lemma EventsOfConcat(a: seq<Entry>, b: seq<Entry>)
    ensures EventsOf(a + b) == EventsOf(a) + EventsOf(b)
  {
  }

  lemma RoundMovesCursor(l: Log, max: nat)
    requires InRange(l)
    ensures var l' := AfterRound(l, max);
            && l' == l.(applied := Max(l.applied, l.base) + |NextOf(l, max)|)
            && InRange(l') && l.applied <= l'.applied
            && (NextOf(l, max) != [] ==> l.applied < l'.applied)
  {
    hide NextOf;
    NextOfShape(l, max);
    NextOfLast(l, max);
  }

  lemma NextOfStretch(l: Log, max: nat)
    requires InRange(l)
    ensures var from, n := Max(l.applied, l.base), |NextOf(l, max)|;
            from - l.base + n <= |l.ents| && NextOf(l, max) == l.ents[from - l.base..from - l.base + n]
  {
    NextOfShape(l, max);
  }

  lemma JoinParts<T>(d: seq<T>, p: nat, q: nat, r: nat)
    requires p <= q <= r <= |d|
    ensures d[p..q] + d[q..r] == d[p..r]
  {
  }

  lemma Regroup<T>(a: seq<T>, b: seq<T>, c: seq<T>)
    ensures a + b + [] + c == a + (b + c)
  {
  }

  lemma MoreShown(l: Log, before: seq<Event>, snap: Option<Snapshot>, l1: Log, ev: seq<Event>, max: nat)
    requires Progressed(l, before, snap, None, l1, ev)
    ensures Progressed(l, before, snap, None, AfterRound(l1, max), ev + Announced(None) + EventsOf(NextOf(l1, max)))
  {
    hide NextOf, EventsOf, AfterRound;
    RoundMovesCursor(l1, max);
    NextOfStretch(l1, max);
    var from := Max(l.applied, l.base);
    var es := NextOf(l1, max);
    var done := l.ents[from - l.base..l1.applied - l.base];
    EventsOfConcat(done, es);
    JoinParts(l.ents, from - l.base, l1.applied - l.base, l1.applied - l.base + |es|);
    Regroup(before + Announced(snap), EventsOf(done), EventsOf(es));
  }

  lemma ProgressedInRange(l: Log, before: seq<Event>, snap: Option<Snapshot>, left: Option<Snapshot>, l1: Log, ev: seq<Event>)
    requires Progressed(l, before, snap, left, l1, ev)
    ensures InRange(l1)
  {
  }

  lemma FirstShown(l: Log, before: seq<Event>, snap: Option<Snapshot>, left: Option<Snapshot>, l1: Log, ev: seq<Event>, max: nat)
    requires Progressed(l, before, snap, left, l1, ev) && left.Some?
    ensures Progressed(l, before, snap, None, AfterRound(l1, max), ev + Announced(left) + EventsOf(NextOf(l1, max)))
  {
    hide NextOf, EventsOf, AfterRound, Announced;
    RoundMovesCursor(l1, max);
    NextOfStretch(l1, max);
  }

  /** A round adds what it shows. */
  lemma RoundProgresses(l: Log, before: seq<Event>, snap: Option<Snapshot>, left: Option<Snapshot>, l1: Log, ev: seq<Event>, max: nat)
    requires Progressed(l, before, snap, left, l1, ev)
    ensures Progressed(l, before, snap, None, AfterRound(l1, max), ev + Announced(left) + EventsOf(NextOf(l1, max)))
    ensures l1.applied <= AfterRound(l1, max).applied && AfterRound(l1, max).committed == l1.committed
    ensures NextOf(l1, max) != [] ==> l1.applied < AfterRound(l1, max).applied
  {
    hide NextOf, EventsOf, AfterRound;
    hide Progressed, Announced;
    ProgressedInRange(l, before, snap, left, l1, ev);
    RoundMovesCursor(l1, max);
    if left.None? {
      MoreShown(l, before, snap, l1, ev, max);
    } else {
      FirstShown(l, before, snap, left, l1, ev, max);
    }
  }

  lemma EndOfPull(l: Log, before: seq<Event>, snap: Option<Snapshot>, l1: Log, ev: seq<Event>, max: nat)
    requires Progressed(l, before, snap, None, l1, ev) && NextOf(l1, max) == []
    ensures l1 == l.(applied := l.committed)
    ensures ev == before + Announced(snap) + EventsOf(Outstanding(l))
  {
    NextOfShape(l1, max);
  }

  lemma StoredIsWhole(d: seq<Entry>, offset: nat, committed: nat, applied: nat)
    requires LayersOk(d, None, offset, [])
    ensures d != [] && LayerLog(d, None, offset, [], committed, applied).ents == d[1..]
  {
  }

  /** The constants of raft_node.cpp. */
  const SNAP_COUNT: nat := 100000
  const CATCH_UP: nat := 100000

  /** The log without its entries up to `i`, whose term is kept. */
  function CompactedTo(l: Log, i: nat): (r: Log)
    requires l.base < i <= l.Last()
  {
    RawLog(i, l.TermAt(i), l.ents[i - l.base..], l.committed, l.applied)
  }

  /** The log after maybe_trigger_snapshot, when the last snapshot was at `taken`. */
  function AfterTrigger(l: Log, taken: nat): (r: Log)
    requires l.base <= taken <= l.applied <= l.Last()
  {
    if l.applied - taken <= SNAP_COUNT then l else CompactedTo(l, l.applied - CATCH_UP)
  }

  /** Log `w` is log `l`, compacted or not behind the applied cursor. */
  predicate Shortened(l: Log, w: Log) {
    w == l || (l.base < w.base <= l.applied && w.base <= l.Last() && w == CompactedTo(l, w.base))
  }

  lemma CompactTwice(l: Log, i: nat, j: nat)
    requires l.base < i < j <= l.Last()
    ensures CompactedTo(CompactedTo(l, i), j) == CompactedTo(l, j)
  {
    var w := CompactedTo(l, i);
    assert w.ents[j - i..] == l.ents[j - l.base..];
    assert w.TermAt(j) == l.TermAt(j);
  }

  /** Compaction behind the applied cursor does not show in what is delivered next, ... */
  lemma ShortenedNext(l: Log, w: Log, max: nat)
    requires InRange(l) && Shortened(l, w)
    ensures InRange(w) && NextOf(w, max) == NextOf(l, max) && w.applied == l.applied
  {
    hide LimitSize, NextOf;
    NextOfIsLimited(l, max);
    NextOfIsLimited(w, max);
    if w != l {
      assert w.ents[l.applied - w.base..l.committed - w.base] == l.ents[l.applied - l.base..l.committed - l.base];
    }
  }

  lemma CompactionKeepsCursor(l: Log, i: nat, applied: nat)
    requires l.base < i <= l.Last()
    ensures CompactedTo(l.(applied := applied), i) == CompactedTo(l, i).(applied := applied)
  {
    assert l.(applied := applied).TermAt(i) == l.TermAt(i);
  }

  /** ... neither another round ... */
  lemma ShortenedRound(l: Log, w: Log, max: nat)
    requires InRange(l) && Shortened(l, w)
    ensures InRange(w) && InRange(AfterRound(l, max)) && Shortened(AfterRound(l, max), AfterRound(w, max))
    ensures AfterRound(l, max).applied == AfterRound(w, max).applied && AfterRound(l, max).committed == AfterRound(w, max).committed
  {
    hide NextOf, AfterRound, CompactedTo, Contiguous;
    ShortenedNext(l, w, max);
    RoundMovesCursor(l, max);
    RoundMovesCursor(w, max);
    if w != l {
      CompactionShape(l, w.base);
      CompactionKeepsCursor(l, w.base, AfterRound(l, max).applied);
    }
  }

  lemma CompactionShape(l: Log, i: nat)
    requires l.base < i <= l.Last()
    ensures var w := CompactedTo(l, i); w.base == i && w.applied == l.applied && w.committed == l.committed && w.Last() == l.Last()
  {
  }

  /** ... nor another compaction undoes that. */
  lemma ShortenedTrigger(l: Log, w: Log, taken: nat)
    requires Shortened(l, w) && w.base <= taken <= w.applied <= w.Last()
    ensures Shortened(l, AfterTrigger(w, taken))
    ensures AfterTrigger(w, taken).applied == w.applied && AfterTrigger(w, taken).committed == w.committed
  {
    hide CompactedTo, Contiguous;
    if w.applied - taken > SNAP_COUNT {
      CompactionShape(w, w.applied - CATCH_UP);
      if w != l {
        CompactionShape(l, w.base);
        CompactTwice(l, w.base, w.applied - CATCH_UP);
      }
    }
  }

  /** Storage `d` cut at `i`, whose term it keeps. */
  ghost predicate CutAt(d: seq<Entry>, d': seq<Entry>, i: nat)
    requires StoredOk(d)
  {
    && d[0].index < i <= StoredLast(d) && StoredOk(d')
    && d'[0].index == i && d'[0].term == d[i - d[0].index].term && d'[1..] == d[i - d[0].index + 1..]
  }

  lemma CompactInLayers(d: seq<Entry>, offset: nat, committed: nat, applied: nat, i: nat, d': seq<Entry>)
    requires LayersOk(d, None, offset, []) && CutAt(d, d', i)
    ensures LayersOk(d', None, offset, [])
    ensures var l := LayerLog(d, None, offset, [], committed, applied);
            i <= l.Last() && LayerLog(d', None, offset, [], committed, applied) == CompactedTo(l, i)
  {
    hide LayerLog;
    var l := LayerLog(d, None, offset, [], committed, applied);
    assert |d'| == 1 + |d'[1..]|;
    LayerIsStored(d, offset, committed, applied);
    LayerIsStored(d', offset, committed, applied);
    PartOfPart(d, 1, |d|, i - l.base, |d| - 1);
    assert d[1..] == d[1..|d|] && l.ents[i - l.base..] == l.ents[i - l.base..|d| - 1];
    assert d[i - d[0].index + 1..] == d[i - d[0].index + 1..|d|];
    assert l.ents[i - l.base - 1] == d[i - d[0].index];
  }

  lemma LayerIsStored(d: seq<Entry>, offset: nat, committed: nat, applied: nat)
    requires LayersOk(d, None, offset, [])
    ensures LayerLog(d, None, offset, [], committed, applied) == RawLog(d[0].index, d[0].term, d[1..], committed, applied)
  {
    assert d[1..offset - d[0].index] + [] == d[1..];
  }

  /** The layers once nothing is unstable any more, storage having been cut behind the applied cursor or not. */
  lemma TriggeredInLayers(d: seq<Entry>, d': seq<Entry>, offset: nat, committed: nat, applied: nat, taken: nat)
    requires LayersOk(d, None, offset, []) && InRange(LayerLog(d, None, offset, [], committed, applied))
    requires d[0].index <= taken <= applied
    requires if applied - taken <= SNAP_COUNT then d' == d else CutAt(d, d', applied - CATCH_UP)
    ensures LayersOk(d', None, offset, []) && d'[0].index <= applied
    ensures var l := LayerLog(d, None, offset, [], committed, applied);
            && l.base == d[0].index && l.applied == applied
            && LayerLog(d', None, offset, [], committed, applied) == AfterTrigger(l, taken) && InRange(AfterTrigger(l, taken))
  {
    hide LayerLog;
    LayerIsStored(d, offset, committed, applied);
    if applied - taken > SNAP_COUNT {
      CompactInLayers(d, offset, committed, applied, applied - CATCH_UP, d');
    }
  }

  /** With everything saved a round stays within what is committed and stored. */
  lemma RoundBounds(d: seq<Entry>, snap: Option<Snapshot>, offset: nat, u: seq<Entry>, committed: nat, applied: nat, max: nat)
    requires LayersOk(d, snap, offset, u) && Saved(d, snap, offset, u) && InRange(LayerLog(d, snap, offset, u, committed, applied))
    requires if snap.Some? then applied < snap.value.index else d[0].index <= applied
    ensures var l := LayerLog(d, snap, offset, u, committed, applied);
            var cursor := Ready(u, NextOf(l, max), snap).AppliedCursor();
            && AfterRound(l, max).applied == (if cursor == 0 then applied else cursor)
            && l.base == d[0].index && l.base <= AfterRound(l, max).applied <= committed <= StoredLast(d)
            && AfterRound(l, max).base == l.base && AfterRound(l, max).Last() == l.Last() == StoredLast(d)
  {
    hide NextOf, AfterRound, Saved, LayersOk;
    SavedIsWhole(d, snap, offset, u, committed, applied);
    LayerCursors(d, snap, offset, u, committed, applied, applied);
    RoundMovesCursor(LayerLog(d, snap, offset, u, committed, applied), max);
    BaseOf(d, snap, offset, u, committed, applied);
    CursorOf(LayerLog(d, snap, offset, u, committed, applied), max, u, snap);
  }

  /** A node of the server: the log, its storage and how far the application has got. */
  class RaftNode {
    const log: RaftLog
    var appliedIndex: nat
    var snapshotIndex: nat
    ghost const start: nat
    ghost var events: seq<Event>

    ghost predicate Valid()
      reads this, log, log.storage, log.unstable
    {
      && log.Valid()
      && appliedIndex == log.applied == LastSeen(events, start)
      && InOrder(events, start)
      && log.storage.entries != [] && log.storage.entries[0].index <= snapshotIndex <= appliedIndex
      && log.storage.snapshot.index == snapshotIndex
    }

    /** schedule(): both cursors start at the snapshot the storage was loaded from. */
    constructor (l: RaftLog)
      requires l.Valid() && l.applied == l.storage.snapshot.index && l.unstable.snapshot.None?
      ensures Valid() && log == l && events == [] && start == l.applied
    {
      log, appliedIndex, snapshotIndex, start, events := l, l.applied, l.applied, l.applied, [];
    }

    /** The log side of RawNode::ready: everything unstable and the next committed entries. */
    method TakeReady() returns (rd: Ready)
      requires log.Valid()
      ensures rd == Ready(log.unstable.entries, NextOf(log.View(), log.maxNext), log.unstable.snapshot)
    {
      var es := log.NextEntries();
      rd := Ready(log.unstable.entries, es, log.unstable.snapshot);
    }

    /** apply_snapshot, then append, as pull_ready_events does; neither is refused. */
    method Save(rd: Ready)
      requires log.Valid() && rd.entries == log.unstable.entries && rd.snapshot == log.unstable.snapshot && log.storage.entries != []
      requires rd.snapshot.Some? ==> log.storage.snapshot.index < rd.snapshot.value.index
      modifies log.storage
      ensures log.Valid() && log.View() == old(log.View())
      ensures Saved(log.storage.entries, log.unstable.snapshot, log.unstable.offset, log.unstable.entries)
      ensures if rd.snapshot.Some? then
                log.storage.snapshot == rd.snapshot.value && log.storage.entries[0].index == rd.snapshot.value.index
              else log.storage.snapshot == old(log.storage.snapshot) && log.storage.entries[0] == old(log.storage.entries[0])
    {
      hide log.Valid, log.View, LayersOk, LayerLog, Saved, AppendStored;
      log.Layered();
      if rd.snapshot.Some? {
        InstallKeepsLog(log.storage.entries, rd.snapshot.value, log.unstable.offset, log.unstable.entries, log.committed, log.applied);
        var newer := log.storage.ApplySnapshot(rd.snapshot.value);
        assert newer;
      }
      SaveKeepsLog(log.storage.entries, log.unstable.snapshot, log.unstable.offset, log.unstable.entries, log.committed, log.applied);
      var ok := log.storage.Append(rd.entries);
      assert ok;
      log.Folded();
    }

    /** The log side of RawNode::advance: the cursor moves and nothing is unstable any more. */
    method Acknowledge(rd: Ready)
      requires log.unstable.Valid() && rd.entries == log.unstable.entries && rd.snapshot == log.unstable.snapshot
      modifies log, log.unstable
      ensures log.committed == old(log.committed)
      ensures log.applied == if rd.AppliedCursor() == 0 then old(log.applied) else rd.AppliedCursor()
      ensures log.unstable.entries == [] && log.unstable.snapshot == None
      ensures log.unstable.offset == old(log.unstable.offset) + |rd.entries|
    {
      ghost var u := log.unstable.entries;
      log.AppliedTo(rd.AppliedCursor());
      if rd.entries != [] {
        LastIsHeld(log.unstable.offset, log.unstable.entries);
        var last := rd.entries[|rd.entries| - 1];
        log.unstable.StableTo(last.index, last.term);
        assert u[|u|..] == [];
      }
      if rd.snapshot.Some? {
        log.unstable.StableSnapTo(rd.snapshot.value.index);
      }
    }

    /** On a saved Ready that keeps the log. */
    method Advance(rd: Ready)
      requires log.Valid()
      requires rd == Ready(log.unstable.entries, NextOf(log.View(), log.maxNext), log.unstable.snapshot)
      requires Saved(log.storage.entries, log.unstable.snapshot, log.unstable.offset, log.unstable.entries)
      modifies log, log.unstable
      ensures log.Valid() && log.View() == AfterRound(old(log.View()), log.maxNext)
      ensures log.unstable.entries == [] && log.unstable.snapshot == None
    {
      hide *;
      log.Layered();
      AdvanceKeepsLog(log.storage.entries, log.unstable.snapshot, log.unstable.offset, log.unstable.entries, log.committed, log.applied, log.maxNext);
      Acknowledge(rd);
      log.Folded();
    }

    /** publish_snapshot: a snapshot that is not ahead of the application is fatal. */
    method PublishSnapshot(s: Snapshot) returns (ok: bool)
      requires InOrder(events, start) && LastSeen(events, start) == appliedIndex
      modifies this
      ensures ok == (s.index > old(appliedIndex))
      ensures ok ==> appliedIndex == snapshotIndex == s.index && events == old(events) + [Installed(s)]
      ensures !ok ==> appliedIndex == old(appliedIndex) && snapshotIndex == old(snapshotIndex) && events == old(events)
      ensures InOrder(events, start) && LastSeen(events, start) == appliedIndex
    {
      if s.index <= appliedIndex {
        return false;
      }
      InOrderSnoc(events, start, Installed(s));
      appliedIndex := s.index;
      snapshotIndex := s.index;
      events := events + [Installed(s)];
      return true;
    }

    /** publish_entries: hands the entries over one by one. */
    method PublishEntries(es: seq<Entry>)
      requires InOrder(events, start) && LastSeen(events, start) == appliedIndex
      requires es != [] ==> Contiguous(es, appliedIndex + 1)
      modifies this
      ensures appliedIndex == old(appliedIndex) + |es| && snapshotIndex == old(snapshotIndex)
      ensures events == old(events) + EventsOf(es)
      ensures InOrder(events, start) && LastSeen(events, start) == appliedIndex
    {
      var k := 0;
      assert EventsOf(es[..0]) == [];
      while k < |es|
        invariant 0 <= k <= |es|
        invariant appliedIndex == old(appliedIndex) + k && snapshotIndex == old(snapshotIndex)
        invariant events == old(events) + EventsOf(es[..k])
        invariant InOrder(events, start) && LastSeen(events, start) == appliedIndex
      {
        InOrderSnoc(events, start, Applied(es[k]));
        assert EventsOf(es[..k + 1]) == EventsOf(es[..k]) + [Applied(es[k])];
        events := events + [Applied(es[k])];
        appliedIndex := es[k].index;
        k := k + 1;
      }
      assert es[..|es|] == es;
    }

    /** publish_snapshot, entries_to_apply and publish_entries: none of their checks fails. */
    method Publish(rd: Ready)
      requires log.Valid() && appliedIndex == log.applied == LastSeen(events, start) && InOrder(events, start)
      requires rd.snapshot == log.unstable.snapshot && rd.committed == NextOf(log.View(), log.maxNext)
      modifies this
      ensures InOrder(events, start) && LastSeen(events, start) == appliedIndex
      ensures appliedIndex == AfterRound(log.View(), log.maxNext).applied
      ensures snapshotIndex == if rd.snapshot.Some? then rd.snapshot.value.index else old(snapshotIndex)
      ensures rd.snapshot.Some? ==> rd.snapshot.value.index <= appliedIndex
      ensures old(appliedIndex) <= appliedIndex
      ensures events == old(events) + Announced(rd.snapshot) + EventsOf(rd.committed)
    {
      hide log.Valid, log.View, NextOf, InOrder, LayersOk, LayerLog, EventsOf, LastSeen, InRange, StoredOk, Contiguous, ToApply, AfterRound;
      log.Layered();
      BaseOf(log.storage.entries, log.unstable.snapshot, log.unstable.offset, log.unstable.entries, log.committed, log.applied);
      RoundMovesCursor(log.View(), log.maxNext);
      NextOfContiguous(log.View(), log.maxNext);
      NothingToSkip(Max(log.applied, log.View().base), rd.committed);
      ghost var before := events;
      if rd.snapshot.Some? {
        var ahead := PublishSnapshot(rd.snapshot.value);
        assert ahead;
      }
      ghost var middle := events;
      assert middle == before + Announced(rd.snapshot);
      var ents, ok := EntriesToApply(appliedIndex, rd.committed);
      assert ok && ents == rd.committed;
      PublishEntries(ents);
      assert events == middle + EventsOf(rd.committed);
    }

    /** One turn of pull_ready_events: no fatal check is reached, the log keeps its contents, the next
        committed entries are delivered once and in order, and they are in storage by then. */
    method Round() returns (rd: Ready)
      requires Valid() && Fresh()
      modifies this, log, log.storage, log.unstable
      ensures Valid() && Fresh()
      ensures log.View() == AfterRound(old(log.View()), log.maxNext)
      ensures log.unstable.entries == [] && log.unstable.snapshot == None
      ensures rd.committed == NextOf(old(log.View()), log.maxNext) && rd.snapshot == old(log.unstable.snapshot)
      ensures events == old(events) + Announced(rd.snapshot) + EventsOf(rd.committed)
      ensures forall e :: e in rd.committed ==> StoredAt(log.storage.entries, e.index) == Some(e)
    {
      hide log.Valid, log.View, NextOf, InOrder, Saved, AfterRound, LayerLog, LayersOk, StoredAt;
      rd := TakeReady();
      Save(rd);
      log.Layered();
      SavedIsWhole(log.storage.entries, log.unstable.snapshot, log.unstable.offset, log.unstable.entries, log.committed, log.applied);
      DeliveredIsStored(log.storage.entries, log.View(), log.maxNext);
      Publish(rd);
      Advance(rd);
    }

    /** maybe_trigger_snapshot: the snapshot is recorded and storage compacted behind the application, without
        reaching any of the fatal checks on the way; nothing after the new base changes. */
    method MaybeTriggerSnapshot()
      requires log.storage.Valid() && log.storage.snapshot.index == snapshotIndex
      requires log.storage.entries[0].index <= snapshotIndex <= appliedIndex <= StoredLast(log.storage.entries)
      modifies this`snapshotIndex, log.storage
      ensures log.storage.Valid() && log.storage.snapshot.index == snapshotIndex
      ensures log.storage.entries != [] && log.storage.entries[0].index <= snapshotIndex <= appliedIndex
      ensures if appliedIndex - old(snapshotIndex) <= SNAP_COUNT
              then log.storage.entries == old(log.storage.entries) && snapshotIndex == old(snapshotIndex)
              else snapshotIndex == appliedIndex && CutAt(old(log.storage.entries), log.storage.entries, appliedIndex - CATCH_UP)
    {
      if appliedIndex - snapshotIndex <= SNAP_COUNT {
        return;
      }
      var snap := log.storage.CreateSnapshot(appliedIndex);
      assert snap.Found?;
      var compactIndex := 1;
      if appliedIndex > CATCH_UP {
        compactIndex := appliedIndex - CATCH_UP;
      }
      var r := log.storage.Compact(compactIndex);
      assert r.Found?;
      snapshotIndex := appliedIndex;
    }

    /** One turn of pull_ready_events as the source has it, storage compacted before the Ready is
        acknowledged, even where that reaches entries that are still unstable: the log ends as after a round
        and a compaction behind the application. */
    method Turn() returns (rd: Ready)
      requires Valid() && Fresh()
      modifies this, log, log.storage, log.unstable
      ensures Valid() && Fresh()
      ensures var l, taken := AfterRound(old(log.View()), log.maxNext), if rd.snapshot.Some? then rd.snapshot.value.index else old(snapshotIndex);
              && l.base <= taken <= l.applied <= l.Last() && log.View() == AfterTrigger(l, taken)
              && snapshotIndex == if l.applied - taken <= SNAP_COUNT then taken else l.applied
      ensures log.unstable.entries == [] && log.unstable.snapshot == None
      ensures rd.committed == NextOf(old(log.View()), log.maxNext) && rd.snapshot == old(log.unstable.snapshot)
      ensures events == old(events) + Announced(rd.snapshot) + EventsOf(rd.committed)
    {
      hide log.Valid, log.View, NextOf, InOrder, Saved, AfterRound, LayerLog, LayersOk, StoredAt, AfterTrigger, CutAt, StoredOk, InRange, EventsOf, LastSeen, Contiguous, Joined;
      rd := TakeReady();
      Save(rd);
      log.Layered();
      ghost var l, d, snap, offset, u := log.View(), log.storage.entries, log.unstable.snapshot, log.unstable.offset, log.unstable.entries;
      RoundBounds(d, snap, offset, u, log.committed, log.applied, log.maxNext);
      BaseOf(d, snap, offset, u, log.committed, log.applied);
      AdvanceKeepsLog(d, snap, offset, u, log.committed, log.applied, log.maxNext);
      Publish(rd);
      ghost var taken := snapshotIndex;
      MaybeTriggerSnapshot();
      Acknowledge(rd);
      TriggeredInLayers(d, log.storage.entries, offset + |u|, log.committed, log.applied, taken);
      log.Folded();
    }

    /** A pending snapshot is newer than the stored one. */
    ghost predicate Fresh()
      reads log, log.storage, log.unstable
    {
      log.unstable.snapshot.Some? ==> log.storage.snapshot.index < log.unstable.snapshot.value.index
    }

    /** The log side of RawNode::has_ready. */
    method HasReady() returns (b: bool)
      requires log.Valid()
      ensures b == (log.unstable.snapshot.Some? || log.unstable.entries != [] || NextOf(log.View(), log.maxNext) != [])
    {
      var next := log.HasNextEntries();
      b := log.unstable.snapshot.Some? || log.unstable.entries != [] || next;
    }

    /** pull_ready_events: the loop ends, and by then exactly the committed entries that had not been
        applied have been delivered, in order, after the pending snapshot if there was one; everything
        is stored, nothing is pending, and the log has at most been compacted behind what was delivered. */
    method PullReadyEvents()
      requires Valid() && Fresh()
      modifies this, log, log.storage, log.unstable
      ensures Valid() && Fresh()
      ensures Shortened(old(log.View()).(applied := old(log.committed)), log.View())
      ensures log.unstable.entries == [] && log.unstable.snapshot == None
      ensures events == old(events) + Announced(old(log.unstable.snapshot)) + EventsOf(Outstanding(old(log.View())))
      ensures log.storage.entries != [] && log.View().ents == log.storage.entries[1..]
    {
      hide log.Valid, log.View, NextOf, AfterRound, AfterTrigger, InOrder, Progressed, Outstanding, Shortened;
      ghost var l, snap := log.View(), log.unstable.snapshot;
      ghost var whole := l;
      StartOfPull();
      ShortenedRefl(l);
      var more := HasReady();
      while more
        invariant Valid() && Fresh()
        invariant Progressed(l, old(events), snap, log.unstable.snapshot, whole, events)
        invariant InRange(whole) && Shortened(whole, log.View()) && whole.applied == log.applied && whole.committed == log.committed
        invariant more == (log.unstable.snapshot.Some? || log.unstable.entries != [] || NextOf(log.View(), log.maxNext) != [])
        decreases log.committed - log.applied,
                  if log.unstable.snapshot.Some? || log.unstable.entries != [] then 1 else 0
      {
        ghost var w, left, ev := log.View(), log.unstable.snapshot, events;
        RoundProgresses(l, old(events), snap, left, whole, ev, log.maxNext);
        ShortenedNext(whole, w, log.maxNext);
        ShortenedRound(whole, w, log.maxNext);
        ghost var taken := if left.Some? then left.value.index else snapshotIndex;
        var rd := Turn();
        ShortenedTrigger(AfterRound(whole, log.maxNext), AfterRound(w, log.maxNext), taken);
        whole := AfterRound(whole, log.maxNext);
        more := HasReady();
      }
      ShortenedNext(whole, log.View(), log.maxNext);
      EndOfPull(l, old(events), snap, whole, events, log.maxNext);
      log.Layered();
      StoredIsWhole(log.storage.entries, log.unstable.offset, log.committed, log.applied);
    }

    lemma ShortenedRefl(l: Log)
      ensures Shortened(l, l)
    {
    }

    lemma StartOfPull()
      requires Valid()
      ensures Progressed(log.View(), events, log.unstable.snapshot, log.unstable.snapshot, log.View(), events)
    {
      var l := log.View();
      if log.unstable.snapshot.None? {
        assert l.ents[l.applied - l.base..l.applied - l.base] == [];
        assert EventsOf([]) == [];
        assert events + [] + [] == events;
      }
    }

    /** Raft::handle_append_entries reaches the log here. */
    method Follow(index: nat, logTerm: nat, commit: nat, es: seq<Entry>) returns (lastNew: nat, matched: bool, ok: bool)
      requires Valid() && Fresh() && Contiguous(es, index + 1)
      modifies log, log.unstable
      ensures ok ==> Valid() && Fresh()
      ensures match LogSpec.MaybeAppend(old(log.View()), index, logTerm, commit, es)
              case Rejected => ok && !matched && log.View() == old(log.View())
              case Accepted(l, n) => ok && matched && lastNew == n && log.View() == l
              case Aborted => !ok
    {
      lastNew, matched, ok := log.MaybeAppend(index, logTerm, commit, es);
    }

    /** Raft::restore once its checks have passed: the snapshot is ahead of the commit cursor. */
    method Install(s: Snapshot)
      requires Valid() && s.index > log.committed
      modifies log, log.unstable
      ensures Valid() && Fresh() && log.View() == RawLog(s.index, s.term, [], s.index, old(log.applied))
    {
      log.Restore(s);
    }
  }
}
