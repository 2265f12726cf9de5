/** The two layers of the log as values: the stored entries with their dummy first element, and the
    unstable part with its offset and pending snapshot. `LayerLog` is the one plain log they stand for. */
module LogLayers {
  import opened Proto
  import opened LogSpec

  datatype Snapshot = Snapshot(index: nat, term: nat)

  /** What a lookup in storage answers: a value, one of its two errors, or a fatal check. */
  datatype Lookup<T> = Found(value: T) | Compacted | Unavailable | OutOfBounds

  /** Stored entries are numbered from the dummy element that marks the last compacted index. */
  ghost predicate StoredOk(d: seq<Entry>) {
    |d| >= 1 && forall k :: 0 <= k < |d| ==> d[k].index == d[0].index + k
  }

  function StoredLast(d: seq<Entry>): nat
    requires |d| >= 1
  {
    d[0].index + |d| - 1
  }

  /** MemoryStorage::append: drops what is already compacted, then replaces the tail from the first
      given index; a gap is fatal. */
  function AppendStored(d: seq<Entry>, es: seq<Entry>): (r: Result<seq<Entry>>)
    requires |d| >= 1
  {
    if es == [] || es[0].index + |es| - 1 <= d[0].index then Ok(d)
    else
      var es1 := if es[0].index <= d[0].index then es[d[0].index + 1 - es[0].index..] else es;
      if es1[0].index <= d[0].index || es1[0].index - d[0].index > |d| then Fatal
      else Ok(d[..es1[0].index - d[0].index] + es1)
  }

  /** The stored entry of index `i`. */
  function StoredAt(d: seq<Entry>, i: nat): Option<Entry>
    requires |d| >= 1
  {
    if d[0].index < i <= StoredLast(d) then Some(d[i - d[0].index]) else None
  }

  /** How many leading entries of a batch starting at `first` are already compacted. */
  function Skipped(d: seq<Entry>, first: nat): nat
    requires |d| >= 1
  {
    if first <= d[0].index then d[0].index + 1 - first else 0
  }

  lemma AppendStoredShape(d: seq<Entry>, es: seq<Entry>, first: nat)
    requires StoredOk(d) && Contiguous(es, first)
    ensures var n := Skipped(d, first);
            AppendStored(d, es) ==
            if n >= |es| then Ok(d)
            else if first > StoredLast(d) + 1 then Fatal
            else Ok(d[..first + n - d[0].index] + es[n..])
  {
    var n := Skipped(d, first);
    if n < |es| {
      assert es[n..][0] == es[n] && es[0].index == first;
      assert es[0..] == es;
    }
  }

  /** What index `i` holds after a batch has been stored. */
  function AfterAppend(d: seq<Entry>, es: seq<Entry>, first: nat, i: nat): Option<Entry>
    requires |d| >= 1
  {
    if Skipped(d, first) >= |es| || i < first then StoredAt(d, i)
    else if i < first + |es| then Some(es[i - first])
    else None
  }

  /** MemoryStorage::append by index: the given entries are all there, below them nothing has changed,
      above them nothing is left. It is fatal exactly when a gap would remain. */
  lemma AppendStoredMeaning(d: seq<Entry>, es: seq<Entry>, first: nat)
    requires StoredOk(d) && Contiguous(es, first)
    ensures AppendStored(d, es).Fatal? <==> Skipped(d, first) < |es| && first > StoredLast(d) + 1
    ensures AppendStored(d, es).Ok? ==>
              var r := AppendStored(d, es).value;
              && StoredOk(r) && r[0] == d[0]
              && forall i :: i > d[0].index ==> StoredAt(r, i) == AfterAppend(d, es, first, i)
  {
    AppendStoredShape(d, es, first);
    hide AppendStored;
    var n := Skipped(d, first);
    if n < |es| && first <= StoredLast(d) + 1 {
      var keep := first + n - d[0].index;
      var r := d[..keep] + es[n..];
      assert r[0] == d[0];
      assert forall k :: 0 <= k < |r| ==> r[k] == if k < keep then d[k] else es[n + k - keep];
      forall i | i > d[0].index ensures StoredAt(r, i) == AfterAppend(d, es, first, i) {
        if i <= StoredLast(r) {
          assert r[i - d[0].index] == if i - d[0].index < keep then d[i - d[0].index] else es[i - first];
        }
      }
    }
  }

  // ---------------------------------------------------------------- both layers

  /** The unstable part starts inside the stored entries or right after them, leaving a stale tail only
      when it holds something itself; with a snapshot pending it starts right after the snapshot. */
  ghost predicate LayersOk(d: seq<Entry>, snap: Option<Snapshot>, offset: nat, u: seq<Entry>) {
    && StoredOk(d) && Contiguous(u, offset)
    && match snap
       case None => d[0].index < offset <= d[0].index + |d| && (u == [] ==> offset == d[0].index + |d|)
       case Some(s) => offset == s.index + 1
  }

  ghost function Joined(d: seq<Entry>, snap: Option<Snapshot>, offset: nat, u: seq<Entry>): seq<Entry>
    requires LayersOk(d, snap, offset, u)
  {
    (if snap.Some? then [] else d[1..offset - d[0].index]) + u
  }

  ghost function LayerLog(d: seq<Entry>, snap: Option<Snapshot>, offset: nat, u: seq<Entry>, committed: nat, applied: nat)
    : (l: Log)
    requires LayersOk(d, snap, offset, u)
  {
    if snap.Some? then RawLog(snap.value.index, snap.value.term, Joined(d, snap, offset, u), committed, applied)
    else RawLog(d[0].index, d[0].term, Joined(d, snap, offset, u), committed, applied)
  }

  /** Unstable::truncate_and_append: the new offset and entries; a batch that starts past the end is fatal. */
  function Overwrite(offset: nat, u: seq<Entry>, es: seq<Entry>): (r: Result<(nat, seq<Entry>)>) {
    if es == [] then Ok((offset, u))
    else if es[0].index == offset + |u| then Ok((offset, u + es))
    else if es[0].index <= offset then Ok((es[0].index, es))
    else if es[0].index > offset + |u| then Fatal
    else Ok((offset, u[..es[0].index - offset] + es))
  }

  /** Appending to the unstable part is appending to the log. */
  lemma OverwriteIsAppend(d: seq<Entry>, snap: Option<Snapshot>, offset: nat, u: seq<Entry>, committed: nat, applied: nat, first: nat, es: seq<Entry>)
    requires LayersOk(d, snap, offset, u) && Contiguous(es, first)
    requires (if snap.Some? then snap.value.index else d[0].index) <= committed
    requires es != [] ==> committed < first
    ensures var l := LayerLog(d, snap, offset, u, committed, applied);
            match Overwrite(offset, u, es)
            case Fatal => Append(l, first, es) == Fatal
            case Ok((offset', u')) =>
              LayersOk(d, snap, offset', u') && Append(l, first, es) == Ok(LayerLog(d, snap, offset', u', committed, applied))
  {
    if es != [] {
      hide LayersOk, LayerLog, Replace;
      var l := LayerLog(d, snap, offset, u, committed, applied);
      LastInLayers(d, snap, offset, u, committed, applied);
      LayerFields(d, snap, offset, u, committed, applied);
      if first <= offset + |u| {
        var (offset', u') := Overwrite(offset, u, es).value;
        OverwrittenOk(d, snap, offset, u, first, es);
        LayerFields(d, snap, offset', u', committed, applied);
        if first <= offset && first < offset + |u| {
          JoinedBelow(d, snap, offset, u, committed, applied, first, es);
        } else {
          JoinedAbove(d, snap, offset, u, committed, applied, first, es);
        }
        ReplacedIs(l, first - l.base - 1, es, LayerLog(d, snap, offset', u', committed, applied));
      }
    }
  }

  lemma LayerFields(d: seq<Entry>, snap: Option<Snapshot>, offset: nat, u: seq<Entry>, committed: nat, applied: nat)
    requires LayersOk(d, snap, offset, u)
    ensures var l := LayerLog(d, snap, offset, u, committed, applied);
            && l.committed == committed && l.applied == applied
            && |d| >= 1
            && l.base == (if snap.Some? then snap.value.index else d[0].index)
            && l.baseTerm == (if snap.Some? then snap.value.term else d[0].term)
  {
  }

  lemma ReplacedIs(l: Log, keep: nat, es: seq<Entry>, l': Log)
    requires keep <= |l.ents| && Contiguous(es, l.base + 1 + keep)
    requires l'.base == l.base && l'.baseTerm == l.baseTerm && l'.committed == l.committed && l'.applied == l.applied
    requires l'.ents == l.ents[..keep] + es
    ensures Replace(l, keep, es) == l'
  {
  }

  lemma OverwrittenOk(d: seq<Entry>, snap: Option<Snapshot>, offset: nat, u: seq<Entry>, first: nat, es: seq<Entry>)
    requires LayersOk(d, snap, offset, u) && Contiguous(es, first) && es != [] && first <= offset + |u|
    requires first > if snap.Some? then snap.value.index else d[0].index
    ensures Overwrite(offset, u, es).Ok?
    ensures LayersOk(d, snap, Overwrite(offset, u, es).value.0, Overwrite(offset, u, es).value.1)
  {
    assert es[0].index == first;
  }

  /** Rewriting from a stored index on. */
  lemma JoinedBelow(d: seq<Entry>, snap: Option<Snapshot>, offset: nat, u: seq<Entry>, committed: nat, applied: nat, first: nat, es: seq<Entry>)
    requires LayersOk(d, snap, offset, u) && LayersOk(d, snap, first, es) && first <= offset
    requires first > if snap.Some? then snap.value.index else d[0].index
    ensures var l := LayerLog(d, snap, offset, u, committed, applied);
            var keep := first - l.base - 1;
            keep <= |l.ents| && LayerLog(d, snap, first, es, committed, applied).ents == l.ents[..keep] + es
  {
    hide Contiguous;
    if snap.None? {
      var below := d[1..offset - d[0].index];
      var keep := first - d[0].index - 1;
      PartOfLeft(below, u, 0, keep);
      PartOfPart(d, 1, offset - d[0].index, 0, keep);
      assert (below + u)[0..keep] == (below + u)[..keep];
    }
  }

  /** Rewriting or extending the unstable entries. */
  lemma JoinedAbove(d: seq<Entry>, snap: Option<Snapshot>, offset: nat, u: seq<Entry>, committed: nat, applied: nat, first: nat, es: seq<Entry>)
    requires LayersOk(d, snap, offset, u) && offset <= first <= offset + |u| && es != []
    requires LayersOk(d, snap, offset, u[..first - offset] + es)
    ensures var l := LayerLog(d, snap, offset, u, committed, applied);
            var keep := first - l.base - 1;
            && keep <= |l.ents|
            && LayerLog(d, snap, offset, u[..first - offset] + es, committed, applied).ents == l.ents[..keep] + es
    ensures first == offset + |u| ==> u[..first - offset] + es == u + es
  {
    hide Contiguous;
    assert u[..|u|] == u;
    var below := if snap.Some? then [] else d[1..offset - d[0].index];
    var keep := |below| + (first - offset);
    PartAcross(below, u, 0, keep);
    assert below[0..] == below && (below + u)[0..keep] == (below + u)[..keep];
    assert below + (u[..first - offset] + es) == below + u[..first - offset] + es;
  }

  /** RaftLog::term: the unstable part first, then storage. */
  lemma TermInLayers(d: seq<Entry>, snap: Option<Snapshot>, offset: nat, u: seq<Entry>, committed: nat, applied: nat, i: nat)
    requires LayersOk(d, snap, offset, u)
    ensures var l := LayerLog(d, snap, offset, u, committed, applied);
            l.base <= i <= l.Last() ==>
              l.TermAt(i) == if i >= offset then u[i - offset].term
                             else if snap.Some? then snap.value.term
                             else d[i - d[0].index].term
  {
  }

  lemma PartOfLeft<T>(a: seq<T>, b: seq<T>, i: nat, j: nat)
    requires i <= j <= |a|
    ensures (a + b)[i..j] == a[i..j]
  {
  }

  lemma PartAcross<T>(a: seq<T>, b: seq<T>, i: nat, j: nat)
    requires i <= |a| <= j <= |a| + |b|
    ensures (a + b)[i..j] == a[i..] + b[..j - |a|]
  {
  }

  lemma PartOfRight<T>(a: seq<T>, b: seq<T>, i: nat, j: nat)
    requires |a| <= i <= j <= |a| + |b|
    ensures (a + b)[i..j] == b[i - |a|..j - |a|]
  {
  }

  lemma PartOfPart<T>(d: seq<T>, p: nat, q: nat, i: nat, j: nat)
    requires p <= q <= |d| && i <= j <= q - p
    ensures d[p..q][i..j] == d[p + i..p + j]
  {
    var a, b := d[p..q][i..j], d[p + i..p + j];
    forall k | 0 <= k < |a| ensures a[k] == b[k] {
      assert a[k] == d[p..q][i + k];
    }
    assert a == b;
  }

  /** A stretch of the log is a stored stretch below the offset and an unstable one above it. */
  lemma StretchInLayers(d: seq<Entry>, snap: Option<Snapshot>, offset: nat, u: seq<Entry>, committed: nat, applied: nat, low: nat, high: nat)
    requires LayersOk(d, snap, offset, u)
    requires var l := LayerLog(d, snap, offset, u, committed, applied); l.base < low < high <= l.Last() + 1
    ensures var l := LayerLog(d, snap, offset, u, committed, applied);
            var whole := l.ents[low - l.base - 1..high - l.base - 1];
            if high <= offset then d[0].index < low && high <= d[0].index + |d| && whole == d[low - d[0].index..high - d[0].index]
            else if low < offset then
              && d[0].index < low && offset <= d[0].index + |d|
              && whole == d[low - d[0].index..offset - d[0].index] + u[..high - offset]
            else whole == u[low - offset..high - offset]
  {
    hide Contiguous;
    var l := LayerLog(d, snap, offset, u, committed, applied);
    var below := if snap.Some? then [] else d[1..offset - d[0].index];
    var i, j := low - l.base - 1, high - l.base - 1;
    if high <= offset {
      PartOfLeft(below, u, i, j);
      PartOfPart(d, 1, offset - d[0].index, i, j);
    } else if low < offset {
      PartAcross(below, u, i, j);
      PartOfPart(d, 1, offset - d[0].index, i, offset - d[0].index - 1);
      assert below[i..] == below[i..|below|];
    } else {
      PartOfRight(below, u, i, j);
    }
  }

  /** Limiting a concatenation: when the first part does not fit, the limit is found there. */
  lemma {:induction false} FitCountConcat(a: seq<Entry>, b: seq<Entry>, used: nat, max: nat)
    ensures var n := FitCount(a, used, max);
            n < |a| ==> FitCount(a + b, used, max) == n
    decreases |a|
  {
    if a != [] {
      assert (a + b)[0] == a[0] && (a + b)[1..] == a[1..] + b;
      FitCountConcat(a[1..], b, used + EntrySize(a[0]), max);
    }
  }

  lemma LimitSizeConcat(a: seq<Entry>, b: seq<Entry>, max: nat)
    requires a != []
    ensures |LimitSize(a, max)| < |a| ==> LimitSize(a + b, max) == LimitSize(a, max)
    ensures |LimitSize(a, max)| == |a| ==> LimitSize(a, max) == a
  {
    hide FitCount, EntrySize;
    assert (a + b)[0] == a[0] && (a + b)[1..] == a[1..] + b;
    FitCountConcat(a[1..], b, EntrySize(a[0]), max);
    if |LimitSize(a, max)| < |a| {
      assert (a + b)[..|LimitSize(a, max)|] == a[..|LimitSize(a, max)|];
    }
  }

  /** Limiting the stored stretch first and then the whole gives the limit of the whole. */
  lemma LimitTwice(stored: seq<Entry>, more: seq<Entry>, max: nat)
    requires stored != []
    ensures var part := LimitSize(stored, max);
            LimitSize(stored + more, max) == if |part| < |stored| then part else LimitSize(part + more, max)
  {
    LimitSizeConcat(stored, more, max);
  }

  /** RaftLog::slice across both layers, ... */
  lemma SliceAcross(d: seq<Entry>, snap: Option<Snapshot>, offset: nat, u: seq<Entry>, committed: nat, applied: nat, low: nat, high: nat, max: nat)
    requires LayersOk(d, snap, offset, u)
    requires var l := LayerLog(d, snap, offset, u, committed, applied); l.base < low < high <= l.Last() + 1
    requires low < offset < high
    ensures d[0].index < low && offset <= d[0].index + |d| && high <= offset + |u|
    ensures Slice(LayerLog(d, snap, offset, u, committed, applied), low, high, max) ==
            var part := LimitSize(d[low - d[0].index..offset - d[0].index], max);
            if |part| < offset - low then part else LimitSize(part + u[..high - offset], max)
  {
    StretchInLayers(d, snap, offset, u, committed, applied, low, high);
    assert high <= offset + |u|;
    hide LayersOk, LayerLog, LimitSize;
    LimitTwice(d[low - d[0].index..offset - d[0].index], u[..high - offset], max);
  }

  /** ... in the stored part alone, ... */
  lemma SliceStored(d: seq<Entry>, snap: Option<Snapshot>, offset: nat, u: seq<Entry>, committed: nat, applied: nat, low: nat, high: nat, max: nat)
    requires LayersOk(d, snap, offset, u)
    requires var l := LayerLog(d, snap, offset, u, committed, applied); l.base < low < high <= l.Last() + 1
    requires high <= offset
    ensures d[0].index < low && high <= d[0].index + |d|
    ensures Slice(LayerLog(d, snap, offset, u, committed, applied), low, high, max) ==
            var part := LimitSize(d[low - d[0].index..high - d[0].index], max);
            if |part| < high - low then part else LimitSize(part, max)
  {
    StretchInLayers(d, snap, offset, u, committed, applied, low, high);
    hide LayersOk, LayerLog, LimitSize;
    var stored := d[low - d[0].index..high - d[0].index];
    LimitTwice(stored, [], max);
    assert stored + [] == stored && LimitSize(stored, max) + [] == LimitSize(stored, max);
  }

  /** ... and in the unstable part alone. */
  lemma SliceUnstable(d: seq<Entry>, snap: Option<Snapshot>, offset: nat, u: seq<Entry>, committed: nat, applied: nat, low: nat, high: nat, max: nat)
    requires LayersOk(d, snap, offset, u)
    requires var l := LayerLog(d, snap, offset, u, committed, applied); l.base < low < high <= l.Last() + 1
    requires offset <= low
    ensures high <= offset + |u|
    ensures Slice(LayerLog(d, snap, offset, u, committed, applied), low, high, max) == LimitSize(u[low - offset..high - offset], max)
  {
    hide LimitSize, LayersOk, LayerLog;
    LastInLayers(d, snap, offset, u, committed, applied);
    StretchInLayers(d, snap, offset, u, committed, applied, low, high);
  }

  lemma LastInLayers(d: seq<Entry>, snap: Option<Snapshot>, offset: nat, u: seq<Entry>, committed: nat, applied: nat)
    requires LayersOk(d, snap, offset, u)
    ensures LayerLog(d, snap, offset, u, committed, applied).Last() + 1 == offset + |u|
  {
  }

  lemma {:induction false} TotalSizeConcat(a: seq<Entry>, b: seq<Entry>)
    ensures TotalSize(a + b) == TotalSize(a) + TotalSize(b)
    decreases |b|
  {
    hide EntrySize;
    if b == [] {
      assert a + b == a;
    } else {
      assert (a + b)[..|a + b| - 1] == a + b[..|b| - 1];
      TotalSizeConcat(a, b[..|b| - 1]);
    }
  }

  lemma TotalSizePart(es: seq<Entry>, i: nat, j: nat)
    requires i <= j <= |es|
    ensures TotalSize(es[i..j]) <= TotalSize(es)
  {
    hide TotalSize;
    assert es == es[..i] + (es[i..j] + es[j..]);
    TotalSizeConcat(es[..i], es[i..j] + es[j..]);
    TotalSizeConcat(es[i..j], es[j..]);
  }

  /** A limit that the whole stretch is within cuts nothing. */
  lemma LimitCutsNothing(es: seq<Entry>, max: nat)
    requires TotalSize(es) <= max
    ensures LimitSize(es, max) == es
  {
    hide TotalSize, FitCount, EntrySize;
    LimitSizeIsLongest(es, max);
    var r := LimitSize(es, max);
    if |r| < |es| {
      TotalSizePart(es, 0, |r| + 1);
    }
  }

  /** A stretch of the log weighs no more than both layers together. */
  lemma StretchFits(d: seq<Entry>, snap: Option<Snapshot>, offset: nat, u: seq<Entry>, committed: nat, applied: nat, low: nat, high: nat)
    requires LayersOk(d, snap, offset, u)
    requires var l := LayerLog(d, snap, offset, u, committed, applied); l.base < low <= high <= l.Last() + 1
    ensures var l := LayerLog(d, snap, offset, u, committed, applied);
            TotalSize(l.ents[low - l.base - 1..high - l.base - 1]) <= TotalSize(d) + TotalSize(u)
  {
    hide TotalSize;
    var l := LayerLog(d, snap, offset, u, committed, applied);
    TotalSizePart(l.ents, low - l.base - 1, high - l.base - 1);
    if snap.Some? {
      assert l.ents == [] + u == u;
    } else {
      TotalSizeConcat(d[1..offset - d[0].index], u);
      TotalSizePart(d, 1, offset - d[0].index);
    }
  }
}
