/** The two-layer log as the objects the source updates: MemoryStorage, Unstable and RaftLog
    (raft-kv/raft/storage.cpp, unstable.cpp, raft_log.cpp). RaftLog.View() is the plain log of LogSpec,
    and every method is proved against the LogSpec function of the same name. */
module TwoLayerLog {
  import opened Proto
  import opened LogSpec
  import opened LogLayers

  /** entry_limit_size (raft-kv/raft/util.cpp). */
  method EntryLimitSize(max: nat, es: seq<Entry>) returns (r: seq<Entry>)
    ensures r == LimitSize(es, max)
  {
    r := es;
    if es == [] {
      return;
    }
    var size: nat := EntrySize(es[0]);
    var limit := 1;
    ghost var tail := es[1..];
    while limit < |es|
      invariant 1 <= limit <= |es|
      invariant FitCount(tail, EntrySize(es[0]), max) == limit - 1 + FitCount(es[limit..], size, max)
    {
      assert es[limit..][0] == es[limit] && es[limit..][1..] == es[limit + 1..];
      size := size + EntrySize(es[limit]);
      if size > max {
        r := es[..limit];
        return;
      }
      limit := limit + 1;
    }
  }

  class MemoryStorage {
    var entries: seq<Entry>
    var snapshot: Snapshot

    ghost predicate Valid()
      reads this
    {
      StoredOk(entries)
    }

    constructor ()
      ensures Valid() && entries == [Entry(Normal, 0, 0, [])] && snapshot == Snapshot(0, 0)
    {
      entries := [Entry(Normal, 0, 0, [])];
      snapshot := Snapshot(0, 0);
    }

    method FirstIndex() returns (i: nat)
      requires Valid()
      ensures i == entries[0].index + 1
    {
      i := entries[0].index + 1;
    }

    method LastIndex() returns (i: nat)
      requires Valid()
      ensures i == StoredLast(entries)
    {
      i := entries[0].index + |entries| - 1;
    }

    /** The entries of [low, high), cut to the longest prefix within `max` bytes but at least one. */
    method Entries(low: nat, high: nat, max: nat) returns (r: Lookup<seq<Entry>>)
      requires Valid() && low < high
      ensures r == if low <= entries[0].index then Compacted
                   else if high > StoredLast(entries) + 1 then OutOfBounds
                   else Found(LimitSize(entries[low - entries[0].index..high - entries[0].index], max))
    {
      var offset := entries[0].index;
      if low <= offset {
        return Compacted;
      }
      var last := LastIndex();
      if high > last + 1 {
        return OutOfBounds;
      }
      if |entries| == 1 {
        return Unavailable;
      }
      var es := [];
      var i := low - offset;
      while i < high - offset
        invariant low - offset <= i <= high - offset
        invariant es == entries[low - offset..i]
      {
        es := es + [entries[i]];
        i := i + 1;
      }
      es := EntryLimitSize(max, es);
      return Found(es);
    }

    method Term(i: nat) returns (r: Lookup<nat>)
      requires Valid()
      ensures r == if i < entries[0].index then Compacted
                   else if i > StoredLast(entries) then Unavailable
                   else Found(entries[i - entries[0].index].term)
    {
      var offset := entries[0].index;
      if i < offset {
        return Compacted;
      }
      if i - offset >= |entries| {
        return Unavailable;
      }
      return Found(entries[i - offset].term);
    }

    /** Fails, as the source aborts, exactly when a gap would remain. */
    method Append(es: seq<Entry>) returns (ok: bool)
      requires Valid() && (es != [] ==> Contiguous(es, es[0].index))
      modifies this
      ensures Valid() && snapshot == old(snapshot)
      ensures ok == AppendStored(old(entries), es).Ok?
      ensures entries == if ok then AppendStored(old(entries), es).value else old(entries)
    {
      ok := true;
      if es == [] {
        return;
      }
      AppendStoredMeaning(entries, es, es[0].index);
      var first := FirstIndex();
      var last := es[0].index + |es| - 1;
      if last < first {
        return;
      }
      var rest := es;
      if first > es[0].index {
        rest := es[first - es[0].index..];
      }
      var offset := rest[0].index - entries[0].index;
      if |entries| > offset {
        entries := entries[..offset] + rest;
      } else if |entries| == offset {
        assert entries[..offset] == entries;
        entries := entries + rest;
      } else {
        ok := false;
      }
    }

    /** Drops everything up to `index`, whose term stays as the new dummy element. */
    method Compact(index: nat) returns (r: Lookup<()>)
      requires Valid()
      modifies this
      ensures Valid() && snapshot == old(snapshot)
      ensures r == if index <= old(entries)[0].index then Compacted
                   else if index > StoredLast(old(entries)) then OutOfBounds
                   else Found(())
      ensures !r.Found? ==> entries == old(entries)
      ensures r.Found? ==>
                && entries[0].index == index && entries[0].term == old(entries)[index - old(entries)[0].index].term
                && entries[1..] == old(entries)[index - old(entries)[0].index + 1..]
    {
      var offset := entries[0].index;
      if index <= offset {
        return Compacted;
      }
      var last := LastIndex();
      if index > last {
        return OutOfBounds;
      }
      var i := index - offset;
      var dummy := entries[0].(index := entries[i].index, term := entries[i].term);
      entries := [dummy] + entries[i + 1..];
      return Found(());
    }

    /** Records a snapshot at `index`; one that is not newer than the last is refused. */
    method CreateSnapshot(index: nat) returns (r: Lookup<Snapshot>)
      requires Valid() && index >= entries[0].index
      modifies this
      ensures Valid() && entries == old(entries)
      ensures r == if index <= old(snapshot).index then Compacted
                   else if index > StoredLast(entries) then OutOfBounds
                   else Found(Snapshot(index, entries[index - entries[0].index].term))
      ensures snapshot == if r.Found? then r.value else old(snapshot)
    {
      if index <= snapshot.index {
        return Compacted;
      }
      var offset := entries[0].index;
      var last := LastIndex();
      if index > last {
        return OutOfBounds;
      }
      snapshot := Snapshot(index, entries[index - offset].term);
      return Found(snapshot);
    }

    /** Replaces everything by the snapshot, unless it is not newer than the last. */
    method ApplySnapshot(s: Snapshot) returns (ok: bool)
      requires Valid()
      modifies this
      ensures Valid() && ok == (old(snapshot).index < s.index)
      ensures if ok then snapshot == s && entries == [Entry(Normal, s.term, s.index, [])]
              else snapshot == old(snapshot) && entries == old(entries)
    {
      if snapshot.index >= s.index {
        return false;
      }
      snapshot := s;
      entries := [Entry(Normal, s.term, s.index, [])];
      return true;
    }
  }

  class Unstable {
    var snapshot: Option<Snapshot>
    var entries: seq<Entry>
    var offset: nat

    ghost predicate Valid()
      reads this
    {
      Contiguous(entries, offset) && (snapshot.Some? ==> snapshot.value.index < offset)
    }

    constructor (first: nat)
      requires first >= 1
      ensures Valid() && snapshot == None && entries == [] && offset == first
    {
      snapshot, entries, offset := None, [], first;
    }

    method MaybeFirstIndex() returns (index: nat, ok: bool)
      ensures ok == snapshot.Some?
      ensures index == if ok then snapshot.value.index + 1 else 0
    {
      if snapshot.Some? {
        return snapshot.value.index + 1, true;
      }
      return 0, false;
    }

    method MaybeLastIndex() returns (index: nat, ok: bool)
      requires Valid()
      ensures ok == (entries != [] || snapshot.Some?)
      ensures index == if entries != [] then offset + |entries| - 1 else if snapshot.Some? then snapshot.value.index else 0
    {
      if entries != [] {
        return offset + |entries| - 1, true;
      }
      if snapshot.Some? {
        return snapshot.value.index, true;
      }
      return 0, false;
    }

    /** The term of `index` if this part knows it: one of its entries, or the snapshot's own. */
    method MaybeTerm(index: nat) returns (term: nat, ok: bool)
      requires Valid()
      ensures ok == ((snapshot.Some? && index == snapshot.value.index) || offset <= index < offset + |entries|)
      ensures ok ==> term == if index < offset then snapshot.value.term else entries[index - offset].term
    {
      term, ok := 0, false;
      if index < offset {
        if snapshot.None? {
          return;
        }
        if snapshot.value.index == index {
          return snapshot.value.term, true;
        }
        return;
      }
      var last, lastOk := MaybeLastIndex();
      if !lastOk {
        return;
      }
      if index > last {
        return;
      }
      ok := true;
      term := entries[index - offset].term;
    }

    /** Forgets the entries up to `index`, if it still holds that entry. */
    method StableTo(index: nat, term: nat)
      requires Valid()
      modifies this
      ensures Valid() && snapshot == old(snapshot)
      ensures if Holds(old(offset), old(entries), index, term)
              then offset == index + 1 && entries == old(entries)[index + 1 - old(offset)..]
              else offset == old(offset) && entries == old(entries)
    {
      var gt, ok := MaybeTerm(index);
      if !ok {
        return;
      }
      if gt == term && index >= offset {
        var n := index + 1 - offset;
        entries := entries[n..];
        offset := index + 1;
      }
    }

    static predicate Holds(offset: nat, es: seq<Entry>, index: nat, term: nat) {
      offset <= index < offset + |es| && es[index - offset].term == term
    }

    method StableSnapTo(index: nat)
      requires Valid()
      modifies this
      ensures Valid() && entries == old(entries) && offset == old(offset)
      ensures snapshot == if old(snapshot).Some? && old(snapshot).value.index == index then None else old(snapshot)
    {
      if snapshot.Some? && snapshot.value.index == index {
        snapshot := None;
      }
    }

    method Restore(s: Snapshot)
      modifies this
      ensures Valid() && offset == s.index + 1 && entries == [] && snapshot == Some(s)
    {
      offset, entries, snapshot := s.index + 1, [], Some(s);
    }

    /** Fails, as the source aborts, exactly when the batch starts past the end. */
    method TruncateAndAppend(es: seq<Entry>) returns (ok: bool)
      requires Valid() && (es != [] ==> Contiguous(es, es[0].index))
      requires es != [] && snapshot.Some? ==> snapshot.value.index < es[0].index
      modifies this
      ensures Valid() && snapshot == old(snapshot)
      ensures ok == Overwrite(old(offset), old(entries), es).Ok?
      ensures (offset, entries) == if ok then Overwrite(old(offset), old(entries), es).value else (old(offset), old(entries))
    {
      ok := true;
      if es == [] {
        return;
      }
      var after := es[0].index;
      if after == offset + |entries| {
        entries := entries + es;
      } else if after <= offset {
        offset := after;
        entries := es;
      } else {
        var kept;
        kept, ok := Slice(offset, after);
        if ok {
          entries := kept + es;
        }
      }
    }

    /** Fails, as the source aborts, on bounds outside the entries. */
    method Slice(low: nat, high: nat) returns (es: seq<Entry>, ok: bool)
      requires high > low
      ensures ok == (offset <= low && high <= offset + |entries|)
      ensures es == if ok then entries[low - offset..high - offset] else []
    {
      var upper := offset + |entries|;
      if low < offset || high > upper {
        return [], false;
      }
      return entries[low - offset..high - offset], true;
    }
  }

  /** The cursors are inside the log; `applied` may be below the base while a snapshot is pending. */
  predicate InRange(l: Log) {
    l.base <= l.committed <= l.Last() && l.applied <= l.committed
  }

  /** RaftLog::next_entries. */
  function NextOf(l: Log, max: nat): (es: seq<Entry>)
    requires InRange(l)
  {
    var off := Max(l.applied + 1, l.base + 1);
    if l.committed + 1 > off then Slice(l, off, l.committed + 1, max) else []
  }

  class RaftLog {
    const storage: MemoryStorage
    const unstable: Unstable
    var committed: nat
    var applied: nat
    const maxNext: nat

    ghost predicate Valid()
      reads this, storage, unstable
    {
      && LayersOk(storage.entries, unstable.snapshot, unstable.offset, unstable.entries)
      && storage.snapshot.index <= committed
      && (unstable.snapshot.Some? ==> applied < unstable.snapshot.value.index)
      && (unstable.snapshot.None? ==> storage.entries[0].index <= applied)
      && InRange(LayerLog(storage.entries, unstable.snapshot, unstable.offset, unstable.entries, committed, applied))
    }

    /** The plain log the two layers stand for. */
    ghost function View(): (l: Log)
      reads this, storage, unstable
      requires Valid()
      ensures l.committed == committed && l.applied == applied && InRange(l)
    {
      LayerLog(storage.entries, unstable.snapshot, unstable.offset, unstable.entries, committed, applied)
    }

    /** Valid and View in terms of the two layers, ... */
    lemma Layered()
      requires Valid()
      ensures LayersOk(storage.entries, unstable.snapshot, unstable.offset, unstable.entries)
      ensures View() == LayerLog(storage.entries, unstable.snapshot, unstable.offset, unstable.entries, committed, applied)
      ensures storage.Valid() && unstable.Valid() && storage.snapshot.index <= committed
      ensures if unstable.snapshot.Some? then applied < unstable.snapshot.value.index else storage.entries[0].index <= applied
    {
    }

    /** ... and back. */
    lemma Folded()
      requires LayersOk(storage.entries, unstable.snapshot, unstable.offset, unstable.entries)
      requires InRange(LayerLog(storage.entries, unstable.snapshot, unstable.offset, unstable.entries, committed, applied))
      requires if unstable.snapshot.Some? then applied < unstable.snapshot.value.index else storage.entries[0].index <= applied
      requires storage.snapshot.index <= committed
      ensures Valid()
      ensures View() == LayerLog(storage.entries, unstable.snapshot, unstable.offset, unstable.entries, committed, applied)
    {
    }

    /** Everything stored is in the log, and nothing of it is committed or applied yet. */
    constructor (s: MemoryStorage, max: nat)
      requires s.Valid() && s.snapshot.index <= s.entries[0].index
      ensures Valid() && fresh(unstable) && storage == s && maxNext == max
      ensures View() == RawLog(s.entries[0].index, s.entries[0].term, s.entries[1..], s.entries[0].index, s.entries[0].index)
    {
      storage := s;
      maxNext := max;
      var first := s.FirstIndex();
      var last := s.LastIndex();
      unstable := new Unstable(last + 1);
      committed, applied := first - 1, first - 1;
      new;
      assert s.entries[1..|s.entries|] == s.entries[1..];
    }

    method FirstIndex() returns (i: nat)
      requires Valid()
      ensures i == View().base + 1
    {
      var index, ok := unstable.MaybeFirstIndex();
      if ok {
        return index;
      }
      i := storage.FirstIndex();
    }

    method LastIndex() returns (i: nat)
      requires Valid()
      ensures i == View().Last()
    {
      var index, ok := unstable.MaybeLastIndex();
      if ok {
        return index;
      }
      i := storage.LastIndex();
    }

    /** 0 outside the log; inside it the lookup always succeeds. */
    method Term(i: nat) returns (t: nat)
      requires Valid()
      ensures t == View().TermAt(i)
    {
      var first := FirstIndex();
      var last := LastIndex();
      if i < first - 1 || i > last {
        return 0;
      }
      TermInLayers(storage.entries, unstable.snapshot, unstable.offset, unstable.entries, committed, applied, i);
      var term, ok := unstable.MaybeTerm(i);
      if ok {
        return term;
      }
      var r := storage.Term(i);
      t := r.value;
    }

    method MatchTerm(i: nat, t: nat) returns (b: bool)
      requires Valid()
      ensures b == LogSpec.MatchTerm(View(), i, t)
    {
      var term := Term(i);
      b := t == term;
    }

    method LastTerm() returns (t: nat)
      requires Valid()
      ensures t == View().LastTerm()
    {
      var last := LastIndex();
      t := Term(last);
    }

    method IsUpToDate(lastIndex: nat, term: nat) returns (b: bool)
      requires Valid()
      ensures b == LogSpec.IsUpToDate(View(), lastIndex, term)
    {
      var lt := LastTerm();
      var last := LastIndex();
      b := term > lt || (term == lt && lastIndex >= last);
    }

    method FindConflict(es: seq<Entry>) returns (ci: nat)
      requires Valid()
      ensures ci == LogSpec.FindConflict(View(), es)
    {
      var k := 0;
      while k < |es|
        invariant 0 <= k <= |es|
        invariant LogSpec.FindConflict(View(), es) == LogSpec.FindConflict(View(), es[k..])
      {
        assert es[k..][0] == es[k] && es[k..][1..] == es[k + 1..];
        var same := MatchTerm(es[k].index, es[k].term);
        if !same {
          return es[k].index;
        }
        k := k + 1;
      }
      ci := 0;
    }

    /** Fails, as the source aborts, exactly where the plain log's append is fatal. */
    method Append(ghost first: nat, es: seq<Entry>) returns (last: nat, ok: bool)
      requires Valid() && Contiguous(es, first)
      modifies unstable
      ensures Valid() && ok == LogSpec.Append(old(View()), first, es).Ok?
      ensures View() == if ok then LogSpec.Append(old(View()), first, es).value else old(View())
      ensures ok ==> last == View().Last()
    {
      ok := true;
      if es == [] {
        last := LastIndex();
        return;
      }
      var after := es[0].index - 1;
      if after < committed {
        return 0, false;
      }
      OverwriteIsAppend(storage.entries, unstable.snapshot, unstable.offset, unstable.entries, committed, applied, first, es);
      ok := unstable.TruncateAndAppend(es);
      if ok {
        last := LastIndex();
      } else {
        last := 0;
      }
    }

    method CommitTo(to: nat) returns (ok: bool)
      requires Valid()
      modifies this
      ensures Valid() && ok == LogSpec.CommitTo(old(View()), to).Ok?
      ensures View() == if ok then LogSpec.CommitTo(old(View()), to).value else old(View())
    {
      ok := true;
      if committed < to {
        var last := LastIndex();
        if last < to {
          return false;
        }
        committed := to;
      }
    }

    /** The middle of maybe_append: nothing without a conflict, otherwise the entries from it on. */
    method Overtake(index: nat, es: seq<Entry>, ci: nat) returns (ok: bool)
      requires Valid() && Contiguous(es, index + 1) && (ci == 0 || index < ci <= index + |es|)
      modifies unstable
      ensures Valid() && ok == Overtaken(old(View()), index, es, ci).Ok?
      ensures View() == if ok then Overtaken(old(View()), index, es, ci).value else old(View())
    {
      ok := true;
      if ci != 0 {
        if ci <= committed {
          return false;
        }
        var last;
        last, ok := Append(ci, es[ci - (index + 1)..]);
      }
    }

    /** maybe_append agrees with the plain log in all its outcomes. */
    method MaybeAppend(index: nat, logTerm: nat, commit: nat, es: seq<Entry>) returns (lastNew: nat, matched: bool, ok: bool)
      requires Valid() && Contiguous(es, index + 1)
      modifies this, unstable
      ensures Valid()
      ensures match LogSpec.MaybeAppend(old(View()), index, logTerm, commit, es)
              case Rejected => ok && !matched && lastNew == 0 && View() == old(View())
              case Accepted(l, n) => ok && matched && lastNew == n && View() == l
              case Aborted => !ok
    {
      assert View().base <= View().committed;
      hide *;
      MaybeAppendCases(View(), index, logTerm, commit, es);
      ok := true;
      matched := MatchTerm(index, logTerm);
      if !matched {
        return 0, false, true;
      }
      lastNew := index + |es|;
      var ci := FindConflict(es);
      ok := Overtake(index, es, ci);
      if ok {
        ok := CommitTo(Min(commit, lastNew));
      }
    }

    method MaybeCommit(maxIndex: nat, term: nat) returns (changed: bool, ok: bool)
      requires Valid()
      modifies this
      ensures Valid() && ok == LogSpec.MaybeCommit(old(View()), maxIndex, term).Ok?
      ensures ok ==> (View(), changed) == LogSpec.MaybeCommit(old(View()), maxIndex, term).value
    {
      changed, ok := false, true;
      if maxIndex > committed {
        var t := Term(maxIndex);
        if t == term {
          ok := CommitTo(maxIndex);
          changed := true;
        }
      }
    }

    /** The bounds check of slice. */
    method CheckBounds(low: nat, high: nat) returns (r: Lookup<()>)
      requires Valid() && low <= high
      ensures r == if low <= View().base then Compacted
                   else if high > View().Last() + 1 then OutOfBounds
                   else Found(())
    {
      var first := FirstIndex();
      if low < first {
        return Compacted;
      }
      var last := LastIndex();
      if high > last + 1 {
        return OutOfBounds;
      }
      return Found(());
    }

    /** The entries of [low, high) cut to `max` bytes, taken from both layers. */
    method Slice(low: nat, high: nat, max: nat) returns (r: Lookup<seq<Entry>>)
      requires Valid() && low <= high
      ensures r == if low <= View().base then Compacted
                   else if high > View().Last() + 1 then OutOfBounds
                   else Found(LogSpec.Slice(View(), low, high, max))
    {
      var bounds := CheckBounds(low, high);
      if !bounds.Found? {
        return if bounds.Compacted? then Compacted else OutOfBounds;
      }
      if low == high {
        return Found([]);
      }
      var es := SliceBoth(low, high, max);
      return Found(es);
    }

    /** A non-empty stretch within the bounds: the stored part first, the rest if that part fits. */
    method SliceBoth(low: nat, high: nat, max: nat) returns (es: seq<Entry>)
      requires Valid() && View().base < low < high <= View().Last() + 1
      ensures es == LogSpec.Slice(View(), low, high, max)
    {
      hide Valid, View, LayersOk, LayerLog, LimitSize, LogSpec.Slice, StoredOk, Contiguous, InRange;
      ghost var d, snap, offset, u := storage.entries, unstable.snapshot, unstable.offset, unstable.entries;
      Layered();
      if offset <= low {
        SliceUnstable(d, snap, offset, u, committed, applied, low, high, max);
      } else if high <= offset {
        SliceStored(d, snap, offset, u, committed, applied, low, high, max);
      } else {
        SliceAcross(d, snap, offset, u, committed, applied, low, high, max);
      }
      es := [];
      if low < unstable.offset {
        var middle := if high < unstable.offset then high else unstable.offset;
        var part := storage.Entries(low, middle, max);
        es := part.value;
        if |es| < middle - low {
          return;
        }
      }
      if high > unstable.offset {
        var more, ok := unstable.Slice(if low < unstable.offset then unstable.offset else low, high);
        assert [] + more == more;
        es := es + more;
      }
      es := EntryLimitSize(max, es);
    }

    method Entries(low: nat, max: nat) returns (r: Lookup<seq<Entry>>)
      requires Valid()
      ensures r == if low > View().Last() then Found([])
                   else if low <= View().base then Compacted
                   else Found(EntriesFrom(View(), low, max))
    {
      var last := LastIndex();
      if low > last {
        return Found([]);
      }
      r := Slice(low, last + 1, max);
    }

    /** The snapshot takes the place of the whole log, cursor included; past the commit cursor, as its
        caller checks, the log stays sound. */
    method Restore(s: Snapshot)
      requires Valid()
      modifies this, unstable
      ensures unstable.snapshot == Some(s) && LayersOk(storage.entries, unstable.snapshot, unstable.offset, unstable.entries)
      ensures LayerLog(storage.entries, unstable.snapshot, unstable.offset, unstable.entries, committed, applied)
           == RawLog(s.index, s.term, [], s.index, old(applied))
      ensures s.index > old(committed) ==> Valid() && View() == RawLog(s.index, s.term, [], s.index, old(applied))
    {
      committed := s.index;
      unstable.Restore(s);
    }

    /** Every byte of both layers: a limit that never cuts. */
    function Unlimited(): nat
      reads storage, unstable
    {
      TotalSize(storage.entries) + TotalSize(unstable.entries)
    }

    /** A slice without a limit. */
    method SliceAll(low: nat, high: nat) returns (es: seq<Entry>)
      requires Valid() && View().base < low <= high <= View().Last() + 1
      ensures es == View().ents[low - View().base - 1..high - View().base - 1]
    {
      hide Valid, View, LimitSize, TotalSize, LayersOk, LayerLog;
      ghost var whole := View().ents[low - View().base - 1..high - View().base - 1];
      Layered();
      StretchFits(storage.entries, unstable.snapshot, unstable.offset, unstable.entries, committed, applied, low, high);
      LimitCutsNothing(whole, Unlimited());
      var r := Slice(low, high, Unlimited());
      es := r.value;
    }

    /** All committed entries not yet handed out, within the byte limit; the lookup cannot fail. */
    method NextEntries() returns (es: seq<Entry>)
      requires Valid()
      ensures es == NextOf(View(), maxNext)
    {
      hide Valid, View, LimitSize, LogSpec.Slice;
      es := [];
      var first := FirstIndex();
      var off := Max(applied + 1, first);
      if committed + 1 > off {
        var r := Slice(off, committed + 1, maxNext);
        es := r.value;
      }
    }

    method HasNextEntries() returns (b: bool)
      requires Valid()
      ensures b == (NextOf(View(), maxNext) != [])
    {
      hide Valid, View;
      var first := FirstIndex();
      b := committed + 1 > Max(applied + 1, first);
    }

    /** The source moves the cursor even when it is out of range, after logging an error. */
    method AppliedTo(index: nat)
      modifies this
      ensures committed == old(committed) && applied == if index == 0 then old(applied) else index
    {
      if index != 0 {
        applied := index;
      }
    }
  }
}
