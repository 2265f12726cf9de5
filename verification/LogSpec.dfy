/** The plain log: what RaftLog means. One base position (the last compacted entry), the entries
    after it, and the commit and apply cursors. Every operation of raft_log.cpp has one function here;
    the cluster model and the two-layer implementation both refer to these. */
module LogSpec {
  import opened Proto

  datatype RawLog = RawLog(base: nat, baseTerm: nat, ents: seq<Entry>, committed: nat, applied: nat) {
    predicate Numbered() {
      Contiguous(ents, base + 1)
    }

    function Last(): nat {
      base + |ents|
    }

    /** RaftLog::term: 0 outside [base, Last]. */
    function TermAt(i: nat): nat {
      if i < base || i > Last() then 0
      else if i == base then baseTerm
      else ents[i - base - 1].term
    }

    function LastTerm(): nat {
      TermAt(Last())
    }
  }

  type Log = l: RawLog | l.Numbered() witness RawLog(0, 0, [], 0, 0)

  /** The log with its commit cursor at `c`. */
  function AtCommit(l: Log, c: nat): (r: Log) {
    l.(committed := c)
  }

  /** The log cut after `keep` entries and continued with `es`. */
  function Replace(l: Log, keep: nat, es: seq<Entry>): (r: Log)
    requires keep <= |l.ents| && Contiguous(es, l.base + 1 + keep)
  {
    l.(ents := l.ents[..keep] + es)
  }

  predicate MatchTerm(l: Log, i: nat, t: nat) {
    l.TermAt(i) == t
  }

  /** Index of the first entry whose term differs from the log's at that index, or 0. */
  function FindConflict(l: Log, es: seq<Entry>): nat {
    if es == [] then 0
    else if !MatchTerm(l, es[0].index, es[0].term) then es[0].index
    else FindConflict(l, es[1..])
  }

  /** RaftLog::append: replaces everything from the first given index on. Cutting below the commit
      cursor and leaving a gap are fatal. */
  function Append(l: Log, ghost first: nat, es: seq<Entry>): (r: Result<Log>)
    requires Contiguous(es, first)
    requires l.base <= l.committed
  {
    if es == [] then Ok(l)
    else if es[0].index - 1 < l.committed then Fatal
    else if es[0].index > l.Last() + 1 then Fatal
    else Ok(Replace(l, es[0].index - l.base - 1, es))
  }

  /** RaftLog::commit_to. */
  function CommitTo(l: Log, to: nat): (r: Result<Log>) {
    if l.committed < to then
      if l.Last() < to then Fatal else Ok(AtCommit(l, to))
    else Ok(l)
  }

  function Min(a: nat, b: nat): nat {
    if a < b then a else b
  }

  function Max(a: nat, b: nat): nat {
    if a < b then b else a
  }

  /** A contiguous batch has a conflict at one of its own indices. */
  lemma {:induction false} FindConflictInRange(l: Log, es: seq<Entry>, first: nat)
    requires Contiguous(es, first)
    ensures FindConflict(l, es) == 0 || first <= FindConflict(l, es) < first + |es|
    decreases |es|
  {
    if es != [] && MatchTerm(l, es[0].index, es[0].term) {
      FindConflictInRange(l, es[1..], first + 1);
    }
  }

  /** What maybe_append reports: no match at (index, logTerm), the new log with the index of the last
      given entry, or the process aborting. */
  datatype AppendOutcome = Rejected | Accepted(log: Log, lastNew: nat) | Aborted

  /** RaftLog::maybe_append. */
  function MaybeAppend(l: Log, index: nat, logTerm: nat, committed: nat, es: seq<Entry>): (r: AppendOutcome)
    requires Contiguous(es, index + 1)
    requires l.base <= l.committed
    ensures r.Accepted? ==> r.log.base == l.base && r.log.baseTerm == l.baseTerm && r.log.applied == l.applied
  {
    var ci := FindConflict(l, es);
    FindConflictInRange(l, es, index + 1);
    if !MatchTerm(l, index, logTerm) then Rejected
    else if 0 < ci <= l.committed then Aborted
    else
      var appended := if ci == 0 then Ok(l) else Append(l, ci, es[ci - (index + 1)..]);
      if appended.Fatal? then Aborted
      else
        var l' := CommitTo(appended.value, Min(committed, index + |es|));
        if l'.Fatal? then Aborted else Accepted(l'.value, index + |es|)
  }

  /** The log before the commit cursor moves: unchanged without a conflict, otherwise rewritten from it on. */
  function Overtaken(l: Log, index: nat, es: seq<Entry>, ci: nat): (r: Result<Log>)
    requires Contiguous(es, index + 1) && l.base <= l.committed && (ci == 0 || index < ci <= index + |es|)
  {
    if ci == 0 then Ok(l)
    else if ci <= l.committed then Fatal
    else Append(l, ci, es[ci - (index + 1)..])
  }

  lemma MaybeAppendCases(l: Log, index: nat, logTerm: nat, committed: nat, es: seq<Entry>)
    requires Contiguous(es, index + 1) && l.base <= l.committed
    ensures var ci := FindConflict(l, es);
            && (ci == 0 || index < ci <= index + |es|)
            && MaybeAppend(l, index, logTerm, committed, es) ==
               (if !MatchTerm(l, index, logTerm) then Rejected
                else
                  var r := Overtaken(l, index, es, ci);
                  if r.Fatal? then Aborted
                  else
                    var c := CommitTo(r.value, Min(committed, index + |es|));
                    if c.Fatal? then Aborted else Accepted(c.value, index + |es|))
  {
    hide FindConflict, Append, CommitTo;
    FindConflictInRange(l, es, index + 1);
  }

  /** No conflict means every given entry's term is already in the log; otherwise the terms agree
      up to the reported index and differ there. */
  lemma {:induction false} FindConflictMeaning(l: Log, es: seq<Entry>, first: nat)
    requires Contiguous(es, first)
    ensures var ci := FindConflict(l, es);
            if ci == 0 then forall k :: 0 <= k < |es| ==> l.TermAt(first + k) == es[k].term
            else
              && first <= ci < first + |es|
              && l.TermAt(ci) != es[ci - first].term
              && forall k :: 0 <= k < ci - first ==> l.TermAt(first + k) == es[k].term
    decreases |es|
  {
    if es != [] && MatchTerm(l, es[0].index, es[0].term) {
      FindConflictMeaning(l, es[1..], first + 1);
      var ci := FindConflict(l, es[1..]);
      forall k | 0 <= k < (if ci == 0 then |es| else ci - first) ensures l.TermAt(first + k) == es[k].term {
        if k > 0 {
          assert l.TermAt(first + 1 + (k - 1)) == es[1..][k - 1].term;
        }
      }
    }
  }

  /** A conflict is at most one past the end of the log, when the stretch starts inside it. */
  lemma ConflictReachable(l: Log, index: nat, es: seq<Entry>)
    requires l.base <= index <= l.Last()
    requires Contiguous(es, index + 1) && forall k :: 0 <= k < |es| ==> es[k].term >= 1
    ensures FindConflict(l, es) <= l.Last() + 1
    ensures FindConflict(l, es) == 0 ==> index + |es| <= l.Last()
    ensures FindConflict(l, es) == 0 || index < FindConflict(l, es) <= index + |es|
  {
    FindConflictMeaning(l, es, index + 1);
    hide FindConflict;
    var ci := FindConflict(l, es);
    var k := (if ci == 0 then |es| else ci - (index + 1)) - 1;
    if k >= 0 {
      assert l.TermAt(index + 1 + k) == es[k].term;
    }
  }

  /** The log after an accepted maybe_append: unchanged without a conflict, otherwise everything
      before the first conflict followed by the given entries from there. */
  function Merged(l: Log, index: nat, es: seq<Entry>): (r: Log)
    requires l.base <= index <= l.Last()
    requires Contiguous(es, index + 1) && forall k :: 0 <= k < |es| ==> es[k].term >= 1
  {
    ConflictReachable(l, index, es);
    var ci := FindConflict(l, es);
    if ci == 0 then l else Replace(l, ci - l.base - 1, es[ci - (index + 1)..])
  }

  lemma MergedAtConflict(l: Log, index: nat, es: seq<Entry>)
    requires l.base <= index <= l.Last()
    requires Contiguous(es, index + 1) && forall k :: 0 <= k < |es| ==> es[k].term >= 1
    requires FindConflict(l, es) != 0
    ensures var ci := FindConflict(l, es);
            && index < ci <= l.Last() + 1 && ci <= index + |es|
            && Merged(l, index, es) == Replace(l, ci - l.base - 1, es[ci - (index + 1)..])
  {
    hide FindConflict;
    ConflictReachable(l, index, es);
  }

  lemma MergedWithoutConflict(l: Log, index: nat, es: seq<Entry>)
    requires l.base <= index <= l.Last()
    requires Contiguous(es, index + 1) && forall k :: 0 <= k < |es| ==> es[k].term >= 1
    requires FindConflict(l, es) == 0
    ensures Merged(l, index, es) == l
  {
    hide FindConflict;
  }

  lemma TailContiguous(es: seq<Entry>, first: nat, m: nat)
    requires Contiguous(es, first) && m < |es|
    ensures Contiguous(es[m..], first + m) && es[m..][0].index == first + m
  {
  }

  lemma AppendAtConflict(l: Log, index: nat, es: seq<Entry>)
    requires l.base <= l.committed <= l.Last() && l.base <= index <= l.Last()
    requires Contiguous(es, index + 1) && forall k :: 0 <= k < |es| ==> es[k].term >= 1
    requires FindConflict(l, es) > l.committed
    ensures var ci := FindConflict(l, es);
            && index < ci <= index + |es|
            && Append(l, ci, es[ci - (index + 1)..]) == Ok(Merged(l, index, es))
  {
    hide FindConflict, Merged, Contiguous, Replace;
    MergedAtConflict(l, index, es);
    TailContiguous(es, index + 1, FindConflict(l, es) - (index + 1));
  }

  lemma MergedShape(l: Log, index: nat, es: seq<Entry>)
    requires l.base <= index <= l.Last()
    requires Contiguous(es, index + 1) && forall k :: 0 <= k < |es| ==> es[k].term >= 1
    requires FindConflict(l, es) != 0
    ensures Merged(l, index, es).Last() == index + |es|
    ensures Merged(l, index, es) == l.(ents := Merged(l, index, es).ents)
  {
    hide FindConflict, Merged;
    MergedAtConflict(l, index, es);
  }

  /** maybe_append on entries that follow a matching, in-range (index, term): it is fatal exactly when
      the first conflict is already committed, and otherwise merges and raises the commit cursor. */
  lemma MaybeAppendContract(l: Log, index: nat, logTerm: nat, committed: nat, es: seq<Entry>)
    requires l.base <= l.committed <= l.Last()
    requires l.base <= index <= l.Last() && MatchTerm(l, index, logTerm)
    requires Contiguous(es, index + 1) && forall k :: 0 <= k < |es| ==> es[k].term >= 1
    ensures MaybeAppend(l, index, logTerm, committed, es) ==
            if 0 < FindConflict(l, es) <= l.committed then Aborted
            else Accepted(AtCommit(Merged(l, index, es), Max(l.committed, Min(committed, index + |es|))),
                          index + |es|)
  {
    hide FindConflict, Merged, Append;
    ConflictReachable(l, index, es);
    var ci := FindConflict(l, es);
    if ci == 0 {
      MergedWithoutConflict(l, index, es);
    } else if ci > l.committed {
      AppendAtConflict(l, index, es);
      MergedShape(l, index, es);
    }
  }

  /** After an accepted maybe_append the given entries are all in the log by index and term, ... */
  lemma MergedHoldsGiven(l: Log, index: nat, es: seq<Entry>, k: nat)
    requires l.base <= index <= l.Last()
    requires Contiguous(es, index + 1) && forall k :: 0 <= k < |es| ==> es[k].term >= 1
    requires k < |es|
    ensures Merged(l, index, es).TermAt(index + 1 + k) == es[k].term
  {
    FindConflictMeaning(l, es, index + 1);
    ConflictReachable(l, index, es);
    hide FindConflict;
    var ci := FindConflict(l, es);
    if ci != 0 && k >= ci - (index + 1) {
      assert Merged(l, index, es).ents[index + k - l.base] == es[ci - (index + 1)..][k - (ci - (index + 1))];
    }
  }

  /** ... nothing before the first conflict has changed, and without one nothing at all. */
  lemma MergedKeepsRest(l: Log, index: nat, es: seq<Entry>)
    requires l.base <= index <= l.Last()
    requires Contiguous(es, index + 1) && forall k :: 0 <= k < |es| ==> es[k].term >= 1
    ensures var ci := FindConflict(l, es);
            if ci == 0 then Merged(l, index, es) == l
            else
              && index < ci <= l.Last() + 1
              && Merged(l, index, es).ents[..ci - l.base - 1] == l.ents[..ci - l.base - 1]
  {
    if FindConflict(l, es) != 0 {
      MergedAtConflict(l, index, es);
      hide *;
    }
  }

  /** RaftLog::maybe_commit. */
  function MaybeCommit(l: Log, maxIndex: nat, term: nat): (r: Result<(Log, bool)>) {
    if maxIndex > l.committed && l.TermAt(maxIndex) == term then
      var l1 :- CommitTo(l, maxIndex);
      Ok((l1, true))
    else Ok((l, false))
  }

  /** RaftLog::is_up_to_date. */
  predicate IsUpToDate(l: Log, lastIndex: nat, term: nat) {
    term > l.LastTerm() || (term == l.LastTerm() && lastIndex >= l.Last())
  }

  /** How many of `es` fit in `max` bytes when `used` are already taken. */
  function FitCount(es: seq<Entry>, used: nat, max: nat): (n: nat)
    ensures n <= |es|
  {
    if es == [] || used + EntrySize(es[0]) > max then 0
    else 1 + FitCount(es[1..], used + EntrySize(es[0]), max)
  }

  /** entry_limit_size: the longest prefix within `max` bytes, but at least one entry. */
  function LimitSize(es: seq<Entry>, max: nat): (r: seq<Entry>)
    ensures r <= es
    ensures es != [] ==> r != []
  {
    if es == [] then [] else es[..1 + FitCount(es[1..], EntrySize(es[0]), max)]
  }

  /** Taking `done` first, `n` more entries fit and the next one, if any, does not. */
  ghost predicate FitsExactly(done: seq<Entry>, es: seq<Entry>, n: nat, max: nat)
    requires n <= |es|
  {
    && (n > 0 ==> TotalSize(done + es[..n]) <= max)
    && (n < |es| ==> TotalSize(done + es[..n + 1]) > max)
  }

  lemma {:induction false} FitCountIsGreatest(done: seq<Entry>, es: seq<Entry>, max: nat)
    ensures FitsExactly(done, es, FitCount(es, TotalSize(done), max), max)
    decreases |es|
  {
    hide TotalSize, EntrySize;
    if es != [] {
      TotalSizeSnoc(done, es[0]);
      assert es[..1] == [es[0]];
      if TotalSize(done) + EntrySize(es[0]) <= max {
        FitCountIsGreatest(done + [es[0]], es[1..], max);
        FitsExactlyStep(done, es, FitCount(es[1..], TotalSize(done + [es[0]]), max), max);
      }
    }
  }

  lemma FitsExactlyStep(done: seq<Entry>, es: seq<Entry>, n: nat, max: nat)
    requires n < |es|
    requires FitsExactly(done + [es[0]], es[1..], n, max)
    requires TotalSize(done + [es[0]]) <= max
    ensures FitsExactly(done, es, n + 1, max)
  {
    hide TotalSize;
    assert done + [es[0]] + es[1..][..n] == done + es[..n + 1];
    if n == 0 {
      assert done + [es[0]] == done + es[..1];
    }
    if n < |es| - 1 {
      assert done + [es[0]] + es[1..][..n + 1] == done + es[..n + 2];
    }
  }

  /** entry_limit_size keeps a prefix that fits (unless it is the one entry always kept), and one
      entry more would not fit. */
  lemma LimitSizeIsLongest(es: seq<Entry>, max: nat)
    ensures var r := LimitSize(es, max);
            && (|r| > 1 ==> TotalSize(r) <= max)
            && (|r| < |es| ==> TotalSize(es[..|r| + 1]) > max)
  {
    if es != [] {
      TotalSizeSnoc([], es[0]);
      assert [] + [es[0]] == [es[0]];
      FitCountIsGreatest([es[0]], es[1..], max);
      hide TotalSize, EntrySize, FitCount;
      var n := FitCount(es[1..], EntrySize(es[0]), max);
      assert [es[0]] + es[1..][..n] == es[..n + 1];
      if n < |es| - 1 {
        assert [es[0]] + es[1..][..n + 1] == es[..n + 2];
      }
    }
  }

  /** RaftLog::slice on bounds its own checks accept. */
  function Slice(l: Log, low: nat, high: nat, max: nat): (r: seq<Entry>)
    requires l.base < low <= high <= l.Last() + 1
  {
    LimitSize(l.ents[low - l.base - 1..high - l.base - 1], max)
  }

  /** RaftLog::entries; `low` below the first index is the compaction error, which has no value here. */
  function EntriesFrom(l: Log, low: nat, max: nat): (r: seq<Entry>)
    requires l.base < low
  {
    if low > l.Last() then [] else Slice(l, low, l.Last() + 1, max)
  }

  /** The cursors are in order and inside the log. */
  predicate CursorsOk(l: Log) {
    l.base <= l.applied <= l.committed <= l.Last()
  }
}
