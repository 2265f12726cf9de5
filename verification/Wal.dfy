/** The write-ahead log as the objects the source updates (raft-kv/wal/wal.cpp): a file with its write
    buffer, the log that appends records to it, and the loop that reads it back. */
module WriteAheadLog {
  import opened Proto
  import opened LogLayers
  import opened TwoLayerLog
  import opened WalSpec

  const SEGMENT_SIZE: nat := 64 * 1000 * 1000

  class WalFile {
    const crc: Checksum
    var disk: seq<byte>
    var dataBuffer: seq<byte>
    var fileSize: nat

    ghost predicate Valid()
      reads this
    {
      fileSize == |disk|
    }

    constructor (sum: Checksum, contents: seq<byte>)
      ensures Valid() && crc == sum && disk == contents && dataBuffer == []
    {
      crc, disk, dataBuffer, fileSize := sum, contents, [], |contents|;
    }

    method Truncate(offset: nat)
      requires Valid() && offset <= |disk|
      modifies this
      ensures Valid() && disk == old(disk)[..offset] && dataBuffer == []
    {
      disk := disk[..offset];
      fileSize := offset;
      dataBuffer := [];
    }

    method Append(kind: byte, data: seq<byte>)
      requires Valid()
      modifies this
      ensures Valid() && disk == old(disk) && dataBuffer == old(dataBuffer) + Frame(crc, Record(kind, data))
    {
      var header := [kind] + LenBytes(|data|) + WordBytes(crc(data));
      dataBuffer := dataBuffer + header;
      dataBuffer := dataBuffer + data;
    }

    method Sync()
      requires Valid()
      modifies this
      ensures Valid() && disk == old(disk) + old(dataBuffer) && dataBuffer == []
    {
      if dataBuffer == [] {
        return;
      }
      disk := disk + dataBuffer;
      fileSize := fileSize + |dataBuffer|;
      dataBuffer := [];
    }
  }

  lemma {:induction false} AllRecordsConcat(c: Codec, a: seq<Call>, b: seq<Call>)
    ensures AllRecords(c, a + b) == AllRecords(c, a) + AllRecords(c, b)
    decreases |a|
  {
    if a == [] {
      assert a + b == b;
    } else {
      assert (a + b)[0] == a[0] && (a + b)[1..] == a[1..] + b;
      AllRecordsConcat(c, a[1..], b);
    }
  }

  lemma OneCall(c: Codec, call: Call)
    ensures AllRecords(c, [call]) == RecordsOf(c, call)
  {
    assert [call][1..] == [];
    assert AllRecords(c, []) == [];
  }

  lemma OneFrame(crc: Checksum, r: Record)
    ensures Frames(crc, [r]) == Frame(crc, r)
  {
    assert [r][1..] == [];
    assert Frames(crc, []) == [];
  }

  /** Disk and buffer hold the records of `flushed` and of `pending`. */
  ghost predicate Written(c: Codec, crc: Checksum, disk: seq<byte>, buffer: seq<byte>, flushed: seq<Call>, pending: seq<Call>) {
    disk == Frames(crc, FileRecords(c, flushed)) && buffer == Frames(crc, AllRecords(c, pending))
  }

  /** Adding one call's records to the buffer. */
  lemma WriteCall(c: Codec, crc: Checksum, disk: seq<byte>, buffer: seq<byte>, flushed: seq<Call>, pending: seq<Call>, call: Call)
    requires Written(c, crc, disk, buffer, flushed, pending)
    ensures Written(c, crc, disk, buffer + Frames(crc, RecordsOf(c, call)), flushed, pending + [call])
  {
    OneCall(c, call);
    AllRecordsConcat(c, pending, [call]);
    FramesConcat(crc, AllRecords(c, pending), RecordsOf(c, call));
  }

  /** Flushing the buffer. */
  lemma NoBytes(c: Codec, crc: Checksum)
    ensures Frames(crc, AllRecords(c, [])) == []
  {
  }

  lemma FlushCalls(c: Codec, crc: Checksum, disk: seq<byte>, buffer: seq<byte>, flushed: seq<Call>, pending: seq<Call>)
    requires Written(c, crc, disk, buffer, flushed, pending)
    ensures Written(c, crc, disk + buffer, [], flushed + pending, [])
  {
    hide AllRecords, Frames, SnapshotRecord;
    AllRecordsConcat(c, flushed, pending);
    FramesConcat(crc, FileRecords(c, flushed), AllRecords(c, pending));
    assert FileRecords(c, flushed + pending) == FileRecords(c, flushed) + AllRecords(c, pending);
    NoBytes(c, crc);
  }

  class WAL {
    const file: WalFile
    const codec: Codec
    const start: Snapshot
    var state: HardState
    var lastIndex: nat
    ghost var flushed: seq<Call>
    ghost var pending: seq<Call>

    /** The file holds exactly the calls made so far, the last of them possibly still in the buffer. */
    ghost predicate Valid()
      reads this, file
    {
      file.Valid() && Written(codec, file.crc, file.disk, file.dataBuffer, flushed, pending)
    }

    constructor (f: WalFile, c: Codec, s: Snapshot)
      ensures file == f && codec == c && start == s && state == NO_STATE && lastIndex == 0
    {
      file, codec, start, state, lastIndex := f, c, s, NO_STATE, 0;
    }

    method SaveEntry(e: Entry)
      requires file.Valid()
      modifies this`lastIndex, file
      ensures file.Valid() && file.disk == old(file.disk)
      ensures file.dataBuffer == old(file.dataBuffer) + Frame(file.crc, EntryRecord(codec, e))
    {
      file.Append(ENTRY_TYPE, codec.packEntry(e));
      lastIndex := e.index;
    }

    method SaveHardState(hs: HardState)
      requires file.Valid()
      modifies this`state, file
      ensures file.Valid() && file.disk == old(file.disk)
      ensures file.dataBuffer == old(file.dataBuffer) + Frames(file.crc, StateRecords(codec, hs))
      ensures state == if hs.IsEmpty() then old(state) else hs
    {
      if hs.IsEmpty() {
        assert Frames(file.crc, []) == [];
        return;
      }
      state := hs;
      OneFrame(file.crc, Record(STATE_TYPE, codec.packState(hs)));
      file.Append(STATE_TYPE, codec.packState(hs));
    }

    /** is_must_sync against the last saved state. */
    predicate MustSync(hs: HardState, n: nat)
      reads this
    {
      n != 0 || hs.vote != state.vote || hs.term != state.term
    }

    /** The records of a batch, one after the other. */
    method WriteEntries(ents: seq<Entry>)
      requires file.Valid()
      modifies this`lastIndex, file
      ensures file.Valid() && file.disk == old(file.disk)
      ensures file.dataBuffer == old(file.dataBuffer) + Frames(file.crc, EntryRecords(codec, ents))
    {
      hide Frame, EntryRecord, Frames, EntryRecords;
      ghost var before := file.dataBuffer;
      var k := 0;
      NoEntries();
      assert ents[..0] == [];
      while k < |ents|
        invariant 0 <= k <= |ents| && file.Valid() && file.disk == old(file.disk)
        invariant file.dataBuffer == before + Frames(file.crc, EntryRecords(codec, ents[..k]))
      {
        OneMoreEntry(ents, k);
        ghost var so := Frames(file.crc, EntryRecords(codec, ents[..k]));
        SaveEntry(ents[k]);
        assert before + so + Frame(file.crc, EntryRecord(codec, ents[k])) == before + (so + Frame(file.crc, EntryRecord(codec, ents[k])));
        k := k + 1;
      }
      assert ents[..|ents|] == ents;
    }

    lemma NoEntries()
      ensures Frames(file.crc, EntryRecords(codec, [])) == []
    {
    }

    lemma OneMoreEntry(ents: seq<Entry>, k: nat)
      requires k < |ents|
      ensures Frames(file.crc, EntryRecords(codec, ents[..k + 1])) ==
              Frames(file.crc, EntryRecords(codec, ents[..k])) + Frame(file.crc, EntryRecord(codec, ents[k]))
    {
      hide Frame, EntryRecord;
      assert ents[..k + 1][..k] == ents[..k];
      OneFrame(file.crc, EntryRecord(codec, ents[k]));
      FramesConcat(file.crc, EntryRecords(codec, ents[..k]), [EntryRecord(codec, ents[k])]);
    }

    /** The records of a save in the order they are written. */
    method WriteSave(hs: HardState, ents: seq<Entry>)
      requires file.Valid()
      modifies this`lastIndex, this`state, file
      ensures file.Valid() && file.disk == old(file.disk)
      ensures file.dataBuffer == old(file.dataBuffer) + Frames(file.crc, RecordsOf(codec, Call.Save(hs, ents)))
      ensures state == if hs.IsEmpty() then old(state) else hs
    {
      hide Frames, EntryRecords, StateRecords;
      WriteEntries(ents);
      SaveHardState(hs);
      FramesConcat(file.crc, EntryRecords(codec, ents), StateRecords(codec, hs));
    }

    /** WAL::save: one more call; it is on disk at once if it holds entries, a new term or a new vote. */
    method Save(hs: HardState, ents: seq<Entry>)
      requires Valid()
      modifies this, file
      ensures Valid() && flushed + pending == old(flushed) + old(pending) + [Call.Save(hs, ents)]
      ensures old(MustSync(hs, |ents|)) && !(hs.IsEmpty() && ents == []) ==> pending == []
    {
      hide Written, RecordsOf;
      ghost var call := Call.Save(hs, ents);
      if hs.IsEmpty() && ents == [] {
        WriteCall(codec, file.crc, file.disk, file.dataBuffer, flushed, pending, call);
        NothingToWrite(hs, ents);
        pending := pending + [call];
        assert file.dataBuffer + [] == file.dataBuffer;
        assert flushed + pending == old(flushed) + old(pending) + [call];
        return;
      }
      var mustSync := MustSync(hs, |ents|);
      WriteCall(codec, file.crc, file.disk, file.dataBuffer, flushed, pending, call);
      WriteSave(hs, ents);
      pending := pending + [call];
      assert flushed + pending == old(flushed) + old(pending) + [call];
      if file.fileSize < SEGMENT_SIZE && !mustSync {
        return;
      }
      Flush();
    }

    lemma NothingToWrite(hs: HardState, ents: seq<Entry>)
      requires hs.IsEmpty() && ents == []
      ensures Frames(file.crc, RecordsOf(codec, Call.Save(hs, ents))) == []
    {
    }

    method Flush()
      requires Valid()
      modifies this, file
      ensures Valid() && pending == [] && flushed == old(flushed) + old(pending)
      ensures state == old(state) && lastIndex == old(lastIndex)
    {
      FlushCalls(codec, file.crc, file.disk, file.dataBuffer, flushed, pending);
      file.Sync();
      flushed, pending := flushed + pending, [];
    }

    method SaveSnapshot(snap: Snapshot)
      requires Valid()
      modifies this, file
      ensures Valid() && pending == [] && flushed == old(flushed) + old(pending) + [Call.SaveSnapshot(snap)]
    {
      hide Written;
      ghost var call := Call.SaveSnapshot(snap);
      WriteCall(codec, file.crc, file.disk, file.dataBuffer, flushed, pending, call);
      OneFrame(file.crc, SnapshotRecord(codec, snap));
      file.Append(SNAPSHOT_TYPE, codec.packSnapshot(snap));
      pending := pending + [call];
      assert flushed + pending == old(flushed) + old(pending) + [call];
      if lastIndex < snap.index {
        lastIndex := snap.index;
      }
      Flush();
    }

    /** One record read back; false where the source aborts. */
    method HandleRecord(kind: byte, data: seq<byte>, st: Rebuilt) returns (st': Rebuilt, ok: bool)
      ensures ok == Handle(codec, start, st, Record(kind, data)).Ok?
      ensures ok ==> st' == Handle(codec, start, st, Record(kind, data)).value
    {
      st', ok := st, true;
      if kind == ENTRY_TYPE {
        var e := codec.unpackEntry(data);
        if e.None? {
          return st, false;
        }
        if e.value.index > start.index {
          st' := st'.(ents := Resize(st'.ents, e.value.index - start.index - 1));
          st' := st'.(ents := st'.ents + [e]);
        }
        st' := st'.(lastIndex := e.value.index);
      } else if kind == STATE_TYPE {
        var h := codec.unpackState(data);
        if h.None? {
          return st, false;
        }
        st' := st'.(state := h.value);
      } else if kind == SNAPSHOT_TYPE {
        var s := codec.unpackSnapshot(data);
        if s.None? {
          return st, false;
        }
        if s.value.index == start.index {
          if s.value.term != start.term {
            return st, false;
          }
        }
        st' := st'.(matched := true);
      } else {
        return st, false;
      }
    }

    /** The record at `offset`, or why there is none: too short a rest, a zero type or a wrong checksum. */
    method ReadRecord(data: seq<byte>, offset: nat) returns (h: Head)
      requires offset < |data|
      ensures h == ParseHead(file.crc, data[offset..])
    {
      hide LenOf, WordOf;
      ghost var b := data[offset..];
      var left := |data| - offset;
      if left < HEADER {
        return Nothing(Torn);
      }
      var kind := data[offset];
      assert b[0] == kind;
      if kind == INVALID_TYPE {
        return Nothing(AtZero);
      }
      var len := LenOf(data[offset + 1..offset + 4]);
      assert b[1..4] == data[offset + 1..offset + 4];
      if left - HEADER < len {
        return Nothing(Torn);
      }
      var payload := data[offset + HEADER..offset + HEADER + len];
      var stored := WordOf(data[offset + 4..offset + 8]);
      assert b[4..8] == data[offset + 4..offset + 8] && b[HEADER..HEADER + len] == payload;
      if stored != 0 && file.crc(payload) != stored {
        return Nothing(Torn);
      }
      return Whole(Record(kind, payload));
    }

    /** Reading has gone through the records `done` up to `offset`. */
    ghost predicate ReadUpTo(data: seq<byte>, offset: nat, done: seq<Record>, st: Rebuilt) {
      && offset <= |data|
      && Replay(codec, start, BEFORE_READING, done) == Ok(st)
      && var p, q := Parse(file.crc, data), Parse(file.crc, data[offset..]);
         p.records == done + q.records && p.used == offset + q.used && p.stop == q.stop
    }

    /** WAL::read_all: goes through the whole records, cuts off what follows them, and fails exactly when
        a record cannot be handled or no snapshot record is among them. */
    method ReadAll() returns (st: Rebuilt, ok: bool)
      requires file.Valid()
      modifies file
      ensures file.Valid()
      ensures var p := Parse(file.crc, old(file.disk));
              var r := Replay(codec, start, BEFORE_READING, p.records);
              && ok == (r.Ok? && r.value.matched)
              && (ok ==> st == r.value)
              && (ok ==> file.disk == if p.stop == Torn then old(file.disk)[..p.used] else old(file.disk))
              && (ok ==> file.dataBuffer == if p.stop == Torn then [] else old(file.dataBuffer))
    {
      hide Handle, ParseHead, Parse, Replay, ReadUpTo;
      var data := file.disk;
      ghost var done: seq<Record> := [];
      var offset := 0;
      st := BEFORE_READING;
      StartReading(data);
      while offset < |data|
        invariant 0 <= offset <= |data| && file.Valid() && file.disk == data && file.dataBuffer == old(file.dataBuffer)
        invariant ReadUpTo(data, offset, done, st)
        decreases |data| - offset
      {
        var h := ReadRecord(data, offset);
        if h.Nothing? {
          if h.stop == Torn {
            file.Truncate(offset);
          }
          break;
        }
        ReadOneMore(data, offset, done, st);
        st, ok := HandleRecord(h.r.kind, h.r.data, st);
        if !ok {
          return;
        }
        done := done + [h.r];
        offset := offset + HEADER + |h.r.data|;
      }
      StopReading(data, offset, done, st);
      ok := st.matched;
    }

    lemma StartReading(data: seq<byte>)
      ensures ReadUpTo(data, 0, [], BEFORE_READING)
    {
      hide ParseHead;
      assert data[0..] == data;
    }

    lemma ReadOneMore(data: seq<byte>, offset: nat, done: seq<Record>, st: Rebuilt)
      requires ReadUpTo(data, offset, done, st) && ParseHead(file.crc, data[offset..]).Whole?
      ensures var r := ParseHead(file.crc, data[offset..]).r;
              var next := Handle(codec, start, st, r);
              if next.Ok? then ReadUpTo(data, offset + HEADER + |r.data|, done + [r], next.value)
              else Replay(codec, start, BEFORE_READING, Parse(file.crc, data).records) == Fatal
    {
      hide ParseHead, Handle;
      var r := ParseHead(file.crc, data[offset..]).r;
      var n := HEADER + |r.data|;
      assert data[offset..][n..] == data[offset + n..];
      var rest := Parse(file.crc, data[offset + n..]).records;
      assert done + ([r] + rest) == done + [r] + rest;
      ReplayNext(st, done, r, rest);
    }

    /** Reading stops where the rest has no whole record, which is also where it may have been cut. */
    lemma StopReading(data: seq<byte>, offset: nat, done: seq<Record>, st: Rebuilt)
      requires ReadUpTo(data, offset, done, st) && (offset < |data| ==> ParseHead(file.crc, data[offset..]).Nothing?)
      ensures Parse(file.crc, data).records == done && Replay(codec, start, BEFORE_READING, done) == Ok(st)
      ensures Parse(file.crc, data).used == offset
      ensures Parse(file.crc, data).stop == if offset < |data| then ParseHead(file.crc, data[offset..]).stop else AtEnd
    {
      assert offset == |data| ==> ParseHead(file.crc, data[offset..]) == Nothing(AtEnd);
      assert done + [] == done;
    }

    lemma ReplayNext(st: Rebuilt, done: seq<Record>, r: Record, rest: seq<Record>)
      requires Replay(codec, start, BEFORE_READING, done) == Ok(st)
      ensures Replay(codec, start, BEFORE_READING, done + [r]) == Handle(codec, start, st, r)
      ensures Handle(codec, start, st, r).Fatal? ==> Replay(codec, start, BEFORE_READING, done + ([r] + rest)) == Fatal
    {
      hide Handle;
      ReplayOne(codec, start, st, r);
      ReplayConcat(codec, start, BEFORE_READING, done, [r]);
      ReplayConcat(codec, start, BEFORE_READING, done + [r], rest);
      assert done + ([r] + rest) == done + [r] + rest;
    }
  }

  // ---------------------------------------------------------------- recovery

  lemma {:induction false} StoredHead(start: Snapshot, d: seq<Entry>, calls: seq<Call>)
    requires StoredOk(d) && CallsOk(start, calls) && Stored(d, calls).Ok?
    ensures StoredOk(Stored(d, calls).value) && Stored(d, calls).value[0] == d[0]
    decreases |calls|
  {
    if calls != [] {
      FirstCall(start, d, NO_STATE, calls);
      var call := calls[0];
      if call.Save? && call.ents != [] {
        AppendStoredMeaning(d, call.ents, call.ents[0].index);
      }
      assert [call][1..] == [];
      StoredHead(start, Stored(d, [call]).value, calls[1..]);
    }
  }

  /** Loading the entries after a dummy element gives back the whole storage. */
  lemma ReloadStored(start: Snapshot, d: seq<Entry>)
    requires StoredOk(d) && d[0] == Dummy(start)[0]
    ensures d[1..] != [] ==> Contiguous(d[1..], start.index + 1)
    ensures AppendStored(Dummy(start), d[1..]) == Ok(d)
  {
    if d[1..] == [] {
      assert d == Dummy(start);
    } else {
      assert d[1..][0] == d[1];
      assert Dummy(start)[..1] + d[1..] == d;
    }
  }

  /** The entries behind a vector of pointers, none of them null. */
  function Pointees(ents: seq<Option<Entry>>): (r: seq<Entry>)
    requires forall k :: 0 <= k < |ents| ==> ents[k].Some?
    ensures |r| == |ents|
  {
    seq(|ents|, k requires 0 <= k < |ents| => ents[k].value)
  }

  lemma PointeesOfSomes(es: seq<Entry>)
    ensures forall k :: 0 <= k < |es| ==> Somes(es)[k].Some?
    ensures Pointees(Somes(es)) == es
  {
  }

  /** WAL::create: a file with the record of the empty snapshot. */
  method Create(crc: Checksum, c: Codec) returns (f: WalFile)
    ensures fresh(f) && f.Valid() && f.crc == crc && f.dataBuffer == [] && f.disk == Frames(crc, FileRecords(c, []))
  {
    f := new WalFile(crc, []);
    OneFrame(crc, SnapshotRecord(c, Snapshot(0, 0)));
    f.Append(SNAPSHOT_TYPE, c.packSnapshot(Snapshot(0, 0)));
    f.Sync();
  }

  /** RaftNode::replay_WAL on a damaged file, cut at any byte after its first record or with a later payload
      changed: the storage is rebuilt as the batches of a cut history left it, the last hard state is found, and
      the file is again a well-formed log of that history, ready for appending. */
  method Recover(f: WalFile, c: Codec, start: Snapshot, storage: MemoryStorage, ghost calls: seq<Call>, ghost m: nat)
    returns (w: WAL, state: HardState, ok: bool, ghost cut: seq<Call>)
    requires f.Valid() && f.dataBuffer == [] && Faithful(c) && Readable(start, calls) && AllFramable(FileRecords(c, calls))
    requires m >= 1 && Damaged(f.crc, f.disk, FileRecords(c, calls), m)
    requires storage.Valid() && storage.entries == Dummy(start)
    modifies f, storage
    ensures ok && w.file == f && w.Valid() && w.flushed == cut && w.pending == []
    ensures Readable(start, cut) && FileRecords(c, cut) == FileRecords(c, calls)[..m]
    ensures |Frames(f.crc, FileRecords(c, cut))| <= |old(f.disk)|
    ensures storage.Valid() && storage.entries == Stored(Dummy(start), cut).value && state == LastState(NO_STATE, cut)
  {
    hide Parse, Replay, Stored, LastState, AllRecords, Frames, Frame, CallsOk, Faithful, AppendStored, Damaged;
    w := new WAL(f, c, start);
    cut := ReplayDamagedFile(c, f.crc, start, calls, f.disk, m);
    ReplayFile(c, start, cut);
    var st;
    st, ok := w.ReadAll();
    state := st.state;
    ghost var d := Stored(Dummy(start), cut).value;
    StoredHead(start, Dummy(start), cut);
    ReloadStored(start, d);
    PointeesOfSomes(d[1..]);
    var loaded := storage.Append(Pointees(st.ents));
    assert loaded;
    w.flushed, w.pending := cut, [];
    NoBytes(c, f.crc);
  }
}
