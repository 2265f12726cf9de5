/** The write-ahead log as bytes (raft-kv/wal/wal.h, wal.cpp): records are framed by a type byte, a
    24-bit length and a checksum. The checksum is an arbitrary function and packing an arbitrary
    faithful code, so nothing here depends on how either is computed. */
module WalSpec {
  import opened Proto
  import opened LogLayers

  type word = n: nat | n < 0x1_0000_0000

  type Checksum = seq<byte> -> word

  const HEADER: nat := 8
  const MAX_RECORD: nat := 0xFF_FFFF

  const INVALID_TYPE: byte := 0
  const ENTRY_TYPE: byte := 1
  const STATE_TYPE: byte := 2
  const SNAPSHOT_TYPE: byte := 4

  datatype Record = Record(kind: byte, data: seq<byte>)

  /** What the format can carry: a real type and a payload within the 24-bit length. */
  predicate Framable(r: Record) {
    r.kind != INVALID_TYPE && |r.data| <= MAX_RECORD
  }

  predicate AllFramable(rs: seq<Record>) {
    forall k :: 0 <= k < |rs| ==> Framable(rs[k])
  }

  // ---------------------------------------------------------------- numbers as bytes

  /** set_WAL_Record_len: the length is cut to 24 bits and stored low byte first. */
  function LenBytes(len: nat): (b: seq<byte>)
    ensures |b| == 3
  {
    var n := if len < MAX_RECORD then len else MAX_RECORD;
    [(n % 256) as byte, (n / 256 % 256) as byte, (n / 65536 % 256) as byte]
  }

  /** WAL_Record_len. */
  function LenOf(b: seq<byte>): nat
    requires |b| == 3
  {
    b[2] as nat * 65536 + b[1] as nat * 256 + b[0] as nat
  }

  lemma LenRoundTrip(len: nat)
    requires len <= MAX_RECORD
    ensures LenOf(LenBytes(len)) == len
  {
    assert len / 65536 == len / 256 / 256;
  }

  /** A 32-bit number as it lies in memory, low byte first. */
  function WordBytes(w: word): (b: seq<byte>)
    ensures |b| == 4
  {
    [(w % 256) as byte, (w / 256 % 256) as byte, (w / 65536 % 256) as byte, (w / 16777216 % 256) as byte]
  }

  function WordOf(b: seq<byte>): word
    requires |b| == 4
  {
    b[3] as nat * 16777216 + b[2] as nat * 65536 + b[1] as nat * 256 + b[0] as nat
  }

  lemma WordRoundTrip(w: word)
    ensures WordOf(WordBytes(w)) == w
  {
    assert w / 65536 == w / 256 / 256 && w / 16777216 == w / 65536 / 256;
  }

  // ---------------------------------------------------------------- framing

  /** WAL_File::append. */
  function Frame(crc: Checksum, r: Record): (b: seq<byte>)
    ensures |b| == HEADER + |r.data|
  {
    [r.kind] + LenBytes(|r.data|) + WordBytes(crc(r.data)) + r.data
  }

  function Frames(crc: Checksum, rs: seq<Record>): seq<byte> {
    if rs == [] then [] else Frame(crc, rs[0]) + Frames(crc, rs[1..])
  }

  lemma {:induction false} FramesConcat(crc: Checksum, a: seq<Record>, b: seq<Record>)
    ensures Frames(crc, a + b) == Frames(crc, a) + Frames(crc, b)
    decreases |a|
  {
    if a == [] {
      assert a + b == b;
    } else {
      assert (a + b)[0] == a[0] && (a + b)[1..] == a[1..] + b;
      FramesConcat(crc, a[1..], b);
    }
  }

  /** How reading stops: at the end, at a zero type byte, or at a record that must be cut off. */
  datatype Stop = AtEnd | AtZero | Torn

  datatype Parsed = Parsed(records: seq<Record>, used: nat, stop: Stop)

  /** One turn of the loop of read_all: the record at the front, or why there is none. */
  datatype Head = Whole(r: Record) | Nothing(stop: Stop)

  function ParseHead(crc: Checksum, b: seq<byte>): (h: Head)
    ensures h.Whole? ==> HEADER + |h.r.data| <= |b|
  {
    if b == [] then Nothing(AtEnd)
    else if |b| < HEADER then Nothing(Torn)
    else if b[0] == INVALID_TYPE then Nothing(AtZero)
    else
      var len := LenOf(b[1..4]);
      if |b| - HEADER < len then Nothing(Torn)
      else
        var data := b[HEADER..HEADER + len];
        var stored := WordOf(b[4..8]);
        if stored != 0 && crc(data) != stored then Nothing(Torn) else Whole(Record(b[0], data))
  }

  /** The records read_all goes through and where it stops. */
  function Parse(crc: Checksum, b: seq<byte>): (p: Parsed)
    ensures p.used <= |b|
    decreases |b|
  {
    match ParseHead(crc, b)
    case Nothing(stop) => Parsed([], 0, stop)
    case Whole(r) =>
      var n := HEADER + |r.data|;
      var rest := Parse(crc, b[n..]);
      Parsed([r] + rest.records, n + rest.used, rest.stop)
  }

  /** A whole frame at the front is read back, whatever follows. */
  lemma HeadRoundTrip(crc: Checksum, r: Record, tail: seq<byte>)
    requires Framable(r)
    ensures ParseHead(crc, Frame(crc, r) + tail) == Whole(r)
  {
    var b := Frame(crc, r) + tail;
    LenRoundTrip(|r.data|);
    WordRoundTrip(crc(r.data));
    assert b[1..4] == LenBytes(|r.data|);
    assert b[4..8] == WordBytes(crc(r.data));
    assert b[HEADER..HEADER + |r.data|] == r.data;
    hide LenBytes, WordBytes, LenOf, WordOf;
  }

  /** The format carries exactly the framable records: a zero type stops the reader, and a payload over
      24 bits comes back shorter. */
  lemma ReadBackExactlyFramable(crc: Checksum, r: Record, tail: seq<byte>)
    ensures ParseHead(crc, Frame(crc, r) + tail) == Whole(r) <==> Framable(r)
  {
    var b := Frame(crc, r) + tail;
    if Framable(r) {
      HeadRoundTrip(crc, r, tail);
    } else if r.kind != INVALID_TYPE {
      assert b[1..4] == LenBytes(|r.data|) == LenBytes(MAX_RECORD);
      LenRoundTrip(MAX_RECORD);
    }
  }

  /** A frame that is cut short is not read, and is cut off. */
  lemma CutHead(crc: Checksum, r: Record, k: nat)
    requires Framable(r) && 0 < k < HEADER + |r.data|
    ensures ParseHead(crc, Frame(crc, r)[..k]) == Nothing(Torn)
  {
    hide LenBytes, WordBytes, LenOf, WordOf;
    if k >= HEADER {
      LenRoundTrip(|r.data|);
      var b := Frame(crc, r);
      assert b[1..4] == LenBytes(|r.data|);
      assert b[..k][1..4] == b[1..4] && b[..k][0] == r.kind;
    }
  }

  lemma ParseStep(crc: Checksum, r: Record, rest: seq<byte>)
    requires Framable(r)
    ensures var q := Parse(crc, rest);
            Parse(crc, Frame(crc, r) + rest) == Parsed([r] + q.records, HEADER + |r.data| + q.used, q.stop)
  {
    hide ParseHead, Frame;
    HeadRoundTrip(crc, r, rest);
    assert (Frame(crc, r) + rest)[HEADER + |r.data|..] == rest;
  }

  /** How many whole records the first `k` bytes hold. */
  function WholeRecords(crc: Checksum, rs: seq<Record>, k: nat): (m: nat)
    ensures m <= |rs|
  {
    if rs == [] || k < HEADER + |rs[0].data| then 0
    else 1 + WholeRecords(crc, rs[1..], k - (HEADER + |rs[0].data|))
  }

  /** It is the greatest such number. */
  lemma {:induction false} WholeRecordsMeaning(crc: Checksum, rs: seq<Record>, k: nat)
    ensures var m := WholeRecords(crc, rs, k);
            && |Frames(crc, rs[..m])| <= k
            && (m < |rs| ==> |Frames(crc, rs[..m + 1])| > k)
    decreases |rs|
  {
    if rs != [] && k >= HEADER + |rs[0].data| {
      WholeRecordsMeaning(crc, rs[1..], k - (HEADER + |rs[0].data|));
      var m := WholeRecords(crc, rs[1..], k - (HEADER + |rs[0].data|));
      assert rs[..m + 1][0] == rs[0] && rs[..m + 1][1..] == rs[1..][..m];
      if m + 1 < |rs| {
        assert rs[..m + 2][0] == rs[0] && rs[..m + 2][1..] == rs[1..][..m + 1];
      }
    } else if rs != [] {
      assert rs[..1][0] == rs[0] && rs[..1][1..] == [];
      assert Frames(crc, []) == [];
    }
  }

  /** A file cut at any byte: exactly the whole records are read, and the file must be cut back exactly
      when something is left over. */
  lemma {:induction false} ParseCut(crc: Checksum, rs: seq<Record>, k: nat)
    requires AllFramable(rs) && k <= |Frames(crc, rs)|
    ensures var m := WholeRecords(crc, rs, k);
            var good := |Frames(crc, rs[..m])|;
            Parse(crc, Frames(crc, rs)[..k]) == Parsed(rs[..m], good, if good == k then AtEnd else Torn)
    decreases |rs|
  {
    hide Frame, Parse;
    if rs != [] && k >= HEADER + |rs[0].data| {
      var n := HEADER + |rs[0].data|;
      var rest := Frames(crc, rs[1..])[..k - n];
      assert Frames(crc, rs)[..k] == Frame(crc, rs[0]) + rest;
      ParseStep(crc, rs[0], rest);
      ParseCut(crc, rs[1..], k - n);
      FramesPrefix(crc, rs, WholeRecords(crc, rs[1..], k - n));
    } else {
      assert rs[..0] == [];
      CutAtFirst(crc, rs, k);
    }
  }

  lemma CutAtFirst(crc: Checksum, rs: seq<Record>, k: nat)
    requires AllFramable(rs) && k <= |Frames(crc, rs)|
    requires rs == [] || k < HEADER + |rs[0].data|
    ensures Parse(crc, Frames(crc, rs)[..k]) == Parsed([], 0, if k == 0 then AtEnd else Torn)
  {
    if k > 0 {
      assert Frames(crc, rs)[..k] == Frame(crc, rs[0])[..k];
      CutHead(crc, rs[0], k);
    }
  }

  lemma FramesPrefix(crc: Checksum, rs: seq<Record>, m: nat)
    requires m < |rs|
    ensures rs[..m + 1] == [rs[0]] + rs[1..][..m]
    ensures Frames(crc, rs[..m + 1]) == Frame(crc, rs[0]) + Frames(crc, rs[1..][..m])
  {
    assert rs[..m + 1][0] == rs[0] && rs[..m + 1][1..] == rs[1..][..m];
  }

  /** Framing and reading back is the identity. */
  lemma ParseRoundTrip(crc: Checksum, rs: seq<Record>)
    requires AllFramable(rs)
    ensures Parse(crc, Frames(crc, rs)) == Parsed(rs, |Frames(crc, rs)|, AtEnd)
  {
    var k := |Frames(crc, rs)|;
    WholeRecordsMeaning(crc, rs, k);
    ParseCut(crc, rs, k);
    hide *;
    assert Frames(crc, rs)[..k] == Frames(crc, rs);
    var m := WholeRecords(crc, rs, k);
    if m < |rs| {
      FramesGrow(crc, rs, m);
      assert false;
    }
    assert rs[..m] == rs;
  }

  lemma FramesGrow(crc: Checksum, rs: seq<Record>, m: nat)
    requires m < |rs|
    ensures |Frames(crc, rs[..m + 1])| <= |Frames(crc, rs)|
  {
    assert rs == rs[..m + 1] + rs[m + 1..];
    FramesConcat(crc, rs[..m + 1], rs[m + 1..]);
  }

  // ---------------------------------------------------------------- any bytes

  /** A record lies at the front of `b`: a type, a length within the bytes there are, the payload, and a stored
      checksum that is 0 or the payload's. */
  ghost predicate LiesAt(crc: Checksum, b: seq<byte>, r: Record) {
    && HEADER + |r.data| <= |b|
    && b[0] == r.kind != INVALID_TYPE && LenOf(b[1..4]) == |r.data| && b[HEADER..HEADER + |r.data|] == r.data
    && WordOf(b[4..8]) in {0, crc(r.data)}
  }

  /** Nothing can be read at the front of `b`, and why: it is empty, its type is zero, or it is shorter than a header,
      than the length it gives, or has a checksum other than its payload's. */
  ghost predicate StopsAt(crc: Checksum, b: seq<byte>, stop: Stop) {
    match stop
    case AtEnd => b == []
    case AtZero => |b| >= HEADER && b[0] == INVALID_TYPE
    case Torn =>
      || 0 < |b| < HEADER
      || (|b| >= HEADER && b[0] != INVALID_TYPE
          && (|b| < HEADER + LenOf(b[1..4]) || WordOf(b[4..8]) !in {0, crc(b[HEADER..HEADER + LenOf(b[1..4])])}))
  }

  /** The records lie one after the other from the front of `b`. */
  ghost predicate LieFrom(crc: Checksum, b: seq<byte>, rs: seq<Record>)
    decreases |rs|
  {
    rs == [] || (LiesAt(crc, b, rs[0]) && LieFrom(crc, b[HEADER + |rs[0].data|..], rs[1..]))
  }

  /** The bytes the records take up. */
  function Extent(rs: seq<Record>): nat {
    if rs == [] then 0 else HEADER + |rs[0].data| + Extent(rs[1..])
  }

  /** What is read from any bytes whatever: records that lie there one after the other, each with a checksum of 0 or
      its payload's, up to a place where nothing can be read, for the reason given. */
  lemma {:induction false} ParseMeaning(crc: Checksum, b: seq<byte>)
    ensures var p := Parse(crc, b);
            && LieFrom(crc, b, p.records) && p.used == Extent(p.records) <= |b| && StopsAt(crc, b[p.used..], p.stop)
    decreases |b|
  {
    hide LenOf, WordOf;
    var h := ParseHead(crc, b);
    if h.Whole? {
      var n := HEADER + |h.r.data|;
      ParseMeaning(crc, b[n..]);
      var q := Parse(crc, b[n..]);
      assert b[n..][q.used..] == b[n + q.used..];
      assert ([h.r] + q.records)[1..] == q.records;
    } else {
      assert b[0..] == b;
    }
  }

  /** And nothing else answers to that description. */
  lemma {:induction false} ParseIsOnly(crc: Checksum, b: seq<byte>, rs: seq<Record>, stop: Stop)
    requires LieFrom(crc, b, rs) && Extent(rs) <= |b| && StopsAt(crc, b[Extent(rs)..], stop)
    ensures Parse(crc, b) == Parsed(rs, Extent(rs), stop)
    decreases |rs|
  {
    hide LenOf, WordOf;
    if rs == [] {
      assert b[0..] == b;
    } else {
      var n := HEADER + |rs[0].data|;
      assert b[n..][Extent(rs[1..])..] == b[Extent(rs)..];
      ParseIsOnly(crc, b[n..], rs[1..], stop);
      assert [rs[0]] + rs[1..] == rs;
    }
  }

  /** A frame on disk whose payload is no longer the one it was written with. */
  function Overwritten(crc: Checksum, r: Record, data: seq<byte>): (b: seq<byte>)
    requires |data| == |r.data|
  {
    [r.kind] + LenBytes(|r.data|) + WordBytes(crc(r.data)) + data
  }

  /** The checksum gives the change away; one stored as 0 is never compared. */
  predicate Exposed(crc: Checksum, r: Record, data: seq<byte>) {
    |data| == |r.data| && crc(r.data) != 0 && crc(data) != crc(r.data)
  }

  lemma OverwrittenHead(crc: Checksum, r: Record, data: seq<byte>, tail: seq<byte>)
    requires Framable(r) && Exposed(crc, r, data)
    ensures ParseHead(crc, Overwritten(crc, r, data) + tail) == Nothing(Torn)
  {
    var b := Overwritten(crc, r, data) + tail;
    LenRoundTrip(|r.data|);
    WordRoundTrip(crc(r.data));
    assert b[1..4] == LenBytes(|r.data|);
    assert b[4..8] == WordBytes(crc(r.data));
    assert b[HEADER..HEADER + |data|] == data;
    hide LenBytes, WordBytes, LenOf, WordOf;
  }

  /** Whole frames, then a frame with a changed payload, then anything: exactly the frames before the change are
      read, and the rest must be cut off. */
  lemma {:induction false} ParseOverwritten(crc: Checksum, rs: seq<Record>, r: Record, data: seq<byte>, tail: seq<byte>)
    requires AllFramable(rs) && Framable(r) && Exposed(crc, r, data)
    ensures Parse(crc, Frames(crc, rs) + (Overwritten(crc, r, data) + tail)) == Parsed(rs, |Frames(crc, rs)|, Torn)
    decreases |rs|
  {
    hide Frame, ParseHead, Overwritten;
    var bad := Overwritten(crc, r, data) + tail;
    if rs == [] {
      OverwrittenHead(crc, r, data, tail);
      assert [] + bad == bad;
    } else {
      ParseOverwritten(crc, rs[1..], r, data, tail);
      ParseStep(crc, rs[0], Frames(crc, rs[1..]) + bad);
      assert Frames(crc, rs) + bad == Frame(crc, rs[0]) + (Frames(crc, rs[1..]) + bad);
      assert [rs[0]] + rs[1..] == rs;
    }
  }

  // ---------------------------------------------------------------- records and what they rebuild

  datatype HardState = HardState(term: nat, vote: nat, commit: nat) {
    predicate IsEmpty() {
      term == 0 && vote == 0 && commit == 0
    }
  }

  const NO_STATE := HardState(0, 0, 0)

  /** How the three kinds of payload are packed. */
  datatype Codec = Codec(
    packEntry: Entry -> seq<byte>, unpackEntry: seq<byte> -> Option<Entry>,
    packState: HardState -> seq<byte>, unpackState: seq<byte> -> Option<HardState>,
    packSnapshot: Snapshot -> seq<byte>, unpackSnapshot: seq<byte> -> Option<Snapshot>)

  ghost predicate Faithful(c: Codec) {
    && (forall e :: c.unpackEntry(c.packEntry(e)) == Some(e))
    && (forall h :: c.unpackState(c.packState(h)) == Some(h))
    && (forall s :: c.unpackSnapshot(c.packSnapshot(s)) == Some(s))
  }

  /** What reading has rebuilt so far. A slot without an entry is a null pointer of the source. */
  datatype Rebuilt = Rebuilt(ents: seq<Option<Entry>>, state: HardState, matched: bool, lastIndex: nat)

  /** vector::resize. */
  function Resize(s: seq<Option<Entry>>, n: nat): seq<Option<Entry>> {
    if n <= |s| then s[..n] else s + seq(n - |s|, _ => None)
  }

  /** handle_record_wal_record and the line after it: any snapshot record counts as a match. */
  function Handle(c: Codec, start: Snapshot, st: Rebuilt, r: Record): (res: Result<Rebuilt>) {
    if r.kind == ENTRY_TYPE then
      match c.unpackEntry(r.data)
      case None => Fatal
      case Some(e) =>
        Ok(if e.index > start.index
           then st.(ents := Resize(st.ents, e.index - start.index - 1) + [Some(e)], lastIndex := e.index)
           else st.(lastIndex := e.index))
    else if r.kind == STATE_TYPE then
      match c.unpackState(r.data)
      case None => Fatal
      case Some(h) => Ok(st.(state := h))
    else if r.kind == SNAPSHOT_TYPE then
      match c.unpackSnapshot(r.data)
      case None => Fatal
      case Some(s) => if s.index == start.index && s.term != start.term then Fatal else Ok(st.(matched := true))
    else Fatal
  }

  /** All records in order. */
  function Replay(c: Codec, start: Snapshot, st: Rebuilt, rs: seq<Record>): (res: Result<Rebuilt>)
    decreases |rs|
  {
    if rs == [] then Ok(st)
    else
      var st1 :- Handle(c, start, st, rs[0]);
      Replay(c, start, st1, rs[1..])
  }

  lemma {:induction false} ReplayConcat(c: Codec, start: Snapshot, st: Rebuilt, a: seq<Record>, b: seq<Record>)
    ensures Replay(c, start, st, a + b) ==
            var r := Replay(c, start, st, a);
            if r.Fatal? then Fatal else Replay(c, start, r.value, b)
    decreases |a|
  {
    hide Handle;
    if a == [] {
      assert a + b == b;
    } else {
      assert (a + b)[0] == a[0] && (a + b)[1..] == a[1..] + b;
      var r := Handle(c, start, st, a[0]);
      if r.Ok? {
        ReplayConcat(c, start, r.value, a[1..], b);
      }
    }
  }

  // ---------------------------------------------------------------- saves

  /** One call of WAL::save, or of WAL::save_snapshot. */
  datatype Call = Save(state: HardState, ents: seq<Entry>) | SaveSnapshot(snap: Snapshot)

  function EntryRecord(c: Codec, e: Entry): Record {
    Record(ENTRY_TYPE, c.packEntry(e))
  }

  function EntryRecords(c: Codec, es: seq<Entry>): seq<Record> {
    if es == [] then [] else EntryRecords(c, es[..|es| - 1]) + [EntryRecord(c, es[|es| - 1])]
  }

  function StateRecords(c: Codec, h: HardState): seq<Record> {
    if h.IsEmpty() then [] else [Record(STATE_TYPE, c.packState(h))]
  }

  function SnapshotRecord(c: Codec, s: Snapshot): Record {
    Record(SNAPSHOT_TYPE, c.packSnapshot(s))
  }

  function RecordsOf(c: Codec, call: Call): seq<Record> {
    match call
    case Save(h, es) => EntryRecords(c, es) + StateRecords(c, h)
    case SaveSnapshot(s) => [SnapshotRecord(c, s)]
  }

  function AllRecords(c: Codec, calls: seq<Call>): seq<Record> {
    if calls == [] then [] else RecordsOf(c, calls[0]) + AllRecords(c, calls[1..])
  }

  /** The batches as MemoryStorage keeps them. */
  function Stored(d: seq<Entry>, calls: seq<Call>): (r: Result<seq<Entry>>)
    requires |d| >= 1
    ensures r.Ok? ==> |r.value| >= 1
    decreases |calls|
  {
    if calls == [] then Ok(d)
    else if calls[0].SaveSnapshot? then Stored(d, calls[1..])
    else
      var d1 :- AppendStored(d, calls[0].ents);
      Stored(d1, calls[1..])
  }

  /** The last hard state that was not empty. */
  function LastState(h: HardState, calls: seq<Call>): HardState
    decreases |calls|
  {
    if calls == [] then h
    else LastState(if calls[0].Save? && !calls[0].state.IsEmpty() then calls[0].state else h, calls[1..])
  }

  /** Every batch is numbered consecutively, and no recorded snapshot contradicts the starting one. */
  ghost predicate CallsOk(start: Snapshot, calls: seq<Call>) {
    forall k :: 0 <= k < |calls| ==>
      match calls[k]
      case Save(_, es) => es == [] || Contiguous(es, es[0].index)
      case SaveSnapshot(s) => s.index == start.index ==> s.term == start.term
  }

  function Somes(es: seq<Entry>): (r: seq<Option<Entry>>)
    ensures |r| == |es|
  {
    seq(|es|, k requires 0 <= k < |es| => Some(es[k]))
  }

  /** Reading state `st` holds exactly what storage `d` holds. */
  ghost predicate Mirrors(st: Rebuilt, d: seq<Entry>, start: Snapshot) {
    StoredOk(d) && d[0].index == start.index && st.ents == Somes(d[1..])
  }

  /** Storing one entry more of a batch is what reading one entry record does. */
  lemma StoreOneMore(d: seq<Entry>, es: seq<Entry>, first: nat)
    requires StoredOk(d) && Contiguous(es, first) && es != [] && first <= StoredLast(d) + 1
    ensures var before := AppendStored(d, es[..|es| - 1]);
            var e := es[|es| - 1];
            && before.Ok?
            && StoredOk(before.value) && before.value[0] == d[0]
            && AppendStored(d, es) ==
               Ok(if e.index > d[0].index then before.value[..e.index - d[0].index] + [e] else before.value)
            && (e.index > d[0].index ==> e.index - d[0].index <= |before.value|)
  {
    var n := Skipped(d, first);
    var init := es[..|es| - 1];
    AppendStoredShape(d, es, first);
    AppendStoredShape(d, init, first);
    AppendStoredMeaning(d, init, first);
    hide AppendStored, AfterAppend, StoredAt;
    var before := AppendStored(d, init).value;
    var e := es[|es| - 1];
    if n < |init| {
      assert es[n..] == init[n..] + [e];
      assert before[..e.index - d[0].index] == before;
      assert before + [e] == d[..first + n - d[0].index] + es[n..];
    } else if n == |init| {
      assert es[n..] == [e];
    }
  }

  lemma HandleEntry(c: Codec, start: Snapshot, st: Rebuilt, d: seq<Entry>, e: Entry)
    requires Faithful(c) && Mirrors(st, d, start)
    requires e.index > start.index ==> e.index - start.index <= |d|
    ensures var r := Handle(c, start, st, EntryRecord(c, e));
            && r.Ok? && r.value.state == st.state && r.value.matched == st.matched
            && r.value.ents == if e.index > start.index then Somes(d[1..e.index - start.index]) + [Some(e)] else st.ents
  {
    assert c.unpackEntry(c.packEntry(e)) == Some(e);
    if e.index > start.index {
      var n := e.index - start.index;
      assert Somes(d[1..])[..n - 1] == Somes(d[1..n]);
    }
  }

  lemma ReplayOneMore(c: Codec, start: Snapshot, st: Rebuilt, es: seq<Entry>)
    requires es != []
    ensures var r := Replay(c, start, st, EntryRecords(c, es[..|es| - 1]));
            Replay(c, start, st, EntryRecords(c, es)) ==
            if r.Fatal? then Fatal else Handle(c, start, r.value, EntryRecord(c, es[|es| - 1]))
  {
    hide Handle, EntryRecord;
    var last := [EntryRecord(c, es[|es| - 1])];
    ReplayConcat(c, start, st, EntryRecords(c, es[..|es| - 1]), last);
    assert last[1..] == [];
    var r := Replay(c, start, st, EntryRecords(c, es[..|es| - 1]));
    if r.Ok? {
      ReplayOne(c, start, r.value, EntryRecord(c, es[|es| - 1]));
    }
  }

  lemma ReplayOne(c: Codec, start: Snapshot, st: Rebuilt, r: Record)
    ensures Replay(c, start, st, [r]) == Handle(c, start, st, r)
  {
    hide Handle;
    assert [r][1..] == [];
    var h := Handle(c, start, st, r);
    if h.Ok? {
      assert Replay(c, start, h.value, []) == Ok(h.value);
    }
  }

  lemma MirrorsOneMore(st: Rebuilt, st': Rebuilt, d: seq<Entry>, start: Snapshot, e: Entry)
    requires Mirrors(st, d, start)
    requires e.index > start.index ==> e.index - start.index <= |d|
    requires st'.ents == if e.index > start.index then Somes(d[1..e.index - start.index]) + [Some(e)] else st.ents
    ensures Mirrors(st', if e.index > start.index then d[..e.index - start.index] + [e] else d, start)
  {
    if e.index > start.index {
      var n := e.index - start.index;
      assert (d[..n] + [e])[1..] == d[1..n] + [e];
    }
  }

  lemma ReplayNothing(c: Codec, start: Snapshot, st: Rebuilt, d: seq<Entry>)
    requires |d| >= 1
    ensures Replay(c, start, st, EntryRecords(c, [])) == Ok(st) && AppendStored(d, []) == Ok(d)
  {
  }

  /** A batch that storage accepts leaves no gap. */
  lemma NoGap(d: seq<Entry>, es: seq<Entry>, first: nat)
    requires StoredOk(d) && Contiguous(es, first) && AppendStored(d, es).Ok?
    ensures es != [] ==> first <= StoredLast(d) + 1
  {
    AppendStoredMeaning(d, es, first);
  }

  /** Reading the entry records of a batch is appending the batch. */
  lemma {:induction false} ReplayBatch(c: Codec, start: Snapshot, st: Rebuilt, d: seq<Entry>, es: seq<Entry>, first: nat)
    requires Faithful(c) && Mirrors(st, d, start) && Contiguous(es, first)
    requires es != [] ==> first <= StoredLast(d) + 1
    ensures var r := Replay(c, start, st, EntryRecords(c, es));
            && r.Ok? && r.value.state == st.state && r.value.matched == st.matched
            && AppendStored(d, es).Ok? && Mirrors(r.value, AppendStored(d, es).value, start)
    decreases |es|
  {
    hide Handle, EntryRecord, Faithful, AppendStored, EntryRecords, Replay;
    if es == [] {
      ReplayNothing(c, start, st, d);
    } else {
      var init, e := es[..|es| - 1], es[|es| - 1];
      StoreOneMore(d, es, first);
      ReplayBatch(c, start, st, d, init, first);
      ReplayOneMore(c, start, st, es);
      var st1, d1 := Replay(c, start, st, EntryRecords(c, init)).value, AppendStored(d, init).value;
      HandleEntry(c, start, st1, d1, e);
      MirrorsOneMore(st1, Handle(c, start, st1, EntryRecord(c, e)).value, d1, start, e);
    }
  }

  /** What one call adds, in storage and when read back. */
  lemma ReplayCall(c: Codec, start: Snapshot, st: Rebuilt, d: seq<Entry>, call: Call)
    requires Faithful(c) && Mirrors(st, d, start) && CallsOk(start, [call]) && Stored(d, [call]).Ok?
    ensures var r := Replay(c, start, st, RecordsOf(c, call));
            && r.Ok? && Mirrors(r.value, Stored(d, [call]).value, start)
            && r.value.state == LastState(st.state, [call]) && (st.matched ==> r.value.matched)
  {
    assert [call][0] == call && [call][1..] == [];
    match call
    case Save(h, es) =>
      if es != [] {
        NoGap(d, es, es[0].index);
      }
      ReplayBatch(c, start, st, d, es, if es == [] then 1 else es[0].index);
      var st1 := Replay(c, start, st, EntryRecords(c, es)).value;
      ReplayConcat(c, start, st, EntryRecords(c, es), StateRecords(c, h));
      if !h.IsEmpty() {
        ReplayOne(c, start, st1, Record(STATE_TYPE, c.packState(h)));
        assert c.unpackState(c.packState(h)) == Some(h);
      }
    case SaveSnapshot(s) =>
      ReplayOne(c, start, st, SnapshotRecord(c, s));
      assert c.unpackSnapshot(c.packSnapshot(s)) == Some(s);
  }

  lemma FirstCall(start: Snapshot, d: seq<Entry>, h: HardState, calls: seq<Call>)
    requires |d| >= 1 && calls != [] && CallsOk(start, calls) && Stored(d, calls).Ok?
    ensures CallsOk(start, [calls[0]]) && CallsOk(start, calls[1..])
    ensures Stored(d, [calls[0]]).Ok?
    ensures Stored(d, calls) == Stored(Stored(d, [calls[0]]).value, calls[1..])
    ensures LastState(h, calls) == LastState(LastState(h, [calls[0]]), calls[1..])
  {
    var first := [calls[0]];
    assert first[1..] == [];
    if calls[0].Save? {
      var d1 := AppendStored(d, calls[0].ents).value;
      assert Stored(d1, []) == Ok(d1);
    }
  }

  /** Reading back the records of any calls rebuilds what storage holds after the same batches, and the
      last hard state that was not empty. */
  lemma {:induction false} ReplayCalls(c: Codec, start: Snapshot, st: Rebuilt, d: seq<Entry>, calls: seq<Call>)
    requires Faithful(c) && Mirrors(st, d, start) && CallsOk(start, calls) && Stored(d, calls).Ok?
    ensures var r := Replay(c, start, st, AllRecords(c, calls));
            && r.Ok? && Mirrors(r.value, Stored(d, calls).value, start)
            && r.value.state == LastState(st.state, calls) && (st.matched ==> r.value.matched)
    decreases |calls|
  {
    if calls != [] {
      hide Faithful, Mirrors, CallsOk, Stored, RecordsOf, LastState, Handle;
      StoredNonEmpty(st, d, start);
      FirstCall(start, d, st.state, calls);
      ReplayCall(c, start, st, d, calls[0]);
      var st1 := Replay(c, start, st, RecordsOf(c, calls[0])).value;
      ReplayCalls(c, start, st1, Stored(d, [calls[0]]).value, calls[1..]);
      ReplayConcat(c, start, st, RecordsOf(c, calls[0]), AllRecords(c, calls[1..]));
    }
  }

  lemma StoredNonEmpty(st: Rebuilt, d: seq<Entry>, start: Snapshot)
    requires Mirrors(st, d, start)
    ensures |d| >= 1
  {
  }

  // ---------------------------------------------------------------- a whole file

  const BEFORE_READING := Rebuilt([], NO_STATE, false, 0)

  /** The storage a node starts from: the snapshot's dummy element. */
  function Dummy(start: Snapshot): seq<Entry> {
    [Entry(Normal, start.term, start.index, [])]
  }

  /** The records of a file: the snapshot record WAL::create writes, then those of the calls. */
  function FileRecords(c: Codec, calls: seq<Call>): seq<Record> {
    [SnapshotRecord(c, Snapshot(0, 0))] + AllRecords(c, calls)
  }

  /** Histories that can be read back from snapshot `start`: consecutive batches without a gap after it,
      and no snapshot record that contradicts it. */
  ghost predicate Readable(start: Snapshot, calls: seq<Call>) {
    && (start.index == 0 ==> start.term == 0)
    && CallsOk(start, calls) && Stored(Dummy(start), calls).Ok?
  }

  /** Replaying a file gives the entries storage holds after the same batches and the last hard state
      that was not empty; a snapshot record is found. */
  lemma ReplayFile(c: Codec, start: Snapshot, calls: seq<Call>)
    requires Faithful(c) && Readable(start, calls)
    ensures var r := Replay(c, start, BEFORE_READING, FileRecords(c, calls));
            && r.Ok? && r.value.matched
            && r.value.ents == Somes(Stored(Dummy(start), calls).value[1..])
            && r.value.state == LastState(NO_STATE, calls)
  {
    var st := BEFORE_READING;
    var first := SnapshotRecord(c, Snapshot(0, 0));
    assert c.unpackSnapshot(c.packSnapshot(Snapshot(0, 0))) == Some(Snapshot(0, 0));
    assert Handle(c, start, st, first) == Ok(st.(matched := true));
    ReplayOne(c, start, st, first);
    ReplayConcat(c, start, st, [first], AllRecords(c, calls));
    assert Dummy(start)[1..] == [];
    assert Mirrors(st.(matched := true), Dummy(start), start);
    hide Handle, Replay, Stored, AllRecords, LastState;
    ReplayCalls(c, start, st.(matched := true), Dummy(start), calls);
  }

  /** The history whose records are the first `m` of those of `calls`: whole calls, then the start of one. */
  function CutCalls(c: Codec, calls: seq<Call>, m: nat): seq<Call>
    decreases |calls|
  {
    if calls == [] then []
    else
      var n := |RecordsOf(c, calls[0])|;
      if m >= n then [calls[0]] + CutCalls(c, calls[1..], m - n)
      else if calls[0].Save? && m <= |calls[0].ents| then [Save(NO_STATE, calls[0].ents[..m])]
      else []
  }

  lemma {:induction false} EntryRecordsPrefix(c: Codec, es: seq<Entry>, m: nat)
    requires m <= |es|
    ensures |EntryRecords(c, es)| == |es| && EntryRecords(c, es)[..m] == EntryRecords(c, es[..m])
    decreases |es|
  {
    if es != [] {
      var init := es[..|es| - 1];
      if m == |es| {
        EntryRecordsPrefix(c, init, m - 1);
        assert es[..m] == es;
      } else {
        EntryRecordsPrefix(c, init, m);
        assert init[..m] == es[..m];
      }
    }
  }

  /** A prefix of the records is the record of a cut history. */
  lemma {:induction false} CutRecords(c: Codec, calls: seq<Call>, m: nat)
    requires m <= |AllRecords(c, calls)|
    ensures AllRecords(c, CutCalls(c, calls, m)) == AllRecords(c, calls)[..m]
    decreases |calls|
  {
    if calls != [] {
      var n := |RecordsOf(c, calls[0])|;
      var cut := CutCalls(c, calls, m);
      if m >= n {
        CutRecords(c, calls[1..], m - n);
        assert cut[1..] == CutCalls(c, calls[1..], m - n);
      } else {
        CutOneCall(c, calls[0], m);
        assert cut == [] || cut[1..] == [];
        assert AllRecords(c, []) == [];
      }
    }
  }

  lemma CutOneCall(c: Codec, call: Call, m: nat)
    requires m < |RecordsOf(c, call)|
    ensures if call.Save? then m <= |call.ents| && RecordsOf(c, Save(NO_STATE, call.ents[..m])) == RecordsOf(c, call)[..m]
            else m == 0
  {
    if call.Save? {
      EntryRecordsPrefix(c, call.ents, |call.ents|);
      if m <= |call.ents| {
        EntryRecordsPrefix(c, call.ents, m);
      }
    }
  }

  lemma ShorterBatch(d: seq<Entry>, es: seq<Entry>, first: nat, m: nat)
    requires StoredOk(d) && Contiguous(es, first) && AppendStored(d, es).Ok? && m <= |es|
    ensures AppendStored(d, es[..m]).Ok?
  {
    AppendStoredMeaning(d, es, first);
    AppendStoredMeaning(d, es[..m], first);
  }

  /** A cut history is as good as the whole one. */
  lemma {:induction false} CutReadable(c: Codec, start: Snapshot, d: seq<Entry>, calls: seq<Call>, m: nat)
    requires StoredOk(d) && CallsOk(start, calls) && Stored(d, calls).Ok?
    ensures CallsOk(start, CutCalls(c, calls, m)) && Stored(d, CutCalls(c, calls, m)).Ok?
    decreases |calls|
  {
    if calls != [] {
      var n := |RecordsOf(c, calls[0])|;
      var call := calls[0];
      FirstCall(start, d, NO_STATE, calls);
      var cut := CutCalls(c, calls, m);
      if m >= n {
        var d1 := Stored(d, [call]).value;
        assert [call][1..] == [];
        if call.Save? && call.ents != [] {
          AppendStoredMeaning(d, call.ents, call.ents[0].index);
        }
        CutReadable(c, start, d1, calls[1..], m - n);
        assert cut[0] == call && cut[1..] == CutCalls(c, calls[1..], m - n);
      } else if call.Save? && m <= |call.ents| {
        if call.ents != [] {
          ShorterBatch(d, call.ents, call.ents[0].index, m);
        }
        assert cut[1..] == [];
      }
    }
  }

  /** A file of the records `rs` of which the first `m` are whole: it was cut within or right after the last of
      them, or the payload of the next one was changed and its checksum tells; whatever follows is lost. */
  ghost predicate Damaged(crc: Checksum, b: seq<byte>, rs: seq<Record>, m: nat) {
    && m <= |rs|
    && (|| (exists k: nat :: k <= |Frames(crc, rs)| && b == Frames(crc, rs)[..k] && m == WholeRecords(crc, rs, k))
        || exists data: seq<byte>, tail: seq<byte> :: ChangedAt(crc, b, rs, m, data, tail))
  }

  ghost predicate ChangedAt(crc: Checksum, b: seq<byte>, rs: seq<Record>, m: nat, data: seq<byte>, tail: seq<byte>) {
    m < |rs| && Exposed(crc, rs[m], data) && b == Frames(crc, rs[..m]) + (Overwritten(crc, rs[m], data) + tail)
  }

  /** The whole records of a damaged file are read, and the rest is cut off. */
  lemma DamagedIsRead(crc: Checksum, b: seq<byte>, rs: seq<Record>, m: nat)
    requires AllFramable(rs) && Damaged(crc, b, rs, m)
    ensures var p := Parse(crc, b);
            && p.records == rs[..m] && p.used == |Frames(crc, rs[..m])| <= |b| && b[..p.used] == Frames(crc, rs[..m])
            && p.stop == if p.used == |b| then AtEnd else Torn
  {
    hide Parse, Frames, ChangedAt, AllFramable;
    if k: nat :| k <= |Frames(crc, rs)| && b == Frames(crc, rs)[..k] && m == WholeRecords(crc, rs, k) {
      CutIsRead(crc, rs, k);
    } else {
      var data: seq<byte>, tail: seq<byte> :| ChangedAt(crc, b, rs, m, data, tail);
      ChangedIsRead(crc, b, rs, m, data, tail);
    }
  }

  lemma ChangedIsRead(crc: Checksum, b: seq<byte>, rs: seq<Record>, m: nat, data: seq<byte>, tail: seq<byte>)
    requires AllFramable(rs) && ChangedAt(crc, b, rs, m, data, tail)
    ensures var good := Frames(crc, rs[..m]);
            Parse(crc, b) == Parsed(rs[..m], |good|, Torn) && |good| < |b| && b[..|good|] == good
  {
    hide Parse, Frames, AllFramable;
    FramableParts(rs, m);
    ParseOverwritten(crc, rs[..m], rs[m], data, tail);
  }

  lemma CutIsRead(crc: Checksum, rs: seq<Record>, k: nat)
    requires AllFramable(rs) && k <= |Frames(crc, rs)|
    ensures var b, m := Frames(crc, rs)[..k], WholeRecords(crc, rs, k);
            var good := Frames(crc, rs[..m]);
            && Parse(crc, b) == Parsed(rs[..m], |good|, if |good| == |b| then AtEnd else Torn)
            && |good| <= |b| && b[..|good|] == good
  {
    hide Parse, Frame;
    var m := WholeRecords(crc, rs, k);
    ParseCut(crc, rs, k);
    WholeRecordsMeaning(crc, rs, k);
    assert rs == rs[..m] + rs[m..];
    FramesConcat(crc, rs[..m], rs[m..]);
  }

  lemma FramableParts(rs: seq<Record>, m: nat)
    requires AllFramable(rs) && m < |rs|
    ensures AllFramable(rs[..m]) && Framable(rs[m])
  {
  }

  /** A damaged file whose first record is whole: what is read are the records of a cut history, which replays to
      what storage holds after that history. */
  lemma ReplayDamagedFile(c: Codec, crc: Checksum, start: Snapshot, calls: seq<Call>, b: seq<byte>, m: nat) returns (cut: seq<Call>)
    requires Faithful(c) && Readable(start, calls) && AllFramable(FileRecords(c, calls))
    requires m >= 1 && Damaged(crc, b, FileRecords(c, calls), m)
    ensures var p := Parse(crc, b);
            && p.records == FileRecords(c, cut) == FileRecords(c, calls)[..m] && p.used == |Frames(crc, p.records)| <= |b|
            && p.stop == (if p.used == |b| then AtEnd else Torn) && b[..p.used] == Frames(crc, p.records)
    ensures Readable(start, cut)
  {
    hide Parse, Frame, AllRecords, CutCalls, Stored, CallsOk, Framable, Damaged;
    var rs := FileRecords(c, calls);
    DamagedIsRead(crc, b, rs, m);
    cut := CutCalls(c, calls, m - 1);
    DamagedLength(crc, b, rs, m);
    CutRecords(c, calls, m - 1);
    CutReadable(c, start, Dummy(start), calls, m - 1);
    assert rs[..m] == [rs[0]] + AllRecords(c, calls)[..m - 1];
  }

  lemma DamagedLength(crc: Checksum, b: seq<byte>, rs: seq<Record>, m: nat)
    requires Damaged(crc, b, rs, m)
    ensures m <= |rs|
  {
  }

  /** A file cut at any byte after its first record: what is read are the records of a cut history, which
      replays to what storage holds after that history. The bytes read form a well-formed file again. */
  lemma ReplayCutFile(c: Codec, crc: Checksum, start: Snapshot, calls: seq<Call>, k: nat) returns (cut: seq<Call>)
    requires Faithful(c) && Readable(start, calls) && AllFramable(FileRecords(c, calls))
    requires |Frame(crc, SnapshotRecord(c, Snapshot(0, 0)))| <= k <= |Frames(crc, FileRecords(c, calls))|
    ensures var p := Parse(crc, Frames(crc, FileRecords(c, calls))[..k]);
            && p.records == FileRecords(c, cut) && p.used == |Frames(crc, p.records)| <= k
            && p.stop == (if p.used == k then AtEnd else Torn)
            && Frames(crc, FileRecords(c, calls))[..p.used] == Frames(crc, p.records)
            && p.records <= FileRecords(c, calls)
    ensures Readable(start, cut)
  {
    hide Parse, Frame, AllRecords, Readable, Framable;
    var rs := FileRecords(c, calls);
    var m := WholeRecords(crc, rs, k);
    assert m >= 1;
    assert Damaged(crc, Frames(crc, rs)[..k], rs, m);
    cut := ReplayDamagedFile(c, crc, start, calls, Frames(crc, rs)[..k], m);
    var used := |Frames(crc, rs[..m])|;
    assert Frames(crc, rs)[..k][..used] == Frames(crc, rs)[..used];
  }
}
