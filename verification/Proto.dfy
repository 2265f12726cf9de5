/** The wire-level values of the Raft library (raft-kv/raft/proto.h): log entries, messages and
    the outcome of an operation that may hit one of the source's fatal checks. */
module Proto {

  newtype byte = x: int | 0 <= x < 256

  /** The outcome of an operation: a value, or the process aborting in a fatal check. */
  datatype Result<+T> = Ok(value: T) | Fatal {
    predicate IsFailure() {
      Fatal?
    }

    function PropagateFailure<U>(): Result<U>
      requires Fatal?
    {
      Fatal
    }

    function Extract(): T
      requires Ok?
    {
      value
    }
  }

  datatype Option<+T> = None | Some(value: T)

  datatype EntryKind = Normal | ConfChange

  datatype Entry = Entry(kind: EntryKind, term: nat, index: nat, data: seq<byte>)

  /** Entries numbered consecutively from `first`, which is at least 1. */
  predicate Contiguous(es: seq<Entry>, first: nat) {
    first >= 1 && forall k :: 0 <= k < |es| ==> es[k].index == first + k
  }

  /** Encoded size of an unsigned 64-bit integer in msgpack. */
  function IntSize(d: nat): nat {
    if d < 0x80 then 1
    else if d < 0x100 then 2
    else if d < 0x1_0000 then 3
    else if d < 0x1_0000_0000 then 5
    else 9
  }

  /** Encoded size of a byte string in msgpack. */
  function DataSize(len: nat): nat {
    if len < 0x100 then 2 + len else if len < 0x1_0000 then 3 + len else 5 + len
  }

  /** Entry::serialize_size: the array header, the kind, the two numbers and the payload. */
  function EntrySize(e: Entry): nat {
    2 + IntSize(e.term) + IntSize(e.index) + DataSize(|e.data|)
  }

  function TotalSize(es: seq<Entry>): nat {
    if es == [] then 0 else TotalSize(es[..|es| - 1]) + EntrySize(es[|es| - 1])
  }

  lemma TotalSizeSnoc(es: seq<Entry>, e: Entry)
    ensures TotalSize(es + [e]) == TotalSize(es) + EntrySize(e)
  {
    assert (es + [e])[..|es + [e]| - 1] == es;
  }

  /** Payload bytes of a batch, the quantity the leader's uncommitted-size counter follows. */
  function PayloadSize(es: seq<Entry>): nat {
    if es == [] then 0 else PayloadSize(es[..|es| - 1]) + |es[|es| - 1].data|
  }

  lemma {:induction false} PayloadSizeConcat(a: seq<Entry>, b: seq<Entry>)
    ensures PayloadSize(a + b) == PayloadSize(a) + PayloadSize(b)
    decreases |b|
  {
    if b == [] {
      assert a + b == a;
    } else {
      var b' := b[..|b| - 1];
      assert (a + b)[..|a + b| - 1] == a + b';
      PayloadSizeConcat(a, b');
    }
  }

  /** A number as a 32-bit counter of the source holds it: the ring's counters, sums of payload sizes. */
  function Wrap32(n: nat): nat {
    n % 0x1_0000_0000
  }

  datatype MsgType =
    | MsgHup | MsgBeat | MsgProp | MsgApp | MsgAppResp | MsgVote | MsgVoteResp
    | MsgHeartbeat | MsgHeartbeatResp | MsgUnreachable | MsgSnapStatus | MsgCheckQuorum
    | MsgPreVote | MsgPreVoteResp

  datatype Message = Message(
    kind: MsgType, to: nat, from: nat, term: nat, logTerm: nat, index: nat,
    entries: seq<Entry>, commit: nat, reject: bool, rejectHint: nat)

  /** The default-constructed message of proto.h:136-147. */
  const EMPTY_MESSAGE := Message(MsgHup, 0, 0, 0, 0, 0, [], 0, false, 0)

  /** Entries of an append message follow its (index, logTerm) pair without a gap, as
      raft_log.h:50-51 demands of every caller. */
  predicate MessageWellFormed(m: Message) {
    m.kind == MsgApp ==> Contiguous(m.entries, m.index + 1)
  }

  predicate IsLocal(kind: MsgType) {
    kind in {MsgHup, MsgBeat, MsgUnreachable, MsgSnapStatus, MsgCheckQuorum}
  }

  predicate IsResponse(kind: MsgType) {
    kind in {MsgAppResp, MsgVoteResp, MsgHeartbeatResp, MsgUnreachable, MsgPreVoteResp}
  }
}
