/**
 * Length-prefixed frames (crates/protocol/src/framing.rs) over a stream that takes as many bytes
 * of a vectored write as it likes, and one that is read in capped chunks. The message codec is a
 * parameter.
 */
module Framing {
  import opened Common
  import BigEndian

  const MAX_FRAME_LEN: nat := 1024 * 1024
  const READ_CHUNK_LEN: nat := 8 * 1024
  const PREFIX_LEN: nat := 4

  /** A codec may refuse to encode a message, or to decode a payload. */
  datatype Codec<!M> = Codec(encode: M -> Option<seq<Byte>>, decode: seq<Byte> -> Option<M>)

  ghost predicate Lawful<M(!new)>(codec: Codec<M>) {
    forall m :: codec.encode(m).Some? ==> codec.decode(codec.encode(m).value) == Some(m)
  }

  datatype WriteResult = Written | EncodeFailed | WriteTooLarge(len: nat) | WriteLength | WritePayload

  datatype ReadResult<+M> = Message(value: M) | ReadLength | ReadTooLarge(len: nat) | ReadPayload | DecodeFailed

  datatype FrameResult<+T> = Ok(value: T) | TooLarge(len: nat) | Incomplete | EncodeError | DecodeError

  function Prefix(len: nat): (s: seq<Byte>)
    ensures |s| == PREFIX_LEN
  {
    BigEndian.Bytes(len, PREFIX_LEN)
  }

  function Frame(payload: seq<Byte>): (s: seq<Byte>)
    ensures |s| == PREFIX_LEN + |payload|
  {
    Prefix(|payload|) + payload
  }

  /** The bytes that carry a message, if it can be sent. */
  function FrameOf<M>(codec: Codec<M>, message: M): Option<seq<Byte>> {
    var payload := codec.encode(message);
    if payload.Some? && |payload.value| <= MAX_FRAME_LEN then Some(Frame(payload.value)) else None
  }

  lemma PrefixValue(len: nat)
    requires len <= MAX_FRAME_LEN
    ensures BigEndian.Value(Prefix(len)) == len
  {
    BigEndian.Bounds();
    BigEndian.ValueOfBytes(len, PREFIX_LEN);
  }

  // ---------------------------------------------------------------------- whole frames in memory

  function EncodeFrame<M>(codec: Codec<M>, message: M): FrameResult<seq<Byte>> {
    var payload := codec.encode(message);
    if payload.None? then EncodeError
    else if |payload.value| > MAX_FRAME_LEN then TooLarge(|payload.value|)
    else Ok(Frame(payload.value))
  }

  function DecodeFrame<M>(codec: Codec<M>, frame: seq<Byte>): FrameResult<M> {
    if |frame| < PREFIX_LEN then Incomplete
    else
      var len := BigEndian.Value(frame[..PREFIX_LEN]);
      if len > MAX_FRAME_LEN then TooLarge(len)
      else if |frame| < PREFIX_LEN + len then Incomplete
      else
        var message := codec.decode(frame[PREFIX_LEN..PREFIX_LEN + len]);
        if message.Some? then Ok(message.value) else DecodeError
  }

  /** What was encoded decodes to the message, whatever follows it; no shorter part of it decodes. */
  lemma DecodeEncoded<M(!new)>(codec: Codec<M>, message: M, junk: seq<Byte>, cut: nat)
    requires Lawful(codec) && EncodeFrame(codec, message).Ok?
    requires cut < |EncodeFrame(codec, message).value|
    ensures DecodeFrame(codec, EncodeFrame(codec, message).value + junk) == Ok(message)
    ensures DecodeFrame<M>(codec, EncodeFrame(codec, message).value[..cut]) == Incomplete
  {
    var payload := codec.encode(message).value;
    var frame := Frame(payload);
    PrefixValue(|payload|);
    assert (frame + junk)[..PREFIX_LEN] == Prefix(|payload|);
    assert (frame + junk)[PREFIX_LEN..PREFIX_LEN + |payload|] == payload;
    if cut >= PREFIX_LEN {
      assert frame[..cut][..PREFIX_LEN] == Prefix(|payload|);
    }
  }

  // ---------------------------------------------------------------------- reading a stream

  /** What a reader makes of the bytes a stream holds until it ends, and what it leaves unread. */
  function ParseFrame<M>(codec: Codec<M>, bytes: seq<Byte>): (ReadResult<M>, seq<Byte>) {
    if |bytes| < PREFIX_LEN then (ReadLength, [])
    else
      var len := BigEndian.Value(bytes[..PREFIX_LEN]);
      var rest := bytes[PREFIX_LEN..];
      if len > MAX_FRAME_LEN then (ReadTooLarge(len), rest)
      else if |rest| < len then (ReadPayload, [])
      else
        var message := codec.decode(rest[..len]);
        (if message.Some? then Message(message.value) else DecodeFailed, rest[len..])
  }

  lemma ParseFrameOf<M(!new)>(codec: Codec<M>, message: M, rest: seq<Byte>)
    requires Lawful(codec) && FrameOf(codec, message).Some?
    ensures ParseFrame(codec, FrameOf(codec, message).value + rest) == (Message(message), rest)
  {
    var payload := codec.encode(message).value;
    var bytes := Frame(payload) + rest;
    PrefixValue(|payload|);
    assert bytes[..PREFIX_LEN] == Prefix(|payload|);
    assert bytes[PREFIX_LEN..] == payload + rest;
  }

  /** Any whole frame is read to its end, whether its payload decodes or not. */
  lemma ParseWholeFrame<M>(codec: Codec<M>, payload: seq<Byte>, rest: seq<Byte>)
    requires |payload| <= 1_048_576
    ensures ParseFrame(codec, Frame(payload) + rest) ==
      (if codec.decode(payload).Some? then Message(codec.decode(payload).value) else DecodeFailed, rest)
    ensures DecodeFrame(codec, Frame(payload) + rest) ==
      if codec.decode(payload).Some? then Ok(codec.decode(payload).value) else DecodeError
  {
    var bytes := Frame(payload) + rest;
    PrefixValue(|payload|);
    assert bytes[..PREFIX_LEN] == Prefix(|payload|);
    assert bytes[PREFIX_LEN..] == payload + rest;
    assert bytes[PREFIX_LEN..PREFIX_LEN + |payload|] == payload;
  }

  /** A length above one mebibyte, and no other, is refused as too large, and nothing after it is read. */
  lemma CapIsExact<M>(codec: Codec<M>, bytes: seq<Byte>, message: M)
    ensures ParseFrame(codec, bytes).0.ReadTooLarge? <==> |bytes| >= 4 && BigEndian.Value(bytes[..4]) > 1_048_576
    ensures ParseFrame(codec, bytes).0.ReadTooLarge? ==> ParseFrame(codec, bytes) == (ReadTooLarge(BigEndian.Value(bytes[..4])), bytes[4..])
    ensures DecodeFrame(codec, bytes).TooLarge? <==> |bytes| >= 4 && BigEndian.Value(bytes[..4]) > 1_048_576
    ensures EncodeFrame(codec, message).TooLarge? <==> codec.encode(message).Some? && |codec.encode(message).value| > 1_048_576
    ensures EncodeFrame(codec, message).Ok? <==> FrameOf(codec, message).Some?
  {
  }

  /** A frame cut short is never taken for a message, and where it was cut says how it fails. */
  lemma ParseCutFrame<M(!new)>(codec: Codec<M>, message: M, cut: nat)
    requires FrameOf(codec, message).Some? && cut < |FrameOf(codec, message).value|
    ensures ParseFrame(codec, FrameOf(codec, message).value[..cut]) == (if cut < PREFIX_LEN then ReadLength else ReadPayload, [])
  {
    var payload := codec.encode(message).value;
    PrefixValue(|payload|);
    if cut >= PREFIX_LEN {
      assert Frame(payload)[..cut][..PREFIX_LEN] == Prefix(|payload|);
    }
  }

  /** The frames of a list of messages, one after another. */
  function Frames<M>(codec: Codec<M>, messages: seq<M>): seq<Byte>
    requires forall m :: m in messages ==> FrameOf(codec, m).Some?
  {
    if messages == [] then [] else FrameOf(codec, messages[0]).value + Frames(codec, messages[1..])
  }

  /** What `n` reads in a row make of a stream. */
  function ParseAll<M>(codec: Codec<M>, bytes: seq<Byte>, n: nat): (seq<ReadResult<M>>, seq<Byte>)
    decreases n
  {
    if n == 0 then ([], bytes)
    else
      var first := ParseFrame(codec, bytes);
      var others := ParseAll(codec, first.1, n - 1);
      ([first.0] + others.0, others.1)
  }

  lemma ParseAllFirst<M(!new)>(codec: Codec<M>, message: M, rest: seq<Byte>, n: nat)
    requires Lawful(codec) && FrameOf(codec, message).Some?
    ensures var others := ParseAll(codec, rest, n);
      ParseAll(codec, FrameOf(codec, message).value + rest, n + 1) == ([Message(message)] + others.0, others.1)
  {
    ParseFrameOf(codec, message, rest);
  }

  /** Reading frames written one after another gives the messages, in order, and reads nothing more. */
  lemma {:induction false} ReadsGiveMessages<M(!new)>(codec: Codec<M>, messages: seq<M>, rest: seq<Byte>)
    requires Lawful(codec) && forall m :: m in messages ==> FrameOf(codec, m).Some?
    ensures var read := ParseAll(codec, Frames(codec, messages) + rest, |messages|);
      && |read.0| == |messages| && read.1 == rest
      && forall i :: 0 <= i < |messages| ==> read.0[i] == Message(messages[i])
  {
    if messages == [] {
      assert Frames(codec, messages) + rest == rest;
    } else {
      var tail := messages[1..];
      ReadsGiveMessages(codec, tail, rest);
      ParseAllFirst(codec, messages[0], Frames(codec, tail) + rest, |tail|);
      assert Frames(codec, messages) + rest == FrameOf(codec, messages[0]).value + (Frames(codec, tail) + rest);
      assert forall i :: 1 <= i < |messages| ==> messages[i] == tail[i - 1];
    }
  }

  /** A byte stream that its writer may close at any point. */
  class Source {
    var rest: seq<Byte>

    constructor (bytes: seq<Byte>)
      ensures rest == bytes
    {
      rest := bytes;
    }

    /** All the bytes asked for, or nothing and the end of the stream. */
    method ReadExact(n: nat) returns (bytes: Option<seq<Byte>>)
      modifies this
      ensures bytes == if n <= |old(rest)| then Some(old(rest)[..n]) else None
      ensures rest == if n <= |old(rest)| then old(rest)[n..] else []
    {
      if n <= |rest| {
        bytes := Some(rest[..n]);
        rest := rest[n..];
      } else {
        bytes := None;
        rest := [];
      }
    }
  }

  /** The payload buffer; `lengths` remembers its length after each resize. */
  class PayloadBuffer {
    var data: seq<Byte>
    var lengths: seq<nat>

    ghost predicate Valid()
      reads this
    {
      |data| == if lengths == [] then 0 else lengths[|lengths| - 1]
    }

    constructor ()
      ensures Valid() && lengths == []
    {
      data, lengths := [], [];
    }

    method Resize(len: nat)
      requires Valid() && |data| <= len
      modifies this
      ensures Valid() && lengths == old(lengths) + [len] && data[..|old(data)|] == old(data)
    {
      data := data + seq(len - |data|, _ => 0);
      lengths := lengths + [len];
    }

    /** `read_exact` into the part of the buffer that was just added. */
    method FillFrom(source: Source, start: nat) returns (filled: bool)
      requires Valid() && start <= |data|
      modifies this`data, source
      ensures Valid() && |data| == |old(data)|
      ensures filled <==> |data| - start <= |old(source.rest)|
      ensures filled ==> data == old(data)[..start] + old(source.rest)[..|data| - start]
      ensures source.rest == if filled then old(source.rest)[|data| - start..] else []
    {
      var chunk := source.ReadExact(|data| - start);
      filled := chunk.Some?;
      if filled {
        data := data[..start] + chunk.value;
      }
    }
  }

  /**
   * How often the buffer is resized for a payload of this length, when so many bytes of it arrive:
   * once for each chunk that arrives whole, and once more for the first that does not.
   */
  predicate ResizeCount(n: nat, len: nat, arriving: nat) {
    if len <= arriving then len <= n * READ_CHUNK_LEN && (n > 0 ==> (n - 1) * READ_CHUNK_LEN < len)
    else n > 0 && (n - 1) * READ_CHUNK_LEN <= arriving < n * READ_CHUNK_LEN
  }

  /** The lengths that the buffer takes: a chunk more each time, up to the whole payload. */
  ghost predicate InChunks(lengths: seq<nat>, len: nat) {
    lengths == [] ||
    (InChunks(lengths[..|lengths| - 1], len) && lengths[|lengths| - 1] == Min(|lengths| * READ_CHUNK_LEN, len))
  }

  lemma {:induction false} InChunksAt(lengths: seq<nat>, len: nat, k: nat)
    requires InChunks(lengths, len) && k < |lengths|
    ensures lengths[k] == Min((k + 1) * READ_CHUNK_LEN, len)
  {
    if k < |lengths| - 1 {
      InChunksAt(lengths[..|lengths| - 1], len, k);
    }
  }

  lemma InChunksMore(lengths: seq<nat>, len: nat, next: nat)
    requires InChunks(lengths, len) && next == Min((|lengths| + 1) * READ_CHUNK_LEN, len)
    ensures InChunks(lengths + [next], len)
  {
    assert (lengths + [next])[..|lengths|] == lengths;
  }

  /** At no moment is the buffer more than one chunk longer than what has arrived, whatever length was declared. */
  lemma NeverMoreThanAChunkAhead(lengths: seq<nat>, len: nat, arriving: nat, k: nat)
    requires InChunks(lengths, len) && ResizeCount(|lengths|, len, arriving) && k < |lengths|
    ensures k * READ_CHUNK_LEN <= arriving && lengths[k] <= k * READ_CHUNK_LEN + READ_CHUNK_LEN
    ensures lengths[k] <= Min(len, arriving) + READ_CHUNK_LEN
  {
    InChunksAt(lengths, len, k);
  }

  /** The declared length, when the stream holds one. */
  function DeclaredLen(bytes: seq<Byte>): nat {
    if |bytes| < PREFIX_LEN then 0 else BigEndian.Value(bytes[..PREFIX_LEN])
  }

  /** One chunk: the buffer grows, and the bytes that arrive go into the new part. */
  method ReadChunk(source: Source, buffer: PayloadBuffer, len: nat) returns (filled: bool)
    requires buffer.Valid() && |buffer.data| < len
    modifies source, buffer
    ensures buffer.Valid() && |buffer.data| == |old(buffer.data)| + Min(len - |old(buffer.data)|, READ_CHUNK_LEN)
    ensures buffer.lengths == old(buffer.lengths) + [|buffer.data|]
    ensures filled <==> |buffer.data| - |old(buffer.data)| <= |old(source.rest)|
    ensures filled ==> buffer.data == old(buffer.data) + old(source.rest)[..|buffer.data| - |old(buffer.data)|]
    ensures source.rest == if filled then old(source.rest)[|buffer.data| - |old(buffer.data)|..] else []
  {
    var start := |buffer.data|;
    buffer.Resize(start + Min(len - start, READ_CHUNK_LEN));
    filled := buffer.FillFrom(source, start);
  }

  method ReadPayloadInto(source: Source, buffer: PayloadBuffer, len: nat) returns (complete: bool)
    requires buffer.Valid() && buffer.lengths == []
    modifies source, buffer
    ensures complete <==> len <= |old(source.rest)|
    ensures complete ==> buffer.data == old(source.rest)[..len] && source.rest == old(source.rest)[len..]
    ensures !complete ==> source.rest == []
    ensures InChunks(buffer.lengths, len) && ResizeCount(|buffer.lengths|, len, |old(source.rest)|)
  {
    ghost var rest := source.rest;
    complete := true;
    while |buffer.data| < len
      invariant buffer.Valid() && |buffer.data| <= |rest| && complete
      invariant buffer.data == rest[..|buffer.data|] && source.rest == rest[|buffer.data|..]
      invariant |buffer.data| == Min(|buffer.lengths| * READ_CHUNK_LEN, len)
      invariant |buffer.lengths| > 0 ==> (|buffer.lengths| - 1) * READ_CHUNK_LEN < len
      invariant InChunks(buffer.lengths, len)
      decreases len - |buffer.data|
    {
      ghost var start, lengths := |buffer.data|, buffer.lengths;
      complete := ReadChunk(source, buffer, len);
      InChunksMore(lengths, len, |buffer.data|);
      if !complete {
        return;
      }
      ChunkJoins(rest, start, |buffer.data|);
    }
  }

  lemma ChunkJoins(rest: seq<Byte>, start: nat, end: nat)
    requires start <= end <= |rest|
    ensures rest[..start] + rest[start..][..end - start] == rest[..end] && rest[start..][end - start..] == rest[end..]
  {
  }

  /**
   * The reader takes what `ParseFrame` says, and decodes its payload buffer. The buffer grows by one
   * chunk at a time, each time only after all chunks before have arrived.
   */
  method ReadFramed<M>(codec: Codec<M>, source: Source) returns (r: ReadResult<M>, buffer: PayloadBuffer)
    modifies source
    ensures fresh(buffer) && (r, source.rest) == ParseFrame(codec, old(source.rest))
    ensures r.ReadLength? || r.ReadTooLarge? ==> buffer.lengths == []
    ensures !r.ReadLength? && !r.ReadTooLarge? ==>
      && InChunks(buffer.lengths, DeclaredLen(old(source.rest)))
      && ResizeCount(|buffer.lengths|, DeclaredLen(old(source.rest)), |old(source.rest)| - PREFIX_LEN)
    ensures r.Message? ==> codec.decode(buffer.data) == Some(r.value)
  {
    buffer := new PayloadBuffer();
    var length := source.ReadExact(PREFIX_LEN);
    if length.None? {
      return ReadLength, buffer;
    }
    var len := BigEndian.Value(length.value);
    if len > MAX_FRAME_LEN {
      return ReadTooLarge(len), buffer;
    }
    var complete := ReadPayloadInto(source, buffer, len);
    if !complete {
      return ReadPayload, buffer;
    }
    var message := codec.decode(buffer.data);
    r := if message.Some? then Message(message.value) else DecodeFailed;
  }

  // ---------------------------------------------------------------------- writing a stream

  /** What becomes of one write: it takes at most so many bytes, or fails. */
  datatype Outcome = Accepts(count: nat) | Fails

  class Sink {
    var out: seq<Byte>
    var calls: nat
    const outcomes: nat -> Outcome

    constructor (outcomes: nat -> Outcome)
      ensures out == [] && calls == 0 && this.outcomes == outcomes
    {
      out, calls := [], 0;
      this.outcomes := outcomes;
    }

    /** A prefix of the buffers goes out. */
    method WriteVectored(buffers: seq<seq<Byte>>) returns (count: Option<nat>)
      modifies this
      ensures calls == old(calls) + 1
      ensures match outcomes(old(calls))
        case Accepts(n) => count == Some(Min(n, |Flatten(buffers)|)) && out == old(out) + Flatten(buffers)[..count.value]
        case Fails => count == None && out == old(out)
    {
      var outcome := outcomes(calls);
      calls := calls + 1;
      if outcome.Fails? {
        return None;
      }
      var bytes := Flatten(buffers);
      var n := Min(outcome.count, |bytes|);
      out := out + bytes[..n];
      count := Some(n);
    }
  }

  /** From call `from` on, every write takes something. */
  ghost predicate AlwaysAccepts(sink: Sink, from: nat) {
    forall i: nat :: from <= i ==> sink.outcomes(i).Accepts? && sink.outcomes(i).count > 0
  }

  lemma FlattenTwo<T>(a: seq<T>, b: seq<T>)
    ensures Flatten([a, b]) == a + b && Flatten([a]) == a
  {
    FlattenSnoc([], a);
    FlattenSnoc([a], b);
    assert [] + [a] == [a] && [a] + [b] == [a, b];
  }

  /** One write of what is left of a frame, from its length and payload buffers. */
  method WriteRest(sink: Sink, length: seq<Byte>, payload: seq<Byte>, written: nat) returns (count: Option<nat>)
    requires written < |length| + |payload|
    modifies sink
    ensures sink.calls == old(sink.calls) + 1
    ensures count.Some? ==> count.value <= |length| + |payload| - written
    ensures sink.out == old(sink.out) + (length + payload)[written..][..if count.Some? then count.value else 0]
    ensures match sink.outcomes(old(sink.calls))
      case Accepts(n) => count.Some? && (n > 0 ==> count.value > 0)
      case Fails => count.None?
  {
    if written < |length| {
      FlattenTwo(length[written..], payload);
      assert length[written..] + payload == (length + payload)[written..];
      count := sink.WriteVectored([length[written..], payload]);
    } else {
      FlattenTwo(payload[written - |length|..], []);
      assert payload[written - |length|..] == (length + payload)[written..];
      count := sink.WriteVectored([payload[written - |length|..]]);
    }
  }

  /** The loop that writes a frame until it is out or a write takes nothing. */
  method WriteAll(sink: Sink, length: seq<Byte>, payload: seq<Byte>) returns (r: WriteResult, ghost sent: nat)
    modifies sink
    ensures sent <= |length| + |payload| && sink.out == old(sink.out) + (length + payload)[..sent]
    ensures r == if sent == |length| + |payload| then Written else if sent < |length| then WriteLength else WritePayload
    ensures AlwaysAccepts(sink, old(sink.calls)) ==> r == Written
  {
    ghost var frame := length + payload;
    var written := 0;
    while written < |length| + |payload|
      invariant written <= |frame| && sink.out == old(sink.out) + frame[..written]
      invariant sink.calls >= old(sink.calls)
      decreases |frame| - written
    {
      var count := WriteRest(sink, length, payload, written);
      if count.None? || count.value == 0 {
        return if written < |length| then WriteLength else WritePayload, written;
      }
      assert frame[..written] + frame[written..][..count.value] == frame[..written + count.value];
      written := written + count.value;
    }
    r, sent := Written, written;
  }

  /**
   * Whatever each write takes, the bytes that go out are a prefix of the frame: all of it exactly
   * when the call succeeds, which it does if every write takes something. A failure is one of the
   * length exactly when the length had not gone out.
   */
  method WriteFramed<M>(codec: Codec<M>, sink: Sink, message: M) returns (r: WriteResult)
    modifies sink
    ensures codec.encode(message).None? ==> r == EncodeFailed && sink.out == old(sink.out)
    ensures codec.encode(message).Some? && FrameOf(codec, message).None? ==>
      r == WriteTooLarge(|codec.encode(message).value|) && sink.out == old(sink.out)
    ensures FrameOf(codec, message).Some? ==>
      var frame, sent := FrameOf(codec, message).value, |sink.out| - |old(sink.out)|;
      && 0 <= sent <= |frame| && sink.out == old(sink.out) + frame[..sent]
      && r == (if sent == |frame| then Written else if sent < PREFIX_LEN then WriteLength else WritePayload)
      && (AlwaysAccepts(sink, old(sink.calls)) ==> r == Written)
  {
    var encoded := codec.encode(message);
    if encoded.None? {
      return EncodeFailed;
    }
    var payload := encoded.value;
    if |payload| > MAX_FRAME_LEN {
      return WriteTooLarge(|payload|);
    }
    ghost var sent;
    r, sent := WriteAll(sink, Prefix(|payload|), payload);
  }

  /** A frame that a failed write cut short fails its reader in the same way, if the stream then ends. */
  lemma CutWriteIsCutRead<M(!new)>(codec: Codec<M>, message: M, sent: nat)
    requires Lawful(codec) && FrameOf(codec, message).Some? && sent <= |FrameOf(codec, message).value|
    ensures ParseFrame(codec, FrameOf(codec, message).value[..sent]) ==
      if sent == |FrameOf(codec, message).value| then (Message(message), [])
      else (if sent < PREFIX_LEN then ReadLength else ReadPayload, [])
  {
    var frame := FrameOf(codec, message).value;
    if sent == |frame| {
      ParseFrameOf(codec, message, []);
      assert frame[..sent] == frame + [];
    } else {
      ParseCutFrame(codec, message, sent);
    }
  }
}
