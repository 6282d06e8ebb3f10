/**
 * The server half of a session (crates/daemon/src/session.rs): the raw ring and the derived
 * terminal projection. Each method that runs under the locks is one section; `Valid` is what
 * holds whenever the ring lock is free. Panics caught around the terminal library are the
 * boolean arguments, so every contract covers every pattern of failures.
 */
module Session {
  import opened Common
  import opened Ring
  import Handoff

  datatype Size = Size(cols: nat, rows: nat)

  /** The terminal emulator behind the projection, as a fold over what it is fed. */
  datatype Emulator<!T> = Emulator(
    blank: Size -> T, feed: (T, Byte) -> T, resize: (T, Size) -> T, render: T -> seq<Byte>)

  /** One thing that happened to the emulator. */
  datatype Input = Fed(byte: Byte) | Resized(size: Size)

  function FeedAll<T>(e: Emulator<T>, model: T, bytes: seq<Byte>): T {
    if bytes == [] then model else e.feed(FeedAll(e, model, bytes[..|bytes| - 1]), bytes[|bytes| - 1])
  }

  /** The model after a history of bytes and resizes. */
  ghost function Interpret<T>(e: Emulator<T>, size: Size, inputs: seq<Input>): T {
    if inputs == [] then e.blank(size)
    else
      var before := Interpret(e, size, inputs[..|inputs| - 1]);
      match inputs[|inputs| - 1]
      case Fed(byte) => e.feed(before, byte)
      case Resized(next) => e.resize(before, next)
  }

  /** The PTY bytes in a history. */
  ghost function BytesOf(inputs: seq<Input>): seq<Byte> {
    if inputs == [] then []
    else BytesOf(inputs[..|inputs| - 1]) + match inputs[|inputs| - 1]
                                           case Fed(byte) => [byte]
                                           case Resized(_) => []
  }

  ghost function FedAll(bytes: seq<Byte>): (inputs: seq<Input>)
    ensures |inputs| == |bytes|
  {
    seq(|bytes|, i requires 0 <= i < |bytes| => Fed(bytes[i]))
  }

  lemma {:induction false} FeedingExtends<T>(e: Emulator<T>, size: Size, inputs: seq<Input>, bytes: seq<Byte>)
    ensures Interpret(e, size, inputs + FedAll(bytes)) == FeedAll(e, Interpret(e, size, inputs), bytes)
    ensures BytesOf(inputs + FedAll(bytes)) == BytesOf(inputs) + bytes
  {
    if bytes == [] {
      assert inputs + FedAll(bytes) == inputs;
    } else {
      var init := bytes[..|bytes| - 1];
      FeedingExtends(e, size, inputs, init);
      var more := inputs + FedAll(bytes);
      assert more[..|more| - 1] == inputs + FedAll(init);
      assert more[|more| - 1] == Fed(bytes[|bytes| - 1]);
      assert bytes == init + [bytes[|bytes| - 1]];
    }
  }

  lemma ResizingExtends<T>(e: Emulator<T>, size: Size, inputs: seq<Input>, next: Size)
    ensures Interpret(e, size, inputs + [Resized(next)]) == e.resize(Interpret(e, size, inputs), next)
    ensures BytesOf(inputs + [Resized(next)]) == BytesOf(inputs)
  {
    assert (inputs + [Resized(next)])[..|inputs|] == inputs;
  }

  lemma FedInParts(bytes: seq<Byte>, more: seq<Byte>)
    ensures FedAll(bytes) + FedAll(more) == FedAll(bytes + more)
  {
  }

  lemma {:induction false} FeedingInParts<T>(e: Emulator<T>, model: T, bytes: seq<Byte>, more: seq<Byte>)
    ensures FeedAll(e, FeedAll(e, model, bytes), more) == FeedAll(e, model, bytes + more)
  {
    if more == [] {
      assert bytes + more == bytes;
    } else {
      FeedingInParts(e, model, bytes, more[..|more| - 1]);
      assert (bytes + more)[..|bytes + more| - 1] == bytes + more[..|more| - 1];
    }
  }

  datatype Failure = ParserPanicked | InspectionPanicked | Unavailable {
    predicate InvalidatedModel() {
      ParserPanicked? || Unavailable?
    }
  }

  datatype Outcome<+V> = Done(value: V) | Failed(failure: Failure)

  /** `TerminalProjection`: a best-effort model that any failure may take away. */
  class TerminalProjection<T> {
    const emulator: Emulator<T>
    var model: Option<T>
    var size: Size

    constructor (emulator: Emulator<T>, size: Size)
      ensures this.emulator == emulator && this.size == size && model == Some(emulator.blank(size))
    {
      this.emulator, this.size := emulator, size;
      model := Some(emulator.blank(size));
    }

    method Ingest(bytes: seq<Byte>, panics: bool) returns (r: Outcome<()>)
      modifies this
      ensures size == old(size)
      ensures r.Done? <==> old(model).Some? && !panics
      ensures model == if r.Done? then Some(FeedAll(emulator, old(model).value, bytes)) else None
      ensures r.Failed? ==> r.failure.InvalidatedModel()
    {
      if model.None? {
        return Failed(Unavailable);
      }
      if panics {
        model := None;
        return Failed(ParserPanicked);
      }
      model := Some(FeedAll(emulator, model.value, bytes));
      r := Done(());
    }

    method Resize(next: Size, panics: bool) returns (r: Outcome<()>)
      modifies this
      ensures size == next
      ensures r.Done? <==> old(model).Some? && !panics
      ensures model == if r.Done? then Some(emulator.resize(old(model).value, next)) else None
    {
      size := next;
      if model.None? {
        return Failed(Unavailable);
      }
      if panics {
        model := None;
        return Failed(ParserPanicked);
      }
      model := Some(emulator.resize(model.value, next));
      r := Done(());
    }

    method Snapshot(panics: bool) returns (r: Outcome<seq<Byte>>)
      ensures r.Done? <==> model.Some? && !panics
      ensures r.Done? ==> r.value == emulator.render(model.value)
      ensures r.Failed? ==> (r.failure.InvalidatedModel() <==> model.None?)
    {
      if model.None? {
        return Failed(Unavailable);
      }
      r := if panics then Failed(InspectionPanicked) else Done(emulator.render(model.value));
    }

    /** A rebuilt model has the history of a new terminal that was fed these bytes and nothing else. */
    method Rebuild(scrollback: seq<Byte>, panics: bool)
      modifies this
      ensures size == old(size)
      ensures model == if panics then None else Some(Interpret(emulator, size, FedAll(scrollback)))
    {
      FeedingExtends(emulator, size, [], scrollback);
      assert [] + FedAll(scrollback) == FedAll(scrollback);
      model := if panics then None else Some(FeedAll(emulator, emulator.blank(size), scrollback));
    }
  }

  /** What other threads may do to the session whenever its locks are free. */
  datatype Section =
    | Recording(bytes: seq<Byte>, panics: bool)       // the PTY thread, under both locks
    | Resizing(size: Size, panics: bool)              // on the terminal
    | Rebuilding(scrollback: seq<Byte>, panics: bool) // on the terminal, from bytes read from the ring before

  function BytesAmong(sections: seq<Section>): seq<Byte> {
    if sections == [] then []
    else BytesAmong(sections[..|sections| - 1]) + if sections[|sections| - 1].Recording? then sections[|sections| - 1].bytes else []
  }

  /** The projection as a value. */
  datatype Projection<T> = Projection(model: Option<T>, size: Size)

  /** Where one section takes the projection. */
  ghost function Then<T>(e: Emulator<T>, p: Projection<T>, section: Section): Projection<T> {
    match section
    case Recording(bytes, panics) =>
      p.(model := if panics || p.model.None? then None else Some(FeedAll(e, p.model.value, bytes)))
    case Resizing(size, panics) =>
      Projection(if panics || p.model.None? then None else Some(e.resize(p.model.value, size)), size)
    case Rebuilding(scrollback, panics) =>
      p.(model := if panics then None else Some(Interpret(e, p.size, FedAll(scrollback))))
  }

  ghost function After<T>(e: Emulator<T>, p: Projection<T>, sections: seq<Section>): Projection<T> {
    if sections == [] then p
    else Then(e, After(e, p, sections[..|sections| - 1]), sections[|sections| - 1])
  }

  /** The projection after a rebuild from these bytes, and what came between reading and using them. */
  ghost function Rebuilt<T>(e: Emulator<T>, p: Projection<T>, raw: seq<Byte>, during: seq<Section>, panics: bool): Projection<T> {
    Then(e, After(e, p, during), Rebuilding(raw, panics))
  }

  /** What an attach sends if there was no model: a screen drawn from a rebuilt one, or the raw window. */
  ghost function DrawnAgain<T>(e: Emulator<T>, p: Projection<T>, raw: seq<Byte>, before: seq<Section>, rebuildPanics: bool,
                               between: seq<Section>, rerenderPanics: bool): seq<Byte>
  {
    var drawn := After(e, Rebuilt(e, p, raw, before, rebuildPanics), between);
    if drawn.model.Some? && !rerenderPanics then e.render(drawn.model.value) else raw
  }

  /** Only output, and no failure. */
  predicate Calm(sections: seq<Section>) {
    forall i :: 0 <= i < |sections| ==> sections[i].Recording? && !sections[i].panics
  }

  lemma {:induction false} CalmAfter<T>(e: Emulator<T>, p: Projection<T>, sections: seq<Section>)
    requires p.model.Some? && Calm(sections)
    ensures After(e, p, sections) == p.(model := Some(FeedAll(e, p.model.value, BytesAmong(sections))))
  {
    if sections != [] {
      var init := sections[..|sections| - 1];
      CalmAfter(e, p, init);
      FeedingInParts(e, p.model.value, BytesAmong(init), sections[|sections| - 1].bytes);
    }
  }

  /**
   * Drawn again without another failure, the screen shows the raw window and then the output that came
   * before it was drawn, which the reply's offset does not count.
   */
  lemma RedrawnShows<T>(e: Emulator<T>, p: Projection<T>, raw: seq<Byte>, before: seq<Section>, between: seq<Section>)
    requires Calm(between)
    ensures DrawnAgain(e, p, raw, before, false, between, false)
         == e.render(Interpret(e, After(e, p, before).size, FedAll(raw + BytesAmong(between))))
  {
    var rebuilt, late := Rebuilt(e, p, raw, before, false), BytesAmong(between);
    CalmAfter(e, rebuilt, between);
    FeedingExtends(e, rebuilt.size, FedAll(raw), late);
    FedInParts(raw, late);
  }

  /** Offset and bytes are those of a reply that the handoff protocol draws from this window. */
  predicate ReplyIs(win: Window, lastSeen: Option<nat>, seqNo: nat, bytes: seq<Byte>, rendered: Option<seq<Byte>>)
    requires Consistent(win)
  {
    var reply := Handoff.AttachReply(win, lastSeen, rendered);
    reply.seqNo == seqNo && reply.bytes == bytes
  }

  class Session<T> {
    const ring: PtyRingBuffer
    const terminal: TerminalProjection<T>
    const firstSize: Size
    /** Everything the PTY produced. */
    ghost var stream: seq<Byte>
    /** Everything the projection was fed, in order. */
    ghost var inputs: seq<Input>
    /** No projection failure so far. */
    ghost var healthy: bool

    ghost predicate Valid()
      reads this, ring, ring.slots, terminal
    {
      && ring.Valid()
      && ring.View() == WindowOf(stream, ring.capacity)
      && (healthy ==>
            && terminal.model == Some(Interpret(terminal.emulator, firstSize, inputs))
            && BytesOf(inputs) == stream)
    }

    constructor (capacity: nat, emulator: Emulator<T>, size: Size)
      ensures Valid() && healthy && stream == [] && inputs == []
    {
      ring := new PtyRingBuffer(capacity);
      terminal := new TerminalProjection<T>(emulator, size);
      firstSize := size;
      stream, inputs, healthy := [], [], true;
    }

    ghost function Projected(): Projection<T>
      reads this, terminal
    {
      Projection(terminal.model, terminal.size)
    }

    /** The section of `record_output` that holds both locks. */
    method RecordLocked(bytes: seq<Byte>, panics: bool) returns (seqNo: nat, update: Outcome<()>)
      requires Valid()
      modifies this, ring, ring.slots, terminal
      ensures Valid()
      ensures stream == old(stream) + bytes && inputs == old(inputs) + FedAll(bytes)
      ensures Projected() == Then(terminal.emulator, old(Projected()), Recording(bytes, panics))
      ensures ring.View() == Pushed(old(ring.View()), ring.capacity, bytes)
      ensures seqNo == SaturatingAdd(old(ring.nextSeq), |bytes|)
      ensures healthy == (old(healthy) && !panics)
      ensures update.Done? <==> terminal.model.Some?
      ensures update.Failed? ==> update.failure.InvalidatedModel()
    {
      PushedExtendsStream(stream, ring.capacity, bytes);
      FeedingExtends(terminal.emulator, firstSize, inputs, bytes);
      var start := ring.Push(bytes);
      seqNo := SaturatingAdd(start, |bytes|);
      update := terminal.Ingest(bytes, panics);
      stream, inputs, healthy := stream + bytes, inputs + FedAll(bytes), healthy && !panics;
    }

    /** The section of `resize` on the terminal, after the PTY itself accepted the size. */
    method ResizeLocked(size: Size, panics: bool) returns (update: Outcome<()>)
      requires Valid()
      modifies this, terminal
      ensures Valid() && stream == old(stream) && inputs == old(inputs) + [Resized(size)]
      ensures Projected() == Then(terminal.emulator, old(Projected()), Resizing(size, panics))
      ensures healthy == (old(healthy) && !panics)
      ensures update.Done? <==> terminal.model.Some?
    {
      ResizingExtends(terminal.emulator, firstSize, inputs, size);
      update := terminal.Resize(size, panics);
      inputs, healthy := inputs + [Resized(size)], healthy && !panics;
    }

    /** One section on the terminal: a failed projection starts again from these bytes. */
    method RebuildTerminal(scrollback: seq<Byte>, panics: bool)
      requires Valid()
      modifies this`healthy, terminal
      ensures Valid() && !healthy
      ensures Projected() == Then(terminal.emulator, old(Projected()), Rebuilding(scrollback, panics))
    {
      terminal.Rebuild(scrollback, panics);
      healthy := false;
    }

    /** What others do to the session while no lock is held. */
    method Interfere(sections: seq<Section>)
      requires Valid()
      modifies this, ring, ring.slots, terminal
      ensures Valid() && stream == old(stream) + BytesAmong(sections)
      ensures Projected() == After(terminal.emulator, old(Projected()), sections)
      ensures old(inputs) <= inputs && (healthy ==> old(healthy))
    {
      for i := 0 to |sections|
        invariant Valid() && stream == old(stream) + BytesAmong(sections[..i])
        invariant Projected() == After(terminal.emulator, old(Projected()), sections[..i])
        invariant old(inputs) <= inputs && (healthy ==> old(healthy))
      {
        assert sections[..i + 1][..i] == sections[..i];
        match sections[i]
        case Recording(bytes, panics) => var _, _ := RecordLocked(bytes, panics);
        case Resizing(size, panics) => var _ := ResizeLocked(size, panics);
        case Rebuilding(scrollback, panics) => RebuildTerminal(scrollback, panics);
      }
      assert sections[..|sections|] == sections;
    }

    /**
     * `rebuild_terminal_projection_from_ring`: a section on the ring, and one on the terminal. As long
     * as the ring had dropped nothing, the projection is what a terminal of the present size shows
     * after the stream as it was when the ring was read; output that came since is not in it.
     */
    method RebuildTerminalFromRing(during: seq<Section>, panics: bool)
      requires Valid()
      modifies this, ring, ring.slots, terminal
      ensures Valid() && !healthy && stream == old(stream) + BytesAmong(during) && old(inputs) <= inputs
      ensures Projected() == Rebuilt(terminal.emulator, old(Projected()), old(ring.Contents()), during, panics)
      ensures |old(stream)| <= ring.capacity && |old(stream)| <= U64_MAX && !panics
              ==> terminal.model == Some(Interpret(terminal.emulator, terminal.size, FedAll(old(stream))))
    {
      var _, scrollback := ring.Snapshot();
      Interfere(during);
      RebuildTerminal(scrollback, panics);
    }

    /**
     * `record_output`. The ring, the chunk handed to the broadcast channel and its offset are
     * functions of the old ring and the bytes alone: no projection failure changes them. There is
     * one PTY thread, so nobody else records while it rebuilds, and what it rebuilds misses nothing.
     */
    method RecordOutput(bytes: seq<Byte>, ingestPanics: bool, during: seq<Section>, rebuildPanics: bool)
      returns (chunk: Handoff.Event)
      requires Valid() && BytesAmong(during) == []
      modifies this, ring, ring.slots, terminal
      ensures Valid() && stream == old(stream) + bytes && old(inputs) + FedAll(bytes) <= inputs
      ensures ring.View() == Pushed(old(ring.View()), ring.capacity, bytes)
      ensures chunk == Handoff.Output(SaturatingAdd(old(ring.nextSeq), |bytes|), bytes)
      ensures healthy == (old(healthy) && !ingestPanics)
      ensures healthy ==> inputs == old(inputs) + FedAll(bytes)
      ensures var fed := Then(terminal.emulator, old(Projected()), Recording(bytes, ingestPanics));
        Projected() == if fed.model.Some? then fed else Rebuilt(terminal.emulator, fed, ring.Contents(), during, rebuildPanics)
    {
      PushedExtendsStream(stream, ring.capacity, bytes);
      var seqNo, update := RecordLocked(bytes, ingestPanics);
      if update.Failed? && update.failure.InvalidatedModel() {
        RebuildTerminalFromRing(during, rebuildPanics);
      }
      chunk := Handoff.Output(seqNo, bytes);
    }

    /** `resize`: a failed one is followed by a rebuild, and output may come between. */
    method Resize(size: Size, panics: bool, during: seq<Section>, rebuildPanics: bool)
      requires Valid()
      modifies this, ring, ring.slots, terminal
      ensures Valid() && old(inputs) + [Resized(size)] <= inputs
      ensures healthy == (old(healthy) && !panics)
      ensures healthy ==> inputs == old(inputs) + [Resized(size)]
      ensures var resized := Then(terminal.emulator, old(Projected()), Resizing(size, panics));
        && stream == old(stream) + (if resized.model.Some? then [] else BytesAmong(during))
        && Projected() == if resized.model.Some? then resized
                          else Rebuilt(terminal.emulator, resized, old(ring.Contents()), during, rebuildPanics)
    {
      var update := ResizeLocked(size, panics);
      if update.Failed? {
        RebuildTerminalFromRing(during, rebuildPanics);
      }
    }

    /** The section of `attach_bytes` that holds the ring lock: a replay, or a snapshot and the raw window. */
    method AttachSection(lastSeen: Option<nat>, renderPanics: bool)
      returns (seqNo: nat, bytes: Outcome<seq<Byte>>, raw: seq<Byte>, ghost replayed: bool)
      requires Valid()
      ensures Covers(lastSeen) ==> seqNo == |stream| && bytes == Done(stream[lastSeen.value..])
      ensures |stream| <= U64_MAX && healthy && !renderPanics && !Covers(lastSeen)
              ==> && seqNo == |stream| && BytesOf(inputs) == stream
                  && bytes == Done(terminal.emulator.render(Interpret(terminal.emulator, firstSize, inputs)))
      ensures replayed == Replays(lastSeen)
      ensures replayed ==> bytes.Done?
      ensures !replayed ==> seqNo == ring.nextSeq && raw == ring.Contents()
      ensures !replayed ==> (bytes.Done? <==> terminal.model.Some? && !renderPanics)
      ensures !replayed && bytes.Done? ==> bytes.value == terminal.emulator.render(terminal.model.value)
      ensures !replayed && bytes.Failed? ==> (bytes.failure.InvalidatedModel() <==> terminal.model.None?)
      ensures bytes.Done? ==> ReplyIs(ring.View(), lastSeen, seqNo, bytes.value, Some(bytes.value))
    {
      raw, replayed := [], false;
      if lastSeen.Some? {
        var replay := ring.ReplayFrom(lastSeen.value);
        if replay.Some? {
          return SaturatingAdd(replay.value.0, |replay.value.1|), Done(replay.value.1), [], true;
        }
      }
      var _, scrollback := ring.Snapshot();
      raw := scrollback;
      bytes := terminal.Snapshot(renderPanics);
      seqNo := ring.nextSeq;
    }

    /**
     * `attach_bytes`. An offset inside the window is answered with exactly the missing bytes.
     * Otherwise, while the projection never failed, the reply is one instant: the screen after
     * a history whose bytes are the whole stream up to the returned offset. If the snapshot fails,
     * the locks are free while the projection is rebuilt and drawn again, and whatever happens to
     * the session in between, the reply is still one of the replies of the handoff protocol.
     */
    method AttachBytes(lastSeen: Option<nat>, renderPanics: bool, before: seq<Section>, rebuildPanics: bool,
                       between: seq<Section>, rerenderPanics: bool)
      returns (seqNo: nat, bytes: seq<Byte>, ghost rendered: Option<seq<Byte>>)
      requires Valid()
      modifies this, ring, ring.slots, terminal
      ensures Valid() && old(stream) <= stream
      ensures old(Covers(lastSeen)) ==> seqNo == |old(stream)| && bytes == old(stream)[lastSeen.value..] && stream == old(stream)
      ensures |old(stream)| <= U64_MAX && old(healthy) && !renderPanics && !old(Covers(lastSeen))
              ==> && seqNo == |old(stream)| && BytesOf(old(inputs)) == old(stream) && stream == old(stream)
                  && bytes == terminal.emulator.render(Interpret(terminal.emulator, firstSize, old(inputs)))
      ensures ReplyIs(old(ring.View()), lastSeen, seqNo, bytes, rendered)
      ensures !old(Replays(lastSeen)) ==> seqNo == old(ring.nextSeq)
      ensures !old(Replays(lastSeen)) && old(terminal.model).None?
              ==> bytes == DrawnAgain(terminal.emulator, old(Projected()), old(ring.Contents()), before, rebuildPanics, between, rerenderPanics)
      ensures !old(Replays(lastSeen)) && old(terminal.model).Some?
              ==> bytes == if renderPanics then old(ring.Contents()) else terminal.emulator.render(old(terminal.model).value)
    {
      var end, first, raw, _ := AttachSection(lastSeen, renderPanics);
      seqNo := end;
      if first.Done? {
        return seqNo, first.value, Some(first.value);
      }
      bytes, rendered := raw, None;
      if first.failure.InvalidatedModel() {
        Interfere(before);
        RebuildTerminal(raw, rebuildPanics);
        Interfere(between);
        var again := terminal.Snapshot(rerenderPanics);
        if again.Done? {
          bytes, rendered := again.value, Some(again.value);
        }
      }
    }

    ghost predicate Replays(lastSeen: Option<nat>)
      requires ring.Valid()
      reads this, ring, ring.slots
    {
      lastSeen.Some? && Replay(ring.View(), lastSeen.value).Some?
    }

    /** The client's offset is still inside the window of a stream short of the overflow. */
    ghost predicate Covers(lastSeen: Option<nat>)
      reads this, ring
    {
      |stream| <= U64_MAX && lastSeen.Some? && ring.startSeq <= lastSeen.value <= |stream|
    }
  }
}
