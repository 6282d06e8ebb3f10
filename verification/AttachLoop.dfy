/**
 * The client's attach loop (crates/cli/src/attach_loop.rs). Terminal output is batched while
 * messages keep coming and flushed when the reader has nothing ready; the reference it is proved
 * against handles one event at a time and buffers nothing.
 */
module AttachLoop {
  import opened Common
  import opened Detach

  datatype Size = Size(rows: nat, cols: nat)

  datatype ServerMsg =
    | Output(session: nat, end: nat, bytes: seq<Byte>)
    | Lag(session: nat)
    | Exited(session: nat, code: int)
    | Error(text: string)
    | Other

  datatype ClientMsg =
    | AttachSession(size: Size, lastSeen: Option<nat>)
    | Input(bytes: seq<Byte>)
    | Resize(size: Size)
    | DetachSession

  datatype Outcome =
    | Detached
    | SessionExited(code: int)
    | DaemonError(text: string)
    | ConnectionLost
    | Lagged                // attach again
    | Failed                // an error is returned

  /**
   * What the loop meets next. `Idle` is a moment when the reader has nothing ready; the other
   * events are what a wait may end with. `writes` is how many of the messages that an event makes
   * the client send get through.
   */
  datatype Event =
    | Message(message: ServerMsg)
    | ReadFailed
    | Idle
    | Keys(bytes: seq<Byte>, writes: nat)
    | InputEof(writes: nat)
    | InputError
    | Resized(physical: Size, writes: nat)
    | ResizeClosed

  /** The session, the detach prefix, and the renderer as functions of its state. */
  datatype Setup<!R> = Setup(
    session: nat, prefix: Byte,
    initialFrame: (R, seq<Byte>) -> (R, seq<Byte>),
    outputFrame: (R, seq<Byte>) -> (R, seq<Byte>),
    resizeFrame: (R, Size) -> (R, Size, seq<Byte>))

  datatype Client<R> = Client(
    renderer: R, size: Size, lastSeen: Option<nat>, terminal: seq<Byte>, sent: seq<ClientMsg>,
    held: bool, resizeOpen: bool, outcome: Option<Outcome>)

  // ---------------------------------------------------------------------- one event at a time

  function Send<R>(c: Client<R>, message: ClientMsg, ok: bool): Client<R> {
    if ok then c.(sent := c.sent + [message]) else c.(outcome := Some(Failed))
  }

  function OnMessage<R>(setup: Setup<R>, c: Client<R>, message: ServerMsg): Client<R> {
    match message
    case Output(session, end, bytes) =>
      if session != setup.session then c
      else
        var rendered := setup.outputFrame(c.renderer, bytes);
        c.(renderer := rendered.0, lastSeen := Some(end), terminal := c.terminal + rendered.1)
    case Lag(session) => if session == setup.session then c.(outcome := Some(Lagged)) else c
    case Exited(session, code) => if session == setup.session then c.(outcome := Some(SessionExited(code))) else c
    case Error(text) => c.(outcome := Some(DaemonError(text)))
    case Other => c
  }

  /** What the detach key let through is sent, and then the farewell if there is one. */
  function SendKeys<R>(c: Client<R>, scanned: Scanned, writes: nat): Client<R> {
    var sending := scanned.bytes != [];
    var forwarded := if sending then Send(c, Input(scanned.bytes), writes > 0) else c;
    if forwarded.outcome.Some? || !scanned.detached then forwarded
    else
      var left := Send(forwarded, DetachSession, writes > if sending then 1 else 0);
      if left.outcome.Some? then left else left.(outcome := Some(Detached))
  }

  function OnKeys<R>(setup: Setup<R>, c: Client<R>, bytes: seq<Byte>, writes: nat): Client<R> {
    var scanned := Scan(setup.prefix, Scanned([], c.held, false), bytes);
    SendKeys(c.(held := scanned.held), scanned, writes)
  }

  function OnResize<R>(setup: Setup<R>, c: Client<R>, physical: Size, writes: nat): Client<R> {
    var rendered := setup.resizeFrame(c.renderer, physical);
    Send(c.(renderer := rendered.0, size := rendered.1, terminal := c.terminal + rendered.2), Resize(rendered.1), writes > 0)
  }

  function React<R>(setup: Setup<R>, c: Client<R>, event: Event): Client<R> {
    if c.outcome.Some? then c
    else
      match event
      case Message(message) => OnMessage(setup, c, message)
      case ReadFailed => c.(outcome := Some(ConnectionLost))
      case Idle => c
      case Keys(bytes, writes) => OnKeys(setup, c, bytes, writes)
      case InputEof(writes) => c.(sent := if writes > 0 then c.sent + [DetachSession] else c.sent, outcome := Some(Detached))
      case InputError => c.(outcome := Some(Failed))
      case Resized(physical, writes) => if c.resizeOpen then OnResize(setup, c, physical, writes) else c
      case ResizeClosed => c.(resizeOpen := false)
  }

  function Unbatched<R>(setup: Setup<R>, c: Client<R>, events: seq<Event>): Client<R> {
    if events == [] then c else React(setup, Unbatched(setup, c, events[..|events| - 1]), events[|events| - 1])
  }

  lemma UnbatchedSnoc<R>(setup: Setup<R>, c: Client<R>, events: seq<Event>, i: nat)
    requires i < |events|
    ensures Unbatched(setup, c, events[..i + 1]) == React(setup, Unbatched(setup, c, events[..i]), events[i])
  {
    assert events[..i + 1][..i] == events[..i];
  }

  /** Once the loop has returned, later events change nothing. */
  lemma {:induction false} UnbatchedEnds<R>(setup: Setup<R>, c: Client<R>, events: seq<Event>, i: nat)
    requires i <= |events| && Unbatched(setup, c, events[..i]).outcome.Some?
    ensures Unbatched(setup, c, events) == Unbatched(setup, c, events[..i])
    decreases |events|
  {
    if i == |events| {
      assert events[..i] == events;
    } else {
      var init := events[..|events| - 1];
      assert init[..i] == events[..i];
      UnbatchedEnds(setup, c, init, i);
    }
  }

  // ---------------------------------------------------------------------- when the reader is ready does not matter

  function WithoutIdle(events: seq<Event>): seq<Event> {
    if events == [] then []
    else
      var rest, last := WithoutIdle(events[..|events| - 1]), events[|events| - 1];
      if last.Idle? then rest else rest + [last]
  }

  /** Where the reader had nothing ready, and so how output was batched, leaves no trace. */
  lemma {:induction false} IdleIsIrrelevant<R>(setup: Setup<R>, c: Client<R>, events: seq<Event>)
    ensures Unbatched(setup, c, events) == Unbatched(setup, c, WithoutIdle(events))
  {
    if events != [] {
      var init, last := events[..|events| - 1], events[|events| - 1];
      IdleIsIrrelevant(setup, c, init);
      var kept := WithoutIdle(init);
      assert (kept + [last])[..|kept|] == kept;
    }
  }

  // ---------------------------------------------------------------------- what is typed is forwarded

  function Forwarded(sent: seq<ClientMsg>): seq<Byte> {
    if sent == [] then []
    else
      var before, last := Forwarded(sent[..|sent| - 1]), sent[|sent| - 1];
      if last.Input? then before + last.bytes else before
  }

  lemma ForwardedSnoc(sent: seq<ClientMsg>, message: ClientMsg)
    ensures Forwarded(sent + [message]) == Forwarded(sent) + if message.Input? then message.bytes else []
  {
    assert (sent + [message])[..|sent|] == sent;
  }

  /** The chunks of input that the loop took before it returned. */
  function TakenKeys<R>(setup: Setup<R>, c: Client<R>, events: seq<Event>): seq<seq<Byte>> {
    if events == [] then []
    else
      var init, last := events[..|events| - 1], events[|events| - 1];
      var before := TakenKeys(setup, c, init);
      if last.Keys? && Unbatched(setup, c, init).outcome.None? then before + [last.bytes] else before
  }

  /** The input ended, and the loop took notice. */
  predicate EofTaken<R>(setup: Setup<R>, c: Client<R>, events: seq<Event>) {
    events != [] &&
    (EofTaken(setup, c, events[..|events| - 1]) ||
     (events[|events| - 1].InputEof? && Unbatched(setup, c, events[..|events| - 1]).outcome.None?))
  }

  /** Unless a write failed: what was sent, what is held, and why the client left. */
  predicate Delivers<R>(c: Client<R>, u: Client<R>, scanned: Scanned, eof: bool) {
    u.outcome != Some(Failed) ==>
      && Forwarded(u.sent) == Forwarded(c.sent) + scanned.bytes && u.held == scanned.held
      && (scanned.detached ==> u.outcome == Some(Detached))
      && (u.outcome == Some(Detached) ==> scanned.detached || eof)
  }

  lemma SendKeysDelivers<R>(c: Client<R>, scanned: Scanned, writes: nat)
    requires c.outcome.None? && c.held == scanned.held
    ensures Delivers(c, SendKeys(c, scanned, writes), scanned, false)
  {
    if scanned.bytes != [] {
      ForwardedSnoc(c.sent, Input(scanned.bytes));
      ForwardedSnoc(c.sent + [Input(scanned.bytes)], DetachSession);
    } else {
      ForwardedSnoc(c.sent, DetachSession);
    }
  }

  /** What was delivered up to a moment, and from there on, is delivered in all. */
  lemma DeliversCompose<R>(c: Client<R>, before: Client<R>, noted: Client<R>, u: Client<R>, so: Scanned, next: Scanned)
    requires before.outcome.None? && Delivers(c, before, so, false)
    requires noted.sent == before.sent && Delivers(noted, u, next, false)
    ensures Delivers(c, u, next.(bytes := so.bytes + next.bytes), false)
  {
    assert Forwarded(c.sent) + so.bytes + next.bytes == Forwarded(c.sent) + (so.bytes + next.bytes);
  }

  lemma KeysDeliver<R>(setup: Setup<R>, c: Client<R>, before: Client<R>, so: Scanned, bytes: seq<Byte>, writes: nat)
    requires before.outcome.None? && Delivers(c, before, so, false)
    ensures var next := Scan(setup.prefix, Scanned([], so.held, false), bytes);
      Delivers(c, OnKeys(setup, before, bytes, writes), next.(bytes := so.bytes + next.bytes), false)
  {
    var next := Scan(setup.prefix, Scanned([], before.held, false), bytes);
    var noted := before.(held := next.held);
    SendKeysDelivers(noted, next, writes);
    DeliversCompose(c, before, noted, SendKeys(noted, next, writes), so, next);
  }

  lemma ResizeDelivers<R>(setup: Setup<R>, c: Client<R>, before: Client<R>, so: Scanned, physical: Size, writes: nat)
    requires before.outcome.None? && Delivers(c, before, so, false)
    ensures Delivers(c, OnResize(setup, before, physical, writes), so, false)
  {
    ForwardedSnoc(before.sent, Resize(setup.resizeFrame(before.renderer, physical).1));
  }

  lemma MessageDelivers<R>(setup: Setup<R>, c: Client<R>, before: Client<R>, so: Scanned, message: ServerMsg)
    requires before.outcome.None? && Delivers(c, before, so, false)
    ensures Delivers(c, OnMessage(setup, before, message), so, false)
  {
  }

  lemma OthersDeliver<R>(setup: Setup<R>, c: Client<R>, before: Client<R>, so: Scanned, event: Event)
    requires before.outcome.None? && Delivers(c, before, so, false) && !event.Keys?
    ensures Delivers(c, React(setup, before, event), so, event.InputEof?)
  {
    match event
    case Message(message) => MessageDelivers(setup, c, before, so, message);
    case Resized(physical, writes) => ResizeDelivers(setup, c, before, so, physical, writes);
    case InputEof(_) => ForwardedSnoc(before.sent, DetachSession);
    case _ =>
  }

  lemma ConsumeAllSnoc(prefix: Byte, held: bool, chunks: seq<seq<Byte>>, chunk: seq<Byte>)
    requires !ConsumeAll(prefix, held, chunks).detached
    ensures var before := ConsumeAll(prefix, held, chunks);
      var next := Scan(prefix, Scanned([], before.held, false), chunk);
      ConsumeAll(prefix, held, chunks + [chunk]) == next.(bytes := before.bytes + next.bytes)
  {
    assert (chunks + [chunk])[..|chunks|] == chunks;
  }

  /**
   * Unless a write fails, the daemon gets what the detach key lets through of everything typed,
   * however it was split, and the client detaches when that says so or the input ends.
   */
  lemma {:induction false} TypedIsForwarded<R>(setup: Setup<R>, c: Client<R>, events: seq<Event>)
    requires c.outcome.None?
    ensures Delivers(c, Unbatched(setup, c, events), Scan(setup.prefix, Scanned([], c.held, false), Flatten(TakenKeys(setup, c, events))),
                     EofTaken(setup, c, events))
  {
    var chunks := TakenKeys(setup, c, events);
    ChunkingIsIrrelevant(setup.prefix, c.held, chunks);
    if events != [] {
      var init, last := events[..|events| - 1], events[|events| - 1];
      TypedIsForwarded(setup, c, init);
      var before := Unbatched(setup, c, init);
      var taken := TakenKeys(setup, c, init);
      ChunkingIsIrrelevant(setup.prefix, c.held, taken);
      var so := ConsumeAll(setup.prefix, c.held, taken);
      if before.outcome.None? {
        if last.Keys? {
          KeysDeliver(setup, c, before, so, last.bytes, last.writes);
          ConsumeAllSnoc(setup.prefix, c.held, taken, last.bytes);
        } else {
          OthersDeliver(setup, c, before, so, last);
        }
      }
    }
  }

  /** As long as the client stays, what it sent and what it holds back are what was typed. */
  lemma NothingTypedIsLost<R>(setup: Setup<R>, c: Client<R>, events: seq<Event>)
    requires c.outcome.None? && Unbatched(setup, c, events).outcome.None?
    ensures var u := Unbatched(setup, c, events);
      Forwarded(u.sent) + (if u.held then [setup.prefix] else []) ==
        Forwarded(c.sent) + Typed(setup.prefix, c.held, Flatten(TakenKeys(setup, c, events)))
  {
    TypedIsForwarded(setup, c, events);
    ScanMeans(setup.prefix, c.held, Flatten(TakenKeys(setup, c, events)));
  }

  // ---------------------------------------------------------------------- attaching, and attaching again

  datatype Reply = Attached(session: nat, bytes: seq<Byte>, end: nat) | Refused(text: string) | Unexpected | Lost

  /** One attachment on the transport: whether the request gets through, the reply, and what follows. */
  datatype Round = Round(asked: bool, reply: Reply, events: seq<Event>)

  /** The request names the position that the client has seen up to; the reply's bytes are drawn at once. */
  function Attach<R>(setup: Setup<R>, c: Client<R>, initial: bool, round: Round): Client<R> {
    var asking := Send(c.(resizeOpen := true, outcome := None), AttachSession(c.size, c.lastSeen), round.asked);
    if !round.asked then asking
    else
      match round.reply
      case Lost => asking.(outcome := Some(ConnectionLost))
      case Refused(text) => asking.(outcome := Some(DaemonError(text)))
      case Unexpected => asking.(outcome := Some(Failed))
      case Attached(session, bytes, end) =>
        if session != setup.session then asking.(outcome := Some(Failed))
        else
          var rendered := if initial then setup.initialFrame(c.renderer, bytes) else setup.outputFrame(c.renderer, bytes);
          asking.(renderer := rendered.0, terminal := c.terminal + rendered.1, lastSeen := Some(end))
  }

  function RunRound<R>(setup: Setup<R>, c: Client<R>, initial: bool, round: Round): Client<R> {
    Unbatched(setup, Attach(setup, c, initial, round), if Attach(setup, c, initial, round).outcome.Some? then [] else round.events)
  }

  function RunSession<R>(setup: Setup<R>, c: Client<R>, initial: bool, rounds: seq<Round>): Client<R>
    decreases |rounds|
  {
    if rounds == [] then c
    else
      var u := RunRound(setup, c, initial, rounds[0]);
      if u.outcome == Some(Lagged) then RunSession(setup, u, false, rounds[1..]) else u
  }

  // ---------------------------------------------------------------------- the loop itself

  /** The client's mutable state; the terminal takes every write. */
  class Attachment<R> {
    const setup: Setup<R>
    const detachState: DetachState
    var renderer: R
    var size: Size
    var lastSeen: Option<nat>
    var terminal: seq<Byte>
    var sent: seq<ClientMsg>

    constructor (setup: Setup<R>, renderer: R, size: Size)
      ensures fresh(detachState) && Valid()
      ensures this.setup == setup
      ensures Value(true, None) == Client(renderer, size, None, [], [], false, true, None)
    {
      this.setup := setup;
      detachState := new DetachState(setup.prefix);
      this.renderer := renderer;
      this.size := size;
      lastSeen, terminal, sent := None, [], [];
    }

    predicate Valid() {
      detachState.prefixByte == setup.prefix
    }

    ghost function Value(resizeOpen: bool, outcome: Option<Outcome>): Client<R>
      reads this, detachState
    {
      Client(renderer, size, lastSeen, terminal, sent, detachState.prefixHeld, resizeOpen, outcome)
    }

    /** The client as it will be once the buffer has been written. */
    ghost function Buffered(resizeOpen: bool, outcome: Option<Outcome>, pending: seq<Byte>): Client<R>
      reads this, detachState
    {
      Value(resizeOpen, outcome).(terminal := terminal + pending)
    }

    method WriteFrame(frame: seq<Byte>)
      modifies this`terminal
      ensures terminal == old(terminal) + frame
    {
      if frame != [] {
        terminal := terminal + frame;
      }
    }

    method WriteMessage(message: ClientMsg, ok: bool)
      modifies this`sent
      ensures sent == if ok then old(sent) + [message] else old(sent)
    {
      if ok {
        sent := sent + [message];
      }
    }

    /** Output is rendered into the buffer, and opens a batch. */
    method HandleServerMessage(message: ServerMsg, pending: seq<Byte>, open: bool)
      returns (pendingOutput: seq<Byte>, batchOpen: bool, outcome: Option<Outcome>)
      requires pending != [] ==> open
      modifies this`renderer, this`lastSeen
      ensures pendingOutput != [] ==> batchOpen
      ensures forall resize ::
        Buffered(resize, outcome, pendingOutput) == OnMessage(setup, old(Buffered(resize, None, pending)), message)
    {
      pendingOutput, batchOpen, outcome := pending, open, None;
      match message
      case Output(session, end, bytes) =>
        if session == setup.session {
          lastSeen := Some(end);
          var rendered := setup.outputFrame(renderer, bytes);
          renderer := rendered.0;
          pendingOutput := pendingOutput + rendered.1;
          batchOpen := true;
          assert terminal + pendingOutput == terminal + pending + rendered.1;
        }
      case Lag(session) =>
        if session == setup.session {
          outcome := Some(Lagged);
        }
      case Exited(session, code) =>
        if session == setup.session {
          outcome := Some(SessionExited(code));
        }
      case Error(text) => outcome := Some(DaemonError(text));
      case Other =>
    }

    method HandleKeys(bytes: seq<Byte>, writes: nat) returns (outcome: Option<Outcome>)
      requires Valid()
      modifies this`sent, detachState
      ensures forall resizeOpen :: Value(resizeOpen, outcome) == OnKeys(setup, old(Value(resizeOpen, None)), bytes, writes)
    {
      outcome := None;
      var left := writes;
      var forward, shouldDetach := detachState.Consume(bytes);
      if forward != [] {
        WriteMessage(Input(forward), left > 0);
        if left == 0 {
          return Some(Failed);
        }
        left := left - 1;
      }
      if shouldDetach {
        WriteMessage(DetachSession, left > 0);
        return if left > 0 then Some(Detached) else Some(Failed);
      }
    }

    method HandleResize(physical: Size, writes: nat) returns (outcome: Option<Outcome>)
      modifies this
      ensures forall resizeOpen :: Value(resizeOpen, outcome) == OnResize(setup, old(Value(resizeOpen, None)), physical, writes)
    {
      var rendered := setup.resizeFrame(renderer, physical);
      renderer, size := rendered.0, rendered.1;
      WriteFrame(rendered.2);
      WriteMessage(Resize(size), writes > 0);
      outcome := if writes > 0 then None else Some(Failed);
    }

    /** What ends a wait; only a message leaves anything in the buffer, and only if the loop goes on. */
    method Select(event: Event, open: bool)
      returns (pending: seq<Byte>, batchOpen: bool, resizeOpen: bool, outcome: Option<Outcome>)
      requires Valid()
      modifies this, detachState
      ensures (pending != [] ==> batchOpen) && (outcome.Some? || !event.Message? ==> pending == [] && !batchOpen)
      ensures Buffered(resizeOpen, outcome, pending) == React(setup, old(Value(open, None)), event)
    {
      pending, batchOpen, resizeOpen, outcome := [], false, open, None;
      match event
      case Message(message) =>
        assert terminal + pending == terminal;
        pending, batchOpen, outcome := HandleServerMessage(message, pending, batchOpen);
        assert Buffered(open, outcome, pending) == OnMessage(setup, old(Value(open, None)), message);
        if outcome.Some? {
          WriteFrame(pending);
          pending, batchOpen := [], false;
        }
      case ReadFailed => outcome := Some(ConnectionLost);
      case Idle =>
      case Keys(bytes, writes) => outcome := HandleKeys(bytes, writes);
      case InputEof(writes) =>
        WriteMessage(DetachSession, writes > 0);
        outcome := Some(Detached);
      case InputError => outcome := Some(Failed);
      case Resized(physical, writes) =>
        if resizeOpen {
          outcome := HandleResize(physical, writes);
        }
      case ResizeClosed => resizeOpen := false;
      assert pending == [] ==> terminal + pending == terminal;
    }

    /** What a reader that is ready gives while a batch is open. */
    method Poll(event: Event, pending: seq<Byte>, ghost resizeOpen: bool)
      returns (pendingOutput: seq<Byte>, batchOpen: bool, outcome: Option<Outcome>)
      requires event.Message? || event.ReadFailed?
      modifies this
      ensures (pendingOutput != [] ==> batchOpen) && (outcome.Some? ==> pendingOutput == [])
      ensures Buffered(resizeOpen, outcome, pendingOutput) == React(setup, old(Buffered(resizeOpen, None, pending)), event)
    {
      pendingOutput, batchOpen, outcome := pending, true, Some(ConnectionLost);
      if event.Message? {
        pendingOutput, batchOpen, outcome := HandleServerMessage(event.message, pending, true);
        assert Buffered(resizeOpen, outcome, pendingOutput) == OnMessage(setup, old(Buffered(resizeOpen, None, pending)), event.message);
      }
      if outcome.Some? {
        WriteFrame(pendingOutput);
        pendingOutput, batchOpen := [], false;
        assert terminal + pendingOutput == terminal;
      }
    }

    /** The same, for the next of a list of events. */
    method SelectNext(events: seq<Event>, i: nat, open: bool, ghost start: Client<R>)
      returns (pending: seq<Byte>, batchOpen: bool, resizeOpen: bool, outcome: Option<Outcome>)
      requires Valid() && i < |events| && Value(open, None) == Unbatched(setup, start, events[..i])
      modifies this, detachState
      ensures (pending != [] ==> batchOpen) && (outcome.Some? || !events[i].Message? ==> pending == [] && !batchOpen)
      ensures Buffered(resizeOpen, outcome, pending) == Unbatched(setup, start, events[..i + 1])
    {
      UnbatchedSnoc(setup, start, events, i);
      pending, batchOpen, resizeOpen, outcome := Select(events[i], open);
    }

    /** The wait, event by event, until a message, a return, or nothing more happens. */
    method Wait(events: seq<Event>, from: nat, open: bool, ghost start: Client<R>)
      returns (i: nat, pending: seq<Byte>, batchOpen: bool, resizeOpen: bool, outcome: Option<Outcome>)
      requires Valid() && from <= |events| && Value(open, None) == Unbatched(setup, start, events[..from])
      modifies this, detachState
      ensures from <= i <= |events| && (pending != [] ==> batchOpen) && (outcome.Some? ==> pending == [])
      ensures outcome.None? && (i == from || !events[i - 1].Message?) ==> i == |events| && pending == [] && !batchOpen
      ensures Buffered(resizeOpen, outcome, pending) == Unbatched(setup, start, events[..i])
    {
      i, pending, batchOpen, resizeOpen, outcome := from, [], false, open, None;
      while i < |events|
        invariant from <= i <= |events| && pending == [] && !batchOpen && outcome.None?
        invariant i == from || !events[i - 1].Message?
        invariant Value(resizeOpen, None) == Unbatched(setup, start, events[..i])
      {
        pending, batchOpen, resizeOpen, outcome := SelectNext(events, i, resizeOpen, start);
        i := i + 1;
        if outcome.Some? || events[i - 1].Message? {
          return;
        }
        assert terminal + pending == terminal;
      }
      assert terminal + pending == terminal;
    }

    /**
     * The loop with its buffer does to the terminal, the daemon and the client what handling each
     * event by itself does: the same frames in the same order, no resize frame before output that
     * came earlier, and nothing left in the buffer when it returns or waits.
     */
    method RunAttachedLoop(events: seq<Event>) returns (outcome: Option<Outcome>, ghost resizeLeft: bool)
      requires Valid()
      modifies this, detachState
      ensures Value(resizeLeft, outcome) == Unbatched(setup, old(Value(true, None)), events)
    {
      ghost var start := Value(true, None);
      var pending, batchOpen, resizeOpen, i := [], false, true, 0;
      outcome := None;
      assert terminal + pending == terminal;
      while outcome.None? && (batchOpen || i < |events|)
        invariant i <= |events| && (pending != [] ==> batchOpen && outcome.None?)
        invariant Buffered(resizeOpen, outcome, pending) == Unbatched(setup, start, events[..i])
        decreases |events| - i, batchOpen
      {
        if batchOpen && i < |events| && (events[i].Message? || events[i].ReadFailed?) {
          UnbatchedSnoc(setup, start, events, i);
          pending, batchOpen, outcome := Poll(events[i], pending, resizeOpen);
          i := i + 1;
        } else {
          if batchOpen {
            WriteFrame(pending);
            pending, batchOpen := [], false;
          }
          assert terminal + pending == terminal;
          i, pending, batchOpen, resizeOpen, outcome := Wait(events, i, resizeOpen, start);
        }
      }
      assert terminal + pending == terminal;
      assert events[..|events|] == events;
      resizeLeft := resizeOpen;
      if outcome.Some? {
        UnbatchedEnds(setup, start, events, i);
      }
    }

    /** The request, and what is drawn of the reply. */
    method RequestAttach(initial: bool, round: Round, ghost resizeLeft: bool, ghost last: Option<Outcome>)
      returns (outcome: Option<Outcome>)
      modifies this
      ensures Value(true, outcome) == Attach(setup, old(Value(resizeLeft, last)), initial, round)
    {
      WriteMessage(AttachSession(size, lastSeen), round.asked);
      if !round.asked {
        return Some(Failed);
      }
      match round.reply
      case Lost => outcome := Some(ConnectionLost);
      case Refused(text) => outcome := Some(DaemonError(text));
      case Unexpected => outcome := Some(Failed);
      case Attached(session, bytes, end) =>
        if session != setup.session {
          return Some(Failed);
        }
        var rendered := if initial then setup.initialFrame(renderer, bytes) else setup.outputFrame(renderer, bytes);
        renderer := rendered.0;
        WriteFrame(rendered.1);
        lastSeen := Some(end);
        outcome := None;
    }

    /** Attaching again after each lag, on the same transport, from the position reached. */
    method RunAttachSession(rounds: seq<Round>) returns (outcome: Option<Outcome>, ghost resizeLeft: bool)
      requires Valid()
      modifies this, detachState
      ensures Value(resizeLeft, outcome) == RunSession(setup, old(Value(true, None)), true, rounds)
    {
      ghost var start := Value(true, None);
      outcome, resizeLeft := None, true;
      for k := 0 to |rounds|
        invariant k > 0 ==> outcome == Some(Lagged)
        invariant RunSession(setup, start, true, rounds) == RunSession(setup, Value(resizeLeft, outcome), k == 0, rounds[k..])
      {
        ghost var before := Value(resizeLeft, outcome);
        assert rounds[k..][0] == rounds[k] && rounds[k..][1..] == rounds[k + 1..];
        outcome := RequestAttach(k == 0, rounds[k], resizeLeft, outcome);
        resizeLeft := true;
        assert Value(true, outcome) == Attach(setup, before, k == 0, rounds[k]);
        if outcome.Some? {
          return;
        }
        outcome, resizeLeft := RunAttachedLoop(rounds[k].events);
        if outcome != Some(Lagged) {
          return;
        }
      }
    }
  }
}
