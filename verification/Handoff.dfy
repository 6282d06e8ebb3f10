/**
 * The handoff protocol: one PTY thread pushing chunks into the ring and broadcasting
 * them later, and any number of client connections that subscribe, read the ring,
 * forward live chunks and reattach after a lag. Every lock section, channel operation
 * and delivery is one step; a run is any enabled sequence of steps.
 */
module Handoff {
  import opened Common
  import opened Ring

  /** `broadcast::channel(1024)`. */
  const BROADCAST_CAPACITY := 1024

  /** A message on a session's broadcast channel. */
  datatype Event = Output(seqNo: nat, bytes: seq<Byte>) | StateChanged | Exited

  /**
   * How the bytes of an attach reply were made. The client cannot see this: it is carried
   * along only to say what the reply meant.
   */
  datatype Origin =
    | Replayed                   // raw bytes from the client's own offset on
    | Snapshot                   // a rendered screen
    | Scrollback(start: nat)     // the raw window, starting at this offset

  /**
   * How a client comes to hear of the exit: from its forwarder or a session that the daemon itself
   * evicted; because the daemon noticed it straight after an attach reply, where `end` is where the
   * ring ended when that reply was drawn and `late` whether the session had exited by then; or from a
   * row that was loaded at a start, whose scrollback goes up to `end`. Clients do not see any of this.
   */
  datatype Report = Relayed | Noticed(end: nat, late: bool) | FromRow(end: nat)

  /** What the daemon writes to one client. */
  datatype Frame =
    | Attached(seqNo: nat, bytes: seq<Byte>, origin: Origin)
    | Live(seqNo: nat, bytes: seq<Byte>)
    | Lag
    | Notice
    | SessionExited(report: Report)

  datatype Phase =
    | Requested                            // an AttachSession is with the daemon
    | Subscribed(pos: nat)                 // broadcast receiver created at this log position
    | Replying(pos: nat, reply: Frame, report: Report)     // attach_bytes has returned
    | Forwarding(pos: nat, attachedSeq: nat)
    | Quiet                                // no forwarder is running

  /** `base` and `got` record what the client received since its last cold base. */
  datatype Client = Client(lastSeen: Option<nat>, base: nat, got: seq<Byte>, exit: Option<Report>)

  datatype Conn = Conn(phase: Phase, wire: seq<Frame>, client: Client)

  /** `Loaded(end)`: the daemon was started again and loaded a row of the stream up to `end`. */
  datatype Fate = Running | Ended | Evicted | Loaded(end: nat)

  /**
   * What all connections share: `stream` is everything the PTY produced so far, `pending` the
   * chunk that was pushed but not broadcast yet, `log` everything ever sent on the channel.
   */
  datatype Hub = Hub(
    capacity: nat, stream: seq<Byte>, win: Window, pending: Option<Event>,
    log: seq<Event>, fate: Fate)

  datatype State = State(hub: Hub, conns: map<nat, Conn>)

  function Initial(capacity: nat): State {
    State(Hub(capacity, [], Window(0, 0, []), None, [], Running), map[])
  }

  datatype Step =
    | Push(bytes: seq<Byte>)               // record_output, both locks held
    | Broadcast                            // record_output, the send
    | Notify                               // an agent state change
    | Exit                                 // mark_exited
    | Evict                                // the registry keeps only the stored session
    | Restart(stored: nat)                 // the daemon is started again, on a row captured at this length
    | Open(c: nat)                         // a client without history asks to attach
    | Subscribe(c: nat)
    | AttachBytes(c: nat, rendered: Option<seq<Byte>>)
    | Reply(c: nat)                        // write Attached, then spawn the forwarder or report the exit
    | ReplyStored(c: nat)                  // the restored-session reply
    | Forward(c: nat)                      // one turn of the forwarder
    | Deliver(c: nat)                      // the client handles one frame
    | Reconnect(c: nat)                    // transport lost; reattach with what the client has

  /** `output_was_replayed`. */
  predicate OutputWasReplayed(event: Event, attachedSeq: nat) {
    event.Output? && event.seqNo <= attachedSeq
  }

  /** `attach_bytes`: raw replay when the window still holds the client's offset, else a cold reply. */
  function AttachReply(win: Window, lastSeen: Option<nat>, rendered: Option<seq<Byte>>): Frame
    requires Consistent(win)
  {
    if lastSeen.Some? && Replay(win, lastSeen.value).Some? then
      var bytes := Replay(win, lastSeen.value).value;
      Attached(SaturatingAdd(lastSeen.value, |bytes|), bytes, Replayed)
    else match rendered
      case Some(screen) => Attached(win.next, screen, Snapshot)
      case None => Attached(win.next, win.data, Scrollback(win.start))
  }

  /** The reply made from a stored session. */
  function StoredReply(win: Window): Frame {
    Attached(SaturatingAdd(win.start, |win.data|), win.data, Scrollback(win.start))
  }

  function StoredReport(h: Hub): Report {
    if h.fate.Loaded? then FromRow(h.fate.end) else Relayed
  }

  /** The steps of the session itself. */
  predicate HubStep(step: Step) {
    step.Push? || step.Broadcast? || step.Notify? || step.Exit? || step.Evict?
  }

  predicate HubEnabled(h: Hub, step: Step) {
    && !h.fate.Loaded?
    && match step
       case Push(_) => h.pending.None? && h.fate.Running? && Consistent(h.win)
       case Broadcast => h.pending.Some?
       case Exit => h.pending.None? && h.fate.Running?
       case Evict => !h.fate.Running?
       case _ => true
  }

  function HubAfter(h: Hub, step: Step): Hub
    requires HubEnabled(h, step)
  {
    match step
    case Push(bytes) =>
      h.(stream := h.stream + bytes, win := Pushed(h.win, h.capacity, bytes),
         pending := Some(Output(SaturatingAdd(h.win.next, |bytes|), bytes)))
    case Broadcast => h.(log := h.log + [h.pending.value], pending := None)
    case Notify => h.(log := h.log + [StateChanged])
    case Exit => h.(log := h.log + [Exited], fate := Ended)
    case Evict => h.(fate := Evicted)
    case _ => h
  }

  /** A row is captured at one instant, at the latest when the daemon ends; what came later is lost. */
  predicate RestartEnabled(h: Hub, stored: nat) {
    stored <= |h.stream| && (h.fate.Loaded? ==> stored == h.fate.end)
  }

  /** Nothing of the session is left but its row. */
  function Reloaded(h: Hub, stored: nat): Hub
    requires RestartEnabled(h, stored)
  {
    h.(win := WindowOf(h.stream[..stored], h.capacity), pending := None, fate := Loaded(stored))
  }

  /** What is written for one live event: nothing for a chunk that the attach reply covers. */
  function Relay(event: Event, attachedSeq: nat): seq<Frame> {
    if OutputWasReplayed(event, attachedSeq) then []
    else match event
      case Output(seqNo, bytes) => [Live(seqNo, bytes)]
      case StateChanged => [Notice]
      case Exited => [SessionExited(Relayed)]
  }

  /** One turn of `forward_attached_events`. */
  function Forwarded(h: Hub, conn: Conn): Conn
    requires conn.phase.Forwarding? && conn.phase.pos < |h.log|
  {
    var Forwarding(pos, attachedSeq) := conn.phase;
    if |h.log| - pos > BROADCAST_CAPACITY then
      conn.(phase := Quiet, wire := conn.wire + [Lag])
    else
      conn.(phase := Forwarding(pos + 1, attachedSeq), wire := conn.wire + Relay(h.log[pos], attachedSeq))
  }

  /** The client's handling of one frame. */
  function Received(client: Client, frame: Frame): Client {
    match frame
    case Attached(seqNo, bytes, origin) =>
      var heard := client.(lastSeen := Some(seqNo));
      (match origin
       case Replayed => heard.(got := client.got + bytes)
       case Snapshot => heard.(base := seqNo, got := [])
       case Scrollback(start) => heard.(base := start, got := bytes))
    case Live(seqNo, bytes) => client.(lastSeen := Some(seqNo), got := client.got + bytes)
    case SessionExited(report) => client.(exit := Some(report))
    case _ => client
  }

  predicate ConnEnabled(s: State, step: Step)
    requires !HubStep(step) && !step.Restart?
  {
    if step.Open? then step.c !in s.conns
    else
      && step.c in s.conns
      && var conn := s.conns[step.c];
         match step
         case Subscribe(_) => conn.phase.Requested? && !s.hub.fate.Loaded?
         case AttachBytes(_, _) => conn.phase.Subscribed? && Consistent(s.hub.win)
         case Reply(_) => conn.phase.Replying? && conn.phase.reply.Attached?
         case ReplyStored(_) => conn.phase.Requested? && (s.hub.fate.Evicted? || s.hub.fate.Loaded?)
         case Forward(_) => conn.phase.Forwarding? && conn.phase.pos < |s.hub.log|
         case Deliver(_) => conn.wire != [] && conn.client.exit.None?
         case _ => conn.client.exit.None?
  }

  function ConnAfter(s: State, step: Step): Conn
    requires !HubStep(step) && !step.Restart? && ConnEnabled(s, step)
  {
    if step.Open? then Conn(Requested, [], Client(None, 0, [], None))
    else
      var conn := s.conns[step.c];
      match step
      case Subscribe(_) => conn.(phase := Subscribed(|s.hub.log|))
      case AttachBytes(_, rendered) =>
        conn.(phase := Replying(conn.phase.pos, AttachReply(s.hub.win, conn.client.lastSeen, rendered),
                                Noticed(s.hub.win.next, !s.hub.fate.Running?)))
      case Reply(_) =>
        var Replying(pos, reply, report) := conn.phase;
        if !s.hub.fate.Running? then Conn(Quiet, conn.wire + [reply] + [SessionExited(report)], conn.client)
        else Conn(Forwarding(pos, reply.seqNo), conn.wire + [reply], conn.client)
      case ReplyStored(_) =>
        Conn(Quiet, conn.wire + [StoredReply(s.hub.win)] + [SessionExited(StoredReport(s.hub))], conn.client)
      case Forward(_) => Forwarded(s.hub, conn)
      case Deliver(_) =>
        Conn(if conn.wire[0].Lag? then Requested else conn.phase, conn.wire[1..],
             Received(conn.client, conn.wire[0]))
      case _ => conn.(phase := Requested, wire := [])
  }

  predicate Enabled(s: State, step: Step) {
    if HubStep(step) then HubEnabled(s.hub, step)
    else if step.Restart? then RestartEnabled(s.hub, step.stored)
    else ConnEnabled(s, step)
  }

  /** At a restart every forwarder is gone; what was written before may still arrive. */
  function Apply(s: State, step: Step): State
    requires Enabled(s, step)
  {
    if HubStep(step) then s.(hub := HubAfter(s.hub, step))
    else if step.Restart? then
      State(Reloaded(s.hub, step.stored), map c | c in s.conns :: s.conns[c].(phase := Quiet))
    else s.(conns := s.conns[step.c := ConnAfter(s, step)])
  }

  /** The state after a run, if every step of it was enabled. */
  function Run(capacity: nat, steps: seq<Step>): Option<State> {
    if steps == [] then Some(Initial(capacity))
    else
      var before := Run(capacity, steps[..|steps| - 1]);
      var last := steps[|steps| - 1];
      if before.Some? && Enabled(before.value, last) then Some(Apply(before.value, last)) else None
  }

  // ---------------------------------------------------------------- invariant

  /** The offset up to which the first `i` log entries carry the stream. */
  ghost function EndAfter(log: seq<Event>, i: nat): nat
    requires i <= |log|
  {
    if i == 0 then 0
    else if log[i - 1].Output? then log[i - 1].seqNo
    else EndAfter(log, i - 1)
  }

  lemma {:induction false} EndAfterAppend(log: seq<Event>, event: Event, i: nat)
    requires i <= |log|
    ensures EndAfter(log + [event], i) == EndAfter(log, i)
  {
    if i > 0 {
      EndAfterAppend(log, event, i - 1);
    }
  }

  ghost predicate CarriesFrom(stream: seq<Byte>, start: nat, event: Event) {
    event.Output? ==>
      start + |event.bytes| == event.seqNo <= |stream| && event.bytes == stream[start..event.seqNo]
  }

  ghost predicate EntryOk(h: Hub, i: nat)
    requires i < |h.log|
  {
    && CarriesFrom(h.stream, EndAfter(h.log, i), h.log[i])
    && (h.log[i].Exited? ==> !h.fate.Running? && EndAfter(h.log, i) == |h.stream|)
  }

  /** The pending chunk ends the stream; without one, the log does. */
  ghost predicate PendingOk(h: Hub) {
    match h.pending
    case None => EndAfter(h.log, |h.log|) == |h.stream|
    case Some(event) =>
      event.Output? && h.fate.Running? && CarriesFrom(h.stream, EndAfter(h.log, |h.log|), event) && event.seqNo == |h.stream|
  }

  /** The log, followed by the pending chunk, spells out the stream exactly once. */
  ghost predicate LogOk(h: Hub) {
    (forall i: nat :: i < |h.log| ==> EntryOk(h, i)) && PendingOk(h)
  }

  ghost predicate HubOk(h: Hub) {
    if h.fate.Loaded? then h.fate.end <= |h.stream| && h.win == WindowOf(h.stream[..h.fate.end], h.capacity)
    else h.win == WindowOf(h.stream, h.capacity) && LogOk(h)
  }

  /** A chunk that starts at `start` does not have `offset` strictly inside it. */
  ghost predicate Uncut(event: Event, start: nat, offset: nat) {
    event.Output? ==> event.seqNo <= offset || start >= offset
  }

  ghost predicate EntryUncut(h: Hub, i: nat, offset: nat)
    requires i < |h.log|
  {
    Uncut(h.log[i], EndAfter(h.log, i), offset)
  }

  /** `offset` does not cut through a chunk. */
  ghost predicate Boundary(h: Hub, offset: nat) {
    && offset <= |h.stream|
    && (forall i: nat :: i < |h.log| ==> EntryUncut(h, i, offset))
    && (h.pending.Some? ==> Uncut(h.pending.value, EndAfter(h.log, |h.log|), offset))
  }

  /** What a report of the exit says of a client that has seen everything up to `last`. */
  ghost predicate ReportOk(stream: seq<Byte>, fate: Fate, last: Option<nat>, report: Report) {
    match report
    case Relayed => !fate.Running? && last == Some(|stream|)
    case Noticed(end, late) => !fate.Running? && last == Some(end) && end <= |stream| && (late ==> end == |stream|)
    case FromRow(end) => fate == Loaded(end) && last == Some(end) && end <= |stream|
  }

  ghost predicate ClientOk(stream: seq<Byte>, fate: Fate, client: Client) {
    && (client.lastSeen.Some? ==>
          client.base <= client.lastSeen.value <= |stream| && client.got == stream[client.base..client.lastSeen.value])
    && (client.exit.Some? ==> ReportOk(stream, fate, client.lastSeen, client.exit.value))
  }

  /** A frame is right for a client that has seen everything up to `last`. */
  ghost predicate FrameOk(stream: seq<Byte>, fate: Fate, last: Option<nat>, frame: Frame) {
    match frame
    case Attached(seqNo, bytes, Replayed) =>
      last.Some? && last.value <= seqNo <= |stream| && bytes == stream[last.value..seqNo]
    case Attached(seqNo, bytes, Snapshot) => seqNo <= |stream|
    case Attached(seqNo, bytes, Scrollback(start)) => start <= seqNo <= |stream| && bytes == stream[start..seqNo]
    case Live(seqNo, bytes) => last.Some? && last.value <= seqNo <= |stream| && bytes == stream[last.value..seqNo]
    case SessionExited(report) => ReportOk(stream, fate, last, report)
    case _ => true
  }

  ghost function SeenAfter(last: Option<nat>, frame: Frame): Option<nat> {
    if frame.Attached? || frame.Live? then Some(frame.seqNo) else last
  }

  /** The frames on the wire continue each other, taking a client from `last` to `end`. */
  ghost predicate Chain(stream: seq<Byte>, fate: Fate, last: Option<nat>, wire: seq<Frame>, end: Option<nat>)
    decreases |wire|
  {
    if wire == [] then last == end
    else FrameOk(stream, fate, last, wire[0]) && Chain(stream, fate, SeenAfter(last, wire[0]), wire[1..], end)
  }

  ghost predicate NoLag(wire: seq<Frame>) {
    forall i :: 0 <= i < |wire| ==> !wire[i].Lag?
  }

  ghost predicate PhaseOk(h: Hub, last: Option<nat>, wire: seq<Frame>, phase: Phase) {
    match phase
    case Requested => wire == []
    case Subscribed(pos) => !h.fate.Loaded? && wire == [] && pos <= |h.log|
    case Replying(pos, reply, report) =>
      && !h.fate.Loaded? && wire == [] && pos <= |h.log| && reply.Attached?
      && report.Noticed? && report.end == reply.seqNo && (report.late ==> !h.fate.Running? && report.end == |h.stream|)
      && FrameOk(h.stream, h.fate, last, reply)
      && Boundary(h, reply.seqNo) && EndAfter(h.log, pos) <= reply.seqNo
    case Forwarding(pos, attachedSeq) =>
      && !h.fate.Loaded? && pos <= |h.log| && Boundary(h, attachedSeq) && NoLag(wire)
      && Chain(h.stream, h.fate, last, wire, Some(Max(attachedSeq, EndAfter(h.log, pos))))
    case Quiet =>
      && (exists end :: Chain(h.stream, h.fate, last, wire, end))
      && (forall i :: 0 <= i < |wire| && wire[i].Lag? ==> i == |wire| - 1)
  }

  ghost predicate ConnOk(h: Hub, conn: Conn) {
    && ClientOk(h.stream, h.fate, conn.client)
    && PhaseOk(h, conn.client.lastSeen, conn.wire, conn.phase)
  }

  ghost predicate Inv(s: State) {
    && Consistent(s.hub.win)
    && (|s.hub.stream| <= U64_MAX ==> HubOk(s.hub) && forall c :: c in s.conns ==> ConnOk(s.hub, s.conns[c]))
  }

  // ------------------------------------------------------------------- the wire

  lemma {:induction false} ChainAppend(h: Hub, last: Option<nat>, wire: seq<Frame>, mid: Option<nat>, frame: Frame)
    requires Chain(h.stream, h.fate, last, wire, mid) && FrameOk(h.stream, h.fate, mid, frame)
    ensures Chain(h.stream, h.fate, last, wire + [frame], SeenAfter(mid, frame))
    decreases |wire|
  {
    if wire == [] {
      assert ([] + [frame])[1..] == [];
    } else {
      ChainAppend(h, SeenAfter(last, wire[0]), wire[1..], mid, frame);
      assert (wire + [frame])[1..] == wire[1..] + [frame];
    }
  }

  /** What the session's own steps may do to the hub. */
  ghost predicate Grows(h: Hub, g: Hub) {
    && h.stream <= g.stream && (!h.fate.Running? ==> !g.fate.Running? && g.stream == h.stream)
    && (h.fate.Loaded? ==> g.fate == h.fate)
    && h.log <= g.log
    && (forall i: nat :: i <= |h.log| ==> EndAfter(g.log, i) == EndAfter(h.log, i))
  }

  lemma FrameGrows(h: Hub, g: Hub, last: Option<nat>, frame: Frame)
    requires Grows(h, g) && FrameOk(h.stream, h.fate, last, frame)
    ensures FrameOk(g.stream, g.fate, last, frame)
  {
    assert forall a, b :: 0 <= a <= b <= |h.stream| ==> g.stream[a..b] == h.stream[a..b];
  }

  lemma {:induction false} ChainGrows(h: Hub, g: Hub, last: Option<nat>, wire: seq<Frame>, end: Option<nat>)
    requires Grows(h, g) && Chain(h.stream, h.fate, last, wire, end)
    ensures Chain(g.stream, g.fate, last, wire, end)
    decreases |wire|
  {
    if wire != [] {
      FrameGrows(h, g, last, wire[0]);
      ChainGrows(h, g, SeenAfter(last, wire[0]), wire[1..], end);
    }
  }

  lemma ConnGrows(h: Hub, g: Hub, conn: Conn)
    requires Grows(h, g) && ConnOk(h, conn) && !g.fate.Loaded?
    requires forall offset :: Boundary(h, offset) ==> Boundary(g, offset)
    ensures ConnOk(g, conn)
  {
    var last := conn.client.lastSeen;
    if last.Some? {
      assert g.stream[conn.client.base..last.value] == h.stream[conn.client.base..last.value];
    }
    match conn.phase {
      case Requested =>
      case Subscribed(pos) =>
      case Replying(pos, reply, _) => FrameGrows(h, g, last, reply);
      case Forwarding(pos, attachedSeq) =>
        ChainGrows(h, g, last, conn.wire, Some(Max(attachedSeq, EndAfter(h.log, pos))));
      case Quiet =>
        var end :| Chain(h.stream, h.fate, last, conn.wire, end);
        ChainGrows(h, g, last, conn.wire, end);
    }
  }

  // -------------------------------------------------------- the session's steps

  lemma HubGrows(h: Hub, step: Step)
    requires HubStep(step) && HubEnabled(h, step) && HubOk(h)
    requires |HubAfter(h, step).stream| <= U64_MAX
    ensures Grows(h, HubAfter(h, step))
  {
    var g := HubAfter(h, step);
    if g.log != h.log {
      forall i: nat | i <= |h.log| ensures EndAfter(g.log, i) == EndAfter(h.log, i) {
        EndAfterAppend(h.log, g.log[|h.log|], i);
      }
    }
  }

  lemma WindowKeeps(h: Hub, step: Step)
    requires HubStep(step) && HubEnabled(h, step) && h.win == WindowOf(h.stream, h.capacity)
    ensures HubAfter(h, step).win == WindowOf(HubAfter(h, step).stream, h.capacity)
  {
    if step.Push? {
      PushedExtendsStream(h.stream, h.capacity, step.bytes);
    }
  }

  lemma EntryGrows(h: Hub, g: Hub, i: nat)
    requires Grows(h, g) && i < |h.log| && EntryOk(h, i)
    ensures EntryOk(g, i)
  {
    if h.log[i].Output? {
      assert g.stream[EndAfter(h.log, i)..h.log[i].seqNo] == h.stream[EndAfter(h.log, i)..h.log[i].seqNo];
    }
  }

  /** The entry that a step appends continues where the log ended. */
  lemma NewEntryOk(h: Hub, step: Step)
    requires HubStep(step) && HubEnabled(h, step) && PendingOk(h) && |HubAfter(h, step).log| > |h.log|
    ensures EntryOk(HubAfter(h, step), |h.log|)
  {
    EndAfterAppend(h.log, HubAfter(h, step).log[|h.log|], |h.log|);
  }

  lemma PendingKeeps(h: Hub, step: Step)
    requires HubStep(step) && HubEnabled(h, step) && PendingOk(h) && h.win == WindowOf(h.stream, h.capacity)
    requires |HubAfter(h, step).stream| <= U64_MAX
    ensures PendingOk(HubAfter(h, step))
  {
    var g := HubAfter(h, step);
    if g.log != h.log {
      EndAfterAppend(h.log, g.log[|h.log|], |h.log|);
    }
    if step.Push? {
      assert g.stream[|h.stream|..] == step.bytes;
    }
  }

  /** Pushing, broadcasting, exiting: the log keeps spelling out the stream. */
  lemma LogKeeps(h: Hub, step: Step)
    requires HubStep(step) && HubEnabled(h, step) && HubOk(h)
    requires |HubAfter(h, step).stream| <= U64_MAX
    ensures LogOk(HubAfter(h, step))
  {
    var g := HubAfter(h, step);
    HubGrows(h, step);
    PendingKeeps(h, step);
    forall i: nat | i < |g.log| ensures EntryOk(g, i) {
      if i < |h.log| {
        EntryGrows(h, g, i);
      } else {
        NewEntryOk(h, step);
      }
    }
  }

  /** Entries already in the log are cut no more than before. */
  lemma LoggedUncut(h: Hub, step: Step, offset: nat, i: nat)
    requires HubStep(step) && HubEnabled(h, step) && Boundary(h, offset) && i < |h.log|
    ensures EntryUncut(HubAfter(h, step), i, offset)
  {
    var g := HubAfter(h, step);
    assert EntryUncut(h, i, offset);
    if g.log != h.log {
      EndAfterAppend(h.log, g.log[|h.log|], i);
    }
  }

  /** No step of the session cuts through an old chunk boundary. */
  lemma BoundaryKeeps(h: Hub, step: Step, offset: nat)
    requires HubStep(step) && HubEnabled(h, step) && PendingOk(h) && Boundary(h, offset)
    requires |HubAfter(h, step).stream| <= U64_MAX
    ensures Boundary(HubAfter(h, step), offset)
  {
    var g := HubAfter(h, step);
    if g.log != h.log {
      EndAfterAppend(h.log, g.log[|h.log|], |h.log|);
    }
    forall i: nat | i < |g.log| ensures EntryUncut(g, i, offset) {
      if i < |h.log| {
        LoggedUncut(h, step, offset, i);
      }
    }
  }

  // -------------------------------------------------------- a connection's steps

  lemma {:induction false} EndsBelow(h: Hub, i: nat)
    requires LogOk(h) && i <= |h.log|
    ensures EndAfter(h.log, i) <= |h.stream|
  {
    if i > 0 {
      assert EntryOk(h, i - 1);
      EndsBelow(h, i - 1);
    }
  }

  /** The ring's end is a chunk boundary, so every attach reply ends on one. */
  lemma EndIsBoundary(h: Hub)
    requires LogOk(h)
    ensures Boundary(h, |h.stream|)
  {
    forall i: nat | i < |h.log| ensures EntryUncut(h, i, |h.stream|) {
      assert EntryOk(h, i);
    }
  }

  /** Replay, snapshot or scrollback: an attach reply ends at the ring's end and fits the client. */
  lemma AttachReplyFits(h: Hub, last: Option<nat>, rendered: Option<seq<Byte>>)
    requires h.win == WindowOf(h.stream, h.capacity) && |h.stream| <= U64_MAX
    ensures
      var reply := AttachReply(h.win, last, rendered);
      reply.Attached? && reply.seqNo == |h.stream| && FrameOk(h.stream, h.fate, last, reply)
  {
  }

  /** So does the reply from a stored session, and its report is right, whether or not a start came between. */
  lemma StoredReplyFits(h: Hub, last: Option<nat>)
    requires HubOk(h) && (h.fate.Evicted? || h.fate.Loaded?) && |h.stream| <= U64_MAX
    ensures
      var reply := StoredReply(h.win);
      FrameOk(h.stream, h.fate, last, reply) && ReportOk(h.stream, h.fate, Some(reply.seqNo), StoredReport(h))
  {
    if h.fate.Loaded? {
      var kept, start := h.stream[..h.fate.end], h.win.start;
      assert h.win.data == kept[start..] == h.stream[start..h.fate.end];
    }
  }

  lemma AttachKeeps(h: Hub, conn: Conn, rendered: Option<seq<Byte>>)
    requires HubOk(h) && ConnOk(h, conn) && conn.phase.Subscribed? && |h.stream| <= U64_MAX
    ensures PhaseOk(h, conn.client.lastSeen, conn.wire,
                    Replying(conn.phase.pos, AttachReply(h.win, conn.client.lastSeen, rendered), Noticed(h.win.next, !h.fate.Running?)))
  {
    AttachReplyFits(h, conn.client.lastSeen, rendered);
    EndIsBoundary(h);
    EndsBelow(h, conn.phase.pos);
  }

  lemma ReplyKeeps(h: Hub, conn: Conn, reply: Frame)
    requires conn.wire == [] && FrameOk(h.stream, h.fate, conn.client.lastSeen, reply) && reply.Attached?
    ensures Chain(h.stream, h.fate, conn.client.lastSeen, conn.wire + [reply], Some(reply.seqNo))
    ensures forall report :: ReportOk(h.stream, h.fate, Some(reply.seqNo), report) ==>
      Chain(h.stream, h.fate, conn.client.lastSeen, conn.wire + [reply] + [SessionExited(report)], Some(reply.seqNo))
  {
    ChainAppend(h, conn.client.lastSeen, conn.wire, conn.client.lastSeen, reply);
    forall report | ReportOk(h.stream, h.fate, Some(reply.seqNo), report)
      ensures Chain(h.stream, h.fate, conn.client.lastSeen, conn.wire + [reply] + [SessionExited(report)], Some(reply.seqNo))
    {
      ChainAppend(h, conn.client.lastSeen, conn.wire + [reply], Some(reply.seqNo), SessionExited(report));
    }
  }

  /** What a live chunk that the reply does not cover is for a client at the position reached. */
  lemma LiveFits(h: Hub, pos: nat, attachedSeq: nat)
    requires pos < |h.log| && EntryOk(h, pos) && EntryUncut(h, pos, attachedSeq)
    requires !OutputWasReplayed(h.log[pos], attachedSeq) && attachedSeq <= |h.stream|
    ensures var mid, frame := Some(Max(attachedSeq, EndAfter(h.log, pos))), Relay(h.log[pos], attachedSeq)[0];
      FrameOk(h.stream, h.fate, mid, frame) && SeenAfter(mid, frame) == Some(Max(attachedSeq, EndAfter(h.log, pos + 1)))
  {
  }

  lemma ForwardChain(h: Hub, last: Option<nat>, wire: seq<Frame>, pos: nat, attachedSeq: nat)
    requires pos < |h.log| && EntryOk(h, pos) && EntryUncut(h, pos, attachedSeq)
    requires attachedSeq <= |h.stream| && Chain(h.stream, h.fate, last, wire, Some(Max(attachedSeq, EndAfter(h.log, pos))))
    ensures Chain(h.stream, h.fate, last, wire + Relay(h.log[pos], attachedSeq), Some(Max(attachedSeq, EndAfter(h.log, pos + 1))))
  {
    var relayed := Relay(h.log[pos], attachedSeq);
    if relayed == [] {
      assert wire + relayed == wire;
    } else {
      LiveFits(h, pos, attachedSeq);
      ChainAppend(h, last, wire, Some(Max(attachedSeq, EndAfter(h.log, pos))), relayed[0]);
      assert relayed == [relayed[0]];
    }
  }

  lemma LagEnds(h: Hub, last: Option<nat>, wire: seq<Frame>, mid: Option<nat>)
    requires Chain(h.stream, h.fate, last, wire, mid) && NoLag(wire)
    ensures PhaseOk(h, last, wire + [Lag], Quiet)
  {
    ChainAppend(h, last, wire, mid, Lag);
  }

  lemma RelayHasNoLag(wire: seq<Frame>, event: Event, attachedSeq: nat)
    requires NoLag(wire)
    ensures NoLag(wire + Relay(event, attachedSeq))
  {
  }

  lemma RelayKeeps(h: Hub, last: Option<nat>, wire: seq<Frame>, pos: nat, attachedSeq: nat)
    requires pos < |h.log| && EntryOk(h, pos) && PhaseOk(h, last, wire, Forwarding(pos, attachedSeq))
    ensures PhaseOk(h, last, wire + Relay(h.log[pos], attachedSeq), Forwarding(pos + 1, attachedSeq))
  {
    assert EntryUncut(h, pos, attachedSeq);
    ForwardChain(h, last, wire, pos, attachedSeq);
    RelayHasNoLag(wire, h.log[pos], attachedSeq);
  }

  /** The heart of the handoff: a live chunk is wholly covered by the reply or starts where the client stands. */
  lemma ForwardKeeps(h: Hub, conn: Conn)
    requires conn.phase.Forwarding? && conn.phase.pos < |h.log| && EntryOk(h, conn.phase.pos) && ConnOk(h, conn)
    ensures ConnOk(h, Forwarded(h, conn))
  {
    var Forwarding(pos, attachedSeq) := conn.phase;
    if |h.log| - pos > BROADCAST_CAPACITY {
      LagEnds(h, conn.client.lastSeen, conn.wire, Some(Max(attachedSeq, EndAfter(h.log, pos))));
    } else {
      RelayKeeps(h, conn.client.lastSeen, conn.wire, pos, attachedSeq);
    }
  }

  lemma DeliverKeeps(h: Hub, conn: Conn)
    requires ConnOk(h, conn) && conn.wire != [] && conn.client.exit.None?
    ensures ConnOk(h, Conn(if conn.wire[0].Lag? then Requested else conn.phase, conn.wire[1..],
                           Received(conn.client, conn.wire[0])))
  {
    var client, frame := conn.client, conn.wire[0];
    assert FrameOk(h.stream, h.fate, client.lastSeen, frame);
    if frame.Live? || (frame.Attached? && frame.origin.Replayed?) {
      assert h.stream[client.base..client.lastSeen.value] + h.stream[client.lastSeen.value..frame.seqNo]
          == h.stream[client.base..frame.seqNo];
    }
    assert SeenAfter(client.lastSeen, frame) == Received(client, frame).lastSeen;
    if conn.phase.Quiet? {
      var end :| Chain(h.stream, h.fate, client.lastSeen, conn.wire, end);
      assert Chain(h.stream, h.fate, SeenAfter(client.lastSeen, frame), conn.wire[1..], end);
    }
  }

  lemma ConnKeeps(s: State, step: Step)
    requires Inv(s) && !HubStep(step) && !step.Restart? && ConnEnabled(s, step) && |s.hub.stream| <= U64_MAX
    ensures ConnOk(s.hub, ConnAfter(s, step))
  {
    if !step.Open? {
      var conn := s.conns[step.c];
      match step {
        case AttachBytes(_, rendered) => AttachKeeps(s.hub, conn, rendered);
        case Reply(_) => ReplyKeeps(s.hub, conn, conn.phase.reply);
        case ReplyStored(_) =>
          StoredReplyFits(s.hub, conn.client.lastSeen);
          ReplyKeeps(s.hub, conn, StoredReply(s.hub.win));
        case Forward(_) =>
          assert EntryOk(s.hub, conn.phase.pos);
          ForwardKeeps(s.hub, conn);
        case Deliver(_) => DeliverKeeps(s.hub, conn);
        case _ =>
      }
    }
  }

  /** What was written to a client before a restart is still right. */
  lemma RestartConn(h: Hub, stored: nat, conn: Conn)
    requires RestartEnabled(h, stored) && ConnOk(h, conn)
    ensures ConnOk(Reloaded(h, stored), conn.(phase := Quiet))
  {
    var g, last := Reloaded(h, stored), conn.client.lastSeen;
    assert Grows(h, g);
    match conn.phase {
      case Forwarding(pos, attachedSeq) =>
        ChainGrows(h, g, last, conn.wire, Some(Max(attachedSeq, EndAfter(h.log, pos))));
      case Quiet =>
        var end :| Chain(h.stream, h.fate, last, conn.wire, end);
        ChainGrows(h, g, last, conn.wire, end);
      case _ =>
        assert Chain(g.stream, g.fate, last, conn.wire, last);
    }
  }

  lemma RestartKeeps(s: State, stored: nat)
    requires Inv(s) && RestartEnabled(s.hub, stored)
    ensures Inv(Apply(s, Restart(stored)))
  {
    if |s.hub.stream| <= U64_MAX {
      forall c | c in s.conns ensures ConnOk(Reloaded(s.hub, stored), s.conns[c].(phase := Quiet)) {
        RestartConn(s.hub, stored, s.conns[c]);
      }
    }
  }

  lemma StepKeeps(s: State, step: Step)
    requires Inv(s) && Enabled(s, step)
    ensures Inv(Apply(s, step))
  {
    var t := Apply(s, step);
    if step.Restart? {
      RestartKeeps(s, step.stored);
    } else if |t.hub.stream| <= U64_MAX {
      if HubStep(step) {
        HubGrows(s.hub, step);
        WindowKeeps(s.hub, step);
        LogKeeps(s.hub, step);
        forall offset | Boundary(s.hub, offset) ensures Boundary(t.hub, offset) {
          BoundaryKeeps(s.hub, step, offset);
        }
        forall c | c in t.conns ensures ConnOk(t.hub, t.conns[c]) {
          ConnGrows(s.hub, t.hub, s.conns[c]);
        }
      } else {
        ConnKeeps(s, step);
      }
    }
  }

  lemma {:induction false} RunKeeps(capacity: nat, steps: seq<Step>)
    requires Run(capacity, steps).Some?
    ensures Inv(Run(capacity, steps).value)
  {
    if steps != [] {
      RunKeeps(capacity, steps[..|steps| - 1]);
      StepKeeps(Run(capacity, steps[..|steps| - 1]).value, steps[|steps| - 1]);
    }
  }

  // ------------------------------------------------------------------- theorems

  /**
   * Exactly-once handoff. In every interleaving, with fewer than 2^64 bytes produced, what
   * any client received since its last cold base is the PTY stream from that base to the
   * offset it remembers: no gap, no duplicate, no reordering.
   */
  lemma ExactlyOnce(capacity: nat, steps: seq<Step>, c: nat)
    requires Run(capacity, steps).Some? && c in Run(capacity, steps).value.conns
    requires |Run(capacity, steps).value.hub.stream| <= U64_MAX
    ensures
      var s := Run(capacity, steps).value;
      var client := s.conns[c].client;
      client.lastSeen.Some? ==>
        && client.base <= client.lastSeen.value <= |s.hub.stream|
        && client.got == s.hub.stream[client.base..client.lastSeen.value]
  {
    RunKeeps(capacity, steps);
  }

  /** A client that learns of the exit from its forwarder, or from a session that this daemon evicted, has every byte. */
  lemma RelayedExitIsComplete(capacity: nat, steps: seq<Step>, c: nat)
    requires Run(capacity, steps).Some? && c in Run(capacity, steps).value.conns
    requires |Run(capacity, steps).value.hub.stream| <= U64_MAX
    requires Run(capacity, steps).value.conns[c].client.exit == Some(Relayed)
    ensures Run(capacity, steps).value.conns[c].client.lastSeen == Some(|Run(capacity, steps).value.hub.stream|)
    ensures !Run(capacity, steps).value.hub.fate.Running?
  {
    RunKeeps(capacity, steps);
  }

  lemma RunOn(capacity: nat, steps: seq<Step>, s: State, step: Step)
    requires Run(capacity, steps) == Some(s) && Enabled(s, step)
    ensures Run(capacity, steps + [step]) == Some(Apply(s, step))
  {
    assert (steps + [step])[..|steps|] == steps;
  }

  /** A client attaches to an empty session, and only then is a byte pushed, broadcast and the exit marked. */
  function LateByte(): seq<Step> {
    [Open(0)] + [Subscribe(0)] + [AttachBytes(0, Some([]))] + [Push([7])] + [Broadcast] + [Exit]
  }

  lemma LateByteState()
    ensures
      var end := Run(8, LateByte());
      && end.Some? && |end.value.hub.stream| == 1 && end.value.hub.fate.Ended?
      && end.value.conns == map[0 := Conn(Replying(0, Attached(0, [], Snapshot), Noticed(0, false)), [], Client(None, 0, [], None))]
  {
    var s := Initial(8);
    assert [] + [Open(0)] == [Open(0)];
    RunOn(8, [], s, Open(0));
    s := Apply(s, Open(0));
    RunOn(8, [Open(0)], s, Subscribe(0));
    s := Apply(s, Subscribe(0));
    var steps := [Open(0)] + [Subscribe(0)];
    RunOn(8, steps, s, AttachBytes(0, Some([])));
    s := Apply(s, AttachBytes(0, Some([])));
    steps := steps + [AttachBytes(0, Some([]))];
    RunOn(8, steps, s, Push([7]));
    s := Apply(s, Push([7]));
    RunOn(8, steps + [Push([7])], s, Broadcast);
    s := Apply(s, Broadcast);
    RunOn(8, steps + [Push([7])] + [Broadcast], s, Exit);
  }

  /**
   * An exit reported straight after the attach reply carries no such promise: when the last
   * chunk and the exit land between `attach_bytes` and the exit check, the client is told that
   * the session ended but never receives its only byte.
   */
  lemma ReportedExitMayTruncate()
    ensures
      var end := Run(8, LateByte() + [Reply(0)] + [Deliver(0)] + [Deliver(0)]);
      && end.Some? && 0 in end.value.conns && |end.value.hub.stream| == 1
      && end.value.conns[0].client == Client(Some(0), 0, [], Some(Noticed(0, false)))
  {
    LateByteState();
    var s, steps := Run(8, LateByte()).value, LateByte();
    RunOn(8, steps, s, Reply(0));
    s := Apply(s, Reply(0));
    RunOn(8, steps + [Reply(0)], s, Deliver(0));
    s := Apply(s, Deliver(0));
    RunOn(8, steps + [Reply(0)] + [Deliver(0)], s, Deliver(0));
  }

  /**
   * In every run, such a report is complete exactly when the session's end had not moved since the
   * attach reply was drawn, which the daemon could check before it reports; and it always is when
   * the session had exited by then.
   */
  lemma ReportedExitCompleteIff(capacity: nat, steps: seq<Step>, c: nat)
    requires Run(capacity, steps).Some? && c in Run(capacity, steps).value.conns
    requires |Run(capacity, steps).value.hub.stream| <= U64_MAX
    requires Run(capacity, steps).value.conns[c].client.exit.Some?
    requires Run(capacity, steps).value.conns[c].client.exit.value.Noticed?
    ensures
      var s := Run(capacity, steps).value;
      var client, report := s.conns[c].client, s.conns[c].client.exit.value;
      && !s.hub.fate.Running?
      && (client.lastSeen == Some(|s.hub.stream|) <==> report.end == |s.hub.stream|)
      && (!s.hub.fate.Loaded? ==> s.hub.win.next == |s.hub.stream|)
      && (report.late ==> client.lastSeen == Some(|s.hub.stream|))
  {
    RunKeeps(capacity, steps);
  }

  /**
   * In every run, a client that is told of the exit from a row loaded at a start has what the row
   * held, and so every byte exactly when the row was captured after the last one.
   */
  lemma RestoredExitCompleteIff(capacity: nat, steps: seq<Step>, c: nat)
    requires Run(capacity, steps).Some? && c in Run(capacity, steps).value.conns
    requires |Run(capacity, steps).value.hub.stream| <= U64_MAX
    requires Run(capacity, steps).value.conns[c].client.exit.Some?
    requires Run(capacity, steps).value.conns[c].client.exit.value.FromRow?
    ensures
      var s := Run(capacity, steps).value;
      && s.hub.fate.Loaded? && s.hub.fate.end <= |s.hub.stream| && s.conns[c].client.lastSeen == Some(s.hub.fate.end)
      && s.hub.win == WindowOf(s.hub.stream[..s.hub.fate.end], capacity)
      && (s.conns[c].client.lastSeen == Some(|s.hub.stream|) <==> s.hub.fate.end == |s.hub.stream|)
  {
    RunKeeps(capacity, steps);
    CapacityKept(capacity, steps);
  }

  lemma {:induction false} CapacityKept(capacity: nat, steps: seq<Step>)
    requires Run(capacity, steps).Some?
    ensures Run(capacity, steps).value.hub.capacity == capacity
  {
    if steps != [] {
      CapacityKept(capacity, steps[..|steps| - 1]);
    }
  }

  /** A byte is pushed after the row was captured, the daemon is started again, and a client is answered. */
  function LostByte(): seq<Step> {
    [Push([7])] + [Restart(0)] + [Open(0)] + [ReplyStored(0)]
  }

  lemma LostByteHub()
    ensures Run(8, [Push([7])] + [Restart(0)]) == Some(State(Hub(8, [7], Window(0, 0, []), None, [], Loaded(0)), map[]))
  {
    var s := Initial(8);
    assert [] + [Push([7])] == [Push([7])];
    RunOn(8, [], s, Push([7]));
    s := Apply(s, Push([7]));
    assert [] + [7] == [7] && s.hub.stream[..0] == [];
    RunOn(8, [Push([7])], s, Restart(0));
    s := Apply(s, Restart(0));
    assert s.conns == map[];
  }

  lemma LostByteState()
    ensures
      var end := Run(8, LostByte());
      && end.Some? && |end.value.hub.stream| == 1
      && end.value.conns
      == map[0 := Conn(Quiet, [Attached(0, [], Scrollback(0)), SessionExited(FromRow(0))], Client(None, 0, [], None))]
  {
    LostByteHub();
    var steps := [Push([7])] + [Restart(0)];
    var s := Run(8, steps).value;
    RunOn(8, steps, s, Open(0));
    s := Apply(s, Open(0));
    RunOn(8, steps + [Open(0)], s, ReplyStored(0));
    s := Apply(s, ReplyStored(0));
    assert s.conns[0].wire == [Attached(0, [], Scrollback(0)), SessionExited(FromRow(0))];
  }

  /** So the client is told of the exit and never gets the session's only byte. */
  lemma RestoredExitMayTruncate()
    ensures
      var end := Run(8, LostByte() + [Deliver(0)] + [Deliver(0)]);
      && end.Some? && 0 in end.value.conns && |end.value.hub.stream| == 1
      && end.value.conns[0].client == Client(Some(0), 0, [], Some(FromRow(0)))
  {
    LostByteState();
    var s, steps := Run(8, LostByte()).value, LostByte();
    RunOn(8, steps, s, Deliver(0));
    s := Apply(s, Deliver(0));
    RunOn(8, steps + [Deliver(0)], s, Deliver(0));
  }
}
