/**
 * What the handoff protocol delivers: a forwarder goes on until its receiver falls behind, and every
 * client can catch up by the steps of its own connection alone.
 */
module Delivery {
  import opened Common
  import opened Ring
  import opened Handoff

  // ---------------------------------------------------------------- when a forwarder gives up

  /** The forwarder's receiver stands further behind than the channel holds. */
  predicate Behind(s: State, c: nat) {
    c in s.conns && s.conns[c].phase.Forwarding? && |s.hub.log| - s.conns[c].phase.pos > BROADCAST_CAPACITY
  }

  /** At some moment of the run, the forwarder took a turn while it was behind. */
  ghost predicate EverBehind(capacity: nat, steps: seq<Step>, c: nat) {
    steps != [] &&
    var init := steps[..|steps| - 1];
    EverBehind(capacity, init, c)
    || (steps[|steps| - 1] == Forward(c) && Run(capacity, init).Some? && Behind(Run(capacity, init).value, c))
  }

  /** Only a forwarder that is behind writes a `Lag`, and then nothing else. */
  lemma LagAppears(s: State, step: Step, c: nat)
    requires Enabled(s, step) && c in Apply(s, step).conns
    ensures Lag in Apply(s, step).conns[c].wire ==> (c in s.conns && Lag in s.conns[c].wire) || (step == Forward(c) && Behind(s, c))
    ensures step == Forward(c) && Behind(s, c) ==> Apply(s, step).conns[c].wire == s.conns[c].wire + [Lag]
  {
  }

  /** In every run, a `Lag` on the wire comes from a moment at which the receiver had fallen behind. */
  lemma {:induction false} LagMeansBehind(capacity: nat, steps: seq<Step>, c: nat)
    requires Run(capacity, steps).Some? && c in Run(capacity, steps).value.conns
    requires Lag in Run(capacity, steps).value.conns[c].wire
    ensures EverBehind(capacity, steps, c)
  {
    if steps != [] {
      var init, last := steps[..|steps| - 1], steps[|steps| - 1];
      var s := Run(capacity, init).value;
      LagAppears(s, last, c);
      if c in s.conns && Lag in s.conns[c].wire {
        LagMeansBehind(capacity, init, c);
      }
    }
  }

  /** Any other turn writes the next event and stays: a chunk only if the attach reply did not hold it. */
  lemma TurnWrites(s: State, c: nat)
    requires Enabled(s, Forward(c)) && !Behind(s, c)
    ensures
      var conn, next := s.conns[c], Apply(s, Forward(c)).conns[c];
      && next.phase == Forwarding(conn.phase.pos + 1, conn.phase.attachedSeq) && next.client == conn.client
      && match s.hub.log[conn.phase.pos]
         case Output(seqNo, bytes) => next.wire == conn.wire + if seqNo <= conn.phase.attachedSeq then [] else [Live(seqNo, bytes)]
         case StateChanged => next.wire == conn.wire + [Notice]
         case Exited => next.wire == conn.wire + [SessionExited(Relayed)]
  {
  }

  /** What the session's own steps put on the channel: each chunk, change and exit once. */
  lemma StepLogs(h: Hub, step: Step)
    requires HubStep(step) && HubEnabled(h, step)
    ensures
      var g := HubAfter(h, step);
      match step
      case Push(bytes) => g.log == h.log && g.pending == Some(Output(SaturatingAdd(h.win.next, |bytes|), bytes)) && g.fate == h.fate
      case Broadcast => g.log == h.log + [h.pending.value] && g.pending == None && g.fate == h.fate
      case Notify => g.log == h.log + [StateChanged] && g.pending == h.pending && g.fate == h.fate
      case Exit => g.log == h.log + [Exited] && g.pending == None && g.fate == Ended
      case Evict => g.log == h.log && g.pending == h.pending && g.fate == Evicted
      case _ => true
  {
  }

  // ---------------------------------------------------------------- what an attach reply is

  lemma ReplyIs(h: Hub, lastSeen: Option<nat>, rendered: Option<seq<Byte>>)
    requires h.win == WindowOf(h.stream, h.capacity) && |h.stream| <= U64_MAX
    requires lastSeen.Some? ==> lastSeen.value <= |h.stream|
    ensures
      var stream := h.stream;
      AttachReply(h.win, lastSeen, rendered)
      == if lastSeen.Some? && |stream| - h.capacity <= lastSeen.value then Attached(|stream|, stream[lastSeen.value..], Replayed)
         else if rendered.Some? then Attached(|stream|, rendered.value, Snapshot)
         else Attached(|stream|, LastN(stream, h.capacity), Scrollback(|stream| - Min(h.capacity, |stream|)))
  {
  }

  /**
   * In every run, an attach is answered with a replay exactly if the client has seen some position and
   * missed no more than the ring holds; otherwise with a screen, or the whole window if none could be drawn.
   */
  lemma ReplaysIff(capacity: nat, steps: seq<Step>, c: nat, rendered: Option<seq<Byte>>)
    requires Run(capacity, steps).Some? && Enabled(Run(capacity, steps).value, AttachBytes(c, rendered))
    requires |Run(capacity, steps).value.hub.stream| <= U64_MAX
    ensures
      var s := Run(capacity, steps).value;
      var stream, lastSeen := s.hub.stream, s.conns[c].client.lastSeen;
      var phase := Apply(s, AttachBytes(c, rendered)).conns[c].phase;
      && phase.Replying? && phase.pos == s.conns[c].phase.pos
      && (lastSeen.Some? ==> lastSeen.value <= |stream|)
      && phase.reply == if lastSeen.Some? && |stream| - capacity <= lastSeen.value <= |stream|
                        then Attached(|stream|, stream[lastSeen.value..], Replayed)
                        else if rendered.Some? then Attached(|stream|, rendered.value, Snapshot)
                        else Attached(|stream|, LastN(stream, capacity), Scrollback(|stream| - Min(capacity, |stream|)))
  {
    RunKeeps(capacity, steps);
    CapacityKept(capacity, steps);
    var s := Run(capacity, steps).value;
    assert ConnOk(s.hub, s.conns[c]);
    ReplyIs(s.hub, s.conns[c].client.lastSeen, rendered);
  }

  // ---------------------------------------------------------------- a forwarder goes on

  /** The base that a client has once it handles this attach reply. */
  function BaseGiven(client: Client, reply: Frame): nat
    requires reply.Attached?
  {
    match reply.origin
    case Replayed => client.base
    case Snapshot => reply.seqNo
    case Scrollback(start) => start
  }

  /** The reply that the step sends starts a forwarder. */
  predicate StartsForwarder(s: State, step: Step, c: nat) {
    && step == Reply(c) && c in s.conns && s.hub.fate.Running?
    && s.conns[c].phase.Replying? && s.conns[c].phase.reply.Attached?
  }

  /** Steps that end a connection's forwarder, or a receiver that fell behind. */
  predicate EndsForwarder(s: State, step: Step, c: nat) {
    step == Reconnect(c) || step.Restart? || (step == Forward(c) && Behind(s, c))
  }

  /** The base given by the reply that started the connection's forwarder, if nothing has ended it since. */
  ghost function StartedWith(capacity: nat, steps: seq<Step>, c: nat): Option<nat> {
    if steps == [] || Run(capacity, steps[..|steps| - 1]).None? then None
    else
      var s, last := Run(capacity, steps[..|steps| - 1]).value, steps[|steps| - 1];
      if StartsForwarder(s, last, c) then Some(BaseGiven(s.conns[c].client, s.conns[c].phase.reply))
      else if EndsForwarder(s, last, c) then None
      else StartedWith(capacity, steps[..|steps| - 1], c)
  }

  /** The client's base once it has handled what is on the wire. */
  ghost function BaseAfter(client: Client, wire: seq<Frame>): nat
    decreases |wire|
  {
    if wire == [] then client.base else BaseAfter(Received(client, wire[0]), wire[1..])
  }

  lemma {:induction false} BaseAfterSnoc(client: Client, wire: seq<Frame>, frame: Frame)
    ensures BaseAfter(client, wire + [frame]) ==
      if frame.Attached? && !frame.origin.Replayed? then BaseGiven(client, frame) else BaseAfter(client, wire)
    decreases |wire|
  {
    if wire == [] {
      assert ([] + [frame])[1..] == [];
    } else {
      BaseAfterSnoc(Received(client, wire[0]), wire[1..], frame);
      assert (wire + [frame])[1..] == wire[1..] + [frame];
    }
  }

  /** A forwarder is running, and what it and the reply before it wrote leads to this base. */
  ghost predicate ForwardsTo(s: State, c: nat, base: nat) {
    c in s.conns && s.conns[c].phase.Forwarding? && BaseAfter(s.conns[c].client, s.conns[c].wire) == base
  }

  lemma StartForwards(s: State, step: Step, c: nat)
    requires Inv(s) && Enabled(s, step) && StartsForwarder(s, step, c) && |s.hub.stream| <= U64_MAX
    ensures ForwardsTo(Apply(s, step), c, BaseGiven(s.conns[c].client, s.conns[c].phase.reply))
  {
    var conn := s.conns[c];
    assert ConnOk(s.hub, conn);
    BaseAfterSnoc(conn.client, conn.wire, conn.phase.reply);
  }

  lemma TurnForwards(s: State, c: nat, base: nat)
    requires Enabled(s, Forward(c)) && ForwardsTo(s, c, base) && !Behind(s, c)
    ensures ForwardsTo(Apply(s, Forward(c)), c, base)
  {
    var conn := s.conns[c];
    var relayed := Relay(s.hub.log[conn.phase.pos], conn.phase.attachedSeq);
    if relayed == [] {
      assert conn.wire + relayed == conn.wire;
    } else {
      BaseAfterSnoc(conn.client, conn.wire, relayed[0]);
      assert relayed == [relayed[0]];
    }
  }

  lemma StepForwards(s: State, step: Step, c: nat, base: nat)
    requires Inv(s) && Enabled(s, step) && |s.hub.stream| <= U64_MAX
    requires ForwardsTo(s, c, base) && !StartsForwarder(s, step, c) && !EndsForwarder(s, step, c)
    ensures ForwardsTo(Apply(s, step), c, base)
  {
    if step == Forward(c) {
      TurnForwards(s, c, base);
    } else if step == Deliver(c) {
      assert ConnOk(s.hub, s.conns[c]);
      assert NoLag(s.conns[c].wire);
    }
  }

  lemma StreamGrows(s: State, step: Step)
    requires Enabled(s, step)
    ensures s.hub.stream <= Apply(s, step).hub.stream
  {
  }

  /**
   * In every run, a reply that started a forwarder keeps it running, and the client on the base that
   * this reply gave, until a reconnect, a restart, or a turn of the forwarder that found itself behind.
   */
  lemma {:induction false} ForwarderStays(capacity: nat, steps: seq<Step>, c: nat)
    requires Run(capacity, steps).Some? && |Run(capacity, steps).value.hub.stream| <= U64_MAX
    requires StartedWith(capacity, steps, c).Some?
    ensures ForwardsTo(Run(capacity, steps).value, c, StartedWith(capacity, steps, c).value)
  {
    var init, last := steps[..|steps| - 1], steps[|steps| - 1];
    var s := Run(capacity, init).value;
    RunKeeps(capacity, init);
    StreamGrows(s, last);
    if StartsForwarder(s, last, c) {
      StartForwards(s, last, c);
    } else {
      ForwarderStays(capacity, init, c);
      StepForwards(s, last, c, StartedWith(capacity, init, c).value);
    }
  }

  /** When it has forwarded all that was broadcast, and the client has handled that, the client has the whole stream from that base. */
  lemma ForwardedAll(capacity: nat, steps: seq<Step>, c: nat)
    requires Run(capacity, steps).Some? && |Run(capacity, steps).value.hub.stream| <= U64_MAX
    requires StartedWith(capacity, steps, c).Some?
    ensures var s, base := Run(capacity, steps).value, StartedWith(capacity, steps, c).value;
      && c in s.conns && s.conns[c].phase.Forwarding?
      && (s.hub.pending.None? && s.conns[c].phase.pos == |s.hub.log| && s.conns[c].wire == [] ==>
            && s.conns[c].client.lastSeen == Some(|s.hub.stream|) && s.conns[c].client.base == base <= |s.hub.stream|
            && s.conns[c].client.got == s.hub.stream[base..])
  {
    var s := Run(capacity, steps).value;
    ForwarderStays(capacity, steps, c);
    RunKeeps(capacity, steps);
    assert ConnOk(s.hub, s.conns[c]);
  }

  // ---------------------------------------------------------------- every client can catch up

  ghost predicate ExitAhead(log: seq<Event>, pos: nat) {
    exists i :: pos <= i < |log| && log[i].Exited?
  }

  ghost predicate ExitOnWire(wire: seq<Frame>) {
    exists i :: 0 <= i < |wire| && wire[i].SessionExited?
  }

  /** The end of a session is on its way to every client with a forwarder; a quiet connection has something left to say. */
  ghost predicate LiveConn(h: Hub, conn: Conn) {
    match conn.phase
    case Forwarding(pos, _) =>
      && pos <= |h.log|
      && (h.fate.Running? || conn.client.exit.Some? || ExitOnWire(conn.wire) || ExitAhead(h.log, pos))
    case Subscribed(pos) => pos <= |h.log|
    case Replying(pos, _, _) => pos <= |h.log|
    case Quiet =>
      || h.fate.Loaded? || conn.client.exit.Some?
      || (conn.wire != [] && var last := conn.wire[|conn.wire| - 1]; last.Lag? || last.SessionExited?)
    case _ => true
  }

  ghost predicate AllLive(s: State) {
    forall c :: c in s.conns ==> LiveConn(s.hub, s.conns[c])
  }

  lemma HubLive(h: Hub, step: Step, conn: Conn)
    requires HubStep(step) && HubEnabled(h, step) && LiveConn(h, conn)
    ensures LiveConn(HubAfter(h, step), conn)
  {
    var g := HubAfter(h, step);
    if conn.phase.Forwarding? {
      if step.Exit? {
        assert g.log[|h.log|].Exited?;
      } else if ExitAhead(h.log, conn.phase.pos) {
        var i :| conn.phase.pos <= i < |h.log| && h.log[i].Exited?;
        assert g.log[i].Exited?;
      }
    }
  }

  lemma ForwardLive(h: Hub, conn: Conn)
    requires LiveConn(h, conn) && conn.phase.Forwarding? && conn.phase.pos < |h.log|
    ensures LiveConn(h, Forwarded(h, conn))
  {
    var Forwarding(pos, attachedSeq) := conn.phase;
    var next := Forwarded(h, conn);
    if next.phase.Forwarding? {
      if ExitOnWire(conn.wire) {
        var i :| 0 <= i < |conn.wire| && conn.wire[i].SessionExited?;
        assert next.wire[i].SessionExited?;
      } else if h.log[pos].Exited? {
        assert next.wire[|conn.wire|].SessionExited?;
      }
    }
  }

  lemma DeliverLive(h: Hub, conn: Conn)
    requires LiveConn(h, conn) && conn.wire != []
    ensures LiveConn(h, Conn(if conn.wire[0].Lag? then Requested else conn.phase, conn.wire[1..], Received(conn.client, conn.wire[0])))
  {
    if conn.phase.Forwarding? && ExitOnWire(conn.wire) {
      var i :| 0 <= i < |conn.wire| && conn.wire[i].SessionExited?;
      assert i > 0 ==> conn.wire[1..][i - 1].SessionExited?;
    }
  }

  lemma LiveKeeps(s: State, step: Step)
    requires AllLive(s) && Enabled(s, step)
    ensures AllLive(Apply(s, step))
  {
    var t := Apply(s, step);
    forall c | c in t.conns ensures LiveConn(t.hub, t.conns[c]) {
      if HubStep(step) {
        HubLive(s.hub, step, s.conns[c]);
      } else if step == Forward(c) {
        ForwardLive(s.hub, s.conns[c]);
      } else if step == Deliver(c) {
        DeliverLive(s.hub, s.conns[c]);
      }
    }
  }

  lemma {:induction false} RunLive(capacity: nat, steps: seq<Step>)
    requires Run(capacity, steps).Some?
    ensures AllLive(Run(capacity, steps).value)
  {
    if steps != [] {
      RunLive(capacity, steps[..|steps| - 1]);
      LiveKeeps(Run(capacity, steps[..|steps| - 1]).value, steps[|steps| - 1]);
    }
  }

  function RunFrom(s: State, steps: seq<Step>): Option<State>
    decreases |steps|
  {
    if steps == [] then Some(s)
    else if Enabled(s, steps[0]) then RunFrom(Apply(s, steps[0]), steps[1..])
    else None
  }

  lemma RunFirst(s: State, step: Step, rest: seq<Step>)
    requires Enabled(s, step)
    ensures RunFrom(s, [step] + rest) == RunFrom(Apply(s, step), rest)
  {
    assert ([step] + rest)[1..] == rest;
  }

  lemma {:induction false} RunGoesOn(capacity: nat, steps: seq<Step>, more: seq<Step>)
    requires Run(capacity, steps).Some? && RunFrom(Run(capacity, steps).value, more).Some?
    ensures Run(capacity, steps + more) == RunFrom(Run(capacity, steps).value, more)
    decreases |more|
  {
    if more == [] {
      assert steps + more == steps;
    } else {
      RunOn(capacity, steps, Run(capacity, steps).value, more[0]);
      RunGoesOn(capacity, steps + [more[0]], more[1..]);
      assert steps + more == steps + [more[0]] + more[1..];
    }
  }

  /** What a connection does by itself: no reconnect, and nothing that the session must do. */
  predicate OwnStep(step: Step, c: nat) {
    step in {Subscribe(c), AttachBytes(c, None), Reply(c), Forward(c), Deliver(c)}
  }

  predicate OwnSteps(steps: seq<Step>, c: nat) {
    forall i :: 0 <= i < |steps| ==> OwnStep(steps[i], c)
  }

  /** The client was told that the session ended, or it has all that was broadcast. */
  predicate AtEnd(s: State, c: nat)
    requires c in s.conns
  {
    var conn := s.conns[c];
    conn.client.exit.Some? || (conn.wire == [] && conn.phase.Forwarding? && conn.phase.pos >= |s.hub.log|)
  }

  /** What comes next: everything written is handled before anything else is done. */
  function Next(s: State, c: nat): Step
    requires c in s.conns
  {
    var conn := s.conns[c];
    if conn.wire != [] then Deliver(c)
    else match conn.phase
      case Requested => Subscribe(c)
      case Subscribed(_) => AttachBytes(c, None)
      case Replying(_, _, _) => Reply(c)
      case _ => Forward(c)
  }

  predicate Stale(h: Hub, pos: nat) {
    |h.log| - pos > BROADCAST_CAPACITY
  }

  /** How many phases are still to come. */
  function PhasesLeft(h: Hub, conn: Conn): nat {
    match conn.phase
    case Subscribed(pos) => if Stale(h, pos) then 9 else 4
    case Replying(pos, _, _) => if Stale(h, pos) then 8 else 3
    case Forwarding(pos, _) => if Stale(h, pos) then 7 else 2
    case Quiet => if conn.wire != [] && conn.wire[|conn.wire| - 1].Lag? then 6 else 1
    case Requested => 5
  }

  function EventsLeft(h: Hub, conn: Conn): nat {
    if conn.phase.Forwarding? && conn.phase.pos <= |h.log| then |h.log| - conn.phase.pos else 0
  }

  ghost predicate CanGoOn(s: State, c: nat) {
    Inv(s) && AllLive(s) && c in s.conns && |s.hub.stream| <= U64_MAX && s.hub.pending.None? && !s.hub.fate.Loaded?
  }

  lemma NextIsEnabled(s: State, c: nat)
    requires CanGoOn(s, c) && !AtEnd(s, c)
    ensures Enabled(s, Next(s, c)) && OwnStep(Next(s, c), c)
  {
    assert ConnOk(s.hub, s.conns[c]) && LiveConn(s.hub, s.conns[c]);
  }

  /** The phase or, in the same phase, the events or frames left get fewer. */
  ghost predicate Fewer(h: Hub, conn: Conn, next: Conn) {
    || PhasesLeft(h, next) < PhasesLeft(h, conn)
    || (PhasesLeft(h, next) == PhasesLeft(h, conn) &&
        (EventsLeft(h, next) < EventsLeft(h, conn) || (EventsLeft(h, next) == EventsLeft(h, conn) && |next.wire| < |conn.wire|)))
  }

  lemma DeliverIsProgress(s: State, c: nat)
    requires CanGoOn(s, c) && !AtEnd(s, c) && s.conns[c].wire != []
    ensures Fewer(s.hub, s.conns[c], ConnAfter(s, Deliver(c)))
  {
    var conn := s.conns[c];
    assert ConnOk(s.hub, conn) && LiveConn(s.hub, conn);
    assert conn.wire[1..] != [] ==> conn.wire[1..][|conn.wire| - 2] == conn.wire[|conn.wire| - 1];
    if conn.phase.Forwarding? {
      assert NoLag(conn.wire);
    }
  }

  lemma NextIsProgress(s: State, c: nat)
    requires CanGoOn(s, c) && !AtEnd(s, c) && Enabled(s, Next(s, c))
    ensures Fewer(s.hub, s.conns[c], Apply(s, Next(s, c)).conns[c])
  {
    if s.conns[c].wire != [] {
      DeliverIsProgress(s, c);
    }
    assert ConnOk(s.hub, s.conns[c]) && LiveConn(s.hub, s.conns[c]);
  }

  lemma {:induction false} GoesToEnd(s: State, c: nat) returns (more: seq<Step>, t: State)
    requires CanGoOn(s, c)
    ensures OwnSteps(more, c) && RunFrom(s, more) == Some(t) && CanGoOn(t, c) && t.hub == s.hub && AtEnd(t, c)
    decreases PhasesLeft(s.hub, s.conns[c]), EventsLeft(s.hub, s.conns[c]), |s.conns[c].wire|
  {
    if AtEnd(s, c) {
      more, t := [], s;
    } else {
      var step := Next(s, c);
      NextIsEnabled(s, c);
      NextIsProgress(s, c);
      StepKeeps(s, step);
      LiveKeeps(s, step);
      var rest, end := GoesToEnd(Apply(s, step), c);
      more, t := [step] + rest, end;
      assert more[1..] == rest;
    }
  }

  /**
   * Whatever happened before, with no chunk half way between ring and channel, a client can get to the
   * end by the steps of its own connection: one that fell behind attaches again, and there is no
   * reconnect. As long as the session runs it then has everything; otherwise it was told that the
   * session ended, and has everything unless that was noticed straight after an attach reply.
   */
  lemma CatchesUp(capacity: nat, steps: seq<Step>, c: nat) returns (more: seq<Step>)
    requires Run(capacity, steps).Some? && c in Run(capacity, steps).value.conns
    requires var h := Run(capacity, steps).value.hub; |h.stream| <= U64_MAX && h.pending.None? && !h.fate.Loaded?
    ensures OwnSteps(more, c) && Run(capacity, steps + more).Some?
    ensures var h, t := Run(capacity, steps).value.hub, Run(capacity, steps + more).value;
      && t.hub == h && c in t.conns
      && (t.conns[c].client.exit.None? <==> h.fate.Running?)
      && (t.conns[c].client.lastSeen == Some(|h.stream|) || (t.conns[c].client.exit.Some? && t.conns[c].client.exit.value.Noticed?))
  {
    RunKeeps(capacity, steps);
    RunLive(capacity, steps);
    var t: State;
    more, t := GoesToEnd(Run(capacity, steps).value, c);
    RunGoesOn(capacity, steps, more);
    assert ConnOk(t.hub, t.conns[c]) && LiveConn(t.hub, t.conns[c]);
  }

  /** After a restart, a client that connects again is told that the session ended, with what the row held. */
  lemma TellsOfRow(capacity: nat, steps: seq<Step>, c: nat)
    requires Run(capacity, steps).Some? && c in Run(capacity, steps).value.conns
    requires Run(capacity, steps).value.hub.fate.Loaded? && Run(capacity, steps).value.conns[c].client.exit.None?
    ensures
      var s := Run(capacity, steps).value;
      var t := RunFrom(s, [Reconnect(c), ReplyStored(c), Deliver(c), Deliver(c)]);
      && t.Some? && t.value.hub == s.hub && c in t.value.conns
      && t.value.conns[c].client
      == Client(Some(SaturatingAdd(s.hub.win.start, |s.hub.win.data|)), s.hub.win.start, s.hub.win.data, Some(FromRow(s.hub.fate.end)))
  {
    var s := Run(capacity, steps).value;
    var told := [SessionExited(FromRow(s.hub.fate.end))];
    assert [Reconnect(c), ReplyStored(c), Deliver(c), Deliver(c)] == [Reconnect(c)] + ([ReplyStored(c)] + ([Deliver(c)] + ([Deliver(c)] + [])));
    RunFirst(s, Reconnect(c), [ReplyStored(c)] + ([Deliver(c)] + ([Deliver(c)] + [])));
    s := Apply(s, Reconnect(c));
    RunFirst(s, ReplyStored(c), [Deliver(c)] + ([Deliver(c)] + []));
    assert [] + [StoredReply(s.hub.win)] + told == [StoredReply(s.hub.win)] + told;
    s := Apply(s, ReplyStored(c));
    RunFirst(s, Deliver(c), [Deliver(c)] + []);
    s := Apply(s, Deliver(c));
    assert s.conns[c].wire == told;
    RunFirst(s, Deliver(c), []);
  }
}
