/**
 * What an attached client draws, remembers and says (crates/cli/src/attach_loop.rs), read off the
 * events that its loop took before it returned.
 */
module Attaching {
  import opened Common
  import opened Detach
  import opened AttachLoop

  // ---------------------------------------------------------------------- the events taken

  /** The events that the loop took before it returned. */
  function Taken<R>(setup: Setup<R>, c: Client<R>, events: seq<Event>): seq<Event> {
    if events == [] then []
    else
      var init, last := events[..|events| - 1], events[|events| - 1];
      if Unbatched(setup, c, init).outcome.None? then Taken(setup, c, init) + [last] else Taken(setup, c, init)
  }

  /** An event that ends the loop whatever came before, and how. */
  function Ending(session: nat, event: Event): Option<Outcome> {
    match event
    case Message(Lag(own)) => if own == session then Some(Lagged) else None
    case Message(Exited(own, code)) => if own == session then Some(SessionExited(code)) else None
    case Message(Error(text)) => Some(DaemonError(text))
    case ReadFailed => Some(ConnectionLost)
    case InputEof(_) => Some(Detached)
    case InputError => Some(Failed)
    case _ => None
  }

  predicate NoneEnds(session: nat, events: seq<Event>) {
    forall k :: 0 <= k < |events| ==> Ending(session, events[k]) == None
  }

  /** The events taken are the first ones, all of them while the loop goes on, and only the last one ends it. */
  ghost predicate Ends<R>(setup: Setup<R>, u: Client<R>, taken: seq<Event>, events: seq<Event>) {
    && taken <= events
    && (u.outcome.None? ==> taken == events && NoneEnds(setup.session, taken))
    && (u.outcome.Some? ==>
          && taken != [] && NoneEnds(setup.session, taken[..|taken| - 1])
          && var last := taken[|taken| - 1];
          if Ending(setup.session, last).Some? then u.outcome == Ending(setup.session, last)
          else (last.Keys? && u.outcome.value in {Detached, Failed}) || (last.Resized? && u.outcome.value == Failed))
  }

  lemma ReactEnds<R>(setup: Setup<R>, c: Client<R>, event: Event)
    requires c.outcome.None?
    ensures var outcome := React(setup, c, event).outcome;
      if Ending(setup.session, event).Some? then outcome == Ending(setup.session, event)
      else outcome.Some? ==> (event.Keys? && outcome.value in {Detached, Failed}) || (event.Resized? && outcome.value == Failed)
  {
  }

  /**
   * However the events come, the loop ends at the first that must end it, with the outcome of that one,
   * unless typed input or a failed write ended it before.
   */
  lemma {:induction false} EndsAtFirst<R>(setup: Setup<R>, c: Client<R>, events: seq<Event>)
    requires c.outcome.None?
    ensures Ends(setup, Unbatched(setup, c, events), Taken(setup, c, events), events)
  {
    if events != [] {
      var init, last := events[..|events| - 1], events[|events| - 1];
      EndsAtFirst(setup, c, init);
      var before := Unbatched(setup, c, init);
      if before.outcome.None? {
        assert Taken(setup, c, events) == events;
        assert events[..|events| - 1] == init;
        ReactEnds(setup, before, last);
      }
    }
  }

  /** The event taken last. */
  predicate LastIs(taken: seq<Event>, event: Event) {
    taken != [] && taken[|taken| - 1] == event
  }

  /** Outcomes that typed input and failed writes do not bring about. */
  predicate FromMessage(outcome: Option<Outcome>) {
    outcome.Some? && (outcome.value.Lagged? || outcome.value.SessionExited? || outcome.value.DaemonError? || outcome.value.ConnectionLost?)
  }

  lemma EndsWithLast<R>(setup: Setup<R>, c: Client<R>, events: seq<Event>)
    requires c.outcome.None?
    ensures
      var outcome, taken := Unbatched(setup, c, events).outcome, Taken(setup, c, events);
      && (FromMessage(outcome) ==> taken != [] && Ending(setup.session, taken[|taken| - 1]) == outcome)
      && (taken != [] && Ending(setup.session, taken[|taken| - 1]).Some? ==> outcome == Ending(setup.session, taken[|taken| - 1]))
  {
    EndsAtFirst(setup, c, events);
    var taken := Taken(setup, c, events);
    if taken != [] && Unbatched(setup, c, events).outcome.None? {
      assert Ending(setup.session, taken[|taken| - 1]) == None;
    }
  }

  /** So the outcomes that a message brings about are exactly those of the message taken last. */
  lemma OutcomeIff<R>(setup: Setup<R>, c: Client<R>, events: seq<Event>, code: int, text: string)
    requires c.outcome.None?
    ensures
      var outcome, taken := Unbatched(setup, c, events).outcome, Taken(setup, c, events);
      && (outcome == Some(Lagged) <==> LastIs(taken, Message(Lag(setup.session))))
      && (outcome == Some(SessionExited(code)) <==> LastIs(taken, Message(Exited(setup.session, code))))
      && (outcome == Some(DaemonError(text)) <==> LastIs(taken, Message(Error(text))))
      && (outcome == Some(ConnectionLost) <==> LastIs(taken, ReadFailed))
  {
    EndsWithLast(setup, c, events);
  }

  // ---------------------------------------------------------------------- the position

  /** Where the last output of the session among the events ends, or the position before them. */
  function LastEnd(session: nat, start: Option<nat>, taken: seq<Event>): Option<nat> {
    if taken == [] then start
    else
      match taken[|taken| - 1]
      case Message(Output(own, end, _)) => if own == session then Some(end) else LastEnd(session, start, taken[..|taken| - 1])
      case _ => LastEnd(session, start, taken[..|taken| - 1])
  }

  lemma ReactPosition<R>(setup: Setup<R>, c: Client<R>, event: Event, start: Option<nat>, taken: seq<Event>)
    requires c.outcome.None? && c.lastSeen == LastEnd(setup.session, start, taken)
    ensures React(setup, c, event).lastSeen == LastEnd(setup.session, start, taken + [event])
  {
    assert (taken + [event])[..|taken|] == taken;
  }

  /** The position that the client remembers is the end of the last output it took. */
  lemma {:induction false} PositionIsLastEnd<R>(setup: Setup<R>, c: Client<R>, events: seq<Event>)
    ensures Unbatched(setup, c, events).lastSeen == LastEnd(setup.session, c.lastSeen, Taken(setup, c, events))
  {
    if events != [] {
      var init, last := events[..|events| - 1], events[|events| - 1];
      PositionIsLastEnd(setup, c, init);
      if Unbatched(setup, c, init).outcome.None? {
        ReactPosition(setup, Unbatched(setup, c, init), last, c.lastSeen, Taken(setup, c, init));
      }
    }
  }

  // ---------------------------------------------------------------------- what is drawn

  datatype Draw = Whole(bytes: seq<Byte>) | More(bytes: seq<Byte>) | Fit(physical: Size)

  /** What the renderer has been led to, the frames that it made, and the sizes that it chose. */
  datatype Drawn<R> = Drawn(renderer: R, size: Size, frames: seq<Byte>, sizes: seq<Size>)

  function DrawOne<R>(setup: Setup<R>, d: Drawn<R>, draw: Draw): Drawn<R> {
    match draw
    case Whole(bytes) => var (renderer, frame) := setup.initialFrame(d.renderer, bytes); d.(renderer := renderer, frames := d.frames + frame)
    case More(bytes) => var (renderer, frame) := setup.outputFrame(d.renderer, bytes); d.(renderer := renderer, frames := d.frames + frame)
    case Fit(physical) =>
      var (renderer, size, frame) := setup.resizeFrame(d.renderer, physical);
      Drawn(renderer, size, d.frames + frame, d.sizes + [size])
  }

  function DrawAll<R>(setup: Setup<R>, d: Drawn<R>, draws: seq<Draw>): Drawn<R> {
    if draws == [] then d else DrawOne(setup, DrawAll(setup, d, draws[..|draws| - 1]), draws[|draws| - 1])
  }

  /** No end of the size reports among the events. */
  predicate SizesOpen(taken: seq<Event>) {
    ResizeClosed !in taken
  }

  /** What an event taken after these draws: output of the session, or a new size while sizes are reported. */
  function DrawOf(session: nat, open: bool, taken: seq<Event>, event: Event): Option<Draw> {
    match event
    case Message(Output(own, _, bytes)) => if own == session then Some(More(bytes)) else None
    case Resized(physical, _) => if open && SizesOpen(taken) then Some(Fit(physical)) else None
    case _ => None
  }

  /** The outputs of the session and the new sizes among the events, in order. */
  function DrawsOf(session: nat, open: bool, taken: seq<Event>): seq<Draw> {
    if taken == [] then []
    else
      var init := taken[..|taken| - 1];
      var draw := DrawOf(session, open, init, taken[|taken| - 1]);
      DrawsOf(session, open, init) + if draw.Some? then [draw.value] else []
  }

  function Resizes(sent: seq<ClientMsg>): seq<Size> {
    if sent == [] then []
    else
      var before, last := Resizes(sent[..|sent| - 1]), sent[|sent| - 1];
      if last.Resize? then before + [last.size] else before
  }

  lemma ResizesSnoc(sent: seq<ClientMsg>, message: ClientMsg)
    ensures Resizes(sent + [message]) == Resizes(sent) + if message.Resize? then [message.size] else []
  {
    assert (sent + [message])[..|sent|] == sent;
  }

  /** The renderer, the terminal and the sizes told to the daemon are those of these draws. */
  ghost predicate Shows<R>(c: Client<R>, u: Client<R>, d: Drawn<R>) {
    && u.renderer == d.renderer && u.size == d.size && u.terminal == c.terminal + d.frames
    && (u.outcome != Some(Failed) ==> Resizes(u.sent) == Resizes(c.sent) + d.sizes)
  }

  lemma DrawSnoc<R>(setup: Setup<R>, d: Drawn<R>, draws: seq<Draw>, draw: Draw)
    ensures DrawAll(setup, d, draws + [draw]) == DrawOne(setup, DrawAll(setup, d, draws), draw)
  {
    assert (draws + [draw])[..|draws|] == draws;
  }

  lemma SendKeysShow<R>(c: Client<R>, before: Client<R>, d: Drawn<R>, scanned: Scanned, writes: nat)
    requires before.outcome.None? && Shows(c, before, d)
    ensures Shows(c, SendKeys(before, scanned, writes), d)
  {
    if scanned.bytes != [] {
      ResizesSnoc(before.sent, Input(scanned.bytes));
      ResizesSnoc(before.sent + [Input(scanned.bytes)], DetachSession);
    } else {
      ResizesSnoc(before.sent, DetachSession);
    }
  }

  lemma KeysShow<R>(setup: Setup<R>, c: Client<R>, before: Client<R>, d: Drawn<R>, bytes: seq<Byte>, writes: nat)
    requires before.outcome.None? && Shows(c, before, d)
    ensures Shows(c, OnKeys(setup, before, bytes, writes), d)
  {
    var next := Scan(setup.prefix, Scanned([], before.held, false), bytes);
    SendKeysShow(c, before.(held := next.held), d, next, writes);
  }

  /** One more event taken shows one more draw, if it is one. */
  lemma ReactShows<R>(setup: Setup<R>, c: Client<R>, before: Client<R>, d: Drawn<R>, open: bool, taken: seq<Event>, event: Event)
    requires before.outcome.None? && Shows(c, before, d) && (before.resizeOpen <==> open && SizesOpen(taken))
    ensures
      var draw := DrawOf(setup.session, open, taken, event);
      Shows(c, React(setup, before, event), if draw.Some? then DrawOne(setup, d, draw.value) else d)
  {
    match event
    case Keys(bytes, writes) => KeysShow(setup, c, before, d, bytes, writes);
    case InputEof(_) => ResizesSnoc(before.sent, DetachSession);
    case Resized(physical, _) => ResizesSnoc(before.sent, Resize(setup.resizeFrame(before.renderer, physical).1));
    case _ =>
  }

  lemma ReactOpen<R>(setup: Setup<R>, c: Client<R>, event: Event)
    requires c.outcome.None?
    ensures React(setup, c, event).resizeOpen <==> c.resizeOpen && event != ResizeClosed
  {
  }

  lemma {:induction false} StaysOpen<R>(setup: Setup<R>, c: Client<R>, events: seq<Event>)
    ensures Unbatched(setup, c, events).resizeOpen <==> c.resizeOpen && SizesOpen(Taken(setup, c, events))
  {
    if events != [] {
      var init, last := events[..|events| - 1], events[|events| - 1];
      StaysOpen(setup, c, init);
      if Unbatched(setup, c, init).outcome.None? {
        ReactOpen(setup, Unbatched(setup, c, init), last);
      }
    }
  }

  /** The draws of one more event taken. */
  lemma DrawsSnoc<R>(setup: Setup<R>, start: Drawn<R>, open: bool, taken: seq<Event>, event: Event)
    ensures
      var d, draw := DrawAll(setup, start, DrawsOf(setup.session, open, taken)), DrawOf(setup.session, open, taken, event);
      DrawAll(setup, start, DrawsOf(setup.session, open, taken + [event])) == if draw.Some? then DrawOne(setup, d, draw.value) else d
  {
    assert (taken + [event])[..|taken|] == taken;
    var draws, draw := DrawsOf(setup.session, open, taken), DrawOf(setup.session, open, taken, event);
    if draw.Some? {
      DrawSnoc(setup, start, draws, draw.value);
    } else {
      assert draws + [] == draws;
    }
  }

  /**
   * The terminal shows what it showed, and then the renderer's frames of the outputs and sizes taken,
   * in order; and unless a write failed, the daemon was told the sizes that were chosen.
   */
  lemma {:induction false} TakenIsDrawn<R>(setup: Setup<R>, c: Client<R>, events: seq<Event>)
    requires c.outcome.None?
    ensures Shows(c, Unbatched(setup, c, events),
                  DrawAll(setup, Drawn(c.renderer, c.size, [], []), DrawsOf(setup.session, c.resizeOpen, Taken(setup, c, events))))
  {
    if events == [] {
      assert c.terminal + [] == c.terminal && Resizes(c.sent) + [] == Resizes(c.sent);
    } else {
      var init, last := events[..|events| - 1], events[|events| - 1];
      TakenIsDrawn(setup, c, init);
      StaysOpen(setup, c, init);
      var before, taken := Unbatched(setup, c, init), Taken(setup, c, init);
      if before.outcome.None? {
        var start, draws := Drawn(c.renderer, c.size, [], []), DrawsOf(setup.session, c.resizeOpen, taken);
        ReactShows(setup, c, before, DrawAll(setup, start, draws), c.resizeOpen, taken, last);
        DrawsSnoc(setup, start, c.resizeOpen, taken, last);
      }
    }
  }

  // ---------------------------------------------------------------------- the farewell

  function Farewells(sent: seq<ClientMsg>): nat {
    if sent == [] then 0 else Farewells(sent[..|sent| - 1]) + if sent[|sent| - 1].DetachSession? then 1 else 0
  }

  lemma FarewellsSnoc(sent: seq<ClientMsg>, message: ClientMsg)
    ensures Farewells(sent + [message]) == Farewells(sent) + if message.DetachSession? then 1 else 0
  {
    assert (sent + [message])[..|sent|] == sent;
  }

  lemma SendKeysParts<R>(c: Client<R>, scanned: Scanned, writes: nat)
    requires c.outcome.None?
    ensures
      var u := SendKeys(c, scanned, writes);
      Farewells(u.sent) == Farewells(c.sent) + if u.outcome == Some(Detached) then 1 else 0
  {
    if scanned.bytes != [] {
      FarewellsSnoc(c.sent, Input(scanned.bytes));
      if writes > 0 {
        FarewellsSnoc(c.sent + [Input(scanned.bytes)], DetachSession);
      }
    } else {
      FarewellsSnoc(c.sent, DetachSession);
    }
  }

  lemma ResizeParts<R>(setup: Setup<R>, c: Client<R>, physical: Size, writes: nat)
    requires c.outcome.None?
    ensures
      var u := OnResize(setup, c, physical, writes);
      Farewells(u.sent) == Farewells(c.sent) && u.outcome != Some(Detached)
  {
    FarewellsSnoc(c.sent, Resize(setup.resizeFrame(c.renderer, physical).1));
  }

  lemma ReactParts<R>(setup: Setup<R>, c: Client<R>, event: Event)
    requires c.outcome.None?
    ensures
      var u := React(setup, c, event);
      Farewells(u.sent) == Farewells(c.sent) + if u.outcome == Some(Detached) && !(event.InputEof? && event.writes == 0) then 1 else 0
  {
    match event
    case Keys(bytes, writes) =>
      var next := Scan(setup.prefix, Scanned([], c.held, false), bytes);
      SendKeysParts(c.(held := next.held), next, writes);
    case InputEof(_) => FarewellsSnoc(c.sent, DetachSession);
    case Resized(physical, writes) =>
      if c.resizeOpen {
        ResizeParts(setup, c, physical, writes);
      }
    case Message(message) => assert OnMessage(setup, c, message).sent == c.sent;
    case _ =>
  }

  /** A client that detaches says so, once, unless its input ended and the message did not get through; another never does. */
  lemma {:induction false} DetachingIsSaid<R>(setup: Setup<R>, c: Client<R>, events: seq<Event>)
    requires c.outcome.None?
    ensures
      var u, taken := Unbatched(setup, c, events), Taken(setup, c, events);
      Farewells(u.sent) == Farewells(c.sent) +
        if u.outcome == Some(Detached) && taken != [] && taken[|taken| - 1] != InputEof(0) then 1 else 0
  {
    if events != [] {
      var init, last := events[..|events| - 1], events[|events| - 1];
      DetachingIsSaid(setup, c, init);
      if Unbatched(setup, c, init).outcome.None? {
        ReactParts(setup, Unbatched(setup, c, init), last);
      }
    }
  }

  // ---------------------------------------------------------------------- attaching again

  /** The reply is an attach reply of this session, to a request that got through. */
  predicate Accepted(session: nat, round: Round) {
    round.asked && round.reply.Attached? && round.reply.session == session
  }

  /** The client that an accepted reply leaves: its bytes drawn, whole the first time and as more output later, and its end remembered. */
  lemma AcceptedShows<R>(setup: Setup<R>, c: Client<R>, initial: bool, round: Round)
    requires Accepted(setup.session, round)
    ensures
      var a, d := Attach(setup, c, initial, round), Drawn(c.renderer, c.size, [], []);
      var drawn := DrawOne(setup, d, if initial then Whole(round.reply.bytes) else More(round.reply.bytes));
      && a.outcome.None? && a.resizeOpen && a.held == c.held && a.lastSeen == Some(round.reply.end)
      && a.sent == c.sent + [AttachSession(c.size, c.lastSeen)]
      && a.renderer == drawn.renderer && a.size == c.size && a.terminal == c.terminal + drawn.frames
  {
  }

  /** Any other reply, or a lost request, ends the session with nothing drawn. */
  lemma RefusedEnds<R>(setup: Setup<R>, c: Client<R>, initial: bool, round: Round)
    requires !Accepted(setup.session, round)
    ensures
      var u := RunRound(setup, c, initial, round);
      && u.terminal == c.terminal && u.held == c.held && u.lastSeen == c.lastSeen
      && u.sent == (if round.asked then c.sent + [AttachSession(c.size, c.lastSeen)] else c.sent)
      && u.outcome == if !round.asked then Some(Failed)
                      else match round.reply
                        case Lost => Some(ConnectionLost)
                        case Refused(text) => Some(DaemonError(text))
                        case _ => Some(Failed)
  {
  }

  /** The events taken of a round. */
  function RoundTaken<R>(setup: Setup<R>, c: Client<R>, initial: bool, round: Round): seq<Event> {
    if Accepted(setup.session, round) then Taken(setup, Attach(setup, c, initial, round), round.events) else []
  }

  lemma {:induction false} SentGrows<R>(setup: Setup<R>, c: Client<R>, events: seq<Event>)
    ensures c.sent <= Unbatched(setup, c, events).sent
  {
    if events != [] {
      SentGrows(setup, c, events[..|events| - 1]);
    }
  }

  /** A round asks from the position that the client has, and leaves it with the end of the last reply or output. */
  lemma RoundPosition<R>(setup: Setup<R>, c: Client<R>, initial: bool, round: Round)
    ensures
      var u := RunRound(setup, c, initial, round);
      && (round.asked ==> c.sent + [AttachSession(c.size, c.lastSeen)] <= u.sent)
      && (Accepted(setup.session, round) ==>
            u.lastSeen == LastEnd(setup.session, Some(round.reply.end), RoundTaken(setup, c, initial, round)))
      && (u.outcome == Some(Lagged) ==> Accepted(setup.session, round))
  {
    if Accepted(setup.session, round) {
      var a := Attach(setup, c, initial, round);
      AcceptedShows(setup, c, initial, round);
      PositionIsLastEnd(setup, a, round.events);
      SentGrows(setup, a, round.events);
    } else {
      RefusedEnds(setup, c, initial, round);
    }
  }

  /** The client after the first `k` rounds, if each of them ended with a lag. */
  function AfterLags<R>(setup: Setup<R>, c: Client<R>, rounds: seq<Round>, k: nat): (u: Option<Client<R>>)
    requires k <= |rounds|
  {
    if k == 0 then Some(c)
    else
      var before := AfterLags(setup, c, rounds, k - 1);
      if before.None? then None
      else
        var u := RunRound(setup, before.value, k == 1, rounds[k - 1]);
        if u.outcome == Some(Lagged) then Some(u) else None
  }

  /** As long as rounds end with a lag, the session goes on with the next. */
  lemma {:induction false} SessionGoesOn<R>(setup: Setup<R>, c: Client<R>, rounds: seq<Round>, k: nat)
    requires k <= |rounds| && AfterLags(setup, c, rounds, k).Some?
    ensures RunSession(setup, c, true, rounds) == RunSession(setup, AfterLags(setup, c, rounds, k).value, k == 0, rounds[k..])
  {
    if k > 0 {
      SessionGoesOn(setup, c, rounds, k - 1);
      assert rounds[k - 1..][0] == rounds[k - 1] && rounds[k - 1..][1..] == rounds[k..];
    }
  }

  /** It ends with the first round that does not, or when there are no more. */
  lemma SessionEnds<R>(setup: Setup<R>, c: Client<R>, rounds: seq<Round>, k: nat)
    requires k < |rounds| && AfterLags(setup, c, rounds, k).Some? && AfterLags(setup, c, rounds, k + 1).None?
    ensures RunSession(setup, c, true, rounds) == RunRound(setup, AfterLags(setup, c, rounds, k).value, k == 0, rounds[k])
  {
    SessionGoesOn(setup, c, rounds, k);
    assert rounds[k..][0] == rounds[k];
  }

  /**
   * Each request after a lag names the end of the last attach reply or output before it: nothing that
   * was drawn is asked for again, and nothing is left out.
   */
  lemma AsksFromLastEnd<R>(setup: Setup<R>, c: Client<R>, rounds: seq<Round>, k: nat)
    requires 0 < k < |rounds| && AfterLags(setup, c, rounds, k).Some? && rounds[k].asked
    ensures AfterLags(setup, c, rounds, k - 1).Some? && Accepted(setup.session, rounds[k - 1])
    ensures
      var before, u := AfterLags(setup, c, rounds, k - 1).value, AfterLags(setup, c, rounds, k).value;
      var position := LastEnd(setup.session, Some(rounds[k - 1].reply.end), RoundTaken(setup, before, k == 1, rounds[k - 1]));
      u.sent + [AttachSession(u.size, position)] <= RunRound(setup, u, false, rounds[k]).sent
  {
    var before := AfterLags(setup, c, rounds, k - 1).value;
    RoundPosition(setup, before, k == 1, rounds[k - 1]);
    RoundPosition(setup, AfterLags(setup, c, rounds, k).value, false, rounds[k]);
  }

  lemma {:induction false} DrawAllFrom<R>(setup: Setup<R>, d: Drawn<R>, draws: seq<Draw>)
    ensures
      var alone := DrawAll(setup, d.(frames := [], sizes := []), draws);
      DrawAll(setup, d, draws) == alone.(frames := d.frames + alone.frames, sizes := d.sizes + alone.sizes)
  {
    if draws == [] {
      assert d.frames + [] == d.frames && d.sizes + [] == d.sizes;
    } else {
      DrawAllFrom(setup, d, draws[..|draws| - 1]);
    }
  }

  /** What one round draws. */
  function RoundDraws<R>(setup: Setup<R>, c: Client<R>, initial: bool, round: Round): seq<Draw>
    requires Accepted(setup.session, round)
  {
    [if initial then Whole(round.reply.bytes) else More(round.reply.bytes)]
    + DrawsOf(setup.session, true, RoundTaken(setup, c, initial, round))
  }

  lemma {:induction false} DrawFirst<R>(setup: Setup<R>, d: Drawn<R>, draw: Draw, draws: seq<Draw>)
    ensures DrawAll(setup, d, [draw] + draws) == DrawAll(setup, DrawOne(setup, d, draw), draws)
  {
    if draws == [] {
      assert [draw] + draws == [draw] && [draw][..0] == [];
    } else {
      DrawFirst(setup, d, draw, draws[..|draws| - 1]);
      assert ([draw] + draws)[..|draws|] == [draw] + draws[..|draws| - 1];
    }
  }

  /** The terminal after an accepted round: the reply's bytes, and then the outputs and sizes taken, in order. */
  lemma RoundShows<R>(setup: Setup<R>, c: Client<R>, initial: bool, round: Round)
    requires Accepted(setup.session, round)
    ensures
      var u := RunRound(setup, c, initial, round);
      var d := DrawAll(setup, Drawn(c.renderer, c.size, [], []), RoundDraws(setup, c, initial, round));
      u.renderer == d.renderer && u.size == d.size && u.terminal == c.terminal + d.frames
  {
    var a, start := Attach(setup, c, initial, round), Drawn(c.renderer, c.size, [], []);
    var draws := DrawsOf(setup.session, true, RoundTaken(setup, c, initial, round));
    var first := if initial then Whole(round.reply.bytes) else More(round.reply.bytes);
    AcceptedShows(setup, c, initial, round);
    TakenIsDrawn(setup, a, round.events);
    DrawFirst(setup, start, first, draws);
    var drawn := DrawOne(setup, start, first);
    DrawAllFrom(setup, drawn, draws);
    assert drawn.(frames := [], sizes := []) == Drawn(a.renderer, a.size, [], []);
    assert c.terminal + drawn.frames + DrawAll(setup, Drawn(a.renderer, a.size, [], []), draws).frames
        == c.terminal + (drawn.frames + DrawAll(setup, Drawn(a.renderer, a.size, [], []), draws).frames);
  }

  // ---------------------------------------------------------------------- typed input over a whole session

  /** The chunks of input taken in a round. */
  function RoundKeys<R>(setup: Setup<R>, c: Client<R>, initial: bool, round: Round): seq<seq<Byte>> {
    if Accepted(setup.session, round) then TakenKeys(setup, Attach(setup, c, initial, round), round.events) else []
  }

  /** Everything typed in a session, over all of its rounds. */
  function SessionKeys<R>(setup: Setup<R>, c: Client<R>, initial: bool, rounds: seq<Round>): seq<Byte>
    decreases |rounds|
  {
    if rounds == [] then []
    else
      var u, typed := RunRound(setup, c, initial, rounds[0]), Flatten(RoundKeys(setup, c, initial, rounds[0]));
      if u.outcome == Some(Lagged) then typed + SessionKeys(setup, u, false, rounds[1..]) else typed
  }

  /** The daemon got what the detach key lets through, and what is held back is as it says. */
  predicate Got<R>(c: Client<R>, u: Client<R>, scanned: Scanned) {
    u.outcome != Some(Failed) ==> Forwarded(u.sent) == Forwarded(c.sent) + scanned.bytes && u.held == scanned.held
  }

  lemma RoundGets<R>(setup: Setup<R>, c: Client<R>, initial: bool, round: Round)
    ensures
      var u := RunRound(setup, c, initial, round);
      var scanned := Scan(setup.prefix, Scanned([], c.held, false), Flatten(RoundKeys(setup, c, initial, round)));
      Got(c, u, scanned) && (u.outcome == Some(Lagged) ==> !scanned.detached)
  {
    ForwardedSnoc(c.sent, AttachSession(c.size, c.lastSeen));
    if Accepted(setup.session, round) {
      AcceptedShows(setup, c, initial, round);
      TypedIsForwarded(setup, Attach(setup, c, initial, round), round.events);
    } else {
      RefusedEnds(setup, c, initial, round);
    }
  }

  lemma ScanTwo(prefix: Byte, held: bool, typed: seq<Byte>, rest: seq<Byte>)
    requires !Scan(prefix, Scanned([], held, false), typed).detached
    ensures
      var so := Scan(prefix, Scanned([], held, false), typed);
      var next := Scan(prefix, Scanned([], so.held, false), rest);
      Scan(prefix, Scanned([], held, false), typed + rest) == next.(bytes := so.bytes + next.bytes)
  {
    ScanAppend(prefix, Scanned([], held, false), typed, rest);
    ScanFrom(prefix, Scan(prefix, Scanned([], held, false), typed), rest);
  }

  lemma GotCompose<R>(c: Client<R>, u: Client<R>, w: Client<R>, so: Scanned, next: Scanned)
    requires u.outcome == Some(Lagged) && Got(c, u, so) && Got(u, w, next)
    ensures Got(c, w, next.(bytes := so.bytes + next.bytes))
  {
    Regroup(Forwarded(c.sent), so.bytes, next.bytes);
  }

  lemma Regroup(a: seq<Byte>, b: seq<Byte>, c: seq<Byte>)
    ensures a + b + c == a + (b + c)
  {
  }

  /** However often the client falls behind and attaches again, the daemon gets what the detach key lets through of everything typed. */
  lemma {:induction false} SessionTypedIsForwarded<R>(setup: Setup<R>, c: Client<R>, initial: bool, rounds: seq<Round>)
    ensures Got(c, RunSession(setup, c, initial, rounds),
                Scan(setup.prefix, Scanned([], c.held, false), SessionKeys(setup, c, initial, rounds)))
    decreases |rounds|
  {
    if rounds != [] {
      var u, typed := RunRound(setup, c, initial, rounds[0]), Flatten(RoundKeys(setup, c, initial, rounds[0]));
      RoundGets(setup, c, initial, rounds[0]);
      if u.outcome == Some(Lagged) {
        SessionTypedIsForwarded(setup, u, false, rounds[1..]);
        var so, rest := Scan(setup.prefix, Scanned([], c.held, false), typed), SessionKeys(setup, u, false, rounds[1..]);
        ScanTwo(setup.prefix, c.held, typed, rest);
        GotCompose(c, u, RunSession(setup, u, false, rounds[1..]), so, Scan(setup.prefix, Scanned([], u.held, false), rest));
      }
    }
  }
}
