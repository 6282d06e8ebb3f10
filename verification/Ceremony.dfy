/**
 * The whole pairing ceremony: phones, the daemon's connections, the pairing manager and the
 * desktop. Any number of honest phones and of arbitrary authenticated peers run together; a
 * phone stores the daemon only at the end of one particular chain of events.
 */
module Ceremony {
  import opened Common
  import P = Pairing
  import opened PairingCode

  /** The daemon's identity, and the digest of a code and the two identities that a SAS shows. */
  datatype World = World(daemonId: string, digest: (string, string, string) -> string)

  /** `pairing_sas`, which normalizes the code it is given. */
  function Sas(w: World, code: string, phone: string): string {
    w.digest(NormalizeCode(code), w.daemonId, phone)
  }

  ghost predicate Injective(digest: (string, string, string) -> string) {
    forall a, b, c, d, e, f :: digest(a, b, c) == digest(d, e, f) ==> a == d && b == e && c == f
  }

  /** If digests do not collide, equal SAS mean the same code, the same daemon and the same phone. */
  lemma SasBinds(v: World, w: World, code: string, phone: string, otherCode: string, otherPhone: string)
    requires Injective(w.digest) && v.digest == w.digest
    ensures Sas(w, code, phone) == Sas(v, otherCode, otherPhone) <==>
      NormalizeCode(code) == NormalizeCode(otherCode) && w.daemonId == v.daemonId && phone == otherPhone
  {
  }

  // ----------------------------------------------------------------- the phone's gate

  /** `PendingPairingGate` as a value. */
  datatype Gate = Gate(localConfirmed: bool, daemonCompleted: bool, cancelled: bool, persisted: bool)

  const OPEN_GATE := Gate(false, false, false, false)

  datatype GateError = AlreadyCancelled | AlreadyCompleted | NotReady

  function ConfirmLocal(gate: Gate): P.Result<Gate, GateError> {
    if gate.cancelled then P.Err(AlreadyCancelled)
    else if gate.persisted then P.Err(AlreadyCompleted)
    else P.Ok(gate.(localConfirmed := true))
  }

  /** `record_daemon_completed` and `mark_persisted` under one lock. */
  function CompleteAndPersist(gate: Gate): P.Result<Gate, GateError> {
    if gate.cancelled then P.Err(AlreadyCancelled)
    else if !gate.localConfirmed then P.Err(NotReady)
    else P.Ok(gate.(daemonCompleted := true, persisted := true))
  }

  function CancelGate(gate: Gate): P.Result<Gate, GateError> {
    if gate.persisted then P.Err(AlreadyCompleted) else P.Ok(gate.(cancelled := true))
  }

  /** The gate object of one attempt. */
  class PendingPairingGate {
    var localConfirmed: bool
    var daemonCompleted: bool
    var cancelled: bool
    var persisted: bool

    function View(): Gate
      reads this
    {
      Gate(localConfirmed, daemonCompleted, cancelled, persisted)
    }

    constructor ()
      ensures View() == OPEN_GATE
    {
      localConfirmed, daemonCompleted, cancelled, persisted := false, false, false, false;
    }

    method Confirm() returns (r: P.Result<(), GateError>)
      modifies this
      ensures r == if old(cancelled) then P.Err(AlreadyCancelled) else if old(persisted) then P.Err(AlreadyCompleted) else P.Ok(())
      ensures View() == if r.Ok? then old(View()).(localConfirmed := true) else old(View())
      ensures View() == if r.Ok? then ConfirmLocal(old(View())).value else old(View())
    {
      if cancelled {
        return P.Err(AlreadyCancelled);
      }
      if persisted {
        return P.Err(AlreadyCompleted);
      }
      localConfirmed := true;
      r := P.Ok(());
    }

    method RecordDaemonCompleted() returns (r: P.Result<(), GateError>)
      modifies this
      ensures r == if old(cancelled) then P.Err(AlreadyCancelled) else P.Ok(())
      ensures View() == if r.Ok? then old(View()).(daemonCompleted := true) else old(View())
    {
      if cancelled {
        return P.Err(AlreadyCancelled);
      }
      daemonCompleted := true;
      r := P.Ok(());
    }

    method MarkPersisted() returns (r: P.Result<(), GateError>)
      modifies this
      ensures r == if old(localConfirmed && daemonCompleted && !cancelled) then P.Ok(()) else P.Err(NotReady)
      ensures View() == if r.Ok? then old(View()).(persisted := true) else old(View())
    {
      if !(localConfirmed && daemonCompleted && !cancelled) {
        return P.Err(NotReady);
      }
      persisted := true;
      r := P.Ok(());
    }

    /** The locked section of `confirm` after the daemon's completion. */
    method Persist() returns (r: P.Result<(), GateError>)
      modifies this
      ensures r == if old(cancelled) then P.Err(AlreadyCancelled) else if !old(localConfirmed) then P.Err(NotReady) else P.Ok(())
      ensures r.Ok? ==> View() == old(View()).(daemonCompleted := true, persisted := true)
      ensures r.Ok? ==> View() == CompleteAndPersist(old(View())).value
      ensures r.Err? ==> View() == if old(cancelled) then old(View()) else old(View()).(daemonCompleted := true)
    {
      r := RecordDaemonCompleted();
      if r.Ok? {
        r := MarkPersisted();
      }
    }

    method Cancel() returns (r: P.Result<(), GateError>)
      modifies this
      ensures r == if old(persisted) then P.Err(AlreadyCompleted) else P.Ok(())
      ensures View() == if r.Ok? then old(View()).(cancelled := true) else old(View())
      ensures View() == if r.Ok? then CancelGate(old(View())).value else old(View())
    {
      if persisted {
        return P.Err(AlreadyCompleted);
      }
      cancelled := true;
      r := P.Ok(());
    }
  }

  // --------------------------------------------------------------------- the machine

  /** `PairWithCode`. */
  datatype Request = PairWithCode(code: string, device: string)

  datatype Reply = PairingPending(sas: string) | PairingComplete(daemonId: string) | Refused

  /** How far the daemon is with the request it is serving on a connection. */
  datatype Serving =
    | Ready
    | Holding(sas: string)              // code taken
    | Asking(id: nat, sas: string)      // request registered with the desktop
    | Waiting(id: nat, sas: string)     // PairingPending written, wait() running
    | Granted(id: nat, sas: string)     // wait() returned true
    | Recorded(id: nat, sas: string)    // device saved

  /** How far the phone's attempt is. */
  datatype Attempt = Dialed | AwaitingUser | Confirming | Completed | Persisting | Paired | Failed

  /** A connection; `phone` is the identity that the transport authenticated. */
  datatype Conn = Conn(
    phone: string, honest: bool, code: string, serving: Serving,
    toDaemon: seq<Request>, toPhone: seq<Reply>, attempt: Attempt, gate: Gate)

  datatype State = State(mgr: P.State, conns: map<nat, Conn>)

  const INITIAL := State(P.INITIAL, map[])

  datatype Step =
    | Desk(step: P.Step)                              // anyone issuing codes, pruning, approving
    | Dial(c: nat, phone: string, ticket: string)     // an honest phone with a well-formed code sends its one request
    | Connect(c: nat, phone: string)                  // any other authenticated peer
    | Inject(c: nat, request: Request)                // ... sends whatever it likes
    | Read(c: nat, now: nat)
    | Register(c: nat, now: nat)
    | Tell(c: nat)
    | GiveUp(c: nat)                                  // the desktop's prompt is gone
    | Conclude(c: nat)
    | Return(c: nat)                                  // the guard drops, wait() returns
    | Save(c: nat)
    | Complete(c: nat)
    | PhoneReads(c: nat)
    | Confirm(c: nat)
    | ReadCompletion(c: nat)
    | PassGate(c: nat)
    | Store(c: nat)
    | Cancel(c: nat)

  predicate DeskStep(step: P.Step) {
    step.Prune? || step.Issue? || step.Approve? || step.Send?
  }

  /** The SAS the daemon derives for a code and an authenticated phone. */
  function DaemonSas(w: World, code: string, phone: string): string {
    Sas(w, NormalizeCode(code), phone)
  }

  predicate PhoneStep(step: Step) {
    step.PhoneReads? || step.Confirm? || step.ReadCompletion? || step.PassGate? || step.Store? || step.Cancel?
  }

  predicate ConnStep(step: Step) {
    !step.Desk? && !step.Dial? && !step.Connect? && !PhoneStep(step)
  }

  predicate PhoneEnabled(conn: Conn, step: Step)
    requires PhoneStep(step)
  {
    conn.honest &&
    match step
    case PhoneReads(_) => conn.attempt.Dialed? && conn.toPhone != []
    case ReadCompletion(_) => conn.attempt.Confirming? && conn.toPhone != []
    case PassGate(_) => conn.attempt.Completed?
    case Store(_) => conn.attempt.Persisting?
    case _ => !conn.attempt.Dialed?
  }

  predicate ConnEnabled(mgr: P.State, conn: Conn, step: Step)
    requires ConnStep(step)
  {
    match step
    case Inject(_, _) => !conn.honest
    case Read(c, _) => conn.serving.Ready? && conn.toDaemon != [] && c !in mgr.taken
    case Register(c, _) => conn.serving.Holding? && c in mgr.taken
    case Tell(_) => conn.serving.Asking?
    case GiveUp(_) => conn.serving.Asking? && conn.serving.id in mgr.waiters
    case Conclude(_) => conn.serving.Waiting? && P.Enabled(mgr, P.Conclude(conn.serving.id))
    case Return(_) =>
      conn.serving.Waiting? && conn.serving.id in mgr.waiters && mgr.waiters[conn.serving.id].phase.Done?
    case Save(_) => conn.serving.Granted?
    case _ => conn.serving.Recorded?
  }

  predicate Enabled(w: World, s: State, step: Step) {
    if step.Desk? then DeskStep(step.step) && P.Enabled(s.mgr, step.step)
    else if step.Dial? then step.c !in s.conns && step.c !in s.mgr.taken && IsValidCode(NormalizeCode(step.ticket))
    else if step.Connect? then step.c !in s.conns && step.c !in s.mgr.taken
    else
      && step.c in s.conns
      && if PhoneStep(step) then PhoneEnabled(s.conns[step.c], step) else ConnEnabled(s.mgr, s.conns[step.c], step)
  }

  /** The request at the head of the connection names another identity than the transport proved. */
  predicate WrongIdentity(conn: Conn)
    requires conn.toDaemon != []
  {
    conn.toDaemon[0].device != conn.phone
  }

  /** The manager's part of a step. */
  function ManagerStep(w: World, s: State, step: Step): (m: Option<P.Step>)
    requires Enabled(w, s, step)
    ensures m.Some? ==> P.Enabled(s.mgr, m.value)
  {
    match step
    case Desk(p) => Some(p)
    case Read(c, now) =>
      if WrongIdentity(s.conns[c]) then None
      else Some(P.Take(c, NormalizeCode(s.conns[c].toDaemon[0].code), now))
    case Register(c, now) => Some(P.Register(c, s.conns[c].phone, s.conns[c].serving.sas, now))
    case GiveUp(c) => Some(P.Drop(s.conns[c].serving.id))
    case Conclude(c) => Some(P.Conclude(s.conns[c].serving.id))
    case Return(c) => Some(P.Drop(s.conns[c].serving.id))
    case Save(c) => Some(P.Note(P.Saved(c, s.conns[c].phone, s.conns[c].serving.id)))
    case Confirm(c) => if ConfirmLocal(s.conns[c].gate).Ok? then Some(P.Note(P.Confirmed(c))) else None
    case Cancel(c) => if CancelGate(s.conns[c].gate).Ok? then Some(P.Note(P.Cancelled(c))) else None
    case Store(c) => Some(P.Note(P.Stored(c)))
    case _ => None
  }

  function Told(conn: Conn, reply: Reply): Conn {
    conn.(toPhone := conn.toPhone + [reply])
  }

  function AfterRead(w: World, mgr: P.State, conn: Conn): Conn
    requires conn.toDaemon != []
  {
    var rest := conn.(toDaemon := conn.toDaemon[1..]);
    if WrongIdentity(conn) || NormalizeCode(conn.toDaemon[0].code) !in mgr.codes then Told(rest, Refused)
    else rest.(serving := Holding(DaemonSas(w, conn.toDaemon[0].code, conn.phone)))
  }

  /** The daemon's side of a step. */
  function DaemonAfter(w: World, mgr: P.State, conn: Conn, step: Step): Conn
    requires ConnStep(step) && ConnEnabled(mgr, conn, step)
  {
    match step
    case Inject(_, request) => conn.(toDaemon := conn.toDaemon + [request])
    case Read(_, _) => AfterRead(w, mgr, conn)
    case Register(c, now) =>
      if mgr.taken[c].expiresAt <= now then Told(conn.(serving := Ready), Refused)
      else conn.(serving := Asking(mgr.nextRequest, conn.serving.sas))
    case Tell(_) => Told(conn.(serving := Waiting(conn.serving.id, conn.serving.sas)), PairingPending(conn.serving.sas))
    case GiveUp(_) => Told(conn.(serving := Ready), Refused)
    case Return(_) =>
      if mgr.waiters[conn.serving.id].phase.result then conn.(serving := Granted(conn.serving.id, conn.serving.sas))
      else Told(conn.(serving := Ready), Refused)
    case Save(_) => conn.(serving := Recorded(conn.serving.id, conn.serving.sas))
    case Complete(_) => Told(conn.(serving := Ready), PairingComplete(w.daemonId))
    case _ => conn
  }

  /** `confirm`, up to the wait for the daemon: the flag is set even when the streams are gone. */
  function AfterConfirm(conn: Conn): Conn {
    match ConfirmLocal(conn.gate)
    case Ok(gate) => conn.(gate := gate, attempt := if conn.attempt.AwaitingUser? then Confirming else conn.attempt)
    case Err(_) => conn
  }

  /** `cancel`: the streams are closed if no `confirm` has taken them. */
  function AfterCancel(conn: Conn): Conn {
    match CancelGate(conn.gate)
    case Ok(gate) => conn.(gate := gate, attempt := if conn.attempt.AwaitingUser? then Failed else conn.attempt)
    case Err(_) => conn
  }

  function AfterGate(conn: Conn): Conn {
    match CompleteAndPersist(conn.gate)
    case Ok(gate) => conn.(gate := gate, attempt := Persisting)
    case Err(_) => conn.(attempt := Failed)
  }

  /** The phone's side of a step. */
  function PhoneAfter(w: World, conn: Conn, step: Step): Conn
    requires PhoneStep(step) && PhoneEnabled(conn, step)
  {
    match step
    case PhoneReads(_) =>
      conn.(toPhone := conn.toPhone[1..],
            attempt := if conn.toPhone[0] == PairingPending(Sas(w, conn.code, conn.phone))
                       then AwaitingUser else Failed)
    case Confirm(_) => AfterConfirm(conn)
    case ReadCompletion(_) =>
      conn.(toPhone := conn.toPhone[1..],
            attempt := if conn.toPhone[0] == PairingComplete(w.daemonId) then Completed else Failed)
    case PassGate(_) => AfterGate(conn)
    case Store(_) => conn.(attempt := Paired)
    case _ => AfterCancel(conn)
  }

  /** The connection's part of a step. */
  function ConnAfter(w: World, s: State, step: Step): Conn
    requires Enabled(w, s, step) && !step.Desk?
  {
    if step.Dial? then
      var code := NormalizeCode(step.ticket);
      Conn(step.phone, true, code, Ready, [PairWithCode(code, step.phone)], [], Dialed, OPEN_GATE)
    else if step.Connect? then Conn(step.phone, false, "", Ready, [], [], Dialed, OPEN_GATE)
    else if PhoneStep(step) then PhoneAfter(w, s.conns[step.c], step)
    else DaemonAfter(w, s.mgr, s.conns[step.c], step)
  }

  function Managed(w: World, s: State, step: Step): (mgr: P.State)
    requires Enabled(w, s, step)
  {
    var m := ManagerStep(w, s, step);
    if m.Some? then P.Apply(s.mgr, m.value) else s.mgr
  }

  function Apply(w: World, s: State, step: Step): State
    requires Enabled(w, s, step)
  {
    State(Managed(w, s, step), if step.Desk? then s.conns else s.conns[step.c := ConnAfter(w, s, step)])
  }

  function Run(w: World, steps: seq<Step>): Option<State> {
    if steps == [] then Some(INITIAL)
    else
      var before := Run(w, steps[..|steps| - 1]);
      var last := steps[|steps| - 1];
      if before.Some? && Enabled(w, before.value, last) then Some(Apply(w, before.value, last)) else None
  }

  // ------------------------------------------------------------ reading the history

  /** The daemon saved this phone on this connection, for a backed request with this SAS. */
  predicate SavedFor(h: seq<P.Event>, c: nat, phone: string, sas: string) {
    h != [] && (SavedFor(P.Before(h), c, phone, sas)
                || (var last := h[|h| - 1];
                    last.Saved? && last.conn == c && last.device == phone && P.Backed(P.Before(h), last.id, phone, sas)))
  }

  /** Every time the phone stored the daemon, it had been confirmed and saved before. */
  predicate StoredAfterAll(h: seq<P.Event>, c: nat, phone: string, sas: string) {
    h == [] || (StoredAfterAll(P.Before(h), c, phone, sas)
                && (h[|h| - 1] == P.Stored(c) ==>
                      P.Confirmed(c) in P.Before(h) && SavedFor(P.Before(h), c, phone, sas)))
  }

  // ---------------------------------------------------------------------- invariant

  predicate ServingOk(mgr: P.State, c: nat, conn: Conn) {
    match conn.serving
    case Ready => c !in mgr.taken
    case Holding(_) => c in mgr.taken
    case Granted(id, sas) => c !in mgr.taken && P.Backed(mgr.history, id, conn.phone, sas)
    case Recorded(id, sas) => c !in mgr.taken && SavedFor(mgr.history, c, conn.phone, sas)
    case _ =>
      var id, sas := conn.serving.id, conn.serving.sas;
      c !in mgr.taken && id in mgr.waiters && mgr.waiters[id].device == conn.phone && mgr.waiters[id].sas == sas
  }

  /** What the phone may conclude from a reply it has not read yet. */
  predicate ReplyOk(h: seq<P.Event>, c: nat, phone: string, sas: string, reply: Reply) {
    match reply
    case PairingPending(said) => said == sas
    case PairingComplete(_) => SavedFor(h, c, phone, sas)
    case Refused => true
  }

  ghost predicate PhoneOk(w: World, h: seq<P.Event>, c: nat, conn: Conn) {
    var sas := DaemonSas(w, conn.code, conn.phone);
    && (forall i :: 0 <= i < |conn.toDaemon| ==> conn.toDaemon[i] == PairWithCode(conn.code, conn.phone))
    && (!conn.serving.Ready? ==> conn.serving.sas == sas)
    && (forall i :: 0 <= i < |conn.toPhone| ==> ReplyOk(h, c, conn.phone, sas, conn.toPhone[i]))
    && (!conn.attempt.Dialed? && !conn.attempt.Failed? ==> sas == Sas(w, conn.code, conn.phone))
    && (conn.attempt.Completed? || conn.attempt.Persisting? || conn.attempt.Paired? ==> SavedFor(h, c, conn.phone, sas))
    && (conn.gate.persisted <==> conn.attempt.Persisting? || conn.attempt.Paired?)
    && (conn.gate.persisted ==> conn.gate.localConfirmed && !conn.gate.cancelled)
    && (conn.gate.localConfirmed ==> P.Confirmed(c) in h)
    && (conn.gate.cancelled <==> P.Cancelled(c) in h)
    && (P.Stored(c) in h ==> conn.attempt.Paired?)
    && StoredAfterAll(h, c, conn.phone, sas)
  }

  ghost predicate ConnOk(w: World, mgr: P.State, c: nat, conn: Conn) {
    ServingOk(mgr, c, conn) && (conn.honest ==> PhoneOk(w, mgr.history, c, conn))
  }

  /** The request a connection has with the desktop, if any. */
  function RequestOf(conn: Conn): Option<nat> {
    if conn.serving.Asking? || conn.serving.Waiting? then Some(conn.serving.id) else None
  }

  ghost predicate Inv(w: World, s: State) {
    && P.Inv(s.mgr)
    && (forall c :: c in s.conns ==> ConnOk(w, s.mgr, c, s.conns[c]))
    && (forall c, d :: c in s.conns && d in s.conns && c != d && RequestOf(s.conns[c]).Some? ==>
          RequestOf(s.conns[c]) != RequestOf(s.conns[d]))
    && Owned(s.mgr, s.conns.Keys)
  }

  predicate Mentions(h: seq<P.Event>, c: nat) {
    P.Confirmed(c) in h || P.Cancelled(c) in h || P.Stored(c) in h
  }

  /** Only existing connections hold codes or have a phone's events. */
  ghost predicate Owned(mgr: P.State, owners: set<nat>) {
    (forall c :: c in mgr.taken ==> c in owners) && (forall c: nat :: Mentions(mgr.history, c) ==> c in owners)
  }

  // --------------------------------------------------------- the other connections

  /** What a manager step may do to a connection that did not take it. */
  ghost predicate Elsewhere(s: P.State, t: P.State, c: nat, request: Option<nat>) {
    && (t.history == s.history || (t.history != [] && P.Before(t.history) == s.history
          && t.history[|t.history| - 1] !in {P.Confirmed(c), P.Cancelled(c), P.Stored(c)}))
    && (c in t.taken <==> c in s.taken)
    && (request.Some? && request.value in s.waiters ==>
          && request.value in t.waiters
          && t.waiters[request.value].device == s.waiters[request.value].device
          && t.waiters[request.value].sas == s.waiters[request.value].sas)
  }

  lemma InHistory(h: seq<P.Event>, g: seq<P.Event>, event: P.Event)
    requires g != [] && P.Before(g) == h
    ensures event in g <==> event in h || event == g[|g| - 1]
  {
    assert g == h + [g[|g| - 1]];
  }

  lemma PhoneRemembers(w: World, h: seq<P.Event>, g: seq<P.Event>, c: nat, conn: Conn)
    requires PhoneOk(w, h, c, conn)
    requires g == h || (g != [] && P.Before(g) == h && g[|g| - 1] !in {P.Confirmed(c), P.Cancelled(c), P.Stored(c)})
    ensures PhoneOk(w, g, c, conn)
  {
    if g != h {
      InHistory(h, g, P.Confirmed(c));
      InHistory(h, g, P.Cancelled(c));
      InHistory(h, g, P.Stored(c));
      var sas := DaemonSas(w, conn.code, conn.phone);
      forall i | 0 <= i < |conn.toPhone| ensures ReplyOk(g, c, conn.phone, sas, conn.toPhone[i]) {
        assert ReplyOk(h, c, conn.phone, sas, conn.toPhone[i]);
      }
    }
  }

  lemma ElsewhereKeeps(w: World, s: P.State, t: P.State, c: nat, conn: Conn)
    requires ConnOk(w, s, c, conn) && Elsewhere(s, t, c, RequestOf(conn))
    ensures ConnOk(w, t, c, conn)
  {
    if conn.honest {
      PhoneRemembers(w, s.history, t.history, c, conn);
    }
  }

  /** A manager step on behalf of another connection. */
  ghost predicate NotFor(p: P.Step, d: nat, request: Option<nat>) {
    match p
    case Take(caller, _, _) => caller != d
    case Register(caller, _, _, _) => caller != d
    case Conclude(id) => request != Some(id)
    case Drop(id) => request != Some(id)
    case Note(event) => event !in {P.Confirmed(d), P.Cancelled(d), P.Stored(d)}
    case _ => true
  }

  lemma ManagerElsewhere(s: P.State, p: P.Step, d: nat, request: Option<nat>)
    requires P.Enabled(s, p) && NotFor(p, d, request) && s.nextRequest !in s.waiters
    ensures Elsewhere(s, P.Apply(s, p), d, request)
  {
    P.HistoryStep(s, p);
  }

  lemma StepIsElsewhere(w: World, s: State, step: Step, d: nat)
    requires Inv(w, s) && Enabled(w, s, step) && d in s.conns && (!step.Desk? ==> step.c != d)
    ensures Elsewhere(s.mgr, Managed(w, s, step), d, RequestOf(s.conns[d]))
  {
    var p := ManagerStep(w, s, step);
    if p.Some? {
      assert forall id :: id in s.mgr.waiters ==> P.WaiterOk(s.mgr, id);
      ManagerElsewhere(s.mgr, p.value, d, RequestOf(s.conns[d]));
    }
  }

  // ------------------------------------------------------------ the stepping connection

  lemma DaemonKeeps(w: World, s: State, step: Step)
    requires ConnStep(step) && Enabled(w, s, step)
    requires P.ApprovalsOk(s.mgr) && ServingOk(s.mgr, step.c, s.conns[step.c])
    ensures ServingOk(Managed(w, s, step), step.c, DaemonAfter(w, s.mgr, s.conns[step.c], step))
  {
    var conn := s.conns[step.c];
    if step.Return? {
      assert P.WaiterOk(s.mgr, conn.serving.id);
    } else if step.Save? {
      P.Snoc(s.mgr.history, P.Saved(step.c, conn.phone, conn.serving.id));
    }
  }

  /** The daemon's steps tell an honest phone only what is so. */
  lemma DaemonTellsTruth(w: World, mgr: P.State, h: seq<P.Event>, conn: Conn, step: Step)
    requires ConnStep(step) && ConnEnabled(mgr, conn, step) && conn.honest
    requires PhoneOk(w, h, step.c, conn)
    requires step.Complete? ==> SavedFor(h, step.c, conn.phone, conn.serving.sas)
    ensures PhoneOk(w, h, step.c, DaemonAfter(w, mgr, conn, step))
  {
    var next, sas := DaemonAfter(w, mgr, conn, step), DaemonSas(w, conn.code, conn.phone);
    if step.Read? {
      assert conn.toDaemon[0] == PairWithCode(conn.code, conn.phone);
    }
    forall i | 0 <= i < |next.toPhone| ensures ReplyOk(h, step.c, conn.phone, sas, next.toPhone[i]) {
      assert i < |conn.toPhone| ==> ReplyOk(h, step.c, conn.phone, sas, conn.toPhone[i]);
    }
  }

  lemma HonestDaemonStep(w: World, s: State, step: Step)
    requires ConnStep(step) && Enabled(w, s, step) && s.conns[step.c].honest
    requires P.ApprovalsOk(s.mgr) && ConnOk(w, s.mgr, step.c, s.conns[step.c])
    ensures ConnOk(w, Managed(w, s, step), step.c, DaemonAfter(w, s.mgr, s.conns[step.c], step))
  {
    var conn, t, m := s.conns[step.c], Managed(w, s, step), ManagerStep(w, s, step);
    DaemonKeeps(w, s, step);
    if m.Some? {
      P.HistoryStep(s.mgr, m.value);
    }
    PhoneRemembers(w, s.mgr.history, t.history, step.c, conn);
    DaemonTellsTruth(w, s.mgr, t.history, conn, step);
  }

  /** Reading a reply: the SAS comparison and the identity comparison. */
  lemma PhoneReadingKeeps(w: World, h: seq<P.Event>, conn: Conn, step: Step)
    requires (step.PhoneReads? || step.ReadCompletion?) && PhoneEnabled(conn, step) && PhoneOk(w, h, step.c, conn)
    ensures PhoneOk(w, h, step.c, PhoneAfter(w, conn, step))
  {
    assert ReplyOk(h, step.c, conn.phone, DaemonSas(w, conn.code, conn.phone), conn.toPhone[0]);
  }

  /** Confirming, cancelling and storing each log one event of their own. */
  lemma PhoneActingKeeps(w: World, h: seq<P.Event>, conn: Conn, step: Step, event: P.Event)
    requires PhoneStep(step) && PhoneEnabled(conn, step) && PhoneOk(w, h, step.c, conn)
    requires (step.Confirm? && ConfirmLocal(conn.gate).Ok? && event == P.Confirmed(step.c))
          || (step.Cancel? && CancelGate(conn.gate).Ok? && event == P.Cancelled(step.c))
          || (step.Store? && event == P.Stored(step.c))
    ensures PhoneOk(w, h + [event], step.c, PhoneAfter(w, conn, step))
  {
    var g, c := h + [event], step.c;
    P.Snoc(h, event);
    var sas := DaemonSas(w, conn.code, conn.phone);
    forall i | 0 <= i < |conn.toPhone| ensures ReplyOk(g, c, conn.phone, sas, conn.toPhone[i]) {
      assert ReplyOk(h, c, conn.phone, sas, conn.toPhone[i]);
    }
  }

  /** The daemon's side of a connection is not touched by the phone's step. */
  lemma PhoneLeavesServing(w: World, s: State, step: Step)
    requires PhoneStep(step) && Enabled(w, s, step) && ServingOk(s.mgr, step.c, s.conns[step.c])
    ensures ServingOk(Managed(w, s, step), step.c, PhoneAfter(w, s.conns[step.c], step))
  {
    var m := ManagerStep(w, s, step);
    if m.Some? {
      P.Snoc(s.mgr.history, m.value.event);
    }
  }

  /** Passing the gate, or being turned away by it, logs nothing. */
  lemma PhoneGateKeeps(w: World, h: seq<P.Event>, conn: Conn, step: Step)
    requires PhoneStep(step) && PhoneEnabled(conn, step) && PhoneOk(w, h, step.c, conn)
    requires step.PassGate? || (step.Confirm? && ConfirmLocal(conn.gate).Err?) || (step.Cancel? && CancelGate(conn.gate).Err?)
    ensures PhoneOk(w, h, step.c, PhoneAfter(w, conn, step))
  {
  }

  /** What a phone's step logs. */
  function PhoneEvent(conn: Conn, step: Step): Option<P.Event>
    requires PhoneStep(step)
  {
    match step
    case Store(c) => Some(P.Stored(c))
    case Confirm(c) => if ConfirmLocal(conn.gate).Ok? then Some(P.Confirmed(c)) else None
    case Cancel(c) => if CancelGate(conn.gate).Ok? then Some(P.Cancelled(c)) else None
    case _ => None
  }

  lemma PhoneLogs(w: World, s: State, step: Step)
    requires PhoneStep(step) && Enabled(w, s, step)
    ensures var event := PhoneEvent(s.conns[step.c], step);
      Managed(w, s, step).history == if event.Some? then s.mgr.history + [event.value] else s.mgr.history
  {
  }

  lemma PhoneStepKeeps(w: World, h: seq<P.Event>, conn: Conn, step: Step)
    requires PhoneStep(step) && PhoneEnabled(conn, step) && PhoneOk(w, h, step.c, conn)
    ensures var event := PhoneEvent(conn, step);
      PhoneOk(w, if event.Some? then h + [event.value] else h, step.c, PhoneAfter(w, conn, step))
  {
    var event := PhoneEvent(conn, step);
    if event.Some? {
      PhoneActingKeeps(w, h, conn, step, event.value);
    } else if step.PhoneReads? || step.ReadCompletion? {
      PhoneReadingKeeps(w, h, conn, step);
    } else {
      PhoneGateKeeps(w, h, conn, step);
    }
  }

  lemma HonestPhoneStep(w: World, s: State, step: Step)
    requires PhoneStep(step) && Enabled(w, s, step) && ConnOk(w, s.mgr, step.c, s.conns[step.c])
    ensures ConnOk(w, Managed(w, s, step), step.c, PhoneAfter(w, s.conns[step.c], step))
  {
    PhoneLeavesServing(w, s, step);
    PhoneLogs(w, s, step);
    if s.conns[step.c].honest {
      PhoneStepKeeps(w, s.mgr.history, s.conns[step.c], step);
    }
  }

  lemma {:induction false} NeverStored(h: seq<P.Event>, c: nat, phone: string, sas: string)
    requires P.Stored(c) !in h
    ensures StoredAfterAll(h, c, phone, sas)
  {
    if h != [] {
      NeverStored(P.Before(h), c, phone, sas);
    }
  }

  /** Whatever the step, the connection that takes it stays in order. */
  lemma OwnKeeps(w: World, s: State, step: Step)
    requires Inv(w, s) && Enabled(w, s, step) && !step.Desk?
    ensures ConnOk(w, Managed(w, s, step), step.c, ConnAfter(w, s, step))
  {
    if step.Dial? {
      NeverStored(s.mgr.history, step.c, step.phone, DaemonSas(w, NormalizeCode(step.ticket), step.phone));
    } else if step.Connect? {
    } else {
      assert ConnOk(w, s.mgr, step.c, s.conns[step.c]);
      if PhoneStep(step) {
        HonestPhoneStep(w, s, step);
      } else if s.conns[step.c].honest {
        HonestDaemonStep(w, s, step);
      } else {
        DaemonKeeps(w, s, step);
      }
    }
  }

  /** A new request's number is above every number in use. */
  lemma RequestsDistinct(w: World, s: State, step: Step, d: nat)
    requires Inv(w, s) && Enabled(w, s, step) && !step.Desk? && d in s.conns && d != step.c
    ensures var request := RequestOf(ConnAfter(w, s, step));
            request.Some? ==> request != RequestOf(s.conns[d])
  {
    assert ServingOk(s.mgr, d, s.conns[d]) by {
      assert ConnOk(w, s.mgr, d, s.conns[d]);
    }
    if RequestOf(s.conns[d]).Some? {
      assert P.WaiterOk(s.mgr, RequestOf(s.conns[d]).value);
    }
    RequestAfter(w, s, step);
  }

  lemma RequestAfter(w: World, s: State, step: Step)
    requires Enabled(w, s, step) && !step.Desk?
    ensures var request := RequestOf(ConnAfter(w, s, step));
            || request.None? || request == Some(s.mgr.nextRequest)
            || (step.c in s.conns && request == RequestOf(s.conns[step.c]))
  {
  }

  lemma OwnersRemembered(s: P.State, p: P.Step, before: set<nat>, after: set<nat>)
    requires P.Enabled(s, p) && Owned(s, before) && before <= after
    requires p.Take? ==> p.caller in after
    requires p.Note? ==> forall c: nat :: Mentions([p.event], c) ==> c in after
    ensures Owned(P.Apply(s, p), after)
  {
    var t := P.Apply(s, p);
    P.HistoryStep(s, p);
    forall c: nat | Mentions(t.history, c) ensures c in after {
      if !Mentions(s.history, c) {
        assert Mentions([t.history[|s.history|]], c);
      }
    }
  }

  lemma OwnersKeep(w: World, s: State, step: Step)
    requires Owned(s.mgr, s.conns.Keys) && Enabled(w, s, step)
    ensures Owned(Apply(w, s, step).mgr, Apply(w, s, step).conns.Keys)
  {
    var m := ManagerStep(w, s, step);
    var owners := s.conns.Keys + if step.Desk? then {} else {step.c};
    assert Apply(w, s, step).conns.Keys == owners;
    if m.Some? {
      OwnersRemembered(s.mgr, m.value, s.conns.Keys, owners);
    }
  }

  lemma StepKeeps(w: World, s: State, step: Step)
    requires Inv(w, s) && Enabled(w, s, step)
    ensures Inv(w, Apply(w, s, step))
  {
    var t := Apply(w, s, step);
    if ManagerStep(w, s, step).Some? {
      P.StepKeeps(s.mgr, ManagerStep(w, s, step).value);
    }
    OwnersKeep(w, s, step);
    forall d | d in t.conns ensures ConnOk(w, t.mgr, d, t.conns[d]) {
      if !step.Desk? && d == step.c {
        OwnKeeps(w, s, step);
      } else {
        assert ConnOk(w, s.mgr, d, s.conns[d]);
        StepIsElsewhere(w, s, step, d);
        ElsewhereKeeps(w, s.mgr, t.mgr, d, s.conns[d]);
      }
    }
    if !step.Desk? {
      forall d | d in s.conns && d != step.c && RequestOf(t.conns[step.c]).Some?
        ensures RequestOf(t.conns[step.c]) != RequestOf(s.conns[d])
      {
        RequestsDistinct(w, s, step, d);
      }
    }
  }

  lemma {:induction false} RunKeeps(w: World, steps: seq<Step>)
    requires Run(w, steps).Some?
    ensures Inv(w, Run(w, steps).value)
  {
    if steps != [] {
      RunKeeps(w, steps[..|steps| - 1]);
      StepKeeps(w, Run(w, steps[..|steps| - 1]).value, steps[|steps| - 1]);
    }
  }

  // ------------------------------------------------------------------------ theorem

  lemma {:induction false} SavedInOrder(h: seq<P.Event>, c: nat, phone: string, sas: string)
    returns (consumed: nat, registered: nat, approved: nat, saved: nat)
    requires SavedFor(h, c, phone, sas)
    ensures consumed < registered < approved < saved < |h|
    ensures h[consumed].Consumed? && h[registered].Registered? && h[saved].Saved?
    ensures var id := h[saved].id;
            && h[registered] == P.Registered(id, h[consumed].prompt, phone, sas, h[registered].remaining)
            && h[registered].remaining > 0
            && h[approved] == P.Approved(id, true) && h[saved] == P.Saved(c, phone, id)
  {
    if SavedFor(P.Before(h), c, phone, sas) {
      consumed, registered, approved, saved := SavedInOrder(P.Before(h), c, phone, sas);
    } else {
      saved := |h| - 1;
      consumed, registered, approved := P.BackedInOrder(P.Before(h), h[saved].id, phone, sas);
    }
  }

  lemma {:induction false} StoredNeeds(h: seq<P.Event>, k: nat, c: nat, phone: string, sas: string)
    requires StoredAfterAll(h, c, phone, sas) && k < |h| && h[k] == P.Stored(c)
    ensures P.Confirmed(c) in h[..k] && SavedFor(h[..k], c, phone, sas)
  {
    if k < |h| - 1 {
      StoredNeeds(P.Before(h), k, c, phone, sas);
      assert P.Before(h)[..k] == h[..k];
    }
  }

  /**
   * In every run, when an honest phone stores the daemon: the user had confirmed and never
   * cancelled, and before that, in this order, a code was consumed, became a request with time
   * left, the desktop approved that request, and the daemon saved this phone's authenticated
   * identity; and the request carried the very SAS that the phone computed and compared.
   */
  lemma EndToEnd(w: World, steps: seq<Step>, c: nat, k: nat)
    returns (consumed: nat, registered: nat, approved: nat, saved: nat)
    requires Run(w, steps).Some? && c in Run(w, steps).value.conns && Run(w, steps).value.conns[c].honest
    requires k < |Run(w, steps).value.mgr.history| && Run(w, steps).value.mgr.history[k] == P.Stored(c)
    ensures
      var h, conn := Run(w, steps).value.mgr.history, Run(w, steps).value.conns[c];
      && P.Confirmed(c) in h[..k] && P.Cancelled(c) !in h
      && consumed < registered < approved < saved < k
      && h[consumed].Consumed? && h[registered].Registered? && h[saved].Saved?
      && h[registered] == P.Registered(h[saved].id, h[consumed].prompt, conn.phone,
                                       Sas(w, conn.code, conn.phone), h[registered].remaining)
      && h[registered].remaining > 0
      && h[approved] == P.Approved(h[saved].id, true)
      && h[saved] == P.Saved(c, conn.phone, h[saved].id)
  {
    RunKeeps(w, steps);
    var s := Run(w, steps).value;
    var h, conn := s.mgr.history, s.conns[c];
    assert ConnOk(w, s.mgr, c, conn);
    StoredNeeds(h, k, c, conn.phone, DaemonSas(w, conn.code, conn.phone));
    consumed, registered, approved, saved := SavedInOrder(h[..k], c, conn.phone, DaemonSas(w, conn.code, conn.phone));
  }

  // ------------------------------------------------------------- what else the steps do

  /**
   * A request that names another identity than the transport proved is refused, and the manager does
   * not even look at its code; any other is a try of its normalized code.
   */
  lemma ReadChecksIdentity(w: World, s: State, c: nat, now: nat)
    requires Enabled(w, s, Read(c, now))
    ensures
      var t, conn, next := Apply(w, s, Read(c, now)), s.conns[c], Apply(w, s, Read(c, now)).conns[c];
      var request := conn.toDaemon[0];
      && next.toDaemon == conn.toDaemon[1..]
      && if request.device != conn.phone then t.mgr == s.mgr && next.serving.Ready? && next.toPhone == conn.toPhone + [Refused]
         else
           && t.mgr == P.Apply(s.mgr, P.Take(c, NormalizeCode(request.code), now))
           && if NormalizeCode(request.code) in s.mgr.codes
              then next.serving == Holding(DaemonSas(w, request.code, conn.phone)) && next.toPhone == conn.toPhone
              else next.serving.Ready? && next.toPhone == conn.toPhone + [Refused]
  {
  }

  /** The phone goes on exactly if it was told its own SAS, and completes exactly if it was told of completion by the daemon it dialled. */
  lemma PhoneCompares(w: World, s: State, c: nat)
    ensures Enabled(w, s, PhoneReads(c)) ==>
      (Apply(w, s, PhoneReads(c)).conns[c].attempt.AwaitingUser? <==>
       s.conns[c].toPhone[0] == PairingPending(Sas(w, s.conns[c].code, s.conns[c].phone)))
    ensures Enabled(w, s, ReadCompletion(c)) ==>
      (Apply(w, s, ReadCompletion(c)).conns[c].attempt.Completed? <==> s.conns[c].toPhone[0] == PairingComplete(w.daemonId))
  {
  }

  lemma {:induction false} HistoryGrows(w: World, steps: seq<Step>, more: seq<Step>, c: nat)
    requires Run(w, steps + more).Some? && Run(w, steps).Some? && c in Run(w, steps).value.conns
    ensures c in Run(w, steps + more).value.conns
    ensures Run(w, steps + more).value.conns[c].honest == Run(w, steps).value.conns[c].honest
    ensures forall event :: event in Run(w, steps).value.mgr.history ==> event in Run(w, steps + more).value.mgr.history
    decreases |more|
  {
    if more == [] {
      assert steps + more == steps;
    } else {
      var init, last := more[..|more| - 1], more[|more| - 1];
      assert (steps + more)[..|steps + more| - 1] == steps + init;
      HistoryGrows(w, steps, init, c);
      StepGrows(w, Run(w, steps + init).value, last, c);
    }
  }

  lemma StepGrows(w: World, s: State, step: Step, c: nat)
    requires Enabled(w, s, step) && c in s.conns
    ensures c in Apply(w, s, step).conns && Apply(w, s, step).conns[c].honest == s.conns[c].honest
    ensures forall event :: event in s.mgr.history ==> event in Apply(w, s, step).mgr.history
  {
    var m := ManagerStep(w, s, step);
    if m.Some? {
      P.HistoryStep(s.mgr, m.value);
    }
    if !step.Desk? && !step.Dial? && !step.Connect? {
      CodeIsKept(w, s, step);
    }
  }

  /** An attempt that has not passed its gate can be cancelled, and then the phone never stores the daemon, whatever follows. */
  lemma CancelWorks(w: World, steps: seq<Step>, c: nat, more: seq<Step>)
    requires Run(w, steps).Some? && c in Run(w, steps).value.conns
    requires
      var conn := Run(w, steps).value.conns[c];
      conn.honest && !conn.attempt.Dialed? && !conn.attempt.Persisting? && !conn.attempt.Paired?
    ensures Run(w, steps + [Cancel(c)]).Some? && P.Cancelled(c) in Run(w, steps + [Cancel(c)]).value.mgr.history
    ensures Run(w, steps + [Cancel(c)] + more).Some? ==> P.Stored(c) !in Run(w, steps + [Cancel(c)] + more).value.mgr.history
  {
    RunKeeps(w, steps);
    var s := Run(w, steps).value;
    assert ConnOk(w, s.mgr, c, s.conns[c]);
    assert (steps + [Cancel(c)])[..|steps|] == steps;
    var t := Apply(w, s, Cancel(c));
    assert t.mgr.history[|s.mgr.history|] == P.Cancelled(c);
    if Run(w, steps + [Cancel(c)] + more).Some? {
      HistoryGrows(w, steps + [Cancel(c)], more, c);
      var h := Run(w, steps + [Cancel(c)] + more).value.mgr.history;
      if P.Stored(c) in h {
        var k :| 0 <= k < |h| && h[k] == P.Stored(c);
        var _, _, _, _ := EndToEnd(w, steps + [Cancel(c)] + more, c, k);
      }
    }
  }

  // ------------------------------------------------------------- pairing can succeed

  ghost predicate Reachable(w: World, s: State) {
    exists steps :: Run(w, steps) == Some(s)
  }

  lemma Go(w: World, s: State, step: Step)
    requires Reachable(w, s) && Enabled(w, s, step)
    ensures Reachable(w, Apply(w, s, step))
  {
    var steps :| Run(w, steps) == Some(s);
    assert (steps + [step])[..|steps|] == steps;
    assert Run(w, steps + [step]) == Some(Apply(w, s, step));
  }

  lemma Start(w: World)
    ensures Reachable(w, INITIAL)
  {
    assert Run(w, []) == Some(INITIAL);
  }

  /** Connection 0 is that phone's, at this point of the ceremony, and request 0 is its own. */
  ghost predicate Arrived(w: World, s: State, phone: string, code: string, serving: Serving, attempt: Attempt, gate: Gate, reply: seq<Reply>) {
    Reachable(w, s) && 0 in s.conns && s.conns[0] == Conn(phone, true, code, serving, [], reply, attempt, gate)
  }

  /** A code is issued, the phone sends it, and the daemon takes it. */
  lemma ToHolding(w: World, phone: string, ticket: string, code: string) returns (s: State)
    requires code == NormalizeCode(ticket) && IsValidCode(code)
    ensures Arrived(w, s, phone, code, Holding(DaemonSas(w, code, phone)), Dialed, OPEN_GATE, [])
    ensures 0 in s.mgr.taken && s.mgr.taken[0].expiresAt > 0 && s.mgr.nextRequest == 0
  {
    Start(w);
    s := INITIAL;
    Go(w, s, Desk(P.Issue(NormalizeCode(code), 0)));
    s := Apply(w, s, Desk(P.Issue(NormalizeCode(code), 0)));
    Go(w, s, Dial(0, phone, ticket));
    s := Apply(w, s, Dial(0, phone, ticket));
    Go(w, s, Read(0, 0));
    s := Apply(w, s, Read(0, 0));
  }

  /** The request is registered, and the phone told the SAS, which it finds to be its own. */
  lemma ToAwaiting(w: World, phone: string, ticket: string, code: string) returns (s: State)
    requires code == NormalizeCode(ticket) && IsValidCode(code)
    ensures Arrived(w, s, phone, code, Waiting(0, DaemonSas(w, code, phone)), AwaitingUser, OPEN_GATE, [])
    ensures 0 in s.mgr.approvals && 0 in s.mgr.waiters && s.mgr.waiters[0].phase == P.Waiting(None)
  {
    s := ToHolding(w, phone, ticket, code);
    NormalizeTwice(ticket);
    Go(w, s, Register(0, 0));
    s := Apply(w, s, Register(0, 0));
    Go(w, s, Tell(0));
    s := Apply(w, s, Tell(0));
    Go(w, s, PhoneReads(0));
    s := Apply(w, s, PhoneReads(0));
  }

  const CONFIRMED_GATE := Gate(true, false, false, false)

  /** The user confirms on the phone. */
  lemma ToConfirmed(w: World, phone: string, ticket: string, code: string) returns (s: State)
    requires code == NormalizeCode(ticket) && IsValidCode(code)
    ensures Arrived(w, s, phone, code, Waiting(0, DaemonSas(w, code, phone)), Confirming, CONFIRMED_GATE, [])
    ensures 0 in s.mgr.approvals && 0 in s.mgr.waiters && s.mgr.waiters[0].phase == P.Waiting(None)
  {
    s := ToAwaiting(w, phone, ticket, code);
    Go(w, s, Confirm(0));
    s := Apply(w, s, Confirm(0));
  }

  /** The desktop approves. */
  lemma ToApproved(w: World, phone: string, ticket: string, code: string) returns (s: State)
    requires code == NormalizeCode(ticket) && IsValidCode(code)
    ensures Arrived(w, s, phone, code, Waiting(0, DaemonSas(w, code, phone)), Confirming, CONFIRMED_GATE, [])
    ensures 0 in s.mgr.waiters && s.mgr.waiters[0].phase == P.Waiting(Some(true))
  {
    s := ToConfirmed(w, phone, ticket, code);
    Go(w, s, Desk(P.Approve(0, true)));
    s := Apply(w, s, Desk(P.Approve(0, true)));
    Go(w, s, Desk(P.Send(0)));
    s := Apply(w, s, Desk(P.Send(0)));
  }

  /** The wait ends with the approval. */
  lemma ToGranted(w: World, phone: string, ticket: string, code: string) returns (s: State)
    requires code == NormalizeCode(ticket) && IsValidCode(code)
    ensures Arrived(w, s, phone, code, Granted(0, DaemonSas(w, code, phone)), Confirming, CONFIRMED_GATE, [])
  {
    s := ToApproved(w, phone, ticket, code);
    Go(w, s, Conclude(0));
    s := Apply(w, s, Conclude(0));
    Go(w, s, Return(0));
    s := Apply(w, s, Return(0));
  }

  /** The device is saved. */
  lemma ToRecorded(w: World, phone: string, ticket: string, code: string) returns (s: State)
    requires code == NormalizeCode(ticket) && IsValidCode(code)
    ensures Arrived(w, s, phone, code, Recorded(0, DaemonSas(w, code, phone)), Confirming, CONFIRMED_GATE, [])
  {
    s := ToGranted(w, phone, ticket, code);
    Go(w, s, Save(0));
    s := Apply(w, s, Save(0));
  }

  /** The phone is told. */
  lemma ToCompleted(w: World, phone: string, ticket: string, code: string) returns (s: State)
    requires code == NormalizeCode(ticket) && IsValidCode(code)
    ensures Arrived(w, s, phone, code, Ready, Completed, CONFIRMED_GATE, [])
  {
    s := ToRecorded(w, phone, ticket, code);
    Go(w, s, Complete(0));
    s := Apply(w, s, Complete(0));
    Go(w, s, ReadCompletion(0));
    s := Apply(w, s, ReadCompletion(0));
  }

  /** The phone passes its gate and stores the daemon. */
  lemma ToStored(w: World, phone: string, ticket: string, code: string) returns (s: State)
    requires code == NormalizeCode(ticket) && IsValidCode(code)
    ensures Reachable(w, s) && 0 in s.conns && s.conns[0].phone == phone && s.conns[0].code == code && s.conns[0].honest
    ensures P.Stored(0) in s.mgr.history
  {
    s := ToCompleted(w, phone, ticket, code);
    Go(w, s, PassGate(0));
    s := Apply(w, s, PassGate(0));
    Go(w, s, Store(0));
    s := Apply(w, s, Store(0));
  }

  /** Some run ends with this phone, given this ticket, having stored the daemon. */
  ghost predicate CanPair(w: World, phone: string, ticket: string) {
    exists s, c :: Reachable(w, s) && HasStored(s, c, phone, NormalizeCode(ticket))
  }

  ghost predicate HasStored(s: State, c: nat, phone: string, code: string) {
    c in s.conns && s.conns[c].honest && s.conns[c].phone == phone && s.conns[c].code == code && P.Stored(c) in s.mgr.history
  }

  /** The ceremony can succeed with exactly those tickets whose code, normalized, is well formed. */
  lemma CanPairIff(w: World, phone: string, ticket: string)
    ensures CanPair(w, phone, ticket) <==> IsValidCode(NormalizeCode(ticket))
  {
    if CanPair(w, phone, ticket) {
      var s, c :| Reachable(w, s) && HasStored(s, c, phone, NormalizeCode(ticket));
      var steps :| Run(w, steps) == Some(s);
      HonestCodesAreValid(w, steps);
    }
    if IsValidCode(NormalizeCode(ticket)) {
      var s := ToStored(w, phone, ticket, NormalizeCode(ticket));
      assert HasStored(s, 0, phone, NormalizeCode(ticket));
    }
  }

  lemma {:induction false} HonestCodesAreValid(w: World, steps: seq<Step>)
    requires Run(w, steps).Some?
    ensures forall c :: c in Run(w, steps).value.conns && Run(w, steps).value.conns[c].honest ==>
      IsValidCode(Run(w, steps).value.conns[c].code)
  {
    if steps != [] {
      HonestCodesAreValid(w, steps[..|steps| - 1]);
      var s, step := Run(w, steps[..|steps| - 1]).value, steps[|steps| - 1];
      if !step.Desk? {
        CodeIsKept(w, s, step);
      }
    }
  }

  lemma CodeIsKept(w: World, s: State, step: Step)
    requires Enabled(w, s, step) && !step.Desk?
    ensures var conn := ConnAfter(w, s, step);
      if step.Dial? then conn.code == NormalizeCode(step.ticket)
      else if step.Connect? then !conn.honest
      else conn.code == s.conns[step.c].code && conn.honest == s.conns[step.c].honest
  {
  }
}
