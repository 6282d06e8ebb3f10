/**
 * The pairing manager (crates/daemon/src/pairing.rs): one live code with a miss budget, and
 * approvals that travel from the desktop to a waiting connection. The state machine interleaves
 * every lock section of every caller; the class does in code what its steps say.
 */
module Pairing {
  import opened Common

  const PAIR_TOKEN_TTL_MS := 5 * 60 * 1000
  const MAX_CODE_ATTEMPTS := 5

  /** A live code; `prompt` is the channel to the desktop that asked for it. */
  datatype PendingCode = PendingCode(expiresAt: nat, attempts: nat, prompt: nat)

  type Codes = map<string, PendingCode>

  /** `prune_expired`. */
  function Pruned(codes: Codes, now: nat): Codes {
    map code | code in codes && codes[code].expiresAt > now :: codes[code]
  }

  /** A miss: every active code is charged, and dropped once expired or out of budget. */
  function Charged(codes: Codes, now: nat): Codes {
    map code | code in codes && codes[code].expiresAt > now && codes[code].attempts + 1 < MAX_CODE_ATTEMPTS ::
      codes[code].(attempts := codes[code].attempts + 1)
  }

  function Issued(code: string, now: nat, prompt: nat): Codes {
    map[code := PendingCode(SaturatingAdd(now, PAIR_TOKEN_TTL_MS), 0, prompt)]
  }

  datatype Result<+V, +E> = Ok(value: V) | Err(error: E)

  datatype PairingError = InvalidOrUsed | Expired | PromptGone | UnknownRequest

  // ------------------------------------------------------------- all interleavings

  /**
   * What has happened so far. The last four constructors belong to the ceremony around the
   * manager; the manager itself never writes them.
   */
  datatype Event =
    | CodeIssued(prompt: nat)
    | Missed
    | Consumed(prompt: nat)
    | Registered(id: nat, prompt: nat, device: string, sas: string, remaining: nat)
    | Approved(id: nat, approved: bool)
    | Concluded(id: nat, device: string, sas: string, result: bool)
    | Saved(conn: nat, device: string, id: nat)
    | Confirmed(conn: nat)
    | Cancelled(conn: nat)
    | Stored(conn: nat)

  /** A pending approval: still waiting (perhaps answered), or `wait` has returned. */
  datatype WaitPhase = Waiting(answer: Option<bool>) | Done(result: bool)

  datatype Waiter = Waiter(device: string, sas: string, phase: WaitPhase)

  /** `taken`: codes held by callers between the two sections of `begin_approval`. */
  datatype State = State(
    codes: Codes, taken: map<nat, PendingCode>, approvals: set<nat>, waiters: map<nat, Waiter>,
    sending: map<nat, bool>, nextPrompt: nat, nextRequest: nat, history: seq<Event>)

  const INITIAL := State(map[], map[], {}, map[], map[], 0, 0, [])

  datatype Step =
    | Prune(now: nat)
    | Issue(code: string, now: nat)
    | Take(caller: nat, code: string, now: nat)
    | Register(caller: nat, device: string, sas: string, now: nat)
    | Approve(id: nat, approved: bool)    // the approvals section of approve
    | Send(id: nat)                       // the oneshot send behind it
    | Conclude(id: nat)                   // wait returns: answered, timed out or sender gone
    | Drop(id: nat)                       // the guard's section
    | Note(event: Event)                  // an event of the surrounding ceremony

  predicate Enabled(s: State, step: Step) {
    match step
    case Take(caller, _, _) => caller !in s.taken
    case Register(caller, _, _, _) => caller in s.taken
    case Send(id) => id in s.sending
    case Conclude(id) => id in s.waiters && s.waiters[id].phase.Waiting?
    case Drop(id) => id in s.waiters
    case Note(event) => event.Saved? || event.Confirmed? || event.Cancelled? || event.Stored?
    case _ => true
  }

  function Logged(s: State, event: Event): State {
    s.(history := s.history + [event])
  }

  /** The caller's second section: the clock is read again, and an expired code gives nothing. */
  function AfterRegister(s: State, caller: nat, device: string, sas: string, now: nat): State
    requires caller in s.taken
  {
    var pending := s.taken[caller];
    var released := s.(taken := s.taken - {caller});
    if pending.expiresAt <= now then released
    else
      Logged(released.(approvals := s.approvals + {s.nextRequest},
                       waiters := s.waiters[s.nextRequest := Waiter(device, sas, Waiting(None))],
                       nextRequest := s.nextRequest + 1),
             Registered(s.nextRequest, pending.prompt, device, sas, pending.expiresAt - now))
  }

  function GaveApproval(phase: WaitPhase): bool
    requires phase.Waiting?
  {
    phase.answer == Some(true)
  }

  function Apply(s: State, step: Step): State
    requires Enabled(s, step)
  {
    match step
    case Prune(now) => s.(codes := Pruned(s.codes, now))
    case Issue(code, now) =>
      Logged(s.(codes := Issued(code, now, s.nextPrompt), nextPrompt := s.nextPrompt + 1), CodeIssued(s.nextPrompt))
    case Take(caller, code, now) =>
      if code in s.codes then
        Logged(s.(codes := s.codes - {code}, taken := s.taken[caller := s.codes[code]]), Consumed(s.codes[code].prompt))
      else Logged(s.(codes := Charged(s.codes, now)), Missed)
    case Register(caller, device, sas, now) => AfterRegister(s, caller, device, sas, now)
    case Approve(id, approved) =>
      if id in s.approvals then
        Logged(s.(approvals := s.approvals - {id}, sending := s.sending[id := approved]), Approved(id, approved))
      else s
    case Send(id) =>
      var sent := s.(sending := s.sending - {id});
      if id in s.waiters && s.waiters[id].phase.Waiting? then
        sent.(waiters := s.waiters[id := s.waiters[id].(phase := Waiting(Some(s.sending[id])))])
      else sent
    case Conclude(id) =>
      var w := s.waiters[id];
      Logged(s.(waiters := s.waiters[id := w.(phase := Done(GaveApproval(w.phase)))]),
             Concluded(id, w.device, w.sas, GaveApproval(w.phase)))
    case Drop(id) => s.(approvals := s.approvals - {id}, waiters := s.waiters - {id})
    case Note(event) => Logged(s, event)
  }

  function Run(steps: seq<Step>): Option<State> {
    if steps == [] then Some(INITIAL)
    else
      var before := Run(steps[..|steps| - 1]);
      var last := steps[|steps| - 1];
      if before.Some? && Enabled(before.value, last) then Some(Apply(before.value, last)) else None
  }

  // --------------------------------------------------------- reading the history

  /** Misses since the last code was issued. */
  function MissesSinceIssue(h: seq<Event>): nat {
    if h == [] || h[|h| - 1].CodeIssued? then 0
    else MissesSinceIssue(h[..|h| - 1]) + if h[|h| - 1].Missed? then 1 else 0
  }

  /** Everything but the last event. */
  function Before(h: seq<Event>): seq<Event>
    requires h != []
  {
    h[..|h| - 1]
  }

  /** Some `approve` answered this request. */
  predicate WasAnswered(h: seq<Event>, id: nat) {
    h != [] && (WasAnswered(Before(h), id) || (h[|h| - 1].Approved? && h[|h| - 1].id == id))
  }

  /** A code was consumed and later, unexpired, turned into this request. */
  predicate Asked(h: seq<Event>, id: nat, device: string, sas: string) {
    h != [] && (Asked(Before(h), id, device, sas) || AsksNow(Before(h), h[|h| - 1], id, device, sas))
  }

  predicate AsksNow(h: seq<Event>, event: Event, id: nat, device: string, sas: string) {
    event.Registered? && event.id == id && event.device == device && event.sas == sas
    && event.remaining > 0 && Consumed(event.prompt) in h
  }

  /** Later still, the desktop approved it. */
  predicate Backed(h: seq<Event>, id: nat, device: string, sas: string) {
    h != [] && (Backed(Before(h), id, device, sas) || (h[|h| - 1] == Approved(id, true) && Asked(Before(h), id, device, sas)))
  }

  /** Every `wait` that returned true was backed when it returned. */
  predicate TrueOnlyIfBacked(h: seq<Event>) {
    h == [] || (TrueOnlyIfBacked(Before(h)) &&
                var last := h[|h| - 1];
                last.Concluded? && last.result ==> Backed(Before(h), last.id, last.device, last.sas))
  }

  ghost predicate ConsumedOnce(h: seq<Event>) {
    forall i, j :: 0 <= i < j < |h| && h[i].Consumed? && h[j].Consumed? ==> h[i].prompt != h[j].prompt
  }

  // ------------------------------------------------------------------- invariant

  ghost predicate CodeOk(s: State, code: string)
    requires code in s.codes
  {
    var pending := s.codes[code];
    && pending.attempts == MissesSinceIssue(s.history) < MAX_CODE_ATTEMPTS
    && pending.prompt + 1 == s.nextPrompt
    && Consumed(pending.prompt) !in s.history
  }

  ghost predicate CodesOk(s: State) {
    && (forall code :: code in s.codes ==> CodeOk(s, code))
    && (forall a, b :: a in s.codes && b in s.codes ==> a == b)
    && (forall i :: 0 <= i < |s.history| && s.history[i].Consumed? ==> s.history[i].prompt < s.nextPrompt)
    && (forall caller :: caller in s.taken ==> Consumed(s.taken[caller].prompt) in s.history)
    && ConsumedOnce(s.history)
  }

  /** An answer `true`, on its way or arrived, was given by the desktop. */
  ghost predicate WaiterOk(s: State, id: nat)
    requires id in s.waiters
  {
    var w := s.waiters[id];
    && id < s.nextRequest
    && Asked(s.history, id, w.device, w.sas)
    && (w.phase == Waiting(Some(true)) || w.phase == Done(true) || (id in s.sending && s.sending[id])
        ==> Backed(s.history, id, w.device, w.sas))
  }

  ghost predicate ApprovalsOk(s: State) {
    && (forall id :: id in s.waiters ==> WaiterOk(s, id))
    && (forall id: nat :: id in s.approvals <==> id in s.waiters && !WasAnswered(s.history, id))
    && (forall id: nat :: WasAnswered(s.history, id) ==> id < s.nextRequest)
    && (forall id :: id in s.sending ==> id < s.nextRequest)
    && TrueOnlyIfBacked(s.history)
  }

  ghost predicate Inv(s: State) {
    CodesOk(s) && ApprovalsOk(s)
  }

  // -------------------------------------------------- the history under one more event

  lemma Snoc(h: seq<Event>, event: Event)
    ensures Before(h + [event]) == h
  {
  }

  /** A step logs at most one event, and ceremony events only when asked to. */
  lemma HistoryStep(s: State, step: Step)
    requires Enabled(s, step)
    ensures
      var h, g := s.history, Apply(s, step).history;
      g == h || (g != [] && Before(g) == h && g == h + [g[|h|]]
                 && (g[|h|].Confirmed? || g[|h|].Cancelled? || g[|h|].Stored? ==> step == Note(g[|h|])))
  {
    var h, g := s.history, Apply(s, step).history;
    if g != h {
      Snoc(h, g[|h|]);
    }
  }

  lemma MissesSnoc(h: seq<Event>, event: Event)
    ensures MissesSinceIssue(h + [event])
         == if event.CodeIssued? then 0 else MissesSinceIssue(h) + if event.Missed? then 1 else 0
  {
    assert (h + [event])[..|h|] == h;
  }

  // --------------------------------------------------------------- steps keep it

  lemma IssueKeeps(s: State, code: string, now: nat)
    requires CodesOk(s)
    ensures CodesOk(Apply(s, Issue(code, now)))
  {
    MissesSnoc(s.history, CodeIssued(s.nextPrompt));
  }

  lemma TakeKeeps(s: State, caller: nat, code: string, now: nat)
    requires CodesOk(s) && caller !in s.taken
    ensures CodesOk(Apply(s, Take(caller, code, now)))
  {
    if code in s.codes {
      assert CodeOk(s, code);
    } else {
      var t := Apply(s, Take(caller, code, now));
      MissesSnoc(s.history, Missed);
      forall c | c in t.codes ensures CodeOk(t, c) {
        assert CodeOk(s, c);
      }
    }
  }

  /** Steps that issue, charge and consume nothing. */
  lemma CodesUntouched(s: State, t: State)
    requires CodesOk(s) && t.nextPrompt == s.nextPrompt
    requires t.history == s.history || (|t.history| == |s.history| + 1 && s.history == t.history[..|s.history|]
      && var event := t.history[|s.history|]; !event.CodeIssued? && !event.Missed? && !event.Consumed?)
    requires forall code :: code in t.codes ==> code in s.codes && t.codes[code] == s.codes[code]
    requires forall caller :: caller in t.taken ==> caller in s.taken && t.taken[caller] == s.taken[caller]
    ensures CodesOk(t)
  {
    if t.history != s.history {
      MissesSnoc(s.history, t.history[|s.history|]);
      assert t.history == s.history + [t.history[|s.history|]];
    }
    forall c | c in t.codes ensures CodeOk(t, c) {
      assert CodeOk(s, c);
    }
  }

  lemma CodesKeep(s: State, step: Step)
    requires CodesOk(s) && Enabled(s, step)
    ensures CodesOk(Apply(s, step))
  {
    match step {
      case Issue(code, now) => IssueKeeps(s, code, now);
      case Take(caller, code, now) => TakeKeeps(s, caller, code, now);
      case Register(caller, device, sas, now) => CodesUntouched(s, AfterRegister(s, caller, device, sas, now));
      case Prune(now) => CodesUntouched(s, Apply(s, Prune(now)));
      case Approve(id, approved) => CodesUntouched(s, Apply(s, Approve(id, approved)));
      case Note(event) => CodesUntouched(s, Logged(s, event));
      case _ => CodesUntouched(s, Apply(s, step));
    }
  }

  /** Steps that leave the waiters and approvals alone, whatever else they log. */
  lemma LoggingKeeps(s: State, t: State, event: Event)
    requires ApprovalsOk(s) && t.history == s.history + [event] && t.nextRequest == s.nextRequest
    requires t.waiters == s.waiters && t.approvals == s.approvals && t.sending == s.sending
    requires !event.Approved? && !event.Concluded?
    ensures ApprovalsOk(t)
  {
    Snoc(s.history, event);
    forall id | id in t.waiters ensures WaiterOk(t, id) {
      assert WaiterOk(s, id);
    }
  }

  lemma RegisterKeeps(s: State, caller: nat, device: string, sas: string, now: nat)
    requires ApprovalsOk(s) && caller in s.taken && Consumed(s.taken[caller].prompt) in s.history
    ensures ApprovalsOk(AfterRegister(s, caller, device, sas, now))
  {
    var t := AfterRegister(s, caller, device, sas, now);
    if s.taken[caller].expiresAt <= now {
      forall id | id in t.waiters ensures WaiterOk(t, id) {
        assert WaiterOk(s, id);
      }
    } else {
      var event := Registered(s.nextRequest, s.taken[caller].prompt, device, sas, s.taken[caller].expiresAt - now);
      Snoc(s.history, event);
      forall id | id in t.waiters ensures WaiterOk(t, id) {
        assert id in s.waiters ==> WaiterOk(s, id);
      }
    }
  }

  lemma ApproveKeeps(s: State, id: nat, approved: bool)
    requires ApprovalsOk(s) && id in s.approvals
    ensures ApprovalsOk(Apply(s, Approve(id, approved)))
  {
    var t, event := Apply(s, Approve(id, approved)), Approved(id, approved);
    Snoc(s.history, event);
    assert WaiterOk(s, id);
    forall k | k in t.waiters ensures WaiterOk(t, k) {
      assert WaiterOk(s, k);
    }
  }

  lemma ConcludeKeeps(s: State, id: nat)
    requires ApprovalsOk(s) && Enabled(s, Conclude(id))
    ensures ApprovalsOk(Apply(s, Conclude(id)))
  {
    var t, w := Apply(s, Conclude(id)), s.waiters[id];
    var event := Concluded(id, w.device, w.sas, GaveApproval(w.phase));
    assert WaiterOk(s, id);
    Snoc(s.history, event);
    forall k | k in t.waiters ensures WaiterOk(t, k) {
      assert WaiterOk(s, k);
    }
  }

  /** Steps that log nothing. */
  lemma SilentKeeps(s: State, step: Step)
    requires ApprovalsOk(s) && Enabled(s, step) && (step.Prune? || step.Send? || step.Drop?)
    ensures ApprovalsOk(Apply(s, step))
  {
    var t := Apply(s, step);
    forall id | id in t.waiters ensures WaiterOk(t, id) {
      assert WaiterOk(s, id);
    }
  }

  lemma ApprovalsKeep(s: State, step: Step)
    requires Inv(s) && Enabled(s, step)
    ensures ApprovalsOk(Apply(s, step))
  {
    var t := Apply(s, step);
    match step {
      case Issue(_, _) => LoggingKeeps(s, t, CodeIssued(s.nextPrompt));
      case Take(_, code, _) =>
        LoggingKeeps(s, t, if code in s.codes then Consumed(s.codes[code].prompt) else Missed);
      case Note(event) => LoggingKeeps(s, t, event);
      case Register(caller, device, sas, now) => RegisterKeeps(s, caller, device, sas, now);
      case Approve(id, approved) =>
        if id in s.approvals {
          ApproveKeeps(s, id, approved);
        }
      case Conclude(id) => ConcludeKeeps(s, id);
      case _ => SilentKeeps(s, step);
    }
  }

  lemma StepKeeps(s: State, step: Step)
    requires Inv(s) && Enabled(s, step)
    ensures Inv(Apply(s, step))
  {
    CodesKeep(s, step);
    ApprovalsKeep(s, step);
  }

  lemma {:induction false} RunKeeps(steps: seq<Step>)
    requires Run(steps).Some?
    ensures Inv(Run(steps).value)
  {
    if steps != [] {
      RunKeeps(steps[..|steps| - 1]);
      StepKeeps(Run(steps[..|steps| - 1]).value, steps[|steps| - 1]);
    }
  }

  // -------------------------------------------------------------------- theorems

  /** `Backed` in order: consumed, then registered before the code expired, then approved. */
  lemma {:induction false} BackedInOrder(h: seq<Event>, id: nat, device: string, sas: string) returns (i: nat, j: nat, k: nat)
    requires Backed(h, id, device, sas)
    ensures i < j < k < |h| && h[i].Consumed? && h[j].Registered? && h[k] == Approved(id, true)
    ensures h[j] == Registered(id, h[i].prompt, device, sas, h[j].remaining) && h[j].remaining > 0
  {
    if Backed(Before(h), id, device, sas) {
      i, j, k := BackedInOrder(Before(h), id, device, sas);
    } else {
      i, j := AskedInOrder(Before(h), id, device, sas);
      k := |h| - 1;
    }
  }

  lemma {:induction false} AskedInOrder(h: seq<Event>, id: nat, device: string, sas: string) returns (i: nat, j: nat)
    requires Asked(h, id, device, sas)
    ensures i < j < |h| && h[i].Consumed? && h[j].Registered?
    ensures h[j] == Registered(id, h[i].prompt, device, sas, h[j].remaining) && h[j].remaining > 0
  {
    if Asked(Before(h), id, device, sas) {
      i, j := AskedInOrder(Before(h), id, device, sas);
    } else {
      i :| i < |h| - 1 && h[i] == Consumed(h[|h| - 1].prompt);
      j := |h| - 1;
    }
  }

  /**
   * In every interleaving at most one code is live; it has absorbed exactly the misses since it
   * was issued, at most four of them, so at the fifth it is gone; and no issued code is consumed twice.
   */
  lemma OneCodeFewMisses(steps: seq<Step>)
    requires Run(steps).Some?
    ensures
      var s := Run(steps).value;
      && |s.codes| <= 1
      && (forall code :: code in s.codes ==> s.codes[code].attempts == MissesSinceIssue(s.history) <= 4)
      && (MissesSinceIssue(s.history) >= 5 ==> s.codes == map[])
      && ConsumedOnce(s.history)
  {
    RunKeeps(steps);
    var s := Run(steps).value;
    forall code | code in s.codes ensures s.codes[code].attempts == MissesSinceIssue(s.history) <= 4 {
      assert CodeOk(s, code);
    }
    if code :| code in s.codes {
      assert s.codes.Keys == {code};
    } else {
      assert s.codes == map[];
    }
  }

  /**
   * The approvals map holds exactly the requests whose waiter is alive and that no `approve` has
   * answered; and `wait` returned true only for a request that consumed a code, was registered
   * before the code expired, and was then approved.
   */
  lemma ApprovalsExact(steps: seq<Step>)
    requires Run(steps).Some?
    ensures
      var s := Run(steps).value;
      && (forall id: nat :: id in s.approvals <==> id in s.waiters && !WasAnswered(s.history, id))
      && TrueOnlyIfBacked(s.history)
  {
    RunKeeps(steps);
  }

  // --------------------------------------------------------------------- the manager

  lemma InitialHolds()
    ensures Inv(INITIAL)
  {
  }

  lemma RegisterIsInOrder(s: State, caller: nat, device: string, sas: string, now: nat)
    requires Inv(s) && caller in s.taken
    ensures Inv(AfterRegister(s, caller, device, sas, now))
    ensures Apply(s, Register(caller, device, sas, now)) == AfterRegister(s, caller, device, sas, now)
  {
    StepKeeps(s, Register(caller, device, sas, now));
  }

  lemma BeginIsInOrder(s: State, code: string, pruneTime: nat, now: nat)
    requires Inv(s)
    ensures Inv(Apply(Apply(s, Prune(pruneTime)), Issue(code, now)))
  {
    StepKeeps(s, Prune(pruneTime));
    StepKeeps(Apply(s, Prune(pruneTime)), Issue(code, now));
  }

  /**
   * The manager with what belongs to it: besides the two maps under its locks, the codes that
   * callers have taken, the waiters and the answers on their way to them. Request and prompt
   * numbers stand for what the source draws at random.
   */
  class PairingManager {
    var codes: Codes
    var approvals: set<nat>
    var taken: map<nat, PendingCode>
    var waiters: map<nat, Waiter>
    var sending: map<nat, bool>
    var nextPrompt: nat
    var nextRequest: nat
    ghost var history: seq<Event>

    ghost function Value(): State
      reads this
    {
      State(codes, taken, approvals, waiters, sending, nextPrompt, nextRequest, history)
    }

    ghost predicate Valid()
      reads this
    {
      Inv(Value())
    }

    constructor ()
      ensures Value() == INITIAL && Valid()
    {
      codes, approvals, taken, waiters, sending := map[], {}, map[], map[], map[];
      nextPrompt, nextRequest, history := 0, 0, [];
      new;
      InitialHolds();
    }

    method BeginPairing(code: string, pruneTime: nat, now: nat) returns (expiresAt: nat)
      requires Valid()
      modifies this
      ensures Valid() && Value() == Apply(Apply(old(Value()), Prune(pruneTime)), Issue(code, now))
      ensures codes.Keys == {code} && expiresAt == codes[code].expiresAt
    {
      ghost var before := Value();
      ghost var after := Apply(Apply(before, Prune(pruneTime)), Issue(code, now));
      BeginIsInOrder(before, code, pruneTime, now);
      codes := Pruned(codes, pruneTime);
      expiresAt := SaturatingAdd(now, PAIR_TOKEN_TTL_MS);
      codes := map[];
      codes := codes[code := PendingCode(expiresAt, 0, nextPrompt)];
      nextPrompt := nextPrompt + 1;
      history := history + [CodeIssued(before.nextPrompt)];
      assert Value() == after;
    }

    /** The first section of `begin_approval`. */
    method TakeCode(caller: nat, code: string, now: nat) returns (r: Result<PendingCode, PairingError>)
      requires Valid() && caller !in taken
      modifies this
      ensures Valid() && Value() == Apply(old(Value()), Take(caller, code, now))
      ensures r == if code in old(codes) then Ok(old(codes)[code]) else Err(InvalidOrUsed)
    {
      ghost var before := Value();
      StepKeeps(before, Take(caller, code, now));
      if code in codes {
        r := Ok(codes[code]);
        taken := taken[caller := codes[code]];
        codes := codes - {code};
        history := history + [Consumed(before.codes[code].prompt)];
      } else {
        codes := Charged(codes, now);
        r := Err(InvalidOrUsed);
        history := history + [Missed];
      }
      assert Value() == Apply(before, Take(caller, code, now));
    }

    /** The second: an unexpired code becomes a request, with a waiter for its answer. */
    method RegisterRequest(caller: nat, device: string, sas: string, now: nat) returns (r: Result<nat, PairingError>)
      requires Valid() && caller in taken
      modifies this
      ensures Valid() && Value() == Apply(old(Value()), Register(caller, device, sas, now))
      ensures r == if old(taken)[caller].expiresAt <= now then Err(Expired) else Ok(old(nextRequest))
    {
      ghost var before := Value();
      ghost var after := AfterRegister(before, caller, device, sas, now);
      RegisterIsInOrder(before, caller, device, sas, now);
      var pending := taken[caller];
      taken := taken - {caller};
      if pending.expiresAt <= now {
        assert Value() == after;
        return Err(Expired);
      }
      approvals := approvals + {nextRequest};
      waiters := waiters[nextRequest := Waiter(device, sas, Waiting(None))];
      r := Ok(nextRequest);
      nextRequest := nextRequest + 1;
      history := history + [Registered(before.nextRequest, pending.prompt, device, sas, pending.expiresAt - now)];
      assert Value() == after;
    }

    /** What `begin_approval` amounts to when no other caller comes between its sections. */
    method BeginApproval(caller: nat, code: string, device: string, sas: string, missTime: nat, now: nat, promptOpen: bool)
      returns (r: Result<nat, PairingError>)
      requires Valid() && caller !in taken
      modifies this
      ensures Valid()
      ensures r.Ok? <==> code in old(codes) && old(codes)[code].expiresAt > now && promptOpen
      ensures r.Ok? ==> r.value == old(nextRequest)
      ensures Value() == Began(old(Value()), caller, code, device, sas, missTime, now, promptOpen)
    {
      var pending := TakeCode(caller, code, missTime);
      if pending.Err? {
        return Err(pending.error);
      }
      r := RegisterRequest(caller, device, sas, now);
      if r.Ok? && !promptOpen {
        DropWaiter(r.value);
        r := Err(PromptGone);
      }
    }

    method Approve(id: nat, approved: bool) returns (r: Result<(), PairingError>)
      requires Valid()
      modifies this
      ensures Valid() && (r.Ok? <==> id in old(approvals))
      ensures Value() == Answered(old(Value()), id, approved)
    {
      ghost var before := Value();
      StepKeeps(before, Step.Approve(id, approved));
      if id !in approvals {
        return Err(UnknownRequest);
      }
      approvals := approvals - {id};
      sending := sending[id := approved];
      history := history + [Approved(id, approved)];
      assert Value() == Apply(before, Step.Approve(id, approved));
      SendAnswer(id);
      r := Ok(());
    }

    /** The answer reaches a waiter that still waits, and is lost otherwise. */
    method SendAnswer(id: nat)
      requires Valid() && id in sending
      modifies this
      ensures Valid() && Value() == Apply(old(Value()), Send(id))
    {
      ghost var before := Value();
      StepKeeps(before, Send(id));
      if id in waiters && waiters[id].phase.Waiting? {
        waiters := waiters[id := waiters[id].(phase := Waiting(Some(sending[id])))];
      }
      sending := sending - {id};
      assert Value() == Apply(before, Send(id));
    }

    /** `wait`, once it is over: it tells what the desktop answered, if it did, and the guard drops. */
    method FinishWait(id: nat) returns (approved: bool)
      requires Valid() && id in waiters && waiters[id].phase.Waiting?
      modifies this
      ensures Valid() && Value() == Apply(Apply(old(Value()), Conclude(id)), Drop(id))
      ensures approved <==> old(waiters)[id].phase == Waiting(Some(true))
      ensures approved ==> Backed(history, id, old(waiters)[id].device, old(waiters)[id].sas)
    {
      ghost var before := Value();
      StepKeeps(before, Conclude(id));
      approved := waiters[id].phase.answer == Some(true);
      waiters := waiters[id := waiters[id].(phase := Done(approved))];
      history := history + [Concluded(id, before.waiters[id].device, before.waiters[id].sas, approved)];
      assert Value() == Apply(before, Conclude(id));
      if approved {
        assert WaiterOk(Value(), id);
      }
      DropWaiter(id);
    }

    /** `PendingPairingApproval::drop`. */
    method DropWaiter(id: nat)
      requires Valid() && id in waiters
      modifies this
      ensures Valid() && Value() == Apply(old(Value()), Drop(id))
    {
      ghost var before := Value();
      StepKeeps(before, Drop(id));
      approvals := approvals - {id};
      waiters := waiters - {id};
      assert Value() == Apply(before, Drop(id));
    }
  }

  /** The steps of `begin_approval`, one after another. */
  function Began(s: State, caller: nat, code: string, device: string, sas: string, missTime: nat, now: nat, promptOpen: bool): State
    requires caller !in s.taken
  {
    var took := Apply(s, Take(caller, code, missTime));
    if code !in s.codes then took
    else
      var registered := Apply(took, Register(caller, device, sas, now));
      if s.codes[code].expiresAt <= now || promptOpen then registered else Apply(registered, Drop(s.nextRequest))
  }

  /** The steps of `approve`. */
  function Answered(s: State, id: nat, approved: bool): State {
    var answered := Apply(s, Approve(id, approved));
    if id in s.approvals then Apply(answered, Send(id)) else answered
  }
}
