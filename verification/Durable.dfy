/**
 * The registry over restarts of the daemon (crates/daemon/src/ipc.rs, session.rs and
 * persistence.rs): the stored rows beside the tables in memory, the threads that write rows, and
 * the start that prunes and loads them. Deleting a row may fail after its session is gone, and a
 * row may be written after that by a thread that captured it before or that nobody told to stop;
 * such a row is an orphan, and the next start brings its session back.
 */
module Durable {
  import opened Common
  import opened Retention
  import R = Registry

  /**
   * `saving` are captured rows that are yet to be written. `lingering` are sessions that left the
   * live table, or never came into it, without a mark that they were killed, as long as a thread
   * that keeps them may still write their rows; with their names.
   */
  datatype State = State(tables: R.Tables, rows: map<Id, Row>, saving: set<(Id, Stored)>, lingering: map<Id, string>)

  const INITIAL := State(R.Tables(map[], map[], {}, {}), map[], {}, map[])

  /** `deleted`: a row that the operation deletes goes. `lingers`: a session that ended may still be written. */
  datatype Step =
    | Do(op: R.Op, deleted: bool, lingers: bool)
    | AbandonLate(name: string, id: Id)               // spawning failed after a thread of the session had started
    | Capture(id: Id)                                 // a thread is about to write the session's row
    | CaptureLate(id: Id, lastActivity: nat)          // so is one of a lingering session
    | Write(id: Id, session: Stored, works: bool)
    | Vanish(id: Id)                                  // no thread keeps the session any more
    | Restart(kept: map<Id, Row>, now: nat)           // pruned and loaded; everything live is gone

  /** Identifiers are drawn at random and never drawn again. */
  ghost predicate Unused(s: State, id: Id) {
    !R.Has(s.tables, id) && id !in s.rows && id !in s.lingering && forall session :: (id, session) !in s.saving
  }

  ghost predicate Enabled(s: State, step: Step) {
    match step
    case Do(op, _, _) => R.Enabled(s.tables, op) && (op.Start? ==> Unused(s, op.id))
    case AbandonLate(name, id) => name in s.tables.starting && Unused(s, id)
    case Capture(id) => R.Keeps(s.tables, id)
    case CaptureLate(id, _) => id in s.lingering
    case Write(id, session, _) => (id, session) in s.saving
    case Vanish(id) => id in s.lingering
    case Restart(kept, now) => Pruned(s.rows, kept, Cutoff(now), MAX_STORED_SESSIONS)
  }

  function RowOf(t: R.Tables, id: Id): Stored
    requires R.Keeps(t, id)
  {
    Stored(t.sessions[id].name, t.sessions[id].lastActivity)
  }

  function LingeringAfter(s: State, op: R.Op, lingers: bool): map<Id, string> {
    if op.Exit? && R.Keeps(s.tables, op.id) && lingers then s.lingering[op.id := R.NameOf(s.tables, op.id)] else s.lingering
  }

  ghost function Apply(s: State, step: Step): State
    requires Enabled(s, step)
  {
    match step
    case Do(op, deleted, lingers) =>
      State(R.Apply(s.tables, op), R.RowsAfter(s.tables, s.rows, op, deleted), s.saving, LingeringAfter(s, op, lingers))
    case AbandonLate(name, id) => s.(tables := R.Apply(s.tables, R.Abandon(name)), lingering := s.lingering[id := name])
    case Capture(id) => s.(saving := s.saving + {(id, RowOf(s.tables, id))})
    case CaptureLate(id, lastActivity) => s.(saving := s.saving + {(id, Stored(s.lingering[id], lastActivity))})
    case Write(id, session, works) =>
      s.(rows := if works then s.rows[id := Some(session)] else s.rows, saving := s.saving - {(id, session)})
    case Vanish(id) => s.(lingering := s.lingering - {id})
    case Restart(kept, _) => State(R.Loaded(kept), kept, {}, map[])
  }

  ghost predicate Follows(s: State, step: Step, t: State) {
    Enabled(s, step) && t == Apply(s, step)
  }

  /** A run over any number of starts: its states, and the steps between them. */
  ghost predicate IsRun(states: seq<State>, steps: seq<Step>) {
    && |states| == |steps| + 1 && states[0] == INITIAL
    && (forall k :: 0 <= k < |steps| ==> Follows(states[k], steps[k], states[k + 1]))
  }

  // ---------------------------------------------------------------------- rows and sessions

  /** A row, or one about to be written, gives this session this name. */
  ghost predicate Stores(s: State, id: Id, name: string) {
    (id in s.rows && s.rows[id].Some? && s.rows[id].value.name == name) || exists session :: (id, session) in s.saving && session.name == name
  }

  /** So does one that a thread may yet write. */
  ghost predicate MayStore(s: State, id: Id, name: string) {
    Stores(s, id, name) || (id in s.lingering && s.lingering[id] == name)
  }

  /** What is or may be stored of a session that exists carries that session's name. */
  ghost predicate StoredTrue(s: State) {
    forall id, name :: R.Has(s.tables, id) && MayStore(s, id, name) ==> name == R.NameOf(s.tables, id)
  }

  ghost predicate Inv(s: State) {
    R.Consistent(s.tables) && R.WithinCap(s.tables) && StoredTrue(s)
  }

  /** A session keeps its name as long as it exists. */
  lemma NameIsKept(t: R.Tables, op: R.Op, id: Id)
    requires R.Enabled(t, op) && R.Has(R.Apply(t, op), id) && (forall i :: i in t.sessions ==> i !in t.restored)
    ensures R.NameOf(R.Apply(t, op), id) ==
      if R.Has(t, id) then R.NameOf(t, id) else if op.Start? && op.id == id then op.name else ""
    ensures R.Has(t, id) || (op.Start? && op.id == id)
  {
    match op
    case Kill(_, _) =>
    case Exit(_, _) =>
    case _ =>
  }

  /** Only sessions that exist, and those whose spawning failed late, come to be stored. */
  lemma MayStoreBefore(s: State, step: Step, id: Id, name: string)
    requires Enabled(s, step) && MayStore(Apply(s, step), id, name)
    ensures MayStore(s, id, name) || (R.Has(s.tables, id) && R.NameOf(s.tables, id) == name) || step == AbandonLate(name, id)
  {
    if step.Restart? {
      assert step.kept[id] == s.rows[id];
    }
  }

  /** What may be stored of a session that a start restores has its name. */
  lemma RestoredTrue(s: State, kept: map<Id, Row>, now: nat, id: Id, name: string)
    requires Enabled(s, Restart(kept, now)) && R.Has(R.Loaded(kept), id) && MayStore(Apply(s, Restart(kept, now)), id, name)
    ensures name == R.NameOf(R.Loaded(kept), id)
  {
  }

  lemma StoredTrueKeeps(s: State, step: Step)
    requires Inv(s) && Enabled(s, step)
    ensures StoredTrue(Apply(s, step))
  {
    var t := Apply(s, step);
    forall id, name | R.Has(t.tables, id) && MayStore(t, id, name) ensures name == R.NameOf(t.tables, id) {
      if step.Restart? {
        RestoredTrue(s, step.kept, step.now, id, name);
      } else {
        MayStoreBefore(s, step, id, name);
        if step.Do? {
          NameIsKept(s.tables, step.op, id);
        } else if step.AbandonLate? {
          NameIsKept(s.tables, R.Abandon(step.name), id);
        }
      }
    }
  }

  /** A write stores what was captured: the name and the last activity that the session had at that moment. */
  lemma WritesWhatWasCaptured(s: State, id: Id)
    requires Enabled(s, Capture(id))
    ensures
      var session := Stored(s.tables.sessions[id].name, s.tables.sessions[id].lastActivity);
      var captured := Apply(s, Capture(id));
      && Enabled(captured, Write(id, session, true))
      && Apply(captured, Write(id, session, true)).rows == s.rows[id := Some(session)]
  {
  }

  // ---------------------------------------------------------------------- which starts are consistent

  /** No orphan among the rows shares its name with another row. */
  ghost predicate Clean(s: State, kept: map<Id, Row>) {
    forall a, b :: a in kept && b in kept && kept[a].Some? && kept[b].Some? && a != b && !R.Has(s.tables, a) ==>
      kept[a].value.name != kept[b].value.name
  }

  /** Rows of sessions that exist never share a name; they have the names of their sessions. */
  lemma ExistingDiffer(s: State, a: Id, b: Id)
    requires Inv(s) && a in s.rows && b in s.rows && s.rows[a].Some? && s.rows[b].Some?
    requires R.Has(s.tables, a) && R.Has(s.tables, b) && s.rows[a].value.name == s.rows[b].value.name
    ensures a == b
  {
    assert MayStore(s, a, s.rows[a].value.name) && MayStore(s, b, s.rows[b].value.name);
    assert R.Differ(R.Owners(s.tables), a, b);
  }

  /**
   * Starting on rows that an earlier run left is consistent exactly when no orphan row among them
   * shares its name with another row.
   */
  lemma RestartConsistentIff(s: State, kept: map<Id, Row>, now: nat)
    requires Inv(s) && Enabled(s, Restart(kept, now))
    ensures var t := Apply(s, Restart(kept, now)).tables; R.WithinCap(t) && (R.Consistent(t) <==> Clean(s, kept))
  {
    R.LoadExact(kept);
    R.PrunedFits(s.rows, kept, Cutoff(now));
    if Clean(s, kept) {
      forall a, b | a in kept && b in kept && kept[a].Some? && kept[b].Some? && kept[a].value.name == kept[b].value.name
        ensures a == b
      {
        assert kept[a] == s.rows[a] && kept[b] == s.rows[b];
        if R.Has(s.tables, a) && R.Has(s.tables, b) {
          ExistingDiffer(s, a, b);
        }
      }
    }
  }

  lemma StepKeeps(s: State, step: Step)
    requires Inv(s) && Enabled(s, step) && (step.Restart? ==> Clean(s, step.kept))
    ensures Inv(Apply(s, step))
  {
    StoredTrueKeeps(s, step);
    if step.Do? {
      R.OpKeeps(s.tables, step.op);
      R.OpKeepsCap(s.tables, step.op);
    } else if step.AbandonLate? {
      R.OpKeeps(s.tables, R.Abandon(step.name));
    } else if step.Restart? {
      RestartConsistentIff(s, step.kept, step.now);
    }
  }

  lemma InitialHolds()
    ensures Inv(INITIAL)
  {
    assert R.Owners(INITIAL.tables) == map[];
  }

  /** Every start among the first `n` steps met no such orphan. */
  ghost predicate CleanStarts(states: seq<State>, steps: seq<Step>, n: nat)
    requires IsRun(states, steps) && n <= |steps|
  {
    forall k :: 0 <= k < n && steps[k].Restart? ==> Clean(states[k], steps[k].kept)
  }

  /** Then names are exact and distinct, and the cap holds, throughout. */
  lemma {:induction false} CleanRunsKeep(states: seq<State>, steps: seq<Step>, n: nat)
    requires IsRun(states, steps) && n <= |steps| && CleanStarts(states, steps, n)
    ensures Inv(states[n])
  {
    if n == 0 {
      InitialHolds();
    } else {
      CleanRunsKeep(states, steps, n - 1);
      assert Follows(states[n - 1], steps[n - 1], states[n]);
      StepKeeps(states[n - 1], steps[n - 1]);
    }
  }

  /** From the first start on, the registry of every run is consistent exactly as long as starts meet no such orphan. */
  lemma {:induction false} ConsistentIffClean(states: seq<State>, steps: seq<Step>, n: nat)
    requires IsRun(states, steps) && n <= |steps|
    ensures (forall k :: 0 <= k <= n ==> R.Consistent(states[k].tables)) <==> CleanStarts(states, steps, n)
  {
    if n == 0 {
      InitialHolds();
    } else {
      ConsistentIffClean(states, steps, n - 1);
      if CleanStarts(states, steps, n - 1) {
        CleanRunsKeep(states, steps, n - 1);
        assert Follows(states[n - 1], steps[n - 1], states[n]);
        if steps[n - 1].Restart? {
          RestartConsistentIff(states[n - 1], steps[n - 1].kept, steps[n - 1].now);
        } else {
          StepKeeps(states[n - 1], steps[n - 1]);
        }
      }
    }
  }

  // ---------------------------------------------------------------------- two ways to keep starts clean

  /** No thread is about to write the session's row, or will. */
  ghost predicate NoWriteOf(s: State, id: Id) {
    id !in s.lingering && forall session :: (id, session) !in s.saving
  }

  /** A session that goes for good has its row deleted, and nobody left who may write it again; no spawning fails late. */
  ghost predicate Prompt(s: State, step: Step)
    requires Enabled(s, step)
  {
    && !step.AbandonLate?
    && (step.Do? && R.DeletedRow(s.tables, step.op).Some? && R.Has(s.tables, R.DeletedRow(s.tables, step.op).value) ==>
          step.deleted && NoWriteOf(Apply(s, step), R.DeletedRow(s.tables, step.op).value))
  }

  ghost predicate NoOrphans(s: State) {
    forall id, name :: MayStore(s, id, name) ==> R.Has(s.tables, id)
  }

  /** What is gone after an operation is what it was to delete. */
  lemma GoneIsDeleted(t: R.Tables, op: R.Op, id: Id)
    requires R.Enabled(t, op) && R.Has(t, id) && !R.Has(R.Apply(t, op), id)
    ensures R.DeletedRow(t, op) == Some(id)
  {
  }

  lemma NoOrphansKeeps(s: State, step: Step)
    requires NoOrphans(s) && Enabled(s, step) && Prompt(s, step)
    ensures NoOrphans(Apply(s, step))
  {
    var t := Apply(s, step);
    forall id, name | MayStore(t, id, name) ensures R.Has(t.tables, id) {
      MayStoreBefore(s, step, id, name);
      if step.Do? && !R.Has(t.tables, id) {
        GoneIsDeleted(s.tables, step.op, id);
      }
    }
  }

  lemma NoOrphansClean(s: State, kept: map<Id, Row>, now: nat)
    requires NoOrphans(s) && Enabled(s, Restart(kept, now))
    ensures Clean(s, kept)
  {
    forall a | a in kept && kept[a].Some? ensures R.Has(s.tables, a) {
      assert MayStore(s, a, s.rows[a].value.name);
    }
  }

  /** If deleting a row never fails and no write comes after it, every start is consistent. */
  lemma {:induction false} PromptRunsStayConsistent(states: seq<State>, steps: seq<Step>, n: nat)
    requires IsRun(states, steps) && n <= |steps| && forall k :: 0 <= k < n ==> Enabled(states[k], steps[k]) && Prompt(states[k], steps[k])
    ensures NoOrphans(states[n]) && Inv(states[n])
  {
    if n == 0 {
      InitialHolds();
    } else {
      PromptRunsStayConsistent(states, steps, n - 1);
      var s, step := states[n - 1], steps[n - 1];
      assert Follows(s, step, states[n]) && Prompt(s, step);
      NoOrphansKeeps(s, step);
      if step.Restart? {
        NoOrphansClean(s, step.kept, step.now);
      }
      StepKeeps(s, step);
    }
  }

  /** A session has the name, or something that is or may be stored gives it the name. */
  ghost predicate Claims(s: State, id: Id, name: string) {
    (R.Has(s.tables, id) && R.NameOf(s.tables, id) == name) || MayStore(s, id, name)
  }

  ghost predicate ClaimOk(s: State, a: Id, b: Id, name: string) {
    Claims(s, a, name) ==> name !in s.tables.starting && (Claims(s, b, name) ==> a == b)
  }

  ghost predicate ClaimsDistinct(s: State) {
    forall a, b, name :: ClaimOk(s, a, b, name)
  }

  /** A name is reserved only if nothing has it that is or may be stored. */
  ghost predicate Guarded(s: State, step: Step) {
    step.Do? && step.op.Reserve? ==> forall id :: !MayStore(s, id, step.op.name)
  }

  /** The step makes a session of a name that is being reserved. */
  predicate TakesUp(step: Step, id: Id, name: string) {
    step == AbandonLate(name, id) || (step.Do? && step.op.Start? && step.op.id == id && step.op.name == name)
  }

  lemma ClaimsBefore(s: State, step: Step, id: Id, name: string)
    requires Inv(s) && Enabled(s, step) && Claims(Apply(s, step), id, name)
    ensures Claims(s, id, name) || TakesUp(step, id, name)
  {
    var t := Apply(s, step);
    if MayStore(t, id, name) {
      MayStoreBefore(s, step, id, name);
    } else if step.Do? {
      NameIsKept(s.tables, step.op, id);
    }
  }

  lemma ReserveIsUnclaimed(s: State, name: string, id: Id)
    requires Inv(s) && name !in s.tables.names && !MayStore(s, id, name)
    ensures !Claims(s, id, name)
  {
    if R.Has(s.tables, id) {
      R.NameIsReserved(s.tables, id);
    }
  }

  lemma StartingBefore(s: State, step: Step, id: Id, name: string)
    requires Enabled(s, step) && name in Apply(s, step).tables.starting
    ensures if step.Do? && step.op.Reserve? && step.op.name == name then name !in s.tables.names else name in s.tables.starting
    ensures !TakesUp(step, id, name)
  {
  }

  /** A name that is being reserved for a session has no other claim. */
  lemma StartingIsUnclaimed(s: State, step: Step, a: Id, name: string)
    requires Inv(s) && ClaimsDistinct(s) && Enabled(s, step) && Guarded(s, step) && Claims(Apply(s, step), a, name)
    ensures name !in Apply(s, step).tables.starting
  {
    ClaimsBefore(s, step, a, name);
    assert ClaimOk(s, a, a, name);
    if name in Apply(s, step).tables.starting {
      StartingBefore(s, step, a, name);
      if step.Do? && step.op.Reserve? && step.op.name == name {
        ReserveIsUnclaimed(s, name, a);
      }
    }
  }

  lemma OneClaimant(s: State, step: Step, a: Id, b: Id, name: string)
    requires Inv(s) && ClaimsDistinct(s) && Enabled(s, step)
    requires Claims(Apply(s, step), a, name) && Claims(Apply(s, step), b, name)
    ensures a == b
  {
    ClaimsBefore(s, step, a, name);
    ClaimsBefore(s, step, b, name);
    assert ClaimOk(s, a, b, name) && ClaimOk(s, b, a, name);
  }

  lemma ClaimsKeep(s: State, step: Step)
    requires Inv(s) && ClaimsDistinct(s) && Enabled(s, step) && Guarded(s, step)
    ensures ClaimsDistinct(Apply(s, step))
  {
    forall a, b, name ensures ClaimOk(Apply(s, step), a, b, name) {
      if Claims(Apply(s, step), a, name) {
        StartingIsUnclaimed(s, step, a, name);
        if Claims(Apply(s, step), b, name) {
          OneClaimant(s, step, a, b, name);
        }
      }
    }
  }

  lemma ClaimsClean(s: State, kept: map<Id, Row>, now: nat)
    requires ClaimsDistinct(s) && Enabled(s, Restart(kept, now))
    ensures Clean(s, kept)
  {
    forall a, b | a in kept && b in kept && kept[a].Some? && kept[b].Some? && kept[a].value.name == kept[b].value.name
      ensures a == b
    {
      assert MayStore(s, a, s.rows[a].value.name) && MayStore(s, b, s.rows[b].value.name);
      assert ClaimOk(s, a, b, kept[a].value.name);
    }
  }

  /**
   * If no name is reserved while something has it that is stored or that a thread may yet store,
   * every start is consistent, however many deletions fail. The daemon does not look.
   */
  lemma {:induction false} GuardedRunsStayConsistent(states: seq<State>, steps: seq<Step>, n: nat)
    requires IsRun(states, steps) && n <= |steps| && forall k :: 0 <= k < n ==> Guarded(states[k], steps[k])
    ensures ClaimsDistinct(states[n]) && Inv(states[n])
  {
    if n == 0 {
      InitialHolds();
    } else {
      GuardedRunsStayConsistent(states, steps, n - 1);
      var s, step := states[n - 1], steps[n - 1];
      assert Follows(s, step, states[n]) && Guarded(s, step);
      if step.Restart? {
        ClaimsClean(s, step.kept, step.now);
      }
      ClaimsKeep(s, step);
      StepKeeps(s, step);
    }
  }

  // ---------------------------------------------------------------------- two sessions with one name

  /** Deletions work with no write under way, and names are reserved only if no stored row has them. */
  ghost predicate Tidy(s: State, step: Step) {
    step.Do? ==>
      && (R.DeletedRow(s.tables, step.op).Some? ==> step.deleted && s.saving == {})
      && (step.op.Reserve? ==> forall id :: !Stores(s, id, step.op.name))
  }

  ghost predicate Reachable(s: State, tidy: bool) {
    exists states, steps :: IsRun(states, steps) && states[|steps|] == s && (tidy ==> AllTidy(states, steps))
  }

  ghost predicate AllTidy(states: seq<State>, steps: seq<Step>)
    requires IsRun(states, steps)
  {
    forall k :: 0 <= k < |steps| ==> Tidy(states[k], steps[k])
  }

  lemma RunGrows(states: seq<State>, steps: seq<Step>, step: Step, t: State)
    requires IsRun(states, steps) && Follows(states[|steps|], step, t)
    ensures IsRun(states + [t], steps + [step])
  {
    forall k | 0 <= k < |steps + [step]| ensures Follows((states + [t])[k], (steps + [step])[k], (states + [t])[k + 1]) {
      assert k < |steps| ==> Follows(states[k], steps[k], states[k + 1]);
    }
  }

  lemma TidyGrows(states: seq<State>, steps: seq<Step>, step: Step, t: State)
    requires IsRun(states, steps) && AllTidy(states, steps) && Tidy(states[|steps|], step) && IsRun(states + [t], steps + [step])
    ensures AllTidy(states + [t], steps + [step])
  {
    forall k | 0 <= k < |steps + [step]| ensures Tidy((states + [t])[k], (steps + [step])[k]) {
      assert k < |steps| ==> Tidy(states[k], steps[k]);
    }
  }

  lemma Go(s: State, step: Step, tidy: bool)
    requires Reachable(s, tidy) && Enabled(s, step) && (tidy ==> Tidy(s, step))
    ensures Reachable(Apply(s, step), tidy)
  {
    var states, steps :| IsRun(states, steps) && states[|steps|] == s && (tidy ==> AllTidy(states, steps));
    var t := Apply(s, step);
    RunGrows(states, steps, step, t);
    if tidy {
      TidyGrows(states, steps, step, t);
    }
    assert (states + [t])[|steps + [step]|] == t;
  }

  function OneLive(id: Id, name: string): R.Tables {
    R.Tables(map[id := R.Live(name, false, 0)], map[], {name}, {})
  }

  /** A session with this name is created and its row written. */
  lemma CreateAndStore(s: State, id: Id, name: string, tidy: bool) returns (t: State)
    requires Reachable(s, tidy) && s.tables == INITIAL.tables && s.saving == {} && Unused(s, id)
    requires tidy ==> s.rows == map[]
    ensures Reachable(t, tidy) && t == State(OneLive(id, name), s.rows[id := Some(Stored(name, 0))], {}, s.lingering)
  {
    t := s;
    Go(t, Do(R.Reserve(name), true, false), tidy);
    t := Apply(t, Do(R.Reserve(name), true, false));
    Go(t, Do(R.Start(name, id, 0), true, false), tidy);
    t := Apply(t, Do(R.Start(name, id, 0), true, false));
    Go(t, Capture(id), tidy);
    t := Apply(t, Capture(id));
    Go(t, Write(id, Stored(name, 0), true), tidy);
    t := Apply(t, Write(id, Stored(name, 0), true));
  }

  lemma OneSessionIsConsistent(id: Id, name: string)
    ensures R.Consistent(OneLive(id, name))
  {
    var t := OneLive(id, name);
    assert R.Owners(t) == map[id := name];
    assert R.Owners(t)[id] == name;
  }

  /** The tables, before the start and after it, of a daemon that restores two sessions with one name. */
  ghost predicate Duplicates(s: State, a: Id, b: Id, name: string) {
    && R.Consistent(s.tables) && Enabled(s, Restart(s.rows, 0))
    && var t := Apply(s, Restart(s.rows, 0)).tables;
    R.Has(t, a) && R.Has(t, b) && R.NameOf(t, a) == R.NameOf(t, b) == name && !R.Consistent(t)
  }

  /** Two rows are few enough to survive the pruning at time 0. */
  lemma TwoRowsStay(rows: map<Id, Row>, a: Id, b: Id, name: string)
    requires a != b && rows == map[a := Some(Stored(name, 0)), b := Some(Stored(name, 0))]
    ensures Pruned(rows, rows, Cutoff(0), MAX_STORED_SESSIONS)
  {
    assert rows.Keys == {a, b};
    assert |rows| == |rows.Keys|;
  }

  lemma TwoRowsRestore(s: State, a: Id, b: Id, name: string)
    requires a != b && s.rows == map[a := Some(Stored(name, 0)), b := Some(Stored(name, 0))] && s.tables == OneLive(b, name)
    ensures Duplicates(s, a, b, name)
  {
    TwoRowsStay(s.rows, a, b, name);
    OneSessionIsConsistent(b, name);
    R.LoadExact(s.rows);
    assert s.rows[a].value.name == s.rows[b].value.name;
  }

  /**
   * A session is killed and deleting its row fails; another takes the free name, and both rows are
   * there at the next start. It restores two sessions with one name.
   */
  lemma DuplicateNames(a: Id, b: Id, name: string) returns (s: State)
    requires a != b
    ensures Reachable(s, false) && Duplicates(s, a, b, name)
  {
    assert IsRun([INITIAL], []);
    var first := CreateAndStore(INITIAL, a, name, false);
    Go(first, Do(R.Kill(a, true), false, false), false);
    s := CreateAndStore(Apply(first, Do(R.Kill(a, true), false, false)), b, name, false);
    TwoRowsRestore(s, a, b, name);
  }

  /** A session ended, and its restored entry was killed; its threads may still write. */
  lemma EndAndKill(s: State, a: Id, name: string) returns (t: State)
    requires Reachable(s, true) && s == State(OneLive(a, name), map[a := Some(Stored(name, 0))], {}, map[])
    ensures Reachable(t, true) && t == State(INITIAL.tables, map[], {}, map[a := name])
  {
    R.WithSize(s.tables.restored, a, Stored(name, 0));
    Go(s, Do(R.Exit(a, None), true, true), true);
    t := Apply(s, Do(R.Exit(a, None), true, true));
    Go(t, Do(R.Kill(a, true), true, false), true);
    t := Apply(t, Do(R.Kill(a, true), true, false));
  }

  /**
   * The same without a failure and without a write under way at any deletion: a session ends, its
   * restored entry is killed, another takes the name, and then a thread of the first writes its row.
   */
  lemma LateWriteDuplicates(a: Id, b: Id, name: string) returns (s: State)
    requires a != b
    ensures Reachable(s, true) && Duplicates(s, a, b, name)
  {
    assert IsRun([INITIAL], []);
    s := CreateAndStore(INITIAL, a, name, true);
    s := EndAndKill(s, a, name);
    s := CreateAndStore(s, b, name, true);
    Go(s, CaptureLate(a, 0), true);
    s := Apply(s, CaptureLate(a, 0));
    Go(s, Write(a, Stored(name, 0), true), true);
    s := Apply(s, Write(a, Stored(name, 0), true));
    TwoRowsRestore(s, a, b, name);
  }
}
