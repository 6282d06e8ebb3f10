/**
 * Coalesced publishing of the session list (crates/daemon/src/ipc.rs): a change is followed by a
 * call that either finds a pass already pending or starts a task, which sleeps, clears the
 * pending flag, takes the summaries and only then replaces the published list. Not every change
 * is followed by one: output that leaves a session's state as it was changes its summary silently,
 * and so does loading the stored sessions at the start.
 */
module Publish {
  import opened Common

  type Summaries = seq<string>

  /** Summaries that a publisher has taken and not yet put up, with the version they show. */
  datatype Take = Take(version: nat, summaries: Summaries)

  /**
   * `version` counts the changes, and `silent` is the version that the last unannounced one made.
   * `shown` is the version of the published list, and `best` the newest one ever put up.
   * `owed` changes have not called for their pass yet; `spawning` callers are between setting the
   * flag and spawning; `asleep` tasks wait; `ready` publishers, woken tasks or callers that
   * publish at once, have yet to take the summaries; `taken` have, and have yet to put them up.
   * `overlapped` tells whether summaries were ever taken while others were waiting to be put up.
   */
  datatype State = State(
    current: Summaries, version: nat, silent: nat,
    published: Summaries, shown: nat, best: nat,
    pending: bool, owed: nat, spawning: nat, asleep: nat, ready: nat, taken: multiset<Take>, overlapped: bool)

  /** The daemon starts with the stored sessions loaded and an empty list published. */
  function Initial(loaded: Summaries): State {
    var version := if loaded == [] then 0 else 1;
    State(loaded, version, version, [], 0, 0, false, 0, 0, 0, 0, multiset{}, false)
  }

  datatype Step =
    | Change(summaries: Summaries)           // a session's state changed; a call to schedule follows
    | ChangeSilently(summaries: Summaries)   // activity or last line, in an unchanged state
    | ChangeAndPublish(summaries: Summaries) // created, killed or evicted; a direct publish follows
    | Schedule                               // swap(true)
    | Spawn
    | Wake                                   // the flag is cleared
    | TakeSummaries                          // summaries()
    | Replace(take: Take)                    // send_replace

  predicate Enabled(s: State, step: Step) {
    match step
    case Schedule => s.owed > 0
    case Spawn => s.spawning > 0
    case Wake => s.asleep > 0
    case TakeSummaries => s.ready > 0
    case Replace(take) => take in s.taken
    case _ => true
  }

  function Apply(s: State, step: Step): State
    requires Enabled(s, step)
  {
    match step
    case Change(summaries) => s.(current := summaries, version := s.version + 1, owed := s.owed + 1)
    case ChangeSilently(summaries) => s.(current := summaries, version := s.version + 1, silent := s.version + 1)
    case ChangeAndPublish(summaries) => s.(current := summaries, version := s.version + 1, ready := s.ready + 1)
    case Schedule => s.(owed := s.owed - 1, pending := true, spawning := if s.pending then s.spawning else s.spawning + 1)
    case Spawn => s.(spawning := s.spawning - 1, asleep := s.asleep + 1)
    case Wake => s.(asleep := s.asleep - 1, pending := false, ready := s.ready + 1)
    case TakeSummaries =>
      s.(ready := s.ready - 1, taken := s.taken + multiset{Take(s.version, s.current)},
         overlapped := s.overlapped || s.taken != multiset{})
    case Replace(take) =>
      s.(published := take.summaries, shown := take.version, best := Max(s.best, take.version),
         taken := s.taken - multiset{take})
  }

  function Run(loaded: Summaries, steps: seq<Step>): Option<State> {
    if steps == [] then Some(Initial(loaded))
    else
      var before, last := Run(loaded, steps[..|steps| - 1]), steps[|steps| - 1];
      if before.Some? && Enabled(before.value, last) then Some(Apply(before.value, last)) else None
  }

  /** No task is outstanding and nobody is in the middle of a call. */
  predicate Quiet(s: State) {
    s.owed == 0 && s.spawning == 0 && s.asleep == 0 && s.ready == 0 && s.taken == multiset{}
  }

  /** A publish that will take the summaries after this moment is on its way. */
  predicate PassComing(s: State) {
    s.owed > 0 || s.spawning > 0 || s.asleep > 0 || s.ready > 0
  }

  /** The list was taken after every change so far. */
  predicate Fresh(s: State) {
    s.shown == s.version
  }

  // ---------------------------------------------------------------------- what every run keeps

  /** The last version was put up once, or a publisher has it in hand. */
  ghost predicate Reached(s: State) {
    s.best == s.version || exists take :: take in s.taken && take.version == s.version
  }

  ghost predicate TakeOk(s: State, take: Take) {
    take.version <= s.version && (take.version == s.version ==> take.summaries == s.current)
  }

  /** Without overlap, what is in hand is at least as new as all that was put up, in order. */
  ghost predicate InOrder(s: State) {
    s.shown == s.best && |s.taken| <= 1 && forall take :: take in s.taken ==> s.best <= take.version
  }

  /**
   * The flag is up exactly while its one task is on its way; an announced change is in the list,
   * or in a publisher's hand, or its pass is coming.
   */
  ghost predicate Inv(s: State) {
    && s.spawning + s.asleep == (if s.pending then 1 else 0)
    && s.shown <= s.best <= s.version && s.silent <= s.version
    && (forall take :: take in s.taken ==> TakeOk(s, take))
    && (Fresh(s) ==> s.published == s.current)
    && (PassComing(s) || s.silent == s.version || Reached(s))
    && (!s.overlapped ==> InOrder(s))
  }

  lemma ReplaceKeeps(s: State, take: Take)
    requires Inv(s) && take in s.taken
    ensures Inv(Apply(s, Replace(take)))
  {
    var t := Apply(s, Replace(take));
    assert TakeOk(s, take);
    assert s.taken == t.taken + multiset{take};
    forall other | other in t.taken ensures TakeOk(t, other) {
      assert TakeOk(s, other);
    }
    if Reached(s) && s.best != s.version {
      var newest :| newest in s.taken && newest.version == s.version;
      assert newest == take || newest in t.taken;
    }
  }

  lemma StepKeeps(s: State, step: Step)
    requires Inv(s) && Enabled(s, step)
    ensures Inv(Apply(s, step))
  {
    var t := Apply(s, step);
    if step.Replace? {
      ReplaceKeeps(s, step.take);
    } else {
      forall take | take in t.taken ensures TakeOk(t, take) {
        assert take in s.taken ==> TakeOk(s, take);
      }
      if step.TakeSummaries? {
        assert Take(s.version, s.current) in t.taken;
      } else if Reached(s) && t.version == s.version && s.best != s.version {
        var newest :| newest in s.taken && newest.version == s.version;
        assert newest in t.taken;
      }
    }
  }

  lemma {:induction false} RunKeeps(loaded: Summaries, steps: seq<Step>)
    requires Run(loaded, steps).Some?
    ensures Inv(Run(loaded, steps).value)
  {
    if steps != [] {
      RunKeeps(loaded, steps[..|steps| - 1]);
      StepKeeps(Run(loaded, steps[..|steps| - 1]).value, steps[|steps| - 1]);
    }
  }

  // ---------------------------------------------------------------------- which runs lose an update

  /**
   * In every run that has become quiet, however publishes overlapped, the list includes every
   * change exactly when no older list was put up last, over a newer one, and some publish took
   * the summaries after the last change that nobody announced. Announced changes are never a
   * reason: the pending flag, cleared before the summaries are taken, sees to that.
   */
  lemma FreshIff(loaded: Summaries, steps: seq<Step>)
    requires Run(loaded, steps).Some? && Quiet(Run(loaded, steps).value)
    ensures var s := Run(loaded, steps).value;
      && (Fresh(s) <==> s.shown == s.best && s.silent <= s.best)
      && (Fresh(s) ==> s.published == s.current)
  {
    RunKeeps(loaded, steps);
  }

  /** A run in which no publish begins between the two halves of another never puts up an older list last. */
  lemma NoOverlapNoOvertaking(loaded: Summaries, steps: seq<Step>)
    requires Run(loaded, steps).Some? && !Run(loaded, steps).value.overlapped
    ensures Run(loaded, steps).value.shown == Run(loaded, steps).value.best
  {
    RunKeeps(loaded, steps);
  }

  lemma RunSnoc(loaded: Summaries, steps: seq<Step>, step: Step)
    requires Run(loaded, steps).Some? && Enabled(Run(loaded, steps).value, step)
    ensures Run(loaded, steps + [step]) == Some(Apply(Run(loaded, steps).value, step))
  {
    assert (steps + [step])[..|steps|] == steps;
  }

  /** Steps of publishers, as opposed to changes. */
  predicate Publishes(step: Step) {
    step.Schedule? || step.Spawn? || step.Wake? || step.TakeSummaries? || step.Replace?
  }

  /** How many steps publishers have yet to do. */
  function Work(s: State): nat {
    5 * s.owed + 4 * s.spawning + 3 * s.asleep + 2 * s.ready + |s.taken|
  }

  lemma WorkLeft(s: State) returns (step: Step)
    requires !Quiet(s)
    ensures Publishes(step) && Enabled(s, step) && Work(Apply(s, step)) < Work(s)
  {
    if s.owed > 0 {
      step := Schedule;
    } else if s.spawning > 0 {
      step := Spawn;
    } else if s.asleep > 0 {
      step := Wake;
    } else if s.ready > 0 {
      step := TakeSummaries;
    } else {
      var take :| take in s.taken;
      step := Replace(take);
    }
  }

  /** Left alone, publishers finish: every run becomes quiet by their own steps. */
  lemma {:induction false} Settles(loaded: Summaries, steps: seq<Step>) returns (more: seq<Step>)
    requires Run(loaded, steps).Some?
    ensures Run(loaded, steps + more).Some? && Quiet(Run(loaded, steps + more).value)
    ensures forall i :: 0 <= i < |more| ==> Publishes(more[i])
    decreases Work(Run(loaded, steps).value)
  {
    var s := Run(loaded, steps).value;
    if Quiet(s) {
      more := [];
      assert steps + more == steps;
    } else {
      var step := WorkLeft(s);
      RunSnoc(loaded, steps, step);
      assert Run(loaded, steps + [step]).value == Apply(s, step);
      var rest := Settles(loaded, steps + [step]);
      more := [step] + rest;
      assert steps + more == steps + [step] + rest;
    }
  }

  /** A daemon that has loaded stored sessions is quiet and shows an empty list. */
  lemma LoadedStart(loaded: Summaries)
    requires loaded != []
    ensures Run(loaded, []).Some? && Quiet(Run(loaded, []).value)
    ensures Run(loaded, []).value.published == [] && Run(loaded, []).value.current == loaded
  {
  }

  /** A summary that changes without an announcement stays out of the list, with nothing pending. */
  lemma SilentChangeIsMissed(before: Summaries, after: Summaries)
    ensures
      var end := Run([], [ChangeAndPublish(before)] + [TakeSummaries] + [Replace(Take(1, before))] + [ChangeSilently(after)]);
      end.Some? && Quiet(end.value) && end.value.published == before && end.value.current == after
  {
    var one := [ChangeAndPublish(before)];
    RunSnoc([], [], ChangeAndPublish(before));
    assert [] + one == one;
    RunSnoc([], one, TakeSummaries);
    RunSnoc([], one + [TakeSummaries], Replace(Take(1, before)));
    RunSnoc([], one + [TakeSummaries] + [Replace(Take(1, before))], ChangeSilently(after));
  }

  /** What the first of two publishers takes, and the second. */
  const WAFFLE: Take := Take(1, ["waffle"])
  const NOTHING: Take := Take(2, [])

  /** Both have taken the summaries, and neither has put them up. */
  function TwoTaken(first: Summaries, second: Summaries): seq<Step> {
    [ChangeAndPublish(first)] + [TakeSummaries] + [ChangeAndPublish(second)] + [TakeSummaries]
  }

  lemma OneTakenState(first: Summaries)
    ensures Run([], [ChangeAndPublish(first)] + [TakeSummaries]) ==
      Some(State(first, 1, 0, [], 0, 0, false, 0, 0, 0, 0, multiset{Take(1, first)}, false))
  {
    var one := [ChangeAndPublish(first)];
    RunSnoc([], [], ChangeAndPublish(first));
    assert [] + one == one;
    RunSnoc([], one, TakeSummaries);
    assert multiset{} + multiset{Take(1, first)} == multiset{Take(1, first)};
  }

  lemma TwoTakenState(first: Summaries, second: Summaries)
    ensures Run([], TwoTaken(first, second)) ==
      Some(State(second, 2, 0, [], 0, 0, false, 0, 0, 0, 0, multiset{Take(1, first)} + multiset{Take(2, second)}, true))
  {
    var two := [ChangeAndPublish(first)] + [TakeSummaries];
    OneTakenState(first);
    RunSnoc([], two, ChangeAndPublish(second));
    RunSnoc([], two + [ChangeAndPublish(second)], TakeSummaries);
  }

  /** The two lists put up in either order: the one put up last is shown. */
  lemma PutUp(first: Summaries, second: Summaries)
    ensures
      var older, newer, two := Take(1, first), Take(2, second), TwoTaken(first, second);
      && Run([], two + [Replace(newer)] + [Replace(older)]) == Some(State(second, 2, 0, first, 1, 2, false, 0, 0, 0, 0, multiset{}, true))
      && Run([], two + [Replace(older)] + [Replace(newer)]) == Some(State(second, 2, 0, second, 2, 2, false, 0, 0, 0, 0, multiset{}, true))
  {
    var older, newer, two := Take(1, first), Take(2, second), TwoTaken(first, second);
    TwoTakenState(first, second);
    RunSnoc([], two, Replace(newer));
    assert multiset{older} + multiset{newer} - multiset{newer} == multiset{older};
    RunSnoc([], two + [Replace(newer)], Replace(older));
    RunSnoc([], two, Replace(older));
    assert multiset{older} + multiset{newer} - multiset{older} == multiset{newer};
    RunSnoc([], two + [Replace(older)], Replace(newer));
  }

  /** If the older list is put up last, all is quiet and the list shows the session that is gone. */
  lemma OvertakenRun()
    ensures
      var end := Run([], TwoTaken(["waffle"], []) + [Replace(NOTHING)] + [Replace(WAFFLE)]);
      end.Some? && Quiet(end.value) && end.value.published == ["waffle"] && end.value.current == []
  {
    PutUp(["waffle"], []);
  }

  /** The same overlap, with the lists put up in the order they were taken, loses nothing. */
  lemma OverlapMayBeHarmless()
    ensures
      var end := Run([], TwoTaken(["waffle"], []) + [Replace(WAFFLE)] + [Replace(NOTHING)]);
      end.Some? && Quiet(end.value) && end.value.overlapped && Fresh(end.value)
  {
    PutUp(["waffle"], []);
  }
}
