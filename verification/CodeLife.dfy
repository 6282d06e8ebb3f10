/**
 * How long a pairing code lives, and what becomes of the answers (crates/daemon/src/pairing.rs): the
 * state of the manager after any run, read off the steps and what they logged.
 */
module CodeLife {
  import opened Common
  import opened Pairing

  // ---------------------------------------------------------------------- the code issued last

  /** No code was issued from step `i` on. */
  predicate NoIssue(steps: seq<Step>, i: nat) {
    forall k :: i <= k < |steps| ==> !steps[k].Issue?
  }

  /** The code issued at step `i` is the one issued last. */
  predicate IssuedLast(steps: seq<Step>, i: nat) {
    i < |steps| && steps[i].Issue? && NoIssue(steps, i + 1)
  }

  /** Five minutes after it was issued, unless the clock ends before. */
  function Expiry(issue: Step): nat
    requires issue.Issue?
  {
    SaturatingAdd(issue.now, 300_000)
  }

  /** The number of the desktop that asked for the code issued at step `i`. */
  function PromptOf(steps: seq<Step>, i: nat): nat
    requires i < |steps| && Run(steps[..i]).Some?
  {
    Run(steps[..i]).value.nextPrompt
  }

  /** Expired codes are cleared away, or a wrong code is tried, when the code issued has expired. */
  predicate Sweeps(step: Step, issue: Step)
    requires issue.Issue?
  {
    (step.Prune? || (step.Take? && step.code != issue.code)) && step.now >= Expiry(issue)
  }

  predicate SweptSince(steps: seq<Step>, i: nat)
    requires i < |steps| && steps[i].Issue?
  {
    |steps| > i + 1 && (SweptSince(steps[..|steps| - 1], i) || Sweeps(steps[|steps| - 1], steps[i]))
  }

  /** Not taken, fewer than five misses, and not swept. */
  predicate StillLive(steps: seq<Step>, i: nat)
    requires Run(steps).Some? && IssuedLast(steps, i) && Run(steps[..i]).Some?
  {
    var h := Run(steps).value.history;
    Consumed(PromptOf(steps, i)) !in h && MissesSinceIssue(h) < 5 && !SweptSince(steps, i)
  }

  lemma {:induction false} PrefixRuns(steps: seq<Step>, i: nat)
    requires Run(steps).Some? && i <= |steps|
    ensures Run(steps[..i]).Some?
    decreases |steps|
  {
    if i < |steps| {
      assert steps[..|steps| - 1][..i] == steps[..i];
      PrefixRuns(steps[..|steps| - 1], i);
    } else {
      assert steps[..i] == steps;
    }
  }

  lemma {:induction false} NoCodeBefore(steps: seq<Step>)
    requires Run(steps).Some? && NoIssue(steps, 0)
    ensures Run(steps).value.codes == map[]
  {
    if steps != [] {
      NoCodeBefore(steps[..|steps| - 1]);
    }
  }

  /** A code of this issue, with what it has been charged, or none. */
  ghost predicate Charges(s: State, issue: Step, prompt: nat)
    requires issue.Issue?
  {
    && (s.codes == map[] || s.codes == map[issue.code := PendingCode(Expiry(issue), MissesSinceIssue(s.history), prompt)])
    && (s.codes != map[] ==> MissesSinceIssue(s.history) < 5 && Consumed(prompt) !in s.history)
  }

  /** What a step does to the code. */
  ghost predicate ChargedBy(s: State, step: Step, t: State, issue: Step, prompt: nat)
    requires issue.Issue?
  {
    && MissesSinceIssue(t.history) >= MissesSinceIssue(s.history)
    && (Consumed(prompt) in s.history ==> Consumed(prompt) in t.history)
    && t.codes == if s.codes != map[] && Consumed(prompt) !in t.history && MissesSinceIssue(t.history) < 5 && !Sweeps(step, issue)
                  then map[issue.code := PendingCode(Expiry(issue), MissesSinceIssue(t.history), prompt)] else map[]
  }

  lemma CodeAfterTake(s: State, caller: nat, code: string, now: nat, issue: Step, prompt: nat)
    requires Enabled(s, Take(caller, code, now)) && issue.Issue? && Charges(s, issue, prompt)
    ensures ChargedBy(s, Take(caller, code, now), Apply(s, Take(caller, code, now)), issue, prompt)
  {
    var t := Apply(s, Take(caller, code, now));
    if code in s.codes {
      MissesSnoc(s.history, Consumed(prompt));
      assert Consumed(prompt) in t.history;
    } else {
      MissesSnoc(s.history, Missed);
    }
  }

  /** Steps that neither issue nor take a code log nothing about codes. */
  lemma OtherEvent(s: State, step: Step)
    requires Enabled(s, step) && !step.Issue? && !step.Take?
    ensures Apply(s, step).codes == if step.Prune? then Pruned(s.codes, step.now) else s.codes
    ensures
      var h, g := s.history, Apply(s, step).history;
      g == h || (|g| == |h| + 1 && g == h + [g[|h|]] && !g[|h|].CodeIssued? && !g[|h|].Missed? && !g[|h|].Consumed?)
  {
    HistoryStep(s, step);
  }

  lemma OtherCodes(s: State, step: Step)
    requires Enabled(s, step) && !step.Issue? && !step.Take?
    ensures Apply(s, step).codes == if step.Prune? then Pruned(s.codes, step.now) else s.codes
    ensures MissesSinceIssue(Apply(s, step).history) == MissesSinceIssue(s.history)
    ensures forall prompt :: Consumed(prompt) in Apply(s, step).history <==> Consumed(prompt) in s.history
  {
    var h, g := s.history, Apply(s, step).history;
    OtherEvent(s, step);
    if g != h {
      MissesSnoc(h, g[|h|]);
    }
  }

  lemma CodeAfterStep(s: State, step: Step, issue: Step, prompt: nat)
    requires Enabled(s, step) && !step.Issue? && issue.Issue? && Charges(s, issue, prompt)
    ensures ChargedBy(s, step, Apply(s, step), issue, prompt)
  {
    if step.Take? {
      CodeAfterTake(s, step.caller, step.code, step.now, issue, prompt);
    } else {
      OtherCodes(s, step);
    }
  }

  lemma JustIssued(s: State, issue: Step)
    requires Inv(s) && issue.Issue?
    ensures
      var t := Apply(s, issue);
      && t.codes == map[issue.code := PendingCode(Expiry(issue), MissesSinceIssue(t.history), s.nextPrompt)]
      && MissesSinceIssue(t.history) == 0 && Consumed(s.nextPrompt) !in t.history
  {
    MissesSnoc(s.history, CodeIssued(s.nextPrompt));
  }

  /** The codes are this one as it stands, or none. */
  predicate CodesAre(steps: seq<Step>, i: nat)
    requires Run(steps).Some? && IssuedLast(steps, i) && Run(steps[..i]).Some?
  {
    var s := Run(steps).value;
    s.codes == if StillLive(steps, i) then map[steps[i].code := PendingCode(Expiry(steps[i]), MissesSinceIssue(s.history), PromptOf(steps, i))]
               else map[]
  }

  lemma CodesAreFirst(steps: seq<Step>, i: nat)
    requires Run(steps).Some? && IssuedLast(steps, i) && i == |steps| - 1 && Run(steps[..i]).Some?
    ensures CodesAre(steps, i)
  {
    RunKeeps(steps[..i]);
    JustIssued(Run(steps[..i]).value, steps[i]);
  }

  lemma CodesAreNext(steps: seq<Step>, i: nat)
    requires Run(steps).Some? && IssuedLast(steps, i) && i < |steps| - 1 && Run(steps[..i]).Some?
    requires var init := steps[..|steps| - 1]; init[..i] == steps[..i] && Run(init).Some? && CodesAre(init, i)
    ensures CodesAre(steps, i)
  {
    var init := steps[..|steps| - 1];
    CodeAfterStep(Run(init).value, steps[|steps| - 1], steps[i], PromptOf(steps, i));
  }

  lemma {:induction false} CodesAreAlways(steps: seq<Step>, i: nat)
    requires Run(steps).Some? && IssuedLast(steps, i)
    ensures Run(steps[..i]).Some? && CodesAre(steps, i)
    decreases |steps|
  {
    PrefixRuns(steps, i);
    if i == |steps| - 1 {
      CodesAreFirst(steps, i);
    } else {
      assert steps[..|steps| - 1][..i] == steps[..i];
      CodesAreAlways(steps[..|steps| - 1], i);
      CodesAreNext(steps, i);
    }
  }

  /**
   * In every run, the code issued last is live if and only if it was not taken since, there were
   * fewer than five misses, and nothing swept it after it had expired; and then it has its expiry and
   * its desktop. No other code is live.
   */
  lemma LiveIff(steps: seq<Step>, i: nat)
    requires Run(steps).Some? && IssuedLast(steps, i)
    ensures Run(steps[..i]).Some?
    ensures
      var s := Run(steps).value;
      s.codes == if StillLive(steps, i) then map[steps[i].code := PendingCode(Expiry(steps[i]), MissesSinceIssue(s.history), PromptOf(steps, i))]
                 else map[]
  {
    CodesAreAlways(steps, i);
  }

  lemma RunOn(steps: seq<Step>, step: Step)
    requires Run(steps).Some? && Enabled(Run(steps).value, step)
    ensures Run(steps + [step]) == Some(Apply(Run(steps).value, step))
  {
    assert (steps + [step])[..|steps|] == steps;
  }

  /** So any other code is a miss, and so is the right one when it is live no more. */
  lemma OtherCodeMisses(steps: seq<Step>, i: nat, caller: nat, code: string, now: nat)
    requires Run(steps).Some? && IssuedLast(steps, i) && caller !in Run(steps).value.taken && Run(steps[..i]).Some?
    requires code != steps[i].code || !StillLive(steps, i)
    ensures
      var s, t := Run(steps).value, Run(steps + [Take(caller, code, now)]);
      t.Some? && t.value.history == s.history + [Missed] && t.value.taken == s.taken
  {
    LiveIff(steps, i);
    RunOn(steps, Take(caller, code, now));
  }

  /** A code that was taken makes a request with a waiter if it has time left, and nothing otherwise. */
  lemma TakenMakesRequest(s: State, caller: nat, device: string, sas: string, later: nat)
    requires caller in s.taken
    ensures
      var t, pending := Apply(s, Register(caller, device, sas, later)), s.taken[caller];
      if later >= pending.expiresAt then t == s.(taken := s.taken - {caller})
      else
        && t.approvals == s.approvals + {s.nextRequest}
        && t.waiters == s.waiters[s.nextRequest := Waiter(device, sas, Waiting(None))]
        && t.history == s.history + [Registered(s.nextRequest, pending.prompt, device, sas, pending.expiresAt - later)]
  {
  }

  /** The right code, tried before it is swept and after at most four misses, is taken and used up. */
  lemma RightCodeIsTaken(steps: seq<Step>, i: nat, caller: nat, now: nat)
    requires Run(steps).Some? && IssuedLast(steps, i) && caller !in Run(steps).value.taken && Run(steps[..i]).Some?
    requires StillLive(steps, i)
    ensures
      var s, prompt := Run(steps).value, PromptOf(steps, i);
      Run(steps + [Take(caller, steps[i].code, now)]) ==
      Some(s.(codes := map[], history := s.history + [Consumed(prompt)],
              taken := s.taken[caller := PendingCode(Expiry(steps[i]), MissesSinceIssue(s.history), prompt)]))
  {
    LiveIff(steps, i);
    RunOn(steps, Take(caller, steps[i].code, now));
  }

  /** And then it makes a request with a waiter exactly if it has not expired by then. */
  lemma RightCodeMakesRequest(steps: seq<Step>, i: nat, caller: nat, device: string, sas: string, now: nat, later: nat)
    requires Run(steps).Some? && IssuedLast(steps, i) && caller !in Run(steps).value.taken && Run(steps[..i]).Some?
    requires StillLive(steps, i)
    ensures
      var s, asked := Run(steps).value, Run(steps + [Take(caller, steps[i].code, now)] + [Register(caller, device, sas, later)]);
      && asked.Some?
      && asked.value.approvals == (if later < Expiry(steps[i]) then s.approvals + {s.nextRequest} else s.approvals)
      && asked.value.waiters == if later < Expiry(steps[i]) then s.waiters[s.nextRequest := Waiter(device, sas, Waiting(None))] else s.waiters
  {
    RightCodeIsTaken(steps, i, caller, now);
    var took := Run(steps + [Take(caller, steps[i].code, now)]).value;
    RunOn(steps + [Take(caller, steps[i].code, now)], Register(caller, device, sas, later));
    TakenMakesRequest(took, caller, device, sas, later);
  }

  // ---------------------------------------------------------------------- the answers

  /** What the desktop answered the request, at the one `approve` that found it. */
  function AnswerGiven(steps: seq<Step>, id: nat): Option<bool> {
    if steps == [] || Run(steps[..|steps| - 1]).None? then None
    else
      var init, last := steps[..|steps| - 1], steps[|steps| - 1];
      if last.Approve? && last.id == id && id in Run(init).value.approvals then Some(last.approved) else AnswerGiven(init, id)
  }

  /** The answer has been sent. */
  predicate AnswerSent(steps: seq<Step>, id: nat) {
    steps != [] && (steps[|steps| - 1] == Send(id) || AnswerSent(steps[..|steps| - 1], id))
  }

  /** On the way between `approve` and its send, or arrived at a waiter that still waits. */
  ghost predicate AnswerOk(steps: seq<Step>, s: State, id: nat) {
    && (id in s.sending <==> AnswerGiven(steps, id).Some? && !AnswerSent(steps, id))
    && (id in s.sending ==> AnswerGiven(steps, id) == Some(s.sending[id]))
    && (AnswerSent(steps, id) ==> AnswerGiven(steps, id).Some?)
    && (AnswerGiven(steps, id).Some? ==> WasAnswered(s.history, id))
    && (id in s.waiters && s.waiters[id].phase.Waiting? ==>
          s.waiters[id].phase.answer == if AnswerSent(steps, id) then AnswerGiven(steps, id) else None)
  }

  lemma AnsweredSnoc(h: seq<Event>, event: Event, id: nat)
    ensures WasAnswered(h + [event], id) <==> WasAnswered(h, id) || (event.Approved? && event.id == id)
  {
    Snoc(h, event);
  }

  lemma AnswerApprove(steps: seq<Step>, s: State, answered: nat, approved: bool, id: nat)
    requires Run(steps) == Some(s) && Inv(s) && AnswerOk(steps, s, id)
    ensures AnswerOk(steps + [Approve(answered, approved)], Apply(s, Approve(answered, approved)), id)
  {
    assert (steps + [Approve(answered, approved)])[..|steps|] == steps;
    AnsweredSnoc(s.history, Approved(answered, approved), id);
  }

  lemma AnswerSend(steps: seq<Step>, s: State, sent: nat, id: nat)
    requires Run(steps) == Some(s) && Enabled(s, Send(sent)) && AnswerOk(steps, s, id)
    ensures AnswerOk(steps + [Send(sent)], Apply(s, Send(sent)), id)
  {
    assert (steps + [Send(sent)])[..|steps|] == steps;
  }

  /** Other steps send nothing, and answer no waiter. */
  lemma OtherWaiters(s: State, step: Step, id: nat)
    requires Enabled(s, step) && !step.Approve? && !step.Send?
    ensures
      var t := Apply(s, step);
      && t.sending == s.sending && (WasAnswered(t.history, id) <==> WasAnswered(s.history, id))
      && (id in t.waiters && t.waiters[id].phase.Waiting? ==>
            (id in s.waiters && t.waiters[id] == s.waiters[id]) || (id == s.nextRequest && t.waiters[id].phase.answer == None))
  {
    var t := Apply(s, step);
    HistoryStep(s, step);
    if t.history != s.history {
      AnsweredSnoc(s.history, t.history[|s.history|], id);
    }
  }

  lemma AnswerStep(steps: seq<Step>, s: State, step: Step, id: nat)
    requires Run(steps) == Some(s) && Inv(s) && Enabled(s, step) && AnswerOk(steps, s, id)
    ensures AnswerOk(steps + [step], Apply(s, step), id)
  {
    if step.Approve? {
      AnswerApprove(steps, s, step.id, step.approved, id);
    } else if step.Send? {
      AnswerSend(steps, s, step.id, id);
    } else {
      assert (steps + [step])[..|steps|] == steps;
      OtherWaiters(s, step, id);
    }
  }

  lemma {:induction false} AnswersArrive(steps: seq<Step>, id: nat)
    requires Run(steps).Some?
    ensures AnswerOk(steps, Run(steps).value, id)
  {
    if steps != [] {
      var init := steps[..|steps| - 1];
      AnswersArrive(init, id);
      RunKeeps(init);
      AnswerStep(init, Run(init).value, steps[|steps| - 1], id);
      assert steps == init + [steps[|steps| - 1]];
    }
  }

  /** In every run, `wait` returns true if and only if the desktop said yes and that had been sent. */
  lemma WaitReturnsAnswer(steps: seq<Step>, id: nat)
    requires Run(steps).Some? && Enabled(Run(steps).value, Conclude(id))
    ensures
      var s, w := Run(steps).value, Run(steps).value.waiters[id];
      && Run(steps + [Conclude(id)]).Some?
      && Run(steps + [Conclude(id)]).value.history
      == s.history + [Concluded(id, w.device, w.sas, AnswerSent(steps, id) && AnswerGiven(steps, id) == Some(true))]
  {
    AnswersArrive(steps, id);
    RunOn(steps, Conclude(id));
  }
}
