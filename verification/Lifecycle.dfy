/**
 * The registry's tables read off their history (crates/daemon/src/ipc.rs): what has become of each
 * session and each reserved name follows from the operations that named it.
 */
module Lifecycle {
  import opened Common
  import opened Retention
  import opened Registry

  datatype Status =
    | Absent
    | Alive(name: string, marked: bool, lastActivity: nat)      // marked by a kill that the process refused
    | Ended(name: string, lastActivity: nat)                    // restored after it ended by itself

  function StatusIn(t: Tables, id: Id): Status {
    if id in t.sessions then Alive(t.sessions[id].name, t.sessions[id].killed, t.sessions[id].lastActivity)
    else if id in t.restored then Ended(t.restored[id].name, t.restored[id].lastActivity)
    else Absent
  }

  /** A session starts alive, is gone when a kill succeeds, and ends only if no kill has marked it; the cap removes ended ones. */
  function StatusAfter(t: Tables, ops: seq<Op>, id: Id): Status {
    if ops == [] then StatusIn(t, id)
    else
      var init := ops[..|ops| - 1];
      var before := StatusAfter(t, init, id);
      match ops[|ops| - 1]
      case Start(name, started, now) => if started == id then Alive(name, false, now) else before
      case Kill(target, killed) =>
        if target != id then before
        else if before.Alive? && !killed then Alive(before.name, true, before.lastActivity)
        else Absent
      case Exit(exited, victim) =>
        var exiting := StatusAfter(t, init, exited);
        if !exiting.Alive? || exiting.marked then before
        else if victim == Some(id) then Absent
        else if exited == id then Ended(before.name, before.lastActivity)
        else before
      case Active(active, now) => if active == id && before.Alive? then Alive(before.name, before.marked, now) else before
      case _ => before
  }

  /** The name is reserved for a session that is being spawned. */
  predicate StartingAfter(t: Tables, ops: seq<Op>, name: string) {
    if ops == [] then name in t.starting
    else
      match ops[|ops| - 1]
      case Reserve(reserved) => reserved == name || StartingAfter(t, ops[..|ops| - 1], name)
      case Abandon(abandoned) => abandoned != name && StartingAfter(t, ops[..|ops| - 1], name)
      case Start(started, _, _) => started != name && StartingAfter(t, ops[..|ops| - 1], name)
      case _ => StartingAfter(t, ops[..|ops| - 1], name)
  }

  lemma {:induction false} RunSnoc(t: Tables, ops: seq<Op>, op: Op)
    ensures Run(t, ops + [op]) ==
      if Run(t, ops).Some? && Enabled(Run(t, ops).value, op) then Some(Apply(Run(t, ops).value, op)) else None
    decreases |ops|
  {
    if ops == [] {
      assert [] + [op] == [op] && [op][1..] == [];
    } else {
      assert (ops + [op])[0] == ops[0] && (ops + [op])[1..] == ops[1..] + [op];
      if Enabled(t, ops[0]) {
        RunSnoc(Apply(t, ops[0]), ops[1..], op);
      }
    }
  }

  lemma {:induction false} RunLast(t: Tables, ops: seq<Op>)
    requires Run(t, ops).Some? && ops != []
    ensures
      var init, last := ops[..|ops| - 1], ops[|ops| - 1];
      Run(t, init).Some? && Enabled(Run(t, init).value, last) && Run(t, ops).value == Apply(Run(t, init).value, last)
  {
    RunSnoc(t, ops[..|ops| - 1], ops[|ops| - 1]);
    assert ops == ops[..|ops| - 1] + [ops[|ops| - 1]];
  }

  /** No session is alive and restored. */
  predicate Separate(s: Tables) {
    forall id :: id in s.sessions ==> id !in s.restored
  }

  lemma StaysSeparate(t: Tables, ops: seq<Op>)
    requires Consistent(t) && WithinCap(t) && Run(t, ops).Some?
    ensures Separate(Run(t, ops).value)
  {
    RunKeeps(t, ops);
  }

  lemma ExitStatus(s: Tables, exited: Id, victim: Option<Id>, id: Id)
    requires Separate(s) && Enabled(s, Exit(exited, victim))
    ensures StatusIn(Apply(s, Exit(exited, victim)), id) ==
      if !Keeps(s, exited) then StatusIn(s, id)
      else if victim == Some(id) then Absent
      else if exited == id then Ended(s.sessions[id].name, s.sessions[id].lastActivity)
      else StatusIn(s, id)
  {
  }

  /** One operation moves the sessions that it names, and no other. */
  lemma OpStatus(t: Tables, ops: seq<Op>, s: Tables, op: Op, id: Id)
    requires Separate(s) && Enabled(s, op)
    requires StatusAfter(t, ops, id) == StatusIn(s, id) && (op.Exit? ==> StatusAfter(t, ops, op.id) == StatusIn(s, op.id))
    ensures StatusAfter(t, ops + [op], id) == StatusIn(Apply(s, op), id)
  {
    assert (ops + [op])[..|ops|] == ops;
    if op.Exit? {
      ExitStatus(s, op.id, op.victim, id);
    }
  }

  lemma OpStarting(t: Tables, ops: seq<Op>, s: Tables, op: Op, name: string)
    requires Enabled(s, op) && (StartingAfter(t, ops, name) <==> name in s.starting)
    ensures StartingAfter(t, ops + [op], name) <==> name in Apply(s, op).starting
  {
    assert (ops + [op])[..|ops|] == ops;
  }

  lemma {:induction false} StatusTold(t: Tables, ops: seq<Op>, id: Id)
    requires Consistent(t) && WithinCap(t) && Run(t, ops).Some?
    ensures StatusIn(Run(t, ops).value, id) == StatusAfter(t, ops, id)
  {
    if ops != [] {
      var init, last := ops[..|ops| - 1], ops[|ops| - 1];
      assert ops == init + [last];
      RunLast(t, ops);
      StaysSeparate(t, init);
      StatusTold(t, init, id);
      if last.Exit? {
        StatusTold(t, init, last.id);
      }
      OpStatus(t, init, Run(t, init).value, last, id);
    }
  }

  lemma {:induction false} StartingTold(t: Tables, ops: seq<Op>, name: string)
    requires Run(t, ops).Some?
    ensures name in Run(t, ops).value.starting <==> StartingAfter(t, ops, name)
  {
    if ops != [] {
      var init, last := ops[..|ops| - 1], ops[|ops| - 1];
      assert ops == init + [last];
      RunLast(t, ops);
      StartingTold(t, init, name);
      OpStarting(t, init, Run(t, init).value, last, name);
    }
  }

  /**
   * After every history, each session is what the operations have made of it, and a name is reserved
   * exactly if a session has it or one is being spawned under it.
   */
  lemma TablesTellHistory(t: Tables, ops: seq<Op>, id: Id, name: string)
    requires Consistent(t) && WithinCap(t) && Run(t, ops).Some?
    ensures
      var s := Run(t, ops).value;
      && StatusIn(s, id) == StatusAfter(t, ops, id)
      && (name in s.names <==> StartingAfter(t, ops, name) || SomeoneHas(Owners(s), name))
  {
    RunKeeps(t, ops);
    assert NameExact(Owners(Run(t, ops).value), Run(t, ops).value.names, Run(t, ops).value.starting, name);
    StatusTold(t, ops, id);
    StartingTold(t, ops, name);
  }

  /** A session that a kill has marked stays alive or goes for good: it is never restored. */
  lemma {:induction false} MarkedIsNotRestored(t: Tables, ops: seq<Op>, n: nat, id: Id)
    requires n <= |ops| && StatusAfter(t, ops[..n], id).Alive? && StatusAfter(t, ops[..n], id).marked
    requires forall k :: n <= k < |ops| ==> !(ops[k].Start? && ops[k].id == id)
    ensures var status := StatusAfter(t, ops, id); status.Absent? || (status.Alive? && status.marked)
    decreases |ops|
  {
    if n == |ops| {
      assert ops[..n] == ops;
    } else {
      var init := ops[..|ops| - 1];
      assert init[..n] == ops[..n];
      MarkedIsNotRestored(t, init, n, id);
    }
  }
}
