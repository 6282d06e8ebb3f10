/**
 * What the connection loop (crates/daemon/src/transport_iroh.rs) does for a paired device: its
 * requests are checked and served as long as its record is there, and only a removal ends that.
 */
module Serving {
  import opened Common
  import opened Revocation

  // ---------------------------------------------------------------------- when the record is there

  /** The step writes the device's record: at the start, or when a pairing was approved. */
  predicate Saves(s: State, step: Step, node: string) {
    || step == Load(node)
    || (step.ConnMove? && step.move.SaveDevice? && step.c in s.conns && s.conns[step.c].node == node)
  }

  /** Of the steps so far that save or remove the device, the last one saved it. */
  ghost predicate Recorded(states: seq<State>, steps: seq<Step>, n: nat, node: string)
    requires IsRun(states, steps) && n < |states|
    decreases n
  {
    n > 0 &&
    (Saves(states[n - 1], steps[n - 1], node)
     || (Recorded(states, steps, n - 1, node) && !Removes(states[n - 1], steps[n - 1], node)))
  }

  lemma {:induction false} RecordIff(states: seq<State>, steps: seq<Step>, n: nat, node: string)
    requires IsRun(states, steps) && n < |states|
    ensures node in states[n].hub.devices <==> Recorded(states, steps, n, node)
  {
    if n > 0 {
      RecordIff(states, steps, n - 1, node);
      assert Follows(states[n - 1], steps[n - 1], states[n]);
    }
  }

  // ---------------------------------------------------------------------- the check

  /** A connection starts paired exactly if the device is on record. */
  lemma ConnectsPairedIff(states: seq<State>, steps: seq<Step>, k: nat, c: nat, node: string)
    requires IsRun(states, steps) && k < |steps| && steps[k] == Connect(c, node)
    ensures c in states[k + 1].conns && states[k + 1].conns[c] == Conn(node, Recorded(states, steps, k, node), Starting)
  {
    RecordIff(states, steps, k, node);
    assert Follows(states[k], steps[k], states[k + 1]);
  }

  /**
   * In every run, a check before the loop or after a read closes the connection if and only if it is
   * a paired one whose device is not on record at that moment. Otherwise the connection goes on, with
   * its watcher.
   */
  lemma ClosesIff(states: seq<State>, steps: seq<Step>, k: nat, c: nat)
    requires IsRun(states, steps) && k < |steps| && steps[k] in {ConnMove(c, EnterLoop), ConnMove(c, Check)}
    ensures c in states[k].conns && c in states[k + 1].conns
    ensures
      var s, t := states[k], states[k + 1];
      var conn, next := s.conns[c], t.conns[c];
      && (next.phase.Closed? <==> conn.paired && !Recorded(states, steps, k, conn.node))
      && (next.phase.Closed? ==> OfConn(c) !in t.hub.watchers)
      && (!next.phase.Closed? ==> t.hub == s.hub && next == conn.(phase := if steps[k].move.Check? then Checked(conn.phase.request) else Idle))
  {
    assert Follows(states[k], steps[k], states[k + 1]);
    RecordIff(states, steps, k, states[k].conns[c].node);
  }

  // ---------------------------------------------------------------------- requests are served

  /** Nothing but the connection itself holds its loop up. */
  lemma NothingBlocks(states: seq<State>, steps: seq<Step>, n: nat, c: nat, request: Request)
    requires IsRun(states, steps) && n < |states| && c in states[n].conns
    ensures
      var s, conn := states[n], states[n].conns[c];
      match conn.phase
      case Starting => Enabled(s, ConnMove(c, if conn.paired then SubscribeFirst else EnterLoop))
      case Rechecking => conn.paired ==> Enabled(s, ConnMove(c, EnterLoop))
      case Idle => Enabled(s, ConnMove(c, ReadRequest(request)))
      case Received(_) => Enabled(s, ConnMove(c, Check))
      case Checked(Protected) => Enabled(s, ConnMove(c, Serve))
      case Checked(Stream) => Enabled(s, ConnMove(c, Serve))
      case Checked(Pair) => Enabled(s, ConnMove(c, SaveDevice)) && Enabled(s, ConnMove(c, Refuse))
      case Checked(UnpairSelf) => Enabled(s, ConnMove(c, RemoveOwn)) && Enabled(s, ConnMove(c, Refuse))
      case Saved => Enabled(s, ConnMove(c, SubscribePaired))
      case Marking => Enabled(s, ConnMove(c, MarkCurrentSeen))
      case Unpairing => Enabled(s, ConnMove(c, FinishUnpair))
      case Closed => true
  {
    RunKeeps(states, steps, n);
    assert ConnOk(states[n].hub, c, states[n].conns[c]);
  }

  /** The connection makes no move in the steps from `i` up to `j`. */
  predicate Rests(steps: seq<Step>, i: nat, j: nat, c: nat) {
    forall k :: i <= k < j && k < |steps| ==> !(steps[k].ConnMove? && steps[k].c == c)
  }

  lemma {:induction false} RestingStays(states: seq<State>, steps: seq<Step>, i: nat, j: nat, c: nat)
    requires IsRun(states, steps) && i <= j < |states| && Rests(steps, i, j, c) && c in states[i].conns
    ensures c in states[j].conns && states[j].conns[c] == states[i].conns[c]
  {
    if i < j {
      RestingStays(states, steps, i, j - 1, c);
      assert Follows(states[j - 1], steps[j - 1], states[j]);
    }
  }

  /** A new forwarder watches for the device, from where the connection's own watcher stands. */
  ghost predicate ForwarderStarted(h: Hub, t: Hub, c: nat, node: string) {
    var o := OfForwarder(h.nextForwarder);
    && t.nextForwarder == h.nextForwarder + 1 && o in t.watchers && t.watchers[o].node == node
    && OfConn(c) in h.watchers && t.watchers[o] == h.watchers[OfConn(c)]
  }

  /** A request was read at step `i`, checked at `j` and served at `m`, and the connection did nothing else. */
  ghost predicate ServedAt(steps: seq<Step>, i: nat, j: nat, m: nat, c: nat, request: Request) {
    && i < j < m < |steps| && Rests(steps, i + 1, j, c) && Rests(steps, j + 1, m, c)
    && steps[i] == ConnMove(c, ReadRequest(request)) && steps[j] == ConnMove(c, Check) && steps[m] == ConnMove(c, Serve)
  }

  lemma ReadThenChecked(states: seq<State>, steps: seq<Step>, i: nat, j: nat, c: nat, request: Request)
    requires IsRun(states, steps) && i < j < |steps| && Rests(steps, i + 1, j, c)
    requires steps[i] == ConnMove(c, ReadRequest(request)) && steps[j] == ConnMove(c, Check)
    ensures c in states[i].conns && c in states[j].conns && c in states[j + 1].conns
    ensures
      var conn := states[i].conns[c];
      && states[j].conns[c] == conn.(phase := Received(request))
      && (conn.paired && Recorded(states, steps, j, conn.node) ==>
            && states[i + 1].history == states[i].history + [Read(c)]
            && states[j + 1].history == states[j].history + [FoundPaired(c)]
            && states[j + 1].conns[c] == conn.(phase := Checked(request)))
  {
    assert Follows(states[i], steps[i], states[i + 1]);
    RestingStays(states, steps, i + 1, j, c);
    ClosesIff(states, steps, j, c);
    assert Follows(states[j], steps[j], states[j + 1]);
  }

  /**
   * In every run, whatever others do in between: a request that needs a pairing, read on a paired
   * connection whose device is on record when it is checked, is found paired and then served, and a
   * stream leaves a forwarder that runs for the device.
   */
  lemma ServedWhilePaired(states: seq<State>, steps: seq<Step>, i: nat, j: nat, m: nat, c: nat, request: Request)
    requires IsRun(states, steps) && ServedAt(steps, i, j, m, c, request) && (request.Protected? || request.Stream?)
    requires c in states[i].conns && states[i].conns[c].paired && Recorded(states, steps, j, states[i].conns[c].node)
    ensures states[i + 1].history == states[i].history + [Read(c)]
    ensures states[j + 1].history == states[j].history + [FoundPaired(c)]
    ensures states[m + 1].history == states[m].history + [Served(c)]
    ensures c in states[m + 1].conns && states[m + 1].conns[c] == states[i].conns[c].(phase := Idle)
    ensures if request.Stream? then ForwarderStarted(states[m].hub, states[m + 1].hub, c, states[i].conns[c].node)
            else states[m + 1].hub == states[m].hub
  {
    ReadThenChecked(states, steps, i, j, c, request);
    RestingStays(states, steps, j + 1, m, c);
    assert Follows(states[i], steps[i], states[i + 1]);
    assert Follows(states[m], steps[m], states[m + 1]);
    RunKeeps(states, steps, m);
    assert ConnOk(states[m].hub, c, states[m].conns[c]);
  }

  /** What an unpaired connection asks for is not served, and leaves no forwarder. */
  lemma UnpairedIsNotServed(states: seq<State>, steps: seq<Step>, m: nat, c: nat)
    requires IsRun(states, steps) && m < |steps| && steps[m] == ConnMove(c, Serve)
    requires c in states[m].conns && !states[m].conns[c].paired
    ensures states[m + 1].history == states[m].history && states[m + 1].hub == states[m].hub
  {
    assert Follows(states[m], steps[m], states[m + 1]);
  }

  // ---------------------------------------------------------------------- pairing, and running forwarders

  ghost predicate Reachable(s: State) {
    exists states, steps :: IsRun(states, steps) && states[|steps|] == s
  }

  lemma Go(s: State, step: Step) returns (t: State)
    requires Reachable(s) && Enabled(s, step)
    ensures Reachable(t) && t == Apply(s, step)
  {
    var states, steps :| IsRun(states, steps) && states[|steps|] == s;
    t := Apply(s, step);
    forall k | 0 <= k < |steps + [step]| ensures Follows((states + [t])[k], (steps + [step])[k], (states + [t])[k + 1]) {
      assert k < |steps| ==> Follows(states[k], steps[k], states[k + 1]);
    }
    assert IsRun(states + [t], steps + [step]) && (states + [t])[|steps + [step]|] == t;
  }

  lemma ReachableOk(s: State)
    requires Reachable(s)
    ensures Inv(s)
  {
    var states, steps :| IsRun(states, steps) && states[|steps|] == s;
    RunKeeps(states, steps, |steps|);
  }

  /** An approved pairing leaves the device on record and the connection paired, with all that was sent before counted as seen. */
  lemma PairingPairs(s: State, c: nat) returns (t: State)
    requires Reachable(s) && c in s.conns && s.conns[c].phase == Checked(Pair)
    ensures Reachable(t) && c in t.conns && t.conns[c] == s.conns[c].(paired := true, phase := Idle)
    ensures t.hub.devices == s.hub.devices + {s.conns[c].node}
    ensures OfConn(c) in t.hub.watchers && t.hub.watchers[OfConn(c)].node == s.conns[c].node && !Pending(t.hub, OfConn(c))
  {
    t := Go(s, ConnMove(c, SaveDevice));
    t := Go(t, ConnMove(c, SubscribePaired));
    t := Go(t, ConnMove(c, MarkCurrentSeen));
    ReachableOk(t);
    assert WatcherOk(t.hub, OfConn(c));
  }

  /** A device that unpairs itself loses its record, and the connection its pairing and watcher; its forwarders are to be told. */
  lemma UnpairingUnpairs(s: State, c: nat) returns (t: State)
    requires Reachable(s) && c in s.conns && s.conns[c].phase == Checked(UnpairSelf) && s.conns[c].node in s.hub.devices
    ensures Reachable(t) && c in t.conns && t.conns[c] == s.conns[c].(paired := false, phase := Idle)
    ensures t.hub.devices == s.hub.devices - {s.conns[c].node} && OfConn(c) !in t.hub.watchers
    ensures BeingRevoked(t.hub, s.conns[c].node)
  {
    t := Go(s, ConnMove(c, RemoveOwn));
    assert t.hub.revoking[s.hub.nextJob] == s.conns[c].node;
    t := Go(t, ConnMove(c, FinishUnpair));
    assert t.hub.revoking[s.hub.nextJob] == s.conns[c].node;
  }

  lemma LoopIsEntered(node: string) returns (s: State)
    ensures Reachable(s) && s.conns == map[0 := Conn(node, true, Idle)]
    ensures s.hub == Hub({node}, map[node := 0], map[0 := 0], 1, map[OfConn(0) := Watcher(node, 0, 0)], multiset{}, map[], 0, 0)
  {
    assert IsRun([INITIAL], []);
    s := Go(INITIAL, Load(node));
    s := Go(s, Connect(0, node));
    s := Go(s, ConnMove(0, SubscribeFirst));
    s := Go(s, ConnMove(0, EnterLoop));
  }

  /** A known device connects, and its stream gets a forwarder. */
  lemma ForwarderRuns(node: string) returns (s: State)
    ensures Reachable(s) && node in s.hub.devices && s.hub.revoking == map[]
    ensures OfForwarder(0) in s.hub.watchers && s.hub.watchers[OfForwarder(0)].node == node && !Pending(s.hub, OfForwarder(0))
  {
    s := LoopIsEntered(node);
    s := Go(s, ConnMove(0, ReadRequest(Stream)));
    s := Go(s, ConnMove(0, Check));
    s := Go(s, ConnMove(0, Serve));
  }

  /** Removing the device then leaves that forwarder running with a revocation waiting, until it stops. */
  lemma ForwarderIsTold(node: string) returns (s: State)
    ensures Reachable(s) && node !in s.hub.devices && !BeingRevoked(s.hub, node)
    ensures OfForwarder(0) in s.hub.watchers && s.hub.watchers[OfForwarder(0)].node == node && Pending(s.hub, OfForwarder(0))
  {
    s := ForwarderRuns(node);
    var removed := Go(s, RemoveDevice(node));
    assert s.hub.nextJob in removed.hub.revoking;
    ReachableOk(s);
    ReachableOk(removed);
    s := Go(removed, Revoke(s.hub.nextJob));
    AnnounceReaches(removed.hub, removed.hub.nextJob - 1, OfForwarder(0));
    assert s.hub.revoking == map[];
  }

  // ---------------------------------------------------------------------- who is told

  /** A removal of the device was announced in the first `n` steps. */
  ghost predicate AnnouncedBefore(states: seq<State>, steps: seq<Step>, n: nat, node: string)
    requires IsRun(states, steps) && n < |states|
    decreases n
  {
    n > 0 &&
    (AnnouncedBefore(states, steps, n - 1, node)
     || (steps[n - 1].Revoke? && steps[n - 1].job in states[n - 1].hub.revoking && states[n - 1].hub.revoking[steps[n - 1].job] == node))
  }

  /** A section makes a revocation wait for a watcher only by announcing one of its device, or for a clone of one that waits. */
  lemma BecomesPending(h: Hub, section: Section, o: Owner)
    requires HubOk(h) && Allowed(h, section) && (section.Subscribe? || section.MarkSeen? ==> section.owner.OfConn?)
    requires Pending(Enter(h, section), o)
    ensures
      var node := Enter(h, section).watchers[o].node;
      || (Pending(h, o) && h.watchers[o].node == node)
      || (section.Announce? && h.revoking[section.job] == node)
      || (section.CloneFor? && Pending(h, section.owner) && h.watchers[section.owner].node == node)
  {
    if o in h.watchers {
      assert WatcherOk(h, o);
    }
    if section.CloneFor? {
      assert WatcherOk(h, section.owner);
    }
    if section.Subscribe? && section.node in h.registry {
      assert EntryOk(h, section.node);
    }
  }

  /** In every run, a revocation waits only for watchers of devices whose removal was announced. */
  lemma {:induction false} OnlyTheRemovedAreTold(states: seq<State>, steps: seq<Step>, n: nat, o: Owner)
    requires IsRun(states, steps) && n < |states| && Pending(states[n].hub, o)
    ensures AnnouncedBefore(states, steps, n, states[n].hub.watchers[o].node)
  {
    if n > 0 {
      var s, step := states[n - 1], steps[n - 1];
      RunKeeps(states, steps, n - 1);
      assert Follows(s, step, states[n]);
      var section := Effect(s, step);
      BecomesPending(s.hub, section, o);
      var node := states[n].hub.watchers[o].node;
      if Pending(s.hub, o) && s.hub.watchers[o].node == node {
        OnlyTheRemovedAreTold(states, steps, n - 1, o);
      } else if section.CloneFor? {
        OnlyTheRemovedAreTold(states, steps, n - 1, section.owner);
      }
    }
  }

  lemma {:induction false} MarkingIsPaired(states: seq<State>, steps: seq<Step>, n: nat, c: nat)
    requires IsRun(states, steps) && n < |states|
    ensures c in states[n].conns && states[n].conns[c].phase.Marking? ==> states[n].conns[c].paired
  {
    if n > 0 {
      MarkingIsPaired(states, steps, n - 1, c);
      assert Follows(states[n - 1], steps[n - 1], states[n]);
    }
  }

  /** A new watcher, and one that was just marked, has nothing waiting for it. */
  lemma StartsWithNothingWaiting(states: seq<State>, steps: seq<Step>, k: nat, c: nat)
    requires IsRun(states, steps) && k < |steps|
    requires steps[k] in {ConnMove(c, SubscribeFirst), ConnMove(c, SubscribePaired), ConnMove(c, MarkCurrentSeen)}
    ensures OfConn(c) in states[k + 1].hub.watchers && !Pending(states[k + 1].hub, OfConn(c))
  {
    RunKeeps(states, steps, k);
    RunKeeps(states, steps, k + 1);
    assert Follows(states[k], steps[k], states[k + 1]);
    MarkingIsPaired(states, steps, k, c);
    assert ConnOk(states[k].hub, c, states[k].conns[c]);
    assert ConnOk(states[k + 1].hub, c, states[k + 1].conns[c]);
    assert WatcherOk(states[k + 1].hub, OfConn(c));
    if OfConn(c) in states[k].hub.watchers {
      assert WatcherOk(states[k].hub, OfConn(c));
    }
  }

  // ---------------------------------------------------------------------- no entry is left behind

  ghost predicate Watched(h: Hub, node: string)
    requires node in h.registry
  {
    exists o :: o in h.watchers && h.watchers[o].chan == h.registry[node]
  }

  /** Every entry of the registry has a watcher, or one that is being dropped and will look after it. */
  ghost predicate NoLeak(h: Hub) {
    forall node :: node in h.registry ==> Watched(h, node) || node in h.dropping
  }

  lemma StillWatched(h: Hub, section: Section, node: string)
    requires HubOk(h) && Allowed(h, section) && (section.Subscribe? || section.MarkSeen? ==> section.owner.OfConn?)
    requires node in h.registry && node in Enter(h, section).registry && Watched(h, node)
    ensures Watched(Enter(h, section), node) || node in Enter(h, section).dropping
  {
    var t := Enter(h, section);
    var o :| o in h.watchers && h.watchers[o].chan == h.registry[node];
    assert WatcherOk(h, o);
    if o in t.watchers && t.watchers[o].chan == h.registry[node] {
      assert t.registry[node] == h.registry[node];
    } else {
      assert h.watchers[o].node in t.dropping;
    }
  }

  lemma NoLeakKeeps(h: Hub, section: Section)
    requires HubOk(h) && NoLeak(h) && Allowed(h, section) && (section.Subscribe? || section.MarkSeen? ==> section.owner.OfConn?)
    ensures NoLeak(Enter(h, section))
  {
    var t := Enter(h, section);
    forall node | node in t.registry ensures Watched(t, node) || node in t.dropping {
      if section.Subscribe? && section.node == node {
        assert t.watchers[section.owner].chan == t.registry[node];
      } else if Watched(h, node) {
        StillWatched(h, section, node);
      } else if section == RemoveIf(node) {
        assert Unwatched(h, h.registry[node]);
      }
    }
  }

  /** In every run, an entry without a watcher is about to be looked at by one that is being dropped. */
  lemma {:induction false} NothingLeaks(states: seq<State>, steps: seq<Step>, n: nat)
    requires IsRun(states, steps) && n < |states|
    ensures NoLeak(states[n].hub)
  {
    if n > 0 {
      NothingLeaks(states, steps, n - 1);
      RunKeeps(states, steps, n - 1);
      assert Follows(states[n - 1], steps[n - 1], states[n]);
      NoLeakKeeps(states[n - 1].hub, Effect(states[n - 1], steps[n - 1]));
    }
  }
}
