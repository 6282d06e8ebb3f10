/**
 * Device revocation (crates/daemon/src/ipc.rs and transport_iroh.rs): the registry of watch
 * channels, the watchers that connections and forwarders hold, and the connection loop that
 * re-checks the pairing after every request it reads. Each map-entry section is one step;
 * dropping a watcher is two.
 */
module Revocation {

  // ---------------------------------------------------------------------- the daemon's tables

  /** Who holds a watcher. A running forwarder is one that holds its watcher. */
  datatype Owner = OfConn(c: nat) | OfForwarder(f: nat)

  /** A receiver on channel `chan`, which has seen its value up to version `seen`. */
  datatype Watcher = Watcher(node: string, chan: nat, seen: nat)

  /**
   * `registry` maps a device to its channel and `version` counts the sends on a channel;
   * `dropping` are watchers between the two halves of their drop; `revoking` are removals
   * between deleting the record and notifying the watchers.
   */
  datatype Hub = Hub(
    devices: set<string>, registry: map<string, nat>, version: map<nat, nat>, nextChan: nat,
    watchers: map<Owner, Watcher>, dropping: multiset<string>,
    revoking: map<nat, string>, nextJob: nat, nextForwarder: nat)

  /** One critical section on the tables. */
  datatype Section =
    | Nothing
    | Save(node: string)
    | Subscribe(owner: Owner, node: string)
    | MarkSeen(owner: Owner)                // borrow_and_update: what was sent so far counts as seen
    | CloneFor(owner: Owner)                // a new forwarder gets a clone of this watcher
    | Release(owner: Owner)                 // the first half of a drop: the receiver goes
    | RemoveIf(node: string)                // the second half: the entry goes if nobody watches
    | Remove(node: string)                  // the record goes, and a revocation begins
    | Announce(job: nat)                    // revoke_device_connections

  /** `receiver_count() == 0`. */
  predicate Unwatched(h: Hub, chan: nat) {
    forall o :: o in h.watchers ==> h.watchers[o].chan != chan
  }

  predicate Allowed(h: Hub, section: Section) {
    match section
    case CloneFor(o) => o in h.watchers
    case RemoveIf(node) => node in h.dropping
    case Announce(job) => job in h.revoking
    case _ => true
  }

  /** The entry is created if missing; the new receiver has seen everything sent so far. */
  function Subscribed(h: Hub, o: Owner, node: string): Hub {
    var chan := if node in h.registry then h.registry[node] else h.nextChan;
    var version := if node in h.registry && chan in h.version then h.version[chan] else 0;
    h.(registry := h.registry[node := chan],
       version := h.version[chan := version],
       nextChan := if node in h.registry then h.nextChan else h.nextChan + 1,
       watchers := h.watchers[o := Watcher(node, chan, version)],
       dropping := if o in h.watchers then h.dropping + multiset{h.watchers[o].node} else h.dropping)
  }

  /** The clone has seen what its original has seen. */
  function Cloned(h: Hub, o: Owner): Hub
    requires o in h.watchers
  {
    h.(watchers := h.watchers[OfForwarder(h.nextForwarder) := h.watchers[o]],
       nextForwarder := h.nextForwarder + 1)
  }

  function Marked(h: Hub, o: Owner): Hub {
    if o in h.watchers && h.watchers[o].chan in h.version then
      h.(watchers := h.watchers[o := h.watchers[o].(seen := h.version[h.watchers[o].chan])])
    else h
  }

  function Released(h: Hub, o: Owner): Hub {
    if o in h.watchers then
      h.(watchers := h.watchers - {o}, dropping := h.dropping + multiset{h.watchers[o].node})
    else h
  }

  function RemovedIf(h: Hub, node: string): Hub {
    var registry := if node in h.registry && Unwatched(h, h.registry[node]) then h.registry - {node} else h.registry;
    h.(dropping := h.dropping - multiset{node}, registry := registry)
  }

  function Removed(h: Hub, node: string): Hub {
    if node in h.devices then
      h.(devices := h.devices - {node}, revoking := h.revoking[h.nextJob := node], nextJob := h.nextJob + 1)
    else h
  }

  function Announced(h: Hub, job: nat): Hub
    requires job in h.revoking
  {
    var node := h.revoking[job];
    var version :=
      if node in h.registry && h.registry[node] in h.version then
        h.version[h.registry[node] := h.version[h.registry[node]] + 1]
      else h.version;
    h.(version := version, revoking := h.revoking - {job})
  }

  function Enter(h: Hub, section: Section): Hub
    requires Allowed(h, section)
  {
    match section
    case Nothing => h
    case Save(node) => h.(devices := h.devices + {node})
    case Subscribe(o, node) => Subscribed(h, o, node)
    case MarkSeen(o) => Marked(h, o)
    case CloneFor(o) => Cloned(h, o)
    case Release(o) => Released(h, o)
    case RemoveIf(node) => RemovedIf(h, node)
    case Remove(node) => Removed(h, node)
    case Announce(job) => Announced(h, job)
  }

  // ---------------------------------------------------------------------- connections

  /** What a request asks for: something a paired device may do, a forwarder, pairing, unpairing. */
  datatype Request = Protected | Stream | Pair | UnpairSelf

  datatype Phase =
    | Starting                      // paired or not, as found after Hello
    | Rechecking                    // subscribed, about to check again
    | Idle
    | Received(request: Request)    // read, not yet checked
    | Checked(request: Request)
    | Saved                         // pairing approved and saved, not yet subscribed
    | Marking                       // subscribed, about to count all sent so far as seen
    | Unpairing
    | Closed

  datatype Conn = Conn(node: string, paired: bool, phase: Phase)

  datatype Event = Read(c: nat) | FoundPaired(c: nat) | Served(c: nat)

  datatype State = State(hub: Hub, conns: map<nat, Conn>, history: seq<Event>)

  const INITIAL := State(Hub({}, map[], map[], 0, map[], multiset{}, map[], 0, 0), map[], [])

  /** What a connection does next. */
  datatype Move =
    | SubscribeFirst
    | EnterLoop                     // recheck, or straight to the loop when unpaired
    | ReadRequest(request: Request)
    | Check
    | Serve
    | SaveDevice                    // pairing approved
    | Refuse                        // pairing denied, or an unpairing that failed
    | SubscribePaired
    | MarkCurrentSeen
    | RemoveOwn                     // UnpairSelf: the record goes
    | FinishUnpair
    | Close                         // disconnect, or revocation seen

  datatype Step =
    | Load(node: string)            // a device known from an earlier run of the daemon
    | Connect(c: nat, node: string)
    | ConnMove(c: nat, move: Move)
    | RemoveDevice(node: string)    // from the desktop: the record goes
    | Revoke(job: nat)
    | StopForwarder(f: nat)
    | FinishDrop(node: string)

  predicate MoveEnabled(conn: Conn, move: Move) {
    match move
    case SubscribeFirst => conn.phase.Starting? && conn.paired
    case EnterLoop => conn.phase == if conn.paired then Rechecking else Starting
    case ReadRequest(_) => conn.phase.Idle?
    case Check => conn.phase.Received?
    case Serve => conn.phase.Checked? && (conn.phase.request.Protected? || conn.phase.request.Stream?)
    case SaveDevice => conn.phase == Checked(Pair)
    case Refuse => conn.phase == Checked(Pair) || conn.phase == Checked(UnpairSelf)
    case SubscribePaired => conn.phase.Saved?
    case MarkCurrentSeen => conn.phase.Marking?
    case RemoveOwn => conn.phase == Checked(UnpairSelf)
    case FinishUnpair => conn.phase.Unpairing?
    case Close => !conn.phase.Closed?
  }

  /** A paired connection whose record is gone ends. */
  predicate Lapsed(h: Hub, conn: Conn) {
    conn.paired && conn.node !in h.devices
  }

  /** `require_paired`, then a forwarder is given a clone of the connection's watcher. */
  predicate StartsForwarder(conn: Conn, move: Move) {
    move.Serve? && conn.paired && conn.phase == Checked(Stream)
  }

  /** What a move does to the tables. */
  function SectionOf(h: Hub, c: nat, conn: Conn, move: Move): Section {
    match move
    case SubscribeFirst => Subscribe(OfConn(c), conn.node)
    case SubscribePaired => Subscribe(OfConn(c), conn.node)
    case MarkCurrentSeen => MarkSeen(OfConn(c))
    case SaveDevice => Save(conn.node)
    case RemoveOwn => Remove(conn.node)
    case FinishUnpair => Release(OfConn(c))
    case Close => Release(OfConn(c))
    case EnterLoop => if Lapsed(h, conn) then Release(OfConn(c)) else Nothing
    case Check => if Lapsed(h, conn) then Release(OfConn(c)) else Nothing
    case Serve => if StartsForwarder(conn, move) then CloneFor(OfConn(c)) else Nothing
    case ReadRequest(_) => Nothing
    case Refuse => Nothing
  }

  function Moved(h: Hub, conn: Conn, move: Move): Conn
    requires MoveEnabled(conn, move)
  {
    match move
    case SubscribeFirst => conn.(phase := Rechecking)
    case SubscribePaired => conn.(phase := Marking, paired := true)
    case MarkCurrentSeen => conn.(phase := Idle)
    case SaveDevice => conn.(phase := Saved)
    case RemoveOwn => conn.(phase := Unpairing)
    case FinishUnpair => conn.(phase := Idle, paired := false)
    case Close => conn.(phase := Closed)
    case EnterLoop => conn.(phase := if Lapsed(h, conn) then Closed else Idle)
    case Check => conn.(phase := if Lapsed(h, conn) then Closed else Checked(conn.phase.request))
    case Serve => conn.(phase := Idle)
    case ReadRequest(request) => conn.(phase := Received(request))
    case Refuse => conn.(phase := Idle)
  }

  function EventsOf(h: Hub, c: nat, conn: Conn, move: Move): seq<Event> {
    match move
    case ReadRequest(_) => [Read(c)]
    case Check => if conn.paired && !Lapsed(h, conn) then [FoundPaired(c)] else []
    case Serve => if conn.paired then [Served(c)] else []
    case _ => []
  }

  function Effect(s: State, step: Step): Section
    requires step.ConnMove? ==> step.c in s.conns
  {
    match step
    case Load(node) => Save(node)
    case Connect(_, _) => Nothing
    case ConnMove(c, move) => SectionOf(s.hub, c, s.conns[c], move)
    case RemoveDevice(node) => Remove(node)
    case Revoke(job) => Announce(job)
    case StopForwarder(f) => Release(OfForwarder(f))
    case FinishDrop(node) => RemoveIf(node)
  }

  predicate Ready(s: State, step: Step) {
    match step
    case Load(_) => s.conns == map[]
    case Connect(c, _) => c !in s.conns
    case ConnMove(c, move) => c in s.conns && MoveEnabled(s.conns[c], move)
    case _ => true
  }

  predicate Enabled(s: State, step: Step) {
    Ready(s, step) && Allowed(s.hub, Effect(s, step))
  }

  function Apply(s: State, step: Step): State
    requires Enabled(s, step)
  {
    var hub := Enter(s.hub, Effect(s, step));
    match step
    case Connect(c, node) => State(hub, s.conns[c := Conn(node, node in s.hub.devices, Starting)], s.history)
    case ConnMove(c, move) =>
      State(hub, s.conns[c := Moved(s.hub, s.conns[c], move)], s.history + EventsOf(s.hub, c, s.conns[c], move))
    case _ => s.(hub := hub)
  }

  predicate Follows(s: State, step: Step, t: State) {
    Enabled(s, step) && t == Apply(s, step)
  }

  /** A run: its states, and the steps between them. */
  predicate IsRun(states: seq<State>, steps: seq<Step>) {
    && |states| == |steps| + 1 && states[0] == INITIAL
    && (forall k :: 0 <= k < |steps| ==> Follows(states[k], steps[k], states[k + 1]))
  }

  // ---------------------------------------------------------------------- the registry

  /** The watcher is on the channel that the registry holds for its device. */
  ghost predicate WatcherOk(h: Hub, o: Owner)
    requires o in h.watchers
  {
    var w := h.watchers[o];
    w.node in h.registry && h.registry[w.node] == w.chan && w.chan in h.version && w.seen <= h.version[w.chan]
  }

  ghost predicate EntryOk(h: Hub, node: string)
    requires node in h.registry
  {
    h.registry[node] < h.nextChan && h.registry[node] in h.version
  }

  ghost predicate Distinct(h: Hub) {
    forall a, b :: a in h.registry && b in h.registry && h.registry[a] == h.registry[b] ==> a == b
  }

  ghost predicate HubOk(h: Hub) {
    && (forall o :: o in h.watchers ==> WatcherOk(h, o))
    && (forall f: nat :: OfForwarder(f) in h.watchers ==> f < h.nextForwarder)
    && (forall node :: node in h.registry ==> EntryOk(h, node))
    && (forall chan :: chan in h.version ==> chan < h.nextChan)
    && (forall job :: job in h.revoking ==> job < h.nextJob)
    && Distinct(h)
  }

  lemma SubscribeKeeps(h: Hub, o: Owner, node: string)
    requires HubOk(h) && (o.OfForwarder? ==> o.f < h.nextForwarder)
    ensures HubOk(Subscribed(h, o, node))
  {
    var t := Subscribed(h, o, node);
    forall p | p in t.watchers ensures WatcherOk(t, p) {
      assert p != o ==> WatcherOk(h, p);
    }
    forall n | n in t.registry ensures EntryOk(t, n) {
      assert n in h.registry ==> EntryOk(h, n);
    }
  }

  /** The second half of a drop deletes the entry only when nobody watches it any more. */
  lemma RemoveIfKeeps(h: Hub, node: string)
    requires HubOk(h) && node in h.dropping
    ensures HubOk(RemovedIf(h, node))
  {
    var t := RemovedIf(h, node);
    forall p | p in t.watchers ensures WatcherOk(t, p) {
      assert WatcherOk(h, p);
    }
    forall n | n in t.registry ensures EntryOk(t, n) {
      assert EntryOk(h, n);
    }
  }

  lemma AnnounceKeeps(h: Hub, job: nat)
    requires HubOk(h) && job in h.revoking
    ensures HubOk(Announced(h, job))
  {
    var t := Announced(h, job);
    forall p | p in t.watchers ensures WatcherOk(t, p) {
      assert WatcherOk(h, p);
    }
    forall n | n in t.registry ensures EntryOk(t, n) {
      assert EntryOk(h, n);
    }
  }

  /** Sections that change neither the registry nor a version. */
  lemma OthersKeep(h: Hub, section: Section)
    requires HubOk(h) && Allowed(h, section)
    requires !section.Subscribe? && !section.RemoveIf? && !section.Announce?
    ensures HubOk(Enter(h, section))
  {
    var t := Enter(h, section);
    forall p | p in t.watchers ensures WatcherOk(t, p) {
      assert p in h.watchers ==> WatcherOk(h, p);
      assert section.CloneFor? ==> WatcherOk(h, section.owner);
    }
    forall n | n in t.registry ensures EntryOk(t, n) {
      assert EntryOk(h, n);
    }
  }

  lemma HubKeeps(h: Hub, section: Section)
    requires HubOk(h) && Allowed(h, section)
    requires section.Subscribe? || section.MarkSeen? ==> section.owner.OfConn?
    ensures HubOk(Enter(h, section))
  {
    match section
    case Subscribe(o, node) => SubscribeKeeps(h, o, node);
    case RemoveIf(node) => RemoveIfKeeps(h, node);
    case Announce(job) => AnnounceKeeps(h, job);
    case _ => OthersKeep(h, section);
  }

  // ---------------------------------------------------------------------- what later tables remember

  ghost predicate SameWatcher(h: Hub, t: Hub, o: Owner) {
    o in h.watchers && o in t.watchers && h.watchers[o] == t.watchers[o]
  }

  ghost predicate SameJob(h: Hub, t: Hub, job: nat) {
    job in h.revoking && job in t.revoking && h.revoking[job] == t.revoking[job]
  }

  /**
   * Forwarder and job numbers are never used twice, and no send is undone: what later tables say
   * of a number given out earlier, the earlier tables said too.
   */
  ghost predicate Tracks(h: Hub, t: Hub) {
    && h.nextForwarder <= t.nextForwarder
    && h.nextJob <= t.nextJob
    && (forall f: nat :: f < h.nextForwarder && OfForwarder(f) in t.watchers ==> SameWatcher(h, t, OfForwarder(f)))
    && (forall job :: job < h.nextJob && job in t.revoking ==> SameJob(h, t, job))
    && (forall chan :: chan in h.version ==> chan in t.version && h.version[chan] <= t.version[chan])
  }

  lemma SectionTracks(h: Hub, section: Section)
    requires HubOk(h) && Allowed(h, section)
    requires section.Subscribe? || section.MarkSeen? ==> section.owner.OfConn?
    ensures Tracks(h, Enter(h, section))
  {
    if section.Subscribe? {
      assert section.node in h.registry ==> EntryOk(h, section.node);
    }
  }

  lemma TracksCompose(h: Hub, t: Hub, u: Hub)
    requires Tracks(h, t) && Tracks(t, u)
    ensures Tracks(h, u)
  {
    forall f: nat | f < h.nextForwarder && OfForwarder(f) in u.watchers ensures SameWatcher(h, u, OfForwarder(f)) {
      assert SameWatcher(t, u, OfForwarder(f));
    }
    forall job | job < h.nextJob && job in u.revoking ensures SameJob(h, u, job) {
      assert SameJob(t, u, job);
    }
  }

  // ---------------------------------------------------------------------- revocations are not lost

  /** An unseen send is waiting in the watcher's channel. */
  ghost predicate Pending(h: Hub, o: Owner) {
    o in h.watchers && h.watchers[o].chan in h.version && h.watchers[o].seen < h.version[h.watchers[o].chan]
  }

  /** A removal of the device has deleted its record and not yet announced it. */
  ghost predicate BeingRevoked(h: Hub, node: string) {
    exists job :: job in h.revoking && h.revoking[job] == node
  }

  /** The record is there, or its removal is about to be announced, or the announcement is waiting. */
  ghost predicate Covered(h: Hub, o: Owner) {
    o in h.watchers && (h.watchers[o].node in h.devices || BeingRevoked(h, h.watchers[o].node) || Pending(h, o))
  }

  /** The announcement reaches every watcher of the device. */
  lemma AnnounceReaches(h: Hub, job: nat, o: Owner)
    requires HubOk(h) && job in h.revoking
    requires o in h.watchers && h.watchers[o].node == h.revoking[job]
    ensures Pending(Announced(h, job), o)
  {
    assert WatcherOk(h, o);
  }

  lemma PendingKeeps(h: Hub, t: Hub, o: Owner)
    requires Tracks(h, t) && Pending(h, o) && SameWatcher(h, t, o)
    ensures Pending(t, o)
  {
  }

  lemma BeingRevokedKeeps(h: Hub, section: Section, o: Owner)
    requires HubOk(h) && Allowed(h, section) && SameWatcher(h, Enter(h, section), o)
    requires BeingRevoked(h, h.watchers[o].node)
    ensures Covered(Enter(h, section), o)
  {
    var t := Enter(h, section);
    var job :| job in h.revoking && h.revoking[job] == h.watchers[o].node;
    if section == Announce(job) {
      AnnounceReaches(h, job, o);
    } else {
      assert job in t.revoking && t.revoking[job] == h.watchers[o].node;
    }
  }

  /** A watcher that a section leaves alone stays covered. */
  lemma CoveredKeeps(h: Hub, section: Section, o: Owner)
    requires HubOk(h) && Allowed(h, section) && SameWatcher(h, Enter(h, section), o)
    requires section.Subscribe? || section.MarkSeen? ==> section.owner.OfConn?
    requires Covered(h, o)
    ensures Covered(Enter(h, section), o)
  {
    var t, node := Enter(h, section), h.watchers[o].node;
    if Pending(h, o) {
      SectionTracks(h, section);
      PendingKeeps(h, t, o);
    } else if BeingRevoked(h, node) {
      BeingRevokedKeeps(h, section, o);
    } else if node !in t.devices {
      assert h.nextJob in t.revoking && t.revoking[h.nextJob] == node;
    }
  }

  // ---------------------------------------------------------------------- whole runs

  ghost predicate ConnOk(h: Hub, c: nat, conn: Conn) {
    var o := OfConn(c);
    && (o in h.watchers ==> h.watchers[o].node == conn.node)
    && (conn.paired && !conn.phase.Closed? && !conn.phase.Starting? ==> o in h.watchers)
    && (conn.paired && conn.phase.Checked? ==> Covered(h, o))
  }

  ghost predicate ForwardersOk(h: Hub) {
    forall f: nat :: OfForwarder(f) in h.watchers ==> Covered(h, OfForwarder(f))
  }

  ghost predicate ConnsOk(h: Hub, conns: map<nat, Conn>) {
    && (forall c :: c in conns ==> ConnOk(h, c, conns[c]))
    && (forall c: nat :: OfConn(c) in h.watchers ==> c in conns)
  }

  ghost predicate Inv(s: State) {
    HubOk(s.hub) && ForwardersOk(s.hub) && ConnsOk(s.hub, s.conns)
  }

  /** A new forwarder's watcher is a covered one. */
  lemma ForwardersKeep(h: Hub, section: Section)
    requires HubOk(h) && ForwardersOk(h) && Allowed(h, section)
    requires section.Subscribe? || section.MarkSeen? ==> section.owner.OfConn?
    requires section.CloneFor? ==> Covered(h, section.owner)
    ensures ForwardersOk(Enter(h, section))
  {
    var t := Enter(h, section);
    forall f: nat | OfForwarder(f) in t.watchers ensures Covered(t, OfForwarder(f)) {
      if section.CloneFor? && f == h.nextForwarder {
        CoveredKeeps(h, section, section.owner);
      } else {
        CoveredKeeps(h, section, OfForwarder(f));
      }
    }
  }

  /** A section that is none of the connection's own. */
  lemma OtherConnKeeps(h: Hub, section: Section, c: nat, conn: Conn)
    requires HubOk(h) && Allowed(h, section) && ConnOk(h, c, conn)
    requires section.Subscribe? || section.MarkSeen? || section.Release? ==> section.owner != OfConn(c)
    requires section.Subscribe? || section.MarkSeen? ==> section.owner.OfConn?
    ensures ConnOk(Enter(h, section), c, conn)
    ensures OfConn(c) in Enter(h, section).watchers <==> OfConn(c) in h.watchers
  {
    if Covered(h, OfConn(c)) {
      CoveredKeeps(h, section, OfConn(c));
    }
  }

  lemma OwnConnKeeps(h: Hub, c: nat, conn: Conn, move: Move)
    requires HubOk(h) && ConnOk(h, c, conn) && MoveEnabled(conn, move)
    requires Allowed(h, SectionOf(h, c, conn, move))
    ensures ConnOk(Enter(h, SectionOf(h, c, conn, move)), c, Moved(h, conn, move))
  {
  }

  lemma ConnsKeep(s: State, step: Step)
    requires Inv(s) && Enabled(s, step)
    ensures ConnsOk(Apply(s, step).hub, Apply(s, step).conns)
  {
    var t := Apply(s, step);
    forall c | c in t.conns ensures ConnOk(t.hub, c, t.conns[c]) {
      if step.ConnMove? && step.c == c {
        OwnConnKeeps(s.hub, c, s.conns[c], step.move);
      } else if c in s.conns {
        OtherConnKeeps(s.hub, Effect(s, step), c, s.conns[c]);
      }
    }
  }

  lemma StepKeeps(s: State, step: Step)
    requires Inv(s) && Enabled(s, step)
    ensures Inv(Apply(s, step))
  {
    HubKeeps(s.hub, Effect(s, step));
    if step.ConnMove? {
      assert ConnOk(s.hub, step.c, s.conns[step.c]);
    }
    ForwardersKeep(s.hub, Effect(s, step));
    ConnsKeep(s, step);
  }

  lemma {:induction false} RunKeeps(states: seq<State>, steps: seq<Step>, n: nat)
    requires IsRun(states, steps) && n < |states|
    ensures Inv(states[n])
  {
    if n > 0 {
      RunKeeps(states, steps, n - 1);
      assert Follows(states[n - 1], steps[n - 1], states[n]);
      StepKeeps(states[n - 1], steps[n - 1]);
    }
  }

  /** Later states of a run remember the numbers of earlier ones. */
  lemma {:induction false} RunTracks(states: seq<State>, steps: seq<Step>, n: nat, m: nat)
    requires IsRun(states, steps) && n <= m < |states|
    ensures Tracks(states[n].hub, states[m].hub)
  {
    if n < m {
      RunTracks(states, steps, n, m - 1);
      RunKeeps(states, steps, m - 1);
      assert Follows(states[m - 1], steps[m - 1], states[m]);
      SectionTracks(states[m - 1].hub, Effect(states[m - 1], steps[m - 1]));
      TracksCompose(states[n].hub, states[m - 1].hub, states[m].hub);
    }
  }

  /** The two ways a record goes: from the desktop, or at the device's own request. */
  predicate Removes(s: State, step: Step, node: string) {
    && node in s.hub.devices
    && (step == RemoveDevice(node) || (step.ConnMove? && step.move.RemoveOwn? && step.c in s.conns && s.conns[step.c].node == node))
  }

  /** What holds of the tables at the removal, after it, at its announcement and at the end. */
  lemma RevocationArrives(atRemoval: Hub, removed: Hub, before: Hub, end: Hub, job: nat, o: Owner)
    requires Tracks(atRemoval, before) && Tracks(removed, before) && HubOk(atRemoval) && HubOk(before)
    requires o.OfForwarder? && o in atRemoval.watchers && job in removed.revoking && job < removed.nextJob
    requires removed.revoking[job] == atRemoval.watchers[o].node
    requires job in before.revoking && Tracks(Announced(before, job), end)
    ensures o in end.watchers ==> Pending(end, o)
  {
    var after := Announced(before, job);
    if o in end.watchers {
      assert o.f < atRemoval.nextForwarder && atRemoval.nextForwarder <= before.nextForwarder;
      assert SameWatcher(after, end, o);
      assert SameWatcher(atRemoval, before, o);
      assert SameJob(removed, before, job);
      AnnounceReaches(before, job, o);
      PendingKeeps(after, end, o);
    }
  }

  lemma RemovalStarts(s: State, step: Step, t: State, node: string)
    requires HubOk(s.hub) && Follows(s, step, t) && Removes(s, step, node)
    ensures s.hub.nextJob < t.hub.nextJob && s.hub.nextJob in t.hub.revoking && t.hub.revoking[s.hub.nextJob] == node
  {
  }

  /**
   * No lost revocation. Step `r` removes a device's record and step `i` announces that removal.
   * However the run goes on, a forwarder that was running for the device when the record went has
   * stopped or has an unseen revocation waiting for it, even if the device was paired again.
   */
  lemma NoLostRevocation(states: seq<State>, steps: seq<Step>, r: nat, i: nat, node: string, f: nat, n: nat)
    requires IsRun(states, steps) && r < i < n < |states|
    requires Removes(states[r], steps[r], node) && steps[i] == Revoke(states[r].hub.nextJob)
    requires OfForwarder(f) in states[r].hub.watchers && states[r].hub.watchers[OfForwarder(f)].node == node
    ensures OfForwarder(f) in states[n].hub.watchers ==> Pending(states[n].hub, OfForwarder(f))
  {
    RunKeeps(states, steps, r);
    assert Follows(states[r], steps[r], states[r + 1]);
    RemovalStarts(states[r], steps[r], states[r + 1], node);
    RunKeeps(states, steps, i);
    assert Follows(states[i], steps[i], states[i + 1]);
    RunTracks(states, steps, r, i);
    RunTracks(states, steps, r + 1, i);
    RunTracks(states, steps, i + 1, n);
    RevocationArrives(states[r].hub, states[r + 1].hub, states[i].hub, states[n].hub, states[r].hub.nextJob, OfForwarder(f));
  }

  /**
   * At every moment of every run, a running forwarder of a device whose record is gone has a
   * revocation waiting, unless the removal that must announce it is still under way.
   */
  lemma RemovedIsRevoked(states: seq<State>, steps: seq<Step>, n: nat, f: nat)
    requires IsRun(states, steps) && n < |states|
    ensures var h, o := states[n].hub, OfForwarder(f);
      o in h.watchers && h.watchers[o].node !in h.devices && !BeingRevoked(h, h.watchers[o].node) ==> Pending(h, o)
  {
    RunKeeps(states, steps, n);
  }

  /** A paired connection always has the watcher that a new forwarder is to be given. */
  lemma PairedHasWatcher(states: seq<State>, steps: seq<Step>, n: nat, c: nat)
    requires IsRun(states, steps) && n < |states| && c in states[n].conns
    ensures StartsForwarder(states[n].conns[c], Serve) ==> Enabled(states[n], ConnMove(c, Serve))
  {
    RunKeeps(states, steps, n);
    assert ConnOk(states[n].hub, c, states[n].conns[c]);
  }

  // ---------------------------------------------------------------------- served after a check

  /** 0: nothing read; 1: a request read; 2: the device found paired after that. */
  function Stage(history: seq<Event>, c: nat): nat {
    if history == [] then 0
    else
      var before, last := Stage(history[..|history| - 1], c), history[|history| - 1];
      if last == Read(c) then 1
      else if last == FoundPaired(c) then (if before == 1 then 2 else before)
      else if last == Served(c) then 0
      else before
  }

  /** Whenever a request is served, the device had been found paired since the request was read. */
  ghost predicate ServedAfterCheck(history: seq<Event>) {
    forall i :: 0 <= i < |history| && history[i].Served? ==> Stage(history[..i], history[i].c) == 2
  }

  ghost predicate StageOk(history: seq<Event>, c: nat, conn: Conn) {
    && (conn.phase.Received? ==> Stage(history, c) == 1)
    && (conn.phase.Checked? && conn.paired ==> Stage(history, c) == 2)
  }

  ghost predicate StagesOk(s: State) {
    && ServedAfterCheck(s.history)
    && (forall c :: c in s.conns ==> StageOk(s.history, c, s.conns[c]))
  }

  lemma StageSnoc(history: seq<Event>, e: Event, c: nat)
    ensures var stage := Stage(history + [e], c);
      if e == Read(c) then stage == 1
      else if e == FoundPaired(c) then stage == (if Stage(history, c) == 1 then 2 else Stage(history, c))
      else if e == Served(c) then stage == 0
      else stage == Stage(history, c)
  {
    assert (history + [e])[..|history|] == history;
  }

  lemma ServedSnoc(history: seq<Event>, e: Event)
    requires ServedAfterCheck(history) && (e.Served? ==> Stage(history, e.c) == 2)
    ensures ServedAfterCheck(history + [e])
  {
    forall i | 0 <= i < |history + [e]| && (history + [e])[i].Served?
      ensures Stage((history + [e])[..i], (history + [e])[i].c) == 2
    {
      assert (history + [e])[..i] == history[..i];
    }
  }

  lemma OwnStageKeeps(h: Hub, c: nat, conn: Conn, move: Move, history: seq<Event>)
    requires MoveEnabled(conn, move) && StageOk(history, c, conn) && ServedAfterCheck(history)
    ensures StageOk(history + EventsOf(h, c, conn, move), c, Moved(h, conn, move))
    ensures ServedAfterCheck(history + EventsOf(h, c, conn, move))
  {
    var events := EventsOf(h, c, conn, move);
    if events != [] {
      assert events == [events[0]];
      StageSnoc(history, events[0], c);
      ServedSnoc(history, events[0]);
    } else {
      assert history + events == history;
    }
  }

  lemma OtherStageKeeps(h: Hub, c: nat, conn: Conn, move: Move, history: seq<Event>, d: nat, other: Conn)
    requires d != c && StageOk(history, d, other)
    ensures StageOk(history + EventsOf(h, c, conn, move), d, other)
  {
    var events := EventsOf(h, c, conn, move);
    if events != [] {
      assert events == [events[0]];
      StageSnoc(history, events[0], d);
    } else {
      assert history + events == history;
    }
  }

  lemma StagesKeep(s: State, step: Step)
    requires StagesOk(s) && Enabled(s, step)
    ensures StagesOk(Apply(s, step))
  {
    var t := Apply(s, step);
    if step.ConnMove? {
      var conn := s.conns[step.c];
      assert StageOk(s.history, step.c, conn);
      OwnStageKeeps(s.hub, step.c, conn, step.move, s.history);
      forall d | d in t.conns && d != step.c ensures StageOk(t.history, d, t.conns[d]) {
        OtherStageKeeps(s.hub, step.c, conn, step.move, s.history, d, s.conns[d]);
      }
    }
  }

  /** Every request that needs a pairing is served only after a check made since it was read. */
  lemma {:induction false} ServedOnlyIfPaired(states: seq<State>, steps: seq<Step>, n: nat)
    requires IsRun(states, steps) && n < |states|
    ensures StagesOk(states[n])
  {
    if n > 0 {
      ServedOnlyIfPaired(states, steps, n - 1);
      assert Follows(states[n - 1], steps[n - 1], states[n]);
      StagesKeep(states[n - 1], steps[n - 1]);
    }
  }
}
