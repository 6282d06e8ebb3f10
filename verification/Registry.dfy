/**
 * The session registry (crates/daemon/src/ipc.rs): live sessions, sessions restored after they
 * ended, and the names both hold. Creating a session is two operations, for another may come
 * between reserving its name and its process being spawned; every other operation is one.
 */
module Registry {
  import opened Common
  import opened Names
  import opened Retention

  datatype Live = Live(name: string, killed: bool, lastActivity: nat)

  /** `starting` are the names reserved for sessions that are being spawned. */
  datatype Tables = Tables(sessions: map<Id, Live>, restored: map<Id, Stored>, names: set<string>, starting: set<string>)

  // ---------------------------------------------------------------------- what the tables mean

  predicate Has(t: Tables, id: Id) {
    id in t.sessions || id in t.restored
  }

  function NameOf(t: Tables, id: Id): string
    requires Has(t, id)
  {
    if id in t.sessions then t.sessions[id].name else t.restored[id].name
  }

  /** Every session, live or restored, with its name. */
  function Owners(t: Tables): map<Id, string> {
    map id | id in t.sessions.Keys + t.restored.Keys :: NameOf(t, id)
  }

  ghost predicate SomeoneHas(owners: map<Id, string>, name: string) {
    exists id :: id in owners && owners[id] == name
  }

  /** Reserved exactly when a session, live or restored, or else one being spawned has it. */
  ghost predicate NameExact(owners: map<Id, string>, names: set<string>, starting: set<string>, name: string) {
    && (name in names <==> name in starting || SomeoneHas(owners, name))
    && !(name in starting && SomeoneHas(owners, name))
  }

  ghost predicate Differ(owners: map<Id, string>, a: Id, b: Id) {
    a in owners && b in owners && owners[a] == owners[b] ==> a == b
  }

  /** No two sessions share a name. */
  ghost predicate Distinct(owners: map<Id, string>) {
    forall a, b :: Differ(owners, a, b)
  }

  ghost predicate NamesExact(owners: map<Id, string>, names: set<string>, starting: set<string>) {
    Distinct(owners) && forall name :: NameExact(owners, names, starting, name)
  }

  ghost predicate Consistent(t: Tables) {
    && (forall id :: id in t.sessions ==> id !in t.restored)
    && NamesExact(Owners(t), t.names, t.starting)
  }

  predicate WithinCap(t: Tables) {
    |t.restored| <= MAX_STORED_SESSIONS
  }

  // ---------------------------------------------------------------------- operations

  /** The entry that the cap removes was active no later than any other. */
  predicate Oldest(full: map<Id, Stored>, victim: Id) {
    victim in full && forall id :: id in full ==> full[victim].lastActivity <= full[id].lastActivity
  }

  /** Nothing leaves while there is room; otherwise an oldest entry does. */
  predicate RightVictim(full: map<Id, Stored>, victim: Option<Id>) {
    if |full| <= MAX_STORED_SESSIONS then victim == None else victim.Some? && Oldest(full, victim.value)
  }

  /** Only more than 256 entries make the cap remove one, and no other was last active before it. */
  lemma VictimIsOldest(full: map<Id, Stored>, victim: Option<Id>, id: Id)
    requires RightVictim(full, victim) && id in full
    ensures victim.Some? <==> |full| > 256
    ensures victim.Some? ==> victim.value in full && full[victim.value].lastActivity <= full[id].lastActivity
  {
  }

  datatype Op =
    | Reserve(name: string)
    | Abandon(name: string)                        // spawning failed
    | Start(name: string, id: Id, now: nat)        // spawning succeeded
    | Kill(id: Id, killed: bool)                   // the process may refuse
    | Exit(id: Id, victim: Option<Id>)             // it ended by itself
    | Active(id: Id, now: nat)

  function Without(restored: map<Id, Stored>, victim: Option<Id>): map<Id, Stored> {
    if victim.Some? then restored - {victim.value} else restored
  }

  /** The session is to be kept as a restored one. */
  predicate Keeps(t: Tables, id: Id) {
    id in t.sessions && !t.sessions[id].killed
  }

  function Captured(t: Tables, id: Id): map<Id, Stored>
    requires Keeps(t, id)
  {
    t.restored[id := Stored(t.sessions[id].name, t.sessions[id].lastActivity)]
  }

  predicate Enabled(t: Tables, op: Op) {
    match op
    case Reserve(name) => name !in t.names
    case Abandon(name) => name in t.starting
    case Start(name, id, _) => name in t.starting && !Has(t, id)
    case Kill(_, _) => true
    case Exit(id, victim) => Keeps(t, id) ==> RightVictim(Captured(t, id), victim)
    case Active(id, _) => id in t.sessions
  }

  /** A killed session is gone, with its name; one that refuses stays, and so does its name. */
  function Killed(t: Tables, id: Id, killed: bool): Tables {
    if id in t.sessions && !killed then t.(sessions := t.sessions[id := t.sessions[id].(killed := true)])
    else if Has(t, id) then
      t.(sessions := t.sessions - {id}, restored := t.restored - {id}, names := t.names - {NameOf(t, id)})
    else t
  }

  /** A session that ends by itself becomes a restored one, unless the cap removes that very entry. */
  function Exited(t: Tables, id: Id, victim: Option<Id>): Tables
    requires Enabled(t, Exit(id, victim))
  {
    if !Keeps(t, id) then t
    else
      var full := Captured(t, id);
      t.(sessions := t.sessions - {id}, restored := Without(full, victim),
         names := if victim.Some? then t.names - {full[victim.value].name} else t.names)
  }

  function Apply(t: Tables, op: Op): Tables
    requires Enabled(t, op)
  {
    match op
    case Reserve(name) => t.(names := t.names + {name}, starting := t.starting + {name})
    case Abandon(name) => t.(names := t.names - {name}, starting := t.starting - {name})
    case Start(name, id, now) => t.(sessions := t.sessions[id := Live(name, false, now)], starting := t.starting - {name})
    case Kill(id, killed) => Killed(t, id, killed)
    case Exit(id, victim) => Exited(t, id, victim)
    case Active(id, now) => t.(sessions := t.sessions[id := t.sessions[id].(lastActivity := now)])
  }

  /** The stored row that an operation deletes: that of a session that is gone for good. */
  function DeletedRow(t: Tables, op: Op): Option<Id> {
    match op
    case Kill(id, killed) => if id in t.sessions && !killed then None else Some(id)
    case Exit(id, victim) => if Keeps(t, id) then victim else None
    case _ => None
  }

  /** Deleting may fail, and then the row stays. */
  function RowsAfter(t: Tables, rows: map<Id, Row>, op: Op, deleted: bool): map<Id, Row> {
    if DeletedRow(t, op).Some? && deleted then rows - {DeletedRow(t, op).value} else rows
  }

  function Readable(rows: map<Id, Row>): map<Id, Stored> {
    map id | id in rows && rows[id].Some? :: rows[id].value
  }

  /** The registry of a daemon that has just loaded these rows. */
  function Loaded(rows: map<Id, Row>): Tables {
    var restored := Readable(rows);
    Tables(map[], restored, NamesIn(restored), {})
  }

  function NamesIn(restored: map<Id, Stored>): set<string> {
    set id | id in restored :: restored[id].name
  }

  lemma NamesInMore(restored: map<Id, Stored>, id: Id, session: Stored)
    requires id !in restored
    ensures NamesIn(restored[id := session]) == NamesIn(restored) + {session.name}
  {
    var more := restored[id := session];
    assert more[id].name in NamesIn(more);
    forall name | name in NamesIn(restored) ensures name in NamesIn(more) {
      var other :| other in restored && restored[other].name == name;
      assert more[other].name == name;
    }
  }

  // ---------------------------------------------------------------------- every operation keeps it

  lemma WithoutSize<K, V>(m: map<K, V>, k: K)
    ensures |m - {k}| == if k in m then |m| - 1 else |m|
  {
    assert (m - {k}).Keys == m.Keys - {k};
  }

  lemma WithSize<K, V>(m: map<K, V>, k: K, v: V)
    ensures |m[k := v]| == if k in m then |m| else |m| + 1
  {
    assert m[k := v].Keys == m.Keys + {k};
  }

  lemma LeavingOwners(owners: map<Id, string>, names: set<string>, starting: set<string>, id: Id)
    requires NamesExact(owners, names, starting) && id in owners
    ensures NamesExact(owners - {id}, names - {owners[id]}, starting)
  {
    var left := owners - {id};
    forall other | other in left ensures left[other] != owners[id] {
      assert Differ(owners, other, id);
    }
    forall a, b ensures Differ(left, a, b) {
      assert Differ(owners, a, b);
    }
    forall name ensures NameExact(left, names - {owners[id]}, starting, name) {
      assert NameExact(owners, names, starting, name);
      if SomeoneHas(owners, name) && name != owners[id] {
        var other :| other in owners && owners[other] == name;
        assert other in left && left[other] == name;
      }
    }
  }

  lemma StartedOwners(owners: map<Id, string>, names: set<string>, starting: set<string>, id: Id, name: string)
    requires NamesExact(owners, names, starting) && id !in owners && name in starting
    ensures NamesExact(owners[id := name], names, starting - {name})
  {
    var more := owners[id := name];
    assert NameExact(owners, names, starting, name);
    forall a, b ensures Differ(more, a, b) {
      assert Differ(owners, a, b);
    }
    forall n ensures NameExact(more, names, starting - {name}, n) {
      assert NameExact(owners, names, starting, n);
      assert more[id] == name;
      if SomeoneHas(owners, n) {
        var other :| other in owners && owners[other] == n;
        assert other in more && more[other] == n;
      }
    }
  }

  /** `u` has the sessions of `t`, under the same names. */
  ghost predicate SameOwners(t: Tables, u: Tables) {
    forall id :: (Has(t, id) <==> Has(u, id)) && (Has(t, id) ==> NameOf(t, id) == NameOf(u, id))
  }

  /** `u` has all sessions of `t` but one. */
  ghost predicate OwnersBut(t: Tables, u: Tables, gone: Id) {
    forall id :: (Has(u, id) <==> Has(t, id) && id != gone) && (Has(u, id) ==> NameOf(t, id) == NameOf(u, id))
  }

  lemma SameOwnersKeep(t: Tables, u: Tables)
    requires NamesExact(Owners(t), t.names, t.starting) && SameOwners(t, u)
    ensures NamesExact(Owners(u), t.names, t.starting)
  {
    assert Owners(u) == Owners(t);
  }

  lemma OwnersButKeep(t: Tables, u: Tables, gone: Id)
    requires NamesExact(Owners(t), t.names, t.starting) && Has(t, gone) && OwnersBut(t, u, gone)
    ensures NamesExact(Owners(u), t.names - {NameOf(t, gone)}, t.starting)
  {
    LeavingOwners(Owners(t), t.names, t.starting, gone);
    assert Owners(u) == Owners(t) - {gone};
  }

  lemma RefusedKeeps(t: Tables, id: Id)
    requires Consistent(t) && id in t.sessions
    ensures Consistent(Killed(t, id, false))
  {
    SameOwnersKeep(t, Killed(t, id, false));
  }

  lemma KilledOwners(t: Tables, id: Id)
    requires Has(t, id)
    ensures OwnersBut(t, t.(sessions := t.sessions - {id}, restored := t.restored - {id}), id) || (id in t.sessions && id in t.restored)
  {
  }

  lemma KillKeeps(t: Tables, id: Id)
    requires Consistent(t) && Has(t, id)
    ensures Consistent(Killed(t, id, true))
  {
    KilledOwners(t, id);
    OwnersButKeep(t, Killed(t, id, true), id);
  }

  lemma NameIsReserved(t: Tables, id: Id)
    requires Consistent(t) && Has(t, id)
    ensures NameOf(t, id) in t.names && NameOf(t, id) !in t.starting
  {
    assert Owners(t)[id] == NameOf(t, id);
    assert NameExact(Owners(t), t.names, t.starting, NameOf(t, id));
  }

  lemma StartingIsReserved(t: Tables, name: string)
    requires Consistent(t) && name in t.starting
    ensures name in t.names
  {
    assert NameExact(Owners(t), t.names, t.starting, name);
  }

  /** The session that ended, restored, while the cap has not been applied yet. */
  function Moved(t: Tables, id: Id): Tables
    requires Keeps(t, id)
  {
    t.(sessions := t.sessions - {id}, restored := Captured(t, id))
  }

  lemma ExitKeeps(t: Tables, id: Id, victim: Option<Id>)
    requires Consistent(t) && Enabled(t, Exit(id, victim))
    ensures Consistent(Exited(t, id, victim))
  {
    if Keeps(t, id) {
      var u, v := Moved(t, id), Exited(t, id, victim);
      assert SameOwners(t, u);
      SameOwnersKeep(t, u);
      if victim.Some? {
        assert OwnersBut(u, v, victim.value);
        OwnersButKeep(u, v, victim.value);
      }
    }
  }

  /** Names that no session has come and go with the sessions being spawned. */
  lemma ReservedKeeps(t: Tables, name: string)
    requires Consistent(t) && (name in t.names ==> name in t.starting)
    ensures Consistent(t.(names := t.names + {name}, starting := t.starting + {name}))
    ensures Consistent(t.(names := t.names - {name}, starting := t.starting - {name}))
  {
    assert NameExact(Owners(t), t.names, t.starting, name);
    var more := t.(names := t.names + {name}, starting := t.starting + {name});
    var less := t.(names := t.names - {name}, starting := t.starting - {name});
    assert Owners(more) == Owners(t) && Owners(less) == Owners(t);
    forall n ensures NameExact(Owners(t), more.names, more.starting, n) && NameExact(Owners(t), less.names, less.starting, n) {
      assert NameExact(Owners(t), t.names, t.starting, n);
    }
  }

  lemma StartedKeeps(t: Tables, u: Tables, id: Id, name: string)
    requires NamesExact(Owners(t), t.names, t.starting) && name in t.starting && !Has(t, id)
    requires Has(u, id) && NameOf(u, id) == name && OwnersBut(u, t, id)
    ensures NamesExact(Owners(u), t.names, t.starting - {name})
  {
    StartedOwners(Owners(t), t.names, t.starting, id, name);
    assert Owners(u) == Owners(t)[id := name];
  }

  lemma StartKeeps(t: Tables, name: string, id: Id, now: nat)
    requires Consistent(t) && Enabled(t, Start(name, id, now))
    ensures Consistent(Apply(t, Start(name, id, now)))
  {
    StartedKeeps(t, Apply(t, Start(name, id, now)), id, name);
  }

  lemma OpKeepsCap(t: Tables, op: Op)
    requires WithinCap(t) && Enabled(t, op)
    ensures WithinCap(Apply(t, op))
  {
    match op
    case Kill(id, _) => WithoutSize(t.restored, id);
    case Exit(id, victim) =>
      if Keeps(t, id) {
        var full := Captured(t, id);
        WithSize(t.restored, id, full[id]);
        if victim.Some? {
          WithoutSize(full, victim.value);
        }
      }
    case _ =>
  }

  /** Whatever happens, the reserved names stay exactly those in use. */
  lemma OpKeeps(t: Tables, op: Op)
    requires Consistent(t) && Enabled(t, op)
    ensures Consistent(Apply(t, op))
  {
    match op
    case Reserve(name) => ReservedKeeps(t, name);
    case Abandon(name) => ReservedKeeps(t, name);
    case Start(name, id, now) => StartKeeps(t, name, id, now);
    case Kill(id, killed) =>
      if id in t.sessions && !killed {
        RefusedKeeps(t, id);
      } else if Has(t, id) {
        KillKeeps(t, id);
      }
    case Exit(id, victim) => ExitKeeps(t, id, victim);
    case Active(_, _) => SameOwnersKeep(t, Apply(t, op));
  }

  function Run(t: Tables, ops: seq<Op>): Option<Tables>
    decreases |ops|
  {
    if ops == [] then Some(t)
    else if Enabled(t, ops[0]) then Run(Apply(t, ops[0]), ops[1..])
    else None
  }

  /** Every history of the registry keeps the names exact and distinct, and the cap. */
  lemma {:induction false} RunKeeps(t: Tables, ops: seq<Op>)
    requires Consistent(t) && WithinCap(t) && Run(t, ops).Some?
    ensures Consistent(Run(t, ops).value) && WithinCap(Run(t, ops).value)
    decreases |ops|
  {
    if ops != [] {
      OpKeeps(t, ops[0]);
      OpKeepsCap(t, ops[0]);
      RunKeeps(Apply(t, ops[0]), ops[1..]);
    }
  }

  /** Killing is idempotent, and frees the name for a new session and nothing else. */
  lemma KillTwice(t: Tables, id: Id, again: bool)
    requires Consistent(t) && Has(t, id)
    ensures var u := Killed(t, id, true);
      && Killed(u, id, again) == u
      && Enabled(u, Reserve(NameOf(t, id)))
      && forall other :: other != id ==> (Has(u, other) <==> Has(t, other)) && (Has(t, other) ==> NameOf(u, other) in u.names)
  {
    var u := Killed(t, id, true);
    KillKeeps(t, id);
    forall other | Has(u, other) ensures NameOf(u, other) in u.names {
      NameIsReserved(u, other);
    }
  }

  lemma CapIsReached(t: Tables, id: Id, victim: Id)
    requires WithinCap(t) && id !in t.restored && Keeps(t, id) && Enabled(t, Exit(id, Some(victim)))
    ensures |t.restored| == |Exited(t, id, Some(victim)).restored| == MAX_STORED_SESSIONS
  {
    WithSize(t.restored, id, Stored(t.sessions[id].name, t.sessions[id].lastActivity));
    WithoutSize(Captured(t, id), victim);
  }

  /**
   * When the cap removes the session that just ended, nothing else changes and its name is free;
   * when it removes another, the session takes that one's place and keeps its name.
   */
  lemma CapMayRemoveTheSession(t: Tables, id: Id, victim: Id)
    requires Consistent(t) && Keeps(t, id) && Enabled(t, Exit(id, Some(victim)))
    ensures var u := Exited(t, id, Some(victim)); var name := t.sessions[id].name;
      && (victim == id ==> u.restored == t.restored && u.names == t.names - {name})
      && (victim != id ==> victim in t.restored && id in u.restored && u.restored[id].name == name && name in u.names)
  {
    if victim == id {
      assert Exited(t, id, Some(victim)).restored == t.restored;
    } else {
      ExitKeeps(t, id, Some(victim));
      NameIsReserved(Exited(t, id, Some(victim)), id);
    }
  }

  // ---------------------------------------------------------------------- the registry itself

  method OldestOf(full: map<Id, Stored>) returns (oldest: Id)
    requires |full| > 0
    ensures Oldest(full, oldest)
  {
    var rest := full.Keys;
    oldest :| oldest in rest;
    rest := rest - {oldest};
    while rest != {}
      invariant rest <= full.Keys && oldest in full && oldest !in rest
      invariant forall id :: id in full && id !in rest ==> full[oldest].lastActivity <= full[id].lastActivity
      decreases |rest|
    {
      var id :| id in rest;
      rest := rest - {id};
      if full[id].lastActivity < full[oldest].lastActivity {
        oldest := id;
      }
    }
  }

  /** The two places where an exit may release a name amount to one. */
  lemma ExitNames(t: Tables, id: Id, victim: Option<Id>, inserted: set<string>)
    requires Consistent(t) && Keeps(t, id) && (victim.Some? ==> victim.value in Captured(t, id))
    requires inserted == ReleasedNames(t.names + {NameOf(t, id)}, t.sessions, Captured(t, id), victim)
    ensures (if victim == Some(id) then inserted - {NameOf(t, id)} else inserted) ==
      if victim.Some? then t.names - {Captured(t, id)[victim.value].name} else t.names
  {
    NameIsReserved(t, id);
  }

  /** The names that are left when a session retires are those that an exit leaves. */
  lemma ExitResult(t: Tables, id: Id, victim: Option<Id>)
    requires Consistent(t) && Keeps(t, id) && Enabled(t, Exit(id, victim))
    ensures var names := ReleasedNames(t.names + {NameOf(t, id)}, t.sessions, Captured(t, id), victim);
      Exited(t, id, victim).names == if id in Without(Captured(t, id), victim) then names else names - {NameOf(t, id)}
    ensures Consistent(Exited(t, id, victim))
  {
    ExitNames(t, id, victim, ReleasedNames(t.names + {NameOf(t, id)}, t.sessions, Captured(t, id), victim));
    ExitKeeps(t, id, victim);
  }

  /** The victim's name goes, unless a live session still answers to its id. */
  function ReleasedNames(names: set<string>, sessions: map<Id, Live>, full: map<Id, Stored>, victim: Option<Id>): set<string> {
    if victim.Some? && victim.value in full && victim.value !in sessions then names - {full[victim.value].name} else names
  }

  predicate RowsDiffer(rows: map<Id, Row>) {
    forall a, b :: a in rows && b in rows && rows[a].Some? && rows[b].Some? && rows[a].value.name == rows[b].value.name ==> a == b
  }

  /** Loading compares no names: what it restores is consistent if and only if the rows' names differ. */
  lemma LoadExact(rows: map<Id, Row>)
    ensures Consistent(Loaded(rows)) <==> RowsDiffer(rows)
  {
    var t := Loaded(rows);
    forall name ensures NameExact(Owners(t), t.names, t.starting, name) {
      if name in t.names {
        var id :| id in t.restored && t.restored[id].name == name;
        assert Owners(t)[id] == name;
      }
    }
    forall a, b | a in rows && b in rows && rows[a].Some? && rows[b].Some?
      ensures Differ(Owners(t), a, b) <==> (rows[a].value.name == rows[b].value.name ==> a == b)
    {
      assert a in t.restored && b in t.restored;
    }
    if RowsDiffer(rows) {
      forall a, b ensures Differ(Owners(t), a, b) {
        assert a in Owners(t) ==> a in rows && rows[a].Some?;
        assert b in Owners(t) ==> b in rows && rows[b].Some?;
      }
    }
  }

  /** Loading restores exactly the readable rows, as they were stored, reserves their names, and leaves nothing alive. */
  lemma LoadedKeepsRows(rows: map<Id, Row>, id: Id, name: string)
    ensures Loaded(rows).sessions == map[] && Loaded(rows).starting == {}
    ensures id in Loaded(rows).restored <==> id in rows && rows[id].Some?
    ensures id in Loaded(rows).restored ==> Loaded(rows).restored[id] == rows[id].value
    ensures name in Loaded(rows).names <==> exists other :: other in rows && rows[other].Some? && rows[other].value.name == name
  {
    if other :| other in rows && rows[other].Some? && rows[other].value.name == name {
      assert other in Readable(rows) && Readable(rows)[other].name == name;
    }
  }

  /** What pruning leaves is readable and fits. */
  lemma PrunedFits(before: map<Id, Row>, kept: map<Id, Row>, cutoff: nat)
    requires Pruned(before, kept, cutoff, MAX_STORED_SESSIONS)
    ensures Readable(kept).Keys == kept.Keys && WithinCap(Loaded(kept))
  {
    assert Readable(kept).Keys == kept.Keys;
  }

  /** What becomes of a request for a session with this name, whether or not its process can be spawned. */
  ghost predicate Creates(names: set<string>, start: nat, name: string, spawned: bool, r: Result<string>) {
    if !Clean(name) then r == Err(ControlCharacters)
    else if name in names && name != "" then r == Err(AlreadyExists(name))
    else if !spawned then r == Err(SpawnFailed)
    else if name == "" then r.Ok? && IsAutomatic(names, start, r.value)
    else r == Ok(name)
  }

  class Registry {
    var sessions: map<Id, Live>
    var restored: map<Id, Stored>
    const reserved: NameSet
    const persistence: Persistence
    ghost var starting: set<string>

    ghost function Value(): Tables
      reads this, reserved
    {
      Tables(sessions, restored, reserved.names, starting)
    }

    ghost predicate Valid()
      reads this, reserved
    {
      Consistent(Value())
    }

    /**
     * `AppState::open`: the stored rows are pruned, and what is left is restored. It fits, and it
     * is consistent exactly when its names differ; see `Durable` for when they do.
     */
    constructor Open(persistence: Persistence, now: nat)
      modifies persistence
      ensures fresh(reserved) && this.persistence == persistence
      ensures Pruned(old(persistence.table), persistence.table, Cutoff(now), MAX_STORED_SESSIONS)
      ensures Value() == Loaded(persistence.table) && WithinCap(Value())
      ensures Valid() <==> RowsDiffer(persistence.table)
    {
      var names := new NameSet();
      reserved := names;
      this.persistence := persistence;
      sessions := map[];
      restored := map[];
      starting := {};
      new;
      var _ := persistence.PruneSessions(now);
      PrunedFits(old(persistence.table), persistence.table, Cutoff(now));
      LoadExact(persistence.table);
      LoadSessions();
    }

    method LoadSessions()
      requires sessions == map[] && restored == map[] && reserved.names == {} && starting == {}
      modifies this, reserved
      ensures Value() == Loaded(persistence.table)
    {
      var rows := persistence.table;
      var rest := rows.Keys;
      while rest != {}
        invariant rest <= rows.Keys && sessions == map[] && starting == {}
        invariant restored == map id | id in rows && rows[id].Some? && id !in rest :: rows[id].value
        invariant reserved.names == NamesIn(restored)
        decreases |rest|
      {
        var id :| id in rest;
        rest := rest - {id};
        if rows[id].Some? {
          NamesInMore(restored, id, rows[id].value);
          var _ := reserved.Insert(rows[id].value.name);
          restored := restored[id := rows[id].value];
        }
      }
      assert restored == Readable(rows);
    }

    method CreateSession(requested: string, start: nat, id: Id, now: nat, spawned: bool) returns (r: Result<string>)
      requires Valid() && !Has(Value(), id)
      modifies this, reserved
      ensures Valid()
      ensures r.Ok? ==> Enabled(old(Value()), Reserve(r.value)) && r.value !in old(starting)
      ensures r.Ok? ==> Value() == Apply(Apply(old(Value()), Reserve(r.value)), Start(r.value, id, now))
      ensures r.Err? ==> Value() == old(Value())
      ensures r.Ok? ==> r.value != "" && Clean(r.value)
      ensures forall at, name :: IsTrimmed(requested, at, name) ==> Creates(old(reserved.names), start, name, spawned, r)
    {
      ghost var before := Value();
      r := reserved.ReserveNewSessionName(requested, start);
      if r.Err? {
        assert Value() == before;
        return;
      }
      var name := r.value;
      if name in starting {
        StartingIsReserved(before, name);
      }
      if spawned {
        restored := restored - {id};
        sessions := sessions[id := Live(name, false, now)];
        OpKeeps(before, Reserve(name));
        OpKeeps(Apply(before, Reserve(name)), Start(name, id, now));
        assert Value() == Apply(Apply(before, Reserve(name)), Start(name, id, now));
      } else {
        reserved.Remove(name);
        r := Err(SpawnFailed);
        assert Value() == before;
      }
    }

    /** `persist`: a live session's row is written, but not that of one that a kill has marked. */
    method PersistSession(id: Id, works: bool)
      requires id in sessions
      modifies persistence
      ensures persistence.table ==
        if sessions[id].killed || !works then old(persistence.table)
        else old(persistence.table)[id := Some(Stored(sessions[id].name, sessions[id].lastActivity))]
    {
      if !sessions[id].killed {
        persistence.SaveSession(id, Stored(sessions[id].name, sessions[id].lastActivity), works);
      }
    }

    /** Acknowledged only if both the process and the stored row are gone. */
    method KillSession(id: Id, processKilled: bool, rowRemoved: bool) returns (acknowledged: bool)
      requires Valid()
      modifies this, reserved, persistence
      ensures Valid() && Value() == Apply(old(Value()), Kill(id, processKilled))
      ensures persistence.table == RowsAfter(old(Value()), old(persistence.table), Kill(id, processKilled), rowRemoved)
      ensures acknowledged <==> (id in old(sessions) ==> processKilled) && rowRemoved
    {
      ghost var after := Apply(Value(), Kill(id, processKilled));
      OpKeeps(Value(), Kill(id, processKilled));
      var removedName: Option<string> := None;
      if id in sessions {
        removedName := Some(sessions[id].name);
        sessions := sessions[id := sessions[id].(killed := true)];
        if !processKilled {
          assert Value() == after;
          return false;
        }
        sessions := sessions - {id};
      }
      if id in restored {
        removedName := if removedName == None then Some(restored[id].name) else removedName;
        restored := restored - {id};
      }
      if removedName.Some? {
        reserved.Remove(removedName.value);
      }
      persistence.RemoveSession(id, rowRemoved);
      assert Value() == after;
      return rowRemoved;
    }

    /** A full table loses an oldest entry, and its row unless deleting that fails. */
    method InsertRestoredSession(id: Id, session: Stored, rowRemoved: bool) returns (ghost victim: Option<Id>)
      requires |restored| <= MAX_STORED_SESSIONS
      modifies this, reserved, persistence
      ensures persistence.table ==
        if victim.Some? && rowRemoved then old(persistence.table) - {victim.value} else old(persistence.table)
      ensures sessions == old(sessions) && starting == old(starting) && |restored| <= MAX_STORED_SESSIONS
      ensures RightVictim(old(restored)[id := session], victim)
      ensures restored == Without(old(restored)[id := session], victim)
      ensures reserved.names ==
        ReleasedNames(old(reserved.names) + {session.name}, sessions, old(restored)[id := session], victim)
    {
      var _ := reserved.Insert(session.name);
      WithSize(restored, id, session);
      restored := restored[id := session];
      victim := None;
      ghost var full := restored;
      while |restored| > MAX_STORED_SESSIONS
        invariant |full| <= MAX_STORED_SESSIONS + 1
        invariant sessions == old(sessions) && starting == old(starting)
        invariant victim.None? ==> restored == full
        invariant victim.Some? ==> RightVictim(full, victim)
        invariant restored == Without(full, victim) && |restored| <= |full|
        invariant victim.Some? ==> |restored| < |full|
        invariant reserved.names == ReleasedNames(old(reserved.names) + {session.name}, sessions, full, victim)
        invariant persistence.table ==
          if victim.Some? && rowRemoved then old(persistence.table) - {victim.value} else old(persistence.table)
        decreases |restored|
      {
        var oldest := OldestOf(restored);
        var removed := restored[oldest];
        WithoutSize(restored, oldest);
        restored := restored - {oldest};
        victim := Some(oldest);
        if oldest !in sessions {
          reserved.Remove(removed.name);
        }
        persistence.RemoveSession(oldest, rowRemoved);
      }
    }

    /** The session is inserted as a restored one and taken from the live ones; its name goes if the cap took it. */
    method Retire(id: Id, session: Stored, rowRemoved: bool) returns (ghost victim: Option<Id>)
      requires |restored| <= MAX_STORED_SESSIONS
      modifies this, reserved, persistence
      ensures starting == old(starting) && sessions == old(sessions) - {id}
      ensures RightVictim(old(restored)[id := session], victim) && restored == Without(old(restored)[id := session], victim)
      ensures var names := ReleasedNames(old(reserved.names) + {session.name}, old(sessions), old(restored)[id := session], victim);
        reserved.names == if id in restored then names else names - {session.name}
      ensures persistence.table ==
        if victim.Some? && rowRemoved then old(persistence.table) - {victim.value} else old(persistence.table)
    {
      victim := InsertRestoredSession(id, session, rowRemoved);
      sessions := sessions - {id};
      if id !in restored {
        reserved.Remove(session.name);
      }
    }

    method EvictNaturallyExited(id: Id, rowRemoved: bool) returns (ghost victim: Option<Id>)
      requires Valid() && |restored| <= MAX_STORED_SESSIONS
      modifies this, reserved, persistence
      ensures Valid()
      ensures Enabled(old(Value()), Exit(id, victim)) && Value() == Apply(old(Value()), Exit(id, victim))
      ensures persistence.table == RowsAfter(old(Value()), old(persistence.table), Exit(id, victim), rowRemoved)
    {
      victim := None;
      ghost var before := Value();
      if id !in sessions || sessions[id].killed {
        return;
      }
      var stored := Stored(sessions[id].name, sessions[id].lastActivity);
      victim := Retire(id, stored, rowRemoved);
      ExitResult(before, id, victim);
      assert Value() == Exited(before, id, victim);
    }
  }
}
