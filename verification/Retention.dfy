/**
 * Pruning of stored sessions (crates/daemon/src/persistence.rs): unreadable and expired rows go,
 * and of the others only so many of the newest stay.
 */
module Retention {
  import opened Common

  const MAX_STORED_SESSIONS: nat := 256

  const SESSION_RETENTION_MS: nat := 7 * 24 * 60 * 60 * 1_000

  /** A session's identity, by which its row is kept; the source draws one at random for each new session. */
  datatype Id = Id(value: nat)

  datatype Stored = Stored(name: string, lastActivity: nat)

  /** A stored session, or nothing when the row cannot be read. */
  type Row = Option<Stored>

  /** Unreadable rows rank below all others. */
  function Rank(row: Row): int {
    if row.Some? then row.value.lastActivity else -1
  }

  function Cutoff(now: nat): nat {
    if now >= SESSION_RETENTION_MS then now - SESSION_RETENTION_MS else 0
  }

  predicate Unexpired(row: Row, cutoff: nat) {
    row.Some? && row.value.lastActivity >= cutoff
  }

  // ---------------------------------------------------------------------- what pruning promises

  /** Every row kept is one of the old rows, unchanged and unexpired. */
  predicate KeptAreUnexpired(before: map<Id, Row>, after: map<Id, Row>, cutoff: nat) {
    forall k :: k in after ==> k in before && after[k] == before[k] && Unexpired(before[k], cutoff)
  }

  /** An unexpired row is dropped only for want of room, and only if no row kept is older. */
  predicate DropOk(before: map<Id, Row>, after: map<Id, Row>, cutoff: nat, limit: nat, d: Id) {
    d in before && d !in after && Unexpired(before[d], cutoff) ==>
      |after| == limit && forall k :: k in after ==> Rank(before[d]) <= Rank(after[k])
  }

  predicate DroppedAreOlder(before: map<Id, Row>, after: map<Id, Row>, cutoff: nat, limit: nat) {
    forall d :: d in before ==> DropOk(before, after, cutoff, limit, d)
  }

  predicate Pruned(before: map<Id, Row>, after: map<Id, Row>, cutoff: nat, limit: nat) {
    KeptAreUnexpired(before, after, cutoff) && |after| <= limit && DroppedAreOlder(before, after, cutoff, limit)
  }

  function UnexpiredKeys(table: map<Id, Row>, cutoff: nat): set<Id> {
    set k | k in table && Unexpired(table[k], cutoff)
  }

  /** A readable row is kept for seven days after the session was last active. */
  lemma UnexpiredIffWithinWeek(row: Row, now: nat)
    ensures Unexpired(row, Cutoff(now)) <==> row.Some? && row.value.lastActivity + 604_800_000 >= now
  {
  }

  /** No session that stays was last active before one that is dropped unexpired. */
  lemma NewestStay(before: map<Id, Row>, after: map<Id, Row>, cutoff: nat, limit: nat, dropped: Id, kept: Id)
    requires Pruned(before, after, cutoff, limit) && kept in after
    requires dropped in before && dropped !in after && Unexpired(before[dropped], cutoff)
    ensures before[dropped].Some? && after[kept].Some?
    ensures before[dropped].value.lastActivity <= after[kept].value.lastActivity
  {
    assert DropOk(before, after, cutoff, limit, dropped);
  }

  /** As many rows are kept as there is room for and rows worth keeping. */
  lemma KeptCount(before: map<Id, Row>, after: map<Id, Row>, cutoff: nat, limit: nat)
    requires Pruned(before, after, cutoff, limit)
    ensures |after| == Min(limit, |UnexpiredKeys(before, cutoff)|)
  {
    var worth := UnexpiredKeys(before, cutoff);
    assert |after| == |after.Keys|;
    Cardinality(after.Keys, worth);
    if |after| < limit {
      forall k | k in worth ensures k in after {
        assert DropOk(before, after, cutoff, limit, k);
      }
      assert after.Keys == worth;
    }
  }

  /** When no two unexpired rows are equally recent, the promise admits one result. */
  lemma PrunedUnique(before: map<Id, Row>, a: map<Id, Row>, b: map<Id, Row>, cutoff: nat, limit: nat)
    requires Pruned(before, a, cutoff, limit) && Pruned(before, b, cutoff, limit)
    requires forall j, k :: j in before && k in before && Rank(before[j]) == Rank(before[k]) >= cutoff ==> j == k
    ensures a == b
  {
    KeptCount(before, a, cutoff, limit);
    KeptCount(before, b, cutoff, limit);
    assert |a.Keys| == |a| && |b.Keys| == |b|;
    if a.Keys <= b.Keys {
      Cardinality(a.Keys, b.Keys);
    } else if b.Keys <= a.Keys {
      Cardinality(b.Keys, a.Keys);
    } else {
      var j :| j in a && j !in b;
      var k :| k in b && k !in a;
      Tied(before, a, b, cutoff, limit, j, k);
    }
  }

  lemma Tied(before: map<Id, Row>, a: map<Id, Row>, b: map<Id, Row>, cutoff: nat, limit: nat, j: Id, k: Id)
    requires Pruned(before, a, cutoff, limit) && Pruned(before, b, cutoff, limit)
    requires j in a && j !in b && k in b && k !in a
    ensures j in before && k in before && Rank(before[j]) == Rank(before[k]) >= cutoff
  {
    assert DropOk(before, a, cutoff, limit, k) && DropOk(before, b, cutoff, limit, j);
  }

  /** Pruning what was pruned, at the same time and limit, drops nothing more. */
  lemma PruneTwice(before: map<Id, Row>, once: map<Id, Row>, twice: map<Id, Row>, cutoff: nat, limit: nat)
    requires Pruned(before, once, cutoff, limit) && Pruned(once, twice, cutoff, limit)
    ensures twice == once
  {
    KeptCount(once, twice, cutoff, limit);
    assert UnexpiredKeys(once, cutoff) == once.Keys;
    assert |once.Keys| == |once| && |twice.Keys| == |twice|;
    Cardinality(twice.Keys, once.Keys);
  }

  // ---------------------------------------------------------------------- the loops

  datatype Entry = Entry(key: Id, row: Row)

  /** Newest first. */
  predicate NewestFirst(rows: seq<Entry>) {
    forall i, j :: 0 <= i < j < |rows| ==> Rank(rows[i].row) >= Rank(rows[j].row)
  }

  predicate HasKey(rows: seq<Entry>, key: Id) {
    exists i :: 0 <= i < |rows| && rows[i].key == key
  }

  /** `rows` lists the table, each row once. */
  ghost predicate Lists(rows: seq<Entry>, table: map<Id, Row>) {
    && (forall i :: 0 <= i < |rows| ==> rows[i].key in table && rows[i].row == table[rows[i].key])
    && (forall k :: k in table ==> HasKey(rows, k))
    && (forall i, j :: 0 <= i < j < |rows| ==> rows[i].key != rows[j].key)
  }

  method Insert(rows: seq<Entry>, e: Entry) returns (sorted: seq<Entry>, ghost at: nat)
    requires NewestFirst(rows)
    ensures NewestFirst(sorted) && at <= |rows| && sorted == rows[..at] + [e] + rows[at..]
  {
    var i := |rows|;
    while i > 0 && Rank(rows[i - 1].row) < Rank(e.row)
      invariant 0 <= i <= |rows|
      invariant forall j :: i <= j < |rows| ==> Rank(rows[j].row) < Rank(e.row)
    {
      i := i - 1;
    }
    sorted, at := rows[..i] + [e] + rows[i..], i;
  }

  lemma InsertHasKey(rows: seq<Entry>, at: nat, e: Entry, key: Id)
    requires at <= |rows| && (key == e.key || HasKey(rows, key))
    ensures HasKey(rows[..at] + [e] + rows[at..], key)
  {
    var more := rows[..at] + [e] + rows[at..];
    if key == e.key {
      assert more[at].key == key;
    } else {
      var i :| 0 <= i < |rows| && rows[i].key == key;
      assert more[if i < at then i else i + 1].key == key;
    }
  }

  lemma InsertLists(rows: seq<Entry>, at: nat, e: Entry, table: map<Id, Row>)
    requires Lists(rows, table) && at <= |rows| && e.key !in table
    ensures Lists(rows[..at] + [e] + rows[at..], table[e.key := e.row])
  {
    forall k | k in table[e.key := e.row] ensures HasKey(rows[..at] + [e] + rows[at..], k) {
      InsertHasKey(rows, at, e, k);
    }
  }

  /** Reading the table and sorting what was read; rows come out of the table in some order. */
  method ReadSorted(table: map<Id, Row>) returns (rows: seq<Entry>)
    ensures NewestFirst(rows) && Lists(rows, table)
  {
    rows := [];
    var rest := table.Keys;
    ghost var read: map<Id, Row> := map[];
    while rest != {}
      invariant rest <= table.Keys && read == map k | k in table && k !in rest :: table[k]
      invariant NewestFirst(rows) && Lists(rows, read)
      decreases |rest|
    {
      var key :| key in rest;
      ghost var was, at := rows, 0;
      rows, at := Insert(rows, Entry(key, table[key]));
      InsertLists(was, at, Entry(key, table[key]), read);
      rest := rest - {key};
      read := read[key := table[key]];
    }
    assert read == table;
  }

  lemma {:induction false} ListSize(rows: seq<Entry>, table: map<Id, Row>)
    requires Lists(rows, table)
    ensures |rows| == |table|
  {
    if rows == [] {
      forall k ensures k !in table {
        assert !HasKey(rows, k);
      }
      assert table == map[];
    } else {
      var init, last := rows[..|rows| - 1], rows[|rows| - 1];
      var rest := table - {last.key};
      forall k | k in rest ensures HasKey(init, k) {
        var i :| 0 <= i < |rows| && rows[i].key == k;
        assert init[i].key == k;
      }
      ListSize(init, rest);
      assert rest.Keys == table.Keys - {last.key} && |rest| == |rest.Keys| && |table| == |table.Keys|;
    }
  }

  predicate Removed(remove: seq<Id>, key: Id) {
    exists i :: 0 <= i < |remove| && remove[i] == key
  }

  /** Rows are retained from the front; the keys of all others are to be removed. */
  predicate Chosen(rows: seq<Entry>, retained: nat, remove: seq<Id>, cutoff: nat, limit: nat) {
    && retained <= |rows| && retained <= limit && |remove| == |rows| - retained
    && (forall j :: 0 <= j < retained ==> Unexpired(rows[j].row, cutoff))
    && (retained < |rows| ==> retained == limit || !Unexpired(rows[retained].row, cutoff))
    && (forall j :: 0 <= j < |remove| ==> remove[j] == rows[j + retained].key)
  }

  method Choose(rows: seq<Entry>, cutoff: nat, limit: nat) returns (remove: seq<Id>, retained: nat)
    requires NewestFirst(rows)
    ensures Chosen(rows, retained, remove, cutoff, limit)
  {
    remove, retained := [], 0;
    for i := 0 to |rows|
      invariant retained <= i && Chosen(rows[..i], retained, remove, cutoff, limit)
    {
      assert rows[..i + 1] == rows[..i] + [rows[i]];
      if Unexpired(rows[i].row, cutoff) && retained < limit {
        retained := retained + 1;
      } else {
        remove := remove + [rows[i].key];
      }
    }
    assert rows[..|rows|] == rows;
  }

  /** Without the removed keys, the table is what the retained rows list. */
  lemma RetainedAre(rows: seq<Entry>, n: nat, remove: seq<Id>, cutoff: nat, limit: nat, before: map<Id, Row>, after: map<Id, Row>)
    requires Lists(rows, before) && Chosen(rows, n, remove, cutoff, limit)
    requires forall k :: k in after <==> k in before && !Removed(remove, k)
    requires forall k :: k in after ==> after[k] == before[k]
    ensures Lists(rows[..n], after)
  {
    forall i | 0 <= i < |rows| ensures Removed(remove, rows[i].key) <==> i >= n {
      if i >= n {
        assert remove[i - n] == rows[i].key;
      }
    }
    forall k | k in after ensures HasKey(rows[..n], k) {
      var i :| 0 <= i < |rows| && rows[i].key == k;
      assert rows[..n][i].key == k;
    }
  }

  lemma RetainedUnexpired(rows: seq<Entry>, n: nat, remove: seq<Id>, cutoff: nat, limit: nat, before: map<Id, Row>, after: map<Id, Row>)
    requires Lists(rows, before) && Chosen(rows, n, remove, cutoff, limit) && Lists(rows[..n], after)
    ensures KeptAreUnexpired(before, after, cutoff)
  {
    forall k | k in after ensures k in before && after[k] == before[k] && Unexpired(before[k], cutoff) {
      var i :| 0 <= i < |rows[..n]| && rows[..n][i].key == k;
      assert rows[i].key == k;
    }
  }

  /** A row that is dropped stands behind all that are retained. */
  lemma DroppedBehind(rows: seq<Entry>, n: nat, remove: seq<Id>, cutoff: nat, limit: nat, i: nat, j: nat)
    requires NewestFirst(rows) && Chosen(rows, n, remove, cutoff, limit) && j < n <= i < |rows|
    ensures Rank(rows[i].row) <= Rank(rows[j].row) && (Unexpired(rows[i].row, cutoff) ==> n == limit)
  {
    assert Rank(rows[n].row) >= Rank(rows[i].row);
  }

  /** Where a dropped row and a kept one stand in the list. */
  lemma Behind(rows: seq<Entry>, n: nat, before: map<Id, Row>, after: map<Id, Row>, d: Id, k: Id)
    returns (i: nat, j: nat)
    requires n <= |rows| && Lists(rows, before) && Lists(rows[..n], after)
    requires d in before && d !in after && k in after
    ensures j < n <= i < |rows| && rows[i] == Entry(d, before[d]) && rows[j] == Entry(k, after[k])
  {
    i := Place(rows, before, d);
    j := Place(rows[..n], after, k);
    assert forall m :: 0 <= m < n ==> rows[..n][m] == rows[m];
  }

  lemma Place(rows: seq<Entry>, table: map<Id, Row>, key: Id) returns (i: nat)
    requires Lists(rows, table) && key in table
    ensures i < |rows| && rows[i] == Entry(key, table[key])
  {
    assert HasKey(rows, key);
    i :| i < |rows| && rows[i].key == key;
  }

  lemma DroppedRank(rows: seq<Entry>, n: nat, remove: seq<Id>, cutoff: nat, limit: nat, before: map<Id, Row>, after: map<Id, Row>,
                    d: Id, k: Id)
    requires NewestFirst(rows) && Chosen(rows, n, remove, cutoff, limit) && Lists(rows, before) && Lists(rows[..n], after)
    requires d in before && d !in after && k in after
    ensures Rank(before[d]) <= Rank(after[k])
  {
    var i, j := Behind(rows, n, before, after, d, k);
    DroppedBehind(rows, n, remove, cutoff, limit, i, j);
  }

  lemma DroppedFull(rows: seq<Entry>, n: nat, remove: seq<Id>, cutoff: nat, limit: nat, before: map<Id, Row>, after: map<Id, Row>,
                    d: Id)
    requires NewestFirst(rows) && Chosen(rows, n, remove, cutoff, limit) && Lists(rows, before) && Lists(rows[..n], after)
    requires d in before && d !in after && Unexpired(before[d], cutoff)
    ensures n == limit
  {
    var at := Place(rows, before, d);
    assert forall m :: 0 <= m < n ==> rows[..n][m] == rows[m];
    assert Rank(rows[n].row) >= Rank(rows[at].row);
  }

  lemma DroppedOk(rows: seq<Entry>, n: nat, remove: seq<Id>, cutoff: nat, limit: nat, before: map<Id, Row>, after: map<Id, Row>,
                  d: Id)
    requires NewestFirst(rows) && Chosen(rows, n, remove, cutoff, limit) && Lists(rows, before) && Lists(rows[..n], after)
    requires |after| == n && d in before
    ensures DropOk(before, after, cutoff, limit, d)
  {
    if d !in after && Unexpired(before[d], cutoff) {
      DroppedFull(rows, n, remove, cutoff, limit, before, after, d);
      forall k | k in after ensures Rank(before[d]) <= Rank(after[k]) {
        DroppedRank(rows, n, remove, cutoff, limit, before, after, d, k);
      }
    }
  }

  class Persistence {
    var table: map<Id, Row>

    constructor (rows: map<Id, Row>)
      ensures table == rows
    {
      table := rows;
    }

    /** `save_session`: nothing is written when it fails. */
    method SaveSession(id: Id, session: Stored, works: bool)
      modifies this
      ensures table == if works then old(table)[id := Some(session)] else old(table)
    {
      if works {
        table := table[id := Some(session)];
      }
    }

    /** `remove_session`: nothing is removed when it fails. */
    method RemoveSession(id: Id, works: bool)
      modifies this
      ensures table == if works then old(table) - {id} else old(table)
    {
      if works {
        table := table - {id};
      }
    }

    method RemoveAll(remove: seq<Id>)
      modifies this
      ensures forall k :: k in table <==> k in old(table) && !Removed(remove, k)
      ensures forall k :: k in table ==> table[k] == old(table)[k]
    {
      for i := 0 to |remove|
        invariant forall k :: k in table <==> k in old(table) && !Removed(remove[..i], k)
        invariant forall k :: k in table ==> table[k] == old(table)[k]
      {
        forall k ensures Removed(remove[..i + 1], k) <==> Removed(remove[..i], k) || k == remove[i] {
          if Removed(remove[..i], k) {
            var j :| 0 <= j < i && remove[..i][j] == k;
            assert remove[..i + 1][j] == k;
          }
          assert remove[..i + 1][i] == remove[i];
        }
        table := table - {remove[i]};
      }
      assert remove[..|remove|] == remove;
    }

    /** Returns how many rows went. */
    method PruneSessionsWithLimit(now: nat, limit: nat) returns (removed: nat)
      modifies this
      ensures Pruned(old(table), table, Cutoff(now), limit)
      ensures removed + |table| == |old(table)|
    {
      var cutoff := Cutoff(now);
      var rows := ReadSorted(table);
      var remove, kept := Choose(rows, cutoff, limit);
      RemoveAll(remove);
      RetainedAre(rows, kept, remove, cutoff, limit, old(table), table);
      ListSize(rows, old(table));
      ListSize(rows[..kept], table);
      RetainedUnexpired(rows, kept, remove, cutoff, limit, old(table), table);
      forall d | d in old(table) ensures DropOk(old(table), table, cutoff, limit, d) {
        DroppedOk(rows, kept, remove, cutoff, limit, old(table), table, d);
      }
      removed := |remove|;
    }

    method PruneSessions(now: nat) returns (removed: nat)
      modifies this
      ensures Pruned(old(table), table, Cutoff(now), MAX_STORED_SESSIONS) && removed + |table| == |old(table)|
    {
      removed := PruneSessionsWithLimit(now, MAX_STORED_SESSIONS);
    }
  }
}
