/**
 The `distributed_locks` table and the three database operations of
 pkg/server/persistence/lock.go.  A table is the sequence of its rows in primary-key
 order, soft-deleted rows included.  Instants are integers on one clock.
 */
module LockTable {
  import opened Wrappers

  datatype Row = Row(key: string, owner: string, expiresAt: int, deleted: bool)

  datatype Outcome =
    | Acquired
    | Held(owner: string, until: int)
    | UniqueViolation
    | DatabaseError

  /** What a client can learn about a key: who holds it, and until when. */
  datatype Lease = Lease(owner: string, expiresAt: int)

  ghost predicate UniqueKeys(rows: seq<Row>) {
    forall i, j :: 0 <= i < j < |rows| ==> rows[i].key != rows[j].key
  }

  /** The row `First` returns for a key, soft-deleted rows included; `|rows|` if there is none. */
  function IndexOfKey(rows: seq<Row>, key: string): (i: nat)
    ensures i <= |rows|
    ensures i < |rows| ==> rows[i].key == key
    ensures forall j :: 0 <= j < i ==> rows[j].key != key
  {
    if rows == [] || rows[0].key == key then 0 else 1 + IndexOfKey(rows[1..], key)
  }

  /** The hard delete of cleanupExpiredLocks, which looks at soft-deleted rows as well. */
  function DeleteExpired(rows: seq<Row>, now: int): seq<Row>
  {
    if rows == [] then []
    else if rows[0].expiresAt < now then DeleteExpired(rows[1..], now)
    else [rows[0]] + DeleteExpired(rows[1..], now)
  }

  /** An insert is refused by the unique index on `key` whatever the state of the other row. */
  function Insert(rows: seq<Row>, row: Row): (r: Option<seq<Row>>)
    ensures r.Some? <==> forall other :: other in rows ==> other.key != row.key
  {
    var i := IndexOfKey(rows, row.key);
    if i < |rows| then
      assert rows[i] in rows;
      None
    else Some(rows + [row])
  }

  /** The soft delete of ReleaseLock: only live rows of that key and owner are touched. */
  function SoftDelete(rows: seq<Row>, key: string, owner: string): (r: seq<Row>)
    ensures |r| == |rows|
  {
    seq(|rows|, i requires 0 <= i < |rows| =>
      if rows[i].key == key && rows[i].owner == owner then rows[i].(deleted := true) else rows[i])
  }

  /** The transaction of AcquireLock.  A failing statement rolls everything back. */
  function Transact(rows: seq<Row>, key: string, owner: string, expiresAt: int, now: int, fault: bool)
    : (result: (seq<Row>, Outcome))
  {
    var lock := Row(key, owner, expiresAt, false);
    var i := IndexOfKey(rows, key);
    if fault then (rows, DatabaseError)
    else if i == |rows| then Commit(rows, Insert(rows, lock))
    else if rows[i].deleted then Commit(rows, Insert(rows[..i] + rows[i + 1..], lock))
    else if rows[i].expiresAt < now then
      (rows[i := rows[i].(owner := owner, expiresAt := expiresAt)], Acquired)
    else if rows[i].owner == owner then
      (rows[i := rows[i].(expiresAt := expiresAt)], Acquired)
    else (rows, Held(rows[i].owner, rows[i].expiresAt))
  }

  function Commit(before: seq<Row>, inserted: Option<seq<Row>>): (seq<Row>, Outcome) {
    match inserted
    case None => (before, UniqueViolation)
    case Some(after) => (after, Acquired)
  }

  // The view of one key: soft-deleted rows never show, expired rows only in `LiveLease`.

  function LiveLease(rows: seq<Row>, key: string): Option<Lease> {
    var i := IndexOfKey(rows, key);
    if i < |rows| && !rows[i].deleted then Some(Lease(rows[i].owner, rows[i].expiresAt)) else None
  }

  function View(rows: seq<Row>, now: int, key: string): Option<Lease> {
    Unexpired(LiveLease(rows, key), now)
  }

  function Unexpired(lease: Option<Lease>, now: int): Option<Lease> {
    if lease.Some? && now <= lease.value.expiresAt then lease else None
  }

  lemma IndexIsUnique(rows: seq<Row>, key: string, i: nat)
    requires UniqueKeys(rows) && i < |rows| && rows[i].key == key
    ensures IndexOfKey(rows, key) == i
  {
  }

  lemma MemberHasIndex(rows: seq<Row>, row: Row) returns (i: nat)
    requires UniqueKeys(rows) && row in rows
    ensures i < |rows| && rows[i] == row && i == IndexOfKey(rows, row.key)
  {
    i :| 0 <= i < |rows| && rows[i] == row;
    IndexIsUnique(rows, row.key, i);
  }

  /** With unique keys a row's position follows from membership alone. */
  lemma LiveLeaseIff(rows: seq<Row>, key: string, lease: Lease)
    requires UniqueKeys(rows)
    ensures LiveLease(rows, key) == Some(lease) <==> Row(key, lease.owner, lease.expiresAt, false) in rows
  {
    var row := Row(key, lease.owner, lease.expiresAt, false);
    if row in rows {
      var _ := MemberHasIndex(rows, row);
    }
  }

  /** A cleanup keeps a row, live or soft-deleted, just when its expiry has not passed. */
  lemma {:induction false} DeleteExpiredKeeps(rows: seq<Row>, now: int)
    ensures forall r :: r in DeleteExpired(rows, now) <==> r in rows && now <= r.expiresAt
  {
    if rows != [] {
      DeleteExpiredKeeps(rows[1..], now);
      assert rows == [rows[0]] + rows[1..];
    }
  }

  lemma {:induction false} DeleteExpiredKeepsUnique(rows: seq<Row>, now: int)
    requires UniqueKeys(rows)
    ensures UniqueKeys(DeleteExpired(rows, now))
  {
    if rows != [] {
      var tail := DeleteExpired(rows[1..], now);
      DeleteExpiredKeepsUnique(rows[1..], now);
      DeleteExpiredKeeps(rows[1..], now);
      forall j | 0 <= j < |tail| ensures tail[j].key != rows[0].key {
        assert tail[j] in rows[1..];
      }
    }
  }

  /** A cleanup at `t` leaves what any later instant can see of any key unchanged. */
  lemma CleanupIsInvisible(rows: seq<Row>, t: int, now: int, key: string)
    requires UniqueKeys(rows) && t <= now
    ensures View(DeleteExpired(rows, t), now, key) == View(rows, now, key)
  {
    var kept := DeleteExpired(rows, t);
    DeleteExpiredKeeps(rows, t);
    DeleteExpiredKeepsUnique(rows, t);
    if View(kept, now, key).Some? {
      LiveLeaseIff(kept, key, View(kept, now, key).value);
      LiveLeaseIff(rows, key, View(kept, now, key).value);
    }
    if View(rows, now, key).Some? {
      LiveLeaseIff(kept, key, View(rows, now, key).value);
      LiveLeaseIff(rows, key, View(rows, now, key).value);
    }
  }

  /** Release frees the key for everyone if the caller held it, and is a no-op otherwise. */
  lemma ReleaseEffect(rows: seq<Row>, key: string, owner: string, k: string)
    requires UniqueKeys(rows)
    ensures UniqueKeys(SoftDelete(rows, key, owner))
    ensures LiveLease(SoftDelete(rows, key, owner), k) ==
            if k == key && LiveLease(rows, k).Some? && LiveLease(rows, k).value.owner == owner then None
            else LiveLease(rows, k)
  {
    var after := SoftDelete(rows, key, owner);
    var i := IndexOfKey(rows, k);
    if i < |rows| {
      IndexIsUnique(after, k, i);
    } else {
      assert IndexOfKey(after, k) == |rows|;
    }
  }

  lemma ReleaseWithoutLeaseIsNoOp(rows: seq<Row>, key: string, owner: string)
    requires UniqueKeys(rows)
    requires LiveLease(rows, key).None? || LiveLease(rows, key).value.owner != owner
    ensures SoftDelete(rows, key, owner) == rows
  {
    forall i | 0 <= i < |rows| ensures SoftDelete(rows, key, owner)[i] == rows[i] {
      if rows[i].key == key {
        IndexIsUnique(rows, key, i);
        assert rows[i] in rows;
      }
    }
  }

  /** The unique index can never refuse the transaction, and the table keeps one row per key. */
  lemma TransactKeepsUnique(rows: seq<Row>, key: string, owner: string, expiresAt: int, now: int, fault: bool)
    requires UniqueKeys(rows)
    ensures UniqueKeys(Transact(rows, key, owner, expiresAt, now, fault).0)
    ensures !Transact(rows, key, owner, expiresAt, now, fault).1.UniqueViolation?
  {
    var i := IndexOfKey(rows, key);
    if i < |rows| {
      var rest := rows[..i] + rows[i + 1..];
      forall j | 0 <= j < |rest| ensures rest[j].key != key {
        assert rest[j] == if j < i then rows[j] else rows[j + 1];
      }
    }
  }

  /** Exactly when the transaction wins, and what it leaves for every key. */
  lemma TransactEffect(rows: seq<Row>, key: string, owner: string, expiresAt: int, now: int, fault: bool, k: string)
    requires UniqueKeys(rows)
    ensures var (after, outcome) := Transact(rows, key, owner, expiresAt, now, fault);
            var seen := View(rows, now, key);
            && (outcome == Acquired <==> !fault && (seen.Some? ==> seen.value.owner == owner))
            && (outcome != Acquired ==> after == rows)
            && (fault ==> outcome == DatabaseError)
            && (outcome != Acquired && !fault ==> outcome == Held(seen.value.owner, seen.value.expiresAt))
            && LiveLease(after, k) ==
               if outcome == Acquired && k == key then Some(Lease(owner, expiresAt)) else LiveLease(rows, k)
  {
    TransactKeepsUnique(rows, key, owner, expiresAt, now, fault);
    var (after, outcome) := Transact(rows, key, owner, expiresAt, now, fault);
    if outcome == Acquired {
      assert Row(key, owner, expiresAt, false) in after by {
        var i := IndexOfKey(rows, key);
        if i < |rows| && !rows[i].deleted {
          assert after[i] == Row(key, owner, expiresAt, false);
        } else {
          assert after[|after| - 1] == Row(key, owner, expiresAt, false);
        }
      }
      LiveLeaseIff(after, key, Lease(owner, expiresAt));
      if k != key {
        OtherRowsSurvive(rows, key, owner, expiresAt, now, k);
      }
    }
  }

  /** A transaction on one key leaves the rows of all other keys as they are. */
  lemma OtherRowsStay(rows: seq<Row>, key: string, owner: string, expiresAt: int, now: int, fault: bool, r: Row)
    requires r.key != key
    ensures r in Transact(rows, key, owner, expiresAt, now, fault).0 <==> r in rows
  {
    var after := Transact(rows, key, owner, expiresAt, now, fault).0;
    var i := IndexOfKey(rows, key);
    if i < |rows| {
      var rest := rows[..i] + rows[i + 1..];
      assert rows == rows[..i] + [rows[i]] + rows[i + 1..];
      assert r in rest <==> r in rows;
      if !rows[i].deleted && after != rows {
        assert after == rows[..i] + [after[i]] + rows[i + 1..];
      }
    }
  }

  /** A transaction only ever adds its own lease. */
  lemma NewRowIsTheLease(rows: seq<Row>, key: string, owner: string, expiresAt: int, now: int, fault: bool, r: Row)
    requires r in Transact(rows, key, owner, expiresAt, now, fault).0
    ensures r in rows || r == Row(key, owner, expiresAt, false)
  {
    var after := Transact(rows, key, owner, expiresAt, now, fault).0;
    var k :| 0 <= k < |after| && after[k] == r;
    var i := IndexOfKey(rows, key);
    if i < |rows| {
      var rest := rows[..i] + rows[i + 1..];
      assert forall j :: 0 <= j < |rest| ==> rest[j] == rows[if j < i then j else j + 1];
    }
  }

  lemma OtherRowsSurvive(rows: seq<Row>, key: string, owner: string, expiresAt: int, now: int, k: string)
    requires UniqueKeys(rows) && k != key
    ensures LiveLease(Transact(rows, key, owner, expiresAt, now, false).0, k) == LiveLease(rows, k)
  {
    var after := Transact(rows, key, owner, expiresAt, now, false).0;
    TransactKeepsUnique(rows, key, owner, expiresAt, now, false);
    forall r: Row | r.key == k ensures r in after <==> r in rows {
      OtherRowsStay(rows, key, owner, expiresAt, now, false, r);
    }
    if LiveLease(after, k).Some? {
      LiveLeaseIff(after, k, LiveLease(after, k).value);
      LiveLeaseIff(rows, k, LiveLease(after, k).value);
    }
    if LiveLease(rows, k).Some? {
      LiveLeaseIff(after, k, LiveLease(rows, k).value);
      LiveLeaseIff(rows, k, LiveLease(rows, k).value);
    }
  }

  /** An acquire at `now` cannot tell whether a cleanup ran at an earlier `t`. */
  lemma CleanupIsAStutter(rows: seq<Row>, t: int, key: string, owner: string, expiresAt: int, now: int, fault: bool)
    requires UniqueKeys(rows) && t <= now
    ensures var (plain, outcome) := Transact(rows, key, owner, expiresAt, now, fault);
            var (swept, outcome') := Transact(DeleteExpired(rows, t), key, owner, expiresAt, now, fault);
            && outcome' == outcome
            && (outcome == Acquired ==> LiveLease(swept, key) == LiveLease(plain, key))
            && forall k :: View(swept, now, k) == View(plain, now, k)
  {
    var kept := DeleteExpired(rows, t);
    DeleteExpiredKeepsUnique(rows, t);
    CleanupIsInvisible(rows, t, now, key);
    TransactEffect(rows, key, owner, expiresAt, now, fault, key);
    TransactEffect(kept, key, owner, expiresAt, now, fault, key);
    forall k
      ensures View(Transact(kept, key, owner, expiresAt, now, fault).0, now, k) ==
              View(Transact(rows, key, owner, expiresAt, now, fault).0, now, k)
    {
      CleanupIsInvisible(rows, t, now, k);
      TransactEffect(rows, key, owner, expiresAt, now, fault, k);
      TransactEffect(kept, key, owner, expiresAt, now, fault, k);
    }
  }

  /** Which database calls of one AcquireLock fail. */
  datatype Faults = Faults(cleanup: bool, transaction: bool)

  /** A whole AcquireLock that nobody interferes with: cleanup at `swept`, transaction at `now`. */
  function Acquire(rows: seq<Row>, key: string, lease: Lease, swept: int, now: int, faults: Faults)
    : (seq<Row>, Outcome)
  {
    if faults.cleanup then (rows, DatabaseError)
    else Transact(DeleteExpired(rows, swept), key, lease.owner, lease.expiresAt, now, faults.transaction)
  }

  /** What it promises, in terms of the table it started from: the cleanup never shows. */
  lemma AcquireEffect(rows: seq<Row>, key: string, lease: Lease, swept: int, now: int, faults: Faults, k: string)
    requires UniqueKeys(rows) && swept <= now
    ensures var (after, outcome) := Acquire(rows, key, lease, swept, now, faults);
            var seen := View(rows, now, key);
            && (outcome == Acquired <==>
                !faults.cleanup && !faults.transaction && (seen.Some? ==> seen.value.owner == lease.owner))
            && (faults.cleanup || faults.transaction ==> outcome == DatabaseError)
            && (faults.cleanup ==> after == rows)
            && (outcome == Acquired ==> LiveLease(after, key) == Some(lease))
            && (!(outcome == Acquired && k == key) ==> View(after, now, k) == View(rows, now, k))
  {
    var kept := DeleteExpired(rows, swept);
    DeleteExpiredKeepsUnique(rows, swept);
    CleanupIsInvisible(rows, swept, now, key);
    CleanupIsInvisible(rows, swept, now, k);
    TransactEffect(kept, key, lease.owner, lease.expiresAt, now, faults.transaction, key);
    TransactEffect(kept, key, lease.owner, lease.expiresAt, now, faults.transaction, k);
  }

  /**
   What an acquire leaves on disk: of every other key just the rows not expired at the sweep,
   soft-deleted ones included, and of its own key no row that was expired, but for its lease.
   */
  lemma AcquireSweeps(rows: seq<Row>, key: string, lease: Lease, swept: int, now: int, faults: Faults, r: Row)
    requires !faults.cleanup
    ensures var after := Acquire(rows, key, lease, swept, now, faults).0;
            && (r.key != key ==> (r in after <==> r in rows && swept <= r.expiresAt))
            && (r.key == key && r in after ==>
                (r in rows && swept <= r.expiresAt) || r == Row(key, lease.owner, lease.expiresAt, false))
  {
    var kept := DeleteExpired(rows, swept);
    DeleteExpiredKeeps(rows, swept);
    if r.key != key {
      OtherRowsStay(kept, key, lease.owner, lease.expiresAt, now, faults.transaction, r);
    } else if r in Acquire(rows, key, lease, swept, now, faults).0 {
      NewRowIsTheLease(kept, key, lease.owner, lease.expiresAt, now, faults.transaction, r);
    }
  }

  /** The indexer's lock methods, run without interference; interleavings are in `LockRuns`. */
  class LockIndexer {
    var rows: seq<Row>

    ghost predicate Valid()
      reads this
    {
      UniqueKeys(rows)
    }

    constructor ()
      ensures Valid() && rows == []
    {
      rows := [];
    }

    method CleanupExpiredLocks(now: int, fault: bool) returns (ok: bool)
      requires Valid()
      modifies this
      ensures Valid() && ok == !fault
      ensures rows == if fault then old(rows) else DeleteExpired(old(rows), now)
    {
      if fault {
        return false;
      }
      DeleteExpiredKeepsUnique(rows, now);
      rows := DeleteExpired(rows, now);
      return true;
    }

    /** The transaction body, row by row as the source updates them. */
    method RunTransaction(key: string, owner: string, expiresAt: int, now: int, fault: bool)
      returns (outcome: Outcome)
      requires Valid()
      modifies this
      ensures Valid()
      ensures rows == Transact(old(rows), key, owner, expiresAt, now, fault).0
      ensures outcome == Transact(old(rows), key, owner, expiresAt, now, fault).1
    {
      TransactKeepsUnique(rows, key, owner, expiresAt, now, fault);
      if fault {
        return DatabaseError;
      }
      var lock := Row(key, owner, expiresAt, false);
      var i := IndexOfKey(rows, key);
      if i == |rows| || rows[i].deleted {
        var remaining := if i == |rows| then rows else rows[..i] + rows[i + 1..];
        var inserted := Insert(remaining, lock);
        if inserted.None? {
          return UniqueViolation;
        }
        rows := inserted.value;
        return Acquired;
      }
      var existing := rows[i];
      if existing.expiresAt < now {
        existing := existing.(owner := owner, expiresAt := expiresAt);
      } else if existing.owner == owner {
        existing := existing.(expiresAt := expiresAt);
      } else {
        return Held(existing.owner, existing.expiresAt);
      }
      rows := rows[i := existing];
      return Acquired;
    }

    /** The clock is read three times: for the sweep, for the new expiry, inside the transaction. */
    method AcquireLock(key: string, owner: string, ttl: int, swept: int, stamped: int, now: int, faults: Faults)
      returns (acquired: bool)
      requires Valid() && swept <= stamped <= now
      modifies this
      ensures Valid()
      ensures rows == Acquire(old(rows), key, Lease(owner, stamped + ttl), swept, now, faults).0
      ensures acquired <==> Acquire(old(rows), key, Lease(owner, stamped + ttl), swept, now, faults).1 == Acquired
    {
      var ok := CleanupExpiredLocks(swept, faults.cleanup);
      if !ok {
        return false;
      }
      var outcome := RunTransaction(key, owner, stamped + ttl, now, faults.transaction);
      return outcome == Acquired;
    }

    method ReleaseLock(key: string, owner: string, fault: bool) returns (ok: bool)
      requires Valid()
      modifies this
      ensures Valid() && ok == !fault
      ensures fault ==> rows == old(rows)
      ensures !fault ==> rows == SoftDelete(old(rows), key, owner)
    {
      if fault {
        return false;
      }
      ReleaseEffect(rows, key, owner, key);
      rows := SoftDelete(rows, key, owner);
      return true;
    }
  }
}
