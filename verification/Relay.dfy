/** The relay's own loops over the outbox table, one relay and no concurrent updates. */
module Relay {
  import opened Events
  import opened Outbox

  ghost predicate Table(rows: seq<Row>) {
    forall i, j :: 0 <= i < j < |rows| ==> rows[i].id < rows[j].id
  }

  function Without(rows: seq<Row>, ids: set<RowId>): seq<Row> {
    if rows == [] then []
    else if rows[0].id in ids then Without(rows[1..], ids)
    else [rows[0]] + Without(rows[1..], ids)
  }

  /** Deleting the ids of the first `n` rows leaves exactly the others. */
  lemma {:induction false} WithoutPrefix(rows: seq<Row>, ids: set<RowId>, n: nat)
    requires Table(rows) && n <= |rows|
    requires forall i :: 0 <= i < |rows| ==> (rows[i].id in ids <==> i < n)
    ensures Without(rows, ids) == rows[n..]
  {
    if rows != [] {
      if n > 0 {
        WithoutPrefix(rows[1..], ids, n - 1);
        assert rows[1..][n - 1..] == rows[n..];
      } else {
        WithoutPrefix(rows[1..], ids, 0);
        assert [rows[0]] + rows[1..] == rows;
      }
    }
  }

  function IdsOf(rows: seq<Row>): set<RowId> {
    set i | 0 <= i < |rows| :: rows[i].id
  }

  lemma OneMoreId(batch: seq<Row>, n: nat)
    requires n < |batch|
    ensures IdsOf(batch[..n + 1]) == IdsOf(batch[..n]) + {batch[n].id}
  {
    var a, b := batch[..n], batch[..n + 1];
    assert b[n] == batch[n];
    forall id | id in IdsOf(a)
      ensures id in IdsOf(b)
    {
      var i :| 0 <= i < n && a[i].id == id;
      assert b[i] == a[i];
    }
    forall id | id in IdsOf(b) && id != batch[n].id
      ensures id in IdsOf(a)
    {
      var i :| 0 <= i <= n && b[i].id == id;
      assert a[i] == b[i];
    }
  }

  lemma PrefixOfPrefix(rows: seq<Row>, k: nat, n: nat)
    requires n <= k <= |rows|
    ensures rows[..k][..n] == rows[..n]
  {
  }

  lemma Further(rows: seq<Row>, d: nat, n: nat)
    requires d <= |rows| && n <= |rows| - d
    ensures rows[..d] + rows[d..][..n] == rows[..d + n]
    ensures rows[d..][n..] == rows[d + n..]
  {
  }

  function Min(a: nat, b: nat): nat {
    if a < b then a else b
  }

  /** How the environment answers one batch: whether a publisher connects and the query succeeds,
      which rows the broker confirms, whether the failed row's attempt can be noted, whether the
      commit succeeds and, if not, whether it took effect all the same. */
  datatype Conditions = Conditions(
    connects: bool, queries: bool, confirms: Row -> bool, notes: bool, commits: bool, appliedAnyway: bool)
  {
    ghost predicate Perfect() {
      connects && queries && commits && forall row :: confirms(row)
    }
  }

  /** The number of leading rows that are confirmed. */
  function Prefix(rows: seq<Row>, confirms: Row -> bool): (n: nat)
    ensures n <= |rows| && (forall i :: 0 <= i < n ==> confirms(rows[i])) && (n < |rows| ==> !confirms(rows[n]))
  {
    if rows == [] || !confirms(rows[0]) then 0 else 1 + Prefix(rows[1..], confirms)
  }

  /** What one batch does to table and broker: `confirmed` rows are published, `deleted` rows go;
      `reported` is the number returned. */
  datatype Outcome = Outcome(confirmed: nat, deleted: nat, reported: nat, ok: bool)

  function BatchOutcome(rows: seq<Row>, connected: bool, c: Conditions): (o: Outcome)
    ensures o.deleted <= o.confirmed <= Min(100, |rows|) && (o.deleted == 0 || o.deleted == o.confirmed)
    ensures o.ok ==> o.deleted == o.confirmed == o.reported == Min(100, |rows|)
    ensures forall i :: 0 <= i < o.confirmed ==> c.confirms(rows[i])
    ensures (connected || c.connects) && c.queries && o.confirmed < Min(100, |rows|) ==> !c.confirms(rows[o.confirmed])
    ensures (connected || c.connects) && c.queries && c.commits && (c.notes || o.confirmed == Min(100, |rows|)) ==>
              o.deleted == o.confirmed == o.reported
    ensures c.Perfect() ==> o.ok
  {
    var batch := rows[..Min(BATCH_SIZE, |rows|)];
    var p := Prefix(batch, c.confirms);
    if !(connected || c.connects) || !c.queries then Outcome(0, 0, 0, false)
    else if p < |batch| && !c.notes then Outcome(p, 0, 0, false)
    else if c.commits then Outcome(p, p, p, p == |batch|)
    else Outcome(p, if c.appliedAnyway then p else 0, 0, false)
  }

  class OutboxRelay {
    var connected: bool
    var rows: seq<Row>
    ghost var confirmed: seq<Row>

    ghost predicate Valid()
      reads this
    {
      Table(rows)
    }

    constructor (rows: seq<Row>)
      requires Table(rows)
      ensures Valid() && this.rows == rows && confirmed == [] && !connected
    {
      this.rows, confirmed, connected := rows, [], false;
    }

    /** Success means the broker confirmed this row. */
    method Publish(row: Row, confirms: Row -> bool) returns (ok: bool)
      modifies this`confirmed
      ensures ok == confirms(row)
      ensures confirmed == if ok then old(confirmed) + [row] else old(confirmed)
    {
      ok := confirms(row);
      if ok {
        confirmed := confirmed + [row];
      }
    }

    /** Publishes rows in order up to the first failure; returns the confirmed ids and their number. */
    method PublishBatch(batch: seq<Row>, confirms: Row -> bool) returns (published: set<RowId>, n: nat)
      modifies this`confirmed
      ensures n == Prefix(batch, confirms) && confirmed == old(confirmed) + batch[..n]
      ensures published == IdsOf(batch[..n])
    {
      published, n := {}, 0;
      while n < |batch|
        invariant n <= |batch| && confirmed == old(confirmed) + batch[..n]
        invariant Prefix(batch, confirms) == n + Prefix(batch[n..], confirms)
        invariant published == IdsOf(batch[..n])
      {
        OneMoreId(batch, n);
        assert batch[n..][1..] == batch[n + 1..];
        var ok := Publish(batch[n], confirms);
        if !ok {
          break;
        }
        published := published + {batch[n].id};
        n := n + 1;
      }
    }

    method DeletePublished(published: set<RowId>, ghost n: nat)
      requires Valid() && n <= |rows| && published == IdsOf(rows[..n])
      modifies this`rows
      ensures Valid() && rows == old(rows)[n..]
    {
      forall i | 0 <= i < |rows|
        ensures rows[i].id in published <==> i < n
      {
        assert i < n ==> rows[..n][i] == rows[i];
      }
      WithoutPrefix(rows, published, n);
      rows := Without(rows, published);
    }

    /** At most one batch: a prefix is confirmed in order, and rows are deleted only by a commit that
        covers exactly this prefix. */
    method RelayBatch(c: Conditions) returns (n: nat, ok: bool)
      requires Valid()
      modifies this
      ensures Valid() && connected == (old(connected) || c.connects)
      ensures var o := BatchOutcome(old(rows), old(connected), c);
              && n == o.reported && ok == o.ok
              && confirmed == old(confirmed) + old(rows)[..o.confirmed]
              && rows == old(rows)[o.deleted..]
    {
      n, ok := 0, false;
      if !connected {
        connected := c.connects;
        if !connected {
          return;
        }
      }
      if !c.queries {
        return;
      }
      var batch := rows[..Min(BATCH_SIZE, |rows|)];
      var published, count := PublishBatch(batch, c.confirms);
      PrefixOfPrefix(rows, |batch|, count);
      if count < |batch| && !c.notes {
        return;
      }
      if c.commits {
        DeletePublished(published, count);
        n, ok := count, count == |batch|;
      } else if c.appliedAnyway {
        DeletePublished(published, count);
      }
    }

    /** Terminates when no rows are added.  Whatever fails, rows leave the table only from the front
        and only confirmed; success means everything was confirmed in order and the table is empty,
        and there is success if nothing fails. */
    method Drain(conditions: nat -> Conditions) returns (ok: bool, ghost d: nat)
      requires Valid()
      modifies this
      ensures Valid() && GoneFromFront(old(rows), old(confirmed), rows, confirmed, d)
      ensures ok ==> d == |old(rows)| && confirmed == old(confirmed) + old(rows)
      ensures (forall i :: conditions(i).Perfect()) ==> ok
    {
      ghost var all, was := rows, confirmed;
      d := 0;
      var round := 0;
      while true
        invariant Valid() && GoneFromFront(all, was, rows, confirmed, d) && confirmed == was + all[..d]
        decreases |rows|
      {
        ghost var o := BatchOutcome(rows, connected, conditions(round));
        OneBatch(all, was, rows, confirmed, d, o);
        var n, batchOk := RelayBatch(conditions(round));
        round, d := round + 1, d + o.deleted;
        if !batchOk {
          return false, d;
        }
        if n < BATCH_SIZE {
          return true, d;
        }
      }
    }
  }

  /** `d` rows left the table from its front, all of them confirmed. */
  ghost predicate GoneFromFront(all: seq<Row>, was: seq<Row>, rows: seq<Row>, confirmed: seq<Row>, d: nat) {
    d <= |all| && rows == all[d..] && was + all[..d] <= confirmed
  }

  lemma OneBatch(all: seq<Row>, was: seq<Row>, rows: seq<Row>, confirmed: seq<Row>, d: nat, o: Outcome)
    requires GoneFromFront(all, was, rows, confirmed, d) && confirmed == was + all[..d]
    requires o.deleted <= o.confirmed <= |rows| && (o.deleted == 0 || o.deleted == o.confirmed)
    ensures GoneFromFront(all, was, rows[o.deleted..], confirmed + rows[..o.confirmed], d + o.deleted)
    ensures o.deleted == o.confirmed ==> confirmed + rows[..o.confirmed] == was + all[..d + o.deleted]
    ensures d + o.deleted == |all| ==> all[..d + o.deleted] == all
  {
    Further(all, d, o.deleted);
    Further(all, d, o.confirmed);
    assert confirmed + rows[..o.confirmed] == was + all[..d + o.confirmed];
    assert all[..d + o.deleted] <= all[..d + o.confirmed];
  }
}
