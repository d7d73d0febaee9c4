/**
 The sweeper (_requeue_stale_pending_inspections in app/worker/tasks.py): the ledger of jobs
 is scanned, and every abandoned one gets a new message. Times are seconds.
 */
module Sweeper {
  import opened Delivery

  datatype JobRow = JobRow(id: nat, status: JobStatus, createdAt: nat, updatedAt: nat)

  datatype QueuedMsg = QueuedMsg(id: nat, msg: Msg)

  /** The condition of the query. */
  predicate Abandoned(row: JobRow, now: nat) {
    || (row.status == Pending && row.createdAt < now - PENDING_CUTOFF)
    || (row.status == Processing && row.updatedAt < now - PROCESSING_CUTOFF)
  }

  /** One plain message for every abandoned job of the ledger, in its order. */
  function Requeued(rows: seq<JobRow>, now: nat): seq<QueuedMsg> {
    if rows == [] then []
    else (if Abandoned(rows[0], now) then [QueuedMsg(rows[0].id, Msg(false, 0))] else []) + Requeued(rows[1..], now)
  }

  lemma {:induction false} RequeuedStep(rows: seq<JobRow>, i: nat, now: nat)
    requires i < |rows|
    ensures Requeued(rows[..i + 1], now)
              == Requeued(rows[..i], now) + (if Abandoned(rows[i], now) then [QueuedMsg(rows[i].id, Msg(false, 0))] else [])
    decreases i
  {
    if i > 0 {
      RequeuedStep(rows[1..], i - 1, now);
      assert rows[..i + 1][1..] == rows[1..][..i] && rows[..i][1..] == rows[1..][..i - 1];
    } else {
      assert rows[..1][1..] == [];
    }
  }

  class Broker {
    var queue: seq<QueuedMsg>

    method SweepStaleInspections(rows: seq<JobRow>, now: nat) returns (count: nat)
      modifies this
      ensures queue == old(queue) + Requeued(rows, now)
      ensures count == |Requeued(rows, now)|
    {
      count := 0;
      for i := 0 to |rows|
        invariant queue == old(queue) + Requeued(rows[..i], now)
        invariant count == |Requeued(rows[..i], now)|
      {
        RequeuedStep(rows, i, now);
        var row := rows[i];
        if || (row.status == Pending && row.createdAt < now - PENDING_CUTOFF)
           || (row.status == Processing && row.updatedAt < now - PROCESSING_CUTOFF) {
          queue := queue + [QueuedMsg(row.id, Msg(false, 0))];
          count := count + 1;
        }
      }
      assert rows[..|rows|] == rows;
    }
  }

  /** The ledger has one row for each job. */
  ghost predicate Keyed(rows: seq<JobRow>) {
    forall i, j :: 0 <= i < j < |rows| ==> rows[i].id != rows[j].id
  }

  /** Exactly the abandoned jobs get a message. */
  lemma {:induction false} RequeuedIffAbandoned(rows: seq<JobRow>, now: nat, id: nat)
    ensures (exists q :: q in Requeued(rows, now) && q.id == id) <==> (exists r :: r in rows && r.id == id && Abandoned(r, now))
  {
    if rows == [] {
    } else {
      RequeuedIffAbandoned(rows[1..], now, id);
      var head := QueuedMsg(rows[0].id, Msg(false, 0));
      if Abandoned(rows[0], now) {
        assert head in Requeued(rows, now);
      }
      assert forall q :: q in Requeued(rows[1..], now) ==> q in Requeued(rows, now);
      assert forall r :: r in rows[1..] ==> r in rows;
      if q :| q in Requeued(rows, now) && q.id == id && q !in Requeued(rows[1..], now) {
        assert q == head && rows[0] in rows;
      }
      if r :| r in rows && r.id == id && Abandoned(r, now) && r !in rows[1..] {
        assert r == rows[0];
      }
    }
  }

  /** A job gets a message exactly if it has been waiting for more than two minutes since it was accepted, or at work for
      more than eight since it was last touched. */
  lemma SweptIfNeglected(rows: seq<JobRow>, now: nat, id: nat)
    ensures (exists q :: q in Requeued(rows, now) && q.id == id) <==>
              exists r :: r in rows && r.id == id
                && ((r.status == Pending && r.createdAt + 120 < now) || (r.status == Processing && r.updatedAt + 480 < now))
    ensures forall q :: q in Requeued(rows, now) ==> q.msg == Msg(false, 0)
  {
    RequeuedIffAbandoned(rows, now, id);
    RequeuedIsPlain(rows, now);
    assert forall r: JobRow :: Abandoned(r, now) <==>
             (r.status == Pending && r.createdAt + 120 < now) || (r.status == Processing && r.updatedAt + 480 < now);
  }

  lemma {:induction false} RequeuedIsPlain(rows: seq<JobRow>, now: nat)
    ensures forall q :: q in Requeued(rows, now) ==> q.msg == Msg(false, 0)
  {
    if rows == [] {
    } else {
      RequeuedIsPlain(rows[1..], now);
    }
  }

  /** And each of them one. */
  lemma {:induction false} RequeuedOnce(rows: seq<JobRow>, now: nat)
    requires Keyed(rows)
    ensures forall i, j :: 0 <= i < j < |Requeued(rows, now)| ==> Requeued(rows, now)[i].id != Requeued(rows, now)[j].id
  {
    if rows == [] {
    } else {
      RequeuedOnce(rows[1..], now);
      var rest := Requeued(rows[1..], now);
      if Abandoned(rows[0], now) {
        forall j | 0 <= j < |rest|
          ensures rest[j].id != rows[0].id
        {
          RequeuedIffAbandoned(rows[1..], now, rest[j].id);
          assert rest[j] in rest;
          var r :| r in rows[1..] && r.id == rest[j].id;
          var k :| 0 <= k < |rows[1..]| && rows[1..][k] == r;
          assert rows[k + 1] == r;
        }
      }
    }
  }

  /** The row of the job that a protocol state is about. */
  function RowOf(s: System, id: nat): JobRow {
    JobRow(id, s.status, s.createdAt, s.updatedAt)
  }

  /** The query of the ledger is the protocol's sweep: it publishes the message that the sweep step publishes. */
  lemma SweepStepIsTheQuery(s: System, rows: seq<JobRow>, id: nat)
    requires Keyed(rows) && RowOf(s, id) in rows
    ensures (exists q :: q in Requeued(rows, s.now) && q.id == id) <==> Stale(s)
    ensures Apply(s, Sweep).queue == if exists q :: q in Requeued(rows, s.now) && q.id == id then s.queue + multiset{Msg(false, 0)} else s.queue
  {
    RequeuedIffAbandoned(rows, s.now, id);
    forall r | r in rows && r.id == id
      ensures r == RowOf(s, id)
    {
      var i :| 0 <= i < |rows| && rows[i] == r;
      var j :| 0 <= j < |rows| && rows[j] == RowOf(s, id);
    }
  }
}
