/** The batched retention delete: bounded batches until a short read, an error or a
    cancellation. */
module BatchedPrune {
  import Division

  datatype Row = Row(id: nat, at: int)

  ghost function Stale(rows: set<Row>, cutoff: int): set<Row> {
    set r | r in rows && r.at < cutoff
  }

  ghost function Fresh(rows: set<Row>, cutoff: int): set<Row> {
    set r | r in rows && r.at >= cutoff
  }

  /** How one iteration goes: normally, cancelled before its batch, failed by the
      database, or deleted without a reported count. */
  datatype Turn = Normal | Cancelled | Failing | Uncounted

  datatype End = Drained | CancelledAt | FailedAt | CountLost

  class Table {
    var rows: set<Row>

    constructor (rows: set<Row>)
      ensures this.rows == rows
    {
      this.rows := rows;
    }

    /** DELETE ... WHERE ctid IN (SELECT ... LIMIT n): some `limit` stale rows, or all
        of them when there are fewer. */
    method DeleteBatch(cutoff: int, limit: nat) returns (n: nat)
      modifies this
      ensures rows <= old(rows) && Fresh(rows, cutoff) == Fresh(old(rows), cutoff)
      ensures |Stale(rows, cutoff)| + n == |Stale(old(rows), cutoff)|
      ensures n == if |Stale(old(rows), cutoff)| < limit then |Stale(old(rows), cutoff)| else limit
    {
      n := 0;
      while n < limit && exists r <- rows :: r.at < cutoff
        invariant n <= limit && rows <= old(rows)
        invariant Fresh(rows, cutoff) == Fresh(old(rows), cutoff)
        invariant |Stale(rows, cutoff)| + n == |Stale(old(rows), cutoff)|
      {
        var r :| r in rows && r.at < cutoff;
        assert Stale(rows - {r}, cutoff) == Stale(rows, cutoff) - {r};
        assert Fresh(rows - {r}, cutoff) == Fresh(rows, cutoff);
        rows := rows - {r};
        n := n + 1;
      }
      if n < limit {
        assert Stale(rows, cutoff) == {};
      }
    }
  }

  /** Runs batches. `turns` scripts the faults; past its end every turn is normal. */
  method RunBatchedPrune(table: Table, batchSize: int, cutoff: int, turns: seq<Turn>)
    returns (total: nat, batches: nat, end: End)
    modifies table
    ensures batchSize <= 0 ==> total == 0 && table.rows == old(table.rows)
    ensures table.rows <= old(table.rows) && Fresh(table.rows, cutoff) == Fresh(old(table.rows), cutoff)
    // drained: everything stale is gone, counted, in the exact number of batches
    ensures batchSize > 0 && end.Drained? ==>
              && Stale(table.rows, cutoff) == {}
              && total == |Stale(old(table.rows), cutoff)|
              && batches == total / batchSize + 1
    // stopped early: the total is what the completed batches deleted
    ensures end.CancelledAt? || end.FailedAt? ==>
              && total + |Stale(table.rows, cutoff)| == |Stale(old(table.rows), cutoff)|
              && total == batches * batchSize
    ensures end.CountLost? ==> total + |Stale(table.rows, cutoff)| <= |Stale(old(table.rows), cutoff)|
    ensures batchSize > 0 && (forall i :: 0 <= i < |turns| ==> turns[i].Normal?) ==> end.Drained?
  {
    total, batches := 0, 0;
    if batchSize <= 0 {
      return 0, 0, Drained;
    }
    ghost var stale := |Stale(table.rows, cutoff)|;
    while true
      invariant table.rows <= old(table.rows) && Fresh(table.rows, cutoff) == Fresh(old(table.rows), cutoff)
      invariant total == batches * batchSize && total + |Stale(table.rows, cutoff)| == stale
      decreases |Stale(table.rows, cutoff)|
    {
      var turn := if batches < |turns| then turns[batches] else Normal;
      if turn.Cancelled? {
        return total, batches, CancelledAt;
      }
      if turn.Failing? {
        return total, batches, FailedAt;
      }
      var n := table.DeleteBatch(cutoff, batchSize);
      if turn.Uncounted? {
        return total, batches, CountLost;
      }
      total := total + n;
      if n < batchSize {
        Division.QuotientIsUnique(batches, batchSize, n);
        batches := batches + 1;
        return total, batches, Drained;
      }
      batches := batches + 1;
    }
  }
}
