/**
 * The batch accumulator and flush schedule of the `/upload-data` handler in
 * index.js. The handler's closure state (`bulkData`, `rowCount`) is an
 * `Uploader` object; the `data` and `end` stream events are the methods
 * `OnRow` and `OnEnd`, called one after another. The backend's bulk call is a
 * function from request body to response, and the bulk calls made so far are
 * recorded in the ghost log `sent`.
 */
module Upload {
  import opened Bulk

  class Uploader {
    /** The pending bulk-request body. */
    var bulkData: seq<Entry>
    /** Rows seen so far. */
    var rowCount: nat

    /** Every row the stream has delivered, in order. */
    ghost var rows: seq<Row>
    /** The bodies of the bulk calls made so far, in call order. */
    ghost var sent: seq<seq<Entry>>
    /** Whether the stream's `end` event has been handled. */
    ghost var ended: bool

    /** How many rows have been handed to bulk calls by `data` events: whole batches only. */
    ghost function Flushed(): nat
      reads this
    {
      Whole(|rows|)
    }

    /**
     * The pending body holds the rows beyond the last whole batch; the bulk
     * calls so far are the reference batching of the flushed rows, or of all
     * rows once the stream has ended.
     */
    ghost predicate Valid()
      reads this
    {
      rowCount == |rows| &&
      bulkData == Interleave(rows[Flushed()..]) &&
      sent == Batches(if ended then rows else rows[..Flushed()])
    }

    /** The handler's setup: `bulkData = []`, `rowCount = 0`. */
    constructor ()
      ensures Valid() && !ended
      ensures rows == [] && sent == [] && bulkData == [] && rowCount == 0
    {
      bulkData := [];
      rowCount := 0;
      rows := [];
      sent := [];
      ended := false;
    }

    /** sendBulkData: one bulk call with `batch` as body; reports the errored items. */
    method SendBulkData(batch: seq<Entry>, backend: seq<Entry> -> BulkResponse) returns (errored: seq<BulkItem>)
      modifies this`sent
      ensures sent == old(sent) + [batch]
      ensures errored == ReportedErrors(backend(batch))
    {
      sent := sent + [batch];
      var bulkResponse := backend(batch);
      errored := ReportedErrors(bulkResponse);
    }

    /**
     * The `data` event: count the row, append its directive and payload and,
     * once the body holds 2*BatchSize entries, send it and start a new one.
     */
    method OnRow(row: Row, backend: seq<Entry> -> BulkResponse) returns (errored: seq<BulkItem>)
      requires Valid() && !ended
      modifies this
      ensures Valid() && !ended
      ensures rows == old(rows) + [row] && rowCount == old(rowCount) + 1
      ensures var grown := old(bulkData) + [Directive(IndexName), Payload(row)];
              if |grown| >= 2 * BatchSize then
                sent == old(sent) + [grown] && bulkData == [] && errored == ReportedErrors(backend(grown))
              else
                sent == old(sent) && bulkData == grown && errored == []
      ensures |bulkData| < 2 * BatchSize
    {
      AppendRow(rows, row);
      rowCount := rowCount + 1;
      rows := rows + [row];
      bulkData := bulkData + [Directive(IndexName)];
      bulkData := bulkData + [Payload(row)];
      assert bulkData == old(bulkData) + Pair(row);
      errored := [];
      if |bulkData| >= BatchSize * 2 {
        errored := SendBulkData(bulkData, backend);
        bulkData := [];
      }
    }

    /** The `end` event: send a non-empty residual body once; report the row count. */
    method OnEnd(backend: seq<Entry> -> BulkResponse) returns (rowsProcessed: nat, errored: seq<BulkItem>)
      requires Valid() && !ended
      modifies this
      ensures Valid() && ended
      ensures rows == old(rows) && rowCount == old(rowCount) && bulkData == old(bulkData)
      ensures rowsProcessed == |rows|
      ensures if |old(bulkData)| > 0 then
                sent == old(sent) + [old(bulkData)] && errored == ReportedErrors(backend(old(bulkData)))
              else
                sent == old(sent) && errored == []
      ensures Flatten(sent) == Interleave(rows)
      ensures |sent| == FlushCount(|rows|)
    {
      errored := [];
      if |bulkData| > 0 {
        errored := SendBulkData(bulkData, backend);
        BatchesSnoc(rows[..Flushed()], rows[Flushed()..]);
        assert rows[..Flushed()] + rows[Flushed()..] == rows;
      } else {
        assert rows[..Flushed()] == rows;
      }
      ended := true;
      rowsProcessed := rowCount;
      BatchesFlatten(rows);
      BatchesCount(rows);
    }
  }

  /** The number of rows in whole batches among the first n. */
  function Whole(n: nat): (w: nat)
    ensures w <= n && w % BatchSize == 0 && n - w < BatchSize
  {
    n - n % BatchSize
  }

  /**
   * One more row: either it completes a batch (and every row so far is in a
   * whole batch), or the whole batches stay as they are and the pending
   * entries grow by the row's two.
   */
  lemma AppendRow(before: seq<Row>, row: Row)
    ensures var rows, w := before + [row], Whole(|before|);
            |Interleave(before[w..]) + Pair(row)| == 2 * (|before| % BatchSize + 1) &&
            if |before| % BatchSize == BatchSize - 1 then
              Whole(|rows|) == |rows| && rows[..|rows|] == rows &&
              Batches(rows) == Batches(before[..w]) + [Interleave(before[w..]) + Pair(row)]
            else
              Whole(|rows|) == w && rows[..w] == before[..w] &&
              Interleave(rows[w..]) == Interleave(before[w..]) + Pair(row)
  {
    var rows, w := before + [row], Whole(|before|);
    assert rows[w..] == before[w..] + [row];
    assert rows[w..][..|rows[w..]| - 1] == before[w..];
    assert Interleave(rows[w..]) == Interleave(before[w..]) + Pair(row);
    if |before| % BatchSize == BatchSize - 1 {
      assert rows[..w] == before[..w];
      BatchesSnoc(rows[..w], rows[w..]);
      assert rows[..w] + rows[w..] == rows;
    }
  }

  /**
   * The whole upload, with the stream's events taken in order: one `data`
   * event per row, then `end`. Reports the row count; the bulk calls made are
   * the reference batching of the input.
   */
  method UploadData(input: seq<Row>, backend: seq<Entry> -> BulkResponse)
    returns (rowsProcessed: nat, ghost bulkCalls: seq<seq<Entry>>)
    ensures rowsProcessed == |input|
    ensures bulkCalls == Batches(input)
  {
    var uploader := new Uploader();
    for i := 0 to |input|
      invariant uploader.Valid() && !uploader.ended
      invariant uploader.rows == input[..i]
    {
      var errored := uploader.OnRow(input[i], backend);
      assert input[..i + 1] == input[..i] + [input[i]];
    }
    assert input[..|input|] == input;
    var errored;
    rowsProcessed, errored := uploader.OnEnd(backend);
    bulkCalls := uploader.sent;
  }
}
