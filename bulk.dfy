/**
 * The bulk-protocol side of the `/upload-data` handler in index.js: the
 * entries a batch is made of, the backend's reply to one bulk call and the
 * filter that picks out the rejected items, and a reference definition of how
 * a row stream is cut into bulk calls.
 */
module Bulk {
  import opened Wrappers

  /** Rows per bulk call; each row contributes two entries. */
  const BatchSize: nat := 1000

  /** The index every directive names. */
  const IndexName: string := "campaigns"

  /** One decoded CSV row: header column name to raw field text. */
  type Row = map<string, string>

  /** A bulk-request body entry: `{ index: { _index } }` or a row payload. */
  datatype Entry = Directive(index: string) | Payload(row: Row)

  /** The backend's `error` object on a rejected item. */
  datatype ErrorDetail = ErrorDetail(kind: string, reason: string)

  /** The `index` part of one response item. */
  datatype IndexResult = IndexResult(status: int, error: Option<ErrorDetail>)

  /** One item of a bulk response; `index` is absent for other action kinds. */
  datatype BulkItem = BulkItem(index: Option<IndexResult>)

  /** A bulk response: the `errors` flag and the per-item results. */
  datatype BulkResponse = BulkResponse(errors: bool, items: seq<BulkItem>)

  /** `item.index && item.index.error` (an error object is always truthy). */
  predicate IsErrored(item: BulkItem) {
    item.index.Some? && item.index.value.error.Some?
  }

  /** The errored-documents filter over the response items. */
  function ErroredDocuments(items: seq<BulkItem>): (r: seq<BulkItem>)
    ensures |r| <= |items|
    ensures forall x :: x in r <==> x in items && IsErrored(x)
    decreases |items|
  {
    if items == [] then []
    else (if IsErrored(items[0]) then [items[0]] else []) + ErroredDocuments(items[1..])
  }

  /** What `sendBulkData` reports for a response: the errored items, only when the `errors` flag is set. */
  function ReportedErrors(response: BulkResponse): (r: seq<BulkItem>)
    ensures !response.errors ==> r == []
    ensures response.errors ==> forall x :: x in r <==> x in response.items && IsErrored(x)
  {
    if response.errors then ErroredDocuments(response.items) else []
  }

  /** The two entries a row contributes. */
  function Pair(row: Row): seq<Entry> {
    [Directive(IndexName), Payload(row)]
  }

  /** The entries of `rows` in input order: a directive, then the row, for each. */
  function Interleave(rows: seq<Row>): (es: seq<Entry>)
    ensures |es| == 2 * |rows|
    decreases |rows|
  {
    if rows == [] then [] else Interleave(rows[..|rows| - 1]) + Pair(rows[|rows| - 1])
  }

  /** Concatenation of batches in flush order. */
  function Flatten(batches: seq<seq<Entry>>): seq<Entry>
    decreases |batches|
  {
    if batches == [] then [] else batches[0] + Flatten(batches[1..])
  }

  /** ceil(n / BatchSize). */
  function FlushCount(n: nat): nat {
    (n + BatchSize - 1) / BatchSize
  }

  /**
   * Reference definition of the bulk calls for a whole row stream: consecutive
   * groups of BatchSize rows, the last group possibly shorter, none empty.
   */
  function Batches(rows: seq<Row>): seq<seq<Entry>>
    decreases |rows|
  {
    if rows == [] then []
    else if |rows| <= BatchSize then [Interleave(rows)]
    else [Interleave(rows[..BatchSize])] + Batches(rows[BatchSize..])
  }

  // ---------------------------------------------------------------------------
  // Properties of the errored-documents filter

  /** The filter distributes over concatenation, so it keeps the items' relative order. */
  lemma {:induction false} ErroredDocumentsAppend(a: seq<BulkItem>, b: seq<BulkItem>)
    ensures ErroredDocuments(a + b) == ErroredDocuments(a) + ErroredDocuments(b)
    decreases |a|
  {
    if a == [] {
      assert a + b == b;
    } else {
      assert (a + b)[0] == a[0];
      assert (a + b)[1..] == a[1..] + b;
      ErroredDocumentsAppend(a[1..], b);
    }
  }

  /** Nothing is dropped when every item errored, and nothing is kept when none did. */
  lemma {:induction false} ErroredDocumentsExtremes(items: seq<BulkItem>)
    ensures (forall i :: 0 <= i < |items| ==> IsErrored(items[i])) ==> ErroredDocuments(items) == items
    ensures (forall i :: 0 <= i < |items| ==> !IsErrored(items[i])) ==> ErroredDocuments(items) == []
    decreases |items|
  {
    if items != [] {
      ErroredDocumentsExtremes(items[1..]);
      assert items == [items[0]] + items[1..];
    }
  }

  // ---------------------------------------------------------------------------
  // Properties of the entries and of the reference batching

  /** The k-th row sits at entries 2k (its directive) and 2k+1 (its payload). */
  lemma {:induction false} InterleaveAt(rows: seq<Row>, k: nat)
    requires k < |rows|
    ensures Interleave(rows)[2 * k] == Directive(IndexName)
    ensures Interleave(rows)[2 * k + 1] == Payload(rows[k])
    decreases |rows|
  {
    if k < |rows| - 1 {
      InterleaveAt(rows[..|rows| - 1], k);
    }
  }

  lemma {:induction false} InterleaveAppend(a: seq<Row>, b: seq<Row>)
    ensures Interleave(a + b) == Interleave(a) + Interleave(b)
    decreases |b|
  {
    if b == [] {
      assert a + b == a;
    } else {
      var b' := b[..|b| - 1];
      assert (a + b)[..|a + b| - 1] == a + b';
      InterleaveAppend(a, b');
    }
  }

  /** Order preservation: the batches, concatenated in flush order, are the directive/row sequence of the input. */
  lemma {:induction false} BatchesFlatten(rows: seq<Row>)
    ensures Flatten(Batches(rows)) == Interleave(rows)
    decreases |rows|
  {
    if rows == [] {
    } else if |rows| <= BatchSize {
      assert Flatten([Interleave(rows)]) == Interleave(rows) + Flatten([]);
    } else {
      var head, tail := rows[..BatchSize], rows[BatchSize..];
      var bs := [Interleave(head)] + Batches(tail);
      assert bs[0] == Interleave(head) && bs[1..] == Batches(tail);
      BatchesFlatten(tail);
      InterleaveAppend(head, tail);
      assert head + tail == rows;
    }
  }

  /** The number of bulk calls for N rows is ceil(N / BatchSize), 0 for no rows. */
  lemma {:induction false} BatchesCount(rows: seq<Row>)
    ensures |Batches(rows)| == FlushCount(|rows|)
    ensures rows == [] <==> Batches(rows) == []
    decreases |rows|
  {
    if |rows| > BatchSize {
      BatchesCount(rows[BatchSize..]);
    }
  }

  /** Every batch is non-empty and holds at most 2*BatchSize entries; all but the last hold exactly that many. */
  lemma {:induction false} BatchesSizes(rows: seq<Row>)
    ensures forall i :: 0 <= i < |Batches(rows)| ==>
              0 < |Batches(rows)[i]| <= 2 * BatchSize &&
              (i < |Batches(rows)| - 1 ==> |Batches(rows)[i]| == 2 * BatchSize)
    decreases |rows|
  {
    if |rows| > BatchSize {
      var tail := rows[BatchSize..];
      BatchesSizes(tail);
      BatchesCount(tail);
      var bs := Batches(rows);
      assert bs == [Interleave(rows[..BatchSize])] + Batches(tail);
      forall i | 0 < i < |bs| ensures bs[i] == Batches(tail)[i - 1] { }
    }
  }

  /**
   * No row is in two batches: row k is the payload at entry 2*(k % BatchSize) + 1
   * of batch k / BatchSize, right after its directive.
   */
  lemma {:induction false} RowPlacement(rows: seq<Row>, k: nat)
    requires k < |rows|
    ensures k / BatchSize < |Batches(rows)|
    ensures 2 * (k % BatchSize) + 1 < |Batches(rows)[k / BatchSize]|
    ensures Batches(rows)[k / BatchSize][2 * (k % BatchSize)] == Directive(IndexName)
    ensures Batches(rows)[k / BatchSize][2 * (k % BatchSize) + 1] == Payload(rows[k])
    decreases |rows|
  {
    if |rows| <= BatchSize {
      InterleaveAt(rows, k);
    } else if k < BatchSize {
      InterleaveAt(rows[..BatchSize], k);
    } else {
      var tail := rows[BatchSize..];
      RowPlacement(tail, k - BatchSize);
      assert (k - BatchSize) / BatchSize == k / BatchSize - 1;
      assert (k - BatchSize) % BatchSize == k % BatchSize;
      assert tail[k - BatchSize] == rows[k];
    }
  }

  /** Appending at most one batch's worth of rows after whole batches adds exactly one batch. */
  lemma {:induction false} BatchesSnoc(full: seq<Row>, rest: seq<Row>)
    requires |full| % BatchSize == 0
    requires 0 < |rest| <= BatchSize
    ensures Batches(full + rest) == Batches(full) + [Interleave(rest)]
    decreases |full|
  {
    if full == [] {
      assert full + rest == rest;
    } else {
      var all := full + rest;
      assert all[..BatchSize] == full[..BatchSize];
      assert all[BatchSize..] == full[BatchSize..] + rest;
      BatchesSnoc(full[BatchSize..], rest);
      if |full| == BatchSize {
        assert full[BatchSize..] == [];
      }
    }
  }

  /** 2500 rows go out as three bulk calls of 1000, 1000 and 500 rows. */
  lemma TwentyFiveHundredRows(rows: seq<Row>)
    requires |rows| == 2500
    ensures |Batches(rows)| == 3
    ensures |Batches(rows)[0]| == 2 * 1000 && |Batches(rows)[1]| == 2 * 1000 && |Batches(rows)[2]| == 2 * 500
  {
    var t1 := rows[BatchSize..];
    var t2 := t1[BatchSize..];
    assert Batches(t2) == [Interleave(t2)];
    assert Batches(t1) == [Interleave(t1[..BatchSize])] + Batches(t2);
  }
}
