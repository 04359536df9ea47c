/**
 * `createIndex` and its `batch` closure: the catalog rows are handed to the
 * lunr builder at most `BatchSize` at a time, the closure rescheduling itself
 * on a timer until the last row is in, when the index is built.
 */
module IndexBuilder {
  import opened Wrappers
  import opened Catalog

  /** Rows added per `batch()` call. */
  const BatchSize: nat := 100

  /** What one `batch()` call ends with. */
  datatype BatchOutcome =
    | Rescheduled            // `setTimeout(batch, 10)`: more rows remain
    | Completed(index: Index) // `builder.build()` ran; the caller sets `Ready`
    | Aborted                // `builder.add(undefined)` threw: the catalog is empty

  /** The chunks joined in order. */
  function Flatten<T>(chunks: seq<seq<T>>): seq<T> {
    if chunks == [] then [] else Flatten(chunks[..|chunks| - 1]) + chunks[|chunks| - 1]
  }

  lemma FlattenSnoc<T>(chunks: seq<seq<T>>, c: seq<T>)
    ensures Flatten(chunks + [c]) == Flatten(chunks) + c
  {
    assert (chunks + [c])[..|chunks|] == chunks;
  }

  /**
   * The state one `createIndex()` call sets up: the rows, the `pos` cursor and
   * the lunr builder, modelled by the documents it has been given (`added`).
   * `batches` records the rows each `batch()` call added.
   */
  class BatchBuilder {
    const rows: seq<Row>
    var pos: nat
    var added: seq<Row>
    ghost var batches: seq<seq<Row>>

    /**
     * Every row before `pos` has been added exactly once, in catalog order,
     * in chunks of at most `BatchSize` rows; all chunks but a final one are full.
     */
    ghost predicate Valid()
      reads this
    {
      && pos <= |rows|
      && added == rows[..pos]
      && Flatten(batches) == added
      && (forall i :: 0 <= i < |batches| ==> 0 < |batches[i]| <= BatchSize)
      && (pos < |rows| ==> pos == BatchSize * |batches|)
      && (0 < pos == |rows| ==> |batches| == (|rows| + BatchSize - 1) / BatchSize)
    }

    /** `var pos = 0` and a fresh `lunr.Builder`. */
    constructor (rows: seq<Row>)
      ensures Valid()
      ensures this.rows == rows && pos == 0 && added == [] && batches == []
    {
      this.rows := rows;
      pos := 0;
      added := [];
      batches := [];
    }

    /**
     * One `batch()` call: adds the next rows, at most `BatchSize` of them,
     * and builds the index exactly when the last row has been added.
     */
    method Batch() returns (outcome: BatchOutcome)
      requires Valid()
      requires pos < |rows| || rows == []
      modifies this
      ensures Valid()
      ensures rows == [] ==> outcome == Aborted && pos == old(pos) && added == old(added) && batches == old(batches)
      ensures rows != [] ==> pos == Min(old(pos) + BatchSize, |rows|)
      ensures rows != [] ==> batches == old(batches) + [rows[old(pos)..pos]]
      ensures rows != [] ==> (outcome == Rescheduled <==> pos < |rows|)
      ensures rows != [] ==> (outcome == Completed(Index(rows)) <==> pos == |rows|)
      ensures outcome.Completed? ==> added == rows && Flatten(batches) == rows
      ensures outcome.Completed? ==> |batches| == (|rows| + BatchSize - 1) / BatchSize
    {
      var start := pos;
      var cycles := 0;
      while cycles < BatchSize
        invariant 0 <= cycles <= BatchSize
        invariant pos == start + cycles
        invariant rows == [] ==> pos == 0
        invariant rows != [] ==> pos < |rows|
        invariant added == rows[..pos]
        invariant batches == old(batches)
      {
        cycles := cycles + 1;
        if pos >= |rows| {
          // `rows[pos]` is undefined and lunr's `add` throws
          outcome := Aborted;
          return;
        }
        added := added + [rows[pos]];
        pos := pos + 1;
        assert rows[..pos] == rows[..pos - 1] + [rows[pos - 1]];
        if pos == |rows| {
          FlattenSnoc(batches, rows[start..pos]);
          assert rows[..start] + rows[start..pos] == rows[..pos];
          batches := batches + [rows[start..pos]];
          assert added == rows;
          outcome := Completed(Index(added));
          return;
        }
      }
      FlattenSnoc(batches, rows[start..pos]);
      assert rows[..start] + rows[start..pos] == rows[..pos];
      batches := batches + [rows[start..pos]];
      outcome := Rescheduled;
    }
  }
}
