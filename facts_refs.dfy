/**
 * What `batch_insert_refs` does to the store: a chunk of references is one
 * transaction, stored whole or not at all, and an input of at most 50
 * references is a single chunk.
 */
module RefFacts {
  import opened Wrappers
  import opened Records
  import opened Chunking
  import opened Store
  import opened Pipeline

  /** The rows of a list of references, as a set. */
  function RefRows(rows: seq<RefDetails>): set<RefDetails>
  {
    set row | row in rows
  }

  lemma DistinctKeysSnoc(init: seq<RefDetails>, last: RefDetails)
    ensures DistinctKeys(init + [last]) <==>
              DistinctKeys(init) && forall row :: row in init ==> (row.name, row.id) != (last.name, last.id)
  {
    var rows := init + [last];
    if DistinctKeys(init) && forall row :: row in init ==> (row.name, row.id) != (last.name, last.id) {
      forall i, j | 0 <= i < j < |rows| ensures (rows[i].name, rows[i].id) != (rows[j].name, rows[j].id) {
        if j < |rows| - 1 {
          assert rows[i] == init[i] && rows[j] == init[j];
        } else {
          assert rows[i] == init[i] && init[i] in init;
        }
      }
    }
    if DistinctKeys(rows) {
      forall i, j | 0 <= i < j < |init| ensures (init[i].name, init[i].id) != (init[j].name, init[j].id) {
        assert rows[i] == init[i] && rows[j] == init[j];
      }
      forall row | row in init ensures (row.name, row.id) != (last.name, last.id) {
        var k :| 0 <= k < |init| && init[k] == row;
        assert rows[k] == row && rows[|init|] == last;
      }
    }
  }

  /** The rows a successful chunk transaction adds. */
  lemma {:induction false} InsertRefRowsAdds(t: Tables, rows: seq<RefDetails>)
    requires InsertRefRows(t, rows).Ok?
    ensures InsertRefRows(t, rows).value.refDetails == t.refDetails + RefRows(rows)
    ensures InsertRefRows(t, rows).value.commitDetails == t.commitDetails
    ensures InsertRefRows(t, rows).value.commitRelation == t.commitRelation
    decreases |rows|
  {
    if rows == [] {
      assert RefRows(rows) == {};
    } else {
      var init, last := rows[..|rows| - 1], rows[|rows| - 1];
      InsertRefRowsAdds(t, init);
      var t' := InsertRefRows(t, init).value;
      assert InsertRefRows(t, rows) == InsertRefRow(t', last);
      assert RefRows(rows) == RefRows(init) + {last} by {
        assert rows == init + [last];
      }
    }
  }

  /** A successful chunk transaction adds one new row per reference. */
  lemma {:induction false} InsertRefRowsCount(t: Tables, rows: seq<RefDetails>)
    requires InsertRefRows(t, rows).Ok?
    ensures |InsertRefRows(t, rows).value.refDetails| == |t.refDetails| + |rows|
    decreases |rows|
  {
    if rows != [] {
      var init := rows[..|rows| - 1];
      InsertRefRowsCount(t, init);
    }
  }

  /** A successful chunk transaction keeps the primary keys unique. */
  lemma {:induction false} InsertRefRowsKeepsKeys(t: Tables, rows: seq<RefDetails>)
    requires InsertRefRows(t, rows).Ok? && KeysUnique(t)
    ensures KeysUnique(InsertRefRows(t, rows).value)
    decreases |rows|
  {
    if rows != [] {
      InsertRefRowsKeepsKeys(t, rows[..|rows| - 1]);
    }
  }

  /**
   * A chunk's transaction succeeds exactly when the (name, id) keys of its
   * rows are distinct and none is stored yet; it then adds one new row per
   * reference and keeps the keys unique. Otherwise `ref_details` reports
   * the conflict.
   */
  lemma {:induction false} InsertRefRowsMeaning(t: Tables, rows: seq<RefDetails>)
    ensures var r := InsertRefRows(t, rows);
      && (r.Ok? <==> DistinctKeys(rows) && forall row :: row in rows ==> (row.name, row.id) !in RefKeys(t))
      && (r.Err? ==> r.error == UniqueViolation(RefDetailsTable))
    decreases |rows|
  {
    if rows != [] {
      var init, last := rows[..|rows| - 1], rows[|rows| - 1];
      assert rows == init + [last];
      InsertRefRowsMeaning(t, init);
      DistinctKeysSnoc(init, last);
      var r := InsertRefRows(t, init);
      if r.Ok? {
        InsertRefRowsAdds(t, init);
        assert InsertRefRows(t, rows) == InsertRefRow(r.value, last);
        assert (last.name, last.id) in RefKeys(r.value) <==>
                 (last.name, last.id) in RefKeys(t) || exists row :: row in init && (row.name, row.id) == (last.name, last.id);
      }
    }
  }

  /** Two references of one chunk with the same (name, id) make the chunk fail. */
  lemma DuplicateKeyRejected(t: Tables, rows: seq<RefDetails>, i: nat, j: nat)
    requires i < j < |rows|
    requires rows[i].name == rows[j].name && rows[i].id == rows[j].id
    ensures InsertRefRows(t, rows) == Err(UniqueViolation(RefDetailsTable))
  {
    InsertRefRowsMeaning(t, rows);
  }

  /**
   * A reference batch never touches the commit tables, never removes a
   * reference row, and keeps the primary keys unique.
   */
  lemma {:induction false} InsertRefChunksPreserves(t: Tables, chunks: seq<seq<RefDetails>>)
    ensures var s := InsertRefChunksEffect(t, chunks);
      && s.tables.commitDetails == t.commitDetails
      && s.tables.commitRelation == t.commitRelation
      && t.refDetails <= s.tables.refDetails
      && (KeysUnique(t) ==> KeysUnique(s.tables))
    decreases |chunks|
  {
    if chunks != [] {
      var r := InsertRefRows(t, chunks[0]);
      if r.Ok? {
        InsertRefRowsAdds(t, chunks[0]);
        if KeysUnique(t) {
          InsertRefRowsKeepsKeys(t, chunks[0]);
        }
        InsertRefChunksPreserves(r.value, chunks[1..]);
      }
    }
  }

  /**
   * `batch_insert_refs` on at most 50 references is a single transaction:
   * nothing happens for an empty input; otherwise all rows are stored
   * together, or none are and the conflict is returned.
   */
  lemma SmallRefBatchIsOneTransaction(t: Tables, refs: seq<RefDetails>)
    requires |refs| <= ChunkSize
    ensures refs == [] ==> InsertRefsEffect(t, refs) == Step(t, Done)
    ensures refs != [] && InsertRefRows(t, refs).Ok? ==>
              InsertRefsEffect(t, refs) == Step(InsertRefRows(t, refs).value, Done)
    ensures InsertRefRows(t, refs).Err? ==>
              InsertRefsEffect(t, refs) == Step(t, Failed(InsertRefRows(t, refs).error))
  {
    SmallInputOneChunk(refs, ChunkSize);
    if refs != [] {
      assert Chunks(refs, ChunkSize) == [refs];
      assert [refs][0] == refs && [refs][1..] == [];
      var r := InsertRefRows(t, refs);
      if r.Ok? {
        assert InsertRefChunksEffect(r.value, []) == Step(r.value, Done);
      }
    }
  }

  /**
   * A batch of at most 50 references with a repeated (name, id) stores none
   * of its rows and returns the conflict.
   */
  lemma DuplicateInSmallBatchStoresNothing(t: Tables, refs: seq<RefDetails>, i: nat, j: nat)
    requires |refs| <= ChunkSize && i < j < |refs|
    requires refs[i].name == refs[j].name && refs[i].id == refs[j].id
    ensures InsertRefsEffect(t, refs) == Step(t, Failed(UniqueViolation(RefDetailsTable)))
  {
    DuplicateKeyRejected(t, refs, i, j);
    SmallRefBatchIsOneTransaction(t, refs);
  }
}
