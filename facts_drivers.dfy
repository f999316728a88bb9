/**
 * What the two drivers and the run do to the store: the chunks of the walk
 * are invisible to the stored commits, a reference chunk is stored whole or
 * not at all, an abort stops everything after it, the primary keys stay
 * unique, and re-running on the same store is rejected.
 */
module DriverFacts {
  import opened Wrappers
  import opened Records
  import opened Chunking
  import opened Store
  import opened Pipeline
  import opened CommitFacts
  import opened RefFacts

  // ---------------------------------------------------------------------
  // Commit sub-pipeline
  // ---------------------------------------------------------------------

  lemma ExtractCommitsConcat(repo: Repository, a: seq<Oid>, b: seq<Oid>)
    requires forall oid :: oid in a + b ==> oid in repo.commits
    ensures ExtractCommits(repo, a + b) == ExtractCommits(repo, a) + ExtractCommits(repo, b)
  {
  }

  /**
   * The records collected from one chunk of the walk are the normalised
   * commits of its successful items, in order; the chunk panics exactly
   * when one of those cannot be looked up.
   */
  lemma {:induction false} NormaliseChunkMeaning(repo: Repository, chunk: seq<WalkItem>)
    ensures NormaliseChunk(repo, chunk).Some? <==> AllFound(repo, chunk)
    ensures NormaliseChunk(repo, chunk).Some? ==>
              NormaliseChunk(repo, chunk).value == ExtractCommits(repo, Oks(chunk))
    decreases |chunk|
  {
    if chunk != [] {
      var init, last := chunk[..|chunk| - 1], chunk[|chunk| - 1];
      assert chunk == init + [last];
      NormaliseChunkMeaning(repo, init);
      OksConcat(init, [last]);
      assert Oks([last]) == if last.Ok? then [last.value] else [];
      if last.Ok? && AllFound(repo, chunk) {
        ExtractCommitsConcat(repo, Oks(init), [last.value]);
      }
    }
  }

  /** Running two lists of chunks in turn is running their concatenation, and an abort stops the rest. */
  lemma {:induction false} CommitChunksPhaseConcat(t: Tables, repo: Repository, a: seq<seq<WalkItem>>, b: seq<seq<WalkItem>>)
    ensures CommitChunksPhase(t, repo, a + b) ==
              var p := CommitChunksPhase(t, repo, a);
              if p.outcome.Completed? then CommitChunksPhase(p.tables, repo, b) else p
    decreases |a|
  {
    if a == [] {
      assert a + b == b;
    } else {
      assert (a + b)[0] == a[0] && (a + b)[1..] == a[1..] + b;
      var n := NormaliseChunk(repo, a[0]);
      if n.Some? {
        var s := InsertCommitsEffect(t, n.value);
        if s.flow.Done? {
          CommitChunksPhaseConcat(s.tables, repo, a[1..], b);
        }
      }
    }
  }

  /**
   * When every walked identifier can be looked up, the chunked commit
   * sub-pipeline stores exactly what one batch over all successful items,
   * in walk order, would store: since every commit has its own transaction,
   * chunk boundaries are invisible in the store.
   */
  lemma {:induction false} CommitChunksPhaseIsPerCommit(t: Tables, repo: Repository, chunks: seq<seq<WalkItem>>)
    requires AllFound(repo, Flatten(chunks))
    ensures CommitChunksPhase(t, repo, chunks) ==
              var s := InsertCommitsEffect(t, ExtractCommits(repo, Oks(Flatten(chunks))));
              Phase(s.tables, CommitOutcome(s.flow))
    decreases |chunks|
  {
    if chunks != [] {
      var first, rest := chunks[0], chunks[1..];
      assert Flatten(chunks) == first + Flatten(rest);
      OksConcat(first, Flatten(rest));
      assert AllFound(repo, first) && AllFound(repo, Flatten(rest));
      NormaliseChunkMeaning(repo, first);
      var a, b := ExtractCommits(repo, Oks(first)), ExtractCommits(repo, Oks(Flatten(rest)));
      ExtractCommitsConcat(repo, Oks(first), Oks(Flatten(rest)));
      InsertCommitsConcat(t, a, b);
      var s := InsertCommitsEffect(t, a);
      if s.flow.Done? {
        CommitChunksPhaseIsPerCommit(s.tables, repo, rest);
      }
    }
  }

  /** `get_commits_detail_array` stores what a single batch of all walked commits would. */
  lemma CommitsPhaseIsPerCommit(t: Tables, repo: Repository, walk: seq<WalkItem>)
    requires AllFound(repo, walk)
    ensures CommitsPhase(t, repo, walk) ==
              var s := InsertCommitsEffect(t, ExtractCommits(repo, Oks(walk)));
              Phase(s.tables, CommitOutcome(s.flow))
  {
    CommitChunksPhaseIsPerCommit(t, repo, Chunks(walk, ChunkSize));
  }

  /** A walked identifier that cannot be looked up always ends the commit sub-pipeline with an abort. */
  lemma {:induction false} MissingCommitAborts(t: Tables, repo: Repository, chunks: seq<seq<WalkItem>>)
    requires !AllFound(repo, Flatten(chunks))
    ensures CommitChunksPhase(t, repo, chunks).outcome.Aborted?
    decreases |chunks|
  {
    var first, rest := chunks[0], chunks[1..];
    assert Flatten(chunks) == first + Flatten(rest);
    OksConcat(first, Flatten(rest));
    NormaliseChunkMeaning(repo, first);
    if AllFound(repo, first) {
      var s := InsertCommitsEffect(t, NormaliseChunk(repo, first).value);
      if s.flow.Done? {
        MissingCommitAborts(s.tables, repo, rest);
      }
    }
  }

  /**
   * The commit sub-pipeline never touches `ref_details`, never removes a
   * row, and keeps the primary keys unique, however it ends.
   */
  lemma {:induction false} CommitChunksPhasePreserves(t: Tables, repo: Repository, chunks: seq<seq<WalkItem>>)
    ensures var p := CommitChunksPhase(t, repo, chunks);
      && p.tables.refDetails == t.refDetails
      && t.commitDetails <= p.tables.commitDetails
      && t.commitRelation <= p.tables.commitRelation
      && (KeysUnique(t) ==> KeysUnique(p.tables))
    decreases |chunks|
  {
    if chunks != [] {
      var n := NormaliseChunk(repo, chunks[0]);
      if n.Some? {
        InsertCommitsPreserves(t, n.value);
        var s := InsertCommitsEffect(t, n.value);
        if s.flow.Done? {
          CommitChunksPhasePreserves(s.tables, repo, chunks[1..]);
        }
      }
    }
  }

  /**
   * Completeness of the commit sub-pipeline: when it completes, every
   * successfully walked commit has exactly one new `commit_details` row and
   * one new `commit_relation` row per parent, and nothing else is added.
   */
  lemma CommitsPhaseComplete(t: Tables, repo: Repository, walk: seq<WalkItem>)
    requires CommitsPhase(t, repo, walk).outcome == Completed
    ensures AllFound(repo, walk)
    ensures var records := ExtractCommits(repo, Oks(walk));
      var p := CommitsPhase(t, repo, walk);
      && p.tables == Tables(t.commitDetails + CommitRows(records),
                            t.commitRelation + AllEdges(records),
                            t.refDetails)
      && |p.tables.commitDetails| == |t.commitDetails| + |Oks(walk)|
      && |p.tables.commitRelation| == |t.commitRelation| + TotalParents(records)
  {
    if !AllFound(repo, walk) {
      MissingCommitAborts(t, repo, Chunks(walk, ChunkSize));
    }
    CommitsPhaseIsPerCommit(t, repo, walk);
    InsertCommitsDone(t, ExtractCommits(repo, Oks(walk)));
  }

  // ---------------------------------------------------------------------
  // Reference sub-pipeline
  // ---------------------------------------------------------------------

  /**
   * A reference sub-pipeline with one transaction per non-empty chunk of
   * the listing: each chunk's successful references are stored together or
   * not at all, and a failing chunk ends the sub-pipeline.
   */
  function OneTransactionPerChunk(t: Tables, chunks: seq<seq<ReferenceItem>>): Phase
    decreases |chunks|
  {
    if chunks == [] then Phase(t, Completed)
    else
      var rows := ExtractRefs(Oks(chunks[0]));
      if rows == [] then OneTransactionPerChunk(t, chunks[1..])
      else
        match InsertRefRows(t, rows)
        case Err(e) => Phase(t, Aborted(InsertReferencesFailed(e)))
        case Ok(t') => OneTransactionPerChunk(t', chunks[1..])
  }

  lemma {:induction false} RefChunksPhaseIsChunkAtomic(t: Tables, chunks: seq<seq<ReferenceItem>>)
    requires forall i :: 0 <= i < |chunks| ==> |chunks[i]| <= ChunkSize
    ensures RefChunksPhase(t, chunks) == OneTransactionPerChunk(t, chunks)
    decreases |chunks|
  {
    if chunks != [] {
      var rows := ExtractRefs(Oks(chunks[0]));
      SmallRefBatchIsOneTransaction(t, rows);
      var s := InsertRefsEffect(t, rows);
      if s.flow.Done? {
        RefChunksPhaseIsChunkAtomic(s.tables, chunks[1..]);
      }
    }
  }

  /**
   * `get_ref_details` re-chunks each chunk of at most 50 references inside
   * `batch_insert_refs`, which never splits it further: the sub-pipeline is
   * one transaction per non-empty chunk of the listing.
   */
  lemma RefsPhaseIsChunkAtomic(t: Tables, allReferences: seq<ReferenceItem>)
    ensures RefsPhase(t, allReferences) == OneTransactionPerChunk(t, Chunks(allReferences, ChunkSize))
  {
    RefChunksPhaseIsChunkAtomic(t, Chunks(allReferences, ChunkSize));
  }

  /** Running two lists of chunks in turn is running their concatenation, and an abort stops the rest. */
  lemma {:induction false} RefChunksPhaseConcat(t: Tables, a: seq<seq<ReferenceItem>>, b: seq<seq<ReferenceItem>>)
    ensures RefChunksPhase(t, a + b) ==
              var p := RefChunksPhase(t, a);
              if p.outcome.Completed? then RefChunksPhase(p.tables, b) else p
    decreases |a|
  {
    if a == [] {
      assert a + b == b;
    } else {
      assert (a + b)[0] == a[0] && (a + b)[1..] == a[1..] + b;
      var s := InsertRefsEffect(t, ExtractRefs(Oks(a[0])));
      if s.flow.Done? {
        RefChunksPhaseConcat(s.tables, a[1..], b);
      }
    }
  }

  /**
   * The reference sub-pipeline never touches the commit tables, never
   * removes a row, and keeps the primary keys unique, however it ends.
   */
  lemma {:induction false} RefChunksPhasePreserves(t: Tables, chunks: seq<seq<ReferenceItem>>)
    ensures var p := RefChunksPhase(t, chunks);
      && p.tables.commitDetails == t.commitDetails
      && p.tables.commitRelation == t.commitRelation
      && t.refDetails <= p.tables.refDetails
      && (KeysUnique(t) ==> KeysUnique(p.tables))
    decreases |chunks|
  {
    if chunks != [] {
      var rows := ExtractRefs(Oks(chunks[0]));
      InsertRefChunksPreserves(t, Chunks(rows, ChunkSize));
      var s := InsertRefsEffect(t, rows);
      if s.flow.Done? {
        RefChunksPhasePreserves(s.tables, chunks[1..]);
      }
    }
  }

  lemma ExtractRefsConcat(a: seq<RawReference>, b: seq<RawReference>)
    ensures ExtractRefs(a + b) == ExtractRefs(a) + ExtractRefs(b)
  {
  }

  lemma {:induction false} OneTransactionPerChunkComplete(t: Tables, chunks: seq<seq<ReferenceItem>>)
    requires OneTransactionPerChunk(t, chunks).outcome == Completed
    ensures var p := OneTransactionPerChunk(t, chunks);
      && p.tables.refDetails == t.refDetails + RefRows(ExtractRefs(Oks(Flatten(chunks))))
      && |p.tables.refDetails| == |t.refDetails| + |Oks(Flatten(chunks))|
    decreases |chunks|
  {
    if chunks == [] {
      assert RefRows([]) == {};
    } else {
      var first, rest := chunks[0], chunks[1..];
      assert Flatten(chunks) == first + Flatten(rest);
      OksConcat(first, Flatten(rest));
      ExtractRefsConcat(Oks(first), Oks(Flatten(rest)));
      var rows := ExtractRefs(Oks(first));
      var all := ExtractRefs(Oks(Flatten(chunks)));
      assert all == rows + ExtractRefs(Oks(Flatten(rest)));
      assert RefRows(all) == RefRows(rows) + RefRows(ExtractRefs(Oks(Flatten(rest))));
      if rows == [] {
        OneTransactionPerChunkComplete(t, rest);
      } else {
        var t' := InsertRefRows(t, rows).value;
        InsertRefRowsAdds(t, rows);
        InsertRefRowsCount(t, rows);
        OneTransactionPerChunkComplete(t', rest);
      }
    }
  }

  /**
   * Completeness of the reference sub-pipeline: when it completes, every
   * successfully listed reference has exactly one new `ref_details` row,
   * its normalised record.
   */
  lemma RefsPhaseComplete(t: Tables, allReferences: seq<ReferenceItem>)
    requires RefsPhase(t, allReferences).outcome == Completed
    ensures var p := RefsPhase(t, allReferences);
      && p.tables.refDetails == t.refDetails + RefRows(ExtractRefs(Oks(allReferences)))
      && |p.tables.refDetails| == |t.refDetails| + |Oks(allReferences)|
  {
    RefsPhaseIsChunkAtomic(t, allReferences);
    OneTransactionPerChunkComplete(t, Chunks(allReferences, ChunkSize));
  }
}
