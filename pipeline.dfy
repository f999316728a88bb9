/**
 * The extract-and-persist pipeline of src/main.rs: the per-commit and
 * per-chunk transactions of `batch_insert_commits` and `batch_insert_refs`,
 * the chunking drivers `get_commits_detail_array` and `get_ref_details`, and
 * the fixed order of `main` (commits, then references). Each method is
 * specified by a function of the store's durable tables; the functions are
 * the reference the lemmas of CommitFacts, RefFacts, DriverFacts and
 * RunFacts reason about.
 */
module Pipeline {
  import opened Wrappers
  import opened Records
  import opened Chunking
  import opened Store

  /** An error reported by the repository for one item of a traversal. */
  datatype GitError = GitError(message: string)

  /** One item of the materialised commit walk, and of the reference listing. */
  type WalkItem = Result<Oid, GitError>
  type ReferenceItem = Result<RawReference, GitError>

  /** The commits the repository can look up by identifier. */
  datatype Repository = Repository(commits: map<Oid, RawCommit>)

  /** A repository as git2 presents it: looking up an identifier yields the commit with that identifier. */
  predicate WellFormed(repo: Repository)
  {
    forall oid :: oid in repo.commits ==> repo.commits[oid].id == oid
  }

  /** Looking a commit up (`find_commit`); absent when the identifier is unknown. */
  function FindCommit(repo: Repository, oid: Oid): (r: Option<RawCommit>)
    ensures r.Some? <==> oid in repo.commits
    ensures r.Some? ==> r.value == repo.commits[oid]
  {
    if oid in repo.commits then Some(repo.commits[oid]) else None
  }

  /** The `expect` calls that end the run. */
  datatype Panic =
    | FindCommitFailed
    | InsertRelationFailed(cause: DbError)
    | InsertCommitsFailed(cause: DbError)
    | InsertReferencesFailed(cause: DbError)

  /** The text each abort reports. */
  function Message(p: Panic): (m: string)
    ensures m == "Failed to find commit." <==> p.FindCommitFailed?
    ensures m == "Failed to insert commit relation." <==> p.InsertRelationFailed?
    ensures m == "Failed to insert commits." <==> p.InsertCommitsFailed?
    ensures m == "Failed to insert references." <==> p.InsertReferencesFailed?
  {
    match p
    case FindCommitFailed => "Failed to find commit."
    case InsertRelationFailed(_) => "Failed to insert commit relation."
    case InsertCommitsFailed(_) => "Failed to insert commits."
    case InsertReferencesFailed(_) => "Failed to insert references."
  }

  /** How a batch insert ends: normally, with a returned error, or by panicking. */
  datatype Flow = Done | Failed(error: DbError) | Panicked(panic: Panic)

  /** The durable tables after a batch insert, and how it ended. */
  datatype Step = Step(tables: Tables, flow: Flow)

  /** How a sub-pipeline, or the whole run, ends. */
  datatype Outcome = Completed | Aborted(panic: Panic)

  /** The durable tables after a sub-pipeline, and how it ended. */
  datatype Phase = Phase(tables: Tables, outcome: Outcome)

  // ---------------------------------------------------------------------
  // Commits: one transaction per commit
  // ---------------------------------------------------------------------

  /** The `commit_details` row of a record. */
  function RowOf(c: CommitDetails): CommitRow
  {
    CommitRow(c.id, c.author, c.date, c.message)
  }

  predicate Distinct(s: seq<Oid>)
  {
    forall i, j :: 0 <= i < j < |s| ==> s[i] != s[j]
  }

  /** The `commit_relation` rows of a child: one (parent, child) edge per parent. */
  function EdgeSet(parents: seq<Oid>, child: string): (edges: set<RelationRow>)
    ensures forall e :: e in edges <==> e.child == child && e.parent in parents
  {
    set p | p in parents :: RelationRow(p, child)
  }

  /**
   * Inserting the edges of `child`, parent by parent, into the view of a
   * transaction. It succeeds exactly when the parents are distinct and none
   * of the edges is stored yet, and then adds one new row per parent.
   */
  function InsertEdges(t: Tables, parents: seq<Oid>, child: string): (r: Result<Tables, DbError>)
    ensures r.Err? ==> r.error == UniqueViolation(CommitRelationTable)
    decreases |parents|
  {
    if parents == [] then Ok(t)
    else
      match InsertEdges(t, parents[..|parents| - 1], child)
      case Err(e) => Err(e)
      case Ok(t') => InsertRelationRow(t', RelationRow(parents[|parents| - 1], child))
  }

  /** Once a prefix of the edges fails to insert, inserting all of them fails the same way. */
  lemma {:induction false} InsertEdgesFailureSticks(t: Tables, parents: seq<Oid>, n: nat, child: string)
    requires n <= |parents| && InsertEdges(t, parents[..n], child).Err?
    ensures InsertEdges(t, parents, child) == InsertEdges(t, parents[..n], child)
    decreases |parents| - n
  {
    if n < |parents| {
      assert parents[..n + 1][..n] == parents[..n];
      InsertEdgesFailureSticks(t, parents, n + 1, child);
    } else {
      assert parents[..n] == parents;
    }
  }

  /**
   * One iteration of the loop of `batch_insert_commits`: a transaction that
   * inserts the commit row and then its edges, and commits. A conflicting
   * commit row is returned as an error; a conflicting edge panics. Either
   * way the transaction is dropped and nothing of the commit is stored.
   */
  function CommitTx(t: Tables, c: CommitDetails): (r: Result<Tables, Flow>)
    ensures r.Err? ==>
              || r.error == Failed(UniqueViolation(CommitDetailsTable))
              || r.error == Panicked(InsertRelationFailed(UniqueViolation(CommitRelationTable)))
  {
    match InsertCommitRow(t, RowOf(c))
    case Err(e) => Err(Failed(e))
    case Ok(t1) =>
      match InsertEdges(t1, c.parents, c.id)
      case Err(e) => Err(Panicked(InsertRelationFailed(e)))
      case Ok(t2) => Ok(t2)
  }

  /**
   * The effect of `batch_insert_commits` on the durable tables: the commits
   * are applied in order, each in its own transaction, and the first one
   * that fails ends the batch with the earlier ones stored.
   */
  function InsertCommitsEffect(t: Tables, commits: seq<CommitDetails>): (s: Step)
    ensures || s.flow.Done?
            || s.flow == Failed(UniqueViolation(CommitDetailsTable))
            || s.flow == Panicked(InsertRelationFailed(UniqueViolation(CommitRelationTable)))
    decreases |commits|
  {
    if commits == [] then Step(t, Done)
    else
      match CommitTx(t, commits[0])
      case Err(f) => Step(t, f)
      case Ok(t') => InsertCommitsEffect(t', commits[1..])
  }

  /**
   * The inner loop of `batch_insert_commits` (lines 151-157): the edges of
   * one commit, parent by parent, inside the open transaction. It stops at
   * the first edge the store refuses. On that failure the transaction's view
   * still holds the edges inserted before it; the contract leaves the view
   * unspecified there, since the caller drops the transaction at once and
   * none of it becomes durable.
   */
  method InsertEdgesInTransaction(conn: Connection, parents: seq<Oid>, child: string) returns (r: Result<(), DbError>)
    requires conn.Valid() && conn.inTransaction
    modifies conn
    ensures conn.Valid() && conn.inTransaction
    ensures conn.committed == old(conn.committed) && conn.begun == old(conn.begun)
    ensures match InsertEdges(old(conn.View()), parents, child)
      case Ok(t) => r.Ok? && conn.View() == t
      case Err(e) => r == Err(e)
  {
    ghost var start := conn.View();
    for j := 0 to |parents|
      invariant conn.Valid() && conn.inTransaction
      invariant conn.committed == old(conn.committed) && conn.begun == old(conn.begun)
      invariant InsertEdges(start, parents[..j], child) == Ok(conn.View())
    {
      assert parents[..j + 1][..j] == parents[..j];
      var related := conn.InsertRelation(RelationRow(parents[j], child));
      if related.Err? {
        InsertEdgesFailureSticks(start, parents, j + 1, child);
        return related;
      }
    }
    assert parents[..|parents|] == parents;
    r := Ok(());
  }

  /** One iteration of the loop of `batch_insert_commits` (lines 144-158). */
  method CommitTransaction(conn: Connection, commit: CommitDetails) returns (flow: Flow)
    requires conn.Valid() && !conn.inTransaction
    modifies conn
    ensures conn.Valid() && !conn.inTransaction && conn.begun == old(conn.begun) + 1
    ensures match CommitTx(old(conn.committed), commit)
      case Ok(t) => flow == Done && conn.committed == t
      case Err(f) => flow == f && conn.committed == old(conn.committed)
  {
    conn.Transaction();
    var inserted := conn.InsertCommit(RowOf(commit));
    if inserted.Err? {
      conn.Rollback();
      return Failed(inserted.error);
    }
    var related := InsertEdgesInTransaction(conn, commit.parents, commit.id);
    if related.Err? {
      conn.Rollback();
      return Panicked(InsertRelationFailed(related.error));
    }
    conn.Commit();
    flow := Done;
  }

  /** `batch_insert_commits`: one transaction per commit, not per chunk. */
  method BatchInsertCommits(conn: Connection, commits: seq<CommitDetails>) returns (flow: Flow)
    requires conn.Valid() && !conn.inTransaction
    modifies conn
    ensures conn.Valid() && !conn.inTransaction
    ensures Step(conn.committed, flow) == InsertCommitsEffect(old(conn.committed), commits)
    ensures conn.begun <= old(conn.begun) + |commits|
    ensures flow.Done? ==> conn.begun == old(conn.begun) + |commits|
  {
    for i := 0 to |commits|
      invariant conn.Valid() && !conn.inTransaction
      invariant conn.begun == old(conn.begun) + i
      invariant InsertCommitsEffect(old(conn.committed), commits) == InsertCommitsEffect(conn.committed, commits[i..])
    {
      assert commits[i..][0] == commits[i] && commits[i..][1..] == commits[i + 1..];
      var committed := CommitTransaction(conn, commits[i]);
      if !committed.Done? {
        return committed;
      }
    }
    flow := Done;
  }

  // ---------------------------------------------------------------------
  // References: one transaction per chunk
  // ---------------------------------------------------------------------

  /** The (name, id) keys of a list of reference rows. */
  predicate DistinctKeys(rows: seq<RefDetails>)
  {
    forall i, j :: 0 <= i < j < |rows| ==> (rows[i].name, rows[i].id) != (rows[j].name, rows[j].id)
  }

  /**
   * Inserting reference rows one by one into the view of a transaction. It
   * succeeds exactly when their keys are distinct and none is stored yet,
   * and then adds one new row per reference.
   */
  function InsertRefRows(t: Tables, rows: seq<RefDetails>): (r: Result<Tables, DbError>)
    ensures r.Err? ==> r.error == UniqueViolation(RefDetailsTable)
    decreases |rows|
  {
    if rows == [] then Ok(t)
    else
      match InsertRefRows(t, rows[..|rows| - 1])
      case Err(e) => Err(e)
      case Ok(t') => InsertRefRow(t', rows[|rows| - 1])
  }

  /** Once a prefix of the rows fails to insert, inserting all of them fails the same way. */
  lemma {:induction false} InsertRefRowsFailureSticks(t: Tables, rows: seq<RefDetails>, n: nat)
    requires n <= |rows| && InsertRefRows(t, rows[..n]).Err?
    ensures InsertRefRows(t, rows) == InsertRefRows(t, rows[..n])
    decreases |rows| - n
  {
    if n < |rows| {
      assert rows[..n + 1][..n] == rows[..n];
      InsertRefRowsFailureSticks(t, rows, n + 1);
    } else {
      assert rows[..n] == rows;
    }
  }

  /**
   * The effect of the loop of `batch_insert_refs` over its chunks: each
   * chunk is one transaction, stored whole or not at all, and the first
   * failing chunk ends the batch with the earlier chunks stored.
   */
  function InsertRefChunksEffect(t: Tables, chunks: seq<seq<RefDetails>>): (s: Step)
    ensures s.flow.Done? || s.flow == Failed(UniqueViolation(RefDetailsTable))
    decreases |chunks|
  {
    if chunks == [] then Step(t, Done)
    else
      match InsertRefRows(t, chunks[0])
      case Err(e) => Step(t, Failed(e))
      case Ok(t') => InsertRefChunksEffect(t', chunks[1..])
  }

  /** The effect of `batch_insert_refs`, which re-chunks its input by 50. */
  function InsertRefsEffect(t: Tables, refs: seq<RefDetails>): (s: Step)
    ensures s.flow.Done? || s.flow == Failed(UniqueViolation(RefDetailsTable))
  {
    InsertRefChunksEffect(t, Chunks(refs, ChunkSize))
  }

  /** One iteration of the loop of `batch_insert_refs` (lines 208-217). */
  method RefChunkTransaction(conn: Connection, chunk: seq<RefDetails>) returns (r: Result<(), DbError>)
    requires conn.Valid() && !conn.inTransaction
    modifies conn
    ensures conn.Valid() && !conn.inTransaction && conn.begun == old(conn.begun) + 1
    ensures match InsertRefRows(old(conn.committed), chunk)
      case Ok(t) => r.Ok? && conn.committed == t
      case Err(e) => r == Err(e) && conn.committed == old(conn.committed)
  {
    ghost var before := conn.committed;
    conn.Transaction();
    for j := 0 to |chunk|
      invariant conn.Valid() && conn.inTransaction && conn.committed == before
      invariant conn.begun == old(conn.begun) + 1
      invariant InsertRefRows(before, chunk[..j]) == Ok(conn.View())
    {
      assert chunk[..j + 1][..j] == chunk[..j];
      var inserted := conn.InsertRef(chunk[j]);
      if inserted.Err? {
        InsertRefRowsFailureSticks(before, chunk, j + 1);
        conn.Rollback();
        return inserted;
      }
    }
    assert chunk[..|chunk|] == chunk;
    conn.Commit();
    r := Ok(());
  }

  /** `batch_insert_refs`: one transaction per chunk of 50 references. */
  method BatchInsertRefs(conn: Connection, refs: seq<RefDetails>) returns (flow: Flow)
    requires conn.Valid() && !conn.inTransaction
    modifies conn
    ensures conn.Valid() && !conn.inTransaction
    ensures Step(conn.committed, flow) == InsertRefsEffect(old(conn.committed), refs)
    ensures conn.begun <= old(conn.begun) + |Chunks(refs, ChunkSize)|
    ensures flow.Done? ==> conn.begun == old(conn.begun) + |Chunks(refs, ChunkSize)|
    ensures |refs| <= ChunkSize ==> conn.begun <= old(conn.begun) + 1
    ensures refs == [] ==> conn.begun == old(conn.begun)
  {
    var chunks := Chunks(refs, ChunkSize);
    if |refs| <= ChunkSize { SmallInputOneChunk(refs, ChunkSize); }
    for i := 0 to |chunks|
      invariant conn.Valid() && !conn.inTransaction
      invariant conn.begun == old(conn.begun) + i
      invariant InsertRefsEffect(old(conn.committed), refs) == InsertRefChunksEffect(conn.committed, chunks[i..])
    {
      assert chunks[i..][0] == chunks[i] && chunks[i..][1..] == chunks[i + 1..];
      var inserted := RefChunkTransaction(conn, chunks[i]);
      if inserted.Err? {
        return Failed(inserted.error);
      }
    }
    flow := Done;
  }

  // ---------------------------------------------------------------------
  // Drivers
  // ---------------------------------------------------------------------

  /** Every successfully walked identifier names a commit of the repository. */
  ghost predicate AllFound(repo: Repository, walk: seq<WalkItem>)
  {
    forall oid :: oid in Oks(walk) ==> oid in repo.commits
  }

  /** The records of the given commits, in order. */
  function ExtractCommits(repo: Repository, oids: seq<Oid>): (records: seq<CommitDetails>)
    requires forall oid :: oid in oids ==> oid in repo.commits
    ensures |records| == |oids|
    ensures forall i :: 0 <= i < |oids| ==> records[i] == ExtractCommitDetails(repo.commits[oids[i]])
  {
    seq(|oids|, i requires 0 <= i < |oids| => ExtractCommitDetails(repo.commits[oids[i]]))
  }

  /**
   * The records the inner loop of `get_commits_detail_array` collects from
   * one chunk of the walk: failed items are skipped, the others looked up
   * and normalised in order; an identifier that cannot be looked up panics.
   */
  function NormaliseChunk(repo: Repository, chunk: seq<WalkItem>): (r: Option<seq<CommitDetails>>)
    ensures r.Some? ==> |r.value| == |Oks(chunk)|
    decreases |chunk|
  {
    if chunk == [] then Some([])
    else
      match NormaliseChunk(repo, chunk[..|chunk| - 1])
      case None => None
      case Some(records) =>
        match chunk[|chunk| - 1]
        case Err(_) => Some(records)
        case Ok(oid) =>
          match FindCommit(repo, oid)
          case None => None
          case Some(commit) => Some(records + [ExtractCommitDetails(commit)])
  }

  /** Once a prefix of the chunk panics on a missing commit, the whole chunk does. */
  lemma {:induction false} NormaliseChunkMissing(repo: Repository, chunk: seq<WalkItem>, n: nat)
    requires n <= |chunk| && NormaliseChunk(repo, chunk[..n]).None?
    ensures NormaliseChunk(repo, chunk).None?
    decreases |chunk| - n
  {
    if n < |chunk| {
      assert chunk[..n + 1][..n] == chunk[..n];
      NormaliseChunkMissing(repo, chunk, n + 1);
    } else {
      assert chunk[..n] == chunk;
    }
  }

  /**
   * The inner loop of `get_commits_detail_array` over one chunk: failed
   * items are skipped, the others looked up and normalised in order. `None`
   * stands for the panic of `find_commit` on an unknown identifier.
   */
  method CollectChunkCommits(repo: Repository, chunk: seq<WalkItem>) returns (chunkCommits: Option<seq<CommitDetails>>)
    ensures chunkCommits == NormaliseChunk(repo, chunk)
  {
    var collected := [];
    for j := 0 to |chunk|
      invariant NormaliseChunk(repo, chunk[..j]) == Some(collected)
    {
      assert chunk[..j + 1][..j] == chunk[..j];
      match chunk[j]
      case Ok(oid) =>
        var commit := FindCommit(repo, oid);
        if commit.None? {
          NormaliseChunkMissing(repo, chunk, j + 1);
          return None;
        }
        collected := collected + [ExtractCommitDetails(commit.value)];
      case Err(_) =>
        // logged and skipped
    }
    assert chunk[..|chunk|] == chunk;
    chunkCommits := Some(collected);
  }

  /** How a commit batch insert ends the commit sub-pipeline (`expect` at line 118). */
  function CommitOutcome(flow: Flow): (o: Outcome)
    ensures o.Completed? <==> flow.Done?
    ensures flow.Failed? ==> o == Aborted(InsertCommitsFailed(flow.error))
    ensures flow.Panicked? ==> o == Aborted(flow.panic)
  {
    match flow
    case Done => Completed
    case Failed(e) => Aborted(InsertCommitsFailed(e))
    case Panicked(p) => Aborted(p)
  }

  /** The commit sub-pipeline over already-formed chunks of the walk. */
  function CommitChunksPhase(t: Tables, repo: Repository, chunks: seq<seq<WalkItem>>): (p: Phase)
    ensures p.outcome.Aborted? ==>
              || p.outcome.panic == FindCommitFailed
              || p.outcome.panic == InsertCommitsFailed(UniqueViolation(CommitDetailsTable))
              || p.outcome.panic == InsertRelationFailed(UniqueViolation(CommitRelationTable))
    decreases |chunks|
  {
    if chunks == [] then Phase(t, Completed)
    else
      match NormaliseChunk(repo, chunks[0])
      case None => Phase(t, Aborted(FindCommitFailed))
      case Some(records) =>
        var s := InsertCommitsEffect(t, records);
        if s.flow.Done? then CommitChunksPhase(s.tables, repo, chunks[1..])
        else Phase(s.tables, CommitOutcome(s.flow))
  }

  /** The effect of `get_commits_detail_array` on a materialised walk. */
  function CommitsPhase(t: Tables, repo: Repository, walk: seq<WalkItem>): (p: Phase)
    ensures p.outcome.Aborted? ==>
              || p.outcome.panic == FindCommitFailed
              || p.outcome.panic == InsertCommitsFailed(UniqueViolation(CommitDetailsTable))
              || p.outcome.panic == InsertRelationFailed(UniqueViolation(CommitRelationTable))
  {
    CommitChunksPhase(t, repo, Chunks(walk, ChunkSize))
  }

  /** `get_commits_detail_array`, after the walk has been collected. */
  method GetCommitsDetailArray(conn: Connection, repo: Repository, allCommits: seq<WalkItem>) returns (outcome: Outcome)
    requires conn.Valid() && !conn.inTransaction
    modifies conn
    ensures conn.Valid() && !conn.inTransaction
    ensures Phase(conn.committed, outcome) == CommitsPhase(old(conn.committed), repo, allCommits)
  {
    var chunks := Chunks(allCommits, ChunkSize);
    for k := 0 to |chunks|
      invariant conn.Valid() && !conn.inTransaction
      invariant CommitsPhase(old(conn.committed), repo, allCommits) == CommitChunksPhase(conn.committed, repo, chunks[k..])
    {
      var chunk := chunks[k];
      assert chunks[k..][0] == chunk && chunks[k..][1..] == chunks[k + 1..];
      var chunkCommits := CollectChunkCommits(repo, chunk);
      if chunkCommits.None? {
        return Aborted(FindCommitFailed);
      }
      var flow := BatchInsertCommits(conn, chunkCommits.value);
      if !flow.Done? {
        return CommitOutcome(flow);
      }
    }
    outcome := Completed;
  }

  /** The records of the given references, in order. */
  function ExtractRefs(refs: seq<RawReference>): (records: seq<RefDetails>)
    ensures |records| == |refs|
    ensures forall i :: 0 <= i < |refs| ==> records[i] == ExtractRefDetails(refs[i])
  {
    seq(|refs|, i requires 0 <= i < |refs| => ExtractRefDetails(refs[i]))
  }

  /** The inner loop of `get_ref_details` over one chunk: failed items are skipped, the others normalised in order. */
  method CollectChunkRefs(chunk: seq<ReferenceItem>) returns (chunkRefs: seq<RefDetails>)
    ensures chunkRefs == ExtractRefs(Oks(chunk))
  {
    chunkRefs := [];
    for j := 0 to |chunk|
      invariant chunkRefs == ExtractRefs(Oks(chunk[..j]))
    {
      assert chunk[..j + 1][..j] == chunk[..j];
      match chunk[j]
      case Ok(reference) =>
        chunkRefs := chunkRefs + [ExtractRefDetails(reference)];
      case Err(_) =>
        // logged and skipped
    }
    assert chunk[..|chunk|] == chunk;
  }

  /** The reference sub-pipeline over already-formed chunks of the listing. */
  function RefChunksPhase(t: Tables, chunks: seq<seq<ReferenceItem>>): (p: Phase)
    ensures p.outcome.Aborted? ==> p.outcome.panic == InsertReferencesFailed(UniqueViolation(RefDetailsTable))
    decreases |chunks|
  {
    if chunks == [] then Phase(t, Completed)
    else
      var s := InsertRefsEffect(t, ExtractRefs(Oks(chunks[0])));
      if s.flow.Done? then RefChunksPhase(s.tables, chunks[1..])
      else Phase(s.tables, Aborted(InsertReferencesFailed(s.flow.error)))
  }

  /** The effect of `get_ref_details` on a materialised reference listing. */
  function RefsPhase(t: Tables, allReferences: seq<ReferenceItem>): (p: Phase)
    ensures p.outcome.Aborted? ==> p.outcome.panic == InsertReferencesFailed(UniqueViolation(RefDetailsTable))
  {
    RefChunksPhase(t, Chunks(allReferences, ChunkSize))
  }

  /** `get_ref_details`, after the references have been collected. */
  method GetRefDetails(conn: Connection, allReferences: seq<ReferenceItem>) returns (outcome: Outcome)
    requires conn.Valid() && !conn.inTransaction
    modifies conn
    ensures conn.Valid() && !conn.inTransaction
    ensures Phase(conn.committed, outcome) == RefsPhase(old(conn.committed), allReferences)
  {
    var chunks := Chunks(allReferences, ChunkSize);
    for k := 0 to |chunks|
      invariant conn.Valid() && !conn.inTransaction
      invariant RefsPhase(old(conn.committed), allReferences) == RefChunksPhase(conn.committed, chunks[k..])
    {
      var chunk := chunks[k];
      assert chunks[k..][0] == chunk && chunks[k..][1..] == chunks[k + 1..];
      var chunkRefs := CollectChunkRefs(chunk);
      var flow := BatchInsertRefs(conn, chunkRefs);
      if !flow.Done? {
        return Aborted(InsertReferencesFailed(flow.error));
      }
    }
    outcome := Completed;
  }

  // ---------------------------------------------------------------------
  // The run
  // ---------------------------------------------------------------------

  /** The effect of `main` once the store is open: commits first, then references. */
  function RunEffect(t: Tables, repo: Repository, allCommits: seq<WalkItem>, allReferences: seq<ReferenceItem>): (r: Phase)
    ensures r.outcome.Aborted? ==>
              (r.outcome.panic.InsertReferencesFailed? <==> CommitsPhase(t, repo, allCommits).outcome.Completed?)
    ensures r.outcome.Completed? ==> CommitsPhase(t, repo, allCommits).outcome.Completed?
  {
    var c := CommitsPhase(t, repo, allCommits);
    if c.outcome.Aborted? then c else RefsPhase(c.tables, allReferences)
  }

  /** The two sub-pipelines of `main`, in order; an abort in the first ends the run. */
  method Run(conn: Connection, repo: Repository, allCommits: seq<WalkItem>, allReferences: seq<ReferenceItem>)
    returns (outcome: Outcome)
    requires conn.Valid() && !conn.inTransaction
    modifies conn
    ensures conn.Valid() && !conn.inTransaction
    ensures Phase(conn.committed, outcome) == RunEffect(old(conn.committed), repo, allCommits, allReferences)
  {
    outcome := GetCommitsDetailArray(conn, repo, allCommits);
    if outcome.Aborted? {
      return;
    }
    outcome := GetRefDetails(conn, allReferences);
  }
}
