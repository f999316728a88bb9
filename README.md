# git_info_llama: the extract-and-persist pipeline, modelled in Dafny

git_info_llama reads the commit history and the references of a git
repository and stores them in three SQLite tables:

- `commit_details`, keyed by `id`;
- `commit_relation`, one (parent, child) edge per parent, keyed by the pair;
- `ref_details`, keyed by (`name`, `id`).

This project models the core of `src/main.rs`:

- the two normalisers, `extract_commit_details` and `extract_ref_details`;
- the two drivers, `get_commits_detail_array` and `get_ref_details`. Each
  cuts its materialised traversal into chunks of 50, logs and skips failed
  items, and hands each chunk to a batch insert;
- the two batch inserts. `batch_insert_commits` opens one transaction per
  commit: it inserts the commit row, then the commit's edges.
  `batch_insert_refs` re-chunks its input by 50 and opens one transaction
  per chunk;
- the fixed order of `main`: commits first, then references.

Every `?` error and every `expect` in this core ends the run.

## Layout

| file | module | what |
|---|---|---|
| `wrappers.dfy` | `Wrappers` | `Option` and `Result` |
| `records.dfy` | `Records` | what git2 yields for a commit and for a reference, the two output records, and the normalisers |
| `chunking.dfy` | `Chunking` | `slice::chunks`, and the filter that keeps the `Ok` items of a traversal |
| `store.dfy` | `Store` | the three tables as sets of rows, their primary keys, single-row inserts, and a `Connection` class with commit-or-abandon transactions |
| `pipeline.dfy` | `Pipeline` | the batch inserts, the drivers and the run. Each is an imperative method, proved equal to a function of the durable tables |
| `facts_commits.dfy` | `CommitFacts` | what `batch_insert_commits` stores and how it fails |
| `facts_refs.dfy` | `RefFacts` | what `batch_insert_refs` stores and how it fails |
| `facts_drivers.dfy` | `DriverFacts` | chunking seen from the store, completeness, and aborts |
| `facts_run.dfy` | `RunFacts` | ordering, key uniqueness, rejection of a re-run, and a one-commit example |

How the model is built:

- The store is a value of type `Tables`. A `Connection` holds:
  - the durable tables, `committed`;
  - the rows of the open transaction, `pending`;
  - a ghost count of transactions begun, `begun`.
- `Transaction`, `Commit` and `Rollback` are methods on the connection.
  Dropping an uncommitted transaction is `Rollback`.
- Each method in `Pipeline` is specified by a function of `old(conn.committed)`:
  - `BatchInsertCommits` by `InsertCommitsEffect`;
  - `BatchInsertRefs` by `InsertRefsEffect`;
  - `GetCommitsDetailArray` by `CommitsPhase`;
  - `GetRefDetails` by `RefsPhase`;
  - `Run` by `RunEffect`.

  The lemmas in the facts modules are about these functions.
- A panic and a propagated error are both modelled, as `Panicked` or
  `Failed` in a `Flow`, and then as `Aborted(panic)` in an `Outcome`. The
  panic carries which `expect` fired.

### Transaction granularity

`batch_insert_commits` opens its transaction inside the loop over the
commits (src/main.rs:143-144), so each commit is its own transaction.
`batch_insert_refs` uses one transaction per chunk of 50 (src/main.rs:207-218).

- `CommitFacts.EarlierCommitsSurviveFailure` states the consequence for
  commits: when commit `k` of a batch fails, commits `0..k-1` of the same
  batch stay stored.
- `DriverFacts.CommitsPhaseIsPerCommit` states that, when every walked
  identifier is found, chunk boundaries are invisible in what the commit
  sub-pipeline stores. An unknown identifier panics (line 110) before its
  chunk's batch runs, so the earlier chunks stay stored and nothing of
  that chunk or later ones is.
- `DriverFacts.RefsPhaseIsChunkAtomic` shows each chunk of the reference
  listing is stored whole or not at all.

## Model

| member | source | states |
|---|---|---|
| Records.ExtractCommitDetails | src/main.rs:122-137 | id, time and parent list are copied. The author is the signature's name, and is "Unknown" exactly when the name is absent or is itself "Unknown". The message follows the same rule with "No message" |
| Records.ExtractRefDetails | src/main.rs:186-200 | the name falls back to "". The id is the target, and is "Unknown" exactly when the target is absent or is itself "Unknown". The kind is always one of "Direct", "Symbolic" or "Unknown", each exactly for its reference type |
| Records.KindName | src/main.rs:192-197 | a reference type maps to "Direct", "Symbolic" or, when there is none, "Unknown"; each string exactly for its case |
| Chunking.Chunks | src/main.rs:104 | the chunks concatenate back to the input. Every chunk has between 1 and 50 items. Every chunk but the last has exactly 50 |
| Chunking.Oks | src/main.rs:107-116 | the items kept are exactly the values of the `Ok` items; no more of them than the input |
| Chunking.OksConcat | src/main.rs:107-116 | skipping failed items distributes over concatenation |
| Chunking.OksOfFlatten | src/main.rs:104-117 | skipping failed items chunk by chunk keeps the same items, in the same order, as skipping them over the whole traversal |
| Chunking.SmallInputOneChunk | src/main.rs:207 | an input of at most 50 items is one chunk, or none when it is empty |
| Store.KeysUnique | src/main.rs:66-93 | the three primary keys of the schema hold: no two `commit_details` rows share `id` (line 68), and no two `ref_details` rows share (name, id) (line 90). `commit_relation` is a set of whole (parent, child) rows, so its key (line 80) never repeats |
| Store.CommitIds | src/main.rs:66-74 | the `commit_details` keys are exactly the ids of the stored rows |
| Store.RefKeys | src/main.rs:85-93 | the `ref_details` keys are exactly the (name, id) pairs of the stored rows |
| Store.InsertCommitRow | src/main.rs:66-74 | the insert succeeds exactly when no stored row has the id; it then adds the row and nothing else. Otherwise it is a `commit_details` key violation. Keys stay unique |
| Store.InsertRelationRow | src/main.rs:76-83 | the insert succeeds exactly when the (parent, child) pair is not stored; it then adds the row and nothing else. Otherwise it is a `commit_relation` key violation. Keys stay unique |
| Store.InsertRefRow | src/main.rs:85-93 | the insert succeeds exactly when no stored row has the (name, id) pair; it then adds the row and nothing else. Otherwise it is a `ref_details` key violation. Keys stay unique |
| Store.Connection.Valid | src/main.rs:29 | the invariant every connection method needs and keeps: the durable tables and the view of the open transaction both satisfy `KeysUnique`, and with no transaction open there are no pending rows |
| Store.Connection.Open | src/main.rs:29 | a connection opened on a store whose keys are unique has that store durable and no transaction open |
| Store.Connection.Transaction | src/main.rs:144 | opens a transaction that starts with no rows of its own and sees the durable tables |
| Store.Connection.InsertCommit | src/main.rs:146-149 | inserts into the transaction's view as `InsertCommitRow` does; a refused insert changes nothing |
| Store.Connection.InsertRelation | src/main.rs:152-155 | inserts into the transaction's view as `InsertRelationRow` does; a refused insert changes nothing |
| Store.Connection.InsertRef | src/main.rs:211-214 | inserts into the transaction's view as `InsertRefRow` does; a refused insert changes nothing |
| Store.Connection.Commit | src/main.rs:158 | the transaction's view becomes durable and the transaction closes |
| Store.Connection.Rollback | src/main.rs:149 | dropping the transaction discards its rows; the durable tables are unchanged |
| Pipeline.WellFormed | src/main.rs:110 | looking up an identifier in the repository yields the commit with that identifier, as `find_commit` does |
| Pipeline.Message | src/main.rs:110-182 | each panic has its own `expect` text: "Failed to find commit." (line 110), "Failed to insert commit relation." (line 156), "Failed to insert commits." (line 118), "Failed to insert references." (line 182), each exactly for its panic |
| Pipeline.FindCommit | src/main.rs:110 | a lookup finds a commit exactly when the identifier is known, and then yields that commit |
| Pipeline.InsertEdgesInTransaction | src/main.rs:151-157 | inside the open transaction, the view becomes `InsertEdges` of it when every edge inserts. Otherwise the first key error is returned; nothing becomes durable either way |
| Pipeline.CommitTransaction | src/main.rs:143-158 | one commit's transaction. If the row and all its edges insert, they become durable. Otherwise nothing does, and the result is the returned error or the relation panic |
| Pipeline.BatchInsertCommits | src/main.rs:139-162 | the durable tables and the result are those of `InsertCommitsEffect`. At most one transaction is begun per commit, and exactly one per commit when the batch succeeds |
| Pipeline.RowOf | src/main.rs:146-149 | the `commit_details` row bound for a record: its id, author, date and message |
| Pipeline.EdgeSet | src/main.rs:151-155 | the `commit_relation` rows of a commit are exactly the (parent, child) pairs for its parents |
| Pipeline.InsertEdges | src/main.rs:151-157 | the edges of a commit, parent by parent, in the transaction's view; a failure is always a `commit_relation` key violation |
| Pipeline.CommitTx | src/main.rs:144-158 | one commit's transaction; it fails only on a key conflict: of the commit row, returned by `?`, or of an edge, the relation panic |
| Pipeline.InsertCommitsEffect | src/main.rs:143-161 | the commits in order, one transaction each, stopping at the first failure; the batch completes, returns a `commit_details` key violation, or panics on a `commit_relation` key violation |
| Pipeline.InsertEdgesFailureSticks | src/main.rs:151-157 | once a prefix of a commit's edges fails to insert, the whole list fails the same way |
| Pipeline.RefChunkTransaction | src/main.rs:207-218 | one chunk's transaction. If every row inserts, they all become durable. Otherwise none does, and the first key error is returned |
| Pipeline.BatchInsertRefs | src/main.rs:202-221 | the durable tables and the result are those of `InsertRefsEffect`. At most one transaction per chunk of 50, and exactly one per chunk on success. At most one for at most 50 references, and none for none |
| Pipeline.InsertRefRows | src/main.rs:210-215 | the rows of one chunk, one by one, in the transaction's view; a failure is always a `ref_details` key violation |
| Pipeline.InsertRefRowsFailureSticks | src/main.rs:210-215 | once a prefix of a chunk fails to insert, the whole chunk fails the same way |
| Pipeline.InsertRefChunksEffect | src/main.rs:207-220 | a reference batch either completes or returns a `ref_details` key violation; it never panics |
| Pipeline.InsertRefsEffect | src/main.rs:202-221 | the same for `batch_insert_refs`, after re-chunking by 50 |
| Pipeline.ExtractCommits | src/main.rs:110-113 | one normalised record per identifier, in order, each that of the looked-up commit |
| Pipeline.NormaliseChunk | src/main.rs:107-116 | a chunk's inner loop; when it completes it yields one record per successful item |
| Pipeline.NormaliseChunkMissing | src/main.rs:110 | once a prefix of a chunk hits an unknown identifier, the whole chunk panics |
| Pipeline.CollectChunkCommits | src/main.rs:105-117 | the inner loop's output is `NormaliseChunk` of the chunk: failed items skipped, the others looked up and normalised in order, and a panic on an unknown identifier |
| Pipeline.CommitOutcome | src/main.rs:118 | a commit batch completes the chunk exactly when it is `Done`; a returned error becomes the `expect` panic of line 118, and a relation panic stays that panic |
| Pipeline.CommitChunksPhase | src/main.rs:104-119 | the commit driver over formed chunks; it aborts only with a missing commit, a `commit_details` key violation reported by line 118, or a `commit_relation` key violation |
| Pipeline.CommitsPhase | src/main.rs:104-119 | the same for the walk cut into chunks of 50 |
| Pipeline.GetCommitsDetailArray | src/main.rs:98-120 | the durable tables and the outcome are those of `CommitsPhase` |
| Pipeline.ExtractRefs | src/main.rs:173-181 | one normalised record per reference, in order |
| Pipeline.CollectChunkRefs | src/main.rs:171-181 | the inner loop's output is the normalised `Ok` references of the chunk, in order |
| Pipeline.RefChunksPhase | src/main.rs:170-183 | the reference driver over formed chunks; it aborts only with the `expect` of line 182 on a `ref_details` key violation |
| Pipeline.RefsPhase | src/main.rs:170-183 | the same for the listing cut into chunks of 50 |
| Pipeline.GetRefDetails | src/main.rs:164-184 | the durable tables and the outcome are those of `RefsPhase` |
| Pipeline.RunEffect | src/main.rs:43-49 | a run completes only if the commit sub-pipeline did; an abort is a reference abort exactly when the commit sub-pipeline completed |
| Pipeline.Run | src/main.rs:43-49 | the durable tables and the outcome are those of `RunEffect`: commits, then references, and an abort ends the run |
| CommitFacts.DistinctSnoc | src/main.rs:80 | appending a parent keeps the list free of repeated (parent, child) keys exactly when it is new in the list |
| CommitFacts.EdgeSetCount | src/main.rs:151-155 | a commit whose parents are distinct has exactly one edge per parent |
| CommitFacts.InsertEdgesMeaning | src/main.rs:151-157 | a commit's edges insert exactly when its parents are distinct and no (parent, child) edge is stored. They then add one `commit_relation` row per parent. Otherwise the error is a `commit_relation` key violation |
| CommitFacts.CommitTxMeaning | src/main.rs:143-158 | a commit's transaction succeeds exactly when its id is new, its parents are distinct and none of its edges is stored. It then adds its row and its edges, one more row per parent, and keeps keys unique. An existing id is a returned `commit_details` error; otherwise the failure is the relation panic |
| CommitFacts.CommitTxAdds | src/main.rs:143-158 | a successful commit transaction adds exactly its row and its edges, and touches nothing else |
| CommitFacts.InsertCommitsPreserves | src/main.rs:139-162 | however a commit batch ends, it leaves `ref_details` alone, removes no row and keeps keys unique |
| CommitFacts.AllEdgesMembers | src/main.rs:151-157 | the edges of a batch are exactly the (parent, child) pairs of its commits |
| CommitFacts.CommitRowsMembers | src/main.rs:146-149 | the `commit_details` rows of a batch are exactly the rows of its records |
| CommitFacts.InsertCommitsDoneRows | src/main.rs:143-149 | a successful batch adds one `commit_details` row per commit |
| CommitFacts.InsertCommitsDoneEdges | src/main.rs:151-157 | a successful batch adds one `commit_relation` row per parent of each commit |
| CommitFacts.InsertCommitsDone | src/main.rs:139-162 | a successful batch adds exactly its rows and edges, with the matching row counts |
| CommitFacts.InsertCommitsConcat | src/main.rs:143-159 | a batch of two lists is the first list then the second, and the second is skipped if the first fails |
| CommitFacts.InsertCommitsFailure | src/main.rs:143-159 | a failed batch has a first failing commit. Everything before it succeeded and stays stored, and its transaction's failure is the batch's |
| CommitFacts.EarlierCommitsSurviveFailure | src/main.rs:143-144 | when commit `k` of a batch fails, the commits before it stay durable. Transactions are per commit, not per chunk |
| RefFacts.DistinctKeysSnoc | src/main.rs:90 | appending a row keeps the (name, id) keys distinct exactly when its key is new in the list |
| RefFacts.InsertRefRowsAdds | src/main.rs:210-215 | a chunk that inserts adds exactly its rows to `ref_details`, and leaves the commit tables alone |
| RefFacts.InsertRefRowsCount | src/main.rs:210-215 | a chunk that inserts adds one row per reference |
| RefFacts.InsertRefRowsKeepsKeys | src/main.rs:85-93 | a chunk that inserts keeps the (name, id) keys unique |
| RefFacts.InsertRefRowsMeaning | src/main.rs:210-215 | a chunk inserts exactly when its keys are distinct and none is stored; otherwise the error is a `ref_details` key violation |
| RefFacts.DuplicateKeyRejected | src/main.rs:90 | two references with the same (name, id) in one chunk make the chunk fail |
| RefFacts.InsertRefChunksPreserves | src/main.rs:207-220 | however a reference batch ends, it leaves the commit tables alone, removes no row and keeps keys unique |
| RefFacts.SmallRefBatchIsOneTransaction | src/main.rs:202-221 | at most 50 references are one all-or-nothing transaction. None stores nothing. Success stores all of them, and a failure stores none with the error returned |
| RefFacts.DuplicateInSmallBatchStoresNothing | src/main.rs:207-218 | a duplicate key among at most 50 references stores none of them |
| DriverFacts.NormaliseChunkMeaning | src/main.rs:107-116 | a chunk's inner loop completes exactly when every successfully walked identifier is known. It then yields their normalised records, in walk order |
| DriverFacts.CommitChunksPhaseConcat | src/main.rs:104-119 | the commit driver runs chunk lists in sequence, and an abort leaves later chunks unattempted |
| DriverFacts.CommitChunksPhaseIsPerCommit | src/main.rs:104-119 | when every identifier is known, the chunked driver ends as one batch over all walked commits would |
| DriverFacts.CommitsPhaseIsPerCommit | src/main.rs:98-120 | when every identifier is known, `get_commits_detail_array` stores what one batch of all walked commits, in walk order, would store |
| DriverFacts.MissingCommitAborts | src/main.rs:110 | an unknown identifier anywhere in the walk aborts the commit sub-pipeline |
| DriverFacts.CommitChunksPhasePreserves | src/main.rs:98-120 | however the commit sub-pipeline ends, it leaves `ref_details` alone, removes no row and keeps keys unique |
| DriverFacts.CommitsPhaseComplete | src/main.rs:98-120 | a completed commit sub-pipeline means every identifier was known. It added exactly one row per walked commit and one edge per parent, and nothing else |
| DriverFacts.RefChunksPhaseIsChunkAtomic | src/main.rs:170-183 | the reference driver equals an independent definition with one all-or-nothing transaction per non-empty chunk of the listing, where the first failure aborts |
| DriverFacts.RefsPhaseIsChunkAtomic | src/main.rs:164-184 | the same for `get_ref_details` with its chunks of 50 |
| DriverFacts.RefChunksPhaseConcat | src/main.rs:170-183 | the reference driver runs chunk lists in sequence, and an abort leaves later chunks unattempted |
| DriverFacts.RefChunksPhasePreserves | src/main.rs:164-184 | however the reference sub-pipeline ends, it leaves the commit tables alone, removes no row and keeps keys unique |
| DriverFacts.OneTransactionPerChunkComplete | src/main.rs:170-183 | when every chunk transaction succeeds, exactly the listed references' records are added, one row each |
| DriverFacts.RefsPhaseComplete | src/main.rs:164-184 | a completed reference sub-pipeline added exactly one `ref_details` row per successfully listed reference: its normalised record |
| RunFacts.RunOrder | src/main.rs:43-49 | the commit tables after a run are those the commit sub-pipeline left. If it aborted, the run ends there and `ref_details` is untouched. References are written, and a run completes, only after every commit is stored |
| RunFacts.RunPreservesKeys | src/main.rs:65-96 | however a run ends, it removes no row and keeps every primary key unique |
| RunFacts.RunComplete | src/main.rs:43-49 | a completed run added exactly the walked commits' rows and edges and the listed references' rows |
| RunFacts.WalkedCommitStored | src/main.rs:43-49 | after a completed run over a repository whose lookups yield the commit asked for, every walked commit has its row stored, its id is a key, and each of its parents has its (parent, child) edge stored |
| RunFacts.RerunIsRejected | src/main.rs:146-149 | a second run over the same walk, after one that completed and stored a commit, aborts on the first commit's key and stores nothing |
| RunFacts.SingleCommitScenario | src/main.rs:22-49 | a fresh store, a root commit "A" by alice with message "init", and the branch refs/heads/main at "A" give one commit row, no edges and one "Direct" reference row |

## Left out

- Opening the repository and the database, `to_absolute_path`, command-line arguments and `fs::metadata` are not modelled. The run starts from an open connection whose tables exist (`src/main.rs:23-41`).
- Schema creation (`create_database`) is assumed done. Its three primary keys are the keys of `Store` and `KeysUnique`. Its error is only printed; a store whose tables are missing is not modelled.
- git2 is replaced by its outputs, because its internals cannot be seen here:
  - a commit walk becomes a sequence of `Result<Oid, GitError>`;
  - a reference listing becomes a sequence of `Result<RawReference, GitError>`;
  - `find_commit` becomes a lookup in a map, and an unknown identifier is the panic.
- The failures of `revwalk` and `push_head` (lines 99-100) are not modelled. They panic before any row is written.
- A failure of `references()` (lines 165-167) is not modelled. It panics after the commit sub-pipeline has completed and before any reference row is written.
- Oids and their `to_string` are opaque strings.
- Failures of `conn.transaction()` and `tx.commit()` other than key conflicts are not modelled (I/O, locking, a full disk). A model insert fails only on a primary-key conflict.
- Printing is left out: the progress lines of `main` and the log line for a skipped item.
- Process exit is an `Aborted` outcome; which `expect` fired is its `Panic`, and `Pipeline.Message` gives its text.
- `Chunking.Chunks`: does not state the number of chunks, the rounded-up quotient of the length by 50. The first `n` items form the first chunk, and the concatenation law fixes the rest.
- `Records.ExtractCommitDetails`: `date` is the `i64` of `Time::seconds` taken as an unbounded integer. No arithmetic is done on it, so no width is modelled.
- `Records.ExtractCommitDetails`, `Records.ExtractRefDetails`: a name, message or target whose text is literally "Unknown" or "No message" cannot be told apart from a missing one in the output. The contracts state this as "exactly when absent or equal to the fallback".
- Concurrency and memory bounds of materialising the traversals are not modelled. The program is single-threaded.
