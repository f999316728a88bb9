/**
 * What one run of the program (`main`: commits, then references) does to
 * the store.
 */
module RunFacts {
  import opened Wrappers
  import opened Records
  import opened Chunking
  import opened Store
  import opened Pipeline
  import opened CommitFacts
  import opened RefFacts
  import opened DriverFacts

  /**
   * Commits come first: the commit tables after a run are those the commit
   * sub-pipeline left; references are written only once every commit is
   * stored; an aborted commit sub-pipeline ends the run as it left it.
   */
  lemma RunOrder(t: Tables, repo: Repository, allCommits: seq<WalkItem>, allReferences: seq<ReferenceItem>)
    ensures var c := CommitsPhase(t, repo, allCommits);
      var r := RunEffect(t, repo, allCommits, allReferences);
      && r.tables.commitDetails == c.tables.commitDetails
      && r.tables.commitRelation == c.tables.commitRelation
      && (c.outcome.Aborted? ==> r == c && r.tables.refDetails == t.refDetails)
      && (r.tables.refDetails != t.refDetails ==> c.outcome.Completed?)
      && (r.outcome.Completed? ==> c.outcome.Completed?)
  {
    var c := CommitsPhase(t, repo, allCommits);
    CommitChunksPhasePreserves(t, repo, Chunks(allCommits, ChunkSize));
    RefChunksPhasePreserves(c.tables, Chunks(allReferences, ChunkSize));
  }

  /** However a run ends, it removes no row and leaves every primary key unique. */
  lemma RunPreservesKeys(t: Tables, repo: Repository, allCommits: seq<WalkItem>, allReferences: seq<ReferenceItem>)
    ensures var r := RunEffect(t, repo, allCommits, allReferences);
      && t.commitDetails <= r.tables.commitDetails
      && t.commitRelation <= r.tables.commitRelation
      && t.refDetails <= r.tables.refDetails
      && (KeysUnique(t) ==> KeysUnique(r.tables))
  {
    var c := CommitsPhase(t, repo, allCommits);
    CommitChunksPhasePreserves(t, repo, Chunks(allCommits, ChunkSize));
    RefChunksPhasePreserves(c.tables, Chunks(allReferences, ChunkSize));
  }

  /**
   * A run that completes adds exactly the normalised records of everything
   * the walk and the listing yielded: one `commit_details` row per commit,
   * one `commit_relation` row per parent, one `ref_details` row per reference.
   */
  lemma RunComplete(t: Tables, repo: Repository, allCommits: seq<WalkItem>, allReferences: seq<ReferenceItem>)
    requires RunEffect(t, repo, allCommits, allReferences).outcome == Completed
    ensures AllFound(repo, allCommits)
    ensures var records := ExtractCommits(repo, Oks(allCommits));
      RunEffect(t, repo, allCommits, allReferences).tables ==
        Tables(t.commitDetails + CommitRows(records),
               t.commitRelation + AllEdges(records),
               t.refDetails + RefRows(ExtractRefs(Oks(allReferences))))
  {
    RunOrder(t, repo, allCommits, allReferences);
    CommitsPhaseComplete(t, repo, allCommits);
    var c := CommitsPhase(t, repo, allCommits);
    RefsPhaseComplete(c.tables, allReferences);
  }

  /**
   * The store has no upsert: once a run has stored the commits of a walk
   * that yielded at least one, running again over the same walk aborts on
   * the first commit's `commit_details` key and stores nothing more.
   */
  lemma RerunIsRejected(t: Tables, repo: Repository, allCommits: seq<WalkItem>,
                        allReferences: seq<ReferenceItem>, laterReferences: seq<ReferenceItem>)
    requires RunEffect(t, repo, allCommits, allReferences).outcome == Completed
    requires Oks(allCommits) != []
    ensures var r := RunEffect(t, repo, allCommits, allReferences);
      RunEffect(r.tables, repo, allCommits, laterReferences) ==
        Phase(r.tables, Aborted(InsertCommitsFailed(UniqueViolation(CommitDetailsTable))))
  {
    var r := RunEffect(t, repo, allCommits, allReferences);
    RunComplete(t, repo, allCommits, allReferences);
    var records := ExtractCommits(repo, Oks(allCommits));
    assert RowOf(records[0]) in CommitRows(records);
    assert records[0].id in CommitIds(r.tables);
    CommitsPhaseIsPerCommit(r.tables, repo, allCommits);
    CommitTxMeaning(r.tables, records[0]);
  }

  /**
   * After a completed run over a repository as git2 presents it, every
   * successfully walked commit has its `commit_details` row and one
   * (parent, child) edge for each of its parents: a child walked with its
   * parent leaves that link stored.
   */
  lemma WalkedCommitStored(t: Tables, repo: Repository, allCommits: seq<WalkItem>,
                           allReferences: seq<ReferenceItem>, oid: Oid)
    requires RunEffect(t, repo, allCommits, allReferences).outcome == Completed
    requires WellFormed(repo) && oid in Oks(allCommits)
    ensures oid in repo.commits
    ensures var r := RunEffect(t, repo, allCommits, allReferences);
      && RowOf(ExtractCommitDetails(repo.commits[oid])) in r.tables.commitDetails
      && oid in CommitIds(r.tables)
      && forall p :: p in repo.commits[oid].parentIds ==> RelationRow(p, oid) in r.tables.commitRelation
  {
    var r := RunEffect(t, repo, allCommits, allReferences);
    RunComplete(t, repo, allCommits, allReferences);
    var oids := Oks(allCommits);
    var records := ExtractCommits(repo, oids);
    var i :| 0 <= i < |oids| && oids[i] == oid;
    var c := records[i];
    assert c == ExtractCommitDetails(repo.commits[oid]) && c.id == oid && c in records;
    CommitRowsMembers(records, RowOf(c));
    forall p | p in repo.commits[oid].parentIds
      ensures RelationRow(p, oid) in r.tables.commitRelation
    {
      AllEdgesMembers(records, RelationRow(p, oid));
    }
  }

  /** A fresh store, one root commit "A" by alice with message "init", and the branch refs/heads/main at "A". */
  lemma SingleCommitScenario()
    ensures var commit := RawCommit("A", Some("alice"), 1700000000, Some("init"), []);
      var main := RawReference(Some("refs/heads/main"), Some("A"), Some(Direct));
      var repo := Repository(map["A" := commit]);
      RunEffect(Empty, repo, [Ok("A")], [Ok(main)]) ==
        Phase(Tables({CommitRow("A", "alice", 1700000000, "init")},
                     {},
                     {RefDetails("refs/heads/main", "A", "Direct")}),
              Completed)
  {
    var commit := RawCommit("A", Some("alice"), 1700000000, Some("init"), []);
    var main := RawReference(Some("refs/heads/main"), Some("A"), Some(Direct));
    var repo := Repository(map["A" := commit]);
    var walk: seq<WalkItem> := [Ok("A")];
    var refs: seq<ReferenceItem> := [Ok(main)];
    SmallInputOneChunk(walk, ChunkSize);
    SmallInputOneChunk(refs, ChunkSize);
    assert Oks(walk) == ["A"];
    assert Oks(refs) == [main];
    var details := ExtractCommitDetails(commit);
    assert walk[..|walk| - 1] == [];
    assert FindCommit(repo, "A") == Some(commit);
    assert details == CommitDetails("A", "alice", 1700000000, "init", []);
    assert NormaliseChunk(repo, walk[..|walk| - 1]) == Some([]);
    assert [] + [details] == [details];
    assert NormaliseChunk(repo, walk) == Some([details]);
    var t1 := Tables({CommitRow("A", "alice", 1700000000, "init")}, {}, {});
    assert CommitIds(Empty) == {};
    assert "A" !in CommitIds(Empty);
    assert InsertCommitRow(Empty, RowOf(details)).Ok?;
    assert InsertCommitRow(Empty, RowOf(details)).value.commitDetails == t1.commitDetails;
    assert InsertCommitRow(Empty, RowOf(details)) == Ok(t1);
    assert InsertEdges(t1, [], "A") == Ok(t1);
    assert CommitTx(Empty, details) == Ok(t1);
    assert [details][1..] == [];
    assert InsertCommitsEffect(Empty, [details]) == Step(t1, Done);
    var row := ExtractRefDetails(main);
    assert row == RefDetails("refs/heads/main", "A", "Direct");
    SmallInputOneChunk([row], ChunkSize);
    assert [row][..0] == [];
    var t2 := Tables(t1.commitDetails, {}, {row});
    assert InsertRefRows(t1, []) == Ok(t1);
    assert RefKeys(t1) == {};
    assert InsertRefRow(t1, row).Ok?;
    assert InsertRefRow(t1, row).value.refDetails == t2.refDetails;
    assert InsertRefRow(t1, row) == Ok(t2);
    assert InsertRefRows(t1, [row]) == Ok(t2);
    assert ExtractRefs([main]) == [row];
    assert [[row]][1..] == [];
    assert Chunks([row], ChunkSize) == [[row]];
    assert InsertRefChunksEffect(t2, []) == Step(t2, Done);
    assert InsertRefChunksEffect(t1, [[row]]) == Step(t2, Done);
    assert InsertRefsEffect(t1, [row]) == Step(t2, Done);
    assert [walk][1..] == [] && [refs][1..] == [];
    assert Chunks(walk, ChunkSize) == [walk];
    assert CommitChunksPhase(t1, repo, []) == Phase(t1, Completed);
    assert CommitChunksPhase(Empty, repo, [walk]) == Phase(t1, Completed);
    assert CommitsPhase(Empty, repo, walk) == Phase(t1, Completed);
    assert Chunks(refs, ChunkSize) == [refs];
    assert RefChunksPhase(t2, []) == Phase(t2, Completed);
    assert RefChunksPhase(t1, [refs]) == Phase(t2, Completed);
    assert RefsPhase(t1, refs) == Phase(t2, Completed);
  }
}
