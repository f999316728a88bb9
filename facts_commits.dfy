/**
 * What `batch_insert_commits` does to the store: the meaning of one commit
 * transaction, what a batch preserves, what a successful batch adds, and
 * where a failing batch stops.
 */
module CommitFacts {
  import opened Wrappers
  import opened Records
  import opened Store
  import opened Pipeline

  /** The `commit_details` rows of a list of records. */
  function CommitRows(commits: seq<CommitDetails>): set<CommitRow>
  {
    if commits == [] then {} else {RowOf(commits[0])} + CommitRows(commits[1..])
  }

  /** The `commit_relation` rows of a list of records: one per parent of each. */
  function AllEdges(commits: seq<CommitDetails>): set<RelationRow>
  {
    if commits == [] then {} else EdgeSet(commits[0].parents, commits[0].id) + AllEdges(commits[1..])
  }

  /** The number of parents over a list of records. */
  function TotalParents(commits: seq<CommitDetails>): nat
  {
    if commits == [] then 0 else |commits[0].parents| + TotalParents(commits[1..])
  }

  /** Appending a parent keeps the list free of repeats exactly when it is new in the list. */
  lemma DistinctSnoc(init: seq<Oid>, last: Oid)
    ensures Distinct(init + [last]) <==> Distinct(init) && last !in init
  {
    var parents := init + [last];
    if Distinct(init) && last !in init {
      forall i, j | 0 <= i < j < |parents| ensures parents[i] != parents[j] {
        if j < |parents| - 1 {
          assert parents[i] == init[i] && parents[j] == init[j];
        } else {
          assert parents[i] == init[i] && init[i] in init;
        }
      }
    }
    if Distinct(parents) {
      forall i, j | 0 <= i < j < |init| ensures init[i] != init[j] {
        assert parents[i] == init[i] && parents[j] == init[j];
      }
      forall k | 0 <= k < |init| ensures init[k] != last {
        assert parents[k] == init[k] && parents[|init|] == last;
      }
    }
  }

  /** A commit with distinct parents has exactly one edge per parent. */
  lemma {:induction false} EdgeSetCount(parents: seq<Oid>, child: string)
    requires Distinct(parents)
    ensures |EdgeSet(parents, child)| == |parents|
    decreases |parents|
  {
    if parents == [] {
      assert EdgeSet(parents, child) == {};
    } else {
      var init, last := parents[..|parents| - 1], parents[|parents| - 1];
      assert parents == init + [last];
      DistinctSnoc(init, last);
      EdgeSetCount(init, child);
      assert EdgeSet(parents, child) == EdgeSet(init, child) + {RelationRow(last, child)};
      assert RelationRow(last, child) !in EdgeSet(init, child);
    }
  }

  /** The `commit_details` rows of a batch are exactly the rows of its records. */
  lemma {:induction false} CommitRowsMembers(commits: seq<CommitDetails>, row: CommitRow)
    ensures row in CommitRows(commits) <==> exists c :: c in commits && RowOf(c) == row
    decreases |commits|
  {
    if commits != [] {
      CommitRowsMembers(commits[1..], row);
      assert forall c :: c in commits <==> c == commits[0] || c in commits[1..];
    }
  }

  /**
   * Inserting the edges of one commit succeeds exactly when its parents are
   * distinct and none of its edges is stored, and then adds exactly one
   * (parent, child) row per parent; otherwise `commit_relation` reports the
   * conflict.
   */
  lemma {:induction false} InsertEdgesMeaning(t: Tables, parents: seq<Oid>, child: string)
    ensures var r := InsertEdges(t, parents, child);
      && (r.Ok? <==> Distinct(parents) && forall p :: p in parents ==> RelationRow(p, child) !in t.commitRelation)
      && (r.Ok? ==> r.value == t.(commitRelation := t.commitRelation + EdgeSet(parents, child)))
      && (r.Ok? ==> |r.value.commitRelation| == |t.commitRelation| + |parents|)
      && (r.Err? ==> r.error == UniqueViolation(CommitRelationTable))
    decreases |parents|
  {
    if parents == [] {
      assert EdgeSet(parents, child) == {};
    } else {
      var init, last := parents[..|parents| - 1], parents[|parents| - 1];
      assert parents == init + [last];
      InsertEdgesMeaning(t, init, child);
      assert EdgeSet(parents, child) == EdgeSet(init, child) + {RelationRow(last, child)};
      DistinctSnoc(init, last);
      assert RelationRow(last, child) in EdgeSet(init, child) <==> last in init;
    }
  }

  /**
   * One commit transaction succeeds exactly when the commit's `id` is new,
   * its parents are distinct and none of its edges is stored. It then adds
   * the commit row and one edge per parent, keeping the keys unique. A
   * stored `id` is returned as a `commit_details` conflict; otherwise the
   * failure is the panic on a `commit_relation` conflict. Either way the
   * transaction is dropped.
   */
  lemma CommitTxMeaning(t: Tables, c: CommitDetails)
    ensures var r := CommitTx(t, c);
      && (r.Ok? <==> c.id !in CommitIds(t) && Distinct(c.parents)
                     && forall p :: p in c.parents ==> RelationRow(p, c.id) !in t.commitRelation)
      && (r.Ok? ==> r.value == Tables(t.commitDetails + {RowOf(c)},
                                      t.commitRelation + EdgeSet(c.parents, c.id),
                                      t.refDetails))
      && (r.Ok? ==> |r.value.commitDetails| == |t.commitDetails| + 1)
      && (r.Ok? ==> |r.value.commitRelation| == |t.commitRelation| + |c.parents|)
      && (r.Ok? && KeysUnique(t) ==> KeysUnique(r.value))
      && (r.Err? && c.id in CommitIds(t) ==> r.error == Failed(UniqueViolation(CommitDetailsTable)))
      && (r.Err? && c.id !in CommitIds(t) ==>
            r.error == Panicked(InsertRelationFailed(UniqueViolation(CommitRelationTable))))
  {
    var first := InsertCommitRow(t, RowOf(c));
    if first.Ok? {
      InsertEdgesMeaning(first.value, c.parents, c.id);
    }
  }

  /** The rows a successful commit transaction adds. */
  lemma CommitTxAdds(t: Tables, c: CommitDetails)
    requires CommitTx(t, c).Ok?
    ensures CommitTx(t, c).value == Tables(t.commitDetails + {RowOf(c)},
                                           t.commitRelation + EdgeSet(c.parents, c.id),
                                           t.refDetails)
    ensures |CommitTx(t, c).value.commitDetails| == |t.commitDetails| + 1
    ensures |CommitTx(t, c).value.commitRelation| == |t.commitRelation| + |c.parents|
  {
    CommitTxMeaning(t, c);
  }

  /**
   * A batch never touches `ref_details`, never removes a commit row or an
   * edge, and keeps the primary keys unique.
   */
  lemma {:induction false} InsertCommitsPreserves(t: Tables, commits: seq<CommitDetails>)
    ensures var s := InsertCommitsEffect(t, commits);
      && s.tables.refDetails == t.refDetails
      && t.commitDetails <= s.tables.commitDetails
      && t.commitRelation <= s.tables.commitRelation
      && (KeysUnique(t) ==> KeysUnique(s.tables))
    decreases |commits|
  {
    if commits != [] {
      CommitTxMeaning(t, commits[0]);
      var r := CommitTx(t, commits[0]);
      if r.Ok? {
        InsertCommitsPreserves(r.value, commits[1..]);
      }
    }
  }

  /** The edges of a list of records are exactly the (p, c.id) for c in the list and p a parent of c. */
  lemma {:induction false} AllEdgesMembers(commits: seq<CommitDetails>, e: RelationRow)
    ensures e in AllEdges(commits) <==> exists c :: c in commits && e.child == c.id && e.parent in c.parents
    decreases |commits|
  {
    if commits != [] {
      var head, rest := commits[0], commits[1..];
      AllEdgesMembers(rest, e);
      forall c | c in commits && e.child == c.id && e.parent in c.parents ensures e in AllEdges(commits) {
        if c == head {
          assert e == RelationRow(e.parent, head.id);
        } else {
          assert c in rest;
        }
      }
      if e in EdgeSet(head.parents, head.id) {
        assert head in commits && e.child == head.id && e.parent in head.parents;
      }
      if e in AllEdges(rest) {
        var c :| c in rest && e.child == c.id && e.parent in c.parents;
        assert c in commits;
      }
    }
  }

  lemma {:induction false} InsertCommitsDoneRows(t: Tables, commits: seq<CommitDetails>)
    requires InsertCommitsEffect(t, commits).flow == Done
    ensures InsertCommitsEffect(t, commits).tables.commitDetails == t.commitDetails + CommitRows(commits)
    ensures |InsertCommitsEffect(t, commits).tables.commitDetails| == |t.commitDetails| + |commits|
    decreases |commits|
  {
    if commits != [] {
      CommitTxAdds(t, commits[0]);
      InsertCommitsDoneRows(CommitTx(t, commits[0]).value, commits[1..]);
    }
  }

  lemma {:induction false} InsertCommitsDoneEdges(t: Tables, commits: seq<CommitDetails>)
    requires InsertCommitsEffect(t, commits).flow == Done
    ensures InsertCommitsEffect(t, commits).tables.commitRelation == t.commitRelation + AllEdges(commits)
    ensures |InsertCommitsEffect(t, commits).tables.commitRelation| == |t.commitRelation| + TotalParents(commits)
    decreases |commits|
  {
    if commits != [] {
      CommitTxAdds(t, commits[0]);
      InsertCommitsDoneEdges(CommitTx(t, commits[0]).value, commits[1..]);
    }
  }

  /**
   * A batch that completes adds exactly one `commit_details` row per commit
   * and exactly one `commit_relation` row (p, commit.id) per parent p; a
   * root commit adds no edge.
   */
  lemma InsertCommitsDone(t: Tables, commits: seq<CommitDetails>)
    requires InsertCommitsEffect(t, commits).flow == Done
    ensures var s := InsertCommitsEffect(t, commits);
      && s.tables == Tables(t.commitDetails + CommitRows(commits),
                            t.commitRelation + AllEdges(commits),
                            t.refDetails)
      && |s.tables.commitDetails| == |t.commitDetails| + |commits|
      && |s.tables.commitRelation| == |t.commitRelation| + TotalParents(commits)
  {
    InsertCommitsDoneRows(t, commits);
    InsertCommitsDoneEdges(t, commits);
    InsertCommitsPreserves(t, commits);
  }

  /** Running two lists of commits in turn is running their concatenation. */
  lemma {:induction false} InsertCommitsConcat(t: Tables, a: seq<CommitDetails>, b: seq<CommitDetails>)
    ensures InsertCommitsEffect(t, a + b) ==
              var s := InsertCommitsEffect(t, a);
              if s.flow.Done? then InsertCommitsEffect(s.tables, b) else s
    decreases |a|
  {
    if a == [] {
      assert a + b == b;
    } else {
      assert (a + b)[0] == a[0] && (a + b)[1..] == a[1..] + b;
      var r := CommitTx(t, a[0]);
      if r.Ok? {
        InsertCommitsConcat(r.value, a[1..], b);
      }
    }
  }

  /** The position of the commit whose transaction ends a failed batch. */
  function FailingCommit(t: Tables, commits: seq<CommitDetails>): nat
    requires !InsertCommitsEffect(t, commits).flow.Done?
    decreases |commits|
  {
    match CommitTx(t, commits[0])
    case Err(_) => 0
    case Ok(t') => 1 + FailingCommit(t', commits[1..])
  }

  /**
   * A batch that fails stops at some commit k: the commits before k are
   * stored exactly as a batch of them alone would store them, and commit
   * k's own transaction is the one that failed, with nothing of it stored.
   */
  lemma {:induction false} InsertCommitsFailure(t: Tables, commits: seq<CommitDetails>)
    requires !InsertCommitsEffect(t, commits).flow.Done?
    ensures var s := InsertCommitsEffect(t, commits);
      var k := FailingCommit(t, commits);
      && k < |commits|
      && InsertCommitsEffect(t, commits[..k]) == Step(s.tables, Done)
      && CommitTx(s.tables, commits[k]) == Err(s.flow)
    decreases |commits|
  {
    var s := InsertCommitsEffect(t, commits);
    var r := CommitTx(t, commits[0]);
    if r.Err? {
      assert commits[..0] == [];
    } else {
      var rest := commits[1..];
      assert s == InsertCommitsEffect(r.value, rest);
      InsertCommitsFailure(r.value, rest);
      var k := FailingCommit(r.value, rest);
      assert FailingCommit(t, commits) == k + 1;
      var prefix := commits[..k + 1];
      assert prefix[0] == commits[0] && prefix[1..] == rest[..k];
      assert InsertCommitsEffect(t, prefix) == InsertCommitsEffect(r.value, rest[..k]);
      assert commits[k + 1] == rest[k];
    }
  }

  /**
   * Conversely, when the first k commits of a batch go through and commit k
   * fails, the batch ends with exactly their rows stored: the failure does
   * not undo the commits before it, unlike a transaction per chunk would.
   */
  lemma EarlierCommitsSurviveFailure(t: Tables, commits: seq<CommitDetails>, k: nat)
    requires k < |commits|
    requires InsertCommitsEffect(t, commits[..k]).flow == Done
    requires CommitTx(InsertCommitsEffect(t, commits[..k]).tables, commits[k]).Err?
    ensures var s := InsertCommitsEffect(t, commits);
      && !s.flow.Done?
      && s.tables == Tables(t.commitDetails + CommitRows(commits[..k]),
                            t.commitRelation + AllEdges(commits[..k]),
                            t.refDetails)
  {
    assert commits == commits[..k] + commits[k..];
    InsertCommitsConcat(t, commits[..k], commits[k..]);
    InsertCommitsDone(t, commits[..k]);
    assert commits[k..][0] == commits[k];
  }
}
