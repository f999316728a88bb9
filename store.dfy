/**
 * The destination store reduced to what the pipeline relies on: the three
 * tables created by `create_database` (src/main.rs), each a set of rows with
 * its primary key, row insertion that fails on a key conflict, and
 * transactions whose insertions become durable only on commit.
 */
module Store {
  import opened Wrappers
  import opened Records

  /** A `commit_details` row; its primary key is `id`. */
  datatype CommitRow = CommitRow(id: string, author: string, date: int, message: string)

  /**
   * A `commit_relation` row; its primary key is the whole row, so a set of
   * these rows can never hold two rows with the same key.
   */
  datatype RelationRow = RelationRow(parent: string, child: string)

  /** The contents of the three tables; `ref_details` rows are `RefDetails` values, keyed by (name, id). */
  datatype Tables = Tables(
    commitDetails: set<CommitRow>,
    commitRelation: set<RelationRow>,
    refDetails: set<RefDetails>)

  const Empty := Tables({}, {}, {})

  datatype Table = CommitDetailsTable | CommitRelationTable | RefDetailsTable

  /** The error the store reports for a rejected insertion. */
  datatype DbError = UniqueViolation(table: Table)

  /** The primary-key constraints of the schema. */
  ghost predicate KeysUnique(t: Tables)
  {
    && (forall r1, r2 :: r1 in t.commitDetails && r2 in t.commitDetails && r1.id == r2.id ==> r1 == r2)
    && (forall r1, r2 :: r1 in t.refDetails && r2 in t.refDetails && r1.name == r2.name && r1.id == r2.id ==> r1 == r2)
  }

  /** The primary keys present in `commit_details`. */
  function CommitIds(t: Tables): (ids: set<string>)
    ensures forall row :: row in t.commitDetails ==> row.id in ids
    ensures forall id :: id in ids ==> exists row :: row in t.commitDetails && row.id == id
  {
    set row | row in t.commitDetails :: row.id
  }

  /** The primary keys present in `ref_details`. */
  function RefKeys(t: Tables): (keys: set<(string, string)>)
    ensures forall row :: row in t.refDetails ==> (row.name, row.id) in keys
    ensures forall k :: k in keys ==> exists row :: row in t.refDetails && (row.name, row.id) == k
  {
    set row | row in t.refDetails :: (row.name, row.id)
  }

  /** The rows of both arguments, table by table. */
  function Union(a: Tables, b: Tables): Tables
  {
    Tables(a.commitDetails + b.commitDetails, a.commitRelation + b.commitRelation, a.refDetails + b.refDetails)
  }

  /** Inserting a `commit_details` row: refused exactly when its `id` is already stored. */
  function InsertCommitRow(t: Tables, row: CommitRow): (r: Result<Tables, DbError>)
    ensures r.Ok? <==> forall other :: other in t.commitDetails ==> other.id != row.id
    ensures r.Ok? ==> r.value.commitDetails == t.commitDetails + {row} && row !in t.commitDetails
    ensures r.Ok? ==> r.value.commitRelation == t.commitRelation && r.value.refDetails == t.refDetails
    ensures r.Err? ==> r.error == UniqueViolation(CommitDetailsTable)
    ensures r.Ok? && KeysUnique(t) ==> KeysUnique(r.value)
  {
    if row.id in CommitIds(t) then Err(UniqueViolation(CommitDetailsTable))
    else Ok(t.(commitDetails := t.commitDetails + {row}))
  }

  /** Inserting a `commit_relation` row: refused exactly when the same (parent, child) is stored. */
  function InsertRelationRow(t: Tables, row: RelationRow): (r: Result<Tables, DbError>)
    ensures r.Ok? <==> row !in t.commitRelation
    ensures r.Ok? ==> r.value.commitRelation == t.commitRelation + {row}
    ensures r.Ok? ==> r.value.commitDetails == t.commitDetails && r.value.refDetails == t.refDetails
    ensures r.Err? ==> r.error == UniqueViolation(CommitRelationTable)
    ensures r.Ok? && KeysUnique(t) ==> KeysUnique(r.value)
  {
    if row in t.commitRelation then Err(UniqueViolation(CommitRelationTable))
    else Ok(t.(commitRelation := t.commitRelation + {row}))
  }

  /** Inserting a `ref_details` row: refused exactly when its (name, id) is already stored. */
  function InsertRefRow(t: Tables, row: RefDetails): (r: Result<Tables, DbError>)
    ensures r.Ok? <==> forall other :: other in t.refDetails ==> (other.name, other.id) != (row.name, row.id)
    ensures r.Ok? ==> r.value.refDetails == t.refDetails + {row} && row !in t.refDetails
    ensures r.Ok? ==> r.value.commitDetails == t.commitDetails && r.value.commitRelation == t.commitRelation
    ensures r.Err? ==> r.error == UniqueViolation(RefDetailsTable)
    ensures r.Ok? && KeysUnique(t) ==> KeysUnique(r.value)
  {
    if (row.name, row.id) in RefKeys(t) then Err(UniqueViolation(RefDetailsTable))
    else Ok(t.(refDetails := t.refDetails + {row}))
  }

  /**
   * An open connection to the store. `committed` holds the durable rows;
   * while a transaction is open, `pending` holds the rows it has inserted,
   * which later statements of the same transaction see, and which become
   * durable only when the transaction commits.
   */
  class Connection {
    var committed: Tables
    var pending: Tables
    var inTransaction: bool
    /** How many transactions have been begun on this connection. */
    ghost var begun: nat

    /** The rows seen by the next statement. */
    function View(): Tables
      reads this
    {
      Union(committed, pending)
    }

    ghost predicate Valid()
      reads this
    {
      && KeysUnique(committed)
      && KeysUnique(View())
      && (!inTransaction ==> pending == Empty)
    }

    /** Opens a store whose tables exist and already hold `initial`. */
    constructor Open(initial: Tables)
      requires KeysUnique(initial)
      ensures Valid() && !inTransaction && committed == initial && begun == 0
    {
      begun := 0;
      committed := initial;
      pending := Empty;
      inTransaction := false;
    }

    /** Begins a transaction (`conn.transaction()`). */
    method Transaction()
      requires Valid() && !inTransaction
      modifies this
      ensures Valid() && inTransaction
      ensures committed == old(committed) && pending == Empty && View() == committed
      ensures begun == old(begun) + 1
    {
      inTransaction := true;
      begun := begun + 1;
    }

    /** Executes an insertion into `commit_details` inside the open transaction. */
    method InsertCommit(row: CommitRow) returns (r: Result<(), DbError>)
      requires Valid() && inTransaction
      modifies this
      ensures Valid() && inTransaction && committed == old(committed) && begun == old(begun)
      ensures var s := InsertCommitRow(old(View()), row);
        && (s.Ok? ==> r.Ok? && View() == s.value)
        && (s.Err? ==> r == Err(s.error) && View() == old(View()))
    {
      var s := InsertCommitRow(View(), row);
      if s.Ok? {
        pending := pending.(commitDetails := pending.commitDetails + {row});
        r := Ok(());
      } else {
        r := Err(s.error);
      }
    }

    /** Executes an insertion into `commit_relation` inside the open transaction. */
    method InsertRelation(row: RelationRow) returns (r: Result<(), DbError>)
      requires Valid() && inTransaction
      modifies this
      ensures Valid() && inTransaction && committed == old(committed) && begun == old(begun)
      ensures var s := InsertRelationRow(old(View()), row);
        && (s.Ok? ==> r.Ok? && View() == s.value)
        && (s.Err? ==> r == Err(s.error) && View() == old(View()))
    {
      var s := InsertRelationRow(View(), row);
      if s.Ok? {
        pending := pending.(commitRelation := pending.commitRelation + {row});
        r := Ok(());
      } else {
        r := Err(s.error);
      }
    }

    /** Executes an insertion into `ref_details` inside the open transaction. */
    method InsertRef(row: RefDetails) returns (r: Result<(), DbError>)
      requires Valid() && inTransaction
      modifies this
      ensures Valid() && inTransaction && committed == old(committed) && begun == old(begun)
      ensures var s := InsertRefRow(old(View()), row);
        && (s.Ok? ==> r.Ok? && View() == s.value)
        && (s.Err? ==> r == Err(s.error) && View() == old(View()))
    {
      var s := InsertRefRow(View(), row);
      if s.Ok? {
        pending := pending.(refDetails := pending.refDetails + {row});
        r := Ok(());
      } else {
        r := Err(s.error);
      }
    }

    /** Commits the open transaction (`tx.commit()`): every row it inserted becomes durable. */
    method Commit()
      requires Valid() && inTransaction
      modifies this
      ensures Valid() && !inTransaction && begun == old(begun)
      ensures committed == old(View())
    {
      committed := View();
      pending := Empty;
      inTransaction := false;
    }

    /** Drops the open transaction without committing: none of its rows become durable. */
    method Rollback()
      requires Valid() && inTransaction
      modifies this
      ensures Valid() && !inTransaction && begun == old(begun)
      ensures committed == old(committed)
    {
      pending := Empty;
      inTransaction := false;
    }
  }
}
