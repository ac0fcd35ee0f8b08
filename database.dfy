/** The document store as the crawlers use it (database_operation.py): one
    database per bucket, a "fileList" collection of object records and a
    "progress" collection of checkpoints. The store is kept as the log of
    its inserts in insertion order, which is also the order of the
    documents' `_id`s; each collection is a view of that log. */
module Database {
  import opened Common

  /** One insert: `insert_many(db, "fileList", records)` or
      `insert_one(db, "progress", checkpoint)`. */
  datatype Write<R, C> =
    | FileListInsert(db: string, records: seq<R>)
    | ProgressInsert(db: string, checkpoint: C)

  /** The "fileList" collection of database `db`, in insertion order. */
  function FileList<R, C>(log: seq<Write<R, C>>, db: string): seq<R> {
    if log == [] then []
    else
      (match log[0]
       case FileListInsert(d, records) => if d == db then records else []
       case ProgressInsert(_, _) => [])
      + FileList(log[1..], db)
  }

  /** The "progress" collection of database `db`, in insertion order. */
  function Progress<R, C>(log: seq<Write<R, C>>, db: string): seq<C> {
    if log == [] then []
    else
      (match log[0]
       case ProgressInsert(d, c) => if d == db then [c] else []
       case FileListInsert(_, _) => [])
      + Progress(log[1..], db)
  }

  /** Later inserts land after earlier ones in every collection. */
  lemma {:induction false} FileListConcat<R, C>(a: seq<Write<R, C>>, b: seq<Write<R, C>>, db: string)
    ensures FileList(a + b, db) == FileList(a, db) + FileList(b, db)
    decreases |a|
  {
    if a != [] {
      assert (a + b)[0] == a[0] && (a + b)[1..] == a[1..] + b;
      FileListConcat(a[1..], b, db);
    } else {
      assert a + b == b;
    }
  }

  lemma {:induction false} ProgressConcat<R, C>(a: seq<Write<R, C>>, b: seq<Write<R, C>>, db: string)
    ensures Progress(a + b, db) == Progress(a, db) + Progress(b, db)
    decreases |a|
  {
    if a != [] {
      assert (a + b)[0] == a[0] && (a + b)[1..] == a[1..] + b;
      ProgressConcat(a[1..], b, db);
    } else {
      assert a + b == b;
    }
  }

  /** A single insert adds to the collection it names and to no other. */
  lemma ProgressSingle<R, C>(w: Write<R, C>, db: string)
    ensures Progress([w], db) == if w.ProgressInsert? && w.db == db then [w.checkpoint] else []
  {
    assert [w][1..] == [];
  }

  lemma FileListSingle<R, C>(w: Write<R, C>, db: string)
    ensures FileList([w], db) == if w.FileListInsert? && w.db == db then w.records else []
  {
    assert [w][1..] == [];
  }

  /** `get_last_item(db, "progress")`: the progress document with the
      largest `_id`, found by reading the log backwards; None when the
      collection is empty (in particular when the database does not exist). */
  function LastProgress<R, C>(log: seq<Write<R, C>>, db: string): (r: Option<C>)
    ensures r.None? <==> Progress(log, db) == []
    ensures r.Some? ==> r.value == Progress(log, db)[|Progress(log, db)| - 1]
    decreases |log|
  {
    if log == [] then None
    else
      var init, last := log[..|log| - 1], log[|log| - 1];
      assert log == init + [last];
      ProgressConcat(init, [last], db);
      assert [last][1..] == [];
      match last
      case ProgressInsert(d, c) =>
        if d == db then Some(c) else LastProgress(init, db)
      case FileListInsert(_, _) => LastProgress(init, db)
  }

  /** Every checkpoint insert directly follows an insert of records into the
      same database: no checkpoint is written ahead of the records. */
  predicate CheckpointsFollowRecords<R, C>(w: seq<Write<R, C>>) {
    forall i :: 0 <= i < |w| && w[i].ProgressInsert? ==>
      0 < i && w[i - 1].FileListInsert? && w[i - 1].db == w[i].db
  }

  lemma CheckpointsFollowRecordsConcat<R, C>(a: seq<Write<R, C>>, b: seq<Write<R, C>>)
    requires CheckpointsFollowRecords(a) && CheckpointsFollowRecords(b)
    ensures CheckpointsFollowRecords(a + b)
  {
    forall i | 0 <= i < |a + b| && (a + b)[i].ProgressInsert?
      ensures 0 < i && (a + b)[i - 1].FileListInsert? && (a + b)[i - 1].db == (a + b)[i].db
    {
      if i >= |a| {
        assert (a + b)[i] == b[i - |a|];
        assert (a + b)[i - 1] == b[i - 1 - |a|];
      }
    }
  }

  /** The store, changed only by appending inserts. */
  class DocumentStore<R, C> {
    var log: seq<Write<R, C>>

    constructor ()
      ensures log == []
    {
      log := [];
    }

    /** `insert_many(db, "fileList", records)`. */
    method InsertMany(db: string, records: seq<R>)
      modifies this
      ensures log == old(log) + [FileListInsert(db, records)]
    {
      log := log + [FileListInsert(db, records)];
    }

    /** `insert_one(db, "progress", checkpoint)`. */
    method InsertOne(db: string, checkpoint: C)
      modifies this
      ensures log == old(log) + [ProgressInsert(db, checkpoint)]
    {
      log := log + [ProgressInsert(db, checkpoint)];
    }

    /** `get_last_item(db, "progress")`. */
    method GetLastItem(db: string) returns (r: Option<C>)
      ensures r == LastProgress(log, db)
    {
      r := LastProgress(log, db);
    }
  }
}
