/** The notebook and file catalogue: two tables, `notebooks` (unique names
    of at least three characters) and `files` (one row per uploaded file,
    pointing at its notebook by id). Ids are handed out by AUTOINCREMENT,
    so a deleted id is never reused; timestamps come from a clock that ticks
    once per reading. Foreign keys are never switched on, so deleting a
    notebook leaves its file rows in place. */
module DatabaseManager {
  import opened Wrappers

  /** The shortest notebook name the catalogue accepts. */
  const MinNameLength := 3

  /** A row of `notebooks`. */
  datatype Notebook = Notebook(id: nat, name: string, createdAt: nat, updatedAt: nat)

  /** A row of `files`. */
  datatype FileRecord = FileRecord(id: nat, notebookId: nat, originalFilename: string,
                                   storedFilename: string, uploadDate: nat, isProcessed: bool)

  // ---------------------------------------------------------------------
  // Queries on rows
  // ---------------------------------------------------------------------

  /** The rows of one notebook, in table order. */
  function FilesOf(files: seq<FileRecord>, notebookId: nat): (r: seq<FileRecord>)
    ensures |r| <= |files|
    ensures forall f :: f in r <==> f in files && f.notebookId == notebookId
  {
    if files == [] then []
    else
      var front := FilesOf(files[..|files| - 1], notebookId);
      var last := files[|files| - 1];
      assert files == files[..|files| - 1] + [last];
      if last.notebookId == notebookId then front + [last] else front
  }

  /** The rows whose processed flag is still clear, in table order. */
  function Unprocessed(files: seq<FileRecord>): (r: seq<FileRecord>)
    ensures |r| <= |files|
    ensures forall f :: f in r <==> f in files && !f.isProcessed
  {
    if files == [] then []
    else
      var front := Unprocessed(files[..|files| - 1]);
      var last := files[|files| - 1];
      assert files == files[..|files| - 1] + [last];
      if !last.isProcessed then front + [last] else front
  }

  /** The rows back to front. */
  function Reversed(files: seq<FileRecord>): (r: seq<FileRecord>)
    ensures |r| == |files|
    ensures forall i :: 0 <= i < |files| ==> r[i] == files[|files| - 1 - i]
    ensures forall f :: f in r <==> f in files
  {
    if files == [] then []
    else
      assert files == files[..|files| - 1] + [files[|files| - 1]];
      [files[|files| - 1]] + Reversed(files[..|files| - 1])
  }

  /** Upload dates strictly increase along the rows: the order rows are
      inserted in when every insert reads a later time. */
  predicate UploadsAscending(files: seq<FileRecord>) {
    forall i, j :: 0 <= i < j < |files| ==> files[i].uploadDate < files[j].uploadDate
  }

  /** Upload dates strictly decrease along the rows: the newest upload comes
      first, and no row is listed twice. */
  predicate NewestUploadFirst(files: seq<FileRecord>) {
    forall i, j :: 0 <= i < j < |files| ==> files[i].uploadDate > files[j].uploadDate
  }

  /** The most recently updated notebook comes first. */
  predicate RecentlyUpdatedFirst(notebooks: seq<Notebook>) {
    forall i, j :: 0 <= i < j < |notebooks| ==> notebooks[i].updatedAt >= notebooks[j].updatedAt
  }

  /** Rows in ascending upload order, read back to front, are newest first. */
  lemma ReversedNewestFirst(files: seq<FileRecord>)
    requires UploadsAscending(files)
    ensures NewestUploadFirst(Reversed(files))
  {
  }

  /** Keeping some of the rows keeps them in ascending upload order. */
  lemma {:induction false} FilesOfAscending(files: seq<FileRecord>, notebookId: nat)
    requires UploadsAscending(files)
    ensures UploadsAscending(FilesOf(files, notebookId))
    ensures UploadsAscending(Unprocessed(FilesOf(files, notebookId)))
  {
    if files != [] {
      var front := files[..|files| - 1];
      var last := files[|files| - 1];
      FilesOfAscending(front, notebookId);
      SubsequenceAscending(FilesOf(front, notebookId), front, last);
      SubsequenceAscending(Unprocessed(FilesOf(front, notebookId)), front, last);
      UnprocessedAscending(FilesOf(files, notebookId));
    }
  }

  /** Appending a row later than every row of `front` after a selection of
      `front`'s rows keeps ascending order. */
  lemma SubsequenceAscending(kept: seq<FileRecord>, front: seq<FileRecord>, last: FileRecord)
    requires UploadsAscending(kept)
    requires forall f :: f in kept ==> f in front
    requires forall i :: 0 <= i < |front| ==> front[i].uploadDate < last.uploadDate
    ensures UploadsAscending(kept + [last])
  {
    forall i | 0 <= i < |kept|
      ensures kept[i].uploadDate < last.uploadDate
    {
      assert kept[i] in front;
    }
  }

  /** Dropping the processed rows keeps ascending order. */
  lemma {:induction false} UnprocessedAscending(files: seq<FileRecord>)
    requires UploadsAscending(files)
    ensures UploadsAscending(Unprocessed(files))
  {
    if files != [] {
      var front := files[..|files| - 1];
      UnprocessedAscending(front);
      SubsequenceAscending(Unprocessed(front), front, files[|files| - 1]);
    }
  }

  /** A notebook id that no row points at has no files. */
  lemma {:induction false} NoFilesForUnusedId(files: seq<FileRecord>, notebookId: nat)
    requires forall i :: 0 <= i < |files| ==> files[i].notebookId < notebookId
    ensures FilesOf(files, notebookId) == []
  {
    if files != [] {
      NoFilesForUnusedId(files[..|files| - 1], notebookId);
    }
  }

  /** Adding a row adds it to its own notebook's rows and to no other's. */
  lemma FilesOfAppend(files: seq<FileRecord>, f: FileRecord, notebookId: nat)
    ensures FilesOf(files + [f], notebookId)
            == FilesOf(files, notebookId) + (if f.notebookId == notebookId then [f] else [])
  {
    assert (files + [f])[..|files|] == files;
  }

  /** `notebooks` sorted by recency, with one more notebook slotted in. */
  function InsertByRecency(n: Notebook, sorted: seq<Notebook>): (r: seq<Notebook>)
    requires RecentlyUpdatedFirst(sorted)
    ensures RecentlyUpdatedFirst(r)
    ensures |r| == |sorted| + 1
    ensures forall m :: m in r <==> m in sorted || m == n
  {
    if sorted == [] || n.updatedAt >= sorted[0].updatedAt then [n] + sorted
    else
      var rest := InsertByRecency(n, sorted[1..]);
      assert forall m :: m in sorted <==> m == sorted[0] || m in sorted[1..];
      InsertAfterHead(sorted[0], n, sorted[1..], rest);
      [sorted[0]] + rest
  }

  /** Slotting in is a permutation: the result holds the sorted rows and
      the new one, each as often as before. */
  lemma {:induction false} InsertByRecencyPermutes(n: Notebook, sorted: seq<Notebook>)
    requires RecentlyUpdatedFirst(sorted)
    ensures multiset(InsertByRecency(n, sorted)) == multiset(sorted) + multiset{n}
  {
    if sorted != [] && n.updatedAt < sorted[0].updatedAt {
      InsertByRecencyPermutes(n, sorted[1..]);
      assert sorted == [sorted[0]] + sorted[1..];
    }
  }

  /** A head later than the inserted notebook and than the rest stays in
      front of the rest with that notebook slotted in. */
  lemma InsertAfterHead(head: Notebook, n: Notebook, tail: seq<Notebook>, rest: seq<Notebook>)
    requires RecentlyUpdatedFirst([head] + tail) && RecentlyUpdatedFirst(rest)
    requires head.updatedAt > n.updatedAt
    requires forall m :: m in rest ==> m in tail || m == n
    ensures RecentlyUpdatedFirst([head] + rest)
  {
    forall j | 0 <= j < |rest|
      ensures head.updatedAt >= rest[j].updatedAt
    {
      assert rest[j] in rest;
      if rest[j] != n {
        var k :| 0 <= k < |tail| && tail[k] == rest[j];
        assert ([head] + tail)[0] == head && ([head] + tail)[k + 1] == rest[j];
      }
    }
    var s := [head] + rest;
    forall i, j | 0 <= i < j < |s|
      ensures s[i].updatedAt >= s[j].updatedAt
    {
      if i > 0 {
        assert s[i] == rest[i - 1] && s[j] == rest[j - 1];
      }
    }
  }

  /** The rows of a table keyed by name, most recently updated first: each
      row once, slotted in by its update time. */
  method ByRecency(table: map<string, Notebook>) returns (r: seq<Notebook>)
    requires forall name :: name in table ==> table[name].name == name
    ensures RecentlyUpdatedFirst(r)
    ensures forall n :: n in r <==> n.name in table && table[n.name] == n
    ensures |r| == |table|
  {
    r := [];
    var remaining := table.Keys;
    while remaining != {}
      invariant remaining <= table.Keys
      invariant RecentlyUpdatedFirst(r)
      invariant forall n :: n in r <==> n.name in table && n.name !in remaining && table[n.name] == n
      invariant |r| + |remaining| == |table|
      decreases |remaining|
    {
      var k :| k in remaining;
      ghost var before := r;
      r := InsertByRecency(table[k], r);
      assert forall n :: n in r <==> n in before || n == table[k];
      remaining := remaining - {k};
    }
  }

  // ---------------------------------------------------------------------
  // Table invariants
  // ---------------------------------------------------------------------

  /** Names are unique, at least three characters long and key their row;
      ids are positive, unique and below the counter; times are past
      readings of the clock. */
  ghost predicate NotebookTable(notebooks: map<string, Notebook>, nextId: nat, clock: nat) {
    0 < nextId
    && (forall name :: name in notebooks ==>
       notebooks[name].name == name && |name| >= MinNameLength
       && 0 < notebooks[name].id < nextId
       && notebooks[name].createdAt <= notebooks[name].updatedAt < clock)
    && (forall a, b :: a in notebooks && b in notebooks && a != b ==> notebooks[a].id != notebooks[b].id)
  }

  /** File ids are positive, increase along the table and stay below the
      counter; every row points at a notebook id handed out already; uploads
      are past readings, in table order. */
  ghost predicate FileTable(files: seq<FileRecord>, nextId: nat, nextNotebookId: nat, clock: nat) {
    0 < nextId
    && (forall i :: 0 <= i < |files| ==>
       0 < files[i].id < nextId && files[i].notebookId < nextNotebookId
       && files[i].uploadDate < clock)
    && (forall i, j :: 0 <= i < j < |files| ==> files[i].id < files[j].id)
    && UploadsAscending(files)
  }

  /** Later clock readings and larger counters keep both invariants. */
  lemma TablesLater(notebooks: map<string, Notebook>, files: seq<FileRecord>,
                    nextNotebookId: nat, nextFileId: nat, clock: nat, later: nat)
    requires NotebookTable(notebooks, nextNotebookId, clock)
    requires FileTable(files, nextFileId, nextNotebookId, clock)
    requires clock <= later
    ensures NotebookTable(notebooks, nextNotebookId, later)
    ensures FileTable(files, nextFileId, nextNotebookId, later)
  {
  }

  /** A new notebook under the next id, stamped with the current reading,
      keeps the notebook invariant; the file rows, all pointing at older
      ids, keep theirs. */
  lemma CreateKeepsTables(notebooks: map<string, Notebook>, files: seq<FileRecord>,
                          nextNotebookId: nat, nextFileId: nat, clock: nat, name: string)
    requires NotebookTable(notebooks, nextNotebookId, clock)
    requires FileTable(files, nextFileId, nextNotebookId, clock)
    requires |name| >= MinNameLength && name !in notebooks
    ensures NotebookTable(notebooks[name := Notebook(nextNotebookId, name, clock, clock)], nextNotebookId + 1, clock + 1)
    ensures FileTable(files, nextFileId, nextNotebookId + 1, clock + 1)
  {
    var row := Notebook(nextNotebookId, name, clock, clock);
    var after := notebooks[name := row];
    forall a, b | a in after && b in after && a != b
      ensures after[a].id != after[b].id
    {
      if a != name && b != name {
        assert after[a] == notebooks[a] && after[b] == notebooks[b];
      }
    }
  }

  /** Stamping an existing notebook with the current reading keeps the
      notebook invariant. */
  lemma TouchKeepsTable(notebooks: map<string, Notebook>, nextNotebookId: nat, clock: nat, name: string)
    requires NotebookTable(notebooks, nextNotebookId, clock)
    requires name in notebooks
    ensures NotebookTable(notebooks[name := notebooks[name].(updatedAt := clock)], nextNotebookId, clock + 1)
  {
    var after := notebooks[name := notebooks[name].(updatedAt := clock)];
    forall a, b | a in after && b in after && a != b
      ensures after[a].id != after[b].id
    {
      assert after[a].id == notebooks[a].id && after[b].id == notebooks[b].id;
    }
  }

  /** A new file row under the next id, uploaded at the current reading and
      pointing at an existing notebook id, keeps the file invariant. */
  lemma AddKeepsTable(files: seq<FileRecord>, nextFileId: nat, nextNotebookId: nat, clock: nat, row: FileRecord)
    requires FileTable(files, nextFileId, nextNotebookId, clock)
    requires row.id == nextFileId && row.notebookId < nextNotebookId && row.uploadDate == clock
    ensures FileTable(files + [row], nextFileId + 1, nextNotebookId, clock + 1)
  {
    var after := files + [row];
    forall i, j | 0 <= i < j < |after|
      ensures after[i].id < after[j].id && after[i].uploadDate < after[j].uploadDate
    {
      if j < |files| {
        assert after[i] == files[i] && after[j] == files[j];
      }
    }
  }

  // ---------------------------------------------------------------------
  // The catalogue
  // ---------------------------------------------------------------------

  class Database {
    /** `notebooks`, keyed by its unique name. */
    var notebooks: map<string, Notebook>
    /** `files`, in insertion order. */
    var files: seq<FileRecord>
    /** The AUTOINCREMENT counters: the next id each table hands out. */
    var nextNotebookId: nat
    var nextFileId: nat
    /** The next reading of `datetime.now()`. */
    var clock: nat

    /** The table constraints and the facts AUTOINCREMENT and the clock
        maintain. */
    ghost predicate Valid()
      reads this
    {
      NotebookTable(notebooks, nextNotebookId, clock)
      && FileTable(files, nextFileId, nextNotebookId, clock)
    }

    /** `initialize_database()`: both tables empty, both counters at 1. */
    constructor (start: nat)
      ensures Valid()
      ensures notebooks == map[] && files == []
      ensures nextNotebookId == 1 && nextFileId == 1 && clock == start
    {
      notebooks := map[];
      files := [];
      nextNotebookId := 1;
      nextFileId := 1;
      clock := start;
    }

    /** One reading of `datetime.now()`. */
    method Now() returns (t: nat)
      requires Valid()
      modifies this
      ensures Valid()
      ensures t == old(clock) && clock == old(clock) + 1
      ensures notebooks == old(notebooks) && files == old(files)
      ensures nextNotebookId == old(nextNotebookId) && nextFileId == old(nextFileId)
    {
      TablesLater(notebooks, files, nextNotebookId, nextFileId, clock, clock + 1);
      t := clock;
      clock := clock + 1;
    }

    /** `create_notebook(name)`: a name shorter than three characters is
        refused before the database is touched; a taken name is refused by
        the UNIQUE constraint and rolled back. Otherwise exactly one row is
        added, created and updated at the same instant, under a fresh id
        that no file row points at. */
    method CreateNotebook(name: string) returns (r: Outcome)
      requires Valid()
      modifies this
      ensures Valid()
      ensures |name| < MinNameLength ==> r == Fail(InvalidNotebookName) && clock == old(clock)
      ensures |name| >= MinNameLength && name in old(notebooks) ==> r == Fail(NotebookExists(name))
      ensures |name| >= MinNameLength ==> clock == old(clock) + 1
      ensures r.Fail? ==> notebooks == old(notebooks) && nextNotebookId == old(nextNotebookId)
      ensures r.Pass? <==> |name| >= MinNameLength && name !in old(notebooks)
      ensures r.Pass? ==>
                notebooks == old(notebooks)[name := Notebook(old(nextNotebookId), name, old(clock), old(clock))]
                && nextNotebookId == old(nextNotebookId) + 1
                && FilesOf(files, notebooks[name].id) == []
      ensures files == old(files) && nextFileId == old(nextFileId)
    {
      if |name| < MinNameLength {
        return Fail(InvalidNotebookName);
      }
      var now := Now();
      if name in notebooks {
        return Fail(NotebookExists(name));
      }
      NoFilesForUnusedId(files, nextNotebookId);
      CreateKeepsTables(notebooks, files, nextNotebookId, nextFileId, now, name);
      notebooks := notebooks[name := Notebook(nextNotebookId, name, now, now)];
      nextNotebookId := nextNotebookId + 1;
      r := Pass;
    }

    /** `get_notebook_by_name(name)`. */
    function GetNotebookByName(name: string): (r: Option<Notebook>)
      reads this
      ensures r.None? <==> name !in notebooks
      ensures r.Some? ==> r.value == notebooks[name]
    {
      if name in notebooks then Some(notebooks[name]) else None
    }

    /** `list_notebooks()`: every notebook once, most recently updated
        first. */
    method ListNotebooks() returns (r: seq<Notebook>)
      requires Valid()
      ensures RecentlyUpdatedFirst(r)
      ensures forall n :: n in r <==> n.name in notebooks && notebooks[n.name] == n
      ensures |r| == |notebooks|
    {
      r := ByRecency(notebooks);
    }

    /** `update_notebook(name)`: the clock is read first; an unknown name
        changes no row. */
    method UpdateNotebook(name: string) returns (updated: bool)
      requires Valid()
      modifies this
      ensures Valid()
      ensures updated <==> name in old(notebooks)
      ensures updated ==> notebooks == old(notebooks)[name := old(notebooks)[name].(updatedAt := old(clock))]
      ensures !updated ==> notebooks == old(notebooks)
      ensures clock == old(clock) + 1
      ensures files == old(files) && nextNotebookId == old(nextNotebookId) && nextFileId == old(nextFileId)
    {
      var now := Now();
      if name !in notebooks {
        return false;
      }
      TouchKeepsTable(notebooks, nextNotebookId, now, name);
      notebooks := notebooks[name := notebooks[name].(updatedAt := now)];
      updated := true;
    }

    /** `delete_notebook(name)`: the row goes, its files stay (there is no
        cascade). */
    method DeleteNotebook(name: string) returns (deleted: bool)
      requires Valid()
      modifies this
      ensures Valid()
      ensures deleted <==> name in old(notebooks)
      ensures notebooks == old(notebooks) - {name}
      ensures files == old(files) && nextNotebookId == old(nextNotebookId)
      ensures nextFileId == old(nextFileId) && clock == old(clock)
    {
      deleted := name in notebooks;
      notebooks := notebooks - {name};
    }

    /** `add_file(notebook_name, original_filename, stored_filename)`: one
        unprocessed row for the notebook, uploaded now, after which the
        notebook's update time is bumped by a second clock reading. */
    method AddFile(notebookName: string, originalFilename: string, storedFilename: string)
      returns (r: Outcome)
      requires Valid()
      modifies this
      ensures Valid()
      ensures r.Pass? <==> notebookName in old(notebooks)
      ensures r.Fail? ==> r == Fail(NotebookNotFound(notebookName)) && unchanged(this)
      ensures r.Pass? ==>
                var nb := old(notebooks)[notebookName];
                files == old(files) + [FileRecord(old(nextFileId), nb.id, originalFilename, storedFilename,
                                                  old(clock), false)]
                && nextFileId == old(nextFileId) + 1
                && notebooks == old(notebooks)[notebookName := nb.(updatedAt := old(clock) + 1)]
                && clock == old(clock) + 2
      ensures nextNotebookId == old(nextNotebookId)
    {
      if notebookName !in notebooks {
        return Fail(NotebookNotFound(notebookName));
      }
      var notebook := notebooks[notebookName];
      var now := Now();
      var row := FileRecord(nextFileId, notebook.id, originalFilename, storedFilename, now, false);
      AddKeepsTable(files, nextFileId, nextNotebookId, now, row);
      files := files + [row];
      nextFileId := nextFileId + 1;
      var _ := UpdateNotebook(notebookName);
      r := Pass;
    }

    /** `get_files_by_notebook(notebook_name)`: exactly the notebook's rows,
        newest upload first. */
    function GetFilesByNotebook(notebookName: string): (r: Result<seq<FileRecord>>)
      reads this
      ensures r.Err? <==> notebookName !in notebooks
      ensures r.Err? ==> r.error == NotebookNotFound(notebookName)
      ensures r.Ok? ==> forall f :: f in r.value <==> f in files && f.notebookId == notebooks[notebookName].id
    {
      if notebookName !in notebooks then Err(NotebookNotFound(notebookName))
      else Ok(Reversed(FilesOf(files, notebooks[notebookName].id)))
    }

    /** `get_unprocessed_files(notebook_name)`: the notebook's rows whose
        flag is clear, newest upload first; these are exactly the rows of
        `get_files_by_notebook` that are not yet processed. */
    function GetUnprocessedFiles(notebookName: string): (r: Result<seq<FileRecord>>)
      reads this
      ensures r.Err? <==> notebookName !in notebooks
      ensures r.Err? ==> r.error == NotebookNotFound(notebookName)
      ensures r.Ok? ==> forall f :: f in r.value <==> f in GetFilesByNotebook(notebookName).value && !f.isProcessed
    {
      if notebookName !in notebooks then Err(NotebookNotFound(notebookName))
      else Ok(Reversed(Unprocessed(FilesOf(files, notebooks[notebookName].id))))
    }

    /** Both file listings come newest upload first. */
    lemma FileListingsNewestFirst(notebookName: string)
      requires Valid()
      requires notebookName in notebooks
      ensures NewestUploadFirst(GetFilesByNotebook(notebookName).value)
      ensures NewestUploadFirst(GetUnprocessedFiles(notebookName).value)
    {
      var rows := FilesOf(files, notebooks[notebookName].id);
      FilesOfAscending(files, notebooks[notebookName].id);
      ReversedNewestFirst(rows);
      ReversedNewestFirst(Unprocessed(rows));
    }

    /** `mark_file_as_processed(file_id)`: sets the flag of the row with
        that id, if there is one. */
    method MarkFileAsProcessed(fileId: int) returns (marked: bool)
      requires Valid()
      modifies this
      ensures Valid()
      ensures marked <==> HasFile(old(files), fileId)
      ensures files == MarkedProcessed(old(files), fileId)
      ensures notebooks == old(notebooks) && clock == old(clock)
      ensures nextNotebookId == old(nextNotebookId) && nextFileId == old(nextFileId)
    {
      marked := HasFile(files, fileId);
      files := MarkedProcessed(files, fileId);
    }
  }

  /** Some row has the id. */
  predicate HasFile(files: seq<FileRecord>, fileId: int) {
    exists i :: 0 <= i < |files| && files[i].id == fileId
  }

  /** The file table after the processed flag is set on the rows with that
      id: every row keeps all its columns but the flag, which is set on the
      rows with that id and kept on the others. */
  function MarkedProcessed(files: seq<FileRecord>, fileId: int): (r: seq<FileRecord>)
    ensures |r| == |files|
    ensures forall i :: 0 <= i < |files| ==>
              r[i].isProcessed == (files[i].isProcessed || files[i].id == fileId)
              && r[i].(isProcessed := files[i].isProcessed) == files[i]
  {
    seq(|files|, i requires 0 <= i < |files| =>
      if files[i].id == fileId then files[i].(isProcessed := true) else files[i])
  }

  /** Marking twice is marking once. */
  lemma MarkIdempotent(files: seq<FileRecord>, fileId: int)
    ensures MarkedProcessed(MarkedProcessed(files, fileId), fileId) == MarkedProcessed(files, fileId)
  {
  }

  /** An id no row has leaves the rows as they are. */
  lemma MarkMissingUnchanged(files: seq<FileRecord>, fileId: int)
    requires !HasFile(files, fileId)
    ensures MarkedProcessed(files, fileId) == files
  {
  }

  /** After marking, the unprocessed rows of a notebook are the ones it had
      before, less the marked one. */
  lemma MarkRemovesFromUnprocessed(files: seq<FileRecord>, fileId: int, notebookId: nat)
    ensures forall f :: f in Unprocessed(FilesOf(MarkedProcessed(files, fileId), notebookId))
              <==> f in Unprocessed(FilesOf(files, notebookId)) && f.id != fileId
  {
    var marked := MarkedProcessed(files, fileId);
    forall f
      ensures f in marked && !f.isProcessed <==> f in files && !f.isProcessed && f.id != fileId
    {
      if f in marked && !f.isProcessed {
        var i :| 0 <= i < |marked| && marked[i] == f;
        assert files[i] == f;
      }
      if f in files && !f.isProcessed && f.id != fileId {
        var i :| 0 <= i < |files| && files[i] == f;
        assert marked[i] == f;
      }
    }
  }
}
