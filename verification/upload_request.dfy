/**
  One upload request as it runs: `upload_attachments`, `process_attachment_upload` and
  `cleanup_failed_upload_files` of apps/server/src/routes/attachments.rs.
 */
module UploadRequest {
  import opened Options
  import opened Uploads

  datatype Error = Validation | Storage | Database

  datatype Prepared = Accepted(content: Content) | Refused(error: Error)

  /**
    A field of the form. A file comes with what preparing it gives, and with whether its store and
    its insert succeed.
   */
  datatype Field = Broken | Other | File(prepared: Prepared, stores: bool, inserts: bool)

  /** What the request has done so far: its view of the account, and the keys it stored. */
  datatype Work = Work(
    used: nat, rows: seq<Row>, files: map<Key, Content>, next: Key, stored: seq<Key>, reply: seq<Row>)

  datatype Progress = Progress(work: Work, count: nat, error: Option<Error>)

  /** The first row with the content. */
  function Find(rows: seq<Row>, c: Content): Option<Row> {
    if rows == [] then None
    else
      var earlier := Find(rows[..|rows| - 1], c);
      if earlier.Some? then earlier
      else if rows[|rows| - 1].content == c then Some(rows[|rows| - 1])
      else None
  }

  function Stopped(w: Work, count: nat, e: Error): Progress {
    Progress(w, count, Some(e))
  }

  /** A prepared file: reused, or reserved, stored and inserted, unless one of these fails. */
  function TakeFile(w: Work, count: nat, c: Content, stores: bool, inserts: bool): Progress {
    var existing := Find(w.rows, c);
    if existing.Some? then Progress(w.(reply := w.reply + [existing.value]), count, None)
    else if w.used + c.size > QUOTA then Stopped(w, count, Validation)
    else if !stores then Stopped(w.(used := w.used + c.size), count, Storage)
    else
      var held := w.(used := w.used + c.size, files := w.files[w.next := c], next := w.next + 1,
                     stored := w.stored + [w.next]);
      if !inserts then Stopped(held, count, Database)
      else
        var row := Row(w.next, w.next, c);
        Progress(held.(rows := w.rows + [row], reply := w.reply + [row]), count, None)
  }

  function TakeField(p: Progress, f: Field, maxFiles: nat): Progress {
    match f
    case Broken => Stopped(p.work, p.count, Validation)
    case Other => p
    case File(prepared, stores, inserts) =>
      if p.count + 1 > maxFiles then Stopped(p.work, p.count + 1, Validation)
      else if prepared.Refused? then Stopped(p.work, p.count + 1, prepared.error)
      else TakeFile(p.work, p.count + 1, prepared.content, stores, inserts)
  }

  /** After the first `n` fields; an error stops the request. */
  function Taken(begin: Work, fields: seq<Field>, n: nat, maxFiles: nat): Progress
    requires n <= |fields|
  {
    if n == 0 then Progress(begin, 0, None)
    else
      var p := Taken(begin, fields, n - 1, maxFiles);
      if p.error.Some? then p else TakeField(p, fields[n - 1], maxFiles)
  }

  // ---------- What a request keeps ----------

  function KeySet(keys: seq<Key>): set<Key> {
    set k | k in keys
  }

  /** The counter is the sum of the rows, no content is there twice, and every file has its row. */
  ghost predicate InOrder(used: nat, rows: seq<Row>, files: map<Key, Content>, next: Key) {
    && used == Charged(rows) <= QUOTA
    && Distinct(rows)
    && Backed(files, rows)
    && (forall k :: k in files <==> HasKey(rows, k))
    && (forall k :: k in files ==> k < next)
  }

  lemma {:induction false} FindFirst(rows: seq<Row>, c: Content)
    ensures Find(rows, c).Some? <==> HasContent(rows, c)
    ensures Find(rows, c).Some? ==> Find(rows, c).value in rows && Find(rows, c).value.content == c
  {
    if rows != [] {
      FindFirst(rows[..|rows| - 1], c);
      if Find(rows, c).Some? {
        var i :| 0 <= i < |rows| && rows[i] == Find(rows, c).value;
      }
    }
  }

  /** The files outside what the request stored are the files it began with. */
  predicate StoredApart(begin: Work, w: Work) {
    && begin.next <= w.next
    && (forall k :: k in w.stored ==> begin.next <= k < w.next)
    && (forall k :: k in begin.files ==> k < begin.next)
    && w.files - KeySet(w.stored) == begin.files
  }

  lemma {:induction false} TakenStores(begin: Work, fields: seq<Field>, n: nat, maxFiles: nat)
    requires n <= |fields| && begin.stored == [] && forall k :: k in begin.files ==> k < begin.next
    ensures StoredApart(begin, Taken(begin, fields, n, maxFiles).work)
  {
    if n > 0 {
      TakenStores(begin, fields, n - 1, maxFiles);
      var before, after := Taken(begin, fields, n - 1, maxFiles).work, Taken(begin, fields, n, maxFiles).work;
      if after.stored != before.stored {
        assert after.stored == before.stored + [before.next];
        assert KeySet(after.stored) == KeySet(before.stored) + {before.next};
        assert after.files - KeySet(after.stored) == before.files - KeySet(before.stored);
      }
    }
  }

  lemma AddedDistinct(rows: seq<Row>, row: Row)
    requires Distinct(rows) && !HasContent(rows, row.content)
    ensures Distinct(rows + [row])
  {
    assert forall i :: 0 <= i < |rows| ==> rows[i].content != row.content;
  }

  lemma AddedBacked(files: map<Key, Content>, rows: seq<Row>, next: Key, c: Content)
    requires Backed(files, rows) && next !in files
    ensures Backed(files[next := c], rows + [Row(next, next, c)])
  {
  }

  lemma AddedRow(w: Work, c: Content)
    requires InOrder(w.used, w.rows, w.files, w.next) && !HasContent(w.rows, c) && w.used + c.size <= QUOTA
    ensures InOrder(w.used + c.size, w.rows + [Row(w.next, w.next, c)], w.files[w.next := c], w.next + 1)
  {
    var row := Row(w.next, w.next, c);
    assert Charged(w.rows + [row]) == w.used + c.size by {
      ChargedSum(w.rows, [row]);
      ChargedOne(row);
    }
    AddedDistinct(w.rows, row);
    AddedBacked(w.files, w.rows, w.next, c);
    CommittedKeys(w.rows, [row], [w.next]);
  }

  lemma {:induction false} TakenInOrder(begin: Work, fields: seq<Field>, n: nat, maxFiles: nat)
    requires n <= |fields| && InOrder(begin.used, begin.rows, begin.files, begin.next)
    requires Taken(begin, fields, n, maxFiles).error.None?
    ensures var w := Taken(begin, fields, n, maxFiles).work; InOrder(w.used, w.rows, w.files, w.next)
  {
    if n > 0 {
      TakenInOrder(begin, fields, n - 1, maxFiles);
      var w := Taken(begin, fields, n - 1, maxFiles).work;
      if fields[n - 1].File? {
        var c := fields[n - 1].prepared.content;
        FindFirst(w.rows, c);
        if !HasContent(w.rows, c) {
          AddedRow(w, c);
        }
      }
    }
  }

  /** The content of a field that is an accepted file. */
  function ContentOf(f: Field): seq<Content> {
    if f.File? && f.prepared.Accepted? then [f.prepared.content] else []
  }

  /** The contents of the files among the first `n` fields. */
  function FileContents(fields: seq<Field>, n: nat): seq<Content>
    requires n <= |fields|
  {
    if n == 0 then [] else FileContents(fields, n - 1) + ContentOf(fields[n - 1])
  }

  function RowContents(rows: seq<Row>): seq<Content> {
    if rows == [] then [] else RowContents(rows[..|rows| - 1]) + [rows[|rows| - 1].content]
  }

  lemma RowContentsSnoc(rows: seq<Row>, row: Row)
    ensures RowContents(rows + [row]) == RowContents(rows) + [row.content]
  {
    assert (rows + [row])[..|rows|] == rows;
  }

  lemma HasContentSnoc(rows: seq<Row>, row: Row, d: Content)
    ensures HasContent(rows + [row], d) <==> HasContent(rows, d) || d == row.content
  {
    var all := rows + [row];
    assert all[|rows|].content == row.content;
    if HasContent(rows, d) {
      var i :| 0 <= i < |rows| && rows[i].content == d;
      assert all[i].content == d;
    }
  }

  /** Taking a file that goes through answers with one more row, of its content. */
  lemma FileAnswered(w: Work, count: nat, c: Content, stores: bool, inserts: bool)
    requires TakeFile(w, count, c, stores, inserts).error.None?
    ensures var after := TakeFile(w, count, c, stores, inserts).work;
      && |after.reply| == |w.reply| + 1 && after.reply == w.reply + [after.reply[|w.reply|]]
      && after.reply[|w.reply|].content == c
      && (after.rows == w.rows || after.rows == w.rows + [after.reply[|w.reply|]])
      && after.reply[|w.reply|] in after.rows
      && (after.rows == w.rows ==> HasContent(w.rows, c))
  {
    FindFirst(w.rows, c);
  }

  lemma FieldAnswered(p: Progress, f: Field, maxFiles: nat)
    requires p.error.None? && TakeField(p, f, maxFiles).error.None?
    ensures var after := TakeField(p, f, maxFiles).work;
      && RowContents(after.reply) == RowContents(p.work.reply) + ContentOf(f)
      && (after.rows == p.work.rows || (after.rows != [] && after.rows[..|after.rows| - 1] == p.work.rows))
  {
    if f.File? {
      var w, after := p.work, TakeField(p, f, maxFiles).work;
      FileAnswered(w, p.count + 1, f.prepared.content, f.stores, f.inserts);
      RowContentsSnoc(w.reply, after.reply[|w.reply|]);
    } else {
      assert RowContents(p.work.reply) + [] == RowContents(p.work.reply);
    }
  }

  /** Without an error, the reply names one row for each file, in order and with the file's content. */
  lemma {:induction false} EveryFileAnswered(begin: Work, fields: seq<Field>, n: nat, maxFiles: nat)
    requires n <= |fields| && begin.reply == [] && Taken(begin, fields, n, maxFiles).error.None?
    ensures RowContents(Taken(begin, fields, n, maxFiles).work.reply) == FileContents(fields, n)
  {
    if n > 0 {
      EveryFileAnswered(begin, fields, n - 1, maxFiles);
      AnsweredNext(Taken(begin, fields, n - 1, maxFiles), Taken(begin, fields, n, maxFiles), fields, n, maxFiles);
    }
  }

  lemma AnsweredNext(p: Progress, q: Progress, fields: seq<Field>, n: nat, maxFiles: nat)
    requires 0 < n <= |fields| && p.error.None? && q.error.None? && q == TakeField(p, fields[n - 1], maxFiles)
    requires RowContents(p.work.reply) == FileContents(fields, n - 1)
    ensures RowContents(q.work.reply) == FileContents(fields, n)
  {
    FieldAnswered(p, fields[n - 1], maxFiles);
  }

  lemma FieldReplies(p: Progress, f: Field, maxFiles: nat, row: Row)
    requires p.error.None? && TakeField(p, f, maxFiles).error.None?
    requires forall r :: r in p.work.reply ==> r in p.work.rows
    requires row in TakeField(p, f, maxFiles).work.reply
    ensures row in TakeField(p, f, maxFiles).work.rows
  {
    if f.File? {
      FileAnswered(p.work, p.count + 1, f.prepared.content, f.stores, f.inserts);
    }
  }

  /** Every row of the reply is in the table. */
  lemma {:induction false} RepliesInTable(begin: Work, fields: seq<Field>, n: nat, maxFiles: nat)
    requires n <= |fields| && begin.reply == [] && Taken(begin, fields, n, maxFiles).error.None?
    ensures var w := Taken(begin, fields, n, maxFiles).work; forall row :: row in w.reply ==> row in w.rows
  {
    if n > 0 {
      var p := Taken(begin, fields, n - 1, maxFiles);
      RepliesInTable(begin, fields, n - 1, maxFiles);
      assert Taken(begin, fields, n, maxFiles) == TakeField(p, fields[n - 1], maxFiles);
      forall row | row in Taken(begin, fields, n, maxFiles).work.reply
        ensures row in Taken(begin, fields, n, maxFiles).work.rows
      {
        FieldReplies(p, fields[n - 1], maxFiles, row);
      }
    }
  }

  lemma FieldContents(p: Progress, f: Field, maxFiles: nat, d: Content)
    requires p.error.None? && TakeField(p, f, maxFiles).error.None?
    ensures HasContent(TakeField(p, f, maxFiles).work.rows, d) <==> HasContent(p.work.rows, d) || d in ContentOf(f)
  {
    if f.File? {
      var w, after := p.work, TakeField(p, f, maxFiles).work;
      FileAnswered(w, p.count + 1, f.prepared.content, f.stores, f.inserts);
      HasContentSnoc(w.rows, after.reply[|w.reply|], d);
    }
  }

  /** The contents of the table grow by exactly those of the files. */
  lemma {:induction false} ContentsAdded(begin: Work, fields: seq<Field>, n: nat, maxFiles: nat, d: Content)
    requires n <= |fields| && Taken(begin, fields, n, maxFiles).error.None?
    ensures HasContent(Taken(begin, fields, n, maxFiles).work.rows, d) <==>
      HasContent(begin.rows, d) || d in FileContents(fields, n)
  {
    if n > 0 {
      var p := Taken(begin, fields, n - 1, maxFiles);
      ContentsAdded(begin, fields, n - 1, maxFiles, d);
      assert Taken(begin, fields, n, maxFiles) == TakeField(p, fields[n - 1], maxFiles);
      FieldContents(p, fields[n - 1], maxFiles, d);
    }
  }

  // ---------- The request on the account ----------

  class Account {
    var used: nat
    var rows: seq<Row>
    var files: map<Key, Content>
    var next: Key

    ghost predicate Valid()
      reads this
    {
      InOrder(used, rows, files, next)
    }

    constructor ()
      ensures Valid() && rows == [] && used == 0
    {
      used, rows, files, next := 0, [], map[], 0;
    }

    function Start(): Work
      reads this
    {
      Work(used, rows, files, next, [], [])
    }

    method FindRow(table: seq<Row>, c: Content) returns (found: Option<Row>)
      ensures found == Find(table, c)
    {
      for i := 0 to |table|
        invariant Find(table[..i], c).None?
      {
        assert table[..i + 1][..i] == table[..i];
        if table[i].content == c {
          FirstStays(table, i + 1, c);
          return Some(table[i]);
        }
      }
      assert table[..|table|] == table;
      found := None;
    }

    /**
      Works through the form. Files are stored as it goes; the counter and the rows of the
      transaction are `txUsed` and `txRows`.
     */
    method ProcessAttachmentUpload(fields: seq<Field>, maxFiles: nat)
      returns (error: Option<Error>, txUsed: nat, txRows: seq<Row>, stored: seq<Key>, reply: seq<Row>)
      modifies this`files, this`next
      ensures var p := Taken(old(Start()), fields, |fields|, maxFiles);
        && Work(txUsed, txRows, files, next, stored, reply) == p.work
        && error == if p.error.None? && reply == [] then Some(Validation) else p.error
    {
      txUsed, txRows, stored, reply := used, rows, [], [];
      var count := 0;
      ghost var begin := Start();
      for i := 0 to |fields|
        invariant Progress(Work(txUsed, txRows, files, next, stored, reply), count, None) ==
          Taken(begin, fields, i, maxFiles)
      {
        if Taken(begin, fields, i + 1, maxFiles).error.Some? {
          ErrorStays(begin, fields, i + 1, |fields|, maxFiles);
        }
        match fields[i] {
          case Broken =>
            error := Some(Validation);
            return;
          case Other =>
          case File(prepared, stores, inserts) =>
            count := count + 1;
            if count > maxFiles {
              error := Some(Validation);
              return;
            }
            if prepared.Refused? {
              error := Some(prepared.error);
              return;
            }
            var c := prepared.content;
            var existing := FindRow(txRows, c);
            if existing.Some? {
              reply := reply + [existing.value];
            } else {
              if txUsed + c.size > QUOTA {
                error := Some(Validation);
                return;
              }
              txUsed := txUsed + c.size;
              if !stores {
                error := Some(Storage);
                return;
              }
              var row := Row(next, next, c);
              files := files[next := c];
              stored := stored + [next];
              next := next + 1;
              if !inserts {
                error := Some(Database);
                return;
              }
              txRows := txRows + [row];
              reply := reply + [row];
            }
        }
      }
      error := if reply == [] then Some(Validation) else None;
    }

    method CleanupFailedUploadFiles(stored: seq<Key>)
      modifies this`files
      ensures files == old(files) - KeySet(stored)
    {
      var begin := files;
      for i := |stored| downto 0
        invariant files == begin - KeySet(stored[i..])
      {
        files := files - {stored[i]};
        assert stored[i..] == [stored[i]] + stored[i + 1..];
        assert KeySet(stored[i..]) == {stored[i]} + KeySet(stored[i + 1..]);
      }
      assert stored[0..] == stored;
    }

    /**
      A request that fails at any file, or whose commit fails, leaves the rows, the counter and the
      stored files as they were; one that succeeds keeps the account in order.
     */
    method UploadAttachments(fields: seq<Field>, maxFiles: nat, commits: bool)
      returns (error: Option<Error>, reply: seq<Row>)
      requires Valid()
      modifies this
      ensures Valid()
      ensures var p := Taken(old(Start()), fields, |fields|, maxFiles);
        && (error.None? <==> commits && p.error.None? && p.work.reply != [])
        && (error.None? ==>
              Work(used, rows, files, next, [], []) == p.work.(stored := [], reply := []) && reply == p.work.reply)
      ensures error.Some? ==> used == old(used) && rows == old(rows) && files == old(files)
    {
      ghost var begin := Start();
      TakenStores(begin, fields, |fields|, maxFiles);
      var txUsed, txRows, stored;
      error, txUsed, txRows, stored, reply := ProcessAttachmentUpload(fields, maxFiles);
      if error.None? {
        if commits {
          used, rows := txUsed, txRows;
          TakenInOrder(begin, fields, |fields|, maxFiles);
          return;
        }
        error := Some(Database);
      }
      CleanupFailedUploadFiles(stored);
    }
  }

  lemma {:induction false} FirstStays(rows: seq<Row>, n: nat, c: Content)
    requires 0 < n <= |rows| && Find(rows[..n], c).Some?
    ensures Find(rows, c) == Find(rows[..n], c)
  {
    if n == |rows| {
      assert rows[..n] == rows;
    } else {
      assert rows[..|rows| - 1][..n] == rows[..n];
      FirstStays(rows[..|rows| - 1], n, c);
    }
  }

  lemma {:induction false} ErrorStays(begin: Work, fields: seq<Field>, n: nat, m: nat, maxFiles: nat)
    requires n <= m <= |fields| && Taken(begin, fields, n, maxFiles).error.Some?
    ensures Taken(begin, fields, m, maxFiles) == Taken(begin, fields, n, maxFiles)
  {
    if n < m {
      ErrorStays(begin, fields, n, m - 1, maxFiles);
    }
  }

  // ---------- Uploading again ----------

  /** The same file, whatever its store and insert would do. */
  predicate SameFile(a: Field, b: Field) {
    || a == b == Other
    || (a.File? && b.File? && a.prepared == b.prepared)
  }

  lemma {:induction false} DistinctRow(rows: seq<Row>, row: Row)
    requires Distinct(rows) && row in rows
    ensures Find(rows, row.content) == Some(row)
  {
    FindFirst(rows, row.content);
    var i :| 0 <= i < |rows| && rows[i] == row;
    assert HasContent(rows, row.content);
    var found := Find(rows, row.content).value;
    var j :| 0 <= j < |rows| && rows[j] == found;
  }

  /**
    Sending the same files again charges nothing and stores nothing: the second request answers with
    exactly the rows of the first, even if the store is full or broken by then.
   */
  lemma {:induction false} SecondUploadIsFree(begin: Work, fields: seq<Field>, again: seq<Field>, n: nat, maxFiles: nat)
    requires n <= |fields| == |again| && begin.reply == [] && InOrder(begin.used, begin.rows, begin.files, begin.next)
    requires forall i :: 0 <= i < |fields| ==> SameFile(fields[i], again[i])
    requires Taken(begin, fields, |fields|, maxFiles).error.None?
    ensures var done := Taken(begin, fields, |fields|, maxFiles).work.(stored := [], reply := []);
      var first, second := Taken(begin, fields, n, maxFiles), Taken(done, again, n, maxFiles);
      && first.error.None? && second == Progress(done.(reply := first.work.reply), first.count, None)
  {
    var last := Taken(begin, fields, |fields|, maxFiles).work;
    if Taken(begin, fields, n, maxFiles).error.Some? {
      ErrorStays(begin, fields, n, |fields|, maxFiles);
    }
    if n > 0 {
      SecondUploadIsFree(begin, fields, again, n - 1, maxFiles);
      var p, q := Taken(begin, fields, n - 1, maxFiles), Taken(begin, fields, n, maxFiles);
      assert SameFile(fields[n - 1], again[n - 1]);
      if fields[n - 1].File? {
        var row := q.work.reply[|q.work.reply| - 1];
        FileAnswered(p.work, q.count, fields[n - 1].prepared.content, fields[n - 1].stores, fields[n - 1].inserts);
        FindFirst(p.work.rows, fields[n - 1].prepared.content);
        RowsGrow(begin, fields, n, |fields|, maxFiles);
        TakenInOrder(begin, fields, |fields|, maxFiles);
        DistinctRow(last.rows, row);
      }
    }
  }

  lemma {:induction false} RowsGrow(begin: Work, fields: seq<Field>, n: nat, m: nat, maxFiles: nat)
    requires n <= m <= |fields|
    ensures forall row :: row in Taken(begin, fields, n, maxFiles).work.rows ==>
      row in Taken(begin, fields, m, maxFiles).work.rows
  {
    if n < m {
      RowsGrow(begin, fields, n, m - 1, maxFiles);
    }
  }
}
