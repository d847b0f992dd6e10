/**
  One user's uploads (apps/server/src/routes/attachments.rs): the rows charged to the account and the
  locked steps of the requests that add them, interleaved with each other and with the release of
  unused uploads.

  A request runs in one transaction. For each file it takes an advisory lock on the content, looks for
  a row with that content, and on a miss reserves the bytes, stores the file and inserts a row. The
  reservation updates the user's row, so it holds the row lock until the transaction ends. All rows
  are clean: an upload inserts no others.
 */
module Uploads {
  type RequestId = nat
  type RowId = nat
  type Key = nat

  const QUOTA := 1_073_741_824

  /** A prepared file. Its size is never zero: `validate_upload_file_meta` refuses empty files. */
  datatype Content = Content(sha256: string, size: nat, mime: string, name: string)

  datatype Row = Row(id: RowId, key: Key, content: Content)

  datatype Stage =
    | Idle
    | Locked(content: Content)
    | Missing(content: Content)
    | Reserved(content: Content)
    | Stored(content: Content, key: Key)

  datatype Request =
    /** `rows` are inserted but not committed; `reply` lists the rows answered so far. */
    | Open(stage: Stage, locks: set<Content>, rows: seq<Row>, reserved: nat, keys: seq<Key>, reply: seq<Row>)
    /** Rolled back, with files still to delete. */
    | Cleaning(keys: seq<Key>)

  /** The committed counter and rows, the stored files, and the files queued for deletion. */
  datatype State = State(
    used: nat, rows: seq<Row>, files: map<Key, Content>, queued: set<Key>, requests: map<RequestId, Request>)

  datatype Event =
    | Begin(r: RequestId)
    | Lock(r: RequestId, content: Content)
    | Reuse(r: RequestId, row: Row)
    | Miss(r: RequestId)
    | Reserve(r: RequestId)
    | Store(r: RequestId, key: Key)
    | Insert(r: RequestId, id: RowId)
    | Commit(r: RequestId)
    /** Any error: a refused or full quota, a failed store, insert or commit. It rolls back. */
    | Fail(r: RequestId)
    /** Deletes the last stored file of a rolled back request; without one the request is over. */
    | Clean(r: RequestId)
    /** Deletes the row at `i`, frees its bytes and queues its file. */
    | Release(i: nat)
    | DeleteQueued(key: Key)

  function Charged(rows: seq<Row>): nat {
    if rows == [] then 0 else Charged(rows[..|rows| - 1]) + rows[|rows| - 1].content.size
  }

  predicate HasContent(rows: seq<Row>, c: Content) {
    exists i :: 0 <= i < |rows| && rows[i].content == c
  }

  predicate IsOpen(s: State, r: RequestId) {
    r in s.requests && s.requests[r].Open?
  }

  /** `UPDATE users ...` waits while another transaction has updated the user's row. */
  ghost predicate UserFree(s: State, r: RequestId) {
    forall o :: o != r && IsOpen(s, o) ==> s.requests[o].reserved == 0
  }

  /** The advisory lock of a content is held by one transaction at a time. */
  ghost predicate LockFree(s: State, r: RequestId, c: Content) {
    forall o :: o != r && IsOpen(s, o) ==> c !in s.requests[o].locks
  }

  /** A row found by a request stays locked until its transaction ends. */
  ghost predicate RowFree(s: State, row: Row) {
    forall o :: IsOpen(s, o) ==> row !in s.requests[o].reply
  }

  function Put(s: State, r: RequestId, q: Request): State {
    s.(requests := s.requests[r := q])
  }

  ghost predicate Step(s: State, e: Event, t: State) {
    match e
    case Begin(r) =>
      r !in s.requests && t == Put(s, r, Open(Idle, {}, [], 0, [], []))
    case Lock(r, c) =>
      && IsOpen(s, r) && s.requests[r].stage == Idle && c.size > 0 && LockFree(s, r, c)
      && t == Put(s, r, s.requests[r].(stage := Locked(c), locks := s.requests[r].locks + {c}))
    case Reuse(r, row) =>
      && IsOpen(s, r) && s.requests[r].stage == Locked(row.content)
      && (row in s.rows || row in s.requests[r].rows)
      && t == Put(s, r, s.requests[r].(stage := Idle, reply := s.requests[r].reply + [row]))
    case Miss(r) =>
      && IsOpen(s, r) && s.requests[r].stage.Locked?
      && var c := s.requests[r].stage.content;
         && !HasContent(s.rows, c) && !HasContent(s.requests[r].rows, c)
         && t == Put(s, r, s.requests[r].(stage := Missing(c)))
    case Reserve(r) =>
      && IsOpen(s, r) && s.requests[r].stage.Missing? && UserFree(s, r)
      && var c := s.requests[r].stage.content;
         && s.used + s.requests[r].reserved + c.size <= QUOTA
         && t == Put(s, r, s.requests[r].(stage := Reserved(c), reserved := s.requests[r].reserved + c.size))
    case Store(r, key) =>
      && IsOpen(s, r) && s.requests[r].stage.Reserved? && key !in s.files
      && var c := s.requests[r].stage.content;
         t == Put(s, r, s.requests[r].(stage := Stored(c, key), keys := s.requests[r].keys + [key]))
              .(files := s.files[key := c])
    case Insert(r, id) =>
      && IsOpen(s, r) && s.requests[r].stage.Stored?
      && var row := Row(id, s.requests[r].stage.key, s.requests[r].stage.content);
         t == Put(s, r, s.requests[r].(stage := Idle, rows := s.requests[r].rows + [row],
                                       reply := s.requests[r].reply + [row]))
    case Commit(r) =>
      && IsOpen(s, r) && s.requests[r].stage == Idle && s.requests[r].reply != []
      && t == s.(used := s.used + s.requests[r].reserved, rows := s.rows + s.requests[r].rows,
                 requests := s.requests - {r})
    case Fail(r) =>
      IsOpen(s, r) && t == Put(s, r, Cleaning(s.requests[r].keys))
    case Clean(r) =>
      && r in s.requests && s.requests[r].Cleaning?
      && var keys := s.requests[r].keys;
         if keys == [] then t == s.(requests := s.requests - {r})
         else t == Put(s, r, Cleaning(keys[..|keys| - 1])).(files := s.files - {keys[|keys| - 1]})
    case Release(i) =>
      && i < |s.rows| && RowFree(s, s.rows[i]) && (forall o :: IsOpen(s, o) ==> s.requests[o].reserved == 0)
      && t == s.(used := if s.used > s.rows[i].content.size then s.used - s.rows[i].content.size else 0,
                 rows := s.rows[..i] + s.rows[i + 1..], queued := s.queued + {s.rows[i].key})
    case DeleteQueued(key) =>
      key in s.queued && t == s.(files := s.files - {key}, queued := s.queued - {key})
  }

  /** `states` is a run: it starts empty and each event leads from one state to the next. */
  ghost predicate IsRun(states: seq<State>, events: seq<Event>) {
    && |states| == |events| + 1
    && states[0] == State(0, [], map[], {}, map[])
    && forall i :: 0 <= i < |events| ==> Step(states[i], events[i], states[i + 1])
  }

  // ---------- The account ----------

  predicate Distinct(rows: seq<Row>) {
    forall i, j :: 0 <= i < j < |rows| ==> rows[i].content != rows[j].content
  }

  /** Bytes reserved for a file whose row is not inserted yet. */
  function InFlight(stage: Stage): nat {
    if stage.Reserved? || stage.Stored? then stage.content.size else 0
  }

  /** No committed row and no row of the request itself has the content. */
  predicate New(rows: seq<Row>, own: seq<Row>, c: Content) {
    !HasContent(rows, c) && !HasContent(own, c)
  }

  /** What one open request keeps about its rows, locks and bytes. */
  predicate OpenOk(rows: seq<Row>, q: Request)
    requires q.Open?
  {
    && q.reserved == Charged(q.rows) + InFlight(q.stage)
    && Distinct(q.rows)
    && (forall i :: 0 <= i < |q.rows| ==>
          q.rows[i].content.size > 0 && q.rows[i].content in q.locks && !HasContent(rows, q.rows[i].content))
    && (!q.stage.Idle? ==> q.stage.content in q.locks && q.stage.content.size > 0)
    && (q.stage.Missing? || q.stage.Reserved? || q.stage.Stored? ==> New(rows, q.rows, q.stage.content))
    && (forall row :: row in q.reply ==> row in rows || row in q.rows)
  }

  ghost predicate RequestsOk(s: State) {
    && (forall r :: IsOpen(s, r) ==> OpenOk(s.rows, s.requests[r]) && s.used + s.requests[r].reserved <= QUOTA)
    && (forall r, o :: r != o && IsOpen(s, r) && IsOpen(s, o) ==>
          && s.requests[r].locks !! s.requests[o].locks
          && (s.requests[r].reserved == 0 || s.requests[o].reserved == 0))
  }

  ghost predicate AccountOk(s: State) {
    s.used == Charged(s.rows) <= QUOTA && Distinct(s.rows) && RequestsOk(s)
  }

  lemma {:induction false} ChargedSum(a: seq<Row>, b: seq<Row>)
    ensures Charged(a + b) == Charged(a) + Charged(b)
  {
    if b == [] {
      assert a + b == a;
    } else {
      ChargedSum(a, b[..|b| - 1]);
      assert (a + b)[..|a + b| - 1] == a + b[..|b| - 1];
    }
  }

  lemma ChargedOne(row: Row)
    ensures Charged([row]) == row.content.size
  {
    var none: seq<Row> := [];
    assert [row][..0] == none;
  }

  lemma ChargedWithout(rows: seq<Row>, i: nat)
    requires i < |rows|
    ensures Charged(rows[..i] + rows[i + 1..]) + rows[i].content.size == Charged(rows)
  {
    RowCut(rows, i);
    ChargedAround(rows[..i], rows[i], rows[i + 1..]);
  }

  lemma RowCut(rows: seq<Row>, i: nat)
    requires i < |rows|
    ensures rows == rows[..i] + ([rows[i]] + rows[i + 1..])
  {
  }

  lemma ChargedAround(a: seq<Row>, row: Row, b: seq<Row>)
    ensures Charged(a + ([row] + b)) == Charged(a + b) + row.content.size
  {
    ChargedSum(a, [row] + b);
    ChargedSum([row], b);
    ChargedSum(a, b);
    ChargedOne(row);
  }

  // ---------- Each event keeps the account ----------

  /** A request may change if it stays in order and shares no lock and no reservation. */
  lemma PutKeeps(s: State, r: RequestId, q: Request)
    requires AccountOk(s)
    requires q.Open? ==> OpenOk(s.rows, q) && s.used + q.reserved <= QUOTA
    requires q.Open? ==> forall o :: o != r && IsOpen(s, o) ==>
      q.locks !! s.requests[o].locks && (q.reserved == 0 || s.requests[o].reserved == 0)
    ensures AccountOk(Put(s, r, q))
  {
    var t := Put(s, r, q);
    forall o | IsOpen(t, o)
      ensures OpenOk(t.rows, t.requests[o]) && t.used + t.requests[o].reserved <= QUOTA
    {
      assert o == r || IsOpen(s, o);
    }
    forall a, b | a != b && IsOpen(t, a) && IsOpen(t, b)
      ensures t.requests[a].locks !! t.requests[b].locks
      ensures t.requests[a].reserved == 0 || t.requests[b].reserved == 0
    {
      assert a == r || IsOpen(s, a);
      assert b == r || IsOpen(s, b);
    }
  }

  lemma InsertedOk(rows: seq<Row>, q: Request, id: RowId)
    requires q.Open? && OpenOk(rows, q) && q.stage.Stored?
    ensures var row := Row(id, q.stage.key, q.stage.content);
      OpenOk(rows, q.(stage := Idle, rows := q.rows + [row], reply := q.reply + [row]))
  {
    var row := Row(id, q.stage.key, q.stage.content);
    ChargedSum(q.rows, [row]);
    ChargedOne(row);
    assert forall i :: 0 <= i < |q.rows| ==> q.rows[i].content != row.content;
  }

  /** The steps of one open request that commit nothing. */
  lemma RequestStepKeeps(s: State, e: Event, t: State)
    requires AccountOk(s) && Step(s, e, t)
    requires e.Begin? || e.Lock? || e.Reuse? || e.Miss? || e.Reserve? || e.Insert? || e.Fail?
    ensures AccountOk(t)
  {
    var r := e.r;
    if e.Insert? {
      InsertedOk(s.rows, s.requests[r], e.id);
    }
    PutKeeps(s, r, t.requests[r]);
  }

  /** Rows of one request joining the table: they have no content another request has locked. */
  lemma CommitKeepsOther(s: State, r: RequestId, o: RequestId)
    requires AccountOk(s) && IsOpen(s, r) && IsOpen(s, o) && r != o
    ensures OpenOk(s.rows + s.requests[r].rows, s.requests[o])
    ensures s.used + s.requests[r].reserved + s.requests[o].reserved <= QUOTA
  {
    var rows, own: seq<Row> := s.rows, s.requests[r].rows;
    forall c: Content, i: int | c in s.requests[o].locks && !HasContent(rows, c) && 0 <= i < |rows + own|
      ensures (rows + own)[i].content != c
    {
      assert i >= |rows| ==> own[i - |rows|].content in s.requests[r].locks;
    }
  }

  lemma CommitKeeps(s: State, r: RequestId, t: State)
    requires AccountOk(s) && Step(s, Commit(r), t)
    ensures AccountOk(t)
  {
    var own := s.requests[r].rows;
    ChargedSum(s.rows, own);
    forall i, j | 0 <= i < j < |t.rows|
      ensures t.rows[i].content != t.rows[j].content
    {
      if i < |s.rows| <= j {
        assert !HasContent(s.rows, own[j - |s.rows|].content);
      }
    }
    forall o | IsOpen(t, o)
      ensures OpenOk(t.rows, t.requests[o]) && t.used + t.requests[o].reserved <= QUOTA
    {
      CommitKeepsOther(s, r, o);
    }
  }

  lemma ReleaseKeepsOpen(s: State, i: nat, o: RequestId)
    requires AccountOk(s) && i < |s.rows| && RowFree(s, s.rows[i]) && IsOpen(s, o)
    ensures OpenOk(s.rows[..i] + s.rows[i + 1..], s.requests[o])
  {
    var rest, q := s.rows[..i] + s.rows[i + 1..], s.requests[o];
    forall c | HasContent(rest, c)
      ensures HasContent(s.rows, c)
    {
      var k :| 0 <= k < |rest| && rest[k].content == c;
      assert rest[k] == s.rows[if k < i then k else k + 1];
    }
    forall row | row in q.reply && row !in q.rows
      ensures row in rest
    {
      var k :| 0 <= k < |s.rows| && s.rows[k] == row;
      assert k != i;
      assert rest[if k < i then k else k - 1] == row;
    }
  }

  lemma DistinctWithout(rows: seq<Row>, i: nat)
    requires Distinct(rows) && i < |rows|
    ensures Distinct(rows[..i] + rows[i + 1..])
  {
    var rest := rows[..i] + rows[i + 1..];
    forall a, b | 0 <= a < b < |rest|
      ensures rest[a].content != rest[b].content
    {
      assert rest[a] == rows[if a < i then a else a + 1];
      assert rest[b] == rows[if b < i then b else b + 1];
    }
  }

  lemma ReleaseKeeps(s: State, i: nat, t: State)
    requires AccountOk(s) && Step(s, Release(i), t)
    ensures AccountOk(t)
  {
    ChargedWithout(s.rows, i);
    DistinctWithout(s.rows, i);
    forall o | IsOpen(t, o)
      ensures OpenOk(t.rows, t.requests[o]) && t.used + t.requests[o].reserved <= QUOTA
    {
      ReleaseKeepsOpen(s, i, o);
    }
  }

  lemma StoreKeeps(s: State, r: RequestId, key: Key, t: State)
    requires AccountOk(s) && Step(s, Store(r, key), t)
    ensures AccountOk(t)
  {
    PutKeeps(s, r, t.requests[r]);
    assert t == Put(s, r, t.requests[r]).(files := t.files);
  }

  lemma AccountKeeps(s: State, e: Event, t: State)
    requires AccountOk(s) && Step(s, e, t)
    ensures AccountOk(t)
  {
    match e
    case Store(r, key) => StoreKeeps(s, r, key, t);
    case Commit(r) => CommitKeeps(s, r, t);
    case Clean(r) =>
      assert forall o :: IsOpen(t, o) <==> IsOpen(s, o);
    case Release(i) => ReleaseKeeps(s, i, t);
    case DeleteQueued(key) =>
      assert forall o :: IsOpen(t, o) <==> IsOpen(s, o);
    case _ => RequestStepKeeps(s, e, t);
  }

  // ---------- The files ----------

  predicate HasKey(rows: seq<Row>, key: Key) {
    exists i :: 0 <= i < |rows| && rows[i].key == key
  }

  predicate DistinctKeys(keys: seq<Key>) {
    forall i, j :: 0 <= i < j < |keys| ==> keys[i] != keys[j]
  }

  /** The files of a request are those of its rows, and the one stored last if it has no row yet. */
  predicate KeysMatch(q: Request)
    requires q.Open?
  {
    && |q.keys| == |q.rows| + (if q.stage.Stored? then 1 else 0)
    && (forall i :: 0 <= i < |q.rows| ==> q.keys[i] == q.rows[i].key)
    && (q.stage.Stored? ==> q.keys[|q.rows|] == q.stage.key)
  }

  /** Every row's file holds the content the row names. */
  predicate Backed(files: map<Key, Content>, rows: seq<Row>) {
    forall i :: 0 <= i < |rows| ==> rows[i].key in files && files[rows[i].key] == rows[i].content
  }

  /** What a request keeps about its files: they are stored, its own, and not those of stored rows. */
  ghost predicate OwnsFiles(s: State, r: RequestId)
    requires r in s.requests
  {
    var q := s.requests[r];
    && DistinctKeys(q.keys)
    && (forall k :: k in q.keys ==> k in s.files && k !in s.queued && !HasKey(s.rows, k))
    && (q.Open? ==> KeysMatch(q) && Backed(s.files, q.rows))
    && (q.Open? && q.stage.Stored? ==> q.stage.key in s.files && s.files[q.stage.key] == q.stage.content)
  }

  ghost predicate Held(s: State, key: Key) {
    exists r :: r in s.requests && key in s.requests[r].keys
  }

  ghost predicate FilesOk(s: State) {
    && Backed(s.files, s.rows)
    && (forall i, j :: 0 <= i < j < |s.rows| ==> s.rows[i].key != s.rows[j].key)
    && s.queued <= s.files.Keys
    && (forall k :: k in s.queued ==> !HasKey(s.rows, k))
    && (forall r :: r in s.requests ==> OwnsFiles(s, r))
    && (forall r, o, k :: r in s.requests && o in s.requests && r != o && k in s.requests[r].keys ==>
          k !in s.requests[o].keys)
    && (forall k :: k in s.files ==> HasKey(s.rows, k) || k in s.queued || Held(s, k))
  }

  /** What an open request keeps about its own files. */
  predicate OwnFiles(files: map<Key, Content>, q: Request) {
    && (q.Open? ==> KeysMatch(q) && Backed(files, q.rows))
    && (q.Open? && q.stage.Stored? ==> q.stage.key in files && files[q.stage.key] == q.stage.content)
  }

  lemma PutKeepsFiles(s: State, r: RequestId, q: Request)
    requires FilesOk(s) && OwnFiles(s.files, q)
    requires q.keys == if r in s.requests then s.requests[r].keys else []
    ensures FilesOk(Put(s, r, q))
  {
    var t := Put(s, r, q);
    forall k | k in t.files && !HasKey(t.rows, k) && k !in t.queued
      ensures Held(t, k)
    {
      assert Held(s, k);
      var o :| o in s.requests && k in s.requests[o].keys;
      assert o in t.requests && k in t.requests[o].keys;
    }
    forall o | o in t.requests
      ensures OwnsFiles(t, o)
    {
      assert o in s.requests ==> OwnsFiles(s, o);
    }
  }

  /** A step that touches neither the files nor the keys of any request. */
  lemma SameFilesKeeps(s: State, e: Event, t: State)
    requires FilesOk(s) && Step(s, e, t)
    requires e.Begin? || e.Lock? || e.Reuse? || e.Miss? || e.Reserve? || e.Insert? || e.Fail?
    ensures FilesOk(t)
  {
    assert e.r in s.requests ==> OwnsFiles(s, e.r);
    PutKeepsFiles(s, e.r, t.requests[e.r]);
  }

  lemma StoreHolds(s: State, r: RequestId, key: Key, t: State, k: Key)
    requires Step(s, Store(r, key), t) && (k == key || Held(s, k))
    ensures Held(t, k)
  {
    if k == key {
      assert r in t.requests && k in t.requests[r].keys;
    } else {
      var o :| o in s.requests && k in s.requests[o].keys;
      assert o in t.requests && k in t.requests[o].keys;
    }
  }

  lemma StoreKeepsFiles(s: State, r: RequestId, key: Key, t: State)
    requires FilesOk(s) && Step(s, Store(r, key), t)
    ensures FilesOk(t)
  {
    assert OwnsFiles(s, r);
    forall k | k in t.files && !HasKey(t.rows, k) && k !in t.queued
      ensures Held(t, k)
    {
      StoreHolds(s, r, key, t, k);
    }
    assert !HasKey(s.rows, key);
    forall o | o in t.requests
      ensures OwnsFiles(t, o)
    {
      assert OwnsFiles(s, o);
    }
  }

  lemma CommittedKeys(rows: seq<Row>, own: seq<Row>, keys: seq<Key>)
    requires |keys| == |own| && forall i :: 0 <= i < |own| ==> keys[i] == own[i].key
    ensures forall k :: HasKey(rows + own, k) <==> HasKey(rows, k) || k in keys
  {
    var all := rows + own;
    forall k | HasKey(all, k)
      ensures HasKey(rows, k) || k in keys
    {
      var i :| 0 <= i < |all| && all[i].key == k;
      assert i >= |rows| ==> keys[i - |rows|] == k;
    }
    forall k | k in keys
      ensures HasKey(all, k)
    {
      var i :| 0 <= i < |keys| && keys[i] == k;
      assert all[|rows| + i].key == k;
    }
    forall k | HasKey(rows, k)
      ensures HasKey(all, k)
    {
      var i :| 0 <= i < |rows| && rows[i].key == k;
      assert all[i].key == k;
    }
  }

  /** Rows of one request joining the table bring its keys; every key stays with one holder. */
  lemma CommitKeepsFiles(s: State, r: RequestId, t: State)
    requires FilesOk(s) && Step(s, Commit(r), t)
    ensures FilesOk(t)
  {
    var q := s.requests[r];
    assert OwnsFiles(s, r);
    CommittedKeys(s.rows, q.rows, q.keys);
    CommitKeepsKeys(s, r, t);
    forall k | k in t.files && !HasKey(t.rows, k) && k !in t.queued
      ensures Held(t, k)
    {
      assert Held(s, k);
      var o :| o in s.requests && k in s.requests[o].keys;
      assert o in t.requests;
    }
    forall o | o in t.requests
      ensures OwnsFiles(t, o)
    {
      assert OwnsFiles(s, o);
    }
  }

  lemma CommitKeepsKeys(s: State, r: RequestId, t: State)
    requires FilesOk(s) && Step(s, Commit(r), t)
    ensures Backed(t.files, t.rows)
    ensures forall i, j :: 0 <= i < j < |t.rows| ==> t.rows[i].key != t.rows[j].key
  {
    var q := s.requests[r];
    assert OwnsFiles(s, r);
    forall i, j | 0 <= i < j < |t.rows|
      ensures t.rows[i].key != t.rows[j].key
    {
      if j >= |s.rows| {
        assert t.rows[j].key == q.keys[j - |s.rows|];
        if i >= |s.rows| {
          assert t.rows[i].key == q.keys[i - |s.rows|];
        } else {
          assert HasKey(s.rows, t.rows[i].key);
        }
      }
    }
  }

  lemma CleanHolds(s: State, r: RequestId, t: State, k: Key)
    requires Step(s, Clean(r), t) && Held(s, k) && k in t.files
    ensures Held(t, k)
  {
    var keys := s.requests[r].keys;
    var o :| o in s.requests && k in s.requests[o].keys;
    if o == r {
      assert k in keys[..|keys| - 1];
    }
    assert o in t.requests && k in t.requests[o].keys;
  }

  lemma CleanKeepsFiles(s: State, r: RequestId, t: State)
    requires FilesOk(s) && Step(s, Clean(r), t)
    ensures FilesOk(t)
  {
    var keys := s.requests[r].keys;
    assert OwnsFiles(s, r);
    forall i | 0 <= i < |t.rows|
      ensures t.rows[i].key in t.files && t.files[t.rows[i].key] == t.rows[i].content
    {
      assert HasKey(s.rows, t.rows[i].key);
    }
    forall k | k in t.files && !HasKey(t.rows, k) && k !in t.queued
      ensures Held(t, k)
    {
      CleanHolds(s, r, t, k);
    }
    forall o | o in t.requests
      ensures OwnsFiles(t, o)
    {
      assert OwnsFiles(s, o);
      CleanKeepsOwner(s, r, t, o);
    }
  }

  lemma CleanKeepsOwner(s: State, r: RequestId, t: State, o: RequestId)
    requires FilesOk(s) && Step(s, Clean(r), t) && o in t.requests
    ensures OwnsFiles(t, o)
  {
    assert OwnsFiles(s, o) && OwnsFiles(s, r);
    var keys := s.requests[r].keys;
    if o == r {
      assert forall k :: k in keys[..|keys| - 1] ==> k in keys;
    } else if s.requests[o].Open? {
      var q := s.requests[o];
      forall i | 0 <= i < |q.rows|
        ensures q.rows[i].key in t.files
      {
        assert q.keys[i] in q.keys;
      }
      if q.stage.Stored? {
        assert q.keys[|q.rows|] in q.keys;
      }
    }
  }

  lemma ReleasedRows(rows: seq<Row>, i: nat)
    requires i < |rows| && forall a, b :: 0 <= a < b < |rows| ==> rows[a].key != rows[b].key
    ensures var rest := rows[..i] + rows[i + 1..];
      && (forall j :: 0 <= j < |rest| ==> rest[j] == rows[if j < i then j else j + 1])
      && forall k :: HasKey(rest, k) <==> HasKey(rows, k) && k != rows[i].key
  {
    var rest := rows[..i] + rows[i + 1..];
    forall k | HasKey(rows, k) && k != rows[i].key
      ensures HasKey(rest, k)
    {
      var j :| 0 <= j < |rows| && rows[j].key == k;
      assert rest[if j < i then j else j - 1].key == k;
    }
    forall k | HasKey(rest, k)
      ensures HasKey(rows, k) && k != rows[i].key
    {
      var j :| 0 <= j < |rest| && rest[j].key == k;
      assert rows[if j < i then j else j + 1].key == k;
    }
  }

  lemma ReleaseKeepsFiles(s: State, i: nat, t: State)
    requires FilesOk(s) && Step(s, Release(i), t)
    ensures FilesOk(t)
  {
    var key := s.rows[i].key;
    ReleasedRows(s.rows, i);
    assert HasKey(s.rows, key);
    forall k | k in t.files && !HasKey(t.rows, k) && k !in t.queued
      ensures Held(t, k)
    {
      assert Held(s, k);
    }
    forall o | o in t.requests
      ensures OwnsFiles(t, o)
    {
      assert OwnsFiles(s, o);
    }
  }

  lemma DeleteQueuedKeepsFiles(s: State, key: Key, t: State)
    requires FilesOk(s) && Step(s, DeleteQueued(key), t)
    ensures FilesOk(t)
  {
    forall i | 0 <= i < |t.rows|
      ensures t.rows[i].key in t.files
    {
      assert HasKey(s.rows, t.rows[i].key);
    }
    forall k | k in t.files && !HasKey(t.rows, k) && k !in t.queued
      ensures Held(t, k)
    {
      assert Held(s, k);
    }
    forall o | o in t.requests
      ensures OwnsFiles(t, o)
    {
      assert OwnsFiles(s, o);
      var q := s.requests[o];
      if q.Open? {
        forall i | 0 <= i < |q.rows|
          ensures q.rows[i].key in t.files
        {
          assert q.keys[i] in q.keys;
        }
        if q.stage.Stored? {
          assert q.keys[|q.rows|] in q.keys;
        }
      }
    }
  }

  lemma FilesKeep(s: State, e: Event, t: State)
    requires FilesOk(s) && Step(s, e, t)
    ensures FilesOk(t)
  {
    match e
    case Store(r, key) => StoreKeepsFiles(s, r, key, t);
    case Commit(r) => CommitKeepsFiles(s, r, t);
    case Clean(r) => CleanKeepsFiles(s, r, t);
    case Release(i) => ReleaseKeepsFiles(s, i, t);
    case DeleteQueued(key) => DeleteQueuedKeepsFiles(s, key, t);
    case _ => SameFilesKeeps(s, e, t);
  }

  // ---------- Whole runs ----------

  /**
    In every interleaving of uploads, failures and releases, the account is charged exactly the bytes
    of its rows and never more than 1 GiB, no content is charged twice, and every row's file is stored
    with the row's content.
   */
  lemma {:induction false} ChargedExactlyOnce(states: seq<State>, events: seq<Event>, n: nat)
    requires IsRun(states, events) && n < |states|
    ensures states[n].used == Charged(states[n].rows) <= QUOTA
    ensures Distinct(states[n].rows) && Backed(states[n].files, states[n].rows)
    ensures AccountOk(states[n]) && FilesOk(states[n])
  {
    if n > 0 {
      ChargedExactlyOnce(states, events, n - 1);
      AccountKeeps(states[n - 1], events[n - 1], states[n]);
      FilesKeep(states[n - 1], events[n - 1], states[n]);
    }
  }

  /** Once every request and every queued deletion is over, the stored files are those of the rows. */
  lemma NoFileIsLeftOver(states: seq<State>, events: seq<Event>, n: nat)
    requires IsRun(states, events) && n < |states|
    requires states[n].requests == map[] && states[n].queued == {}
    ensures forall k :: k in states[n].files <==> HasKey(states[n].rows, k)
  {
    ChargedExactlyOnce(states, events, n);
    var s := states[n];
    forall k | k in s.files
      ensures HasKey(s.rows, k)
    {
      assert !Held(s, k);
    }
  }

  lemma ReplyStored(s: State, r: RequestId, row: Row, t: State)
    requires AccountOk(s) && FilesOk(t) && Step(s, Commit(r), t) && row in s.requests[r].reply
    ensures row in t.rows && row.key in t.files && t.files[row.key] == row.content
  {
    var q := s.requests[r];
    assert OpenOk(s.rows, q);
    assert row in s.rows || row in q.rows;
    assert row in s.rows + q.rows;
    var i :| 0 <= i < |t.rows| && t.rows[i] == row;
  }

  /** A committed request answers with rows that are stored, whatever ran beside it. */
  lemma RepliesAreStored(states: seq<State>, events: seq<Event>, n: nat, r: RequestId, row: Row)
    requires IsRun(states, events) && n < |events| && events[n] == Commit(r)
    requires IsOpen(states[n], r) && row in states[n].requests[r].reply
    ensures row in states[n + 1].rows
    ensures row.key in states[n + 1].files && states[n + 1].files[row.key] == row.content
  {
    ChargedExactlyOnce(states, events, n);
    ChargedExactlyOnce(states, events, n + 1);
    ReplyStored(states[n], r, row, states[n + 1]);
  }
}
