/**
  Reading a conversation page by page (`get_dm_messages` in apps/server/src/routes/dm.rs): each page is
  the newest messages before the oldest one shown so far.
 */
module DmPaging {
  import opened Options

  /** A message's place: `(created_at, id)`. */
  datatype Row = Row(at: int, id: nat)

  predicate Less(a: Row, b: Row) {
    a.at < b.at || (a.at == b.at && a.id < b.id)
  }

  /** The rows of a channel in the order of the index, no id twice. */
  ghost predicate Ascending(rows: seq<Row>) {
    && (forall i, j :: 0 <= i < j < |rows| ==> Less(rows[i], rows[j]))
    && (forall i, j :: 0 <= i < j < |rows| ==> rows[i].id != rows[j].id)
  }

  /** `limit.unwrap_or(50).clamp(1, 100)` */
  function PageSize(limit: Option<int>): nat {
    var asked := if limit.Some? then limit.value else 50;
    if asked < 1 then 1 else if asked > 100 then 100 else asked
  }

  function WithId(rows: seq<Row>, id: nat): Option<Row> {
    if rows == [] then None
    else if rows[|rows| - 1].id == id then Some(rows[|rows| - 1])
    else WithId(rows[..|rows| - 1], id)
  }

  /** `WHERE (m.created_at, m.id) < ...` */
  function Below(rows: seq<Row>, bound: Row): seq<Row> {
    if rows == [] then []
    else if Less(rows[|rows| - 1], bound) then Below(rows[..|rows| - 1], bound) + [rows[|rows| - 1]]
    else Below(rows[..|rows| - 1], bound)
  }

  /** `ORDER BY ... DESC LIMIT n`, turned around. */
  function Newest(rows: seq<Row>, n: nat): seq<Row> {
    if |rows| > n then rows[|rows| - n..] else rows
  }

  /** An unknown `before` compares with NULL: no row qualifies. */
  function GetDmMessages(rows: seq<Row>, before: Option<nat>, limit: Option<int>): seq<Row> {
    if before.None? then Newest(rows, PageSize(limit))
    else
      match WithId(rows, before.value)
      case Some(bound) => Newest(Below(rows, bound), PageSize(limit))
      case None => []
  }

  // ---------- One page ----------

  lemma {:induction false} WithIdAt(rows: seq<Row>, k: nat)
    requires Ascending(rows) && k < |rows|
    ensures WithId(rows, rows[k].id) == Some(rows[k])
  {
    if k < |rows| - 1 {
      WithIdAt(rows[..|rows| - 1], k);
    }
  }

  lemma {:induction false} WithIdKnown(rows: seq<Row>, id: nat)
    ensures WithId(rows, id).Some? ==> WithId(rows, id).value in rows && WithId(rows, id).value.id == id
    ensures WithId(rows, id).None? ==> forall row :: row in rows ==> row.id != id
  {
    if rows != [] {
      WithIdKnown(rows[..|rows| - 1], id);
      assert rows == rows[..|rows| - 1] + [rows[|rows| - 1]];
    }
  }

  lemma {:induction false} BelowIsPrefix(rows: seq<Row>, k: nat)
    requires Ascending(rows) && k < |rows|
    ensures Below(rows, rows[k]) == rows[..k]
  {
    var rest := rows[..|rows| - 1];
    if k < |rows| - 1 {
      assert !Less(rows[|rows| - 1], rows[k]);
      BelowIsPrefix(rest, k);
      assert rest[..k] == rows[..k];
    } else {
      BelowAll(rest, rows[k]);
    }
  }

  lemma {:induction false} BelowAll(rows: seq<Row>, bound: Row)
    requires forall i :: 0 <= i < |rows| ==> Less(rows[i], bound)
    ensures Below(rows, bound) == rows
  {
    if rows != [] {
      BelowAll(rows[..|rows| - 1], bound);
    }
  }

  lemma {:induction false} BelowNone(rows: seq<Row>, bound: Row)
    ensures Below(rows, bound) == [] <==> forall row :: row in rows ==> !Less(row, bound)
  {
    if rows != [] {
      BelowNone(rows[..|rows| - 1], bound);
      assert rows == rows[..|rows| - 1] + [rows[|rows| - 1]];
      assert rows[|rows| - 1] in rows;
    }
  }

  /** A page is empty exactly at the end, or when the message to continue from is gone. */
  lemma EmptyPageMeans(rows: seq<Row>, before: nat, limit: Option<int>)
    ensures GetDmMessages(rows, Some(before), limit) == [] <==>
      forall bound :: bound in rows && WithId(rows, before) == Some(bound) ==>
        forall row :: row in rows ==> !Less(row, bound)
  {
    WithIdKnown(rows, before);
    if WithId(rows, before).Some? {
      BelowNone(rows, WithId(rows, before).value);
    }
  }

  // ---------- All pages ----------

  /** One request for a page, and the messages that arrived since the one before. */
  datatype Ask = Ask(limit: Option<int>, arrived: seq<Row>)

  /** All messages there are at the `n`-th request: those at the start and all that arrived since. */
  function Table(log: seq<Row>, asks: seq<Ask>, n: nat): seq<Row>
    requires n <= |asks|
  {
    if n == 0 then log else Table(log, asks, n - 1) + asks[n - 1].arrived
  }

  /** What the client holds after `n` requests, each continuing before the oldest message it holds. */
  function Shown(log: seq<Row>, asks: seq<Ask>, n: nat): seq<Row>
    requires n <= |asks|
  {
    if n == 0 then []
    else
      var shown := Shown(log, asks, n - 1);
      var before := if shown == [] then None else Some(shown[0].id);
      GetDmMessages(Table(log, asks, n), before, asks[n - 1].limit) + shown
  }

  /** How many messages are older than what the client holds. */
  function Left(log: seq<Row>, asks: seq<Ask>, n: nat): nat
    requires n <= |asks|
  {
    if n == 0 then |log|
    else if Left(log, asks, n - 1) > PageSize(asks[n - 1].limit) then
      Left(log, asks, n - 1) - PageSize(asks[n - 1].limit)
    else 0
  }

  lemma {:induction false} TableKeepsLog(log: seq<Row>, asks: seq<Ask>, n: nat)
    requires n <= |asks|
    ensures log <= Table(log, asks, n)
  {
    if n > 0 {
      TableKeepsLog(log, asks, n - 1);
    }
  }

  /** One more page, from the oldest message held: it joins on to what the client has. */
  lemma NextPage(log: seq<Row>, table: seq<Row>, k: nat, limit: Option<int>)
    requires Ascending(table) && log <= table && k < |log|
    ensures var left := if k > PageSize(limit) then k - PageSize(limit) else 0;
      GetDmMessages(table, Some(log[k].id), limit) + log[k..] == log[left..]
  {
    assert table[k] == log[k];
    WithIdAt(table, k);
    BelowIsPrefix(table, k);
    assert table[..k] == log[..k];
  }

  lemma FirstPage(log: seq<Row>, asks: seq<Ask>)
    requires 0 < |asks| && log != [] && asks[0].arrived == []
    ensures Left(log, asks, 1) < |log| && Shown(log, asks, 1) == log[Left(log, asks, 1)..]
  {
    assert Table(log, asks, 1) == log + [] == log;
    assert Shown(log, asks, 0) == [] && Left(log, asks, 0) == |log|;
    var size := PageSize(asks[0].limit);
    assert Newest(log, size) + [] == log[if |log| > size then |log| - size else 0..];
  }

  ghost predicate AlwaysAscending(log: seq<Row>, asks: seq<Ask>) {
    forall i :: 0 <= i <= |asks| ==> Ascending(Table(log, asks, i))
  }

  /**
    After any number of requests with any limits, and whatever newer messages arrive in between, the
    client holds exactly the messages from some point of the log on, each once and in order.
   */
  lemma {:induction false} PagesAreContiguous(log: seq<Row>, asks: seq<Ask>, n: nat)
    requires 0 < n <= |asks| && log != [] && asks[0].arrived == [] && AlwaysAscending(log, asks)
    ensures Left(log, asks, n) < |log| && Shown(log, asks, n) == log[Left(log, asks, n)..]
  {
    if n == 1 {
      FirstPage(log, asks);
    } else {
      PagesAreContiguous(log, asks, n - 1);
      TableKeepsLog(log, asks, n);
      assert Ascending(Table(log, asks, n));
      NextPage(log, Table(log, asks, n), Left(log, asks, n - 1), asks[n - 1].limit);
    }
  }

  lemma {:induction false} LeftShrinks(log: seq<Row>, asks: seq<Ask>, n: nat)
    requires n <= |asks|
    ensures Left(log, asks, n) <= if n < |log| then |log| - n else 0
  {
    if n > 0 {
      LeftShrinks(log, asks, n - 1);
    }
  }

  /** With as many requests as messages at the latest, the client holds every message exactly once. */
  lemma PagesCoverEverything(log: seq<Row>, asks: seq<Ask>)
    requires log != [] && |asks| >= |log| && asks[0].arrived == [] && AlwaysAscending(log, asks)
    ensures Shown(log, asks, |asks|) == log
  {
    PagesAreContiguous(log, asks, |asks|);
    LeftShrinks(log, asks, |asks|);
  }
}
