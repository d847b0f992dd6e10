/**
  Scrolling back through a conversation (`loadOlderDmMessages` and the page loop of `goToDmSearchResult` in
  apps/web/src/pages/HomePage.tsx) while messages are sent and deleted: the client asks before the oldest
  message it holds until a page is not full, and then says that there is nothing older.
 */
module DmHistory {
  import opened Options
  import opened DmPaging

  /** `rows.length === 50` */
  const FULL := 50

  /**
    What has happened before the client's next turn: the messages deleted and sent since, which deletions
    the client has been told of, and whether it has been told of the messages sent.
   */
  datatype Turn = Turn(gone: set<nat>, sent: seq<Row>, told: set<nat>, heard: bool)

  /** The messages the client holds, and whether it still asks for older ones. */
  datatype Client = Client(held: seq<Row>, more: bool)

  function Without(rows: seq<Row>, ids: set<nat>): seq<Row> {
    if rows == [] then []
    else if rows[0].id in ids then Without(rows[1..], ids)
    else [rows[0]] + Without(rows[1..], ids)
  }

  /** What the client holds when its turn comes. */
  function HeldNow(client: Client, turn: Turn): seq<Row> {
    Without(client.held, turn.told) + if turn.heard then turn.sent else []
  }

  /** A turn: one more page before the oldest message held, if the client asks and holds any. */
  function Asked(held: seq<Row>, more: bool, stored: seq<Row>): Client {
    if !more || held == [] then Client(held, more)
    else
      var page := GetDmMessages(stored, Some(held[0].id), None);
      Client(page + held, |page| == FULL)
  }

  /** The messages there have been, those that are stored, and the client. */
  datatype State = State(ever: seq<Row>, stored: seq<Row>, client: Client)

  function StoredNow(s: State, turn: Turn): seq<Row> {
    Without(s.stored, turn.gone) + turn.sent
  }

  /** What is sent is newer than all there has been, and the client is told of no deletion that was none. */
  ghost predicate Step(s: State, turn: Turn, t: State) {
    && Ascending(s.ever + turn.sent)
    && (forall row :: row in StoredNow(s, turn) ==> row.id !in turn.told)
    && t == State(s.ever + turn.sent, StoredNow(s, turn),
                  Asked(HeldNow(s.client, turn), s.client.more, StoredNow(s, turn)))
  }

  /** The conversation is loaded; from then on it is the client's turn again and again. */
  function Loaded(log: seq<Row>): State {
    var page := GetDmMessages(log, None, None);
    State(log, log, Client(page, |page| == FULL))
  }

  ghost predicate IsRun(log: seq<Row>, states: seq<State>, turns: seq<Turn>) {
    && |states| == |turns| + 1 && Ascending(log) && states[0] == Loaded(log)
    && forall i :: 0 <= i < |turns| ==> Step(states[i], turns[i], states[i + 1])
  }

  /** The client continues from a message that is no longer stored. */
  predicate Lost(s: State, turn: Turn) {
    s.client.more && HeldNow(s.client, turn) != [] && HeldNow(s.client, turn)[0] !in StoredNow(s, turn)
  }

  // ---------- Lists in order ----------

  lemma {:induction false} WithoutHas(rows: seq<Row>, ids: set<nat>)
    ensures forall row :: row in Without(rows, ids) <==> row in rows && row.id !in ids
  {
    if rows != [] {
      WithoutHas(rows[1..], ids);
      assert rows == [rows[0]] + rows[1..];
    }
  }

  /** Every row of the one list stands before every row of the other. */
  ghost predicate Apart(a: seq<Row>, b: seq<Row>) {
    forall x, y :: x in a && y in b ==> Less(x, y) && x.id != y.id
  }

  lemma AscendingAppend(a: seq<Row>, b: seq<Row>)
    requires Ascending(a) && Ascending(b) && Apart(a, b)
    ensures Ascending(a + b)
  {
    var all := a + b;
    forall i, j | 0 <= i < j < |all|
      ensures Less(all[i], all[j]) && all[i].id != all[j].id
    {
      if i < |a| <= j {
        assert all[i] in a && all[j] in b;
      }
    }
  }

  lemma AscendingParts(a: seq<Row>, b: seq<Row>)
    requires Ascending(a + b)
    ensures Ascending(a) && Ascending(b) && Apart(a, b)
  {
    var all := a + b;
    forall i | 0 <= i < |a|
      ensures a[i] == all[i]
    {
    }
    forall i | 0 <= i < |b|
      ensures b[i] == all[|a| + i]
    {
    }
    forall x, y | x in a && y in b
      ensures Less(x, y) && x.id != y.id
    {
      var i :| 0 <= i < |a| && a[i] == x;
      var j :| 0 <= j < |b| && b[j] == y;
      assert Less(all[i], all[|a| + j]);
    }
  }

  lemma {:induction false} AscendingWithout(rows: seq<Row>, ids: set<nat>)
    requires Ascending(rows)
    ensures Ascending(Without(rows, ids))
  {
    if rows != [] {
      var rest := rows[1..];
      assert rows == [rows[0]] + rest;
      AscendingParts([rows[0]], rest);
      AscendingWithout(rest, ids);
      WithoutHas(rest, ids);
      if rows[0].id !in ids {
        AscendingAppend([rows[0]], Without(rest, ids));
      }
    }
  }

  ghost predicate Among(a: seq<Row>, b: seq<Row>) {
    forall row :: row in a ==> row in b
  }

  /** Some of the messages there have been, in order. */
  ghost predicate Listed(rows: seq<Row>, ever: seq<Row>) {
    Ascending(rows) && Among(rows, ever)
  }

  lemma SameId(ever: seq<Row>, a: Row, b: Row)
    requires Ascending(ever) && a in ever && b in ever && a.id == b.id
    ensures a == b
  {
    var i :| 0 <= i < |ever| && ever[i] == a;
    var j :| 0 <= j < |ever| && ever[j] == b;
  }

  lemma SliceOk(rows: seq<Row>, from: nat, to: nat)
    requires Ascending(rows) && from <= to <= |rows|
    ensures Listed(rows[from..to], rows)
  {
  }

  /** A message stands after the `i`-th of the log exactly if it is none of the log up to that. */
  lemma PlaceInLog(log: seq<Row>, ever: seq<Row>, i: nat, row: Row)
    requires Ascending(ever) && log <= ever && i < |log| && row in ever
    ensures Less(log[i], row) <==> forall k :: 0 <= k <= i ==> log[k] != row
  {
    var j :| 0 <= j < |ever| && ever[j] == row;
    assert ever[i] == log[i];
    if j <= i {
      assert log[j] == row;
      assert j < i ==> Less(row, log[i]);
    } else {
      assert Less(ever[i], ever[j]);
      forall k | 0 <= k <= i
        ensures log[k] != row
      {
        assert ever[k] == log[k] && Less(ever[k], ever[j]);
      }
    }
  }

  // ---------- One page ----------

  /** A page from the `k`-th of the stored messages: up to 50 before it. */
  lemma PageFrom(rows: seq<Row>, k: nat)
    requires Ascending(rows) && k < |rows|
    ensures GetDmMessages(rows, Some(rows[k].id), None) == rows[PageStart(k)..k]
  {
    WithIdAt(rows, k);
    BelowIsPrefix(rows, k);
    assert PageSize(None) == FULL;
  }

  function PageStart(k: nat): (left: nat)
    ensures left <= k
  {
    if k > FULL then k - FULL else 0
  }

  /** A page is what stands before the cursor, or nothing if that is gone. */
  lemma PageAsked(ever: seq<Row>, rows: seq<Row>, cursor: Row) returns (k: nat)
    requires Ascending(ever) && Listed(rows, ever) && cursor in ever
    ensures var page := GetDmMessages(rows, Some(cursor.id), None);
      if cursor in rows then k < |rows| && rows[k] == cursor && page == rows[PageStart(k)..k] else page == []
  {
    if cursor in rows {
      k :| 0 <= k < |rows| && rows[k] == cursor;
      PageFrom(rows, k);
    } else {
      k := 0;
      WithIdKnown(rows, cursor.id);
      if WithId(rows, cursor.id).Some? {
        SameId(ever, cursor, WithId(rows, cursor.id).value);
      }
    }
  }

  /** What a page adds stands before everything held. */
  lemma PageBefore(ever: seq<Row>, rows: seq<Row>, held: seq<Row>)
    requires Ascending(ever) && Listed(rows, ever) && Listed(held, ever) && held != []
    ensures var page := GetDmMessages(rows, Some(held[0].id), None); Listed(page, rows) && Apart(page, held)
  {
    assert held[0] in held;
    var k := PageAsked(ever, rows, held[0]);
    if held[0] in rows {
      var page := rows[PageStart(k)..k];
      SliceOk(rows, PageStart(k), k);
      forall x, y | x in page && y in held
        ensures Less(x, y) && x.id != y.id
      {
        var i :| 0 <= i < |page| && page[i] == x;
        var j :| 0 <= j < |held| && held[j] == y;
        assert Less(rows[PageStart(k) + i], rows[k]);
        assert j > 0 ==> Less(held[0], held[j]);
        if x.id == y.id {
          SameId(ever, x, y);
        }
      }
    }
  }

  lemma AskedInOrder(ever: seq<Row>, rows: seq<Row>, held: seq<Row>, more: bool)
    requires Ascending(ever) && Listed(rows, ever) && Listed(held, ever)
    ensures Listed(Asked(held, more, rows).held, ever)
  {
    if more && held != [] {
      PageBefore(ever, rows, held);
      AscendingAppend(GetDmMessages(rows, Some(held[0].id), None), held);
    }
  }

  // ---------- What is held of the log ----------

  /** Of the log, what is held is what is stored from `edge` on, at least. */
  ghost predicate HeldFrom(log: seq<Row>, rows: seq<Row>, held: seq<Row>, edge: nat) {
    && edge <= |log|
    && (forall i :: 0 <= i < edge ==> log[i] !in held)
    && (forall i :: edge <= i < |log| && log[i] in rows ==> log[i] in held)
  }

  /** Nothing of the log before `edge` is stored. */
  ghost predicate NothingBefore(log: seq<Row>, rows: seq<Row>, edge: nat) {
    edge <= |log| && forall i :: 0 <= i < edge ==> log[i] !in rows
  }

  /** What is stored before the edge stands before everything held. */
  lemma BeforeEdge(log: seq<Row>, ever: seq<Row>, held: seq<Row>, edge: nat, i: nat)
    requires Ascending(ever) && log <= ever && Among(held, ever) && held != []
    requires i < edge <= |log| && forall j :: 0 <= j < edge ==> log[j] !in held
    ensures Less(log[i], held[0])
  {
    assert held[0] in held;
    PlaceInLog(log, ever, i, held[0]);
  }

  /** The first of the log that a page holds, below `edge`, or `edge`. */
  lemma FirstOnPage(log: seq<Row>, page: seq<Row>, edge: nat) returns (first: nat)
    requires edge <= |log|
    ensures first <= edge && (forall i :: 0 <= i < first ==> log[i] !in page)
    ensures first < edge ==> log[first] in page
  {
    first := 0;
    while first < edge && log[first] !in page
      invariant first <= edge && forall i :: 0 <= i < first ==> log[i] !in page
    {
      first := first + 1;
    }
  }

  /** A stored message of the log before the cursor has its place before the cursor's. */
  lemma StoredPlace(rows: seq<Row>, row: Row, k: nat) returns (q: nat)
    requires Ascending(rows) && k < |rows| && row in rows && Less(row, rows[k])
    ensures q < k && rows[q] == row
  {
    forall j | k <= j < |rows|
      ensures rows[j] != row
    {
      assert j > k ==> Less(rows[k], rows[j]);
    }
    q :| 0 <= q < |rows| && rows[q] == row;
  }

  lemma OnPage(rows: seq<Row>, k: nat, first: Row, row: Row)
    requires Ascending(rows) && k < |rows| && first in rows[PageStart(k)..k]
    requires row in rows && Less(row, rows[k]) && (row == first || Less(first, row))
    ensures row in rows[PageStart(k)..k]
  {
    var left := PageStart(k);
    var page := rows[left..k];
    var q := StoredPlace(rows, row, k);
    var f :| 0 <= f < |page| && page[f] == first;
    forall j | 0 <= j < left
      ensures rows[j] != row
    {
      assert Less(rows[j], rows[left + f]) && rows[left + f] == first;
    }
    assert page[q - left] == row;
  }

  /** A page moves the edge to its first message of the log, and a page that is not full to the end. */
  lemma PagedFrom(log: seq<Row>, ever: seq<Row>, rows: seq<Row>, held: seq<Row>, edge: nat) returns (first: nat)
    requires Ascending(ever) && log <= ever && Listed(rows, ever) && Listed(held, ever)
    requires HeldFrom(log, rows, held, edge) && held != [] && held[0] in rows
    ensures var after := Asked(held, true, rows);
      HeldFrom(log, rows, after.held, first) && (!after.more ==> NothingBefore(log, rows, first))
  {
    assert held[0] in held;
    var k := PageAsked(ever, rows, held[0]);
    var page := rows[PageStart(k)..k];
    first := FirstOnPage(log, page, edge);
    assert Asked(held, true, rows) == Client(page + held, |page| == FULL);
    forall i | 0 <= i < edge && log[i] in rows
      ensures i >= first ==> log[i] in page
      ensures |page| < FULL ==> log[i] in page
    {
      BeforeEdge(log, ever, held, edge, i);
      if i >= first {
        assert first < i ==> Less(ever[first], ever[i]);
        OnPage(rows, k, log[first], log[i]);
      }
      if |page| < FULL {
        var q := StoredPlace(rows, log[i], k);
        assert page[q] == log[i];
      }
    }
  }

  /** A page that lost its cursor is empty: nothing changes, and the client stops. */
  lemma LostStops(ever: seq<Row>, rows: seq<Row>, held: seq<Row>)
    requires Ascending(ever) && Listed(rows, ever) && Listed(held, ever) && held != [] && held[0] !in rows
    ensures Asked(held, true, rows) == Client(held, false)
  {
    assert held[0] in held;
    var k := PageAsked(ever, rows, held[0]);
    assert [] + held == held;
  }

  /** What a lost cursor cuts off is what is stored before the edge. */
  lemma CutOffFrom(log: seq<Row>, ever: seq<Row>, rows: seq<Row>, held: seq<Row>, edge: nat, i: nat)
    requires Ascending(ever) && log <= ever && Listed(held, ever) && held != []
    requires HeldFrom(log, rows, held, edge) && i < |log| && log[i] in rows
    ensures Less(log[i], held[0]) <==> i < edge
  {
    if i < edge {
      BeforeEdge(log, ever, held, edge, i);
    } else {
      var j :| 0 <= j < |held| && held[j] == log[i];
      assert j > 0 ==> Less(held[0], held[j]);
    }
  }

  // ---------- Turn after turn ----------

  /** Some of the rows, and later ones. */
  lemma KeptAndSent(rows: seq<Row>, ids: set<nat>, sent: seq<Row>, before: seq<Row>, ever: seq<Row>)
    requires Listed(rows, before) && Ascending(sent) && Apart(before, sent) && Among(before, ever) && Among(sent, ever)
    ensures Listed(Without(rows, ids) + sent, ever)
  {
    AscendingWithout(rows, ids);
    WithoutHas(rows, ids);
    AscendingAppend(Without(rows, ids), sent);
  }

  lemma HeldNowInOrder(client: Client, turn: Turn, before: seq<Row>, ever: seq<Row>)
    requires Listed(client.held, before) && Ascending(turn.sent) && Apart(before, turn.sent)
    requires Among(before, ever) && Among(turn.sent, ever)
    ensures Listed(HeldNow(client, turn), ever)
  {
    KeptAndSent(client.held, turn.told, if turn.heard then turn.sent else [], before, ever);
  }

  /** Everything is a list of what there has been, in order. */
  ghost predicate InOrder(log: seq<Row>, s: State) {
    Ascending(s.ever) && log <= s.ever && Listed(s.stored, s.ever) && Listed(s.client.held, s.ever)
  }

  lemma StartIs(log: seq<Row>)
    ensures GetDmMessages(log, None, None) == log[PageStart(|log|)..|log|]
  {
    assert PageSize(None) == FULL;
    assert log[0..|log|] == log;
  }

  /** The loaded page holds the log from its start on. */
  lemma StartFrom(log: seq<Row>, held: seq<Row>)
    requires Ascending(log) && held == log[PageStart(|log|)..|log|]
    ensures HeldFrom(log, log, held, PageStart(|log|))
    ensures |held| < FULL ==> PageStart(|log|) == 0
  {
    var edge := PageStart(|log|);
    forall i | 0 <= i < |log|
      ensures log[i] in held <==> edge <= i
    {
      if edge <= i {
        assert held[i - edge] == log[i];
      } else {
        forall j | 0 <= j < |held|
          ensures held[j] != log[i]
        {
          assert Less(log[i], log[edge + j]);
        }
      }
    }
  }

  lemma LoadedInOrder(log: seq<Row>)
    requires Ascending(log)
    ensures InOrder(log, Loaded(log))
  {
    StartIs(log);
    SliceOk(log, PageStart(|log|), |log|);
  }

  /** What a turn starts from: what is stored and what is held, both in order. */
  lemma TurnInOrder(log: seq<Row>, s: State, turn: Turn)
    requires InOrder(log, s) && Ascending(s.ever + turn.sent)
    ensures Listed(StoredNow(s, turn), s.ever + turn.sent)
    ensures Listed(HeldNow(s.client, turn), s.ever + turn.sent)
  {
    AscendingParts(s.ever, turn.sent);
    KeptAndSent(s.stored, turn.gone, turn.sent, s.ever, s.ever + turn.sent);
    HeldNowInOrder(s.client, turn, s.ever, s.ever + turn.sent);
  }

  lemma StepInOrder(log: seq<Row>, s: State, turn: Turn, t: State)
    requires InOrder(log, s) && Step(s, turn, t)
    ensures InOrder(log, t)
  {
    TurnInOrder(log, s, turn);
    AskedInOrder(t.ever, t.stored, HeldNow(s.client, turn), s.client.more);
  }

  /** At every turn the client holds messages that were sent, each once and in order. */
  lemma {:induction false} HeldInOrder(log: seq<Row>, states: seq<State>, turns: seq<Turn>, n: nat)
    requires IsRun(log, states, turns) && n < |states|
    ensures InOrder(log, states[n])
  {
    if n == 0 {
      LoadedInOrder(log);
    } else {
      HeldInOrder(log, states, turns, n - 1);
      StepInOrder(log, states[n - 1], turns[n - 1], states[n]);
    }
  }

  /** A message of the log that is stored was stored before, and the client was told of no deletion of it. */
  lemma StoredBefore(log: seq<Row>, s: State, turn: Turn, t: State, i: nat)
    requires InOrder(log, s) && Step(s, turn, t) && i < |log|
    ensures log[i] !in turn.sent
    ensures log[i] in t.stored ==> log[i] in s.stored && log[i].id !in turn.told
  {
    AscendingParts(s.ever, turn.sent);
    assert s.ever[i] == log[i];
    WithoutHas(s.stored, turn.gone);
  }

  /** Until the client's turn, what it holds of the log only loses what is no longer stored. */
  lemma KeptFrom(log: seq<Row>, s: State, turn: Turn, t: State, edge: nat)
    requires InOrder(log, s) && Step(s, turn, t) && HeldFrom(log, s.stored, s.client.held, edge)
    ensures HeldFrom(log, t.stored, HeldNow(s.client, turn), edge)
    ensures NothingBefore(log, s.stored, edge) ==> NothingBefore(log, t.stored, edge)
  {
    WithoutHas(s.client.held, turn.told);
    forall i | 0 <= i < |log|
      ensures log[i] !in turn.sent
      ensures log[i] in t.stored ==> log[i] in s.stored && log[i].id !in turn.told
    {
      StoredBefore(log, s, turn, t, i);
    }
  }

  /** What an edge means: what is held, and if the client has stopped, that there is nothing older. */
  ghost predicate EdgeIs(log: seq<Row>, s: State, edge: nat) {
    && HeldFrom(log, s.stored, s.client.held, edge)
    && (!s.client.more ==> NothingBefore(log, s.stored, edge))
  }

  lemma NextEdge(log: seq<Row>, s: State, turn: Turn, t: State, edge: nat) returns (next: nat)
    requires InOrder(log, s) && Step(s, turn, t) && EdgeIs(log, s, edge) && !Lost(s, turn)
    ensures EdgeIs(log, t, next)
  {
    var held := HeldNow(s.client, turn);
    KeptFrom(log, s, turn, t, edge);
    TurnInOrder(log, s, turn);
    if s.client.more && held != [] {
      next := PagedFrom(log, t.ever, t.stored, held, edge);
    } else {
      next := edge;
    }
  }

  // ---------- When the client stops ----------

  /** The client loses its cursor, and `row` stands before that. */
  predicate CutOff(s: State, turn: Turn, row: Row) {
    Lost(s, turn) && Less(row, HeldNow(s.client, turn)[0])
  }

  /** Having lost its cursor the client stops, and keeps what it has. */
  lemma LostFrom(log: seq<Row>, s: State, turn: Turn, t: State, edge: nat)
    requires InOrder(log, s) && Step(s, turn, t) && HeldFrom(log, s.stored, s.client.held, edge) && Lost(s, turn)
    ensures !t.client.more && HeldFrom(log, t.stored, t.client.held, edge)
  {
    KeptFrom(log, s, turn, t, edge);
    TurnInOrder(log, s, turn);
    LostStops(t.ever, t.stored, HeldNow(s.client, turn));
  }

  /** A client that has stopped holds no less and no more of what is stored, and loses no cursor. */
  lemma StoppedFrom(log: seq<Row>, s: State, turn: Turn, t: State, edge: nat)
    requires InOrder(log, s) && Step(s, turn, t) && HeldFrom(log, s.stored, s.client.held, edge) && !s.client.more
    ensures !t.client.more && HeldFrom(log, t.stored, t.client.held, edge) && !Lost(s, turn)
  {
    KeptFrom(log, s, turn, t, edge);
  }

  /** No turn before the `n`-th but the one at `m` loses its cursor. */
  ghost predicate NoneButLost(states: seq<State>, turns: seq<Turn>, n: nat, m: nat)
    requires n <= |turns| < |states|
  {
    forall j :: 0 <= j < n && j != m ==> !Lost(states[j], turns[j])
  }

  /**
    Where a run has come: the client holds what is stored of the log from `edge` on, and either has lost no
    cursor, or has lost one, at the turn `m`, and stopped.
   */
  ghost predicate CourseIs(log: seq<Row>, states: seq<State>, turns: seq<Turn>, n: nat, m: nat, edge: nat)
    requires n <= |turns| < |states|
  {
    && m <= n && NoneButLost(states, turns, n, m)
    && HeldFrom(log, states[n].stored, states[n].client.held, edge)
    && (m == n ==> EdgeIs(log, states[n], edge))
    && (m < n ==>
          && Lost(states[m], turns[m]) && !states[n].client.more
          && HeldFrom(log, states[m].stored, states[m].client.held, edge))
  }

  lemma NextCourse(log: seq<Row>, states: seq<State>, turns: seq<Turn>, n: nat, m: nat, edge: nat)
    returns (at: nat, next: nat)
    requires IsRun(log, states, turns) && n < |turns| && InOrder(log, states[n])
    requires CourseIs(log, states, turns, n, m, edge)
    ensures CourseIs(log, states, turns, n + 1, at, next)
  {
    var s, turn, t := states[n], turns[n], states[n + 1];
    assert Step(s, turn, t);
    at, next := m, edge;
    if m < n {
      StoppedFrom(log, s, turn, t, edge);
    } else if Lost(s, turn) {
      LostFrom(log, s, turn, t, edge);
    } else {
      at := n + 1;
      next := NextEdge(log, s, turn, t, edge);
    }
  }

  lemma {:induction false} Course(log: seq<Row>, states: seq<State>, turns: seq<Turn>, n: nat)
    returns (m: nat, edge: nat)
    requires IsRun(log, states, turns) && n <= |turns|
    ensures CourseIs(log, states, turns, n, m, edge)
  {
    if n == 0 {
      StartIs(log);
      m, edge := 0, PageStart(|log|);
      StartFrom(log, states[0].client.held);
    } else {
      m, edge := Course(log, states, turns, n - 1);
      HeldInOrder(log, states, turns, n - 1);
      m, edge := NextCourse(log, states, turns, n - 1, m, edge);
    }
  }

  lemma {:induction false} StoredSince(
      log: seq<Row>, states: seq<State>, turns: seq<Turn>, m: nat, n: nat, i: nat)
    requires IsRun(log, states, turns) && m <= n <= |turns| && i < |log| && log[i] in states[n].stored
    ensures log[i] in states[m].stored
    decreases n
  {
    if n > m {
      HeldInOrder(log, states, turns, n - 1);
      StoredBefore(log, states[n - 1], turns[n - 1], states[n], i);
      StoredSince(log, states, turns, m, n - 1, i);
    }
  }

  /** What a lost cursor cuts off is what is stored before the edge. */
  lemma CutOffExactly(log: seq<Row>, s: State, turn: Turn, t: State, edge: nat, i: nat)
    requires InOrder(log, s) && Step(s, turn, t) && HeldFrom(log, s.stored, s.client.held, edge) && Lost(s, turn)
    requires i < |log| && log[i] in t.stored
    ensures CutOff(s, turn, log[i]) <==> i < edge
  {
    KeptFrom(log, s, turn, t, edge);
    TurnInOrder(log, s, turn);
    CutOffFrom(log, t.ever, t.stored, HeldNow(s.client, turn), edge, i);
  }

  /** Some turn before the `n`-th lost a cursor that stands after the message. */
  ghost predicate Misses(states: seq<State>, turns: seq<Turn>, n: nat, row: Row)
    requires n <= |turns| < |states|
  {
    exists m :: 0 <= m < n && CutOff(states[m], turns[m], row)
  }

  lemma OnlyCutOff(states: seq<State>, turns: seq<Turn>, n: nat, m: nat, row: Row)
    requires n <= |turns| < |states| && NoneButLost(states, turns, n, m)
    ensures Misses(states, turns, n, row) <==> m < n && CutOff(states[m], turns[m], row)
  {
  }

  /**
    When the client says that there is nothing older, a message of the log that is still stored is
    missing exactly if the client continued from a deleted message that stands after it.
   */
  lemma MissingExactly(log: seq<Row>, states: seq<State>, turns: seq<Turn>, n: nat, row: Row)
    requires IsRun(log, states, turns) && n <= |turns| && !states[n].client.more
    requires row in log && row in states[n].stored
    ensures row !in states[n].client.held <==> Misses(states, turns, n, row)
  {
    var i :| 0 <= i < |log| && log[i] == row;
    var m, edge := Course(log, states, turns, n);
    OnlyCutOff(states, turns, n, m, row);
    if m < n {
      StoredSince(log, states, turns, m + 1, n, i);
      HeldInOrder(log, states, turns, m);
      CutOffExactly(log, states[m], turns[m], states[m + 1], edge, i);
    }
  }

  // ---------- Runs without deletions ----------

  lemma {:induction false} WithoutNone(rows: seq<Row>)
    ensures Without(rows, {}) == rows
  {
    if rows != [] {
      WithoutNone(rows[1..]);
    }
  }

  lemma {:induction false} AllStored(log: seq<Row>, states: seq<State>, turns: seq<Turn>, n: nat)
    requires IsRun(log, states, turns) && n <= |turns| && forall j :: 0 <= j < n ==> turns[j].gone == {}
    ensures states[n].stored == states[n].ever
  {
    if n > 0 {
      AllStored(log, states, turns, n - 1);
      assert Step(states[n - 1], turns[n - 1], states[n]);
      WithoutNone(states[n - 1].stored);
    }
  }

  lemma NoneLost(log: seq<Row>, s: State, turn: Turn, t: State)
    requires InOrder(log, s) && Step(s, turn, t) && t.stored == t.ever
    ensures !Lost(s, turn)
  {
    TurnInOrder(log, s, turn);
    var held := HeldNow(s.client, turn);
    if held != [] {
      assert held[0] in held;
    }
  }

  /** Where nothing is deleted, a client that has stopped holds the whole log, each message once, in order. */
  lemma NothingDeleted(log: seq<Row>, states: seq<State>, turns: seq<Turn>, n: nat, row: Row)
    requires IsRun(log, states, turns) && n <= |turns| && !states[n].client.more
    requires forall j :: 0 <= j < n ==> turns[j].gone == {}
    requires row in log
    ensures row in states[n].client.held && Ascending(states[n].client.held)
  {
    AllStored(log, states, turns, n);
    HeldInOrder(log, states, turns, n);
    forall j | 0 <= j < n
      ensures !CutOff(states[j], turns[j], row)
    {
      AllStored(log, states, turns, j + 1);
      HeldInOrder(log, states, turns, j);
      NoneLost(log, states[j], turns[j], states[j + 1]);
    }
    MissingExactly(log, states, turns, n, row);
  }

  // ---------- The client stops ----------

  /** A turn at which the client asks and gets a full page, so that it goes on asking. */
  predicate FullPage(s: State, turn: Turn, t: State) {
    s.client.more && HeldNow(s.client, turn) != [] && t.client.more
  }

  /** How many messages the client has fetched in full pages. */
  function Fetched(states: seq<State>, turns: seq<Turn>, n: nat): nat
    requires n <= |turns| < |states|
  {
    if n == 0 then 0
    else Fetched(states, turns, n - 1) + if FullPage(states[n - 1], turns[n - 1], states[n]) then FULL else 0
  }

  lemma {:induction false} AsSet(rows: seq<Row>) returns (all: set<Row>)
    requires Ascending(rows)
    ensures |all| == |rows| && forall row :: row in all <==> row in rows
  {
    if rows == [] {
      all := {};
    } else {
      var last, rest := rows[|rows| - 1], rows[..|rows| - 1];
      assert rows == rest + [last];
      all := AsSet(rest);
      forall i | 0 <= i < |rest|
        ensures rest[i] != last
      {
        assert Less(rows[i], rows[|rows| - 1]);
      }
      all := all + {last};
    }
  }

  /** What the client was given and is still stored, it holds. */
  ghost predicate GivenHeld(s: State, given: set<Row>) {
    forall row :: row in given ==> row in s.ever && (row in s.stored ==> row in s.client.held)
  }

  lemma GivenStays(log: seq<Row>, s: State, turn: Turn, t: State, given: set<Row>)
    requires InOrder(log, s) && Step(s, turn, t) && GivenHeld(s, given)
    ensures forall row :: row in given ==> row in t.ever && (row in t.stored ==> row in HeldNow(s.client, turn))
  {
    AscendingParts(s.ever, turn.sent);
    WithoutHas(s.stored, turn.gone);
    WithoutHas(s.client.held, turn.told);
  }

  /** A full page gives the client fifty messages that it was never given before. */
  lemma PageGives(log: seq<Row>, s: State, turn: Turn, t: State, given: set<Row>) returns (more: set<Row>)
    requires InOrder(log, s) && Step(s, turn, t) && GivenHeld(s, given) && FullPage(s, turn, t)
    ensures GivenHeld(t, more) && |more| == |given| + FULL
  {
    var held := HeldNow(s.client, turn);
    var page := GetDmMessages(t.stored, Some(held[0].id), None);
    GivenStays(log, s, turn, t, given);
    TurnInOrder(log, s, turn);
    PageBefore(t.ever, t.stored, held);
    var added := AsSet(page);
    forall row | row in given
      ensures row !in added
    {
      if row in t.stored {
        assert row in held;
      }
    }
    more := given + added;
  }

  lemma AskedKeeps(held: seq<Row>, more: bool, rows: seq<Row>)
    ensures Among(held, Asked(held, more, rows).held)
  {
  }

  /** What a turn gives the client: fifty new messages on a full page. */
  lemma GivenNext(log: seq<Row>, s: State, turn: Turn, t: State, given: set<Row>) returns (next: set<Row>)
    requires InOrder(log, s) && Step(s, turn, t) && GivenHeld(s, given)
    ensures GivenHeld(t, next) && |next| == |given| + if FullPage(s, turn, t) then FULL else 0
  {
    if FullPage(s, turn, t) {
      next := PageGives(log, s, turn, t, given);
    } else {
      GivenStays(log, s, turn, t, given);
      AskedKeeps(HeldNow(s.client, turn), s.client.more, t.stored);
      next := given;
    }
  }

  lemma GivenAt(log: seq<Row>, states: seq<State>, turns: seq<Turn>, i: nat, given: set<Row>)
    returns (next: set<Row>)
    requires IsRun(log, states, turns) && i < |turns| && GivenHeld(states[i], given)
    ensures GivenHeld(states[i + 1], next)
    ensures |next| == |given| + if FullPage(states[i], turns[i], states[i + 1]) then FULL else 0
  {
    HeldInOrder(log, states, turns, i);
    next := GivenNext(log, states[i], turns[i], states[i + 1], given);
  }

  lemma {:induction false} PagesGive(log: seq<Row>, states: seq<State>, turns: seq<Turn>, n: nat)
    returns (given: set<Row>)
    requires IsRun(log, states, turns) && n <= |turns|
    ensures GivenHeld(states[n], given) && |given| == Fetched(states, turns, n)
  {
    if n == 0 {
      given := {};
    } else {
      given := PagesGive(log, states, turns, n - 1);
      given := GivenAt(log, states, turns, n - 1, given);
    }
  }

  lemma {:induction false} NoMoreThan(given: set<Row>, rows: seq<Row>)
    requires forall row :: row in given ==> row in rows
    ensures |given| <= |rows|
  {
    if rows == [] {
      assert given == {};
    } else {
      var rest := rows[1..];
      assert rows == [rows[0]] + rest;
      NoMoreThan(given - {rows[0]}, rest);
    }
  }

  /** In full pages the client fetches no more messages than there have been, so it stops. */
  lemma ClientStops(log: seq<Row>, states: seq<State>, turns: seq<Turn>, n: nat)
    requires IsRun(log, states, turns) && n <= |turns|
    ensures Fetched(states, turns, n) <= |states[n].ever|
  {
    var given := PagesGive(log, states, turns, n);
    NoMoreThan(given, states[n].ever);
  }

  // ---------- A message that is missed ----------

  /**
    Of any 51 messages the client loads the last 50; if the oldest of these is deleted and the client has
    not heard of it, it says that there is nothing older, and the first message is still there.
   */
  lemma FirstMissed(log: seq<Row>)
    requires Ascending(log) && |log| == FULL + 1
    ensures var t := Turned(log);
      && Step(Loaded(log), Turn({log[1].id}, [], {}, false), t) && Loaded(log).client.more
      && log[0] in t.stored && log[0] !in t.client.held && !t.client.more
  {
    var s, turn, t := Loaded(log), Turn({log[1].id}, [], {}, false), Turned(log);
    StartIs(log);
    StartFrom(log, s.client.held);
    LoadedInOrder(log);
    assert s.client.held == log[1..];
    WithoutNone(s.client.held);
    assert HeldNow(s.client, turn) == s.client.held && log + [] == log;
    WithoutHas(log, turn.gone);
    assert log[0].id != log[1].id && log[0] in StoredNow(s, turn);
    assert log[1] !in StoredNow(s, turn);
    LostFrom(log, s, turn, t, 1);
  }

  /** The state after the one turn. */
  function Turned(log: seq<Row>): State
    requires |log| > 1
  {
    var s, turn := Loaded(log), Turn({log[1].id}, [], {}, false);
    State(log, StoredNow(s, turn), Asked(HeldNow(s.client, turn), s.client.more, StoredNow(s, turn)))
  }
}
