/**
  Merging a page from the server with the messages a client holds
  (apps/web/src/messageResilience.ts). A message without a client id is confirmed; one with a client id
  is the client's own, still sending or failed. Timestamps are integers.
 */
module MessageMerge {
  import opened Options
  import opened StableSort

  type Id = nat

  datatype Status = Sending | Failed

  datatype Content = Content(
    id: Id, clientId: string, status: Option<Status>, error: string, body: string)

  type Message = Stamped<Content>

  const RETRY_HINT := "Connection changed while sending. Retry this message."

  predicate Confirmed(m: Message) {
    m.value.clientId == ""
  }

  predicate Retryable(m: Message) {
    m.value.clientId != "" && m.value.status.Some?
  }

  /** A message that was being sent becomes a failed one with a reason. */
  function Settled(m: Message): Message {
    if m.value.status == Some(Sending) then
      var reason := if m.value.error == "" then RETRY_HINT else m.value.error;
      Stamped(m.at, m.value.(status := Some(Failed), error := reason))
    else m
  }

  function SettledAll(xs: seq<Message>): seq<Message> {
    if xs == [] then [] else SettledAll(xs[..|xs| - 1]) + [Settled(xs[|xs| - 1])]
  }

  function RetryableLocals(local: seq<Message>): seq<Message> {
    SettledAll(Kept(local, Retryable))
  }

  function MergeRemoteWithRetryableLocals(remote: seq<Message>, local: seq<Message>): seq<Message> {
    Sorted(remote + RetryableLocals(local), false)
  }

  /** The first index with the id, or -1. */
  function FindId(xs: seq<Message>, id: Id): int {
    if xs == [] then -1
    else
      var earlier := FindId(xs[..|xs| - 1], id);
      if earlier >= 0 then earlier else if xs[|xs| - 1].value.id == id then |xs| - 1 else -1
  }

  lemma {:induction false} FindIdFirst(xs: seq<Message>, id: Id)
    ensures -1 <= FindId(xs, id) < |xs|
    ensures FindId(xs, id) >= 0 ==> xs[FindId(xs, id)].value.id == id
    ensures forall i :: 0 <= i < (if FindId(xs, id) >= 0 then FindId(xs, id) else |xs|) ==> xs[i].value.id != id
  {
    if xs != [] {
      FindIdFirst(xs[..|xs| - 1], id);
    }
  }

  function OlderHistory(latest: seq<Message>, cached: seq<Message>): seq<Message> {
    if latest == [] then []
    else
      FindIdFirst(cached, latest[0].value.id);
      var overlap := FindId(cached, latest[0].value.id);
      if overlap <= 0 then [] else Kept(cached[..overlap], Confirmed)
  }

  function MergeLatestPageWithHistory(latest: seq<Message>, cached: seq<Message>): seq<Message> {
    OlderHistory(latest, cached) + MergeRemoteWithRetryableLocals(latest, cached)
  }

  // ---------- What the client's lists look like ----------

  /** The server's log of a conversation: in order of time, no id twice, nothing of a client's. */
  ghost predicate IsLog(log: seq<Message>) {
    && Ordered(log, false)
    && (forall i :: 0 <= i < |log| ==> Confirmed(log[i]) && log[i].value.status.None?)
    && (forall i, j :: 0 <= i < j < |log| ==> log[i].value.id != log[j].value.id)
  }

  /** A client's own messages carry a status and an id that the log does not have. */
  ghost predicate OwnApart(cached: seq<Message>, log: seq<Message>) {
    forall m :: m in cached && !Confirmed(m) ==>
      m.value.status.Some? && forall i :: 0 <= i < |log| ==> log[i].value.id != m.value.id
  }

  // ---------- The merge ----------

  lemma {:induction false} SettledEach(xs: seq<Message>)
    ensures |SettledAll(xs)| == |xs|
    ensures forall i :: 0 <= i < |xs| ==> SettledAll(xs)[i] == Settled(xs[i])
  {
    if xs != [] {
      SettledEach(xs[..|xs| - 1]);
    }
  }

  lemma LocalsAreOwn(local: seq<Message>)
    ensures forall m :: m in RetryableLocals(local) ==> !Confirmed(m) && Retryable(m) && m.value.status == Some(Failed)
  {
    var kept := Kept(local, Retryable);
    SettledEach(kept);
    forall m | m in RetryableLocals(local)
      ensures !Confirmed(m) && Retryable(m) && m.value.status == Some(Failed)
    {
      var i :| 0 <= i < |kept| && RetryableLocals(local)[i] == m;
      KeptMember(local, Retryable, kept[i]);
      assert kept[i].value.status.value == Sending || kept[i].value.status.value == Failed;
    }
  }

  /**
    The merge of a page with the local messages: its confirmed messages are the page, its own messages
    are the settled retryable locals, each once, and the whole is in the order of time.
   */
  lemma MergeParts(remote: seq<Message>, local: seq<Message>)
    requires IsLog(remote)
    ensures var merged := MergeRemoteWithRetryableLocals(remote, local);
      && Kept(merged, Confirmed) == remote
      && Kept(merged, Retryable) == Sorted(RetryableLocals(local), false)
      && Ordered(merged, false)
      && multiset(merged) == multiset(remote) + multiset(RetryableLocals(local))
  {
    var own := RetryableLocals(local);
    LocalsAreOwn(local);
    KeptSorted(remote + own, false, Confirmed);
    KeptSum(remote, own, Confirmed);
    KeptAll(remote, Confirmed);
    KeptNone(own, Confirmed);
    assert remote + [] == remote;
    SortedSame(remote, false);
    KeptSorted(remote + own, false, Retryable);
    KeptSum(remote, own, Retryable);
    KeptNone(remote, Retryable);
    KeptAll(own, Retryable);
    assert [] + own == own;
    SortedOrdered(remote + own, false);
  }

  lemma {:induction false} KeptPrefix(xs: seq<Message>, n: nat, keep: Message -> bool)
    requires n <= |xs|
    ensures |Kept(xs[..n], keep)| <= |Kept(xs, keep)| && Kept(xs, keep)[..|Kept(xs[..n], keep)|] == Kept(xs[..n], keep)
  {
    assert xs == xs[..n] + xs[n..];
    KeptSum(xs[..n], xs[n..], keep);
  }

  lemma ConfirmedBefore(cached: seq<Message>, n: nat)
    requires n < |cached| && Confirmed(cached[n])
    ensures |Kept(cached[..n], Confirmed)| < |Kept(cached, Confirmed)|
    ensures Kept(cached, Confirmed)[|Kept(cached[..n], Confirmed)|] == cached[n]
    ensures Kept(cached, Confirmed)[..|Kept(cached[..n], Confirmed)|] == Kept(cached[..n], Confirmed)
  {
    KeptSnoc(cached[..n], cached[n], Confirmed);
    assert cached[..n + 1] == cached[..n] + [cached[n]];
    KeptPrefix(cached, n + 1, Confirmed);
    KeptPrefix(cached, n, Confirmed);
  }

  /** Where the window the client ends up with starts. */
  function WindowStart(a: nat, b: nat, c: nat): nat {
    if a <= c < b then a else c
  }

  lemma HistoryIsWindow(log: seq<Message>, cached: seq<Message>, a: nat, b: nat, c: nat)
    requires IsLog(log) && a <= b <= |log| && c <= |log|
    requires OwnApart(cached, log) && Kept(cached, Confirmed) == log[a..b]
    ensures OlderHistory(log[c..], cached) == log[WindowStart(a, b, c)..c]
  {
    if c < |log| {
      var id := log[c].value.id;
      var overlap := FindId(cached, id);
      FindIdFirst(cached, id);
      if overlap >= 0 {
        var found := cached[overlap];
        assert found in cached;
        assert Confirmed(found);
        ConfirmedBefore(cached, overlap);
        var k := |Kept(cached[..overlap], Confirmed)|;
        assert log[a..b][k] == log[a + k] == found;
        assert a + k == c;
        assert log[a..b][..k] == log[a..c];
        if overlap == 0 {
          assert cached[..0] == [];
        }
      } else if a <= c < b {
        var m := log[a..b][c - a];
        assert m == log[c] && m in Kept(cached, Confirmed);
        KeptMember(cached, Confirmed, m);
        assert false;
      }
    }
  }

  /**
    If the confirmed cached messages are a window of the server's log and the page is a suffix of it,
    the confirmed messages after the merge are a suffix again, without gap, repeat or reorder; it
    starts at the old window's start if the page connects to the window, and is the page otherwise.
   */
  lemma MergedWindow(log: seq<Message>, cached: seq<Message>, a: nat, b: nat, c: nat)
    requires IsLog(log) && a <= b <= |log| && c <= |log|
    requires OwnApart(cached, log) && Kept(cached, Confirmed) == log[a..b]
    ensures Kept(MergeLatestPageWithHistory(log[c..], cached), Confirmed) == log[WindowStart(a, b, c)..]
  {
    LogSuffix(log, c);
    HistoryIsWindow(log, cached, a, b, c);
    MergeParts(log[c..], cached);
    JoinWindow(log, WindowStart(a, b, c), c, MergeRemoteWithRetryableLocals(log[c..], cached));
  }

  lemma JoinWindow(log: seq<Message>, start: nat, c: nat, merged: seq<Message>)
    requires IsLog(log) && start <= c <= |log| && Kept(merged, Confirmed) == log[c..]
    ensures Kept(log[start..c] + merged, Confirmed) == log[start..]
  {
    LogSlice(log, start, c);
    JoinConfirmed(log[start..c], merged);
    assert log[start..c] + log[c..] == log[start..];
  }

  lemma LogSlice(log: seq<Message>, i: nat, j: nat)
    requires IsLog(log) && i <= j <= |log|
    ensures forall m :: m in log[i..j] ==> Confirmed(m) && m.value.status.None?
  {
  }

  lemma JoinConfirmed(older: seq<Message>, newer: seq<Message>)
    requires forall m :: m in older ==> Confirmed(m)
    ensures Kept(older + newer, Confirmed) == older + Kept(newer, Confirmed)
  {
    KeptSum(older, newer, Confirmed);
    KeptAll(older, Confirmed);
  }

  lemma LogSuffix(log: seq<Message>, c: nat)
    requires IsLog(log) && c <= |log|
    ensures IsLog(log[c..])
  {
    var latest := log[c..];
    assert forall i :: 0 <= i < |latest| ==> latest[i] == log[c + i];
  }

  /** Each retryable local message is in the merge exactly once, and nothing in it is still sending. */
  lemma OwnMessagesOnce(log: seq<Message>, cached: seq<Message>, a: nat, b: nat, c: nat)
    requires IsLog(log) && a <= b <= |log| && c <= |log|
    requires OwnApart(cached, log) && Kept(cached, Confirmed) == log[a..b]
    ensures var merged := MergeLatestPageWithHistory(log[c..], cached);
      && Kept(merged, Retryable) == Sorted(RetryableLocals(cached), false)
      && multiset(Kept(merged, Retryable)) == multiset(SettledAll(Kept(cached, Retryable)))
      && forall m :: m in merged ==> m.value.status != Some(Sending)
  {
    var latest := log[c..];
    var merged := MergeRemoteWithRetryableLocals(latest, cached);
    var older := OlderHistory(latest, cached);
    LogSuffix(log, c);
    HistoryIsWindow(log, cached, a, b, c);
    MergeParts(latest, cached);
    LocalsAreOwn(cached);
    SortedOrdered(RetryableLocals(cached), false);
    LogSlice(log, WindowStart(a, b, c), c);
    KeptNone(older, Retryable);
    KeptSum(older, merged, Retryable);
    assert [] + Kept(merged, Retryable) == Kept(merged, Retryable);
    forall m | m in merged
      ensures m.value.status != Some(Sending)
    {
      assert m in multiset(latest) + multiset(RetryableLocals(cached));
      assert m in latest || m in RetryableLocals(cached);
    }
  }

  // ---------- A confirmed message arrives ----------

  /** The first index with the client id, or -1. */
  function FindClient(xs: seq<Message>, clientId: string): int {
    if xs == [] then -1
    else
      var earlier := FindClient(xs[..|xs| - 1], clientId);
      if earlier >= 0 then earlier else if xs[|xs| - 1].value.clientId == clientId then |xs| - 1 else -1
  }

  lemma {:induction false} FindClientFirst(xs: seq<Message>, clientId: string)
    ensures -1 <= FindClient(xs, clientId) < |xs|
    ensures FindClient(xs, clientId) >= 0 ==> xs[FindClient(xs, clientId)].value.clientId == clientId
    ensures FindClient(xs, clientId) < 0 ==> forall i :: 0 <= i < |xs| ==> xs[i].value.clientId != clientId
  {
    if xs != [] {
      FindClientFirst(xs[..|xs| - 1], clientId);
    }
  }

  function ReplacedId(xs: seq<Message>, confirmed: Message): seq<Message> {
    if xs == [] then []
    else
      ReplacedId(xs[..|xs| - 1], confirmed)
      + [if xs[|xs| - 1].value.id == confirmed.value.id then confirmed else xs[|xs| - 1]]
  }

  function ReconcileConfirmedMessage(current: seq<Message>, clientId: string, confirmed: Message): seq<Message> {
    FindIdFirst(current, confirmed.value.id);
    FindClientFirst(current, clientId);
    var i, k := FindId(current, confirmed.value.id), FindClient(current, clientId);
    if i >= 0 && k >= 0 && i != k then ReplacedId(current[..k] + current[k + 1..], confirmed)
    else if i >= 0 then ReplacedId(current, confirmed)
    else if k >= 0 then current[k := confirmed]
    else current + [confirmed]
  }

  /** Every message but the one confirmed and the one it confirms. */
  function Others(clientId: string, id: Id): Message -> bool {
    (m: Message) => m.value.id != id && m.value.clientId != clientId
  }

  function WithId(id: Id): Message -> bool {
    (m: Message) => m.value.id == id
  }

  /** No id twice, and the client id at most once. */
  ghost predicate Plain(xs: seq<Message>, clientId: string) {
    forall i, j :: 0 <= i < j < |xs| ==>
      xs[i].value.id != xs[j].value.id && !(xs[i].value.clientId == clientId == xs[j].value.clientId)
  }

  lemma {:induction false} ReplacedEach(xs: seq<Message>, confirmed: Message)
    ensures |ReplacedId(xs, confirmed)| == |xs|
    ensures forall i :: 0 <= i < |xs| ==>
      ReplacedId(xs, confirmed)[i] == if xs[i].value.id == confirmed.value.id then confirmed else xs[i]
  {
    if xs != [] {
      ReplacedEach(xs[..|xs| - 1], confirmed);
    }
  }

  /** Replacing one message the filter drops by another it drops. */
  lemma KeptReplaced(xs: seq<Message>, i: nat, m: Message, keep: Message -> bool)
    requires i < |xs| && !keep(xs[i]) && !keep(m)
    ensures Kept(xs[i := m], keep) == Kept(xs, keep) == Kept(xs[..i] + xs[i + 1..], keep)
  {
    assert xs == xs[..i] + [xs[i]] + xs[i + 1..];
    assert xs[i := m] == xs[..i] + [m] + xs[i + 1..];
    KeptSnoc(xs[..i], xs[i], keep);
    KeptSnoc(xs[..i], m, keep);
    KeptSum(xs[..i] + [xs[i]], xs[i + 1..], keep);
    KeptSum(xs[..i] + [m], xs[i + 1..], keep);
    KeptSum(xs[..i], xs[i + 1..], keep);
  }

  lemma KeptOne(xs: seq<Message>, i: nat, keep: Message -> bool)
    requires i < |xs| && keep(xs[i]) && forall j :: 0 <= j < |xs| && j != i ==> !keep(xs[j])
    ensures Kept(xs, keep) == [xs[i]]
  {
    assert xs == xs[..i] + [xs[i]] + xs[i + 1..];
    KeptNone(xs[..i], keep);
    KeptNone(xs[i + 1..], keep);
    KeptSnoc(xs[..i], xs[i], keep);
    KeptSum(xs[..i] + [xs[i]], xs[i + 1..], keep);
  }

  /** With ids that differ, replacing by id is one update. */
  lemma ReplacedOne(xs: seq<Message>, i: nat, confirmed: Message, clientId: string)
    requires Plain(xs, clientId) && i < |xs| && xs[i].value.id == confirmed.value.id
    ensures ReplacedId(xs, confirmed) == xs[i := confirmed]
  {
    ReplacedEach(xs, confirmed);
    forall j | 0 <= j < |xs|
      ensures ReplacedId(xs, confirmed)[j] == xs[i := confirmed][j]
    {
      assert j < i || j == i || i < j;
    }
  }

  /** Taking out the client's own copy leaves the confirmed one where `p` says. */
  lemma PlainWithout(xs: seq<Message>, k: nat, i: nat, clientId: string) returns (p: nat)
    requires Plain(xs, clientId) && k < |xs| && i < |xs| && i != k
    ensures var rest := xs[..k] + xs[k + 1..]; Plain(rest, clientId) && p < |rest| && rest[p] == xs[i]
  {
    var rest := xs[..k] + xs[k + 1..];
    p := if i < k then i else i - 1;
    forall a, b | 0 <= a < b < |rest|
      ensures rest[a].value.id != rest[b].value.id && !(rest[a].value.clientId == clientId == rest[b].value.clientId)
    {
      assert rest[a] == xs[if a < k then a else a + 1];
      assert rest[b] == xs[if b < k then b else b + 1];
    }
  }

  /** An update at the only place with the id, or with the client id and no such id. */
  lemma UpdatedOnce(xs: seq<Message>, i: nat, clientId: string, confirmed: Message)
    requires Plain(xs, clientId) && Confirmed(confirmed) && clientId != "" && i < |xs|
    requires xs[i].value.id == confirmed.value.id ||
      (xs[i].value.clientId == clientId && forall j :: 0 <= j < |xs| ==> xs[j].value.id != confirmed.value.id)
    ensures Kept(xs[i := confirmed], WithId(confirmed.value.id)) == [confirmed]
    ensures Kept(xs[i := confirmed], Others(clientId, confirmed.value.id)) ==
      Kept(xs, Others(clientId, confirmed.value.id))
  {
    KeptReplaced(xs, i, confirmed, Others(clientId, confirmed.value.id));
    var after := xs[i := confirmed];
    forall j | 0 <= j < |after| && j != i
      ensures after[j].value.id != confirmed.value.id
    {
      assert after[j] == xs[j] && (j < i || i < j);
    }
    KeptOne(after, i, WithId(confirmed.value.id));
  }

  /** Both copies are there: the client's own goes, the other is replaced. */
  lemma BothCopies(current: seq<Message>, k: nat, i: nat, clientId: string, confirmed: Message)
    requires Plain(current, clientId) && Confirmed(confirmed) && clientId != ""
    requires k < |current| && i < |current| && i != k
    requires current[i].value.id == confirmed.value.id && current[k].value.clientId == clientId
    ensures var after := ReplacedId(current[..k] + current[k + 1..], confirmed);
      && Kept(after, WithId(confirmed.value.id)) == [confirmed]
      && Kept(after, Others(clientId, confirmed.value.id)) == Kept(current, Others(clientId, confirmed.value.id))
  {
    var p := PlainWithout(current, k, i, clientId);
    var rest := current[..k] + current[k + 1..];
    ReplacedOne(rest, p, confirmed, clientId);
    UpdatedOnce(rest, p, clientId, confirmed);
    KeptReplaced(current, k, confirmed, Others(clientId, confirmed.value.id));
  }

  /**
    A confirmed message ends up in the list exactly once, in place of the client's own copy and of any
    earlier row of it; every other message stays, in its order.
   */
  lemma ConfirmedOnce(current: seq<Message>, clientId: string, confirmed: Message)
    requires Plain(current, clientId) && Confirmed(confirmed) && clientId != ""
    ensures var after := ReconcileConfirmedMessage(current, clientId, confirmed);
      && Kept(after, WithId(confirmed.value.id)) == [confirmed]
      && Kept(after, Others(clientId, confirmed.value.id)) == Kept(current, Others(clientId, confirmed.value.id))
  {
    FindIdFirst(current, confirmed.value.id);
    FindClientFirst(current, clientId);
    var i, k := FindId(current, confirmed.value.id), FindClient(current, clientId);
    if i >= 0 && k >= 0 && i != k {
      BothCopies(current, k, i, clientId, confirmed);
    } else if i >= 0 {
      ReplacedOne(current, i, confirmed, clientId);
      UpdatedOnce(current, i, clientId, confirmed);
    } else if k >= 0 {
      UpdatedOnce(current, k, clientId, confirmed);
    } else {
      KeptNone(current, WithId(confirmed.value.id));
      KeptSnoc(current, confirmed, WithId(confirmed.value.id));
      KeptSnoc(current, confirmed, Others(clientId, confirmed.value.id));
    }
  }
}
