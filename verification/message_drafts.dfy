/**
  Drafts kept between sessions (apps/web/src/messageDrafts.ts). A store is the list of an object's
  entries in their order; entries are stamped with the time of their last change.
 */
module MessageDrafts {
  import opened Options
  import opened StableSort

  const TTL_MS := 30 * 24 * 60 * 60 * 1000
  const MAX_ENTRIES := 80
  const MAX_LENGTH := 4000

  datatype Scope = ChannelScope | DmScope

  /** Keys written by the client, and any other found in storage. */
  datatype Key = Key(userId: string, scope: Scope, conversationId: string) | Foreign(name: string)

  /** `Broken` is anything `validEntry` refuses. */
  datatype Entry = Broken | Draft(text: string)

  datatype Slot = Slot(key: Key, entry: Entry)

  type Store = seq<Stamped<Slot>>

  /** What `String.prototype.trim` strips. */
  predicate IsSpace(c: char) {
    || c in ['\t', '\n', '\U{000B}', '\U{000C}', '\r', ' ', '\U{00A0}', '\U{1680}']
    || '\U{2000}' <= c <= '\U{200A}'
    || c in ['\U{2028}', '\U{2029}', '\U{202F}', '\U{205F}', '\U{3000}', '\U{FEFF}']
  }

  predicate Blank(text: string) {
    forall i :: 0 <= i < |text| ==> IsSpace(text[i])
  }

  function Truncated(text: string): string {
    if |text| > MAX_LENGTH then text[..MAX_LENGTH] else text
  }

  predicate Usable(e: Stamped<Slot>) {
    e.value.entry.Draft? && !Blank(e.value.entry.text)
  }

  function FreshAt(now: int): Stamped<Slot> -> bool {
    (e: Stamped<Slot>) => Usable(e) && e.at > now - TTL_MS
  }

  function Top(store: Store): Store {
    if |store| > MAX_ENTRIES then store[..MAX_ENTRIES] else store
  }

  /** Drops what is broken, blank or expired, and keeps the 80 newest of the rest, newest first. */
  function Prune(store: Store, now: int): Store {
    Top(Sorted(Kept(store, FreshAt(now)), true))
  }

  // ---------- Pruning again ----------

  lemma {:induction false} KeptTwice(store: Store, a: Stamped<Slot> -> bool, b: Stamped<Slot> -> bool)
    requires forall e :: e in store && b(e) ==> a(e)
    ensures Kept(Kept(store, a), b) == Kept(store, b)
  {
    if store != [] {
      var rest, last := store[..|store| - 1], store[|store| - 1];
      assert store == rest + [last];
      KeptTwice(rest, a, b);
      KeptSnoc(Kept(rest, a), last, b);
    }
  }

  /** In a list sorted newest first, the fresh entries are a prefix. */
  lemma {:induction false} FreshPrefix(store: Store, now: int)
    requires Ordered(store, true) && forall e :: e in store ==> Usable(e)
    ensures var n := |Kept(store, FreshAt(now))|; n <= |store| && Kept(store, FreshAt(now)) == store[..n]
    ensures forall i :: 0 <= i < |store| ==> (FreshAt(now)(store[i]) <==> i < |Kept(store, FreshAt(now))|)
  {
    if store != [] {
      var rest, last := store[..|store| - 1], store[|store| - 1];
      assert store == rest + [last];
      OrderedSnoc(rest, last, true);
      FreshPrefix(rest, now);
      KeptSnoc(rest, last, FreshAt(now));
      assert last in store;
      if FreshAt(now)(last) {
        assert forall i :: 0 <= i < |rest| ==> FreshAt(now)(rest[i]);
        assert |Kept(rest, FreshAt(now))| == |rest|;
      }
    }
  }

  lemma SortedFresh(store: Store, now: int)
    ensures var a := Sorted(Kept(store, FreshAt(now)), true);
      Ordered(a, true) && (forall e :: e in a <==> e in store && FreshAt(now)(e)) && |a| == |Kept(store, FreshAt(now))|
  {
    var kept := Kept(store, FreshAt(now));
    SortedOrdered(kept, true);
    forall e
      ensures e in Sorted(kept, true) <==> e in store && FreshAt(now)(e)
    {
      KeptMember(store, FreshAt(now), e);
      assert e in Sorted(kept, true) <==> e in multiset(Sorted(kept, true));
      assert e in kept <==> e in multiset(kept);
    }
    assert |multiset(kept)| == |kept|;
  }

  lemma TopOrdered(a: Store)
    requires Ordered(a, true)
    ensures Ordered(Top(a), true) && forall e :: e in Top(a) ==> e in a
  {
  }

  lemma TopFresh(a: Store, now: int)
    requires Ordered(a, true) && forall e :: e in a ==> Usable(e)
    ensures Kept(Top(a), FreshAt(now)) == Top(Kept(a, FreshAt(now)))
    ensures Ordered(Top(a), true) && Ordered(Kept(Top(a), FreshAt(now)), true)
  {
    TopOrdered(a);
    FreshPrefix(a, now);
    FreshPrefix(Top(a), now);
    var n, m := |Kept(a, FreshAt(now))|, |Kept(Top(a), FreshAt(now))|;
    assert m < |Top(a)| ==> !FreshAt(now)(Top(a)[m]);
    assert n < |a| ==> !FreshAt(now)(a[n]);
    assert m == if n < |Top(a)| then n else |Top(a)|;
  }

  /** Pruning early never changes a later pruning: not the entries, nor their order, nor the ties. */
  lemma PruneLater(store: Store, t1: int, t2: int)
    requires t1 <= t2
    ensures Prune(Prune(store, t1), t2) == Prune(store, t2)
  {
    var kept := Kept(store, FreshAt(t1));
    var a := Sorted(kept, true);
    SortedFresh(store, t1);
    TopFresh(a, t2);
    SortedSame(Kept(Top(a), FreshAt(t2)), true);
    KeptSorted(kept, true, FreshAt(t2));
    KeptTwice(store, FreshAt(t1), FreshAt(t2));
  }

  /**
    A pruned store holds fresh entries of the store, newest first; one that is fresh and missing has
    been crowded out by 80 that are no older.
   */
  lemma NewestKept(store: Store, now: int)
    ensures var pruned := Prune(store, now);
      && |pruned| <= MAX_ENTRIES && Ordered(pruned, true)
      && (forall e :: e in pruned ==> e in store && FreshAt(now)(e))
      && forall d :: d in store && FreshAt(now)(d) && d !in pruned ==>
           |pruned| == MAX_ENTRIES && forall e :: e in pruned ==> e.at >= d.at
  {
    var a := Sorted(Kept(store, FreshAt(now)), true);
    SortedFresh(store, now);
    forall d | d in store && FreshAt(now)(d) && d !in Top(a)
      ensures |Top(a)| == MAX_ENTRIES && forall e :: e in Top(a) ==> e.at >= d.at
    {
      var j :| 0 <= j < |a| && a[j] == d;
      assert forall i :: 0 <= i < |Top(a)| ==> Top(a)[i] == a[i] && Top(a)[i] in Top(a);
      forall e | e in Top(a)
        ensures e.at >= d.at
      {
        var i :| 0 <= i < |Top(a)| && Top(a)[i] == e;
        assert InOrder(a[i].at, a[j].at, true);
      }
    }
  }

  // ---------- Saving and reading ----------

  function IndexOf(store: Store, key: Key): int {
    if store == [] then -1
    else
      var earlier := IndexOf(store[..|store| - 1], key);
      if earlier >= 0 then earlier else if store[|store| - 1].value.key == key then |store| - 1 else -1
  }

  lemma {:induction false} IndexOfFirst(store: Store, key: Key)
    ensures -1 <= IndexOf(store, key) < |store|
    ensures IndexOf(store, key) >= 0 ==> store[IndexOf(store, key)].value.key == key
    ensures forall i :: 0 <= i < (if IndexOf(store, key) >= 0 then IndexOf(store, key) else |store|) ==>
      store[i].value.key != key
  {
    if store != [] {
      IndexOfFirst(store[..|store| - 1], key);
    }
  }

  /** `entries[key]?.text ?? ''` */
  function TextOf(store: Store, key: Key): string {
    IndexOfFirst(store, key);
    var i := IndexOf(store, key);
    if i >= 0 && store[i].value.entry.Draft? then store[i].value.entry.text else ""
  }

  /** Setting a property: in its place if the object has it, otherwise at the end. */
  function Put(store: Store, key: Key, e: Stamped<Slot>): Store {
    IndexOfFirst(store, key);
    if IndexOf(store, key) >= 0 then store[IndexOf(store, key) := e] else store + [e]
  }

  function Deleted(store: Store, key: Key): Store {
    IndexOfFirst(store, key);
    var i := IndexOf(store, key);
    if i >= 0 then store[..i] + store[i + 1..] else store
  }

  function Saved(store: Store, key: Key, text: string, now: int): Store {
    var bounded := Truncated(text);
    Prune(if Blank(bounded) then Deleted(store, key) else Put(store, key, Stamped(now, Slot(key, Draft(bounded)))), now)
  }

  /** Keys of an object are different. */
  ghost predicate Keyed(store: Store) {
    forall i, j :: 0 <= i < j < |store| ==> store[i].value.key != store[j].value.key
  }

  /** How many usable entries stand before the `p`-th when sorted: newer, or as new and earlier. */
  function Ahead(store: Store, p: nat): nat
    requires p < |store|
  {
    var at := store[p].at;
    |Kept(store, Newer(at))| + |Kept(store[..p], AsNew(at))|
  }

  function Newer(at: int): Stamped<Slot> -> bool {
    (e: Stamped<Slot>) => Usable(e) && e.at > at
  }

  function AsNew(at: int): Stamped<Slot> -> bool {
    (e: Stamped<Slot>) => Usable(e) && e.at == at
  }

  /** Nothing older: every usable entry is newer or as new. */
  lemma {:induction false} AllCounted(a: Store, at: int)
    requires forall e :: e in a ==> Usable(e) && e.at >= at
    ensures |Kept(a, Newer(at))| + |Kept(a, AsNew(at))| == |a|
  {
    if a != [] {
      assert a[|a| - 1] in a;
      AllCounted(a[..|a| - 1], at);
    }
  }

  /** A sorted list starts with the newer entries, and the ties follow in their order. */
  lemma {:induction false} SortedBlocks(a: Store, at: int)
    requires Ordered(a, true) && forall e :: e in a ==> Usable(e)
    ensures Kept(a, Newer(at)) + Kept(a, AsNew(at)) <= a
  {
    if a != [] {
      var rest, last := a[..|a| - 1], a[|a| - 1];
      var newer, tied := Kept(rest, Newer(at)), Kept(rest, AsNew(at));
      assert a == rest + [last] && last in a;
      OrderedSnoc(rest, last, true);
      SortedBlocks(rest, at);
      KeptSnoc(rest, last, Newer(at));
      KeptSnoc(rest, last, AsNew(at));
      if last.at > at {
        AllCounted(rest, at);
        KeptNone(rest, AsNew(at));
        assert newer + tied == rest && tied == [];
        assert newer + [last] + tied == rest + [last];
      } else if last.at == at {
        AllCounted(rest, at);
        assert newer + (tied + [last]) == newer + tied + [last];
      }
    }
  }

  lemma {:induction false} TiedSame(xs: Store, at: int)
    ensures Sorted(Kept(xs, AsNew(at)), true) == Kept(xs, AsNew(at))
  {
    forall e | e in Kept(xs, AsNew(at))
      ensures e.at == at
    {
      KeptMember(xs, AsNew(at), e);
    }
    SortedSame(Kept(xs, AsNew(at)), true);
  }

  lemma SortedUsable(xs: Store)
    requires forall e :: e in xs ==> Usable(e)
    ensures Ordered(Sorted(xs, true), true) && forall e :: e in Sorted(xs, true) ==> Usable(e)
    ensures |Sorted(xs, true)| == |xs|
  {
    SortedOrdered(xs, true);
    forall e | e in Sorted(xs, true)
      ensures Usable(e)
    {
      assert e in multiset(Sorted(xs, true)) && e in multiset(xs);
    }
    assert |multiset(Sorted(xs, true))| == |multiset(xs)|;
  }

  lemma SortedPrefix(xs: Store, at: int)
    requires forall e :: e in xs ==> Usable(e)
    ensures |Kept(Sorted(xs, true), Newer(at))| == |Kept(xs, Newer(at))|
    ensures Kept(Sorted(xs, true), Newer(at)) + Kept(xs, AsNew(at)) <= Sorted(xs, true)
  {
    SortedUsable(xs);
    SortedBlocks(Sorted(xs, true), at);
    KeptSorted(xs, true, Newer(at));
    KeptSorted(xs, true, AsNew(at));
    TiedSame(xs, at);
    forall e | e in Kept(xs, Newer(at))
      ensures Usable(e)
    {
      KeptMember(xs, Newer(at), e);
    }
    SortedUsable(Kept(xs, Newer(at)));
  }

  /** Sorted, the `p`-th entry stands behind exactly the entries ahead of it. */
  lemma SortedAt(xs: Store, p: nat)
    requires p < |xs| && forall e :: e in xs ==> Usable(e)
    ensures Ahead(xs, p) < |Sorted(xs, true)| && Sorted(xs, true)[Ahead(xs, p)] == xs[p]
  {
    var at := xs[p].at;
    assert xs[p] in xs;
    SortedPrefix(xs, at);
    TiedAt(xs, p);
    BlockAt(Kept(Sorted(xs, true), Newer(at)), Kept(xs, AsNew(at)), Sorted(xs, true), |Kept(xs[..p], AsNew(at))|);
  }

  lemma BlockAt(newer: Store, tied: Store, a: Store, k: nat)
    requires newer + tied <= a && k < |tied|
    ensures |newer| + k < |a| && a[|newer| + k] == tied[k]
  {
    assert (newer + tied)[|newer| + k] == tied[k];
  }

  lemma TiedAt(xs: Store, p: nat)
    requires p < |xs| && Usable(xs[p])
    ensures var tied, k := Kept(xs, AsNew(xs[p].at)), |Kept(xs[..p], AsNew(xs[p].at))|;
      k < |tied| && tied[k] == xs[p]
  {
    var keep := AsNew(xs[p].at);
    assert xs == xs[..p] + [xs[p]] + xs[p + 1..];
    KeptSnoc(xs[..p], xs[p], keep);
    KeptSum(xs[..p] + [xs[p]], xs[p + 1..], keep);
  }

  lemma {:induction false} KeptKeyed(store: Store, keep: Stamped<Slot> -> bool)
    requires Keyed(store)
    ensures Keyed(Kept(store, keep))
  {
    if store != [] {
      var rest, last := store[..|store| - 1], store[|store| - 1];
      KeptKeyed(rest, keep);
      forall i | 0 <= i < |Kept(rest, keep)|
        ensures Kept(rest, keep)[i].value.key != last.value.key
      {
        KeptMember(rest, keep, Kept(rest, keep)[i]);
      }
    }
  }

  lemma {:induction false} KeyedOnce(store: Store, e: Stamped<Slot>)
    requires Keyed(store)
    ensures multiset(store)[e] <= 1
  {
    if store != [] {
      var rest, last := store[..|store| - 1], store[|store| - 1];
      assert store == rest + [last];
      KeyedOnce(rest, e);
      assert last !in rest;
    }
  }

  lemma TwiceIn(store: Store, i: nat, j: nat)
    requires i < j < |store| && store[i] == store[j]
    ensures multiset(store)[store[i]] >= 2
  {
    assert store == store[..j] + store[j..];
    assert store[..j][i] in store[..j] && store[j..][0] in store[j..];
  }

  lemma SortedApart(xs: Store, i: nat, j: nat)
    requires Keyed(xs) && i < j < |Sorted(xs, true)|
    ensures Sorted(xs, true)[i] != Sorted(xs, true)[j]
  {
    var a := Sorted(xs, true);
    if a[i] == a[j] {
      SortedOrdered(xs, true);
      KeyedOnce(xs, a[i]);
      TwiceIn(a, i, j);
    }
  }

  lemma SortedMember(xs: Store, e: Stamped<Slot>)
    ensures e in Sorted(xs, true) <==> e in xs
  {
    SortedOrdered(xs, true);
    assert e in Sorted(xs, true) <==> e in multiset(Sorted(xs, true));
    assert e in xs <==> e in multiset(xs);
  }

  lemma KeyedSame(xs: Store, a: Stamped<Slot>, b: Stamped<Slot>)
    requires Keyed(xs) && a in xs && b in xs && a.value.key == b.value.key
    ensures a == b
  {
  }

  lemma SortedKeyed(xs: Store)
    requires Keyed(xs)
    ensures Keyed(Sorted(xs, true)) && Keyed(Top(Sorted(xs, true)))
  {
    var a := Sorted(xs, true);
    forall i, j | 0 <= i < j < |a|
      ensures a[i].value.key != a[j].value.key
    {
      SortedApart(xs, i, j);
      SortedMember(xs, a[i]);
      SortedMember(xs, a[j]);
    }
  }

  /** The entry at `p` of a store of usable entries survives the cut exactly with fewer than 80 ahead. */
  lemma TopHas(xs: Store, p: nat)
    requires Keyed(xs) && p < |xs| && forall e :: e in xs ==> Usable(e)
    ensures xs[p] in Top(Sorted(xs, true)) <==> Ahead(xs, p) < MAX_ENTRIES
  {
    var a, k := Sorted(xs, true), Ahead(xs, p);
    SortedAt(xs, p);
    InTop(a, k, xs);
  }

  lemma InTop(a: Store, k: nat, xs: Store)
    requires Keyed(xs) && a == Sorted(xs, true) && k < |a|
    ensures a[k] in Top(a) <==> k < MAX_ENTRIES
  {
    if k < MAX_ENTRIES {
      assert Top(a)[k] == a[k];
    } else {
      forall i | 0 <= i < |Top(a)|
        ensures Top(a)[i] != a[k]
      {
        SortedApart(xs, i, k);
      }
    }
  }

  /** With different keys, the text under a key is that of the one entry that has it. */
  lemma TextIs(store: Store, e: Stamped<Slot>)
    requires Keyed(store) && e in store && e.value.entry.Draft?
    ensures TextOf(store, e.value.key) == e.value.entry.text
  {
    IndexOfFirst(store, e.value.key);
    var i :| 0 <= i < |store| && store[i] == e;
  }

  lemma TextNone(store: Store, key: Key)
    requires forall e :: e in store ==> e.value.key != key
    ensures TextOf(store, key) == ""
  {
    IndexOfFirst(store, key);
  }

  lemma PutAt(store: Store, key: Key, e: Stamped<Slot>) returns (p: nat)
    requires Keyed(store) && e.value.key == key
    ensures p == if IndexOf(store, key) >= 0 then IndexOf(store, key) else |store|
    ensures var after := Put(store, key, e); Keyed(after) && p < |after| && after[p] == e
  {
    IndexOfFirst(store, key);
    p := if IndexOf(store, key) >= 0 then IndexOf(store, key) else |store|;
    var after := Put(store, key, e);
    forall i, j | 0 <= i < j < |after|
      ensures after[i].value.key != after[j].value.key
    {
      if p < |store| {
        assert store[i].value.key != store[j].value.key;
      }
    }
  }

  /** What is ahead of a fresh entry is fresh too, so dropping the rest changes nothing ahead. */
  lemma FreshAhead(after: Store, p: nat, later: int) returns (q: nat)
    requires p < |after| && FreshAt(later)(after[p])
    ensures var live := Kept(after, FreshAt(later));
      q < |live| && live[q] == after[p] && Ahead(live, q) == Ahead(after, p)
  {
    var keep, at := FreshAt(later), after[p].at;
    var before, rest := after[..p], after[p + 1..];
    assert after == before + [after[p]] + rest;
    KeptSnoc(before, after[p], keep);
    KeptSum(before + [after[p]], rest, keep);
    q := |Kept(before, keep)|;
    var live := Kept(after, keep);
    assert live[..q] == Kept(before, keep);
    KeptTwice(after, keep, Newer(at));
    KeptTwice(before, keep, AsNew(at));
  }

  /** The entry at `p` is in a later pruning exactly if it has not expired and fewer than 80 are ahead. */
  lemma PrunedHas(after: Store, p: nat, later: int)
    requires Keyed(after) && p < |after| && Usable(after[p])
    ensures Keyed(Prune(after, later))
    ensures after[p] in Prune(after, later) <==> after[p].at > later - TTL_MS && Ahead(after, p) < MAX_ENTRIES
    ensures forall e :: e in Prune(after, later) && e.value.key == after[p].value.key ==> e == after[p]
  {
    var live := Kept(after, FreshAt(later));
    KeptKeyed(after, FreshAt(later));
    SortedKeyed(live);
    NewestKept(after, later);
    forall e | e in live
      ensures Usable(e)
    {
      KeptMember(after, FreshAt(later), e);
    }
    if FreshAt(later)(after[p]) {
      var q := FreshAhead(after, p, later);
      TopHas(live, q);
    }
    forall e | e in Prune(after, later) && e.value.key == after[p].value.key
      ensures e == after[p]
    {
      KeyedSame(after, e, after[p]);
    }
  }

  /**
    A draft saved and read later comes back as its first 4000 characters exactly if it has not expired
    and fewer than 80 entries were ahead of it; otherwise nothing comes back.
   */
  lemma SavedThenRead(store: Store, key: Key, text: string, now: int, later: int)
    requires Keyed(store) && now <= later && !Blank(Truncated(text))
    ensures var e := Stamped(now, Slot(key, Draft(Truncated(text))));
      var after, p := Put(store, key, e), if IndexOf(store, key) >= 0 then IndexOf(store, key) else |store|;
      && p < |after|
      && TextOf(Prune(Saved(store, key, text, now), later), key) ==
           if now > later - TTL_MS && Ahead(after, p) < MAX_ENTRIES then Truncated(text) else ""
  {
    var e := Stamped(now, Slot(key, Draft(Truncated(text))));
    var after := Put(store, key, e);
    var p := PutAt(store, key, e);
    PruneLater(after, now, later);
    PrunedHas(after, p, later);
    if e in Prune(after, later) {
      TextIs(Prune(after, later), e);
    } else {
      TextNone(Prune(after, later), key);
    }
  }

  /** With no other entry as new, which clocks ensure, a saved draft comes back until it expires. */
  lemma SavedComesBack(store: Store, key: Key, text: string, now: int, later: int)
    requires Keyed(store) && now <= later < now + TTL_MS && !Blank(Truncated(text))
    requires forall e :: e in store ==> e.at < now
    ensures TextOf(Prune(Saved(store, key, text, now), later), key) == Truncated(text)
  {
    var e := Stamped(now, Slot(key, Draft(Truncated(text))));
    var after := Put(store, key, e);
    var p := PutAt(store, key, e);
    SavedThenRead(store, key, text, now, later);
    IndexOfFirst(store, key);
    assert forall x :: x in after ==> x == e || x in store;
    assert forall x :: x in after[..p] ==> x in store;
    KeptNone(after, Newer(now));
    KeptNone(after[..p], AsNew(now));
  }

  lemma DeletedKeys(store: Store, key: Key)
    requires Keyed(store)
    ensures forall e :: e in Deleted(store, key) ==> e.value.key != key
    ensures Keyed(Deleted(store, key))
  {
    var after, k := Deleted(store, key), IndexOf(store, key);
    IndexOfFirst(store, key);
    forall i | 0 <= i < |after|
      ensures after[i] == store[if k < 0 || i < k then i else i + 1]
    {
    }
  }

  /** A blank text clears the draft. */
  lemma BlankClears(store: Store, key: Key, text: string, now: int, later: int)
    requires Keyed(store) && now <= later && Blank(Truncated(text))
    ensures TextOf(Prune(Saved(store, key, text, now), later), key) == ""
  {
    PruneLater(Deleted(store, key), now, later);
    NewestKept(Deleted(store, key), later);
    DeletedKeys(store, key);
    TextNone(Prune(Deleted(store, key), later), key);
  }

  lemma PruneKeyed(store: Store, now: int)
    requires Keyed(store)
    ensures Keyed(Prune(store, now))
  {
    KeptKeyed(store, FreshAt(now));
    SortedKeyed(Kept(store, FreshAt(now)));
  }

  /** Another session that loads after a flush gets what this one would load then. */
  lemma FlushedLoads(store: Store, now: int)
    ensures forall later :: now <= later ==> Prune(Prune(store, now), later) == Prune(store, later)
  {
    forall later | now <= later
      ensures Prune(Prune(store, now), later) == Prune(store, later)
    {
      PruneLater(store, now, later);
    }
  }

  lemma DeletedGone(store: Store, key: Key)
    requires Keyed(store)
    ensures TextOf(Deleted(store, key), key) == ""
  {
    DeletedKeys(store, key);
    TextNone(Deleted(store, key), key);
  }

  // ---------- The module's state ----------

  class Drafts {
    var cachedStore: Option<Store>
    /** What local storage holds, if it parses as a store of this version. */
    var stored: Option<Store>
    var flushTimer: bool
    const available: bool

    /** Stores are objects: no key twice. */
    ghost predicate Valid()
      reads this
    {
      (cachedStore.Some? ==> Keyed(cachedStore.value)) && (stored.Some? ==> Keyed(stored.value))
    }

    constructor (available: bool, stored: Option<Store>)
      requires stored.Some? ==> Keyed(stored.value)
      ensures Valid() && cachedStore.None? && this.stored == stored && this.available == available && !flushTimer
    {
      cachedStore, this.stored, flushTimer := None, stored, false;
      this.available := available;
    }

    /** What a load at `now` gives. */
    function Loaded(now: int): Store
      reads this
    {
      if cachedStore.Some? then Prune(cachedStore.value, now)
      else if available && stored.Some? then Prune(stored.value, now)
      else []
    }

    lemma LoadedKeyed(now: int)
      requires Valid()
      ensures Keyed(Loaded(now))
    {
      if cachedStore.Some? {
        PruneKeyed(cachedStore.value, now);
      } else if stored.Some? {
        PruneKeyed(stored.value, now);
      }
    }

    method LoadStore(now: int)
      requires Valid()
      modifies this`cachedStore
      ensures Valid() && cachedStore == Some(old(Loaded(now)))
    {
      LoadedKeyed(now);
      if cachedStore.Some? {
        cachedStore := Some(Prune(cachedStore.value, now));
      } else if !available || stored.None? {
        cachedStore := Some([]);
      } else {
        cachedStore := Some(Prune(stored.value, now));
      }
    }

    /**
      Storage may refuse the write; the draft is then kept in memory only. What another session loads
      from a write is what this one would load at that time.
     */
    method FlushMessageDrafts(now: int, accepted: bool)
      requires Valid()
      modifies this`stored, this`flushTimer
      ensures Valid() && !flushTimer
      ensures stored != old(stored) ==> available && cachedStore.Some? && accepted
      ensures available && cachedStore.Some? && accepted ==>
        stored.Some? && forall later :: now <= later ==> Prune(stored.value, later) == Prune(cachedStore.value, later)
    {
      flushTimer := false;
      if !available || cachedStore.None? {
        return;
      }
      if accepted {
        PruneKeyed(cachedStore.value, now);
        FlushedLoads(cachedStore.value, now);
        stored := Some(Prune(cachedStore.value, now));
      }
    }

    method ReadMessageDraft(userId: string, scope: Scope, conversationId: string, now: int) returns (text: string)
      requires Valid()
      modifies this`cachedStore
      ensures Valid()
      ensures text ==
        if userId == "" || conversationId == "" then ""
        else TextOf(old(Loaded(now)), Key(userId, scope, conversationId))
      ensures cachedStore == if userId == "" || conversationId == "" then old(cachedStore) else Some(old(Loaded(now)))
    {
      if userId == "" || conversationId == "" {
        return "";
      }
      LoadStore(now);
      text := TextOf(cachedStore.value, Key(userId, scope, conversationId));
    }

    method SaveMessageDraft(userId: string, scope: Scope, conversationId: string, text: string, now: int)
      requires Valid()
      modifies this`cachedStore, this`flushTimer
      ensures Valid()
      ensures cachedStore ==
        if userId == "" || conversationId == "" then old(cachedStore)
        else Some(Saved(old(Loaded(now)), Key(userId, scope, conversationId), text, now))
      ensures flushTimer == (old(flushTimer) || (available && userId != "" && conversationId != ""))
    {
      if userId == "" || conversationId == "" {
        return;
      }
      LoadStore(now);
      var key, bounded, store := Key(userId, scope, conversationId), Truncated(text), cachedStore.value;
      if Blank(bounded) {
        DeletedKeys(store, key);
        store := Deleted(store, key);
      } else {
        var e := Stamped(now, Slot(key, Draft(bounded)));
        ghost var p := PutAt(store, key, e);
        store := Put(store, key, e);
      }
      PruneKeyed(store, now);
      cachedStore := Some(Prune(store, now));
      if available {
        flushTimer := true;
      }
    }

    /** Clears the draft only if it still is the text that was sent, and then writes at once. */
    method ClearMessageDraftIfUnchanged(
        userId: string, scope: Scope, conversationId: string, expected: string, now: int, accepted: bool)
      requires Valid()
      modifies this
      ensures Valid()
      ensures userId == "" || conversationId == "" ==>
        cachedStore == old(cachedStore) && stored == old(stored) && flushTimer == old(flushTimer)
      ensures userId != "" && conversationId != "" ==>
        var key, before := Key(userId, scope, conversationId), old(Loaded(now));
        if IndexOf(before, key) >= 0 && TextOf(before, key) == Truncated(expected) then
          && cachedStore == Some(Deleted(before, key)) && TextOf(cachedStore.value, key) == "" && !flushTimer
          && (!(available && accepted) ==> stored == old(stored))
          && (available && accepted ==>
                stored.Some?
                && forall later :: now <= later ==> Prune(stored.value, later) == Prune(cachedStore.value, later))
        else cachedStore == Some(before) && stored == old(stored) && flushTimer == old(flushTimer)
    {
      if userId == "" || conversationId == "" {
        return;
      }
      LoadStore(now);
      var key, before := Key(userId, scope, conversationId), cachedStore.value;
      if IndexOf(before, key) < 0 || TextOf(before, key) != Truncated(expected) {
        return;
      }
      DeletedKeys(before, key);
      DeletedGone(before, key);
      cachedStore := Some(Deleted(before, key));
      FlushMessageDrafts(now, accepted);
    }
  }
}
