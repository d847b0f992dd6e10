/**
  The client's cache of DM conversations (apps/web/src/dmMessageCache.ts): a Map that keeps insertion
  order, from which a key is deleted and set again when it is touched.
 */
module DmCache {
  import opened Options

  const MAX_CACHED_CONVERSATIONS := 16

  datatype Entry<V> = Entry(key: string, value: V)

  function CacheKey(userId: string, channelId: string): string {
    userId + ":" + channelId
  }

  function StartsWith(s: string, prefix: string): bool {
    prefix <= s
  }

  // ---------- The Map ----------

  /** `delete`: the other entries keep their order. */
  function Deleted<V>(entries: seq<Entry<V>>, key: string): seq<Entry<V>> {
    if entries == [] then []
    else
      Deleted(entries[..|entries| - 1], key)
      + if entries[|entries| - 1].key == key then [] else [entries[|entries| - 1]]
  }

  function Lookup<V>(entries: seq<Entry<V>>, key: string): Option<V> {
    if entries == [] then None
    else if entries[|entries| - 1].key == key then Some(entries[|entries| - 1].value)
    else Lookup(entries[..|entries| - 1], key)
  }

  function Trimmed<T>(xs: seq<T>): seq<T> {
    if |xs| > MAX_CACHED_CONVERSATIONS then xs[|xs| - MAX_CACHED_CONVERSATIONS..] else xs
  }

  function Stored<V>(entries: seq<Entry<V>>, key: string, value: V): seq<Entry<V>> {
    Trimmed(Deleted(entries, key) + [Entry(key, value)])
  }

  function Fetched<V>(entries: seq<Entry<V>>, key: string): seq<Entry<V>> {
    match Lookup(entries, key)
    case Some(value) => Deleted(entries, key) + [Entry(key, value)]
    case None => entries
  }

  function Rewritten<V>(entry: Entry<V>, prefix: string, update: V -> V): Entry<V> {
    if StartsWith(entry.key, prefix) then Entry(entry.key, update(entry.value)) else entry
  }

  function Updated<V>(entries: seq<Entry<V>>, prefix: string, update: V -> V): seq<Entry<V>> {
    if entries == [] then []
    else
      Updated(entries[..|entries| - 1], prefix, update) + [Rewritten(entries[|entries| - 1], prefix, update)]
  }

  class MessageCache<V> {
    var entries: seq<Entry<V>>

    constructor ()
      ensures entries == []
    {
      entries := [];
    }

    method GetCachedDmMessages(userId: string, channelId: string) returns (cached: Option<V>)
      modifies this
      ensures cached == Lookup(old(entries), CacheKey(userId, channelId))
      ensures entries == Fetched(old(entries), CacheKey(userId, channelId))
    {
      var key := CacheKey(userId, channelId);
      cached := Lookup(entries, key);
      if cached.None? {
        return;
      }
      entries := Deleted(entries, key);
      entries := entries + [Entry(key, cached.value)];
    }

    method SetCachedDmMessages(userId: string, channelId: string, messages: V)
      modifies this
      ensures entries == Stored(old(entries), CacheKey(userId, channelId), messages)
    {
      var key := CacheKey(userId, channelId);
      entries := Deleted(entries, key);
      entries := entries + [Entry(key, messages)];
      ghost var full := entries;
      while |entries| > MAX_CACHED_CONVERSATIONS
        invariant |entries| <= |full| && entries == full[|full| - |entries|..]
        invariant |full| > MAX_CACHED_CONVERSATIONS ==> |entries| >= MAX_CACHED_CONVERSATIONS
        invariant |full| <= MAX_CACHED_CONVERSATIONS ==> entries == full
      {
        entries := entries[1..];
      }
    }

    method UpdateCachedDmMessages(userId: string, update: V -> V)
      modifies this
      ensures entries == Updated(old(entries), CacheKey(userId, ""), update)
    {
      var prefix := CacheKey(userId, "");
      ghost var begin := entries;
      for i := 0 to |entries|
        invariant |entries| == |begin|
        invariant entries[..i] == Updated(begin[..i], prefix, update)
        invariant entries[i..] == begin[i..]
      {
        assert begin[..i + 1][..i] == begin[..i];
        assert entries[i] == entries[i..][0] == begin[i..][0] == begin[i];
        entries := entries[i := Rewritten(entries[i], prefix, update)];
        assert entries[i + 1..] == begin[i..][1..];
        assert entries[..i + 1] == entries[..i] + [entries[i]];
      }
      assert entries[..|begin|] == entries && begin[..|begin|] == begin;
    }
  }

  // ---------- What the cache should hold ----------

  datatype Op<!V> = Set(key: string, value: V) | Get(key: string) | Update(prefix: string, update: V -> V)

  function Apply<V>(entries: seq<Entry<V>>, op: Op<V>): seq<Entry<V>> {
    match op
    case Set(key, value) => Stored(entries, key, value)
    case Get(key) => Fetched(entries, key)
    case Update(prefix, update) => Updated(entries, prefix, update)
  }

  function Run<V>(ops: seq<Op<V>>): seq<Entry<V>> {
    if ops == [] then [] else Apply(Run(ops[..|ops| - 1]), ops[|ops| - 1])
  }

  function Without(keys: seq<string>, key: string): seq<string> {
    if keys == [] then []
    else Without(keys[..|keys| - 1], key) + if keys[|keys| - 1] == key then [] else [keys[|keys| - 1]]
  }

  /** The keys touched, each once, in the order of their last touch. */
  function Recent(touches: seq<string>): seq<string> {
    if touches == [] then []
    else Without(Recent(touches[..|touches| - 1]), touches[|touches| - 1]) + [touches[|touches| - 1]]
  }

  /**
    The log of touches, and for every key ever set its latest value, whether it is cached or not. A set
    touches its key; a get only if the key is among the last 16; an update touches nothing.
   */
  datatype Log<V> = Log(touches: seq<string>, values: map<string, V>)

  function Logged<V>(ops: seq<Op<V>>): Log<V> {
    if ops == [] then Log([], map[])
    else
      var log := Logged(ops[..|ops| - 1]);
      match ops[|ops| - 1]
      case Set(key, value) => Log(log.touches + [key], log.values[key := value])
      case Get(key) => if key in Trimmed(Recent(log.touches)) then log.(touches := log.touches + [key]) else log
      case Update(prefix, update) =>
        log.(values := map key | key in log.values ::
               if StartsWith(key, prefix) then update(log.values[key]) else log.values[key])
  }

  function Keys<V>(entries: seq<Entry<V>>): seq<string> {
    if entries == [] then [] else Keys(entries[..|entries| - 1]) + [entries[|entries| - 1].key]
  }

  predicate ValuesFrom<V(==)>(entries: seq<Entry<V>>, values: map<string, V>) {
    forall i :: 0 <= i < |entries| ==> entries[i].key in values && entries[i].value == values[entries[i].key]
  }

  predicate Distinct(keys: seq<string>) {
    forall i, j :: 0 <= i < j < |keys| ==> keys[i] != keys[j]
  }

  // ---------- Deleting a key ----------

  lemma DistinctSnoc(keys: seq<string>, key: string)
    ensures Distinct(keys + [key]) <==> Distinct(keys) && key !in keys
  {
    var all := keys + [key];
    if Distinct(all) {
      forall i | 0 <= i < |keys|
        ensures keys[i] != key
      {
        assert all[i] != all[|keys|];
      }
      forall i, j | 0 <= i < j < |keys|
        ensures keys[i] != keys[j]
      {
        assert all[i] != all[j];
      }
    }
  }

  lemma {:induction false} WithoutKey(keys: seq<string>, key: string)
    requires Distinct(keys)
    ensures Distinct(Without(keys, key))
    ensures forall k :: k in Without(keys, key) <==> k in keys && k != key
    ensures |Without(keys, key)| == if key in keys then |keys| - 1 else |keys|
    ensures key !in keys ==> Without(keys, key) == keys
  {
    if keys != [] {
      var rest, last := keys[..|keys| - 1], keys[|keys| - 1];
      assert keys == rest + [last];
      DistinctSnoc(rest, last);
      WithoutKey(rest, key);
      DistinctSnoc(Without(rest, key), last);
    }
  }

  lemma {:induction false} WithoutSplit(a: seq<string>, b: seq<string>, key: string)
    ensures Without(a + b, key) == Without(a, key) + Without(b, key)
  {
    if b == [] {
      assert a + b == a;
    } else {
      assert (a + b)[..|a + b| - 1] == a + b[..|b| - 1];
      WithoutSplit(a, b[..|b| - 1], key);
    }
  }

  lemma {:induction false} RecentDistinct(touches: seq<string>)
    ensures Distinct(Recent(touches))
    ensures forall k :: k in Recent(touches) <==> k in touches
  {
    if touches != [] {
      var rest, last := touches[..|touches| - 1], touches[|touches| - 1];
      assert touches == rest + [last];
      RecentDistinct(rest);
      WithoutKey(Recent(rest), last);
    }
  }

  lemma TrimmedEnd(a: seq<string>, b: seq<string>)
    requires |b| >= MAX_CACHED_CONVERSATIONS
    ensures Trimmed(a + b) == Trimmed(b)
  {
  }

  /** Touching a key and trimming can be done on the trimmed keys alone. */
  lemma TouchTrimmed(keys: seq<string>, key: string)
    requires Distinct(keys)
    ensures Trimmed(Without(keys, key) + [key]) == Trimmed(Without(Trimmed(keys), key) + [key])
  {
    if |keys| > MAX_CACHED_CONVERSATIONS {
      var evicted, last := keys[..|keys| - MAX_CACHED_CONVERSATIONS], Trimmed(keys);
      assert keys == evicted + last;
      WithoutSplit(evicted, last, key);
      WithoutKey(last, key);
      var rest := Without(last, key) + [key];
      assert Without(keys, key) + [key] == Without(evicted, key) + rest;
      TrimmedEnd(Without(evicted, key), rest);
    }
  }

  // ---------- The cache against the log ----------

  lemma {:induction false} KeysAppend<V>(entries: seq<Entry<V>>, e: Entry<V>)
    ensures Keys(entries + [e]) == Keys(entries) + [e.key]
  {
    assert (entries + [e])[..|entries|] == entries;
  }

  lemma {:induction false} KeysAt<V>(entries: seq<Entry<V>>)
    ensures |Keys(entries)| == |entries|
    ensures forall i :: 0 <= i < |entries| ==> Keys(entries)[i] == entries[i].key
  {
    if entries != [] {
      KeysAt(entries[..|entries| - 1]);
    }
  }

  lemma {:induction false} KeysDeleted<V>(entries: seq<Entry<V>>, key: string)
    ensures Keys(Deleted(entries, key)) == Without(Keys(entries), key)
    ensures forall e :: e in Deleted(entries, key) ==> e in entries && e.key != key
  {
    if entries != [] {
      var rest, last := entries[..|entries| - 1], entries[|entries| - 1];
      assert entries == rest + [last];
      KeysDeleted(rest, key);
      KeysAppend(rest, last);
      assert Keys(entries)[..|Keys(entries)| - 1] == Keys(rest);
      if last.key != key {
        KeysAppend(Deleted(rest, key), last);
      } else {
        assert Deleted(entries, key) == Deleted(rest, key);
      }
    }
  }

  lemma {:induction false} KeysTrimmed<V>(entries: seq<Entry<V>>)
    ensures Keys(Trimmed(entries)) == Trimmed(Keys(entries))
  {
    KeysAt(entries);
    KeysAt(Trimmed(entries));
  }

  lemma {:induction false} KeysUpdated<V>(entries: seq<Entry<V>>, prefix: string, update: V -> V)
    ensures |Updated(entries, prefix, update)| == |entries|
    ensures forall i :: 0 <= i < |entries| ==>
      Updated(entries, prefix, update)[i] == Rewritten(entries[i], prefix, update)
    ensures Keys(Updated(entries, prefix, update)) == Keys(entries)
  {
    if entries != [] {
      var rest, last := entries[..|entries| - 1], entries[|entries| - 1];
      KeysUpdated(rest, prefix, update);
      KeysAppend(Updated(rest, prefix, update), Rewritten(last, prefix, update));
    }
  }

  lemma {:induction false} LookupKey<V>(entries: seq<Entry<V>>, key: string)
    ensures Lookup(entries, key).Some? <==> key in Keys(entries)
    ensures Lookup(entries, key).Some? ==> Entry(key, Lookup(entries, key).value) in entries
  {
    if entries != [] {
      LookupKey(entries[..|entries| - 1], key);
    }
  }

  lemma ValuesIn<V>(entries: seq<Entry<V>>, values: map<string, V>)
    requires forall e :: e in entries ==> e.key in values && e.value == values[e.key]
    ensures ValuesFrom(entries, values)
  {
  }

  lemma TouchValues<V>(entries: seq<Entry<V>>, key: string, value: V, values: map<string, V>)
    requires ValuesFrom(entries, values)
    ensures ValuesFrom(Deleted(entries, key) + [Entry(key, value)], values[key := value])
  {
    KeysDeleted(entries, key);
    var after := Deleted(entries, key) + [Entry(key, value)];
    forall e | e in after
      ensures e.key in values[key := value] && e.value == values[key := value][e.key]
    {
      if e in Deleted(entries, key) {
        var i :| 0 <= i < |entries| && entries[i] == e;
      }
    }
    ValuesIn(after, values[key := value]);
  }

  lemma TouchKeys<V>(entries: seq<Entry<V>>, key: string, value: V, touches: seq<string>)
    requires Keys(entries) == Trimmed(Recent(touches))
    ensures Keys(Trimmed(Deleted(entries, key) + [Entry(key, value)])) == Trimmed(Recent(touches + [key]))
  {
    KeysDeleted(entries, key);
    KeysAppend(Deleted(entries, key), Entry(key, value));
    KeysTrimmed(Deleted(entries, key) + [Entry(key, value)]);
    RecentDistinct(touches);
    TouchTrimmed(Recent(touches), key);
    assert (touches + [key])[..|touches|] == touches;
  }

  lemma SetAgrees<V>(entries: seq<Entry<V>>, log: Log<V>, key: string, value: V)
    requires Keys(entries) == Trimmed(Recent(log.touches)) && ValuesFrom(entries, log.values)
    ensures Keys(Stored(entries, key, value)) == Trimmed(Recent(log.touches + [key]))
    ensures ValuesFrom(Stored(entries, key, value), log.values[key := value])
  {
    TouchKeys(entries, key, value, log.touches);
    TouchValues(entries, key, value, log.values);
  }

  lemma FetchedFits<V>(entries: seq<Entry<V>>, key: string, value: V)
    requires Distinct(Keys(entries)) && key in Keys(entries) && |entries| <= MAX_CACHED_CONVERSATIONS
    ensures Trimmed(Deleted(entries, key) + [Entry(key, value)]) == Deleted(entries, key) + [Entry(key, value)]
  {
    KeysAt(entries);
    KeysDeleted(entries, key);
    KeysAt(Deleted(entries, key));
    WithoutKey(Keys(entries), key);
  }

  lemma TrimmedDistinct(keys: seq<string>)
    requires Distinct(keys)
    ensures Distinct(Trimmed(keys)) && |Trimmed(keys)| <= MAX_CACHED_CONVERSATIONS
  {
  }

  lemma HitAgrees<V>(entries: seq<Entry<V>>, log: Log<V>, key: string)
    requires Keys(entries) == Trimmed(Recent(log.touches)) && ValuesFrom(entries, log.values)
    requires key in Keys(entries)
    ensures Keys(Fetched(entries, key)) == Trimmed(Recent(log.touches + [key]))
    ensures ValuesFrom(Fetched(entries, key), log.values)
  {
    LookupKey(entries, key);
    var value := Lookup(entries, key).value;
    var i :| 0 <= i < |entries| && entries[i] == Entry(key, value);
    TouchKeys(entries, key, value, log.touches);
    TouchValues(entries, key, value, log.values);
    assert log.values[key := value] == log.values;
    RecentDistinct(log.touches);
    TrimmedDistinct(Recent(log.touches));
    KeysAt(entries);
    FetchedFits(entries, key, value);
  }

  lemma GetAgrees<V>(entries: seq<Entry<V>>, log: Log<V>, key: string)
    requires Keys(entries) == Trimmed(Recent(log.touches)) && ValuesFrom(entries, log.values)
    ensures var touches := if key in Trimmed(Recent(log.touches)) then log.touches + [key] else log.touches;
      Keys(Fetched(entries, key)) == Trimmed(Recent(touches)) && ValuesFrom(Fetched(entries, key), log.values)
  {
    LookupKey(entries, key);
    if key in Keys(entries) {
      HitAgrees(entries, log, key);
    }
  }

  /**
    After any run of sets, gets and updates the cache holds exactly the 16 most recently touched keys,
    in the order of their last touch, each with its latest set or updated value.
   */
  lemma {:induction false} CacheAgreesWithLog<V>(ops: seq<Op<V>>)
    ensures Keys(Run(ops)) == Trimmed(Recent(Logged(ops).touches))
    ensures ValuesFrom(Run(ops), Logged(ops).values)
  {
    if ops != [] {
      var before := ops[..|ops| - 1];
      CacheAgreesWithLog(before);
      match ops[|ops| - 1]
      case Set(key, value) => SetAgrees(Run(before), Logged(before), key, value);
      case Get(key) => GetAgrees(Run(before), Logged(before), key);
      case Update(prefix, update) => KeysUpdated(Run(before), prefix, update);
    }
  }

  // ---------- Which keys are cached ----------

  /** Where a key was last touched, or -1. */
  function LastTouch(touches: seq<string>, key: string): int {
    if touches == [] then -1
    else if touches[|touches| - 1] == key then |touches| - 1
    else LastTouch(touches[..|touches| - 1], key)
  }

  lemma {:induction false} LastTouchRange(touches: seq<string>, key: string)
    ensures -1 <= LastTouch(touches, key) < |touches|
  {
    if touches != [] {
      LastTouchRange(touches[..|touches| - 1], key);
    }
  }

  ghost predicate Ordered(keys: seq<string>, touches: seq<string>) {
    forall i, j :: 0 <= i < j < |keys| ==> LastTouch(touches, keys[i]) < LastTouch(touches, keys[j])
  }

  lemma OrderedSnoc(keys: seq<string>, key: string, touches: seq<string>)
    ensures Ordered(keys + [key], touches) <==>
      Ordered(keys, touches) && forall i :: 0 <= i < |keys| ==> LastTouch(touches, keys[i]) < LastTouch(touches, key)
  {
    var all := keys + [key];
    if Ordered(all, touches) {
      forall i | 0 <= i < |keys|
        ensures LastTouch(touches, keys[i]) < LastTouch(touches, key)
      {
        assert all[i] == keys[i] && all[|keys|] == key;
      }
      forall i, j | 0 <= i < j < |keys|
        ensures LastTouch(touches, keys[i]) < LastTouch(touches, keys[j])
      {
        assert all[i] == keys[i] && all[j] == keys[j];
      }
    }
  }

  lemma {:induction false} WithoutOrdered(keys: seq<string>, key: string, touches: seq<string>)
    requires Ordered(keys, touches)
    ensures Ordered(Without(keys, key), touches)
    ensures forall k :: k in Without(keys, key) ==> k in keys
  {
    if keys != [] {
      var rest, last := keys[..|keys| - 1], keys[|keys| - 1];
      assert keys == rest + [last];
      OrderedSnoc(rest, last, touches);
      WithoutOrdered(rest, key, touches);
      forall i | 0 <= i < |Without(rest, key)|
        ensures LastTouch(touches, Without(rest, key)[i]) < LastTouch(touches, last)
      {
        assert Without(rest, key)[i] in rest;
      }
      OrderedSnoc(Without(rest, key), last, touches);
    }
  }

  /** A later touch of another key moves no last touch. */
  lemma OrderedLater(keys: seq<string>, before: seq<string>, last: string)
    requires Ordered(keys, before) && last !in keys
    ensures Ordered(keys, before + [last])
    ensures forall i :: 0 <= i < |keys| ==> LastTouch(before + [last], keys[i]) < |before|
  {
    assert (before + [last])[..|before|] == before;
    forall i | 0 <= i < |keys|
      ensures LastTouch(before + [last], keys[i]) == LastTouch(before, keys[i]) < |before|
    {
      assert keys[i] in keys;
      LastTouchRange(before, keys[i]);
    }
  }

  /** The recent keys stand in the order of their last touch. */
  lemma {:induction false} RecentOrdered(touches: seq<string>)
    ensures Ordered(Recent(touches), touches)
  {
    if touches != [] {
      var before, last := touches[..|touches| - 1], touches[|touches| - 1];
      assert touches == before + [last];
      RecentOrdered(before);
      RecentDistinct(before);
      WithoutKey(Recent(before), last);
      WithoutOrdered(Recent(before), last, before);
      OrderedLater(Without(Recent(before), last), before, last);
      OrderedSnoc(Without(Recent(before), last), last, touches);
    }
  }

  /** The keys touched after the last touch of `key`. */
  function TouchedSince(touches: seq<string>, key: string): set<string> {
    set k | k in touches && LastTouch(touches, k) > LastTouch(touches, key)
  }

  lemma {:induction false} SetOfDistinct(keys: seq<string>)
    requires Distinct(keys)
    ensures |set k | k in keys| == |keys|
  {
    if keys != [] {
      var rest, last := keys[..|keys| - 1], keys[|keys| - 1];
      assert keys == rest + [last];
      DistinctSnoc(rest, last);
      SetOfDistinct(rest);
      assert (set k | k in keys) == (set k | k in rest) + {last};
    }
  }

  /** A key is cached exactly if it was touched and fewer than 16 others were touched since. */
  lemma CachedExactly<V>(ops: seq<Op<V>>, key: string)
    ensures var touches := Logged(ops).touches;
      Lookup(Run(ops), key).Some? <==> key in touches && |TouchedSince(touches, key)| < MAX_CACHED_CONVERSATIONS
  {
    var touches := Logged(ops).touches;
    CacheAgreesWithLog(ops);
    LookupKey(Run(ops), key);
    RecentDistinct(touches);
    if key in touches {
      var r := Recent(touches);
      var i :| 0 <= i < |r| && r[i] == key;
      SinceIsTail(touches, i);
      InTail(r, i);
    } else {
      assert forall k :: k in Trimmed(Recent(touches)) ==> k in Recent(touches);
    }
  }

  lemma InTail(keys: seq<string>, i: nat)
    requires Distinct(keys) && i < |keys|
    ensures keys[i] in Trimmed(keys) <==> |keys| - 1 - i < MAX_CACHED_CONVERSATIONS
  {
    if |keys| > MAX_CACHED_CONVERSATIONS {
      var from := |keys| - MAX_CACHED_CONVERSATIONS;
      if i >= from {
        assert Trimmed(keys)[i - from] == keys[i];
      } else {
        assert forall j :: 0 <= j < MAX_CACHED_CONVERSATIONS ==> Trimmed(keys)[j] == keys[from + j];
      }
    }
  }

  lemma SinceIsTail(touches: seq<string>, i: nat)
    requires i < |Recent(touches)|
    ensures |TouchedSince(touches, Recent(touches)[i])| == |Recent(touches)| - 1 - i
  {
    var r := Recent(touches);
    RecentDistinct(touches);
    RecentOrdered(touches);
    var tail := r[i + 1..];
    forall k
      ensures k in tail <==> k in TouchedSince(touches, r[i])
    {
      if k in tail {
        var j :| 0 <= j < |tail| && tail[j] == k;
        assert r[i + 1 + j] == k && k in r;
      }
      if k in TouchedSince(touches, r[i]) {
        assert k in r;
        var j :| 0 <= j < |r| && r[j] == k;
        assert j > i;
        assert tail[j - i - 1] == k;
      }
    }
    assert Distinct(tail);
    SetOfDistinct(tail);
    assert TouchedSince(touches, r[i]) == set k | k in tail;
  }

  // ---------- Which conversations an update rewrites ----------

  /** With ids that hold no ':', each pair of a user and a channel has its own key. */
  lemma KeysDiffer(user: string, channel: string, other: string, another: string)
    requires ':' !in user && ':' !in other
    requires CacheKey(user, channel) == CacheKey(other, another)
    ensures user == other && channel == another
  {
    var key := CacheKey(user, channel);
    PrefixIsUser(other, user, channel);
    assert key == CacheKey(other, "") + another;
    assert CacheKey(other, "") <= key;
    assert channel == key[|user| + 1..] && another == key[|other| + 1..];
  }

  /** With ids that hold no ':', an update rewrites exactly the conversations of its user. */
  lemma PrefixIsUser(user: string, other: string, channel: string)
    requires ':' !in user && ':' !in other
    ensures StartsWith(CacheKey(other, channel), CacheKey(user, "")) <==> user == other
  {
    var key, prefix := CacheKey(other, channel), CacheKey(user, "");
    assert prefix == user + ":" && key == other + ":" + channel;
    if prefix <= key {
      assert forall k :: 0 <= k < |other| ==> key[k] == other[k] && other[k] in other;
      assert forall k :: 0 <= k < |user| ==> prefix[k] == user[k] && user[k] in user;
      assert key[|other|] == ':' && key[|user|] == prefix[|user|] == ':';
      assert |user| == |other|;
      assert user == prefix[..|user|] == key[..|user|] == other;
    }
    if user == other {
      assert key == prefix + channel;
    }
  }
}
