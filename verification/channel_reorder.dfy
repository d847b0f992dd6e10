/** Reordering categories and channels (`reorder_categories`, `reorder_channels`). */
module ChannelReorder {
  import opened Options
  import opened ChannelNames
  import opened ChannelStore

  /** `existing` lists the categories `ORDER BY position`. */
  ghost predicate CategoryListing(s: Server, existing: seq<string>) {
    && (forall n :: n in existing <==> n in s.categories)
    && (forall i, j :: 0 <= i < j < |existing| ==> existing[i] != existing[j])
    && (forall i, j :: 0 <= i < j < |existing| && existing[i] in s.categories && existing[j] in s.categories ==>
          s.categories[existing[i]] <= s.categories[existing[j]])
  }

  function Trimmed(names: seq<string>): seq<string> {
    seq(|names|, i requires 0 <= i < |names| => Trim(names[i]))
  }

  function Visible(caller: Caller, existing: seq<string>): set<string> {
    set n | n in existing && caller.access(n) != Hidden
  }

  /** What the handler checks before it writes: the names are the visible categories, each once. */
  predicate Accepted(caller: Caller, existing: seq<string>, names: seq<string>) {
    && caller.manages
    && names != []
    && |Visible(caller, existing)| == |names|
    && (forall n :: n in Trimmed(names) ==> n != [])
    && (forall i, j :: 0 <= i < j < |names| ==> Trimmed(names)[i] != Trimmed(names)[j])
    && (set n | n in Trimmed(names)) == Visible(caller, existing)
  }

  /**
    The order written: walking `existing`, each visible place takes the next requested name (the
    current one if none is left) and each hidden category keeps its place.
   */
  function Merged(existing: seq<string>, visible: set<string>, requested: seq<string>): (order: seq<string>)
    ensures |order| == |existing|
  {
    if existing == [] then []
    else if existing[0] in visible && requested != [] then
      [requested[0]] + Merged(existing[1..], visible, requested[1..])
    else [existing[0]] + Merged(existing[1..], visible, requested)
  }

  /** The positions after writing `order[i]` at `i` for each `i` below `n`, one update at a time. */
  function Placed(categories: map<string, int>, order: seq<string>, n: nat): map<string, int>
    requires n <= |order|
  {
    if n == 0 then categories
    else
      var before := Placed(categories, order, n - 1);
      if order[n - 1] in before then before[order[n - 1] := n - 1] else before
  }

  ghost function ReorderCategories(s: Server, caller: Caller, names: seq<string>, existing: seq<string>): Outcome<()> {
    if !caller.manages then Refused(s, Forbidden)
    else if !Accepted(caller, existing, names) then Refused(s, Validation)
    else
      var order := Merged(existing, Visible(caller, existing), Trimmed(names));
      Outcome(s.(categories := Placed(s.categories, order, |order|)), Ok(()))
  }

  // ---------- What an accepted order is ----------

  function VisibleOnly(names: seq<string>, visible: set<string>): seq<string> {
    if names == [] then []
    else (if names[0] in visible then [names[0]] else []) + VisibleOnly(names[1..], visible)
  }

  /**
    With as many requested names as visible places, the merged order never falls back: hidden names
    stay at their index, and the names at visible places are exactly the requested ones, in order.
   */
  lemma {:induction false} MergedKeepsPlaces(existing: seq<string>, visible: set<string>, requested: seq<string>)
    requires |VisibleOnly(existing, visible)| == |requested|
    requires forall n :: n in requested ==> n in visible
    ensures var order := Merged(existing, visible, requested);
      && (forall i :: 0 <= i < |existing| && existing[i] !in visible ==> order[i] == existing[i])
      && (forall i :: 0 <= i < |existing| && existing[i] in visible ==> order[i] in visible)
      && VisibleOnly(order, visible) == requested
  {
    if existing != [] {
      var order := Merged(existing, visible, requested);
      if existing[0] in visible {
        MergedKeepsPlaces(existing[1..], visible, requested[1..]);
        assert order[1..] == Merged(existing[1..], visible, requested[1..]);
        assert requested == [requested[0]] + requested[1..];
      } else {
        MergedKeepsPlaces(existing[1..], visible, requested);
        assert order[1..] == Merged(existing[1..], visible, requested);
      }
    }
  }

  lemma {:induction false} VisibleOnlyMember(names: seq<string>, visible: set<string>, i: nat)
    requires i < |names| && names[i] in visible
    ensures names[i] in VisibleOnly(names, visible)
  {
    if i > 0 {
      VisibleOnlyMember(names[1..], visible, i - 1);
    }
  }

  predicate Distinct(names: seq<string>) {
    forall i, j :: 0 <= i < j < |names| ==> names[i] != names[j]
  }

  lemma {:induction false} VisibleOnlyFrom(names: seq<string>, visible: set<string>)
    requires Distinct(names)
    ensures forall n :: n in VisibleOnly(names, visible) ==> n in names && n in visible
    ensures |VisibleOnly(names, visible)| == |set n | n in names && n in visible|
  {
    if names == [] {
      assert (set n | n in names && n in visible) == {};
    } else {
      VisibleOnlyFrom(names[1..], visible);
      var all, rest := set n | n in names && n in visible, set n | n in names[1..] && n in visible;
      assert names[0] !in rest;
      assert all == if names[0] in visible then rest + {names[0]} else rest;
    }
  }

  /** The visible names of the rest, and a visible first name that is not one of them. */
  lemma DistinctTail(order: seq<string>, visible: set<string>)
    requires order != [] && Distinct(VisibleOnly(order, visible))
    ensures Distinct(VisibleOnly(order[1..], visible))
    ensures order[0] in visible ==> order[0] !in VisibleOnly(order[1..], visible)
  {
    var all, tail := VisibleOnly(order, visible), VisibleOnly(order[1..], visible);
    if order[0] in visible {
      assert all == [order[0]] + tail;
      forall i, j | 0 <= i < j < |tail|
        ensures tail[i] != tail[j]
      {
        assert all[i + 1] != all[j + 1];
      }
      forall k | 0 <= k < |tail|
        ensures tail[k] != order[0]
      {
        assert all[0] != all[k + 1];
      }
    } else {
      assert all == tail;
    }
  }

  /** Two equal names in different places would be two equal names among the visible ones. */
  lemma {:induction false} DistinctFromVisible(order: seq<string>, visible: set<string>)
    requires Distinct(VisibleOnly(order, visible))
    requires forall i, j :: 0 <= i < j < |order| && order[i] !in visible ==> order[i] != order[j]
    ensures Distinct(order)
  {
    if order != [] {
      var rest := order[1..];
      DistinctTail(order, visible);
      DistinctFromVisible(rest, visible);
      forall j | 1 <= j < |order|
        ensures order[0] != order[j]
      {
        if order[j] in visible {
          VisibleOnlyMember(rest, visible, j - 1);
        }
      }
      assert order == [order[0]] + rest;
    }
  }

  lemma {:induction false} PlacedEach(categories: map<string, int>, order: seq<string>, n: nat)
    requires n <= |order| && Distinct(order) && forall i :: 0 <= i < |order| ==> order[i] in categories
    ensures Placed(categories, order, n).Keys == categories.Keys
    ensures forall i :: 0 <= i < n ==> Placed(categories, order, n)[order[i]] == i
  {
    if n > 0 {
      PlacedEach(categories, order, n - 1);
    }
  }

  lemma {:induction false} VisibleOnlyIn(order: seq<string>, visible: set<string>, n: string)
    requires n in VisibleOnly(order, visible)
    ensures n in order
  {
    if order[0] != n {
      VisibleOnlyIn(order[1..], visible, n);
    }
  }

  lemma MergedDistinct(existing: seq<string>, visible: set<string>, requested: seq<string>)
    requires Distinct(existing) && Distinct(requested)
    requires |VisibleOnly(existing, visible)| == |requested|
    requires forall n :: n in requested ==> n in visible
    ensures Distinct(Merged(existing, visible, requested))
  {
    var order := Merged(existing, visible, requested);
    MergedKeepsPlaces(existing, visible, requested);
    forall i, j | 0 <= i < j < |order| && order[i] !in visible
      ensures order[i] != order[j]
    {
      assert existing[i] !in visible;
      assert existing[j] in visible ==> order[j] in visible;
    }
    DistinctFromVisible(order, visible);
  }

  lemma MergedCovers(existing: seq<string>, visible: set<string>, requested: seq<string>)
    requires |VisibleOnly(existing, visible)| == |requested|
    requires visible == (set n | n in requested) && forall n :: n in visible ==> n in existing
    ensures forall n :: n in Merged(existing, visible, requested) <==> n in existing
  {
    var order := Merged(existing, visible, requested);
    MergedKeepsPlaces(existing, visible, requested);
    forall n | n in existing
      ensures n in order
    {
      var i :| 0 <= i < |existing| && existing[i] == n;
      if n in visible {
        assert n in requested;
        VisibleOnlyIn(order, visible, n);
      } else {
        assert order[i] == n;
      }
    }
    forall n | n in order
      ensures n in existing
    {
      var i :| 0 <= i < |order| && order[i] == n;
      assert existing[i] in existing;
      assert existing[i] in visible ==> order[i] in visible;
    }
  }

  lemma VisibleCount(existing: seq<string>, visible: set<string>)
    requires Distinct(existing) && forall n :: n in visible ==> n in existing
    ensures |VisibleOnly(existing, visible)| == |visible|
  {
    VisibleOnlyFrom(existing, visible);
    var listed := set n | n in existing && n in visible;
    assert forall n :: n in listed <==> n in visible;
    assert listed == visible;
  }

  /** The order written is made of the listed categories, each once. */
  lemma MergedOrder(existing: seq<string>, visible: set<string>, requested: seq<string>)
    requires Distinct(existing) && Distinct(requested) && |visible| == |requested|
    requires visible == (set n | n in requested) && forall n :: n in visible ==> n in existing
    ensures var order := Merged(existing, visible, requested);
      && Distinct(order)
      && (forall n :: n in order <==> n in existing)
      && (forall i :: 0 <= i < |existing| && existing[i] !in visible ==> order[i] == existing[i])
      && VisibleOnly(order, visible) == requested
  {
    VisibleCount(existing, visible);
    MergedKeepsPlaces(existing, visible, requested);
    MergedDistinct(existing, visible, requested);
    MergedCovers(existing, visible, requested);
  }

  /**
    An accepted reorder gives every category its own position from 0 to n - 1, leaves every hidden
    category at its index, and puts the visible ones in exactly the requested order.
   */
  lemma AcceptedReorder(s: Server, caller: Caller, names: seq<string>, existing: seq<string>)
    requires CategoryListing(s, existing) && Accepted(caller, existing, names)
    ensures ReorderCategories(s, caller, names, existing).result == Ok(())
    ensures var order := Merged(existing, Visible(caller, existing), Trimmed(names));
      var after := ReorderCategories(s, caller, names, existing).after.categories;
      && Distinct(order)
      && (forall n :: n in order <==> n in s.categories)
      && after.Keys == s.categories.Keys
      && (forall i :: 0 <= i < |order| ==> after[order[i]] == i)
      && (forall i :: 0 <= i < |existing| && existing[i] !in Visible(caller, existing) ==> order[i] == existing[i])
      && VisibleOnly(order, Visible(caller, existing)) == Trimmed(names)
  {
    var order := Merged(existing, Visible(caller, existing), Trimmed(names));
    MergedOrder(existing, Visible(caller, existing), Trimmed(names));
    assert forall i :: 0 <= i < |order| ==> order[i] in order;
    PlacedEach(s.categories, order, |order|);
  }

  // ---------- Channels ----------

  function Group(c: Channel): string {
    if c.category.Some? then c.category.value else "General"
  }

  /** How many of the first `n` ids are channels of the group. */
  function CountIn(channels: map<ChannelId, Channel>, ids: seq<ChannelId>, n: nat, group: string): nat
    requires n <= |ids|
  {
    if n == 0 then 0
    else
      CountIn(channels, ids, n - 1, group)
      + if ids[n - 1] in channels && Group(channels[ids[n - 1]]) == group then 1 else 0
  }

  /** The channels after the first `n` position updates; an id given twice keeps the later one. */
  function Ranked(channels: map<ChannelId, Channel>, ids: seq<ChannelId>, n: nat): map<ChannelId, Channel>
    requires n <= |ids|
  {
    if n == 0 then channels
    else
      var before, id := Ranked(channels, ids, n - 1), ids[n - 1];
      if id in before && id in channels then
        before[id := before[id].(position := CountIn(channels, ids, n - 1, Group(channels[id])))]
      else before
  }

  function ReorderChannels(s: Server, caller: Caller, ids: seq<ChannelId>): Outcome<()> {
    if !caller.manages then Refused(s, Forbidden)
    else if ids == [] || |ids| != |s.channels| || (exists id :: id in ids && id !in s.channels) then
      Refused(s, Validation)
    else Outcome(s.(channels := Ranked(s.channels, ids, |ids|)), Ok(()))
  }

  lemma {:induction false} RankedKeepsRest(channels: map<ChannelId, Channel>, ids: seq<ChannelId>, n: nat)
    requires n <= |ids|
    ensures Ranked(channels, ids, n).Keys == channels.Keys
    ensures forall id :: id in channels ==>
      Ranked(channels, ids, n)[id] == channels[id].(position := Ranked(channels, ids, n)[id].position)
  {
    if n > 0 {
      RankedKeepsRest(channels, ids, n - 1);
    }
  }
}
