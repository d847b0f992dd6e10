/**
  What every handler keeps, and what no one but the owner can change: the override rows that apply
  to a channel, over whole runs of channel and category operations.
 */
module ChannelSafety {
  import opened Options
  import opened ChannelNames
  import opened Positions
  import opened ChannelStore
  import opened ChannelReorder

  /** Category names are trimmed, not empty and unique up to case. */
  ghost predicate NamesOk(alphabet: Alphabet, categories: map<string, int>) {
    && (forall a, b {:trigger Lower(alphabet, a), Lower(alphabet, b)} ::
          a in categories && b in categories && Lower(alphabet, a) == Lower(alphabet, b) ==> a == b)
    && (forall n {:trigger Trim(n)} :: n in categories ==> Trim(n) == n)
    && [] !in categories
  }

  /** Every override and every channel names an existing category. */
  ghost predicate RefsOk(s: Server) {
    && s.overrides.Keys <= s.categories.Keys
    && (forall id :: id in s.channels && s.channels[id].category.Some? ==>
          s.channels[id].category.value in s.categories)
  }

  /** Channels differ in the key of the unique index. */
  ghost predicate IndexOk(alphabet: Alphabet, channels: map<ChannelId, Channel>) {
    forall a, b {:trigger IndexKey(alphabet, channels[a]), IndexKey(alphabet, channels[b])} ::
      a in channels && b in channels && a != b ==> IndexKey(alphabet, channels[a]) != IndexKey(alphabet, channels[b])
  }

  ghost predicate Inv(s: Server) {
    NamesOk(s.alphabet, s.categories) && RefsOk(s) && IndexOk(s.alphabet, s.channels)
  }

  /** Every channel of both states has the same override rows in both. */
  ghost predicate KeepsRows(s: Server, t: Server) {
    && t.owner == s.owner
    && forall id {:trigger s.channels[id], t.channels[id]} :: id in s.channels && id in t.channels ==>
         Rows(t, t.channels[id].category) == Rows(s, s.channels[id].category)
  }

  /** What each call keeps: always the invariant, and the rows too if `strict`. */
  ghost predicate Keeps(s: Server, t: Server, strict: bool) {
    Inv(t) && t.owner == s.owner && (strict ==> KeepsRows(s, t))
  }

  /** The categories that channels name without a row of their own: what the backfill would add. */
  function Missing(s: Server): set<string> {
    set id | id in s.channels && s.channels[id].category.Some? && Trim(s.channels[id].category.value) != []
             && s.channels[id].category.value !in s.categories :: s.channels[id].category.value
  }

  // ---------- Lookups under the invariant ----------

  lemma CanonicalOfExisting(s: Server, name: string)
    requires NamesOk(s.alphabet, s.categories) && name in s.categories
    ensures Canonical(s, name) == Some(name)
  {
    assert Lower(s.alphabet, name) == Lower(s.alphabet, name);
  }

  /** For the category of a channel, the resolved rows are the rows that apply. */
  lemma RowsOfExisting(s: Server, category: Option<string>)
    requires NamesOk(s.alphabet, s.categories) && (category.Some? ==> category.value in s.categories)
    ensures OverrideRows(s, category) == Rows(s, category) && NonBlank(category) == category
  {
    if category.Some? {
      CanonicalOfExisting(s, category.value);
    }
  }

  /** An ensured category: nothing but its row is new, and its rows are those its name resolved to. */
  ghost predicate Ensured(s: Server, asked: string, o: Outcome<string>) {
    && Inv(o.after)
    && o.after == s.(categories := o.after.categories)
    && s.categories.Keys <= o.after.categories.Keys
    && (o.result.Ok? ==>
          && o.result.value in o.after.categories
          && Rows(s, Some(o.result.value)) == OverrideRows(s, Some(asked))
          && Lower(s.alphabet, o.result.value) == Lower(s.alphabet, Trim(asked)))
  }

  lemma NamesAdd(alphabet: Alphabet, categories: map<string, int>, name: string, position: int)
    requires NamesOk(alphabet, categories) && Trim(name) == name && name != []
    requires forall n :: n in categories ==> Lower(alphabet, n) != Lower(alphabet, name)
    ensures NamesOk(alphabet, categories[name := position])
  {
    var after := categories[name := position];
    forall n | n in after
      ensures Trim(n) == n
    {
      assert n in categories || n == name;
    }
  }

  lemma EnsureKeeps(s: Server, asked: string)
    requires Inv(s)
    ensures Ensured(s, asked, EnsureCategory(s, asked))
  {
    TrimTwice(asked);
    var name := Trim(asked);
    if Canonical(s, name).None? && ValidName(s.alphabet, name) {
      forall n | n in s.categories
        ensures Lower(s.alphabet, n) != Lower(s.alphabet, name)
      {
      }
      NamesAdd(s.alphabet, s.categories, name, NextPosition(s.categories.Values));
    }
  }

  // ---------- Channels ----------

  lemma IndexPut(alphabet: Alphabet, channels: map<ChannelId, Channel>, id: ChannelId, c: Channel)
    requires IndexOk(alphabet, channels) && !Clashes(alphabet, channels, c, Some(id))
    ensures IndexOk(alphabet, channels[id := c])
  {
  }

  lemma PutKeeps(s: Server, id: ChannelId, channel: Channel)
    requires Inv(s) && id !in s.channels && !Clashes(s.alphabet, s.channels, channel, None)
    requires channel.category.Some? && channel.category.value in s.categories
    ensures Keeps(s, s.(channels := s.channels[id := channel]), true)
  {
    assert !Clashes(s.alphabet, s.channels, channel, Some(id));
    IndexPut(s.alphabet, s.channels, id, channel);
  }

  lemma InsertKeeps(s: Server, asked: string, o: Outcome<string>, id: ChannelId, channel: Channel)
    requires Inv(s) && Ensured(s, asked, o) && id !in s.channels
    ensures Keeps(s, Insert(o, id, channel).after, true)
  {
    if o.result.Ok? {
      var place := Some(o.result.value);
      var placed := channel.(category := place, position := NextPosition(PositionsIn(o.after, place)));
      if !Clashes(o.after.alphabet, o.after.channels, placed, None) {
        PutKeeps(o.after, id, placed);
      }
    }
  }

  lemma CreateChannelKeeps(
      s: Server, caller: Caller, id: ChannelId, name: string, kind: Kind, category: Option<string>,
      description: Option<string>)
    requires Inv(s) && id !in s.channels
    ensures Keeps(s, CreateChannel(s, caller, id, name, kind, category, description).after, true)
  {
    var wanted, channel := CreateCases(s, caller, id, name, kind, category, description);
    EnsureKeeps(s, wanted);
    InsertKeeps(s, wanted, EnsureCategory(s, wanted), id, channel);
    assert Keeps(s, s, true);
  }

  /** A creation is refused before it writes, or inserts into an ensured category. */
  lemma CreateCases(
      s: Server, caller: Caller, id: ChannelId, name: string, kind: Kind, category: Option<string>,
      description: Option<string>) returns (wanted: string, channel: Channel)
    ensures var t := CreateChannel(s, caller, id, name, kind, category, description).after;
      t == s || t == Insert(EnsureCategory(s, wanted), id, channel).after
  {
    wanted := if NonBlank(category).Some? then NonBlank(category).value else "General";
    var text := if Describe(description).Ok? then Describe(description).value else None;
    channel := Channel(Trim(name), text, kind, None, 0);
  }

  lemma DeleteChannelKeeps(s: Server, caller: Caller, id: ChannelId)
    requires Inv(s)
    ensures Keeps(s, DeleteChannel(s, caller, id).after, true)
  {
  }

  lemma RewriteKeeps(s: Server, id: ChannelId, channel: Channel)
    requires Inv(s) && id in s.channels && (channel.category.Some? ==> channel.category.value in s.categories)
    ensures Keeps(s, Rewrite(s, id, channel).after, Rows(s, channel.category) == Rows(s, s.channels[id].category))
  {
    if !Clashes(s.alphabet, s.channels, channel, Some(id)) {
      IndexPut(s.alphabet, s.channels, id, channel);
    }
  }

  lemma RewriteInKeeps(s: Server, asked: string, o: Outcome<string>, id: ChannelId, channel: Channel)
    requires Inv(s) && Ensured(s, asked, o) && id in s.channels
    ensures Keeps(s, RewriteIn(o, id, channel).after,
                  OverrideRows(s, Some(asked)) == Rows(s, s.channels[id].category))
  {
    if o.result.Ok? {
      RewriteKeeps(o.after, id, channel.(category := Some(o.result.value)));
    }
  }

  /** A rename is refused before it writes, or passed the move check and rewrites the channel. */
  lemma RenameCases(
      s: Server, caller: Caller, id: ChannelId, name: string, description: Option<string>,
      category: Option<string>) returns (renamed: Channel)
    requires id in s.channels
    ensures renamed.category == s.channels[id].category && renamed.kind == s.channels[id].kind
    ensures var t := RenameChannel(s, caller, id, name, description, category).after;
      var next := if NonBlank(category).Some? then NonBlank(category) else s.channels[id].category;
      || t == s
      || (MoveAllowed(s, caller, s.channels[id].category, next) &&
          t == if next.None? then Rewrite(s, id, renamed).after
               else RewriteIn(EnsureCategory(s, next.value), id, renamed).after)
  {
    renamed := s.channels[id].(name := Trim(name));
    if Describe(description).Ok? {
      renamed := renamed.(description := Describe(description).value);
    }
  }

  lemma RenameChannelKeeps(
      s: Server, caller: Caller, id: ChannelId, name: string, description: Option<string>,
      category: Option<string>)
    requires Inv(s)
    ensures Keeps(s, RenameChannel(s, caller, id, name, description, category).after, caller.id != s.owner)
  {
    assert Keeps(s, s, true);
    if id in s.channels {
      var renamed := RenameCases(s, caller, id, name, description, category);
      var from := s.channels[id].category;
      var next := if NonBlank(category).Some? then NonBlank(category) else from;
      RowsOfExisting(s, from);
      NonBlankTwice(category);
      if next.None? {
        RewriteKeeps(s, id, renamed);
      } else {
        EnsureKeeps(s, next.value);
        RewriteInKeeps(s, next.value, EnsureCategory(s, next.value), id, renamed);
      }
    }
  }

  lemma NonBlankTwice(name: Option<string>)
    ensures NonBlank(NonBlank(name)) == NonBlank(name)
  {
    if name.Some? {
      TrimTwice(name.value);
    }
  }

  // ---------- Categories ----------

  lemma {:induction false} MovedEach(
      channels: map<ChannelId, Channel>, moving: seq<ChannelId>, target: string, first: int)
    requires forall i, j :: 0 <= i < j < |moving| ==> moving[i] != moving[j]
    ensures var after := Moved(channels, moving, target, first);
      && after.Keys == channels.Keys
      && (forall id :: id in channels && id !in moving ==> after[id] == channels[id])
      && forall i :: 0 <= i < |moving| && moving[i] in channels ==>
           after[moving[i]] == channels[moving[i]].(category := Some(target), position := first + i)
  {
    if moving != [] {
      MovedEach(channels, moving[..|moving| - 1], target, first);
    }
  }

  /** Each channel after the move: moved ones are in the target, the others as they were. */
  lemma MovedChannel(
      channels: map<ChannelId, Channel>, moving: seq<ChannelId>, target: string, first: int, id: ChannelId)
    requires forall i, j :: 0 <= i < j < |moving| ==> moving[i] != moving[j]
    ensures Moved(channels, moving, target, first).Keys == channels.Keys
    ensures id in channels ==>
      var c := Moved(channels, moving, target, first)[id];
      && c.category == (if id in moving then Some(target) else channels[id].category)
      && c.kind == channels[id].kind && c.name == channels[id].name
  {
    MovedEach(channels, moving, target, first);
    if id in moving {
      var i :| 0 <= i < |moving| && moving[i] == id;
    }
  }

  lemma MovedIndex(
      alphabet: Alphabet, channels: map<ChannelId, Channel>, moving: seq<ChannelId>, category: string,
      target: string, first: int)
    requires IndexOk(alphabet, channels) && !MoveClashes(alphabet, channels, moving, target)
    requires forall i, j :: 0 <= i < j < |moving| ==> moving[i] != moving[j]
    requires forall id :: id in moving && id in channels ==> channels[id].category == Some(category)
    ensures IndexOk(alphabet, Moved(channels, moving, target, first))
  {
    var after := Moved(channels, moving, target, first);
    MovedChannel(channels, moving, target, first, 0);
    forall a, b | a in after && b in after && a != b
      ensures IndexKey(alphabet, after[a]) != IndexKey(alphabet, after[b])
    {
      MovedChannel(channels, moving, target, first, a);
      MovedChannel(channels, moving, target, first, b);
      assert IndexKey(alphabet, channels[a]) != IndexKey(alphabet, channels[b]);
      if a in moving && b !in moving {
        assert !Clashes(alphabet, channels, channels[a].(category := Some(target)), Some(a));
      } else if b in moving && a !in moving {
        assert !Clashes(alphabet, channels, channels[b].(category := Some(target)), Some(b));
      }
    }
  }

  lemma DroppedKeeps(s: Server, t: Server, next: Server, category: string, target: string)
    requires Inv(s) && Inv(t) && t == s.(categories := t.categories) && target in t.categories
    requires s.categories.Keys <= t.categories.Keys && target != category
    requires next == DropCategory(t.(channels := next.channels), category)
    requires IndexOk(s.alphabet, next.channels)
    requires next.channels.Keys <= s.channels.Keys
    requires forall id :: id in next.channels ==>
      next.channels[id].category ==
        if s.channels[id].category == Some(category) then Some(target) else s.channels[id].category
    ensures Keeps(s, next, Rows(s, Some(target)) == Rows(s, Some(category)))
  {
    assert forall n :: n in next.categories <==> n in t.categories && n != category;
  }

  /** Moving the listed channels of a category away, then dropping it. */
  lemma MoveOutKeeps(s: Server, asked: string, o: Outcome<string>, category: string, moving: seq<ChannelId>)
    requires Inv(s) && Ensured(s, asked, o) && Listing(s, category, moving)
    requires Lower(s.alphabet, Trim(asked)) != Lower(s.alphabet, category)
    ensures Keeps(s, MoveOut(o, category, moving).after,
                  OverrideRows(s, Some(asked)) == Rows(s, Some(category)))
  {
    if o.result.Ok? && !MoveClashes(o.after.alphabet, o.after.channels, moving, o.result.value) {
      var t, target := o.after, o.result.value;
      var first := NextPosition(PositionsIn(t, Some(target)));
      MovedIndex(t.alphabet, t.channels, moving, category, target, first);
      var moved := Moved(t.channels, moving, target, first);
      forall id | id in moved
        ensures id in s.channels
        ensures moved[id].category ==
          if s.channels[id].category == Some(category) then Some(target) else s.channels[id].category
      {
        MovedChannel(t.channels, moving, target, first, id);
      }
      DroppedKeeps(s, t, DropCategory(t.(channels := moved), category), category, target);
    }
  }

  lemma DropEmptyKeeps(s: Server, category: string)
    requires Inv(s) && Listing(s, category, [])
    ensures Keeps(s, DropCategory(s, category), true)
  {
    forall id | id in s.channels
      ensures s.channels[id].category != Some(category)
    {
      assert id !in [];
    }
  }

  lemma GeneralTrimmed()
    ensures Trim("General") == "General" && "General" != []
  {
  }

  lemma MoveTargetTrimmed(s: Server, category: string, moveTo: Option<string>, other: Option<string>)
    requires NamesOk(s.alphabet, s.categories) && Alternative(s, category, other)
    requires MoveTarget(category, moveTo, other).Some?
    ensures var target := MoveTarget(category, moveTo, other).value; Trim(target) == target && target != []
  {
    if moveTo.Some? {
      TrimTwice(moveTo.value);
    }
    GeneralTrimmed();
  }

  /**
    The channels would be moved to the category itself: the target differs from its name as ASCII goes,
    so the handler takes it, but the database lowers both to the same name.
   */
  predicate MovesIntoItself(
      s: Server, category: string, moveTo: Option<string>, moving: seq<ChannelId>, other: Option<string>) {
    && moving != [] && MoveTarget(category, moveTo, other).Some?
    && Lower(s.alphabet, MoveTarget(category, moveTo, other).value) == Lower(s.alphabet, category)
  }

  /** A deletion is refused before it writes, drops an empty category, or moves its channels out. */
  lemma DeleteCases(
      s: Server, caller: Caller, raw: string, moveTo: Option<string>, moving: seq<ChannelId>,
      other: Option<string>)
    ensures var t := DeleteCategory(s, caller, raw, moveTo, moving, other).after;
      var category, target := Trim(raw), MoveTarget(Trim(raw), moveTo, other);
      || t == s
      || (moving == [] && t == DropCategory(s, category))
      || (moving != [] && target.Some? && MoveAllowed(s, caller, Some(category), target) &&
          t == MoveOut(EnsureCategory(s, target.value), category, moving).after)
  {
  }

  /** A deletion that does not move channels into the category itself. */
  lemma DeleteCategoryKeeps(
      s: Server, caller: Caller, raw: string, moveTo: Option<string>, moving: seq<ChannelId>,
      other: Option<string>)
    requires Inv(s) && Listing(s, Trim(raw), moving) && Alternative(s, Trim(raw), other)
    requires !MovesIntoItself(s, Trim(raw), moveTo, moving, other)
    ensures Keeps(s, DeleteCategory(s, caller, raw, moveTo, moving, other).after, caller.id != s.owner)
  {
    var category := Trim(raw);
    var target := MoveTarget(category, moveTo, other);
    DeleteCases(s, caller, raw, moveTo, moving, other);
    assert Keeps(s, s, true);
    if moving == [] {
      DropEmptyKeeps(s, category);
    } else if target.Some? {
      assert moving[0] in moving;
      RowsOfExisting(s, Some(category));
      MoveTargetTrimmed(s, category, moveTo, other);
      EnsureKeeps(s, target.value);
      MoveOutKeeps(s, target.value, EnsureCategory(s, target.value), category, moving);
    }
  }

  // ---------- Channels moved into the category that goes ----------

  /** The category exists, so it is what the target resolves to. */
  lemma IntoItselfEnsured(
      s: Server, category: string, moveTo: Option<string>, moving: seq<ChannelId>, other: Option<string>)
    requires Inv(s) && Listing(s, category, moving) && Alternative(s, category, other)
    requires MovesIntoItself(s, category, moveTo, moving, other)
    ensures var o := EnsureCategory(s, MoveTarget(category, moveTo, other).value);
      category in s.categories && o.after == s && (o.result.Ok? ==> o.result.value == category)
  {
    assert moving[0] in moving;
    MoveTargetTrimmed(s, category, moveTo, other);
    var target := MoveTarget(category, moveTo, other).value;
    assert Lower(s.alphabet, category) == Lower(s.alphabet, target);
    EnsureKeeps(s, target);
  }

  /** Every channel keeps its category, and the rows of the dropped one are gone. */
  lemma MoveOutLoses(s: Server, category: string, moving: seq<ChannelId>, id: ChannelId)
    requires Inv(s) && Listing(s, category, moving)
    requires MoveOut(Outcome(s, Ok(category)), category, moving).result.Ok?
    ensures var t := MoveOut(Outcome(s, Ok(category)), category, moving).after;
      && t.owner == s.owner && t.channels.Keys == s.channels.Keys && category !in t.categories
      && (id in s.channels ==>
            && t.channels[id].category == s.channels[id].category
            && Rows(t, t.channels[id].category) ==
                 if s.channels[id].category == Some(category) then map[] else Rows(s, s.channels[id].category))
  {
    MovedChannel(s.channels, moving, category, NextPosition(PositionsIn(s, Some(category))), id);
  }

  lemma IntoItselfAfter(
      s: Server, caller: Caller, raw: string, moveTo: Option<string>, moving: seq<ChannelId>,
      other: Option<string>)
    requires Inv(s) && Listing(s, Trim(raw), moving) && Alternative(s, Trim(raw), other)
    requires MovesIntoItself(s, Trim(raw), moveTo, moving, other)
    requires DeleteCategory(s, caller, raw, moveTo, moving, other).result.Ok?
    ensures var o := MoveOut(Outcome(s, Ok(Trim(raw))), Trim(raw), moving);
      o.result.Ok? && DeleteCategory(s, caller, raw, moveTo, moving, other).after == o.after
  {
    IntoItselfEnsured(s, Trim(raw), moveTo, moving, other);
  }

  /** What an accepted deletion of this kind leaves: its channels name no category and have no rows. */
  lemma IntoItselfLoses(
      s: Server, caller: Caller, raw: string, moveTo: Option<string>, moving: seq<ChannelId>,
      other: Option<string>, id: ChannelId)
    requires Inv(s) && Listing(s, Trim(raw), moving) && Alternative(s, Trim(raw), other) && id in moving
    requires MovesIntoItself(s, Trim(raw), moveTo, moving, other)
    requires DeleteCategory(s, caller, raw, moveTo, moving, other).result.Ok?
    ensures var t := DeleteCategory(s, caller, raw, moveTo, moving, other).after;
      && id in t.channels && t.channels[id].category == Some(Trim(raw))
      && Trim(raw) !in t.categories && Rows(t, t.channels[id].category) == map[]
  {
    IntoItselfAfter(s, caller, raw, moveTo, moving, other);
    MoveOutLoses(s, Trim(raw), moving, id);
  }

  /** What else the deletion asks for: the caller manages channels and the category, and the name is valid. */
  ghost predicate Deletable(
      s: Server, caller: Caller, category: string, moveTo: Option<string>, other: Option<string>) {
    && caller.manages && caller.access(category) == Manageable
    && MoveTarget(category, moveTo, other).Some?
    && ValidName(s.alphabet, MoveTarget(category, moveTo, other).value)
  }

  /** The target resolves to the category, so it has the same access and the same rows. */
  lemma IntoItselfResolved(
      s: Server, caller: Caller, category: string, moveTo: Option<string>, moving: seq<ChannelId>,
      other: Option<string>)
    requires Inv(s) && Listing(s, category, moving) && Alternative(s, category, other)
    requires MovesIntoItself(s, category, moveTo, moving, other)
    ensures var target := MoveTarget(category, moveTo, other).value;
      && category in s.categories && category != [] && Trim(category) == category && Trim(target) == target
      && Manage(s, caller, target) == Manage(s, caller, category)
      && MoveAllowed(s, caller, Some(category), Some(target))
      && (Manage(s, caller, category).None? <==> caller.access(category) == Manageable)
  {
    assert moving[0] in moving;
    MoveTargetTrimmed(s, category, moveTo, other);
    var target := MoveTarget(category, moveTo, other).value;
    assert Lower(s.alphabet, category) == Lower(s.alphabet, target);
    CanonicalOfExisting(s, category);
  }

  /** Moving channels to where they are meets no unique index. */
  lemma IntoItselfClashFree(s: Server, category: string, moving: seq<ChannelId>)
    requires IndexOk(s.alphabet, s.channels) && Listing(s, category, moving)
    ensures !MoveClashes(s.alphabet, s.channels, moving, category)
  {
    forall id | id in moving
      ensures id in s.channels
      ensures !Clashes(s.alphabet, s.channels, s.channels[id].(category := Some(category)), Some(id))
    {
      assert s.channels[id].(category := Some(category)) == s.channels[id];
    }
  }

  /** Such a deletion goes through exactly if its caller may manage the category and the target is a name. */
  lemma IntoItselfAccepted(
      s: Server, caller: Caller, raw: string, moveTo: Option<string>, moving: seq<ChannelId>,
      other: Option<string>)
    requires Inv(s) && Listing(s, Trim(raw), moving) && Alternative(s, Trim(raw), other)
    requires MovesIntoItself(s, Trim(raw), moveTo, moving, other)
    ensures var o := DeleteCategory(s, caller, raw, moveTo, moving, other);
      && (o.result.Ok? <==> Deletable(s, caller, Trim(raw), moveTo, other))
      && (o.result.Err? ==> o.after == s)
  {
    var category, target := Trim(raw), MoveTarget(Trim(raw), moveTo, other).value;
    IntoItselfResolved(s, caller, category, moveTo, moving, other);
    IntoItselfEnsured(s, category, moveTo, moving, other);
    IntoItselfClashFree(s, category, moving);
  }

  /**
    A deletion keeps the invariant exactly unless it may move channels into the category itself; with a
    refusal, or any other target, nothing is lost.
   */
  lemma DeletionKeepsExactly(
      s: Server, caller: Caller, raw: string, moveTo: Option<string>, moving: seq<ChannelId>,
      other: Option<string>)
    requires Inv(s) && Listing(s, Trim(raw), moving) && Alternative(s, Trim(raw), other)
    ensures Inv(DeleteCategory(s, caller, raw, moveTo, moving, other).after) <==>
      !(MovesIntoItself(s, Trim(raw), moveTo, moving, other) && Deletable(s, caller, Trim(raw), moveTo, other))
  {
    if !MovesIntoItself(s, Trim(raw), moveTo, moving, other) {
      DeleteCategoryKeeps(s, caller, raw, moveTo, moving, other);
    } else {
      IntoItselfAccepted(s, caller, raw, moveTo, moving, other);
      if Deletable(s, caller, Trim(raw), moveTo, other) {
        IntoItselfLoses(s, caller, raw, moveTo, moving, other, moving[0]);
      }
    }
  }

  predicate IsAscii(s: string) {
    forall i :: 0 <= i < |s| ==> (s[i] as int) < 128
  }

  /** The database lowers ASCII letters as ASCII goes. */
  ghost predicate LowersAscii(a: Alphabet) {
    forall c: char :: (c as int) < 128 ==> a.lower(c) == LowerAscii(c)
  }

  lemma {:induction false} LowerIsAscii(a: Alphabet, s: string)
    requires IsAscii(s) && LowersAscii(a)
    ensures Lower(a, s) == FoldAscii(s)
  {
    if s != [] {
      assert forall i :: 0 <= i < |s[1..]| ==> s[1..][i] == s[i + 1];
      LowerIsAscii(a, s[1..]);
    }
  }

  /** Between ASCII names, lowered as ASCII goes, no deletion moves channels into the category itself. */
  lemma AsciiMovesElsewhere(
      s: Server, category: string, moveTo: Option<string>, moving: seq<ChannelId>, other: Option<string>)
    requires LowersAscii(s.alphabet) && Alternative(s, category, other)
    requires IsAscii(category) && (NonBlank(moveTo).Some? ==> IsAscii(NonBlank(moveTo).value))
    ensures !MovesIntoItself(s, category, moveTo, moving, other)
  {
    var target := MoveTarget(category, moveTo, other);
    LowerIsAscii(s.alphabet, category);
    LowerIsAscii(s.alphabet, "General");
    if NonBlank(moveTo).Some? {
      LowerIsAscii(s.alphabet, NonBlank(moveTo).value);
    }
  }

  lemma RenamedNames(
      alphabet: Alphabet, categories: map<string, int>, oldName: string, newName: string, position: int)
    requires NamesOk(alphabet, categories) && oldName in categories && Trim(newName) == newName && newName != []
    requires forall n :: n in categories && Lower(alphabet, n) == Lower(alphabet, newName) ==> n == oldName
    ensures NamesOk(alphabet, (categories - {oldName})[newName := position])
  {
    NamesAdd(alphabet, categories - {oldName}, newName, position);
  }

  lemma RenamedIndex(s: Server, oldName: string, newName: string)
    requires Inv(s) && oldName in s.categories && newName != []
    requires forall n :: n in s.categories && Lower(s.alphabet, n) == Lower(s.alphabet, newName) ==> n == oldName
    ensures IndexOk(s.alphabet, Renamed(s, oldName, newName).channels)
  {
    var after := Renamed(s, oldName, newName).channels;
    forall a, b | a in after && b in after && a != b
      ensures IndexKey(s.alphabet, after[a]) != IndexKey(s.alphabet, after[b])
    {
      assert IndexKey(s.alphabet, s.channels[a]) != IndexKey(s.alphabet, s.channels[b]);
    }
  }

  lemma RenameCategoryKeeps(s: Server, caller: Caller, raw: string, rawNew: string)
    requires Inv(s)
    ensures Keeps(s, RenameCategory(s, caller, raw, rawNew).after, true)
  {
    TrimTwice(rawNew);
    var t := RenameCategory(s, caller, raw, rawNew).after;
    if t != s {
      RenamedNames(s.alphabet, s.categories, Trim(raw), Trim(rawNew), s.categories[Trim(raw)]);
      RenamedIndex(s, Trim(raw), Trim(rawNew));
      RenamedRows(s, Trim(raw), Trim(rawNew));
    }
  }

  lemma RenamedRows(s: Server, oldName: string, newName: string)
    requires Inv(s) && oldName in s.categories
    requires newName in s.categories ==> newName == oldName
    ensures KeepsRows(s, Renamed(s, oldName, newName)) && RefsOk(Renamed(s, oldName, newName))
  {
  }

  lemma CreateCategoryKeeps(s: Server, caller: Caller, name: string)
    requires Inv(s)
    ensures Keeps(s, CreateCategory(s, caller, name).after, true)
  {
    EnsureKeeps(s, Trim(name));
  }

  lemma SetOverrideKeeps(s: Server, caller: Caller, raw: string, role: RoleId, bits: Bits, bitsOk: bool)
    requires Inv(s)
    ensures Keeps(s, SetOverride(s, caller, raw, role, bits, bitsOk).after, caller.id != s.owner)
  {
    EnsureKeeps(s, Trim(raw));
  }

  lemma DropOverrideKeeps(s: Server, caller: Caller, raw: string, role: RoleId)
    requires Inv(s)
    ensures Keeps(s, DropOverride(s, caller, raw, role).after, caller.id != s.owner)
  {
  }

  lemma ReorderCategoriesKeeps(s: Server, caller: Caller, names: seq<string>, existing: seq<string>)
    requires Inv(s) && CategoryListing(s, existing)
    ensures Keeps(s, ReorderCategories(s, caller, names, existing).after, true)
  {
    if Accepted(caller, existing, names) {
      AcceptedReorder(s, caller, names, existing);
      var after := ReorderCategories(s, caller, names, existing).after;
      ReorderedKeeps(s, after);
    }
  }

  lemma ReorderedKeeps(s: Server, t: Server)
    requires Inv(s) && t == s.(categories := t.categories) && t.categories.Keys == s.categories.Keys
    ensures Keeps(s, t, true)
  {
    SameNames(s.alphabet, s.categories, t.categories);
  }

  lemma SameNames(alphabet: Alphabet, before: map<string, int>, after: map<string, int>)
    requires NamesOk(alphabet, before) && before.Keys == after.Keys
    ensures NamesOk(alphabet, after)
  {
    assert forall n :: n in after ==> n in before;
  }

  lemma ReorderChannelsKeeps(s: Server, caller: Caller, ids: seq<ChannelId>)
    requires Inv(s)
    ensures Keeps(s, ReorderChannels(s, caller, ids).after, true)
  {
    RankedKeepsRest(s.channels, ids, |ids|);
    SameIndex(s.alphabet, s.channels, Ranked(s.channels, ids, |ids|));
  }

  lemma SameIndex(alphabet: Alphabet, before: map<ChannelId, Channel>, after: map<ChannelId, Channel>)
    requires IndexOk(alphabet, before) && before.Keys == after.Keys
    requires forall id :: id in before ==> after[id] == before[id].(position := after[id].position)
    ensures IndexOk(alphabet, after)
  {
    forall a, b | a in after && b in after && a != b
      ensures IndexKey(alphabet, after[a]) != IndexKey(alphabet, after[b])
    {
      assert IndexKey(alphabet, before[a]) != IndexKey(alphabet, before[b]);
    }
  }

  // ---------- Runs ----------

  /** A handler call. Where a query orders rows, the call carries the order the database answered. */
  datatype Call =
    | CreateChannelCall(id: ChannelId, name: string, kind: Kind, category: Option<string>, description: Option<string>)
    | DeleteChannelCall(id: ChannelId)
    | RenameChannelCall(id: ChannelId, name: string, description: Option<string>, category: Option<string>)
    | CreateCategoryCall(name: string)
    | DeleteCategoryCall(raw: string, moveTo: Option<string>, moving: seq<ChannelId>, other: Option<string>)
    | RenameCategoryCall(raw: string, rawNew: string)
    | SetOverrideCall(raw: string, role: RoleId, bits: Bits, bitsOk: bool)
    | DropOverrideCall(raw: string, role: RoleId)
    | ReorderCategoriesCall(names: seq<string>, existing: seq<string>)
    | ReorderChannelsCall(ids: seq<ChannelId>)

  ghost predicate Possible(s: Server, c: Call) {
    match c
    case CreateChannelCall(id, _, _, _, _) => id !in s.channels
    case DeleteCategoryCall(raw, _, moving, other) =>
      Listing(s, Trim(raw), moving) && Alternative(s, Trim(raw), other)
    case ReorderCategoriesCall(_, existing) => CategoryListing(s, existing)
    case _ => true
  }

  ghost function After(s: Server, caller: Caller, c: Call): Server {
    match c
    case CreateChannelCall(id, name, kind, category, description) =>
      CreateChannel(s, caller, id, name, kind, category, description).after
    case DeleteChannelCall(id) => DeleteChannel(s, caller, id).after
    case RenameChannelCall(id, name, description, category) =>
      RenameChannel(s, caller, id, name, description, category).after
    case CreateCategoryCall(name) => CreateCategory(s, caller, name).after
    case DeleteCategoryCall(raw, moveTo, moving, other) =>
      DeleteCategory(s, caller, raw, moveTo, moving, other).after
    case RenameCategoryCall(raw, rawNew) => RenameCategory(s, caller, raw, rawNew).after
    case SetOverrideCall(raw, role, bits, bitsOk) => SetOverride(s, caller, raw, role, bits, bitsOk).after
    case DropOverrideCall(raw, role) => DropOverride(s, caller, raw, role).after
    case ReorderCategoriesCall(names, existing) => ReorderCategories(s, caller, names, existing).after
    case ReorderChannelsCall(ids) => ReorderChannels(s, caller, ids).after
  }

  /** The call may delete a category and move its channels into that category: a condition on the call alone. */
  ghost predicate LosesCategory(s: Server, caller: Caller, c: Call) {
    && c.DeleteCategoryCall?
    && MovesIntoItself(s, Trim(c.raw), c.moveTo, c.moving, c.other)
    && Deletable(s, caller, Trim(c.raw), c.moveTo, c.other)
  }

  /** Any other call keeps the invariant and, by a non-owner, every channel's override rows. */
  lemma CallKeeps(s: Server, caller: Caller, c: Call)
    requires Inv(s) && Possible(s, c) && !LosesCategory(s, caller, c)
    ensures Keeps(s, After(s, caller, c), caller.id != s.owner)
  {
    match c
    case CreateChannelCall(id, name, kind, category, description) =>
      CreateChannelKeeps(s, caller, id, name, kind, category, description);
    case DeleteChannelCall(id) => DeleteChannelKeeps(s, caller, id);
    case RenameChannelCall(id, name, description, category) =>
      RenameChannelKeeps(s, caller, id, name, description, category);
    case CreateCategoryCall(name) => CreateCategoryKeeps(s, caller, name);
    case DeleteCategoryCall(raw, moveTo, moving, other) =>
      if MovesIntoItself(s, Trim(raw), moveTo, moving, other) {
        IntoItselfAccepted(s, caller, raw, moveTo, moving, other);
      } else {
        DeleteCategoryKeeps(s, caller, raw, moveTo, moving, other);
      }
    case RenameCategoryCall(raw, rawNew) => RenameCategoryKeeps(s, caller, raw, rawNew);
    case SetOverrideCall(raw, role, bits, bitsOk) => SetOverrideKeeps(s, caller, raw, role, bits, bitsOk);
    case DropOverrideCall(raw, role) => DropOverrideKeeps(s, caller, raw, role);
    case ReorderCategoriesCall(names, existing) => ReorderCategoriesKeeps(s, caller, names, existing);
    case ReorderChannelsCall(ids) => ReorderChannelsKeeps(s, caller, ids);
  }

  /** Exactly these calls break it. */
  lemma CallKeepsExactly(s: Server, caller: Caller, c: Call)
    requires Inv(s) && Possible(s, c)
    ensures Inv(After(s, caller, c)) <==> !LosesCategory(s, caller, c)
  {
    if c.DeleteCategoryCall? {
      DeletionKeepsExactly(s, caller, c.raw, c.moveTo, c.moving, c.other);
    } else {
      CallKeeps(s, caller, c);
    }
  }

  /** The call takes a category's override rows away from the channels that stay in it. */
  ghost predicate LosesRows(s: Server, caller: Caller, c: Call) {
    LosesCategory(s, caller, c) && Rows(s, Some(Trim(c.raw))) != map[]
  }

  /** A category without rows can be lost and no channel's rows change. */
  lemma EmptyRowsKept(
      s: Server, caller: Caller, raw: string, moveTo: Option<string>, moving: seq<ChannelId>,
      other: Option<string>)
    requires Inv(s) && Listing(s, Trim(raw), moving) && Alternative(s, Trim(raw), other)
    requires MovesIntoItself(s, Trim(raw), moveTo, moving, other)
    requires DeleteCategory(s, caller, raw, moveTo, moving, other).result.Ok? && Rows(s, Some(Trim(raw))) == map[]
    ensures KeepsRows(s, DeleteCategory(s, caller, raw, moveTo, moving, other).after)
  {
    var category, t := Trim(raw), DeleteCategory(s, caller, raw, moveTo, moving, other).after;
    IntoItselfAfter(s, caller, raw, moveTo, moving, other);
    MoveOutLoses(s, category, moving, moving[0]);
    forall id | id in s.channels && id in t.channels
      ensures Rows(t, t.channels[id].category) == Rows(s, s.channels[id].category)
    {
      MoveOutLoses(s, category, moving, id);
    }
  }

  /**
    The promise itself, exactly: a call by someone who is not the owner leaves the override rows that
    apply to each channel what they were, unless it takes a category's rows away in this way.
   */
  lemma RowsKeptExactly(s: Server, caller: Caller, c: Call)
    requires Inv(s) && Possible(s, c) && caller.id != s.owner
    ensures KeepsRows(s, After(s, caller, c)) <==> !LosesRows(s, caller, c)
  {
    if !LosesCategory(s, caller, c) {
      CallKeeps(s, caller, c);
    } else {
      IntoItselfAccepted(s, caller, c.raw, c.moveTo, c.moving, c.other);
      if LosesRows(s, caller, c) {
        var id := c.moving[0];
        assert id in c.moving;
        IntoItselfLoses(s, caller, c.raw, c.moveTo, c.moving, c.other, id);
        assert Rows(s, s.channels[id].category) != map[];
      } else {
        EmptyRowsKept(s, caller, c.raw, c.moveTo, c.moving, c.other);
      }
    }
  }

  lemma EnsureKeepsAlphabet(s: Server, category: string)
    ensures EnsureCategory(s, category).after.alphabet == s.alphabet
  {
  }

  lemma RenameKeepsAlphabet(
      s: Server, caller: Caller, id: ChannelId, name: string, description: Option<string>,
      category: Option<string>)
    requires id in s.channels
    ensures RenameChannel(s, caller, id, name, description, category).after.alphabet == s.alphabet
  {
    var renamed := RenameCases(s, caller, id, name, description, category);
    var next := if NonBlank(category).Some? then NonBlank(category) else s.channels[id].category;
    if next.Some? {
      EnsureKeepsAlphabet(s, next.value);
    }
  }

  lemma DeleteKeepsAlphabet(
      s: Server, caller: Caller, raw: string, moveTo: Option<string>, moving: seq<ChannelId>,
      other: Option<string>)
    ensures DeleteCategory(s, caller, raw, moveTo, moving, other).after.alphabet == s.alphabet
  {
    DeleteCases(s, caller, raw, moveTo, moving, other);
    var target := MoveTarget(Trim(raw), moveTo, other);
    if target.Some? {
      EnsureKeepsAlphabet(s, target.value);
    }
  }

  lemma CreateKeepsAlphabet(
      s: Server, caller: Caller, id: ChannelId, name: string, kind: Kind, category: Option<string>,
      description: Option<string>)
    ensures CreateChannel(s, caller, id, name, kind, category, description).after.alphabet == s.alphabet
  {
    var wanted, channel := CreateCases(s, caller, id, name, kind, category, description);
    EnsureKeepsAlphabet(s, wanted);
  }

  lemma OverrideKeepsAlphabet(s: Server, caller: Caller, raw: string, role: RoleId, bits: Bits, bitsOk: bool)
    ensures SetOverride(s, caller, raw, role, bits, bitsOk).after.alphabet == s.alphabet
  {
    EnsureKeepsAlphabet(s, Trim(raw));
  }

  /** No call changes the alphabet. */
  lemma AlphabetStays(s: Server, caller: Caller, c: Call)
    ensures After(s, caller, c).alphabet == s.alphabet
  {
    match c
    case CreateChannelCall(id, name, kind, category, description) =>
      CreateKeepsAlphabet(s, caller, id, name, kind, category, description);
    case RenameChannelCall(id, name, description, category) =>
      if id in s.channels {
        RenameKeepsAlphabet(s, caller, id, name, description, category);
      }
    case CreateCategoryCall(name) => EnsureKeepsAlphabet(s, Trim(name));
    case DeleteCategoryCall(raw, moveTo, moving, other) => DeleteKeepsAlphabet(s, caller, raw, moveTo, moving, other);
    case SetOverrideCall(raw, role, bits, bitsOk) => OverrideKeepsAlphabet(s, caller, raw, role, bits, bitsOk);
    case _ =>
  }

  ghost predicate IsRun(states: seq<Server>, callers: seq<Caller>, calls: seq<Call>) {
    && |states| == |calls| + 1 == |callers| + 1
    && forall i :: 0 <= i < |calls| ==>
         Possible(states[i], calls[i]) && states[i + 1] == After(states[i], callers[i], calls[i])
  }

  lemma RunStep(states: seq<Server>, callers: seq<Caller>, calls: seq<Call>, i: nat)
    requires IsRun(states, callers, calls) && i < |calls| && Inv(states[i])
    ensures Inv(states[i + 1]) <==> !LosesCategory(states[i], callers[i], calls[i])
  {
    CallKeepsExactly(states[i], callers[i], calls[i]);
  }

  /** None of the first `n` calls of a run moves channels into the category it deletes. */
  ghost predicate NoneLoses(states: seq<Server>, callers: seq<Caller>, calls: seq<Call>, n: nat)
    requires n <= |calls| <= |states| && |callers| == |calls|
  {
    n == 0 || (!LosesCategory(states[n - 1], callers[n - 1], calls[n - 1]) && NoneLoses(states, callers, calls, n - 1))
  }

  ghost predicate AllInOrder(states: seq<Server>, n: nat)
    requires n < |states|
  {
    Inv(states[n]) && (n == 0 || AllInOrder(states, n - 1))
  }

  /** A run keeps the invariant all along exactly if none of its calls is such a deletion. */
  lemma {:induction false} RunsKeepExactly(states: seq<Server>, callers: seq<Caller>, calls: seq<Call>, n: nat)
    requires IsRun(states, callers, calls) && n <= |calls| && Inv(states[0])
    ensures AllInOrder(states, n) <==> NoneLoses(states, callers, calls, n)
  {
    if n > 0 {
      RunsKeepExactly(states, callers, calls, n - 1);
      if AllInOrder(states, n - 1) {
        RunStep(states, callers, calls, n - 1);
      }
    }
  }

  /** At no point of such a run would `backfill_category_rows` insert a row. */
  lemma BackfillNeverWrites(states: seq<Server>, callers: seq<Caller>, calls: seq<Call>, n: nat)
    requires IsRun(states, callers, calls) && n <= |calls| && Inv(states[0]) && NoneLoses(states, callers, calls, n)
    ensures Missing(states[n]) == {}
  {
    RunsKeepExactly(states, callers, calls, n);
  }

  /**
    Over every run made by non-owners, a channel that is never deleted ends under exactly the override
    rows it started under, whatever was created, moved, renamed, deleted or reordered, as long as no
    deletion moves channels into the category it deletes.
   */
  lemma {:induction false} NonOwnersNeverChangeOverrides(
      states: seq<Server>, callers: seq<Caller>, calls: seq<Call>, id: ChannelId, n: nat)
    requires IsRun(states, callers, calls) && n <= |calls| && Inv(states[0]) && NoneLoses(states, callers, calls, n)
    requires forall i :: 0 <= i < n ==> callers[i].id != states[0].owner
    requires forall i :: 0 <= i <= n ==> id in states[i].channels
    ensures Inv(states[n]) && states[n].owner == states[0].owner
    ensures Rows(states[n], states[n].channels[id].category) == Rows(states[0], states[0].channels[id].category)
  {
    if n > 0 {
      NonOwnersNeverChangeOverrides(states, callers, calls, id, n - 1);
      CallKeeps(states[n - 1], callers[n - 1], calls[n - 1]);
    }
  }

  /** A deletion whose category and target are ASCII names; any other call. */
  predicate NamesAscii(c: Call) {
    c.DeleteCategoryCall? ==>
      IsAscii(Trim(c.raw)) && (NonBlank(c.moveTo).Some? ==> IsAscii(NonBlank(c.moveTo).value))
  }

  lemma AlphabetNext(states: seq<Server>, callers: seq<Caller>, calls: seq<Call>, i: nat)
    requires IsRun(states, callers, calls) && i < |calls|
    ensures states[i + 1].alphabet == states[i].alphabet
  {
    AlphabetStays(states[i], callers[i], calls[i]);
  }

  lemma {:induction false} AlphabetAt(states: seq<Server>, callers: seq<Caller>, calls: seq<Call>, n: nat)
    requires IsRun(states, callers, calls) && n <= |calls|
    ensures states[n].alphabet == states[0].alphabet
  {
    if n > 0 {
      AlphabetAt(states, callers, calls, n - 1);
      AlphabetNext(states, callers, calls, n - 1);
    }
  }

  lemma {:induction false} AsciiRunLosesNone(states: seq<Server>, callers: seq<Caller>, calls: seq<Call>, n: nat)
    requires IsRun(states, callers, calls) && n <= |calls| && LowersAscii(states[0].alphabet)
    requires forall i :: 0 <= i < n ==> NamesAscii(calls[i])
    ensures NoneLoses(states, callers, calls, n)
  {
    if n > 0 {
      AsciiRunLosesNone(states, callers, calls, n - 1);
      AlphabetAt(states, callers, calls, n - 1);
      var s, c := states[n - 1], calls[n - 1];
      assert Possible(s, c) && NamesAscii(c);
      if c.DeleteCategoryCall? {
        AsciiMovesElsewhere(s, Trim(c.raw), c.moveTo, c.moving, c.other);
      }
    }
  }

  /**
    With ASCII names in the deletions the promise is unconditional: over every run by non-owners a
    channel that is never deleted keeps the override rows it started under.
   */
  lemma AsciiRunsKeepOverrides(
      states: seq<Server>, callers: seq<Caller>, calls: seq<Call>, id: ChannelId, n: nat)
    requires IsRun(states, callers, calls) && n <= |calls| && Inv(states[0]) && LowersAscii(states[0].alphabet)
    requires forall i :: 0 <= i < n ==> callers[i].id != states[0].owner && NamesAscii(calls[i])
    requires forall i :: 0 <= i <= n ==> id in states[i].channels
    ensures Rows(states[n], states[n].channels[id].category) == Rows(states[0], states[0].channels[id].category)
  {
    AsciiRunLosesNone(states, callers, calls, n);
    NonOwnersNeverChangeOverrides(states, callers, calls, id, n);
  }

  // ---------- A category that loses its overrides to a non-owner ----------

  /** Letters with one accent, lowered as the database does; ASCII comparison tells the two apart. */
  const LATIN := Alphabet(
    c => 'a' <= c <= 'z' || 'A' <= c <= 'Z' || c == '\U{E9}' || c == '\U{C9}',
    c => if c == '\U{C9}' then '\U{E9}' else LowerAscii(c))

  const SMALL := "\U{E9}"
  const LARGE := "\U{C9}"

  /** One category with a rule for role 7 and one channel; 2 manages channels but is not the owner. */
  const RULED := Server(
    LATIN, 1, {7}, map[SMALL := 0], map[0 := Channel("talk", None, TextChannel, Some(SMALL), 0)],
    map[SMALL := map[7 := Bits(0, 1)]])

  const MANAGER := Caller(2, true, name => Manageable, id => true)

  lemma NamesTrimmed()
    ensures Trim(SMALL) == SMALL && Trim(LARGE) == LARGE
    ensures Lower(LATIN, SMALL) == Lower(LATIN, LARGE) == SMALL && !SameAscii(SMALL, LARGE)
  {
    assert SMALL[1..] == [] && LARGE[1..] == [];
    assert SMALL[0] == '\U{E9}' && LARGE[0] == '\U{C9}';
  }

  lemma RuledOk()
    ensures Inv(RULED) && Listing(RULED, SMALL, [0]) && Alternative(RULED, SMALL, None)
  {
    NamesTrimmed();
  }

  lemma RuledDeleted()
    ensures MoveTarget(SMALL, Some(LARGE), None) == Some(LARGE)
    ensures DeleteCategory(RULED, MANAGER, SMALL, Some(LARGE), [0], None).result.Ok?
  {
    NamesTrimmed();
    RuledOk();
    CanonicalOfExisting(RULED, SMALL);
    IntoItselfEnsured(RULED, SMALL, Some(LARGE), [0], None);
  }

  /**
    Deleting a category and naming it in capitals as the target: its channel stays in it without its
    override rows, though the caller is not the owner.
   */
  lemma CategoryLosesItself()
    ensures var c := DeleteCategoryCall(SMALL, Some(LARGE), [0], None);
      var t := After(RULED, MANAGER, c);
      && Inv(RULED) && Possible(RULED, c) && MANAGER.id != RULED.owner && LosesCategory(RULED, MANAGER, c)
      && Rows(RULED, RULED.channels[0].category) == map[7 := Bits(0, 1)]
      && 0 in t.channels && Rows(t, t.channels[0].category) == map[] && SMALL !in t.categories
  {
    NamesTrimmed();
    RuledOk();
    RuledDeleted();
    IntoItselfLoses(RULED, MANAGER, SMALL, Some(LARGE), [0], None, 0);
  }
}
