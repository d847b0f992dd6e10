/** What callers can rely on after a call: where channels end up, and that one to write in is left. */
module ChannelResults {
  import opened Options
  import opened ChannelNames
  import opened Positions
  import opened ChannelStore
  import opened ChannelReorder
  import opened ChannelSafety

  /**
    A created channel is the only change to the channels. It stands after all others of its category,
    which is the one its name resolves to, and there are never more than 500.
   */
  lemma CreatedLast(
      s: Server, caller: Caller, id: ChannelId, name: string, kind: Kind, category: Option<string>,
      description: Option<string>)
    requires Inv(s) && id !in s.channels && CreateChannel(s, caller, id, name, kind, category, description).result.Ok?
    ensures var o := CreateChannel(s, caller, id, name, kind, category, description);
      var made, wanted := o.result.value, if NonBlank(category).Some? then NonBlank(category).value else "General";
      && o.after.channels == s.channels[id := made] && |s.channels| < MAX_CHANNELS
      && made.name == Trim(name) && made.kind == kind
      && made.category.Some? && made.category.value in o.after.categories
      && Lower(s.alphabet, made.category.value) == Lower(s.alphabet, Trim(wanted))
      && forall other :: other in s.channels && s.channels[other].category == made.category ==>
           s.channels[other].position < made.position
  {
    var wanted := if NonBlank(category).Some? then NonBlank(category).value else "General";
    EnsureKeeps(s, wanted);
    var t := EnsureCategory(s, wanted).after;
    var place := Some(EnsureCategory(s, wanted).result.value);
    forall other | other in s.channels && s.channels[other].category == place
      ensures s.channels[other].position in PositionsIn(t, place)
    {
    }
  }

  /**
    Channels of a deleted category go behind those of the target, in the order they had; all others
    stay where they are.
   */
  lemma MovedBehind(s: Server, o: Outcome<string>, category: string, moving: seq<ChannelId>)
    requires o.result.Ok? && o.after == s.(categories := o.after.categories) && Listing(s, category, moving)
    requires MoveOut(o, category, moving).result.Ok? && o.result.value != category
    ensures var after, target := MoveOut(o, category, moving).after, Some(o.result.value);
      && after.channels.Keys == s.channels.Keys
      && (forall id :: id in s.channels && s.channels[id].category != Some(category) ==>
            after.channels[id] == s.channels[id])
      && (forall i :: 0 <= i < |moving| ==> moving[i] in after.channels && after.channels[moving[i]].category == target)
      && (forall i, j :: 0 <= i < j < |moving| ==>
            after.channels[moving[i]].position < after.channels[moving[j]].position)
      && (forall i, id :: 0 <= i < |moving| && id in s.channels && s.channels[id].category == target ==>
            s.channels[id].position < after.channels[moving[i]].position)
  {
    var t, target := o.after, o.result.value;
    var first := NextPosition(PositionsIn(t, Some(target)));
    MovedEach(t.channels, moving, target, first);
    forall i | 0 <= i < |moving|
      ensures moving[i] in s.channels
    {
      assert moving[i] in moving;
    }
    forall id | id in s.channels && s.channels[id].category == Some(target)
      ensures s.channels[id].position < first
    {
      assert s.channels[id].position in PositionsIn(t, Some(target));
    }
  }

  // ---------- Reordering channels ----------

  lemma {:induction false} CountGrows(
      channels: map<ChannelId, Channel>, ids: seq<ChannelId>, i: nat, j: nat, group: string)
    requires i <= j <= |ids|
    ensures CountIn(channels, ids, i, group) <= CountIn(channels, ids, j, group)
  {
    if i < j {
      CountGrows(channels, ids, i, j - 1, group);
    }
  }

  lemma {:induction false} RankedAt(channels: map<ChannelId, Channel>, ids: seq<ChannelId>, n: nat, i: nat)
    requires i < n <= |ids| && ids[i] in channels
    requires forall a, b :: 0 <= a < b < |ids| ==> ids[a] != ids[b]
    ensures ids[i] in Ranked(channels, ids, n)
    ensures Ranked(channels, ids, n)[ids[i]].position == CountIn(channels, ids, i, Group(channels[ids[i]]))
  {
    RankedKeepsRest(channels, ids, n - 1);
    if i < n - 1 {
      RankedAt(channels, ids, n - 1, i);
    }
  }

  /**
    With every channel listed once, the channels of each category stand in the order of the list: a
    channel's position is the number of channels of its category listed before it.
   */
  lemma RankedInOrder(channels: map<ChannelId, Channel>, ids: seq<ChannelId>, i: nat, j: nat)
    requires i < j < |ids| && ids[i] in channels && ids[j] in channels
    requires forall a, b :: 0 <= a < b < |ids| ==> ids[a] != ids[b]
    requires Group(channels[ids[i]]) == Group(channels[ids[j]])
    ensures var after := Ranked(channels, ids, |ids|);
      && ids[i] in after && ids[j] in after
      && after[ids[i]].position < after[ids[j]].position
      && after[ids[i]].position == CountIn(channels, ids, i, Group(channels[ids[i]]))
  {
    RankedAt(channels, ids, |ids|, i);
    RankedAt(channels, ids, |ids|, j);
    CountRises(channels, ids, i, j);
  }

  lemma CountRises(channels: map<ChannelId, Channel>, ids: seq<ChannelId>, i: nat, j: nat)
    requires i < j <= |ids| && ids[i] in channels
    ensures var group := Group(channels[ids[i]]); CountIn(channels, ids, i, group) < CountIn(channels, ids, j, group)
  {
    CountGrows(channels, ids, i + 1, j, Group(channels[ids[i]]));
  }

  // ---------- A channel to write in ----------

  /** The channel is a text channel. */
  predicate IsText(s: Server, id: ChannelId) {
    id in s.channels && s.channels[id].kind.TextChannel?
  }

  ghost predicate HasText(s: Server) {
    exists id :: IsText(s, id)
  }

  lemma RewriteKeepsKind(s: Server, id: ChannelId, channel: Channel, text: ChannelId)
    requires IsText(s, text) && id in s.channels && channel.kind == s.channels[id].kind
    ensures IsText(Rewrite(s, id, channel).after, text)
  {
  }

  lemma RewriteInKeepsKind(o: Outcome<string>, id: ChannelId, channel: Channel, text: ChannelId)
    requires IsText(o.after, text) && id in o.after.channels && channel.kind == o.after.channels[id].kind
    ensures IsText(RewriteIn(o, id, channel).after, text)
  {
    if o.result.Ok? {
      RewriteKeepsKind(o.after, id, channel.(category := Some(o.result.value)), text);
    }
  }

  lemma EnsureKeepsChannels(s: Server, category: string)
    ensures EnsureCategory(s, category).after.channels == s.channels
  {
  }

  lemma RenameKeepsKind(
      s: Server, caller: Caller, id: ChannelId, name: string, description: Option<string>,
      category: Option<string>, text: ChannelId)
    requires IsText(s, text)
    ensures IsText(RenameChannel(s, caller, id, name, description, category).after, text)
  {
    if id in s.channels {
      var renamed := RenameCases(s, caller, id, name, description, category);
      var next := if NonBlank(category).Some? then NonBlank(category) else s.channels[id].category;
      if next.None? {
        RewriteKeepsKind(s, id, renamed, text);
      } else {
        EnsureKeepsChannels(s, next.value);
        RewriteInKeepsKind(EnsureCategory(s, next.value), id, renamed, text);
      }
    }
  }

  lemma MoveOutKeepsKind(o: Outcome<string>, category: string, moving: seq<ChannelId>, text: ChannelId)
    requires IsText(o.after, text) && forall i, j :: 0 <= i < j < |moving| ==> moving[i] != moving[j]
    ensures IsText(MoveOut(o, category, moving).after, text)
  {
    if o.result.Ok? {
      var target := o.result.value;
      MovedChannel(o.after.channels, moving, target, NextPosition(PositionsIn(o.after, Some(target))), text);
    }
  }

  lemma DeleteCategoryKeepsKind(
      s: Server, caller: Caller, raw: string, moveTo: Option<string>, moving: seq<ChannelId>,
      other: Option<string>, text: ChannelId)
    requires IsText(s, text) && Listing(s, Trim(raw), moving)
    ensures IsText(DeleteCategory(s, caller, raw, moveTo, moving, other).after, text)
  {
    var target := MoveTarget(Trim(raw), moveTo, other);
    DeleteCases(s, caller, raw, moveTo, moving, other);
    if target.Some? {
      MoveOutKeepsKind(EnsureCategory(s, target.value), Trim(raw), moving, text);
    }
  }

  lemma CreateKeepsKind(
      s: Server, caller: Caller, id: ChannelId, name: string, kind: Kind, category: Option<string>,
      description: Option<string>, text: ChannelId)
    requires IsText(s, text) && id !in s.channels
    ensures IsText(CreateChannel(s, caller, id, name, kind, category, description).after, text)
  {
    var wanted, channel := CreateCases(s, caller, id, name, kind, category, description);
    EnsureKeepsChannels(s, wanted);
  }

  lemma OverrideKeepsKind(
      s: Server, caller: Caller, raw: string, role: RoleId, bits: Bits, bitsOk: bool, text: ChannelId)
    requires IsText(s, text)
    ensures IsText(SetOverride(s, caller, raw, role, bits, bitsOk).after, text)
  {
    EnsureKeepsChannels(s, Trim(raw));
  }

  /** Every channel that a call leaves keeps its kind, and only a deletion takes a channel away. */
  lemma KindStays(s: Server, caller: Caller, c: Call, text: ChannelId)
    requires Possible(s, c) && IsText(s, text) && c != DeleteChannelCall(text)
    ensures IsText(After(s, caller, c), text)
  {
    match c
    case CreateChannelCall(id, name, kind, category, description) =>
      CreateKeepsKind(s, caller, id, name, kind, category, description, text);
    case SetOverrideCall(raw, role, bits, bitsOk) => OverrideKeepsKind(s, caller, raw, role, bits, bitsOk, text);
    case RenameChannelCall(id, name, description, category) =>
      RenameKeepsKind(s, caller, id, name, description, category, text);
    case DeleteCategoryCall(raw, moveTo, moving, other) =>
      DeleteCategoryKeepsKind(s, caller, raw, moveTo, moving, other, text);
    case ReorderChannelsCall(ids) => RankedKeepsRest(s.channels, ids, |ids|);
    case _ =>
  }

  /** A server with a text channel keeps one, whatever anyone calls. */
  lemma TextChannelStays(s: Server, caller: Caller, c: Call)
    requires Possible(s, c) && HasText(s)
    ensures HasText(After(s, caller, c))
  {
    var id :| IsText(s, id);
    if c != DeleteChannelCall(id) {
      KindStays(s, caller, c, id);
    } else if o :| IsText(s, o) && o != id {
      KindStays(s, caller, c, o);
    } else {
      forall o | o in s.channels && s.channels[o].kind.TextChannel?
        ensures o == id
      {
        assert IsText(s, o);
      }
      assert IsText(After(s, caller, c), id);
    }
  }

  // ---------- Overrides ----------

  /**
    The owner's override reaches exactly the channels of the category the name resolves to: their rows
    change at the role and nowhere else, and every other channel keeps its rows.
   */
  lemma OverrideWritten(
      s: Server, caller: Caller, raw: string, role: RoleId, bits: Bits, bitsOk: bool, id: ChannelId)
    requires Inv(s) && SetOverride(s, caller, raw, role, bits, bitsOk).result.Ok? && id in s.channels
    ensures var t, before := SetOverride(s, caller, raw, role, bits, bitsOk).after, Rows(s, s.channels[id].category);
      && caller.id == s.owner && t.channels == s.channels
      && Rows(t, s.channels[id].category) ==
           if s.channels[id].category.Some?
              && Lower(s.alphabet, s.channels[id].category.value) == Lower(s.alphabet, Trim(raw)) then
             before[role := bits]
           else before
  {
    TrimTwice(raw);
    EnsureKeeps(s, Trim(raw));
    var ensured := EnsureCategory(s, Trim(raw));
    var name := ensured.result.value;
    if s.channels[id].category.Some? {
      var category := s.channels[id].category.value;
      assert category in ensured.after.categories && name in ensured.after.categories;
      assert Lower(s.alphabet, category) == Lower(s.alphabet, Trim(raw)) <==> category == name;
    }
  }

  /** The owner's removal of an override takes exactly the role's row from the channels of that name. */
  lemma OverrideRemoved(s: Server, caller: Caller, raw: string, role: RoleId, id: ChannelId)
    requires DropOverride(s, caller, raw, role).result.Ok? && id in s.channels
    ensures var t, before := DropOverride(s, caller, raw, role).after, Rows(s, s.channels[id].category);
      && caller.id == s.owner && t.channels == s.channels && t.categories == s.categories
      && Rows(t, s.channels[id].category) ==
           if s.channels[id].category == Some(Trim(raw)) then before - {role} else before
  {
    var none: map<RoleId, Bits> := map[];
    assert none - {role} == none;
  }

  /**
    An override written under a name is found again by removing it under the same name exactly if that is
    the category's own spelling or the category was new: the write resolves the name, the removal does
    not. Otherwise the removal is accepted and changes nothing.
   */
  lemma RemovalFindsExactly(s: Server, caller: Caller, raw: string, role: RoleId, bits: Bits, bitsOk: bool)
    requires Inv(s) && SetOverride(s, caller, raw, role, bits, bitsOk).result.Ok?
    ensures var t := SetOverride(s, caller, raw, role, bits, bitsOk).after;
      var removed := DropOverride(t, caller, raw, role);
      var found := Trim(raw) in s.categories || Canonical(s, Trim(raw)).None?;
      && removed.result.Ok?
      && (removed.after == t <==> !found)
      && forall id :: id in s.channels ==>
           Rows(removed.after, s.channels[id].category) ==
             if found then AfterRemoval(s, s.channels[id].category, raw, role) else Rows(t, s.channels[id].category)
  {
    TrimTwice(raw);
    EnsureKeeps(s, Trim(raw));
    var t := SetOverride(s, caller, raw, role, bits, bitsOk).after;
    var name := EnsureCategory(s, Trim(raw)).result.value;
    var removed := DropOverride(t, caller, raw, role);
    var found := Trim(raw) in s.categories || Canonical(s, Trim(raw)).None?;
    if Trim(raw) in s.categories {
      CanonicalOfExisting(s, Trim(raw));
    }
    assert found <==> name == Trim(raw);
    assert role in t.overrides[name];
    assert found ==> role !in removed.after.overrides[name];
    forall id | id in s.channels
      ensures Rows(removed.after, s.channels[id].category) ==
        if found then AfterRemoval(s, s.channels[id].category, raw, role) else Rows(t, s.channels[id].category)
    {
      OverrideWritten(s, caller, raw, role, bits, bitsOk, id);
      if found {
        OverrideRemoved(t, caller, raw, role, id);
        RemovalTakes(s, t, id, raw, role, bits);
      }
    }
  }

  /** A category's rows once the role's row is gone from the category of the name. */
  function AfterRemoval(s: Server, category: Option<string>, raw: string, role: RoleId): map<RoleId, Bits> {
    if category == Some(Trim(raw)) then Rows(s, category) - {role} else Rows(s, category)
  }

  lemma RemovalTakes(s: Server, t: Server, id: ChannelId, raw: string, role: RoleId, bits: Bits)
    requires Inv(s) && id in s.channels && (Trim(raw) in s.categories || Canonical(s, Trim(raw)).None?)
    requires var category, before := s.channels[id].category, Rows(s, s.channels[id].category);
      Rows(t, category) ==
        if category.Some? && Lower(s.alphabet, category.value) == Lower(s.alphabet, Trim(raw)) then before[role := bits]
        else before
    ensures var category := s.channels[id].category;
      (if category == Some(Trim(raw)) then Rows(t, category) - {role} else Rows(t, category)) ==
        AfterRemoval(s, category, raw, role)
  {
    var category, before := s.channels[id].category, Rows(s, s.channels[id].category);
    assert before[role := bits] - {role} == before - {role};
    if category.Some? && Lower(s.alphabet, category.value) == Lower(s.alphabet, Trim(raw)) {
      assert category.value in s.categories;
      assert Canonical(s, Trim(raw)).Some?;
    }
  }

  // ---------- Hidden categories ----------

  /** The caller may not see the category that the name resolves to. */
  ghost predicate IsHidden(s: Server, caller: Caller, name: string) {
    Manage(s, caller, name) == Some(NotFound)
  }

  /** The call is about a category that is hidden from the caller, or would put a channel there. */
  ghost predicate Touches(s: Server, caller: Caller, c: Call) {
    match c
    case CreateChannelCall(_, _, _, category, _) =>
      IsHidden(s, caller, if NonBlank(category).Some? then NonBlank(category).value else "General")
    case RenameChannelCall(id, _, _, category) =>
      id in s.channels && NonBlank(category).Some? && NonBlank(category) != s.channels[id].category
      && IsHidden(s, caller, NonBlank(category).value)
    case CreateCategoryCall(name) => Canonical(s, Trim(name)).Some? && IsHidden(s, caller, Trim(name))
    case DeleteCategoryCall(raw, moveTo, moving, other) =>
      || IsHidden(s, caller, Trim(raw))
      || (moving != [] && MoveTarget(Trim(raw), moveTo, other).Some?
          && IsHidden(s, caller, MoveTarget(Trim(raw), moveTo, other).value))
    case RenameCategoryCall(raw, rawNew) => IsHidden(s, caller, Trim(raw))
    case ReorderCategoriesCall(names, existing) =>
      exists n :: n in Trimmed(names) && n in s.categories && caller.access(n) == Hidden
    case _ => false
  }

  /** A call that touches a hidden category changes nothing, whatever else it asks for. */
  lemma HiddenUntouched(s: Server, caller: Caller, c: Call)
    requires Possible(s, c) && Touches(s, caller, c)
    ensures After(s, caller, c) == s
  {
    if c.ReorderCategoriesCall? {
      var n :| n in Trimmed(c.names) && n in s.categories && caller.access(n) == Hidden;
      HiddenRefused(caller, c.existing, c.names, n);
    }
  }

  lemma HiddenRefused(caller: Caller, existing: seq<string>, names: seq<string>, n: string)
    requires n in Trimmed(names) && caller.access(n) == Hidden
    ensures !Accepted(caller, existing, names)
  {
    assert n in (set m | m in Trimmed(names));
    assert n !in Visible(caller, existing);
  }

  /** Nor does a reorder by someone who cannot see a category change its place among all. */
  lemma HiddenKeepsPlace(s: Server, caller: Caller, names: seq<string>, existing: seq<string>, i: nat)
    requires CategoryListing(s, existing) && Accepted(caller, existing, names)
    requires i < |existing| && caller.access(existing[i]) == Hidden
    ensures var after := ReorderCategories(s, caller, names, existing).after.categories;
      existing[i] in after && after[existing[i]] == i
  {
    AcceptedReorder(s, caller, names, existing);
    assert existing[i] !in Visible(caller, existing);
    var order := Merged(existing, Visible(caller, existing), Trimmed(names));
    assert order[i] == existing[i];
  }
}
