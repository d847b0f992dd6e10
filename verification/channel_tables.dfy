/**
  The handlers of apps/server/src/routes/channels.rs as they run: statement by statement on the
  tables, each proved to do what `ChannelStore` and `ChannelReorder` say.
 */
module ChannelTables {
  import opened Options
  import opened ChannelNames
  import opened Positions
  import opened ChannelStore
  import opened ChannelReorder
  import opened ChannelSafety

  /**
    The listed channels are in the category to leave, each listed once, and the target is that category
    itself or has another name to the database.
   */
  ghost predicate Movable(
      a: Alphabet, channels: map<ChannelId, Channel>, moving: seq<ChannelId>, category: string, target: string) {
    && IndexOk(a, channels) && (target == category || Lower(a, category) != Lower(a, target))
    && (forall i, j :: 0 <= i < j < |moving| ==> moving[i] != moving[j])
    && forall id :: id in moving ==> id in channels && channels[id].category == Some(category)
  }

  /**
    What the index refuses while the `k`-th listed channel moves is what it refuses at the start: the
    channels moved before it share its old category, so they differ from it in type or name.
   */
  lemma ClashWhileMoving(
      a: Alphabet, channels: map<ChannelId, Channel>, moving: seq<ChannelId>, k: nat, category: string,
      target: string, first: int)
    requires Movable(a, channels, moving, category, target) && k < |moving|
    ensures var id, before := moving[k], Moved(channels, moving[..k], target, first);
      && id in channels && before.Keys == channels.Keys && before[id] == channels[id]
      && (Clashes(a, before, channels[id].(category := Some(target), position := first + k), Some(id)) <==>
          Clashes(a, channels, channels[id].(category := Some(target)), Some(id)))
  {
    var id, before := moving[k], Moved(channels, moving[..k], target, first);
    var plain := channels[id].(category := Some(target));
    var moved := plain.(position := first + k);
    MovedEach(channels, moving[..k], target, first);
    assert moving[k] in moving;
    assert IndexKey(a, moved) == IndexKey(a, plain);
    if Clashes(a, before, moved, Some(id)) {
      var o :| o in before && Some(o) != Some(id) && IndexKey(a, before[o]) == IndexKey(a, moved);
      MovedChannel(channels, moving[..k], target, first, o);
      assert IndexKey(a, channels[o]) != IndexKey(a, channels[id]);
      assert o !in moving[..k];
      assert IndexKey(a, channels[o]) == IndexKey(a, plain);
    }
    if Clashes(a, channels, plain, Some(id)) {
      var o :| o in channels && o != id && IndexKey(a, channels[o]) == IndexKey(a, plain);
      assert IndexKey(a, channels[o]) != IndexKey(a, channels[id]);
      assert channels[o].category != Some(category);
      assert o !in moving;
      assert before[o] == channels[o];
    }
  }

  lemma MoveClashesSnoc(
      a: Alphabet, channels: map<ChannelId, Channel>, moving: seq<ChannelId>, id: ChannelId, target: string)
    requires id in channels
    ensures MoveClashes(a, channels, moving + [id], target) <==>
      || MoveClashes(a, channels, moving, target)
      || Clashes(a, channels, channels[id].(category := Some(target)), Some(id))
  {
    var plain := channels[id].(category := Some(target));
    if Clashes(a, channels, plain, Some(id)) {
      assert id in moving + [id];
    }
    if MoveClashes(a, channels, moving, target) {
      var o :| o in moving && o in channels && Clashes(a, channels, channels[o].(category := Some(target)), Some(o));
      assert o in moving + [id];
    }
  }

  lemma MoveClashesPrefix(
      a: Alphabet, channels: map<ChannelId, Channel>, moving: seq<ChannelId>, k: nat, target: string)
    requires k <= |moving| && MoveClashes(a, channels, moving[..k], target)
    ensures MoveClashes(a, channels, moving, target)
  {
    var o :| o in moving[..k] && o in channels && Clashes(a, channels, channels[o].(category := Some(target)), Some(o));
    assert o in moving;
  }

  /** The rest of one update: the moved prefix grows by the channel at `k`. */
  lemma MovedSnoc(channels: map<ChannelId, Channel>, moving: seq<ChannelId>, k: nat, target: string, first: int)
    requires k < |moving| && moving[k] in Moved(channels, moving[..k], target, first)
    ensures var before := Moved(channels, moving[..k], target, first);
      Moved(channels, moving[..k + 1], target, first) ==
        before[moving[k] := before[moving[k]].(category := Some(target), position := first + k)]
  {
    assert moving[..k + 1][..k] == moving[..k];
  }

  lemma MoveClashesStep(
      a: Alphabet, channels: map<ChannelId, Channel>, moving: seq<ChannelId>, k: nat, target: string)
    requires k < |moving| && moving[k] in channels && !MoveClashes(a, channels, moving[..k], target)
    ensures var c := Clashes(a, channels, channels[moving[k]].(category := Some(target)), Some(moving[k]));
      && (c ==> MoveClashes(a, channels, moving, target))
      && (!c ==> !MoveClashes(a, channels, moving[..k + 1], target))
  {
    MoveClashesSnoc(a, channels, moving[..k], moving[k], target);
    assert moving[..k + 1] == moving[..k] + [moving[k]];
    if MoveClashes(a, channels, moving[..k + 1], target) {
      MoveClashesPrefix(a, channels, moving, k + 1, target);
    }
  }

  class Tables {
    const alphabet: Alphabet
    const owner: UserId
    var roles: set<RoleId>
    var categories: map<string, int>
    var channels: map<ChannelId, Channel>
    var overrides: map<string, map<RoleId, Bits>>

    function State(): Server
      reads this
    {
      Server(alphabet, owner, roles, categories, channels, overrides)
    }

    ghost predicate Valid()
      reads this
    {
      Inv(State())
    }

    constructor (alphabet: Alphabet, owner: UserId, roles: set<RoleId>)
      ensures Valid() && State() == Server(alphabet, owner, roles, map["General" := 0], map[], map[])
    {
      this.alphabet, this.owner := alphabet, owner;
      this.roles := roles;
      categories, channels, overrides := map["General" := 0], map[], map[];
      new;
      assert Trim("General") == "General";
    }

    method FindCategory(name: string) returns (found: Option<string>)
      requires Valid()
      ensures found == Canonical(State(), name)
    {
      if n :| n in categories && Lower(alphabet, n) == Lower(alphabet, name) {
        found := Some(n);
      } else {
        found := None;
      }
    }

    method EnsureCategoryManageable(caller: Caller, category: string) returns (error: Option<Error>)
      requires Valid()
      ensures error == Manage(State(), caller, category)
    {
      var canonical := FindCategory(Trim(category));
      match caller.access(if canonical.Some? then canonical.value else category) {
        case Hidden => error := Some(NotFound);
        case ViewOnly => error := Some(Forbidden);
        case Manageable => error := None;
      }
    }

    method CategoryOverrideRows(category: Option<string>) returns (rows: map<RoleId, Bits>)
      requires Valid()
      ensures rows == OverrideRows(State(), category)
    {
      var name := NonBlank(category);
      if name.None? {
        return map[];
      }
      var canonical := FindCategory(name.value);
      rows := Rows(State(), if canonical.Some? then canonical else name);
    }

    method EnsureCategoryMoveAllowed(caller: Caller, from: Option<string>, to: Option<string>) returns (ok: bool)
      requires Valid()
      ensures ok == MoveAllowed(State(), caller, from, to)
    {
      if NonBlank(from) == NonBlank(to) {
        return true;
      }
      var fromRows := CategoryOverrideRows(from);
      var toRows := CategoryOverrideRows(to);
      if fromRows == toRows {
        return true;
      }
      ok := caller.id == owner;
    }

    method EnsureCategoryExists(category: string) returns (r: Result<string>)
      requires Valid()
      modifies this`categories
      ensures Outcome(State(), r) == EnsureCategory(old(State()), category) && Valid()
    {
      EnsureKeeps(State(), category);
      var name := Trim(category);
      var ok := ValidateName(alphabet, name);
      if !ok {
        return Err(Validation);
      }
      var existing := FindCategory(name);
      if existing.Some? {
        return Ok(existing.value);
      }
      categories := categories[name := NextPosition(categories.Values)];
      r := Ok(name);
    }

    method CreateChannel(
        caller: Caller, id: ChannelId, name: string, kind: Kind, category: Option<string>,
        description: Option<string>) returns (r: Result<Channel>)
      requires Valid() && id !in channels
      modifies this`categories, this`channels
      ensures Outcome(State(), r) ==
        ChannelStore.CreateChannel(old(State()), caller, id, name, kind, category, description)
      ensures Valid()
    {
      CreateChannelKeeps(State(), caller, id, name, kind, category, description);
      if !caller.manages {
        return Err(Forbidden);
      }
      var ok := ValidateName(alphabet, Trim(name));
      if !ok || Describe(description).Err? {
        return Err(Validation);
      }
      var wanted := if NonBlank(category).Some? then NonBlank(category).value else "General";
      var error := EnsureCategoryManageable(caller, wanted);
      if error.Some? {
        return Err(error.value);
      }
      var ensured := EnsureCategoryExists(wanted);
      if ensured.Err? {
        return Err(ensured.error);
      }
      var place := Some(ensured.value);
      var channel := Channel(Trim(name), Describe(description).value, kind, place,
                             NextPosition(PositionsIn(State(), place)));
      if Clashes(alphabet, channels, channel, None) || |channels| >= MAX_CHANNELS {
        return Err(Validation);
      }
      channels := channels[id := channel];
      r := Ok(channel);
    }

    method DeleteChannel(caller: Caller, id: ChannelId) returns (r: Result<()>)
      requires Valid()
      modifies this`channels
      ensures Outcome(State(), r) == ChannelStore.DeleteChannel(old(State()), caller, id) && Valid()
    {
      DeleteChannelKeeps(State(), caller, id);
      if id !in channels {
        return Err(NotFound);
      }
      if !caller.channel(id) {
        return Err(Forbidden);
      }
      if channels[id].kind.TextChannel?
         && (forall o :: o in channels && channels[o].kind.TextChannel? ==> o == id) {
        return Err(Validation);
      }
      channels := channels - {id};
      r := Ok(());
    }

    method RenameChannel(
        caller: Caller, id: ChannelId, name: string, description: Option<string>, category: Option<string>)
      returns (r: Result<Channel>)
      requires Valid()
      modifies this`categories, this`channels
      ensures Outcome(State(), r) ==
        ChannelStore.RenameChannel(old(State()), caller, id, name, description, category)
      ensures Valid()
    {
      RenameChannelKeeps(State(), caller, id, name, description, category);
      if id !in channels {
        return Err(NotFound);
      }
      if !caller.channel(id) {
        return Err(Forbidden);
      }
      var channel := channels[id];
      if Trim(name) != Trim(channel.name) {
        var ok := ValidateName(alphabet, Trim(name));
        if !ok {
          return Err(Validation);
        }
      }
      if Describe(description).Err? {
        return Err(Validation);
      }
      var next := if NonBlank(category).Some? then NonBlank(category) else channel.category;
      var allowed := EnsureCategoryMoveAllowed(caller, channel.category, next);
      if !allowed {
        return Err(Forbidden);
      }
      if next.Some? {
        if next != channel.category {
          var error := EnsureCategoryManageable(caller, next.value);
          if error.Some? {
            return Err(error.value);
          }
        }
        var ensured := EnsureCategoryExists(next.value);
        if ensured.Err? {
          return Err(ensured.error);
        }
        next := Some(ensured.value);
      }
      var renamed := channel.(name := Trim(name), description := Describe(description).value, category := next);
      if Clashes(alphabet, channels, renamed, Some(id)) {
        return Err(Validation);
      }
      channels := channels[id := renamed];
      r := Ok(renamed);
    }

    method CreateCategory(caller: Caller, name: string) returns (r: Result<string>)
      requires Valid()
      modifies this`categories
      ensures Outcome(State(), r) == ChannelStore.CreateCategory(old(State()), caller, name) && Valid()
    {
      if !caller.manages {
        return Err(Forbidden);
      }
      var ok := ValidateName(alphabet, Trim(name));
      if !ok {
        return Err(Validation);
      }
      var existing := FindCategory(Trim(name));
      if existing.Some? {
        return Err(Validation);
      }
      r := EnsureCategoryExists(Trim(name));
    }

    /**
      Moves the listed channels one update at a time. An update that meets the unique index fails,
      and the transaction leaves the channels as they were.
     */
    method MoveChannels(moving: seq<ChannelId>, ghost category: string, target: string) returns (ok: bool)
      requires Movable(alphabet, channels, moving, category, target)
      modifies this`channels
      ensures ok == !MoveClashes(alphabet, old(channels), moving, target)
      ensures channels == if ok then Moved(old(channels), moving, target,
                                           NextPosition(PositionsIn(old(State()), Some(target))))
                          else old(channels)
    {
      var begin := channels;
      var first := NextPosition(PositionsIn(State(), Some(target)));
      for k := 0 to |moving|
        invariant channels == Moved(begin, moving[..k], target, first)
        invariant !MoveClashes(alphabet, begin, moving[..k], target)
      {
        ClashWhileMoving(alphabet, begin, moving, k, category, target, first);
        MoveClashesStep(alphabet, begin, moving, k, target);
        MovedSnoc(begin, moving, k, target, first);
        var id := moving[k];
        var moved := channels[id].(category := Some(target), position := first + k);
        if Clashes(alphabet, channels, moved, Some(id)) {
          channels := begin;
          return false;
        }
        channels := channels[id := moved];
      }
      assert moving[..|moving|] == moving;
      ok := true;
    }

    method MoveOutOf(category: string, asked: string, moving: seq<ChannelId>) returns (r: Result<()>)
      requires Valid() && Listing(State(), category, moving)
      requires Lower(alphabet, Trim(asked)) == Lower(alphabet, category) ==> category in categories
      modifies this`categories, this`channels, this`overrides
      ensures Outcome(State(), r) == MoveOut(EnsureCategory(old(State()), asked), category, moving)
    {
      EnsureKeeps(State(), asked);
      var ensured := EnsureCategoryExists(asked);
      if ensured.Err? {
        return Err(ensured.error);
      }
      var ok := MoveChannels(moving, category, ensured.value);
      if !ok {
        return Err(UniqueIndex);
      }
      categories := categories - {category};
      overrides := overrides - {category};
      r := Ok(());
    }

    /**
      `moving` and `other` are what the two queries of the deletion answer: the channels of the
      category by position, and the first category of another name.
     */
    method DeleteCategory(
        caller: Caller, raw: string, moveTo: Option<string>, moving: seq<ChannelId>, other: Option<string>)
      returns (r: Result<()>)
      requires Valid() && Listing(State(), Trim(raw), moving) && Alternative(State(), Trim(raw), other)
      modifies this`categories, this`channels, this`overrides
      ensures Outcome(State(), r) ==
        ChannelStore.DeleteCategory(old(State()), caller, raw, moveTo, moving, other)
      ensures MovesIntoItself(old(State()), Trim(raw), moveTo, moving, other) ==>
        (Valid() <==> !Deletable(old(State()), caller, Trim(raw), moveTo, other))
      ensures !MovesIntoItself(old(State()), Trim(raw), moveTo, moving, other) ==> Valid()
    {
      DeletionKeepsExactly(State(), caller, raw, moveTo, moving, other);
      if !caller.manages {
        return Err(Forbidden);
      }
      var category := Trim(raw);
      if category == [] {
        return Err(Validation);
      }
      var error := EnsureCategoryManageable(caller, category);
      if error.Some? {
        return Err(error.value);
      }
      if moving == [] {
        var rows := CategoryOverrideRows(Some(category));
        if rows != map[] && caller.id != owner {
          return Err(Forbidden);
        }
      } else {
        var target := MoveTarget(category, moveTo, other);
        if target.None? {
          return Err(Validation);
        }
        MoveTargetTrimmed(State(), category, moveTo, other);
        assert moving[0] in moving;
        var allowed := EnsureCategoryMoveAllowed(caller, Some(category), target);
        if !allowed {
          return Err(Forbidden);
        }
        error := EnsureCategoryManageable(caller, target.value);
        if error.Some? {
          return Err(error.value);
        }
        r := MoveOutOf(category, target.value, moving);
        return;
      }
      categories := categories - {category};
      overrides := overrides - {category};
      r := Ok(());
    }

    method RenameCategory(caller: Caller, raw: string, rawNew: string) returns (r: Result<string>)
      requires Valid()
      modifies this`categories, this`channels, this`overrides
      ensures Outcome(State(), r) == ChannelStore.RenameCategory(old(State()), caller, raw, rawNew) && Valid()
    {
      RenameCategoryKeeps(State(), caller, raw, rawNew);
      if !caller.manages {
        return Err(Forbidden);
      }
      var oldName, newName := Trim(raw), Trim(rawNew);
      if oldName == [] {
        return Err(Validation);
      }
      var error := EnsureCategoryManageable(caller, oldName);
      if error.Some? {
        return Err(error.value);
      }
      var valid := ValidateName(alphabet, newName);
      if !valid {
        return Err(Validation);
      }
      if newName == oldName {
        return Ok(newName);
      }
      if oldName !in categories {
        return Err(NotFound);
      }
      if exists n :: n in categories && Lower(alphabet, n) == Lower(alphabet, newName) && n != oldName {
        return Err(Validation);
      }
      categories := (categories - {oldName})[newName := categories[oldName]];
      channels := map id | id in channels ::
        if channels[id].category == Some(oldName) then channels[id].(category := Some(newName)) else channels[id];
      if oldName in overrides {
        overrides := (overrides - {oldName})[newName := overrides[oldName]];
      }
      r := Ok(newName);
    }

    method UpdateCategoryOverride(caller: Caller, raw: string, role: RoleId, bits: Bits, bitsOk: bool)
      returns (r: Result<()>)
      requires Valid()
      modifies this`categories, this`overrides
      ensures Outcome(State(), r) == SetOverride(old(State()), caller, raw, role, bits, bitsOk) && Valid()
    {
      SetOverrideKeeps(State(), caller, raw, role, bits, bitsOk);
      if caller.id != owner {
        return Err(Forbidden);
      }
      if !bitsOk || Trim(raw) == [] {
        return Err(Validation);
      }
      var ensured := EnsureCategoryExists(Trim(raw));
      if ensured.Err? {
        return Err(ensured.error);
      }
      if role !in roles {
        return Err(NotFound);
      }
      overrides := overrides[ensured.value := Rows(State(), Some(ensured.value))[role := bits]];
      r := Ok(());
    }

    method DeleteCategoryOverride(caller: Caller, raw: string, role: RoleId) returns (r: Result<()>)
      requires Valid()
      modifies this`overrides
      ensures Outcome(State(), r) == DropOverride(old(State()), caller, raw, role) && Valid()
    {
      DropOverrideKeeps(State(), caller, raw, role);
      if caller.id != owner {
        return Err(Forbidden);
      }
      var category := Trim(raw);
      if category == [] {
        return Err(Validation);
      }
      if category in overrides {
        overrides := overrides[category := overrides[category] - {role}];
      }
      r := Ok(());
    }

    /** `existing` is what the query answers: the categories by position. */
    method ReorderCategories(caller: Caller, names: seq<string>, existing: seq<string>) returns (r: Result<()>)
      requires Valid() && CategoryListing(State(), existing)
      modifies this`categories
      ensures Outcome(State(), r) == ChannelReorder.ReorderCategories(old(State()), caller, names, existing)
      ensures Valid()
    {
      ReorderCategoriesKeeps(State(), caller, names, existing);
      if !caller.manages {
        return Err(Forbidden);
      }
      var visible := Visible(caller, existing);
      if names == [] || |visible| != |names| {
        return Err(Validation);
      }
      var ok := NamesAre(names, visible);
      if !ok {
        return Err(Validation);
      }
      PlaceMerged(existing, visible, Trimmed(names));
      r := Ok(());
    }

    /** The check loop: every name trimmed, none empty, none twice, and all of them the visible ones. */
    static method NamesAre(names: seq<string>, visible: set<string>) returns (ok: bool)
      ensures ok <==>
        && (forall n :: n in Trimmed(names) ==> n != [])
        && Distinct(Trimmed(names))
        && (set n | n in Trimmed(names)) == visible
    {
      var seen: set<string> := {};
      var all := Trimmed(names);
      for k := 0 to |names|
        invariant seen == set n | n in all[..k]
        invariant forall i :: 0 <= i < k ==> all[i] != []
        invariant Distinct(all[..k])
      {
        var trimmed := Trim(names[k]);
        assert trimmed == all[k];
        if trimmed == [] {
          assert all[k] in all;
          return false;
        }
        if trimmed in seen {
          var i :| 0 <= i < k && all[..k][i] == trimmed;
          assert all[i] == all[k];
          return false;
        }
        seen := seen + {trimmed};
        assert all[..k + 1] == all[..k] + [trimmed];
      }
      assert all[..|names|] == all;
      ok := seen == visible;
    }

    /** The merge loop: each visible place takes the next requested name, hidden ones stay. */
    method PlaceMerged(existing: seq<string>, visible: set<string>, requested: seq<string>)
      modifies this`categories
      ensures var order := Merged(existing, visible, requested);
        categories == Placed(old(categories), order, |order|)
    {
      ghost var order := Merged(existing, visible, requested);
      var next := 0;
      for index := 0 to |existing|
        invariant next <= |requested|
        invariant order[index..] == Merged(existing[index..], visible, requested[next..])
        invariant categories == Placed(old(categories), order, index)
      {
        var name := existing[index];
        assert existing[index..][1..] == existing[index + 1..];
        assert order[index..][1..] == order[index + 1..];
        assert order[index] == order[index..][0];
        if name in visible && next < |requested| {
          assert requested[next..][1..] == requested[next + 1..];
          name := requested[next];
          next := next + 1;
        }
        if name in categories {
          categories := categories[name := index];
        }
      }
    }

    method ReorderChannels(caller: Caller, ids: seq<ChannelId>) returns (r: Result<()>)
      requires Valid()
      modifies this`channels
      ensures Outcome(State(), r) == ChannelReorder.ReorderChannels(old(State()), caller, ids) && Valid()
    {
      ReorderChannelsKeeps(State(), caller, ids);
      if !caller.manages {
        return Err(Forbidden);
      }
      if ids == [] || |ids| != |channels| || exists id :: id in ids && id !in channels {
        return Err(Validation);
      }
      RankChannels(ids);
      r := Ok(());
    }

    /** The update loop: a map counts, for each group, the positions given out so far. */
    method RankChannels(ids: seq<ChannelId>)
      requires forall id :: id in ids ==> id in channels
      modifies this`channels
      ensures channels == Ranked(old(channels), ids, |ids|)
    {
      var begin := channels;
      var counts: map<string, nat> := map[];
      for k := 0 to |ids|
        invariant channels == Ranked(begin, ids, k)
        invariant forall g :: (if g in counts then counts[g] else 0) == CountIn(begin, ids, k, g)
      {
        var id := ids[k];
        RankedKeepsRest(begin, ids, k);
        assert id in ids;
        var group := Group(begin[id]);
        var position := if group in counts then counts[group] else 0;
        channels := channels[id := channels[id].(position := position)];
        counts := counts[group := position + 1];
      }
    }
  }
}
