/**
  Calls to the channel handlers that overlap. Four handlers of apps/server/src/routes/channels.rs check first
  and write later, without a lock between: `create_channel`, `rename_channel`, `delete_category` and
  `rename_category`. Each is a check, which may add the row of a category, and a write; in between others
  commit. The remaining handlers are one step: a lock, a key or a unique index makes them so, or they write
  nothing but positions.
 */
module ChannelRaces {
  import opened Options
  import opened ChannelNames
  import opened Positions
  import opened ChannelStore
  import opened ChannelReorder
  import opened ChannelSafety
  import opened ChannelTables

  type RequestId = nat

  /** What a request will write. */
  datatype Request =
    | Creating(id: ChannelId, channel: Channel)
    | Renaming(id: ChannelId, name: string, description: Option<string>, category: Option<string>)
    | Deleting(gone: string, moving: seq<ChannelId>, target: string, first: int)
    | RenamingCategory(from: string, to: string)

  /** The tables, and the requests that have checked and not yet written. */
  datatype State = State(server: Server, open: map<RequestId, Request>)

  datatype Event =
    | Begin(r: RequestId, caller: Caller, call: Call)
    | Write(r: RequestId)
    | Drop(r: RequestId)
    /** A handler that is one step. */
    | Whole(caller: Caller, call: Call)

  predicate TwoSteps(c: Call) {
    c.CreateChannelCall? || c.RenameChannelCall? || c.DeleteCategoryCall? || c.RenameCategoryCall?
  }

  // ---------- Checks ----------

  ghost function CheckCreate(
      s: Server, caller: Caller, id: ChannelId, name: string, kind: Kind, category: Option<string>,
      description: Option<string>): (Server, Option<Request>)
  {
    var wanted := if NonBlank(category).Some? then NonBlank(category).value else "General";
    if !caller.manages || !ValidName(s.alphabet, Trim(name)) || Describe(description).Err?
       || Manage(s, caller, wanted).Some? then (s, None)
    else
      var o := EnsureCategory(s, wanted);
      if o.result.Err? then (o.after, None)
      else
        var channel := Channel(Trim(name), Describe(description).value, kind, Some(o.result.value), 0);
        (o.after, if Clashes(s.alphabet, s.channels, channel, None) then None else Some(Creating(id, channel)))
  }

  /** The channel with its new name, description and category. */
  function Rewritten(channel: Channel, name: string, description: Option<string>, category: Option<string>): Channel {
    channel.(name := name, description := description, category := category)
  }

  /** What a rename checks before it touches a category. */
  ghost predicate MayRename(
      s: Server, caller: Caller, id: ChannelId, name: string, description: Option<string>, next: Option<string>)
    requires id in s.channels
  {
    var channel := s.channels[id];
    && caller.channel(id) && (Trim(name) == Trim(channel.name) || ValidName(s.alphabet, Trim(name)))
    && Describe(description).Ok? && MoveAllowed(s, caller, channel.category, next)
    && (next.Some? && next != channel.category ==> Manage(s, caller, next.value).None?)
  }

  function NextCategory(channel: Channel, category: Option<string>): Option<string> {
    if NonBlank(category).Some? then NonBlank(category) else channel.category
  }

  ghost function CheckRename(
      s: Server, caller: Caller, id: ChannelId, name: string, description: Option<string>,
      category: Option<string>): (Server, Option<Request>)
  {
    if id !in s.channels then (s, None)
    else
      var next := NextCategory(s.channels[id], category);
      if !MayRename(s, caller, id, name, description, next) then (s, None)
      else EnsuredRenaming(s, next, id, Trim(name), Describe(description).value)
  }

  ghost function EnsuredRenaming(
      s: Server, next: Option<string>, id: ChannelId, name: string, description: Option<string>)
    : (Server, Option<Request>)
    requires id in s.channels
  {
    if next.None? then (s, CheckedRename(s, id, name, description, None))
    else
      var o := EnsureCategory(s, next.value);
      (o.after, if o.result.Err? then None else CheckedRename(s, id, name, description, Some(o.result.value)))
  }

  function CheckedRename(
      s: Server, id: ChannelId, name: string, description: Option<string>, category: Option<string>)
    : Option<Request>
    requires id in s.channels
  {
    if Clashes(s.alphabet, s.channels, Rewritten(s.channels[id], name, description, category), Some(id)) then None
    else Some(Renaming(id, name, description, category))
  }

  /** What a deletion checks before it touches the target. */
  ghost predicate MayDelete(
      s: Server, caller: Caller, category: string, moving: seq<ChannelId>, target: Option<string>) {
    && caller.manages && category != [] && Manage(s, caller, category).None?
    && if moving == [] then OverrideRows(s, Some(category)) == map[] || caller.id == s.owner
       else target.Some? && MoveAllowed(s, caller, Some(category), target) && Manage(s, caller, target.value).None?
  }

  ghost function CheckDelete(
      s: Server, caller: Caller, raw: string, moveTo: Option<string>, moving: seq<ChannelId>,
      other: Option<string>): (Server, Option<Request>)
  {
    var category, target := Trim(raw), MoveTarget(Trim(raw), moveTo, other);
    if !MayDelete(s, caller, category, moving, target) then (s, None)
    else if moving == [] then (s, Some(Deleting(category, [], [], 0)))
    else EnsuredDeleting(s, category, moving, target.value)
  }

  ghost function EnsuredDeleting(s: Server, category: string, moving: seq<ChannelId>, target: string)
    : (Server, Option<Request>)
  {
    var o := EnsureCategory(s, target);
    (o.after, if o.result.Err? then None
              else Some(Deleting(category, moving, o.result.value, NextPosition(PositionsIn(s, Some(o.result.value))))))
  }

  ghost function CheckRenameCategory(s: Server, caller: Caller, raw: string, rawNew: string): Option<Request> {
    var oldName, newName := Trim(raw), Trim(rawNew);
    if !caller.manages || oldName == [] || Manage(s, caller, oldName).Some? || !ValidName(s.alphabet, newName)
       || newName == oldName || oldName !in s.categories || NameTaken(s, oldName, newName) then None
    else Some(RenamingCategory(oldName, newName))
  }

  /** Another category has the name up to case. */
  ghost predicate NameTaken(s: Server, oldName: string, newName: string) {
    exists n :: n in s.categories && Lower(s.alphabet, n) == Lower(s.alphabet, newName) && n != oldName
  }

  /** The tables after the check of a call, and what it will write if it goes on. */
  ghost function Check(s: Server, caller: Caller, c: Call): (Server, Option<Request>)
    requires TwoSteps(c)
  {
    match c
    case CreateChannelCall(id, name, kind, category, description) =>
      CheckCreate(s, caller, id, name, kind, category, description)
    case RenameChannelCall(id, name, description, category) =>
      CheckRename(s, caller, id, name, description, category)
    case DeleteCategoryCall(raw, moveTo, moving, other) => CheckDelete(s, caller, raw, moveTo, moving, other)
    case RenameCategoryCall(raw, rawNew) => (s, CheckRenameCategory(s, caller, raw, rawNew))
  }

  // ---------- Writes ----------

  /** The first `n` updates of a move, one after the other; None if one meets the unique index. */
  function MoveUpdates(
      a: Alphabet, channels: map<ChannelId, Channel>, moving: seq<ChannelId>, target: string, first: int, n: nat)
    : Option<map<ChannelId, Channel>>
    requires n <= |moving|
  {
    if n == 0 then Some(channels)
    else
      match MoveUpdates(a, channels, moving, target, first, n - 1)
      case None => None
      case Some(before) =>
        var id := moving[n - 1];
        if id !in before then Some(before)
        else
          var moved := before[id].(category := Some(target), position := first + n - 1);
          if Clashes(a, before, moved, Some(id)) then None else Some(before[id := moved])
  }

  /** What the write leaves, whatever the tables have become since the check; an error leaves them alone. */
  ghost function Written(s: Server, q: Request): Server {
    match q
    case Creating(id, channel) =>
      var placed := channel.(position := NextPosition(PositionsIn(s, channel.category)));
      if id in s.channels || |s.channels| >= MAX_CHANNELS || Clashes(s.alphabet, s.channels, placed, None) then s
      else s.(channels := s.channels[id := placed])
    case Renaming(id, name, description, category) =>
      if id !in s.channels then s
      else Rewrite(s, id, Rewritten(s.channels[id], name, description, category)).after
    case Deleting(category, moving, target, first) =>
      (match MoveUpdates(s.alphabet, s.channels, moving, target, first, |moving|)
       case None => s
       case Some(channels) => DropCategory(s.(channels := channels), category))
    case RenamingCategory(oldName, newName) =>
      if oldName !in s.categories || NameTaken(s, oldName, newName) then s else Renamed(s, oldName, newName)
  }

  predicate Concerns(q: Request, id: ChannelId) {
    match q
    case Creating(own, _) => id == own
    case Renaming(own, _, _, _) => id == own
    case Deleting(_, moving, _, _) => id in moving
    case RenamingCategory(_, _) => false
  }

  /** A created channel gets an id that nothing has had before. */
  ghost predicate NewId(s: State, c: Call) {
    c.CreateChannelCall? ==> forall r :: r in s.open ==> !Concerns(s.open[r], c.id)
  }

  ghost predicate Step(s: State, e: Event, t: State) {
    match e
    case Begin(r, caller, c) =>
      && r !in s.open && TwoSteps(c) && Possible(s.server, c) && NewId(s, c)
      && var (after, q) := Check(s.server, caller, c);
         t == State(after, if q.Some? then s.open[r := q.value] else s.open)
    case Write(r) => r in s.open && t == State(Written(s.server, s.open[r]), s.open - {r})
    case Drop(r) => r in s.open && t == s.(open := s.open - {r})
    case Whole(caller, c) =>
      !TwoSteps(c) && Possible(s.server, c) && t == s.(server := After(s.server, caller, c))
  }

  ghost predicate IsRaceRun(states: seq<State>, events: seq<Event>) {
    && |states| == |events| + 1
    && forall i :: 0 <= i < |events| ==> Step(states[i], events[i], states[i + 1])
  }

  // ---------- A write at once ----------

  lemma MoveClashesLonger(
      a: Alphabet, channels: map<ChannelId, Channel>, shorter: seq<ChannelId>, longer: seq<ChannelId>, id: ChannelId,
      target: string)
    requires longer == shorter + [id] && id in channels
    ensures MoveClashes(a, channels, longer, target) <==>
      MoveClashes(a, channels, shorter, target)
      || Clashes(a, channels, channels[id].(category := Some(target)), Some(id))
  {
    MoveClashesSnoc(a, channels, shorter, id, target);
  }

  lemma MoveClashesNext(a: Alphabet, channels: map<ChannelId, Channel>, moving: seq<ChannelId>, k: nat, target: string)
    requires k < |moving| && moving[k] in channels
    ensures MoveClashes(a, channels, moving[..k + 1], target) <==>
      MoveClashes(a, channels, moving[..k], target)
      || Clashes(a, channels, channels[moving[k]].(category := Some(target)), Some(moving[k]))
  {
    assert moving[..k + 1] == moving[..k] + [moving[k]];
    MoveClashesLonger(a, channels, moving[..k], moving[..k + 1], moving[k], target);
  }

  /** One update more meets the index if the channel at `k` does. */
  lemma MoveNext(
      a: Alphabet, channels: map<ChannelId, Channel>, moving: seq<ChannelId>, category: string, target: string,
      first: int, k: nat)
    requires Movable(a, channels, moving, category, target) && k < |moving|
    ensures var before := Moved(channels, moving[..k], target, first);
      && moving[k] in before
      && (MoveClashes(a, channels, moving[..k + 1], target) <==>
            MoveClashes(a, channels, moving[..k], target)
            || Clashes(a, before, before[moving[k]].(category := Some(target), position := first + k), Some(moving[k])))
  {
    ClashWhileMoving(a, channels, moving, k, category, target, first);
    MoveClashesNext(a, channels, moving, k, target);
  }

  /** Without a clash the updates of a move give what `Moved` says, and with one they fail. */
  lemma {:induction false} MoveAtOnce(
      a: Alphabet, channels: map<ChannelId, Channel>, moving: seq<ChannelId>, category: string, target: string,
      first: int, n: nat)
    requires Movable(a, channels, moving, category, target) && n <= |moving|
    ensures MoveUpdates(a, channels, moving, target, first, n) ==
      if MoveClashes(a, channels, moving[..n], target) then None else Some(Moved(channels, moving[..n], target, first))
  {
    if n > 0 {
      var k := n - 1;
      MoveAtOnce(a, channels, moving, category, target, first, k);
      MoveNext(a, channels, moving, category, target, first, k);
      MovedSnoc(channels, moving, k, target, first);
    }
  }

  lemma MoveOutAtOnce(t: Server, category: string, moving: seq<ChannelId>, target: string)
    requires Movable(t.alphabet, t.channels, moving, category, target)
    ensures MoveOut(Outcome(t, Ok(target)), category, moving).after ==
      Written(t, Deleting(category, moving, target, NextPosition(PositionsIn(t, Some(target)))))
  {
    var first := NextPosition(PositionsIn(t, Some(target)));
    MoveAtOnce(t.alphabet, t.channels, moving, category, target, first, |moving|);
    assert moving[..|moving|] == moving;
  }

  lemma MovableListed(s: Server, category: string, moving: seq<ChannelId>, t: Server, target: string)
    requires Inv(s) && Inv(t) && t == s.(categories := t.categories) && s.categories.Keys <= t.categories.Keys
    requires Listing(s, category, moving) && moving != [] && target in t.categories
    ensures Movable(t.alphabet, t.channels, moving, category, target)
  {
    assert moving[0] in moving;
    assert category in t.categories;
  }

  lemma DropAtOnce(s: Server, category: string)
    ensures Written(s, Deleting(category, [], [], 0)) == DropCategory(s, category)
  {
    assert s.(channels := s.channels) == s;
  }

  /** A deletion with channels to move, from its ensured target on. */
  lemma EnsuredAtOnce(s: Server, category: string, moving: seq<ChannelId>, target: string)
    requires Inv(s) && Listing(s, category, moving) && moving != []
    ensures var (after, q) := EnsuredDeleting(s, category, moving, target);
      MoveOut(EnsureCategory(s, target), category, moving).after == if q.Some? then Written(after, q.value) else after
  {
    EnsureKeeps(s, target);
    var o := EnsureCategory(s, target);
    if o.result.Ok? {
      assert PositionsIn(o.after, Some(o.result.value)) == PositionsIn(s, Some(o.result.value));
      MovableListed(s, category, moving, o.after, o.result.value);
      MoveOutAtOnce(o.after, category, moving, o.result.value);
    }
  }

  lemma DeleteIs(
      s: Server, caller: Caller, raw: string, moveTo: Option<string>, moving: seq<ChannelId>,
      other: Option<string>)
    ensures var category, target := Trim(raw), MoveTarget(Trim(raw), moveTo, other);
      DeleteCategory(s, caller, raw, moveTo, moving, other).after ==
        if !MayDelete(s, caller, category, moving, target) then s
        else if moving == [] then DropCategory(s, category)
        else MoveOut(EnsureCategory(s, target.value), category, moving).after
  {
  }

  lemma DeleteAtOnce(
      s: Server, caller: Caller, raw: string, moveTo: Option<string>, moving: seq<ChannelId>,
      other: Option<string>)
    requires Inv(s) && Listing(s, Trim(raw), moving)
    ensures var (after, q) := CheckDelete(s, caller, raw, moveTo, moving, other);
      DeleteCategory(s, caller, raw, moveTo, moving, other).after == if q.Some? then Written(after, q.value) else after
  {
    var category, target := Trim(raw), MoveTarget(Trim(raw), moveTo, other);
    DeleteIs(s, caller, raw, moveTo, moving, other);
    if MayDelete(s, caller, category, moving, target) {
      if moving == [] {
        DropAtOnce(s, category);
      } else {
        EnsuredAtOnce(s, category, moving, target.value);
      }
    }
  }

  /** The index does not look at positions, so the check and the write of a creation agree. */
  lemma InsertAtOnce(t: Server, id: ChannelId, channel: Channel, name: string)
    requires id !in t.channels && channel.category == Some(name)
    ensures Insert(Outcome(t, Ok(name)), id, channel).after ==
      if Clashes(t.alphabet, t.channels, channel, None) then t else Written(t, Creating(id, channel))
  {
    var placed := channel.(position := NextPosition(PositionsIn(t, Some(name))));
    assert IndexKey(t.alphabet, placed) == IndexKey(t.alphabet, channel);
  }

  /** A call whose write follows its check at once does what the handler does as one step. */
  lemma AtOnce(s: Server, caller: Caller, c: Call)
    requires Inv(s) && TwoSteps(c) && Possible(s, c)
    ensures var (after, q) := Check(s, caller, c);
      After(s, caller, c) == if q.Some? then Written(after, q.value) else after
  {
    match c
    case CreateChannelCall(id, name, kind, category, description) =>
      CreateAtOnce(s, caller, id, name, kind, category, description);
    case RenameChannelCall(id, name, description, category) =>
      RenameAtOnce(s, caller, id, name, description, category);
    case DeleteCategoryCall(raw, moveTo, moving, other) => DeleteAtOnce(s, caller, raw, moveTo, moving, other);
    case _ =>
  }

  lemma CreateAtOnce(
      s: Server, caller: Caller, id: ChannelId, name: string, kind: Kind, category: Option<string>,
      description: Option<string>)
    requires Inv(s) && id !in s.channels
    ensures var (after, q) := CheckCreate(s, caller, id, name, kind, category, description);
      CreateChannel(s, caller, id, name, kind, category, description).after ==
        if q.Some? then Written(after, q.value) else after
  {
    if Describe(description).Ok? {
      var wanted := if NonBlank(category).Some? then NonBlank(category).value else "General";
      EnsuredCreate(s, wanted, id, Channel(Trim(name), Describe(description).value, kind, None, 0));
    }
  }

  /** A creation from its ensured category on. */
  lemma EnsuredCreate(s: Server, wanted: string, id: ChannelId, channel: Channel)
    requires Inv(s) && id !in s.channels && channel.category.None?
    ensures var o := EnsureCategory(s, wanted);
      o.after.channels == s.channels && o.after.alphabet == s.alphabet
      && Insert(o, id, channel).after ==
           if o.result.Err? then o.after
           else
             var placed := channel.(category := Some(o.result.value));
             if Clashes(s.alphabet, s.channels, placed, None) then o.after else Written(o.after, Creating(id, placed))
  {
    EnsureKeeps(s, wanted);
    var o := EnsureCategory(s, wanted);
    if o.result.Ok? {
      var placed := channel.(category := Some(o.result.value));
      InsertAtOnce(o.after, id, placed, o.result.value);
      InsertPlaces(o, id, placed);
      assert placed.(category := None) == channel;
    }
  }

  /** `Insert` sets the category itself. */
  lemma InsertPlaces(o: Outcome<string>, id: ChannelId, channel: Channel)
    requires o.result.Ok?
    ensures Insert(o, id, channel.(category := None)).after == Insert(o, id, channel).after
  {
  }

  lemma RewriteAtOnce(
      t: Server, id: ChannelId, name: string, description: Option<string>, category: Option<string>)
    requires id in t.channels
    ensures Rewrite(t, id, Rewritten(t.channels[id], name, description, category)).after ==
      var q := CheckedRename(t, id, name, description, category); if q.Some? then Written(t, q.value) else t
  {
  }

  /** A rename from its ensured category on. */
  lemma EnsuredRename(s: Server, next: Option<string>, id: ChannelId, name: string, description: Option<string>)
    requires Inv(s) && id in s.channels && (next.None? ==> s.channels[id].category.None?)
    ensures var (after, q) := EnsuredRenaming(s, next, id, name, description);
      RenamedAfter(s, next, id, name, description) == if q.Some? then Written(after, q.value) else after
  {
    if next.None? {
      RewriteAtOnce(s, id, name, description, None);
    } else {
      EnsureKeeps(s, next.value);
      var o := EnsureCategory(s, next.value);
      if o.result.Ok? {
        RewriteAtOnce(o.after, id, name, description, Some(o.result.value));
      }
    }
  }

  ghost function RenamedAfter(
      s: Server, next: Option<string>, id: ChannelId, name: string, description: Option<string>): Server
    requires id in s.channels
  {
    var renamed := s.channels[id].(name := name, description := description);
    if next.None? then Rewrite(s, id, renamed).after else RewriteIn(EnsureCategory(s, next.value), id, renamed).after
  }

  lemma RenameIs(
      s: Server, caller: Caller, id: ChannelId, name: string, description: Option<string>,
      category: Option<string>)
    requires id in s.channels
    ensures var next := NextCategory(s.channels[id], category);
      RenameChannel(s, caller, id, name, description, category).after ==
        if !MayRename(s, caller, id, name, description, next) then s
        else RenamedAfter(s, next, id, Trim(name), Describe(description).value)
  {
  }

  lemma RenameAtOnce(
      s: Server, caller: Caller, id: ChannelId, name: string, description: Option<string>,
      category: Option<string>)
    requires Inv(s)
    ensures var (after, q) := CheckRename(s, caller, id, name, description, category);
      RenameChannel(s, caller, id, name, description, category).after ==
        if q.Some? then Written(after, q.value) else after
  {
    if id in s.channels {
      RenameIs(s, caller, id, name, description, category);
      var next := NextCategory(s.channels[id], category);
      if MayRename(s, caller, id, name, description, next) {
        EnsuredRename(s, next, id, Trim(name), Describe(description).value);
      }
    }
  }

  // ---------- What a late write does ----------

  /** The write meets a limit, a key or the unique index, or finds its row gone. */
  ghost predicate Fails(s: Server, q: Request) {
    match q
    case Creating(id, channel) =>
      id in s.channels || |s.channels| >= MAX_CHANNELS || Clashes(s.alphabet, s.channels, channel, None)
    case Renaming(id, name, description, category) =>
      id !in s.channels
      || Clashes(s.alphabet, s.channels, Rewritten(s.channels[id], name, description, category), Some(id))
    case Deleting(gone, moving, target, first) =>
      MoveUpdates(s.alphabet, s.channels, moving, target, first, |moving|).None?
    case RenamingCategory(from, to) => from !in s.categories || NameTaken(s, from, to)
  }

  /** The new name of a category is a name, as its check has seen. */
  predicate Named(q: Request) {
    q.RenamingCategory? ==> Trim(q.to) == q.to && q.to != []
  }

  predicate Exists(s: Server, category: Option<string>) {
    category.Some? ==> category.value in s.categories
  }

  /**
    At the write, the category that the channel goes to still exists; a deleted category holds no channel
    but those to be moved, and what they move to exists and is another one.
   */
  predicate Sound(s: Server, q: Request) {
    match q
    case Creating(_, channel) => Exists(s, channel.category)
    case Renaming(_, _, _, category) => Exists(s, category)
    case Deleting(gone, moving, target, _) =>
      && (forall id :: id in s.channels && s.channels[id].category == Some(gone) ==> id in moving)
      && (forall id :: id in moving && id in s.channels ==> target in s.categories && target != gone)
    case RenamingCategory(_, _) => true
  }

  /** At the write, every channel that changes its category, or loses its own, has the same rows before and after. */
  predicate Fair(s: Server, q: Request) {
    match q
    case Renaming(id, _, _, category) =>
      id in s.channels ==> Rows(s, category) == Rows(s, s.channels[id].category)
    case Deleting(gone, moving, target, _) =>
      forall id :: id in s.channels ==> Rows(s, s.channels[id].category) == RowsThen(s, gone, moving, target, id)
    case _ => true
  }

  /** The rows that a channel will have once `gone` and its rows are. */
  function RowsThen(s: Server, gone: string, moving: seq<ChannelId>, target: string, id: ChannelId): map<RoleId, Bits>
    requires id in s.channels
  {
    var category := if id in moving then Some(target) else s.channels[id].category;
    if category == Some(gone) then map[] else Rows(s, category)
  }

  lemma {:induction false} UpdatesKeep(
      a: Alphabet, channels: map<ChannelId, Channel>, moving: seq<ChannelId>, target: string, first: int, n: nat,
      id: ChannelId)
    requires IndexOk(a, channels) && n <= |moving| && MoveUpdates(a, channels, moving, target, first, n).Some?
    ensures var moved := MoveUpdates(a, channels, moving, target, first, n).value;
      && IndexOk(a, moved) && moved.Keys == channels.Keys
      && (id in channels ==>
            moved[id].category == if id in moving[..n] then Some(target) else channels[id].category)
  {
    if n > 0 {
      UpdatesKeep(a, channels, moving, target, first, n - 1, id);
      var before := MoveUpdates(a, channels, moving, target, first, n - 1).value;
      assert moving[..n] == moving[..n - 1] + [moving[n - 1]];
      if moving[n - 1] in before {
        IndexPut(a, before, moving[n - 1],
                 before[moving[n - 1]].(category := Some(target), position := first + n - 1));
      }
    }
  }

  /** The tables after a deletion that goes through, channel by channel. */
  lemma DeletedIs(s: Server, gone: string, moving: seq<ChannelId>, target: string, first: int, id: ChannelId)
    requires Inv(s) && !Fails(s, Deleting(gone, moving, target, first))
    ensures var t := Written(s, Deleting(gone, moving, target, first));
      && t == s.(channels := t.channels, categories := s.categories - {gone}, overrides := s.overrides - {gone})
      && IndexOk(t.alphabet, t.channels) && t.channels.Keys == s.channels.Keys
      && (id in s.channels ==>
            && t.channels[id].category == (if id in moving then Some(target) else s.channels[id].category)
            && Rows(t, t.channels[id].category) == RowsThen(s, gone, moving, target, id))
  {
    UpdatesKeep(s.alphabet, s.channels, moving, target, first, |moving|, id);
    assert moving[..|moving|] == moving;
  }

  lemma DeletedNames(s: Server, gone: string)
    requires NamesOk(s.alphabet, s.categories) && RefsOk(s)
    ensures NamesOk(s.alphabet, s.categories - {gone}) && (s.overrides - {gone}).Keys <= (s.categories - {gone}).Keys
  {
  }

  lemma DeletedExactly(s: Server, gone: string, moving: seq<ChannelId>, target: string, first: int)
    requires Inv(s) && !Fails(s, Deleting(gone, moving, target, first))
    ensures var q := Deleting(gone, moving, target, first);
      && (Inv(Written(s, q)) <==> Sound(s, q))
      && (KeepsRows(s, Written(s, q)) <==> Fair(s, q))
  {
    var q := Deleting(gone, moving, target, first);
    var t := Written(s, q);
    DeletedIs(s, gone, moving, target, first, 0);
    DeletedNames(s, gone);
    forall id | id in s.channels
      ensures id in t.channels
      ensures t.channels[id].category == if id in moving then Some(target) else s.channels[id].category
      ensures Rows(t, t.channels[id].category) == RowsThen(s, gone, moving, target, id)
    {
      DeletedIs(s, gone, moving, target, first, id);
    }
    DeletedSound(s, t, q);
    assert KeepsRows(s, t) <==> Fair(s, q);
  }

  lemma DeletedSound(s: Server, t: Server, q: Request)
    requires RefsOk(s) && q.Deleting? && t.categories == s.categories - {q.gone}
    requires t.channels.Keys == s.channels.Keys
    requires forall id :: id in s.channels ==>
      t.channels[id].category == if id in q.moving then Some(q.target) else s.channels[id].category
    ensures (forall id :: id in t.channels ==> Exists(t, t.channels[id].category)) <==> Sound(s, q)
  {
    if forall id :: id in t.channels ==> Exists(t, t.channels[id].category) {
      forall id | id in s.channels && s.channels[id].category == Some(q.gone)
        ensures id in q.moving
      {
        assert Exists(t, t.channels[id].category);
      }
      forall id | id in q.moving && id in s.channels
        ensures q.target in s.categories && q.target != q.gone
      {
        assert Exists(t, t.channels[id].category);
      }
    }
  }

  lemma RenamedExactly(s: Server, id: ChannelId, name: string, description: Option<string>, category: Option<string>)
    requires Inv(s) && !Fails(s, Renaming(id, name, description, category))
    ensures var q := Renaming(id, name, description, category);
      && (Inv(Written(s, q)) <==> Sound(s, q))
      && (KeepsRows(s, Written(s, q)) <==> Fair(s, q))
  {
    var channel := Rewritten(s.channels[id], name, description, category);
    var t := Written(s, Renaming(id, name, description, category));
    assert t == s.(channels := s.channels[id := channel]);
    IndexPut(s.alphabet, s.channels, id, channel);
    assert t.channels[id].category == category;
  }

  lemma CreatedExactly(s: Server, id: ChannelId, channel: Channel)
    requires Inv(s) && !Fails(s, Creating(id, channel))
    ensures var q := Creating(id, channel);
      (Inv(Written(s, q)) <==> Sound(s, q)) && KeepsRows(s, Written(s, q))
  {
    var placed := channel.(position := NextPosition(PositionsIn(s, channel.category)));
    var t := Written(s, Creating(id, channel));
    assert IndexKey(s.alphabet, placed) == IndexKey(s.alphabet, channel);
    assert t == s.(channels := s.channels[id := placed]);
    assert !Clashes(s.alphabet, s.channels, placed, Some(id));
    IndexPut(s.alphabet, s.channels, id, placed);
    assert t.channels[id].category == channel.category;
  }

  lemma CategoryRenamedKeeps(s: Server, from: string, to: string)
    requires Inv(s) && from in s.categories && !NameTaken(s, from, to) && Trim(to) == to && to != []
    ensures Inv(Renamed(s, from, to)) && KeepsRows(s, Renamed(s, from, to))
  {
    RenamedNames(s.alphabet, s.categories, from, to, s.categories[from]);
    RenamedIndex(s, from, to);
    RenamedRows(s, from, to);
  }

  /** A failed write leaves the tables as they are. */
  lemma FailedIsNothing(s: Server, q: Request)
    requires Fails(s, q)
    ensures Written(s, q) == s
  {
    if q.Creating? {
      var placed := q.channel.(position := NextPosition(PositionsIn(s, q.channel.category)));
      assert IndexKey(s.alphabet, placed) == IndexKey(s.alphabet, q.channel);
    }
  }

  /**
    Whatever others have committed since the check: a write that goes through keeps the invariant exactly
    if it is sound, and every channel's override rows exactly if it is fair.
   */
  lemma WriteExactly(s: Server, q: Request)
    requires Inv(s) && Named(q)
    ensures Inv(Written(s, q)) <==> Fails(s, q) || Sound(s, q)
    ensures KeepsRows(s, Written(s, q)) <==> Fails(s, q) || Fair(s, q)
  {
    if Fails(s, q) {
      FailedIsNothing(s, q);
    } else {
      match q
      case Creating(id, channel) => CreatedExactly(s, id, channel);
      case Renaming(id, name, description, category) => RenamedExactly(s, id, name, description, category);
      case Deleting(gone, moving, target, first) => DeletedExactly(s, gone, moving, target, first);
      case RenamingCategory(from, to) => CategoryRenamedKeeps(s, from, to);
    }
  }

  // ---------- What a check keeps ----------

  /** Nothing but categories without rows were added. */
  ghost predicate Added(s: Server, t: Server) {
    Inv(t) && t == s.(categories := t.categories) && s.categories.Keys <= t.categories.Keys
  }

  lemma EnsureAdds(s: Server, category: string)
    requires Inv(s)
    ensures Added(s, EnsureCategory(s, category).after)
  {
    EnsureKeeps(s, category);
  }

  lemma CheckAdds(s: Server, caller: Caller, c: Call)
    requires Inv(s) && TwoSteps(c)
    ensures Added(s, Check(s, caller, c).0)
  {
    match c
    case CreateChannelCall(_, _, _, category, _) =>
      EnsureAdds(s, if NonBlank(category).Some? then NonBlank(category).value else "General");
    case RenameChannelCall(id, _, _, category) =>
      if id in s.channels {
        var next := if NonBlank(category).Some? then NonBlank(category) else s.channels[id].category;
        if next.Some? {
          EnsureAdds(s, next.value);
        }
      }
    case DeleteCategoryCall(raw, moveTo, _, other) =>
      var target := MoveTarget(Trim(raw), moveTo, other);
      if target.Some? {
        EnsureAdds(s, target.value);
      }
    case RenameCategoryCall(_, _) =>
  }

  lemma AddedKeeps(s: Server, t: Server)
    requires Inv(s) && Added(s, t)
    ensures KeepsRows(s, t)
  {
  }

  /** A valid name is trimmed already once it has been. */
  lemma CheckNames(s: Server, caller: Caller, c: Call)
    requires TwoSteps(c) && Check(s, caller, c).1.Some?
    ensures Named(Check(s, caller, c).1.value)
  {
    if c.RenameCategoryCall? {
      TrimTwice(c.rawNew);
    }
  }

  // ---------- Runs, exactly ----------

  /** The tables are in order and all open requests carry names. */
  ghost predicate RaceInv(s: State) {
    Inv(s.server) && forall r :: r in s.open ==> Named(s.open[r])
  }

  /** The event is a write that goes through though its check no longer holds. */
  ghost predicate Unsound(s: State, e: Event) {
    e.Write? && e.r in s.open && !Fails(s.server, s.open[e.r]) && !Sound(s.server, s.open[e.r])
  }

  lemma StepKeepsExactly(s: State, e: Event, t: State)
    requires RaceInv(s) && Step(s, e, t)
    ensures RaceInv(t) <==> !Unsound(s, e)
  {
    match e
    case Begin(r, caller, c) =>
      CheckAdds(s.server, caller, c);
      if Check(s.server, caller, c).1.Some? {
        CheckNames(s.server, caller, c);
      }
    case Write(r) => WriteExactly(s.server, s.open[r]);
    case Whole(caller, c) => CallKeeps(s.server, caller, c);
    case Drop(_) =>
  }

  lemma RaceStepExactly(states: seq<State>, events: seq<Event>, i: nat)
    requires IsRaceRun(states, events) && i < |events| && RaceInv(states[i])
    ensures RaceInv(states[i + 1]) <==> !Unsound(states[i], events[i])
  {
    assert Step(states[i], events[i], states[i + 1]);
    StepKeepsExactly(states[i], events[i], states[i + 1]);
  }

  ghost predicate AllSound(states: seq<State>, events: seq<Event>, n: nat)
    requires n <= |events| <= |states|
  {
    forall i :: 0 <= i < n ==> !Unsound(states[i], events[i])
  }

  ghost predicate AllKept(states: seq<State>, n: nat)
    requires n < |states|
  {
    forall i :: 0 <= i <= n ==> RaceInv(states[i])
  }

  lemma {:induction false} KeptWhileSound(states: seq<State>, events: seq<Event>, n: nat)
    requires IsRaceRun(states, events) && n <= |events| && RaceInv(states[0]) && AllSound(states, events, n)
    ensures RaceInv(states[n])
  {
    if n > 0 {
      KeptWhileSound(states, events, n - 1);
      RaceStepExactly(states, events, n - 1);
    }
  }

  /** Over any interleaving the tables stay in order exactly if every write that goes through is sound. */
  lemma RacesKeepExactly(states: seq<State>, events: seq<Event>, n: nat)
    requires IsRaceRun(states, events) && n <= |events| && RaceInv(states[0])
    ensures AllKept(states, n) <==> AllSound(states, events, n)
  {
    if AllSound(states, events, n) {
      forall i | 0 <= i <= n
        ensures RaceInv(states[i])
      {
        KeptWhileSound(states, events, i);
      }
    }
    if AllKept(states, n) {
      forall i | 0 <= i < n
        ensures !Unsound(states[i], events[i])
      {
        RaceStepExactly(states, events, i);
      }
    }
  }
}
