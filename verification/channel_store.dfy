/** Positions of ordered rows. */
module Positions {
  predicate IsTop(m: int, xs: set<int>) {
    m in xs && forall y :: y in xs ==> y <= m
  }

  lemma {:induction false} TopExists(xs: set<int>, x: int)
    requires x in xs
    ensures exists m :: IsTop(m, xs)
    decreases xs
  {
    if IsTop(x, xs) {
    } else {
      var y :| y in xs && y > x;
      TopExists(xs - {x}, y);
      var m :| IsTop(m, xs - {x});
      forall z | z in xs
        ensures z <= m
      {
        assert y in xs - {x};
        assert z == x || z in xs - {x};
      }
      assert IsTop(m, xs);
    }
  }

  /** `MAX(position) + 1`, and 0 for no rows. */
  function NextPosition(xs: set<int>): (n: int)
    ensures forall y :: y in xs ==> y < n
  {
    if x :| x in xs then
      TopExists(xs, x);
      var m :| IsTop(m, xs);
      m + 1
    else 0
  }
}

/**
  The channel and category tables of one server and what each handler of
  apps/server/src/routes/channels.rs does to them. Categories are keyed by name, permission overrides
  by category name, and channels point at categories by name.
 */
module ChannelStore {
  import opened Options
  import opened ChannelNames
  import opened Positions

  type ChannelId = nat
  type RoleId = nat
  type UserId = nat

  const MAX_CHANNELS := 500

  datatype Kind = TextChannel | VoiceChannel

  datatype Channel = Channel(
    name: string, description: Option<string>, kind: Kind, category: Option<string>, position: int)

  datatype Bits = Bits(allow: int, deny: int)

  /**
    One server's rows: category positions, channels, and role overrides by category name. The alphabet
    is the database's and the program's, and no call changes it.
   */
  datatype Server = Server(
    alphabet: Alphabet, owner: UserId, roles: set<RoleId>,
    categories: map<string, int>, channels: map<ChannelId, Channel>,
    overrides: map<string, map<RoleId, Bits>>)

  datatype Error = Validation | NotFound | Forbidden | UniqueIndex

  datatype Result<+T> = Ok(value: T) | Err(error: Error)

  datatype Outcome<+T> = Outcome(after: Server, result: Result<T>)

  datatype Access = Hidden | ViewOnly | Manageable

  /**
    Who asks. Permission bits are left open: whether the caller manages channels in the server, what
    a category lets them do, and which channels they manage.
   */
  datatype Caller = Caller(id: UserId, manages: bool, access: string -> Access, channel: ChannelId -> bool)

  // ---------- Lookups ----------

  /** `SELECT name ... WHERE LOWER(name) = LOWER($2) LIMIT 1`. */
  ghost function Canonical(s: Server, name: string): Option<string> {
    if exists n :: n in s.categories && Lower(s.alphabet, n) == Lower(s.alphabet, name) then
      var n :| n in s.categories && Lower(s.alphabet, n) == Lower(s.alphabet, name); Some(n)
    else None
  }

  /** The override rows that apply to a category, by its exact name. */
  function Rows(s: Server, category: Option<string>): map<RoleId, Bits> {
    if category.Some? && category.value in s.overrides then s.overrides[category.value] else map[]
  }

  function NonBlank(name: Option<string>): Option<string> {
    if name.Some? && Trim(name.value) != [] then Some(Trim(name.value)) else None
  }

  /** `category_override_rows`: the rows of the existing category a name resolves to. */
  ghost function OverrideRows(s: Server, category: Option<string>): map<RoleId, Bits> {
    var name := NonBlank(category);
    if name.None? then map[]
    else
      var canonical := Canonical(s, name.value);
      Rows(s, if canonical.Some? then canonical else name)
  }

  /** `ensure_category_move_allowed`: to a category with other overrides only the owner may move. */
  ghost predicate MoveAllowed(s: Server, caller: Caller, from: Option<string>, to: Option<string>) {
    || NonBlank(from) == NonBlank(to)
    || OverrideRows(s, from) == OverrideRows(s, to)
    || caller.id == s.owner
  }

  /** `ensure_category_manageable`: a hidden category looks missing. */
  ghost function Manage(s: Server, caller: Caller, category: string): Option<Error> {
    var canonical := Canonical(s, Trim(category));
    match caller.access(if canonical.Some? then canonical.value else category)
    case Hidden => Some(NotFound)
    case ViewOnly => Some(Forbidden)
    case Manageable => None
  }

  function PositionsIn(s: Server, category: Option<string>): set<int> {
    set id | id in s.channels && s.channels[id].category == category :: s.channels[id].position
  }

  /** `ensure_category_exists`: the existing name, or a new category after all others. */
  ghost function EnsureCategory(s: Server, category: string): Outcome<string> {
    var name := Trim(category);
    if !ValidName(s.alphabet, name) then Refused(s, Validation)
    else
      match Canonical(s, name)
      case Some(existing) => Outcome(s, Ok(existing))
      case None =>
        Outcome(s.(categories := s.categories[name := NextPosition(s.categories.Values)]), Ok(name))
  }

  /** The key of the unique index on channels: lowered category, type and lowered name. */
  function IndexKey(a: Alphabet, c: Channel): (string, Kind, string) {
    (if c.category.Some? then Lower(a, c.category.value) else [], c.kind, Lower(a, c.name))
  }

  /** `ensure_channel_name_unique`, and what the unique index refuses. */
  predicate Clashes(a: Alphabet, channels: map<ChannelId, Channel>, c: Channel, except: Option<ChannelId>) {
    exists id :: id in channels && Some(id) != except && IndexKey(a, channels[id]) == IndexKey(a, c)
  }

  function Describe(raw: Option<string>): Result<Option<string>> {
    var text := NonBlank(raw);
    if text.Some? && |text.value| > MAX_DESCRIPTION_CHARS then Err(Validation) else Ok(text)
  }

  // ---------- Handlers ----------

  function Refused<T>(s: Server, e: Error): Outcome<T> {
    Outcome(s, Err(e))
  }

  ghost function CreateChannel(
      s: Server, caller: Caller, id: ChannelId, name: string, kind: Kind, category: Option<string>,
      description: Option<string>): Outcome<Channel>
  {
    var wanted := if NonBlank(category).Some? then NonBlank(category).value else "General";
    if !caller.manages then Refused(s, Forbidden)
    else if !ValidName(s.alphabet, Trim(name)) || Describe(description).Err? then Refused(s, Validation)
    else if Manage(s, caller, wanted).Some? then Refused(s, Manage(s, caller, wanted).value)
    else
      Insert(EnsureCategory(s, wanted), id, Channel(Trim(name), Describe(description).value, kind, None, 0))
  }

  /** Inserts the channel last in its ensured category, up to 500 channels. */
  function Insert(ensured: Outcome<string>, id: ChannelId, channel: Channel): Outcome<Channel> {
    if ensured.result.Err? then Refused(ensured.after, ensured.result.error)
    else
      var t, place := ensured.after, Some(ensured.result.value);
      var placed := channel.(category := place, position := NextPosition(PositionsIn(t, place)));
      if Clashes(t.alphabet, t.channels, placed, None) || |t.channels| >= MAX_CHANNELS then Refused(t, Validation)
      else Outcome(t.(channels := t.channels[id := placed]), Ok(placed))
  }

  ghost function DeleteChannel(s: Server, caller: Caller, id: ChannelId): Outcome<()> {
    if id !in s.channels then Refused(s, NotFound)
    else if !caller.channel(id) then Refused(s, Forbidden)
    else if s.channels[id].kind.TextChannel?
            && (forall o :: o in s.channels && s.channels[o].kind.TextChannel? ==> o == id) then
      Refused(s, Validation)
    else Outcome(s.(channels := s.channels - {id}), Ok(()))
  }

  ghost function RenameChannel(
      s: Server, caller: Caller, id: ChannelId, name: string, description: Option<string>,
      category: Option<string>): Outcome<Channel>
  {
    if id !in s.channels then Refused(s, NotFound)
    else if !caller.channel(id) then Refused(s, Forbidden)
    else
      var channel := s.channels[id];
      var next := if NonBlank(category).Some? then NonBlank(category) else channel.category;
      if (Trim(name) != Trim(channel.name) && !ValidName(s.alphabet, Trim(name))) || Describe(description).Err? then
        Refused(s, Validation)
      else if !MoveAllowed(s, caller, channel.category, next) then Refused(s, Forbidden)
      else
        var renamed := channel.(name := Trim(name), description := Describe(description).value);
        if next.None? then Rewrite(s, id, renamed)
        else if next != channel.category && Manage(s, caller, next.value).Some? then
          Refused(s, Manage(s, caller, next.value).value)
        else RewriteIn(EnsureCategory(s, next.value), id, renamed)
  }

  function Rewrite(s: Server, id: ChannelId, channel: Channel): Outcome<Channel> {
    if Clashes(s.alphabet, s.channels, channel, Some(id)) then Refused(s, Validation)
    else Outcome(s.(channels := s.channels[id := channel]), Ok(channel))
  }

  function RewriteIn(ensured: Outcome<string>, id: ChannelId, channel: Channel): Outcome<Channel> {
    if ensured.result.Err? then Refused(ensured.after, ensured.result.error)
    else Rewrite(ensured.after, id, channel.(category := Some(ensured.result.value)))
  }

  ghost function CreateCategory(s: Server, caller: Caller, name: string): Outcome<string> {
    if !caller.manages then Refused(s, Forbidden)
    else if !ValidName(s.alphabet, Trim(name)) || Canonical(s, Trim(name)).Some? then Refused(s, Validation)
    else EnsureCategory(s, Trim(name))
  }

  /** `moving` lists the channels of the category `ORDER BY position`. */
  ghost predicate Listing(s: Server, category: string, moving: seq<ChannelId>) {
    && (forall id :: id in moving <==> id in s.channels && s.channels[id].category == Some(category))
    && (forall i, j :: 0 <= i < j < |moving| ==> moving[i] != moving[j])
    && (forall i, j :: 0 <= i < j < |moving| && moving[i] in s.channels && moving[j] in s.channels ==>
          s.channels[moving[i]].position <= s.channels[moving[j]].position)
  }

  /** The target of a deletion that has channels to move, or None if there is none. */
  function MoveTarget(category: string, moveTo: Option<string>, other: Option<string>): Option<string> {
    var asked := NonBlank(moveTo);
    var target := if asked.Some? && !SameAscii(asked.value, category) then asked.value else "General";
    if SameAscii(target, category) then other else Some(target)
  }

  /** `other` is a category of another name, the first by position, if there is one. */
  ghost predicate Alternative(s: Server, category: string, other: Option<string>) {
    match other
    case Some(n) =>
      && n in s.categories && Lower(s.alphabet, n) != Lower(s.alphabet, category)
      && forall m :: m in s.categories && Lower(s.alphabet, m) != Lower(s.alphabet, category) ==>
           s.categories[n] <= s.categories[m]
    case None => forall m :: m in s.categories ==> Lower(s.alphabet, m) == Lower(s.alphabet, category)
  }

  /** The channels after those in `moving` went to `target`, from position `first` on. */
  function Moved(channels: map<ChannelId, Channel>, moving: seq<ChannelId>, target: string, first: int)
    : map<ChannelId, Channel>
  {
    if moving == [] then channels
    else
      var before := Moved(channels, moving[..|moving| - 1], target, first);
      var id := moving[|moving| - 1];
      if id in before then
        before[id := before[id].(category := Some(target), position := first + |moving| - 1)]
      else before
  }

  function DropCategory(s: Server, category: string): Server {
    s.(categories := s.categories - {category}, overrides := s.overrides - {category})
  }

  ghost function DeleteCategory(
      s: Server, caller: Caller, raw: string, moveTo: Option<string>, moving: seq<ChannelId>,
      other: Option<string>): Outcome<()>
  {
    var category := Trim(raw);
    if !caller.manages then Refused(s, Forbidden)
    else if category == [] then Refused(s, Validation)
    else if Manage(s, caller, category).Some? then Refused(s, Manage(s, caller, category).value)
    else if moving == [] then
      if OverrideRows(s, Some(category)) != map[] && caller.id != s.owner then Refused(s, Forbidden)
      else Outcome(DropCategory(s, category), Ok(()))
    else
      var target := MoveTarget(category, moveTo, other);
      if target.None? then Refused(s, Validation)
      else if !MoveAllowed(s, caller, Some(category), target) then Refused(s, Forbidden)
      else if Manage(s, caller, target.value).Some? then Refused(s, Manage(s, caller, target.value).value)
      else MoveOut(EnsureCategory(s, target.value), category, moving)
  }

  /** Some channel of `moving` would meet the unique index in the target category. */
  predicate MoveClashes(a: Alphabet, channels: map<ChannelId, Channel>, moving: seq<ChannelId>, target: string) {
    exists id {:trigger id in moving} :: id in moving && id in channels
      && Clashes(a, channels, channels[id].(category := Some(target)), Some(id))
  }

  /** Moves the channels after the last one of the ensured category, then drops theirs. */
  function MoveOut(ensured: Outcome<string>, category: string, moving: seq<ChannelId>): Outcome<()> {
    if ensured.result.Err? then Refused(ensured.after, ensured.result.error)
    else
      var t, target := ensured.after, ensured.result.value;
      if MoveClashes(t.alphabet, t.channels, moving, target) then Refused(t, UniqueIndex)
      else
        var first := NextPosition(PositionsIn(t, Some(target)));
        Outcome(DropCategory(t.(channels := Moved(t.channels, moving, target, first)), category), Ok(()))
  }

  ghost function RenameCategory(s: Server, caller: Caller, raw: string, rawNew: string): Outcome<string> {
    var oldName, newName := Trim(raw), Trim(rawNew);
    if !caller.manages then Refused(s, Forbidden)
    else if oldName == [] then Refused(s, Validation)
    else if Manage(s, caller, oldName).Some? then Refused(s, Manage(s, caller, oldName).value)
    else if !ValidName(s.alphabet, newName) then Refused(s, Validation)
    else if newName == oldName then Outcome(s, Ok(newName))
    else if oldName !in s.categories then Refused(s, NotFound)
    else if exists n :: n in s.categories && Lower(s.alphabet, n) == Lower(s.alphabet, newName) && n != oldName then
      Refused(s, Validation)
    else Outcome(Renamed(s, oldName, newName), Ok(newName))
  }

  /** The three updates of a rename: the category row, the channels in it, its overrides. */
  ghost function Renamed(s: Server, oldName: string, newName: string): Server
    requires oldName in s.categories
  {
    Server(
      s.alphabet, s.owner, s.roles,
      (s.categories - {oldName})[newName := s.categories[oldName]],
      map id | id in s.channels ::
        if s.channels[id].category == Some(oldName) then s.channels[id].(category := Some(newName)) else s.channels[id],
      if oldName in s.overrides then (s.overrides - {oldName})[newName := s.overrides[oldName]] else s.overrides)
  }

  ghost function SetOverride(
      s: Server, caller: Caller, raw: string, role: RoleId, bits: Bits, bitsOk: bool): Outcome<()>
  {
    if caller.id != s.owner then Refused(s, Forbidden)
    else if !bitsOk || Trim(raw) == [] then Refused(s, Validation)
    else Upsert(EnsureCategory(s, Trim(raw)), role, bits)
  }

  function Upsert(ensured: Outcome<string>, role: RoleId, bits: Bits): Outcome<()> {
    if ensured.result.Err? then Refused(ensured.after, ensured.result.error)
    else
      var t, name := ensured.after, ensured.result.value;
      if role !in t.roles then Refused(t, NotFound)
      else Outcome(t.(overrides := t.overrides[name := Rows(t, Some(name))[role := bits]]), Ok(()))
  }

  ghost function DropOverride(s: Server, caller: Caller, raw: string, role: RoleId): Outcome<()> {
    if caller.id != s.owner then Refused(s, Forbidden)
    else if Trim(raw) == [] then Refused(s, Validation)
    else if Trim(raw) in s.overrides then
      Outcome(s.(overrides := s.overrides[Trim(raw) := s.overrides[Trim(raw)] - {role}]), Ok(()))
    else Outcome(s, Ok(()))
  }
}
