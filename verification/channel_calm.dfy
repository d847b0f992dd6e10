/**
  Overlapping calls to the channel handlers that keep out of each other's way, and two that do not: when a
  check still holds at its write, and a run in which a channel loses its override rows.
 */
module ChannelCalm {
  import opened Options
  import opened ChannelNames
  import opened Positions
  import opened ChannelStore
  import opened ChannelReorder
  import opened ChannelSafety
  import opened ChannelRaces

  /** What a check by someone who is not the owner has seen, as long as it holds. */
  ghost predicate Ready(s: Server, q: Request) {
    Sound(s, q) && Fair(s, q)
  }

  ghost predicate AllReady(s: State) {
    && RaceInv(s) && (forall r :: r in s.open ==> Ready(s.server, s.open[r]))
    && (forall r :: r in s.open && s.open[r].Creating? ==> s.open[r].id !in s.server.channels)
    && (forall r, p {:trigger s.open[r], s.open[p]} ::
          r in s.open && p in s.open && r != p && s.open[r].Creating? ==> !Concerns(s.open[p], s.open[r].id))
  }

  /** A channel that goes to an ensured category with the rows it has. */
  lemma RenamedReady(
      s: Server, asked: string, id: ChannelId, name: string, description: Option<string>)
    requires Inv(s) && id in s.channels && EnsureCategory(s, asked).result.Ok?
    requires OverrideRows(s, Some(asked)) == Rows(s, s.channels[id].category)
    ensures var o := EnsureCategory(s, asked); Ready(o.after, Renaming(id, name, description, Some(o.result.value)))
  {
    EnsureKeeps(s, asked);
  }

  lemma MovesToEqualRows(s: Server, caller: Caller, id: ChannelId, category: Option<string>)
    requires Inv(s) && caller.id != s.owner && id in s.channels
    ensures var from := s.channels[id].category;
      var next := if NonBlank(category).Some? then NonBlank(category) else from;
      MoveAllowed(s, caller, from, next) ==> OverrideRows(s, next) == Rows(s, from)
  {
    RowsOfExisting(s, s.channels[id].category);
    NonBlankTwice(category);
  }

  lemma RenameReady(
      s: Server, caller: Caller, id: ChannelId, name: string, description: Option<string>,
      category: Option<string>)
    requires Inv(s) && caller.id != s.owner && CheckRename(s, caller, id, name, description, category).1.Some?
    ensures var (after, q) := CheckRename(s, caller, id, name, description, category); Ready(after, q.value)
  {
    var from := s.channels[id].category;
    var next := if NonBlank(category).Some? then NonBlank(category) else from;
    MovesToEqualRows(s, caller, id, category);
    if next.Some? {
      RenamedReady(s, next.value, id, Trim(name), Describe(description).value);
    }
  }

  lemma CreateReady(
      s: Server, caller: Caller, id: ChannelId, name: string, kind: Kind, category: Option<string>,
      description: Option<string>)
    requires Inv(s) && CheckCreate(s, caller, id, name, kind, category, description).1.Some?
    ensures var (after, q) := CheckCreate(s, caller, id, name, kind, category, description); Ready(after, q.value)
  {
    EnsureKeeps(s, if NonBlank(category).Some? then NonBlank(category).value else "General");
  }

  /** A move to an ensured category of another name and equal rows. */
  lemma MoveReady(s: Server, category: string, asked: string, moving: seq<ChannelId>, first: int)
    requires Inv(s) && Listing(s, category, moving) && moving != [] && EnsureCategory(s, asked).result.Ok?
    requires Lower(s.alphabet, Trim(asked)) != Lower(s.alphabet, category)
    requires OverrideRows(s, Some(asked)) == Rows(s, Some(category))
    ensures var o := EnsureCategory(s, asked); Ready(o.after, Deleting(category, moving, o.result.value, first))
  {
    EnsureKeeps(s, asked);
    var o := EnsureCategory(s, asked);
    assert o.result.value != category && o.result.value in o.after.categories;
    assert o.after.channels == s.channels && o.after.overrides == s.overrides;
  }

  lemma DropReady(s: Server, category: string, moving: seq<ChannelId>, first: int)
    requires Listing(s, category, moving) && moving == []
    ensures Ready(s, Deleting(category, [], [], first))
  {
    forall id | id in s.channels
      ensures s.channels[id].category != Some(category)
    {
      assert id !in moving;
    }
  }

  lemma DeleteReady(
      s: Server, caller: Caller, raw: string, moveTo: Option<string>, moving: seq<ChannelId>,
      other: Option<string>)
    requires Inv(s) && caller.id != s.owner && Listing(s, Trim(raw), moving) && Alternative(s, Trim(raw), other)
    requires !MovesIntoItself(s, Trim(raw), moveTo, moving, other)
    requires CheckDelete(s, caller, raw, moveTo, moving, other).1.Some?
    ensures var (after, q) := CheckDelete(s, caller, raw, moveTo, moving, other); Ready(after, q.value)
  {
    var category, target := Trim(raw), MoveTarget(Trim(raw), moveTo, other);
    if moving != [] {
      EqualRows(s, caller, category, target, moveTo, moving, other);
      var o := EnsureCategory(s, target.value);
      MoveReady(s, category, target.value, moving, NextPosition(PositionsIn(s, Some(o.result.value))));
    } else {
      DropReady(s, category, moving, 0);
    }
  }

  /** Someone who is not the owner moves channels between equal rows only. */
  lemma EqualRows(
      s: Server, caller: Caller, category: string, target: Option<string>, moveTo: Option<string>,
      moving: seq<ChannelId>, other: Option<string>)
    requires Inv(s) && caller.id != s.owner && Listing(s, category, moving) && moving != []
    requires Alternative(s, category, other) && target == MoveTarget(category, moveTo, other) && target.Some?
    requires MoveAllowed(s, caller, Some(category), target)
    requires Lower(s.alphabet, target.value) != Lower(s.alphabet, category)
    ensures Trim(target.value) == target.value && OverrideRows(s, target) == Rows(s, Some(category))
  {
    assert moving[0] in moving;
    RowsOfExisting(s, Some(category));
    MoveTargetTrimmed(s, category, moveTo, other);
  }

  /** A check by someone who is not the owner leaves its request ready to be written. */
  lemma CheckReady(s: Server, caller: Caller, c: Call)
    requires Inv(s) && TwoSteps(c) && Possible(s, c) && caller.id != s.owner && Check(s, caller, c).1.Some?
    requires c.DeleteCategoryCall? ==> !MovesIntoItself(s, Trim(c.raw), c.moveTo, c.moving, c.other)
    ensures Ready(Check(s, caller, c).0, Check(s, caller, c).1.value)
  {
    match c
    case CreateChannelCall(id, name, kind, category, description) =>
      CreateReady(s, caller, id, name, kind, category, description);
    case RenameChannelCall(id, name, description, category) =>
      RenameReady(s, caller, id, name, description, category);
    case DeleteCategoryCall(raw, moveTo, moving, other) => DeleteReady(s, caller, raw, moveTo, moving, other);
    case RenameCategoryCall(_, _) =>
  }

  /** The tables lose no category and no row, and every channel left is where it was. */
  ghost predicate Gentle(s: Server, t: Server) {
    && t.overrides == s.overrides && s.categories.Keys <= t.categories.Keys && t.channels.Keys <= s.channels.Keys
    && forall id :: id in t.channels ==> t.channels[id].category == s.channels[id].category
  }

  lemma GentleReady(s: Server, t: Server, q: Request)
    requires Ready(s, q) && Gentle(s, t)
    ensures Ready(t, q)
  {
  }

  lemma WholeIsGentle(s: Server, caller: Caller, c: Call)
    requires Inv(s) && !TwoSteps(c) && Possible(s, c) && caller.id != s.owner
    ensures Gentle(s, After(s, caller, c)) && After(s, caller, c).owner == s.owner
  {
    match c
    case CreateCategoryCall(name) => EnsureAdds(s, Trim(name));
    case ReorderCategoriesCall(names, existing) =>
      if Accepted(caller, existing, names) {
        AcceptedReorder(s, caller, names, existing);
      }
    case ReorderChannelsCall(ids) => RankedKeepsRest(s.channels, ids, |ids|);
    case _ =>
  }

  /** A fair write of a channel leaves other creations and renames ready. */
  lemma ChannelWriteReady(s: Server, w: Request, q: Request)
    requires Inv(s) && Named(w) && Ready(s, w) && (w.Creating? || w.Renaming?) && Ready(s, q) && !q.Deleting?
    requires w.Creating? ==> !Concerns(q, w.id)
    ensures Ready(Written(s, w), q)
  {
    WriteExactly(s, w);
    var t := Written(s, w);
    assert t.categories == s.categories && t.overrides == s.overrides;
    if q.Renaming? && q.id in t.channels {
      assert q.id in s.channels;
      assert Rows(t, t.channels[q.id].category) == Rows(s, s.channels[q.id].category);
    }
  }

  /**
    While a deletion of a category is open nobody writes a channel, and while anyone is about to write a
    channel nobody deletes or renames a category; nobody is the owner, and no deletion is into itself.
   */
  ghost predicate Calm(s: State, e: Event) {
    match e
    case Begin(_, caller, c) =>
      && caller.id != s.server.owner
      && (c.DeleteCategoryCall? ==> !MovesIntoItself(s.server, Trim(c.raw), c.moveTo, c.moving, c.other))
    case Whole(caller, _) => caller.id != s.server.owner
    case Write(r) =>
      r in s.open ==>
        forall p :: p in s.open && p != r ==>
          s.open[p].RenamingCategory?
          || (!s.open[p].Deleting? && (s.open[r].Creating? || s.open[r].Renaming?))
    case Drop(_) => true
  }

  lemma BeginKeepsReady(s: State, e: Event, t: State)
    requires AllReady(s) && Step(s, e, t) && e.Begin? && Calm(s, e)
    ensures AllReady(t) && KeepsRows(s.server, t.server)
  {
    CheckAdds(s.server, e.caller, e.call);
    AddedKeeps(s.server, t.server);
    StepKeepsExactly(s, e, t);
    var q := Check(s.server, e.caller, e.call).1;
    if q.Some? {
      CheckReady(s.server, e.caller, e.call);
      CheckConcerns(s.server, e.caller, e.call);
    }
    forall r | r in s.open
      ensures Ready(t.server, s.open[r])
    {
      GentleReady(s.server, t.server, s.open[r]);
    }
  }

  /** What a request concerns is there at its check, unless it is to be created. */
  lemma CheckConcerns(s: Server, caller: Caller, c: Call)
    requires TwoSteps(c) && Possible(s, c) && Check(s, caller, c).1.Some?
    ensures var q := Check(s, caller, c).1.value;
      if q.Creating? then c.CreateChannelCall? && q.id == c.id && q.id !in s.channels
      else forall id :: Concerns(q, id) ==> id in s.channels
  {
  }

  lemma WriteKeepsReady(s: State, e: Event, t: State)
    requires AllReady(s) && Step(s, e, t) && e.Write? && Calm(s, e)
    ensures AllReady(t) && KeepsRows(s.server, t.server)
  {
    var w := s.open[e.r];
    WriteExactly(s.server, w);
    StepKeepsExactly(s, e, t);
    forall p | p in t.open
      ensures Ready(t.server, t.open[p])
    {
      assert p in s.open && p != e.r;
      if !s.open[p].RenamingCategory? {
        ChannelWriteReady(s.server, w, s.open[p]);
      }
    }
    WrittenChannels(s.server, w);
  }

  lemma WrittenChannels(s: Server, w: Request)
    requires Inv(s)
    ensures forall id :: id in Written(s, w).channels ==> id in s.channels || (w.Creating? && id == w.id)
  {
    if w.Deleting? && !Fails(s, w) {
      DeletedIs(s, w.gone, w.moving, w.target, w.first, 0);
    }
  }

  lemma CalmStep(s: State, e: Event, t: State)
    requires AllReady(s) && Step(s, e, t) && Calm(s, e)
    ensures AllReady(t) && KeepsRows(s.server, t.server)
  {
    match e
    case Begin(_, _, _) => BeginKeepsReady(s, e, t);
    case Write(_) => WriteKeepsReady(s, e, t);
    case Whole(caller, c) => WholeKeepsReady(s, caller, c, t);
    case Drop(_) =>
  }

  lemma WholeKeepsReady(s: State, caller: Caller, c: Call, t: State)
    requires AllReady(s) && Step(s, Whole(caller, c), t) && caller.id != s.server.owner
    ensures AllReady(t) && KeepsRows(s.server, t.server)
  {
    CallKeeps(s.server, caller, c);
    WholeIsGentle(s.server, caller, c);
    forall r | r in s.open
      ensures Ready(t.server, s.open[r])
    {
      GentleReady(s.server, t.server, s.open[r]);
    }
  }

  /**
    In every run in which requests keep out of each other's way like this, a channel that is never
    deleted keeps the override rows it started under, however checks and writes interleave.
   */
  lemma {:induction false} CalmRacesKeepOverrides(states: seq<State>, events: seq<Event>, id: ChannelId, n: nat)
    requires IsRaceRun(states, events) && n <= |events| && AllReady(states[0])
    requires forall i :: 0 <= i < n ==> Calm(states[i], events[i])
    requires forall i :: 0 <= i <= n ==> id in states[i].server.channels
    ensures AllReady(states[n])
    ensures var first, last := states[0].server, states[n].server;
      Rows(last, last.channels[id].category) == Rows(first, first.channels[id].category)
  {
    if n > 0 {
      CalmRacesKeepOverrides(states, events, id, n - 1);
      assert Step(states[n - 1], events[n - 1], states[n]) && Calm(states[n - 1], events[n - 1]);
      CalmStep(states[n - 1], events[n - 1], states[n]);
      assert id in states[n - 1].server.channels && id in states[n].server.channels;
    }
  }

  // ---------- A rename that meets a deletion ----------

  const RULE := map[7 := Bits(0, 1)]

  /** Two categories with the same rule and a channel in each. */
  const TWINS := Server(
    LATIN, 1, {7}, map["a" := 0, "b" := 1],
    map[0 := Channel("x", None, TextChannel, Some("a"), 0), 1 := Channel("y", None, TextChannel, Some("b"), 0)],
    map["a" := RULE, "b" := RULE])

  /** One manager moves channel 0 to "b"; another deletes "b" and moves its channel to "a". */
  const TO_B := RenameChannelCall(0, "x", None, Some("b"))
  const DELETE_B := DeleteCategoryCall("b", Some("a"), [1], Some("a"))

  const RENAMING := Renaming(0, "x", None, Some("b"))
  const DELETING := Deleting("b", [1], "a", NextPosition(PositionsIn(TWINS, Some("a"))))

  lemma Letters()
    ensures Trim("a") == "a" && Trim("b") == "b" && Trim("x") == "x"
    ensures Lower(LATIN, "a") == "a" && Lower(LATIN, "b") == "b" && Lower(LATIN, "x") == "x" && Lower(LATIN, "y") == "y"
    ensures !SameAscii("a", "b") && ValidName(LATIN, "a") && ValidName(LATIN, "b")
  {
    assert "a"[1..] == [] && "b"[1..] == [] && "x"[1..] == [] && "y"[1..] == [];
    assert FoldAscii("a")[0] == 'a' && FoldAscii("b")[0] == 'b';
  }

  lemma TwinNames()
    ensures NamesOk(LATIN, TWINS.categories) && RefsOk(TWINS)
  {
    Letters();
    forall n | n in TWINS.categories
      ensures n == "a" || n == "b"
    {
    }
  }

  lemma TwinKeys()
    ensures TWINS.channels.Keys == {0, 1}
    ensures IndexKey(LATIN, TWINS.channels[0]) == ("a", TextChannel, "x")
    ensures IndexKey(LATIN, TWINS.channels[1]) == ("b", TextChannel, "y")
  {
    Letters();
    assert TWINS.channels[0] == Channel("x", None, TextChannel, Some("a"), 0);
    assert TWINS.channels[1] == Channel("y", None, TextChannel, Some("b"), 0);
  }

  lemma TwinIndex()
    ensures IndexOk(LATIN, TWINS.channels)
  {
    TwinKeys();
    assert "a" != "b" by {
      assert "a"[0] != "b"[0];
    }
    forall i, j | i in TWINS.channels && j in TWINS.channels && i != j
      ensures IndexKey(LATIN, TWINS.channels[i]) != IndexKey(LATIN, TWINS.channels[j])
    {
      assert i in {0, 1} && j in {0, 1};
    }
  }

  lemma TwinsOk()
    ensures Inv(TWINS) && Canonical(TWINS, "a") == Some("a") && Canonical(TWINS, "b") == Some("b")
  {
    TwinNames();
    TwinIndex();
    CanonicalOfExisting(TWINS, "a");
    CanonicalOfExisting(TWINS, "b");
  }

  lemma TwinListed()
    ensures Listing(TWINS, "b", [1]) && Alternative(TWINS, "b", Some("a"))
  {
    Letters();
    TwinKeys();
    assert TWINS.channels[0].category == Some("a") && TWINS.channels[1].category == Some("b");
    assert "a"[0] != "b"[0];
    forall id
      ensures id in [1] <==> id in TWINS.channels && TWINS.channels[id].category == Some("b")
    {
      assert id in TWINS.channels ==> id in {0, 1};
    }
  }

  lemma RenameFree()
    ensures Rewritten(TWINS.channels[0], "x", None, Some("b")) == Channel("x", None, TextChannel, Some("b"), 0)
    ensures CheckedRename(TWINS, 0, "x", None, Some("b")) == Some(RENAMING)
  {
    Letters();
    TwinKeys();
    assert TWINS.channels[0] == Channel("x", None, TextChannel, Some("a"), 0);
    var channel := Channel("x", None, TextChannel, Some("b"), 0);
    assert IndexKey(LATIN, channel) == ("b", TextChannel, "x");
    assert "x"[0] != "y"[0];
    forall id | id in TWINS.channels && id != 0
      ensures IndexKey(LATIN, TWINS.channels[id]) != IndexKey(LATIN, channel)
    {
      assert id in {0, 1};
    }
  }

  lemma NamesPlain()
    ensures NonBlank(Some("b")) == Some("b") && NonBlank(Some("a")) == Some("a")
    ensures Describe(None) == Ok(None)
  {
    Letters();
  }

  lemma TwinMoves()
    ensures OverrideRows(TWINS, Some("a")) == RULE && OverrideRows(TWINS, Some("b")) == RULE
    ensures Manage(TWINS, MANAGER, "a").None? && Manage(TWINS, MANAGER, "b").None?
    ensures EnsureCategory(TWINS, "a") == Outcome(TWINS, Ok("a"))
    ensures EnsureCategory(TWINS, "b") == Outcome(TWINS, Ok("b"))
  {
    Letters();
    NamesPlain();
    TwinsOk();
  }

  lemma RenameChecked()
    ensures CheckRename(TWINS, MANAGER, 0, "x", None, Some("b")) == (TWINS, Some(RENAMING))
  {
    Letters();
    NamesPlain();
    TwinMoves();
    RenameFree();
    assert TWINS.channels[0] == Channel("x", None, TextChannel, Some("a"), 0);
  }

  lemma DeleteChecked()
    ensures CheckDelete(TWINS, MANAGER, "b", Some("a"), [1], Some("a")) == (TWINS, Some(DELETING))
  {
    Letters();
    NamesPlain();
    TwinMoves();
    assert MoveTarget("b", Some("a"), Some("a")) == Some("a");
  }

  lemma DeletionGoesThrough()
    ensures !Fails(TWINS, DELETING) && Ready(TWINS, DELETING)
  {
    Letters();
    TwinKeys();
    assert TWINS.channels[0].category == Some("a") && TWINS.channels[1].category == Some("b");
    var moved := TWINS.channels[1].(category := Some("a"), position := DELETING.first);
    assert IndexKey(LATIN, moved) == ("a", TextChannel, "y") && "x"[0] != "y"[0] && "a"[0] != "b"[0];
    assert !Clashes(LATIN, TWINS.channels, moved, Some(1)) by {
      assert forall id :: id in TWINS.channels ==> id in {0, 1};
    }
    assert MoveUpdates(LATIN, TWINS.channels, [1], "a", DELETING.first, 0) == Some(TWINS.channels);
    assert forall id :: id in TWINS.channels ==> id in {0, 1};
  }

  /** After the deletion: "b" is gone and both channels are in "a". */
  lemma DeletionLeaves()
    ensures var t := Written(TWINS, DELETING);
      && Inv(t) && t.alphabet == LATIN && t.categories == map["a" := 0] && t.overrides == map["a" := RULE]
      && t.channels.Keys == {0, 1} && t.channels[0].category == Some("a") && t.channels[1].category == Some("a")
  {
    TwinsOk();
    DeletionGoesThrough();
    WriteExactly(TWINS, DELETING);
    DeletionIs(0);
    DeletionIs(1);
    TwinsWithoutB();
    TwinKeys();
  }

  lemma DeletionIs(id: ChannelId)
    requires id in TWINS.channels
    ensures var t := Written(TWINS, DELETING);
      && t == TWINS.(channels := t.channels, categories := TWINS.categories - {"b"},
                     overrides := TWINS.overrides - {"b"})
      && t.channels.Keys == TWINS.channels.Keys && t.channels[id].category == Some("a")
  {
    TwinsOk();
    TwinKeys();
    DeletionGoesThrough();
    DeletedIs(TWINS, "b", [1], "a", DELETING.first, id);
    assert TWINS.channels[0].category == Some("a");
    assert id in {0, 1};
  }

  lemma TwinsWithoutB()
    ensures TWINS.categories - {"b"} == map["a" := 0] && TWINS.overrides - {"b"} == map["a" := RULE]
  {
    assert "a"[0] != "b"[0];
  }

  lemma RenameStrays(t: Server)
    requires Inv(t) && t.alphabet == LATIN && t.categories == map["a" := 0] && t.overrides == map["a" := RULE]
    requires t.channels.Keys == {0, 1} && t.channels[0].category == Some("a") && t.channels[1].category == Some("a")
    ensures var after := Written(t, RENAMING);
      && 0 in after.channels && after.channels[0].category == Some("b")
      && "b" !in after.categories && Rows(after, Some("b")) == map[]
  {
    Letters();
    assert "a"[0] != "b"[0];
    var channel := Rewritten(t.channels[0], "x", None, Some("b"));
    assert IndexKey(LATIN, channel).0 == "b" && IndexKey(LATIN, t.channels[1]).0 == "a";
    assert !Clashes(LATIN, t.channels, channel, Some(0)) by {
      assert forall id :: id in t.channels ==> id in {0, 1};
    }
  }

  ghost function RaceState(i: nat): State {
    match i
    case 0 => State(TWINS, map[])
    case 1 => State(TWINS, map[0 := RENAMING])
    case 2 => State(TWINS, map[0 := RENAMING, 1 := DELETING])
    case 3 => State(Written(TWINS, DELETING), map[0 := RENAMING])
    case _ => State(Written(Written(TWINS, DELETING), RENAMING), map[])
  }

  function RaceEvent(i: nat): Event {
    match i
    case 0 => Begin(0, MANAGER, TO_B)
    case 1 => Begin(1, MANAGER, DELETE_B)
    case 2 => Write(1)
    case _ => Write(0)
  }

  /** A check that adds nothing and goes on. */
  lemma BeginStep(s: State, r: RequestId, c: Call, q: Request)
    requires r !in s.open && TwoSteps(c) && Possible(s.server, c) && NewId(s, c)
    requires Check(s.server, MANAGER, c) == (s.server, Some(q))
    ensures Step(s, Begin(r, MANAGER, c), State(s.server, s.open[r := q]))
  {
  }

  lemma WriteStep(server: Server, open: map<RequestId, Request>, r: RequestId, rest: map<RequestId, Request>)
    requires r in open && rest == open - {r}
    ensures Step(State(server, open), Write(r), State(Written(server, open[r]), rest))
  {
  }

  lemma RenameBegins()
    ensures Step(RaceState(0), RaceEvent(0), RaceState(1))
  {
    RenameChecked();
    var none: map<RequestId, Request> := map[];
    assert none[0 := RENAMING] == map[0 := RENAMING];
    BeginStep(State(TWINS, none), 0, TO_B, RENAMING);
  }

  lemma DeletionPossible()
    ensures Possible(TWINS, DELETE_B)
  {
    Letters();
    TwinListed();
  }

  lemma DeletionBegins()
    ensures Step(RaceState(1), RaceEvent(1), RaceState(2))
  {
    DeletionPossible();
    DeleteChecked();
    assert map[0 := RENAMING][1 := DELETING] == map[0 := RENAMING, 1 := DELETING];
    BeginStep(State(TWINS, map[0 := RENAMING]), 1, DELETE_B, DELETING);
  }

  lemma OpenThen()
    ensures map[0 := RENAMING, 1 := DELETING] - {1} == map[0 := RENAMING]
    ensures map[0 := RENAMING] - {0} == map[]
  {
  }

  lemma DeletionWrites()
    ensures Step(RaceState(2), RaceEvent(2), RaceState(3))
  {
    OpenThen();
    WriteStep(TWINS, map[0 := RENAMING, 1 := DELETING], 1, map[0 := RENAMING]);
  }

  lemma RenameWrites(deleted: Server)
    ensures Step(State(deleted, map[0 := RENAMING]), Write(0), State(Written(deleted, RENAMING), map[]))
  {
    OpenThen();
    WriteStep(deleted, map[0 := RENAMING], 0, map[]);
  }

  lemma RaceStep(i: nat)
    requires i < 4
    ensures Step(RaceState(i), RaceEvent(i), RaceState(i + 1))
  {
    match i
    case 0 => RenameBegins();
    case 1 => DeletionBegins();
    case 2 => DeletionWrites();
    case _ => RenameWrites(Written(TWINS, DELETING));
  }

  /** The four steps are a run. */
  ghost predicate IsRace() {
    forall i :: 0 <= i < 4 ==> Step(RaceState(i), RaceEvent(i), RaceState(i + 1))
  }

  lemma RaceHappens()
    ensures IsRace()
  {
    forall i | 0 <= i < 4
      ensures Step(RaceState(i), RaceEvent(i), RaceState(i + 1))
    {
      RaceStep(i);
    }
  }

  lemma NobodyYet()
    ensures AllReady(State(TWINS, map[]))
  {
    TwinsOk();
  }

  /** Where the race ends: the channel is in no category, and the rows it always had are gone. */
  lemma RaceEnds()
    ensures var after := Written(TWINS, DELETING); var last := Written(after, RENAMING);
      && Rows(TWINS, Some("a")) == RULE && Rows(after, Some("a")) == RULE
      && 0 in after.channels && after.channels[0].category == Some("a")
      && 0 in last.channels && last.channels[0].category == Some("b")
      && "b" !in last.categories && Rows(last, Some("b")) == map[]
  {
    DeletionLeaves();
    RenameStrays(Written(TWINS, DELETING));
  }

  /**
    Both checks hold and both requests are accepted, by managers who are not the owner; the channel ends
    in a category that is no more, and without the rows that applied to it all along.
   */
  lemma RenameMeetsDeletion()
    ensures IsRace() && AllReady(State(TWINS, map[])) && MANAGER.id != TWINS.owner
    ensures TWINS.channels[0].category == Some("a") && Rows(TWINS, Some("a")) == RULE
    ensures var last := Written(Written(TWINS, DELETING), RENAMING);
      && 0 in last.channels && last.channels[0].category == Some("b")
      && "b" !in last.categories && Rows(last, Some("b")) == map[]
  {
    RaceHappens();
    NobodyYet();
    RaceEnds();
  }
}
