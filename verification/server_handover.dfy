/**
  What an account deletion does to the servers of its user (`delete_my_account` in
  apps/server/src/routes/auth_account_data.rs), interleaved with joins, leaves, kicks, new servers and
  other deletions.

  A deletion locks the rows of the servers its user owns, hands each over, sweeps what is left to the
  placeholder, and removes the user. Leaving and kicking read the owner under a share lock, so they
  wait for these locks, and joining waits for a row selected FOR UPDATE; nothing else but a deletion
  takes a membership away. The foreign key from a server's owner to the users makes a removal wait for,
  and fail on, a server that names its user.
 */
module ServerHandover {
  import opened Options
  import opened ChannelNames
  import opened Ranking

  type ServerId = nat
  type RoleId = nat

  datatype Role = Role(name: string, position: int)

  datatype Server = Server(
    owner: UserId, members: map<UserId, int>, roles: map<RoleId, Role>, granted: set<(UserId, RoleId)>)

  datatype Stage = Begun | Handing | Swept | Removed

  /**
    `locked` are the servers owned when the deletion looked, `todo` those not handed over yet, and
    `owners` the new owners written but not committed.
   */
  datatype Deletion = Deletion(
    placeholder: UserId, stage: Stage, locked: set<ServerId>, todo: set<ServerId>, owners: map<ServerId, UserId>)

  datatype State = State(
    users: set<UserId>, system: set<UserId>, servers: map<ServerId, Server>, deletions: map<UserId, Deletion>)

  datatype Event =
    | Register(u: UserId)
    | MakePlaceholder(u: UserId)
    | CreateServer(id: ServerId, u: UserId, now: int)
    | DeleteServer(id: ServerId)
    | Join(id: ServerId, u: UserId, now: int)
    /** Leaving, or being kicked or banned. */
    | Leave(id: ServerId, u: UserId)
    | ChangeRoles(id: ServerId, roles: map<RoleId, Role>, granted: set<(UserId, RoleId)>)
    | Begin(x: UserId, placeholder: UserId)
    | LockOwned(x: UserId)
    | HandOver(x: UserId, id: ServerId)
    | Sweep(x: UserId)
    | RemoveUser(x: UserId)
    | Commit(x: UserId, now: int)
    | Fail(x: UserId)

  // ---------- The successor ----------

  /** Positions of the member's roles, "everyone" left out; no other letter lowers to one of that name. */
  function RolePositions(server: Server, u: UserId): set<int> {
    set p | p in server.granted && p.0 == u && p.1 in server.roles && FoldAscii(server.roles[p.1].name) != "everyone"
      :: server.roles[p.1].position
  }

  ghost predicate IsLowest(m: int, xs: set<int>) {
    m in xs && forall y :: y in xs ==> m <= y
  }

  lemma {:induction false} LowestExists(xs: set<int>, x: int)
    requires x in xs
    ensures exists m :: IsLowest(m, xs)
    decreases xs
  {
    if y :| y in xs && y < x {
      LowestExists(xs - {x}, y);
      var m :| IsLowest(m, xs - {x});
      forall z | z in xs
        ensures m <= z
      {
        assert y in xs - {x};
        assert z == x || z in xs - {x};
      }
      assert IsLowest(m, xs);
    } else {
      assert IsLowest(x, xs);
    }
  }

  /** `MIN(position)`, NULL for no roles. */
  ghost function Best(server: Server, u: UserId): (best: Option<int>)
    ensures best.Some? <==> RolePositions(server, u) != {}
    ensures best.Some? ==> IsLowest(best.value, RolePositions(server, u))
  {
    var xs := RolePositions(server, u);
    if x :| x in xs then
      LowestExists(xs, x);
      var m :| IsLowest(m, xs);
      Some(m)
    else None
  }

  /** The members a server may go to: neither the user being deleted nor the placeholder. */
  function Candidates(server: Server, x: UserId, placeholder: UserId): set<UserId> {
    server.members.Keys - {x, placeholder}
  }

  ghost function Ranks(server: Server, x: UserId, placeholder: UserId): map<UserId, Rank> {
    map u | u in Candidates(server, x, placeholder) :: Rank(Best(server, u), server.members[u], u)
  }

  /** `ORDER BY MIN(sr.position) ASC NULLS LAST, sm.joined_at ASC, sm.user_id ASC LIMIT 1`. */
  ghost function Successor(server: Server, x: UserId, placeholder: UserId): Option<UserId> {
    First(Ranks(server, x, placeholder))
  }

  /** `u` ranks above `v`: a better best role, or the same and an earlier join, or the smaller id. */
  ghost predicate Outranks(server: Server, u: UserId, v: UserId)
    requires u in server.members && v in server.members
  {
    var b, c := Best(server, u), Best(server, v);
    || (b.Some? && (c.None? || b.value < c.value))
    || (b == c && (server.members[u] < server.members[v] || (server.members[u] == server.members[v] && u < v)))
  }

  /** There is a successor exactly if there is another real member, and it outranks all others. */
  lemma SuccessorOutranks(server: Server, x: UserId, placeholder: UserId)
    ensures Successor(server, x, placeholder).Some? <==> Candidates(server, x, placeholder) != {}
    ensures Successor(server, x, placeholder).Some? ==>
      var u := Successor(server, x, placeholder).value;
      && u in Candidates(server, x, placeholder)
      && forall v :: v in Candidates(server, x, placeholder) && v != u ==> Outranks(server, u, v)
  {
    var ranks := Ranks(server, x, placeholder);
    assert ranks.Keys == Candidates(server, x, placeholder);
    if Successor(server, x, placeholder).Some? {
      var u := Successor(server, x, placeholder).value;
      forall v | v in ranks && v != u
        ensures Outranks(server, u, v)
      {
        assert Before(ranks[u], ranks[v]);
      }
    }
  }

  // ---------- Steps ----------

  /** A running deletion holds the row lock of the server. */
  ghost predicate Locked(s: State, id: ServerId) {
    exists x :: x in s.deletions && (id in s.deletions[x].locked || id in s.deletions[x].owners)
  }

  /**
    A running deletion has selected the server's row FOR UPDATE. A new membership waits for that: its
    foreign key needs the row FOR KEY SHARE. A later update of the owner alone does not hold it up.
   */
  ghost predicate Selected(s: State, id: ServerId) {
    exists x :: x in s.deletions && id in s.deletions[x].locked
  }

  predicate Going(s: State, u: UserId) {
    u in s.deletions && s.deletions[u].stage == Removed
  }

  function OwnedBy(servers: map<ServerId, Server>, x: UserId): set<ServerId> {
    set id | id in servers && servers[id].owner == x
  }

  function Put(s: State, x: UserId, d: Deletion): State {
    s.(deletions := s.deletions[x := d])
  }

  /** A server when the deletion of `x` commits. */
  function Settled(server: Server, x: UserId, owner: Option<UserId>, placeholder: UserId, now: int): Server {
    var left := server.members - {x};
    var members := if owner == Some(placeholder) && placeholder !in left then left[placeholder := now] else left;
    Server(if owner.Some? then owner.value else server.owner, members, server.roles,
           set p | p in server.granted && p.0 != x)
  }

  function NewOwner(d: Deletion, id: ServerId): Option<UserId> {
    if id in d.owners then Some(d.owners[id]) else None
  }

  ghost predicate Step(s: State, e: Event, t: State) {
    match e
    case Register(u) => u !in s.users && t == s.(users := s.users + {u})
    case MakePlaceholder(u) => u !in s.users && t == s.(users := s.users + {u}, system := s.system + {u})
    case CreateServer(id, u, now) =>
      && id !in s.servers && u in s.users && !Going(s, u)
      && t == s.(servers := s.servers[id := Server(u, map[u := now], map[], {})])
    case DeleteServer(id) =>
      id in s.servers && !Locked(s, id) && t == s.(servers := s.servers - {id})
    case Join(id, u, now) =>
      && id in s.servers && !Selected(s, id) && u in s.users && !Going(s, u) && u !in s.servers[id].members
      && t == s.(servers := s.servers[id := s.servers[id].(members := s.servers[id].members[u := now])])
    case Leave(id, u) =>
      && id in s.servers && !Locked(s, id) && s.servers[id].owner != u
      && t == s.(servers := s.servers[id := s.servers[id].(
           members := s.servers[id].members - {u}, granted := set p | p in s.servers[id].granted && p.0 != u)])
    case ChangeRoles(id, roles, granted) =>
      id in s.servers && t == s.(servers := s.servers[id := s.servers[id].(roles := roles, granted := granted)])
    case Begin(x, placeholder) =>
      && x in s.users && x !in s.system && x !in s.deletions && placeholder in s.system
      && t == Put(s, x, Deletion(placeholder, Begun, {}, {}, map[]))
    case LockOwned(x) =>
      && x in s.deletions && s.deletions[x].stage == Begun
      && var owned := OwnedBy(s.servers, x);
         && (forall id :: id in owned ==> !Locked(s, id))
         && t == Put(s, x, s.deletions[x].(stage := Handing, locked := owned, todo := owned))
    case HandOver(x, id) =>
      && x in s.deletions && s.deletions[x].stage == Handing && id in s.deletions[x].todo && id in s.servers
      && var d := s.deletions[x];
         var heir := Successor(s.servers[id], x, d.placeholder);
         && (heir.Some? ==> !Going(s, heir.value))
         && t == Put(s, x, d.(todo := d.todo - {id},
                              owners := if heir.Some? then d.owners[id := heir.value] else d.owners))
    case Sweep(x) =>
      && x in s.deletions && s.deletions[x].stage == Handing && s.deletions[x].todo == {}
      && var d := s.deletions[x];
         var left := OwnedBy(s.servers, x) - d.owners.Keys;
         t == Put(s, x, d.(stage := Swept, owners := d.owners + map id | id in left :: d.placeholder))
    case RemoveUser(x) =>
      && x in s.deletions && s.deletions[x].stage == Swept
      && OwnedBy(s.servers, x) <= s.deletions[x].owners.Keys
      && (forall y :: y in s.deletions && y != x ==> x !in s.deletions[y].owners.Values)
      && t == Put(s, x, s.deletions[x].(stage := Removed))
    case Commit(x, now) =>
      && x in s.deletions && s.deletions[x].stage == Removed
      && var d := s.deletions[x];
         t == State(s.users - {x}, s.system,
                    map id | id in s.servers :: Settled(s.servers[id], x, NewOwner(d, id), d.placeholder, now),
                    s.deletions - {x})
    case Fail(x) =>
      x in s.deletions && t == s.(deletions := s.deletions - {x})
  }

  ghost predicate IsRun(states: seq<State>, events: seq<Event>) {
    && |states| == |events| + 1
    && forall i :: 0 <= i < |events| ==> Step(states[i], events[i], states[i + 1])
  }

  // ---------- The invariant ----------

  /** Members have accounts, and the owner is a member. */
  predicate ServerOk(users: set<UserId>, server: Server) {
    server.members.Keys <= users && server.owner in server.members
  }

  /** An heir written by a deletion stays a member until the deletion is over. */
  predicate HeirOk(s: State, x: UserId, id: ServerId)
    requires x in s.deletions && id in s.deletions[x].owners
  {
    var heir := s.deletions[x].owners[id];
    && id in s.servers && s.servers[id].owner == x
    && (heir == s.deletions[x].placeholder || (heir != x && heir in s.servers[id].members && !Going(s, heir)))
  }

  ghost predicate DeletionOk(s: State, x: UserId)
    requires x in s.deletions
  {
    var d := s.deletions[x];
    && x in s.users && x !in s.system && d.placeholder in s.system
    && (forall id :: id in d.locked ==> id in s.servers && s.servers[id].owner == x)
    && d.todo <= d.locked && d.todo !! d.owners.Keys && (d.stage == Begun ==> d.owners == map[])
    && (forall id :: id in d.owners ==> HeirOk(s, x, id))
    && (d.stage == Handing ==> forall id :: id in d.owners ==> d.owners[id] != d.placeholder)
    && (d.stage == Removed ==> OwnedBy(s.servers, x) <= d.owners.Keys)
  }

  ghost predicate Inv(s: State) {
    && s.system <= s.users
    && (forall id :: id in s.servers ==> ServerOk(s.users, s.servers[id]))
    && (forall x :: x in s.deletions ==> DeletionOk(s, x))
  }

  /** Locked servers keep their owner and members, and a user on the way out gets no server. */
  ghost predicate LocksRespected(s: State, t: State) {
    && t.deletions == s.deletions && s.users <= t.users
    && (forall id :: id in s.servers && Locked(s, id) ==>
          id in t.servers && t.servers[id].owner == s.servers[id].owner
          && s.servers[id].members.Keys <= t.servers[id].members.Keys)
    && (forall id :: id in t.servers && Going(s, t.servers[id].owner) ==>
          id in s.servers && s.servers[id].owner == t.servers[id].owner)
  }

  lemma DeletionStays(s: State, t: State, x: UserId)
    requires LocksRespected(s, t) && x in s.deletions && DeletionOk(s, x)
    requires s.system <= t.system && x !in t.system
    ensures DeletionOk(t, x)
  {
    var d := s.deletions[x];
    forall id | id in d.locked
      ensures id in t.servers && t.servers[id].owner == x
    {
      assert Locked(s, id);
    }
    forall id | id in d.owners
      ensures HeirOk(t, x, id)
    {
      assert HeirOk(s, x, id) && Locked(s, id);
    }
  }

  lemma ServerStepRespects(s: State, e: Event, t: State)
    requires Step(s, e, t)
    requires e.Register? || e.MakePlaceholder? || e.CreateServer? || e.DeleteServer? || e.Join? || e.Leave?
             || e.ChangeRoles?
    ensures LocksRespected(s, t)
  {
  }

  /** A step that changes one unlocked server, or one that only gains members or roles. */
  lemma ServerStepKeeps(s: State, e: Event, t: State)
    requires Inv(s) && Step(s, e, t)
    requires e.Register? || e.MakePlaceholder? || e.CreateServer? || e.DeleteServer? || e.Join? || e.Leave?
             || e.ChangeRoles?
    ensures Inv(t)
  {
    ServerStepRespects(s, e, t);
    forall x | x in t.deletions
      ensures DeletionOk(t, x)
    {
      assert DeletionOk(s, x);
      DeletionStays(s, t, x);
    }
    forall id | id in t.servers
      ensures ServerOk(t.users, t.servers[id])
    {
      assert id in s.servers ==> ServerOk(s.users, s.servers[id]);
    }
  }

  /** A deletion's own step that writes no server: the others hold as long as their heirs do. */
  lemma PutKeeps(s: State, x: UserId, d: Deletion)
    requires Inv(s) && DeletionOk(Put(s, x, d), x)
    requires d.stage == Removed ==> forall y :: y in s.deletions && y != x ==> x !in s.deletions[y].owners.Values
    ensures Inv(Put(s, x, d))
  {
    var t := Put(s, x, d);
    forall y | y in t.deletions
      ensures DeletionOk(t, y)
    {
      if y != x {
        assert DeletionOk(s, y);
        forall id | id in s.deletions[y].owners
          ensures HeirOk(t, y, id)
        {
          assert HeirOk(s, y, id);
          assert s.deletions[y].owners[id] in s.deletions[y].owners.Values;
        }
      }
    }
  }

  lemma HandOverKeeps(s: State, x: UserId, id: ServerId, t: State)
    requires Inv(s) && Step(s, HandOver(x, id), t)
    ensures Inv(t)
  {
    var d := s.deletions[x];
    assert DeletionOk(s, x);
    SuccessorOutranks(s.servers[id], x, d.placeholder);
    forall o | o in t.deletions[x].owners
      ensures HeirOk(t, x, o)
    {
      assert o in d.owners ==> HeirOk(s, x, o);
    }
    PutKeeps(s, x, t.deletions[x]);
  }

  lemma SweepKeeps(s: State, x: UserId, t: State)
    requires Inv(s) && Step(s, Sweep(x), t)
    ensures Inv(t)
  {
    assert DeletionOk(s, x);
    forall o | o in t.deletions[x].owners
      ensures HeirOk(t, x, o)
    {
      assert o in s.deletions[x].owners ==> HeirOk(s, x, o);
    }
    PutKeeps(s, x, t.deletions[x]);
  }

  lemma RemoveUserKeeps(s: State, x: UserId, t: State)
    requires Inv(s) && Step(s, RemoveUser(x), t)
    ensures Inv(t)
  {
    assert DeletionOk(s, x);
    forall o | o in t.deletions[x].owners
      ensures HeirOk(t, x, o)
    {
      assert HeirOk(s, x, o);
    }
    PutKeeps(s, x, t.deletions[x]);
  }

  lemma StartKeeps(s: State, e: Event, t: State)
    requires Inv(s) && Step(s, e, t) && (e.Begin? || e.LockOwned?)
    ensures Inv(t)
  {
    assert e.x in s.deletions ==> DeletionOk(s, e.x);
    PutKeeps(s, e.x, t.deletions[e.x]);
  }

  lemma FailKeeps(s: State, x: UserId, t: State)
    requires Inv(s) && Step(s, Fail(x), t)
    ensures Inv(t)
  {
    forall y | y in t.deletions
      ensures DeletionOk(t, y)
    {
      assert DeletionOk(s, y);
      forall id | id in t.deletions[y].owners
        ensures HeirOk(t, y, id)
      {
        assert HeirOk(s, y, id);
      }
    }
  }

  /** A committed deletion leaves every server with an owner who has an account and is a member. */
  lemma SettledOk(s: State, x: UserId, id: ServerId, now: int)
    requires Inv(s) && x in s.deletions && s.deletions[x].stage == Removed && id in s.servers
    ensures var d := s.deletions[x];
      ServerOk(s.users - {x}, Settled(s.servers[id], x, NewOwner(d, id), d.placeholder, now))
  {
    assert DeletionOk(s, x) && ServerOk(s.users, s.servers[id]);
    if id in s.deletions[x].owners {
      assert HeirOk(s, x, id);
    } else {
      assert id !in OwnedBy(s.servers, x);
    }
  }

  /** The other deletions do not notice: their servers are not this one's, nor their heirs its user. */
  lemma CommitKeepsOther(s: State, x: UserId, now: int, t: State, y: UserId)
    requires Inv(s) && Step(s, Commit(x, now), t) && y in t.deletions
    ensures DeletionOk(t, y)
  {
    assert DeletionOk(s, x) && DeletionOk(s, y);
    forall id | id in s.servers && id in s.deletions[x].owners
      ensures s.servers[id].owner == x && (Going(s, y) ==> s.deletions[x].owners[id] != y)
    {
      assert HeirOk(s, x, id);
    }
    forall id | id in t.deletions[y].owners
      ensures HeirOk(t, y, id)
    {
      assert HeirOk(s, y, id);
    }
    if t.deletions[y].stage == Removed {
      forall id | id in OwnedBy(t.servers, y)
        ensures id in t.deletions[y].owners
      {
        assert id in OwnedBy(s.servers, y);
      }
    }
  }

  lemma StepKeeps(s: State, e: Event, t: State)
    requires Inv(s) && Step(s, e, t)
    ensures Inv(t)
  {
    match e
    case Begin(x, placeholder) => StartKeeps(s, e, t);
    case LockOwned(x) => StartKeeps(s, e, t);
    case HandOver(x, id) => HandOverKeeps(s, x, id, t);
    case Sweep(x) => SweepKeeps(s, x, t);
    case RemoveUser(x) => RemoveUserKeeps(s, x, t);
    case Fail(x) => FailKeeps(s, x, t);
    case Commit(x, now) =>
      assert DeletionOk(s, x);
      forall id | id in t.servers
        ensures ServerOk(t.users, t.servers[id])
      {
        SettledOk(s, x, id, now);
      }
      forall y | y in t.deletions
        ensures DeletionOk(t, y)
      {
        CommitKeepsOther(s, x, now, t, y);
      }
    case _ => ServerStepKeeps(s, e, t);
  }

  // ---------- Whole runs ----------

  /** In every interleaving, every server's owner has an account and is one of its members. */
  lemma {:induction false} OwnersStayMembers(states: seq<State>, events: seq<Event>, n: nat)
    requires IsRun(states, events) && n < |states| && Inv(states[0])
    ensures Inv(states[n])
    ensures forall id :: id in states[n].servers ==>
      states[n].servers[id].owner in states[n].servers[id].members && states[n].servers[id].owner in states[n].users
  {
    if n > 0 {
      OwnersStayMembers(states, events, n - 1);
      StepKeeps(states[n - 1], events[n - 1], states[n]);
    }
    forall id | id in states[n].servers
      ensures states[n].servers[id].owner in states[n].servers[id].members
      ensures states[n].servers[id].owner in states[n].users
    {
      assert ServerOk(states[n].users, states[n].servers[id]);
    }
  }

  /** What the deletion of `x` has decided for a server it locked: `heir`, or nobody yet. */
  ghost predicate Decided(s: State, x: UserId, id: ServerId, heir: Option<UserId>, placeholder: UserId) {
    && x in s.deletions && s.deletions[x].placeholder == placeholder
    && id in s.deletions[x].locked && id !in s.deletions[x].todo
    && match s.deletions[x].stage
       case Begun => false
       case Handing => NewOwner(s.deletions[x], id) == heir
       case _ => NewOwner(s.deletions[x], id) == if heir.Some? then heir else Some(placeholder)
  }

  /** Whose deletion the event moves on. */
  predicate Moves(e: Event, x: UserId) {
    match e
    case Begin(y, _) => y == x
    case LockOwned(y) => y == x
    case HandOver(y, _) => y == x
    case Sweep(y) => y == x
    case RemoveUser(y) => y == x
    case Commit(y, _) => y == x
    case Fail(y) => y == x
    case _ => false
  }

  lemma OthersUntouched(s: State, e: Event, t: State, x: UserId)
    requires Step(s, e, t) && !Moves(e, x) && x in s.deletions
    ensures x in t.deletions && t.deletions[x] == s.deletions[x]
  {
  }

  lemma DecisionStays(s: State, e: Event, t: State, x: UserId, id: ServerId, heir: Option<UserId>, placeholder: UserId)
    requires Inv(s) && Step(s, e, t) && e != Fail(x) && !(e.Commit? && e.x == x)
    requires Decided(s, x, id, heir, placeholder)
    ensures Decided(t, x, id, heir, placeholder)
  {
    if !Moves(e, x) {
      OthersUntouched(s, e, t, x);
    } else if e == Sweep(x) {
      assert DeletionOk(s, x);
      assert id in OwnedBy(s.servers, x);
    }
  }

  lemma {:induction false} DecisionStands(
      states: seq<State>, events: seq<Event>, k: nat, n: nat, x: UserId, id: ServerId)
    requires IsRun(states, events) && Inv(states[0]) && k < n < |states| && events[k] == HandOver(x, id)
    requires forall i :: k < i < n ==> events[i] != Fail(x) && !(events[i].Commit? && events[i].x == x)
    ensures x in states[k].deletions && id in states[k].servers
    ensures var placeholder := states[k].deletions[x].placeholder;
      Decided(states[n], x, id, Successor(states[k].servers[id], x, placeholder), placeholder)
  {
    HandOverAt(states, events, k, x, id);
    if n > k + 1 {
      var placeholder := states[k].deletions[x].placeholder;
      DecisionStands(states, events, k, n - 1, x, id);
      OwnersStayMembers(states, events, n - 1);
      assert Step(states[n - 1], events[n - 1], states[n]);
      DecisionStays(states[n - 1], events[n - 1], states[n], x, id,
                    Successor(states[k].servers[id], x, placeholder), placeholder);
    }
  }

  lemma HandOverAt(states: seq<State>, events: seq<Event>, k: nat, x: UserId, id: ServerId)
    requires IsRun(states, events) && Inv(states[0]) && k < |events| && events[k] == HandOver(x, id)
    ensures x in states[k].deletions && id in states[k].servers
    ensures var placeholder := states[k].deletions[x].placeholder;
      Decided(states[k + 1], x, id, Successor(states[k].servers[id], x, placeholder), placeholder)
  {
    assert Step(states[k], events[k], states[k + 1]);
    OwnersStayMembers(states, events, k);
    DecidedNow(states[k], x, id, states[k + 1]);
  }

  lemma DecidedNow(s: State, x: UserId, id: ServerId, t: State)
    requires Inv(s) && Step(s, HandOver(x, id), t)
    ensures Decided(t, x, id, Successor(s.servers[id], x, s.deletions[x].placeholder), s.deletions[x].placeholder)
  {
    assert DeletionOk(s, x);
  }

  /**
    A server the deletion found owned goes, when the deletion commits, to the member who outranked all
    others when it was handed over, who is still a member then; only without one to the placeholder.
   */
  lemma GoesToTheFirst(
      states: seq<State>, events: seq<Event>, k: nat, n: nat, x: UserId, id: ServerId, now: int)
    requires IsRun(states, events) && Inv(states[0]) && k < n < |events|
    requires events[k] == HandOver(x, id) && events[n] == Commit(x, now)
    requires forall i :: k < i < n ==> events[i] != Fail(x) && !(events[i].Commit? && events[i].x == x)
    ensures x in states[k].deletions && id in states[k].servers && id in states[n + 1].servers
    ensures var placeholder := states[k].deletions[x].placeholder;
      var heir, after := Successor(states[k].servers[id], x, placeholder), states[n + 1].servers[id];
      after.owner == (if heir.Some? then heir.value else placeholder) && after.owner in after.members
  {
    DecisionStands(states, events, k, n, x, id);
    OwnersStayMembers(states, events, n);
    OwnersStayMembers(states, events, n + 1);
    var placeholder := states[k].deletions[x].placeholder;
    CommittedOwner(states[n], x, id, now, states[n + 1], Successor(states[k].servers[id], x, placeholder), placeholder);
  }

  lemma CommittedOwner(
      s: State, x: UserId, id: ServerId, now: int, t: State, heir: Option<UserId>, placeholder: UserId)
    requires Inv(s) && Step(s, Commit(x, now), t) && Decided(s, x, id, heir, placeholder)
    ensures id in t.servers && t.servers[id].owner == if heir.Some? then heir.value else placeholder
  {
    assert DeletionOk(s, x);
  }

  // ---------- Who falls to the placeholder ----------

  /**
    A server found at the start and handed over has a real member as its new owner, or no real member
    left to be one; nothing found later has a new owner but the placeholder.
   */
  predicate RuleOk(s: State, x: UserId)
    requires x in s.deletions
  {
    var d := s.deletions[x];
    && (forall id :: id in d.locked && id !in d.todo && id in s.servers ==>
          (id in d.owners && d.owners[id] != d.placeholder) || Candidates(s.servers[id], x, d.placeholder) == {})
    && (forall id :: id in d.owners && id !in d.locked ==> d.owners[id] == d.placeholder)
    && (d.stage == Begun ==> d.locked == {} && d.owners == map[])
    && (d.stage == Handing ==> d.owners.Keys <= d.locked)
    && (d.stage == Swept || d.stage == Removed ==> d.todo == {})
  }

  ghost predicate RulesOk(s: State) {
    forall x :: x in s.deletions ==> RuleOk(s, x)
  }

  /** No step of anyone else gives a server that is found another real member. */
  lemma CandidatesShrink(s: State, e: Event, t: State, x: UserId, id: ServerId)
    requires Inv(s) && Step(s, e, t) && x in s.deletions && id in s.deletions[x].locked && id in t.servers
    requires !(e.Commit? && e.x == x)
    ensures id in s.servers
    ensures var placeholder := s.deletions[x].placeholder;
      Candidates(t.servers[id], x, placeholder) <= Candidates(s.servers[id], x, placeholder)
  {
    assert DeletionOk(s, x) && Selected(s, id);
    if e.Commit? {
      var y := e.x;
      assert DeletionOk(s, y);
      forall o | o in s.deletions[y].owners
        ensures s.servers[o].owner == y
      {
        assert HeirOk(s, y, o);
      }
    }
  }

  lemma OthersRule(s: State, e: Event, t: State, x: UserId)
    requires Inv(s) && Step(s, e, t) && !Moves(e, x) && x in s.deletions && RuleOk(s, x)
    ensures x in t.deletions && RuleOk(t, x)
  {
    OthersUntouched(s, e, t, x);
    forall id | id in t.deletions[x].locked && id in t.servers
      ensures id in s.servers
      ensures Candidates(t.servers[id], x, t.deletions[x].placeholder) <=
        Candidates(s.servers[id], x, t.deletions[x].placeholder)
    {
      CandidatesShrink(s, e, t, x, id);
    }
  }

  lemma OwnRule(s: State, e: Event, t: State, x: UserId)
    requires Inv(s) && Step(s, e, t) && Moves(e, x) && x in t.deletions && (x in s.deletions ==> RuleOk(s, x))
    ensures RuleOk(t, x)
  {
    match e
    case HandOver(_, id) =>
      assert DeletionOk(s, x);
      SuccessorOutranks(s.servers[id], x, s.deletions[x].placeholder);
    case Sweep(_) => SweepRule(s, x, t);
    case _ =>
  }

  lemma SweepRule(s: State, x: UserId, t: State)
    requires Inv(s) && Step(s, Sweep(x), t) && RuleOk(s, x)
    ensures RuleOk(t, x)
  {
    var d, owners := s.deletions[x], t.deletions[x].owners;
    forall id | id in owners
      ensures id in d.owners ==> owners[id] == d.owners[id]
      ensures id !in d.owners ==> owners[id] == d.placeholder
    {
    }
    assert d.owners.Keys <= owners.Keys;
  }

  lemma StepKeepsRules(s: State, e: Event, t: State)
    requires Inv(s) && RulesOk(s) && Step(s, e, t)
    ensures RulesOk(t)
  {
    forall x | x in t.deletions
      ensures RuleOk(t, x)
    {
      if Moves(e, x) {
        OwnRule(s, e, t, x);
      } else {
        StillRunning(s, e, t, x);
        OthersRule(s, e, t, x);
      }
    }
  }

  lemma StillRunning(s: State, e: Event, t: State, x: UserId)
    requires Step(s, e, t) && !Moves(e, x) && x in t.deletions
    ensures x in s.deletions
  {
  }

  lemma {:induction false} RulesKeep(states: seq<State>, events: seq<Event>, n: nat)
    requires IsRun(states, events) && n < |states| && Inv(states[0]) && RulesOk(states[0])
    ensures Inv(states[n]) && RulesOk(states[n])
  {
    OwnersStayMembers(states, events, n);
    if n > 0 {
      RulesKeep(states, events, n - 1);
      StepKeepsRules(states[n - 1], events[n - 1], states[n]);
    }
  }

  lemma CommittedRule(s: State, x: UserId, now: int, t: State, id: ServerId)
    requires Inv(s) && Step(s, Commit(x, now), t) && RuleOk(s, x)
    requires id in OwnedBy(s.servers, x) && Candidates(s.servers[id], x, s.deletions[x].placeholder) != {}
    ensures id in t.servers
    ensures t.servers[id].owner == s.deletions[x].placeholder <==> id !in s.deletions[x].locked
  {
    assert DeletionOk(s, x);
  }

  /**
    When a deletion commits, a server of its user that has another real member falls to the placeholder
    exactly if it was not among the servers the deletion found and locked at its start.
   */
  lemma PlaceholderExactly(states: seq<State>, events: seq<Event>, n: nat, x: UserId, now: int, id: ServerId)
    requires IsRun(states, events) && n < |events| && Inv(states[0]) && RulesOk(states[0])
    requires events[n] == Commit(x, now) && x in states[n].deletions && id in OwnedBy(states[n].servers, x)
    requires Candidates(states[n].servers[id], x, states[n].deletions[x].placeholder) != {}
    ensures id in states[n + 1].servers
    ensures states[n + 1].servers[id].owner == states[n].deletions[x].placeholder <==>
      id !in states[n].deletions[x].locked
  {
    RulesKeep(states, events, n);
    assert Step(states[n], events[n], states[n + 1]);
    CommittedRule(states[n], x, now, states[n + 1], id);
  }

  // ---------- One deletion as it runs ----------

  /** A server after a deletion that nothing crosses. */
  ghost function AfterDeletion(server: Server, x: UserId, placeholder: UserId, now: int): Server {
    var heir := Successor(server, x, placeholder);
    var owner := if server.owner != x then None else if heir.Some? then heir else Some(placeholder);
    Settled(server, x, owner, placeholder, now)
  }

  /** What each statement of the deletion does to one server. */
  function Handed(server: Server, heir: Option<UserId>): Server {
    if heir.Some? then server.(owner := heir.value) else server
  }

  function Given(server: Server, x: UserId, placeholder: UserId): Server {
    if server.owner == x then server.(owner := placeholder) else server
  }

  function Seated(server: Server, placeholder: UserId, now: int): Server {
    if server.owner == placeholder && placeholder !in server.members then
      server.(members := server.members[placeholder := now])
    else server
  }

  function Left(server: Server, x: UserId): Server {
    server.(members := server.members - {x}, granted := set p | p in server.granted && p.0 != x)
  }

  /** The statements together hand a server over, and its owner is a member afterwards. */
  lemma StatementsTogether(server: Server, x: UserId, placeholder: UserId, now: int, heir: Option<UserId>)
    requires x != placeholder && server.owner in server.members
    requires heir == if server.owner == x then Successor(server, x, placeholder) else None
    ensures var after := Left(Seated(Given(Handed(server, heir), x, placeholder), placeholder, now), x);
      after == AfterDeletion(server, x, placeholder, now) && after.owner in after.members
  {
    SuccessorOutranks(server, x, placeholder);
  }

  class Tables {
    var servers: map<ServerId, Server>

    ghost predicate Valid()
      reads this
    {
      forall id :: id in servers ==> servers[id].owner in servers[id].members
    }

    constructor ()
      ensures servers == map[] && Valid()
    {
      servers := map[];
    }

    /** The loop over the servers found: each with a successor goes to it. */
    method HandOverEach(owned: seq<ServerId>, heirs: map<ServerId, Option<UserId>>)
      requires forall id :: id in owned ==> id in servers && id in heirs
      requires forall i, j :: 0 <= i < j < |owned| ==> owned[i] != owned[j]
      modifies this
      ensures servers.Keys == old(servers).Keys
      ensures forall id :: id in servers ==>
        servers[id] == Handed(old(servers)[id], if id in owned then heirs[id] else None)
    {
      var begin := servers;
      for i := 0 to |owned|
        invariant servers.Keys == begin.Keys
        invariant forall id :: id in servers ==>
          servers[id] == Handed(begin[id], if id in owned[..i] then heirs[id] else None)
      {
        var id := owned[i];
        assert id in owned && id !in owned[..i];
        assert forall o :: o in owned[..i + 1] <==> o in owned[..i] || o == id;
        if heirs[id].Some? {
          servers := servers[id := servers[id].(owner := heirs[id].value)];
        }
      }
      assert owned[..|owned|] == owned;
    }

    /** The updates after the loop. */
    method SettleServers(x: UserId, placeholder: UserId, now: int)
      modifies this
      ensures servers.Keys == old(servers).Keys
      ensures forall id :: id in servers ==>
        servers[id] == Left(Seated(Given(old(servers)[id], x, placeholder), placeholder, now), x)
    {
      servers := map id | id in servers :: Given(servers[id], x, placeholder);
      servers := map id | id in servers :: Seated(servers[id], placeholder, now);
      servers := map id | id in servers :: Left(servers[id], x);
    }

    /**
      `owned` and `heirs` are what the queries answer: the servers of `x`, and each one's successor.
      After the loop, the rest goes to the placeholder, which becomes a member where it is the owner,
      and the memberships of `x` go.
     */
    method DeleteAccount(
        x: UserId, placeholder: UserId, owned: seq<ServerId>, heirs: map<ServerId, Option<UserId>>, now: int)
      requires Valid() && x != placeholder
      requires forall id :: id in owned <==> id in servers && servers[id].owner == x
      requires forall i, j :: 0 <= i < j < |owned| ==> owned[i] != owned[j]
      requires forall id :: id in owned ==> id in heirs && heirs[id] == Successor(servers[id], x, placeholder)
      modifies this
      ensures servers.Keys == old(servers).Keys
      ensures forall id :: id in servers ==> servers[id] == AfterDeletion(old(servers)[id], x, placeholder, now)
      ensures Valid()
    {
      ghost var begin := servers;
      HandOverEach(owned, heirs);
      SettleServers(x, placeholder, now);
      forall id | id in servers
        ensures servers[id] == AfterDeletion(begin[id], x, placeholder, now)
        ensures servers[id].owner in servers[id].members
      {
        StatementsTogether(begin[id], x, placeholder, now, if id in owned then heirs[id] else None);
      }
    }
  }

  // ---------- A server with a real member that falls to the placeholder ----------

  /** 1 owns a server with 2 and 3. The deletion of 2 has found nothing; that of 1 is about to commit. */
  const CROSSED := State(
    {0, 1, 2, 3}, {0}, map[9 := Server(1, map[1 := 0, 2 := 1, 3 := 2], map[], {})],
    map[1 := Deletion(0, Removed, {9}, {}, map[9 := 2]), 2 := Deletion(0, Handing, {}, {}, map[])])

  const INHERITED := State(
    {0, 2, 3}, {0}, map[9 := Server(2, map[2 := 1, 3 := 2], map[], {})], map[2 := Deletion(0, Handing, {}, {}, map[])])

  const SWEPT := INHERITED.(deletions := map[2 := Deletion(0, Swept, {}, {}, map[9 := 0])])

  lemma CrossedOk()
    ensures Inv(CROSSED) && RulesOk(CROSSED)
  {
    assert DeletionOk(CROSSED, 1);
    assert DeletionOk(CROSSED, 2);
  }

  lemma CrossedCommits()
    ensures Step(CROSSED, Commit(1, 5), INHERITED)
  {
    var server := CROSSED.servers[9];
    assert server.members - {1} == map[2 := 1, 3 := 2];
    assert Settled(server, 1, Some(2), 0, 5) == INHERITED.servers[9];
    assert {0, 1, 2, 3} - {1} == {0, 2, 3};
    assert CROSSED.deletions - {1} == INHERITED.deletions;
  }

  lemma CrossedSweeps()
    ensures Step(INHERITED, Sweep(2), SWEPT)
  {
    assert OwnedBy(INHERITED.servers, 2) == {9};
    var d := INHERITED.deletions[2];
    var left := OwnedBy(INHERITED.servers, 2) - d.owners.Keys;
    assert left == {9};
    assert d.owners + (map id | id in left :: d.placeholder) == map[9 := 0];
    assert Put(INHERITED, 2, Deletion(0, Swept, {}, {}, map[9 := 0])) == SWEPT;
  }

  const LEAVING := SWEPT.(deletions := map[2 := Deletion(0, Removed, {}, {}, map[9 := 0])])

  const GONE := State({0, 3}, {0}, map[9 := Server(0, map[3 := 2, 0 := 6], map[], {})], map[])

  lemma CrossedEnds()
    ensures Step(SWEPT, RemoveUser(2), LEAVING) && Step(LEAVING, Commit(2, 6), GONE)
  {
    var server := SWEPT.servers[9];
    assert server.members - {2} == map[3 := 2];
    assert Settled(server, 2, Some(0), 0, 6) == GONE.servers[9];
    assert {0, 2, 3} - {2} == {0, 3};
    assert OwnedBy(SWEPT.servers, 2) == {9};
    assert LEAVING.deletions - {2} == GONE.deletions;
  }

  /**
    Two deletions crossing: the server 2 inherits from 1 goes to the placeholder with 2, although 3 is
    a member. The rule holds for the servers found at the start, as `PlaceholderExactly` says.
   */
  lemma CrossedDeletions()
    ensures Inv(CROSSED) && RulesOk(CROSSED)
    ensures Step(CROSSED, Commit(1, 5), INHERITED) && Step(INHERITED, Sweep(2), SWEPT)
    ensures Step(SWEPT, RemoveUser(2), LEAVING) && Step(LEAVING, Commit(2, 6), GONE)
    ensures Candidates(INHERITED.servers[9], 2, 0) == {3}
    ensures GONE.servers[9].owner == 0 && 3 in GONE.servers[9].members
  {
    CrossedOk();
    CrossedCommits();
    CrossedSweeps();
    CrossedEnds();
    StillThere();
  }

  lemma StillThere()
    ensures Candidates(INHERITED.servers[9], 2, 0) == {3}
  {
    var server := INHERITED.servers[9];
    assert server == Server(2, map[2 := 1, 3 := 2], map[], {});
    assert server.members.Keys == {2, 3};
  }
}
