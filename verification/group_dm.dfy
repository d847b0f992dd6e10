/**
  Group DMs: creating, adding, removing and leaving (apps/server/src/routes/dm.rs), and what an
  account deletion does to them (`delete_my_account` in apps/server/src/routes/auth_account_data.rs).

  A membership change holds its group's row lock from the reads to the commit, so it is one step. A
  deletion is a transaction of several steps: it locks the groups its user is in, deletes the
  memberships, hands over the locked groups and deletes those without members, and at last removes the
  user and commits, which takes along what still names the user. Others see none of this before the
  commit; between the steps, groups it has not locked may change and may come to hold the user.
 */
module GroupDm {
  import opened Options
  import opened Ranking

  type GroupId = nat

  const MAX_MEMBERS := 8

  /** Members with the time they joined. */
  datatype Group = Group(owner: Option<UserId>, members: map<UserId, int>)

  datatype Stage = Collected | Left | Swept

  /**
    A running account deletion: the groups it has locked, those whose membership of the user it has
    deleted, those it has deleted, and the new owners it has written.
   */
  datatype Deletion = Deletion(
    stage: Stage, locked: set<GroupId>, left: set<GroupId>, dropped: set<GroupId>, heirs: map<GroupId, UserId>)

  /** What is committed, and the account deletions that run. */
  datatype State = State(
    groups: map<GroupId, Group>, friends: set<(UserId, UserId)>, deleting: map<UserId, Deletion>)

  datatype Event =
    | Befriend(u: UserId, v: UserId)
    | Unfriend(u: UserId, v: UserId)
    | Create(g: GroupId, who: UserId, ids: seq<UserId>, now: int)
    | Add(g: GroupId, who: UserId, ids: seq<UserId>, now: int)
    /** `order` is what the member query answers. */
    | Remove(g: GroupId, who: UserId, user: UserId, order: seq<UserId>)
    | Collect(user: UserId)
    | DeleteMemberships(user: UserId)
    | Sweep(user: UserId)
    /** The user's row goes; memberships cascade and owner columns that name the user are cleared. */
    | Commit(user: UserId)
    | Fail(user: UserId)

  // ---------- Lists of people ----------

  /** The ids not known yet, each once, in the order given. */
  function Picked(ids: seq<UserId>, known: set<UserId>): seq<UserId> {
    if ids == [] then []
    else
      var picked, id := Picked(ids[..|ids| - 1], known), ids[|ids| - 1];
      if id in known || id in picked then picked else picked + [id]
  }

  /** The list built by `create_group_dm` and `add_group_dm_members`. */
  method PickMembers(ids: seq<UserId>, known: set<UserId>) returns (picked: seq<UserId>)
    ensures picked == Picked(ids, known)
  {
    picked := [];
    for i := 0 to |ids|
      invariant picked == Picked(ids[..i], known)
    {
      assert ids[..i + 1][..i] == ids[..i];
      if ids[i] !in known && ids[i] !in picked {
        picked := picked + [ids[i]];
      }
    }
    assert ids[..|ids|] == ids;
  }

  lemma {:induction false} PickedOnce(ids: seq<UserId>, known: set<UserId>)
    ensures forall i, j :: 0 <= i < j < |Picked(ids, known)| ==> Picked(ids, known)[i] != Picked(ids, known)[j]
    ensures forall u :: u in Picked(ids, known) <==> u in ids && u !in known
    ensures |Picked(ids, known)| <= |ids|
  {
    if ids != [] {
      PickedOnce(ids[..|ids| - 1], known);
      assert ids == ids[..|ids| - 1] + [ids[|ids| - 1]];
    }
  }

  function Pair(u: UserId, v: UserId): (UserId, UserId) {
    if u < v then (u, v) else (v, u)
  }

  /** The rows that the one COUNT query of `ensure_friends_with` counts. */
  function FriendRows(friends: set<(UserId, UserId)>, user: UserId, others: seq<UserId>): set<(UserId, UserId)> {
    set p | p in friends && ((p.0 == user && p.1 in others) || (p.1 == user && p.0 in others))
  }

  /** Friendships are stored once, the smaller id first. */
  ghost predicate Stored(friends: set<(UserId, UserId)>) {
    forall p :: p in friends ==> p.0 < p.1
  }

  lemma FriendRowsSnoc(friends: set<(UserId, UserId)>, user: UserId, others: seq<UserId>, last: UserId)
    requires Stored(friends) && user != last && last !in others
    ensures Pair(user, last) !in FriendRows(friends, user, others)
    ensures FriendRows(friends, user, others + [last]) ==
      FriendRows(friends, user, others) + if Pair(user, last) in friends then {Pair(user, last)} else {}
  {
    forall p | p in friends && ((p.0 == user && p.1 == last) || (p.1 == user && p.0 == last))
      ensures p == Pair(user, last)
    {
    }
  }

  /** The COUNT test admits a list without repetition exactly when everyone on it is a friend. */
  lemma {:induction false} CountAdmitsFriends(friends: set<(UserId, UserId)>, user: UserId, others: seq<UserId>)
    requires Stored(friends) && user !in others
    requires forall i, j :: 0 <= i < j < |others| ==> others[i] != others[j]
    ensures |FriendRows(friends, user, others)| <= |others|
    ensures |FriendRows(friends, user, others)| == |others| <==>
      forall o :: o in others ==> Pair(user, o) in friends
  {
    if others == [] {
      assert FriendRows(friends, user, others) == {};
    } else {
      var rest, last := others[..|others| - 1], others[|others| - 1];
      assert others == rest + [last];
      assert last in others;
      CountAdmitsFriends(friends, user, rest);
      FriendRowsSnoc(friends, user, rest, last);
    }
  }

  // ---------- Steps ----------

  /** The deletion of `x` holds the row of the group. */
  predicate Holds(deleting: map<UserId, Deletion>, x: UserId, g: GroupId) {
    x in deleting && (g in deleting[x].locked || g in deleting[x].dropped)
  }

  ghost predicate Locked(s: State, g: GroupId) {
    exists x :: Holds(s.deleting, x, g)
  }

  ghost predicate LockedByOther(s: State, g: GroupId, y: UserId) {
    exists x :: x != y && Holds(s.deleting, x, g)
  }

  /** The membership row of a user whose deletion has deleted it waits for the commit. */
  predicate RowGone(s: State, g: GroupId, user: UserId) {
    user in s.deleting && g in s.deleting[user].left
  }

  ghost predicate Listing(members: map<UserId, int>, order: seq<UserId>) {
    && (forall u :: u in order <==> u in members)
    && (forall i, j :: 0 <= i < j < |order| ==> order[i] != order[j])
    && (forall i, j :: 0 <= i < j < |order| && order[i] in members && order[j] in members ==>
          members[order[i]] <= members[order[j]])
  }

  /** The first of the listed members other than `user`, if any: `remaining[0]`. */
  function FirstOther(order: seq<UserId>, user: UserId): Option<UserId> {
    if order == [] then None
    else if order[0] != user then Some(order[0])
    else FirstOther(order[1..], user)
  }

  function Joined(members: map<UserId, int>, ids: seq<UserId>, now: int): map<UserId, int> {
    if ids == [] then members else Joined(members, ids[..|ids| - 1], now)[ids[|ids| - 1] := now]
  }

  function Without(group: Group, user: UserId, heir: Option<UserId>): Group {
    Group(if group.owner == Some(user) || group.owner.None? then heir else group.owner, group.members - {user})
  }

  /** `ORDER BY m.joined_at ASC, m.user_id ASC LIMIT 1`. */
  ghost function Longest(members: map<UserId, int>): Option<UserId> {
    First(map u | u in members :: Rank(None, members[u], u))
  }

  function GroupsOf(groups: map<GroupId, Group>, x: UserId): set<GroupId> {
    set g | g in groups && x in groups[g].members
  }

  /** The members as the deletion of `x` sees them. */
  function SeenBy(s: State, x: UserId, g: GroupId): map<UserId, int>
    requires x in s.deleting && g in s.groups
  {
    if g in s.deleting[x].left then s.groups[g].members - {x} else s.groups[g].members
  }

  /** The groups without members that the deletion sees. */
  function Empty(s: State, x: UserId): set<GroupId>
    requires x in s.deleting
  {
    set g | g in s.groups && SeenBy(s, x, g) == map[]
  }

  /** The locked groups whose owner is gone, with the longest-standing member of each. */
  ghost function Heirs(s: State, x: UserId): map<GroupId, UserId>
    requires x in s.deleting
  {
    map g | g in s.groups && g in s.deleting[x].locked
            && (s.groups[g].owner == Some(x) || s.groups[g].owner.None?) && Longest(SeenBy(s, x, g)).Some?
      :: Longest(SeenBy(s, x, g)).value
  }

  /** A group when the deletion of `x` commits. */
  function Bereaved(group: Group, x: UserId, heir: Option<UserId>): Group {
    var owner := if heir.Some? then heir else group.owner;
    Group(if owner == Some(x) then None else owner, group.members - {x})
  }

  function HeirOf(d: Deletion, g: GroupId): Option<UserId> {
    if g in d.heirs then Some(d.heirs[g]) else None
  }

  ghost predicate Step(s: State, e: Event, t: State) {
    match e
    case Befriend(u, v) => u != v && t == s.(friends := s.friends + {Pair(u, v)})
    case Unfriend(u, v) => t == s.(friends := s.friends - {Pair(u, v)})
    case Create(g, who, ids, now) =>
      var others := Picked(ids, {who});
      && g !in s.groups && |ids| <= MAX_MEMBERS && |others| >= 2 && |others| + 1 <= MAX_MEMBERS
      && |FriendRows(s.friends, who, others)| == |others|
      && t == s.(groups := s.groups[g := Group(Some(who), Joined(map[who := now], others, now))])
    case Add(g, who, ids, now) =>
      && g in s.groups && !Locked(s, g) && |ids| <= MAX_MEMBERS && who in s.groups[g].members
      && var added := Picked(ids, s.groups[g].members.Keys);
         && added != [] && |s.groups[g].members| + |added| <= MAX_MEMBERS
         && |FriendRows(s.friends, who, added)| == |added|
         && t == s.(groups := s.groups[g := s.groups[g].(members := Joined(s.groups[g].members, added, now))])
    case Remove(g, who, user, order) =>
      && g in s.groups && !Locked(s, g) && who in s.groups[g].members
      && (user == who || s.groups[g].owner == Some(who)) && user in s.groups[g].members && !RowGone(s, g, user)
      && Listing(s.groups[g].members, order)
      && var heir := FirstOther(order, user);
         t == s.(groups := if heir.None? then s.groups - {g} else s.groups[g := Without(s.groups[g], user, heir)])
    case Collect(x) =>
      && x !in s.deleting
      && (forall g :: g in s.groups && x in s.groups[g].members ==> !Locked(s, g))
      && t == s.(deleting := s.deleting[x :=
           Deletion(Collected, GroupsOf(s.groups, x), {}, {}, map[])])
    case DeleteMemberships(x) =>
      && x in s.deleting && s.deleting[x].stage == Collected
      && t == s.(deleting := s.deleting[x := s.deleting[x].(stage := Left, left := GroupsOf(s.groups, x))])
    case Sweep(x) =>
      && x in s.deleting && s.deleting[x].stage == Left
      && (forall g :: g in Empty(s, x) ==> !LockedByOther(s, g, x))
      && t == s.(deleting := s.deleting[x := s.deleting[x].(
           stage := Swept, dropped := Empty(s, x), heirs := Heirs(s, x))])
    case Commit(x) =>
      && x in s.deleting && s.deleting[x].stage == Swept
      && (forall y :: y in s.deleting && y != x ==> x !in s.deleting[y].heirs.Values)
      && (forall g :: g in s.groups && s.groups[g].owner == Some(x) ==> !LockedByOther(s, g, x))
      && t == State(
           map g | g in s.groups && g !in s.deleting[x].dropped ::
             Bereaved(s.groups[g], x, HeirOf(s.deleting[x], g)),
           (set p | p in s.friends && p.0 != x && p.1 != x),
           s.deleting - {x})
    case Fail(x) =>
      x in s.deleting && t == s.(deleting := s.deleting - {x})
  }

  /** `states` is a run: each event leads from one state to the next. */
  ghost predicate IsRun(states: seq<State>, events: seq<Event>) {
    && |states| == |events| + 1
    && forall i {:trigger events[i]} :: 0 <= i < |events| ==> Step(states[i], events[i], states[i + 1])
  }

  // ---------- The invariant ----------

  /** One to eight members, the owner among them. */
  predicate GroupOk(group: Group) {
    1 <= |group.members| <= MAX_MEMBERS && group.owner.Some? && group.owner.value in group.members
  }

  lemma {:induction false} JoinedKeys(members: map<UserId, int>, ids: seq<UserId>, now: int)
    ensures forall u :: u in Joined(members, ids, now) <==> u in members || u in ids
  {
    if ids != [] {
      JoinedKeys(members, ids[..|ids| - 1], now);
      assert ids == ids[..|ids| - 1] + [ids[|ids| - 1]];
    }
  }

  lemma {:induction false} JoinedSize(members: map<UserId, int>, ids: seq<UserId>, now: int)
    requires forall i, j :: 0 <= i < j < |ids| ==> ids[i] != ids[j]
    requires forall u :: u in ids ==> u !in members
    ensures |Joined(members, ids, now)| == |members| + |ids|
  {
    if ids != [] {
      var rest, last := ids[..|ids| - 1], ids[|ids| - 1];
      JoinedSize(members, rest, now);
      JoinedKeys(members, rest, now);
      assert last in ids && last !in Joined(members, rest, now);
    }
  }

  lemma {:induction false} HeirIsOther(order: seq<UserId>, user: UserId)
    ensures FirstOther(order, user).None? ==> forall u :: u in order ==> u == user
    ensures FirstOther(order, user).Some? ==>
      FirstOther(order, user).value in order && FirstOther(order, user).value != user
  {
    if order != [] {
      assert order == [order[0]] + order[1..];
      HeirIsOther(order[1..], user);
    }
  }

  /** Whoever inherits a group joined no later than anyone else who stays. */
  lemma {:induction false} HeirJoinedFirst(members: map<UserId, int>, order: seq<UserId>, user: UserId, u: UserId)
    requires forall v :: v in order ==> v in members
    requires forall i, j :: 0 <= i < j < |order| ==> members[order[i]] <= members[order[j]]
    requires u in order && u != user
    ensures var heir := FirstOther(order, user);
      heir.Some? && heir.value in members && members[heir.value] <= members[u]
  {
    if order[0] == user {
      HeirJoinedFirst(members, order[1..], user, u);
    } else {
      var k :| 0 <= k < |order| && order[k] == u;
    }
  }

  // ---------- Each step ----------

  lemma CreatedOk(who: UserId, ids: seq<UserId>, now: int)
    requires |Picked(ids, {who})| + 1 <= MAX_MEMBERS
    ensures GroupOk(Group(Some(who), Joined(map[who := now], Picked(ids, {who}), now)))
  {
    PickedOnce(ids, {who});
    JoinedSize(map[who := now], Picked(ids, {who}), now);
  }

  lemma AddedOk(group: Group, ids: seq<UserId>, now: int)
    requires GroupOk(group) && |group.members| + |Picked(ids, group.members.Keys)| <= MAX_MEMBERS
    ensures GroupOk(group.(members := Joined(group.members, Picked(ids, group.members.Keys), now)))
  {
    PickedOnce(ids, group.members.Keys);
    JoinedSize(group.members, Picked(ids, group.members.Keys), now);
  }

  lemma SmallerWithout(members: map<UserId, int>, user: UserId)
    ensures |members - {user}| <= |members|
    ensures members - {user} != map[] ==> |members - {user}| >= 1
  {
    if user in members {
      assert members == (members - {user})[user := members[user]];
    } else {
      assert members - {user} == members;
    }
  }

  /**
    After a removal the group keeps its owner, or goes to one who joined no later than anyone left;
    with nobody left it is deleted.
   */
  lemma RemovalHandsOver(group: Group, user: UserId, order: seq<UserId>)
    requires GroupOk(group) && user in group.members && Listing(group.members, order)
    ensures var heir := FirstOther(order, user);
      && (heir.None? <==> group.members - {user} == map[])
      && (heir.Some? ==>
            var left := Without(group, user, heir);
            && GroupOk(left) && left.members == group.members - {user}
            && (group.owner != Some(user) ==> left.owner == group.owner)
            && (group.owner == Some(user) ==>
                  forall u :: u in left.members ==> left.members[left.owner.value] <= left.members[u]))
  {
    var heir := FirstOther(order, user);
    HeirIsOther(order, user);
    SmallerWithout(group.members, user);
    if heir.None? {
      forall u | u in group.members
        ensures u == user
      {
        assert u in order;
      }
    } else {
      assert heir.value in group.members - {user};
      forall u | u in group.members - {user}
        ensures group.members[heir.value] <= group.members[u]
      {
        HeirJoinedFirst(group.members, order, user, u);
      }
    }
  }

  /** The longest-standing member, the smaller id on a tie. */
  lemma LongestIsFirst(members: map<UserId, int>)
    ensures Longest(members).None? <==> members == map[]
    ensures Longest(members).Some? ==>
      var heir := Longest(members).value;
      heir in members && forall u :: u in members ==>
        members[heir] < members[u] || (members[heir] == members[u] && heir <= u)
  {
    var ranks := map u | u in members :: Rank(None, members[u], u);
    assert ranks.Keys == members.Keys;
    if Longest(members).Some? {
      var heir := Longest(members).value;
      forall u | u in members
        ensures members[heir] < members[u] || (members[heir] == members[u] && heir <= u)
      {
        assert Before(ranks[heir], ranks[u]);
      }
    }
  }
}
