/** What every step of a group DM's life keeps, account deletions included, and exactly when one does not. */
module GroupDeletion {
  import opened Options
  import opened Ranking
  import opened GroupDm

  // ---------- The invariant ----------

  /** The owner a locked group has after the deletion of `x`: someone else in it. */
  predicate KeepsOwner(group: Group, x: UserId, heir: Option<UserId>) {
    var owner := if heir.Some? then heir else group.owner;
    owner.Some? && owner.value != x && owner.value in group.members
  }

  /** What a deletion keeps about the groups it holds. */
  ghost predicate DeletionOk(groups: map<GroupId, Group>, x: UserId, d: Deletion) {
    && d.locked <= groups.Keys && d.dropped <= groups.Keys && d.heirs.Keys <= d.locked
    && (d.stage != Collected ==> d.locked <= d.left)
    && (d.stage != Swept ==> d.dropped == {} && d.heirs == map[])
    && (d.stage == Swept ==> forall g :: g in d.locked && g !in d.dropped ==> KeepsOwner(groups[g], x, HeirOf(d, g)))
    && (forall g :: g in d.dropped ==> groups[g].members - {x} == map[])
    && (d.stage != Swept ==> forall g :: g in d.locked ==> x in groups[g].members)
  }

  /** No two deletions hold one group. */
  ghost predicate HeldApart(deleting: map<UserId, Deletion>) {
    forall x, y, g {:trigger Holds(deleting, x, g), Holds(deleting, y, g)} ::
      Holds(deleting, x, g) && Holds(deleting, y, g) ==> x == y
  }

  ghost predicate DeletionsOk(s: State) {
    forall x :: x in s.deleting ==> DeletionOk(s.groups, x, s.deleting[x])
  }

  /** The part of the invariant about the groups. */
  ghost predicate GroupsOk(s: State) {
    forall g :: g in s.groups ==> GroupOk(s.groups[g])
  }

  ghost predicate Inv(s: State) {
    Stored(s.friends) && GroupsOk(s) && DeletionsOk(s) && HeldApart(s.deleting)
  }

  // ---------- Steps on one group ----------

  lemma Untouched(groups: map<GroupId, Group>, after: map<GroupId, Group>, g: GroupId, x: UserId, d: Deletion)
    requires DeletionOk(groups, x, d) && g !in d.locked && g !in d.dropped
    requires forall h :: h in groups && h != g ==> h in after && after[h] == groups[h]
    ensures DeletionOk(after, x, d)
  {
  }

  /** A step on a group that no deletion holds; the deletions stay as they are. */
  lemma FreeGroupKeeps(s: State, t: State, g: GroupId)
    requires Inv(s) && t.deleting == s.deleting && t.friends == s.friends
    requires forall x :: !Holds(s.deleting, x, g)
    requires forall h :: h in t.groups && h != g ==> h in s.groups && t.groups[h] == s.groups[h]
    requires forall h :: h in s.groups && h != g ==> h in t.groups
    requires g in t.groups ==> GroupOk(t.groups[g])
    ensures Inv(t)
  {
    forall x | x in t.deleting
      ensures DeletionOk(t.groups, x, t.deleting[x])
    {
      assert !Holds(s.deleting, x, g);
      Untouched(s.groups, t.groups, g, x, s.deleting[x]);
    }
  }

  lemma AddKeeps(s: State, e: Event, t: State)
    requires Inv(s) && Step(s, e, t) && e.Add?
    ensures Inv(t)
  {
    AddedOk(s.groups[e.g], e.ids, e.now);
    FreeGroupKeeps(s, t, e.g);
  }

  lemma RemoveKeeps(s: State, e: Event, t: State)
    requires Inv(s) && Step(s, e, t) && e.Remove?
    ensures Inv(t)
  {
    RemovalHandsOver(s.groups[e.g], e.user, e.order);
    FreeGroupKeeps(s, t, e.g);
  }

  /** A new group: no deletion holds an id that is not taken yet. */
  lemma CreateKeeps(s: State, e: Event, t: State)
    requires Inv(s) && Step(s, e, t) && e.Create?
    ensures Inv(t)
  {
    CreatedOk(e.who, e.ids, e.now);
    forall x
      ensures !Holds(s.deleting, x, e.g)
    {
      assert x in s.deleting ==> DeletionOk(s.groups, x, s.deleting[x]);
    }
    FreeGroupKeeps(s, t, e.g);
  }

  // ---------- Steps of a deletion ----------

  /** A deletion's own step before the commit: the others hold what they held. */
  lemma PutKeeps(s: State, x: UserId, d: Deletion)
    requires Inv(s) && DeletionOk(s.groups, x, d)
    requires forall g :: g in d.locked || g in d.dropped ==> !LockedByOther(s, g, x)
    ensures Inv(s.(deleting := s.deleting[x := d]))
  {
    var t := s.(deleting := s.deleting[x := d]);
    forall y, z, g | Holds(t.deleting, y, g) && Holds(t.deleting, z, g)
      ensures y == z
    {
      if y != x && z != x {
        assert Holds(s.deleting, y, g) && Holds(s.deleting, z, g);
      } else if y != z {
        var other := if y == x then z else y;
        assert Holds(s.deleting, other, g);
        assert LockedByOther(s, g, x);
      }
    }
  }

  lemma HeldAlone(s: State, x: UserId, g: GroupId)
    requires Inv(s) && Holds(s.deleting, x, g)
    ensures !LockedByOther(s, g, x)
  {
  }

  lemma CollectKeeps(s: State, x: UserId, t: State)
    requires Inv(s) && Step(s, Collect(x), t)
    ensures Inv(t)
  {
    forall g | g in t.deleting[x].locked
      ensures !LockedByOther(s, g, x)
    {
      assert !Locked(s, g);
    }
    PutKeeps(s, x, t.deleting[x]);
  }

  lemma DeleteMembershipsKeeps(s: State, x: UserId, t: State)
    requires Inv(s) && Step(s, DeleteMemberships(x), t)
    ensures Inv(t)
  {
    assert DeletionOk(s.groups, x, s.deleting[x]);
    forall g | g in t.deleting[x].locked
      ensures !LockedByOther(s, g, x)
    {
      assert Holds(s.deleting, x, g);
      HeldAlone(s, x, g);
    }
    PutKeeps(s, x, t.deleting[x]);
  }

  /** A locked group with someone else in it gets or keeps an owner who is one of them. */
  lemma SweptOwner(s: State, x: UserId, g: GroupId)
    requires Inv(s) && x in s.deleting && s.deleting[x].stage == Left && g in s.deleting[x].locked && g !in Empty(s, x)
    ensures var heirs := Heirs(s, x);
      KeepsOwner(s.groups[g], x, if g in heirs then Some(heirs[g]) else None)
  {
    assert DeletionOk(s.groups, x, s.deleting[x]) && GroupOk(s.groups[g]);
    LongestIsFirst(SeenBy(s, x, g));
  }

  lemma SweepKeeps(s: State, x: UserId, t: State)
    requires Inv(s) && Step(s, Sweep(x), t)
    ensures Inv(t)
  {
    var d := t.deleting[x];
    assert DeletionOk(s.groups, x, s.deleting[x]);
    forall g | g in d.locked && g !in d.dropped
      ensures KeepsOwner(s.groups[g], x, HeirOf(d, g))
    {
      SweptOwner(s, x, g);
    }
    forall g | g in d.dropped
      ensures s.groups[g].members - {x} == map[]
    {
      EmptySeen(s, x, g);
    }
    forall g | g in d.locked || g in d.dropped
      ensures !LockedByOther(s, g, x)
    {
      if g in d.locked {
        assert Holds(s.deleting, x, g);
        HeldAlone(s, x, g);
      }
    }
    PutKeeps(s, x, d);
  }

  lemma EmptySeen(s: State, x: UserId, g: GroupId)
    requires x in s.deleting && g in Empty(s, x)
    ensures s.groups[g].members - {x} == map[]
  {
    var members := s.groups[g].members;
    assert members == map[] ==> members - {x} == map[];
  }

  lemma FailKeeps(s: State, x: UserId, t: State)
    requires Inv(s) && Step(s, Fail(x), t)
    ensures Inv(t)
  {
    forall y, z, g | Holds(t.deleting, y, g) && Holds(t.deleting, z, g)
      ensures y == z
    {
      assert Holds(s.deleting, y, g) && Holds(s.deleting, z, g);
    }
  }

  // ---------- The commit of a deletion ----------

  /** A group the deletion of `x` neither locked nor deleted, and that `x` owns. */
  predicate Orphan(s: State, x: UserId, g: GroupId) {
    x in s.deleting && g in s.groups && !Holds(s.deleting, x, g) && s.groups[g].owner == Some(x)
  }

  /** What a group has lost when the deletion commits: its owner, if it was an orphan, and no more. */
  lemma BereavedOk(s: State, x: UserId, g: GroupId)
    requires Inv(s) && x in s.deleting && s.deleting[x].stage == Swept
    requires g in s.groups && g !in s.deleting[x].dropped
    ensures var after := Bereaved(s.groups[g], x, HeirOf(s.deleting[x], g));
      && after.members == s.groups[g].members - {x}
      && (GroupOk(after) <==> !Orphan(s, x, g))
      && (after.owner.None? <==> Orphan(s, x, g))
      && (after.members == map[] <==> Orphan(s, x, g) && s.groups[g].members.Keys == {x})
  {
    var group, d := s.groups[g], s.deleting[x];
    assert GroupOk(group) && DeletionOk(s.groups, x, d);
    SmallerWithout(group.members, x);
    if group.members - {x} == map[] {
      forall u | u in group.members
        ensures u == x
      {
        assert u != x ==> u in group.members - {x};
      }
      assert group.members.Keys == {x};
    }
    if !Orphan(s, x, g) {
      var owner := if g in d.heirs then d.heirs[g] else group.owner.value;
      assert owner in group.members - {x};
    }
  }

  /** A group another deletion holds only loses a member who is not its owner. */
  lemma OtherGroup(s: State, x: UserId, t: State, y: UserId, g: GroupId)
    requires Inv(s) && Step(s, Commit(x), t) && y != x && Holds(s.deleting, y, g)
    ensures g in s.groups && g in t.groups && s.groups[g].owner != Some(x)
    ensures t.groups[g] == Bereaved(s.groups[g], x, None)
  {
    assert !Holds(s.deleting, x, g);
    assert DeletionOk(s.groups, x, s.deleting[x]) && DeletionOk(s.groups, y, s.deleting[y]);
    assert LockedByOther(s, g, x);
  }

  lemma OtherHolds(
      groups: map<GroupId, Group>, after: map<GroupId, Group>, x: UserId, y: UserId, d: Deletion)
    requires x != y && DeletionOk(groups, y, d) && x !in d.heirs.Values
    requires forall g :: g in d.locked || g in d.dropped ==>
      g in after && groups[g].owner != Some(x) && after[g] == Bereaved(groups[g], x, None)
    ensures DeletionOk(after, y, d)
  {
    forall g | g in d.heirs
      ensures d.heirs[g] != x
    {
      assert d.heirs[g] in d.heirs.Values;
    }
    forall g | g in d.dropped
      ensures after[g].members - {y} == map[]
    {
      EmptyStays(groups[g].members, x, y);
    }
  }

  lemma EmptyStays(members: map<UserId, int>, x: UserId, y: UserId)
    requires members - {y} == map[]
    ensures members - {x} - {y} == map[]
  {
    forall u | u in members
      ensures u == y
    {
      assert u != y ==> u in members - {y};
    }
  }

  /** Another deletion keeps its own: its groups are not this one's, nor their owners its user. */
  lemma OtherKeeps(s: State, x: UserId, t: State, y: UserId)
    requires Inv(s) && Step(s, Commit(x), t) && y in t.deleting
    ensures DeletionOk(t.groups, y, t.deleting[y])
  {
    var d := s.deleting[y];
    assert DeletionOk(s.groups, y, d);
    forall g | g in d.locked || g in d.dropped
      ensures g in t.groups && s.groups[g].owner != Some(x) && t.groups[g] == Bereaved(s.groups[g], x, None)
    {
      assert Holds(s.deleting, y, g);
      OtherGroup(s, x, t, y, g);
    }
    OtherHolds(s.groups, t.groups, x, y, d);
  }

  lemma CommitKeepsDeletions(s: State, x: UserId, t: State)
    requires Inv(s) && Step(s, Commit(x), t)
    ensures Stored(t.friends) && DeletionsOk(t) && HeldApart(t.deleting)
  {
    forall y | y in t.deleting
      ensures DeletionOk(t.groups, y, t.deleting[y])
    {
      OtherKeeps(s, x, t, y);
    }
    forall y, z, g | Holds(t.deleting, y, g) && Holds(t.deleting, z, g)
      ensures y == z
    {
      assert Holds(s.deleting, y, g) && Holds(s.deleting, z, g);
    }
  }

  /** A committed deletion leaves every group in order exactly if it orphans none. */
  lemma CommitKeepsExactly(s: State, x: UserId, t: State)
    requires Inv(s) && Step(s, Commit(x), t)
    ensures Inv(t) <==> forall g :: g in s.groups ==> !Orphan(s, x, g)
  {
    CommitKeepsDeletions(s, x, t);
    forall g | g in s.groups && g !in s.deleting[x].dropped
      ensures g in t.groups && (GroupOk(t.groups[g]) <==> !Orphan(s, x, g))
    {
      BereavedOk(s, x, g);
    }
    if Inv(t) {
      forall g | g in s.groups
        ensures !Orphan(s, x, g)
      {
        if g !in s.deleting[x].dropped {
          assert GroupOk(t.groups[g]);
        }
      }
    }
  }

  /**
    Each of the two failures exactly: a group is left without an owner if it was an orphan, and without
    a member, still stored, if its user was moreover alone in it.
   */
  lemma OrphansExactly(s: State, x: UserId, t: State, g: GroupId)
    requires Inv(s) && Step(s, Commit(x), t)
    ensures g in t.groups && t.groups[g].owner.None? <==> Orphan(s, x, g)
    ensures g in t.groups && t.groups[g].members == map[] <==> Orphan(s, x, g) && s.groups[g].members.Keys == {x}
  {
    if g in s.groups && g !in s.deleting[x].dropped {
      BereavedOk(s, x, g);
    }
  }

  // ---------- Every step ----------

  /** Every step but a commit keeps the invariant. */
  lemma StepKeeps(s: State, e: Event, t: State)
    requires Inv(s) && Step(s, e, t) && !e.Commit?
    ensures Inv(t)
  {
    match e
    case Create(_, _, _, _) => CreateKeeps(s, e, t);
    case Add(_, _, _, _) => AddKeeps(s, e, t);
    case Remove(_, _, _, _) => RemoveKeeps(s, e, t);
    case Collect(x) => CollectKeeps(s, x, t);
    case DeleteMemberships(x) => DeleteMembershipsKeeps(s, x, t);
    case Sweep(x) => SweepKeeps(s, x, t);
    case Fail(x) => FailKeeps(s, x, t);
    case _ =>
  }

  // ---------- Whole runs ----------

  /** The event puts `x` into a group: `x` starts one, or someone names `x`. */
  predicate Names(e: Event, x: UserId) {
    match e
    case Create(_, who, ids, _) => who == x || x in ids
    case Add(_, _, ids, _) => x in ids
    case _ => false
  }

  predicate Ends(e: Event, x: UserId) {
    e == Commit(x) || e == Fail(x)
  }

  /** All groups of a user whose deletion has begun are locked. */
  ghost predicate AllLocked(s: State, x: UserId) {
    x in s.deleting && forall g :: g in s.groups && x in s.groups[g].members ==> g in s.deleting[x].locked
  }

  /** A list of people puts in nobody it does not name. */
  lemma JoinedOnlyByName(members: map<UserId, int>, ids: seq<UserId>, known: set<UserId>, now: int, x: UserId)
    requires x !in ids && x in Joined(members, Picked(ids, known), now)
    ensures x in members
  {
    PickedOnce(ids, known);
    JoinedKeys(members, Picked(ids, known), now);
  }

  lemma CreatedByName(s: State, e: Event, t: State, x: UserId, g: GroupId)
    requires e.Create? && Step(s, e, t) && !Names(e, x) && g in t.groups && x in t.groups[g].members
    ensures g in s.groups && x in s.groups[g].members
  {
    if g == e.g {
      JoinedOnlyByName(map[e.who := e.now], e.ids, {e.who}, e.now, x);
    }
  }

  lemma AddedByName(s: State, e: Event, t: State, x: UserId, g: GroupId)
    requires e.Add? && Step(s, e, t) && !Names(e, x) && g in t.groups && x in t.groups[g].members
    ensures g in s.groups && x in s.groups[g].members
  {
    if g == e.g {
      JoinedOnlyByName(s.groups[g].members, e.ids, s.groups[g].members.Keys, e.now, x);
    }
  }

  lemma MembersOnlyByName(s: State, e: Event, t: State, x: UserId, g: GroupId)
    requires Step(s, e, t) && !Names(e, x) && g in t.groups && x in t.groups[g].members
    ensures g in s.groups && x in s.groups[g].members
  {
    match e
    case Create(_, _, _, _) => CreatedByName(s, e, t, x, g);
    case Add(_, _, _, _) => AddedByName(s, e, t, x, g);
    case _ =>
  }

  lemma LockedStay(s: State, e: Event, t: State, x: UserId)
    requires Step(s, e, t) && x in s.deleting && !Ends(e, x)
    ensures x in t.deleting && t.deleting[x].locked == s.deleting[x].locked
  {
  }

  lemma AllLockedKeeps(s: State, e: Event, t: State, x: UserId)
    requires AllLocked(s, x) && Step(s, e, t) && !Names(e, x) && !Ends(e, x)
    ensures AllLocked(t, x)
  {
    LockedStay(s, e, t, x);
    forall g | g in t.groups && x in t.groups[g].members
      ensures g in t.deleting[x].locked
    {
      MembersOnlyByName(s, e, t, x, g);
    }
  }

  lemma {:induction false} LockedUntilEnd(states: seq<State>, events: seq<Event>, x: UserId, i: nat, n: nat)
    requires IsRun(states, events) && i < n <= |events| && events[i] == Collect(x)
    requires forall k :: i < k < n ==> !Names(events[k], x) && !Ends(events[k], x)
    ensures AllLocked(states[n], x)
  {
    if n > i + 1 {
      LockedUntilEnd(states, events, x, i, n - 1);
      AllLockedKeeps(states[n - 1], events[n - 1], states[n], x);
    } else {
      assert Step(states[i], events[i], states[i + 1]);
    }
  }

  /** `i` is where the deletion that commits at `n` began, and nobody put its user into a group since. */
  ghost predicate Undisturbed(events: seq<Event>, n: nat, i: nat)
    requires n < |events| && events[n].Commit?
  {
    && i < n && events[i] == Collect(events[n].user)
    && forall k :: i < k < n ==> !Names(events[k], events[n].user) && !Ends(events[k], events[n].user)
  }

  ghost predicate Calm(events: seq<Event>, n: nat) {
    n < |events| && events[n].Commit? ==> exists i :: Undisturbed(events, n, i)
  }

  /** The deletions that committed before the `n`-th state were calm. */
  ghost predicate AllCalm(events: seq<Event>, n: nat) {
    n == 0 || (Calm(events, n - 1) && AllCalm(events, n - 1))
  }

  lemma NoOrphans(s: State, x: UserId, g: GroupId)
    requires Inv(s) && AllLocked(s, x) && g in s.groups
    ensures !Orphan(s, x, g)
  {
    assert GroupOk(s.groups[g]);
  }

  lemma CalmCommit(states: seq<State>, events: seq<Event>, n: nat)
    requires IsRun(states, events) && n < |events| && events[n].Commit? && Calm(events, n) && Inv(states[n])
    ensures Inv(states[n + 1])
  {
    var i :| Undisturbed(events, n, i);
    var x := events[n].user;
    LockedUntilEnd(states, events, x, i, n);
    forall g | g in states[n].groups
      ensures !Orphan(states[n], x, g)
    {
      NoOrphans(states[n], x, g);
    }
    CommitKeepsExactly(states[n], x, states[n + 1]);
  }

  lemma CalmStep(states: seq<State>, events: seq<Event>, n: nat)
    requires IsRun(states, events) && n < |events| && Calm(events, n) && Inv(states[n])
    ensures Inv(states[n + 1])
  {
    if events[n].Commit? {
      CalmCommit(states, events, n);
    } else {
      StepKeeps(states[n], events[n], states[n + 1]);
    }
  }

  /**
    In every run where nobody puts a user into a group while that user's deletion runs, every group
    has one to eight members and its owner is one of them, deletions included.
   */
  lemma GroupsStayInOrder(states: seq<State>, events: seq<Event>, n: nat)
    requires IsRun(states, events) && Inv(states[0]) && n < |states| && AllCalm(events, n)
    ensures Inv(states[n])
  {
    for k := 0 to n
      invariant Inv(states[k])
    {
      CalmAt(events, n, k);
      CalmStep(states, events, k);
    }
  }

  lemma {:induction false} CalmAt(events: seq<Event>, n: nat, k: nat)
    requires AllCalm(events, n) && k < n
    ensures Calm(events, k)
  {
    if k < n - 1 {
      CalmAt(events, n - 1, k);
    }
  }

  // ---------- Who inherits ----------

  /** What locks alone keep, even where a group has lost its owner. */
  predicate LockOk(s: State, x: UserId)
    requires x in s.deleting
  {
    var d := s.deleting[x];
    && d.locked <= s.groups.Keys && d.dropped <= s.groups.Keys && d.heirs.Keys <= d.locked
    && (if d.stage == Collected then d.locked <= GroupsOf(s.groups, x) else d.locked <= d.left)
    && (d.stage != Swept ==> d.dropped == {} && d.heirs == map[])
  }

  /** `heir` is a member who joined before everyone else but `x`, with the smaller id on a tie. */
  predicate JoinedFirst(members: map<UserId, int>, x: UserId, heir: UserId) {
    && heir in members && heir != x
    && forall u :: u in members && u != x ==>
         members[heir] < members[u] || (members[heir] == members[u] && heir <= u)
  }

  predicate Ownerless(group: Group, x: UserId) {
    group.owner == Some(x) || group.owner.None?
  }

  /** The new owners a deletion has written joined first, and no group it swept is left to its user. */
  ghost predicate HeirsOk(s: State, x: UserId)
    requires x in s.deleting
  {
    var d := s.deleting[x];
    && LockOk(s, x)
    && (forall g :: g in d.heirs ==> JoinedFirst(s.groups[g].members, x, d.heirs[g]) && Ownerless(s.groups[g], x))
    && (d.stage == Swept ==>
          forall g :: g in d.locked && g !in d.dropped && Ownerless(s.groups[g], x) ==> g in d.heirs)
  }

  ghost predicate AllHeirsOk(s: State) {
    HeldApart(s.deleting) && forall x :: x in s.deleting ==> HeirsOk(s, x)
  }

  lemma SeenByDeletion(s: State, x: UserId, g: GroupId)
    requires AllHeirsOk(s) && x in s.deleting && s.deleting[x].stage == Left && g in s.deleting[x].locked
    ensures g in s.groups && SeenBy(s, x, g) == s.groups[g].members - {x}
    ensures g in Heirs(s, x) ==> JoinedFirst(s.groups[g].members, x, Heirs(s, x)[g])
    ensures g !in Empty(s, x) && Ownerless(s.groups[g], x) ==> g in Heirs(s, x)
  {
    assert LockOk(s, x);
    LongestIsFirst(SeenBy(s, x, g));
    assert forall u :: u in s.groups[g].members && u != x ==> u in SeenBy(s, x, g);
  }

  /** The sweep picks the one who joined first. */
  lemma SweepHeirs(s: State, x: UserId, t: State)
    requires AllHeirsOk(s) && Step(s, Sweep(x), t)
    ensures HeirsOk(t, x)
  {
    assert LockOk(s, x);
    forall g | g in s.deleting[x].locked
      ensures g in s.groups && (g in Heirs(s, x) ==> JoinedFirst(s.groups[g].members, x, Heirs(s, x)[g]))
      ensures g !in Empty(s, x) && Ownerless(s.groups[g], x) ==> g in Heirs(s, x)
    {
      SeenByDeletion(s, x, g);
    }
  }

  lemma CollectHeirs(s: State, x: UserId, t: State)
    requires Step(s, Collect(x), t)
    ensures HeirsOk(t, x)
  {
  }

  lemma LeaveHeirs(s: State, x: UserId, t: State)
    requires AllHeirsOk(s) && Step(s, DeleteMemberships(x), t)
    ensures HeirsOk(t, x)
  {
    assert LockOk(s, x);
  }

  /** Someone who joined first stays first when another one goes. */
  lemma FirstStays(members: map<UserId, int>, x: UserId, heir: UserId, gone: UserId)
    requires JoinedFirst(members, x, heir) && gone != heir
    ensures JoinedFirst(members - {gone}, x, heir)
  {
  }

  /** The deletion's groups, compared: untouched, or without a user who goes with another account. */
  ghost predicate HeldLose(s: State, t: State, x: UserId, gone: UserId) {
    x in s.deleting && x != gone && gone !in s.deleting[x].heirs.Values
    && forall g :: Holds(s.deleting, x, g) && g in s.groups ==>
         g in t.groups && s.groups[g].owner != Some(gone)
         && (t.groups[g] == s.groups[g] || t.groups[g] == Bereaved(s.groups[g], gone, None))
  }

  lemma LosersKeepHeirs(s: State, t: State, x: UserId, gone: UserId)
    requires HeldLose(s, t, x, gone) && HeirsOk(s, x) && x in t.deleting && t.deleting[x] == s.deleting[x]
    ensures HeirsOk(t, x)
  {
    var d := s.deleting[x];
    forall g | g in d.locked || g in d.dropped
      ensures g in t.groups && Ownerless(t.groups[g], x) == Ownerless(s.groups[g], x)
      ensures x in s.groups[g].members ==> x in t.groups[g].members
      ensures g in d.heirs ==> JoinedFirst(t.groups[g].members, x, d.heirs[g])
    {
      assert Holds(s.deleting, x, g);
      if g in d.heirs {
        assert d.heirs[g] in d.heirs.Values;
        FirstStays(s.groups[g].members, x, d.heirs[g], gone);
      }
    }
  }

  /** Another deletion's commit takes no heir, and nothing but a member from a group held by this one. */
  lemma CommitLoses(s: State, y: UserId, t: State, x: UserId)
    requires AllHeirsOk(s) && Step(s, Commit(y), t) && x in t.deleting
    ensures HeldLose(s, t, x, y)
  {
    forall g | Holds(s.deleting, x, g) && g in s.groups
      ensures g in t.groups && s.groups[g].owner != Some(y) && t.groups[g] == Bereaved(s.groups[g], y, None)
    {
      assert !Holds(s.deleting, y, g);
      assert LockOk(s, y) && LockedByOther(s, g, y);
    }
  }

  /** No other step touches a group that a deletion holds. */
  lemma HeldUntouched(s: State, e: Event, t: State, x: UserId, g: GroupId)
    requires Step(s, e, t) && !e.Commit? && Holds(s.deleting, x, g) && g in s.groups
    ensures g in t.groups && t.groups[g] == s.groups[g]
  {
    assert Locked(s, g);
  }

  /** The event is the next statement of the deletion of `x`. */
  predicate Moves(e: Event, x: UserId) {
    e == Collect(x) || e == DeleteMemberships(x) || e == Sweep(x)
  }

  lemma OthersDeletion(s: State, e: Event, t: State, x: UserId)
    requires Step(s, e, t) && x in t.deleting && !Moves(e, x)
    ensures x in s.deleting && t.deleting[x] == s.deleting[x]
  {
  }

  lemma OtherStepKeepsHeirs(s: State, e: Event, t: State, x: UserId)
    requires AllHeirsOk(s) && Step(s, e, t) && x in t.deleting && !Moves(e, x)
    ensures HeirsOk(t, x)
  {
    OthersDeletion(s, e, t, x);
    if e.Commit? {
      CommitLoses(s, e.user, t, x);
      LosersKeepHeirs(s, t, x, e.user);
    } else {
      assert HeirsOk(s, x);
      forall g | Holds(s.deleting, x, g) && g in s.groups
        ensures g in t.groups && t.groups[g] == s.groups[g]
      {
        HeldUntouched(s, e, t, x, g);
      }
    }
  }

  lemma StepKeepsHeld(s: State, e: Event, t: State)
    requires AllHeirsOk(s) && Step(s, e, t)
    ensures HeldApart(t.deleting)
  {
    forall y, z, g | Holds(t.deleting, y, g) && Holds(t.deleting, z, g)
      ensures y == z
    {
      HeldBefore(s, e, t, y, g);
      HeldBefore(s, e, t, z, g);
      if z != y && Moves(e, y) {
        HeldNewly(s, e, t, y, g, z);
      } else if z != y && Moves(e, z) {
        HeldNewly(s, e, t, z, g, y);
      }
    }
  }

  lemma HeldBefore(s: State, e: Event, t: State, y: UserId, g: GroupId)
    requires Step(s, e, t) && Holds(t.deleting, y, g)
    ensures !Moves(e, y) ==> Holds(s.deleting, y, g)
  {
    if !Moves(e, y) {
      OthersDeletion(s, e, t, y);
    }
  }

  /** What a deletion comes to hold, no other holds. */
  lemma HeldNewly(s: State, e: Event, t: State, y: UserId, g: GroupId, z: UserId)
    requires AllHeirsOk(s) && Step(s, e, t) && Moves(e, y) && Holds(t.deleting, y, g) && z != y
    ensures !Holds(s.deleting, z, g)
  {
    if e.Collect? {
      assert !Locked(s, g);
    } else if e.Sweep? && g in Empty(s, y) {
      assert !LockedByOther(s, g, y);
    } else {
      assert Holds(s.deleting, y, g);
    }
  }

  lemma StepKeepsHeirs(s: State, e: Event, t: State)
    requires AllHeirsOk(s) && Step(s, e, t)
    ensures AllHeirsOk(t)
  {
    StepKeepsHeld(s, e, t);
    forall x | x in t.deleting
      ensures HeirsOk(t, x)
    {
      if e == Collect(x) {
        CollectHeirs(s, x, t);
      } else if e == DeleteMemberships(x) {
        LeaveHeirs(s, x, t);
      } else if e == Sweep(x) {
        SweepHeirs(s, x, t);
      } else {
        OtherStepKeepsHeirs(s, e, t, x);
      }
    }
  }

  lemma {:induction false} HeirsKeep(states: seq<State>, events: seq<Event>, n: nat)
    requires IsRun(states, events) && AllHeirsOk(states[0]) && n < |states|
    ensures AllHeirsOk(states[n])
  {
    if n > 0 {
      HeirsKeep(states, events, n - 1);
      assert Step(states[n - 1], events[n - 1], states[n]);
      StepKeepsHeirs(states[n - 1], events[n - 1], states[n]);
    }
  }

  lemma CommittedHeir(s: State, x: UserId, t: State, g: GroupId)
    requires AllHeirsOk(s) && Step(s, Commit(x), t) && g in s.deleting[x].locked && g !in s.deleting[x].dropped
    ensures g in s.groups && g in t.groups && t.groups[g].members == s.groups[g].members - {x}
    ensures if Ownerless(s.groups[g], x) then
        t.groups[g].owner.Some? && JoinedFirst(t.groups[g].members, x, t.groups[g].owner.value)
      else t.groups[g].owner == s.groups[g].owner
  {
    assert HeirsOk(s, x);
    if g in s.deleting[x].heirs {
      FirstStays(s.groups[g].members, x, s.deleting[x].heirs[g], x);
    }
  }

  /**
    When a deletion commits, in any run, each group it locked and has not deleted that its user owned, or
    that had no owner, belongs to the one who joined first of all who are left, whatever other deletions
    took from it meanwhile; any other locked group keeps its owner.
   */
  lemma GoesToTheFirst(states: seq<State>, events: seq<Event>, n: nat, x: UserId, g: GroupId)
    requires IsRun(states, events) && AllHeirsOk(states[0])
    requires n < |events| && events[n] == Commit(x) && x in states[n].deleting
    requires g in states[n].deleting[x].locked && g !in states[n].deleting[x].dropped
    ensures g in states[n].groups && g in states[n + 1].groups
    ensures var group, after := states[n].groups[g], states[n + 1].groups[g];
      if Ownerless(group, x) then
        && after.owner.Some? && after.owner.value in after.members
        && forall u :: u in after.members ==>
             after.members[after.owner.value] < after.members[u]
             || (after.members[after.owner.value] == after.members[u] && after.owner.value <= u)
      else after.owner == group.owner
  {
    HeirsKeep(states, events, n);
    assert Step(states[n], events[n], states[n + 1]);
    CommittedHeir(states[n], x, states[n + 1], g);
  }

  // ---------- Runs that leave a group out of order ----------

  /** 1 is alone in a group, a friend of 2 and 3; the deletion of 2 has locked nothing. */
  const ALONE := Group(Some(1), map[1 := 0])
  const BEGUN := State(map[0 := ALONE], {(1, 2), (1, 3)}, map[2 := Deletion(Collected, {}, {}, {}, map[])])

  function With(s: State, group: Group): State {
    s.(groups := s.groups[0 := group])
  }

  const ADDED := With(BEGUN, Group(Some(1), map[1 := 0, 2 := 5, 3 := 5]))

  /** 1 has left; 2 and 3 joined together, and the query happened to list 2 first. */
  const LEFT := With(ADDED, Group(Some(2), map[2 := 5, 3 := 5]))

  lemma PickedSnoc(ids: seq<UserId>, id: UserId, known: set<UserId>)
    requires id !in known && id !in ids
    ensures Picked(ids + [id], known) == Picked(ids, known) + [id]
  {
    PickedOnce(ids, known);
    assert (ids + [id])[..|ids|] == ids;
  }

  lemma JoinedSnoc(members: map<UserId, int>, ids: seq<UserId>, id: UserId, now: int)
    ensures Joined(members, ids + [id], now) == Joined(members, ids, now)[id := now]
  {
    assert (ids + [id])[..|ids|] == ids;
  }

  lemma PickedOne()
    ensures Picked([2], {1}) == [2] && Joined(map[1 := 0], [2], 5) == map[1 := 0, 2 := 5]
  {
    var none: seq<UserId> := [];
    PickedSnoc(none, 2, {1});
    JoinedSnoc(map[1 := 0], none, 2, 5);
    assert none + [2] == [2];
  }

  lemma PickedBoth()
    ensures Picked([2, 3], {1}) == [2, 3]
    ensures Joined(map[1 := 0], [2, 3], 5) == map[1 := 0, 2 := 5, 3 := 5]
  {
    PickedOne();
    PickedSnoc([2], 3, {1});
    JoinedSnoc(map[1 := 0], [2], 3, 5);
    assert [2] + [3] == [2, 3];
  }

  lemma FriendsCounted(ids: seq<UserId>)
    requires ids == [2] || ids == [2, 3]
    ensures |FriendRows({(1, 2), (1, 3)}, 1, ids)| == |ids|
  {
    CountAdmitsFriends({(1, 2), (1, 3)}, 1, ids);
  }

  /** Deletions that have locked and deleted nothing hold no group. */
  ghost predicate NothingHeld(s: State) {
    forall x :: x in s.deleting ==> s.deleting[x].locked == {} && s.deleting[x].dropped == {}
  }

  /** 1, alone in a group, adds others. */
  lemma AddedBy1(s: State, ids: seq<UserId>, members: map<UserId, int>)
    requires 0 in s.groups && s.groups[0] == ALONE && NothingHeld(s) && 1 <= |ids| <= 2
    requires Picked(ids, {1}) == ids && |FriendRows(s.friends, 1, ids)| == |ids|
    requires members == Joined(map[1 := 0], ids, 5)
    ensures Step(s, Add(0, 1, ids, 5), With(s, Group(Some(1), members)))
  {
    assert ALONE.members.Keys == {1} && |ALONE.members| == 1;
  }

  /** 1 leaves a group of their own, and 2 is listed first of the others. */
  lemma LeftTo2(s: State, members: map<UserId, int>, order: seq<UserId>, rest: map<UserId, int>)
    requires 0 in s.groups && s.groups[0] == Group(Some(1), members) && NothingHeld(s) && 1 !in s.deleting
    requires 1 in members && Listing(members, order) && FirstOther(order, 1) == Some(2) && rest == members - {1}
    ensures Step(s, Remove(0, 1, 1, order), With(s, Group(Some(2), rest)))
  {
  }

  lemma BothAdded()
    ensures Step(BEGUN, Add(0, 1, [2, 3], 5), ADDED)
  {
    PickedBoth();
    FriendsCounted([2, 3]);
    AddedBy1(BEGUN, [2, 3], map[1 := 0, 2 := 5, 3 := 5]);
  }

  lemma ListedAll(members: map<UserId, int>)
    requires members == map[1 := 0, 2 := 5, 3 := 5]
    ensures Listing(members, [1, 2, 3]) && FirstOther([1, 2, 3], 1) == Some(2)
    ensures members - {1} == map[2 := 5, 3 := 5]
  {
    assert [1, 2, 3][1..] == [2, 3];
  }

  lemma HandedToTheDeleted()
    ensures Step(ADDED, Remove(0, 1, 1, [1, 2, 3]), LEFT)
  {
    var members := map[1 := 0, 2 := 5, 3 := 5];
    ListedAll(members);
    LeftTo2(ADDED, members, [1, 2, 3], map[2 := 5, 3 := 5]);
  }

  /** One group in order, and one deletion that holds nothing. */
  lemma InOrder(s: State, group: Group, x: UserId, d: Deletion)
    requires s.groups == map[0 := group] && GroupOk(group) && Stored(s.friends)
    requires s.deleting == map[x := d] && d.locked == {} && d.dropped == {} && d.heirs == map[]
    ensures Inv(s)
  {
    assert s.deleting[x] == d;
  }

  lemma BegunOk()
    ensures Inv(BEGUN) && AllLocked(BEGUN, 2)
  {
    InOrder(BEGUN, ALONE, 2, Deletion(Collected, {}, {}, {}, map[]));
    assert BEGUN.groups[0] == ALONE;
  }

  /** The deletion of 2 goes on: it deletes its membership and finds someone left in the group. */
  const GOING := LEFT.(deleting := map[2 := Deletion(Left, {}, {0}, {}, map[])])
  const PASSED := LEFT.(deleting := map[2 := Deletion(Swept, {}, {0}, {}, map[])])

  lemma LeftAlone()
    ensures LEFT.groups[0] == Group(Some(2), map[2 := 5, 3 := 5]) && LEFT.groups[0].members - {2} == map[3 := 5]
    ensures SeenBy(GOING, 2, 0) != map[]
  {
    var members := LEFT.groups[0].members;
    assert 3 in members - {2};
  }

  lemma GoesOut()
    ensures Step(LEFT, DeleteMemberships(2), GOING)
  {
    LeftAlone();
    assert GroupsOf(LEFT.groups, 2) == {0};
    assert LEFT.deleting[2] == Deletion(Collected, {}, {}, {}, map[]);
  }

  lemma GoesOn()
    ensures Step(GOING, Sweep(2), PASSED)
  {
    LeftAlone();
    assert GOING.deleting[2] == Deletion(Left, {}, {0}, {}, map[]);
    assert Empty(GOING, 2) == {};
    assert Heirs(GOING, 2) == map[];
  }

  lemma PassedOk()
    ensures Inv(PASSED)
  {
    LeftAlone();
    assert LEFT.groups[0].members.Keys == {2, 3};
    InOrder(PASSED, LEFT.groups[0], 2, Deletion(Swept, {}, {0}, {}, map[]));
  }

  /**
    A deletion can leave a group without an owner: 1 adds 2 and 3 after the deletion of 2 locked its
    groups, then leaves. The group is 2's, and no step of the deletion gives it to 3.
   */
  lemma OwnerLost(t: State)
    requires Step(PASSED, Commit(2), t)
    ensures Inv(BEGUN) && AllLocked(BEGUN, 2)
    ensures Step(BEGUN, Add(0, 1, [2, 3], 5), ADDED) && Step(ADDED, Remove(0, 1, 1, [1, 2, 3]), LEFT)
    ensures Step(LEFT, DeleteMemberships(2), GOING) && Step(GOING, Sweep(2), PASSED)
    ensures 0 in t.groups && t.groups[0] == Group(None, map[3 := 5])
  {
    BegunOk();
    BothAdded();
    HandedToTheDeleted();
    GoesOut();
    GoesOn();
    PassedLoses(t);
  }

  lemma PassedLoses(t: State)
    requires Step(PASSED, Commit(2), t)
    ensures 0 in t.groups && t.groups[0] == Group(None, map[3 := 5])
  {
    PassedOk();
    LeftAlone();
    assert Orphan(PASSED, 2, 0);
    OrphansExactly(PASSED, 2, t, 0);
  }

  /** The same group after the deletion of 2 has swept and found nothing. */
  const SWEPT := BEGUN.(deleting := map[2 := Deletion(Swept, {}, {}, {}, map[])])
  const PAIR := With(SWEPT, Group(Some(1), map[1 := 0, 2 := 5]))
  const HIS := With(PAIR, Group(Some(2), map[2 := 5]))

  lemma OneAdded()
    ensures Step(SWEPT, Add(0, 1, [2], 5), PAIR)
  {
    PickedOne();
    FriendsCounted([2]);
    AddedBy1(SWEPT, [2], map[1 := 0, 2 := 5]);
  }

  lemma OneLeaves()
    ensures Step(PAIR, Remove(0, 1, 1, [1, 2]), HIS)
  {
    var members := map[1 := 0, 2 := 5];
    assert [1, 2][1..] == [2] && FirstOther([1, 2], 1) == Some(2);
    assert members - {1} == map[2 := 5];
    LeftTo2(PAIR, members, [1, 2], map[2 := 5]);
  }

  lemma SweptOk()
    ensures Inv(SWEPT)
  {
    InOrder(SWEPT, ALONE, 2, Deletion(Swept, {}, {}, {}, map[]));
  }

  lemma HisOk()
    ensures Inv(HIS)
  {
    InOrder(HIS, Group(Some(2), map[2 := 5]), 2, Deletion(Swept, {}, {}, {}, map[]));
  }

  lemma HisStays(t: State)
    requires Step(HIS, Commit(2), t)
    ensures 0 in t.groups && t.groups[0].members == map[] && t.groups[0].owner.None?
  {
    HisOk();
    assert HIS.groups[0] == Group(Some(2), map[2 := 5]) && HIS.groups[0].members.Keys == {2};
    assert Orphan(HIS, 2, 0);
    OrphansExactly(HIS, 2, t, 0);
  }

  /**
    And it can leave a group stored without any member: 1 adds 2 after the deletion of 2 has deleted
    the groups without members, and leaves; the membership of 2 goes with the account.
   */
  lemma EmptyGroupStays(t: State)
    requires Step(HIS, Commit(2), t)
    ensures Inv(SWEPT) && Step(SWEPT, Add(0, 1, [2], 5), PAIR) && Step(PAIR, Remove(0, 1, 1, [1, 2]), HIS)
    ensures 0 in t.groups && t.groups[0].members == map[] && t.groups[0].owner.None?
  {
    SweptOk();
    OneAdded();
    OneLeaves();
    HisStays(t);
  }
}
