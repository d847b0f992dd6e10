/** The group handlers of apps/server/src/routes/dm.rs as they run, each in its transaction. */
module GroupTables {
  import opened Options
  import opened Ranking
  import opened GroupDm
  import opened GroupDeletion

  class Tables {
    var groups: map<GroupId, Group>
    var friends: set<(UserId, UserId)>

    function State(): GroupDm.State
      reads this
    {
      GroupDm.State(groups, friends, map[])
    }

    ghost predicate Valid()
      reads this
    {
      Inv(State())
    }

    constructor ()
      ensures Valid() && groups == map[] && friends == {}
    {
      groups, friends := map[], {};
    }

    method EnsureFriendsWith(user: UserId, others: seq<UserId>) returns (ok: bool)
      requires Valid() && user !in others
      requires forall i, j :: 0 <= i < j < |others| ==> others[i] != others[j]
      ensures ok <==> forall o :: o in others ==> Pair(user, o) in friends
      ensures ok <==> |FriendRows(friends, user, others)| == |others|
    {
      CountAdmitsFriends(friends, user, others);
      ok := |FriendRows(friends, user, others)| == |others|;
    }

    /** Starts a group, or refuses exactly where the transition does. */
    method CreateGroupDm(g: GroupId, who: UserId, ids: seq<UserId>, now: int) returns (ok: bool)
      requires Valid() && g !in groups
      modifies this`groups
      ensures Valid()
      ensures ok ==> Step(old(State()), Create(g, who, ids, now), State())
      ensures !ok ==> groups == old(groups) && forall t :: !Step(State(), Create(g, who, ids, now), t)
    {
      if |ids| > MAX_MEMBERS {
        return false;
      }
      var others := PickMembers(ids, {who});
      if |others| < 2 || |others| + 1 > MAX_MEMBERS {
        return false;
      }
      PickedOnce(ids, {who});
      ok := EnsureFriendsWith(who, others);
      if !ok {
        return;
      }
      ghost var before := State();
      groups := groups[g := Group(Some(who), Joined(map[who := now], others, now))];
      CreateKeeps(before, Create(g, who, ids, now), State());
    }

    method AddGroupDmMembers(g: GroupId, who: UserId, ids: seq<UserId>, now: int) returns (ok: bool)
      requires Valid()
      modifies this`groups
      ensures Valid()
      ensures ok ==> Step(old(State()), Add(g, who, ids, now), State())
      ensures !ok ==> groups == old(groups) && forall t :: !Step(State(), Add(g, who, ids, now), t)
    {
      if |ids| > MAX_MEMBERS || g !in groups || who !in groups[g].members {
        return false;
      }
      var members := groups[g].members;
      var added := PickMembers(ids, members.Keys);
      if added == [] || |members| + |added| > MAX_MEMBERS {
        return false;
      }
      PickedOnce(ids, members.Keys);
      ok := EnsureFriendsWith(who, added);
      if !ok {
        return;
      }
      ghost var before := State();
      groups := groups[g := groups[g].(members := Joined(members, added, now))];
      AddKeeps(before, Add(g, who, ids, now), State());
    }

    /** `order` is what the member query answers under the lock. */
    method RemoveGroupDmMember(g: GroupId, who: UserId, user: UserId, order: seq<UserId>) returns (ok: bool)
      requires Valid() && (g in groups ==> Listing(groups[g].members, order))
      modifies this`groups
      ensures Valid()
      ensures ok ==> Step(old(State()), Remove(g, who, user, order), State())
      ensures !ok ==> groups == old(groups) && forall t :: !Step(State(), Remove(g, who, user, order), t)
    {
      if g !in groups || who !in groups[g].members {
        return false;
      }
      var group := groups[g];
      if user != who && group.owner != Some(who) {
        return false;
      }
      if user !in group.members {
        return false;
      }
      ghost var before := State();
      var heir := FirstOther(order, user);
      if heir.None? {
        groups := groups - {g};
      } else {
        group := group.(members := group.members - {user});
        if group.owner == Some(user) || group.owner.None? {
          group := group.(owner := heir);
        }
        groups := groups[g := group];
      }
      ok := true;
      RemoveKeeps(before, Remove(g, who, user, order), State());
    }
  }
}
