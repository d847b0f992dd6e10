/** The order in which a query ranks members, and the first of them. */
module Ranking {
  import opened Options

  type UserId = nat

  /** `ORDER BY best NULLS LAST, joined, id`. */
  datatype Rank = Rank(best: Option<int>, joined: int, id: UserId)

  predicate Before(a: Rank, b: Rank) {
    if a.best != b.best then a.best.Some? && (b.best.Some? ==> a.best.value < b.best.value)
    else a.joined < b.joined || (a.joined == b.joined && a.id <= b.id)
  }

  ghost predicate IsFirst(ranks: map<UserId, Rank>, among: set<UserId>, u: UserId)
    requires among <= ranks.Keys
  {
    u in among && forall v :: v in among ==> Before(ranks[u], ranks[v])
  }

  lemma {:induction false} FirstExists(ranks: map<UserId, Rank>, among: set<UserId>, v: UserId)
    requires v in among && among <= ranks.Keys
    ensures exists u :: IsFirst(ranks, among, u)
    decreases among
  {
    var rest := among - {v};
    if w :| w in rest {
      FirstExists(ranks, rest, w);
      var u :| IsFirst(ranks, rest, u);
      if Before(ranks[v], ranks[u]) {
        assert IsFirst(ranks, among, v);
      } else {
        assert IsFirst(ranks, among, u);
      }
    } else {
      forall w | w in among
        ensures w == v
      {
        assert w in rest || w == v;
      }
      assert IsFirst(ranks, among, v);
    }
  }

  /** `LIMIT 1`: the first of the ranked users, if there are any. */
  ghost function First(ranks: map<UserId, Rank>): (first: Option<UserId>)
    ensures first.Some? ==> IsFirst(ranks, ranks.Keys, first.value)
    ensures first.None? ==> ranks.Keys == {}
  {
    if u :| u in ranks then
      FirstExists(ranks, ranks.Keys, u);
      var f :| IsFirst(ranks, ranks.Keys, f);
      Some(f)
    else None
  }
}
