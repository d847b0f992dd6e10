/**
  Who may write to a friends-only user: `ensure_can_reach_dm_peer`, `check_can_dm_peer` and
  `peer_wrote_to_sender` of apps/server/src/routes/dm.rs with the friendship handlers of
  apps/server/src/routes/friends.rs.

  Every statement of a send is a step of its own: it reads the peer's setting, then the friendship,
  then the peer's messages, each only if the one before did not decide, and inserts the message in a
  later transaction. A transaction's `NOW()` is the clock at its beginning.
 */
module DmPrivacy {
  import opened Options

  type UserId = nat
  type ChannelId = nat
  type SendId = nat
  type RequestId = nat

  /** Anything but "everyone" is friends-only. */
  datatype Privacy = Everyone | FriendsOnly

  datatype Channel = Direct(a: UserId, b: UserId) | Group(members: set<UserId>)

  datatype Message = Message(channel: ChannelId, author: UserId, created: int)

  datatype Stage = Arrived | AskFriends | AskWrote | Allowed | Started(created: int) | Finished

  datatype Send = Send(channel: ChannelId, author: UserId, stage: Stage)

  datatype Status = Pending | Accepted | Rejected

  datatype FriendRequest = FriendRequest(requester: UserId, receiver: UserId, status: Status)

  datatype State = State(
    privacy: map<UserId, Privacy>, friends: set<(UserId, UserId)>, ends: map<(UserId, UserId), int>,
    requests: map<RequestId, FriendRequest>, removals: map<RequestId, (UserId, UserId, int)>,
    channels: map<ChannelId, Channel>, messages: seq<Message>, sends: map<SendId, Send>, clock: int)

  datatype Event =
    | Tick
    | SetPrivacy(u: UserId, p: Privacy)
    | OpenChannel(c: ChannelId, channel: Channel)
    | AskFriendship(q: RequestId, from: UserId, to: UserId)
    | AcceptFriendship(q: RequestId, who: UserId)
    | RejectFriendship(q: RequestId, who: UserId)
    | BeginRemoval(q: RequestId, who: UserId, friend: UserId)
    | CommitRemoval(q: RequestId)
    | DropPending(u: UserId, v: UserId)
    | Arrive(x: SendId, c: ChannelId, author: UserId)
    | ReadPrivacy(x: SendId)
    | ReadFriends(x: SendId)
    | ReadWrote(x: SendId)
    | StartInsert(x: SendId)
    | Insert(x: SendId)
    | Fail(x: SendId)
    | DeleteMessage(i: nat)

  function Pair(u: UserId, v: UserId): (UserId, UserId) {
    if u < v then (u, v) else (v, u)
  }

  predicate AreFriends(s: State, u: UserId, v: UserId) {
    Pair(u, v) in s.friends
  }

  predicate Between(s: State, c: ChannelId, u: UserId, v: UserId) {
    c in s.channels && (s.channels[c] == Direct(u, v) || s.channels[c] == Direct(v, u))
  }

  predicate After(s: State, u: UserId, v: UserId, created: int) {
    Pair(u, v) in s.ends ==> created > s.ends[Pair(u, v)]
  }

  /** A one-to-one message of `peer` to `sender` since their friendship last ended. */
  predicate Counts(s: State, sender: UserId, peer: UserId, m: Message) {
    m.author == peer && Between(s, m.channel, sender, peer) && After(s, sender, peer, m.created)
  }

  predicate Wrote(s: State, sender: UserId, peer: UserId) {
    exists i :: 0 <= i < |s.messages| && Counts(s, sender, peer, s.messages[i])
  }

  function Mode(s: State, u: UserId): Privacy {
    if u in s.privacy then s.privacy[u] else FriendsOnly
  }

  predicate Member(channel: Channel, u: UserId) {
    match channel
    case Direct(a, b) => u == a || u == b
    case Group(members) => u in members
  }

  function Peer(channel: Channel, u: UserId): UserId
    requires channel.Direct?
  {
    if u == channel.a then channel.b else channel.a
  }

  function At(s: State, x: SendId, stage: Stage): State
    requires x in s.sends
  {
    s.(sends := s.sends[x := s.sends[x].(stage := stage)])
  }

  /** The send is at the stage and its channel is a one-to-one DM. */
  predicate Asks(s: State, x: SendId, stage: Stage) {
    && x in s.sends && s.sends[x].stage == stage
    && s.sends[x].channel in s.channels && s.channels[s.sends[x].channel].Direct?
  }

  predicate Step(s: State, e: Event, t: State) {
    match e
    case Tick => t == s.(clock := s.clock + 1)
    case SetPrivacy(u, p) => t == s.(privacy := s.privacy[u := p])
    case OpenChannel(c, channel) =>
      && c !in s.channels && (channel.Direct? ==> channel.a != channel.b)
      && t == s.(channels := s.channels[c := channel])
    case AskFriendship(q, from, to) =>
      && q !in s.requests && from != to && !AreFriends(s, from, to)
      && t == s.(requests := s.requests[q := FriendRequest(from, to, Pending)])
    case AcceptFriendship(q, who) =>
      && q in s.requests && s.requests[q].receiver == who && s.requests[q].status == Pending
      && t == s.(requests := s.requests[q := s.requests[q].(status := Accepted)],
                 friends := s.friends + {Pair(s.requests[q].requester, who)})
    case RejectFriendship(q, who) =>
      && q in s.requests && (s.requests[q].receiver == who || s.requests[q].requester == who)
      && s.requests[q].status == Pending
      && t == s.(requests := s.requests[q := s.requests[q].(status := Rejected)])
    case BeginRemoval(q, who, friend) =>
      && q !in s.removals && who != friend
      && t == s.(removals := s.removals[q := (who, friend, s.clock)])
    case CommitRemoval(q) =>
      && q in s.removals && AreFriends(s, s.removals[q].0, s.removals[q].1)
      && var pair := Pair(s.removals[q].0, s.removals[q].1);
         t == s.(friends := s.friends - {pair}, ends := s.ends[pair := s.removals[q].2],
                 removals := s.removals - {q})
    case DropPending(u, v) =>
      t == s.(requests := map q | q in s.requests
                && !(s.requests[q].status == Pending
                     && Pair(s.requests[q].requester, s.requests[q].receiver) == Pair(u, v))
                :: s.requests[q])
    case Arrive(x, c, author) =>
      && x !in s.sends && c in s.channels && Member(s.channels[c], author)
      && t == s.(sends := s.sends[x := Send(c, author, if s.channels[c].Group? then Allowed else Arrived)])
    case ReadPrivacy(x) =>
      && Asks(s, x, Arrived)
      && var peer := Peer(s.channels[s.sends[x].channel], s.sends[x].author);
         t == At(s, x, if Mode(s, peer) == Everyone then Allowed else AskFriends)
    case ReadFriends(x) =>
      && Asks(s, x, AskFriends)
      && var peer := Peer(s.channels[s.sends[x].channel], s.sends[x].author);
         t == At(s, x, if AreFriends(s, s.sends[x].author, peer) then Allowed else AskWrote)
    case ReadWrote(x) =>
      && Asks(s, x, AskWrote)
      && var peer := Peer(s.channels[s.sends[x].channel], s.sends[x].author);
         t == At(s, x, if Wrote(s, s.sends[x].author, peer) then Allowed else Finished)
    case StartInsert(x) =>
      && x in s.sends && s.sends[x].stage == Allowed
      && t == At(s, x, Started(s.clock))
    case Insert(x) =>
      && x in s.sends && s.sends[x].stage.Started?
      && t == At(s, x, Finished).(messages :=
           s.messages + [Message(s.sends[x].channel, s.sends[x].author, s.sends[x].stage.created)])
    case Fail(x) =>
      x in s.sends && t == At(s, x, Finished)
    case DeleteMessage(i) =>
      i < |s.messages| && t == s.(messages := s.messages[..i] + s.messages[i + 1..])
  }

  /** `states` is a run from any state: each event leads from one state to the next. */
  ghost predicate IsRun(states: seq<State>, events: seq<Event>) {
    && |states| == |events| + 1
    && forall i :: 0 <= i < |events| ==> Step(states[i], events[i], states[i + 1])
  }

  /** The event delivers a one-to-one message from `a` to `b`. */
  predicate Delivers(s: State, e: Event, a: UserId, b: UserId) {
    e.Insert? && e.x in s.sends && s.sends[e.x].author == a && Between(s, s.sends[e.x].channel, a, b)
  }

  /** `b` takes nothing from `a`: friends only, not friends, and silent since the friendship ended. */
  predicate Closed(s: State, a: UserId, b: UserId) {
    Mode(s, b) == FriendsOnly && !AreFriends(s, a, b) && !Wrote(s, a, b)
  }

  /** A send of `a` to `b` that is past its check and not over. */
  predicate PastCheck(s: State, x: SendId, a: UserId, b: UserId) {
    && x in s.sends && s.sends[x].author == a && Between(s, s.sends[x].channel, a, b)
    && (s.sends[x].stage == Allowed || s.sends[x].stage.Started?)
  }

  ghost predicate InFlight(s: State, a: UserId, b: UserId) {
    exists x :: PastCheck(s, x, a, b)
  }

  /** What opens a closed pair: `b` writes to `a`, a request between them is accepted, or `b` opens up. */
  predicate Reopens(s: State, e: Event, a: UserId, b: UserId) {
    || Delivers(s, e, b, a)
    || (e.AcceptFriendship? && e.q in s.requests
        && Pair(s.requests[e.q].requester, s.requests[e.q].receiver) == Pair(a, b))
    || e == SetPrivacy(b, Everyone)
  }

  // ---------- While closed ----------

  /** Sends name a known channel, so that opening a channel never changes one. */
  ghost predicate SendsKnow(s: State) {
    && (forall x :: x in s.sends ==> s.sends[x].channel in s.channels)
    && (forall i :: 0 <= i < |s.messages| ==> s.messages[i].channel in s.channels)
  }

  lemma KnowKeeps(s: State, e: Event, t: State)
    requires SendsKnow(s) && Step(s, e, t)
    ensures SendsKnow(t)
  {
    assert s.channels.Keys <= t.channels.Keys;
    forall i | 0 <= i < |t.messages|
      ensures t.messages[i].channel in t.channels
    {
      if e.Insert? && i == |s.messages| {
      } else {
        var j := OldMessage(s, e, t, i);
      }
    }
    forall x | x in t.sends
      ensures t.sends[x].channel in t.channels
    {
      assert x in s.sends ==> t.sends[x].channel == s.sends[x].channel;
    }
  }

  /** One closed step lets no send of `a` to `b` past its check. */
  lemma NonePasses(s: State, e: Event, t: State, a: UserId, b: UserId, x: SendId)
    requires a != b && SendsKnow(s) && Closed(s, a, b) && Step(s, e, t) && PastCheck(t, x, a, b)
    ensures PastCheck(s, x, a, b)
  {
  }

  /** Every message was there before, except one just inserted. */
  lemma OldMessage(s: State, e: Event, t: State, i: nat) returns (j: nat)
    requires Step(s, e, t) && i < |t.messages| && !(e.Insert? && i == |s.messages|)
    ensures j < |s.messages| && s.messages[j] == t.messages[i]
  {
    j := if e.DeleteMessage? && i >= e.i then i + 1 else i;
  }

  /** What counts as written by `b` after a step counted before, or was just inserted. */
  lemma CountedBefore(s: State, e: Event, t: State, a: UserId, b: UserId, i: nat)
    requires a != b && SendsKnow(s) && !AreFriends(s, a, b) && Step(s, e, t) && !Delivers(s, e, b, a)
    requires i < |t.messages| && Counts(t, a, b, t.messages[i])
    ensures Wrote(s, a, b)
  {
    var j := OldMessage(s, e, t, i);
    assert Counts(s, a, b, s.messages[j]);
  }

  /** Nothing but the named events opens a closed pair. */
  lemma ClosedUntil(s: State, e: Event, t: State, a: UserId, b: UserId)
    requires a != b && SendsKnow(s) && Closed(s, a, b) && Step(s, e, t) && !Reopens(s, e, a, b)
    ensures Closed(t, a, b)
  {
    if Wrote(t, a, b) {
      var i :| 0 <= i < |t.messages| && Counts(t, a, b, t.messages[i]);
      CountedBefore(s, e, t, a, b, i);
    }
  }

  // ---------- Whole runs ----------

  lemma {:induction false} StaysClosed(states: seq<State>, events: seq<Event>, n: nat, a: UserId, b: UserId, x: SendId)
    requires a != b && IsRun(states, events) && n < |states|
    requires SendsKnow(states[0]) && Closed(states[0], a, b)
    requires forall k :: 0 <= k < n ==> !Reopens(states[k], events[k], a, b)
    ensures SendsKnow(states[n]) && Closed(states[n], a, b)
    ensures PastCheck(states[n], x, a, b) ==> PastCheck(states[0], x, a, b)
  {
    if n > 0 {
      StaysClosed(states, events, n - 1, a, b, x);
      KnowKeeps(states[n - 1], events[n - 1], states[n]);
      ClosedUntil(states[n - 1], events[n - 1], states[n], a, b);
      if PastCheck(states[n], x, a, b) {
        NonePasses(states[n - 1], events[n - 1], states[n], a, b, x);
      }
    }
  }

  /**
    From a closed pair on, a message of `a` reaches `b` only if `b` wrote to `a`, made friends with `a`
    or opened up before that, or if the send was past its check when the pair was closed.
   */
  lemma OnlyAfterReopening(states: seq<State>, events: seq<Event>, n: nat, a: UserId, b: UserId)
    requires a != b && IsRun(states, events) && n < |events|
    requires SendsKnow(states[0]) && Closed(states[0], a, b) && Delivers(states[n], events[n], a, b)
    ensures (exists k :: 0 <= k < n && Reopens(states[k], events[k], a, b)) || PastCheck(states[0], events[n].x, a, b)
  {
    if k :| 0 <= k < n && Reopens(states[k], events[k], a, b) {
    } else {
      StaysClosed(states, events, n, a, b, events[n].x);
      assert Step(states[n], events[n], states[n + 1]);
    }
  }

  /** Some run from `s` delivers a message of `a` to `b` before anything opens the pair. */
  ghost predicate Leaks(s: State, a: UserId, b: UserId) {
    exists states, events, n: nat :: LeakingRun(s, states, events, n, a, b)
  }

  ghost predicate LeakingRun(s: State, states: seq<State>, events: seq<Event>, n: nat, a: UserId, b: UserId) {
    && IsRun(states, events) && states[0] == s && n < |events|
    && Delivers(states[n], events[n], a, b)
    && forall k :: 0 <= k < n ==> !Reopens(states[k], events[k], a, b)
  }

  lemma FlightLeaks(s: State, a: UserId, b: UserId, x: SendId)
    requires PastCheck(s, x, a, b)
    ensures Leaks(s, a, b)
  {
    if s.sends[x].stage == Allowed {
      var started := At(s, x, Started(s.clock));
      var done := At(started, x, Finished).(messages := s.messages + [Message(s.sends[x].channel, a, s.clock)]);
      var states, events := [s, started, done], [StartInsert(x), Insert(x)];
      assert Step(s, StartInsert(x), started);
      assert Step(started, Insert(x), done);
      assert Delivers(states[1], events[1], a, b);
      assert LeakingRun(s, states, events, 1, a, b);
    } else {
      var done := At(s, x, Finished).(messages :=
        s.messages + [Message(s.sends[x].channel, a, s.sends[x].stage.created)]);
      var states, events := [s, done], [Insert(x)];
      assert Step(s, Insert(x), done);
      assert LeakingRun(s, states, events, 0, a, b);
    }
  }

  /**
    The promise holds from a closed state exactly when no send of `a` to `b` is past its check: then no
    run whatever delivers a message before `b` opens the pair.
   */
  lemma ClosedHoldsExactly(s: State, a: UserId, b: UserId)
    requires a != b && SendsKnow(s) && Closed(s, a, b)
    ensures Leaks(s, a, b) <==> InFlight(s, a, b)
  {
    if Leaks(s, a, b) {
      var states, events, n: nat :| LeakingRun(s, states, events, n, a, b);
      OnlyAfterReopening(states, events, n, a, b);
    }
    if InFlight(s, a, b) {
      var x :| PastCheck(s, x, a, b);
      FlightLeaks(s, a, b, x);
    }
  }

  // ---------- Open by a message of the past ----------

  /** `b` takes messages from friends only, `a` is none, and a message of `b` lets `a` through. */
  predicate Answerable(s: State, a: UserId, b: UserId) {
    Mode(s, b) == FriendsOnly && !AreFriends(s, a, b) && Wrote(s, a, b)
  }

  function Sending(s: State, x: SendId, c: ChannelId, a: UserId, stage: Stage): State {
    s.(sends := s.sends[x := Send(c, a, stage)])
  }

  function Answered(s: State, x: SendId, c: ChannelId, a: UserId): State {
    Sending(s, x, c, a, Finished).(messages := s.messages + [Message(c, a, s.clock)])
  }

  /** The states and events of one more send of `a`, from its arrival to its insert. */
  function AnswerState(s: State, x: SendId, c: ChannelId, a: UserId, k: nat): State {
    match k
    case 0 => s
    case 1 => Sending(s, x, c, a, Arrived)
    case 2 => Sending(s, x, c, a, AskFriends)
    case 3 => Sending(s, x, c, a, AskWrote)
    case 4 => Sending(s, x, c, a, Allowed)
    case 5 => Sending(s, x, c, a, Started(s.clock))
    case _ => Answered(s, x, c, a)
  }

  function AnswerEvent(x: SendId, c: ChannelId, a: UserId, k: nat): Event {
    match k
    case 0 => Arrive(x, c, a)
    case 1 => ReadPrivacy(x)
    case 2 => ReadFriends(x)
    case 3 => ReadWrote(x)
    case 4 => StartInsert(x)
    case _ => Insert(x)
  }

  lemma SendingMoves(s: State, x: SendId, c: ChannelId, a: UserId, stage: Stage, next: Stage)
    ensures At(Sending(s, x, c, a, stage), x, next) == Sending(s, x, c, a, next)
  {
  }

  lemma WroteStays(s: State, x: SendId, c: ChannelId, a: UserId, b: UserId, stage: Stage)
    requires Wrote(s, a, b)
    ensures Wrote(Sending(s, x, c, a, stage), a, b)
  {
    var i :| 0 <= i < |s.messages| && Counts(s, a, b, s.messages[i]);
    assert Counts(Sending(s, x, c, a, stage), a, b, Sending(s, x, c, a, stage).messages[i]);
  }

  lemma AnswerChecks(s: State, x: SendId, c: ChannelId, a: UserId, b: UserId)
    requires a != b && Answerable(s, a, b) && x !in s.sends && Between(s, c, a, b)
    ensures Step(s, Arrive(x, c, a), Sending(s, x, c, a, Arrived))
    ensures Step(Sending(s, x, c, a, Arrived), ReadPrivacy(x), Sending(s, x, c, a, AskFriends))
    ensures Step(Sending(s, x, c, a, AskFriends), ReadFriends(x), Sending(s, x, c, a, AskWrote))
  {
    SendingMoves(s, x, c, a, Arrived, AskFriends);
    SendingMoves(s, x, c, a, AskFriends, AskWrote);
  }

  lemma AnswerPasses(s: State, x: SendId, c: ChannelId, a: UserId, b: UserId)
    requires a != b && Answerable(s, a, b) && Between(s, c, a, b)
    ensures Step(Sending(s, x, c, a, AskWrote), ReadWrote(x), Sending(s, x, c, a, Allowed))
  {
    SendingMoves(s, x, c, a, AskWrote, Allowed);
    WroteStays(s, x, c, a, b, AskWrote);
  }

  lemma AnswerArrives(s: State, x: SendId, c: ChannelId, a: UserId, b: UserId)
    requires a != b && Answerable(s, a, b) && Between(s, c, a, b)
    ensures Step(Sending(s, x, c, a, Allowed), StartInsert(x), Sending(s, x, c, a, Started(s.clock)))
    ensures Step(Sending(s, x, c, a, Started(s.clock)), Insert(x), Answered(s, x, c, a))
    ensures Delivers(Sending(s, x, c, a, Started(s.clock)), Insert(x), a, b)
    ensures Answerable(Answered(s, x, c, a), a, b)
  {
    SendingMoves(s, x, c, a, Allowed, Started(s.clock));
    SendingMoves(s, x, c, a, Started(s.clock), Finished);
    var i :| 0 <= i < |s.messages| && Counts(s, a, b, s.messages[i]);
    var t := Answered(s, x, c, a);
    assert t.messages[i] == s.messages[i] && Counts(t, a, b, t.messages[i]);
  }

  lemma AnswerStep(s: State, x: SendId, c: ChannelId, a: UserId, b: UserId, k: nat)
    requires a != b && Answerable(s, a, b) && x !in s.sends && Between(s, c, a, b) && k < 6
    ensures Step(AnswerState(s, x, c, a, k), AnswerEvent(x, c, a, k), AnswerState(s, x, c, a, k + 1))
  {
    if k < 3 {
      AnswerChecks(s, x, c, a, b);
    } else if k == 3 {
      AnswerPasses(s, x, c, a, b);
    } else {
      AnswerArrives(s, x, c, a, b);
    }
  }

  /** All six are steps of a send of `a`, and none of them is something `b` does. */
  lemma AnswerOpensNothing(s: State, x: SendId, c: ChannelId, a: UserId, b: UserId, k: nat)
    requires a != b && k < 6
    ensures !Reopens(AnswerState(s, x, c, a, k), AnswerEvent(x, c, a, k), a, b)
  {
    if k == 5 {
      assert AnswerState(s, x, c, a, k).sends[x].author == a;
    }
  }

  lemma {:induction false} SomeUnused(used: set<SendId>) returns (x: SendId)
    ensures x !in used && forall y :: y in used ==> y < x
    decreases used
  {
    if y :| y in used {
      x := SomeUnused(used - {y});
      if x <= y {
        x := y + 1;
      }
      forall z | z in used
        ensures z < x
      {
        assert z == y || z in used - {y};
      }
    } else {
      x := 0;
    }
  }

  /** One more message of `a` reaches `b`, nothing opened the pair, and the next one can follow. */
  lemma OneMoreAnswer(s: State, a: UserId, b: UserId) returns (states: seq<State>, events: seq<Event>)
    requires a != b && Answerable(s, a, b)
    ensures IsRun(states, events) && states[0] == s && |events| == 6
    ensures Delivers(states[5], events[5], a, b) && Answerable(states[6], a, b)
    ensures forall k :: 0 <= k < 6 ==> !Reopens(states[k], events[k], a, b)
  {
    var i :| 0 <= i < |s.messages| && Counts(s, a, b, s.messages[i]);
    var c := s.messages[i].channel;
    var x := SomeUnused(s.sends.Keys);
    states := seq(7, k requires 0 <= k => AnswerState(s, x, c, a, k));
    events := seq(6, k requires 0 <= k => AnswerEvent(x, c, a, k));
    forall k | 0 <= k < 6
      ensures Step(states[k], events[k], states[k + 1]) && !Reopens(states[k], events[k], a, b)
    {
      AnswerStep(s, x, c, a, b, k);
      AnswerOpensNothing(s, x, c, a, b, k);
    }
    AnswerArrives(s, x, c, a, b);
  }

  /** A message that counts lets any number of messages of `a` through, without another word of `b`. */
  lemma {:induction false} AnswersWithoutEnd(s: State, a: UserId, b: UserId, n: nat)
    returns (states: seq<State>, events: seq<Event>)
    requires a != b && Answerable(s, a, b)
    ensures IsRun(states, events) && states[0] == s && |events| == 6 * n
    ensures forall k :: 0 <= k < n ==> Delivers(states[6 * k + 5], events[6 * k + 5], a, b)
    ensures forall k :: 0 <= k < |events| ==> !Reopens(states[k], events[k], a, b)
    decreases n
  {
    if n == 0 {
      states, events := [s], [];
    } else {
      var first, begun := OneMoreAnswer(s, a, b);
      var more, going := AnswersWithoutEnd(first[6], a, b, n - 1);
      states, events := first[..6] + more, begun + going;
      forall k | 0 <= k < |events|
        ensures Step(states[k], events[k], states[k + 1]) && !Reopens(states[k], events[k], a, b)
      {
        Joined(first, begun, more, going, k);
      }
      forall k | 0 <= k < n
        ensures Delivers(states[6 * k + 5], events[6 * k + 5], a, b)
      {
        if k > 0 {
          assert Delivers(more[6 * (k - 1) + 5], going[6 * (k - 1) + 5], a, b);
        }
      }
    }
  }

  /** Two runs end to end. */
  lemma Joined(first: seq<State>, begun: seq<Event>, more: seq<State>, going: seq<Event>, k: nat)
    requires IsRun(first, begun) && IsRun(more, going) && |begun| == 6 && first[6] == more[0] && k < 6 + |going|
    ensures var states, events := first[..6] + more, begun + going;
      && Step(states[k], events[k], states[k + 1])
      && (if k < 6 then states[k] == first[k] && events[k] == begun[k]
          else states[k] == more[k - 6] && events[k] == going[k - 6])
  {
  }

  lemma WroteLeaks(s: State, a: UserId, b: UserId)
    requires a != b && Answerable(s, a, b)
    ensures Leaks(s, a, b)
  {
    var states, events := OneMoreAnswer(s, a, b);
    assert LeakingRun(s, states, events, 5, a, b);
  }

  /**
    A message of someone who is no friend can reach a friends-only user before they open the pair
    exactly if a send is past its check or a message of theirs still counts.
   */
  lemma LeaksExactly(s: State, a: UserId, b: UserId)
    requires a != b && SendsKnow(s) && Mode(s, b) == FriendsOnly && !AreFriends(s, a, b)
    ensures Leaks(s, a, b) <==> InFlight(s, a, b) || Wrote(s, a, b)
  {
    if Wrote(s, a, b) {
      WroteLeaks(s, a, b);
    } else {
      ClosedHoldsExactly(s, a, b);
    }
  }

  // ---------- The end of a friendship ----------

  /** A one-to-one message of `b` to `a` is stamped after the removal began. */
  predicate WroteDuring(s: State, q: RequestId, a: UserId, b: UserId)
    requires q in s.removals
  {
    exists i :: 0 <= i < |s.messages| && StampedAfter(s, s.messages[i], s.removals[q].2, a, b)
  }

  predicate StampedAfter(s: State, m: Message, began: int, a: UserId, b: UserId) {
    m.author == b && Between(s, m.channel, a, b) && m.created > began
  }

  /** The stamps of the two transactions decide what counts, not the order of their commits. */
  lemma RemovalCloses(s: State, q: RequestId, t: State, a: UserId, b: UserId)
    requires a != b && Step(s, CommitRemoval(q), t) && Pair(s.removals[q].0, s.removals[q].1) == Pair(a, b)
    ensures !AreFriends(t, a, b) && Mode(t, b) == Mode(s, b)
    ensures Wrote(t, a, b) <==> WroteDuring(s, q, a, b)
  {
    forall i | 0 <= i < |s.messages|
      ensures Counts(t, a, b, t.messages[i]) <==> StampedAfter(s, s.messages[i], s.removals[q].2, a, b)
    {
    }
    if Wrote(t, a, b) {
      var i :| 0 <= i < |t.messages| && Counts(t, a, b, t.messages[i]);
      assert StampedAfter(s, s.messages[i], s.removals[q].2, a, b);
    }
    if WroteDuring(s, q, a, b) {
      var i :| 0 <= i < |s.messages| && StampedAfter(s, s.messages[i], s.removals[q].2, a, b);
      assert Counts(t, a, b, t.messages[i]);
    }
  }

  /**
    After a friendship ends, a friends-only user gets something new from the former friend before they
    open the pair in exactly two cases: a send is past its check when the removal commits, or a message
    of theirs is stamped after the removal began.
   */
  lemma AfterRemovalExactly(s: State, q: RequestId, t: State, a: UserId, b: UserId)
    requires a != b && SendsKnow(s) && Step(s, CommitRemoval(q), t)
    requires Pair(s.removals[q].0, s.removals[q].1) == Pair(a, b) && Mode(s, b) == FriendsOnly
    ensures Leaks(t, a, b) <==> InFlight(s, a, b) || WroteDuring(s, q, a, b)
  {
    RemovalCloses(s, q, t, a, b);
    KnowKeeps(s, CommitRemoval(q), t);
    LeaksExactly(t, a, b);
    forall x
      ensures PastCheck(t, x, a, b) <==> PastCheck(s, x, a, b)
    {
    }
  }

  // ---------- Runs where the promise fails ----------

  /** Friends 1 and 2 with a one-to-one DM; 2 takes messages from friends only. */
  const FRIENDS := State(map[2 := FriendsOnly], {(1, 2)}, map[], map[], map[], map[0 := Direct(1, 2)], [], map[], 0)

  function Late(stage: Stage): State {
    FRIENDS.(sends := map[0 := Send(0, 1, stage)])
  }

  const REMOVING := Late(Allowed).(removals := map[0 := (2, 1, 0)])
  const REMOVED := REMOVING.(friends := {}, ends := map[(1, 2) := 0], removals := map[])

  function LateState(i: nat): State {
    match i
    case 0 => FRIENDS
    case 1 => Late(Arrived)
    case 2 => Late(AskFriends)
    case 3 => Late(Allowed)
    case 4 => REMOVING
    case 5 => REMOVED
    case 6 => REMOVED.(sends := map[0 := Send(0, 1, Started(0))])
    case _ => REMOVED.(sends := map[0 := Send(0, 1, Finished)], messages := [Message(0, 1, 0)])
  }

  function LateEvent(i: nat): Event {
    match i
    case 0 => Arrive(0, 0, 1)
    case 1 => ReadPrivacy(0)
    case 2 => ReadFriends(0)
    case 3 => BeginRemoval(0, 2, 1)
    case 4 => CommitRemoval(0)
    case 5 => StartInsert(0)
    case _ => Insert(0)
  }

  lemma LateCheck(i: nat)
    requires i < 3
    ensures Step(LateState(i), LateEvent(i), LateState(i + 1))
  {
  }

  lemma LateRemoval(i: nat)
    requires 3 <= i < 5
    ensures Step(LateState(i), LateEvent(i), LateState(i + 1))
  {
    assert {(1, 2)} - {Pair(2, 1)} == {};
  }

  lemma LateStart()
    ensures Step(LateState(5), LateEvent(5), LateState(6))
  {
    assert REMOVED.sends[0] == Send(0, 1, Allowed);
  }

  lemma LateInsert()
    ensures Step(LateState(6), LateEvent(6), LateState(7))
  {
    assert LateState(6).sends[0] == Send(0, 1, Started(0));
  }

  /**
    The promise fails when a removal commits between a send's check and its insert: the message of 1
    reaches 2 after the end of their friendship.
   */
  lemma CheckedBeforeDeliveredAfter(states: seq<State>, events: seq<Event>)
    requires |states| == 8 && forall i :: 0 <= i < 8 ==> states[i] == LateState(i)
    requires |events| == 7 && forall i :: 0 <= i < 7 ==> events[i] == LateEvent(i)
    ensures IsRun(states, events) && states[0] == FRIENDS && SendsKnow(FRIENDS)
    ensures events[4].CommitRemoval? && Closed(states[5], 1, 2)
    ensures !Reopens(states[5], events[5], 1, 2) && Delivers(states[6], events[6], 1, 2)
  {
    forall i | 0 <= i < 7
      ensures Step(states[i], events[i], states[i + 1])
    {
      if i < 3 {
        LateCheck(i);
      } else if i < 5 {
        LateRemoval(i);
      } else if i == 5 {
        LateStart();
      } else {
        LateInsert();
      }
    }
    assert LateState(5) == REMOVED && LateState(6).sends == map[0 := Send(0, 1, Started(0))];
  }

  /** 2, whom anyone may write to, ends the friendship; 1 writes before the removal commits. */
  const WRITING := FRIENDS.(
    privacy := map[1 := FriendsOnly, 2 := Everyone], removals := map[0 := (2, 1, 0)], clock := 1)

  function Writing(stage: Stage): State {
    WRITING.(sends := map[0 := Send(0, 1, stage)])
  }

  const WRITTEN := Writing(Finished).(messages := [Message(0, 1, 1)])

  lemma WrittenDuring()
    ensures Step(FRIENDS.(privacy := WRITING.privacy), BeginRemoval(0, 2, 1),
                 FRIENDS.(privacy := WRITING.privacy, removals := WRITING.removals))
    ensures Step(FRIENDS.(privacy := WRITING.privacy, removals := WRITING.removals), Tick, WRITING)
    ensures Step(WRITING, Arrive(0, 0, 1), Writing(Arrived))
    ensures Step(Writing(Arrived), ReadPrivacy(0), Writing(Allowed))
  {
  }

  lemma WrittenInserted()
    ensures Step(Writing(Allowed), StartInsert(0), Writing(Started(1)))
    ensures Step(Writing(Started(1)), Insert(0), WRITTEN)
  {
    var none: seq<Message> := [];
    assert none + [Message(0, 1, 1)] == [Message(0, 1, 1)];
  }

  /**
    It also fails without any send past its check, and without bound: 1, friends-only, wrote while the
    removal ran. When it commits, no send of 2 exists, and any number of messages of 2 reach 1.
   */
  lemma WrittenDuringRemoval(t: State, n: nat) returns (states: seq<State>, events: seq<Event>)
    requires Step(WRITTEN, CommitRemoval(0), t)
    ensures AreFriends(WRITTEN, 1, 2) && !AreFriends(t, 1, 2) && Mode(t, 1) == FriendsOnly && !InFlight(t, 2, 1)
    ensures IsRun(states, events) && states[0] == t && |events| == 6 * n
    ensures forall k :: 0 <= k < n ==> Delivers(states[6 * k + 5], events[6 * k + 5], 2, 1)
    ensures forall k :: 0 <= k < |events| ==> !Reopens(states[k], events[k], 2, 1)
  {
    assert StampedAfter(WRITTEN, WRITTEN.messages[0], WRITTEN.removals[0].2, 2, 1);
    RemovalCloses(WRITTEN, 0, t, 2, 1);
    states, events := AnswersWithoutEnd(t, 2, 1, n);
  }
}
