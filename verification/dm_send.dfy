/**
  Sending a direct message with an idempotency key (`send_dm_message` in apps/server/src/routes/dm.rs).

  A request looks its key up, inserts its row in a transaction of its own with `ON CONFLICT DO
  NOTHING` on (channel, sender, key), commits, looks the key up again if the insert was skipped, and
  publishes `NewMessage` if it was not. The events of any number of requests interleave with each
  other and with edits and deletions. The unique index is what the database gives: an insert whose
  key is committed is skipped, and one whose key is inserted but not yet committed waits.
 */
module DmSend {
  import opened Options

  type MessageId = nat
  type RequestId = nat

  /** A request's body, and a stored row: it starts as the request and its content can be edited. */
  datatype Send = Send(channel: nat, sender: nat, key: Option<string>, content: string, attachments: string)

  datatype Phase =
    | Arrived
    /** No stored message has the key, or there is no key. */
    | Cleared
    /** The row is inserted, the transaction still open. */
    | Pending(id: MessageId)
    /** The insert met a stored message with the key. */
    | Skipped
    /** The row is committed; it is not yet published. */
    | Stored(id: MessageId)
    | Finished

  datatype Request = Request(send: Send, phase: Phase)

  /** A successful answer: the request, the message it names and the row returned. */
  datatype Reply = Reply(send: Send, id: MessageId, row: Send)

  datatype State = State(
    rows: map<MessageId, Send>, requests: map<RequestId, Request>, drawn: set<MessageId>,
    published: seq<MessageId>, replies: seq<Reply>)

  datatype Event =
    | Arrive(r: RequestId, send: Send)
    | Lookup(r: RequestId)
    | Insert(r: RequestId, id: MessageId)
    | Commit(r: RequestId)
    | Replay(r: RequestId)
    | Publish(r: RequestId)
    /** A refused or failed request: rate limit, missing upload, lost connection, rollback. */
    | Fail(r: RequestId)
    | Edit(id: MessageId, content: string)
    | Delete(id: MessageId)

  predicate SameKey(a: Send, b: Send) {
    a.key.Some? && a.key == b.key && a.channel == b.channel && a.sender == b.sender
  }

  predicate SameBody(a: Send, b: Send) {
    a.content == b.content && a.attachments == b.attachments
  }

  predicate Taken(rows: map<MessageId, Send>, send: Send) {
    exists id :: id in rows && SameKey(rows[id], send)
  }

  /** Another open transaction has inserted the key: the index makes this insert wait for it. */
  predicate Blocked(s: State, r: RequestId, send: Send) {
    exists o :: o in s.requests && o != r && s.requests[o].phase.Pending? && SameKey(s.requests[o].send, send)
  }

  function AtPhase(s: State, r: RequestId, phase: Phase): State
    requires r in s.requests
  {
    s.(requests := s.requests[r := s.requests[r].(phase := phase)])
  }

  /** Answers with a stored row of the request's key, or refuses it for a different message. */
  predicate Answers(s: State, r: RequestId, next: State)
    requires r in s.requests
  {
    exists id :: id in s.rows && SameKey(s.rows[id], s.requests[r].send) &&
      next ==
        if SameBody(s.rows[id], s.requests[r].send) then
          AtPhase(s, r, Finished).(replies := s.replies + [Reply(s.requests[r].send, id, s.rows[id])])
        else AtPhase(s, r, Finished)
  }

  predicate Step(s: State, e: Event, next: State) {
    match e
    case Arrive(r, send) =>
      r !in s.requests && next == s.(requests := s.requests[r := Request(send, Arrived)])
    case Lookup(r) =>
      && r in s.requests && s.requests[r].phase == Arrived
      && if Taken(s.rows, s.requests[r].send) then Answers(s, r, next) else next == AtPhase(s, r, Cleared)
    case Insert(r, id) =>
      && r in s.requests && s.requests[r].phase == Cleared && id !in s.drawn
      && !Blocked(s, r, s.requests[r].send)
      && if Taken(s.rows, s.requests[r].send) then next == AtPhase(s, r, Skipped)
         else next == AtPhase(s, r, Pending(id)).(drawn := s.drawn + {id})
    case Commit(r) =>
      && r in s.requests && s.requests[r].phase.Pending?
      && var id := s.requests[r].phase.id;
         next == AtPhase(s, r, Stored(id)).(rows := s.rows[id := s.requests[r].send])
    case Replay(r) =>
      && r in s.requests && s.requests[r].phase == Skipped
      && if Taken(s.rows, s.requests[r].send) then Answers(s, r, next) else next == AtPhase(s, r, Finished)
    case Publish(r) =>
      && r in s.requests && s.requests[r].phase.Stored?
      && var id, send := s.requests[r].phase.id, s.requests[r].send;
         next == AtPhase(s, r, Finished).(published := s.published + [id],
                                          replies := s.replies + [Reply(send, id, send)])
    case Fail(r) =>
      r in s.requests && next == AtPhase(s, r, Finished)
    case Edit(id, content) =>
      id in s.rows && next == s.(rows := s.rows[id := s.rows[id].(content := content)])
    case Delete(id) =>
      next == s.(rows := s.rows - {id})
  }

  /** `states` is a run: it starts empty and each event leads from one state to the next. */
  ghost predicate IsRun(states: seq<State>, events: seq<Event>) {
    && |states| == |events| + 1
    && states[0] == State(map[], map[], {}, [], [])
    && forall i :: 0 <= i < |events| ==> Step(states[i], events[i], states[i + 1])
  }

  // ---------- The invariant ----------

  /** The message a request has inserted and not yet published. */
  function Held(q: Request): Option<MessageId> {
    if q.phase.Pending? || q.phase.Stored? then Some(q.phase.id) else None
  }

  ghost predicate OneLive(rows: map<MessageId, Send>) {
    forall a, b :: a in rows && b in rows && SameKey(rows[a], rows[b]) ==> a == b
  }

  ghost predicate PendingAlone(s: State) {
    && (forall r, id :: r in s.requests && s.requests[r].phase.Pending? && id in s.rows ==>
          !SameKey(s.rows[id], s.requests[r].send))
    && (forall r, o :: r in s.requests && o in s.requests && r != o ==>
          !(s.requests[r].phase.Pending? && s.requests[o].phase.Pending?
            && SameKey(s.requests[r].send, s.requests[o].send)))
  }

  ghost predicate IdsOnce(s: State) {
    && s.rows.Keys <= s.drawn
    && (forall r :: r in s.requests && Held(s.requests[r]).Some? ==>
          Held(s.requests[r]).value in s.drawn && Held(s.requests[r]).value !in s.published)
    && (forall r :: r in s.requests && s.requests[r].phase.Pending? ==> s.requests[r].phase.id !in s.rows)
    && (forall r, o :: r in s.requests && o in s.requests && r != o && Held(s.requests[r]).Some? ==>
          Held(s.requests[r]) != Held(s.requests[o]))
    && (forall i :: 0 <= i < |s.published| ==> s.published[i] in s.drawn)
    && (forall i, j :: 0 <= i < j < |s.published| ==> s.published[i] != s.published[j])
  }

  predicate ReplyFits(p: Reply) {
    && SameBody(p.row, p.send) && p.row.key == p.send.key
    && p.row.channel == p.send.channel && p.row.sender == p.send.sender
  }

  ghost predicate Inv(s: State) {
    && OneLive(s.rows)
    && PendingAlone(s)
    && IdsOnce(s)
    && forall i :: 0 <= i < |s.replies| ==> ReplyFits(s.replies[i])
  }

  lemma StepKeepsOneLive(s: State, e: Event, next: State)
    requires OneLive(s.rows) && PendingAlone(s) && Step(s, e, next)
    ensures OneLive(next.rows)
  {
  }

  lemma StepKeepsPending(s: State, e: Event, next: State)
    requires Inv(s) && Step(s, e, next)
    ensures PendingAlone(next)
  {
  }

  /** Moving a request to a phase in which it holds no message. */
  lemma QuietKeepsIds(s: State, next: State)
    requires IdsOnce(s) && next.rows.Keys <= s.rows.Keys
    requires next.drawn == s.drawn && next.published == s.published
    requires forall r :: r in next.requests ==>
      Held(next.requests[r]).None? || (r in s.requests && next.requests[r] == s.requests[r])
    ensures IdsOnce(next)
  {
  }

  lemma HoldingKeepsIds(s: State, e: Event, next: State)
    requires Inv(s) && Step(s, e, next) && (e.Insert? || e.Commit? || e.Publish?)
    ensures IdsOnce(next)
  {
    assert e.Publish? ==> Held(s.requests[e.r]) == Some(s.requests[e.r].phase.id);
  }

  lemma StepKeepsIds(s: State, e: Event, next: State)
    requires Inv(s) && Step(s, e, next)
    ensures IdsOnce(next)
  {
    if e.Insert? || e.Commit? || e.Publish? {
      HoldingKeepsIds(s, e, next);
    } else {
      QuietKeepsIds(s, next);
    }
  }

  lemma StepKeeps(s: State, e: Event, next: State)
    requires Inv(s) && Step(s, e, next)
    ensures Inv(next)
  {
    StepKeepsOneLive(s, e, next);
    StepKeepsPending(s, e, next);
    StepKeepsIds(s, e, next);
  }

  lemma {:induction false} RunKeeps(states: seq<State>, events: seq<Event>, i: nat)
    requires IsRun(states, events) && i <= |events|
    ensures Inv(states[i])
  {
    if i > 0 {
      RunKeeps(states, events, i - 1);
      StepKeeps(states[i - 1], events[i - 1], states[i]);
    }
  }

  // ---------- Every interleaving ----------

  /**
    In every state of every run: at most one stored message per channel, sender and key; every
    successful answer returns a message with the request's own key, content and attachments; and
    no message is published twice.
   */
  lemma SendIsIdempotent(states: seq<State>, events: seq<Event>, i: nat)
    requires IsRun(states, events) && i <= |events|
    ensures var s := states[i];
      && (forall a, b :: a in s.rows && b in s.rows && SameKey(s.rows[a], s.rows[b]) ==> a == b)
      && (forall k :: 0 <= k < |s.replies| ==> ReplyFits(s.replies[k]))
      && (forall k, l :: 0 <= k < l < |s.published| ==> s.published[k] != s.published[l])
  {
    RunKeeps(states, events, i);
  }

  /** Each answer names a stored message with the request's key, while nothing is deleted. */
  ghost predicate AnswersStored(s: State) {
    && (forall i :: 0 <= i < |s.replies| && s.replies[i].send.key.Some? ==>
          s.replies[i].id in s.rows && SameKey(s.rows[s.replies[i].id], s.replies[i].send))
    && (forall r :: r in s.requests && s.requests[r].phase.Stored? && s.requests[r].send.key.Some? ==>
          var id := s.requests[r].phase.id;
          id in s.rows && SameKey(s.rows[id], s.requests[r].send))
  }

  lemma StepKeepsAnswers(s: State, e: Event, next: State)
    requires Inv(s) && AnswersStored(s) && Step(s, e, next) && !e.Delete?
    ensures AnswersStored(next)
  {
  }

  lemma {:induction false} AnswersStayStored(states: seq<State>, events: seq<Event>, i: nat)
    requires IsRun(states, events) && i <= |events|
    requires forall k :: 0 <= k < i ==> !events[k].Delete?
    ensures AnswersStored(states[i])
  {
    if i > 0 {
      RunKeeps(states, events, i - 1);
      AnswersStayStored(states, events, i - 1);
      StepKeepsAnswers(states[i - 1], events[i - 1], states[i]);
    }
  }

  /** Retries of a keyed send all answer with the same message, as long as nothing is deleted. */
  lemma RetriesGetOneMessage(states: seq<State>, events: seq<Event>, i: nat, a: nat, b: nat)
    requires IsRun(states, events) && i <= |events|
    requires forall k :: 0 <= k < i ==> !events[k].Delete?
    requires a < |states[i].replies| && b < |states[i].replies|
    requires SameKey(states[i].replies[a].send, states[i].replies[b].send)
    ensures states[i].replies[a].id == states[i].replies[b].id
  {
    RunKeeps(states, events, i);
    AnswersStayStored(states, events, i);
    var p, q := states[i].replies[a], states[i].replies[b];
    assert SameKey(states[i].rows[p.id], states[i].rows[q.id]);
  }
}
