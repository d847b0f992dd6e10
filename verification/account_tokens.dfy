/**
  Pending email links, password-reset tokens and `token_version`
  (apps/server/src/routes/auth_account.rs, auth_password_reset.rs).

  Each handler is a database transaction; each of its statements is one event, and the events of any
  number of transactions interleave freely. A transaction's writes take effect when it commits. What
  orders them is row locks alone: an updated or `FOR UPDATE`-selected user row and a deleted token
  row stay locked until the transaction ends. A multi-row DELETE takes its rows from the snapshot at
  its start and then waits for the locked ones, so rows committed while it waits are not deleted.
  Any transaction may abort at any point (an error, a deadlock, a lost connection).
 */
module AccountTokens {
  import opened Options

  type UserId = nat
  type TxId = nat
  type Token = nat
  type Email = nat

  datatype User = User(email: Email, version: nat, oauthOnly: bool, verified: bool)

  /** A pending link; `session` is the `token_version` of the session that asked for it. */
  datatype Link = Link(user: UserId, email: Email, session: nat)

  /** What is committed. */
  datatype Db = Db(users: map<UserId, User>, links: map<Token, Link>, resets: map<Token, UserId>)

  datatype Job =
    /** `request_email_verification`; `noLink` when the address is unchanged and already verified. */
    | Request(asker: UserId, session: nat, email: Email, token: Token, noLink: bool)
    /** `confirm_email_verification`. */
    | Confirm(token: Token)
    /** `set_password`, which only replaces the Google-only marker. */
    | SetPassword(changer: UserId)
    /** `change_password`. */
    | ChangePassword(changer: UserId)
    /** `reset_password`. */
    | Reset(token: Token)

  /** The last statement a transaction has finished (`Sweeping`: the one it waits in). */
  datatype Progress = Begun | Claimed | Locked | Updated | Sweeping(rows: set<Token>) | Swept | Ready

  /**
    An open transaction: the user row it has locked and its uncommitted new value, the tokens it
    has deleted, the link it has claimed and the one it has inserted.
   */
  datatype Tx = Tx(
    job: Job, at: Progress, lock: Option<UserId>, row: Option<User>, claimed: Option<Link>,
    linksGone: set<Token>, resetsGone: set<Token>, added: Option<Link>)

  /** An address change: the session of its link and the account's version when it committed. */
  datatype Move = Move(session: nat, version: nat)

  /** `issued`: every token ever drawn; `used`: tokens that confirmed an address or reset a password. */
  datatype State = State(db: Db, txs: map<TxId, Tx>, issued: set<Token>, moves: seq<Move>, used: seq<Token>)

  datatype Event =
    | Start(id: TxId, job: Job)
    | Sweep(id: TxId)
    | SweepDone(id: TxId)
    | InsertLink(id: TxId)
    | ClaimLink(id: TxId)
    | LockUser(id: TxId)
    | MoveAddress(id: TxId)
    | BumpVersion(id: TxId)
    | ClaimReset(id: TxId)
    | RevokeResets(id: TxId)
    | Commit(id: TxId)
    | Abort(id: TxId)
    /** A link row deleted on its own: after a failed delivery. */
    | DropLink(token: Token)
    /** `forgot_password` outside any transaction: an old token goes, a new one comes. */
    | DropReset(token: Token)
    | AddReset(user: UserId, token: Token)

  predicate UserFree(s: State, id: TxId, user: UserId) {
    forall other :: other in s.txs && other != id ==> s.txs[other].lock != Some(user)
  }

  predicate LinkFree(s: State, id: TxId, token: Token) {
    forall other :: other in s.txs && other != id ==> token !in s.txs[other].linksGone
  }

  predicate ResetFree(s: State, id: TxId, token: Token) {
    forall other :: other in s.txs && other != id ==> token !in s.txs[other].resetsGone
  }

  /** The account a transaction works on, once it is known. */
  function Account(db: Db, t: Tx): Option<UserId> {
    match t.job
    case Request(asker, _, _, _, _) => Some(asker)
    case SetPassword(changer) => Some(changer)
    case ChangePassword(changer) => Some(changer)
    case Confirm(_) => if t.claimed.Some? then Some(t.claimed.value.user) else None
    case Reset(token) => if t.at != Begun && token in db.resets then Some(db.resets[token]) else None
  }

  function LinksOf(db: Db, user: UserId): set<Token> {
    set k | k in db.links && db.links[k].user == user
  }

  predicate Moves(db: Db, t: Tx)
    requires t.claimed.Some? && t.claimed.value.user in db.users
  {
    db.users[t.claimed.value.user].email != t.claimed.value.email
  }

  // ---------- Statements: each answers the transaction after it, or None while it cannot run ----------

  /** `DELETE FROM email_verification_tokens WHERE user_id = $1` starts: it takes its snapshot. */
  function SweepStart(s: State, t: Tx): Option<Tx> {
    var account := Account(s.db, t);
    if account.Some? && (if t.job.Request? then t.at == Begun else t.at == Updated && t.row.Some?)
    then Some(t.(at := Sweeping(LinksOf(s.db, account.value)))) else None
  }

  /** It ends once no other transaction has deleted one of its rows; rows gone by then are skipped. */
  function SweepEnd(s: State, id: TxId, t: Tx): Option<Tx> {
    if t.at.Sweeping? && forall k :: k in t.at.rows ==> LinkFree(s, id, k)
    then Some(t.(at := Swept, linksGone := t.linksGone + (t.at.rows * s.db.links.Keys))) else None
  }

  /** `INSERT ... SELECT ... FROM users WHERE id = $1 AND token_version = $5 FOR UPDATE`. */
  function Insert(s: State, id: TxId, t: Tx): Option<Tx> {
    if t.job.Request? && t.at == Swept && !t.job.noLink && t.job.asker in s.db.users
       && UserFree(s, id, t.job.asker) && s.db.users[t.job.asker].version == t.job.session
    then Some(t.(at := Ready, lock := Some(t.job.asker),
                 added := Some(Link(t.job.asker, t.job.email, t.job.session)))) else None
  }

  /** `DELETE FROM email_verification_tokens WHERE token_hash = $1 RETURNING ...`. */
  function Claim(s: State, id: TxId, t: Tx): Option<Tx> {
    if t.job.Confirm? && t.at == Begun && t.job.token in s.db.links && LinkFree(s, id, t.job.token)
    then Some(t.(at := Claimed, claimed := Some(s.db.links[t.job.token]), linksGone := {t.job.token}))
    else None
  }

  /** `SELECT email FROM users WHERE id = $1 FOR UPDATE`. */
  function Lock(s: State, id: TxId, t: Tx): Option<Tx> {
    if t.job.Confirm? && t.at == Claimed && t.claimed.Some? && t.claimed.value.user in s.db.users
       && UserFree(s, id, t.claimed.value.user)
    then Some(t.(at := Locked, lock := Some(t.claimed.value.user))) else None
  }

  /** `UPDATE users SET email = $1, ...`, unless another account has the address. */
  function SetAddress(s: State, t: Tx): Option<Tx> {
    if t.job.Confirm? && t.at == Locked && t.claimed.Some? && t.claimed.value.user in s.db.users
       && (forall u :: u in s.db.users && u != t.claimed.value.user ==>
             s.db.users[u].email != t.claimed.value.email)
    then
      var user := s.db.users[t.claimed.value.user];
      var bump := if Moves(s.db, t) then 1 else 0;
      Some(t.(at := Updated, row := Some(user.(email := t.claimed.value.email, verified := true,
                                               version := user.version + bump))))
    else None
  }

  /** `UPDATE users SET password_hash = $1, token_version = token_version + 1 WHERE ...`. */
  function Bump(s: State, id: TxId, t: Tx): Option<Tx> {
    var account := Account(s.db, t);
    if account.Some? && account.value in s.db.users && UserFree(s, id, account.value)
       && match t.job
          case SetPassword(_) => t.at == Begun && s.db.users[account.value].oauthOnly
          case ChangePassword(_) => t.at == Begun
          case Reset(_) => t.at == Claimed
          case _ => false
    then
      var user := s.db.users[account.value];
      Some(t.(at := Updated, lock := account,
              row := Some(user.(oauthOnly := false, version := user.version + 1))))
    else None
  }

  /** `DELETE FROM password_reset_tokens WHERE token_hash = $1 RETURNING ...`. */
  function TakeReset(s: State, id: TxId, t: Tx): Option<Tx> {
    if t.job.Reset? && t.at == Begun && t.job.token in s.db.resets && ResetFree(s, id, t.job.token)
    then Some(t.(at := Claimed, resetsGone := {t.job.token})) else None
  }

  /** `DELETE FROM password_reset_tokens WHERE user_id = $1`, the second half of the revocation. */
  function Revoke(s: State, id: TxId, t: Tx): Option<Tx> {
    if t.at == Swept && t.row.Some? && t.lock.Some? then
      var rows := set k | k in s.db.resets && s.db.resets[k] == t.lock.value;
      if forall k :: k in rows ==> ResetFree(s, id, k)
      then Some(t.(at := Ready, resetsGone := t.resetsGone + rows)) else None
    else None
  }

  /** Where each handler commits; an expired link or reset token is spent without being used. */
  predicate MayCommit(db: Db, t: Tx) {
    match t.job
    case Request(_, _, _, _, noLink) => if noLink then t.at == Swept else t.at == Ready
    case Confirm(_) =>
      || t.at == Claimed
      || t.at == Ready
      || (t.at == Updated && t.claimed.Some? && t.claimed.value.user in db.users && !Moves(db, t))
    case Reset(_) => t.at == Claimed || t.at == Ready
    case _ => t.at == Ready
  }

  function Committed(s: State, id: TxId, t: Tx): State {
    var users := if t.row.Some? && t.lock.Some? then s.db.users[t.lock.value := t.row.value] else s.db.users;
    var kept := s.db.links - t.linksGone;
    var links := if t.added.Some? && t.job.Request? then kept[t.job.token := t.added.value] else kept;
    var moved := t.row.Some? && t.claimed.Some? && t.claimed.value.user in s.db.users && Moves(s.db, t);
    State(
      Db(users, links, s.db.resets - t.resetsGone),
      s.txs - {id},
      s.issued,
      if moved then
        s.moves + [Move(t.claimed.value.session, s.db.users[t.claimed.value.user].version)]
      else s.moves,
      if t.row.Some? && (t.job.Confirm? || t.job.Reset?) then s.used + [t.job.token] else s.used)
  }

  function Statement(s: State, e: Event): Option<Tx>
    requires e.Sweep? || e.SweepDone? || e.InsertLink? || e.ClaimLink? || e.LockUser? || e.MoveAddress?
             || e.BumpVersion? || e.ClaimReset? || e.RevokeResets?
  {
    if e.id !in s.txs then None
    else
      var t := s.txs[e.id];
      match e
      case Sweep(_) => SweepStart(s, t)
      case SweepDone(id) => SweepEnd(s, id, t)
      case InsertLink(id) => Insert(s, id, t)
      case ClaimLink(id) => Claim(s, id, t)
      case LockUser(id) => Lock(s, id, t)
      case MoveAddress(_) => SetAddress(s, t)
      case BumpVersion(id) => Bump(s, id, t)
      case ClaimReset(id) => TakeReset(s, id, t)
      case RevokeResets(id) => Revoke(s, id, t)
  }

  /** The state after an event, or None if it cannot happen now. */
  function Apply(s: State, e: Event): Option<State> {
    match e
    case Start(id, job) =>
      if id in s.txs || (job.Request? && job.token in s.issued) then None
      else
        Some(s.(txs := s.txs[id := Tx(job, Begun, None, None, None, {}, {}, None)],
                issued := if job.Request? then s.issued + {job.token} else s.issued))
    case Commit(id) =>
      if id in s.txs && MayCommit(s.db, s.txs[id]) then Some(Committed(s, id, s.txs[id])) else None
    case Abort(id) => if id in s.txs then Some(s.(txs := s.txs - {id})) else None
    case DropLink(token) =>
      if forall id :: id in s.txs ==> token !in s.txs[id].linksGone
      then Some(s.(db := s.db.(links := s.db.links - {token}))) else None
    case DropReset(token) =>
      if forall id :: id in s.txs ==> token !in s.txs[id].resetsGone
      then Some(s.(db := s.db.(resets := s.db.resets - {token}))) else None
    case AddReset(user, token) =>
      if token in s.issued then None
      else Some(s.(db := s.db.(resets := s.db.resets[token := user]), issued := s.issued + {token}))
    case _ =>
      var t := Statement(s, e);
      if t.Some? then Some(s.(txs := s.txs[e.id := t.value])) else None
  }

  function Run(s: State, events: seq<Event>): Option<State>
    decreases |events|
  {
    if events == [] then Some(s)
    else
      match Apply(s, events[0])
      case Some(next) => Run(next, events[1..])
      case None => None
  }

  predicate Initial(s: State) {
    && s.txs == map[] && s.moves == [] && s.used == []
    && s.db.links == map[] && s.db.resets.Keys <= s.issued
  }

  // ---------- The invariant ----------

  /** Every committed link belongs to its account's current version. */
  ghost predicate LinksCurrent(db: Db) {
    forall k :: k in db.links ==>
      db.links[k].user in db.users && db.links[k].session == db.users[db.links[k].user].version
  }

  /** The new row of `t` carries another version than the committed one. */
  predicate Bumped(db: Db, t: Tx) {
    t.row.Some? && t.lock.Some? && t.lock.value in db.users && t.row.value.version != db.users[t.lock.value].version
  }

  ghost predicate TxOk(db: Db, issued: set<Token>, t: Tx) {
    && (t.lock.Some? ==> t.lock.value in db.users && Account(db, t) == t.lock)
    && (t.row.Some? ==> t.lock.Some? && !t.job.Request? && t.at != Begun && t.at != Claimed)
    && (t.claimed.Some? ==>
          && t.job.Confirm? && t.at != Begun
          && t.job.token in db.links && db.links[t.job.token] == t.claimed.value
          && t.job.token in t.linksGone)
    && (t.job.Confirm? && t.at != Begun ==> t.claimed.Some?)
    && (t.at == Locked ==> t.lock.Some?)
    && (t.job.Reset? && t.at != Begun ==> t.job.token in db.resets && t.job.token in t.resetsGone)
    && (t.job.Request? ==> t.job.token in issued && t.job.token !in db.links && t.job.token !in db.resets)
    && (t.added.Some? ==>
          && t.job.Request? && t.lock == Some(t.added.value.user)
          && t.added.value.session == db.users[t.lock.value].version)
    && (Bumped(db, t) && t.at.Sweeping? ==> LinksOf(db, t.lock.value) <= t.at.rows + t.linksGone)
    && (Bumped(db, t) && (t.at.Swept? || t.at.Ready?) ==> LinksOf(db, t.lock.value) <= t.linksGone)
    && (t.row.Some? && t.job.Confirm? ==> (Bumped(db, t) <==> Moves(db, t)))
  }

  /** Locks are held by one transaction at a time, and no two requests draw the same token. */
  ghost predicate Apart(t: Tx, o: Tx) {
    && (t.lock.Some? ==> t.lock != o.lock)
    && t.linksGone !! o.linksGone
    && t.resetsGone !! o.resetsGone
    && (t.job.Request? && o.job.Request? ==> t.job.token != o.job.token)
  }

  ghost predicate TokensOnce(s: State) {
    && s.db.links.Keys + s.db.resets.Keys <= s.issued
    && s.db.links.Keys !! s.db.resets.Keys
    && (forall i :: 0 <= i < |s.used| ==>
          s.used[i] in s.issued && s.used[i] !in s.db.links && s.used[i] !in s.db.resets)
    && (forall i, j :: 0 <= i < j < |s.used| ==> s.used[i] != s.used[j])
  }

  ghost predicate Inv(s: State) {
    && LinksCurrent(s.db)
    && TokensOnce(s)
    && (forall id :: id in s.txs ==> TxOk(s.db, s.issued, s.txs[id]))
    && (forall id :: id in s.txs && s.txs[id].job.Request? ==> s.txs[id].job.token !in s.used)
    && (forall id, other :: id in s.txs && other in s.txs && id != other ==> Apart(s.txs[id], s.txs[other]))
    && (forall i :: 0 <= i < |s.moves| ==> s.moves[i].session == s.moves[i].version)
  }

  // ---------- Every event keeps it ----------

  lemma StatementKeeps(s: State, id: TxId, t: Tx)
    requires Inv(s) && id in s.txs && TxOk(s.db, s.issued, t) && t.job == s.txs[id].job
    requires forall other :: other in s.txs && other != id ==> Apart(t, s.txs[other])
    ensures Inv(s.(txs := s.txs[id := t]))
  {
    var next := s.(txs := s.txs[id := t]);
    forall a, b | a in next.txs && b in next.txs && a != b
      ensures Apart(next.txs[a], next.txs[b])
    {
      if b == id {
        assert Apart(t, s.txs[a]);
      }
    }
  }

  lemma StatementOk(s: State, e: Event)
    requires Inv(s)
    requires e.Sweep? || e.SweepDone? || e.InsertLink? || e.ClaimLink? || e.LockUser? || e.MoveAddress?
             || e.BumpVersion? || e.ClaimReset? || e.RevokeResets?
    requires Statement(s, e).Some?
    ensures Inv(s.(txs := s.txs[e.id := Statement(s, e).value]))
  {
    var t := s.txs[e.id];
    var u := Statement(s, e).value;
    assert TxOk(s.db, s.issued, t);
    forall other | other in s.txs && other != e.id
      ensures Apart(u, s.txs[other])
    {
      assert Apart(t, s.txs[other]);
    }
    StatementKeeps(s, e.id, u);
  }

  lemma CommitKeepsTx(s: State, id: TxId, other: TxId)
    requires Inv(s) && id in s.txs && MayCommit(s.db, s.txs[id]) && other in s.txs && other != id
    ensures TxOk(Committed(s, id, s.txs[id]).db, s.issued, s.txs[other])
  {
    var t, o := s.txs[id], s.txs[other];
    assert TxOk(s.db, s.issued, t) && TxOk(s.db, s.issued, o) && Apart(t, o) && Apart(o, t);
    var db := Committed(s, id, t).db;
    if o.lock.Some? {
      assert db.users[o.lock.value] == s.db.users[o.lock.value];
      assert LinksOf(db, o.lock.value) <= LinksOf(s.db, o.lock.value);
    }
  }

  lemma CommitKeepsLinks(s: State, id: TxId)
    requires Inv(s) && id in s.txs && MayCommit(s.db, s.txs[id])
    ensures LinksCurrent(Committed(s, id, s.txs[id]).db)
  {
    var t := s.txs[id];
    var db := Committed(s, id, t).db;
    assert TxOk(s.db, s.issued, t);
    forall k | k in db.links
      ensures db.links[k].user in db.users && db.links[k].session == db.users[db.links[k].user].version
    {
      if k in s.db.links && t.row.Some? && s.db.links[k].user == t.lock.value {
        assert k in LinksOf(s.db, t.lock.value);
      }
    }
  }

  lemma CommitKeeps(s: State, id: TxId)
    requires Inv(s) && id in s.txs && MayCommit(s.db, s.txs[id])
    ensures Inv(Committed(s, id, s.txs[id]))
  {
    var t := s.txs[id];
    var next := Committed(s, id, t);
    assert TxOk(s.db, s.issued, t);
    CommitKeepsLinks(s, id);
    forall other | other in next.txs
      ensures TxOk(next.db, next.issued, next.txs[other])
      ensures next.txs[other].job.Request? ==> next.txs[other].job.token !in next.used
    {
      CommitKeepsTx(s, id, other);
    }
  }

  lemma StartKeeps(s: State, id: TxId, job: Job)
    requires Inv(s) && Apply(s, Start(id, job)).Some?
    ensures Inv(Apply(s, Start(id, job)).value)
  {
    var next := Apply(s, Start(id, job)).value;
    forall a, b | a in next.txs && b in next.txs && a != b
      ensures Apart(next.txs[a], next.txs[b])
    {
      if a in s.txs && b in s.txs && a != id && b != id {
        assert Apart(s.txs[a], s.txs[b]);
      }
    }
  }

  /** Statements outside the transactions: `Abort`, `DropLink`, `DropReset` and `AddReset`. */
  lemma LooseKeeps(s: State, e: Event)
    requires Inv(s) && Apply(s, e).Some?
    requires e.Abort? || e.DropLink? || e.DropReset? || e.AddReset?
    ensures Inv(Apply(s, e).value)
  {
    var next := Apply(s, e).value;
    forall id | id in next.txs
      ensures TxOk(next.db, next.issued, next.txs[id])
    {
      assert TxOk(s.db, s.issued, s.txs[id]);
    }
  }

  lemma ApplyKeeps(s: State, e: Event)
    requires Inv(s) && Apply(s, e).Some?
    ensures Inv(Apply(s, e).value)
  {
    match e
    case Start(id, job) => StartKeeps(s, id, job);
    case Commit(id) => CommitKeeps(s, id);
    case Abort(_) => LooseKeeps(s, e);
    case DropLink(_) => LooseKeeps(s, e);
    case DropReset(_) => LooseKeeps(s, e);
    case AddReset(_, _) => LooseKeeps(s, e);
    case _ => StatementOk(s, e);
  }

  lemma {:induction false} RunKeeps(s: State, events: seq<Event>)
    requires Inv(s) && Run(s, events).Some?
    ensures Inv(Run(s, events).value)
    decreases |events|
  {
    if events != [] {
      ApplyKeeps(s, events[0]);
      RunKeeps(Apply(s, events[0]).value, events[1..]);
    }
  }

  // ---------- Safety of every interleaving ----------

  /**
    However the statements interleave: every committed link belongs to its account's current
    version, every address change came from a link of the session that was current then, and no
    token was used twice.
   */
  lemma LinksNeverOutliveSessions(s: State, events: seq<Event>)
    requires Initial(s) && Run(s, events).Some?
    ensures var end := Run(s, events).value;
      && (forall k :: k in end.db.links ==>
            && end.db.links[k].user in end.db.users
            && end.db.links[k].session == end.db.users[end.db.links[k].user].version)
      && (forall i :: 0 <= i < |end.moves| ==> end.moves[i].session == end.moves[i].version)
      && (forall i, j :: 0 <= i < j < |end.used| ==> end.used[i] != end.used[j])
  {
    RunKeeps(s, events);
  }
}
