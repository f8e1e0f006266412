/** The memberships of one business (internal/adminauth/membership.go): any number of `Change`
    transactions, session openings and refusals, interleaved statement by statement under READ COMMITTED.

    The statements are those of db/queries/adminmembers.sql and migration 00081. A row lock is held to the
    end of its transaction; a locked row is re-checked on its newest version, and the lock of a row the
    re-check drops is kept.
 */
module Memberships {

  type MemberId = nat
  type TxId = nat
  type SessionId = nat

  datatype Act = Disable | Enable | MakeOwner | MakeManager

  /** `refused`: the person refused the membership (unlinked_at is stamped). */
  datatype Row = Row(owner: bool, active: bool, refused: bool) {
    predicate ActiveOwner() { owner && active }

    /** An owner who can sign in: what the last-owner rule counts. */
    predicate SignsIn() { owner && active && !refused }
  }

  datatype Session = Session(member: MemberId, live: bool)

  datatype Stage =
    | Begun                          // next: LockActiveAdminOwners
    | Locking(todo: set<MemberId>)   // that statement took its snapshot and locks it in id order
    | Targeted                       // LockAdminMember done; next: SignInOwners and the decision
    | Decided                        // next: the write
    | Written(row: Row)              // next: the revocation, or the commit of a role change
    | Revoked(row: Row)              // next: commit

  /** A `Change` in flight. `owners` is the lock statement's result, `live` the resolver's. */
  datatype Tx = Tx(actor: MemberId, target: MemberId, act: Act, stage: Stage,
                   snapshot: set<MemberId>, locked: set<MemberId>, owners: set<MemberId>,
                   live: set<MemberId>, revoked: set<SessionId>) {
    predicate TakesAnOwnerAway() { act.Disable? || act.MakeManager? }

    predicate PastTheLock() { !stage.Begun? && !(stage.Locking? && stage.todo != {}) }

    predicate PastTheRead() { stage.Decided? || stage.Written? || stage.Revoked? }
  }

  /** A session-giving transaction: it locked the membership, then read whether it may have a session. */
  datatype Opening = Opening(member: MemberId, allowed: bool)

  datatype State = State(
    next: TxId,
    rows: map<MemberId, Row>,             // committed
    sessions: map<SessionId, Session>,    // committed
    txs: map<TxId, Tx>,
    openings: map<TxId, Opening>)

  datatype Action =
    | Start(actor: MemberId, target: MemberId, act: Act)
    | Snapshot(tx: TxId)
    | LockOwner(tx: TxId, member: MemberId)
    | LockTarget(tx: TxId)
    | ReadOwners(tx: TxId, live: set<MemberId>)
    | Write(tx: TxId)
    | RevokeAll(tx: TxId)
    | Commit(tx: TxId)
    | RollBack(tx: TxId)                          // an error, a refusal, or the process dying
    | Open(member: MemberId)
    | OpenCommit(tx: TxId)
    | OpenRollBack(tx: TxId)
    | SignOut(session: SessionId)
    | Refuse(member: MemberId, alsoDisable: bool) // the person's own unlink
    | Relink(member: MemberId)
    | Join(member: MemberId, row: Row)

  /** No other transaction holds the row. */
  ghost predicate Free(s: State, m: MemberId, t: TxId) {
    && (forall u :: u in s.txs && u != t ==> m !in s.txs[u].locked)
    && (forall o :: o in s.openings && o != t ==> s.openings[o].member != m)
  }

  ghost function ActiveOwners(s: State): set<MemberId> { set m | m in s.rows && s.rows[m].ActiveOwner() }

  ghost function SignInOwners(s: State): set<MemberId> { set m | m in s.rows && s.rows[m].SignsIn() }

  ghost predicate HasOwner(s: State) { exists m :: m in s.rows && s.rows[m].SignsIn() }

  /** resolve_admin_owners_by_tenant answers at most 200 of them. */
  ghost predicate ResolverAnswers(s: State, live: set<MemberId>) {
    && live <= SignInOwners(s)
    && (|SignInOwners(s)| <= 200 ==> live == SignInOwners(s))
    && (|SignInOwners(s)| > 200 ==> |live| == 200)
  }

  /** The guarded UPDATE of the act, on the row it finds; None: it matches no row. */
  datatype Written = NoRow | NewRow(row: Row)

  function Changed(row: Row, act: Act): Written {
    match act
    case Disable => if row.active then NewRow(row.(active := false)) else NoRow
    case Enable => if row.active then NoRow else NewRow(row.(active := true))
    case MakeOwner => if row.active && !row.owner then NewRow(row.(owner := true)) else NoRow
    case MakeManager => if row.active && row.owner then NewRow(row.(owner := false)) else NoRow
  }

  function End(sessions: map<SessionId, Session>, which: set<SessionId>): map<SessionId, Session> {
    map x | x in sessions :: if x in which then sessions[x].(live := false) else sessions[x]
  }

  ghost function LiveOf(s: State, m: MemberId): set<SessionId> {
    set x | x in s.sessions && s.sessions[x].member == m && s.sessions[x].live
  }

  ghost predicate Enabled(s: State, a: Action) {
    match a {
      case Start(_, _, _) => true
      case Snapshot(t) => t in s.txs && s.txs[t].stage.Begun?
      case LockOwner(t, m) =>
        && t in s.txs && s.txs[t].stage.Locking? && m in s.txs[t].stage.todo && m in s.rows
        && (forall o :: o in s.txs[t].stage.todo ==> m <= o) && Free(s, m, t)
      case LockTarget(t) =>
        && t in s.txs && s.txs[t].stage == Locking({}) && s.txs[t].actor in s.txs[t].owners
        && s.txs[t].target in s.rows && Free(s, s.txs[t].target, t)
      case ReadOwners(t, live) =>
        && t in s.txs && s.txs[t].stage.Targeted? && ResolverAnswers(s, live)
        && var tx := s.txs[t];
           && !(tx.target == tx.actor && (tx.act.Disable? || tx.act.Enable?))
           && !(tx.TakesAnOwnerAway() && tx.target in live && |live| <= 1)
      case Write(t) =>
        && t in s.txs && s.txs[t].stage.Decided? && s.txs[t].target in s.rows
        && Changed(s.rows[s.txs[t].target], s.txs[t].act).NewRow?
      case RevokeAll(t) => t in s.txs && s.txs[t].stage.Written? && (s.txs[t].act.Disable? || s.txs[t].act.Enable?)
      case Commit(t) =>
        && t in s.txs
        && (s.txs[t].stage.Revoked? || (s.txs[t].stage.Written? && (s.txs[t].act.MakeOwner? || s.txs[t].act.MakeManager?)))
      case RollBack(t) => t in s.txs
      case Open(m) => m in s.rows && Free(s, m, s.next)
      case OpenCommit(o) => o in s.openings && s.openings[o].allowed
      case OpenRollBack(o) => o in s.openings
      case SignOut(x) => x in s.sessions
      case Refuse(m, _) => m in s.rows && !s.rows[m].refused && Free(s, m, s.next)
      case Relink(m) => m in s.rows && s.rows[m].refused && Free(s, m, s.next)
      case Join(m, row) => m !in s.rows && !row.refused
    }
  }

  function Set(s: State, t: TxId, tx: Tx): State { s.(txs := s.txs[t := tx]) }

  ghost function Apply(s: State, a: Action): State
    requires Enabled(s, a)
  {
    match a {
      case Start(actor, target, act) =>
        s.(next := s.next + 1, txs := s.txs[s.next := Tx(actor, target, act, Begun, {}, {}, {}, {}, {})])
      case Snapshot(t) => Set(s, t, s.txs[t].(stage := Locking(ActiveOwners(s)), snapshot := ActiveOwners(s)))
      case LockOwner(t, m) =>
        var tx := s.txs[t];
        Set(s, t, tx.(stage := Locking(tx.stage.todo - {m}), locked := tx.locked + {m},
                      owners := if s.rows[m].ActiveOwner() then tx.owners + {m} else tx.owners))
      case LockTarget(t) => Set(s, t, s.txs[t].(stage := Targeted, locked := s.txs[t].locked + {s.txs[t].target}))
      case ReadOwners(t, live) => Set(s, t, s.txs[t].(stage := Decided, live := live))
      case Write(t) => Set(s, t, s.txs[t].(stage := Written(Changed(s.rows[s.txs[t].target], s.txs[t].act).row)))
      case RevokeAll(t) => Set(s, t, s.txs[t].(stage := Revoked(s.txs[t].stage.row), revoked := LiveOf(s, s.txs[t].target)))
      case Commit(t) =>
        var tx := s.txs[t];
        s.(rows := s.rows[tx.target := tx.stage.row], sessions := End(s.sessions, tx.revoked), txs := s.txs - {t})
      case RollBack(t) => s.(txs := s.txs - {t})
      case Open(m) =>
        s.(next := s.next + 1,
           openings := s.openings[s.next := Opening(m, s.rows[m].active && !s.rows[m].refused)])
      case OpenCommit(o) =>
        s.(sessions := s.sessions[o := Session(s.openings[o].member, true)], openings := s.openings - {o})
      case OpenRollBack(o) => s.(openings := s.openings - {o})
      case SignOut(x) => s.(sessions := End(s.sessions, {x}))
      case Refuse(m, alsoDisable) =>
        s.(rows := s.rows[m := s.rows[m].(refused := true, active := s.rows[m].active && !alsoDisable)],
           sessions := End(s.sessions, LiveOf(s, m)))
      case Relink(m) => s.(rows := s.rows[m := s.rows[m].(refused := false)])
      case Join(m, row) => s.(rows := s.rows[m := row])
    }
  }

  /** A business as a run may find it: nothing in flight, and no live session on a disabled or refused row. */
  ghost predicate Init(s: State) {
    && s.txs == map[] && s.openings == map[] && SessionsFit(s)
    && forall x :: x in s.sessions ==> x < s.next
  }

  /** A sequence of enabled steps from states[0]. */
  ghost predicate IsPath(states: seq<State>, actions: seq<Action>) {
    && |states| == |actions| + 1
    && forall i :: 0 <= i < |actions| ==> Enabled(states[i], actions[i]) && states[i + 1] == Apply(states[i], actions[i])
  }

  ghost predicate IsRun(states: seq<State>, actions: seq<Action>) {
    IsPath(states, actions) && Init(states[0])
  }

  // ------------------------------------------------------------- the invariant

  ghost predicate Holds(s: State, t: TxId, m: MemberId) {
    || (t in s.txs && m in s.txs[t].locked)
    || (t in s.openings && s.openings[t].member == m)
  }

  ghost predicate OneHolder(s: State) {
    && (forall t :: t in s.txs ==> t < s.next && t !in s.openings)
    && (forall o :: o in s.openings ==> o < s.next)
    && (forall x :: x in s.sessions ==> x < s.next && x !in s.openings)
    && (forall t, u, m :: Holds(s, t, m) && Holds(s, u, m) ==> t == u)
  }

  /** What one `Change` knows of the rows it has locked still holds of the committed rows. */
  ghost predicate TxFits(s: State, tx: Tx) {
    && tx.owners <= tx.locked && tx.locked <= s.rows.Keys
    && (forall m :: m in tx.owners ==> m in s.rows && s.rows[m].ActiveOwner())
    && (tx.stage.Locking? ==> forall m :: m in tx.snapshot ==> m in tx.stage.todo || m in tx.locked)
    && (tx.stage.Targeted? || tx.PastTheRead() ==> tx.snapshot <= tx.locked && tx.target in tx.locked && tx.target in s.rows)
    && (tx.stage.Targeted? || tx.PastTheRead() ==> tx.actor in tx.owners)
    && (forall m :: m in tx.locked && m in s.rows && s.rows[m].ActiveOwner() && m != tx.target ==> m in tx.owners)
    && (tx.stage.Written? || tx.stage.Revoked? ==> Changed(s.rows[tx.target], tx.act) == NewRow(tx.stage.row))
  }

  ghost predicate TxsFit(s: State) {
    forall t :: t in s.txs ==> TxFits(s, s.txs[t])
  }

  /** A live session belongs to a membership that may have one, now and after what is being committed. */
  ghost predicate SessionsFit(s: State) {
    forall x :: x in s.sessions && s.sessions[x].live ==>
      s.sessions[x].member in s.rows && s.rows[s.sessions[x].member].active && !s.rows[s.sessions[x].member].refused
  }

  ghost predicate OpeningsFit(s: State) {
    && (forall o :: o in s.openings && s.openings[o].allowed ==>
         s.openings[o].member in s.rows && s.rows[s.openings[o].member].active && !s.rows[s.openings[o].member].refused)
    && (forall t :: t in s.txs && s.txs[t].stage.Revoked? ==> LiveOf(s, s.txs[t].target) <= s.txs[t].revoked)
  }

  ghost predicate Inv(s: State) {
    OneHolder(s) && TxsFit(s) && SessionsFit(s) && OpeningsFit(s)
  }

  // ------------------------------------------------------------- it is kept

  function Actor(s: State, a: Action): TxId {
    match a
    case Start(_, _, _) => s.next
    case Snapshot(t) => t
    case LockOwner(t, _) => t
    case LockTarget(t) => t
    case ReadOwners(t, _) => t
    case Write(t) => t
    case RevokeAll(t) => t
    case Commit(t) => t
    case RollBack(t) => t
    case Open(_) => s.next
    case OpenCommit(t) => t
    case OpenRollBack(t) => t
    case SignOut(_) => s.next
    case Refuse(_, _) => s.next
    case Relink(_) => s.next
    case Join(_, _) => s.next
  }

  lemma FreeMeansUnheld(s: State, m: MemberId, t: TxId)
    requires Free(s, m, t)
    ensures forall u :: u != t ==> !Holds(s, u, m)
  {
  }

  /** A step touches no transaction but its own. */
  lemma OthersStep(s: State, a: Action)
    requires Inv(s) && Enabled(s, a)
    ensures forall t :: t != Actor(s, a) ==> (t in Apply(s, a).txs <==> t in s.txs)
    ensures forall t :: t in s.txs && t != Actor(s, a) ==> Apply(s, a).txs[t] == s.txs[t]
    ensures forall o :: o != Actor(s, a) ==> (o in Apply(s, a).openings <==> o in s.openings)
    ensures forall o :: o in s.openings && o != Actor(s, a) ==> Apply(s, a).openings[o] == s.openings[o]
  {
    hide Inv, Free, ResolverAnswers, SignInOwners, ActiveOwners, LiveOf, End, Changed;
  }

  lemma IdsAreFresh(s: State)
    requires Inv(s)
    ensures s.next !in s.txs && s.next !in s.openings
    ensures forall t :: t in s.txs ==> t !in s.openings
  {
    hide SessionsFit, OpeningsFit, TxsFit, Holds;
  }

  /** The row a step locks, if it locks one. */
  lemma LocksOne(s: State, a: Action, m: MemberId)
    requires Inv(s) && Enabled(s, a) && Holds(Apply(s, a), Actor(s, a), m)
    ensures Holds(s, Actor(s, a), m) || Free(s, m, Actor(s, a))
  {
    hide Inv, Free, ResolverAnswers, SignInOwners, ActiveOwners, LiveOf, End, Changed;
    IdsAreFresh(s);
  }

  /** Locks are taken only on rows nobody else holds, and only such rows change. */
  lemma LocksStep(s: State, a: Action)
    requires Inv(s) && Enabled(s, a)
    ensures forall t, m :: t != Actor(s, a) ==> Holds(Apply(s, a), t, m) == Holds(s, t, m)
    ensures forall m :: Holds(Apply(s, a), Actor(s, a), m) ==>
              Holds(s, Actor(s, a), m) || (forall t :: t != Actor(s, a) ==> !Holds(s, t, m))
  {
    hide Inv, Enabled, Apply, Actor, Free;
    OthersStep(s, a);
    forall m | Holds(Apply(s, a), Actor(s, a), m)
      ensures Holds(s, Actor(s, a), m) || (forall t :: t != Actor(s, a) ==> !Holds(s, t, m))
    {
      LocksOne(s, a, m);
      if !Holds(s, Actor(s, a), m) { FreeMeansUnheld(s, m, Actor(s, a)); }
    }
  }

  /** The row a step changes; nobody else holds it. */
  lemma ChangedRow(s: State, a: Action) returns (m: MemberId)
    requires Inv(s) && Enabled(s, a) && (a.Commit? || a.Refuse? || a.Relink?)
    ensures forall t :: t != Actor(s, a) ==> !Holds(s, t, m)
    ensures forall k :: k in s.rows ==> k in Apply(s, a).rows && (k != m ==> Apply(s, a).rows[k] == s.rows[k])
  {
    hide SessionsFit, OpeningsFit, HasOwner, ResolverAnswers, SignInOwners, ActiveOwners, LiveOf, Free;
    match a {
      case Commit(t) =>
        m := s.txs[t].target;
        assert TxFits(s, s.txs[t]) && Holds(s, t, m);
      case Refuse(k, _) =>
        m := k;
        FreeMeansUnheld(s, m, s.next);
      case Relink(k) =>
        m := k;
        FreeMeansUnheld(s, m, s.next);
    }
  }

  lemma RowsStep(s: State, a: Action)
    requires Inv(s) && Enabled(s, a)
    ensures forall m :: m in s.rows ==> m in Apply(s, a).rows
    ensures forall t, m :: t != Actor(s, a) && Holds(s, t, m) && m in s.rows ==> Apply(s, a).rows[m] == s.rows[m]
  {
    if a.Commit? || a.Refuse? || a.Relink? {
      var m := ChangedRow(s, a);
      hide *;
    } else {
      hide Inv, HasOwner, ResolverAnswers, SignInOwners, ActiveOwners, LiveOf, Free, Holds;
    }
  }

  lemma KeepsHolders(s: State, a: Action)
    requires Inv(s) && Enabled(s, a)
    ensures OneHolder(Apply(s, a))
  {
    hide SessionsFit, OpeningsFit, TxsFit, HasOwner;
    LocksStep(s, a);
    IdsStep(s, a);
    hide Holds, Apply, Enabled, Actor;
  }

  lemma IdsStep(s: State, a: Action)
    requires Inv(s) && Enabled(s, a)
    ensures forall t :: t in Apply(s, a).txs ==> t < Apply(s, a).next && t !in Apply(s, a).openings
    ensures forall o :: o in Apply(s, a).openings ==> o < Apply(s, a).next
    ensures forall x :: x in Apply(s, a).sessions ==> x < Apply(s, a).next && x !in Apply(s, a).openings
  {
    hide SessionsFit, OpeningsFit, TxsFit, Holds, Free, ResolverAnswers, SignInOwners, ActiveOwners, LiveOf, Changed;
  }

  lemma FitsWhileLocked(s: State, s': State, tx: Tx)
    requires TxFits(s, tx)
    requires forall m :: m in tx.locked ==> m in s'.rows && s'.rows[m] == s.rows[m]
    ensures TxFits(s', tx)
  {
  }

  lemma OtherTxFits(s: State, a: Action, t: TxId)
    requires Inv(s) && Enabled(s, a) && t in s.txs && t != Actor(s, a)
    ensures t in Apply(s, a).txs && TxFits(Apply(s, a), Apply(s, a).txs[t])
  {
    RowsStep(s, a);
    OthersStep(s, a);
    assert TxFits(s, s.txs[t]);
    var tx, s' := s.txs[t], Apply(s, a);
    forall m | m in tx.locked
      ensures m in s'.rows && s'.rows[m] == s.rows[m]
    {
      assert Holds(s, t, m) && m in s.rows;
    }
    FitsWhileLocked(s, s', tx);
  }

  lemma ActorTxFits(s: State, a: Action)
    requires Inv(s) && Enabled(s, a) && Actor(s, a) in Apply(s, a).txs
    ensures TxFits(Apply(s, a), Apply(s, a).txs[Actor(s, a)])
  {
    hide SessionsFit, OpeningsFit, HasOwner, Free, ResolverAnswers, ActiveOwners, SignInOwners, LiveOf, TxFits;
    var t := Actor(s, a);
    assert t in s.txs ==> TxFits(s, s.txs[t]);
    match a {
      case Start(actor, target, act) => FreshFits(s, Apply(s, a).txs[t], Apply(s, a));
      case Snapshot(_) => SnapshotFits(s, s.txs[t], Apply(s, a));
      case LockOwner(_, m) => LockOwnerFits(s, s.txs[t], m, Apply(s, a));
      case LockTarget(_) => LockTargetFits(s, s.txs[t], Apply(s, a));
      case ReadOwners(_, live) => StageFits(s, s.txs[t], Apply(s, a).txs[t], Apply(s, a));
      case Write(_) => StageFits(s, s.txs[t], Apply(s, a).txs[t], Apply(s, a));
      case RevokeAll(_) => StageFits(s, s.txs[t], Apply(s, a).txs[t], Apply(s, a));
      case _ =>
    }
  }

  lemma FreshFits(s: State, tx: Tx, s': State)
    requires tx.stage.Begun? && tx.locked == {} && tx.owners == {}
    ensures TxFits(s', tx)
  {
  }

  lemma SnapshotFits(s: State, tx: Tx, s': State)
    requires TxFits(s, tx) && s'.rows == s.rows
    ensures TxFits(s', tx.(stage := Locking(ActiveOwners(s)), snapshot := ActiveOwners(s)))
  {
  }

  lemma LockOwnerFits(s: State, tx: Tx, m: MemberId, s': State)
    requires TxFits(s, tx) && s'.rows == s.rows && tx.stage.Locking? && m in tx.stage.todo && m in s.rows
    ensures TxFits(s', tx.(stage := Locking(tx.stage.todo - {m}), locked := tx.locked + {m},
                           owners := if s.rows[m].ActiveOwner() then tx.owners + {m} else tx.owners))
  {
  }

  lemma LockTargetFits(s: State, tx: Tx, s': State)
    requires TxFits(s, tx) && s'.rows == s.rows && tx.stage == Locking({}) && tx.actor in tx.owners && tx.target in s.rows
    ensures TxFits(s', tx.(stage := Targeted, locked := tx.locked + {tx.target}))
  {
  }

  /** From the target's lock on only the stage moves, and the written row is the act's. */
  lemma StageFits(s: State, tx: Tx, tx': Tx, s': State)
    requires TxFits(s, tx) && s'.rows == s.rows && (tx.stage.Targeted? || tx.PastTheRead()) && tx'.PastTheRead()
    requires tx' == tx.(stage := tx'.stage, live := tx'.live, revoked := tx'.revoked)
    requires || tx'.stage.Decided?
             || (tx'.stage.Written? && tx.target in s.rows && Changed(s.rows[tx.target], tx.act) == NewRow(tx'.stage.row))
             || (tx.stage.Written? && tx'.stage == Revoked(tx.stage.row))
    ensures TxFits(s', tx')
  {
  }

  lemma KeepsTxs(s: State, a: Action)
    requires Inv(s) && Enabled(s, a)
    ensures TxsFit(Apply(s, a))
  {
    RowsStep(s, a);
    OthersStep(s, a);
    forall t | t in Apply(s, a).txs
      ensures TxFits(Apply(s, a), Apply(s, a).txs[t])
    {
      if t == Actor(s, a) { ActorTxFits(s, a); } else { OtherTxFits(s, a, t); }
    }
  }

  /** Where live sessions come from. */
  lemma SessionsStep(s: State, a: Action)
    requires Inv(s) && Enabled(s, a)
    ensures forall x :: x in Apply(s, a).sessions && Apply(s, a).sessions[x].live ==>
              || (x in s.sessions && s.sessions[x] == Apply(s, a).sessions[x])
              || (a.OpenCommit? && x == a.tx && a.tx in s.openings && s.openings[x].allowed
                  && Apply(s, a).sessions[x].member == s.openings[x].member)
  {
    hide SessionsFit, OpeningsFit, TxsFit, OneHolder, HasOwner, ResolverAnswers, Free;
  }

  /** The commit of an enable or of a role change disables nobody; a disable ends the target's sessions. */
  lemma CommitKeepsLiveSessions(s: State, t: TxId)
    requires Inv(s) && Enabled(s, Commit(t))
    ensures SessionsFit(Apply(s, Commit(t)))
  {
    var tx := s.txs[t];
    assert TxFits(s, tx);
    assert tx.stage.Revoked? ==> LiveOf(s, tx.target) <= tx.revoked;
    hide TxsFit, OneHolder, OpeningsFit, TxFits;
  }

  lemma RowsOnlyOpen(s: State, a: Action, m: MemberId)
    requires Enabled(s, a) && !a.Commit? && !a.Refuse? && m in s.rows
    ensures m in Apply(s, a).rows
    ensures s.rows[m].active == Apply(s, a).rows[m].active && (s.rows[m].refused || !Apply(s, a).rows[m].refused)
  {
    hide Free, ResolverAnswers, SignInOwners, ActiveOwners, LiveOf, End, Changed;
  }

  lemma RefusalKeepsLiveSessions(s: State, m: MemberId, alsoDisable: bool)
    requires SessionsFit(s) && Enabled(s, Refuse(m, alsoDisable))
    ensures SessionsFit(Apply(s, Refuse(m, alsoDisable)))
  {
    hide Free;
  }

  lemma OtherStepKeepsLiveSession(s: State, a: Action, x: SessionId)
    requires Inv(s) && Enabled(s, a) && !a.Commit? && !a.Refuse?
    requires x in Apply(s, a).sessions && Apply(s, a).sessions[x].live
    ensures var s' := Apply(s, a); var m := s'.sessions[x].member;
            m in s'.rows && s'.rows[m].active && !s'.rows[m].refused
  {
    hide TxsFit, OneHolder, Enabled, Apply, LiveOf;
    SessionsStep(s, a);
    RowsOnlyOpen(s, a, Apply(s, a).sessions[x].member);
  }

  lemma KeepsLiveSessions(s: State, a: Action)
    requires Inv(s) && Enabled(s, a)
    ensures SessionsFit(Apply(s, a))
  {
    hide Inv, Enabled, Apply;
    if a.Commit? {
      CommitKeepsLiveSessions(s, a.tx);
    } else if a.Refuse? {
      LiveSessionsFit(s);
      RefusalKeepsLiveSessions(s, a.member, a.alsoDisable);
    } else {
      var s' := Apply(s, a);
      forall x | x in s'.sessions && s'.sessions[x].live
        ensures s'.sessions[x].member in s'.rows && s'.rows[s'.sessions[x].member].active
        ensures !s'.rows[s'.sessions[x].member].refused
      {
        OtherStepKeepsLiveSession(s, a, x);
      }
    }
  }

  lemma LiveSessionsFit(s: State)
    requires Inv(s)
    ensures SessionsFit(s)
  {
    hide OneHolder, TxsFit, OpeningsFit;
  }

  /** A row somebody else holds stays as it is. */
  lemma HeldRowStays(s: State, a: Action, t: TxId, m: MemberId)
    requires Inv(s) && Enabled(s, a) && t != Actor(s, a) && Holds(s, t, m) && m in s.rows
    ensures m in Apply(s, a).rows && Apply(s, a).rows[m] == s.rows[m]
  {
    hide *;
    RowsStep(s, a);
  }

  lemma OpeningAllowed(s: State, o: TxId)
    requires Inv(s) && o in s.openings && s.openings[o].allowed
    ensures var m := s.openings[o].member; Holds(s, o, m) && m in s.rows && s.rows[m].active && !s.rows[m].refused
  {
  }

  lemma OpensAllowed(s: State, a: Action, o: TxId)
    requires Inv(s) && Enabled(s, a) && o == Actor(s, a) && o in Apply(s, a).openings && Apply(s, a).openings[o].allowed
    ensures var s' := Apply(s, a); var m := s'.openings[o].member; m in s'.rows && s'.rows[m].active && !s'.rows[m].refused
  {
    hide SessionsFit, OpeningsFit, TxsFit, Free, ResolverAnswers, SignInOwners, ActiveOwners, LiveOf, Changed, Holds;
  }

  lemma KeepsAllowed(s: State, a: Action, o: TxId)
    requires Inv(s) && Enabled(s, a) && o in Apply(s, a).openings && Apply(s, a).openings[o].allowed
    ensures var s' := Apply(s, a); var m := s'.openings[o].member; m in s'.rows && s'.rows[m].active && !s'.rows[m].refused
  {
    hide *;
    if o == Actor(s, a) {
      OpensAllowed(s, a, o);
    } else {
      OthersStep(s, a);
      OpeningAllowed(s, o);
      HeldRowStays(s, a, o, s.openings[o].member);
    }
  }

  lemma OnlyARevocation(s: State, a: Action, t: TxId)
    requires Inv(s) && Enabled(s, a) && t == Actor(s, a) && t in Apply(s, a).txs && Apply(s, a).txs[t].stage.Revoked?
    ensures a == RevokeAll(t)
  {
    hide Inv, Free, ResolverAnswers, SignInOwners, ActiveOwners, LiveOf, End, Changed;
    IdsAreFresh(s);
  }

  lemma RevokesAll(s: State, t: TxId)
    requires Enabled(s, RevokeAll(t))
    ensures var s' := Apply(s, RevokeAll(t)); t in s'.txs && LiveOf(s', s'.txs[t].target) <= s'.txs[t].revoked
  {
  }

  lemma RevokedHolds(s: State, t: TxId)
    requires Inv(s) && t in s.txs && s.txs[t].stage.Revoked?
    ensures Holds(s, t, s.txs[t].target) && LiveOf(s, s.txs[t].target) <= s.txs[t].revoked
  {
    assert TxFits(s, s.txs[t]);
  }

  /** No session opens for a membership that somebody else holds. */
  lemma NoneOpens(s: State, a: Action, t: TxId, m: MemberId)
    requires Inv(s) && Enabled(s, a) && t != Actor(s, a) && Holds(s, t, m)
    ensures LiveOf(Apply(s, a), m) <= LiveOf(s, m)
  {
    SessionsStep(s, a);
    if a.OpenCommit? { assert Actor(s, a) == a.tx && Holds(s, a.tx, s.openings[a.tx].member); }
    assert OneHolder(s);
    hide Inv, Enabled, Apply, Holds, Actor;
  }

  lemma KeepsRevoked(s: State, a: Action, t: TxId)
    requires Inv(s) && Enabled(s, a) && t in Apply(s, a).txs && Apply(s, a).txs[t].stage.Revoked?
    ensures LiveOf(Apply(s, a), Apply(s, a).txs[t].target) <= Apply(s, a).txs[t].revoked
  {
    hide *;
    if t == Actor(s, a) {
      OnlyARevocation(s, a, t);
      RevokesAll(s, t);
    } else {
      OthersStep(s, a);
      RevokedHolds(s, t);
      NoneOpens(s, a, t, s.txs[t].target);
    }
  }

  lemma KeepsOpenings(s: State, a: Action)
    requires Inv(s) && Enabled(s, a)
    ensures OpeningsFit(Apply(s, a))
  {
    hide Inv, Enabled, Apply, LiveOf;
    var s' := Apply(s, a);
    forall o | o in s'.openings && s'.openings[o].allowed
      ensures s'.openings[o].member in s'.rows && s'.rows[s'.openings[o].member].active
              && !s'.rows[s'.openings[o].member].refused
    {
      KeepsAllowed(s, a, o);
    }
    forall t | t in s'.txs && s'.txs[t].stage.Revoked?
      ensures LiveOf(s', s'.txs[t].target) <= s'.txs[t].revoked
    {
      KeepsRevoked(s, a, t);
    }
  }

  lemma KeepsInv(s: State, a: Action)
    requires Inv(s) && Enabled(s, a)
    ensures Inv(Apply(s, a))
  {
    hide Enabled, Apply, OneHolder, TxsFit, SessionsFit, OpeningsFit;
    KeepsHolders(s, a);
    KeepsTxs(s, a);
    KeepsLiveSessions(s, a);
    KeepsOpenings(s, a);
  }

  lemma PathLength(states: seq<State>, actions: seq<Action>)
    requires IsPath(states, actions)
    ensures |states| == |actions| + 1
  {
  }

  lemma StepOf(states: seq<State>, actions: seq<Action>, n: nat)
    requires IsPath(states, actions) && n < |actions|
    ensures |states| == |actions| + 1 && Enabled(states[n], actions[n]) && states[n + 1] == Apply(states[n], actions[n])
  {
    hide Enabled, Apply;
  }

  lemma {:induction false} PathKeepsInv(states: seq<State>, actions: seq<Action>, n: nat)
    requires IsPath(states, actions) && Inv(states[0]) && n < |states|
    ensures Inv(states[n])
  {
    hide *;
    PathLength(states, actions);
    if n > 0 {
      StepOf(states, actions, n - 1);
      PathKeepsInv(states, actions, n - 1);
      KeepsInv(states[n - 1], actions[n - 1]);
    }
  }

  lemma InitIsInv(s: State)
    requires Init(s)
    ensures Inv(s)
  {
  }

  // --------------------------------------------------- what a step leaves alone

  /** The commit of a change of this kind, aimed at row `m`. */
  ghost predicate Commits(s: State, a: Action, m: MemberId, act: Act) {
    a.Commit? && a.tx in s.txs && s.txs[a.tx].target == m && s.txs[a.tx].act == act
  }

  /** Past the guarded write: what it will have done to its target. */
  lemma WritesItsAct(s: State, t: TxId)
    requires Inv(s) && Enabled(s, Commit(t))
    ensures t in s.txs && s.txs[t].target in s.rows && (s.txs[t].stage.Written? || s.txs[t].stage.Revoked?)
    ensures var r, row, act := s.rows[s.txs[t].target], s.txs[t].stage.row, s.txs[t].act;
            && row.refused == r.refused
            && (act.Disable? ==> r.active && !row.active && row.owner == r.owner)
            && (act.Enable? ==> !r.active && row.active && row.owner == r.owner)
            && (act.MakeOwner? ==> r.active && row.active && !r.owner && row.owner)
            && (act.MakeManager? ==> r.active && row.active && r.owner && !row.owner)
  {
    assert TxFits(s, s.txs[t]);
    hide OneHolder, SessionsFit, OpeningsFit;
  }

  lemma RowsMove(s: State, a: Action, m: MemberId)
    requires Inv(s) && Enabled(s, a) && m in s.rows
    ensures m in Apply(s, a).rows
    ensures var r, r' := s.rows[m], Apply(s, a).rows[m];
            && (r'.owner != r.owner <==> Commits(s, a, m, MakeOwner) || Commits(s, a, m, MakeManager))
            && (r'.active != r.active <==>
                  Commits(s, a, m, Disable) || Commits(s, a, m, Enable) || (a == Refuse(m, true) && r.active))
            && (r'.refused != r.refused <==> (a.Refuse? && a.member == m) || (a.Relink? && a.member == m))
            && (Commits(s, a, m, MakeOwner) ==> r'.owner) && (Commits(s, a, m, MakeManager) ==> !r'.owner)
            && (Commits(s, a, m, Enable) ==> r'.active) && (Commits(s, a, m, Disable) ==> !r'.active)
            && (a.Refuse? && a.member == m ==> r'.refused)
  {
    hide Inv, Free, ResolverAnswers, SignInOwners, ActiveOwners, LiveOf, End, Changed;
    if a.Commit? { WritesItsAct(s, a.tx); }
  }

  /** Whose row a step moves, and what of it, in every run. A role moves exactly at the commit of a promotion or a
      demotion of that membership, and to what it says; the status exactly at the commit of a disable or an
      enable, or with a refusal that also disables; the refusal exactly at a refusal or a relinking. So a
      status change keeps the role, a role change the status, and nobody else's row moves. No row goes, and
      one comes only by joining. */
  lemma OnlyItsStepMovesARow(states: seq<State>, actions: seq<Action>, n: nat, m: MemberId)
    requires IsRun(states, actions) && n < |actions|
    ensures m in states[n].rows ==> m in states[n + 1].rows
    ensures m !in states[n].rows && m in states[n + 1].rows ==>
              actions[n] == Join(m, states[n + 1].rows[m]) && !states[n + 1].rows[m].refused
    ensures m in states[n].rows ==>
              var s, a, r, r' := states[n], actions[n], states[n].rows[m], states[n + 1].rows[m];
              && (r'.owner != r.owner <==> Commits(s, a, m, MakeOwner) || Commits(s, a, m, MakeManager))
              && (r'.active != r.active <==>
                    Commits(s, a, m, Disable) || Commits(s, a, m, Enable) || (a == Refuse(m, true) && r.active))
              && (r'.refused != r.refused <==> (a.Refuse? && a.member == m) || (a.Relink? && a.member == m))
              && (Commits(s, a, m, MakeOwner) ==> r'.owner) && (Commits(s, a, m, MakeManager) ==> !r'.owner)
              && (Commits(s, a, m, Enable) ==> r'.active) && (Commits(s, a, m, Disable) ==> !r'.active)
              && (a.Refuse? && a.member == m ==> r'.refused)
  {
    hide *;
    OneStepOn(states, actions, n);
    if m in states[n].rows {
      RowsMove(states[n], actions[n], m);
    } else if m in states[n + 1].rows {
      RowComes(states[n], actions[n], m);
    }
  }

  lemma RowComes(s: State, a: Action, m: MemberId)
    requires Inv(s) && Enabled(s, a) && m !in s.rows && m in Apply(s, a).rows
    ensures a == Join(m, Apply(s, a).rows[m]) && !Apply(s, a).rows[m].refused
  {
    hide Inv, Free, ResolverAnswers, SignInOwners, ActiveOwners, LiveOf, End, Changed;
    if a.Commit? { WritesItsAct(s, a.tx); }
  }

  lemma OneStepOn(states: seq<State>, actions: seq<Action>, n: nat)
    requires IsRun(states, actions) && n < |actions|
    ensures n + 1 < |states| && Inv(states[n]) && Enabled(states[n], actions[n]) && states[n + 1] == Apply(states[n], actions[n])
  {
    hide Init, IsPath;
    PathLength(states, actions);
    InitIsInv(states[0]);
    PathKeepsInv(states, actions, n);
    StepOf(states, actions, n);
  }

  /** The revocation ends sessions of the change's target alone. */
  ghost predicate RevokesItsOwn(s: State) {
    forall t, x :: t in s.txs && x in s.txs[t].revoked && x in s.sessions ==>
      s.sessions[x].member == s.txs[t].target && (s.txs[t].act.Disable? || s.txs[t].act.Enable?)
  }

  lemma OpeningsAreNoSessions(s: State)
    requires Inv(s)
    ensures forall x :: x in s.sessions ==> x != s.next && x !in s.openings
  {
    hide SessionsFit, OpeningsFit, TxsFit, Holds;
  }

  lemma RevokesItsOwnStep(s: State, a: Action)
    requires Inv(s) && Enabled(s, a) && RevokesItsOwn(s) && RevokedExist(s)
    ensures RevokesItsOwn(Apply(s, a))
  {
    hide Inv, Free, ResolverAnswers, SignInOwners, ActiveOwners, Changed;
    IdsAreFresh(s);
    OpeningsAreNoSessions(s);
  }

  ghost predicate RevokedExist(s: State) {
    forall t, x :: t in s.txs && x in s.txs[t].revoked ==> x in s.sessions
  }

  lemma RevokedExistStep(s: State, a: Action)
    requires Inv(s) && Enabled(s, a) && RevokedExist(s)
    ensures RevokedExist(Apply(s, a))
  {
    hide Inv, Free, ResolverAnswers, SignInOwners, ActiveOwners, Changed;
    IdsAreFresh(s);
    OpeningsAreNoSessions(s);
  }

  lemma {:induction false} RunRevokesItsOwn(states: seq<State>, actions: seq<Action>, n: nat)
    requires IsRun(states, actions) && n < |states|
    ensures RevokesItsOwn(states[n]) && RevokedExist(states[n])
  {
    hide Inv, IsPath, Enabled, Apply;
    if n > 0 {
      RunRevokesItsOwn(states, actions, n - 1);
      OneStepBack(states, actions, n);
      RevokesItsOwnStep(states[n - 1], actions[n - 1]);
      RevokedExistStep(states[n - 1], actions[n - 1]);
    }
  }

  lemma SessionsMove(s: State, a: Action, x: SessionId)
    requires Inv(s) && Enabled(s, a) && RevokesItsOwn(s)
    ensures x in s.sessions ==> x in Apply(s, a).sessions && Apply(s, a).sessions[x].member == s.sessions[x].member
    ensures x in s.sessions && s.sessions[x].live ==>
              var m := s.sessions[x].member;
              !Apply(s, a).sessions[x].live <==>
                a == SignOut(x) || (a.Refuse? && a.member == m) || Commits(s, a, m, Disable) || Commits(s, a, m, Enable)
    ensures x !in s.sessions && x in Apply(s, a).sessions ==>
              a == OpenCommit(x) && x in s.openings && s.openings[x].allowed
              && Apply(s, a).sessions[x] == Session(s.openings[x].member, true)
  {
    hide Inv, Free, ResolverAnswers, SignInOwners, ActiveOwners, Changed, RevokesItsOwn;
    OpeningsAreNoSessions(s);
    if a.Commit? && x in s.sessions {
      CommitEndsSessions(s, a.tx, x);
    }
  }

  lemma CommitEndsSessions(s: State, t: TxId, x: SessionId)
    requires Inv(s) && Enabled(s, Commit(t)) && RevokesItsOwn(s) && x in s.sessions
    ensures x in Apply(s, Commit(t)).sessions && Apply(s, Commit(t)).sessions[x].member == s.sessions[x].member
    ensures s.sessions[x].live ==>
              var m := s.sessions[x].member;
              !Apply(s, Commit(t)).sessions[x].live <==> Commits(s, Commit(t), m, Disable) || Commits(s, Commit(t), m, Enable)
  {
    hide OneHolder, TxsFit, SessionsFit, Free, ResolverAnswers, SignInOwners, ActiveOwners, Changed;
    assert s.txs[t].stage.Revoked? ==> LiveOf(s, s.txs[t].target) <= s.txs[t].revoked;
  }

  /** Whose session ends, in every run: exactly by its own sign-out, its person's refusal, or the commit of a disable
      or an enable of that membership; no role change and nothing done to another membership ends it. A session
      comes only from an opening that found its membership active and not refused. */
  lemma OnlyItsStepEndsASession(states: seq<State>, actions: seq<Action>, n: nat, x: SessionId)
    requires IsRun(states, actions) && n < |actions|
    ensures x in states[n].sessions ==> x in states[n + 1].sessions
    ensures x in states[n].sessions && states[n].sessions[x].live ==>
              var s, a, m := states[n], actions[n], states[n].sessions[x].member;
              !states[n + 1].sessions[x].live <==>
                a == SignOut(x) || (a.Refuse? && a.member == m) || Commits(s, a, m, Disable) || Commits(s, a, m, Enable)
    ensures x !in states[n].sessions && x in states[n + 1].sessions ==>
              actions[n] == OpenCommit(x) && x in states[n].openings && states[n].openings[x].allowed
              && states[n + 1].sessions[x] == Session(states[n].openings[x].member, true)
  {
    hide *;
    OneStepOn(states, actions, n);
    RunRevokesItsOwn(states, actions, n);
    SessionsMove(states[n], actions[n], x);
  }

  // ------------------------------------------------------------------ sessions

  /** No session outlives a disable, or a refusal: in every state of every run a live session belongs to an
      active membership nobody refused. */
  lemma NoSessionOutlivesADisable(states: seq<State>, actions: seq<Action>, n: nat, x: SessionId)
    requires IsRun(states, actions) && n < |states|
    requires x in states[n].sessions && states[n].sessions[x].live
    ensures states[n].sessions[x].member in states[n].rows
    ensures states[n].rows[states[n].sessions[x].member].active && !states[n].rows[states[n].sessions[x].member].refused
  {
    InitIsInv(states[0]);
    PathKeepsInv(states, actions, n);
  }

  /** The session is still `s`'s, and if it had ended it still has. */
  ghost predicate NotRevived(s: State, s': State, x: SessionId) {
    && x in s.sessions && x in s'.sessions && s'.sessions[x].member == s.sessions[x].member
    && (!s.sessions[x].live ==> !s'.sessions[x].live)
  }

  lemma NotRevivedYet(s: State, x: SessionId)
    requires x in s.sessions
    ensures NotRevived(s, s, x)
  {
  }

  /** An ended session stays ended, whatever is enabled later. */
  lemma {:induction false} NoSessionIsRevived(states: seq<State>, actions: seq<Action>, m: nat, n: nat, x: SessionId)
    requires IsRun(states, actions) && m <= n < |states|
    requires x in states[m].sessions
    ensures NotRevived(states[m], states[n], x)
  {
    hide *;
    if m == n {
      NotRevivedYet(states[m], x);
    } else {
      NoSessionIsRevived(states, actions, m, n - 1, x);
      OneStepBack(states, actions, n);
      StillEnded(states[m], states[n - 1], actions[n - 1], x);
    }
  }

  lemma StillEnded(s: State, before: State, a: Action, x: SessionId)
    requires NotRevived(s, before, x) && Inv(before) && Enabled(before, a)
    ensures NotRevived(s, Apply(before, a), x)
  {
    hide Inv, Enabled, Apply;
    EndedStaysEnded(before, a, x);
  }

  lemma OneStepBack(states: seq<State>, actions: seq<Action>, n: nat)
    requires IsRun(states, actions) && 0 < n < |states|
    ensures |actions| + 1 == |states|
    ensures Inv(states[n - 1]) && Enabled(states[n - 1], actions[n - 1])
    ensures states[n] == Apply(states[n - 1], actions[n - 1])
  {
    hide Init, IsPath;
    InitIsInv(states[0]);
    PathLength(states, actions);
    PathKeepsInv(states, actions, n - 1);
    StepOf(states, actions, n - 1);
  }

  lemma EndedStaysEnded(s: State, a: Action, x: SessionId)
    requires Inv(s) && Enabled(s, a) && x in s.sessions
    ensures NotRevived(s, Apply(s, a), x)
  {
    hide SessionsFit, OpeningsFit, TxsFit, Free, HasOwner, ResolverAnswers;
  }

  /** The commit that enables a membership leaves it without a live session. */
  lemma EnablingRevivesNone(states: seq<State>, actions: seq<Action>, n: nat)
    requires IsRun(states, actions) && n < |actions|
    requires actions[n].Commit? && states[n].txs[actions[n].tx].act.Enable?
    ensures LiveOf(states[n + 1], states[n].txs[actions[n].tx].target) == {}
  {
    InitIsInv(states[0]);
    PathKeepsInv(states, actions, n);
    assert TxFits(states[n], states[n].txs[actions[n].tx]);
  }

  // ------------------------------------------------------- the last-owner rule

  /** The owners' lock keeps two changes apart exactly as far as their snapshots share an owner. */
  lemma PastTheLockSnapshotsAreDisjoint(states: seq<State>, actions: seq<Action>, n: nat, t: TxId, u: TxId)
    requires IsRun(states, actions) && n < |states|
    requires t in states[n].txs && u in states[n].txs && t != u
    requires states[n].txs[t].PastTheLock() && states[n].txs[u].PastTheLock()
    ensures states[n].txs[t].snapshot !! states[n].txs[u].snapshot
  {
    InitIsInv(states[0]);
    PathKeepsInv(states, actions, n);
    var s := states[n];
    assert TxFits(s, s.txs[t]) && TxFits(s, s.txs[u]);
    assert forall m :: m in s.txs[t].snapshot ==> Holds(s, t, m);
    assert forall m :: m in s.txs[u].snapshot ==> Holds(s, u, m);
  }

  /** Another owner who can sign in is among the rows the change itself has locked. */
  ghost predicate Guarded(s: State, tx: Tx) {
    exists o :: o in tx.owners && o != tx.target && o in s.rows && s.rows[o].SignsIn()
  }

  /** The change is about to take an owner who can sign in away. */
  ghost predicate TakesOne(s: State, tx: Tx) {
    tx.TakesAnOwnerAway() && tx.target in s.rows && s.rows[tx.target].SignsIn()
  }

  lemma TxStays(s: State, a: Action, t: TxId)
    requires Inv(s) && Enabled(s, a) && t in s.txs && s.txs[t].PastTheRead()
    requires a != Commit(t) && a != RollBack(t)
    ensures t in Apply(s, a).txs && Apply(s, a).txs[t].PastTheRead()
    ensures var tx, tx' := s.txs[t], Apply(s, a).txs[t];
            tx'.owners == tx.owners && tx'.target == tx.target && tx'.act == tx.act && tx'.locked == tx.locked
  {
    hide Inv, Free, ResolverAnswers, SignInOwners, ActiveOwners, LiveOf, End, Changed;
    IdsAreFresh(s);
  }

  lemma OwnRowsStay(s: State, a: Action, t: TxId)
    requires Inv(s) && Enabled(s, a) && t in s.txs && a != Commit(t) && Actor(s, a) == t
    ensures Apply(s, a).rows == s.rows
  {
    hide Inv, Free, ResolverAnswers, SignInOwners, ActiveOwners, LiveOf, End, Changed;
    IdsAreFresh(s);
  }

  lemma LockedRowsStay(s: State, a: Action, t: TxId, m: MemberId)
    requires Inv(s) && Enabled(s, a) && t in s.txs && a != Commit(t) && m in s.txs[t].locked
    ensures m in s.rows && m in Apply(s, a).rows && Apply(s, a).rows[m] == s.rows[m]
  {
    assert TxFits(s, s.txs[t]) && Holds(s, t, m);
    assert m in s.rows;
    hide *;
    if Actor(s, a) == t { OwnRowsStay(s, a, t); } else { HeldRowStays(s, a, t, m); }
  }

  /** What the decision rests on is a matter of the rows the change has locked. */
  lemma GuardedByLocked(s: State, tx: Tx, s': State, tx': Tx)
    requires tx'.owners == tx.owners && tx'.target == tx.target && tx'.act == tx.act
    requires tx.owners <= tx.locked && tx.target in tx.locked
    requires forall m :: m in tx.locked ==> m in s.rows && m in s'.rows && s'.rows[m] == s.rows[m]
    ensures Guarded(s', tx') == Guarded(s, tx) && TakesOne(s', tx') == TakesOne(s, tx)
  {
  }

  /** Between the decision and the commit nothing a change has locked moves: neither its target nor the
      owner that guards it. */
  lemma DecisionIsStable(s: State, a: Action, t: TxId)
    requires Inv(s) && Enabled(s, a) && t in s.txs && s.txs[t].PastTheRead()
    requires a != Commit(t) && a != RollBack(t)
    ensures t in Apply(s, a).txs && Apply(s, a).txs[t].PastTheRead()
    ensures Apply(s, a).txs[t].owners == s.txs[t].owners && Apply(s, a).txs[t].target == s.txs[t].target
    ensures Apply(s, a).txs[t].act == s.txs[t].act && Apply(s, a).txs[t].locked == s.txs[t].locked
    ensures forall m :: m in s.txs[t].locked ==> m in Apply(s, a).rows && Apply(s, a).rows[m] == s.rows[m]
    ensures Guarded(Apply(s, a), Apply(s, a).txs[t]) == Guarded(s, s.txs[t])
    ensures TakesOne(Apply(s, a), Apply(s, a).txs[t]) == TakesOne(s, s.txs[t])
  {
    assert TxFits(s, s.txs[t]);
    assert s.txs[t].owners <= s.txs[t].locked && s.txs[t].target in s.txs[t].locked;
    hide *;
    TxStays(s, a, t);
    forall m | m in s.txs[t].locked
      ensures m in s.rows && m in Apply(s, a).rows && Apply(s, a).rows[m] == s.rows[m]
    {
      LockedRowsStay(s, a, t, m);
    }
    GuardedByLocked(s, s.txs[t], Apply(s, a), Apply(s, a).txs[t]);
  }

  lemma CommitWithAnotherOwner(s: State, t: TxId, o: MemberId)
    requires Inv(s) && Enabled(s, Commit(t)) && o in s.rows && s.rows[o].SignsIn() && o != s.txs[t].target
    ensures HasOwner(Apply(s, Commit(t)))
  {
    assert Apply(s, Commit(t)).rows[o] == s.rows[o];
  }

  /** Nothing on this path ends change `t` before its last action. */
  ghost predicate Spares(actions: seq<Action>, t: TxId) {
    forall i :: 0 <= i < |actions| - 1 ==> actions[i] != Commit(t) && actions[i] != RollBack(t)
  }

  /** Whatever else happens before it commits, the business has an owner who can sign in right after. */
  ghost predicate KeepsAnOwner(s: State, t: TxId) {
    forall states: seq<State>, actions: seq<Action> ::
      IsPath(states, actions) && |actions| > 0 && states[0] == s && actions[|actions| - 1] == Commit(t) && Spares(actions, t)
      ==> HasOwner(states[|actions|])
  }

  lemma SparesAt(actions: seq<Action>, t: TxId, n: nat)
    requires Spares(actions, t) && n < |actions| - 1
    ensures actions[n] != Commit(t) && actions[n] != RollBack(t)
  {
  }

  lemma {:induction false} GuardHolds(states: seq<State>, actions: seq<Action>, t: TxId, n: nat)
    requires IsPath(states, actions) && Inv(states[0]) && n < |actions|
    requires t in states[0].txs && states[0].txs[t].PastTheRead() && Guarded(states[0], states[0].txs[t])
    requires Spares(actions, t)
    ensures t in states[n].txs && states[n].txs[t].PastTheRead() && Guarded(states[n], states[n].txs[t])
  {
    hide *;
    if n > 0 {
      StepOf(states, actions, n - 1);
      GuardHolds(states, actions, t, n - 1);
      PathKeepsInv(states, actions, n - 1);
      SparesAt(actions, t, n - 1);
      DecisionIsStable(states[n - 1], actions[n - 1], t);
    }
  }

  lemma Prepend(s: State, a: Action, states: seq<State>, actions: seq<Action>)
    requires IsPath(states, actions) && Enabled(s, a) && states[0] == Apply(s, a)
    ensures IsPath([s] + states, [a] + actions)
    ensures ([s] + states)[0] == s && ([s] + states)[|[a] + actions|] == states[|actions|]
  {
    hide Enabled, Apply;
    var ss, aa := [s] + states, [a] + actions;
    forall i | 0 <= i < |aa|
      ensures Enabled(ss[i], aa[i]) && ss[i + 1] == Apply(ss[i], aa[i])
    {
      if i > 0 { assert aa[i] == actions[i - 1] && ss[i] == states[i - 1] && ss[i + 1] == states[i]; }
    }
  }

  /** Only other transactions die on this path. */
  ghost predicate OnlyDeaths(actions: seq<Action>, t: TxId) {
    forall i :: 0 <= i < |actions| ==> (actions[i].RollBack? && actions[i].tx != t) || actions[i].OpenRollBack?
  }

  /** Change `t` is the only transaction left. */
  ghost predicate Alone(s: State, s': State, t: TxId) {
    t in s.txs && s'.txs == map[t := s.txs[t]] && s'.openings == map[] && s'.rows == s.rows
  }

  /** Every other transaction may die. */
  lemma {:induction false} OthersMayDie(s: State, t: TxId) returns (states: seq<State>, actions: seq<Action>)
    requires Inv(s) && t in s.txs
    ensures IsPath(states, actions) && states[0] == s && OnlyDeaths(actions, t) && Alone(s, states[|actions|], t)
    decreases |s.txs| + |s.openings|, 1
  {
    hide Inv;
    if u :| u in s.txs && u != t {
      states, actions := DieFirst(s, t, RollBack(u));
    } else if o :| o in s.openings {
      states, actions := DieFirst(s, t, OpenRollBack(o));
    } else {
      states, actions := [s], [];
      assert s.txs == map[t := s.txs[t]];
      assert s.openings == map[];
    }
  }

  lemma {:induction false} DieFirst(s: State, t: TxId, a: Action) returns (states: seq<State>, actions: seq<Action>)
    requires Inv(s) && t in s.txs && Enabled(s, a) && OnlyDeaths([a], t)
    ensures IsPath(states, actions) && states[0] == s && OnlyDeaths(actions, t) && Alone(s, states[|actions|], t)
    decreases |s.txs| + |s.openings|, 0
  {
    var next := Apply(s, a);
    assert [a][0] == a;
    Death(s, t, a);
    KeepsInv(s, a);
    hide *;
    var p, ps := OthersMayDie(next, t);
    Prepend(s, a, p, ps);
    DeathsChain(s, a, next, p, ps, t);
    states, actions := [s] + p, [a] + ps;
  }

  lemma DeathsChain(s: State, a: Action, next: State, p: seq<State>, ps: seq<Action>, t: TxId)
    requires OnlyDeaths([a], t) && OnlyDeaths(ps, t) && |p| == |ps| + 1 && Alone(next, p[|ps|], t)
    requires t in s.txs && t in next.txs && next.txs[t] == s.txs[t] && next.rows == s.rows
    ensures OnlyDeaths([a] + ps, t) && Alone(s, p[|ps|], t)
  {
    assert [a][0] == a;
    forall i | 0 <= i < |[a] + ps|
      ensures (([a] + ps)[i].RollBack? && ([a] + ps)[i].tx != t) || ([a] + ps)[i].OpenRollBack?
    {
      if i > 0 { assert ([a] + ps)[i] == ps[i - 1]; }
    }
  }

  lemma Death(s: State, t: TxId, a: Action)
    requires t in s.txs && Enabled(s, a) && ((a.RollBack? && a.tx != t) || a.OpenRollBack?)
    ensures Apply(s, a).rows == s.rows && t in Apply(s, a).txs && Apply(s, a).txs[t] == s.txs[t]
    ensures |Apply(s, a).txs| + |Apply(s, a).openings| < |s.txs| + |s.openings|
  {
    var next := Apply(s, a);
    if a.RollBack? {
      assert next.txs.Keys == s.txs.Keys - {a.tx} && next.openings == s.openings;
      assert |next.txs| == |next.txs.Keys| && |s.txs| == |s.txs.Keys|;
    } else {
      assert next.openings.Keys == s.openings.Keys - {a.tx} && next.txs == s.txs;
      assert |next.openings| == |next.openings.Keys| && |s.openings| == |s.openings.Keys|;
    }
  }

  ghost predicate LosesTheLastOwner(s: State, t: TxId, states: seq<State>, actions: seq<Action>) {
    && IsPath(states, actions) && states[0] == s && Spares(actions, t)
    && |actions| > 0 && actions[|actions| - 1] == Commit(t) && !HasOwner(states[|actions|])
  }

  lemma RefusalThenLoss(s: State, t: TxId, a: Action, p: seq<State>, ps: seq<Action>)
    requires Enabled(s, a) && a.Refuse? && LosesTheLastOwner(Apply(s, a), t, p, ps)
    ensures LosesTheLastOwner(s, t, [s] + p, [a] + ps)
  {
    hide Enabled, Apply, HasOwner;
    Prepend(s, a, p, ps);
    forall i | 0 <= i < |[a] + ps| - 1
      ensures ([a] + ps)[i] != Commit(t) && ([a] + ps)[i] != RollBack(t)
    {
      assert ([a] + ps)[i] == if i == 0 then a else ps[i - 1];
    }
  }

  /** Every owner the change did not lock may refuse; then it commits. */
  lemma {:induction false} OthersMayRefuse(s: State, t: TxId) returns (states: seq<State>, actions: seq<Action>)
    requires Inv(s) && t in s.txs && s.txs == map[t := s.txs[t]] && s.openings == map[]
    requires s.txs[t].stage.Decided? && TakesOne(s, s.txs[t]) && !Guarded(s, s.txs[t])
    ensures LosesTheLastOwner(s, t, states, actions)
    decreases SignInOwners(s)
  {
    hide *;
    if o :| o in s.rows && s.rows[o].SignsIn() && o !in s.txs[t].locked {
      RefusedNext(s, t, o);
      var a := Refuse(o, false);
      var p, ps := OthersMayRefuse(Apply(s, a), t);
      RefusalThenLoss(s, t, a, p, ps);
      states, actions := [s] + p, [a] + ps;
    } else {
      states, actions := CommitsAlone(s, t);
    }
  }

  lemma RefusedNext(s: State, t: TxId, o: MemberId)
    requires Inv(s) && t in s.txs && s.txs == map[t := s.txs[t]] && s.openings == map[]
    requires s.txs[t].stage.Decided? && TakesOne(s, s.txs[t]) && !Guarded(s, s.txs[t])
    requires o in s.rows && s.rows[o].SignsIn() && o !in s.txs[t].locked
    ensures Enabled(s, Refuse(o, false))
    ensures var s' := Apply(s, Refuse(o, false));
            && Inv(s') && s'.txs == s.txs && s'.openings == s.openings
            && TakesOne(s', s'.txs[t]) && !Guarded(s', s'.txs[t])
            && SignInOwners(s') < SignInOwners(s)
  {
    var a := Refuse(o, false);
    assert s.next !in s.txs && Free(s, o, s.next);
    KeepsInv(s, a);
    DecisionIsStable(s, a, t);
    var s' := Apply(s, a);
    hide Inv, TakesOne, Guarded, LiveOf, End;
    assert o in SignInOwners(s) && o !in SignInOwners(s') && SignInOwners(s') <= SignInOwners(s);
  }

  lemma CommitsAlone(s: State, t: TxId) returns (states: seq<State>, actions: seq<Action>)
    requires Inv(s) && t in s.txs && s.txs[t].stage.Decided? && TakesOne(s, s.txs[t]) && !Guarded(s, s.txs[t])
    requires forall o :: o in s.rows && s.rows[o].SignsIn() ==> o in s.txs[t].locked
    ensures LosesTheLastOwner(s, t, states, actions)
  {
    var tx := s.txs[t];
    assert TxFits(s, tx);
    assert forall m :: m in s.rows && s.rows[m].SignsIn() ==> m == tx.target;
    hide Inv, TxFits;
    if tx.act.Disable? {
      states, actions := DisableAlone(s, t);
    } else {
      states, actions := StepDownAlone(s, t);
    }
  }

  lemma DisableAlone(s: State, t: TxId) returns (states: seq<State>, actions: seq<Action>)
    requires t in s.txs && s.txs[t].stage.Decided? && s.txs[t].act.Disable? && TakesOne(s, s.txs[t])
    requires forall m :: m in s.rows && s.rows[m].SignsIn() ==> m == s.txs[t].target
    ensures LosesTheLastOwner(s, t, states, actions)
  {
    hide LiveOf, End, Free, ResolverAnswers;
    var tx := s.txs[t];
    var s1 := Apply(s, Write(t));
    var s2 := Apply(s1, RevokeAll(t));
    var s3 := Apply(s2, Commit(t));
    states, actions := [s, s1, s2, s3], [Write(t), RevokeAll(t), Commit(t)];
    assert s3.rows == s.rows[tx.target := s.rows[tx.target].(active := false)];
  }

  lemma StepDownAlone(s: State, t: TxId) returns (states: seq<State>, actions: seq<Action>)
    requires t in s.txs && s.txs[t].stage.Decided? && s.txs[t].act.MakeManager? && TakesOne(s, s.txs[t])
    requires forall m :: m in s.rows && s.rows[m].SignsIn() ==> m == s.txs[t].target
    ensures LosesTheLastOwner(s, t, states, actions)
  {
    hide LiveOf, End, Free, ResolverAnswers;
    var tx := s.txs[t];
    var s1 := Apply(s, Write(t));
    var s2 := Apply(s1, Commit(t));
    states, actions := [s, s1, s2], [Write(t), Commit(t)];
    assert s2.rows == s.rows[tx.target := s.rows[tx.target].(owner := false)];
  }

  lemma Join2(p: seq<State>, ps: seq<Action>, q: seq<State>, qs: seq<Action>)
    requires IsPath(p, ps) && IsPath(q, qs) && p[|ps|] == q[0]
    ensures IsPath(p + q[1..], ps + qs)
    ensures (p + q[1..])[0] == p[0] && (p + q[1..])[|ps + qs|] == q[|qs|]
  {
    var ss, aa := p + q[1..], ps + qs;
    forall i | 0 <= i < |aa|
      ensures Enabled(ss[i], aa[i]) && ss[i + 1] == Apply(ss[i], aa[i])
    {
      if i >= |ps| { assert aa[i] == qs[i - |ps|] && ss[i] == q[i - |ps|] && ss[i + 1] == q[i - |ps| + 1]; }
    }
  }

  lemma GuardSuffices(s: State, t: TxId)
    requires Inv(s) && t in s.txs && s.txs[t].stage.Decided? && Guarded(s, s.txs[t])
    ensures KeepsAnOwner(s, t)
  {
    assert s.txs[t].PastTheRead();
    forall p: seq<State>, ps: seq<Action> | IsPath(p, ps) && |ps| > 0 && p[0] == s && ps[|ps| - 1] == Commit(t) && Spares(ps, t)
      ensures HasOwner(p[|ps|])
    {
      GuardedCommit(p, ps, t);
    }
  }

  lemma GuardedCommit(p: seq<State>, ps: seq<Action>, t: TxId)
    requires IsPath(p, ps) && |ps| > 0 && Inv(p[0]) && ps[|ps| - 1] == Commit(t) && Spares(ps, t)
    requires t in p[0].txs && p[0].txs[t].PastTheRead() && Guarded(p[0], p[0].txs[t])
    ensures HasOwner(p[|ps|])
  {
    hide *;
    PathLength(p, ps);
    GuardHolds(p, ps, t, |ps| - 1);
    PathKeepsInv(p, ps, |ps| - 1);
    StepOf(p, ps, |ps| - 1);
    GuardedCommitLeavesOne(p[|ps| - 1], t);
  }

  lemma GuardedCommitLeavesOne(s: State, t: TxId)
    requires Inv(s) && Enabled(s, Commit(t)) && Guarded(s, s.txs[t])
    ensures HasOwner(Apply(s, Commit(t)))
  {
    hide Inv, Enabled, Apply, HasOwner;
    CommitIsOf(s, t);
    var o :| o in s.txs[t].owners && o != s.txs[t].target && o in s.rows && s.rows[o].SignsIn();
    CommitWithAnotherOwner(s, t, o);
  }

  lemma CommitIsOf(s: State, t: TxId)
    requires Enabled(s, Commit(t))
    ensures t in s.txs
  {
  }

  lemma GuardIsNeeded(s: State, t: TxId)
    requires Inv(s) && t in s.txs && s.txs[t].stage.Decided? && TakesOne(s, s.txs[t]) && !Guarded(s, s.txs[t])
    ensures !KeepsAnOwner(s, t)
  {
    hide *;
    var p, ps := OthersMayDie(s, t);
    PathLength(p, ps);
    PathKeepsInv(p, ps, |ps|);
    AloneIsUnguarded(s, p[|ps|], t);
    var q, qs := OthersMayRefuse(p[|ps|], t);
    DeathsThenLoss(s, t, p, ps, q, qs);
    LossMeans(s, t, p + q[1..], ps + qs);
  }

  lemma AloneIsUnguarded(s: State, s': State, t: TxId)
    requires t in s.txs && Alone(s, s', t) && s.txs[t].stage.Decided? && TakesOne(s, s.txs[t]) && !Guarded(s, s.txs[t])
    ensures t in s'.txs && s'.txs == map[t := s'.txs[t]] && s'.openings == map[] && s'.txs[t].stage.Decided?
    ensures TakesOne(s', s'.txs[t]) && !Guarded(s', s'.txs[t])
  {
  }

  lemma DeathsThenLoss(s: State, t: TxId, p: seq<State>, ps: seq<Action>, q: seq<State>, qs: seq<Action>)
    requires IsPath(p, ps) && p[0] == s && OnlyDeaths(ps, t) && LosesTheLastOwner(p[|ps|], t, q, qs)
    ensures |q| > 0 && LosesTheLastOwner(s, t, p + q[1..], ps + qs)
  {
    hide Spares, OnlyDeaths, HasOwner, Enabled, Apply;
    Join2(p, ps, q, qs);
    SparesJoined(ps, qs, t);
  }

  lemma LossMeans(s: State, t: TxId, states: seq<State>, actions: seq<Action>)
    requires LosesTheLastOwner(s, t, states, actions)
    ensures !KeepsAnOwner(s, t)
  {
    hide Spares, HasOwner, Enabled, Apply;
  }

  lemma SparesJoined(ps: seq<Action>, qs: seq<Action>, t: TxId)
    requires OnlyDeaths(ps, t) && Spares(qs, t) && |qs| > 0 && qs[|qs| - 1] == Commit(t)
    ensures Spares(ps + qs, t) && (ps + qs)[|ps + qs| - 1] == Commit(t)
  {
  }

  /** The last-owner rule, exactly: a change that has passed its check and will take an owner away leaves one
      who can sign in, whatever happens before it commits, if and only if another such owner is among the
      owners it locked. The check counts the owners it READ, which need not be locked: one promoted while
      the lock statement waited is counted, and its person may still refuse. */
  lemma KeepsAnOwnerIffGuarded(states: seq<State>, actions: seq<Action>, n: nat, t: TxId)
    requires IsRun(states, actions) && n < |states|
    requires t in states[n].txs && states[n].txs[t].stage.Decided? && TakesOne(states[n], states[n].txs[t])
    ensures KeepsAnOwner(states[n], t) <==> Guarded(states[n], states[n].txs[t])
  {
    InitIsInv(states[0]);
    PathKeepsInv(states, actions, n);
    hide *;
    if Guarded(states[n], states[n].txs[t]) {
      GuardSuffices(states[n], t);
    } else {
      GuardIsNeeded(states[n], t);
    }
  }

  /** When every owner the check counts was an owner already when the lock statement began, the check is
      the guard: each of them is locked. */
  lemma CountingSnapshotOwnersGuards(s: State, t: TxId, live: set<MemberId>)
    requires Inv(s) && Enabled(s, ReadOwners(t, live)) && SignInOwners(s) <= s.txs[t].snapshot
    ensures var s' := Apply(s, ReadOwners(t, live)); TakesOne(s', s'.txs[t]) ==> Guarded(s', s'.txs[t])
  {
    var tx := s.txs[t];
    assert TxFits(s, tx);
    if TakesOne(s, tx) {
      assert tx.target in SignInOwners(s);
      var o := AnotherOne(s, live, tx.target);
      assert o in SignInOwners(s) && o in tx.locked && o in tx.owners;
    }
  }

  lemma AnotherOne(s: State, live: set<MemberId>, target: MemberId) returns (o: MemberId)
    requires ResolverAnswers(s, live) && target in SignInOwners(s)
    requires !(target in live && |live| <= 1)
    ensures o in SignInOwners(s) && o != target
  {
    if live <= {target} {
      SubsetSize(live, {target});
      assert false;
    }
    o :| o in live && o != target;
  }

  lemma SubsetSize(a: set<MemberId>, b: set<MemberId>)
    requires a <= b
    ensures |a| <= |b|
  {
    assert b == a + (b - a);
  }

  /** Every change past its check that takes an owner away is guarded. */
  ghost predicate AllGuarded(s: State) {
    forall t :: t in s.txs && s.txs[t].PastTheRead() && TakesOne(s, s.txs[t]) ==> Guarded(s, s.txs[t])
  }

  /** A check that takes an owner away finds another owner who can sign in among the rows it has locked. */
  ghost predicate ChecksGuarded(s: State, a: Action) {
    a.ReadOwners? && a.tx in s.txs && TakesOne(s, s.txs[a.tx]) ==> Guarded(s, s.txs[a.tx])
  }

  lemma KeepsGuards(s: State, a: Action)
    requires Inv(s) && Enabled(s, a) && AllGuarded(s) && ChecksGuarded(s, a)
    ensures AllGuarded(Apply(s, a))
  {
    var s' := Apply(s, a);
    forall t | t in s'.txs && s'.txs[t].PastTheRead() && TakesOne(s', s'.txs[t])
      ensures Guarded(s', s'.txs[t])
    {
      if a.ReadOwners? && a.tx == t {
        CheckReads(s, a, t);
      } else {
        PastBefore(s, a, t);
        DecisionIsStable(s, a, t);
      }
    }
  }

  lemma CheckReads(s: State, a: Action, t: TxId)
    requires Enabled(s, a) && a.ReadOwners? && a.tx == t
    ensures t in s.txs && TakesOne(Apply(s, a), Apply(s, a).txs[t]) == TakesOne(s, s.txs[t])
    ensures Guarded(Apply(s, a), Apply(s, a).txs[t]) == Guarded(s, s.txs[t])
  {
  }

  lemma PastBefore(s: State, a: Action, t: TxId)
    requires Inv(s) && Enabled(s, a) && t in Apply(s, a).txs && Apply(s, a).txs[t].PastTheRead()
    requires !(a.ReadOwners? && a.tx == t)
    ensures t in s.txs && s.txs[t].PastTheRead() && a != Commit(t) && a != RollBack(t)
  {
    hide SessionsFit, OpeningsFit, TxsFit, Free, HasOwner, ResolverAnswers;
  }

  lemma {:induction false} RunKeepsGuards(states: seq<State>, actions: seq<Action>, n: nat)
    requires IsRun(states, actions) && n < |states|
    requires forall i :: 0 <= i < |actions| ==> ChecksGuarded(states[i], actions[i])
    ensures AllGuarded(states[n])
  {
    if n > 0 {
      RunKeepsGuards(states, actions, n - 1);
      OneStepBack(states, actions, n);
      hide *;
      KeepsGuards(states[n - 1], actions[n - 1]);
    }
  }

  /** The last-owner rule over whole runs, for any number of changes, refusals and other writers at once: if
      every check that takes an owner away finds another among the rows it has locked, every commit of a
      change leaves a business that had an owner who can sign in with one. */
  lemma LastOwnerOverRuns(states: seq<State>, actions: seq<Action>, n: nat)
    requires IsRun(states, actions) && n < |actions| && actions[n].Commit?
    requires forall i :: 0 <= i < |actions| ==> ChecksGuarded(states[i], actions[i])
    requires HasOwner(states[n])
    ensures HasOwner(states[n + 1])
  {
    RunKeepsGuards(states, actions, n);
    InitIsInv(states[0]);
    PathKeepsInv(states, actions, n);
    assert Enabled(states[n], actions[n]) && states[n + 1] == Apply(states[n], actions[n]);
    hide IsRun, IsPath, ChecksGuarded;
    GuardedCommitKeepsOne(states[n], actions[n].tx);
  }

  lemma GuardedCommitKeepsOne(s: State, t: TxId)
    requires Inv(s) && Enabled(s, Commit(t)) && AllGuarded(s) && HasOwner(s)
    ensures HasOwner(Apply(s, Commit(t)))
  {
    var tx := s.txs[t];
    assert TxFits(s, tx);
    if TakesOne(s, tx) {
      GuardedCommitLeavesOne(s, t);
    } else {
      var o :| o in s.rows && s.rows[o].SignsIn();
      CommitWithAnotherOwner(s, t, o);
    }
  }

  // --------------------------------------------- a run that loses the last owner

  const OWNER := Row(true, true, false)
  const MANAGER := Row(false, true, false)

  /** Owner 0 steps down (change 0) while owner 0 also promotes manager 1 (change 1). */
  const LOSING: seq<Action> := [
    Start(0, 0, MakeManager), Start(0, 1, MakeOwner),
    Snapshot(0),                                   // change 0 sees one owner and waits for its row
    Snapshot(1), LockOwner(1, 0), LockTarget(1), ReadOwners(1, {0}), Write(1), Commit(1),
    LockOwner(0, 0), LockTarget(0),
    ReadOwners(0, {0, 1}),                         // two owners, of whom change 0 has locked one
    Write(0),
    Refuse(1, false),                              // the other refuses
    Commit(0)]

  function Losing0(i: nat): Tx {
    var tx := Tx(0, 0, MakeManager, Begun, {}, {}, {}, {}, {});
    var waiting := tx.(stage := Locking({0}), snapshot := {0});
    var locked := waiting.(stage := Locking({}), locked := {0}, owners := {0});
    if i <= 2 then tx
    else if i <= 9 then waiting
    else if i == 10 then locked
    else if i == 11 then locked.(stage := Targeted)
    else if i == 12 then locked.(stage := Decided, live := {0, 1})
    else locked.(stage := Stage.Written(MANAGER), live := {0, 1})
  }

  function Losing1(i: nat): Tx {
    var tx := Tx(0, 1, MakeOwner, Begun, {}, {}, {}, {}, {});
    var locked := tx.(stage := Locking({}), snapshot := {0}, locked := {0}, owners := {0});
    if i <= 3 then tx
    else if i == 4 then tx.(stage := Locking({0}), snapshot := {0})
    else if i == 5 then locked
    else if i == 6 then locked.(stage := Targeted, locked := {0, 1})
    else if i == 7 then locked.(stage := Decided, locked := {0, 1}, live := {0})
    else locked.(stage := Stage.Written(OWNER), locked := {0, 1}, live := {0})
  }

  function LosingState(i: nat): State {
    State(
      if i < 2 then i else 2,
      map[0 := if i <= 14 then OWNER else MANAGER,
          1 := if i <= 8 then MANAGER else if i <= 13 then OWNER else OWNER.(refused := true)],
      map[],
      (if 1 <= i <= 14 then map[0 := Losing0(i)] else map[]) + (if 2 <= i <= 8 then map[1 := Losing1(i)] else map[]),
      map[])
  }

  ghost predicate StepsRight(i: nat)
    requires i < 15
  {
    Enabled(LosingState(i), LOSING[i]) && LosingState(i + 1) == Apply(LosingState(i), LOSING[i])
  }

  lemma LosingStarts(i: nat)
    requires i < 4
    ensures StepsRight(i)
  {
    hide SignInOwners, ResolverAnswers, LiveOf, End, Changed, Free;
    if i >= 2 { assert ActiveOwners(LosingState(i)) == {0}; }
    assert LosingState(i + 1).txs == Apply(LosingState(i), LOSING[i]).txs;
  }

  lemma LosingLocks(i: nat)
    requires 4 <= i < 6
    ensures StepsRight(i)
  {
    hide ResolverAnswers, SignInOwners, ActiveOwners, LiveOf, End, Changed;
    assert {0} - {0} == {} && {0} + {1} == {0, 1} && {} + {0} == {0};
    assert LosingState(i + 1).txs == Apply(LosingState(i), LOSING[i]).txs;
  }

  lemma LosingReads(i: nat)
    requires i == 6 || i == 11
    ensures StepsRight(i)
  {
    hide ActiveOwners, LiveOf, End, Changed, Free;
    if i == 6 {
      assert SignInOwners(LosingState(6)) == {0};
      assert LosingState(7).txs == Apply(LosingState(6), LOSING[6]).txs;
    } else {
      assert SignInOwners(LosingState(11)) == {0, 1};
      assert LosingState(12).txs == Apply(LosingState(11), LOSING[11]).txs;
    }
  }

  lemma LosingWrites(i: nat)
    requires i == 7 || i == 12
    ensures StepsRight(i)
  {
    hide ActiveOwners, SignInOwners, ResolverAnswers, LiveOf, End, Free;
    assert LosingState(i + 1).txs == Apply(LosingState(i), LOSING[i]).txs;
  }

  lemma LosingLocksAgain(i: nat)
    requires 9 <= i < 11
    ensures StepsRight(i)
  {
    hide ActiveOwners, SignInOwners, ResolverAnswers, LiveOf, End, Changed;
    assert {0} - {0} == {} && {0} + {0} == {0} && {} + {0} == {0};
    assert LosingState(i + 1).txs == Apply(LosingState(i), LOSING[i]).txs;
  }

  lemma LosingPromotion()
    ensures StepsRight(8)
  {
    hide ActiveOwners, SignInOwners, ResolverAnswers, LiveOf, Changed, Free;
    assert LosingState(9).txs == Apply(LosingState(8), LOSING[8]).txs;
  }

  lemma LosingLastCommit()
    ensures StepsRight(14)
  {
    hide ActiveOwners, SignInOwners, ResolverAnswers, LiveOf, Changed, Free;
    assert LosingState(15).txs == Apply(LosingState(14), LOSING[14]).txs;
  }

  lemma LosingRefuses()
    ensures StepsRight(13)
  {
    hide ActiveOwners, SignInOwners, ResolverAnswers, Changed;
    assert LosingState(14).txs == Apply(LosingState(13), LOSING[13]).txs;
  }

  lemma LosingStep(i: nat)
    requires i < 15
    ensures Enabled(LosingState(i), LOSING[i]) && LosingState(i + 1) == Apply(LosingState(i), LOSING[i])
  {
    hide Enabled, Apply, LosingState;
    if i < 4 { LosingStarts(i); }
    else if i < 6 { LosingLocks(i); }
    else if i == 6 || i == 11 { LosingReads(i); }
    else if i == 7 || i == 12 { LosingWrites(i); }
    else if i == 9 || i == 10 { LosingLocksAgain(i); }
    else if i == 13 { LosingRefuses(); }
    else if i == 8 { LosingPromotion(); }
    else { LosingLastCommit(); }
  }

  /** Two owners can both be counted and the business still be left with none: a concrete run. */
  lemma LastOwnerCanBeLost() returns (states: seq<State>)
    ensures IsRun(states, LOSING) && HasOwner(states[14]) && !HasOwner(states[15])
  {
    states := seq(16, i requires 0 <= i < 16 => LosingState(i));
    forall i | 0 <= i < 15
      ensures Enabled(states[i], LOSING[i]) && states[i + 1] == Apply(states[i], LOSING[i])
    {
      LosingStep(i);
    }
    assert states[14].rows[0].SignsIn();
  }
}
