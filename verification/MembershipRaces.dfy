/** The last-owner rule among `Change`s alone (internal/adminauth/membership.go): what it keeps when no person
    refuses a membership, exactly, and two changes that pass the owners' lock side by side.
 */
module MembershipRaces {
  import opened Memberships

  /** A step of a `Change`, of a session being opened, or of any writer but the person's own refusal. */
  predicate NoRefusal(a: Action) { !a.Refuse? }

  ghost predicate NoRefusals(actions: seq<Action>) { forall i :: 0 <= i < |actions| ==> NoRefusal(actions[i]) }

  /** `a` is the commit of a change that takes `o` from the owners who can sign in. */
  ghost predicate Takes(s: State, a: Action, o: MemberId) {
    a.Commit? && a.tx in s.txs && s.txs[a.tx].target == o && TakesOne(s, s.txs[a.tx])
  }

  ghost predicate Signs(s: State, o: MemberId) { o in s.rows && s.rows[o].SignsIn() }

  /** The commit of an enable, of a promotion, or of a change to another row or to an owner who is none. */
  lemma CommitKeepsIt(s: State, t: TxId, o: MemberId)
    requires Inv(s) && Enabled(s, Commit(t)) && Signs(s, o) && !Takes(s, Commit(t), o)
    ensures Signs(Apply(s, Commit(t)), o)
  {
    var tx := s.txs[t];
    assert TxFits(s, tx);
    hide Inv, TxFits, TxsFit, End;
  }

  lemma OtherStepKeepsIt(s: State, a: Action, o: MemberId)
    requires Enabled(s, a) && !a.Commit? && !a.Refuse? && Signs(s, o)
    ensures Signs(Apply(s, a), o)
  {
    hide Free, ResolverAnswers, SignInOwners, ActiveOwners, LiveOf, End, Changed, Takes;
  }

  /** Without a refusal only such a commit ends an owner's sign-in. */
  lemma OnlyATakingEndsIt(s: State, a: Action, o: MemberId)
    requires Inv(s) && Enabled(s, a) && NoRefusal(a) && Signs(s, o) && !Takes(s, a, o)
    ensures Signs(Apply(s, a), o)
  {
    hide Inv, Enabled, Apply, Signs, Takes;
    if a.Commit? { CommitKeepsIt(s, a.tx, o); } else { OtherStepKeepsIt(s, a, o); }
  }

  lemma NoRefusalAt(actions: seq<Action>, n: nat)
    requires NoRefusals(actions) && n < |actions|
    ensures NoRefusal(actions[n])
  {
  }

  lemma {:induction false} SignsUntilTaken(states: seq<State>, actions: seq<Action>, m: nat, n: nat, o: MemberId)
    requires IsRun(states, actions) && NoRefusals(actions) && m <= n < |states| && Signs(states[m], o)
    requires forall k :: m <= k < n ==> !Takes(states[k], actions[k], o)
    ensures Signs(states[n], o)
  {
    hide *;
    if m < n {
      OneStepBack(states, actions, n);
      SignsUntilTaken(states, actions, m, n - 1, o);
      NoRefusalAt(actions, n - 1);
      OnlyATakingEndsIt(states[n - 1], actions[n - 1], o);
    }
  }

  lemma CountedSigns(s: State, a: Action, o: MemberId)
    requires Enabled(s, a) && a.ReadOwners? && o in a.live
    ensures Signs(s, o) && !Takes(s, a, o)
  {
    hide Free, ActiveOwners;
  }

  lemma AnotherIsLeft(s: State, t: TxId, o: MemberId)
    requires Inv(s) && Enabled(s, Commit(t)) && Signs(s, o) && o != s.txs[t].target
    ensures HasOwner(Apply(s, Commit(t)))
  {
    hide Inv, Enabled, Apply, HasOwner;
    CommitWithAnotherOwner(s, t, o);
  }

  lemma RunLength(states: seq<State>, actions: seq<Action>)
    requires IsRun(states, actions)
    ensures |states| == |actions| + 1
  {
    hide Init, Enabled, Apply;
  }

  lemma InvAt(states: seq<State>, actions: seq<Action>, n: nat)
    requires IsRun(states, actions) && n < |states|
    ensures IsPath(states, actions) && Inv(states[n])
  {
    hide IsPath, Init, Inv;
    InitIsInv(states[0]);
    PathKeepsInv(states, actions, n);
  }

  /** Without refusals the last owner is lost to changes alone: every other owner a change counted was taken by
      a change that committed between its check and its commit. */
  lemma LostToChangesAlone(states: seq<State>, actions: seq<Action>, c: nat, n: nat, o: MemberId) returns (k: nat)
    requires IsRun(states, actions) && NoRefusals(actions) && c < n < |actions|
    requires actions[c].ReadOwners? && actions[n] == Commit(actions[c].tx)
    requires o in actions[c].live && o != states[n].txs[actions[c].tx].target
    requires !HasOwner(states[n + 1])
    ensures c < k < n && Takes(states[k], actions[k], o)
  {
    hide Inv, IsPath, Enabled, Apply, NoRefusals, Signs, Takes, HasOwner;
    var t := actions[c].tx;
    RunLength(states, actions);
    InvAt(states, actions, n);
    StepOf(states, actions, c);
    StepOf(states, actions, n);
    CountedSigns(states[c], actions[c], o);
    if forall k :: c <= k < n ==> !Takes(states[k], actions[k], o) {
      SignsUntilTaken(states, actions, c, n, o);
      AnotherIsLeft(states[n], t, o);
    }
    k :| c <= k < n && Takes(states[k], actions[k], o);
  }

  // ------------------------------------------------- exactly, without refusals

  /** A row that `tx` has still to lock is among those `holder` has. */
  ghost predicate Blocked(tx: Tx, holder: Tx) {
    tx.stage.Locking? && exists m :: m in holder.locked && (m in tx.stage.todo || m == tx.target)
  }

  /** Change `u` takes no owner away before `t` ends: it is not out to, its check refuses it, or it has still to
      lock a row that `t` holds (a lock statement yet to begin will want the row of `t`'s own target). */
  ghost predicate Waits(s: State, t: TxId, u: TxId)
    requires t in s.txs && u in s.txs
  {
    var tx := s.txs[u];
    || !tx.TakesAnOwnerAway() || tx.stage.Begun? || (tx.act.Disable? && tx.target == tx.actor)
    || (tx.stage.Locking? && tx.actor !in tx.owners + tx.stage.todo)
    || Blocked(tx, s.txs[t])
  }

  /** Change `u` has passed its check to take `o` away. */
  ghost predicate IsTaking(s: State, u: TxId, o: MemberId)
    requires u in s.txs
  {
    s.txs[u].PastTheRead() && s.txs[u].TakesAnOwnerAway() && s.txs[u].target == o
  }

  /** Change `u` does not take owner `o` away before `t` ends. */
  ghost predicate LetsBe(s: State, t: TxId, u: TxId, o: MemberId)
    requires t in s.txs && u in s.txs
  {
    s.txs[u].target == o ==> Waits(s, t, u) && !IsTaking(s, u, o)
  }

  /** Owner `o` is safe from every other change until `t` ends. */
  ghost predicate Safe(s: State, t: TxId, o: MemberId) {
    && t in s.txs && s.txs[t].PastTheRead() && TakesOne(s, s.txs[t])
    && Signs(s, o) && o != s.txs[t].target && forall u :: u in s.txs && u != t ==> LetsBe(s, t, u, o)
  }

  lemma NotTaken(s: State, a: Action, t: TxId, o: MemberId)
    requires Enabled(s, a) && Safe(s, t, o) && a != Commit(t)
    ensures !Takes(s, a, o)
  {
  }

  lemma OthersNow(s: State, t: TxId, o: MemberId, u: TxId)
    requires Safe(s, t, o) && u != t
    ensures t in s.txs && s.txs[t].PastTheRead() && (u in s.txs ==> LetsBe(s, t, u, o))
  {
    hide TakesOne, Signs, LetsBe;
  }

  /** A transaction the step is not of, as before. */
  lemma OtherStays(s: State, a: Action, t: TxId, o: MemberId, u: TxId)
    requires Inv(s) && Enabled(s, a) && Safe(s, t, o) && u in Apply(s, a).txs && u != t && u != Actor(s, a)
    requires t in Apply(s, a).txs && Apply(s, a).txs[t].locked == s.txs[t].locked
    ensures LetsBe(Apply(s, a), t, u, o)
  {
    hide Inv, Enabled, Apply, TakesOne, Actor, Safe;
    OthersStep(s, a);
    OthersNow(s, t, o, u);
  }

  lemma SnapshotWaits(s: State, u: TxId, t: TxId, o: MemberId)
    requires t in s.txs && u != t && Enabled(s, Snapshot(u))
    requires s.txs[t].target in ActiveOwners(s) && s.txs[t].target in s.txs[t].locked
    ensures Waits(Apply(s, Snapshot(u)), t, u) && !IsTaking(Apply(s, Snapshot(u)), u, o)
  {
    hide ActiveOwners;
  }

  lemma StillBlocked(tx: Tx, m: MemberId, tx': Tx, holder: Tx)
    requires Blocked(tx, holder) && m !in holder.locked
    requires tx'.stage == Locking(tx.stage.todo - {m}) && tx'.target == tx.target
    ensures Blocked(tx', holder)
  {
    var k :| k in holder.locked && (k in tx.stage.todo || k == tx.target);
    assert k in tx'.stage.todo || k == tx'.target;
  }

  lemma NotLockedBy(s: State, m: MemberId, u: TxId, t: TxId)
    requires Free(s, m, u) && t in s.txs && t != u
    ensures m !in s.txs[t].locked
  {
  }

  /** The lock a change takes is of a row that `t` does not hold. */
  lemma LockIsFree(s: State, a: Action, t: TxId)
    requires Enabled(s, a) && t in s.txs
    ensures a.LockOwner? && a.tx != t ==> a.member !in s.txs[t].locked
    ensures a.LockTarget? && a.tx != t ==> a.tx in s.txs && s.txs[a.tx].target !in s.txs[t].locked
  {
    hide ResolverAnswers, SignInOwners, ActiveOwners, Changed, Free;
    if a.LockOwner? && a.tx != t { NotLockedBy(s, a.member, a.tx, t); }
    if a.LockTarget? && a.tx != t { NotLockedBy(s, s.txs[a.tx].target, a.tx, t); }
  }

  lemma LockingWaits(s: State, u: TxId, m: MemberId, t: TxId, o: MemberId)
    requires t in s.txs && u != t && Enabled(s, LockOwner(u, m)) && Waits(s, t, u)
    ensures Waits(Apply(s, LockOwner(u, m)), t, u) && !IsTaking(Apply(s, LockOwner(u, m)), u, o)
  {
    hide Blocked, Free;
    LockIsFree(s, LockOwner(u, m), t);
    var tx, tx' := s.txs[u], Apply(s, LockOwner(u, m)).txs[u];
    if Blocked(tx, s.txs[t]) { StillBlocked(tx, m, tx', s.txs[t]); }
    assert tx.actor in tx'.owners + tx'.stage.todo ==> tx.actor in tx.owners + tx.stage.todo;
  }

  lemma NotBlocked(tx: Tx, holder: Tx)
    requires tx.stage == Locking({}) && tx.target !in holder.locked
    ensures !Blocked(tx, holder)
  {
  }

  lemma TargetWaits(s: State, u: TxId, t: TxId, o: MemberId)
    requires t in s.txs && u != t && Enabled(s, LockTarget(u)) && Waits(s, t, u)
    ensures Waits(Apply(s, LockTarget(u)), t, u) && !IsTaking(Apply(s, LockTarget(u)), u, o)
  {
    hide Blocked, Free;
    LockIsFree(s, LockTarget(u), t);
    NotBlocked(s.txs[u], s.txs[t]);
  }

  lemma TargetStays(s: State, a: Action, u: TxId)
    requires Enabled(s, a) && u in s.txs && u in Apply(s, a).txs && s.next !in s.txs
    ensures Apply(s, a).txs[u].target == s.txs[u].target
  {
    hide Free, ActiveOwners, SignInOwners, ResolverAnswers, LiveOf, End, Changed;
  }

  lemma LaterStays(s: State, a: Action, t: TxId, o: MemberId)
    requires Enabled(s, a) && t in s.txs && Actor(s, a) != t && Actor(s, a) in Apply(s, a).txs && t in Apply(s, a).txs
    requires !a.Snapshot? && !a.LockOwner? && !a.LockTarget? && s.next !in s.txs
    requires Actor(s, a) in s.txs ==> Waits(s, t, Actor(s, a)) && !IsTaking(s, Actor(s, a), s.txs[Actor(s, a)].target)
    ensures Waits(Apply(s, a), t, Actor(s, a)) && !IsTaking(Apply(s, a), Actor(s, a), o)
  {
    hide Free, ActiveOwners, SignInOwners, ResolverAnswers, LiveOf, End, Changed;
  }

  /** The transaction the step is of. */
  lemma ActorStays(s: State, a: Action, t: TxId, o: MemberId)
    requires Inv(s) && Enabled(s, a) && Safe(s, t, o) && Actor(s, a) != t && Actor(s, a) in Apply(s, a).txs
    requires t in Apply(s, a).txs && Apply(s, a).txs[t].locked == s.txs[t].locked
    ensures LetsBe(Apply(s, a), t, Actor(s, a), o)
  {
    hide Inv, TxFits, TakesOne, Signs, Safe, ActiveOwners, Enabled, Apply, Actor, IsTaking, Waits;
    var u := Actor(s, a);
    TargetIsLocked(s, t, o);
    OthersNow(s, t, o, u);
    IdsAreFresh(s);
    if u in s.txs { TargetStays(s, a, u); }
    if u in s.txs && s.txs[u].target != o {
    } else if a.Snapshot? {
      ActorOf(s, a);
      SnapshotWaits(s, a.tx, t, o);
    } else if a.LockOwner? {
      ActorOf(s, a);
      LockingWaits(s, a.tx, a.member, t, o);
    } else if a.LockTarget? {
      ActorOf(s, a);
      TargetWaits(s, a.tx, t, o);
    } else {
      LaterStays(s, a, t, o);
    }
  }

  lemma TargetIsLocked(s: State, t: TxId, o: MemberId)
    requires Inv(s) && Safe(s, t, o)
    ensures t in s.txs && s.txs[t].target in s.txs[t].locked && s.txs[t].target in ActiveOwners(s)
  {
    hide OneHolder, SessionsFit, OpeningsFit, LetsBe, Signs;
    assert TxFits(s, s.txs[t]);
  }

  /** A locking change is not past its read. */
  lemma ActorOf(s: State, a: Action)
    requires Enabled(s, a) && (a.Snapshot? || a.LockOwner? || a.LockTarget?)
    ensures Actor(s, a) == a.tx && a.tx in s.txs && !s.txs[a.tx].PastTheRead()
  {
    hide Free;
  }

  lemma SafeStep(s: State, a: Action, t: TxId, o: MemberId)
    requires Inv(s) && Enabled(s, a) && NoRefusal(a) && Safe(s, t, o) && a != Commit(t) && a != RollBack(t)
    ensures Safe(Apply(s, a), t, o)
  {
    hide Inv, Enabled, TakesOne, Guarded, Takes, Apply, LetsBe, Signs;
    var s' := Apply(s, a);
    DecisionIsStable(s, a, t);
    NotTaken(s, a, t, o);
    OnlyATakingEndsIt(s, a, o);
    forall u | u in s'.txs && u != t
      ensures LetsBe(s', t, u, o)
    {
      if u == Actor(s, a) { ActorStays(s, a, t, o); } else { OtherStays(s, a, t, o, u); }
    }
  }

  lemma Harmless(actions: seq<Action>, t: TxId, n: nat)
    requires n < |actions| - 1 && NoRefusals(actions) && Spares(actions, t)
    ensures NoRefusal(actions[n]) && actions[n] != Commit(t) && actions[n] != RollBack(t)
  {
  }

  lemma {:induction false} StaysSafe(states: seq<State>, actions: seq<Action>, n: nat, t: TxId, o: MemberId)
    requires IsPath(states, actions) && Inv(states[0]) && n < |actions| && NoRefusals(actions) && Spares(actions, t)
    requires Safe(states[0], t, o)
    ensures Safe(states[n], t, o)
  {
    hide *;
    if n > 0 {
      StepOf(states, actions, n - 1);
      StaysSafe(states, actions, n - 1, t, o);
      PathKeepsInv(states, actions, n - 1);
      Harmless(actions, t, n - 1);
      SafeStep(states[n - 1], actions[n - 1], t, o);
    }
  }

  /** Whatever happens before it commits, but for a refusal, the business has an owner right after. */
  ghost predicate KeepsAnOwnerUnrefused(s: State, t: TxId) {
    forall states: seq<State>, actions: seq<Action> ::
      (&& IsPath(states, actions) && |actions| > 0 && states[0] == s && actions[|actions| - 1] == Commit(t)
       && Spares(actions, t) && NoRefusals(actions)) ==> HasOwner(states[|actions|])
  }

  lemma SafeMeans(s: State, t: TxId, o: MemberId)
    requires Safe(s, t, o)
    ensures t in s.txs && o in s.rows && s.rows[o].SignsIn() && o != s.txs[t].target
  {
    hide TakesOne, LetsBe;
  }

  lemma SafeCommit(p: seq<State>, ps: seq<Action>, t: TxId, o: MemberId)
    requires IsPath(p, ps) && |ps| > 0 && |p| == |ps| + 1 && Inv(p[0]) && Safe(p[0], t, o)
    requires ps[|ps| - 1] == Commit(t) && Spares(ps, t) && NoRefusals(ps)
    ensures HasOwner(p[|ps|])
  {
    hide *;
    StaysSafe(p, ps, |ps| - 1, t, o);
    PathKeepsInv(p, ps, |ps| - 1);
    StepOf(p, ps, |ps| - 1);
    SafeMeans(p[|ps| - 1], t, o);
    CommitWithAnotherOwner(p[|ps| - 1], t, o);
  }

  lemma SafeOwnerSuffices(s: State, t: TxId, o: MemberId)
    requires Inv(s) && Safe(s, t, o)
    ensures KeepsAnOwnerUnrefused(s, t)
  {
    hide Inv, Safe, HasOwner, Spares, NoRefusals;
    forall p: seq<State>, ps: seq<Action> |
      IsPath(p, ps) && |ps| > 0 && p[0] == s && ps[|ps| - 1] == Commit(t) && Spares(ps, t) && NoRefusals(ps)
      ensures HasOwner(p[|ps|])
    {
      SafeCommit(p, ps, t, o);
    }
  }

  /** Change `u`'s own remaining steps, its commit last. */
  ghost predicate IsFinish(actions: seq<Action>, u: TxId) {
    && |actions| > 0 && actions[|actions| - 1] == Commit(u)
    && forall i :: 0 <= i < |actions| - 1 ==> actions[i] == Write(u) || actions[i] == RevokeAll(u)
  }

  /** `s'` is `s` after change `u`, past its check, has taken its owner away. */
  ghost predicate HasTaken(s: State, s': State, u: TxId)
    requires u in s.txs
  {
    && s'.txs == s.txs - {u} && s'.rows.Keys == s.rows.Keys
    && !Signs(s', s.txs[u].target)
    && forall m :: m in s.rows && m != s.txs[u].target ==> s'.rows[m] == s.rows[m]
  }

  /** A change past its check has nothing to wait for. */
  lemma Finish(s: State, u: TxId) returns (states: seq<State>, actions: seq<Action>)
    requires Inv(s) && u in s.txs && s.txs[u].PastTheRead() && TakesOne(s, s.txs[u])
    ensures IsPath(states, actions) && states[0] == s && IsFinish(actions, u) && HasTaken(s, states[|actions|], u)
  {
    assert TxFits(s, s.txs[u]);
    hide Inv, Free, ResolverAnswers, LiveOf, End;
    if s.txs[u].stage.Decided? {
      states, actions := FinishDecided(s, u);
    } else if s.txs[u].stage.Written? {
      states, actions := FinishWritten(s, u);
    } else {
      states, actions := FinishRevoked(s, u);
    }
  }

  lemma FinishRevoked(s: State, u: TxId) returns (states: seq<State>, actions: seq<Action>)
    requires u in s.txs && s.txs[u].stage.Revoked? && TakesOne(s, s.txs[u])
    requires Changed(s.rows[s.txs[u].target], s.txs[u].act) == NewRow(s.txs[u].stage.row)
    ensures IsPath(states, actions) && states[0] == s && IsFinish(actions, u) && HasTaken(s, states[|actions|], u)
  {
    states, actions := [s, Apply(s, Commit(u))], [Commit(u)];
  }

  lemma FinishWritten(s: State, u: TxId) returns (states: seq<State>, actions: seq<Action>)
    requires u in s.txs && s.txs[u].stage.Written? && TakesOne(s, s.txs[u])
    requires Changed(s.rows[s.txs[u].target], s.txs[u].act) == NewRow(s.txs[u].stage.row)
    ensures IsPath(states, actions) && states[0] == s && IsFinish(actions, u) && HasTaken(s, states[|actions|], u)
  {
    if s.txs[u].act.Disable? {
      var a := RevokeAll(u);
      var next := Apply(s, a);
      assert next.txs[u].stage.Revoked? && next.rows == s.rows;
      assert TakesOne(next, next.txs[u]);
      var p, ps := FinishRevoked(next, u);
      Onward(s, a, next, p, ps, u);
      states, actions := [s] + p, [a] + ps;
    } else {
      states, actions := [s, Apply(s, Commit(u))], [Commit(u)];
    }
  }

  lemma FinishDecided(s: State, u: TxId) returns (states: seq<State>, actions: seq<Action>)
    requires u in s.txs && s.txs[u].stage.Decided? && TakesOne(s, s.txs[u])
    ensures IsPath(states, actions) && states[0] == s && IsFinish(actions, u) && HasTaken(s, states[|actions|], u)
  {
    var a := Write(u);
    var next := Apply(s, a);
    assert next.txs[u].stage.Written? && next.rows == s.rows;
    assert TakesOne(next, next.txs[u]);
    var p, ps := FinishWritten(next, u);
    Onward(s, a, next, p, ps, u);
    states, actions := [s] + p, [a] + ps;
  }

  /** One more of the change's own steps in front. */
  lemma Onward(s: State, a: Action, next: State, p: seq<State>, ps: seq<Action>, u: TxId)
    requires Enabled(s, a) && next == Apply(s, a) && (a == Write(u) || a == RevokeAll(u))
    requires IsPath(p, ps) && p[0] == next && IsFinish(ps, u) && u in s.txs && u in next.txs && HasTaken(next, p[|ps|], u)
    requires next.rows == s.rows && next.txs - {u} == s.txs - {u} && next.txs[u].target == s.txs[u].target
    ensures IsPath([s] + p, [a] + ps) && ([s] + p)[0] == s && IsFinish([a] + ps, u)
    ensures HasTaken(s, ([s] + p)[|[a] + ps|], u)
  {
    Prepend(s, a, p, ps);
    hide IsPath, Enabled, Apply;
  }

  /** Some other change has passed its check to take `o` away. */
  ghost predicate IsTaken(s: State, t: TxId, o: MemberId) { exists u :: u in s.txs && u != t && IsTaking(s, u, o) }

  ghost predicate AllTaken(s: State, t: TxId)
    requires t in s.txs
  {
    forall o :: Signs(s, o) && o != s.txs[t].target ==> IsTaken(s, t, o)
  }

  ghost predicate Loses(s: State, t: TxId, states: seq<State>, actions: seq<Action>) {
    && IsPath(states, actions) && states[0] == s && |actions| > 0 && actions[|actions| - 1] == Commit(t)
    && Spares(actions, t) && NoRefusals(actions) && !HasOwner(states[|actions|])
  }

  /** After one of them has finished, the rest are still being taken. */
  lemma StillAllTaken(s: State, s': State, t: TxId, u: TxId, o: MemberId)
    requires t in s.txs && u in s.txs && u != t && TakesOne(s, s.txs[t]) && AllTaken(s, t)
    requires Signs(s, o) && o != s.txs[t].target && IsTaking(s, u, o) && HasTaken(s, s', u)
    ensures t in s'.txs && s'.txs[t] == s.txs[t] && TakesOne(s', s'.txs[t]) && AllTaken(s', t)
    ensures SignInOwners(s') < SignInOwners(s)
  {
    forall x | Signs(s', x) && x != s.txs[t].target
      ensures IsTaken(s', t, x)
    {
      assert Signs(s, x) && IsTaken(s, t, x);
      var v :| v in s.txs && v != t && IsTaking(s, v, x);
      assert v in s'.txs && IsTaking(s', v, x);
    }
    assert o in SignInOwners(s) && o !in SignInOwners(s');
    assert forall m :: m in SignInOwners(s') ==> m in s.rows && Signs(s', m);
  }

  lemma FinishesJoin(ps: seq<Action>, u: TxId, qs: seq<Action>, t: TxId)
    requires IsFinish(ps, u) && u != t && |qs| > 0 && qs[|qs| - 1] == Commit(t) && Spares(qs, t) && NoRefusals(qs)
    ensures Spares(ps + qs, t) && NoRefusals(ps + qs) && (ps + qs)[|ps + qs| - 1] == Commit(t)
  {
    FinishIsLast(ps, u);
    forall i | 0 <= i < |ps + qs|
      ensures NoRefusal((ps + qs)[i])
    {
      assert (ps + qs)[i] == if i < |ps| then ps[i] else qs[i - |ps|];
    }
    forall i | 0 <= i < |ps + qs| - 1
      ensures (ps + qs)[i] != Commit(t) && (ps + qs)[i] != RollBack(t)
    {
      assert (ps + qs)[i] == if i < |ps| then ps[i] else qs[i - |ps|];
    }
  }

  lemma FinishIsLast(ps: seq<Action>, t: TxId)
    requires IsFinish(ps, t)
    ensures Spares(ps, t) && NoRefusals(ps)
  {
    forall i | 0 <= i < |ps|
      ensures NoRefusal(ps[i])
    {
      assert i == |ps| - 1 || ps[i] == Write(t) || ps[i] == RevokeAll(t);
    }
  }

  lemma NoOwnerLeft(s: State, s': State, t: TxId)
    requires t in s.txs && HasTaken(s, s', t) && forall o :: Signs(s, o) ==> o == s.txs[t].target
    ensures !HasOwner(s')
  {
    assert forall m :: m in s'.rows && s'.rows[m].SignsIn() ==> Signs(s', m) && (m != s.txs[t].target ==> Signs(s, m));
  }

  /** Each of the others finishes, and then `t` does. */
  lemma {:induction false} AllMayBeTaken(s: State, t: TxId) returns (states: seq<State>, actions: seq<Action>)
    requires Inv(s) && t in s.txs && s.txs[t].PastTheRead() && TakesOne(s, s.txs[t]) && AllTaken(s, t)
    ensures Loses(s, t, states, actions)
    decreases SignInOwners(s)
  {
    if o :| Signs(s, o) && o != s.txs[t].target {
      var u :| u in s.txs && u != t && IsTaking(s, u, o);
      assert TakesOne(s, s.txs[u]);
      var p, ps := Finish(s, u);
      PathKeepsInv(p, ps, |ps|);
      StillAllTaken(s, p[|ps|], t, u, o);
      hide Inv, AllTaken, TakesOne, HasTaken, IsTaking, Signs, SignInOwners;
      var q, qs := AllMayBeTaken(p[|ps|], t);
      TakeThenLose(s, p, ps, u, q, qs, t);
      states, actions := p + q[1..], ps + qs;
    } else {
      states, actions := Finish(s, t);
      FinishIsLast(actions, t);
      NoOwnerLeft(s, states[|actions|], t);
      hide Inv, IsPath, Spares, NoRefusals, TakesOne;
    }
  }

  lemma TakeThenLose(s: State, p: seq<State>, ps: seq<Action>, u: TxId, q: seq<State>, qs: seq<Action>, t: TxId)
    requires IsPath(p, ps) && p[0] == s && IsFinish(ps, u) && u != t && Loses(p[|ps|], t, q, qs)
    ensures Loses(s, t, p + q[1..], ps + qs)
  {
    Join2(p, ps, q, qs);
    FinishesJoin(ps, u, qs, t);
    hide IsPath, IsFinish, Spares, NoRefusals, HasOwner;
  }

  /** No owner is open to another change that is still between its snapshot and its check, unless a change past
      its check is taking that owner anyway. */
  ghost predicate NobodyBetween(s: State, t: TxId)
    requires t in s.txs
  {
    forall u :: u in s.txs && u != t && Signs(s, s.txs[u].target) && s.txs[u].target != s.txs[t].target ==>
      Waits(s, t, u) || s.txs[u].PastTheRead() || IsTaken(s, t, s.txs[u].target)
  }

  lemma UntakenIsSafe(s: State, t: TxId, o: MemberId)
    requires t in s.txs && s.txs[t].PastTheRead() && TakesOne(s, s.txs[t]) && NobodyBetween(s, t)
    requires Signs(s, o) && o != s.txs[t].target && !IsTaken(s, t, o)
    ensures Safe(s, t, o)
  {
    hide Signs, Blocked, TakesOne;
  }

  lemma LossOf(s: State, t: TxId, p: seq<State>, ps: seq<Action>)
    requires Loses(s, t, p, ps)
    ensures !KeepsAnOwnerUnrefused(s, t)
  {
    hide Enabled, Apply, Spares, NoRefusals, HasOwner;
  }

  /** The last-owner rule among changes alone, exactly. A change has passed its check, and no owner is exposed only
      to changes still between their snapshot and their check: then, refusals aside, an owner who can sign in
      is left right after it commits, whatever else happens before, if and only if one is left that no other
      change has passed its check to take away. */
  lemma KeepsAnOwnerUnrefusedIffOneIsNotTaken(states: seq<State>, actions: seq<Action>, n: nat, t: TxId)
    requires IsRun(states, actions) && n < |states|
    requires t in states[n].txs && states[n].txs[t].stage.Decided? && TakesOne(states[n], states[n].txs[t])
    requires NobodyBetween(states[n], t)
    ensures KeepsAnOwnerUnrefused(states[n], t)
            <==> exists o :: Signs(states[n], o) && o != states[n].txs[t].target && !IsTaken(states[n], t, o)
  {
    hide IsRun, IsPath, Inv, TakesOne, NobodyBetween, HasOwner, Spares, NoRefusals, Signs, Safe, IsTaken, Loses, KeepsAnOwnerUnrefused;
    InvAt(states, actions, n);
    var s := states[n];
    if o :| Signs(s, o) && o != s.txs[t].target && !IsTaken(s, t, o) {
      UntakenIsSafe(s, t, o);
      SafeOwnerSuffices(s, t, o);
    } else {
      var p, ps := AllMayBeTaken(s, t);
      LossOf(s, t, p, ps);
    }
  }

  // -------------------------------------- a run of changes alone that loses the last owner

  /** A step of a `Change`, and of nothing else. */
  predicate OfChange(a: Action) {
    || a.Start? || a.Snapshot? || a.LockOwner? || a.LockTarget? || a.ReadOwners?
    || a.Write? || a.RevokeAll? || a.Commit?
  }

  ghost predicate Leads(s: State, states: seq<State>, actions: seq<Action>, s': State) {
    && IsPath(states, actions) && states[0] == s && states[|actions|] == s'
    && forall i :: 0 <= i < |actions| ==> OfChange(actions[i])
  }

  /** Changes alone lead from the one state to the other. */
  ghost predicate Reaches(s: State, s': State) {
    exists states: seq<State>, actions: seq<Action> :: Leads(s, states, actions, s')
  }

  lemma OneStep(s: State, a: Action, s': State)
    requires Enabled(s, a) && OfChange(a) && s' == Apply(s, a)
    ensures Reaches(s, s')
  {
    hide Enabled, Apply;
    assert Leads(s, [s, s'], [a], s');
  }

  lemma Then(s: State, m: State, s': State)
    requires Reaches(s, m) && Reaches(m, s')
    ensures Reaches(s, s')
  {
    var p: seq<State>, ps: seq<Action> :| Leads(s, p, ps, m);
    var q: seq<State>, qs: seq<Action> :| Leads(m, q, qs, s');
    Join2(p, ps, q, qs);
    hide IsPath;
    forall i | 0 <= i < |ps + qs|
      ensures OfChange((ps + qs)[i])
    {
      assert (ps + qs)[i] == if i < |ps| then ps[i] else qs[i - |ps|];
    }
    assert Leads(s, p + q[1..], ps + qs, s');
  }

  /** Nobody but `t` holds a row. */
  ghost predicate Quiet(s: State, t: TxId) {
    s.openings == map[] && forall u :: u in s.txs && u != t ==> s.txs[u].locked == {}
  }

  function WithLocks(s: State, t: TxId, todo: set<MemberId>): State
    requires t in s.txs
  {
    var tx := s.txs[t];
    Set(s, t, tx.(stage := Locking({}), locked := tx.locked + todo, owners := tx.owners + todo))
  }

  lemma {:induction false} Least(xs: set<MemberId>) returns (x: MemberId)
    requires xs != {}
    ensures x in xs && forall y :: y in xs ==> x <= y
    decreases xs
  {
    var first :| first in xs;
    x := first;
    if xs != {first} {
      var z := Least(xs - {first});
      assert forall y :: y in xs ==> y == first || y in xs - {first};
      if z < first { x := z; }
    }
  }

  /** The owners' lock, when nobody is in its way. */
  lemma {:induction false} LockAll(s: State, t: TxId, todo: set<MemberId>)
    requires t in s.txs && s.txs[t].stage == Locking(todo)
    requires forall m :: m in todo ==> m in s.rows && s.rows[m].ActiveOwner() && Free(s, m, t)
    ensures Reaches(s, WithLocks(s, t, todo))
    decreases todo
  {
    if todo == {} {
      assert s.txs[t].locked + {} == s.txs[t].locked && s.txs[t].owners + {} == s.txs[t].owners;
      assert WithLocks(s, t, todo).txs == s.txs;
      assert Leads(s, [s], [], s);
    } else {
      var m := Least(todo);
      var a, tx := LockOwner(t, m), s.txs[t];
      var next := Apply(s, a);
      OneStep(s, a, next);
      assert next.txs[t] == tx.(stage := Locking(todo - {m}), locked := tx.locked + {m}, owners := tx.owners + {m});
      LockAll(next, t, todo - {m});
      var end := WithLocks(next, t, todo - {m});
      assert (tx.locked + {m}) + (todo - {m}) == tx.locked + todo && (tx.owners + {m}) + (todo - {m}) == tx.owners + todo;
      assert end.txs == WithLocks(s, t, todo).txs;
      hide Reaches;
      Then(s, next, end);
    }
  }

  /** From the lock on, when the target is free. */
  lemma PassCheck(s: State, t: TxId)
    requires t in s.txs && s.txs[t].stage == Locking({}) && Free(s, s.txs[t].target, t) && s.txs[t].actor in s.txs[t].owners
    requires s.txs[t].target in s.rows && (s.txs[t].act.MakeOwner? || s.txs[t].act.MakeManager?)
    requires |SignInOwners(s)| <= 200
    requires s.txs[t].act.MakeManager? ==> !(s.txs[t].target in SignInOwners(s) && |SignInOwners(s)| <= 1)
    ensures Reaches(s, Set(s, t, s.txs[t].(stage := Decided, locked := s.txs[t].locked + {s.txs[t].target}, live := SignInOwners(s))))
  {
    var tx := s.txs[t];
    var s1 := Apply(s, LockTarget(t));
    OneStep(s, LockTarget(t), s1);
    assert SignInOwners(s1) == SignInOwners(s);
    var a := ReadOwners(t, SignInOwners(s));
    var s2 := Apply(s1, a);
    OneStep(s1, a, s2);
    assert s2.txs == Set(s, t, tx.(stage := Decided, locked := tx.locked + {tx.target}, live := SignInOwners(s))).txs;
    hide Reaches;
    Then(s, s1, s2);
  }

  lemma WriteAndCommit(s: State, t: TxId, row: Row)
    requires t in s.txs && s.txs[t].stage.Decided? && s.txs[t].revoked == {} && s.sessions == map[]
    requires s.txs[t].target in s.rows && (s.txs[t].act.MakeOwner? || s.txs[t].act.MakeManager?)
    requires Changed(s.rows[s.txs[t].target], s.txs[t].act) == NewRow(row)
    ensures Reaches(s, s.(rows := s.rows[s.txs[t].target := row], txs := s.txs - {t}))
  {
    var s1 := Apply(s, Write(t));
    OneStep(s, Write(t), s1);
    var s2 := Apply(s1, Commit(t));
    OneStep(s1, Commit(t), s2);
    assert s2.txs == s.txs - {t} && s2.sessions == map[];
    hide Reaches;
    Then(s, s1, s2);
  }

  lemma Begin(s: State, actor: MemberId, target: MemberId, act: Act, owners: set<MemberId>)
    requires s.next !in s.txs && owners == ActiveOwners(s)
    ensures Reaches(s, s.(next := s.next + 1,
                          txs := s.txs[s.next := Tx(actor, target, act, Locking(owners), owners, {}, {}, {}, {})]))
  {
    var s1 := Apply(s, Start(actor, target, act));
    OneStep(s, Start(actor, target, act), s1);
    assert ActiveOwners(s1) == owners;
    var s2 := Apply(s1, Snapshot(s.next));
    OneStep(s1, Snapshot(s.next), s2);
    assert s2.txs == s.txs[s.next := Tx(actor, target, act, Locking(owners), owners, {}, {}, {}, {})];
    hide Reaches;
    Then(s, s1, s2);
  }

  /** Change `t` has locked every owner. */
  ghost function AllLocked(s: State, actor: MemberId, target: MemberId, act: Act): State {
    var owners := ActiveOwners(s);
    s.(next := s.next + 1, txs := s.txs[s.next := Tx(actor, target, act, Locking({}), owners, owners, owners, {}, {})])
  }

  lemma LocksAlone(s: State, actor: MemberId, target: MemberId, act: Act)
    requires s.next !in s.txs && Quiet(s, s.next)
    ensures Reaches(s, AllLocked(s, actor, target, act))
  {
    hide ActiveOwners, Quiet, Free, Reaches;
    var t, owners := s.next, ActiveOwners(s);
    var begun := Tx(actor, target, act, Locking(owners), owners, {}, {}, {}, {});
    var s1 := s.(next := t + 1, txs := s.txs[t := begun]);
    Begin(s, actor, target, act, owners);
    OwnersAre(s);
    NobodyInTheWay(s, t, begun, s1);
    LockAll(s1, t, owners);
    LockedAll(s1, t, owners, begun);
    assert WithLocks(s1, t, owners).txs == AllLocked(s, actor, target, act).txs;
    Then(s, s1, AllLocked(s, actor, target, act));
  }

  lemma SameOwners(s: State, s': State)
    requires s'.rows == s.rows
    ensures SignInOwners(s') == SignInOwners(s)
  {
  }

  /** A change of role that meets nobody goes through. */
  lemma ChangesAlone(s: State, actor: MemberId, target: MemberId, act: Act, row: Row)
    requires s.next !in s.txs && Quiet(s, s.next) && s.sessions == map[]
    requires actor in ActiveOwners(s) && target in s.rows && (act.MakeOwner? || act.MakeManager?)
    requires Changed(s.rows[target], act) == NewRow(row) && |SignInOwners(s)| <= 200
    requires act.MakeManager? ==> !(target in SignInOwners(s) && |SignInOwners(s)| <= 1)
    ensures Reaches(s, s.(next := s.next + 1, rows := s.rows[target := row]))
  {
    hide ActiveOwners, SignInOwners, Quiet, Free, Reaches, Changed;
    var t := s.next;
    var s2 := AllLocked(s, actor, target, act);
    LocksAlone(s, actor, target, act);
    SameOwners(s, s2);
    NobodyInTheWay(s, t, s2.txs[t], s2);
    PassCheck(s2, t);
    var s3 := Set(s2, t, s2.txs[t].(stage := Decided, locked := s2.txs[t].locked + {target}, live := SignInOwners(s2)));
    WriteAndCommit(s3, t, row);
    var s4 := s3.(rows := s3.rows[target := row], txs := s3.txs - {t});
    assert s4.txs == s.txs;
    Then(s, s2, s3);
    Then(s, s3, s4);
  }

  lemma OwnersAre(s: State)
    ensures forall m :: m in ActiveOwners(s) ==> m in s.rows && s.rows[m].ActiveOwner()
  {
  }

  lemma NobodyInTheWay(s: State, t: TxId, tx: Tx, s': State)
    requires Quiet(s, t) && s'.txs == s.txs[t := tx] && s'.openings == s.openings
    ensures forall m :: Free(s', m, t)
  {
  }

  lemma LockedAll(s: State, t: TxId, owners: set<MemberId>, begun: Tx)
    requires t in s.txs && s.txs[t] == begun && begun.locked == {} && begun.owners == {}
    ensures WithLocks(s, t, owners) == Set(s, t, begun.(stage := Locking({}), locked := owners, owners := owners))
  {
    assert {} + owners == owners;
  }

  /** A business of two, 0 and 1, that nobody refuses. */
  function Two(next: TxId, row0: Row, row1: Row, txs: map<TxId, Tx>): State {
    State(next, map[0 := row0, 1 := row1], map[], txs, map[])
  }

  const FIRST := Tx(0, 0, MakeManager, Locking({0}), {0}, {}, {}, {}, {})
  const SECOND := Tx(1, 1, MakeManager, Locking({1}), {1}, {}, {}, {}, {})
  const PASSED := Tx(0, 0, MakeManager, Decided, {0}, {0}, {0}, {0, 1}, {})
  const PASSED_TOO := Tx(1, 1, MakeManager, Decided, {1}, {1}, {1}, {0, 1}, {})

  const AT_FIRST := Two(0, OWNER, MANAGER, map[])
  const WAITING := Two(1, OWNER, MANAGER, map[0 := FIRST])
  const BOTH_WAITING := Two(4, MANAGER, OWNER, map[0 := FIRST, 3 := SECOND])
  const TWO_OWNERS := Two(5, OWNER, OWNER, map[0 := FIRST, 3 := SECOND])
  const ONE_PASSED := Two(5, OWNER, OWNER, map[0 := FIRST, 3 := PASSED_TOO])
  const BOTH_PASSED := Two(5, OWNER, OWNER, map[0 := PASSED, 3 := PASSED_TOO])
  const ONE_LEFT := Two(5, OWNER, MANAGER, map[0 := PASSED])

  /** Owner 0 begins to step down and waits for its own row; 0 makes 1 an owner, and 1 makes 0 a manager. */
  lemma TheFirstWaits()
    ensures Reaches(AT_FIRST, WAITING) && Reaches(WAITING, Two(3, MANAGER, OWNER, map[0 := FIRST]))
  {
    assert ActiveOwners(AT_FIRST) == {0} && ActiveOwners(WAITING) == {0} && SignInOwners(WAITING) == {0};
    Begin(AT_FIRST, 0, 0, MakeManager, {0});
    assert WAITING.txs == AT_FIRST.txs[0 := FIRST];
    ChangesAlone(WAITING, 0, 1, MakeOwner, OWNER);
    var both := Two(2, OWNER, OWNER, map[0 := FIRST]);
    assert both.rows == WAITING.rows[1 := OWNER];
    assert ActiveOwners(both) == {0, 1} && SignInOwners(both) == {0, 1};
    ChangesAlone(both, 1, 0, MakeManager, MANAGER);
    assert Two(3, MANAGER, OWNER, map[0 := FIRST]).rows == both.rows[0 := MANAGER];
    hide Reaches;
    Then(WAITING, both, Two(3, MANAGER, OWNER, map[0 := FIRST]));
  }

  /** Owner 1 begins to step down and waits; then 1 makes 0 an owner again. */
  lemma TheSecondWaits()
    ensures Reaches(Two(3, MANAGER, OWNER, map[0 := FIRST]), TWO_OWNERS)
  {
    var s := Two(3, MANAGER, OWNER, map[0 := FIRST]);
    assert ActiveOwners(s) == {1} && ActiveOwners(BOTH_WAITING) == {1} && SignInOwners(BOTH_WAITING) == {1};
    Begin(s, 1, 1, MakeManager, {1});
    assert BOTH_WAITING.txs == s.txs[3 := SECOND];
    assert TWO_OWNERS.rows == BOTH_WAITING.rows[0 := OWNER];
    ChangesAlone(BOTH_WAITING, 1, 0, MakeOwner, OWNER);
    hide Reaches;
    Then(s, BOTH_WAITING, TWO_OWNERS);
  }

  /** Each gets its own row and counts two owners: the two are past the lock together. */
  lemma BothPass()
    ensures Reaches(TWO_OWNERS, ONE_PASSED) && Reaches(ONE_PASSED, BOTH_PASSED)
  {
    assert SignInOwners(TWO_OWNERS) == {0, 1} && SignInOwners(ONE_PASSED) == {0, 1};
    PassesOne(TWO_OWNERS, 3, ONE_PASSED, 1);
    PassesOne(ONE_PASSED, 0, BOTH_PASSED, 0);
  }

  lemma PassesOne(s: State, t: TxId, s': State, m: MemberId)
    requires t in s.txs && s.txs[t] == Tx(m, m, MakeManager, Locking({m}), {m}, {}, {}, {}, {}) && Free(s, m, t)
    requires m in s.rows && s.rows[m].SignsIn() && SignInOwners(s) == {0, 1}
    requires s' == Set(s, t, Tx(m, m, MakeManager, Decided, {m}, {m}, {m}, {0, 1}, {}))
    ensures Reaches(s, s')
  {
    LockAll(s, t, {m});
    var mid := WithLocks(s, t, {m});
    assert {} + {m} == {m} && {m} + {m} == {m} && |{0, 1}| == 2;
    assert SignInOwners(mid) == {0, 1} && Free(mid, m, t);
    PassCheck(mid, t);
    assert Set(mid, t, mid.txs[t].(stage := Decided, locked := {m}, live := {0, 1})).txs == s'.txs;
    hide Reaches;
    Then(s, mid, s');
  }

  /** Both then step down, and nobody is left. */
  lemma BothStepDown()
    ensures Reaches(BOTH_PASSED, ONE_LEFT) && HasOwner(ONE_LEFT)
    ensures Enabled(ONE_LEFT, Write(0)) && Enabled(Apply(ONE_LEFT, Write(0)), Commit(0))
    ensures HasOwner(Apply(ONE_LEFT, Write(0))) && !HasOwner(Apply(Apply(ONE_LEFT, Write(0)), Commit(0)))
  {
    WriteAndCommit(BOTH_PASSED, 3, MANAGER);
    assert BOTH_PASSED.txs - {3} == ONE_LEFT.txs && BOTH_PASSED.rows[1 := MANAGER] == ONE_LEFT.rows;
    assert Signs(ONE_LEFT, 0) && Signs(Apply(ONE_LEFT, Write(0)), 0);
  }

  /** Two changes of one business do pass the owners' lock side by side, each counting the other's owner: when an
      owner stops being one and becomes one again while the first waits, their snapshots share nobody. */
  lemma TwoPassTheLock()
    ensures Init(AT_FIRST) && Reaches(AT_FIRST, BOTH_PASSED)
    ensures BOTH_PASSED.txs[0].PastTheRead() && BOTH_PASSED.txs[3].PastTheRead()
    ensures TakesOne(BOTH_PASSED, BOTH_PASSED.txs[0]) && TakesOne(BOTH_PASSED, BOTH_PASSED.txs[3])
  {
    TheFirstWaits();
    TheSecondWaits();
    BothPass();
    hide Reaches;
    var s := Two(3, MANAGER, OWNER, map[0 := FIRST]);
    Then(AT_FIRST, WAITING, s);
    Then(AT_FIRST, s, TWO_OWNERS);
    Then(AT_FIRST, TWO_OWNERS, ONE_PASSED);
    Then(AT_FIRST, ONE_PASSED, BOTH_PASSED);
  }

  /** A run of `Change`s and nothing else that loses the last owner: the rule does not hold in its own scope. */
  lemma ChangesAloneCanLose() returns (states: seq<State>, actions: seq<Action>)
    ensures IsRun(states, actions) && |actions| > 0 && actions[|actions| - 1].Commit?
    ensures forall i :: 0 <= i < |actions| ==> OfChange(actions[i])
    ensures HasOwner(states[|actions| - 1]) && !HasOwner(states[|actions|])
  {
    TwoPassTheLock();
    BothStepDown();
    var before := Apply(ONE_LEFT, Write(0));
    OneStep(ONE_LEFT, Write(0), before);
    Then(AT_FIRST, BOTH_PASSED, ONE_LEFT);
    Then(AT_FIRST, ONE_LEFT, before);
    states, actions := CommitLast(AT_FIRST, before, Commit(0));
  }

  lemma CommitLast(s: State, m: State, a: Action) returns (states: seq<State>, actions: seq<Action>)
    requires Init(s) && Reaches(s, m) && Enabled(m, a) && a.Commit?
    ensures IsRun(states, actions) && |actions| > 0 && actions[|actions| - 1] == a
    ensures forall i :: 0 <= i < |actions| ==> OfChange(actions[i])
    ensures states[|actions| - 1] == m && states[|actions|] == Apply(m, a)
  {
    var p: seq<State>, ps: seq<Action> :| Leads(s, p, ps, m);
    hide Enabled, Apply, Init;
    states, actions := p + [Apply(m, a)], ps + [a];
    forall i | 0 <= i < |actions|
      ensures Enabled(states[i], actions[i]) && states[i + 1] == Apply(states[i], actions[i]) && OfChange(actions[i])
    {
      if i < |ps| { assert actions[i] == ps[i] && states[i] == p[i] && states[i + 1] == p[i + 1]; }
    }
  }
}
