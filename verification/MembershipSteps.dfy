/** What a `Change` may do and what it may not (internal/adminauth/membership.go), in every run: the rules its commit
    meets, the change that meets nobody, and the order in which the owners' lock takes its rows.
 */
module MembershipSteps {
  import opened Memberships
  import opened MembershipRaces

  // ------------------------------------------------------------- the rules

  /** Past its check, a change has passed it. */
  ghost predicate ChecksPassed(s: State) {
    forall t :: t in s.txs && s.txs[t].PastTheRead() ==>
      && !(s.txs[t].target == s.txs[t].actor && (s.txs[t].act.Disable? || s.txs[t].act.Enable?))
      && !((s.txs[t].act.Disable? || s.txs[t].act.MakeManager?) && s.txs[t].target in s.txs[t].live && |s.txs[t].live| <= 1)
  }

  lemma ActorPassed(s: State, a: Action)
    requires Inv(s) && Enabled(s, a) && ChecksPassed(s) && Actor(s, a) in Apply(s, a).txs
    ensures var tx := Apply(s, a).txs[Actor(s, a)];
            tx.PastTheRead() ==>
              && !(tx.target == tx.actor && (tx.act.Disable? || tx.act.Enable?))
              && !((tx.act.Disable? || tx.act.MakeManager?) && tx.target in tx.live && |tx.live| <= 1)
  {
    hide Inv, Free, ResolverAnswers, SignInOwners, ActiveOwners, LiveOf, End, Changed;
    IdsAreFresh(s);
  }

  lemma ChecksPassedStep(s: State, a: Action)
    requires Inv(s) && Enabled(s, a) && ChecksPassed(s)
    ensures ChecksPassed(Apply(s, a))
  {
    hide Inv, Enabled, Apply, Actor;
    OthersStep(s, a);
    if Actor(s, a) in Apply(s, a).txs { ActorPassed(s, a); }
  }

  lemma {:induction false} RunChecksPassed(states: seq<State>, actions: seq<Action>, n: nat)
    requires IsRun(states, actions) && n < |states|
    ensures ChecksPassed(states[n])
  {
    hide Inv, IsPath, Enabled, Apply;
    if n > 0 {
      RunChecksPassed(states, actions, n - 1);
      OneStepBack(states, actions, n);
      ChecksPassedStep(states[n - 1], actions[n - 1]);
    }
  }

  /** The rules of every commit of a change, in every run: its actor is an active owner at that moment, nobody
      disables or enables themselves, and a change that takes away an owner it counted had counted two. */
  lemma CommitsMeetTheRules(states: seq<State>, actions: seq<Action>, n: nat)
    requires IsRun(states, actions) && n < |actions| && actions[n].Commit?
    ensures actions[n].tx in states[n].txs
    ensures var s, tx := states[n], states[n].txs[actions[n].tx];
            && tx.actor in s.rows && s.rows[tx.actor].owner && s.rows[tx.actor].active && tx.target in s.rows
            && (tx.act.Disable? || tx.act.Enable? ==> tx.target != tx.actor)
            && (tx.act.Disable? || tx.act.MakeManager? ==> tx.target !in tx.live || |tx.live| >= 2)
  {
    hide IsRun, IsPath, Enabled, Apply, Inv;
    OneStepOn(states, actions, n);
    RunChecksPassed(states, actions, n);
    CommitIsPastTheRead(states[n], actions[n].tx);
  }

  lemma CommitIsPastTheRead(s: State, t: TxId)
    requires Inv(s) && Enabled(s, Commit(t))
    ensures t in s.txs && s.txs[t].PastTheRead() && s.txs[t].target in s.rows
    ensures s.txs[t].actor in s.rows && s.rows[s.txs[t].actor].ActiveOwner()
  {
    assert TxFits(s, s.txs[t]);
    hide OneHolder, SessionsFit, OpeningsFit;
  }

  // ------------------------------------------------------- a change that meets nobody

  /** The row an act makes of its target's, and what it asks of it: a disable and a role change an active
      membership, an enable a disabled one, a role change the other role. */
  ghost predicate Makes(act: Act, row: Row, row': Row) {
    match act
    case Disable => row.active && row' == Row(row.owner, false, row.refused)
    case Enable => !row.active && row' == Row(row.owner, true, row.refused)
    case MakeOwner => row.active && !row.owner && row' == Row(true, true, row.refused)
    case MakeManager => row.active && row.owner && row' == Row(false, true, row.refused)
  }

  /** Some other owner can sign in. */
  ghost predicate AnotherSignsIn(s: State, m: MemberId) {
    exists o :: o in s.rows && o != m && s.rows[o].owner && s.rows[o].active && !s.rows[o].refused
  }

  lemma {:induction false} SubsetOf(xs: set<MemberId>, n: nat) returns (ys: set<MemberId>)
    requires n <= |xs|
    ensures ys <= xs && |ys| == n
    decreases |xs|
  {
    if n == |xs| {
      ys := xs;
    } else {
      var x :| x in xs;
      ys := SubsetOf(xs - {x}, n);
    }
  }

  lemma TwoOrMore(xs: set<MemberId>, a: MemberId, b: MemberId)
    requires a in xs && b in xs && a != b
    ensures |xs| >= 2
  {
    SubsetSize({a, b}, xs);
  }

  /** What the resolver may answer when a change that takes an owner away has another to count. */
  lemma Answer(s: State, target: MemberId, takes: bool) returns (live: set<MemberId>)
    requires takes && target in SignInOwners(s) ==> AnotherSignsIn(s, target)
    ensures ResolverAnswers(s, live) && !(takes && target in live && |live| <= 1)
  {
    if |SignInOwners(s)| <= 200 {
      live := SignInOwners(s);
      if takes && target in live {
        var o :| o in s.rows && o != target && s.rows[o].SignsIn();
        assert o in live;
        hide SignInOwners;
        TwoOrMore(live, target, o);
      }
    } else {
      hide SignInOwners;
      live := SubsetOf(SignInOwners(s), 200);
    }
  }

  lemma TargetAndCheck(s: State, t: TxId, live: set<MemberId>)
    requires t in s.txs && s.txs[t].stage == Locking({}) && Free(s, s.txs[t].target, t) && s.txs[t].actor in s.txs[t].owners
    requires s.txs[t].target in s.rows && ResolverAnswers(s, live)
    requires s.txs[t].act.Disable? || s.txs[t].act.Enable? ==> s.txs[t].target != s.txs[t].actor
    requires !((s.txs[t].act.Disable? || s.txs[t].act.MakeManager?) && s.txs[t].target in live && |live| <= 1)
    ensures Reaches(s, Set(s, t, s.txs[t].(stage := Decided, locked := s.txs[t].locked + {s.txs[t].target}, live := live)))
  {
    hide Reaches, SignInOwners;
    var tx := s.txs[t];
    var s1 := Apply(s, LockTarget(t));
    OneStep(s, LockTarget(t), s1);
    SameOwners(s, s1);
    var a := ReadOwners(t, live);
    var s2 := Apply(s1, a);
    OneStep(s1, a, s2);
    assert s2.txs == Set(s, t, tx.(stage := Decided, locked := tx.locked + {tx.target}, live := live)).txs;
    Then(s, s1, s2);
  }

  /** The sessions that a change of this kind ends. */
  ghost function Ended(s: State, act: Act, target: MemberId): set<SessionId> {
    if act.Disable? || act.Enable? then LiveOf(s, target) else {}
  }

  lemma ToTheCommit(s: State, t: TxId, row: Row)
    requires t in s.txs && s.txs[t].stage.Decided? && s.txs[t].revoked == {} && s.txs[t].target in s.rows
    requires Makes(s.txs[t].act, s.rows[s.txs[t].target], row)
    ensures Reaches(s, s.(rows := s.rows[s.txs[t].target := row],
                          sessions := End(s.sessions, Ended(s, s.txs[t].act, s.txs[t].target)), txs := s.txs - {t}))
  {
    hide Reaches, LiveOf, End;
    var tx := s.txs[t];
    var s1 := Apply(s, Write(t));
    OneStep(s, Write(t), s1);
    SameLive(s, s1, tx.target);
    var s2 := if tx.act.Disable? || tx.act.Enable? then Apply(s1, RevokeAll(t)) else s1;
    if tx.act.Disable? || tx.act.Enable? {
      OneStep(s1, RevokeAll(t), s2);
      Then(s, s1, s2);
    }
    var s3 := Apply(s2, Commit(t));
    OneStep(s2, Commit(t), s3);
    Then(s, s2, s3);
    assert s3.txs == s.txs - {t};
    assert s3.sessions == End(s.sessions, Ended(s, tx.act, tx.target));
  }

  lemma SameLive(s: State, s': State, m: MemberId)
    requires s'.sessions == s.sessions
    ensures LiveOf(s', m) == LiveOf(s, m)
  {
  }

  /** The change every rule allows goes through when it meets nobody, whoever else is in flight: its actor an active
      owner (a refused one too), nobody touching their own status, another owner who can sign in left if it
      takes one away. It makes exactly its act of the target's row, and ends the target's sessions exactly if
      it moves the status. */
  lemma AChangeThatMeetsNobody(s: State, actor: MemberId, target: MemberId, act: Act, row: Row)
    requires s.next !in s.txs && Quiet(s, s.next)
    requires actor in s.rows && s.rows[actor].owner && s.rows[actor].active
    requires target in s.rows && Makes(act, s.rows[target], row)
    requires act.Disable? || act.Enable? ==> target != actor
    requires (act.Disable? || act.MakeManager?) && target in SignInOwners(s) ==> AnotherSignsIn(s, target)
    ensures Reaches(s, s.(next := s.next + 1, rows := s.rows[target := row],
                          sessions := End(s.sessions, Ended(s, act, target))))
  {
    hide ActiveOwners, SignInOwners, Quiet, Free, Reaches, LiveOf, End, Makes, AnotherSignsIn, ResolverAnswers;
    var t := s.next;
    var s2 := AllLocked(s, actor, target, act);
    LocksAlone(s, actor, target, act);
    IsActiveOwner(s, actor);
    SameOwners(s, s2);
    SameOthers(s, s2, target);
    NobodyInTheWay(s, t, s2.txs[t], s2);
    var live := Answer(s2, target, act.Disable? || act.MakeManager?);
    TargetAndCheck(s2, t, live);
    var s3 := Set(s2, t, s2.txs[t].(stage := Decided, locked := s2.txs[t].locked + {target}, live := live));
    ToTheCommit(s3, t, row);
    SameLive(s, s3, target);
    var s4 := s3.(rows := s3.rows[target := row], sessions := End(s3.sessions, Ended(s3, act, target)), txs := s3.txs - {t});
    assert s4.txs == s.txs;
    Then(s, s2, s3);
    Then(s, s3, s4);
  }

  lemma IsActiveOwner(s: State, m: MemberId)
    requires m in s.rows && s.rows[m].owner && s.rows[m].active
    ensures m in ActiveOwners(s)
  {
  }

  lemma SameOthers(s: State, s': State, m: MemberId)
    requires s'.rows == s.rows
    ensures AnotherSignsIn(s', m) == AnotherSignsIn(s, m)
  {
  }

  // ------------------------------------------------------------------ sessions

  /** Nobody holds the membership. */
  ghost predicate Unheld(s: State, m: MemberId) {
    (forall t :: t in s.txs ==> m !in s.txs[t].locked) && forall o :: o in s.openings ==> s.openings[o].member != m
  }

  /** An opening of a membership that nobody holds gives a session exactly if the membership is active and not
      refused at that moment; else no session can come of it. */
  lemma AnOpeningGivesASession(s: State, m: MemberId)
    requires m in s.rows && Unheld(s, m)
    ensures Enabled(s, Open(m))
    ensures var s' := Apply(s, Open(m));
            && s'.rows == s.rows && s'.sessions == s.sessions && s'.txs == s.txs
            && (Enabled(s', OpenCommit(s.next)) <==> s.rows[m].active && !s.rows[m].refused)
            && (s.rows[m].active && !s.rows[m].refused ==>
                  && Apply(s', OpenCommit(s.next)).sessions == s.sessions[s.next := Session(m, true)]
                  && Apply(s', OpenCommit(s.next)).rows == s.rows)
  {
  }

  /** The person's own steps: whoever holds nothing of theirs is in the way, they refuse, and may come back; the
      refusal takes no role away. */
  lemma APersonMayRefuseAndComeBack(s: State, m: MemberId, alsoDisable: bool)
    requires m in s.rows && !s.rows[m].refused && Unheld(s, m)
    ensures Enabled(s, Refuse(m, alsoDisable))
    ensures var s' := Apply(s, Refuse(m, alsoDisable));
            && s'.rows == s.rows[m := Row(s.rows[m].owner, s.rows[m].active && !alsoDisable, true)]
            && Enabled(s', Relink(m))
            && Apply(s', Relink(m)).rows == s.rows[m := Row(s.rows[m].owner, s.rows[m].active && !alsoDisable, false)]
  {
    hide LiveOf, End;
  }

  // ------------------------------------------------------------ the order of the locks

  /** A lock statement holds only rows below those it has still to lock. */
  ghost predicate InOrder(s: State) {
    forall t :: t in s.txs ==>
      && (s.txs[t].stage.Begun? ==> s.txs[t].locked == {})
      && (s.txs[t].stage.Locking? ==> forall l, x :: l in s.txs[t].locked && x in s.txs[t].stage.todo ==> l < x)
  }

  lemma ActorInOrder(s: State, a: Action)
    requires Inv(s) && Enabled(s, a) && InOrder(s) && Actor(s, a) in Apply(s, a).txs
    ensures var tx := Apply(s, a).txs[Actor(s, a)];
            && (tx.stage.Begun? ==> tx.locked == {})
            && (tx.stage.Locking? ==> forall l, x :: l in tx.locked && x in tx.stage.todo ==> l < x)
  {
    hide Inv, Free, ResolverAnswers, SignInOwners, ActiveOwners, LiveOf, End, Changed;
    IdsAreFresh(s);
  }

  lemma InOrderStep(s: State, a: Action)
    requires Inv(s) && Enabled(s, a) && InOrder(s)
    ensures InOrder(Apply(s, a))
  {
    hide Inv, Enabled, Apply, Actor;
    OthersStep(s, a);
    if Actor(s, a) in Apply(s, a).txs { ActorInOrder(s, a); }
  }

  lemma {:induction false} RunInOrder(states: seq<State>, actions: seq<Action>, n: nat)
    requires IsRun(states, actions) && n < |states|
    ensures InOrder(states[n])
  {
    hide Inv, IsPath, Enabled, Apply;
    if n > 0 {
      RunInOrder(states, actions, n - 1);
      OneStepBack(states, actions, n);
      InOrderStep(states[n - 1], actions[n - 1]);
    }
  }

  /** The next row of `t`'s lock statement is `m`, and `u` holds it. */
  ghost predicate WaitsOn(s: State, t: TxId, u: TxId, m: MemberId) {
    && t in s.txs && u in s.txs && s.txs[t].stage.Locking? && m in s.txs[t].stage.todo
    && (forall o :: o in s.txs[t].stage.todo ==> m <= o) && m in s.txs[u].locked
  }

  lemma {:induction false} ChainAscends(s: State, ts: seq<TxId>, ms: seq<MemberId>, k: nat)
    requires InOrder(s) && |ts| == |ms| + 1 && k < |ms|
    requires forall i :: 0 <= i < |ms| ==> WaitsOn(s, ts[i], ts[i + 1], ms[i])
    ensures ms[0] <= ms[k]
  {
    if k > 0 {
      ChainAscends(s, ts, ms, k - 1);
      assert WaitsOn(s, ts[k - 1], ts[k], ms[k - 1]) && WaitsOn(s, ts[k], ts[k + 1], ms[k]);
    }
  }

  /** One order for every owners' lock, so no cycle among them: along any chain of lock statements each waiting for
      a row the next one holds, the rows ascend, and the last is not the first. */
  lemma NoCycleOfOwnersLocks(states: seq<State>, actions: seq<Action>, n: nat, ts: seq<TxId>, ms: seq<MemberId>)
    requires IsRun(states, actions) && n < |states| && |ms| > 0 && |ts| == |ms| + 1
    requires forall i :: 0 <= i < |ms| ==> WaitsOn(states[n], ts[i], ts[i + 1], ms[i])
    ensures ts[0] != ts[|ms|]
  {
    RunInOrder(states, actions, n);
    hide IsRun, IsPath;
    ChainAscends(states[n], ts, ms, |ms| - 1);
    assert WaitsOn(states[n], ts[0], ts[1], ms[0]) && WaitsOn(states[n], ts[|ms| - 1], ts[|ms|], ms[|ms| - 1]);
  }

  // The target's lock comes after, in no order: owner 1 acts on manager 0 (change 0), who is made an owner while
  // change 0 waits and then begins a change of their own (change 2).
  const OUT_OF_ORDER := Tx(1, 0, Disable, Locking({1}), {1}, {}, {}, {}, {})
  const HOLDS_ONE := Tx(1, 0, Disable, Locking({}), {1}, {1}, {1}, {}, {})
  const WANTS_BOTH := Tx(0, 1, MakeManager, Locking({0, 1}), {0, 1}, {}, {}, {}, {})
  const HOLDS_NOUGHT := Tx(0, 1, MakeManager, Locking({1}), {0, 1}, {0}, {0}, {}, {})

  const ONE_OWNER := Two(0, MANAGER, OWNER, map[])
  const FIRST_WAITS := Two(1, MANAGER, OWNER, map[0 := OUT_OF_ORDER])
  const PROMOTED := Two(2, OWNER, OWNER, map[0 := OUT_OF_ORDER])
  const BOTH_WAIT := Two(3, OWNER, OWNER, map[0 := OUT_OF_ORDER, 2 := WANTS_BOTH])
  const FIRST_HOLDS := Two(3, OWNER, OWNER, map[0 := HOLDS_ONE, 2 := WANTS_BOTH])
  const CYCLE := Two(3, OWNER, OWNER, map[0 := HOLDS_ONE, 2 := HOLDS_NOUGHT])

  lemma ToBothWaiting()
    ensures Reaches(ONE_OWNER, BOTH_WAIT)
  {
    assert ActiveOwners(ONE_OWNER) == {1} && ActiveOwners(FIRST_WAITS) == {1} && SignInOwners(FIRST_WAITS) == {1};
    Begin(ONE_OWNER, 1, 0, Disable, {1});
    assert FIRST_WAITS.txs == ONE_OWNER.txs[0 := OUT_OF_ORDER];
    ChangesAlone(FIRST_WAITS, 1, 0, MakeOwner, OWNER);
    assert PROMOTED.rows == FIRST_WAITS.rows[0 := OWNER];
    assert ActiveOwners(PROMOTED) == {0, 1};
    Begin(PROMOTED, 0, 1, MakeManager, {0, 1});
    assert BOTH_WAIT.txs == PROMOTED.txs[2 := WANTS_BOTH];
    hide Reaches;
    Then(ONE_OWNER, FIRST_WAITS, PROMOTED);
    Then(ONE_OWNER, PROMOTED, BOTH_WAIT);
  }

  lemma ToTheCycle()
    ensures Reaches(BOTH_WAIT, CYCLE)
  {
    assert {} + {1} == {1} && {1} - {1} == {} && {0, 1} - {0} == {1} && {} + {0} == {0};
    assert Apply(BOTH_WAIT, LockOwner(0, 1)).txs == FIRST_HOLDS.txs;
    OneStep(BOTH_WAIT, LockOwner(0, 1), FIRST_HOLDS);
    assert Apply(FIRST_HOLDS, LockOwner(2, 0)).txs == CYCLE.txs;
    OneStep(FIRST_HOLDS, LockOwner(2, 0), CYCLE);
    hide Reaches;
    Then(BOTH_WAIT, FIRST_HOLDS, CYCLE);
  }

  /** With the target's lock a cycle does form, of changes alone: each of the two holds the row the other's next
      statement wants, and neither can do anything but be rolled back. */
  lemma ATargetsLockClosesACycle()
    ensures Init(ONE_OWNER) && Reaches(ONE_OWNER, CYCLE)
    ensures WaitsOn(CYCLE, 2, 0, 1) && CYCLE.txs[0].stage == Locking({}) && CYCLE.txs[0].target in CYCLE.txs[2].locked
    ensures forall a :: Enabled(CYCLE, a) && (Actor(CYCLE, a) == 0 || Actor(CYCLE, a) == 2) ==> a.RollBack?
  {
    ToBothWaiting();
    ToTheCycle();
    Then(ONE_OWNER, BOTH_WAIT, CYCLE);
    hide Reaches, ActiveOwners, SignInOwners, ResolverAnswers, LiveOf, End, Changed;
  }
}
