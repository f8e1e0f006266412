/** One live recovery link per account (internal/adminauth/resetrequest.go, db/queries/passwordresets.sql):
    any number of requests, each a transaction of its own, interleaved statement by statement with
    consumption, withdrawal and the clock.

    An account is an administrator row or, on the per-identity path (identity_open_reset), an identity: the
    two take the same steps under lock keys of their own.
 */
module ResetLinks {

  type LinkId = nat
  type TxId = nat

  datatype Account = OfRow(row: nat) | OfIdentity(identity: nat)

  datatype Link = Link(account: Account, expires: int, used: bool, cancelled: bool)

  datatype Stage =
    | Waiting                                          // for the account's advisory lock
    | Locked                                           // next: read the live links
    | Keeping(link: LinkId)                            // one was found: nothing is written
    | Clear                                            // none was found: next: CreatePasswordReset
    | Minted(link: LinkId, expires: int, retired: set<LinkId>) // written, not yet committed

  datatype Request = Request(account: Account, stage: Stage)

  /** `open`: the accounts that may be given a link (an active row, an existing identity). */
  datatype State = State(
    clock: int, next: nat, open: set<Account>, links: map<LinkId, Link>, txs: map<TxId, Request>)

  datatype Action =
    | Begin(account: Account)
    | Lock(tx: TxId)
    | Read(tx: TxId)
    | Create(tx: TxId, expires: int)
    | Commit(tx: TxId)
    | RollBack(tx: TxId)                               // an error, a cancelled request, a crash
    | Tick(ticks: nat)
    | Withdraw(link: LinkId)
    | Spend(link: LinkId, others: set<LinkId>)         // and what that consumption cancels
    | SetOpen(account: Account, yes: bool)

  predicate LiveAt(l: Link, clock: int) { !l.used && !l.cancelled && clock < l.expires }

  ghost function LiveOf(s: State, a: Account): set<LinkId> {
    set x | x in s.links && s.links[x].account == a && LiveAt(s.links[x], s.clock)
  }

  /** ListLivePasswordResetsForAdmin is ordered newest first; ids are handed out in order. */
  ghost predicate Newest(live: set<LinkId>, x: LinkId) { x in live && forall y :: y in live ==> y <= x }

  function Cancel(links: map<LinkId, Link>, which: set<LinkId>): map<LinkId, Link> {
    map x | x in links :: if x in which && !links[x].used then links[x].(cancelled := true) else links[x]
  }

  predicate IsRequests(a: Action) {
    a.Begin? || a.Lock? || a.Read? || a.Create? || a.Commit? || a.RollBack?
  }

  ghost predicate Enabled(s: State, a: Action) {
    match a {
      case Lock(t) =>
        && t in s.txs && s.txs[t].stage.Waiting?
        && forall u :: u in s.txs && u != t && s.txs[u].account == s.txs[t].account ==> s.txs[u].stage.Waiting?
      case Read(t) => t in s.txs && s.txs[t].stage.Locked?
      case Create(t, _) => t in s.txs && s.txs[t].stage.Clear? && s.txs[t].account in s.open
      case Commit(t) => t in s.txs && (s.txs[t].stage.Keeping? || s.txs[t].stage.Minted?)
      case RollBack(t) => t in s.txs
      case Withdraw(x) => x in s.links
      case Spend(x, others) => x in s.links && LiveAt(s.links[x], s.clock) && x !in others
      case _ => true
    }
  }

  function WithStage(s: State, t: TxId, stage: Stage): State
    requires t in s.txs
  {
    s.(txs := s.txs[t := s.txs[t].(stage := stage)])
  }

  ghost function Seen(s: State, a: Account): Stage {
    if x :| Newest(LiveOf(s, a), x) then Keeping(x) else Clear
  }

  ghost function Apply(s: State, a: Action): State
    requires Enabled(s, a)
  {
    match a {
      case Begin(account) => s.(next := s.next + 1, txs := s.txs[s.next := Request(account, Waiting)])
      case Lock(t) => WithStage(s, t, Locked)
      case Read(t) => WithStage(s, t, Seen(s, s.txs[t].account))
      case Create(t, expires) =>
        WithStage(s, t, Minted(s.next, expires, LiveOf(s, s.txs[t].account))).(next := s.next + 1)
      case Commit(t) =>
        var r := s.txs[t];
        if r.stage.Keeping? then s.(txs := s.txs - {t})
        else s.(txs := s.txs - {t},
                links := Cancel(s.links, r.stage.retired)[r.stage.link := Link(r.account, r.stage.expires, false, false)])
      case RollBack(t) => s.(txs := s.txs - {t})
      case Tick(ticks) => s.(clock := s.clock + ticks)
      case Withdraw(x) => s.(links := Cancel(s.links, {x}))
      case Spend(x, others) => s.(links := Cancel(s.links, others)[x := s.links[x].(used := true)])
      case SetOpen(account, yes) => s.(open := if yes then s.open + {account} else s.open - {account})
    }
  }

  ghost predicate IsPath(states: seq<State>, actions: seq<Action>) {
    && |states| == |actions| + 1
    && forall i :: 0 <= i < |actions| ==> Enabled(states[i], actions[i]) && states[i + 1] == Apply(states[i], actions[i])
  }

  ghost predicate AtMostOneLive(s: State) {
    forall x, y ::
      (&& x in s.links && y in s.links && s.links[x].account == s.links[y].account
       && LiveAt(s.links[x], s.clock) && LiveAt(s.links[y], s.clock)) ==> x == y
  }

  ghost predicate Init(s: State) {
    s.txs == map[] && AtMostOneLive(s) && forall x :: x in s.links ==> x < s.next
  }

  ghost predicate IsRun(states: seq<State>, actions: seq<Action>) { IsPath(states, actions) && Init(states[0]) }

  // ------------------------------------------------------------- the invariant

  ghost predicate Ids(s: State) {
    && (forall x :: x in s.links ==> x < s.next)
    && (forall t :: t in s.txs ==> t < s.next)
    && (forall t :: t in s.txs && s.txs[t].stage.Minted? ==> s.txs[t].stage.link < s.next && s.txs[t].stage.link !in s.links)
    && (forall t, u ::
          (&& t in s.txs && u in s.txs && s.txs[t].stage.Minted? && s.txs[u].stage.Minted?
           && s.txs[t].stage.link == s.txs[u].stage.link) ==> t == u)
  }

  /** The advisory lock: one request an account past it. */
  ghost predicate OneHolder(s: State) {
    forall t, u ::
      (&& t in s.txs && u in s.txs && s.txs[t].account == s.txs[u].account
       && !s.txs[t].stage.Waiting? && !s.txs[u].stage.Waiting?) ==> t == u
  }

  /** What the holder found is still so: nobody else gives the account a link. */
  ghost predicate ClearMeansClear(s: State) {
    forall t, x ::
      (&& t in s.txs && (s.txs[t].stage.Clear? || s.txs[t].stage.Minted?)
       && x in s.links && s.links[x].account == s.txs[t].account) ==> !LiveAt(s.links[x], s.clock)
  }

  ghost predicate NothingRetired(s: State) {
    forall t :: t in s.txs && s.txs[t].stage.Minted? ==> s.txs[t].stage.retired == {}
  }

  ghost predicate Inv(s: State) { Ids(s) && OneHolder(s) && ClearMeansClear(s) && NothingRetired(s) && AtMostOneLive(s) }

  /** Whatever a step does, a link that is not live before it is not live after it, and the one link a step
      can add is the one its request minted. */
  lemma LinksStep(s: State, a: Action)
    requires Inv(s) && Enabled(s, a)
    ensures s.clock <= Apply(s, a).clock
    ensures forall x :: x in s.links ==> x in Apply(s, a).links && Apply(s, a).links[x].account == s.links[x].account
    ensures forall x :: x in s.links && LiveAt(Apply(s, a).links[x], Apply(s, a).clock) ==> LiveAt(s.links[x], s.clock)
    ensures forall x :: x in Apply(s, a).links && x !in s.links ==>
              a.Commit? && s.txs[a.tx].stage.Minted? && x == s.txs[a.tx].stage.link
              && Apply(s, a).links[x].account == s.txs[a.tx].account
  {
    hide LiveOf, Seen, OneHolder, NothingRetired, AtMostOneLive;
  }

  predicate Moves(a: Action) { a.Lock? || a.Read? || a.Create? }

  /** What a step does to the requests. */
  lemma TxsStep(s: State, a: Action)
    requires Inv(s) && Enabled(s, a)
    ensures forall t :: t in Apply(s, a).txs && t in s.txs ==> Apply(s, a).txs[t].account == s.txs[t].account
    ensures forall t :: t in Apply(s, a).txs && t !in s.txs ==> Apply(s, a).txs[t].stage.Waiting?
    ensures forall t :: t in Apply(s, a).txs && t in s.txs && !(Moves(a) && a.tx == t) ==> Apply(s, a).txs[t] == s.txs[t]
  {
    hide LiveOf, Seen, OneHolder, NothingRetired, AtMostOneLive, LiveAt, Cancel;
  }

  lemma KeepsIds(s: State, a: Action)
    requires Inv(s) && Enabled(s, a)
    ensures Ids(Apply(s, a))
  {
    hide LiveOf, Seen, OneHolder, NothingRetired, AtMostOneLive, LiveAt, ClearMeansClear;
    if a.Read? { SeenIsTrue(s, s.txs[a.tx].account); }
  }

  lemma SeenIsTrue(s: State, a: Account)
    ensures Seen(s, a).Clear? || Seen(s, a).Keeping?
    ensures Seen(s, a).Keeping? ==> Newest(LiveOf(s, a), Seen(s, a).link)
    ensures Seen(s, a).Clear? ==> LiveOf(s, a) == {}
  {
    var live := LiveOf(s, a);
    if live != {} {
      var x := Greatest(live);
      assert Newest(live, x);
    }
  }

  lemma {:induction false} Greatest(xs: set<LinkId>) returns (x: LinkId)
    requires xs != {}
    ensures x in xs && forall y :: y in xs ==> y <= x
    decreases xs
  {
    var first :| first in xs;
    x := first;
    if xs != {first} {
      var z := Greatest(xs - {first});
      assert forall y :: y in xs ==> y == first || y in xs - {first};
      if first < z { x := z; }
    }
  }

  /** Only the lock ends a wait, and it is taken when everybody else waits for that account. */
  lemma HoldsByLock(s: State, a: Action, t: TxId)
    requires Enabled(s, a) && t in s.txs && s.txs[t].stage.Waiting? && t in Apply(s, a).txs && !Apply(s, a).txs[t].stage.Waiting?
    requires s.next !in s.txs
    ensures forall u :: u in s.txs && u != t && s.txs[u].account == s.txs[t].account ==> s.txs[u].stage.Waiting?
    ensures a == Lock(t)
  {
    hide LiveOf, Seen, LiveAt, Cancel;
  }

  lemma NextIsFresh(s: State)
    requires Inv(s)
    ensures s.next !in s.txs && forall x :: x in s.links ==> x < s.next
  {
    hide OneHolder, ClearMeansClear, NothingRetired, AtMostOneLive;
  }

  lemma KeepsHolder(s: State, a: Action)
    requires Inv(s) && Enabled(s, a)
    ensures OneHolder(Apply(s, a))
  {
    hide LiveOf, Seen, NothingRetired, AtMostOneLive, LiveAt, ClearMeansClear, Ids, Cancel, Apply, Enabled, Moves;
    TxsStep(s, a);
    NextIsFresh(s);
    var s' := Apply(s, a);
    forall t, u | t in s'.txs && u in s'.txs && s'.txs[t].account == s'.txs[u].account
                  && !s'.txs[t].stage.Waiting? && !s'.txs[u].stage.Waiting?
      ensures t == u
    {
      assert t in s.txs && u in s.txs;
      if s.txs[t].stage.Waiting? {
        HoldsByLock(s, a, t);
        if s.txs[u].stage.Waiting? { HoldsByLock(s, a, u); }
      } else if s.txs[u].stage.Waiting? {
        HoldsByLock(s, a, u);
      }
    }
  }

  lemma KeepsClear(s: State, a: Action)
    requires Inv(s) && Enabled(s, a)
    ensures ClearMeansClear(Apply(s, a))
  {
    LinksStep(s, a);
    TxsStep(s, a);
    var s' := Apply(s, a);
    if a.Read? { SeenIsTrue(s, s.txs[a.tx].account); }
    hide NothingRetired, AtMostOneLive, Ids, Seen, Cancel, LiveAt;
    forall t, x | t in s'.txs && (s'.txs[t].stage.Clear? || s'.txs[t].stage.Minted?)
                  && x in s'.links && s'.links[x].account == s'.txs[t].account
      ensures !LiveAt(s'.links[x], s'.clock)
    {
      if x in s.links && a.Read? && a.tx == t { assert x !in LiveOf(s, s.txs[t].account) <==> !LiveAt(s.links[x], s.clock); }
    }
  }

  lemma KeepsNothingRetired(s: State, a: Action)
    requires Inv(s) && Enabled(s, a)
    ensures NothingRetired(Apply(s, a))
  {
    TxsStep(s, a);
    if a.Create? {
      assert LiveOf(s, s.txs[a.tx].account) == {};
    } else if a.Read? {
      SeenIsTrue(s, s.txs[a.tx].account);
    }
    hide AtMostOneLive, Ids, Seen, Cancel, LiveAt, LiveOf, ClearMeansClear, OneHolder;
  }

  lemma KeepsOneLive(s: State, a: Action)
    requires Inv(s) && Enabled(s, a)
    ensures AtMostOneLive(Apply(s, a))
  {
    LinksStep(s, a);
    hide NothingRetired, Ids, Seen, Cancel, LiveAt, LiveOf, OneHolder, Apply;
  }

  lemma {:induction false} PathKeepsInv(states: seq<State>, actions: seq<Action>, n: nat)
    requires IsPath(states, actions) && Inv(states[0]) && n < |states|
    ensures Inv(states[n])
  {
    if n > 0 {
      PathKeepsInv(states, actions, n - 1);
      var s, a := states[n - 1], actions[n - 1];
      KeepsIds(s, a);
      KeepsHolder(s, a);
      KeepsClear(s, a);
      KeepsNothingRetired(s, a);
      KeepsOneLive(s, a);
    }
  }

  lemma InitIsInv(s: State)
    requires Init(s)
    ensures Inv(s)
  {
  }

  // ------------------------------------------------------------------ theorems

  /** One live link per account, in every state of every run. */
  lemma OneLiveLink(states: seq<State>, actions: seq<Action>, n: nat, x: LinkId, y: LinkId)
    requires IsRun(states, actions) && n < |states|
    requires x in states[n].links && y in states[n].links && states[n].links[x].account == states[n].links[y].account
    requires !states[n].links[x].used && !states[n].links[x].cancelled && states[n].clock < states[n].links[x].expires
    requires !states[n].links[y].used && !states[n].links[y].cancelled && states[n].clock < states[n].links[y].expires
    ensures x == y
  {
    InitIsInv(states[0]);
    PathKeepsInv(states, actions, n);
  }

  /** The account holds the link and may use it: it is neither used nor withdrawn, and its time is not over. */
  ghost predicate Held(s: State, x: LinkId, a: Account) {
    x in s.links && s.links[x].account == a && !s.links[x].used && !s.links[x].cancelled && s.clock < s.links[x].expires
  }

  lemma LinkMoves(s: State, a: Action, x: LinkId)
    requires Inv(s) && Enabled(s, a) && x in s.links
    ensures x in Apply(s, a).links
    ensures var l, l' := s.links[x], Apply(s, a).links[x];
            && l'.account == l.account && l'.expires == l.expires
            && (l'.used != l.used <==> a.Spend? && a.link == x)
            && (l'.cancelled != l.cancelled <==>
                  !l.used && !l.cancelled && (a == Withdraw(x) || (a.Spend? && x in a.others)))
            && (a.Spend? && a.link == x ==> l'.used)
  {
    hide LiveOf, Seen, OneHolder, AtMostOneLive, ClearMeansClear;
  }

  lemma LinkComes(s: State, a: Action, x: LinkId)
    requires Inv(s) && Enabled(s, a) && x !in s.links && x in Apply(s, a).links
    ensures a.Commit? && a.tx in s.txs && s.txs[a.tx].stage.Minted?
    ensures Apply(s, a).links[x] == Link(s.txs[a.tx].account, s.txs[a.tx].stage.expires, false, false)
  {
    hide LiveOf, Seen, OneHolder, AtMostOneLive, ClearMeansClear;
  }

  /** Whose step moves a link, in every run: it is used exactly by its own consumption, cancelled exactly by its
      withdrawal or by a consumption that takes it along, and never again once used; nothing else of it moves
      and it never goes. One comes only with the commit of a request that minted it. */
  lemma OnlyItsStepMovesALink(states: seq<State>, actions: seq<Action>, n: nat, x: LinkId)
    requires IsRun(states, actions) && n < |actions|
    ensures x in states[n].links ==> x in states[n + 1].links
    ensures x in states[n].links ==>
              var a, l, l' := actions[n], states[n].links[x], states[n + 1].links[x];
              && l'.account == l.account && l'.expires == l.expires
              && (l'.used != l.used <==> a.Spend? && a.link == x)
              && (l'.cancelled != l.cancelled <==>
                    !l.used && !l.cancelled && (a == Withdraw(x) || (a.Spend? && x in a.others)))
              && (a.Spend? && a.link == x ==> l'.used)
    ensures x !in states[n].links && x in states[n + 1].links ==>
              && actions[n].Commit? && actions[n].tx in states[n].txs && states[n].txs[actions[n].tx].stage.Minted?
              && states[n + 1].links[x] == Link(states[n].txs[actions[n].tx].account, states[n].txs[actions[n].tx].stage.expires, false, false)
  {
    hide Inv, Enabled, Apply;
    InitIsInv(states[0]);
    PathKeepsInv(states, actions, n);
    var s, a := states[n], actions[n];
    assert Enabled(s, a) && states[n + 1] == Apply(s, a);
    hide IsRun, IsPath, Init;
    if x in s.links { LinkMoves(s, a, x); } else if x in states[n + 1].links { LinkComes(s, a, x); }
  }

  /** A link is minted only for an account that may be given one as it is minted. */
  lemma OnlyOpenAccountsGetLinks(states: seq<State>, actions: seq<Action>, n: nat)
    requires IsPath(states, actions) && n < |actions| && actions[n].Create?
    ensures actions[n].tx in states[n].txs && states[n].txs[actions[n].tx].account in states[n].open
  {
    assert Enabled(states[n], actions[n]);
    hide Apply;
  }

  ghost predicate Steps(s: State, actions: seq<Action>, s': State)
    decreases |actions|
  {
    if actions == [] then s == s'
    else Enabled(s, actions[0]) && Steps(Apply(s, actions[0]), actions[1..], s')
  }

  lemma {:induction false} Onward(s: State, a: Action, m: State, rest: seq<Action>, s': State)
    requires Enabled(s, a) && m == Apply(s, a) && Steps(m, rest, s')
    ensures Steps(s, [a] + rest, s')
  {
    hide Enabled, Apply;
    assert ([a] + rest)[1..] == rest;
  }

  /** A request that meets nobody on its account completes: if the account has a usable link nothing is written,
      and else, if it may have one, it gets exactly the one asked for. */
  lemma ARequestThatMeetsNobody(s: State, account: Account, expires: int) returns (actions: seq<Action>, s': State)
    requires Inv(s) && account in s.open
    requires forall t :: t in s.txs && s.txs[t].account == account ==> s.txs[t].stage.Waiting?
    ensures Steps(s, actions, s') && s'.clock == s.clock
    ensures (exists x :: Held(s, x, account)) ==> s'.links == s.links
    ensures !(exists x :: Held(s, x, account)) ==>
              exists x: LinkId :: x !in s.links && s'.links == s.links[x := Link(account, expires, false, false)]
  {
    hide Inv, Seen, Cancel, LiveOf, Steps;
    NextIsFresh(s);
    var t := s.next;
    var s1 := Apply(s, Begin(account));
    var s2 := Apply(s1, Lock(t));
    var s3 := Apply(s2, Read(t));
    SeenIsTrue(s2, account);
    HeldIsLive(s, s2, account);
    if s3.txs[t].stage.Keeping? {
      s' := Apply(s3, Commit(t));
      Nothing(s');
      Onward(s3, Commit(t), s', [], s');
      Onward(s2, Read(t), s3, [Commit(t)] + [], s');
      Onward(s1, Lock(t), s2, [Read(t)] + ([Commit(t)] + []), s');
      Onward(s, Begin(account), s1, [Lock(t)] + ([Read(t)] + ([Commit(t)] + [])), s');
      actions := [Begin(account)] + ([Lock(t)] + ([Read(t)] + ([Commit(t)] + [])));
    } else {
      var s4 := Apply(s3, Create(t, expires));
      SameLive(s2, s3, account);
      s' := Apply(s4, Commit(t));
      CancelsNothing(s.links);
      var minted := s4.txs[t].stage.link;
      assert minted !in s.links && s'.links == s.links[minted := Link(account, expires, false, false)];
      Nothing(s');
      Onward(s4, Commit(t), s', [], s');
      Onward(s3, Create(t, expires), s4, [Commit(t)] + [], s');
      Onward(s2, Read(t), s3, [Create(t, expires)] + ([Commit(t)] + []), s');
      Onward(s1, Lock(t), s2, [Read(t)] + ([Create(t, expires)] + ([Commit(t)] + [])), s');
      Onward(s, Begin(account), s1, [Lock(t)] + ([Read(t)] + ([Create(t, expires)] + ([Commit(t)] + []))), s');
      actions := [Begin(account)] + ([Lock(t)] + ([Read(t)] + ([Create(t, expires)] + ([Commit(t)] + []))));
    }
  }

  lemma Nothing(s: State)
    ensures Steps(s, [], s)
  {
  }

  lemma HeldIsLive(s: State, s': State, a: Account)
    requires s'.links == s.links && s'.clock == s.clock
    ensures LiveOf(s', a) == {} <==> !exists x :: Held(s, x, a)
    ensures forall st: Stage :: st.Keeping? && Newest(LiveOf(s', a), st.link) ==> LiveOf(s', a) != {}
  {
    assert forall x :: x in LiveOf(s', a) <==> Held(s, x, a);
  }

  lemma SameLive(s: State, s': State, a: Account)
    requires s'.links == s.links && s'.clock == s.clock
    ensures LiveOf(s', a) == LiveOf(s, a)
  {
  }

  lemma CancelsNothing(links: map<LinkId, Link>)
    ensures Cancel(links, {}) == links
  {
  }

  /** No request retires a link, although CreatePasswordReset would: it finds nothing to retire. */
  lemma NoRequestRetires(states: seq<State>, actions: seq<Action>, n: nat, x: LinkId)
    requires IsRun(states, actions) && n < |actions| && IsRequests(actions[n])
    requires x in states[n].links
    ensures x in states[n + 1].links && states[n + 1].links[x] == states[n].links[x]
  {
    InitIsInv(states[0]);
    PathKeepsInv(states, actions, n);
    hide OneHolder, AtMostOneLive, ClearMeansClear, Seen, LiveOf;
  }

  /** What a request knows of the states since it began (from `m` to `n`). */
  ghost predicate Knows(states: seq<State>, m: nat, n: nat, r: Request)
    requires m <= n < |states|
  {
    match r.stage {
      case Keeping(x) => exists i :: m <= i <= n && Held(states[i], x, r.account)
      case _ => true
    }
  }

  lemma {:induction false} KnowsWhatItSaw(states: seq<State>, actions: seq<Action>, m: nat, n: nat, t: TxId)
    requires IsRun(states, actions) && m <= n < |states|
    requires t in states[m].txs && states[m].txs[t].stage.Waiting?
    requires forall i :: m <= i < n ==> actions[i] != RollBack(t) && actions[i] != Commit(t)
    ensures t in states[n].txs && states[n].txs[t].account == states[m].txs[t].account
    ensures Knows(states, m, n, states[n].txs[t])
  {
    if m < n {
      KnowsWhatItSaw(states, actions, m, n - 1, t);
      InitIsInv(states[0]);
      PathKeepsInv(states, actions, n - 1);
      assert Enabled(states[n - 1], actions[n - 1]) && states[n] == Apply(states[n - 1], actions[n - 1]);
      hide IsRun, IsPath, Inv, Init;
      StillKnows(states, m, n, actions[n - 1], t);
    }
  }

  lemma StillKnows(states: seq<State>, m: nat, n: nat, a: Action, t: TxId)
    requires m < n < |states| && Inv(states[n - 1]) && Enabled(states[n - 1], a) && states[n] == Apply(states[n - 1], a)
    requires t in states[n - 1].txs && Knows(states, m, n - 1, states[n - 1].txs[t])
    requires a != RollBack(t) && a != Commit(t)
    ensures t in states[n].txs && states[n].txs[t].account == states[n - 1].txs[t].account
    ensures Knows(states, m, n, states[n].txs[t])
  {
    var s, s' := states[n - 1], states[n];
    TxsStep(s, a);
    assert t in s'.txs;
    if a == Read(t) {
      var account := s.txs[t].account;
      SeenIsTrue(s, account);
      assert s'.txs[t].stage == Seen(s, account);
      hide Inv, Enabled, Apply, Seen;
      if s'.txs[t].stage.Keeping? {
        assert s'.txs[t].stage.link in LiveOf(s, account);
        assert Held(states[n - 1], s'.txs[t].stage.link, account);
      }
    } else {
      assert s'.txs[t].stage.Keeping? ==> s'.txs[t] == s.txs[t];
    }
  }

  /** A request that completes answers with a link the account held while it ran, or leaves it a new one
      that dies only of its expiry: the account is never told to wait for nothing. */
  lemma ARequestLeavesALink(states: seq<State>, actions: seq<Action>, m: nat, n: nat, t: TxId)
    requires IsRun(states, actions) && m <= n < |actions| && actions[n] == Commit(t)
    requires t in states[m].txs && states[m].txs[t].stage.Waiting?
    requires forall i :: m <= i < n ==> actions[i] != RollBack(t) && actions[i] != Commit(t)
    ensures var a := states[m].txs[t].account;
            || (exists i, x :: m <= i <= n && Held(states[i], x, a) && states[n].txs[t].stage == Keeping(x))
            || (exists x :: x !in states[n].links && x in states[n + 1].links
                  && states[n].txs[t].stage == Minted(x, states[n + 1].links[x].expires, {})
                  && states[n + 1].links[x] == Link(a, states[n + 1].links[x].expires, false, false))
  {
    KnowsWhatItSaw(states, actions, m, n, t);
    InitIsInv(states[0]);
    PathKeepsInv(states, actions, n);
    var r := states[n].txs[t];
    if r.stage.Minted? {
      assert states[n + 1].links[r.stage.link] == Link(r.account, r.stage.expires, false, false);
    } else {
      var i :| m <= i <= n && Held(states[i], r.stage.link, r.account);
    }
  }

  /** An account without a live link gets one from the next request that completes. */
  lemma ARequestWithoutALinkMints(states: seq<State>, actions: seq<Action>, m: nat, n: nat, t: TxId)
      returns (x: LinkId)
    requires IsRun(states, actions) && m <= n < |actions| && actions[n] == Commit(t)
    requires t in states[m].txs && states[m].txs[t].stage.Waiting?
    requires forall i :: m <= i < n ==> actions[i] != RollBack(t) && actions[i] != Commit(t)
    requires forall i :: m <= i <= n ==> LiveOf(states[i], states[m].txs[t].account) == {}
    ensures x !in states[n].links && x in states[n + 1].links
    ensures states[n + 1].links[x].account == states[m].txs[t].account
    ensures LiveAt(states[n + 1].links[x], states[n + 1].clock) <==> states[n + 1].clock < states[n + 1].links[x].expires
  {
    ARequestLeavesALink(states, actions, m, n, t);
    var a := states[m].txs[t].account;
    forall i, y | m <= i <= n
      ensures !Held(states[i], y, a)
    {
      assert y !in LiveOf(states[i], a);
    }
    x :| x !in states[n].links && x in states[n + 1].links
         && states[n + 1].links[x] == Link(a, states[n + 1].links[x].expires, false, false);
  }
}
