/** The operator accounts and the scripts that write them (cmd/opadmin/main.go): what the emitted
    transaction does when it is applied, not its text, and the link op_complete_enrollment spends
    (migration 00026).

    A script carries the generation time of the machine that wrote it; everything else is stamped by the
    database's clock. Times are microseconds.
 */
module OpAdmin {

  type AccountId = nat
  type Email = nat
  type Hash = nat        // SHA-256 of a link secret; a link is its hash
  type SessionId = nat

  datatype Status = Pending | Active | Disabled

  datatype Account = Account(email: Email, status: Status, hash: Hash, issued: int, expires: int, used: bool,
                             sessions: set<SessionId>)

  datatype Script =
    | Create(id: AccountId, email: Email, hash: Hash, generated: int)
    | ResetMFA(id: AccountId, email: Email, hash: Hash, generated: int)
    | Disable(id: AccountId, email: Email)

  const MINUTE := 60_000_000
  const SCRIPT_MAX_AGE := 30 * MINUTE
  const ENROLL_TTL := 30 * MINUTE

  /** The clock readings of one application: the two guards', taken before the account's lock, and v_now. */
  datatype Readings = Readings(ahead: int, age: int, now: int) {
    predicate InOrder() { ahead <= age <= now }
  }

  type Accounts = map<AccountId, Account>

  /** generationGuards. */
  predicate FreshEnough(generated: int, r: Readings) {
    generated <= r.ahead && r.age <= generated + SCRIPT_MAX_AGE
  }

  predicate EmailTaken(accounts: Accounts, email: Email) {
    exists id :: id in accounts && accounts[id].email == email
  }

  predicate Named(accounts: Accounts, id: AccountId, email: Email) {
    id in accounts && accounts[id].email == email
  }

  /** The transaction commits; otherwise it raises and changes nothing. */
  predicate Applies(accounts: Accounts, s: Script, r: Readings) {
    match s
    case Create(id, email, _, generated) =>
      FreshEnough(generated, r) && id !in accounts && !EmailTaken(accounts, email)
    case ResetMFA(id, email, hash, generated) =>
      && FreshEnough(generated, r) && Named(accounts, id, email) && !accounts[id].status.Disabled?
      && accounts[id].hash != hash && accounts[id].issued < generated
    case Disable(id, email) => Named(accounts, id, email)
  }

  function Applied(accounts: Accounts, s: Script, r: Readings): Accounts {
    if !Applies(accounts, s, r) then accounts
    else match s
      case Create(id, email, hash, _) =>
        accounts[id := Account(email, Pending, hash, r.now, r.now + ENROLL_TTL, false, {})]
      case ResetMFA(id, email, hash, _) =>
        accounts[id := Account(email, Pending, hash, r.now, r.now + ENROLL_TTL, false, {})]
      case Disable(id, _) => accounts[id := accounts[id].(status := Disabled, sessions := {})]
  }

  /** op_complete_enrollment's condition. */
  predicate LinkWorks(accounts: Accounts, id: AccountId, hash: Hash, now: int) {
    && id in accounts && accounts[id].status.Pending? && accounts[id].hash == hash
    && !accounts[id].used && now < accounts[id].expires
  }

  datatype Action =
    | Run(script: Script, readings: Readings)
    | UseLink(id: AccountId, hash: Hash, now: int, session: SessionId)
    | OpenSession(id: AccountId, now: int, session: SessionId)
    | RevokeSession(id: AccountId, now: int, session: SessionId)

  function Next(accounts: Accounts, a: Action): Accounts {
    match a
    case Run(s, r) => Applied(accounts, s, r)
    case UseLink(id, hash, now, session) =>
      if LinkWorks(accounts, id, hash, now)
      then accounts[id := accounts[id].(status := Active, used := true, sessions := accounts[id].sessions + {session})]
      else accounts
    case OpenSession(id, _, session) =>
      if id in accounts && accounts[id].status.Active?
      then accounts[id := accounts[id].(sessions := accounts[id].sessions + {session})] else accounts
    case RevokeSession(id, _, session) =>
      if id in accounts then accounts[id := accounts[id].(sessions := accounts[id].sessions - {session})] else accounts
  }

  ghost predicate IsTrace(states: seq<Accounts>, actions: seq<Action>) {
    && |states| == |actions| + 1
    && forall i :: 0 <= i < |actions| ==> states[i + 1] == Next(states[i], actions[i])
  }

  /** What the database's clock is trusted with: no accepted script is stamped before its own generation time.
      Between applications it may go back, and the generating clocks may do anything. */
  ghost predicate StampedAfter(states: seq<Accounts>, actions: seq<Action>)
    requires |states| == |actions| + 1
  {
    forall i :: 0 <= i < |actions| && actions[i].Run? && !actions[i].script.Disable?
                && Applies(states[i], actions[i].script, actions[i].readings)
                ==> actions[i].script.generated <= actions[i].readings.now
  }

  ghost predicate IsRun(states: seq<Accounts>, actions: seq<Action>) { IsTrace(states, actions) && StampedAfter(states, actions) }

  /** A clock that does not go back inside an application is enough: the guards read it first. */
  lemma SteadyClockStamps(states: seq<Accounts>, actions: seq<Action>)
    requires IsTrace(states, actions)
    requires forall i :: 0 <= i < |actions| && actions[i].Run? ==> actions[i].readings.InOrder()
    ensures IsRun(states, actions)
  {
  }

  /** Step `i` gave account `id` the link `hash`, from a script written at `generated`. */
  ghost predicate Issues(states: seq<Accounts>, actions: seq<Action>, i: nat, id: AccountId, hash: Hash, generated: int)
    requires i < |actions| && i < |states|
  {
    && actions[i].Run? && Applies(states[i], actions[i].script, actions[i].readings)
    && (actions[i].script == Create(id, actions[i].script.email, hash, generated)
        || actions[i].script == ResetMFA(id, actions[i].script.email, hash, generated))
  }

  ghost predicate Uses(states: seq<Accounts>, actions: seq<Action>, i: nat, id: AccountId, hash: Hash)
    requires i < |actions| && i < |states|
  {
    actions[i].UseLink? && actions[i].id == id && actions[i].hash == hash
    && LinkWorks(states[i], id, hash, actions[i].now)
  }

  // -------------------------------------------------------------------- steps

  /** Whatever the clocks do between applications, an account's issue time never goes back: a script is
      accepted only over an earlier issue, and is stamped at or after its own generation. */
  lemma IssueTimeGrows(states: seq<Accounts>, actions: seq<Action>, i: nat, id: AccountId)
    requires IsRun(states, actions) && i < |actions| && id in states[i]
    ensures id in states[i + 1] && states[i][id].issued <= states[i + 1][id].issued
  {
  }

  lemma {:induction false} IssuedSince(states: seq<Accounts>, actions: seq<Action>, i: nat, j: nat, id: AccountId,
                                       hash: Hash, generated: int)
    requires IsRun(states, actions) && i < j <= |actions|
    requires Issues(states, actions, i, id, hash, generated)
    ensures id in states[j] && generated <= states[j][id].issued
  {
    if j == i + 1 {
      assert states[j] == Next(states[i], actions[i]);
    } else {
      IssuedSince(states, actions, i, j - 1, id, hash, generated);
      IssueTimeGrows(states, actions, j - 1, id);
    }
  }

  /** Accepted scripts of one account were written in the order they were applied, whatever the generating
      clocks showed: a later one has the later generation time. */
  lemma GenerationsGrow(states: seq<Accounts>, actions: seq<Action>, i: nat, j: nat, id: AccountId,
                        hash: Hash, generated: int, hash': Hash, generated': int)
    requires IsRun(states, actions) && i < j < |actions|
    requires Issues(states, actions, i, id, hash, generated) && Issues(states, actions, j, id, hash', generated')
    ensures generated < generated'
  {
    IssuedSince(states, actions, i, j, id, hash, generated);
  }

  /** A hash is drawn for one script. */
  ghost predicate HashNamesScript(actions: seq<Action>) {
    forall i, j :: 0 <= i < |actions| && 0 <= j < |actions| && actions[i].Run? && actions[j].Run?
      && !actions[i].script.Disable? && !actions[j].script.Disable? && actions[i].script.hash == actions[j].script.hash
      ==> actions[i].script == actions[j].script
  }

  /** No replay: each script's hash is installed at most once. */
  lemma InstalledOnce(states: seq<Accounts>, actions: seq<Action>, i: nat, j: nat, id: AccountId,
                      hash: Hash, generated: int, generated': int)
    requires IsRun(states, actions) && HashNamesScript(actions)
    requires i < |actions| && j < |actions|
    requires Issues(states, actions, i, id, hash, generated) && Issues(states, actions, j, id, hash, generated')
    ensures i == j
  {
    assert actions[i].script == actions[j].script;
    if i < j {
      GenerationsGrow(states, actions, i, j, id, hash, generated, hash, generated');
    } else if j < i {
      GenerationsGrow(states, actions, j, i, id, hash, generated', hash, generated);
    }
  }

  /** The account holds the link `hash`, unused. */
  predicate Offers(accounts: Accounts, id: AccountId, hash: Hash) {
    id in accounts && accounts[id].hash == hash && !accounts[id].used
  }

  /** Only an issuance makes an account offer a link it did not. */
  lemma OfferStep(states: seq<Accounts>, actions: seq<Action>, k: nat, id: AccountId, hash: Hash)
    requires IsRun(states, actions) && k < |actions|
    requires !Offers(states[k], id, hash) && Offers(states[k + 1], id, hash)
    ensures actions[k].Run? && !actions[k].script.Disable? && Issues(states, actions, k, id, hash, actions[k].script.generated)
  {
  }

  lemma {:induction false} NeverOfferedAgain(states: seq<Accounts>, actions: seq<Action>, i: nat, m: nat, n: nat,
                                             id: AccountId, hash: Hash, generated: int)
    requires IsRun(states, actions) && HashNamesScript(actions)
    requires i < m <= n <= |actions| && Issues(states, actions, i, id, hash, generated)
    requires !Offers(states[m], id, hash)
    ensures !Offers(states[n], id, hash)
  {
    if m < n {
      NeverOfferedAgain(states, actions, i, m, n - 1, id, hash, generated);
      if Offers(states[n], id, hash) {
        OfferStep(states, actions, n - 1, id, hash);
        InstalledOnce(states, actions, i, n - 1, id, hash, generated, actions[n - 1].script.generated);
      }
    }
  }

  /** A link that was used never works again, however many scripts are replayed. */
  lemma UsedOnce(states: seq<Accounts>, actions: seq<Action>, i: nat, u: nat, v: nat,
                 id: AccountId, hash: Hash, generated: int)
    requires IsRun(states, actions) && HashNamesScript(actions)
    requires i < u && u < |actions| && v < |actions| && i < v && Issues(states, actions, i, id, hash, generated)
    requires Uses(states, actions, u, id, hash) && Uses(states, actions, v, id, hash)
    ensures u == v
  {
    if u < v {
      NeverOfferedAgain(states, actions, i, u + 1, v, id, hash, generated);
    } else if v < u {
      NeverOfferedAgain(states, actions, i, v + 1, u, id, hash, generated);
    }
  }

  /** A superseded link never works again. */
  lemma SupersededForGood(states: seq<Accounts>, actions: seq<Action>, i: nat, j: nat, v: nat,
                          id: AccountId, hash: Hash, generated: int, hash': Hash, generated': int)
    requires IsRun(states, actions) && HashNamesScript(actions)
    requires i < j < v < |actions|
    requires Issues(states, actions, i, id, hash, generated) && Issues(states, actions, j, id, hash', generated')
    ensures !Uses(states, actions, v, id, hash)
  {
    assert states[j + 1][id].hash == hash';
    if hash == hash' { InstalledOnce(states, actions, i, j, id, hash, generated, generated'); }
    NeverOfferedAgain(states, actions, i, j + 1, v, id, hash, generated);
  }

  // ------------------------------------------------ what each step may do

  /** The clock limits, in every step: a script is accepted no later than half an hour after it was generated and
      no earlier than that, and gives a link that is not used at or after half an hour from its stamp. */
  lemma AcceptedWhileFresh(states: seq<Accounts>, actions: seq<Action>, i: nat, id: AccountId, hash: Hash, generated: int)
    requires IsTrace(states, actions) && i < |actions| && Issues(states, actions, i, id, hash, generated)
    ensures generated <= actions[i].readings.ahead && actions[i].readings.age <= generated + 1_800_000_000
    ensures id in states[i + 1] && states[i + 1][id].status.Pending? && states[i + 1][id].sessions == {}
    ensures states[i + 1][id].hash == hash && !states[i + 1][id].used
    ensures states[i + 1][id].issued == actions[i].readings.now
    ensures states[i + 1][id].expires == actions[i].readings.now + 1_800_000_000
  {
  }

  ghost predicate HalfAnHour(accounts: Accounts) {
    forall id :: id in accounts ==> accounts[id].expires == accounts[id].issued + 1_800_000_000
  }

  lemma {:induction false} StaysHalfAnHour(states: seq<Accounts>, actions: seq<Action>, n: nat)
    requires IsTrace(states, actions) && HalfAnHour(states[0]) && n < |states|
    ensures HalfAnHour(states[n])
  {
    if n > 0 {
      StaysHalfAnHour(states, actions, n - 1);
      assert states[n] == Next(states[n - 1], actions[n - 1]);
    }
  }

  lemma UsedWithinHalfAnHour(states: seq<Accounts>, actions: seq<Action>, v: nat, id: AccountId, hash: Hash)
    requires IsTrace(states, actions) && HalfAnHour(states[0]) && v < |actions| && Uses(states, actions, v, id, hash)
    ensures actions[v].now < states[v][id].issued + 1_800_000_000
    ensures states[v + 1][id].status.Active? && states[v + 1][id].used && actions[v].session in states[v + 1][id].sessions
  {
    StaysHalfAnHour(states, actions, v);
  }

  /** The script that was accepted at this step for this account, and had the account's own address on it. */
  ghost predicate AcceptedFor(s: Accounts, a: Action, id: AccountId) {
    a.Run? && a.script.id == id && Applies(s, a.script, a.readings)
  }

  /** What moves an account, in every step. Its address never changes and it never goes. A new link comes only with
      an accepted reset, which ends every session; it becomes active only by its link, and disabled only by an
      accepted script, which names its address. A session comes only with the link or to an active account. */
  lemma OnlyItsStepMovesAnAccount(states: seq<Accounts>, actions: seq<Action>, n: nat, id: AccountId)
    requires IsTrace(states, actions) && n < |actions| && id in states[n]
    ensures id in states[n + 1] && states[n + 1][id].email == states[n][id].email
    ensures var s, a, was, now := states[n], actions[n], states[n][id], states[n + 1][id];
            && (AcceptedFor(s, a, id) ==> a.script.email == was.email && now.sessions == {})
            && (now.status.Pending? && !was.status.Pending? ==> AcceptedFor(s, a, id) && a.script.ResetMFA?)
            && (now.status.Active? && !was.status.Active? ==> Uses(states, actions, n, id, was.hash))
            && (now.status.Disabled? <==> was.status.Disabled? || (AcceptedFor(s, a, id) && a.script.Disable?))
            && (now.(status := was.status, used := was.used, sessions := was.sessions) != was ==>
                  AcceptedFor(s, a, id) && a.script.ResetMFA? && !was.status.Disabled?)
            && (now.used && !was.used ==> Uses(states, actions, n, id, was.hash))
            && (was.used && !now.used ==> AcceptedFor(s, a, id) && a.script.ResetMFA?)
            && (forall x :: x !in was.sessions ==>
                  (x in now.sessions <==>
                    || (Uses(states, actions, n, id, was.hash) && x == a.session)
                    || (a.OpenSession? && a.id == id && was.status.Active? && x == a.session)))
            && (forall x :: x in was.sessions ==>
                  (x !in now.sessions <==> AcceptedFor(s, a, id) || (a.RevokeSession? && a.id == id && x == a.session)))
  {
  }

  /** What is accepted: a creation for a free id and address, a reset of an account that is not disabled, over an
      earlier issue of another link, and the disabling of any account, each by its own address; the first two
      from half an hour's scripts alone. And a link just given works until its half hour is over. */
  lemma AcceptedExactly(accounts: Accounts, s: Script, r: Readings)
    ensures s.Create? ==>
              (Applies(accounts, s, r) <==>
                && s.generated <= r.ahead && r.age <= s.generated + 1_800_000_000 && s.id !in accounts
                && forall other :: other in accounts ==> accounts[other].email != s.email)
    ensures s.ResetMFA? ==>
              (Applies(accounts, s, r) <==>
                && s.generated <= r.ahead && r.age <= s.generated + 1_800_000_000
                && s.id in accounts && accounts[s.id].email == s.email && !accounts[s.id].status.Disabled?
                && accounts[s.id].hash != s.hash && accounts[s.id].issued < s.generated)
    ensures s.Disable? ==> (Applies(accounts, s, r) <==> s.id in accounts && accounts[s.id].email == s.email)
    ensures !s.Disable? && Applies(accounts, s, r) ==>
              forall now :: LinkWorks(Applied(accounts, s, r), s.id, s.hash, now) <==> now < r.now + 1_800_000_000
  {
  }

  /** An account comes only by an accepted creation, and no two accounts share an address. */
  lemma {:induction false} AddressesAreOwn(states: seq<Accounts>, actions: seq<Action>, n: nat, id: AccountId, other: AccountId)
    requires IsTrace(states, actions) && n < |states|
    requires forall i, j :: i in states[0] && j in states[0] && states[0][i].email == states[0][j].email ==> i == j
    requires id in states[n] && other in states[n] && states[n][id].email == states[n][other].email
    ensures id == other
  {
    if n > 0 {
      var before, a := states[n - 1], actions[n - 1];
      assert states[n] == Next(before, a);
      if id in before && other in before {
        OnlyItsStepMovesAnAccount(states, actions, n - 1, id);
        OnlyItsStepMovesAnAccount(states, actions, n - 1, other);
        AddressesAreOwn(states, actions, n - 1, id, other);
      } else if id in before {
        Comes(before, a, other);
        OnlyItsStepMovesAnAccount(states, actions, n - 1, id);
      } else if other in before {
        Comes(before, a, id);
        OnlyItsStepMovesAnAccount(states, actions, n - 1, other);
      } else {
        Comes(before, a, id);
        Comes(before, a, other);
      }
    }
  }

  lemma Comes(s: Accounts, a: Action, id: AccountId)
    requires id !in s && id in Next(s, a)
    ensures AcceptedFor(s, a, id) && a.script.Create? && Next(s, a)[id].email == a.script.email && !EmailTaken(s, a.script.email)
  {
  }

  /** A disabled account is never opened again: no link of its works and it holds no session. */
  lemma {:induction false} DisabledForGood(states: seq<Accounts>, actions: seq<Action>, m: nat, n: nat, id: AccountId)
    requires IsTrace(states, actions) && m < n <= |actions| && actions[m].Run? && actions[m].script.Disable?
    requires actions[m].script.id == id && Applies(states[m], actions[m].script, actions[m].readings)
    ensures id in states[n] && states[n][id].status.Disabled? && states[n][id].sessions == {}
  {
    assert states[m + 1] == Next(states[m], actions[m]);
    if m + 1 < n {
      DisabledForGood(states, actions, m, n - 1, id);
      assert states[n] == Next(states[n - 1], actions[n - 1]);
    }
  }

  // ------------------------------- what the stamp decides, script by script

  /** Script `s` is installed at step `j`. */
  ghost predicate Installs(states: seq<Accounts>, actions: seq<Action>, j: nat, s: Script)
    requires j < |actions| && j < |states|
  {
    actions[j].Run? && actions[j].script == s && Applies(states[j], s, actions[j].readings)
  }

  /** Some run from these accounts installs the script. */
  ghost predicate MayReturn(accounts: Accounts, s: Script) {
    exists states: seq<Accounts>, actions: seq<Action>, j: nat :: ReturnsIn(accounts, s, states, actions, j)
  }

  ghost predicate ReturnsIn(accounts: Accounts, s: Script, states: seq<Accounts>, actions: seq<Action>, j: nat) {
    IsRun(states, actions) && states[0] == accounts && j < |actions| && Installs(states, actions, j, s)
  }

  /** The account is past the script: it holds the script's own link, or was issued one no earlier than the
      script; and what is issued next is issued no earlier either. */
  ghost predicate Past(accounts: Accounts, s: Script)
    requires !s.Disable?
  {
    && s.id in accounts && s.generated <= accounts[s.id].issued + 1
    && (accounts[s.id].hash == s.hash || s.generated <= accounts[s.id].issued)
  }

  lemma PastStep(accounts: Accounts, a: Action, s: Script)
    requires s.ResetMFA? && Past(accounts, s)
    requires a.Run? && !a.script.Disable? && Applies(accounts, a.script, a.readings) ==>
               a.script.generated <= a.readings.now
    ensures !(a.Run? && a.script == s && Applies(accounts, s, a.readings))
    ensures Past(Next(accounts, a), s)
  {
  }

  lemma {:induction false} StaysPast(states: seq<Accounts>, actions: seq<Action>, n: nat, s: Script)
    requires IsRun(states, actions) && n < |actions| && s.ResetMFA? && Past(states[0], s)
    ensures Past(states[n], s) && !Installs(states, actions, n, s)
  {
    hide Past, Next, Applies;
    if n > 0 {
      StaysPast(states, actions, n - 1, s);
      PastStep(states[n - 1], actions[n - 1], s);
    }
    PastStep(states[n], actions[n], s);
  }

  lemma {:induction false} StaysThere(states: seq<Accounts>, actions: seq<Action>, n: nat, id: AccountId)
    requires IsTrace(states, actions) && n < |states| && id in states[0]
    ensures id in states[n]
  {
    if n > 0 {
      StaysThere(states, actions, n - 1, id);
      assert states[n] == Next(states[n - 1], actions[n - 1]);
    }
  }

  /** Another script, generated right after the stamp, and then this one again. */
  lemma Returns(accounts: Accounts, s: Script, r: Readings)
    requires s.ResetMFA? && Applies(accounts, s, r) && r.now + 1 < s.generated
    ensures MayReturn(Applied(accounts, s, r), s)
  {
    var s0, at, g := Applied(accounts, s, r), r.now + 1, s.generated;
    var other := ResetMFA(s.id, s.email, s.hash + 1, at);
    var first, again := Run(other, Readings(at, at, at)), Run(s, Readings(g, g, g));
    var s1 := Next(s0, first);
    assert Applies(s0, other, first.readings);
    var states, actions := [s0, s1, Next(s1, again)], [first, again];
    assert Installs(states, actions, 1, s);
    assert ReturnsIn(s0, s, states, actions, 1);
  }

  /** Exactly what the stamp of an accepted script decides. Let every later stamp hold: the script can be
      installed once more, in some continuation, if and only if it resets an account and its own stamp is so
      far before its generation time that another script's fits between the two. */
  lemma ReturnsIffStampedBefore(accounts: Accounts, s: Script, r: Readings)
    requires !s.Disable? && Applies(accounts, s, r)
    ensures MayReturn(Applied(accounts, s, r), s) <==> s.ResetMFA? && r.now + 1 < s.generated
  {
    var s0 := Applied(accounts, s, r);
    if s.ResetMFA? && r.now + 1 < s.generated {
      Returns(accounts, s, r);
    } else {
      forall states: seq<Accounts>, actions: seq<Action>, j: nat | IsRun(states, actions) && states[0] == s0 && j < |actions|
        ensures !Installs(states, actions, j, s)
      {
        if s.Create? { StaysThere(states, actions, j, s.id); } else { StaysPast(states, actions, j, s); }
      }
    }
  }

  // -------------------------------------- a clock that steps back in an application

  const FIRST := ResetMFA(0, 0, 1, 100)
  const SECOND := ResetMFA(0, 0, 2, 102)

  /** The first script is applied and its link used; then the second is, and while it is the clock steps from
      102 back to 60, between the guards and the stamp; then the first is applied again. */
  const STEPPING_BACK: seq<Action> := [
    Run(Create(0, 0, 0, 10), Readings(10, 10, 10)),
    Run(FIRST, Readings(100, 100, 100)), UseLink(0, 1, 101, 0),
    Run(SECOND, Readings(102, 102, 60)), UseLink(0, 2, 61, 0),
    Run(FIRST, Readings(103, 103, 103)), UseLink(0, 1, 104, 0)]

  function Stepped(n: nat): Accounts {
    if n == 0 then map[]
    else if n == 1 then map[0 := Account(0, Pending, 0, 10, 10 + ENROLL_TTL, false, {})]
    else if n == 2 then map[0 := Account(0, Pending, 1, 100, 100 + ENROLL_TTL, false, {})]
    else if n == 3 then map[0 := Account(0, Active, 1, 100, 100 + ENROLL_TTL, true, {0})]
    else if n == 4 then map[0 := Account(0, Pending, 2, 60, 60 + ENROLL_TTL, false, {})]
    else if n == 5 then map[0 := Account(0, Active, 2, 60, 60 + ENROLL_TTL, true, {0})]
    else if n == 6 then map[0 := Account(0, Pending, 1, 103, 103 + ENROLL_TTL, false, {})]
    else map[0 := Account(0, Active, 1, 103, 103 + ENROLL_TTL, true, {0})]
  }

  lemma SteppedNext(n: nat)
    requires n < 7
    ensures Stepped(n + 1) == Next(Stepped(n), STEPPING_BACK[n])
  {
    assert n >= 1 ==> 0 in Stepped(n);
    assert {} + {0} == {0};
  }

  /** What a stamp before its own generation time can cost: the clock steps back inside an application, and a
      used link works again. */
  lemma AStepBackInsideReopens() returns (states: seq<Accounts>)
    ensures IsTrace(states, STEPPING_BACK) && HashNamesScript(STEPPING_BACK)
    ensures Uses(states, STEPPING_BACK, 2, 0, 1) && Uses(states, STEPPING_BACK, 6, 0, 1)
  {
    states := seq(8, n requires 0 <= n < 8 => Stepped(n));
    forall n | 0 <= n < 7
      ensures states[n + 1] == Next(states[n], STEPPING_BACK[n])
    {
      SteppedNext(n);
    }
  }

  // ------------------------------------------------------------- writing a script

  /** What a run writes; `Torn` is the part of a token a failed write left. */
  datatype Token = Statement(n: nat) | CommitWord | Semicolon | Newline | Report(link: Hash) | Poison | Refusal | Torn {
    /** A single byte has no part to leave. */
    predicate Tears() { !Semicolon? && !Newline? }
  }

  /** What ends a script: `COMMIT;` and a newline. */
  const COMMIT: seq<Token> := [CommitWord, Semicolon, Newline]

  /** What becomes of one write: all of it, or `k` of its tokens and perhaps part of the next. */
  datatype Fate = Whole | Cut(k: nat, torn: bool)

  function FateOf(fates: seq<Fate>, n: nat): Fate { if n < |fates| then fates[n] else Whole }

  /** What a write leaves. io.Writer: an error leaves a prefix behind, and a cut write is an error. */
  function Left(text: seq<Token>, fate: Fate): seq<Token> {
    match fate
    case Whole => text
    case Cut(k, torn) => if k < |text| then text[..k] + if torn && text[k].Tears() then [Torn] else [] else text
  }

  /** The two streams, any write of which may be cut. */
  class Streams {
    const fates: seq<Fate>
    var writes: nat
    var stdout: seq<Token>
    var stderr: seq<Token>

    constructor (fates: seq<Fate>)
      ensures stdout == [] && stderr == [] && writes == 0 && this.fates == fates
    {
      this.fates, writes, stdout, stderr := fates, 0, [], [];
    }

    method Write(stream: seq<Token>, text: seq<Token>) returns (after: seq<Token>, ok: bool)
      modifies this`writes
      ensures writes == old(writes) + 1
      ensures after == stream + Left(text, FateOf(fates, old(writes))) && ok == FateOf(fates, old(writes)).Whole?
    {
      after, ok := stream + Left(text, FateOf(fates, writes)), FateOf(fates, writes).Whole?;
      writes := writes + 1;
    }

    /** psql commits what it reads only as far as the script is whole. It takes a last statement at the end of
        its input for one, with or without its semicolon. */
    ghost predicate Commits(body: seq<Token>)
      reads this
    {
      CommitsAs(stdout, body)
    }

    method Refuse() returns (ghost rest: seq<Token>)
      modifies this
      ensures stdout == old(stdout) + rest && old(stderr) <= stderr && rest == Left([Poison], FateOf(fates, old(writes) + 1))
      ensures forall t :: t in stderr ==> t in old(stderr) || !t.Report?
    {
      var ok: bool;
      stderr, ok := Write(stderr, [Refusal]);
      stdout, ok := Write(stdout, [Poison]);
      rest := stdout[|old(stdout)|..];
      if !ok { stderr, ok := Write(stderr, [Refusal]); }
    }

    /** The body, then the link, then COMMIT: what would commit was delivered, and what was delivered was
        written in full first. The script commits exactly when the body and the link were written whole and
        the third write reached `COMMIT;`, or was cut right before the semicolon and the refusal, the fifth
        write, left nothing behind it. */
    method Run(body: seq<Token>, link: Hash) returns (ok: bool)
      requires stdout == [] && stderr == [] && writes == 0 && forall t :: t in body ==> t.Statement?
      modifies this
      ensures Commits(body) ==> Report(link) in stderr
      ensures Report(link) in stderr ==> body <= stdout
      ensures ok <==> FateOf(fates, 0).Whole? && FateOf(fates, 1).Whole? && FateOf(fates, 2).Whole?
      ensures Commits(body) <==>
                FateOf(fates, 0).Whole? && FateOf(fates, 1).Whole? && ReachesCommit(FateOf(fates, 2), FateOf(fates, 4))
      ensures ok ==> stdout == body + COMMIT && stderr == [Report(link)]
    {
      hide FateOf, Left, CommitsAs, ReachesCommit;
      stdout, ok := Write(stdout, body);
      if !ok {
        ghost var rest := Refuse();
        BodyCut(body, FateOf(fates, 0), FateOf(fates, 2));
        assert stdout == Left(body, FateOf(fates, 0)) + rest;
        return;
      }
      WholeIsLeft(body);
      WholeIsLeft([Report(link)]);
      WholeIsLeft(COMMIT);
      assert stdout == body;
      stderr, ok := Write(stderr, [Report(link)]);
      if !ok {
        ghost var rest := Refuse();
        LinkCut(body, FateOf(fates, 3));
        return;
      }
      stdout, ok := Write(stdout, COMMIT);
      assert stderr[0] == Report(link);
      if !ok {
        ghost var rest := Refuse();
        CommitCut(body, FateOf(fates, 2), FateOf(fates, 4));
        assert stdout == body + Left(COMMIT, FateOf(fates, 2)) + rest;
        assert stderr[0] == Report(link);
      } else {
        AllWhole(body, FateOf(fates, 4));
      }
    }
  }

  ghost predicate CommitsAs(out: seq<Token>, body: seq<Token>) {
    && |body| < |out| && out[..|body|] == body && out[|body|] == CommitWord
    && (|out| == |body| + 1 || out[|body| + 1] == Semicolon)
  }

  lemma WholeIsLeft(text: seq<Token>)
    ensures Left(text, Whole) == text
  {
  }

  /** What a refusal leaves begins with its poison, or with a part of it. */
  lemma PoisonIsNoCommit(fate: Fate)
    ensures var rest := Left([Poison], fate);
            (rest == [] <==> fate == Cut(0, false)) && (rest != [] ==> rest[0].Poison? || rest[0].Torn?)
  {
  }

  lemma BodyCut(body: seq<Token>, fate: Fate, poison: Fate)
    requires fate.Cut? && forall t :: t in body ==> t.Statement?
    ensures !CommitsAs(Left(body, fate) + Left([Poison], poison), body)
  {
    PoisonIsNoCommit(poison);
    var rest := Left([Poison], poison);
    var out := Left(body, fate) + rest;
    if fate.k < |body| {
      assert |out| > fate.k ==> out[fate.k].Poison? || out[fate.k].Torn?;
      assert body[fate.k] in body;
    } else {
      assert |out| > |body| ==> out[|body|] == rest[0];
    }
  }

  lemma LinkCut(body: seq<Token>, poison: Fate)
    ensures !CommitsAs(body + Left([Poison], poison), body)
  {
    PoisonIsNoCommit(poison);
  }

  lemma CommitCut(body: seq<Token>, fate: Fate, poison: Fate)
    requires fate.Cut?
    ensures CommitsAs(body + Left(COMMIT, fate) + Left([Poison], poison), body) <==> ReachesCommit(fate, poison)
  {
    PoisonIsNoCommit(poison);
    var left, rest := Left(COMMIT, fate), Left([Poison], poison);
    hide Left;
    CommitLeft(fate);
    var out := body + (left + rest);
    assert body + left + rest == out;
    assert out[..|body|] == body;
    assert forall i :: 0 <= i < |left + rest| ==> out[|body| + i] == (left + rest)[i];
  }

  lemma CommitLeft(fate: Fate)
    requires fate.Cut?
    ensures var left := Left(COMMIT, fate);
            && (fate.k == 0 ==> left == if fate.torn then [Torn] else [])
            && (fate.k == 1 ==> left == [CommitWord])
            && (fate.k >= 2 ==> |left| >= 2 && left[0] == CommitWord && left[1] == Semicolon)
  {
  }

  lemma AllWhole(body: seq<Token>, poison: Fate)
    ensures CommitsAs(body + COMMIT, body) && ReachesCommit(Whole, poison)
  {
    assert (body + COMMIT)[..|body|] == body;
  }

  /** The last write reached `COMMIT;`, or was cut before its semicolon with nothing after it. */
  predicate ReachesCommit(last: Fate, poison: Fate) {
    last.Whole? || last.k >= 2 || (last.k == 1 && poison == Cut(0, false))
  }

  /** A run that reports a failure although the script on stdout commits: its last write is cut between
      `COMMIT;` and the newline, or before the semicolon when the refusal is lost too. Its link was delivered. */
  method ReportsFailureAndCommits(body: seq<Token>, link: Hash, refusalLost: bool) returns (s: Streams, ok: bool)
    requires forall t :: t in body ==> t.Statement?
    ensures !ok && s.Commits(body) && Report(link) in s.stderr
  {
    s := new Streams([Whole, Whole, Cut(if refusalLost then 1 else 2, false), Whole, Cut(0, false)]);
    ok := s.Run(body, link);
  }
}
