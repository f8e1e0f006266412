/** Spending a recovery link (internal/adminauth/reset.go, `Resets.Consume`): five calls in order against a
    database everybody else writes between them, and inside the ones that wait for a lock.

    The calls are those of migrations 00072, 00074 and 00075 and of db/queries/passwordresets.sql. A call
    that runs in one transaction and waits for a lock in it is two looks at the database: the one before the
    wait and the re-check after it, whose write commits with it.
 */
module ResetConsume {
  import opened Wrappers

  type RowId = nat
  type IdentityId = nat
  type Hash = nat
  type Digest = nat
  type SessionId = nat

  /** `Refused`: the person refused the membership (identity_id NULL, unlinked_at stamped). */
  datatype Standing = Unlinked | Linked(identity: IdentityId) | Refused

  /** An administrator row, with its live sessions. */
  datatype Row = Row(active: bool, standing: Standing, password: Digest, sessions: set<SessionId>)

  datatype RowLink = RowLink(row: RowId, expires: int, used: bool, cancelled: bool)

  datatype PersonLink = PersonLink(identity: IdentityId, expires: int, used: bool, cancelled: bool)

  datatype Db = Db(
    clock: int,
    rows: map<RowId, Row>,
    identities: map<IdentityId, Digest>,
    rowLinks: map<Hash, RowLink>,
    personLinks: map<Hash, PersonLink>)

  /** A hash is a link of one kind, and links and rows name what exists. */
  predicate Sound(db: Db) {
    && db.rowLinks.Keys !! db.personLinks.Keys
    && (forall h :: h in db.rowLinks ==> db.rowLinks[h].row in db.rows)
    && (forall h :: h in db.personLinks ==> db.personLinks[h].identity in db.identities)
  }

  predicate LiveRowLink(db: Db, h: Hash) {
    h in db.rowLinks && !db.rowLinks[h].used && !db.rowLinks[h].cancelled && db.clock < db.rowLinks[h].expires
  }

  predicate LivePersonLink(db: Db, h: Hash) {
    h in db.personLinks && !db.personLinks[h].used && !db.personLinks[h].cancelled && db.clock < db.personLinks[h].expires
  }

  function StandingOf(db: Db, h: Hash): Standing
    requires Sound(db) && h in db.rowLinks
  {
    db.rows[db.rowLinks[h].row].standing
  }

  /** The link is live and its row active: all that the code asks of it, but for the row's standing. */
  predicate Usable(db: Db, h: Hash)
    requires Sound(db)
  {
    LiveRowLink(db, h) && db.rows[db.rowLinks[h].row].active
  }

  predicate RefusedIn(db: Db, h: Hash) {
    h in db.rowLinks && db.rowLinks[h].row in db.rows && db.rows[db.rowLinks[h].row].standing.Refused?
  }

  predicate IsSpent(db: Db, h: Hash) {
    (h in db.rowLinks && db.rowLinks[h].used) || (h in db.personLinks && db.personLinks[h].used)
  }

  // ----------------------------------------------------------- the three spends

  function CancelRowLinks(db: Db, rows: set<RowId>): map<Hash, RowLink> {
    map x | x in db.rowLinks ::
      if db.rowLinks[x].row in rows && LiveRowLink(db, x) then db.rowLinks[x].(cancelled := true) else db.rowLinks[x]
  }

  function CancelPersonLinks(db: Db, i: IdentityId): map<Hash, PersonLink> {
    map x | x in db.personLinks ::
      if db.personLinks[x].identity == i && LivePersonLink(db, x) then db.personLinks[x].(cancelled := true)
      else db.personLinks[x]
  }

  /** New password, no session left. */
  function ResetRows(db: Db, rows: set<RowId>, digest: Digest): map<RowId, Row> {
    map r | r in db.rows :: if r in rows then db.rows[r].(password := digest, sessions := {}) else db.rows[r]
  }

  function RowsOf(db: Db, i: IdentityId): set<RowId> {
    set r | r in db.rows && db.rows[r].standing == Linked(i)
  }

  /** What a consumption writes to a person: the identity, every linked row, and every other live link. */
  function ResetPerson(db: Db, i: IdentityId, digest: Digest): Db {
    db.(identities := db.identities[i := digest],
        rows := ResetRows(db, RowsOf(db, i), digest),
        rowLinks := CancelRowLinks(db, RowsOf(db, i)),
        personLinks := CancelPersonLinks(db, i))
  }

  function UseRowLink(db: Db, h: Hash): Db
    requires h in db.rowLinks
  {
    db.(rowLinks := db.rowLinks[h := db.rowLinks[h].(used := true)])
  }

  function UsePersonLink(db: Db, h: Hash): Db
    requires h in db.personLinks
  {
    db.(personLinks := db.personLinks[h := db.personLinks[h].(used := true)])
  }

  /** Somebody may spend the link now. */
  predicate Spendable(db: Db, h: Hash)
    requires Sound(db)
  {
    LivePersonLink(db, h) || (Usable(db, h) && !StandingOf(db, h).Refused?)
  }

  /** The rows a consumption of the link writes. */
  function Reach(db: Db, h: Hash): set<RowId>
    requires Sound(db) && Spendable(db, h)
  {
    if h in db.personLinks then RowsOf(db, db.personLinks[h].identity)
    else if StandingOf(db, h).Linked? then RowsOf(db, StandingOf(db, h).identity)
    else {db.rowLinks[h].row}
  }

  /** The database after the link is spent, by whichever of the three paths is its own. */
  function Spend(db: Db, h: Hash, digest: Digest): Db
    requires Sound(db) && Spendable(db, h)
  {
    if h in db.personLinks then ResetPerson(UsePersonLink(db, h), db.personLinks[h].identity, digest)
    else if StandingOf(db, h).Linked? then ResetPerson(UseRowLink(db, h), StandingOf(db, h).identity, digest)
    else
      var used := UseRowLink(db, h);
      used.(rows := ResetRows(db, {db.rowLinks[h].row}, digest), rowLinks := CancelRowLinks(used, {db.rowLinks[h].row}))
  }

  // ------------------------------------------------------------ everybody else

  datatype Event =
    | Tick(ticks: nat)
    | NewRow(r: RowId, row: Row)
    | NewIdentity(i: IdentityId, password: Digest)
    | MintRowLink(h: Hash, r: RowId, expires: int)
    | MintPersonLink(h: Hash, i: IdentityId, expires: int)
    | WithdrawRowLink(h: Hash)
    | WithdrawPersonLink(h: Hash)
    | LinkRow(r: RowId, i: IdentityId)              // or relink
    | RefuseRow(r: RowId, sentinel: Digest)
    | SetActive(r: RowId, active: bool)
    | SetPassword(r: RowId, password: Digest)
    | SetSessions(r: RowId, sessions: set<SessionId>)
    | SpendLink(h: Hash, digest: Digest)            // another consumption

  predicate Enabled(db: Db, e: Event)
    requires Sound(db)
  {
    match e
    case Tick(_) => true
    case NewRow(r, row) => r !in db.rows
    case NewIdentity(i, _) => i !in db.identities
    case MintRowLink(h, r, _) => h !in db.rowLinks && h !in db.personLinks && r in db.rows
    case MintPersonLink(h, i, _) => h !in db.rowLinks && h !in db.personLinks && i in db.identities
    case WithdrawRowLink(h) => h in db.rowLinks && !db.rowLinks[h].used
    case WithdrawPersonLink(h) => h in db.personLinks && !db.personLinks[h].used
    case LinkRow(r, i) => r in db.rows && i in db.identities && !db.rows[r].standing.Linked?
    case RefuseRow(r, _) => r in db.rows && db.rows[r].standing.Linked?
    case SetActive(r, _) => r in db.rows
    case SetPassword(r, _) => r in db.rows
    case SetSessions(r, _) => r in db.rows
    case SpendLink(h, _) => Spendable(db, h)
  }

  function Apply(db: Db, e: Event): Db
    requires Sound(db) && Enabled(db, e)
  {
    match e
    case Tick(ticks) => db.(clock := db.clock + ticks)
    case NewRow(r, row) => db.(rows := db.rows[r := row])
    case NewIdentity(i, password) => db.(identities := db.identities[i := password])
    case MintRowLink(h, r, expires) => db.(rowLinks := db.rowLinks[h := RowLink(r, expires, false, false)])
    case MintPersonLink(h, i, expires) => db.(personLinks := db.personLinks[h := PersonLink(i, expires, false, false)])
    case WithdrawRowLink(h) => db.(rowLinks := db.rowLinks[h := db.rowLinks[h].(cancelled := true)])
    case WithdrawPersonLink(h) => db.(personLinks := db.personLinks[h := db.personLinks[h].(cancelled := true)])
    case LinkRow(r, i) => db.(rows := db.rows[r := db.rows[r].(standing := Linked(i), sessions := {})])
    case RefuseRow(r, sentinel) =>
      db.(rows := db.rows[r := Row(db.rows[r].active, Refused, sentinel, {})], rowLinks := CancelRowLinks(db, {r}))
    case SetActive(r, active) => db.(rows := db.rows[r := db.rows[r].(active := active)])
    case SetPassword(r, password) => db.(rows := db.rows[r := db.rows[r].(password := password)])
    case SetSessions(r, sessions) => db.(rows := db.rows[r := db.rows[r].(sessions := sessions)])
    case SpendLink(h, digest) => Spend(db, h, digest)
  }

  ghost predicate Step(db: Db, db': Db) {
    Sound(db) && Sound(db') && exists e :: Enabled(db, e) && db' == Apply(db, e)
  }

  ghost predicate Path(states: seq<Db>) {
    && |states| > 0 && (forall k :: 0 <= k < |states| ==> Sound(states[k]))
    && forall k :: 0 <= k < |states| - 1 ==> Step(states[k], states[k + 1])
  }

  /** `db'` has the rows, identities and links of `db`, each in its place. */
  ghost predicate SamePlaces(db: Db, db': Db) {
    && db'.rows.Keys == db.rows.Keys && db.identities.Keys <= db'.identities.Keys
    && db'.rowLinks.Keys == db.rowLinks.Keys && db'.personLinks.Keys == db.personLinks.Keys
    && (forall r :: r in db.rows ==> db'.rows[r].standing == db.rows[r].standing)
    && (forall h :: h in db.rowLinks ==> db'.rowLinks[h].row == db.rowLinks[h].row)
    && (forall h :: h in db.personLinks ==> db'.personLinks[h].identity == db.personLinks[h].identity)
  }

  lemma ResetPersonKeepsPlaces(db: Db, i: IdentityId, digest: Digest)
    ensures SamePlaces(db, ResetPerson(db, i, digest))
  {
    hide LiveRowLink, LivePersonLink, RowsOf;
  }

  lemma ResetRowKeepsPlaces(db: Db, r: RowId, digest: Digest)
    ensures SamePlaces(db, db.(rows := ResetRows(db, {r}, digest), rowLinks := CancelRowLinks(db, {r})))
  {
    hide LiveRowLink;
  }

  lemma UseKeepsPlaces(db: Db, h: Hash)
    ensures h in db.rowLinks ==> SamePlaces(db, UseRowLink(db, h))
    ensures h in db.personLinks ==> SamePlaces(db, UsePersonLink(db, h))
  {
  }

  lemma PlacesChain(a: Db, b: Db, c: Db)
    requires SamePlaces(a, b) && SamePlaces(b, c)
    ensures SamePlaces(a, c)
  {
  }

  /** A consumption adds nothing, removes nothing and moves nothing. */
  lemma SpendKeepsPlaces(db: Db, h: Hash, digest: Digest)
    requires Sound(db) && Spendable(db, h)
    ensures SamePlaces(db, Spend(db, h, digest))
  {
    hide SamePlaces, ResetPerson, UseRowLink, UsePersonLink, ResetRows, CancelRowLinks, RowsOf;
    UseKeepsPlaces(db, h);
    if h in db.personLinks {
      var used, i := UsePersonLink(db, h), db.personLinks[h].identity;
      ResetPersonKeepsPlaces(used, i, digest);
      PlacesChain(db, used, ResetPerson(used, i, digest));
    } else {
      var used := UseRowLink(db, h);
      if StandingOf(db, h).Linked? {
        ResetPersonKeepsPlaces(used, StandingOf(db, h).identity, digest);
      } else {
        SpendsRow(db, h, digest);
        ResetRowKeepsPlaces(used, db.rowLinks[h].row, digest);
      }
      PlacesChain(db, used, Spend(db, h, digest));
    }
  }

  lemma SpendsRow(db: Db, h: Hash, digest: Digest)
    requires Sound(db) && Spendable(db, h) && h !in db.personLinks && !StandingOf(db, h).Linked?
    ensures var used, r := UseRowLink(db, h), db.rowLinks[h].row;
            Spend(db, h, digest) == used.(rows := ResetRows(used, {r}, digest), rowLinks := CancelRowLinks(used, {r}))
  {
    hide CancelRowLinks, RowsOf;
  }

  lemma SamePlacesSound(db: Db, db': Db)
    requires Sound(db) && SamePlaces(db, db')
    ensures Sound(db')
  {
  }

  lemma EventKeepsSound(db: Db, e: Event)
    requires Sound(db) && Enabled(db, e) && !e.SpendLink?
    ensures Sound(Apply(db, e)) && db.rowLinks.Keys <= Apply(db, e).rowLinks.Keys
  {
    hide Spend, Spendable, LiveRowLink, LivePersonLink;
  }

  lemma KeepsSound(db: Db, e: Event)
    requires Sound(db) && Enabled(db, e)
    ensures Sound(Apply(db, e))
    ensures db.rowLinks.Keys <= Apply(db, e).rowLinks.Keys
  {
    hide Sound, Spend, Spendable;
    if e.SpendLink? {
      SpendKeepsPlaces(db, e.h, e.digest);
      SamePlacesSound(db, Apply(db, e));
    } else {
      EventKeepsSound(db, e);
    }
  }

  lemma IsStep(states: seq<Db>, db: Db, e: Event)
    requires Path(states) && states[|states| - 1] == db && Sound(db) && Enabled(db, e)
    ensures Sound(Apply(db, e)) && db.rowLinks.Keys <= Apply(db, e).rowLinks.Keys
    ensures Path(states + [Apply(db, e)])
  {
    KeepsSound(db, e);
    var db' := Apply(db, e);
    assert Enabled(db, e) && db' == Apply(db, e);
    assert Step(db, db');
    hide Apply, Enabled, Step, Sound;
  }

  // --------------------------------------------------------- what a spend means

  /** The identity the link speaks for: a per-person link's own, or the one its row is linked to. */
  function PersonOf(db: Db, h: Hash): Option<IdentityId>
    requires Sound(db) && (h in db.rowLinks || h in db.personLinks)
  {
    if h in db.personLinks then Some(db.personLinks[h].identity)
    else match db.rows[db.rowLinks[h].row].standing
      case Linked(i) => Some(i)
      case _ => None
  }

  /** Row `r` is the link's own, or its person's. */
  ghost predicate Reached(db: Db, h: Hash, r: RowId)
    requires Sound(db) && (h in db.rowLinks || h in db.personLinks)
  {
    match PersonOf(db, h)
    case Some(i) => r in db.rows && db.rows[r].standing == Linked(i)
    case None => r == db.rowLinks[h].row
  }

  lemma ReachIsReached(db: Db, h: Hash)
    requires Sound(db) && Spendable(db, h)
    ensures forall r :: r in Reach(db, h) <==> Reached(db, h, r)
  {
    hide LivePersonLink;
  }

  /** A consumption spends the link and no other, gives every row it reaches the new password and leaves those
      rows no session and no live link; it touches no other row and no other row's links. */
  lemma SpendReaches(db: Db, h: Hash, digest: Digest)
    requires Sound(db) && Spendable(db, h)
    ensures !IsSpent(db, h) && forall x :: IsSpent(Spend(db, h, digest), x) <==> x == h || IsSpent(db, x)
    ensures Spend(db, h, digest).rows.Keys == db.rows.Keys && Spend(db, h, digest).clock == db.clock
    ensures forall r :: r in db.rows && Reached(db, h, r) ==>
              Spend(db, h, digest).rows[r] == db.rows[r].(password := digest, sessions := {})
    ensures forall r :: r in db.rows && !Reached(db, h, r) ==> Spend(db, h, digest).rows[r] == db.rows[r]
    ensures forall x :: LiveRowLink(Spend(db, h, digest), x) ==> x in db.rowLinks && !Reached(db, h, db.rowLinks[x].row)
    ensures forall x :: x in db.rowLinks && !Reached(db, h, db.rowLinks[x].row) ==>
              x in Spend(db, h, digest).rowLinks && Spend(db, h, digest).rowLinks[x] == db.rowLinks[x]
    ensures h in db.rowLinks ==> Reached(db, h, db.rowLinks[h].row)
  {
    hide Reach, Reached, PersonOf, Spend, Spendable, LiveRowLink, IsSpent;
    ReachIsReached(db, h);
    SpendReachesRows(db, h, digest);
    SpendReachesLinks(db, h, digest);
    SpendsItsOwn(db, h, digest);
    OfSomebody(db, h);
  }

  lemma OfSomebody(db: Db, h: Hash)
    requires Sound(db) && Spendable(db, h)
    ensures h in db.rowLinks || h in db.personLinks
    ensures forall r :: r in Reach(db, h) ==> r in db.rows
  {
  }

  lemma SpendReachesRows(db: Db, h: Hash, digest: Digest)
    requires Sound(db) && Spendable(db, h)
    ensures Spend(db, h, digest).rows.Keys == db.rows.Keys && Spend(db, h, digest).clock == db.clock
    ensures forall r :: r in db.rows && r in Reach(db, h) ==>
              Spend(db, h, digest).rows[r] == db.rows[r].(password := digest, sessions := {})
    ensures forall r :: r in db.rows && r !in Reach(db, h) ==> Spend(db, h, digest).rows[r] == db.rows[r]
    ensures h in db.rowLinks ==> db.rowLinks[h].row in Reach(db, h)
  {
    hide CancelRowLinks, CancelPersonLinks, LivePersonLink;
  }

  /** The database once the link is used, before anything is cancelled. */
  function Used(db: Db, h: Hash): Db
    requires h in db.rowLinks || h in db.personLinks
  {
    if h in db.personLinks then UsePersonLink(db, h) else UseRowLink(db, h)
  }

  lemma SpendCancels(db: Db, h: Hash, digest: Digest)
    requires Sound(db) && Spendable(db, h)
    ensures Spend(db, h, digest).rowLinks == CancelRowLinks(Used(db, h), Reach(db, h))
    ensures Spend(db, h, digest).clock == db.clock
  {
    hide CancelRowLinks, ResetRows, CancelPersonLinks, LivePersonLink;
  }

  lemma CancelsTheirs(db: Db, h: Hash, rows: set<RowId>)
    requires Sound(db) && (h in db.rowLinks || h in db.personLinks) && (h in db.rowLinks ==> db.rowLinks[h].row in rows)
    ensures var links := CancelRowLinks(Used(db, h), rows);
            && (forall x :: x in links <==> x in db.rowLinks)
            && (forall x :: x in links && !links[x].used && !links[x].cancelled && db.clock < links[x].expires ==>
                  db.rowLinks[x].row !in rows)
            && forall x :: x in db.rowLinks && db.rowLinks[x].row !in rows ==> links[x] == db.rowLinks[x]
  {
  }

  lemma SpendReachesLinks(db: Db, h: Hash, digest: Digest)
    requires Sound(db) && Spendable(db, h)
    ensures forall x :: LiveRowLink(Spend(db, h, digest), x) ==> x in db.rowLinks && db.rowLinks[x].row !in Reach(db, h)
    ensures forall x :: x in db.rowLinks && db.rowLinks[x].row !in Reach(db, h) ==>
              x in Spend(db, h, digest).rowLinks && Spend(db, h, digest).rowLinks[x] == db.rowLinks[x]
  {
    hide Spend, Spendable, Reach, CancelRowLinks, Sound;
    OfSomebody(db, h);
    SpendCancels(db, h, digest);
    SpendReachesRows(db, h, digest);
    CancelsTheirs(db, h, Reach(db, h));
  }

  lemma SpendsItsOwn(db: Db, h: Hash, digest: Digest)
    requires Sound(db) && Spendable(db, h)
    ensures !IsSpent(db, h) && forall x :: IsSpent(Spend(db, h, digest), x) <==> x == h || IsSpent(db, x)
  {
    hide ResetRows, RowsOf;
  }

  /** What a consumption does to people: the link's own person gets the new password and keeps no live link of its
      own, and nobody else's password or links move. A link of a row that is nobody's moves no person at all. */
  lemma SpendRenewsThePerson(db: Db, h: Hash, digest: Digest)
    requires Sound(db) && Spendable(db, h)
    ensures match PersonOf(db, h)
            case None =>
              Spend(db, h, digest).identities == db.identities && Spend(db, h, digest).personLinks == db.personLinks
            case Some(i) =>
              && Spend(db, h, digest).identities.Keys == db.identities.Keys + {i}
              && Spend(db, h, digest).identities[i] == digest
              && (forall j :: j in db.identities && j != i ==> Spend(db, h, digest).identities[j] == db.identities[j])
              && (forall x :: LivePersonLink(Spend(db, h, digest), x) ==> x in db.personLinks && db.personLinks[x].identity != i)
              && forall x :: x in db.personLinks && db.personLinks[x].identity != i ==>
                   x in Spend(db, h, digest).personLinks && Spend(db, h, digest).personLinks[x] == db.personLinks[x]
  {
    hide ResetRows, RowsOf, CancelRowLinks;
  }

  /** The link could be spent: neither used nor withdrawn, its time not over; a row's link, of an active row whose
      person has not refused it. */
  ghost predicate CouldBeSpent(db: Db, h: Hash) {
    || (h in db.personLinks && !db.personLinks[h].used && !db.personLinks[h].cancelled && db.clock < db.personLinks[h].expires)
    || (&& h in db.rowLinks && !db.rowLinks[h].used && !db.rowLinks[h].cancelled && db.clock < db.rowLinks[h].expires
        && db.rowLinks[h].row in db.rows && db.rows[db.rowLinks[h].row].active
        && !db.rows[db.rowLinks[h].row].standing.Refused?)
  }

  lemma SpendableMeans(db: Db, h: Hash)
    requires Sound(db)
    ensures Spendable(db, h) <==> CouldBeSpent(db, h)
  {
  }

  /** The new password is the one that lets the link's person in, and the only one on every row it reaches; no
      session of those rows is left. */
  ghost predicate Renewed(before: Db, after: Db, h: Hash, digest: Digest)
    requires Sound(before)
  {
    && CouldBeSpent(before, h) && !IsSpent(before, h) && IsSpent(after, h)
    && (PersonOf(before, h).Some? ==>
          PersonOf(before, h).value in after.identities && after.identities[PersonOf(before, h).value] == digest)
    && forall r :: r in before.rows && Reached(before, h, r) ==>
         r in after.rows && after.rows[r].password == digest && after.rows[r].sessions == {}
  }

  lemma SpendRenews(db: Db, h: Hash, digest: Digest)
    requires Sound(db) && Spendable(db, h)
    ensures Renewed(db, Spend(db, h, digest), h, digest)
  {
    hide Spend, Spendable, Reach, Reached, IsSpent, PersonOf, LiveRowLink, LivePersonLink, CouldBeSpent;
    OfSomebody(db, h);
    SpendableMeans(db, h);
    SpendReaches(db, h, digest);
    SpendRenewsThePerson(db, h, digest);
  }

  /** A person may refuse a membership while a link to it is live: the link dies with it, and so do the row's sessions. */
  lemma RefusingEndsTheLink(db: Db, h: Hash, sentinel: Digest)
    requires Sound(db) && LiveRowLink(db, h) && StandingOf(db, h).Linked?
    ensures Enabled(db, RefuseRow(db.rowLinks[h].row, sentinel))
    ensures var db', r := Apply(db, RefuseRow(db.rowLinks[h].row, sentinel)), db.rowLinks[h].row;
            && !CouldBeSpent(db', h) && RefusedIn(db', h)
            && db'.rows == db.rows[r := Row(db.rows[r].active, Refused, sentinel, {})]
            && forall x :: x in db.rowLinks && db.rowLinks[x].row != r ==> x in db'.rowLinks && db'.rowLinks[x] == db.rowLinks[x]
  {
  }

  /** And a row that is nobody's may be linked while a link to it is live: the link stays, for its new person. */
  lemma LinkingKeepsTheLink(db: Db, h: Hash, i: IdentityId)
    requires Sound(db) && LiveRowLink(db, h) && !StandingOf(db, h).Linked? && i in db.identities
    ensures Enabled(db, LinkRow(db.rowLinks[h].row, i))
    ensures var db', r := Apply(db, LinkRow(db.rowLinks[h].row, i)), db.rowLinks[h].row;
            && Sound(db') && LiveRowLink(db', h) && PersonOf(db', h) == Some(i)
            && db'.rows == db.rows[r := Row(db.rows[r].active, Linked(i), db.rows[r].password, {})]
  {
  }

  /** Refusing a membership cancels its links: while a link is live its row stays the identity's. */
  lemma StaysLinked(db: Db, db': Db, h: Hash)
    requires Step(db, db') && LiveRowLink(db, h) && LiveRowLink(db', h)
    ensures db'.rowLinks[h].row == db.rowLinks[h].row
    ensures StandingOf(db, h).Linked? ==> StandingOf(db', h) == StandingOf(db, h)
    ensures StandingOf(db', h).Refused? ==> StandingOf(db, h).Refused?
  {
    var e :| Enabled(db, e) && db' == Apply(db, e);
    hide Step;
    if e.SpendLink? {
      SpendKeepsStandings(db, e.h, e.digest);
      hide Spend, Spendable, Sound;
    } else {
      EventKeepsStanding(db, e, h);
      hide Apply, Enabled, Sound;
    }
  }

  lemma EventKeepsStanding(db: Db, e: Event, h: Hash)
    requires Sound(db) && Enabled(db, e) && !e.SpendLink? && Sound(Apply(db, e))
    requires LiveRowLink(db, h) && LiveRowLink(Apply(db, e), h)
    ensures Apply(db, e).rowLinks[h].row == db.rowLinks[h].row
    ensures StandingOf(db, h).Linked? ==> StandingOf(Apply(db, e), h) == StandingOf(db, h)
    ensures StandingOf(Apply(db, e), h).Refused? ==> StandingOf(db, h).Refused?
  {
    hide Spend, Spendable;
  }

  lemma SpendKeepsStandings(db: Db, x: Hash, digest: Digest)
    requires Sound(db) && Spendable(db, x)
    ensures forall r :: r in db.rows ==>
              r in Spend(db, x, digest).rows && Spend(db, x, digest).rows[r].standing == db.rows[r].standing
    ensures forall h :: h in db.rowLinks ==>
              h in Spend(db, x, digest).rowLinks && Spend(db, x, digest).rowLinks[h].row == db.rowLinks[h].row
  {
    hide Sound, Spendable, Spend;
    SpendKeepsPlaces(db, x, digest);
  }

  lemma SpendKeepsSpent(db: Db, x: Hash, digest: Digest, h: Hash)
    requires Sound(db) && Spendable(db, x) && IsSpent(db, h)
    ensures IsSpent(Spend(db, x, digest), h)
  {
  }

  lemma EventKeepsSpent(db: Db, e: Event, h: Hash)
    requires Sound(db) && Enabled(db, e) && IsSpent(db, h)
    ensures IsSpent(Apply(db, e), h)
  {
    if e.SpendLink? { SpendKeepsSpent(db, e.h, e.digest, h); }
    hide Spend, Spendable, Sound;
  }

  lemma SpentStays(db: Db, db': Db, h: Hash)
    requires Step(db, db') && IsSpent(db, h)
    ensures IsSpent(db', h)
  {
    var e :| Enabled(db, e) && db' == Apply(db, e);
    hide *;
    EventKeepsSpent(db, e, h);
  }

  // --------------------------------------------------------------- whole runs

  lemma {:induction false} SpentForGood(states: seq<Db>, j: nat, k: nat, h: Hash)
    requires Path(states) && j <= k < |states| && IsSpent(states[j], h)
    ensures IsSpent(states[k], h)
  {
    hide *;
    if j < k {
      SpentForGood(states, j, k - 1, h);
      StepAt(states, k - 1);
      SpentStays(states[k - 1], states[k], h);
    }
  }

  /** Of all consumptions of one link, by anybody and over any path, at most one happens. */
  lemma SpentAtMostOnce(states: seq<Db>, j: nat, k: nat, h: Hash)
    requires Path(states) && j + 1 < |states| && k + 1 < |states|
    requires !IsSpent(states[j], h) && IsSpent(states[j + 1], h)
    requires !IsSpent(states[k], h) && IsSpent(states[k + 1], h)
    ensures j == k
  {
    hide *;
    if j < k {
      SpentForGood(states, j + 1, k, h);
    } else if k < j {
      SpentForGood(states, k + 1, j, h);
    }
  }

  /** From state `from` on the link is live and its row active. */
  ghost predicate Steady(states: seq<Db>, from: nat, h: Hash) {
    forall k :: from <= k < |states| ==> Sound(states[k]) && Usable(states[k], h)
  }

  ghost predicate SteadyPerson(states: seq<Db>, from: nat, h: Hash) {
    forall k :: from <= k < |states| ==> LivePersonLink(states[k], h)
  }

  lemma StepAt(states: seq<Db>, k: nat)
    requires Path(states) && k + 1 < |states|
    ensures Step(states[k], states[k + 1])
  {
  }

  lemma SteadyAt(states: seq<Db>, from: nat, k: nat, h: Hash)
    requires Steady(states, from, h) && from <= k < |states|
    ensures Sound(states[k]) && Usable(states[k], h) && LiveRowLink(states[k], h) && h in states[k].rowLinks
  {
  }

  lemma {:induction false} SteadyStaysLinked(states: seq<Db>, from: nat, j: nat, k: nat, h: Hash)
    requires Path(states) && Steady(states, from, h) && from <= j <= k < |states|
    requires Sound(states[j]) && h in states[j].rowLinks && Sound(states[k]) && h in states[k].rowLinks
    ensures StandingOf(states[j], h).Linked? ==> StandingOf(states[k], h) == StandingOf(states[j], h)
    ensures StandingOf(states[k], h).Refused? ==> StandingOf(states[j], h).Refused?
  {
    hide *;
    if j < k {
      SteadyAt(states, from, k - 1, h);
      SteadyAt(states, from, k, h);
      StepAt(states, k - 1);
      SteadyStaysLinked(states, from, j, k - 1, h);
      StaysLinked(states[k - 1], states[k], h);
    }
  }

  // ----------------------------------------------------------------- the calls

  datatype Reply = Done | NoRows | Error

  datatype Answer =
    | Spent
    | Unusable   // ErrResetUnusable, the one refusal
    | Failed     // any other error

  /** The database one request talks to. `mine`: the steps of `history` this request wrote. */
  class Server {
    var db: Db
    const reliable: bool         // every call is answered
    ghost var history: seq<Db>   // every state so far, the present one last
    ghost var mine: set<nat>

    ghost predicate Valid()
      reads this
    {
      |history| > 0 && Path(history) && history[|history| - 1] == db && Sound(db)
    }

    constructor (db: Db, reliable: bool)
      requires Sound(db)
      ensures Valid() && this.db == db && this.reliable == reliable && mine == {} && history == [db]
    {
      this.db, this.reliable := db, reliable;
      history, mine := [db], {};
    }

    /** Everybody else, until the next moment this request looks. */
    method Others()
      requires Valid()
      modifies this
      ensures Valid() && mine == old(mine) && old(history) <= history
      ensures old(db).rowLinks.Keys <= db.rowLinks.Keys
    {
      var n: nat := *;
      while n > 0
        invariant Valid() && mine == old(mine) && old(history) <= history
        invariant old(db).rowLinks.Keys <= db.rowLinks.Keys
      {
        var e: Event := *;
        if Enabled(db, e) {
          IsStep(history, db, e);
          db := Apply(db, e);
          history := history + [db];
        }
        n := n - 1;
      }
    }

    /** This request's own write. */
    method Write(h: Hash, digest: Digest)
      requires Valid() && Spendable(db, h)
      modifies this
      ensures Valid() && history == old(history) + [db] && mine == old(mine) + {|old(history)|}
      ensures db == Spend(old(db), h, digest) && old(db).rowLinks.Keys <= db.rowLinks.Keys
    {
      IsStep(history, db, SpendLink(h, digest));
      hide Path, Spend;
      db := Spend(db, h, digest);
      history, mine := history + [db], mine + {|history|};
    }

    /** The request wrote once, last, and it was the link's own spend. */
    ghost predicate WroteLast(before: nat, h: Hash, digest: Digest)
      requires Valid()
      reads this
    {
      && 0 < before < |history| && mine == {|history| - 1}
      && Sound(history[|history| - 2]) && Spendable(history[|history| - 2], h)
      && db == Spend(history[|history| - 2], h, digest)
    }

    /** The states the others made. */
    ghost function Theirs(): (states: seq<Db>)
      requires Valid()
      reads this
    {
      if |history| - 1 in mine then history[..|history| - 1] else history
    }

    /** identity_consume_reset. */
    method AskPerson(h: Hash, digest: Digest) returns (r: Reply)
      requires Valid() && mine == {}
      modifies this
      ensures Valid() && old(history) <= history && old(db).rowLinks.Keys <= db.rowLinks.Keys
      ensures r.Done? ==> WroteLast(|old(history)|, h, digest) && h in history[|history| - 2].personLinks
      ensures r.NoRows? ==> mine == {} && !SteadyPerson(history, |old(history)| - 1, h)
      ensures r.Error? ==> !reliable && (mine == {} || WroteLast(|old(history)|, h, digest))
      ensures h in old(db).rowLinks && reliable ==> r.NoRows?
    {
      hide Path, Spend, Step;
      Others();
      var down: bool := *;
      if down && !reliable { return Error; }
      if !LivePersonLink(db, h) { return NoRows; }
      Others();                                      // the locks: the identity, its rows, the link
      if !LivePersonLink(db, h) { return NoRows; }
      Write(h, digest);
      down := *;
      r := if down && !reliable then Error else Done;
    }

    /** identity_consume_row_reset. */
    method AskRow(h: Hash, digest: Digest) returns (r: Reply)
      requires Valid() && mine == {}
      modifies this
      ensures Valid() && old(history) <= history && old(db).rowLinks.Keys <= db.rowLinks.Keys
      ensures r.Done? ==> WroteLast(|old(history)|, h, digest) && PersonOf(history[|history| - 2], h).Some?
      ensures r.NoRows? ==> mine == {}
      ensures r.NoRows? && h in old(db).rowLinks && Steady(history, |old(history)| - 1, h) ==>
                !StandingOf(old(db), h).Linked?
      ensures r.Error? ==> !reliable && (mine == {} || WroteLast(|old(history)|, h, digest))
    {
      hide Path, Spend, Step, Steady;
      ghost var from := |history| - 1;
      Others();
      var down: bool := *;
      if down && !reliable { return Error; }
      ghost var glance := |history| - 1;
      if !Usable(db, h) || !StandingOf(db, h).Linked? {
        NotLinkedBefore(history, from, h);
        return NoRows;
      }
      var identity := StandingOf(db, h).identity;
      Others();                                      // the locks: the identity, its rows, the link
      if !Usable(db, h) || StandingOf(db, h) != Linked(identity) {
        NotMoved(history, from, glance, h);
        return NoRows;
      }
      Write(h, digest);
      down := *;
      r := if down && !reliable then Error else Done;
    }

    /** ConsumePasswordResetAndSetPassword and the revocation, one transaction: it writes an unlinked row
        only, and a refused one's trigger raises. */
    method Today(h: Hash, digest: Digest) returns (r: Reply)
      requires Valid() && mine == {}
      modifies this
      ensures Valid() && old(history) <= history && old(db).rowLinks.Keys <= db.rowLinks.Keys
      ensures r.Done? ==> WroteLast(|old(history)|, h, digest) && PersonOf(history[|history| - 2], h).None?
      ensures r.NoRows? ==> mine == {} && (Usable(db, h) ==> StandingOf(db, h).Linked?)
      ensures r.Error? ==> mine == {} || (WroteLast(|old(history)|, h, digest) && !reliable)
      ensures r.Error? && reliable ==> Usable(db, h) && StandingOf(db, h).Refused?
    {
      hide Path, Spend, Step;
      Others();
      var down: bool := *;
      if down && !reliable { return Error; }
      if !Usable(db, h) { return NoRows; }
      match StandingOf(db, h) {
        case Linked(_) => return NoRows;
        case Refused => return Error;
        case Unlinked =>
      }
      Write(h, digest);
      down := *;
      r := if down && !reliable then Error else Done;
    }

    /** Today's path, and the linked row's once more. */
    method AskTodayThenRow(h: Hash, digest: Digest) returns (r: Reply)
      requires Valid() && mine == {}
      modifies this
      ensures Valid() && old(history) <= history && old(db).rowLinks.Keys <= db.rowLinks.Keys
      ensures r.Done? ==> WroteLast(|old(history)|, h, digest)
      ensures r.NoRows? ==> mine == {} && !Steady(history, |old(history)| - 1, h)
      ensures r.Error? ==> mine == {} || (WroteLast(|old(history)|, h, digest) && !reliable)
      ensures r.Error? && reliable ==> RefusedIn(db, h)
    {
      hide Path, Spend, Step, Steady;
      ghost var from := |history| - 1;
      r := Today(h, digest);
      if !r.NoRows? { return; }
      ghost var later := |history| - 1;
      ghost var wasUsable := Usable(db, h);
      r := AskRow(h, digest);                        // linked since
      SteadyFrom(history, from, later, h);
    }

    /** Every call but the first: the per-row link's. */
    method AskRowPaths(h: Hash, digest: Digest) returns (r: Reply)
      requires Valid() && mine == {}
      modifies this
      ensures Valid() && old(history) <= history && old(db).rowLinks.Keys <= db.rowLinks.Keys
      ensures r.Done? ==> WroteLast(|old(history)|, h, digest)
      ensures r.NoRows? ==> mine == {}
      ensures r.NoRows? && h in old(db).rowLinks ==> !reliable || !Steady(history, |old(history)| - 1, h)
      ensures r.Error? ==> mine == {} || (WroteLast(|old(history)|, h, digest) && !reliable)
      ensures r.Error? && reliable ==> RefusedIn(db, h)
    {
      hide Path, Spend, Step, Steady, Spendable, Usable;
      ghost var from := |history| - 1;
      r := AskRow(h, digest);
      if !r.NoRows? { return; }
      Others();                                      // get_password_reset_by_token_hash
      var down: bool := *;
      if down && !reliable { return Error; }
      if h !in db.rowLinks {
        down := *;                                   // get_identity_reset_by_token_hash
        return if down && !reliable then Error else NoRows;
      }
      ghost var later := |history| - 1;
      r := AskTodayThenRow(h, digest);
      SteadyFrom(history, from, later, h);
    }

    /** Spends the link once, or leaves everything as the others made it; a refusal writes nothing. If the
        link stays live and its row active, it is spent wherever the linking step falls, unless the person
        had refused the membership: then the row's trigger raises. */
    method Consume(token: Option<Hash>, password: Option<Digest>) returns (a: Answer)
      requires Valid() && mine == {}
      modifies this
      ensures Valid() && old(history) <= history
      ensures a.Spent? ==> token.Some? && password.Some? && WroteLast(|old(history)|, token.value, password.value)
      ensures a.Spent? ==> Renewed(history[|history| - 2], db, token.value, password.value)
      ensures a.Unusable? ==> mine == {}
      ensures token.None? ==> a.Unusable?
      ensures token.Some? && password.None? ==> a.Failed?
      ensures token.Some? && reliable && a.Failed? ==> password.None? || RefusedIn(db, token.value)
      ensures a.Failed? ==>
                mine == {} || (!reliable && token.Some? && password.Some?
                               && WroteLast(|old(history)|, token.value, password.value))
      ensures var states := Theirs();
              token.Some? && password.Some? && reliable && token.value in old(db).rowLinks
              && Steady(states, |old(history)| - 1, token.value) ==>
                (a.Spent? <==> !RefusedIn(states[|states| - 1], token.value))
      ensures token.Some? && password.Some? && reliable && SteadyPerson(Theirs(), |old(history)| - 1, token.value) ==> a.Spent?
    {
      hide Path, Spend, Step, Steady, Spendable, Usable, LivePersonLink, Renewed;
      if token.None? { return Unusable; }
      if password.None? { return Failed; }
      var h, digest := token.value, password.value;
      ghost var from := |history| - 1;
      var r := AskPerson(h, digest);
      if r.NoRows? {
        ghost var later := |history| - 1;
        r := AskRowPaths(h, digest);
        SteadyFrom(history, from, later, h);
      }
      a := match r case Done => Spent case NoRows => Unusable case Error => Failed;
      if r.Done? {
        NotRefusedWhenSpent(history[|history| - 2], h, digest);
        SpendRenews(history[|history| - 2], h, digest);
      }
    }
  }

  lemma SteadyFrom(states: seq<Db>, from: nat, later: nat, h: Hash)
    requires from <= later < |states|
    ensures Steady(states, from, h) ==> Steady(states, later, h) && Sound(states[later]) && Usable(states[later], h)
  {
  }

  lemma NotRefusedWhenSpent(db: Db, h: Hash, digest: Digest)
    requires Sound(db) && Spendable(db, h) && Sound(Spend(db, h, digest))
    ensures h in Spend(db, h, digest).rowLinks ==> h in db.rowLinks && !RefusedIn(db, h)
  {
  }

  /** Not linked now means not linked then, while the link is steady. */
  lemma NotLinkedBefore(states: seq<Db>, from: nat, h: Hash)
    requires Path(states) && from < |states| && Sound(states[|states| - 1]) && Sound(states[from])
    requires !Usable(states[|states| - 1], h) || !StandingOf(states[|states| - 1], h).Linked?
    ensures Steady(states, from, h) && h in states[from].rowLinks ==> !StandingOf(states[from], h).Linked?
  {
    if Steady(states, from, h) && h in states[from].rowLinks {
      SteadyAt(states, from, |states| - 1, h);
      SteadyStaysLinked(states, from, from, |states| - 1, h);
    }
  }

  /** The re-check finds what the first look found, while the link is steady. */
  lemma NotMoved(states: seq<Db>, from: nat, glance: nat, h: Hash)
    requires Path(states) && from <= glance < |states| && Sound(states[|states| - 1]) && Sound(states[glance])
    requires Usable(states[glance], h)
    requires !Usable(states[|states| - 1], h) || StandingOf(states[|states| - 1], h) != StandingOf(states[glance], h)
    requires StandingOf(states[glance], h).Linked?
    ensures !Steady(states, from, h)
  {
    if Steady(states, from, h) {
      SteadyAt(states, from, |states| - 1, h);
      SteadyAt(states, from, glance, h);
      SteadyStaysLinked(states, from, glance, |states| - 1, h);
    }
  }
}
