/** The idempotent write runner (internal/apikey/writes.go) over the ledger of one API key, as a step
    system: any number of requests and sweeps, interleaved statement by statement, each of which may roll
    back or die at any point.

    The statements are those of db/queries/apiidempotency.sql under READ COMMITTED. What the model takes
    from PostgreSQL is kept visible: `Blocks` is who a statement waits for, `Apply` is what it then does.
 */
module Writes {
  import opened Wrappers

  type Key = nat
  type Hash = nat
  type TxId = nat

  /** Clock ticks are microseconds; a recorded key answers for itself for this long. */
  const DAY: nat := 24 * 3_600_000_000

  datatype Outcome = Outcome(status: int, ref: Option<nat>)

  /** A ledger row. `created` is now() of the transaction that claimed it: that transaction's start.
      `writer` tells one row version of a key from another. */
  datatype Row = Row(writer: TxId, hash: Hash, created: int, result: Option<Outcome>)

  datatype Stage =
    | Begun                      // next: DeleteExpiredIdempotencyForKey
    | Freeing(seen: Option<Row>) // that statement has read the row it will delete, or none
    | Freed                      // next: ClaimIdempotency
    | Claimed                    // next: the work
    | Worked(out: Outcome)       // next: RecordIdempotency
    | Recorded(out: Outcome)     // next: commit
    | Replaying                  // the claim found a row; next: GetIdempotency
    | Answered(out: Outcome)     // next: commit, and answer `out` as replayed

  /** One request's write transaction. `claimedAt` is the clock when the claim went in, `pending` the row the
      claim inserted, uncommitted: no result yet, until the record fills it in. */
  datatype Tx = Tx(key: Key, hash: Hash, start: int, deleted: bool, claimedAt: int, pending: Option<Row>, stage: Stage) {
    /** Whether its claim is in the index, uncommitted. */
    predicate Inserting() { stage.Claimed? || stage.Worked? || stage.Recorded? }
  }

  /** A sweep between its one statement and its commit: the rows it locked and deleted. */
  datatype Sweep = Sweep(start: int, keys: set<Key>)

  datatype Event =
    | Done(key: Key, writer: TxId, hash: Hash, start: int, claimedAt: int, out: Outcome)
    | Replayed(key: Key, hash: Hash, out: Outcome)

  datatype State = State(
    now: int,
    next: TxId,
    ledger: map<Key, Row>,      // committed rows
    txs: map<TxId, Tx>,
    sweeps: map<TxId, Sweep>,
    log: seq<Event>)            // what committed, in commit order

  datatype Action =
    | Tick
    | Begin(key: Key, hash: Hash)
    | StartFree(tx: TxId)
    | FinishFree(tx: TxId)
    | Claim(tx: TxId)
    | Work(tx: TxId, out: Outcome)
    | Record(tx: TxId)
    | Read(tx: TxId)
    | Commit(tx: TxId)
    | RollBack(tx: TxId)        // an error, a refusal, or the process dying
    | SweepRows(keys: set<Key>)
    | SweepCommit(tx: TxId)
    | SweepRollBack(tx: TxId)

  predicate Expired(row: Row, start: int) { row.created < start - DAY }

  /** A row's deletion is pending in request `t`. */
  predicate Deletes(s: State, t: TxId, key: Key) {
    t in s.txs && s.txs[t].deleted && s.txs[t].key == key
  }

  predicate Sweeps(s: State, w: TxId, key: Key) {
    w in s.sweeps && key in s.sweeps[w].keys
  }

  /** Transaction `b` keeps request `t`'s next statement waiting: the DELETE waits for whoever holds the
      row it read; the INSERT waits for whoever has an undecided row of its key in the index. */
  predicate Blocks(s: State, t: TxId, b: TxId) {
    && t in s.txs && t != b
    && var tx := s.txs[t];
       match tx.stage {
         case Freeing(seen) => seen.Some? && (Deletes(s, b, tx.key) || Sweeps(s, b, tx.key))
         case Freed =>
           || Deletes(s, b, tx.key) || Sweeps(s, b, tx.key)
           || (b in s.txs && s.txs[b].Inserting() && s.txs[b].key == tx.key)
         case _ => false
       }
  }

  ghost predicate Runnable(s: State, t: TxId) {
    forall b :: !Blocks(s, t, b)
  }

  datatype Answer = Outage | Mismatch | Unrecorded | Replay(out: Outcome)

  /** GetIdempotency after a claim that found a row. */
  function ReadAnswer(s: State, t: Tx): Answer {
    if t.key !in s.ledger then Outage
    else if s.ledger[t.key].hash != t.hash then Mismatch
    else if s.ledger[t.key].result.None? then Unrecorded
    else Replay(s.ledger[t.key].result.value)
  }

  ghost predicate Enabled(s: State, a: Action) {
    match a {
      case Tick | Begin(_, _) => true
      case StartFree(t) => t in s.txs && s.txs[t].stage.Begun?
      case FinishFree(t) => t in s.txs && s.txs[t].stage.Freeing? && Runnable(s, t)
      case Claim(t) => t in s.txs && s.txs[t].stage.Freed? && Runnable(s, t)
      case Work(t, out) => t in s.txs && s.txs[t].stage.Claimed? && 200 <= out.status <= 299
      case Record(t) =>
        // The UPDATE asks for a row without a result, and has to match the claim's one.
        && t in s.txs && s.txs[t].stage.Worked?
        && s.txs[t].pending.Some? && s.txs[t].pending.value.result.None?
      case Read(t) => t in s.txs && s.txs[t].stage.Replaying? && ReadAnswer(s, s.txs[t]).Replay?
      case Commit(t) => t in s.txs && (s.txs[t].stage.Recorded? || s.txs[t].stage.Answered?)
      case RollBack(t) => t in s.txs
      case SweepRows(keys) =>
        // SKIP LOCKED: expired rows nobody holds, at most 100 of them.
        && |keys| <= 100
        && forall k :: k in keys ==>
             && k in s.ledger && Expired(s.ledger[k], s.now)
             && forall b :: !Deletes(s, b, k) && !Sweeps(s, b, k)
      case SweepCommit(w) => w in s.sweeps
      case SweepRollBack(w) => w in s.sweeps
    }
  }

  function At(s: State, t: TxId, stage: Stage): State
    requires t in s.txs
  {
    s.(txs := s.txs[t := s.txs[t].(stage := stage)])
  }

  /** What a commit answers, as the log keeps it. */
  function EventOf(t: TxId, tx: Tx): Event
    requires tx.stage.Recorded? || tx.stage.Answered?
  {
    if tx.stage.Answered? then Replayed(tx.key, tx.hash, tx.stage.out)
    else Done(tx.key, t, tx.hash, tx.start, tx.claimedAt, tx.stage.out)
  }

  ghost function Apply(s: State, a: Action): State
    requires Enabled(s, a)
  {
    match a {
      case Tick => s.(now := s.now + 1)
      case Begin(key, hash) =>
        s.(next := s.next + 1, txs := s.txs[s.next := Tx(key, hash, s.now, false, s.now, None, Begun)])
      case StartFree(t) =>
        var tx := s.txs[t];
        At(s, t, Freeing(if tx.key in s.ledger && Expired(s.ledger[tx.key], tx.start) then Some(s.ledger[tx.key]) else None))
      case FinishFree(t) =>
        var tx := s.txs[t];
        // Re-checked on the newest version: the row may be gone, or replaced by one this DELETE never saw.
        var hit := tx.stage.seen.Some? && tx.key in s.ledger && s.ledger[tx.key] == tx.stage.seen.value;
        s.(txs := s.txs[t := tx.(deleted := hit, stage := Freed)])
      case Claim(t) =>
        var tx := s.txs[t];
        if tx.key in s.ledger && !tx.deleted then At(s, t, Replaying)
        else s.(txs := s.txs[t := tx.(claimedAt := s.now, pending := Some(Row(t, tx.hash, tx.start, None)), stage := Claimed)])
      case Work(t, out) => At(s, t, Worked(out))
      case Record(t) =>
        var tx := s.txs[t];
        var row := tx.pending.value.(result := Some(tx.stage.out));
        s.(txs := s.txs[t := tx.(pending := Some(row), stage := Recorded(tx.stage.out))])
      case Read(t) => At(s, t, Answered(ReadAnswer(s, s.txs[t]).out))
      case Commit(t) =>
        var tx := s.txs[t];
        s.(ledger := if tx.pending.Some? then s.ledger[tx.key := tx.pending.value] else s.ledger,
           txs := s.txs - {t},
           log := s.log + [EventOf(t, tx)])
      case RollBack(t) => s.(txs := s.txs - {t})
      case SweepRows(keys) => s.(next := s.next + 1, sweeps := s.sweeps[s.next := Sweep(s.now, keys)])
      case SweepCommit(w) => s.(ledger := s.ledger - s.sweeps[w].keys, sweeps := s.sweeps - {w})
      case SweepRollBack(w) => s.(sweeps := s.sweeps - {w})
    }
  }

  ghost predicate Init(s: State) {
    s.ledger == map[] && s.txs == map[] && s.sweeps == map[] && s.log == []
  }

  /** A run: a sequence of actions, each enabled where it is taken. */
  ghost predicate IsRun(states: seq<State>, actions: seq<Action>) {
    && |states| == |actions| + 1 && Init(states[0])
    && forall i :: 0 <= i < |actions| ==> Enabled(states[i], actions[i]) && states[i + 1] == Apply(states[i], actions[i])
  }

  // ------------------------------------------------------------- the invariant

  ghost predicate Fresh(s: State) {
    && (forall t :: t in s.txs ==> t < s.next && t !in s.sweeps && s.txs[t].start <= s.now)
    && (forall w :: w in s.sweeps ==> w < s.next)
  }

  /** Pending deletions are of expired committed rows, one deleter to a row. */
  ghost predicate OneDeleter(s: State) {
    && (forall t, k :: Deletes(s, t, k) ==> k in s.ledger && Expired(s.ledger[k], s.txs[t].start))
    && (forall w, k :: Sweeps(s, w, k) ==> k in s.ledger && Expired(s.ledger[k], s.now))
    && (forall t, u, k :: Deletes(s, t, k) && Deletes(s, u, k) ==> t == u)
    && (forall w, v, k :: Sweeps(s, w, k) && Sweeps(s, v, k) ==> w == v)
    && (forall t, w, k :: Deletes(s, t, k) ==> !Sweeps(s, w, k))
  }

  ghost predicate Inserts(s: State, t: TxId, key: Key) {
    t in s.txs && s.txs[t].Inserting() && s.txs[t].key == key
  }

  /** One pending claim to a key, and only where no committed row would collide with it. */
  ghost predicate OneClaimant(s: State) {
    && (forall t, u, k :: Inserts(s, t, k) && Inserts(s, u, k) ==> t == u)
    && (forall t, k :: Inserts(s, t, k) && k in s.ledger ==> Deletes(s, t, k))
  }

  /** What a DELETE read was expired for its transaction; only past that statement is a deletion pending. */
  ghost predicate StagesFit(s: State) {
    forall t :: t in s.txs ==>
      && (s.txs[t].stage.Freeing? && s.txs[t].stage.seen.Some? ==> Expired(s.txs[t].stage.seen.value, s.txs[t].start))
      && (s.txs[t].stage.Begun? || s.txs[t].stage.Freeing? ==> !s.txs[t].deleted)
  }

  /** The uncommitted row: the claim's, with a result from the record on. */
  ghost predicate PendingFits(s: State) {
    forall t :: t in s.txs ==> s.txs[t].pending == PendingOf(t, s.txs[t])
  }

  function PendingOf(t: TxId, tx: Tx): Option<Row> {
    if tx.Inserting() then Some(Row(t, tx.hash, tx.start, if tx.stage.Recorded? then Some(tx.stage.out) else None))
    else None
  }

  ghost predicate Logged(log: seq<Event>, key: Key, hash: Hash, out: Outcome) {
    exists i :: 0 <= i < |log| && log[i].Done? && log[i].key == key && log[i].hash == hash && log[i].out == out
  }

  /** A committed row carries the result of an execution that committed. */
  ghost predicate RowsAreRecorded(s: State) {
    forall k :: k in s.ledger ==>
      s.ledger[k].result.Some? && Logged(s.log, k, s.ledger[k].hash, s.ledger[k].result.value)
  }

  ghost predicate AnswersAreRecorded(s: State) {
    forall t :: t in s.txs && s.txs[t].stage.Answered? ==>
      Logged(s.log, s.txs[t].key, s.txs[t].hash, s.txs[t].stage.out)
  }

  function RowOf(e: Event): Row
    requires e.Done?
  {
    Row(e.writer, e.hash, e.start, Some(e.out))
  }

  /** An execution is still in the ledger or its day is over; a claim goes in only after every earlier
      execution's day. */
  ghost predicate DaysAreKept(s: State) {
    && (forall i :: 0 <= i < |s.log| && s.log[i].Done? ==>
         || (s.log[i].key in s.ledger && s.ledger[s.log[i].key] == RowOf(s.log[i]))
         || s.log[i].start < s.now - DAY)
    && (forall t, i :: 0 <= i < |s.log| && s.log[i].Done? && Inserts(s, t, s.log[i].key) ==>
         s.log[i].start < s.txs[t].claimedAt - DAY)
    && (forall t, k :: Inserts(s, t, k) ==> s.txs[t].claimedAt <= s.now)
  }

  /** The safety claims, as facts about what has committed. */
  ghost predicate ExactlyOnce(log: seq<Event>) {
    forall i, j :: 0 <= i < j < |log| && log[i].Done? && log[j].Done? && log[i].key == log[j].key ==>
      log[i].start < log[j].claimedAt - DAY
  }

  ghost predicate ReplaysAreTrue(log: seq<Event>) {
    forall i :: 0 <= i < |log| && log[i].Replayed? ==> Logged(log[..i], log[i].key, log[i].hash, log[i].out)
  }

  ghost predicate Inv(s: State) {
    && Fresh(s) && OneDeleter(s) && OneClaimant(s) && StagesFit(s) && PendingFits(s)
    && RowsAreRecorded(s) && AnswersAreRecorded(s) && DaysAreKept(s)
    && ExactlyOnce(s.log) && ReplaysAreTrue(s.log)
  }

  // ------------------------------------------------------------- it is kept

  /** Past its DELETE or its INSERT, a request is alone on its key. */
  lemma RunnableIsAlone(s: State, t: TxId)
    requires Inv(s) && t in s.txs && Runnable(s, t)
    ensures s.txs[t].stage.Freeing? && s.txs[t].stage.seen.Some? ==>
              forall b :: !Deletes(s, b, s.txs[t].key) && !Sweeps(s, b, s.txs[t].key)
    ensures s.txs[t].stage.Freed? ==>
              forall b :: b != t ==> !Deletes(s, b, s.txs[t].key) && !Inserts(s, b, s.txs[t].key)
    ensures s.txs[t].stage.Freed? ==> forall b :: !Sweeps(s, b, s.txs[t].key)
  {
    hide RowsAreRecorded, AnswersAreRecorded, DaysAreKept, ExactlyOnce, ReplaysAreTrue;
    var key := s.txs[t].key;
    assert !Sweeps(s, t, key);
    forall b | b != t
      ensures s.txs[t].stage.Freeing? && s.txs[t].stage.seen.Some? ==> !Deletes(s, b, key) && !Sweeps(s, b, key)
      ensures s.txs[t].stage.Freed? ==> !Deletes(s, b, key) && !Sweeps(s, b, key) && !Inserts(s, b, key)
    {
      assert !Blocks(s, t, b);
    }
  }

  /** The transaction an action is a step of. */
  function Actor(s: State, a: Action): TxId {
    match a
    case Tick | Begin(_, _) | SweepRows(_) => s.next
    case StartFree(t) => t
    case FinishFree(t) => t
    case Claim(t) => t
    case Work(t, _) => t
    case Record(t) => t
    case Read(t) => t
    case Commit(t) => t
    case RollBack(t) => t
    case SweepCommit(t) => t
    case SweepRollBack(t) => t
  }

  lemma IdsAreFresh(s: State)
    requires Inv(s)
    ensures s.next !in s.txs && s.next !in s.sweeps
    ensures forall t :: t in s.txs ==> t !in s.sweeps && s.txs[t].start <= s.now
  {
    hide OneDeleter, OneClaimant, StagesFit, PendingFits;
    hide RowsAreRecorded, AnswersAreRecorded, DaysAreKept, ExactlyOnce, ReplaysAreTrue;
  }

  /** A step touches no transaction but its own, and the clock does not go back. */
  lemma OthersStep(s: State, a: Action)
    requires Enabled(s, a)
    ensures s.now <= Apply(s, a).now && s.next <= Apply(s, a).next
    ensures forall t :: t != Actor(s, a) ==> (t in Apply(s, a).txs <==> t in s.txs)
    ensures forall t :: t in s.txs && t != Actor(s, a) ==> Apply(s, a).txs[t] == s.txs[t]
    ensures forall w :: w != Actor(s, a) ==> (w in Apply(s, a).sweeps <==> w in s.sweeps)
    ensures forall w :: w in s.sweeps && w != Actor(s, a) ==> Apply(s, a).sweeps[w] == s.sweeps[w]
  {
    hide Runnable, Expired, Deletes, Sweeps, ReadAnswer, EventOf;
  }

  /** A step leaves the others' locks and pending rows alone. */
  lemma OthersFrame(s: State, a: Action)
    requires Enabled(s, a)
    ensures forall t, k :: t != Actor(s, a) ==> Deletes(Apply(s, a), t, k) == Deletes(s, t, k)
    ensures forall t, k :: t != Actor(s, a) ==> Inserts(Apply(s, a), t, k) == Inserts(s, t, k)
    ensures forall w, k :: w != Actor(s, a) ==> Sweeps(Apply(s, a), w, k) == Sweeps(s, w, k)
    ensures forall t, k :: t != Actor(s, a) && (Deletes(s, t, k) || Inserts(s, t, k)) ==>
              t in s.txs && t in Apply(s, a).txs && Apply(s, a).txs[t] == s.txs[t]
  {
    hide Enabled, Apply, Actor;
    OthersStep(s, a);
  }

  lemma SeenExpired(s: State, t: TxId)
    requires Inv(s) && t in s.txs && s.txs[t].stage.Freeing? && s.txs[t].stage.seen.Some?
    ensures Expired(s.txs[t].stage.seen.value, s.txs[t].start)
  {
    hide OneDeleter, OneClaimant, Fresh, PendingFits;
    hide RowsAreRecorded, AnswersAreRecorded, DaysAreKept, ExactlyOnce, ReplaysAreTrue;
  }

  /** Where the actor's own locks and pending rows come from, and where they end. */
  lemma ActorLocks(s: State, a: Action)
    requires Inv(s) && Enabled(s, a)
    ensures forall k :: Deletes(Apply(s, a), Actor(s, a), k) ==>
              || (Deletes(s, Actor(s, a), k) && Apply(s, a).txs[Actor(s, a)].start == s.txs[Actor(s, a)].start
                  && !(a.Commit? && Inserts(s, Actor(s, a), k)))
              || (k in s.ledger && Expired(s.ledger[k], Apply(s, a).txs[Actor(s, a)].start) && a.FinishFree?
                  && forall b :: !Deletes(s, b, k) && !Sweeps(s, b, k))
    ensures forall k :: Sweeps(Apply(s, a), Actor(s, a), k) ==>
              || (Sweeps(s, Actor(s, a), k) && !a.SweepCommit?)
              || (k in s.ledger && Expired(s.ledger[k], s.now) && a.SweepRows?
                  && forall b :: !Deletes(s, b, k) && !Sweeps(s, b, k))
  {
    hide Inv, Runnable, ReadAnswer, EventOf, Expired;
    IdsAreFresh(s);
    if a.FinishFree? {
      RunnableIsAlone(s, a.tx);
      if s.txs[a.tx].stage.seen.Some? { SeenExpired(s, a.tx); }
    }
  }

  lemma ActorClaims(s: State, a: Action)
    requires Inv(s) && Enabled(s, a)
    ensures forall k :: Inserts(Apply(s, a), Actor(s, a), k) ==>
              || (Inserts(s, Actor(s, a), k) && Apply(s, a).txs[Actor(s, a)].claimedAt == s.txs[Actor(s, a)].claimedAt
                  && !a.Commit? && !a.RollBack?)
              || (a.Claim? && Apply(s, a).txs[Actor(s, a)].claimedAt == s.now
                  && (k in s.ledger ==> Deletes(s, Actor(s, a), k))
                  && forall b :: !Sweeps(s, b, k) && (b != Actor(s, a) ==> !Deletes(s, b, k) && !Inserts(s, b, k)))
    ensures forall k :: Deletes(s, Actor(s, a), k) && !a.Commit? && !a.RollBack? ==> Deletes(Apply(s, a), Actor(s, a), k)
  {
    hide Inv, Runnable, ReadAnswer, EventOf, Expired;
    IdsAreFresh(s);
    if a.Claim? { RunnableIsAlone(s, a.tx); }
    if a.FinishFree? { NotYetDeleting(s, a.tx); }
  }

  lemma NotYetDeleting(s: State, t: TxId)
    requires Inv(s) && t in s.txs && s.txs[t].stage.Freeing?
    ensures !s.txs[t].deleted
  {
    hide OneDeleter, OneClaimant, Fresh, PendingFits;
    hide RowsAreRecorded, AnswersAreRecorded, DaysAreKept, ExactlyOnce, ReplaysAreTrue;
  }

  /** A commit logs its event, and an execution's puts exactly its row in the ledger. */
  lemma CommitStep(s: State, t: TxId)
    requires Inv(s) && Enabled(s, Commit(t))
    ensures t in s.txs && (s.txs[t].stage.Recorded? || s.txs[t].stage.Answered?)
    ensures var tx, s' := s.txs[t], Apply(s, Commit(t));
            && s'.now == s.now && s'.log == s.log + [EventOf(t, tx)]
            && (tx.stage.Recorded? ==> s'.ledger == s.ledger[tx.key := RowOf(EventOf(t, tx))] && Inserts(s, t, tx.key))
            && (tx.stage.Answered? ==> s'.ledger == s.ledger)
  {
    hide OneDeleter, OneClaimant, Fresh, StagesFit;
    hide RowsAreRecorded, AnswersAreRecorded, DaysAreKept, ExactlyOnce, ReplaysAreTrue;
  }

  lemma LogStays(s: State, a: Action)
    requires Enabled(s, a) && !a.Commit?
    ensures Apply(s, a).log == s.log
  {
    hide Runnable, Deletes, Sweeps, ReadAnswer, Expired;
  }

  lemma RowsOnlyGo(s: State, a: Action)
    requires Enabled(s, a) && !a.Commit?
    ensures forall k :: k in Apply(s, a).ledger ==> k in s.ledger && Apply(s, a).ledger[k] == s.ledger[k]
    ensures forall k :: k in s.ledger ==> k in Apply(s, a).ledger || (a.SweepCommit? && Sweeps(s, Actor(s, a), k))
  {
    hide Runnable, Deletes, ReadAnswer, Expired;
  }

  /** A committed row goes only by its sweep's commit or its successor's, and comes only by a claimant's. */
  lemma LedgerStep(s: State, a: Action)
    requires Inv(s) && Enabled(s, a)
    ensures s.now <= Apply(s, a).now
    ensures forall k :: k in Apply(s, a).ledger ==>
              || (k in s.ledger && Apply(s, a).ledger[k] == s.ledger[k])
              || (a.Commit? && Inserts(s, Actor(s, a), k))
    ensures forall k :: k in s.ledger ==>
              || (k in Apply(s, a).ledger && Apply(s, a).ledger[k] == s.ledger[k])
              || (a.Commit? && Inserts(s, Actor(s, a), k) && k in Apply(s, a).ledger)
              || (a.SweepCommit? && Sweeps(s, Actor(s, a), k))
  {
    hide Inv, Enabled, Apply, Inserts, Sweeps, EventOf;
    OthersStep(s, a);
    if a.Commit? { CommitStep(s, a.tx); } else { RowsOnlyGo(s, a); }
  }

  lemma KeepsLocks(s: State, a: Action)
    requires Inv(s) && Enabled(s, a)
    ensures OneDeleter(Apply(s, a))
  {
    hide RowsAreRecorded, AnswersAreRecorded, DaysAreKept, ExactlyOnce, ReplaysAreTrue;
    hide Fresh, StagesFit, PendingFits, Enabled, Apply, Actor, Deletes, Inserts, Sweeps;
    OthersFrame(s, a);
    ActorLocks(s, a);
    LedgerStep(s, a);
  }

  lemma KeepsClaims(s: State, a: Action)
    requires Inv(s) && Enabled(s, a)
    ensures OneClaimant(Apply(s, a))
  {
    hide RowsAreRecorded, AnswersAreRecorded, DaysAreKept, ExactlyOnce, ReplaysAreTrue;
    hide Fresh, StagesFit, PendingFits, Enabled, Apply, Actor, Deletes, Inserts, Sweeps;
    OthersFrame(s, a);
    ActorClaims(s, a);
    LedgerStep(s, a);
  }

  lemma ActorIsFresh(s: State, a: Action)
    requires Fresh(s) && Enabled(s, a)
    ensures Actor(s, a) in Apply(s, a).txs ==>
              && Actor(s, a) < Apply(s, a).next && Actor(s, a) !in Apply(s, a).sweeps
              && Apply(s, a).txs[Actor(s, a)].start <= Apply(s, a).now
    ensures Actor(s, a) in Apply(s, a).sweeps ==> Actor(s, a) < Apply(s, a).next
  {
    hide Runnable, Expired, Deletes, Sweeps, ReadAnswer, EventOf;
  }

  lemma KeepsFresh(s: State, a: Action)
    requires Fresh(s) && Enabled(s, a)
    ensures Fresh(Apply(s, a))
  {
    hide Enabled, Apply, Actor;
    OthersStep(s, a);
    ActorIsFresh(s, a);
  }

  lemma ActorFits(s: State, a: Action)
    requires StagesFit(s) && PendingFits(s) && Enabled(s, a) && s.next !in s.txs && Actor(s, a) in Apply(s, a).txs
    ensures var t := Actor(s, a); var tx := Apply(s, a).txs[t];
            && (tx.stage.Freeing? && tx.stage.seen.Some? ==> Expired(tx.stage.seen.value, tx.start))
            && (tx.stage.Begun? || tx.stage.Freeing? ==> !tx.deleted)
            && tx.pending == PendingOf(t, tx)
  {
    hide Runnable, Deletes, Sweeps, ReadAnswer, EventOf;
  }

  lemma KeepsStages(s: State, a: Action)
    requires Inv(s) && Enabled(s, a)
    ensures Fresh(Apply(s, a)) && StagesFit(Apply(s, a)) && PendingFits(Apply(s, a))
  {
    hide RowsAreRecorded, AnswersAreRecorded, DaysAreKept, ExactlyOnce, ReplaysAreTrue, OneDeleter, OneClaimant;
    hide Fresh, Enabled, Apply, Actor, PendingOf;
    KeepsFresh(s, a);
    OthersStep(s, a);
    IdsAreFresh(s);
    if Actor(s, a) in Apply(s, a).txs { ActorFits(s, a); }
  }

  lemma LoggedGrows(log: seq<Event>, e: Event, key: Key, hash: Hash, out: Outcome)
    ensures Logged(log, key, hash, out) ==> Logged(log + [e], key, hash, out)
    ensures e.Done? && e.key == key && e.hash == hash && e.out == out ==> Logged(log + [e], key, hash, out)
  {
    if Logged(log, key, hash, out) {
      var i :| 0 <= i < |log| && log[i].Done? && log[i].key == key && log[i].hash == hash && log[i].out == out;
      assert (log + [e])[i] == log[i];
    }
    assert (log + [e])[|log|] == e;
  }

  /** Nothing that was logged is forgotten. */
  lemma LogStep(s: State, a: Action)
    requires Inv(s) && Enabled(s, a)
    ensures forall k, h, o :: Logged(s.log, k, h, o) ==> Logged(Apply(s, a).log, k, h, o)
  {
    hide Inv, Enabled, Apply, Logged, EventOf;
    if a.Commit? {
      CommitStep(s, a.tx);
      forall k, h, o | Logged(s.log, k, h, o)
        ensures Logged(Apply(s, a).log, k, h, o)
      {
        LoggedGrows(s.log, EventOf(a.tx, s.txs[a.tx]), k, h, o);
      }
    } else {
      LogStays(s, a);
    }
  }

  lemma KeepsRows(s: State, a: Action)
    requires Inv(s) && Enabled(s, a)
    ensures RowsAreRecorded(Apply(s, a))
  {
    hide Enabled, Apply, Logged, Inserts, DaysAreKept, ExactlyOnce, ReplaysAreTrue, OneDeleter, OneClaimant;
    hide Fresh, StagesFit, PendingFits, AnswersAreRecorded;
    LogStep(s, a);
    if a.Commit? {
      CommitStep(s, a.tx);
      var e := EventOf(a.tx, s.txs[a.tx]);
      if e.Done? { LoggedGrows(s.log, e, e.key, e.hash, e.out); }
    } else {
      RowsOnlyGo(s, a);
    }
  }

  /** Where an answer comes from. */
  lemma AnswersStep(s: State, a: Action, t: TxId)
    requires Enabled(s, a) && t in Apply(s, a).txs && Apply(s, a).txs[t].stage.Answered?
    ensures t in s.txs && Apply(s, a).txs[t].key == s.txs[t].key && Apply(s, a).txs[t].hash == s.txs[t].hash
    ensures || s.txs[t].stage == Apply(s, a).txs[t].stage
            || ReadAnswer(s, s.txs[t]) == Replay(Apply(s, a).txs[t].stage.out)
  {
    hide Runnable, Expired, Deletes, Sweeps, EventOf, ReadAnswer;
  }

  lemma KeepsAnswers(s: State, a: Action)
    requires Inv(s) && Enabled(s, a)
    ensures AnswersAreRecorded(Apply(s, a))
  {
    hide Enabled, Apply, Logged, DaysAreKept, ExactlyOnce, ReplaysAreTrue, OneDeleter, OneClaimant;
    hide Fresh, StagesFit, PendingFits;
    LogStep(s, a);
    forall t | t in Apply(s, a).txs && Apply(s, a).txs[t].stage.Answered?
      ensures Logged(Apply(s, a).log, Apply(s, a).txs[t].key, Apply(s, a).txs[t].hash, Apply(s, a).txs[t].stage.out)
    {
      AnswersStep(s, a, t);
    }
  }

  /** A logged execution's row stays until its day is over. */
  lemma DayKept(s: State, a: Action, e: Event)
    requires Inv(s) && Enabled(s, a) && e.Done? && e in s.log
    ensures || (e.key in Apply(s, a).ledger && Apply(s, a).ledger[e.key] == RowOf(e))
            || e.start < Apply(s, a).now - DAY
  {
    hide RowsAreRecorded, AnswersAreRecorded, ExactlyOnce, ReplaysAreTrue, StagesFit, PendingFits, OneClaimant, Fresh;
    hide Enabled, Apply, Actor, Inserts, Sweeps, Deletes;
    LedgerStep(s, a);
    var i :| 0 <= i < |s.log| && s.log[i] == e;
  }

  /** What a claim goes in after: every earlier execution of its key, by a day. */
  lemma ClaimIsLate(s: State, a: Action, t: TxId, e: Event)
    requires Inv(s) && Enabled(s, a) && e.Done? && e in s.log && Inserts(Apply(s, a), t, e.key)
    ensures t in Apply(s, a).txs && e.start < Apply(s, a).txs[t].claimedAt - DAY
  {
    hide RowsAreRecorded, AnswersAreRecorded, ExactlyOnce, ReplaysAreTrue, StagesFit, PendingFits, OneClaimant, Fresh;
    hide Enabled, Apply, Actor, Sweeps;
    IdsAreFresh(s);
    OthersFrame(s, a);
    ActorClaims(s, a);
    var i :| 0 <= i < |s.log| && s.log[i] == e;
  }

  lemma ClaimedByNow(s: State, a: Action, t: TxId, k: Key)
    requires Inv(s) && Enabled(s, a) && Inserts(Apply(s, a), t, k)
    ensures t in Apply(s, a).txs && Apply(s, a).txs[t].claimedAt <= Apply(s, a).now
  {
    hide RowsAreRecorded, AnswersAreRecorded, ExactlyOnce, ReplaysAreTrue, StagesFit, PendingFits, OneDeleter, OneClaimant, Fresh;
    hide Enabled, Apply, Actor, Sweeps, Deletes;
    OthersStep(s, a);
    OthersFrame(s, a);
    ActorClaims(s, a);
  }

  /** The claimant that commits was the only one. */
  lemma NoneLeftAfter(s: State, t: TxId, u: TxId, k: Key)
    requires Inv(s) && Enabled(s, Commit(t)) && Inserts(s, t, k)
    ensures !Inserts(Apply(s, Commit(t)), u, k)
  {
    hide RowsAreRecorded, AnswersAreRecorded, DaysAreKept, ExactlyOnce, ReplaysAreTrue, StagesFit, PendingFits, OneDeleter, Fresh;
    hide EventOf, Runnable;
    assert Inserts(s, u, k) ==> u == t;
    OthersFrame(s, Commit(t));
  }

  lemma KeepsDays(s: State, a: Action)
    requires Inv(s) && Enabled(s, a)
    ensures DaysAreKept(Apply(s, a))
  {
    hide Inv, Enabled, Apply, Inserts, RowOf;
    var s' := Apply(s, a);
    if a.Commit? { CommitStep(s, a.tx); } else { LogStays(s, a); }
    forall i | 0 <= i < |s'.log| && s'.log[i].Done?
      ensures || (s'.log[i].key in s'.ledger && s'.ledger[s'.log[i].key] == RowOf(s'.log[i]))
              || s'.log[i].start < s'.now - DAY
    {
      if i < |s.log| { DayKept(s, a, s'.log[i]); }
    }
    forall t, i | 0 <= i < |s'.log| && s'.log[i].Done? && Inserts(s', t, s'.log[i].key)
      ensures t in s'.txs && s'.log[i].start < s'.txs[t].claimedAt - DAY
    {
      if i < |s.log| { ClaimIsLate(s, a, t, s'.log[i]); } else { NoneLeftAfter(s, a.tx, t, s'.log[i].key); }
    }
    forall t, k | Inserts(s', t, k)
      ensures t in s'.txs && s'.txs[t].claimedAt <= s'.now
    {
      ClaimedByNow(s, a, t, k);
    }
  }

  lemma OnceMore(s: State, t: TxId)
    requires Inv(s) && t in s.txs && s.txs[t].stage.Recorded?
    ensures ExactlyOnce(s.log + [EventOf(t, s.txs[t])])
  {
    hide RowsAreRecorded, AnswersAreRecorded, ReplaysAreTrue, OneDeleter, OneClaimant, Fresh, StagesFit, PendingFits;
    assert Inserts(s, t, s.txs[t].key);
  }

  lemma ReplayMore(log: seq<Event>, e: Event)
    requires ReplaysAreTrue(log) && (e.Replayed? ==> Logged(log, e.key, e.hash, e.out))
    ensures ReplaysAreTrue(log + [e])
  {
    hide Logged;
    forall i | 0 <= i < |log + [e]|
      ensures (log + [e])[..i] == log[..i]
    {
    }
    assert log[..|log|] == log;
  }

  lemma KeepsHistory(s: State, a: Action)
    requires Inv(s) && Enabled(s, a)
    ensures ExactlyOnce(Apply(s, a).log) && ReplaysAreTrue(Apply(s, a).log)
  {
    hide RowsAreRecorded, OneDeleter, OneClaimant, Logged, Fresh, StagesFit, PendingFits, DaysAreKept, Enabled, Apply;
    if a.Commit? {
      CommitStep(s, a.tx);
      var tx := s.txs[a.tx];
      if tx.stage.Recorded? { OnceMore(s, a.tx); }
      ReplayMore(s.log, EventOf(a.tx, tx));
    } else {
      LogStays(s, a);
    }
  }

  lemma KeepsInv(s: State, a: Action)
    requires Inv(s) && Enabled(s, a)
    ensures Inv(Apply(s, a))
  {
    hide Fresh, OneDeleter, OneClaimant, StagesFit, PendingFits, Enabled, Apply;
    hide RowsAreRecorded, AnswersAreRecorded, DaysAreKept, ExactlyOnce, ReplaysAreTrue;
    KeepsStages(s, a);
    KeepsLocks(s, a);
    KeepsClaims(s, a);
    KeepsRows(s, a);
    KeepsAnswers(s, a);
    KeepsDays(s, a);
    KeepsHistory(s, a);
  }

  lemma StepOf(states: seq<State>, actions: seq<Action>, n: nat)
    requires IsRun(states, actions) && n < |actions|
    ensures n + 1 < |states| && Enabled(states[n], actions[n]) && states[n + 1] == Apply(states[n], actions[n])
  {
    hide Enabled, Apply, Init;
  }

  lemma RunLength(states: seq<State>, actions: seq<Action>)
    requires IsRun(states, actions)
    ensures |states| == |actions| + 1 && Inv(states[0])
  {
    hide Enabled, Apply;
  }

  lemma {:induction false} RunKeepsInv(states: seq<State>, actions: seq<Action>, n: nat)
    requires IsRun(states, actions) && n < |states|
    ensures Inv(states[n])
  {
    hide *;
    RunLength(states, actions);
    if n > 0 {
      RunKeepsInv(states, actions, n - 1);
      StepOf(states, actions, n - 1);
      KeepsInv(states[n - 1], actions[n - 1]);
    }
  }

  // ------------------------------------------------------------------ the claims

  /** Exactly once, over every run: two committed executions of one key are a day apart, the later one's
      claim having gone in after the earlier one's day; every replayed answer is the outcome of an execution
      that had committed with the same key and the same request hash. */
  lemma ExactlyOnceOverRuns(states: seq<State>, actions: seq<Action>, n: nat, i: nat, j: nat)
    requires IsRun(states, actions) && n < |states| && i < j < |states[n].log|
    ensures states[n].log[i].Done? && states[n].log[j].Done? && states[n].log[i].key == states[n].log[j].key ==>
              states[n].log[i].start + 86_400_000_000 < states[n].log[j].claimedAt
    ensures states[n].log[j].Replayed? ==>
              exists e :: 0 <= e < j && states[n].log[e].Done? && states[n].log[e].key == states[n].log[j].key
                          && states[n].log[e].hash == states[n].log[j].hash && states[n].log[e].out == states[n].log[j].out
  {
    RunKeepsInv(states, actions, n);
    var log := states[n].log;
    if log[j].Replayed? {
      assert Logged(log[..j], log[j].key, log[j].hash, log[j].out);
      var e :| 0 <= e < j && log[..j][e].Done? && log[..j][e].key == log[j].key
               && log[..j][e].hash == log[j].hash && log[..j][e].out == log[j].out;
      assert log[e] == log[..j][e];
    }
  }

  /** A claim inserts its row without a result and the record fills it in, in the one transaction; so the record
      matches the claim's row, a committed row always carries a result, and the runner's "unrecorded" answer
      cannot be given. */
  lemma NeverUnrecorded(states: seq<State>, actions: seq<Action>, n: nat, t: TxId)
    requires IsRun(states, actions) && n < |states| && t in states[n].txs
    ensures states[n].txs[t].stage.Worked? ==> Enabled(states[n], Record(t))
    ensures ReadAnswer(states[n], states[n].txs[t]) != Unrecorded
  {
    hide IsRun;
    RunKeepsInv(states, actions, n);
    var s := states[n];
    assert s.txs[t].pending == PendingOf(t, s.txs[t]);
    hide OneDeleter, OneClaimant, Fresh, StagesFit, PendingFits, DaysAreKept, ExactlyOnce, ReplaysAreTrue, Logged;
  }

  /** While an execution's day lasts, a request with its key does not run the work: once its turn comes the
      claim finds the row, and the answer is the recorded one, or a mismatch when the requests differ. */
  lemma WithinTheDayItIsReplayed(states: seq<State>, actions: seq<Action>, n: nat, i: nat, t: TxId)
    requires IsRun(states, actions) && n < |states| && i < |states[n].log|
    requires states[n].log[i].Done? && states[n].now <= states[n].log[i].start + 86_400_000_000
    requires t in states[n].txs && states[n].txs[t].key == states[n].log[i].key
    ensures !states[n].txs[t].Inserting()
    ensures states[n].txs[t].stage.Freed? && Runnable(states[n], t) ==>
              Apply(states[n], Claim(t)) == At(states[n], t, Replaying)
    ensures states[n].txs[t].hash == states[n].log[i].hash ==>
              ReadAnswer(states[n], states[n].txs[t]) == Replay(states[n].log[i].out)
    ensures states[n].txs[t].hash != states[n].log[i].hash ==> ReadAnswer(states[n], states[n].txs[t]) == Mismatch
  {
    RunKeepsInv(states, actions, n);
    var s := states[n];
    var e := s.log[i];
    assert e.key in s.ledger && s.ledger[e.key] == RowOf(e);
    assert Inserts(s, t, e.key) == s.txs[t].Inserting();
    assert Deletes(s, t, e.key) == s.txs[t].deleted;
  }

  // --------------------------------------------- an expired key is free again

  /** The expired row that request `t`'s own DELETE is to free, if there is one. */
  ghost function ExpiredRow(s: State, t: TxId): Option<Row>
    requires t in s.txs
  {
    var tx := s.txs[t];
    if tx.key in s.ledger && s.ledger[tx.key].created < tx.start - DAY then Some(s.ledger[tx.key]) else None
  }

  /** The row is in the ledger. */
  ghost predicate There(s: State, k: Key, row: Option<Row>) {
    row.Some? && k in s.ledger && s.ledger[k] == row.value
  }

  /** The transaction that wrote the row has ended: no commit can bring that row again. */
  ghost predicate WriterEnded(s: State, row: Option<Row>) {
    row.Some? ==> row.value.writer < s.next && row.value.writer !in s.txs
  }

  /** Where request `t` is between its DELETE's read of `row` and its claim; or it is past its claim, or gone. */
  ghost predicate Frees(s: State, t: TxId, k: Key, row: Option<Row>) {
    && t < s.next && WriterEnded(s, row)
    && (t in s.txs ==>
          && s.txs[t].key == k && !s.txs[t].stage.Begun?
          && (s.txs[t].stage.Freeing? ==> s.txs[t].stage.seen == row)
          && (s.txs[t].stage.Freed? ==> (s.txs[t].deleted <==> There(s, k, row))))
  }

  lemma WritersEnd(s: State, a: Action)
    requires Inv(s) && Enabled(s, a)
    ensures forall k :: k in Apply(s, a).ledger ==>
              (k in s.ledger && Apply(s, a).ledger[k] == s.ledger[k])
              || (a.Commit? && Apply(s, a).ledger[k].writer == a.tx && a.tx in s.txs && a.tx !in Apply(s, a).txs)
  {
    hide Inv, Enabled, Apply;
    if a.Commit? {
      CommitStep(s, a.tx);
      CommitEnds(s, a.tx);
    } else {
      RowsOnlyGo(s, a);
    }
  }

  lemma CommitEnds(s: State, t: TxId)
    requires Enabled(s, Commit(t))
    ensures t !in Apply(s, Commit(t)).txs
  {
    hide EventOf;
  }

  ghost predicate AllWritersEnded(s: State) {
    forall k :: k in s.ledger ==> WriterEnded(s, Some(s.ledger[k]))
  }

  lemma NoneReturns(s: State, a: Action, row: Option<Row>)
    requires Inv(s) && Enabled(s, a) && WriterEnded(s, row)
    ensures WriterEnded(Apply(s, a), row)
  {
    hide Inv, Enabled, Apply, Actor;
    OthersStep(s, a);
    ComesByBegin(s, a);
  }

  lemma ComesByBegin(s: State, a: Action)
    requires Enabled(s, a)
    ensures forall t :: t in Apply(s, a).txs && t !in s.txs ==> t == s.next
  {
    hide Runnable, Expired, Deletes, Sweeps, ReadAnswer, EventOf;
  }

  lemma AllEndedStep(s: State, a: Action)
    requires Inv(s) && Enabled(s, a) && AllWritersEnded(s)
    ensures AllWritersEnded(Apply(s, a))
  {
    hide Inv, Enabled, Apply, WriterEnded;
    WritersEnd(s, a);
    forall k | k in Apply(s, a).ledger
      ensures WriterEnded(Apply(s, a), Some(Apply(s, a).ledger[k]))
    {
      if k in s.ledger && Apply(s, a).ledger[k] == s.ledger[k] {
        NoneReturns(s, a, Some(s.ledger[k]));
      } else {
        EndedNow(s, a, Apply(s, a).ledger[k]);
      }
    }
  }

  lemma EndedNow(s: State, a: Action, row: Row)
    requires Inv(s) && Enabled(s, a) && row.writer in s.txs && row.writer !in Apply(s, a).txs
    ensures WriterEnded(Apply(s, a), Some(row))
  {
    hide Enabled, Apply, Actor, OneDeleter, OneClaimant, StagesFit, PendingFits;
    hide RowsAreRecorded, AnswersAreRecorded, DaysAreKept, ExactlyOnce, ReplaysAreTrue;
    OthersStep(s, a);
  }

  lemma NoWritersAtFirst(states: seq<State>, actions: seq<Action>)
    requires IsRun(states, actions) && |states| > 0
    ensures AllWritersEnded(states[0])
  {
    hide Enabled, Apply;
  }

  lemma {:induction false} RunEndsWriters(states: seq<State>, actions: seq<Action>, n: nat)
    requires IsRun(states, actions) && n < |states|
    ensures AllWritersEnded(states[n])
  {
    hide *;
    RunLength(states, actions);
    if n == 0 {
      NoWritersAtFirst(states, actions);
    } else {
      RunEndsWriters(states, actions, n - 1);
      RunKeepsInv(states, actions, n - 1);
      StepOf(states, actions, n - 1);
      AllEndedStep(states[n - 1], actions[n - 1]);
    }
  }

  /** The DELETE reads exactly its key's expired row. */
  lemma FreesFromHere(s: State, t: TxId)
    requires Inv(s) && AllWritersEnded(s) && Enabled(s, StartFree(t))
    ensures t in s.txs && Frees(Apply(s, StartFree(t)), t, s.txs[t].key, ExpiredRow(s, t))
  {
    hide OneDeleter, OneClaimant, StagesFit, PendingFits;
    hide RowsAreRecorded, AnswersAreRecorded, DaysAreKept, ExactlyOnce, ReplaysAreTrue;
  }

  /** A row that request `t` has deleted stays until it ends; one that is not there does not come back. */
  lemma ThereOrNot(s: State, a: Action, t: TxId, k: Key, row: Option<Row>)
    requires Inv(s) && Enabled(s, a) && WriterEnded(s, row) && t in s.txs && Actor(s, a) != t
    ensures !There(s, k, row) ==> !There(Apply(s, a), k, row)
    ensures There(s, k, row) && Deletes(s, t, k) ==> There(Apply(s, a), k, row)
  {
    hide Fresh, StagesFit, PendingFits, Enabled, Apply, Actor, Deletes, Inserts, Sweeps;
    hide RowsAreRecorded, AnswersAreRecorded, DaysAreKept, ExactlyOnce, ReplaysAreTrue;
    WritersEnd(s, a);
    LedgerStep(s, a);
  }

  lemma FreesByOthers(s: State, a: Action, t: TxId, k: Key, row: Option<Row>)
    requires Inv(s) && Enabled(s, a) && Frees(s, t, k, row) && Actor(s, a) != t
    ensures Frees(Apply(s, a), t, k, row)
  {
    hide Inv, Enabled, Apply, Actor, WriterEnded, There;
    OthersStep(s, a);
    NoneReturns(s, a, row);
    if t in s.txs { ThereOrNot(s, a, t, k, row); }
  }

  lemma FreesByItself(s: State, a: Action, t: TxId, k: Key, row: Option<Row>)
    requires Inv(s) && Enabled(s, a) && Frees(s, t, k, row) && Actor(s, a) == t
    ensures Frees(Apply(s, a), t, k, row)
  {
    hide Inv, Runnable, Expired, Deletes, Sweeps, ReadAnswer, EventOf, WriterEnded;
    IdsAreFresh(s);
    NoneReturns(s, a, row);
    OthersStep(s, a);
  }

  lemma {:induction false} StillFrees(states: seq<State>, actions: seq<Action>, i: nat, j: nat, t: TxId)
    requires IsRun(states, actions) && i < j < |states| && actions[i] == StartFree(t) && t in states[i].txs
    ensures Frees(states[j], t, states[i].txs[t].key, ExpiredRow(states[i], t))
  {
    hide *;
    RunLength(states, actions);
    RunKeepsInv(states, actions, j - 1);
    StepOf(states, actions, j - 1);
    if j == i + 1 {
      RunEndsWriters(states, actions, i);
      FreesFromHere(states[i], t);
    } else {
      StillFrees(states, actions, i, j - 1, t);
      var k, row := states[i].txs[t].key, ExpiredRow(states[i], t);
      if Actor(states[j - 1], actions[j - 1]) == t {
        FreesByItself(states[j - 1], actions[j - 1], t, k, row);
      } else {
        FreesByOthers(states[j - 1], actions[j - 1], t, k, row);
      }
    }
  }

  lemma ClaimStep(s: State, t: TxId, k: Key, row: Option<Row>)
    requires Enabled(s, Claim(t)) && Frees(s, t, k, row)
    ensures t in Apply(s, Claim(t)).txs
    ensures Apply(s, Claim(t)).txs[t].stage.Claimed? <==> k !in s.ledger || There(s, k, row)
    ensures !Apply(s, Claim(t)).txs[t].stage.Claimed? ==> Apply(s, Claim(t)).txs[t].stage.Replaying?
  {
    hide Runnable, WriterEnded;
  }

  /** When a request runs the work, exactly: its claim goes in if and only if its key has no row, or the row it has
      is the one that had expired when the request's own DELETE read it. So a recorded key is free again
      after its day even if no sweep ever took its row, and no answer is replayed from a row the request
      found expired. */
  lemma AClaimGoesInExactlyWhenTheKeyIsFree(states: seq<State>, actions: seq<Action>, i: nat, j: nat, t: TxId)
    requires IsRun(states, actions) && i < j < |actions| && actions[i] == StartFree(t) && actions[j] == Claim(t)
    ensures t in states[i].txs && t in states[j].txs && t in states[j + 1].txs
    ensures var tx, s := states[i].txs[t], states[j];
            && states[j].txs[t].key == tx.key
            && (states[j + 1].txs[t].stage.Claimed? <==>
                  || tx.key !in s.ledger
                  || (&& tx.key in states[i].ledger && states[i].ledger[tx.key].created < tx.start - 86_400_000_000
                      && s.ledger[tx.key] == states[i].ledger[tx.key]))
            && (!states[j + 1].txs[t].stage.Claimed? ==> states[j + 1].txs[t].stage.Replaying?)
  {
    hide Inv, Enabled, Apply;
    RunLength(states, actions);
    StepOf(states, actions, i);
    StepOf(states, actions, j);
    OfItself(states[i], StartFree(t), t);
    OfItself(states[j], Claim(t), t);
    StillFrees(states, actions, i, j, t);
    ClaimStep(states[j], t, states[i].txs[t].key, ExpiredRow(states[i], t));
  }

  lemma OfItself(s: State, a: Action, t: TxId)
    requires Enabled(s, a) && (a == StartFree(t) || a == Claim(t))
    ensures t in s.txs
  {
    hide Runnable;
  }

  // ----------------------------------------------- what a step leaves alone

  lemma SweepCommitTakes(s: State, a: Action)
    requires Enabled(s, a) && a.SweepCommit?
    ensures a.tx in s.sweeps && Apply(s, a).ledger == s.ledger - s.sweeps[a.tx].keys
  {
  }

  lemma OtherRowsStay(s: State, a: Action)
    requires Enabled(s, a) && !a.SweepCommit? && !a.Commit?
    ensures Apply(s, a).ledger == s.ledger
  {
    hide Runnable, Deletes, Sweeps, ReadAnswer, Expired, EventOf;
  }

  lemma ClockStep(s: State, a: Action)
    requires Enabled(s, a)
    ensures Apply(s, a).now == if a.Tick? then s.now + 1 else s.now
  {
    hide Runnable, Deletes, Sweeps, ReadAnswer, Expired, EventOf;
  }

  /** Whose step moves the ledger, in every run: a sweep's commit takes exactly the rows the sweep locked, a
      request's commit puts exactly its own row under its own key when it ran the work and nothing when it
      replayed, and nothing else touches it; each commit logs what it answered, and time passes in ticks. */
  lemma OnlyCommitsMoveTheLedger(states: seq<State>, actions: seq<Action>, n: nat)
    requires IsRun(states, actions) && n < |actions|
    ensures n + 1 < |states|
    ensures var s, a, s' := states[n], actions[n], states[n + 1];
            && s'.now == (if a.Tick? then s.now + 1 else s.now)
            && (!a.Commit? ==> s'.log == s.log)
            && (!a.Commit? && !a.SweepCommit? ==> s'.ledger == s.ledger)
            && (a.SweepCommit? ==> a.tx in s.sweeps && s'.ledger == s.ledger - s.sweeps[a.tx].keys)
            && (a.Commit? ==> a.tx in s.txs && (s.txs[a.tx].stage.Recorded? || s.txs[a.tx].stage.Answered?))
            && (a.Commit? ==>
                  var tx := s.txs[a.tx];
                  var out := tx.stage.out;
                  if tx.stage.Recorded? then
                    && s'.ledger == s.ledger[tx.key := Row(a.tx, tx.hash, tx.start, Some(out))]
                    && s'.log == s.log + [Done(tx.key, a.tx, tx.hash, tx.start, tx.claimedAt, out)]
                  else
                    s'.ledger == s.ledger && s'.log == s.log + [Replayed(tx.key, tx.hash, out)])
  {
    hide Inv, Enabled, Apply, IsRun;
    RunLength(states, actions);
    RunKeepsInv(states, actions, n);
    StepOf(states, actions, n);
    var s, a := states[n], actions[n];
    ClockStep(s, a);
    if a.Commit? {
      CommitStep(s, a.tx);
    } else {
      LogStays(s, a);
      if a.SweepCommit? { SweepCommitTakes(s, a); } else { OtherRowsStay(s, a); }
    }
  }

  ghost predicate Is2xx(out: Outcome) { 200 <= out.status <= 299 }

  /** What is on its way to be recorded or answered succeeded. */
  ghost predicate AllSucceeded(s: State) {
    && (forall t :: t in s.txs && (s.txs[t].stage.Worked? || s.txs[t].stage.Recorded? || s.txs[t].stage.Answered?) ==>
          Is2xx(s.txs[t].stage.out))
    && (forall i :: 0 <= i < |s.log| ==> Is2xx(s.log[i].out))
    && forall k :: k in s.ledger && s.ledger[k].result.Some? ==> Is2xx(s.ledger[k].result.value)
  }

  lemma ActorSucceeded(s: State, a: Action)
    requires AllSucceeded(s) && Enabled(s, a) && s.next !in s.txs && Actor(s, a) in Apply(s, a).txs
    ensures var st := Apply(s, a).txs[Actor(s, a)].stage; st.Worked? || st.Recorded? || st.Answered? ==> Is2xx(st.out)
  {
    hide Runnable, Deletes, Sweeps, Expired, EventOf;
  }

  lemma SuccessStep(s: State, a: Action)
    requires Inv(s) && Enabled(s, a) && AllSucceeded(s)
    ensures AllSucceeded(Apply(s, a))
  {
    hide Inv, Enabled, Apply, Actor, Is2xx;
    IdsAreFresh(s);
    OthersStep(s, a);
    if Actor(s, a) in Apply(s, a).txs { ActorSucceeded(s, a); }
    if a.Commit? {
      CommitStep(s, a.tx);
    } else {
      LogStays(s, a);
      RowsOnlyGo(s, a);
    }
  }

  lemma {:induction false} RunSucceeded(states: seq<State>, actions: seq<Action>, n: nat)
    requires IsRun(states, actions) && n < |states|
    ensures AllSucceeded(states[n])
  {
    hide *;
    RunLength(states, actions);
    if n == 0 {
      NothingAtFirst(states, actions);
    } else {
      RunSucceeded(states, actions, n - 1);
      RunKeepsInv(states, actions, n - 1);
      StepOf(states, actions, n - 1);
      SuccessStep(states[n - 1], actions[n - 1]);
    }
  }

  lemma NothingAtFirst(states: seq<State>, actions: seq<Action>)
    requires IsRun(states, actions) && |states| > 0
    ensures AllSucceeded(states[0]) && SweepsBounded(states[0])
  {
    hide Enabled, Apply;
  }

  /** Only a success is recorded, or answered again: whatever a run logs has a status of 200 to 299. */
  lemma OnlySuccessIsRecorded(states: seq<State>, actions: seq<Action>, n: nat, i: nat)
    requires IsRun(states, actions) && n < |states| && i < |states[n].log|
    ensures 200 <= states[n].log[i].out.status <= 299
  {
    RunSucceeded(states, actions, n);
    hide IsRun;
  }

  ghost predicate SweepsBounded(s: State) { forall w :: w in s.sweeps ==> |s.sweeps[w].keys| <= 100 }

  lemma SweepsBoundedStep(s: State, a: Action)
    requires Enabled(s, a) && SweepsBounded(s)
    ensures SweepsBounded(Apply(s, a))
  {
    hide Runnable, Deletes, Sweeps, ReadAnswer, Expired, EventOf;
  }

  lemma {:induction false} RunSweepsBounded(states: seq<State>, actions: seq<Action>, n: nat)
    requires IsRun(states, actions) && n < |states|
    ensures SweepsBounded(states[n])
  {
    hide *;
    RunLength(states, actions);
    if n == 0 {
      NothingAtFirst(states, actions);
    } else {
      RunSweepsBounded(states, actions, n - 1);
      StepOf(states, actions, n - 1);
      SweepsBoundedStep(states[n - 1], actions[n - 1]);
    }
  }

  /** A sweep takes at most a hundred rows, each over a day old, none of which anybody else is deleting. */
  lemma SweepsTakeFewAndOld(states: seq<State>, actions: seq<Action>, n: nat, w: TxId, k: Key)
    requires IsRun(states, actions) && n < |states| && w in states[n].sweeps && k in states[n].sweeps[w].keys
    ensures |states[n].sweeps[w].keys| <= 100
    ensures k in states[n].ledger && states[n].ledger[k].created + 86_400_000_000 < states[n].now
    ensures forall t :: t in states[n].txs && states[n].txs[t].deleted ==> states[n].txs[t].key != k
    ensures forall v :: v in states[n].sweeps && v != w ==> k !in states[n].sweeps[v].keys
  {
    hide IsRun;
    RunKeepsInv(states, actions, n);
    RunSweepsBounded(states, actions, n);
    var s := states[n];
    assert Sweeps(s, w, k);
    assert forall t :: t in s.txs && s.txs[t].deleted && s.txs[t].key == k ==> Deletes(s, t, k);
    assert forall v :: v in s.sweeps && k in s.sweeps[v].keys ==> Sweeps(s, v, k);
    hide Fresh, OneClaimant, StagesFit, PendingFits, RowsAreRecorded, AnswersAreRecorded, DaysAreKept, ExactlyOnce, ReplaysAreTrue;
  }

  // ------------------------------------------------------ a request that meets nobody

  /** These steps lead from the one state to the other. */
  ghost predicate Steps(s: State, actions: seq<Action>, s': State)
    decreases |actions|
  {
    if actions == [] then s == s'
    else Enabled(s, actions[0]) && Steps(Apply(s, actions[0]), actions[1..], s')
  }

  ghost predicate KeyIsIdle(s: State, t: TxId, k: Key) {
    forall b :: b != t ==> !Deletes(s, b, k) && !Sweeps(s, b, k) && !Inserts(s, b, k)
  }

  /** Its claim is in the way of nobody: the DELETE and the INSERT, one after the other. */
  lemma ToTheClaim(s: State, t: TxId) returns (s': State)
    requires t in s.txs && s.txs[t].stage.Begun? && !s.txs[t].deleted && t !in s.sweeps && KeyIsIdle(s, t, s.txs[t].key)
    ensures Steps(s, [StartFree(t), FinishFree(t), Claim(t)], s')
    ensures s'.ledger == s.ledger && s'.log == s.log && s'.now == s.now && t in s'.txs
    ensures var tx, tx' := s.txs[t], s'.txs[t];
            && tx'.key == tx.key && tx'.hash == tx.hash && tx'.start == tx.start
            && if tx.key !in s.ledger || s.ledger[tx.key].created < tx.start - 86_400_000_000
               then tx'.stage.Claimed? && tx'.claimedAt == s.now && tx'.pending == Some(Row(t, tx.hash, tx.start, None))
               else tx'.stage.Replaying? && tx'.pending == tx.pending
  {
    var s1 := Apply(s, StartFree(t));
    IdleStays(s, s1, t, s.txs[t].key);
    IdleRuns(s1, t);
    var s2 := Apply(s1, FinishFree(t));
    IdleStays(s, s2, t, s.txs[t].key);
    IdleRuns(s2, t);
    s' := Apply(s2, Claim(t));
    hide Runnable, Deletes, Sweeps, Inserts, KeyIsIdle;
    assert Steps(s', [], s') && Steps(s2, [Claim(t)], s');
    assert [FinishFree(t), Claim(t)][1..] == [Claim(t)];
    assert Steps(s1, [FinishFree(t), Claim(t)], s');
    assert [StartFree(t), FinishFree(t), Claim(t)][1..] == [FinishFree(t), Claim(t)];
  }

  lemma IdleStays(s: State, s': State, t: TxId, k: Key)
    requires KeyIsIdle(s, t, k) && s'.sweeps == s.sweeps
    requires forall b :: b != t ==> (b in s'.txs <==> b in s.txs) && (b in s.txs ==> s'.txs[b] == s.txs[b])
    ensures KeyIsIdle(s', t, k)
  {
    forall b | b != t
      ensures !Deletes(s', b, k) && !Sweeps(s', b, k) && !Inserts(s', b, k)
    {
      assert !Deletes(s, b, k) && !Sweeps(s, b, k) && !Inserts(s, b, k);
    }
  }

  lemma IdleRuns(s: State, t: TxId)
    requires t in s.txs && KeyIsIdle(s, t, s.txs[t].key)
    ensures Runnable(s, t)
  {
  }

  /** A request that meets nobody on its key runs the work if the key has no row or one over a day old, and records
      whatever success the work answers; else, if it is the recorded request again, it answers the recorded
      outcome; else it is a mismatch. Its own steps are enough. */
  lemma ARequestThatMeetsNobody(s: State, t: TxId, out: Outcome) returns (actions: seq<Action>, s': State)
    requires Inv(s) && t in s.txs && s.txs[t].stage.Begun? && KeyIsIdle(s, t, s.txs[t].key) && 200 <= out.status <= 299
    ensures Steps(s, actions, s')
    ensures var tx := s.txs[t];
            if tx.key !in s.ledger || s.ledger[tx.key].created < tx.start - 86_400_000_000 then
              && s'.ledger == s.ledger[tx.key := Row(t, tx.hash, tx.start, Some(out))]
              && s'.log == s.log + [Done(tx.key, t, tx.hash, tx.start, s.now, out)]
            else if s.ledger[tx.key].hash == tx.hash then
              && s.ledger[tx.key].result.Some? && s'.ledger == s.ledger
              && s'.log == s.log + [Replayed(tx.key, tx.hash, s.ledger[tx.key].result.value)]
            else
              t in s'.txs && s'.txs[t].stage.Replaying? && ReadAnswer(s', s'.txs[t]) == Mismatch && s'.ledger == s.ledger
  {
    hide Steps, KeyIsIdle, ReadAnswer;
    BegunIsClean(s, t);
    var s1 := ToTheClaim(s, t);
    actions := [StartFree(t), FinishFree(t), Claim(t)];
    if s1.txs[t].stage.Claimed? {
      var rest;
      rest, s' := FromTheClaim(s1, t, out);
      Joined(s, actions, s1, rest, s');
      actions := actions + rest;
    } else {
      RecordedHere(s, s.txs[t].key);
      if s.ledger[s.txs[t].key].hash == s.txs[t].hash {
        var rest;
        rest, s' := FromTheRead(s1, t);
        Joined(s, actions, s1, rest, s');
        actions := actions + rest;
      } else {
        s' := s1;
        IsMismatch(s1, t);
      }
    }
  }

  lemma BegunIsClean(s: State, t: TxId)
    requires Inv(s) && t in s.txs && s.txs[t].stage.Begun?
    ensures !s.txs[t].deleted && t !in s.sweeps && s.txs[t].pending == None
  {
    assert s.txs[t].pending == PendingOf(t, s.txs[t]);
    hide OneDeleter, OneClaimant, RowsAreRecorded, AnswersAreRecorded, DaysAreKept, ExactlyOnce, ReplaysAreTrue;
  }

  lemma RecordedHere(s: State, k: Key)
    requires Inv(s) && k in s.ledger
    ensures s.ledger[k].result.Some?
  {
    hide Fresh, OneDeleter, OneClaimant, StagesFit, PendingFits, AnswersAreRecorded, DaysAreKept, ExactlyOnce, ReplaysAreTrue, Logged;
  }

  lemma IsMismatch(s: State, t: TxId)
    requires t in s.txs && s.txs[t].key in s.ledger && s.ledger[s.txs[t].key].hash != s.txs[t].hash
    ensures ReadAnswer(s, s.txs[t]) == Mismatch
  {
  }

  lemma FromTheClaim(s: State, t: TxId, out: Outcome) returns (actions: seq<Action>, s': State)
    requires t in s.txs && s.txs[t].stage.Claimed? && 200 <= out.status <= 299
    requires s.txs[t].pending == Some(Row(t, s.txs[t].hash, s.txs[t].start, None))
    ensures Steps(s, actions, s')
    ensures var tx := s.txs[t];
            && s'.ledger == s.ledger[tx.key := Row(t, tx.hash, tx.start, Some(out))]
            && s'.log == s.log + [Done(tx.key, t, tx.hash, tx.start, tx.claimedAt, out)]
  {
    hide Runnable, Deletes, Sweeps;
    var s1 := Apply(s, Work(t, out));
    var s2 := Apply(s1, Record(t));
    s' := Apply(s2, Commit(t));
    actions := [Work(t, out), Record(t), Commit(t)];
    assert Steps(s', [], s') && Steps(s2, [Commit(t)], s');
    assert [Record(t), Commit(t)][1..] == [Commit(t)];
    assert Steps(s1, [Record(t), Commit(t)], s');
    assert actions[1..] == [Record(t), Commit(t)];
  }

  lemma FromTheRead(s: State, t: TxId) returns (actions: seq<Action>, s': State)
    requires t in s.txs && s.txs[t].stage.Replaying? && s.txs[t].pending == None && s.txs[t].key in s.ledger
    requires s.ledger[s.txs[t].key].hash == s.txs[t].hash && s.ledger[s.txs[t].key].result.Some?
    ensures Steps(s, actions, s')
    ensures var tx := s.txs[t];
            s'.ledger == s.ledger && s'.log == s.log + [Replayed(tx.key, tx.hash, s.ledger[tx.key].result.value)]
  {
    hide Runnable, Deletes, Sweeps;
    var s1 := Apply(s, Read(t));
    s' := Apply(s1, Commit(t));
    actions := [Read(t), Commit(t)];
    assert Steps(s', [], s') && Steps(s1, [Commit(t)], s');
    assert actions[1..] == [Commit(t)];
  }

  lemma {:induction false} Joined(s: State, a: seq<Action>, m: State, b: seq<Action>, s': State)
    requires Steps(s, a, m) && Steps(m, b, s')
    ensures Steps(s, a + b, s')
    decreases |a|
  {
    hide Enabled, Apply;
    if a == [] {
      assert a + b == b;
    } else {
      assert (a + b)[0] == a[0] && (a + b)[1..] == a[1..] + b;
      Joined(Apply(s, a[0]), a[1..], m, b, s');
    }
  }

  // ---------------------------------------------------------------- no deadlock

  /** Deadlock freedom: whoever a request waits for is a request with the same key or a sweep between its
      statement and its commit, and waits for nobody itself: a DELETE that read
      a row waits for that row's deleter, an INSERT for its key's deleter or claimant. No chain of waits is longer than one, so no
      wait graph of a reachable state has a cycle. */
  lemma NobodyWaitsForAWaiter(states: seq<State>, actions: seq<Action>, n: nat, t: TxId, b: TxId, c: TxId)
    requires IsRun(states, actions) && n < |states|
    requires Blocks(states[n], t, b)
    ensures b in states[n].sweeps || (b in states[n].txs && states[n].txs[b].key == states[n].txs[t].key)
    ensures t in states[n].txs && (states[n].txs[t].stage.Freeing? || states[n].txs[t].stage.Freed?)
    ensures states[n].txs[t].stage.Freeing? ==>
              states[n].txs[t].stage.seen.Some? && (b in states[n].sweeps || states[n].txs[b].deleted)
    ensures b in states[n].txs ==> states[n].txs[b].deleted || states[n].txs[b].Inserting()
    ensures b in states[n].sweeps ==> states[n].txs[t].key in states[n].sweeps[b].keys
    ensures !Blocks(states[n], b, c)
  {
    RunKeepsInv(states, actions, n);
    var s := states[n];
    var key := s.txs[t].key;
    assert Deletes(s, b, key) || Sweeps(s, b, key) || Inserts(s, b, key);
    assert c != b && Deletes(s, b, key) ==> !Deletes(s, c, key) && !Sweeps(s, c, key) && !Inserts(s, c, key);
  }

  /** A waiting request can always be let through: its blockers can commit or roll back at once. */
  lemma BlockersCanFinish(states: seq<State>, actions: seq<Action>, n: nat, t: TxId, b: TxId)
    requires IsRun(states, actions) && n < |states|
    requires Blocks(states[n], t, b)
    ensures b in states[n].txs ==> Enabled(states[n], RollBack(b)) && !Blocks(Apply(states[n], RollBack(b)), t, b)
    ensures b in states[n].sweeps ==> Enabled(states[n], SweepCommit(b)) && !Blocks(Apply(states[n], SweepCommit(b)), t, b)
  {
    RunKeepsInv(states, actions, n);
  }
}
