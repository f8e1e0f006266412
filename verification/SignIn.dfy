/** A sign-in through the identity (internal/adminauth/identity.go) and by administrator row
    (internal/adminauth/manager.go): what it costs whoever asks, and the sessions it leaves behind however
    its database calls end.

    A call that answers an error may have done nothing or may have committed first. The answers, whatever they
    are, come as a script.
 */
module SignIn {
  import opened Calls
  import opened Candidates
  import opened Wrappers

  type IdentityId = nat
  type SessionId = nat

  datatype Identity = Identity(id: IdentityId, digest: Digest, hasActiveMembership: bool)

  datatype Resolved = Found(identity: Identity) | NotFound | ResolverError

  datatype Attempt = Attempt(row: RowId, matched: bool, active: bool)

  /** The rows the password proved: matched and active, in order. */
  function Verified(attempts: seq<Attempt>): seq<RowId> {
    if attempts == [] then []
    else (if attempts[0].matched && attempts[0].active then [attempts[0].row] else []) + Verified(attempts[1..])
  }

  /** A row verifies exactly when some attempt on it matched and it was active. */
  lemma {:induction false} VerifiedMeans(attempts: seq<Attempt>, r: RowId)
    ensures r in Verified(attempts) <==> exists a :: a in attempts && a.row == r && a.matched && a.active
  {
    if attempts != [] {
      VerifiedMeans(attempts[1..], r);
      assert attempts == [attempts[0]] + attempts[1..];
    }
  }

  datatype Opened = Session(id: SessionId) | OpenRefused | OpenError

  datatype LinkReply = LinkDone | LinkRefused | LinkError

  datatype Abandoned = Abandoned(session: SessionId, revoked: bool)

  datatype Entered =
    | Entered(session: SessionId, linked: nat)
    | NotOpened                                    // pgx.ErrNoRows
    | Broke(abandoned: Option<Abandoned>)

  datatype Outcome =
    | AsIdentity(session: SessionId, linked: nat)
    | AsRows(rows: seq<RowId>)
    | BadCredentials
    | DatabaseError(abandoned: Option<Abandoned>)

  function DigestsOf(window: seq<Candidate>): seq<Digest> { seq(|window|, i requires 0 <= i < |window| => window[i].digest) }

  function Repeated(d: Digest, n: nat): seq<Digest> { seq(n, _ => d) }

  lemma OnceMore(d: Digest, n: nat)
    ensures Repeated(d, n + 1) == Repeated(d, n) + [d]
  {
  }

  function SetOf(ps: seq<SessionId>): set<SessionId> { set p | p in ps }

  ghost predicate NoRepeat(ps: seq<SessionId>) { forall i, j :: 0 <= i < j < |ps| ==> ps[i] != ps[j] }

  ghost predicate AllBelow(ps: seq<SessionId>, n: nat) { forall p :: p in ps ==> p < n }

  /** One sign-in. */
  class Manager {
    const compare: (Digest, string) -> bool
    const dummy: Digest
    const script: seq<Reply>                   // what its calls answer

    // what it paid
    var comparisons: nat
    var openSteps: nat                         // identity_open_session, or the decoy
    var events: nat                            // failure event calls
    var calls: nat                             // of the script, made so far

    // the sessions it gave out that are still live
    var next: SessionId
    var proofs: set<SessionId>
    var identitySessions: set<SessionId>

    ghost var compared: seq<Digest>            // what the password was compared with, in order
    ghost var openedProofs: set<SessionId>     // answered by the open
    ghost var openedIdentity: set<SessionId>
    ghost var consumed: set<SessionId>         // by a link that answered
    ghost var attempted: set<SessionId>        // revocations tried
    ghost var stuck: set<SessionId>            // revocations that answered an error
    ghost var asked: seq<RowId>                // the rows a proof session was asked for, in order
    ghost var linkAsked: set<SessionId>        // the proofs a link was asked for
    ghost var openRefused: bool                // identity_open_session answered no row
    ghost var proofOrphans: set<SessionId>     // opens that committed and then answered an error
    ghost var identityOrphans: set<SessionId>

    ghost predicate Valid()
      reads this
    {
      && (forall x :: x in proofs ==> x < next) && (forall x :: x in identitySessions ==> x < next)
      && (forall x :: x in openedProofs ==> x < next) && (forall x :: x in stuck ==> x < next)
      && (forall x :: x in proofOrphans ==> x < next) && (forall x :: x in identityOrphans ==> x < next)
    }

    ghost predicate Fresh()
      reads this
    {
      && proofs == {} && identitySessions == {} && openedProofs == {} && openedIdentity == {}
      && consumed == {} && attempted == {} && stuck == {} && proofOrphans == {} && identityOrphans == {}
      && asked == [] && linkAsked == {} && !openRefused
    }

    constructor (compare: (Digest, string) -> bool, dummy: Digest, script: seq<Reply>)
      ensures Valid() && Fresh() && comparisons == 0 && openSteps == 0 && events == 0
      ensures this.compare == compare && this.dummy == dummy && this.script == script && calls == 0 && compared == []
    {
      this.compare, this.dummy, this.script := compare, dummy, script;
      comparisons, openSteps, events, calls, next := 0, 0, 0, 0, 0;
      proofs, identitySessions := {}, {};
      openedProofs, openedIdentity, consumed, attempted, stuck := {}, {}, {}, {}, {};
      proofOrphans, identityOrphans := {}, {};
      asked, linkAsked, openRefused, compared := [], {}, false, [];
    }

    // ------------------------------------------------------------ comparisons

    method Compare(digest: Digest, password: string) returns (matched: bool)
      modifies this`comparisons, this`compared
      ensures comparisons == old(comparisons) + 1 && matched == compare(digest, password)
      ensures compared == old(compared) + [digest]
    {
      comparisons := comparisons + 1;
      compared := compared + [digest];
      matched := compare(digest, password);
    }

    /** Up to MaxCandidates, whatever was done, each with the digest given or else the dummy. */
    method Pad(password: string, digest: Option<Digest>, done: nat)
      requires done <= MAX_CANDIDATES
      modifies this`comparisons, this`compared
      ensures comparisons == old(comparisons) + MAX_CANDIDATES - done
      ensures compared == old(compared) + Repeated(if digest.Some? then digest.value else dummy, MAX_CANDIDATES - done)
    {
      var reference := if digest.Some? then digest.value else dummy;
      for i := done to MAX_CANDIDATES
        invariant comparisons == old(comparisons) + i - done
        invariant compared == old(compared) + Repeated(reference, i - done)
      {
        var _ := Compare(reference, password);
        OnceMore(reference, i - done);
      }
    }

    /** Every row is compared, active or not. */
    method CompareAll(window: seq<Candidate>, password: string) returns (attempts: seq<Attempt>)
      modifies this`comparisons, this`compared
      ensures comparisons == old(comparisons) + |window| && attempts == AttemptsOf(window, password)
      ensures compared == old(compared) + DigestsOf(window)
    {
      attempts := [];
      for i := 0 to |window|
        invariant comparisons == old(comparisons) + i && attempts == AttemptsOf(window[..i], password)
        invariant compared == old(compared) + DigestsOf(window[..i])
      {
        assert window[..i + 1][..i] == window[..i];
        assert DigestsOf(window[..i + 1]) == DigestsOf(window[..i]) + [window[i].digest];
        var matched := Compare(window[i].digest, password);
        attempts := attempts + [Attempt(window[i].row, matched, window[i].active)];
      }
      assert window[..|window|] == window;
    }

    function AttemptsOf(window: seq<Candidate>, password: string): seq<Attempt> {
      seq(|window|, i requires 0 <= i < |window| => Attempt(window[i].row, compare(window[i].digest, password), window[i].active))
    }

    /** Who the comparisons verify: the active rows of the window whose own digest the password matches. */
    lemma WhoVerifies(window: seq<Candidate>, password: string, r: RowId)
      ensures r in Verified(AttemptsOf(window, password))
              <==> exists c :: c in window && c.row == r && c.active && compare(c.digest, password)
    {
      var attempts := AttemptsOf(window, password);
      VerifiedMeans(attempts, r);
      hide Verified;
      if a :| a in attempts && a.row == r && a.matched && a.active {
        var i :| 0 <= i < |attempts| && attempts[i] == a;
        assert window[i] in window;
      }
      if c :| c in window && c.row == r && c.active && compare(c.digest, password) {
        var i :| 0 <= i < |window| && window[i] == c;
        assert attempts[i] in attempts;
      }
    }

    /** Exactly eight comparisons, whatever the address resolves to; a row signs in exactly when it is in the
        window, active, and the password is its own. */
    method Authenticate(lookupable: bool, password: string, listed: Listed) returns (o: Outcome)
      modifies this`comparisons, this`compared
      ensures lookupable && listed.RowsError? ==> o == DatabaseError(None) && comparisons == old(comparisons)
      ensures !lookupable || (listed.Rows? && listed.rows == []) ==> compared == old(compared) + Repeated(dummy, 8)
      ensures lookupable && listed.Rows? && listed.rows != [] ==>
                var window := Window(listed.rows);
                compared == old(compared) + DigestsOf(window) + Repeated(listed.rows[0].digest, 8 - |window|)
      ensures !(lookupable && listed.RowsError?) ==> comparisons == old(comparisons) + MAX_CANDIDATES
      ensures !lookupable ==> o == BadCredentials
      ensures lookupable && listed.Rows? ==>
                var verified := Verified(AttemptsOf(Window(listed.rows), password));
                o == if verified == [] then BadCredentials else AsRows(verified)
    {
      if !lookupable {
        Pad(password, None, 0);
        return BadCredentials;
      }
      if listed.RowsError? { return DatabaseError(None); }
      var window := Window(listed.rows);
      if |window| == 0 {
        Pad(password, None, 0);
        return BadCredentials;
      }
      var attempts := CompareAll(window, password);
      Pad(password, Some(window[0].digest), |window|);
      var verified := Verified(attempts);
      o := if |verified| == 0 then BadCredentials else AsRows(verified);
    }

    // --------------------------------------------------------------- sessions

    method Call() returns (r: Reply)
      modifies this`calls
      ensures calls == old(calls) + 1 && r == At(script, old(calls)) && (NoErrors(script) ==> !r.Error?)
    {
      r := At(script, calls);
      assert calls < |script| ==> r in script;
      calls := calls + 1;
    }

    method OpenProof(row: RowId) returns (r: Opened)
      requires Valid() && proofOrphans == {}
      modifies this`next, this`proofs, this`openedProofs, this`proofOrphans, this`asked, this`calls
      ensures Valid() && old(next) <= next && asked == old(asked) + [row] && calls == old(calls) + 1
      ensures (r.OpenError? <==> At(script, old(calls)).Error?) && (NoErrors(script) ==> !r.OpenError?)
      ensures r.Session? <==> At(script, old(calls)).Yes?
      ensures r.Session? ==>
                && r.id !in old(openedProofs) && r.id < next && proofs == old(proofs) + {r.id}
                && openedProofs == old(openedProofs) + {r.id}
      ensures !r.Session? ==> openedProofs == old(openedProofs) && proofs == old(proofs) + proofOrphans
      ensures proofOrphans !! old(openedProofs) && (proofOrphans != {} <==> At(script, old(calls)) == Error(true))
    {
      hide NoErrors;
      var answer := Call();
      asked := asked + [row];
      var id := next;
      match answer {
        case Yes(_) =>
          r := Session(id);
          proofs, openedProofs, next := proofs + {id}, openedProofs + {id}, next + 1;
        case Error(committed) =>
          r := OpenError;
          if committed { proofs, proofOrphans, next := proofs + {id}, proofOrphans + {id}, next + 1; }
        case _ => r := OpenRefused;
      }
    }

    /** identity_open_session. */
    method OpenIdentity() returns (r: Opened)
      requires Valid() && identitySessions == {} && identityOrphans == {}
      modifies this`next, this`identitySessions, this`openedIdentity, this`identityOrphans, this`openSteps
      modifies this`openRefused, this`calls
      ensures Valid() && old(next) <= next && openSteps == old(openSteps) + 1 && calls == old(calls) + 1
      ensures (r.OpenError? <==> At(script, old(calls)).Error?) && (NoErrors(script) ==> !r.OpenError?)
      ensures r.Session? <==> At(script, old(calls)).Yes?
      ensures openRefused == r.OpenRefused?
      ensures r.Session? ==>
                && r.id !in openedProofs && r.id < next && identitySessions == {r.id}
                && openedIdentity == old(openedIdentity) + {r.id}
      ensures !r.Session? ==> openedIdentity == old(openedIdentity) && identitySessions == identityOrphans
      ensures identityOrphans !! openedProofs
      ensures identityOrphans != {} <==> At(script, old(calls)) == Error(true)
    {
      hide NoErrors;
      openSteps := openSteps + 1;
      var answer := Call();
      var id := next;
      match answer {
        case Yes(_) =>
          r := Session(id);
          identitySessions, openedIdentity, next := identitySessions + {id}, openedIdentity + {id}, next + 1;
        case Error(committed) =>
          r := OpenError;
          if committed { identitySessions, identityOrphans, next := identitySessions + {id}, identityOrphans + {id}, next + 1; }
        case _ => r := OpenRefused;
      }
      openRefused := r.OpenRefused?;
    }

    method Revoke(id: SessionId) returns (ok: bool)
      requires Valid() && id < next
      modifies this`proofs, this`identitySessions, this`attempted, this`stuck, this`calls
      ensures Valid() && attempted == old(attempted) + {id} && (NoErrors(script) ==> ok)
      ensures calls == old(calls) + 1 && (ok <==> !At(script, old(calls)).Error?)
      ensures ok ==> proofs == old(proofs) - {id} && identitySessions == old(identitySessions) - {id} && stuck == old(stuck)
      ensures !ok && At(script, old(calls)).committed ==>
                proofs == old(proofs) - {id} && identitySessions == old(identitySessions) - {id}
      ensures !ok && !At(script, old(calls)).committed ==> proofs == old(proofs) && identitySessions == old(identitySessions)
      ensures !ok ==> old(proofs) - {id} <= proofs <= old(proofs) && stuck == old(stuck) + {id}
      ensures !ok ==> old(identitySessions) - {id} <= identitySessions <= old(identitySessions)
    {
      var answer := Call();
      ok := !answer.Error?;
      attempted := attempted + {id};
      if ok || answer.committed { proofs, identitySessions := proofs - {id}, identitySessions - {id}; }
      if !ok { stuck := stuck + {id}; }
    }

    /** Every one is tried, whatever became of the one before. */
    method RevokeProofs(ps: seq<SessionId>) returns (ok: bool)
      requires Valid() && AllBelow(ps, next)
      modifies this`proofs, this`identitySessions, this`attempted, this`stuck, this`calls
      ensures Valid() && attempted == old(attempted) + SetOf(ps) && old(stuck) <= stuck <= old(stuck) + SetOf(ps)
      ensures ok ==> stuck == old(stuck)
      ensures NoErrors(script) ==> ok
      ensures calls == old(calls) + |ps| && (ok <==> NoErrorIn(script, old(calls), |ps|))
      ensures proofs <= old(proofs) && old(proofs) - SetOf(ps) <= proofs <= (old(proofs) - SetOf(ps)) + stuck
      ensures old(identitySessions) - SetOf(ps) <= identitySessions <= old(identitySessions)
    {
      ok := true;
      for i := 0 to |ps|
        invariant Valid() && attempted == old(attempted) + SetOf(ps[..i])
        invariant old(stuck) <= stuck <= old(stuck) + SetOf(ps[..i])
        invariant (ok ==> stuck == old(stuck)) && (NoErrors(script) ==> ok)
        invariant calls == old(calls) + i && (ok <==> NoErrorIn(script, old(calls), i))
        invariant proofs <= old(proofs) && old(proofs) - SetOf(ps[..i]) <= proofs <= (old(proofs) - SetOf(ps[..i])) + stuck
        invariant old(identitySessions) - SetOf(ps[..i]) <= identitySessions <= old(identitySessions)
      {
        OneMore(ps, i);
        assert ps[i] in ps;
        var revoked := Revoke(ps[i]);
        if !revoked { ok := false; }
      }
      assert ps[..|ps|] == ps;
    }

    /** identity_link_legacy consumes the proof it links. */
    method Link(p: SessionId) returns (r: LinkReply)
      requires Valid()
      modifies this`proofs, this`consumed, this`linkAsked, this`calls
      ensures Valid() && linkAsked == old(linkAsked) + {p} && (NoErrors(script) ==> !r.LinkError?)
      ensures calls == old(calls) + 1
      ensures (r.LinkDone? <==> At(script, old(calls)).Yes?) && (r.LinkError? <==> At(script, old(calls)).Error?)
      ensures r.LinkDone? ==> proofs == old(proofs) - {p} && consumed == old(consumed) + {p}
      ensures r.LinkRefused? ==> proofs == old(proofs) && consumed == old(consumed)
      ensures r.LinkError? ==> consumed == old(consumed)
      ensures r.LinkError? ==> proofs == if At(script, old(calls)).committed then old(proofs) - {p} else old(proofs)
    {
      var answer := Call();
      r := match answer case Yes(_) => LinkDone case Error(_) => LinkError case _ => LinkRefused;
      linkAsked := linkAsked + {p};
      if r.LinkDone? || (r.LinkError? && answer.committed) { proofs := proofs - {p}; }
      if r.LinkDone? { consumed := consumed + {p}; }
    }

    /** Every proof session that was given out was consumed by a link or its revocation was tried, and the
        ones still live are those whose open committed and answered an error, and some whose revocation failed. */
    ghost predicate ProofsSettled()
      reads this
    {
      openedProofs <= consumed + attempted && proofOrphans <= proofs <= proofOrphans + stuck
    }

    method OpenProofs(attempts: seq<Attempt>) returns (ps: seq<SessionId>, ok: bool)
      requires Valid() && Fresh()
      modifies this`next, this`proofs, this`openedProofs, this`proofOrphans, this`asked, this`calls
      ensures Valid() && openedProofs == SetOf(ps) && proofs == SetOf(ps) + proofOrphans && proofOrphans !! SetOf(ps)
      ensures var e := ProofCalls(|Verified(attempts)|, script, old(calls), 0);
              (ok <==> e.Opened?) && (ok ==> calls == e.next && |ps| == e.given) && (proofOrphans != {} <==> e == ProofFailed(true))
      ensures NoRepeat(ps)
      ensures ok ==> asked == Verified(attempts)
      ensures NoErrors(script) ==> ok
    {
      ps, ok := [], true;
      assert attempts[0..] == attempts && SetOf(ps) == {} && NoRepeat(ps) && Verified(attempts[|attempts|..]) == [];
      hide *;
      for i := 0 to |attempts|
        invariant Valid() && openedProofs == SetOf(ps) && proofs == SetOf(ps) && proofOrphans == {}
        invariant ProofCalls(|Verified(attempts[i..])|, script, calls, |ps|) == ProofCalls(|Verified(attempts)|, script, old(calls), 0)
        invariant NoRepeat(ps)
        invariant asked + Verified(attempts[i..]) == Verified(attempts)
      {
        VerifiedFrom(attempts, i);
        Shift(asked, attempts[i].row, Verified(attempts[i + 1..]));
        if !attempts[i].matched || !attempts[i].active { continue; }
        OneMoreCall(|Verified(attempts[i + 1..])|, script, calls, |ps|);
        var r := OpenProof(attempts[i].row);
        match r {
          case OpenRefused =>
          case OpenError => return ps, false;
          case Session(id) =>
            Snoc(ps, id);
            ps := ps + [id];
        }
      }
      NoMoreCalls(script, calls, |ps|);
    }

    /** One proof: consumed by its link, or revoked; if the database fails, it and all the rest are revoked. */
    method LinkOne(p: SessionId, rest: seq<SessionId>) returns (linked: bool, ok: bool)
      requires Valid() && p < next && AllBelow(rest, next)
      modifies this`proofs, this`identitySessions, this`consumed, this`attempted, this`stuck, this`linkAsked, this`calls
      ensures Valid() && linkAsked == old(linkAsked) + {p} && (NoErrors(script) ==> ok)
      ensures ok ==> stuck == old(stuck) && (old(stuck) == {} ==> proofs <= old(proofs) - {p})
      ensures ok ==> consumed + attempted == old(consumed) + old(attempted) + {p}
      ensures consumed == if ok && linked then old(consumed) + {p} else old(consumed)
      ensures !ok ==> attempted == old(attempted) + {p} + SetOf(rest)
      ensures !ok ==> proofs <= (old(proofs) - {p} - SetOf(rest)) + stuck && stuck <= old(stuck) + {p} + SetOf(rest)
      ensures old(identitySessions) - {p} - SetOf(rest) <= identitySessions <= old(identitySessions)
      ensures var k := old(calls);
              && (At(script, k).Yes? ==> ok && linked && calls == k + 1)
              && (At(script, k).Error? ==> !ok && calls == k + 2 + |rest|)
              && (!At(script, k).Yes? && !At(script, k).Error? ==>
                    && !linked && (ok <==> !At(script, k + 1).Error?)
                    && calls == if ok then k + 2 else k + 2 + |rest|)
    {
      assert SetOf([p]) == {p} && SetOf([p] + rest) == {p} + SetOf(rest);
      hide SetOf;
      var r := Link(p);
      match r {
        case LinkDone => linked, ok := true, true;
        case LinkRefused =>
          linked := false;
          ok := RevokeProofs([p]);
          if !ok { var _ := RevokeProofs(rest); }
        case LinkError =>
          linked, ok := false, false;
          var _ := RevokeProofs([p] + rest);
      }
    }

    /** The first `n` proofs are consumed or revoked, and nothing went wrong. */
    ghost predicate Linking(ps: seq<SessionId>, n: nat)
      requires n <= |ps|
      reads this
    {
      && Valid() && NoRepeat(ps) && AllBelow(ps, next) && openedProofs == SetOf(ps) && identitySessions !! SetOf(ps)
      && stuck == {} && proofOrphans == {} && linkAsked == SetOf(ps[..n])
      && Owing(openedProofs, consumed, attempted, proofs, SetOf(ps[n..]))
    }

    lemma LinkingMeans(ps: seq<SessionId>, n: nat)
      requires n <= |ps|
      ensures Linking(ps, n) <==>
                && Valid() && NoRepeat(ps) && AllBelow(ps, next) && openedProofs == SetOf(ps) && identitySessions !! SetOf(ps)
                && stuck == {} && proofOrphans == {} && linkAsked == SetOf(ps[..n])
                && Owing(openedProofs, consumed, attempted, proofs, SetOf(ps[n..]))
    {
      hide Valid, NoRepeat, AllBelow, Owing;
    }

    method LinkNext(ps: seq<SessionId>, n: nat, ghost done: nat) returns (linked: bool, ok: bool)
      requires n < |ps| && Linking(ps, n)
      modifies this`proofs, this`identitySessions, this`consumed, this`attempted, this`stuck, this`linkAsked, this`calls
      ensures identitySessions == old(identitySessions) && (NoErrors(script) ==> ok)
      ensures ok ==> Linking(ps, n + 1) && |consumed| == |old(consumed)| + if linked then 1 else 0
      ensures !ok ==> Valid() && ProofsSettled() && stuck <= SetOf(ps)
      ensures LinkCalls(|ps| - n, script, old(calls), done) ==
                if ok then LinkCalls(|ps| - n - 1, script, calls, if linked then done + 1 else done) else LinksFailed(calls)
    {
      hide *;
      OneMoreLink(|ps| - n, script, calls, done);
      LinkingMeans(ps, n);
      TailWithin(ps, n, next);
      OneMore(ps, n);
      NotAgain(ps, n);
      ghost var consumed0, attempted0, proofs0 := consumed, attempted, proofs;
      linked, ok := LinkOne(ps[n], ps[n + 1..]);
      Apart(old(identitySessions), identitySessions, SetOf(ps), ps[n], SetOf(ps[n + 1..]));
      if ok {
        OwingNext(openedProofs, consumed0, consumed, attempted0, attempted, proofs0, proofs, ps[n], SetOf(ps[n + 1..]), linked);
        LinkingMeans(ps, n + 1);
      } else {
        OwingFailed(openedProofs, consumed, attempted0, attempted, proofs0, proofs, stuck, ps[n], SetOf(ps[n + 1..]), SetOf(ps));
        StillSettled();
      }
    }

    /** The proofs in order: each is consumed by its link, or revoked. */
    method LinkAll(ps: seq<SessionId>) returns (linked: nat, ok: bool)
      requires Valid() && openedProofs == SetOf(ps) && proofs <= SetOf(ps) && identitySessions !! SetOf(ps)
      requires consumed == {} && attempted == {} && stuck == {} && proofOrphans == {}
      requires NoRepeat(ps) && AllBelow(ps, next)
      requires linkAsked == {}
      modifies this`proofs, this`identitySessions, this`consumed, this`attempted, this`stuck, this`linkAsked, this`calls
      ensures (NoErrors(script) ==> ok) && (ok ==> linkAsked == SetOf(ps))
      ensures Valid() && ProofsSettled() && stuck <= SetOf(ps) && identitySessions == old(identitySessions)
      ensures ok ==> proofs == {} && stuck == {} && |consumed| == linked
      ensures LinkCalls(|ps|, script, old(calls), 0) == if ok then Linked(calls, linked) else LinksFailed(calls)
    {
      hide SetOf, NoRepeat, AllBelow, NoErrors, Owing, LinkCalls, Linking, NoErrors;
      linked, ok := 0, true;
      LinkingFromNone(ps);
      for i := 0 to |ps|
        invariant Linking(ps, i) && identitySessions == old(identitySessions) && |consumed| == linked
        invariant LinkCalls(|ps| - i, script, calls, linked) == LinkCalls(|ps|, script, old(calls), 0)
      {
        var done, fine := LinkNext(ps, i, linked);
        if !fine { return linked, false; }
        if done { linked := linked + 1; }
      }
      NoMoreLinks(script, calls, linked);
      LinkedAll(ps);
    }

    lemma LinkingFromNone(ps: seq<SessionId>)
      requires Valid() && openedProofs == SetOf(ps) && proofs <= SetOf(ps) && identitySessions !! SetOf(ps)
      requires consumed == {} && attempted == {} && stuck == {} && proofOrphans == {} && linkAsked == {}
      requires NoRepeat(ps) && AllBelow(ps, next)
      ensures Linking(ps, 0)
    {
      hide SetOf, NoRepeat, AllBelow, Owing, Valid;
      Ends(ps);
      OwingAll(openedProofs, proofs, SetOf(ps));
    }

    lemma LinkedAll(ps: seq<SessionId>)
      requires Linking(ps, |ps|)
      ensures Valid() && ProofsSettled() && proofs == {} && stuck == {} && linkAsked == SetOf(ps)
    {
      hide SetOf, NoRepeat, AllBelow, Owing, Valid;
      Ends(ps);
      OwingNothing(openedProofs, consumed, attempted, proofs);
      StillSettled();
    }

    lemma StillSettled()
      requires openedProofs <= consumed + attempted && proofs <= stuck && proofOrphans == {}
      ensures ProofsSettled()
    {
    }

    /** Nothing came of the proofs: each is revoked, or its revocation tried. */
    method RevokeGiven(ps: seq<SessionId>) returns (ok: bool)
      requires Valid() && AllBelow(ps, next) && openedProofs == SetOf(ps) && proofs == SetOf(ps) + proofOrphans
      requires proofOrphans !! SetOf(ps) && identitySessions !! SetOf(ps) && stuck == {}
      modifies this`proofs, this`identitySessions, this`attempted, this`stuck, this`calls
      ensures Valid() && ProofsSettled() && identitySessions == old(identitySessions)
      ensures (ok ==> stuck == {}) && (stuck == {} ==> proofs == proofOrphans) && (NoErrors(script) ==> ok)
      ensures calls == old(calls) + |ps| && (ok <==> NoErrorIn(script, old(calls), |ps|))
    {
      hide SetOf, AllBelow, NoErrors, NoErrorIn;
      ok := RevokeProofs(ps);
    }

    /** The identity's session is given out: every proof is linked, or the session is abandoned. */
    method LinkOrAbandon(ps: seq<SessionId>, id: SessionId) returns (e: Entered)
      requires Valid() && openedProofs == SetOf(ps) && proofs <= SetOf(ps) && id !in SetOf(ps) && id < next
      requires identitySessions == {id} && consumed == {} && attempted == {} && stuck == {} && proofOrphans == {}
      requires NoRepeat(ps) && AllBelow(ps, next) && linkAsked == {}
      modifies this`proofs, this`identitySessions, this`consumed, this`attempted, this`stuck, this`linkAsked, this`calls
      ensures Valid() && ProofsSettled() && (NoErrors(script) ==> e.Entered?)
      ensures e.Entered? ==> e == Entered.Entered(id, |consumed|) && identitySessions == {id} && proofs == {} && stuck == {}
      ensures e.Entered? ==> linkAsked == SetOf(ps)
      ensures !e.Entered? ==> e == Broke(Some(Abandoned(id, id !in stuck)))
      ensures !e.Entered? && id !in stuck ==> identitySessions == {}
      ensures stuck == {} ==> proofs == proofOrphans
      ensures match LinkCalls(|ps|, script, old(calls), 0)
              case Linked(next, linked) => e == Entered.Entered(id, linked)
              case LinksFailed(next) => e == Broke(Some(Abandoned(id, !At(script, next).Error?)))
    {
      hide SetOf, AllBelow, NoRepeat, NoErrors, LinkCalls;
      var linked, all := LinkAll(ps);
      if all { return Entered.Entered(id, linked); }
      assert id !in stuck;
      var revoked := Revoke(id);
      e := Broke(Some(Abandoned(id, revoked)));
    }

    /** With the proofs in hand: the identity's session, and the rows linked to it. */
    method OpenAndLink(ps: seq<SessionId>) returns (e: Entered)
      requires Valid() && openedProofs == proofs == SetOf(ps) && proofOrphans == {} && NoRepeat(ps) && AllBelow(ps, next)
      requires identitySessions == openedIdentity == identityOrphans == {} && consumed == attempted == stuck == {}
      requires linkAsked == {}
      modifies this`next, this`proofs, this`identitySessions, this`openedIdentity, this`consumed, this`attempted
      modifies this`stuck, this`identityOrphans, this`openSteps, this`linkAsked, this`openRefused, this`calls
      ensures Valid() && ProofsSettled() && openSteps == old(openSteps) + 1
      ensures e.Entered? ==>
                && identitySessions == openedIdentity == {e.session} && e.linked == |consumed|
                && proofs == {} && stuck == {} && linkAsked == openedProofs && !openRefused
      ensures e.NotOpened? ==> openRefused && identitySessions == {} && openedIdentity == {} && proofs == {} && stuck == {}
      ensures NoErrors(script) ==> !e.Broke?
      ensures e.Broke? && e.abandoned.None? ==> openedIdentity == {} && identitySessions == identityOrphans
      ensures e.Broke? && e.abandoned.Some? ==>
                && openedIdentity == {e.abandoned.value.session}
                && (e.abandoned.value.revoked <==> e.abandoned.value.session !in stuck)
                && (e.abandoned.value.revoked ==> identitySessions == {})
      ensures stuck == {} && !e.Entered? ==> proofs == {} && identitySessions == identityOrphans
      ensures identityOrphans != {} <==> At(script, old(calls)) == Error(true)
      ensures At(script, old(calls)).Error? ==> e == Broke(None)
      ensures EndedAs(e, EndingFrom(|ps|, script, old(calls)))
      ensures e.NotOpened? ==> EndingFrom(|ps|, script, old(calls)) == Refused(calls)
    {
      hide SetOf, AllBelow, NoRepeat, NoErrors, ProofsSettled, LinkCalls, NoErrorIn;
      var r := OpenIdentity();
      Given(ps, next);
      if r.Session? {
        e := LinkOrAbandon(ps, r.id);
      } else {
        var revoked := RevokeGiven(ps);
        e := if r.OpenRefused? && revoked then NotOpened else Broke(None);
      }
    }

    /** Opens the identity's session and links every row the password proved. However its calls end, no proof
        session is left but one whose revocation failed or whose open never answered; and an error after the
        identity's session was given out reports that session, and truly whether it was revoked. */
    method SignInAsIdentity(attempts: seq<Attempt>) returns (e: Entered)
      requires Valid() && Fresh()
      modifies this`next, this`proofs, this`identitySessions, this`openedProofs, this`openedIdentity
      modifies this`consumed, this`attempted, this`stuck, this`proofOrphans, this`identityOrphans, this`openSteps
      modifies this`asked, this`linkAsked, this`openRefused, this`calls
      ensures Valid() && ProofsSettled()
      ensures e.Entered? ==>
                && identitySessions == openedIdentity == {e.session} && e.linked == |consumed|
                && proofs == {} && stuck == {}
      ensures e.Entered? ==> asked == Verified(attempts) && linkAsked == openedProofs && !openRefused
      ensures e.NotOpened? ==> openRefused
      ensures NoErrors(script) ==> !e.Broke?
      ensures e.NotOpened? ==> identitySessions == {} && openedIdentity == {} && proofs == {} && stuck == {}
      ensures e.Broke? ==> (e.abandoned.Some? <==> openedIdentity != {})
      ensures e.Broke? && e.abandoned.Some? ==>
                && openedIdentity == {e.abandoned.value.session}
                && (e.abandoned.value.revoked <==> e.abandoned.value.session !in stuck)
                && (e.abandoned.value.revoked ==> identitySessions == {})
      ensures e.Broke? && e.abandoned.None? ==> identitySessions == identityOrphans
      ensures var end := ProofCalls(|Verified(attempts)|, script, old(calls), 0);
              && (proofOrphans != {} <==> end == ProofFailed(true))
              && (identityOrphans != {} <==> end.Opened? && At(script, end.next) == Error(true))
              && (!end.Opened? || At(script, end.next).Error? ==> e == Broke(None))
      ensures stuck == {} && !e.Entered? ==> proofs == proofOrphans && identitySessions == identityOrphans
      ensures !e.Broke? ==> openSteps == old(openSteps) + 1
      ensures EndedAs(e, EndingOf(|Verified(attempts)|, script, old(calls)))
      ensures e.NotOpened? ==> EndingOf(|Verified(attempts)|, script, old(calls)) == Refused(calls)
    {
      hide SetOf, AllBelow, Verified, NoRepeat, ProofCalls, NoErrors, EndingFrom;
      var ps, ok := OpenProofs(attempts);
      Given(ps, next);
      if !ok {
        var _ := RevokeGiven(ps);
        return Broke(None);
      }
      e := OpenAndLink(ps);
    }

    /** The branch, chosen after every comparison: the identity's session, or the decoy's step and what the rows
        alone prove. */
    method Decide(attempts: seq<Attempt>, enters: bool) returns (o: Outcome)
      requires Valid() && Fresh()
      modifies this
      ensures Valid() && ProofsSettled() && comparisons == old(comparisons) && compared == old(compared)
      ensures o.BadCredentials? ==> openSteps == old(openSteps) + 1 && events == old(events) + 1
      ensures o.AsIdentity? ==>
                enters && identitySessions == openedIdentity == {o.session} && o.linked == |consumed| && proofs == {}
      ensures o.AsRows? ==> o.rows == Verified(attempts) != [] && identitySessions == {} && proofs == {}
      ensures o.BadCredentials? ==> Verified(attempts) == [] && identitySessions == {} && proofs == {}
      ensures NoErrors(script) ==>
                && !o.DatabaseError? && (o.AsIdentity? <==> enters && !openRefused)
                && (o.AsIdentity? ==> asked == Verified(attempts) && linkAsked == openedProofs)
      ensures o.DatabaseError? ==> (o.abandoned.Some? <==> openedIdentity != {})
      ensures o.DatabaseError? && o.abandoned.Some? ==>
                openedIdentity == {o.abandoned.value.session} && (o.abandoned.value.revoked ==> identitySessions == {})
      ensures OutcomeIs(o, Verified(attempts), VerdictOf(|Verified(attempts)|, enters, script, old(calls)))
    {
      hide Verified, ProofCalls, NoErrors, EndingOf;
      if enters {
        var e := SignInAsIdentity(attempts);
        match e {
          case Entered(session, linked) => return AsIdentity(session, linked);
          case Broke(abandoned) => return DatabaseError(abandoned);
          case NotOpened =>
        }
      } else {
        var answered := Decoy();
        if !answered { return DatabaseError(None); }
      }
      var verified := Verified(attempts);
      if |verified| > 0 { return AsRows(verified); }
      var recorded := RecordFailure();
      o := if recorded then BadCredentials else DatabaseError(None);
    }

    /** Exactly nine comparisons, whatever the address resolves to, and a failure of the credentials is always
        one open step and one event call. Whoever is let in proved the password: to the identity, with an
        active membership, or to a row of the window that is linked to none. */
    method AuthenticatePerson(lookupable: bool, password: string, resolved: Resolved, listed: Listed) returns (o: Outcome)
      requires Valid() && Fresh()
      modifies this
      ensures Valid() && ProofsSettled()
      ensures comparisons - old(comparisons) ==
                if lookupable && (resolved.ResolverError? || listed.RowsError?) then 0 else MAX_CANDIDATES + 1
      ensures !lookupable ==> o == BadCredentials && openSteps == old(openSteps) && events == old(events)
      ensures !lookupable ==> compared == old(compared) + [dummy] + Repeated(dummy, 8)
      ensures lookupable && !resolved.ResolverError? && listed.Rows? ==>
                var window := Window(Unlinked(listed.rows));
                var reference := if resolved.Found? then resolved.identity.digest
                                 else if window != [] then window[0].digest else dummy;
                compared == old(compared) + [reference] + DigestsOf(window) + Repeated(reference, 8 - |window|)
      ensures lookupable && o.BadCredentials? ==> openSteps == old(openSteps) + 1 && events == old(events) + 1
      ensures o.AsIdentity? ==>
                && resolved.Found? && resolved.identity.hasActiveMembership && compare(resolved.identity.digest, password)
                && identitySessions == openedIdentity == {o.session} && o.linked == |consumed| && proofs == {}
      ensures o.AsRows? ==>
                && listed.Rows? && o.rows == Verified(AttemptsOf(Window(Unlinked(listed.rows)), password)) != []
                && identitySessions == {} && proofs == {}
      ensures o.BadCredentials? && lookupable ==>
                && listed.Rows? && Verified(AttemptsOf(Window(Unlinked(listed.rows)), password)) == []
                && identitySessions == {} && proofs == {}
      ensures NoErrors(script) && lookupable && !resolved.ResolverError? && !listed.RowsError? ==>
                && !o.DatabaseError?
                && (o.AsIdentity? <==> resolved.Found? && resolved.identity.hasActiveMembership
                                       && compare(resolved.identity.digest, password) && !openRefused)
                && (o.AsIdentity? ==> asked == Verified(AttemptsOf(Window(Unlinked(listed.rows)), password)) && linkAsked == openedProofs)
      ensures o.DatabaseError? ==> (o.abandoned.Some? <==> openedIdentity != {})
      ensures o.DatabaseError? && o.abandoned.Some? ==>
                openedIdentity == {o.abandoned.value.session} && (o.abandoned.value.revoked ==> identitySessions == {})
      ensures lookupable && (resolved.ResolverError? || listed.RowsError?) ==> o == DatabaseError(None) && calls == old(calls)
      ensures lookupable && !resolved.ResolverError? && listed.Rows? ==>
                var rows := Verified(AttemptsOf(Window(Unlinked(listed.rows)), password));
                var enters := && resolved.Found? && resolved.identity.hasActiveMembership
                              && compare(resolved.identity.digest, password);
                OutcomeIs(o, rows, VerdictOf(|rows|, enters, script, old(calls)))
    {
      hide Verified, NoErrors, Unlinked, Manager.AttemptsOf, VerdictOf, OutcomeIs;
      if !lookupable {
        var _ := Compare(dummy, password);
        Pad(password, None, 0);
        return BadCredentials;
      }
      if resolved.ResolverError? || listed.RowsError? { return DatabaseError(None); }
      var legacy := Window(Unlinked(listed.rows));
      var reference := Reference(resolved, legacy);
      var proven := false;
      if resolved.Found? {
        proven := Compare(resolved.identity.digest, password);
      } else {
        var _ := Compare(if reference.Some? then reference.value else dummy, password);
      }
      var attempts := CompareAll(legacy, password);
      Pad(password, reference, |legacy|);
      o := Decide(attempts, proven && resolved.identity.hasActiveMembership);
    }

    /** The padding costs what a real comparison of this sign-in costs. */
    function Reference(resolved: Resolved, legacy: seq<Candidate>): Option<Digest> {
      if resolved.Found? then Some(resolved.identity.digest)
      else if |legacy| > 0 then Some(legacy[0].digest)
      else None
    }

    method Decoy() returns (ok: bool)
      modifies this`openSteps, this`calls
      ensures openSteps == old(openSteps) + 1 && (NoErrors(script) ==> ok)
      ensures calls == old(calls) + 1 && (ok <==> !At(script, old(calls)).Error?)
    {
      openSteps := openSteps + 1;
      var answer := Call();
      ok := !answer.Error?;
    }

    method RecordFailure() returns (ok: bool)
      modifies this`events, this`calls
      ensures events == old(events) + 1 && (NoErrors(script) ==> ok)
      ensures calls == old(calls) + 1 && (ok <==> !At(script, old(calls)).Error?)
    {
      events := events + 1;
      var answer := Call();
      ok := !answer.Error?;
    }
  }

  /** How the opens of `n` proof sessions end, with `given` already given out: at the next call, or at one that
      answered an error. */
  datatype ProofsEnd = Opened(next: nat, given: nat) | ProofFailed(committed: bool)

  function ProofCalls(n: nat, script: seq<Reply>, k: nat, given: nat): ProofsEnd {
    if n == 0 then ProofsEnd.Opened(k, given)
    else match At(script, k)
      case Error(committed) => ProofFailed(committed)
      case Yes(_) => ProofCalls(n - 1, script, k + 1, given + 1)
      case _ => ProofCalls(n - 1, script, k + 1, given)
  }

  lemma OneMoreCall(n: nat, script: seq<Reply>, k: nat, given: nat)
    ensures ProofCalls(n + 1, script, k, given) ==
              if At(script, k).Error? then ProofFailed(At(script, k).committed)
              else ProofCalls(n, script, k + 1, if At(script, k).Yes? then given + 1 else given)
  {
  }

  lemma NoMoreCalls(script: seq<Reply>, k: nat, given: nat)
    ensures ProofCalls(0, script, k, given) == ProofsEnd.Opened(k, given)
  {
  }

  /** How the links of `n` proofs end, with `linked` done already. A refused link costs a revocation; an error, of
      either, costs the revocation of every proof that is left. */
  datatype LinksEnd = Linked(next: nat, linked: nat) | LinksFailed(next: nat)

  function LinkCalls(n: nat, script: seq<Reply>, k: nat, linked: nat): LinksEnd {
    if n == 0 then Linked(k, linked)
    else match At(script, k)
      case Yes(_) => LinkCalls(n - 1, script, k + 1, linked + 1)
      case Error(_) => LinksFailed(k + 1 + n)
      case _ =>
        if At(script, k + 1).Error? then LinksFailed(k + 1 + n) else LinkCalls(n - 1, script, k + 2, linked)
  }

  lemma OneMoreLink(n: nat, script: seq<Reply>, k: nat, linked: nat)
    requires n > 0
    ensures At(script, k).Yes? ==> LinkCalls(n, script, k, linked) == LinkCalls(n - 1, script, k + 1, linked + 1)
    ensures At(script, k).Error? ==> LinkCalls(n, script, k, linked) == LinksFailed(k + 1 + n)
    ensures !At(script, k).Yes? && !At(script, k).Error? ==>
              LinkCalls(n, script, k, linked) ==
                if At(script, k + 1).Error? then LinksFailed(k + 1 + n) else LinkCalls(n - 1, script, k + 2, linked)
  {
  }

  lemma NoMoreLinks(script: seq<Reply>, k: nat, linked: nat)
    ensures LinkCalls(0, script, k, linked) == Linked(k, linked)
  {
  }

  /** What the answers make of a sign-in through the identity whose password proved `n` rows. */
  datatype Ending = Enters(linked: nat) | Refused(next: nat) | Breaks(revoked: Option<bool>)

  ghost function EndingOf(n: nat, script: seq<Reply>, k: nat): Ending {
    match ProofCalls(n, script, k, 0)
    case ProofFailed(_) => Breaks(None)
    case Opened(j, given) => EndingFrom(given, script, j)
  }

  /** From the identity's own open, at call `j`, with `given` proofs in hand. */
  ghost function EndingFrom(given: nat, script: seq<Reply>, j: nat): Ending {
    match At(script, j)
    case Error(_) => Breaks(None)
    case Yes(_) =>
      (match LinkCalls(given, script, j + 1, 0)
       case Linked(_, linked) => Enters(linked)
       case LinksFailed(next) => Breaks(Some(!At(script, next).Error?)))
    case _ => if NoErrorIn(script, j + 1, given) then Refused(j + 1 + given) else Breaks(None)
  }

  /** What the answers make of the whole sign-in, past its comparisons: `enters` if the identity's password was right
      and it has an active membership, `n` rows proved. */
  datatype Verdict = EntersAs(linked: nat) | EntersRows | Denied | Fails(revoked: Option<bool>)

  ghost function VerdictOf(n: nat, enters: bool, script: seq<Reply>, k: nat): Verdict {
    if enters then
      match EndingOf(n, script, k)
      case Enters(linked) => EntersAs(linked)
      case Breaks(revoked) => Fails(revoked)
      case Refused(next) => RowsAlone(n, script, next)
    else if At(script, k).Error? then Fails(None)
    else RowsAlone(n, script, k + 1)
  }

  ghost function RowsAlone(n: nat, script: seq<Reply>, k: nat): Verdict {
    if n > 0 then EntersRows else if At(script, k).Error? then Fails(None) else Denied
  }

  predicate OutcomeIs(o: Outcome, rows: seq<RowId>, v: Verdict) {
    match v
    case EntersAs(linked) => o.AsIdentity? && o.linked == linked
    case EntersRows => o == AsRows(rows)
    case Denied => o == BadCredentials
    case Fails(None) => o == DatabaseError(None)
    case Fails(Some(revoked)) => o.DatabaseError? && o.abandoned.Some? && o.abandoned.value.revoked == revoked
  }

  /** The sign-in ended so. */
  predicate EndedAs(e: Entered, ending: Ending) {
    match ending
    case Enters(linked) => e.Entered? && e.linked == linked
    case Refused(_) => e.NotOpened?
    case Breaks(None) => e == Broke(None)
    case Breaks(Some(revoked)) => e.Broke? && e.abandoned.Some? && e.abandoned.value.revoked == revoked
  }

  /** A sign-in whose one proof session was opened, although the call answered an error: it fails, and the
      session is left. */
  method AProofIsLeft(compare: (Digest, string) -> bool) returns (m: Manager, e: Entered)
    ensures e == Broke(None) && m.proofs != {}
  {
    m := new Manager(compare, 0, [Error(true)]);
    var attempts := [Attempt(0, true, true)];
    assert |Verified(attempts)| == 1 && ProofCalls(1, m.script, 0, 0) == ProofFailed(true);
    e := m.SignInAsIdentity(attempts);
  }

  /** The same of the identity's own session: nobody is told of it. */
  method AnIdentitySessionIsLeft(compare: (Digest, string) -> bool) returns (m: Manager, e: Entered)
    ensures e == Broke(None) && m.identitySessions != {}
  {
    m := new Manager(compare, 0, [Error(true)]);
    e := m.SignInAsIdentity([]);
  }

  lemma VerifiedFrom(attempts: seq<Attempt>, i: nat)
    requires i < |attempts|
    ensures Verified(attempts[i..]) ==
              (if attempts[i].matched && attempts[i].active then [attempts[i].row] else []) + Verified(attempts[i + 1..])
  {
    assert attempts[i..][0] == attempts[i] && attempts[i..][1..] == attempts[i + 1..];
  }

  lemma Shift(a: seq<RowId>, r: RowId, b: seq<RowId>)
    ensures a + ([r] + b) == (a + [r]) + b && [] + b == b
  {
  }

  lemma Given(ps: seq<SessionId>, n: nat)
    requires forall p :: p in SetOf(ps) ==> p < n
    ensures AllBelow(ps, n)
  {
    assert forall p :: p in ps ==> p in SetOf(ps);
  }

  lemma Snoc(ps: seq<SessionId>, id: SessionId)
    ensures SetOf(ps + [id]) == SetOf(ps) + {id}
    ensures NoRepeat(ps) && id !in SetOf(ps) ==> NoRepeat(ps + [id])
  {
    assert forall p :: p in ps ==> p in SetOf(ps);
  }

  lemma TailWithin(ps: seq<SessionId>, i: nat, n: nat)
    requires i < |ps| && AllBelow(ps, n)
    ensures ps[i] in SetOf(ps) && SetOf(ps[i + 1..]) <= SetOf(ps)
    ensures ps[i] < n && AllBelow(ps[i + 1..], n)
  {
    assert ps[i] in ps;
    var rest := ps[i + 1..];
    forall q | q in rest
      ensures q < n
    {
      var j :| 0 <= j < |rest| && rest[j] == q;
      assert ps[i + 1 + j] in ps;
    }
  }

  /** What was opened is consumed, revoked or still `left` to do; what is live is left. */
  ghost predicate Owing(given: set<SessionId>, consumed: set<SessionId>, attempted: set<SessionId>,
                        live: set<SessionId>, left: set<SessionId>) {
    given <= consumed + attempted + left && live <= left && consumed !! left
  }

  lemma OwingAll(given: set<SessionId>, live: set<SessionId>, left: set<SessionId>)
    requires given == left && live <= left
    ensures Owing(given, {}, {}, live, left)
  {
  }

  lemma Ends(ps: seq<SessionId>)
    ensures ps[0..] == ps && SetOf(ps[|ps|..]) == {} && SetOf(ps[..0]) == {} && ps[..|ps|] == ps
  {
  }

  lemma OwingNext(given: set<SessionId>, consumed: set<SessionId>, consumed': set<SessionId>, attempted: set<SessionId>,
                  attempted': set<SessionId>, live: set<SessionId>, live': set<SessionId>, p: SessionId,
                  left: set<SessionId>, linked: bool)
    requires Owing(given, consumed, attempted, live, {p} + left) && p !in left
    requires consumed' + attempted' == consumed + attempted + {p} && live' <= live - {p}
    requires consumed' == if linked then consumed + {p} else consumed
    ensures Owing(given, consumed', attempted', live', left)
    ensures |consumed'| == |consumed| + if linked then 1 else 0
  {
  }

  lemma OwingFailed(given: set<SessionId>, consumed: set<SessionId>, attempted: set<SessionId>, attempted': set<SessionId>,
                    live: set<SessionId>, live': set<SessionId>, stuck: set<SessionId>, p: SessionId,
                    left: set<SessionId>, all: set<SessionId>)
    requires Owing(given, consumed, attempted, live, {p} + left) && p in all && left <= all
    requires attempted' == attempted + {p} + left && live' <= (live - {p} - left) + stuck && stuck <= {} + {p} + left
    ensures given <= consumed + attempted' && live' <= stuck && stuck <= all
  {
  }

  lemma OwingNothing(given: set<SessionId>, consumed: set<SessionId>, attempted: set<SessionId>, live: set<SessionId>)
    requires Owing(given, consumed, attempted, live, {})
    ensures given <= consumed + attempted && live == {}
  {
  }

  lemma Apart(before: set<SessionId>, after: set<SessionId>, all: set<SessionId>, p: SessionId, left: set<SessionId>)
    requires before !! all && p in all && left <= all && before - {p} - left <= after <= before
    ensures after == before
  {
  }

  lemma NotAgain(ps: seq<SessionId>, i: nat)
    requires i < |ps| && NoRepeat(ps)
    ensures ps[i] !in SetOf(ps[i + 1..])
  {
  }

  lemma OneMore(ps: seq<SessionId>, i: nat)
    requires i < |ps|
    ensures SetOf(ps[..i + 1]) == SetOf(ps[..i]) + {ps[i]}
    ensures SetOf(ps[i..]) == {ps[i]} + SetOf(ps[i + 1..])
  {
    assert ps[..i + 1] == ps[..i] + [ps[i]];
    assert ps[i..] == [ps[i]] + ps[i + 1..];
  }
}
