/** A recovery request and the links it leaves behind (internal/adminauth/resetrequest.go, `issueForRows`,
    and internal/adminauth/identityreset.go, `IssueForPerson`), for every way its database calls may fail.

    A call that answers an error may have done nothing or may have committed first. The answers, whatever they
    are, come as a script; ResetLinks says what a mint may answer.
 */
module ResetRequests {
  import opened Calls
  import opened Candidates
  import opened Wrappers

  type LinkId = nat

  /** The identity the address resolved to. */
  datatype Person = Person(id: nat, email: string, hasActiveMembership: bool)

  datatype Resolved = Found(person: Person) | NotFound | PersonError

  datatype Owner = OfRow(row: RowId) | OfIdentity(identity: nat)

  datatype Grant = Grant(link: LinkId, owner: Owner, recipient: string)

  datatype Address = Read(address: string) | AddressError   // "": gone, disabled or without one

  datatype Mint = Minted(link: LinkId) | Kept | NoSuchAdmin | MintError

  datatype Outcome =
    | Answered(grants: seq<Grant>, kept: seq<RowId>, identityKept: bool)
    | Failed

  datatype RowReply = Granted(grant: Grant) | WasHeld | Skipped | Broke

  /** Where a request's per-row calls end: at the next call, or at one that answered an error. */
  datatype RowsEnd = RowsDone(next: nat) | ReadFailed(next: nat) | MintFailed(next: nat, committed: bool)

  /** The calls one candidate costs, and how they end, read off the answers. */
  function RowCalls(c: Candidate, script: seq<Reply>, k: nat): RowsEnd {
    if !c.active then RowsDone(k)
    else match At(script, k)
      case Error(_) => ReadFailed(k + 1)
      case Yes(address) =>
        if address == "" then RowsDone(k + 1)
        else if At(script, k + 1).Error? then MintFailed(k + 2, At(script, k + 1).committed)
        else RowsDone(k + 2)
      case _ => RowsDone(k + 1)
  }

  /** Case by case: no call for an inactive row, the address's alone, or the address's and the mint's. */
  lemma CallsOf(c: Candidate, script: seq<Reply>, k: nat)
    ensures !c.active ==> RowCalls(c, script, k) == RowsDone(k)
    ensures c.active && At(script, k).Error? ==> RowCalls(c, script, k) == ReadFailed(k + 1)
    ensures c.active && !At(script, k).Error? && !(At(script, k).Yes? && At(script, k).text != "") ==>
              RowCalls(c, script, k) == RowsDone(k + 1)
    ensures c.active && At(script, k).Yes? && At(script, k).text != "" ==>
              RowCalls(c, script, k) == if At(script, k + 1).Error? then MintFailed(k + 2, At(script, k + 1).committed)
                                        else RowsDone(k + 2)
  {
  }

  function RowsCalls(cs: seq<Candidate>, script: seq<Reply>, k: nat): RowsEnd {
    if cs == [] then RowsDone(k)
    else
      var e := RowCalls(cs[0], script, k);
      if e.RowsDone? then RowsCalls(cs[1..], script, e.next) else e
  }

  lemma RowsCallsFrom(cs: seq<Candidate>, i: nat, script: seq<Reply>, k: nat)
    requires i < |cs|
    ensures var e := RowCalls(cs[i], script, k);
            RowsCalls(cs[i..], script, k) == if e.RowsDone? then RowsCalls(cs[i + 1..], script, e.next) else e
  {
    assert cs[i..][0] == cs[i] && cs[i..][1..] == cs[i + 1..];
    hide RowCalls;
  }

  lemma OnlyAFailureOrphans(e: RowsEnd)
    ensures OrphanMade(e) ==> !e.RowsDone?
  {
  }

  lemma NoMoreCalls(cs: seq<Candidate>, script: seq<Reply>, k: nat)
    ensures RowsCalls(cs[|cs|..], script, k) == RowsDone(k)
  {
  }

  /** A request by person: its rows' calls, then the identity's open, whose error withdraws what it made. */
  function PersonCalls(resolved: Resolved, rows: seq<Candidate>, script: seq<Reply>, k: nat): RowsEnd {
    var e := RowsCalls(Window(Unlinked(rows)), script, k);
    if !e.RowsDone? || !Opens(resolved) then e
    else if At(script, e.next).Error? then ReadFailed(e.next + 1)
    else RowsDone(e.next + 1)
  }

  /** The request opens the identity's link. */
  predicate Opens(resolved: Resolved) {
    resolved.Found? && resolved.person.hasActiveMembership && resolved.person.email != ""
  }

  /** The calls ended in a mint that had committed when it answered its error. */
  predicate OrphanMade(e: RowsEnd) { e.MintFailed? && e.committed }

  ghost function LinksOf(grants: seq<Grant>): set<LinkId> { set g | g in grants :: g.link }

  /** Candidate `c` was dealt with. */
  ghost predicate Settled(c: Candidate, grants: seq<Grant>, kept: seq<RowId>, skipped: set<RowId>) {
    !c.active || c.row in skipped || c.row in kept || exists g :: g in grants && g.owner == OfRow(c.row)
  }

  lemma NothingToSettle(c: Candidate, grants: seq<Grant>, kept: seq<RowId>, skipped: set<RowId>)
    requires !c.active || c.row in skipped
    ensures Settled(c, grants, kept, skipped)
  {
  }

  /** The first `n` candidates were, and no grant is for anything else. */
  ghost predicate AllSettled(candidates: seq<Candidate>, n: nat, grants: seq<Grant>, kept: seq<RowId>, skipped: set<RowId>)
    requires n <= |candidates|
  {
    && (forall k :: 0 <= k < n ==> Settled(candidates[k], grants, kept, skipped))
    && forall g :: g in grants ==> exists k :: 0 <= k < n && candidates[k].active && g.owner == OfRow(candidates[k].row)
  }

  function GrantsOf(r: RowReply): seq<Grant> { if r.Granted? then [r.grant] else [] }

  function KeptBy(r: RowReply, c: Candidate): seq<RowId> { if r.WasHeld? then [c.row] else [] }

  lemma OneMoreSettled(candidates: seq<Candidate>, n: nat, grants: seq<Grant>, kept: seq<RowId>, skipped: set<RowId>,
                       r: RowReply, skipped': set<RowId>)
    requires n < |candidates| && AllSettled(candidates, n, grants, kept, skipped) && skipped <= skipped'
    requires Settled(candidates[n], GrantsOf(r), KeptBy(r, candidates[n]), skipped')
    requires r.Granted? ==> candidates[n].active && r.grant.owner == OfRow(candidates[n].row)
    ensures AllSettled(candidates, n + 1, grants + GrantsOf(r), kept + KeptBy(r, candidates[n]), skipped')
  {
    var grants', kept' := grants + GrantsOf(r), kept + KeptBy(r, candidates[n]);
    assert forall g :: g in grants || g in GrantsOf(r) ==> g in grants';
    assert forall k :: k in kept || k in KeptBy(r, candidates[n]) ==> k in kept';
    forall k | 0 <= k < n
      ensures Settled(candidates[k], grants', kept', skipped')
    {
      assert Settled(candidates[k], grants, kept, skipped);
    }
    assert Settled(candidates[n], grants', kept', skipped');
  }

  /** Every grant is a live link to its row's own address, and every live link is granted, once. */
  ghost predicate Accounted(grants: seq<Grant>, live: set<LinkId>, addresses: map<RowId, string>) {
    && live == LinksOf(grants)
    && (forall i, j :: 0 <= i < j < |grants| ==> grants[i].link != grants[j].link)
    && (forall g :: g in grants ==> g.recipient != "")
    && (forall g :: g in grants && g.owner.OfRow? ==> g.owner.row in addresses && g.recipient == addresses[g.owner.row])
  }

  lemma OneMoreAccounted(grants: seq<Grant>, live: set<LinkId>, addresses: map<RowId, string>, g: Grant)
    requires Accounted(grants, live, addresses) && g.link !in live && g.recipient != ""
    requires g.owner.OfRow? ==> g.owner.row in addresses && g.recipient == addresses[g.owner.row]
    ensures Accounted(grants + [g], live + {g.link}, addresses) && Accounted([g] + grants, live + {g.link}, addresses)
  {
    assert forall x :: x in grants ==> x.link in LinksOf(grants);
    assert LinksOf(grants + [g]) == live + {g.link} by { assert g in grants + [g]; }
    assert LinksOf([g] + grants) == live + {g.link} by { assert g in [g] + grants; }
  }

  lemma AddressesMayMove(grants: seq<Grant>, live: set<LinkId>, addresses: map<RowId, string>,
                         addresses': map<RowId, string>, row: RowId)
    requires Accounted(grants, live, addresses) && forall g :: g in grants ==> g.owner != OfRow(row)
    requires forall r :: r in addresses && r != row ==> r in addresses' && addresses'[r] == addresses[r]
    ensures Accounted(grants, live, addresses')
  {
  }

  lemma AllOwed(grants: seq<Grant>, live: set<LinkId>, addresses: map<RowId, string>)
    requires Accounted(grants, live, addresses)
    ensures live == LinksOf(grants) && forall g :: g in grants ==> g.link in live
  {
    assert forall g :: g in grants ==> g.link in LinksOf(grants);
  }

  lemma NotYetGranted(candidates: seq<Candidate>, n: nat, grants: seq<Grant>, kept: seq<RowId>, skipped: set<RowId>)
    requires n < |candidates| && AllSettled(candidates, n, grants, kept, skipped)
    requires forall i, j :: 0 <= i < j < |candidates| ==> candidates[i].row != candidates[j].row
    ensures forall g :: g in grants ==> g.owner != OfRow(candidates[n].row)
  {
  }

  /** One request. `live`: the links it minted that may still be spent. */
  class Request {
    const script: seq<Reply>                   // what its calls answer
    var calls: nat
    var live: set<LinkId>
    var next: LinkId
    ghost var orphans: set<LinkId>             // a per-row mint that committed and then answered an error
    ghost var stuck: set<LinkId>               // its withdrawal answered an error
    ghost var addresses: map<RowId, string>    // what each row's own address read answered
    ghost var held: set<RowId>                 // the mint found a live link
    ghost var personReplies: seq<RowReply>     // what the identity's open answered
    ghost var skipped: set<RowId>              // no address, or no active row when it came to the mint

    ghost predicate Valid()
      reads this
    {
      && (forall x :: x in live ==> x < next)
      && (forall x :: x in orphans ==> x < next)
      && (forall x :: x in stuck ==> x < next)
    }

    constructor (script: seq<Reply>)
      ensures this.script == script && calls == 0
      ensures Valid() && live == {} && orphans == {} && stuck == {} && addresses == map[] && skipped == {}
      ensures held == {} && personReplies == []
    {
      this.script, calls := script, 0;
      live, next, orphans, stuck, addresses, skipped := {}, 0, {}, {}, map[], {};
      held, personReplies := {}, [];
    }

    method Call() returns (r: Reply)
      modifies this`calls
      ensures calls == old(calls) + 1 && r == At(script, old(calls))
    {
      r := At(script, calls);
      calls := calls + 1;
    }

    /** The row's own address (`recipient`). */
    method ReadAddress(row: RowId) returns (a: Address)
      modifies this`addresses, this`skipped, this`calls
      ensures calls == old(calls) + 1
      ensures var r := At(script, old(calls));
              a == if r.Error? then AddressError else if r.Yes? then Read(r.text) else Read("")
      ensures addresses == if a.Read? then old(addresses)[row := a.address] else old(addresses)
      ensures skipped == if a == Read("") then old(skipped) + {row} else old(skipped)
    {
      var r := Call();
      a := match r case Yes(address) => Read(address) case Error(_) => AddressError case _ => Read("");
      if a.Read? { addresses := addresses[row := a.address]; }
      if a == Read("") { skipped := skipped + {row}; }
    }

    /** issueUnlessLive. */
    method MintForRow(row: RowId) returns (m: Mint)
      requires Valid()
      modifies this`live, this`next, this`orphans, this`skipped, this`held, this`calls
      ensures Valid() && old(next) <= next && calls == old(calls) + 1
      ensures held == if m.Kept? then old(held) + {row} else old(held)
      ensures m.Minted? ==> live == old(live) + {m.link} && m.link !in old(live) && orphans == old(orphans)
      ensures m.Kept? || m.NoSuchAdmin? ==> live == old(live) && orphans == old(orphans)
      ensures (m.MintError? <==> At(script, old(calls)).Error?) && (m.Minted? <==> At(script, old(calls)).Yes?)
      ensures m.Kept? <==> At(script, old(calls)).Held?
      ensures m.MintError? && !At(script, old(calls)).committed ==> live == old(live) && orphans == old(orphans)
      ensures m.MintError? && At(script, old(calls)).committed ==>
                exists x :: x !in old(live) && live == old(live) + {x} && orphans == old(orphans) + {x}
      ensures skipped == if m.NoSuchAdmin? then old(skipped) + {row} else old(skipped)
    {
      var r := Call();
      match r {
        case Yes(_) =>
          m := Minted(next);
          live, next := live + {next}, next + 1;
        case Error(committed) =>
          m := MintError;
          if committed {
            assert next !in live;
            live, orphans, next := live + {next}, orphans + {next}, next + 1;
          }
        case No =>
          m := NoSuchAdmin;
          skipped := skipped + {row};
        case Held =>
          m := Kept;
          held := held + {row};
      }
    }

    /** Withdraw and WithdrawIdentity: a link already gone is not an error. */
    method Withdraw(link: LinkId) returns (ok: bool)
      requires Valid() && link < next
      modifies this`live, this`stuck, this`calls
      ensures Valid() && calls == old(calls) + 1 && (ok <==> !At(script, old(calls)).Error?)
      ensures ok ==> live == old(live) - {link} && stuck == old(stuck)
      ensures !ok ==> stuck == old(stuck) + {link}
      ensures !ok ==> live == if At(script, old(calls)).committed then old(live) - {link} else old(live)
    {
      var r := Call();
      ok := !r.Error?;
      if ok || r.committed { live := live - {link}; }
      if !ok { stuck := stuck + {link}; }
    }

    /** Every link the request minted, each tried whatever became of the one before. */
    method WithdrawAfterFailure(grants: seq<Grant>)
      requires Valid() && live <= LinksOf(grants) + orphans + stuck && orphans <= live && orphans !! LinksOf(grants)
      requires forall g :: g in grants ==> g.link < next
      modifies this`live, this`stuck, this`calls
      ensures Valid() && orphans <= live <= orphans + stuck && calls == old(calls) + |grants|
      ensures NoErrorFrom(script, old(calls)) ==> stuck == old(stuck)
    {
      for i := 0 to |grants|
        invariant Valid() && orphans <= live && live <= LinksOf(grants[i..]) + orphans + stuck && calls == old(calls) + i
        invariant NoErrorFrom(script, old(calls)) ==> stuck == old(stuck)
      {
        assert grants[i..] == [grants[i]] + grants[i + 1..];
        assert grants[i].link in LinksOf(grants);
        var _ := Withdraw(grants[i].link);
      }
    }

    /** The mint for a row whose address answered `address`, and what the request's reply then carries. */
    method MintFor(c: Candidate, address: string) returns (r: RowReply)
      requires Valid() && orphans == {} && c.active && address != ""
      modifies this`live, this`next, this`orphans, this`skipped, this`held, this`calls
      ensures Valid() && old(skipped) <= skipped && old(next) <= next && calls == old(calls) + 1
      ensures held == if r.WasHeld? then old(held) + {c.row} else old(held)
      ensures r.Granted? ==>
                && live == old(live) + {r.grant.link} && r.grant.link !in old(live) && orphans == {}
                && r.grant.owner == OfRow(c.row) && r.grant.recipient == address
      ensures r.WasHeld? || r.Skipped? ==> live == old(live) && orphans == {}
      ensures !r.Broke? ==> Settled(c, GrantsOf(r), KeptBy(r, c), skipped)
      ensures (r.Broke? <==> At(script, old(calls)).Error?) && (r.Granted? <==> At(script, old(calls)).Yes?)
      ensures r.WasHeld? <==> At(script, old(calls)).Held?
      ensures r.Broke? ==> live == old(live) + orphans && orphans !! old(live) && |orphans| <= 1
      ensures orphans != {} <==> At(script, old(calls)).Error? && At(script, old(calls)).committed
    {
      var m := MintForRow(c.row);
      match m {
        case MintError => r := Broke;
        case NoSuchAdmin => r := Skipped;
        case Kept => r := WasHeld;
        case Minted(link) => r := Granted(Grant(link, OfRow(c.row), address));
      }
    }

    /** One candidate: its address first, then the mint. */
    method IssueForRow(c: Candidate) returns (r: RowReply)
      requires Valid() && orphans == {}
      modifies this`live, this`next, this`orphans, this`skipped, this`addresses, this`held, this`calls
      ensures Valid() && old(skipped) <= skipped && old(next) <= next
      ensures held == if r.WasHeld? then old(held) + {c.row} else old(held)
      ensures forall r :: r in old(addresses) && r != c.row ==> r in addresses && addresses[r] == old(addresses)[r]
      ensures r.Granted? ==>
                && live == old(live) + {r.grant.link} && r.grant.link !in old(live) && orphans == {}
                && c.active && r.grant.owner == OfRow(c.row)
                && c.row in addresses && r.grant.recipient == addresses[c.row] != ""
      ensures r.WasHeld? || r.Skipped? ==> live == old(live) && orphans == {}
      ensures !r.Broke? ==> Settled(c, GrantsOf(r), KeptBy(r, c), skipped)
      ensures c.active && At(script, old(calls)).Yes? && At(script, old(calls)).text != "" ==>
                (r.Granted? <==> At(script, old(calls) + 1).Yes?) && (r.WasHeld? <==> At(script, old(calls) + 1).Held?)
      ensures calls == RowCalls(c, script, old(calls)).next && (r.Broke? <==> !RowCalls(c, script, old(calls)).RowsDone?)
      ensures r.Broke? ==> live == old(live) + orphans && orphans !! old(live) && |orphans| <= 1
      ensures orphans != {} <==> OrphanMade(RowCalls(c, script, old(calls)))
    {
      hide Settled, RowCalls, GrantsOf, KeptBy;
      CallsOf(c, script, calls);
      if !c.active {
        NothingToSettle(c, GrantsOf(Skipped), KeptBy(Skipped, c), skipped);
        return Skipped;
      }
      var to := ReadAddress(c.row);
      if to.AddressError? { return Broke; }
      if to.address == "" {
        NothingToSettle(c, GrantsOf(Skipped), KeptBy(Skipped, c), skipped);
        return Skipped;
      }
      r := MintFor(c, to.address);
    }

    /** The first `n` candidates are dealt with: what was minted is granted, and nothing went wrong. */
    ghost predicate SoFar(candidates: seq<Candidate>, n: nat, grants: seq<Grant>, kept: seq<RowId>)
      requires n <= |candidates|
      reads this
    {
      && Valid() && orphans == {} && stuck == {} && Accounted(grants, live, addresses)
      && AllSettled(candidates, n, grants, kept, skipped) && forall row :: row in kept ==> row in held
    }

    /** The next candidate; if its calls end in an error, what was minted before it is withdrawn. */
    method IssueNext(candidates: seq<Candidate>, n: nat, grants: seq<Grant>, kept: seq<RowId>)
        returns (grants': seq<Grant>, kept': seq<RowId>, ok: bool)
      requires n < |candidates| && SoFar(candidates, n, grants, kept)
      requires forall i, j :: 0 <= i < j < |candidates| ==> candidates[i].row != candidates[j].row
      modifies this`live, this`next, this`orphans, this`stuck, this`skipped, this`addresses, this`held, this`calls
      ensures ok <==> RowCalls(candidates[n], script, old(calls)).RowsDone?
      ensures ok ==> SoFar(candidates, n + 1, grants', kept') && calls == RowCalls(candidates[n], script, old(calls)).next
      ensures !ok ==> Valid() && orphans <= live <= orphans + stuck && |orphans| <= 1
      ensures NoErrorFrom(script, RowCalls(candidates[n], script, old(calls)).next) ==> stuck == {}
      ensures orphans != {} <==> OrphanMade(RowCalls(candidates[n], script, old(calls)))
    {
      NotYetGranted(candidates, n, grants, kept, skipped);
      ghost var live0, addresses0, skipped0 := live, addresses, skipped;
      AllOwed(grants, live0, addresses0);
      hide AllSettled, Accounted, LinksOf, RowCalls, NoErrorFrom;
      grants', kept' := grants, kept;
      var r := IssueForRow(candidates[n]);
      ok := !r.Broke?;
      if r.Broke? {
        WithdrawAfterFailure(grants);
        return;
      }
      AddressesMayMove(grants, live0, addresses0, addresses, candidates[n].row);
      OneMoreSettled(candidates, n, grants, kept, skipped0, r, skipped);
      hide Settled;
      match r {
        case Skipped =>
        case WasHeld => kept' := kept + [candidates[n].row];
        case Granted(g) =>
          OneMoreAccounted(grants, live0, addresses, g);
          grants' := grants + [g];
      }
      assert grants' == grants + GrantsOf(r) && kept' == kept + KeptBy(r, candidates[n]);
    }

    method IssueForRows(candidates: seq<Candidate>) returns (o: Outcome)
      requires Valid() && live == {} && orphans == {} && stuck == {}
      requires forall i, j :: 0 <= i < j < |candidates| ==> candidates[i].row != candidates[j].row
      modifies this
      ensures Valid()
      ensures o.Answered? ==> orphans == {} && stuck == {} && !o.identityKept && Accounted(o.grants, live, addresses)
      ensures o.Answered? ==> AllSettled(candidates, |candidates|, o.grants, o.kept, skipped)
      ensures o.Answered? ==> forall row :: row in o.kept ==> row in held
      ensures personReplies == old(personReplies)
      ensures o.Failed? <==> !RowsCalls(candidates, script, old(calls)).RowsDone?
      ensures o.Answered? ==> calls == RowsCalls(candidates, script, old(calls)).next
      ensures orphans != {} <==> OrphanMade(RowsCalls(candidates, script, old(calls)))
      ensures NoErrorFrom(script, RowsCalls(candidates, script, old(calls)).next) ==> stuck == {}
      ensures o.Failed? ==> orphans <= live <= orphans + stuck && |orphans| <= 1
    {
      var grants: seq<Grant>, kept: seq<RowId> := [], [];
      assert candidates[0..] == candidates && SoFar(candidates, 0, grants, kept);
      hide AllSettled, Accounted, RowCalls, RowsCalls, OrphanMade, NoErrorFrom;
      for i := 0 to |candidates|
        invariant SoFar(candidates, i, grants, kept)
        invariant personReplies == old(personReplies)
        invariant RowsCalls(candidates[i..], script, calls) == RowsCalls(candidates, script, old(calls))
      {
        RowsCallsFrom(candidates, i, script, calls);
        var ok: bool;
        grants, kept, ok := IssueNext(candidates, i, grants, kept);
        if !ok { return Failed; }
      }
      NoMoreCalls(candidates, script, calls);
      OnlyAFailureOrphans(RowsCalls(candidates, script, old(calls)));
      o := Answered(grants, kept, false);
    }

    /** `openForIdentity`'s call, withdrawn by hash whatever its error meant. */
    method OpenForPerson(person: Person) returns (r: RowReply)
      requires Valid()
      modifies this`live, this`next, this`stuck, this`personReplies, this`calls
      ensures Valid()
      ensures r.Broke? <==> person.email != "" && At(script, old(calls)).Error?
      ensures calls == if person.email == "" then old(calls) else if r.Broke? then old(calls) + 2 else old(calls) + 1
      ensures NoErrorFrom(script, old(calls) + 1) ==> stuck == old(stuck)
      ensures personReplies == if person.email == "" then old(personReplies) else old(personReplies) + [r]
      ensures person.email == "" ==> r.Skipped?
      ensures r.Granted? ==>
                && live == old(live) + {r.grant.link} && r.grant.link !in old(live) && r.grant.link !in orphans
                && r.grant.owner == OfIdentity(person.id) && r.grant.recipient == person.email != ""
      ensures !r.Broke? ==> stuck == old(stuck)
      ensures r.WasHeld? || r.Skipped? ==> live == old(live)
      ensures r.Broke? ==> old(live) <= live <= old(live) + stuck && old(stuck) <= stuck
      ensures r.Broke? && stuck == old(stuck) ==> live == old(live)
      ensures person.email != "" ==>
                var answer := At(script, old(calls));
                && (r.Granted? <==> answer.Yes?) && (r.WasHeld? <==> answer.Held?)
                && (r.Broke? ==>
                      var left := answer.committed && At(script, old(calls) + 1).Error? && !At(script, old(calls) + 1).committed;
                      live == if left then old(live) + {old(next)} else old(live))
    {
      if person.email == "" { return Skipped; }
      var link := next;                              // the token, drawn before the call
      next := next + 1;
      var answer := Call();
      match answer {
        case Yes(_) =>
          live := live + {link};
          r := Granted(Grant(link, OfIdentity(person.id), person.email));
        case Error(committed) =>
          if committed { live := live + {link}; }
          var _ := Withdraw(link);
          r := Broke;
        case Held => r := WasHeld;
        case No => r := Skipped;
      }
      personReplies := personReplies + [r];
    }

    /** A request by address, per administrator row. */
    method IssueForEmail(email: Option<string>, listed: Listed) returns (o: Outcome)
      requires Valid() && live == {} && orphans == {} && stuck == {} && held == {} && personReplies == []
      requires listed.Rows? ==>
                 forall i, j :: 0 <= i < j < |listed.rows| ==> listed.rows[i].row != listed.rows[j].row
      modifies this
      ensures Valid()
      ensures o.Answered? ==> orphans == {} && stuck == {} && !o.identityKept && Accounted(o.grants, live, addresses)
      ensures o.Answered? && email.Some? ==>
                listed.Rows? && AllSettled(Window(listed.rows), |Window(listed.rows)|, o.grants, o.kept, skipped)
      ensures email.None? ==> o == Answered([], [], false)
      ensures o.Failed? <==> email.Some? && (listed.RowsError? || !RowsCalls(Window(listed.rows), script, old(calls)).RowsDone?)
      ensures o.Failed? && listed.Rows? && NoErrorFrom(script, RowsCalls(Window(listed.rows), script, old(calls)).next) ==> stuck == {}
      ensures o.Failed? && stuck == {} ==>
                (live != {} <==> listed.Rows? && OrphanMade(RowsCalls(Window(listed.rows), script, old(calls))))
      ensures o.Failed? ==> orphans <= live <= orphans + stuck && |orphans| <= 1
    {
      if email.None? { return Answered([], [], false); }
      if listed.RowsError? { return Failed; }
      o := IssueForRows(Window(listed.rows));
    }

    /** The identity's link, in front of the rows'. */
    method AddPerson(rows: Outcome, person: Person) returns (o: Outcome)
      requires Valid() && rows.Answered? && !rows.identityKept && Accounted(rows.grants, live, addresses) && orphans == {} && stuck == {}
      requires forall g :: g in rows.grants ==> g.owner.OfRow?
      modifies this`live, this`next, this`stuck, this`personReplies, this`calls
      ensures Valid()
      ensures o.Failed? <==> person.email != "" && At(script, old(calls)).Error?
      ensures NoErrorFrom(script, old(calls) + 1) ==> stuck == {}
      ensures personReplies == old(personReplies)
              || (|personReplies| == |old(personReplies)| + 1 && personReplies[..|old(personReplies)|] == old(personReplies))
      ensures (personReplies == old(personReplies)) == (person.email == "")
      ensures o.Answered? && person.email != "" ==>
                var r := personReplies[|old(personReplies)|];
                (r.WasHeld? <==> o.identityKept) && (r.Granted? <==> o.grants != rows.grants) && !r.Broke?
      ensures o.Answered? && person.email == "" ==> o == rows
      ensures o.Answered? ==> stuck == {} && Accounted(o.grants, live, addresses) && o.kept == rows.kept
      ensures o.Answered? ==>
                || o.grants == rows.grants
                || (exists g :: o.grants == [g] + rows.grants && g.owner == OfIdentity(person.id)
                                && g.recipient == person.email && !o.identityKept)
      ensures o.Failed? ==> live <= stuck
    {
      ghost var live0 := live;
      AllOwed(rows.grants, live0, addresses);
      assert NoErrorFrom(script, calls + 1) ==> NoErrorFrom(script, calls + 2);
      hide Accounted, NoErrorFrom;
      var r := OpenForPerson(person);
      match r {
        case Broke =>
          WithdrawAfterFailure(rows.grants);
          o := Failed;
        case Granted(g) =>
          o := Answered([g] + rows.grants, rows.kept, false);
          assert |o.grants| == |rows.grants| + 1;
          OneMoreAccounted(rows.grants, live0, addresses, g);
        case WasHeld => o := Answered(rows.grants, rows.kept, true);
        case Skipped => o := rows;
      }
    }

    /** A request by address with identities on: the reads first, the identity's mint last. On success
        every link minted is granted, to the address its own row (or the identity) is stored with; on an
        error no link it minted is left but one whose withdrawal failed, or whose own per-row mint had
        committed before it answered the error. */
    method IssueForPerson(email: Option<string>, resolved: Resolved, listed: Listed) returns (o: Outcome)
      requires Valid() && live == {} && orphans == {} && stuck == {} && held == {} && personReplies == []
      requires listed.Rows? ==>
                 forall i, j :: 0 <= i < j < |listed.rows| ==> listed.rows[i].row != listed.rows[j].row
      modifies this
      ensures Valid()
      ensures email.None? ==> o == Answered([], [], false)
      ensures o.Answered? && email.Some? ==> !resolved.PersonError? && listed.Rows?
      ensures o.Answered? ==> orphans == {} && stuck == {} && Accounted(o.grants, live, addresses)
      ensures o.Answered? && email.Some? ==>
                var window := Window(Unlinked(listed.rows));
                var first := if |o.grants| > 0 && o.grants[0].owner.OfIdentity? then 1 else 0;
                && AllSettled(window, |window|, o.grants[first..], o.kept, skipped)
                && (first == 1 ==> resolved.Found? && resolved.person.hasActiveMembership && !o.identityKept
                                   && o.grants[0].owner == OfIdentity(resolved.person.id)
                                   && o.grants[0].recipient == resolved.person.email)
      ensures o.Answered? && email.Some? ==>
                (forall row :: row in o.kept ==> row in held)
                && (personReplies != [] <==> Opens(resolved))
      ensures o.Answered? && personReplies != [] ==>
                && |personReplies| == 1 && (personReplies[0].WasHeld? <==> o.identityKept)
                && (personReplies[0].Granted? <==> |o.grants| > 0 && o.grants[0].owner.OfIdentity?)
      ensures o.Failed? <==>
                email.Some?
                && (resolved.PersonError? || listed.RowsError? || !PersonCalls(resolved, listed.rows, script, old(calls)).RowsDone?)
      ensures o.Failed? && listed.Rows? && NoErrorFrom(script, PersonCalls(resolved, listed.rows, script, old(calls)).next) ==> stuck == {}
      ensures o.Failed? && stuck == {} ==>
                (live != {} <==> !resolved.PersonError? && listed.Rows?
                                 && OrphanMade(PersonCalls(resolved, listed.rows, script, old(calls))))
      ensures o.Failed? ==> orphans <= live <= orphans + stuck && |orphans| <= 1
    {
      if email.None? { return Answered([], [], false); }
      if resolved.PersonError? { return Failed; }
      if listed.RowsError? { return Failed; }
      var window := Window(Unlinked(listed.rows));
      UnlinkedDistinct(listed.rows);
      hide RowsCalls, RowCalls, Unlinked, Window, AllSettled, NoErrorFrom;
      o := IssueForRows(window);
      if o.Answered? && resolved.Found? && resolved.person.hasActiveMembership {
        o := AddPerson(o, resolved.person);
      }
    }
  }

  // A two-row request: the first row's link is minted, the second row's mint commits and answers an error, and
  // the first link's withdrawal is answered.
  const TWO_ROWS: seq<Candidate> := [Candidate(0, 0, true, false), Candidate(1, 0, true, false)]
  const LATE_ERROR: seq<Reply> := [Yes("a@example.org"), Yes(""), Yes("b@example.org"), Error(true), Yes("")]

  lemma LateErrorOrphans()
    ensures RowsCalls(TWO_ROWS, LATE_ERROR, 0) == MintFailed(4, true) && NoErrorFrom(LATE_ERROR, 4)
  {
    assert TWO_ROWS[1..] == [Candidate(1, 0, true, false)];
  }

  /** Its failure leaves a live link nobody was given, although every withdrawal it made was answered. */
  method ATwoRowRequestLeavesALink() returns (r: Request, o: Outcome)
    ensures o.Failed? && r.stuck == {} && r.live != {}
  {
    LateErrorOrphans();
    r := new Request(LATE_ERROR);
    o := r.IssueForEmail(Some("a@example.org"), Rows(TWO_ROWS));
  }
}
