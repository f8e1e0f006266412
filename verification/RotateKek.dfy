/** Moving every tag's key from one key-encryption key to another (cmd/rotatekek/main.go), and the readers
    that must open every tag while it happens (internal/sun/keys.go).

    The seal is ideal: a reference opens under the key and the uid it was sealed with and under no other.
 */
module RotateKek {
  import opened Wrappers

  type Kek = nat
  type Uid = nat
  type Tenant = nat
  type TagKey = nat

  /** A stored aes_key_ref: what some `Wrap` sealed, or bytes none did. */
  datatype Ref = Sealed(kek: Kek, uid: Uid, key: TagKey, nonce: nat) | Junk(bytes: seq<bv8>)

  const WRAPPED_KEY_LEN := 44

  function Len(ref: Ref): nat { if ref.Sealed? then WRAPPED_KEY_LEN else |ref.bytes| }

  /** Nonce, key and tag. */
  lemma SealedLength(ref: Ref)
    requires ref.Sealed?
    ensures Len(ref) == 12 + 16 + 16
  {
  }

  function Unwrap(kek: Kek, uid: Uid, ref: Ref): Option<TagKey> {
    if ref.Sealed? && ref.kek == kek && ref.uid == uid then Some(ref.key) else None
  }

  /** The first key that opens it. */
  method UnwrapAny(keks: seq<Kek>, uid: Uid, ref: Ref) returns (key: Option<TagKey>)
    ensures key == if Opens(keks, uid, ref) then Some(ref.key) else None
  {
    for i := 0 to |keks|
      invariant !Opens(keks[..i], uid, ref)
    {
      assert keks[..i + 1] == keks[..i] + [keks[i]];
      key := Unwrap(keks[i], uid, ref);
      if key.Some? { return; }
    }
    assert keks[..|keks|] == keks;
    key := None;
  }

  predicate Opens(keks: seq<Kek>, uid: Uid, ref: Ref) { ref.Sealed? && ref.uid == uid && ref.kek in keks }

  datatype Tag = Tag(tenant: Tenant, ref: Ref)

  type Park = map<Uid, Tag>

  /** A row as read, and the reference it is to get. */
  datatype Row = Row(uid: Uid, tenant: Tenant, oldRef: Ref, newRef: Option<Ref>)

  // ------------------------------------------------------------------ reading

  /** A line of the COPY: its fields in shape, or not. */
  datatype Line = Fields(uid: Uid, tenant: Tenant, ref: Ref) | Malformed

  function RowOf(l: Line): Row
    requires l.Fields?
  {
    Row(l.uid, l.tenant, l.ref, None)
  }

  predicate CleanRead(lines: seq<Line>) {
    && (forall i :: 0 <= i < |lines| ==> lines[i].Fields?)
    && (forall i, j :: 0 <= i < j < |lines| ==> lines[i].uid != lines[j].uid)
  }

  /** The whole stream or nothing: a stream that broke, a line out of shape and a uid seen before are each
      refused. */
  method ReadRows(lines: seq<Line>, broke: bool) returns (rows: Option<seq<Row>>)
    ensures rows.Some? <==> !broke && CleanRead(lines)
    ensures rows.Some? ==>
              && |rows.value| == |lines|
              && forall i :: 0 <= i < |lines| ==> rows.value[i] == Row(lines[i].uid, lines[i].tenant, lines[i].ref, None)
  {
    var read: seq<Row> := [];
    var seen: map<Uid, nat> := map[];
    for i := 0 to |lines|
      invariant |read| == i && CleanRead(lines[..i])
      invariant forall k :: 0 <= k < i ==> lines[k].Fields? && read[k] == RowOf(lines[k])
      invariant forall u :: u in seen <==> exists k :: 0 <= k < i && lines[k].Fields? && lines[k].uid == u
    {
      if lines[i].Malformed? { return None; }
      if lines[i].uid in seen { return None; }
      seen := seen[lines[i].uid := i + 1];
      read := read + [RowOf(lines[i])];
    }
    assert lines[..|lines|] == lines;
    if broke { return None; }
    rows := Some(read);
  }

  // -------------------------------------------------------------- classifying

  datatype Kind = Already | Rewrapped | Unopenable

  /** The new key is tried first. */
  function KindOf(r: Row, newKek: Kek, oldKek: Kek): Kind {
    if Unwrap(newKek, r.uid, r.oldRef).Some? then Already
    else if Unwrap(oldKek, r.uid, r.oldRef).Some? then Rewrapped
    else Unopenable
  }

  datatype Tally = Tally(read: nat, rewrapped: nat, already: nat, unopenable: nat,
                         unopenableByTenant: map<Tenant, nat>, unopenableByLen: map<nat, nat>)

  function Count(rows: seq<Row>, newKek: Kek, oldKek: Kek, kind: Kind): nat {
    if rows == [] then 0
    else Count(rows[..|rows| - 1], newKek, oldKek, kind) + if KindOf(rows[|rows| - 1], newKek, oldKek) == kind then 1 else 0
  }

  /** The unopenable rows of one tenant, and of one length. */
  function UnopenableOf(rows: seq<Row>, newKek: Kek, oldKek: Kek, tenant: Tenant): nat {
    if rows == [] then 0
    else
      var r := rows[|rows| - 1];
      UnopenableOf(rows[..|rows| - 1], newKek, oldKek, tenant)
        + if KindOf(r, newKek, oldKek).Unopenable? && r.tenant == tenant then 1 else 0
  }

  function UnopenableOfLen(rows: seq<Row>, newKek: Kek, oldKek: Kek, len: nat): nat {
    if rows == [] then 0
    else
      var r := rows[|rows| - 1];
      UnopenableOfLen(rows[..|rows| - 1], newKek, oldKek, len)
        + if KindOf(r, newKek, oldKek).Unopenable? && Len(r.oldRef) == len then 1 else 0
  }

  function At(m: map<nat, nat>, k: nat): nat { if k in m then m[k] else 0 }

  ghost function Total(m: map<nat, nat>): nat
    decreases m.Keys
  {
    if m.Keys == {} then 0
    else
      var k :| k in m.Keys;
      m[k] + Total(m - {k})
  }

  function Bump(m: map<nat, nat>, k: nat): map<nat, nat> { m[k := At(m, k) + 1] }

  lemma {:induction false} TotalFrom(m: map<nat, nat>, k: nat)
    requires k in m
    ensures Total(m) == m[k] + Total(m - {k})
    decreases m.Keys
  {
    var j :| j in m.Keys && Total(m) == m[j] + Total(m - {j});
    if j != k {
      TotalFrom(m - {j}, k);
      TotalFrom(m - {k}, j);
      assert m - {j} - {k} == m - {k} - {j};
    }
  }

  lemma BumpAddsOne(m: map<nat, nat>, k: nat)
    ensures Total(Bump(m, k)) == Total(m) + 1
    ensures forall j :: At(Bump(m, k), j) == At(m, j) + if j == k then 1 else 0
  {
    TotalFrom(Bump(m, k), k);
    if k in m {
      TotalFrom(m, k);
      assert Bump(m, k) - {k} == m - {k};
    } else {
      assert Bump(m, k) - {k} == m;
    }
  }

  /** Read = re-sealed + already + unopenable, and both breakdowns are of the unopenable. */
  ghost predicate Conserves(t: Tally) {
    && t.read == t.rewrapped + t.already + t.unopenable
    && Total(t.unopenableByTenant) == t.unopenable && Total(t.unopenableByLen) == t.unopenable
  }

  lemma TallyConserves(t: Tally)
    requires t.read == t.rewrapped + t.already + t.unopenable
    requires Total(t.unopenableByTenant) == t.unopenable && Total(t.unopenableByLen) == t.unopenable
    ensures Conserves(t)
  {
  }

  lemma NothingCounted(newKek: Kek, oldKek: Kek)
    ensures forall k :: Count([], newKek, oldKek, k) == 0
    ensures forall t :: UnopenableOf([], newKek, oldKek, t) == 0
    ensures forall n :: UnopenableOfLen([], newKek, oldKek, n) == 0
    ensures Total(map[]) == 0 && forall k :: At(map[], k) == 0
  {
  }

  lemma OneMore(rows: seq<Row>, i: nat, newKek: Kek, oldKek: Kek)
    requires i < |rows|
    ensures forall k :: Count(rows[..i + 1], newKek, oldKek, k) ==
                        Count(rows[..i], newKek, oldKek, k) + if KindOf(rows[i], newKek, oldKek) == k then 1 else 0
    ensures forall t :: UnopenableOf(rows[..i + 1], newKek, oldKek, t) ==
                        UnopenableOf(rows[..i], newKek, oldKek, t)
                        + if KindOf(rows[i], newKek, oldKek).Unopenable? && rows[i].tenant == t then 1 else 0
    ensures forall n :: UnopenableOfLen(rows[..i + 1], newKek, oldKek, n) ==
                        UnopenableOfLen(rows[..i], newKek, oldKek, n)
                        + if KindOf(rows[i], newKek, oldKek).Unopenable? && Len(rows[i].oldRef) == n then 1 else 0
  {
    assert rows[..i + 1][..i] == rows[..i];
  }

  /** A row's new reference: set exactly when the row is to be re-sealed, and then the same key of the same
      tag under the new key. */
  predicate Planned(r: Row, was: Row, newKek: Kek, oldKek: Kek) {
    && r == was.(newRef := r.newRef)
    && (r.newRef.Some? <==> KindOf(was, newKek, oldKek) == Rewrapped)
    && (r.newRef.Some? ==> Unwrap(newKek, r.uid, r.newRef.value) == Unwrap(oldKek, r.uid, r.oldRef) != None)
  }

  /** What the two unwraps of a row decide. */
  lemma PlannedByKind(r: Row, newKek: Kek, oldKek: Kek)
    requires r.newRef.None?
    ensures Unwrap(newKek, r.uid, r.oldRef).Some? ==> KindOf(r, newKek, oldKek) == Already && Planned(r, r, newKek, oldKek)
    ensures Unwrap(newKek, r.uid, r.oldRef).None? && Unwrap(oldKek, r.uid, r.oldRef).None? ==>
              KindOf(r, newKek, oldKek) == Unopenable && Planned(r, r, newKek, oldKek)
    ensures Unwrap(newKek, r.uid, r.oldRef).None? && Unwrap(oldKek, r.uid, r.oldRef).Some? ==>
              KindOf(r, newKek, oldKek) == Rewrapped
  {
  }

  lemma PlannedOnceSealed(r: Row, newKek: Kek, oldKek: Kek, key: TagKey, nonce: nat)
    requires KindOf(r, newKek, oldKek) == Rewrapped && Unwrap(oldKek, r.uid, r.oldRef) == Some(key)
    ensures Planned(r.(newRef := Some(Sealed(newKek, r.uid, key, nonce))), r, newKek, oldKek)
  {
  }

  /** None: re-sealing a row failed, which it does not if there is `randomness`. */
  method Classify(rows: array<Row>, newKek: Kek, oldKek: Kek, randomness: bool) returns (t: Option<Tally>)
    requires forall i :: 0 <= i < rows.Length ==> rows[i].newRef.None?
    modifies rows
    ensures randomness ==> t.Some?
    ensures t.Some? ==> forall i :: 0 <= i < rows.Length ==> Planned(rows[i], old(rows[i]), newKek, oldKek)
    ensures t.Some? ==> Conserves(t.value) && t.value.read == rows.Length
    ensures t.Some? ==>
              && t.value.rewrapped == Count(old(rows[..]), newKek, oldKek, Rewrapped)
              && t.value.already == Count(old(rows[..]), newKek, oldKek, Already)
              && t.value.unopenable == Count(old(rows[..]), newKek, oldKek, Unopenable)
    ensures t.Some? ==> forall k :: At(t.value.unopenableByTenant, k) == UnopenableOf(old(rows[..]), newKek, oldKek, k)
    ensures t.Some? ==> forall n :: At(t.value.unopenableByLen, n) == UnopenableOfLen(old(rows[..]), newKek, oldKek, n)
  {
    hide Total, Count, UnopenableOf, UnopenableOfLen, Conserves, Bump, At, Planned, KindOf, Unwrap;
    ghost var was := rows[..];
    var already, unopenable, rewrapped := 0, 0, 0;
    var byTenant: map<Tenant, nat>, byLen: map<nat, nat> := map[], map[];
    NothingCounted(newKek, oldKek);
    assert was[..0] == [];
    for i := 0 to rows.Length
      invariant forall k :: 0 <= k < i ==> Planned(rows[k], was[k], newKek, oldKek)
      invariant forall k :: i <= k < rows.Length ==> rows[k] == was[k]
      invariant already == Count(was[..i], newKek, oldKek, Already)
      invariant unopenable == Count(was[..i], newKek, oldKek, Unopenable)
      invariant rewrapped == Count(was[..i], newKek, oldKek, Rewrapped)
      invariant already + unopenable + rewrapped == i
      invariant Total(byTenant) == unopenable && Total(byLen) == unopenable
      invariant forall k :: At(byTenant, k) == UnopenableOf(was[..i], newKek, oldKek, k)
      invariant forall n :: At(byLen, n) == UnopenableOfLen(was[..i], newKek, oldKek, n)
    {
      OneMore(was, i, newKek, oldKek);
      var r := rows[i];
      PlannedByKind(r, newKek, oldKek);
      if Unwrap(newKek, r.uid, r.oldRef).Some? {
        already := already + 1;
        continue;
      }
      var plain := Unwrap(oldKek, r.uid, r.oldRef);
      if plain.None? {
        BumpAddsOne(byTenant, r.tenant);
        BumpAddsOne(byLen, Len(r.oldRef));
        unopenable, byTenant, byLen := unopenable + 1, Bump(byTenant, r.tenant), Bump(byLen, Len(r.oldRef));
        continue;
      }
      var nonce: nat, sealed: bool := 0, *;
      nonce := *;
      if !sealed && !randomness { return None; }
      PlannedOnceSealed(r, newKek, oldKek, plain.value, nonce);
      rows[i] := r.(newRef := Some(Sealed(newKek, r.uid, plain.value, nonce)));
      rewrapped := rewrapped + 1;
    }
    assert was[..rows.Length] == was;
    var tally := Tally(rows.Length, rewrapped, already, unopenable, byTenant, byLen);
    TallyConserves(tally);
    t := Some(tally);
  }

  // ----------------------------------------------------------- the transaction

  /** What the emitted script carries: how many rows were read, and the rows to re-seal. */
  datatype Plan = Plan(read: nat, rows: seq<Row>)

  function PlanOf(rows: seq<Row>): Plan { Plan(|rows|, ToReseal(rows)) }

  function ToReseal(rows: seq<Row>): (r: seq<Row>)
    ensures |r| <= |rows|
    ensures forall x :: x in r <==> x in rows && x.newRef.Some?
  {
    if rows == [] then []
    else ToReseal(rows[..|rows| - 1]) + if rows[|rows| - 1].newRef.Some? then [rows[|rows| - 1]] else []
  }

  predicate Distinct(rows: seq<Row>) { forall i, j :: 0 <= i < j < |rows| ==> rows[i].uid != rows[j].uid }

  /** The tag is as it was read. */
  predicate Unchanged(park: Park, r: Row) {
    r.uid in park && park[r.uid] == Tag(r.tenant, r.oldRef)
  }

  predicate AllUnchanged(park: Park, rows: seq<Row>) { forall r :: r in rows ==> Unchanged(park, r) }

  /** The UPDATE joined to the planned rows, and how many rows it matched. */
  function Update(park: Park, rows: seq<Row>): (Park, nat)
    requires forall r :: r in rows ==> r.newRef.Some?
  {
    if rows == [] then (park, 0)
    else
      var last := rows[|rows| - 1];
      var (before, n) := Update(park, rows[..|rows| - 1]);
      if Unchanged(park, last) then (before[last.uid := Tag(last.tenant, last.newRef.value)], n + 1) else (before, n)
  }

  datatype Verdict = Committed(park: Park) | Aborted

  /** `guarded`: the tags when the guard counted them; `park`: the tags when the UPDATE ran. `unscoped`: no
      app.tenant_id; `seesAll`: a role row security does not filter. */
  function Apply(guarded: Park, park: Park, p: Plan, unscoped: bool, seesAll: bool): Verdict
    requires forall r :: r in p.rows ==> r.newRef.Some?
  {
    if !unscoped || !seesAll || |guarded| != p.read then Aborted
    else if p.rows == [] then Committed(park)
    else
      var (after, applied) := Update(park, p.rows);
      if applied != |p.rows| then Aborted else Committed(after)
  }

  function Resealed(r: Row): Tag
    requires r.newRef.Some?
  {
    Tag(r.tenant, r.newRef.value)
  }

  lemma {:induction false} UpdateMatches(park: Park, rows: seq<Row>)
    requires Distinct(rows) && forall r :: r in rows ==> r.newRef.Some?
    ensures Update(park, rows).1 <= |rows|
    ensures Update(park, rows).1 == |rows| <==> AllUnchanged(park, rows)
    ensures Update(park, rows).0.Keys == park.Keys
    ensures forall r :: r in rows && Unchanged(park, r) ==> Update(park, rows).0[r.uid] == Resealed(r)
    ensures forall u :: u in park && (forall r :: r in rows ==> r.uid != u) ==> Update(park, rows).0[u] == park[u]
  {
    if rows != [] {
      var head, last := rows[..|rows| - 1], rows[|rows| - 1];
      HeadAndLast(rows);
      UpdateMatches(park, head);
      var (before, n) := Update(park, head);
      assert Update(park, rows) ==
        if Unchanged(park, last) then (before[last.uid := Resealed(last)], n + 1) else (before, n);
      hide Update, Unchanged, Distinct, Resealed;
    }
  }

  lemma HeadAndLast(rows: seq<Row>)
    requires rows != [] && Distinct(rows)
    ensures var head, last := rows[..|rows| - 1], rows[|rows| - 1];
            && Distinct(head) && (forall r :: r in rows <==> r in head || r == last)
            && (forall r :: r in head ==> r.uid != last.uid)
  {
    assert rows == rows[..|rows| - 1] + [rows[|rows| - 1]];
  }

  /** All or nothing: the rotation commits exactly when the park has as many tags as were read and every
      planned tag is the tenant's and has the reference it was read with; then those tags carry the new
      reference, still the tenant's, and no other tag moved. */
  lemma AllOrNothing(guarded: Park, park: Park, p: Plan, unscoped: bool, seesAll: bool)
    requires Distinct(p.rows) && forall r :: r in p.rows ==> r.newRef.Some?
    ensures var v := Apply(guarded, park, p, unscoped, seesAll);
            && (v.Committed? <==>
                  && unscoped && seesAll && |guarded| == p.read
                  && forall r :: r in p.rows ==> r.uid in park && park[r.uid].tenant == r.tenant && park[r.uid].ref == r.oldRef)
            && (v.Committed? ==> v.park.Keys == park.Keys
                                 && (forall r :: r in p.rows ==> v.park[r.uid] == Tag(park[r.uid].tenant, r.newRef.value))
                                 && (forall u :: u in park && (forall r :: r in p.rows ==> r.uid != u) ==> v.park[u] == park[u]))
  {
    UpdateMatches(park, p.rows);
    hide Update;
  }

  // -------------------------------------------------- readers while it happens

  /** `rows` is what `Classify` made of a clean read. */
  ghost predicate Classified(rows: seq<Row>, newKek: Kek, oldKek: Kek) {
    && Distinct(rows)
    && forall r :: r in rows ==> Planned(r, r.(newRef := None), newKek, oldKek)
  }

  /** A reader that holds the keys opens the tag, to this key. */
  predicate Reads(keks: seq<Kek>, park: Park, u: Uid, key: TagKey) {
    u in park && Opens(keks, u, park[u].ref) && park[u].ref.key == key
  }

  lemma ToResealDistinct(rows: seq<Row>)
    requires Distinct(rows)
    ensures Distinct(ToReseal(rows))
  {
    if rows != [] {
      var head := rows[..|rows| - 1];
      ToResealDistinct(head);
      forall i | 0 <= i < |ToReseal(head)|
        ensures ToReseal(head)[i].uid != rows[|rows| - 1].uid
      {
        assert ToReseal(head)[i] in head;
      }
    }
  }

  /** Keys are preserved: a reader holding both keys reads every tag it read before, to the same key,
      whether the rotation committed or not. */
  lemma BothKeysReadThroughout(guarded: Park, park: Park, rows: seq<Row>, newKek: Kek, oldKek: Kek,
                               unscoped: bool, seesAll: bool, u: Uid, key: TagKey)
    requires Classified(rows, newKek, oldKek)
    requires Apply(guarded, park, PlanOf(rows), unscoped, seesAll).Committed?
    ensures var after := Apply(guarded, park, PlanOf(rows), unscoped, seesAll).park;
            && (Reads([newKek, oldKek], park, u, key) <==> Reads([newKek, oldKek], after, u, key))
            && (Reads([newKek], park, u, key) ==> Reads([newKek], after, u, key))
            && (Reads([oldKek], after, u, key) ==> Reads([oldKek], park, u, key))
  {
    ToResealDistinct(rows);
    AllOrNothing(guarded, park, PlanOf(rows), unscoped, seesAll);
    var planned := ToReseal(rows);
    if r :| r in planned && r.uid == u {
      assert Planned(r, r.(newRef := None), newKek, oldKek);
      assert Unchanged(park, r);
    }
  }

  /** The tags the rotation does not re-seal. */
  predicate LeftAlone(rows: seq<Row>, u: Uid) { forall r :: r in rows && r.newRef.Some? ==> r.uid != u }

  /** Dropping the old key, exactly: after the commit a tag still needs it if and only if the rotation left it
      alone and the old key opens it. */
  lemma WhatStillNeedsTheOldKey(guarded: Park, park: Park, rows: seq<Row>, newKek: Kek, oldKek: Kek,
                                unscoped: bool, seesAll: bool, u: Uid, key: TagKey)
    requires newKek != oldKek && Classified(rows, newKek, oldKek)
    requires Apply(guarded, park, PlanOf(rows), unscoped, seesAll).Committed?
    ensures Reads([oldKek], Apply(guarded, park, PlanOf(rows), unscoped, seesAll).park, u, key)
            <==> Reads([oldKek], park, u, key) && LeftAlone(rows, u)
  {
    hide Apply, Update, ToReseal, Distinct;
    ToResealDistinct(rows);
    AllOrNothing(guarded, park, PlanOf(rows), unscoped, seesAll);
    var planned := ToReseal(rows);
    if r :| r in planned && r.uid == u {
      assert Planned(r, r.(newRef := None), newKek, oldKek);
      assert !LeftAlone(rows, u);
    }
  }

  // ------------------------------------------------------------ the row count

  ghost function UidsOf(rows: seq<Row>): set<Uid> { set r | r in rows :: r.uid }

  lemma {:induction false} UidsCount(rows: seq<Row>)
    requires Distinct(rows)
    ensures |UidsOf(rows)| == |rows|
  {
    if rows == [] {
      assert UidsOf(rows) == {};
    } else {
      var head, last := rows[..|rows| - 1], rows[|rows| - 1];
      HeadAndLast(rows);
      UidsCount(head);
      assert UidsOf(rows) == UidsOf(head) + {last.uid};
      assert last.uid !in UidsOf(head);
    }
  }

  lemma SameSize(a: set<Uid>, b: set<Uid>)
    requires a <= b && |a| == |b|
    ensures a == b
  {
    assert b == a + (b - a);
  }

  /** The read covers the park: every tag was read as it is. */
  ghost predicate Covers(rows: seq<Row>, park: Park) {
    forall u :: u in park ==> exists r :: r in rows && r.uid == u && Unchanged(park, r)
  }

  /** The rows are tags of the park as they were: all of them, or those a filtered role could see. */
  ghost predicate ReadFrom(rows: seq<Row>, was: Park) { forall r :: r in rows ==> Unchanged(was, r) }

  /** What the application's roles leave of the table: no tag goes and no key changes; tags may come. */
  ghost predicate Persists(was: Park, now: Park) { forall u :: u in was ==> u in now && now[u] == was[u] }

  /** What the guard's row count decides: that every tag was read, if and only if none that was read is gone. */
  lemma TheCountDecides(guarded: Park, rows: seq<Row>)
    requires Distinct(rows) && |guarded| == |rows|
    ensures guarded.Keys == UidsOf(rows) <==> forall r :: r in rows ==> r.uid in guarded
  {
    UidsCount(rows);
    assert |guarded.Keys| == |guarded|;
    if forall r :: r in rows ==> r.uid in guarded {
      SameSize(UidsOf(rows), guarded.Keys);
    }
  }

  /** For any mix of rows already done, re-sealed and unopenable: if the rotation commits, its read covered
      the park its guard counted, whoever made the read. */
  lemma CommittedMeansCovered(was: Park, guarded: Park, park: Park, rows: seq<Row>, newKek: Kek, oldKek: Kek,
                              unscoped: bool, seesAll: bool)
    requires Classified(rows, newKek, oldKek) && ReadFrom(rows, was) && Persists(was, guarded)
    requires Apply(guarded, park, PlanOf(rows), unscoped, seesAll).Committed?
    ensures Covers(rows, guarded) && guarded == was
  {
    hide *;
    CommittedCounts(guarded, park, rows, unscoped, seesAll);
    ReadRemains(was, guarded, rows);
    DistinctRows(rows, newKek, oldKek);
    TheCountDecides(guarded, rows);
    AllRead(was, guarded, rows);
  }

  lemma CommittedCounts(guarded: Park, park: Park, rows: seq<Row>, unscoped: bool, seesAll: bool)
    requires Apply(guarded, park, PlanOf(rows), unscoped, seesAll).Committed?
    ensures |guarded| == |rows|
  {
    hide Update, ToReseal;
  }

  lemma DistinctRows(rows: seq<Row>, newKek: Kek, oldKek: Kek)
    requires Classified(rows, newKek, oldKek)
    ensures Distinct(rows)
  {
    hide Planned;
  }

  lemma ReadRemains(was: Park, guarded: Park, rows: seq<Row>)
    requires ReadFrom(rows, was) && Persists(was, guarded)
    ensures forall r :: r in rows ==> r.uid in guarded && Unchanged(guarded, r) && Unchanged(was, r)
  {
  }

  lemma AllRead(was: Park, guarded: Park, rows: seq<Row>)
    requires guarded.Keys == UidsOf(rows) && Persists(was, guarded)
    requires forall r :: r in rows ==> r.uid in guarded && Unchanged(guarded, r) && Unchanged(was, r)
    ensures Covers(rows, guarded) && guarded == was
  {
    forall u | u in guarded
      ensures u in was && exists r :: r in rows && r.uid == u && Unchanged(guarded, r)
    {
      assert u in UidsOf(rows);
      var r :| r in rows && r.uid == u;
      assert Unchanged(guarded, r) && Unchanged(was, r);
    }
  }

  /** Dropping the old key, after any rotation that committed: the only tags that still need it are those that
      came under it after the guard counted. */
  lemma OldKeyAfterwards(was: Park, guarded: Park, park: Park, rows: seq<Row>, newKek: Kek, oldKek: Kek,
                         unscoped: bool, seesAll: bool, u: Uid, key: TagKey)
    requires newKek != oldKek && Classified(rows, newKek, oldKek)
    requires ReadFrom(rows, was) && Persists(was, guarded) && Persists(guarded, park)
    requires Apply(guarded, park, PlanOf(rows), unscoped, seesAll).Committed?
    ensures Reads([oldKek], Apply(guarded, park, PlanOf(rows), unscoped, seesAll).park, u, key)
            <==> u !in guarded && Reads([oldKek], park, u, key)
  {
    CommittedMeansCovered(was, guarded, park, rows, newKek, oldKek, unscoped, seesAll);
    WhatStillNeedsTheOldKey(guarded, park, rows, newKek, oldKek, unscoped, seesAll, u, key);
    hide Apply, PlanOf;
    if u in guarded {
      var r :| r in rows && r.uid == u && Unchanged(guarded, r);
      assert Planned(r, r.(newRef := None), newKek, oldKek);
      assert Reads([oldKek], park, u, key) ==> !LeftAlone(rows, u);
    } else {
      assert forall r :: r in rows ==> r.uid in was;
    }
  }

  /** And the new key alone reads every tag the guard counted that either key opened. */
  lemma NewKeyAloneSuffices(was: Park, guarded: Park, park: Park, rows: seq<Row>, newKek: Kek, oldKek: Kek,
                            unscoped: bool, seesAll: bool, u: Uid, key: TagKey)
    requires newKek != oldKek && Classified(rows, newKek, oldKek)
    requires ReadFrom(rows, was) && Persists(was, guarded) && Persists(guarded, park)
    requires Apply(guarded, park, PlanOf(rows), unscoped, seesAll).Committed?
    ensures var after := Apply(guarded, park, PlanOf(rows), unscoped, seesAll).park;
            u in guarded ==> (Reads([newKek, oldKek], park, u, key) <==> Reads([newKek], after, u, key))
  {
    BothKeysReadThroughout(guarded, park, rows, newKek, oldKek, unscoped, seesAll, u, key);
    OldKeyAfterwards(was, guarded, park, rows, newKek, oldKek, unscoped, seesAll, u, key);
    hide Apply, PlanOf;
  }

  /** A second run re-seals exactly the tags that came under the old key after the first one's guard: none, if
      none came. Whatever the first found done, re-sealed or could not open. */
  lemma SecondRunIsIdle(was: Park, guarded: Park, park: Park, rows: seq<Row>, newKek: Kek, oldKek: Kek,
                        unscoped: bool, seesAll: bool, again: Row)
    requires newKek != oldKek && Classified(rows, newKek, oldKek)
    requires ReadFrom(rows, was) && Persists(was, guarded) && Persists(guarded, park)
    requires Apply(guarded, park, PlanOf(rows), unscoped, seesAll).Committed?
    requires Unchanged(Apply(guarded, park, PlanOf(rows), unscoped, seesAll).park, again)
    ensures KindOf(again, newKek, oldKek) == Rewrapped
            <==> again.uid !in guarded && again.oldRef.Sealed? && Reads([oldKek], park, again.uid, again.oldRef.key)
  {
    var after := Apply(guarded, park, PlanOf(rows), unscoped, seesAll).park;
    if again.oldRef.Sealed? {
      OldKeyAfterwards(was, guarded, park, rows, newKek, oldKek, unscoped, seesAll, again.uid, again.oldRef.key);
      hide Apply, PlanOf;
      assert KindOf(again, newKek, oldKek) == Rewrapped <==> Reads([oldKek], after, again.uid, again.oldRef.key);
    }
  }

  lemma ToResealStep(rows: seq<Row>)
    requires rows != []
    ensures var head, last := rows[..|rows| - 1], rows[|rows| - 1];
            ToReseal(rows) == ToReseal(head) + if last.newRef.Some? then [last] else []
  {
  }

  lemma {:induction false} AllToReseal(rows: seq<Row>)
    requires forall r :: r in rows ==> r.newRef.Some?
    ensures ToReseal(rows) == rows
  {
    if rows != [] {
      var head, last := rows[..|rows| - 1], rows[|rows| - 1];
      ToResealStep(rows);
      hide ToReseal;
      assert rows == head + [last];
      AllToReseal(head);
    }
  }

  /** Where every row read is to be re-sealed the transaction itself checks that none is gone: nothing need be
      known of what happened to the table since the read. */
  lemma AFirstRotationCovers(park: Park, rows: seq<Row>, unscoped: bool, seesAll: bool)
    requires Distinct(rows) && rows != [] && forall r :: r in rows ==> r.newRef.Some?
    requires Apply(park, park, PlanOf(rows), unscoped, seesAll).Committed?
    ensures Covers(rows, park)
  {
    AllToReseal(rows);
    AllOrNothing(park, park, PlanOf(rows), unscoped, seesAll);
    assert forall r :: r in rows ==> Unchanged(park, r);
    TheCountDecides(park, rows);
    forall u | u in park
      ensures exists r :: r in rows && r.uid == u && Unchanged(park, r)
    {
      assert u in UidsOf(rows);
      var r :| r in rows && r.uid == u;
      assert Unchanged(park, r);
    }
  }

  // Tag 0 was done already and tag 1 is due; between the read and the write 0 goes and 2 comes, under key 0.
  // No role of the application may remove a tag: it takes the table's owner, by hand.
  const DONE := Row(0, 0, Sealed(1, 0, 10, 0), None)
  const DUE := Row(1, 0, Sealed(0, 1, 11, 0), Some(Sealed(1, 1, 11, 1)))
  const SWAPPED: Park := map[1 := Tag(0, Sealed(0, 1, 11, 0)), 2 := Tag(0, Sealed(0, 2, 12, 0))]

  lemma DoneAndDue()
    ensures Classified([DONE, DUE], 1, 0) && LeftAlone([DONE, DUE], 2) && PlanOf([DONE, DUE]) == Plan(2, [DUE])
    ensures forall r :: r in [DONE, DUE] ==> KindOf(r, 1, 0) != Unopenable
  {
    var rows := [DONE, DUE];
    assert rows[..1] == [DONE] && [DONE][..0] == [];
    assert ToReseal([DONE]) == [];
  }

  lemma SwappedPark()
    ensures |SWAPPED| == 2 && Reads([0], SWAPPED, 2, 12)
    ensures forall r :: r in [DUE] ==> r.uid in SWAPPED && SWAPPED[r.uid].tenant == r.tenant && SWAPPED[r.uid].ref == r.oldRef
    ensures Distinct([DUE]) && forall r :: r in [DUE] ==> r.newRef.Some?
  {
    assert SWAPPED.Keys == {1, 2};
  }

  /** With a removal the count is not coverage: a tag already done goes and another comes under the old key.
      Nothing read was unopenable, the transaction commits, and the old key is needed. */
  lemma TheCountIsNotCoverage()
    ensures Classified([DONE, DUE], 1, 0) && forall r :: r in [DONE, DUE] ==> KindOf(r, 1, 0) != Unopenable
    ensures var v := Apply(SWAPPED, SWAPPED, PlanOf([DONE, DUE]), true, true);
            v.Committed? && Reads([0], v.park, 2, 12)
  {
    hide *;
    DoneAndDue();
    SwappedPark();
    AllOrNothing(SWAPPED, SWAPPED, Plan(2, [DUE]), true, true);
    WhatStillNeedsTheOldKey(SWAPPED, SWAPPED, [DONE, DUE], 1, 0, true, true, 2, 12);
  }

  // ---------------------------------------------------------------- one run

  datatype Ack = Unset | Exactly(n: nat) | Unreadable

  const EXIT_REFUSED := 1
  const EXIT_INCOMPLETE := 3

  function AsRead(lines: seq<Line>): seq<Row>
    requires CleanRead(lines)
  {
    seq(|lines|, i requires 0 <= i < |lines| => RowOf(lines[i]))
  }

  /** A script is written only for a whole, clean, non-empty read under two different keys, and only if every
      row opens or exactly as many as do not were accepted; 0 means that every row read is accounted for.
      `works`: there is randomness to seal with and the script can be written. */
  method Run(newKek: Option<Kek>, oldKek: Option<Kek>, lines: seq<Line>, broke: bool, ack: Ack, works: bool)
      returns (code: int, plan: Option<Plan>, ghost rows: seq<Row>)
    ensures code == 0 || code == 1 || code == 3
    ensures plan.Some? <==> code != 1
    ensures plan.Some? ==> newKek.Some? && oldKek.Some? && newKek != oldKek && !broke && CleanRead(lines) && lines != []
    ensures plan.Some? ==>
              && |rows| == |lines| && plan.value == PlanOf(rows) && Classified(rows, newKek.value, oldKek.value)
              && forall i :: 0 <= i < |lines| ==>
                   && Planned(rows[i], RowOf(lines[i]), newKek.value, oldKek.value)
                   && rows[i].uid == lines[i].uid && rows[i].tenant == lines[i].tenant && rows[i].oldRef == lines[i].ref
    ensures works && newKek.Some? && oldKek.Some? && newKek != oldKek && !broke && CleanRead(lines) && lines != [] ==>
              var closed := Count(AsRead(lines), newKek.value, oldKek.value, Unopenable);
              plan.Some? <==> ack == Exactly(closed) || (closed == 0 && !ack.Unreadable?)
    ensures plan.Some? ==>
              var closed := Count(AsRead(lines), newKek.value, oldKek.value, Unopenable);
              && (code == 0 <==> closed == 0) && (closed > 0 ==> ack == Exactly(closed))
  {
    code, plan, rows := EXIT_REFUSED, None, [];
    if newKek.None? || oldKek.None? || newKek == oldKek { return; }
    var read := ReadRows(lines, broke);
    if read.None? || |read.value| == 0 { return; }
    var table := new Row[|read.value|](i requires 0 <= i < |read.value| => read.value[i]);
    assert table[..] == AsRead(lines);
    var t := Classify(table, newKek.value, oldKek.value, works);
    if t.None? || ack.Unreadable? { return; }
    if t.value.unopenable > 0 && ack != Exactly(t.value.unopenable) { return; }
    var written: bool := *;
    if !written && !works { return; }
    rows := table[..];
    plan := Some(PlanOf(table[..]));
    ClassifiedRows(lines, rows, newKek.value, oldKek.value);
    code := if t.value.unopenable > 0 then EXIT_INCOMPLETE else 0;
  }

  lemma ClassifiedRows(lines: seq<Line>, rows: seq<Row>, newKek: Kek, oldKek: Kek)
    requires CleanRead(lines) && |rows| == |lines|
    requires forall i :: 0 <= i < |lines| ==> Planned(rows[i], RowOf(lines[i]), newKek, oldKek)
    ensures Classified(rows, newKek, oldKek)
  {
    assert forall i :: 0 <= i < |lines| ==> rows[i].uid == lines[i].uid && rows[i].(newRef := None) == RowOf(lines[i]);
  }
}
