/** The rows an address resolves to, and the window both a sign-in and a recovery request look at
    (internal/adminauth/manager.go, resetrequest.go).
 */
module Candidates {

  type RowId = nat
  type Digest = nat

  /** `linked`: to an identity. */
  datatype Candidate = Candidate(row: RowId, digest: Digest, active: bool, linked: bool)

  datatype Listed = Rows(rows: seq<Candidate>) | RowsError

  const MAX_CANDIDATES := 8

  function Window(rows: seq<Candidate>): seq<Candidate> {
    if |rows| > MAX_CANDIDATES then rows[..MAX_CANDIDATES] else rows
  }

  /** The first eight, in order, or all of them. */
  lemma WindowIsPrefix(rows: seq<Candidate>)
    ensures Window(rows) <= rows && |Window(rows)| == if |rows| < 8 then |rows| else 8
  {
  }

  /** The rows without an identity of their own. */
  function Unlinked(rows: seq<Candidate>): seq<Candidate> {
    if rows == [] then []
    else if rows[0].linked then Unlinked(rows[1..])
    else [rows[0]] + Unlinked(rows[1..])
  }

  lemma {:induction false} UnlinkedMembers(rows: seq<Candidate>, c: Candidate)
    ensures c in Unlinked(rows) <==> c in rows && !c.linked
  {
    if rows != [] {
      UnlinkedMembers(rows[1..], c);
      assert rows == [rows[0]] + rows[1..];
    }
  }

  lemma UnlinkedStep(c: Candidate, rows: seq<Candidate>)
    ensures Unlinked([c] + rows) == (if c.linked then [] else [c]) + Unlinked(rows)
  {
    assert ([c] + rows)[1..] == rows;
  }

  lemma {:induction false} UnlinkedSplits(a: seq<Candidate>, b: seq<Candidate>)
    ensures Unlinked(a + b) == Unlinked(a) + Unlinked(b)
  {
    hide Unlinked;
    if a == [] {
      UnlinkedOfNone();
      assert a + b == b;
    } else {
      var c, rest := a[0], a[1..];
      UnlinkedSplits(rest, b);
      UnlinkedStep(c, rest + b);
      UnlinkedStep(c, rest);
      assert a == [c] + rest && a + b == [c] + (rest + b);
    }
  }

  lemma UnlinkedOfNone()
    ensures Unlinked([]) == []
  {
  }

  lemma {:induction false} NoneUnlinked(rows: seq<Candidate>)
    requires forall c :: c in rows ==> c.linked
    ensures Unlinked(rows) == []
  {
    if rows != [] { NoneUnlinked(rows[1..]); }
  }

  /** The identity's own rows push no unlinked row out of the window, however many there are. */
  lemma LinkedRowsTakeNoSlot(a: seq<Candidate>, linked: seq<Candidate>, b: seq<Candidate>)
    requires forall c :: c in linked ==> c.linked
    ensures Window(Unlinked(a + linked + b)) == Window(Unlinked(a + b))
  {
    UnlinkedSplits(a + linked, b);
    UnlinkedSplits(a, linked);
    UnlinkedSplits(a, b);
    NoneUnlinked(linked);
    hide Unlinked, Window;
    assert Unlinked(a) + [] == Unlinked(a);
  }

  lemma {:induction false} UnlinkedDistinct(rows: seq<Candidate>)
    requires forall i, j :: 0 <= i < j < |rows| ==> rows[i].row != rows[j].row
    ensures forall i, j :: 0 <= i < j < |Unlinked(rows)| ==> Unlinked(rows)[i].row != Unlinked(rows)[j].row
  {
    if rows != [] {
      UnlinkedDistinct(rows[1..]);
      var rest := Unlinked(rows[1..]);
      forall c | c in rest
        ensures c.row != rows[0].row
      {
        UnlinkedMembers(rows[1..], c);
      }
    }
  }
}
