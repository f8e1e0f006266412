/** How long a sign-in that opens nothing waits (internal/adminauth/identity.go, `costMeter`): the median of
    the last 32 opens, kept in a ring.
 */
module CostMeter {

  const SAMPLES := 32
  const CEILING := 250_000_000   // nanoseconds

  function Min(a: int, b: int): int { if a < b then a else b }

  /** The last 32 of a history, oldest first. */
  function Last(h: seq<int>): seq<int> { if |h| <= SAMPLES then h else h[|h| - SAMPLES..] }

  /** How many of `s` are smaller than `d`. */
  function Below(s: seq<int>, d: int): nat {
    if s == [] then 0 else (if s[0] < d then 1 else 0) + Below(s[1..], d)
  }

  /** At most half are smaller than `d`, and more than half are not larger. */
  ghost predicate IsMedian(s: seq<int>, d: int) {
    2 * Below(s, d) <= |s| < 2 * Below(s, d + 1)
  }

  lemma {:induction false} BelowGrows(s: seq<int>, a: int, b: int)
    requires a <= b
    ensures Below(s, a) <= Below(s, b)
  {
    if s != [] { BelowGrows(s[1..], a, b); }
  }

  /** There is one. */
  lemma MedianIsUnique(s: seq<int>, a: int, b: int)
    requires IsMedian(s, a) && IsMedian(s, b)
    ensures a == b
  {
    if a < b {
      BelowGrows(s, a + 1, b);
    } else if b < a {
      BelowGrows(s, b + 1, a);
    }
  }

  lemma {:induction false} BelowSplits(s: seq<int>, t: seq<int>, d: int)
    ensures Below(s + t, d) == Below(s, d) + Below(t, d)
  {
    if s == [] {
      assert s + t == t;
    } else {
      assert (s + t)[0] == s[0] && (s + t)[1..] == s[1..] + t;
      BelowSplits(s[1..], t, d);
    }
  }

  lemma Cancel(m: multiset<int>, n: multiset<int>, x: int)
    requires m + multiset{x} == n + multiset{x}
    ensures m == n
  {
    assert m == m + multiset{x} - multiset{x};
    assert n == n + multiset{x} - multiset{x};
  }

  /** The order of the samples does not matter. */
  lemma {:induction false} BelowIgnoresOrder(s: seq<int>, t: seq<int>, d: int)
    requires multiset(s) == multiset(t)
    ensures Below(s, d) == Below(t, d)
  {
    if s == [] {
      assert |t| == |multiset(t)| == 0;
    } else {
      assert s[0] in multiset(t);
      var i :| 0 <= i < |t| && t[i] == s[0];
      var before, after := t[..i], t[i + 1..];
      assert t == before + ([s[0]] + after);
      assert s == [s[0]] + s[1..];
      var x, ms, mb, ma := multiset{s[0]}, multiset(s[1..]), multiset(before), multiset(after);
      assert multiset(s) == multiset([s[0]] + s[1..]) == x + ms;
      assert multiset(t) == multiset(before + ([s[0]] + after)) == mb + (x + ma);
      assert x + ms == ms + x && mb + (x + ma) == (mb + ma) + x;
      Cancel(ms, mb + ma, s[0]);
      assert multiset(before + after) == mb + ma;
      BelowIgnoresOrder(s[1..], before + after, d);
      BelowSplits(before, [s[0]] + after, d);
      BelowSplits(before, after, d);
      BelowSplits([s[0]], after, d);
      BelowSplits([s[0]], s[1..], d);
    }
  }

  ghost predicate Sorted(s: seq<int>) { forall i, j :: 0 <= i < j < |s| ==> s[i] <= s[j] }

  function Insert(s: seq<int>, x: int): seq<int> {
    if s == [] then [x] else if x <= s[0] then [x] + s else [s[0]] + Insert(s[1..], x)
  }

  lemma {:induction false} InsertKeepsAll(s: seq<int>, x: int)
    ensures multiset(Insert(s, x)) == multiset(s) + multiset{x}
  {
    if s != [] {
      InsertKeepsAll(s[1..], x);
      assert s == [s[0]] + s[1..];
    }
  }

  lemma {:induction false} InsertAbove(s: seq<int>, x: int, a: int)
    requires a <= x && forall i :: 0 <= i < |s| ==> a <= s[i]
    ensures forall i :: 0 <= i < |Insert(s, x)| ==> a <= Insert(s, x)[i]
  {
    if s != [] { InsertAbove(s[1..], x, a); }
  }

  lemma {:induction false} InsertSorts(s: seq<int>, x: int)
    requires Sorted(s)
    ensures Sorted(Insert(s, x))
  {
    if s != [] {
      InsertSorts(s[1..], x);
      if s[0] < x { InsertAbove(s[1..], x, s[0]); }
    }
  }

  /** sort.Slice. */
  method Sort(s: seq<int>) returns (r: seq<int>)
    ensures Sorted(r) && multiset(r) == multiset(s)
  {
    r := [];
    for i := 0 to |s|
      invariant Sorted(r) && multiset(r) == multiset(s[..i])
    {
      InsertSorts(r, s[i]);
      InsertKeepsAll(r, s[i]);
      assert s[..i + 1] == s[..i] + [s[i]];
      r := Insert(r, s[i]);
    }
    assert s[..|s|] == s;
  }

  lemma {:induction false} NoneBelow(s: seq<int>, d: int)
    requires forall i :: 0 <= i < |s| ==> d <= s[i]
    ensures Below(s, d) == 0
  {
    if s != [] { NoneBelow(s[1..], d); }
  }

  lemma {:induction false} AllBelow(s: seq<int>, d: int)
    requires forall i :: 0 <= i < |s| ==> s[i] < d
    ensures Below(s, d) == |s|
  {
    if s != [] { AllBelow(s[1..], d); }
  }

  lemma BelowAtMost(s: seq<int>, d: int)
    ensures Below(s, d) <= |s|
    decreases |s|
  {
    if s != [] { BelowAtMost(s[1..], d); }
  }

  lemma BelowMiddle(s: seq<int>, m: nat)
    requires Sorted(s) && m < |s|
    ensures Below(s, s[m]) <= m
  {
    hide Below;
    var low, high := s[..m], s[m..];
    assert s == low + high;
    BelowSplits(low, high, s[m]);
    NoneBelow(high, s[m]);
    BelowAtMost(low, s[m]);
  }

  lemma UpToMiddle(s: seq<int>, m: nat)
    requires Sorted(s) && m < |s|
    ensures m < Below(s, s[m] + 1)
  {
    hide Below;
    var upTo, rest := s[..m + 1], s[m + 1..];
    assert s == upTo + rest;
    BelowSplits(upTo, rest, s[m] + 1);
    AllBelow(upTo, s[m] + 1);
  }

  /** The middle of a sorted sequence is its median. */
  lemma MiddleIsMedian(s: seq<int>)
    requires Sorted(s) && s != []
    ensures IsMedian(s, s[|s| / 2])
  {
    hide Below, Sorted;
    BelowMiddle(s, |s| / 2);
    UpToMiddle(s, |s| / 2);
  }

  class Meter {
    var samples: seq<int>
    var next: nat
    const fallback: int
    ghost var history: seq<int>   // every positive duration observed

    ghost predicate Valid()
      reads this
    {
      && |samples| == Min(|history|, SAMPLES) && (next < |samples| || next == 0)
      && (|samples| < SAMPLES ==> next == 0)
      && samples[next..] + samples[..next] == Last(history)
    }

    constructor (fallback: int)
      ensures Valid() && history == [] && this.fallback == fallback
    {
      samples, next, this.fallback := [], 0, fallback;
      history := [];
    }

    method Observe(d: int)
      requires Valid()
      modifies this
      ensures Valid() && history == if d <= 0 then old(history) else old(history) + [d]
    {
      if d <= 0 { return; }
      if |samples| < SAMPLES {
        samples, history := samples + [d], history + [d];
        assert Last(history) == history;
        return;
      }
      Turn(samples, history, next, d);
      samples := samples[next := d];
      next := (next + 1) % SAMPLES;
      history := history + [d];
    }

    /** The median of the last 32 opens, at most the ceiling; the fallback before the first. */
    method Typical() returns (d: int)
      requires Valid()
      ensures history == [] ==> d == fallback
      ensures history != [] ==>
                var last := if |history| <= 32 then history else history[|history| - 32..];
                exists m :: IsMedian(last, m) && d == if m <= 250_000_000 then m else 250_000_000
    {
      hide IsMedian, Sorted;
      if |samples| == 0 { return fallback; }
      var s := Sort(samples);
      TurnsToLast(samples, next, Last(history));
      MiddleOfAny(s, Last(history));
      d := s[|s| / 2];
      assert IsMedian(Last(history), d);
      if d > CEILING { d := CEILING; }
    }
  }

  lemma TurnsToLast(samples: seq<int>, next: nat, last: seq<int>)
    requires next <= |samples| && samples[next..] + samples[..next] == last
    ensures multiset(samples) == multiset(last)
  {
    assert samples == samples[..next] + samples[next..];
  }

  /** The middle of the sorted samples is the median of the samples in any order. */
  lemma MiddleOfAny(s: seq<int>, last: seq<int>)
    requires Sorted(s) && multiset(s) == multiset(last) && last != []
    ensures |s| == |last| && IsMedian(last, s[|s| / 2])
  {
    hide Below, Sorted;
    assert |s| == |multiset(s)| == |multiset(last)| == |last|;
    MiddleIsMedian(s);
    BelowIgnoresOrder(s, last, s[|s| / 2]);
    BelowIgnoresOrder(s, last, s[|s| / 2] + 1);
  }

  /** The oldest sample gives way to the newest. */
  lemma Turn(samples: seq<int>, history: seq<int>, next: nat, d: int)
    requires next < |samples| == SAMPLES <= |history| && samples[next..] + samples[..next] == Last(history)
    ensures var s, h, n := samples[next := d], history + [d], (next + 1) % SAMPLES;
            s[n..] + s[..n] == Last(h)
  {
    var s, h, n := samples[next := d], history + [d], (next + 1) % SAMPLES;
    var kept := samples[next + 1..] + samples[..next];
    assert Last(history)[1..] == kept;
    assert Last(h) == Last(history)[1..] + [d];
    assert s[n..] + s[..n] == kept + [d];
  }
}
