/** The bounded upload reader (internal/brand/logo.go).

    A source hands its bytes over in deliveries of its own choosing, and may end, or fail, together with its
    last bytes or after them, as Go's io.Reader allows. `Read` uses two buffers and must give the same
    answer for every way the bytes are split; `SplitMatters` says exactly where it does not.
 */
module LogoRead {

  type Byte = x: nat | x < 256

  const LIMIT: nat := 512 * 1024
  const FIRST: nat := 4 * 1024

  datatype End = More | Eof | Failed

  /** Bytes a source is about to hand over, and what it reports with the last of them. */
  datatype Delivery = Delivery(bytes: seq<Byte>, end: End)

  /** Everything the source will ever deliver. */
  function Data(script: seq<Delivery>): seq<Byte> {
    if script == [] then []
    else if script[0].end != More then script[0].bytes
    else script[0].bytes + Data(script[1..])
  }

  /** How the source ends; a source that runs out ends. */
  function Ending(script: seq<Delivery>): End {
    if script == [] then Eof
    else if script[0].end != More then script[0].end
    else Ending(script[1..])
  }

  /** Whether the source reports its end after its last byte rather than with it. */
  predicate EndsLate(script: seq<Delivery>) {
    if script == [] then true
    else if script[0].end != More then script[0].bytes == []
    else EndsLate(script[1..])
  }

  ghost function Weight(script: seq<Delivery>): nat {
    if script == [] then 0 else 1 + |script[0].bytes| + Weight(script[1..])
  }

  /** Taking part of a delivery leaves the rest of the source as it was. */
  lemma Cut(script: seq<Delivery>, m: nat)
    requires script != [] && 0 < m < |script[0].bytes|
    ensures var rest := [Delivery(script[0].bytes[m..], script[0].end)] + script[1..];
            && script[0].bytes[..m] + Data(rest) == Data(script)
            && Ending(rest) == Ending(script) && EndsLate(rest) == EndsLate(script)
            && Weight(rest) < Weight(script)
  {
    var d, after := script[0], script[1..];
    var rest := [Delivery(d.bytes[m..], d.end)] + after;
    assert rest[1..] == after;
    hide Data, Ending, EndsLate, Weight;
    CutOne(d, after, m);
    assert script == [d] + after;
  }

  lemma CutOne(d: Delivery, after: seq<Delivery>, m: nat)
    requires 0 < m < |d.bytes|
    ensures d.bytes[..m] + Data([Delivery(d.bytes[m..], d.end)] + after) == Data([d] + after)
    ensures Ending([Delivery(d.bytes[m..], d.end)] + after) == Ending([d] + after)
    ensures EndsLate([Delivery(d.bytes[m..], d.end)] + after) == EndsLate([d] + after)
    ensures Weight([Delivery(d.bytes[m..], d.end)] + after) < Weight([d] + after)
  {
    var a, b := d.bytes[..m], d.bytes[m..];
    assert a + b == d.bytes;
    assert ([d] + after)[1..] == after && ([Delivery(b, d.end)] + after)[1..] == after;
    if d.end == More { assert a + (b + Data(after)) == (a + b) + Data(after); }
  }

  class Reader {
    var script: seq<Delivery>

    constructor (deliveries: seq<Delivery>)
      ensures script == deliveries
    {
      script := deliveries;
    }

    /** One Read into buf[from..]: the next delivery, or as much of it as fits. */
    method Read(buf: array<Byte>, from: nat) returns (m: nat, end: End)
      requires from < buf.Length
      modifies this, buf
      ensures from + m <= buf.Length && buf[..from] == old(buf[..from])
      ensures end == More ==> buf[from..from + m] + Data(script) == Data(old(script))
      ensures end == More ==> Ending(script) == Ending(old(script)) && EndsLate(script) == EndsLate(old(script))
      ensures end == More ==> Weight(script) < Weight(old(script))
      ensures end != More ==> buf[from..from + m] == Data(old(script)) && end == Ending(old(script))
      ensures end != More && from + m == buf.Length ==> !EndsLate(old(script))
    {
      hide Data, Ending, EndsLate, Weight;
      if script == [] {
        Nothing();
        assert buf[from..from] == [];
        return 0, Eof;
      }
      var d := script[0];
      var room := buf.Length - from;
      if |d.bytes| <= room {
        Whole(script);
        m := |d.bytes|;
        Put(buf, from, d.bytes);
        end, script := d.end, script[1..];
      } else {
        Cut(script, room);
        m := room;
        Put(buf, from, d.bytes[..m]);
        end, script := More, [Delivery(d.bytes[m..], d.end)] + script[1..];
      }
    }

    method Put(buf: array<Byte>, from: nat, bytes: seq<Byte>)
      requires from + |bytes| <= buf.Length
      modifies buf
      ensures buf[..from] == old(buf[..from]) && buf[from..from + |bytes|] == bytes
    {
      for i := 0 to |bytes|
        invariant buf[..from] == old(buf[..from]) && buf[from..from + i] == bytes[..i]
      {
        buf[from + i] := bytes[i];
      }
    }
  }

  lemma Nothing()
    ensures Data([]) == [] && Ending([]) == Eof && EndsLate([])
  {
  }

  lemma Whole(script: seq<Delivery>)
    requires script != []
    ensures Weight(script[1..]) < Weight(script)
    ensures script[0].end != More ==>
              Data(script) == script[0].bytes && Ending(script) == script[0].end
              && (EndsLate(script) <==> script[0].bytes == [])
    ensures script[0].end == More ==>
              Data(script) == script[0].bytes + Data(script[1..]) && Ending(script) == Ending(script[1..])
              && EndsLate(script) == EndsLate(script[1..])
  {
  }

  datatype Result = Got(data: seq<Byte>) | ReadError

  /** What the reader must answer: the data, cut one byte past the limit; or an error, when the source
      failed before that byte or together with it. */
  function Expected(script: seq<Delivery>): Result {
    var d := Data(script);
    if |d| > LIMIT + 1 then Got(d[..LIMIT + 1])
    else if Ending(script) == Failed && !(|d| == LIMIT + 1 && EndsLate(script)) then ReadError
    else Got(d)
  }

  lemma LateWhenNothingLeft(script: seq<Delivery>)
    requires Data(script) == []
    ensures EndsLate(script)
  {
  }

  lemma OverTheLimit(was: seq<Delivery>, left: seq<Delivery>, buf: seq<Byte>)
    requires |buf| == LIMIT + 1 && buf + Data(left) == Data(was)
    requires Ending(left) == Ending(was) && EndsLate(left) == EndsLate(was)
    ensures Expected(was) == Got(buf)
  {
    if Data(left) == [] {
      LateWhenNothingLeft(left);
      assert buf + Data(left) == buf;
    }
  }

  lemma AtTheEnd(was: seq<Delivery>, buf: seq<Byte>, end: End)
    requires buf == Data(was) && |buf| <= LIMIT + 1 && end == Ending(was) && end != More
    requires |buf| == LIMIT + 1 ==> !EndsLate(was)
    ensures Expected(was) == if end == Eof then Got(buf) else ReadError
  {
  }

  lemma Joined(had: seq<Byte>, chunk: seq<Byte>, rest: seq<Byte>, left: seq<Byte>)
    requires chunk + rest == left
    ensures (had + chunk) + rest == had + left
  {
  }

  /** `logoRead`. */
  method Read(r: Reader) returns (result: Result)
    modifies r
    ensures result == Expected(old(r.script))
  {
    hide Data, Ending, EndsLate, Weight, Expected;
    ghost var was := r.script;
    var buf: array<Byte> := new Byte[FIRST];
    var n: nat := 0;
    ghost var got: seq<Byte> := [];
    while true
      invariant fresh(buf) && n <= buf.Length && (buf.Length == FIRST || buf.Length == LIMIT + 1)
      invariant got == buf[..n] && got + Data(r.script) == Data(was)
      invariant Ending(r.script) == Ending(was) && EndsLate(r.script) == EndsLate(was)
      decreases Weight(r.script)
    {
      if n == buf.Length {
        if buf.Length > LIMIT {
          OverTheLimit(was, r.script, got);
          return Got(buf[..n]);
        }
        buf := Grow(buf);
      }
      ghost var left := Data(r.script);
      var m, end := r.Read(buf, n);
      ghost var chunk := buf[n..n + m];
      Extended(buf, n, m);
      n := n + m;
      if end != More {
        AtTheEnd(was, got + chunk, end);
        return if end == Eof then Got(buf[..n]) else ReadError;
      }
      Joined(got, chunk, Data(r.script), left);
      got := got + chunk;
    }
  }

  lemma Extended(buf: array<Byte>, n: nat, m: nat)
    requires n + m <= buf.Length
    ensures buf[..n + m] == buf[..n] + buf[n..n + m]
  {
  }

  /** The second buffer, with the first one's bytes in front. */
  method Grow(buf: array<Byte>) returns (full: array<Byte>)
    requires buf.Length <= LIMIT + 1
    ensures fresh(full) && full.Length == LIMIT + 1 && full[..buf.Length] == buf[..]
  {
    full := new Byte[LIMIT + 1];
    for i := 0 to buf.Length
      invariant full[..i] == buf[..i]
    {
      full[i] := buf[i];
    }
    assert buf[..buf.Length] == buf[..];
  }

  /** A source that ends without failing gets the same answer however it splits its bytes, and is refused
      for its size (more than LIMIT bytes come back) exactly when it is longer than the limit. */
  lemma SplitDoesNotMatter(a: seq<Delivery>, b: seq<Delivery>)
    requires Data(a) == Data(b) && Ending(a) != Failed && Ending(b) != Failed
    ensures Expected(a) == Expected(b) && Expected(a).Got?
    ensures |Expected(a).data| > 524_288 <==> |Data(a)| > 524_288
    ensures |Data(a)| <= 524_288 ==> Expected(a).data == Data(a)
  {
  }

  /** For a source that fails, the split shows in one case only: exactly one byte past the limit was
      delivered, and one source reports the failure with that byte, the other after it. */
  lemma SplitMatters(a: seq<Delivery>, b: seq<Delivery>)
    requires Data(a) == Data(b) && Ending(a) == Failed && Ending(b) == Failed
    ensures Expected(a) == Expected(b) <==> |Data(a)| != 524_289 || EndsLate(a) == EndsLate(b)
  {
  }
}
