/** The one spelling of a colour (internal/brand/accent.go, `Hex`, `ParseAccent`, `NormalizeAccent`). */
module AccentText {
  import opened Accent
  import opened Wrappers

  const DIGITS := "0123456789ABCDEF"

  /** Two digits of one channel. */
  function Two(b: Byte): string { [DIGITS[b / 16], DIGITS[b % 16]] }

  function Hex(c: Color): string { Two(c.r) + Two(c.g) + Two(c.b) }

  function Digit(ch: char, lowerOk: bool): Option<Byte> {
    if '0' <= ch <= '9' then Some(ch as int - '0' as int)
    else if 'A' <= ch <= 'F' then Some(ch as int - 'A' as int + 10)
    else if lowerOk && 'a' <= ch <= 'f' then Some(ch as int - 'a' as int + 10)
    else None
  }

  /** The canonical letter for a digit an editor may send. */
  function Upper(ch: char): char {
    if 'a' <= ch <= 'f' then (ch as int - 'a' as int + 'A' as int) as char else ch
  }

  function Canon(s: string, lowerOk: bool): string {
    seq(|s|, i requires 0 <= i < |s| => if lowerOk then Upper(s[i]) else s[i])
  }

  lemma DigitMeans(ch: char, lowerOk: bool, d: Byte)
    requires d < 16
    ensures Digit(ch, lowerOk) == Some(d) <==> DIGITS[d] == if lowerOk then Upper(ch) else ch
  {
  }

  lemma DigitBelow16(ch: char, lowerOk: bool)
    ensures Digit(ch, lowerOk).Some? ==> Digit(ch, lowerOk).value < 16
  {
  }

  lemma HexAt(c: Color)
    ensures |Hex(c)| == 6
    ensures Hex(c)[0] == DIGITS[c.r / 16] && Hex(c)[1] == DIGITS[c.r % 16]
    ensures Hex(c)[2] == DIGITS[c.g / 16] && Hex(c)[3] == DIGITS[c.g % 16]
    ensures Hex(c)[4] == DIGITS[c.b / 16] && Hex(c)[5] == DIGITS[c.b % 16]
  {
  }

  /** The digits of a colour, in order. */
  function Nibbles(c: Color): seq<Byte> { [c.r / 16, c.r % 16, c.g / 16, c.g % 16, c.b / 16, c.b % 16] }

  lemma ReadsDigitExactly(s: string, lowerOk: bool, c: Color, i: nat)
    requires |s| == 6 && i < 6
    ensures |Canon(s, lowerOk)| == 6 && |Hex(c)| == 6 && |Nibbles(c)| == 6
    ensures Digit(s[i], lowerOk) == Some(Nibbles(c)[i]) <==> Canon(s, lowerOk)[i] == Hex(c)[i]
  {
    HexAt(c);
    NibblesBelow16(c, i);
    hide Digit, Upper;
    var d := Nibbles(c)[i];
    assert Hex(c)[i] == DIGITS[d];
    assert Canon(s, lowerOk)[i] == if lowerOk then Upper(s[i]) else s[i];
    hide *;
    DigitMeans(s[i], lowerOk, d);
  }

  lemma NibblesBelow16(c: Color, i: nat)
    requires i < 6
    ensures Nibbles(c)[i] < 16
  {
  }

  lemma ReadsExactly(s: string, lowerOk: bool, c: Color)
    ensures Canon(s, lowerOk) == Hex(c) <==> |s| == 6 && forall i :: 0 <= i < 6 ==> Digit(s[i], lowerOk) == Some(Nibbles(c)[i])
  {
    assert |Canon(s, lowerOk)| == |s| && |Hex(c)| == 6 && |Nibbles(c)| == 6;
    hide *;
    if |s| == 6 {
      forall i | 0 <= i < 6
        ensures Digit(s[i], lowerOk) == Some(Nibbles(c)[i]) <==> Canon(s, lowerOk)[i] == Hex(c)[i]
      {
        ReadsDigitExactly(s, lowerOk, c, i);
      }
    }
  }

  function Join(v: seq<Byte>): Color
    requires |v| == 6 && forall k :: 0 <= k < 6 ==> v[k] < 16
  {
    Color(v[0] * 16 + v[1], v[2] * 16 + v[3], v[4] * 16 + v[5])
  }

  lemma JoinNibbles(v: seq<Byte>, c: Color)
    requires |v| == 6 && forall k :: 0 <= k < 6 ==> v[k] < 16
    ensures Nibbles(c) == v <==> c == Join(v)
  {
  }

  lemma ReadsDigits(s: string, lowerOk: bool, v: seq<Byte>, c: Color)
    requires |s| == 6 == |v| && forall k :: 0 <= k < 6 ==> Digit(s[k], lowerOk) == Some(v[k]) && v[k] < 16
    ensures Canon(s, lowerOk) == Hex(c) <==> c == Join(v)
  {
    ReadsExactly(s, lowerOk, c);
    JoinNibbles(v, c);
    hide Digit, Hex, Canon, Join;
    assert |Nibbles(c)| == 6;
    hide Nibbles;
  }

  lemma ReadsNone(s: string, lowerOk: bool, i: nat, c: Color)
    requires |s| == 6 && i < 6 ==> Digit(s[i], lowerOk).None?
    requires |s| != 6 || i < 6
    ensures Canon(s, lowerOk) != Hex(c)
  {
    ReadsExactly(s, lowerOk, c);
    hide Digit, Hex, Canon, Nibbles;
  }

  method Decode(s: string, lowerOk: bool) returns (c: Option<Color>)
    ensures forall x :: c == Some(x) <==> Canon(s, lowerOk) == Hex(x)
  {
    hide Digit, Hex, Canon, Upper, Nibbles, Join;
    if |s| != 6 {
      forall x ensures Canon(s, lowerOk) != Hex(x) { ReadsNone(s, lowerOk, 0, x); }
      return None;
    }
    var v: seq<Byte> := [];
    for i := 0 to 6
      invariant |v| == i
      invariant forall k :: 0 <= k < i ==> Digit(s[k], lowerOk) == Some(v[k]) && v[k] < 16
    {
      var d := Digit(s[i], lowerOk);
      if d.None? {
        forall x ensures Canon(s, lowerOk) != Hex(x) { ReadsNone(s, lowerOk, i, x); }
        return None;
      }
      DigitBelow16(s[i], lowerOk);
      v := v + [d.value];
    }
    c := Some(Join(v));
    forall x ensures Canon(s, lowerOk) == Hex(x) <==> x == Join(v) { ReadsDigits(s, lowerOk, v, x); }
  }

  /** Reads exactly the canonical spelling of each colour, and nothing else. */
  method ParseAccent(s: string) returns (c: Option<Color>)
    ensures forall x :: c == Some(x) <==> s == Hex(x)
  {
    c := Decode(s, false);
    assert Canon(s, false) == s;
  }

  /** And of an editor's value, exactly those that spell the colour but for one leading '#' and the case. */
  method NormalizeAccent(s: string) returns (c: Option<Color>)
    ensures forall x :: c == Some(x) <==> Canon(if |s| == 7 && s[0] == '#' then s[1..] else s, true) == Hex(x)
  {
    var digits := if |s| == 7 && s[0] == '#' then s[1..] else s;
    c := Decode(digits, true);
  }
}
