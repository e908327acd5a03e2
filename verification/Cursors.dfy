// The page cursor: a timestamp and an identifier joined by "|" and written in the URL-safe base64
// alphabet (section 5 of RFC 4648). Texts are their UTF-8 bytes.
module Cursors {
  import opened Options

  type Byte = b: int | 0 <= b < 256
  type Bytes = seq<Byte>

  const BAR: Byte := 124

  // ----- Base 64 -----

  function Digit(d: nat): char
    requires d < 64
  {
    if d < 26 then (65 + d) as char
    else if d < 52 then (71 + d) as char
    else if d < 62 then (d - 4) as char
    else if d == 62 then '-'
    else '_'
  }

  function Undigit(c: char): Option<nat> {
    var n := c as int;
    if 65 <= n <= 90 then Some(n - 65)
    else if 97 <= n <= 122 then Some(n - 71)
    else if 48 <= n <= 57 then Some(n + 4)
    else if c == '-' then Some(62)
    else if c == '_' then Some(63)
    else None
  }

  lemma DigitRoundTrip(d: nat)
    requires d < 64
    ensures Undigit(Digit(d)) == Some(d) && Digit(d) != '='
  {
  }

  function EncodeThree(a: Byte, b: Byte, c: Byte): string {
    [Digit(a / 4), Digit(a % 4 * 16 + b / 16), Digit(b % 16 * 4 + c / 64), Digit(c % 64)]
  }

  function Encode(bs: Bytes): string {
    if bs == [] then ""
    else if |bs| == 1 then EncodeThree(bs[0], 0, 0)[..2] + "=="
    else if |bs| == 2 then EncodeThree(bs[0], bs[1], 0)[..3] + "="
    else EncodeThree(bs[0], bs[1], bs[2]) + Encode(bs[3..])
  }

  // The first, second and third byte of four digits.
  function First(x: nat, y: nat): Byte
    requires x < 64 && y < 64
  {
    x * 4 + y / 16
  }

  function Second(y: nat, z: nat): Byte
    requires y < 64 && z < 64
  {
    y % 16 * 16 + z / 4
  }

  function Third(z: nat, u: nat): Byte
    requires z < 64 && u < 64
  {
    z % 4 * 64 + u
  }

  function Decode(s: string): Option<Bytes> {
    if s == "" then Some([])
    else if |s| < 4 || Undigit(s[0]).None? || Undigit(s[1]).None? then None
    else
      var x, y := Undigit(s[0]).value, Undigit(s[1]).value;
      if s[2] == '=' then
        if s[3] == '=' && |s| == 4 then Some([First(x, y)]) else None
      else if Undigit(s[2]).None? then None
      else
        var z := Undigit(s[2]).value;
        if s[3] == '=' then
          if |s| == 4 then Some([First(x, y), Second(y, z)]) else None
        else if Undigit(s[3]).None? then None
        else
          var rest := Decode(s[4..]);
          if rest.None? then None
          else Some([First(x, y), Second(y, z), Third(z, Undigit(s[3]).value)] + rest.value)
  }

  lemma BytesOfDigits(a: Byte, b: Byte, c: Byte)
    ensures First(a / 4, a % 4 * 16 + b / 16) == a
    ensures Second(a % 4 * 16 + b / 16, b % 16 * 4 + c / 64) == b
    ensures Third(b % 16 * 4 + c / 64, c % 64) == c
  {
  }

  lemma DigitsOfThree(a: Byte, b: Byte, c: Byte)
    ensures var s := EncodeThree(a, b, c);
      && Undigit(s[0]) == Some(a / 4) && Undigit(s[1]) == Some(a % 4 * 16 + b / 16)
      && Undigit(s[2]) == Some(b % 16 * 4 + c / 64) && Undigit(s[3]) == Some(c % 64)
      && s[2] != '=' && s[3] != '='
  {
    DigitRoundTrip(a / 4);
    DigitRoundTrip(a % 4 * 16 + b / 16);
    DigitRoundTrip(b % 16 * 4 + c / 64);
    DigitRoundTrip(c % 64);
  }

  // Four digits of known value, and what follows them.
  lemma FourAreDecoded(four: string, tail: string, x: nat, y: nat, z: nat, u: nat)
    requires |four| == 4 && x < 64 && y < 64 && z < 64 && u < 64
    requires Undigit(four[0]) == Some(x) && Undigit(four[1]) == Some(y)
    requires Undigit(four[2]) == Some(z) && Undigit(four[3]) == Some(u)
    requires four[2] != '=' && four[3] != '='
    ensures Decode(four + tail) ==
      if Decode(tail).None? then None else Some([First(x, y), Second(y, z), Third(z, u)] + Decode(tail).value)
  {
    var s := four + tail;
    assert s[0] == four[0] && s[1] == four[1] && s[2] == four[2] && s[3] == four[3] && s[4..] == tail;
  }

  lemma ThreeRoundTrip(a: Byte, b: Byte, c: Byte, tail: string)
    requires Decode(tail).Some?
    ensures Decode(EncodeThree(a, b, c) + tail) == Some([a, b, c] + Decode(tail).value)
  {
    DigitsOfThree(a, b, c);
    BytesOfDigits(a, b, c);
    FourAreDecoded(EncodeThree(a, b, c), tail, a / 4, a % 4 * 16 + b / 16, b % 16 * 4 + c / 64, c % 64);
  }

  lemma PaddedOneIsDecoded(s: string, x: nat, y: nat)
    requires |s| == 4 && x < 64 && y < 64 && Undigit(s[0]) == Some(x) && Undigit(s[1]) == Some(y)
    requires s[2] == '=' && s[3] == '='
    ensures Decode(s) == Some([First(x, y)])
  {
  }

  lemma PaddedTwoAreDecoded(s: string, x: nat, y: nat, z: nat)
    requires |s| == 4 && x < 64 && y < 64 && z < 64
    requires Undigit(s[0]) == Some(x) && Undigit(s[1]) == Some(y) && Undigit(s[2]) == Some(z)
    requires s[2] != '=' && s[3] == '='
    ensures Decode(s) == Some([First(x, y), Second(y, z)])
  {
  }

  lemma OneRoundTrip(a: Byte)
    ensures Decode(Encode([a])) == Some([a])
  {
    DigitsOfThree(a, 0, 0);
    BytesOfDigits(a, 0, 0);
    var four := EncodeThree(a, 0, 0);
    PaddedOneIsDecoded(four[..2] + "==", a / 4, a % 4 * 16 + 0 / 16);
    assert [a][0] == a && |[a]| == 1;
  }

  lemma TwoRoundTrip(a: Byte, b: Byte)
    ensures Decode(Encode([a, b])) == Some([a, b])
  {
    DigitsOfThree(a, b, 0);
    BytesOfDigits(a, b, 0);
    var four := EncodeThree(a, b, 0);
    PaddedTwoAreDecoded(four[..3] + "=", a / 4, a % 4 * 16 + b / 16, b % 16 * 4 + 0 / 64);
    assert [a, b][0] == a && [a, b][1] == b && |[a, b]| == 2;
  }

  lemma EncodeLong(bs: Bytes)
    requires |bs| >= 3
    ensures Encode(bs) == EncodeThree(bs[0], bs[1], bs[2]) + Encode(bs[3..])
  {
  }

  lemma LongRoundTrip(bs: Bytes, tail: string)
    requires |bs| >= 3 && Decode(tail) == Some(bs[3..])
    ensures Decode(EncodeThree(bs[0], bs[1], bs[2]) + tail) == Some(bs)
  {
    ThreeRoundTrip(bs[0], bs[1], bs[2], tail);
    assert bs == [bs[0], bs[1], bs[2]] + bs[3..];
  }

  lemma {:induction false} Base64RoundTrip(bs: Bytes)
    ensures Decode(Encode(bs)) == Some(bs)
  {
    if bs == [] {
    } else if |bs| == 1 {
      OneRoundTrip(bs[0]);
      assert bs == [bs[0]];
    } else if |bs| == 2 {
      TwoRoundTrip(bs[0], bs[1]);
      assert bs == [bs[0], bs[1]];
    } else {
      Base64RoundTrip(bs[3..]);
      EncodeLong(bs);
      LongRoundTrip(bs, Encode(bs[3..]));
    }
  }

  // ----- Cursors -----

  // Split at the first bar.
  function SplitBar(bs: Bytes): Option<(Bytes, Bytes)> {
    if bs == [] then None
    else if bs[0] == BAR then Some(([], bs[1..]))
    else
      match SplitBar(bs[1..])
      case None => None
      case Some((front, back)) => Some(([bs[0]] + front, back))
  }

  lemma {:induction false} SplitBarInverts(front: Bytes, back: Bytes)
    requires BAR !in front
    ensures SplitBar(front + [BAR] + back) == Some((front, back))
  {
    var bs := front + [BAR] + back;
    if front == [] {
      assert bs[0] == BAR && bs[1..] == back;
    } else {
      assert bs[0] == front[0] && bs[1..] == front[1..] + [BAR] + back;
      assert front[0] in front;
      SplitBarInverts(front[1..], back);
      assert [front[0]] + front[1..] == front;
    }
  }

  // A way of writing instants: no bar occurs in it, and it reads back.
  datatype Clock = Clock(format: int -> Bytes, parse: Bytes -> Option<int>)

  ghost predicate ClockOk(clock: Clock) {
    forall t: int :: BAR !in clock.format(t) && clock.parse(clock.format(t)) == Some(t)
  }

  function EncodeCursor(clock: Clock, created: int, id: Bytes): string {
    Encode(clock.format(created) + [BAR] + id)
  }

  function DecodeCursor(clock: Clock, cursor: string): Option<(int, Bytes)> {
    match Decode(cursor)
    case None => None
    case Some(bs) =>
      match SplitBar(bs)
      case None => None
      case Some((front, back)) =>
        match clock.parse(front)
        case None => None
        case Some(created) => Some((created, back))
  }

  // A cursor reads back as what it was made from, whatever the identifier -- bars included.
  lemma CursorRoundTrip(clock: Clock, created: int, id: Bytes)
    requires ClockOk(clock)
    ensures DecodeCursor(clock, EncodeCursor(clock, created, id)) == Some((created, id))
    ensures EncodeCursor(clock, created, id) != ""
  {
    var front := clock.format(created);
    Base64RoundTrip(front + [BAR] + id);
    SplitBarInverts(front, id);
    assert |front + [BAR] + id| >= 1;
  }
}
