// JSON text as Python's json.dumps writes it with sorted keys and compact separators, and the
// reading of it (string escapes: section 7 of RFC 8259).
//
// The reader knows strings, null, arrays and objects without white space. Nothing else can occur in
// a patch artifact that is accepted: a number or a boolean fails validation, and white space does
// not survive re-printing.
module Json {
  import opened Options
  import opened Sorting
  import opened Text

  datatype Value = Null | Str(text: string) | Arr(items: seq<Value>) | Obj(members: seq<Member>)

  // A dictionary, as its members in key order.
  datatype Member = Member(key: string, value: Value)

  ghost predicate SortedKeys(members: seq<Member>) {
    forall i, j | 0 <= i < j < |members| :: Less(members[i].key, members[j].key)
  }

  ghost predicate WellFormed(v: Value) {
    match v
    case Arr(items) => forall i | 0 <= i < |items| :: WellFormed(items[i])
    case Obj(members) =>
      SortedKeys(members) && forall i | 0 <= i < |members| :: WellFormed(members[i].value)
    case _ => true
  }

  // ----- Characters -----

  const BACKSPACE: char := 8 as char
  const FORMFEED: char := 12 as char

  function HexDigit(d: nat): char
    requires d < 16
  {
    if d < 10 then (48 + d) as char else (87 + d) as char
  }

  function Hex4(n: nat): string
    requires n < 0x10000
  {
    var high := n / 16 / 16;
    [HexDigit(high / 16), HexDigit(high % 16), HexDigit(n / 16 % 16), HexDigit(n % 16)]
  }

  function Unhex(c: char): Option<nat> {
    var n := c as int;
    if 48 <= n <= 57 then Some(n - 48)
    else if 97 <= n <= 102 then Some(n - 87)
    else if 65 <= n <= 70 then Some(n - 55)
    else None
  }

  function Unhex4(s: string): Option<nat> {
    if |s| < 4 then None else
    var a, b, c, d := Unhex(s[0]), Unhex(s[1]), Unhex(s[2]), Unhex(s[3]);
    if a.None? || b.None? || c.None? || d.None? then None
    else Some(a.value * 4096 + b.value * 256 + c.value * 16 + d.value)
  }

  function UnicodeEscape(n: nat): string
    requires n < 0x10000
  {
    ['\\', 'u'] + Hex4(n)
  }

  // The escapes of two characters.
  function Short(c: char): Option<char> {
    if c == '"' || c == '\\' then Some(c)
    else if c == '\n' then Some('n')
    else if c == '\r' then Some('r')
    else if c == '\t' then Some('t')
    else if c == BACKSPACE then Some('b')
    else if c == FORMFEED then Some('f')
    else None
  }

  function Unshort(c: char): Option<char> {
    if c == '"' || c == '\\' || c == '/' then Some(c)
    else if c == 'n' then Some('\n')
    else if c == 'r' then Some('\r')
    else if c == 't' then Some('\t')
    else if c == 'b' then Some(BACKSPACE)
    else if c == 'f' then Some(FORMFEED)
    else None
  }

  function EscapeChar(c: char): string {
    if Short(c).Some? then ['\\', Short(c).value]
    else if 32 <= c as int <= 126 then [c]
    else if (c as int) < 0x10000 then UnicodeEscape(c as int)
    else PairEscape(c as int)
  }

  function PairEscape(n: nat): string
    requires 0x10000 <= n < 0x110000
  {
    UnicodeEscape(0xD800 + (n - 0x10000) / 1024) + UnicodeEscape(0xDC00 + (n - 0x10000) % 1024)
  }

  datatype Scanned<T> = Got(value: T, rest: string) | Malformed

  predicate HighSurrogate(n: int) { 0xD800 <= n <= 0xDBFF }
  predicate LowSurrogate(n: int) { 0xDC00 <= n <= 0xDFFF }

  // After a backslash and a "u".
  function ScanUnicode(s: string): (r: Scanned<char>)
    ensures r.Got? ==> |r.rest| < |s|
  {
    var n := Unhex4(s);
    if n.None? || n.value >= 0x10000 then Malformed
    else if HighSurrogate(n.value) then
      if |s| >= 6 && s[4] == '\\' && s[5] == 'u' then
        var m := Unhex4(s[6..]);
        if m.Some? && LowSurrogate(m.value)
        then Got((0x10000 + (n.value - 0xD800) * 1024 + (m.value - 0xDC00)) as char, s[10..])
        else Malformed
      else Malformed
    else if LowSurrogate(n.value) then Malformed
    else Got(n.value as char, s[4..])
  }

  function ScanEscape(s: string): (r: Scanned<char>)
    ensures r.Got? ==> |r.rest| < |s|
  {
    if s == "" then Malformed
    else if Unshort(s[0]).Some? then Got(Unshort(s[0]).value, s[1..])
    else if s[0] == 'u' then ScanUnicode(s[1..])
    else Malformed
  }

  // One character of a string literal.
  function ScanChar(s: string): (r: Scanned<char>)
    requires s != ""
    ensures r.Got? ==> |r.rest| < |s|
  {
    if s[0] == '\\' then ScanEscape(s[1..])
    else if s[0] as int < 32 then Malformed
    else Got(s[0], s[1..])
  }

  lemma DigitRoundTrip(d: nat)
    requires d < 16
    ensures Unhex(HexDigit(d)) == Some(d)
  {
  }

  // Digits are read in either case, and nothing else is.
  lemma UnhexExactly(c: char, d: nat)
    requires d < 16
    ensures Unhex(c) == Some(d) <==> c == HexDigit(d) || (10 <= d && c as int == HexDigit(d) as int - 32)
  {
  }

  lemma HexRoundTrip(n: nat, rest: string)
    requires n < 0x10000
    ensures Unhex4(Hex4(n) + rest) == Some(n)
  {
    var high := n / 16 / 16;
    DigitRoundTrip(high / 16);
    DigitRoundTrip(high % 16);
    DigitRoundTrip(n / 16 % 16);
    DigitRoundTrip(n % 16);
    assert Hex4(n) == [HexDigit(high / 16), HexDigit(high % 16), HexDigit(n / 16 % 16), HexDigit(n % 16)];
    assert (Hex4(n) + rest)[..4] == Hex4(n);
  }

  // A surrogate pair is one character.
  lemma PairRoundTrip(hi: nat, lo: nat, rest: string)
    requires HighSurrogate(hi) && LowSurrogate(lo)
    ensures ScanUnicode(Hex4(hi) + UnicodeEscape(lo) + rest) ==
            Got((0x10000 + (hi - 0xD800) * 1024 + (lo - 0xDC00)) as char, rest)
  {
    var tail := UnicodeEscape(lo) + rest;
    var t := Hex4(hi) + tail;
    assert Hex4(hi) + UnicodeEscape(lo) + rest == t;
    HexRoundTrip(hi, tail);
    HexRoundTrip(lo, rest);
    assert t[4] == tail[0] && t[5] == tail[1];
    assert t[6..] == Hex4(lo) + rest;
    assert t[10..] == rest;
  }

  lemma SurrogateArithmetic(m: nat)
    requires m < 0x100000
    ensures m / 1024 < 1024 && m / 1024 * 1024 + m % 1024 == m
  {
  }

  lemma Surrogates(n: nat) returns (hi: nat, lo: nat)
    requires 0x10000 <= n < 0x110000
    ensures HighSurrogate(hi) && LowSurrogate(lo) && n == 0x10000 + (hi - 0xD800) * 1024 + (lo - 0xDC00)
    ensures hi < 0x10000 && lo < 0x10000 && PairEscape(n) == UnicodeEscape(hi) + UnicodeEscape(lo)
  {
    var m := n - 0x10000;
    SurrogateArithmetic(m);
    hi, lo := 0xD800 + (n - 0x10000) / 1024, 0xDC00 + (n - 0x10000) % 1024;
  }

  lemma WideRoundTrip(n: nat, rest: string)
    requires 0x10000 <= n < 0x110000
    ensures PairEscape(n) + rest != "" && ScanChar(PairEscape(n) + rest) == Got(n as char, rest)
    ensures (PairEscape(n) + rest)[0] == '\\'
  {
    var hi, lo := Surrogates(n);
    PairIsScanned(hi, lo, n, rest);
  }

  lemma PairIsScanned(hi: nat, lo: nat, n: nat, rest: string)
    requires HighSurrogate(hi) && LowSurrogate(lo)
    requires 0x10000 <= n < 0x110000 && n == 0x10000 + (hi - 0xD800) * 1024 + (lo - 0xDC00)
    ensures ScanChar(UnicodeEscape(hi) + UnicodeEscape(lo) + rest) == Got(n as char, rest)
  {
    PairRoundTrip(hi, lo, rest);
    var tail := Hex4(hi) + UnicodeEscape(lo) + rest;
    EscapedUnicode(tail);
    assert UnicodeEscape(hi) + UnicodeEscape(lo) + rest == ['\\', 'u'] + tail;
  }

  // What spells a character after a backslash and a "u": its code, or the two halves of it.
  ghost predicate Spells(t: string, c: char) {
    || (|t| == 4 && Unhex4(t) == Some(c as int))
    || (|t| == 10 && t[4..6] == "\\u" && Unhex4(t[..4]).Some? && Unhex4(t[6..]).Some?
        && var hi, lo := Unhex4(t[..4]).value, Unhex4(t[6..]).value;
           && 0xD800 <= hi < 0xDC00 <= lo < 0xE000
           && c as int == 0x10000 + (hi - 0xD800) * 0x400 + (lo - 0xDC00))
  }

  // A character is read exactly if what comes first spells it.
  lemma UnicodeExactly(s: string, c: char, rest: string)
    ensures ScanUnicode(s) == Got(c, rest) <==> exists t :: s == t + rest && Spells(t, c)
  {
    if ScanUnicode(s) == Got(c, rest) {
      var t := ReadIsSpelled(s);
      assert s == t + rest && Spells(t, c);
    }
    if t :| s == t + rest && Spells(t, c) { SpelledIsRead(t, c, rest); }
  }

  lemma ReadIsSpelled(s: string) returns (t: string)
    requires ScanUnicode(s).Got?
    ensures s == t + ScanUnicode(s).rest && Spells(t, ScanUnicode(s).value)
  {
    FirstFour(s);
    if HighSurrogate(Unhex4(s).value) {
      t := s[..10];
      FirstFour(s[6..]);
      assert s[6..][..4] == t[6..] && t[..4] == s[..4];
    } else {
      t := s[..4];
    }
  }

  lemma SpelledIsRead(t: string, c: char, rest: string)
    requires Spells(t, c)
    ensures ScanUnicode(t + rest) == Got(c, rest)
  {
    var s := t + rest;
    if |t| == 4 {
      FirstFour(s);
      assert s[..4] == t && s[4..] == rest;
    } else {
      PairIsRead(t, s);
      PairIsScannedTo(s, c);
      assert s[10..] == rest;
    }
  }

  lemma PairIsScannedTo(s: string, c: char)
    requires |s| >= 10 && s[4] == '\\' && s[5] == 'u' && Unhex4(s).Some? && Unhex4(s[6..]).Some?
    requires HighSurrogate(Unhex4(s).value) && LowSurrogate(Unhex4(s[6..]).value)
    requires c as int == 0x10000 + (Unhex4(s).value - 0xD800) * 0x400 + (Unhex4(s[6..]).value - 0xDC00)
    ensures ScanUnicode(s) == Got(c, s[10..])
  {
  }

  lemma PairIsRead(t: string, s: string)
    requires |t| == 10 && t <= s && t[4..6] == "\\u"
    ensures s[4] == '\\' && s[5] == 'u'
    ensures Unhex4(s) == Unhex4(t[..4]) && Unhex4(s[6..]) == Unhex4(t[6..])
  {
    FirstFour(s);
    FirstFour(s[6..]);
    assert s[..4] == t[..4] && s[6..][..4] == t[6..];
    assert s[4] == t[4..6][0] && s[5] == t[4..6][1];
  }

  lemma FirstFour(s: string)
    ensures |s| >= 4 ==> Unhex4(s) == Unhex4(s[..4]) && s[..4] + s[4..] == s
  {
  }

  lemma EscapedUnicode(tail: string)
    ensures ScanChar(['\\', 'u'] + tail) == ScanUnicode(tail)
  {
    var s := ['\\', 'u'] + tail;
    assert s[1..] == ['u'] + tail && s[1..][1..] == tail;
  }

  lemma NarrowRoundTrip(c: char, rest: string)
    requires c as int < 0x10000
    ensures Unhex4(Hex4(c as int) + rest) == Some(c as int)
    ensures ScanChar(UnicodeEscape(c as int) + rest) == Got(c, rest)
  {
    var n := c as int;
    HexRoundTrip(n, rest);
    EscapedUnicode(Hex4(n) + rest);
    assert UnicodeEscape(n) + rest == ['\\', 'u'] + (Hex4(n) + rest);
    assert (Hex4(n) + rest)[4..] == rest;
  }

  lemma ShortRoundTrip(c: char, rest: string)
    requires Short(c).Some?
    ensures ScanChar(['\\', Short(c).value] + rest) == Got(c, rest)
  {
    var s := ['\\', Short(c).value] + rest;
    assert s[1..][0] == Short(c).value && s[1..][1..] == rest;
  }

  lemma PlainRoundTrip(c: char, rest: string)
    requires Short(c).None? && 32 <= c as int <= 126
    ensures ScanChar([c] + rest) == Got(c, rest) && c != '"'
  {
    assert ([c] + rest)[1..] == rest;
  }

  // Whatever the character, its escape reads back as it.
  lemma CharRoundTrip(c: char, rest: string)
    ensures EscapeChar(c) != "" && EscapeChar(c)[0] != '"'
    ensures ScanChar(EscapeChar(c) + rest) == Got(c, rest)
  {
    if Short(c).Some? {
      ShortRoundTrip(c, rest);
    } else if 32 <= c as int <= 126 {
      PlainRoundTrip(c, rest);
    } else if (c as int) < 0x10000 {
      NarrowRoundTrip(c, rest);
    } else {
      WideRoundTrip(c as int, rest);
    }
  }

  // How each character is written: quotes, backslashes and the common controls by two characters, other
  // printable ASCII as it is, and the rest by its code in lower-case hexadecimal, in two halves if it
  // lies beyond the basic plane. So a text is ASCII, and as many bytes as characters.
  lemma EscapeIs(c: char)
    ensures c in "\"\\" ==> EscapeChar(c) == ['\\', c]
    ensures c == '\n' ==> EscapeChar(c) == ['\\', 'n']
    ensures c == '\r' ==> EscapeChar(c) == ['\\', 'r']
    ensures c == '\t' ==> EscapeChar(c) == ['\\', 't']
    ensures c as int == 8 ==> EscapeChar(c) == ['\\', 'b']
    ensures c as int == 12 ==> EscapeChar(c) == ['\\', 'f']
    ensures ' ' <= c <= '~' && c !in "\"\\" ==> EscapeChar(c) == [c]
    ensures forall d | d in EscapeChar(c) :: ' ' <= d <= '~'
    ensures c > '~' ==>
      && |EscapeChar(c)| == (if c as int < 0x10000 then 6 else 12)
      && EscapeChar(c)[0] == '\\' && EscapeChar(c)[1] == 'u'
      && forall d | d in EscapeChar(c) :: !('A' <= d <= 'Z')
  {
    if c > '~' && c as int < 0x10000 { HexIsPlain(c as int); }
    if c as int >= 0x10000 { PairIsPlain(c as int); }
    if c as int < 32 { HexIsPlain(c as int); }
  }

  lemma HexIsPlain(n: nat)
    requires n < 0x10000
    ensures |UnicodeEscape(n)| == 6
    ensures forall d | d in UnicodeEscape(n) :: ' ' <= d <= '~' && !('A' <= d <= 'Z')
  {
  }

  lemma PairIsPlain(n: nat)
    requires 0x10000 <= n < 0x110000
    ensures |PairEscape(n)| == 12 && PairEscape(n)[0] == '\\' && PairEscape(n)[1] == 'u'
    ensures forall d | d in PairEscape(n) :: ' ' <= d <= '~' && !('A' <= d <= 'Z')
  {
    HexIsPlain(0xD800 + (n - 0x10000) / 1024);
    HexIsPlain(0xDC00 + (n - 0x10000) % 1024);
  }

  // ----- Strings -----

  function EscapeWith(escape: char -> string, s: string): string {
    if s == "" then "" else escape(s[0]) + EscapeWith(escape, s[1..])
  }

  function Escape(s: string): string {
    EscapeWith(EscapeChar, s)
  }

  function Quote(s: string): string {
    ['"'] + Escape(s) + ['"']
  }

  // After the opening quote.
  function ScanString(s: string): (r: Scanned<string>)
    ensures r.Got? ==> |r.rest| < |s|
    decreases |s|
  {
    if s == "" then Malformed
    else if s[0] == '"' then Got("", s[1..])
    else
      match ScanChar(s)
      case Malformed => Malformed
      case Got(c, rest) =>
        match ScanString(rest)
        case Malformed => Malformed
        case Got(t, rest') => Got([c] + t, rest')
  }

  // One escape, and then the rest of the string.
  lemma EscapeIsRead(escape: string, tail: string, c: char, t: string, rest: string)
    requires escape != "" && escape[0] != '"'
    requires ScanChar(escape + tail) == Got(c, tail) && ScanString(tail) == Got(t, rest)
    ensures ScanString(escape + tail) == Got([c] + t, rest)
  {
    assert (escape + tail)[0] == escape[0];
  }

  lemma EndIsRead(rest: string)
    ensures ScanString(['"'] + rest) == Got("", rest)
  {
    assert (['"'] + rest)[1..] == rest;
  }

  // An escaping of single characters that reads back.
  ghost predicate ReadsBack(escape: char -> string) {
    forall c, tail {:trigger ScanChar(escape(c) + tail)} ::
      escape(c) != "" && escape(c)[0] != '"' && ScanChar(escape(c) + tail) == Got(c, tail)
  }

  lemma EscapeReads(escape: char -> string, c: char, tail: string)
    requires ReadsBack(escape)
    ensures escape(c) != "" && escape(c)[0] != '"' && ScanChar(escape(c) + tail) == Got(c, tail)
  {
    assert ScanChar(escape(c) + tail) == Got(c, tail);
  }

  lemma Regroup(a: string, b: string, c: string)
    ensures (a + b) + c == a + (b + c)
  {
  }

  lemma {:induction false} EscapedReadsBack(escape: char -> string, s: string, rest: string)
    requires ReadsBack(escape)
    ensures ScanString(EscapeWith(escape, s) + (['"'] + rest)) == Got(s, rest)
  {
    if s == "" {
      EndIsRead(rest);
      assert EscapeWith(escape, s) + (['"'] + rest) == ['"'] + rest;
    } else {
      var first, later := escape(s[0]), EscapeWith(escape, s[1..]);
      EscapedReadsBack(escape, s[1..], rest);
      EscapeReads(escape, s[0], later + (['"'] + rest));
      EscapeIsRead(first, later + (['"'] + rest), s[0], s[1..], rest);
      assert EscapeWith(escape, s) == first + later;
      Regroup(first, later, ['"'] + rest);
      assert [s[0]] + s[1..] == s;
    }
  }

  lemma StringRoundTrip(s: string, rest: string)
    ensures ScanString(Escape(s) + (['"'] + rest)) == Got(s, rest)
  {
    var escape: char -> string := EscapeChar;
    forall c, tail
      ensures escape(c) != "" && escape(c)[0] != '"' && ScanChar(escape(c) + tail) == Got(c, tail)
    {
      CharRoundTrip(c, tail);
    }
    assert ReadsBack(escape);
    EscapedReadsBack(escape, s, rest);
  }

  // ----- Printing -----

  function Print(v: Value): string
    decreases v
  {
    match v
    case Null => "null"
    case Str(text) => Quote(text)
    case Arr(items) => ['['] + Join(ItemTexts(items), ',') + [']']
    case Obj(members) => ['{'] + Join(MemberTexts(members), ',') + ['}']
  }

  function ItemTexts(items: seq<Value>): (texts: seq<string>)
    ensures |texts| == |items|
    ensures forall i | 0 <= i < |items| :: texts[i] == Print(items[i])
    decreases items
  {
    if items == [] then [] else [Print(items[0])] + ItemTexts(items[1..])
  }

  function PrintMember(m: Member): string
    decreases m
  {
    Quote(m.key) + [':'] + Print(m.value)
  }

  function MemberTexts(members: seq<Member>): (texts: seq<string>)
    ensures |texts| == |members|
    ensures forall i | 0 <= i < |members| :: texts[i] == PrintMember(members[i])
    decreases members
  {
    if members == [] then [] else [PrintMember(members[0])] + MemberTexts(members[1..])
  }

  // ----- Texts are ASCII -----

  ghost predicate Ascii(s: string) {
    forall c | c in s :: ' ' <= c <= '~'
  }

  lemma {:induction false} EscapedIsAscii(s: string)
    ensures Ascii(Escape(s))
  {
    if s != "" {
      EscapeIs(s[0]);
      EscapedIsAscii(s[1..]);
      assert Escape(s) == EscapeChar(s[0]) + Escape(s[1..]);
    }
  }

  lemma {:induction false} JoinedIsAscii(texts: seq<string>)
    requires forall i | 0 <= i < |texts| :: Ascii(texts[i])
    ensures Ascii(Join(texts, ','))
  {
    if |texts| > 1 { JoinedIsAscii(texts[1..]); }
  }

  // A printed value is ASCII, so that it has as many bytes as characters.
  lemma {:induction false} PrintedIsAscii(v: Value)
    ensures Ascii(Print(v))
    decreases v
  {
    match v
    case Null =>
    case Str(text) => EscapedIsAscii(text);
    case Arr(items) =>
      forall i | 0 <= i < |items| ensures Ascii(ItemTexts(items)[i]) { PrintedIsAscii(items[i]); }
      JoinedIsAscii(ItemTexts(items));
    case Obj(members) =>
      forall i | 0 <= i < |members| ensures Ascii(MemberTexts(members)[i]) {
        EscapedIsAscii(members[i].key);
        PrintedIsAscii(members[i].value);
      }
      JoinedIsAscii(MemberTexts(members));
  }

  // ----- Reading -----

  // The member is put among later ones; a later one of the same key stands.
  function Put(m: Member, later: seq<Member>): seq<Member> {
    if later == [] || Less(m.key, later[0].key) then [m] + later
    else if m.key == later[0].key then later
    else [later[0]] + Put(m, later[1..])
  }

  lemma {:induction false} LaterStands(m: Member, later: seq<Member>)
    requires SortedKeys(later)
    ensures SortedKeys(Put(m, later))
    ensures forall x :: x in Put(m, later) <==> x in later || (x == m && forall y | y in later :: y.key != m.key)
  {
    if later != [] {
      var rest := later[1..];
      LessTotal(m.key, later[0].key);
      if Less(m.key, later[0].key) {
        forall i | 0 < i < |later| ensures Less(m.key, later[i].key) {
          LessTransitive(m.key, later[0].key, later[i].key);
        }
        forall y | y in later ensures y.key != m.key { LessTotal(m.key, y.key); }
      } else if m.key != later[0].key {
        LaterStands(m, rest);
        assert forall x :: x in later <==> x == later[0] || x in rest;
        assert forall y | y in Put(m, rest) :: Less(later[0].key, y.key);
      }
    }
  }

  function ReadValue(s: string): (r: Scanned<Value>)
    ensures r.Got? ==> |r.rest| < |s|
    decreases |s|, 0
  {
    if s == "" then Malformed
    else if s[0] == '"' then
      match ScanString(s[1..])
      case Malformed => Malformed
      case Got(text, rest) => Got(Str(text), rest)
    else if s[0] == '[' then
      if |s| >= 2 && s[1] == ']' then Got(Arr([]), s[2..]) else
      match ReadItems(s[1..])
      case Malformed => Malformed
      case Got(items, rest) => Got(Arr(items), rest)
    else if s[0] == '{' then
      if |s| >= 2 && s[1] == '}' then Got(Obj([]), s[2..]) else
      match ReadMembers(s[1..])
      case Malformed => Malformed
      case Got(members, rest) => Got(Obj(members), rest)
    else if |s| >= 4 && s[..4] == "null" then Got(Null, s[4..])
    else Malformed
  }

  // One or more items, up to and including the closing bracket.
  function ReadItems(s: string): (r: Scanned<seq<Value>>)
    ensures r.Got? ==> |r.rest| < |s|
    decreases |s|, 1
  {
    match ReadValue(s)
    case Malformed => Malformed
    case Got(v, rest) =>
      if rest == "" then Malformed
      else if rest[0] == ']' then Got([v], rest[1..])
      else if rest[0] == ',' then
        match ReadItems(rest[1..])
        case Malformed => Malformed
        case Got(items, rest') => Got([v] + items, rest')
      else Malformed
  }

  function ReadMember(s: string): (r: Scanned<Member>)
    ensures r.Got? ==> |r.rest| < |s|
    decreases |s|, 1
  {
    if s == "" || s[0] != '"' then Malformed else
    match ScanString(s[1..])
    case Malformed => Malformed
    case Got(key, rest) =>
      if rest == "" || rest[0] != ':' then Malformed else
      match ReadValue(rest[1..])
      case Malformed => Malformed
      case Got(v, rest') => Got(Member(key, v), rest')
  }

  function ReadMembers(s: string): (r: Scanned<seq<Member>>)
    ensures r.Got? ==> |r.rest| < |s|
    decreases |s|, 2
  {
    match ReadMember(s)
    case Malformed => Malformed
    case Got(m, rest) =>
      if rest == "" then Malformed
      else if rest[0] == '}' then Got([m], rest[1..])
      else if rest[0] == ',' then
        match ReadMembers(rest[1..])
        case Malformed => Malformed
        case Got(members, rest') => Got(Put(m, members), rest')
      else Malformed
  }

  // The whole text is one value.
  function Parse(s: string): Option<Value> {
    match ReadValue(s)
    case Malformed => None
    case Got(v, rest) => if rest == "" then Some(v) else None
  }

  // Whatever is read is well-formed: its keys are in order, and each occurs once.
  lemma {:induction false} ReadIsWellFormed(s: string)
    ensures ReadValue(s).Got? ==> WellFormed(ReadValue(s).value)
    decreases |s|, 0
  {
    if |s| >= 2 && s[0] == '[' && s[1] != ']' { ItemsAreWellFormed(s[1..]); }
    if |s| >= 2 && s[0] == '{' && s[1] != '}' { MembersAreWellFormed(s[1..]); }
  }

  lemma {:induction false} ItemsAreWellFormed(s: string)
    ensures ReadItems(s).Got? ==> forall i | 0 <= i < |ReadItems(s).value| :: WellFormed(ReadItems(s).value[i])
    decreases |s|, 1
  {
    ReadIsWellFormed(s);
    if ReadValue(s).Got? && ReadValue(s).rest != "" { ItemsAreWellFormed(ReadValue(s).rest[1..]); }
  }

  lemma MemberIsWellFormed(s: string)
    ensures ReadMember(s).Got? ==> WellFormed(ReadMember(s).value.value)
    decreases |s|, 1
  {
    if ReadMember(s).Got? { ReadIsWellFormed(ScanString(s[1..]).rest[1..]); }
  }

  lemma {:induction false} MembersAreWellFormed(s: string)
    ensures ReadMembers(s).Got? ==>
      SortedKeys(ReadMembers(s).value) && forall m | m in ReadMembers(s).value :: WellFormed(m.value)
    decreases |s|, 2
  {
    MemberIsWellFormed(s);
    if ReadMember(s).Got? && ReadMember(s).rest != "" {
      var m, rest := ReadMember(s).value, ReadMember(s).rest[1..];
      MembersAreWellFormed(rest);
      if ReadMembers(rest).Got? { LaterStands(m, ReadMembers(rest).value); }
    }
  }

  // ----- Round trip -----

  lemma NullIsRead(rest: string)
    ensures ReadValue("null" + rest) == Got(Null, rest)
  {
    assert ("null" + rest)[..4] == "null" && ("null" + rest)[4..] == rest;
  }

  lemma TextIsRead(tail: string, text: string, rest: string)
    requires ScanString(tail) == Got(text, rest)
    ensures ReadValue(['"'] + tail) == Got(Str(text), rest)
  {
    assert (['"'] + tail)[1..] == tail;
  }

  lemma QuoteRegroups(escaped: string, rest: string)
    ensures ['"'] + escaped + ['"'] + rest == ['"'] + (escaped + (['"'] + rest))
  {
  }

  // Texts that read as the items, whatever follows them.
  ghost predicate ItemsRead(texts: seq<string>, items: seq<Value>) {
    && |texts| == |items|
    && forall i, rest {:trigger ReadValue(texts[i] + rest)} | 0 <= i < |texts| ::
         texts[i] != "" && texts[i][0] != ']' && ReadValue(texts[i] + rest) == Got(items[i], rest)
  }

  lemma OneItemIsRead(text: string, v: Value, rest: string)
    requires ReadValue(text + ([']'] + rest)) == Got(v, [']'] + rest)
    ensures ReadItems(text + ([']'] + rest)) == Got([v], rest)
  {
    assert ([']'] + rest)[1..] == rest;
  }

  lemma MoreItemsAreRead(text: string, v: Value, tail: string, items: seq<Value>, rest: string)
    requires ReadValue(text + ([','] + tail)) == Got(v, [','] + tail) && ReadItems(tail) == Got(items, rest)
    ensures ReadItems(text + ([','] + tail)) == Got([v] + items, rest)
  {
    assert ([','] + tail)[1..] == tail;
  }

  lemma CommaRegroups(first: string, others: string, close: char, rest: string)
    ensures first + [','] + others + [close] + rest == first + ([','] + (others + [close] + rest))
  {
  }

  lemma CloseRegroups(first: string, close: char, rest: string)
    ensures first + [close] + rest == first + ([close] + rest)
  {
  }

  lemma {:induction false} ItemsRoundTrip(texts: seq<string>, items: seq<Value>, rest: string)
    requires items != [] && ItemsRead(texts, items)
    ensures ReadItems(Join(texts, ',') + [']'] + rest) == Got(items, rest)
    decreases |items|
  {
    if |items| == 1 {
      CloseRegroups(texts[0], ']', rest);
      assert ReadValue(texts[0] + ([']'] + rest)) == Got(items[0], [']'] + rest);
      OneItemIsRead(texts[0], items[0], rest);
      assert [items[0]] == items;
    } else {
      var others := Join(texts[1..], ',');
      var tail := others + [']'] + rest;
      ItemsTail(texts, items);
      ItemsRoundTrip(texts[1..], items[1..], rest);
      assert ReadValue(texts[0] + ([','] + tail)) == Got(items[0], [','] + tail);
      MoreItemsAreRead(texts[0], items[0], tail, items[1..], rest);
      CommaRegroups(texts[0], others, ']', rest);
      assert [items[0]] + items[1..] == items;
    }
  }

  lemma ItemsTail(texts: seq<string>, items: seq<Value>)
    requires items != [] && ItemsRead(texts, items)
    ensures ItemsRead(texts[1..], items[1..])
  {
    forall i, rest | 0 <= i < |texts[1..]|
      ensures texts[1..][i] != "" && texts[1..][i][0] != ']'
      ensures ReadValue(texts[1..][i] + rest) == Got(items[1..][i], rest)
    {
      assert texts[1..][i] == texts[i + 1];
      assert ReadValue(texts[i + 1] + rest) == Got(items[i + 1], rest);
    }
  }

  // Texts that read as the members, whatever follows them.
  ghost predicate MembersRead(texts: seq<string>, members: seq<Member>) {
    && |texts| == |members|
    && forall i, rest {:trigger ReadMember(texts[i] + rest)} | 0 <= i < |texts| ::
         texts[i] != "" && texts[i][0] != '}' && ReadMember(texts[i] + rest) == Got(members[i], rest)
  }

  lemma OneMemberIsRead(text: string, m: Member, rest: string)
    requires ReadMember(text + (['}'] + rest)) == Got(m, ['}'] + rest)
    ensures ReadMembers(text + (['}'] + rest)) == Got([m], rest)
  {
    assert (['}'] + rest)[1..] == rest;
  }

  lemma MoreMembersAreRead(text: string, m: Member, tail: string, later: seq<Member>, rest: string)
    requires ReadMember(text + ([','] + tail)) == Got(m, [','] + tail) && ReadMembers(tail) == Got(later, rest)
    requires later != [] && Less(m.key, later[0].key)
    ensures ReadMembers(text + ([','] + tail)) == Got([m] + later, rest)
  {
    assert ([','] + tail)[1..] == tail;
  }

  lemma {:induction false} MembersRoundTrip(texts: seq<string>, members: seq<Member>, rest: string)
    requires members != [] && MembersRead(texts, members) && SortedKeys(members)
    ensures ReadMembers(Join(texts, ',') + ['}'] + rest) == Got(members, rest)
    decreases |members|
  {
    if |members| == 1 {
      CloseRegroups(texts[0], '}', rest);
      assert ReadMember(texts[0] + (['}'] + rest)) == Got(members[0], ['}'] + rest);
      OneMemberIsRead(texts[0], members[0], rest);
      assert [members[0]] == members;
    } else {
      var others := Join(texts[1..], ',');
      var tail := others + ['}'] + rest;
      MembersTail(texts, members);
      MembersRoundTrip(texts[1..], members[1..], rest);
      assert ReadMember(texts[0] + ([','] + tail)) == Got(members[0], [','] + tail);
      MoreMembersAreRead(texts[0], members[0], tail, members[1..], rest);
      CommaRegroups(texts[0], others, '}', rest);
      assert [members[0]] + members[1..] == members;
    }
  }

  lemma MembersTail(texts: seq<string>, members: seq<Member>)
    requires members != [] && MembersRead(texts, members) && SortedKeys(members)
    ensures MembersRead(texts[1..], members[1..]) && SortedKeys(members[1..])
  {
    forall i, rest | 0 <= i < |texts[1..]|
      ensures texts[1..][i] != "" && texts[1..][i][0] != '}'
      ensures ReadMember(texts[1..][i] + rest) == Got(members[1..][i], rest)
    {
      assert texts[1..][i] == texts[i + 1];
      assert ReadMember(texts[i + 1] + rest) == Got(members[i + 1], rest);
    }
  }

  lemma EmptyIsRead(rest: string)
    ensures ReadValue(['[', ']'] + rest) == Got(Arr([]), rest)
    ensures ReadValue(['{', '}'] + rest) == Got(Obj([]), rest)
  {
    var a, o := ['[', ']'] + rest, ['{', '}'] + rest;
    assert a[0] == '[' && a[1] == ']' && a[2..] == rest;
    assert o[0] == '{' && o[1] == '}' && o[2..] == rest;
  }

  lemma BracketIsRead(body: string, items: seq<Value>, rest: string)
    requires body != "" && body[0] != ']' && ReadItems(body + [']'] + rest) == Got(items, rest)
    ensures ReadValue(['['] + body + [']'] + rest) == Got(Arr(items), rest)
  {
    var s := ['['] + body + [']'] + rest;
    assert s[1] == body[0] && s[1..] == body + [']'] + rest;
  }

  lemma BraceIsRead(body: string, members: seq<Member>, rest: string)
    requires body != "" && body[0] != '}' && ReadMembers(body + ['}'] + rest) == Got(members, rest)
    ensures ReadValue(['{'] + body + ['}'] + rest) == Got(Obj(members), rest)
  {
    var s := ['{'] + body + ['}'] + rest;
    assert s[1] == body[0] && s[1..] == body + ['}'] + rest;
  }

  lemma EmptyRegroups(rest: string)
    ensures ['['] + Join([], ',') + [']'] + rest == ['[', ']'] + rest
    ensures ['{'] + Join([], ',') + ['}'] + rest == ['{', '}'] + rest
  {
  }

  lemma JoinStart(texts: seq<string>)
    requires texts != [] && texts[0] != ""
    ensures Join(texts, ',') != "" && Join(texts, ',')[0] == texts[0][0]
  {
  }

  lemma BracketedRoundTrip(texts: seq<string>, items: seq<Value>, rest: string)
    requires ItemsRead(texts, items)
    ensures ReadValue(['['] + Join(texts, ',') + [']'] + rest) == Got(Arr(items), rest)
  {
    if items == [] {
      EmptyIsRead(rest);
      EmptyRegroups(rest);
    } else {
      ItemsRoundTrip(texts, items, rest);
      assert ReadValue(texts[0] + rest) == Got(items[0], rest);
      JoinStart(texts);
      BracketIsRead(Join(texts, ','), items, rest);
    }
  }

  lemma BracedRoundTrip(texts: seq<string>, members: seq<Member>, rest: string)
    requires MembersRead(texts, members) && SortedKeys(members)
    ensures ReadValue(['{'] + Join(texts, ',') + ['}'] + rest) == Got(Obj(members), rest)
  {
    if members == [] {
      EmptyIsRead(rest);
      EmptyRegroups(rest);
    } else {
      MembersRoundTrip(texts, members, rest);
      assert ReadMember(texts[0] + rest) == Got(members[0], rest);
      JoinStart(texts);
      BraceIsRead(Join(texts, ','), members, rest);
    }
  }

  lemma MemberIsRead(tail: string, key: string, text: string, v: Value, rest: string)
    requires ScanString(tail) == Got(key, [':'] + text) && ReadValue(text) == Got(v, rest)
    ensures ReadMember(['"'] + tail) == Got(Member(key, v), rest)
  {
    assert (['"'] + tail)[1..] == tail && ([':'] + text)[1..] == text;
  }

  lemma MemberRegroups(escaped: string, text: string, rest: string)
    ensures ['"'] + escaped + ['"'] + [':'] + text + rest == ['"'] + (escaped + (['"'] + ([':'] + (text + rest))))
  {
  }

  lemma PrintedStart(v: Value)
    ensures Print(v) != "" && Print(v)[0] in {'n', '"', '[', '{'}
  {
  }

  lemma {:induction false} ValueRoundTrip(v: Value, rest: string)
    requires WellFormed(v)
    ensures ReadValue(Print(v) + rest) == Got(v, rest)
    decreases v
  {
    match v
    case Null => NullIsRead(rest);
    case Str(text) =>
      StringRoundTrip(text, rest);
      TextIsRead(Escape(text) + (['"'] + rest), text, rest);
      QuoteRegroups(Escape(text), rest);
    case Arr(items) =>
      ItemTextsRead(items);
      BracketedRoundTrip(ItemTexts(items), items, rest);
    case Obj(members) =>
      MemberTextsRead(members);
      BracedRoundTrip(MemberTexts(members), members, rest);
  }

  lemma {:induction false} ItemTextsRead(items: seq<Value>)
    requires forall i | 0 <= i < |items| :: WellFormed(items[i])
    ensures ItemsRead(ItemTexts(items), items)
    decreases items
  {
    var texts := ItemTexts(items);
    forall i, rest | 0 <= i < |texts|
      ensures texts[i] != "" && texts[i][0] != ']'
      ensures ReadValue(texts[i] + rest) == Got(items[i], rest)
    {
      PrintedStart(items[i]);
      ValueRoundTrip(items[i], rest);
    }
  }

  lemma {:induction false} MemberRoundTrip(m: Member, rest: string)
    requires WellFormed(m.value)
    ensures ReadMember(PrintMember(m) + rest) == Got(m, rest)
    decreases m
  {
    var text := Print(m.value) + rest;
    StringRoundTrip(m.key, [':'] + text);
    ValueRoundTrip(m.value, rest);
    MemberIsRead(Escape(m.key) + (['"'] + ([':'] + text)), m.key, text, m.value, rest);
    MemberRegroups(Escape(m.key), Print(m.value), rest);
  }

  lemma {:induction false} MemberTextsRead(members: seq<Member>)
    requires forall i | 0 <= i < |members| :: WellFormed(members[i].value)
    ensures MembersRead(MemberTexts(members), members)
    decreases members
  {
    var texts := MemberTexts(members);
    forall i, rest | 0 <= i < |texts|
      ensures texts[i] != "" && texts[i][0] != '}'
      ensures ReadMember(texts[i] + rest) == Got(members[i], rest)
    {
      MemberRoundTrip(members[i], rest);
    }
  }

  // What is printed reads back as what was printed, so different values have different texts.
  lemma ParsePrint(v: Value)
    requires WellFormed(v)
    ensures Parse(Print(v)) == Some(v)
  {
    ValueRoundTrip(v, "");
    assert Print(v) + "" == Print(v);
  }
}
