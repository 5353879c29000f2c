// Strings of a canonical document: the ASCII escaping of json.dumps and its reading back (section 7 of RFC 8259).
module Text {
  import opened Types

  /** A Python string is a sequence of code points, which may include lone surrogates. */
  type CodePoint = n: nat | n < 0x110000

  type Text = seq<CodePoint>

  predicate High(c: CodePoint) { 0xD800 <= c <= 0xDBFF }

  predicate Low(c: CodePoint) { 0xDC00 <= c <= 0xDFFF }

  function Combine(hi: CodePoint, lo: CodePoint): CodePoint
    requires High(hi) && Low(lo)
  {
    0x10000 + (hi - 0xD800) * 0x400 + (lo - 0xDC00)
  }

  function HighOf(c: CodePoint): (r: CodePoint)
    requires c >= 0x10000
    ensures High(r)
  {
    0xD800 + (c - 0x10000) / 0x400
  }

  function LowOf(c: CodePoint): (r: CodePoint)
    requires c >= 0x10000
    ensures Low(r)
  {
    0xDC00 + (c - 0x10000) % 0x400
  }

  // ------------------------------------------------------------ escaping

  function HexDigit(d: nat): char
    requires d < 16
  {
    if d < 10 then ('0' as int + d) as char else ('a' as int + d - 10) as char
  }

  function HexValue(c: char): Option<nat> {
    if '0' <= c <= '9' then Some(c as int - '0' as int)
    else if 'a' <= c <= 'f' then Some(c as int - 'a' as int + 10)
    else None
  }

  /** Backslash, u and four hexadecimal digits. */
  function Four(a: nat, b: nat, c: nat, d: nat): (r: string)
    requires a < 16 && b < 16 && c < 16 && d < 16
    ensures |r| == 6
  {
    ['\\', 'u', HexDigit(a), HexDigit(b), HexDigit(c), HexDigit(d)]
  }

  function Unit(u: nat): (r: string)
    requires u < 0x10000
    ensures |r| == 6
  {
    Four(u / 4096, u / 256 % 16, u / 16 % 16, u % 16)
  }

  /** The two-character escapes. */
  function Short(c: CodePoint): Option<char> {
    if c == 0x22 then Some('"')
    else if c == 0x5C then Some('\\')
    else if c == 0x08 then Some('b')
    else if c == 0x0C then Some('f')
    else if c == 0x0A then Some('n')
    else if c == 0x0D then Some('r')
    else if c == 0x09 then Some('t')
    else None
  }

  function EscapeOne(c: CodePoint): (r: string)
    ensures 0 < |r|
  {
    if Short(c).Some? then ['\\', Short(c).value]
    else if 0x20 <= c <= 0x7E then [c as char]
    else if c < 0x10000 then Unit(c)
    else Unit(HighOf(c)) + Unit(LowOf(c))
  }

  function Escape(s: Text): string {
    if s == [] then "" else EscapeOne(s[0]) + Escape(s[1..])
  }

  // ------------------------------------------------------------ reading back

  function Unshort(c: char): Option<CodePoint> {
    if c == '"' then Some(0x22)
    else if c == '\\' then Some(0x5C)
    else if c == 'b' then Some(0x08)
    else if c == 'f' then Some(0x0C)
    else if c == 'n' then Some(0x0A)
    else if c == 'r' then Some(0x0D)
    else if c == 't' then Some(0x09)
    else None
  }

  /** The code unit written as \uXXXX at the start of s. */
  function ReadUnit(s: string): (r: Option<CodePoint>)
    ensures r.Some? ==> |s| >= 6 && r.value < 0x10000
  {
    if |s| >= 6 && s[0] == '\\' && s[1] == 'u' then
      var a, b, c, d := HexValue(s[2]), HexValue(s[3]), HexValue(s[4]), HexValue(s[5]);
      if a.Some? && b.Some? && c.Some? && d.Some? then
        Some(((a.value * 16 + b.value) * 16 + c.value) * 16 + d.value)
      else None
    else None
  }

  /** One character of a string: its code point and how much text it took; a surrogate pair reads as one. */
  function ReadOne(s: string): (r: Option<(CodePoint, nat)>)
    ensures r.Some? ==> 0 < r.value.1 <= |s|
  {
    if s == "" || s[0] == '"' then None
    else if s[0] != '\\' then Some((s[0] as int, 1))
    else if |s| < 2 then None
    else if s[1] != 'u' then
      if Unshort(s[1]).Some? then Some((Unshort(s[1]).value, 2)) else None
    else
      var u := ReadUnit(s);
      if u.None? then None
      else
        var v := ReadUnit(s[6..]);
        if High(u.value) && v.Some? && Low(v.value) then Some((Combine(u.value, v.value), 12)) else Some((u.value, 6))
  }

  /** The text up to the closing quote, and what follows the quote. */
  function ReadText(s: string): (r: Option<(Text, string)>)
    ensures r.Some? ==> |r.value.1| < |s|
    decreases |s|
  {
    if s == "" then None
    else if s[0] == '"' then Some(([], s[1..]))
    else
      var one := ReadOne(s);
      if one.None? then None
      else
        var more := ReadText(s[one.value.1..]);
        if more.None? then None else Some(([one.value.0] + more.value.0, more.value.1))
  }

  // ------------------------------------------------------------ adjacent surrogates

  /** The text with every high surrogate directly before a low one replaced by the character the pair encodes. */
  function Joined(s: Text): Text {
    if s == [] then []
    else if |s| >= 2 && High(s[0]) && Low(s[1]) then [Combine(s[0], s[1])] + Joined(s[2..])
    else [s[0]] + Joined(s[1..])
  }

  /** No high surrogate stands directly before a low one. */
  predicate PairFree(s: Text) {
    forall i :: 0 <= i < |s| - 1 ==> !(High(s[i]) && Low(s[i + 1]))
  }

  lemma {:induction false} JoinedShorter(s: Text)
    ensures |Joined(s)| <= |s|
    ensures !PairFree(s) ==> |Joined(s)| < |s|
    ensures PairFree(s) ==> Joined(s) == s
  {
    if s != [] {
      if |s| >= 2 && High(s[0]) && Low(s[1]) {
        JoinedShorter(s[2..]);
      } else {
        JoinedShorter(s[1..]);
        if !PairFree(s) {
          var i :| 0 <= i < |s| - 1 && High(s[i]) && Low(s[i + 1]);
          assert High(s[1..][i - 1]) && Low(s[1..][i]);
        }
      }
    }
  }

  /** Joining changes a text exactly when it is not pair-free. */
  lemma JoinedIsIdentityIff(s: Text)
    ensures Joined(s) == s <==> PairFree(s)
  {
    JoinedShorter(s);
  }

  lemma HexRoundTrip(d: nat)
    requires d < 16
    ensures HexValue(HexDigit(d)) == Some(d)
  {
  }

  lemma FourRoundTrip(a: nat, b: nat, c: nat, d: nat, rest: string)
    requires a < 16 && b < 16 && c < 16 && d < 16
    ensures ReadUnit(Four(a, b, c, d) + rest) == Some(((a * 16 + b) * 16 + c) * 16 + d)
  {
    HexRoundTrip(a);
    HexRoundTrip(b);
    HexRoundTrip(c);
    HexRoundTrip(d);
    var s := Four(a, b, c, d) + rest;
    assert s[2] == HexDigit(a) && s[3] == HexDigit(b) && s[4] == HexDigit(c) && s[5] == HexDigit(d);
  }

  lemma HexDigitsOf(u: nat)
    requires u < 0x10000
    ensures ((u / 4096 * 16 + u / 256 % 16) * 16 + u / 16 % 16) * 16 + u % 16 == u
  {
  }

  lemma UnitRoundTrip(u: nat, rest: string)
    requires u < 0x10000
    ensures ReadUnit(Unit(u) + rest) == Some(u)
  {
    HexDigitsOf(u);
    FourRoundTrip(u / 4096, u / 256 % 16, u / 16 % 16, u % 16, rest);
  }

  /** No code unit starts where a character is written plainly or as a two-character escape. */
  lemma NoUnit(c: CodePoint, tail: string)
    requires Short(c).Some? || 0x20 <= c <= 0x7E
    ensures ReadUnit(EscapeOne(c) + tail) == None
  {
    var t := EscapeOne(c) + tail;
    if Short(c).Some? {
      assert t[0] == '\\' && t[1] == Short(c).value;
    } else {
      assert t[0] == c as char;
    }
  }

  /** The first code unit of any other character is the character, or the high half of its pair. */
  lemma FirstUnit(c: CodePoint, tail: string)
    requires Short(c).None? && !(0x20 <= c <= 0x7E)
    ensures ReadUnit(EscapeOne(c) + tail) == Some(if c < 0x10000 then c else HighOf(c))
  {
    if c < 0x10000 {
      UnitRoundTrip(c, tail);
    } else {
      Regroup2(Unit(HighOf(c)), Unit(LowOf(c)), tail);
      UnitRoundTrip(HighOf(c), Unit(LowOf(c)) + tail);
    }
  }

  lemma Regroup2(a: string, b: string, c: string)
    ensures (a + b) + c == a + (b + c)
  {
  }

  /** Text that follows an escaped character never starts with the escape of a low surrogate unless the text does. */
  lemma NextUnit(s: Text, rest: string)
    ensures var u := ReadUnit(Escape(s) + "\"" + rest);
            u.Some? && Low(u.value) ==> s != [] && s[0] == u.value
  {
    var t := Escape(s) + "\"" + rest;
    if s == [] {
      assert t[0] == '"';
    } else {
      Regroup(EscapeOne(s[0]), Escape(s[1..]), "\"", rest);
      if Short(s[0]).Some? || 0x20 <= s[0] <= 0x7E {
        NoUnit(s[0], Escape(s[1..]) + "\"" + rest);
      } else {
        FirstUnit(s[0], Escape(s[1..]) + "\"" + rest);
      }
    }
  }

  /** Reading one escaped character takes exactly its escape, unless it opens a surrogate pair with the next. */
  lemma ReadEscaped(c: CodePoint, s: Text, rest: string)
    requires !(High(c) && s != [] && Low(s[0]))
    ensures ReadOne(EscapeOne(c) + (Escape(s) + "\"" + rest)) == Some((c, |EscapeOne(c)|))
  {
    var tail := Escape(s) + "\"" + rest;
    var t := EscapeOne(c) + tail;
    if Short(c).Some? {
      assert t[0] == '\\' && t[1] == Short(c).value;
    } else if 0x20 <= c <= 0x7E {
      assert t[0] == c as char;
    } else if c < 0x10000 {
      UnitRoundTrip(c, tail);
      assert t[6..] == tail;
      NextUnit(s, rest);
    } else {
      var hi, lo := HighOf(c), LowOf(c);
      assert t == Unit(hi) + (Unit(lo) + tail);
      UnitRoundTrip(hi, Unit(lo) + tail);
      assert t[6..] == Unit(lo) + tail;
      UnitRoundTrip(lo, tail);
    }
  }

  lemma EscapeOfPair(s: Text)
    requires |s| >= 2 && High(s[0]) && Low(s[1])
    ensures Escape(s) == EscapeOne(Combine(s[0], s[1])) + Escape(s[2..])
  {
    Regroup2(EscapeOne(s[0]), EscapeOne(s[1]), Escape(s[2..]));
  }

  lemma Regroup(a: string, b: string, c: string, d: string)
    ensures (a + b) + c + d == a + (b + c + d)
  {
  }

  /** What is read back from any escaped text is the text with its surrogate pairs joined. */
  lemma {:induction false} TextRoundTrip(s: Text, rest: string)
    ensures ReadText(Escape(s) + "\"" + rest) == Some((Joined(s), rest))
    decreases |s|, 0
  {
    var t := Escape(s) + "\"" + rest;
    if s == [] {
      assert t[0] == '"' && t[1..] == rest;
    } else if |s| >= 2 && High(s[0]) && Low(s[1]) {
      EscapeOfPair(s);
      Regroup(EscapeOne(Combine(s[0], s[1])), Escape(s[2..]), "\"", rest);
      ReadFront(t, Combine(s[0], s[1]), s[2..], rest);
    } else {
      Regroup(EscapeOne(s[0]), Escape(s[1..]), "\"", rest);
      ReadFront(t, s[0], s[1..], rest);
    }
  }

  /** One step of the round trip. */
  lemma {:induction false} ReadFront(t: string, c: CodePoint, s: Text, rest: string)
    requires t == EscapeOne(c) + (Escape(s) + "\"" + rest)
    requires !(High(c) && s != [] && Low(s[0]))
    ensures ReadText(t) == Some(([c] + Joined(s), rest))
    decreases |s|, 1
  {
    var tail := Escape(s) + "\"" + rest;
    ReadEscaped(c, s, rest);
    TextRoundTrip(s, rest);
    assert t[|EscapeOne(c)|..] == tail;
  }

  /** Joining leaves the escaped form as it is. */
  lemma {:induction false} JoinedEscapesAlike(s: Text)
    ensures Escape(Joined(s)) == Escape(s)
    decreases |s|
  {
    if s == [] {
    } else if |s| >= 2 && High(s[0]) && Low(s[1]) {
      JoinedEscapesAlike(s[2..]);
      EscapeOfPair(s);
    } else {
      JoinedEscapesAlike(s[1..]);
    }
  }

}
