// JSON values, their compact printed form, and its reading back (sections 4 to 6 of RFC 8259).
module Json {
  import opened Types
  import opened Text

  /** A number is kept as the text json.dumps writes for it. An object keeps its members in dictionary order. */
  datatype Json = Null
                | Bool(b: bool)
                | Num(text: string)
                | Str(s: Text)
                | Arr(items: seq<Json>)
                | Obj(members: seq<Member>)

  datatype Member = Member(key: Text, value: Json)

  predicate NumChar(c: char) { '0' <= c <= '9' || c == '+' || c == '-' || c == '.' || c == 'e' || c == 'E' }

  /** A number's text is not empty, uses only number characters and starts with a digit or a minus sign. */
  predicate NumText(t: string) {
    t != "" && (forall i :: 0 <= i < |t| ==> NumChar(t[i])) && ('0' <= t[0] <= '9' || t[0] == '-')
  }

  ghost predicate DistinctKeys(ms: seq<Member>) {
    forall i, j :: 0 <= i < j < |ms| ==> ms[i].key != ms[j].key
  }

  /** Numbers are numbers and no dictionary has a key twice. */
  ghost predicate Valid(j: Json) {
    match j
    case Num(t) => NumText(t)
    case Arr(items) => forall i :: 0 <= i < |items| ==> Valid(items[i])
    case Obj(ms) => DistinctKeys(ms) && forall i :: 0 <= i < |ms| ==> Valid(ms[i].value)
    case _ => true
  }

  // ------------------------------------------------------------ printing

  function Quoted(s: Text): string { "\"" + Escape(s) + "\"" }

  function Print(j: Json): (r: string)
    ensures Valid(j) ==> 0 < |r|
  {
    match j
    case Null => "null"
    case Bool(b) => if b then "true" else "false"
    case Num(t) => t
    case Str(s) => Quoted(s)
    case Arr(items) => "[" + PrintItems(items) + "]"
    case Obj(ms) => "{" + PrintMembers(ms) + "}"
  }

  function PrintItems(items: seq<Json>): string {
    if items == [] then ""
    else Print(items[0]) + (if |items| == 1 then "" else "," + PrintItems(items[1..]))
  }

  function PrintMembers(ms: seq<Member>): string {
    if ms == [] then ""
    else Quoted(ms[0].key) + ":" + Print(ms[0].value) + (if |ms| == 1 then "" else "," + PrintMembers(ms[1..]))
  }

  // ------------------------------------------------------------ reading

  /** Length of the longest prefix of number characters. */
  function NumLength(s: string): (n: nat)
    ensures n <= |s|
    ensures forall i :: 0 <= i < n ==> NumChar(s[i])
    ensures n < |s| ==> !NumChar(s[n])
  {
    if s == "" || !NumChar(s[0]) then 0 else 1 + NumLength(s[1..])
  }

  function Literal(s: string, word: string, j: Json): (r: Option<(Json, string)>)
    requires word != ""
    ensures r.Some? ==> |r.value.1| < |s|
  {
    if |s| >= |word| && s[..|word|] == word then Some((j, s[|word|..])) else None
  }

  function Read(s: string): (r: Option<(Json, string)>)
    ensures r.Some? ==> |r.value.1| < |s|
    decreases |s|, 0
  {
    if s == "" then None
    else if s[0] == 'n' then Literal(s, "null", Null)
    else if s[0] == 't' then Literal(s, "true", Bool(true))
    else if s[0] == 'f' then Literal(s, "false", Bool(false))
    else if s[0] == '"' then
      var t := ReadText(s[1..]);
      if t.Some? then Some((Str(t.value.0), t.value.1)) else None
    else if s[0] == '[' then
      if |s| > 1 && s[1] == ']' then Some((Arr([]), s[2..]))
      else
        var r := ReadItems(s[1..]);
        if r.Some? then Some((Arr(r.value.0), r.value.1)) else None
    else if s[0] == '{' then
      if |s| > 1 && s[1] == '}' then Some((Obj([]), s[2..]))
      else
        var r := ReadMembers(s[1..]);
        if r.Some? then Some((Obj(r.value.0), r.value.1)) else None
    else if NumLength(s) > 0 then Some((Num(s[..NumLength(s)]), s[NumLength(s)..]))
    else None
  }

  function ReadItems(s: string): (r: Option<(seq<Json>, string)>)
    ensures r.Some? ==> |r.value.1| < |s|
    decreases |s|, 1
  {
    var v := Read(s);
    if v.None? || v.value.1 == "" then None
    else
      var rest := v.value.1;
      if rest[0] == ']' then Some(([v.value.0], rest[1..]))
      else if rest[0] == ',' then
        var more := ReadItems(rest[1..]);
        if more.Some? then Some(([v.value.0] + more.value.0, more.value.1)) else None
      else None
  }

  /** A quoted key, a colon and a value. */
  function ReadMember(s: string): (r: Option<(Member, string)>)
    ensures r.Some? ==> |r.value.1| < |s|
    decreases |s|, 1
  {
    if s == "" || s[0] != '"' then None
    else
      var k := ReadText(s[1..]);
      if k.None? || k.value.1 == "" || k.value.1[0] != ':' then None
      else
        var v := Read(k.value.1[1..]);
        if v.Some? then Some((Member(k.value.0, v.value.0), v.value.1)) else None
  }

  function ReadMembers(s: string): (r: Option<(seq<Member>, string)>)
    ensures r.Some? ==> |r.value.1| < |s|
    decreases |s|, 2
  {
    var m := ReadMember(s);
    if m.None? || m.value.1 == "" then None
    else
      var rest := m.value.1;
      if rest[0] == '}' then Some(([m.value.0], rest[1..]))
      else if rest[0] == ',' then
        var more := ReadMembers(rest[1..]);
        if more.Some? then Some(([m.value.0] + more.value.0, more.value.1)) else None
      else None
  }

  // ------------------------------------------------------------ documents with their surrogate pairs joined

  function JoinedDoc(j: Json): Json {
    match j
    case Str(s) => Str(Joined(s))
    case Arr(items) => Arr(JoinedItems(items))
    case Obj(ms) => Obj(JoinedMembers(ms))
    case _ => j
  }

  function JoinedItems(items: seq<Json>): (r: seq<Json>)
    ensures |r| == |items|
  {
    if items == [] then [] else [JoinedDoc(items[0])] + JoinedItems(items[1..])
  }

  function JoinedMembers(ms: seq<Member>): (r: seq<Member>)
    ensures |r| == |ms|
  {
    if ms == [] then [] else [Member(Joined(ms[0].key), JoinedDoc(ms[0].value))] + JoinedMembers(ms[1..])
  }

  // ------------------------------------------------------------ the round trip

  /** What may follow a value without being read as part of it. */
  predicate Ends(rest: string) { rest == "" || !NumChar(rest[0]) }

  lemma NumRoundTrip(t: string, rest: string)
    requires NumText(t) && Ends(rest)
    ensures Read(t + rest) == Some((Num(t), rest))
  {
    var s := t + rest;
    assert forall i :: 0 <= i < |t| ==> NumChar(s[i]);
    assert rest != "" ==> s[|t|] == rest[0];
    assert NumLength(s) == |t|;
    assert s[0] == t[0] && s[..|t|] == t && s[|t|..] == rest;
  }

  lemma LiteralRoundTrip(word: string, j: Json, rest: string)
    requires word != ""
    ensures Literal(word + rest, word, j) == Some((j, rest))
  {
    assert (word + rest)[..|word|] == word && (word + rest)[|word|..] == rest;
  }

  lemma QuotedRoundTrip(s: Text, rest: string)
    ensures var t := Quoted(s) + rest;
            t[0] == '"' && ReadText(t[1..]) == Some((Joined(s), rest))
  {
    var t := Quoted(s) + rest;
    assert t[1..] == Escape(s) + "\"" + rest;
    TextRoundTrip(s, rest);
  }

  /** A printed value starts with none of the characters that close or separate. */
  lemma PrintStarts(j: Json, rest: string)
    requires Valid(j)
    ensures var c := (Print(j) + rest)[0];
            c != ']' && c != '}' && c != ',' && c == Print(j)[0]
  {
  }

  /** Reading what was printed, with anything after it, gives the document with its surrogate pairs joined. */
  lemma {:induction false} RoundTrip(j: Json, rest: string)
    requires Valid(j) && (j.Num? ==> Ends(rest))
    ensures Read(Print(j) + rest) == Some((JoinedDoc(j), rest))
    decreases j, 0
  {
    match j
    case Null => LiteralRoundTrip("null", Null, rest);
    case Bool(b) => LiteralRoundTrip(if b then "true" else "false", j, rest);
    case Num(t) => NumRoundTrip(t, rest);
    case Str(t) => QuotedRoundTrip(t, rest);
    case Arr(items) => ArrayRoundTrip(items, rest);
    case Obj(ms) => ObjectRoundTrip(ms, rest);
  }

  lemma {:induction false} ArrayRoundTrip(items: seq<Json>, rest: string)
    requires forall i :: 0 <= i < |items| ==> Valid(items[i])
    ensures Read("[" + PrintItems(items) + "]" + rest) == Some((Arr(JoinedItems(items)), rest))
    decreases items, 1
  {
    var t := "[" + PrintItems(items) + "]" + rest;
    if items == [] {
      assert t == "[]" + rest;
      assert t[0] == '[' && t[1] == ']' && t[2..] == rest;
    } else {
      var body := PrintItems(items) + "]" + rest;
      assert t[0] == '[' && t[1..] == body;
      ItemsStart(items, "]" + rest);
      Flat(PrintItems(items), "]", rest);
      assert t[1] == body[0];
      ItemsRoundTrip(items, rest);
    }
  }

  lemma Flat(a: string, b: string, c: string)
    ensures a + b + c == a + (b + c)
  {
  }

  lemma ItemsStart(items: seq<Json>, rest: string)
    requires items != [] && Valid(items[0])
    ensures var t := PrintItems(items) + rest; t != "" && t[0] != ']'
  {
    PrintStarts(items[0], rest);
  }

  lemma {:induction false} ItemsRoundTrip(items: seq<Json>, rest: string)
    requires items != [] && forall i :: 0 <= i < |items| ==> Valid(items[i])
    ensures ReadItems(PrintItems(items) + "]" + rest) == Some((JoinedItems(items), rest))
    decreases items, 0
  {
    var first := Print(items[0]);
    if |items| == 1 {
      var after := "]" + rest;
      assert PrintItems(items) + "]" + rest == first + after;
      RoundTrip(items[0], after);
      assert after[0] == ']' && after[1..] == rest;
      assert JoinedItems(items) == [JoinedDoc(items[0])];
    } else {
      var more := PrintItems(items[1..]) + "]" + rest;
      var after := "," + more;
      assert PrintItems(items) + "]" + rest == first + after;
      RoundTrip(items[0], after);
      assert after[0] == ',' && after[1..] == more;
      ItemsRoundTrip(items[1..], rest);
    }
  }

  lemma {:induction false} ObjectRoundTrip(ms: seq<Member>, rest: string)
    requires forall i :: 0 <= i < |ms| ==> Valid(ms[i].value)
    ensures Read("{" + PrintMembers(ms) + "}" + rest) == Some((Obj(JoinedMembers(ms)), rest))
    decreases ms, 1
  {
    if ms == [] {
      var t := "{" + PrintMembers(ms) + "}" + rest;
      assert t == "{}" + rest;
      assert t[0] == '{' && t[1] == '}' && t[2..] == rest;
    } else {
      var body := PrintMembers(ms) + "}" + rest;
      MembersRoundTrip(ms, rest);
      MembersStart(ms, "}", rest);
      ReadBraced(body, "{" + PrintMembers(ms) + "}" + rest);
    }
  }

  lemma MembersStart(ms: seq<Member>, close: string, rest: string)
    requires ms != []
    ensures var t := PrintMembers(ms) + close + rest; t != "" && t[0] == '"'
  {
  }

  lemma ReadBraced(body: string, t: string)
    requires body != "" && body[0] != '}' && t == "{" + body && ReadMembers(body).Some?
    ensures var r := ReadMembers(body).value; Read(t) == Some((Obj(r.0), r.1))
  {
    assert t[0] == '{' && t[1] == body[0] && t[1..] == body;
  }

  /** A member's text taken apart: a quoted key, a colon, and a value. */
  lemma ReadMemberIs(t: string, key: Text, body: string, value: Json, rest: string)
    requires t != "" && t[0] == '"' && ReadText(t[1..]) == Some((key, ":" + body))
    requires Read(body) == Some((value, rest))
    ensures ReadMember(t) == Some((Member(key, value), rest))
  {
    assert (":" + body)[0] == ':' && (":" + body)[1..] == body;
  }

  lemma MemberText(m: Member, rest: string)
    ensures Quoted(m.key) + ":" + Print(m.value) + rest == Quoted(m.key) + (":" + (Print(m.value) + rest))
  {
  }

  lemma {:induction false} MemberRoundTrip(m: Member, rest: string)
    requires Valid(m.value) && Ends(rest)
    ensures ReadMember(Quoted(m.key) + ":" + Print(m.value) + rest)
            == Some((Member(Joined(m.key), JoinedDoc(m.value)), rest))
    decreases m, 0
  {
    var body := Print(m.value) + rest;
    MemberText(m, rest);
    QuotedRoundTrip(m.key, ":" + body);
    RoundTrip(m.value, rest);
    ReadMemberIs(Quoted(m.key) + ":" + Print(m.value) + rest, Joined(m.key), body, JoinedDoc(m.value), rest);
  }

  /** The members before the closing brace: the last one. */
  lemma ReadLastMember(t: string, m: Member, rest: string)
    requires ReadMember(t) == Some((m, "}" + rest))
    ensures ReadMembers(t) == Some(([m], rest))
  {
    assert ("}" + rest)[0] == '}' && ("}" + rest)[1..] == rest;
  }

  /** One that is followed by others. */
  lemma ReadNextMember(t: string, m: Member, more: string, ms: seq<Member>, rest: string)
    requires ReadMember(t) == Some((m, "," + more)) && ReadMembers(more) == Some((ms, rest))
    ensures ReadMembers(t) == Some(([m] + ms, rest))
  {
    assert ("," + more)[0] == ',' && ("," + more)[1..] == more;
  }

  lemma MembersText(first: string, more: string, rest: string)
    ensures first + ("," + more) + "}" + rest == first + ("," + (more + "}" + rest))
  {
  }

  lemma {:induction false} MembersRoundTrip(ms: seq<Member>, rest: string)
    requires ms != [] && forall i :: 0 <= i < |ms| ==> Valid(ms[i].value)
    ensures ReadMembers(PrintMembers(ms) + "}" + rest) == Some((JoinedMembers(ms), rest))
    decreases ms, 0
  {
    var m := Member(Joined(ms[0].key), JoinedDoc(ms[0].value));
    var first := Quoted(ms[0].key) + ":" + Print(ms[0].value);
    var t := PrintMembers(ms) + "}" + rest;
    if |ms| == 1 {
      assert PrintMembers(ms) == first && JoinedMembers(ms) == [m];
      Flat(first, "}", rest);
      MemberRoundTrip(ms[0], "}" + rest);
      ReadLastMember(t, m, rest);
    } else {
      var more := PrintMembers(ms[1..]) + "}" + rest;
      MembersText(first, PrintMembers(ms[1..]), rest);
      MemberRoundTrip(ms[0], "," + more);
      MembersRoundTrip(ms[1..], rest);
      ReadNextMember(t, m, more, JoinedMembers(ms[1..]), rest);
    }
  }
}
