/** What the serialisers print for strings, and the words they print (backend/sync/service.ts,
    backend/idempotency/middleware.ts): section 7 of RFC 8259 reads every printed string back. */
module JsonStrings {
  import opened Results
  import opened Json

  /******* Reading a string *******/

  function HexValue(c: char): Option<nat> {
    if '0' <= c <= '9' then Some(c as int - '0' as int)
    else if 'a' <= c <= 'f' then Some(c as int - 'a' as int + 10)
    else if 'A' <= c <= 'F' then Some(c as int - 'A' as int + 10)
    else None
  }

  /** Four hexadecimal digits, for a character outside the surrogates. */
  function CodeOf(t: string): Option<char>
    requires |t| == 4
  {
    match (HexValue(t[0]), HexValue(t[1]), HexValue(t[2]), HexValue(t[3]))
    case (Some(a), Some(b), Some(c), Some(d)) =>
      var n := ((a * 16 + b) * 16 + c) * 16 + d;
      if n < 0xD800 then Some(n as char) else None
    case _ => None
  }

  /** The characters that may follow a backslash, and what they stand for. */
  const SHORT_FORMS: map<char, int> := map['\"' := 0x22, '\\' := 0x5C, '/' := 0x2F, 'b' := 8, 'f' := 0xC, 'n' := 0xA, 'r' := 0xD, 't' := 9]

  /** One character of a string, and what follows it. */
  function ReadChar(t: string): (r: Option<(char, string)>)
    ensures r.Some? ==> |r.value.1| < |t|
  {
    if t == "" || t[0] < ' ' || t[0] == '\"' then None
    else if t[0] != '\\' then Some((t[0], t[1..]))
    else if |t| >= 2 && t[1] in SHORT_FORMS then Some((SHORT_FORMS[t[1]] as char, t[2..]))
    else if |t| >= 6 && t[1] == 'u' && CodeOf(t[2..6]).Some? then Some((CodeOf(t[2..6]).value, t[6..]))
    else None
  }

  /** The characters up to the closing quote, and what follows it. */
  function ReadRest(t: string): Option<(string, string)>
    decreases |t|
  {
    if t != "" && t[0] == '\"' then Some(("", t[1..]))
    else
      match ReadChar(t)
      case None => None
      case Some((c, more)) =>
        match ReadRest(more)
        case None => None
        case Some((s, rest)) => Some(([c] + s, rest))
  }

  function ReadString(t: string): Option<(string, string)> {
    if t != "" && t[0] == '\"' then ReadRest(t[1..]) else None
  }

  lemma HexRead(n: nat)
    requires n < 16
    ensures HexValue(HexDigit(n)) == Some(n)
  {}

  lemma EscapeRead(c: char, rest: string)
    ensures ReadChar(EscapeChar(c) + rest) == Some((c, rest))
  {
    var t := EscapeChar(c) + rest;
    Cut(EscapeChar(c), rest);
    assert t[0] == EscapeChar(c)[0];
    if |EscapeChar(c)| >= 2 { assert t[1] == EscapeChar(c)[1]; }
    if |EscapeChar(c)| == 6 {
      var n := c as int;
      HexRead(n / 16);
      HexRead(n % 16);
      assert t[2..6] == ['0', '0', HexDigit(n / 16), HexDigit(n % 16)];
    }
  }

  lemma {:induction false} EscapedRead(s: string, rest: string)
    ensures ReadRest(Escape(s) + "\"" + rest) == Some((s, rest))
  {
    hide EscapeChar, ReadChar;
    EscapeHead(s, rest);
    if s != "" {
      var more := Escape(s[1..]) + "\"" + rest;
      EscapeRead(s[0], more);
      EscapedRead(s[1..], rest);
      assert [s[0]] + s[1..] == s;
    } else {
      Cut("\"", rest);
    }
  }

  /** Every printed string is read back, and its end is found. */
  lemma StringRoundTrip(s: string, rest: string)
    ensures ReadString(Quote(s) + rest) == Some((s, rest))
  {
    hide Escape, ReadRest;
    assert (Quote(s) + rest)[1..] == Escape(s) + "\"" + rest;
    EscapedRead(s, rest);
  }

  /******* How a string is printed *******/

  /** Has to be escaped. */
  predicate Special(c: char) {
    c < ' ' || c == '\"' || c == '\\'
  }

  /** Only what has to be escaped is escaped, in two characters if a short form stands for it, and a printed
      string has no control character in it. */
  lemma EscapedOnlyIfSpecial(c: char)
    ensures EscapeChar(c) == [c] <==> !Special(c)
    ensures Special(c) ==> EscapeChar(c)[0] == '\\' && (|EscapeChar(c)| == 2 <==> exists f :: f in SHORT_FORMS && SHORT_FORMS[f] == c as int)
    ensures forall x | x in EscapeChar(c) :: x >= ' '
  {
    if c == '\"' { assert SHORT_FORMS['\"'] == c as int; }
    if c == '\\' { assert SHORT_FORMS['\\'] == c as int; }
    if c as int == 8 { assert SHORT_FORMS['b'] == c as int; }
    if c as int == 9 { assert SHORT_FORMS['t'] == c as int; }
    if c as int == 10 { assert SHORT_FORMS['n'] == c as int; }
    if c as int == 12 { assert SHORT_FORMS['f'] == c as int; }
    if c as int == 13 { assert SHORT_FORMS['r'] == c as int; }
  }

  /** The other values without parts. */
  lemma PlainTexts(undef: string, text: NumberText)
    ensures Text(undef, Null) == "null" && Text(undef, Bool(true)) == "true" && Text(undef, Bool(false)) == "false"
    ensures Text(undef, Number(text)) == text && CanonicalJson(Undefined) == "undefined" && StableStringify(Undefined) == ""
    ensures forall c | c in "0123456789-+.e" :: IsNumberChar(c)
  {}

  /******* The order of strings *******/

  /** The UTF-16 code units of a character: one, or the two of a surrogate pair. */
  function CodeUnits(c: char): seq<int> {
    var n := c as int;
    if n < 0x1_0000 then [n] else [0xD800 + (n - 0x1_0000) / 0x400, 0xDC00 + (n - 0x1_0000) % 0x400]
  }

  function Units(s: string): seq<int> {
    if s == "" then [] else CodeUnits(s[0]) + Units(s[1..])
  }

  /** The order of JavaScript's strings, code unit by code unit. */
  predicate UnitsLess(x: seq<int>, y: seq<int>) {
    y != [] && (x == [] || x[0] < y[0] || (x[0] == y[0] && UnitsLess(x[1..], y[1..])))
  }

  lemma SameFirst(n: int, x: seq<int>, y: seq<int>)
    ensures UnitsLess([n] + x, [n] + y) <==> UnitsLess(x, y)
  {
    assert ([n] + x)[1..] == x && ([n] + y)[1..] == y;
  }

  lemma UnitsOfOne(c: char, d: char, x: seq<int>, y: seq<int>)
    ensures c == d ==> (UnitsLess(CodeUnits(c) + x, CodeUnits(d) + y) <==> UnitsLess(x, y))
    ensures c != d ==> (UnitsLess(CodeUnits(c) + x, CodeUnits(d) + y) <==> CodeUnitRank(c) < CodeUnitRank(d))
  {
    var p, q := CodeUnits(c), CodeUnits(d);
    assert p + x == [p[0]] + (p[1..] + x) && q + y == [q[0]] + (q[1..] + y);
    if p[0] == q[0] {
      SameFirst(p[0], p[1..] + x, q[1..] + y);
      if |p| == 2 {
        assert p[1..] + x == [p[1]] + x && q[1..] + y == [q[1]] + y;
        if c == d { SameFirst(p[1], x, y); }
      } else {
        assert p[1..] + x == x && q[1..] + y == y;
      }
    }
  }

  /** Keys are sorted, and equal menu records are broken apart, in the order of their code units. */
  lemma {:induction false} StringLessIsUnits(a: string, b: string)
    ensures StringLess(a, b) <==> UnitsLess(Units(a), Units(b))
  {
    hide CodeUnits, CodeUnitRank;
    if a != "" && b != "" {
      UnitsOfOne(a[0], b[0], Units(a[1..]), Units(b[1..]));
      StringLessIsUnits(a[1..], b[1..]);
      if a[0] != b[0] && CodeUnitRank(a[0]) == CodeUnitRank(b[0]) { RankInjective(a[0], b[0]); }
    } else {
      SomeUnits(a);
      SomeUnits(b);
    }
  }

  lemma SomeUnits(s: string)
    ensures Units(s) == [] <==> s == ""
  {}
}
