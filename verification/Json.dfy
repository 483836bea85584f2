/** JSON values, the order JavaScript puts on strings, and the canonical serialisers.
    `canonicalJson` (and its copy in the worker) and `stableStringify` print the same text
    except for `undefined`, which the first prints as a word and the second as nothing. */
module Json {

  /** The text of a finite number: what JSON.stringify prints for it. */
  type NumberText = t: string | IsNumberText(t) witness "0"

  predicate IsNumberText(t: string) {
    t != "" && forall i | 0 <= i < |t| :: IsNumberChar(t[i])
  }

  predicate IsNumberChar(c: char) {
    '0' <= c <= '9' || c == '-' || c == '+' || c == '.' || c == 'e'
  }

  /** An object is its set of properties: property order is not part of the value. */
  datatype Json =
    | Undefined
    | Null
    | Bool(b: bool)
    | Number(text: NumberText)
    | String(s: string)
    | Array(items: seq<Json>)
    | Object(fields: map<string, Json>)

  /******* String order *******/

  /** Position of a character in the order of UTF-16 code units: a character above U+FFFF is
      a surrogate pair and therefore sorts between U+D7FF and U+E000. */
  function CodeUnitRank(c: char): int {
    var n := c as int;
    if n < 0xD800 then n
    else if n >= 0x1_0000 then n - 0x1_0000 + 0xD800
    else n + 0x10_0000
  }

  /** JavaScript's `a < b` on strings. */
  predicate StringLess(a: string, b: string) {
    b != "" && (a == "" || CodeUnitRank(a[0]) < CodeUnitRank(b[0]) ||
                (a[0] == b[0] && StringLess(a[1..], b[1..])))
  }

  lemma RankInjective(c: char, d: char)
    requires CodeUnitRank(c) == CodeUnitRank(d)
    ensures c == d
  {
    assert c as int == d as int;
  }

  lemma {:induction false} StringLessTransitive(a: string, b: string, c: string)
    requires StringLess(a, b) && StringLess(b, c)
    ensures StringLess(a, c)
  {
    if a != "" && a[0] == b[0] && b[0] == c[0] {
      StringLessTransitive(a[1..], b[1..], c[1..]);
    }
  }

  lemma {:induction false} StringLessTotal(a: string, b: string)
    ensures a == b || StringLess(a, b) || StringLess(b, a)
    ensures !(StringLess(a, b) && StringLess(b, a))
    ensures !StringLess(a, a)
  {
    if a != "" {
      StringLessTotal(a[1..], a[1..]);
    }
    if a != "" && b != "" {
      if CodeUnitRank(a[0]) == CodeUnitRank(b[0]) {
        RankInjective(a[0], b[0]);
        StringLessTotal(a[1..], b[1..]);
        assert a == [a[0]] + a[1..] && b == [b[0]] + b[1..];
      }
    }
  }

  /******* Key lists *******/

  predicate Ascending(keys: seq<string>) {
    forall i, j | 0 <= i < j < |keys| :: StringLess(keys[i], keys[j])
  }

  predicate IsLeast(k: string, keys: set<string>) {
    k in keys && forall other | other in keys && other != k :: StringLess(k, other)
  }

  lemma {:induction false} LeastExists(keys: set<string>)
    requires keys != {}
    ensures exists k :: IsLeast(k, keys)
    decreases keys
  {
    var k :| k in keys;
    var rest := keys - {k};
    if rest != {} {
      LeastExists(rest);
      var m :| IsLeast(m, rest);
      StringLessTotal(k, m);
      if StringLess(k, m) {
        forall other | other in keys && other != k
          ensures StringLess(k, other)
        {
          if other != m { StringLessTransitive(k, m, other); }
        }
        assert IsLeast(k, keys);
      } else {
        assert IsLeast(m, keys);
      }
    } else {
      assert keys == {k};
      assert IsLeast(k, keys);
    }
  }

  lemma LeastUnique(keys: set<string>)
    ensures forall k, m | IsLeast(k, keys) && IsLeast(m, keys) :: k == m
  {
    forall k, m | IsLeast(k, keys) && IsLeast(m, keys) ensures k == m {
      StringLessTotal(k, m);
    }
  }

  /** The keys of an object in ascending order. */
  function SortedKeys(keys: set<string>): (sorted: seq<string>)
    ensures forall k :: k in sorted <==> k in keys
    ensures Ascending(sorted)
    decreases keys
  {
    if keys == {} then []
    else
      LeastExists(keys);
      LeastUnique(keys);
      var k :| k in keys && IsLeast(k, keys);
      [k] + SortedKeys(keys - {k})
  }

  /******* Printing *******/

  function HexDigit(n: int): char
    requires 0 <= n < 16
  {
    if n < 10 then ('0' as int + n) as char else ('a' as int + n - 10) as char
  }

  /** One character of a JSON string literal. */
  function EscapeChar(c: char): string {
    if c == '\"' then "\\\""
    else if c == '\\' then "\\\\"
    else if c as int == 8 then "\\b"
    else if c == '\t' then "\\t"
    else if c == '\n' then "\\n"
    else if c as int == 12 then "\\f"
    else if c == '\r' then "\\r"
    else if c as int < 0x20 then "\\u00" + [HexDigit(c as int / 16), HexDigit(c as int % 16)]
    else [c]
  }

  function Escape(s: string): string {
    if s == "" then "" else EscapeChar(s[0]) + Escape(s[1..])
  }

  function Quote(s: string): string {
    "\"" + Escape(s) + "\""
  }

  /** Array.prototype.join with a comma. */
  function Join(parts: seq<string>): string {
    if |parts| == 0 then ""
    else if |parts| == 1 then parts[0]
    else parts[0] + "," + Join(parts[1..])
  }

  function Text(undef: string, v: Json): string
    decreases v, 1, 0
  {
    match v
    case Undefined => undef
    case Null => "null"
    case Bool(b) => if b then "true" else "false"
    case Number(t) => t
    case String(s) => Quote(s)
    case Array(items) => "[" + Join(ItemTexts(undef, items)) + "]"
    case Object(fields) => "{" + Join(FieldTexts(undef, v, SortedKeys(fields.Keys))) + "}"
  }

  function ItemTexts(undef: string, items: seq<Json>): (texts: seq<string>)
    ensures |texts| == |items|
    decreases items
  {
    if items == [] then [] else [Text(undef, items[0])] + ItemTexts(undef, items[1..])
  }

  function FieldTexts(undef: string, v: Json, keys: seq<string>): (texts: seq<string>)
    requires v.Object? && forall k | k in keys :: k in v.fields
    ensures |texts| == |keys|
    decreases v, 0, |keys|
  {
    if keys == [] then []
    else [Quote(keys[0]) + ":" + Text(undef, v.fields[keys[0]])] + FieldTexts(undef, v, keys[1..])
  }

  /** The sync service's serialiser, repeated in the worker. */
  function CanonicalJson(v: Json): string {
    Text("undefined", v)
  }

  /** The serialiser behind the idempotency fingerprint and the client's request fingerprint. */
  function StableStringify(v: Json): string {
    Text("", v)
  }

  /******* The printed text determines the value *******/

  /** No `undefined` anywhere in the value. Every parsed request body has this property. */
  ghost predicate Defined(v: Json) {
    match v
    case Undefined => false
    case Array(items) => forall i | 0 <= i < |items| :: Defined(items[i])
    case Object(fields) => forall k | k in fields :: Defined(fields[k])
    case _ => true
  }

  /** No array in the value is a single `undefined`. */
  ghost predicate Squeezed(v: Json) {
    match v
    case Array(items) => items != [Undefined] && forall i | 0 <= i < |items| :: Squeezed(items[i])
    case Object(fields) => forall k | k in fields :: Squeezed(fields[k])
    case _ => true
  }

  /** The printers and the values they keep apart. */
  ghost predicate Printable(undef: string, v: Json) {
    undef == "undefined" || (undef == "" && Squeezed(v))
  }

  /** Nothing is printed for the value. */
  predicate Silent(undef: string, v: Json) {
    undef == "" && v.Undefined?
  }

  /** What may follow a value inside a larger text. */
  predicate Delimited(rest: string) {
    rest == "" || rest[0] == ',' || rest[0] == ']' || rest[0] == '}'
  }

  lemma Head(s: string, rest: string)
    requires s != ""
    ensures s + rest != "" && (s + rest)[0] == s[0]
  {}

  lemma Cut(s: string, rest: string)
    ensures (s + rest)[..|s|] == s && (s + rest)[|s|..] == rest
  {}

  lemma EscapeCharPrefix(c: char, d: char, x: string, y: string)
    requires EscapeChar(c) + x == EscapeChar(d) + y
    ensures c == d && x == y
  {
    var p, q := EscapeChar(c), EscapeChar(d);
    assert (p + x)[0] == p[0] && (q + y)[0] == q[0];
    if |p| > 1 {
      assert (p + x)[1] == p[1] && (q + y)[1] == q[1];
      if |p| > 2 {
        assert (p + x)[4] == p[4] && (q + y)[4] == q[4];
        assert (p + x)[5] == p[5] && (q + y)[5] == q[5];
        assert c as int == 16 * (c as int / 16) + c as int % 16;
        assert d as int == 16 * (d as int / 16) + d as int % 16;
      }
    }
    assert c == d;
    Cut(p, x);
    Cut(q, y);
  }

  /** A closing quote tells the end of an escaped string. */
  lemma EscapeHead(s: string, rest: string)
    ensures var t := Escape(s) + "\"" + rest; t != "" && (t[0] == '\"' <==> s == "")
    ensures s != "" ==> Escape(s) + "\"" + rest == EscapeChar(s[0]) + (Escape(s[1..]) + "\"" + rest)
    ensures s == "" ==> Escape(s) + "\"" + rest == "\"" + rest
  {
    if s != "" {
      Head(EscapeChar(s[0]), Escape(s[1..]) + "\"" + rest);
      Shift(EscapeChar(s[0]), Escape(s[1..]), "\"", rest);
    }
  }

  lemma Shift(a: string, b: string, c: string, rest: string)
    ensures a + b + c + rest == a + (b + c + rest)
  {}

  lemma {:induction false} EscapePrefix(s: string, t: string, x: string, y: string)
    requires Escape(s) + "\"" + x == Escape(t) + "\"" + y
    ensures s == t && x == y
  {
    EscapeHead(s, x);
    EscapeHead(t, y);
    if s == "" {
      Cut("\"", x);
      Cut("\"", y);
    } else {
      var restS, restT := Escape(s[1..]) + "\"" + x, Escape(t[1..]) + "\"" + y;
      EscapeCharPrefix(s[0], t[0], restS, restT);
      EscapePrefix(s[1..], t[1..], x, y);
      assert s == [s[0]] + s[1..] && t == [t[0]] + t[1..];
    }
  }

  lemma QuotePrefix(s: string, t: string, x: string, y: string)
    requires Quote(s) + x == Quote(t) + y
    ensures s == t && x == y
  {
    hide Escape;
    assert (Quote(s) + x)[1..] == Escape(s) + "\"" + x;
    assert (Quote(t) + y)[1..] == Escape(t) + "\"" + y;
    EscapePrefix(s, t, x, y);
  }

  /** Length of the longest prefix of number characters. */
  function NumberRun(s: string): nat {
    if s == "" || !IsNumberChar(s[0]) then 0 else 1 + NumberRun(s[1..])
  }

  lemma {:induction false} NumberRunEnds(t: string, x: string)
    requires forall i | 0 <= i < |t| :: IsNumberChar(t[i])
    requires Delimited(x)
    ensures NumberRun(t + x) == |t|
  {
    if t == "" {
      assert t + x == x;
    } else {
      assert t + x == [t[0]] + (t[1..] + x);
      NumberRunEnds(t[1..], x);
    }
  }

  lemma NumberPrefix(t: NumberText, u: NumberText, x: string, y: string)
    requires Delimited(x) && Delimited(y) && t + x == u + y
    ensures t == u && x == y
  {
    NumberRunEnds(t, x);
    NumberRunEnds(u, y);
    Cut(t, x);
    Cut(u, y);
  }

  /** The first character of the text of a value, which tells its kind. */
  function HeadChar(v: Json): char {
    match v
    case Undefined => 'u'
    case Null => 'n'
    case Bool(b) => if b then 't' else 'f'
    case Number(n) => n[0]
    case String(_) => '\"'
    case Array(_) => '['
    case Object(_) => '{'
  }

  lemma TextHead(undef: string, v: Json)
    requires Printable(undef, v)
    ensures Text(undef, v) == "" <==> Silent(undef, v)
    ensures !Silent(undef, v) ==> Text(undef, v)[0] == HeadChar(v) && !Delimited(Text(undef, v))
  {
    if v.Number? { assert IsNumberChar(v.text[0]); }
  }

  lemma SameKind(v: Json, w: Json)
    requires HeadChar(v) == HeadChar(w)
    ensures v.Undefined? == w.Undefined? && v.Null? == w.Null? && v.Number? == w.Number?
    ensures v.String? == w.String? && v.Array? == w.Array? && v.Object? == w.Object?
    ensures v.Bool? ==> w == v
  {
    if v.Number? { assert IsNumberChar(v.text[0]); }
    if w.Number? { assert IsNumberChar(w.text[0]); }
  }

  /** Prefix-freeness: two texts that continue to the same string are texts of one value. */
  lemma {:induction false} TextPrefix(undef: string, v: Json, w: Json, x: string, y: string)
    requires Printable(undef, v) && Printable(undef, w)
    requires Delimited(x) && Delimited(y)
    requires Text(undef, v) + x == Text(undef, w) + y
    ensures v == w && x == y
    decreases v, 2, 0
  {
    TextHead(undef, v);
    TextHead(undef, w);
    if !Silent(undef, v) { Head(Text(undef, v), x); }
    if !Silent(undef, w) { Head(Text(undef, w), y); }
    assert Silent(undef, v) ==> Text(undef, v) + x == x;
    assert Silent(undef, w) ==> Text(undef, w) + y == y;
    if !Silent(undef, v) { SameKind(v, w); }
    match v {
      case Number(n) => NumberPrefix(n, w.text, x, y);
      case String(s) => QuotePrefix(s, w.s, x, y);
      case Array(items) => ArrayPrefix(undef, v, w, x, y);
      case Object(fields) => ObjectPrefix(undef, v, w, x, y);
      case _ =>
        Cut(Text(undef, v), x);
        Cut(Text(undef, w), y);
    }
  }

  /** A list of printed parts, its closing bracket and what follows. */
  function Closed(parts: seq<string>, close: string, rest: string): string {
    if parts == [] then close + rest
    else parts[0] + (if |parts| == 1 then close + rest else "," + Closed(parts[1..], close, rest))
  }

  lemma {:induction false} ClosedIsJoin(open: string, parts: seq<string>, close: string, rest: string)
    ensures open + Join(parts) + close + rest == open + Closed(parts, close, rest)
    decreases |parts|
  {
    if |parts| > 1 {
      ClosedIsJoin("", parts[1..], close, rest);
      RegroupJoin(open, parts[0], Join(parts[1..]), close, rest);
      assert "" + Closed(parts[1..], close, rest) == Closed(parts[1..], close, rest);
    } else if |parts| == 1 {
      assert open + parts[0] + close + rest == open + (parts[0] + (close + rest));
    } else {
      assert open + "" + close + rest == open + (close + rest);
    }
  }

  lemma RegroupJoin(open: string, first: string, tail: string, close: string, rest: string)
    ensures open + (first + "," + tail) + close + rest == open + (first + ("," + (tail + close + rest)))
    ensures "" + tail + close + rest == tail + close + rest
  {}

  /** What follows the first part of a nonempty list. */
  function AfterFirst(parts: seq<string>, close: string, rest: string): string
    requires parts != []
  {
    if |parts| == 1 then close + rest else "," + Closed(parts[1..], close, rest)
  }

  lemma ClosedStep(parts: seq<string>, close: string, rest: string)
    requires parts != []
    ensures Closed(parts, close, rest) == parts[0] + AfterFirst(parts, close, rest)
    ensures Delimited(close) && close != "" ==> Delimited(AfterFirst(parts, close, rest))
  {}

  lemma AfterFirstEqual(ps: seq<string>, qs: seq<string>, close: string, x: string, y: string)
    requires ps != [] && qs != [] && (close == "]" || close == "}")
    requires AfterFirst(ps, close, x) == AfterFirst(qs, close, y)
    ensures |ps| == 1 <==> |qs| == 1
    ensures if |ps| == 1 then x == y else Closed(ps[1..], close, x) == Closed(qs[1..], close, y)
  {
    var p, q := AfterFirst(ps, close, x), AfterFirst(qs, close, y);
    assert p[0] == if |ps| == 1 then close[0] else ',';
    assert q[0] == if |qs| == 1 then close[0] else ',';
    assert p[1..] == if |ps| == 1 then x else Closed(ps[1..], close, x);
    assert q[1..] == if |qs| == 1 then y else Closed(qs[1..], close, y);
  }

  lemma ArrayPrefix(undef: string, v: Json, w: Json, x: string, y: string)
    requires v.Array? && w.Array? && Printable(undef, v) && Printable(undef, w)
    requires Text(undef, v) + x == Text(undef, w) + y
    ensures v == w && x == y
    decreases v, 1, 0
  {
    ClosedIsJoin("[", ItemTexts(undef, v.items), "]", x);
    ClosedIsJoin("[", ItemTexts(undef, w.items), "]", y);
    Cut("[", Closed(ItemTexts(undef, v.items), "]", x));
    Cut("[", Closed(ItemTexts(undef, w.items), "]", y));
    if v.items != [] { TextHead(undef, v.items[0]); }
    if w.items != [] { TextHead(undef, w.items[0]); }
    ClosedHead(ItemTexts(undef, v.items), "]", x);
    ClosedHead(ItemTexts(undef, w.items), "]", y);
    if v.items == [] {
      Cut("]", x);
      Cut("]", y);
    } else {
      ItemsPrefix(undef, v.items, w.items, x, y);
    }
  }

  /** An empty list is told from a nonempty one by its first character. */
  lemma ClosedHead(parts: seq<string>, close: string, rest: string)
    requires close == "]" || close == "}"
    requires parts != [] ==> if parts[0] == "" then |parts| > 1 else parts[0][0] != close[0]
    ensures var t := Closed(parts, close, rest); t != "" && (t[0] == close[0] <==> parts == [])
    ensures parts == [] ==> Closed(parts, close, rest) == close + rest
  {
    if parts != [] && parts[0] != "" {
      Head(parts[0], AfterFirst(parts, close, rest));
    }
  }

  lemma {:induction false} ItemsPrefix(undef: string, vs: seq<Json>, ws: seq<Json>, x: string, y: string)
    requires vs != [] && ws != []
    requires forall i | 0 <= i < |vs| :: Printable(undef, vs[i])
    requires forall i | 0 <= i < |ws| :: Printable(undef, ws[i])
    requires Closed(ItemTexts(undef, vs), "]", x) == Closed(ItemTexts(undef, ws), "]", y)
    ensures vs == ws && x == y
    decreases vs
  {
    var ps, qs := ItemTexts(undef, vs), ItemTexts(undef, ws);
    TextPrefix(undef, vs[0], ws[0], AfterFirst(ps, "]", x), AfterFirst(qs, "]", y));
    AfterFirstEqual(ps, qs, "]", x, y);
    if |vs| > 1 {
      assert ps[1..] == ItemTexts(undef, vs[1..]) && qs[1..] == ItemTexts(undef, ws[1..]);
      ItemsPrefix(undef, vs[1..], ws[1..], x, y);
    }
    assert vs == [vs[0]] + vs[1..] && ws == [ws[0]] + ws[1..];
  }

  lemma ObjectPrefix(undef: string, v: Json, w: Json, x: string, y: string)
    requires v.Object? && w.Object? && Printable(undef, v) && Printable(undef, w)
    requires Text(undef, v) + x == Text(undef, w) + y
    ensures v == w && x == y
    decreases v, 1, 0
  {
    var ks, ls := SortedKeys(v.fields.Keys), SortedKeys(w.fields.Keys);
    ClosedIsJoin("{", FieldTexts(undef, v, ks), "}", x);
    ClosedIsJoin("{", FieldTexts(undef, w, ls), "}", y);
    Cut("{", Closed(FieldTexts(undef, v, ks), "}", x));
    Cut("{", Closed(FieldTexts(undef, w, ls), "}", y));
    FieldsPrefix(undef, v, w, ks, ls, x, y);
    assert forall k :: k in v.fields.Keys <==> k in w.fields.Keys;
    assert v.fields == w.fields;
  }

  lemma {:induction false} FieldsPrefix(undef: string, v: Json, w: Json, ks: seq<string>, ls: seq<string>,
                                        x: string, y: string)
    requires v.Object? && w.Object? && Printable(undef, v) && Printable(undef, w)
    requires (forall k | k in ks :: k in v.fields) && (forall l | l in ls :: l in w.fields)
    requires Closed(FieldTexts(undef, v, ks), "}", x) == Closed(FieldTexts(undef, w, ls), "}", y)
    ensures ks == ls && x == y
    ensures forall k | k in ks :: v.fields[k] == w.fields[k]
    decreases v, 0, |ks|
  {
    hide Closed, AfterFirst, Text, Quote, Escape;
    var ps, qs := FieldTexts(undef, v, ks), FieldTexts(undef, w, ls);
    if ks != [] { FieldSplit(undef, v, ks, x); }
    if ls != [] { FieldSplit(undef, w, ls, y); }
    ClosedHead(ps, "}", x);
    ClosedHead(qs, "}", y);
    if ks == [] {
      Cut("}", x);
      Cut("}", y);
    } else {
      var textV := Text(undef, v.fields[ks[0]]) + AfterFirst(ps, "}", x);
      var textW := Text(undef, w.fields[ls[0]]) + AfterFirst(qs, "}", y);
      QuotePrefix(ks[0], ls[0], ":" + textV, ":" + textW);
      Cut(":", textV);
      Cut(":", textW);
      ClosedStep(ps, "}", x);
      ClosedStep(qs, "}", y);
      TextPrefix(undef, v.fields[ks[0]], w.fields[ls[0]], AfterFirst(ps, "}", x), AfterFirst(qs, "}", y));
      AfterFirstEqual(ps, qs, "}", x, y);
      if |ks| > 1 {
        FieldsPrefix(undef, v, w, ks[1..], ls[1..], x, y);
      }
      assert ks == [ks[0]] + ks[1..] && ls == [ls[0]] + ls[1..];
    }
  }

  lemma FieldSplit(undef: string, v: Json, keys: seq<string>, rest: string)
    requires v.Object? && keys != [] && forall k | k in keys :: k in v.fields
    ensures var parts := FieldTexts(undef, v, keys);
            Closed(parts, "}", rest) ==
            Quote(keys[0]) + (":" + (Text(undef, v.fields[keys[0]]) + AfterFirst(parts, "}", rest)))
    ensures var parts := FieldTexts(undef, v, keys);
            parts[0] != "" && parts[0][0] == '\"' && parts[1..] == FieldTexts(undef, v, keys[1..])
  {
    hide Closed, Text, Escape;
    var parts := FieldTexts(undef, v, keys);
    ClosedStep(parts, "}", rest);
    Regroup(Quote(keys[0]), Text(undef, v.fields[keys[0]]), AfterFirst(parts, "}", rest));
  }

  lemma Regroup(key: string, text: string, rest: string)
    ensures (key + ":" + text) + rest == key + (":" + (text + rest))
    ensures key + ":" + text == key + (":" + text)
  {}

  /** Equal canonical text means the same value, whatever the order of properties. */
  lemma CanonicalInjective(v: Json, w: Json)
    ensures CanonicalJson(v) == CanonicalJson(w) <==> v == w
  {
    if CanonicalJson(v) == CanonicalJson(w) {
      assert CanonicalJson(v) + "" == CanonicalJson(w) + "";
      TextPrefix("undefined", v, w, "", "");
    }
  }

  /******* Printing `undefined` as nothing *******/

  /** The value with every array of a single `undefined` emptied. */
  function Squeeze(v: Json): Json
    decreases v, 1
  {
    match v
    case Array(items) => if items == [Undefined] then Array([]) else Array(SqueezeItems(items))
    case Object(fields) => Object(map k | k in fields :: Squeeze(fields[k]))
    case _ => v
  }

  function SqueezeItems(items: seq<Json>): (r: seq<Json>)
    ensures |r| == |items|
    decreases items, 0
  {
    if items == [] then [] else [Squeeze(items[0])] + SqueezeItems(items[1..])
  }

  lemma {:induction false} SqueezeSqueezes(v: Json)
    ensures Squeezed(Squeeze(v)) && (Squeeze(v).Undefined? <==> v.Undefined?)
    ensures Squeezed(v) ==> Squeeze(v) == v
    decreases v, 1
  {
    match v {
      case Array(items) => if items != [Undefined] { ItemsSqueezed(items); }
      case Object(fields) =>
        forall k | k in fields ensures Squeezed(Squeeze(fields[k])) && (Squeezed(fields[k]) ==> Squeeze(fields[k]) == fields[k]) {
          SqueezeSqueezes(fields[k]);
        }
      case _ =>
    }
  }

  lemma {:induction false} ItemsSqueezed(items: seq<Json>)
    ensures forall i | 0 <= i < |items| :: Squeezed(SqueezeItems(items)[i]) && (SqueezeItems(items)[i].Undefined? <==> items[i].Undefined?)
    ensures (forall i | 0 <= i < |items| :: Squeezed(items[i])) ==> SqueezeItems(items) == items
    decreases items, 0
  {
    if items != [] {
      SqueezeSqueezes(items[0]);
      ItemsSqueezed(items[1..]);
    }
  }

  lemma {:induction false} SqueezedText(v: Json)
    ensures Text("", Squeeze(v)) == Text("", v)
    decreases v, 2
  {
    match v {
      case Array(items) =>
        if items == [Undefined] {
          assert ItemTexts("", items) == [""];
        } else {
          SqueezedItemTexts(items);
        }
      case Object(fields) =>
        assert Squeeze(v).fields.Keys == fields.Keys;
        SqueezedFieldTexts(v, SortedKeys(fields.Keys));
      case _ =>
    }
  }

  lemma {:induction false} SqueezedItemTexts(items: seq<Json>)
    ensures ItemTexts("", SqueezeItems(items)) == ItemTexts("", items)
    decreases items, 0
  {
    if items != [] {
      SqueezedText(items[0]);
      SqueezedItemTexts(items[1..]);
    }
  }

  lemma {:induction false} SqueezedFieldTexts(v: Json, keys: seq<string>)
    requires v.Object? && forall k | k in keys :: k in v.fields
    ensures FieldTexts("", Squeeze(v), keys) == FieldTexts("", v, keys)
    decreases v, 1, |keys|
  {
    if keys != [] {
      SqueezedText(v.fields[keys[0]]);
      SqueezedFieldTexts(v, keys[1..]);
    }
  }

  /** The second serialiser prints the same text exactly for values that differ only in arrays of a single
      `undefined`, which it does not tell from empty ones. */
  lemma StableStringifyIff(v: Json, w: Json)
    ensures StableStringify(v) == StableStringify(w) <==> Squeeze(v) == Squeeze(w)
  {
    SqueezedText(v);
    SqueezedText(w);
    if StableStringify(v) == StableStringify(w) {
      SqueezeSqueezes(v);
      SqueezeSqueezes(w);
      assert Text("", Squeeze(v)) + "" == Text("", Squeeze(w)) + "";
      TextPrefix("", Squeeze(v), Squeeze(w), "", "");
    }
  }

  /** Two values that it does not tell apart. */
  lemma StableStringifyCollision()
    ensures StableStringify(Array([Undefined])) == StableStringify(Array([])) == "[]"
    ensures CanonicalJson(Array([Undefined])) != CanonicalJson(Array([]))
  {
    CanonicalInjective(Array([Undefined]), Array([]));
    assert ItemTexts("", [Undefined]) == [""];
  }

  lemma {:induction false} DefinedSqueezed(v: Json)
    requires Defined(v)
    ensures Squeezed(v)
  {
    match v {
      case Array(items) =>
        assert items != [] ==> Defined(items[0]);
        forall i | 0 <= i < |items| ensures Squeezed(items[i]) { DefinedSqueezed(items[i]); }
      case Object(fields) =>
        forall k | k in fields ensures Squeezed(fields[k]) { DefinedSqueezed(fields[k]); }
      case _ =>
    }
  }

  /** On request bodies, which are parsed JSON values or absent, it is injective. */
  lemma StableInjective(v: Json, w: Json)
    requires (v.Undefined? || Defined(v)) && (w.Undefined? || Defined(w))
    ensures StableStringify(v) == StableStringify(w) <==> v == w
  {
    if Defined(v) { DefinedSqueezed(v); }
    if Defined(w) { DefinedSqueezed(w); }
    SqueezeSqueezes(v);
    SqueezeSqueezes(w);
    StableStringifyIff(v, w);
  }

  /******* What goes over the wire *******/

  /** JSON.parse(JSON.stringify(v)): properties that are `undefined` are left out, and items become null. */
  function Wire(v: Json): Json
    decreases v, 1
  {
    match v
    case Array(items) => Array(WireItems(items))
    case Object(fields) => Object(map k | k in fields && !fields[k].Undefined? :: Wire(fields[k]))
    case _ => v
  }

  function WireItems(items: seq<Json>): (r: seq<Json>)
    ensures |r| == |items|
    decreases items, 0
  {
    if items == [] then [] else [if items[0].Undefined? then Null else Wire(items[0])] + WireItems(items[1..])
  }

  lemma {:induction false} WireDefined(v: Json)
    ensures v.Undefined? || Defined(Wire(v))
    decreases v, 1
  {
    match v {
      case Array(items) => WireItemsDefined(items);
      case Object(fields) =>
        forall k | k in fields && !fields[k].Undefined? ensures Defined(Wire(fields[k])) { WireDefined(fields[k]); }
      case _ =>
    }
  }

  lemma {:induction false} WireItemsDefined(items: seq<Json>)
    ensures forall i | 0 <= i < |items| :: Defined(WireItems(items)[i])
    decreases items, 0
  {
    if items != [] {
      WireDefined(items[0]);
      WireItemsDefined(items[1..]);
    }
  }

  /** The text the client compares and what it sends together determine a value. */
  lemma {:induction false} WireAndSqueeze(v: Json, w: Json)
    requires Squeeze(v) == Squeeze(w) && Wire(v) == Wire(w)
    ensures v == w
    decreases v, 1
  {
    match v {
      case Array(items) =>
        if items != [Undefined] && w.items != [Undefined] { ItemsWireAndSqueeze(items, w.items); }
      case Object(fields) =>
        assert Squeeze(v).fields.Keys == fields.Keys && Squeeze(w).fields.Keys == w.fields.Keys;
        forall k | k in fields ensures fields[k] == w.fields[k] {
          assert Squeeze(v).fields[k] == Squeeze(fields[k]) && Squeeze(w).fields[k] == Squeeze(w.fields[k]);
          SqueezeSqueezes(fields[k]);
          SqueezeSqueezes(w.fields[k]);
          if !fields[k].Undefined? {
            assert Wire(v).fields[k] == Wire(fields[k]) && Wire(w).fields[k] == Wire(w.fields[k]);
            WireAndSqueeze(fields[k], w.fields[k]);
          }
        }
        assert fields == w.fields;
      case _ =>
    }
  }

  lemma {:induction false} ItemsWireAndSqueeze(vs: seq<Json>, ws: seq<Json>)
    requires SqueezeItems(vs) == SqueezeItems(ws) && WireItems(vs) == WireItems(ws)
    ensures vs == ws
    decreases vs, 0
  {
    if vs != [] {
      assert SqueezeItems(vs)[0] == Squeeze(vs[0]) && SqueezeItems(ws)[0] == Squeeze(ws[0]);
      assert SqueezeItems(vs)[1..] == SqueezeItems(vs[1..]) && SqueezeItems(ws)[1..] == SqueezeItems(ws[1..]);
      assert WireItems(vs)[1..] == WireItems(vs[1..]) && WireItems(ws)[1..] == WireItems(ws[1..]);
      SqueezeSqueezes(vs[0]);
      SqueezeSqueezes(ws[0]);
      if !vs[0].Undefined? {
        assert WireItems(vs)[0] == Wire(vs[0]) && WireItems(ws)[0] == Wire(ws[0]);
        WireAndSqueeze(vs[0], ws[0]);
      }
      ItemsWireAndSqueeze(vs[1..], ws[1..]);
      assert vs == [vs[0]] + vs[1..] && ws == [ws[0]] + ws[1..];
    }
  }

  /** Of two values with one text, the same goes over the wire exactly when they are equal. */
  lemma SameTextSameWireIff(v: Json, w: Json)
    requires StableStringify(v) == StableStringify(w)
    ensures Wire(v) == Wire(w) <==> v == w
  {
    StableStringifyIff(v, w);
    if Wire(v) == Wire(w) { WireAndSqueeze(v, w); }
  }

  /** No array in the value is empty or a single `undefined`. */
  ghost predicate Plain(v: Json) {
    match v
    case Array(items) => items != [] && items != [Undefined] && forall i | 0 <= i < |items| :: Plain(items[i])
    case Object(fields) => forall k | k in fields :: Plain(fields[k])
    case _ => true
  }

  lemma {:induction false} PlainDetermined(v: Json, w: Json)
    requires Plain(v) && Squeeze(v) == Squeeze(w)
    ensures v == w
    decreases v, 1
  {
    match v {
      case Array(items) => ItemsDetermined(items, w.items);
      case Object(fields) =>
        assert Squeeze(v).fields.Keys == fields.Keys && Squeeze(w).fields.Keys == w.fields.Keys;
        forall k | k in fields ensures fields[k] == w.fields[k] {
          assert Squeeze(v).fields[k] == Squeeze(fields[k]) && Squeeze(w).fields[k] == Squeeze(w.fields[k]);
          PlainDetermined(fields[k], w.fields[k]);
        }
        assert fields == w.fields;
      case _ =>
    }
  }

  lemma {:induction false} ItemsDetermined(vs: seq<Json>, ws: seq<Json>)
    requires SqueezeItems(vs) == SqueezeItems(ws) && forall i | 0 <= i < |vs| :: Plain(vs[i])
    ensures vs == ws
    decreases vs, 0
  {
    if vs != [] {
      assert SqueezeItems(vs)[0] == Squeeze(vs[0]) && SqueezeItems(ws)[0] == Squeeze(ws[0]);
      assert SqueezeItems(vs)[1..] == SqueezeItems(vs[1..]) && SqueezeItems(ws)[1..] == SqueezeItems(ws[1..]);
      PlainDetermined(vs[0], ws[0]);
      ItemsDetermined(vs[1..], ws[1..]);
      assert vs == [vs[0]] + vs[1..] && ws == [ws[0]] + ws[1..];
    }
  }

  /** The value with empty arrays and arrays of a single `undefined` exchanged. */
  function Flip(v: Json): Json
    decreases v, 1
  {
    match v
    case Array(items) => if items == [] then Array([Undefined]) else if items == [Undefined] then Array([]) else Array(FlipItems(items))
    case Object(fields) => Object(map k | k in fields :: Flip(fields[k]))
    case _ => v
  }

  function FlipItems(items: seq<Json>): (r: seq<Json>)
    ensures |r| == |items|
    decreases items, 0
  {
    if items == [] then [] else [Flip(items[0])] + FlipItems(items[1..])
  }

  lemma {:induction false} FlipSqueezes(v: Json)
    ensures Squeeze(Flip(v)) == Squeeze(v) && (Flip(v) == v ==> Plain(v)) && (Flip(v).Undefined? <==> v.Undefined?)
    decreases v, 1
  {
    match v {
      case Array(items) =>
        if items != [] && items != [Undefined] { FlippedItems(items); }
      case Object(fields) =>
        forall k | k in fields ensures Squeeze(Flip(fields[k])) == Squeeze(fields[k]) && (Flip(fields[k]) == fields[k] ==> Plain(fields[k])) {
          FlipSqueezes(fields[k]);
        }
        FlippedFields(fields);
      case _ =>
    }
  }

  lemma FlippedFields(fields: map<string, Json>)
    requires forall k | k in fields :: Squeeze(Flip(fields[k])) == Squeeze(fields[k]) && (Flip(fields[k]) == fields[k] ==> Plain(fields[k]))
    ensures var v := Object(fields); Squeeze(Flip(v)) == Squeeze(v) && (Flip(v) == v ==> Plain(v))
  {
    var flipped := map k | k in fields :: Flip(fields[k]);
    assert Flip(Object(fields)) == Object(flipped) && flipped.Keys == fields.Keys;
    assert Squeeze(Object(flipped)).fields == Squeeze(Object(fields)).fields;
    if flipped == fields {
      forall k | k in fields ensures Plain(fields[k]) { assert flipped[k] == Flip(fields[k]); }
    }
  }

  lemma {:induction false} FlippedItems(items: seq<Json>)
    ensures SqueezeItems(FlipItems(items)) == SqueezeItems(items)
    ensures FlipItems(items) == items ==> forall i | 0 <= i < |items| :: Plain(items[i])
    ensures FlipItems(items) == [Undefined] <==> items == [Undefined]
    decreases items, 0
  {
    if items != [] {
      FlipSqueezes(items[0]);
      FlippedItems(items[1..]);
      assert FlipItems(items)[0] == Flip(items[0]) && FlipItems(items)[1..] == FlipItems(items[1..]);
      if FlipItems(items) == items {
        assert FlipItems(items[1..]) == items[1..];
      }
    }
  }

  /** The text of a value says what goes over the wire exactly when no array in it is empty or a single
      `undefined`. */
  lemma TextFixesWireIff(v: Json)
    ensures (forall w | StableStringify(w) == StableStringify(v) :: Wire(w) == Wire(v)) <==> Plain(v)
  {
    hide StableStringify, Wire, Squeeze, Plain, Flip;
    if Plain(v) {
      forall w | StableStringify(w) == StableStringify(v) ensures Wire(w) == Wire(v) {
        StableStringifyIff(v, w);
        PlainDetermined(v, w);
      }
    } else {
      FlipSqueezes(v);
      StableStringifyIff(Flip(v), v);
      SameTextSameWireIff(Flip(v), v);
    }
  }
}
