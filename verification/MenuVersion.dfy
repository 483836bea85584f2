/** Last-writer-wins order on menu records (backend/sync/service.ts). */
module MenuVersion {
  import opened Results
  import opened Json

  datatype Verdict = Newer | Stale | Same

  /******* Reading a payload *******/

  function Property(payload: Json, name: string): Json {
    if payload.Object? && name in payload.fields then payload.fields[name] else Undefined
  }

  /** String(value ?? ''). */
  function AsText(value: Json): string {
    match value
    case Undefined => ""
    case Null => ""
    case Bool(b) => if b then "true" else "false"
    case Number(t) => t
    case String(s) => s
    case Array(items) => Join(AllAsText(items))
    case Object(_) => "[object Object]"
  }

  function AllAsText(values: seq<Json>): seq<string> {
    if values == [] then [] else [AsText(values[0])] + AllAsText(values[1..])
  }

  /******* Timestamps *******/

  predicate IsDigit(c: char) { '0' <= c <= '9' }

  predicate DigitsAt(t: string, from: nat, until: nat)
    requires from <= until <= |t|
  {
    forall i | from <= i < until :: IsDigit(t[i])
  }

  /** The form Date.prototype.toISOString writes: 2026-09-23T10:05:00.000Z. */
  predicate IsIsoText(t: string) {
    && |t| == 24
    && t[4] == '-' && t[7] == '-' && t[10] == 'T' && t[13] == ':' && t[16] == ':' && t[19] == '.' && t[23] == 'Z'
    && DigitsAt(t, 0, 4) && DigitsAt(t, 5, 7) && DigitsAt(t, 8, 10)
    && DigitsAt(t, 11, 13) && DigitsAt(t, 14, 16) && DigitsAt(t, 17, 19) && DigitsAt(t, 20, 23)
  }

  function Digits(t: string, from: nat, until: nat): nat
    requires from <= until <= |t| && DigitsAt(t, from, until)
    decreases until
  {
    if from == until then 0 else 10 * Digits(t, from, until - 1) + (t[until - 1] as int - '0' as int)
  }

  predicate IsLeap(year: nat) { year % 4 == 0 && (year % 100 != 0 || year % 400 == 0) }

  function DaysBeforeYear(year: nat): int {
    365 * year + (year + 3) / 4 - (year + 99) / 100 + (year + 399) / 400
  }

  function DaysBeforeMonth(year: nat, month: nat): int
    requires 1 <= month <= 12
  {
    [0, 31, 59, 90, 120, 151, 181, 212, 243, 273, 304, 334][month - 1] + if month > 2 && IsLeap(year) then 1 else 0
  }

  function DaysInMonth(year: nat, month: nat): int
    requires 1 <= month <= 12
  {
    [31, 28, 31, 30, 31, 30, 31, 31, 30, 31, 30, 31][month - 1] + if month == 2 && IsLeap(year) then 1 else 0
  }

  const DAYS_TO_1970 := 719528

  /** Date.parse, in milliseconds since 1970; None stands for NaN. */
  function ParseInstant(t: string): Option<int> {
    if !IsIsoText(t) then None
    else
      var year, month, day := Digits(t, 0, 4), Digits(t, 5, 7), Digits(t, 8, 10);
      var hour, minute, second, ms := Digits(t, 11, 13), Digits(t, 14, 16), Digits(t, 17, 19), Digits(t, 20, 23);
      if !(1 <= year && 1 <= month <= 12 && 1 <= day <= DaysInMonth(year, month) && hour < 24 && minute < 60 && second < 60) then None
      else
        var days := DaysBeforeYear(year) + DaysBeforeMonth(year, month) + day - 1 - DAYS_TO_1970;
        Some((((days * 24 + hour) * 60 + minute) * 60 + second) * 1000 + ms)
  }

  /** Midnight at the start of a year. */
  function NewYear(year: string): string {
    year + "-01-01T00:00:00.000Z"
  }

  lemma NewYearInstant(year: string)
    requires |year| == 4 && DigitsAt(year, 0, 4) && Digits(year, 0, 4) > 0
    ensures ParseInstant(NewYear(year)) == Some((DaysBeforeYear(Digits(year, 0, 4)) - DAYS_TO_1970) * 86400000)
  {
    var t := NewYear(year);
    NewYearIso(year);
    NewYearDigits(year);
    hide IsIsoText, DaysBeforeYear, Digits;
  }

  lemma NewYearIso(year: string)
    requires |year| == 4 && DigitsAt(year, 0, 4)
    ensures IsIsoText(NewYear(year))
  {
    assert NewYear(year)[..4] == year;
  }

  lemma NewYearDigits(year: string)
    requires |year| == 4 && DigitsAt(year, 0, 4) && IsIsoText(NewYear(year))
    ensures var t := NewYear(year);
            && Digits(t, 0, 4) == Digits(year, 0, 4) && Digits(t, 5, 7) == Digits(t, 8, 10) == 1
            && Digits(t, 11, 13) == Digits(t, 14, 16) == Digits(t, 17, 19) == Digits(t, 20, 23) == 0
  {
    var t := NewYear(year);
    assert t[..4] == year;
    DigitsPrefix(t, year, 4);
    TwoDigits(t, 5);
    TwoDigits(t, 8);
    TwoDigits(t, 11);
    TwoDigits(t, 14);
    TwoDigits(t, 17);
    TwoDigits(t, 20);
    hide DigitsAt;
  }

  lemma TwoDigits(t: string, i: nat)
    requires i + 2 <= |t| && DigitsAt(t, i, i + 2)
    ensures Digits(t, i, i + 2) == 10 * (t[i] as int - '0' as int) + (t[i + 1] as int - '0' as int)
  {
    assert Digits(t, i, i + 1) == t[i] as int - '0' as int;
  }

  lemma {:induction false} DigitsPrefix(t: string, u: string, n: nat)
    requires n <= |u| <= |t| && t[..|u|] == u && DigitsAt(u, 0, n) && DigitsAt(t, 0, n)
    ensures Digits(t, 0, n) == Digits(u, 0, n)
  {
    if n > 0 {
      assert t[n - 1] == t[..|u|][n - 1];
      DigitsPrefix(t, u, n - 1);
    }
  }

  function Instant(payload: Json): Option<int> {
    ParseInstant(AsText(Property(payload, "updatedAt")))
  }

  /** Carries a readable timestamp. */
  predicate Stamped(payload: Json) {
    Instant(payload).Some?
  }

  /** Words that a TIMESTAMPTZ column reads as a time and Date.parse does not. */
  const TIME_WORDS: set<string> := {"infinity", "-infinity", "epoch", "now", "today", "tomorrow", "yesterday"}

  /** The audit row of the version can be written: its version_at is a time for the database. */
  predicate Recordable(payload: Json) {
    Stamped(payload) || AsText(Property(payload, "updatedAt")) in TIME_WORDS
  }

  function Priority(payload: Json): int {
    var source := Property(payload, "updatedSource");
    if source == String("CLOUD_MANAGER") then 2 else if source == String("LOCAL_POS") then 1 else 0
  }

  /******* The comparison *******/

  /** The three levels for two readable timestamps: time, then source, then text. */
  function Decide(time: int, priority: int, text: string, heldTime: int, heldPriority: int, heldText: string): Verdict {
    if time > heldTime then Newer
    else if time < heldTime then Stale
    else if text == heldText then Same
    else if priority != heldPriority then if priority > heldPriority then Newer else Stale
    else if StringLess(heldText, text) then Newer
    else Stale
  }

  function Compare(incoming: Json, current: Option<Json>): Result<Verdict> {
    match current
    case None => Ok(Newer)
    case Some(stored) =>
      match (Instant(incoming), Instant(stored))
      case (None, _) => Err("Menu sync payload requires a valid trusted updatedAt timestamp.")
      case (Some(_), None) => Ok(Newer)
      case (Some(time), Some(heldTime)) =>
        Ok(Decide(time, Priority(incoming), CanonicalJson(incoming), heldTime, Priority(stored), CanonicalJson(stored)))
  }

  lemma DecideTrichotomy(t: int, p: int, s: string, u: int, q: int, r: string)
    requires s == r ==> t == u && p == q
    ensures Decide(t, p, s, u, q, r) == Same <==> s == r
    ensures Decide(t, p, s, u, q, r) == Newer <==> Decide(u, q, r, t, p, s) == Stale
    ensures Decide(t, p, s, u, q, r) == Stale <==> Decide(u, q, r, t, p, s) == Newer
  {
    StringLessTotal(s, r);
  }

  lemma DecideTransitive(t: int, p: int, s: string, u: int, q: int, r: string, v: int, o: int, n: string)
    requires (s == r ==> p == q) && (r == n ==> q == o) && (s == n ==> p == o)
    requires Decide(t, p, s, u, q, r) == Newer && Decide(u, q, r, v, o, n) == Newer
    ensures Decide(t, p, s, v, o, n) == Newer
  {
    StringLessTotal(n, r);
    if StringLess(n, r) && StringLess(r, s) {
      StringLessTransitive(n, r, s);
      StringLessTotal(n, n);
    }
  }

  /** `a` replaces a stored `b`. */
  predicate Supersedes(a: Json, b: Json) {
    Compare(a, Some(b)) == Ok(Newer)
  }

  /** A stored `a` already accounts for `b`. */
  predicate AtLeast(a: Json, b: Json) {
    a == b || Supersedes(a, b)
  }

  lemma StampedCompares(a: Json, current: Option<Json>)
    requires Stamped(a)
    ensures Compare(a, current).Ok?
    ensures current == None ==> Compare(a, current) == Ok(Newer)
  {}

  /** On stamped records the verdict is exactly one of three, `Same` means the same record,
      and swapping the records swaps `Newer` and `Stale`. */
  lemma CompareTrichotomy(a: Json, b: Json)
    requires Stamped(a) && Stamped(b)
    ensures Compare(a, Some(b)).Ok?
    ensures Compare(a, Some(b)) == Ok(Same) <==> a == b
    ensures Supersedes(a, b) <==> Compare(b, Some(a)) == Ok(Stale)
    ensures Supersedes(b, a) <==> Compare(a, Some(b)) == Ok(Stale)
    ensures !(Supersedes(a, b) && Supersedes(b, a))
    ensures a == b || Supersedes(a, b) || Supersedes(b, a)
  {
    CanonicalInjective(a, b);
    DecideTrichotomy(Instant(a).value, Priority(a), CanonicalJson(a), Instant(b).value, Priority(b), CanonicalJson(b));
  }

  lemma SupersedesTransitive(a: Json, b: Json, c: Json)
    requires Stamped(a) && Stamped(b) && Stamped(c)
    requires Supersedes(a, b) && Supersedes(b, c)
    ensures Supersedes(a, c)
  {
    CanonicalInjective(a, b);
    CanonicalInjective(b, c);
    CanonicalInjective(a, c);
    DecideTransitive(Instant(a).value, Priority(a), CanonicalJson(a), Instant(b).value, Priority(b), CanonicalJson(b),
                     Instant(c).value, Priority(c), CanonicalJson(c));
  }

  /** Only stamped records are ordered: an unstamped one is accepted where nothing is stored,
      gives way to every stamped one, and stops the comparison anywhere else. */
  lemma UnstampedVerdict(a: Json, current: Option<Json>)
    requires !Stamped(a)
    ensures Compare(a, current).Ok? <==> current == None
    ensures current.Some? && Stamped(current.value) ==> Compare(current.value, Some(a)) == Ok(Newer)
  {}

  lemma AtLeastTransitive(a: Json, b: Json, c: Json)
    requires Stamped(a) && Stamped(b) && Stamped(c)
    requires AtLeast(a, b) && AtLeast(b, c)
    ensures AtLeast(a, c)
  {
    if a != b && b != c { SupersedesTransitive(a, b, c); }
  }

  lemma AtLeastAntisymmetric(a: Json, b: Json)
    requires Stamped(a) && Stamped(b)
    requires AtLeast(a, b) && AtLeast(b, a)
    ensures a == b
  {
    CompareTrichotomy(a, b);
  }
}
