/** What "newer" means for two versions of a menu record (backend/sync/service.ts): the texts of their
    timestamps, read as dates, are in the order of the texts. */
module MenuOrder {
  import opened Results
  import opened Json
  import opened MenuVersion
  import MenuMerge

  /******* The calendar *******/

  /** A date and a time of day, and the instant they stand for. */
  datatype Moment = Moment(year: nat, month: nat, day: nat, hour: nat, minute: nat, second: nat, ms: nat)

  predicate IsMoment(m: Moment) {
    1 <= m.year && 1 <= m.month <= 12 && 1 <= m.day <= DaysInMonth(m.year, m.month) && m.hour < 24 && m.minute < 60 && m.second < 60 && m.ms < 1000
  }

  function MomentOf(t: string): Moment
    requires IsIsoText(t)
  {
    Moment(Digits(t, 0, 4), Digits(t, 5, 7), Digits(t, 8, 10), Digits(t, 11, 13), Digits(t, 14, 16), Digits(t, 17, 19), Digits(t, 20, 23))
  }

  function DayOf(m: Moment): int
    requires IsMoment(m)
  {
    DaysBeforeYear(m.year) + DaysBeforeMonth(m.year, m.month) + m.day - 1
  }

  function TimeOf(m: Moment): int {
    ((m.hour * 60 + m.minute) * 60 + m.second) * 1000 + m.ms
  }

  /** Months and years follow one another without gap or overlap. */
  lemma MonthsAddUp(year: nat, month: nat)
    requires 1 <= month <= 12
    ensures month < 12 ==> DaysBeforeMonth(year, month + 1) == DaysBeforeMonth(year, month) + DaysInMonth(year, month)
    ensures month == 12 ==> DaysBeforeYear(year + 1) == DaysBeforeYear(year) + DaysBeforeMonth(year, month) + DaysInMonth(year, month)
    ensures DaysBeforeMonth(year, 1) == 0
  {
    YearLength(year);
  }

  lemma YearLength(year: nat)
    ensures DaysBeforeYear(year + 1) == DaysBeforeYear(year) + if IsLeap(year) then 366 else 365
  {
    assert (year + 4) / 4 == (year + 3) / 4 + if year % 4 == 0 then 1 else 0;
    assert (year + 100) / 100 == (year + 99) / 100 + if year % 100 == 0 then 1 else 0;
    assert (year + 400) / 400 == (year + 399) / 400 + if year % 400 == 0 then 1 else 0;
    Centuries(year);
  }

  lemma Centuries(year: nat)
    ensures year % 400 == 0 ==> year % 100 == 0
    ensures year % 100 == 0 ==> year % 4 == 0
  {
    if year % 400 == 0 { FourHundreds(year / 400); }
    if year % 100 == 0 { Hundreds(year / 100); }
  }

  lemma FourHundreds(q: nat)
    ensures (400 * q) % 100 == 0
  {}

  lemma Hundreds(q: nat)
    ensures (100 * q) % 4 == 0
  {}

  lemma {:induction false} YearsAscend(year: nat, other: nat)
    requires year < other
    ensures DaysBeforeYear(year + 1) <= DaysBeforeYear(other)
    decreases other - year
  {
    hide DaysBeforeYear, IsLeap;
    YearLength(year + 1);
    if year + 1 < other { YearsAscend(year + 1, other); }
  }

  lemma {:induction false} MonthsAscend(year: nat, month: nat, other: nat)
    requires 1 <= month < other <= 12
    ensures DaysBeforeMonth(year, month) + DaysInMonth(year, month) <= DaysBeforeMonth(year, other)
    decreases other - month
  {
    hide IsLeap;
    MonthsAddUp(year, month);
    if month + 1 < other { MonthsAscend(year, month + 1, other); }
  }

  lemma DayWithinYear(m: Moment)
    requires IsMoment(m)
    ensures DaysBeforeYear(m.year) <= DayOf(m) < DaysBeforeYear(m.year + 1)
  {
    hide DaysBeforeYear, IsLeap, DaysInMonth, DaysBeforeMonth;
    MonthsAddUp(m.year, 1);
    MonthsAddUp(m.year, 12);
    if m.month > 1 { MonthsAscend(m.year, 1, m.month); MonthDays(m.year, 1); }
    if m.month < 12 { MonthsAscend(m.year, m.month, 12); MonthDays(m.year, 12); }
  }

  lemma MonthDays(year: nat, month: nat)
    requires 1 <= month <= 12
    ensures 28 <= DaysInMonth(year, month) <= 31
  {}

  /** The earlier date in the order of year, month and day. */
  predicate DateBefore(m: Moment, n: Moment) {
    m.year < n.year || (m.year == n.year && (m.month < n.month || (m.month == n.month && m.day < n.day)))
  }

  predicate TimeBefore(m: Moment, n: Moment) {
    m.hour < n.hour || (m.hour == n.hour && (m.minute < n.minute || (m.minute == n.minute &&
      (m.second < n.second || (m.second == n.second && m.ms < n.ms)))))
  }

  predicate Before(m: Moment, n: Moment) {
    DateBefore(m, n) || (m.year == n.year && m.month == n.month && m.day == n.day && TimeBefore(m, n))
  }

  lemma DatesAscend(m: Moment, n: Moment)
    requires IsMoment(m) && IsMoment(n) && DateBefore(m, n)
    ensures DayOf(m) < DayOf(n)
  {
    hide DaysBeforeYear, IsLeap, DaysInMonth, DaysBeforeMonth;
    if m.year < n.year {
      hide DayOf;
      DayWithinYear(m);
      DayWithinYear(n);
      YearsAscend(m.year, n.year);
    } else if m.month < n.month {
      MonthsAscend(m.year, m.month, n.month);
    }
  }

  lemma TimesAscend(m: Moment, n: Moment)
    requires IsMoment(m) && IsMoment(n)
    ensures TimeBefore(m, n) ==> TimeOf(m) < TimeOf(n)
    ensures 0 <= TimeOf(m) < 86400000
  {
    hide DaysInMonth;
  }

  /******* Reading a text *******/

  /** A text is read exactly when it has the form and names a date and time that exist; what is read counts
      the milliseconds from 1970. */
  lemma ReadsMoment(t: string)
    ensures ParseInstant(t).Some? <==> IsIsoText(t) && IsMoment(MomentOf(t))
    ensures ParseInstant(t).Some? ==> ParseInstant(t).value == (DayOf(MomentOf(t)) - DAYS_TO_1970) * 86400000 + TimeOf(MomentOf(t))
  {
    if IsIsoText(t) {
      Thousands(t);
      hide Digits, IsIsoText, DaysInMonth, DaysBeforeMonth, DaysBeforeYear;
    }
  }

  lemma Thousands(t: string)
    requires IsIsoText(t)
    ensures Digits(t, 20, 23) < 1000
  {
    assert Digits(t, 20, 21) == t[20] as int - '0' as int;
    assert Digits(t, 20, 22) == 10 * Digits(t, 20, 21) + (t[21] as int - '0' as int);
  }

  lemma MomentsAscend(t: string, u: string)
    requires ParseInstant(t).Some? && ParseInstant(u).Some? && Before(MomentOf(t), MomentOf(u))
    ensures ParseInstant(t).value < ParseInstant(u).value
  {
    ReadsMoment(t);
    ReadsMoment(u);
    hide ParseInstant, IsIsoText, DayOf, TimeOf, Digits;
    var m, n := MomentOf(t), MomentOf(u);
    TimesAscend(m, n);
    TimesAscend(n, m);
    if DateBefore(m, n) {
      DatesAscend(m, n);
    } else {
      SameDay(m, n);
    }
  }

  lemma SameDay(m: Moment, n: Moment)
    requires IsMoment(m) && IsMoment(n) && m.year == n.year && m.month == n.month && m.day == n.day
    ensures DayOf(m) == DayOf(n)
  {}

  /** The first position at which two texts differ. */
  predicate FirstDifference(t: string, u: string, i: nat) {
    i < |t| && i < |u| && t[..i] == u[..i] && t[i] != u[i]
  }

  lemma {:induction false} SomeDifference(t: string, u: string) returns (i: nat)
    requires |t| == |u| && t != u
    ensures FirstDifference(t, u, i)
  {
    if t[0] != u[0] {
      i := 0;
    } else {
      assert t == [t[0]] + t[1..] && u == [u[0]] + u[1..];
      i := SomeDifference(t[1..], u[1..]);
      assert t[..i + 1] == [t[0]] + t[1..][..i] && u[..i + 1] == [u[0]] + u[1..][..i];
      i := i + 1;
    }
  }

  lemma {:induction false} DecidedThere(t: string, u: string, i: nat)
    requires FirstDifference(t, u, i)
    ensures StringLess(t, u) <==> CodeUnitRank(t[i]) < CodeUnitRank(u[i])
    decreases i
  {
    if i > 0 {
      assert t[0] == t[..i][0] && u[0] == u[..i][0];
      assert t[1..][..i - 1] == t[..i][1..] && u[1..][..i - 1] == u[..i][1..];
      DecidedThere(t[1..], u[1..], i - 1);
    } else if CodeUnitRank(t[0]) == CodeUnitRank(u[0]) {
      RankInjective(t[0], u[0]);
    }
  }

  lemma {:induction false} SameDigits(t: string, u: string, from: nat, until: nat)
    requires from <= until <= |t| && until <= |u| && DigitsAt(t, from, until) && DigitsAt(u, from, until) && t[..until] == u[..until]
    ensures Digits(t, from, until) == Digits(u, from, until)
    decreases until
  {
    if from < until {
      assert t[until - 1] == t[..until][until - 1] && u[until - 1] == u[..until][until - 1];
      assert t[..until - 1] == t[..until][..until - 1] && u[..until - 1] == u[..until][..until - 1];
      SameDigits(t, u, from, until - 1);
    }
  }

  /** The first differing digit decides which number is larger. */
  lemma {:induction false} DigitsDecide(t: string, u: string, from: nat, until: nat, i: nat)
    requires FirstDifference(t, u, i) && from <= i < until <= |t| && until <= |u| && DigitsAt(t, from, until) && DigitsAt(u, from, until)
    requires t[i] < u[i]
    ensures Digits(t, from, until) < Digits(u, from, until)
    decreases until
  {
    if i == until - 1 {
      SameDigits(t, u, from, i);
    } else {
      DigitsDecide(t, u, from, until - 1, i);
    }
  }

  lemma FieldSame(t: string, u: string, from: nat, until: nat, i: nat)
    requires FirstDifference(t, u, i) && from <= until <= i && DigitsAt(t, from, until) && DigitsAt(u, from, until)
    ensures Digits(t, from, until) == Digits(u, from, until)
  {
    assert t[..until] == t[..i][..until] && u[..until] == u[..i][..until];
    SameDigits(t, u, from, until);
  }

  /** Where two timestamps first differ there are digits, and the smaller digit means the earlier moment. */
  lemma SmallerIsEarlier(t: string, u: string, i: nat)
    requires IsIsoText(t) && IsIsoText(u) && FirstDifference(t, u, i) && t[i] < u[i]
    ensures Before(MomentOf(t), MomentOf(u))
  {
    hide Digits, FirstDifference;
    assert t[i] != u[i] && i < 24 by { Differs(t, u, i); }
    if i < 4 {
      DigitsDecide(t, u, 0, 4, i);
    } else {
      FieldSame(t, u, 0, 4, i);
      if i < 7 {
        DigitsDecide(t, u, 5, 7, i);
      } else {
        FieldSame(t, u, 5, 7, i);
        if i < 10 {
          DigitsDecide(t, u, 8, 10, i);
        } else {
          FieldSame(t, u, 8, 10, i);
          EarlierTime(t, u, i);
        }
      }
    }
  }

  lemma Differs(t: string, u: string, i: nat)
    requires FirstDifference(t, u, i)
    ensures i < |t| && i < |u| && t[i] != u[i]
  {}

  lemma EarlierTime(t: string, u: string, i: nat)
    requires IsIsoText(t) && IsIsoText(u) && FirstDifference(t, u, i) && t[i] < u[i] && i >= 10
    ensures TimeBefore(MomentOf(t), MomentOf(u))
  {
    hide Digits, FirstDifference;
    assert t[i] != u[i] && i < 24 by { Differs(t, u, i); }
    if i < 13 {
      DigitsDecide(t, u, 11, 13, i);
    } else {
      FieldSame(t, u, 11, 13, i);
      if i < 16 {
        DigitsDecide(t, u, 14, 16, i);
      } else {
        FieldSame(t, u, 14, 16, i);
        if i < 19 {
          DigitsDecide(t, u, 17, 19, i);
        } else {
          FieldSame(t, u, 17, 19, i);
          DigitsDecide(t, u, 20, 23, i);
        }
      }
    }
  }

  /** Of two timestamps that can be read, the smaller text is the earlier instant, and only equal texts are
      the same instant. */
  lemma InstantOrder(t: string, u: string)
    requires ParseInstant(t).Some? && ParseInstant(u).Some?
    ensures ParseInstant(t).value < ParseInstant(u).value <==> StringLess(t, u)
    ensures ParseInstant(t).value == ParseInstant(u).value <==> t == u
  {
    if t == u {
      StringLessTotal(t, u);
    } else {
      ReadsMoment(t);
      ReadsMoment(u);
      hide ParseInstant, Digits, DayOf, TimeOf;
      var i := SomeDifference(t, u);
      DecidedThere(t, u, i);
      DigitRank(t, u, i);
      Swapped(t, u, i);
      if t[i] < u[i] {
        SmallerIsEarlier(t, u, i);
        MomentsAscend(t, u);
      } else {
        SmallerIsEarlier(u, t, i);
        MomentsAscend(u, t);
      }
    }
  }

  lemma Swapped(t: string, u: string, i: nat)
    requires FirstDifference(t, u, i)
    ensures FirstDifference(u, t, i)
  {}

  lemma DigitRank(t: string, u: string, i: nat)
    requires IsIsoText(t) && IsIsoText(u) && FirstDifference(t, u, i)
    ensures CodeUnitRank(t[i]) < CodeUnitRank(u[i]) <==> t[i] < u[i]
  {}

  /** The instants are those of the common calendar: counting starts in 1970, and a day has passed from one
      midnight to the next. */
  lemma EpochIsZero()
    ensures ParseInstant(NewYear("1970")) == Some(0)
  {
    Nineteen();
    DaysToEpoch();
    NewYearInstant("1970");
    hide ParseInstant, NewYear, Digits, DigitsAt, DaysBeforeYear;
  }

  lemma DaysToEpoch()
    ensures DaysBeforeYear(1970) == DAYS_TO_1970
  {}

  lemma Nineteen()
    ensures DigitsAt("1970", 0, 4) && Digits("1970", 0, 4) == 1970
  {
    assert Digits("1970", 0, 1) == 1;
    assert Digits("1970", 0, 2) == 19;
    assert Digits("1970", 0, 3) == 197;
  }

  /******* Which version is newer *******/

  function TimeText(payload: Json): string {
    AsText(Property(payload, "updatedAt"))
  }

  predicate From(payload: Json, source: string) {
    Property(payload, "updatedSource") == String(source)
  }

  /** The cloud manager before the local system, and that before anybody else. */
  predicate Outranks(a: Json, b: Json) {
    (From(a, "CLOUD_MANAGER") && !From(b, "CLOUD_MANAGER")) ||
    (From(a, "LOCAL_POS") && !From(b, "LOCAL_POS") && !From(b, "CLOUD_MANAGER"))
  }

  /** The later text wins, then the source of higher rank, then the larger canonical text. */
  predicate Wins(a: Json, b: Json) {
    StringLess(TimeText(b), TimeText(a)) ||
    (TimeText(a) == TimeText(b) && (Outranks(a, b) || (!Outranks(b, a) && StringLess(CanonicalJson(b), CanonicalJson(a)))))
  }

  lemma NewerMeans(a: Json, b: Json)
    requires Stamped(a) && Stamped(b)
    ensures Compare(a, Some(b)) == Ok(Newer) <==> Wins(a, b)
    ensures Compare(a, Some(b)) == Ok(Stale) <==> Wins(b, a)
    ensures Compare(a, Some(b)) == Ok(Same) <==> a == b
  {
    CompareTrichotomy(a, b);
    NewerWins(a, b);
    NewerWins(b, a);
  }

  lemma NewerWins(a: Json, b: Json)
    requires Stamped(a) && Stamped(b)
    ensures Compare(a, Some(b)) == Ok(Newer) <==> Wins(a, b)
  {
    InstantOrder(TimeText(a), TimeText(b));
    InstantOrder(TimeText(b), TimeText(a));
    CanonicalInjective(a, b);
    StringLessTotal(CanonicalJson(b), CanonicalJson(a));
    RankedBySource(a, b);
    hide ParseInstant, CanonicalJson, StringLess, TimeText, Priority, Outranks;
    assert Instant(a) == ParseInstant(TimeText(a)) && Instant(b) == ParseInstant(TimeText(b)) by { TimeTextOf(a); TimeTextOf(b); }
    hide Instant;
  }

  lemma TimeTextOf(a: Json)
    ensures Instant(a) == ParseInstant(TimeText(a))
  {}

  lemma RankedBySource(a: Json, b: Json)
    ensures Priority(a) > Priority(b) <==> Outranks(a, b)
    ensures Priority(b) > Priority(a) <==> Outranks(b, a)
  {}

  /******* Which versions are accepted *******/

  /** The property reads as this text. */
  predicate Reads(payload: Json, name: string, text: string) {
    AsText(Property(payload, name)) == text
  }

  /** How a property reads: a string as itself; a truth value or number as it is printed; nothing and null as the
      empty text. */
  lemma PropertyReads(payload: Json, name: string, text: string)
    ensures Property(payload, name) == (if payload.Object? && name in payload.fields then payload.fields[name] else Undefined)
    ensures var v := Property(payload, name);
            && (v == String(text) ==> Reads(payload, name, text))
            && (v.Undefined? || v.Null? ==> (Reads(payload, name, text) <==> text == ""))
            && (v == Bool(true) ==> (Reads(payload, name, text) <==> text == "true"))
            && (v == Bool(false) ==> (Reads(payload, name, text) <==> text == "false"))
            && (v.Number? ==> (Reads(payload, name, text) <==> text == CanonicalJson(v)))
            && (v.Object? ==> (Reads(payload, name, text) <==> text == "[object Object]"))
  {}

  /** A list reads as its members with commas between them, so a list of one reads as its member. */
  lemma {:induction false} ListReads(items: seq<Json>, next: Json)
    ensures AsText(Array([])) == "" && AsText(Array([next])) == AsText(next)
    ensures items != [] ==> AsText(Array(items + [next])) == AsText(Array(items)) + "," + AsText(next)
  {
    OneText(next);
    if |items| == 1 {
      assert AllAsText(items + [next]) == [AsText(items[0]), AsText(next)] by {
        assert (items + [next])[1..] == [next];
      }
      OneText(items[0]);
      assert items == [items[0]];
    } else if items != [] {
      ListReads(items[1..], next);
      assert (items + [next])[1..] == items[1..] + [next];
      LongTexts(items);
      LongTexts(items + [next]);
    }
  }

  lemma OneText(v: Json)
    ensures AllAsText([v]) == [AsText(v)]
  {
    assert [v][1..] == [];
    assert AllAsText([v][1..]) == [];
  }

  lemma LongTexts(items: seq<Json>)
    requires |items| >= 2
    ensures AsText(Array(items)) == AsText(items[0]) + "," + AsText(Array(items[1..]))
  {
    var parts, rest := AllAsText(items), AllAsText(items[1..]);
    assert rest == [AsText(items[1..][0])] + AllAsText(items[1..][1..]);
    assert parts == [AsText(items[0])] + rest && parts[1..] == rest;
    assert Join(parts) == parts[0] + "," + Join(rest);
  }

  /** The verdict on any two records, stamped or not. */
  lemma VerdictMeans(payload: Json, held: Option<Json>)
    ensures Compare(payload, held).Ok? <==> Stamped(payload) || held.None?
    ensures Compare(payload, held) == Ok(Newer) <==> held.None? || (Stamped(payload) && (!Stamped(held.value) || Wins(payload, held.value)))
    ensures Compare(payload, held) == Ok(Same) <==> held.Some? && Stamped(payload) && Stamped(held.value) && payload == held.value
  {
    if Stamped(payload) {
      StampedCompares(payload, held);
      if held.Some? && Stamped(held.value) { NewerMeans(payload, held.value); }
      hide Stamped, Wins, Decide, CanonicalJson, Priority;
    } else {
      UnstampedVerdict(payload, held);
      hide Stamped, Wins;
    }
    hide Compare;
    if held.Some? && Stamped(payload) && !Stamped(held.value) { GivesWay(payload, held.value); }
  }

  lemma GivesWay(payload: Json, held: Json)
    requires Stamped(payload) && !Stamped(held)
    ensures Compare(payload, Some(held)) == Ok(Newer)
  {
    UnstampedVerdict(held, Some(payload));
  }

  /** A version is accepted exactly if it names the key and the store it comes for and has a readable timestamp,
      or has none and nothing is stored yet; to be recorded it then needs a text that is a time for the database.
      It is stored if nothing is, or what is stored has no timestamp or loses. */
  lemma AcceptedIff(storeId: string, menu: MenuMerge.Menu, key: MenuMerge.Key, payload: Json, audited: bool)
    ensures var r := MenuMerge.ApplyVersion(storeId, menu, key, payload, audited);
            && (r.Ok? <==> Reads(payload, "id", key.id) && Reads(payload, "branchId", storeId)
                           && (Stamped(payload) || (key !in menu && (audited ==> exists w :: w in TIME_WORDS && Reads(payload, "updatedAt", w)))))
            && (r.Ok? ==> (r.value == (menu[key := payload], MenuMerge.Applied) <==> key !in menu || !Stamped(menu[key]) || Wins(payload, menu[key])))
            && (r.Ok? && r.value.1 != MenuMerge.Applied ==> r.value.0 == menu)
            && (r.Ok? ==> (r.value.1 == MenuMerge.AlreadyProcessed <==> key in menu && Stamped(menu[key]) && payload == menu[key]))
  {
    VerdictMeans(payload, MenuMerge.Lookup(menu, key));
    hide AsText, Property, Stamped, Wins, Compare;
  }
}
