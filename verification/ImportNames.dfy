/** When two names of an import mean the same thing, and what the id of a station is made of
    (backend/menu/bulkImport/service.ts). */
module ImportNames {
  import opened Results
  import opened BulkImport

  predicate Blank(s: string) {
    forall c | c in s :: c == ' ' || c == '\t' || c == '\n' || c == '\r'
  }

  predicate NoOuterBlank(s: string) {
    s != "" ==> !Blank([s[0]]) && !Blank([s[|s| - 1]])
  }

  lemma OneBlank(c: char)
    ensures Blank([c]) <==> IsSpace(c)
  {
    assert c in [c];
  }

  lemma {:induction false} TrimmedStart(s: string) returns (before: string)
    ensures s == before + TrimStart(s) && Blank(before) && (TrimStart(s) != "" ==> !Blank([TrimStart(s)[0]]))
  {
    if s != "" && IsSpace(s[0]) {
      before := TrimmedStart(s[1..]);
      before := [s[0]] + before;
    } else {
      before := "";
      if s != "" { OneBlank(s[0]); }
    }
  }

  lemma {:induction false} TrimmedEnd(s: string) returns (after: string)
    ensures s == TrimEnd(s) + after && Blank(after)
    ensures TrimEnd(s) != "" ==> !Blank([TrimEnd(s)[|TrimEnd(s)| - 1]]) && TrimEnd(s)[0] == s[0]
  {
    if s != "" && IsSpace(s[|s| - 1]) {
      after := TrimmedEnd(s[..|s| - 1]);
      after := after + [s[|s| - 1]];
    } else {
      after := "";
      if s != "" { OneBlank(s[|s| - 1]); }
    }
  }

  /** Trimming takes the blanks off both ends and nothing else. */
  lemma TrimMeans(s: string) returns (before: string, after: string)
    ensures s == before + Trim(s) + after && Blank(before) && Blank(after) && NoOuterBlank(Trim(s))
  {
    before := TrimmedStart(s);
    after := TrimmedEnd(TrimStart(s));
  }

  lemma {:induction false} LowerAt(s: string)
    ensures |Lower(s)| == |s| && forall k | 0 <= k < |s| :: Lower(s)[k] == LowerChar(s[k])
  {
    if s != "" { LowerAt(s[..|s| - 1]); }
  }

  /** `d` is the small letter of the capital `c`. */
  predicate SmallOf(c: char, d: char) {
    'A' <= c <= 'Z' && 'a' <= d <= 'z' && c as int - 'A' as int == d as int - 'a' as int
  }

  predicate SameLetter(c: char, d: char) {
    c == d || SmallOf(c, d) || SmallOf(d, c)
  }

  predicate SameButCase(s: string, t: string) {
    |s| == |t| && forall k | 0 <= k < |s| :: SameLetter(s[k], t[k])
  }

  lemma LowerSame(c: char, d: char)
    ensures LowerChar(c) == LowerChar(d) <==> SameLetter(c, d)
  {}

  /** Two names are one identity exactly when they differ in nothing but letter case and outer blanks. */
  lemma SameNameIff(s: string, t: string)
    ensures Normalized(s) == Normalized(t) <==> SameButCase(Trim(s), Trim(t))
  {
    LowerAt(Trim(s));
    LowerAt(Trim(t));
    hide Trim, LowerChar, SameLetter;
    if |Trim(s)| == |Trim(t)| {
      forall k | 0 <= k < |Trim(s)| ensures LowerChar(Trim(s)[k]) == LowerChar(Trim(t)[k]) <==> SameLetter(Trim(s)[k], Trim(t)[k]) {
        LowerSame(Trim(s)[k], Trim(t)[k]);
      }
      if SameButCase(Trim(s), Trim(t)) { assert Lower(Trim(s)) == Lower(Trim(t)); }
      if Lower(Trim(s)) == Lower(Trim(t)) {
        forall k | 0 <= k < |Trim(s)| ensures SameLetter(Trim(s)[k], Trim(t)[k]) {
          assert Lower(Trim(s))[k] == Lower(Trim(t))[k];
        }
      }
    }
  }

  /** A row finds the same item under every spelling of its name and of its category, so importing "Burger"
      updates "burger". */
  lemma SpellingIrrelevant(m: Menu, row: Row, other: Row)
    requires SameButCase(Trim(row.name), Trim(other.name)) && SameButCase(Trim(row.category), Trim(other.category))
    requires other.station == row.station && other.price == row.price
    ensures SameIdentity(row, other) && ItemOf(m, other) == ItemOf(m, row) && Classify(m, other) == Classify(m, row)
  {
    SameNameIff(row.name, other.name);
    SameNameIff(row.category, other.category);
    hide Normalized, Slug;
  }

  /******* Station ids *******/

  /** The letters and digits of a text, in order. */
  function Letters(s: string): string {
    if s == "" then "" else Letters(s[..|s| - 1]) + if 'a' <= s[|s| - 1] <= 'z' || '0' <= s[|s| - 1] <= '9' then [s[|s| - 1]] else ""
  }

  /** Small letters, digits and single dashes. */
  ghost predicate IdText(s: string) {
    (forall c | c in s :: 'a' <= c <= 'z' || '0' <= c <= '9' || c == '-') && forall k: nat :: !DoubleDash(s, k)
  }

  predicate DoubleDash(s: string, k: nat) {
    k + 1 < |s| && s[k] == '-' && s[k + 1] == '-'
  }

  lemma IdAppend(s: string, c: char)
    requires IdText(s) && ('a' <= c <= 'z' || '0' <= c <= '9' || (c == '-' && (s == "" || s[|s| - 1] != '-')))
    ensures IdText(s + [c])
  {
    forall k: nat ensures !DoubleDash(s + [c], k) {
      assert !DoubleDash(s, k);
    }
  }

  lemma IdPart(s: string, i: nat, j: nat)
    requires IdText(s) && i <= j <= |s|
    ensures IdText(s[i..j])
  {
    forall c | c in s[i..j] ensures c in s {}
    forall k: nat ensures !DoubleDash(s[i..j], k) {
      assert !DoubleDash(s, i + k);
    }
  }

  lemma LettersAppend(s: string, c: char)
    ensures Letters(s + [c]) == Letters(s) + if 'a' <= c <= 'z' || '0' <= c <= '9' then [c] else ""
  {
    assert (s + [c])[..|s|] == s;
  }

  lemma {:induction false} LettersConcat(s: string, t: string)
    ensures Letters(s + t) == Letters(s) + Letters(t)
  {
    if t == "" {
      assert s + t == s;
    } else {
      LettersConcat(s, t[..|t| - 1]);
      assert (s + t)[..|s + t| - 1] == s + t[..|t| - 1];
    }
  }

  lemma NoText()
    ensures IdText("") && Letters("") == ""
  {}

  /** Letters and digits stay in order, and every run of anything else becomes one dash. */
  lemma {:induction false} DashedMeans(s: string)
    ensures Letters(Dashed(s)) == Letters(s) && IdText(Dashed(s))
    ensures Dashed(s) != "" && Dashed(s)[|Dashed(s)| - 1] == '-' <==> s != "" && !IsPlain(s[|s| - 1])
  {
    if s != "" {
      hide IdText, Letters;
      var init, c := Dashed(s[..|s| - 1]), s[|s| - 1];
      DashedMeans(s[..|s| - 1]);
      LettersAppend(init, c);
      LettersAppend(init, '-');
      LettersAppend(s[..|s| - 1], c);
      assert s == s[..|s| - 1] + [c];
      if IsPlain(c) { IdAppend(init, c); } else if init == "" || init[|init| - 1] != '-' { IdAppend(init, '-'); }
    } else {
      NoText();
    }
  }

  lemma {:induction false} StrippedStart(s: string)
    requires IdText(s)
    ensures Letters(StripStart(s)) == Letters(s) && IdText(StripStart(s)) && (StripStart(s) != "" ==> StripStart(s)[0] != '-')
  {
    if s != "" && s[0] == '-' {
      IdPart(s, 1, |s|);
      assert s[1..|s|] == s[1..];
      StrippedStart(s[1..]);
      assert s == [s[0]] + s[1..];
      LettersConcat([s[0]], s[1..]);
      assert [s[0]][..0] == "";
    }
  }

  lemma {:induction false} StrippedEnd(s: string)
    requires IdText(s) && (s != "" ==> s[0] != '-')
    ensures Letters(StripEnd(s)) == Letters(s) && IdText(StripEnd(s)) && (StripEnd(s) != "" ==> StripEnd(s)[0] != '-' && StripEnd(s)[|StripEnd(s)| - 1] != '-')
  {
    if s != "" && s[|s| - 1] == '-' {
      IdPart(s, 0, |s| - 1);
      assert s[0..|s| - 1] == s[..|s| - 1];
      StrippedEnd(s[..|s| - 1]);
      assert s == s[..|s| - 1] + [s[|s| - 1]];
      LettersAppend(s[..|s| - 1], '-');
    }
  }

  /** The id of a station has at most 48 characters, all of them small letters, digits and single dashes, and
      no dash at the start. It has the letters and digits of the name in small letters; all of them, and no dash
      at the end, unless it is cut off. */
  lemma SlugMeans(name: string)
    ensures var id, letters := Slug(name), Letters(Lower(Trim(name)));
            && |id| <= 48 && IdText(id) && (id != "" ==> id[0] != '-')
            && Letters(id) <= letters
            && (|id| < 48 ==> Letters(id) == letters && (id != "" ==> id[|id| - 1] != '-'))
  {
    var text := Lower(Trim(name));
    hide Lower, Trim;
    DashedMeans(text);
    StrippedStart(Dashed(text));
    StrippedEnd(StripStart(Dashed(text)));
    hide Dashed, StripStart, StripEnd, Letters, IdText;
    var whole := StripEnd(StripStart(Dashed(text)));
    if |whole| > 48 {
      IdPart(whole, 0, 48);
      assert whole[0..48] == whole[..48];
      LettersConcat(whole[..48], whole[48..]);
      assert whole == whole[..48] + whole[48..];
    }
  }
}
