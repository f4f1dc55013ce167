/**
 * The watering-schedule engine of `NotificationManager`: reading the free-text
 * watering description into a `WateringSchedule`, turning a plant into the
 * notification request it should have, and the identifier namespace those
 * requests live in.
 */
module Schedule {
  import opened Wrappers
  import opened Text
  import opened Plants

  datatype WateringSchedule =
    | Daily
    | EveryNDays(n: int)
    | Weekly
    | Biweekly
    | Every10SecondsTest
    | Unknown

  // ---------------------------------------------------------------------------
  // Parsing
  // ---------------------------------------------------------------------------

  /** The text the parser compares: lower-cased, then trimmed. */
  function Normalize(text: string): string {
    Trim(Lower(text))
  }

  /**
   * The "every N days" branch: drop every "every ", then every " days", then
   * every " day", split on spaces and read the first piece as an `Int`.
   */
  function EveryNDaysPattern(lower: string): Option<int> {
    if HasPrefix(lower, "every ") && Contains(lower, " day") then
      var stripped := ReplaceAll(ReplaceAll(ReplaceAll(lower, "every ", ""), " days", ""), " day", "");
      var parts := Split(stripped, ' ');
      if parts != [] then ParseInt(parts[0]) else None
    else None
  }

  predicate IsTestPhrase(lower: string) {
    lower == "every 10 seconds (test)" || lower == "every 10 seconds"
  }

  predicate IsDailyPhrase(lower: string) {
    lower == "every day" || lower == "everyday" || lower == "daily"
  }

  predicate IsWeeklyPhrase(lower: string) {
    Contains(lower, "once a week") || lower == "weekly"
  }

  predicate IsBiweeklyPhrase(lower: string) {
    Contains(lower, "every 2 weeks") || Contains(lower, "biweekly")
  }

  /** The closing `switch` over three literal texts, reached when nothing else matched. */
  function ExplicitDays(lower: string): WateringSchedule {
    if lower == "every 2 days" then EveryNDays(2)
    else if lower == "every 3 days" then EveryNDays(3)
    else if lower == "every 10 days" then EveryNDays(10)
    else Unknown
  }

  /** The branches of `parseSchedule(from:)`, in order, over the normalised text. */
  function ParseNormalized(lower: string): (s: WateringSchedule)
    ensures s.EveryNDays? ==> InIntRange(s.n)
  {
    if IsTestPhrase(lower) then Every10SecondsTest
    else if IsDailyPhrase(lower) then Daily
    else if IsWeeklyPhrase(lower) then Weekly
    else if IsBiweeklyPhrase(lower) then Biweekly
    else match EveryNDaysPattern(lower)
      case Some(n) => EveryNDays(n)
      case None => ExplicitDays(lower)
  }

  /** `parseSchedule(from:)`: normalise, then try each branch in turn. */
  function ParseSchedule(text: string): (s: WateringSchedule)
    ensures s.EveryNDays? ==> InIntRange(s.n)
  {
    ParseNormalized(Normalize(text))
  }

  /**
   * The parser sees only the lower-cased, trimmed text: changing the case of
   * ASCII letters or adding leading or trailing whitespace changes nothing.
   */
  lemma ParseIgnoresCaseAndPadding(pre: string, a: string, b: string, post: string)
    requires AllWhitespace(pre) && AllWhitespace(post)
    requires Lower(a) == Lower(b)
    ensures ParseSchedule(pre + a + post) == ParseSchedule(b)
  {
    LowerAppend(pre + a, post);
    LowerAppend(pre, a);
    LowerKeepsWhitespace(pre);
    LowerKeepsWhitespace(post);
    TrimPadded(pre, Lower(a), post);
  }

  // The characters of an "every N day(s)" text: digits, the two signs, and the
  // letters and space of "every " and " days".
  predicate PatternChar(c: char) {
    IsDigit(c) || c in {'e', 'v', 'r', 'y', ' ', '+', '-', 'd', 'a', 's'}
  }

  predicate PatternText(t: string) {
    forall i :: 0 <= i < |t| ==> PatternChar(t[i])
  }

  /** A text built from pattern characters differs from one holding another character. */
  lemma DiffersAt(t: string, lit: string, k: nat)
    requires PatternText(t) && k < |lit| && !PatternChar(lit[k])
    ensures t != lit && !Contains(t, lit)
  {
    if Contains(t, lit) {
      ContainsChars(t, lit, k);
    }
  }

  lemma {:induction false} ContainsAt(s: string, t: string, i: nat)
    requires i + |t| <= |s| && s[i..i + |t|] == t
    ensures Contains(s, t)
  {
    if i > 0 {
      assert s[1..][i - 1..i - 1 + |t|] == s[i..i + |t|];
      ContainsAt(s[1..], t, i - 1);
    }
  }

  function DaysWord(plural: bool): string {
    if plural then " days" else " day"
  }

  /** The text "every N days" (or "every N day") for the number `n`. */
  function EveryNDaysText(n: int, plural: bool): string {
    "every " + IntToString(n) + DaysWord(plural)
  }

  /** The characters "\(n)" writes: digits and a leading minus sign. */
  lemma IntToStringChars(n: int)
    ensures forall i :: 0 <= i < |IntToString(n)| ==> IsDigit(IntToString(n)[i]) || IntToString(n)[i] == '-'
  {
    var d := IntToString(n);
    if n < 0 {
      forall i | 1 <= i < |d| ensures IsDigit(d[i]) {
        assert d[i] == d[1..][i - 1];
      }
    }
  }

  /** An occurrence at the very start is replaced, and the scan goes on after it. */
  lemma ReplaceAllLeading(pat: string, rest: string, rep: string)
    requires pat != []
    ensures ReplaceAll(pat + rest, pat, rep) == rep + ReplaceAll(rest, pat, rep)
  {
    assert HasPrefix(pat + rest, pat);
    assert (pat + rest)[|pat|..] == rest;
  }

  /** A text without the pattern's first character is left as it is. */
  lemma ReplaceAllAbsent(s: string, pat: string, rep: string)
    requires pat != [] && pat[0] !in s
    ensures ReplaceAll(s, pat, rep) == s
  {
    ReplaceAllSkip(s, [], pat, rep);
    assert s + [] == s;
  }

  /** The first replacement removes the leading "every ". */
  lemma StripEvery(r: string)
    requires 'e' !in r
    ensures ReplaceAll("every " + r, "every ", "") == r
  {
    ReplaceAllLeading("every ", r, "");
    ReplaceAllAbsent(r, "every ", "");
  }

  /** Removing a trailing word from a text without spaces. */
  lemma StripTrailingWord(d: string, word: string)
    requires ' ' !in d && word != [] && word[0] == ' '
    ensures ReplaceAll(d + word, word, "") == d
  {
    ReplaceAllSkip(d, word, word, "");
    assert word == word + [];
    ReplaceAllLeading(word, [], "");
    ReplaceAllShort([], word, "");
    assert d + [] == d;
  }

  /** " days" does not occur in a text ending in " day" with no other space. */
  lemma KeepSingular(d: string)
    requires ' ' !in d
    ensures ReplaceAll(d + " day", " days", "") == d + " day"
  {
    ReplaceAllSkip(d, " day", " days", "");
    ReplaceAllShort(" day", " days", "");
  }

  /** The characters a number token `Int(_:)` accepts: digits and a leading sign. */
  lemma IntSyntaxChars(d: string)
    requires IntSyntax(d)
    ensures forall i :: 0 <= i < |d| ==> IsDigit(d[i]) || d[i] == '+' || d[i] == '-'
    ensures 'e' !in d && ' ' !in d
  {
    if d[0] == '+' || d[0] == '-' {
      forall i | 1 <= i < |d| ensures IsDigit(d[i]) {
        assert d[i] == d[1..][i - 1];
      }
    }
  }

  /** What the three replacements leave of "every <d> day(s)", for a token without 'e' or space: the token. */
  lemma StripToken(d: string, plural: bool)
    requires 'e' !in d && ' ' !in d
    ensures ReplaceAll(ReplaceAll(ReplaceAll("every " + d + DaysWord(plural), "every ", ""), " days", ""), " day", "")
            == d
  {
    var w := DaysWord(plural);
    assert 'e' !in d + w;
    assert "every " + d + w == "every " + (d + w);
    StripEvery(d + w);
    if plural {
      StripTrailingWord(d, " days");
      ReplaceAllAbsent(d, " day", "");
    } else {
      KeepSingular(d);
      StripTrailingWord(d, " day");
    }
  }

  lemma PrefixOfAppend(p: string, s: string)
    ensures HasPrefix(p + s, p)
  {
    assert (p + s)[..|p|] == p;
  }

  lemma DayWordAt(d: string, w: string)
    requires HasPrefix(w, " day")
    ensures Contains("every " + d + w, " day")
  {
    var t := "every " + d + w;
    assert t[6 + |d|..6 + |d| + 4] == w[..4];
    ContainsAt(t, " day", 6 + |d|);
  }

  /** "every <d> day(s)" has the prefix and the word the pattern branch looks for. */
  lemma TokenTextShape(d: string, plural: bool)
    ensures HasPrefix("every " + d + DaysWord(plural), "every ")
    ensures Contains("every " + d + DaysWord(plural), " day")
  {
    var w := DaysWord(plural);
    assert "every " + d + w == "every " + (d + w);
    PrefixOfAppend("every ", d + w);
    DayWordAt(d, w);
  }

  /**
   * The "every N day(s)" pattern reads any number token `Int(_:)` accepts,
   * leading zeros and signs included, as the value it denotes.
   */
  lemma PatternReadsToken(d: string, plural: bool)
    requires IntSyntax(d) && InIntRange(SyntaxValue(d))
    ensures EveryNDaysPattern("every " + d + DaysWord(plural)) == Some(SyntaxValue(d))
  {
    IntSyntaxChars(d);
    TokenTextShape(d, plural);
    StripToken(d, plural);
    SplitSingle(d, ' ');
  }

  /** The decimal text "\(n)" is a token `Int(_:)` reads back as n. */
  lemma IntToStringToken(n: int)
    requires InIntRange(n)
    ensures IntSyntax(IntToString(n)) && SyntaxValue(IntToString(n)) == n
  {
    ParseIntRoundTrip(n);
  }

  /** The "every N day(s)" pattern reads back the number that was written. */
  lemma EveryNDaysPatternReads(n: int, plural: bool)
    requires InIntRange(n)
    ensures EveryNDaysPattern(EveryNDaysText(n, plural)) == Some(n)
  {
    IntToStringToken(n);
    PatternReadsToken(IntToString(n), plural);
  }

  /** "every <d> day(s)" with a number token is written in pattern characters only, and is already normalised. */
  lemma TokenTextChars(d: string, plural: bool)
    requires IntSyntax(d)
    ensures PatternText("every " + d + DaysWord(plural)) && |"every " + d + DaysWord(plural)| >= 11
    ensures Normalize("every " + d + DaysWord(plural)) == "every " + d + DaysWord(plural)
  {
    var t := "every " + d + DaysWord(plural);
    TokenTextPattern(d, plural);
    assert t[0] == 'e' && t[|t| - 1] == DaysWord(plural)[|DaysWord(plural)| - 1];
    PatternTextNormalizes(t);
  }

  lemma TokenTextPattern(d: string, plural: bool)
    requires IntSyntax(d)
    ensures PatternText("every " + d + DaysWord(plural)) && |"every " + d + DaysWord(plural)| >= 11
  {
    var t := "every " + d + DaysWord(plural);
    IntSyntaxChars(d);
    forall i | 0 <= i < |t| ensures PatternChar(t[i]) {
      if 6 <= i < 6 + |d| {
        assert t[i] == d[i - 6];
      }
    }
  }

  /** An "every N day(s)" text is written in pattern characters only, and is already normalised. */
  lemma EveryNDaysTextChars(n: int, plural: bool)
    requires InIntRange(n)
    ensures PatternText(EveryNDaysText(n, plural)) && |EveryNDaysText(n, plural)| >= 11
    ensures Normalize(EveryNDaysText(n, plural)) == EveryNDaysText(n, plural)
  {
    IntToStringToken(n);
    TokenTextChars(IntToString(n), plural);
  }

  /** A pattern text that neither starts nor ends with a space is already normalised. */
  lemma PatternTextNormalizes(t: string)
    requires PatternText(t) && t != [] && t[0] != ' ' && t[|t| - 1] != ' '
    ensures Normalize(t) == t
  {
    assert forall i :: 0 <= i < |t| ==> !IsUpper(t[i]);
    LowerOfLower(t);
    TrimmedAlready(t);
  }

  /** None of the branches before the pattern branch claims a text of pattern characters. */
  lemma NoEarlierBranch(t: string)
    requires PatternText(t) && |t| >= 11
    ensures !IsTestPhrase(t) && !IsDailyPhrase(t) && !IsWeeklyPhrase(t) && !IsBiweeklyPhrase(t)
  {
    DiffersAt(t, "every 10 seconds (test)", 11);
    DiffersAt(t, "every 10 seconds", 11);
    DiffersAt(t, "once a week", 0);
    DiffersAt(t, "weekly", 0);
    DiffersAt(t, "every 2 weeks", 8);
    DiffersAt(t, "biweekly", 0);
  }

  /**
   * "every <d> days" and "every <d> day", for any token `Int(_:)` reads as a
   * 64-bit value ("5", "007", "+5", "-3"), parse to `everyNDays` of that value:
   * no earlier branch claims them.
   */
  lemma EveryTokenDaysParses(d: string, plural: bool)
    requires IntSyntax(d) && InIntRange(SyntaxValue(d))
    ensures ParseSchedule("every " + d + DaysWord(plural)) == EveryNDays(SyntaxValue(d))
  {
    var t := "every " + d + DaysWord(plural);
    TokenTextChars(d, plural);
    NoEarlierBranch(t);
    PatternReadsToken(d, plural);
  }

  /** "every N days" and "every N day", N written as "\(N)", parse to `everyNDays(N)` for any `Int` N. */
  lemma EveryNDaysParses(n: int, plural: bool)
    requires InIntRange(n)
    ensures ParseSchedule(EveryNDaysText(n, plural)) == EveryNDays(n)
  {
    IntToStringToken(n);
    EveryTokenDaysParses(IntToString(n), plural);
  }

  /** Leading zeros do not change the parse: "every 007 days" reads as "every 7 days". */
  lemma LeadingZeroParses(d: string, plural: bool)
    requires d != [] && AllDigits(d) && DigitsValue(d) <= MaxInt
    ensures ParseSchedule("every " + (['0'] + d) + DaysWord(plural)) == EveryNDays(DigitsValue(d))
    ensures ParseSchedule("every " + d + DaysWord(plural)) == EveryNDays(DigitsValue(d))
  {
    DigitsValueZeroPrefix(d);
    EveryTokenDaysParses(['0'] + d, plural);
    EveryTokenDaysParses(d, plural);
  }

  /** A plus sign does not change the parse: "every +5 days" reads as "every 5 days". */
  lemma PlusSignParses(d: string, plural: bool)
    requires d != [] && AllDigits(d) && DigitsValue(d) <= MaxInt
    ensures ParseSchedule("every " + (['+'] + d) + DaysWord(plural)) == EveryNDays(DigitsValue(d))
    ensures ParseSchedule("every " + d + DaysWord(plural)) == EveryNDays(DigitsValue(d))
  {
    assert (['+'] + d)[1..] == d;
    EveryTokenDaysParses(['+'] + d, plural);
    EveryTokenDaysParses(d, plural);
  }

  /**
   * The literals "every 2 days", "every 3 days" and "every 10 days" are already
   * read by the pattern branch, with the same value the explicit cases give.
   */
  lemma ExplicitCasesRedundant()
    ensures EveryNDaysPattern("every 2 days") == Some(2)
    ensures EveryNDaysPattern("every 3 days") == Some(3)
    ensures EveryNDaysPattern("every 10 days") == Some(10)
  {
    assert EveryNDaysText(2, true) == "every 2 days";
    assert EveryNDaysText(3, true) == "every 3 days";
    assert NatToString(10) == "10";
    assert EveryNDaysText(10, true) == "every 10 days";
    EveryNDaysPatternReads(2, true);
    EveryNDaysPatternReads(3, true);
    EveryNDaysPatternReads(10, true);
  }

  /** The watering choices the add-plant form offers. */
  const FormPresets: seq<string> :=
    ["Every day", "Every 2 days", "Every 3 days", "Once a week", "Every 10 days", "Every 2 weeks"]

  /** What each form choice is meant to mean, in the same order. */
  const PresetMeaning: seq<WateringSchedule> :=
    [Daily, EveryNDays(2), EveryNDays(3), Weekly, EveryNDays(10), Biweekly]

  // The preset lemmas take the text as a parameter equal to the literal, so
  // that the verifier unfolds the parser only as far as each proof needs.

  /** A capitalised text normalises to its lower-case form. */
  lemma NormalizeCapitalised(text: string, lower: string)
    requires text != [] && lower != [] && text == [text[0]] + lower[1..] && LowerChar(text[0]) == lower[0]
    requires forall i :: 0 <= i < |lower| ==> !IsUpper(lower[i])
    requires !IsWhitespace(lower[0]) && !IsWhitespace(lower[|lower| - 1])
    ensures Normalize(text) == lower
  {
    LowerCapitalised(text[0], lower[1..]);
    assert lower == [lower[0]] + lower[1..];
    TrimmedAlready(lower);
  }

  /** "every day" is not the test phrase and is a daily phrase. */
  lemma EveryDayDaily(lower: string)
    requires lower == "every day"
    ensures !IsTestPhrase(lower) && IsDailyPhrase(lower)
  {
  }

  /** "Every day" parses as daily. */
  lemma PresetEveryDay(text: string, lower: string)
    requires text == "Every day" && lower == "every day"
    ensures ParseSchedule(text) == Daily
  {
    NormalizeCapitalised(text, lower);
    EveryDayDaily(lower);
  }

  /** "once a week" misses the test and daily phrases and is caught by the weekly branch. */
  lemma OnceAWeekWeekly(lower: string)
    requires lower == "once a week"
    ensures !IsTestPhrase(lower) && !IsDailyPhrase(lower) && IsWeeklyPhrase(lower)
  {
    ContainsSelf(lower);
  }

  /** "Once a week" parses as weekly. */
  lemma PresetOnceAWeek(text: string, lower: string)
    requires text == "Once a week" && lower == "once a week"
    ensures ParseSchedule(text) == Weekly
  {
    NormalizeCapitalised(text, lower);
    OnceAWeekWeekly(lower);
  }

  /** "every 2 weeks" misses the weekly branch and is caught by the biweekly one. */
  lemma Every2WeeksBiweekly(lower: string)
    requires lower == "every 2 weeks"
    ensures !IsTestPhrase(lower) && !IsDailyPhrase(lower) && !IsWeeklyPhrase(lower) && IsBiweeklyPhrase(lower)
  {
    MissingChar(lower, "once a week", 0);
    ContainsSelf(lower);
  }

  /** "Every 2 weeks" parses as biweekly. */
  lemma PresetEvery2Weeks(text: string, lower: string)
    requires text == "Every 2 weeks" && lower == "every 2 weeks"
    ensures ParseSchedule(text) == Biweekly
  {
    NormalizeCapitalised(text, lower);
    Every2WeeksBiweekly(lower);
  }

  /** "Every N days" from the form is read by the pattern branch. */
  lemma PresetEveryNDays(preset: string, n: int)
    requires InIntRange(n)
    requires preset == ['E'] + EveryNDaysText(n, true)[1..]
    ensures ParseSchedule(preset) == EveryNDays(n)
  {
    EveryNDaysTextChars(n, true);
    EveryNDaysTextEnds(n);
    CapitalisedNormalizes(preset, EveryNDaysText(n, true));
    EveryNDaysParses(n, true);
  }

  lemma EveryNDaysTextEnds(n: int)
    ensures |EveryNDaysText(n, true)| >= 2
    ensures EveryNDaysText(n, true)[0] == 'e'
    ensures EveryNDaysText(n, true)[|EveryNDaysText(n, true)| - 1] == 's'
  {
    var d := IntToString(n);
    assert EveryNDaysText(n, true) == ("every " + d) + " days";
  }

  /** A pattern text starting with 'e' and ending in 's', written with a capital E, normalises back to itself. */
  lemma CapitalisedNormalizes(preset: string, t: string)
    requires PatternText(t) && |t| >= 2 && t[0] == 'e' && t[|t| - 1] == 's'
    requires preset == ['E'] + t[1..]
    ensures Normalize(preset) == t
  {
    assert forall i :: 0 <= i < |t| ==> !IsUpper(t[i]);
    NormalizeCapitalised(preset, t);
  }

  /** Every form choice is recognised, as the schedule it names. */
  lemma PresetsParse(k: nat)
    requires k < |FormPresets|
    ensures |PresetMeaning| == |FormPresets|
    ensures ParseSchedule(FormPresets[k]) == PresetMeaning[k]
    ensures ParseSchedule(FormPresets[k]) != Unknown
    ensures ParseSchedule(FormPresets[k]) in {Daily, EveryNDays(2), EveryNDays(3), Weekly, EveryNDays(10), Biweekly}
  {
    var text := FormPresets[k];
    if k == 0 {
      PresetEveryDay(text, "every day");
    } else if k == 3 {
      PresetOnceAWeek(text, "once a week");
    } else if k == 5 {
      PresetEvery2Weeks(text, "every 2 weeks");
    } else {
      PresetNumbered(k, if k == 1 then 2 else if k == 2 then 3 else 10);
    }
  }

  /** The three "Every N days" form choices. */
  lemma PresetNumbered(k: nat, n: int)
    requires (k == 1 && n == 2) || (k == 2 && n == 3) || (k == 4 && n == 10)
    ensures ParseSchedule(FormPresets[k]) == EveryNDays(n) == PresetMeaning[k]
  {
    if k == 1 {
      PresetText(FormPresets[k], n, "2");
    } else if k == 2 {
      PresetText(FormPresets[k], n, "3");
    } else {
      assert NatToString(10) == "10";
      PresetText(FormPresets[k], n, "10");
    }
    PresetEveryNDays(FormPresets[k], n);
  }

  lemma PresetText(preset: string, n: int, digits: string)
    requires IntToString(n) == digits && preset == "Every " + digits + " days"
    ensures preset == ['E'] + EveryNDaysText(n, true)[1..]
  {
  }

  /** "banana" matches no phrase, no pattern and no explicit case. */
  lemma BananaMatchesNothing(lower: string)
    requires lower == "banana"
    ensures !IsTestPhrase(lower) && !IsDailyPhrase(lower) && !IsWeeklyPhrase(lower) && !IsBiweeklyPhrase(lower)
    ensures EveryNDaysPattern(lower) == None && ExplicitDays(lower) == Unknown
  {
    MissingChar(lower, "once a week", 0);
    MissingChar(lower, "every 2 weeks", 0);
    MissingChar(lower, "biweekly", 1);
    assert !HasPrefix(lower, "every ");
  }

  /** A description the parser does not know falls back to `unknown`. */
  lemma UnrecognisedFallsBack(text: string)
    requires text == "banana"
    ensures ParseSchedule(text) == Unknown
  {
    LowerOfLower(text);
    TrimmedAlready(text);
    BananaMatchesNothing(Normalize(text));
  }

  /** A text whose first character cannot start the pattern keeps that character in front. */
  lemma ReplaceAllFirst(s: string, pat: string, rep: string)
    requires pat != [] && s != [] && s[0] != pat[0]
    ensures ReplaceAll(s, pat, rep) == [s[0]] + ReplaceAll(s[1..], pat, rep)
  {
    ReplaceAllSkip([s[0]], s[1..], pat, rep);
    assert [s[0]] + s[1..] == s;
  }

  /**
   * A number written as a word is not read by the pattern branch: the word's
   * first character survives the three replacements and starts the first
   * part, and `Int(_:)` rejects a part that starts with neither a digit nor a
   * sign. This holds for every word whose first character is not 'e', a
   * space, a digit or a sign ("two", "three", "five", "ten", …).
   */
  lemma EveryWordDaysPattern(w: string, plural: bool)
    requires w != [] && w[0] != 'e' && w[0] != ' ' && w[0] != '+' && w[0] != '-' && !IsDigit(w[0])
    ensures EveryNDaysPattern("every " + w + DaysWord(plural)) == None
  {
    StripKeepsFirst(w, plural);
    FirstPartRejected(ReplaceAll(ReplaceAll(ReplaceAll("every " + w + DaysWord(plural), "every ", ""), " days", ""), " day", ""));
  }

  /** After the three replacements, "every <w> day(s)" still starts with the word's first character. */
  lemma StripKeepsFirst(w: string, plural: bool)
    requires w != [] && w[0] != 'e' && w[0] != ' '
    ensures var c := ReplaceAll(ReplaceAll(ReplaceAll("every " + w + DaysWord(plural), "every ", ""), " days", ""), " day", "");
      c != [] && c[0] == w[0]
  {
    var u := w + DaysWord(plural);
    assert "every " + w + DaysWord(plural) == "every " + u;
    assert u[0] == w[0];
    ReplaceAllLeading("every ", u, "");
    ReplaceAllFirst(u, "every ", "");
    var a := ReplaceAll(u, "every ", "");
    ReplaceAllFirst(a, " days", "");
    var b := ReplaceAll(a, " days", "");
    ReplaceAllFirst(b, " day", "");
  }

  /** A text that starts with neither a space, a digit nor a sign gives a first part `Int(_:)` rejects. */
  lemma FirstPartRejected(c: string)
    requires c != [] && c[0] != ' ' && c[0] != '+' && c[0] != '-' && !IsDigit(c[0])
    ensures Split(c, ' ') != [] && ParseInt(Split(c, ' ')[0]) == None
  {
    var parts := Split(c, ' ');
    assert parts[0] == Word(c, ' ');
    assert parts[0][0] == c[0];
  }

  /** "every two days" matches no phrase, no pattern and no explicit case. */
  lemma EveryTwoDaysMatchesNothing(lower: string)
    requires lower == "every two days"
    ensures !IsTestPhrase(lower) && !IsDailyPhrase(lower) && !IsWeeklyPhrase(lower) && !IsBiweeklyPhrase(lower)
    ensures EveryNDaysPattern(lower) == None && ExplicitDays(lower) == Unknown
  {
    EveryTwoDaysNoPhrase(lower);
    EveryTwoDaysNoPattern(lower);
  }

  lemma EveryTwoDaysNoPhrase(lower: string)
    requires lower == "every two days"
    ensures !IsTestPhrase(lower) && !IsDailyPhrase(lower) && !IsWeeklyPhrase(lower) && !IsBiweeklyPhrase(lower)
  {
    assert |lower| == 14;
    EveryTwoDaysNotWeekly(lower);
    EveryTwoDaysNotBiweekly(lower);
  }

  lemma EveryTwoDaysNotWeekly(lower: string)
    requires lower == "every two days"
    ensures !Contains(lower, "once a week")
  {
    MissingChar(lower, "once a week", 2);
  }

  lemma EveryTwoDaysNotBiweekly(lower: string)
    requires lower == "every two days"
    ensures !Contains(lower, "every 2 weeks") && !Contains(lower, "biweekly")
  {
    MissingChar(lower, "every 2 weeks", 6);
    MissingChar(lower, "biweekly", 0);
  }

  lemma EveryTwoDaysNoPattern(lower: string)
    requires lower == "every two days"
    ensures EveryNDaysPattern(lower) == None && ExplicitDays(lower) == Unknown
  {
    assert lower == "every " + "two" + DaysWord(true);
    EveryWordDaysPattern("two", true);
  }

  /** A number written as a word reaches the closing switch, which does not list it: `unknown`. */
  lemma EveryTwoDaysFallsBack(text: string)
    requires text == "every two days"
    ensures ParseSchedule(text) == Unknown
  {
    LowerOfLower(text);
    TrimmedAlready(text);
    EveryTwoDaysMatchesNothing(Normalize(text));
  }

  // ---------------------------------------------------------------------------
  // Identifiers
  // ---------------------------------------------------------------------------

  /** `identifier(for:suffix:)`: `plant.<uuid>.<suffix>`. */
  function Identifier(plantId: Uuid, suffix: string): (id: string)
    ensures HasPrefix(id, "plant." + plantId + ".")
    ensures id[|plantId| + 7..] == suffix
  {
    "plant." + plantId + "." + suffix
  }

  /** Within one plant, different suffixes give different identifiers. */
  lemma IdentifierInjective(plantId: Uuid, a: string, b: string)
    requires Identifier(plantId, a) == Identifier(plantId, b)
    ensures a == b
  {
    assert a == Identifier(plantId, a)[|plantId| + 7..];
  }

  /**
   * With suffixes free of '.', an identifier names one plant and one suffix:
   * the requests of two different plants never share an identifier.
   */
  lemma IdentifierDotFree(x: Uuid, y: Uuid, a: string, b: string)
    requires Identifier(x, a) == Identifier(y, b)
    requires '.' !in a && '.' !in b
    ensures x == y && a == b
  {
    var id := Identifier(x, a);
    assert id == "plant." + x + "." + a && id == "plant." + y + "." + b;
    if |a| < |b| {
      DotBeforeSuffix(x, y, a, b);
    } else if |b| < |a| {
      DotBeforeSuffix(y, x, b, a);
    } else {
      assert x == id[6..6 + |x|];
      IdentifierInjective(x, a, b);
    }
  }

  /** The '.' in front of a shorter suffix falls inside a longer one. */
  lemma DotBeforeSuffix(x: Uuid, y: Uuid, a: string, b: string)
    requires Identifier(x, a) == Identifier(y, b) && |a| < |b|
    ensures b[|b| - |a| - 1] == '.'
  {
    var id := Identifier(x, a);
    assert id == ("plant." + x + ".") + a && id == ("plant." + y + ".") + b;
    assert id[|id| - |a| - 1] == '.';
  }

  /** The ten suffixes a plant's requests are cancelled under. */
  const CancelledSuffixes: seq<string> := [
    "daily", "weekly", "biweekly", "biweekly-14", "weekly-7", "fallback-daily",
    "every-2-days", "every-3-days", "every-10-days", "every-10-seconds-once"
  ]

  const RepeatingTestId: string := "test.repeating.60s"
  const OneOffTestId: string := "test.oneoff.30s"

  /** `identifiers(for:)`: the fixed list removed before (re)scheduling a plant. */
  function Identifiers(plantId: Uuid): (ids: seq<string>)
    ensures |ids| == 12
    ensures forall k :: 0 <= k < 10 ==> ids[k] == Identifier(plantId, CancelledSuffixes[k])
    ensures ids[10] == RepeatingTestId && ids[11] == OneOffTestId
  {
    [
      Identifier(plantId, "daily"),
      Identifier(plantId, "weekly"),
      Identifier(plantId, "biweekly"),
      Identifier(plantId, "biweekly-14"),
      Identifier(plantId, "weekly-7"),
      Identifier(plantId, "fallback-daily"),
      Identifier(plantId, "every-2-days"),
      Identifier(plantId, "every-3-days"),
      Identifier(plantId, "every-10-days"),
      Identifier(plantId, "every-10-seconds-once"),
      RepeatingTestId,
      OneOffTestId
    ]
  }

  /** The list has twelve different entries: ten plant-scoped ids and the two test ids. */
  lemma IdentifiersDistinct(plantId: Uuid)
    ensures forall i, j :: 0 <= i < j < 12 ==> Identifiers(plantId)[i] != Identifiers(plantId)[j]
  {
    var ids := Identifiers(plantId);
    forall i, j | 0 <= i < j < 12 ensures ids[i] != ids[j] {
      if j < 10 {
      } else if i < 10 {
        assert ids[i][0] == 'p';
      }
    }
  }

  // ---------------------------------------------------------------------------
  // Requests
  // ---------------------------------------------------------------------------

  /** A time-interval trigger: fire after `intervalSeconds`, and again every time if `repeats`. */
  datatype Trigger = Trigger(intervalSeconds: int, repeats: bool)

  /** A pending notification request: identifier, text and trigger. */
  datatype Request = Request(id: string, title: string, body: string, trigger: Trigger)

  const SecondsPerDay: int := 24 * 3600

  function Title(p: Plant): string {
    "Hey! Let's water " + p.name + "!"
  }

  /** The body text, with the water amount appended only when there is one. */
  function Body(p: Plant): string {
    var amountText := if p.waterAmount == [] then "" else " • " + p.waterAmount;
    "Time to give " + p.name + " a sip 💧" + amountText
  }

  predicate EndsWith(s: string, t: string) {
    |t| <= |s| && s[|s| - |t|..] == t
  }

  /**
   * The body starts with the reminder sentence and ends with " • <amount>"
   * exactly when the amount is non-empty; otherwise it ends right after the
   * sentence.
   */
  lemma BodyShape(p: Plant)
    ensures HasPrefix(Body(p), "Time to give " + p.name + " a sip 💧")
    ensures EndsWith(Body(p), " • " + p.waterAmount) <==> p.waterAmount != []
    ensures p.waterAmount == [] ==> Body(p) == "Time to give " + p.name + " a sip 💧"
  {
    var head := "Time to give " + p.name + " a sip 💧";
    var b := Body(p);
    if p.waterAmount == [] {
      assert b == head;
      assert b[|b| - 1] == '💧';
    } else {
      assert b == head + (" • " + p.waterAmount);
    }
  }

  /** `request(id:title:body:trigger:)`; the default sound is not modelled. */
  function MakeRequest(id: string, title: string, body: string, trigger: Trigger): Request {
    Request(id, title, body, trigger)
  }

  /** The `switch` of `buildRequests(for:)`: one request for the parsed schedule. */
  function RequestsFor(plantId: Uuid, schedule: WateringSchedule, title: string, body: string): (rs: seq<Request>)
    ensures |rs| == 1
    ensures rs[0].title == title && rs[0].body == body
    ensures HasPrefix(rs[0].id, "plant." + plantId + ".")
  {
    match schedule
    case Every10SecondsTest =>
      [MakeRequest(Identifier(plantId, "every-10-seconds-once"), title, body, Trigger(10, false))]
    case Daily =>
      [MakeRequest(Identifier(plantId, "daily"), title, body, Trigger(24 * 3600, true))]
    case EveryNDays(n) =>
      if n == 7 then
        [MakeRequest(Identifier(plantId, "weekly-7"), title, body, Trigger(7 * 24 * 3600, true))]
      else if n == 14 then
        [MakeRequest(Identifier(plantId, "biweekly-14"), title, body, Trigger(14 * 24 * 3600, true))]
      else
        [MakeRequest(Identifier(plantId, "every-" + IntToString(n) + "-days"), title, body, Trigger(n * 24 * 3600, true))]
    case Weekly =>
      [MakeRequest(Identifier(plantId, "weekly"), title, body, Trigger(7 * 24 * 3600, true))]
    case Biweekly =>
      [MakeRequest(Identifier(plantId, "biweekly"), title, body, Trigger(14 * 24 * 3600, true))]
    case Unknown =>
      [MakeRequest(Identifier(plantId, "fallback-daily"), title, body, Trigger(24 * 3600, true))]
  }

  /** `buildRequests(for:)`: the texts, the parsed schedule, and the request for it. */
  function BuildRequests(p: Plant): (rs: seq<Request>)
    ensures |rs| == 1
    ensures rs[0].title == Title(p) && rs[0].body == Body(p)
    ensures HasPrefix(rs[0].id, "plant." + p.id + ".")
  {
    RequestsFor(p.id, ParseSchedule(p.wateringDays), Title(p), Body(p))
  }

  /**
   * How many days apart a repeating schedule's reminders are meant to be; the
   * unrecognised schedule falls back to daily. The test schedule does not repeat.
   */
  function PeriodDays(s: WateringSchedule): Option<int> {
    match s
    case Daily => Some(1)
    case EveryNDays(n) => Some(n)
    case Weekly => Some(7)
    case Biweekly => Some(14)
    case Every10SecondsTest => None
    case Unknown => Some(1)
  }

  /**
   * The trigger matches the schedule's period: a repeating interval of that many
   * whole days, or a single firing after 10 seconds for the test schedule.
   */
  lemma TriggerMatchesPeriod(plantId: Uuid, s: WateringSchedule, title: string, body: string)
    ensures RequestsFor(plantId, s, title, body)[0].trigger ==
      match PeriodDays(s)
      case Some(d) => Trigger(d * SecondsPerDay, true)
      case None => Trigger(10, false)
  {
  }

  /** The interval table, schedule by schedule, in seconds. */
  lemma IntervalTable(plantId: Uuid, s: WateringSchedule, title: string, body: string)
    ensures var t := RequestsFor(plantId, s, title, body)[0].trigger;
      && (s == Daily || s == Unknown ==> t == Trigger(86400, true))
      && (s == Weekly || s == EveryNDays(7) ==> t == Trigger(604800, true))
      && (s == Biweekly || s == EveryNDays(14) ==> t == Trigger(1209600, true))
      && (s.EveryNDays? ==> t == Trigger(s.n * 86400, true))
      && (s == Every10SecondsTest ==> t == Trigger(10, false))
  {
  }

  /** The id suffix each schedule is scheduled under. */
  function SuffixOf(s: WateringSchedule): string {
    match s
    case Every10SecondsTest => "every-10-seconds-once"
    case Daily => "daily"
    case EveryNDays(n) =>
      if n == 7 then "weekly-7" else if n == 14 then "biweekly-14" else "every-" + IntToString(n) + "-days"
    case Weekly => "weekly"
    case Biweekly => "biweekly"
    case Unknown => "fallback-daily"
  }

  /** No suffix contains a '.', so a planned id splits uniquely into plant and suffix. */
  lemma SuffixDotFree(s: WateringSchedule)
    ensures '.' !in SuffixOf(s)
  {
    if s.EveryNDays? && s.n != 7 && s.n != 14 {
      IntToStringChars(s.n);
      DotFreeBetween(IntToString(s.n));
    }
  }

  lemma DotFreeBetween(d: string)
    requires forall i :: 0 <= i < |d| ==> IsDigit(d[i]) || d[i] == '-'
    ensures '.' !in "every-" + d + "-days"
  {
    var x := "every-" + d + "-days";
    forall i | 0 <= i < |x| ensures x[i] != '.' {
      if 6 <= i < 6 + |d| {
        assert x[i] == d[i - 6];
      }
    }
  }

  /** The planned id is `plant.<uuid>.<suffix>` with the schedule's suffix. */
  lemma PlannedId(plantId: Uuid, s: WateringSchedule, title: string, body: string)
    ensures RequestsFor(plantId, s, title, body)[0].id == Identifier(plantId, SuffixOf(s))
  {
  }

  /** "every-N-days" is none of the fixed suffixes of the other schedules. */
  lemma EveryNSuffixIsOwn(n: int)
    ensures var x := "every-" + IntToString(n) + "-days";
      x !in {"every-10-seconds-once", "daily", "weekly-7", "biweekly-14", "weekly", "biweekly", "fallback-daily"}
  {
    var x := "every-" + IntToString(n) + "-days";
    assert x[0] == 'e' && x[|x| - 1] == 's';
  }

  /** The number inside an "every-N-days" suffix. */
  lemma EveryNSuffixNumber(n: int)
    ensures var x := "every-" + IntToString(n) + "-days";
      |x| >= 11 && x[6..|x| - 5] == IntToString(n)
  {
  }

  /**
   * A suffix pins down the trigger: two schedules planned under the same
   * suffix fire on the same interval, so replacing a request by id never
   * changes which timing an id stands for.
   */
  lemma SuffixDeterminesTrigger(s: WateringSchedule, t: WateringSchedule)
    requires SuffixOf(s) == SuffixOf(t)
    ensures PeriodDays(s) == PeriodDays(t)
    ensures forall u, title, body ::
      RequestsFor(u, s, title, body)[0].trigger == RequestsFor(u, t, title, body)[0].trigger
  {
    if s.EveryNDays? && t.EveryNDays? && s.n !in {7, 14} && t.n !in {7, 14} {
      EveryNSuffixNumber(s.n);
      EveryNSuffixNumber(t.n);
      IntToStringInjective(s.n, t.n);
    } else if s.EveryNDays? && s.n !in {7, 14} {
      EveryNSuffixIsOwn(s.n);
    } else if t.EveryNDays? && t.n !in {7, 14} {
      EveryNSuffixIsOwn(t.n);
    }
  }

  /** An "every-N-days" suffix is cancelled exactly for N = 2, 3 or 10. */
  lemma EveryNSuffixCancelledIff(n: int)
    ensures "every-" + IntToString(n) + "-days" in CancelledSuffixes <==> n in {2, 3, 10}
  {
    if "every-" + IntToString(n) + "-days" in CancelledSuffixes {
      EveryNSuffixCancelledOnly(n);
    }
    if n in {2, 3, 10} {
      CancelledEverySuffix(if n == 2 then 6 else if n == 3 then 7 else 8);
    }
  }

  lemma EveryNSuffixCancelledOnly(n: int)
    requires "every-" + IntToString(n) + "-days" in CancelledSuffixes
    ensures n in {2, 3, 10}
  {
    var x := "every-" + IntToString(n) + "-days";
    EveryNSuffixIsOwn(n);
    var k :| 0 <= k < 10 && CancelledSuffixes[k] == x;
    if 6 <= k <= 8 {
      CancelledEverySuffix(k);
      EverySuffixInjective(n, CancelledEveryN(k));
    }
  }

  /** The number of the k-th cancelled suffix, for the three "every-N-days" entries. */
  function CancelledEveryN(k: nat): int {
    if k == 6 then 2 else if k == 7 then 3 else 10
  }

  lemma CancelledEverySuffix(k: nat)
    requires 6 <= k <= 8
    ensures CancelledSuffixes[k] == "every-" + IntToString(CancelledEveryN(k)) + "-days"
  {
    if k == 6 {
      assert IntToString(2) == "2";
    } else if k == 7 {
      assert IntToString(3) == "3";
    } else {
      assert NatToString(10) == "10";
      assert IntToString(10) == "10";
    }
  }

  lemma EverySuffixInjective(n: int, m: int)
    requires "every-" + IntToString(n) + "-days" == "every-" + IntToString(m) + "-days"
    ensures n == m
  {
    EveryNSuffixNumber(n);
    EveryNSuffixNumber(m);
    IntToStringInjective(n, m);
  }

  /**
   * A schedule's suffix is among the ten cancelled ones exactly when the
   * schedule is not `everyNDays(n)` for an n outside {2, 3, 7, 10, 14}.
   */
  lemma SuffixCancelledIff(s: WateringSchedule)
    ensures SuffixOf(s) in CancelledSuffixes <==> !(s.EveryNDays? && s.n !in {2, 3, 7, 10, 14})
  {
    if s.EveryNDays? && s.n !in {7, 14} {
      EveryNSuffixCancelledIff(s.n);
    }
  }

  /**
   * The planned id is in the plant's cancellation list exactly when the
   * schedule is not `everyNDays(n)` for an n outside {2, 3, 7, 10, 14}.
   */
  lemma PlannedIdCancellable(plantId: Uuid, s: WateringSchedule, title: string, body: string)
    ensures RequestsFor(plantId, s, title, body)[0].id in Identifiers(plantId)
            <==> !(s.EveryNDays? && s.n !in {2, 3, 7, 10, 14})
  {
    var id, ids := RequestsFor(plantId, s, title, body)[0].id, Identifiers(plantId);
    PlannedId(plantId, s, title, body);
    SuffixCancelledIff(s);
    if id in ids {
      var k :| 0 <= k < 12 && ids[k] == id;
      if k < 10 {
        IdentifierInjective(plantId, SuffixOf(s), CancelledSuffixes[k]);
      }
    }
    if SuffixOf(s) in CancelledSuffixes {
      var k :| 0 <= k < 10 && CancelledSuffixes[k] == SuffixOf(s);
      assert ids[k] == id;
    }
  }

  /** Every form choice is planned under an id that cancellation clears. */
  lemma PresetIdsCancellable(p: Plant)
    requires p.wateringDays in FormPresets
    ensures BuildRequests(p)[0].id in Identifiers(p.id)
  {
    PresetParsesToListed(p.wateringDays);
    PresetScheduleCancellable(p, ParseSchedule(p.wateringDays));
  }

  lemma PresetParsesToListed(text: string)
    requires text in FormPresets
    ensures ParseSchedule(text) in {Daily, EveryNDays(2), EveryNDays(3), Weekly, EveryNDays(10), Biweekly}
  {
    var k :| 0 <= k < |FormPresets| && FormPresets[k] == text;
    PresetsParse(k);
  }

  lemma PresetScheduleCancellable(p: Plant, s: WateringSchedule)
    requires ParseSchedule(p.wateringDays) == s
    requires s in {Daily, EveryNDays(2), EveryNDays(3), Weekly, EveryNDays(10), Biweekly}
    ensures BuildRequests(p)[0].id in Identifiers(p.id)
  {
    PlannedIdCancellable(p.id, s, Title(p), Body(p));
  }
}
