/** What an accepted expression means, field by field, and which expressions are rejected (schedule.rs, `parse`). */
module Expressions {
  import opened Wrappers
  import opened Text
  import opened Calendar
  import opened Cron
  import opened CronGrammar
  import opened Schedule

  // ----- One field

  /** A field that is written as one value. */
  lemma ValueField(raw: string, value: u32, min: u32, max: u32, names: Names)
    requires Bounds(min, max) && ParseValue(raw, names) == Some(value) && min <= value <= max && PlainNames(names)
    ensures Field(raw, min, max, names).Ok? && Field(raw, min, max, names).value.restricted
    ensures forall v :: Field(raw, min, max, names).value.Contains(v) <==> v == value
  {
    var p := PartText(RangeText.Single(raw), None);
    assert PrintAll([p]) == raw;
    assert Straight(WalkOf(p, min, max, names));
    ValueIsPlain(raw, names);
    FieldAllowsWhatItDenotes([p], min, max, names);
    GrammarIsAccepted([p], min, max, names);
    assert p in [p];
    assert forall v :: Denotes(WalkOf(p, min, max, names), v) <==> v == value;
  }

  lemma StarField(min: u32, max: u32, names: Names)
    requires Bounds(min, max) && PlainNames(names)
    ensures Field("*", min, max, names).Ok? && !Field("*", min, max, names).value.restricted
    ensures forall v :: min <= v <= max ==> Field("*", min, max, names).value.Contains(v)
  {
    hide PlainNames, CronField.Contains;
    StarAllowsAll("*", min, max, names);
  }

  // ----- Whole expressions

  /** Five words joined by spaces are the whole of an expression that has no alias. */
  lemma WholeExpression<Z>(fields: seq<string>, timezone: string, zones: map<string, Z>)
    requires |fields| == 5 && (forall w :: w in fields ==> IsWord(w))
    requires Trim(timezone) in zones
    ensures Parse(Join(fields, " "), timezone, zones) == match ParseFields(fields)
      case Ok(s) => Ok((s, zones[Trim(timezone)]))
      case Err(e) => Err(e)
  {
    hide ParseFields;
    var joined := Join(fields, " ");
    JoinedIsTrimmed(fields);
    WordsOfJoin(fields);
    TrimTrimmed(joined);
    SpacesInside(fields);
    hide Join, Trim, SplitWhitespace;
    NoAlias(joined);
  }

  lemma SpacesInside(words: seq<string>)
    requires |words| >= 2
    ensures ' ' in Join(words, " ")
  {
    var rest := Join(words[1..], " ");
    assert Join(words, " ") == words[0] + " " + rest;
    assert (words[0] + " " + rest)[|words[0]|] == ' ';
  }

  lemma {:induction false} JoinedIsTrimmed(words: seq<string>)
    requires words != [] && forall w :: w in words ==> IsWord(w)
    ensures IsTrimmed(Join(words, " ")) && Join(words, " ") != []
  {
    assert IsWord(words[0]);
    if |words| > 1 {
      JoinedIsTrimmed(words[1..]);
      var joined, rest := Join(words, " "), Join(words[1..], " ");
      assert joined[|joined| - 1] == rest[|rest| - 1];
    }
  }

  lemma NoAlias(expression: string)
    requires ' ' in expression
    ensures ExpandAlias(expression) == expression
  {
    var i :| 0 <= i < |expression| && expression[i] == ' ';
    assert ToAsciiLowercase(expression)[i] == ' ';
    assert ' ' !in "@hourly" && ' ' !in "@daily" && ' ' !in "@midnight" && ' ' !in "@weekly" && ' ' !in "@monthly";
  }

  lemma JoinFive(a: string, b: string, c: string, d: string, e: string)
    ensures Join([a, b, c, d, e], " ") == a + " " + (b + " " + (c + " " + (d + " " + e)))
  {
    assert Join([e], " ") == e;
    assert [d, e][1..] == [e];
    assert Join([d, e], " ") == d + " " + e;
    assert [c, d, e][1..] == [d, e];
    assert Join([c, d, e], " ") == c + " " + (d + " " + e);
    assert [b, c, d, e][1..] == [c, d, e];
    assert Join([b, c, d, e], " ") == b + " " + (c + " " + (d + " " + e));
    assert [a, b, c, d, e][1..] == [b, c, d, e];
  }

  // ----- What an expression means

  predicate IsStar(word: string) {
    word == "*" || word == "?"
  }

  predicate Accepts(word: string, min: u32, max: u32, names: Names)
    requires Bounds(min, max)
  {
    Field(word, min, max, names).Ok?
  }

  predicate Allows(word: string, min: u32, max: u32, names: Names, value: int)
    requires Bounds(min, max)
  {
    Field(word, min, max, names).Ok? && Field(word, min, max, names).value.Contains(value)
  }

  /** The words are, in this order, minutes, hours, days of the month, months and weekdays. */
  predicate AcceptsAll(words: seq<string>)
    requires |words| == 5
  {
    && Accepts(words[0], 0, 59, []) && Accepts(words[1], 0, 23, []) && Accepts(words[2], 1, 31, [])
    && Accepts(words[3], 1, 12, MONTH_NAMES) && Accepts(words[4], 0, 7, WEEKDAY_NAMES)
  }

  /** The words allow the local minute; weekday 7 is Sunday, and of day and weekday one is enough if both are given. */
  predicate AllowsMinute(words: seq<string>, m: LocalMinute)
    requires |words| == 5
  {
    var date := m / 1440;
    var day := Allows(words[2], 1, 31, [], DayOf(date));
    var weekday := Allows(words[4], 0, 7, WEEKDAY_NAMES, WeekdayOf(date))
      || (WeekdayOf(date) == 0 && Allows(words[4], 0, 7, WEEKDAY_NAMES, 7));
    && Allows(words[0], 0, 59, [], m % 60) && Allows(words[1], 0, 23, [], m % 1440 / 60)
    && Allows(words[3], 1, 12, MONTH_NAMES, MonthOf(date))
    && (if IsStar(words[2]) || IsStar(words[4]) then day && weekday else day || weekday)
  }

  lemma StarMeansUnrestricted(word: string, min: u32, max: u32, names: Names)
    requires Bounds(min, max) && PlainNames(names) && Accepts(word, min, max, names)
    ensures Field(word, min, max, names).value.restricted <==> !IsStar(word)
    ensures IsStar(word) ==> forall v :: min <= v <= max ==> Allows(word, min, max, names, v)
    ensures |Field(word, min, max, names).value.allowed| == max + 1
  {
    AcceptedFieldAllows(word, min, max, names);
  }

  /** Which word is read into which field. */
  lemma FieldsAre(words: seq<string>)
    requires |words| == 5
    ensures ParseFields(words).Ok? <==> AcceptsAll(words)
    ensures ParseFields(words).Ok? ==>
      ParseFields(words).value == Schedule(
        Field(words[0], 0, 59, []).value, Field(words[1], 0, 23, []).value, Field(words[2], 1, 31, []).value,
        Field(words[3], 1, 12, MONTH_NAMES).value, FoldSunday(Field(words[4], 0, 7, WEEKDAY_NAMES).value))
  {
    hide Field, FoldSunday;
  }

  /** The day rule in terms of the words. */
  lemma DaysMean(words: seq<string>, s: Schedule, date: Date)
    requires |words| == 5 && AcceptsAll(words)
    requires s.daysOfMonth == Field(words[2], 1, 31, []).value
    requires s.daysOfWeek == FoldSunday(Field(words[4], 0, 7, WEEKDAY_NAMES).value)
    ensures var day := Allows(words[2], 1, 31, [], DayOf(date));
      var weekday := Allows(words[4], 0, 7, WEEKDAY_NAMES, WeekdayOf(date))
        || (WeekdayOf(date) == 0 && Allows(words[4], 0, 7, WEEKDAY_NAMES, 7));
      DayMatches(s, date) <==>
        && s.months.Contains(MonthOf(date))
        && (if IsStar(words[2]) || IsStar(words[4]) then day && weekday else day || weekday)
  {
    NamesArePlain();
    CivilOfDate(date);
    assert 1 <= DayOf(date) <= 31 by {
      assert MonthLength(YearOf(date), MonthOf(date)) <= 31;
    }
    var f := Field(words[4], 0, 7, WEEKDAY_NAMES).value;
    StarMeansUnrestricted(words[2], 1, 31, []);
    StarMeansUnrestricted(words[4], 0, 7, WEEKDAY_NAMES);
    FoldedAllows(f);
    hide Field, PlainNames, YearOf, MonthOf, DayOf, DateOf, MonthLength, IsDate, CronField.Contains, FoldSunday, IsStar;
    assert 0 <= WeekdayOf(date) <= 6;
    hide WeekdayOf;
  }

  lemma FoldedAllows(f: CronField)
    requires |f.allowed| == 8
    ensures FoldSunday(f).restricted == f.restricted
    ensures forall v :: 0 <= v <= 6 ==> (FoldSunday(f).Contains(v) <==> f.Contains(v) || (v == 0 && f.Contains(7)))
  {
  }

  lemma FieldsMean(words: seq<string>)
    requires |words| == 5
    ensures ParseFields(words).Ok? <==> AcceptsAll(words)
    ensures ParseFields(words).Ok? ==> forall m :: Matches(ParseFields(words).value, m) <==> AllowsMinute(words, m)
  {
    FieldsAre(words);
    hide ParseFields, Field, FoldSunday, DayMatches, IsStar, MonthOf, DayOf, WeekdayOf, CronField.Contains;
    if ParseFields(words).Ok? {
      var s := ParseFields(words).value;
      forall m ensures Matches(s, m) <==> AllowsMinute(words, m) {
        DaysMean(words, s, m / 1440);
      }
    }
  }

  /**
   Five words are accepted if and only if each is within its own bounds, and then the schedule fires in exactly the local
   minutes that all of them allow.
   */
  lemma ParseMeans<Z>(words: seq<string>, timezone: string, zones: map<string, Z>)
    requires |words| == 5 && (forall w :: w in words ==> IsWord(w)) && Trim(timezone) in zones
    ensures var r := Parse(Join(words, " "), timezone, zones);
      && (r.Ok? <==> AcceptsAll(words))
      && (r.Ok? ==> r.value.1 == zones[Trim(timezone)] && forall m :: Matches(r.value.0, m) <==> AllowsMinute(words, m))
  {
    hide ParseFields, Join, Trim, Matches, AllowsMinute, AcceptsAll, IsWord;
    FieldsMean(words);
    WholeExpression(words, timezone, zones);
    hide Parse;
  }

  // ----- Expressions that are rejected

  /** The fields in the order in which they are read: the weekday comes first. */
  function ReadOrder(k: nat): nat
    requires k < 5
  {
    if k == 0 then 4 else k - 1
  }

  /** What becomes of the word at `i`. */
  function Read(words: seq<string>, i: nat): Result<CronField, Problem>
    requires |words| == 5 && i < 5
  {
    if i == 0 then Field(words[0], 0, 59, [])
    else if i == 1 then Field(words[1], 0, 23, [])
    else if i == 2 then Field(words[2], 1, 31, [])
    else if i == 3 then Field(words[3], 1, 12, MONTH_NAMES)
    else Field(words[4], 0, 7, WEEKDAY_NAMES)
  }

  /** A wrong number of words is reported, or else the first bad word, the weekday before all others. */
  lemma ParseRejects<Z>(words: seq<string>, timezone: string, zones: map<string, Z>, k: nat)
    requires |words| >= 2 && (forall w :: w in words ==> IsWord(w)) && Trim(timezone) in zones
    requires |words| == 5 ==>
      k < 5 && Read(words, ReadOrder(k)).Err? && forall j :: 0 <= j < k ==> Read(words, ReadOrder(j)).Ok?
    ensures Parse(Join(words, " "), timezone, zones)
      == Err(if |words| != 5 then FieldCount(|words|)
             else InvalidField(words[ReadOrder(k)], Read(words, ReadOrder(k)).error))
  {
    hide Join, Trim, SplitWhitespace, ExpandAlias, ParseFields, Read;
    WordsAreRead(words);
    if |words| == 5 {
      WholeExpression(words, timezone, zones);
      FirstBadField(words, k);
      hide Parse;
    }
  }

  /** The expression is split into its words. */
  lemma WordsAreRead(words: seq<string>)
    requires |words| >= 2 && forall w :: w in words ==> IsWord(w)
    ensures SplitWhitespace(ExpandAlias(Trim(Join(words, " ")))) == words
  {
    JoinedIsTrimmed(words);
    WordsOfJoin(words);
    TrimTrimmed(Join(words, " "));
    SpacesInside(words);
    hide Join, Trim, SplitWhitespace;
    NoAlias(Join(words, " "));
  }

  lemma FirstBadField(words: seq<string>, k: nat)
    requires |words| == 5 && k < 5 && Read(words, ReadOrder(k)).Err?
    requires forall j :: 0 <= j < k ==> Read(words, ReadOrder(j)).Ok?
    ensures ParseFields(words) == Err(InvalidField(words[ReadOrder(k)], Read(words, ReadOrder(k)).error))
  {
    hide Field, FoldSunday;
    assert k > 0 ==> Read(words, ReadOrder(0)).Ok?;
    assert k > 1 ==> Read(words, ReadOrder(1)).Ok?;
    assert k > 2 ==> Read(words, ReadOrder(2)).Ok?;
    assert k > 3 ==> Read(words, ReadOrder(3)).Ok?;
  }

  // ----- Numbers and names

  const DAY_WORDS := ["sun", "mon", "tue", "wed", "thu", "fri", "sat"]

  const MONTH_WORDS := ["jan", "feb", "mar", "apr", "may", "jun", "jul", "aug", "sep", "oct", "nov", "dec"]

  /** A printed number is read back, with or without a plus sign, if it has at most 32 bits. */
  lemma PrintedNumber(n: nat)
    ensures ParseU32(Decimal(n)) == ParseU32("+" + Decimal(n)) == if n < 0x1_0000_0000 then Some(n) else None
  {
    DecimalDenotes(n);
    hide Decimal, DigitsValue;
    assert Decimal(n)[0] in Decimal(n);
    assert ("+" + Decimal(n))[1..] == Decimal(n);
  }

  lemma {:induction false} LookupFinds(names: Names, i: nat)
    requires i < |names| && forall j :: 0 <= j < i ==> names[j].0 != names[i].0
    ensures Lookup(names[i].0, names) == Some(names[i].1)
  {
    if i > 0 {
      assert forall j :: 0 <= j < |names[1..]| ==> names[1..][j] == names[j + 1];
      LookupFinds(names[1..], i - 1);
    }
  }

  /** A text of letters is no number. */
  lemma LettersAreNoNumber(raw: string)
    requires raw != [] && 'a' <= LowerChar(raw[0]) <= 'z'
    ensures ParseU32(raw) == None
  {
    assert !IsDigit(raw[0]) && raw[0] != '+';
    assert raw[0] in raw;
  }

  /** A name in any case of letters denotes its number. */
  lemma NameIsRead(raw: string, names: Names, i: nat)
    requires PlainNames(names) && i < |names| && ToAsciiLowercase(raw) == names[i].0 && names[i].0 != []
    requires forall j :: 0 <= j < i ==> names[j].0 != names[i].0
    ensures ParseValue(raw, names) == Some(names[i].1)
  {
    LookupFinds(names, i);
    assert names[i].0[0] in names[i].0;
    assert ToAsciiLowercase(raw)[0] == LowerChar(raw[0]);
    LettersAreNoNumber(raw);
  }

  lemma DaysAreNamed(v: nat)
    requires v < 7
    ensures WEEKDAY_NAMES[v] == (DAY_WORDS[v], v)
    ensures forall j :: 0 <= j < v ==> WEEKDAY_NAMES[j].0 != WEEKDAY_NAMES[v].0
  {
  }

  lemma MonthsAreNamed(v: nat)
    requires v < 12
    ensures MONTH_NAMES[v] == (MONTH_WORDS[v], v + 1)
    ensures forall j :: 0 <= j < v ==> MONTH_NAMES[j].0 != MONTH_NAMES[v].0
  {
  }

  /** The seven weekday names and the twelve month names, in any case of letters. */
  lemma NamesDenote(raw: string, v: nat)
    ensures v < 7 && ToAsciiLowercase(raw) == DAY_WORDS[v] ==> ParseValue(raw, WEEKDAY_NAMES) == Some(v)
    ensures v < 12 && ToAsciiLowercase(raw) == MONTH_WORDS[v] ==> ParseValue(raw, MONTH_NAMES) == Some(v + 1)
  {
    hide ParseValue, ToAsciiLowercase;
    NamesArePlain();
    if v < 7 && ToAsciiLowercase(raw) == DAY_WORDS[v] {
      DaysAreNamed(v);
      NameIsRead(raw, WEEKDAY_NAMES, v);
    }
    if v < 12 && ToAsciiLowercase(raw) == MONTH_WORDS[v] {
      MonthsAreNamed(v);
      NameIsRead(raw, MONTH_NAMES, v);
    }
  }

  // ----- Expressions of single values

  datatype Choice = Any | Exactly(value: nat)
  {
    predicate Picks(v: int) {
      Any? || v == value
    }
  }

  /** A star, a number, or the name whose place in the list, from `first` on, is the value. */
  predicate Spells(word: string, c: Choice, names: seq<string>, first: nat) {
    match c
    case Any => IsStar(word)
    case Exactly(v) =>
      ParseU32(word) == Some(v) || (first <= v < first + |names| && ToAsciiLowercase(word) == names[v - first])
  }

  predicate Within(c: Choice, min: nat, max: nat) {
    c.Exactly? ==> min <= c.value <= max
  }

  /** The local minutes of five choices; weekday 7 is Sunday. */
  predicate Chosen(minute: Choice, hour: Choice, day: Choice, month: Choice, weekday: Choice, m: LocalMinute) {
    var date := m / 1440;
    var onDay := day.Picks(DayOf(date));
    var onWeekday := weekday.Picks(WeekdayOf(date)) || (weekday == Exactly(7) && WeekdayOf(date) == 0);
    && minute.Picks(m % 60) && hour.Picks(m % 1440 / 60) && month.Picks(MonthOf(date))
    && (if day.Any? || weekday.Any? then onDay && onWeekday else onDay || onWeekday)
  }

  lemma SingleField(word: string, c: Choice, min: u32, max: u32, names: Names)
    requires Bounds(min, max) && PlainNames(names) && Within(c, min, max)
    requires if c.Any? then IsStar(word) else ParseValue(word, names) == Some(c.value)
    ensures Accepts(word, min, max, names) && (c.Any? <==> IsStar(word))
    ensures forall v :: min <= v <= max ==> (Allows(word, min, max, names, v) <==> c.Picks(v))
  {
    hide Field, PlainNames, CronField.Contains, ParseValue;
    if c.Any? {
      StarAllowsAll(word, min, max, names);
    } else {
      ValueField(word, c.value, min, max, names);
      ValueIsPlain(word, names);
    }
  }

  lemma SpelledIsRead(word: string, c: Choice)
    requires c.Exactly?
    ensures Spells(word, c, [], 0) ==> ParseValue(word, []) == Some(c.value)
    ensures Spells(word, c, MONTH_WORDS, 1) && Within(c, 1, 12) ==> ParseValue(word, MONTH_NAMES) == Some(c.value)
    ensures Spells(word, c, DAY_WORDS, 0) && Within(c, 0, 7) ==> ParseValue(word, WEEKDAY_NAMES) == Some(c.value)
  {
    NamesDenote(word, c.value);
    if c.value >= 1 {
      NamesDenote(word, c.value - 1);
    }
    hide ParseU32, ToAsciiLowercase, Lookup;
  }

  lemma PlainField(word: string, c: Choice, min: u32, max: u32)
    requires Bounds(min, max) && Spells(word, c, [], 0) && Within(c, min, max)
    ensures Accepts(word, min, max, []) && (c.Any? <==> IsStar(word))
    ensures forall v :: min <= v <= max ==> (Allows(word, min, max, [], v) <==> c.Picks(v))
  {
    NamesArePlain();
    if c.Exactly? { SpelledIsRead(word, c); }
    hide Accepts, Allows, ParseValue, PlainNames;
    SingleField(word, c, min, max, []);
  }

  lemma MonthField(word: string, c: Choice)
    requires Spells(word, c, MONTH_WORDS, 1) && Within(c, 1, 12)
    ensures Accepts(word, 1, 12, MONTH_NAMES) && (c.Any? <==> IsStar(word))
    ensures forall v :: 1 <= v <= 12 ==> (Allows(word, 1, 12, MONTH_NAMES, v) <==> c.Picks(v))
  {
    NamesArePlain();
    if c.Exactly? { SpelledIsRead(word, c); }
    hide Accepts, Allows, ParseValue, PlainNames;
    SingleField(word, c, 1, 12, MONTH_NAMES);
  }

  lemma WeekdayField(word: string, c: Choice)
    requires Spells(word, c, DAY_WORDS, 0) && Within(c, 0, 7)
    ensures Accepts(word, 0, 7, WEEKDAY_NAMES) && (c.Any? <==> IsStar(word))
    ensures forall v :: 0 <= v <= 7 ==> (Allows(word, 0, 7, WEEKDAY_NAMES, v) <==> c.Picks(v))
  {
    NamesArePlain();
    if c.Exactly? { SpelledIsRead(word, c); }
    hide Accepts, Allows, ParseValue, PlainNames;
    SingleField(word, c, 0, 7, WEEKDAY_NAMES);
  }

  lemma InBounds(m: LocalMinute)
    ensures 0 <= m % 60 <= 59 && 0 <= m % 1440 / 60 <= 23
    ensures 1 <= DayOf(m / 1440) <= 31 && 1 <= MonthOf(m / 1440) <= 12 && 0 <= WeekdayOf(m / 1440) <= 6
  {
    var date := m / 1440;
    CivilOfDate(date);
    assert MonthLength(YearOf(date), MonthOf(date)) <= 31;
  }

  lemma WordsAllow(words: seq<string>, minute: Choice, hour: Choice, day: Choice, month: Choice, weekday: Choice)
    requires |words| == 5
    requires Spells(words[0], minute, [], 0) && Within(minute, 0, 59)
    requires Spells(words[1], hour, [], 0) && Within(hour, 0, 23)
    requires Spells(words[2], day, [], 0) && Within(day, 1, 31)
    requires Spells(words[3], month, MONTH_WORDS, 1) && Within(month, 1, 12)
    requires Spells(words[4], weekday, DAY_WORDS, 0) && Within(weekday, 0, 7)
    ensures AcceptsAll(words)
    ensures forall m :: AllowsMinute(words, m) <==> Chosen(minute, hour, day, month, weekday, m)
  {
    hide Spells, Accepts, Allows, IsStar, Within;
    PlainField(words[0], minute, 0, 59);
    PlainField(words[1], hour, 0, 23);
    PlainField(words[2], day, 1, 31);
    MonthField(words[3], month);
    WeekdayField(words[4], weekday);
    forall m ensures AllowsMinute(words, m) <==> Chosen(minute, hour, day, month, weekday, m) {
      InBounds(m);
      hide MonthOf, DayOf, WeekdayOf;
    }
  }

  /** An expression of stars, numbers and names fires in the local minutes that the five choices pick. */
  lemma SingleValuesMean<Z>(words: seq<string>, minute: Choice, hour: Choice, day: Choice, month: Choice,
                            weekday: Choice, timezone: string, zones: map<string, Z>)
    requires |words| == 5 && (forall w :: w in words ==> IsWord(w)) && Trim(timezone) in zones
    requires Spells(words[0], minute, [], 0) && Within(minute, 0, 59)
    requires Spells(words[1], hour, [], 0) && Within(hour, 0, 23)
    requires Spells(words[2], day, [], 0) && Within(day, 1, 31)
    requires Spells(words[3], month, MONTH_WORDS, 1) && Within(month, 1, 12)
    requires Spells(words[4], weekday, DAY_WORDS, 0) && Within(weekday, 0, 7)
    ensures var r := Parse(Join(words, " "), timezone, zones);
      && r.Ok? && r.value.1 == zones[Trim(timezone)]
      && forall m :: Matches(r.value.0, m) <==> Chosen(minute, hour, day, month, weekday, m)
  {
    hide Parse, Join, Trim, IsWord, Matches, Spells, AllowsMinute, AcceptsAll, Chosen;
    ParseMeans(words, timezone, zones);
    WordsAllow(words, minute, hour, day, month, weekday);
  }
}
