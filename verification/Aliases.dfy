/** When the aliases fire (schedule.rs, `expand_alias`). */
module Aliases {
  import opened Wrappers
  import opened Text
  import opened Calendar
  import opened Schedule
  import opened Expressions

  const HOURLY: seq<string> := ["0", "*", "*", "*", "*"]
  const DAILY: seq<string> := ["0", "0", "*", "*", "*"]
  const WEEKLY: seq<string> := ["0", "0", "*", "*", "0"]
  const MONTHLY: seq<string> := ["0", "0", "1", "*", "*"]

  function WordsOf(alias: string): seq<string> {
    if alias == "@hourly" then HOURLY else if alias == "@weekly" then WEEKLY
    else if alias == "@monthly" then MONTHLY else DAILY
  }

  lemma JoinedAliases()
    ensures Join(HOURLY, " ") == "0 * * * *" && Join(DAILY, " ") == "0 0 * * *"
    ensures Join(WEEKLY, " ") == "0 0 * * 0" && Join(MONTHLY, " ") == "0 0 1 * *"
  {
    hide Join;
    JoinFive("0", "*", "*", "*", "*");
    JoinFive("0", "0", "*", "*", "*");
    JoinFive("0", "0", "*", "*", "0");
    JoinFive("0", "0", "1", "*", "*");
  }

  lemma AliasWords()
    ensures forall w :: w in HOURLY || w in DAILY || w in WEEKLY || w in MONTHLY ==> IsWord(w)
  {
    assert IsWord("0") && IsWord("1") && IsWord("*");
  }

  /** An alias parses like the expression it stands for. */
  lemma AliasIsExpanded<Z>(expression: string, words: seq<string>, timezone: string, zones: map<string, Z>)
    requires |words| >= 2 && forall w :: w in words ==> IsWord(w)
    requires ExpandAlias(Trim(expression)) == Join(words, " ")
    ensures Parse(expression, timezone, zones) == Parse(Join(words, " "), timezone, zones)
  {
    hide Join, Trim, ExpandAlias, SplitWhitespace, ParseFields, IsWord, IsTrimmed;
    JoinedIsTrimmed(words);
    TrimTrimmed(Join(words, " "));
    SpacesInside(words);
    NoAlias(Join(words, " "));
  }

  lemma AliasNumbers()
    ensures Spells("0", Exactly(0), [], 0) && Spells("1", Exactly(1), [], 0) && Spells("0", Exactly(0), DAY_WORDS, 0)
  {
    PrintedNumber(0);
    PrintedNumber(1);
    assert Decimal(0) == "0" && Decimal(1) == "1";
    hide ParseU32;
  }

  /** The minutes at which an alias, in lower case, fires. */
  predicate AliasFires(alias: string, m: LocalMinute) {
    if alias == "@hourly" then m % 60 == 0
    else if alias == "@daily" || alias == "@midnight" then m % 1440 == 0
    else if alias == "@weekly" then m % 1440 == 0 && WeekdayOf(m / 1440) == 0
    else m % 1440 == 0 && DayOf(m / 1440) == 1
  }

  lemma Midnight(m: LocalMinute)
    ensures m % 1440 == 0 <==> m % 60 == 0 && m % 1440 / 60 == 0
  {
    var d, r := m / 1440, m % 1440;
    assert m == 60 * (24 * d) + r && r == 60 * (r / 60) + r % 60;
    assert m == 60 * (24 * d + r / 60) + r % 60;
    RestOfHour(24 * d + r / 60, r % 60);
  }

  predicate IsAlias(alias: string) {
    alias == "@hourly" || alias == "@daily" || alias == "@midnight" || alias == "@weekly" || alias == "@monthly"
  }

  lemma AliasExpands(expression: string)
    requires IsAlias(ToAsciiLowercase(expression))
    ensures ExpandAlias(expression) == Join(WordsOf(ToAsciiLowercase(expression)), " ")
  {
    JoinedAliases();
    hide Join, ToAsciiLowercase;
  }

  lemma AliasChoices(alias: string, m: LocalMinute)
    requires IsAlias(alias)
    ensures AliasFires(alias, m) <==>
      Chosen(Exactly(0), if alias == "@hourly" then Any else Exactly(0), if alias == "@monthly" then Exactly(1) else Any,
             Any, if alias == "@weekly" then Exactly(0) else Any, m)
  {
    Midnight(m);
    hide DayOf, WeekdayOf, MonthOf;
  }

  lemma AliasSpells(alias: string)
    requires IsAlias(alias)
    ensures var words := WordsOf(alias);
      && |words| == 5 && (forall w :: w in words ==> IsWord(w))
      && Spells(words[0], Exactly(0), [], 0) && Spells(words[1], if alias == "@hourly" then Any else Exactly(0), [], 0)
      && Spells(words[2], if alias == "@monthly" then Exactly(1) else Any, [], 0)
      && Spells(words[3], Any, MONTH_WORDS, 1)
      && Spells(words[4], if alias == "@weekly" then Exactly(0) else Any, DAY_WORDS, 0)
  {
    AliasWords();
    AliasNumbers();
    assert Spells("*", Any, [], 0) && Spells("*", Any, MONTH_WORDS, 1) && Spells("*", Any, DAY_WORDS, 0);
    hide Spells, IsWord;
  }

  /** The five aliases, in any case of letters and with whitespace around them. */
  lemma AliasMeans<Z>(expression: string, timezone: string, zones: map<string, Z>)
    requires Trim(timezone) in zones && IsAlias(ToAsciiLowercase(Trim(expression)))
    ensures var r := Parse(expression, timezone, zones);
      && r.Ok? && r.value.1 == zones[Trim(timezone)]
      && forall m :: Matches(r.value.0, m) <==> AliasFires(ToAsciiLowercase(Trim(expression)), m)
  {
    hide Join, Trim, ExpandAlias, Parse, Spells, Matches, IsWord, ToAsciiLowercase, WordsOf, IsAlias, AliasFires, Chosen;
    var alias := ToAsciiLowercase(Trim(expression));
    AliasExpands(Trim(expression));
    AliasSpells(alias);
    AliasIsExpanded(expression, WordsOf(alias), timezone, zones);
    SingleValuesMean(WordsOf(alias), Exactly(0), if alias == "@hourly" then Any else Exactly(0),
                     if alias == "@monthly" then Exactly(1) else Any, Any,
                     if alias == "@weekly" then Exactly(0) else Any, timezone, zones);
    forall m ensures AliasFires(alias, m) <==> Matches(Parse(expression, timezone, zones).value.0, m) {
      AliasChoices(alias, m);
    }
  }
}
