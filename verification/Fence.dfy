/** Quoted text stays inside its fence (CommonMark 0.31, section 4.5). */
module Fence {
  import opened Wrappers
  import opened Text
  import opened Brief

  predicate IsLineBreak(c: char) {
    c == '\n' || c == '\r'
  }

  /** A character before lines: a line ending starts a new line, anything else belongs to the first. */
  function CharBefore(c: char, lines: seq<string>): (r: seq<string>)
    requires |lines| >= 1
    ensures |r| >= 1
  {
    if IsLineBreak(c) then [[]] + lines else [[c] + lines[0]] + lines[1..]
  }

  /** The lines of a Markdown document, split at every line ending character. */
  function MarkdownLines(s: string): (r: seq<string>)
    ensures |r| >= 1
  {
    if s == [] then [[]] else CharBefore(s[0], MarkdownLines(s[1..]))
  }

  /** Up to three spaces, at least `n` backticks, and nothing else but spaces and tabs. */
  ghost predicate ClosesAt(line: string, n: nat, a: nat, b: nat) {
    && a <= 3 && a + n <= b <= |line|
    && (forall i :: 0 <= i < a ==> line[i] == ' ')
    && (forall i :: a <= i < b ==> line[i] == '`')
    && (forall i :: b <= i < |line| ==> line[i] == ' ' || line[i] == '\t')
  }

  /** The line closes a code block that was opened by a fence of `n` backticks. */
  ghost predicate ClosesFence(line: string, n: nat) {
    exists a: nat, b: nat :: ClosesAt(line, n, a, b)
  }

  predicate TicksBetween(s: string, i: nat, j: nat)
    requires j <= |s|
  {
    forall k :: i <= k < j ==> s[k] == '`'
  }

  lemma {:induction false} LeadingRun(text: string, j: nat)
    requires j <= |text| && TicksBetween(text, 0, j)
    ensures j <= |BacktickRuns(text)[0]|
  {
    if j > 0 {
      assert text[0] == '`';
      assert forall k :: 0 <= k < |text| - 1 ==> text[1..][k] == text[k + 1];
      LeadingRun(text[1..], j - 1);
    }
  }

  lemma RunsInFront(text: string)
    requires text != []
    ensures var rest := BacktickRuns(text[1..]);
      if text[0] != '`' then LongestOf(BacktickRuns(text)) == LongestOf(rest)
      else LongestOf(BacktickRuns(text)) == Max(|rest[0]| + 1, LongestOf(rest))
  {
    var rest := BacktickRuns(text[1..]);
    assert rest == [rest[0]] + rest[1..];
    if text[0] != '`' {
      assert ([[]] + rest)[1..] == rest;
    } else {
      assert ([[text[0]] + rest[0]] + rest[1..])[1..] == rest[1..];
    }
  }

  /** No stretch of backticks is longer than the longest run found. */
  lemma {:induction false} RunsAreBounded(text: string, i: nat, j: nat)
    requires i <= j <= |text| && TicksBetween(text, i, j)
    ensures j - i <= LongestOf(BacktickRuns(text))
  {
    if i == 0 {
      LeadingRun(text, j);
    } else {
      assert forall k :: 0 <= k < |text| - 1 ==> text[1..][k] == text[k + 1];
      RunsAreBounded(text[1..], i - 1, j - 1);
      RunsInFront(text);
    }
  }

  lemma {:induction false} FirstRunLeads(text: string)
    ensures |BacktickRuns(text)[0]| <= |text| && TicksBetween(text, 0, |BacktickRuns(text)[0]|)
  {
    if text != [] {
      FirstRunLeads(text[1..]);
    }
  }

  /** The longest run found occurs in the text. */
  lemma {:induction false} LongestRunOccurs(text: string) returns (i: nat)
    ensures var n := LongestOf(BacktickRuns(text)); i + n <= |text| && TicksBetween(text, i, i + n)
  {
    i := 0;
    if text != [] {
      FirstRunLeads(text);
      RunsInFront(text);
      var j := LongestRunOccurs(text[1..]);
      assert forall k :: 0 <= k < |text| - 1 ==> text[1..][k] == text[k + 1];
      hide LongestOf;
      if text[0] != '`' || LongestOf(BacktickRuns(text)) == LongestOf(BacktickRuns(text[1..])) {
        i := j + 1;
      }
    }
  }

  /** A line of a text is a stretch of it. */
  lemma {:induction false} LinesAreSlices(s: string, line: string) returns (i: nat)
    requires line in MarkdownLines(s)
    ensures i + |line| <= |s| && forall k :: 0 <= k < |line| ==> s[i + k] == line[k]
    ensures line == MarkdownLines(s)[0] ==> i == 0
  {
    i := 0;
    if s != [] {
      var rest := MarkdownLines(s[1..]);
      assert forall k :: 0 <= k < |s| - 1 ==> s[1..][k] == s[k + 1];
      if line == MarkdownLines(s)[0] {
        var first := LinesAreSlices(s[1..], rest[0]);
      } else {
        assert line in rest;
        var j := LinesAreSlices(s[1..], line);
        i := j + 1;
      }
    }
  }

  lemma CharBeforeBoth(c: char, before: seq<string>, after: seq<string>)
    requires |before| >= 1
    ensures CharBefore(c, before + after) == CharBefore(c, before) + after
  {
  }

  lemma {:induction false} LinesAround(a: string, b: string)
    ensures MarkdownLines(a + "\n" + b) == MarkdownLines(a) + MarkdownLines(b)
  {
    var s := a + "\n" + b;
    if a == [] {
      assert s[1..] == b && s[0] == '\n';
      assert CharBefore('\n', MarkdownLines(b)) == [[]] + MarkdownLines(b);
    } else {
      hide CharBefore;
      LinesAround(a[1..], b);
      assert s[1..] == a[1..] + "\n" + b && s[0] == a[0];
      CharBeforeBoth(a[0], MarkdownLines(a[1..]), MarkdownLines(b));
    }
  }

  lemma {:induction false} FenceIsOneLine(n: nat)
    ensures MarkdownLines(Repeat('`', n)) == [Repeat('`', n)]
  {
    if n > 0 {
      FenceIsOneLine(n - 1);
      assert Repeat('`', n)[1..] == Repeat('`', n - 1);
      assert Repeat('`', n) == ['`'] + Repeat('`', n - 1);
    }
  }

  lemma NoLineOfTheTextCloses(text: string, line: string)
    requires line in MarkdownLines(text)
    ensures !ClosesFence(line, |FenceOf(text)|)
  {
    var n := |FenceOf(text)|;
    var i := LinesAreSlices(text, line);
    forall a: nat, b: nat ensures !ClosesAt(line, n, a, b) {
      if ClosesAt(line, n, a, b) {
        assert forall k :: i + a <= k < i + b ==> text[k] == line[k - i];
        RunsAreBounded(text, i + a, i + b);
      }
    }
  }

  /**
   A fenced text is the fence, the lines of the text and the fence again, and of the lines after the first only the last
   closes it: the quoted text stays one code block, whatever it contains.
   */
  lemma OnlyTheLastLineCloses(text: string)
    ensures var fence := FenceOf(text);
      && |fence| >= 3 && TicksBetween(fence, 0, |fence|)
      && MarkdownLines(Fenced(text)) == [fence] + MarkdownLines(text) + [fence]
      && (forall line :: line in MarkdownLines(text) ==> !ClosesFence(line, |fence|))
      && ClosesFence(fence, |fence|)
  {
    var fence := FenceOf(text);
    FenceIsOneLine(|fence|);
    forall line | line in MarkdownLines(text) ensures !ClosesFence(line, |fence|) {
      NoLineOfTheTextCloses(text, line);
    }
    assert ClosesAt(fence, |fence|, 0, |fence|);
    LinesAround(fence + "\n" + text, fence);
    LinesAround(fence, text);
  }
}
