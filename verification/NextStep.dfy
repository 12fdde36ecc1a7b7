/** The next step Reili records is the one the next cycle reads back, whatever else the text contains. */
module NextStep {
  import opened Wrappers
  import opened Text
  import opened Render

  // ----- Text without line breaks

  predicate OneLine(s: string) {
    '\n' !in s
  }

  lemma ClipIsOneLine(s: string, max: nat)
    requires OneLine(s)
    ensures OneLine(Clip(s, max))
  {
    TrimIsSlice(s);
  }

  lemma TrimIsSlice(s: string)
    ensures forall c :: c in Trim(s) ==> c in s
  {
    TrimStartIsSuffix(s);
    TrimEndIsPrefix(TrimStart(s));
  }

  lemma {:induction false} WordsAreWords(s: string)
    ensures forall w :: w in SplitWhitespace(s) ==> IsWord(w)
  {
    if s != [] {
      WordsAreWords(s[1..]);
      var rest := SplitWhitespace(s[1..]);
      if rest != [] {
        assert IsWord(rest[0]);
      }
    }
  }

  lemma {:induction false} JoinedWordsAreOneLine(words: seq<string>)
    requires forall w :: w in words ==> IsWord(w)
    ensures OneLine(Join(words, " "))
  {
    if words != [] {
      assert IsWord(words[0]);
      JoinedWordsAreOneLine(words[1..]);
    }
  }

  /** The recorded step is on one line, starts and ends visibly, and is short. */
  lemma SingleLineIsOneLine(value: string)
    ensures OneLine(SingleLine(value)) && IsTrimmed(SingleLine(value))
    ensures |SingleLine(value)| <= MAX_LINE_CHARS + |TRUNCATION_MARK|
  {
    var joined := Join(SplitWhitespace(value), " ");
    WordsAreWords(value);
    JoinedWordsAreOneLine(SplitWhitespace(value));
    ClipIsOneLine(joined, MAX_LINE_CHARS);
    TrimIsTrimmed(joined);
    hide Trim;
  }

  // ----- Text in which no line has the label

  ghost predicate Clean(t: string) {
    !(NEXT_STEP_LABEL <= t) && forall i :: 0 <= i < |t| && t[i] == '\n' ==> !(NEXT_STEP_LABEL <= t[i + 1..])
  }

  lemma CleanLine(line: string)
    requires OneLine(line) && (line != [] ==> line[0] != '*')
    ensures Clean(line)
  {
  }

  lemma CleanPrefix(t: string, p: string)
    requires Clean(t) && p <= t
    ensures Clean(p)
  {
    forall i | 0 <= i < |p| && p[i] == '\n' ensures !(NEXT_STEP_LABEL <= p[i + 1..]) {
      assert p[i + 1..] <= t[i + 1..];
    }
  }

  /** The label has no line break in it, so it never spans two lines. */
  lemma CleanAround(a: string, b: string)
    requires Clean(a) && Clean(b)
    ensures Clean(a + "\n" + b)
  {
    var t := a + "\n" + b;
    assert t[|a|] == '\n' && t[|a| + 1..] == b;
    if NEXT_STEP_LABEL <= t {
      LabelStopsAtBreak(a, b);
    }
    forall i | 0 <= i < |t| && t[i] == '\n' ensures !(NEXT_STEP_LABEL <= t[i + 1..]) {
      if i < |a| {
        assert t[i + 1..] == a[i + 1..] + "\n" + b;
        if NEXT_STEP_LABEL <= t[i + 1..] {
          LabelStopsAtBreak(a[i + 1..], b);
        }
      } else if i > |a| {
        assert t[i + 1..] == b[i - |a|..];
        assert b[i - |a| - 1] == '\n';
      }
    }
  }

  lemma LabelStopsAtBreak(a: string, b: string)
    requires NEXT_STEP_LABEL <= a + "\n" + b
    ensures NEXT_STEP_LABEL <= a
  {
    assert (a + "\n" + b)[|a|] == '\n' && '\n' !in NEXT_STEP_LABEL;
  }

  lemma CleanConcat(a: string, b: string)
    requires Clean(a) && Clean(b) && (a == [] || a[|a| - 1] == '\n')
    ensures Clean(a + b)
  {
    if a == [] {
      assert a + b == b;
    } else {
      CleanPrefix(a, a[..|a| - 1]);
      CleanAround(a[..|a| - 1], b);
      assert a + b == a[..|a| - 1] + "\n" + b;
    }
  }

  /** Cutting text short makes no new label: the mark starts with a character the label does not have. */
  lemma CleanCut(t: string, max: nat)
    requires Clean(t)
    ensures Clean(TruncateChars(t, max))
  {
    if |t| > max {
      var cut := t[..max];
      var marked := cut + TRUNCATION_MARK;
      CleanPrefix(t, cut);
      if NEXT_STEP_LABEL <= marked {
        LabelStopsAtMark(cut);
      }
      forall i | 0 <= i < |marked| && marked[i] == '\n' ensures !(NEXT_STEP_LABEL <= marked[i + 1..]) {
        assert marked[i + 1..] == cut[i + 1..] + TRUNCATION_MARK;
        if NEXT_STEP_LABEL <= marked[i + 1..] {
          LabelStopsAtMark(cut[i + 1..]);
        }
      }
    }
  }

  lemma LabelStopsAtMark(a: string)
    requires NEXT_STEP_LABEL <= a + TRUNCATION_MARK
    ensures NEXT_STEP_LABEL <= a
  {
    assert (a + TRUNCATION_MARK)[|a|] == '\U{2026}' && '\U{2026}' !in NEXT_STEP_LABEL;
  }

  lemma {:induction false} CleanTextHasNoLabel(t: string)
    requires Clean(t)
    ensures LastLabelled(Lines(t)) == None
    decreases |t|
  {
    if t != [] {
      SplitOnceFound(t, '\n');
      match SplitOnce(t, '\n') {
        case None =>
        case Some((line, rest)) =>
          assert t == line + "\n" + rest;
          CleanPrefix(t, line);
          CleanPrefix(t, StripCarriageReturn(line));
          assert t[|line|] == '\n' && t[|line| + 1..] == rest;
          assert Clean(rest) by {
            forall i | 0 <= i < |rest| && rest[i] == '\n' ensures !(NEXT_STEP_LABEL <= rest[i + 1..]) {
              assert t[|line| + 1 + i] == '\n' && t[|line| + 1 + i + 1..] == rest[i + 1..];
            }
          }
          CleanTextHasNoLabel(rest);
          LastLabelledInParts([StripCarriageReturn(line)], Lines(rest));
      }
    }
  }

  lemma {:induction false} LastLabelledInParts(a: seq<string>, b: seq<string>)
    ensures LastLabelled(a + b) == if LastLabelled(b).Some? then LastLabelled(b) else LastLabelled(a)
  {
    if b == [] {
      assert a + b == a;
    } else {
      LastLabelledInParts(a, b[..|b| - 1]);
      assert (a + b)[..|a + b| - 1] == a + b[..|b| - 1];
    }
  }

  // ----- Reading what was written

  /** A step line counts unless a labelled line comes after it. */
  lemma StepLineIsRead(front: string, step: string, tail: string)
    requires front == [] || front[|front| - 1] == '\n'
    requires OneLine(step) && IsTrimmed(step) && step != []
    ensures LastLabelled(Lines(front + StepLine(step) + "\n" + tail))
      == if LastLabelled(Lines(tail)).Some? then LastLabelled(Lines(tail)) else Some(step)
  {
    var line := StepLine(step);
    assert line[|NEXT_STEP_LABEL|..] == " " + step;
    assert Trim(" " + step) == step by {
      assert (" " + step)[1..] == step;
      assert TrimStart(" " + step) == TrimStart(step);
      TrimTrimmed(step);
    }
    assert line[|line| - 1] == step[|step| - 1] && StripCarriageReturn(line) == line;
    assert OneLine(line) by {
      assert '\n' !in NEXT_STEP_LABEL;
    }
    assert LastLabelled([line]) == Some(step);
    hide StepLine, Lines, LastLabelled, Trim, StripCarriageReturn;
    LinesOfLine(line, tail);
    LinesInParts(front, line + "\n" + tail);
    assert front + line + "\n" + tail == front + (line + "\n" + tail);
    LastLabelledInParts([line], Lines(tail));
    LastLabelledInParts(Lines(front), [line] + Lines(tail));
  }

  lemma TrimStartKeepsBreak(a: string)
    requires a != [] && a[|a| - 1] == '\n'
    ensures |TrimStart(a)| <= |a| && (TrimStart(a) == [] || TrimStart(a)[|TrimStart(a)| - 1] == '\n')
  {
    TrimStartIsSuffix(a);
  }

  /** The text after the line that is left when the whole is clipped. */
  function KeptTail(a: string, line: string, tail: string, max: nat): string
    requires |TrimStart(a)| + |line| + 1 <= max
  {
    TruncateChars(TrimEnd(tail), max - |TrimStart(a)| - |line| - 1)
  }

  lemma TrimAround(a: string, line: string, tail: string)
    requires line != [] && !IsWhitespace(line[0]) && TrimEnd(tail) != []
    ensures Trim(a + line + "\n" + tail) == TrimStart(a) + line + "\n" + TrimEnd(tail)
  {
    var rest := line + "\n" + tail;
    assert rest[0] == line[0];
    hide IsWhitespace, TrimStart, TrimEnd;
    TrimStartInParts(a, rest);
    Regroup(a, line, "\n", tail);
    Regroup(TrimStart(a), line, "\n", tail);
    TrimEndInParts(TrimStart(a) + line + "\n", tail);
  }

  lemma Regroup(a: string, b: string, c: string, d: string)
    ensures a + (b + c + d) == a + b + c + d
  {
  }

  lemma TruncateAfter(mid: string, rest: string, max: nat)
    requires |mid| <= max
    ensures TruncateChars(mid + rest, max) == mid + TruncateChars(rest, max - |mid|)
  {
    if |mid + rest| > max {
      assert (mid + rest)[..max] == mid + rest[..max - |mid|];
    }
  }

  /** Trimming and cutting leave a line in the middle alone, if it ends before the cut. */
  lemma ClipAround(a: string, line: string, tail: string, max: nat)
    requires line != [] && !IsWhitespace(line[0]) && TrimEnd(tail) != []
    requires |TrimStart(a)| + |line| + 1 <= max
    ensures Clip(a + line + "\n" + tail, max) == TrimStart(a) + line + "\n" + KeptTail(a, line, tail, max)
  {
    hide IsWhitespace, Trim, TrimStart, TrimEnd, TruncateChars;
    TrimAround(a, line, tail);
    TruncateAfter(TrimStart(a) + line + "\n", TrimEnd(tail), max);
  }

  lemma KeptTailIsClean(a: string, line: string, tail: string, max: nat)
    requires |TrimStart(a)| + |line| + 1 <= max && Clean(tail)
    ensures Clean(KeptTail(a, line, tail, max))
  {
    hide Clean, TrimStart, TrimEnd, TruncateChars;
    TrimEndIsPrefix(tail);
    CleanPrefix(tail, TrimEnd(tail));
    CleanCut(TrimEnd(tail), max - |TrimStart(a)| - |line| - 1);
  }

  /** What the reader finds in a clipped body: the step, unless the text kept after it has a label. */
  lemma ClippedStepIsRead(a: string, step: string, tail: string, max: nat)
    requires a != [] && a[|a| - 1] == '\n' && TrimEnd(tail) != []
    requires OneLine(step) && IsTrimmed(step) && step != []
    requires |TrimStart(a)| + |StepLine(step)| + 1 <= max
    ensures var kept := LastLabelled(Lines(KeptTail(a, StepLine(step), tail, max)));
      LastLabelled(Lines(Clip(a + StepLine(step) + "\n" + tail, max))) == if kept.Some? then kept else Some(step)
  {
    hide TrimStart, TrimEnd, Lines, LastLabelled, Clip, StepLine, IsTrimmed, OneLine, KeptTail, IsWhitespace;
    StepLineStarts(step);
    TrimStartKeepsBreak(a);
    ClipAround(a, StepLine(step), tail, max);
    StepLineIsRead(TrimStart(a), step, KeptTail(a, StepLine(step), tail, max));
  }

  lemma StepLineStarts(step: string)
    ensures StepLine(step) != [] && !IsWhitespace(StepLine(step)[0])
  {
    assert StepLine(step)[0] == '*';
  }

  /** With no label in the text after it, the step is read back. */
  lemma CleanTailKeepsTheStep(a: string, step: string, tail: string, max: nat)
    requires a != [] && a[|a| - 1] == '\n' && TrimEnd(tail) != [] && Clean(tail)
    requires OneLine(step) && IsTrimmed(step) && step != []
    requires |TrimStart(a)| + |StepLine(step)| + 1 <= max
    ensures RecordedNextStep(Clip(a + StepLine(step) + "\n" + tail, max)) == Some(step)
  {
    hide TrimStart, TrimEnd, Lines, LastLabelled, Clip, StepLine, KeptTail, Clean;
    ClippedStepIsRead(a, step, tail, max);
    KeptTailIsClean(a, StepLine(step), tail, max);
    CleanTextHasNoLabel(KeptTail(a, StepLine(step), tail, max));
  }

  // ----- What comes after the step line

  predicate OneLineEvidence(e: EvidenceRef) {
    OneLine(e.id) && OneLine(e.description) && (e.url.Some? ==> OneLine(e.url.value))
    && (e.query.Some? ==> OneLine(e.query.value))
  }

  /** Evidence without line breaks is the common case of evidence whose lines do not have the label. */
  lemma EvidenceLineIsClean(e: EvidenceRef)
    requires OneLineEvidence(e)
    ensures Clean(EvidenceLine(e))
  {
    ClipIsOneLine(e.description, MAX_LINE_CHARS);
    if e.url.Some? {
      ClipIsOneLine(e.url.value, MAX_LINE_CHARS);
    }
    if e.query.Some? {
      ClipIsOneLine(e.query.value, MAX_LINE_CHARS);
    }
    hide Clip;
    assert EvidenceLine(e)[0] == '-';
    CleanLine(EvidenceLine(e));
  }

  /** A block of whole lines, none with the label. */
  ghost predicate CleanLines(t: string) {
    Clean(t) && (t == [] || t[|t| - 1] == '\n')
  }

  lemma CleanLinesConcat(a: string, b: string)
    requires CleanLines(a) && CleanLines(b)
    ensures CleanLines(a + b)
  {
    CleanConcat(a, b);
    hide Clean;
  }

  lemma OneCleanLine(line: string)
    requires OneLine(line) && (line != [] ==> line[0] != '*')
    ensures CleanLines(line + "\n")
  {
    CleanLine(line);
    CleanLine("");
    hide Clean;
    CleanAround(line, "");
    assert line + "\n" + "" == line + "\n";
  }

  lemma {:induction false} EvidenceLinesAreClean(cited: seq<EvidenceRef>)
    requires forall e :: e in cited ==> Clean(EvidenceLine(e))
    ensures CleanLines(EvidenceLines(cited))
  {
    if cited == [] {
      CleanLine("");
    } else {
      var front, last := cited[..|cited| - 1], cited[|cited| - 1];
      hide EvidenceLine, Clean;
      EvidenceLinesAreClean(front);
      CleanConcat(EvidenceLines(front), EvidenceLine(last));
      CleanLine("");
      CleanAround(EvidenceLines(front) + EvidenceLine(last), "");
      var t := EvidenceLines(front) + EvidenceLine(last) + "\n";
      assert t + "" == t;
    }
  }

  lemma HeadingIsClean()
    ensures Clean("**Evidence**")
  {
    assert '\n' !in "**Evidence**" && "**Evidence**"[2] == 'E' && NEXT_STEP_LABEL[2] == 'N';
  }

  lemma EvidenceBlockIsClean(cited: seq<EvidenceRef>)
    requires forall e :: e in cited ==> Clean(EvidenceLine(e))
    ensures CleanLines(EvidenceBlock(cited))
  {
    hide EvidenceLine, EvidenceLines, Clean, CleanLines;
    EmptyIsClean();
    if cited != [] {
      EvidenceLinesAreClean(cited);
      HeadingIsClean();
      BlankAndClean("**Evidence**");
      CleanLinesConcat("\n" + "**Evidence**" + "\n", EvidenceLines(cited));
      assert "\n" + "**Evidence**" + "\n" == "\n**Evidence**\n";
    }
  }

  /** A blank line and a line of text. */
  lemma BlankAndLine(line: string)
    requires OneLine(line) && line != [] && line[0] != '*'
    ensures CleanLines("\n" + line + "\n")
  {
    CleanLine(line);
    BlankAndClean(line);
  }

  lemma BlankAndClean(line: string)
    requires Clean(line)
    ensures CleanLines("\n" + line + "\n")
  {
    EmptyIsClean();
    var t := "\n" + line;
    assert [] + "\n" + line == t;
    assert t + "\n" + [] == t + "\n";
    hide Clean;
    CleanAround([], line);
    CleanAround(t, []);
  }

  lemma ClosingIsClean(closing: Closing)
    ensures CleanLines(ClosingText(closing))
  {
    match closing
    case Continue =>
      EmptyIsClean();
    case ClosingAsDone =>
      BlankAndLine(CLOSING_AS_DONE);
    case SuggestClosing =>
      BlankAndLine(SUGGEST_CLOSING);
  }

  lemma EmptyIsClean()
    ensures CleanLines("") && Clean("")
  {
  }

  /** A rule and one line in italics. */
  function Footer(line: string): string {
    "\n---\n" + line + "_\n"
  }

  lemma FooterIsClean(line: string)
    requires OneLine(line) && line != [] && line[0] == '_'
    ensures CleanLines(Footer(line)) && TrimEnd(Footer(line)) == "\n---\n" + line + "_"
  {
    BlankAndLine("---");
    OneCleanLine(line + "_");
    assert TrimEnd("_\n") == "_" by {
      assert "_\n"[..1] == "_";
    }
    hide CleanLines;
    CleanLinesConcat("\n" + "---" + "\n", line + "_" + "\n");
    assert ("\n" + "---" + "\n") + (line + "_" + "\n") == Footer(line);
    TrimEndInParts("\n---\n" + line, "_\n");
    assert "\n---\n" + line + "_\n" == ("\n---\n" + line) + "_\n";
  }
}
