/** The round trip of the recorded next step, through progress comments and the bodies of new items. */
module RoundTrip {
  import opened Wrappers
  import opened Text
  import opened Render
  import opened NextStep

  lemma ClipIsTrimmedAndShort(s: string, max: nat)
    requires max > 0
    ensures IsTrimmed(Clip(s, max)) && |Clip(s, max)| <= max + |TRUNCATION_MARK|
  {
    TrimIsTrimmed(s);
    hide Trim;
  }

  // ----- Which steps are written

  lemma {:induction false} BlankHasNoWords(s: string)
    ensures SplitWhitespace(s) == [] <==> AllWhitespace(s)
  {
    if s != [] {
      BlankHasNoWords(s[1..]);
      assert forall i :: 0 <= i < |s[1..]| ==> s[1..][i] == s[i + 1];
      assert forall i :: 1 <= i < |s| ==> s[i] == s[1..][i - 1];
    }
  }

  /** Every step that is not blank is written for an item that is not resolved, and no other. */
  lemma NonBlankStepIsWritten(p: Proposal)
    ensures WrittenStep(p).Some? <==> p.status != Resolved && p.nextStep.Some? && !AllWhitespace(p.nextStep.value)
    ensures WrittenStep(p).Some? ==> WrittenStep(p).value == SingleLine(p.nextStep.value)
  {
    if p.nextStep.Some? {
      var words := SplitWhitespace(p.nextStep.value);
      BlankHasNoWords(p.nextStep.value);
      WordsAreWords(p.nextStep.value);
      JoinedWordsStartVisibly(words);
      var joined := Join(words, " ");
      hide SplitWhitespace, Join, AllWhitespace;
      if joined != [] {
        TrimIsNotEmpty(joined);
      }
    }
  }

  /** The recorded step is the words of the step on one line, cut after 500 characters. */
  lemma SingleLineIs(value: string)
    ensures var line := Join(SplitWhitespace(value), " ");
      SingleLine(value) == if |line| <= 500 then line else line[..500] + "\U{2026} [truncated]"
  {
    var words := SplitWhitespace(value);
    WordsAreWords(value);
    if words != [] {
      JoinEndsVisibly(words);
      JoinedWordsStartVisibly(words);
    }
    TrimTrimmed(Join(words, " "));
    hide SplitWhitespace, Join, Trim;
  }

  lemma {:induction false} JoinEndsVisibly(words: seq<string>)
    requires words != [] && forall w :: w in words ==> IsWord(w)
    ensures Join(words, " ") != [] && !IsWhitespace(Join(words, " ")[|Join(words, " ")| - 1])
  {
    assert IsWord(words[0]);
    if |words| > 1 {
      JoinEndsVisibly(words[1..]);
      var joined, rest := Join(words, " "), Join(words[1..], " ");
      assert joined[|joined| - 1] == rest[|rest| - 1];
    }
  }

  lemma JoinedWordsStartVisibly(words: seq<string>)
    requires forall w :: w in words ==> IsWord(w)
    ensures words == [] <==> Join(words, " ") == []
    ensures words != [] ==> !IsWhitespace(Join(words, " ")[0])
  {
    if words != [] {
      assert IsWord(words[0]);
    }
  }

  lemma TrimIsNotEmpty(s: string)
    requires s != [] && !IsWhitespace(s[0])
    ensures Trim(s) != []
  {
    assert TrimStart(s) == s;
    FirstStays(s);
  }

  lemma {:induction false} FirstStays(s: string)
    requires s != [] && !IsWhitespace(s[0])
    ensures TrimEnd(s) != []
  {
    if IsWhitespace(s[|s| - 1]) {
      FirstStays(s[..|s| - 1]);
    }
  }

  // ----- The text after the step line

  function CommentTail(p: Proposal, evidence: seq<EvidenceRef>, runId: string, closing: Closing): string {
    EvidenceBlock(CitedEvidence(p, evidence)) + (ClosingText(closing) + CommentFooter(p, runId))
  }

  function ItemTail(p: Proposal, evidence: seq<EvidenceRef>, objectiveId: string, runId: string): string {
    EvidenceBlock(CitedEvidence(p, evidence)) + ItemFooter(objectiveId, runId)
  }

  /** No line of the cited evidence starts with the label. */
  ghost predicate CitesCleanly(p: Proposal, evidence: seq<EvidenceRef>) {
    forall e :: e in CitedEvidence(p, evidence) ==> Clean(EvidenceLine(e))
  }

  /** Evidence without line breaks is cited cleanly. */
  lemma OneLinersAreClean(p: Proposal, evidence: seq<EvidenceRef>)
    requires forall e :: e in CitedEvidence(p, evidence) ==> OneLineEvidence(e)
    ensures CitesCleanly(p, evidence)
  {
    hide OneLineEvidence, Clean, EvidenceLine, CitedEvidence;
    forall e | e in CitedEvidence(p, evidence) ensures Clean(EvidenceLine(e)) {
      EvidenceLineIsClean(e);
    }
  }

  lemma CommentFooterIsClean(p: Proposal, runId: string)
    requires OneLine(runId)
    ensures CleanLines(CommentFooter(p, runId)) && TrimEnd(CommentFooter(p, runId)) != []
  {
    var line := "_Status `" + StatusName(p.status) + "` \U{B7} run `" + runId + "`";
    assert CommentFooter(p, runId) == Footer(line);
    assert line[0] == '_' && OneLine(line);
    FooterIsClean(line);
  }

  lemma WorkNoteIsOneLine()
    ensures OneLine(WORK_NOTE)
  {
  }

  lemma OpeningIsOneLine()
    ensures OneLine("_Opened by Reili for objective `") && "_Opened by Reili for objective `"[0] == '_'
    ensures OneLine("` (run `") && OneLine("`). ")
  {
    assert "_Opened by Reili for objective `" == "_Opened by" + " Reili for" + " objective `";
  }

  lemma FiveStretches(a: string, b: string, c: string, d: string, e: string)
    requires OneLine(a) && OneLine(b) && OneLine(c) && OneLine(d) && OneLine(e) && a != []
    ensures OneLine(a + b + c + d + e) && (a + b + c + d + e)[0] == a[0]
  {
  }

  lemma ItemFooterIsClean(objectiveId: string, runId: string)
    requires OneLine(objectiveId) && OneLine(runId)
    ensures CleanLines(ItemFooter(objectiveId, runId)) && TrimEnd(ItemFooter(objectiveId, runId)) != []
  {
    WorkNoteIsOneLine();
    OpeningIsOneLine();
    hide OneLine, CleanLines;
    FiveStretches("_Opened by Reili for objective `", objectiveId, "` (run `", runId, "`). ");
    var front := "_Opened by Reili for objective `" + objectiveId + "` (run `" + runId + "`). ";
    OneLinesJoin(front, WORK_NOTE);
    FooterIsClean(front + WORK_NOTE);
  }

  lemma OneLinesJoin(a: string, b: string)
    requires OneLine(a) && OneLine(b) && a != []
    ensures OneLine(a + b) && (a + b)[0] == a[0]
  {
  }

  lemma CommentTailIsClean(p: Proposal, evidence: seq<EvidenceRef>, runId: string, closing: Closing)
    requires OneLine(runId) && CitesCleanly(p, evidence)
    ensures CleanLines(CommentTail(p, evidence, runId, closing)) && TrimEnd(CommentTail(p, evidence, runId, closing)) != []
  {
    hide CleanLines, EvidenceBlock, ClosingText, CommentFooter, CitedEvidence, EvidenceLine;
    var cited := CitedEvidence(p, evidence);
    EvidenceBlockIsClean(cited);
    ClosingIsClean(closing);
    CommentFooterIsClean(p, runId);
    CleanLinesConcat(ClosingText(closing), CommentFooter(p, runId));
    CleanLinesConcat(EvidenceBlock(cited), ClosingText(closing) + CommentFooter(p, runId));
    TrimEndInParts(ClosingText(closing), CommentFooter(p, runId));
    TrimEndInParts(EvidenceBlock(cited), ClosingText(closing) + CommentFooter(p, runId));
  }

  lemma ItemTailIsClean(p: Proposal, evidence: seq<EvidenceRef>, objectiveId: string, runId: string)
    requires OneLine(objectiveId) && OneLine(runId) && CitesCleanly(p, evidence)
    ensures CleanLines(ItemTail(p, evidence, objectiveId, runId)) && TrimEnd(ItemTail(p, evidence, objectiveId, runId)) != []
  {
    hide CleanLines, EvidenceBlock, ItemFooter, CitedEvidence, EvidenceLine;
    var cited := CitedEvidence(p, evidence);
    EvidenceBlockIsClean(cited);
    ItemFooterIsClean(objectiveId, runId);
    CleanLinesConcat(EvidenceBlock(cited), ItemFooter(objectiveId, runId));
    TrimEndInParts(EvidenceBlock(cited), ItemFooter(objectiveId, runId));
  }

  // ----- The round trips

  lemma DecisionLineIsShort(p: Proposal)
    ensures |DecisionLine(p)| <= MAX_LINE_CHARS + |TRUNCATION_MARK| + 23
  {
    if p.decisionNeeded.Some? {
      ClipIsTrimmedAndShort(p.decisionNeeded.value, MAX_LINE_CHARS);
      hide Clip;
    }
  }

  lemma BodyAroundStep(c: string, d: string, line: string, e: string, back: string)
    ensures c + "\n" + (d + ("\n" + line + "\n") + e) + back == (c + "\n" + d + "\n") + line + "\n" + (e + back)
  {
  }

  /**
   Reading back a rendered progress comment gives the step on one line, for every item that is not resolved and every
   step that is not blank: whatever the comment and the question say, and however long they are.
   */
  lemma ProgressCommentKeepsTheStep(p: Proposal, evidence: seq<EvidenceRef>, runId: string, closing: Closing)
    requires p.status != Resolved && p.nextStep.Some? && !AllWhitespace(p.nextStep.value)
    requires OneLine(runId) && CitesCleanly(p, evidence)
    ensures RecordedNextStep(ProgressComment(p, evidence, runId, closing)) == Some(SingleLine(p.nextStep.value))
  {
    NonBlankStepIsWritten(p);
    var step := SingleLine(p.nextStep.value);
    SingleLineIsOneLine(p.nextStep.value);
    CommentTailIsClean(p, evidence, runId, closing);
    ClipIsTrimmedAndShort(p.comment, MAX_MARKDOWN_CHARS);
    DecisionLineIsShort(p);
    hide Clip, DecisionLine, EvidenceBlock, CitedEvidence, ClosingText, CommentFooter, RecordedNextStep, SingleLine, Clean,
      IsTrimmed, OneLine, CitesCleanly, AllWhitespace, TrimEnd, WrittenStep;
    var c := Clip(p.comment, MAX_MARKDOWN_CHARS);
    BodyAroundStep(c, DecisionLine(p), StepLine(step), EvidenceBlock(CitedEvidence(p, evidence)),
                   ClosingText(closing) + CommentFooter(p, runId));
    CleanTailKeepsTheStep(c + "\n" + DecisionLine(p) + "\n", step, CommentTail(p, evidence, runId, closing),
                          MAX_BODY_CHARS);
  }

  /** The text before the step line of a new item. */
  function ItemFront(p: Proposal, previousKey: Option<string>): string {
    Clip(p.description, MAX_MARKDOWN_CHARS) + "\n" + FollowsUp(previousKey) + DecisionLine(p) + "\n"
  }

  /** The step line of a new item ends before the body is cut. */
  predicate StepLineFits(p: Proposal, previousKey: Option<string>)
    requires p.nextStep.Some?
  {
    |TrimStart(ItemFront(p, previousKey))| + |StepLine(SingleLine(p.nextStep.value))| + 1 <= MAX_BODY_CHARS
  }

  /** That can fail only for the key of the item it follows up on, and only if that is long. */
  lemma ShortKeysFit(p: Proposal, previousKey: Option<string>)
    requires p.nextStep.Some? && (previousKey.Some? ==> |previousKey.value| <= 8_000)
    ensures StepLineFits(p, previousKey)
  {
    SingleLineIsOneLine(p.nextStep.value);
    ClipIsTrimmedAndShort(p.description, MAX_MARKDOWN_CHARS);
    DecisionLineIsShort(p);
    hide Clip, DecisionLine, SingleLine, TrimStart;
  }

  /** The same for the body of a new item, if the step line is not cut off. */
  lemma NewItemKeepsTheStep(p: Proposal, evidence: seq<EvidenceRef>, objectiveId: string, previousKey: Option<string>,
                            runId: string)
    requires p.status != Resolved && p.nextStep.Some? && !AllWhitespace(p.nextStep.value)
    requires OneLine(objectiveId) && OneLine(runId) && CitesCleanly(p, evidence)
    requires StepLineFits(p, previousKey)
    ensures RecordedNextStep(NewItemBody(p, evidence, objectiveId, previousKey, runId))
      == Some(SingleLine(p.nextStep.value))
  {
    NonBlankStepIsWritten(p);
    var step := SingleLine(p.nextStep.value);
    SingleLineIsOneLine(p.nextStep.value);
    ItemTailIsClean(p, evidence, objectiveId, runId);
    hide Clip, DecisionLine, EvidenceBlock, CitedEvidence, ItemFooter, RecordedNextStep, SingleLine, Clean, TrimStart,
      IsTrimmed, OneLine, CitesCleanly, AllWhitespace, TrimEnd, WrittenStep, FollowsUp;
    var c, f := Clip(p.description, MAX_MARKDOWN_CHARS), FollowsUp(previousKey);
    var e := EvidenceBlock(CitedEvidence(p, evidence));
    ItemAroundStep(c, f, DecisionLine(p), StepLine(step), e, ItemFooter(objectiveId, runId));
    CleanTailKeepsTheStep(ItemFront(p, previousKey), step, ItemTail(p, evidence, objectiveId, runId), MAX_BODY_CHARS);
  }

  lemma ItemAroundStep(c: string, f: string, d: string, line: string, e: string, back: string)
    ensures c + "\n" + f + (d + ("\n" + line + "\n") + e) + back == (c + "\n" + f + d + "\n") + line + "\n" + (e + back)
  {
  }

  // ----- When evidence has line breaks

  lemma CommentFooterIsVisible(p: Proposal, runId: string)
    ensures TrimEnd(CommentFooter(p, runId)) == CommentFooter(p, runId)[..|CommentFooter(p, runId)| - 1]
    ensures TrimEnd(CommentFooter(p, runId)) != []
  {
    assert TrimEnd("_\n") == "_" by {
      assert "_\n"[..1] == "_";
    }
    var front := "\n---\n" + ("_Status `" + StatusName(p.status) + "` \U{B7} run `" + runId + "`");
    TrimEndInParts(front, "_\n");
    assert CommentFooter(p, runId) == front + "_\n";
  }

  /** The text before the step line of a comment. */
  function CommentFront(p: Proposal): string {
    Clip(p.comment, MAX_MARKDOWN_CHARS) + "\n" + DecisionLine(p) + "\n"
  }

  lemma CommentFrontIsShort(p: Proposal)
    requires WrittenStep(p).Some?
    ensures |TrimStart(CommentFront(p))| <= |CommentFront(p)| <= 20_552
    ensures CommentFront(p)[|CommentFront(p)| - 1] == '\n'
    ensures |StepLine(WrittenStep(p).value)| <= 528
  {
    ClipIsTrimmedAndShort(p.comment, MAX_MARKDOWN_CHARS);
    DecisionLineIsShort(p);
    SingleLineIsOneLine(p.nextStep.value);
    hide Clip, DecisionLine, SingleLine, TrimStart;
  }

  /** What the comment keeps after its step line. */
  function CommentKept(p: Proposal, evidence: seq<EvidenceRef>, runId: string, closing: Closing): string
    requires WrittenStep(p).Some?
  {
    CommentFrontIsShort(p);
    KeptTail(CommentFront(p), StepLine(WrittenStep(p).value), CommentTail(p, evidence, runId, closing), MAX_BODY_CHARS)
  }

  /** With any evidence at all: the step is lost exactly when what follows it has a labelled line that says otherwise. */
  lemma StepIsKeptExactlyWhen(p: Proposal, evidence: seq<EvidenceRef>, runId: string, closing: Closing)
    requires WrittenStep(p).Some?
    ensures var later := LastLabelled(Lines(CommentKept(p, evidence, runId, closing)));
      (RecordedNextStep(ProgressComment(p, evidence, runId, closing)) == Some(WrittenStep(p).value))
      == (later.None? || later.value == WrittenStep(p).value)
  {
    var step := WrittenStep(p).value;
    CommentFrontIsShort(p);
    SingleLineIsOneLine(p.nextStep.value);
    CommentFooterIsVisible(p, runId);
    hide Clip, DecisionLine, EvidenceBlock, CitedEvidence, ClosingText, CommentFooter, SingleLine, StepLine,
      IsTrimmed, OneLine, TrimEnd, TrimStart, Lines, LastLabelled, KeptTail;
    var back := ClosingText(closing) + CommentFooter(p, runId);
    var e := EvidenceBlock(CitedEvidence(p, evidence));
    TrimEndInParts(ClosingText(closing), CommentFooter(p, runId));
    TrimEndInParts(e, back);
    BodyAroundStep(Clip(p.comment, MAX_MARKDOWN_CHARS), DecisionLine(p), StepLine(step), e, back);
    ClippedStepIsRead(CommentFront(p), step, CommentTail(p, evidence, runId, closing), MAX_BODY_CHARS);
  }

  const BROKEN_EVIDENCE: EvidenceRef := EvidenceRef("E", None, "a\n" + StepLine("b"), None)

  lemma BrokenEvidenceLine()
    ensures EvidenceLine(BROKEN_EVIDENCE) == "- E: a\n" + StepLine("b")
  {
    var d := "a\n" + StepLine("b");
    assert d[0] == 'a' && d[|d| - 1] == 'b';
    TrimTrimmed(d);
    hide Trim, StepLine;
  }

  /** A line break in cited evidence can hide the step: here the evidence is read instead. */
  lemma EvidenceCanHideTheStep(p: Proposal)
    requires WrittenStep(p).Some? && p.evidenceIds == ["E"]
    ensures (RecordedNextStep(ProgressComment(p, [BROKEN_EVIDENCE], "run-1", Continue)) == Some(WrittenStep(p).value))
      == (WrittenStep(p).value == "b")
  {
    StepIsKeptExactlyWhen(p, [BROKEN_EVIDENCE], "run-1", Continue);
    BrokenTail(p);
  }

  lemma BrokenTail(p: Proposal)
    requires WrittenStep(p).Some? && p.evidenceIds == ["E"]
    ensures LastLabelled(Lines(CommentKept(p, [BROKEN_EVIDENCE], "run-1", Continue))) == Some("b")
  {
    hide CommentFooter, WrittenStep, CommentFront, TrimStart, CitedEvidence, Lines, LastLabelled, EvidenceBlock, StepLine;
    var tail := CommentTail(p, [BROKEN_EVIDENCE], "run-1", Continue);
    var front, footer := "\n**Evidence**\n" + "- E: a\n", CommentFooter(p, "run-1");
    OnlyBrokenIsCited(p);
    BrokenBlock();
    CommentFrontIsShort(p);
    CommentFooterIsVisible(p, "run-1");
    assert ClosingText(Continue) + footer == footer;
    FooterIsShort(p);
    TrimEndInParts(front + StepLine("b") + "\n", footer);
    CommentFooterHasNoLabel(p);
    hide TrimEnd;
    StepLineIsRead(front, "b", TrimEnd(footer));
  }

  lemma FooterIsShort(p: Proposal)
    ensures |CommentFooter(p, "run-1")| <= 60
  {
  }

  lemma OnlyBrokenIsCited(p: Proposal)
    requires p.evidenceIds == ["E"]
    ensures CitedEvidence(p, [BROKEN_EVIDENCE]) == [BROKEN_EVIDENCE]
  {
    var ids := ["E"];
    assert ids[1..] == [];
    assert SortedIds(ids) == ["E"];
    assert EvidenceById([BROKEN_EVIDENCE], "E") == Some(BROKEN_EVIDENCE);
    assert CitedBy([], [BROKEN_EVIDENCE]) == [];
    assert CitedBy(ids, [BROKEN_EVIDENCE]) == [BROKEN_EVIDENCE];
  }

  lemma BrokenBlock()
    ensures EvidenceBlock([BROKEN_EVIDENCE]) == ("\n**Evidence**\n" + "- E: a\n") + StepLine("b") + "\n"
    ensures |StepLine("b")| == 16
  {
    BrokenEvidenceLine();
    hide EvidenceLine;
    var evidence := [BROKEN_EVIDENCE];
    assert evidence[..0] == [];
    assert EvidenceLines(evidence) == EvidenceLine(BROKEN_EVIDENCE) + "\n";
  }

  lemma CommentFooterHasNoLabel(p: Proposal)
    ensures LastLabelled(Lines(TrimEnd(CommentFooter(p, "run-1")))) == None
  {
    CommentFooterIsClean(p, "run-1");
    TrimEndIsPrefix(CommentFooter(p, "run-1"));
    hide Clean, CommentFooter;
    CleanPrefix(CommentFooter(p, "run-1"), TrimEnd(CommentFooter(p, "run-1")));
    CleanTextHasNoLabel(TrimEnd(CommentFooter(p, "run-1")));
  }

  // ----- Items without a recorded step

  lemma {:induction false} LinesWithBreak(c: string)
    requires c != [] && !IsWhitespace(c[|c| - 1])
    ensures Lines(c + "\n") == Lines(c)
    decreases |c|
  {
    SplitOnceFound(c, '\n');
    match SplitOnce(c, '\n') {
      case None =>
        LinesOfLine(c, []);
        assert c + "\n" + [] == c + "\n";
      case Some((line, rest)) =>
        assert c == line + "\n" + rest && rest != [];
        LinesWithBreak(rest);
        LinesOfLine(line, rest);
        LinesOfLine(line, rest + "\n");
        assert c + "\n" == line + "\n" + (rest + "\n");
    }
  }

  /** What is kept of the text after `front` when the whole is clipped. */
  function KeptAfter(front: string, tail: string): string
    requires |front| <= MAX_BODY_CHARS
  {
    TruncateChars(TrimEnd(tail), MAX_BODY_CHARS - |front|)
  }

  lemma KeptAfterNothing(a: string, text: string, tail: string)
    requires TrimStart(a) == [] && |text| + 1 <= MAX_BODY_CHARS
    ensures KeptTail(a, text, tail, MAX_BODY_CHARS) == KeptAfter(text + "\n", tail)
  {
    hide TrimStart, TrimEnd, TruncateChars;
  }

  lemma NothingInFront(text: string, kept: string)
    ensures [] + text + "\n" + kept == text + "\n" + kept
  {
  }

  /** After visible text the reader looks at what is kept of the tail first. */
  lemma TailAfterText(a: string, text: string, tail: string)
    requires TrimStart(a) == [] && text != [] && !IsWhitespace(text[0]) && |text| + 1 <= MAX_BODY_CHARS
    requires TrimEnd(tail) != []
    ensures var later := LastLabelled(Lines(KeptAfter(text + "\n", tail)));
      LastLabelled(Lines(Clip(a + text + "\n" + tail, MAX_BODY_CHARS)))
      == if later.Some? then later else LastLabelled(Lines(text + "\n"))
  {
    hide Clip, Lines, LastLabelled, TrimStart, TrimEnd, IsWhitespace, TruncateChars, KeptTail, KeptAfter;
    var kept := KeptAfter(text + "\n", tail);
    KeptAfterNothing(a, text, tail);
    ClipAround(a, text, tail, MAX_BODY_CHARS);
    NothingInFront(text, kept);
    LinesInParts(text + "\n", kept);
    LastLabelledInParts(Lines(text + "\n"), Lines(kept));
  }

  lemma KeptIsClean(front: string, tail: string)
    requires |front| <= MAX_BODY_CHARS && Clean(tail)
    ensures LastLabelled(Lines(KeptAfter(front, tail))) == None
  {
    hide Clean, TrimEnd, TruncateChars, Lines, LastLabelled;
    TrimEndIsPrefix(tail);
    CleanPrefix(tail, TrimEnd(tail));
    CleanCut(TrimEnd(tail), MAX_BODY_CHARS - |front|);
    CleanTextHasNoLabel(KeptAfter(front, tail));
  }

  /** A block that begins with one empty line and goes on visibly. */
  predicate StartsBlank(t: string) {
    |t| >= 2 && t[0] == '\n' && !IsWhitespace(t[1])
  }

  lemma FooterStartsBlank(p: Proposal, runId: string)
    ensures StartsBlank(CommentFooter(p, runId))
  {
    var f := CommentFooter(p, runId);
    assert f[0] == '\n' && f[1] == '-';
  }

  lemma ClosingStartsBlank(closing: Closing)
    ensures ClosingText(closing) == [] || StartsBlank(ClosingText(closing))
  {
    var c := ClosingText(closing);
    assert closing == ClosingAsDone ==> c[0] == '\n' && c[1] == 'C';
    assert closing == SuggestClosing ==> c[0] == '\n' && c[1] == 'R';
  }

  lemma EvidenceStartsBlank(cited: seq<EvidenceRef>)
    ensures EvidenceBlock(cited) == [] || StartsBlank(EvidenceBlock(cited))
  {
    hide EvidenceLines;
    var e := EvidenceBlock(cited);
    assert e != [] ==> e[0] == '\n' && e[1] == '*';
  }

  lemma CommentTailStartsBlank(p: Proposal, evidence: seq<EvidenceRef>, runId: string, closing: Closing)
    ensures StartsBlank(CommentTail(p, evidence, runId, closing))
  {
    FooterStartsBlank(p, runId);
    ClosingStartsBlank(closing);
    EvidenceStartsBlank(CitedEvidence(p, evidence));
    hide CommentFooter, ClosingText, EvidenceBlock, IsWhitespace;
  }

  lemma CleanTailAlone(tail: string, max: nat)
    requires StartsBlank(tail) && Clean(tail) && TrimEnd(tail) != []
    ensures LastLabelled(Lines(Clip("\n" + tail, max))) == None
  {
    var visible := tail[1..];
    var t := "\n" + tail;
    assert t[1..] == tail;
    assert TrimStart(t) == TrimStart(tail) && TrimStart(tail) == TrimStart(visible);
    assert Clean(visible) by {
      forall i | 0 <= i < |visible| && visible[i] == '\n' ensures !(NEXT_STEP_LABEL <= visible[i + 1..]) {
        assert tail[i + 1] == '\n' && tail[i + 2..] == visible[i + 1..];
      }
    }
    hide Clean, TrimStart, Lines;
    TrimEndIsPrefix(visible);
    CleanPrefix(visible, TrimEnd(visible));
    CleanCut(TrimEnd(visible), max);
    CleanTextHasNoLabel(TruncateChars(TrimEnd(visible), max));
  }

  /** The labelled line that counts where no step is written: the last one of the question, else of the comment. */
  function UnrecordedLabel(p: Proposal): Option<string> {
    var asked := LastLabelled(Lines(DecisionLine(p)));
    if asked.Some? then asked else LastLabelled(Lines(Clip(p.comment, MAX_MARKDOWN_CHARS)))
  }

  /**
   Where no step is written the reader finds the last labelled line of the question as it is asked in the comment, and if
   it has none that of the comment's own text; so it finds nothing exactly when that line is missing or blank.
   */
  lemma WithoutAStepTheCommentDecides(p: Proposal, evidence: seq<EvidenceRef>, runId: string, closing: Closing)
    requires WrittenStep(p).None? && OneLine(runId) && CitesCleanly(p, evidence)
    ensures var read := RecordedNextStep(ProgressComment(p, evidence, runId, closing));
      && (read.Some? ==> read == UnrecordedLabel(p))
      && (read.None? <==> UnrecordedLabel(p) == None || UnrecordedLabel(p) == Some([]))
  {
    LabelWithoutAStep(p, evidence, runId, closing);
    hide ProgressComment, UnrecordedLabel, Lines, LastLabelled;
  }

  lemma LabelWithoutAStep(p: Proposal, evidence: seq<EvidenceRef>, runId: string, closing: Closing)
    requires WrittenStep(p).None? && OneLine(runId) && CitesCleanly(p, evidence)
    ensures LastLabelled(Lines(ProgressComment(p, evidence, runId, closing))) == UnrecordedLabel(p)
  {
    var c, d, tail := Clip(p.comment, MAX_MARKDOWN_CHARS), DecisionLine(p), CommentTail(p, evidence, runId, closing);
    hide Clip, Clean, OneLine, CitesCleanly, TrimEnd, StartsBlank, DecisionLine, WrittenStep, ProgressComment, CommentTail,
      Lines, LastLabelled, IsTrimmed, KeptAfter;
    CommentWithoutStep(p, evidence, runId, closing);
    CommentTailIsClean(p, evidence, runId, closing);
    CommentTailStartsBlank(p, evidence, runId, closing);
    ClipIsTrimmedAndShort(p.comment, MAX_MARKDOWN_CHARS);
    DecisionLineIsShort(p);
    DecisionLineStarts(p);
    NothingHasNoLabel();
    if c != [] {
      TextThenQuestion(c, d, tail);
      KeptIsClean(c + "\n" + d, tail);
    } else if d != [] {
      WithoutText(d, tail);
      QuestionAlone(d, tail);
    } else {
      WithoutText(d, tail);
      CleanTailAlone(tail, MAX_BODY_CHARS);
    }
  }

  lemma CommentTailIsVisible(p: Proposal, evidence: seq<EvidenceRef>, runId: string, closing: Closing)
    ensures TrimEnd(CommentTail(p, evidence, runId, closing)) != []
  {
    CommentFooterIsVisible(p, runId);
    hide EvidenceBlock, CitedEvidence, ClosingText, CommentFooter, TrimEnd;
    TrimEndInParts(ClosingText(closing), CommentFooter(p, runId));
    TrimEndInParts(EvidenceBlock(CitedEvidence(p, evidence)), ClosingText(closing) + CommentFooter(p, runId));
  }

  lemma QuestionAndCommentFit(p: Proposal)
    ensures |Clip(p.comment, MAX_MARKDOWN_CHARS) + "\n" + DecisionLine(p)| <= MAX_BODY_CHARS
  {
    ClipIsTrimmedAndShort(p.comment, MAX_MARKDOWN_CHARS);
    DecisionLineIsShort(p);
    hide Clip, DecisionLine;
  }

  /** With any evidence and any run id, after a comment that is not blank, a labelled line kept at the end counts first. */
  lemma WithAnyEvidenceTheLaterLineCounts(p: Proposal, evidence: seq<EvidenceRef>, runId: string, closing: Closing)
    requires WrittenStep(p).None? && Trim(p.comment) != []
    ensures |Clip(p.comment, MAX_MARKDOWN_CHARS) + "\n" + DecisionLine(p)| <= MAX_BODY_CHARS
    ensures var front := Clip(p.comment, MAX_MARKDOWN_CHARS) + "\n" + DecisionLine(p);
      var later := LastLabelled(Lines(KeptAfter(front, CommentTail(p, evidence, runId, closing))));
      LastLabelled(Lines(ProgressComment(p, evidence, runId, closing)))
      == if later.Some? then later else UnrecordedLabel(p)
  {
    var c, d, tail := Clip(p.comment, MAX_MARKDOWN_CHARS), DecisionLine(p), CommentTail(p, evidence, runId, closing);
    assert c != [];
    QuestionAndCommentFit(p);
    hide Clip, Trim, TrimEnd, DecisionLine, WrittenStep, ProgressComment, CommentTail, Lines, LastLabelled, IsTrimmed,
      KeptAfter;
    CommentWithoutStep(p, evidence, runId, closing);
    CommentTailIsVisible(p, evidence, runId, closing);
    ClipIsTrimmedAndShort(p.comment, MAX_MARKDOWN_CHARS);
    DecisionLineStarts(p);
    TextThenQuestion(c, d, tail);
  }

  lemma WithoutText(d: string, tail: string)
    ensures [] + "\n" + d + tail == "\n" + d + tail
    ensures d == [] ==> "\n" + d + tail == "\n" + tail
  {
  }

  lemma NothingHasNoLabel()
    ensures LastLabelled(Lines([])) == None
  {
  }

  lemma DecisionLineStarts(p: Proposal)
    ensures var d := DecisionLine(p);
      d != [] ==> |d| >= 3 && d[0] == '\n' && d[1] == '*' && d[|d| - 1] == '\n'
  {
    hide Clip;
  }

  lemma LineBeforeBreak(c: string, d: string, tail: string)
    requires c != [] && (d == [] || d[|d| - 1] == '\n')
    ensures var text := (c + "\n" + d)[..|c| + |d|];
      text != [] && text[0] == c[0] && c + "\n" + d == text + "\n" && c + "\n" + d + tail == [] + text + "\n" + tail
  {
  }

  lemma NothingToTrim()
    ensures TrimStart([]) == [] && TrimStart("\n\n") == []
  {
    assert "\n\n"[1..] == "\n" && "\n"[1..] == [];
    assert TrimStart("\n") == [];
  }

  lemma TextThenQuestion(c: string, d: string, tail: string)
    requires c != [] && IsTrimmed(c) && |c| + |d| + 1 <= MAX_BODY_CHARS && (d == [] || d[|d| - 1] == '\n')
    requires TrimEnd(tail) != []
    ensures var later := LastLabelled(Lines(KeptAfter(c + "\n" + d, tail)));
      LastLabelled(Lines(Clip(c + "\n" + d + tail, MAX_BODY_CHARS)))
      == if later.Some? then later
         else if LastLabelled(Lines(d)).Some? then LastLabelled(Lines(d)) else LastLabelled(Lines(c))
  {
    var text := (c + "\n" + d)[..|c| + |d|];
    assert !IsWhitespace(c[0]) && !IsWhitespace(c[|c| - 1]);
    hide Clip, KeptAfter, Lines, LastLabelled, IsTrimmed, TrimEnd, TrimStart, IsWhitespace;
    NothingToTrim();
    LinesWithBreak(c);
    LineBeforeBreak(c, d, tail);
    TailAfterText([], text, tail);
    LinesInParts(c + "\n", d);
    LastLabelledInParts(Lines(c + "\n"), Lines(d));
  }

  lemma LineAfterBreak(d: string, tail: string)
    requires |d| >= 3 && d[0] == '\n' && d[|d| - 1] == '\n'
    ensures var text := d[1..|d| - 1];
      && text != [] && text[0] == d[1]
      && "\n" + d + tail == "\n\n" + text + "\n" + tail && d == [] + "\n" + (text + "\n")
  {
  }

  lemma EmptyLineBefore(text: string)
    ensures LastLabelled(Lines([] + "\n" + text)) == LastLabelled(Lines(text))
  {
    LinesOfLine([], text);
    LastLabelledInParts([[]], Lines(text));
    assert LastLabelled([[]]) == None;
  }

  lemma QuestionAlone(d: string, tail: string)
    requires 3 <= |d| <= MAX_BODY_CHARS && d[0] == '\n' && d[1] == '*' && d[|d| - 1] == '\n'
    requires Clean(tail) && TrimEnd(tail) != []
    ensures LastLabelled(Lines(Clip("\n" + d + tail, MAX_BODY_CHARS))) == LastLabelled(Lines(d))
  {
    var text := d[1..|d| - 1];
    assert !IsWhitespace('*');
    hide Clip, Clean, KeptAfter, Lines, LastLabelled, TrimEnd, TrimStart, IsWhitespace;
    NothingToTrim();
    LineAfterBreak(d, tail);
    TailAfterText("\n\n", text, tail);
    KeptIsClean(text + "\n", tail);
    EmptyLineBefore(text + "\n");
  }

  lemma CommentWithoutStep(p: Proposal, evidence: seq<EvidenceRef>, runId: string, closing: Closing)
    requires WrittenStep(p).None?
    ensures ProgressComment(p, evidence, runId, closing)
      == Clip(Clip(p.comment, MAX_MARKDOWN_CHARS) + "\n" + DecisionLine(p) + CommentTail(p, evidence, runId, closing),
              MAX_BODY_CHARS)
  {
    hide Clip, EvidenceBlock, CitedEvidence, ClosingText, CommentFooter, WrittenStep, DecisionLine;
    var c, d, e := Clip(p.comment, MAX_MARKDOWN_CHARS), DecisionLine(p), EvidenceBlock(CitedEvidence(p, evidence));
    var back := ClosingText(closing) + CommentFooter(p, runId);
    assert Appendix(p, evidence) == d + e;
    assert c + "\n" + (d + e) + back == c + "\n" + d + (e + back);
  }

  lemma LabelledLine(step: string)
    requires OneLine(step) && IsTrimmed(step) && step != [] && |step| <= 100
    ensures IsTrimmed(StepLine(step)) && |StepLine(step)| <= 115
    ensures RecordedNextStep(StepLine(step)) == Some(step)
  {
    var line := StepLine(step);
    assert line[0] == '*' && line[|line| - 1] == step[|step| - 1];
    StepLineIsRead([], step, []);
    assert [] + line + "\n" + [] == line + "\n";
    hide StepLine;
    LinesWithBreak(line);
  }

  /** So a resolved item can still read as having a next step, though none is recorded for it. */
  lemma AResolvedItemCanShowAStep(p: Proposal, evidence: seq<EvidenceRef>, step: string, runId: string, closing: Closing)
    requires p.status == Resolved && p.comment == StepLine(step) && CitesCleanly(p, evidence)
    requires OneLine(step) && IsTrimmed(step) && step != [] && |step| <= 100 && OneLine(runId)
    ensures RecordedNextStep(ProgressComment(p, evidence, runId, closing)) == Some(step)
  {
    LabelledLine(step);
    TrimTrimmed(p.comment);
    assert DecisionLine(p) == [] && LastLabelled(Lines([])) == None;
    hide StepLine, Lines, LastLabelled, Trim, OneLine, IsTrimmed, DecisionLine, CitesCleanly, ProgressComment;
    WithoutAStepTheCommentDecides(p, evidence, runId, closing);
  }

  const ASKED: string := "\n**Decision needed:** "

  lemma QuestionLabel(p: Proposal, step: string)
    requires p.status == NeedsDecision && p.decisionNeeded == Some("a\n" + StepLine(step))
    requires OneLine(step) && IsTrimmed(step) && step != [] && |step| <= 100
    ensures LastLabelled(Lines(DecisionLine(p))) == Some(step)
  {
    var q := "a\n" + StepLine(step);
    LabelledLine(step);
    assert q[0] == 'a' && q[|q| - 1] == step[|step| - 1];
    TrimTrimmed(q);
    assert LastLabelled(Lines([])) == None;
    hide Trim, Lines, LastLabelled, StepLine, IsTrimmed;
    StepLineIsRead(ASKED + "a\n", step, []);
    assert DecisionLine(p) == (ASKED + "a\n") + StepLine(step) + "\n" + [];
  }

  /** So can an item that needs a decision, if its question has more than one line; its comment need not have a label. */
  lemma AQuestionCanShowAStep(p: Proposal, evidence: seq<EvidenceRef>, step: string, runId: string, closing: Closing)
    requires p.status == NeedsDecision && p.comment == "c" && p.nextStep == None && CitesCleanly(p, evidence)
    requires p.decisionNeeded == Some("a\n" + StepLine(step))
    requires OneLine(step) && IsTrimmed(step) && step != [] && |step| <= 100 && OneLine(runId)
    ensures RecordedNextStep(ProgressComment(p, evidence, runId, closing)) == Some(step)
    ensures RecordedNextStep(p.comment) == None
  {
    QuestionLabel(p, step);
    CleanTextHasNoLabel(p.comment);
    hide StepLine, Lines, LastLabelled, OneLine, IsTrimmed, DecisionLine, CitesCleanly, ProgressComment, Clip;
    WithoutAStepTheCommentDecides(p, evidence, runId, closing);
  }

  lemma NotTheLabel(line: string)
    requires OneLine(line) && |line| > 2 && line[2] != 'N'
    ensures Clean(line)
  {
    assert NEXT_STEP_LABEL[2] == 'N';
  }

  lemma QuestionLineStarts(question: string)
    requires OneLine(question)
    ensures var line := "**Decision needed:** " + question; OneLine(line) && |line| > 2 && line[2] == 'D'
  {
    var prefix := "**Decision needed:** ";
    assert prefix[2] == 'D' && OneLine(prefix);
  }

  lemma QuestionLineIsClean(question: string)
    requires OneLine(question)
    ensures Clean("**Decision needed:** " + question)
  {
    hide Clean, OneLine;
    QuestionLineStarts(question);
    NotTheLabel("**Decision needed:** " + question);
  }

  /** A question on one line shows none. */
  lemma AQuestionOnOneLineIsClean(p: Proposal)
    requires p.decisionNeeded.Some? ==> OneLine(p.decisionNeeded.value)
    ensures LastLabelled(Lines(DecisionLine(p))) == None
  {
    EmptyIsClean();
    if p.decisionNeeded.Some? {
      var question := Clip(p.decisionNeeded.value, MAX_LINE_CHARS);
      ClipIsOneLine(p.decisionNeeded.value, MAX_LINE_CHARS);
      hide Clip, Clean, Lines, LastLabelled, OneLine;
      QuestionLineIsClean(question);
      BlankAndClean("**Decision needed:** " + question);
      QuestionBetweenBreaks(question);
    }
    hide Clip, Clean, Lines, LastLabelled, OneLine;
    CleanTextHasNoLabel(DecisionLine(p));
  }

  lemma QuestionBetweenBreaks(question: string)
    ensures "\n" + ("**Decision needed:** " + question) + "\n" == "\n**Decision needed:** " + question + "\n"
  {
  }
}
