/** What a progress comment shows: its text, its evidence, its closing line and its status. */
module Comments {
  import opened Wrappers
  import opened Text
  import opened Render
  import opened NextStep
  import opened RoundTrip

  /** The evidence an id stands for is the first with that id. */
  lemma {:induction false} EvidenceIsFirst(evidence: seq<EvidenceRef>, id: string)
    ensures match EvidenceById(evidence, id)
      case Some(e) =>
        exists i :: 0 <= i < |evidence| && evidence[i] == e && e.id == id && forall j :: 0 <= j < i ==> evidence[j].id != id
      case None => forall j :: 0 <= j < |evidence| ==> evidence[j].id != id
  {
    if evidence != [] && evidence[0].id != id {
      EvidenceIsFirst(evidence[1..], id);
      var found := EvidenceById(evidence[1..], id);
      assert forall j :: 0 <= j < |evidence| - 1 ==> evidence[1..][j] == evidence[j + 1];
      if found.Some? {
        var i :| 0 <= i < |evidence[1..]| && evidence[1..][i] == found.value && found.value.id == id
          && forall j :: 0 <= j < i ==> evidence[1..][j].id != id;
        assert evidence[i + 1] == found.value;
        assert forall j :: 0 < j < i + 1 ==> evidence[j] == evidence[1..][j - 1];
      }
    } else if evidence != [] {
      assert evidence[0].id == id;
    }
  }

  lemma {:induction false} CitedByIds(ids: seq<string>, evidence: seq<EvidenceRef>, e: EvidenceRef)
    ensures e in CitedBy(ids, evidence) <==> e.id in ids && EvidenceById(evidence, e.id) == Some(e)
  {
    if ids != [] {
      CitedByIds(ids[1..], evidence, e);
      EvidenceIsFirst(evidence, ids[0]);
      hide EvidenceById;
    }
  }

  /** Cited is what an id of the proposal stands for. */
  lemma CitedAre(p: Proposal, evidence: seq<EvidenceRef>, e: EvidenceRef)
    ensures e in CitedEvidence(p, evidence) <==> e.id in p.evidenceIds && EvidenceById(evidence, e.id) == Some(e)
  {
    SortedIdsAscend(p.evidenceIds);
    CitedByIds(SortedIds(p.evidenceIds), evidence, e);
  }

  /** The text has the part somewhere. */
  ghost predicate Holds(text: string, part: string) {
    exists a, b :: text == a + part + b
  }

  lemma HoldsWithin(front: string, text: string, back: string, part: string)
    requires Holds(text, part)
    ensures Holds(front + text + back, part)
  {
    var a, b :| text == a + part + b;
    assert front + text + back == (front + a) + part + (b + back);
  }

  lemma {:induction false} EveryLineIsShown(cited: seq<EvidenceRef>, e: EvidenceRef)
    requires e in cited
    ensures Holds(EvidenceLines(cited), EvidenceLine(e) + "\n")
  {
    hide EvidenceLine;
    var front, last := cited[..|cited| - 1], cited[|cited| - 1];
    var line := EvidenceLine(last) + "\n";
    assert EvidenceLines(cited) == EvidenceLines(front) + line;
    if last == e {
      assert EvidenceLines(cited) == EvidenceLines(front) + line + "";
    } else {
      EveryLineIsShown(front, e);
      HoldsWithin("", EvidenceLines(front), line, EvidenceLine(e) + "\n");
      assert "" + EvidenceLines(front) + line == EvidenceLines(front) + line;
    }
  }

  /** The line of one piece of evidence: what it is, linked to its source if that has an address, and how it was found. */
  function SourceLine(e: EvidenceRef): string {
    "- " + e.id + ": "
    + (match e.url
       case Some(url) => "[" + Clip(e.description, 500) + "](" + Clip(url, 500) + ")"
       case None => Clip(e.description, 500))
    + (match e.query
       case Some(query) => " \U{2014} query `" + Clip(query, 500) + "`"
       case None => "")
  }

  lemma LineIsSource(e: EvidenceRef)
    ensures EvidenceLine(e) == SourceLine(e)
  {
    hide Clip;
  }

  /** Every piece of evidence an id of the proposal stands for has its line in the appendix. */
  lemma EvidenceIsShown(p: Proposal, evidence: seq<EvidenceRef>, e: EvidenceRef)
    requires e.id in p.evidenceIds && EvidenceById(evidence, e.id) == Some(e)
    ensures Holds(Appendix(p, evidence), SourceLine(e) + "\n")
  {
    CitedAre(p, evidence, e);
    LineIsSource(e);
    hide CitedEvidence, EvidenceById, EvidenceLine, SourceLine, DecisionLine, StepBlock, EvidenceLines;
    var cited := CitedEvidence(p, evidence);
    EveryLineIsShown(cited, e);
    HoldsWithin(DecisionLine(p) + StepBlock(p) + "\n**Evidence**\n", EvidenceLines(cited), "", SourceLine(e) + "\n");
    AppendixParts(DecisionLine(p) + StepBlock(p), EvidenceLines(cited));
  }

  lemma AppendixParts(front: string, lines: string)
    ensures front + "\n**Evidence**\n" + lines + "" == front + ("\n**Evidence**\n" + lines)
  {
  }

  function ClosingWords(closing: Closing): string {
    match closing
    case Continue => ""
    case ClosingAsDone => "\n" + ("Closing as done." + " Reopen it if" + " the problem" + " comes back.") + "\n"
    case SuggestClosing => "\n" + ("Reili considers" + " this done." + " Close it if" + " you agree.") + "\n"
  }

  function StatusWord(status: WorkItemStatus): string {
    match status
    case InProgress => "in-progress"
    case NeedsDecision => "needs-decision"
    case Resolved => "resolved"
  }

  /** The footer without its last line break. */
  function StatusLine(p: Proposal, runId: string): string {
    "\n---\n" + ("_Status `" + StatusWord(p.status) + "` \U{B7} run `" + runId + "`") + "_"
  }

  lemma FooterIsStatus(p: Proposal, runId: string)
    ensures CommentFooter(p, runId) == StatusLine(p, runId) + "\n"
    ensures TrimEnd(CommentFooter(p, runId)) == StatusLine(p, runId)
  {
    CommentFooterIsVisible(p, runId);
    hide TrimEnd;
    assert CommentFooter(p, runId) == StatusLine(p, runId) + "\n";
  }

  /** The text of the comment before it is clipped as a whole, without its last line break. */
  function WholeComment(p: Proposal, evidence: seq<EvidenceRef>, runId: string, closing: Closing): string {
    Clip(p.comment, 20_000) + "\n" + Appendix(p, evidence) + (ClosingWords(closing) + StatusLine(p, runId))
  }

  lemma WholeIsTrimmed(c: string, appendix: string, closing: string, footer: string, status: string)
    requires c != [] && !IsWhitespace(c[0]) && TrimEnd(footer) == status && status != []
    ensures Trim(c + "\n" + appendix + (closing + footer)) == c + "\n" + appendix + (closing + status)
  {
    var text := c + "\n" + appendix + (closing + footer);
    assert text[0] == c[0];
    assert TrimStart(text) == text;
    hide TrimEnd, TrimStart;
    TrimEndInParts(closing, footer);
    TrimEndInParts(c + "\n" + appendix, closing + footer);
  }

  lemma ClosingIs(closing: Closing)
    ensures ClosingText(closing) == ClosingWords(closing)
  {
  }

  lemma StatusIsVisible(p: Proposal, runId: string)
    ensures StatusLine(p, runId) != []
  {
  }

  lemma ClipStartsVisibly(s: string, max: nat)
    requires Trim(s) != [] && max > 0
    ensures Clip(s, max) != [] && !IsWhitespace(Clip(s, max)[0])
  {
    TrimIsTrimmed(s);
    hide Trim, IsWhitespace;
  }

  /** A text as it is written, cut after its first 30,000 characters if it is longer. */
  function AtMost30000(text: string): string {
    if |text| <= 30_000 then text else text[..30_000] + "\U{2026} [truncated]"
  }

  lemma ClipCuts(text: string)
    ensures Clip(text, MAX_BODY_CHARS) == AtMost30000(Trim(text))
  {
    hide Trim;
  }

  /**
   A comment whose text is not blank shows all there is to show, up to 30,000 characters of it: the text, the appendix,
   the line of its closing, and the status and run in its last line.
   */
  lemma CommentShows(p: Proposal, evidence: seq<EvidenceRef>, runId: string, closing: Closing)
    requires Trim(p.comment) != []
    ensures ProgressComment(p, evidence, runId, closing) == AtMost30000(WholeComment(p, evidence, runId, closing))
  {
    hide Clip, Trim, TrimEnd, Appendix, ClosingWords, ClosingText, StatusLine, CommentFooter, IsWhitespace;
    var c := Clip(p.comment, MAX_MARKDOWN_CHARS);
    ClipStartsVisibly(p.comment, MAX_MARKDOWN_CHARS);
    FooterIsStatus(p, runId);
    StatusIsVisible(p, runId);
    ClosingIs(closing);
    WholeIsTrimmed(c, Appendix(p, evidence), ClosingText(closing), CommentFooter(p, runId), StatusLine(p, runId));
    ClipCuts(c + "\n" + Appendix(p, evidence) + (ClosingText(closing) + CommentFooter(p, runId)));
  }

  /** The team's question is asked in the appendix exactly when the item needs a decision and has one. */
  lemma QuestionIsAsked(p: Proposal, evidence: seq<EvidenceRef>)
    ensures p.status == NeedsDecision && p.decisionNeeded.Some? ==>
      ("\n**Decision needed:** " + Clip(p.decisionNeeded.value, 500) + "\n") <= Appendix(p, evidence)
    ensures !(p.status == NeedsDecision && p.decisionNeeded.Some?) ==>
      Appendix(p, evidence) == StepBlock(p) + EvidenceBlock(CitedEvidence(p, evidence))
  {
    hide Clip, StepBlock, EvidenceBlock, CitedEvidence;
    assert "" + StepBlock(p) == StepBlock(p);
  }

  // ----- New items

  function FollowUpLine(previousKey: Option<string>): string {
    match previousKey
    case Some(key) => "\nFollows up on " + key + ".\n"
    case None => ""
  }

  /** The last line of a new item names its objective and its run. */
  function OpeningLine(objectiveId: string, runId: string): string {
    "\n---\n" + ("_Opened by Reili for objective `" + objectiveId + "` (run `" + runId + "`). " + WORK_NOTE) + "_"
  }

  function WholeItem(p: Proposal, evidence: seq<EvidenceRef>, objectiveId: string, previousKey: Option<string>,
                     runId: string): string {
    Clip(p.description, 20_000) + "\n" + FollowUpLine(previousKey) + Appendix(p, evidence)
    + OpeningLine(objectiveId, runId)
  }

  lemma OpeningIsVisible(objectiveId: string, runId: string)
    ensures ItemFooter(objectiveId, runId) == OpeningLine(objectiveId, runId) + "\n"
    ensures TrimEnd(ItemFooter(objectiveId, runId)) == OpeningLine(objectiveId, runId) != []
  {
    assert TrimEnd("_\n") == "_" by {
      assert "_\n"[..1] == "_";
    }
    hide TrimEnd;
    var front := "\n---\n" + ("_Opened by Reili for objective `" + objectiveId + "` (run `" + runId + "`). " + WORK_NOTE);
    TrimEndInParts(front, "_\n");
    assert front + "_\n" == ItemFooter(objectiveId, runId);
  }

  /** The same for the body of a new item. */
  lemma ItemShows(p: Proposal, evidence: seq<EvidenceRef>, objectiveId: string, previousKey: Option<string>, runId: string)
    requires Trim(p.description) != []
    ensures NewItemBody(p, evidence, objectiveId, previousKey, runId)
      == AtMost30000(WholeItem(p, evidence, objectiveId, previousKey, runId))
  {
    hide Clip, Trim, TrimEnd, Appendix, OpeningLine, ItemFooter, IsWhitespace;
    var c := Clip(p.description, MAX_MARKDOWN_CHARS);
    ClipStartsVisibly(p.description, MAX_MARKDOWN_CHARS);
    OpeningIsVisible(objectiveId, runId);
    var footer, opening := ItemFooter(objectiveId, runId), OpeningLine(objectiveId, runId);
    var middle := FollowUpLine(previousKey) + Appendix(p, evidence);
    WholeIsTrimmed(c, middle, "", footer, opening);
    ItemInParts(c, FollowUpLine(previousKey), Appendix(p, evidence), footer);
    ItemInParts(c, FollowUpLine(previousKey), Appendix(p, evidence), opening);
    hide FollowUpLine;
    ClipCuts(c + "\n" + FollowUpLine(previousKey) + Appendix(p, evidence) + footer);
  }

  lemma ItemInParts(c: string, f: string, a: string, end: string)
    ensures c + "\n" + (f + a) + ("" + end) == c + "\n" + f + a + end
  {
  }
}
