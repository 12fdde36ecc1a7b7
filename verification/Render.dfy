/**
 What Reili writes into a work item and reads back from it (crates/application/src/objective/render.rs). The next step
 recorded in a comment is the only state kept from one cycle to the next.
 */
module Render {
  import opened Wrappers
  import opened Text

  const MAX_MARKDOWN_CHARS: nat := 20_000
  const MAX_LINE_CHARS: nat := 500
  const MAX_BODY_CHARS: nat := 30_000
  const NEXT_STEP_LABEL: string := "**Next step:**"

  datatype WorkItemStatus = InProgress | NeedsDecision | Resolved

  datatype EvidenceRef = EvidenceRef(id: string, url: Option<string>, description: string, query: Option<string>)

  datatype Proposal = Proposal(
    status: WorkItemStatus,
    description: string,
    comment: string,
    decisionNeeded: Option<string>,
    nextStep: Option<string>,
    evidenceIds: seq<string>)

  datatype Closing = Continue | ClosingAsDone | SuggestClosing

  // ----- Rendering

  function Clip(value: string, max: nat): string {
    TruncateChars(Trim(value), max)
  }

  /** Keeps the recorded step on one line. */
  function SingleLine(value: string): string {
    Clip(Join(SplitWhitespace(value), " "), MAX_LINE_CHARS)
  }

  function StatusName(s: WorkItemStatus): string {
    match s
    case InProgress => "in-progress"
    case NeedsDecision => "needs-decision"
    case Resolved => "resolved"
  }

  function DecisionLine(p: Proposal): string {
    if p.status == NeedsDecision && p.decisionNeeded.Some? then
      "\n**Decision needed:** " + Clip(p.decisionNeeded.value, MAX_LINE_CHARS) + "\n"
    else ""
  }

  /** The step that is written down: none for a resolved item, none that is blank. */
  function WrittenStep(p: Proposal): Option<string> {
    if p.status != Resolved && p.nextStep.Some? && SingleLine(p.nextStep.value) != [] then
      Some(SingleLine(p.nextStep.value))
    else None
  }

  function StepLine(step: string): string {
    NEXT_STEP_LABEL + " " + step
  }

  function StepBlock(p: Proposal): string {
    match WrittenStep(p)
    case Some(step) => "\n" + StepLine(step) + "\n"
    case None => ""
  }

  // Evidence

  /** The order of strings: by characters, a prefix first. */
  predicate Before(a: string, b: string) {
    b != [] && (a == [] || a[0] < b[0] || (a[0] == b[0] && Before(a[1..], b[1..])))
  }

  function InsertId(id: string, ids: seq<string>): seq<string> {
    if ids == [] || Before(id, ids[0]) then [id] + ids
    else if id == ids[0] then ids
    else [ids[0]] + InsertId(id, ids[1..])
  }

  /** Sorted, each id once. */
  function SortedIds(ids: seq<string>): seq<string> {
    if ids == [] then [] else InsertId(ids[0], SortedIds(ids[1..]))
  }

  lemma {:induction false} BeforeIsAnOrder(a: string, b: string, c: string)
    ensures Before(a, b) || Before(b, a) || a == b
    ensures Before(a, b) ==> !Before(b, a) && a != b
    ensures Before(a, b) && Before(b, c) ==> Before(a, c)
  {
    if a != [] && b != [] {
      BeforeIsAnOrder(a[1..], b[1..], if c == [] then [] else c[1..]);
      assert a == [a[0]] + a[1..] && b == [b[0]] + b[1..];
    }
  }

  ghost predicate Ascending(ids: seq<string>) {
    forall i, j :: 0 <= i < j < |ids| ==> Before(ids[i], ids[j])
  }

  lemma {:induction false} InsertKeepsAscending(id: string, ids: seq<string>)
    requires Ascending(ids)
    ensures Ascending(InsertId(id, ids)) && forall x :: x in InsertId(id, ids) <==> x == id || x in ids
  {
    hide Before;
    if ids != [] {
      BeforeIsAnOrder(id, ids[0], id);
      if Before(id, ids[0]) {
        forall i | 0 < i < |ids| ensures Before(id, ids[i]) {
          BeforeIsAnOrder(id, ids[0], ids[i]);
        }
      } else if id != ids[0] {
        InsertKeepsAscending(id, ids[1..]);
        assert ids == [ids[0]] + ids[1..];
        assert forall x :: x in ids[1..] ==> Before(ids[0], x);
      }
    }
  }

  /** The cited ids are looked up in ascending order, each once. */
  lemma {:induction false} SortedIdsAscend(ids: seq<string>)
    ensures Ascending(SortedIds(ids)) && forall x :: x in SortedIds(ids) <==> x in ids
  {
    if ids != [] {
      SortedIdsAscend(ids[1..]);
      InsertKeepsAscending(ids[0], SortedIds(ids[1..]));
    }
  }

  function EvidenceById(evidence: seq<EvidenceRef>, id: string): Option<EvidenceRef> {
    if evidence == [] then None
    else if evidence[0].id == id then Some(evidence[0])
    else EvidenceById(evidence[1..], id)
  }

  function EvidenceLine(e: EvidenceRef): string {
    var description := Clip(e.description, MAX_LINE_CHARS);
    var source := if e.url.Some? then "[" + description + "](" + Clip(e.url.value, MAX_LINE_CHARS) + ")" else description;
    var query := if e.query.Some? then " \U{2014} query `" + Clip(e.query.value, MAX_LINE_CHARS) + "`" else "";
    "- " + e.id + ": " + source + query
  }

  function CitedBy(ids: seq<string>, evidence: seq<EvidenceRef>): seq<EvidenceRef> {
    if ids == [] then []
    else
      var rest := CitedBy(ids[1..], evidence);
      match EvidenceById(evidence, ids[0])
      case Some(e) => [e] + rest
      case None => rest
  }

  /** The evidence a proposal cites, in the order of its ids. */
  function CitedEvidence(p: Proposal, evidence: seq<EvidenceRef>): seq<EvidenceRef> {
    CitedBy(SortedIds(p.evidenceIds), evidence)
  }

  function EvidenceLines(cited: seq<EvidenceRef>): string {
    if cited == [] then ""
    else EvidenceLines(cited[..|cited| - 1]) + EvidenceLine(cited[|cited| - 1]) + "\n"
  }

  function EvidenceBlock(cited: seq<EvidenceRef>): string {
    if cited == [] then "" else "\n**Evidence**\n" + EvidenceLines(cited)
  }

  function Appendix(p: Proposal, evidence: seq<EvidenceRef>): string {
    DecisionLine(p) + StepBlock(p) + EvidenceBlock(CitedEvidence(p, evidence))
  }

  // The verifier does not look far into a long literal, so the notes are written in stretches of a few words.
  const CLOSING_AS_DONE: string := "Closing as done." + " Reopen it if" + " the problem" + " comes back."
  const SUGGEST_CLOSING: string := "Reili considers" + " this done." + " Close it if" + " you agree."
  const WORK_NOTE: string :=
    "Reili works on" + " this while it is" + " assigned to" + " Reili and posts" + " progress here;" + " comment to" + " steer it."

  function ClosingText(closing: Closing): string {
    match closing
    case Continue => ""
    case ClosingAsDone => "\n" + CLOSING_AS_DONE + "\n"
    case SuggestClosing => "\n" + SUGGEST_CLOSING + "\n"
  }

  function CommentFooter(p: Proposal, runId: string): string {
    "\n---\n" + ("_Status `" + StatusName(p.status) + "` \U{B7} run `" + runId + "`") + "_\n"
  }

  function ItemFooter(objectiveId: string, runId: string): string {
    "\n---\n" + ("_Opened by Reili for objective `" + objectiveId + "` (run `" + runId + "`). " + WORK_NOTE) + "_\n"
  }

  function ProgressComment(p: Proposal, evidence: seq<EvidenceRef>, runId: string, closing: Closing): string {
    Clip(Clip(p.comment, MAX_MARKDOWN_CHARS) + "\n" + Appendix(p, evidence)
         + (ClosingText(closing) + CommentFooter(p, runId)),
         MAX_BODY_CHARS)
  }

  function FollowsUp(previousKey: Option<string>): string {
    if previousKey.Some? then "\nFollows up on " + previousKey.value + ".\n" else ""
  }

  function NewItemBody(p: Proposal, evidence: seq<EvidenceRef>, objectiveId: string, previousKey: Option<string>,
                       runId: string): string {
    Clip(Clip(p.description, MAX_MARKDOWN_CHARS) + "\n" + FollowsUp(previousKey) + Appendix(p, evidence)
         + ItemFooter(objectiveId, runId),
         MAX_BODY_CHARS)
  }

  // ----- Reading back

  /** What follows the label in the last line that has it. */
  function LastLabelled(lines: seq<string>): Option<string> {
    if lines == [] then None
    else
      var last := lines[|lines| - 1];
      if NEXT_STEP_LABEL <= last then Some(Trim(last[|NEXT_STEP_LABEL|..])) else LastLabelled(lines[..|lines| - 1])
  }

  function RecordedNextStep(body: string): Option<string> {
    match LastLabelled(Lines(body))
    case Some(step) => if step == [] then None else Some(step)
    case None => None
  }

  // ----- The imperative renderers

  method WriteEvidence(body: string, cited: seq<EvidenceRef>) returns (r: string)
    ensures r == body + EvidenceBlock(cited)
  {
    hide EvidenceLine;
    r := body;
    if cited != [] {
      ghost var heading := "\n**Evidence**\n";
      r := r + "\n**Evidence**\n";
      for i := 0 to |cited|
        invariant r == body + (heading + EvidenceLines(cited[..i]))
      {
        assert cited[..i + 1][..i] == cited[..i];
        r := r + EvidenceLine(cited[i]);
        r := r + "\n";
      }
      assert cited[..|cited|] == cited;
    }
  }

  /** Appends to the body what the next cycle and the team need. */
  method WriteAppendix(body: string, p: Proposal, evidence: seq<EvidenceRef>) returns (r: string)
    ensures r == body + Appendix(p, evidence)
  {
    hide Clip, SingleLine, EvidenceBlock, CitedEvidence;
    r := body;
    if p.status == NeedsDecision && p.decisionNeeded.Some? {
      r := r + ("\n**Decision needed:** " + Clip(p.decisionNeeded.value, MAX_LINE_CHARS) + "\n");
    }
    assert r == body + DecisionLine(p);
    hide DecisionLine, StepLine;
    ghost var before := r;
    if p.status != Resolved && p.nextStep.Some? {
      var step := SingleLine(p.nextStep.value);
      if step != [] {
        r := r + ("\n" + StepLine(step) + "\n");
      }
    }
    assert r == before + StepBlock(p);
    hide StepBlock;
    r := WriteEvidence(r, CitedEvidence(p, evidence));
  }

  method RenderProgressComment(p: Proposal, evidence: seq<EvidenceRef>, runId: string, closing: Closing)
    returns (r: string)
    ensures r == ProgressComment(p, evidence, runId, closing)
  {
    hide Clip, Appendix, CommentFooter;
    var body := Clip(p.comment, MAX_MARKDOWN_CHARS);
    body := body + "\n";
    body := WriteAppendix(body, p, evidence);
    match closing {
      case Continue =>
      case ClosingAsDone => body := body + ("\n" + CLOSING_AS_DONE + "\n");
      case SuggestClosing => body := body + ("\n" + SUGGEST_CLOSING + "\n");
    }
    assert body == Clip(p.comment, MAX_MARKDOWN_CHARS) + "\n" + Appendix(p, evidence) + ClosingText(closing);
    hide ClosingText;
    assert body + CommentFooter(p, runId) == Clip(p.comment, MAX_MARKDOWN_CHARS) + "\n" + Appendix(p, evidence)
      + (ClosingText(closing) + CommentFooter(p, runId));
    body := body + CommentFooter(p, runId);
    r := Clip(body, MAX_BODY_CHARS);
  }

  method RenderNewItemBody(p: Proposal, evidence: seq<EvidenceRef>, objectiveId: string, previousKey: Option<string>,
                           runId: string)
    returns (r: string)
    ensures r == NewItemBody(p, evidence, objectiveId, previousKey, runId)
  {
    hide Clip, Appendix, ItemFooter;
    var body := Clip(p.description, MAX_MARKDOWN_CHARS);
    body := body + "\n";
    if previousKey.Some? {
      body := body + ("\nFollows up on " + previousKey.value + ".\n");
    }
    assert body == Clip(p.description, MAX_MARKDOWN_CHARS) + "\n" + FollowsUp(previousKey);
    body := WriteAppendix(body, p, evidence);
    body := body + ItemFooter(objectiveId, runId);
    r := Clip(body, MAX_BODY_CHARS);
  }
}
