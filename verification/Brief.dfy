/**
 The brief a cycle starts from (crates/application/src/objective/brief.rs): the queue, the team's feedback, and the
 threads of the work items, within a budget. Times are given as they are printed, in RFC 3339.
 */
module Brief {
  import opened Wrappers
  import opened Text
  import opened Render

  const MAX_SECTION_CHARS: nat := 16_000
  const MAX_DESCRIPTION_CHARS: nat := 1_500
  const MAX_COMMENT_CHARS: nat := 1_000
  const MAX_COMMENTS_PER_ITEM: nat := 20
  const MAX_TITLE_CHARS: nat := 200
  const SEPARATOR: string := "\n---\n"

  datatype WorkItemState = Open | Done | NotPlanned

  datatype WorkItem = WorkItem(
    key: string,
    title: string,
    body: string,
    author: string,
    createdByReili: bool,
    state: WorkItemState,
    assignedToReili: bool,
    needsDecision: bool,
    createdAt: string)

  datatype Comment = Comment(
    author: string,
    byReili: bool,
    authorTrusted: bool,
    body: string,
    createdAt: string,
    url: string)

  datatype WorkThread = WorkThread(item: WorkItem, comments: seq<Comment>)

  datatype BriefSection = BriefSection(heading: string, body: string)

  // ----- Comments

  /** Only these reach the agent. */
  predicate IsVisible(c: Comment) {
    c.byReili || c.authorTrusted
  }

  /** The index of Reili's last comment. */
  function LastOwn(comments: seq<Comment>): (r: Option<nat>)
    ensures r.Some? ==> r.value < |comments| && comments[r.value].byReili
  {
    if comments == [] then None
    else if comments[|comments| - 1].byReili then Some(|comments| - 1)
    else LastOwn(comments[..|comments| - 1])
  }

  /** A trusted comment after Reili's last one. */
  predicate IsNewTeamComment(c: Comment, index: nat, lastOwn: Option<nat>) {
    !c.byReili && c.authorTrusted && (lastOwn.None? || index > lastOwn.value)
  }

  function CountNew(comments: seq<Comment>, lastOwn: Option<nat>): nat {
    if comments == [] then 0
    else
      var last := |comments| - 1;
      CountNew(comments[..last], lastOwn) + if IsNewTeamComment(comments[last], last, lastOwn) then 1 else 0
  }

  /** The visible comments with their places in the thread. */
  function VisibleOf(comments: seq<Comment>): (r: seq<(nat, Comment)>)
    ensures |r| <= |comments|
  {
    if comments == [] then []
    else
      var last := |comments| - 1;
      VisibleOf(comments[..last]) + if IsVisible(comments[last]) then [(last, comments[last])] else []
  }

  function LatestFeedback(comments: seq<Comment>): Option<Comment> {
    if comments == [] then None
    else
      var last := comments[|comments| - 1];
      if last.authorTrusted && !last.byReili then Some(last) else LatestFeedback(comments[..|comments| - 1])
  }

  // ----- Fences

  /** The stretches between characters that are not backticks. */
  function BacktickRuns(text: string): (r: seq<string>)
    ensures |r| >= 1
  {
    if text == [] then [[]]
    else
      var rest := BacktickRuns(text[1..]);
      if text[0] != '`' then [[]] + rest else [[text[0]] + rest[0]] + rest[1..]
  }

  function LongestOf(runs: seq<string>): nat {
    if runs == [] then 0 else Max(|runs[0]|, LongestOf(runs[1..]))
  }

  function Repeat(c: char, n: nat): string {
    seq(n, _ => c)
  }

  function FenceOf(text: string): string {
    Repeat('`', Max(LongestOf(BacktickRuns(text)), 2) + 1)
  }

  function Fenced(text: string): string {
    FenceOf(text) + "\n" + text + "\n" + FenceOf(text)
  }

  // ----- The queue

  function LastRecord(t: WorkThread): Option<(string, string)> {
    match LastOwn(t.comments)
    case Some(i) => Some((t.comments[i].body, t.comments[i].createdAt))
    case None => if t.item.createdByReili then Some((t.item.body, t.item.createdAt)) else None
  }

  /** One item as the last cycle left it. */
  function QueueLine(t: WorkThread): string {
    var newReplies := CountNew(t.comments, LastOwn(t.comments));
    var state :=
      if t.item.needsDecision then "waiting for a team decision"
      else if LastRecord(t).Some? then "in progress"
      else "not started";
    var lastWorked := match LastRecord(t) case Some((_, at)) => at case None => "never";
    var recorded := match LastRecord(t) case Some((body, _)) => RecordedNextStep(body) case None => None;
    "- " + t.item.key + ": " + TruncateChars(t.item.title, MAX_TITLE_CHARS) + " | " + state + " | " + Decimal(newReplies)
    + " NEW team comment(s) | last worked: " + lastWorked + " | next step: "
    + (if recorded.Some? then recorded.value else "none recorded")
  }

  function QueueSection(threads: seq<WorkThread>): string {
    Join(seq(|threads|, i requires 0 <= i < |threads| => QueueLine(threads[i])), "\n")
  }

  function FeedbackSection(t: WorkThread): Option<BriefSection> {
    match LatestFeedback(t.comments)
    case None => None
    case Some(c) =>
      Some(BriefSection(
             "Latest team feedback for " + t.item.key,
             "item: " + t.item.key + "\ntitle: " + TruncateChars(t.item.title, MAX_TITLE_CHARS) + "\nauthor: @" + c.author
             + "\nposted at: " + c.createdAt + "\nsource: " + c.url + "\nreply:\n"
             + Fenced(Clip(c.body, MAX_COMMENT_CHARS)) + "\n"))
  }

  function FeedbackSections(threads: seq<WorkThread>): seq<BriefSection> {
    if threads == [] then []
    else
      var rest := FeedbackSections(threads[1..]);
      match FeedbackSection(threads[0])
      case Some(s) => [s] + rest
      case None => rest
  }

  // ----- Threads

  function ThreadHeader(item: WorkItem): string {
    item.key + (if item.needsDecision then " (waiting for a team decision)" else "") + "\ntitle: " + item.title
    + "\nopened by: " + (if item.createdByReili then "you" else "@" + item.author) + "\ndescription:\n"
    + Clip(item.body, MAX_DESCRIPTION_CHARS) + "\n"
  }

  function CommentEntry(c: Comment, index: nat, lastOwn: Option<nat>): string {
    "- " + (if IsNewTeamComment(c, index, lastOwn) then "NEW " else "") + (if c.byReili then "you" else "@" + c.author)
    + " (" + c.createdAt + "):\n" + Fenced(Clip(c.body, MAX_COMMENT_CHARS)) + "\n"
  }

  function CommentEntries(shown: seq<(nat, Comment)>, lastOwn: Option<nat>): string {
    if shown == [] then ""
    else
      var last := shown[|shown| - 1];
      CommentEntries(shown[..|shown| - 1], lastOwn) + CommentEntry(last.1, last.0, lastOwn)
  }

  function SaturatingSub(a: nat, b: nat): nat {
    if a < b then 0 else a - b
  }

  /** What stands before the comments, with `earlier` of the visible ones left out. */
  function CommentsHeading(visible: nat, earlier: nat): string {
    (if visible > 0 then "comments (oldest first):\n" else "")
    + (if earlier > 0 then "(" + Decimal(earlier) + " earlier comment(s) not shown)\n" else "")
  }

  function OmittedNote(omitted: nat): string {
    if omitted > 0 then "(" + Decimal(omitted) + " comment(s) from authors outside the team omitted)\n" else ""
  }

  /** The thread with the latest `maxComments` of its visible comments. */
  function RenderedThread(t: WorkThread, maxComments: nat): string {
    var visible := VisibleOf(t.comments);
    var earlier := SaturatingSub(|visible|, maxComments);
    ThreadHeader(t.item) + CommentsHeading(|visible|, earlier)
    + CommentEntries(visible[earlier..], LastOwn(t.comments)) + OmittedNote(|t.comments| - |visible|)
  }

  /** The rendering with most comments, of those with at most `k`, that fits. */
  function FittingThread(t: WorkThread, maxChars: nat, k: nat): Option<string> {
    if |RenderedThread(t, k)| <= maxChars then Some(RenderedThread(t, k))
    else if k == 0 then None
    else FittingThread(t, maxChars, k - 1)
  }

  function RenderedWithin(t: WorkThread, maxChars: nat): Option<string> {
    FittingThread(t, maxChars, MAX_COMMENTS_PER_ITEM)
  }

  method WriteEntries(body: string, shown: seq<(nat, Comment)>, lastOwn: Option<nat>) returns (r: string)
    ensures r == body + CommentEntries(shown, lastOwn)
  {
    hide CommentEntry;
    r := body;
    for i := 0 to |shown|
      invariant r == body + CommentEntries(shown[..i], lastOwn)
    {
      assert shown[..i + 1][..i] == shown[..i];
      r := r + CommentEntry(shown[i].1, shown[i].0, lastOwn);
    }
    assert shown[..|shown|] == shown;
  }

  method RenderThread(t: WorkThread, maxComments: nat) returns (body: string)
    ensures body == RenderedThread(t, maxComments)
  {
    hide CommentEntries, ThreadHeader, Decimal, VisibleOf, LastOwn;
    body := ThreadHeader(t.item);
    var lastOwn := LastOwn(t.comments);
    var visible := VisibleOf(t.comments);
    var omitted := |t.comments| - |visible|;
    var earlier := SaturatingSub(|visible|, maxComments);
    var heading := "";
    if |visible| > 0 {
      heading := heading + "comments (oldest first):\n";
    }
    if earlier > 0 {
      heading := heading + ("(" + Decimal(earlier) + " earlier comment(s) not shown)\n");
    }
    assert heading == CommentsHeading(|visible|, earlier);
    hide CommentsHeading;
    body := body + heading;
    body := WriteEntries(body, visible[earlier..], lastOwn);
    var note := "";
    if omitted > 0 {
      note := "(" + Decimal(omitted) + " comment(s) from authors outside the team omitted)\n";
    }
    assert note == OmittedNote(omitted);
    hide OmittedNote;
    body := body + note;
  }

  // ----- The section of threads

  /** The room that is left for the thread `shown`. */
  function Room(body: string, shown: nat): nat {
    SaturatingSub(SaturatingSub(MAX_SECTION_CHARS, |body|), if shown == 0 then 0 else |SEPARATOR|)
  }

  /** The first thread is shown in any case, if need be without comments. */
  function ThreadText(t: WorkThread, body: string, shown: nat): Option<string> {
    var fitting := RenderedWithin(t, Room(body, shown));
    if shown == 0 && fitting.None? then Some(RenderedThread(t, 0)) else fitting
  }

  function OmissionNote(n: nat): string {
    "\n(" + Decimal(n) + " more item(s) omitted to fit the brief)"
  }

  function Appended(body: string, shown: nat, text: string): string {
    body + (if shown == 0 then "" else SEPARATOR) + text
  }

  function ThreadsFrom(threads: seq<WorkThread>, shown: nat, body: string): string
    requires shown <= |threads|
    decreases |threads| - shown
  {
    if shown == |threads| then body
    else
      match ThreadText(threads[shown], body, shown)
      case None => body + OmissionNote(|threads| - shown)
      case Some(text) => ThreadsFrom(threads, shown + 1, Appended(body, shown, text))
  }

  const NO_THREADS: string := "None. Choose the one piece of new work that moves the objective forward most."

  function ThreadsSection(threads: seq<WorkThread>): string {
    if threads == [] then NO_THREADS else ThreadsFrom(threads, 0, "")
  }

  method WriteThreadsSection(threads: seq<WorkThread>) returns (body: string)
    ensures body == ThreadsSection(threads)
  {
    hide RenderedThread, FittingThread;
    if threads == [] {
      return NO_THREADS;
    }
    body := "";
    var shown := 0;
    while shown < |threads|
      invariant shown <= |threads|
      invariant ThreadsFrom(threads, shown, body) == ThreadsFrom(threads, 0, "")
    {
      var separator := if shown == 0 then "" else SEPARATOR;
      var remaining := SaturatingSub(SaturatingSub(MAX_SECTION_CHARS, |body|), |separator|);
      var rendered := RenderedWithin(threads[shown], remaining);
      if shown == 0 && rendered.None? {
        var bare := RenderThread(threads[shown], 0);
        rendered := Some(bare);
      }
      if rendered.None? {
        body := body + OmissionNote(|threads| - shown);
        return;
      }
      body := body + separator;
      body := body + rendered.value;
      shown := shown + 1;
    }
  }

  // ----- The whole brief

  datatype Objective = Objective(
    id: string,
    description: string,
    maxToolCalls: nat,
    maxTokens: nat,
    maxNewItems: nat)

  datatype Memory = Memory(fact: string, evidence: string, scope: string, sourceUrl: Option<string>)

  datatype BriefInput = BriefInput(
    objective: Objective,
    threads: seq<WorkThread>,
    items: seq<WorkItem>,
    memories: seq<Memory>,
    runId: string,
    now: string,
    deadline: string,
    notes: seq<string>)

  function ObjectiveSection(o: Objective): string {
    "- id: " + o.id + "\n- description: " + Trim(o.description) + "\n"
  }

  function NoteLines(notes: seq<string>): string {
    if notes == [] then "" else "- note: " + notes[0] + "\n" + NoteLines(notes[1..])
  }

  function CycleSection(input: BriefInput): string {
    "- run id: " + input.runId + "\n- now: " + input.now + "\n- deadline: " + input.deadline + "\n- budget: "
    + Decimal(input.objective.maxToolCalls) + " tool calls, " + Decimal(input.objective.maxTokens)
    + " LLM tokens\n- scope: one work item"
    + (if input.objective.maxNewItems == 0 then "; opening new items is off, so continue one of your items" else "")
    + "\n" + NoteLines(input.notes)
  }

  function OtherLines(items: seq<WorkItem>): seq<string> {
    if items == [] then []
    else
      (if items[0].state == Open && !items[0].assignedToReili then ["- " + items[0].key + ": " + items[0].title] else [])
      + OtherLines(items[1..])
  }

  function ClosedLines(items: seq<WorkItem>): seq<string> {
    if items == [] then []
    else
      (if items[0].state == Open then []
       else
         ["- " + items[0].key + " (" + (if items[0].state == Done then "done" else "not planned") + "): " + items[0].title])
      + ClosedLines(items[1..])
  }

  function MemoryLine(m: Memory): string {
    "- fact: " + Trim(m.fact) + " | evidence: " + Trim(m.evidence) + " | scope: " + Trim(m.scope)
    + (if m.sourceUrl.Some? then " | source: " + m.sourceUrl.value else "")
  }

  function MemoriesSection(memories: seq<Memory>): string {
    Join(seq(|memories|, i requires 0 <= i < |memories| => MemoryLine(memories[i])), "\n")
  }

  const QUEUE_HEADING: string :=
    "Work queue (your items as you left them; choose this cycle's one focus from here)"
  const THREADS_HEADING: string := "Your work items (assigned to you)"
  const OTHERS_HEADING: string :=
    "Other open items for this objective (assigned away from you: do not work on them, do not open duplicates)"
  const CLOSED_HEADING: string :=
    "Recently closed items (do not re-propose items closed as not planned without new evidence)"

  /** A section that is left out when it has nothing to say. */
  function UnlessEmpty(heading: string, body: string): seq<BriefSection> {
    if body == [] then [] else [BriefSection(heading, body)]
  }

  function Sections(input: BriefInput): seq<BriefSection> {
    [BriefSection("Objective", ObjectiveSection(input.objective)), BriefSection("This cycle", CycleSection(input))]
    + (if input.threads == [] then [] else [BriefSection(QUEUE_HEADING, QueueSection(input.threads))])
    + FeedbackSections(input.threads)
    + [BriefSection(THREADS_HEADING, ThreadsSection(input.threads))]
    + UnlessEmpty(OTHERS_HEADING, Join(OtherLines(input.items), "\n"))
    + UnlessEmpty(CLOSED_HEADING, Join(ClosedLines(input.items), "\n"))
    + (if input.memories == [] then []
       else [BriefSection("Knowledge memory (Slack Canvas; guidance, not proof)", MemoriesSection(input.memories))])
  }

  function Shortened(sections: seq<BriefSection>): seq<BriefSection> {
    seq(|sections|, i requires 0 <= i < |sections| =>
      BriefSection(sections[i].heading, TruncateChars(sections[i].body, MAX_SECTION_CHARS)))
  }

  function BuiltBrief(input: BriefInput): seq<BriefSection> {
    Shortened(Sections(input))
  }
}
