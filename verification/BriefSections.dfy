/** Which sections a brief has, in which order, and what the shorter ones list. */
module BriefSections {
  import opened Wrappers
  import opened Text
  import opened Render
  import opened Brief
  import opened BriefBudget
  import opened BriefQueue

  // ----- Feedback

  /** The latest comment of the team. */
  ghost predicate IsLatestFeedback(comments: seq<Comment>, i: nat) {
    i < |comments| && IsFeedback(comments[i]) && forall j :: i < j < |comments| ==> !IsFeedback(comments[j])
  }

  /** The feedback section quotes the latest comment of the team, with author, time and source; without one there is none. */
  lemma FeedbackQuotesTheLatest(t: WorkThread)
    ensures forall i: nat :: IsLatestFeedback(t.comments, i) ==>
      FeedbackSection(t) == Some(BriefSection(
        "Latest team feedback for " + t.item.key,
        "item: " + t.item.key + "\ntitle: " + TruncateChars(t.item.title, 200) + "\nauthor: @" + t.comments[i].author
        + "\nposted at: " + t.comments[i].createdAt + "\nsource: " + t.comments[i].url + "\nreply:\n"
        + Fenced(Clip(t.comments[i].body, 1_000)) + "\n"))
    ensures (forall i :: 0 <= i < |t.comments| ==> !IsFeedback(t.comments[i])) ==> FeedbackSection(t) == None
  {
    FeedbackIsTheLatest(t.comments);
    hide LatestFeedback, Fenced, Clip, TruncateChars, IsFeedback;
  }

  // ----- Lists of items

  /** The lines of items open and assigned away, and of closed items. */
  predicate IsOther(item: WorkItem) {
    item.state == Open && !item.assignedToReili
  }

  function OtherLine(item: WorkItem): string {
    "- " + item.key + ": " + item.title
  }

  function ClosedLine(item: WorkItem): string
    requires item.state != Open
  {
    "- " + item.key + " (" + (if item.state == NotPlanned then "not planned" else "done") + "): " + item.title
  }

  predicate IsClosed(item: WorkItem) {
    item.state != Open
  }

  /** Each open item assigned away, and each closed item, has its one line. */
  lemma OneLineEach(item: WorkItem)
    ensures OtherLines([item]) == if IsOther(item) then [OtherLine(item)] else []
    ensures ClosedLines([item]) == if IsClosed(item) then [ClosedLine(item)] else []
  {
    assert [item][1..] == [];
    assert OtherLines([]) == [] && ClosedLines([]) == [];
  }

  lemma InThreeParts(a: seq<string>, b: seq<string>, c: seq<string>)
    ensures (a + b) + c == a + (b + c)
  {
  }

  /** And the lists go through the items in order. */
  lemma {:induction false} ListsInParts(a: seq<WorkItem>, b: seq<WorkItem>)
    ensures OtherLines(a + b) == OtherLines(a) + OtherLines(b) && ClosedLines(a + b) == ClosedLines(a) + ClosedLines(b)
  {
    if a == [] {
      assert a + b == b;
    } else {
      ListsInParts(a[1..], b);
      assert (a + b)[1..] == a[1..] + b && (a + b)[0] == a[0];
      FirstOfLists(a);
      FirstOfLists(a + b);
      hide OtherLines, ClosedLines;
      InThreeParts(OtherLines([a[0]]), OtherLines(a[1..]), OtherLines(b));
      InThreeParts(ClosedLines([a[0]]), ClosedLines(a[1..]), ClosedLines(b));
    }
  }

  lemma FirstOfLists(items: seq<WorkItem>)
    requires items != []
    ensures OtherLines(items) == OtherLines([items[0]]) + OtherLines(items[1..])
    ensures ClosedLines(items) == ClosedLines([items[0]]) + ClosedLines(items[1..])
  {
    OneLineEach(items[0]);
  }

  /** A list is empty exactly when no item belongs on it. */
  lemma {:induction false} EmptyLists(items: seq<WorkItem>)
    ensures OtherLines(items) == [] <==> forall i :: 0 <= i < |items| ==> !IsOther(items[i])
    ensures ClosedLines(items) == [] <==> forall i :: 0 <= i < |items| ==> !IsClosed(items[i])
  {
    if items != [] {
      EmptyLists(items[1..]);
      assert forall i :: 0 <= i < |items| - 1 ==> items[1..][i] == items[i + 1];
      assert forall i :: 0 < i < |items| ==> items[i] == items[1..][i - 1];
    }
  }

  // ----- Which sections there are

  function HeadingsOf(sections: seq<BriefSection>): seq<string> {
    seq(|sections|, i requires 0 <= i < |sections| => sections[i].heading)
  }

  /** One heading for each thread with feedback of the team, in order. */
  ghost function FeedbackHeadings(threads: seq<WorkThread>): seq<string> {
    if threads == [] then []
    else
      (if exists i :: 0 <= i < |threads[0].comments| && IsFeedback(threads[0].comments[i])
       then ["Latest team feedback for " + threads[0].item.key] else [])
      + FeedbackHeadings(threads[1..])
  }

  lemma {:induction false} FeedbackSectionsAre(threads: seq<WorkThread>)
    ensures HeadingsOf(FeedbackSections(threads)) == FeedbackHeadings(threads)
  {
    if threads != [] {
      FeedbackSectionsAre(threads[1..]);
      FeedbackIsTheLatest(threads[0].comments);
      hide LatestFeedback, Fenced, Clip, TruncateChars, IsFeedback;
    }
  }

  lemma JoinOfLines(lines: seq<string>)
    requires forall l :: l in lines ==> l != []
    ensures Join(lines, "\n") == [] <==> lines == []
  {
    if lines != [] {
      assert lines[0] in lines;
    }
  }

  lemma {:induction false} LinesAreVisible(items: seq<WorkItem>)
    ensures forall l :: l in OtherLines(items) || l in ClosedLines(items) ==> l != []
  {
    if items != [] {
      LinesAreVisible(items[1..]);
    }
  }

  /**
   The sections of a brief, in order: objective and cycle; the queue and the feedback on its threads, if there are any; the
   threads; then the items assigned away, the closed ones and the memories, each only if there are some.
   */
  lemma SectionsAre(input: BriefInput)
    ensures HeadingsOf(BuiltBrief(input)) ==
      ["Objective", "This cycle"] + (if |input.threads| > 0 then [QUEUE_HEADING] else [])
      + FeedbackHeadings(input.threads) + [THREADS_HEADING]
      + (if exists i :: 0 <= i < |input.items| && IsOther(input.items[i]) then [OTHERS_HEADING] else [])
      + (if exists i :: 0 <= i < |input.items| && IsClosed(input.items[i]) then [CLOSED_HEADING] else [])
      + (if |input.memories| > 0 then ["Knowledge memory (Slack Canvas; guidance, not proof)"] else [])
  {
    FeedbackSectionsAre(input.threads);
    EmptyLists(input.items);
    LinesAreVisible(input.items);
    hide OtherLines, ClosedLines, FeedbackSections, FeedbackHeadings, ThreadsSection, QueueSection, ObjectiveSection,
      CycleSection, MemoriesSection, TruncateChars, IsOther, IsClosed;
    JoinOfLines(OtherLines(input.items));
    JoinOfLines(ClosedLines(input.items));
    hide Join;
    assert HeadingsOf(BuiltBrief(input)) == HeadingsOf(Sections(input));
    HeadingsInParts(input);
  }

  lemma HeadingsInParts(input: BriefInput)
    ensures HeadingsOf(Sections(input)) ==
      ["Objective", "This cycle"] + (if |input.threads| > 0 then [QUEUE_HEADING] else [])
      + HeadingsOf(FeedbackSections(input.threads)) + [THREADS_HEADING]
      + (if Join(OtherLines(input.items), "\n") != [] then [OTHERS_HEADING] else [])
      + (if Join(ClosedLines(input.items), "\n") != [] then [CLOSED_HEADING] else [])
      + (if |input.memories| > 0 then ["Knowledge memory (Slack Canvas; guidance, not proof)"] else [])
  {
    hide OtherLines, ClosedLines, FeedbackSections, ThreadsSection, QueueSection, ObjectiveSection, CycleSection,
      MemoriesSection, Join;
  }

  // ----- The short texts

  /** A memory is shown with its evidence and its scope, and with its source if it has one. */
  lemma MemoryShows(m: Memory)
    ensures var line := "- fact: " + Trim(m.fact) + " | evidence: " + Trim(m.evidence) + " | scope: " + Trim(m.scope);
      MemoryLine(m) == match m.sourceUrl case Some(url) => line + " | source: " + url case None => line
  {
    hide Trim;
  }

  /** The first two sections tell the objective, the run and its limits. */
  lemma ObjectiveAndCycleShow(input: BriefInput)
    ensures ObjectiveSection(input.objective)
      == "- id: " + input.objective.id + "\n- description: " + Trim(input.objective.description) + "\n"
    ensures "- run id: " + input.runId + "\n- now: " + input.now + "\n- deadline: " + input.deadline + "\n- budget: "
      + Decimal(input.objective.maxToolCalls) + " tool calls, " + Decimal(input.objective.maxTokens)
      + " LLM tokens\n- scope: one work item" <= CycleSection(input)
  {
    hide Trim, Decimal, NoteLines;
  }
}
