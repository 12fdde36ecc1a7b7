/** The section of threads fits its budget and shows as much as it can, in order. */
module BriefBudget {
  import opened Wrappers
  import opened Text
  import opened Render
  import opened Brief

  /** With `j` comments the rendering fits, and with more of them, up to the limit, it does not. */
  ghost predicate BestFit(t: WorkThread, room: nat, j: nat) {
    && j <= 20 && |RenderedThread(t, j)| <= room
    && forall i :: j < i <= 20 ==> |RenderedThread(t, i)| > room
  }

  ghost predicate NothingFits(t: WorkThread, room: nat) {
    forall i: nat :: i <= 20 ==> |RenderedThread(t, i)| > room
  }

  /** The text shows the largest number of the latest comments that fits. */
  ghost predicate ShowsMost(t: WorkThread, room: nat, text: string) {
    exists j: nat :: BestFit(t, room, j) && text == RenderedThread(t, j)
  }

  lemma {:induction false} FittingIsLargest(t: WorkThread, room: nat, k: nat) returns (j: nat)
    ensures match FittingThread(t, room, k)
      case Some(text) =>
        && j <= k && text == RenderedThread(t, j) && |text| <= room
        && forall i :: j < i <= k ==> |RenderedThread(t, i)| > room
      case None => forall i: nat :: i <= k ==> |RenderedThread(t, i)| > room
  {
    hide RenderedThread;
    j := k;
    if |RenderedThread(t, k)| > room && k > 0 {
      j := FittingIsLargest(t, room, k - 1);
    }
  }

  lemma WithinShowsMost(t: WorkThread, room: nat)
    ensures match RenderedWithin(t, room)
      case Some(text) => ShowsMost(t, room, text) && |text| <= room
      case None => NothingFits(t, room)
  {
    hide RenderedThread, FittingThread;
    var j := FittingIsLargest(t, room, MAX_COMMENTS_PER_ITEM);
    if RenderedWithin(t, room).Some? {
      assert BestFit(t, room, j);
    }
  }

  lemma RenderingsAreNotEmpty(t: WorkThread, k: nat)
    ensures RenderedThread(t, k) != []
  {
    hide CommentsHeading, CommentEntries, OmittedNote, Decimal;
    assert |ThreadHeader(t.item)| > 0 by {
      hide Clip;
    }
    hide ThreadHeader;
  }

  lemma ShownIsNotEmpty(t: WorkThread, room: nat, text: string)
    requires ShowsMost(t, room, text)
    ensures text != []
  {
    hide RenderedThread;
    var j: nat :| BestFit(t, room, j) && text == RenderedThread(t, j);
    RenderingsAreNotEmpty(t, j);
  }

  lemma {:induction false} JoinOneMore(parts: seq<string>, part: string, sep: string)
    ensures Join(parts + [part], sep) == if parts == [] then part else Join(parts, sep) + sep + part
  {
    if |parts| == 0 {
      assert parts + [part] == [part];
    } else {
      JoinOneMore(parts[1..], part, sep);
      assert (parts + [part])[1..] == parts[1..] + [part];
    }
  }

  // ----- The section in plain numbers

  /** What stands between two threads. */
  const RULE: string := "\n---\n"

  /** How much of the 16,000 characters is left for the next thread, after a rule if it is not the first. */
  function RoomLeft(body: string, shown: nat): nat {
    var used := |body| + if shown == 0 then 0 else 5;
    if used <= 16_000 then 16_000 - used else 0
  }

  /** The note on the threads that do not fit. */
  function LeftOutNote(n: nat): string {
    "\n(" + Decimal(n) + " more item(s) omitted to fit the brief)"
  }

  /** What each text after the first is, given those before it. */
  ghost predicate FollowsInRoom(threads: seq<WorkThread>, texts: seq<string>, i: nat)
    requires i < |texts| <= |threads|
  {
    ShowsMost(threads[i], RoomLeft(Join(texts[..i], RULE), i), texts[i])
  }

  ghost predicate Filled(threads: seq<WorkThread>, texts: seq<string>) {
    |texts| <= |threads| && forall i: nat :: 0 < i < |texts| ==> FollowsInRoom(threads, texts, i)
  }

  /** Either every thread is shown, or the next one does not fit even without comments, and a note says how many follow. */
  ghost predicate StopsRightly(threads: seq<WorkThread>, texts: seq<string>, section: string) {
    var body := Join(texts, RULE);
    |texts| <= |threads| &&
    if |texts| == |threads| then section == body
    else NothingFits(threads[|texts|], RoomLeft(body, |texts|)) && section == body + LeftOutNote(|threads| - |texts|)
  }

  lemma {:induction false} RestIsFilled(threads: seq<WorkThread>, texts: seq<string>) returns (all: seq<string>)
    requires 0 < |texts| <= |threads| && Filled(threads, texts)
    ensures texts <= all && Filled(threads, all)
    ensures StopsRightly(threads, all, ThreadsFrom(threads, |texts|, Join(texts, RULE)))
    ensures |Join(texts, RULE)| <= MAX_SECTION_CHARS ==> |Join(all, RULE)| <= MAX_SECTION_CHARS
    decreases |threads| - |texts|
  {
    hide RenderedThread, FittingThread, RenderedWithin, ShowsMost, NothingFits, Join;
    var body := Join(texts, RULE);
    var n := |texts|;
    all := texts;
    if n < |threads| {
      WithinShowsMost(threads[n], RoomLeft(body, n));
      var text := RenderedWithin(threads[n], RoomLeft(body, n));
      if text.Some? {
        var more := texts + [text.value];
        OneMoreIsFilled(threads, texts, text.value);
        JoinOneMore(texts, text.value, RULE);
        ShownIsNotEmpty(threads[n], RoomLeft(body, n), text.value);
        all := RestIsFilled(threads, more);
      }
    }
  }

  lemma OneMoreIsFilled(threads: seq<WorkThread>, texts: seq<string>, text: string)
    requires 0 < |texts| < |threads| && Filled(threads, texts)
    requires ShowsMost(threads[|texts|], RoomLeft(Join(texts, RULE), |texts|), text)
    ensures Filled(threads, texts + [text])
  {
    hide ShowsMost, Join, RoomLeft;
    var more := texts + [text];
    forall i: nat | 0 < i < |more| ensures FollowsInRoom(threads, more, i) {
      assert more[..i] == texts[..i];
      if i < |texts| {
        assert FollowsInRoom(threads, texts, i);
      } else {
        assert texts[..i] == texts;
      }
    }
  }

  /**
   The section shows the threads from the first one on, each with the most comments that fit the room left, until one
   does not fit at all. If the first thread fits without comments, the threads shown take at most the budget.
   */
  lemma ThreadsFillTheBudget(threads: seq<WorkThread>) returns (texts: seq<string>)
    requires threads != []
    ensures texts != [] && Filled(threads, texts) && StopsRightly(threads, texts, ThreadsSection(threads))
    ensures if NothingFits(threads[0], 16_000) then texts[0] == RenderedThread(threads[0], 0)
            else ShowsMost(threads[0], 16_000, texts[0])
    ensures |RenderedThread(threads[0], 0)| <= 16_000 ==> |Join(texts, RULE)| <= 16_000
  {
    FirstFits(threads[0]);
    hide RenderedThread, FittingThread, ShowsMost, NothingFits;
    assert RoomLeft("", 0) == MAX_SECTION_CHARS;
    var first := ThreadText(threads[0], "", 0).value;
    assert Join([first], RULE) == first && "" + "" + first == first;
    texts := RestIsFilled(threads, [first]);
  }

  lemma FirstFits(t: WorkThread)
    ensures var first := ThreadText(t, "", 0);
      && first.Some?
      && (if NothingFits(t, MAX_SECTION_CHARS) then first.value == RenderedThread(t, 0)
          else ShowsMost(t, MAX_SECTION_CHARS, first.value) && |first.value| <= MAX_SECTION_CHARS)
    ensures |RenderedThread(t, 0)| <= MAX_SECTION_CHARS ==> !NothingFits(t, MAX_SECTION_CHARS)
  {
    WithinShowsMost(t, MAX_SECTION_CHARS);
    hide RenderedThread, RenderedWithin;
    assert RoomLeft("", 0) == MAX_SECTION_CHARS;
    if ShowsMost(t, MAX_SECTION_CHARS, ThreadText(t, "", 0).value) {
      var j: nat :| BestFit(t, MAX_SECTION_CHARS, j) && ThreadText(t, "", 0).value == RenderedThread(t, j);
    }
  }

  // ----- The note on what is left out

  /** A text that is cut does not end with a closing parenthesis. */
  lemma CutEndsWithMark(s: string, end: string)
    requires end != [] && end[|end| - 1] == ')'
    ensures EndsWith(TruncateChars(s, MAX_SECTION_CHARS), end) <==> |s| <= MAX_SECTION_CHARS && EndsWith(s, end)
  {
    assert TRUNCATION_MARK[|TRUNCATION_MARK| - 1] == ']';
  }

  lemma NoteEnds(body: string, n: nat)
    ensures var note := LeftOutNote(n); note != [] && note[|note| - 1] == ')' && EndsWith(body + note, note)
  {
    hide Decimal;
  }

  /** Where the section of threads stands in the brief. */
  lemma SectionOfThreads(input: BriefInput) returns (at: nat)
    requires input.threads != []
    ensures at < |BuiltBrief(input)| && BuiltBrief(input)[at].heading == THREADS_HEADING
    ensures BuiltBrief(input)[at].body == TruncateChars(ThreadsSection(input.threads), MAX_SECTION_CHARS)
  {
    hide ThreadsSection, FeedbackSections, QueueSection, CycleSection, ObjectiveSection, OtherLines, ClosedLines,
      MemoriesSection, Join, TruncateChars, UnlessEmpty;
    at := 3 + |FeedbackSections(input.threads)|;
    assert Sections(input)[at] == BriefSection(THREADS_HEADING, ThreadsSection(input.threads));
  }

  /**
   The note is written after the budget is spent, and the whole section is cut afterwards: the reader of the brief sees
   how many threads are left out if and only if the threads shown leave room for the note.
   */
  lemma NoteSurvivesExactlyWhen(input: BriefInput) returns (texts: seq<string>, at: nat)
    requires input.threads != []
    ensures texts != [] && Filled(input.threads, texts)
    ensures StopsRightly(input.threads, texts, ThreadsSection(input.threads))
    ensures if NothingFits(input.threads[0], 16_000) then texts[0] == RenderedThread(input.threads[0], 0)
            else ShowsMost(input.threads[0], 16_000, texts[0])
    ensures at < |BuiltBrief(input)| && BuiltBrief(input)[at].heading == THREADS_HEADING
    ensures |texts| < |input.threads| ==>
      var note := LeftOutNote(|input.threads| - |texts|);
      EndsWith(BuiltBrief(input)[at].body, note) <==> |Join(texts, RULE)| + |note| <= 16_000
  {
    hide ThreadsSection, BuiltBrief, Filled, Join, TruncateChars, EndsWith, NothingFits, LeftOutNote, ShowsMost,
      RenderedThread;
    texts := ThreadsFillTheBudget(input.threads);
    at := SectionOfThreads(input);
    if |texts| < |input.threads| {
      var body, n := Join(texts, RULE), |input.threads| - |texts|;
      NoteEnds(body, n);
      CutEndsWithMark(body + LeftOutNote(n), LeftOutNote(n));
    }
  }

  /** A thread without comments whose title makes its bare rendering as long as the budget. */
  function LongThread(): WorkThread {
    WorkThread(WorkItem("k", seq(15_961, i => 't'), "", "", true, Open, true, false, ""), [])
  }

  lemma LongThreadFillsTheBudget(k: nat)
    ensures |RenderedThread(LongThread(), k)| == MAX_SECTION_CHARS
  {
    assert VisibleOf([]) == [];
    assert Clip("", MAX_DESCRIPTION_CHARS) == "" by {
      assert Trim("") == "";
    }
    hide Clip, Decimal, LastOwn;
    assert |ThreadHeader(LongThread().item)| == MAX_SECTION_CHARS;
  }

  lemma LaterTextsFit(threads: seq<WorkThread>, texts: seq<string>, i: nat)
    requires Filled(threads, texts) && 0 < i < |texts|
    ensures 0 < |texts[i]| <= RoomLeft(Join(texts[..i], RULE), i)
  {
    hide RenderedThread, Join, RoomLeft;
    assert FollowsInRoom(threads, texts, i);
    ShownIsNotEmpty(threads[i], RoomLeft(Join(texts[..i], RULE), i), texts[i]);
  }

  lemma LongThreadsAreLong(threads: seq<WorkThread>, texts: seq<string>)
    requires threads == [LongThread(), LongThread()] && texts != [] && Filled(threads, texts)
    requires if NothingFits(threads[0], MAX_SECTION_CHARS) then texts[0] == RenderedThread(threads[0], 0)
             else ShowsMost(threads[0], MAX_SECTION_CHARS, texts[0])
    ensures |texts| == 1 && |Join(texts, RULE)| == MAX_SECTION_CHARS
  {
    hide RenderedThread, LongThread, Join, Filled;
    forall k: nat ensures |RenderedThread(LongThread(), k)| == MAX_SECTION_CHARS {
      LongThreadFillsTheBudget(k);
    }
    assert |texts[0]| == MAX_SECTION_CHARS;
    JoinOneMore([], texts[0], RULE);
    assert [] + [texts[0]] == [texts[0]] == texts[..1];
    assert |texts| == 1 ==> texts == texts[..1];
    if |texts| > 1 {
      LaterTextsFit(threads, texts, 1);
    }
  }

  /** With two such threads the second is left out, and the note that says so is cut off. */
  lemma TheNoteCanBeCut(input: BriefInput) returns (at: nat)
    requires input.threads == [LongThread(), LongThread()]
    ensures at < |BuiltBrief(input)| && BuiltBrief(input)[at].heading == THREADS_HEADING
    ensures !EndsWith(BuiltBrief(input)[at].body, LeftOutNote(1))
  {
    hide LeftOutNote, EndsWith, BuiltBrief, RenderedThread, ThreadsSection, Filled, Join, NothingFits, ShowsMost, LongThread;
    var texts;
    texts, at := NoteSurvivesExactlyWhen(input);
    LongThreadsAreLong(input.threads, texts);
    NoteEnds("", 1);
  }

  // ----- Visible comments

  /** A comment of Reili's own, or of a trusted author. */
  predicate OwnOrTrusted(c: Comment) {
    c.byReili || c.authorTrusted
  }

  /** An entry is such a comment at its place in the thread. */
  predicate IsEntryOf(entry: (nat, Comment), comments: seq<Comment>) {
    entry.0 < |comments| && entry.1 == comments[entry.0] && OwnOrTrusted(entry.1)
  }

  /** The entries are exactly the visible comments, in the order of the thread. */
  lemma {:induction false} VisibleAreInOrder(comments: seq<Comment>)
    ensures var v := VisibleOf(comments);
      && (forall e :: e in v <==> IsEntryOf(e, comments))
      && (forall j, k :: 0 <= j < k < |v| ==> v[j].0 < v[k].0)
  {
    if comments != [] {
      var last := |comments| - 1;
      var front := comments[..last];
      VisibleAreInOrder(front);
      var v := VisibleOf(front);
      assert forall k :: 0 <= k < |v| ==> v[k] in v && IsEntryOf(v[k], front);
      assert forall e: (nat, Comment) :: IsEntryOf(e, comments) <==>
        IsEntryOf(e, front) || (OwnOrTrusted(comments[last]) && e == (last, comments[last]));
    }
  }
}
