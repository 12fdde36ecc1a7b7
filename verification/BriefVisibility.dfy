/** What an author outside the team writes does not reach the brief. */
module BriefVisibility {
  import opened Wrappers
  import opened Text
  import opened Render
  import opened Brief

  /**
   The same comments, as far as the agent may see: those by Reili or by the team are the same, of the others only that
   they are there.
   */
  ghost predicate SameToTheTeam(a: seq<Comment>, b: seq<Comment>) {
    |a| == |b| && forall i :: 0 <= i < |a| ==> Alike(a[i], b[i])
  }

  ghost predicate Alike(a: Comment, b: Comment) {
    a.byReili == b.byReili && a.authorTrusted == b.authorTrusted && (IsVisible(a) ==> a == b)
  }

  ghost predicate SameThread(a: WorkThread, b: WorkThread) {
    a.item == b.item && SameToTheTeam(a.comments, b.comments)
  }

  ghost predicate SameThreads(a: seq<WorkThread>, b: seq<WorkThread>) {
    |a| == |b| && forall i :: 0 <= i < |a| ==> SameThread(a[i], b[i])
  }

  lemma FrontsAlike(a: seq<Comment>, b: seq<Comment>)
    requires SameToTheTeam(a, b) && a != []
    ensures SameToTheTeam(a[..|a| - 1], b[..|b| - 1])
  {
    hide Alike;
  }

  lemma {:induction false} LastOwnAlike(a: seq<Comment>, b: seq<Comment>)
    requires SameToTheTeam(a, b)
    ensures LastOwn(a) == LastOwn(b)
  {
    if a != [] {
      var last := |a| - 1;
      assert Alike(a[last], b[last]);
      FrontsAlike(a, b);
      hide SameToTheTeam;
      LastOwnAlike(a[..last], b[..last]);
    }
  }

  lemma {:induction false} VisibleAlike(a: seq<Comment>, b: seq<Comment>)
    requires SameToTheTeam(a, b)
    ensures VisibleOf(a) == VisibleOf(b)
  {
    if a != [] {
      var last := |a| - 1;
      assert Alike(a[last], b[last]);
      FrontsAlike(a, b);
      hide SameToTheTeam;
      VisibleAlike(a[..last], b[..last]);
    }
  }

  lemma {:induction false} LatestAlike(a: seq<Comment>, b: seq<Comment>)
    requires SameToTheTeam(a, b)
    ensures LatestFeedback(a) == LatestFeedback(b)
  {
    if a != [] {
      var last := |a| - 1;
      assert Alike(a[last], b[last]);
      FrontsAlike(a, b);
      hide SameToTheTeam;
      LatestAlike(a[..last], b[..last]);
    }
  }

  lemma {:induction false} NewAlike(a: seq<Comment>, b: seq<Comment>, lastOwn: Option<nat>)
    requires SameToTheTeam(a, b)
    ensures CountNew(a, lastOwn) == CountNew(b, lastOwn)
  {
    if a != [] {
      var last := |a| - 1;
      assert Alike(a[last], b[last]);
      FrontsAlike(a, b);
      hide SameToTheTeam;
      NewAlike(a[..last], b[..last], lastOwn);
    }
  }

  lemma CommentsAlike(a: seq<Comment>, b: seq<Comment>, lastOwn: Option<nat>)
    requires SameToTheTeam(a, b)
    ensures LastOwn(a) == LastOwn(b) && VisibleOf(a) == VisibleOf(b) && LatestFeedback(a) == LatestFeedback(b)
    ensures CountNew(a, lastOwn) == CountNew(b, lastOwn)
  {
    hide SameToTheTeam, LastOwn, VisibleOf, LatestFeedback, CountNew;
    LastOwnAlike(a, b);
    VisibleAlike(a, b);
    LatestAlike(a, b);
    NewAlike(a, b, lastOwn);
  }

  /** What is read from the thread: the queue line, the feedback and every rendering of it. */
  lemma ThreadsAlike(a: WorkThread, b: WorkThread, maxComments: nat)
    requires SameThread(a, b)
    ensures QueueLine(a) == QueueLine(b)
    ensures FeedbackSection(a) == FeedbackSection(b)
    ensures RenderedThread(a, maxComments) == RenderedThread(b, maxComments)
  {
    CommentsAlike(a.comments, b.comments, LastOwn(a.comments));
    assert LastRecord(a) == LastRecord(b) by {
      var own := LastOwn(a.comments);
      if own.Some? {
        assert Alike(a.comments[own.value], b.comments[own.value]);
      }
    }
    QueueLineReads(a, b);
    RenderingReads(a, b, maxComments);
    hide QueueLine, RenderedThread, Fenced, Clip, TruncateChars;
  }

  lemma QueueLineReads(a: WorkThread, b: WorkThread)
    requires a.item == b.item && LastRecord(a) == LastRecord(b)
    requires CountNew(a.comments, LastOwn(a.comments)) == CountNew(b.comments, LastOwn(b.comments))
    ensures QueueLine(a) == QueueLine(b)
  {
    hide LastRecord, CountNew, LastOwn, RecordedNextStep, Decimal, TruncateChars;
  }

  lemma RenderingReads(a: WorkThread, b: WorkThread, maxComments: nat)
    requires a.item == b.item && |a.comments| == |b.comments|
    requires VisibleOf(a.comments) == VisibleOf(b.comments) && LastOwn(a.comments) == LastOwn(b.comments)
    ensures RenderedThread(a, maxComments) == RenderedThread(b, maxComments)
  {
    hide VisibleOf, LastOwn, CommentEntries, CommentsHeading, OmittedNote, ThreadHeader;
  }

  lemma {:induction false} FittingAlike(a: WorkThread, b: WorkThread, maxChars: nat, k: nat)
    requires SameThread(a, b)
    ensures FittingThread(a, maxChars, k) == FittingThread(b, maxChars, k)
  {
    hide RenderedThread, QueueLine, FeedbackSection, SameThread;
    ThreadsAlike(a, b, k);
    if k > 0 {
      FittingAlike(a, b, maxChars, k - 1);
    }
  }

  lemma TextAlike(a: WorkThread, b: WorkThread, body: string, shown: nat)
    requires SameThread(a, b)
    ensures ThreadText(a, body, shown) == ThreadText(b, body, shown)
  {
    hide RenderedThread, QueueLine, FeedbackSection, SameThread, FittingThread, Room;
    FittingAlike(a, b, Room(body, shown), MAX_COMMENTS_PER_ITEM);
    ThreadsAlike(a, b, 0);
  }

  lemma OneThread(threads: seq<WorkThread>, shown: nat, body: string)
    requires shown < |threads|
    ensures ThreadsFrom(threads, shown, body) ==
      match ThreadText(threads[shown], body, shown)
      case None => body + OmissionNote(|threads| - shown)
      case Some(text) => ThreadsFrom(threads, shown + 1, Appended(body, shown, text))
  {
    hide ThreadText, OmissionNote, Appended;
  }

  lemma {:induction false} ThreadsFromAlike(a: seq<WorkThread>, b: seq<WorkThread>, shown: nat, body: string)
    requires SameThreads(a, b) && shown <= |a|
    ensures ThreadsFrom(a, shown, body) == ThreadsFrom(b, shown, body)
    decreases |a| - shown
  {
    hide SameThread, ThreadText, OmissionNote, Appended;
    if shown < |a| {
      hide ThreadsFrom;
      OneThread(a, shown, body);
      OneThread(b, shown, body);
      TextAlike(a[shown], b[shown], body, shown);
      var text := ThreadText(a[shown], body, shown);
      if text.Some? {
        ThreadsFromAlike(a, b, shown + 1, Appended(body, shown, text.value));
      }
    }
  }

  lemma {:induction false} FeedbackAlike(a: seq<WorkThread>, b: seq<WorkThread>)
    requires SameThreads(a, b)
    ensures FeedbackSections(a) == FeedbackSections(b)
  {
    if a != [] {
      hide RenderedThread, QueueLine, FeedbackSection, SameThread;
      ThreadsAlike(a[0], b[0], 0);
      FeedbackAlike(a[1..], b[1..]);
    }
  }

  lemma QueueAlike(a: seq<WorkThread>, b: seq<WorkThread>)
    requires SameThreads(a, b)
    ensures QueueSection(a) == QueueSection(b)
  {
    hide RenderedThread, QueueLine, FeedbackSection, SameThread, Join;
    forall i | 0 <= i < |a| ensures QueueLine(a[i]) == QueueLine(b[i]) {
      ThreadsAlike(a[i], b[i], 0);
    }
    assert seq(|a|, i requires 0 <= i < |a| => QueueLine(a[i])) == seq(|b|, i requires 0 <= i < |b| => QueueLine(b[i]));
  }

  /** Two runs that differ only in what authors outside the team wrote have the same brief. */
  lemma OutsidersDoNotReachTheBrief(input: BriefInput, other: seq<WorkThread>)
    requires SameThreads(input.threads, other)
    ensures BuiltBrief(input.(threads := other)) == BuiltBrief(input)
  {
    QueueAlike(input.threads, other);
    FeedbackAlike(input.threads, other);
    if input.threads != [] {
      ThreadsFromAlike(input.threads, other, 0, "");
    }
    hide QueueSection, FeedbackSections, ThreadsFrom, SameThreads, ObjectiveSection, OtherLines, ClosedLines,
      MemoriesSection, Shortened, Join;
    assert CycleSection(input.(threads := other)) == CycleSection(input);
  }
}
