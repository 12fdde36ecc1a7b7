/** What the queue line and the feedback section say about a thread. */
module BriefQueue {
  import opened Wrappers
  import opened Text
  import opened Render
  import opened NextStep
  import opened RoundTrip
  import opened Brief

  /** The index found is that of Reili's last comment. */
  lemma {:induction false} LastOwnIsLast(comments: seq<Comment>)
    ensures match LastOwn(comments)
      case Some(i) => comments[i].byReili && forall j :: i < j < |comments| ==> !comments[j].byReili
      case None => forall j :: 0 <= j < |comments| ==> !comments[j].byReili
  {
    if comments != [] && !comments[|comments| - 1].byReili {
      LastOwnIsLast(comments[..|comments| - 1]);
    }
  }

  /** A trusted comment of somebody else that Reili has not written after. */
  ghost predicate AwaitsReili(comments: seq<Comment>, i: nat) {
    && i < |comments| && comments[i].authorTrusted
    && forall j :: i <= j < |comments| ==> !comments[j].byReili
  }

  /** New are exactly the team's comments since Reili's last one. */
  lemma NewIsSinceTheLastOwn(comments: seq<Comment>, i: nat)
    requires i < |comments|
    ensures IsNewTeamComment(comments[i], i, LastOwn(comments)) <==> AwaitsReili(comments, i)
  {
    LastOwnIsLast(comments);
  }

  ghost function NewAmong(comments: seq<Comment>, lastOwn: Option<nat>): set<nat> {
    set i: nat | i < |comments| && IsNewTeamComment(comments[i], i, lastOwn)
  }

  lemma {:induction false} CountIsTheirNumber(comments: seq<Comment>, lastOwn: Option<nat>)
    ensures CountNew(comments, lastOwn) == |NewAmong(comments, lastOwn)|
  {
    hide IsNewTeamComment;
    if comments == [] {
      assert NewAmong(comments, lastOwn) == {};
    } else {
      var last := |comments| - 1;
      var front := comments[..last];
      CountIsTheirNumber(front, lastOwn);
      if IsNewTeamComment(comments[last], last, lastOwn) {
        assert NewAmong(comments, lastOwn) == NewAmong(front, lastOwn) + {last};
      } else {
        assert NewAmong(comments, lastOwn) == NewAmong(front, lastOwn);
      }
    }
  }

  /** The count on the queue line is the number of comments that wait for Reili. */
  lemma NewRepliesAreCounted(comments: seq<Comment>)
    ensures CountNew(comments, LastOwn(comments)) == |set i: nat | i < |comments| && AwaitsReili(comments, i)|
  {
    CountIsTheirNumber(comments, LastOwn(comments));
    forall i: nat | i < |comments|
      ensures IsNewTeamComment(comments[i], i, LastOwn(comments)) <==> AwaitsReili(comments, i)
    {
      NewIsSinceTheLastOwn(comments, i);
    }
    hide AwaitsReili, IsNewTeamComment, CountNew, LastOwn;
    assert NewAmong(comments, LastOwn(comments)) == set i: nat | i < |comments| && AwaitsReili(comments, i);
  }

  predicate IsFeedback(c: Comment) {
    c.authorTrusted && !c.byReili
  }

  /** The feedback shown is the latest comment of the team, wherever it stands among Reili's own. */
  lemma {:induction false} FeedbackIsTheLatest(comments: seq<Comment>)
    ensures match LatestFeedback(comments)
      case Some(c) =>
        exists i :: 0 <= i < |comments| && comments[i] == c && IsFeedback(c)
          && forall j :: i < j < |comments| ==> !IsFeedback(comments[j])
      case None => forall j :: 0 <= j < |comments| ==> !IsFeedback(comments[j])
  {
    if comments != [] && !IsFeedback(comments[|comments| - 1]) {
      var front := comments[..|comments| - 1];
      FeedbackIsTheLatest(front);
      hide IsFeedback;
      if LatestFeedback(front).Some? {
        var c := LatestFeedback(front).value;
        var i :| 0 <= i < |front| && front[i] == c && IsFeedback(c)
          && forall j :: i < j < |front| ==> !IsFeedback(front[j]);
        assert comments[i] == c && forall j :: i < j < |comments| - 1 ==> comments[j] == front[j];
      }
    }
  }

  ghost predicate IsLastOwn(comments: seq<Comment>, i: nat) {
    i < |comments| && comments[i].byReili && forall j :: i < j < |comments| ==> !comments[j].byReili
  }

  ghost predicate NoneIsOwn(comments: seq<Comment>) {
    forall j :: 0 <= j < |comments| ==> !comments[j].byReili
  }

  function StepOrNone(body: string): string {
    var step := RecordedNextStep(body);
    if step.Some? then step.value else "none recorded"
  }

  /**
   The queue line tells how many comments wait for Reili, when Reili last wrote and which step it recorded then, in its
   last comment or else in the item if it opened it.
   */
  lemma QueueLineSays(t: WorkThread) returns (state: string, at: string, step: string)
    ensures QueueLine(t)
      == "- " + t.item.key + ": " + TruncateChars(t.item.title, 200) + " | " + state + " | "
         + Decimal(|set i: nat | i < |t.comments| && AwaitsReili(t.comments, i)|)
         + " NEW team comment(s) | last worked: " + at + " | next step: " + step
    ensures forall i: nat :: IsLastOwn(t.comments, i) ==>
      at == t.comments[i].createdAt && step == StepOrNone(t.comments[i].body)
    ensures NoneIsOwn(t.comments) ==>
      if t.item.createdByReili then at == t.item.createdAt && step == StepOrNone(t.item.body)
      else at == "never" && step == "none recorded"
    ensures state == if t.item.needsDecision then "waiting for a team decision"
                     else if t.item.createdByReili || !NoneIsOwn(t.comments) then "in progress" else "not started"
  {
    NewRepliesAreCounted(t.comments);
    LastOwnIsLast(t.comments);
    hide CountNew, AwaitsReili, RecordedNextStep, Decimal, TruncateChars;
    var record := LastRecord(t);
    state := if t.item.needsDecision then "waiting for a team decision"
             else if record.Some? then "in progress" else "not started";
    at := if record.Some? then record.value.1 else "never";
    step := if record.Some? then StepOrNone(record.value.0) else "none recorded";
    hide LastOwn;
  }

  lemma QueueLineEnds(t: WorkThread, body: string, at: string, step: string)
    requires LastRecord(t) == Some((body, at)) && RecordedNextStep(body) == Some(step)
    ensures EndsWith(QueueLine(t), " | next step: " + step)
  {
    hide LastRecord, RecordedNextStep, CountNew, LastOwn, Decimal, TruncateChars;
    var line := QueueLine(t);
    assert line[|line| - |step|..] == step;
  }

  /**
   From one cycle to the next: when Reili's last comment on an item is a progress comment of its own with a next step,
   the next queue line ends with that step, whatever anybody has written on the item before or since.
   */
  lemma TheNextCycleSeesTheStep(t: WorkThread, i: nat, p: Proposal, evidence: seq<EvidenceRef>, runId: string,
                                closing: Closing)
    requires i < |t.comments| && t.comments[i].byReili
    requires forall j :: i < j < |t.comments| ==> !t.comments[j].byReili
    requires t.comments[i].body == ProgressComment(p, evidence, runId, closing)
    requires p.status != Resolved && p.nextStep.Some? && !AllWhitespace(p.nextStep.value)
    requires OneLine(runId) && CitesCleanly(p, evidence)
    ensures EndsWith(QueueLine(t), " | next step: " + SingleLine(p.nextStep.value))
  {
    LastOwnIs(t, i);
    hide ProgressComment, QueueLine, EndsWith, SingleLine, AllWhitespace, CitesCleanly, OneLine, RecordedNextStep,
      LastRecord;
    ProgressCommentKeepsTheStep(p, evidence, runId, closing);
    QueueLineEnds(t, t.comments[i].body, t.comments[i].createdAt, SingleLine(p.nextStep.value));
  }

  lemma LastOwnIs(t: WorkThread, i: nat)
    requires i < |t.comments| && t.comments[i].byReili
    requires forall j :: i < j < |t.comments| ==> !t.comments[j].byReili
    ensures LastRecord(t) == Some((t.comments[i].body, t.comments[i].createdAt))
  {
    LastOwnIsLast(t.comments);
    assert LastOwn(t.comments) == Some(i);
  }
}
