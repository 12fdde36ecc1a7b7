/** What a rendered thread shows: its latest visible comments, each as an entry of its own. */
module BriefThreads {
  import opened Wrappers
  import opened Text
  import opened Render
  import opened Brief
  import opened BriefBudget
  import opened BriefQueue

  /** The places of the visible comments from `i` on. */
  ghost function VisibleFrom(comments: seq<Comment>, i: nat): set<nat> {
    set j: nat | i <= j < |comments| && OwnOrTrusted(comments[j])
  }

  /** The entry of the comment at `i`; it is marked when it waits for Reili. */
  ghost function EntryAt(t: WorkThread, i: nat): string
    requires i < |t.comments|
  {
    "- " + (if AwaitsReili(t.comments, i) then "NEW " else "")
    + (if t.comments[i].byReili then "you" else "@" + t.comments[i].author)
    + " (" + t.comments[i].createdAt + "):\n" + Fenced(Clip(t.comments[i].body, MAX_COMMENT_CHARS)) + "\n"
  }

  ghost function EntriesAt(t: WorkThread, shown: seq<nat>): string
    requires forall a :: 0 <= a < |shown| ==> shown[a] < |t.comments|
  {
    if shown == [] then ""
    else EntriesAt(t, shown[..|shown| - 1]) + EntryAt(t, shown[|shown| - 1])
  }

  function Places(entries: seq<(nat, Comment)>): seq<nat> {
    seq(|entries|, k requires 0 <= k < |entries| => entries[k].0)
  }

  lemma {:induction false} EntriesAreThoseAt(t: WorkThread, entries: seq<(nat, Comment)>)
    requires forall e :: e in entries ==> IsEntryOf(e, t.comments)
    ensures forall a :: 0 <= a < |entries| ==> Places(entries)[a] < |t.comments|
    ensures CommentEntries(entries, LastOwn(t.comments)) == EntriesAt(t, Places(entries))
  {
    hide OwnOrTrusted, LastOwn, Fenced, Clip;
    forall a | 0 <= a < |entries| ensures Places(entries)[a] < |t.comments| {
      assert entries[a] in entries;
    }
    if entries != [] {
      var front, last := entries[..|entries| - 1], entries[|entries| - 1];
      assert forall e :: e in front ==> e in entries;
      assert last in entries;
      EntriesAreThoseAt(t, front);
      assert Places(entries)[..|entries| - 1] == Places(front);
      NewIsSinceTheLastOwn(t.comments, last.0);
      hide AwaitsReili, IsNewTeamComment;
      assert CommentEntry(last.1, last.0, LastOwn(t.comments)) == EntryAt(t, last.0);
    }
  }

  /** From the `a`-th visible comment on, all but the `a` before it are left. */
  lemma {:induction false} VisibleFromIsTheRest(comments: seq<Comment>, a: nat)
    requires a < |VisibleOf(comments)|
    ensures |VisibleFrom(comments, VisibleOf(comments)[a].0)| == |VisibleOf(comments)| - a
    decreases |VisibleOf(comments)| - a
  {
    var v := VisibleOf(comments);
    VisibleAreInOrder(comments);
    hide VisibleOf, OwnOrTrusted;
    var i := v[a].0;
    assert IsEntryOf(v[a], comments);
    if a == |v| - 1 {
      forall j | j in VisibleFrom(comments, i) ensures j == i {
        assert IsEntryOf((j, comments[j]), comments);
        var k :| 0 <= k < |v| && v[k] == (j, comments[j]);
      }
      assert VisibleFrom(comments, i) == {i};
    } else {
      VisibleFromIsTheRest(comments, a + 1);
      var next := v[a + 1].0;
      forall j | j in VisibleFrom(comments, i) && j != i ensures j >= next {
        assert IsEntryOf((j, comments[j]), comments);
        var k :| 0 <= k < |v| && v[k] == (j, comments[j]);
      }
      assert VisibleFrom(comments, i) == {i} + VisibleFrom(comments, next);
    }
  }

  lemma AllVisible(comments: seq<Comment>)
    ensures |VisibleFrom(comments, 0)| == |VisibleOf(comments)|
  {
    var v := VisibleOf(comments);
    VisibleAreInOrder(comments);
    hide VisibleOf, OwnOrTrusted;
    if v == [] {
      assert forall j: nat :: j < |comments| && OwnOrTrusted(comments[j]) ==> IsEntryOf((j, comments[j]), comments);
      assert VisibleFrom(comments, 0) == {};
    } else {
      VisibleFromIsTheRest(comments, 0);
      forall j | j in VisibleFrom(comments, 0) ensures j >= v[0].0 {
        assert IsEntryOf((j, comments[j]), comments);
        var k :| 0 <= k < |v| && v[k] == (j, comments[j]);
      }
      assert VisibleFrom(comments, 0) == VisibleFrom(comments, v[0].0);
    }
  }

  lemma PlacesFrom(v: seq<(nat, Comment)>, earlier: nat, i: nat)
    requires earlier <= |v|
    ensures i in Places(v[earlier..]) <==> exists a :: earlier <= a < |v| && v[a].0 == i
  {
    if i in Places(v[earlier..]) {
      var b :| 0 <= b < |v| - earlier && Places(v[earlier..])[b] == i;
      assert v[earlier + b].0 == i;
    }
    if exists a :: earlier <= a < |v| && v[a].0 == i {
      var a :| earlier <= a < |v| && v[a].0 == i;
      assert Places(v[earlier..])[a - earlier] == i;
    }
  }

  /** The places of the latest `k` visible comments. */
  function LatestPlaces(comments: seq<Comment>, k: nat): seq<nat> {
    var v := VisibleOf(comments);
    Places(v[SaturatingSub(|v|, k)..])
  }

  /** Where a visible comment stands among the visible ones, and how many are left from there. */
  lemma PlaceOf(comments: seq<Comment>, i: nat) returns (a: nat)
    requires i < |comments| && OwnOrTrusted(comments[i])
    ensures a < |VisibleOf(comments)| && VisibleOf(comments)[a].0 == i
    ensures forall b :: 0 <= b < |VisibleOf(comments)| && VisibleOf(comments)[b].0 == i ==> b == a
    ensures |VisibleFrom(comments, i)| == |VisibleOf(comments)| - a
  {
    VisibleAreInOrder(comments);
    hide VisibleOf, OwnOrTrusted, VisibleFrom;
    assert IsEntryOf((i, comments[i]), comments);
    a :| 0 <= a < |VisibleOf(comments)| && VisibleOf(comments)[a] == (i, comments[i]);
    VisibleFromIsTheRest(comments, a);
  }

  lemma VisibleHasPlace(comments: seq<Comment>, a: nat)
    requires a < |VisibleOf(comments)|
    ensures var i := VisibleOf(comments)[a].0; i < |comments| && OwnOrTrusted(comments[i])
  {
    VisibleAreInOrder(comments);
    hide VisibleOf, OwnOrTrusted;
    assert IsEntryOf(VisibleOf(comments)[a], comments);
  }

  lemma PlaceIsShown(comments: seq<Comment>, k: nat, i: nat)
    ensures i in LatestPlaces(comments, k) <==>
      i < |comments| && OwnOrTrusted(comments[i]) && |VisibleFrom(comments, i)| <= k
  {
    var v := VisibleOf(comments);
    var earlier := SaturatingSub(|v|, k);
    assert LatestPlaces(comments, k) == Places(v[earlier..]);
    hide VisibleOf, OwnOrTrusted, VisibleFrom, Places, LatestPlaces;
    PlacesFrom(v, earlier, i);
    if exists a :: earlier <= a < |v| && v[a].0 == i {
      var a :| earlier <= a < |v| && v[a].0 == i;
      VisibleHasPlace(comments, a);
    }
    if i < |comments| && OwnOrTrusted(comments[i]) {
      var a := PlaceOf(comments, i);
    }
  }

  lemma RenderedParts(t: WorkThread, k: nat)
    ensures var v := VisibleOf(t.comments);
      RenderedThread(t, k)
      == ThreadHeader(t.item) + CommentsHeading(|v|, if |v| > k then |v| - k else 0)
         + CommentEntries(v[SaturatingSub(|v|, k)..], LastOwn(t.comments)) + OmittedNote(|t.comments| - |v|)
  {
    hide VisibleOf, ThreadHeader, CommentsHeading, OmittedNote, CommentEntries, LastOwn;
  }

  lemma LatestPlacesAre(comments: seq<Comment>, k: nat)
    ensures var shown := LatestPlaces(comments, k);
      && (forall a, b :: 0 <= a < b < |shown| ==> shown[a] < shown[b])
      && (forall a :: 0 <= a < |shown| ==> shown[a] < |comments|)
  {
    var v := VisibleOf(comments);
    VisibleAreInOrder(comments);
    assert forall a :: 0 <= a < |v| ==> v[a] in v && IsEntryOf(v[a], comments);
    hide VisibleOf, OwnOrTrusted;
  }

  lemma LatestEntries(t: WorkThread, k: nat)
    requires forall a :: 0 <= a < |LatestPlaces(t.comments, k)| ==> LatestPlaces(t.comments, k)[a] < |t.comments|
    ensures var v := VisibleOf(t.comments);
      CommentEntries(v[SaturatingSub(|v|, k)..], LastOwn(t.comments)) == EntriesAt(t, LatestPlaces(t.comments, k))
  {
    var v := VisibleOf(t.comments);
    VisibleAreInOrder(t.comments);
    hide VisibleOf, OwnOrTrusted, EntriesAt, CommentEntries;
    forall e | e in v[SaturatingSub(|v|, k)..] ensures IsEntryOf(e, t.comments) {
      assert e in v;
    }
    EntriesAreThoseAt(t, v[SaturatingSub(|v|, k)..]);
  }

  /** The first lines of a thread. */
  function ThreadTop(item: WorkItem): string {
    item.key + (if item.needsDecision then " (waiting for a team decision)" else "") + "\ntitle: " + item.title
    + "\nopened by: " + (if item.createdByReili then "you" else "@" + item.author) + "\ndescription:\n"
    + Clip(item.body, 1_500) + "\n"
  }

  /** What stands before the comments, and after them. */
  function CommentsTop(visible: nat, left: nat): string {
    (if visible == 0 then "" else "comments (oldest first):\n")
    + (if left == 0 then "" else "(" + Decimal(left) + " earlier comment(s) not shown)\n")
  }

  function CommentsEnd(others: nat): string {
    if others == 0 then "" else "(" + Decimal(others) + " comment(s) from authors outside the team omitted)\n"
  }

  lemma ThreadTexts(item: WorkItem, visible: nat, left: nat, others: nat)
    ensures ThreadHeader(item) == ThreadTop(item) && CommentsHeading(visible, left) == CommentsTop(visible, left)
    ensures OmittedNote(others) == CommentsEnd(others)
  {
    hide Clip, Decimal;
  }

  /**
   With room for `k` comments the thread shows exactly the visible comments that no `k` visible ones follow, in order, and
   says how many visible ones it leaves out before them and how many others there are.
   */
  lemma ThreadShowsTheLatest(t: WorkThread, k: nat) returns (shown: seq<nat>)
    ensures forall a, b :: 0 <= a < b < |shown| ==> shown[a] < shown[b]
    ensures forall a :: 0 <= a < |shown| ==> shown[a] < |t.comments|
    ensures forall i: nat :: i in shown <==>
      i < |t.comments| && OwnOrTrusted(t.comments[i]) && |VisibleFrom(t.comments, i)| <= k
    ensures var visible := |VisibleFrom(t.comments, 0)|;
      && visible <= |t.comments|
      && RenderedThread(t, k)
         == ThreadTop(t.item) + CommentsTop(visible, if visible > k then visible - k else 0) + EntriesAt(t, shown)
            + CommentsEnd(|t.comments| - visible)
  {
    hide VisibleOf, OwnOrTrusted, VisibleFrom, ThreadHeader, CommentsHeading, OmittedNote, RenderedThread, CommentEntries,
      EntriesAt, LatestPlaces, ThreadTop, CommentsTop, CommentsEnd;
    shown := LatestPlaces(t.comments, k);
    LatestPlacesAre(t.comments, k);
    AllVisible(t.comments);
    RenderedParts(t, k);
    var visible := |VisibleFrom(t.comments, 0)|;
    ThreadTexts(t.item, visible, if visible > k then visible - k else 0, |t.comments| - visible);
    LatestEntries(t, k);
    forall i: nat ensures i in shown <==>
      i < |t.comments| && OwnOrTrusted(t.comments[i]) && |VisibleFrom(t.comments, i)| <= k
    {
      PlaceIsShown(t.comments, k, i);
    }
  }
}
