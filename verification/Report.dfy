/** The cycle's Slack message, with references to items turned into links (crates/application/src/objective/report.rs). */
module Report {
  import opened Wrappers
  import opened Text

  const MAX_REPORT_CHARS: nat := 3_500

  datatype RecordRef = RecordRef(key: string, url: string)

  datatype TouchedItem = TouchedItem(key: string, record: RecordRef)

  datatype Activity = Activity(created: seq<TouchedItem>, updated: seq<TouchedItem>)

  // ----- Finding doubled characters

  /** The first place where `c` occurs twice in a row. */
  function FindPair(s: string, c: char): (r: Option<nat>)
    ensures r.Some? ==> r.value + 1 < |s|
  {
    if |s| < 2 then None
    else if s[0] == c && s[1] == c then Some(0)
    else match FindPair(s[1..], c)
      case Some(i) => Some(i + 1)
      case None => None
  }

  predicate PairAt(s: string, c: char, i: nat) {
    i + 1 < |s| && s[i] == c && s[i + 1] == c
  }

  lemma {:induction false} FindPairIsFirst(s: string, c: char)
    ensures match FindPair(s, c)
      case Some(i) => PairAt(s, c, i) && forall j: nat :: j < i ==> !PairAt(s, c, j)
      case None => forall j: nat :: !PairAt(s, c, j)
  {
    if |s| >= 2 && !(s[0] == c && s[1] == c) {
      FindPairIsFirst(s[1..], c);
      forall j: nat | 0 < j ensures PairAt(s, c, j) == PairAt(s[1..], c, j - 1) {
      }
    }
  }

  // ----- Links

  /** Created items come before updated ones; the first with the key, of the record or the agent's own, is linked. */
  function Link(reference: string, items: seq<TouchedItem>): string {
    if items == [] then reference
    else if items[0].record.key == reference || Trim(items[0].key) == reference then
      "<" + items[0].record.url + "|" + items[0].record.key + ">"
    else Link(reference, items[1..])
  }

  /** The item answers to the reference, by its record's key or by the agent's own. */
  predicate AnswersTo(item: TouchedItem, reference: string) {
    item.record.key == reference || Trim(item.key) == reference
  }

  ghost predicate FirstAnswering(items: seq<TouchedItem>, i: nat, reference: string) {
    i < |items| && AnswersTo(items[i], reference) && forall j :: 0 <= j < i ==> !AnswersTo(items[j], reference)
  }

  /** A reference becomes the link of the first item that answers to it, created ones first, or stays as text. */
  lemma {:induction false} LinkIsToTheFirst(reference: string, items: seq<TouchedItem>)
    ensures (forall i :: 0 <= i < |items| ==> !AnswersTo(items[i], reference)) ==> Link(reference, items) == reference
    ensures forall i: nat :: FirstAnswering(items, i, reference) ==>
              Link(reference, items) == "<" + items[i].record.url + "|" + items[i].record.key + ">"
  {
    hide Trim;
    if items != [] && !AnswersTo(items[0], reference) {
      var rest := items[1..];
      LinkIsToTheFirst(reference, rest);
      assert forall i :: 0 <= i < |rest| ==> rest[i] == items[i + 1];
      forall i: nat | FirstAnswering(items, i, reference)
        ensures Link(reference, items) == "<" + items[i].record.url + "|" + items[i].record.key + ">"
      {
        assert FirstAnswering(rest, i - 1, reference);
      }
    }
  }

  /** A message at its first reference. */
  datatype Reference = Reference(before: string, key: string, rest: string)

  /** The first `[[` of a message, up to the first `]]` after it. */
  function FirstReference(message: string): (r: Option<Reference>)
    ensures r.Some? ==> |r.value.rest| < |message|
  {
    match FindPair(message, '[')
    case None => None
    case Some(start) =>
      var after := message[start + 2..];
      match FindPair(after, ']')
      case None => None
      case Some(length) => Some(Reference(message[..start], after[..length], after[length + 2..]))
  }

  /** The text with every `[[reference]]` replaced. */
  function Linked(message: string, items: seq<TouchedItem>): string
    decreases |message|
  {
    match FirstReference(message)
    case None => message
    case Some(r) => r.before + Link(Trim(r.key), items) + Linked(r.rest, items)
  }

  method LinkItems(message: string, activity: Activity) returns (text: string)
    ensures text == Linked(message, activity.created + activity.updated)
  {
    ghost var items := activity.created + activity.updated;
    text := "";
    var rest := message;
    while true
      invariant text + Linked(rest, items) == Linked(message, items)
      decreases |rest|
    {
      var start := FindPair(rest, '[');
      if start.None? {
        break;
      }
      var after := rest[start.value + 2..];
      var length := FindPair(after, ']');
      if length.None? {
        break;
      }
      LinkedStep(text, rest, items);
      text := text + rest[..start.value];
      text := text + Link(Trim(after[..length.value]), activity.created + activity.updated);
      rest := after[length.value + 2..];
    }
    text := text + rest;
  }

  lemma LinkedStep(text: string, rest: string, items: seq<TouchedItem>)
    requires FirstReference(rest).Some?
    ensures var r := FirstReference(rest).value;
      text + r.before + Link(Trim(r.key), items) + Linked(r.rest, items) == text + Linked(rest, items)
  {
    hide FirstReference, Link, Trim;
  }

  /** Nothing is posted without a message that says something. */
  method ComposeReport(message: Option<string>, activity: Activity) returns (r: Option<string>)
    ensures r.None? <==> message.None? || Trim(message.value) == []
    ensures r.Some? ==>
      r.value == TruncateChars(Linked(Trim(message.value), activity.created + activity.updated), 3_500)
  {
    if message.None? || Trim(message.value) == [] {
      return None;
    }
    var text := LinkItems(Trim(message.value), activity);
    r := Some(TruncateChars(text, MAX_REPORT_CHARS));
  }

  // ----- Messages as segments

  /** Plain text, and the reference after it. */
  datatype Segment = Segment(text: string, reference: string)

  function Print(segments: seq<Segment>, last: string): string {
    if segments == [] then last
    else segments[0].text + "[[" + segments[0].reference + "]]" + Print(segments[1..], last)
  }

  function Substitute(segments: seq<Segment>, last: string, items: seq<TouchedItem>): string {
    if segments == [] then last
    else segments[0].text + Link(Trim(segments[0].reference), items) + Substitute(segments[1..], last, items)
  }

  /** Text that can be put before a pair of `c` without making an earlier one. */
  predicate KeepsApart(s: string, c: char) {
    FindPair(s, c).None? && (s != [] ==> s[|s| - 1] != c)
  }

  /** No text opens a reference, no reference closes early, and what is left has none. */
  predicate Unambiguous(segments: seq<Segment>, last: string) {
    && (forall s :: s in segments ==> KeepsApart(s.text, '[') && KeepsApart(s.reference, ']'))
    && FirstReference(last).None?
  }

  /** A message taken apart. */
  function Segments(message: string): (seq<Segment>, string)
    decreases |message|
  {
    match FirstReference(message)
    case None => ([], message)
    case Some(r) =>
      var (segments, last) := Segments(r.rest);
      ([Segment(r.before, r.key)] + segments, last)
  }

  lemma FirstPairAfter(s: string, c: char, rest: string)
    requires KeepsApart(s, c)
    ensures FindPair(s + [c, c] + rest, c) == Some(|s|)
  {
    var t := s + [c, c] + rest;
    FindPairIsFirst(s, c);
    FindPairIsFirst(t, c);
    assert PairAt(t, c, |s|);
    forall j: nat | j < |s| ensures !PairAt(t, c, j) {
      assert !PairAt(s, c, j);
      if j + 1 == |s| {
        assert t[j] == s[|s| - 1];
      } else {
        assert t[j] == s[j] && t[j + 1] == s[j + 1];
      }
    }
  }

  lemma PrefixKeepsApart(s: string, c: char)
    requires FindPair(s, c).Some?
    ensures KeepsApart(s[..FindPair(s, c).value], c)
  {
    var i := FindPair(s, c).value;
    FindPairIsFirst(s, c);
    FindPairIsFirst(s[..i], c);
    assert forall j: nat :: PairAt(s[..i], c, j) ==> PairAt(s, c, j);
    if i > 0 {
      assert !PairAt(s, c, i - 1);
    }
  }

  lemma FirstReferenceOfPrint(text: string, key: string, rest: string)
    requires KeepsApart(text, '[') && KeepsApart(key, ']')
    ensures FirstReference(text + "[[" + key + "]]" + rest) == Some(Reference(text, key, rest))
  {
    var after := key + [']', ']'] + rest;
    var m := text + ['[', '['] + after;
    FirstPairAfter(text, '[', after);
    FirstPairAfter(key, ']', rest);
    assert text + "[[" + key + "]]" + rest == m;
    hide FindPair, KeepsApart;
    assert m[..|text|] == text && m[|text| + 2..] == after;
    assert after[..|key|] == key && after[|key| + 2..] == rest;
  }

  lemma FirstReferenceSplits(message: string)
    requires FirstReference(message).Some?
    ensures var r := FirstReference(message).value;
      message == r.before + "[[" + r.key + "]]" + r.rest && KeepsApart(r.before, '[') && KeepsApart(r.key, ']')
  {
    var start := FindPair(message, '[').value;
    var after := message[start + 2..];
    var length := FindPair(after, ']').value;
    FindPairIsFirst(message, '[');
    FindPairIsFirst(after, ']');
    PrefixKeepsApart(message, '[');
    PrefixKeepsApart(after, ']');
    hide FindPair, KeepsApart;
    PairSplits(message, '[', start);
    PairSplits(after, ']', length);
    hide PairAt;
    Chain(message[..start], "[[", after[..length], "]]", after[length + 2..]);
  }

  lemma Chain(a: string, b: string, c: string, d: string, e: string)
    ensures a + b + (c + d + e) == a + b + c + d + e
  {
  }

  lemma PairSplits(s: string, c: char, i: nat)
    requires PairAt(s, c, i)
    ensures s == s[..i] + [c, c] + s[i + 2..]
  {
  }

  /** Taking a printed message apart gives its segments back, if they are unambiguous. */
  lemma {:induction false} SegmentsOfUnambiguous(segments: seq<Segment>, last: string)
    requires Unambiguous(segments, last)
    ensures Segments(Print(segments, last)) == (segments, last)
  {
    hide FirstReference, KeepsApart;
    if segments != [] {
      SegmentsOfUnambiguous(segments[1..], last);
      assert segments[0] in segments;
      FirstReferenceOfPrint(segments[0].text, segments[0].reference, Print(segments[1..], last));
      assert segments == [segments[0]] + segments[1..];
    }
  }

  /** Every message is the print of its segments, and they are unambiguous. */
  lemma {:induction false} PrintOfSegments(message: string)
    ensures var (segments, last) := Segments(message); Print(segments, last) == message && Unambiguous(segments, last)
    decreases |message|
  {
    hide FirstReference, KeepsApart;
    var r := FirstReference(message);
    if r.Some? {
      PrintOfSegments(r.value.rest);
      FirstReferenceSplits(message);
      var segments := Segments(r.value.rest).0;
      assert ([Segment(r.value.before, r.value.key)] + segments)[1..] == segments;
    }
  }

  /** Printing and taking apart are inverse exactly on unambiguous segments. */
  lemma SegmentsOfPrint(segments: seq<Segment>, last: string)
    ensures Segments(Print(segments, last)) == (segments, last) <==> Unambiguous(segments, last)
  {
    if Unambiguous(segments, last) {
      SegmentsOfUnambiguous(segments, last);
    }
    hide Unambiguous, Print;
    PrintOfSegments(Print(segments, last));
  }

  /** Linking replaces the references of a message, and nothing else. */
  lemma {:induction false} LinkingSubstitutes(message: string, items: seq<TouchedItem>)
    ensures Linked(message, items) == Substitute(Segments(message).0, Segments(message).1, items)
    decreases |message|
  {
    hide FirstReference, Link, Trim;
    var r := FirstReference(message);
    if r.Some? {
      LinkingSubstitutes(r.value.rest, items);
      var segments := Segments(r.value.rest).0;
      assert ([Segment(r.value.before, r.value.key)] + segments)[1..] == segments;
    }
  }

  /** Linking inverts the printing of unambiguous segments, except that each reference becomes its link. */
  lemma LinkingInvertsPrinting(segments: seq<Segment>, last: string, items: seq<TouchedItem>)
    requires Unambiguous(segments, last)
    ensures Linked(Print(segments, last), items) == Substitute(segments, last, items)
  {
    SegmentsOfPrint(segments, last);
    LinkingSubstitutes(Print(segments, last), items);
  }

  /** From a bracket pair that is never closed on, the text stays as it is. */
  lemma UnclosedStaysVerbatim(segments: seq<Segment>, text: string, open: string, items: seq<TouchedItem>)
    requires forall s :: s in segments ==> KeepsApart(s.text, '[') && KeepsApart(s.reference, ']')
    requires KeepsApart(text, '[') && FindPair(open, ']').None?
    ensures Linked(Print(segments, text + "[[" + open), items) == Substitute(segments, text + "[[" + open, items)
  {
    FirstPairAfter(text, '[', open);
    assert (text + "[[" + open)[|text| + 2..] == open;
    LinkingInvertsPrinting(segments, text + "[[" + open, items);
  }
}
