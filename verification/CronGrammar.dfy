/** The language of cron fields: a grammar independent of the parser, and the two directions between them. */
module CronGrammar {
  import opened Wrappers
  import opened Text
  import opened Cron

  /** A range as written; a value is a number or a name. */
  datatype RangeText = Star | Question | Single(value: string) | Between(from: string, to: string)

  /** A part as written, with its step if there is a slash. */
  datatype PartText = PartText(range: RangeText, step: Option<string>)

  function PrintRange(r: RangeText): string {
    match r
    case Star => "*"
    case Question => "?"
    case Single(value) => value
    case Between(a, b) => a + ['-'] + b
  }

  function Print(p: PartText): string {
    match p.step
    case None => PrintRange(p.range)
    case Some(step) => PrintRange(p.range) + ['/'] + step
  }

  function PrintAll(ps: seq<PartText>): string {
    Join(seq(|ps|, i requires 0 <= i < |ps| => Print(ps[i])), ",")
  }

  /** The bounds of the values a range stands for; a lone value with a step runs to the largest value. */
  function Ends(p: PartText, min: u32, max: u32, names: Names): Option<(u32, u32)> {
    match p.range
    case Star => Some((min, max))
    case Question => Some((min, max))
    case Single(value) =>
      (match ParseValue(value, names)
       case Some(v) => Some((v, if p.step.Some? then max else v))
       case None => None)
    case Between(a, b) =>
      match (ParseValue(a, names), ParseValue(b, names))
      case (Some(v), Some(w)) => Some((v, w))
      case _ => None
  }

  function StepOf(p: PartText): Option<u32> {
    match p.step
    case None => Some(1)
    case Some(step) => ParseU32(step)
  }

  /** Values are numbers or names, the step is a positive number, and the range lies within the bounds. */
  predicate WellFormed(p: PartText, min: u32, max: u32, names: Names) {
    && StepOf(p).Some? && StepOf(p).value >= 1
    && Ends(p, min, max, names).Some?
    && min <= Ends(p, min, max, names).value.0 <= Ends(p, min, max, names).value.1 <= max
  }

  function WalkOf(p: PartText, min: u32, max: u32, names: Names): (w: Walk)
    requires WellFormed(p, min, max, names)
    ensures w.step >= 1 && min <= w.start <= w.end <= max
  {
    Walk(Ends(p, min, max, names).value.0, Ends(p, min, max, names).value.1, StepOf(p).value)
  }

  // ----- Values hold no separator

  predicate IsPlain(c: char) {
    c == '+' || IsDigit(c) || 'a' <= c <= 'z' || 'A' <= c <= 'Z'
  }

  /** Names are lower-case letters. */
  predicate PlainNames(names: Names) {
    forall i :: 0 <= i < |names| ==> forall c :: c in names[i].0 ==> 'a' <= c <= 'z'
  }

  lemma NamesArePlain()
    ensures PlainNames(WEEKDAY_NAMES) && PlainNames(MONTH_NAMES) && PlainNames([])
  {
  }

  lemma {:induction false} LookupIsName(lower: string, names: Names)
    requires PlainNames(names) && Lookup(lower, names).Some?
    ensures forall c :: c in lower ==> 'a' <= c <= 'z'
  {
    if names[0].0 != lower {
      assert forall i :: 0 <= i < |names[1..]| ==> names[1..][i] == names[i + 1];
      LookupIsName(lower, names[1..]);
    }
  }

  /** A text with a value holds only digits, a sign and letters: no separator, and it is no star. */
  lemma ValueIsPlain(raw: string, names: Names)
    requires PlainNames(names) && ParseValue(raw, names).Some?
    ensures forall c :: c in raw ==> IsPlain(c)
    ensures '-' !in raw && '/' !in raw && ',' !in raw && raw != "*" && raw != "?"
  {
    if ParseU32(raw).Some? {
      NumberIsPlain(raw);
    } else {
      var lower := ToAsciiLowercase(raw);
      LookupIsName(lower, names);
      forall c | c in raw ensures IsPlain(c) {
        var i :| 0 <= i < |raw| && raw[i] == c;
        assert lower[i] in lower;
      }
    }
    assert !IsPlain('*') && !IsPlain('?');
    assert "*"[0] == '*' && "?"[0] == '?';
  }

  lemma NumberIsPlain(raw: string)
    requires ParseU32(raw).Some?
    ensures forall c :: c in raw ==> IsPlain(c)
  {
    forall c | c in raw ensures IsPlain(c) {
      if raw[0] == '+' && c != '+' {
        assert raw == [raw[0]] + raw[1..];
        assert c in raw[1..];
      }
    }
  }

  // ----- What is well formed is accepted

  lemma RangeParses(p: PartText, min: u32, max: u32, names: Names)
    requires WellFormed(p, min, max, names) && PlainNames(names)
    ensures ParseRange(PrintRange(p.range), p.step.Some?, min, max, names) == Ok(Ends(p, min, max, names).value)
    ensures '/' !in PrintRange(p.range) && ',' !in PrintRange(p.range)
  {
    match p.range {
      case Single(value) =>
        ValueIsPlain(value, names);
        SplitOnceFound(value, '-');
      case Between(a, b) =>
        ValueIsPlain(a, names);
        ValueIsPlain(b, names);
        SplitOnceAt(a, b, '-');
        assert '-' in PrintRange(p.range) && '-' !in "*" && '-' !in "?";
      case _ =>
    }
  }

  lemma PartParses(p: PartText, min: u32, max: u32, names: Names)
    requires WellFormed(p, min, max, names) && PlainNames(names)
    ensures ParsePart(Print(p), min, max, names) == Ok(WalkOf(p, min, max, names))
    ensures ',' !in Print(p)
  {
    RangeParses(p, min, max, names);
    var range := PrintRange(p.range);
    match p.step {
      case None => SplitOnceFound(range, '/');
      case Some(step) =>
        SplitOnceAt(range, step, '/');
        NumberIsPlain(step);
    }
  }

  /** Whether the walk of a part marks `v`. */
  ghost predicate MarkedByPart(p: PartText, v: int, min: u32, max: u32, names: Names)
    requires Bounds(min, max) && WellFormed(p, min, max, names)
  {
    var w := WalkOf(p, min, max, names);
    v in Visited(w.start, w.end, w.step)
  }

  /** The values the parts mark together. */
  ghost function MarkedBy(ps: seq<PartText>, min: u32, max: u32, names: Names): set<int>
    requires Bounds(min, max) && forall p :: p in ps ==> WellFormed(p, min, max, names)
  {
    if ps == [] then {}
    else
      var w := WalkOf(ps[|ps| - 1], min, max, names);
      MarkedBy(ps[..|ps| - 1], min, max, names) + Visited(w.start, w.end, w.step)
  }

  lemma {:induction false} MarkedByMember(ps: seq<PartText>, v: int, min: u32, max: u32, names: Names)
    requires Bounds(min, max) && forall p :: p in ps ==> WellFormed(p, min, max, names)
    ensures v in MarkedBy(ps, min, max, names) <==> exists p :: p in ps && MarkedByPart(p, v, min, max, names)
  {
    if ps != [] {
      var front, last := ps[..|ps| - 1], ps[|ps| - 1];
      MarkedByMember(front, v, min, max, names);
      assert ps == front + [last];
      assert last in ps;
      assert MarkedByPart(last, v, min, max, names) || v in MarkedBy(front, min, max, names)
        <==> v in MarkedBy(ps, min, max, names);
      if exists p :: p in ps && MarkedByPart(p, v, min, max, names) {
        var p :| p in ps && MarkedByPart(p, v, min, max, names);
        assert p in front || p == last;
      }
    }
  }

  lemma {:induction false} MarksOfPrinted(ps: seq<PartText>, texts: seq<string>, min: u32, max: u32, names: Names)
    requires Bounds(min, max) && PlainNames(names) && |texts| == |ps|
    requires forall i :: 0 <= i < |ps| ==> WellFormed(ps[i], min, max, names) && texts[i] == Print(ps[i])
    ensures Marks(texts, min, max, names) == Ok(MarkedBy(ps, min, max, names))
  {
    hide ParsePart, WellFormed, Print, WalkOf, Visited, PlainNames;
    if ps != [] {
      MarksOfPrinted(ps[..|ps| - 1], texts[..|ps| - 1], min, max, names);
      PartParses(ps[|ps| - 1], min, max, names);
    }
  }

  /** Every list of well-formed parts is accepted, and marks exactly what its parts mark. */
  lemma GrammarIsAccepted(ps: seq<PartText>, min: u32, max: u32, names: Names)
    requires Bounds(min, max) && PlainNames(names) && ps != []
    requires forall p :: p in ps ==> WellFormed(p, min, max, names)
    ensures Field(PrintAll(ps), min, max, names)
         == Ok(AsField(MarkedBy(ps, min, max, names), max, PrintAll(ps) != "*" && PrintAll(ps) != "?"))
  {
    var texts := seq(|ps|, i requires 0 <= i < |ps| => Print(ps[i]));
    forall t | t in texts ensures ',' !in t {
      var i :| 0 <= i < |ps| && texts[i] == t;
      PartParses(ps[i], min, max, names);
    }
    SplitOfJoin(texts, ',');
    MarksOfPrinted(ps, texts, min, max, names);
  }

  // ----- Nothing else is accepted

  /** A part the parser takes is the print of a well-formed one. */
  lemma PartComesFrom(part: string, min: u32, max: u32, names: Names) returns (p: PartText)
    requires ParsePart(part, min, max, names).Ok?
    ensures WellFormed(p, min, max, names) && Print(p) == part
    ensures WalkOf(p, min, max, names) == ParsePart(part, min, max, names).value
  {
    SplitOnceFound(part, '/');
    var range, step := part, None;
    if SplitOnce(part, '/').Some? {
      range, step := SplitOnce(part, '/').value.0, Some(SplitOnce(part, '/').value.1);
      assert part[|range|] == '/';
    }
    SplitOnceFound(range, '-');
    var r := if range == "*" then Star
    else if range == "?" then Question
    else match SplitOnce(range, '-')
      case Some((a, b)) => Between(a, b)
      case None => Single(range);
    p := PartText(r, step);
  }

  lemma {:induction false} MarksComeFrom(texts: seq<string>, min: u32, max: u32, names: Names) returns (ps: seq<PartText>)
    requires Bounds(min, max) && Marks(texts, min, max, names).Ok?
    ensures |ps| == |texts|
    ensures forall i :: 0 <= i < |ps| ==> WellFormed(ps[i], min, max, names) && Print(ps[i]) == texts[i]
  {
    hide ParsePart, WellFormed, Print, Visited;
    if texts == [] {
      ps := [];
    } else {
      var n := |texts| - 1;
      var front := MarksComeFrom(texts[..n], min, max, names);
      var last := PartComesFrom(texts[n], min, max, names);
      ps := front + [last];
    }
  }

  /** Every accepted text is a comma list of well-formed parts. */
  lemma AcceptedIsGrammar(raw: string, min: u32, max: u32, names: Names) returns (ps: seq<PartText>)
    requires Bounds(min, max) && Field(raw, min, max, names).Ok?
    ensures ps != [] && (forall p :: p in ps ==> WellFormed(p, min, max, names)) && PrintAll(ps) == raw
  {
    var texts := Split(raw, ',');
    ps := MarksComeFrom(texts, min, max, names);
    JoinOfSplit(raw, ',');
    assert seq(|ps|, i requires 0 <= i < |ps| => Print(ps[i])) == texts;
  }

  // ----- What an accepted field allows

  /** An accepted field allows some value within its bounds; all of them when it is unrestricted. */
  lemma AcceptedFieldAllows(raw: string, min: u32, max: u32, names: Names)
    requires Bounds(min, max) && PlainNames(names) && Field(raw, min, max, names).Ok?
    ensures var f := Field(raw, min, max, names).value;
      && |f.allowed| == max + 1
      && (exists v :: min <= v <= max && f.Contains(v))
      && (!f.restricted ==> forall v :: min <= v <= max ==> f.Contains(v))
  {
    var f := Field(raw, min, max, names).value;
    var ps := AcceptedIsGrammar(raw, min, max, names);
    GrammarIsAccepted(ps, min, max, names);
    var w := WalkOf(ps[0], min, max, names);
    VisitedInRange(w.start, w.end, w.step);
    assert ps[0] in ps && MarkedByPart(ps[0], w.start, min, max, names);
    MarkedByMember(ps, w.start, min, max, names);
    assert f.Contains(w.start);
    if !f.restricted {
      StarAllowsAll(raw, min, max, names);
    }
  }

  lemma StarAllowsAll(raw: string, min: u32, max: u32, names: Names)
    requires Bounds(min, max) && PlainNames(names) && (raw == "*" || raw == "?")
    ensures Field(raw, min, max, names).Ok?
    ensures forall v :: min <= v <= max ==> Field(raw, min, max, names).value.Contains(v)
  {
    var p := PartText(if raw == "*" then Star else Question, None);
    assert PrintAll([p]) == raw;
    GrammarIsAccepted([p], min, max, names);
    VisitedStraight(min, max, 1);
    var w := WalkOf(p, min, max, names);
    forall v | min <= v <= max ensures v in MarkedBy([p], min, max, names) {
      assert (v - min) % 1 == 0;
      assert p in [p] && MarkedByPart(p, v, min, max, names);
      MarkedByMember([p], v, min, max, names);
    }
  }

  /** Without huge steps a field allows exactly the values that its parts denote, all of them within the bounds. */
  lemma FieldAllowsWhatItDenotes(ps: seq<PartText>, min: u32, max: u32, names: Names)
    requires Bounds(min, max) && PlainNames(names) && ps != []
    requires forall p :: p in ps ==> WellFormed(p, min, max, names) && Straight(WalkOf(p, min, max, names))
    ensures Field(PrintAll(ps), min, max, names).Ok?
    ensures var f := Field(PrintAll(ps), min, max, names).value;
      forall v :: f.Contains(v) <==> exists p :: p in ps && Denotes(WalkOf(p, min, max, names), v)
  {
    GrammarIsAccepted(ps, min, max, names);
    var f := Field(PrintAll(ps), min, max, names).value;
    forall v ensures f.Contains(v) <==> exists p :: p in ps && Denotes(WalkOf(p, min, max, names), v) {
      MarkedByMember(ps, v, min, max, names);
      forall p | p in ps ensures Denotes(WalkOf(p, min, max, names), v) <==> MarkedByPart(p, v, min, max, names) {
        WalkMarksWhatItDenotes(WalkOf(p, min, max, names));
        assert v in Denoted(WalkOf(p, min, max, names)) <==> Denotes(WalkOf(p, min, max, names), v);
      }
      if v in MarkedBy(ps, min, max, names) {
        var p :| p in ps && MarkedByPart(p, v, min, max, names);
        assert Denotes(WalkOf(p, min, max, names), v);
      }
    }
  }
}
