/**
 Parsing of one cron field (crates/core/src/objective/schedule.rs, `parse_field`, `parse_value`): what the loops mark,
 and the grammar they accept.
 */
module Cron {
  import opened Wrappers
  import opened Text

  type Names = seq<(string, u32)>

  const WEEKDAY_NAMES: Names :=
    [("sun", 0), ("mon", 1), ("tue", 2), ("wed", 3), ("thu", 4), ("fri", 5), ("sat", 6)]

  const MONTH_NAMES: Names :=
    [("jan", 1), ("feb", 2), ("mar", 3), ("apr", 4), ("may", 5), ("jun", 6), ("jul", 7), ("aug", 8), ("sep", 9),
     ("oct", 10), ("nov", 11), ("dec", 12)]

  datatype Problem = StepNotANumber(step: string) | StepZero | BadValue(text: string) | OutOfRange(min: u32, max: u32)

  datatype CronField = CronField(allowed: seq<bool>, restricted: bool)
  {
    predicate Contains(value: int) {
      0 <= value < |allowed| && allowed[value]
    }
  }

  /** The bounds `parse_field` is called with. */
  predicate Bounds(min: u32, max: u32) {
    min <= max <= 59
  }

  // ----- Values

  function Lookup(lower: string, names: Names): Option<u32> {
    if names == [] then None
    else if names[0].0 == lower then Some(names[0].1)
    else Lookup(lower, names[1..])
  }

  function ParseValue(raw: string, names: Names): Option<u32> {
    match ParseU32(raw)
    case Some(n) => Some(n)
    case None => Lookup(ToAsciiLowercase(raw), names)
  }

  // ----- One part of the comma list

  /** The values the loop visits: from `start`, by `step`, while at most `end`. */
  datatype Walk = Walk(start: u32, end: u32, step: u32)

  function ParseStep(part: string): Result<(string, u32), Problem> {
    match SplitOnce(part, '/')
    case None => Ok((part, 1))
    case Some((range, step)) =>
      match ParseU32(step)
      case None => Err(StepNotANumber(step))
      case Some(n) => if n == 0 then Err(StepZero) else Ok((range, n))
  }

  function ParseRange(range: string, stepped: bool, min: u32, max: u32, names: Names): Result<(u32, u32), Problem> {
    if range == "*" || range == "?" then Ok((min, max))
    else
      match SplitOnce(range, '-')
      case Some((a, b)) =>
        (match (ParseValue(a, names), ParseValue(b, names))
         case (None, _) => Err(BadValue(a))
         case (_, None) => Err(BadValue(b))
         case (Some(start), Some(end)) => Ok((start, end)))
      case None =>
        match ParseValue(range, names)
        case None => Err(BadValue(range))
        case Some(start) => Ok((start, if stepped then max else start))
  }

  function ParsePart(part: string, min: u32, max: u32, names: Names): (r: Result<Walk, Problem>)
    ensures r.Ok? ==> r.value.step >= 1 && min <= r.value.start <= r.value.end <= max
  {
    match ParseStep(part)
    case Err(e) => Err(e)
    case Ok((range, step)) =>
      match ParseRange(range, '/' in part, min, max, names)
      case Err(e) => Err(e)
      case Ok((start, end)) =>
        if start < min || end > max || start > end then Err(OutOfRange(min, max)) else Ok(Walk(start, end, step))
  }

  /** What `value += step` leaves in 32 bits, with the wrap-around of a release build. */
  function Advance(value: u32, step: u32): u32 {
    (value + step) % 0x1_0000_0000
  }

  /** The values marked by the loop that starts at `value`. */
  function Visited(value: u32, end: u32, step: u32): set<int>
    requires 1 <= step && end <= 59
    decreases if value > end then 0 else if step <= 0x8000_0000 then end - value + 1 else value + 1
  {
    if value > end then {} else {value} + Visited(Advance(value, step), end, step)
  }

  /** Whether a part stands for `v`. */
  predicate Denotes(w: Walk, v: int)
    requires w.step >= 1
  {
    w.start <= v <= w.end && (v - w.start) % w.step == 0
  }

  /** The values a part stands for. */
  ghost function Denoted(w: Walk): set<int>
    requires w.step >= 1
  {
    set v | w.start <= v <= w.end && Denotes(w, v)
  }

  /** No step of the walk wraps around. */
  predicate Straight(w: Walk) {
    w.start + w.step <= U32_MAX
  }

  lemma ModStep(a: nat, step: nat)
    requires step >= 1
    ensures a >= step ==> (a - step) % step == a % step
    ensures 0 < a < step ==> a % step == a
  {
    if a >= step {
      var q, r := a / step, a % step;
      assert a == q * step + r;
      assert a - step == (q - 1) * step + r;
      ModIs(a - step, q - 1, r, step);
    } else if a > 0 {
      ModIs(a, 0, a, step);
    }
  }

  lemma ModIs(a: nat, q: int, r: nat, step: nat)
    requires step >= 1 && a == q * step + r && r < step
    ensures a % step == r
  {
    var p, s := a / step, a % step;
    assert a == p * step + s;
    assert (p - q) * step == r - s;
    Multiple(p - q, step);
  }

  lemma Multiple(k: int, step: nat)
    requires step >= 1
    ensures k >= 1 ==> k * step >= step
    ensures k <= -1 ==> k * step <= 0 - step
  {
    if k >= 1 {
      assert (k - 1) * step >= 0;
    } else if k <= -1 {
      assert (-k - 1) * step >= 0;
    }
  }

  /** Without a wrap the loop visits exactly the values at multiples of the step from where it stands. */
  lemma {:induction false} VisitedStraight(value: u32, end: u32, step: u32)
    requires 1 <= step && end <= 59 && value + step <= U32_MAX
    ensures forall v :: v in Visited(value, end, step) <==> value <= v <= end && (v - value) % step == 0
    decreases if value > end then 0 else end - value + 1
  {
    if value <= end {
      var next := Advance(value, step);
      assert next == value + step;
      if next <= end {
        VisitedStraight(next, end, step);
      }
      forall v ensures v in Visited(value, end, step) <==> value <= v <= end && (v - value) % step == 0 {
        if value <= v <= end {
          ModStep(v - value, step);
        }
      }
    }
  }

  /** The loop marks what the part denotes exactly when its step does not wrap around from the first value. */
  lemma WalkMarksWhatItDenotes(w: Walk)
    requires 1 <= w.step && w.start <= w.end <= 59
    ensures Visited(w.start, w.end, w.step) == Denoted(w) <==> Straight(w)
  {
    if Straight(w) {
      VisitedStraight(w.start, w.end, w.step);
    } else {
      var back := Advance(w.start, w.step);
      assert back == w.start + w.step - 0x1_0000_0000;
      assert back < w.start;
      assert back in Visited(back, w.end, w.step);
      assert back in Visited(w.start, w.end, w.step);
      assert back !in Denoted(w);
    }
  }

  /** For example `30/4294967295` in the minutes field marks 29 as well, though it denotes 30 alone. */
  lemma AHugeStepMarksTooMuch()
    ensures ParsePart("30/4294967295", 0, 59, []) == Ok(Walk(30, 59, U32_MAX))
    ensures 29 in Visited(30, 59, U32_MAX) && Denoted(Walk(30, 59, U32_MAX)) == {30}
  {
    HugeStepParses();
    hide ParsePart;
    var w := Walk(30, 59, U32_MAX);
    assert Advance(30, U32_MAX) == 29;
    assert 29 in Visited(29, 59, U32_MAX);
    forall v | v in Denoted(w) ensures v == 30 {
      if v > 30 { ModStep(v - 30, U32_MAX); }
    }
    assert Denotes(w, 30);
  }

  lemma HugeStepIsRead()
    ensures '/' in "30/4294967295" && ParseStep("30/4294967295") == Ok(("30", U32_MAX))
  {
    hide ParseU32, SplitOnce;
    SplitAtSlash();
    HugeNumber();
  }

  lemma SplitAtSlash()
    ensures '/' in "30/4294967295" && SplitOnce("30/4294967295", '/') == Some(("30", "4294967295"))
  {
    SplitOnceAt("30", "4294967295", '/');
    hide SplitOnce;
    var text := "30" + ['/'] + "4294967295";
    assert text[2] == '/';
    assert "30/4294967295" == text;
  }

  lemma ThirtyIsRead()
    ensures ParseRange("30", true, 0, 59, []) == Ok((30, 59))
  {
    SplitOnceFound("30", '-');
    assert '-' !in "30";
    Digits30();
    hide SplitOnce, ParseU32;
  }

  lemma HugeStepParses()
    ensures ParsePart("30/4294967295", 0, 59, []) == Ok(Walk(30, 59, U32_MAX))
  {
    hide ParseStep, ParseRange;
    HugeStepIsRead();
    ThirtyIsRead();
  }

  lemma DigitsSnoc(s: string, c: char)
    requires IsDigit(c) && forall d :: d in s ==> IsDigit(d)
    ensures DigitsValue(s + [c]) == 10 * DigitsValue(s) + (c as int - '0' as int)
  {
    assert (s + [c])[..|s|] == s;
  }

  lemma Digits30()
    ensures ParseU32("30") == Some(30)
  {
    TwoDigits('3', '0');
    assert "30" == ['3', '0'];
    hide ParseU32;
  }

  lemma OneDigit(c: char)
    requires IsDigit(c)
    ensures ParseU32([c]) == Some(c as int - '0' as int)
  {
    DigitsSnoc("", c);
    EmptyDigits();
    assert "" + [c] == [c];
    hide DigitsValue;
  }

  lemma TwoDigits(c: char, d: char)
    requires IsDigit(c) && IsDigit(d)
    ensures ParseU32([c, d]) == Some(10 * (c as int - '0' as int) + (d as int - '0' as int))
  {
    DigitsSnoc("", c);
    EmptyDigits();
    DigitsSnoc([c], d);
    assert "" + [c] == [c] && [c] + [d] == [c, d];
    hide DigitsValue;
  }

  lemma HugeHalf()
    ensures DigitsValue("42949") == 42949
  {
    hide DigitsValue;
    EmptyDigits();
    DigitsSnoc("", '4');
    DigitsSnoc("4", '2');
    DigitsSnoc("42", '9');
    DigitsSnoc("429", '4');
    DigitsSnoc("4294", '9');
    assert "" + ['4'] == "4" && "4" + ['2'] == "42" && "42" + ['9'] == "429" && "429" + ['4'] == "4294";
    assert "4294" + ['9'] == "42949";
  }

  lemma EmptyDigits()
    ensures DigitsValue("") == 0
  {
  }

  lemma HugeNumber()
    ensures ParseU32("4294967295") == Some(U32_MAX)
  {
    hide DigitsValue;
    HugeHalf();
    DigitsSnoc("42949", '6');
    DigitsSnoc("429496", '7');
    DigitsSnoc("4294967", '2');
    DigitsSnoc("42949672", '9');
    DigitsSnoc("429496729", '5');
    assert "42949" + ['6'] == "429496" && "429496" + ['7'] == "4294967" && "4294967" + ['2'] == "42949672";
    assert "42949672" + ['9'] == "429496729" && "429496729" + ['5'] == "4294967295";
  }

  // ----- The whole field

  /** The values all parts mark together, or the problem of the first bad part. */
  function Marks(parts: seq<string>, min: u32, max: u32, names: Names): Result<set<int>, Problem>
    requires Bounds(min, max)
  {
    if parts == [] then Ok({})
    else
      match Marks(parts[..|parts| - 1], min, max, names)
      case Err(e) => Err(e)
      case Ok(marked) =>
        match ParsePart(parts[|parts| - 1], min, max, names)
        case Err(e) => Err(e)
        case Ok(w) => Ok(marked + Visited(w.start, w.end, w.step))
  }

  lemma {:induction false} VisitedInRange(value: u32, end: u32, step: u32)
    requires 1 <= step && end <= 59
    ensures forall v :: v in Visited(value, end, step) ==> 0 <= v <= end
    ensures value <= end ==> value in Visited(value, end, step)
    decreases if value > end then 0 else if step <= 0x8000_0000 then end - value + 1 else value + 1
  {
    if value <= end {
      VisitedInRange(Advance(value, step), end, step);
    }
  }

  function AsField(marked: set<int>, max: u32, restricted: bool): CronField {
    CronField(seq(max + 1, i => i in marked), restricted)
  }

  function Field(raw: string, min: u32, max: u32, names: Names): Result<CronField, Problem>
    requires Bounds(min, max)
  {
    match Marks(Split(raw, ','), min, max, names)
    case Err(e) => Err(e)
    case Ok(marked) => Ok(AsField(marked, max, raw != "*" && raw != "?"))
  }

  method MarkWalk(allowed: array<bool>, w: Walk)
    requires 1 <= w.step && w.end <= 59 && w.end < allowed.Length
    modifies allowed
    ensures forall v :: 0 <= v < allowed.Length ==>
              (allowed[v] <==> old(allowed[v]) || v in Visited(w.start, w.end, w.step))
  {
    var value: u32 := w.start;
    while value <= w.end
      invariant forall v :: 0 <= v < allowed.Length ==>
                  (allowed[v] || v in Visited(value, w.end, w.step)
                   <==> old(allowed[v]) || v in Visited(w.start, w.end, w.step))
      invariant forall v :: 0 <= v < allowed.Length ==> old(allowed[v]) ==> allowed[v]
      decreases if value > w.end then 0 else if w.step <= 0x8000_0000 then w.end - value + 1 else value + 1
    {
      allowed[value] := true;
      value := Advance(value, w.step);
    }
  }

  method ParseField(raw: string, min: u32, max: u32, names: Names) returns (r: Result<CronField, Problem>)
    requires Bounds(min, max)
    ensures r == Field(raw, min, max, names)
  {
    var allowed := new bool[max + 1](_ => false);
    var parts := Split(raw, ',');
    for i := 0 to |parts|
      invariant Marks(parts[..i], min, max, names).Ok?
      invariant forall v :: 0 <= v <= max ==> (allowed[v] <==> v in Marks(parts[..i], min, max, names).value)
    {
      assert parts[..i + 1][..i] == parts[..i];
      var part := ParsePart(parts[i], min, max, names);
      if part.Err? {
        MarksStopAt(parts, i, min, max, names);
        return Err(part.error);
      }
      MarkWalk(allowed, part.value);
    }
    assert parts[..|parts|] == parts;
    var marked := Marks(parts, min, max, names).value;
    assert allowed[..] == AsField(marked, max, false).allowed;
    r := Ok(CronField(allowed[..], raw != "*" && raw != "?"));
  }

  /** A bad part decides the outcome, whatever follows. */
  lemma {:induction false} MarksStopAt(parts: seq<string>, i: nat, min: u32, max: u32, names: Names)
    requires Bounds(min, max) && i < |parts|
    requires Marks(parts[..i], min, max, names).Ok? && ParsePart(parts[i], min, max, names).Err?
    ensures Marks(parts, min, max, names) == Err(ParsePart(parts[i], min, max, names).error)
  {
    if i == |parts| - 1 {
      assert parts[..|parts| - 1] == parts[..i];
    } else {
      var front := parts[..|parts| - 1];
      assert front[..i] == parts[..i];
      MarksStopAt(front, i, min, max, names);
    }
  }
}
