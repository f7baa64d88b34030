/** Parsing of five-field cron expressions.

    Parsing a field can end in three ways: a field, an error, or a panic. The panic is the source's
    own: its step loop runs on 64-bit ints and an overflowing step indexes out of range. */
module CronParse {
  import opened Strings
  import opened CronScan

  datatype Outcome<+T> = Ok(value: T) | Error | Panic

  /** What one list segment denotes: every `step`-th value from `start` to `end`. */
  datatype Range = Range(start: int, end: int, step: int)

  function ParseFieldValue(raw: string, min: int, max: int, sundayAlias: bool): (r: Option<int>)
    ensures r.Some? ==> min <= r.value <= max
  {
    match Atoi(TrimSpace(raw))
    case None => None
    case Some(v) =>
      var value := if sundayAlias && v == 7 then 0 else v;
      if value < min || value > max then None else Some(value)
  }

  function ParseStep(segment: string): (r: Option<(string, int)>)
    ensures r.Some? ==> 1 <= r.value.1 <= MAX_INT64
  {
    if '/' !in segment then Some((segment, 1))
    else
      var parts := Split(segment, '/');
      if |parts| != 2 || TrimSpace(parts[0]) == "" then None
      else
        match Atoi(TrimSpace(parts[1]))
        case None => None
        case Some(v) => if v <= 0 then None else Some((TrimSpace(parts[0]), v))
  }

  function ParseSegment(segment: string, min: int, max: int, sundayAlias: bool): (r: Option<Range>)
    requires min <= max
    ensures r.Some? ==> min <= r.value.start <= r.value.end <= max && 1 <= r.value.step <= MAX_INT64
  {
    match ParseStep(segment)
    case None => None
    case Some((base, step)) =>
      if base == "*" then Some(Range(min, max, step))
      else if '-' in base then
        var parts := Split(base, '-');
        if |parts| != 2 then None
        else
          match (ParseFieldValue(parts[0], min, max, sundayAlias), ParseFieldValue(parts[1], min, max, sundayAlias))
          case (Some(left), Some(right)) => if right < left then None else Some(Range(left, right, step))
          case _ => None
      else
        match ParseFieldValue(base, min, max, sundayAlias)
        case None => None
        case Some(value) => Some(Range(value, if '/' in segment then max else value, step))
  }

  /** The step loop would leave the 64-bit range. */
  predicate Overflows(r: Range) {
    r.start + r.step > MAX_INT64
  }

  /** The values the step loop visits from `value` on. */
  predicate Hits(value: int, end: int, step: int, v: int)
    requires step >= 1
    decreases end - value
  {
    value <= end && (v == value || Hits(value + step, end, step, v))
  }

  lemma {:induction false} HitsInside(value: int, end: int, step: int, v: int)
    requires step >= 1 && Hits(value, end, step, v)
    ensures value <= v <= end
    decreases end - value
  {
    if v != value {
      HitsInside(value + step, end, step, v);
    }
  }

  /** The visited values are those of the range whose distance from its start is a multiple of the step. */
  lemma {:induction false} HitsMeans(value: int, end: int, step: int, v: int)
    requires step >= 1
    ensures Hits(value, end, step, v) <==> value <= v <= end && (v - value) % step == 0
    decreases end - value
  {
    if value <= end && v != value {
      HitsMeans(value + step, end, step, v);
      if value <= v < value + step {
        SmallMod(v - value, step);
      } else {
        ModShift(v - value, step);
      }
    }
  }

  lemma SmallMod(x: int, n: int)
    requires 0 <= x < n
    ensures x % n == x
  {
  }

  lemma ModShift(x: int, n: int)
    requires n >= 1
    ensures (x - n) % n == x % n
  {
    var q, r := x / n, x % n;
    assert x - n == n * (q - 1) + r;
    ModUnique(x - n, n, q - 1, r);
  }

  lemma ModUnique(x: int, n: int, q: int, r: int)
    requires n >= 1 && x == n * q + r && 0 <= r < n
    ensures x % n == r
  {
    SameQuotient(n, q, r, x / n, x % n);
  }

  lemma SameQuotient(n: int, q: int, r: int, q': int, r': int)
    requires n >= 1 && n * q + r == n * q' + r' && 0 <= r < n && 0 <= r' < n
    ensures r == r'
  {
    if q > q' {
      Multiple(n, q, q');
    } else if q < q' {
      Multiple(n, q', q);
    }
  }

  lemma Multiple(n: int, p: int, q: int)
    requires n >= 1 && p > q
    ensures n * p >= n * q + n
  {
    assert n * (p - q) == n * p - n * q;
    assert n * (p - q - 1) >= 0;
  }

  /** Addition of 64-bit ints, which wraps around. */
  function Add64(x: int, y: int): int {
    if x + y > MAX_INT64 then x + y - 2 * (MAX_INT64 + 1)
    else if x + y < -MAX_INT64 - 1 then x + y + 2 * (MAX_INT64 + 1)
    else x + y
  }

  /** The step loop of markSegment, setting bits in place; `ok` is false when it indexes out of range. */
  method MarkRange(values: array<bool>, min: int, r: Range) returns (ok: bool)
    requires 0 <= min <= r.start <= r.end < min + values.Length <= 100 && 1 <= r.step <= MAX_INT64
    modifies values
    ensures ok <==> !Overflows(r)
    ensures ok ==> forall i :: 0 <= i < values.Length ==>
              (values[i] <==> old(values[i]) || Hits(r.start, r.end, r.step, min + i))
  {
    var value := r.start;
    while value <= r.end
      invariant value < 0 ==> Overflows(r)
      invariant value >= 0 ==> value >= r.start && (value == r.start || !Overflows(r))
      invariant r.start < value <= r.end ==> r.step <= 100
      invariant value >= 0 ==> forall i :: 0 <= i < values.Length ==>
                  (values[i] || Hits(value, r.end, r.step, min + i)
                   <==> old(values[i]) || Hits(r.start, r.end, r.step, min + i))
      decreases if value < 0 then 0 else r.end - value + 1
    {
      if value - min < 0 || value - min >= values.Length {
        return false;
      }
      values[value - min] := true;
      value := Add64(value, r.step);
    }
    ok := true;
  }

  predicate AllRanges(ranges: seq<Range>, min: int, max: int) {
    forall i :: 0 <= i < |ranges| ==> min <= ranges[i].start <= ranges[i].end <= max && ranges[i].step >= 1
  }

  /** How the list segments, taken in order, settle the field: the first one that fails decides. */
  function ListOutcome(segments: seq<string>, min: int, max: int, sundayAlias: bool): (r: Outcome<seq<Range>>)
    requires min <= max
    ensures r.Ok? ==> |r.value| == |segments| && AllRanges(r.value, min, max)
  {
    if segments == [] then Ok([])
    else
      match ListOutcome(segments[..|segments| - 1], min, max, sundayAlias)
      case Error => Error
      case Panic => Panic
      case Ok(ranges) =>
        var segment := TrimSpace(segments[|segments| - 1]);
        if segment == "" then Error
        else
          match ParseSegment(segment, min, max, sundayAlias)
          case None => Error
          case Some(r) => if Overflows(r) then Panic else Ok(ranges + [r])
  }

  function FieldRanges(spec: string, min: int, max: int, sundayAlias: bool): Outcome<seq<Range>>
    requires min <= max
  {
    var trimmed := TrimSpace(spec);
    if trimmed == "" then Error else ListOutcome(Split(trimmed, ','), min, max, sundayAlias)
  }

  /** Some range hits `v`. */
  predicate SomeHit(ranges: seq<Range>, v: int) {
    exists i :: 0 <= i < |ranges| && ranges[i].step >= 1 && Hits(ranges[i].start, ranges[i].end, ranges[i].step, v)
  }

  lemma NoRangeHits()
    ensures forall v :: !SomeHit([], v)
  {
  }

  lemma FirstHit(ranges: seq<Range>)
    requires ranges != [] && ranges[0].step >= 1 && ranges[0].start <= ranges[0].end
    ensures SomeHit(ranges, ranges[0].start)
  {
  }

  lemma SomeHitMore(ranges: seq<Range>, r: Range, v: int)
    requires r.step >= 1
    ensures SomeHit(ranges + [r], v) <==> SomeHit(ranges, v) || Hits(r.start, r.end, r.step, v)
  {
    var more := ranges + [r];
    if i :| 0 <= i < |ranges| && ranges[i].step >= 1 && Hits(ranges[i].start, ranges[i].end, ranges[i].step, v) {
      assert more[i] == ranges[i];
    }
    if Hits(r.start, r.end, r.step, v) {
      assert more[|ranges|] == r;
    }
  }

  /** `f` is a field over `min..max` that marks exactly the values some range hits. */
  ghost predicate Denotes(f: Field, ranges: seq<Range>, min: int, max: int) {
    FieldOver(f, min, max) && forall v :: min <= v <= max ==> (f.values[v - min] <==> SomeHit(ranges, v))
  }

  predicate AllTrue(values: seq<bool>) {
    |values| > 0 && forall i :: 0 <= i < |values| ==> values[i]
  }

  /** Marks the bits of one list segment after another. */
  method MarkSegments(segments: seq<string>, min: int, max: int, sundayAlias: bool) returns (r: Outcome<seq<bool>>)
    requires 0 <= min <= max < 100
    ensures match ListOutcome(segments, min, max, sundayAlias)
            case Error => r == Error
            case Panic => r == Panic
            case Ok(ranges) => r.Ok? && |r.value| == max - min + 1
                               && forall i :: 0 <= i < |r.value| ==> (r.value[i] <==> SomeHit(ranges, min + i))
  {
    hide ParseSegment, TrimSpace, Hits, SomeHit;
    var values := new bool[max - min + 1](_ => false);
    ghost var ranges := [];
    NoRangeHits();
    for k := 0 to |segments|
      invariant ListOutcome(segments[..k], min, max, sundayAlias) == Ok(ranges)
      invariant forall i :: 0 <= i < values.Length ==> (values[i] <==> SomeHit(ranges, min + i))
    {
      assert segments[..k + 1][..k] == segments[..k];
      var segment := TrimSpace(segments[k]);
      var range := if segment == "" then None else ParseSegment(segment, min, max, sundayAlias);
      if range.None? {
        FirstFailure(segments, k + 1, min, max, sundayAlias);
        return Error;
      }
      var ok := MarkRange(values, min, range.value);
      if !ok {
        FirstFailure(segments, k + 1, min, max, sundayAlias);
        return Panic;
      }
      forall v
        ensures SomeHit(ranges + [range.value], v) <==>
                SomeHit(ranges, v) || Hits(range.value.start, range.value.end, range.value.step, v)
      {
        SomeHitMore(ranges, range.value, v);
      }
      ranges := ranges + [range.value];
    }
    assert segments[..|segments|] == segments;
    r := Ok(values[..]);
  }

  lemma {:induction false} FirstFailure(segments: seq<string>, k: nat, min: int, max: int, sundayAlias: bool)
    requires min <= max && k <= |segments| && !ListOutcome(segments[..k], min, max, sundayAlias).Ok?
    ensures ListOutcome(segments, min, max, sundayAlias) == ListOutcome(segments[..k], min, max, sundayAlias)
  {
    if k < |segments| {
      var init := segments[..|segments| - 1];
      assert init[..k] == segments[..k];
      FirstFailure(init, k, min, max, sundayAlias);
    } else {
      assert segments[..k] == segments;
    }
  }

  /** Parses one field. A field always marks at least one value, so an expression that parses can only
      fail to match for want of a date. */
  method ParseField(spec: string, min: int, max: int, sundayAlias: bool) returns (r: Outcome<Field>)
    requires 0 <= min <= max < 100
    ensures match FieldRanges(spec, min, max, sundayAlias)
            case Error => r == Error
            case Panic => r == Panic
            case Ok(ranges) => r.Ok? && Denotes(r.value, ranges, min, max)
  {
    hide TrimSpace, Split, ListOutcome, SomeHit;
    var trimmed := TrimSpace(spec);
    if trimmed == "" {
      return Error;
    }
    var marked := MarkSegments(Split(trimmed, ','), min, max, sundayAlias);
    match marked {
      case Error => r := Error;
      case Panic => r := Panic;
      case Ok(values) =>
        ghost var ranges := FieldRanges(spec, min, max, sundayAlias).value;
        FirstHit(ranges);
        assert values[ranges[0].start - min];
        r := Ok(Field(values, AllTrue(values), min, max));
    }
  }

  // ---------------------------------------------------------------- whole expressions

  function WordLength(s: string): (n: nat)
    ensures n <= |s| && (s != "" && !IsSpace(s[0]) ==> n > 0)
  {
    if s == "" || IsSpace(s[0]) then 0 else 1 + WordLength(s[1..])
  }

  /** strings.Fields. */
  function Fields(s: string): seq<string>
    decreases |s|
  {
    var t := TrimLeft(s);
    if t == "" then [] else [t[..WordLength(t)]] + Fields(t[WordLength(t)..])
  }

  /** Smallest and largest value of each of the five fields, and whether 7 stands for Sunday. */
  function Bounds(k: nat): (int, int, bool)
    requires k < 5
  {
    [(0, 59, false), (0, 23, false), (1, 31, false), (1, 12, false), (0, 6, true)][k]
  }

  function RangesOf(parts: seq<string>, k: nat): Outcome<seq<Range>>
    requires |parts| == 5 && k < 5
  {
    FieldRanges(parts[k], Bounds(k).0, Bounds(k).1, Bounds(k).2)
  }

  /** The fields are parsed from left to right and the first that fails decides. */
  ghost predicate FailsAt(parts: seq<string>, k: nat)
    requires |parts| == 5
  {
    k < 5 && !RangesOf(parts, k).Ok? && forall i :: 0 <= i < k ==> RangesOf(parts, i).Ok?
  }

  method Parse(spec: string) returns (r: Outcome<Expression>)
    ensures var parts := Fields(TrimSpace(spec));
            && (r.Ok? <==> |parts| == 5 && forall k :: 0 <= k < 5 ==> RangesOf(parts, k).Ok?)
            && (r.Panic? <==> |parts| == 5 && exists k :: FailsAt(parts, k) && RangesOf(parts, k).Panic?)
            && (r.Ok? ==> Parsed(r.value)
                          && Denotes(r.value.minute, RangesOf(parts, 0).value, 0, 59)
                          && Denotes(r.value.hour, RangesOf(parts, 1).value, 0, 23)
                          && Denotes(r.value.dom, RangesOf(parts, 2).value, 1, 31)
                          && Denotes(r.value.month, RangesOf(parts, 3).value, 1, 12)
                          && Denotes(r.value.dow, RangesOf(parts, 4).value, 0, 6))
  {
    hide FieldRanges, Denotes, Fields, TrimSpace;
    var parts := Fields(TrimSpace(spec));
    if |parts| != 5 {
      return Error;
    }
    var fields := [];
    for k := 0 to 5
      invariant |fields| == k
      invariant forall i :: 0 <= i < k ==> RangesOf(parts, i).Ok? && Denotes(fields[i], RangesOf(parts, i).value, Bounds(i).0, Bounds(i).1)
    {
      var field := ParseField(parts[k], Bounds(k).0, Bounds(k).1, Bounds(k).2);
      if !field.Ok? {
        assert FailsAt(parts, k);
        r := if field.Error? then Error else Panic;
        return;
      }
      fields := fields + [field.value];
    }
    r := Ok(Expression(fields[0], fields[1], fields[2], fields[3], fields[4]));
    assert forall k :: 0 <= k < 5 ==> RangesOf(parts, k).Ok?;
    DenotesParsed(r.value, RangesOf(parts, 0).value, RangesOf(parts, 1).value, RangesOf(parts, 2).value,
                  RangesOf(parts, 3).value, RangesOf(parts, 4).value);
  }

  lemma DenotesParsed(e: Expression, r0: seq<Range>, r1: seq<Range>, r2: seq<Range>, r3: seq<Range>, r4: seq<Range>)
    requires Denotes(e.minute, r0, 0, 59) && Denotes(e.hour, r1, 0, 23) && Denotes(e.dom, r2, 1, 31)
    requires Denotes(e.month, r3, 1, 12) && Denotes(e.dow, r4, 0, 6)
    ensures Parsed(e)
  {
  }

  // ---------------------------------------------------------------- spelling

  /** A list of values, spelled as a comma-separated field. */
  function Spell(vs: seq<nat>): string
    requires vs != []
  {
    if |vs| == 1 then Decimal(vs[0]) else Decimal(vs[0]) + [','] + Spell(vs[1..])
  }

  lemma ParseNumber(v: nat, min: int, max: int, sundayAlias: bool)
    requires 0 <= min <= v <= max < 100 && (sundayAlias ==> v != 7)
    ensures TrimSpace(Decimal(v)) == Decimal(v) && ParseSegment(Decimal(v), min, max, sundayAlias) == Some(Range(v, v, 1))
  {
    hide Decimal, TrimSpace, Atoi, Split;
    DecimalReads(v);
  }

  lemma {:induction false} SpellSplits(vs: seq<nat>)
    requires vs != []
    ensures |Split(Spell(vs), ',')| == |vs|
    ensures forall i :: 0 <= i < |vs| ==> Split(Spell(vs), ',')[i] == Decimal(vs[i])
  {
    hide Split, Decimal;
    var s := Decimal(vs[0]);
    assert forall c :: c in s ==> IsDigit(c);
    if |vs| == 1 {
      SplitWhole(s, ',');
    } else {
      SpellSplits(vs[1..]);
      SplitPrefix(s, Spell(vs[1..]), ',');
    }
  }

  lemma {:induction false} SpellTrimmed(vs: seq<nat>)
    requires vs != []
    ensures Spell(vs) != "" && IsDigit(Spell(vs)[0]) && IsDigit(Spell(vs)[|Spell(vs)| - 1])
  {
    if |vs| > 1 {
      SpellTrimmed(vs[1..]);
    }
  }

  lemma {:induction false} NumbersOutcome(segments: seq<string>, vs: seq<nat>, min: int, max: int, sundayAlias: bool)
    requires 0 <= min <= max < 100 && (sundayAlias ==> max < 7) && |segments| == |vs|
    requires forall i :: 0 <= i < |vs| ==> min <= vs[i] <= max && segments[i] == Decimal(vs[i])
    ensures ListOutcome(segments, min, max, sundayAlias).Ok?
    ensures forall i :: 0 <= i < |vs| ==> ListOutcome(segments, min, max, sundayAlias).value[i] == Range(vs[i], vs[i], 1)
  {
    hide Decimal, TrimSpace, ParseSegment, Overflows;
    if vs != [] {
      assert !Overflows(Range(vs[|vs| - 1], vs[|vs| - 1], 1)) by { SmallRange(vs[|vs| - 1]); }
      NumbersOutcome(segments[..|vs| - 1], vs[..|vs| - 1], min, max, sundayAlias);
      ParseNumber(vs[|vs| - 1], min, max, sundayAlias);
    }
  }

  lemma SmallRange(v: nat)
    requires v < 100
    ensures !Overflows(Range(v, v, 1))
  {
  }

  lemma HitNumbers(ranges: seq<Range>, vs: seq<nat>, v: int)
    requires |ranges| == |vs| && forall i :: 0 <= i < |vs| ==> ranges[i] == Range(vs[i], vs[i], 1)
    ensures SomeHit(ranges, v) <==> v in vs
  {
    if i :| 0 <= i < |vs| && vs[i] == v {
      assert Hits(ranges[i].start, ranges[i].end, ranges[i].step, v);
    }
    if SomeHit(ranges, v) {
      var i :| 0 <= i < |ranges| && Hits(ranges[i].start, ranges[i].end, ranges[i].step, v);
      HitsInside(ranges[i].start, ranges[i].end, ranges[i].step, v);
    }
  }

  /** Every non-empty set of values has a spelling that parses back to exactly that set. */
  lemma SpellParses(vs: seq<nat>, min: int, max: int, sundayAlias: bool)
    requires 0 <= min <= max < 100 && (sundayAlias ==> max < 7)
    requires vs != [] && forall i :: 0 <= i < |vs| ==> min <= vs[i] <= max
    ensures FieldRanges(Spell(vs), min, max, sundayAlias).Ok?
    ensures forall v :: SomeHit(FieldRanges(Spell(vs), min, max, sundayAlias).value, v) <==> v in vs
  {
    hide Spell, Split, ListOutcome, Decimal, IsSpace, IsDigit, TrimSpace, SomeHit;
    SpellTrimmed(vs);
    DigitsNotBlank();
    TrimSpaceTrimmed(Spell(vs));
    SpellSplits(vs);
    NumbersOutcome(Split(Spell(vs), ','), vs, min, max, sundayAlias);
    var ranges := FieldRanges(Spell(vs), min, max, sundayAlias).value;
    forall v ensures SomeHit(ranges, v) <==> v in vs {
      HitNumbers(ranges, vs, v);
    }
  }

  /** The value a number stands for in a field. */
  function Alias(v: int, sundayAlias: bool): int {
    if sundayAlias && v == 7 then 0 else v
  }

  /** A range parses exactly when both its ends, after the Sunday alias, are in the field's bounds and in
      order. */
  lemma RangeParses(a: nat, b: nat, min: int, max: int, sundayAlias: bool)
    requires min <= max && a <= MAX_INT64 && b <= MAX_INT64
    ensures ParseSegment(Decimal(a) + ['-'] + Decimal(b), min, max, sundayAlias)
         == if min <= Alias(a, sundayAlias) <= Alias(b, sundayAlias) <= max
            then Some(Range(Alias(a, sundayAlias), Alias(b, sundayAlias), 1)) else None
  {
    hide Decimal, Split, TrimSpace, Atoi;
    var s, t := Decimal(a), Decimal(b);
    var segment := s + ['-'] + t;
    assert segment[|s|] == '-';
    DecimalReads(a);
    DecimalReads(b);
    SplitPrefix(s, t, '-');
    SplitWhole(t, '-');
    assert Split(segment, '-') == [s, t];
    assert '/' !in segment;
  }

  /** So a day-of-week range that ends in 7 is no range up to Sunday: `0-7` and `7-7` mean Sunday alone and
      any other range to 7 is rejected. */
  lemma DayOfWeekRange(a: nat)
    requires a <= 7
    ensures ParseSegment(Decimal(a) + ['-'] + Decimal(7), 0, 6, true) == if a == 0 || a == 7 then Some(Range(0, 0, 1)) else None
  {
    hide Decimal, ParseSegment;
    RangeParses(a, 7, 0, 6, true);
  }

  /** A star is the whole field. */
  lemma StarParses(min: int, max: int, sundayAlias: bool)
    requires min <= max
    ensures ParseSegment("*", min, max, sundayAlias) == Some(Range(min, max, 1))
  {
  }

  /** What a step makes of a segment: it keeps the start, and a single value runs on to the field's end. */
  function WithStep(base: string, r: Range, n: nat, max: int): Range {
    Range(r.start, if base == "*" || '-' in base then r.end else max, n)
  }

  /** A star, a value or a range with a step `n` denotes every n-th value from its start on, whenever the part
      before the slash parses; but if start and step together leave the 64-bit range, the field, though well
      formed, makes the parser panic. */
  lemma Stepped(base: string, n: nat, min: int, max: int, sundayAlias: bool)
    requires 0 <= min <= max < 100 && 1 <= n <= MAX_INT64
    requires base != "" && TrimSpace(base) == base && '/' !in base
    ensures ListOutcome([base + ['/'] + Decimal(n)], min, max, sundayAlias)
         == match ParseSegment(base, min, max, sundayAlias)
            case None => Error
            case Some(r) => if r.start + n > MAX_INT64 then Panic else Ok([WithStep(base, r, n, max)])
  {
    hide Decimal, Split, TrimSpace, Atoi, IsSpace, IsDigit, ParseFieldValue;
    var t := Decimal(n);
    var segment := base + ['/'] + t;
    SteppedParts(base, n);
    assert segment[|base|] == '/';
    assert ParseStep(segment) == Some((base, n));
    assert ParseStep(base) == Some((base, 1));
    OneSegment(segment, min, max, sundayAlias);
  }

  lemma OneSegment(segment: string, min: int, max: int, sundayAlias: bool)
    requires min <= max && TrimSpace(segment) == segment && segment != ""
    ensures ListOutcome([segment], min, max, sundayAlias)
         == match ParseSegment(segment, min, max, sundayAlias)
            case None => Error
            case Some(r) => if Overflows(r) then Panic else Ok([r])
  {
    hide TrimSpace, ParseSegment;
    var segments := [segment];
    assert segments[..|segments| - 1] == [];
    assert ListOutcome([], min, max, sundayAlias) == Ok([]);
    assert forall r: Range :: [] + [r] == [r];
  }

  lemma SteppedParts(base: string, n: nat)
    requires base != "" && TrimSpace(base) == base && '/' !in base && n <= MAX_INT64
    ensures var segment := base + ['/'] + Decimal(n);
            && Split(segment, '/') == [base, Decimal(n)] && TrimSpace(segment) == segment
            && TrimSpace(Decimal(n)) == Decimal(n) && Atoi(Decimal(n)) == Some(n)
  {
    hide Decimal, Split, Atoi, IsSpace, IsDigit, TrimSpace;
    var t := Decimal(n);
    var segment := base + ['/'] + t;
    DecimalReads(n);
    NoSeparator(t);
    SplitPrefix(base, t, '/');
    SplitWhole(t, '/');
    DigitsNotBlank();
    assert segment[0] == base[0] && segment[|segment| - 1] == t[|t| - 1];
    assert !IsSpace(base[0]) by { TrimmedStart(base); }
    TrimSpaceTrimmed(segment);
  }

  lemma TrimmedStart(s: string)
    requires s != "" && TrimSpace(s) == s
    ensures !IsSpace(s[0])
  {
    hide IsSpace;
    var left := TrimLeft(s);
    assert |TrimSpace(s)| <= |left|;
  }

  /** So the largest step panics in every field that starts at 1, and not in one that starts at 0. */
  lemma LargestStep(min: int, max: int)
    requires 0 <= min <= max < 100
    ensures ListOutcome(["*" + ['/'] + Decimal(MAX_INT64)], min, max, false)
         == if min >= 1 then Panic else Ok([Range(min, max, MAX_INT64)])
  {
    hide Decimal, ParseSegment, ListOutcome, TrimSpace;
    StarParses(min, max, false);
    StarTrimmed();
    Stepped("*", MAX_INT64, min, max, false);
  }

  lemma StarTrimmed()
    ensures TrimSpace("*") == "*"
  {
    hide TrimSpace;
    assert !IsSpace('*');
    TrimSpaceTrimmed("*");
  }

  lemma NoSeparator(s: string)
    requires forall c :: c in s ==> IsDigit(c)
    ensures '/' !in s && '-' !in s && '*' !in s
  {
  }

  // ---------------------------------------------------------------- a whole line

  ghost predicate Word(w: string) {
    w != "" && forall i :: 0 <= i < |w| ==> !IsSpace(w[i])
  }

  lemma {:induction false} WordLengthIs(w: string, rest: string)
    requires forall i :: 0 <= i < |w| ==> !IsSpace(w[i])
    requires rest == "" || IsSpace(rest[0])
    ensures WordLength(w + rest) == |w|
  {
    hide IsSpace;
    if w == "" {
      assert w + rest == rest;
    } else {
      WordLengthIs(w[1..], rest);
      assert (w + rest)[1..] == w[1..] + rest;
    }
  }

  lemma FieldsFirst(w: string, rest: string)
    requires Word(w)
    ensures Fields(w) == [w] && Fields(w + " " + rest) == [w] + Fields(rest)
  {
    hide IsSpace, Fields, TrimLeft;
    BlankIsSpace();
    FirstWord(w, "");
    assert w + "" == w;
    NoWords();
    FirstWord(w, " " + rest);
    assert w + " " + rest == w + (" " + rest);
    FieldsSkip(rest);
  }

  lemma FirstWord(w: string, tail: string)
    requires Word(w) && (tail == "" || IsSpace(tail[0]))
    ensures Fields(w + tail) == [w] + Fields(tail)
  {
    hide IsSpace, WordLength;
    var s := w + tail;
    assert TrimLeft(s) == s;
    WordLengthIs(w, tail);
    assert s[|w|..] == tail && s[..|w|] == w;
  }

  lemma NoWords()
    ensures Fields("") == []
  {
  }

  lemma BlankIsSpace()
    ensures IsSpace(' ')
  {
  }

  lemma FieldsSkip(rest: string)
    ensures Fields(" " + rest) == Fields(rest)
  {
  }

  lemma {:induction false} SpellIsWord(vs: seq<nat>)
    requires vs != []
    ensures Word(Spell(vs))
  {
    hide IsSpace;
    DigitsNotBlank();
    assert !IsSpace(',') by { CommaNoSpace(); }
    if |vs| > 1 {
      SpellIsWord(vs[1..]);
    }
  }

  lemma CommaNoSpace()
    ensures !IsSpace(',')
  {
  }

  function Line(m: seq<nat>, h: seq<nat>, dom: seq<nat>, mon: seq<nat>, dow: seq<nat>): string
    requires m != [] && h != [] && dom != [] && mon != [] && dow != []
  {
    Spell(m) + " " + (Spell(h) + " " + (Spell(dom) + " " + (Spell(mon) + " " + Spell(dow))))
  }

  predicate Within(vs: seq<nat>, k: nat)
    requires k < 5
  {
    vs != [] && forall i :: 0 <= i < |vs| ==> Bounds(k).0 <= vs[i] <= Bounds(k).1
  }

  /** Every choice of values for the five fields has a line that Parse accepts and that means exactly it. */
  lemma LineParses(m: seq<nat>, h: seq<nat>, dom: seq<nat>, mon: seq<nat>, dow: seq<nat>)
    requires Within(m, 0) && Within(h, 1) && Within(dom, 2) && Within(mon, 3) && Within(dow, 4)
    ensures var parts := Fields(TrimSpace(Line(m, h, dom, mon, dow)));
            && |parts| == 5
            && (forall k :: 0 <= k < 5 ==> RangesOf(parts, k).Ok?)
            && (forall k, v :: 0 <= k < 5 ==> (SomeHit(RangesOf(parts, k).value, v) <==> v in [m, h, dom, mon, dow][k]))
  {
    hide Spell, Fields, TrimSpace, Word, SomeHit, FieldRanges;
    SpellIsWord(m); SpellIsWord(h); SpellIsWord(dom); SpellIsWord(mon); SpellIsWord(dow);
    LineTrimmed(m, h, dom, mon, dow);
    FieldsFirst(Spell(dow), "");
    FieldsFirst(Spell(mon), Spell(dow));
    FieldsFirst(Spell(dom), Spell(mon) + " " + Spell(dow));
    FieldsFirst(Spell(h), Spell(dom) + " " + (Spell(mon) + " " + Spell(dow)));
    FieldsFirst(Spell(m), Spell(h) + " " + (Spell(dom) + " " + (Spell(mon) + " " + Spell(dow))));
    SpellParses(m, 0, 59, false);
    SpellParses(h, 0, 23, false);
    SpellParses(dom, 1, 31, false);
    SpellParses(mon, 1, 12, false);
    SpellParses(dow, 0, 6, true);
  }

  lemma LineTrimmed(m: seq<nat>, h: seq<nat>, dom: seq<nat>, mon: seq<nat>, dow: seq<nat>)
    requires m != [] && h != [] && dom != [] && mon != [] && dow != []
    ensures TrimSpace(Line(m, h, dom, mon, dow)) == Line(m, h, dom, mon, dow)
  {
    hide Spell, TrimSpace, IsSpace;
    SpellIsWord(m);
    SpellIsWord(dow);
    var line := Line(m, h, dom, mon, dow);
    assert line[0] == Spell(m)[0] && line[|line| - 1] == Spell(dow)[|Spell(dow)| - 1];
    TrimSpaceTrimmed(line);
  }
}
