/**
 Parsing of cron fields and of five-field cron expressions.

 A field is a comma-separated list of items; each accepted item denotes a set of values. The step
 loop adds on 32-bit unsigned integers and so wraps around for steps near 2^32; the model keeps the
 wrap-around and says exactly when it lets an out-of-range value in.
 */
module CronField {
  import opened Wrappers
  import opened Text
  import opened Sealing
  import CronSearch

  datatype FieldError =
    | InvalidStep | ZeroStep
    | InvalidRange | InvalidRangeStart | InvalidRangeEnd | RangeOutOfBounds
    | InvalidValue | ValueOutOfBounds
    | EmptyField
    | WrongFieldCount

  /** The bounds of a field: 32-bit, with room for one step below the sign bit. */
  predicate Bounds(min: int, max: int) {
    0 <= min <= max < 0x8000_0000
  }

  // ----- the step loop -------------------------------------------------------------------------

  function WrappingAdd(a: int, b: int): int {
    (a + b) % 0x1_0000_0000
  }

  /** Values visited from v: upwards for small steps, downwards once the addition wraps. */
  ghost function StepsFrom(v: int, step: int, max: int): set<int>
    requires 0 <= v && 0 < step < 0x1_0000_0000 && max < 0x8000_0000
    decreases if step < 0x8000_0000 then (if v <= max then max - v + 1 else 0) else (if v <= max then v + 1 else 0)
  {
    if v > max then {} else {v} + StepsFrom(WrappingAdd(v, step), step, max)
  }

  /** A step item means: every step-th value from min, as long as the addition cannot wrap. */
  lemma StepsAreMultiples(v: int, step: int, max: int)
    requires 0 <= v && 0 < step < 0x1_0000_0000 && max < 0x8000_0000
    requires v + step < 0x1_0000_0000
    ensures forall x :: x in StepsFrom(v, step, max) <==> v <= x <= max && (x - v) % step == 0
  {
    forall x ensures x in StepsFrom(v, step, max) <==> v <= x <= max && (x - v) % step == 0 {
      StepIsMultiple(v, step, max, x);
      OnGridIs(v, step, x);
    }
  }

  /** x is v or a whole number of steps after it, sealed. */
  ghost predicate OnGrid(v: int, step: nat, x: int) {
    Sealed(Gridded, (v, step, x), SealDepth(step))
  }

  ghost predicate Gridded(a: (int, nat, int)) { a.1 > 0 && a.0 <= a.2 && (a.2 - a.0) % a.1 == 0 }

  lemma OnGridIs(v: int, step: nat, x: int)
    requires step > 0
    ensures OnGrid(v, step, x) <==> v <= x && (x - v) % step == 0
  {
    SealedIs(Gridded, (v, step, x), SealDepth(step));
  }

  lemma OnGridNext(v: int, step: nat, x: int)
    requires step > 0
    ensures OnGrid(v, step, x) <==> x == v || OnGrid(v + step, step, x)
    ensures OnGrid(v, step, x) ==> v <= x
  {
    OnGridIs(v, step, x);
    OnGridIs(v + step, step, x);
    if v <= x {
      StepShift(v, step, x);
    }
  }

  lemma {:induction false} StepIsMultiple(v: int, step: int, max: int, x: int)
    requires 0 <= v && 0 < step < 0x1_0000_0000 && max < 0x8000_0000
    requires v + step < 0x1_0000_0000
    ensures x in StepsFrom(v, step, max) <==> x <= max && OnGrid(v, step, x)
    decreases if v <= max then max - v + 1 else 0
  {
    OnGridNext(v, step, x);
    if v <= max {
      OnGridNext(v + step, step, x);
      if v + step <= max {
        StepIsMultiple(v + step, step, max, x);
      }
    }
  }

  lemma StepShift(v: int, step: int, x: int)
    requires step > 0 && v <= x
    ensures (x - v) % step == 0 ==> x == v || x >= v + step
    ensures x >= v + step ==> (x - (v + step)) % step == (x - v) % step
  {
    var q, r := (x - v) / step, (x - v) % step;
    if x >= v + step {
      ModUnique(x - v - step, step, q - 1, r);
    }
    if q >= 1 {
      AtLeastOnce(step, q);
    }
  }

  lemma AtLeastOnce(k: int, m: int)
    requires k > 0 && m >= 1
    ensures k * m >= k
  {
  }

  lemma ModUnique(a: int, k: int, q: int, r: int)
    requires k > 0 && a == k * q + r && 0 <= r < k
    ensures a % k == r
  {
    var p := a / k;
    Distribute(k, q, p);
    if q > p {
      AtLeastOnce(k, q - p);
    } else if q < p {
      Distribute(k, p, q);
      AtLeastOnce(k, p - q);
    }
  }

  lemma Distribute(k: int, q: int, p: int)
    ensures k * q - k * p == k * (q - p)
  {
  }

  // ----- one item ------------------------------------------------------------------------------

  ghost function Range(lo: int, hi: int): (s: set<int>)
    ensures forall v :: v in s <==> lo <= v <= hi
    decreases hi - lo
  {
    if lo > hi then {} else Range(lo, hi - 1) + {hi}
  }

  /** What one trimmed item denotes, or the error it raises. */
  ghost function ItemValues(item: string, min: int, max: int): (r: Result<set<int>, FieldError>)
    requires Bounds(min, max)
  {
    if item == "*" then Ok(Range(min, max))
    else if StartsWith(item, "*/") then
      var step := ParseUnsigned(item[2..], U32);
      if step.None? then Err(InvalidStep)
      else if step.value == 0 then Err(ZeroStep)
      else Ok(StepsFrom(min, step.value, max))
    else if '-' in item then
      var parts := Split(item, '-');
      if |parts| != 2 then Err(InvalidRange)
      else
        var start, end := ParseUnsigned(parts[0], U32), ParseUnsigned(parts[1], U32);
        if start.None? then Err(InvalidRangeStart)
        else if end.None? then Err(InvalidRangeEnd)
        else if start.value > end.value || start.value < min || end.value > max then Err(RangeOutOfBounds)
        else Ok(Range(start.value, end.value))
    else
      var val := ParseUnsigned(item, U32);
      if val.None? then Err(InvalidValue)
      else if val.value < min || val.value > max then Err(ValueOutOfBounds)
      else Ok({val.value})
  }

  method InsertRange(values: set<int>, lo: int, hi: int) returns (r: set<int>)
    ensures r == values + Range(lo, hi)
  {
    r := values;
    var v := lo;
    while v <= hi
      invariant lo <= v
      invariant v <= hi + 1 || v == lo
      invariant forall x :: x in r <==> x in values || (lo <= x < v && x <= hi)
    {
      r := r + {v};
      v := v + 1;
    }
  }

  method InsertSteps(values: set<int>, min: int, max: int, step: int) returns (r: set<int>)
    requires Bounds(min, max) && 0 < step < 0x1_0000_0000
    ensures r == values + StepsFrom(min, step, max)
  {
    r := values;
    var v := min;
    while v <= max
      invariant 0 <= v
      invariant values + StepsFrom(min, step, max) == r + StepsFrom(v, step, max)
      decreases if step < 0x8000_0000 then (if v <= max then max - v + 1 else 0) else (if v <= max then v + 1 else 0)
    {
      r := r + {v};
      v := WrappingAdd(v, step);
    }
  }

  /** Adds the values of one item to those collected so far. */
  method ParseItem(item: string, min: int, max: int, values: set<int>) returns (r: Result<set<int>, FieldError>)
    requires Bounds(min, max)
    ensures match ItemValues(item, min, max)
            case Ok(s) => r == Ok(values + s)
            case Err(e) => r == Err(e)
  {
    if item == "*" {
      var all := InsertRange(values, min, max);
      return Ok(all);
    } else if StartsWith(item, "*/") {
      var step := ParseUnsigned(item[2..], U32);
      if step.None? { return Err(InvalidStep); }
      if step.value == 0 { return Err(ZeroStep); }
      var stepped := InsertSteps(values, min, max, step.value);
      return Ok(stepped);
    } else if '-' in item {
      var parts := Split(item, '-');
      if |parts| != 2 { return Err(InvalidRange); }
      var start := ParseUnsigned(parts[0], U32);
      if start.None? { return Err(InvalidRangeStart); }
      var end := ParseUnsigned(parts[1], U32);
      if end.None? { return Err(InvalidRangeEnd); }
      if start.value > end.value || start.value < min || end.value > max { return Err(RangeOutOfBounds); }
      var range := InsertRange(values, start.value, end.value);
      return Ok(range);
    } else {
      var val := ParseUnsigned(item, U32);
      if val.None? { return Err(InvalidValue); }
      if val.value < min || val.value > max { return Err(ValueOutOfBounds); }
      return Ok(values + {val.value});
    }
  }

  // ----- one field -----------------------------------------------------------------------------

  function Items(field: string): (items: seq<string>)
    ensures |items| == |Split(field, ',')| >= 1
  {
    var parts := Split(field, ',');
    seq(|parts|, i requires 0 <= i < |parts| => Trim(parts[i]))
  }

  /** Every item is accepted. */
  ghost predicate AllAccepted(items: seq<string>, min: int, max: int)
    requires Bounds(min, max)
  {
    forall i :: 0 <= i < |items| ==> ItemValues(items[i], min, max).Ok?
  }

  /** The union of what the items denote. */
  ghost predicate Denoted(items: seq<string>, min: int, max: int, v: int)
    requires Bounds(min, max)
  {
    exists i :: 0 <= i < |items| && ItemValues(items[i], min, max).Ok? && v in ItemValues(items[i], min, max).value
  }

  /** The error is that of the first item that is not accepted. */
  ghost predicate FieldRefused(field: string, min: int, max: int, e: FieldError)
    requires Bounds(min, max)
  {
    exists i :: 0 <= i < |Items(field)| && AllAccepted(Items(field)[..i], min, max) && ItemValues(Items(field)[i], min, max) == Err(e)
  }

  /**
   A field is accepted exactly when all its items are, and then its value set is exactly the union
   of what they denote, which is never empty; the error is that of the first rejected item.
   */
  method ParseField(field: string, min: int, max: int) returns (r: Result<set<int>, FieldError>)
    requires Bounds(min, max)
    ensures r.Ok? <==> AllAccepted(Items(field), min, max)
    ensures r.Ok? ==> r.value != {} && forall v :: v in r.value <==> Denoted(Items(field), min, max, v)
    ensures r.Err? ==> FieldRefused(field, min, max, r.error)
  {
    var values: set<int> := {};
    var items := Items(field);
    for i := 0 to |items|
      invariant ParsedTo(items, i, min, max, values)
    {
      r := ParseNext(items, i, min, max, values);
      if r.Err? {
        return;
      }
      values := r.value;
    }
    assert items[..|items|] == items;
    if values == {} {
      assert false;
    }
    return Ok(values);
  }

  /** The first n items are accepted, and these are the values they denote. */
  ghost predicate ParsedTo(items: seq<string>, n: nat, min: int, max: int, values: set<int>)
    requires Bounds(min, max)
  {
    && n <= |items| && AllAccepted(items[..n], min, max) && (n > 0 ==> values != {})
    && forall v :: v in values <==> Denoted(items[..n], min, max, v)
  }

  /** One turn of the loop over the items. */
  method ParseNext(items: seq<string>, i: nat, min: int, max: int, values: set<int>) returns (r: Result<set<int>, FieldError>)
    requires Bounds(min, max) && i < |items| && ParsedTo(items, i, min, max, values)
    ensures r.Ok? ==> ParsedTo(items, i + 1, min, max, r.value)
    ensures r.Err? ==> AllAccepted(items[..i], min, max) && ItemValues(items[i], min, max) == Err(r.error)
  {
    r := ParseItem(items[i], min, max, values);
    if r.Ok? {
      ParsedNext(items, i, min, max, values, r.value);
    }
  }

  lemma ParsedNext(items: seq<string>, i: nat, min: int, max: int, values: set<int>, more: set<int>)
    requires Bounds(min, max) && i < |items| && ParsedTo(items, i, min, max, values)
    requires ItemValues(items[i], min, max).Ok? && more == values + ItemValues(items[i], min, max).value
    ensures ParsedTo(items, i + 1, min, max, more)
  {
    ItemNonEmpty(items[i], min, max);
    DenotedExtend(items[..i], items[i], min, max);
    assert items[..i + 1] == items[..i] + [items[i]];
  }

  lemma ItemNonEmpty(item: string, min: int, max: int)
    requires Bounds(min, max) && ItemValues(item, min, max).Ok?
    ensures ItemValues(item, min, max).value != {}
  {
    var s := ItemValues(item, min, max).value;
    if item == "*" || StartsWith(item, "*/") {
      assert min in s;
    } else if '-' in item {
      assert ParseUnsigned(Split(item, '-')[0], U32).value in s;
    }
  }

  lemma DenotedExtend(items: seq<string>, item: string, min: int, max: int)
    requires Bounds(min, max) && ItemValues(item, min, max).Ok?
    ensures forall v :: Denoted(items + [item], min, max, v) <==>
                        Denoted(items, min, max, v) || v in ItemValues(item, min, max).value
  {
    var more := items + [item];
    forall v
      ensures Denoted(more, min, max, v) <==> Denoted(items, min, max, v) || v in ItemValues(item, min, max).value
    {
      if Denoted(items, min, max, v) {
        var i :| 0 <= i < |items| && ItemValues(items[i], min, max).Ok? && v in ItemValues(items[i], min, max).value;
        assert more[i] == items[i];
      }
      assert more[|items|] == item;
      if Denoted(more, min, max, v) && v !in ItemValues(item, min, max).value {
        var i :| 0 <= i < |more| && ItemValues(more[i], min, max).Ok? && v in ItemValues(more[i], min, max).value;
        assert items[i] == more[i];
      }
    }
  }

  // ----- when values stay in range -------------------------------------------------------------

  /** The step of an accepted step item that wraps below min. */
  predicate StepWraps(item: string, min: int) {
    item != "*" && StartsWith(item, "*/") &&
    var step := ParseUnsigned(item[2..], U32);
    step.Some? && step.value > 0 && min + step.value >= 0x1_0000_0000
  }

  predicate InRange(s: set<int>, min: int, max: int) {
    forall v :: v in s ==> min <= v <= max
  }

  lemma ItemInRange(item: string, min: int, max: int)
    requires Bounds(min, max) && ItemValues(item, min, max).Ok?
    ensures InRange(ItemValues(item, min, max).value, min, max) <==> !StepWraps(item, min)
  {
    if item != "*" && StartsWith(item, "*/") {
      var step := ParseUnsigned(item[2..], U32).value;
      if min + step < 0x1_0000_0000 {
        StepsAreMultiples(min, step, max);
      } else {
        var below := WrappingAdd(min, step);
        assert below == min + step - 0x1_0000_0000;
        assert below in StepsFrom(below, step, max);
        assert below in StepsFrom(min, step, max);
      }
    }
  }

  /** The values of an accepted field stay in range if and only if none of its steps wraps. */
  lemma FieldInRangeIffNoWrap(field: string, min: int, max: int, values: set<int>)
    requires Bounds(min, max) && AllAccepted(Items(field), min, max)
    requires forall v :: v in values <==> Denoted(Items(field), min, max, v)
    ensures InRange(values, min, max) <==> forall i :: 0 <= i < |Items(field)| ==> !StepWraps(Items(field)[i], min)
  {
    var items := Items(field);
    forall i | 0 <= i < |items|
      ensures InRange(ItemValues(items[i], min, max).value, min, max) <==> !StepWraps(items[i], min)
    {
      ItemInRange(items[i], min, max);
    }
    if InRange(values, min, max) {
      forall i | 0 <= i < |items| ensures !StepWraps(items[i], min) {
        forall v | v in ItemValues(items[i], min, max).value ensures min <= v <= max {
          assert Denoted(items, min, max, v);
        }
      }
    }
  }

  /** A field whose lower bound is zero can never wrap. */
  lemma ZeroBasedInRange(field: string, max: int, values: set<int>)
    requires Bounds(0, max) && AllAccepted(Items(field), 0, max)
    requires forall v :: v in values <==> Denoted(Items(field), 0, max, v)
    ensures InRange(values, 0, max)
  {
    FieldInRangeIffNoWrap(field, 0, max, values);
  }

  /** The largest step does wrap in a day-of-month field, and lets day 0 in. */
  lemma WrappingStepExample()
    ensures var item := "*/" + PrintNat(4294967295);
            StepWraps(item, 1) && ItemValues(item, 1, 31).Ok? && 0 in ItemValues(item, 1, 31).value
  {
    var item := "*/" + PrintNat(4294967295);
    assert item[..2] == "*/" && item[2..] == PrintNat(4294967295);
    ParsePrinted(4294967295, U32);
    assert WrappingAdd(1, 4294967295) == 0;
    assert 0 in StepsFrom(0, 4294967295, 31);
  }

  // ----- a whole expression --------------------------------------------------------------------

  lemma HasMember(s: set<int>)
    ensures s == {} || exists x :: x in s
  {
    if forall x :: x !in s {
      assert s == {};
    }
  }

  /** Reduces each weekday number modulo 7, so that 7 also means Sunday. */
  method NormalizeWeekdays(raw: set<int>) returns (days: set<int>)
    requires InRange(raw, 0, 7)
    ensures days == set d | d in raw :: d % 7
  {
    days := {};
    var rest := raw;
    while rest != {}
      invariant rest <= raw
      invariant days == set d | d in raw - rest :: d % 7
      decreases rest
    {
      HasMember(rest);
      var d :| d in rest;
      assert raw - (rest - {d}) == (raw - rest) + {d};
      if d == 7 {
        days := days + {0};
      } else {
        days := days + {d};
      }
      rest := rest - {d};
    }
    assert raw - rest == raw;
  }

  /** Five fields, each accepted within its bounds. */
  ghost predicate FieldsAccepted(f: seq<string>) {
    && |f| == 5
    && AllAccepted(Items(f[0]), 0, 59) && AllAccepted(Items(f[1]), 0, 23)
    && AllAccepted(Items(f[2]), 1, 31) && AllAccepted(Items(f[3]), 1, 12)
    && AllAccepted(Items(f[4]), 0, 7)
  }

  /** The matcher holds exactly the values of minute, hour, day, month and weekday; 7 also means Sunday. */
  ghost predicate FieldsDenote(f: seq<string>, m: CronSearch.CronMatcher) {
    && |f| == 5
    && (forall v :: v in m.minutes <==> Denoted(Items(f[0]), 0, 59, v))
    && (forall v :: v in m.hours <==> Denoted(Items(f[1]), 0, 23, v))
    && (forall v :: v in m.daysOfMonth <==> Denoted(Items(f[2]), 1, 31, v))
    && (forall v :: v in m.months <==> Denoted(Items(f[3]), 1, 12, v))
    && (forall w :: w in m.daysOfWeek <==>
          (0 <= w <= 6 && (Denoted(Items(f[4]), 0, 7, w) || (w == 0 && Denoted(Items(f[4]), 0, 7, 7)))))
  }

  /** The error of a refused expression: a wrong number of fields, or that of the first refused one. */
  ghost predicate ExpressionRefused(f: seq<string>, e: FieldError) {
    if |f| != 5 then e == WrongFieldCount
    else if !AllAccepted(Items(f[0]), 0, 59) then FieldRefused(f[0], 0, 59, e)
    else if !AllAccepted(Items(f[1]), 0, 23) then FieldRefused(f[1], 0, 23, e)
    else if !AllAccepted(Items(f[2]), 1, 31) then FieldRefused(f[2], 1, 31, e)
    else if !AllAccepted(Items(f[3]), 1, 12) then FieldRefused(f[3], 1, 12, e)
    else FieldRefused(f[4], 0, 7, e)
  }

  /**
   Five whitespace-separated fields. An accepted expression has usable time-of-day fields, which is
   what the search needs, and weekday values reduced modulo 7.
   */
  method ParseCron(expr: string) returns (r: Result<CronSearch.CronMatcher, FieldError>)
    ensures r.Ok? <==> FieldsAccepted(SplitWhitespace(expr))
    ensures r.Ok? ==> FieldsDenote(SplitWhitespace(expr), r.value)
    ensures r.Ok? ==> CronSearch.TimeFieldsUsable(r.value)
    ensures r.Err? ==> ExpressionRefused(SplitWhitespace(expr), r.error)
  {
    var parts := SplitWhitespace(expr);
    if |parts| != 5 {
      return Err(WrongFieldCount);
    }
    var minutes := ParseField(parts[0], 0, 59);
    if minutes.Err? { return Err(minutes.error); }
    var hours := ParseField(parts[1], 0, 23);
    if hours.Err? { return Err(hours.error); }
    var daysOfMonth := ParseField(parts[2], 1, 31);
    if daysOfMonth.Err? { return Err(daysOfMonth.error); }
    var months := ParseField(parts[3], 1, 12);
    if months.Err? { return Err(months.error); }
    var rawDow := ParseField(parts[4], 0, 7);
    if rawDow.Err? { return Err(rawDow.error); }
    ZeroBasedInRange(parts[0], 59, minutes.value);
    ZeroBasedInRange(parts[1], 23, hours.value);
    ZeroBasedInRange(parts[4], 7, rawDow.value);
    var daysOfWeek := NormalizeWeekdays(rawDow.value);
    WeekdaysModSeven(rawDow.value, daysOfWeek);
    var m := CronSearch.CronMatcher(minutes.value, hours.value, daysOfMonth.value, months.value, daysOfWeek);
    assert CronSearch.TimeFieldsUsable(m) by {
      HasMember(m.hours);
      HasMember(m.minutes);
    }
    return Ok(m);
  }

  lemma WeekdaysModSeven(raw: set<int>, days: set<int>)
    requires InRange(raw, 0, 7) && days == set d | d in raw :: d % 7
    ensures forall w :: w in days <==> 0 <= w <= 6 && (w in raw || (w == 0 && 7 in raw))
  {
    forall w ensures w in days <==> 0 <= w <= 6 && (w in raw || (w == 0 && 7 in raw)) {
      if w in raw && 0 <= w <= 6 { assert w % 7 == w; }
      if 7 in raw { assert 7 % 7 == 0; }
    }
  }

  // ----- what texts are accepted ---------------------------------------------------------------

  /** An expression written as words between gaps is accepted and means what its words say. */
  lemma SpacedFields(gaps: seq<string>, words: seq<string>)
    requires WellSpaced(gaps, words)
    ensures SplitWhitespace(Spaced(gaps, words)) == words
    ensures FieldsAccepted(SplitWhitespace(Spaced(gaps, words))) <==> FieldsAccepted(words)
  {
    WordsAreSplit(gaps, words);
  }

  /** The items of a field written with commas between them, each with white space around it. */
  lemma CommaItems(parts: seq<string>, i: nat, before: string, core: string, after: string)
    requires parts != [] && (forall k :: 0 <= k < |parts| ==> ',' !in parts[k]) && i < |parts|
    requires parts[i] == before + core + after && Blank(before) && Blank(after)
    requires core != [] && !IsWhitespace(core[0]) && !IsWhitespace(core[|core| - 1])
    ensures |Items(Joined(parts, ','))| == |parts| && Items(Joined(parts, ','))[i] == core
  {
    JoinedSplits(parts, ',');
    TrimTakesPadding(before, core, after);
  }

  lemma DecimalCharacters(plus: bool, zeros: nat, n: nat)
    ensures var s := Decimal(plus, zeros, n);
            s != [] && s[0] != '*' && '-' !in s && !StartsWith(s, "*/") && s != "*"
  {
    var s := Decimal(plus, zeros, n);
    var digits := Zeros(zeros) + PrintNat(n);
    forall i | 0 <= i < |s| ensures s[i] != '-' && s[i] != '*' {
      assert s[i] == '+' || s[i] in digits;
      assert forall k :: 0 <= k < |digits| ==> IsDigit(digits[k]);
    }
    assert s[0] != '*';
    assert |s| >= 2 ==> s[..2][0] == s[0];
  }

  /** A star denotes every value of the field. */
  lemma StarItem(min: int, max: int)
    requires Bounds(min, max)
    ensures var r := ItemValues("*", min, max); r.Ok? && forall v :: v in r.value <==> min <= v <= max
  {
  }

  /** A number denotes itself if it is in bounds, and is refused otherwise. */
  lemma NumberItem(plus: bool, zeros: nat, n: nat, min: int, max: int)
    requires Bounds(min, max) && n < U32
    ensures var r := ItemValues(Decimal(plus, zeros, n), min, max);
            if min <= n <= max then r == Ok({n}) else r == Err(ValueOutOfBounds)
  {
    DecimalCharacters(plus, zeros, n);
    DecimalParses(plus, zeros, n, U32);
  }

  /** Two numbers with a hyphen denote everything between them, both included, if that is in order and in bounds. */
  lemma RangeItem(a: nat, b: nat, min: int, max: int)
    requires Bounds(min, max) && a < U32 && b < U32
    ensures var r := ItemValues(PrintNat(a) + ['-'] + PrintNat(b), min, max);
            if min <= a <= b <= max then r.Ok? && forall v :: v in r.value <==> a <= v <= b else r == Err(RangeOutOfBounds)
  {
    RangeShape(a, b);
    PrintParses(a);
    PrintParses(b);
    RangeOf(PrintNat(a) + ['-'] + PrintNat(b), PrintNat(a), PrintNat(b), a, b, min, max);
  }

  lemma PrintParses(n: nat)
    requires n < U32
    ensures ParseUnsigned(PrintNat(n), U32) == Some(n)
  {
    DecimalParses(false, 0, n, U32);
    assert Decimal(false, 0, n) == PrintNat(n);
  }

  /** An item of two parts with a hyphen between them, both of which parse. */
  lemma RangeOf(item: string, x: string, y: string, a: nat, b: nat, min: int, max: int)
    requires Bounds(min, max) && item != "*" && !StartsWith(item, "*/") && '-' in item && Split(item, '-') == [x, y]
    requires ParseUnsigned(x, U32) == Some(a) && ParseUnsigned(y, U32) == Some(b)
    ensures var r := ItemValues(item, min, max);
            if min <= a <= b <= max then r.Ok? && forall v :: v in r.value <==> a <= v <= b else r == Err(RangeOutOfBounds)
  {
  }

  lemma RangeShape(a: nat, b: nat)
    ensures var item := PrintNat(a) + ['-'] + PrintNat(b);
            && item != "*" && !StartsWith(item, "*/") && '-' in item && Split(item, '-') == [PrintNat(a), PrintNat(b)]
  {
    var item := PrintNat(a) + ['-'] + PrintNat(b);
    assert IsDigit(item[0]) && item[|PrintNat(a)|] == '-';
    assert |item| >= 2 ==> item[..2][0] == item[0];
    SplitFirst(PrintNat(a), '-', PrintNat(b));
    SplitSingle(PrintNat(b), '-');
  }

  /** A star, a slash and a step denote min and every step-th value after it, as long as the step does not wrap. */
  lemma StepItem(k: nat, min: int, max: int)
    requires Bounds(min, max) && 0 < k < U32 && min + k < U32
    ensures var r := ItemValues("*/" + PrintNat(k), min, max);
            r.Ok? && forall v :: v in r.value <==> min <= v <= max && (v - min) % k == 0
  {
    var item := "*/" + PrintNat(k);
    assert item[..2] == "*/" && item[2..] == PrintNat(k);
    assert |item| > 1;
    PrintParses(k);
    StepsAreMultiples(min, k, max);
  }

  /** One item alone is its own field. */
  lemma SingleItemField(item: string)
    requires IsWord(item) && ',' !in item
    ensures Items(item) == [item]
  {
    SplitSingle(item, ',');
    TrimTakesPadding([], item, []);
    assert [] + item + [] == item;
  }

  lemma SingleField(item: string, min: int, max: int)
    requires Bounds(min, max) && IsWord(item) && ',' !in item && ItemValues(item, min, max).Ok?
    ensures AllAccepted(Items(item), min, max)
    ensures forall v :: Denoted(Items(item), min, max, v) <==> v in ItemValues(item, min, max).value
  {
    SingleItemField(item);
    forall v ensures Denoted(Items(item), min, max, v) <==> v in ItemValues(item, min, max).value {
      if v in ItemValues(item, min, max).value {
        assert ItemValues(Items(item)[0], min, max).Ok?;
      }
    }
  }

  /** "30 2 * * *" is accepted and means half past two on every day. */
  lemma HalfPastTwo(expr: string, m: CronSearch.CronMatcher)
    requires expr == "30 2 * * *" && FieldsDenote(SplitWhitespace(expr), m)
    ensures FieldsAccepted(SplitWhitespace(expr))
    ensures m.minutes == {30} && m.hours == {2}
    ensures (forall d :: d in m.daysOfMonth <==> 1 <= d <= 31) && (forall mo :: mo in m.months <==> 1 <= mo <= 12)
    ensures forall w :: w in m.daysOfWeek <==> 0 <= w <= 6
  {
    FiveWords(expr);
    ThirtyTwo();
    SingleField("30", 0, 59);
    SingleField("2", 0, 23);
    StarField(1, 31);
    StarField(1, 12);
    StarField(0, 7);
    assert forall v :: v in m.minutes <==> v in {30};
    assert forall v :: v in m.hours <==> v in {2};
  }

  lemma StarField(min: int, max: int)
    requires Bounds(min, max)
    ensures AllAccepted(Items("*"), min, max) && forall v :: Denoted(Items("*"), min, max, v) <==> min <= v <= max
  {
    StarItem(min, max);
    SingleField("*", min, max);
  }

  lemma ThirtyTwo()
    ensures ItemValues("30", 0, 59) == Ok({30}) && ItemValues("2", 0, 23) == Ok({2})
  {
    assert PrintNat(3) == "3";
    assert PrintNat(30) == "30" && PrintNat(2) == "2";
    NumberItem(false, 0, 30, 0, 59);
    NumberItem(false, 0, 2, 0, 23);
    assert Zeros(0) + "30" == "30" && Zeros(0) + "2" == "2";
  }

  lemma FiveWords(expr: string)
    requires expr == "30 2 * * *"
    ensures SplitWhitespace(expr) == ["30", "2", "*", "*", "*"]
  {
    OneSpaceApart("30", "2", "*", "*", "*");
    assert "*" + (" " + "*") == "* *" && "*" + (" " + "* *") == "* * *";
    assert "2" + (" " + "* * *") == "2 * * *" && "30" + (" " + "2 * * *") == expr;
  }

  lemma OneSpaceApart(a: string, b: string, c: string, d: string, e: string)
    requires IsWord(a) && IsWord(b) && IsWord(c) && IsWord(d) && IsWord(e)
    ensures SplitWhitespace(a + (" " + (b + (" " + (c + (" " + (d + (" " + e)))))))) == [a, b, c, d, e]
  {
    var de := d + (" " + e);
    var cde := c + (" " + de);
    var bcde := b + (" " + cde);
    WordThenSpace(a, bcde);
    WordThenSpace(b, cde);
    WordThenSpace(c, de);
    WordThenSpace(d, e);
    WordIsTaken(e, []);
    assert e + [] == e;
  }

  lemma WordThenSpace(word: string, rest: string)
    requires IsWord(word)
    ensures SplitWhitespace(word + (" " + rest)) == [word] + SplitWhitespace(rest)
  {
    BlankIsSkipped(" ", rest);
    WordIsTaken(word, " " + rest);
  }
}
