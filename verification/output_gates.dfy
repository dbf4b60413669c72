/**
  The per-output decisions of the output manager: whether an alarm condition
  holds for a record, the `and`/`or` combination of the two conditions with
  its debounce, and the minimum-interval schedule. Times are milliseconds and
  are passed in; frequencies are seconds.
 */
module OutputGates {
  import opened Wrappers
  import opened Lexical
  import opened UsbGeigerFormat

  /** A value a field mapping resolves to, or an alarm level: a number or a string. */
  datatype Value = Num(n: int) | Str(s: string)

  /** One alarm: a field path (`""` or `"_unused"` when disabled), a comparator name and a level. */
  datatype AlarmCondition = AlarmCondition(field: string, comparator: string, level: Value)

  /**
    An output document: the plugin type, the two alarms and how they combine,
    the alarm re-fire interval and the regular interval (both in seconds), and
    the plugin's own settings (field mapping, credentials), which only the
    plugin reads.
   */
  datatype Descriptor = Descriptor(
    kind: string,
    alarm1: AlarmCondition,
    alarm2: AlarmCondition,
    alrmbool: string,
    alrmfrequency: int,
    frequency: int,
    settings: map<string, string>)

  /**
    A live output for one instrument: a name for the JavaScript object, its
    document, when it last sent successfully (`last`) and when its alarm last
    fired (`last_alarm`, unset until the first time).
   */
  datatype Binding = Binding(id: nat, config: Descriptor, last: int, lastAlarm: Option<int>)

  /** The plugin's `resolveMapping(field, record)` for an output set up with the given document. */
  type Resolver = (Descriptor, string, Record) -> Option<Value>

  // ---------------------------------------------------------------------------
  // JavaScript comparison of the values involved.

  /**
    `<` on two strings: lexicographic order of the characters, compared as
    Unicode scalar values. This is JavaScript's code-unit order for text
    within the Basic Multilingual Plane.
   */
  predicate StrLess(a: string, b: string)
    decreases |a|
  {
    if |a| == 0 then |b| > 0
    else if |b| == 0 then false
    else if a[0] != b[0] then a[0] < b[0]
    else StrLess(a[1..], b[1..])
  }

  predicate AllSpace(s: string)
  {
    forall i :: 0 <= i < |s| ==> IsSpace(s[i])
  }

  /**
    `Number(s)` on the strings the model knows: white space only is 0, an
    optionally signed run of digits (surrounded by white space) is its value,
    anything else is NaN.
   */
  function StringToNumber(s: string): JsInt
  {
    var t := TrimStart(s);
    if AllSpace(t) then Int(0)
    else
      var p := ParseInt(t);
      var signed := t[0] == '-' || t[0] == '+';
      var digits := DigitRun(if signed then t[1..] else t);
      var end := digits + (if signed then 1 else 0);
      if p.Int? && AllSpace(t[end..]) then p else NaN
  }

  /** JavaScript `ToNumber`. */
  function ToNumber(v: Value): JsInt
  {
    match v
    case Num(n) => Int(n)
    case Str(s) => StringToNumber(s)
  }

  /** `a < b`: strings by Unicode scalar values (`StrLess`), otherwise both converted to numbers (NaN compares false). */
  predicate LooseLess(a: Value, b: Value)
  {
    if a.Str? && b.Str? then StrLess(a.s, b.s)
    else ToNumber(a).Int? && ToNumber(b).Int? && ToNumber(a).n < ToNumber(b).n
  }

  /** `a >= b`: for strings the negation of `<`, otherwise numeric (NaN compares false). */
  predicate LooseGreaterEq(a: Value, b: Value)
  {
    if a.Str? && b.Str? then !StrLess(a.s, b.s)
    else ToNumber(a).Int? && ToNumber(b).Int? && ToNumber(a).n >= ToNumber(b).n
  }

  /** `a == b`: same kind compares directly, a string and a number compare as numbers. */
  predicate LooseEq(a: Value, b: Value)
  {
    if a.Str? && b.Str? then a.s == b.s
    else ToNumber(a).Int? && ToNumber(b).Int? && ToNumber(a).n == ToNumber(b).n
  }

  /** `parseFloat(v)` kept when it is a number: a string that parses becomes a number, anything else stays. */
  function Coerce(v: Value): (r: Value)
    ensures r.Num? <==> v.Num? || ParseInt(v.s).Int?
    ensures v.Num? ==> r == v
    ensures v.Str? && ParseInt(v.s).Int? ==> r == Num(ParseInt(v.s).n)
    ensures r.Str? ==> r == v
  {
    match v
    case Num(_) => v
    case Str(s) => if ParseInt(s).Int? then Num(ParseInt(s).n) else v
  }

  /** The comparator switch of `check_alarm`. */
  predicate Compare(comparator: string, field: Value, level: Value)
  {
    if comparator == "less" then LooseLess(field, level)
    else if comparator == "moreeq" then LooseGreaterEq(field, level)
    else if comparator == "eq" then LooseEq(field, level)
    else false
  }

  /** Whether the alarm field is switched off. */
  predicate Disabled(alarm: AlarmCondition)
  {
    alarm.field == "_unused" || alarm.field == ""
  }

  /**
    `check_alarm`: a disabled alarm, or a field the plugin cannot resolve,
    never triggers; otherwise both sides are coerced to numbers where they
    parse and compared with the alarm's comparator.
   */
  predicate CheckAlarm(config: Descriptor, alarm: AlarmCondition, data: Record, resolve: Resolver)
  {
    if Disabled(alarm) then false
    else
      match resolve(config, alarm.field, data)
      case None => false
      case Some(field) => Compare(alarm.comparator, Coerce(field), Coerce(alarm.level))
  }

  /** The `alrmbool` switch: `and`, `or`, and anything else never alarms. */
  predicate Combine(op: string, first: bool, second: bool)
  {
    if op == "and" then first && second
    else if op == "or" then first || second
    else false
  }

  /** Whether the two alarm conditions, combined, hold for this record. */
  predicate Alarmed(b: Binding, data: Record, resolve: Resolver)
  {
    Combine(b.config.alrmbool,
            CheckAlarm(b.config, b.config.alarm1, data, resolve),
            CheckAlarm(b.config, b.config.alarm2, data, resolve))
  }

  /** The debounce window: never fired before, or the last firing is more than `seconds` ago. */
  predicate DebounceOpen(lastAlarm: Option<int>, seconds: int, now: int)
  {
    lastAlarm.None? || now - lastAlarm.value > seconds * 1000
  }

  /** What a gate decided, with the output as the gate left it. */
  datatype GateResult = GateResult(fired: bool, binding: Binding)

  /**
    `alarm(output, data)`: the combined conditions must hold, a zero re-fire
    interval disables alarms, and the alarm fires only outside the debounce
    window. Firing records `now` as the last alarm; nothing else changes.
   */
  function AlarmGate(b: Binding, data: Record, now: int, resolve: Resolver): (r: GateResult)
    ensures r.binding.id == b.id && r.binding.config == b.config && r.binding.last == b.last
    ensures r.fired ==> r.binding.lastAlarm == Some(now)
    ensures r.fired ==> DebounceOpen(b.lastAlarm, b.config.alrmfrequency, now) && b.config.alrmfrequency != 0
    ensures !r.fired ==> r.binding == b
  {
    if !Alarmed(b, data, resolve) then GateResult(false, b)
    else if b.config.alrmfrequency == 0 then GateResult(false, b)
    else if DebounceOpen(b.lastAlarm, b.config.alrmfrequency, now) then GateResult(true, b.(lastAlarm := Some(now)))
    else GateResult(false, b)
  }

  /** `regular(output)`: a zero interval disables it; otherwise more than the interval since the last success. */
  predicate Regular(b: Binding, now: int)
  {
    b.config.frequency != 0 && now - b.last > b.config.frequency * 1000
  }

  /** What one output does with one record: whether it sends, and its bookkeeping afterwards. */
  datatype Evaluation = Evaluation(send: bool, binding: Binding)

  /**
    `alarm(output, data) || regular(output)`: the regular schedule is only
    consulted when the alarm did not fire.
   */
  function Evaluate(b: Binding, data: Record, now: int, resolve: Resolver): (e: Evaluation)
    ensures e.binding == AlarmGate(b, data, now, resolve).binding
    ensures e.send <==> AlarmGate(b, data, now, resolve).fired || Regular(b, now)
  {
    var g := AlarmGate(b, data, now, resolve);
    if g.fired then Evaluation(true, g.binding) else Evaluation(Regular(g.binding, now), g.binding)
  }

  // ---------------------------------------------------------------------------
  // Properties of the gates.

  /** A disabled alarm, or a field that does not resolve, never triggers. */
  lemma DisabledNeverTriggers(config: Descriptor, alarm: AlarmCondition, data: Record, resolve: Resolver)
    requires Disabled(alarm) || resolve(config, alarm.field, data).None?
    ensures !CheckAlarm(config, alarm, data, resolve)
  {
  }

  /** When both sides read as numbers, the comparators are `<`, `>=` and `==`, and any other name is false. */
  lemma NumericComparators(config: Descriptor, alarm: AlarmCondition, data: Record, resolve: Resolver, x: int, y: int)
    requires !Disabled(alarm)
    requires resolve(config, alarm.field, data).Some?
    requires Coerce(resolve(config, alarm.field, data).value) == Num(x)
    requires Coerce(alarm.level) == Num(y)
    ensures alarm.comparator == "less" ==> (CheckAlarm(config, alarm, data, resolve) <==> x < y)
    ensures alarm.comparator == "moreeq" ==> (CheckAlarm(config, alarm, data, resolve) <==> x >= y)
    ensures alarm.comparator == "eq" ==> (CheckAlarm(config, alarm, data, resolve) <==> x == y)
    ensures alarm.comparator !in {"less", "moreeq", "eq"} ==> !CheckAlarm(config, alarm, data, resolve)
  {
  }

  /**
    `check_alarm` writes the coerced level back into the alarm. Coercing is
    idempotent, so every later check sees the same answer as with the level
    it was configured with.
   */
  lemma LevelWriteBackInvisible(config: Descriptor, alarm: AlarmCondition, data: Record, resolve: Resolver)
    ensures Coerce(Coerce(alarm.level)) == Coerce(alarm.level)
    ensures CheckAlarm(config, alarm.(level := Coerce(alarm.level)), data, resolve)
         == CheckAlarm(config, alarm, data, resolve)
  {
  }

  lemma {:induction false} StrLessAsymmetric(a: string, b: string)
    ensures !(StrLess(a, b) && StrLess(b, a))
    ensures StrLess(a, b) ==> a != b
    decreases |a|
  {
    if |a| > 0 && |b| > 0 && a[0] == b[0] {
      StrLessAsymmetric(a[1..], b[1..]);
    }
  }

  lemma {:induction false} StrLessTotal(a: string, b: string)
    ensures a == b || StrLess(a, b) || StrLess(b, a)
    decreases |a|
  {
    if |a| > 0 && |b| > 0 && a[0] == b[0] {
      StrLessTotal(a[1..], b[1..]);
      if a[1..] == b[1..] {
        assert a == [a[0]] + a[1..] && b == [b[0]] + b[1..];
      }
    }
  }

  /**
    `less` and `moreeq` split every pair of numbers and every pair of strings
    in two; a string that is not a number against a number satisfies
    neither.
   */
  lemma LessMoreEqSplit(field: Value, level: Value)
    ensures field.Num? && level.Num? ==> (Compare("less", field, level) != Compare("moreeq", field, level))
    ensures field.Str? && level.Str? ==> (Compare("less", field, level) != Compare("moreeq", field, level))
    ensures field.Str? != level.Str? && (ToNumber(field).NaN? || ToNumber(level).NaN?) ==>
              !Compare("less", field, level) && !Compare("moreeq", field, level) && !Compare("eq", field, level)
  {
  }

  /** `eq` on strings agrees with the order: equal strings are neither less nor greater. */
  lemma StringEqIsOrderEq(a: string, b: string)
    ensures Compare("eq", Str(a), Str(b)) <==> !StrLess(a, b) && !StrLess(b, a)
  {
    StrLessAsymmetric(a, b);
    StrLessTotal(a, b);
  }

  /** Condition 1 true and condition 2 false: `and` does not alarm, `or` does, anything else does not. */
  lemma AndOrTable(first: bool, second: bool, op: string)
    ensures Combine("and", first, second) <==> first && second
    ensures Combine("or", first, second) <==> first || second
    ensures op != "and" && op != "or" ==> !Combine(op, first, second)
  {
  }

  /** A zero alarm interval: the gate never fires and the last alarm time is untouched. */
  lemma ZeroAlarmFrequencyNeverFires(b: Binding, data: Record, now: int, resolve: Resolver)
    requires b.config.alrmfrequency == 0
    ensures AlarmGate(b, data, now, resolve) == GateResult(false, b)
  {
  }

  /** An `alrmbool` other than `and`/`or`: the gate never fires and the last alarm time is untouched. */
  lemma UnknownOperatorNeverFires(b: Binding, data: Record, now: int, resolve: Resolver)
    requires b.config.alrmbool != "and" && b.config.alrmbool != "or"
    ensures AlarmGate(b, data, now, resolve) == GateResult(false, b)
  {
  }

  /**
    The debounce, with the strict comparison: after an alarm at `t`, the gate
    stays shut up to and including `t + freq*1000`, and from one millisecond
    later fires again as soon as the conditions hold.
   */
  lemma Debounce(b: Binding, data: Record, t: int, now: int, resolve: Resolver)
    requires b.lastAlarm == Some(t) && b.config.alrmfrequency != 0
    ensures now <= t + b.config.alrmfrequency * 1000 ==> !AlarmGate(b, data, now, resolve).fired
    ensures now > t + b.config.alrmfrequency * 1000 ==>
              (AlarmGate(b, data, now, resolve).fired <==> Alarmed(b, data, resolve))
  {
  }

  /** Without an earlier alarm, the gate fires exactly when the conditions hold and alarms are enabled. */
  lemma FirstAlarm(b: Binding, data: Record, now: int, resolve: Resolver)
    requires b.lastAlarm.None?
    ensures AlarmGate(b, data, now, resolve).fired <==> Alarmed(b, data, resolve) && b.config.alrmfrequency != 0
  {
  }

  /** The regular gate: off for a zero interval, otherwise strictly more than the interval since `last`. */
  lemma RegularSchedule(b: Binding, now: int)
    ensures b.config.frequency == 0 ==> !Regular(b, now)
    ensures b.config.frequency != 0 ==> (Regular(b, now) <==> now - b.last > b.config.frequency * 1000)
    ensures b.config.frequency > 0 && now <= b.last ==> !Regular(b, now)
  {
  }

  /** The alarm firings of one output over a stream of records, each with its arrival time. */
  function AlarmFirings(b: Binding, events: seq<(Record, int)>, resolve: Resolver): (times: seq<int>)
    ensures |times| <= |events|
    decreases |events|
  {
    if |events| == 0 then []
    else
      var g := AlarmGate(b, events[0].0, events[0].1, resolve);
      (if g.fired then [events[0].1] else []) + AlarmFirings(g.binding, events[1..], resolve)
  }

  /** Consecutive times more than `gap` apart. */
  predicate Spaced(times: seq<int>, gap: int)
  {
    forall i :: 0 < i < |times| ==> times[i] - times[i - 1] > gap
  }

  /**
    However the records arrive, two alarm firings of one output are always
    more than the re-fire interval apart, and the first is more than the
    interval after the alarm already on record.
   */
  lemma {:induction false} FiringsSpaced(b: Binding, events: seq<(Record, int)>, resolve: Resolver)
    ensures var times := AlarmFirings(b, events, resolve);
      && Spaced(times, b.config.alrmfrequency * 1000)
      && (b.lastAlarm.Some? && |times| > 0 ==> times[0] - b.lastAlarm.value > b.config.alrmfrequency * 1000)
    decreases |events|
  {
    if |events| > 0 {
      var g := AlarmGate(b, events[0].0, events[0].1, resolve);
      FiringsSpaced(g.binding, events[1..], resolve);
      var rest := AlarmFirings(g.binding, events[1..], resolve);
      var times := AlarmFirings(b, events, resolve);
      if g.fired {
        assert times == [events[0].1] + rest;
      } else {
        assert times == rest;
      }
    }
  }
}
