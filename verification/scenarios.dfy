/**
  End-to-end runs of the model: a Geiger counter line decoded by the
  USB Geiger parser and dispatched by the output manager to one configured
  output, and an instrument re-enabled with no outputs at all.
 */
module Scenarios {
  import opened Wrappers
  import opened Lexical
  import opened UsbGeigerFormat
  import opened OutputGates
  import opened OutputManager

  /** The record the counter reports as `CPM:1:150:V`: 150 counts per minute, valid. */
  function CpmRecord(): Record
  {
    Cpm(Reading(Int(150), Some(true)), None)
  }

  /** An output that alarms on `cpm.value >= 100`, re-fires at most once a minute, and has no regular schedule. */
  function AlarmOnlyDoc(): Descriptor
  {
    Descriptor("safecast", AlarmCondition("cpm.value", "moreeq", Num(100)),
               AlarmCondition("_unused", "", Num(0)), "or", 60, 0, map[])
  }

  /** A plugin's field mapping for this scenario: `cpm.value` is the CPM reading, any other field is unknown. */
  function CpmMapping(): Resolver
  {
    (config: Descriptor, field: string, data: Record) =>
      if field == "cpm.value" && data.Cpm? && data.cpm.value.Int? then Some(Num(data.cpm.value.n)) else None
  }

  const Instrument: string := "geiger"
  const Counter: Driver := Driver(7, "geiger")

  /** The record is written on the wire as `CPM:1:150:V`. */
  lemma CpmLine()
    ensures Encode(CpmRecord()) == "CPM:1:150:V"
  {
    assert Digit(0) == '0' && Digit(1) == '1' && Digit(5) == '5';
    assert NatToString(15) == NatToString(1) + [Digit(5)] == "15";
    assert NatToString(150) == NatToString(15) + [Digit(0)] == "150";
    var f := ["CPM", "1", "150", "V"];
    assert CpmFields(Reading(Int(150), Some(true)), None) == f;
    assert f[1..][1..][1..] == ["V"];
    assert Join(f[1..][1..], ':') == "150" + [':'] + "V";
    assert Join(f[1..], ':') == "1" + [':'] + "150:V";
    assert Join(f, ':') == "CPM" + [':'] + "1:150:V";
  }

  /** That line, with its terminator, decodes to the record. */
  lemma LineDecodes()
    ensures Decode(Encode(CpmRecord()) + "\n") == Some(CpmRecord())
  {
    DecodeEncode(CpmRecord());
  }

  /** The alarm-only output on the CPM record: it sends exactly when its debounce window is open. */
  lemma AlarmOnlyEvaluates(b: Binding, now: int)
    requires b.config == AlarmOnlyDoc()
    ensures Evaluate(b, CpmRecord(), now, CpmMapping()).send <==> DebounceOpen(b.lastAlarm, 60, now)
    ensures Evaluate(b, CpmRecord(), now, CpmMapping()).binding
         == if DebounceOpen(b.lastAlarm, 60, now) then b.(lastAlarm := Some(now)) else b
  {
    assert CheckAlarm(b.config, b.config.alarm1, CpmRecord(), CpmMapping());
    assert Alarmed(b, CpmRecord(), CpmMapping());
    assert !Regular(b, now);
  }

  /** The registry after the instrument was enabled at `t0` and its query returned the one document. */
  function Enabled(t0: int): Manager
  {
    var m := EnableOutputs(Empty, Instrument);
    QueryAnswered(m, Instrument, Counter, Rows([AlarmOnlyDoc()]), t0).value
  }

  lemma EnabledHasOneOutput(t0: int)
    ensures Instrument in Enabled(t0).active
    ensures Enabled(t0).active[Instrument] == [Binding(0, AlarmOnlyDoc(), t0, None)]
    ensures Inv(Enabled(t0))
    ensures exists s :: s in Enabled(t0).subs && s.driver == Counter && s.target == Instrument
  {
    var m := EnableOutputs(Empty, Instrument);
    InvEmpty();
    EnableOutputsKeepsInv(Empty, Instrument);
    QueryAnsweredKeepsInv(m, Instrument, Counter, Rows([AlarmOnlyDoc()]), t0);
    QueryAppendsSupported(m, Instrument, Counter, [AlarmOnlyDoc()], t0);
    assert Supported([AlarmOnlyDoc()]) == [AlarmOnlyDoc()] by {
      assert [AlarmOnlyDoc()][1..] == [];
    }
    OneCallbackAfterRows(m, Instrument, Counter, [AlarmOnlyDoc()], t0);
  }

  /**
    The CPM record at `t0` sends once; the same record ten seconds later is
    inside the one-minute debounce window and sends nothing; 61 seconds after
    the first it sends again.
   */
  lemma AlarmScenario(t0: int)
    ensures var r1 := Output(Enabled(t0), Instrument, CpmRecord(), t0, CpmMapping());
            var r2 := Output(r1.0, Instrument, CpmRecord(), t0 + 10000, CpmMapping());
            var r3 := Output(r2.0, Instrument, CpmRecord(), t0 + 61000, CpmMapping());
            && r1.1 == [Send(Instrument, 0, 0, CpmRecord())]
            && r2.1 == []
            && r3.1 == [Send(Instrument, 0, 0, CpmRecord())]
  {
    EnabledHasOneOutput(t0);
    var b0 := Binding(0, AlarmOnlyDoc(), t0, None);
    AlarmOnlyEvaluates(b0, t0);
    SingleOutput(Enabled(t0), Instrument, b0, CpmRecord(), t0, CpmMapping());
    var r1 := Output(Enabled(t0), Instrument, CpmRecord(), t0, CpmMapping());
    var b1 := b0.(lastAlarm := Some(t0));
    assert r1.0.active[Instrument] == [b1];
    AlarmOnlyEvaluates(b1, t0 + 10000);
    SingleOutput(r1.0, Instrument, b1, CpmRecord(), t0 + 10000, CpmMapping());
    var r2 := Output(r1.0, Instrument, CpmRecord(), t0 + 10000, CpmMapping());
    assert r2.0.active[Instrument] == [b1];
    AlarmOnlyEvaluates(b1, t0 + 61000);
    SingleOutput(r2.0, Instrument, b1, CpmRecord(), t0 + 61000, CpmMapping());
  }

  /**
    Re-enabling the instrument when its query returns no document empties
    its outputs and detaches its data callback: no callback is left for it,
    and any later record is sent nowhere.
   */
  lemma NoOutputsScenario(t0: int, t1: int, data: Record, now: int)
    ensures var m := EnableOutputs(Enabled(t0), Instrument);
            var m' := QueryAnswered(m, Instrument, Counter, Rows([]), t1).value;
            && (forall s :: s in m'.subs ==> s.driver.instrumentId != Instrument)
            && Output(m', Instrument, data, now, CpmMapping()).1 == []
  {
    EnabledHasOneOutput(t0);
    var m := EnableOutputs(Enabled(t0), Instrument);
    EnableOutputsKeepsInv(Enabled(t0), Instrument);
    NoSinksDetachesCallback(m, Instrument, Counter, [], t1);
    var m' := QueryAnswered(m, Instrument, Counter, Rows([]), t1).value;
    assert m'.active[Instrument] == [];
  }
}
