/**
  The line decoder of the Medcom USB Geiger dongle driver: one text line in,
  zero or one record out. Lines are colon-separated; the leading token picks
  the frame type.
 */
module UsbGeigerFormat {
  import opened Wrappers
  import opened Lexical

  /** One counter input of a `CPM` frame: its count and its validity flag (unset when the flag is neither `V` nor `X`). */
  datatype Reading = Reading(value: JsInt, valid: Option<bool>)

  /**
    A record emitted on the driver's `data` event. The first four come from
    decoded lines; `DeviceTag` and `UniqueId` are answered by the driver itself.
    Absent JavaScript properties are `None`; `parseInt` failures are `NaN`.
   */
  datatype Record =
    | Cpm(cpm: Reading, cpm2: Option<Reading>)
    | Version(version: string)
    | Counts(input1: JsInt, input2: Option<JsInt>, uptime: JsInt)
    | Hz(i1: Option<string>, i2: Option<string>, ram: Option<string>, win1: Option<string>, win2: Option<string>)
    | DeviceTag(devicetag: string)
    | UniqueId(uniqueId: string)

  /** The banner the dongle prints when it starts. */
  const Banner: string := "USB Geiger"

  /** The colon-separated fields of a line, after the first newline is dropped. */
  function Fields(line: string): seq<string>
  {
    Split(RemoveFirst(line, '\n'), ':')
  }

  /** `resp[i]`: undefined past the end of the field list. */
  function Field(resp: seq<string>, i: nat): Option<string>
  {
    if i < |resp| then Some(resp[i]) else None
  }

  /** `parseInt(resp[i])`: NaN past the end, since `parseInt(undefined)` is NaN. */
  function IntField(resp: seq<string>, i: nat): JsInt
  {
    if i < |resp| then ParseInt(resp[i]) else NaN
  }

  /** The `switch` on a validity flag: `X` is invalid, `V` is valid, anything else leaves it unset. */
  function Validity(flag: Option<string>): Option<bool>
  {
    if flag == Some("X") then Some(false)
    else if flag == Some("V") then Some(true)
    else None
  }

  /** `s.substr(0, n)`. */
  function Prefix(s: string, n: nat): string
  {
    if |s| <= n then s else s[..n]
  }

  /** The driver's `format`: decode one line into at most one record. */
  function Decode(line: string): (r: Option<Record>)
    ensures |line| < 2 ==> r == None
    ensures r.Some? ==> !r.value.DeviceTag? && !r.value.UniqueId?
  {
    if |line| < 2 then None
    else
      var data := RemoveFirst(line, '\n');
      Frame(data, Split(data, ':'))
  }

  /** The dispatch on the leading token of `data`, whose fields are `resp`. */
  function Frame(data: string, resp: seq<string>): (r: Option<Record>)
    requires |resp| >= 1
    ensures r.Some? ==> !r.value.DeviceTag? && !r.value.UniqueId?
  {
    if resp[0] == "CPM" then
      Some(CpmOf(resp))
    else if Prefix(data, 10) == Banner then
      Some(Version(data))
    else if resp[0] == "COUNTS" then
      Some(CountsOf(resp))
    else if resp[0] == "HZ1" then
      Some(Hz(Field(resp, 1), Field(resp, 3), Field(resp, 5), Field(resp, 7), Field(resp, 9)))
    else
      None
  }

  /** The record a `CPM` field list decodes to, in terms of its fields. */
  function CpmOf(resp: seq<string>): Record
  {
    Cpm(ReadingAt(resp, 2), if IntField(resp, 1) == Int(2) then Some(ReadingAt(resp, 4)) else None)
  }

  /** One input of a `CPM` frame: the count at position `i`, its flag right after. */
  function ReadingAt(resp: seq<string>, i: nat): Reading
  {
    Reading(IntField(resp, i), Validity(Field(resp, i + 1)))
  }

  /** The record a `COUNTS` field list decodes to, in terms of its fields. */
  function CountsOf(resp: seq<string>): Record
  {
    if IntField(resp, 1) == Int(2) then Counts(IntField(resp, 2), Some(IntField(resp, 3)), IntField(resp, 4))
    else Counts(IntField(resp, 2), None, IntField(resp, 3))
  }

  // ---------------------------------------------------------------------------
  // Properties of the decoder, one frame type at a time.

  /** A `CPM` line: the count of field 2, the `V`/`X` flag of field 3, and a second input iff field 1 reads 2. */
  lemma DecodeCpm(line: string)
    requires |line| >= 2 && Fields(line)[0] == "CPM"
    ensures var resp := Fields(line);
      && Decode(line).Some? && Decode(line).value.Cpm?
      && var rec := Decode(line).value;
      && rec.cpm.value == IntField(resp, 2)
      && (rec.cpm.valid == Some(true) <==> Field(resp, 3) == Some("V"))
      && (rec.cpm.valid == Some(false) <==> Field(resp, 3) == Some("X"))
      && (rec.cpm.valid == None <==> Field(resp, 3) != Some("V") && Field(resp, 3) != Some("X"))
      && (rec.cpm2.Some? <==> IntField(resp, 1) == Int(2))
      && (rec.cpm2.Some? ==>
            && rec.cpm2.value.value == IntField(resp, 4)
            && (rec.cpm2.value.valid == Some(true) <==> Field(resp, 5) == Some("V"))
            && (rec.cpm2.value.valid == Some(false) <==> Field(resp, 5) == Some("X")))
  {
  }

  /** A line that is not `CPM` and starts with the banner is a version record: the line minus its first newline only. */
  lemma DecodeBanner(line: string)
    requires |line| >= 2 && Fields(line)[0] != "CPM"
    requires Prefix(RemoveFirst(line, '\n'), 10) == Banner
    ensures Decode(line) == Some(Version(RemoveFirst(line, '\n')))
    ensures '\n' in line ==> exists i :: 0 <= i < |line| && line[i] == '\n' && '\n' !in line[..i]
                                      && Decode(line).value.version == line[..i] + line[i + 1..]
  {
    if '\n' in line {
      RemoveFirstSplices(line, '\n');
      var i := IndexOf(line, '\n');
      assert line[i] == '\n' && '\n' !in line[..i];
    }
  }

  /** `COUNTS`: input 1 from field 2; with two inputs, input 2 from field 3 and uptime from field 4, else uptime from field 3. */
  lemma DecodeCounts(line: string)
    requires |line| >= 2 && Fields(line)[0] == "COUNTS"
    ensures var resp := Fields(line);
      && Decode(line).Some? && Decode(line).value.Counts?
      && var rec := Decode(line).value;
      && rec.input1 == IntField(resp, 2)
      && (IntField(resp, 1) == Int(2) ==> rec.input2 == Some(IntField(resp, 3)) && rec.uptime == IntField(resp, 4))
      && (IntField(resp, 1) != Int(2) ==> rec.input2 == None && rec.uptime == IntField(resp, 3))
  {
    var data := RemoveFirst(line, '\n');
    JoinStartsWithFirst(Fields(line), ':');
    assert data[..6] == "COUNTS";
    assert data[0] != Banner[0];
  }

  /** `HZ1`: the raw strings at the odd positions 1, 3, 5, 7 and 9. */
  lemma DecodeHz(line: string)
    requires |line| >= 2 && Fields(line)[0] == "HZ1"
    ensures var resp := Fields(line);
      Decode(line) == Some(Hz(Field(resp, 1), Field(resp, 3), Field(resp, 5), Field(resp, 7), Field(resp, 9)))
  {
    var data := RemoveFirst(line, '\n');
    JoinStartsWithFirst(Fields(line), ':');
    assert data[..3] == "HZ1";
    assert data[0] != Banner[0];
  }

  /** Any other leading token, without the banner, is dropped. */
  lemma DecodeUnknown(line: string)
    requires |line| >= 2
    requires Fields(line)[0] !in {"CPM", "COUNTS", "HZ1"}
    requires Prefix(RemoveFirst(line, '\n'), 10) != Banner
    ensures Decode(line) == None
  {
  }

  // ---------------------------------------------------------------------------
  // The decoder's inverse: what the dongle sends for a record.

  /** How a count is written: digits for a number, nothing for NaN. */
  function EncodeInt(v: JsInt): string
  {
    match v
    case NaN => ""
    case Int(n) => IntToString(n)
  }

  /** How a validity flag is written: `V`, `X`, or an empty field for an unset flag. */
  function EncodeFlag(valid: Option<bool>): string
  {
    match valid
    case Some(true) => "V"
    case Some(false) => "X"
    case None => ""
  }

  /** Text that can stand as one field of a line: no separator and no line terminator. */
  predicate Plain(f: string)
  {
    ':' !in f && '\n' !in f
  }

  predicate PlainField(f: Option<string>)
  {
    f.Some? && Plain(f.value)
  }

  /** The records a line can carry, in a form the dongle could have written. */
  predicate Encodable(r: Record)
  {
    match r
    case Cpm(_, _) => true
    case Counts(_, _, _) => true
    case Version(v) => Prefix(v, 10) == Banner && '\n' !in v
    case Hz(i1, i2, ram, win1, win2) =>
      PlainField(i1) && PlainField(i2) && PlainField(ram) && PlainField(win1) && PlainField(win2)
    case DeviceTag(_) => false
    case UniqueId(_) => false
  }

  function CpmFields(c: Reading, c2: Option<Reading>): (fields: seq<string>)
  {
    ["CPM", IntToString(InputsOf(c2.Some?)), EncodeInt(c.value), EncodeFlag(c.valid)]
    + (if c2.Some? then [EncodeInt(c2.value.value), EncodeFlag(c2.value.valid)] else [])
  }

  function CountsFields(in1: JsInt, in2: Option<JsInt>, up: JsInt): (fields: seq<string>)
  {
    ["COUNTS", IntToString(InputsOf(in2.Some?)), EncodeInt(in1)]
    + (if in2.Some? then [EncodeInt(in2.value)] else []) + [EncodeInt(up)]
  }

  function HzFields(i1: string, i2: string, ram: string, win1: string, win2: string): (fields: seq<string>)
  {
    ["HZ1", i1, "", i2, "", ram, "", win1, "", win2]
  }

  /** The line, without its terminator, that decodes to `r`. */
  function Encode(r: Record): string
    requires Encodable(r)
  {
    match r
    case Version(v) => v
    case Cpm(c, c2) => Join(CpmFields(c, c2), ':')
    case Counts(in1, in2, up) => Join(CountsFields(in1, in2, up), ':')
    case Hz(i1, i2, ram, win1, win2) => Join(HzFields(i1.value, i2.value, ram.value, win1.value, win2.value), ':')
  }

  lemma IntToStringPlain(n: int)
    ensures Plain(IntToString(n))
  {
    var ds := if n < 0 then NatToString(-n) else NatToString(n);
    assert forall i :: 0 <= i < |ds| ==> IsDigit(ds[i]);
  }

  lemma EncodeIntPlain(v: JsInt)
    ensures Plain(EncodeInt(v))
  {
    if v.Int? {
      IntToStringPlain(v.n);
    }
  }

  lemma EncodeIntRoundTrip(v: JsInt)
    ensures ParseInt(EncodeInt(v)) == v
  {
    match v
    case NaN =>
    case Int(n) =>
      ParseIntOfIntToString(n, "");
      assert IntToString(n) + "" == IntToString(n);
  }

  /** The input count a frame announces in its field 1. */
  function InputsOf(two: bool): int
  {
    if two then 2 else 1
  }

  lemma FlagRoundTrip(valid: Option<bool>)
    ensures Validity(Some(EncodeFlag(valid))) == valid
  {
  }

  /** What the field list of an encoded line buys: the decoder sees exactly these fields, and no banner. */
  lemma FramedLine(fields: seq<string>)
    requires |fields| >= 1 && |fields[0]| >= 2 && fields[0][0] != 'U'
    requires forall i :: 0 <= i < |fields| ==> Plain(fields[i])
    ensures var line := Join(fields, ':');
      && Decode(line) == Frame(line, fields)
      && Decode(line + "\n") == Frame(line, fields)
  {
    var line := Join(fields, ':');
    assert forall i :: 0 <= i < |fields| ==> ':' !in fields[i] && '\n' !in fields[i];
    SplitJoin(fields, ':');
    JoinStartsWithFirst(fields, ':');
    JoinAvoids(fields, ':', '\n');
    RemoveFirstSplices(line, '\n');
    RemoveFirstTerminator(line, '\n');
  }

  /** A framed line whose frame decodes to `r` decodes to `r`, with or without its terminator. */
  lemma DecodeFramed(fields: seq<string>, r: Record)
    requires |fields| >= 1 && |fields[0]| >= 2 && fields[0][0] != 'U'
    requires forall i :: 0 <= i < |fields| ==> Plain(fields[i])
    requires Frame(Join(fields, ':'), fields) == Some(r)
    ensures Decode(Join(fields, ':')) == Some(r)
    ensures Decode(Join(fields, ':') + "\n") == Some(r)
  {
    FramedLine(fields);
  }

  /** A `COUNTS` field list not carrying the banner is decoded by `CountsOf`. */
  lemma FrameCounts(data: string, resp: seq<string>)
    requires |resp| >= 1 && resp[0] == "COUNTS" && |data| > 0 && data[0] == 'C'
    ensures Frame(data, resp) == Some(CountsOf(resp))
  {
    assert Prefix(data, 10)[0] != Banner[0];
  }

  /** An `HZ1` field list not carrying the banner is decoded field by field. */
  lemma FrameHz(data: string, resp: seq<string>)
    requires |resp| >= 1 && resp[0] == "HZ1" && |data| > 0 && data[0] == 'H'
    ensures Frame(data, resp) == Some(Hz(Field(resp, 1), Field(resp, 3), Field(resp, 5), Field(resp, 7), Field(resp, 9)))
  {
    assert Prefix(data, 10)[0] != Banner[0];
  }

  lemma CpmFieldsPlain(c: Reading, c2: Option<Reading>)
    ensures forall i :: 0 <= i < |CpmFields(c, c2)| ==> Plain(CpmFields(c, c2)[i])
  {
    IntToStringPlain(InputsOf(c2.Some?));
    EncodeIntPlain(c.value);
    if c2.Some? {
      EncodeIntPlain(c2.value.value);
    }
  }

  lemma IntFieldOf(f: seq<string>, i: nat, v: JsInt)
    requires i < |f| && f[i] == EncodeInt(v)
    ensures IntField(f, i) == v
  {
    EncodeIntRoundTrip(v);
  }

  lemma FlagFieldOf(f: seq<string>, i: nat, valid: Option<bool>)
    requires i < |f| && f[i] == EncodeFlag(valid)
    ensures Validity(Field(f, i)) == valid
  {
    FlagRoundTrip(valid);
  }

  lemma ReadingAtOf(f: seq<string>, i: nat, r: Reading)
    requires i + 1 < |f| && f[i] == EncodeInt(r.value) && f[i + 1] == EncodeFlag(r.valid)
    ensures ReadingAt(f, i) == r
  {
    IntFieldOf(f, i, r.value);
    FlagFieldOf(f, i + 1, r.valid);
  }

  lemma CpmFieldsRead(c: Reading, c2: Option<Reading>)
    ensures CpmOf(CpmFields(c, c2)) == Cpm(c, c2)
  {
    var f := CpmFields(c, c2);
    CpmFieldsShape(c, c2, f);
    IntFieldOf(f, 1, Int(InputsOf(c2.Some?)));
    ReadingAtOf(f, 2, c);
    if c2.Some? {
      ReadingAtOf(f, 4, c2.value);
    }
  }

  lemma CpmFieldsShape(c: Reading, c2: Option<Reading>, f: seq<string>)
    requires f == CpmFields(c, c2)
    ensures |f| == if c2.Some? then 6 else 4
    ensures f[1] == EncodeInt(Int(InputsOf(c2.Some?)))
    ensures f[2] == EncodeInt(c.value) && f[3] == EncodeFlag(c.valid)
    ensures c2.Some? ==> f[4] == EncodeInt(c2.value.value) && f[5] == EncodeFlag(c2.value.valid)
  {
  }

  lemma DecodeEncodeCpm(c: Reading, c2: Option<Reading>)
    ensures Decode(Encode(Cpm(c, c2))) == Some(Cpm(c, c2))
    ensures Decode(Encode(Cpm(c, c2)) + "\n") == Some(Cpm(c, c2))
  {
    var fields := CpmFields(c, c2);
    CpmFieldsPlain(c, c2);
    CpmFieldsRead(c, c2);
    assert Frame(Join(fields, ':'), fields) == Some(CpmOf(fields));
    DecodeFramed(fields, Cpm(c, c2));
  }

  lemma CountsFieldsPlain(in1: JsInt, in2: Option<JsInt>, up: JsInt)
    ensures forall i :: 0 <= i < |CountsFields(in1, in2, up)| ==> Plain(CountsFields(in1, in2, up)[i])
  {
    IntToStringPlain(InputsOf(in2.Some?));
    EncodeIntPlain(in1);
    EncodeIntPlain(up);
    if in2.Some? {
      EncodeIntPlain(in2.value);
    }
  }

  lemma CountsFieldsReadTwo(in1: JsInt, in2: Option<JsInt>, up: JsInt)
    requires in2.Some?
    ensures CountsOf(CountsFields(in1, in2, up)) == Counts(in1, in2, up)
  {
    var f := CountsFields(in1, in2, up);
    var k := InputsOf(in2.Some?);
    CountsFieldsTwoShape(in1, in2, up, f);
    IntFieldOf(f, 1, Int(k));
    IntFieldOf(f, 2, in1);
    IntFieldOf(f, 3, in2.value);
    IntFieldOf(f, 4, up);
  }

  lemma CountsFieldsTwoShape(in1: JsInt, in2: Option<JsInt>, up: JsInt, f: seq<string>)
    requires in2.Some? && f == CountsFields(in1, in2, up)
    ensures |f| == 5 && f[1] == IntToString(2)
    ensures f[2] == EncodeInt(in1) && f[3] == EncodeInt(in2.value) && f[4] == EncodeInt(up)
  {
  }

  lemma CountsFieldsReadOne(in1: JsInt, in2: Option<JsInt>, up: JsInt)
    requires in2.None?
    ensures CountsOf(CountsFields(in1, in2, up)) == Counts(in1, in2, up)
  {
    var f := CountsFields(in1, in2, up);
    var k := InputsOf(in2.Some?);
    assert f == ["COUNTS", IntToString(k), EncodeInt(in1), EncodeInt(up)];
    IntFieldOf(f, 1, Int(k));
    IntFieldOf(f, 2, in1);
    IntFieldOf(f, 3, up);
  }

  lemma CountsFieldsRead(in1: JsInt, in2: Option<JsInt>, up: JsInt)
    ensures CountsOf(CountsFields(in1, in2, up)) == Counts(in1, in2, up)
  {
    if in2.Some? {
      CountsFieldsReadTwo(in1, in2, up);
    } else {
      CountsFieldsReadOne(in1, in2, up);
    }
  }

  lemma DecodeEncodeCounts(in1: JsInt, in2: Option<JsInt>, up: JsInt)
    ensures Decode(Encode(Counts(in1, in2, up))) == Some(Counts(in1, in2, up))
    ensures Decode(Encode(Counts(in1, in2, up)) + "\n") == Some(Counts(in1, in2, up))
  {
    var fields := CountsFields(in1, in2, up);
    var line := Join(fields, ':');
    CountsFieldsPlain(in1, in2, up);
    JoinStartsWithFirst(fields, ':');
    assert line[0] == fields[0][0] == 'C';
    FrameCounts(line, fields);
    CountsFieldsRead(in1, in2, up);
    DecodeFramed(fields, Counts(in1, in2, up));
  }

  lemma DecodeEncodeHz(r: Record)
    requires r.Hz? && Encodable(r)
    ensures Decode(Encode(r)) == Some(r)
    ensures Decode(Encode(r) + "\n") == Some(r)
  {
    var fields := HzFields(r.i1.value, r.i2.value, r.ram.value, r.win1.value, r.win2.value);
    var line := Join(fields, ':');
    JoinStartsWithFirst(fields, ':');
    assert line[0] == fields[0][0] == 'H';
    FrameHz(line, fields);
    DecodeFramed(fields, r);
  }

  lemma DecodeEncodeVersion(v: string)
    requires Encodable(Version(v))
    ensures Decode(Encode(Version(v))) == Some(Version(v))
    ensures Decode(Encode(Version(v)) + "\n") == Some(Version(v))
  {
    assert v[..3] == "USB";
    JoinStartsWithFirst(Split(v, ':'), ':');
    RemoveFirstSplices(v, '\n');
    RemoveFirstTerminator(v, '\n');
  }

  /**
    A line that arrives with its newline in front, as it does when the stream
    is split on carriage returns, decodes as the line itself.
   */
  lemma LeadingNewlineIgnored(line: string)
    requires '\n' !in line
    ensures Decode("\n" + line) == Decode(line)
  {
    RemoveFirstLeading(line, '\n');
    RemoveFirstSplices(line, '\n');
  }

  /** An encoding is one line: it holds no newline. */
  lemma EncodeIsOneLine(r: Record)
    requires Encodable(r)
    ensures '\n' !in Encode(r)
  {
    match r
    case Cpm(c, c2) =>
      CpmFieldsPlain(c, c2);
      JoinAvoids(CpmFields(c, c2), ':', '\n');
    case Counts(in1, in2, up) =>
      CountsFieldsPlain(in1, in2, up);
      JoinAvoids(CountsFields(in1, in2, up), ':', '\n');
    case Hz(i1, i2, ram, win1, win2) =>
      JoinAvoids(HzFields(i1.value, i2.value, ram.value, win1.value, win2.value), ':', '\n');
    case Version(v) =>
  }

  /**
    Round trip: every record a line can carry is decoded back from its
    encoding, bare, with the line terminator after it, or with the newline
    left in front of it.
   */
  lemma DecodeEncode(r: Record)
    requires Encodable(r)
    ensures Decode(Encode(r)) == Some(r)
    ensures Decode(Encode(r) + "\n") == Some(r)
    ensures Decode("\n" + Encode(r)) == Some(r)
  {
    EncodeIsOneLine(r);
    LeadingNewlineIgnored(Encode(r));
    match r
    case Cpm(c, c2) => DecodeEncodeCpm(c, c2);
    case Counts(in1, in2, up) => DecodeEncodeCounts(in1, in2, up);
    case Hz(_, _, _, _, _) => DecodeEncodeHz(r);
    case Version(v) => DecodeEncodeVersion(v);
  }
}
