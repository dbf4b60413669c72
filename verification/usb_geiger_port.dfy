/**
  The USB Geiger driver around the decoder: which of its two handlers
  (`format` on the port's `data` event, `status` on its `status` event) are
  attached to which serial port, the open / close-requested flags, and the
  commands sent to the dongle.

  Every serial port the driver creates gets a fresh number, so that a handler
  left behind on a port the driver no longer holds can be named.
 */
module UsbGeigerPort {
  import opened Wrappers
  import opened UsbGeigerFormat

  /** The driver's two handlers: `format` listens to `data`, `status` to `status`. */
  datatype Listener = DataListener | StatusListener

  /** A handler attached to one serial port. */
  datatype Attachment = Attachment(port: nat, listener: Listener)

  /**
    The driver's private state: the instrument id, the port it holds (none
    before the first `openPort` completes), the counter that names ports,
    `isopen`, `port_close_requested`, and every attached handler.
   */
  datatype Session = Session(
    instrumentId: Option<string>,
    port: Option<nat>,
    nextPort: nat,
    isOpen: bool,
    closeRequested: bool,
    attached: set<Attachment>)

  /** What JavaScript throws when a method is called on the `null` port. */
  datatype Fault = NoPort

  /** A freshly constructed driver. */
  const Initial: Session := Session(None, None, 0, false, false, {})

  /** The port counter is ahead of every port the driver ever made. */
  predicate Valid(s: Session)
  {
    && (s.port.Some? ==> s.port.value < s.nextPort)
    && (forall a :: a in s.attached ==> a.port < s.nextPort)
  }

  /** No handler is left on a port other than the one the driver holds. */
  predicate NoLeak(s: Session)
  {
    forall a :: a in s.attached ==> s.port == Some(a.port)
  }

  /** The handlers attached to port `p`. */
  function On(s: Session, p: nat): set<Listener>
  {
    set a | a in s.attached && a.port == p :: a.listener
  }

  /**
    `openPort(id)`, once the instrument lookup has answered. `found` is false
    when the lookup returned no document: the callback then throws on
    `item.port` before a port is made.
   */
  function OpenPort(s: Session, id: string, found: bool): (s': Session)
    ensures s'.instrumentId == Some(id)
    ensures s'.isOpen == s.isOpen && s'.closeRequested == s.closeRequested
    ensures found ==> s'.port == Some(s.nextPort) && On(s', s.nextPort) == On(s, s.nextPort) + {DataListener, StatusListener}
    ensures found ==> forall p :: p != s.nextPort ==> On(s', p) == On(s, p)
    ensures !found ==> s' == s.(instrumentId := Some(id))
  {
    if !found then s.(instrumentId := Some(id))
    else
      var p := s.nextPort;
      s.(instrumentId := Some(id), port := Some(p), nextPort := p + 1,
         attached := s.attached + {Attachment(p, DataListener), Attachment(p, StatusListener)})
  }

  /**
    `closePort()`: detach `format` at once and flag the close; the handler
    for the resulting status does the rest. Without a port the call throws.
   */
  function ClosePort(s: Session): (r: Result<Session, Fault>)
    ensures s.port.None? <==> r.Failure?
    ensures r.Success? ==> var p := s.port.value;
      && r.value.closeRequested
      && On(r.value, p) == On(s, p) - {DataListener}
      && (forall q :: q != p ==> On(r.value, q) == On(s, q))
      && r.value.port == s.port && r.value.isOpen == s.isOpen
      && r.value.instrumentId == s.instrumentId && r.value.nextPort == s.nextPort
  {
    match s.port
    case None => Failure(NoPort)
    case Some(p) =>
      Success(s.(attached := s.attached - {Attachment(p, DataListener)}, closeRequested := true))
  }

  /**
    The port reports its status. The `status` handler runs only while it is
    attached to the held port; it records `portopen`, and on a closed port
    detaches itself when a close was requested, and detaches both handlers
    when the status carries an error.
   */
  function OnStatus(s: Session, portOpen: bool, error: bool): (s': Session)
    ensures s'.port == s.port && s'.nextPort == s.nextPort && s'.attached <= s.attached
    ensures s'.instrumentId == s.instrumentId
    ensures forall q: nat :: s.port != Some(q) ==> On(s', q) == On(s, q)
    ensures s.port.None? || Attachment(s.port.value, StatusListener) !in s.attached ==> s' == s
    ensures s.port.Some? && Attachment(s.port.value, StatusListener) in s.attached ==>
      var p := s.port.value;
      && s'.isOpen == portOpen
      && (portOpen ==> s' == s.(isOpen := true))
      && (!portOpen ==> !s'.closeRequested)
      && (!portOpen && error ==> On(s', p) == {})
      && (!portOpen && !error && s.closeRequested ==> On(s', p) == On(s, p) - {StatusListener})
      && (!portOpen && !error && !s.closeRequested ==> s'.attached == s.attached)
  {
    match s.port
    case None => s
    case Some(p) =>
      if Attachment(p, StatusListener) !in s.attached then s
      else
        var s1 := s.(isOpen := portOpen);
        if portOpen then s1
        else
          var s2 := if s1.closeRequested
                    then s1.(attached := s1.attached - {Attachment(p, StatusListener)}, closeRequested := false)
                    else s1;
          if error then
            var s3 := s2.(attached := s2.attached - {Attachment(p, StatusListener), Attachment(p, DataListener)});
            assert On(s3, p) == {} by {
              forall a | a in s3.attached
                ensures a.port != p
              {
                assert a == Attachment(a.port, a.listener);
                assert a.listener == DataListener || a.listener == StatusListener;
              }
            }
            s3
          else s2
  }

  /** A line arriving on the held port reaches the decoder only while `format` is attached there. */
  function OnLine(s: Session, line: string): (r: Option<Record>)
    ensures s.port.Some? && Attachment(s.port.value, DataListener) in s.attached ==> r == Decode(line)
    ensures !(s.port.Some? && Attachment(s.port.value, DataListener) in s.attached) ==> r == None
  {
    match s.port
    case None => None
    case Some(p) => if Attachment(p, DataListener) in s.attached then Decode(line) else None
  }

  /** What a command does: the record emitted on `data`, the text written to the port, the value returned. */
  datatype CommandEffect = CommandEffect(emitted: Option<Record>, written: Option<string>, returned: Option<string>)

  /** The reserved command the dongle does not support. */
  const TagCommand: string := "TAG"

  /** `output(data)`: `TAG` is answered here; any other command goes to the port with a newline. */
  function Command(s: Session, command: string): (r: Result<CommandEffect, Fault>)
    ensures command == TagCommand ==> r.Success? && r.value.written.None? && r.value.emitted == Some(DeviceTag("Not supported"))
    ensures command != TagCommand && s.port.None? ==> r == Failure(NoPort)
    ensures command != TagCommand && s.port.Some? ==>
      r.Success? && r.value.emitted.None? && r.value.written == Some(command + "\n") && r.value.returned.None?
  {
    if command == TagCommand then
      Success(CommandEffect(Some(DeviceTag("Not supported")), None, Some("\n")))
    else if s.port.None? then
      Failure(NoPort)
    else
      Success(CommandEffect(None, Some(command + "\n"), None))
  }

  /** `sendUniqueID()`: this dongle has no serial number, so a fixed placeholder is reported. */
  function SendUniqueId(): (r: Record)
    ensures r.UniqueId? && |r.uniqueId| > 0
  {
    UniqueId("00000000 (n.a.)")
  }

  // ---------------------------------------------------------------------------
  // Properties of the listener state machine.

  /**
    `closePort` followed by the closed status leaves no handler on that port,
    and, when the status handler was attached, clears the flag.
   */
  lemma CloseThenClosedStatus(s: Session, error: bool)
    requires s.port.Some?
    ensures var p := s.port.value;
      var s' := OnStatus(ClosePort(s).value, false, error);
      && On(s', p) == {}
      && (StatusListener in On(s, p) ==> !s'.closeRequested && !s'.isOpen)
  {
    var p := s.port.value;
    var s1 := ClosePort(s).value;
    var s' := OnStatus(s1, false, error);
    forall a | a in s'.attached
      ensures a.port != p
    {
      assert a == Attachment(a.port, a.listener);
      assert a.listener == DataListener || a.listener == StatusListener;
    }
  }

  /** A closed status with an error detaches both handlers, whether or not a close was requested. */
  lemma ErrorStatusDetachesBoth(s: Session)
    requires s.port.Some? && StatusListener in On(s, s.port.value)
    ensures var s' := OnStatus(s, false, true);
      On(s', s.port.value) == {} && !s'.isOpen && !s'.closeRequested
  {
    var p := s.port.value;
    var s' := OnStatus(s, false, true);
    forall a | a in s'.attached
      ensures a.port != p
    {
      assert a == Attachment(a.port, a.listener);
      assert a.listener == DataListener || a.listener == StatusListener;
    }
  }

  /** An open status only records that the port is open. */
  lemma OpenStatusOnlyRecords(s: Session)
    ensures var s' := OnStatus(s, true, false);
      s' == s || s' == s.(isOpen := true)
  {
  }

  /**
    A clean close the driver did not ask for (no error, no pending request)
    keeps both handlers attached although the port is no longer open.
   */
  lemma UnrequestedCleanCloseKeepsHandlers(s: Session)
    requires s.port.Some? && !s.closeRequested && StatusListener in On(s, s.port.value)
    ensures var s' := OnStatus(s, false, false);
      !s'.isOpen && !s'.closeRequested && s'.attached == s.attached
  {
  }

  /** Once `closePort` returned, no further line becomes a record. */
  lemma NoRecordAfterClose(s: Session, line: string)
    requires s.port.Some?
    ensures OnLine(ClosePort(s).value, line) == None
  {
  }

  /** The status handler, closing and opening keep the port counter ahead. */
  lemma StepsKeepValid(s: Session, id: string, found: bool, portOpen: bool, error: bool)
    requires Valid(s)
    ensures Valid(OpenPort(s, id, found))
    ensures ClosePort(s).Success? ==> Valid(ClosePort(s).value)
    ensures Valid(OnStatus(s, portOpen, error))
  {
  }

  /** Closing and status changes never leave a handler behind on another port. */
  lemma ClosingKeepsNoLeak(s: Session, portOpen: bool, error: bool)
    requires NoLeak(s)
    ensures ClosePort(s).Success? ==> NoLeak(ClosePort(s).value)
    ensures NoLeak(OnStatus(s, portOpen, error))
  {
  }

  /**
    Opening a new port keeps every handler on the held port exactly when
    nothing was attached before: opening while handlers are still attached
    leaves them on the old port for good.
   */
  lemma OpenPortNoLeakIff(s: Session, id: string)
    requires Valid(s) && NoLeak(s)
    ensures NoLeak(OpenPort(s, id, true)) <==> s.attached == {}
  {
    var s' := OpenPort(s, id, true);
    if s.attached != {} {
      var a :| a in s.attached;
      assert a in s'.attached && a.port != s.nextPort;
    }
  }

  /** One full session: open, the port reports open, close, the port reports closed. */
  function Cycle(s: Session, id: string, error: bool): Session
  {
    var s1 := OnStatus(OpenPort(s, id, true), true, false);
    OnStatus(ClosePort(s1).value, false, error)
  }

  /** `n` sessions one after the other. */
  function Cycles(s: Session, id: string, errors: seq<bool>): Session
    decreases |errors|
  {
    if |errors| == 0 then s else Cycles(Cycle(s, id, errors[0]), id, errors[1..])
  }

  lemma CycleDetachesAll(s: Session, id: string, error: bool)
    requires Valid(s) && s.attached == {}
    ensures Valid(Cycle(s, id, error)) && Cycle(s, id, error).attached == {}
    ensures !Cycle(s, id, error).isOpen && !Cycle(s, id, error).closeRequested
  {
    var s0 := OpenPort(s, id, true);
    var s1 := OnStatus(s0, true, false);
    var p := s.nextPort;
    assert s1.attached == {Attachment(p, DataListener), Attachment(p, StatusListener)};
    CloseThenClosedStatus(s1, error);
    var s2 := Cycle(s, id, error);
    assert forall a :: a in s2.attached ==> a.port == p;
  }

  /** Any number of open/close sessions, each ending in a closed status, leaves no handler attached anywhere. */
  lemma {:induction false} CyclesDetachAll(s: Session, id: string, errors: seq<bool>)
    requires Valid(s) && s.attached == {}
    ensures Cycles(s, id, errors).attached == {}
    ensures |errors| > 0 ==> !Cycles(s, id, errors).isOpen && !Cycles(s, id, errors).closeRequested
    decreases |errors|
  {
    if |errors| > 0 {
      CycleDetachesAll(s, id, errors[0]);
      CyclesDetachAll(Cycle(s, id, errors[0]), id, errors[1..]);
    }
  }

  /**
    `closePort` after a session has closed still sets the close request, and
    no status handler is left to clear it; `openPort` keeps it. The next
    clean close, although nobody asked for it, is then taken as requested:
    only the status handler goes, and `format` stays attached to the closed
    port.
   */
  lemma StaleCloseRequest(s: Session, id: string, error: bool)
    requires Valid(s) && s.attached == {}
    ensures var s0 := ClosePort(Cycle(s, id, error)).value;
            var s1 := OnStatus(OpenPort(s0, id, true), true, false);
            var s2 := OnStatus(s1, false, false);
            && s0.closeRequested && s0.attached == {}
            && !s2.isOpen && On(s2, s1.port.value) == {DataListener}
  {
    CycleDetachesAll(s, id, error);
    var s0 := ClosePort(Cycle(s, id, error)).value;
    var s1 := OnStatus(OpenPort(s0, id, true), true, false);
    assert On(s1, s1.port.value) == {DataListener, StatusListener};
  }

  /** `TAG` is answered with the not-supported record and writes nothing, even without a port. */
  lemma TagNeverWrites(s: Session)
    ensures Command(s, TagCommand) == Success(CommandEffect(Some(DeviceTag("Not supported")), None, Some("\n")))
  {
  }

  /** Any other command is written to the held port followed by one newline, and nothing is emitted. */
  lemma OtherCommandsWritten(s: Session, command: string)
    requires command != TagCommand && s.port.Some?
    ensures Command(s, command).Success?
    ensures Command(s, command).value.written == Some(command + "\n")
    ensures Command(s, command).value.written.value[..|command|] == command
    ensures Command(s, command).value.emitted.None?
  {
  }

  /** The records the driver makes up itself never come out of the decoder. */
  lemma SyntheticRecordsNotDecoded(line: string)
    ensures Decode(line) != Some(SendUniqueId())
    ensures Decode(line) != Some(DeviceTag("Not supported"))
  {
  }
}
