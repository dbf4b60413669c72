/**
  The output manager's registry and dispatch: which outputs are live for
  each instrument, which driver callback feeds them, how a record is sent to
  them, and what the plugin's asynchronous answer does afterwards.

  JavaScript objects and closures are named by numbers drawn from one
  counter, so that "the same callback" and "a discarded output" can be said.
 */
module OutputManager {
  import opened Wrappers
  import opened UsbGeigerFormat
  import opened OutputGates

  /** The plugin types this server knows (`availableOutputs`). */
  const SupportedKinds: set<string> := {"safecast", "rest"}

  /** An instrument driver: its object identity and what its `getInstrumentId()` answers. */
  datatype Driver = Driver(handle: nat, instrumentId: string)

  /** An entry of `drivers`: the driver and the data callback registered for it. */
  datatype Registration = Registration(driver: Driver, cb: nat)

  /** A data callback attached to a driver's `data` event, forwarding to the outputs of `target`. */
  datatype Subscription = Subscription(driver: Driver, cb: nat, target: string)

  /** The module's state: `drivers`, `activeOutputs`, the attached callbacks, and the name counter. */
  datatype Manager = Manager(
    drivers: map<string, Registration>,
    active: map<string, seq<Binding>>,
    subs: set<Subscription>,
    nextId: nat)

  /**
    One `sendData` call in flight: for which instrument, the output whose
    plugin is called (`binding`), the output its success callback stamps
    (`stamp`), and the record.
   */
  datatype Send = Send(insid: string, binding: nat, stamp: nat, record: Record)

  /** The answer of the outputs query: an error with its status, or the enabled documents of the instrument. */
  datatype QueryResult = QueryFailed(status: int) | Rows(docs: seq<Descriptor>)

  const Empty: Manager := Manager(map[], map[], {}, 0)

  // ---------------------------------------------------------------------------
  // Registry

  /** `removeListener('data', reg.cb)` on `reg.driver`. */
  function Detach(subs: set<Subscription>, reg: Registration): (r: set<Subscription>)
    ensures r <= subs
    ensures forall s :: s in subs && !(s.driver == reg.driver && s.cb == reg.cb) ==> s in r
    ensures forall s :: s in r ==> !(s.driver == reg.driver && s.cb == reg.cb)
  {
    set s | s in subs && !(s.driver == reg.driver && s.cb == reg.cb)
  }

  /** `register(driver, cb)`: detach the callback already registered for the driver's instrument, then record the new one. */
  function Register(m: Manager, driver: Driver, cb: nat): (m': Manager)
    ensures m'.drivers == m.drivers[driver.instrumentId := Registration(driver, cb)]
    ensures m'.active == m.active && m'.nextId == m.nextId
    ensures driver.instrumentId in m.drivers ==> m'.subs == Detach(m.subs, m.drivers[driver.instrumentId])
    ensures driver.instrumentId !in m.drivers ==> m'.subs == m.subs
  {
    var k := driver.instrumentId;
    var subs := if k in m.drivers then Detach(m.subs, m.drivers[k]) else m.subs;
    m.(drivers := m.drivers[k := Registration(driver, cb)], subs := subs)
  }

  /** The documents whose plugin type is known, in query order. */
  function Supported(docs: seq<Descriptor>): seq<Descriptor>
    decreases |docs|
  {
    if |docs| == 0 then []
    else (if docs[0].kind in SupportedKinds then [docs[0]] else []) + Supported(docs[1..])
  }

  /**
    The loop over the query rows: an unknown type is skipped, every other
    document becomes a fresh output whose `last` is the time of setup.
   */
  function Build(docs: seq<Descriptor>, nextId: nat, now: int): (r: (seq<Binding>, nat))
    ensures r.1 == nextId + |r.0|
    ensures |r.0| == |Supported(docs)|
    ensures forall i :: 0 <= i < |r.0| ==>
              r.0[i] == Binding(nextId + i, Supported(docs)[i], now, None)
    decreases |docs|
  {
    if |docs| == 0 then ([], nextId)
    else if docs[0].kind in SupportedKinds then
      var rest := Build(docs[1..], nextId + 1, now);
      ([Binding(nextId, docs[0], now, None)] + rest.0, rest.1)
    else
      Build(docs[1..], nextId, now)
  }

  /** `enableOutputs(insid, driver)`, synchronous part: the instrument's output list is emptied. */
  function EnableOutputs(m: Manager, insid: string): (m': Manager)
    ensures m'.active.Keys == m.active.Keys + {insid} && m'.active[insid] == []
    ensures forall k :: k in m.active && k != insid ==> m'.active[k] == m.active[k]
    ensures m'.drivers == m.drivers && m'.subs == m.subs && m'.nextId == m.nextId
  {
    m.(active := m.active[insid := []])
  }

  /**
    `enableOutputs(insid, driver)`, when the query answers with rows: the
    supported documents become outputs appended to the instrument's list; if
    there is at least one, a new callback is registered and attached to the
    driver, and if there is none, the callback registered under `insid` is
    detached (its registration stays).
   */
  function Rebuild(m: Manager, insid: string, driver: Driver, docs: seq<Descriptor>, now: int): (m': Manager)
    requires insid in m.active
    ensures m'.active.Keys == m.active.Keys
    ensures forall k :: k in m.active && k != insid ==> m'.active[k] == m.active[k]
    ensures m'.nextId >= m.nextId
    ensures m'.drivers.Keys <= m.drivers.Keys + {driver.instrumentId}
    ensures forall k :: k in m.drivers && k != driver.instrumentId ==> k in m'.drivers && m'.drivers[k] == m.drivers[k]
    ensures forall s :: s in m.subs && s !in m'.subs ==>
              RegisteredUnder(m, driver.instrumentId, s) || RegisteredUnder(m, insid, s)
    ensures forall s :: s in m'.subs && s !in m.subs ==> s.driver == driver && s.target == insid
  {
    var built := Build(docs, m.nextId, now);
    var m1 := m.(active := m.active[insid := m.active[insid] + built.0], nextId := built.1);
    if |built.0| > 0 then
      var cb := m1.nextId;
      var m2 := Register(m1.(nextId := cb + 1), driver, cb);
      m2.(subs := m2.subs + {Subscription(driver, cb, insid)})
    else if insid in m1.drivers then
      m1.(subs := Detach(m1.subs, m1.drivers[insid]))
    else
      m1
  }

  /** `s` is the callback registered under `k`, the one `removeListener` would take off. */
  predicate RegisteredUnder(m: Manager, k: string, s: Subscription)
  {
    k in m.drivers && s.driver == m.drivers[k].driver && s.cb == m.drivers[k].cb
  }

  /** The query callback reads `rows` of the absent result after an error other than 404, and throws. */
  datatype QueryFault = RowsOfUndefined

  /**
    `enableOutputs(insid, driver)`, when the query answers: a 404 ends the
    callback with nothing more done; any other error throws before anything
    changes; rows rebuild the list as above.
   */
  function QueryAnswered(m: Manager, insid: string, driver: Driver, result: QueryResult, now: int): (r: Result<Manager, QueryFault>)
    requires insid in m.active
    ensures r.Failure? <==> result.QueryFailed? && result.status != 404
    ensures result.QueryFailed? && result.status == 404 ==> r == Success(m)
    ensures result.Rows? ==> r == Success(Rebuild(m, insid, driver, result.docs, now))
  {
    match result
    case QueryFailed(status) => if status == 404 then Success(m) else Failure(RowsOfUndefined)
    case Rows(docs) => Success(Rebuild(m, insid, driver, docs, now))
  }

  /** `disconnectOutputs(insid)`: nothing for an unknown instrument; otherwise detach its callback and forget it. */
  function DisconnectOutputs(m: Manager, insid: string): (m': Manager)
    ensures insid !in m.drivers ==> m' == m
    ensures m'.drivers == m.drivers - {insid}
    ensures insid in m.drivers ==> m'.subs == Detach(m.subs, m.drivers[insid])
    ensures m'.active == m.active && m'.nextId == m.nextId
  {
    if insid !in m.drivers then m
    else m.(subs := Detach(m.subs, m.drivers[insid]), drivers := m.drivers - {insid})
  }

  // ---------------------------------------------------------------------------
  // Dispatch

  /** No two outputs of a list share a name. */
  predicate DistinctIds(list: seq<Binding>)
  {
    forall i, j :: 0 <= i < j < |list| ==> list[i].id != list[j].id
  }

  /** The verdict of every output of the list on this record, each evaluated on its own. */
  function Verdicts(list: seq<Binding>, data: Record, now: int, resolve: Resolver): (r: seq<Evaluation>)
    ensures |r| == |list|
    ensures forall i :: 0 <= i < |list| ==> r[i] == Evaluate(list[i], data, now, resolve)
  {
    seq(|list|, i requires 0 <= i < |list| => Evaluate(list[i], data, now, resolve))
  }

  /** The `sendData` calls of the loop, in list order: one per output whose verdict is to send. */
  function Calls(list: seq<Binding>, verdicts: seq<Evaluation>, insid: string, data: Record): (r: seq<Send>)
    requires |verdicts| == |list|
    ensures |r| <= |list|
    ensures forall j :: 0 <= j < |r| ==> r[j].insid == insid && r[j].record == data && r[j].stamp == r[j].binding
    decreases |list|
  {
    if |list| == 0 then []
    else (if verdicts[0].send then [Send(insid, list[0].id, list[0].id, data)] else []) + Calls(list[1..], verdicts[1..], insid, data)
  }

  /**
    The loop of `output(data, insid)`: every output is updated by its own
    verdict, and those whose verdict is to send get one `sendData` call each.
   */
  function DispatchAll(list: seq<Binding>, insid: string, data: Record, now: int, resolve: Resolver)
    : (r: (seq<Binding>, seq<Send>))
    ensures |r.0| == |list| && |r.1| <= |list|
    ensures forall i :: 0 <= i < |list| ==> r.0[i] == Evaluate(list[i], data, now, resolve).binding
    ensures forall j :: 0 <= j < |r.1| ==> r.1[j].insid == insid && r.1[j].record == data && r.1[j].stamp == r.1[j].binding
  {
    var v := Verdicts(list, data, now, resolve);
    (seq(|list|, i requires 0 <= i < |list| => v[i].binding), Calls(list, v, insid, data))
  }

  /** Some output of `list` named `id` has a verdict to send; with `Verdicts`, some output named `id` has its gates open. */
  predicate OpenIn(list: seq<Binding>, verdicts: seq<Evaluation>, id: nat)
    requires |verdicts| == |list|
  {
    exists i :: 0 <= i < |list| && list[i].id == id && verdicts[i].send
  }

  /** Some call of `sends` goes to the output named `id`. */
  predicate SentTo(sends: seq<Send>, id: nat)
  {
    exists j :: 0 <= j < |sends| && sends[j].binding == id
  }

  lemma {:induction false} CallsOnlyOpen(list: seq<Binding>, verdicts: seq<Evaluation>, insid: string, data: Record)
    requires |verdicts| == |list|
    ensures forall j :: 0 <= j < |Calls(list, verdicts, insid, data)| ==>
              OpenIn(list, verdicts, Calls(list, verdicts, insid, data)[j].binding)
    decreases |list|
  {
    if |list| > 0 {
      CallsOnlyOpen(list[1..], verdicts[1..], insid, data);
      var sends := Calls(list, verdicts, insid, data);
      var rest := Calls(list[1..], verdicts[1..], insid, data);
      var k := if verdicts[0].send then 1 else 0;
      forall j | 0 <= j < |sends|
        ensures OpenIn(list, verdicts, sends[j].binding)
      {
        if j < k {
          assert list[0].id == sends[j].binding;
        } else {
          assert sends[j] == rest[j - k];
          assert OpenIn(list[1..], verdicts[1..], rest[j - k].binding);
          var i :| 0 <= i < |list[1..]| && list[1..][i].id == rest[j - k].binding && verdicts[1..][i].send;
          assert list[i + 1] == list[1..][i] && verdicts[i + 1] == verdicts[1..][i];
        }
      }
    }
  }

  lemma {:induction false} CallsEveryOpen(list: seq<Binding>, verdicts: seq<Evaluation>, insid: string, data: Record)
    requires |verdicts| == |list|
    ensures forall i :: 0 <= i < |list| && verdicts[i].send ==> SentTo(Calls(list, verdicts, insid, data), list[i].id)
    decreases |list|
  {
    if |list| > 0 {
      CallsEveryOpen(list[1..], verdicts[1..], insid, data);
      var sends := Calls(list, verdicts, insid, data);
      var rest := Calls(list[1..], verdicts[1..], insid, data);
      var k := if verdicts[0].send then 1 else 0;
      forall i | 0 <= i < |list| && verdicts[i].send
        ensures SentTo(sends, list[i].id)
      {
        if i == 0 {
          assert sends[0].binding == list[0].id;
        } else {
          assert list[1..][i - 1] == list[i] && verdicts[1..][i - 1] == verdicts[i];
          assert SentTo(rest, list[1..][i - 1].id);
          var j :| 0 <= j < |rest| && rest[j].binding == list[1..][i - 1].id;
          assert sends[j + k] == rest[j];
        }
      }
    }
  }

  lemma {:induction false} CallsOnce(list: seq<Binding>, verdicts: seq<Evaluation>, insid: string, data: Record)
    requires |verdicts| == |list| && DistinctIds(list)
    ensures forall j, k :: 0 <= j < k < |Calls(list, verdicts, insid, data)| ==>
              Calls(list, verdicts, insid, data)[j].binding != Calls(list, verdicts, insid, data)[k].binding
    decreases |list|
  {
    if |list| > 0 {
      assert DistinctIds(list[1..]) by {
        forall i, j | 0 <= i < j < |list[1..]| ensures list[1..][i].id != list[1..][j].id {
          assert list[1..][i] == list[i + 1] && list[1..][j] == list[j + 1];
        }
      }
      CallsOnce(list[1..], verdicts[1..], insid, data);
      CallsOnlyOpen(list[1..], verdicts[1..], insid, data);
      var sends := Calls(list, verdicts, insid, data);
      var rest := Calls(list[1..], verdicts[1..], insid, data);
      var k0 := if verdicts[0].send then 1 else 0;
      forall j, k | 0 <= j < k < |sends|
        ensures sends[j].binding != sends[k].binding
      {
        assert sends[k] == rest[k - k0];
        if j < k0 {
          assert sends[j].binding == list[0].id;
          assert OpenIn(list[1..], verdicts[1..], rest[k - k0].binding);
          var i :| 0 <= i < |list[1..]| && list[1..][i].id == rest[k - k0].binding && verdicts[1..][i].send;
          assert list[1..][i] == list[i + 1];
        } else {
          assert sends[j] == rest[j - k0];
        }
      }
    }
  }

  /**
    One record, one pass: exactly the outputs whose gates open get a
    `sendData` call, and (names being distinct) each gets exactly one.
   */
  lemma DispatchSends(list: seq<Binding>, insid: string, data: Record, now: int, resolve: Resolver)
    requires DistinctIds(list)
    ensures forall j :: 0 <= j < |DispatchAll(list, insid, data, now, resolve).1| ==>
              OpenIn(list, Verdicts(list, data, now, resolve), DispatchAll(list, insid, data, now, resolve).1[j].binding)
    ensures forall i :: 0 <= i < |list| && Evaluate(list[i], data, now, resolve).send ==>
              SentTo(DispatchAll(list, insid, data, now, resolve).1, list[i].id)
    ensures forall j, k :: 0 <= j < k < |DispatchAll(list, insid, data, now, resolve).1| ==>
              DispatchAll(list, insid, data, now, resolve).1[j].binding != DispatchAll(list, insid, data, now, resolve).1[k].binding
  {
    var v := Verdicts(list, data, now, resolve);
    CallsOnlyOpen(list, v, insid, data);
    CallsEveryOpen(list, v, insid, data);
    CallsOnce(list, v, insid, data);
  }

  /** `output(data, insid)`: nothing for an instrument without an output list; otherwise the loop above. */
  function Output(m: Manager, insid: string, data: Record, now: int, resolve: Resolver): (r: (Manager, seq<Send>))
    ensures insid !in m.active ==> r == (m, [])
    ensures r.0.drivers == m.drivers && r.0.subs == m.subs && r.0.nextId == m.nextId
    ensures r.0.active.Keys == m.active.Keys
    ensures forall k :: k in m.active && k != insid ==> r.0.active[k] == m.active[k]
    ensures insid in m.active ==> |r.0.active[insid]| == |m.active[insid]|
    ensures insid in m.active ==> forall i :: 0 <= i < |m.active[insid]| ==>
              r.0.active[insid][i] == Evaluate(m.active[insid][i], data, now, resolve).binding
    ensures forall j :: 0 <= j < |r.1| ==> r.1[j].insid == insid && r.1[j].record == data && r.1[j].stamp == r.1[j].binding
  {
    if insid !in m.active then (m, [])
    else
      var d := DispatchAll(m.active[insid], insid, data, now, resolve);
      (m.(active := m.active[insid := d.0]), d.1)
  }

  /** Stamp `last` on the output named `id`, if it is in the list. */
  function StampLast(list: seq<Binding>, id: nat, now: int): (r: seq<Binding>)
    ensures |r| == |list|
    ensures forall i :: 0 <= i < |list| ==>
              r[i] == if list[i].id == id then list[i].(last := now) else list[i]
    decreases |list|
  {
    if |list| == 0 then []
    else [if list[0].id == id then list[0].(last := now) else list[0]] + StampLast(list[1..], id, now)
  }

  /**
    The `sendData` callback, run at time `now`: on success the output named
    by `send.stamp` records `now` as its last send; on failure nothing
    changes.
    An output discarded since is no longer in the list, so its answer has no
    effect on the live outputs.
   */
  function Completion(m: Manager, send: Send, success: bool, now: int): (m': Manager)
    ensures !success ==> m' == m
    ensures m'.drivers == m.drivers && m'.subs == m.subs && m'.nextId == m.nextId
    ensures m'.active.Keys == m.active.Keys
    ensures forall k :: k in m.active && k != send.insid ==> m'.active[k] == m.active[k]
    ensures send.insid in m.active ==> |m'.active[send.insid]| == |m.active[send.insid]|
    ensures send.insid in m.active ==>
              m'.active[send.insid] == if success then StampLast(m.active[send.insid], send.stamp, now) else m.active[send.insid]
    ensures success && send.insid in m.active ==>
              forall i :: 0 <= i < |m.active[send.insid]| && m.active[send.insid][i].id == send.stamp ==>
                m'.active[send.insid][i].last == now
  {
    if !success || send.insid !in m.active then m
    else m.(active := m.active[send.insid := StampLast(m.active[send.insid], send.stamp, now)])
  }

  // ---------------------------------------------------------------------------
  // Invariant of the registry

  /**
    Every registration is filed under its driver's instrument, every
    attached callback is the one registered for its driver's
    instrument, callbacks have distinct names, and every name in use is
    below the counter; output names are distinct within each list.
   */
  predicate Inv(m: Manager)
  {
    && (forall k :: k in m.drivers ==> m.drivers[k].driver.instrumentId == k)
    && (forall s :: s in m.subs ==>
          s.driver.instrumentId in m.drivers && m.drivers[s.driver.instrumentId] == Registration(s.driver, s.cb))
    && (forall s :: s in m.subs ==> s.cb < m.nextId)
    && (forall s1, s2 :: s1 in m.subs && s2 in m.subs && s1.cb == s2.cb ==> s1 == s2)
    && (forall k :: k in m.active ==> DistinctIds(m.active[k]))
    && (forall k, i :: k in m.active && 0 <= i < |m.active[k]| ==> m.active[k][i].id < m.nextId)
  }

  lemma InvEmpty()
    ensures Inv(Empty)
  {
  }

  /** At most one data callback per instrument: two attached callbacks for the same instrument are the same one. */
  lemma AtMostOneCallback(m: Manager, s1: Subscription, s2: Subscription)
    requires Inv(m) && s1 in m.subs && s2 in m.subs
    requires s1.driver.instrumentId == s2.driver.instrumentId
    ensures s1 == s2
  {
  }

  lemma EnableOutputsKeepsInv(m: Manager, insid: string)
    requires Inv(m)
    ensures Inv(EnableOutputs(m, insid))
  {
  }

  lemma {:induction false} SupportedAreKnown(docs: seq<Descriptor>)
    ensures forall i :: 0 <= i < |Supported(docs)| ==> Supported(docs)[i].kind in SupportedKinds
    ensures |Supported(docs)| <= |docs|
    decreases |docs|
  {
    if |docs| > 0 {
      SupportedAreKnown(docs[1..]);
    }
  }

  lemma RebuildKeepsInv(m: Manager, insid: string, driver: Driver, docs: seq<Descriptor>, now: int)
    requires Inv(m) && insid in m.active
    ensures Inv(Rebuild(m, insid, driver, docs, now))
  {
    var built := Build(docs, m.nextId, now);
    var list := m.active[insid] + built.0;
    assert forall i :: 0 <= i < |list| ==> list[i].id < built.1;
    assert DistinctIds(list) by {
      forall i, j | 0 <= i < j < |list|
        ensures list[i].id != list[j].id
      {
        if j >= |m.active[insid]| && i < |m.active[insid]| {
          assert list[i].id < m.nextId <= list[j].id;
        }
      }
    }
    var m1 := m.(active := m.active[insid := list], nextId := built.1);
    assert Inv(m1);
    if |built.0| > 0 {
      var cb := m1.nextId;
      var m2 := Register(m1.(nextId := cb + 1), driver, cb);
      var m3 := m2.(subs := m2.subs + {Subscription(driver, cb, insid)});
      assert m3 == Rebuild(m, insid, driver, docs, now);
      forall s | s in m3.subs
        ensures s.driver.instrumentId in m3.drivers && m3.drivers[s.driver.instrumentId] == Registration(s.driver, s.cb)
      {
        if s != Subscription(driver, cb, insid) {
          assert s in m1.subs;
        }
      }
    }
  }

  lemma DisconnectOutputsKeepsInv(m: Manager, insid: string)
    requires Inv(m)
    ensures Inv(DisconnectOutputs(m, insid))
  {
  }

  lemma OutputKeepsInv(m: Manager, insid: string, data: Record, now: int, resolve: Resolver)
    requires Inv(m)
    ensures Inv(Output(m, insid, data, now, resolve).0)
  {
  }

  lemma CompletionKeepsInv(m: Manager, send: Send, success: bool, now: int)
    requires Inv(m)
    ensures Inv(Completion(m, send, success, now))
  {
  }

  // ---------------------------------------------------------------------------
  // Properties of the registry and of dispatch

  /** Enabling replaces the instrument's outputs wholesale: until the query answers, no record is sent anywhere. */
  lemma EnableReplacesWholesale(m: Manager, insid: string, data: Record, now: int, resolve: Resolver)
    ensures Output(EnableOutputs(m, insid), insid, data, now, resolve).1 == []
  {
  }

  /** The query's outputs are appended after those already in the list, in query order, skipping unknown types. */
  lemma QueryAppendsSupported(m: Manager, insid: string, driver: Driver, docs: seq<Descriptor>, now: int)
    requires insid in m.active
    ensures var list := Rebuild(m, insid, driver, docs, now).active[insid];
            && |list| == |m.active[insid]| + |Supported(docs)|
            && list[..|m.active[insid]|] == m.active[insid]
            && forall i :: 0 <= i < |Supported(docs)| ==>
                 list[|m.active[insid]| + i].config == Supported(docs)[i]
                 && list[|m.active[insid]| + i].last == now
                 && list[|m.active[insid]| + i].lastAlarm.None?
  {
  }

  /**
    The rows step touches no other instrument: the registrations and the
    attached callbacks of every instrument other than `insid` and the
    driver's own stay as they were.
   */
  lemma RebuildKeepsOthers(m: Manager, insid: string, driver: Driver, docs: seq<Descriptor>, now: int)
    requires Inv(m) && insid in m.active
    ensures var m' := Rebuild(m, insid, driver, docs, now);
            && (forall k :: k in m.drivers && k != driver.instrumentId ==> k in m'.drivers && m'.drivers[k] == m.drivers[k])
            && (forall s :: s in m.subs && s.driver.instrumentId != driver.instrumentId && s.driver.instrumentId != insid ==> s in m'.subs)
  {
  }

  /** Whatever the query answers, the registry invariant survives. */
  lemma QueryAnsweredKeepsInv(m: Manager, insid: string, driver: Driver, result: QueryResult, now: int)
    requires Inv(m) && insid in m.active
    ensures QueryAnswered(m, insid, driver, result, now).Success? ==> Inv(QueryAnswered(m, insid, driver, result, now).value)
  {
    if result.Rows? {
      RebuildKeepsInv(m, insid, driver, result.docs, now);
    }
  }

  /**
    When the query yields at least one output, the driver's instrument ends
    up with exactly one attached callback: the new one, forwarding to `insid`.
   */
  lemma OneCallbackAfterRows(m: Manager, insid: string, driver: Driver, docs: seq<Descriptor>, now: int)
    requires Inv(m) && insid in m.active && |Supported(docs)| > 0
    ensures var m' := Rebuild(m, insid, driver, docs, now);
            && (exists s :: s in m'.subs && s.driver == driver && s.target == insid)
            && forall s :: s in m'.subs && s.driver.instrumentId == driver.instrumentId ==>
                 s.driver == driver && s.target == insid && m'.drivers[driver.instrumentId] == Registration(driver, s.cb)
  {
    var built := Build(docs, m.nextId, now);
    var m1 := m.(active := m.active[insid := m.active[insid] + built.0], nextId := built.1);
    var cb := m1.nextId;
    var m2 := Register(m1.(nextId := cb + 1), driver, cb);
    var m' := m2.(subs := m2.subs + {Subscription(driver, cb, insid)});
    assert m' == Rebuild(m, insid, driver, docs, now);
  }

  /**
    When the query yields no output of a known type, the callback registered
    under the instrument is detached, so no attached callback is left for it;
    the registration itself stays.
   */
  lemma NoSinksDetachesCallback(m: Manager, insid: string, driver: Driver, docs: seq<Descriptor>, now: int)
    requires Inv(m) && insid in m.active && |Supported(docs)| == 0
    ensures var m' := Rebuild(m, insid, driver, docs, now);
            && m'.drivers == m.drivers
            && forall s :: s in m'.subs ==> s.driver.instrumentId != insid
  {
  }

  /** Disconnecting a known instrument leaves no attached callback for it; an unknown one changes nothing. */
  lemma DisconnectDetaches(m: Manager, insid: string)
    requires Inv(m)
    ensures var m' := DisconnectOutputs(m, insid);
            && (insid !in m.drivers ==> m' == m)
            && (forall s :: s in m'.subs ==> s.driver.instrumentId != insid)
            && (forall s :: s in m.subs && s.driver.instrumentId != insid ==> s in m'.subs)
  {
  }

  /** A completion for an output no longer in the instrument's list (discarded by a later enable) changes nothing. */
  lemma LateCompletionIgnored(m: Manager, send: Send, success: bool, now: int)
    requires send.insid !in m.active || forall i :: 0 <= i < |m.active[send.insid]| ==> m.active[send.insid][i].id != send.stamp
    ensures Completion(m, send, success, now) == m
  {
    if success && send.insid in m.active {
      var list := m.active[send.insid];
      assert StampLast(list, send.stamp, now) == list;
      assert m.active[send.insid := list] == m.active;
    }
  }

  /**
    After a successful send to an output, its regular schedule restarts: it
    is not due again until more than its interval has passed since `now`.
   */
  lemma SuccessRestartsSchedule(m: Manager, send: Send, now: int, i: nat, later: int)
    requires send.insid in m.active && i < |m.active[send.insid]| && m.active[send.insid][i].id == send.stamp
    requires later - now <= m.active[send.insid][i].config.frequency * 1000
    ensures !Regular(Completion(m, send, true, now).active[send.insid][i], later)
  {
  }

  /**
    Output names are drawn from a counter, so every output in a list is
    dispatched at most once per record, and exactly the outputs whose gates
    open are sent to.
   */
  lemma OutputSendsEachOpenOnce(m: Manager, insid: string, data: Record, now: int, resolve: Resolver)
    requires Inv(m) && insid in m.active
    ensures var list := m.active[insid];
            var sends := Output(m, insid, data, now, resolve).1;
            && (forall j :: 0 <= j < |sends| ==> OpenIn(list, Verdicts(list, data, now, resolve), sends[j].binding))
            && (forall i :: 0 <= i < |list| && Evaluate(list[i], data, now, resolve).send ==> SentTo(sends, list[i].id))
            && (forall j, k :: 0 <= j < k < |sends| ==> sends[j].binding != sends[k].binding)
  {
    DispatchSends(m.active[insid], insid, data, now, resolve);
  }

  // ---------------------------------------------------------------------------
  // The completion callback as written

  /**
    `output(data, insid)` as written: each open output's plugin is called
    during the loop, but the completion callback closes over the loop's
    function-scoped `var output`, and `sendData` answers later, when the
    loop has finished. The calls are those of `Output`; every call's
    success, however, stamps the output the variable last held: the last of
    the list.
   */
  function OutputAsWritten(m: Manager, insid: string, data: Record, now: int, resolve: Resolver): (r: (Manager, seq<Send>))
    ensures r.0 == Output(m, insid, data, now, resolve).0
    ensures |r.1| == |Output(m, insid, data, now, resolve).1|
    ensures forall j :: 0 <= j < |r.1| ==>
              r.1[j] == Output(m, insid, data, now, resolve).1[j].(stamp := m.active[insid][|m.active[insid]| - 1].id)
  {
    var o := Output(m, insid, data, now, resolve);
    if |o.1| == 0 then o
    else
      var list := m.active[insid];
      var captured := list[|list| - 1].id;
      (o.0, seq(|o.1|, j requires 0 <= j < |o.1| => o.1[j].(stamp := captured)))
  }

  /** An output that sends on its regular schedule and never alarms. */
  function ScheduledOutput(id: nat, frequency: int, last: int): Binding
  {
    var off := AlarmCondition("_unused", "less", Num(0));
    Binding(id, Descriptor("rest", off, off, "or", 0, frequency, map[]), last, None)
  }

  lemma ScheduledOutputEvaluates(id: nat, frequency: int, last: int, data: Record, now: int, resolve: Resolver)
    ensures Evaluate(ScheduledOutput(id, frequency, last), data, now, resolve)
         == Evaluation(frequency != 0 && now - last > frequency * 1000, ScheduledOutput(id, frequency, last))
  {
    assert !Alarmed(ScheduledOutput(id, frequency, last), data, resolve);
  }

  /** One record through a list of two outputs: each is updated by its own verdict, and the calls come in list order. */
  lemma PairOutput(m: Manager, k: string, x: Binding, y: Binding, data: Record, now: int, resolve: Resolver)
    requires k in m.active && m.active[k] == [x, y]
    ensures Output(m, k, data, now, resolve)
         == (m.(active := m.active[k := [Evaluate(x, data, now, resolve).binding, Evaluate(y, data, now, resolve).binding]]),
             (if Evaluate(x, data, now, resolve).send then [Send(k, x.id, x.id, data)] else [])
             + (if Evaluate(y, data, now, resolve).send then [Send(k, y.id, y.id, data)] else []))
  {
    var v := Verdicts([x, y], data, now, resolve);
    assert [x, y][1..] == [y] && v[1..] == [v[1]] && [y][1..] == [] && v[1..][1..] == [];
    var tail := if v[1].send then [Send(k, y.id, y.id, data)] else [];
    assert Calls([y], [v[1]], k, data) == tail + Calls([], [], k, data);
    assert Calls([x, y], v, k, data) == (if v[0].send then [Send(k, x.id, x.id, data)] else []) + Calls([y], [v[1]], k, data);
    var d := DispatchAll([x, y], k, data, now, resolve);
    assert d.0 == [v[0].binding, v[1].binding];
    assert d.1 == (if v[0].send then [Send(k, x.id, x.id, data)] else []) + tail;
  }

  /** One record through an instrument with a single output. */
  lemma SingleOutput(m: Manager, k: string, x: Binding, data: Record, now: int, resolve: Resolver)
    requires k in m.active && m.active[k] == [x]
    ensures Output(m, k, data, now, resolve)
         == (m.(active := m.active[k := [Evaluate(x, data, now, resolve).binding]]),
             if Evaluate(x, data, now, resolve).send then [Send(k, x.id, x.id, data)] else [])
  {
    var v := Verdicts([x], data, now, resolve);
    assert [x][1..] == [] && v[1..] == [];
    assert Calls([x], v, k, data) == (if v[0].send then [Send(k, x.id, x.id, data)] else []) + Calls([], [], k, data);
    var d := DispatchAll([x], k, data, now, resolve);
    assert d.0 == [v[0].binding];
    assert d.1 == if v[0].send then [Send(k, x.id, x.id, data)] else [];
  }

  /** The two-output registry of the counterexample below, at the moment of the first record. */
  function TwoOutputs(): Manager
  {
    Manager(map[], map["geiger" := [ScheduledOutput(0, 1, 0), ScheduledOutput(1, 0, 0)]], {}, 2)
  }

  /**
    Two outputs: the first sends every second, the second has no schedule;
    both were set up at time 0. At 5000 ms only the first is called, and
    its send succeeds. As written the success stamps the second output, so
    the first keeps its old stamp and sends again at 6000 ms.
   */
  lemma ClosureStampsLastOutput(data: Record, resolve: Resolver)
    ensures var written := OutputAsWritten(TwoOutputs(), "geiger", data, 5000, resolve);
            && written.1 == [Send("geiger", 0, 1, data)]
            && Completion(written.0, written.1[0], true, 5000).active["geiger"][0].last == 0
            && |Output(Completion(written.0, written.1[0], true, 5000), "geiger", data, 6000, resolve).1| == 1
  {
    var m := TwoOutputs();
    ScheduledOutputEvaluates(0, 1, 0, data, 5000, resolve);
    ScheduledOutputEvaluates(1, 0, 0, data, 5000, resolve);
    PairOutput(m, "geiger", ScheduledOutput(0, 1, 0), ScheduledOutput(1, 0, 0), data, 5000, resolve);
    var written := OutputAsWritten(m, "geiger", data, 5000, resolve);
    assert written.1 == [Send("geiger", 0, 1, data)];
    var mw := Completion(written.0, written.1[0], true, 5000);
    assert mw.active["geiger"] == [ScheduledOutput(0, 1, 0), ScheduledOutput(1, 0, 5000)];
    ScheduledOutputEvaluates(0, 1, 0, data, 6000, resolve);
    ScheduledOutputEvaluates(1, 0, 5000, data, 6000, resolve);
    PairOutput(mw, "geiger", ScheduledOutput(0, 1, 0), ScheduledOutput(1, 0, 5000), data, 6000, resolve);
  }

  /**
    The same two outputs with the stamp on the output that sent: the first
    output's schedule restarts at 5000 ms, so nothing is sent at 6000 ms.
   */
  lemma StampOnSenderWaits(data: Record, resolve: Resolver)
    ensures var fixed := Output(TwoOutputs(), "geiger", data, 5000, resolve);
            && fixed.1 == [Send("geiger", 0, 0, data)]
            && Completion(fixed.0, fixed.1[0], true, 5000).active["geiger"][0].last == 5000
            && Output(Completion(fixed.0, fixed.1[0], true, 5000), "geiger", data, 6000, resolve).1 == []
  {
    var m := TwoOutputs();
    ScheduledOutputEvaluates(0, 1, 0, data, 5000, resolve);
    ScheduledOutputEvaluates(1, 0, 0, data, 5000, resolve);
    PairOutput(m, "geiger", ScheduledOutput(0, 1, 0), ScheduledOutput(1, 0, 0), data, 5000, resolve);
    var fixed := Output(m, "geiger", data, 5000, resolve);
    var mf := Completion(fixed.0, fixed.1[0], true, 5000);
    assert mf.active["geiger"] == [ScheduledOutput(0, 1, 5000), ScheduledOutput(1, 0, 0)];
    ScheduledOutputEvaluates(0, 1, 5000, data, 6000, resolve);
    ScheduledOutputEvaluates(1, 0, 0, data, 6000, resolve);
    PairOutput(mf, "geiger", ScheduledOutput(0, 1, 5000), ScheduledOutput(1, 0, 0), data, 6000, resolve);
  }
}
