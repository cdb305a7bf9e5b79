/** The polling and cache layer of the thing handler
    (NibeHeatPumpHandler.java): the coils to poll, the cache of the last
    value seen per coil, deduplicated channel updates, the poll decision,
    command gating, channel-id parsing and command conversion. The openHAB
    framework calls are not modelled: a channel update is appended to
    `updates`, the clock is a parameter, and the reply a poll waits for is
    given by a parameter `answer`. */
module Handler {
  import opened Common
  import opened Protocol
  import opened Text
  import opened Lists
  import opened PumpModels
  import opened MessageFactory
  import opened SerialConnection2

  // ------------------------------------------------------------ catalogue

  datatype NibeDataType = U8 | U16 | U32 | S8 | S16 | S32

  /** The kinds of variable the handler tells apart. */
  datatype VariableType = Sensor | Setting

  datatype VariableInformation = VariableInformation(
    factor: int,
    variable: string,
    dataType: NibeDataType,
    varType: VariableType)

  /** VariableInformation.getVariableInfo(model, coil): the catalogue, which
      is not part of this model (null becomes None). */
  const GetVariableInfo: (PumpModel, int) -> Option<VariableInformation>

  /** The one catalogue entry VariableInformationTest pins down: the F1245
      outdoor temperature sensor at coil 40004. */
  predicate KnownOutdoorSensor()
  {
    GetVariableInfo(F1245, 40004) == Some(VariableInformation(10, "BT1 Outdoor temp", S16, Sensor))
  }

  // ------------------------------------------------------------ values

  /** A Java double as the handler computes it: an exact quotient (rounding
      is not modelled), or one of the results of dividing by zero. */
  datatype Reading = Finite(x: real) | PosInfinity | NegInfinity | NaN

  /** (double) value / (double) factor. */
  function Quotient(value: int, factor: int): Reading
  {
    if factor != 0 then Finite(value as real / factor as real)
    else if value > 0 then PosInfinity
    else if value < 0 then NegInfinity
    else NaN
  }

  /** Java == on doubles: NaN equals nothing, not even itself. */
  predicate SameValue(a: Reading, b: Reading)
  {
    a == b && !a.NaN?
  }

  // ------------------------------------------------------------ cache

  /** CacheObject: when the value was stored (seconds) and the value. */
  datatype CacheObject = CacheObject(lastUpdateTime: int, value: Reading)

  /** stateMap: a coil may be absent, or present and mapped to null. */
  type StateMap = map<int, Option<CacheObject>>

  /** stateMap.get(coil): null both for an absent coil and for one mapped to
      null. */
  function Get(m: StateMap, coil: int): (r: Option<CacheObject>)
    ensures coil !in m ==> r == None
    ensures coil in m ==> r == m[coil]
  {
    if coil in m then m[coil] else None
  }

  /** One updateState call: the channel, the value, and the data type the
      state conversion uses. */
  datatype StateUpdate = StateUpdate(channelId: string, value: Reading, dataType: NibeDataType)

  /** The channel id of a coil: "setting#" or "sensor#" and the address. */
  function ChannelId(coil: int, t: VariableType): string
  {
    (if t == Setting then "setting" else "sensor") + ['#'] + IntToString(coil)
  }

  /** The cache after an update and the channel updates it issued. */
  datatype Outcome = Outcome(stateMap: StateMap, updates: seq<StateUpdate>)

  /** handleVariableUpdate(model, value) at time nowSeconds: a coil unknown
      to the catalogue is ignored; a value equal (as a double) to the cached
      one is ignored; otherwise the cache entry is replaced and exactly one
      channel update is issued. */
  function VariableUpdate(model: PumpModel, v: ModbusValue, m: StateMap, nowSeconds: int): (o: Outcome)
    ensures |o.updates| <= 1
    ensures o.updates == [] ==> o.stateMap == m
    ensures o.updates != [] ==> o.stateMap == m[v.coilAddress := Some(CacheObject(nowSeconds, o.updates[0].value))]
  {
    match GetVariableInfo(model, v.coilAddress)
    case None => Outcome(m, [])
    case Some(info) =>
      var val := Quotient(v.value, info.factor);
      var cached := Get(m, v.coilAddress);
      if cached.Some? && SameValue(val, cached.value.value) then Outcome(m, [])
      else
        Outcome(m[v.coilAddress := Some(CacheObject(nowSeconds, val))],
                [StateUpdate(ChannelId(v.coilAddress, info.varType), val, info.dataType)])
  }

  /** A coil the catalogue does not know changes nothing. */
  lemma UnknownCoilChangesNothing(model: PumpModel, v: ModbusValue, m: StateMap, nowSeconds: int)
    requires GetVariableInfo(model, v.coilAddress).None?
    ensures VariableUpdate(model, v, m, nowSeconds) == Outcome(m, [])
  {
  }

  /** A known coil ends up cached with the value just received, on the
      channel of its kind; a new value is announced exactly once, an
      unchanged one not at all, and no other coil's entry moves. */
  lemma KnownCoilCached(model: PumpModel, v: ModbusValue, m: StateMap, nowSeconds: int)
    requires GetVariableInfo(model, v.coilAddress).Some?
    ensures var info := GetVariableInfo(model, v.coilAddress).value;
      var val := Quotient(v.value, info.factor);
      var o := VariableUpdate(model, v, m, nowSeconds);
      Get(o.stateMap, v.coilAddress).Some? && Get(o.stateMap, v.coilAddress).value.value == val &&
      (o.updates == [] <==> Get(m, v.coilAddress).Some? && SameValue(val, Get(m, v.coilAddress).value.value)) &&
      (o.updates != [] ==> o.updates == [StateUpdate(ChannelId(v.coilAddress, info.varType), val, info.dataType)])
    ensures forall c :: c != v.coilAddress ==> Get(VariableUpdate(model, v, m, nowSeconds).stateMap, c) == Get(m, c)
  {
  }

  /** Deduplication: the same value received again, at any later time,
      changes nothing and announces nothing -- unless it is NaN, which Java
      never finds equal to the cached NaN, so it is announced every time. */
  lemma RepeatedUpdateIgnored(model: PumpModel, v: ModbusValue, m: StateMap, t1: int, t2: int)
    ensures var o1 := VariableUpdate(model, v, m, t1);
      var info := GetVariableInfo(model, v.coilAddress);
      info.None? || !Quotient(v.value, info.value.factor).NaN? ==>
        VariableUpdate(model, v, o1.stateMap, t2) == Outcome(o1.stateMap, [])
    ensures var info := GetVariableInfo(model, v.coilAddress);
      info.Some? && Quotient(v.value, info.value.factor).NaN? ==>
        |VariableUpdate(model, v, m, t1).updates| == 1
  {
    var info := GetVariableInfo(model, v.coilAddress);
    if info.Some? {
      KnownCoilCached(model, v, m, t1);
    }
  }

  /** The catalogue entry of the test, fed the raw reading 123, caches and
      announces 12.3 on channel "sensor#40004". */
  lemma OutdoorTemperatureUpdate(nowSeconds: int)
    requires KnownOutdoorSensor()
    ensures VariableUpdate(F1245, ModbusValue(40004, 123), map[], nowSeconds) ==
      Outcome(map[40004 := Some(CacheObject(nowSeconds, Finite(12.3)))],
              [StateUpdate("sensor#40004", Finite(12.3), S16)])
  {
    assert Digits(4) == "4";
    assert Digits(40) == "40";
    assert Digits(400) == "400";
    assert Digits(4000) == "4000";
    assert Digits(40004) == "40004";
    assert ChannelId(40004, Sensor) == "sensor#40004";
    assert Quotient(123, 10) == Finite(12.3);
  }

  /** handleDataReadOutMessage: every value of a data read-out, in order. */
  function ApplyAll(model: PumpModel, values: seq<ModbusValue>, m: StateMap, nowSeconds: int): (o: Outcome)
    ensures |o.updates| <= |values|
  {
    if values == [] then Outcome(m, [])
    else
      var first := VariableUpdate(model, values[0], m, nowSeconds);
      var rest := ApplyAll(model, values[1..], first.stateMap, nowSeconds);
      Outcome(rest.stateMap, first.updates + rest.updates)
  }

  /** ApplyAll from position i: the value at i, then the rest. */
  lemma ApplyAllStep(model: PumpModel, values: seq<ModbusValue>, i: nat, m: StateMap, nowSeconds: int)
    requires i < |values|
    ensures var first := VariableUpdate(model, values[i], m, nowSeconds);
      var rest := ApplyAll(model, values[i + 1..], first.stateMap, nowSeconds);
      ApplyAll(model, values[i..], m, nowSeconds) == Outcome(rest.stateMap, first.updates + rest.updates)
  {
    assert values[i..][0] == values[i] && values[i..][1..] == values[i + 1..];
  }

  /** A read-out of coils the catalogue does not know changes nothing. */
  lemma {:induction false} ReadOutOfUnknownCoils(model: PumpModel, values: seq<ModbusValue>, m: StateMap, nowSeconds: int)
    requires forall k :: 0 <= k < |values| ==> GetVariableInfo(model, values[k].coilAddress).None?
    ensures ApplyAll(model, values, m, nowSeconds) == Outcome(m, [])
  {
    if values != [] {
      ReadOutOfUnknownCoils(model, values[1..], m, nowSeconds);
    }
  }

  /** No two values of the read-out are for the same coil. */
  predicate DistinctCoils(values: seq<ModbusValue>)
  {
    forall i, j :: 0 <= i < j < |values| ==> values[i].coilAddress != values[j].coilAddress
  }

  /** After a read-out with distinct coils, every known coil of it holds the
      value just received, and coils not in it keep their entries. */
  lemma {:induction false} ApplyAllCaches(model: PumpModel, values: seq<ModbusValue>, m: StateMap, nowSeconds: int)
    requires DistinctCoils(values)
    ensures var o := ApplyAll(model, values, m, nowSeconds);
      forall k :: 0 <= k < |values| && GetVariableInfo(model, values[k].coilAddress).Some? ==>
        Get(o.stateMap, values[k].coilAddress).Some? &&
        Get(o.stateMap, values[k].coilAddress).value.value ==
          Quotient(values[k].value, GetVariableInfo(model, values[k].coilAddress).value.factor)
    ensures var o := ApplyAll(model, values, m, nowSeconds);
      forall c :: (forall k :: 0 <= k < |values| ==> values[k].coilAddress != c) ==> Get(o.stateMap, c) == Get(m, c)
  {
    if values != [] {
      var first := VariableUpdate(model, values[0], m, nowSeconds);
      var rest := values[1..];
      assert DistinctCoils(rest) by {
        forall i, j | 0 <= i < j < |rest| ensures rest[i].coilAddress != rest[j].coilAddress {
          assert rest[i] == values[i + 1] && rest[j] == values[j + 1];
        }
      }
      ApplyAllCaches(model, rest, first.stateMap, nowSeconds);
      if GetVariableInfo(model, values[0].coilAddress).Some? {
        KnownCoilCached(model, values[0], m, nowSeconds);
      } else {
        UnknownCoilChangesNothing(model, values[0], m, nowSeconds);
      }
      KnownOrUnknownKeepsOthers(model, values[0], m, nowSeconds);
      var o := ApplyAll(model, values, m, nowSeconds);
      forall k | 0 <= k < |values| && GetVariableInfo(model, values[k].coilAddress).Some?
        ensures Get(o.stateMap, values[k].coilAddress).Some? &&
          Get(o.stateMap, values[k].coilAddress).value.value ==
            Quotient(values[k].value, GetVariableInfo(model, values[k].coilAddress).value.factor)
      {
        if k == 0 {
          assert forall j :: 0 <= j < |rest| ==> rest[j].coilAddress != values[0].coilAddress by {
            forall j | 0 <= j < |rest| ensures rest[j].coilAddress != values[0].coilAddress {
              assert rest[j] == values[j + 1];
            }
          }
        } else {
          assert values[k] == rest[k - 1];
        }
      }
      forall c | forall k :: 0 <= k < |values| ==> values[k].coilAddress != c
        ensures Get(o.stateMap, c) == Get(m, c)
      {
        assert forall j :: 0 <= j < |rest| ==> rest[j].coilAddress != c by {
          forall j | 0 <= j < |rest| ensures rest[j].coilAddress != c {
            assert rest[j] == values[j + 1];
          }
        }
        assert values[0].coilAddress != c;
      }
    }
  }

  /** A single update leaves every other coil's entry alone. */
  lemma KnownOrUnknownKeepsOthers(model: PumpModel, v: ModbusValue, m: StateMap, nowSeconds: int)
    ensures forall c :: c != v.coilAddress ==> Get(VariableUpdate(model, v, m, nowSeconds).stateMap, c) == Get(m, c)
  {
  }

  /** A read-out whose every known coil already caches the value it carries
      changes nothing and announces nothing. */
  lemma {:induction false} ApplyAllUnchanged(model: PumpModel, values: seq<ModbusValue>, m: StateMap, nowSeconds: int)
    requires forall k :: 0 <= k < |values| && GetVariableInfo(model, values[k].coilAddress).Some? ==>
      Get(m, values[k].coilAddress).Some? &&
      SameValue(Quotient(values[k].value, GetVariableInfo(model, values[k].coilAddress).value.factor),
                Get(m, values[k].coilAddress).value.value)
    ensures ApplyAll(model, values, m, nowSeconds) == Outcome(m, [])
  {
    if values != [] {
      assert VariableUpdate(model, values[0], m, nowSeconds) == Outcome(m, []);
      ApplyAllUnchanged(model, values[1..], m, nowSeconds);
    }
  }

  /** Deduplication over whole read-outs: the same read-out (distinct coils,
      no NaN reading) received a second time, at any time, changes nothing
      and announces nothing. */
  lemma ReadOutRepeatedIgnored(model: PumpModel, values: seq<ModbusValue>, m: StateMap, t1: int, t2: int)
    requires DistinctCoils(values)
    requires forall k :: 0 <= k < |values| && GetVariableInfo(model, values[k].coilAddress).Some? ==>
      !Quotient(values[k].value, GetVariableInfo(model, values[k].coilAddress).value.factor).NaN?
    ensures var once := ApplyAll(model, values, m, t1);
      ApplyAll(model, values, once.stateMap, t2) == Outcome(once.stateMap, [])
  {
    ApplyAllCaches(model, values, m, t1);
    ApplyAllUnchanged(model, values, ApplyAll(model, values, m, t1).stateMap, t2);
  }

  // ------------------------------------------------------------ polling

  /** The poll decision: query a coil with no cached value, or whose value
      is older than the refresh interval (strictly). */
  predicate NeedsQuery(cached: Option<CacheObject>, refreshInterval: int, nowSeconds: int)
  {
    cached.None? || cached.value.lastUpdateTime + refreshInterval < nowSeconds
  }

  /** What one poll tick does over the coils to poll: which coils it
      queries, in order, and the cache and updates that the replies given
      by `answer` produce. Without a connected connector nothing is queried. */
  datatype PollOutcome = PollOutcome(queried: seq<int>, stateMap: StateMap, updates: seq<StateUpdate>)

  /** One coil of a tick: queried when connected and it needs a query;
      the reply, if any, goes through handleVariableUpdate. */
  function PollOne(model: PumpModel, item: int, m: StateMap, refreshInterval: int, nowSeconds: int,
                   connected: bool, answer: int -> Option<ModbusValue>): (p: PollOutcome)
    ensures p.queried == [] || p.queried == [item]
    ensures p.queried == [item] <==> connected && NeedsQuery(Get(m, item), refreshInterval, nowSeconds)
    ensures p.queried == [] ==> p.stateMap == m && p.updates == []
  {
    if connected && NeedsQuery(Get(m, item), refreshInterval, nowSeconds) then
      match answer(item)
      case Some(v) =>
        var o := VariableUpdate(model, v, m, nowSeconds);
        PollOutcome([item], o.stateMap, o.updates)
      case None => PollOutcome([item], m, [])
    else PollOutcome([], m, [])
  }

  function PollItems(model: PumpModel, items: seq<int>, m: StateMap, refreshInterval: int, nowSeconds: int,
                     connected: bool, answer: int -> Option<ModbusValue>): (p: PollOutcome)
    ensures |p.queried| <= |items|
    ensures !connected ==> p == PollOutcome([], m, [])
  {
    if items == [] then PollOutcome([], m, [])
    else
      var first := PollOne(model, items[0], m, refreshInterval, nowSeconds, connected, answer);
      var rest := PollItems(model, items[1..], first.stateMap, refreshInterval, nowSeconds, connected, answer);
      PollOutcome(first.queried + rest.queried, rest.stateMap, first.updates + rest.updates)
  }

  /** The polling loop after i coils: it has queried `sent` and produced
      `done`, and the rest of the run from cache m completes the tick that
      started from cache m0. */
  ghost predicate PollProgress(model: PumpModel, items: seq<int>, i: nat, m0: StateMap, m: StateMap,
                               sent: seq<int>, done: seq<StateUpdate>, refreshInterval: int, nowSeconds: int,
                               connected: bool, answer: int -> Option<ModbusValue>)
    requires i <= |items|
  {
    var rest := PollItems(model, items[i..], m, refreshInterval, nowSeconds, connected, answer);
    PollItems(model, items, m0, refreshInterval, nowSeconds, connected, answer) ==
    PollOutcome(sent + rest.queried, rest.stateMap, done + rest.updates)
  }

  /** One more coil keeps the loop's progress. */
  lemma PollProgressStep(model: PumpModel, items: seq<int>, i: nat, m0: StateMap, m: StateMap,
                         sent: seq<int>, done: seq<StateUpdate>, refreshInterval: int, nowSeconds: int,
                         connected: bool, answer: int -> Option<ModbusValue>)
    requires i < |items|
    requires PollProgress(model, items, i, m0, m, sent, done, refreshInterval, nowSeconds, connected, answer)
    ensures var first := PollOne(model, items[i], m, refreshInterval, nowSeconds, connected, answer);
      PollProgress(model, items, i + 1, m0, first.stateMap, sent + first.queried, done + first.updates,
                   refreshInterval, nowSeconds, connected, answer)
  {
    var first := PollOne(model, items[i], m, refreshInterval, nowSeconds, connected, answer);
    PollStep(model, items, i, m, refreshInterval, nowSeconds, connected, answer);
    var rest := PollItems(model, items[i + 1..], first.stateMap, refreshInterval, nowSeconds, connected, answer);
    assert (sent + first.queried) + rest.queried == sent + (first.queried + rest.queried);
    assert (done + first.updates) + rest.updates == done + (first.updates + rest.updates);
  }

  /** At the end of the loop its progress is the whole tick. */
  lemma PollProgressDone(model: PumpModel, items: seq<int>, m0: StateMap, m: StateMap,
                         sent: seq<int>, done: seq<StateUpdate>, refreshInterval: int, nowSeconds: int,
                         connected: bool, answer: int -> Option<ModbusValue>)
    requires PollProgress(model, items, |items|, m0, m, sent, done, refreshInterval, nowSeconds, connected, answer)
    ensures PollItems(model, items, m0, refreshInterval, nowSeconds, connected, answer) == PollOutcome(sent, m, done)
  {
    assert items[|items|..] == [];
    assert sent + [] == sent && done + [] == done;
  }

  /** A tick queries only coils that are to be polled. */
  lemma {:induction false} PollQueriesOnlyItems(model: PumpModel, items: seq<int>, m: StateMap, refreshInterval: int,
                                                 nowSeconds: int, connected: bool, answer: int -> Option<ModbusValue>)
    ensures forall c :: c in PollItems(model, items, m, refreshInterval, nowSeconds, connected, answer).queried ==> c in items
  {
    if items != [] {
      var first := PollOne(model, items[0], m, refreshInterval, nowSeconds, connected, answer);
      PollQueriesOnlyItems(model, items[1..], first.stateMap, refreshInterval, nowSeconds, connected, answer);
    }
  }

  /** PollItems from position i: the coil at i, then the rest. */
  lemma PollStep(model: PumpModel, items: seq<int>, i: nat, m: StateMap, refreshInterval: int, nowSeconds: int,
                 connected: bool, answer: int -> Option<ModbusValue>)
    requires i < |items|
    ensures var first := PollOne(model, items[i], m, refreshInterval, nowSeconds, connected, answer);
      var rest := PollItems(model, items[i + 1..], first.stateMap, refreshInterval, nowSeconds, connected, answer);
      PollItems(model, items[i..], m, refreshInterval, nowSeconds, connected, answer) ==
      PollOutcome(first.queried + rest.queried, rest.stateMap, first.updates + rest.updates)
  {
    assert items[i..][0] == items[i] && items[i..][1..] == items[i + 1..];
  }

  /** When every coil to poll holds a value newer than the refresh interval,
      a tick queries nothing and changes nothing. */
  lemma {:induction false} PollNothingWhenFresh(model: PumpModel, items: seq<int>, m: StateMap, refreshInterval: int,
                                                 nowSeconds: int, connected: bool, answer: int -> Option<ModbusValue>)
    requires forall k :: 0 <= k < |items| ==> !NeedsQuery(Get(m, items[k]), refreshInterval, nowSeconds)
    ensures PollItems(model, items, m, refreshInterval, nowSeconds, connected, answer) == PollOutcome([], m, [])
  {
    if items != [] {
      PollNothingWhenFresh(model, items[1..], m, refreshInterval, nowSeconds, connected, answer);
    }
  }

  /** With an empty cache and no replies, a connected tick queries every
      coil to poll, in order, duplicates included. */
  lemma {:induction false} PollEverythingWhenEmpty(model: PumpModel, items: seq<int>, refreshInterval: int,
                                                    nowSeconds: int, answer: int -> Option<ModbusValue>)
    requires forall c :: answer(c) == None
    ensures PollItems(model, items, map[], refreshInterval, nowSeconds, true, answer) == PollOutcome(items, map[], [])
  {
    if items != [] {
      PollEverythingWhenEmpty(model, items[1..], refreshInterval, nowSeconds, answer);
      assert items == [items[0]] + items[1..];
    }
  }

  /** The frames of read requests for the given coils. */
  function ReadRequests(coils: seq<int>): (frames: seq<seq<byte>>)
    ensures |frames| == |coils|
  {
    if coils == [] then [] else [RequestFrame(ReadRequestMsg(coils[0]))] + ReadRequests(coils[1..])
  }

  lemma ReadRequestsAppend(a: seq<int>, b: seq<int>)
    ensures ReadRequests(a + b) == ReadRequests(a) + ReadRequests(b)
  {
    if a != [] {
      assert (a + b)[1..] == a[1..] + b;
    } else {
      assert a + b == b;
    }
  }

  // ------------------------------------------------------------ channel ids

  lemma NoHashInNumber(i: int)
    ensures '#' !in IntToString(i)
  {
    var s := IntToString(i);
    var d := if i < 0 then Digits(-i) else Digits(i);
    assert forall k :: 0 <= k < |d| ==> IsDigit(d[k]);
    if i < 0 {
      assert forall k :: 1 <= k < |s| ==> s[k] == d[k - 1];
    }
  }

  /** parseCoildAddressFromChannelUID: the number after the last '#' when
      the id has one (String.split drops trailing empty pieces, and an id
      with nothing but separators has no last piece), else the whole id. */
  function ParseCoilAddress(id: string): (r: Result<int, Error>)
    ensures r.Ok? ==> Int32Min <= r.value <= Int32Max
  {
    if '#' in id then
      var parts := Split(id, '#');
      if parts == [] then Err(IndexOutOfBounds) else ParseInt(parts[|parts| - 1])
    else ParseInt(id)
  }

  /** The channel ids the handler builds are parsed back to their coil. */
  lemma ParseChannelId(coil: int, t: VariableType)
    requires Int32Min <= coil <= Int32Max
    ensures ParseCoilAddress(ChannelId(coil, t)) == Ok(coil)
  {
    var prefix := if t == Setting then "setting" else "sensor";
    var id := ChannelId(coil, t);
    assert id == prefix + ['#'] + IntToString(coil);
    NoHashInNumber(coil);
    SplitLast(prefix, '#', IntToString(coil));
    assert '#' in id by {
      assert id[|prefix|] == '#';
    }
    var parts := Split(id, '#');
    assert parts != [] && parts[|parts| - 1] == IntToString(coil);
    assert ParseCoilAddress(id) == ParseInt(IntToString(coil));
    ParseIntOfIntToString(coil);
  }

  /** An id without '#' is parsed whole. */
  lemma ParsePlainId(coil: int)
    requires Int32Min <= coil <= Int32Max
    ensures ParseCoilAddress(IntToString(coil)) == Ok(coil)
  {
    NoHashInNumber(coil);
    ParseIntOfIntToString(coil);
  }

  /** An id made of a separator only has no last piece: the array index
      is out of bounds. */
  lemma ParseSeparatorOnly()
    ensures ParseCoilAddress("#") == Err(IndexOutOfBounds)
  {
    assert "#"[0] == '#';
    assert SplitAll("#", '#') == ["", ""] by {
      assert IndexOf("#", '#') == 0;
      assert "#"[1..] == "";
    }
  }

  // ------------------------------------------------------------ commands

  /** The commands a channel receives. */
  datatype Command = Refresh | On | Off | Other(text: string)

  /** convertStateToNibeValue: ON is 1, OFF is 0, anything else is the
      integer its text spells (REFRESH never reaches it). */
  function ConvertStateToNibeValue(c: Command): (r: Result<int, Error>)
    ensures r.Ok? ==> Int32Min <= r.value <= Int32Max
  {
    match c
    case On => Ok(1)
    case Off => Ok(0)
    case Refresh => ParseInt("REFRESH")
    case Other(text) => ParseInt(text)
  }

  /** Switch states convert to 1 and 0, and a number's text to the number. */
  lemma ConvertStates(i: int)
    requires Int32Min <= i <= Int32Max
    ensures ConvertStateToNibeValue(On) == Ok(1) && ConvertStateToNibeValue(Off) == Ok(0)
    ensures ConvertStateToNibeValue(Other(IntToString(i))) == Ok(i)
  {
    ParseIntOfIntToString(i);
  }

  /** What handleCommand does. */
  datatype CommandOutcome =
    | Failed(e: Error)                 // an exception escapes handleCommand
    | CacheCleared(coil: int)          // REFRESH: the entry is cleared, nothing is sent
    | Ignored                          // writes disabled, or no connector
    | ReadOnly                         // the coil is unknown or not a setting
    | Written(coil: int, value: int)   // a write request is sent, then the entry cleared

  /** The decision handleCommand takes. */
  function CommandEffect(conf: Configuration, model: PumpModel, hasConnector: bool, id: string, command: Command): (o: CommandOutcome)
    ensures ParseCoilAddress(id).Err? ==> o == Failed(ParseCoilAddress(id).error)
    ensures ParseCoilAddress(id).Ok? && command == Refresh ==> o == CacheCleared(ParseCoilAddress(id).value)
    ensures ParseCoilAddress(id).Ok? && command != Refresh && !conf.enableWriteCommands ==> o == Ignored
    ensures o.Written? ==> command != Refresh && conf.enableWriteCommands && hasConnector
    ensures o.Written? ==> ParseCoilAddress(id) == Ok(o.coil)
    ensures o.Written? ==>
      var info := GetVariableInfo(model, o.coil);
      info.Some? && info.value.varType == Setting && ConvertStateToNibeValue(command).Ok? &&
      o.value == Wrap32(ConvertStateToNibeValue(command).value * info.value.factor)
  {
    match ParseCoilAddress(id)
    case Err(e) => Failed(e)
    case Ok(coil) =>
      if command == Refresh then CacheCleared(coil)
      else if !conf.enableWriteCommands || !hasConnector then Ignored
      else
        var info := GetVariableInfo(model, coil);
        if info.None? || info.value.varType != Setting then ReadOnly
        else
          match ConvertStateToNibeValue(command)
          case Err(e) => Failed(e)
          case Ok(raw) => Written(coil, Wrap32(raw * info.value.factor))
  }

  // ------------------------------------------------------------ the handler

  class NibeHeatPumpHandler {
    var pumpModel: PumpModel
    var configuration: Configuration
    var connector: SerialConnector2?
    var itemsToPoll: seq<int>
    var stateMap: StateMap
    /** Every updateState call made so far, in order. */
    var updates: seq<StateUpdate>
    /** readResult and writeResult: null (None), or a pending reply slot. */
    var readResult: Option<Option<Message>>
    var writeResult: Option<Option<Message>>
    var reconnectionRequest: bool

    /** A handler as initialize() leaves it: model F1245, the given
        configuration and connector, nothing to poll and an empty cache. */
    constructor (conf: Configuration, c: SerialConnector2?)
      ensures pumpModel == F1245 && configuration == conf && connector == c
      ensures itemsToPoll == [] && stateMap == map[] && updates == []
      ensures readResult == None && writeResult == None && !reconnectionRequest
    {
      pumpModel := F1245;
      configuration := conf;
      connector := c;
      itemsToPoll := [];
      stateMap := map[];
      updates := [];
      readResult := None;
      writeResult := None;
      reconnectionRequest := false;
    }

    /** clearCache(): forget every coil. */
    method ClearCache()
      modifies this
      ensures stateMap == map[]
      ensures itemsToPoll == old(itemsToPoll) && updates == old(updates) && connector == old(connector)
      ensures configuration == old(configuration) && pumpModel == old(pumpModel)
      ensures readResult == old(readResult) && writeResult == old(writeResult) && reconnectionRequest == old(reconnectionRequest)
    {
      stateMap := map[];
    }

    /** clearCache(coil): map the coil to null, so the next poll queries it. */
    method ClearCacheOf(coil: int)
      modifies this
      ensures stateMap == old(stateMap)[coil := None]
      ensures NeedsQuery(Get(stateMap, coil), configuration.refreshInterval, 0)
      ensures forall c :: c != coil ==> Get(stateMap, c) == Get(old(stateMap), c)
      ensures itemsToPoll == old(itemsToPoll) && updates == old(updates) && connector == old(connector)
      ensures configuration == old(configuration) && pumpModel == old(pumpModel)
      ensures readResult == old(readResult) && writeResult == old(writeResult) && reconnectionRequest == old(reconnectionRequest)
    {
      stateMap := stateMap[coil := None];
    }

    /** channelLinked(id): add the coil to the coils to poll (duplicates
        allowed) and clear its entry; an unparsable id throws. */
    method ChannelLinked(id: string) returns (err: Option<Error>)
      modifies this
      ensures ParseCoilAddress(id).Err? ==>
        err == Some(ParseCoilAddress(id).error) && itemsToPoll == old(itemsToPoll) && stateMap == old(stateMap)
      ensures ParseCoilAddress(id).Ok? ==>
        var coil := ParseCoilAddress(id).value;
        err == None && itemsToPoll == old(itemsToPoll) + [coil] && stateMap == old(stateMap)[coil := None]
      ensures updates == old(updates) && connector == old(connector)
      ensures pumpModel == old(pumpModel) && configuration == old(configuration)
      ensures readResult == old(readResult) && writeResult == old(writeResult) && reconnectionRequest == old(reconnectionRequest)
    {
      var r := ParseCoilAddress(id);
      if r.Err? {
        return Some(r.error);
      }
      itemsToPoll := itemsToPoll + [r.value];
      ClearCacheOf(r.value);
      return None;
    }

    /** channelUnlinked(id) as written: List.remove(int) takes the coil
        address as an index, so it removes whatever sits at that position,
        or throws when the address is not a valid index. */
    method ChannelUnlinkedAsWritten(id: string) returns (err: Option<Error>)
      modifies this
      ensures ParseCoilAddress(id).Err? ==> err == Some(ParseCoilAddress(id).error) && itemsToPoll == old(itemsToPoll)
      ensures ParseCoilAddress(id).Ok? ==> var r := RemoveAt(old(itemsToPoll), ParseCoilAddress(id).value);
        (r.Ok? ==> err == None && itemsToPoll == r.value) &&
        (r.Err? ==> err == Some(r.error) && itemsToPoll == old(itemsToPoll))
      ensures stateMap == old(stateMap) && updates == old(updates) && connector == old(connector)
      ensures pumpModel == old(pumpModel) && configuration == old(configuration)
      ensures readResult == old(readResult) && writeResult == old(writeResult) && reconnectionRequest == old(reconnectionRequest)
    {
      var r := ParseCoilAddress(id);
      if r.Err? {
        return Some(r.error);
      }
      var removed := RemoveAt(itemsToPoll, r.value);
      if removed.Err? {
        return Some(removed.error);
      }
      itemsToPoll := removed.value;
      return None;
    }

    /** channelUnlinked(id) corrected: remove the coil itself (its first
        occurrence), as List.remove(Object) does. */
    method ChannelUnlinked(id: string) returns (err: Option<Error>)
      modifies this
      ensures ParseCoilAddress(id).Err? ==> err == Some(ParseCoilAddress(id).error) && itemsToPoll == old(itemsToPoll)
      ensures ParseCoilAddress(id).Ok? ==>
        err == None && itemsToPoll == RemoveFirst(old(itemsToPoll), ParseCoilAddress(id).value)
      ensures stateMap == old(stateMap) && updates == old(updates) && connector == old(connector)
      ensures pumpModel == old(pumpModel) && configuration == old(configuration)
      ensures readResult == old(readResult) && writeResult == old(writeResult) && reconnectionRequest == old(reconnectionRequest)
    {
      var r := ParseCoilAddress(id);
      if r.Err? {
        return Some(r.error);
      }
      itemsToPoll := RemoveFirst(itemsToPoll, r.value);
      return None;
    }

    /** handleVariableUpdate(pumpModel, value) at time nowSeconds. */
    method HandleVariableUpdate(v: ModbusValue, nowSeconds: int)
      modifies this
      ensures var o := VariableUpdate(pumpModel, v, old(stateMap), nowSeconds);
        stateMap == o.stateMap && updates == old(updates) + o.updates
      ensures itemsToPoll == old(itemsToPoll) && connector == old(connector) && pumpModel == old(pumpModel)
      ensures configuration == old(configuration) && reconnectionRequest == old(reconnectionRequest)
      ensures readResult == old(readResult) && writeResult == old(writeResult)
    {
      var info := GetVariableInfo(pumpModel, v.coilAddress);
      if info.None? {
        return;
      }
      var val := Quotient(v.value, info.value.factor);
      var cached := Get(stateMap, v.coilAddress);
      if cached.Some? && SameValue(val, cached.value.value) {
        return;
      }
      stateMap := stateMap[v.coilAddress := Some(CacheObject(nowSeconds, val))];
      updates := updates + [StateUpdate(ChannelId(v.coilAddress, info.value.varType), val, info.value.dataType)];
    }

    /** handleDataReadOutMessage: update every value of the read-out, in
        order. */
    method HandleDataReadOut(values: seq<ModbusValue>, nowSeconds: int)
      modifies this
      ensures var o := ApplyAll(pumpModel, values, old(stateMap), nowSeconds);
        stateMap == o.stateMap && updates == old(updates) + o.updates
      ensures itemsToPoll == old(itemsToPoll) && connector == old(connector) && pumpModel == old(pumpModel)
      ensures readResult == old(readResult) && writeResult == old(writeResult)
      ensures configuration == old(configuration) && reconnectionRequest == old(reconnectionRequest)
    {
      var i := 0;
      ghost var done: seq<StateUpdate> := [];
      while i < |values|
        invariant 0 <= i <= |values|
        invariant pumpModel == old(pumpModel) && itemsToPoll == old(itemsToPoll) && connector == old(connector)
        invariant readResult == old(readResult) && writeResult == old(writeResult)
        invariant configuration == old(configuration) && reconnectionRequest == old(reconnectionRequest)
        invariant updates == old(updates) + done
        invariant var rest := ApplyAll(pumpModel, values[i..], stateMap, nowSeconds);
          ApplyAll(pumpModel, values, old(stateMap), nowSeconds) == Outcome(rest.stateMap, done + rest.updates)
      {
        ghost var o := VariableUpdate(pumpModel, values[i], stateMap, nowSeconds);
        ApplyAllStep(pumpModel, values, i, stateMap, nowSeconds);
        ghost var rest := ApplyAll(pumpModel, values[i + 1..], o.stateMap, nowSeconds);
        HandleVariableUpdate(values[i], nowSeconds);
        AppendAssoc(done, o.updates, rest.updates);
        AppendAssoc(old(updates), done, o.updates);
        done := done + o.updates;
        i := i + 1;
      }
      assert values[i..] == [];
    }

    /** handleReadResponseMessage: fill the pending read slot, if any. */
    method HandleReadResponse(m: Message)
      modifies this
      ensures old(readResult).Some? ==> readResult == Some(Some(m))
      ensures old(readResult).None? ==> readResult == None
      ensures stateMap == old(stateMap) && updates == old(updates) && writeResult == old(writeResult)
      ensures itemsToPoll == old(itemsToPoll) && connector == old(connector)
      ensures pumpModel == old(pumpModel) && configuration == old(configuration) && reconnectionRequest == old(reconnectionRequest)
    {
      if readResult.Some? {
        readResult := Some(Some(m));
      }
    }

    /** handleWriteResponseMessage: fill the pending write slot, if any. */
    method HandleWriteResponse(m: Message)
      modifies this
      ensures old(writeResult).Some? ==> writeResult == Some(Some(m))
      ensures old(writeResult).None? ==> writeResult == None
      ensures stateMap == old(stateMap) && updates == old(updates) && readResult == old(readResult)
      ensures itemsToPoll == old(itemsToPoll) && connector == old(connector)
      ensures pumpModel == old(pumpModel) && configuration == old(configuration) && reconnectionRequest == old(reconnectionRequest)
    {
      if writeResult.Some? {
        writeResult := Some(Some(m));
      }
    }

    /** msgReceived(msg): read and write responses fill their slots, a data
        read-out updates the cache; other messages are ignored. */
    method MsgReceived(m: Message, nowSeconds: int)
      modifies this
      ensures m.DataReadOutMsg? ==> var o := ApplyAll(pumpModel, m.values, old(stateMap), nowSeconds);
        stateMap == o.stateMap && updates == old(updates) + o.updates
      ensures !m.DataReadOutMsg? ==> stateMap == old(stateMap) && updates == old(updates)
      ensures m.ReadResponseMsg? && old(readResult).Some? ==> readResult == Some(Some(m))
      ensures !m.ReadResponseMsg? || old(readResult).None? ==> readResult == old(readResult)
      ensures m.WriteResponseMsg? && old(writeResult).Some? ==> writeResult == Some(Some(m))
      ensures !m.WriteResponseMsg? || old(writeResult).None? ==> writeResult == old(writeResult)
      ensures itemsToPoll == old(itemsToPoll) && connector == old(connector)
      ensures pumpModel == old(pumpModel) && configuration == old(configuration) && reconnectionRequest == old(reconnectionRequest)
    {
      match m
      case ReadResponseMsg(_) => HandleReadResponse(m);
      case WriteResponseMsg(_) => HandleWriteResponse(m);
      case DataReadOutMsg(values) => HandleDataReadOut(values, nowSeconds);
      case _ =>
    }

    /** errorOccured(text): ask for the connection to be re-established. */
    method ErrorOccured(text: string)
      modifies this
      ensures reconnectionRequest
      ensures stateMap == old(stateMap) && itemsToPoll == old(itemsToPoll) && updates == old(updates)
      ensures readResult == old(readResult) && writeResult == old(writeResult) && connector == old(connector)
      ensures pumpModel == old(pumpModel) && configuration == old(configuration)
    {
      reconnectionRequest := true;
    }

    /** handleCommand(id, command): see CommandEffect. A write request goes
        to the connector's write queue; waiting for its reply is not
        modelled. */
    method HandleCommand(id: string, command: Command) returns (err: Option<Error>)
      modifies this, connector
      ensures connector == old(connector) && pumpModel == old(pumpModel) && configuration == old(configuration)
      ensures itemsToPoll == old(itemsToPoll) && updates == old(updates) && readResult == old(readResult)
      ensures reconnectionRequest == old(reconnectionRequest)
      ensures connector != null ==> connector.out == old(connector.out) && connector.conf == old(connector.conf)
      ensures var o := CommandEffect(old(configuration), old(pumpModel), old(connector) != null, id, command);
        (o.Failed? ==> err == Some(o.e) && stateMap == old(stateMap)) &&
        (o.CacheCleared? ==> err == None && stateMap == old(stateMap)[o.coil := None]) &&
        ((o.Ignored? || o.ReadOnly?) ==> err == None && stateMap == old(stateMap)) &&
        (o.Written? ==> err == None && stateMap == old(stateMap)[o.coil := None] && writeResult == None)
      ensures !CommandEffect(old(configuration), old(pumpModel), old(connector) != null, id, command).Written? ==>
        writeResult == old(writeResult)
      ensures var o := CommandEffect(old(configuration), old(pumpModel), old(connector) != null, id, command);
        connector != null ==>
          connector.readQueue == old(connector.readQueue) &&
          (o.Written? ==> connector.writeQueue == old(connector.writeQueue) + [RequestFrame(WriteRequestMsg(o.coil, o.value))]) &&
          (!o.Written? ==> connector.writeQueue == old(connector.writeQueue))
    {
      var r := ParseCoilAddress(id);
      if r.Err? {
        return Some(r.error);
      }
      var coil := r.value;
      if command == Refresh {
        ClearCacheOf(coil);
        return None;
      }
      if !configuration.enableWriteCommands {
        return None;
      }
      if connector == null {
        return None;
      }
      var info := GetVariableInfo(pumpModel, coil);
      if info.Some? && info.value.varType == Setting {
        var v := ConvertStateToNibeValue(command);
        if v.Err? {
          return Some(v.error);
        }
        var value := Wrap32(v.value * info.value.factor);
        writeResult := Some(None);
        connector.SendDatagram(WriteRequestMsg(coil, value));
        writeResult := None;
        ClearCacheOf(coil);
      }
      return None;
    }

    /** One coil of the polling loop. */
    method PollItem(item: int, nowSeconds: int, answer: int -> Option<ModbusValue>, ghost connected: bool)
      requires connected <==> connector != null && connector.base.connected
      modifies this, connector
      ensures connector == old(connector) && pumpModel == old(pumpModel) && configuration == old(configuration)
      ensures var p := PollOne(pumpModel, item, old(stateMap), configuration.refreshInterval, nowSeconds, connected, answer);
        stateMap == p.stateMap && updates == old(updates) + p.updates &&
        (connector != null ==> connector.readQueue == old(connector.readQueue) + ReadRequests(p.queried)) &&
        (p.queried == [] ==> readResult == old(readResult)) &&
        (p.queried != [] ==> readResult == None)
      ensures itemsToPoll == old(itemsToPoll) && writeResult == old(writeResult)
      ensures connector != null ==> connector.writeQueue == old(connector.writeQueue)
      ensures reconnectionRequest == old(reconnectionRequest)
      ensures connector != null ==> connector.out == old(connector.out) && connector.conf == old(connector.conf)
      ensures connector != null ==> connector.base.connected == old(connector.base.connected)
    {
      if connector != null && connector.base.connected {
        if NeedsQuery(Get(stateMap, item), configuration.refreshInterval, nowSeconds) {
          readResult := Some(None);
          connector.SendDatagram(ReadRequestMsg(item));
          assert ReadRequests([item]) == [RequestFrame(ReadRequestMsg(item))];
          if answer(item).Some? {
            HandleVariableUpdate(answer(item).value, nowSeconds);
          }
          // finally: the slot is cleared
          readResult := None;
        }
      }
    }

    /** One run of the polling job at time nowMillis: nothing when reads are
        disabled; otherwise, over a snapshot of the coils to poll, each coil
        that needs a query is sent as a read request and the reply (if one
        comes) updates the cache. */
    method PollTick(nowMillis: nat, answer: int -> Option<ModbusValue>)
      modifies this, connector
      ensures connector == old(connector) && pumpModel == old(pumpModel) && configuration == old(configuration)
      ensures itemsToPoll == old(itemsToPoll) && writeResult == old(writeResult)
      ensures connector != null ==> connector.writeQueue == old(connector.writeQueue)
      ensures reconnectionRequest == old(reconnectionRequest)
      ensures connector != null ==> connector.out == old(connector.out) && connector.conf == old(connector.conf)
      ensures !configuration.enableReadCommands ==> stateMap == old(stateMap) && updates == old(updates)
      ensures !configuration.enableReadCommands ==> readResult == old(readResult)
      ensures !configuration.enableReadCommands && connector != null ==> connector.readQueue == old(connector.readQueue)
      ensures configuration.enableReadCommands ==>
        var p := PollItems(pumpModel, itemsToPoll, old(stateMap), configuration.refreshInterval, nowMillis / 1000,
                           connector != null && old(connector.base.connected), answer);
        stateMap == p.stateMap && updates == old(updates) + p.updates &&
        (connector != null ==> connector.readQueue == old(connector.readQueue) + ReadRequests(p.queried)) &&
        (p.queried == [] ==> readResult == old(readResult)) &&
        (p.queried != [] ==> readResult == None)
    {
      if !configuration.enableReadCommands {
        return;
      }
      PollAll(itemsToPoll, nowMillis / 1000, answer, connector != null && connector.base.connected);
    }

    /** The loop of a polling run over the snapshot items. */
    method PollAll(items: seq<int>, nowSeconds: int, answer: int -> Option<ModbusValue>, ghost connected: bool)
      requires connected <==> connector != null && connector.base.connected
      modifies this, connector
      ensures connector == old(connector) && pumpModel == old(pumpModel) && configuration == old(configuration)
      ensures itemsToPoll == old(itemsToPoll) && writeResult == old(writeResult)
      ensures connector != null ==> connector.writeQueue == old(connector.writeQueue)
      ensures reconnectionRequest == old(reconnectionRequest)
      ensures connector != null ==> connector.out == old(connector.out) && connector.conf == old(connector.conf)
      ensures var p := PollItems(pumpModel, items, old(stateMap), configuration.refreshInterval, nowSeconds, connected, answer);
        stateMap == p.stateMap && updates == old(updates) + p.updates &&
        (connector != null ==> connector.readQueue == old(connector.readQueue) + ReadRequests(p.queried)) &&
        (p.queried == [] ==> readResult == old(readResult)) &&
        (p.queried != [] ==> readResult == None)
    {
      ghost var done: seq<StateUpdate> := [];
      ghost var sent: seq<int> := [];
      var i := 0;
      while i < |items|
        invariant 0 <= i <= |items|
        invariant connector == old(connector) && pumpModel == old(pumpModel) && configuration == old(configuration)
        invariant itemsToPoll == old(itemsToPoll) && writeResult == old(writeResult)
        invariant sent == [] ==> readResult == old(readResult)
        invariant sent != [] ==> readResult == None
        invariant connector != null ==> connector.writeQueue == old(connector.writeQueue)
        invariant reconnectionRequest == old(reconnectionRequest)
        invariant connector != null ==> connector.out == old(connector.out) && connector.conf == old(connector.conf)
        invariant connector != null ==> connector.base.connected == connected
        invariant connector != null ==> connector.readQueue == old(connector.readQueue) + ReadRequests(sent)
        invariant updates == old(updates) + done
        invariant PollProgress(pumpModel, items, i, old(stateMap), stateMap, sent, done,
                               configuration.refreshInterval, nowSeconds, connected, answer)
      {
        ghost var first := PollOne(pumpModel, items[i], stateMap, configuration.refreshInterval, nowSeconds, connected, answer);
        PollProgressStep(pumpModel, items, i, old(stateMap), stateMap, sent, done,
                         configuration.refreshInterval, nowSeconds, connected, answer);
        PollItem(items[i], nowSeconds, answer, connected);
        ReadRequestsAppend(sent, first.queried);
        AppendAssoc(old(updates), done, first.updates);
        if connector != null {
          AppendAssoc(old(connector.readQueue), ReadRequests(sent), ReadRequests(first.queried));
        }
        sent := sent + first.queried;
        done := done + first.updates;
        i := i + 1;
      }
      PollProgressDone(pumpModel, items, old(stateMap), stateMap, sent, done,
                       configuration.refreshInterval, nowSeconds, connected, answer);
    }
  }

  // ------------------------------------------------------------ unlinking

  /** As written, unlinking coil 0 from the poll list [1, 0] removes coil 1
      (the element at index 0) and keeps polling coil 0. */
  method UnlinkRemovesByIndexAsWritten() returns (polled: seq<int>)
    ensures polled == [0]
  {
    var h := new NibeHeatPumpHandler(Configuration(60, true, false, false, false, false), null);
    ParsePlainId(1);
    ParsePlainId(0);
    assert IntToString(1) == "1" && IntToString(0) == "0";
    var e1 := h.ChannelLinked("1");
    var e2 := h.ChannelLinked("0");
    var e3 := h.ChannelUnlinkedAsWritten("0");
    polled := h.itemsToPoll;
  }

  /** As written, unlinking a real coil address (40004) from a short poll
      list throws and leaves the coil being polled. */
  method UnlinkThrowsAsWritten() returns (err: Option<Error>, polled: seq<int>)
    ensures err == Some(IndexOutOfBounds) && polled == [40004]
  {
    var h := new NibeHeatPumpHandler(Configuration(60, true, false, false, false, false), null);
    ParseChannelId(40004, Sensor);
    var e1 := h.ChannelLinked(ChannelId(40004, Sensor));
    err := h.ChannelUnlinkedAsWritten(ChannelId(40004, Sensor));
    polled := h.itemsToPoll;
  }

  /** A channel linked on a connected handler is queried at the next poll:
      its read request is queued on the connector, whatever the time. */
  method LinkedCoilPolled(conf: Configuration, coil: int, nowMillis: nat) returns (sent: seq<seq<byte>>)
    requires conf.enableReadCommands && Int32Min <= coil <= Int32Max
    ensures sent == [RequestFrame(ReadRequestMsg(coil))]
  {
    var c := new SerialConnector2();
    var e := c.Connect(conf, None);
    var h := new NibeHeatPumpHandler(conf, c);
    ParsePlainId(coil);
    var e1 := h.ChannelLinked(IntToString(coil));
    var noReply: int -> Option<ModbusValue> := _ => None;
    assert h.itemsToPoll == [coil] && Get(h.stateMap, coil) == None;
    assert [coil][1..] == [];
    assert PollItems(F1245, [coil], h.stateMap, conf.refreshInterval, nowMillis / 1000, true, noReply).queried == [coil];
    h.PollTick(nowMillis, noReply);
    assert ReadRequests([coil]) == [RequestFrame(ReadRequestMsg(coil))];
    sent := c.readQueue;
  }

  /** Corrected: linking then unlinking a channel leaves the same coils to
      poll (as a multiset: an earlier duplicate may be the one removed). */
  lemma LinkThenUnlinkRestores(items: seq<int>, coil: int)
    ensures multiset(RemoveFirst(items + [coil], coil)) == multiset(items)
  {
    RemoveFirstMultiset(items + [coil], coil);
  }

  /** Corrected: unlinking a coil that was linked once stops polling it. */
  lemma UnlinkStopsPolling(items: seq<int>, coil: int)
    requires coil !in items
    ensures coil !in RemoveFirst(items + [coil], coil)
    ensures RemoveFirst(items + [coil], coil) == items
  {
    RemoveFirstAppendAbsent(items, coil);
  }
}
