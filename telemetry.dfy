/** The dashboard's per-device telemetry: a rolling window of the last
    readings for each device, the list of devices seen so far, and the
    message handler that files each incoming reading. */
module Telemetry {
  import opened JsValues

  /** Readings kept per device. */
  const MaxLen: nat := 50

  // ------------------------------------------------------- rolling window

  /** One `push` onto a window followed, once it has grown past `cap`, by one `shift`. */
  function Slide<T>(s: seq<T>, x: T, cap: nat): seq<T>
  {
    if |s| + 1 > cap then (s + [x])[1..] else s + [x]
  }

  /** The last `cap` entries of `h`, oldest first (all of `h` when it is shorter). */
  function Recent<T>(h: seq<T>, cap: nat): (r: seq<T>)
    ensures |r| == if |h| <= cap then |h| else cap
    ensures forall k :: 0 <= k < |r| ==> r[k] == h[|h| - |r| + k]
  {
    if |h| <= cap then h else h[|h| - cap..]
  }

  /** The windows after `xs` were added one by one to `w`. */
  function Replay<T>(w: seq<T>, xs: seq<T>, cap: nat): seq<T>
    decreases |xs|
  {
    if xs == [] then w else Slide(Replay(w, xs[..|xs| - 1], cap), xs[|xs| - 1], cap)
  }

  /** A full window drops exactly its oldest entry and keeps the others in order. */
  lemma SlideFull<T>(s: seq<T>, x: T, cap: nat)
    requires |s| == cap >= 1
    ensures Slide(s, x, cap) == s[1..] + [x]
    ensures |Slide(s, x, cap)| == cap && Slide(s, x, cap)[cap - 1] == x
  {
  }

  /** Adding to the most recent entries gives the most recent entries of the longer history. */
  lemma SlideRecent<T>(h: seq<T>, x: T, cap: nat)
    ensures Slide(Recent(h, cap), x, cap) == Recent(h + [x], cap)
  {
    var h' := h + [x];
    if |h| + 1 > cap {
      assert Slide(Recent(h, cap), x, cap) == (Recent(h, cap) + [x])[1..];
      forall k | 0 <= k < cap ensures (Recent(h, cap) + [x])[1..][k] == h'[|h'| - cap + k] {
        if k < cap - 1 {
          assert (Recent(h, cap) + [x])[1..][k] == Recent(h, cap)[k + 1];
        }
      }
    }
  }

  /** FIFO eviction: whatever the additions, a window that started no larger than
      `cap` holds the last `cap` entries of its start followed by everything added. */
  lemma {:induction false} ReplayIsRecent<T>(w: seq<T>, xs: seq<T>, cap: nat)
    requires |w| <= cap
    ensures Replay(w, xs, cap) == Recent(w + xs, cap)
    decreases |xs|
  {
    if xs == [] {
      assert w + xs == w;
    } else {
      var init := xs[..|xs| - 1];
      ReplayIsRecent(w, init, cap);
      SlideRecent(w + init, xs[|xs| - 1], cap);
      assert w + init + [xs[|xs| - 1]] == w + xs;
    }
  }

  /** The contents of a freshly constructed window: `new Array(50)` has 50 holes, read as undefined. */
  function Holes(): (r: seq<JsValue>)
    ensures |r| == MaxLen
  {
    seq(MaxLen, _ => Undefined)
  }

  /** A device window never changes length, and once 50 readings have
      arrived it holds exactly the latest 50 of them, oldest first. */
  lemma DeviceWindowAfter(xs: seq<JsValue>)
    ensures |Replay(Holes(), xs, MaxLen)| == MaxLen
    ensures |xs| >= MaxLen ==> Replay(Holes(), xs, MaxLen) == xs[|xs| - MaxLen..]
    ensures xs != [] ==> Replay(Holes(), xs, MaxLen)[MaxLen - 1] == xs[|xs| - 1]
  {
    ReplayIsRecent(Holes(), xs, MaxLen);
    var h := Holes() + xs;
    if |xs| >= MaxLen {
      assert h[|h| - MaxLen..] == xs[|xs| - MaxLen..];
    }
  }

  // ---------------------------------------------------------- DeviceData

  /** The three columns of a device's window. */
  datatype Window = Window(times: seq<JsValue>, temperatures: seq<JsValue>, humidities: seq<JsValue>)

  /** What `addData` does to a window: temperature as given, a falsy humidity as null. */
  function Advance(w: Window, time: JsValue, temperature: JsValue, humidity: JsValue): Window
  {
    Window(Slide(w.times, time, MaxLen), Slide(w.temperatures, temperature, MaxLen),
           Slide(w.humidities, Or(humidity, Null), MaxLen))
  }

  /** One tracked device and its rolling window of readings. */
  class DeviceData {
    const deviceId: string
    const maxLen: nat
    var timeData: seq<JsValue>
    var temperatureData: seq<JsValue>
    var humidityData: seq<JsValue>

    /** The three columns have exactly `maxLen` = 50 entries each. */
    ghost predicate Valid()
      reads this
    {
      && maxLen == MaxLen
      && |timeData| == maxLen
      && |temperatureData| == maxLen
      && |humidityData| == maxLen
    }

    ghost function Columns(): Window
      reads this
    {
      Window(timeData, temperatureData, humidityData)
    }

    constructor (deviceId: string)
      ensures Valid()
      ensures this.deviceId == deviceId
      ensures Columns() == Window(Holes(), Holes(), Holes())
    {
      this.deviceId := deviceId;
      maxLen := MaxLen;
      timeData := Holes();
      temperatureData := Holes();
      humidityData := Holes();
    }

    method AddData(time: JsValue, temperature: JsValue, humidity: JsValue)
      requires Valid()
      modifies this
      ensures Valid()
      ensures Columns() == Advance(old(Columns()), time, temperature, humidity)
      ensures timeData == old(timeData)[1..] + [time]
      ensures temperatureData == old(temperatureData)[1..] + [temperature]
      ensures humidityData == old(humidityData)[1..] + [Or(humidity, Null)]
    {
      timeData := timeData + [time];
      temperatureData := temperatureData + [temperature];
      humidityData := humidityData + [Or(humidity, Null)];
      if |timeData| > maxLen {
        timeData := timeData[1..];
        temperatureData := temperatureData[1..];
        humidityData := humidityData[1..];
      }
    }
  }

  // ------------------------------------------------------ TrackedDevices

  function IdsOf(ds: seq<DeviceData>): (ids: seq<string>)
    ensures |ids| == |ds|
    ensures forall i :: 0 <= i < |ds| ==> ids[i] == ds[i].deviceId
  {
    seq(|ds|, i requires 0 <= i < |ds| => ds[i].deviceId)
  }

  predicate Distinct(ids: seq<string>)
  {
    forall i, j :: 0 <= i < j < |ids| ==> ids[i] != ids[j]
  }

  /** A list without repeats has as many entries as it has different values. */
  lemma {:induction false} DistinctCardinality(ids: seq<string>)
    requires Distinct(ids)
    ensures |set id | id in ids| == |ids|
    decreases |ids|
  {
    if ids != [] {
      var rest := ids[1..];
      DistinctCardinality(rest);
      assert (set id | id in ids) == {ids[0]} + (set id | id in rest);
      assert ids[0] !in rest;
    }
  }

  /** The devices that have sent telemetry, in order of first appearance. */
  class TrackedDevices {
    var devices: seq<DeviceData>

    /** Ids are pairwise distinct and every window is well formed. */
    ghost predicate Valid()
      reads this, devices
    {
      && Distinct(IdsOf(devices))
      && forall i :: 0 <= i < |devices| ==> devices[i].Valid()
    }

    constructor ()
      ensures Valid() && devices == []
    {
      devices := [];
    }

    /** `findDevice`: the first device with the given id, or null (undefined) when there is none. */
    method FindDevice(deviceId: string) returns (d: DeviceData?)
      ensures d == null <==> deviceId !in IdsOf(devices)
      ensures d != null ==> exists i :: 0 <= i < |devices| && devices[i] == d && d.deviceId == deviceId
                                        && deviceId !in IdsOf(devices)[..i]
    {
      var i := 0;
      while i < |devices|
        invariant 0 <= i <= |devices|
        invariant deviceId !in IdsOf(devices)[..i]
      {
        if devices[i].deviceId == deviceId {
          assert IdsOf(devices)[i] == deviceId;
          return devices[i];
        }
        assert IdsOf(devices)[..i + 1] == IdsOf(devices)[..i] + [devices[i].deviceId];
        i := i + 1;
      }
      assert IdsOf(devices)[..i] == IdsOf(devices);
      return null;
    }

    /** `getDevicesCount`: one per device, and so, ids being distinct, the number of different ids seen. */
    function DevicesCount(): (n: nat)
      reads this
      ensures n == |devices|
      ensures Distinct(IdsOf(devices)) ==> n == |set id | id in IdsOf(devices)|
    {
      assert Distinct(IdsOf(devices)) ==> |set id | id in IdsOf(devices)| == |devices| by {
        if Distinct(IdsOf(devices)) {
          DistinctCardinality(IdsOf(devices));
        }
      }
      |devices|
    }
  }

  // ----------------------------------------------------------- onMessage

  /** `messageData.IotData`; an absent reading is undefined. */
  datatype IotData = IotData(temperature: JsValue, humidity: JsValue)

  /** A parsed socket message; `IotData` may be missing altogether. */
  datatype Message = Message(DeviceId: string, MessageDate: JsValue, IotData: Option<IotData>)

  /** The message gets filed: it has a date and at least one reading. A message
      with a date but no `IotData` makes the guard throw; the handler's catch
      swallows that, so it is not filed either. */
  predicate Recorded(msg: Message)
  {
    && Truthy(msg.MessageDate)
    && msg.IotData.Some?
    && (Truthy(msg.IotData.value.temperature) || Truthy(msg.IotData.value.humidity))
  }

  /** What filing `msg` does to a device's window. */
  function Filed(w: Window, msg: Message): Window
    requires msg.IotData.Some?
  {
    Advance(w, msg.MessageDate, msg.IotData.value.temperature, msg.IotData.value.humidity)
  }

  /** The newest entry of a full window after filing a recorded message has
      its date, and a truthy temperature or a truthy humidity; its humidity is
      never a falsy value other than null. */
  lemma FiledEntryCarriesReading(w: Window, msg: Message)
    requires Recorded(msg)
    requires |w.times| == |w.temperatures| == |w.humidities| == MaxLen
    ensures var w' := Filed(w, msg);
      && |w'.times| == |w'.temperatures| == |w'.humidities| == MaxLen
      && w'.times[MaxLen - 1] == msg.MessageDate
      && (Truthy(w'.temperatures[MaxLen - 1]) || Truthy(w'.humidities[MaxLen - 1]))
      && (w'.humidities[MaxLen - 1] == Null || Truthy(w'.humidities[MaxLen - 1]))
  {
    var data := msg.IotData.value;
    SlideFull(w.times, msg.MessageDate, MaxLen);
    SlideFull(w.temperatures, data.temperature, MaxLen);
    SlideFull(w.humidities, Or(data.humidity, Null), MaxLen);
  }

  /** The page's state: the tracked devices, the auto-select flag and the
      device whose window the chart shows. The k-th entry of the device
      drop-down names the k-th tracked device, since both are appended together. */
  class Dashboard {
    const tracked: TrackedDevices
    var needsAutoSelect: bool
    var shown: DeviceData?

    /** Auto-select is pending exactly while no device has been seen; after
        that the chart shows one of the tracked devices. */
    ghost predicate Valid()
      reads this, tracked, tracked.devices
    {
      && tracked.Valid()
      && (needsAutoSelect <==> tracked.devices == [])
      && (needsAutoSelect ==> shown == null)
      && (!needsAutoSelect ==> shown != null && shown in tracked.devices)
    }

    constructor ()
      ensures Valid() && fresh(tracked)
      ensures tracked.devices == [] && needsAutoSelect && shown == null
    {
      tracked := new TrackedDevices();
      needsAutoSelect := true;
      shown := null;
    }

    /** `OnSelectionChange` with the drop-down at `index`: the chart shows that device. */
    method SelectionChanged(index: nat)
      requires tracked.Valid() && index < |tracked.devices|
      modifies this
      ensures shown == tracked.devices[index]
      ensures needsAutoSelect == old(needsAutoSelect)
    {
      var device := tracked.FindDevice(tracked.devices[index].deviceId);
      shown := device;
    }

    /** `webSocket.onmessage`: drop an incomplete reading, otherwise file it
        under its device, adding the device at the end when it is new and
        showing it when it is the first one. */
    method OnMessage(msg: Message)
      requires Valid()
      modifies this, tracked, tracked.devices
      ensures Valid()
      ensures !old(needsAutoSelect) ==> !needsAutoSelect
      ensures forall d | d in old(tracked.devices) && !(Recorded(msg) && d.deviceId == msg.DeviceId) :: unchanged(d)
      ensures !Recorded(msg) ==>
        tracked.devices == old(tracked.devices) && needsAutoSelect == old(needsAutoSelect) && shown == old(shown)
      ensures Recorded(msg) && msg.DeviceId in old(IdsOf(tracked.devices)) ==>
        && tracked.devices == old(tracked.devices)
        && needsAutoSelect == old(needsAutoSelect) && shown == old(shown)
        && forall d | d in tracked.devices && d.deviceId == msg.DeviceId :: d.Columns() == Filed(old(d.Columns()), msg)
      ensures Recorded(msg) && msg.DeviceId !in old(IdsOf(tracked.devices)) ==>
        && |tracked.devices| == |old(tracked.devices)| + 1
        && tracked.devices[..|old(tracked.devices)|] == old(tracked.devices)
        && var d := tracked.devices[|tracked.devices| - 1];
           && fresh(d) && d.deviceId == msg.DeviceId
           && d.Columns() == Filed(Window(Holes(), Holes(), Holes()), msg)
           && !needsAutoSelect
           && shown == if old(needsAutoSelect) then d else old(shown)
    {
      // time and either temperature or humidity are required
      if !Truthy(msg.MessageDate) {
        return;
      }
      if msg.IotData.None? {
        return;
      }
      var data := msg.IotData.value;
      if !Truthy(data.temperature) && !Truthy(data.humidity) {
        return;
      }

      var existing := tracked.FindDevice(msg.DeviceId);
      if existing != null {
        existing.AddData(msg.MessageDate, data.temperature, data.humidity);
        // distinct ids: the device found is the only one with this id
        assert forall d | d in tracked.devices && d.deviceId == msg.DeviceId :: d == existing;
      } else {
        AddDevice(msg.DeviceId, msg.MessageDate, data.temperature, data.humidity);
      }
    }

    /** The unknown-device branch of `onMessage`: append a new device, file
        its first reading, and auto-select it if it is the first device. */
    method AddDevice(deviceId: string, time: JsValue, temperature: JsValue, humidity: JsValue)
      requires Valid() && deviceId !in IdsOf(tracked.devices)
      modifies this, tracked
      ensures Valid()
      ensures |tracked.devices| == |old(tracked.devices)| + 1
      ensures tracked.devices[..|old(tracked.devices)|] == old(tracked.devices)
      ensures var d := tracked.devices[|tracked.devices| - 1];
        && fresh(d) && d.deviceId == deviceId
        && d.Columns() == Advance(Window(Holes(), Holes(), Holes()), time, temperature, humidity)
        && !needsAutoSelect
        && shown == if old(needsAutoSelect) then d else old(shown)
    {
      var d := new DeviceData(deviceId);
      ghost var before := tracked.devices;
      tracked.devices := tracked.devices + [d];
      assert tracked.devices[..|before|] == before;
      d.AddData(time, temperature, humidity);
      if needsAutoSelect {
        needsAutoSelect := false;
        SelectionChanged(0);
      }
    }
  }
}
