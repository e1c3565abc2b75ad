/** The coordinator's copy of the gateway's cameras, kept up to date over the event stream. */
module Replica {
  import opened Bytes
  import opened EventStream
  import Gateway
  import StationOperations

  type Cameras = map<string, Gateway.Camera>

  // What the gateway says

  /** `event.type`. */
  function TopicOf(event: Gateway.Event): (topic: string)
    ensures Plain(topic)
  {
    match event
    case CameraUpdated(_) => "camera-updated"
    case StationUpdated(_, _) => "station-updated"
    case Detected(_, _) => "detection"
    case SnapshotUpdated(_, _) => "snapshot-updated"
    case ConnectionUpdated(_, _) => "connection-updated"
  }

  function ObjectOf(event: Gateway.Event): Object {
    var typed := map["type" := Text(TopicOf(event))];
    match event
    case CameraUpdated(camera) => typed["camera" := CameraValue(camera)]
    case StationUpdated(serial, station) => typed["station" := StationValue(serial, station)]
    case Detected(serial, detection) => typed["cameraSerial" := Text(serial)]["detection" := DetectionValue(detection)]
    case SnapshotUpdated(serial, snapshot) =>
      typed["cameraSerial" := Text(serial)]["snapshot" := SnapshotValue(snapshot)]
    case ConnectionUpdated(connection, detail) =>
      typed["state" := Text(connection)]["detail" := if detail.Some? then Text(detail.value) else Null]
  }

  /** What each event says on the wire. */
  lemma ObjectsOnTheWire()
    ensures forall camera :: ObjectOf(Gateway.CameraUpdated(camera)) ==
                             map["type" := Text("camera-updated"), "camera" := CameraValue(camera)]
    ensures forall serial, station :: ObjectOf(Gateway.StationUpdated(serial, station)) ==
                                      map["type" := Text("station-updated"), "station" := StationValue(serial, station)]
    ensures forall serial, detection :: ObjectOf(Gateway.Detected(serial, detection)) ==
                                        map["type" := Text("detection"), "cameraSerial" := Text(serial),
                                            "detection" := DetectionValue(detection)]
    ensures forall serial, snapshot :: ObjectOf(Gateway.SnapshotUpdated(serial, snapshot)) ==
                                       map["type" := Text("snapshot-updated"), "cameraSerial" := Text(serial),
                                           "snapshot" := SnapshotValue(snapshot)]
    ensures forall connection, detail :: ObjectOf(Gateway.ConnectionUpdated(connection, detail)) ==
                                         map["type" := Text("connection-updated"), "state" := Text(connection),
                                             "detail" := if detail == None then Null else Text(detail.value)]
  {
  }

  function Objects(events: seq<Gateway.Event>): (objects: seq<Object>)
    ensures |objects| == |events|
    ensures forall i :: 0 <= i < |events| ==> objects[i] == ObjectOf(events[i])
  {
    seq(|events|, i requires 0 <= i < |events| => ObjectOf(events[i]))
  }

  /** The first message of a connection: all cameras, in the order the gateway holds them. */
  function ReadyObject(order: seq<string>, cameras: Cameras): Object
    requires Orders(order, cameras)
  {
    map["cameras" := List(seq(|order|, i requires 0 <= i < |order| => CameraValue(cameras[order[i]])))]
  }

  /** The first message lists each camera of the order, in the order, under one key. */
  lemma ReadyOnTheWire(order: seq<string>, cameras: Cameras)
    requires Orders(order, cameras)
    ensures var ready := ReadyObject(order, cameras);
            && ready.Keys == {"cameras"} && ready["cameras"].List? && |ready["cameras"].items| == |order|
            && forall i :: 0 <= i < |order| ==> ready["cameras"].items[i] == CameraValue(cameras[order[i]])
  {
  }

  predicate Orders(order: seq<string>, cameras: Cameras) {
    && (forall i :: 0 <= i < |order| ==> order[i] in cameras)
    && forall serial :: serial in cameras ==> serial in order
  }

  lemma MessageText(json: Json, topic: string, content: Object)
    ensures PartText(json, Message(topic, content)) ==
            "event: " + topic + "\ndata: " + json.stringify(content) + "\n\n"
  {
  }

  /** One open response of `#events`: a listener and a heartbeat that write to it until the request closes. */
  class EventResponse {
    const json: Json
    var written: string
    var listening: bool
    var beating: bool
    /** History: what has been written, and of which events. */
    ghost var parts: seq<Part>
    ghost var first: Object
    ghost var seen: seq<Gateway.Event>

    ghost predicate Valid()
      reads this
    {
      && written == TextOf(json, parts)
      && PlainTopics(parts)
      && Messages(parts) == [first] + Objects(seen)
      && listening == beating
    }

    constructor (json: Json, order: seq<string>, cameras: Cameras)
      requires Orders(order, cameras)
      ensures Valid() && this.json == json && listening
      ensures first == ReadyObject(order, cameras) && seen == []
      ensures written == "event: ready\ndata: " + json.stringify(ReadyObject(order, cameras)) + "\n\n"
    {
      hide Messages, TextOf;
      this.json := json;
      var content := ReadyObject(order, cameras);
      written := "event: ready" + "\n" + "data: " + json.stringify(content) + "\n" + "\n";
      listening, beating := true, true;
      parts, first, seen := [Message("ready", content)], content, [];
      new;
      OnePart(json, Message("ready", content));
      assert "event: " + "ready" == "event: ready";
      assert [content] + Objects([]) == [content];
    }

    method Write(text: string, ghost part: Part)
      requires written == TextOf(json, parts) && text == PartText(json, part)
      modifies this`written, this`parts
      ensures written == TextOf(json, parts) && parts == old(parts) + [part]
      ensures written == old(written) + text
    {
      hide PartText, TextOf;
      TextConcat(json, parts, [part]);
      OnePart(json, part);
      written := written + text;
      parts := parts + [part];
    }

    method OnEvent(event: Gateway.Event)
      requires Valid() && listening
      modifies this`written, this`parts, this`seen
      ensures Valid() && seen == old(seen) + [event]
      ensures written == old(written) +
                         "event: " + TopicOf(event) + "\ndata: " + json.stringify(ObjectOf(event)) + "\n\n"
    {
      hide TextOf, Messages, PartText, TopicOf, ObjectOf;
      var part := Message(TopicOf(event), ObjectOf(event));
      MessagesConcat(parts, [part]);
      OnePart(json, part);
      MessageText(json, TopicOf(event), ObjectOf(event));
      var text := "event: " + TopicOf(event) + "\ndata: " + json.stringify(ObjectOf(event)) + "\n\n";
      Write(text, part);
      assert written == old(written) + text;
      seen := seen + [event];
      assert [first] + Objects(seen) == [first] + Objects(old(seen)) + [ObjectOf(event)];
    }

    method OnHeartbeat()
      requires Valid() && beating
      modifies this`written, this`parts
      ensures Valid()
      ensures written == old(written) + ": heartbeat\n\n"
    {
      hide TextOf, Messages;
      MessagesConcat(parts, [Heartbeat]);
      OnePart(json, Heartbeat);
      Write(": heartbeat" + "\n" + "\n", Heartbeat);
      assert Messages(parts) == [first] + Objects(seen);
    }

    method OnClose()
      requires Valid()
      modifies this`listening, this`beating
      ensures Valid() && !listening && !beating
    {
      beating := false;
      listening := false;
    }
  }

  lemma OnePart(json: Json, part: Part)
    ensures TextOf(json, [part]) == PartText(json, part)
    ensures Messages([part]) == if part.Message? then [part.content] else []
  {
    hide PartText;
    assert [part][1..] == [];
    assert TextOf(json, [part][1..]) == "";
  }

  // What the coordinator does

  datatype Data = Data(cameras: map<string, Value>, stations: map<string, Value>)

  /** The serial of an object that has one and has it as a string. */
  function SerialOf(value: Value): Option<string> {
    match value
    case CameraValue(camera) => Some(camera.identity.serial)
    case StationValue(serial, _) => Some(serial)
    case _ => None
  }

  /** The values that have serials, under them; of two with the same the later one stays. */
  function BySerial(values: seq<Value>): map<string, Value> {
    if values == [] then map[]
    else
      var before, last := BySerial(values[..|values| - 1]), values[|values| - 1];
      if SerialOf(last).Some? then before[SerialOf(last).value := last] else before
  }

  /** `values[i]` is the last of the values with this serial. */
  ghost predicate IsLast(values: seq<Value>, i: nat, serial: string) {
    && i < |values| && SerialOf(values[i]) == Some(serial)
    && forall j :: i < j < |values| ==> SerialOf(values[j]) != Some(serial)
  }

  /** Of the values with a serial the last one is held under it, and nothing else is held. */
  lemma {:induction false} BySerialMeans(values: seq<Value>, serial: string)
    ensures serial in BySerial(values) <==> exists i: nat :: IsLast(values, i, serial)
    ensures forall i: nat :: IsLast(values, i, serial) ==>
              serial in BySerial(values) && BySerial(values)[serial] == values[i]
  {
    hide SerialOf;
    if values == [] {
    } else {
      var last := |values| - 1;
      var before := values[..last];
      BySerialMeans(before, serial);
      forall i: nat | i < last && SerialOf(values[last]) != Some(serial)
        ensures IsLast(before, i, serial) <==> IsLast(values, i, serial)
      {
      }
      if SerialOf(values[last]) == Some(serial) {
        assert IsLast(values, last, serial);
      }
      forall i: nat | IsLast(values, i, serial)
        ensures serial in BySerial(values) && BySerial(values)[serial] == values[i]
      {
        if i < last {
          assert IsLast(before, i, serial);
        }
      }
      if serial in BySerial(values) && SerialOf(values[last]) != Some(serial) {
        var i: nat :| IsLast(before, i, serial);
        assert IsLast(values, i, serial);
      }
    }
  }

  function ListUnder(event: Object, name: string): Option<seq<Value>> {
    if name in event && event[name].List? then Some(event[name].items) else None
  }

  function SerialUnder(event: Object, name: string): Option<string> {
    if name in event then SerialOf(event[name]) else None
  }

  function SetStation(d: Data, station: Value): Data {
    if SerialOf(station).None? then d else d.(stations := d.stations[SerialOf(station).value := station])
  }

  function ApplyEvent(d: Data, event: Object): Data {
    var cameras := ListUnder(event, "cameras");
    var d1 := if cameras.Some? then d.(cameras := BySerial(cameras.value)) else d;
    var stations := ListUnder(event, "stations");
    var d2 := if stations.Some? then d1.(stations := BySerial(stations.value)) else d1;
    var serial := SerialUnder(event, "camera");
    var d3 := if serial.Some? then d2.(cameras := d2.cameras[serial.value := event["camera"]]) else d2;
    if SerialUnder(event, "station").Some? then SetStation(d3, event["station"]) else d3
  }

  function ApplyAll(d: Data, objects: seq<Object>): Data {
    if objects == [] then d else ApplyEvent(ApplyAll(d, objects[..|objects| - 1]), objects[|objects| - 1])
  }

  /** The coordinator; its data is missing until the first refresh. */
  class Coordinator {
    var data: Option<Data>

    function View(): Data
      reads this
    {
      if data.Some? then data.value else Data(map[], map[])
    }

    method AsyncSetStation(station: Value)
      modifies this
      ensures View() == SetStation(old(View()), station)
      ensures data.Some? || data == old(data)
      ensures View().cameras == old(View()).cameras
      ensures View().stations == if SerialOf(station).None? then old(View()).stations
                                 else old(View()).stations[SerialOf(station).value := station]
    {
      var serial := SerialOf(station);
      if serial.None? {
        return;
      }
      data := Some(Data(View().cameras, View().stations[serial.value := station]));
    }

    method OnObject(event: Object)
      modifies this
      ensures View() == ApplyEvent(old(View()), event)
      ensures data.Some? || data == old(data)
      ensures View().cameras ==
              var kept := if "cameras" in event && event["cameras"].List? then BySerial(event["cameras"].items)
                          else old(View()).cameras;
              if "camera" in event && SerialOf(event["camera"]).Some?
              then kept[SerialOf(event["camera"]).value := event["camera"]] else kept
      ensures View().stations ==
              var kept := if "stations" in event && event["stations"].List? then BySerial(event["stations"].items)
                          else old(View()).stations;
              if "station" in event && SerialOf(event["station"]).Some?
              then kept[SerialOf(event["station"]).value := event["station"]] else kept
    {
      hide BySerial;
      var cameras := ListUnder(event, "cameras");
      if cameras.Some? {
        data := Some(Data(BySerial(cameras.value), View().stations));
      }
      var stations := ListUnder(event, "stations");
      if stations.Some? {
        data := Some(Data(View().cameras, BySerial(stations.value)));
      }
      var serial := SerialUnder(event, "camera");
      if serial.Some? {
        data := Some(Data(View().cameras[serial.value := event["camera"]], View().stations));
      }
      if SerialUnder(event, "station").Some? {
        AsyncSetStation(event["station"]);
      }
    }

    /** The body of `_listen_forever` for one connection. */
    method Listen(json: Json, body: string)
      modifies this
      ensures View() == ApplyAll(old(View()), Decode(json, body))
    {
      hide ApplyEvent;
      var objects := Events(json, Lines(body));
      for i := 0 to |objects|
        invariant View() == ApplyAll(old(View()), objects[..i])
      {
        OnObject(objects[i]);
        assert objects[..i + 1][..i] == objects[..i];
      }
      assert objects[..|objects|] == objects;
    }
  }

  // Agreement

  /** The gateway's cameras as the coordinator holds them. */
  function Shown(cameras: Cameras): map<string, Value> {
    map serial | serial in cameras :: CameraValue(cameras[serial])
  }

  /** Stations as the `station-updated` events give them. */
  function StationsAfter(stations: map<string, Value>, events: seq<Gateway.Event>): map<string, Value> {
    if events == [] then stations
    else
      var before, last := StationsAfter(stations, events[..|events| - 1]), events[|events| - 1];
      if last.StationUpdated? then before[last.serial := StationValue(last.serial, last.station)] else before
  }

  lemma ShowsUpdate(cameras: Cameras, camera: Gateway.Camera)
    ensures Shown(cameras[camera.identity.serial := camera]) ==
            Shown(cameras)[camera.identity.serial := CameraValue(camera)]
  {
  }

  /** One event does to the coordinator's data what it does to the gateway's. */
  lemma EventReplays(d: Data, cameras: Cameras, event: Gateway.Event)
    requires d.cameras == Shown(cameras)
    ensures var d' := ApplyEvent(d, ObjectOf(event));
            && d'.cameras == Shown(Gateway.Replay(cameras, [event]))
            && d'.stations == StationsAfter(d.stations, [event])
  {
    hide Shown, BySerial, TopicOf;
    var none: seq<Gateway.Event> := [];
    assert [event][..0] == none;
    assert Gateway.Replay(cameras, none) == cameras && StationsAfter(d.stations, none) == d.stations;
    if event.CameraUpdated? {
      ShowsUpdate(cameras, event.camera);
    }
  }

  lemma {:induction false} EventsReplay(d: Data, cameras: Cameras, events: seq<Gateway.Event>)
    requires d.cameras == Shown(cameras)
    ensures var d' := ApplyAll(d, Objects(events));
            && d'.cameras == Shown(Gateway.Replay(cameras, events))
            && d'.stations == StationsAfter(d.stations, events)
  {
    hide Shown, ApplyEvent, ObjectOf;
    if events == [] {
    } else {
      var before, last := events[..|events| - 1], events[|events| - 1];
      EventsReplay(d, cameras, before);
      assert Objects(events)[..|events| - 1] == Objects(before);
      EventReplays(ApplyAll(d, Objects(before)), Gateway.Replay(cameras, before), last);
      assert [last][..0] == [];
      assert before + [last] == events;
      Gateway.ReplayConcat(cameras, before, [last]);
    }
  }

  /** The cameras listed in any order, under their serials. */
  lemma {:induction false} ListedBySerial(order: seq<string>, cameras: Cameras, values: seq<Value>)
    requires Gateway.KeyedBySerial(cameras) && |values| == |order|
    requires forall i :: 0 <= i < |order| ==> order[i] in cameras && values[i] == CameraValue(cameras[order[i]])
    ensures forall serial :: serial in BySerial(values) <==> serial in order
    ensures forall serial :: serial in BySerial(values) ==>
              serial in cameras && BySerial(values)[serial] == CameraValue(cameras[serial])
  {
    if order == [] {
    } else {
      var last := |order| - 1;
      ListedBySerial(order[..last], cameras, values[..last]);
      assert order == order[..last] + [order[last]];
    }
  }

  /** The first message replaces whatever the coordinator had by what the gateway has. */
  lemma ReadyReplaces(d: Data, order: seq<string>, cameras: Cameras)
    requires Gateway.KeyedBySerial(cameras) && Orders(order, cameras)
    ensures ApplyEvent(d, ReadyObject(order, cameras)) == Data(Shown(cameras), d.stations)
  {
    var ready := ReadyObject(order, cameras);
    ListedBySerial(order, cameras, ready["cameras"].items);
    hide BySerial;
    assert BySerial(ready["cameras"].items) == Shown(cameras);
  }

  lemma {:induction false} ApplyAllConcat(d: Data, a: seq<Object>, b: seq<Object>)
    ensures ApplyAll(d, a + b) == ApplyAll(ApplyAll(d, a), b)
  {
    hide ApplyEvent;
    if b == [] {
      assert a + b == a;
    } else {
      assert (a + b)[..|a + b| - 1] == a + b[..|b| - 1];
      ApplyAllConcat(d, a, b[..|b| - 1]);
    }
  }

  /** A connection's messages up to any point, folded into any data. */
  lemma ConnectionReplays(d: Data, order: seq<string>, cameras: Cameras, events: seq<Gateway.Event>)
    requires Gateway.KeyedBySerial(cameras) && Orders(order, cameras)
    ensures ApplyAll(d, [ReadyObject(order, cameras)] + Objects(events)) ==
            Data(Shown(Gateway.Replay(cameras, events)), StationsAfter(d.stations, events))
  {
    hide Shown, ApplyEvent, ReadyObject;
    var ready := ReadyObject(order, cameras);
    ApplyAllConcat(d, [ready], Objects(events));
    assert [ready][..0] == [];
    assert ApplyAll(d, [ready]) == ApplyEvent(d, ready);
    ReadyReplaces(d, order, cameras);
    EventsReplay(ApplyEvent(d, ready), cameras, events);
  }

  /**
   * Replica agreement: for every run `steps` before a connection and every
   * run `more` after it, with heartbeats anywhere between the messages, a
   * coordinator that reads the connection's text from any starting data ends
   * with exactly the gateway's cameras.
   */
  lemma ReplicaAgrees(json: Json, hold: nat, steps: seq<Gateway.Step>, more: seq<Gateway.Step>,
                      order: seq<string>, parts: seq<Part>, d: Data)
    requires Sound(json) && PlainTopics(parts)
    requires var cameras := Gateway.Run(hold, steps).cameras;
             && Orders(order, cameras)
             && Messages(parts) == [ReadyObject(order, cameras)] + Objects(EventsSince(hold, steps, more))
    ensures ApplyAll(d, Decode(json, TextOf(json, parts))).cameras == Shown(Gateway.Run(hold, steps + more).cameras)
  {
    hide Gateway.Run, Shown, ReadyObject;
    var s := Gateway.Run(hold, steps);
    Gateway.RunIsKeyed(hold, steps);
    Gateway.EventsCarryTheState(hold, steps, more);
    ClientRecoversEvents(json, parts);
    ConnectionReplays(d, order, s.cameras, EventsSince(hold, steps, more));
  }

  /** What a run emits after its first `steps`. */
  function EventsSince(hold: nat, steps: seq<Gateway.Step>, more: seq<Gateway.Step>): seq<Gateway.Event> {
    EventsGrow(hold, steps, more);
    Gateway.Run(hold, steps + more).events[|Gateway.Run(hold, steps).events|..]
  }

  lemma EventsGrow(hold: nat, steps: seq<Gateway.Step>, more: seq<Gateway.Step>)
    ensures Gateway.Run(hold, steps).events <= Gateway.Run(hold, steps + more).events
  {
    hide *;
    Gateway.EventsCarryTheState(hold, steps, more);
  }

  /**
   * A connection that breaks after any character leaves the coordinator
   * either untouched or with the cameras as some number of the gateway's
   * events had made them, never with a mixture.
   */
  lemma {:induction false} BrokenReplicaIsAPastState(
    json: Json, order: seq<string>, cameras: Cameras, events: seq<Gateway.Event>, parts: seq<Part>, d: Data, k: nat)
    returns (arrived: nat)
    requires Sound(json) && PlainTopics(parts) && k <= |TextOf(json, parts)|
    requires Gateway.KeyedBySerial(cameras) && Orders(order, cameras)
    requires Messages(parts) == [ReadyObject(order, cameras)] + Objects(events)
    ensures arrived <= |events| + 1
    ensures ApplyAll(d, Decode(json, TextOf(json, parts)[..k])) ==
            if arrived == 0 then d
            else
              var seen := events[..arrived - 1];
              Data(Shown(Gateway.Replay(cameras, seen)), StationsAfter(d.stations, seen))
    ensures k == |TextOf(json, parts)| ==> arrived == |events| + 1
  {
    hide Shown, ReadyObject, TextOf, Decode, ApplyEvent;
    BrokenConnectionYieldsWholeParts(json, parts, k);
    var got := Decode(json, TextOf(json, parts)[..k]);
    arrived := |got|;
    if k == |TextOf(json, parts)| {
      ClientRecoversEvents(json, parts);
      assert TextOf(json, parts)[..k] == TextOf(json, parts);
    }
    if arrived == 0 {
    } else {
      assert got == Messages(parts)[..arrived] == [ReadyObject(order, cameras)] + Objects(events[..arrived - 1]);
      ConnectionReplays(d, order, cameras, events[..arrived - 1]);
    }
  }

  /**
   * From the gateway's response object to the coordinator: what the response
   * has written makes any data agree with the cameras listed at its start and
   * changed by the events it has seen.
   */
  lemma ResponseReplicates(r: EventResponse, order: seq<string>, cameras: Cameras, d: Data)
    requires r.Valid() && Sound(r.json)
    requires Gateway.KeyedBySerial(cameras) && Orders(order, cameras) && r.first == ReadyObject(order, cameras)
    ensures ApplyAll(d, Decode(r.json, r.written)) ==
            Data(Shown(Gateway.Replay(cameras, r.seen)), StationsAfter(d.stations, r.seen))
  {
    hide Shown, ReadyObject, TextOf, Decode;
    ClientRecoversEvents(r.json, r.parts);
    ConnectionReplays(d, order, cameras, r.seen);
  }
}
