/** The MQTT bridge around the unit: the topic dispatch of inbound
    messages, the subscriptions, the four retained publications of a sensor
    update, and the scheduler of the main loop (queue drain and the
    `sensor_counter` countdown). */
module Bridge {
  import opened Registers
  import opened Faults
  import opened Modbus
  import opened TableRead
  import opened Views
  import opened SwegonUnit

  const SENSOR_FREQ: int := 15

  const TOPIC_FANSET: string := "swegon/fan/set"
  const TOPIC_TEMPSET: string := "swegon/temp/set"
  const TOPIC_RESET_ALARMS: string := "swegon/alarms/reset"
  const TOPIC_VACATION_MODE_SET: string := "swegon/vacation/set"

  const TOPIC_SETTINGS: string := "swegon/settings/sensor"
  const TOPIC_SENSORS: string := "swegon/sensors/sensor"
  const TOPIC_STATUS: string := "swegon/status/sensor"
  const TOPIC_ALARMS: string := "swegon/alarms/sensor"

  /** The topics `subscribe_topics` subscribes to, in order. */
  const SUBSCRIBED: seq<string> := [TOPIC_FANSET, TOPIC_TEMPSET, TOPIC_RESET_ALARMS]

  /** A queued message `[topic, payload]`. */
  datatype Message = Message(topic: string, payload: string)

  /** What `process_message` asks of the unit. */
  datatype Command = FanMode(mode: string) | Temperature(text: string) | AlarmReset | NoAction

  /** One `client.publish(topic, json.dumps(payload, sort_keys=...), retain=...)`. */
  datatype Publication = Publication(topic: string, payload: map<string, Value>, sortKeys: bool, retain: bool)

  // ---------------------------------------------------------------------
  // Dispatch and subscriptions
  // ---------------------------------------------------------------------

  /** The topic dispatch of `process_message`: exactly the three subscribed
      topics lead to an action, each with the payload as given. */
  function Dispatch(m: Message): (c: Command)
    ensures c.NoAction? <==> m.topic !in SUBSCRIBED
    ensures c.FanMode? <==> m.topic == TOPIC_FANSET
    ensures c.Temperature? <==> m.topic == TOPIC_TEMPSET
    ensures c.AlarmReset? <==> m.topic == TOPIC_RESET_ALARMS
    ensures c.FanMode? ==> c.mode == m.payload
    ensures c.Temperature? ==> c.text == m.payload
  {
    if m.topic == TOPIC_FANSET then FanMode(m.payload)
    else if m.topic == TOPIC_TEMPSET then Temperature(m.payload)
    else if m.topic == TOPIC_RESET_ALARMS then AlarmReset
    else NoAction
  }

  /** The vacation topic is neither subscribed nor acted on, and the
      subscribed topics are distinct. */
  lemma VacationIgnored(payload: string)
    ensures TOPIC_VACATION_MODE_SET !in SUBSCRIBED
    ensures Dispatch(Message(TOPIC_VACATION_MODE_SET, payload)) == NoAction
    ensures forall i, j :: 0 <= i < j < |SUBSCRIBED| ==> SUBSCRIBED[i] != SUBSCRIBED[j]
  {
    assert TOPIC_VACATION_MODE_SET[7] != TOPIC_FANSET[7];
    assert TOPIC_VACATION_MODE_SET[7] != TOPIC_TEMPSET[7];
    assert TOPIC_VACATION_MODE_SET[7] != TOPIC_RESET_ALARMS[7];
    assert TOPIC_FANSET[7] != TOPIC_TEMPSET[7] && TOPIC_FANSET[7] != TOPIC_RESET_ALARMS[7];
    assert TOPIC_TEMPSET[7] != TOPIC_RESET_ALARMS[7];
  }

  /** The four publications of `update_sensors`, in order: settings, status,
      sensors and alarms, all retained, the sensors map alone unsorted. */
  function Publications(v: ViewSet): (r: seq<Publication>)
    ensures |r| == 4
    ensures r[0].topic == TOPIC_SETTINGS && r[1].topic == TOPIC_STATUS
    ensures r[2].topic == TOPIC_SENSORS && r[3].topic == TOPIC_ALARMS
    ensures r[0].payload == v.settings && r[1].payload == v.status
    ensures r[2].payload == v.sensors && r[3].payload == v.alarms
    ensures forall i :: 0 <= i < 4 ==> r[i].retain && (r[i].sortKeys <==> r[i].topic != TOPIC_SENSORS)
  {
    [Publication(TOPIC_SETTINGS, v.settings, true, true),
     Publication(TOPIC_STATUS, v.status, true, true),
     Publication(TOPIC_SENSORS, v.sensors, false, true),
     Publication(TOPIC_ALARMS, v.alarms, true, true)]
  }

  /** The MQTT client as the bridge uses it: the topics it was asked to
      subscribe to and the messages it was asked to publish. */
  class Client {
    var subscriptions: seq<string>
    var published: seq<Publication>

    constructor ()
      ensures subscriptions == [] && published == []
    {
      subscriptions := [];
      published := [];
    }

    method Subscribe(topic: string)
      modifies this`subscriptions
      ensures subscriptions == old(subscriptions) + [topic]
    {
      subscriptions := subscriptions + [topic];
    }

    method Publish(p: Publication)
      modifies this`published
      ensures published == old(published) + [p]
    {
      published := published + [p];
    }
  }

  /** `subscribe_topics`. */
  method SubscribeTopics(client: Client)
    modifies client`subscriptions
    ensures client.subscriptions == old(client.subscriptions) + SUBSCRIBED
  {
    client.Subscribe(TOPIC_FANSET);
    client.Subscribe(TOPIC_TEMPSET);
    client.Subscribe(TOPIC_RESET_ALARMS);
  }

  // ---------------------------------------------------------------------
  // Effects of a message and of a sensor update
  // ---------------------------------------------------------------------

  /** `process_message`. `parse` stands for `round(float(payload))`, None
      where `float` raises. Only the unit's transport and debug output change. */
  method ProcessMessage(m: Message, unit: Swegon, parse: string -> Option<int>) returns (r: Result<()>)
    modifies unit.modbus`requests, unit`debugLog
    ensures m.topic == TOPIC_FANSET ==>
      && (r.Ok? <==> m.payload in FAN_MODES)
      && unit.modbus.requests == old(unit.modbus.requests) +
           (if r.Ok? then [WriteOne(FAN_MODE_REGISTER - 1, FanModeIndex(m.payload).value, 0, 6)] else [])
      && unit.debugLog == old(unit.debugLog)
    ensures m.topic == TOPIC_TEMPSET ==>
      && (r.Ok? <==> parse(m.payload).Some?)
      && unit.modbus.requests == old(unit.modbus.requests) +
           (if r.Ok? then [WriteOne(TEMPERATURE_SETPOINT_REGISTER - 1, parse(m.payload).value, 0, 6)] else [])
      && unit.debugLog == old(unit.debugLog)
    ensures m.topic == TOPIC_RESET_ALARMS ==>
      && r.Ok?
      && unit.modbus.requests == old(unit.modbus.requests)
      && unit.debugLog == old(unit.debugLog) + [Note("Clearing all alarms")]
    ensures m.topic !in SUBSCRIBED ==>
      r.Ok? && unit.modbus.requests == old(unit.modbus.requests) && unit.debugLog == old(unit.debugLog)
  {
    match Dispatch(m)
    case FanMode(mode) =>
      r := unit.SetFanMode(mode);
    case Temperature(text) =>
      if parse(text).None? {
        r := Err(ValueError(text));
      } else {
        unit.SetTemperature(parse(text).value);
        r := Ok(());
      }
    case AlarmReset =>
      unit.ResetAlarms();
      r := Ok(());
    case NoAction =>
      r := Ok(());
  }

  /** `update_sensors`: one poll of the unit, then its four maps are
      published; when the poll raises, nothing is published. */
  method UpdateSensors(client: Client, unit: Swegon, uptime: string) returns (r: Result<()>)
    requires unit.Valid()
    modifies client`published, unit`debugLog, unit.status, unit.sensors, unit.alarms, unit.settings,
             unit.modbus`requests
    ensures unit.Valid()
    ensures var t := old(unit.Contents());
      && WellFormed(t.status) && WellFormed(t.sensors) && WellFormed(t.alarms) && WellFormed(t.settings)
      && var rd := ReadAll(t, unit.modbus.image, unit.modbus.decoded, old(unit.debugLog));
         var p := ProcessAll(rd.tables, uptime);
         && unit.Contents() == p.tables
         && unit.debugLog == rd.log
         && unit.modbus.requests == old(unit.modbus.requests) + ReadAllRequests(t)
         && (r.Ok? <==> p.data.Ok?)
         && client.published == old(client.published) + (if p.data.Ok? then Publications(p.data.value) else [])
  {
    ghost var rd := ReadAll(unit.Contents(), unit.modbus.image, unit.modbus.decoded, unit.debugLog);
    ghost var p := ProcessAll(rd.tables, uptime);
    var data := unit.GetSwegonData(uptime);
    assert data == p.data;
    ghost var log, requests := unit.debugLog, unit.modbus.requests;
    assert log == rd.log;
    if data.Err? {
      return Err(data.fault);
    }
    Publish(client, data.value);
    assert unit.debugLog == log && unit.modbus.requests == requests;
    r := Ok(());
  }

  /** The four `client.publish` calls of `update_sensors`. */
  method Publish(client: Client, v: ViewSet)
    modifies client`published
    ensures client.published == old(client.published) + Publications(v)
  {
    client.Publish(Publication(TOPIC_SETTINGS, v.settings, true, true));
    client.Publish(Publication(TOPIC_STATUS, v.status, true, true));
    client.Publish(Publication(TOPIC_SENSORS, v.sensors, false, true));
    client.Publish(Publication(TOPIC_ALARMS, v.alarms, true, true));
  }

  // ---------------------------------------------------------------------
  // The scheduler of the main loop
  // ---------------------------------------------------------------------

  /** What one iteration does, in order: apply a message, or run a full
      sensor update. */
  datatype Event = Apply(message: Message) | Update

  /** The state after an iteration, with the events it produced. */
  datatype Tick = Tick(queue: seq<Message>, counter: int, events: seq<Event>)

  /** The drain of the queue: every message, oldest first, each applied and
      then followed by one update. */
  function DrainTrace(q: seq<Message>): (r: seq<Event>)
    ensures |r| == 2 * |q|
    ensures forall k :: 0 <= k < |q| ==> r[2 * k] == Apply(q[k]) && r[2 * k + 1] == Update
  {
    if q == [] then [] else DrainTrace(q[..|q| - 1]) + [Apply(q[|q| - 1]), Update]
  }

  /** One pass of the `while True` body; a disconnected client does nothing. */
  function Iteration(connected: bool, queue: seq<Message>, counter: int): (r: Tick)
    ensures !connected ==> r == Tick(queue, counter, [])
    ensures connected ==> r.queue == []
  {
    if !connected then Tick(queue, counter, [])
    else
      var c := (if queue != [] then 4 else counter) - 1;
      if c <= 0 then Tick([], SENSOR_FREQ, DrainTrace(queue) + [Update])
      else Tick([], c, DrainTrace(queue))
  }

  /** A connected iteration leaves the counter in [1, SENSOR_FREQ] when it
      started at most SENSOR_FREQ. */
  lemma IterationCounter(queue: seq<Message>, counter: int)
    requires counter <= SENSOR_FREQ
    ensures 1 <= Iteration(true, queue, counter).counter <= SENSOR_FREQ
  {
  }

  /** An iteration that processed messages ends with the counter at 3, and
      its only updates are the ones following each message. */
  lemma MessageIteration(queue: seq<Message>, counter: int)
    requires queue != []
    ensures Iteration(true, queue, counter) == Tick([], 3, DrainTrace(queue))
  {
  }

  /** From counter 0 the first iteration publishes, with or without messages. */
  lemma FirstIterationPublishes(queue: seq<Message>)
    ensures Update in Iteration(true, queue, 0).events
  {
    var r := Iteration(true, queue, 0);
    if queue != [] {
      assert r.events == DrainTrace(queue);
      assert r.events[2 * 0 + 1] == Update;
    } else {
      assert r.events == [Update];
    }
  }

  /** The updates of `n` idle, connected iterations from `counter`: entry k
      says whether iteration k runs the periodic update. */
  function IdleRun(counter: int, n: nat): (r: seq<bool>)
    ensures |r| == n
    ensures n > 0 ==> (r[0] <==> counter <= 1)
    decreases n
  {
    if n == 0 then []
    else
      var t := Iteration(true, [], counter);
      [t.events == [Update]] + IdleRun(t.counter, n - 1)
  }

  function Max1(c: int): int {
    if c < 1 then 1 else c
  }

  /** With an empty queue, the periodic update first comes at iteration
      counter - 1 (at once for a counter of 1 or less) and then every
      SENSOR_FREQ iterations. */
  lemma {:induction false} IdlePeriod(counter: int, n: nat, k: nat)
    requires counter <= SENSOR_FREQ && k < n
    ensures IdleRun(counter, n)[k] <==> k >= Max1(counter) - 1 && (k - Max1(counter) + 1) % SENSOR_FREQ == 0
    decreases k
  {
    var t := Iteration(true, [], counter);
    if k == 0 {
      assert IdleRun(counter, n)[0] == (t.events == [Update]);
    } else {
      IdlePeriod(t.counter, n - 1, k - 1);
      assert IdleRun(counter, n)[k] == IdleRun(t.counter, n - 1)[k - 1];
      if counter <= 1 {
        assert t.counter == SENSOR_FREQ;
        PeriodWraps(k);
      } else {
        assert t.counter == counter - 1;
        var a := k - Max1(counter) + 1;
        assert (k - 1) - Max1(t.counter) + 1 == a;
      }
    }
  }

  /** k is a positive multiple of 15 exactly when k - 15 is a nonnegative one. */
  lemma PeriodWraps(k: int)
    requires k > 0
    ensures k % SENSOR_FREQ == 0 <==> k >= SENSOR_FREQ && (k - SENSOR_FREQ) % SENSOR_FREQ == 0
  {
    if k < SENSOR_FREQ {
      assert k % SENSOR_FREQ == k;
    } else {
      assert (k - SENSOR_FREQ) % SENSOR_FREQ == k % SENSOR_FREQ;
    }
  }

  /** After an iteration with messages, the next periodic update comes three
      idle iterations later; from the start, idle iterations publish exactly
      at iterations 0, 15, 30, ... */
  lemma UpdateSchedule(n: nat, k: nat)
    requires k < n
    ensures IdleRun(3, n)[k] <==> k >= 2 && (k - 2) % SENSOR_FREQ == 0
    ensures IdleRun(0, n)[k] <==> k % SENSOR_FREQ == 0
  {
    IdlePeriod(3, n, k);
    IdlePeriod(0, n, k);
  }

  /** The state after the first |arrivals| iterations, starting from an
      empty queue and counter 0; `arrivals[k]` are the messages queued
      before iteration k and `connected[k]` the connection flag then. */
  function Run(arrivals: seq<seq<Message>>, connected: seq<bool>): (r: Tick)
    requires |arrivals| == |connected|
    ensures (forall k :: 0 <= k < |connected| ==> !connected[k]) ==> r == Tick(Concat(arrivals), 0, [])
  {
    if arrivals == [] then Tick([], 0, [])
    else
      var n := |arrivals| - 1;
      var p := Run(arrivals[..n], connected[..n]);
      var t := Iteration(connected[n], p.queue + arrivals[n], p.counter);
      Tick(t.queue, t.counter, p.events + t.events)
  }

  function Concat(s: seq<seq<Message>>): seq<Message> {
    if s == [] then [] else Concat(s[..|s| - 1]) + s[|s| - 1]
  }

  /** The messages applied in a trace, in order. */
  function Applied(events: seq<Event>): seq<Message> {
    if events == [] then []
    else Applied(events[..|events| - 1]) + if events[|events| - 1].Apply? then [events[|events| - 1].message] else []
  }

  /** Every applied message is followed at once by an update. */
  predicate Answered(events: seq<Event>) {
    forall i :: 0 <= i < |events| && events[i].Apply? ==> i + 1 < |events| && events[i + 1] == Update
  }

  lemma {:induction false} AppliedConcat(a: seq<Event>, b: seq<Event>)
    ensures Applied(a + b) == Applied(a) + Applied(b)
    decreases |b|
  {
    if b != [] {
      var n := |b| - 1;
      assert (a + b)[..|a + b| - 1] == a + b[..n];
      AppliedConcat(a, b[..n]);
    } else {
      assert a + b == a;
    }
  }

  lemma {:induction false} AppliedDrain(q: seq<Message>)
    ensures Applied(DrainTrace(q)) == q
    ensures Answered(DrainTrace(q))
  {
    var d := DrainTrace(q);
    if q != [] {
      var n := |q| - 1;
      AppliedDrain(q[..n]);
      AppliedConcat(DrainTrace(q[..n]), [Apply(q[n]), Update]);
      assert Applied([Apply(q[n]), Update]) == [q[n]] by {
        var x := [Apply(q[n]), Update];
        assert x[..1] == [Apply(q[n])];
        assert [Apply(q[n])][..0] == [];
        assert Applied([Apply(q[n])]) == Applied([]) + [q[n]];
        assert Applied(x) == Applied(x[..1]) + [];
      }
      assert q[..n] + [q[n]] == q;
    }
    forall i | 0 <= i < |d| && d[i].Apply? ensures i + 1 < |d| && d[i + 1] == Update {
      assert d[2 * (i / 2)] == Apply(q[i / 2]) && d[2 * (i / 2) + 1] == Update;
    }
  }

  lemma {:induction false} AnsweredConcat(a: seq<Event>, b: seq<Event>)
    requires Answered(a) && Answered(b)
    requires a != [] ==> a[|a| - 1] == Update
    ensures Answered(a + b)
  {
    var c := a + b;
    forall i | 0 <= i < |c| && c[i].Apply? ensures i + 1 < |c| && c[i + 1] == Update {
      if i < |a| {
        assert c[i] == a[i];
        assert i + 1 < |a|;
      } else {
        assert c[i] == b[i - |a|];
      }
    }
  }

  /** One iteration applies the whole queue in order, or none of it when
      disconnected, and answers every applied message; its trace ends with
      an update unless it is empty. */
  lemma IterationOrder(connected: bool, queue: seq<Message>, counter: int)
    ensures var t := Iteration(connected, queue, counter);
      && Applied(t.events) + t.queue == queue
      && Answered(t.events)
      && (t.events != [] ==> t.events[|t.events| - 1] == Update)
  {
    var t := Iteration(connected, queue, counter);
    if connected {
      var d := DrainTrace(queue);
      AppliedDrain(queue);
      if t.events != d {
        assert t.events == d + [Update];
        AppliedConcat(d, [Update]);
        assert Applied([Update]) == Applied([]) + [] by {
          assert [Update][..0] == [];
        }
        AnsweredConcat(d, [Update]);
      }
      if queue != [] {
        assert d[2 * (|queue| - 1) + 1] == Update;
      }
    }
  }

  /** Run, unfolded at iteration k. */
  lemma RunStep(arrivals: seq<seq<Message>>, connected: seq<bool>, k: nat)
    requires |arrivals| == |connected| && k < |arrivals|
    ensures var p := Run(arrivals[..k], connected[..k]);
      var t := Iteration(connected[k], p.queue + arrivals[k], p.counter);
      Run(arrivals[..k + 1], connected[..k + 1]) == Tick(t.queue, t.counter, p.events + t.events)
  {
    assert arrivals[..k + 1][..k] == arrivals[..k] && connected[..k + 1][..k] == connected[..k];
  }

  /** No message is lost or reordered: the applied messages followed by the
      ones still queued are all arrivals in order. */
  lemma {:induction false} RunOrder(arrivals: seq<seq<Message>>, connected: seq<bool>)
    requires |arrivals| == |connected|
    ensures Applied(Run(arrivals, connected).events) + Run(arrivals, connected).queue == Concat(arrivals)
  {
    if arrivals != [] {
      var n := |arrivals| - 1;
      var p := Run(arrivals[..n], connected[..n]);
      RunOrder(arrivals[..n], connected[..n]);
      var q := p.queue + arrivals[n];
      var t := Iteration(connected[n], q, p.counter);
      RunStep(arrivals, connected, n);
      assert arrivals[..n + 1] == arrivals && connected[..n + 1] == connected;
      IterationOrder(connected[n], q, p.counter);
      AppliedConcat(p.events, t.events);
      ConcatStep(arrivals);
      OrderStep(Applied(p.events), p.queue, Concat(arrivals[..n]), arrivals[n], Applied(t.events), t.queue);
    }
  }

  /** The last arrival batch splits off the end of `Concat`. */
  lemma ConcatStep(s: seq<seq<Message>>)
    requires s != []
    ensures Concat(s) == Concat(s[..|s| - 1]) + s[|s| - 1]
  {
  }

  /** Regrouping of the concatenations in one step of `RunOrder`. */
  lemma OrderStep(applied: seq<Message>, queued: seq<Message>, before: seq<Message>, arrived: seq<Message>,
                  applied2: seq<Message>, queued2: seq<Message>)
    requires applied + queued == before && applied2 + queued2 == queued + arrived
    ensures applied + applied2 + queued2 == before + arrived
  {
    calc {
      applied + applied2 + queued2;
      applied + (applied2 + queued2);
      applied + (queued + arrived);
      applied + queued + arrived;
    }
  }

  /** Every applied message is answered by an update, and every nonempty
      trace ends with one. */
  lemma {:induction false} RunAnswered(arrivals: seq<seq<Message>>, connected: seq<bool>)
    requires |arrivals| == |connected|
    ensures var e := Run(arrivals, connected).events;
      Answered(e) && (e != [] ==> e[|e| - 1] == Update)
  {
    if arrivals != [] {
      var n := |arrivals| - 1;
      var p := Run(arrivals[..n], connected[..n]);
      RunAnswered(arrivals[..n], connected[..n]);
      var t := Iteration(connected[n], p.queue + arrivals[n], p.counter);
      RunStep(arrivals, connected, n);
      assert arrivals[..n + 1] == arrivals && connected[..n + 1] == connected;
      IterationOrder(connected[n], p.queue + arrivals[n], p.counter);
      AnsweredConcat(p.events, t.events);
    }
  }

  /** The counter stays 0 until the first connected iteration and lies in
      [1, SENSOR_FREQ] at the end of every iteration after it. */
  lemma {:induction false} RunCounter(arrivals: seq<seq<Message>>, connected: seq<bool>)
    requires |arrivals| == |connected|
    ensures var r := Run(arrivals, connected);
      && (r.counter == 0 || 1 <= r.counter <= SENSOR_FREQ)
      && (true in connected <==> 1 <= r.counter <= SENSOR_FREQ)
  {
    if arrivals != [] {
      var n := |arrivals| - 1;
      RunCounter(arrivals[..n], connected[..n]);
      RunStep(arrivals, connected, n);
      assert arrivals[..n + 1] == arrivals && connected[..n + 1] == connected;
      assert connected == connected[..n] + [connected[n]];
      assert true in connected <==> true in connected[..n] || connected[n];
    }
  }

  /** The main loop over `|arrivals|` iterations. Before iteration k the
      messages `arrivals[k]` are queued; the iteration runs only when
      `connected[k]` holds. */
  method MainLoop(arrivals: seq<seq<Message>>, connected: seq<bool>) returns (events: seq<Event>, counter: int)
    requires |arrivals| == |connected|
    ensures counter == 0 || 1 <= counter <= SENSOR_FREQ
    ensures true in connected ==> 1 <= counter <= SENSOR_FREQ
    ensures events == Run(arrivals, connected).events && counter == Run(arrivals, connected).counter
  {
    var queue: seq<Message> := [];
    counter := 0;
    events := [];
    for k := 0 to |arrivals|
      invariant Tick(queue, counter, events) == Run(arrivals[..k], connected[..k])
      invariant counter == 0 || 1 <= counter <= SENSOR_FREQ
      invariant true in connected[..k] ==> 1 <= counter <= SENSOR_FREQ
    {
      RunStep(arrivals, connected, k);
      queue := queue + arrivals[k];
      if connected[k] {
        queue, events, counter := Drain(queue, events, counter);
        counter := counter - 1;
        if counter <= 0 {
          events := events + [Update];
          counter := SENSOR_FREQ;
        }
      }
      assert connected[..k + 1] == connected[..k] + [connected[k]];
    }
    assert arrivals[..|arrivals|] == arrivals && connected[..|connected|] == connected;
  }

  /** The inner `while not q.empty()` loop of the main loop. */
  method Drain(queue0: seq<Message>, events0: seq<Event>, counter0: int)
    returns (queue: seq<Message>, events: seq<Event>, counter: int)
    ensures queue == [] && events == events0 + DrainTrace(queue0)
    ensures counter == if queue0 == [] then counter0 else 4
  {
    queue, events, counter := queue0, events0, counter0;
    ghost var d := 0;
    while queue != []
      invariant 0 <= d <= |queue0| && queue == queue0[d..]
      invariant events == events0 + DrainTrace(queue0[..d])
      invariant counter == if d == 0 then counter0 else 4
    {
      var message := queue[0];
      queue := queue[1..];
      events := events + [Apply(message), Update];
      counter := 4;
      assert queue0[..d + 1][..d] == queue0[..d];
      d := d + 1;
    }
    assert queue0[..d] == queue0;
  }
}
