/** The `Swegon` unit object: the four register tables it updates in place,
    the debug output, the transport it talks to, and the poll that reads
    every table and turns it into the four published maps. */
module SwegonUnit {
  import opened Registers
  import opened Faults
  import opened Modbus
  import opened TableRead
  import opened Views

  /** The contents of the four tables, in the order `_process_data` returns them. */
  datatype Tables = Tables(status: seq<Entry>, sensors: seq<Entry>, alarms: seq<Entry>, settings: seq<Entry>)

  /** Every table keeps the rows of its catalogue table up to the two value columns. */
  predicate Catalogue(t: Tables) {
    && SameLayout(t.status, DEFAULT_UNIT_STATUS)
    && SameLayout(t.sensors, DEFAULT_SENSORS)
    && SameLayout(t.alarms, DEFAULT_ALARMS)
    && SameLayout(t.settings, DEFAULT_SETTINGS)
  }

  /** The tables a new unit starts from. */
  const CATALOGUE: Tables := Tables(DEFAULT_UNIT_STATUS, DEFAULT_SENSORS, DEFAULT_ALARMS, DEFAULT_SETTINGS)

  lemma CatalogueLayout()
    ensures Catalogue(CATALOGUE)
  {
    SameLayoutReflexive(DEFAULT_UNIT_STATUS);
    SameLayoutReflexive(DEFAULT_SENSORS);
    SameLayoutReflexive(DEFAULT_ALARMS);
    SameLayoutReflexive(DEFAULT_SETTINGS);
  }

  lemma SameLayoutReflexive(t: seq<Entry>)
    ensures SameLayout(t, t)
  {
  }

  /** A table with a catalogue layout shares the catalogue table's read plan
      and uniqueness. */
  lemma LayoutWellFormed(t: seq<Entry>, d: seq<Entry>)
    requires SameLayout(t, d) && WellFormed(d)
    ensures WellFormed(t) && Span(t) == Span(d) && UsesBatch(t) == UsesBatch(d)
    ensures t[0].register == d[0].register && t[0].functionCode == d[0].functionCode
    ensures UniqueRegisters(d) ==> UniqueRegisters(t)
    ensures UniqueNames(d) ==> UniqueNames(t)
  {
  }

  lemma ReadingsOnlyLayout(a: seq<Entry>, b: seq<Entry>, d: seq<Entry>)
    requires ReadingsOnly(a, b) && SameLayout(a, d)
    ensures SameLayout(b, d)
  {
    forall i | 0 <= i < |b| ensures b[i].register == d[i].register && b[i].functionCode == d[i].functionCode
      && b[i].name == d[i].name && b[i].decimals == d[i].decimals
    {
      assert b[i] == a[i].(lastReading := b[i].lastReading);
    }
  }

  lemma CommittedLayout(a: seq<Entry>, d: seq<Entry>)
    requires SameLayout(a, d)
    ensures SameLayout(Committed(a), d)
  {
    var c := Committed(a);
    forall i | 0 <= i < |c| ensures c[i].register == d[i].register && c[i].functionCode == d[i].functionCode
      && c[i].name == d[i].name && c[i].decimals == d[i].decimals
    {
      assert c[i].(current := a[i].current) == a[i];
    }
  }

  // ---------------------------------------------------------------------
  // The poll `get_swegon_data` as functions of the state before it
  // ---------------------------------------------------------------------

  datatype Reading = Reading(tables: Tables, log: seq<Debug>)

  /** The four `_read` calls in the order status, sensors, alarms, settings. */
  function ReadAll(t: Tables, image: (int, int) -> Word, decoded: (int, int, nat) -> Number,
                   log: seq<Debug>): (r: Reading)
    requires WellFormed(t.status) && WellFormed(t.sensors) && WellFormed(t.alarms) && WellFormed(t.settings)
    ensures log <= r.log
    ensures |r.tables.status| == |t.status| && |r.tables.sensors| == |t.sensors|
    ensures |r.tables.alarms| == |t.alarms| && |r.tables.settings| == |t.settings|
  {
    var st := ReadTable(t.status, image, decoded, log);
    var se := ReadTable(t.sensors, image, decoded, st.log);
    var al := ReadTable(t.alarms, image, decoded, se.log);
    var sg := ReadTable(t.settings, image, decoded, al.log);
    Reading(Tables(st.table, se.table, al.table, sg.table), sg.log)
  }

  /** Regrouping of four appended request lists. */
  lemma AppendFour<T>(p: seq<T>, a: seq<T>, b: seq<T>, c: seq<T>, d: seq<T>)
    ensures p + a + b + c + d == p + (a + b + c + d)
  {
  }

  /** The requests of the four reads, in order. */
  function ReadAllRequests(t: Tables): (r: seq<Request>)
    requires WellFormed(t.status) && WellFormed(t.sensors) && WellFormed(t.alarms) && WellFormed(t.settings)
    ensures forall k :: 0 <= k < |r| ==> !r[k].WriteOne?
  {
    TableRequests(t.status) + TableRequests(t.sensors) + TableRequests(t.alarms) + TableRequests(t.settings)
  }

  /** The poll only sets last readings and only appends to the debug output,
      so the catalogue layout survives it. */
  lemma ReadAllFrame(t: Tables, image: (int, int) -> Word, decoded: (int, int, nat) -> Number, log: seq<Debug>)
    requires Catalogue(t)
    ensures WellFormed(t.status) && WellFormed(t.sensors) && WellFormed(t.alarms) && WellFormed(t.settings)
    ensures var r := ReadAll(t, image, decoded, log);
      && Catalogue(r.tables)
      && ReadingsOnly(t.status, r.tables.status) && ReadingsOnly(t.sensors, r.tables.sensors)
      && ReadingsOnly(t.alarms, r.tables.alarms) && ReadingsOnly(t.settings, r.tables.settings)
      && log <= r.log
  {
    CatalogTablesAreBatched();
    LayoutWellFormed(t.status, DEFAULT_UNIT_STATUS);
    LayoutWellFormed(t.sensors, DEFAULT_SENSORS);
    LayoutWellFormed(t.alarms, DEFAULT_ALARMS);
    LayoutWellFormed(t.settings, DEFAULT_SETTINGS);
    var st := ReadTable(t.status, image, decoded, log);
    var se := ReadTable(t.sensors, image, decoded, st.log);
    var al := ReadTable(t.alarms, image, decoded, se.log);
    var sg := ReadTable(t.settings, image, decoded, al.log);
    ReadTableFrame(t.status, image, decoded, log);
    ReadTableFrame(t.sensors, image, decoded, st.log);
    ReadTableFrame(t.alarms, image, decoded, se.log);
    ReadTableFrame(t.settings, image, decoded, al.log);
    ReadingsOnlyLayout(t.status, st.table, DEFAULT_UNIT_STATUS);
    ReadingsOnlyLayout(t.sensors, se.table, DEFAULT_SENSORS);
    ReadingsOnlyLayout(t.alarms, al.table, DEFAULT_ALARMS);
    ReadingsOnlyLayout(t.settings, sg.table, DEFAULT_SETTINGS);
  }

  /** The part of `ReadAllFrame` the unit's own poll needs: the layout. */
  lemma ReadAllLayout(t: Tables, image: (int, int) -> Word, decoded: (int, int, nat) -> Number, log: seq<Debug>)
    requires Catalogue(t)
    ensures WellFormed(t.status) && WellFormed(t.sensors) && WellFormed(t.alarms) && WellFormed(t.settings)
    ensures Catalogue(ReadAll(t, image, decoded, log).tables)
  {
    ReadAllFrame(t, image, decoded, log);
  }

  /** On catalogue tables the poll sends exactly four block reads: one word
      at wire 5000 (status), fourteen from 6200 (sensors), one at 6131
      (alarms) and one at 5100 (settings). */
  lemma CatalogueRequests(t: Tables)
    requires Catalogue(t)
    ensures WellFormed(t.status) && WellFormed(t.sensors) && WellFormed(t.alarms) && WellFormed(t.settings)
    ensures ReadAllRequests(t) == [ReadBlock(5000, 1, 3), ReadBlock(6200, 14, 4), ReadBlock(6131, 1, 4),
                                   ReadBlock(5100, 1, 3)]
  {
    CatalogTablesAreBatched();
    LayoutWellFormed(t.status, DEFAULT_UNIT_STATUS);
    LayoutWellFormed(t.sensors, DEFAULT_SENSORS);
    LayoutWellFormed(t.alarms, DEFAULT_ALARMS);
    LayoutWellFormed(t.settings, DEFAULT_SETTINGS);
  }

  datatype Processed = Processed(tables: Tables, data: Result<ViewSet>)

  /** `_process_data`: settings and status are committed and projected; on
      success sensors and alarms are committed too, and a failing `Mode`
      lookup ends the call before they are. */
  function ProcessAll(t: Tables, uptime: string): (r: Processed)
    ensures r.data.Ok? <==> StatusView(Committed(t.status), uptime).Ok?
    ensures r.tables.settings == Committed(t.settings) && r.tables.status == Committed(t.status)
    ensures r.data.Ok? ==> r.tables.sensors == Committed(t.sensors) && r.tables.alarms == Committed(t.alarms)
    ensures r.data.Err? ==> r.tables.sensors == t.sensors && r.tables.alarms == t.alarms
    ensures r.data.Ok? ==>
      r.data.value == ViewSet(TableView(r.tables.settings), StatusView(r.tables.status, uptime).value,
                              TableView(r.tables.sensors), AlarmsView(r.tables.alarms))
  {
    match StatusView(Committed(t.status), uptime)
    case Err(f) => Processed(Tables(Committed(t.status), t.sensors, t.alarms, Committed(t.settings)), Err(f))
    case Ok(status) =>
      var c := Tables(Committed(t.status), Committed(t.sensors), Committed(t.alarms), Committed(t.settings));
      Processed(c, Ok(ViewSet(TableView(c.settings), status, TableView(c.sensors), AlarmsView(c.alarms))))
  }

  /** A read of a table with the sensors' layout leaves every row with the
      device word at its wire address, decoded for its decimals, as its last
      reading. */
  lemma SensorsReadWords(t: seq<Entry>, image: (int, int) -> Word, decoded: (int, int, nat) -> Number,
                         log: seq<Debug>)
    requires SameLayout(t, DEFAULT_SENSORS)
    ensures WellFormed(t)
    ensures var r := ReadTable(t, image, decoded, log).table;
      && SameLayout(r, DEFAULT_SENSORS)
      && forall i :: 0 <= i < |t| ==>
           var v := Decode(image(4, DEFAULT_SENSORS[i].register - 1), DEFAULT_SENSORS[i].decimals);
           && r[i].lastReading.Real() == v.Real()
           && (r[i].lastReading == v || r[i].lastReading == t[i].lastReading)
  {
    CatalogTablesAreBatched();
    LayoutWellFormed(t, DEFAULT_SENSORS);
    ReadTableFrame(t, image, decoded, log);
    ReadingsOnlyLayout(t, ReadTable(t, image, decoded, log).table, DEFAULT_SENSORS);
    var words := BatchWords(t, image);
    BatchReadEffect(t, log, t[0].register, words);
    var r := ReadTable(t, image, decoded, log).table;
    forall i | 0 <= i < |t|
      ensures var v := Decode(image(4, DEFAULT_SENSORS[i].register - 1), DEFAULT_SENSORS[i].decimals);
        r[i].lastReading.Real() == v.Real() && (r[i].lastReading == v || r[i].lastReading == t[i].lastReading)
    {
      assert t[i].register == 6201 + i;
      assert words[i] == image(4, 6200 + i);
    }
  }

  /** The sensors map of committed rows with the sensors' layout binds every
      sensor name, and only those, to the row's last reading. */
  lemma SensorsView(t: seq<Entry>)
    requires SameLayout(t, DEFAULT_SENSORS)
    ensures TableView(Committed(t)).Keys == (set i | 0 <= i < |DEFAULT_SENSORS| :: DEFAULT_SENSORS[i].name)
    ensures forall i :: 0 <= i < |t| ==> TableView(Committed(t))[DEFAULT_SENSORS[i].name] == Num(t[i].lastReading)
  {
    var c := Committed(t);
    CatalogTablesAreBatched();
    CommittedLayout(t, DEFAULT_SENSORS);
    LayoutWellFormed(c, DEFAULT_SENSORS);
    UniqueNamesView(c);
    assert (set i | 0 <= i < |c| :: c[i].name) == set i | 0 <= i < |DEFAULT_SENSORS| :: DEFAULT_SENSORS[i].name;
  }

  /** After a successful poll of catalogue tables, every sensor is published
      under its own name with the value of the device word at its wire
      address, decoded for its decimals. */
  lemma PollPublishesSensorWords(t: Tables, image: (int, int) -> Word, decoded: (int, int, nat) -> Number,
                                 log: seq<Debug>, uptime: string)
    requires Catalogue(t)
    ensures WellFormed(t.status) && WellFormed(t.sensors) && WellFormed(t.alarms) && WellFormed(t.settings)
    ensures var p := ProcessAll(ReadAll(t, image, decoded, log).tables, uptime);
      p.data.Ok? ==>
        && p.data.value.sensors.Keys == (set i | 0 <= i < |DEFAULT_SENSORS| :: DEFAULT_SENSORS[i].name)
        && forall i :: 0 <= i < |DEFAULT_SENSORS| ==>
             var n := p.data.value.sensors[DEFAULT_SENSORS[i].name];
             n.Num? && n.n.Real() == Decode(image(4, DEFAULT_SENSORS[i].register - 1), DEFAULT_SENSORS[i].decimals).Real()
  {
    ReadAllFrame(t, image, decoded, log);
    var st := ReadTable(t.status, image, decoded, log);
    var rd := ReadAll(t, image, decoded, log).tables;
    assert rd.sensors == ReadTable(t.sensors, image, decoded, st.log).table;
    SensorsReadWords(t.sensors, image, decoded, st.log);
    SensorsPublished(rd, image, uptime);
  }

  /** Sensors holding the decoded device words are published with those
      values under their own names. */
  lemma SensorsPublished(t: Tables, image: (int, int) -> Word, uptime: string)
    requires SameLayout(t.sensors, DEFAULT_SENSORS)
    requires forall i :: 0 <= i < |t.sensors| ==>
      t.sensors[i].lastReading.Real() == Decode(image(4, DEFAULT_SENSORS[i].register - 1), DEFAULT_SENSORS[i].decimals).Real()
    ensures var p := ProcessAll(t, uptime);
      p.data.Ok? ==>
        && p.data.value.sensors.Keys == (set i | 0 <= i < |DEFAULT_SENSORS| :: DEFAULT_SENSORS[i].name)
        && forall i :: 0 <= i < |DEFAULT_SENSORS| ==>
             var n := p.data.value.sensors[DEFAULT_SENSORS[i].name];
             n.Num? && n.n.Real() == Decode(image(4, DEFAULT_SENSORS[i].register - 1), DEFAULT_SENSORS[i].decimals).Real()
  {
    SensorsView(t.sensors);
  }

  // ---------------------------------------------------------------------
  // The unit object
  // ---------------------------------------------------------------------

  class Swegon {
    const status: array<Entry>
    const sensors: array<Entry>
    const alarms: array<Entry>
    const settings: array<Entry>
    /** Every call of the debug function, oldest first. */
    var debugLog: seq<Debug>
    const modbus: Instrument

    /** The four tables are distinct arrays holding catalogue layouts. */
    ghost predicate Valid()
      reads this, status, sensors, alarms, settings
    {
      && status != sensors && status != alarms && status != settings
      && sensors != alarms && sensors != settings && alarms != settings
      && Catalogue(Contents())
    }

    function Contents(): Tables
      reads this, status, sensors, alarms, settings
    {
      Tables(status[..], sensors[..], alarms[..], settings[..])
    }

    /** `__init__`: the catalogue tables, then the first poll. */
    constructor (modbus: Instrument, uptime: string)
      modifies modbus`requests
      ensures Valid() && fresh(status) && fresh(sensors) && fresh(alarms) && fresh(settings)
      ensures this.modbus == modbus
      ensures var init := CATALOGUE;
        && WellFormed(init.status) && WellFormed(init.sensors) && WellFormed(init.alarms) && WellFormed(init.settings)
        && var r := ReadAll(init, modbus.image, modbus.decoded, []);
           && Contents() == ProcessAll(r.tables, uptime).tables
           && debugLog == r.log
           && modbus.requests == old(modbus.requests) + ReadAllRequests(init)
    {
      status := new Entry[1](i requires 0 <= i < 1 => DEFAULT_UNIT_STATUS[i]);
      sensors := new Entry[14](i requires 0 <= i < 14 => DEFAULT_SENSORS[i]);
      alarms := new Entry[1](i requires 0 <= i < 1 => DEFAULT_ALARMS[i]);
      settings := new Entry[1](i requires 0 <= i < 1 => DEFAULT_SETTINGS[i]);
      debugLog := [];
      this.modbus := modbus;
      new;
      assert status[..] == DEFAULT_UNIT_STATUS;
      assert sensors[..] == DEFAULT_SENSORS;
      assert alarms[..] == DEFAULT_ALARMS;
      assert settings[..] == DEFAULT_SETTINGS;
      assert Contents() == CATALOGUE;
      CatalogueLayout();
      var _ := GetSwegonData(uptime);
    }

    // -------------------------------------------------------------------
    // Transport wrappers
    // -------------------------------------------------------------------

    /** `_write_register`: the catalogue address is sent as wire address
        `register - 1`, with function code 6. */
    method WriteRegister(register: int, value: int, decimals: nat)
      modifies modbus`requests
      ensures modbus.requests == old(modbus.requests) + [WriteOne(register - 1, value, decimals, 6)]
    {
      modbus.WriteRegister(register - 1, value, decimals, 6);
    }

    /** `_read_register`. */
    method ReadRegister(register: int, functionCode: int, decimals: nat) returns (value: Number)
      modifies modbus`requests
      ensures value == modbus.decoded(register - 1, functionCode, decimals)
      ensures modbus.requests == old(modbus.requests) + [ReadOne(register - 1, decimals, functionCode)]
    {
      value := modbus.ReadRegister(register - 1, decimals, functionCode);
    }

    /** `_read_registers`. */
    method ReadRegisters(base: int, functionCode: int, length: nat) returns (words: seq<Word>)
      modifies modbus`requests
      ensures words == Block(modbus.image, functionCode, base - 1, length)
      ensures modbus.requests == old(modbus.requests) + [ReadBlock(base - 1, length, functionCode)]
    {
      words := modbus.ReadRegisters(base - 1, length, functionCode);
    }

    // -------------------------------------------------------------------
    // Setters
    // -------------------------------------------------------------------

    /** `set_fan_mode`: the label's index is written to the fan-mode
        register; a label not in FAN_MODES raises ValueError before any write. */
    method SetFanMode(mode: string) returns (r: Result<()>)
      modifies modbus`requests
      ensures r.Ok? <==> mode in FAN_MODES
      ensures r.Ok? ==> modbus.requests == old(modbus.requests) + [WriteOne(FAN_MODE_REGISTER - 1, FanModeIndex(mode).value, 0, 6)]
      ensures r.Ok? ==> FAN_MODES[FanModeIndex(mode).value] == mode
      ensures r.Err? ==> r.fault.ValueError? && modbus.requests == old(modbus.requests)
    {
      match FanModeIndex(mode)
      case Err(f) =>
        r := Err(f);
      case Ok(value) =>
        WriteRegister(FAN_MODE_REGISTER, value, 0);
        r := Ok(());
    }

    /** `set_temperature` for an already rounded target. */
    method SetTemperature(target: int)
      modifies modbus`requests
      ensures modbus.requests == old(modbus.requests) + [WriteOne(TEMPERATURE_SETPOINT_REGISTER - 1, target, 0, 6)]
    {
      WriteRegister(TEMPERATURE_SETPOINT_REGISTER, target, 0);
    }

    /** `reset_alarms`: a debug line and nothing else. */
    method ResetAlarms()
      modifies this`debugLog
      ensures debugLog == old(debugLog) + [Note("Clearing all alarms")]
    {
      debugLog := debugLog + [Note("Clearing all alarms")];
    }

    // -------------------------------------------------------------------
    // Reading
    // -------------------------------------------------------------------

    /** `get_swegon_data`: the four reads, then the post-processing. */
    method GetSwegonData(uptime: string) returns (r: Result<ViewSet>)
      requires Valid()
      modifies this`debugLog, status, sensors, alarms, settings, modbus`requests
      ensures Valid()
      ensures var t := old(Contents());
        && WellFormed(t.status) && WellFormed(t.sensors) && WellFormed(t.alarms) && WellFormed(t.settings)
        && var rd := ReadAll(t, modbus.image, modbus.decoded, old(debugLog));
           && Contents() == ProcessAll(rd.tables, uptime).tables
           && r == ProcessAll(rd.tables, uptime).data
           && debugLog == rd.log
           && modbus.requests == old(modbus.requests) + ReadAllRequests(t)
    {
      ghost var t, log := Contents(), debugLog;
      ReadTables();
      ghost var rd := ReadAll(t, modbus.image, modbus.decoded, log);
      ghost var requests := modbus.requests;
      assert Contents() == rd.tables && debugLog == rd.log;
      r := ProcessData(uptime);
      assert debugLog == rd.log && modbus.requests == requests;
    }

    /** The body of the read loop of `get_swegon_data`: `_read` of status,
        sensors, alarms and settings, in that order. */
    method ReadTables()
      requires Valid()
      modifies this`debugLog, status, sensors, alarms, settings, modbus`requests
      ensures Valid()
      ensures var t := old(Contents());
        && WellFormed(t.status) && WellFormed(t.sensors) && WellFormed(t.alarms) && WellFormed(t.settings)
        && var rd := ReadAll(t, modbus.image, modbus.decoded, old(debugLog));
           && Contents() == rd.tables
           && debugLog == rd.log
           && modbus.requests == old(modbus.requests) + ReadAllRequests(t)
    {
      ghost var t := Contents();
      ghost var log, sent := debugLog, modbus.requests;
      ghost var image, decoded := modbus.image, modbus.decoded;
      ReadAllLayout(t, image, decoded, log);
      ghost var rd := ReadAll(t, image, decoded, log);
      assert Catalogue(rd.tables);
      ghost var st := ReadTable(t.status, image, decoded, log);
      ghost var se := ReadTable(t.sensors, image, decoded, st.log);
      ghost var al := ReadTable(t.alarms, image, decoded, se.log);
      ghost var sg := ReadTable(t.settings, image, decoded, al.log);
      assert rd == Reading(Tables(st.table, se.table, al.table, sg.table), sg.log);
      Read(status);
      assert status[..] == st.table && debugLog == st.log;
      assert sensors[..] == t.sensors;
      Read(sensors);
      assert sensors[..] == se.table && debugLog == se.log;
      assert alarms[..] == t.alarms && status[..] == st.table;
      Read(alarms);
      assert alarms[..] == al.table && debugLog == al.log;
      assert settings[..] == t.settings && status[..] == st.table && sensors[..] == se.table;
      Read(settings);
      assert modbus.image == image && modbus.decoded == decoded;
      assert status[..] == st.table && sensors[..] == se.table && alarms[..] == al.table;
      assert Contents() == rd.tables;
      AppendFour(sent, TableRequests(t.status), TableRequests(t.sensors), TableRequests(t.alarms),
                 TableRequests(t.settings));
    }

    /** `_read(table)`: one batched read of the table's span when the span
        does not exceed the row count, one read per row otherwise. */
    method Read(table: array<Entry>)
      requires WellFormed(table[..])
      modifies table, modbus`requests, this`debugLog
      ensures Scan(table[..], debugLog) == ReadTable(old(table[..]), modbus.image, modbus.decoded, old(debugLog))
      ensures modbus.requests == old(modbus.requests) + TableRequests(old(table[..]))
    {
      var base := table[0].register;
      var endRegister := table[table.Length - 1].register;
      var functionCode := table[0].functionCode;
      var length := endRegister - base + 1;

      if length > table.Length {
        ReadEach(table);
        return;
      }
      ReadBatch(table, base, functionCode, length);
    }

    /** The batched path of `_read`: the words of registers base ..
        base + length - 1, each scanned against every row. */
    method ReadBatch(table: array<Entry>, base: int, functionCode: int, length: nat)
      modifies table, modbus`requests, this`debugLog
      ensures Scan(table[..], debugLog) ==
              ScanWords(Scan(old(table[..]), old(debugLog)), base, Block(modbus.image, functionCode, base - 1, length), 0)
      ensures modbus.requests == old(modbus.requests) + [ReadBlock(base - 1, length, functionCode)]
    {
      ghost var t0, log0 := table[..], debugLog;
      var data := ReadRegisters(base, functionCode, length);
      for offset := 0 to |data|
        invariant ScanWords(Scan(table[..], debugLog), base, data, offset) == ScanWords(Scan(t0, log0), base, data, 0)
        invariant modbus.requests == old(modbus.requests) + [ReadBlock(base - 1, length, functionCode)]
      {
        ScanWord(table, base + offset, Int(UnsignedToSigned(data[offset])));
      }
    }

    /** The per-register path of `_read`. */
    method ReadEach(table: array<Entry>)
      modifies table, modbus`requests
      ensures table[..] == SingleReads(old(table[..]), modbus.decoded)
      ensures modbus.requests == old(modbus.requests) + SingleRequests(old(table[..]))
    {
      ghost var t0 := table[..];
      ghost var decoded := modbus.decoded;
      ghost var sent: seq<Request> := [];
      for i := 0 to table.Length
        invariant modbus.decoded == decoded
        invariant forall j :: 0 <= j < i ==>
          table[j] == t0[j].(lastReading := decoded(t0[j].register - 1, t0[j].functionCode, t0[j].decimals))
        invariant forall j :: i <= j < table.Length ==> table[j] == t0[j]
        invariant |sent| == i
        invariant forall j :: 0 <= j < i ==> sent[j] == ReadOne(t0[j].register - 1, t0[j].decimals, t0[j].functionCode)
        invariant modbus.requests == old(modbus.requests) + sent
      {
        ReadRow(table, i);
        sent := sent + [ReadOne(t0[i].register - 1, t0[i].decimals, t0[i].functionCode)];
      }
      SingleReadsPointwise(t0, table[..], decoded);
      SingleRequestsPointwise(t0, sent);
    }

    /** One `read_register` of the per-register path. */
    method ReadRow(table: array<Entry>, i: nat)
      requires i < table.Length
      modifies table, modbus`requests
      ensures modbus.decoded == old(modbus.decoded)
      ensures var e := old(table[i]);
        && table[..] == old(table[..])[i := e.(lastReading := modbus.decoded(e.register - 1, e.functionCode, e.decimals))]
        && modbus.requests == old(modbus.requests) + [ReadOne(e.register - 1, e.decimals, e.functionCode)]
    {
      var e := table[i];
      var v := ReadRegister(e.register, e.functionCode, e.decimals);
      table[i] := e.(lastReading := v);
    }

    /** The inner loop of the batched path of `_read`, for one word. */
    method ScanWord(table: array<Entry>, register: int, value0: Number)
      modifies table, this`debugLog
      ensures Scan(table[..], debugLog) == ScanEntries(Scan(old(table[..]), old(debugLog)), 0, register, value0)
    {
      var value := value0;
      for j := 0 to table.Length
        invariant ScanEntries(Scan(table[..], debugLog), j, register, value) ==
                  ScanEntries(Scan(old(table[..]), old(debugLog)), 0, register, value0)
      {
        var e := table[j];
        if e.register == register {
          if e.decimals > 0 {
            value := Float(RoundTo(value.Real() / Pow10(e.decimals) as real, e.decimals));
          }
          if e.lastReading.Real() != value.Real() {
            ghost var rows := table[..];
            table[j] := e.(lastReading := value);
            assert table[..] == rows[j := e.(lastReading := value)];
            debugLog := debugLog + [ReadChanged(e.name, value)];
          }
        }
      }
    }

    // -------------------------------------------------------------------
    // Post-processing
    // -------------------------------------------------------------------

    /** `_process_data`. */
    method ProcessData(uptime: string) returns (r: Result<ViewSet>)
      requires Valid()
      modifies status, sensors, alarms, settings
      ensures Valid()
      ensures Contents() == ProcessAll(old(Contents()), uptime).tables
      ensures r == ProcessAll(old(Contents()), uptime).data
    {
      ghost var t := Contents();
      var settingsData := ProcessSettings();
      var statusData := ProcessStatus(uptime);
      if statusData.Err? {
        r := Err(statusData.fault);
      } else {
        var sensorsData := ProcessSensors();
        var alarmsData := ProcessAlarms();
        r := Ok(ViewSet(settingsData, statusData.value, sensorsData, alarmsData));
      }
      CommittedLayout(t.status, DEFAULT_UNIT_STATUS);
      CommittedLayout(t.settings, DEFAULT_SETTINGS);
      CommittedLayout(t.sensors, DEFAULT_SENSORS);
      CommittedLayout(t.alarms, DEFAULT_ALARMS);
    }

    /** `_process_settings`. */
    method ProcessSettings() returns (data: map<string, Value>)
      modifies settings
      ensures settings[..] == Committed(old(settings[..]))
      ensures data == TableView(settings[..])
    {
      RegisterNewMeasurements(settings);
      data := ConvertRawTable(settings);
    }

    /** `_process_status`: the table map plus the `Mode` label and the uptime,
        or the exception of the label lookup. */
    method ProcessStatus(uptime: string) returns (r: Result<map<string, Value>>)
      modifies status
      ensures status[..] == Committed(old(status[..]))
      ensures r == StatusView(status[..], uptime)
    {
      RegisterNewMeasurements(status);
      var data := ConvertRawTable(status);
      if "Operating Mode" !in data {
        return Err(KeyError("Operating Mode"));
      }
      var mode := FanModeAt(data["Operating Mode"]);
      if mode.Err? {
        return Err(mode.fault);
      }
      data := data["Mode" := Text(mode.value)];
      data := data["Controller uptime" := Text(uptime)];
      r := Ok(data);
    }

    /** `_process_alarms`. */
    method ProcessAlarms() returns (data: map<string, Value>)
      modifies alarms
      ensures alarms[..] == Committed(old(alarms[..]))
      ensures data == AlarmsView(alarms[..])
    {
      RegisterNewMeasurements(alarms);
      data := ConvertRawTable(alarms);
      var summary := GetAlarmsString();
      data := data["Alarms" := Text(summary)];
    }

    /** `_process_sensors`: its own loop, with the same result as the table map. */
    method ProcessSensors() returns (data: map<string, Value>)
      modifies sensors
      ensures sensors[..] == Committed(old(sensors[..]))
      ensures data == TableView(sensors[..])
    {
      RegisterNewMeasurements(sensors);
      data := map[];
      for i := 0 to sensors.Length
        invariant data == TableView(sensors[..i])
      {
        assert sensors[..i + 1][..i] == sensors[..i];
        data := data[sensors[i].name := Num(sensors[i].current)];
      }
      assert sensors[..sensors.Length] == sensors[..];
    }

    /** `_register_new_measurements`. */
    method RegisterNewMeasurements(table: array<Entry>)
      modifies table
      ensures table[..] == Committed(old(table[..]))
    {
      for i := 0 to table.Length
        invariant forall j :: 0 <= j < i ==> table[j] == old(table[j]).(current := old(table[j]).lastReading)
        invariant forall j :: i <= j < table.Length ==> table[j] == old(table[j])
      {
        table[i] := table[i].(current := table[i].lastReading);
      }
    }

    /** `_convert_raw_table`. */
    method ConvertRawTable(table: array<Entry>) returns (data: map<string, Value>)
      ensures data == TableView(table[..])
    {
      data := map[];
      for i := 0 to table.Length
        invariant data == TableView(table[..i])
      {
        assert table[..i + 1][..i] == table[..i];
        data := data[table[i].name := Num(table[i].current)];
      }
      assert table[..table.Length] == table[..];
    }

    /** `_get_alarms_string`, reading each active alarm's name. */
    method GetAlarmsString() returns (summary: string)
      ensures summary == AlarmSummary(alarms[..])
    {
      summary := "None";
      for i := 0 to alarms.Length
        invariant summary == AlarmSummary(alarms[..i])
      {
        assert alarms[..i + 1][..i] == alarms[..i];
        if alarms[i].current.Truthy() {
          if summary == "None" {
            summary := alarms[i].name;
          } else {
            summary := summary + ", " + alarms[i].name;
          }
        }
      }
      assert alarms[..alarms.Length] == alarms[..];
    }

    // -------------------------------------------------------------------
    // Lookups
    // -------------------------------------------------------------------

    /** `_get_value`: the current value of the first row with that register,
        or None. */
    static function GetValue(register: int, table: seq<Entry>): (r: Option<Number>)
      ensures r.None? <==> forall i :: 0 <= i < |table| ==> table[i].register != register
      ensures r.Some? ==> exists i :: 0 <= i < |table| && table[i].register == register &&
                                      r.value == table[i].current &&
                                      forall j :: 0 <= j < i ==> table[j].register != register
    {
      var i := FirstRow(register, table);
      if i == |table| then None else Some(table[i].current)
    }

    /** `_get_last_reading`: the last reading of the first row with that
        register, or None. */
    static function GetLastReading(register: int, table: seq<Entry>): (r: Option<Number>)
      ensures r.None? <==> forall i :: 0 <= i < |table| ==> table[i].register != register
      ensures r.Some? ==> exists i :: 0 <= i < |table| && table[i].register == register &&
                                      r.value == table[i].lastReading &&
                                      forall j :: 0 <= j < i ==> table[j].register != register
    {
      var i := FirstRow(register, table);
      if i == |table| then None else Some(table[i].lastReading)
    }
  }

  /** The index of the first row with `register`, or |t| when there is none. */
  function FirstRow(register: int, t: seq<Entry>): (i: nat)
    ensures i <= |t| && forall j :: 0 <= j < i ==> t[j].register != register
    ensures i < |t| ==> t[i].register == register
  {
    if t == [] then 0
    else if t[0].register == register then 0
    else 1 + FirstRow(register, t[1..])
  }

  /** After the commit, the value looked up for a register is its last reading. */
  lemma CommittedLookup(register: int, t: seq<Entry>)
    ensures Swegon.GetValue(register, Committed(t)) == Swegon.GetLastReading(register, t)
  {
    var c := Committed(t);
    assert forall j :: 0 <= j < |t| ==> c[j].register == t[j].register && c[j].current == t[j].lastReading;
    FirstRowSameRegisters(register, t, c);
  }

  lemma {:induction false} FirstRowSameRegisters(register: int, a: seq<Entry>, b: seq<Entry>)
    requires |a| == |b| && forall j :: 0 <= j < |a| ==> a[j].register == b[j].register
    ensures FirstRow(register, a) == FirstRow(register, b)
  {
    if a != [] && a[0].register != register {
      FirstRowSameRegisters(register, a[1..], b[1..]);
    }
  }
}
