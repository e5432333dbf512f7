/** The post-processing of the register tables into the four name-to-value
    maps the bridge publishes: the commit of last readings into current
    values, the flat table map, the derived `Mode` label and the `Alarms`
    summary. */
module Views {
  import opened Registers
  import opened Faults
  import opened Modbus
  import opened TableRead

  /** A value of a published map: a number from a row, or a derived string. */
  datatype Value = Num(n: Number) | Text(s: string)

  datatype ViewSet = ViewSet(settings: map<string, Value>, status: map<string, Value>,
                             sensors: map<string, Value>, alarms: map<string, Value>)

  // ---------------------------------------------------------------------
  // Commit of the last readings
  // ---------------------------------------------------------------------

  /** Every row's current value is its last reading. */
  predicate Synchronized(t: seq<Entry>) {
    forall i :: 0 <= i < |t| ==> t[i].current == t[i].lastReading
  }

  /** `_register_new_measurements` on the rows: the commit synchronises every
      row and changes nothing else. */
  function Committed(t: seq<Entry>): (r: seq<Entry>)
    ensures |r| == |t| && Synchronized(r)
    ensures forall i :: 0 <= i < |t| ==> r[i].(current := t[i].current) == t[i]
  {
    seq(|t|, i requires 0 <= i < |t| => t[i].(current := t[i].lastReading))
  }

  /** A synchronised table is left as it is, so committing twice is
      committing once. */
  lemma CommittedIdempotent(t: seq<Entry>)
    ensures Committed(Committed(t)) == Committed(t)
    ensures Synchronized(t) ==> Committed(t) == t
  {
    var c := Committed(t);
    assert forall i :: 0 <= i < |c| ==> Committed(c)[i] == c[i];
    if Synchronized(t) {
      assert forall i :: 0 <= i < |t| ==> c[i] == t[i];
    }
  }

  // ---------------------------------------------------------------------
  // The flat map of a table
  // ---------------------------------------------------------------------

  /** Row `i` is the last row of `t` with its name, so its value is the one
      left in the map. */
  predicate LastOfName(t: seq<Entry>, i: int)
    requires 0 <= i < |t|
  {
    forall j :: i < j < |t| ==> t[j].name != t[i].name
  }

  /** `_convert_raw_table`: each row in turn binds its name to its current
      value (see TableViewSpec for what the map then holds). */
  function TableView(t: seq<Entry>): (r: map<string, Value>)
    ensures forall i :: 0 <= i < |t| ==> t[i].name in r
    ensures forall k :: k in r ==> r[k].Num?
  {
    if t == [] then map[]
    else TableView(t[..|t| - 1])[t[|t| - 1].name := Num(t[|t| - 1].current)]
  }

  /** The keys of the table map are exactly the row names, and each is bound
      to the current value of the last row with that name. */
  lemma TableViewSpec(t: seq<Entry>)
    ensures forall i :: 0 <= i < |t| ==> t[i].name in TableView(t)
    ensures forall k :: k in TableView(t) ==> exists i :: 0 <= i < |t| && t[i].name == k
    ensures forall i :: 0 <= i < |t| && LastOfName(t, i) ==> TableView(t)[t[i].name] == Num(t[i].current)
  {
    TableViewKeys(t);
    TableViewValues(t);
  }

  lemma {:induction false} TableViewKeys(t: seq<Entry>)
    ensures forall i :: 0 <= i < |t| ==> t[i].name in TableView(t)
    ensures forall k :: k in TableView(t) ==> exists i :: 0 <= i < |t| && t[i].name == k
  {
    if t != [] {
      var p := t[..|t| - 1];
      var e := t[|t| - 1];
      var m := TableView(t);
      assert m == TableView(p)[e.name := Num(e.current)];
      TableViewKeys(p);
      forall i | 0 <= i < |t| ensures t[i].name in m {
        if i < |p| {
          assert p[i] == t[i];
        }
      }
      forall k | k in m ensures exists i :: 0 <= i < |t| && t[i].name == k {
        if k == e.name {
          assert t[|t| - 1].name == k;
        } else {
          var i :| 0 <= i < |p| && p[i].name == k;
          assert t[i].name == k;
        }
      }
    }
  }

  lemma {:induction false} TableViewValues(t: seq<Entry>)
    ensures forall i :: 0 <= i < |t| && LastOfName(t, i) ==>
      t[i].name in TableView(t) && TableView(t)[t[i].name] == Num(t[i].current)
  {
    if t != [] {
      var p := t[..|t| - 1];
      var e := t[|t| - 1];
      var m := TableView(t);
      assert m == TableView(p)[e.name := Num(e.current)];
      TableViewValues(p);
      forall i | 0 <= i < |t| && LastOfName(t, i)
        ensures t[i].name in m && m[t[i].name] == Num(t[i].current)
      {
        if i < |p| {
          assert t[|t| - 1].name != t[i].name;
          assert p[i] == t[i];
          assert LastOfName(p, i) by {
            forall j | i < j < |p| ensures p[j].name != p[i].name {
              assert p[j] == t[j];
            }
          }
        }
      }
    }
  }

  /** With unique names, every row's name is bound to that row's value. */
  lemma UniqueNamesView(t: seq<Entry>)
    requires UniqueNames(t)
    ensures TableView(t).Keys == set i | 0 <= i < |t| :: t[i].name
    ensures forall i :: 0 <= i < |t| ==> TableView(t)[t[i].name] == Num(t[i].current)
  {
    var m := TableView(t);
    TableViewKeys(t);
    UniqueNamesLookup(t);
    forall k | k in m ensures k in set i | 0 <= i < |t| :: t[i].name {
      var i :| 0 <= i < |t| && t[i].name == k;
    }
  }

  lemma UniqueNamesLookup(t: seq<Entry>)
    requires UniqueNames(t)
    ensures forall i :: 0 <= i < |t| ==> t[i].name in TableView(t) && TableView(t)[t[i].name] == Num(t[i].current)
  {
    TableViewValues(t);
    forall i | 0 <= i < |t| ensures LastOfName(t, i) {
    }
  }

  // ---------------------------------------------------------------------
  // Fan modes
  // ---------------------------------------------------------------------

  function IndexOf(s: seq<string>, x: string): (r: int)
    ensures r == -1 <==> x !in s
    ensures r != -1 ==> 0 <= r < |s| && s[r] == x && forall j :: 0 <= j < r ==> s[j] != x
  {
    if s == [] then -1
    else if s[0] == x then 0
    else
      var k := IndexOf(s[1..], x);
      if k == -1 then -1 else k + 1
  }

  /** `FAN_MODES.index(mode)`: the position of the label, or the ValueError
      Python raises for a label not in the list. */
  function FanModeIndex(mode: string): (r: Result<int>)
    ensures r.Ok? <==> mode in FAN_MODES
    ensures r.Ok? ==> 0 <= r.value < |FAN_MODES| && FAN_MODES[r.value] == mode
    ensures r.Err? ==> r.fault.ValueError?
  {
    var k := IndexOf(FAN_MODES, mode);
    if k == -1 then Err(ValueError(mode)) else Ok(k)
  }

  /** `FAN_MODES[index]` with Python's list indexing: an int in [-5, 5)
      selects a label, negative ones counting from the end; any other int
      raises IndexError and any other value TypeError. */
  function FanModeAt(index: Value): (r: Result<string>)
    ensures r.Ok? <==> index.Num? && index.n.Int? && -|FAN_MODES| <= index.n.i < |FAN_MODES|
    ensures r.Ok? && index.n.i >= 0 ==> r.value == FAN_MODES[index.n.i]
    ensures r.Ok? && index.n.i < 0 ==> r.value == FAN_MODES[|FAN_MODES| + index.n.i]
  {
    match index
    case Num(Int(i)) => if -|FAN_MODES| <= i < |FAN_MODES| then Ok(FAN_MODES[i % |FAN_MODES|]) else Err(IndexError(i))
    case _ => Err(TypeError)
  }

  /** The labels and the indices written for them are inverse to each other. */
  lemma FanModeRoundTrip(mode: string, index: int)
    ensures mode in FAN_MODES ==> FanModeIndex(mode).Ok? && FanModeAt(Num(Int(FanModeIndex(mode).value))) == Ok(mode)
    ensures 0 <= index < |FAN_MODES| ==> FanModeIndex(FAN_MODES[index]) == Ok(index)
  {
    if 0 <= index < |FAN_MODES| {
      var r := FanModeIndex(FAN_MODES[index]);
      assert forall a, b :: 0 <= a < b < |FAN_MODES| ==> FAN_MODES[a] != FAN_MODES[b];
    }
  }

  // ---------------------------------------------------------------------
  // Status view
  // ---------------------------------------------------------------------

  /** The map of `_process_status`, or the exception the `Mode` lookup raises. */
  function StatusView(t: seq<Entry>, uptime: string): (r: Result<map<string, Value>>)
    ensures r.Ok? ==> r.value.Keys == TableView(t).Keys + {"Mode", "Controller uptime"}
    ensures r.Ok? ==> r.value["Mode"].Text? && r.value["Mode"].s in FAN_MODES
    ensures r.Ok? ==> r.value["Controller uptime"] == Text(uptime)
    ensures r.Ok? ==> forall k :: k in TableView(t) && k != "Mode" && k != "Controller uptime" ==>
                        r.value[k] == TableView(t)[k]
    ensures r.Err? ==> r.fault == KeyError("Operating Mode") || r.fault.IndexError? || r.fault.TypeError?
  {
    var d := TableView(t);
    if "Operating Mode" !in d then Err(KeyError("Operating Mode"))
    else
      match FanModeAt(d["Operating Mode"])
      case Err(f) => Err(f)
      case Ok(name) => Ok(d["Mode" := Text(name)]["Controller uptime" := Text(uptime)])
  }

  /** For a status table with unique names, the status map is built exactly
      when the `Operating Mode` row holds an int in [-5, 5); any other value
      makes the label lookup raise. */
  lemma StatusViewOutcome(t: seq<Entry>, i: int, uptime: string)
    requires UniqueNames(t) && 0 <= i < |t| && t[i].name == "Operating Mode"
    ensures StatusView(t, uptime).Ok? <==> t[i].current.Int? && -|FAN_MODES| <= t[i].current.i < |FAN_MODES|
  {
    UniqueNamesLookup(t);
    var d := TableView(t);
    assert "Operating Mode" in d && d["Operating Mode"] == Num(t[i].current);
  }

  /** When that row holds an int in [0, 5), the status map is the table's
      map plus `Mode`, the label at that index, and `Controller uptime`. */
  lemma StatusViewMode(t: seq<Entry>, i: int, uptime: string)
    requires UniqueNames(t) && 0 <= i < |t| && t[i].name == "Operating Mode"
    requires t[i].current.Int? && 0 <= t[i].current.i < |FAN_MODES|
    ensures StatusView(t, uptime).Ok?
    ensures var m := StatusView(t, uptime).value;
      && m.Keys == TableView(t).Keys + {"Mode", "Controller uptime"}
      && m["Mode"] == Text(FAN_MODES[t[i].current.i])
      && m["Controller uptime"] == Text(uptime)
      && forall j :: 0 <= j < |t| && t[j].name !in {"Mode", "Controller uptime"} ==>
           t[j].name in m && m[t[j].name] == Num(t[j].current)
  {
    UniqueNamesLookup(t);
    var d := TableView(t);
    var k := t[i].current.i;
    assert "Operating Mode" in d && d["Operating Mode"] == Num(Int(k));
    assert FanModeAt(Num(Int(k))) == Ok(FAN_MODES[k]);
    var m := d["Mode" := Text(FAN_MODES[k])]["Controller uptime" := Text(uptime)];
    assert StatusView(t, uptime) == Ok(m);
    StatusEntries(d, FAN_MODES[k], uptime, t);
  }

  /** The two derived entries of the status map leave every other row's
      binding in place. */
  lemma StatusEntries(d: map<string, Value>, name: string, uptime: string, t: seq<Entry>)
    requires forall j :: 0 <= j < |t| ==> t[j].name in d && d[t[j].name] == Num(t[j].current)
    ensures var m := d["Mode" := Text(name)]["Controller uptime" := Text(uptime)];
      && m.Keys == d.Keys + {"Mode", "Controller uptime"}
      && m["Mode"] == Text(name) && m["Controller uptime"] == Text(uptime)
      && forall j :: 0 <= j < |t| && t[j].name !in {"Mode", "Controller uptime"} ==>
           t[j].name in m && m[t[j].name] == Num(t[j].current)
  {
    var m := d["Mode" := Text(name)]["Controller uptime" := Text(uptime)];
    forall j | 0 <= j < |t| && t[j].name !in {"Mode", "Controller uptime"}
      ensures t[j].name in m && m[t[j].name] == Num(t[j].current)
    {
      assert t[j].name != "Mode" && t[j].name != "Controller uptime";
      assert m[t[j].name] == d[t[j].name];
    }
  }

  // ---------------------------------------------------------------------
  // Alarms view
  // ---------------------------------------------------------------------

  /** The names of the rows whose current value is truthy, in table order. */
  function ActiveNames(t: seq<Entry>): (r: seq<string>)
    ensures |r| <= |t|
    ensures forall n :: n in r <==> exists i :: 0 <= i < |t| && t[i].current.Truthy() && t[i].name == n
  {
    if t == [] then []
    else
      var e := t[|t| - 1];
      ActiveNames(t[..|t| - 1]) + if e.current.Truthy() then [e.name] else []
  }

  /** `", ".join(names)`, or `"None"` for no names. */
  function Join(names: seq<string>): string {
    if |names| == 0 then "None"
    else if |names| == 1 then names[0]
    else Join(names[..|names| - 1]) + ", " + names[|names| - 1]
  }

  /** The loop of `_get_alarms_string`, reading each alarm's own name (see
      AlarmSummaryAsWritten for the loop as it stands). */
  function AlarmSummary(t: seq<Entry>): (r: string)
    ensures (forall i :: 0 <= i < |t| ==> !t[i].current.Truthy()) ==> r == "None"
  {
    if t == [] then "None"
    else
      var acc := AlarmSummary(t[..|t| - 1]);
      var a := t[|t| - 1];
      if a.current.Truthy() then (if acc == "None" then a.name else acc + ", " + a.name) else acc
  }

  /** Unless an active alarm is itself named "None", the summary is the
      comma-joined names of the active alarms in table order, and it is
      "None" exactly when no alarm is active. */
  lemma {:induction false} AlarmSummaryJoins(t: seq<Entry>)
    requires forall i :: 0 <= i < |t| && t[i].current.Truthy() ==> t[i].name != "None"
    ensures AlarmSummary(t) == Join(ActiveNames(t))
    ensures AlarmSummary(t) == "None" <==> ActiveNames(t) == []
    ensures forall n :: n in ActiveNames(t) ==> n != "None"
  {
    if t != [] {
      var p := t[..|t| - 1];
      assert forall i :: 0 <= i < |p| ==> p[i] == t[i];
      AlarmSummaryJoins(p);
      var e := t[|t| - 1];
      var names := ActiveNames(t);
      assert AlarmSummary(t) == if !e.current.Truthy() then AlarmSummary(p)
        else if AlarmSummary(p) == "None" then e.name else AlarmSummary(p) + ", " + e.name;
      if e.current.Truthy() {
        assert names == ActiveNames(p) + [e.name];
        assert names[..|names| - 1] == ActiveNames(p);
        if |names| > 1 {
          JoinIsNotNone(names);
          assert ActiveNames(p) != [];
          assert Join(names) == Join(ActiveNames(p)) + ", " + e.name;
          assert AlarmSummary(p) != "None";
        } else {
          assert ActiveNames(p) == [];
          assert Join(names) == e.name;
          assert AlarmSummary(p) == "None";
        }
      } else {
        assert names == ActiveNames(p) + [];
        assert names == ActiveNames(p);
        assert AlarmSummary(t) == AlarmSummary(p);
      }
    }
  }

  lemma JoinIsNotNone(names: seq<string>)
    requires |names| > 1
    ensures Join(names) != "None"
  {
    var j := Join(names[..|names| - 1]);
    var r := j + ", " + names[|names| - 1];
    assert r[|j|] == ',';
    if |j| < 4 {
      assert "None"[|j|] != ',';
    }
  }

  /** The loop of `_get_alarms_string` as written: for an active alarm it
      appends the character at index 2 of the summary built so far, not the
      alarm's name; indexing a string shorter than 3 raises IndexError. */
  function AlarmSummaryAsWritten(t: seq<Entry>): (r: Result<string>)
    ensures r.Err? ==> r.fault == IndexError(2)
  {
    if t == [] then Ok("None")
    else
      match AlarmSummaryAsWritten(t[..|t| - 1])
      case Err(f) => Err(f)
      case Ok(acc) =>
        var a := t[|t| - 1];
        if !a.current.Truthy() then Ok(acc)
        else if acc == "None" then Ok([acc[2]])
        else if |acc| > 2 then Ok(acc + ", " + [acc[2]])
        else Err(IndexError(2))
  }

  /** As written, the summary is "None" with no active alarm, "n" with one,
      and the loop raises IndexError with two or more. */
  lemma {:induction false} AlarmSummaryAsWrittenOutcome(t: seq<Entry>)
    ensures |ActiveNames(t)| == 0 ==> AlarmSummaryAsWritten(t) == Ok("None")
    ensures |ActiveNames(t)| == 1 ==> AlarmSummaryAsWritten(t) == Ok("n")
    ensures |ActiveNames(t)| >= 2 ==> AlarmSummaryAsWritten(t) == Err(IndexError(2))
  {
    if t != [] {
      var p := t[..|t| - 1];
      AlarmSummaryAsWrittenOutcome(p);
      var a := t[|t| - 1];
      if a.current.Truthy() {
        assert ActiveNames(t) == ActiveNames(p) + [a.name];
        if |ActiveNames(p)| == 0 {
          assert "None"[2] == 'n';
        } else if |ActiveNames(p)| == 1 {
          assert |"n"| == 1;
        }
      } else {
        assert ActiveNames(t) == ActiveNames(p) + [];
      }
    }
  }

  /** The discrepancy on the catalogue alarm row: active, it is reported as
      "n" rather than by its name. */
  lemma AlarmSummaryAsWrittenOneAlarm()
    ensures var t := [DEFAULT_ALARMS[0].(current := Int(1))];
      AlarmSummaryAsWritten(t) == Ok("n") && AlarmSummary(t) == "Active Alarms"
  {
    var t := [DEFAULT_ALARMS[0].(current := Int(1))];
    assert t[..0] == [];
    assert ActiveNames(t) == ActiveNames([]) + [t[0].name];
    AlarmSummaryAsWrittenOutcome(t);
    assert AlarmSummary(t) == t[0].name;
  }

  /** Two active alarms make the loop as written raise, where the intended
      summary lists both. */
  lemma AlarmSummaryAsWrittenTwoAlarms(a: Entry, b: Entry, c: Entry)
    requires !a.current.Truthy() && b.current.Truthy() && c.current.Truthy() && b.name != "None"
    ensures AlarmSummaryAsWritten([a, b, c]) == Err(IndexError(2))
    ensures AlarmSummary([a, b, c]) == b.name + ", " + c.name
  {
    var t := [a, b, c];
    assert t[..2] == [a, b] && [a, b][..1] == [a] && [a][..0] == [];
    assert ActiveNames([a]) == [];
    assert ActiveNames([a, b]) == [b.name];
    assert ActiveNames(t) == [b.name, c.name];
    AlarmSummaryAsWrittenOutcome(t);
    assert AlarmSummary([a]) == "None";
    assert AlarmSummary([a, b]) == b.name;
  }

  /** The alarms map: the table's map plus the `Alarms` summary. */
  function AlarmsView(t: seq<Entry>): (m: map<string, Value>)
    ensures m.Keys == TableView(t).Keys + {"Alarms"}
    ensures m["Alarms"] == Text(AlarmSummary(t))
    ensures forall k :: k in TableView(t) && k != "Alarms" ==> m[k] == TableView(t)[k]
  {
    TableView(t)["Alarms" := Text(AlarmSummary(t))]
  }

  // ---------------------------------------------------------------------
  // End to end: writing a fan mode and reading the status back
  // ---------------------------------------------------------------------

  /** The status table is read from the wire address the fan mode is written
      to; when the device holds the written index there, the status map
      reports the label that was set. */
  lemma FanModeWriteReadBack(t: seq<Entry>, mode: string, image: (int, int) -> Word,
                             decoded: (int, int, nat) -> Number, log: seq<Debug>, uptime: string)
    requires SameLayout(t, DEFAULT_UNIT_STATUS) && t[0].lastReading.Int?
    requires mode in FAN_MODES
    requires image(3, FAN_MODE_REGISTER - 1) == FanModeIndex(mode).value
    ensures TableRequests(t) == [ReadBlock(FAN_MODE_REGISTER - 1, 1, 3)]
    ensures var r := StatusView(Committed(ReadTable(t, image, decoded, log).table), uptime);
      r.Ok? && r.value["Mode"] == Text(mode)
  {
    var k := FanModeIndex(mode).value;
    var words := BatchWords(t, image);
    assert words == [k as Word];
    BatchReadEffect(t, log, t[0].register, words);
    var c := Committed(ReadTable(t, image, decoded, log).table);
    assert c[0].current == Int(k);
    FanModeRoundTrip(mode, k);
    StatusViewMode(c, 0, uptime);
  }
}
