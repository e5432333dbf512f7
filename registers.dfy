/** The register catalogue of the Swegon unit: the row record of a register
    table, the four static tables, the fan-mode labels, and the decoding of
    raw 16-bit words into signed, scaled values. */
module Registers {

  /** An unsigned 16-bit register word, as the serial transport returns it. */
  type Word = w: int | 0 <= w < 0x1_0000

  /** A number stored in a table row: a Python `int`, or a Python `float`
      (modelled by an exact real). Python compares the two kinds by value. */
  datatype Number = Int(i: int) | Float(f: real) {
    function Real(): real {
      match this
      case Int(i) => i as real
      case Float(f) => f
    }

    /** Python truthiness of a number. */
    predicate Truthy() {
      Real() != 0.0
    }
  }

  /** One row `[register, functioncode, name, decimals, current, last_reading]`.
      `register` is the catalogue (1-based) address. */
  datatype Entry = Entry(register: int, functionCode: int, name: string, decimals: nat,
                         current: Number, lastReading: Number)

  const FAN_MODE_REGISTER: int := 5001
  const TEMPERATURE_SETPOINT_REGISTER: int := 5101
  const FAN_MODES: seq<string> := ["Stopped", "Away", "Home", "Boost", "Travelling"]

  const DEFAULT_UNIT_STATUS: seq<Entry> := [Entry(5001, 3, "Operating Mode", 0, Int(2), Int(2))]

  const DEFAULT_SENSORS: seq<Entry> :=
    [Entry(6201, 4, "Fresh Air Temperature", 1, Int(-550), Int(-550)),
     Entry(6202, 4, "Supply air before re-heater temperature", 1, Int(-550), Int(-550)),
     Entry(6203, 4, "Supply air temperature", 1, Int(-550), Int(-550)),
     Entry(6204, 4, "Extract air temperature", 1, Int(-550), Int(-550)),
     Entry(6205, 4, "Exhaust (waste) air temperature", 1, Int(-550), Int(-550)),
     Entry(6206, 4, "Room air temperature", 1, Int(-550), Int(-550)),
     Entry(6207, 4, "User Panel 1 temperature", 1, Int(-550), Int(-550)),
     Entry(6208, 4, "User Panel 2 temperature", 1, Int(-550), Int(-550)),
     Entry(6209, 4, "Water Radiator temperature", 1, Int(-550), Int(-550)),
     Entry(6210, 4, "Pre-heater temperature", 1, Int(-550), Int(-550)),
     Entry(6211, 4, "External Fresh air temperature", 1, Int(-550), Int(-550)),
     Entry(6212, 4, "CO2 Unfiltered", 0, Int(0), Int(0)),
     Entry(6213, 4, "CO2 Filtered", 0, Int(0), Int(0)),
     Entry(6214, 4, "RH", 0, Int(0), Int(0))]

  const DEFAULT_ALARMS: seq<Entry> := [Entry(6132, 4, "Active Alarms", 0, Int(0), Int(0))]

  const DEFAULT_SETTINGS: seq<Entry> := [Entry(5101, 3, "Temperature setpoint", 0, Int(23), Int(0))]

  /** What the read of a table needs: a first row, and a last register not
      below the first, so that the batched read asks for at least one word. */
  predicate WellFormed(t: seq<Entry>) {
    |t| > 0 && t[0].register <= t[|t| - 1].register
  }

  predicate UniqueRegisters(t: seq<Entry>) {
    forall i, j :: 0 <= i < j < |t| ==> t[i].register != t[j].register
  }

  predicate UniqueNames(t: seq<Entry>) {
    forall i, j :: 0 <= i < j < |t| ==> t[i].name != t[j].name
  }

  /** Two tables with the same rows up to the two value columns. */
  predicate SameLayout(a: seq<Entry>, b: seq<Entry>) {
    |a| == |b| &&
    forall i :: 0 <= i < |a| ==>
      a[i].register == b[i].register && a[i].functionCode == b[i].functionCode &&
      a[i].name == b[i].name && a[i].decimals == b[i].decimals
  }

  /** The addressable span of a table: last register - first register + 1. */
  function Span(t: seq<Entry>): int
    requires |t| > 0
  {
    t[|t| - 1].register - t[0].register + 1
  }

  /** The batched read is used unless the span exceeds the number of rows. */
  predicate UsesBatch(t: seq<Entry>)
    requires |t| > 0
  {
    Span(t) <= |t|
  }

  /** `_unsigned_to_signed`: words above 32768 are shifted down by 65536;
      32768 itself is kept. */
  function UnsignedToSigned(v: Word): (r: int)
    ensures -32767 <= r <= 32768
    ensures (r - v) % 0x1_0000 == 0
    ensures r == v <==> v <= 32768
  {
    if v > 32768 then v - 65536 else v
  }

  function Pow10(d: nat): (p: nat)
    ensures p >= 1
  {
    if d == 0 then 1 else 10 * Pow10(d - 1)
  }

  /** Python's `round` to an integer: the nearest integer, ties to even. */
  function RoundHalfEven(x: real): (n: int)
    ensures x - 0.5 <= n as real <= x + 0.5
    ensures n as real == x - 0.5 || n as real == x + 0.5 ==> n % 2 == 0
  {
    var f := x.Floor;
    var frac := x - f as real;
    if frac < 0.5 then f
    else if frac > 0.5 then f + 1
    else if f % 2 == 0 then f
    else f + 1
  }

  /** Python's `round(x, d)`, exactly: a number with d decimals, within
      half a unit of the last decimal of x. */
  function RoundTo(x: real, d: nat): (r: real)
    ensures x - 0.5 / Pow10(d) as real <= r <= x + 0.5 / Pow10(d) as real
    ensures r * Pow10(d) as real == RoundHalfEven(x * Pow10(d) as real) as real
  {
    RoundedToDecimals(x, d);
    RoundBy(x, Pow10(d) as real)
  }

  /** Rounding to d decimals, scaled back by 10^d, is the integer nearest
      to x * 10^d. */
  lemma {:induction false} RoundedToDecimals(x: real, d: nat)
    ensures RoundBy(x, Pow10(d) as real) * Pow10(d) as real == RoundHalfEven(x * Pow10(d) as real) as real
  {
    var p := Pow10(d) as real;
    assert p >= 1.0;
    RoundByUnits(x, p);
  }

  /** Rounds `x` to the nearest multiple of `1 / p`. */
  function RoundBy(x: real, p: real): (r: real)
    requires p >= 1.0
    ensures x - 0.5 / p <= r <= x + 0.5 / p
  {
    var n := RoundHalfEven(x * p) as real;
    ScaledBounds(x, p, n);
    n / p
  }

  /** Rounding to a multiple of 1 / p, scaled back by p, gives the integer
      nearest to x * p. */
  lemma RoundByUnits(x: real, p: real)
    requires p >= 1.0
    ensures RoundBy(x, p) * p == RoundHalfEven(x * p) as real
  {
    var n := RoundHalfEven(x * p) as real;
    calc {
      RoundBy(x, p) * p;
      (n / p) * p;
      { DivideThenMultiply(n, p); }
      n;
    }
  }

  /** Dividing `x * p - 0.5 <= n <= x * p + 0.5` by `p`. */
  lemma ScaledBounds(x: real, p: real, n: real)
    requires p >= 1.0 && x * p - 0.5 <= n <= x * p + 0.5
    ensures x - 0.5 / p <= n / p <= x + 0.5 / p
  {
    assert (x * p - 0.5) / p == x - 0.5 / p;
    assert (x * p + 0.5) / p == x + 0.5 / p;
  }

  /** The statement `if decimals: value = round(value / 10 ** decimals, decimals)`. */
  function Rescale(value: Number, d: nat): (r: Number)
    ensures d == 0 ==> r == value
    ensures d > 0 ==> r.Float?
    ensures d > 0 ==> var q := value.Real() / Pow10(d) as real;
      q - 0.5 / Pow10(d) as real <= r.Real() <= q + 0.5 / Pow10(d) as real
    ensures d > 0 ==> r.Real() * Pow10(d) as real == RoundHalfEven(value.Real()) as real
  {
    if d > 0 then
      RescaledUnits(value.Real(), d);
      Float(RoundTo(value.Real() / Pow10(d) as real, d))
    else value
  }

  /** Dividing by 10^d and rounding to d decimals leaves, in units of
      10^-d, the integer nearest to the value itself. */
  lemma {:induction false} RescaledUnits(v: real, d: nat)
    ensures RoundTo(v / Pow10(d) as real, d) * Pow10(d) as real == RoundHalfEven(v) as real
  {
    var p := Pow10(d) as real;
    assert p >= 1.0;
    ScaledUnits(v, p);
    assert RoundTo(v / p, d) == RoundBy(v / p, p);
  }

  /** `RescaledUnits` for any scale p >= 1. */
  lemma ScaledUnits(v: real, p: real)
    requires p >= 1.0
    ensures RoundBy(v / p, p) * p == RoundHalfEven(v) as real
  {
    var q := v / p;
    DivideThenMultiply(v, p);
    assert q * p == v;
    RoundByUnits(q, p);
  }

  /** The decoded value of a raw word for a row with `d` decimals: the signed
      word, divided exactly by 10^d when d > 0 and kept as an int when d = 0. */
  function Decode(w: Word, d: nat): (r: Number)
    ensures r.Int? <==> d == 0
    ensures r.Real() * Pow10(d) as real == UnsignedToSigned(w) as real
  {
    if d > 0 then
      DivideThenMultiply(UnsignedToSigned(w) as real, Pow10(d) as real);
      Float(UnsignedToSigned(w) as real / Pow10(d) as real)
    else Int(UnsignedToSigned(w))
  }

  /** Rescaling the signed word once loses nothing: the rounding is exact. */
  lemma RescaleDecodes(w: Word, d: nat)
    ensures Rescale(Int(UnsignedToSigned(w)), d) == Decode(w, d)
  {
    if d > 0 {
      RescaleExact(UnsignedToSigned(w), d);
    }
  }

  /** For an integer, dividing by 10^d and rounding to d places is exact. */
  lemma RescaleExact(k: int, d: nat)
    requires d > 0
    ensures Rescale(Int(k), d) == Float(k as real / Pow10(d) as real)
  {
    var p := Pow10(d) as real;
    var x := k as real / p;
    DivideThenMultiply(k as real, p);
    RoundByMultiple(x, p, k);
  }

  lemma DivideThenMultiply(s: real, p: real)
    requires p > 0.0
    ensures (s / p) * p == s
  {
  }

  /** A multiple of `1 / p` is left unchanged by rounding. */
  lemma RoundByMultiple(x: real, p: real, k: int)
    requires p >= 1.0 && x * p == k as real
    ensures RoundBy(x, p) == x
  {
    RoundIntegral(k);
    assert RoundBy(x, p) == RoundHalfEven(x * p) as real / p;
  }

  lemma RoundIntegral(k: int)
    ensures RoundHalfEven(k as real) == k
  {
    assert (k as real).Floor == k;
  }

  /** Every catalogue table is read with one batched request and has unique
      registers and names. */
  lemma CatalogTablesAreBatched()
    ensures WellFormed(DEFAULT_UNIT_STATUS) && UsesBatch(DEFAULT_UNIT_STATUS)
    ensures WellFormed(DEFAULT_ALARMS) && UsesBatch(DEFAULT_ALARMS)
    ensures WellFormed(DEFAULT_SETTINGS) && UsesBatch(DEFAULT_SETTINGS)
    ensures UniqueRegisters(DEFAULT_UNIT_STATUS) && UniqueNames(DEFAULT_UNIT_STATUS)
    ensures UniqueRegisters(DEFAULT_ALARMS) && UniqueNames(DEFAULT_ALARMS)
    ensures UniqueRegisters(DEFAULT_SETTINGS) && UniqueNames(DEFAULT_SETTINGS)
    ensures WellFormed(DEFAULT_SENSORS) && UsesBatch(DEFAULT_SENSORS) && Span(DEFAULT_SENSORS) == 14
    ensures UniqueRegisters(DEFAULT_SENSORS) && UniqueNames(DEFAULT_SENSORS)
    ensures forall i :: 0 <= i < |DEFAULT_SENSORS| ==>
      DEFAULT_SENSORS[i].register == 6201 + i && DEFAULT_SENSORS[i].functionCode == 4
  {
    SensorRegisters();
    SensorNames();
  }

  lemma SensorRegisters()
    ensures |DEFAULT_SENSORS| == 14
    ensures forall i :: 0 <= i < |DEFAULT_SENSORS| ==>
      DEFAULT_SENSORS[i].register == 6201 + i && DEFAULT_SENSORS[i].functionCode == 4
  {
  }

  /** The sensor names are told apart by their length and first letter,
      and the two user-panel names by their panel number. */
  lemma SensorNames()
    ensures UniqueNames(DEFAULT_SENSORS)
  {
    SensorNameKeys();
    assert DEFAULT_SENSORS[6].name[11] != DEFAULT_SENSORS[7].name[11];
    forall i, j | 0 <= i < j < |DEFAULT_SENSORS| ensures DEFAULT_SENSORS[i].name != DEFAULT_SENSORS[j].name {
      if SENSOR_NAME_KEYS[i] == SENSOR_NAME_KEYS[j] {
        assert (i, j) == (6, 7);
      }
    }
  }

  const SENSOR_NAME_KEYS: seq<(int, char)> :=
    [(21, 'F'), (39, 'S'), (22, 'S'), (23, 'E'), (31, 'E'), (20, 'R'), (24, 'U'), (24, 'U'),
     (26, 'W'), (22, 'P'), (30, 'E'), (14, 'C'), (12, 'C'), (2, 'R')]

  lemma SensorNameKeys()
    ensures forall i :: 0 <= i < |DEFAULT_SENSORS| ==> NameKey(DEFAULT_SENSORS[i].name) == SENSOR_NAME_KEYS[i]
  {
  }

  function NameKey(name: string): (int, char) {
    (|name|, if name == [] then ' ' else name[0])
  }
}
