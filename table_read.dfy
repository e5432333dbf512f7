/** What one `_read` of a register table does to the table and to the debug
    output, as functions of the table before the read and of the device's
    answers; and the properties of that read. */
module TableRead {
  import opened Registers
  import opened Modbus

  /** A call of the unit's debug function. */
  datatype Debug = ReadChanged(name: string, value: Number) | Note(text: string)

  /** The state a read works on: the table rows and the debug output so far. */
  datatype Scan = Scan(table: seq<Entry>, log: seq<Debug>)

  /** `b` is `a` with at most the last readings changed. */
  predicate ReadingsOnly(a: seq<Entry>, b: seq<Entry>) {
    |a| == |b| && forall i :: 0 <= i < |a| ==> b[i] == a[i].(lastReading := b[i].lastReading)
  }

  /** The write rule of the batched read: the row takes `value` only when the
      two differ as numbers. */
  function Updated(e: Entry, value: Number): (r: Entry)
    ensures r.lastReading.Real() == value.Real()
    ensures r == e <==> e.lastReading.Real() == value.Real()
    ensures r == e.(lastReading := r.lastReading)
    ensures r == e || r == e.(lastReading := value)
  {
    if e.lastReading.Real() != value.Real() then e.(lastReading := value) else e
  }

  /** The inner loop of the batched read for the word of one `register`,
      from row `j` on. As in the source, `value` is rescaled again at every
      row holding that register. */
  function ScanEntries(s: Scan, j: nat, register: int, value: Number): (r: Scan)
    requires j <= |s.table|
    ensures |r.table| == |s.table| && s.log <= r.log
    ensures forall k :: |s.log| <= k < |r.log| ==> r.log[k].ReadChanged?
    decreases |s.table| - j
  {
    if j == |s.table| then s
    else
      var e := s.table[j];
      if e.register == register then
        var v := Rescale(value, e.decimals);
        if e.lastReading.Real() != v.Real() then
          ScanEntries(Scan(s.table[j := e.(lastReading := v)], s.log + [ReadChanged(e.name, v)]), j + 1, register, v)
        else
          ScanEntries(s, j + 1, register, v)
      else
        ScanEntries(s, j + 1, register, value)
  }

  /** The outer loop of the batched read, from word `k` on: word `k` belongs
      to register `base + k`. */
  function ScanWords(s: Scan, base: int, words: seq<Word>, k: nat): (r: Scan)
    requires k <= |words|
    ensures |r.table| == |s.table| && s.log <= r.log
    ensures forall i :: |s.log| <= i < |r.log| ==> r.log[i].ReadChanged?
    decreases |words| - k
  {
    if k == |words| then s
    else ScanWords(ScanEntries(s, 0, base + k, Int(UnsignedToSigned(words[k]))), base, words, k + 1)
  }

  /** The per-register path: every row takes the library's value for its own
      register, without comparison. */
  function SingleReads(t: seq<Entry>, decoded: (int, int, nat) -> Number): (r: seq<Entry>)
    ensures |r| == |t|
    ensures forall i :: 0 <= i < |t| ==>
      r[i] == t[i].(lastReading := decoded(t[i].register - 1, t[i].functionCode, t[i].decimals))
  {
    if t == [] then []
    else
      var e := t[|t| - 1];
      SingleReads(t[..|t| - 1], decoded) + [e.(lastReading := decoded(e.register - 1, e.functionCode, e.decimals))]
  }

  /** The requests of the per-register path: one per row, at wire address
      register - 1, with the row's own function code. */
  function SingleRequests(t: seq<Entry>): (r: seq<Request>)
    ensures |r| == |t|
    ensures forall i :: 0 <= i < |t| ==> r[i] == ReadOne(t[i].register - 1, t[i].decimals, t[i].functionCode)
  {
    if t == [] then []
    else
      var e := t[|t| - 1];
      SingleRequests(t[..|t| - 1]) + [ReadOne(e.register - 1, e.decimals, e.functionCode)]
  }

  /** `SingleReads` is fixed by its rows. */
  lemma SingleReadsPointwise(t: seq<Entry>, r: seq<Entry>, decoded: (int, int, nat) -> Number)
    requires |r| == |t|
    requires forall i :: 0 <= i < |t| ==>
      r[i] == t[i].(lastReading := decoded(t[i].register - 1, t[i].functionCode, t[i].decimals))
    ensures r == SingleReads(t, decoded)
  {
  }

  /** `SingleRequests` is fixed by its elements. */
  lemma SingleRequestsPointwise(t: seq<Entry>, r: seq<Request>)
    requires |r| == |t|
    requires forall i :: 0 <= i < |t| ==> r[i] == ReadOne(t[i].register - 1, t[i].decimals, t[i].functionCode)
    ensures r == SingleRequests(t)
  {
  }

  /** The words the batched path reads for `t` from the device image. */
  function BatchWords(t: seq<Entry>, image: (int, int) -> Word): seq<Word>
    requires WellFormed(t)
  {
    Block(image, t[0].functionCode, t[0].register - 1, Span(t))
  }

  /** `_read(table)`: the new rows and debug output. */
  function ReadTable(t: seq<Entry>, image: (int, int) -> Word, decoded: (int, int, nat) -> Number,
                     log: seq<Debug>): (r: Scan)
    requires WellFormed(t)
    ensures |r.table| == |t| && log <= r.log
  {
    if UsesBatch(t) then ScanWords(Scan(t, log), t[0].register, BatchWords(t, image), 0)
    else Scan(SingleReads(t, decoded), log)
  }

  /** `_read(table)`: the requests it sends. */
  function TableRequests(t: seq<Entry>): (r: seq<Request>)
    requires WellFormed(t)
    ensures UsesBatch(t) <==> |r| == 1 && r[0].ReadBlock?
    ensures UsesBatch(t) ==> r[0].address == t[0].register - 1 && r[0].count == Span(t)
    ensures UsesBatch(t) ==> r[0].functionCode == t[0].functionCode
    ensures !UsesBatch(t) ==> |r| == |t| && forall i :: 0 <= i < |t| ==>
      r[i] == ReadOne(t[i].register - 1, t[i].decimals, t[i].functionCode)
    ensures forall k :: 0 <= k < |r| ==> !r[k].WriteOne?
  {
    assert !UsesBatch(t) ==> |t| >= 2;
    if UsesBatch(t) then [ReadBlock(t[0].register - 1, Span(t), t[0].functionCode)] else SingleRequests(t)
  }

  // ---------------------------------------------------------------------
  // What any read preserves
  // ---------------------------------------------------------------------

  lemma {:induction false} ScanEntriesFrame(s: Scan, j: nat, register: int, value: Number)
    requires j <= |s.table|
    ensures ReadingsOnly(s.table, ScanEntries(s, j, register, value).table)
    ensures s.log <= ScanEntries(s, j, register, value).log
    decreases |s.table| - j
  {
    if j < |s.table| {
      var e := s.table[j];
      if e.register == register {
        var v := Rescale(value, e.decimals);
        if e.lastReading.Real() != v.Real() {
          var s' := Scan(s.table[j := e.(lastReading := v)], s.log + [ReadChanged(e.name, v)]);
          ScanEntriesFrame(s', j + 1, register, v);
        } else {
          ScanEntriesFrame(s, j + 1, register, v);
        }
      } else {
        ScanEntriesFrame(s, j + 1, register, value);
      }
    }
  }

  lemma {:induction false} ScanWordsFrame(s: Scan, base: int, words: seq<Word>, k: nat)
    requires k <= |words|
    ensures ReadingsOnly(s.table, ScanWords(s, base, words, k).table)
    ensures s.log <= ScanWords(s, base, words, k).log
    decreases |words| - k
  {
    if k < |words| {
      var s1 := ScanEntries(s, 0, base + k, Int(UnsignedToSigned(words[k])));
      ScanEntriesFrame(s, 0, base + k, Int(UnsignedToSigned(words[k])));
      ScanWordsFrame(s1, base, words, k + 1);
    }
  }

  /** `_read` changes nothing but last readings, and only appends to the
      debug output; the per-register path emits no debug line. */
  lemma ReadTableFrame(t: seq<Entry>, image: (int, int) -> Word, decoded: (int, int, nat) -> Number,
                       log: seq<Debug>)
    requires WellFormed(t)
    ensures ReadingsOnly(t, ReadTable(t, image, decoded, log).table)
    ensures log <= ReadTable(t, image, decoded, log).log
    ensures !UsesBatch(t) ==> ReadTable(t, image, decoded, log).log == log
  {
    if UsesBatch(t) {
      ScanWordsFrame(Scan(t, log), t[0].register, BatchWords(t, image), 0);
    }
  }

  // ---------------------------------------------------------------------
  // The batched read of a table with unique registers
  // ---------------------------------------------------------------------

  /** The row after the batched read of `words` from `base`, counting only
      the words from offset `k` on. */
  function ExpectedFrom(e: Entry, base: int, words: seq<Word>, k: nat): Entry {
    if base + k <= e.register < base + |words| then Updated(e, Decode(words[e.register - base], e.decimals))
    else e
  }

  lemma {:induction false} ScanEntriesUnique(s: Scan, j: nat, register: int, value: Number)
    requires j <= |s.table| && UniqueRegisters(s.table)
    ensures var r := ScanEntries(s, j, register, value);
      && |r.table| == |s.table|
      && (forall i :: 0 <= i < |s.table| ==>
            r.table[i] == if j <= i && s.table[i].register == register
                          then Updated(s.table[i], Rescale(value, s.table[i].decimals)) else s.table[i])
      && s.log <= r.log
      && (|r.log| == |s.log| <==> r.table == s.table)
    decreases |s.table| - j
  {
    if j < |s.table| {
      var e := s.table[j];
      if e.register == register {
        var v := Rescale(value, e.decimals);
        var s' := if e.lastReading.Real() != v.Real()
                  then Scan(s.table[j := e.(lastReading := v)], s.log + [ReadChanged(e.name, v)]) else s;
        assert s'.table == s.table[j := Updated(e, v)];
        assert UniqueRegisters(s'.table) by {
          forall a, b | 0 <= a < b < |s'.table| ensures s'.table[a].register != s'.table[b].register {
            assert s'.table[a].register == s.table[a].register;
            assert s'.table[b].register == s.table[b].register;
          }
        }
        ScanEntriesUnique(s', j + 1, register, v);
        var r := ScanEntries(s', j + 1, register, v);
        assert r.table == s'.table;
      } else {
        ScanEntriesUnique(s, j + 1, register, value);
      }
    }
  }

  lemma {:induction false} ScanWordsUnique(s: Scan, base: int, words: seq<Word>, k: nat)
    requires k <= |words| && UniqueRegisters(s.table)
    ensures var r := ScanWords(s, base, words, k);
      && |r.table| == |s.table|
      && (forall i :: 0 <= i < |s.table| ==> r.table[i] == ExpectedFrom(s.table[i], base, words, k))
      && s.log <= r.log
      && (|r.log| == |s.log| <==> r.table == s.table)
    decreases |words| - k
  {
    if k < |words| {
      var v := Int(UnsignedToSigned(words[k]));
      var s1 := ScanEntries(s, 0, base + k, v);
      ScanEntriesUnique(s, 0, base + k, v);
      forall i | 0 <= i < |s.table| && s.table[i].register == base + k
        ensures s1.table[i] == Updated(s.table[i], Decode(words[k], s.table[i].decimals))
      {
        RescaleDecodes(words[k], s.table[i].decimals);
      }
      assert UniqueRegisters(s1.table) by {
        forall a, b | 0 <= a < b < |s1.table| ensures s1.table[a].register != s1.table[b].register {
          assert s1.table[a].register == s.table[a].register;
          assert s1.table[b].register == s.table[b].register;
        }
      }
      ScanWordsUnique(s1, base, words, k + 1);
      var r := ScanWords(s1, base, words, k + 1);
      forall i | 0 <= i < |s.table| ensures r.table[i] == ExpectedFrom(s.table[i], base, words, k) {
        if s.table[i].register == base + k {
          assert r.table[i] == s1.table[i];
        }
      }
    }
  }

  /** The batched read of a table with unique registers: the row whose
      register is `base + offset` takes the decoded word at `offset` when it
      differs as a number from its last reading; every other row is kept;
      a debug line is emitted exactly when some row changed. */
  lemma BatchReadEffect(t: seq<Entry>, log: seq<Debug>, base: int, words: seq<Word>)
    requires UniqueRegisters(t)
    ensures var r := ScanWords(Scan(t, log), base, words, 0);
      && |r.table| == |t|
      && (forall i :: 0 <= i < |t| ==>
            r.table[i] == if base <= t[i].register < base + |words|
                          then Updated(t[i], Decode(words[t[i].register - base], t[i].decimals)) else t[i])
      && log <= r.log
      && (forall k :: |log| <= k < |r.log| ==> r.log[k].ReadChanged?)
      && (r.log == log <==> r.table == t)
  {
    ScanWordsUnique(Scan(t, log), base, words, 0);
  }

  /** Reading the same words a second time changes nothing and emits no
      debug line. */
  lemma BatchReadIdempotent(t: seq<Entry>, log: seq<Debug>, log2: seq<Debug>, base: int, words: seq<Word>)
    requires UniqueRegisters(t)
    ensures var r1 := ScanWords(Scan(t, log), base, words, 0);
      ScanWords(Scan(r1.table, log2), base, words, 0) == Scan(r1.table, log2)
  {
    var r1 := ScanWords(Scan(t, log), base, words, 0);
    BatchReadEffect(t, log, base, words);
    assert UniqueRegisters(r1.table) by {
      forall a, b | 0 <= a < b < |r1.table| ensures r1.table[a].register != r1.table[b].register {
        assert r1.table[a].register == t[a].register;
        assert r1.table[b].register == t[b].register;
      }
    }
    BatchReadEffect(r1.table, log2, base, words);
    var r2 := ScanWords(Scan(r1.table, log2), base, words, 0);
    assert r2.table == r1.table;
  }

  /** Tables that differ only in last readings are read alike. */
  lemma SameRowsReadAlike(a: seq<Entry>, b: seq<Entry>, image: (int, int) -> Word,
                          decoded: (int, int, nat) -> Number)
    requires WellFormed(a) && ReadingsOnly(a, b)
    ensures WellFormed(b) && UsesBatch(a) == UsesBatch(b)
    ensures TableRequests(a) == TableRequests(b)
    ensures BatchWords(a, image) == BatchWords(b, image)
    ensures SingleReads(a, decoded) == SingleReads(b, decoded)
  {
    assert b[0] == a[0].(lastReading := b[0].lastReading);
    assert b[|b| - 1] == a[|a| - 1].(lastReading := b[|b| - 1].lastReading);
    assert Span(a) == Span(b);
    SameRowsSameSingleReads(a, b, decoded);
    if UsesBatch(a) {
      assert TableRequests(b) == [ReadBlock(a[0].register - 1, Span(a), a[0].functionCode)];
    } else {
      SameRowsSameRequests(a, b);
      assert TableRequests(a) == SingleRequests(a);
    }
  }

  lemma SameRowsSameRequests(a: seq<Entry>, b: seq<Entry>)
    requires ReadingsOnly(a, b)
    ensures SingleRequests(a) == SingleRequests(b)
  {
    var ra, rb := SingleRequests(a), SingleRequests(b);
    forall i | 0 <= i < |a| ensures ra[i] == rb[i] {
      assert b[i] == a[i].(lastReading := b[i].lastReading);
    }
  }

  lemma SameRowsSameSingleReads(a: seq<Entry>, b: seq<Entry>, decoded: (int, int, nat) -> Number)
    requires ReadingsOnly(a, b)
    ensures SingleReads(a, decoded) == SingleReads(b, decoded)
  {
    var ra, rb := SingleReads(a, decoded), SingleReads(b, decoded);
    forall i | 0 <= i < |a| ensures ra[i] == rb[i] {
      var e, f := a[i], b[i];
      assert f == e.(lastReading := f.lastReading);
      assert rb[i] == f.(lastReading := decoded(f.register - 1, f.functionCode, f.decimals));
      assert ra[i] == e.(lastReading := decoded(e.register - 1, e.functionCode, e.decimals));
    }
  }

  /** `_read` of a table with unique registers, repeated against the same
      device, leaves the rows as the first read left them and emits no
      debug line; both reads send the same requests. */
  lemma ReadTableIdempotent(t: seq<Entry>, image: (int, int) -> Word, decoded: (int, int, nat) -> Number,
                            log: seq<Debug>, log2: seq<Debug>)
    requires WellFormed(t) && UniqueRegisters(t)
    ensures var r1 := ReadTable(t, image, decoded, log);
      && WellFormed(r1.table)
      && ReadTable(r1.table, image, decoded, log2) == Scan(r1.table, log2)
      && TableRequests(r1.table) == TableRequests(t)
  {
    var r1 := ReadTable(t, image, decoded, log);
    ReadTableFrame(t, image, decoded, log);
    SameRowsReadAlike(t, r1.table, image, decoded);
    if UsesBatch(t) {
      BatchReadIdempotent(t, log, log2, t[0].register, BatchWords(t, image));
    } else {
      assert SingleReads(r1.table, decoded) == r1.table;
    }
  }
}
