/**
 * The second phase of `process_data`: the loop over the rows of a sheet
 * that filters them by variant, parses each registered pesticide's value
 * cell and folds the parsed samples into `pesticide_data`, a dict from
 * pesticide to a dict from commodity to a record of counters.
 */
module Tally {
  import opened Wrappers
  import opened Cells
  import opened OrderedMaps
  import opened Registration

  /** The variant filter: one variant (`"Organic"`) or a list of them (`["Normal", "Loose"]`). */
  datatype VariantFilter = Single(variant: string) | AnyOf(variants: seq<string>)

  /** `variant in filter` for a list, `variant == filter` otherwise; only text equals a string. */
  predicate Matches(f: VariantFilter, v: Cell) {
    v.Text? &&
    match f
    case Single(x) => v.s == x
    case AnyOf(xs) => v.s in xs
  }

  /** One parsed value cell: the pesticide, the row's commodity, the value and whether it was flagged unsafe. */
  datatype Sample = Sample(pesticide: string, commodity: Cell, value: real, unsafe: bool)

  /** Every block, and the commodity and variant columns, are inside every row. */
  ghost predicate Readable(blocks: seq<(string, Block)>, rows: seq<seq<Cell>>, cpos: nat, vpos: nat) {
    forall j :: 0 <= j < |rows| ==>
      cpos < |rows[j]| && vpos < |rows[j]| &&
      forall k :: 0 <= k < |blocks| ==> blocks[k].1.valueCol < |rows[j]| && blocks[k].1.complianceCol < |rows[j]|
  }

  /** The samples one row yields, block by block; a value cell that does not parse yields none. */
  function RowSamples(blocks: seq<(string, Block)>, row: seq<Cell>, commodity: Cell): seq<Sample>
    requires forall k :: 0 <= k < |blocks| ==> blocks[k].1.valueCol < |row| && blocks[k].1.complianceCol < |row|
  {
    if blocks == [] then []
    else
      var b := blocks[|blocks| - 1];
      var earlier := RowSamples(blocks[..|blocks| - 1], row, commodity);
      match ParseValue(row[b.1.valueCol])
      case None => earlier
      case Some(x) => earlier + [Sample(b.0, commodity, x, IsUnsafe(row[b.1.complianceCol]))]
  }

  /** The samples of a whole sheet, row by row; a row whose variant fails the filter yields none. */
  function TableSamples(blocks: seq<(string, Block)>, rows: seq<seq<Cell>>, filter: VariantFilter, cpos: nat, vpos: nat): seq<Sample>
    requires Readable(blocks, rows, cpos, vpos)
  {
    if rows == [] then []
    else
      var row := rows[|rows| - 1];
      TableSamples(blocks, rows[..|rows| - 1], filter, cpos, vpos) +
      (if Matches(filter, row[vpos]) then RowSamples(blocks, row, row[cpos]) else [])
  }

  lemma RowSamplesStep(blocks: seq<(string, Block)>, row: seq<Cell>, commodity: Cell, k: nat)
    requires k < |blocks|
    requires forall k :: 0 <= k < |blocks| ==> blocks[k].1.valueCol < |row| && blocks[k].1.complianceCol < |row|
    ensures var parsed := ParseValue(row[blocks[k].1.valueCol]);
      RowSamples(blocks[..k + 1], row, commodity) ==
        RowSamples(blocks[..k], row, commodity) +
        (if parsed.Some? then [Sample(blocks[k].0, commodity, parsed.value, IsUnsafe(row[blocks[k].1.complianceCol]))] else [])
  {
    assert blocks[..k + 1][..k] == blocks[..k];
  }

  /** The counters kept per (pesticide, commodity). */
  datatype Record = Record(total: nat, unsafe: nat, min: Option<real>, max: Option<real>)

  /** `{"min": None, "max": None, "total": 0, "unsafe": 0}` */
  const Fresh := Record(0, 0, None, None)

  /** `pesticide_data` */
  type Data = OrderedMap<string, OrderedMap<Cell, Record>>

  /**
   * A record that has counted something: at least one sample, no more
   * unsafe ones than samples, extrema present exactly when an unsafe
   * sample was seen, and in order.
   */
  ghost predicate ValidRecord(r: Record) {
    r.total >= 1 && r.unsafe <= r.total &&
    (r.min.None? <==> r.unsafe == 0) && (r.max.None? <==> r.unsafe == 0) &&
    (r.min.Some? && r.max.Some? ==> r.min.value <= r.max.value)
  }

  ghost predicate ValidData(d: Data) {
    Valid(d) &&
    forall p :: p in d.entries ==>
      Valid(d.entries[p]) &&
      forall c :: c in d.entries[p].entries ==> ValidRecord(d.entries[p].entries[c])
  }

  /** Counting one sample of value `x`: every sample is counted, only unsafe ones move the extrema. */
  function Count(r: Record, x: real, unsafe: bool): (r': Record)
    ensures r == Fresh || ValidRecord(r) ==> ValidRecord(r')
    ensures r'.total == r.total + 1
    ensures r'.unsafe == r.unsafe + (if unsafe then 1 else 0)
    ensures !unsafe ==> r'.min == r.min && r'.max == r.max
  {
    var r1 := r.(total := r.total + 1);
    if !unsafe then r1
    else r1.(unsafe := r.unsafe + 1,
             min := if r.min.None? || x < r.min.value then Some(x) else r.min,
             max := if r.max.None? || x > r.max.value then Some(x) else r.max)
  }

  /** One sample into `pesticide_data`: create the pesticide's dict and the commodity's record if needed, then count. */
  function Observe(d: Data, s: Sample): Data {
    var inner := if s.pesticide in d.entries then d.entries[s.pesticide] else Empty();
    var r := if s.commodity in inner.entries then inner.entries[s.commodity] else Fresh;
    Put(d, s.pesticide, Put(inner, s.commodity, Count(r, s.value, s.unsafe)))
  }

  /** `pesticide_data` after a sequence of samples. */
  function Accumulate(samples: seq<Sample>): Data {
    if samples == [] then Empty()
    else Observe(Accumulate(samples[..|samples| - 1]), samples[|samples| - 1])
  }

  /** Counting a sample keeps every record valid and both key orders free of repeats. */
  lemma ObserveKeepsValid(d: Data, s: Sample)
    requires ValidData(d)
    ensures ValidData(Observe(d, s))
  {
    var inner := if s.pesticide in d.entries then d.entries[s.pesticide] else Empty();
    assert Valid(inner);
    var r := if s.commodity in inner.entries then inner.entries[s.commodity] else Fresh;
    assert ValidRecord(Count(r, s.value, s.unsafe));
  }

  /** Every record of `pesticide_data` is valid (`unsafe <= total`, `total >= 1`, extrema present iff `unsafe > 0`, `min <= max`). */
  lemma {:induction false} AccumulateValid(samples: seq<Sample>)
    ensures ValidData(Accumulate(samples))
  {
    if samples != [] {
      AccumulateValid(samples[..|samples| - 1]);
      ObserveKeepsValid(Accumulate(samples[..|samples| - 1]), samples[|samples| - 1]);
    }
  }

  lemma AccumulateSnoc(samples: seq<Sample>, s: Sample)
    ensures Accumulate(samples + [s]) == Observe(Accumulate(samples), s)
  {
    assert (samples + [s])[..|samples|] == samples;
  }

  /** One parsed sample counted in place (organic_normal.py, lines 77-91). */
  method CountSample(data: Data, pest: string, commodity: Cell, x: real, unsafe: bool) returns (data': Data)
    ensures data' == Observe(data, Sample(pest, commodity, x, unsafe))
  {
    data' := data;
    ghost var isNew := pest !in data'.entries;
    if pest !in data'.entries {
      data' := Put(data', pest, Empty());
    }
    var inner := data'.entries[pest];
    ghost var inner0 := inner;
    if commodity !in inner.entries {
      inner := Put(inner, commodity, Fresh);
      data' := Put(data', pest, inner);
    }
    var rec := data'.entries[pest].entries[commodity];
    ghost var rec0 := rec;
    rec := rec.(total := rec.total + 1);
    if unsafe {
      rec := rec.(unsafe := rec.unsafe + 1);
      if rec.min.None? || x < rec.min.value {
        rec := rec.(min := Some(x));
      }
      if rec.max.None? || x > rec.max.value {
        rec := rec.(max := Some(x));
      }
    }
    assert rec == Count(rec0, x, unsafe);
    ghost var mid := data';
    data' := Put(data', pest, Put(data'.entries[pest], commodity, rec));
    PutPut(inner0, commodity, Fresh, rec);
    if isNew {
      PutPut(data, pest, Empty(), inner);
      PutPut(data, pest, inner, Put(inner, commodity, rec));
    } else {
      PutPut(data, pest, inner, Put(inner, commodity, rec));
    }
  }

  lemma TallyStep(before: seq<Sample>, blocks: seq<(string, Block)>, row: seq<Cell>, commodity: Cell, k: nat)
    requires k < |blocks|
    requires forall k :: 0 <= k < |blocks| ==> blocks[k].1.valueCol < |row| && blocks[k].1.complianceCol < |row|
    ensures var parsed := ParseValue(row[blocks[k].1.valueCol]);
      var done := Accumulate(before + RowSamples(blocks[..k], row, commodity));
      Accumulate(before + RowSamples(blocks[..k + 1], row, commodity)) ==
        if parsed.Some? then Observe(done, Sample(blocks[k].0, commodity, parsed.value, IsUnsafe(row[blocks[k].1.complianceCol])))
        else done
  {
    RowSamplesStep(blocks, row, commodity, k);
    var done := before + RowSamples(blocks[..k], row, commodity);
    var parsed := ParseValue(row[blocks[k].1.valueCol]);
    if parsed.Some? {
      var s := Sample(blocks[k].0, commodity, parsed.value, IsUnsafe(row[blocks[k].1.complianceCol]));
      assert before + RowSamples(blocks[..k + 1], row, commodity) == done + [s];
      AccumulateSnoc(done, s);
    } else {
      assert before + RowSamples(blocks[..k + 1], row, commodity) == done;
    }
  }

  /** The loop over the registered pesticides of one row that passed the filter (organic_normal.py, lines 67-91). */
  method TallyRow(blocks: seq<(string, Block)>, row: seq<Cell>, commodity: Cell, data: Data, ghost before: seq<Sample>)
    returns (data': Data)
    requires forall k :: 0 <= k < |blocks| ==> blocks[k].1.valueCol < |row| && blocks[k].1.complianceCol < |row|
    requires data == Accumulate(before)
    ensures data' == Accumulate(before + RowSamples(blocks, row, commodity))
  {
    data' := data;
    assert before + RowSamples(blocks[..0], row, commodity) == before;
    for k := 0 to |blocks|
      invariant data' == Accumulate(before + RowSamples(blocks[..k], row, commodity))
    {
      TallyStep(before, blocks, row, commodity, k);
      var pest := blocks[k].0;
      var value := row[blocks[k].1.valueCol];
      var unsafe := IsUnsafe(row[blocks[k].1.complianceCol]);
      var parsed := ParseValue(value);
      if parsed.Some? {
        data' := CountSample(data', pest, commodity, parsed.value, unsafe);
      }
    }
    assert blocks[..|blocks|] == blocks;
  }

  lemma TableSamplesStep(blocks: seq<(string, Block)>, rows: seq<seq<Cell>>, filter: VariantFilter, cpos: nat, vpos: nat, r: nat)
    requires Readable(blocks, rows, cpos, vpos) && r < |rows|
    ensures Readable(blocks, rows[..r], cpos, vpos) && Readable(blocks, rows[..r + 1], cpos, vpos)
    ensures TableSamples(blocks, rows[..r + 1], filter, cpos, vpos) ==
      TableSamples(blocks, rows[..r], filter, cpos, vpos) +
      (if Matches(filter, rows[r][vpos]) then RowSamples(blocks, rows[r], rows[r][cpos]) else [])
    ensures !Matches(filter, rows[r][vpos]) ==>
      TableSamples(blocks, rows[..r + 1], filter, cpos, vpos) == TableSamples(blocks, rows[..r], filter, cpos, vpos)
  {
    assert rows[..r + 1][..r] == rows[..r];
    var done := TableSamples(blocks, rows[..r], filter, cpos, vpos);
    assert done + [] == done;
  }

  /** The row loop (organic_normal.py, lines 56-91). */
  method TallyRows(blocks: seq<(string, Block)>, rows: seq<seq<Cell>>, filter: VariantFilter, cpos: nat, vpos: nat)
    returns (data: Data)
    requires Readable(blocks, rows, cpos, vpos)
    ensures data == Accumulate(TableSamples(blocks, rows, filter, cpos, vpos))
  {
    data := Empty();
    for r := 0 to |rows|
      invariant Readable(blocks, rows[..r], cpos, vpos)
      invariant data == Accumulate(TableSamples(blocks, rows[..r], filter, cpos, vpos))
    {
      TableSamplesStep(blocks, rows, filter, cpos, vpos, r);
      var row := rows[r];
      var commodity := row[cpos];
      var variant := row[vpos];
      if !Matches(filter, variant) {
        continue;
      }
      data := TallyRow(blocks, row, commodity, data, TableSamples(blocks, rows[..r], filter, cpos, vpos));
    }
    assert rows[..|rows|] == rows;
  }

  // What `pesticide_data` holds, stated without the fold: per key, over the
  // samples of that key; in order, by first appearance.

  /** The samples of pesticide `p` on commodity `c`, in order. */
  function Matching(samples: seq<Sample>, p: string, c: Cell): seq<Sample> {
    if samples == [] then []
    else
      var s := samples[|samples| - 1];
      Matching(samples[..|samples| - 1], p, c) + (if s.pesticide == p && s.commodity == c then [s] else [])
  }

  /** The values of the samples flagged unsafe, in order. */
  function UnsafeValues(samples: seq<Sample>): seq<real> {
    if samples == [] then []
    else
      var s := samples[|samples| - 1];
      UnsafeValues(samples[..|samples| - 1]) + (if s.unsafe then [s.value] else [])
  }

  function MinReal(a: real, b: real): real { if b < a then b else a }
  function MaxReal(a: real, b: real): real { if b > a then b else a }

  /** The least element, if any. */
  function SeqMin(xs: seq<real>): Option<real> {
    if xs == [] then None
    else
      var m := SeqMin(xs[..|xs| - 1]);
      Some(if m.None? then xs[|xs| - 1] else MinReal(m.value, xs[|xs| - 1]))
  }

  /** The greatest element, if any. */
  function SeqMax(xs: seq<real>): Option<real> {
    if xs == [] then None
    else
      var m := SeqMax(xs[..|xs| - 1]);
      Some(if m.None? then xs[|xs| - 1] else MaxReal(m.value, xs[|xs| - 1]))
  }

  /** The record (p, c) should hold: all its samples counted, the unsafe ones counted and their extrema. */
  function Expected(samples: seq<Sample>, p: string, c: Cell): Record {
    var unsafeValues := UnsafeValues(Matching(samples, p, c));
    Record(|Matching(samples, p, c)|, |unsafeValues|, SeqMin(unsafeValues), SeqMax(unsafeValues))
  }

  lemma {:induction false} SeqMinIsLeast(xs: seq<real>)
    ensures SeqMin(xs).None? <==> xs == []
    ensures SeqMin(xs).Some? ==> SeqMin(xs).value in xs && forall y :: y in xs ==> SeqMin(xs).value <= y
  {
    if xs != [] {
      var init := xs[..|xs| - 1];
      SeqMinIsLeast(init);
      assert xs == init + [xs[|xs| - 1]];
    }
  }

  lemma {:induction false} SeqMaxIsGreatest(xs: seq<real>)
    ensures SeqMax(xs).None? <==> xs == []
    ensures SeqMax(xs).Some? ==> SeqMax(xs).value in xs && forall y :: y in xs ==> y <= SeqMax(xs).value
  {
    if xs != [] {
      var init := xs[..|xs| - 1];
      SeqMaxIsGreatest(init);
      assert xs == init + [xs[|xs| - 1]];
    }
  }

  lemma {:induction false} UnsafeValuesAtMost(samples: seq<Sample>)
    ensures |UnsafeValues(samples)| <= |samples|
  {
    if samples != [] {
      UnsafeValuesAtMost(samples[..|samples| - 1]);
    }
  }

  /** Counting one more sample of a key moves its expected record as `Count` moves a record. */
  lemma ExpectedSnoc(samples: seq<Sample>, s: Sample)
    ensures Expected(samples + [s], s.pesticide, s.commodity) ==
      Count(Expected(samples, s.pesticide, s.commodity), s.value, s.unsafe)
  {
    var all := samples + [s];
    assert all[..|all| - 1] == samples;
    var m := Matching(samples, s.pesticide, s.commodity);
    var m' := m + [s];
    assert Matching(all, s.pesticide, s.commodity) == m';
    assert m'[..|m'| - 1] == m;
    var u := UnsafeValues(m);
    if s.unsafe {
      var u' := u + [s.value];
      assert UnsafeValues(m') == u';
      assert u'[..|u'| - 1] == u;
    } else {
      assert UnsafeValues(m') == u;
    }
  }

  /** `pesticide_data[p][c]`, if both keys are there. */
  function Lookup(d: Data, p: string, c: Cell): Option<Record> {
    if p in d.entries && c in d.entries[p].entries then Some(d.entries[p].entries[c]) else None
  }

  /** Counting a sample touches its own record and no other. */
  lemma ObserveLookup(d: Data, s: Sample, p: string, c: Cell)
    ensures Lookup(Observe(d, s), p, c) ==
      if p == s.pesticide && c == s.commodity
      then Some(Count(if Lookup(d, p, c).Some? then Lookup(d, p, c).value else Fresh, s.value, s.unsafe))
      else Lookup(d, p, c)
  {
  }

  /**
   * The records of `pesticide_data`: a record for (p, c) exists exactly when
   * some sample is of pesticide p on commodity c, and it then counts all of
   * them in `total`, the unsafe ones in `unsafe`, and holds the least and
   * the greatest unsafe value.
   */
  lemma {:induction false} AccumulateRecord(samples: seq<Sample>, p: string, c: Cell)
    ensures Lookup(Accumulate(samples), p, c) ==
      if Matching(samples, p, c) == [] then None else Some(Expected(samples, p, c))
  {
    if samples != [] {
      var init := samples[..|samples| - 1];
      var s := samples[|samples| - 1];
      assert samples == init + [s];
      AccumulateRecord(init, p, c);
      RecordSnoc(init, s, p, c);
    }
  }

  lemma RecordSnoc(init: seq<Sample>, s: Sample, p: string, c: Cell)
    requires Lookup(Accumulate(init), p, c) == if Matching(init, p, c) == [] then None else Some(Expected(init, p, c))
    ensures Lookup(Accumulate(init + [s]), p, c) ==
      if Matching(init + [s], p, c) == [] then None else Some(Expected(init + [s], p, c))
  {
    var all := init + [s];
    assert all[..|all| - 1] == init;
    assert Accumulate(all) == Observe(Accumulate(init), s);
    ObserveLookup(Accumulate(init), s, p, c);
    if s.pesticide == p && s.commodity == c {
      ExpectedSnoc(init, s);
      assert Matching(all, p, c) == Matching(init, p, c) + [s];
    } else {
      assert Matching(all, p, c) == Matching(init, p, c);
    }
  }

  /** The pesticides of the samples, in order, repeats included. */
  function Pesticides(samples: seq<Sample>): seq<string> {
    if samples == [] then []
    else Pesticides(samples[..|samples| - 1]) + [samples[|samples| - 1].pesticide]
  }

  /** The commodities of the samples of pesticide `p`, in order, repeats included. */
  function CommoditiesOf(samples: seq<Sample>, p: string): seq<Cell> {
    if samples == [] then []
    else
      var s := samples[|samples| - 1];
      CommoditiesOf(samples[..|samples| - 1], p) + (if s.pesticide == p then [s.commodity] else [])
  }

  /** Each element at its first appearance. */
  function Dedup<T(==)>(xs: seq<T>): seq<T> {
    if xs == [] then []
    else
      var d := Dedup(xs[..|xs| - 1]);
      if xs[|xs| - 1] in d then d else d + [xs[|xs| - 1]]
  }

  lemma {:induction false} DedupMembers<T>(xs: seq<T>)
    ensures forall x :: x in Dedup(xs) <==> x in xs
  {
    if xs != [] {
      DedupMembers(xs[..|xs| - 1]);
      assert xs == xs[..|xs| - 1] + [xs[|xs| - 1]];
    }
  }

  lemma {:induction false} NoCommoditiesWithoutPesticide(samples: seq<Sample>, p: string)
    requires p !in Pesticides(samples)
    ensures CommoditiesOf(samples, p) == []
  {
    if samples != [] {
      NoCommoditiesWithoutPesticide(samples[..|samples| - 1], p);
    }
  }

  /** The order of `pesticide_data`: pesticides by their first sample. */
  lemma {:induction false} PesticideOrder(samples: seq<Sample>)
    ensures Accumulate(samples).keys == Dedup(Pesticides(samples))
  {
    if samples != [] {
      var init := samples[..|samples| - 1];
      PesticideOrder(init);
      AccumulateValid(init);
      DedupMembers(Pesticides(init));
    }
  }

  /** A pesticide has an entry exactly when some sample is of it. */
  lemma PesticidePresent(samples: seq<Sample>, p: string)
    ensures p in Accumulate(samples).entries <==> p in Pesticides(samples)
  {
    PesticideOrder(samples);
    AccumulateValid(samples);
    DedupMembers(Pesticides(samples));
  }

  lemma InnerValid(samples: seq<Sample>, p: string)
    requires p in Accumulate(samples).entries
    ensures Valid(Accumulate(samples).entries[p])
  {
    AccumulateValid(samples);
  }

  lemma ObserveCommodities(d: Data, s: Sample, p: string)
    requires p in Observe(d, s).entries
    ensures Observe(d, s).entries[p].keys ==
      if p != s.pesticide then d.entries[p].keys
      else if p !in d.entries then [s.commodity]
      else if s.commodity in d.entries[p].entries then d.entries[p].keys
      else d.entries[p].keys + [s.commodity]
  {
  }

  /** Within a pesticide, commodities are in the order of their first sample of it. */
  lemma {:induction false} CommodityOrder(samples: seq<Sample>, p: string)
    requires p in Accumulate(samples).entries
    ensures Accumulate(samples).entries[p].keys == Dedup(CommoditiesOf(samples, p))
  {
    if samples != [] {
      var init := samples[..|samples| - 1];
      var s := samples[|samples| - 1];
      var d0 := Accumulate(init);
      assert Accumulate(samples) == Observe(d0, s);
      ObserveCommodities(d0, s, p);
      var cs := CommoditiesOf(init, p);
      assert CommoditiesOf(samples, p) == cs + (if s.pesticide == p then [s.commodity] else []);
      assert (cs + [s.commodity])[..|cs|] == cs;
      if p in d0.entries {
        CommodityOrder(init, p);
        if p == s.pesticide {
          InnerValid(init, p);
          DedupMembers(cs);
        } else {
          assert CommoditiesOf(samples, p) == cs;
        }
      } else {
        PesticidePresent(init, p);
        NoCommoditiesWithoutPesticide(init, p);
      }
    }
  }

  // Which cells contribute: the rows that pass the filter, the value cells that parse.

  lemma {:induction false} RowSamplesAppend(blocks: seq<(string, Block)>, more: seq<(string, Block)>, row: seq<Cell>, commodity: Cell)
    requires forall k :: 0 <= k < |blocks| ==> blocks[k].1.valueCol < |row| && blocks[k].1.complianceCol < |row|
    requires forall k :: 0 <= k < |more| ==> more[k].1.valueCol < |row| && more[k].1.complianceCol < |row|
    ensures RowSamples(blocks + more, row, commodity) == RowSamples(blocks, row, commodity) + RowSamples(more, row, commodity)
  {
    if more != [] {
      var init := more[..|more| - 1];
      RowSamplesAppend(blocks, init, row, commodity);
      assert (blocks + more)[..|blocks + more| - 1] == blocks + init;
    } else {
      assert blocks + more == blocks;
    }
  }

  /**
   * A value cell that is missing, empty or not a number contributes to no
   * record: the row yields what it would yield if that pesticide were not
   * registered at all.
   */
  lemma {:induction false} UnparsedCellIgnored(blocks: seq<(string, Block)>, row: seq<Cell>, commodity: Cell, k: nat)
    requires forall k :: 0 <= k < |blocks| ==> blocks[k].1.valueCol < |row| && blocks[k].1.complianceCol < |row|
    requires k < |blocks| && ParseValue(row[blocks[k].1.valueCol]).None?
    ensures RowSamples(blocks, row, commodity) == RowSamples(blocks[..k] + blocks[k + 1..], row, commodity)
  {
    var pre, mid, post := blocks[..k], blocks[..k + 1], blocks[k + 1..];
    assert RowSamples(blocks, row, commodity) == RowSamples(mid, row, commodity) + RowSamples(post, row, commodity) by {
      assert blocks == mid + post;
      RowSamplesAppend(mid, post, row, commodity);
    }
    assert RowSamples(mid, row, commodity) == RowSamples(pre, row, commodity) by {
      RowSamplesStep(blocks, row, commodity, k);
    }
    assert RowSamples(pre + post, row, commodity) == RowSamples(pre, row, commodity) + RowSamples(post, row, commodity) by {
      RowSamplesAppend(pre, post, row, commodity);
    }
  }

  lemma {:induction false} TableSamplesAppend(blocks: seq<(string, Block)>, rows: seq<seq<Cell>>, more: seq<seq<Cell>>,
                                              filter: VariantFilter, cpos: nat, vpos: nat)
    requires Readable(blocks, rows, cpos, vpos) && Readable(blocks, more, cpos, vpos)
    requires Readable(blocks, rows + more, cpos, vpos)
    ensures TableSamples(blocks, rows + more, filter, cpos, vpos) ==
      TableSamples(blocks, rows, filter, cpos, vpos) + TableSamples(blocks, more, filter, cpos, vpos)
  {
    if more != [] {
      var init := more[..|more| - 1];
      assert (rows + more)[..|rows + more| - 1] == rows + init;
      TableSamplesAppend(blocks, rows, init, filter, cpos, vpos);
    } else {
      assert rows + more == rows;
    }
  }

  lemma ReadableParts(blocks: seq<(string, Block)>, rows: seq<seq<Cell>>, cpos: nat, vpos: nat, i: nat)
    requires Readable(blocks, rows, cpos, vpos) && i < |rows|
    ensures Readable(blocks, rows[..i], cpos, vpos) && Readable(blocks, rows[..i + 1], cpos, vpos)
    ensures Readable(blocks, rows[i + 1..], cpos, vpos) && Readable(blocks, rows[..i] + rows[i + 1..], cpos, vpos)
  {
    var rest := rows[..i] + rows[i + 1..];
    forall j | 0 <= j < |rest|
      ensures rest[j] == rows[if j < i then j else j + 1]
    {
    }
  }

  /**
   * A row whose variant fails the filter contributes to no record: the
   * sheet yields what it would yield without that row.
   */
  lemma {:induction false} FilteredRowIgnored(blocks: seq<(string, Block)>, rows: seq<seq<Cell>>, filter: VariantFilter, cpos: nat, vpos: nat, i: nat)
    requires Readable(blocks, rows, cpos, vpos)
    requires i < |rows| && !Matches(filter, rows[i][vpos])
    ensures Readable(blocks, rows[..i] + rows[i + 1..], cpos, vpos)
    ensures TableSamples(blocks, rows, filter, cpos, vpos) ==
      TableSamples(blocks, rows[..i] + rows[i + 1..], filter, cpos, vpos)
  {
    var before, upto, after := rows[..i], rows[..i + 1], rows[i + 1..];
    ReadableParts(blocks, rows, cpos, vpos, i);
    assert TableSamples(blocks, rows, filter, cpos, vpos) ==
      TableSamples(blocks, upto, filter, cpos, vpos) + TableSamples(blocks, after, filter, cpos, vpos) by {
      assert rows == upto + after;
      TableSamplesAppend(blocks, upto, after, filter, cpos, vpos);
    }
    assert TableSamples(blocks, upto, filter, cpos, vpos) == TableSamples(blocks, before, filter, cpos, vpos) by {
      assert upto[..i] == before && upto[i] == rows[i];
    }
    assert TableSamples(blocks, before + after, filter, cpos, vpos) ==
      TableSamples(blocks, before, filter, cpos, vpos) + TableSamples(blocks, after, filter, cpos, vpos) by {
      TableSamplesAppend(blocks, before, after, filter, cpos, vpos);
    }
  }

  /** Sample `s` is what block `b` reads from `row`. */
  ghost predicate ReadFrom(b: (string, Block), row: seq<Cell>, cpos: nat, s: Sample) {
    cpos < |row| && b.1.valueCol < |row| && b.1.complianceCol < |row| &&
    s.pesticide == b.0 && s.commodity == row[cpos] &&
    ParseValue(row[b.1.valueCol]) == Some(s.value) &&
    s.unsafe == IsUnsafe(row[b.1.complianceCol])
  }

  lemma {:induction false} RowSampleOrigin(blocks: seq<(string, Block)>, row: seq<Cell>, cpos: nat, s: Sample)
    requires cpos < |row|
    requires forall k :: 0 <= k < |blocks| ==> blocks[k].1.valueCol < |row| && blocks[k].1.complianceCol < |row|
    requires s in RowSamples(blocks, row, row[cpos])
    ensures exists k :: 0 <= k < |blocks| && ReadFrom(blocks[k], row, cpos, s)
  {
    var n := |blocks| - 1;
    if s in RowSamples(blocks[..n], row, row[cpos]) {
      RowSampleOrigin(blocks[..n], row, cpos, s);
      var k :| 0 <= k < n && ReadFrom(blocks[..n][k], row, cpos, s);
      assert ReadFrom(blocks[k], row, cpos, s);
    } else {
      assert ReadFrom(blocks[n], row, cpos, s);
    }
  }

  /**
   * Every sample comes from a row whose variant passed the filter and from
   * a registered value cell that parsed to its value; its commodity and its
   * compliance flag are that row's.
   */
  lemma {:induction false} SampleOrigin(blocks: seq<(string, Block)>, rows: seq<seq<Cell>>, filter: VariantFilter, cpos: nat, vpos: nat, s: Sample)
    requires Readable(blocks, rows, cpos, vpos)
    requires s in TableSamples(blocks, rows, filter, cpos, vpos)
    ensures exists j, k ::
      0 <= j < |rows| && 0 <= k < |blocks| && Matches(filter, rows[j][vpos]) && ReadFrom(blocks[k], rows[j], cpos, s)
  {
    var n := |rows| - 1;
    if s in TableSamples(blocks, rows[..n], filter, cpos, vpos) {
      SampleOrigin(blocks, rows[..n], filter, cpos, vpos, s);
      var j, k :| 0 <= j < n && 0 <= k < |blocks| && Matches(filter, rows[..n][j][vpos]) && ReadFrom(blocks[k], rows[..n][j], cpos, s);
      assert rows[..n][j] == rows[j];
    } else {
      RowSampleOrigin(blocks, rows[n], cpos, s);
    }
  }
  // The converse: which cells do contribute.

  /** A block whose value cell parses yields its sample. */
  lemma {:induction false} RowSampleIncluded(blocks: seq<(string, Block)>, row: seq<Cell>, commodity: Cell, k: nat)
    requires forall k :: 0 <= k < |blocks| ==> blocks[k].1.valueCol < |row| && blocks[k].1.complianceCol < |row|
    requires k < |blocks| && ParseValue(row[blocks[k].1.valueCol]).Some?
    ensures Sample(blocks[k].0, commodity, ParseValue(row[blocks[k].1.valueCol]).value, IsUnsafe(row[blocks[k].1.complianceCol]))
      in RowSamples(blocks, row, commodity)
  {
    var n := |blocks| - 1;
    if k < n {
      RowSampleIncluded(blocks[..n], row, commodity, k);
      assert blocks[..n][k] == blocks[k];
    }
  }

  /**
   * Every registered block whose value cell parses, in every row whose
   * variant passes the filter, yields a sample: the block's pesticide, the
   * row's commodity, the parsed value and the block's compliance flag.
   */
  lemma {:induction false} SampleIncluded(blocks: seq<(string, Block)>, rows: seq<seq<Cell>>, filter: VariantFilter,
                                          cpos: nat, vpos: nat, j: nat, k: nat)
    requires Readable(blocks, rows, cpos, vpos)
    requires j < |rows| && k < |blocks| && Matches(filter, rows[j][vpos])
    requires ParseValue(rows[j][blocks[k].1.valueCol]).Some?
    ensures Sample(blocks[k].0, rows[j][cpos], ParseValue(rows[j][blocks[k].1.valueCol]).value,
                   IsUnsafe(rows[j][blocks[k].1.complianceCol])) in TableSamples(blocks, rows, filter, cpos, vpos)
  {
    var n := |rows| - 1;
    if j < n {
      assert rows[..n][j] == rows[j];
      SampleIncluded(blocks, rows[..n], filter, cpos, vpos, j, k);
    } else {
      RowSampleIncluded(blocks, rows[n], rows[n][cpos], k);
    }
  }

  /** The samples of one key in two stretches of samples are those of each, in order. */
  lemma {:induction false} MatchingAppend(a: seq<Sample>, b: seq<Sample>, p: string, c: Cell)
    ensures Matching(a + b, p, c) == Matching(a, p, c) + Matching(b, p, c)
  {
    if b == [] {
      assert a + b == a;
    } else {
      var n := |b| - 1;
      assert (a + b)[..|a + b| - 1] == a + b[..n];
      MatchingAppend(a, b[..n], p, c);
    }
  }

  /** No two blocks are registered under the same name, as in a dict. */
  ghost predicate DistinctNames(blocks: seq<(string, Block)>) {
    forall i, j :: 0 <= i < j < |blocks| ==> blocks[i].0 != blocks[j].0
  }

  /** How many rows pass the filter, have commodity `c`, and hold a value that parses in column `col`. */
  function CountedRows(rows: seq<seq<Cell>>, filter: VariantFilter, cpos: nat, vpos: nat, col: nat, c: Cell): nat {
    if rows == [] then 0
    else
      var row := rows[|rows| - 1];
      CountedRows(rows[..|rows| - 1], filter, cpos, vpos, col, c) +
      (if cpos < |row| && vpos < |row| && col < |row| &&
          Matches(filter, row[vpos]) && row[cpos] == c && ParseValue(row[col]).Some? then 1 else 0)
  }

  lemma {:induction false} RowNoMatch(blocks: seq<(string, Block)>, row: seq<Cell>, commodity: Cell, p: string, c: Cell)
    requires forall k :: 0 <= k < |blocks| ==> blocks[k].1.valueCol < |row| && blocks[k].1.complianceCol < |row|
    requires forall k :: 0 <= k < |blocks| ==> blocks[k].0 != p
    ensures Matching(RowSamples(blocks, row, commodity), p, c) == []
  {
    if blocks != [] {
      var n := |blocks| - 1;
      RowNoMatch(blocks[..n], row, commodity, p, c);
      var earlier := RowSamples(blocks[..n], row, commodity);
      var parsed := ParseValue(row[blocks[n].1.valueCol]);
      if parsed.Some? {
        var s := Sample(blocks[n].0, commodity, parsed.value, IsUnsafe(row[blocks[n].1.complianceCol]));
        assert (earlier + [s])[..|earlier|] == earlier;
      }
    }
  }

  /** One row counts once for the key of block `k` when its value cell parses, and not at all otherwise. */
  lemma {:induction false} RowMatchCount(blocks: seq<(string, Block)>, row: seq<Cell>, commodity: Cell, k: nat, c: Cell)
    requires forall k :: 0 <= k < |blocks| ==> blocks[k].1.valueCol < |row| && blocks[k].1.complianceCol < |row|
    requires DistinctNames(blocks) && k < |blocks|
    ensures |Matching(RowSamples(blocks, row, commodity), blocks[k].0, c)| ==
      if commodity == c && ParseValue(row[blocks[k].1.valueCol]).Some? then 1 else 0
  {
    var p := blocks[k].0;
    var n := |blocks| - 1;
    var earlier := RowSamples(blocks[..n], row, commodity);
    if k == n {
      RowNoMatch(blocks[..n], row, commodity, p, c);
    } else {
      assert blocks[..n][k] == blocks[k];
      RowMatchCount(blocks[..n], row, commodity, k, c);
      assert blocks[n].0 != p;
    }
    var parsed := ParseValue(row[blocks[n].1.valueCol]);
    if parsed.Some? {
      var s := Sample(blocks[n].0, commodity, parsed.value, IsUnsafe(row[blocks[n].1.complianceCol]));
      assert (earlier + [s])[..|earlier|] == earlier;
    }
  }

  lemma {:induction false} TableNoMatch(blocks: seq<(string, Block)>, rows: seq<seq<Cell>>, filter: VariantFilter,
                                        cpos: nat, vpos: nat, p: string, c: Cell)
    requires Readable(blocks, rows, cpos, vpos)
    requires forall k :: 0 <= k < |blocks| ==> blocks[k].0 != p
    ensures Matching(TableSamples(blocks, rows, filter, cpos, vpos), p, c) == []
  {
    if rows != [] {
      var n := |rows| - 1;
      TableNoMatch(blocks, rows[..n], filter, cpos, vpos, p, c);
      var row := rows[n];
      if Matches(filter, row[vpos]) {
        RowNoMatch(blocks, row, row[cpos], p, c);
      }
      MatchingAppend(TableSamples(blocks, rows[..n], filter, cpos, vpos),
                     if Matches(filter, row[vpos]) then RowSamples(blocks, row, row[cpos]) else [], p, c);
    }
  }

  /**
   * The number of samples of the pesticide of block `k` on commodity `c` is
   * the number of rows that pass the filter, have commodity `c`, and hold a
   * value that parses in that block's value column.
   */
  lemma {:induction false} TableMatchCount(blocks: seq<(string, Block)>, rows: seq<seq<Cell>>, filter: VariantFilter,
                                           cpos: nat, vpos: nat, k: nat, c: Cell)
    requires Readable(blocks, rows, cpos, vpos)
    requires DistinctNames(blocks) && k < |blocks|
    ensures |Matching(TableSamples(blocks, rows, filter, cpos, vpos), blocks[k].0, c)| ==
      CountedRows(rows, filter, cpos, vpos, blocks[k].1.valueCol, c)
  {
    if rows != [] {
      var n := |rows| - 1;
      var p := blocks[k].0;
      TableMatchCount(blocks, rows[..n], filter, cpos, vpos, k, c);
      var row := rows[n];
      var last := if Matches(filter, row[vpos]) then RowSamples(blocks, row, row[cpos]) else [];
      MatchingAppend(TableSamples(blocks, rows[..n], filter, cpos, vpos), last, p, c);
      if Matches(filter, row[vpos]) {
        RowMatchCount(blocks, row, row[cpos], k, c);
      }
    }
  }
}
