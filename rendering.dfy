/**
 * The last phase of `process_data`: flattening `pesticide_data` into
 * numbered report rows, pesticides in their dict order and, within one,
 * commodities in theirs.
 */
module Rendering {
  import opened Wrappers
  import opened Cells
  import opened OrderedMaps
  import opened Tally

  /** A min or max cell of the report: an amount in mg/kg, or "No Residue". */
  datatype Amount = Residue(mgPerKg: real) | NoResidue

  /** One line of the report, `percentUnsafe` kept exact rather than formatted. */
  datatype ReportRow = ReportRow(
    serial: nat, pesticide: string, commodity: Cell,
    min: Amount, max: Amount, unsafe: nat, total: nat, percentUnsafe: real)

  /** The returned DataFrame: its column titles and its rows. */
  datatype Report = Report(columns: seq<string>, rows: seq<ReportRow>)

  /** The column titles; the second names the kind of pesticide the report is about. */
  function Columns(typeName: string): (cs: seq<string>)
    ensures |cs| == 8 && cs[1] == typeName + " Pesticide Residues"
  {
    ["S. No", typeName + " Pesticide Residues", "Name of Spice",
     "Min Amount (mg/kg)", "Max Amount (mg/kg)", "No. of unsafe", "Total Samples", "% Unsafe"]
  }

  function Shown(v: Option<real>): Amount {
    if v.Some? then Residue(v.value) else NoResidue
  }

  /** `unsafe / total * 100`, falling back to 0 for a record that counted nothing. */
  function Percent(r: Record): real {
    if r.total > 0 then r.unsafe as real / r.total as real * 100.0 else 0.0
  }

  /** A record together with its two keys. */
  datatype Entry = Entry(pesticide: string, commodity: Cell, record: Record)

  function ToRow(serial: nat, e: Entry): ReportRow {
    ReportRow(serial, e.pesticide, e.commodity, Shown(e.record.min), Shown(e.record.max),
              e.record.unsafe, e.record.total, Percent(e.record))
  }

  /** The entries of pesticide `p`, commodities in the order `cs` gives them. */
  function PestEntries(p: string, cs: seq<Cell>, m: map<Cell, Record>): seq<Entry>
    requires forall i :: 0 <= i < |cs| ==> cs[i] in m
  {
    if cs == [] then []
    else PestEntries(p, cs[..|cs| - 1], m) + [Entry(p, cs[|cs| - 1], m[cs[|cs| - 1]])]
  }

  ghost predicate AllValid(ps: seq<string>, d: map<string, OrderedMap<Cell, Record>>) {
    forall i :: 0 <= i < |ps| ==> ps[i] in d && Valid(d[ps[i]])
  }

  /** The entries of the pesticides `ps`, one pesticide after the other. */
  function AllEntries(ps: seq<string>, d: map<string, OrderedMap<Cell, Record>>): seq<Entry>
    requires AllValid(ps, d)
  {
    if ps == [] then []
    else
      var p := ps[|ps| - 1];
      AllEntries(ps[..|ps| - 1], d) + PestEntries(p, d[p].keys, d[p].entries)
  }

  /** The entries as rows, numbered from `serial` on. */
  function Numbered(es: seq<Entry>, serial: nat): seq<ReportRow> {
    if es == [] then [] else [ToRow(serial, es[0])] + Numbered(es[1..], serial + 1)
  }

  /** `results[1:]`: every record of `pesticide_data` as a numbered row. */
  function Render(d: Data): seq<ReportRow>
    requires ValidData(d)
  {
    Numbered(AllEntries(d.keys, d.entries), 1)
  }

  lemma {:induction false} NumberedLength(es: seq<Entry>, serial: nat)
    ensures |Numbered(es, serial)| == |es|
  {
    if es != [] {
      NumberedLength(es[1..], serial + 1);
    }
  }

  /** The `n`-th row carries serial number `serial + n` and shows the `n`-th entry. */
  lemma {:induction false} NumberedAt(es: seq<Entry>, serial: nat, n: nat)
    requires n < |es|
    ensures |Numbered(es, serial)| == |es|
    ensures Numbered(es, serial)[n] == ToRow(serial + n, es[n])
  {
    if n > 0 {
      NumberedAt(es[1..], serial + 1, n - 1);
    } else if |es| > 1 {
      NumberedAt(es[1..], serial + 1, 0);
    }
  }

  lemma {:induction false} NumberedSnoc(es: seq<Entry>, e: Entry, serial: nat)
    ensures Numbered(es + [e], serial) == Numbered(es, serial) + [ToRow(serial + |es|, e)]
  {
    if es != [] {
      assert (es + [e])[1..] == es[1..] + [e];
      NumberedSnoc(es[1..], e, serial + 1);
    }
  }

  lemma {:induction false} EmitStep(done: seq<Entry>, p: string, cs: seq<Cell>, m: map<Cell, Record>, l: nat)
    requires l < |cs| && forall i :: 0 <= i < |cs| ==> cs[i] in m
    ensures var before := done + PestEntries(p, cs[..l], m);
      Numbered(done + PestEntries(p, cs[..l + 1], m), 1) ==
      Numbered(before, 1) + [ToRow(|before| + 1, Entry(p, cs[l], m[cs[l]]))] &&
      |done + PestEntries(p, cs[..l + 1], m)| == |before| + 1
  {
    assert cs[..l + 1][..l] == cs[..l];
    var before := done + PestEntries(p, cs[..l], m);
    assert done + PestEntries(p, cs[..l + 1], m) == before + [Entry(p, cs[l], m[cs[l]])];
    NumberedSnoc(before, Entry(p, cs[l], m[cs[l]]), 1);
  }

  /** The inner emission loop, over the commodities of one pesticide (organic_normal.py, lines 98-106). */
  method EmitPesticide(pest: string, commodities: OrderedMap<Cell, Record>, rows: seq<ReportRow>, ghost done: seq<Entry>)
    returns (rows': seq<ReportRow>)
    requires Valid(commodities)
    requires rows == Numbered(done, 1) && |rows| == |done|
    ensures rows' == Numbered(done + PestEntries(pest, commodities.keys, commodities.entries), 1)
    ensures |rows'| == |done + PestEntries(pest, commodities.keys, commodities.entries)|
  {
    rows' := rows;
    var sn := |rows| + 1;
    ghost var emitted := done;
    assert done + PestEntries(pest, commodities.keys[..0], commodities.entries) == done;
    for l := 0 to |commodities.keys|
      invariant emitted == done + PestEntries(pest, commodities.keys[..l], commodities.entries)
      invariant sn == |rows'| + 1 && |rows'| == |emitted|
      invariant rows' == Numbered(emitted, 1)
    {
      var commodity := commodities.keys[l];
      var rec := commodities.entries[commodity];
      var percent := if rec.total > 0 then rec.unsafe as real / rec.total as real * 100.0 else 0.0;
      EmitStep(done, pest, commodities.keys, commodities.entries, l);
      assert ToRow(sn, Entry(pest, commodity, rec)) ==
        ReportRow(sn, pest, commodity,
                  if rec.min.Some? then Residue(rec.min.value) else NoResidue,
                  if rec.max.Some? then Residue(rec.max.value) else NoResidue,
                  rec.unsafe, rec.total, percent);
      rows' := rows' + [ReportRow(sn, pest, commodity,
                                  if rec.min.Some? then Residue(rec.min.value) else NoResidue,
                                  if rec.max.Some? then Residue(rec.max.value) else NoResidue,
                                  rec.unsafe, rec.total, percent)];
      emitted := done + PestEntries(pest, commodities.keys[..l + 1], commodities.entries);
      sn := sn + 1;
    }
    assert commodities.keys[..|commodities.keys|] == commodities.keys;
  }

  lemma {:induction false} RenderValid(d: Data, j: nat)
    requires ValidData(d) && j <= |d.keys|
    ensures AllValid(d.keys[..j], d.entries)
  {
  }

  /** The emission loop (organic_normal.py, lines 96-106). */
  method EmitRows(d: Data) returns (rows: seq<ReportRow>)
    requires ValidData(d)
    ensures rows == Render(d)
  {
    rows := [];
    for j := 0 to |d.keys|
      invariant AllValid(d.keys[..j], d.entries)
      invariant |rows| == |AllEntries(d.keys[..j], d.entries)|
      invariant rows == Numbered(AllEntries(d.keys[..j], d.entries), 1)
    {
      var pest := d.keys[j];
      RenderValid(d, j + 1);
      assert d.keys[..j + 1][..j] == d.keys[..j];
      rows := EmitPesticide(pest, d.entries[pest], rows, AllEntries(d.keys[..j], d.entries));
    }
    assert d.keys[..|d.keys|] == d.keys;
  }

  /** Entry `e` is a record of `d`, under its own two keys. */
  ghost predicate Holds(d: map<string, OrderedMap<Cell, Record>>, e: Entry) {
    e.pesticide in d && e.commodity in d[e.pesticide].entries &&
    e.record == d[e.pesticide].entries[e.commodity]
  }

  lemma {:induction false} PestEntriesAt(p: string, cs: seq<Cell>, m: map<Cell, Record>)
    requires forall i :: 0 <= i < |cs| ==> cs[i] in m
    ensures |PestEntries(p, cs, m)| == |cs|
    ensures forall i :: 0 <= i < |cs| ==> PestEntries(p, cs, m)[i] == Entry(p, cs[i], m[cs[i]])
  {
    if cs != [] {
      PestEntriesAt(p, cs[..|cs| - 1], m);
    }
  }

  lemma {:induction false} AllEntriesSplit(ps: seq<string>, d: map<string, OrderedMap<Cell, Record>>)
    requires AllValid(ps, d) && ps != []
    ensures AllValid(ps[..|ps| - 1], d)
    ensures var p := ps[|ps| - 1];
      AllEntries(ps, d) == AllEntries(ps[..|ps| - 1], d) + PestEntries(p, d[p].keys, d[p].entries)
    ensures var p := ps[|ps| - 1];
      |PestEntries(p, d[p].keys, d[p].entries)| == |d[p].keys| &&
      forall i :: 0 <= i < |d[p].keys| ==> PestEntries(p, d[p].keys, d[p].entries)[i] == Entry(p, d[p].keys[i], d[p].entries[d[p].keys[i]])
  {
    var p := ps[|ps| - 1];
    PestEntriesAt(p, d[p].keys, d[p].entries);
  }

  /** Each entry of the pesticides `ps` is a record of `d`, under one of `ps`. */
  lemma {:induction false} AllEntriesSound(ps: seq<string>, d: map<string, OrderedMap<Cell, Record>>)
    requires AllValid(ps, d)
    ensures forall j :: 0 <= j < |AllEntries(ps, d)| ==> AllEntries(ps, d)[j].pesticide in ps && Holds(d, AllEntries(ps, d)[j])
  {
    if ps != [] {
      var init := ps[..|ps| - 1];
      var p := ps[|ps| - 1];
      AllEntriesSplit(ps, d);
      AllEntriesSound(init, d);
      var earlier := AllEntries(init, d);
      var mine := PestEntries(p, d[p].keys, d[p].entries);
      var es := earlier + mine;
      forall j | 0 <= j < |es|
        ensures es[j].pesticide in ps && Holds(d, es[j])
      {
        if j >= |earlier| {
          assert es[j] == mine[j - |earlier|];
        } else {
          assert es[j] == earlier[j];
        }
      }
    }
  }

  /** Every record of the pesticides `ps` has an entry. */
  lemma {:induction false} AllEntriesComplete(ps: seq<string>, d: map<string, OrderedMap<Cell, Record>>, i: nat, c: Cell)
    requires AllValid(ps, d)
    requires i < |ps| && c in d[ps[i]].entries
    ensures var es := AllEntries(ps, d);
      exists j :: 0 <= j < |es| && es[j].pesticide == ps[i] && es[j].commodity == c
  {
    var init := ps[..|ps| - 1];
    var p := ps[|ps| - 1];
    AllEntriesSplit(ps, d);
    var earlier := AllEntries(init, d);
    var mine := PestEntries(p, d[p].keys, d[p].entries);
    var es := earlier + mine;
    if i < |ps| - 1 {
      AllEntriesComplete(init, d, i, c);
      var j :| 0 <= j < |earlier| && earlier[j].pesticide == init[i] && earlier[j].commodity == c;
      assert es[j] == earlier[j];
    } else {
      var k :| 0 <= k < |d[p].keys| && d[p].keys[k] == c;
      assert es[|earlier| + k] == mine[k];
    }
  }

  /** No two entries of the pesticides `ps` share both keys. */
  lemma {:induction false} AllEntriesDistinct(ps: seq<string>, d: map<string, OrderedMap<Cell, Record>>)
    requires AllValid(ps, d) && NoDuplicates(ps)
    ensures forall i, j :: 0 <= i < j < |AllEntries(ps, d)| ==>
      AllEntries(ps, d)[i].pesticide != AllEntries(ps, d)[j].pesticide ||
      AllEntries(ps, d)[i].commodity != AllEntries(ps, d)[j].commodity
  {
    if ps != [] {
      var init := ps[..|ps| - 1];
      var p := ps[|ps| - 1];
      AllEntriesSplit(ps, d);
      AllEntriesDistinct(init, d);
      AllEntriesSound(init, d);
      var earlier := AllEntries(init, d);
      var mine := PestEntries(p, d[p].keys, d[p].entries);
      var es := earlier + mine;
      assert p !in init;
      forall i, j | 0 <= i < j < |es|
        ensures es[i].pesticide != es[j].pesticide || es[i].commodity != es[j].commodity
      {
        if j >= |earlier| {
          assert es[j] == mine[j - |earlier|];
          if i >= |earlier| {
            assert es[i] == mine[i - |earlier|];
          } else {
            assert es[i] == earlier[i];
          }
        } else {
          assert es[i] == earlier[i] && es[j] == earlier[j];
        }
      }
    }
  }

  /** `x` occurs in `xs` at some position before one where `y` occurs. */
  ghost predicate Before<T>(xs: seq<T>, x: T, y: T) {
    exists a, b :: 0 <= a < b < |xs| && xs[a] == x && xs[b] == y
  }

  /**
   * Entries come pesticide by pesticide in the order of `ps`, and within
   * one pesticide in the order of its commodities: any two entries `i < j`
   * are in that order.
   */
  lemma {:induction false} EntryOrder(ps: seq<string>, d: map<string, OrderedMap<Cell, Record>>, i: nat, j: nat)
    requires AllValid(ps, d) && NoDuplicates(ps)
    requires i < j < |AllEntries(ps, d)|
    ensures var es := AllEntries(ps, d);
      es[i].pesticide in d &&
      (es[i].pesticide != es[j].pesticide ==> Before(ps, es[i].pesticide, es[j].pesticide)) &&
      (es[i].pesticide == es[j].pesticide ==> Before(d[es[i].pesticide].keys, es[i].commodity, es[j].commodity))
  {
    var n := |ps| - 1;
    var init := ps[..n];
    var p := ps[n];
    AllEntriesSplit(ps, d);
    var earlier := AllEntries(init, d);
    var mine := PestEntries(p, d[p].keys, d[p].entries);
    var es := earlier + mine;
    if j < |earlier| {
      EntryOrder(init, d, i, j);
      assert es[i] == earlier[i] && es[j] == earlier[j];
      if es[i].pesticide != es[j].pesticide {
        var a, b :| 0 <= a < b < |init| && init[a] == es[i].pesticide && init[b] == es[j].pesticide;
        assert ps[a] == init[a] && ps[b] == init[b];
      }
    } else if i < |earlier| {
      AllEntriesSound(init, d);
      assert p !in init;
      assert es[i] == earlier[i] && es[j] == mine[j - |earlier|];
      var a :| 0 <= a < |init| && init[a] == es[i].pesticide;
      assert ps[a] == init[a];
    } else {
      assert es[i] == mine[i - |earlier|] && es[j] == mine[j - |earlier|];
    }
  }

  /** Rows follow the order of the pesticides in `d`, then of each pesticide's commodities. */
  lemma {:induction false} RenderOrdered(d: Data)
    requires ValidData(d)
    ensures var rows := Render(d);
      forall i, j :: 0 <= i < j < |rows| ==>
        (rows[i].pesticide != rows[j].pesticide ==> Before(d.keys, rows[i].pesticide, rows[j].pesticide)) &&
        (rows[i].pesticide == rows[j].pesticide ==>
          rows[i].pesticide in d.entries && Before(d.entries[rows[i].pesticide].keys, rows[i].commodity, rows[j].commodity))
  {
    var es := AllEntries(d.keys, d.entries);
    NumberedLength(es, 1);
    var rows := Render(d);
    forall i, j | 0 <= i < j < |rows|
      ensures rows[i].pesticide != rows[j].pesticide ==> Before(d.keys, rows[i].pesticide, rows[j].pesticide)
      ensures rows[i].pesticide == rows[j].pesticide ==>
        rows[i].pesticide in d.entries && Before(d.entries[rows[i].pesticide].keys, rows[i].commodity, rows[j].commodity)
    {
      EntryOrder(d.keys, d.entries, i, j);
      NumberedAt(es, 1, i);
      NumberedAt(es, 1, j);
      assert rows[i].pesticide == es[i].pesticide && rows[i].commodity == es[i].commodity;
      assert rows[j].pesticide == es[j].pesticide && rows[j].commodity == es[j].commodity;
    }
  }

  /** Row `j` is numbered `j + 1` and shows the record of `d` under its own two keys. */
  lemma {:induction false} RenderRows(d: Data)
    requires ValidData(d)
    ensures var rows := Render(d);
      forall j :: 0 <= j < |rows| ==>
        rows[j].serial == j + 1 &&
        Lookup(d, rows[j].pesticide, rows[j].commodity).Some? &&
        rows[j] == ToRow(j + 1, Entry(rows[j].pesticide, rows[j].commodity, Lookup(d, rows[j].pesticide, rows[j].commodity).value))
  {
    var es := AllEntries(d.keys, d.entries);
    AllEntriesSound(d.keys, d.entries);
    NumberedLength(es, 1);
    var rows := Render(d);
    forall j | 0 <= j < |rows|
      ensures rows[j].serial == j + 1 &&
        Lookup(d, rows[j].pesticide, rows[j].commodity).Some? &&
        rows[j] == ToRow(j + 1, Entry(rows[j].pesticide, rows[j].commodity, Lookup(d, rows[j].pesticide, rows[j].commodity).value))
    {
      NumberedAt(es, 1, j);
    }
  }

  /** Every record of `pesticide_data` has a row. */
  lemma {:induction false} RenderComplete(d: Data)
    requires ValidData(d)
    ensures var rows := Render(d);
      forall p, c :: Lookup(d, p, c).Some? ==> exists j :: 0 <= j < |rows| && rows[j].pesticide == p && rows[j].commodity == c
  {
    var es := AllEntries(d.keys, d.entries);
    NumberedLength(es, 1);
    var rows := Render(d);
    forall p, c | Lookup(d, p, c).Some?
      ensures exists j :: 0 <= j < |rows| && rows[j].pesticide == p && rows[j].commodity == c
    {
      var i :| 0 <= i < |d.keys| && d.keys[i] == p;
      AllEntriesComplete(d.keys, d.entries, i, c);
      var j :| 0 <= j < |es| && es[j].pesticide == d.keys[i] && es[j].commodity == c;
      NumberedAt(es, 1, j);
    }
  }

  /** No record of `pesticide_data` has two rows. */
  lemma {:induction false} RenderDistinct(d: Data)
    requires ValidData(d)
    ensures var rows := Render(d);
      forall i, j :: 0 <= i < j < |rows| ==> rows[i].pesticide != rows[j].pesticide || rows[i].commodity != rows[j].commodity
  {
    var es := AllEntries(d.keys, d.entries);
    AllEntriesDistinct(d.keys, d.entries);
    NumberedLength(es, 1);
    var rows := Render(d);
    forall i, j | 0 <= i < j < |rows|
      ensures rows[i].pesticide != rows[j].pesticide || rows[i].commodity != rows[j].commodity
    {
      NumberedAt(es, 1, i);
      NumberedAt(es, 1, j);
    }
  }

  /**
   * What a row shows of a valid record: "No Residue" exactly when no sample
   * was unsafe, min at most max, and the unsafe share as a percentage
   * between 0 and 100.
   */
  lemma {:induction false} RowFacts(serial: nat, e: Entry)
    requires ValidRecord(e.record)
    ensures var row := ToRow(serial, e);
      (row.min == NoResidue <==> row.unsafe == 0) && (row.max == NoResidue <==> row.unsafe == 0) &&
      (row.min.Residue? && row.max.Residue? ==> row.min.mgPerKg <= row.max.mgPerKg) &&
      row.total >= 1 && row.unsafe <= row.total &&
      row.percentUnsafe == row.unsafe as real / row.total as real * 100.0 &&
      0.0 <= row.percentUnsafe <= 100.0
  {
    var r := e.record;
    assert r.unsafe as real / r.total as real <= 1.0 by {
      assert r.unsafe as real <= r.total as real;
    }
  }
}
