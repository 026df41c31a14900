/**
 * The first phase of `process_data`: walking the column range in steps of
 * three and recording, per pesticide name, where its value column and its
 * compliance column are.
 */
module Registration {
  import opened Wrappers
  import opened OrderedMaps

  /** The exceptions `process_data` can raise. */
  datatype Error =
    | IndexError(index: int)   // `headers[i]` with `i` before the first column
    | KeyError(column: string) // `row[name]` for a column the sheet does not have

  /** Where a pesticide's two columns sit (`valueIndex`, `complianceIndex`). */
  datatype Block = Block(valueCol: nat, complianceCol: nat)

  /** `pesticide_indexes`: pesticide name to its block, in insertion order. */
  type Blocks = OrderedMap<string, Block>

  function Min(a: int, b: int): int { if a < b then a else b }

  /**
   * Python indexing of a sequence of length `n`: a negative index counts
   * from the end, anything outside `-n <= i < n` raises.
   */
  function PyIndex(i: int, n: nat): (r: Option<nat>)
    ensures r.Some? <==> -(n as int) <= i < n
    ensures r.Some? ==> r.value < n && r.value as int == (if i < 0 then i + n else i)
  {
    if 0 <= i < n then Some(i) else if -(n as int) <= i < 0 then Some((i + n) as nat) else None
  }

  /** The column after `v`, wrapping round to the first. */
  function NextCol(v: nat, n: nat): nat {
    if v + 1 < n then v + 1 else 0
  }

  /** Every block lies within the header row, its compliance column right after its value column (cyclically). */
  ghost predicate BlocksFit(d: Blocks, n: nat) {
    forall name :: name in d.entries ==>
      d.entries[name].valueCol < n && d.entries[name].complianceCol < n &&
      d.entries[name].complianceCol == NextCol(d.entries[name].valueCol, n)
  }

  /**
   * The registration loop from index `i` on, with `d` registered so far:
   * `headers[i]` is read first (and may raise), a stride whose compliance
   * column would be past the last column is skipped, and a name seen again
   * is re-assigned in place.
   */
  function RegisterFrom(headers: seq<string>, d: Blocks, i: int, stop: int): (r: Result<Blocks, Error>)
    requires Valid(d) && BlocksFit(d, |headers|)
    ensures r.Ok? ==> Valid(r.value) && BlocksFit(r.value, |headers|)
    decreases stop - i
  {
    if i >= stop then Ok(d)
    else match PyIndex(i, |headers|)
      case None => Err(IndexError(i))
      case Some(p) =>
        if i + 1 >= |headers| then RegisterFrom(headers, d, i + 3, stop)
        else
          var c := PyIndex(i + 1, |headers|).value;
          RegisterFrom(headers, Put(d, headers[p], Block(p, c)), i + 3, stop)
  }

  /** `pesticide_indexes` after the loop over `range(start, min(end, len(headers)), 3)`. */
  function Register(headers: seq<string>, start: int, end: int): (r: Result<Blocks, Error>)
    ensures r.Ok? ==> Valid(r.value) && BlocksFit(r.value, |headers|)
  {
    RegisterFrom(headers, Empty(), start, Min(end, |headers|))
  }

  /** The registration loop (organic_normal.py, lines 43-52). */
  method RegisterPesticides(headers: seq<string>, start: int, end: int) returns (r: Result<Blocks, Error>)
    ensures r == Register(headers, start, end)
  {
    var n := |headers|;
    var stop := Min(end, n);
    var indexes: Blocks := Empty();
    var i := start;
    while i < stop
      invariant Valid(indexes) && BlocksFit(indexes, n)
      invariant RegisterFrom(headers, indexes, i, stop) == Register(headers, start, end)
      decreases stop - i
    {
      if i < -n {
        return Err(IndexError(i));
      }
      var name := headers[if i < 0 then i + n else i];
      if i + 1 >= n {
        i := i + 3;
        continue;
      }
      var valueIndex := if i < 0 then i + n else i;
      var complianceIndex := if i + 1 < 0 then i + 1 + n else i + 1;
      indexes := Put(indexes, name, Block(valueIndex, complianceIndex));
      i := i + 3;
    }
    return Ok(indexes);
  }

  /** An empty or inverted range registers nothing. */
  lemma EmptyRange(headers: seq<string>, start: int, end: int)
    requires start >= Min(end, |headers|)
    ensures Register(headers, start, end) == Ok(Empty())
  {
  }

  /**
   * Registration fails exactly when the range is not empty and starts before
   * the first column counted from the end, and then at its first index.
   */
  lemma {:induction false} RegisterFailsAtStart(headers: seq<string>, start: int, end: int)
    ensures Register(headers, start, end).Err? <==> start < Min(end, |headers|) && start < -(|headers| as int)
    ensures Register(headers, start, end).Err? ==> Register(headers, start, end).error == IndexError(start)
  {
    if start < Min(end, |headers|) && start >= -|headers| {
      NoFailureFrom(headers, Empty(), start, Min(end, |headers|));
    }
  }

  lemma {:induction false} NoFailureFrom(headers: seq<string>, d: Blocks, i: int, stop: int)
    requires Valid(d) && BlocksFit(d, |headers|)
    requires i >= -(|headers| as int) && stop <= |headers|
    ensures RegisterFrom(headers, d, i, stop).Ok?
    decreases stop - i
  {
    if i < stop {
      assert PyIndex(i, |headers|).Some?;
      var p := PyIndex(i, |headers|).value;
      if i + 1 >= |headers| {
        NoFailureFrom(headers, d, i + 3, stop);
      } else {
        var c := PyIndex(i + 1, |headers|).value;
        NoFailureFrom(headers, Put(d, headers[p], Block(p, c)), i + 3, stop);
      }
    }
  }

  /** `i` is one of `range(start, stop, 3)`. */
  predicate InStride(i: int, start: int, stop: int) {
    0 <= start <= i < stop && (i - start) % 3 == 0
  }

  /** What a range starting at a non-negative index registered so far, from `start` up to `i`. */
  ghost predicate RegisteredUpTo(headers: seq<string>, d: Blocks, start: int, i: int, stop: int) {
    (forall name :: name in d.entries ==>
      InStride(d.entries[name].valueCol, start, stop) && d.entries[name].valueCol < i &&
      d.entries[name].complianceCol == d.entries[name].valueCol + 1 < |headers| &&
      headers[d.entries[name].valueCol] == name) &&
    (forall j :: InStride(j, start, stop) && j < i && j + 1 < |headers| ==> headers[j] in d.entries)
  }

  /** Consecutive indices of one stride are three apart. */
  lemma StrideGap(j: int, i: int, start: int)
    requires (j - start) % 3 == 0 && (i - start) % 3 == 0 && j < i + 3
    ensures j <= i
  {
    var a, b := (j - start) / 3, (i - start) / 3;
    assert j - start == 3 * a && i - start == 3 * b;
  }

  /** Skipping index `i`, which has no column after it, keeps what was registered. */
  lemma RegisterSkipKeeps(headers: seq<string>, d: Blocks, start: int, i: int, stop: int)
    requires 0 <= start <= i && (i - start) % 3 == 0 && i < stop && i + 1 >= |headers|
    requires RegisteredUpTo(headers, d, start, i, stop)
    ensures RegisteredUpTo(headers, d, start, i + 3, stop)
  {
    forall j | InStride(j, start, stop) && j < i + 3 && j + 1 < |headers|
      ensures headers[j] in d.entries
    {
      StrideGap(j, i, start);
    }
  }

  /** Registering index `i` under `headers[i]` extends what was registered by it. */
  lemma RegisterPutKeeps(headers: seq<string>, d: Blocks, start: int, i: int, stop: int)
    requires 0 <= start <= i && (i - start) % 3 == 0 && i < stop && i + 1 < |headers|
    requires RegisteredUpTo(headers, d, start, i, stop)
    ensures RegisteredUpTo(headers, Put(d, headers[i], Block(i, i + 1)), start, i + 3, stop)
  {
    var d' := Put(d, headers[i], Block(i, i + 1));
    forall j | InStride(j, start, stop) && j < i + 3 && j + 1 < |headers|
      ensures headers[j] in d'.entries
    {
      StrideGap(j, i, start);
    }
  }

  lemma {:induction false} RegisteredFrom(headers: seq<string>, d: Blocks, start: int, i: int, stop: int)
    requires 0 <= start <= i && (i - start) % 3 == 0 && stop <= |headers|
    requires Valid(d) && BlocksFit(d, |headers|)
    requires RegisteredUpTo(headers, d, start, i, stop)
    ensures RegisterFrom(headers, d, i, stop).Ok?
    ensures RegisteredUpTo(headers, RegisterFrom(headers, d, i, stop).value, start, stop, stop)
    decreases stop - i
  {
    if i >= stop {
      assert RegisterFrom(headers, d, i, stop) == Ok(d);
      forall j | InStride(j, start, stop) && j + 1 < |headers|
        ensures headers[j] in d.entries
      {
        assert j < i;
      }
    } else if i + 1 >= |headers| {
      RegisterSkipKeeps(headers, d, start, i, stop);
      RegisteredFrom(headers, d, start, i + 3, stop);
    } else {
      RegisterPutKeeps(headers, d, start, i, stop);
      RegisteredFrom(headers, Put(d, headers[i], Block(i, i + 1)), start, i + 3, stop);
    }
  }

  /**
   * From a non-negative start, registration never fails and registers
   * exactly the indices `i` of `range(start, min(end, len(headers)), 3)` that
   * have a column after them: under the name `headers[i]`, with value
   * column `i` and compliance column `i + 1`.
   */
  lemma RegisteredBlocks(headers: seq<string>, start: int, end: int)
    requires 0 <= start
    ensures Register(headers, start, end).Ok?
    ensures var d := Register(headers, start, end).value;
      (forall name :: name in d.entries ==>
        InStride(d.entries[name].valueCol, start, Min(end, |headers|)) &&
        d.entries[name].complianceCol == d.entries[name].valueCol + 1 < |headers| &&
        headers[d.entries[name].valueCol] == name) &&
      (forall i :: InStride(i, start, Min(end, |headers|)) && i + 1 < |headers| ==> headers[i] in d.entries)
  {
    RegisteredFrom(headers, Empty(), start, start, Min(end, |headers|));
  }
}
