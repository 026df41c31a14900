/**
 * The column layout chosen on the preview sheet (organic_normal.py, lines
 * 28-32): the off-label pesticides run from a user-given column up to the
 * separator, the banned ones from just after the separator to the last
 * column. Every bound is exclusive, as `range` takes it.
 */
module Layout {
  import opened Wrappers
  import opened OrderedMaps
  import opened Registration

  /** The value the off-label start field shows until the user changes it. */
  const DefaultOfflabelStart: int := 29

  datatype Ranges = Ranges(offlabelStart: int, offlabelEnd: int, bannedStart: int, bannedEnd: int)

  /**
   * The four bounds, from the number of preview columns, the position of
   * the separator column among them and the off-label start.
   */
  function ResolveLayout(columnCount: nat, separatorIndex: nat, offlabelStart: int): (l: Ranges)
    requires separatorIndex < columnCount
    ensures l.offlabelStart == offlabelStart
    ensures l.offlabelEnd < separatorIndex < l.bannedStart && l.bannedEnd < columnCount
  {
    Ranges(offlabelStart, separatorIndex - 1, separatorIndex + 1, columnCount - 1)
  }

  /**
   * Whatever sheet the ranges are applied to, a non-negative off-label
   * start makes both registrations succeed, every off-label block (value
   * and compliance column) lies strictly before the separator and every
   * banned block strictly after it: the separator column is read by
   * neither, and no column is read by both.
   */
  lemma SeparatorExcluded(headers: seq<string>, columnCount: nat, separatorIndex: nat, offlabelStart: int)
    requires separatorIndex < columnCount && 0 <= offlabelStart
    ensures var l := ResolveLayout(columnCount, separatorIndex, offlabelStart);
      Register(headers, l.offlabelStart, l.offlabelEnd).Ok? && Register(headers, l.bannedStart, l.bannedEnd).Ok?
    ensures var l := ResolveLayout(columnCount, separatorIndex, offlabelStart);
      var off := Register(headers, l.offlabelStart, l.offlabelEnd).value;
      forall name :: name in off.entries ==>
        off.entries[name].valueCol < off.entries[name].complianceCol < separatorIndex
    ensures var l := ResolveLayout(columnCount, separatorIndex, offlabelStart);
      var ban := Register(headers, l.bannedStart, l.bannedEnd).value;
      forall name :: name in ban.entries ==>
        separatorIndex < ban.entries[name].valueCol < ban.entries[name].complianceCol
  {
    var l := ResolveLayout(columnCount, separatorIndex, offlabelStart);
    RegisteredBlocks(headers, l.offlabelStart, l.offlabelEnd);
    RegisteredBlocks(headers, l.bannedStart, l.bannedEnd);
  }

  /**
   * On a sheet with as many columns as the preview, neither range ever
   * reaches the skip for a block without a compliance column: every index
   * of either stride is registered under its header.
   */
  lemma NothingSkipped(headers: seq<string>, separatorIndex: nat, offlabelStart: int)
    requires separatorIndex < |headers| && 0 <= offlabelStart
    ensures var l := ResolveLayout(|headers|, separatorIndex, offlabelStart);
      Register(headers, l.offlabelStart, l.offlabelEnd).Ok? && Register(headers, l.bannedStart, l.bannedEnd).Ok?
    ensures var l := ResolveLayout(|headers|, separatorIndex, offlabelStart);
      var off := Register(headers, l.offlabelStart, l.offlabelEnd).value;
      forall i :: InStride(i, l.offlabelStart, Min(l.offlabelEnd, |headers|)) ==> headers[i] in off.entries
    ensures var l := ResolveLayout(|headers|, separatorIndex, offlabelStart);
      var ban := Register(headers, l.bannedStart, l.bannedEnd).value;
      forall i :: InStride(i, l.bannedStart, Min(l.bannedEnd, |headers|)) ==> headers[i] in ban.entries
  {
    var l := ResolveLayout(|headers|, separatorIndex, offlabelStart);
    RegisteredBlocks(headers, l.offlabelStart, l.offlabelEnd);
    RegisteredBlocks(headers, l.bannedStart, l.bannedEnd);
  }
  /**
   * With the default off-label start, the off-label blocks begin at column
   * 29 or later, and a separator at column 30 or before leaves the
   * off-label report without any pesticide.
   */
  lemma DefaultLayout(headers: seq<string>, separatorIndex: nat)
    requires separatorIndex < |headers|
    ensures var l := ResolveLayout(|headers|, separatorIndex, DefaultOfflabelStart);
      Register(headers, l.offlabelStart, l.offlabelEnd).Ok?
    ensures var l := ResolveLayout(|headers|, separatorIndex, DefaultOfflabelStart);
      var off := Register(headers, l.offlabelStart, l.offlabelEnd).value;
      forall name :: name in off.entries ==> DefaultOfflabelStart <= off.entries[name].valueCol
    ensures var l := ResolveLayout(|headers|, separatorIndex, DefaultOfflabelStart);
      separatorIndex <= DefaultOfflabelStart + 1 ==> Register(headers, l.offlabelStart, l.offlabelEnd) == Ok(Empty())
  {
    var l := ResolveLayout(|headers|, separatorIndex, DefaultOfflabelStart);
    RegisteredBlocks(headers, l.offlabelStart, l.offlabelEnd);
    if separatorIndex <= DefaultOfflabelStart + 1 {
      EmptyRange(headers, l.offlabelStart, l.offlabelEnd);
    }
  }

  /**
   * The off-label start is not checked to be non-negative, and a negative
   * one counts from the end of the header row: on a ten-column sheet with
   * the separator at column 5, a start of -2 registers the pesticide of
   * column 8, after the separator, in the off-label report, with column 9
   * as its compliance column.
   */
  lemma NegativeStartWraps()
    ensures var headers := ["a", "b", "c", "d", "e", "f", "g", "h", "i", "j"];
      var l := ResolveLayout(10, 5, -2);
      var off := Register(headers, l.offlabelStart, l.offlabelEnd);
      off.Ok? && "i" in off.value.entries && off.value.entries["i"] == Block(8, 9) && 5 < off.value.entries["i"].valueCol
  {
    var headers := ["a", "b", "c", "d", "e", "f", "g", "h", "i", "j"];
    assert |headers| == 10 && headers[8] == "i" && headers[1] == "b";
    assert PyIndex(-2, 10) == Some(8) && PyIndex(-1, 10) == Some(9);
    var d1 := Put(Empty(), "i", Block(8, 9));
    assert RegisterFrom(headers, Empty(), -2, 4) == RegisterFrom(headers, d1, 1, 4);
    var d2 := Put(d1, "b", Block(1, 2));
    assert RegisterFrom(headers, d1, 1, 4) == RegisterFrom(headers, d2, 4, 4);
  }
}
