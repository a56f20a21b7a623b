/**
 * Column descriptors (MZTabColumn) and the stable column tables of the
 * Protein, Peptide, PSM and Small Molecule sections.
 *
 * A column's logical position is its two-character order followed by a
 * suffix: empty for the stable columns ("01"), the index of the indexed
 * element for the columns built per ms_run, assay or study variable ("091").
 */
module Columns {
  import opened Results
  import opened Strings
  import opened SortedMaps
  import opened Sections

  datatype Column = Column(name: string, header: string, order: string, suffix: string)
  {
    /** MZTabColumn.getLogicPosition(). */
    function Position(): string
    {
      order + suffix
    }

    /** MZTabColumn.setOrder: the same column moved to another order. */
    function WithOrder(o: string): (c: Column)
      ensures c.name == name && c.header == header && c.suffix == suffix
      ensures c.Position() == o + suffix
    {
      this.(order := o)
    }
  }

  /**
   * getColumnOrder: the first two characters of a logical position;
   * String.substring(0, 2) throws on a shorter string.
   */
  function ColumnOrder(position: string): (r: Result<string>)
    ensures r.Ok? <==> |position| >= 2
    ensures r.Err? ==> r.error == StringIndexOutOfBounds
    ensures r.Ok? ==> |r.value| == 2 && StartsWith(position, r.value)
  {
    if |position| < 2 then Err(StringIndexOutOfBounds) else Ok(position[..2])
  }

  /** A column moved to a two-character order reports that order back. */
  lemma OrderOfReorderedColumn(c: Column, o: string)
    requires |o| == 2
    ensures ColumnOrder(c.WithOrder(o).Position()) == Ok(o)
  {
    assert (o + c.suffix)[..2] == o;
  }

  /**
   * Positions with two-character orders sort by order first and by suffix
   * among the columns of one order.
   */
  lemma PositionOrder(a: Column, b: Column)
    requires |a.order| == 2 && |b.order| == 2
    ensures Less(a.Position(), b.Position())
            <==> Less(a.order, b.order) || (a.order == b.order && Less(a.suffix, b.suffix))
  {
    LessConcat(a.order, a.suffix, b.order, b.suffix);
  }

  /** The positions of the columns, in order. */
  function Positions(cols: seq<Column>): (r: seq<string>)
    ensures |r| == |cols|
    ensures forall i :: 0 <= i < |cols| ==> r[i] == cols[i].Position()
  {
    seq(|cols|, i requires 0 <= i < |cols| => cols[i].Position())
  }

  /**
   * The map that putting the columns one after another at their positions
   * builds; a later column replaces an earlier one at the same position.
   * Its keys and values are described by ColumnsByPositionSpec.
   */
  function ColumnsByPosition(cols: seq<Column>): (m: map<string, Column>)
  {
    if cols == [] then map[]
    else
      var last := cols[|cols| - 1];
      ColumnsByPosition(cols[..|cols| - 1])[last.Position() := last]
  }

  /** The keys are exactly the positions of the columns. */
  lemma {:induction false} ColumnsByPositionKeys(cols: seq<Column>)
    ensures forall k :: k in ColumnsByPosition(cols) <==> k in Positions(cols)
  {
    if cols != [] {
      var init := cols[..|cols| - 1];
      var last := cols[|cols| - 1];
      ColumnsByPositionKeys(init);
      assert Positions(cols) == Positions(init) + [last.Position()];
    }
  }

  /** Every column of the map is filed under its own position. */
  lemma {:induction false} ColumnsByPositionValues(cols: seq<Column>)
    ensures forall k :: k in ColumnsByPosition(cols) ==> ColumnsByPosition(cols)[k].Position() == k
  {
    if cols != [] {
      ColumnsByPositionValues(cols[..|cols| - 1]);
    }
  }

  /**
   * When the positions are distinct, each column sits at its own position
   * and the map has one entry per column.
   */
  lemma {:induction false} ColumnsByDistinctPositions(cols: seq<Column>)
    requires forall i, j :: 0 <= i < j < |cols| ==> cols[i].Position() != cols[j].Position()
    ensures |ColumnsByPosition(cols)| == |cols|
    ensures forall i :: 0 <= i < |cols| ==>
              cols[i].Position() in ColumnsByPosition(cols) && ColumnsByPosition(cols)[cols[i].Position()] == cols[i]
  {
    if cols != [] {
      var init := cols[..|cols| - 1];
      var last := cols[|cols| - 1];
      forall i, j | 0 <= i < j < |init| ensures init[i].Position() != init[j].Position() {
        assert init[i] == cols[i] && init[j] == cols[j];
      }
      ColumnsByDistinctPositions(init);
      ColumnsByPositionKeys(init);
      assert last.Position() !in Positions(init) by {
        forall i | 0 <= i < |init| ensures Positions(init)[i] != last.Position() {
          assert init[i] == cols[i];
        }
      }
      forall i | 0 <= i < |init| ensures ColumnsByPosition(cols)[cols[i].Position()] == cols[i] {
        assert cols[i] == init[i];
      }
    }
  }

  /** Columns listed in ascending position order are iterated in the order they were listed. */
  lemma ColumnsBySortedPositions(cols: seq<Column>)
    requires StrictlySorted(Positions(cols))
    ensures SortedKeys(ColumnsByPosition(cols)) == Positions(cols)
  {
    ColumnsByPositionKeys(cols);
    SortedKeysOf(ColumnsByPosition(cols), Positions(cols));
  }

  /** Putting one more column extends the map by that column. */
  lemma ColumnsByPositionSnoc(cols: seq<Column>, i: nat)
    requires i < |cols|
    ensures ColumnsByPosition(cols[..i + 1]) == ColumnsByPosition(cols[..i])[cols[i].Position() := cols[i]]
  {
    assert cols[..i + 1][..i] == cols[..i];
  }

  lemma SortedPositionsDistinct(cols: seq<Column>)
    requires StrictlySorted(Positions(cols))
    ensures forall i, j :: 0 <= i < j < |cols| ==> cols[i].Position() != cols[j].Position()
  {
    var p := Positions(cols);
    SortedDistinct(p);
    forall i, j | 0 <= i < j < |cols| ensures cols[i].Position() != cols[j].Position() {
      assert p[i] != p[j];
    }
  }
}
