/**
 * The cells of an MZTabRecord: one cell per logical position, either
 * missing, a scalar value or a SplitList of values with its delimiter.
 *
 * The value classes (Param, Modification, SpectraRef, Double, MZBoolean,
 * Reliability, URI) are opaque here: each is represented by the text it
 * renders as, and two values are equal when their texts are.
 */
module Records {
  import opened Results
  import opened Strings
  import opened SortedMaps
  import opened SplitLists
  import opened Columns

  datatype Param = Param(text: string)
  datatype Modification = Modification(text: string)
  datatype SpectraRef = SpectraRef(text: string)
  datatype Double = Double(text: string)
  datatype MZBoolean = MZBoolean(text: string)
  datatype Reliability = Reliability(text: string)
  datatype URI = URI(text: string)

  datatype Value =
    | Text(s: string)
    | Integer(i: int)
    | Real(d: Double)
    | Flag(b: MZBoolean)
    | Reliable(r: Reliability)
    | Link(u: URI)
    | ParamItem(p: Param)
    | ModificationItem(m: Modification)
    | SpectraRefItem(ref: SpectraRef)

  /** A SplitList: its items and the delimiter that joins them. */
  datatype SplitList = SplitList(delim: char, items: seq<Value>)

  datatype Cell = Missing | Scalar(value: Value) | Listed(list: SplitList)

  /** The text a value renders as. */
  function ValueText(v: Value): string
  {
    match v
    case Text(s) => s
    case Integer(i) => IntToString(i)
    case Real(d) => d.text
    case Flag(b) => b.text
    case Reliable(r) => r.text
    case Link(u) => u.text
    case ParamItem(p) => p.text
    case ModificationItem(m) => m.text
    case SpectraRefItem(ref) => ref.text
  }

  function ItemTexts(items: seq<Value>): (r: seq<string>)
    ensures |r| == |items|
  {
    seq(|items|, i requires 0 <= i < |items| => ValueText(items[i]))
  }

  /** The text a cell renders as: "null" when missing, the joined items for a list. */
  function CellText(c: Cell): string
  {
    match c
    case Missing => NULL
    case Scalar(v) => ValueText(v)
    case Listed(l) => ListText(ItemTexts(l.items), l.delim)
  }

  /** The cell stored at a position; a position never written holds the missing value. */
  function CellAt(cells: map<string, Cell>, position: string): Cell
  {
    if position in cells then cells[position] else Missing
  }

  /** A scalar setter's cell: a null argument stores the missing value. */
  function ScalarCell(v: Option<Value>): (c: Cell)
    ensures v.None? <==> c.Missing?
    ensures v.Some? ==> c == Scalar(v.value)
  {
    if v.Some? then Scalar(v.value) else Missing
  }

  /** A list setter's cell: a null argument stores the missing value. */
  function ListCell(l: Option<SplitList>): (c: Cell)
    ensures l.None? <==> c.Missing?
    ensures l.Some? ==> c == Listed(l.value)
  {
    if l.Some? then Listed(l.value) else Missing
  }

  /** A scalar getter: the value, null for a missing cell, ClassCastException for a list. */
  function ScalarOf(c: Cell): (r: Result<Option<Value>>)
    ensures r.Err? <==> c.Listed?
    ensures r.Err? ==> r.error == ClassCast
    ensures r == Ok(None) <==> c.Missing?
  {
    match c
    case Missing => Ok(None)
    case Scalar(v) => Ok(Some(v))
    case Listed(_) => Err(ClassCast)
  }

  /** getSplitList: the list, null for a missing cell, ClassCastException for a scalar. */
  function ListOf(c: Cell): (r: Result<Option<SplitList>>)
    ensures r.Err? <==> c.Scalar?
    ensures r.Err? ==> r.error == ClassCast
    ensures r == Ok(None) <==> c.Missing?
  {
    match c
    case Missing => Ok(None)
    case Scalar(_) => Err(ClassCast)
    case Listed(l) => Ok(Some(l))
  }

  /** Reading back what a scalar setter stored gives the value that was set. */
  lemma ScalarRoundTrip(v: Option<Value>)
    ensures ScalarOf(ScalarCell(v)) == Ok(v)
  {
  }

  /** Reading back what a list setter stored gives the list that was set. */
  lemma ListRoundTrip(l: Option<SplitList>)
    ensures ListOf(ListCell(l)) == Ok(l)
  {
  }

  /**
   * The create-on-first-append pattern: a missing cell becomes a new list
   * with the column's delimiter holding x; an existing list gets x at its
   * end, unless duplicates are suppressed and x is already present.
   * Appending to a scalar cell fails with ClassCastException.
   */
  function Appended(c: Cell, x: Value, delim: char, dedup: bool): (r: Result<Cell>)
    ensures r.Err? <==> c.Scalar?
    ensures r.Err? ==> r.error == ClassCast
    ensures r.Ok? ==> r.value.Listed? && x in r.value.list.items
    ensures c.Missing? ==> r == Ok(Listed(SplitList(delim, [x])))
    ensures c.Listed? ==> r.value.list.delim == c.list.delim
    ensures c.Listed? && !(dedup && x in c.list.items) ==> r.value.list.items == c.list.items + [x]
    ensures c.Listed? && dedup && x in c.list.items ==> r.value == c
  {
    match c
    case Missing => Ok(Listed(SplitList(delim, [x])))
    case Scalar(_) => Err(ClassCast)
    case Listed(l) =>
      if dedup && x in l.items then Ok(c) else Ok(Listed(SplitList(l.delim, l.items + [x])))
  }

  /**
   * An append grows the list by one item, except a suppressed duplicate,
   * which leaves it as it was; a missing cell counts as an empty list.
   */
  lemma AppendedLength(c: Cell, x: Value, delim: char, dedup: bool)
    requires !c.Scalar?
    ensures var n := if c.Missing? then 0 else |c.list.items|;
            var r := Appended(c, x, delim, dedup).value.list.items;
            |r| == (if dedup && c.Listed? && x in c.list.items then n else n + 1)
  {
  }

  /** A de-duplicating append keeps a list free of repeated items. */
  lemma AppendedKeepsDistinct(c: Cell, x: Value, delim: char)
    requires !c.Scalar?
    requires c.Listed? ==> Distinct(c.list.items)
    ensures Distinct(Appended(c, x, delim, true).value.list.items)
  {
    if c.Listed? && x !in c.list.items {
      var s := c.list.items + [x];
      forall i, j | 0 <= i < j < |s| ensures s[i] != s[j] {
        if j == |s| - 1 {
          assert s[i] == c.list.items[i];
        }
      }
    }
  }

  predicate Distinct(s: seq<Value>)
  {
    forall i, j :: 0 <= i < j < |s| ==> s[i] != s[j]
  }

  /**
   * Appending to a non-empty list extends its text by the list's
   * delimiter and the new item's text.
   */
  lemma AppendedText(c: Cell, x: Value, delim: char, dedup: bool)
    requires c.Listed? && |c.list.items| > 0
    requires !(dedup && x in c.list.items)
    ensures CellText(Appended(c, x, delim, dedup).value) == CellText(c) + [c.list.delim] + ValueText(x)
  {
    var items := c.list.items;
    assert ItemTexts(items + [x]) == ItemTexts(items) + [ValueText(x)];
    ListTextSnoc(ItemTexts(items), ValueText(x), c.list.delim);
  }

  /** The first append renders as the item alone. */
  lemma FirstAppendedText(x: Value, delim: char, dedup: bool)
    ensures CellText(Appended(Missing, x, delim, dedup).value) == ValueText(x)
  {
    assert ItemTexts([x]) == [ValueText(x)];
  }

  // ----- reading a record bound to a column registry -----

  /** The kinds of scalar value the typed getters read. */
  datatype Kind = TextKind | IntegerKind | RealKind | BooleanKind | ReliabilityKind | URIKind

  predicate HasKind(v: Value, k: Kind)
  {
    match k
    case TextKind => v.Text?
    case IntegerKind => v.Integer?
    case RealKind => v.Real?
    case BooleanKind => v.Flag?
    case ReliabilityKind => v.Reliable?
    case URIKind => v.Link?
  }

  /**
   * getValue: a position the registry does not know is an
   * IllegalArgumentException; a known position never written reads as missing.
   */
  function ReadCell(columns: map<string, Column>, cells: map<string, Cell>, position: string): (r: Result<Cell>)
    ensures r.Err? <==> position !in columns
    ensures r.Err? ==> r.error == IllegalArgument
    ensures r.Ok? ==> r.value == CellAt(cells, position)
  {
    if position in columns then Ok(CellAt(cells, position)) else Err(IllegalArgument)
  }

  /**
   * What a typed scalar getter (getString, getInteger, getDouble, ...)
   * returns: IllegalArgumentException for an unknown position,
   * ClassCastException for a list or a value of another kind, null for a
   * missing cell, and otherwise the stored value.
   */
  ghost predicate ScalarReading(columns: map<string, Column>, cells: map<string, Cell>, position: string,
                                k: Kind, r: Result<Option<Value>>)
  {
    var c := CellAt(cells, position);
    && (r == Err(IllegalArgument) <==> position !in columns)
    && (r == Err(ClassCast) <==> position in columns && (c.Listed? || (c.Scalar? && !HasKind(c.value, k))))
    && (r == Ok(None) <==> position in columns && c.Missing?)
    && (r.Ok? && r.value.Some? ==> position in columns && c == Scalar(r.value.value) && HasKind(r.value.value, k))
  }

  function ReadScalar(columns: map<string, Column>, cells: map<string, Cell>, position: string, k: Kind)
    : (r: Result<Option<Value>>)
    ensures ScalarReading(columns, cells, position, k, r)
  {
    if position !in columns then Err(IllegalArgument)
    else
      match CellAt(cells, position)
      case Missing => Ok(None)
      case Scalar(v) => if HasKind(v, k) then Ok(Some(v)) else Err(ClassCast)
      case Listed(_) => Err(ClassCast)
  }

  /**
   * What getSplitList returns: IllegalArgumentException for an unknown
   * position, ClassCastException for a scalar, null for a missing cell,
   * and otherwise the stored list.
   */
  ghost predicate ListReading(columns: map<string, Column>, cells: map<string, Cell>, position: string,
                              r: Result<Option<SplitList>>)
  {
    var c := CellAt(cells, position);
    && (r == Err(IllegalArgument) <==> position !in columns)
    && (r == Err(ClassCast) <==> position in columns && c.Scalar?)
    && (r == Ok(None) <==> position in columns && c.Missing?)
    && (r.Ok? && r.value.Some? ==> position in columns && c == Listed(r.value.value))
  }

  function ReadList(columns: map<string, Column>, cells: map<string, Cell>, position: string)
    : (r: Result<Option<SplitList>>)
    ensures ListReading(columns, cells, position, r)
  {
    if position !in columns then Err(IllegalArgument) else ListOf(CellAt(cells, position))
  }

  /**
   * A typed scalar write read back through the getter of the same kind
   * gives the value written, and leaves every other position as it read before.
   */
  lemma ScalarWriteRead(columns: map<string, Column>, cells: map<string, Cell>, position: string,
                        v: Option<Value>, k: Kind, q: string)
    requires position in columns
    requires v.Some? ==> HasKind(v.value, k)
    ensures ReadScalar(columns, cells[position := ScalarCell(v)], position, k) == Ok(v)
    ensures q != position ==> ReadScalar(columns, cells[position := ScalarCell(v)], q, k) == ReadScalar(columns, cells, q, k)
  {
  }

  /** A list write read back through getSplitList gives the list written. */
  lemma ListWriteRead(columns: map<string, Column>, cells: map<string, Cell>, position: string,
                      l: Option<SplitList>, q: string)
    requires position in columns
    ensures ReadList(columns, cells[position := ListCell(l)], position) == Ok(l)
    ensures q != position ==> ReadList(columns, cells[position := ListCell(l)], q) == ReadList(columns, cells, q)
  {
  }

  /** The items of a list cell; a missing cell has none yet. */
  function Items(c: Cell): seq<Value>
  {
    if c.Listed? then c.list.items else []
  }

  // ----- rendering a record -----

  /** The rendered cells of a record, in the position order of its columns. */
  function Fields(columns: map<string, Column>, cells: map<string, Cell>): (r: seq<string>)
    ensures |r| == |columns|
  {
    var keys := SortedKeys(columns);
    seq(|keys|, i requires 0 <= i < |keys| => CellText(CellAt(cells, keys[i])))
  }

  /** MZTabRecord.toString: the rendered cells joined by TAB. */
  function RecordText(columns: map<string, Column>, cells: map<string, Cell>): string
  {
    Join(Fields(columns, cells), TAB)
  }

  /**
   * Writing one cell changes the rendering of that cell's field and of no
   * other field.
   */
  lemma FieldsAfterWrite(columns: map<string, Column>, cells: map<string, Cell>, position: string, c: Cell)
    ensures forall i :: 0 <= i < |columns| ==>
              Fields(columns, cells[position := c])[i]
              == if SortedKeys(columns)[i] == position then CellText(c) else Fields(columns, cells)[i]
  {
  }

  /** A written cell's field sits at the index of its position in the display order. */
  lemma WrittenFieldIndex(columns: map<string, Column>, cells: map<string, Cell>, position: string, c: Cell)
    requires position in columns
    ensures exists i :: 0 <= i < |columns| && SortedKeys(columns)[i] == position
                        && Fields(columns, cells[position := c])[i] == CellText(c)
  {
    SortedKeysSpec(columns);
    var i :| 0 <= i < |SortedKeys(columns)| && SortedKeys(columns)[i] == position;
    FieldsAfterWrite(columns, cells, position, c);
  }

  /**
   * The charge scenario: an unset charge cell renders "null"; after
   * setting the charge to 2 it renders "2" and no other field changes.
   */
  lemma ChargeScenario(columns: map<string, Column>, cells: map<string, Cell>, position: string)
    requires position !in cells
    ensures CellText(CellAt(cells, position)) == "null"
    ensures CellText(CellAt(cells[position := ScalarCell(Some(Integer(2)))], position)) == "2"
    ensures forall i :: 0 <= i < |columns| && SortedKeys(columns)[i] != position ==>
              Fields(columns, cells[position := ScalarCell(Some(Integer(2)))])[i] == Fields(columns, cells)[i]
  {
    assert IntToString(2) == "2" by {
      assert NatToString(2) == [DigitChar(2)];
    }
    FieldsAfterWrite(columns, cells, position, ScalarCell(Some(Integer(2))));
  }
}
