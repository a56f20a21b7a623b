/**
 * The Peptide row: a record of the Peptide section bound to a column
 * registry, with typed accessors for the columns of the Peptide table.
 * Every accessor addresses its cell by the order of its PeptideColumn.
 *
 * The value parsers behind the String overloads (parseParam,
 * parseDouble, MZBoolean.findBoolean, ...) are passed in as functions.
 */
module PeptideRecords {
  import opened Results
  import opened Strings
  import opened SortedMaps
  import opened SplitLists
  import Sections
  import opened Columns
  import opened ColumnTables
  import opened ColumnFactories
  import opened Records

  /** The metadata a record is created against; only its presence matters here. */
  datatype Metadata = Metadata(description: string)

  /** MZTabUtils.isEmpty: a label of white space only is empty. */
  predicate IsEmptyLabel(labelText: string)
  {
    Trim(labelText) == ""
  }

  // The values the typed setters store; a null argument stores the missing value.

  function TextValue(s: Option<string>): (r: Option<Value>)
    ensures r.None? <==> s.None?
    ensures r.Some? ==> HasKind(r.value, TextKind) && r.value.s == s.value
  {
    if s.Some? then Some(Text(s.value)) else None
  }

  function BooleanValue(b: Option<MZBoolean>): (r: Option<Value>)
    ensures r.None? <==> b.None?
    ensures r.Some? ==> HasKind(r.value, BooleanKind) && r.value.b == b.value
  {
    if b.Some? then Some(Flag(b.value)) else None
  }

  function ReliabilityValue(x: Option<Reliability>): (r: Option<Value>)
    ensures r.None? <==> x.None?
    ensures r.Some? ==> HasKind(r.value, ReliabilityKind) && r.value.r == x.value
  {
    if x.Some? then Some(Reliable(x.value)) else None
  }

  function IntegerValue(i: Option<int>): (r: Option<Value>)
    ensures r.None? <==> i.None?
    ensures r.Some? ==> HasKind(r.value, IntegerKind) && r.value.i == i.value
  {
    if i.Some? then Some(Integer(i.value)) else None
  }

  function RealValue(d: Option<Double>): (r: Option<Value>)
    ensures r.None? <==> d.None?
    ensures r.Some? ==> HasKind(r.value, RealKind) && r.value.d == d.value
  {
    if d.Some? then Some(Real(d.value)) else None
  }

  function URIValue(u: Option<URI>): (r: Option<Value>)
    ensures r.None? <==> u.None?
    ensures r.Some? ==> HasKind(r.value, URIKind) && r.value.u == u.value
  {
    if u.Some? then Some(Link(u.value)) else None
  }

  /** Peptide.toString: the section prefix, a TAB, then the record's cells. */
  function PeptideLine(columns: map<string, Column>, cells: map<string, Cell>): string
  {
    Sections.Prefix(Sections.Peptide) + [TAB] + RecordText(columns, cells)
  }

  class Peptide {
    const factory: ColumnFactory
    const metadata: Metadata
    var cells: map<string, Cell>

    /** Every written position is a column of the bound registry. */
    ghost predicate Valid()
      reads this, factory
    {
      cells.Keys <= factory.columnMapping.Keys
    }

    /** What a write through setValue leaves behind, given the cells before it. */
    ghost predicate Written(before: map<string, Cell>, position: string, c: Cell, o: Outcome)
      reads this, factory
    {
      && (position in factory.columnMapping ==> o == Pass && cells == before[position := c])
      && (position !in factory.columnMapping ==> o == Fail(IllegalArgument) && cells == before)
    }

    /**
     * What an append leaves behind: the list at a known position read as
     * missing or as a list gets x by the create-on-first-append pattern
     * and the call returns true; an unknown position or a scalar cell
     * fails and nothing changes.
     */
    ghost predicate Appending(before: map<string, Cell>, position: string, x: Value, delim: char, dedup: bool,
                              r: Result<bool>)
      reads this, factory
    {
      var c := CellAt(before, position);
      && (position !in factory.columnMapping ==> r == Err(IllegalArgument) && cells == before)
      && (position in factory.columnMapping && c.Scalar? ==> r == Err(ClassCast) && cells == before)
      && (position in factory.columnMapping && !c.Scalar? ==>
            r == Ok(true) && cells == before[position := Appended(c, x, delim, dedup).value])
    }

    constructor (factory: ColumnFactory, metadata: Metadata)
      ensures this.factory == factory && this.metadata == metadata
      ensures cells == map[] && Valid()
    {
      this.factory := factory;
      this.metadata := metadata;
      cells := map[];
    }

    /**
     * Peptide(factory, metadata): a record with no cell written, bound to
     * the given registry; a null metadata is a NullPointerException.
     */
    static method CreateIn(factory: ColumnFactory, metadata: Option<Metadata>) returns (r: Result<Peptide>)
      ensures metadata.None? ==> r == Err(NullPointer)
      ensures metadata.Some? ==> r.Ok? && fresh(r.value) && r.value.factory == factory
                                 && r.value.metadata == metadata.value && r.value.cells == map[] && r.value.Valid()
    {
      if metadata.None? {
        return Err(NullPointer);
      }
      var p := new Peptide(factory, metadata.value);
      return Ok(p);
    }

    /**
     * Peptide(metadata): a record bound to a new registry of the Peptide
     * header section, as getInstance creates it (with no columns); a null
     * metadata is a NullPointerException.
     */
    static method Create(metadata: Option<Metadata>) returns (r: Result<Peptide>)
      ensures metadata.None? ==> r == Err(NullPointer)
      ensures metadata.Some? ==> r.Ok? && fresh(r.value) && fresh(r.value.factory)
                                 && r.value.factory.section == Sections.PeptideHeader
                                 && r.value.factory.columnMapping == map[]
                                 && r.value.metadata == metadata.value && r.value.cells == map[] && r.value.Valid()
    {
      var f := ColumnFactory.GetInstance(Sections.Peptide);
      if metadata.None? {
        return Err(NullPointer);
      }
      var p := new Peptide(f.value, metadata.value);
      return Ok(p);
    }

    // ----- the shared steps: setValue and the create-on-first-append pattern -----

    /** setValue: writes the cell of a known position; an unknown position is refused unchanged. */
    method Set(position: string, c: Cell) returns (o: Outcome)
      requires Valid()
      modifies this
      ensures Valid()
      ensures Written(old(cells), position, c, o)
    {
      if position !in factory.columnMapping {
        return Fail(IllegalArgument);
      }
      cells := cells[position := c];
      return Pass;
    }

    /** Reads the list at a position, creates it on first use, and appends x. */
    method Append(position: string, x: Value, delim: char, dedup: bool) returns (r: Result<bool>)
      requires Valid()
      modifies this
      ensures Valid()
      ensures Appending(old(cells), position, x, delim, dedup, r)
    {
      var list := ReadList(factory.columnMapping, cells, position);
      if list.Err? {
        return Err(list.error);
      }
      var c := Appended(CellAt(cells, position), x, delim, dedup);
      cells := cells[position := c.value];
      return Ok(true);
    }

    // ----- scalar columns -----

    function GetSequence(): (r: Result<Option<Value>>)
      reads this, factory
      ensures ScalarReading(factory.columnMapping, cells, PeptideSequence.order, TextKind, r)
    {
      ReadScalar(factory.columnMapping, cells, PeptideSequence.order, TextKind)
    }

    method SetSequence(sequence: string, parseString: string -> Option<string>) returns (o: Outcome)
      requires Valid()
      modifies this
      ensures Valid()
      ensures Written(old(cells), PeptideSequence.order, ScalarCell(TextValue(parseString(sequence))), o)
      ensures o.Pass? ==> GetSequence() == Ok(TextValue(parseString(sequence)))
    {
      o := Set(PeptideSequence.order, ScalarCell(TextValue(parseString(sequence))));
    }

    function GetAccession(): (r: Result<Option<Value>>)
      reads this, factory
      ensures ScalarReading(factory.columnMapping, cells, PeptideAccession.order, TextKind, r)
    {
      ReadScalar(factory.columnMapping, cells, PeptideAccession.order, TextKind)
    }

    method SetAccession(accession: string, parseString: string -> Option<string>) returns (o: Outcome)
      requires Valid()
      modifies this
      ensures Valid()
      ensures Written(old(cells), PeptideAccession.order, ScalarCell(TextValue(parseString(accession))), o)
      ensures o.Pass? ==> GetAccession() == Ok(TextValue(parseString(accession)))
    {
      o := Set(PeptideAccession.order, ScalarCell(TextValue(parseString(accession))));
    }

    function GetUnique(): (r: Result<Option<Value>>)
      reads this, factory
      ensures ScalarReading(factory.columnMapping, cells, PeptideUnique.order, BooleanKind, r)
    {
      ReadScalar(factory.columnMapping, cells, PeptideUnique.order, BooleanKind)
    }

    method SetUnique(unique: Option<MZBoolean>) returns (o: Outcome)
      requires Valid()
      modifies this
      ensures Valid()
      ensures Written(old(cells), PeptideUnique.order, ScalarCell(BooleanValue(unique)), o)
      ensures o.Pass? ==> GetUnique() == Ok(BooleanValue(unique))
    {
      o := Set(PeptideUnique.order, ScalarCell(BooleanValue(unique)));
    }

    method SetUniqueLabel(labelText: string, findBoolean: string -> Option<MZBoolean>) returns (o: Outcome)
      requires Valid()
      modifies this
      ensures Valid()
      ensures Written(old(cells), PeptideUnique.order, ScalarCell(BooleanValue(findBoolean(labelText))), o)
    {
      o := SetUnique(findBoolean(labelText));
    }

    function GetDatabase(): (r: Result<Option<Value>>)
      reads this, factory
      ensures ScalarReading(factory.columnMapping, cells, PeptideDatabase.order, TextKind, r)
    {
      ReadScalar(factory.columnMapping, cells, PeptideDatabase.order, TextKind)
    }

    method SetDatabase(database: string, parseString: string -> Option<string>) returns (o: Outcome)
      requires Valid()
      modifies this
      ensures Valid()
      ensures Written(old(cells), PeptideDatabase.order, ScalarCell(TextValue(parseString(database))), o)
      ensures o.Pass? ==> GetDatabase() == Ok(TextValue(parseString(database)))
    {
      o := Set(PeptideDatabase.order, ScalarCell(TextValue(parseString(database))));
    }

    function GetDatabaseVersion(): (r: Result<Option<Value>>)
      reads this, factory
      ensures ScalarReading(factory.columnMapping, cells, PeptideDatabaseVersion.order, TextKind, r)
    {
      ReadScalar(factory.columnMapping, cells, PeptideDatabaseVersion.order, TextKind)
    }

    method SetDatabaseVersion(version: string, parseString: string -> Option<string>) returns (o: Outcome)
      requires Valid()
      modifies this
      ensures Valid()
      ensures Written(old(cells), PeptideDatabaseVersion.order, ScalarCell(TextValue(parseString(version))), o)
      ensures o.Pass? ==> GetDatabaseVersion() == Ok(TextValue(parseString(version)))
    {
      o := Set(PeptideDatabaseVersion.order, ScalarCell(TextValue(parseString(version))));
    }

    function GetReliability(): (r: Result<Option<Value>>)
      reads this, factory
      ensures ScalarReading(factory.columnMapping, cells, PeptideReliability.order, ReliabilityKind, r)
    {
      ReadScalar(factory.columnMapping, cells, PeptideReliability.order, ReliabilityKind)
    }

    method SetReliability(reliability: Option<Reliability>) returns (o: Outcome)
      requires Valid()
      modifies this
      ensures Valid()
      ensures Written(old(cells), PeptideReliability.order, ScalarCell(ReliabilityValue(reliability)), o)
      ensures o.Pass? ==> GetReliability() == Ok(ReliabilityValue(reliability))
    {
      o := Set(PeptideReliability.order, ScalarCell(ReliabilityValue(reliability)));
    }

    method SetReliabilityLabel(labelText: string, findReliability: string -> Option<Reliability>) returns (o: Outcome)
      requires Valid()
      modifies this
      ensures Valid()
      ensures Written(old(cells), PeptideReliability.order, ScalarCell(ReliabilityValue(findReliability(labelText))), o)
    {
      o := SetReliability(findReliability(labelText));
    }

    function GetCharge(): (r: Result<Option<Value>>)
      reads this, factory
      ensures ScalarReading(factory.columnMapping, cells, PeptideCharge.order, IntegerKind, r)
    {
      ReadScalar(factory.columnMapping, cells, PeptideCharge.order, IntegerKind)
    }

    method SetCharge(charge: Option<int>) returns (o: Outcome)
      requires Valid()
      modifies this
      ensures Valid()
      ensures Written(old(cells), PeptideCharge.order, ScalarCell(IntegerValue(charge)), o)
      ensures o.Pass? ==> GetCharge() == Ok(IntegerValue(charge))
    {
      o := Set(PeptideCharge.order, ScalarCell(IntegerValue(charge)));
    }

    method SetChargeLabel(labelText: string, parseInteger: string -> Option<int>) returns (o: Outcome)
      requires Valid()
      modifies this
      ensures Valid()
      ensures Written(old(cells), PeptideCharge.order, ScalarCell(IntegerValue(parseInteger(labelText))), o)
    {
      o := SetCharge(parseInteger(labelText));
    }

    function GetMassToCharge(): (r: Result<Option<Value>>)
      reads this, factory
      ensures ScalarReading(factory.columnMapping, cells, PeptideMassToCharge.order, RealKind, r)
    {
      ReadScalar(factory.columnMapping, cells, PeptideMassToCharge.order, RealKind)
    }

    method SetMassToCharge(mz: Option<Double>) returns (o: Outcome)
      requires Valid()
      modifies this
      ensures Valid()
      ensures Written(old(cells), PeptideMassToCharge.order, ScalarCell(RealValue(mz)), o)
      ensures o.Pass? ==> GetMassToCharge() == Ok(RealValue(mz))
    {
      o := Set(PeptideMassToCharge.order, ScalarCell(RealValue(mz)));
    }

    method SetMassToChargeLabel(labelText: string, parseDouble: string -> Option<Double>) returns (o: Outcome)
      requires Valid()
      modifies this
      ensures Valid()
      ensures Written(old(cells), PeptideMassToCharge.order, ScalarCell(RealValue(parseDouble(labelText))), o)
    {
      o := SetMassToCharge(parseDouble(labelText));
    }

    function GetURI(): (r: Result<Option<Value>>)
      reads this, factory
      ensures ScalarReading(factory.columnMapping, cells, PeptideURI.order, URIKind, r)
    {
      ReadScalar(factory.columnMapping, cells, PeptideURI.order, URIKind)
    }

    method SetURI(uri: Option<URI>) returns (o: Outcome)
      requires Valid()
      modifies this
      ensures Valid()
      ensures Written(old(cells), PeptideURI.order, ScalarCell(URIValue(uri)), o)
      ensures o.Pass? ==> GetURI() == Ok(URIValue(uri))
    {
      o := Set(PeptideURI.order, ScalarCell(URIValue(uri)));
    }

    method SetURILabel(labelText: string, parseURI: string -> Option<URI>) returns (o: Outcome)
      requires Valid()
      modifies this
      ensures Valid()
      ensures Written(old(cells), PeptideURI.order, ScalarCell(URIValue(parseURI(labelText))), o)
    {
      o := SetURI(parseURI(labelText));
    }

    // ----- list columns -----

    function GetSearchEngine(): (r: Result<Option<SplitList>>)
      reads this, factory
      ensures ListReading(factory.columnMapping, cells, PeptideSearchEngine.order, r)
    {
      ReadList(factory.columnMapping, cells, PeptideSearchEngine.order)
    }

    method SetSearchEngine(list: Option<SplitList>) returns (o: Outcome)
      requires Valid()
      modifies this
      ensures Valid()
      ensures Written(old(cells), PeptideSearchEngine.order, ListCell(list), o)
      ensures o.Pass? ==> GetSearchEngine() == Ok(list)
    {
      o := Set(PeptideSearchEngine.order, ListCell(list));
    }

    method SetSearchEngineLabel(labelText: string, parseParamList: string -> Option<SplitList>) returns (o: Outcome)
      requires Valid()
      modifies this
      ensures Valid()
      ensures Written(old(cells), PeptideSearchEngine.order, ListCell(parseParamList(labelText)), o)
    {
      o := SetSearchEngine(parseParamList(labelText));
    }

    /**
     * addSearchEngineParam: null is refused with false; otherwise the param
     * is in the search engine list afterwards, added only when absent, and
     * the call returns true.
     */
    method AddSearchEngineParam(param: Option<Param>) returns (r: Result<bool>)
      requires Valid()
      modifies this
      ensures Valid()
      ensures param.None? ==> r == Ok(false) && cells == old(cells)
      ensures param.Some? ==> Appending(old(cells), PeptideSearchEngine.order, ParamItem(param.value), BAR, true, r)
      ensures r == Ok(true) ==> ParamItem(param.value) in Items(CellAt(cells, PeptideSearchEngine.order))
      ensures r == Ok(true) ==>
                var before := Items(CellAt(old(cells), PeptideSearchEngine.order));
                |Items(CellAt(cells, PeptideSearchEngine.order))|
                == if ParamItem(param.value) in before then |before| else |before| + 1
    {
      if param.None? {
        return Ok(false);
      }
      r := Append(PeptideSearchEngine.order, ParamItem(param.value), BAR, true);
    }

    /** addSearchEngineParam(String): an empty label is refused with false, otherwise the parsed param is added. */
    method AddSearchEngineParamLabel(labelText: string, parseParam: string -> Option<Param>) returns (r: Result<bool>)
      requires Valid()
      modifies this
      ensures Valid()
      ensures IsEmptyLabel(labelText) || parseParam(labelText).None? ==> r == Ok(false) && cells == old(cells)
      ensures !IsEmptyLabel(labelText) && parseParam(labelText).Some? ==>
                Appending(old(cells), PeptideSearchEngine.order, ParamItem(parseParam(labelText).value), BAR, true, r)
    {
      if IsEmptyLabel(labelText) {
        return Ok(false);
      }
      r := AddSearchEngineParam(parseParam(labelText));
    }

    function GetBestSearchEngineScore(): (r: Result<Option<SplitList>>)
      reads this, factory
      ensures ListReading(factory.columnMapping, cells, PeptideBestSearchEngineScore.order, r)
    {
      ReadList(factory.columnMapping, cells, PeptideBestSearchEngineScore.order)
    }

    method SetBestSearchEngineScore(list: Option<SplitList>) returns (o: Outcome)
      requires Valid()
      modifies this
      ensures Valid()
      ensures Written(old(cells), PeptideBestSearchEngineScore.order, ListCell(list), o)
      ensures o.Pass? ==> GetBestSearchEngineScore() == Ok(list)
    {
      o := Set(PeptideBestSearchEngineScore.order, ListCell(list));
    }

    method SetBestSearchEngineScoreLabel(labelText: string, parseParamList: string -> Option<SplitList>)
      returns (o: Outcome)
      requires Valid()
      modifies this
      ensures Valid()
      ensures Written(old(cells), PeptideBestSearchEngineScore.order, ListCell(parseParamList(labelText)), o)
    {
      o := SetBestSearchEngineScore(parseParamList(labelText));
    }

    /** addBestSearchEngineScoreParam: null is refused with false; otherwise the param is appended. */
    method AddBestSearchEngineScoreParam(param: Option<Param>) returns (r: Result<bool>)
      requires Valid()
      modifies this
      ensures Valid()
      ensures param.None? ==> r == Ok(false) && cells == old(cells)
      ensures param.Some? ==>
                Appending(old(cells), PeptideBestSearchEngineScore.order, ParamItem(param.value), BAR, false, r)
      ensures r == Ok(true) ==> Items(CellAt(cells, PeptideBestSearchEngineScore.order))
                                == Items(CellAt(old(cells), PeptideBestSearchEngineScore.order)) + [ParamItem(param.value)]
    {
      if param.None? {
        return Ok(false);
      }
      r := Append(PeptideBestSearchEngineScore.order, ParamItem(param.value), BAR, false);
    }

    method AddBestSearchEngineScoreParamLabel(labelText: string, parseParam: string -> Option<Param>)
      returns (r: Result<bool>)
      requires Valid()
      modifies this
      ensures Valid()
      ensures IsEmptyLabel(labelText) || parseParam(labelText).None? ==> r == Ok(false) && cells == old(cells)
      ensures !IsEmptyLabel(labelText) && parseParam(labelText).Some? ==>
                Appending(old(cells), PeptideBestSearchEngineScore.order, ParamItem(parseParam(labelText).value), BAR, false, r)
    {
      if IsEmptyLabel(labelText) {
        return Ok(false);
      }
      r := AddBestSearchEngineScoreParam(parseParam(labelText));
    }

    /** getSearchEngineScore: the score list of one ms_run, addressed by its logical position. */
    function GetSearchEngineScore(position: string): (r: Result<Option<SplitList>>)
      reads this, factory
      ensures ListReading(factory.columnMapping, cells, position, r)
    {
      ReadList(factory.columnMapping, cells, position)
    }

    method SetSearchEngineScore(position: string, list: Option<SplitList>) returns (o: Outcome)
      requires Valid()
      modifies this
      ensures Valid()
      ensures Written(old(cells), position, ListCell(list), o)
      ensures o.Pass? ==> GetSearchEngineScore(position) == Ok(list)
    {
      o := Set(position, ListCell(list));
    }

    method SetSearchEngineScoreLabel(position: string, labelText: string, parseParamList: string -> Option<SplitList>)
      returns (o: Outcome)
      requires Valid()
      modifies this
      ensures Valid()
      ensures Written(old(cells), position, ListCell(parseParamList(labelText)), o)
    {
      o := SetSearchEngineScore(position, parseParamList(labelText));
    }

    /** addSearchEngineScoreParam: null is refused with false; otherwise the param is appended to that run's list. */
    method AddSearchEngineScoreParam(position: string, param: Option<Param>) returns (r: Result<bool>)
      requires Valid()
      modifies this
      ensures Valid()
      ensures param.None? ==> r == Ok(false) && cells == old(cells)
      ensures param.Some? ==> Appending(old(cells), position, ParamItem(param.value), BAR, false, r)
      ensures r == Ok(true) ==> Items(CellAt(cells, position)) == Items(CellAt(old(cells), position)) + [ParamItem(param.value)]
    {
      if param.None? {
        return Ok(false);
      }
      r := Append(position, ParamItem(param.value), BAR, false);
    }

    function GetModifications(): (r: Result<Option<SplitList>>)
      reads this, factory
      ensures ListReading(factory.columnMapping, cells, PeptideModifications.order, r)
    {
      ReadList(factory.columnMapping, cells, PeptideModifications.order)
    }

    method SetModifications(list: Option<SplitList>) returns (o: Outcome)
      requires Valid()
      modifies this
      ensures Valid()
      ensures Written(old(cells), PeptideModifications.order, ListCell(list), o)
      ensures o.Pass? ==> GetModifications() == Ok(list)
    {
      o := Set(PeptideModifications.order, ListCell(list));
    }

    method SetModificationsLabel(labelText: string, parseModificationList: string -> Option<SplitList>)
      returns (o: Outcome)
      requires Valid()
      modifies this
      ensures Valid()
      ensures Written(old(cells), PeptideModifications.order, ListCell(parseModificationList(labelText)), o)
    {
      o := SetModifications(parseModificationList(labelText));
    }

    /** addModification: null is refused with false; otherwise the modification is appended, duplicates included. */
    method AddModification(modification: Option<Modification>) returns (r: Result<bool>)
      requires Valid()
      modifies this
      ensures Valid()
      ensures modification.None? ==> r == Ok(false) && cells == old(cells)
      ensures modification.Some? ==>
                Appending(old(cells), PeptideModifications.order, ModificationItem(modification.value), COMMA, false, r)
      ensures r == Ok(true) ==> Items(CellAt(cells, PeptideModifications.order))
                                == Items(CellAt(old(cells), PeptideModifications.order)) + [ModificationItem(modification.value)]
    {
      if modification.None? {
        return Ok(false);
      }
      r := Append(PeptideModifications.order, ModificationItem(modification.value), COMMA, false);
    }

    function GetRetentionTime(): (r: Result<Option<SplitList>>)
      reads this, factory
      ensures ListReading(factory.columnMapping, cells, PeptideRetentionTime.order, r)
    {
      ReadList(factory.columnMapping, cells, PeptideRetentionTime.order)
    }

    method SetRetentionTime(list: Option<SplitList>) returns (o: Outcome)
      requires Valid()
      modifies this
      ensures Valid()
      ensures Written(old(cells), PeptideRetentionTime.order, ListCell(list), o)
      ensures o.Pass? ==> GetRetentionTime() == Ok(list)
    {
      o := Set(PeptideRetentionTime.order, ListCell(list));
    }

    method SetRetentionTimeLabel(labelText: string, parseDoubleList: string -> Option<SplitList>) returns (o: Outcome)
      requires Valid()
      modifies this
      ensures Valid()
      ensures Written(old(cells), PeptideRetentionTime.order, ListCell(parseDoubleList(labelText)), o)
    {
      o := SetRetentionTime(parseDoubleList(labelText));
    }

    /** addRetentionTime: null is refused with false; otherwise the time is appended. */
    method AddRetentionTime(rt: Option<Double>) returns (r: Result<bool>)
      requires Valid()
      modifies this
      ensures Valid()
      ensures rt.None? ==> r == Ok(false) && cells == old(cells)
      ensures rt.Some? ==> Appending(old(cells), PeptideRetentionTime.order, Real(rt.value), BAR, false, r)
      ensures r == Ok(true) ==> Items(CellAt(cells, PeptideRetentionTime.order))
                                == Items(CellAt(old(cells), PeptideRetentionTime.order)) + [Real(rt.value)]
    {
      if rt.None? {
        return Ok(false);
      }
      r := Append(PeptideRetentionTime.order, Real(rt.value), BAR, false);
    }

    method AddRetentionTimeLabel(labelText: string, parseDouble: string -> Option<Double>) returns (r: Result<bool>)
      requires Valid()
      modifies this
      ensures Valid()
      ensures IsEmptyLabel(labelText) || parseDouble(labelText).None? ==> r == Ok(false) && cells == old(cells)
      ensures !IsEmptyLabel(labelText) && parseDouble(labelText).Some? ==>
                Appending(old(cells), PeptideRetentionTime.order, Real(parseDouble(labelText).value), BAR, false, r)
    {
      if IsEmptyLabel(labelText) {
        return Ok(false);
      }
      r := AddRetentionTime(parseDouble(labelText));
    }

    function GetRetentionTimeWindow(): (r: Result<Option<SplitList>>)
      reads this, factory
      ensures ListReading(factory.columnMapping, cells, PeptideRetentionTimeWindow.order, r)
    {
      ReadList(factory.columnMapping, cells, PeptideRetentionTimeWindow.order)
    }

    method SetRetentionTimeWindow(list: Option<SplitList>) returns (o: Outcome)
      requires Valid()
      modifies this
      ensures Valid()
      ensures Written(old(cells), PeptideRetentionTimeWindow.order, ListCell(list), o)
      ensures o.Pass? ==> GetRetentionTimeWindow() == Ok(list)
    {
      o := Set(PeptideRetentionTimeWindow.order, ListCell(list));
    }

    method SetRetentionTimeWindowLabel(labelText: string, parseDoubleList: string -> Option<SplitList>)
      returns (o: Outcome)
      requires Valid()
      modifies this
      ensures Valid()
      ensures Written(old(cells), PeptideRetentionTimeWindow.order, ListCell(parseDoubleList(labelText)), o)
    {
      o := SetRetentionTimeWindow(parseDoubleList(labelText));
    }

    /** addRetentionTimeWindow: null is refused with false; otherwise the bound is appended. */
    method AddRetentionTimeWindow(rtw: Option<Double>) returns (r: Result<bool>)
      requires Valid()
      modifies this
      ensures Valid()
      ensures rtw.None? ==> r == Ok(false) && cells == old(cells)
      ensures rtw.Some? ==> Appending(old(cells), PeptideRetentionTimeWindow.order, Real(rtw.value), BAR, false, r)
      ensures r == Ok(true) ==> Items(CellAt(cells, PeptideRetentionTimeWindow.order))
                                == Items(CellAt(old(cells), PeptideRetentionTimeWindow.order)) + [Real(rtw.value)]
    {
      if rtw.None? {
        return Ok(false);
      }
      r := Append(PeptideRetentionTimeWindow.order, Real(rtw.value), BAR, false);
    }

    method AddRetentionTimeWindowLabel(labelText: string, parseDouble: string -> Option<Double>) returns (r: Result<bool>)
      requires Valid()
      modifies this
      ensures Valid()
      ensures IsEmptyLabel(labelText) || parseDouble(labelText).None? ==> r == Ok(false) && cells == old(cells)
      ensures !IsEmptyLabel(labelText) && parseDouble(labelText).Some? ==>
                Appending(old(cells), PeptideRetentionTimeWindow.order, Real(parseDouble(labelText).value), BAR, false, r)
    {
      if IsEmptyLabel(labelText) {
        return Ok(false);
      }
      r := AddRetentionTimeWindow(parseDouble(labelText));
    }

    function GetSpectraRef(): (r: Result<Option<SplitList>>)
      reads this, factory
      ensures ListReading(factory.columnMapping, cells, PeptideSpectraRef.order, r)
    {
      ReadList(factory.columnMapping, cells, PeptideSpectraRef.order)
    }

    method SetSpectraRef(list: Option<SplitList>) returns (o: Outcome)
      requires Valid()
      modifies this
      ensures Valid()
      ensures Written(old(cells), PeptideSpectraRef.order, ListCell(list), o)
      ensures o.Pass? ==> GetSpectraRef() == Ok(list)
    {
      o := Set(PeptideSpectraRef.order, ListCell(list));
    }

    /** setSpectraRef(String): the label is parsed against the record's metadata. */
    method SetSpectraRefLabel(labelText: string, parseSpectraRefList: (Metadata, string) -> Option<SplitList>)
      returns (o: Outcome)
      requires Valid()
      modifies this
      ensures Valid()
      ensures Written(old(cells), PeptideSpectraRef.order, ListCell(parseSpectraRefList(metadata, labelText)), o)
    {
      o := SetSpectraRef(parseSpectraRefList(metadata, labelText));
    }

    /** addSpectraRef: null is refused with false; otherwise the reference is appended. */
    method AddSpectraRef(ref: Option<SpectraRef>) returns (r: Result<bool>)
      requires Valid()
      modifies this
      ensures Valid()
      ensures ref.None? ==> r == Ok(false) && cells == old(cells)
      ensures ref.Some? ==> Appending(old(cells), PeptideSpectraRef.order, SpectraRefItem(ref.value), BAR, false, r)
      ensures r == Ok(true) ==> Items(CellAt(cells, PeptideSpectraRef.order))
                                == Items(CellAt(old(cells), PeptideSpectraRef.order)) + [SpectraRefItem(ref.value)]
    {
      if ref.None? {
        return Ok(false);
      }
      r := Append(PeptideSpectraRef.order, SpectraRefItem(ref.value), BAR, false);
    }

    /**
     * Peptide.toString: the PEP prefix and a TAB, then the cells; one TAB per
     * column when no cell renders with a TAB.
     */
    function ToString(): (r: string)
      reads this, factory
      ensures |r| >= 4 && r[..3] == Sections.Prefix(Sections.Peptide) && r[3] == TAB
      ensures (|factory.columnMapping| > 0
               && forall k :: k in factory.columnMapping ==> TAB !in CellText(CellAt(cells, k)))
              ==> multiset(r)[TAB] == |factory.columnMapping|
    {
      var line := PeptideLine(factory.columnMapping, cells);
      PeptideLineStart(factory.columnMapping, cells);
      if |factory.columnMapping| > 0
         && forall k :: k in factory.columnMapping ==> TAB !in CellText(CellAt(cells, k))
      then
        PeptideLineTabs(factory.columnMapping, cells);
        line
      else
        line
    }
  }

  /** A peptide line starts with the PEP prefix and a TAB. */
  lemma PeptideLineStart(columns: map<string, Column>, cells: map<string, Cell>)
    ensures |PeptideLine(columns, cells)| >= 4
    ensures PeptideLine(columns, cells)[..3] == Sections.Prefix(Sections.Peptide)
    ensures PeptideLine(columns, cells)[3] == TAB
  {
    var p := Sections.Prefix(Sections.Peptide);
    var line := PeptideLine(columns, cells);
    assert line == p + [TAB] + RecordText(columns, cells);
    assert |p| == 3;
    assert line[..3] == p;
  }

  /** No field renders with a character that no cell of the record renders with. */
  lemma FieldsFreeOf(columns: map<string, Column>, cells: map<string, Cell>, ch: char)
    requires forall k :: k in columns ==> ch !in CellText(CellAt(cells, k))
    ensures forall i :: 0 <= i < |columns| ==> ch !in Fields(columns, cells)[i]
  {
    SortedKeysSpec(columns);
  }

  /**
   * A peptide line holds one TAB per column, after the prefix and between
   * cells, when no cell renders with a TAB.
   */
  lemma PeptideLineTabs(columns: map<string, Column>, cells: map<string, Cell>)
    requires |columns| > 0
    requires forall k :: k in columns ==> TAB !in CellText(CellAt(cells, k))
    ensures multiset(PeptideLine(columns, cells))[TAB] == |columns|
  {
    FieldsFreeOf(columns, cells, TAB);
    JoinCount(Fields(columns, cells), TAB);
    var p := Sections.Prefix(Sections.Peptide);
    var t := RecordText(columns, cells);
    assert TAB !in p by {
      forall i | 0 <= i < |p| ensures p[i] != TAB {
        assert 'A' <= p[i] <= 'Z';
      }
    }
    assert multiset(p + [TAB] + t) == multiset(p) + multiset([TAB]) + multiset(t);
  }

  /** The Peptide stable columns are iterated in the order they are listed. */
  lemma DefaultStableKeys()
    ensures |ColumnsByPosition(PeptideStableColumns())| == 12
    ensures SortedKeys(ColumnsByPosition(PeptideStableColumns()))
            == ["01", "02", "03", "04", "05", "06", "10", "11", "12", "13", "14", "16"]
  {
    PeptideStablePositions();
    SortedPositionsDistinct(PeptideStableColumns());
    ColumnsByDistinctPositions(PeptideStableColumns());
    ColumnsBySortedPositions(PeptideStableColumns());
  }

  /**
   * The charge scenario on a registry holding the Peptide stable columns:
   * charge is the tenth cell; unset it renders "null", and after setting
   * the charge to 2 it renders "2" while every other cell renders as before.
   */
  lemma DefaultChargeCell(cells: map<string, Cell>)
    requires PeptideCharge.order !in cells
    ensures var columns := ColumnsByPosition(PeptideStableColumns());
            var after := cells[PeptideCharge.order := ScalarCell(IntegerValue(Some(2)))];
            && |columns| == 12
            && SortedKeys(columns)[9] == PeptideCharge.order
            && Fields(columns, cells)[9] == "null"
            && Fields(columns, after)[9] == "2"
            && forall i :: 0 <= i < 12 && i != 9 ==> Fields(columns, after)[i] == Fields(columns, cells)[i]
  {
    ChargeIsTenth();
    ChargeScenario(ColumnsByPosition(PeptideStableColumns()), cells, PeptideCharge.order);
  }

  /** Among the Peptide stable columns, charge comes tenth and only there. */
  lemma ChargeIsTenth()
    ensures var keys := SortedKeys(ColumnsByPosition(PeptideStableColumns()));
            && |keys| == 12 && keys[9] == PeptideCharge.order
            && forall i :: 0 <= i < 12 && i != 9 ==> keys[i] != PeptideCharge.order
  {
    var keys := SortedKeys(ColumnsByPosition(PeptideStableColumns()));
    DefaultStableKeys();
    PeptideStablePositions();
    assert StrictlySorted(keys);
    DistinctOrders(keys, 9);
    assert keys[9] == "13";
  }

  lemma DistinctOrders(keys: seq<string>, j: nat)
    requires StrictlySorted(keys) && j < |keys|
    ensures forall i :: 0 <= i < |keys| && i != j ==> keys[i] != keys[j]
  {
    SortedDistinct(keys);
  }
}
