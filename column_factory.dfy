/**
 * MZTabColumnFactory: the column registry of one table-based section.
 *
 * It owns four TreeMaps keyed by logical position (stable, optional,
 * abundance and all columns); their key order is the display order. The
 * column classes that compute a new column's header and position
 * (MZTabColumn.createOptionalColumn, OptionColumn, CVParamOptionColumn,
 * AbundanceColumn) are not part of this model: each adder takes the column
 * they would build as a function of the inputs they are given.
 */
module ColumnFactories {
  import opened Results
  import opened Strings
  import opened SortedMaps
  import opened Sections
  import opened SplitLists
  import opened Columns
  import opened ColumnTables

  /**
   * MZTabColumn.createOptionalColumn(section, column, id, msRun): the
   * column built for a template column, a score id and an ms_run index.
   */
  type OptionalColumnBuilder = (Section, Column, Option<int>, Option<nat>) -> Column

  // ----- specification functions over a column map -----

  /** The headers of the columns, in position order. */
  function Headers(m: map<string, Column>): (r: seq<string>)
    ensures |r| == |m|
    ensures forall i :: 0 <= i < |r| ==> r[i] == m[SortedKeys(m)[i]].header
  {
    var keys := SortedKeys(m);
    seq(|keys|, i requires 0 <= i < |keys| => m[keys[i]].header)
  }

  /** The header line: section prefix, TAB, then the header list. */
  function HeaderLine(s: Section, m: map<string, Column>): string
  {
    Prefix(s) + [TAB] + ListText(Headers(m), TAB)
  }

  /** The first column, among the given keys in order, whose header equals h up to case. */
  function FirstByHeader(m: map<string, Column>, keys: seq<string>, h: string): (r: Option<Column>)
    requires forall i :: 0 <= i < |keys| ==> keys[i] in m
    ensures r.None? <==> forall i :: 0 <= i < |keys| ==> !EqualsIgnoreCase(h, m[keys[i]].header)
    ensures r.Some? ==> exists i :: 0 <= i < |keys| && r.value == m[keys[i]]
                          && EqualsIgnoreCase(h, m[keys[i]].header)
                          && forall j :: 0 <= j < i ==> !EqualsIgnoreCase(h, m[keys[j]].header)
  {
    if keys == [] then None
    else if EqualsIgnoreCase(h, m[keys[0]].header) then Some(m[keys[0]])
    else
      var r := FirstByHeader(m, keys[1..], h);
      assert forall i :: 0 <= i < |keys[1..]| ==> keys[1..][i] == keys[i + 1];
      r
  }

  /** Header look-up depends only on the lower-case form of the header looked up. */
  lemma {:induction false} FirstByHeaderIgnoresCase(m: map<string, Column>, keys: seq<string>, a: string, b: string)
    requires forall i :: 0 <= i < |keys| ==> keys[i] in m
    requires ToLower(a) == ToLower(b)
    ensures FirstByHeader(m, keys, a) == FirstByHeader(m, keys, b)
  {
    if keys != [] {
      var h := m[keys[0]].header;
      EqualsIgnoreCaseIsLowerEquality(a, h);
      EqualsIgnoreCaseIsLowerEquality(b, h);
      FirstByHeaderIgnoresCase(m, keys[1..], a, b);
    }
  }

  /**
   * new Integer(getColumnOrder(columnMapping.lastKey())): the order of the
   * last position, read as a number.
   */
  function LastKeyOrder(m: map<string, Column>): (r: Result<int>)
    ensures |m| == 0 ==> r == Err(NoSuchElement)
    ensures r.Ok? ==> MinInt <= r.value <= MaxInt
    ensures |m| > 0 && |LastKey(m)| < 2 ==> r == Err(StringIndexOutOfBounds)
  {
    if |m| == 0 then Err(NoSuchElement)
    else
      match ColumnOrder(LastKey(m))
      case Err(e) => Err(e)
      case Ok(o) => if ParseInt(o).Some? then Ok(ParseInt(o).value) else Err(NumberFormat)
  }

  /**
   * When every position starts with two digits, the order taken from the
   * last key is the largest order in the map.
   */
  lemma LastKeyOrderIsLargestOrder(m: map<string, Column>)
    requires |m| > 0
    requires forall k :: k in m ==> TwoDigitLead(k)
    ensures LastKeyOrder(m) == Ok(LeadValue(LastKey(m)))
    ensures forall k :: k in m ==> LeadValue(k) <= LeadValue(LastKey(m))
  {
    var last := LastKey(m);
    LastKeyGreatest(m);
    ParseTwoDigits(last[..2]);
    forall k | k in m ensures LeadValue(k) <= LeadValue(last) {
      if k != last {
        LeadMonotone(k, last);
      }
    }
  }

  /** The Protein columns addOptionalColumn builds per ms_run. */
  function RunCountNames(): seq<string>
  {
    [ProteinNumPsms.name, ProteinNumPeptidesDistinct.name, ProteinNumPeptidesUnique.name]
  }

  /** The sections whose switch accepts a best_search_engine_score column. */
  predicate AcceptsBestScore(s: Section, name: string)
  {
    match s
    case ProteinHeader => name == ProteinBestSearchEngineScore.name
    case PeptideHeader => name == PeptideBestSearchEngineScore.name
    case SmallMoleculeHeader => name == SmallMoleculeBestSearchEngineScore.name
    case _ => false
  }

  /** The sections whose switch accepts a search_engine_score column. */
  predicate AcceptsScore(s: Section, name: string)
  {
    match s
    case ProteinHeader => name == ProteinSearchEngineScore.name
    case PeptideHeader => name == PeptideSearchEngineScore.name
    case PSMHeader => name == PSMSearchEngineScore.name
    case _ => false
  }

  /** The reliability column constant of a section, if it has one. */
  function ReliabilityColumn(s: Section): Option<Column>
  {
    match s
    case ProteinHeader => Some(ProteinReliability)
    case PeptideHeader => Some(PeptideReliability)
    case SmallMoleculeHeader => Some(SmallMoleculeReliability)
    case PSMHeader => Some(PSMReliability)
    case _ => None
  }

  /** The uri column constant of a section, if it has one. */
  function URIColumn(s: Section): Option<Column>
  {
    match s
    case ProteinHeader => Some(ProteinURI)
    case PeptideHeader => Some(PeptideURI)
    case SmallMoleculeHeader => Some(SmallMoleculeURI)
    case PSMHeader => Some(PSMURI)
    case _ => None
  }

  /** The header prefixes isOptionalColumn accepts in a section, "opt_" last. */
  function OptionalPrefixes(s: Section): seq<string>
  {
    var specific :=
      match s
      case ProteinHeader => ["search_engine_score", "num_psms", "num_peptides_distinct",
          "num_peptides_unique", "protein_abundance_assay", "protein_abundance_study_variable",
          "protein_abundance_stdev_study_variable", "protein_abundance_std_error_study_variable"]
      case PeptideHeader => ["search_engine_score", "peptide_abundance_assay",
          "peptide_abundance_study_variable", "peptide_abundance_stdev_study_variable",
          "peptide_abundance_std_error_study_variable"]
      case SmallMoleculeHeader => ["smallmolecule_abundance_assay",
          "smallmolecule_abundance_study_variable", "smallmolecule_abundance_stdev_study_variable",
          "smallmolecule_abundance_std_error_study_variable"]
      case _ => [];
    specific + ["opt_"]
  }

  /** The body of isOptionalColumn on a normalised header h. */
  predicate IsOptionalHeader(s: Section, h: string)
  {
    var specific :=
      match s
      case ProteinHeader =>
        StartsWith(h, ProteinSearchEngineScore.name) || StartsWith(h, ProteinNumPsms.name)
        || StartsWith(h, ProteinNumPeptidesDistinct.name) || StartsWith(h, ProteinNumPeptidesUnique.name)
        || StartsWith(h, "protein_abundance_assay") || StartsWith(h, "protein_abundance_study_variable")
        || StartsWith(h, "protein_abundance_stdev_study_variable")
        || StartsWith(h, "protein_abundance_std_error_study_variable")
      case PeptideHeader =>
        StartsWith(h, PeptideSearchEngineScore.name)
        || StartsWith(h, "peptide_abundance_assay") || StartsWith(h, "peptide_abundance_study_variable")
        || StartsWith(h, "peptide_abundance_stdev_study_variable")
        || StartsWith(h, "peptide_abundance_std_error_study_variable")
      case SmallMoleculeHeader =>
        StartsWith(h, "smallmolecule_abundance_assay") || StartsWith(h, "smallmolecule_abundance_study_variable")
        || StartsWith(h, "smallmolecule_abundance_stdev_study_variable")
        || StartsWith(h, "smallmolecule_abundance_std_error_study_variable")
      case _ => false;
    specific || StartsWith(h, "opt_")
  }

  /** The switch of isOptionalColumn agrees with the prefix table, section by section. */
  lemma OptionalHeaderByPrefixes(s: Section, h: string)
    ensures IsOptionalHeader(s, h) <==> exists p :: p in OptionalPrefixes(s) && StartsWith(h, p)
  {
    match s
    case ProteinHeader => ProteinOptionalPrefixes(h);
    case PeptideHeader => PeptideOptionalPrefixes(h);
    case SmallMoleculeHeader => SmallMoleculeOptionalPrefixes(h);
    case _ => assert OptionalPrefixes(s) == ["opt_"];
  }

  lemma ProteinOptionalPrefixes(h: string)
    ensures IsOptionalHeader(ProteinHeader, h) <==> exists p :: p in OptionalPrefixes(ProteinHeader) && StartsWith(h, p)
  {
  }

  lemma PeptideOptionalPrefixes(h: string)
    ensures IsOptionalHeader(PeptideHeader, h) <==> exists p :: p in OptionalPrefixes(PeptideHeader) && StartsWith(h, p)
  {
  }

  lemma SmallMoleculeOptionalPrefixes(h: string)
    ensures IsOptionalHeader(SmallMoleculeHeader, h)
            <==> exists p :: p in OptionalPrefixes(SmallMoleculeHeader) && StartsWith(h, p)
  {
  }

  /** isOptionalColumn first trims the header and lower-cases it. */
  function Normalized(header: string): string
  {
    ToLower(Trim(header))
  }

  /** Normalising a normalised header changes nothing. */
  lemma {:induction false} NormalizedIdempotent(header: string)
    ensures Normalized(Normalized(header)) == Normalized(header)
  {
    var t := Trim(header);
    TrimIdempotent(header);
    LowerOfTrimmedIsTrimmed(t);
    ToLowerIdempotent(t);
  }

  lemma UnionUpdate(a: map<string, Column>, b: map<string, Column>, c: Column)
    ensures (a + b)[c.Position() := c] == a + b[c.Position() := c]
  {
  }

  lemma UnionKeys(a: map<string, Column>, b: map<string, Column>)
    ensures (a + b).Keys == a.Keys + b.Keys
  {
  }

  class ColumnFactory {
    const section: Section
    var stableColumnMapping: map<string, Column>
    var optionalColumnMapping: map<string, Column>
    var abundanceColumnMapping: map<string, Column>
    var columnMapping: map<string, Column>

    /** Every column is a stable or an optional one, and every stable or optional column is a column. */
    ghost predicate Valid()
      reads this
    {
      columnMapping.Keys == stableColumnMapping.Keys + optionalColumnMapping.Keys
    }

    /** Every abundance column is also an optional column. */
    ghost predicate AbundanceTracked()
      reads this
    {
      abundanceColumnMapping.Keys <= optionalColumnMapping.Keys
    }

    twostate predicate MapsUnchanged()
      reads this
    {
      stableColumnMapping == old(stableColumnMapping)
      && optionalColumnMapping == old(optionalColumnMapping)
      && abundanceColumnMapping == old(abundanceColumnMapping)
      && columnMapping == old(columnMapping)
    }

    /** The only change: column c put at its position in the optional map and in columnMapping. */
    twostate predicate OptionalPut(c: Column)
      reads this
    {
      stableColumnMapping == old(stableColumnMapping)
      && abundanceColumnMapping == old(abundanceColumnMapping)
      && optionalColumnMapping == old(optionalColumnMapping)[c.Position() := c]
      && columnMapping == old(columnMapping)[c.Position() := c]
    }

    /** The private constructor: a factory for the section with no columns. */
    constructor (section: Section)
      ensures this.section == section
      ensures stableColumnMapping == map[] && optionalColumnMapping == map[]
      ensures abundanceColumnMapping == map[] && columnMapping == map[]
      ensures Valid() && AbundanceTracked()
    {
      this.section := section;
      stableColumnMapping := map[];
      optionalColumnMapping := map[];
      abundanceColumnMapping := map[];
      columnMapping := map[];
    }

    /**
     * getInstance: IllegalArgumentException when the section has no header
     * section, otherwise an empty factory bound to the header section.
     */
    static method GetInstance(s: Section) returns (r: Result<ColumnFactory>)
      ensures r.Err? <==> ToHeaderSection(s).None?
      ensures r.Err? ==> r.error == IllegalArgument
      ensures r.Ok? ==> fresh(r.value) && r.value.section == ToHeaderSection(s).value
      ensures r.Ok? ==> r.value.columnMapping == map[] && r.value.stableColumnMapping == map[]
      ensures r.Ok? ==> r.value.optionalColumnMapping == map[] && r.value.abundanceColumnMapping == map[]
      ensures r.Ok? ==> r.value.Valid() && r.value.AbundanceTracked()
    {
      var header := ToHeaderSection(s);
      if header.None? {
        return Err(IllegalArgument);
      }
      var factory := new ColumnFactory(header.value);
      return Ok(factory);
    }

    // ----- stable columns -----

    /** addStableColumn: the column at its position in the stable map and in columnMapping. */
    method AddStableColumn(column: Column)
      requires Valid()
      modifies this
      ensures Valid() && (old(AbundanceTracked()) ==> AbundanceTracked())
      ensures stableColumnMapping == old(stableColumnMapping)[column.Position() := column]
      ensures columnMapping == old(columnMapping)[column.Position() := column]
      ensures optionalColumnMapping == old(optionalColumnMapping)
      ensures abundanceColumnMapping == old(abundanceColumnMapping)
    {
      stableColumnMapping := stableColumnMapping[column.Position() := column];
      columnMapping := columnMapping[column.Position() := column];
    }

    /**
     * addDefaultStableColumns: the section's stable columns, one after
     * another; IllegalArgumentException for a section its switch rejects.
     */
    method AddDefaultStableColumns() returns (o: Outcome)
      requires Valid()
      modifies this
      ensures Valid() && (old(AbundanceTracked()) ==> AbundanceTracked())
      ensures StableColumns(section).None? ==> o == Fail(IllegalArgument) && MapsUnchanged()
      ensures StableColumns(section).Some? ==>
                var added := ColumnsByPosition(StableColumns(section).value);
                o == Pass
                && stableColumnMapping == old(stableColumnMapping) + added
                && columnMapping == old(columnMapping) + added
                && optionalColumnMapping == old(optionalColumnMapping)
                && abundanceColumnMapping == old(abundanceColumnMapping)
    {
      var table := StableColumns(section);
      if table.None? {
        return Fail(IllegalArgument);
      }
      var cols := table.value;
      ghost var stable0 := stableColumnMapping;
      ghost var all0 := columnMapping;
      var i := 0;
      while i < |cols|
        invariant 0 <= i <= |cols|
        invariant Valid()
        invariant stableColumnMapping == stable0 + ColumnsByPosition(cols[..i])
        invariant columnMapping == all0 + ColumnsByPosition(cols[..i])
        invariant optionalColumnMapping == old(optionalColumnMapping)
        invariant abundanceColumnMapping == old(abundanceColumnMapping)
      {
        ColumnsByPositionSnoc(cols, i);
        UnionUpdate(stable0, ColumnsByPosition(cols[..i]), cols[i]);
        UnionUpdate(all0, ColumnsByPosition(cols[..i]), cols[i]);
        AddStableColumn(cols[i]);
        i := i + 1;
      }
      assert cols[..i] == cols;
      return Pass;
    }

    // ----- optional columns with a stable order -----

    /**
     * addOptionalColumn(column, msRun): IllegalArgumentException when the
     * template's position is taken; in the Protein header section, for
     * num_psms, num_peptides_distinct and num_peptides_unique, the column
     * built for the ms_run; otherwise nothing.
     */
    method AddOptionalColumn(column: Column, msRun: nat, create: OptionalColumnBuilder) returns (o: Outcome)
      requires Valid()
      modifies this
      ensures Valid() && (old(AbundanceTracked()) ==> AbundanceTracked())
      ensures column.Position() in old(columnMapping) ==> o == Fail(IllegalArgument) && MapsUnchanged()
      ensures column.Position() !in old(columnMapping) ==> o == Pass
      ensures column.Position() !in old(columnMapping) && section == ProteinHeader && column.name in RunCountNames()
              ==> OptionalPut(create(section, column, None, Some(msRun)))
      ensures !(section == ProteinHeader && column.name in RunCountNames()) ==> MapsUnchanged()
    {
      if column.Position() in columnMapping {
        return Fail(IllegalArgument);
      }
      if section == ProteinHeader && column.name in RunCountNames() {
        PutOptional(create(section, column, None, Some(msRun)));
      }
      return Pass;
    }

    /**
     * addBestSearchEngineScoreOptionalColumn: IllegalArgumentException when
     * the template's position is taken; the column built for the score id in
     * the Protein, Peptide and Small Molecule header sections; nothing in
     * the others or for another column name.
     */
    method AddBestSearchEngineScoreOptionalColumn(column: Column, id: int, create: OptionalColumnBuilder)
      returns (o: Outcome)
      requires Valid()
      modifies this
      ensures Valid() && (old(AbundanceTracked()) ==> AbundanceTracked())
      ensures column.Position() in old(columnMapping) ==> o == Fail(IllegalArgument) && MapsUnchanged()
      ensures column.Position() !in old(columnMapping) ==> o == Pass
      ensures column.Position() !in old(columnMapping) && AcceptsBestScore(section, column.name)
              ==> OptionalPut(create(section, column, Some(id), None))
      ensures !AcceptsBestScore(section, column.name) ==> MapsUnchanged()
    {
      if column.Position() in columnMapping {
        return Fail(IllegalArgument);
      }
      if AcceptsBestScore(section, column.name) {
        PutOptional(create(section, column, Some(id), None));
      }
      return Pass;
    }

    /**
     * addSearchEngineScoreOptionalColumn: IllegalArgumentException when the
     * template's position is taken; the column built for the score id and
     * the ms_run in the Protein and Peptide header sections, and without an
     * ms_run in the PSM header section; nothing otherwise.
     */
    method AddSearchEngineScoreOptionalColumn(column: Column, id: int, msRun: Option<nat>,
                                              create: OptionalColumnBuilder)
      returns (o: Outcome)
      requires Valid()
      modifies this
      ensures Valid() && (old(AbundanceTracked()) ==> AbundanceTracked())
      ensures column.Position() in old(columnMapping) ==> o == Fail(IllegalArgument) && MapsUnchanged()
      ensures column.Position() !in old(columnMapping) ==> o == Pass
      ensures column.Position() !in old(columnMapping) && AcceptsScore(section, column.name)
              ==> OptionalPut(create(section, column, Some(id), if section == PSMHeader then None else msRun))
      ensures !AcceptsScore(section, column.name) ==> MapsUnchanged()
    {
      if column.Position() in columnMapping {
        return Fail(IllegalArgument);
      }
      if AcceptsScore(section, column.name) {
        PutOptional(create(section, column, Some(id), if section == PSMHeader then None else msRun));
      }
      return Pass;
    }

    /** addGoTermsOptionalColumn: only in the Protein header section. */
    method AddGoTermsOptionalColumn() returns (o: Outcome)
      requires Valid()
      modifies this
      ensures Valid() && (old(AbundanceTracked()) ==> AbundanceTracked())
      ensures section != ProteinHeader ==> o == Fail(IllegalArgument) && MapsUnchanged()
      ensures section == ProteinHeader ==> o == Pass && OptionalPut(ProteinGoTerms)
    {
      if section != ProteinHeader {
        return Fail(IllegalArgument);
      }
      PutOptional(ProteinGoTerms);
      return Pass;
    }

    /** addReliabilityOptionalColumn(): the section's reliability column, if it has one. */
    method AddReliabilityOptionalColumn()
      requires Valid()
      modifies this
      ensures Valid() && (old(AbundanceTracked()) ==> AbundanceTracked())
      ensures ReliabilityColumn(section).None? ==> MapsUnchanged()
      ensures ReliabilityColumn(section).Some? ==> OptionalPut(ReliabilityColumn(section).value)
    {
      var column := ReliabilityColumn(section);
      if column.Some? {
        PutOptional(column.value);
      }
    }

    /** addReliabilityOptionalColumn(order): the reliability column moved to the order. */
    method AddReliabilityOptionalColumnWithOrder(order: string)
      requires Valid()
      modifies this
      ensures Valid() && (old(AbundanceTracked()) ==> AbundanceTracked())
      ensures ReliabilityColumn(section).None? ==> MapsUnchanged()
      ensures ReliabilityColumn(section).Some? ==> OptionalPut(ReliabilityColumn(section).value.WithOrder(order))
    {
      var column := ReliabilityColumn(section);
      if column.Some? {
        PutOptional(column.value.WithOrder(order));
      }
    }

    /** addURIOptionalColumn(): the section's uri column, if it has one. */
    method AddURIOptionalColumn()
      requires Valid()
      modifies this
      ensures Valid() && (old(AbundanceTracked()) ==> AbundanceTracked())
      ensures URIColumn(section).None? ==> MapsUnchanged()
      ensures URIColumn(section).Some? ==> OptionalPut(URIColumn(section).value)
    {
      var column := URIColumn(section);
      if column.Some? {
        PutOptional(column.value);
      }
    }

    /** addURIOptionalColumn(order): the uri column moved to the order. */
    method AddURIOptionalColumnWithOrder(order: string)
      requires Valid()
      modifies this
      ensures Valid() && (old(AbundanceTracked()) ==> AbundanceTracked())
      ensures URIColumn(section).None? ==> MapsUnchanged()
      ensures URIColumn(section).Some? ==> OptionalPut(URIColumn(section).value.WithOrder(order))
    {
      var column := URIColumn(section);
      if column.Some? {
        PutOptional(column.value.WithOrder(order));
      }
    }

    /** addOptionColumn(column): the column put in the optional map and columnMapping; its position. */
    method PutOptional(column: Column)
      requires Valid()
      modifies this
      ensures Valid() && (old(AbundanceTracked()) ==> AbundanceTracked())
      ensures OptionalPut(column)
    {
      optionalColumnMapping := optionalColumnMapping[column.Position() := column];
      columnMapping := columnMapping[column.Position() := column];
    }

    // ----- free-form optional columns -----

    /**
     * The eight addOptionalColumn overloads without an order (OptionColumn
     * and CVParamOptionColumn, global or per assay, study variable or
     * ms_run): the column built for the order of the last position.
     */
    method AddFreeOptionalColumn(make: int -> Column) returns (r: Result<string>)
      requires Valid()
      modifies this
      ensures Valid() && (old(AbundanceTracked()) ==> AbundanceTracked())
      ensures LastKeyOrder(old(columnMapping)).Err? ==> r == Err(LastKeyOrder(old(columnMapping)).error) && MapsUnchanged()
      ensures LastKeyOrder(old(columnMapping)).Ok? ==>
                var c := make(LastKeyOrder(old(columnMapping)).value);
                r == Ok(c.Position()) && OptionalPut(c)
    {
      var order := LastKeyOrder(columnMapping);
      if order.Err? {
        return Err(order.error);
      }
      var column := make(order.value);
      PutOptional(column);
      return Ok(column.Position());
    }

    /**
     * The eight addOptionalColumn overloads with an order: the column built
     * for the order of the last position, then moved to the given order.
     */
    method AddFreeOptionalColumnWithOrder(make: int -> Column, order: string) returns (r: Result<string>)
      requires Valid()
      modifies this
      ensures Valid() && (old(AbundanceTracked()) ==> AbundanceTracked())
      ensures LastKeyOrder(old(columnMapping)).Err? ==> r == Err(LastKeyOrder(old(columnMapping)).error) && MapsUnchanged()
      ensures LastKeyOrder(old(columnMapping)).Ok? ==>
                var c := make(LastKeyOrder(old(columnMapping)).value).WithOrder(order);
                r == Ok(c.Position()) && OptionalPut(c)
    {
      var last := LastKeyOrder(columnMapping);
      if last.Err? {
        return Err(last.error);
      }
      var column := make(last.value).WithOrder(order);
      PutOptional(column);
      return Ok(column.Position());
    }

    // ----- abundance columns -----

    /** addAbundanceOptionalColumn(assay): the abundance column for the order of the last position. */
    method AddAbundanceOptionalColumn(make: int -> Column) returns (r: Result<string>)
      requires Valid()
      modifies this
      ensures Valid() && (old(AbundanceTracked()) ==> AbundanceTracked())
      ensures LastKeyOrder(old(columnMapping)).Err? ==> r == Err(LastKeyOrder(old(columnMapping)).error) && MapsUnchanged()
      ensures LastKeyOrder(old(columnMapping)).Ok? ==>
                var c := make(LastKeyOrder(old(columnMapping)).value);
                r == Ok(c.Position())
                && stableColumnMapping == old(stableColumnMapping)
                && abundanceColumnMapping == old(abundanceColumnMapping)[c.Position() := c]
                && optionalColumnMapping == old(optionalColumnMapping)[c.Position() := c]
                && columnMapping == old(columnMapping)[c.Position() := c]
    {
      var order := LastKeyOrder(columnMapping);
      if order.Err? {
        return Err(order.error);
      }
      var column := make(order.value);
      abundanceColumnMapping := abundanceColumnMapping[column.Position() := column];
      PutOptional(column);
      return Ok(column.Position());
    }

    /**
     * addAbundanceOptionalColumn(assay, order): NumberFormatException when
     * the order is not an integer; otherwise the abundance column built for
     * it is filed in the abundance map under its position before setOrder,
     * and in the optional map and columnMapping under its position after.
     */
    method AddAbundanceOptionalColumnWithOrder(make: int -> Column, order: string) returns (r: Result<string>)
      requires Valid()
      modifies this
      ensures Valid()
      ensures ParseInt(order).None? ==> r == Err(NumberFormat) && MapsUnchanged()
      ensures ParseInt(order).Some? ==>
                var c := make(ParseInt(order).value);
                var moved := c.WithOrder(order);
                r == Ok(moved.Position())
                && stableColumnMapping == old(stableColumnMapping)
                && abundanceColumnMapping == old(abundanceColumnMapping)[c.Position() := moved]
                && optionalColumnMapping == old(optionalColumnMapping)[moved.Position() := moved]
                && columnMapping == old(columnMapping)[moved.Position() := moved]
      ensures (old(AbundanceTracked()) && ParseInt(order).Some?
               && make(ParseInt(order).value).order == order) ==> AbundanceTracked()
    {
      var value := ParseInt(order);
      if value.None? {
        return Err(NumberFormat);
      }
      var column := make(value.value);
      var moved := column.WithOrder(order);
      abundanceColumnMapping := abundanceColumnMapping[column.Position() := moved];
      PutOptional(moved);
      return Ok(moved.Position());
    }

    /** The three abundance columns of a study variable put into every map but the stable one; the last position. */
    method PutStudyVariableColumns(columns: map<string, Column>) returns (r: Result<string>)
      requires Valid()
      modifies this
      ensures Valid() && (old(AbundanceTracked()) ==> AbundanceTracked())
      ensures stableColumnMapping == old(stableColumnMapping)
      ensures abundanceColumnMapping == old(abundanceColumnMapping) + columns
      ensures optionalColumnMapping == old(optionalColumnMapping) + columns
      ensures columnMapping == old(columnMapping) + columns
      ensures |columns| == 0 ==> r == Err(NoSuchElement)
      ensures |columns| > 0 ==> r == Ok(LastKey(columns))
    {
      r := if |columns| == 0 then Err(NoSuchElement) else Ok(LastKey(columns));
      UnionKeys(columnMapping, columns);
      UnionKeys(optionalColumnMapping, columns);
      UnionKeys(abundanceColumnMapping, columns);
      abundanceColumnMapping := abundanceColumnMapping + columns;
      optionalColumnMapping := optionalColumnMapping + columns;
      columnMapping := columnMapping + columns;
    }

    /** addAbundanceOptionalColumn(studyVariable): the columns built for the order of the last position. */
    method AddAbundanceStudyVariableColumns(make: int -> map<string, Column>) returns (r: Result<string>)
      requires Valid()
      modifies this
      ensures Valid() && (old(AbundanceTracked()) ==> AbundanceTracked())
      ensures LastKeyOrder(old(columnMapping)).Err? ==> r == Err(LastKeyOrder(old(columnMapping)).error) && MapsUnchanged()
      ensures LastKeyOrder(old(columnMapping)).Ok? ==>
                var cols := make(LastKeyOrder(old(columnMapping)).value);
                stableColumnMapping == old(stableColumnMapping)
                && abundanceColumnMapping == old(abundanceColumnMapping) + cols
                && optionalColumnMapping == old(optionalColumnMapping) + cols
                && columnMapping == old(columnMapping) + cols
                && r == (if |cols| == 0 then Err(NoSuchElement) else Ok(LastKey(cols)))
    {
      var order := LastKeyOrder(columnMapping);
      if order.Err? {
        return Err(order.error);
      }
      r := PutStudyVariableColumns(make(order.value));
    }

    /** addAbundanceOptionalColumn(studyVariable, order): the columns built for the given order. */
    method AddAbundanceStudyVariableColumnsWithOrder(make: string -> map<string, Column>, order: string)
      returns (r: Result<string>)
      requires Valid()
      modifies this
      ensures Valid() && (old(AbundanceTracked()) ==> AbundanceTracked())
      ensures stableColumnMapping == old(stableColumnMapping)
      ensures abundanceColumnMapping == old(abundanceColumnMapping) + make(order)
      ensures optionalColumnMapping == old(optionalColumnMapping) + make(order)
      ensures columnMapping == old(columnMapping) + make(order)
      ensures r == (if |make(order)| == 0 then Err(NoSuchElement) else Ok(LastKey(make(order))))
    {
      r := PutStudyVariableColumns(make(order));
    }

    // ----- queries -----

    /** getHeaderList: the headers of all columns in position order. */
    method GetHeaderList() returns (headers: seq<string>)
      ensures headers == Headers(columnMapping)
    {
      var keys := SortedKeys(columnMapping);
      headers := [];
      var i := 0;
      while i < |keys|
        invariant 0 <= i <= |keys|
        invariant |headers| == i
        invariant forall j :: 0 <= j < i ==> headers[j] == columnMapping[keys[j]].header
      {
        headers := headers + [columnMapping[keys[i]].header];
        i := i + 1;
      }
    }

    /** toString: the header line. */
    method ToString() returns (line: string)
      ensures line == HeaderLine(section, columnMapping)
    {
      var headers := GetHeaderList();
      line := Prefix(section) + [TAB] + ListText(headers, TAB);
    }

    /** getOffsetColumnsMap: offsets 1..n to the columns in position order. */
    method GetOffsetColumnsMap() returns (offsets: map<int, Column>)
      ensures forall i :: i in offsets <==> 1 <= i <= |columnMapping|
      ensures forall i :: 1 <= i <= |columnMapping| ==> offsets[i] == columnMapping[SortedKeys(columnMapping)[i - 1]]
    {
      var keys := SortedKeys(columnMapping);
      offsets := map[];
      var offset := 1;
      while offset <= |keys|
        invariant 1 <= offset <= |keys| + 1
        invariant forall i :: i in offsets <==> 1 <= i < offset
        invariant forall i :: 1 <= i < offset ==> offsets[i] == columnMapping[keys[i - 1]]
      {
        offsets := offsets[offset := columnMapping[keys[offset - 1]]];
        offset := offset + 1;
      }
    }

    /**
     * isOptionalColumn: a header is optional exactly when its normalised form
     * starts with one of the section's optional prefixes.
     */
    function IsOptionalColumn(header: string): (r: bool)
      ensures r <==> exists p :: p in OptionalPrefixes(section) && StartsWith(Normalized(header), p)
    {
      OptionalHeaderByPrefixes(section, Normalized(header));
      IsOptionalHeader(section, Normalized(header))
    }

    /** Classifying a header ignores surrounding blanks and letter case. */
    lemma IsOptionalColumnNormalizes(header: string)
      ensures IsOptionalColumn(header) == IsOptionalColumn(Normalized(header))
    {
      NormalizedIdempotent(header);
    }

    /** findColumnByHeader: the first column in position order whose header matches the trimmed header up to case. */
    method FindColumnByHeader(header: string) returns (r: Option<Column>)
      ensures r == FirstByHeader(columnMapping, SortedKeys(columnMapping), Trim(header))
    {
      var h := Trim(header);
      var keys := SortedKeys(columnMapping);
      var i := 0;
      while i < |keys|
        invariant 0 <= i <= |keys|
        invariant FirstByHeader(columnMapping, keys, h) == FirstByHeader(columnMapping, keys[i..], h)
      {
        var column := columnMapping[keys[i]];
        if EqualsIgnoreCase(h, column.header) {
          return Some(column);
        }
        assert keys[i..][1..] == keys[i + 1..];
        i := i + 1;
      }
      return None;
    }

    /** findColumnByPosition: map look-up, null when the position is not a column. */
    function FindColumnByPosition(position: string): (r: Option<Column>)
      reads this
      ensures r.Some? <==> position in columnMapping
      ensures r.Some? ==> r.value == columnMapping[position]
    {
      if position in columnMapping then Some(columnMapping[position]) else None
    }

    /**
     * findAllColumnsByOrder: the columns whose position starts with the
     * order; StringIndexOutOfBoundsException when some position is shorter
     * than two characters.
     */
    method FindAllColumnsByOrder(order: string) returns (r: Result<map<string, Column>>)
      ensures r.Err? <==> exists k :: k in columnMapping && |k| < 2
      ensures r.Err? ==> r.error == StringIndexOutOfBounds
      ensures r.Ok? ==> forall k :: k in r.value <==> k in columnMapping && ColumnOrder(k) == Ok(order)
      ensures r.Ok? ==> forall k :: k in r.value ==> r.value[k] == columnMapping[k]
    {
      var keys := SortedKeys(columnMapping);
      var mapping := map[];
      var i := 0;
      while i < |keys|
        invariant 0 <= i <= |keys|
        invariant forall j :: 0 <= j < i ==> |keys[j]| >= 2
        invariant forall k :: k in mapping <==> k in keys[..i] && ColumnOrder(k) == Ok(order)
        invariant forall k :: k in mapping ==> mapping[k] == columnMapping[k]
      {
        var position := keys[i];
        var o := ColumnOrder(position);
        if o.Err? {
          return Err(o.error);
        }
        if order == o.value {
          mapping := mapping[position := columnMapping[position]];
        }
        assert keys[..i + 1] == keys[..i] + [position];
        i := i + 1;
      }
      assert keys[..i] == keys;
      SortedKeysSpec(columnMapping);
      forall k | k in columnMapping ensures |k| >= 2 {
        var j :| 0 <= j < |keys| && keys[j] == k;
      }
      return Ok(mapping);
    }
  }

  /** The headers of the columns, in the order listed. */
  function ColumnHeaders(cols: seq<Column>): (r: seq<string>)
    ensures |r| == |cols|
  {
    seq(|cols|, i requires 0 <= i < |cols| => cols[i].header)
  }

  /** Columns listed in ascending position order show their headers in the order listed. */
  lemma HeadersOfSortedColumns(cols: seq<Column>)
    requires StrictlySorted(Positions(cols))
    ensures Headers(ColumnsByPosition(cols)) == ColumnHeaders(cols)
  {
    SortedPositionsDistinct(cols);
    ColumnsByDistinctPositions(cols);
    ColumnsBySortedPositions(cols);
  }

  // ----- scenario -----

  /** The Peptide header section's stable columns are listed in ascending position order. */
  lemma PeptideStablePositions()
    ensures Positions(PeptideStableColumns()) == ["01", "02", "03", "04", "05", "06", "10", "11", "12", "13", "14", "16"]
    ensures StrictlySorted(Positions(PeptideStableColumns()))
  {
    var s := ["01", "02", "03", "04", "05", "06", "10", "11", "12", "13", "14", "16"];
    assert Positions(PeptideStableColumns()) == s;
    SortedFromNeighbours(s);
  }

  /** The stable headers of the Peptide header section, in display order. */
  function PeptideStableHeaderNames(): seq<string>
  {
    ["sequence", "accession", "unique", "database", "database_version", "search_engine",
     "modifications", "retention_time", "retention_time_window", "charge", "mass_to_charge", "spectra_ref"]
  }

  /**
   * A Peptide header factory holding its default stable columns shows the
   * twelve stable headers in their display order.
   */
  lemma PeptideHeaders()
    ensures Headers(ColumnsByPosition(PeptideStableColumns())) == PeptideStableHeaderNames()
  {
    PeptideStablePositions();
    HeadersOfSortedColumns(PeptideStableColumns());
    PeptideStableHeaders();
  }

  lemma PeptideStableHeaders()
    ensures ColumnHeaders(PeptideStableColumns()) == PeptideStableHeaderNames()
  {
  }

  /** A header line has one TAB per column when no header holds a TAB. */
  lemma HeaderLineTabs(s: Section, m: map<string, Column>)
    requires |m| > 0
    requires forall k :: k in m ==> TAB !in m[k].header
    ensures multiset(HeaderLine(s, m))[TAB] == |m|
  {
    var h := Headers(m);
    forall i | 0 <= i < |h| ensures TAB !in h[i] {
      assert SortedKeys(m)[i] in m;
    }
    ListTextDelimiters(h, TAB);
    var p := Prefix(s);
    assert TAB !in p by {
      forall i | 0 <= i < |p| ensures p[i] != TAB {
        assert 'A' <= p[i] <= 'Z';
      }
    }
  }
}
