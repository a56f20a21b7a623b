# mzTab column registry and Peptide rows, in Dafny

This project models two parts of jmzTab, the Java library for the mzTab
proteomics/metabolomics exchange format, and proves properties of the model.

1. **`MZTabColumnFactory`** is the column registry of one header section
   (Protein, Peptide, PSM, Small Molecule and others). The model is the class
   `ColumnFactories.ColumnFactory`. It keeps four sorted maps as fields. Each
   map goes from a column's *logical position* to the column:
   - `stableColumnMapping`;
   - `optionalColumnMapping`;
   - `abundanceColumnMapping`;
   - `columnMapping`, the union of the others.

   A logical position is a two-character order followed by a suffix, such as
   `"01"` or `"091"`. Java `TreeMap` iteration becomes `SortedMaps.SortedKeys`:
   the keys in ascending `String.compareTo` order, proved unique and strictly
   sorted. Every adder is a method with `modifies this`. Each one states the
   new contents of all four maps and preserves the invariant `Valid()`:
   `columnMapping` has exactly the keys of the stable and optional maps. The
   non-order adders also keep every abundance key among the optional keys.
   The queries are imperative too: the header list, the header line, the
   offset map, header and order search. Each query's loop is proved against a
   specification function: `Headers`, `HeaderLine`, `FirstByHeader`, or the
   sub-map selected by `ColumnOrder`.
2. **`Peptide`** is the typed façade over one row of the Peptide section. The
   model is the class `PeptideRecords.Peptide`. It is bound to a
   `ColumnFactory` and holds its cells as a map from position to `Records.Cell`.
   - A cell is missing, a scalar value, or a `SplitList` (a delimiter plus its
     items).
   - Getters are functions. Setters and `add*` methods are methods that state
     the whole new cell map.
   - The list appenders follow a create-on-first-append pattern. The
     delimiter is BAR for most lists and COMMA for modifications. Only
     `addSearchEngineParam` suppresses duplicates.

The Java exceptions on the modelled paths become values: `Results.Result`,
or `Results.Outcome` for `void` methods. A Java `null` becomes
`Results.Option`.

The code that builds column objects is not part of this model:
`MZTabColumn.createOptionalColumn`, `OptionColumn`, `CVParamOptionColumn`
and `AbundanceColumn.createOptionalColumn(s)`. Each adder therefore takes the
construction as a function parameter: `create` or `make`. The value parsers
(`parseParam`, `parseDouble`, `MZBoolean.findBoolean`, …) are also not part of
this model. They are passed to the `String` overloads as function parameters.

The `*Column` constant classes (`ProteinColumn`, `PeptideColumn`,
`PSMColumn`, `SmallMoleculeColumn`) are not part of this model either.
`ColumnTables` gives each constant that `addDefaultStableColumns` names a
header and an order; these values are assumed, not taken from code:
- the Peptide constants follow the column order of the Peptide table of mzTab
  1.0: the stable columns sit at orders 01–06, 10–14 and 16, and
  best_search_engine_score (07), search_engine_score (08), reliability (09)
  and uri (15) are optional;
- the Protein and PSM orders are numbered in the mzTab 1.0 table order;
- the Small Molecule headers are the constant names as the factory lists
  them (lines 185-199 of `MZTabColumnFactory.java`), numbered 01..15 in that
  listing order.

Points where the code does something a reader might not expect:
- **The union map may hold a key twice.** Nothing keeps the family maps
  disjoint: a stable and an optional column may share a key, and the later
  `put` wins in `columnMapping`. So `Valid()` states a key-set union, not a
  disjoint union.
- **`Peptide(Metadata)` gets an empty registry.** Its doc comment promises a
  record with the stable columns. It calls `getInstance(Section.Peptide)`.
  This model uses the `getInstance` of `jmztab-model` (the only factory
  available to it), which creates a registry with no columns, so `Create`
  binds such a registry; the factory of the `jmztab/trunk` tree is not part
  of this model.
- **The duplicate guard tests the template.** `addOptionalColumn`,
  `addBestSearchEngineScoreOptionalColumn` and
  `addSearchEngineScoreOptionalColumn` check the *template* column's position.
  They do not check the position of the column they create. The model does
  the same.
- **Record behaviour is assumed.** The base class `MZTabRecord` is not part
  of this model. The model assumes:
  - a read or write at a position the bound registry lacks fails with
    IllegalArgument;
  - an unset cell reads as missing and renders as `null`;
  - a typed read of the wrong kind fails with ClassCast.

## Model

| member | source | states |
|---|---|---|
| Sections.ToHeaderSection | jmztab-model/src/main/java/uk/ac/ebi/pride/jmztab/model/MZTabColumnFactory.java:56-67 | a table section and its header section both map to that header section; Comment and Metadata have none |
| Sections.Prefix | jmztab-model/src/main/java/uk/ac/ebi/pride/jmztab/model/MZTabColumnFactory.java:681-684 | every section prefix is three capital letters |
| Sections.PrefixInjective | jmztab-model/src/main/java/uk/ac/ebi/pride/jmztab/model/MZTabColumnFactory.java:681-684 | different sections have different line prefixes |
| Columns.ColumnOrder | jmztab-model/src/main/java/uk/ac/ebi/pride/jmztab/model/MZTabColumnFactory.java:342-344 | the order is the two-character prefix of the position; a position shorter than two characters is StringIndexOutOfBounds, in both directions |
| Columns.PositionOrder | jmztab-model/src/main/java/uk/ac/ebi/pride/jmztab/model/MZTabColumnFactory.java:686-709 | positions sort by order first, then by suffix within one order (so "091" < "092" < "10") |
| Columns.ColumnsByPositionKeys | jmztab-model/src/main/java/uk/ac/ebi/pride/jmztab/model/MZTabColumnFactory.java:213-216 | putting columns one by one yields exactly their positions as keys |
| Columns.ColumnsByPositionValues | jmztab-model/src/main/java/uk/ac/ebi/pride/jmztab/model/MZTabColumnFactory.java:213-216 | every column ends up filed under its own position |
| Columns.ColumnsByDistinctPositions | jmztab-model/src/main/java/uk/ac/ebi/pride/jmztab/model/MZTabColumnFactory.java:213-216 | with distinct positions the map has one entry per column and each column at its position |
| Columns.ColumnsBySortedPositions | jmztab-model/src/main/java/uk/ac/ebi/pride/jmztab/model/MZTabColumnFactory.java:135-211 | columns listed in ascending position order are iterated in the order they were added |
| Columns.ColumnsByPositionSnoc | jmztab-model/src/main/java/uk/ac/ebi/pride/jmztab/model/MZTabColumnFactory.java:213-216 | adding one more column extends the map by exactly that column |
| ColumnTables.StableColumns | jmztab-model/src/main/java/uk/ac/ebi/pride/jmztab/model/MZTabColumnFactory.java:135-211 | a stable-column list exists exactly for the header sections; the others throw |
| SortedMaps.SortedKeysSpec | jmztab-model/src/main/java/uk/ac/ebi/pride/jmztab/model/MZTabColumnFactory.java:667-675 | TreeMap iteration visits exactly the keys of the map, strictly ascending |
| SortedMaps.SortedKeysOf | jmztab-model/src/main/java/uk/ac/ebi/pride/jmztab/model/MZTabColumnFactory.java:667-675 | a strictly sorted list of exactly the keys is the iteration order (uniqueness) |
| SortedMaps.LastKeyGreatest | jmztab-model/src/main/java/uk/ac/ebi/pride/jmztab/model/MZTabColumnFactory.java:485-488 | lastKey() is greater than every other key |
| SortedMaps.SortedKeysAppendGreatest | jmztab-model/src/main/java/uk/ac/ebi/pride/jmztab/model/MZTabColumnFactory.java:461-467 | putting a key greater than every present key puts it last in iteration order and leaves the rest in place |
| SortedMaps.LeadMonotone | jmztab-model/src/main/java/uk/ac/ebi/pride/jmztab/model/MZTabColumnFactory.java:342-344 | for two-digit positions, the numeric order never decreases along the key order |
| Strings.ParseTwoDigits | jmztab-model/src/main/java/uk/ac/ebi/pride/jmztab/model/MZTabColumnFactory.java:485-488 | new Integer on a two-digit order gives its decimal value |
| Strings.ParseIntToString | jmztab-model/src/main/java/uk/ac/ebi/pride/jmztab/model/MZTabColumnFactory.java:634-638 | new Integer parses back every 32-bit value Integer.toString renders |
| Strings.TrimIdempotent | jmztab-model/src/main/java/uk/ac/ebi/pride/jmztab/model/MZTabColumnFactory.java:763 | trimming twice is trimming once |
| Strings.EqualsIgnoreCaseIsLowerEquality | jmztab-model/src/main/java/uk/ac/ebi/pride/jmztab/model/MZTabColumnFactory.java:766 | equalsIgnoreCase holds exactly when the lower-cased strings are equal |
| SplitLists.ListTextSnoc | jmztab/trunk/src/main/java/uk/ac/ebi/pride/jmztab/model/Peptide.java:155-164 | adding an item to a non-empty SplitList extends its text by the delimiter and the item |
| SplitLists.ListTextDelimiters | jmztab/trunk/src/main/java/uk/ac/ebi/pride/jmztab/model/Peptide.java:699-702 | n delimiter-free items render with n-1 delimiters |
| ColumnFactories.Headers | jmztab-model/src/main/java/uk/ac/ebi/pride/jmztab/model/MZTabColumnFactory.java:667-675 | one header per column; the i-th is the header of the i-th position in ascending order |
| ColumnFactories.FirstByHeader | jmztab-model/src/main/java/uk/ac/ebi/pride/jmztab/model/MZTabColumnFactory.java:762-772 | null exactly when no header matches ignoring case; otherwise the first match in iteration order |
| ColumnFactories.FirstByHeaderIgnoresCase | jmztab-model/src/main/java/uk/ac/ebi/pride/jmztab/model/MZTabColumnFactory.java:762-772 | two queries that differ only in letter case find the same column |
| ColumnFactories.LastKeyOrder | jmztab-model/src/main/java/uk/ac/ebi/pride/jmztab/model/MZTabColumnFactory.java:485-488 | empty map: NoSuchElement; last key shorter than two: StringIndexOutOfBounds; otherwise a 32-bit int |
| ColumnFactories.LastKeyOrderIsLargestOrder | jmztab-model/src/main/java/uk/ac/ebi/pride/jmztab/model/MZTabColumnFactory.java:485-488 | with two-digit positions, the order taken from lastKey() is the largest order in the registry |
| ColumnFactories.OptionalHeaderByPrefixes | jmztab-model/src/main/java/uk/ac/ebi/pride/jmztab/model/MZTabColumnFactory.java:716-754 | the switch accepts a header exactly when it starts with one of the section's optional prefixes or opt_ |
| ColumnFactories.ProteinOptionalPrefixes | jmztab-model/src/main/java/uk/ac/ebi/pride/jmztab/model/MZTabColumnFactory.java:720-731 | the Protein case accepts exactly the search_engine_score, num_* and protein_abundance_* prefixes, plus opt_ |
| ColumnFactories.PeptideOptionalPrefixes | jmztab-model/src/main/java/uk/ac/ebi/pride/jmztab/model/MZTabColumnFactory.java:732-740 | the Peptide case accepts exactly search_engine_score and the peptide_abundance_* prefixes, plus opt_ |
| ColumnFactories.SmallMoleculeOptionalPrefixes | jmztab-model/src/main/java/uk/ac/ebi/pride/jmztab/model/MZTabColumnFactory.java:741-750 | the Small Molecule case accepts exactly the smallmolecule_abundance_* prefixes, plus opt_ |
| ColumnFactories.NormalizedIdempotent | jmztab-model/src/main/java/uk/ac/ebi/pride/jmztab/model/MZTabColumnFactory.java:717 | trim + toLowerCase applied twice equals once |
| ColumnFactories.ColumnFactory.constructor | jmztab-model/src/main/java/uk/ac/ebi/pride/jmztab/model/MZTabColumnFactory.java:47-48 | a factory of the section with all four maps empty, Valid and abundance-tracked |
| ColumnFactories.ColumnFactory.GetInstance | jmztab-model/src/main/java/uk/ac/ebi/pride/jmztab/model/MZTabColumnFactory.java:56-67 | IllegalArgument exactly when the section has no header section; otherwise a fresh factory bound to the header section with all maps empty |
| ColumnFactories.ColumnFactory.AddStableColumn | jmztab-model/src/main/java/uk/ac/ebi/pride/jmztab/model/MZTabColumnFactory.java:213-216 | puts the column at its position in the stable map and the union map; the other maps are unchanged; Valid preserved |
| ColumnFactories.ColumnFactory.AddDefaultStableColumns | jmztab-model/src/main/java/uk/ac/ebi/pride/jmztab/model/MZTabColumnFactory.java:135-211 | IllegalArgument with no change for a section without stable columns; otherwise the stable and union maps gain exactly that section's stable columns, the optional and abundance maps are unchanged |
| ColumnFactories.ColumnFactory.AddOptionalColumn | jmztab-model/src/main/java/uk/ac/ebi/pride/jmztab/model/MZTabColumnFactory.java:226-246 | IllegalArgument with no change when the template's position is taken; the per-ms_run column for num_psms / num_peptides_distinct / num_peptides_unique in the Protein section; no change otherwise |
| ColumnFactories.ColumnFactory.AddBestSearchEngineScoreOptionalColumn | jmztab-model/src/main/java/uk/ac/ebi/pride/jmztab/model/MZTabColumnFactory.java:257-289 | duplicate template position: IllegalArgument; best score column added in the Protein, Peptide and Small Molecule sections for that name; no change in PSM or for other names |
| ColumnFactories.ColumnFactory.AddSearchEngineScoreOptionalColumn | jmztab-model/src/main/java/uk/ac/ebi/pride/jmztab/model/MZTabColumnFactory.java:300-335 | duplicate template position: IllegalArgument; score column added in Protein and Peptide with the ms_run, in PSM without it; no change in Small Molecule or for other names |
| ColumnFactories.ColumnFactory.AddGoTermsOptionalColumn | jmztab-model/src/main/java/uk/ac/ebi/pride/jmztab/model/MZTabColumnFactory.java:351-359 | IllegalArgument with no change outside the Protein section; otherwise go_terms is put in the optional and union maps |
| ColumnFactories.ColumnFactory.AddReliabilityOptionalColumn | jmztab-model/src/main/java/uk/ac/ebi/pride/jmztab/model/MZTabColumnFactory.java:364-385 | the section's reliability column put in the optional and union maps; no change in a section without one |
| ColumnFactories.ColumnFactory.AddReliabilityOptionalColumnWithOrder | jmztab-model/src/main/java/uk/ac/ebi/pride/jmztab/model/MZTabColumnFactory.java:387-409 | as above, with the column moved to the given order |
| ColumnFactories.ColumnFactory.AddURIOptionalColumn | jmztab-model/src/main/java/uk/ac/ebi/pride/jmztab/model/MZTabColumnFactory.java:414-435 | the section's uri column put in the optional and union maps; no change in a section without one |
| ColumnFactories.ColumnFactory.AddURIOptionalColumnWithOrder | jmztab-model/src/main/java/uk/ac/ebi/pride/jmztab/model/MZTabColumnFactory.java:437-459 | as above, with the column moved to the given order |
| ColumnFactories.ColumnFactory.PutOptional | jmztab-model/src/main/java/uk/ac/ebi/pride/jmztab/model/MZTabColumnFactory.java:461-467 | the column at its position in the optional and union maps, nothing else changes, Valid preserved |
| ColumnFactories.ColumnFactory.AddFreeOptionalColumn | jmztab-model/src/main/java/uk/ac/ebi/pride/jmztab/model/MZTabColumnFactory.java:485-488 | the order comes from lastKey(): its errors (empty map, short key) leave every map unchanged; otherwise the built column is put and its position returned (the name, assay, study-variable, ms_run and CVParam overloads up to line 618 share this shape) |
| ColumnFactories.ColumnFactory.AddFreeOptionalColumnWithOrder | jmztab-model/src/main/java/uk/ac/ebi/pride/jmztab/model/MZTabColumnFactory.java:490-493 | as above, with the built column moved to the given order before it is put |
| ColumnFactories.ColumnFactory.AddAbundanceOptionalColumn | jmztab-model/src/main/java/uk/ac/ebi/pride/jmztab/model/MZTabColumnFactory.java:628-632 | the assay abundance column is put in the abundance, optional and union maps and its position returned; lastKey() errors change nothing |
| ColumnFactories.ColumnFactory.AddAbundanceOptionalColumnWithOrder | jmztab-model/src/main/java/uk/ac/ebi/pride/jmztab/model/MZTabColumnFactory.java:634-638 | a non-integer order is NumberFormat with no change; otherwise the abundance map files the column under its position before the move, the optional and union maps under its position after |
| ColumnFactories.ColumnFactory.PutStudyVariableColumns | jmztab-model/src/main/java/uk/ac/ebi/pride/jmztab/model/MZTabColumnFactory.java:650-653 | putAll into the abundance, optional and union maps; returns the greatest new key, or NoSuchElement for an empty set |
| ColumnFactories.ColumnFactory.AddAbundanceStudyVariableColumns | jmztab-model/src/main/java/uk/ac/ebi/pride/jmztab/model/MZTabColumnFactory.java:648-654 | the three study-variable columns built at the next order are put in the three maps; lastKey() errors change nothing |
| ColumnFactories.ColumnFactory.AddAbundanceStudyVariableColumnsWithOrder | jmztab-model/src/main/java/uk/ac/ebi/pride/jmztab/model/MZTabColumnFactory.java:656-662 | the study-variable columns built at the given order are put in the three maps; the greatest new key is returned |
| ColumnFactories.ColumnFactory.GetHeaderList | jmztab-model/src/main/java/uk/ac/ebi/pride/jmztab/model/MZTabColumnFactory.java:667-675 | the loop yields the headers in ascending position order (Headers) |
| ColumnFactories.ColumnFactory.ToString | jmztab-model/src/main/java/uk/ac/ebi/pride/jmztab/model/MZTabColumnFactory.java:681-684 | the section prefix, a TAB, then the header list rendered with TAB |
| ColumnFactories.HeaderLineTabs | jmztab-model/src/main/java/uk/ac/ebi/pride/jmztab/model/MZTabColumnFactory.java:681-684 | a header line has exactly one TAB per column when no header holds a TAB |
| ColumnFactories.ColumnFactory.GetOffsetColumnsMap | jmztab-model/src/main/java/uk/ac/ebi/pride/jmztab/model/MZTabColumnFactory.java:700-709 | the keys are exactly 1..n and offset i holds the i-th column in ascending position order |
| ColumnFactories.ColumnFactory.IsOptionalColumn | jmztab-model/src/main/java/uk/ac/ebi/pride/jmztab/model/MZTabColumnFactory.java:716-754 | isOptionalColumn holds exactly when the trimmed, lower-cased header starts with a prefix of the section's table |
| ColumnFactories.ColumnFactory.IsOptionalColumnNormalizes | jmztab-model/src/main/java/uk/ac/ebi/pride/jmztab/model/MZTabColumnFactory.java:717 | a header and its trimmed lower-case form get the same answer |
| ColumnFactories.ColumnFactory.FindColumnByHeader | jmztab-model/src/main/java/uk/ac/ebi/pride/jmztab/model/MZTabColumnFactory.java:762-772 | the loop returns the first column in position order whose header equals the trimmed query ignoring case, or null |
| ColumnFactories.ColumnFactory.FindColumnByPosition | jmztab-model/src/main/java/uk/ac/ebi/pride/jmztab/model/MZTabColumnFactory.java:777-779 | a column exactly when the position is a key, and then the column stored there |
| ColumnFactories.ColumnFactory.FindAllColumnsByOrder | jmztab-model/src/main/java/uk/ac/ebi/pride/jmztab/model/MZTabColumnFactory.java:784-794 | StringIndexOutOfBounds exactly when some position is shorter than two; otherwise exactly the sub-map of positions whose order is the query |
| ColumnFactories.HeadersOfSortedColumns | jmztab-model/src/main/java/uk/ac/ebi/pride/jmztab/model/MZTabColumnFactory.java:135-216 | stable columns listed in ascending position order give headers in the listed order |
| ColumnFactories.PeptideStablePositions | jmztab-model/src/main/java/uk/ac/ebi/pride/jmztab/model/MZTabColumnFactory.java:151-164 | the Peptide stable positions are 01–06, 10–14, 16, strictly ascending |
| ColumnFactories.PeptideHeaders | jmztab-model/src/main/java/uk/ac/ebi/pride/jmztab/model/MZTabColumnFactory.java:151-164 | after addDefaultStableColumns on Peptide_Header the header list is the 12 names sequence … spectra_ref in that order |
| ColumnFactories.PeptideStableHeaders | jmztab-model/src/main/java/uk/ac/ebi/pride/jmztab/model/MZTabColumnFactory.java:152-163 | the listed Peptide stable columns have the 12 headers in listed order |
| Records.Appended | jmztab/trunk/src/main/java/uk/ac/ebi/pride/jmztab/model/Peptide.java:155-162 | a missing cell becomes a one-item list with the column's delimiter; a list keeps its delimiter and gains the item unless a suppressed duplicate; a scalar cell is ClassCast |
| Records.AppendedLength | jmztab/trunk/src/main/java/uk/ac/ebi/pride/jmztab/model/Peptide.java:155-164 | a list grows by one item, or stays the same when a suppressed duplicate |
| Records.AppendedKeepsDistinct | jmztab/trunk/src/main/java/uk/ac/ebi/pride/jmztab/model/Peptide.java:160-162 | a de-duplicating append keeps a duplicate-free list duplicate-free |
| Records.AppendedText | jmztab/trunk/src/main/java/uk/ac/ebi/pride/jmztab/model/Peptide.java:285-290 | appending to a non-empty list extends its text by the delimiter and the item's text |
| Records.FirstAppendedText | jmztab/trunk/src/main/java/uk/ac/ebi/pride/jmztab/model/Peptide.java:286-290 | the first append renders as the item alone |
| Records.ReadScalar | jmztab/trunk/src/main/java/uk/ac/ebi/pride/jmztab/model/Peptide.java:566-568 | unknown position: IllegalArgument; list or other kind: ClassCast; missing: null; otherwise the stored value of the asked kind |
| Records.ReadList | jmztab/trunk/src/main/java/uk/ac/ebi/pride/jmztab/model/Peptide.java:143-145 | unknown position: IllegalArgument; scalar: ClassCast; missing: null; otherwise the stored list |
| Records.ScalarWriteRead | jmztab/trunk/src/main/java/uk/ac/ebi/pride/jmztab/model/Peptide.java:566-576 | a typed write is read back by the same-kind getter and every other position reads as before |
| Records.ListWriteRead | jmztab/trunk/src/main/java/uk/ac/ebi/pride/jmztab/model/Peptide.java:179-181 | a list write is read back by getSplitList and every other position reads as before |
| Records.FieldsAfterWrite | jmztab/trunk/src/main/java/uk/ac/ebi/pride/jmztab/model/Peptide.java:574-576 | writing one cell changes that cell's rendered field and no other |
| Records.WrittenFieldIndex | jmztab/trunk/src/main/java/uk/ac/ebi/pride/jmztab/model/Peptide.java:699-702 | a written cell appears at the index of its position in the rendered line |
| Records.ChargeScenario | jmztab/trunk/src/main/java/uk/ac/ebi/pride/jmztab/model/Peptide.java:566-576 | an unset charge renders "null"; after setting 2 it renders "2" and no other field changes |
| PeptideRecords.Peptide.constructor | jmztab/trunk/src/main/java/uk/ac/ebi/pride/jmztab/model/Peptide.java:42-49 | a record bound to the registry and metadata with no cell written |
| PeptideRecords.Peptide.CreateIn | jmztab/trunk/src/main/java/uk/ac/ebi/pride/jmztab/model/Peptide.java:42-49 | NullPointer for null metadata; otherwise a fresh, empty, Valid record bound to the given registry |
| PeptideRecords.Peptide.Create | jmztab/trunk/src/main/java/uk/ac/ebi/pride/jmztab/model/Peptide.java:27-34 | NullPointer for null metadata; otherwise a fresh record bound to a fresh, empty Peptide_Header registry |
| PeptideRecords.Peptide.Set | jmztab/trunk/src/main/java/uk/ac/ebi/pride/jmztab/model/Peptide.java:61-63 | a known position gets the cell and nothing else changes; an unknown one is IllegalArgument with no change; written keys stay registry keys |
| PeptideRecords.Peptide.Append | jmztab/trunk/src/main/java/uk/ac/ebi/pride/jmztab/model/Peptide.java:204-216 | the create-on-first-append step: true and the appended cell; unknown position or scalar cell fails with no change |
| PeptideRecords.Peptide.GetSequence | jmztab/trunk/src/main/java/uk/ac/ebi/pride/jmztab/model/Peptide.java:54-56 | the text at the sequence column, read as ReadScalar states |
| PeptideRecords.Peptide.SetSequence | jmztab/trunk/src/main/java/uk/ac/ebi/pride/jmztab/model/Peptide.java:61-63 | writes the parsed text at the sequence column only; getSequence then returns it |
| PeptideRecords.Peptide.GetAccession | jmztab/trunk/src/main/java/uk/ac/ebi/pride/jmztab/model/Peptide.java:70-72 | the text at the accession column |
| PeptideRecords.Peptide.SetAccession | jmztab/trunk/src/main/java/uk/ac/ebi/pride/jmztab/model/Peptide.java:79-81 | writes the parsed text at the accession column only; the getter then returns it |
| PeptideRecords.Peptide.GetUnique | jmztab/trunk/src/main/java/uk/ac/ebi/pride/jmztab/model/Peptide.java:86-88 | the MZBoolean at the unique column |
| PeptideRecords.Peptide.SetUnique | jmztab/trunk/src/main/java/uk/ac/ebi/pride/jmztab/model/Peptide.java:93-95 | writes the MZBoolean (or null) at the unique column only; the getter then returns it |
| PeptideRecords.Peptide.SetUniqueLabel | jmztab/trunk/src/main/java/uk/ac/ebi/pride/jmztab/model/Peptide.java:102-104 | writes findBoolean of the label at the unique column only |
| PeptideRecords.Peptide.GetDatabase | jmztab/trunk/src/main/java/uk/ac/ebi/pride/jmztab/model/Peptide.java:110-112 | the text at the database column |
| PeptideRecords.Peptide.SetDatabase | jmztab/trunk/src/main/java/uk/ac/ebi/pride/jmztab/model/Peptide.java:118-120 | writes the parsed text at the database column only; the getter then returns it |
| PeptideRecords.Peptide.GetDatabaseVersion | jmztab/trunk/src/main/java/uk/ac/ebi/pride/jmztab/model/Peptide.java:127-129 | the text at the database_version column |
| PeptideRecords.Peptide.SetDatabaseVersion | jmztab/trunk/src/main/java/uk/ac/ebi/pride/jmztab/model/Peptide.java:136-138 | writes the parsed text at the database_version column only; the getter then returns it |
| PeptideRecords.Peptide.GetReliability | jmztab/trunk/src/main/java/uk/ac/ebi/pride/jmztab/model/Peptide.java:324-326 | the Reliability at the reliability column |
| PeptideRecords.Peptide.SetReliability | jmztab/trunk/src/main/java/uk/ac/ebi/pride/jmztab/model/Peptide.java:336-338 | writes the Reliability (or null) at the reliability column only; the getter then returns it |
| PeptideRecords.Peptide.SetReliabilityLabel | jmztab/trunk/src/main/java/uk/ac/ebi/pride/jmztab/model/Peptide.java:350-352 | writes findReliability of the label at the reliability column only |
| PeptideRecords.Peptide.GetCharge | jmztab/trunk/src/main/java/uk/ac/ebi/pride/jmztab/model/Peptide.java:566-568 | the Integer at the charge column |
| PeptideRecords.Peptide.SetCharge | jmztab/trunk/src/main/java/uk/ac/ebi/pride/jmztab/model/Peptide.java:574-576 | writes the Integer (or null) at the charge column only; getCharge then returns it |
| PeptideRecords.Peptide.SetChargeLabel | jmztab/trunk/src/main/java/uk/ac/ebi/pride/jmztab/model/Peptide.java:584-586 | writes parseInteger of the label at the charge column only |
| PeptideRecords.Peptide.GetMassToCharge | jmztab/trunk/src/main/java/uk/ac/ebi/pride/jmztab/model/Peptide.java:593-595 | the Double at the mass_to_charge column |
| PeptideRecords.Peptide.SetMassToCharge | jmztab/trunk/src/main/java/uk/ac/ebi/pride/jmztab/model/Peptide.java:602-604 | writes the Double (or null) at the mass_to_charge column only; the getter then returns it |
| PeptideRecords.Peptide.SetMassToChargeLabel | jmztab/trunk/src/main/java/uk/ac/ebi/pride/jmztab/model/Peptide.java:613-615 | writes parseDouble of the label at the mass_to_charge column only |
| PeptideRecords.Peptide.GetURI | jmztab/trunk/src/main/java/uk/ac/ebi/pride/jmztab/model/Peptide.java:620-622 | the URI at the uri column |
| PeptideRecords.Peptide.SetURI | jmztab/trunk/src/main/java/uk/ac/ebi/pride/jmztab/model/Peptide.java:627-629 | writes the URI (or null) at the uri column only; the getter then returns it |
| PeptideRecords.Peptide.SetURILabel | jmztab/trunk/src/main/java/uk/ac/ebi/pride/jmztab/model/Peptide.java:636-638 | writes parseURI of the label at the uri column only |
| PeptideRecords.Peptide.GetSearchEngine | jmztab/trunk/src/main/java/uk/ac/ebi/pride/jmztab/model/Peptide.java:143-145 | the list at the search_engine column, read as ReadList states |
| PeptideRecords.Peptide.SetSearchEngine | jmztab/trunk/src/main/java/uk/ac/ebi/pride/jmztab/model/Peptide.java:179-181 | writes the list (or null) at the search_engine column only; the getter then returns it |
| PeptideRecords.Peptide.SetSearchEngineLabel | jmztab/trunk/src/main/java/uk/ac/ebi/pride/jmztab/model/Peptide.java:188-190 | writes parseParamList of the label at the search_engine column only |
| PeptideRecords.Peptide.AddSearchEngineParam | jmztab/trunk/src/main/java/uk/ac/ebi/pride/jmztab/model/Peptide.java:150-165 | null: false, no change; otherwise true, the param is in the BAR list afterwards, and the list grows by one exactly when the param was absent |
| PeptideRecords.Peptide.AddSearchEngineParamLabel | jmztab/trunk/src/main/java/uk/ac/ebi/pride/jmztab/model/Peptide.java:172-174 | an empty label (or an unparsable one) is false with no change; otherwise the parsed param is added as above |
| PeptideRecords.Peptide.GetBestSearchEngineScore | jmztab/trunk/src/main/java/uk/ac/ebi/pride/jmztab/model/Peptide.java:196-198 | the list at the best_search_engine_score column |
| PeptideRecords.Peptide.SetBestSearchEngineScore | jmztab/trunk/src/main/java/uk/ac/ebi/pride/jmztab/model/Peptide.java:232-234 | writes the list at that column only; the getter then returns it |
| PeptideRecords.Peptide.SetBestSearchEngineScoreLabel | jmztab/trunk/src/main/java/uk/ac/ebi/pride/jmztab/model/Peptide.java:242-244 | writes parseParamList of the label at that column only |
| PeptideRecords.Peptide.AddBestSearchEngineScoreParam | jmztab/trunk/src/main/java/uk/ac/ebi/pride/jmztab/model/Peptide.java:204-216 | null: false, no change; otherwise true and the BAR list's items are the old items plus the param, duplicates kept |
| PeptideRecords.Peptide.AddBestSearchEngineScoreParamLabel | jmztab/trunk/src/main/java/uk/ac/ebi/pride/jmztab/model/Peptide.java:224-226 | an empty label is false with no change; otherwise the parsed param is appended |
| PeptideRecords.Peptide.GetSearchEngineScore | jmztab/trunk/src/main/java/uk/ac/ebi/pride/jmztab/model/Peptide.java:252-254 | the list at the given run's score position |
| PeptideRecords.Peptide.SetSearchEngineScore | jmztab/trunk/src/main/java/uk/ac/ebi/pride/jmztab/model/Peptide.java:260-262 | writes the list at the given position only; the getter then returns it |
| PeptideRecords.Peptide.SetSearchEngineScoreLabel | jmztab/trunk/src/main/java/uk/ac/ebi/pride/jmztab/model/Peptide.java:301-303 | writes parseParamList of the label at the given position only |
| PeptideRecords.Peptide.AddSearchEngineScoreParam | jmztab/trunk/src/main/java/uk/ac/ebi/pride/jmztab/model/Peptide.java:280-293 | null: false, no change; otherwise true and the run's BAR list is the old items plus the param |
| PeptideRecords.Peptide.GetModifications | jmztab/trunk/src/main/java/uk/ac/ebi/pride/jmztab/model/Peptide.java:362-364 | the list at the modifications column |
| PeptideRecords.Peptide.SetModifications | jmztab/trunk/src/main/java/uk/ac/ebi/pride/jmztab/model/Peptide.java:396-398 | writes the list at the modifications column only; the getter then returns it |
| PeptideRecords.Peptide.SetModificationsLabel | jmztab/trunk/src/main/java/uk/ac/ebi/pride/jmztab/model/Peptide.java:410-412 | writes parseModificationList of the label at the modifications column only |
| PeptideRecords.Peptide.AddModification | jmztab/trunk/src/main/java/uk/ac/ebi/pride/jmztab/model/Peptide.java:374-386 | null: false, no change; otherwise true and the COMMA list is the old items plus the modification, duplicates kept |
| PeptideRecords.Peptide.GetRetentionTime | jmztab/trunk/src/main/java/uk/ac/ebi/pride/jmztab/model/Peptide.java:422-424 | the list at the retention_time column |
| PeptideRecords.Peptide.SetRetentionTime | jmztab/trunk/src/main/java/uk/ac/ebi/pride/jmztab/model/Peptide.java:470-472 | writes the list at the retention_time column only; the getter then returns it |
| PeptideRecords.Peptide.SetRetentionTimeLabel | jmztab/trunk/src/main/java/uk/ac/ebi/pride/jmztab/model/Peptide.java:484-486 | writes parseDoubleList of the label at that column only |
| PeptideRecords.Peptide.AddRetentionTime | jmztab/trunk/src/main/java/uk/ac/ebi/pride/jmztab/model/Peptide.java:434-446 | null: false, no change; otherwise true and the BAR list is the old items plus the time |
| PeptideRecords.Peptide.AddRetentionTimeLabel | jmztab/trunk/src/main/java/uk/ac/ebi/pride/jmztab/model/Peptide.java:458-460 | an empty label is false with no change; otherwise the parsed time is appended |
| PeptideRecords.Peptide.GetRetentionTimeWindow | jmztab/trunk/src/main/java/uk/ac/ebi/pride/jmztab/model/Peptide.java:496-498 | the list at the retention_time_window column |
| PeptideRecords.Peptide.SetRetentionTimeWindow | jmztab/trunk/src/main/java/uk/ac/ebi/pride/jmztab/model/Peptide.java:544-546 | writes the list at that column only; the getter then returns it |
| PeptideRecords.Peptide.SetRetentionTimeWindowLabel | jmztab/trunk/src/main/java/uk/ac/ebi/pride/jmztab/model/Peptide.java:558-560 | writes parseDoubleList of the label at that column only |
| PeptideRecords.Peptide.AddRetentionTimeWindow | jmztab/trunk/src/main/java/uk/ac/ebi/pride/jmztab/model/Peptide.java:508-520 | null: false, no change; otherwise true and the BAR list is the old items plus the bound |
| PeptideRecords.Peptide.AddRetentionTimeWindowLabel | jmztab/trunk/src/main/java/uk/ac/ebi/pride/jmztab/model/Peptide.java:532-534 | an empty label is false with no change; otherwise the parsed bound is appended |
| PeptideRecords.Peptide.GetSpectraRef | jmztab/trunk/src/main/java/uk/ac/ebi/pride/jmztab/model/Peptide.java:646-648 | the list at the spectra_ref column |
| PeptideRecords.Peptide.SetSpectraRef | jmztab/trunk/src/main/java/uk/ac/ebi/pride/jmztab/model/Peptide.java:678-680 | writes the list at the spectra_ref column only; the getter then returns it |
| PeptideRecords.Peptide.SetSpectraRefLabel | jmztab/trunk/src/main/java/uk/ac/ebi/pride/jmztab/model/Peptide.java:690-692 | writes the list parsed against the record's own metadata at the spectra_ref column only |
| PeptideRecords.Peptide.AddSpectraRef | jmztab/trunk/src/main/java/uk/ac/ebi/pride/jmztab/model/Peptide.java:658-670 | null: false, no change; otherwise true and the BAR list is the old items plus the reference |
| PeptideRecords.Peptide.ToString | jmztab/trunk/src/main/java/uk/ac/ebi/pride/jmztab/model/Peptide.java:699-702 | the line starts with the PEP prefix and a TAB, then the cells in ascending position order; it holds exactly one TAB per registry column when no cell renders with a TAB; a written cell renders at its position's index among the cells (WrittenFieldIndex) |
| PeptideRecords.PeptideLineStart | jmztab/trunk/src/main/java/uk/ac/ebi/pride/jmztab/model/Peptide.java:699-702 | every peptide line starts with PEP and a TAB |
| PeptideRecords.PeptideLineTabs | jmztab/trunk/src/main/java/uk/ac/ebi/pride/jmztab/model/Peptide.java:699-702 | toString's line (prefix PEP, TAB, cells) holds exactly one TAB per column when no cell renders with a TAB |
| PeptideRecords.DefaultStableKeys | jmztab-model/src/main/java/uk/ac/ebi/pride/jmztab/model/MZTabColumnFactory.java:151-164 | the default Peptide registry holds 12 positions, iterated as 01–06, 10–14, 16 |
| PeptideRecords.DefaultChargeCell | jmztab/trunk/src/main/java/uk/ac/ebi/pride/jmztab/model/Peptide.java:566-576 | on the default Peptide registry the charge is the tenth cell: "null" while unset, "2" after setCharge(2), every other cell unchanged |

## Left out

- `MZTabRecord` (the base class) is not part of this model: its cells are modelled as described above; its data-type check of a written value against the column's declared type is not modelled.
- `MZTabUtils.parseString`, `parseParam`, `parseParamList`, `parseDouble`, `parseDoubleList`, `parseInteger`, `parseURI`, `parseModificationList`, `parseSpectraRefList`, `MZBoolean.findBoolean` and `Reliability.findReliability` are not part of this model; they are parameters of the label overloads, so nothing is proved about what they parse.
- `MZTabUtils.isEmpty` is not part of this model; `IsEmptyLabel` takes it to be "blank after trim".
- The value classes (Param, CVParam, Modification, SpectraRef, Double, MZBoolean, Reliability, URI) are opaque: each is its rendered text, and equality (used by the de-duplicating search-engine append) is equality of that text; floating-point values are never inspected.
- `getPosition(column, msRun)` of the base class is not part of this model: the per-run score accessors take the logical position, and the `MsRun` overloads are the same calls after that lookup.
- Java `null` for strings, columns, factories and the `CVParam`/`MsRun`/`Assay` arguments of the factory is not modelled; only the `null` values the modelled code tests (metadata, appended values, typed cell values) are.
- The `set*Mapping` setters (MZTabColumnFactory.java:87-130) replace whole maps and can break the union invariant; they are not modelled, and neither are the plain `get*` accessors (lines 73-126).
- `setOrder` mutates shared static column constants (MZTabColumnFactory.java:405, 455, 471); the model moves a copy of the column, so this mutation and everything that reads the constant afterwards is not captured:
  - other factories that share the constant see the new order in Java, not in the model;
  - PeptideRecords.Peptide.GetReliability, SetReliability, SetReliabilityLabel, GetURI, SetURI and SetURILabel always use the orders 09 and 15, while Java's accessors (Peptide.java:324-352, 620-638) use `PeptideColumn.RELIABILITY.getOrder()` and `PeptideColumn.URI.getOrder()`, so after `addReliabilityOptionalColumn("20")` Java reads and writes the reliability at "20" where the model reads "09" and returns IllegalArgument;
  - a later ColumnFactories.ColumnFactory.AddReliabilityOptionalColumn or AddURIOptionalColumn in the same factory puts the constant at its original order, while Java puts it at the moved order.
- The column construction classes (`MZTabColumn.createOptionalColumn`, `OptionColumn`, `CVParamOptionColumn`, `AbundanceColumn`) are not part of this model; the headers and positions they compute are whatever the `create`/`make` parameters return.
- `String.toLowerCase`, `trim` and `equalsIgnoreCase` are modelled on ASCII letters and on the characters up to U+0020; other Unicode case mappings are not.
- `SplitList.toString` is not part of this model; an empty list is taken to render as `null`, a non-empty one as its items joined by its delimiter.
- ColumnTables: the names and orders of the `*Column` constants are assumed (the constant classes are not part of this model), as stated above; ColumnFactories.PeptideStablePositions, PeptideRecords.DefaultStableKeys, PeptideRecords.DefaultChargeCell and the fixed position every Peptide accessor uses hold for those values only.
- `SortedMaps.Less` compares code points, while `String.compareTo` compares UTF-16 code units; the two orders differ for strings with characters above U+FFFF (Java puts U+1F600 before U+FFFF), so the key order is faithful only for keys within the Basic Multilingual Plane.
- `Strings.ParseInt` accepts only the ASCII digits `0`-`9`, while `Integer.parseInt` and `new Integer` accept every character `Character.digit` reads as a decimal digit.
- A `SplitList` is a value here: in Java the list object a setter receives, or a getter returns, stays shared with the caller, and changes the caller makes to it later show up in the record; the model does not capture that sharing.
- ColumnFactories.ColumnFactory.AddAbundanceOptionalColumnWithOrder: promises the abundance-within-optional invariant only when the built column already has the requested order, because the code files it in the abundance map under its position before the move.
