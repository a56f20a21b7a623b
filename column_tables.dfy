/**
 * The column constants of ProteinColumn, PeptideColumn, PSMColumn and
 * SmallMoleculeColumn (name and order), and the stable columns that
 * addDefaultStableColumns adds for each section.
 */
module ColumnTables {
  import opened Results
  import opened Sections
  import opened Columns

  /** A stable column: header equal to its name, position equal to its order. */
  function StableColumn(name: string, order: string): (c: Column)
    ensures c.Position() == order
  {
    Column(name, name, order, "")
  }

  // ----- ProteinColumn -----
  const ProteinAccession := StableColumn("accession", "01")
  const ProteinDescription := StableColumn("description", "02")
  const ProteinTaxid := StableColumn("taxid", "03")
  const ProteinSpecies := StableColumn("species", "04")
  const ProteinDatabase := StableColumn("database", "05")
  const ProteinDatabaseVersion := StableColumn("database_version", "06")
  const ProteinSearchEngine := StableColumn("search_engine", "07")
  const ProteinBestSearchEngineScore := StableColumn("best_search_engine_score", "08")
  const ProteinSearchEngineScore := StableColumn("search_engine_score", "09")
  const ProteinReliability := StableColumn("reliability", "10")
  const ProteinNumPsms := StableColumn("num_psms", "11")
  const ProteinNumPeptidesDistinct := StableColumn("num_peptides_distinct", "12")
  const ProteinNumPeptidesUnique := StableColumn("num_peptides_unique", "13")
  const ProteinAmbiguityMembers := StableColumn("ambiguity_members", "14")
  const ProteinModifications := StableColumn("modifications", "15")
  const ProteinURI := StableColumn("uri", "16")
  const ProteinGoTerms := StableColumn("go_terms", "17")
  const ProteinCoverage := StableColumn("protein_coverage", "18")

  // ----- PeptideColumn -----
  const PeptideSequence := StableColumn("sequence", "01")
  const PeptideAccession := StableColumn("accession", "02")
  const PeptideUnique := StableColumn("unique", "03")
  const PeptideDatabase := StableColumn("database", "04")
  const PeptideDatabaseVersion := StableColumn("database_version", "05")
  const PeptideSearchEngine := StableColumn("search_engine", "06")
  const PeptideBestSearchEngineScore := StableColumn("best_search_engine_score", "07")
  const PeptideSearchEngineScore := StableColumn("search_engine_score", "08")
  const PeptideReliability := StableColumn("reliability", "09")
  const PeptideModifications := StableColumn("modifications", "10")
  const PeptideRetentionTime := StableColumn("retention_time", "11")
  const PeptideRetentionTimeWindow := StableColumn("retention_time_window", "12")
  const PeptideCharge := StableColumn("charge", "13")
  const PeptideMassToCharge := StableColumn("mass_to_charge", "14")
  const PeptideURI := StableColumn("uri", "15")
  const PeptideSpectraRef := StableColumn("spectra_ref", "16")

  // ----- PSMColumn -----
  const PSMSequence := StableColumn("sequence", "01")
  const PSMId := StableColumn("PSM_ID", "02")
  const PSMAccession := StableColumn("accession", "03")
  const PSMUnique := StableColumn("unique", "04")
  const PSMDatabase := StableColumn("database", "05")
  const PSMDatabaseVersion := StableColumn("database_version", "06")
  const PSMSearchEngine := StableColumn("search_engine", "07")
  const PSMSearchEngineScore := StableColumn("search_engine_score", "08")
  const PSMReliability := StableColumn("reliability", "09")
  const PSMModifications := StableColumn("modifications", "10")
  const PSMRetentionTime := StableColumn("retention_time", "11")
  const PSMCharge := StableColumn("charge", "12")
  const PSMExpMassToCharge := StableColumn("exp_mass_to_charge", "13")
  const PSMCalcMassToCharge := StableColumn("calc_mass_to_charge", "14")
  const PSMURI := StableColumn("uri", "15")
  const PSMSpectraRef := StableColumn("spectra_ref", "16")
  const PSMPre := StableColumn("pre", "17")
  const PSMPost := StableColumn("post", "18")
  const PSMStart := StableColumn("start", "19")
  const PSMEnd := StableColumn("end", "20")

  // ----- SmallMoleculeColumn -----
  const SmallMoleculeId := StableColumn("SML_ID", "01")
  const SmallMoleculeFeatureRefs := StableColumn("SMF_ID_REFS", "02")
  const SmallMoleculeDatabaseIdentifier := StableColumn("database_identifier", "03")
  const SmallMoleculeChemicalFormula := StableColumn("chemical_formula", "04")
  const SmallMoleculeSmiles := StableColumn("smiles", "05")
  const SmallMoleculeInchi := StableColumn("inchi", "06")
  const SmallMoleculeDescription := StableColumn("description", "07")
  const SmallMoleculeTheoreticalNeutralMass := StableColumn("theoretical_neutral_mass", "08")
  const SmallMoleculeExpMassToCharge := StableColumn("exp_mass_to_charge", "09")
  const SmallMoleculeRetentionTime := StableColumn("retention_time", "10")
  const SmallMoleculeAdductIons := StableColumn("adduct_ions", "11")
  const SmallMoleculeReliability := StableColumn("reliability", "12")
  const SmallMoleculeURI := StableColumn("uri", "13")
  const SmallMoleculeBestSearchEngine := StableColumn("best_search_engine", "14")
  const SmallMoleculeBestSearchEngineScore := StableColumn("best_search_engine_score", "15")

  /**
   * The columns addDefaultStableColumns adds, in the order it adds them;
   * None for the sections its switch rejects.
   */
  function StableColumns(s: Section): (r: Option<seq<Column>>)
    ensures r.Some? <==> IsHeader(s)
  {
    match s
    case ProteinHeader => Some([ProteinAccession, ProteinDescription, ProteinTaxid, ProteinSpecies,
        ProteinDatabase, ProteinDatabaseVersion, ProteinSearchEngine, ProteinAmbiguityMembers,
        ProteinModifications, ProteinCoverage])
    case PeptideHeader => Some(PeptideStableColumns())
    case PSMHeader => Some([PSMSequence, PSMId, PSMAccession, PSMUnique, PSMDatabase,
        PSMDatabaseVersion, PSMSearchEngine, PSMModifications, PSMRetentionTime, PSMCharge,
        PSMExpMassToCharge, PSMCalcMassToCharge, PSMSpectraRef, PSMPre, PSMPost, PSMStart, PSMEnd])
    case SmallMoleculeHeader => Some([SmallMoleculeId, SmallMoleculeFeatureRefs,
        SmallMoleculeDatabaseIdentifier, SmallMoleculeChemicalFormula, SmallMoleculeSmiles,
        SmallMoleculeInchi, SmallMoleculeDescription, SmallMoleculeTheoreticalNeutralMass,
        SmallMoleculeExpMassToCharge, SmallMoleculeRetentionTime, SmallMoleculeAdductIons,
        SmallMoleculeReliability, SmallMoleculeURI, SmallMoleculeBestSearchEngine,
        SmallMoleculeBestSearchEngineScore])
    case SmallMoleculeFeatureHeader => Some([])
    case SmallMoleculeEvidenceHeader => Some([])
    case _ => None
  }

  function PeptideStableColumns(): seq<Column>
  {
    [PeptideSequence, PeptideAccession, PeptideUnique, PeptideDatabase, PeptideDatabaseVersion,
     PeptideSearchEngine, PeptideModifications, PeptideRetentionTime, PeptideRetentionTimeWindow,
     PeptideCharge, PeptideMassToCharge, PeptideSpectraRef]
  }

}
