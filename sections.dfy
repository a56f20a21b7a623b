/**
 * The mzTab sections and the prefixes that start their lines. The Section
 * enumeration itself is not part of this model's sources; its header
 * mapping and prefixes are those of mzTab.
 */
module Sections {
  import opened Results

  datatype Section =
    | Comment
    | Metadata
    | ProteinHeader
    | Protein
    | PeptideHeader
    | Peptide
    | PSMHeader
    | PSM
    | SmallMoleculeHeader
    | SmallMolecule
    | SmallMoleculeFeatureHeader
    | SmallMoleculeFeature
    | SmallMoleculeEvidenceHeader
    | SmallMoleculeEvidence

  /** The header sections, one per table-based section. */
  predicate IsHeader(s: Section)
  {
    s.ProteinHeader? || s.PeptideHeader? || s.PSMHeader? || s.SmallMoleculeHeader?
    || s.SmallMoleculeFeatureHeader? || s.SmallMoleculeEvidenceHeader?
  }

  /**
   * Section.toHeaderSection: a table section and its header section both
   * map to the header section; Comment and Metadata have none (null).
   */
  function ToHeaderSection(s: Section): (r: Option<Section>)
    ensures r.None? <==> s.Comment? || s.Metadata?
    ensures r.Some? ==> IsHeader(r.value)
    ensures IsHeader(s) ==> r == Some(s)
  {
    match s
    case Comment => None
    case Metadata => None
    case ProteinHeader | Protein => Some(ProteinHeader)
    case PeptideHeader | Peptide => Some(PeptideHeader)
    case PSMHeader | PSM => Some(PSMHeader)
    case SmallMoleculeHeader | SmallMolecule => Some(SmallMoleculeHeader)
    case SmallMoleculeFeatureHeader | SmallMoleculeFeature => Some(SmallMoleculeFeatureHeader)
    case SmallMoleculeEvidenceHeader | SmallMoleculeEvidence => Some(SmallMoleculeEvidenceHeader)
  }

  /** Section.getPrefix(): the three letters that start the section's lines. */
  function Prefix(s: Section): (r: string)
    ensures |r| == 3
    ensures forall i :: 0 <= i < 3 ==> 'A' <= r[i] <= 'Z'
  {
    match s
    case Comment => "COM"
    case Metadata => "MTD"
    case ProteinHeader => "PRH"
    case Protein => "PRT"
    case PeptideHeader => "PEH"
    case Peptide => "PEP"
    case PSMHeader => "PSH"
    case PSM => "PSM"
    case SmallMoleculeHeader => "SMH"
    case SmallMolecule => "SML"
    case SmallMoleculeFeatureHeader => "SFH"
    case SmallMoleculeFeature => "SMF"
    case SmallMoleculeEvidenceHeader => "SEH"
    case SmallMoleculeEvidence => "SME"
  }

  /** Different sections start their lines differently. */
  lemma PrefixInjective(a: Section, b: Section)
    requires Prefix(a) == Prefix(b)
    ensures a == b
  {
  }
}
