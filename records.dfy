/** The shapes of the UniProt JSON payloads the resolution code reads. Only the
    keys it reads are kept. */
module Records {
  import opened Outcomes

  datatype CrossRef = CrossRef(database: string, id: string)

  /** A UniProtKB entry (or a search hit, which has the same shape). `geneName` is
      genes[0].geneName.value, absent when the gene list or the name is missing;
      `recommendedName` is proteinDescription.recommendedName.fullName.value. */
  datatype KbRecord = KbRecord(
    primaryAccession: string,
    geneName: Option<string>,
    recommendedName: Option<string>,
    crossReferences: seq<CrossRef>)

  /** A JSON object returned by an entry fetch: `{}` when the request failed. */
  datatype KbJson = Empty | Record(record: KbRecord)

  /** One member of a UniRef cluster listing. */
  datatype ClusterMember = ClusterMember(organismTaxId: int, proteinName: string, accessions: seq<string>)

  /** One sequence feature of an annotation payload; a position is null when unknown. */
  datatype Feature = Feature(featureType: string, start: Option<int>, end: Option<int>, description: string)

  /** The annotation payload: `features` is None when the key is missing. */
  datatype AnnotationJson = AnnotationJson(features: Option<seq<Feature>>)
}
