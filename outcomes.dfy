/** Optional values, results, and the exceptions the resolution code can raise. */
module Outcomes {

  datatype Option<+T> = None | Some(value: T)

  /** An exception that escapes the resolution code. Each constructor names the
      raising site; the Python exception type is given beside it. */
  datatype Fault =
    | NoReferenceItems     // IndexError: li[0] of an empty item list
    | MissingReports       // KeyError: data['reports'] of a failed orthology query
    | HumanFieldsMissing   // KeyError/IndexError: gene name or recommended name of the anchor
    | NoMemberAccession    // IndexError: result['accessions'][0] of a cluster member
    | MemberRecordMissing  // KeyError: uniref_r['primaryAccession'] when the fetch gave {}
    | SearchFailed         // KeyError: ['results'] of a failed search
    | EmptySearch          // IndexError: search_r['results'][0] of an empty search
    | NoneOrganism         // AttributeError: None.value when the target organism is None
    | AnchorNotRecord      // TypeError: the HUMAN slot is None or an NCBI tuple
    | AnchorEmpty          // KeyError: {}['uniProtKBCrossReferences']
    | NoGeneIdXref         // StopIteration: no cross-reference with database "GeneID"

  /** A value, or the exception that was raised instead. */
  datatype Result<+T> = Ok(value: T) | Err(fault: Fault)
}
