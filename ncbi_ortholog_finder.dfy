/** The NCBI ortholog finder: one orthology query for a gene, a taxonomy-id to
    gene-id map built from its reports, and, per gene, the reference picked from
    the gene page; organisms whose page yields nothing are left out. */
module NcbiOrthologFinder {
  import opened Outcomes
  import opened NcbiClient
  import opened Dicts

  /** report['gene'], with its 'tax_id' and 'gene_id' entries when present. */
  datatype GeneInfo = GeneInfo(taxId: Option<string>, geneId: Option<string>)
  datatype Report = Report(gene: Option<GeneInfo>)

  /** The orthology response; `reports` is None when the key is missing, as in the
      `{}` returned for a failed query. */
  datatype OrthologyData = OrthologyData(reports: Option<seq<Report>>)

  /** The comprehension's filter: a 'gene' entry with both 'tax_id' and 'gene_id'. */
  predicate Complete(r: Report) {
    r.gene.Some? && r.gene.value.taxId.Some? && r.gene.value.geneId.Some?
  }

  function TaxOf(r: Report): string
    requires Complete(r)
  {
    r.gene.value.taxId.value
  }

  function GeneOf(r: Report): string
    requires Complete(r)
  {
    r.gene.value.geneId.value
  }

  /** `tax_gene_map`: the dict comprehension over the reports, in order. */
  function TaxGeneMap(reports: seq<Report>): (m: seq<(string, string)>)
    ensures DistinctKeys(m)
  {
    if reports == [] then []
    else
      var m := TaxGeneMap(reports[..|reports| - 1]);
      var r := reports[|reports| - 1];
      if Complete(r) then Put(m, TaxOf(r), GeneOf(r)) else m
  }

  /** The entry an answer of the picker contributes to `final_map`: a truthy
      reference, or nothing. */
  function Kept(ref: Result<RefId>): (k: Option<FoundRef>)
    ensures k.Some? <==> ref.Ok? && !ref.value.NoRef?
  {
    if ref.Ok? && !ref.value.NoRef? then Some(ref.value) else None
  }

  /** `final_map[tax] = ref` when `ref` is truthy. */
  function KeepIn(acc: seq<(string, FoundRef)>, tax: string, ref: RefId): (r: seq<(string, FoundRef)>)
    ensures Get(r, tax) == if ref.NoRef? then Get(acc, tax) else Some(ref)
    ensures forall t :: t != tax ==> Get(r, t) == Get(acc, t)
    ensures DistinctKeys(acc) ==> DistinctKeys(r)
  {
    if ref.NoRef? then acc else Put<string, FoundRef>(acc, tax, ref)
  }

  /** `final_map`, built from `entries` onward into `acc`: each gene's reference is
      kept when it is truthy; the first exception ends the whole call. */
  function FinalMapFrom(entries: seq<(string, string)>, genePage: string -> GenePage,
                        acc: seq<(string, FoundRef)>): (r: Result<seq<(string, FoundRef)>>)
    ensures r.Ok? && DistinctKeys(acc) ==> DistinctKeys(r.value)
    decreases |entries|
  {
    if entries == [] then Ok(acc)
    else match ReferenceOf(genePage(entries[0].1))
      case Err(f) => Err(f)
      case Ok(ref) => FinalMapFrom(entries[1..], genePage, KeepIn(acc, entries[0].0, ref))
  }

  /** What `get_orthologs` returns for an orthology response. */
  function OrthologsOf(data: OrthologyData, genePage: string -> GenePage): Result<seq<(string, FoundRef)>> {
    match data.reports
    case None => Err(MissingReports)
    case Some(reports) => FinalMapFrom(TaxGeneMap(reports), genePage, [])
  }

  /** The finder as the source runs it. The taxon list is only handed to the
      orthology service; the result is a function of the service's answer alone. */
  method GetOrthologs(geneId: string, taxonList: seq<int>,
                      orthologs: (string, seq<int>) -> OrthologyData, genePage: string -> GenePage)
    returns (r: Result<seq<(string, FoundRef)>>)
    ensures r == OrthologsOf(orthologs(geneId, taxonList), genePage)
  {
    var data := orthologs(geneId, taxonList);
    if data.reports.None? {
      return Err(MissingReports);
    }
    var taxGeneMap := TaxGeneMap(data.reports.value);
    var finalMap: seq<(string, FoundRef)> := [];
    for i := 0 to |taxGeneMap|
      invariant FinalMapFrom(taxGeneMap[i..], genePage, finalMap) == OrthologsOf(data, genePage)
    {
      var (taxId, gId) := taxGeneMap[i];
      assert taxGeneMap[i..][1..] == taxGeneMap[i + 1..];
      var proteinRef := GetProteinReferenceId(genePage(gId));
      if proteinRef.Err? {
        return Err(proteinRef.fault);
      }
      finalMap := KeepIn(finalMap, taxId, proteinRef.value);
    }
    return Ok(finalMap);
  }

  // ---------------------------------------------------------------------------
  // Properties of the finder

  /** The gene kept for a taxonomy id is that of the last complete report for it. */
  lemma {:induction false} LaterReportWins(reports: seq<Report>, i: nat)
    requires i < |reports| && Complete(reports[i])
    requires forall j :: i < j < |reports| && Complete(reports[j]) ==> TaxOf(reports[j]) != TaxOf(reports[i])
    ensures Get(TaxGeneMap(reports), TaxOf(reports[i])) == Some(GeneOf(reports[i]))
    decreases |reports|
  {
    var init := reports[..|reports| - 1];
    if i < |reports| - 1 {
      assert init[i] == reports[i];
      LaterReportWins(init, i);
    }
  }

  /** A taxonomy id is a key exactly when some complete report carries it. */
  lemma {:induction false} TaxGeneMapKeys(reports: seq<Report>, t: string)
    ensures Get(TaxGeneMap(reports), t).Some? <==>
      exists j :: 0 <= j < |reports| && Complete(reports[j]) && TaxOf(reports[j]) == t
    decreases |reports|
  {
    if reports != [] {
      var init := reports[..|reports| - 1];
      TaxGeneMapKeys(init, t);
      assert forall j :: 0 <= j < |init| ==> init[j] == reports[j];
      if exists j :: 0 <= j < |reports| && Complete(reports[j]) && TaxOf(reports[j]) == t {
        var j :| 0 <= j < |reports| && Complete(reports[j]) && TaxOf(reports[j]) == t;
        if j < |init| {
          assert Complete(init[j]) && TaxOf(init[j]) == t;
        }
      }
    }
  }

  /** The final map holds, for each key of the entries whose reference is truthy,
      exactly that reference; a key whose reference is "" is left out. */
  lemma {:induction false} FinalMapLookup(entries: seq<(string, string)>, genePage: string -> GenePage,
                                          acc: seq<(string, FoundRef)>, t: string)
    requires DistinctKeys(entries)
    requires forall i :: 0 <= i < |entries| ==> Get(acc, entries[i].0).None?
    requires FinalMapFrom(entries, genePage, acc).Ok?
    ensures Get(FinalMapFrom(entries, genePage, acc).value, t) ==
      match Get(entries, t)
      case None => Get(acc, t)
      case Some(g) => Kept(ReferenceOf(genePage(g)))
    decreases |entries|
  {
    if entries != [] {
      var (k, g) := entries[0];
      var ref := ReferenceOf(genePage(g)).value;
      var acc' := KeepIn(acc, k, ref);
      var rest := entries[1..];
      RestKeysFresh(entries, acc, ref);
      FinalMapLookup(rest, genePage, acc', t);
      GetFirst(entries, t);
    }
  }

  lemma RestKeysFresh(entries: seq<(string, string)>, acc: seq<(string, FoundRef)>, ref: RefId)
    requires entries != [] && DistinctKeys(entries)
    requires forall i :: 0 <= i < |entries| ==> Get(acc, entries[i].0).None?
    ensures DistinctKeys(entries[1..])
    ensures forall i :: 0 <= i < |entries[1..]| ==> Get(KeepIn(acc, entries[0].0, ref), entries[1..][i].0).None?
  {
    var rest := entries[1..];
    DistinctRest(entries);
    forall i | 0 <= i < |rest| ensures Get(KeepIn(acc, entries[0].0, ref), rest[i].0).None? {
      assert rest[i] == entries[i + 1];
    }
  }

  /** The finder fails exactly when the picker fails on some gene of the map. */
  lemma {:induction false} FinalMapFaultIff(entries: seq<(string, string)>, genePage: string -> GenePage,
                                            acc: seq<(string, FoundRef)>)
    ensures FinalMapFrom(entries, genePage, acc).Err? <==>
      exists i :: 0 <= i < |entries| && ReferenceOf(genePage(entries[i].1)).Err?
    decreases |entries|
  {
    if entries != [] {
      var ref := ReferenceOf(genePage(entries[0].1));
      if ref.Ok? {
        FinalMapFaultIff(entries[1..], genePage, KeepIn(acc, entries[0].0, ref.value));
        assert forall i :: 1 <= i < |entries| ==> entries[i] == entries[1..][i - 1];
      }
    }
  }

  /** For a taxonomy id t of a successful run: t is in the result exactly when some
      complete report names it and the page of the last such report's gene yields a
      truthy reference, and then t maps to that reference. */
  lemma OrthologsLookup(reports: seq<Report>, genePage: string -> GenePage, t: string)
    requires OrthologsOf(OrthologyData(Some(reports)), genePage).Ok?
    ensures var m := OrthologsOf(OrthologyData(Some(reports)), genePage).value;
      Get(m, t) ==
        match Get(TaxGeneMap(reports), t)
        case None => None
        case Some(g) => Kept(ReferenceOf(genePage(g)))
  {
    FinalMapLookup(TaxGeneMap(reports), genePage, [], t);
  }

  /** A failed orthology query (the `{}` response) raises instead of giving an empty map. */
  lemma FailedQueryRaises(genePage: string -> GenePage)
    ensures OrthologsOf(OrthologyData(None), genePage) == Err(MissingReports)
  {
  }

  /** An illustration on one concrete answer: result keys are not checked against the
      requested taxa, so the human taxonomy id the service reports comes back when its
      page has a link. The general facts are `GetOrthologs` (the result depends on the
      service's answer alone) with `OrthologsLookup` and `TaxGeneMapKeys`. */
  lemma KeysNotFilteredByTaxonList()
    ensures var data := OrthologyData(Some([Report(Some(GeneInfo(Some("9606"), Some("3569"))))]));
      var page := (g: string) => GenePage(true, true, true, [RefItem(true, Linked("P05231"), Absent, None)]);
      OrthologsOf(data, page) == Ok([("9606", UniProtRef("P05231"))])
  {
    var reports := [Report(Some(GeneInfo(Some("9606"), Some("3569"))))];
    assert reports[..0] == [];
    PutEmpty("9606", "3569");
    assert TaxGeneMap(reports) == [("9606", "3569")];
    var page := (g: string) => GenePage(true, true, true, [RefItem(true, Linked("P05231"), Absent, None)]);
    assert ReferenceOf(page("3569")) == Ok(UniProtRef("P05231"));
    PutEmpty<string, FoundRef>("9606", UniProtRef("P05231"));
    var kept := KeepIn([], "9606", UniProtRef("P05231"));
    assert kept == [("9606", UniProtRef("P05231"))];
    var entries := [("9606", "3569")];
    assert entries[1..] == [];
    assert FinalMapFrom(entries, page, []) == FinalMapFrom([], page, kept);
  }
}
