# Ortholog resolution in prot_profiler, modelled in Dafny

prot_profiler builds a dossier of proteins for one human protein and its orthologs
in six other organisms: mouse, alpaca, cynomolgus macaque, chicken, rabbit and llama.
This project models the part of it that resolves those orthologs:

- the organism registry (`Registry`);
- the NCBI gene-page reference picker (`NcbiClient`). It chooses Swiss-Prot before
  TrEMBL, the first item first, and falls back to a RefSeq accession read after the
  arrow in the first item's text;
- the NCBI ortholog finder (`NcbiOrthologFinder`). It makes one orthology query,
  builds a taxonomy-id to gene-id map, and keeps each gene's picked reference when
  that reference is truthy;
- the UniRef ortholog finder (`UniRefOrthologFinder`). It looks for a cluster member
  with the organism's taxonomy id and the human recommended name. A match is checked
  against the top UniProtKB search hit, and the user is asked when the two disagree.
  Without a match, the top search hit is used;
- the interactive chooser (`OrthologSelection`);
- the GFF3 conversion of annotations (`Gff`);
- the driver (`Engine`). Its `Driver` class holds `protein_information`: one slot
  per organism, with the human slot seeded from UniProt. It fills the slots from
  NCBI, then fills every falsy slot from the UniRef finder, then builds the protein
  records.

Python idioms are written out:

- A dict is an insertion-ordered `seq` of pairs (`Dicts.Get`, `Dicts.Put`).
- An exception is a `Result.Err` carrying one `Fault` per place that raises.
- Truthiness is the predicate `Engine.Truthy`.
- String builtins such as `strip`, `split`, `str(int)` and `lower` are in `Text`.

Every network service becomes a function-typed parameter or field, an oracle:

- the UniProt entry, UniRef cluster and search calls (`UniProtService`);
- the NCBI orthology query and gene pages;
- NCBI FASTA fetches;
- UniProt FASTA and annotations;
- AlphaFold;
- the terminal (`answer`).

Each loop of the source is a method proved equal to a specification function. The
properties the source relies on are lemmas about those functions.

## Model

| member | source | states |
|---|---|---|
| Registry.RegistryComplete | src/models/organism.py:7-13 | The registry lists each of the seven organisms exactly once, in declaration order, with the human first. |
| Registry.TaxIdInjective | src/models/organism.py:7-17 | Two organisms have the same taxonomy id exactly when they are the same organism. |
| Registry.HumanTaxId | src/models/organism.py:7 | The human taxonomy id is 9606 and prints as "9606". |
| Registry.FindByTaxKey | src/driver.py:38 | A result is an organism whose printed taxonomy id is the key. None means no organism has that printed id. |
| Registry.TaxKeyLookup | src/driver.py:38 | The lookup gives o exactly when the key is o's taxonomy id printed in decimal. |
| Text.DecimalInjective | src/driver.py:38 | `str(tax_id)` is injective, so distinct organisms have distinct keys. |
| Text.StripEmptyIffBlank | src/driver.py:106 | `strip()` gives "" exactly when the text is all whitespace. |
| Text.NoWordIffBlank | src/client/ncbi_client.py:67 | `strip().split()` has no words exactly when the text is all whitespace. |
| Text.StripPlace | src/client/ncbi_client.py:67 | `strip()` keeps the slice between the leading whitespace and the trailing whitespace that runs to the end. |
| Text.FirstWordOfStrip | src/client/ncbi_client.py:67 | `strip().split()[0]` is the first maximal run of non-whitespace: it starts right after the leading whitespace and ends at whitespace or at the end. |
| Text.JoinSplit | src/client/ncbi_client.py:67 | Splitting on a separator and joining the pieces back gives the original text. |
| Text.SplitJoin | src/driver.py:84-88 | Joining pieces that hold no separator and splitting again gives back the pieces. |
| Text.LinesRoundTrip | src/driver.py:101-106 | Newline-terminated lines plus a final piece split back into those lines and that piece. |
| Text.Lower | src/driver.py:106 | `lower()` keeps the length, maps ASCII capitals to small letters and leaves every other character alone. |
| NcbiClient.GetProteinReferenceId | src/client/ncbi_client.py:27-72 | The method, with its loop and early returns, computes `ReferenceOf` of the page. |
| NcbiClient.SwissProtBeforeTrembl | src/client/ncbi_client.py:52-62 | Within an item, a Swiss-Prot link wins. A Swiss-Prot label without a link lets a TrEMBL link through. There is no link exactly when neither label has one. |
| NcbiClient.ScanFindsDecidingItem | src/client/ncbi_client.py:48-62 | The first truthy item with a link decides, provided every earlier item is truthy and has no link. |
| NcbiClient.ScanFoundHasDecidingItem | src/client/ncbi_client.py:48-62 | Every accession the scan finds comes from such a deciding item. |
| NcbiClient.ScanStopsAtEmptyItem | src/client/ncbi_client.py:49-50 | A falsy item met before any link ends the scan with nothing. |
| NcbiClient.ScanExhaustedIff | src/client/ncbi_client.py:48-62 | The loop runs to its end exactly when every item is truthy and has no link. |
| NcbiClient.UnavailablePageGivesNothing | src/client/ncbi_client.py:34-44 | A failed request, a missing section or a missing heading gives "". |
| NcbiClient.UniProtAnswerIff | src/client/ncbi_client.py:34-62 | The answer is ('uniprot', acc) exactly when the page is available and some item decides the scan with acc. |
| NcbiClient.EarlierTremblBeatsLaterSwissProt | src/client/ncbi_client.py:48-62 | An earlier item's TrEMBL link beats a later item's Swiss-Prot link. |
| NcbiClient.EmptyItemGivesNothing | src/client/ncbi_client.py:49-50 | A falsy item before any link gives "", even when later items have links. |
| NcbiClient.RefSeqAnswerIff | src/client/ncbi_client.py:64-68 | The answer is ('ncbi', t) exactly when the page is available, no item is falsy, no item has a UniProt link, and t is the token of the first item's paragraph. |
| NcbiClient.FaultIff | src/client/ncbi_client.py:46-64 | The picker raises only when the page is available and the list has no items, because `li[0]` is read outside the try. |
| NcbiClient.RefSeqTokenMeaning | src/client/ncbi_client.py:65-70 | There is no token exactly when the text has no arrow or only whitespace follows the first arrow. Otherwise the token is the segment's first maximal whitespace-free run, found right after its leading whitespace. It holds no arrow. |
| NcbiClient.RefSeqSegment | src/client/ncbi_client.py:67 | The segment searched is the text between the first arrow and the next arrow, or the end of the text. |
| NcbiOrthologFinder.TaxGeneMap | src/ortholog_finders/ncbi_ortholog_finder.py:9-13 | The comprehension's map has distinct keys. |
| NcbiOrthologFinder.LaterReportWins | src/ortholog_finders/ncbi_ortholog_finder.py:9-13 | A taxonomy id maps to the gene of the last complete report that carries it. |
| NcbiOrthologFinder.TaxGeneMapKeys | src/ortholog_finders/ncbi_ortholog_finder.py:9-13 | A taxonomy id is a key exactly when some complete report carries it. |
| NcbiOrthologFinder.GetOrthologs | src/ortholog_finders/ncbi_ortholog_finder.py:6-21 | The method computes `OrthologsOf` of the service's answer for the gene id and taxon list. |
| NcbiOrthologFinder.FinalMapLookup | src/ortholog_finders/ncbi_ortholog_finder.py:15-19 | Each key of the map is present exactly when its gene's reference is truthy, and it then holds that reference. |
| NcbiOrthologFinder.FinalMapFaultIff | src/ortholog_finders/ncbi_ortholog_finder.py:15-19 | The finder fails exactly when the picker fails on some gene of the map. |
| NcbiOrthologFinder.OrthologsLookup | src/ortholog_finders/ncbi_ortholog_finder.py:6-21 | On success, t maps to the truthy reference of the page of the gene last reported for t, and is absent otherwise. |
| NcbiOrthologFinder.FailedQueryRaises | src/ortholog_finders/ncbi_ortholog_finder.py:7-11 | A failed orthology query (`{}`, which has no 'reports') raises. It does not give an empty map. |
| NcbiOrthologFinder.KeysNotFilteredByTaxonList | src/ortholog_finders/ncbi_ortholog_finder.py:6-21 | An illustration on one concrete answer: keys are not filtered against the requested taxa, so a reported human id comes back. The general statement is `GetOrthologs` with `OrthologsLookup`. |
| OrthologSelection.ChooseOrthologSelection | src/driver.py:100-106 | The method's loop-built prompt gives the same chosen accession as `Chosen`. |
| OrthologSelection.PromptLines | src/driver.py:100-106 | Read line by line, the prompt is the header, then every cluster accession and every search accession in order, then the question. |
| OrthologSelection.ChosenNormalised | src/driver.py:106 | The result has the stripped answer's length and no ASCII capitals. It is empty exactly when the typed line is all whitespace. |
| UniRefOrthologFinder.HumanFields | src/ortholog_finders/uniref_ortholog_finder.py:11-12 | The gene and recommended names are read exactly when the human entry has both. Otherwise a KeyError is raised. |
| UniRefOrthologFinder.MatchIn | src/ortholog_finders/uniref_ortholog_finder.py:19 | A found organism is listed and matches on taxonomy id and name. None means no listed organism matches. An error is raised only when the list holds a None entry. |
| UniRefOrthologFinder.MatchInAt | src/ortholog_finders/uniref_ortholog_finder.py:19 | The search ends at the first entry that is None or matches, after organisms that all fail to match. A None there raises; a match there is the answer, whatever follows it. |
| UniRefOrthologFinder.MatchInNoMatch | src/ortholog_finders/uniref_ortholog_finder.py:19 | With no None entry and no matching organism, the default None is the answer. |
| UniRefOrthologFinder.RemoveFirst | src/ortholog_finders/uniref_ortholog_finder.py:29 | Removing a listed value makes the list one shorter. A value not listed leaves the list as it was. |
| UniRefOrthologFinder.RemoveFirstMultiset | src/ortholog_finders/uniref_ortholog_finder.py:29 | Exactly one occurrence of the value goes, and no other element: a multiset difference. |
| UniRefOrthologFinder.RemoveFirstAt | src/ortholog_finders/uniref_ortholog_finder.py:29 | `list.remove` cuts out exactly the first occurrence. Everything before and after it stays, in order. |
| UniRefOrthologFinder.GetOrthologIds | src/ortholog_finders/uniref_ortholog_finder.py:7-37 | The method computes `OrthologIdsOf`: the human fields, the pass over the cluster, then the closing loop. |
| UniRefOrthologFinder.RunPass | src/ortholog_finders/uniref_ortholog_finder.py:14-30 | The loop over the cluster members, with its `break`, computes `Pass` from the one-organism list and `{}`. |
| UniRefOrthologFinder.RunVisit | src/ortholog_finders/uniref_ortholog_finder.py:19-29 | One member's turn computes `Visit`: the match, the matched entry, and the removal from the list. |
| UniRefOrthologFinder.FetchMatched | src/ortholog_finders/uniref_ortholog_finder.py:21-28 | A matching member's turn computes `MatchedRecord`, with its KeyError and IndexError cases. |
| UniRefOrthologFinder.PassStep | src/ortholog_finders/uniref_ortholog_finder.py:18-30 | The pass from member i is member i's turn, then the pass from i + 1 unless the list has run out. |
| UniRefOrthologFinder.RunFallback | src/ortholog_finders/uniref_ortholog_finder.py:32-35 | The closing loop computes `Fallback`. |
| UniRefOrthologFinder.FirstMatch | src/ortholog_finders/uniref_ortholog_finder.py:18-19 | The first cluster member that matches the organism, and none before it matches. None means no member matches. |
| UniRefOrthologFinder.PassSingle | src/ortholog_finders/uniref_ortholog_finder.py:17-30 | With one organism listed, the pass stops at the first matching member. With no match, it leaves the list untouched. |
| UniRefOrthologFinder.FallbackSingle | src/ortholog_finders/uniref_ortholog_finder.py:32-35 | The closing loop over one organism gives its top search hit. |
| UniRefOrthologFinder.OrthologIdsOfOrganism | src/ortholog_finders/uniref_ortholog_finder.py:7-37 | For an organism, the finder equals `Resolved`: the first matching member decides, and only without one is the top search hit used. |
| UniRefOrthologFinder.NoneTargetRaises | src/ortholog_finders/uniref_ortholog_finder.py:19-33 | The None target always raises once the human entry has been read. |
| UniRefOrthologFinder.AgreementSkipsChooser | src/ortholog_finders/uniref_ortholog_finder.py:24-25 | When the member's entry is the top search hit, that entry is the answer and the user is not asked. |
| UniRefOrthologFinder.DisagreementAsksUser | src/ortholog_finders/uniref_ortholog_finder.py:26-28 | When they disagree, the answer is the entry of the accession the user chose. |
| UniRefOrthologFinder.NoMatchTakesTopHit | src/ortholog_finders/uniref_ortholog_finder.py:32-35 | With no matching member, the answer is the top search hit, or `{}`. |
| UniRefOrthologFinder.EmptySearchOnMatchRaises | src/ortholog_finders/uniref_ortholog_finder.py:23-24 | On the matching path, an empty search raises an IndexError. |
| UniRefOrthologFinder.EmptyAnswerIff | src/ortholog_finders/uniref_ortholog_finder.py:7-37 | `{}` comes back exactly in two cases: there is no match and an empty search, or the chosen accession's fetch failed. |
| Gff.PositionText | src/driver.py:85-86 | A printed position holds no tab and no newline. |
| Gff.JsonToGff | src/driver.py:79-89 | The method's appended text equals `GffOf`. |
| Gff.GffPresentIff | src/driver.py:81-89 | Text comes back exactly when the payload lists at least one feature. |
| Gff.RowColumns | src/driver.py:84-88 | A row reads back as exactly nine tab-separated columns when the fields hold no tab. |
| Gff.GffLines | src/driver.py:79-89 | The text reads back as the version line, then one row per feature in order. |
| Engine.FirstGeneId | src/driver.py:30-31 | The first 'GeneID' cross-reference. None exactly when there is none. |
| Engine.InitialInformationShape | src/driver.py:24-27 | There is one slot per organism, in order, with distinct keys. The human slot holds the fetched entry, the others None, and there is no None key. |
| Engine.AnchorFailureAborts | src/driver.py:30-31 | Without a usable human entry or GeneID, `drive` raises before calling any service, and the state is unchanged. |
| Engine.AnchorGeneIdIff | src/driver.py:30-31 | The gene id is the first GeneID cross-reference. A missing GeneID is a fault of its own. |
| Engine.TargetTaxIds | src/driver.py:32-33 | The taxon list is the six non-human taxonomy ids in declaration order, and 9606 is not among them. |
| Engine.NcbiPassLookup | src/driver.py:37-42 | After the NCBI pass, each organism's slot holds the entry fetched for the reference reported under its printed id, or stays as it was. |
| Engine.HumanSlotKeptUnlessReported | src/driver.py:37-42 | The human slot survives the NCBI pass unless 9606 is reported. |
| Engine.NcbiPassKeys | src/driver.py:37-42 | Existing keys stay in place and keys stay distinct. |
| Engine.NcbiPassNoneKey | src/driver.py:37-42 | A None key is added exactly when the lookup names no organism for some reported id. |
| Engine.FallbackPassKeys | src/driver.py:44-47 | Every key keeps its place. |
| Engine.FallbackPassFrame | src/driver.py:44-47 | Truthy slots and slots before the start position are untouched. |
| Engine.FallbackPassFills | src/driver.py:44-47 | When the pass completes, each falsy slot holds the finder's answer for its key. |
| Engine.FallbackPassStops | src/driver.py:44-47 | On a fault, the fault is the finder's for some falsy slot, and that slot and all later slots are unchanged. |
| Engine.ProteinKinds | src/driver.py:54-68 | An entry gives a record exactly when it has an organism key, is truthy and, for a UniProt entry, has an AlphaFold model. Every record carries the protein name. An NCBI entry gives an NCBI ortholog of its fetched FASTA. A UniProt entry gives the human protein for the human key and otherwise an ortholog of its own organism. That record holds the entry, its AlphaFold model, its FASTA and its GFF annotations. |
| Engine.ProteinsFromLookup | src/driver.py:51-69 | An organism's protein is the one built from its own slot. |
| Engine.DriveResolves | src/driver.py:29-49 | On success, each slot holds the truthy NCBI entry or else the UniRef answer, and its protein is built from that slot. |
| Engine.Driver.constructor | src/driver.py:14-22 | The initial state is the blank dict with the human entry stored. It has one slot per organism, each key once. |
| Engine.Driver.SetProteinInformation | src/driver.py:24-27 | The state becomes `InitialInformation` of the fetched human entry, with one slot per organism and each key once. |
| Engine.Driver.GetAnnotationsText | src/driver.py:74-77 | The GFF text of the accession's annotations. |
| Engine.Driver.CreateProteins | src/driver.py:51-69 | The method's loop computes `ProteinsOf` of the current slots. |
| Engine.Driver.Drive | src/driver.py:29-49 | The new state and the result are `DriveOf` of the old state. One slot per organism, each key once, is kept. |
| Engine.Driver.StoreNcbiOrthologs | src/driver.py:37-42 | The new state is `NcbiPass` of the old state. One slot per organism, each key once, is kept. |
| Engine.Driver.FillFromUniRef | src/driver.py:44-47 | The new state and the fault are `FallbackPass` of the old state. One slot per organism, each key once, is kept. |
| Engine.InitialSlotted | src/driver.py:24-27 | The initial state has each key once and a slot for every organism. |
| Engine.NcbiPassSlotted | src/driver.py:37-42 | Storing the NCBI orthologs keeps each key once and a slot for every organism. |
| Engine.FallbackPassSlotted | src/driver.py:44-47 | The fallback pass keeps each key once and a slot for every organism, also when it stops on a fault. |

## Left out

- HTTP is not modelled: the requests, response codes and JSON decoding. Every
  service is a function parameter that maps the request to the decoded answer.
  The `{}` answers of `UniProtClient.get_entry` and `NCBIClient.get_orthologs` on a
  failed request are values those oracles can return.
- HTML parsing with BeautifulSoup is not modelled. A gene page is abstracted to
  whether it loaded, whether its section and heading exist, and, per list item, its
  truthiness, its Swiss-Prot and TrEMBL labels with their link text, and its first
  paragraph. Which `<a>` `find_next` reaches is taken as given by the page.
- A gene page whose heading has no following `<ol>` is not modelled. Python raises
  AttributeError at src/client/ncbi_client.py:46 in that case.
- JSON objects with missing keys are mostly not modelled. Only the absences the
  source tests, or that end in an exception it does not catch, are represented.
  Those are 'reports', the human names, 'accessions', 'results', 'features' and a
  null location value. Other keys are assumed present.
- The call shapes in src/ortholog_finders/uniref_ortholog_finder.py:22-28 do not
  fit the clients they call. `get_entry` does not take those keywords, and
  `_choose_ortholog_selection` is a method of the driver, not of the finder. They
  are modelled as evidently intended: a UniProtKB fetch, a UniProtKB search, and the
  driver's chooser.
- Protein records (`HumanProtein`, `Ortholog`) are given as the arguments handed to
  their constructors. Their classes are not part of this model.
- FASTA, AlphaFold and annotation downloads are oracles. `_get_string_db_interactions`
  and `_get_therasabdab_info` are not used by `drive` and are not modelled.
- Text.Lower: only ASCII letters are lower-cased. Python's Unicode case mapping is
  not modelled.
- Gff.JsonToGff: each row is appended in one step rather than the source's two
  f-string appends; the text produced is the same. GffLines and RowColumns describe
  the result as the nine-column, tab-separated layout of the Sequence Ontology GFF3
  specification ("Description of the Format"). No escaping of reserved characters
  is modelled, because the source does none.
- NcbiClient.ScanStopsAtEmptyItem and NcbiClient.EmptyItemGivesNothing describe the
  `if not item` branch at src/client/ncbi_client.py:49-50 as written. A parsed list
  item is always truthy, so that branch cannot be reached on a real page. The model
  lets an item be falsy and so over-approximates the pages the picker sees.
- NcbiClient.GetProteinReferenceId: the link text is taken as already stripped,
  since `get_text(strip=True)` is part of parsing.
- Some of the design differs from the source. This model follows the source:
  - A failure for one organism is not isolated. Any exception in a finder aborts
    `drive`, and slots already replaced stay replaced (`Engine.FallbackPassStops`).
  - "No ortholog found" and an unfetchable chosen entry both come back as `{}`
    (`UniRefOrthologFinder.EmptyAnswerIff`).
  - There is no suspend/resume protocol: the chooser blocks on the terminal.
- Parallel lookups, rate limiting and retries are not modelled, because the source
  has none.
- The command-line front end, the Streamlit view, the slide export, file utilities
  and `models/annotation.py` are not part of this model.
