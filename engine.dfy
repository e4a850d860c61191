/** The driver: it holds one slot per organism in `protein_information`, seeds the
    human slot from UniProt, fills ortholog slots first from NCBI orthology and then,
    for every slot still falsy, from the UniRef finder, and finally turns the
    filled slots into protein records. */
module Engine {
  import opened Outcomes
  import opened Records
  import opened Registry
  import opened Dicts
  import opened NcbiClient
  import opened NcbiOrthologFinder
  import opened UniRefOrthologFinder
  import Gff
  import Text

  /** A value of `protein_information`: None before anything is stored, a UniProt
      JSON object (`{}` when the fetch failed), or the ('ncbi', FASTA text) pair. */
  datatype Slot = Unset | UniProt(json: KbJson) | Ncbi(fasta: string)

  /** Python truthiness of a slot: None and `{}` are falsy; a filled object and
      the two-element pair are truthy. */
  predicate Truthy(s: Slot) {
    match s
    case Unset => false
    case UniProt(json) => json.Record?
    case Ncbi(_) => true
  }

  /** `protein_information`, in insertion order. The key None is what the NCBI pass
      stores under when a reported taxonomy id names no organism of the registry. */
  type Information = seq<(Option<Organism>, Slot)>

  /** Every external service the driver calls. */
  datatype Services = Services(
    uniprot: UniProtService,
    fetchNcbi: string -> string,
    orthologs: (string, seq<int>) -> OrthologyData,
    genePage: string -> GenePage,
    answer: string -> string,
    fasta: string -> string,
    annotations: string -> AnnotationJson,
    alphaFold: string -> Option<string>)

  /** What `_create_proteins` builds: the arguments handed to the record constructors. */
  datatype Protein =
    | NcbiOrtholog(proteinName: string, proteinId: string, organism: Organism, fasta: string)
    | HumanProtein(proteinName: string, uniprot: KbRecord, alphaFold: string,
                   annotations: Option<string>, fasta: string)
    | UniProtOrtholog(proteinName: string, uniprot: KbRecord, alphaFold: string,
                      annotations: Option<string>, organism: Organism, fasta: string)

  // ---------------------------------------------------------------------------
  // Specification of the driver's steps

  /** `{o: None for o in Organism}`. */
  function Blank(os: seq<Organism>): (info: Information)
    ensures |info| == |os|
    ensures forall i :: 0 <= i < |os| ==> info[i] == (Some(os[i]), Unset)
  {
    seq(|os|, i requires 0 <= i < |os| => (Some(os[i]), Unset))
  }

  /** The state the constructor leaves: the blank dict with the human entry stored. */
  function InitialInformation(human: KbJson): Information {
    Put(Blank(AllOrganisms), Some(Human), UniProt(human))
  }

  /** `organism_list`: the taxonomy id of every organism except the human, in order. */
  function TaxIdsExcept(os: seq<Organism>, excluded: Organism): seq<int> {
    if os == [] then []
    else if os[0] == excluded then TaxIdsExcept(os[1..], excluded)
    else [TaxId(os[0])] + TaxIdsExcept(os[1..], excluded)
  }

  /** The first 'GeneID' cross-reference, if any. */
  function FirstGeneId(xrefs: seq<CrossRef>): (r: Option<string>)
    ensures r.Some? ==> exists i :: (0 <= i < |xrefs| && xrefs[i] == CrossRef("GeneID", r.value) &&
      forall j :: 0 <= j < i ==> xrefs[j].database != "GeneID")
    ensures r.None? <==> forall i :: 0 <= i < |xrefs| ==> xrefs[i].database != "GeneID"
  {
    if xrefs == [] then None
    else if xrefs[0].database == "GeneID" then Some(xrefs[0].id)
    else
      var r := FirstGeneId(xrefs[1..]);
      assert forall i :: 1 <= i < |xrefs| ==> xrefs[i] == xrefs[1..][i - 1];
      if r.Some? then
        var i :| 0 <= i < |xrefs[1..]| && xrefs[1..][i] == CrossRef("GeneID", r.value) &&
          forall j :: 0 <= j < i ==> xrefs[1..][j].database != "GeneID";
        assert xrefs[i + 1] == CrossRef("GeneID", r.value);
        r
      else r
  }

  /** The human gene id `drive` starts from: subscripting anything but a JSON object
      is a TypeError (or a KeyError when the key is missing), `{}` has no
      cross-reference list, and `next` of an empty generator raises StopIteration. */
  function AnchorGeneId(info: Information): Result<string> {
    match Get(info, Some(Human))
    case None => Err(AnchorNotRecord)
    case Some(slot) =>
      if !slot.UniProt? then Err(AnchorNotRecord)
      else if slot.json.Empty? then Err(AnchorEmpty)
      else match FirstGeneId(slot.json.record.crossReferences)
        case None => Err(NoGeneIdXref)
        case Some(g) => Ok(g)
  }

  /** The slot stored for a reference the NCBI finder returned. */
  function SlotOf(ref: FoundRef, svc: Services): Slot {
    match ref
    case UniProtRef(acc) => UniProt(svc.uniprot.fetch(acc))
    case NcbiRef(acc) => Ncbi(svc.fetchNcbi(acc))
  }

  /** The NCBI pass over the finder's (taxonomy id, reference) pairs, in order; each
      reference is stored under the organism `keyOf` names for its taxonomy id (the
      driver's lookup is `OrganismOfTaxKey`). */
  function NcbiPass(ids: seq<(string, FoundRef)>, info: Information, keyOf: string -> Option<Organism>,
                    svc: Services): Information
    decreases |ids|
  {
    if ids == [] then info
    else NcbiPass(ids[1..], Put(info, keyOf(ids[0].0), SlotOf(ids[0].1, svc)), keyOf, svc)
  }

  /** The UniRef finder as the fallback pass calls it: the answer for one key. */
  type Finder = Option<Organism> -> Result<KbJson>

  function UniRefFinder(proteinId: string, svc: Services): Finder {
    key => OrthologIdsOf(proteinId, key, svc.uniprot, svc.answer)
  }

  /** The fallback pass from position i on: each falsy slot is replaced, in place,
      by the finder's answer for its key; the first exception stops the pass and
      leaves the slots already replaced as they are. */
  function FallbackPass(info: Information, i: nat, find: Finder): (res: (Information, Option<Fault>))
    requires i <= |info|
    ensures |res.0| == |info|
    decreases |info| - i
  {
    if i == |info| then (info, None)
    else if Truthy(info[i].1) then FallbackPass(info, i + 1, find)
    else match find(info[i].0)
      case Err(f) => (info, Some(f))
      case Ok(d) => FallbackPass(info[i := (info[i].0, UniProt(d))], i + 1, find)
  }

  /** The protein built for one entry, if any: none for the None key or a falsy
      slot, none either when AlphaFold has no model for a UniProt entry. */
  function ProteinFor(key: Option<Organism>, slot: Slot, proteinName: string, proteinId: string,
                      svc: Services): Option<Protein>
  {
    if key.None? || !Truthy(slot) then None
    else match slot
      case Ncbi(fasta) => Some(NcbiOrtholog(proteinName, proteinId, key.value, fasta))
      case UniProt(json) =>
        var acc := json.record.primaryAccession;
        var annotations := Gff.GffOf(svc.annotations(acc), acc);
        match svc.alphaFold(acc)
        case None => None
        case Some(af) =>
          if key.value == Human then Some(HumanProtein(proteinName, json.record, af, annotations, svc.fasta(acc)))
          else Some(UniProtOrtholog(proteinName, json.record, af, annotations, key.value, svc.fasta(acc)))
  }

  /** `_create_proteins` from `entries` onward, into `acc`. */
  function ProteinsFrom(entries: Information, acc: seq<(Organism, Protein)>, proteinName: string,
                        proteinId: string, svc: Services): seq<(Organism, Protein)>
    decreases |entries|
  {
    if entries == [] then acc
    else
      var (key, slot) := entries[0];
      var acc' := match ProteinFor(key, slot, proteinName, proteinId, svc)
        case None => acc
        case Some(p) => Put(acc, key.value, p);
      ProteinsFrom(entries[1..], acc', proteinName, proteinId, svc)
  }

  function ProteinsOf(info: Information, proteinName: string, proteinId: string, svc: Services): seq<(Organism, Protein)> {
    ProteinsFrom(info, [], proteinName, proteinId, svc)
  }

  /** One call of `drive`: the new state and the result. Every exception leaves the
      state as it was when the exception was raised. */
  function DriveOf(info: Information, proteinName: string, proteinId: string, svc: Services)
    : (Information, Result<seq<(Organism, Protein)>>)
  {
    match AnchorGeneId(info)
    case Err(f) => (info, Err(f))
    case Ok(geneId) =>
      match OrthologsOf(svc.orthologs(geneId, TaxIdsExcept(AllOrganisms, Human)), svc.genePage)
      case Err(f) => (info, Err(f))
      case Ok(ids) =>
        var afterNcbi := NcbiPass(ids, info, OrganismOfTaxKey, svc);
        var (filled, fault) := FallbackPass(afterNcbi, 0, UniRefFinder(proteinId, svc));
        if fault.Some? then (filled, Err(fault.value))
        else (filled, Ok(ProteinsOf(filled, proteinName, proteinId, svc)))
  }

  // ---------------------------------------------------------------------------
  // Properties of the driver's steps

  /** After construction there is exactly one slot per organism, in declaration
      order, no None key, the human slot holds the fetched entry and every other
      slot is None. */
  lemma InitialInformationShape(human: KbJson)
    ensures var info := InitialInformation(human);
      && |info| == |AllOrganisms| && DistinctKeys(info)
      && (forall i :: 0 <= i < |info| ==> info[i].0 == Some(AllOrganisms[i]))
      && Get(info, Some(Human)) == Some(UniProt(human))
      && (forall o :: o != Human ==> Get(info, Some(o)) == Some(Unset))
      && Get(info, None).None?
  {
    RegistryComplete();
    var blank := Blank(AllOrganisms);
    assert blank[0].0 == Some(Human);
    assert DistinctKeys(blank);
    forall o | o != Human ensures Get(InitialInformation(human), Some(o)) == Some(Unset) {
      assert o in AllOrganisms;
      var i :| 0 <= i < |AllOrganisms| && AllOrganisms[i] == o;
      GetPosition(blank, i);
    }
  }

  /** Without a usable human entry or 'GeneID' cross-reference, `drive` raises before
      any service is called: the state is unchanged and the outcome is the same
      whatever the services answer. */
  lemma AnchorFailureAborts(info: Information, proteinName: string, proteinId: string, svc1: Services, svc2: Services)
    requires AnchorGeneId(info).Err?
    ensures DriveOf(info, proteinName, proteinId, svc1) == (info, Err(AnchorGeneId(info).fault))
    ensures DriveOf(info, proteinName, proteinId, svc1) == DriveOf(info, proteinName, proteinId, svc2)
  {
  }

  /** The gene id is the first 'GeneID' cross-reference of the human entry; a failed
      human fetch and a missing cross-reference are told apart. */
  lemma AnchorGeneIdIff(info: Information, human: KbRecord, g: string)
    requires Get(info, Some(Human)) == Some(UniProt(Record(human)))
    ensures AnchorGeneId(info) == Ok(g) <==>
      exists i :: 0 <= i < |human.crossReferences| && human.crossReferences[i] == CrossRef("GeneID", g) &&
        forall j :: 0 <= j < i ==> human.crossReferences[j].database != "GeneID"
    ensures AnchorGeneId(info) == Err(NoGeneIdXref) <==>
      forall i :: 0 <= i < |human.crossReferences| ==> human.crossReferences[i].database != "GeneID"
  {
    var r := FirstGeneId(human.crossReferences);
    if exists i :: 0 <= i < |human.crossReferences| && human.crossReferences[i] == CrossRef("GeneID", g) &&
        forall j :: 0 <= j < i ==> human.crossReferences[j].database != "GeneID" {
      var i :| 0 <= i < |human.crossReferences| && human.crossReferences[i] == CrossRef("GeneID", g) &&
        forall j :: 0 <= j < i ==> human.crossReferences[j].database != "GeneID";
      assert r.Some?;
    }
  }

  /** The taxonomy ids sent to the NCBI finder are those of the six non-human
      organisms, in declaration order. */
  lemma TargetTaxIds()
    ensures TaxIdsExcept(AllOrganisms, Human) == [10090, 30538, 9541, 9031, 9986, 9844]
    ensures TaxId(Human) !in TaxIdsExcept(AllOrganisms, Human)
  {
  }

  /** After the NCBI pass, an organism's slot holds the entry fetched for the
      reference reported under its printed taxonomy id, and is untouched when no
      reference was reported for it. */
  lemma {:induction false} NcbiPassLookup(ids: seq<(string, FoundRef)>, info: Information, svc: Services, o: Organism)
    requires DistinctKeys(ids)
    ensures Get(NcbiPass(ids, info, OrganismOfTaxKey, svc), Some(o)) ==
      match Get(ids, Text.Decimal(TaxId(o)))
      case None => Get(info, Some(o))
      case Some(ref) => Some(SlotOf(ref, svc))
    decreases |ids|
  {
    if ids != [] {
      var key := Text.Decimal(TaxId(o));
      var info' := Put(info, OrganismOfTaxKey(ids[0].0), SlotOf(ids[0].1, svc));
      DistinctRest(ids);
      NcbiPassLookup(ids[1..], info', svc, o);
      TaxKeyLookup(o, ids[0].0);
      GetFirst(ids, key);
    }
  }

  /** The human slot survives the NCBI pass unless the finder reports the human
      taxonomy id itself. */
  lemma HumanSlotKeptUnlessReported(ids: seq<(string, FoundRef)>, info: Information, svc: Services)
    requires DistinctKeys(ids)
    requires Get(ids, "9606").None?
    ensures Get(NcbiPass(ids, info, OrganismOfTaxKey, svc), Some(Human)) == Get(info, Some(Human))
  {
    HumanTaxId();
    NcbiPassLookup(ids, info, svc, Human);
  }

  /** The NCBI pass keeps every existing key in its place and keys distinct. */
  lemma {:induction false} NcbiPassKeys(ids: seq<(string, FoundRef)>, info: Information,
                                        keyOf: string -> Option<Organism>, svc: Services)
    ensures var r := NcbiPass(ids, info, keyOf, svc);
      && |r| >= |info|
      && (forall i :: 0 <= i < |info| ==> r[i].0 == info[i].0)
      && (DistinctKeys(info) ==> DistinctKeys(r))
    decreases |ids|
  {
    if ids != [] {
      var info' := Put(info, keyOf(ids[0].0), SlotOf(ids[0].1, svc));
      NcbiPassKeys(ids[1..], info', keyOf, svc);
    }
  }

  /** The NCBI pass adds the None key exactly when some reported taxonomy id names no
      organism under `keyOf`. */
  lemma {:induction false} NcbiPassNoneKey(ids: seq<(string, FoundRef)>, info: Information,
                                           keyOf: string -> Option<Organism>, svc: Services)
    ensures Get(NcbiPass(ids, info, keyOf, svc), None).Some? <==>
      Get(info, None).Some? || exists i :: 0 <= i < |ids| && keyOf(ids[i].0).None?
    decreases |ids|
  {
    if ids != [] {
      var info' := Put(info, keyOf(ids[0].0), SlotOf(ids[0].1, svc));
      var rest := ids[1..];
      NcbiPassNoneKey(rest, info', keyOf, svc);
      assert Get(info', None).Some? <==> Get(info, None).Some? || keyOf(ids[0].0).None?;
      if exists i :: 0 <= i < |rest| && keyOf(rest[i].0).None? {
        var i :| 0 <= i < |rest| && keyOf(rest[i].0).None?;
        assert ids[i + 1] == rest[i];
      }
      if exists i :: 0 <= i < |ids| && keyOf(ids[i].0).None? {
        var i :| 0 <= i < |ids| && keyOf(ids[i].0).None?;
        if i > 0 {
          assert rest[i - 1] == ids[i];
        }
      }
    }
  }

  /** The fallback pass keeps every key in its place. */
  lemma {:induction false} FallbackPassKeys(info: Information, i: nat, find: Finder)
    requires i <= |info|
    ensures var r := FallbackPass(info, i, find).0;
      forall j :: 0 <= j < |info| ==> r[j].0 == info[j].0
    decreases |info| - i
  {
    if i < |info| {
      if Truthy(info[i].1) {
        FallbackPassKeys(info, i + 1, find);
      } else {
        var found := find(info[i].0);
        if found.Ok? {
          var info' := info[i := (info[i].0, UniProt(found.value))];
          FallbackPassKeys(info', i + 1, find);
          assert forall j :: 0 <= j < |info| ==> info'[j].0 == info[j].0;
        }
      }
    }
  }

  /** The fallback pass leaves truthy slots and the slots before position i alone. */
  lemma {:induction false} FallbackPassFrame(info: Information, i: nat, find: Finder)
    requires i <= |info|
    ensures var r := FallbackPass(info, i, find).0;
      && (forall j :: 0 <= j < i ==> r[j] == info[j])
      && (forall j :: 0 <= j < |info| && Truthy(info[j].1) ==> r[j] == info[j])
    decreases |info| - i
  {
    if i < |info| {
      if Truthy(info[i].1) {
        FallbackPassFrame(info, i + 1, find);
      } else {
        var found := find(info[i].0);
        if found.Ok? {
          var info' := info[i := (info[i].0, UniProt(found.value))];
          FallbackPassFrame(info', i + 1, find);
          assert forall j :: 0 <= j < |info| && j != i ==> info'[j] == info[j];
        }
      }
    }
  }

  /** When the fallback pass completes, every falsy slot from i on holds the finder's
      answer for its key. */
  lemma {:induction false} FallbackPassFills(info: Information, i: nat, find: Finder)
    requires i <= |info|
    ensures var (r, f) := FallbackPass(info, i, find);
      f.None? ==> forall j :: i <= j < |info| && !Truthy(info[j].1) ==>
        && find(info[j].0).Ok?
        && r[j].1 == UniProt(find(info[j].0).value)
    decreases |info| - i
  {
    if i < |info| {
      if Truthy(info[i].1) {
        FallbackPassFills(info, i + 1, find);
        FallbackPassFrame(info, i + 1, find);
      } else {
        var found := find(info[i].0);
        if found.Ok? {
          var info' := info[i := (info[i].0, UniProt(found.value))];
          FallbackPassFills(info', i + 1, find);
          FallbackPassFrame(info', i + 1, find);
          assert forall j :: i < j < |info| ==> info'[j] == info[j];
        }
      }
    }
  }

  /** When the fallback pass stops, the fault is the finder's for some falsy
      slot, and that slot and all after it are untouched. */
  lemma {:induction false} FallbackPassStops(info: Information, i: nat, find: Finder)
    requires i <= |info|
    ensures var (r, f) := FallbackPass(info, i, find);
      f.Some? ==> exists j :: (i <= j < |info| && !Truthy(info[j].1)
        && find(info[j].0) == Err(f.value)
        && forall k :: j <= k < |info| ==> r[k] == info[k])
    decreases |info| - i
  {
    if i < |info| {
      if Truthy(info[i].1) {
        FallbackPassStops(info, i + 1, find);
      } else {
        var found := find(info[i].0);
        if found.Ok? {
          var info' := info[i := (info[i].0, UniProt(found.value))];
          FallbackPassStops(info', i + 1, find);
          var (r, f) := FallbackPass(info', i + 1, find);
          if f.Some? {
            var j :| i + 1 <= j < |info'| && !Truthy(info'[j].1)
              && find(info'[j].0) == Err(f.value)
              && forall k :: j <= k < |info'| ==> r[k] == info'[k];
            assert info'[j] == info[j];
            assert forall k :: j <= k < |info| ==> info'[k] == info[k];
          }
        }
      }
    }
  }

  /** The protein built for an entry: none for the None key, a falsy slot, or a
      UniProt entry without an AlphaFold model; an NCBI pair gives an NCBI ortholog
      (even under the human key); a UniProt entry gives the human protein exactly
      under the human key. */
  lemma ProteinKinds(key: Option<Organism>, slot: Slot, proteinName: string, proteinId: string, svc: Services)
    ensures var p := ProteinFor(key, slot, proteinName, proteinId, svc);
      && (p.Some? <==> (key.Some? && Truthy(slot) &&
            (slot.UniProt? ==> svc.alphaFold(slot.json.record.primaryAccession).Some?)))
      && (p.Some? && slot.Ncbi? ==> p.value == NcbiOrtholog(proteinName, proteinId, key.value, slot.fasta))
      && (p.Some? ==> p.value.proteinName == proteinName)
      && (p.Some? && slot.UniProt? ==>
            && (p.value.HumanProtein? <==> key == Some(Human))
            && (p.value.UniProtOrtholog? <==> key != Some(Human))
            && (p.value.UniProtOrtholog? ==> p.value.organism == key.value)
            && p.value.alphaFold == svc.alphaFold(slot.json.record.primaryAccession).value
            && p.value.uniprot == slot.json.record
            && p.value.fasta == svc.fasta(slot.json.record.primaryAccession)
            && p.value.annotations == Gff.GffOf(svc.annotations(slot.json.record.primaryAccession), slot.json.record.primaryAccession))
  {
  }

  /** An organism's protein is the one built from its slot, whatever the order. */
  lemma {:induction false} ProteinsFromLookup(entries: Information, acc: seq<(Organism, Protein)>, proteinName: string,
                                              proteinId: string, svc: Services, o: Organism)
    requires DistinctKeys(entries)
    ensures Get(ProteinsFrom(entries, acc, proteinName, proteinId, svc), o) ==
      match Get(entries, Some(o))
      case None => Get(acc, o)
      case Some(slot) =>
        match ProteinFor(Some(o), slot, proteinName, proteinId, svc)
        case None => Get(acc, o)
        case Some(p) => Some(p)
    decreases |entries|
  {
    if entries != [] {
      var (key, slot) := entries[0];
      var acc' := match ProteinFor(key, slot, proteinName, proteinId, svc)
        case None => acc
        case Some(p) => Put(acc, key.value, p);
      DistinctRest(entries);
      ProteinsFromLookup(entries[1..], acc', proteinName, proteinId, svc, o);
      GetFirst(entries, Some(o));
    }
  }

  /** A successful drive, for an organism with a slot: the slot holds what the NCBI
      pass stored for it when that is truthy and the UniRef finder's answer otherwise,
      and the organism's protein is the one built from that slot. */
  lemma DriveResolves(info: Information, proteinName: string, proteinId: string, svc: Services, o: Organism)
    requires DistinctKeys(info) && Get(info, Some(o)).Some?
    requires DriveOf(info, proteinName, proteinId, svc).1.Ok?
    ensures
      var geneId := AnchorGeneId(info).value;
      var ids := OrthologsOf(svc.orthologs(geneId, TaxIdsExcept(AllOrganisms, Human)), svc.genePage).value;
      var stored := match Get(ids, Text.Decimal(TaxId(o)))
        case None => Get(info, Some(o)).value
        case Some(ref) => SlotOf(ref, svc);
      var (filled, result) := DriveOf(info, proteinName, proteinId, svc);
      && (Truthy(stored) ==> Get(filled, Some(o)) == Some(stored))
      && (!Truthy(stored) ==>
            && OrthologIdsOf(proteinId, Some(o), svc.uniprot, svc.answer).Ok?
            && Get(filled, Some(o)) == Some(UniProt(OrthologIdsOf(proteinId, Some(o), svc.uniprot, svc.answer).value)))
      && Get(result.value, o) == ProteinFor(Some(o), Get(filled, Some(o)).value, proteinName, proteinId, svc)
  {
    DriveSucceeded(info, proteinName, proteinId, svc);
    var geneId := AnchorGeneId(info).value;
    var ids := OrthologsOf(svc.orthologs(geneId, TaxIdsExcept(AllOrganisms, Human)), svc.genePage).value;
    var afterNcbi := NcbiPass(ids, info, OrganismOfTaxKey, svc);
    NcbiPassLookup(ids, info, svc, o);
    NcbiPassKeys(ids, info, OrganismOfTaxKey, svc);
    var j :| 0 <= j < |afterNcbi| && afterNcbi[j].0 == Some(o);
    GetPosition(afterNcbi, j);
    var filled := FallbackPass(afterNcbi, 0, UniRefFinder(proteinId, svc)).0;
    FallbackSlot(afterNcbi, j, proteinId, svc);
    ProteinsFromLookup(filled, [], proteinName, proteinId, svc, o);
  }

  /** A successful drive got past every step that can raise. */
  lemma DriveSucceeded(info: Information, proteinName: string, proteinId: string, svc: Services)
    requires DriveOf(info, proteinName, proteinId, svc).1.Ok?
    ensures AnchorGeneId(info).Ok?
    ensures var ids := OrthologsOf(svc.orthologs(AnchorGeneId(info).value, TaxIdsExcept(AllOrganisms, Human)), svc.genePage);
      && ids.Ok?
      && var pass := FallbackPass(NcbiPass(ids.value, info, OrganismOfTaxKey, svc), 0, UniRefFinder(proteinId, svc));
      && pass.1.None?
      && DriveOf(info, proteinName, proteinId, svc) == (pass.0, Ok(ProteinsOf(pass.0, proteinName, proteinId, svc)))
  {
  }

  /** After a completed fallback pass, the slot at position j is looked up by its key
      and holds either what it held, when that was truthy, or the finder's answer. */
  lemma FallbackSlot(info: Information, j: nat, proteinId: string, svc: Services)
    requires DistinctKeys(info) && j < |info|
    requires FallbackPass(info, 0, UniRefFinder(proteinId, svc)).1.None?
    ensures var filled := FallbackPass(info, 0, UniRefFinder(proteinId, svc)).0;
      && DistinctKeys(filled)
      && (Truthy(info[j].1) ==> Get(filled, info[j].0) == Some(info[j].1))
      && (!Truthy(info[j].1) ==>
            && OrthologIdsOf(proteinId, info[j].0, svc.uniprot, svc.answer).Ok?
            && Get(filled, info[j].0) == Some(UniProt(OrthologIdsOf(proteinId, info[j].0, svc.uniprot, svc.answer).value)))
  {
    FallbackPassKeys(info, 0, UniRefFinder(proteinId, svc));
    FallbackPassFrame(info, 0, UniRefFinder(proteinId, svc));
    FallbackPassFills(info, 0, UniRefFinder(proteinId, svc));
    var filled := FallbackPass(info, 0, UniRefFinder(proteinId, svc)).0;
    assert DistinctKeys(filled) by {
      assert forall k :: 0 <= k < |filled| ==> filled[k].0 == info[k].0;
    }
    GetPosition(filled, j);
  }

  // ---------------------------------------------------------------------------
  // The driver object

  /** What the driver keeps true of its slots between steps: each key once, and a
      slot for every organism. */
  ghost predicate Slotted(info: Information) {
    DistinctKeys(info) && forall o: Organism :: Get(info, Some(o)).Some?
  }

  /** Slots whose keys stay in place, with any added after them, keep `Slotted`. */
  lemma SlottedKept(info: Information, r: Information)
    requires Slotted(info) && DistinctKeys(r)
    requires |r| >= |info| && forall i :: 0 <= i < |info| ==> r[i].0 == info[i].0
    ensures Slotted(r)
  {
    forall o: Organism
      ensures Get(r, Some(o)).Some?
    {
      var i :| 0 <= i < |info| && info[i].0 == Some(o);
      assert r[i].0 == Some(o);
    }
  }

  /** The construction starts `Slotted`. */
  lemma InitialSlotted(human: KbJson)
    ensures Slotted(InitialInformation(human))
  {
    InitialInformationShape(human);
    var info := InitialInformation(human);
    forall o: Organism
      ensures Get(info, Some(o)).Some?
    {
      if o != Human {
        assert Get(info, Some(o)) == Some(Unset);
      }
    }
  }

  /** The NCBI pass keeps the driver's slots `Slotted`. */
  lemma NcbiPassSlotted(ids: seq<(string, FoundRef)>, info: Information, svc: Services)
    requires Slotted(info)
    ensures Slotted(NcbiPass(ids, info, OrganismOfTaxKey, svc))
  {
    NcbiPassKeys(ids, info, OrganismOfTaxKey, svc);
    SlottedKept(info, NcbiPass(ids, info, OrganismOfTaxKey, svc));
  }

  /** The fallback pass keeps the driver's slots `Slotted`, also when it stops early. */
  lemma FallbackPassSlotted(info: Information, find: Finder)
    requires Slotted(info)
    ensures Slotted(FallbackPass(info, 0, find).0)
  {
    var r := FallbackPass(info, 0, find).0;
    FallbackPassKeys(info, 0, find);
    assert DistinctKeys(r) by {
      forall i, j | 0 <= i < j < |r|
        ensures r[i].0 != r[j].0
      {
        assert r[i].0 == info[i].0 && r[j].0 == info[j].0;
      }
    }
    SlottedKept(info, r);
  }

  class Driver {
    const services: Services
    var proteinInformation: Information

    /** One slot per organism, each key once. */
    ghost predicate Valid()
      reads this
    {
      Slotted(proteinInformation)
    }

    /** `Driver(protein_id)`: the services, then the initial slots. */
    constructor (proteinId: string, services: Services)
      ensures this.services == services
      ensures proteinInformation == InitialInformation(services.uniprot.fetch(proteinId))
      ensures Valid()
    {
      this.services := services;
      proteinInformation := [];
      new;
      SetProteinInformation(proteinId);
    }

    /** `_set_protein_information`: a None slot per organism, then the human entry. */
    method SetProteinInformation(proteinId: string)
      modifies this
      ensures proteinInformation == InitialInformation(services.uniprot.fetch(proteinId))
      ensures Valid()
    {
      var info: Information := [];
      for i := 0 to |AllOrganisms|
        invariant info == Blank(AllOrganisms[..i])
      {
        assert Get(info, Some(AllOrganisms[i])).None? by {
          RegistryComplete();
        }
        info := Put(info, Some(AllOrganisms[i]), Unset);
        assert Blank(AllOrganisms[..i + 1]) == Blank(AllOrganisms[..i]) + [(Some(AllOrganisms[i]), Unset)];
      }
      assert AllOrganisms[..|AllOrganisms|] == AllOrganisms;
      var humanData := services.uniprot.fetch(proteinId);
      proteinInformation := Put(info, Some(Human), UniProt(humanData));
      InitialSlotted(humanData);
    }

    /** `_get_annotations_text`: the GFF text of an accession's annotations. */
    method GetAnnotationsText(proteinId: string) returns (gff: Option<string>)
      ensures gff == Gff.GffOf(services.annotations(proteinId), proteinId)
    {
      var result := services.annotations(proteinId);
      gff := Gff.JsonToGff(result, proteinId);
    }

    /** `_create_proteins`, over the current slots. */
    method CreateProteins(proteinName: string, proteinId: string) returns (proteins: seq<(Organism, Protein)>)
      ensures proteins == ProteinsOf(proteinInformation, proteinName, proteinId, services)
    {
      proteins := [];
      var entries := proteinInformation;
      for i := 0 to |entries|
        invariant ProteinsFrom(entries[i..], proteins, proteinName, proteinId, services) ==
          ProteinsOf(entries, proteinName, proteinId, services)
      {
        assert entries[i..][1..] == entries[i + 1..];
        var (organism, results) := entries[i];
        if organism.Some? && Truthy(results) {
          if results.Ncbi? {
            var fasta := results.fasta;
            proteins := Put(proteins, organism.value, NcbiOrtholog(proteinName, proteinId, organism.value, fasta));
          } else {
            var acc := results.json.record.primaryAccession;
            var fasta := services.fasta(acc);
            var annotationsText := GetAnnotationsText(acc);
            var afPdb := services.alphaFold(acc);
            if afPdb.Some? {
              if organism.value == Human {
                proteins := Put(proteins, organism.value,
                  HumanProtein(proteinName, results.json.record, afPdb.value, annotationsText, fasta));
              } else {
                proteins := Put(proteins, organism.value,
                  UniProtOrtholog(proteinName, results.json.record, afPdb.value, annotationsText, organism.value, fasta));
              }
            }
          }
        }
      }
    }

    /** `drive`: resolve every ortholog, then build the proteins. */
    method Drive(proteinName: string, proteinId: string) returns (r: Result<seq<(Organism, Protein)>>)
      requires Valid()
      modifies this
      ensures (proteinInformation, r) == DriveOf(old(proteinInformation), proteinName, proteinId, services)
      ensures Valid()
    {
      var geneId := AnchorGeneId(proteinInformation);
      if geneId.Err? {
        return Err(geneId.fault);
      }
      var organismList := TaxIdsExcept(AllOrganisms, Human);
      var ncbiIds := GetOrthologs(geneId.value, organismList, services.orthologs, services.genePage);
      if ncbiIds.Err? {
        return Err(ncbiIds.fault);
      }
      StoreNcbiOrthologs(ncbiIds.value);
      var fault := FillFromUniRef(proteinId);
      if fault.Some? {
        return Err(fault.value);
      }
      var proteins := CreateProteins(proteinName, proteinId);
      return Ok(proteins);
    }
  
    /** The loop over the NCBI finder's pairs in `drive`: each reference is fetched
        and stored under the organism its taxonomy id names (or under None). */
    method StoreNcbiOrthologs(ids: seq<(string, FoundRef)>)
      requires Valid()
      modifies this
      ensures proteinInformation == NcbiPass(ids, old(proteinInformation), OrganismOfTaxKey, services)
      ensures Valid()
    {
      NcbiPassSlotted(ids, proteinInformation, services);
      for i := 0 to |ids|
        invariant NcbiPass(ids[i..], proteinInformation, OrganismOfTaxKey, services) == NcbiPass(ids, old(proteinInformation), OrganismOfTaxKey, services)
      {
        assert ids[i..][1..] == ids[i + 1..];
        var (organism, ref) := ids[i];
        var o := OrganismOfTaxKey(organism);
        if ref.UniProtRef? {
          proteinInformation := Put(proteinInformation, o, UniProt(services.uniprot.fetch(ref.accession)));
        } else if ref.NcbiRef? {
          proteinInformation := Put(proteinInformation, o, Ncbi(services.fetchNcbi(ref.accession)));
        }
      }
    }

    /** The loop over the slots in `drive`: every falsy slot gets the UniRef finder's
        answer; the fault, if one is raised, is returned. */
    method FillFromUniRef(proteinId: string) returns (fault: Option<Fault>)
      requires Valid()
      modifies this
      ensures (proteinInformation, fault) == FallbackPass(old(proteinInformation), 0, UniRefFinder(proteinId, services))
      ensures Valid()
    {
      FallbackPassSlotted(proteinInformation, UniRefFinder(proteinId, services));
      for i := 0 to |proteinInformation|
        invariant |proteinInformation| == |old(proteinInformation)|
        invariant FallbackPass(proteinInformation, i, UniRefFinder(proteinId, services)) ==
          FallbackPass(old(proteinInformation), 0, UniRefFinder(proteinId, services))
      {
        var (organism, data) := proteinInformation[i];
        if !Truthy(data) {
          var found := GetOrthologIds(proteinId, organism, services.uniprot, services.answer);
          if found.Err? {
            return Some(found.fault);
          }
          // An existing key: the assignment replaces the value in place.
          proteinInformation := proteinInformation[i := (organism, UniProt(found.value))];
        }
      }
      return None;
    }
  }
}
